# Verified models of weaveworks/service

This project models seven parts of the service in Dafny and proves what they promise: the
bounded-load consistent-hashing balancer, the billing-cycle calendar with the Zuora report, the usage
pipeline from BigQuery totals to uploads, the test scheduler, the parallel test runner, the rune trie
behind kubectl version matching, and the marketplace entitlement webhook.

`dafny verify dfyconfig.toml` checks all of it. The files, by part:

| part | files |
|---|---|
| balancer | `HashRing.dfy` (geometry of the ring), `BoundedLoads.dfy` (load arithmetic and the load bound), `Consistent.dfy` (the balancer), `ConsistentWrapper.dfy` (service discovery) |
| billing calendar and report | `Calendar.dfy`, `Intervals.dfy`, `BillingPeriod.dfy`, `Report.dfy` |
| usage pipeline | `Aggregates.dfy`, `UsageTable.dfy`, `Aggregator.dfy`, `Uploader.dfy`, `UsagePipeline.dfy` |
| test scheduler | `Sharding.dfy` (the greedy algorithm), `ScheduleStore.dfy` (concurrent requests) |
| test runner | `Runner.dfy` |
| trie | `Trie.dfy` |
| entitlements | `Entitlements.dfy` |
| shared | `Wrappers.dfy`, `FiniteSums.dfy`, `Seqs.dfy`, `Decimal.dfy` |

Main results:

- **Balancer.** The search for an endpoint ends exactly when the least load times the number of endpoints
  is below the factor times the new total; with a factor above 1 and matched releases this always holds
  (pigeonhole), and the search stops within one lap of the ring. It picks the first node clockwise whose
  endpoint admits the request, and leaves that endpoint within ceil(factor * total / n). Every operation
  keeps the ring invariant, and every operation says exactly when the documented load bound holds after
  it. Over every run no load exceeds the greatest limit that was in force. Adding endpoints moves hashes
  only to new registrations, removing them moves only hashes of the removed, and adding then removing
  restores the ring.
- **Calendar and report.** `NextCycleStart` is the least cycle start after its reference in every month
  and for every cycle day 1..31. The interval splitter tiles its range at exactly the cycle starts. The
  report has one line for each amount type and interval with usage, with exactly the sum of that usage.
- **Usage pipeline.** Over every interleaving of aggregator and uploader runs from an empty table, with
  upload failures, rollback failures and crashes between batches, a row is in at most one successful
  upload, and the amount delivered for a key never exceeds the largest total reported for it, with
  equality once all rows of the key are delivered.
- **Scheduler.** Longest-first greedy sharding is within (4m - 1) / 3m of any other distribution of the
  same tests over m shards; concurrent requests for one schedule all get slices of one partition, which is
  that good by the times recorded when it was computed.
- **Runner.** Hosts are conserved and never shared, the largest fitting test starts first, and the loop
  completes, deadlocks or panics exactly as the host counts of the tests say.
- **Trie.** The trie denotes the prefix closure of the strings added; `BestMatch` completes exactly when
  one maximal added string extends the longest match.
- **Entitlements.** In every reachable state, also in the middle of a handling with any call failing, a
  recorded cancellation means that both refusal flags are set; a message that is acknowledged has been
  worked through to its purpose, so an acknowledged cancellation leaves both flags set and recorded, and
  an acknowledged request for approval is approved;
  while the remote entitlements are cancelled a refusal can be lifted if and only if a handling under way
  still plans to enable access.

## Where the code and its documentation differ

- The balancer's documentation says that no endpoint has a load above the factor times the average
  (`authfe/balance/algo_consistent.go:36-43`). Admissions keep this bound (rounded up); releases, new
  endpoints and removed endpoints need not. `BoundedLoads.ReleaseBreaksBound`, `AddingBreaksBound` and
  `RemovingBreaksBound` are runs that break it; the contracts of `Get`, `Put`, `AddEndpoints` and
  `RemoveEndpoints` give the exact condition on the state before; `BoundedLoads.FixedEndpointsStayBelowPeak`
  and `LoadsStayBelowPeakLimit` are what holds over whole runs.
- A request put back after its endpoint was removed and registered again is charged to the new
  registration. `Balance.Consistent.Put` says exactly when loads and requests in flight stay in step;
  `Balance.LeftOverPut` drives the new registration's load to -1 on any ring.
- After such unmatched releases the search of `Get` may never end: exactly when the condition of
  `BoundedLoads.SomeoneAdmitsIff` fails, as in `BoundedLoads.OverReleaseStallsSearch`.
- `deleteFromSlice` drops the last key when the hash is absent; `Balance.DeleteFromSlice` states both cases.
- The report's "this should never log" branch is reached exactly when an aggregate's cycle was over by
  `from` (`Report.DroppedExactlyWhenStale`); it is unreachable for aggregates inside the range.
- `computeBillingPeriod` can return an upside-down period for a reference before the account's creation
  day; `BillingPeriod.BillingPeriodContainsReference` gives the exact condition.
- The aggregator's `instanceIDs` also asks for the empty instance ID, once per aggregate; this is harmless
  and kept in `Aggregator.InstanceIDs`.
- The in-memory database keeps rows whose bucket equals `through`, Postgres does not. The uploader relies
  on the strict bound (`billing-uploader/job/usage.go:120-124`), so the model uses it.
- `BestMatch` on a trie to which nothing was added returns the empty string and true.
- `parallel` deadlocks when a test needs more hosts than there are and panics on a negative host count.

## Model

| member | source | states |
|---|---|---|
| HashRing.Search | authfe/balance/algo_consistent.go:235-241 | binary search plus wrap-around finds the first key at or after the hash, or index 0 when there is none |
| HashRing.StartIndexIsClockwiseNext | authfe/balance/algo_consistent.go:233-247 | that index holds the node met first going clockwise from the hash, in terms of the set of nodes |
| HashRing.AddedNodesOnlyTake | authfe/balance/algo_consistent.go:136-159 | more nodes send a hash where it went before or to one of the added nodes |
| HashRing.RemovedNodesOnlyGive | authfe/balance/algo_consistent.go:178-206 | fewer nodes leave a hash alone that was not on a removed node |
| HashRing.OwnedUnique | authfe/balance/algo_consistent.go:146-150 | the hash-to-owner map is determined by the live endpoints |
| HashRing.OwnershipNeedsNoCollision | authfe/balance/algo_consistent.go:146-150 | two live endpoints can both own all their nodes only if no hashes coincide |
| HashRing.OwnersUnderGrowth | authfe/balance/algo_consistent.go:136-159 | registering endpoints keeps every node's owner, and added nodes belong to the new endpoints |
| Decimal.ItoaDenotes | authfe/balance/algo_consistent.go:123-126 | the numerals in node names and schedule IDs denote their numbers in base ten, without leading zeros |
| HashRing.SortIntsDistinct | authfe/balance/algo_consistent.go:155-155 | sorting distinct keys gives a strictly sorted sequence of the same keys |
| BoundedLoads.LoadOKIff | authfe/balance/algo_consistent.go:208-217 | free of rounding: an endpoint admits exactly when load * n < factor * (total + 1) |
| BoundedLoads.BelowAverageAdmits | authfe/balance/algo_consistent.go:208-217 | an endpoint at or below the average load satisfies load + 1 <= ceil(factor * (total + 1) / n) |
| BoundedLoads.SomeoneAdmitsIff | authfe/balance/algo_consistent.go:251-263 | for every non-empty set of loads: some endpoint admits exactly when the least loaded one does, that is when least * n < factor * (total + 1) |
| BoundedLoads.MatchedLoadsAdmit | authfe/balance/algo_consistent.go:208-263 | pigeonhole: for every non-empty set of loads with a non-negative total and factor above 1 some endpoint admits the next request |
| BoundedLoads.OverReleaseStallsSearch | authfe/balance/algo_consistent.go:251-263 | a single endpoint with five unmatched releases and factor 1.25: nobody admits |
| BoundedLoads.AdmissionAndBound | authfe/balance/algo_consistent.go:36-43 | after an admission the bound holds exactly when all loads were within the limit for one request more, so admissions keep it |
| BoundedLoads.ReleaseAndBound | authfe/balance/algo_consistent.go:278-296 | the exact condition for the bound after any release |
| BoundedLoads.ReleaseKeepsBoundIff | authfe/balance/algo_consistent.go:278-296 | a matched release breaks the bound if and only if it lowers the limit while another endpoint is full |
| BoundedLoads.EnrolmentAndBound | authfe/balance/algo_consistent.go:136-159 | after adding endpoints the bound holds exactly when the old loads are within the limit for the larger number |
| BoundedLoads.RetirementAndBound | authfe/balance/algo_consistent.go:178-206 | after removing endpoints the bound holds exactly when the loads that stay are within the limit for what is left |
| BoundedLoads.LoadsStayBelowPeakLimit | authfe/balance/algo_consistent.go:36-43 | over every run of admissions, releases, additions and removals no load exceeds the greatest limit in force so far |
| BoundedLoads.FixedEndpointsStayBelowPeak | authfe/balance/algo_consistent.go:36-43 | while the endpoints stay the same, every load is at most ceil(factor * greatest total so far / n) |
| BoundedLoads.ReleaseBreaksBound | authfe/balance/algo_consistent.go:36-43 | a run of admissions to a state within the bound, and a release that leaves it |
| BoundedLoads.AddingBreaksBound | authfe/balance/algo_consistent.go:36-43 | a run of admissions to a state within the bound, and an added endpoint that breaks it |
| BoundedLoads.RemovingBreaksBound | authfe/balance/algo_consistent.go:36-43 | a run of admissions to a state within the bound, and a removed endpoint that breaks it |
| Balance.DeleteFromSlice | authfe/balance/algo_consistent.go:161-176 | removes exactly the hash when present, drops the last key when absent |
| Balance.NewConsistent | authfe/balance/algo_consistent.go:95-116 | no balancer exactly for a non-zero load factor of at most 1; otherwise an empty valid ring |
| Balance.Consistent.constructor | authfe/balance/algo_consistent.go:95-116 | an empty valid ring, 256 replicas by default |
| Balance.Consistent.AddReplicas | authfe/balance/algo_consistent.go:146-150 | puts all replicas of one endpoint on the ring, keeping its shape |
| Balance.Consistent.AddOne | authfe/balance/algo_consistent.go:140-153 | one new idle registration, everything else unchanged, invariant kept |
| Balance.Consistent.AddEndpoints | authfe/balance/algo_consistent.go:136-159 | keeps the ring invariant and token balance, keeps old registrations, cells and loads, moves hashes only to new registrations; the exact condition for the load bound afterwards |
| Balance.Consistent.RemoveReplicas | authfe/balance/algo_consistent.go:193-197 | takes all replicas of one endpoint off the ring, keeping its shape |
| Balance.Consistent.RemoveOne | authfe/balance/algo_consistent.go:182-200 | drops a live endpoint with its load, skips an unknown one, invariant kept |
| Balance.Consistent.RemoveEndpoints | authfe/balance/algo_consistent.go:178-206 | drops exactly the given endpoints with their loads, keeps invariant and balance, and leaves hashes of staying endpoints where they were; the exact condition for the load bound afterwards |
| Balance.Consistent.AddThenRemove | authfe/balance/algo_consistent.go:136-206 | adding and removing endpoints restores keys, owners, loads, counters |
| Balance.AddDisruption | authfe/balance/algo_consistent.go:136-159 | for every hash: old registration or one of a new endpoint |
| Balance.RemoveDisruption | authfe/balance/algo_consistent.go:178-206 | for every hash routed to a staying endpoint: same registration |
| Balance.Consistent.Info | authfe/balance/algo_consistent.go:128-134 | finds the live registration of a key, and none for other keys |
| Balance.SomeNodeAdmits | authfe/balance/algo_consistent.go:251-263 | if some endpoint admits, then from any start within one lap some node does |
| Balance.NoNodeAdmits | authfe/balance/algo_consistent.go:251-263 | if no endpoint admits, no node of the ring does, so the search never ends |
| Balance.Consistent.MatchedRingServes | authfe/balance/algo_consistent.go:219-263 | a ring whose loads match the requests in flight, or whose total is not negative, always finds an endpoint |
| Balance.FirstToAdmitIsClockwiseNext | authfe/balance/algo_consistent.go:249-263 | in terms of the set of nodes: the first admitting node of the search is the first one with room that is met going clockwise from the hash |
| Balance.Consistent.NodesOfTheRing | authfe/balance/algo_consistent.go:123-150 | the nodes are exactly the hashes of a number below the replication count followed by a live endpoint's key, each owned by that endpoint |
| Balance.Consistent.FindAdmitting | authfe/balance/algo_consistent.go:249-263 | the search ends within one lap at the node with room that comes first clockwise from the hash |
| Balance.Consistent.Admit | authfe/balance/algo_consistent.go:265-267 | one more request on that endpoint and in the total, nothing else, invariant and balance kept |
| Balance.Consistent.Get | authfe/balance/algo_consistent.go:219-276 | the endpoint of the node that comes first clockwise from the key's hash, of all nodes with factor 0 and of those with load * n < factor * (total + 1) otherwise; then counted, and within ceil(factor * total / n) just after admission; keeps the load bound, with the exact condition for it |
| Balance.Consistent.Put | authfe/balance/algo_consistent.go:278-296 | the request that comes back leaves the requests in flight, whatever is charged; loads and requests stay in step if and only if nothing is charged or the request was made to the registration that is charged; the exact condition for the load bound afterwards |
| Balance.ChargedReturn | authfe/balance/algo_consistent.go:287-293 | charging a return to the current registration is right if and only if the request was made to it |
| Balance.LeftOverPut | authfe/balance/algo_consistent.go:265-293 | on any ring: get, remove, add again, put leaves the new registration with load -1 |
| Balance.TokensAreNonNegative | authfe/balance/algo_consistent.go:265-293 | loads that match the requests in flight have a non-negative total |
| ServiceDiscovery.ConsistentWrapper.Removals | authfe/balance/consistent.go:68-80 | exactly the cached instances that are not listed, in any order, leave the cache |
| ServiceDiscovery.ConsistentWrapper.Additions | authfe/balance/consistent.go:83-92 | exactly the listed instances that are not cached are added, repeated ones once |
| ServiceDiscovery.ConsistentWrapper.Update | authfe/balance/consistent.go:59-94 | the live endpoints become the listed instances; those that stay keep registration and load, all others start idle; errors change nothing |
| ServiceDiscovery.ConsistentWrapper.Get | authfe/balance/consistent.go:96-102 | an error exactly when there are no endpoints, else the endpoint of the clockwise first node (with room) for the key; loads stay matched |
| ServiceDiscovery.ConsistentWrapper.Put | authfe/balance/consistent.go:104-106 | forwards the release of the same request, with the same exact balance condition |
| Calendar.MonthStartClosedForm | common/time/time.go:15-18 | the first day of every month in closed form: 365 days a year, the leap days so far, and the days of the months before |
| Calendar.DaysInIsMonthLength | common/time/time.go:15-18 | day 0 of the next month is the last day of this one, for every month of the Gregorian calendar |
| Calendar.CycleStartDay | common/time/time.go:66-77 | a cycle begins in its own month on the cycle day, or on the last day of a month that does not have it, at midnight |
| Calendar.NextCycleStartIsLeast | common/time/time.go:66-77 | the result is the least cycle start strictly after the reference, for every date and cycle day 1..31 |
| Calendar.SameCycle | common/time/time.go:66-77 | two instants see the same next cycle start if and only if no cycle begins between them |
| Intervals.MonthlyIntervalsWithinRange | common/time/time.go:84-99 | terminates; succeeds exactly for a proper range and day 1..31; the intervals tile the range and each ends at the next cycle start or at the end |
| Intervals.TilesPartitionRange | common/time/time.go:84-99 | every instant of the range is in exactly one interval, no other instant in any |
| Intervals.PiecesAreCycles | common/time/time.go:84-99 | no cycle begins inside an interval, all its instants are in one cycle, every inner cut is a cycle start |
| BillingPeriod.MonthBillDateIsCycleStart | billing-api/routes/accounts.go:366-375 | the bill date of a month is the calendar's cycle start of that month |
| BillingPeriod.UntrimmedIsOneCycle | billing-api/routes/accounts.go:377-390 | before trimming the period is the whole cycle around the reference, ending at NextCycleStart of reference and of start |
| BillingPeriod.BillingPeriodContainsReference | billing-api/routes/accounts.go:377-403 | the period lies in the one cycle of the reference and contains it if and only if the creation day has begun; non-empty for references from creation on |
| BillingPeriod.PeriodIsOneSideOfTrial | billing-api/routes/accounts.go:392-402 | the period holds exactly the instants of the cycle from the creation day on, when the account was created in it, and otherwise those on the reference's side of the day the trial ends |
| BillingPeriod.PeriodBeforeCreationIsEmpty | billing-api/routes/accounts.go:393-395 | for every month, a reference before creation that gets an upside-down period |
| Report.GroupSums | common/zuora/report.go:144-153 | the grouped sums hold, for exactly the groups that occur, the sum of the group's aggregates, and together the total |
| Report.BucketTimeEndsPiece | common/zuora/report.go:148-152 | a group's bucket time falls in an interval only at its last instant |
| Report.InRangeBucketTime | common/zuora/report.go:148-152 | an aggregate inside the range is grouped for exactly the interval that holds its bucket start |
| Report.DroppedExactlyWhenStale | common/zuora/report.go:172-175 | a group misses every interval if and only if its cycle was over by `from` |
| Report.FindInterval | common/zuora/report.go:164-170 | finds an interval that contains the bucket time, or there is none |
| Report.ReportFromAggregates | common/zuora/report.go:140-179 | nothing is lost or counted twice; each group is dropped exactly when stale; inside the range each type and interval with usage has exactly one line with exactly its sum |
| UsageTable.SameKeyIff | billing-aggregator/job/aggregate.go:107-119 | two aggregates are reconciled together exactly when instance, hour and kind of usage agree |
| UsageTable.ListedSum | billing-aggregator/job/aggregate.go:121-127 | a list of distinct rows sums to at most the stored sum of a key, and to all of it when every row of the key is listed |
| UsageTable.MemoryDB.LastID | billing-api/db/memory.go:36-42 | the largest ID in use, 0 for an empty table |
| UsageTable.MemoryDB.InsertAggregates | billing-api/db/memory.go:33-53 | the aggregates get the next IDs in order, other rows stay, the duplicate error cannot occur |
| UsageTable.MemoryDB.GetAggregatesFrom | billing-api/db/memory.go:120-141 | lists each row of the given instances from the given time on exactly once |
| UsageTable.MemoryDB.GetAggregates | billing-api/db/postgres.go:155-165 | lists each row of the instance with a bucket in [from, through) exactly once |
| UsageTable.MemoryDB.GetAggregatesToUpload | billing-api/db/postgres.go:167-176 | lists exactly those of these rows that belong to no upload |
| UsageTable.MemoryDB.InsertUsageUpload | billing-api/db/memory.go:156-168 | records a new upload; the table stays in order if and only if all given rows exist, and then exactly these are marked with the upload's ID; other IDs get blank rows |
| UsageTable.KnownIDsAreMarked | billing-api/db/memory.go:162-166 | marking keeps rows under their own IDs if and only if it creates none |
| UsageTable.MemoryDB.DeleteUsageUpload | billing-api/db/memory.go:170-183 | removes the record and frees exactly the rows of that upload |
| UsageTable.UnmarkUndoesMark | billing-api/db/memory.go:156-183 | deleting an upload restores rows that were free before it |
| UsageTable.AppendSum | billing-api/db/memory.go:43-51 | inserting aggregates raises the stored sum of each key by exactly their sum |
| Aggregator.SumByKey | billing-aggregator/job/aggregate.go:121-127 | the sum of the aggregates of each key |
| Aggregator.Subtract | billing-aggregator/job/aggregate.go:94-105 | the reported aggregates reduced by the stored sums, without those that leave nothing |
| Aggregator.InstanceIDs | billing-aggregator/job/aggregate.go:86-92 | all instances of the batch, and besides them only the empty ID |
| Aggregator.DifferenceSum | billing-aggregator/job/aggregate.go:94-105 | the differences of a key sum to what its total exceeds the stored sum by, or to nothing |
| Aggregator.WholeHoursIff | common/bigquery/client.go:36-50 | the query takes whole hours only if and only if its start is a full hour |
| Aggregator.StartIsFullHour | billing-aggregator/job/aggregate.go:41-49 | the start of a run, given or six hours ago, is a full hour, so no partial totals are generated |
| Aggregator.ReconcileBatch | billing-aggregator/job/aggregate.go:68-78 | after a batch each reported key stores max(old sum, total), other keys and all old rows are unchanged, new rows are positive and free |
| Aggregator.Do | billing-aggregator/job/aggregate.go:40-84 | a run fails exactly when the query or one of its batches does, and has reconciled exactly the batches before; otherwise all of them |
| Aggregator.ReconciledConcat | billing-aggregator/job/aggregate.go:62-79 | reconciling two parts of a report one after the other reconciles the whole |
| Aggregator.RerunChangesNothing | billing-aggregator/job/aggregate.go:62-105 | a second run on the same report adds no row |
| Aggregator.CrashThenRerun | billing-aggregator/job/aggregate.go:62-105 | a crash between batches followed by a complete run stores the sums of one complete run |
| UsageUploader.UploadStats.Record | billing-uploader/job/usage.go:83-100 | IDs in order, count and sum by amount type are those of all aggregates recorded |
| UsageUploader.TalliesAdd | billing-uploader/job/usage.go:83-100 | count and sum of a kind of usage add up over aggregates, each of which counts for its own kind |
| UsageUploader.DueStep | billing-uploader/job/usage.go:146-187 | each billable organization adds exactly its own free rows of the period |
| UsageUploader.DueMeaning | billing-uploader/job/usage.go:124-170 | a free row is reported exactly when a supported organization with an ID and an ended trial owns it, and its bucket is within the last seven days and after the trial |
| UsageUploader.UploadReport | billing-uploader/job/usage.go:206-225 | which faults lead to success, rollback, a failed rollback or nothing, and the exact effect of each; the provider gets the report exactly on success |
| UsageUploader.Do | billing-uploader/job/usage.go:113-202 | a fault before uploading ends the run with an error and no change; otherwise it reports exactly the free rows of supported organizations from the last seven days and after the trial, once each, and uploads them unless there are none; the table changes only by that upload |
| UsagePipeline.RunAggregator | billing-aggregator/job/aggregate.go:40-84 | an aggregator run on the database is a step of the system, also when it stops early |
| UsagePipeline.RunUploader | billing-uploader/job/usage.go:113-225 | an uploader run on the database is a step of the system, whatever fails; a failed run delivers nothing, a successful one exactly the rows that were due, and a run without faults succeeds |
| UsagePipeline.RollbackRestoresRows | billing-uploader/job/usage.go:213-222 | a failed upload whose rollback works leaves all rows exactly as before |
| UsagePipeline.LedgerAlways | billing-uploader/job/usage.go:172-224 | after every sequence of runs: non-zero upload IDs name live records, sent rows carry their upload's ID, stored sums are the largest totals reported |
| UsagePipeline.AtMostOnce | billing-uploader/job/usage.go:172-224 | a row is in at most one successful upload, once, and rows with upload ID 0 are in none |
| UsagePipeline.LargestTotalIsLargest | billing-aggregator/job/aggregate.go:62-105 | the largest total is at least every total reported for the key, and is one of them unless it is 0 |
| UsagePipeline.DeliveredNeverExceedsReported | billing-aggregator/job/aggregate.go:40-105 | for every key the delivered amount is at most the largest total reported, and equal to it once all its rows are delivered |
| Sharding.SortByCost | tools/scheduler/main.py:80-83 | an ascending permutation of the tests |
| Sharding.Shortest | tools/scheduler/main.py:89-93 | the first of the least loaded shards |
| Sharding.FindShortest | tools/scheduler/main.py:89-93 | the loop finds that shard |
| Sharding.ComputeShards | tools/scheduler/main.py:80-95 | the loop computes the greedy schedule, which partitions the tests |
| Sharding.GreedyPartitions | tools/scheduler/main.py:85-95 | every test lands on a shard exactly as often as it was sent |
| Sharding.LongTestFits | tools/scheduler/main.py:86-95 | a test longer than a third of another distribution's limit still fits on the shortest shard within that limit |
| Sharding.ShortTestBound | tools/scheduler/main.py:86-95 | a shorter test keeps its shard within (4m - 1) / 3m of the limit |
| Sharding.GreedyIsNearlyOptimal | tools/scheduler/main.py:80-95 | 3m * load <= (4m - 1) * limit for every shard and every other distribution of the same tests over m shards |
| Decimal.DashedNumeralInjective | tools/scheduler/main.py:66-66 | a schedule ID determines test run and shard count |
| ScheduleStore.NextKeepsInv | tools/scheduler/main.py:65-99 | every atomic action keeps: answers are slices of the store, stored schedules partition some request's tests, entries never change |
| ScheduleStore.AnswersAreSlicesOfOnePartition | tools/scheduler/main.py:65-99 | over every interleaving, with costs changing, successful answers for one ID are slices of one stored partition of the right size |
| ScheduleStore.AnswersPartitionTests | tools/scheduler/main.py:65-99 | if all callers send the same tests, the answers for all shards partition them |
| ScheduleStore.DistinctTestsLandOnce | tools/scheduler/main.py:65-99 | in such a partition a test sent once is on one and only one shard |
| ScheduleStore.InsertedForGood | tools/scheduler/main.py:85-97 | what a request inserts partitions its own tests and stays in the store |
| ScheduleStore.InsertedIsNearlyOptimal | tools/scheduler/main.py:71-97 | what a request inserts is within (4m - 1) / 3m of any other distribution, by the times recorded when it computed it and 1 for tests without |
| ScheduleStore.AnswersAreNearlyOptimal | tools/scheduler/main.py:65-99 | over every interleaving, with costs changing, a successful answer is within that bound for the request that computed the schedule |
| ScheduleStore.Scheduler.Schedule | tools/scheduler/main.py:61-99 | with any events of other requests in between, serving a request is a run of the machine with look-up, computation and insertion as its own events; it succeeds exactly for a shard below the shard count, with that slice of the stored entry; existing entries stay and decide the answer, and an inserted entry partitions the request's tests, nearly optimally by the times recorded at its computation |
| Runner.SortDescending | tools/runner/runner.go:60-65 | a permutation in which no test is less than a later one |
| Runner.FirstFit | tools/runner/runner.go:67-77 | the first test that fits, or none fits |
| Runner.Pick | tools/runner/runner.go:67-77 | takes exactly that test out of the list, or changes nothing |
| Runner.HostsAreConserved | tools/runner/runner.go:206-241 | at every moment free and held hosts are the initial hosts, pending and started tests are the tests, and each test holds what it asked for |
| Runner.NoHostIsShared | tools/runner/runner.go:206-241 | with distinct hosts none is held twice, or held and free |
| Runner.ReportsAreConserved | tools/runner/runner.go:206-241 | at every moment the started tests are those running and those that reported, and the failed ones are exactly those that reported an error |
| Runner.LargestFitFirst | tools/runner/runner.go:206-228 | the test started is the greatest pending test that fits; none that fits needs more hosts |
| Runner.RunsAreShort | tools/runner/runner.go:212-238 | each step starts or retires a test, so a run of n tests takes at most 2n steps |
| Runner.NeverStuck | tools/runner/runner.go:212-238 | if every test needs 0 to all hosts, the loop never waits with nothing outstanding |
| Runner.Parallel | tools/runner/runner.go:206-241 | for every order of completions and every results: a legal run that completes, deadlocks or panics exactly as the host counts say; on completion all hosts are free, every test started once and reported once, failure is reported exactly when one of the results is an error, and the failed tests are the errored ones |
| Collections.Trie.constructor | common/collections/trie.go:3-10 | the trie of no strings |
| Collections.Trie.Add | common/collections/trie.go:23-38 | afterwards the trie denotes the prefix closure of the set of strings added so far, whatever their order |
| Collections.Trie.LongestMatch | common/collections/trie.go:40-55 | the longest prefix of the input in the closure; the flag is true if and only if it is the whole input |
| Collections.Trie.BestMatch | common/collections/trie.go:57-105 | an input in the closure is returned; otherwise true if and only if exactly one maximal added string extends the longest match, which is then returned; the chain-following loop terminates |
| Collections.Trie.LeafCompletes | common/collections/trie.go:95-100 | a chain that ends in a leaf is the unique completion |
| Collections.Trie.ForkDoesNotComplete | common/collections/trie.go:102-104 | a chain that ends in a fork has no unique completion |
| Collections.CompletionOfAdded | common/collections/trie.go:57-62 | unique completions in the closure are unique maximal added strings |
| Entitlements.CancelledMeansRefused | gcp-launcher-webhook/entitlement/messagehandler.go:182-227 | in every state of every run a recorded cancellation means both refusal flags are set |
| Entitlements.PerformKeepsSafe | gcp-launcher-webhook/entitlement/messagehandler.go:165-201 | which order of calls is safe: refuse before recording a cancellation, record before enabling |
| Entitlements.HandlingEnds | gcp-launcher-webhook/entitlement/messagehandler.go:89-163 | a message that asks for calls, fetched for an activated account, is worked through to its purpose or refused when the handler is next idle |
| Entitlements.AcknowledgedMessage | gcp-launcher-webhook/entitlement/messagehandler.go:89-163 | over a run: an acknowledged message, fetched for an activated account, has done what it is for, also when that is an approval |
| Entitlements.OnlyRequestsAreApproved | gcp-launcher-webhook/entitlement/messagehandler.go:89-118 | a step that approves something belongs to a creation request that waits for activation or a plan change that waits for approval, and approves just that |
| Entitlements.AcknowledgedCancellation | gcp-launcher-webhook/entitlement/messagehandler.go:137-143 | over a run: a cancellation fetched as cancelled for an activated account and acknowledged in any way leaves both flags set and the cancellation recorded |
| Entitlements.CancellationIsNotIgnored | gcp-launcher-webhook/entitlement/messagehandler.go:69-143 | over a run: such a cancellation ends refused, or handled with both flags set and recorded; it is never ignored |
| Entitlements.StaleMessagesLiftNothing | gcp-launcher-webhook/entitlement/messagehandler.go:48-163 | while the remote entitlements are cancelled no message lifts a refusal, unless a handling under way plans to |
| Entitlements.RefusalCanBeLiftedIff | gcp-launcher-webhook/entitlement/messagehandler.go:48-163 | with the remote entitlements cancelled, some run lifts a refusal if and only if a handling under way still plans an enabling call |
| Entitlements.OnlyActiveLifts | gcp-launcher-webhook/entitlement/messagehandler.go:104-131 | a step that lifts a refusal belongs to a handling that fetched the entitlement as active |
| Entitlements.CancelledDuringHandling | gcp-launcher-webhook/entitlement/messagehandler.go:48-131 | a run in which a cancellation during a handling is overtaken and access is enabled |
| Entitlements.MessageHandler.GetEntitlement | gcp-launcher-webhook/entitlement/messagehandler.go:48-60 | an error is not acknowledged, a missing entitlement is, a found one is used as fetched |
| Entitlements.MessageHandler.GetGCP | gcp-launcher-webhook/entitlement/messagehandler.go:69-87 | unknown and inactive accounts are acknowledged and ignored |
| Entitlements.MessageHandler.SetWeaveCloudAccessFlagsTo | gcp-launcher-webhook/entitlement/messagehandler.go:211-227 | organization, access flag, upload flag, in this order, stopping at the first error |
| Entitlements.MessageHandler.DoUpdateEntitlement | gcp-launcher-webhook/entitlement/messagehandler.go:165-180 | record first, then enable, as steps of the machine |
| Entitlements.MessageHandler.DoCancelEntitlement | gcp-launcher-webhook/entitlement/messagehandler.go:182-188 | refuse first, then record, as steps of the machine |
| Entitlements.MessageHandler.Handle | gcp-launcher-webhook/entitlement/messagehandler.go:27-163 | for every answer of the remote calls: which messages are acknowledged and what each leaves in accounts, flags and approvals (malformed messages and failed look-ups are not acknowledged and change nothing; updates, cancellations and approvals are acknowledged exactly when every call went through, and then all is done; anything else changes nothing); and the handling is a run of the machine from its delivery to the next idle state |

## Left out

- Balance.Consistent.AddEndpoints: assumes that the hashes of all virtual nodes of live and new endpoints are pairwise distinct and that the endpoints are new (registering a live one again makes two nodes share every hash), because the code does not handle collisions; `HashRing.OwnershipNeedsNoCollision` shows that distinct hashes are necessary.
- Balance.Consistent.RemoveEndpoints: assumes distinct hashes for the removed keys as well, since an unknown key is recognised by its first hash only.
- Balance.Consistent.AddReplicas: same assumption as AddEndpoints.
- Balance.Consistent.AddOne: same assumption as AddEndpoints.
- Balance.Consistent.AddThenRemove: same assumption as AddEndpoints.
- Balance.Consistent.RemoveOne: same assumption as RemoveEndpoints.
- Balance.Consistent.Info: same assumption as RemoveEndpoints.
- ServiceDiscovery.ConsistentWrapper.Update: same assumption on hashes; that endpoints are new when they are added is proved here, not assumed.
- Balance.Consistent.Get: assumes that some endpoint admits a request when loads are bounded, which is exactly when the search ends (`Balance.SomeNodeAdmits`, `Balance.NoNodeAdmits`).
- Balance.Consistent.FindAdmitting: same assumption as Get.
- ServiceDiscovery.ConsistentWrapper.Get: same assumption as Get.
- Balance.Consistent: `endpointInfo` pointers are numbers of cells in a table; hashes are unbounded integers of an arbitrary function; load factors are reals, so float rounding is not modelled; public methods are atomic, so the mutex and the gauges are left out; a negative replication count is excluded.
- Runner.Parallel: Go's slice aliasing is not modelled, since hosts and tests are sequences; the external test processes, timeouts and the console are reduced to "reports some time, with any result".
- UsageTable.MemoryDB.GetAggregates: uses the exclusive upper bound of Postgres; the order of rows is not modelled, because the in-memory comparator is not an order.
- UsageTable.MemoryDB.GetAggregatesToUpload: same upper bound and order as GetAggregates.
- UsageUploader.Do: organizations are assumed to be distinct in one response; an upload that fails after the provider accepted it counts as failed; a failed rollback has no effect; runs do not overlap.
- UsagePipeline.DeliveredNeverExceedsReported: covers uploader runs only, not the direct upload in `billing-api/routes/accounts.go`, which does not set upload IDs.
- Entitlements.MessageHandler.Handle: one message at a time; with several at once an update and a cancellation can interleave so that a cancelled account keeps access. Only this handler writes accounts and flags; the sign-up flow is not modelled.
- ScheduleStore.Scheduler.Schedule: recorded run times change arbitrarily between actions; the moving average, the parallelism parsed from test names and garbage collection are left out.
- Sharding.GreedyIsNearlyOptimal: costs are non-negative reals.
- Report.ReportFromAggregates: a line is a tuple; date formatting, descriptions and CSV are left out; the subscription filter is left out.
- Collections.Trie.Add: strings are sequences of Unicode characters; invalid UTF-8 is not modelled.
- Calendar: all times are UTC; amounts and times do not overflow.
- HTTP, gRPC, SQL, DynamoDB, SQS, NATS, metrics, logging, tracing, flags, templates and dashboards: I/O and configuration.
- Round-robin balancing, coverage merging, notification batching, duration units, dashboard filtering, trial arithmetic, feature flags, routing, permissions and JWT checks: easier members that would add little.
