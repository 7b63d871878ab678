/** The marketplace webhook: messages that may be late, repeated or out of order drive a
    sequence of remote writes, any of which can fail. */
module Entitlements {
  import opened Wrappers

  datatype EntitlementState =
    | ActivationRequested | Active | PendingCancellation | Cancelled
    | PendingPlanChange | PendingPlanChangeApproval | Suspended

  datatype Entitlement = Entitlement(
    name: string, account: string, plan: string, newPendingPlan: string,
    state: EntitlementState, usageReportingID: string)

  datatype EventType =
    | CreationRequested | EntitlementActive | PlanChangeRequested | PlanChanged | PlanChangeCancelled
    | EntitlementCancelled | EntitlementPendingCancellation | CancellationReverted | Deleted | Unknown

  datatype Message =
    | Empty
    | Malformed
    | Payload(event: EventType, entitlementID: string)

  /** What we keep about a customer's marketplace account. */
  datatype Account = Account(
    activated: bool, consumerID: string, subscriptionName: string, level: string, status: Option<EntitlementState>)

  /** The organization's flags that shut a customer out. */
  datatype Flags = Flags(refuseDataAccess: bool, refuseDataUpload: bool)

  /** What the marketplace was asked to approve. */
  datatype Approval =
    | EntitlementApproval(name: string)
    | PlanChangeApproval(name: string, plan: string)

  datatype World = World(
    remote: map<string, Entitlement>, accounts: map<string, Account>, orgs: map<string, Flags>,
    approvals: seq<Approval>)

  // ---------------------------------------------------------------- what a message makes us do

  datatype Call =
    | UpdateGCP
    | GetOrganization
    | SetRefuseAccess(value: bool)
    | SetRefuseUpload(value: bool)
    | ApproveEntitlement
    | ApprovePlanChange

  datatype Calls = Nothing | Then(first: Call, rest: Calls)

  function UpdateEntitlement(): Calls {
    Then(UpdateGCP, Then(GetOrganization, Then(SetRefuseAccess(false), Then(SetRefuseUpload(false), Nothing))))
  }

  function CancelEntitlement(): Calls {
    Then(GetOrganization, Then(SetRefuseAccess(true), Then(SetRefuseUpload(true), Then(UpdateGCP, Nothing))))
  }

  /** The calls to make, in order, for an event about an entitlement fetched as `ent`. */
  function Plan(event: EventType, ent: Entitlement): Calls {
    match event
    case CreationRequested => if ent.state == ActivationRequested then Then(ApproveEntitlement, Nothing) else Nothing
    case EntitlementActive => if ent.state == Active then UpdateEntitlement() else Nothing
    case PlanChangeRequested =>
      if ent.state == PendingPlanChangeApproval then Then(ApprovePlanChange, Nothing) else Nothing
    case PlanChanged => if ent.state == Active then UpdateEntitlement() else Nothing
    case EntitlementCancelled => if ent.state == Cancelled then CancelEntitlement() else Nothing
    case _ => Nothing
  }

  predicate IsUpdate(event: EventType, ent: Entitlement) {
    (event == EntitlementActive || event == PlanChanged) && ent.state == Active
  }

  predicate IsCancel(event: EventType, ent: Entitlement) {
    event == EntitlementCancelled && ent.state == Cancelled
  }

  /** A call succeeds, fails without effect, or fails after it took effect. */
  datatype Outcome = Done | Lost | AppliedButFailed

  function Record(ent: Entitlement): Account {
    Account(true, ent.usageReportingID, ent.name, ent.plan, Some(ent.state))
  }

  /** The effect of one call on the world, and whether the handler may go on. */
  function Perform(w: World, ent: Entitlement, call: Call, outcome: Outcome): (World, bool) {
    var acc := ent.account;
    if outcome == Lost then (w, false)
    else
      match call
      case UpdateGCP =>
        if acc in w.accounts then (w.(accounts := w.accounts[acc := Record(ent)]), outcome == Done)
        else (w, false)
      case GetOrganization => (w, acc in w.orgs && outcome == Done)
      case SetRefuseAccess(value) =>
        if acc in w.orgs then (w.(orgs := w.orgs[acc := w.orgs[acc].(refuseDataAccess := value)]), outcome == Done)
        else (w, false)
      case SetRefuseUpload(value) =>
        if acc in w.orgs then (w.(orgs := w.orgs[acc := w.orgs[acc].(refuseDataUpload := value)]), outcome == Done)
        else (w, false)
      case ApproveEntitlement =>
        (w.(approvals := w.approvals + [EntitlementApproval(ent.name)]), outcome == Done)
      case ApprovePlanChange =>
        (w.(approvals := w.approvals + [PlanChangeApproval(ent.name, ent.newPendingPlan)]), outcome == Done)
  }

  // ---------------------------------------------------------------- the handler as a machine

  datatype Verdict =
    | NothingYet
    | Ignored                                      // acknowledged without doing anything
    | Handled(event: EventType, ent: Entitlement)  // acknowledged after all calls went through
    | Refused                                      // not acknowledged, will be delivered again

  datatype Phase =
    | Idle(last: Verdict)
    | Reading(event: EventType, entitlementID: string)
    | Fetched(event: EventType, ent: Entitlement)
    | Calling(event: EventType, ent: Entitlement, calls: Calls)

  datatype State = State(world: World, phase: Phase)

  datatype Action =
    | RemoteChanges(remote: map<string, Entitlement>)
    | Deliver(msg: Message)
    | FetchEntitlement(ok: bool)
    | FetchAccount(ok: bool)
    | MakeCall(outcome: Outcome)

  /** The next state; an action that is not due changes nothing. */
  function Next(s: State, act: Action): State {
    match act
    case RemoteChanges(remote) => s.(world := s.world.(remote := remote))
    case Deliver(msg) => if s.phase.Idle? then s.(phase := Receive(msg)) else s
    case FetchEntitlement(ok) =>
      if s.phase.Reading? then s.(phase := AfterFetch(s.world, s.phase.event, s.phase.entitlementID, ok)) else s
    case FetchAccount(ok) =>
      if s.phase.Fetched? then s.(phase := AfterAccount(s.world, s.phase.event, s.phase.ent, ok)) else s
    case MakeCall(outcome) =>
      if s.phase.Calling? && s.phase.calls.Then? then
        AfterCall(s.world, s.phase.event, s.phase.ent, s.phase.calls, outcome)
      else s
  }

  function Receive(msg: Message): Phase {
    match msg
    case Empty => Idle(Ignored)
    case Malformed => Idle(Refused)
    case Payload(event, id) => if id == "" then Idle(Ignored) else Reading(event, id)
  }

  function AfterFetch(w: World, event: EventType, id: string, ok: bool): Phase {
    if !ok then Idle(Refused)
    else if id !in w.remote then Idle(Ignored)
    else Fetched(event, w.remote[id])
  }

  function AfterAccount(w: World, event: EventType, ent: Entitlement, ok: bool): Phase {
    if !ok then Idle(Refused)
    else if ent.account !in w.accounts then Idle(Ignored)
    else if !w.accounts[ent.account].activated then Idle(Ignored)
    else if Plan(event, ent).Nothing? then Idle(Ignored)
    else Calling(event, ent, Plan(event, ent))
  }

  function AfterCall(w: World, event: EventType, ent: Entitlement, calls: Calls, outcome: Outcome): State
    requires calls.Then?
  {
    var (w', ok) := Perform(w, ent, calls.first, outcome);
    State(w',
      if !ok then Idle(Refused)
      else if calls.rest.Nothing? then Idle(Handled(event, ent))
      else Calling(event, ent, calls.rest))
  }

  ghost predicate IsRun(run: seq<State>) {
    forall k :: 0 <= k < |run| - 1 ==> Follows(run[k], run[k + 1])
  }

  ghost predicate Follows(s: State, s': State) {
    exists act :: s' == Next(s, act)
  }

  // ---------------------------------------------------------------- safety

  predicate Refusing(w: World, acc: string) {
    acc in w.orgs && w.orgs[acc].refuseDataAccess && w.orgs[acc].refuseDataUpload
  }

  predicate RecordedCancelled(w: World, acc: string) {
    acc in w.accounts && w.accounts[acc].status == Some(Cancelled)
  }

  /** Whoever is recorded as cancelled is shut out. */
  ghost predicate Safe(w: World) {
    forall acc :: RecordedCancelled(w, acc) ==> Refusing(w, acc)
  }

  /** The account record says what the entitlement was fetched as. */
  predicate Recorded(w: World, ent: Entitlement) {
    ent.account in w.accounts && w.accounts[ent.account] == Record(ent)
  }

  predicate Enabled(w: World, acc: string) {
    acc in w.orgs && !w.orgs[acc].refuseDataAccess && !w.orgs[acc].refuseDataUpload
  }

  predicate Activated(w: World, acc: string) {
    acc in w.accounts && w.accounts[acc].activated
  }

  /** The calls still to make are the tail of a plan, and the calls before it had their effect. */
  predicate OnTrack(w: World, event: EventType, ent: Entitlement, calls: Calls) {
    var acc, update, cancel := ent.account, UpdateEntitlement(), CancelEntitlement();
    if IsUpdate(event, ent) then
      || calls == update
      || (calls == update.rest && Recorded(w, ent))
      || (calls == update.rest.rest && Recorded(w, ent))
      || (calls == update.rest.rest.rest && Recorded(w, ent) && acc in w.orgs && !w.orgs[acc].refuseDataAccess)
    else if IsCancel(event, ent) then
      || calls == cancel
      || calls == cancel.rest
      || (calls == cancel.rest.rest && acc in w.orgs && w.orgs[acc].refuseDataAccess)
      || (calls == cancel.rest.rest.rest && Refusing(w, acc))
    else
      calls == Plan(event, ent) && calls.Then? && calls.rest.Nothing?
  }

  /** What a message that was worked through to the end is for. */
  predicate Accomplished(w: World, event: EventType, ent: Entitlement) {
    && (IsUpdate(event, ent) ==> Recorded(w, ent) && Enabled(w, ent.account))
    && (IsCancel(event, ent) ==> Recorded(w, ent) && Refusing(w, ent.account))
    && (event == CreationRequested && ent.state == ActivationRequested ==>
          EntitlementApproval(ent.name) in w.approvals)
    && (event == PlanChangeRequested && ent.state == PendingPlanChangeApproval ==>
          PlanChangeApproval(ent.name, ent.newPendingPlan) in w.approvals)
  }

  ghost predicate Inv(s: State) {
    && Safe(s.world)
    && (s.phase.Calling? ==> OnTrack(s.world, s.phase.event, s.phase.ent, s.phase.calls))
  }

  /** Recording a cancellation is safe after refusing access; enabling access is safe after
      recording that the subscription is not cancelled. */
  lemma PerformKeepsSafe(w: World, ent: Entitlement, call: Call, outcome: Outcome)
    requires Safe(w)
    requires call.UpdateGCP? && ent.state == Cancelled ==> Refusing(w, ent.account)
    requires call == SetRefuseAccess(false) || call == SetRefuseUpload(false) ==> !RecordedCancelled(w, ent.account)
    ensures Safe(Perform(w, ent, call, outcome).0)
  {
    var w' := Perform(w, ent, call, outcome).0;
    forall acc | RecordedCancelled(w', acc)
      ensures Refusing(w', acc)
    {
      if acc != ent.account || !call.UpdateGCP? {
        assert RecordedCancelled(w, acc);
      }
    }
  }

  /** A call leads to the next one of the plan, to the end with everything done, or to a refusal. */
  lemma CallStaysOnTrack(w: World, event: EventType, ent: Entitlement, calls: Calls, outcome: Outcome)
    requires OnTrack(w, event, ent, calls) && calls.Then?
    ensures var s' := AfterCall(w, event, ent, calls, outcome);
            || s'.phase == Idle(Refused)
            || (s'.phase == Idle(Handled(event, ent)) && Accomplished(s'.world, event, ent))
            || (s'.phase == Calling(event, ent, calls.rest) && OnTrack(s'.world, event, ent, calls.rest))
  { }

  lemma CallKeepsInv(s: State, outcome: Outcome)
    requires Inv(s) && s.phase.Calling? && s.phase.calls.Then?
    ensures Inv(Next(s, MakeCall(outcome)))
  {
    hide Safe;
    PerformKeepsSafe(s.world, s.phase.ent, s.phase.calls.first, outcome);
    CallStaysOnTrack(s.world, s.phase.event, s.phase.ent, s.phase.calls, outcome);
  }

  lemma NextKeepsInv(s: State, act: Action)
    requires Inv(s)
    ensures Inv(Next(s, act))
  {
    if act.MakeCall? {
      if s.phase.Calling? && s.phase.calls.Then? {
        CallKeepsInv(s, act.outcome);
      }
    } else {
      QuietStepKeepsInv(s, act);
    }
  }

  lemma QuietStepKeepsInv(s: State, act: Action)
    requires Inv(s) && !act.MakeCall?
    ensures Inv(Next(s, act))
  {
    var s' := Next(s, act);
    assert forall acc :: RecordedCancelled(s'.world, acc) <==> RecordedCancelled(s.world, acc);
    assert forall acc :: Refusing(s'.world, acc) <==> Refusing(s.world, acc);
  }

  lemma {:induction false} InvAlways(run: seq<State>, k: nat)
    requires IsRun(run) && k < |run|
    requires Safe(run[0].world) && run[0].phase == Idle(NothingYet)
    ensures Inv(run[k])
  {
    if k > 0 {
      InvAlways(run, k - 1);
      assert Follows(run[k - 1], run[k - 1 + 1]);
      var act :| run[k] == Next(run[k - 1], act);
      NextKeepsInv(run[k - 1], act);
    }
  }

  /** In every reachable state, also in the middle of a handling, a recorded cancellation means
      that both refusal flags are set. */
  lemma CancelledMeansRefused(run: seq<State>, k: nat, acc: string)
    requires IsRun(run) && k < |run|
    requires Safe(run[0].world) && run[0].phase == Idle(NothingYet)
    ensures RecordedCancelled(run[k].world, acc) ==> Refusing(run[k].world, acc)
  {
    InvAlways(run, k);
  }

  // ---------------------------------------------------------------- acknowledged messages

  /** The entitlement has been fetched for an activated account, and the calls are under way. */
  predicate Working(s: State, event: EventType, ent: Entitlement) {
    || (s.phase == Fetched(event, ent) && Activated(s.world, ent.account))
    || (s.phase.Calling? && s.phase == Calling(event, ent, s.phase.calls)
        && OnTrack(s.world, event, ent, s.phase.calls))
  }

  lemma WorkStep(s: State, act: Action, event: EventType, ent: Entitlement)
    requires Working(s, event, ent) && Plan(event, ent).Then?
    ensures var s' := Next(s, act);
            || Working(s', event, ent)
            || s'.phase == Idle(Refused)
            || (s'.phase == Idle(Handled(event, ent)) && Accomplished(s'.world, event, ent))
  {
    if s.phase.Calling? && act.MakeCall? {
      hide OnTrack, AfterCall;
      if s.phase.calls.Then? {
        CallStaysOnTrack(s.world, event, ent, s.phase.calls, act.outcome);
      }
    }
  }

  lemma {:induction false} WorksOn(run: seq<State>, i: nat, k: nat, event: EventType, ent: Entitlement)
    requires IsRun(run) && i <= k < |run| && Plan(event, ent).Then? && Working(run[i], event, ent)
    requires forall m :: i <= m <= k ==> !run[m].phase.Idle?
    ensures Working(run[k], event, ent)
    decreases k
  {
    if i < k {
      WorksOn(run, i, k - 1, event, ent);
      assert Follows(run[k - 1], run[k - 1 + 1]);
      var act :| run[k] == Next(run[k - 1], act);
      WorkStep(run[k - 1], act, event, ent);
    }
  }

  /** A message that asks for calls, about an entitlement just fetched for an activated account, is
      worked through to its purpose or not acknowledged: when the handler is next idle, at `j`. */
  lemma HandlingEnds(run: seq<State>, i: nat, j: nat, event: EventType, ent: Entitlement)
    requires IsRun(run) && i < j < |run|
    requires run[i].phase == Fetched(event, ent) && Activated(run[i].world, ent.account) && Plan(event, ent).Then?
    requires run[j].phase.Idle? && forall m :: i <= m < j ==> !run[m].phase.Idle?
    ensures || run[j].phase == Idle(Refused)
            || (run[j].phase == Idle(Handled(event, ent)) && Accomplished(run[j].world, event, ent))
  {
    WorksOn(run, i, j - 1, event, ent);
    assert Follows(run[j - 1], run[j - 1 + 1]);
    var act :| run[j] == Next(run[j - 1], act);
    WorkStep(run[j - 1], act, event, ent);
  }

  lemma NoPlanNothingToDo(w: World, event: EventType, ent: Entitlement)
    requires Plan(event, ent).Nothing?
    ensures Accomplished(w, event, ent)
  { }

  /** An acknowledged message has done what it is for: in particular, a requested entitlement that
      waited for its activation, and a requested plan change that waited for approval, are approved. */
  lemma AcknowledgedMessage(run: seq<State>, i: nat, j: nat, event: EventType, ent: Entitlement)
    requires IsRun(run) && i < j < |run|
    requires run[i].phase == Fetched(event, ent) && Activated(run[i].world, ent.account)
    requires run[j].phase.Idle? && forall m :: i <= m < j ==> !run[m].phase.Idle?
    requires run[j].phase.last != Refused
    ensures Accomplished(run[j].world, event, ent)
    ensures event == CreationRequested && ent.state == ActivationRequested ==>
      EntitlementApproval(ent.name) in run[j].world.approvals
    ensures event == PlanChangeRequested && ent.state == PendingPlanChangeApproval ==>
      PlanChangeApproval(ent.name, ent.newPendingPlan) in run[j].world.approvals
  {
    if Plan(event, ent).Then? {
      HandlingEnds(run, i, j, event, ent);
    } else {
      NoPlanNothingToDo(run[j].world, event, ent);
    }
  }

  /** A cancellation fetched as cancelled for an activated account is never ignored: it is refused,
      to be delivered again, or handled, with both flags set and the cancellation recorded. */
  lemma CancellationIsNotIgnored(run: seq<State>, i: nat, j: nat, ent: Entitlement)
    requires IsRun(run) && i < j < |run|
    requires run[i].phase == Fetched(EntitlementCancelled, ent) && ent.state == Cancelled
    requires Activated(run[i].world, ent.account)
    requires run[j].phase.Idle? && forall m :: i <= m < j ==> !run[m].phase.Idle?
    ensures || run[j].phase == Idle(Refused)
            || (run[j].phase == Idle(Handled(EntitlementCancelled, ent))
                && Refusing(run[j].world, ent.account) && RecordedCancelled(run[j].world, ent.account))
  {
    HandlingEnds(run, i, j, EntitlementCancelled, ent);
  }

  /** So an acknowledged cancellation, whatever the acknowledgement, leaves both flags set and the
      cancellation recorded. */
  lemma AcknowledgedCancellation(run: seq<State>, i: nat, j: nat, ent: Entitlement)
    requires IsRun(run) && i < j < |run|
    requires run[i].phase == Fetched(EntitlementCancelled, ent) && ent.state == Cancelled
    requires Activated(run[i].world, ent.account)
    requires run[j].phase.Idle? && forall m :: i <= m < j ==> !run[m].phase.Idle?
    requires run[j].phase.last != Refused
    ensures Refusing(run[j].world, ent.account) && RecordedCancelled(run[j].world, ent.account)
  {
    CancellationIsNotIgnored(run, i, j, ent);
  }

  /** Nothing is approved but what was asked for, in a state that allows it: a new entitlement that
      waits for its activation, or a plan change that waits for approval. */
  lemma OnlyRequestsAreApproved(s: State, act: Action)
    requires Inv(s) && Next(s, act).world.approvals != s.world.approvals
    ensures s.phase.Calling?
    ensures var event, ent, asked := s.phase.event, s.phase.ent, Next(s, act).world.approvals;
            || (event == CreationRequested && ent.state == ActivationRequested
                && asked == s.world.approvals + [EntitlementApproval(ent.name)])
            || (event == PlanChangeRequested && ent.state == PendingPlanChangeApproval
                && asked == s.world.approvals + [PlanChangeApproval(ent.name, ent.newPendingPlan)])
  {
    hide Safe;
  }

  // ---------------------------------------------------------------- stale messages

  ghost predicate RemotelyCancelled(w: World, acc: string) {
    forall id :: id in w.remote && w.remote[id].account == acc ==> w.remote[id].state == Cancelled
  }

  /** A handling in progress still plans to enable access for `acc`. */
  predicate WillEnable(s: State, acc: string) {
    match s.phase
    case Fetched(event, ent) => ent.account == acc && !OnlyRefuses(Plan(event, ent))
    case Calling(_, ent, calls) => ent.account == acc && !OnlyRefuses(calls)
    case _ => false
  }

  predicate OnlyRefuses(calls: Calls) {
    calls.Then? ==>
      calls.first != SetRefuseAccess(false) && calls.first != SetRefuseUpload(false) && OnlyRefuses(calls.rest)
  }

  lemma CancelledPlansOnlyRefuse(event: EventType, ent: Entitlement)
    requires ent.state == Cancelled
    ensures OnlyRefuses(Plan(event, ent))
  { }

  predicate NotLifted(w: World, w': World, acc: string) {
    acc in w.orgs ==>
      && acc in w'.orgs
      && (w.orgs[acc].refuseDataAccess ==> w'.orgs[acc].refuseDataAccess)
      && (w.orgs[acc].refuseDataUpload ==> w'.orgs[acc].refuseDataUpload)
  }

  lemma StepDoesNotLift(s: State, act: Action, acc: string)
    requires RemotelyCancelled(s.world, acc) && !WillEnable(s, acc)
    ensures !WillEnable(Next(s, act), acc)
    ensures NotLifted(s.world, Next(s, act).world, acc)
  {
    hide Plan;
    if act.FetchEntitlement? && s.phase.Reading? && s.phase.entitlementID in s.world.remote {
      var ent := s.world.remote[s.phase.entitlementID];
      if ent.account == acc {
        CancelledPlansOnlyRefuse(s.phase.event, ent);
      }
    }
  }

  /** While all of a customer's entitlements are remotely cancelled, no message, however stale,
      repeated or reordered, lifts a refusal, unless a handling under way plans to. */
  lemma {:induction false} StaleMessagesLiftNothing(run: seq<State>, acc: string, k: nat)
    requires IsRun(run) && k < |run|
    requires forall i :: 0 <= i < |run| ==> RemotelyCancelled(run[i].world, acc)
    requires !WillEnable(run[0], acc)
    ensures NotLifted(run[0].world, run[k].world, acc) && !WillEnable(run[k], acc)
  {
    if k > 0 {
      StaleMessagesLiftNothing(run, acc, k - 1);
      assert Follows(run[k - 1], run[k - 1 + 1]);
      var act :| run[k] == Next(run[k - 1], act);
      StepDoesNotLift(run[k - 1], act, acc);
    }
  }

  /** A run from `s` in which the remote entitlements of `acc` stay cancelled and a refusal of `acc`
      is lifted. */
  ghost predicate LiftingRun(run: seq<State>, s: State, acc: string) {
    && run != [] && IsRun(run) && run[0] == s
    && (forall i :: 0 <= i < |run| ==> RemotelyCancelled(run[i].world, acc))
    && !NotLifted(s.world, run[|run| - 1].world, acc)
  }

  /** If all calls go through, the first enabling call lifts a refusal. */
  lemma {:induction false} PlannedCallsLift(s: State, acc: string) returns (run: seq<State>)
    requires s.phase.Calling? && s.phase.ent.account == acc && !OnlyRefuses(s.phase.calls)
    requires RemotelyCancelled(s.world, acc) && Refusing(s.world, acc) && acc in s.world.accounts
    ensures LiftingRun(run, s, acc)
    decreases s.phase.calls
  {
    var s' := Next(s, MakeCall(Done));
    assert s'.world.remote == s.world.remote;
    var first := s.phase.calls.first;
    if first == SetRefuseAccess(false) || first == SetRefuseUpload(false) {
      run := [s, s'];
      assert Follows(run[0], run[1]);
    } else {
      var rest := PlannedCallsLift(s', acc);
      run := PrependState(s, s', rest, MakeCall(Done));
    }
  }

  lemma PrependState(s: State, s': State, rest: seq<State>, act: Action) returns (run: seq<State>)
    requires s' == Next(s, act) && rest != [] && IsRun(rest) && rest[0] == s'
    ensures run == [s] + rest && IsRun(run)
  {
    run := [s] + rest;
    assert Follows(s, s');
    forall k | 0 <= k < |run| - 1
      ensures Follows(run[k], run[k + 1])
    {
      if k > 0 {
        assert Follows(rest[k - 1], rest[k - 1 + 1]);
      }
    }
  }

  /** The exception is exact: with all entitlements remotely cancelled, a customer who is shut out
      can be let in again if and only if a handling under way still plans to. */
  lemma RefusalCanBeLiftedIff(s: State, acc: string)
    requires RemotelyCancelled(s.world, acc) && Refusing(s.world, acc) && Activated(s.world, acc)
    ensures (exists run :: LiftingRun(run, s, acc)) <==> WillEnable(s, acc)
  {
    if WillEnable(s, acc) {
      if s.phase.Calling? {
        var run := PlannedCallsLift(s, acc);
      } else {
        var s' := Next(s, FetchAccount(true));
        var rest := PlannedCallsLift(s', acc);
        var run := PrependState(s, s', rest, FetchAccount(true));
        assert LiftingRun(run, s, acc);
      }
    }
    if run :| LiftingRun(run, s, acc) {
      if !WillEnable(s, acc) {
        StaleMessagesLiftNothing(run, acc, |run| - 1);
      }
    }
  }

  /** Any step that lifts a refusal belongs to a handling that fetched the entitlement as active. */
  lemma OnlyActiveLifts(s: State, act: Action, acc: string)
    requires Inv(s)
    requires !NotLifted(s.world, Next(s, act).world, acc)
    ensures s.phase.Calling? && s.phase.ent.account == acc && s.phase.ent.state == Active
    ensures !RecordedCancelled(s.world, acc)
  {
    hide Safe;
  }

  /** The exception is real: a cancellation that lands between fetching the entitlement and the
      last calls is overtaken, and access is enabled for a cancelled customer. */
  lemma CancelledDuringHandling(ent: Entitlement, w: World) returns (run: seq<State>)
    requires ent.state == Active
    requires ent.account in w.accounts && w.accounts[ent.account].activated && Refusing(w, ent.account)
    ensures IsRun(run) && |run| == 9
    ensures run[0] == State(w.(remote := map["1" := ent]), Idle(NothingYet))
    ensures RemotelyCancelled(run[8].world, ent.account)
    ensures run[8].phase == Idle(Handled(EntitlementActive, ent))
    ensures ent.account in run[8].world.orgs && run[8].world.orgs[ent.account] == Flags(false, false)
  {
    var s0 := State(w.(remote := map["1" := ent]), Idle(NothingYet));
    var s1 := Next(s0, Deliver(Payload(EntitlementActive, "1")));
    var s2 := Next(s1, FetchEntitlement(true));
    var s3 := Next(s2, FetchAccount(true));
    assert s3.phase == Calling(EntitlementActive, ent, UpdateEntitlement());
    var s4 := Next(s3, RemoteChanges(map["1" := ent.(state := Cancelled)]));
    var s8 := EnablesAccess(s4);
    var s5 := Next(s4, MakeCall(Done));
    var s6 := Next(s5, MakeCall(Done));
    var s7 := Next(s6, MakeCall(Done));
    run := [s0, s1, s2, s3, s4, s5, s6, s7, s8];
    assert Follows(s0, s1) && Follows(s1, s2) && Follows(s2, s3) && Follows(s3, s4);
    assert Follows(s4, s5) && Follows(s5, s6) && Follows(s6, s7) && Follows(s7, s8);
  }

  /** Four successful calls take an update to its end. */
  lemma EnablesAccess(s: State) returns (end: State)
    requires s.phase.Calling? && s.phase.calls == UpdateEntitlement()
    requires s.phase.ent.account in s.world.accounts && s.phase.ent.account in s.world.orgs
    ensures end == Next(Next(Next(Next(s, MakeCall(Done)), MakeCall(Done)), MakeCall(Done)), MakeCall(Done))
    ensures end.world.remote == s.world.remote
    ensures end.phase == Idle(Handled(s.phase.event, s.phase.ent))
    ensures s.phase.ent.account in end.world.orgs && end.world.orgs[s.phase.ent.account] == Flags(false, false)
  {
    end := Next(Next(Next(Next(s, MakeCall(Done)), MakeCall(Done)), MakeCall(Done)), MakeCall(Done));
  }

  // ---------------------------------------------------------------- the handler itself

  lemma ExtendRun(run: seq<State>, act: Action)
    requires run != [] && IsRun(run)
    ensures IsRun(run + [Next(run[|run| - 1], act)])
  { }

  /** `after` continues the run `before`, and the handler is not idle in between. */
  ghost predicate Continues(before: seq<State>, after: seq<State>) {
    before <= after && forall k :: |before| <= k < |after| - 1 ==> !after[k].phase.Idle?
  }

  /** Whatever was fetched along the way, for an activated account and to be acted upon, has been
      brought to its end in `w`. */
  ghost predicate FetchedIsAccomplished(run: seq<State>, from: nat, w: World) {
    forall i :: from <= i < |run| && run[i].phase.Fetched? && Activated(run[i].world, run[i].phase.ent.account) ==>
      Accomplished(w, run[i].phase.event, run[i].phase.ent)
  }

  lemma AcknowledgedIsAccomplished(run: seq<State>, from: nat, w: World, verdict: Verdict)
    requires IsRun(run) && 0 < from < |run| && run[|run| - 1] == State(w, Idle(verdict)) && verdict != Refused
    requires forall k :: from <= k < |run| - 1 ==> !run[k].phase.Idle?
    ensures FetchedIsAccomplished(run, from, w)
  {
    hide Accomplished;
    forall i | from <= i < |run| && run[i].phase.Fetched? && Activated(run[i].world, run[i].phase.ent.account)
      ensures Accomplished(w, run[i].phase.event, run[i].phase.ent)
    {
      AcknowledgedMessage(run, i, |run| - 1, run[i].phase.event, run[i].phase.ent);
    }
  }

  predicate About(phase: Phase, msg: Message) {
    phase.Idle? || (msg.Payload? && phase.event == msg.event)
  }

  /** Until the handler is idle again, everything is about the message delivered. */
  lemma {:induction false} AboutTheMessage(run: seq<State>, from: nat, i: nat, msg: Message)
    requires IsRun(run) && 0 < from <= i < |run| && run[from].phase == Receive(msg)
    requires forall k :: from <= k < i ==> !run[k].phase.Idle?
    ensures About(run[i].phase, msg)
    decreases i
  {
    if i > from {
      AboutTheMessage(run, from, i - 1, msg);
      assert Follows(run[i - 1], run[i - 1 + 1]);
      var act :| run[i] == Next(run[i - 1], act);
    }
  }

  /** What the next remote call meets: the marketplace's entitlements by then, and how it ends. */
  datatype Answer = Answer(remote: map<string, Entitlement>, outcome: Outcome)

  /** Accounts, flags and approvals are the same. */
  predicate SameData(w: World, w': World) {
    w'.accounts == w.accounts && w'.orgs == w.orgs && w'.approvals == w.approvals
  }

  /** The next `n` calls end well. */
  ghost predicate GoThrough(env: nat -> Answer, from: nat, n: nat) {
    forall k :: from <= k < from + n ==> env(k).outcome == Done
  }

  /** Only the account and flags of one customer may have changed. */
  predicate OnlyCustomer(w: World, w': World, acc: string) {
    && w'.accounts - {acc} == w.accounts - {acc} && w'.accounts.Keys == w.accounts.Keys
    && w'.orgs - {acc} == w.orgs - {acc} && w'.orgs.Keys == w.orgs.Keys
  }

  /** What the calls for a message about an activated account come to, call by call from `from` on:
      the message is acknowledged exactly when every call went through, and then all of it is done. */
  ghost predicate Served(
      event: EventType, ent: Entitlement, w: World, w': World, ack: bool, env: nat -> Answer, from: nat)
  {
    var acc := ent.account;
    var record := Account(true, ent.usageReportingID, ent.name, ent.plan, Some(ent.state));
    match (event, ent.state)
    case (CreationRequested, ActivationRequested) =>
      && w'.accounts == w.accounts && w'.orgs == w.orgs && (ack <==> GoThrough(env, from, 1))
      && (ack ==> w'.approvals == w.approvals + [EntitlementApproval(ent.name)])
    case (PlanChangeRequested, PendingPlanChangeApproval) =>
      && w'.accounts == w.accounts && w'.orgs == w.orgs && (ack <==> GoThrough(env, from, 1))
      && (ack ==> w'.approvals == w.approvals + [PlanChangeApproval(ent.name, ent.newPendingPlan)])
    case (EntitlementActive, Active) =>
      && w'.approvals == w.approvals && OnlyCustomer(w, w', acc)
      && (ack <==> acc in w.orgs && GoThrough(env, from, 4))
      && (ack ==> w'.accounts == w.accounts[acc := record] && w'.orgs == w.orgs[acc := Flags(false, false)])
    case (PlanChanged, Active) =>
      && w'.approvals == w.approvals && OnlyCustomer(w, w', acc)
      && (ack <==> acc in w.orgs && GoThrough(env, from, 4))
      && (ack ==> w'.accounts == w.accounts[acc := record] && w'.orgs == w.orgs[acc := Flags(false, false)])
    case (EntitlementCancelled, Cancelled) =>
      && w'.approvals == w.approvals && OnlyCustomer(w, w', acc)
      && (ack <==> acc in w.orgs && GoThrough(env, from, 4))
      && (ack ==> w'.accounts == w.accounts[acc := record] && w'.orgs == w.orgs[acc := Flags(true, true)])
    case _ => ack && SameData(w, w')
  }

  /** What handling a message comes to, when the first call meets `env(from)`. */
  ghost predicate HandledRight(msg: Message, w: World, w': World, ack: bool, env: nat -> Answer, from: nat) {
    match msg
    case Empty => ack && SameData(w, w')
    case Malformed => !ack && SameData(w, w')
    case Payload(event, id) =>
      var entitlement, account := env(from), env(from + 1);
      if id == "" then ack && SameData(w, w')
      else if entitlement.outcome != Done then !ack && SameData(w, w')
      else if id !in entitlement.remote then ack && SameData(w, w')
      else if account.outcome != Done then !ack && SameData(w, w')
      else
        var ent := entitlement.remote[id];
        if !Activated(w, ent.account) then ack && SameData(w, w')
        else Served(event, ent, w, w', ack, env, from + 2)
  }

  /** The services' data and the handler's run so far. The n-th remote call meets `env(n)`, whatever
      that is. */
  class MessageHandler {
    const env: nat -> Answer
    var calls: nat
    var world: World
    ghost var run: seq<State>

    ghost predicate At(phase: Phase)
      reads this
    {
      run != [] && IsRun(run) && run[|run| - 1] == State(world, phase)
    }

    constructor (env: nat -> Answer, world: World)
      ensures At(Idle(NothingYet)) && |run| == 1
      ensures this.env == env && this.world == world && calls == 0
    {
      this.env, this.world, calls := env, world, 0;
      run := [State(world, Idle(NothingYet))];
    }

    /** The marketplace's entitlements as the next call finds them. */
    method TimePasses(ghost phase: Phase) returns (outcome: Outcome)
      requires At(phase)
      modifies this`world, this`calls, this`run
      ensures At(phase) && Continues(old(run), run) && |run| == |old(run)| + 1
      ensures calls == old(calls) + 1 && outcome == env(old(calls)).outcome
      ensures world == old(world).(remote := env(old(calls)).remote)
    {
      world := world.(remote := env(calls).remote);
      outcome := env(calls).outcome;
      calls := calls + 1;
      ExtendRun(run, RemoteChanges(world.remote));
      run := run + [State(world, phase)];
    }

    method GetEntitlement(event: EventType, id: string) returns (err: bool, ent: Option<Entitlement>)
      requires At(Reading(event, id))
      modifies this`world, this`calls, this`run
      ensures Continues(old(run), run)
      ensures err ==> At(Idle(Refused))
      ensures !err ==> At(if ent.Some? then Fetched(event, ent.value) else Idle(Ignored))
      ensures SameData(old(world), world) && calls == old(calls) + 1
      ensures var answer := env(old(calls));
              && (err <==> answer.outcome != Done)
              && (!err ==> ent == if id in answer.remote then Some(answer.remote[id]) else None)
    {
      var outcome := TimePasses(Reading(event, id));
      err := outcome != Done;
      ent := if id in world.remote then Some(world.remote[id]) else None;
      ExtendRun(run, FetchEntitlement(!err));
      run := run + [State(world, AfterFetch(world, event, id, !err))];
    }

    method GetGCP(event: EventType, ent: Entitlement) returns (err: bool, gcp: Option<Account>)
      requires At(Fetched(event, ent))
      modifies this`world, this`calls, this`run
      ensures Continues(old(run), run)
      ensures err ==> At(Idle(Refused))
      ensures !err ==> At(if gcp.None? || !gcp.value.activated || Plan(event, ent).Nothing? then Idle(Ignored)
                          else Calling(event, ent, Plan(event, ent)))
      ensures SameData(old(world), world) && calls == old(calls) + 1
      ensures err <==> env(old(calls)).outcome != Done
      ensures !err ==>
        gcp == if ent.account in old(world.accounts) then Some(old(world.accounts)[ent.account]) else None
    {
      var outcome := TimePasses(Fetched(event, ent));
      err := outcome != Done;
      gcp := if ent.account in world.accounts then Some(world.accounts[ent.account]) else None;
      ExtendRun(run, FetchAccount(!err));
      run := run + [State(world, AfterAccount(world, event, ent, !err))];
    }

    method RemoteCall(event: EventType, ent: Entitlement, call: Call, ghost rest: Calls) returns (ok: bool)
      requires At(Calling(event, ent, Then(call, rest)))
      modifies this`world, this`calls, this`run
      ensures Continues(old(run), run)
      ensures At(if !ok then Idle(Refused) else if rest.Nothing? then Idle(Handled(event, ent))
                 else Calling(event, ent, rest))
      ensures calls == old(calls) + 1
      ensures (world, ok)
              == Perform(old(world).(remote := env(old(calls)).remote), ent, call, env(old(calls)).outcome)
    {
      hide Perform;
      var outcome := TimePasses(Calling(event, ent, Then(call, rest)));
      ExtendRun(run, MakeCall(outcome));
      run := run + [AfterCall(world, event, ent, Then(call, rest), outcome)];
      var result := Perform(world, ent, call, outcome);
      world, ok := result.0, result.1;
    }

    method SetWeaveCloudAccessFlagsTo(event: EventType, ent: Entitlement, value: bool, ghost rest: Calls)
      returns (ok: bool)
      requires At(Calling(event, ent,
                          Then(GetOrganization, Then(SetRefuseAccess(value), Then(SetRefuseUpload(value), rest)))))
      modifies this`world, this`calls, this`run
      ensures Continues(old(run), run)
      ensures At(if !ok then Idle(Refused) else if rest.Nothing? then Idle(Handled(event, ent))
                 else Calling(event, ent, rest))
      ensures world.accounts == old(world.accounts) && world.approvals == old(world.approvals)
      ensures OnlyCustomer(old(world), world, ent.account)
      ensures ok <==> ent.account in old(world.orgs) && GoThrough(env, old(calls), 3)
      ensures ok ==> calls == old(calls) + 3 && world.orgs == old(world.orgs)[ent.account := Flags(value, value)]
    {
      hide IsRun;
      ok := RemoteCall(event, ent, GetOrganization, Then(SetRefuseAccess(value), Then(SetRefuseUpload(value), rest)));
      if !ok {
        return;
      }
      ok := SetFlags(event, ent, value, rest);
    }

    method SetFlags(event: EventType, ent: Entitlement, value: bool, ghost rest: Calls) returns (ok: bool)
      requires At(Calling(event, ent, Then(SetRefuseAccess(value), Then(SetRefuseUpload(value), rest))))
      modifies this`world, this`calls, this`run
      ensures Continues(old(run), run)
      ensures At(if !ok then Idle(Refused) else if rest.Nothing? then Idle(Handled(event, ent))
                 else Calling(event, ent, rest))
      ensures world.accounts == old(world.accounts) && world.approvals == old(world.approvals)
      ensures OnlyCustomer(old(world), world, ent.account)
      ensures ok <==> ent.account in old(world.orgs) && GoThrough(env, old(calls), 2)
      ensures ok ==> calls == old(calls) + 2 && world.orgs == old(world.orgs)[ent.account := Flags(value, value)]
    {
      hide IsRun;
      ok := RemoteCall(event, ent, SetRefuseAccess(value), Then(SetRefuseUpload(value), rest));
      if !ok {
        return;
      }
      ok := RemoteCall(event, ent, SetRefuseUpload(value), rest);
    }

    method DoUpdateEntitlement(event: EventType, ent: Entitlement) returns (ok: bool)
      requires At(Calling(event, ent, UpdateEntitlement()))
      modifies this`world, this`calls, this`run
      ensures Continues(old(run), run)
      ensures At(if ok then Idle(Handled(event, ent)) else Idle(Refused))
      ensures world.approvals == old(world.approvals) && OnlyCustomer(old(world), world, ent.account)
      ensures ok <==> ent.account in old(world.accounts) && ent.account in old(world.orgs)
                      && GoThrough(env, old(calls), 4)
      ensures ok ==> world.accounts == old(world.accounts)[ent.account := Record(ent)]
                     && world.orgs == old(world.orgs)[ent.account := Flags(false, false)]
    {
      hide IsRun, Record;
      ok := RemoteCall(event, ent, UpdateGCP, UpdateEntitlement().rest);
      if !ok {
        return;
      }
      ok := SetWeaveCloudAccessFlagsTo(event, ent, false, Nothing);
    }

    method DoCancelEntitlement(event: EventType, ent: Entitlement) returns (ok: bool)
      requires At(Calling(event, ent, CancelEntitlement()))
      modifies this`world, this`calls, this`run
      ensures Continues(old(run), run)
      ensures At(if ok then Idle(Handled(event, ent)) else Idle(Refused))
      ensures world.approvals == old(world.approvals) && OnlyCustomer(old(world), world, ent.account)
      ensures ok <==> ent.account in old(world.accounts) && ent.account in old(world.orgs)
                      && GoThrough(env, old(calls), 4)
      ensures ok ==> world.accounts == old(world.accounts)[ent.account := Record(ent)]
                     && world.orgs == old(world.orgs)[ent.account := Flags(true, true)]
    {
      hide IsRun, Record;
      ok := SetWeaveCloudAccessFlagsTo(event, ent, true, Then(UpdateGCP, Nothing));
      if !ok {
        return;
      }
      ok := RemoteCall(event, ent, UpdateGCP, Nothing);
    }

    /** Handling a message is a run of the machine that starts with its delivery and ends when the
        handler is idle again; the message is acknowledged unless the verdict is `Refused`. What was
        fetched for an activated account is then accomplished: in particular, an acknowledged
        cancellation of an entitlement fetched as cancelled leaves both flags set and is recorded. */
    method Handle(msg: Message, ghost last: Verdict) returns (ack: bool, ghost verdict: Verdict)
      requires At(Idle(last))
      modifies this`world, this`calls, this`run
      ensures |old(run)| < |run| && Continues(old(run), run)
      ensures run[|old(run)|] == Next(old(run)[|old(run)| - 1], Deliver(msg))
      ensures At(Idle(verdict)) && (ack <==> verdict != Refused)
      ensures HandledRight(msg, old(world), world, ack, env, old(calls))
      ensures ack ==> FetchedIsAccomplished(run, |old(run)|, world)
      ensures forall i :: |old(run)| <= i < |run| && run[i].phase.Fetched? ==>
        var event, ent := run[i].phase.event, run[i].phase.ent;
        && msg.Payload? && event == msg.event
        && (ack && event == EntitlementCancelled && ent.state == Cancelled && Activated(run[i].world, ent.account) ==>
              Refusing(world, ent.account) && RecordedCancelled(world, ent.account))
    {
      hide HandledRight;
      ack, verdict := Serve(msg, last);
      forall i | |old(run)| <= i < |run|
        ensures About(run[i].phase, msg)
      {
        AboutTheMessage(run, |old(run)|, i, msg);
      }
      if ack {
        AcknowledgedIsAccomplished(run, |old(run)|, world, verdict);
      }
    }

    method Serve(msg: Message, ghost last: Verdict) returns (ack: bool, ghost verdict: Verdict)
      requires At(Idle(last))
      modifies this`world, this`calls, this`run
      ensures |old(run)| < |run| && Continues(old(run), run)
      ensures run[|old(run)|] == Next(old(run)[|old(run)| - 1], Deliver(msg))
      ensures At(Idle(verdict)) && (ack <==> verdict != Refused)
      ensures HandledRight(msg, old(world), world, ack, env, old(calls))
    {
      hide IsRun, Served, Plan;
      ExtendRun(run, Deliver(msg));
      run := run + [State(world, Receive(msg))];
      if msg.Empty? {
        return true, Ignored;
      }
      if msg.Malformed? {
        return false, Refused;
      }
      if msg.entitlementID == "" {
        return true, Ignored;
      }
      var err, found := GetEntitlement(msg.event, msg.entitlementID);
      if err {
        return false, Refused;
      }
      if found.None? {
        return true, Ignored;
      }
      var ent := found.value;
      var gcpErr, gcp := GetGCP(msg.event, ent);
      if gcpErr {
        return false, Refused;
      }
      if gcp.None? || !gcp.value.activated {
        return true, Ignored;
      }
      ghost var before := world;
      ack, verdict := Dispatch(msg.event, ent);
      ServedFrom(msg.event, ent, old(world), before, world, ack, env, old(calls) + 2);
    }

    /** The calls for an event about an activated account. */
    method Dispatch(event: EventType, ent: Entitlement) returns (ack: bool, ghost verdict: Verdict)
      requires At(if Plan(event, ent).Nothing? then Idle(Ignored) else Calling(event, ent, Plan(event, ent)))
      requires Activated(world, ent.account)
      modifies this`world, this`calls, this`run
      ensures Continues(old(run), run)
      ensures Plan(event, ent).Nothing? ==> run == old(run)
      ensures At(Idle(verdict)) && (ack <==> verdict != Refused)
      ensures Served(event, ent, old(world), world, ack, env, old(calls))
    {
      hide IsRun;
      match event {
        case CreationRequested =>
          if ent.state == ActivationRequested {
            ack := RemoteCall(event, ent, ApproveEntitlement, Nothing);
            return ack, if ack then Handled(event, ent) else Refused;
          }
        case EntitlementActive =>
          if ent.state == Active {
            ack := DoUpdateEntitlement(event, ent);
            return ack, if ack then Handled(event, ent) else Refused;
          }
        case PlanChangeRequested =>
          if ent.state == PendingPlanChangeApproval {
            ack := RemoteCall(event, ent, ApprovePlanChange, Nothing);
            return ack, if ack then Handled(event, ent) else Refused;
          }
        case PlanChanged =>
          if ent.state == Active {
            ack := DoUpdateEntitlement(event, ent);
            return ack, if ack then Handled(event, ent) else Refused;
          }
        case EntitlementCancelled =>
          if ent.state == Cancelled {
            ack := DoCancelEntitlement(event, ent);
            return ack, if ack then Handled(event, ent) else Refused;
          }
        case _ =>
      }
      return true, Ignored;
    }
  }

  lemma ServedFrom(
      event: EventType, ent: Entitlement, w: World, w1: World, w': World, ack: bool, env: nat -> Answer, from: nat)
    requires SameData(w, w1) && Served(event, ent, w1, w', ack, env, from)
    ensures Served(event, ent, w, w', ack, env, from)
  { }
}
