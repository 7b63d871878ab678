/** The rows of the usage table, shared by the aggregator, the uploader and the report. */
module Aggregates {
  import opened Calendar

  /** One row. `uploadID == 0` stands for a row that belongs to no upload. */
  datatype Aggregate = Aggregate(
    id: nat,
    instanceID: string,
    bucketStart: Time,
    amountType: string,
    amountValue: int,
    createdAt: Time,
    uploadID: nat)
}
