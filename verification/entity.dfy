/** The persisted record of services/links/entity.go. Go's `error` field
    becomes an optional message; timestamps are opaque instants. */
module Links {
  import opened Wrappers

  /** A point in time as the clock reports it; its meaning is not modelled. */
  datatype Instant = Instant(unixNano: int)

  datatype Result = Result(
    id: string,
    batchID: string,
    pageURL: string,
    internalLinksNum: nat,
    externalLinksNum: nat,
    success: bool,
    error: Option<string>,
    createdAt: Instant,
    updatedAt: Instant)
}
