/** The batch orchestrator of services/links/domain/links_processor.go.
    `ProcessBatch` turns the scraper's outcomes into results that share one
    fresh batch ID, each with a fresh result ID and two timestamps, and
    stores them all in one call; `GetBatch` reads a batch back. The UUID
    generator and the clock are oracles: the n-th UUID drawn in a call is
    `uuid(n)` (the batch ID is drawn first), and result i is stamped with
    `clock(2 * i)` and `clock(2 * i + 1)`. The scraper's outcomes arrive as a
    sequence. */
module Domain {
  import opened Wrappers
  import Links
  import Scraper
  import Repository

  /** The orchestrator's errors wrap the repository's (`%w`). */
  datatype ProcessError =
    | FailedToCreateResults(cause: Repository.RepoError)
    | FailedToGetBatch(cause: Repository.RepoError)

  function Message(e: ProcessError): string {
    match e
    case FailedToCreateResults(c) => "failed to create results " + Repository.Message(c)
    case FailedToGetBatch(c) => "failed to get batch " + Repository.Message(c)
  }

  /** `errors.Is`: a wrapped error still identifies its cause. */
  predicate Is(e: ProcessError, target: Repository.RepoError) {
    e.cause == target
  }

  /** The record built for one scraper outcome. */
  function ToResult(o: Scraper.ScrapeResult, batchID: string, id: string, createdAt: Links.Instant, updatedAt: Links.Instant): Links.Result {
    Links.Result(id, batchID, o.pageURL, o.internalLinksNum, o.externalLinksNum, o.success, o.error, createdAt, updatedAt)
  }

  /** `ProcessBatch`. */
  method ProcessBatch(db: Repository.Db, outcomes: seq<Scraper.ScrapeResult>, uuid: nat -> string, clock: nat -> Links.Instant)
    returns (db': Repository.Db, r: Result<seq<Links.Result>, ProcessError>)
    ensures |outcomes| == 0 <==> r.Err?
    ensures r.Err? ==> r.error == FailedToCreateResults(Repository.NoResultsPassed) && db' == db
    ensures r.Ok? ==> |r.value| == |outcomes|
    ensures r.Ok? ==> forall i | 0 <= i < |outcomes| ::
      var res, o := r.value[i], outcomes[i];
      && res.batchID == uuid(0)
      && res.id == uuid(i + 1)
      && res.pageURL == o.pageURL
      && res.externalLinksNum == o.externalLinksNum
      && res.internalLinksNum == o.internalLinksNum
      && res.success == o.success
      && res.error == o.error
      && res.createdAt == clock(2 * i)
      && res.updatedAt == clock(2 * i + 1)
    ensures r.Ok? ==> forall i, j | 0 <= i < j < |r.value| :: r.value[i].batchID == r.value[j].batchID
    ensures r.Ok? && (forall a: nat, b: nat | a < b <= |outcomes| :: uuid(a) != uuid(b)) ==>
      forall i, j | 0 <= i < j < |r.value| :: r.value[i].id != r.value[j].id
    ensures r.Ok? && (forall o | o in outcomes :: Scraper.Consistent(o)) ==>
      forall res | res in r.value :: res.success <==> res.error.None?
    ensures r.Ok? ==> Repository.GetBatchResults(db', uuid(0)) == Ok(r.value)
    ensures r.Ok? ==> forall id | id != uuid(0) :: Repository.GetBatchResults(db', id) == Repository.GetBatchResults(db, id)
  {
    var batchResults: seq<Links.Result> := [];
    var batchID := uuid(0);
    var i := 0;
    while i < |outcomes|
      invariant 0 <= i <= |outcomes|
      invariant |batchResults| == i
      invariant forall j | 0 <= j < i :: batchResults[j] == ToResult(outcomes[j], batchID, uuid(j + 1), clock(2 * j), clock(2 * j + 1))
    {
      batchResults := batchResults + [ToResult(outcomes[i], batchID, uuid(i + 1), clock(2 * i), clock(2 * i + 1))];
      i := i + 1;
    }
    var write := Repository.CreateResults(db, batchResults);
    db' := write.db;
    if write.err.Some? {
      return db', Err(FailedToCreateResults(write.err.value));
    }
    if forall a: nat, b: nat | a < b <= |outcomes| :: uuid(a) != uuid(b) {
      forall i, j | 0 <= i < j < |batchResults|
        ensures batchResults[i].id != batchResults[j].id
      {
        assert uuid(i + 1) != uuid(j + 1);
      }
    }
    if forall o | o in outcomes :: Scraper.Consistent(o) {
      forall res | res in batchResults
        ensures res.success <==> res.error.None?
      {
        var k :| 0 <= k < |batchResults| && batchResults[k] == res;
        assert Scraper.Consistent(outcomes[k]);
      }
    }
    return db', Ok(batchResults);
  }

  /** `GetBatch`: the repository's batch, or its error wrapped. */
  function GetBatch(db: Repository.Db, batchID: string): (r: Result<seq<Links.Result>, ProcessError>)
    ensures r.Ok? <==> batchID in db
    ensures r.Ok? ==> r.value == db[batchID]
    ensures r.Err? ==> r.error.FailedToGetBatch? && Is(r.error, Repository.BatchNotFound)
  {
    match Repository.GetBatchResults(db, batchID)
    case Ok(results) => Ok(results)
    case Err(e) => Err(FailedToGetBatch(e))
  }

  /** The wrapped messages read as the repository's message behind the
      orchestrator's prefix. */
  lemma WrappedMessages()
    ensures Message(FailedToCreateResults(Repository.Failure("error"))) == "failed to create results error"
    ensures Message(FailedToGetBatch(Repository.Failure("error"))) == "failed to get batch error"
    ensures Message(FailedToCreateResults(Repository.NoResultsPassed)) == "failed to create results no results were passed"
  {
  }
}
