/** The in-memory store of services/links/repository/inmemory_db.go: batches
    of results keyed by batch ID. The store's lock only orders concurrent
    calls; the model applies the calls one after another. */
module Repository {
  import opened Wrappers
  import Links

  /** The store: batch ID to the results of that batch. */
  type Db = map<string, seq<Links.Result>>

  const EmptyDb: Db := map[]

  datatype RepoError = NoResultsPassed | BatchNotFound | Failure(message: string)

  /** The message of each error (`ErrBatchNotFound`, and the one
      `CreateResults` builds); `Failure` stands for errors of other
      repository implementations. */
  function Message(e: RepoError): string {
    match e
    case NoResultsPassed => "no results were passed"
    case BatchNotFound => "batch of results not found"
    case Failure(m) => m
  }

  /** The store after a write, and the write's error if it failed. */
  datatype Write = Write(db: Db, err: Option<RepoError>)

  /** `CreateResults`: refuses an empty list; otherwise stores the list under
      the batch ID of its first result, replacing any earlier batch with that
      ID. */
  function CreateResults(db: Db, results: seq<Links.Result>): (w: Write)
    ensures |results| == 0 <==> w.err.Some?
    ensures w.err.Some? ==> w.err == Some(NoResultsPassed) && w.db == db
    ensures w.err.None? ==> w.db.Keys == db.Keys + {results[0].batchID}
    ensures w.err.None? ==> w.db[results[0].batchID] == results
    ensures w.err.None? ==> forall id | id in db && id != results[0].batchID :: w.db[id] == db[id]
  {
    if |results| == 0 then Write(db, Some(NoResultsPassed))
    else Write(db[results[0].batchID := results], None)
  }

  /** `GetBatchResults`: the stored batch, or `BatchNotFound`. */
  function GetBatchResults(db: Db, batchID: string): (r: Result<seq<Links.Result>, RepoError>)
    ensures r.Ok? <==> batchID in db
    ensures r.Ok? ==> r.value == db[batchID]
    ensures r.Err? ==> r.error == BatchNotFound
  {
    if batchID in db then Ok(db[batchID]) else Err(BatchNotFound)
  }

  /** `ListResults`: the whole store. */
  function ListResults(db: Db): Db {
    db
  }

  /** Round trip: a batch that was created is read back as it was given. */
  lemma CreateThenGet(db: Db, results: seq<Links.Result>)
    requires |results| > 0
    ensures CreateResults(db, results).err.None?
    ensures GetBatchResults(CreateResults(db, results).db, results[0].batchID) == Ok(results)
  {
  }

  /** Creating one batch leaves every other batch readable as before, and
      leaves unknown IDs unknown. */
  lemma CreateKeepsOthers(db: Db, results: seq<Links.Result>, other: string)
    requires |results| > 0 && other != results[0].batchID
    ensures GetBatchResults(CreateResults(db, results).db, other) == GetBatchResults(db, other)
  {
  }

  /** A failed create changes nothing that a reader can observe. */
  lemma FailedCreateInvisible(db: Db, batchID: string)
    ensures GetBatchResults(CreateResults(db, []).db, batchID) == GetBatchResults(db, batchID)
    ensures ListResults(CreateResults(db, []).db) == ListResults(db)
  {
  }

  /** After one create on a fresh store, the listing holds exactly that
      batch. */
  lemma ListAfterFirstCreate(results: seq<Links.Result>)
    requires |results| > 0
    ensures ListResults(CreateResults(EmptyDb, results).db) == map[results[0].batchID := results]
  {
  }

  /** Looking up any ID in a fresh store fails with `BatchNotFound`. */
  lemma EmptyStoreFindsNothing(batchID: string)
    ensures GetBatchResults(EmptyDb, batchID) == Err(BatchNotFound)
  {
  }

  /** A second create under the same batch ID replaces the first. */
  lemma CreateOverwrites(db: Db, first: seq<Links.Result>, second: seq<Links.Result>)
    requires |first| > 0 && |second| > 0 && first[0].batchID == second[0].batchID
    ensures var db1 := CreateResults(db, first).db;
      GetBatchResults(CreateResults(db1, second).db, first[0].batchID) == Ok(second)
  {
  }

  /** The store after a sequence of `CreateResults` calls, applied in
      order; refused (empty) writes leave it as it was. */
  function Replay(db: Db, writes: seq<seq<Links.Result>>): Db
    decreases |writes|
  {
    if |writes| == 0 then db
    else Replay(CreateResults(db, writes[0]).db, writes[1..])
  }

  /** Independent reading of a write history: the last non-empty write whose
      batch ID is `batchID`, if there is one. */
  function LastWrite(writes: seq<seq<Links.Result>>, batchID: string): Option<seq<Links.Result>>
    decreases |writes|
  {
    if |writes| == 0 then None
    else
      var w := writes[|writes| - 1];
      if |w| > 0 && w[0].batchID == batchID then Some(w)
      else LastWrite(writes[..|writes| - 1], batchID)
  }

  /** Last writer wins: after any history of creates, a batch reads back as
      its latest non-empty write, and a batch never written reads as it did
      before the history. */
  lemma {:induction false} ReplayLastWriterWins(db: Db, writes: seq<seq<Links.Result>>, batchID: string)
    ensures GetBatchResults(Replay(db, writes), batchID) ==
      match LastWrite(writes, batchID)
      case Some(results) => Ok(results)
      case None => GetBatchResults(db, batchID)
    decreases |writes|
  {
    if |writes| > 0 {
      var n := |writes| - 1;
      var prefix := writes[..n];
      ReplaySplit(db, prefix, writes[n]);
      assert prefix + [writes[n]] == writes;
      ReplayLastWriterWins(db, prefix, batchID);
    }
  }

  /** Replaying one more write is one more `CreateResults`. */
  lemma {:induction false} ReplaySplit(db: Db, writes: seq<seq<Links.Result>>, last: seq<Links.Result>)
    ensures Replay(db, writes + [last]) == CreateResults(Replay(db, writes), last).db
    decreases |writes|
  {
    if |writes| == 0 {
      assert writes + [last] == [last];
      assert [last][1..] == [];
    } else {
      var rest := writes + [last];
      assert rest[0] == writes[0] && rest[1..] == writes[1..] + [last];
      ReplaySplit(CreateResults(db, writes[0]).db, writes[1..], last);
    }
  }
}
