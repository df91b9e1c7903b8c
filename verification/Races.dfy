/** Calls that lose a race: what others commit in between is a run of the tables, and what the
    loser reads of it decides its answer. */
module Races {
  import opened Domain
  import opened Store
  import opened Plans
  import opened Business
  import opened Operations
  import opened Runs
  import opened Safety
  import opened Verdicts
  import opened Database

  const POLLS := 5

  /** Duplicate keys and serialization conflicts. */
  predicate LostRace(r: Reason) {
    r == UniqueViolation || r == SerializationFailure
  }

  /** `seen` are the tables at later and later points of a run. */
  ghost predicate Watches(run: seq<Db>, at: seq<nat>, seen: seq<Db>) {
    && Run(run) && |at| == |seen|
    && (forall i :: 0 <= i < |at| ==> at[i] < |run| && run[at[i]] == seen[i])
    && (forall i, j :: 0 <= i < j < |at| ==> at[i] <= at[j])
  }

  lemma WatchingGrows(run: seq<Db>, at: seq<nat>, seen: seq<Db>, i: nat, j: nat)
    requires Watches(run, at, seen) && i <= j < |seen|
    ensures Grows(seen[i], seen[j])
  {
    hide Run, Grows;
    HistoryOnlyGrows(run, at[i], at[j]);
  }

  lemma LaterWatches(run: seq<Db>, at: seq<nat>, first: Db, later: seq<Db>)
    requires Watches(run, at, [first] + later)
    ensures Watches(run, at[1..], later)
  {
    hide Run;
    forall i | 0 <= i < |later| ensures run[at[1..][i]] == later[i] { assert ([first] + later)[i + 1] == later[i]; }
  }

  lemma WatchedIsGood(run: seq<Db>, at: seq<nat>, seen: seq<Db>, i: nat)
    requires Watches(run, at, seen) && i < |seen|
    ensures Good(seen[i])
  {
    hide Run, Good;
    EveryStateIsGood(run, at[i]);
  }

  lemma WatchedStart(run: seq<Db>, at: seq<nat>, first: Db, later: seq<Db>)
    requires Watches(run, at, [first] + later)
    ensures Intact(first) && Paired(first.books)
  {
    hide Run;
    WatchedIsGood(run, at, [first] + later, 0);
  }

  // ---------------------------------------------------------------- replay

  /** The answer the records give to a request. */
  function Recorded(db: Db, k: RecordKey, digest: Digest): Result<Reply> {
    if k in db.records then Resolve(k, db.records[k], digest) else Err(ConcurrentUpdate)
  }

  /** The answer of the first of the tables seen to have a record. */
  function Polled(k: RecordKey, digest: Digest, seen: seq<Db>): Result<Reply> {
    if seen == [] then Err(ConcurrentUpdate)
    else if k in seen[0].records then Recorded(seen[0], k, digest)
    else Polled(k, digest, seen[1..])
  }

  /** Which poll finds the record makes no difference: records are final. */
  lemma {:induction false} PollingIsFinal(run: seq<Db>, at: seq<nat>, seen: seq<Db>, k: RecordKey, digest: Digest)
    requires Watches(run, at, seen) && |seen| > 0
    ensures Polled(k, digest, seen) == Recorded(seen[|seen| - 1], k, digest)
    decreases |seen|
  {
    if k in seen[0].records {
      WatchingGrows(run, at, seen, 0, |seen| - 1);
    } else if |seen| > 1 {
      hide Run;
      assert Watches(run, at[1..], seen[1..]);
      PollingIsFinal(run, at[1..], seen[1..], k, digest);
    }
  }

  /** Committed records are never in progress. */
  lemma RecordedIsTerminal(db: Db, k: RecordKey, digest: Digest)
    requires RowsIntact(db)
    ensures Recorded(db, k, digest) != Err(StillProcessing)
  {
    assert k in db.records ==> RecordIntact(db, k);
  }

  /** Once an attempt under a key has committed, every loser of the key that looks later gets the
      very reply of that attempt if it made the same request, and a conflict otherwise. */
  lemma LosersGetTheWinnersReply(run: seq<Db>, i: nat, j: nat, op: Op, digest: Digest)
    requires Run(run) && i < j < |run| && (op.Send? || op.Undo?) && ClaimOf(op) !in run[i].records
    requires Plan(run[i], op).Commit? && run[i + 1] == Apply(run[i], Plan(run[i], op).writes)
    ensures Recorded(run[j], ClaimOf(op), digest) ==
              if digest == DigestOf(op) then Ok(Plan(run[i], op).reply) else Err(KeyReusedWithOtherRequest)
  {
    ClaimRecorded(run[i], op);
    RecordsStay(run, i + 1, j);
  }

  lemma RecordsStay(run: seq<Db>, i: nat, j: nat)
    requires Run(run) && i <= j < |run|
    ensures Kept(run[i].records, run[j].records)
  {
    hide Run;
    HistoryOnlyGrows(run, i, j);
  }

  lemma ClaimRecorded(db: Db, op: Op)
    requires (op.Send? || op.Undo?) && ClaimOf(op) !in db.records && Plan(db, op).Commit?
    ensures var records := Apply(db, Plan(db, op).writes).records;
            ClaimOf(op) in records && Recorded(Apply(db, Plan(db, op).writes), ClaimOf(op), DigestOf(op)) == Ok(Plan(db, op).reply)
            && records[ClaimOf(op)].digest == DigestOf(op)
  {
    hide TransferBody, ReversalBody;
    if op.Send? { FrameRecords(db, ClaimOf(op), DigestOf(op), TransferBody(db, op.user, op.request, op.ids), op.ids.row); }
    else { FrameRecords(db, ClaimOf(op), DigestOf(op), ReversalBody(db, op.user, op.transfer, op.reason, op.ids), op.transfer); }
  }

  /** What the frame of transfers and reversals commits is found again as what it replied. */
  lemma FrameRecords(db: Db, k: RecordKey, digest: Digest, body: Result<Db>, resource: Uuid)
    requires k !in db.records
    ensures var reply := match k.scope case InternalTransfer => Sent(resource) case TransferReversal => Undone(resource);
            var outcome := Claimed(db, k, digest, body, reply, resource);
            outcome.Commit? ==>
              (var after := Apply(db, outcome.writes);
               k in after.records && after.records[k].digest == digest && Recorded(after, k, digest) == Ok(outcome.reply))
  {}

  // ---------------------------------------------------------------- responses

  /** The response to a reply; a stored failure is an error to the caller. */
  function Unwrapped(reply: Reply): Result<Uuid> {
    match reply
    case Sent(id) => Ok(id)
    case Undone(id) => Ok(id)
    case Intended(id) => Ok(id)
    case Acknowledged(id, _) => Ok(id)
    case WalletIs(id, _) => Ok(id)
    case Failure(reason) => Err(reason)
  }

  function Answer(outcome: Result<Reply>): Result<Uuid> {
    if outcome.Ok? then Unwrapped(outcome.value) else Err(outcome.reason)
  }

  /** A stored refusal is thrown, a stored resource is answered with its id. */
  lemma RecordedAnswers(db: Db, k: RecordKey, digest: Digest)
    ensures Answer(Recorded(db, k, digest)) == Remembered(db, k, digest)
  {}

  /** Looks for the record up to five times, 25 ms apart, while others commit: `meanwhile` are the
      tables at each look. */
  method ReplayAfterRace(db: Database, k: RecordKey, digest: Digest, meanwhile: seq<Db>, ghost run: seq<Db>, ghost at: seq<nat>)
    returns (result: Result<Reply>)
    requires |meanwhile| == POLLS && Watches(run, at, meanwhile)
    modifies db
    ensures result == Recorded(meanwhile[POLLS - 1], k, digest) && result != Err(StillProcessing)
    ensures db.View() in meanwhile
  {
    hide Watches;
    WatchedIsGood(run, at, meanwhile, POLLS - 1);
    RecordedIsTerminal(meanwhile[POLLS - 1], k, digest);
    PollingIsFinal(run, at, meanwhile, k, digest);
    hide Run;
    var attempt := 0;
    while attempt < POLLS
      invariant 0 <= attempt <= POLLS
      invariant Polled(k, digest, meanwhile) == Polled(k, digest, meanwhile[attempt..])
      invariant attempt > 0 ==> db.View() == meanwhile[attempt - 1]
    {
      db.Meanwhile(meanwhile[attempt]);
      if k in db.records { return Resolve(k, db.records[k], digest); }
      attempt := attempt + 1;
    }
    return Err(ConcurrentUpdate);
  }
}
