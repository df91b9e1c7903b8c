/** The reversal service as it runs. Proved against `PlanReversal`. */
module ReversalService {
  import opened Domain
  import opened Store
  import opened Posting
  import opened Plans
  import opened Operations
  import opened Runs
  import opened Safety
  import opened Races
  import opened Business
  import opened Verdicts
  import opened TransferVerdicts
  import opened ReversalVerdicts
  import opened Database
  import opened LedgerService
  import opened TransferService

  lemma ReversalIgnoresRecords(db: Db, records: map<RecordKey, Record>, actor: Uuid, transfer: Uuid, reason: Option<string>, ids: Ids)
    ensures ReversalBody(db.(records := records), actor, transfer, reason, ids) == ReversalBody(db, actor, transfer, reason, ids)
  {
    assert Reversible(db.(records := records), actor, transfer) == Reversible(db, actor, transfer);
  }

  lemma ReversalWritesNoRecord(db: Db, actor: Uuid, transfer: Uuid, reason: Option<string>, ids: Ids)
    requires ReversalBody(db, actor, transfer, reason, ids).Ok?
    ensures ReversalBody(db, actor, transfer, reason, ids).value.records == map[]
  {}

  class ReversalsService {
    const db: Database
    const ledger: LedgerService

    constructor (db: Database, ledger: LedgerService)
      ensures this.db == db && this.ledger == ledger
    {
      this.db, this.ledger := db, ledger;
    }

    /** Locks the transfer row, then checks the transfer with its wallets and its reversal. */
    method FindReversible(actor: Uuid, transfer: Uuid) returns (found: Result<Transfer>)
      ensures found == Reversible(db.View(), actor, transfer)
    {
      if transfer !in db.transfers || db.transfers[transfer].sender != actor { return Err(TransferNotFound); }
      var t := db.transfers[transfer];
      if !t.completed { return Err(TransferNotCompleted); }
      if transfer in db.reversals { return Err(AlreadyReversed); }
      if t.source !in db.wallets || t.destination !in db.wallets { return Err(WalletsInactive); }
      if db.wallets[t.source].status != ACTIVE || db.wallets[t.destination].status != ACTIVE { return Err(WalletsInactive); }
      return Ok(t);
    }

    /** The rows written beside the money. */
    method WriteReversal(actor: Uuid, transfer: Uuid, t: Transfer, reason: Option<string>, ids: Ids, ghost before: Db, ghost books: Books)
      requires db.View() == before.(books := ApplyBooks(before.books, books))
      modifies db`reversals, db`audits, db`outbox
      ensures db.View() == Apply(before, ReversalRows(actor, transfer, t, reason, ids, books))
    {
      Untouched(before, ReversalRows(actor, transfer, t, reason, ids, books));
      var r := Reversal(ids.row, actor, ids.transaction, t.currency, t.amount, reason);
      AddOne(db.reversals, transfer, r);
      AddOne(db.audits, AuditKey(TRANSFER_REVERSED, transfer), Audit(actor, Some(ids.row)));
      AddOne(db.outbox, OutboxKey(TRANSFER_WAS_REVERSED, ids.row), actor);
      db.reversals := db.reversals[transfer := r];
      db.audits := db.audits[AuditKey(TRANSFER_REVERSED, transfer) := Audit(actor, Some(ids.row))];
      db.outbox := db.outbox[OutboxKey(TRANSFER_WAS_REVERSED, ids.row) := actor];
    }

    /** The part inside the inner try: on an error nothing has been written. */
    method Undo(actor: Uuid, transfer: Uuid, reason: Option<string>, ids: Ids) returns (result: Result<Uuid>)
      requires ledger.db == db && Paired(db.Books()) && ids.transaction !in db.transactions
      modifies db
      ensures match ReversalBody(old(db.View()), actor, transfer, reason, ids)
              case Ok(w) => result == Ok(transfer) && db.View() == Apply(old(db.View()), w)
              case Err(why) => result == Err(why) && db.View() == old(db.View())
    {
      var found := FindReversible(actor, transfer);
      if found.Err? { return Err(found.reason); }
      var t := found.value;
      ghost var before := db.View();
      var request := ReversalPosting(db.View(), t, ids.row);
      var posted := ledger.PostWithinTransaction(request, ids.transaction);
      if posted.Err? { return Err(posted.reason); }
      WriteReversal(actor, transfer, t, reason, ids, before, PlanPost(before.books, request, ids.transaction).value);
      return Ok(transfer);
    }

    /** The transaction: replay a known key, or claim it and complete it or store the refusal. */
    method Attempt(actor: Uuid, key: string, transfer: Uuid, reason: Option<string>, ids: Ids) returns (result: Result<Reply>)
      requires ledger.db == db && Paired(db.Books()) && ids.transaction !in db.transactions
      modifies db
      ensures match PlanReversal(old(db.View()), actor, key, transfer, reason, ids)
              case Commit(reply, w) => result == Ok(reply) && db.View() == Apply(old(db.View()), w)
              case Rollback(why) => result == Err(why) && db.View() == old(db.View())
    {
      var before := db.View();
      var k, digest := RecordKey(actor, TransferReversal, key), ReversalDigest(transfer, reason);
      if k in db.records {
        NothingApplied(before);
        return Resolve(k, db.records[k], digest);
      }
      db.records := db.records[k := Record(digest, InProgress)];
      ReversalIgnoresRecords(before, db.records, actor, transfer, reason, ids);
      var undone := Undo(actor, transfer, reason, ids);
      match undone {
        case Ok(id) =>
          ReversalWritesNoRecord(before, actor, transfer, reason, ids);
          CompletedClaim(before, ReversalBody(before, actor, transfer, reason, ids).value, k, Record(digest, InProgress), Record(digest, Completed(id)));
          db.records := db.records[k := Record(digest, Completed(id))];
          return Ok(Undone(id));
        case Err(why) =>
          if IsClientError(why) {
            FailedClaim(before, k, Record(digest, InProgress), Record(digest, Refused(why)));
            db.records := db.records[k := Record(digest, Refused(why))];
            return Ok(Failure(why));
          }
          db.RollbackTo(before);
          return Err(why);
      }
    }

    /** The whole call, as for transfers; a blank reason counts as none. */
    method Create(actor: Uuid, transfer: Uuid, key: string, input: Option<string>, ids: Ids, aborted: Option<Reason>, meanwhile: seq<Db>,
                  ghost run: seq<Db>, ghost at: seq<nat>)
      returns (result: Result<Uuid>)
      requires ledger.db == db && FreshReversal(db.View(), ids.row) && ids.transaction !in db.transactions
      requires aborted.Some? ==> LostRace(aborted.value)
      requires |meanwhile| == POLLS && Watches(run, at, [db.View()] + meanwhile)
      modifies db
      ensures var reason := if input.Some? && Trim(input.value) != "" then Some(Trim(input.value)) else None;
              var k, digest := RecordKey(actor, TransferReversal, key), ReversalDigest(transfer, reason);
              if aborted.Some? then db.View() in meanwhile && result == Remembered(meanwhile[POLLS - 1], k, digest)
              else if k in old(db.records) then db.View() == old(db.View()) && result == StoredAnswer(old(db.records)[k], digest)
              else ReversalAnswered(old(db.View()), db.View(), actor, key, transfer, reason, ids, result)
    {
      var reason := TrimmedDescription(input);
      var k, digest := RecordKey(actor, TransferReversal, key), ReversalDigest(transfer, reason);
      ghost var before := db.View();
      FirstReversalAttempt(run, at, before, meanwhile, actor, key, transfer, reason, ids);
      LaterWatches(run, at, before, meanwhile);
      hide Run, Intact, PlanReversal, ReversalAnswered;
      var outcome: Result<Reply>;
      if aborted.Some? { outcome := Err(aborted.value); }
      else { outcome := Attempt(actor, key, transfer, reason, ids); }
      if outcome.Err? && LostRace(outcome.reason) {
        outcome := ReplayAfterRace(db, k, digest, meanwhile, run, at[1..]);
        RecordedAnswers(meanwhile[POLLS - 1], k, digest);
      }
      return Answer(outcome);
    }
  }

  /** What the attempt comes to, in tables a run has reached. */
  lemma FirstReversalAttempt(run: seq<Db>, at: seq<nat>, db: Db, later: seq<Db>, actor: Uuid, key: string, transfer: Uuid,
                             reason: Option<string>, ids: Ids)
    requires Watches(run, at, [db] + later) && FreshReversal(db, ids.row) && ids.transaction !in db.books.transactions
    ensures Intact(db) && Paired(db.books)
    ensures var k := RecordKey(actor, TransferReversal, key);
            if k in db.records then AttemptReplays(db, k, PlanReversal(db, actor, key, transfer, reason, ids), ReversalDigest(transfer, reason))
            else ReversalAttemptAnswers(db, actor, key, transfer, reason, ids)
  {
    hide Run, Watches, Intact, Paired, ReversalBody, ReversalAnswered;
    WatchedStart(run, at, db, later);
    var k := RecordKey(actor, TransferReversal, key);
    if k in db.records {
      KnownKeyReplays(db, k, ReversalDigest(transfer, reason), ReversalBody(db, actor, transfer, reason, ids), Undone(transfer), transfer);
    } else { ReversalVerdict(db, actor, key, transfer, reason, ids); }
  }

  ghost predicate ReversalAttemptAnswers(db: Db, actor: Uuid, key: string, transfer: Uuid, reason: Option<string>, ids: Ids) {
    match PlanReversal(db, actor, key, transfer, reason, ids)
    case Commit(reply, w) => ReversalAnswered(db, Apply(db, w), actor, key, transfer, reason, ids, Unwrapped(reply))
    case Rollback(_) => false
  }
}
