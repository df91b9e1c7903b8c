/** The transfer service as it runs: claim the key, send the money and write its records, or
    store the client error in the same transaction. Proved against `PlanTransfer`. */
module TransferService {
  import opened Domain
  import opened Amounts
  import opened Store
  import opened Posting
  import opened Plans
  import opened Operations
  import opened Runs
  import opened Safety
  import opened Races
  import opened Business
  import opened Eligibility
  import opened Verdicts
  import opened TransferVerdicts
  import opened Database
  import opened LedgerService

  /** Neither the body nor its rows depend on idempotency records. */
  lemma BodyIgnoresRecords(db: Db, records: map<RecordKey, Record>, user: Uuid, r: TransferRequest, ids: Ids)
    ensures TransferBody(db.(records := records), user, r, ids) == TransferBody(db, user, r, ids)
  {
    assert Route(db.(records := records), user, r) == Route(db, user, r);
  }

  lemma BodyWritesNoRecord(db: Db, user: Uuid, r: TransferRequest, ids: Ids)
    requires TransferBody(db, user, r, ids).Ok?
    ensures TransferBody(db, user, r, ids).value.records == map[]
  {}

  /** The claim, the body and the completion of the claim amount to one set of rows. */
  lemma CompletedClaim(db: Db, w: Db, k: RecordKey, claim: Record, record: Record)
    requires w.records == map[]
    ensures var claimed := db.(records := db.records[k := claim]);
            var after := Apply(claimed, w);
            after.(records := after.records[k := record]) == Apply(db, w.(records := map[k := record]))
  {
    AddNothing(db.records[k := claim]);
    AddOne(db.records, k, record);
  }

  lemma FailedClaim(db: Db, k: RecordKey, claim: Record, record: Record)
    ensures db.(records := db.records[k := claim][k := record]) == Apply(db, NOTHING.(records := map[k := record]))
  {
    RefusalWritesOnlyTheRecord(db, k, record);
  }

  lemma NothingApplied(db: Db)
    ensures Apply(db, NOTHING) == db
  {
    Untouched(db, NOTHING);
  }

  lemma PostedWalletsKeepCurrency(b: Books, r: PostingRequest, txId: Uuid, w: Uuid)
    requires PlanPost(b, r, txId).Ok? && w in b.wallets
    ensures var after := ApplyBooks(b, PlanPost(b, r, txId).value).wallets; w in after && after[w].currency == b.wallets[w].currency
  {}

  class TransfersService {
    const db: Database
    const ledger: LedgerService

    constructor (db: Database, ledger: LedgerService)
      ensures this.db == db && this.ledger == ledger
    {
      this.db, this.ledger := db, ledger;
    }

    /** The wallets of the transfer, checked in the order the service reads them. */
    method FindRoute(user: Uuid, r: TransferRequest) returns (route: Result<(Uuid, Uuid)>)
      ensures route == Route(db.View(), user, r)
    {
      if r.source !in db.wallets || db.wallets[r.source].user != user { return Err(SourceNotFound); }
      var source := db.wallets[r.source];
      if source.status != ACTIVE { return Err(SourceInactive); }
      var target: Uuid;
      if r.beneficiary.Some? {
        var id := r.beneficiary.value;
        if id !in db.beneficiaries || db.beneficiaries[id].owner != user || db.beneficiaries[id].deleted { return Err(BeneficiaryNotFound); }
        target := db.beneficiaries[id].wallet;
      } else {
        if r.destination.None? { return Err(DestinationUnresolved); }
        target := r.destination.value;
      }
      if target !in db.wallets { return Err(DestinationNotFound); }
      var destination := db.wallets[target];
      if destination.status != ACTIVE { return Err(DestinationInactive); }
      if r.source == target { return Err(WalletsNotDistinct); }
      if source.currency != destination.currency { return Err(CurrenciesDiffer); }
      return Ok((r.source, target));
    }

    /** The rows written beside the money. */
    method WriteTransfer(user: Uuid, r: TransferRequest, source: Uuid, target: Uuid, ids: Ids, ghost before: Db, ghost books: Books)
      requires source in db.wallets && source in before.books.wallets
      requires db.wallets[source].currency == before.books.wallets[source].currency
      requires db.View() == before.(books := ApplyBooks(before.books, books))
      modifies db`transfers, db`audits, db`outbox
      ensures db.View() == Apply(before, TransferRows(before, user, r, source, target, ids, books))
    {
      Untouched(before, TransferRows(before, user, r, source, target, ids, books));
      var t := Transfer(user, source, target, r.beneficiary, ids.transaction, db.wallets[source].currency, r.amount, true);
      AddOne(db.transfers, ids.row, t);
      AddOne(db.audits, AuditKey(TRANSFER_CREATED, ids.row), Audit(user, None));
      AddOne(db.outbox, OutboxKey(TRANSFER_COMPLETED, ids.row), user);
      db.transfers := db.transfers[ids.row := t];
      db.audits := db.audits[AuditKey(TRANSFER_CREATED, ids.row) := Audit(user, None)];
      db.outbox := db.outbox[OutboxKey(TRANSFER_COMPLETED, ids.row) := user];
    }

    /** The part inside the inner try: on an error nothing has been written. */
    method Send(user: Uuid, r: TransferRequest, ids: Ids) returns (result: Result<Uuid>)
      requires ledger.db == db && Paired(db.Books()) && ids.transaction !in db.transactions
      modifies db
      ensures match TransferBody(old(db.View()), user, r, ids)
              case Ok(w) => result == Ok(ids.row) && db.View() == Apply(old(db.View()), w)
              case Err(reason) => result == Err(reason) && db.View() == old(db.View())
    {
      var route := FindRoute(user, r);
      if route.Err? { return Err(route.reason); }
      var (source, target) := route.value;
      ghost var before := db.View();
      var request := TransferPosting(db.View(), source, target, r.amount, ids.row);
      var posted := ledger.PostWithinTransaction(request, ids.transaction);
      if posted.Err? { return Err(posted.reason); }
      ghost var books := PlanPost(before.books, request, ids.transaction).value;
      PostedWalletsKeepCurrency(before.books, request, ids.transaction, source);
      WriteTransfer(user, r, source, target, ids, before, books);
      return Ok(ids.row);
    }

    /** The transaction. A client error is caught inside it and stored; any other error rolls
        everything back. */
    method Attempt(user: Uuid, key: string, r: TransferRequest, ids: Ids) returns (result: Result<Reply>)
      requires ledger.db == db && Paired(db.Books()) && ids.transaction !in db.transactions
      modifies db
      ensures match PlanTransfer(old(db.View()), user, key, r, ids)
              case Commit(reply, w) => result == Ok(reply) && db.View() == Apply(old(db.View()), w)
              case Rollback(reason) => result == Err(reason) && db.View() == old(db.View())
    {
      var before := db.View();
      var k, digest := RecordKey(user, InternalTransfer, key), TransferDigestOf(r);
      if k in db.records {
        NothingApplied(before);
        return Resolve(k, db.records[k], digest);
      }
      db.records := db.records[k := Record(digest, InProgress)];
      BodyIgnoresRecords(before, db.records, user, r, ids);
      var sent := Send(user, r, ids);
      match sent {
        case Ok(id) =>
          BodyWritesNoRecord(before, user, r, ids);
          CompletedClaim(before, TransferBody(before, user, r, ids).value, k, Record(digest, InProgress), Record(digest, Completed(id)));
          db.records := db.records[k := Record(digest, Completed(id))];
          return Ok(Sent(id));
        case Err(reason) =>
          if IsClientError(reason) {
            FailedClaim(before, k, Record(digest, InProgress), Record(digest, Refused(reason)));
            db.records := db.records[k := Record(digest, Refused(reason))];
            return Ok(Failure(reason));
          }
          db.RollbackTo(before);
          return Err(reason);
      }
    }

    /** The whole call. `aborted` is the error by which the database ends the transaction, if it
        does; `meanwhile` are the tables at the looks that follow. A call that is aborted writes nothing
        and gets what is recorded under its key by then. A known key gets its stored answer. A new
        one gets the transfer as asked, or the refusal that holds, which is stored and thrown. */
    method Create(user: Uuid, key: string, input: TransferInput, ids: Ids, aborted: Option<Reason>, meanwhile: seq<Db>,
                  ghost run: seq<Db>, ghost at: seq<nat>)
      returns (result: Result<Uuid>)
      requires ledger.db == db && ids.row !in db.transfers && ids.transaction !in db.transactions
      requires aborted.Some? ==> LostRace(aborted.value)
      requires |meanwhile| == POLLS && Watches(run, at, [db.View()] + meanwhile)
      modifies db
      ensures Unprocessable(input).Some? ==> result == Err(Unprocessable(input).value) && db.View() == old(db.View())
      ensures Unprocessable(input).None? ==>
                var k, digest := RecordKey(user, InternalTransfer, key),
                                 TransferDigest(input.source, input.destination, input.beneficiary, Print(Value(input.amountText)));
                if aborted.Some? then db.View() in meanwhile && result == Remembered(meanwhile[POLLS - 1], k, digest)
                else if k in old(db.records) then db.View() == old(db.View()) && result == StoredAnswer(old(db.records)[k], digest)
                else Answered(old(db.View()), db.View(), user, key, Asked(input), ids, result)
    {
      RequestVerdict(input);
      var normalized := NormalizeTransfer(input);
      if normalized.Err? { return Err(normalized.reason); }
      var r := normalized.value;
      var k, digest := RecordKey(user, InternalTransfer, key), TransferDigestOf(r);
      ghost var before := db.View();
      FirstAttempt(run, at, before, meanwhile, user, key, r, ids);
      LaterWatches(run, at, before, meanwhile);
      hide Run, Intact, PlanTransfer, Answered;
      var outcome: Result<Reply>;
      if aborted.Some? { outcome := Err(aborted.value); }
      else { outcome := Attempt(user, key, r, ids); }
      if outcome.Err? && LostRace(outcome.reason) {
        outcome := ReplayAfterRace(db, k, digest, meanwhile, run, at[1..]);
        RecordedAnswers(meanwhile[POLLS - 1], k, digest);
      }
      return Answer(outcome);
    }
  }

  /** What the attempt comes to, in tables a run has reached. */
  lemma FirstAttempt(run: seq<Db>, at: seq<nat>, db: Db, later: seq<Db>, user: Uuid, key: string, r: TransferRequest, ids: Ids)
    requires Watches(run, at, [db] + later) && Proper(r) && r.amountText == Print(r.amount)
    requires ids.row !in db.transfers && ids.transaction !in db.books.transactions
    ensures Intact(db) && Paired(db.books)
    ensures var k := RecordKey(user, InternalTransfer, key);
            if k in db.records then AttemptReplays(db, k, PlanTransfer(db, user, key, r, ids), TransferDigestOf(r))
            else AttemptAnswers(db, user, key, r, ids)
  {
    hide Run, Watches, Intact, Paired, TransferBody, Answered;
    WatchedStart(run, at, db, later);
    var k := RecordKey(user, InternalTransfer, key);
    if k in db.records { KnownKeyReplays(db, k, TransferDigestOf(r), TransferBody(db, user, r, ids), Sent(ids.row), ids.row); }
    else { TransferVerdict(db, user, key, r, ids); }
  }

  ghost predicate AttemptReplays(db: Db, k: RecordKey, outcome: Outcome, digest: Digest)
    requires k in db.records
  {
    match outcome
    case Commit(reply, w) => Unwrapped(reply) == StoredAnswer(db.records[k], digest) && Apply(db, w) == db
    case Rollback(reason) => Err(reason) == StoredAnswer(db.records[k], digest) && !LostRace(reason)
  }

  ghost predicate AttemptAnswers(db: Db, user: Uuid, key: string, r: TransferRequest, ids: Ids) {
    match PlanTransfer(db, user, key, r, ids)
    case Commit(reply, w) => Answered(db, Apply(db, w), user, key, r, ids, Unwrapped(reply))
    case Rollback(_) => false
  }

  lemma KnownKeyReplays(db: Db, k: RecordKey, digest: Digest, body: Result<Db>, reply: Reply, resource: Uuid)
    requires k in db.records
    ensures AttemptReplays(db, k, Claimed(db, k, digest, body, reply, resource), digest)
  {
    NothingApplied(db);
  }
}
