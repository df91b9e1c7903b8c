/** From business rows to publication: the outbox event of a transfer, reversal or payment is
    inserted by the transaction that makes it happen, and published by publishers that know
    nothing of it. */
module Publication {
  import opened Domain
  import opened Store
  import opened Plans
  import opened Business
  import opened Operations
  import opened PaymentSteps
  import opened Runs
  import opened Safety
  import Outbox

  /** `ids` are the drawn ids of the event rows. */
  datatype Joint = Joint(db: Db, ids: map<OutboxKey, Uuid>, outbox: Outbox.World)

  datatype Event = Committed(step: Step, id: Uuid) | Published(event: Outbox.Event)

  ghost function NewEvents(db: Db, after: Db): set<OutboxKey> {
    after.outbox.Keys - db.outbox.Keys
  }

  ghost predicate Happens(j: Joint, e: Event) {
    match e
    case Committed(s, id) => Enabled(j.db, s) && id !in j.outbox.rows
    case Published(event) => !event.Created? && Outbox.Enabled(j.outbox, event)
  }

  /** A commit inserts its event row, if it has one, with everything else it writes. */
  ghost function After(j: Joint, e: Event): Joint
    requires Happens(j, e)
  {
    match e
    case Committed(s, id) =>
      var db := Next(j.db, s);
      if NewEvents(j.db, db) == {} then j.(db := db)
      else
        var k :| k in NewEvents(j.db, db);
        Joint(db, j.ids[k := id], Outbox.Next(j.outbox, Outbox.Created(id)))
    case Published(event) => j.(outbox := Outbox.Next(j.outbox, event))
  }

  /** Every event has a row of its own, and every row an event. */
  ghost predicate Joined(j: Joint) {
    && j.ids.Keys == j.db.outbox.Keys
    && (forall k, l :: k in j.ids && l in j.ids && j.ids[k] == j.ids[l] ==> k == l)
    && j.ids.Values == j.outbox.rows.Keys
  }

  ghost predicate Intact(j: Joint) {
    Good(j.db) && Outbox.Intact(j.outbox) && Joined(j)
  }

  // ---------------------------------------------------------------- one event a commit

  ghost predicate AtMostOne(keys: set<OutboxKey>) {
    forall k, l :: k in keys && l in keys ==> k == l
  }

  lemma PlansWriteOneEvent(db: Db, op: Op)
    requires Plan(db, op).Commit?
    ensures AtMostOne(Plan(db, op).writes.outbox.Keys)
  {
    if op.Settle? { SettleCases(db, op.provider, op.evidence, op.transaction); }
  }

  lemma StepsWriteOneEvent(db: Db, s: Step)
    requires Enabled(db, s)
    ensures AtMostOne(NewEvents(db, Next(db, s)))
  {
    match s
    case Act(op, read) => PlansWriteOneEvent(View(db, read), op);
    case Refuse(op, read) => PlansWriteOneEvent(read, op);
    case NewIntent(op, read) => PlansWriteOneEvent(read, op);
    case EditBeneficiaries(_) =>
  }

  // ---------------------------------------------------------------- steps

  lemma NewKeys(db: Db, after: Db)
    requires db.outbox.Keys <= after.outbox.Keys
    ensures after.outbox.Keys == db.outbox.Keys + NewEvents(db, after)
  {
    forall x | x in after.outbox ensures x in db.outbox.Keys + NewEvents(db, after) {
      if x !in db.outbox { assert x in NewEvents(db, after); }
    }
  }

  lemma NewIdIsValue(ids: map<OutboxKey, Uuid>, k: OutboxKey, id: Uuid)
    requires k !in ids
    ensures ids[k := id].Values == ids.Values + {id}
  {
    var more := ids[k := id];
    assert more[k] == id;
    forall x | x in ids.Values ensures x in more.Values {
      var l :| l in ids && ids[l] == x;
      assert more[l] == x;
    }
  }

  lemma NewEventIsJoined(j: Joint, db: Db, k: OutboxKey, id: Uuid)
    requires Joined(j) && id !in j.outbox.rows && j.db.outbox.Keys <= db.outbox.Keys
    requires AtMostOne(NewEvents(j.db, db)) && k in NewEvents(j.db, db)
    ensures Joined(Joint(db, j.ids[k := id], Outbox.Next(j.outbox, Outbox.Created(id))))
  {
    NewKeys(j.db, db);
    assert NewEvents(j.db, db) == {k};
    NewIdIsValue(j.ids, k, id);
    forall l | l in j.ids ensures j.ids[l] != id { assert j.ids[l] in j.ids.Values; }
  }

  lemma CommitStaysJoined(j: Joint, db: Db, id: Uuid)
    requires Joined(j) && id !in j.outbox.rows && j.db.outbox.Keys <= db.outbox.Keys && AtMostOne(NewEvents(j.db, db))
    ensures NewEvents(j.db, db) == {} ==> Joined(j.(db := db))
    ensures forall k :: k in NewEvents(j.db, db) ==>
              Joined(Joint(db, j.ids[k := id], Outbox.Next(j.outbox, Outbox.Created(id))))
  {
    NewKeys(j.db, db);
    forall k | k in NewEvents(j.db, db) ensures Joined(Joint(db, j.ids[k := id], Outbox.Next(j.outbox, Outbox.Created(id)))) {
      NewEventIsJoined(j, db, k, id);
    }
  }

  lemma PublishersKeepRows(w: Outbox.World, e: Outbox.Event)
    requires !e.Created? && Outbox.Enabled(w, e) && Outbox.Intact(w)
    ensures Outbox.Next(w, e).rows.Keys == w.rows.Keys
  {}

  ghost predicate IdsKept(j: Joint, after: Joint) {
    forall k :: k in j.ids ==> k in after.ids && after.ids[k] == j.ids[k]
  }

  lemma CommitKeepsIntact(j: Joint, s: Step, id: Uuid)
    requires Intact(j) && Happens(j, Committed(s, id))
    ensures Intact(After(j, Committed(s, id))) && IdsKept(j, After(j, Committed(s, id)))
  {
    hide Good, Grows, Outbox.Intact, Enabled, Next, Outbox.Next, Outbox.Enabled;
    StepKeepsGood(j.db, s);
    StepsWriteOneEvent(j.db, s);
    EventsStay(j.db, Next(j.db, s));
    CommitStaysJoined(j, Next(j.db, s), id);
    Outbox.StepKeepsIntact(j.outbox, Outbox.Created(id));
  }

  lemma PublishingKeepsIntact(j: Joint, event: Outbox.Event)
    requires Intact(j) && Happens(j, Published(event))
    ensures Intact(After(j, Published(event))) && IdsKept(j, After(j, Published(event)))
  {
    hide Good, Outbox.Intact, Outbox.Next, Outbox.Enabled;
    Outbox.StepKeepsIntact(j.outbox, event);
    PublishersKeepRows(j.outbox, event);
  }

  lemma StepKeepsIntact(j: Joint, e: Event)
    requires Intact(j) && Happens(j, e)
    ensures Intact(After(j, e)) && IdsKept(j, After(j, e))
  {
    hide Intact, After, Happens;
    match e
    case Committed(s, id) => CommitKeepsIntact(j, s, id);
    case Published(event) => PublishingKeepsIntact(j, event);
  }

  lemma EventsStay(db: Db, after: Db)
    requires Grows(db, after)
    ensures db.outbox.Keys <= after.outbox.Keys
  {}

  // ---------------------------------------------------------------- runs

  ghost predicate Stepped(j: Joint, after: Joint) {
    exists e :: Happens(j, e) && after == After(j, e)
  }

  ghost predicate StepsAt(js: seq<Joint>, i: nat)
    requires i + 1 < |js|
  {
    Stepped(js[i], js[i + 1])
  }

  ghost predicate JointRun(js: seq<Joint>) {
    && |js| > 0 && Intact(js[0])
    && (forall i :: 0 <= i < |js| - 1 ==> StepsAt(js, i))
  }

  lemma {:induction false} EventsKeepTheirRows(js: seq<Joint>, i: nat, j: nat)
    requires JointRun(js) && i <= j < |js| && Intact(js[i])
    ensures Intact(js[j])
    ensures IdsKept(js[i], js[j])
  {
    hide Intact, Stepped;
    if i < j {
      EventsKeepTheirRows(js, i, j - 1);
      RowsStepOn(js, j - 1);
    }
  }

  lemma RowsStepOn(js: seq<Joint>, i: nat)
    requires JointRun(js) && i + 1 < |js| && Intact(js[i])
    ensures Intact(js[i + 1])
    ensures IdsKept(js[i], js[i + 1])
  {
    assert StepsAt(js, i);
    var e :| Happens(js[i], e) && js[i + 1] == After(js[i], e);
    StepKeepsIntact(js[i], e);
  }

  /** The event is in the outbox: published, its job then queued, or claimable within five minutes;
      and at most one notification tells of it. */
  ghost predicate Announced(j: Joint, k: OutboxKey) {
    && k in j.ids && j.ids[k] in j.outbox.rows
    && var id := j.ids[k];
    && (if j.outbox.rows[id].status == Outbox.PUBLISHED then id in j.outbox.queued
        else Outbox.Due(j.outbox.rows[id], j.outbox.clock + Outbox.STALE + 1))
    && (forall m, n :: (m in j.outbox.notifications && n in j.outbox.notifications
                        && j.outbox.notifications[m] == id && j.outbox.notifications[n] == id) ==> m == n)
  }

  /** Every committed transfer has its one event row from the commit on, and for good. */
  lemma TransfersAreAnnounced(js: seq<Joint>, i: nat, j: nat, x: Uuid)
    requires JointRun(js) && i <= j < |js| && x in js[i].db.transfers
    ensures var k := OutboxKey(TRANSFER_COMPLETED, x);
            k in js[i].ids && Announced(js[j], k) && js[j].ids[k] == js[i].ids[k]
  {
    EventsKeepTheirRows(js, 0, i);
    EventsKeepTheirRows(js, i, j);
    TransferHasEvent(js[i].db, x);
    EventIsAnnounced(js[j], OutboxKey(TRANSFER_COMPLETED, x));
  }

  lemma TransferHasEvent(db: Db, x: Uuid)
    requires Good(db) && x in db.transfers
    ensures OutboxKey(TRANSFER_COMPLETED, x) in db.outbox
  {
    assert TransferIntact(db, x);
  }

  lemma EventIsAnnounced(j: Joint, k: OutboxKey)
    requires Outbox.Intact(j.outbox) && Joined(j) && k in j.ids
    ensures Announced(j, k)
  {
    assert j.ids[k] in j.ids.Values;
    assert Outbox.RowIntact(j.outbox, j.ids[k]);
  }
}
