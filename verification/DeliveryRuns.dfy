/** Whole runs of webhook delivery: fencing, at most five sends, absorbing ends, bounded work and
    retry pauses. */
module DeliveryRuns {
  import opened Domain
  import opened Deliveries
  import opened DeliverySafety

  ghost predicate Stepped(w: World, after: World) {
    Linked(w.tables) && exists e :: Enabled(w, e) && after == Next(w, e)
  }

  ghost predicate StepsAt(ws: seq<World>, i: nat)
    requires i + 1 < |ws|
  {
    Stepped(ws[i], ws[i + 1])
  }

  ghost predicate Run(ws: seq<World>) {
    && |ws| > 0 && Intact(ws[0])
    && (forall i :: 0 <= i < |ws| - 1 ==> StepsAt(ws, i))
  }

  lemma {:induction false} RunStaysIntact(ws: seq<World>, i: nat)
    requires Run(ws) && i < |ws|
    ensures Intact(ws[i])
  {
    if i > 0 {
      RunStaysIntact(ws, i - 1);
      assert StepsAt(ws, i - 1);
      var e :| Enabled(ws[i - 1], e) && ws[i] == Next(ws[i - 1], e);
      StepKeepsIntact(ws[i - 1], e);
    }
  }

  /** The event behind a step of a run. */
  lemma EventAt(ws: seq<World>, i: nat) returns (e: Event)
    requires Run(ws) && i + 1 < |ws|
    ensures Intact(ws[i]) && Enabled(ws[i], e) && ws[i + 1] == Next(ws[i], e)
  {
    RunStaysIntact(ws, i);
    assert StepsAt(ws, i);
    e :| Enabled(ws[i], e) && ws[i + 1] == Next(ws[i], e);
  }

  // ---------------------------------------------------------------- fencing

  /** A job that does not hold a live lease changes nothing; a job that does changes something
      exactly when the attempt is in the state the job expects. */
  lemma OnlyTheLeaseHolderActs(w: World, job: Job, o: Outcome, expected: AttemptStatus, later: int)
    requires Intact(w) && expected in {QUEUED, SENDING}
    ensures Start(w.tables, job, w.clock) != w.tables <==> (HoldsLease(w.tables, job, w.clock) && AttemptIs(w.tables, job, QUEUED))
    ensures Finish(w.tables, job, o, expected, w.clock, later) != w.tables <==> (HoldsLease(w.tables, job, w.clock) && AttemptIs(w.tables, job, expected))
  {
    if HoldsLease(w.tables, job, w.clock) {
      assert DeliveryIntact(w.tables, job.delivery);
      var t, id, k := w.tables, job.delivery, LastAttempt(w.tables, job.delivery);
      if AttemptIs(t, job, QUEUED) { assert Start(t, job, w.clock).attempts[k] == SENDING; }
      else { assert t.(attempts := t.attempts) == t; }
      if AttemptIs(t, job, expected) { assert Finish(t, job, o, expected, w.clock, later).deliveries[id].lease == None; }
    }
  }

  /** A job's lease names exactly the attempt its token was issued for. */
  lemma LeaseNamesTheAttempt(w: World, job: Job)
    requires Intact(w) && HoldsLease(w.tables, job, w.clock)
    ensures job.token in w.issued && w.issued[job.token] == LastAttempt(w.tables, job.delivery)
    ensures forall other: Job :: HoldsLease(w.tables, other, w.clock) && other.delivery == job.delivery ==> other == job
  {}

  /** The token was issued, and is not the token of a live lease. */
  ghost predicate Dead(w: World, job: Job) {
    job.token in w.issued && !HoldsLease(w.tables, job, w.clock)
  }

  lemma DeadStaysDead(w: World, e: Event, job: Job)
    requires TablesIntact(w.tables) && Enabled(w, e) && Dead(w, job)
    ensures Dead(Next(w, e), job)
  {
    if e.Claimed? && e.id == job.delivery { assert e.token != job.token; }
  }

  /** Once a job's lease has expired, been released or superseded, the job is dead for good. */
  lemma {:induction false} FencedForever(ws: seq<World>, i: nat, j: nat, job: Job)
    requires Run(ws) && i <= j < |ws|
    requires Dead(ws[i], job)
    ensures Dead(ws[j], job)
  {
    hide Intact;
    if i < j {
      FencedForever(ws, i, j - 1, job);
      var e := EventAt(ws, j - 1);
      DeadStaysDead(ws[j - 1], e, job);
    }
  }

  // ---------------------------------------------------------------- sends

  /** How often attempts of a delivery were sent. */
  function Sends(sent: seq<AttemptKey>, id: Uuid): nat {
    if sent == [] then 0
    else Sends(sent[..|sent| - 1], id) + if sent[|sent| - 1].delivery == id then 1 else 0
  }

  function SentNumbers(sent: seq<AttemptKey>, id: Uuid): set<nat> {
    set i | 0 <= i < |sent| && sent[i].delivery == id :: sent[i].number
  }

  lemma {:induction false} SendsAreDistinctNumbers(sent: seq<AttemptKey>, id: Uuid)
    requires forall i, j :: 0 <= i < j < |sent| ==> sent[i] != sent[j]
    ensures Sends(sent, id) == |SentNumbers(sent, id)|
  {
    if sent != [] {
      var front, last := sent[..|sent| - 1], sent[|sent| - 1];
      SendsAreDistinctNumbers(front, id);
      var before, after := SentNumbers(front, id), SentNumbers(sent, id);
      forall i | 0 <= i < |front| ensures front[i] == sent[i] {}
      if last.delivery == id {
        forall n | n in after ensures n in before + {last.number} {
          var i :| 0 <= i < |sent| && sent[i].delivery == id && sent[i].number == n;
          if i < |front| { assert front[i].number in before; }
        }
        assert after == before + {last.number} by { assert sent[|sent| - 1].number in after; }
        forall i | 0 <= i < |front| && front[i].delivery == id ensures front[i].number != last.number {
          assert sent[i] != sent[|sent| - 1];
        }
      } else {
        assert after == before;
      }
    }
  }

  lemma {:induction false} SmallNumbers(s: set<nat>, n: nat)
    requires forall x :: x in s ==> 1 <= x <= n
    ensures |s| <= n
  {
    if n == 0 { assert s == {}; }
    else if n in s { SmallNumbers(s - {n}, n - 1); }
    else { SmallNumbers(s, n - 1); }
  }

  /** No attempt is sent twice and no delivery more than five times, however often jobs run. */
  lemma AtMostFiveSends(ws: seq<World>, i: nat, id: Uuid)
    requires Run(ws) && i < |ws|
    ensures forall x, y :: 0 <= x < y < |ws[i].sent| ==> ws[i].sent[x] != ws[i].sent[y]
    ensures Sends(ws[i].sent, id) <= (if id in ws[i].tables.deliveries then ws[i].tables.deliveries[id].attemptCount else 0) <= MAX_ATTEMPTS
  {
    RunStaysIntact(ws, i);
    var t, sent := ws[i].tables, ws[i].sent;
    SendsAreDistinctNumbers(sent, id);
    var bound := if id in t.deliveries then t.deliveries[id].attemptCount else 0;
    forall n | n in SentNumbers(sent, id) ensures 1 <= n <= bound {
      var x :| 0 <= x < |sent| && sent[x].delivery == id && sent[x].number == n;
      assert sent[x] == AttemptKey(id, n) && DeliveryIntact(t, id);
    }
    SmallNumbers(SentNumbers(sent, id), bound);
    if id in t.deliveries { assert DeliveryIntact(t, id); }
  }

  // ---------------------------------------------------------------- progress

  /** Work left: attempts left, and how far the current one has got. */
  function Work(t: Tables, id: Uuid): nat
    requires id in t.deliveries
  {
    var d := t.deliveries[id];
    var left := if d.attemptCount <= MAX_ATTEMPTS then 3 * (MAX_ATTEMPTS - d.attemptCount) else 0;
    if d.status == DeliveryStatus.PENDING then left
    else if d.status == PROCESSING then left + (if AttemptIs(t, Job(id, 0), QUEUED) then 2 else 1)
    else 0
  }

  ghost predicate Final(s: DeliveryStatus) {
    s in {DELIVERED, DeliveryStatus.FAILED, DeliveryStatus.CANCELLED}
  }

  /** A step leaves a delivery as it is or brings it closer to its end. */
  ghost predicate Closer(w: World, after: World, id: Uuid)
    requires id in w.tables.deliveries
  {
    && id in after.tables.deliveries
    && (SameDelivery(w.tables, after.tables, id) || Work(after.tables, id) < Work(w.tables, id))
  }

  lemma ClaimComesCloser(w: World, e: Event, id: Uuid)
    requires Intact(w) && Enabled(w, e) && e.Claimed? && id in w.tables.deliveries
    ensures Closer(w, Next(w, e), id)
  {
    hide SameDelivery, Linked, CloseOpen;
    StepKeepsTables(w, e);
    ClaimTouchesOne(w.tables, e.id, e.token, e.until);
  }

  lemma StartComesCloser(w: World, e: Event, id: Uuid)
    requires Intact(w) && Enabled(w, e) && e.Started? && id in w.tables.deliveries
    ensures Closer(w, Next(w, e), id)
  {
    hide Enabled, Linked;
    StepKeepsTables(w, e);
    OnlyTheLeaseHolderActs(w, e.job, Outcome(false, false), QUEUED, 0);
    if HoldsLease(w.tables, e.job, w.clock) { StartTouchesOne(w.tables, e.job, w.clock); }
  }

  lemma FinishComesCloser(w: World, e: Event, id: Uuid)
    requires Intact(w) && Enabled(w, e) && e.Finished? && id in w.tables.deliveries
    ensures Closer(w, Next(w, e), id)
  {
    StepKeepsTables(w, e);
    if Finishes(w.tables, e.job, e.expected, w.clock) { FinishTouchesOne(w.tables, e.job, e.outcome, e.expected, w.clock, e.later); }
  }

  lemma DisableComesCloser(w: World, e: Event, id: Uuid)
    requires Intact(w) && Enabled(w, e) && e.Disabled? && id in w.tables.deliveries
    ensures Closer(w, Next(w, e), id)
  {
    StepKeepsTables(w, e);
    var t, u := w.tables, Disable(w.tables, e.subscription);
    if t.deliveries[id].subscription != e.subscription { assert SameDelivery(t, u, id); }
    else if Final(t.deliveries[id].status) {
      forall n: nat | AttemptKey(id, n) in t.attempts ensures u.attempts[AttemptKey(id, n)] == t.attempts[AttemptKey(id, n)] {
        assert AttemptIntact(t.deliveries[id], n, t.attempts[AttemptKey(id, n)]);
      }
      assert SameDelivery(t, u, id);
    }
  }

  lemma OthersComeCloser(w: World, e: Event, id: Uuid)
    requires Enabled(w, e) && (e.Subscribed? || e.FannedOut? || e.Ticked?) && id in w.tables.deliveries && Intact(w)
    ensures Closer(w, Next(w, e), id)
  {}

  /** Every step leaves each delivery untouched, or strictly reduces the work left on it. */
  lemma StepComesCloser(w: World, e: Event, id: Uuid)
    requires Intact(w) && Enabled(w, e) && id in w.tables.deliveries
    ensures Closer(w, Next(w, e), id)
  {
    hide Intact, Enabled, Closer, Next;
    match e
    case Claimed(_, _, _) => ClaimComesCloser(w, e, id);
    case Started(_) => StartComesCloser(w, e, id);
    case Finished(_, _, _, _) => FinishComesCloser(w, e, id);
    case Disabled(_) => DisableComesCloser(w, e, id);
    case _ => OthersComeCloser(w, e, id);
  }

  lemma RunComesCloser(ws: seq<World>, i: nat, id: Uuid)
    requires Run(ws) && i + 1 < |ws| && id in ws[i].tables.deliveries
    ensures Closer(ws[i], ws[i + 1], id)
  {
    RunStaysIntact(ws, i);
    assert StepsAt(ws, i);
    var e :| Enabled(ws[i], e) && ws[i + 1] == Next(ws[i], e);
    StepComesCloser(ws[i], e, id);
  }

  /** The steps between `i` and `j` that changed the delivery. */
  ghost function Changes(ws: seq<World>, i: nat, j: nat, id: Uuid): nat
    requires i <= j < |ws|
  {
    if i == j then 0
    else Changes(ws, i, j - 1, id) + if SameDelivery(ws[j - 1].tables, ws[j].tables, id) then 0 else 1
  }

  lemma SameMeansSameWork(t: Tables, u: Tables, id: Uuid)
    requires id in t.deliveries && id in u.deliveries && SameDelivery(t, u, id)
    ensures Work(u, id) == Work(t, id)
  {
    assert LastAttempt(t, id) in t.attempts <==> LastAttempt(u, id) in u.attempts;
  }

  lemma {:induction false} WorkBoundsChanges(ws: seq<World>, i: nat, j: nat, id: Uuid)
    requires Run(ws) && i <= j < |ws| && id in ws[i].tables.deliveries
    ensures id in ws[j].tables.deliveries
    ensures Changes(ws, i, j, id) + Work(ws[j].tables, id) <= Work(ws[i].tables, id)
  {
    if i < j {
      WorkBoundsChanges(ws, i, j - 1, id);
      StepCostsWork(ws, j - 1, id);
    }
  }

  lemma StepCostsWork(ws: seq<World>, i: nat, id: Uuid)
    requires Run(ws) && i + 1 < |ws| && id in ws[i].tables.deliveries
    ensures id in ws[i + 1].tables.deliveries
    ensures Work(ws[i + 1].tables, id) + (if SameDelivery(ws[i].tables, ws[i + 1].tables, id) then 0 else 1) <= Work(ws[i].tables, id)
  {
    RunComesCloser(ws, i, id);
    if SameDelivery(ws[i].tables, ws[i + 1].tables, id) { SameMeansSameWork(ws[i].tables, ws[i + 1].tables, id); }
  }

  /** A delivery changes at most fifteen times, and never again once it has ended. */
  lemma BoundedWork(ws: seq<World>, i: nat, j: nat, id: Uuid)
    requires Run(ws) && i <= j < |ws| && id in ws[i].tables.deliveries
    ensures Changes(ws, i, j, id) <= 15
    ensures Final(ws[i].tables.deliveries[id].status) ==> Changes(ws, i, j, id) == 0
  {
    RunStaysIntact(ws, i);
    WorkBoundsChanges(ws, i, j, id);
  }

  lemma {:induction false} NoChangesMeansSame(ws: seq<World>, i: nat, j: nat, id: Uuid)
    requires i <= j < |ws| && Changes(ws, i, j, id) == 0
    ensures SameDelivery(ws[i].tables, ws[j].tables, id)
  {
    if i < j { NoChangesMeansSame(ws, i, j - 1, id); }
  }

  /** DELIVERED, FAILED and CANCELLED are never left, attempts included. */
  lemma EndsAreFinal(ws: seq<World>, i: nat, j: nat, id: Uuid)
    requires Run(ws) && i <= j < |ws| && id in ws[i].tables.deliveries && Final(ws[i].tables.deliveries[id].status)
    ensures SameDelivery(ws[i].tables, ws[j].tables, id)
  {
    BoundedWork(ws, i, j, id);
    NoChangesMeansSame(ws, i, j, id);
  }

  // ---------------------------------------------------------------- retry pauses

  /** The pauses after attempts 1 to 4: one, two, four and eight seconds. */
  lemma RetryPauses(w: World, job: Job, o: Outcome, expected: AttemptStatus, later: int)
    requires Intact(w) && Finishes(w.tables, job, expected, w.clock) && expected in {QUEUED, SENDING} && !o.success
    ensures var n := w.tables.deliveries[job.delivery].attemptCount;
            var d := Finish(w.tables, job, o, expected, w.clock, later).deliveries[job.delivery];
            if o.retry && n < MAX_ATTEMPTS
            then 1 <= n <= 4 && d.status == DeliveryStatus.PENDING && d.availableAt == later + (match n case 1 => 1000 case 2 => 2000 case 3 => 4000 case _ => 8000)
            else d.status == DeliveryStatus.FAILED
  {
    assert DeliveryIntact(w.tables, job.delivery);
    assert Power2(0) == 1 && Power2(1) == 2 && Power2(2) == 4 && Power2(3) == 8;
  }

  lemma WaitingIsNotClaimedEarly(w: World, e: Event, id: Uuid)
    requires Intact(w) && Enabled(w, e) && id in w.tables.deliveries && w.tables.deliveries[id].status == DeliveryStatus.PENDING
    ensures id in Next(w, e).tables.deliveries
    ensures var d := Next(w, e).tables.deliveries[id];
            d == w.tables.deliveries[id] || d.status == DeliveryStatus.CANCELLED || w.clock >= w.tables.deliveries[id].availableAt
  {
    assert DeliveryIntact(w.tables, id);
  }

  lemma PauseGoesOn(w: World, e: Event, id: Uuid, d: Delivery)
    requires Intact(w) && Enabled(w, e) && StillOrCancelled(w, id, d) && d.status == DeliveryStatus.PENDING && w.clock < d.availableAt
    ensures StillOrCancelled(Next(w, e), id, d)
  {
    if w.tables.deliveries[id] == d { WaitingIsNotClaimedEarly(w, e, id); }
    else { CancelledStays(w, e, id); }
  }

  /** The delivery is still `d`, or cancelled. */
  ghost predicate StillOrCancelled(w: World, id: Uuid, d: Delivery) {
    id in w.tables.deliveries && (w.tables.deliveries[id] == d || w.tables.deliveries[id].status == DeliveryStatus.CANCELLED)
  }

  /** While the clock is short of `availableAt` a waiting delivery is untouched or cancelled: no
      attempt is claimed before its pause is over. */
  lemma {:induction false} PausesAreKept(ws: seq<World>, i: nat, j: nat, id: Uuid, d: Delivery)
    requires Run(ws) && i <= j < |ws| && StillOrCancelled(ws[i], id, d) && d.status == DeliveryStatus.PENDING
    requires ws[j].clock < d.availableAt
    ensures StillOrCancelled(ws[j], id, d)
  {
    if i < j {
      ClockGoesOn(ws, j - 1);
      PausesAreKept(ws, i, j - 1, id, d);
      PauseStep(ws, j - 1, id, d);
    }
  }

  lemma ClockGoesOn(ws: seq<World>, i: nat)
    requires Run(ws) && i + 1 < |ws|
    ensures ws[i].clock <= ws[i + 1].clock
  {
    var e := EventAt(ws, i);
  }

  lemma PauseStep(ws: seq<World>, i: nat, id: Uuid, d: Delivery)
    requires Run(ws) && i + 1 < |ws| && StillOrCancelled(ws[i], id, d) && d.status == DeliveryStatus.PENDING && ws[i].clock < d.availableAt
    ensures StillOrCancelled(ws[i + 1], id, d)
  {
    var e := EventAt(ws, i);
    PauseGoesOn(ws[i], e, id, d);
  }

  lemma CancelledStays(w: World, e: Event, id: Uuid)
    requires Intact(w) && Enabled(w, e) && id in w.tables.deliveries && w.tables.deliveries[id].status == DeliveryStatus.CANCELLED
    ensures id in Next(w, e).tables.deliveries && Next(w, e).tables.deliveries[id].status == DeliveryStatus.CANCELLED
  {
    assert DeliveryIntact(w.tables, id);
  }

  // ---------------------------------------------------------------- starting under a disabled subscription

  /** Disabling cancels leases in the same transaction, so a job never finds its subscription
      disabled while it holds a lease. If it did, starting would be safe exactly when the
      attempt is still queued: a second run of a job whose attempt is being sent would cancel
      the delivery and leave that attempt open. */
  lemma StartingUnderADisabledSubscription(t: Tables, job: Job, now: int)
    requires Linked(t) && HoldsLease(t, job, now) && !t.subscriptions[t.deliveries[job.delivery].subscription]
    requires DeliveryIntact(t.(subscriptions := t.subscriptions[t.deliveries[job.delivery].subscription := true]), job.delivery)
    ensures DeliveryIntact(Start(t, job, now), job.delivery) <==> AttemptIs(t, job, QUEUED)
  {
    var id, u := job.delivery, Start(t, job, now);
    var on := t.(subscriptions := t.subscriptions[t.deliveries[id].subscription := true]);
    var n := t.deliveries[id].attemptCount;
    forall m: nat | AttemptKey(id, m) in t.attempts ensures AttemptIntact(t.deliveries[id], m, t.attempts[AttemptKey(id, m)]) {
      assert AttemptIntact(on.deliveries[id], m, on.attempts[AttemptKey(id, m)]);
    }
    if AttemptIs(t, job, QUEUED) {
      forall m: nat | AttemptKey(id, m) in u.attempts ensures AttemptIntact(u.deliveries[id], m, u.attempts[AttemptKey(id, m)]) {
        assert AttemptIntact(t.deliveries[id], m, t.attempts[AttemptKey(id, m)]);
      }
    } else {
      assert AttemptKey(id, n) in on.attempts;
      assert !AttemptIntact(u.deliveries[id], n, u.attempts[AttemptKey(id, n)]);
    }
  }
}
