/** What each transaction of webhook delivery means for a delivery and its attempts: claims, starts,
    sends by the status of the response, and releases. */
module DeliveryVerdicts {
  import opened Domain
  import opened Deliveries
  import opened DeliverySafety

  /** The pauses after attempts 1 to 4. */
  const PAUSES: seq<int> := [1000, 2000, 4000, 8000]

  // ---------------------------------------------------------------- claiming

  /** A waiting delivery is claimable from its time on, a leased one exactly while nobody holds its
      lease, and an ended one never. */
  lemma ClaimableWhen(t: Tables, id: Uuid, now: int)
    requires TablesIntact(t) && id in t.deliveries
    ensures var d := t.deliveries[id];
            Due(d, now) <==>
              match d.status
              case PENDING => d.availableAt <= now
              case PROCESSING => forall job: Job :: job.delivery == id ==> !HoldsLease(t, job, now)
              case _ => false
  {
    assert DeliveryIntact(t, id);
    var d := t.deliveries[id];
    if d.status == PROCESSING && !Due(d, now) { assert HoldsLease(t, Job(id, d.lease.value.token), now); }
  }

  /** A claim abandons the attempt of the lease that expired. It leases and queues the next attempt;
      after the fifth it has failed; of a disabled subscription it is cancelled. */
  ghost predicate ClaimedAs(t: Tables, u: Tables, id: Uuid, token: Uuid, now: int)
    requires Linked(t) && id in t.deliveries
  {
    var d := t.deliveries[id];
    var attempts := if d.status == PROCESSING then t.attempts[AttemptKey(id, d.attemptCount) := ABANDONED] else t.attempts;
    if !t.subscriptions[d.subscription] then
      u == Tables(t.subscriptions, t.deliveries[id := Delivery(d.subscription, DeliveryStatus.CANCELLED, d.attemptCount, d.availableAt, None)], attempts)
    else if d.attemptCount == 5 then
      u == Tables(t.subscriptions, t.deliveries[id := Delivery(d.subscription, DeliveryStatus.FAILED, 5, d.availableAt, None)], attempts)
    else
      u == Tables(t.subscriptions,
                  t.deliveries[id := Delivery(d.subscription, PROCESSING, d.attemptCount + 1, d.availableAt, Some(Lease(token, now + 30_000)))],
                  attempts[AttemptKey(id, d.attemptCount + 1) := QUEUED])
  }

  lemma ClaimVerdict(t: Tables, id: Uuid, token: Uuid, now: int)
    requires TablesIntact(t) && id in t.deliveries && t.deliveries[id].status in {DeliveryStatus.PENDING, PROCESSING}
    ensures ClaimedAs(t, ClaimRow(t, id, token, now), id, token, now)
    ensures TablesIntact(ClaimRow(t, id, token, now))
  {
    ClaimTouchesOne(t, id, token, now);
    ClaimedIsIntact(t, id, token, now);
    TouchingOneKeepsIntact(t, ClaimRow(t, id, token, now), id);
    LastIsOpen(t, id);
  }

  /** The one open attempt of a delivery is that of its lease. */
  lemma LastIsOpen(t: Tables, id: Uuid)
    requires TablesIntact(t) && id in t.deliveries
    ensures CloseOpen(t.attempts, id, ABANDONED)
              == if t.deliveries[id].status == PROCESSING then t.attempts[LastAttempt(t, id) := ABANDONED] else t.attempts
    ensures t.deliveries[id].attemptCount <= MAX_ATTEMPTS
  {
    assert DeliveryIntact(t, id);
    forall k | k in t.attempts && k.delivery == id
      ensures Open(t.attempts[k]) <==> (t.deliveries[id].status == PROCESSING && k == LastAttempt(t, id))
    {
      assert k == AttemptKey(id, k.number) && AttemptIntact(t.deliveries[id], k.number, t.attempts[k]);
    }
  }

  // ---------------------------------------------------------------- starting and ending an attempt

  /** The job holds the lease of its delivery, whose current attempt is queued. */
  ghost predicate Live(t: Tables, job: Job, now: int) {
    HoldsLease(t, job, now) && AttemptIs(t, job, QUEUED)
  }

  /** Only the current attempt changes: it is being sent. */
  ghost predicate SendsNow(t: Tables, u: Tables, id: Uuid) {
    id in t.deliveries && u == t.(attempts := t.attempts[AttemptKey(id, t.deliveries[id].attemptCount) := SENDING])
  }

  /** The current attempt and with it the delivery take these states, and the lease is given back;
      nothing else changes. */
  ghost predicate EndsAs(t: Tables, u: Tables, id: Uuid, status: DeliveryStatus, attempt: AttemptStatus, availableAt: int) {
    && id in t.deliveries
    && var d := t.deliveries[id];
       u == Tables(t.subscriptions, t.deliveries[id := Delivery(d.subscription, status, d.attemptCount, availableAt, None)],
                   t.attempts[AttemptKey(id, d.attemptCount) := attempt])
  }

  /** The attempt failed: another one waits for its pause, unless this was the fifth or there is no
      point in another. */
  ghost predicate FailsAs(t: Tables, u: Tables, id: Uuid, again: bool, clock: int) {
    && id in t.deliveries
    && var d := t.deliveries[id];
       if again && 1 <= d.attemptCount <= 4
       then EndsAs(t, u, id, DeliveryStatus.PENDING, AttemptStatus.FAILED, clock + PAUSES[d.attemptCount - 1])
       else EndsAs(t, u, id, DeliveryStatus.FAILED, AttemptStatus.FAILED, d.availableAt)
  }

  lemma StartVerdict(t: Tables, job: Job, now: int)
    requires TablesIntact(t)
    ensures Starts(t, job, now) <==> Live(t, job, now)
    ensures if Live(t, job, now) then SendsNow(t, Start(t, job, now), job.delivery) else Start(t, job, now) == t
    ensures TablesIntact(Start(t, job, now))
  {
    if HoldsLease(t, job, now) {
      assert DeliveryIntact(t, job.delivery);
      StartTouchesOne(t, job, now);
      TouchingOneKeepsIntact(t, Start(t, job, now), job.delivery);
    }
  }

  lemma FinishVerdict(t: Tables, job: Job, o: Outcome, expected: AttemptStatus, now: int, later: int)
    requires TablesIntact(t) && expected in {QUEUED, SENDING} && !(o.success && o.retry)
    ensures var u := Finish(t, job, o, expected, now, later);
            && TablesIntact(u)
            && if !Finishes(t, job, expected, now) then u == t
               else if o.success then EndsAs(t, u, job.delivery, DELIVERED, AttemptStatus.SUCCEEDED, t.deliveries[job.delivery].availableAt)
               else FailsAs(t, u, job.delivery, o.retry, later)
  {
    if Finishes(t, job, expected, now) {
      assert DeliveryIntact(t, job.delivery);
      FinishTouchesOne(t, job, o, expected, now, later);
      TouchingOneKeepsIntact(t, Finish(t, job, o, expected, now, later), job.delivery);
      Delays(t.deliveries[job.delivery].attemptCount);
    }
  }

  lemma Delays(n: nat)
    ensures 1 <= n <= 4 ==> Delay(n) == PAUSES[n - 1]
  {
    assert Power2(0) == 1 && Power2(1) == 2 && Power2(2) == 4 && Power2(3) == 8;
  }

  // ---------------------------------------------------------------- sending

  predicate IsDelivered(a: Answer) {
    a.Responded? && 200 <= a.httpStatus < 300
  }

  /** Timeouts, throttling, server errors and unreachable endpoints may pass. */
  predicate MayPass(a: Answer) {
    match a
    case Responded(status) => status == 408 || status == 429 || status >= 500
    case Failed(unsafeEndpoint) => !unsafeEndpoint
  }

  /** How an attempt that was sent, or could not be signed, ends the delivery. */
  ghost predicate SendEnds(t: Tables, u: Tables, id: Uuid, signable: bool, answer: Answer, clock: int) {
    && id in t.deliveries
    && if signable && IsDelivered(answer) then EndsAs(t, u, id, DELIVERED, AttemptStatus.SUCCEEDED, t.deliveries[id].availableAt)
       else FailsAs(t, u, id, signable && MayPass(answer), clock)
  }

  /** A whole execution: a job that is not live does nothing; a live one is sent, and what came of
      it is recorded unless the lease expired meanwhile. */
  ghost predicate Executed(t: Tables, u: Tables, job: Job, signable: bool, answer: Answer, t1: int, t2: int, t3: int) {
    if !Live(t, job, t1) then u == t
    else if t.deliveries[job.delivery].lease.value.until <= t2 then SendsNow(t, u, job.delivery)
    else SendEnds(t, u, job.delivery, signable, answer, t3)
  }

  lemma ExecutionVerdict(t: Tables, job: Job, signable: bool, answer: Answer, t1: int, t2: int, t3: int)
    requires TablesIntact(t) && t1 <= t2 <= t3
    ensures Starts(t, job, t1) <==> Live(t, job, t1)
    ensures var outcome := if signable then OutcomeOf(answer) else Outcome(false, false);
            var begun := Start(t, job, t1);
            var u := if Starts(t, job, t1) then Finish(begun, job, outcome, SENDING, t2, t3) else begun;
            TablesIntact(u) && Executed(t, u, job, signable, answer, t1, t2, t3)
  {
    StartVerdict(t, job, t1);
    if Live(t, job, t1) {
      hide TablesIntact, Start, Finish, FailsAs, EndsAs;
      var outcome := if signable then OutcomeOf(answer) else Outcome(false, false);
      var begun := Start(t, job, t1);
      FinishVerdict(begun, job, outcome, SENDING, t2, t3);
      if Finishes(begun, job, SENDING, t2) {
        SendingIsForgotten(t, begun, Finish(begun, job, outcome, SENDING, t2, t3), job.delivery, signable, answer, t3);
      }
    }
  }

  lemma SendingIsForgotten(t: Tables, begun: Tables, u: Tables, id: Uuid, signable: bool, answer: Answer, clock: int)
    requires SendsNow(t, begun, id) && SendEnds(begun, u, id, signable, answer, clock)
    ensures SendEnds(t, u, id, signable, answer, clock)
  {
    var k := AttemptKey(id, t.deliveries[id].attemptCount);
    SetTwice(t.attempts, k, SENDING, AttemptStatus.SUCCEEDED);
    SetTwice(t.attempts, k, SENDING, AttemptStatus.FAILED);
  }

  lemma SetTwice<K, V>(m: map<K, V>, k: K, v: V, w: V)
    ensures m[k := v][k := w] == m[k := w]
  {}

  // ---------------------------------------------------------------- runs

  /** Runs count a send for exactly the jobs that are executed live, as that of their current
      attempt. */
  lemma SendsAreCounted(w: World, job: Job)
    requires Intact(w)
    ensures Next(w, Started(job)).sent ==
              if Live(w.tables, job, w.clock) then w.sent + [AttemptKey(job.delivery, w.tables.deliveries[job.delivery].attemptCount)] else w.sent
    ensures forall e :: Enabled(w, e) && !e.Started? ==> Next(w, e).sent == w.sent
  {
    StartVerdict(w.tables, job, w.clock);
  }

  /** A delivery fanned out is claimable at once, has no attempts yet, and disturbs no other. */
  lemma FannedOutIsDue(t: Tables, id: Uuid, sub: Uuid, now: int, later: int)
    requires TablesIntact(t) && id !in t.deliveries && sub in t.subscriptions
    ensures var u := FanOut(t, id, sub, now);
            && TablesIntact(u) && OnlyTouches(t, u.(deliveries := u.deliveries - {id}), id)
            && u.deliveries[id].subscription == sub && u.deliveries[id].attemptCount == 0
            && (Due(u.deliveries[id], later) <==> later >= now)
            && (forall n: nat :: AttemptKey(id, n) !in u.attempts)
  {
    FanOutKeepsIntact(t, id, sub, now);
    assert FanOut(t, id, sub, now).deliveries - {id} == t.deliveries;
  }
}
