/** Webhook delivery: the tables, and what each database transaction does to them. A delivery is
    attempted under a lease; whoever holds the current lease token may start and finish the
    current attempt. Times are milliseconds. */
module Deliveries {
  import opened Domain

  const MAX_ATTEMPTS := 5
  const LEASE := 30_000
  const BATCH := 10

  datatype DeliveryStatus = PENDING | PROCESSING | DELIVERED | FAILED | CANCELLED
  datatype AttemptStatus = QUEUED | SENDING | SUCCEEDED | FAILED | ABANDONED | CANCELLED

  datatype Lease = Lease(token: Uuid, until: int)
  datatype Delivery = Delivery(subscription: Uuid, status: DeliveryStatus, attemptCount: nat,
                               availableAt: int, lease: Option<Lease>)
  datatype AttemptKey = AttemptKey(delivery: Uuid, number: nat)

  /** `subscriptions` holds the enabled flag; disabled subscriptions are never enabled again. */
  datatype Tables = Tables(subscriptions: map<Uuid, bool>, deliveries: map<Uuid, Delivery>,
                           attempts: map<AttemptKey, AttemptStatus>)

  datatype Job = Job(delivery: Uuid, token: Uuid)
  datatype Outcome = Outcome(success: bool, retry: bool)

  /** Foreign keys. */
  ghost predicate Linked(t: Tables) {
    forall id :: id in t.deliveries ==> t.deliveries[id].subscription in t.subscriptions
  }

  predicate Open(s: AttemptStatus) {
    s == QUEUED || s == SENDING
  }

  /** The pause after the n-th attempt failed. */
  function Delay(n: nat): nat
    requires n >= 1
  {
    1000 * Power2(n - 1)
  }

  function LastAttempt(t: Tables, id: Uuid): AttemptKey
    requires id in t.deliveries
  {
    AttemptKey(id, t.deliveries[id].attemptCount)
  }

  // ---------------------------------------------------------------- claiming

  /** The rows the claim query selects at time `now`. */
  predicate Due(d: Delivery, now: int) {
    || (d.status == DeliveryStatus.PENDING && d.availableAt <= now)
    || (d.status == PROCESSING && d.lease.Some? && d.lease.value.until <= now)
  }

  function CloseOpen(attempts: map<AttemptKey, AttemptStatus>, id: Uuid, s: AttemptStatus): map<AttemptKey, AttemptStatus> {
    map k | k in attempts :: if k.delivery == id && Open(attempts[k]) then s else attempts[k]
  }

  /** Abandons what the last lease left open, then gives up or leases the next attempt. */
  function ClaimRow(t: Tables, id: Uuid, token: Uuid, now: int): Tables
    requires Linked(t) && id in t.deliveries
  {
    var d := t.deliveries[id];
    var attempts := CloseOpen(t.attempts, id, ABANDONED);
    if !t.subscriptions[d.subscription] || d.attemptCount >= MAX_ATTEMPTS then
      var s := if t.subscriptions[d.subscription] then DeliveryStatus.FAILED else DeliveryStatus.CANCELLED;
      t.(deliveries := t.deliveries[id := d.(status := s, lease := None)], attempts := attempts)
    else
      var n := d.attemptCount + 1;
      t.(deliveries := t.deliveries[id := d.(status := PROCESSING, attemptCount := n, lease := Some(Lease(token, now + LEASE)))],
         attempts := attempts[AttemptKey(id, n) := QUEUED])
  }

  /** The claim leads to an attempt. */
  predicate Leases(t: Tables, id: Uuid)
    requires id in t.deliveries && t.deliveries[id].subscription in t.subscriptions
  {
    t.subscriptions[t.deliveries[id].subscription] && t.deliveries[id].attemptCount < MAX_ATTEMPTS
  }

  // ---------------------------------------------------------------- the lease

  /** The job's lease is the current one and has not expired. */
  predicate HoldsLease(t: Tables, job: Job, now: int) {
    && job.delivery in t.deliveries
    && t.deliveries[job.delivery].status == PROCESSING
    && t.deliveries[job.delivery].lease.Some?
    && t.deliveries[job.delivery].lease.value.token == job.token
    && t.deliveries[job.delivery].lease.value.until > now
  }

  /** The current attempt of the job's delivery is in state `s`. */
  predicate AttemptIs(t: Tables, job: Job, s: AttemptStatus)
    requires job.delivery in t.deliveries
  {
    var k := LastAttempt(t, job.delivery);
    k in t.attempts && t.attempts[k] == s
  }

  function SetLast(t: Tables, id: Uuid, expected: AttemptStatus, s: AttemptStatus): map<AttemptKey, AttemptStatus>
    requires id in t.deliveries
  {
    var k := LastAttempt(t, id);
    if k in t.attempts && t.attempts[k] == expected then t.attempts[k := s] else t.attempts
  }

  // ---------------------------------------------------------------- starting

  predicate Starts(t: Tables, job: Job, now: int)
    requires Linked(t)
  {
    HoldsLease(t, job, now) && t.subscriptions[t.deliveries[job.delivery].subscription] && AttemptIs(t, job, QUEUED)
  }

  function Start(t: Tables, job: Job, now: int): (u: Tables)
    requires Linked(t)
    ensures Linked(u)
  {
    if !HoldsLease(t, job, now) then t
    else
      var d := t.deliveries[job.delivery];
      if !t.subscriptions[d.subscription] then
        t.(deliveries := t.deliveries[job.delivery := d.(status := DeliveryStatus.CANCELLED, lease := None)],
           attempts := SetLast(t, job.delivery, QUEUED, AttemptStatus.CANCELLED))
      else t.(attempts := SetLast(t, job.delivery, QUEUED, SENDING))
  }

  // ---------------------------------------------------------------- finishing

  predicate Finishes(t: Tables, job: Job, expected: AttemptStatus, now: int) {
    HoldsLease(t, job, now) && AttemptIs(t, job, expected)
  }

  /** Another attempt follows. */
  predicate Retries(t: Tables, job: Job, o: Outcome)
    requires Linked(t) && job.delivery in t.deliveries
  {
    var d := t.deliveries[job.delivery];
    t.subscriptions[d.subscription] && o.retry && d.attemptCount < MAX_ATTEMPTS
  }

  /** `now` is when the lease was checked, `later` when the pause is computed. */
  function Finish(t: Tables, job: Job, o: Outcome, expected: AttemptStatus, now: int, later: int): Tables
    requires Linked(t)
  {
    if !Finishes(t, job, expected, now) then t
    else
      var d := t.deliveries[job.delivery];
      var cancelled := !t.subscriptions[d.subscription];
      var retry := Retries(t, job, o);
      var attempt := if cancelled then AttemptStatus.CANCELLED else if o.success then AttemptStatus.SUCCEEDED else AttemptStatus.FAILED;
      var status := if cancelled then DeliveryStatus.CANCELLED else if o.success then DELIVERED else if retry then DeliveryStatus.PENDING else DeliveryStatus.FAILED;
      var available := if retry && d.attemptCount >= 1 then later + Delay(d.attemptCount) else d.availableAt;
      t.(deliveries := t.deliveries[job.delivery := d.(status := status, lease := None, availableAt := available)],
         attempts := SetLast(t, job.delivery, expected, attempt))
  }

  // ---------------------------------------------------------------- subscriptions

  /** Switches the subscription off and cancels everything unfinished. */
  function Disable(t: Tables, sub: Uuid): Tables {
    Tables(
      t.subscriptions[sub := false],
      map id | id in t.deliveries :: if t.deliveries[id].subscription == sub && t.deliveries[id].status in {DeliveryStatus.PENDING, PROCESSING}
                                     then t.deliveries[id].(status := DeliveryStatus.CANCELLED, lease := None) else t.deliveries[id],
      map k | k in t.attempts :: if k.delivery in t.deliveries && t.deliveries[k.delivery].subscription == sub && Open(t.attempts[k])
                                 then AttemptStatus.CANCELLED else t.attempts[k])
  }

  /** The delivery an outbox event fans out to a subscription. The event's transaction may have
      seen the subscription enabled before it was disabled. */
  function FanOut(t: Tables, id: Uuid, sub: Uuid, now: int): Tables {
    t.(deliveries := t.deliveries[id := Delivery(sub, DeliveryStatus.PENDING, 0, now, None)])
  }

  // ---------------------------------------------------------------- the transport's answer

  datatype Answer = Responded(httpStatus: int) | Failed(unsafeEndpoint: bool)

  /** Success is 2xx; timeouts, throttling and server errors are retried, as are failures to
      reach the endpoint unless the endpoint is refused as unsafe. */
  function OutcomeOf(a: Answer): (o: Outcome)
    ensures !(o.success && o.retry)
  {
    match a
    case Responded(s) => Outcome(200 <= s < 300, s == 408 || s == 429 || s >= 500)
    case Failed(unsafeEndpoint) => Outcome(false, !unsafeEndpoint)
  }
}
