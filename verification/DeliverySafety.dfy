/** The invariant of webhook deliveries over all runs of claims, duplicate and stale jobs,
    disabling, fan-out and time; and its consequences: fencing, bounded attempts and sends,
    absorbing ends, and bounded work. */
module DeliverySafety {
  import opened Domain
  import opened Deliveries

  /** `issued` maps every token ever handed to the queue to its attempt; `sent` lists the
      attempts handed to the transport. */
  datatype World = World(tables: Tables, issued: map<Uuid, AttemptKey>, sent: seq<AttemptKey>, clock: int)

  datatype Event =
    | Claimed(id: Uuid, token: Uuid, until: int)
    | Started(job: Job)
    | Finished(job: Job, outcome: Outcome, expected: AttemptStatus, later: int)
    | Disabled(subscription: Uuid)
    | Subscribed(subscription: Uuid)
    | FannedOut(id: Uuid, subscription: Uuid)
    | Ticked(now: int)

  /** A queue may run any job any number of times, and the same job on several workers. */
  ghost predicate Enabled(w: World, e: Event) {
    match e
    case Claimed(id, token, until) =>
      id in w.tables.deliveries && Due(w.tables.deliveries[id], w.clock) && token !in w.issued && until >= w.clock
    case Started(job) => true
    case Finished(job, o, expected, later) => expected in {QUEUED, SENDING} && later >= w.clock && !(o.success && o.retry)
    case Disabled(sub) => sub in w.tables.subscriptions
    case Subscribed(sub) => sub !in w.tables.subscriptions
    case FannedOut(id, sub) => id !in w.tables.deliveries && sub in w.tables.subscriptions
    case Ticked(now) => now >= w.clock
  }

  ghost function Next(w: World, e: Event): World
    requires Linked(w.tables) && Enabled(w, e)
  {
    var t := w.tables;
    match e
    case Claimed(id, token, until) =>
      w.(tables := ClaimRow(t, id, token, until),
         issued := if Leases(t, id) then w.issued[token := AttemptKey(id, t.deliveries[id].attemptCount + 1)] else w.issued)
    case Started(job) =>
      w.(tables := Start(t, job, w.clock), sent := if Starts(t, job, w.clock) then w.sent + [LastAttempt(t, job.delivery)] else w.sent)
    case Finished(job, o, expected, later) => w.(tables := Finish(t, job, o, expected, w.clock, later))
    case Disabled(sub) => w.(tables := Disable(t, sub))
    case Subscribed(sub) => w.(tables := t.(subscriptions := t.subscriptions[sub := true]))
    case FannedOut(id, sub) => w.(tables := FanOut(t, id, sub, w.clock))
    case Ticked(now) => w.(clock := now)
  }

  // ---------------------------------------------------------------- the invariant

  /** Attempts are numbered 1..attemptCount; only the last can be open, and it is open exactly
      while the delivery is leased; only the last can have succeeded, exactly when delivered. */
  ghost predicate DeliveryIntact(t: Tables, id: Uuid)
    requires id in t.deliveries
  {
    var d := t.deliveries[id];
    && d.attemptCount <= MAX_ATTEMPTS
    && (d.status == DeliveryStatus.PENDING ==> d.attemptCount < MAX_ATTEMPTS)
    && (d.status in {PROCESSING, DELIVERED} ==> d.attemptCount >= 1)
    && (d.status == PROCESSING <==> d.lease.Some?)
    && (d.status == PROCESSING ==> d.subscription in t.subscriptions && t.subscriptions[d.subscription])
    && (forall n: nat :: AttemptKey(id, n) in t.attempts <==> 1 <= n <= d.attemptCount)
    && (forall n: nat :: AttemptKey(id, n) in t.attempts ==> AttemptIntact(d, n, t.attempts[AttemptKey(id, n)]))
  }

  ghost predicate AttemptIntact(d: Delivery, n: nat, s: AttemptStatus) {
    && (Open(s) <==> (d.status == PROCESSING && n == d.attemptCount))
    && (s == AttemptStatus.SUCCEEDED <==> (d.status == DELIVERED && n == d.attemptCount))
  }

  ghost predicate TablesIntact(t: Tables) {
    && Linked(t)
    && (forall k :: k in t.attempts ==> k.delivery in t.deliveries)
    && (forall id :: id in t.deliveries ==> DeliveryIntact(t, id))
  }

  /** Tokens and attempts correspond one to one, and a lease carries its attempt's token. */
  ghost predicate TokensIntact(t: Tables, issued: map<Uuid, AttemptKey>) {
    && (forall x, y :: x in issued && y in issued && issued[x] == issued[y] ==> x == y)
    && (forall x :: x in issued ==> issued[x] in t.attempts)
    && (forall k :: k in t.attempts ==> HasToken(issued, k))
    && (forall id :: id in t.deliveries && t.deliveries[id].lease.Some? ==>
          (t.deliveries[id].lease.value.token in issued && issued[t.deliveries[id].lease.value.token] == LastAttempt(t, id)))
  }

  ghost predicate HasToken(issued: map<Uuid, AttemptKey>, k: AttemptKey) {
    exists x :: x in issued && issued[x] == k
  }

  /** Each attempt was sent at most once, and not while still queued. */
  ghost predicate SendsIntact(t: Tables, sent: seq<AttemptKey>) {
    && (forall i, j :: 0 <= i < j < |sent| ==> sent[i] != sent[j])
    && (forall i :: 0 <= i < |sent| ==> sent[i] in t.attempts && t.attempts[sent[i]] != QUEUED)
  }

  ghost predicate Intact(w: World) {
    TablesIntact(w.tables) && TokensIntact(w.tables, w.issued) && SendsIntact(w.tables, w.sent)
  }

  // ---------------------------------------------------------------- a delivery and its attempts

  /** Nothing about the delivery changed. */
  ghost predicate SameDelivery(t: Tables, u: Tables, id: Uuid) {
    && (id in t.deliveries <==> id in u.deliveries)
    && (id in t.deliveries ==> t.deliveries[id] == u.deliveries[id])
    && (forall n: nat :: AttemptKey(id, n) in t.attempts <==> AttemptKey(id, n) in u.attempts)
    && (forall n: nat :: AttemptKey(id, n) in t.attempts ==> t.attempts[AttemptKey(id, n)] == u.attempts[AttemptKey(id, n)])
  }

  ghost predicate FlagsKept(t: Tables, u: Tables) {
    forall s :: s in t.subscriptions ==> s in u.subscriptions && u.subscriptions[s] == t.subscriptions[s]
  }

  lemma SameStaysIntact(t: Tables, u: Tables, id: Uuid)
    requires id in t.deliveries && DeliveryIntact(t, id) && SameDelivery(t, u, id) && FlagsKept(t, u)
    ensures DeliveryIntact(u, id)
  {
    forall n: nat | AttemptKey(id, n) in u.attempts ensures AttemptIntact(u.deliveries[id], n, u.attempts[AttemptKey(id, n)]) {
      assert AttemptIntact(t.deliveries[id], n, t.attempts[AttemptKey(id, n)]);
    }
  }

  /** Only delivery `id` and its attempts change. */
  ghost predicate OnlyTouches(t: Tables, u: Tables, id: Uuid) {
    && u.subscriptions == t.subscriptions
    && u.deliveries.Keys == t.deliveries.Keys
    && (forall x :: x in t.deliveries ==> u.deliveries[x].subscription == t.deliveries[x].subscription)
    && (forall x :: x != id ==> SameDelivery(t, u, x))
    && (forall k :: k in u.attempts && k !in t.attempts ==> k.delivery == id)
  }

  lemma TouchingOneKeepsIntact(t: Tables, u: Tables, id: Uuid)
    requires TablesIntact(t) && id in t.deliveries && OnlyTouches(t, u, id) && DeliveryIntact(u, id)
    ensures TablesIntact(u)
  {
    forall x | x in u.deliveries ensures DeliveryIntact(u, x) {
      if x != id { SameStaysIntact(t, u, x); }
    }
  }

  // ---------------------------------------------------------------- the transactions

  lemma ClaimTouchesOne(t: Tables, id: Uuid, token: Uuid, now: int)
    requires TablesIntact(t) && id in t.deliveries
    ensures OnlyTouches(t, ClaimRow(t, id, token, now), id)
  {}

  lemma ClaimedIsIntact(t: Tables, id: Uuid, token: Uuid, now: int)
    requires TablesIntact(t) && id in t.deliveries && t.deliveries[id].status in {DeliveryStatus.PENDING, PROCESSING}
    ensures DeliveryIntact(ClaimRow(t, id, token, now), id)
  {
    var u := ClaimRow(t, id, token, now);
    assert DeliveryIntact(t, id);
    forall n: nat | AttemptKey(id, n) in u.attempts ensures AttemptIntact(u.deliveries[id], n, u.attempts[AttemptKey(id, n)]) {
      if AttemptKey(id, n) in t.attempts { assert AttemptIntact(t.deliveries[id], n, t.attempts[AttemptKey(id, n)]); }
    }
  }

  lemma StartTouchesOne(t: Tables, job: Job, now: int)
    requires TablesIntact(t) && HoldsLease(t, job, now)
    ensures OnlyTouches(t, Start(t, job, now), job.delivery)
    ensures DeliveryIntact(Start(t, job, now), job.delivery)
  {
    var id, u := job.delivery, Start(t, job, now);
    assert DeliveryIntact(t, id);
    forall n: nat | AttemptKey(id, n) in u.attempts ensures AttemptIntact(u.deliveries[id], n, u.attempts[AttemptKey(id, n)]) {
      assert AttemptIntact(t.deliveries[id], n, t.attempts[AttemptKey(id, n)]);
    }
  }

  lemma FinishTouchesOne(t: Tables, job: Job, o: Outcome, expected: AttemptStatus, now: int, later: int)
    requires TablesIntact(t) && Finishes(t, job, expected, now) && expected in {QUEUED, SENDING}
    ensures OnlyTouches(t, Finish(t, job, o, expected, now, later), job.delivery)
    ensures DeliveryIntact(Finish(t, job, o, expected, now, later), job.delivery)
  {
    var id, u := job.delivery, Finish(t, job, o, expected, now, later);
    assert DeliveryIntact(t, id);
    forall n: nat | AttemptKey(id, n) in u.attempts ensures AttemptIntact(u.deliveries[id], n, u.attempts[AttemptKey(id, n)]) {
      assert AttemptIntact(t.deliveries[id], n, t.attempts[AttemptKey(id, n)]);
    }
  }

  lemma DisableKeepsIntact(t: Tables, sub: Uuid)
    requires TablesIntact(t)
    ensures TablesIntact(Disable(t, sub))
  {
    var u := Disable(t, sub);
    forall id | id in u.deliveries ensures DeliveryIntact(u, id) {
      assert DeliveryIntact(t, id);
      forall n: nat | AttemptKey(id, n) in u.attempts ensures AttemptIntact(u.deliveries[id], n, u.attempts[AttemptKey(id, n)]) {
        assert AttemptIntact(t.deliveries[id], n, t.attempts[AttemptKey(id, n)]);
      }
    }
  }

  lemma FanOutKeepsIntact(t: Tables, id: Uuid, sub: Uuid, now: int)
    requires TablesIntact(t) && id !in t.deliveries && sub in t.subscriptions
    ensures TablesIntact(FanOut(t, id, sub, now))
  {
    var u := FanOut(t, id, sub, now);
    forall n: nat ensures AttemptKey(id, n) !in t.attempts {}
    forall x | x in u.deliveries ensures DeliveryIntact(u, x) {
      if x != id { SameStaysIntact(t, u, x); }
    }
  }

  lemma SubscribeKeepsIntact(t: Tables, sub: Uuid)
    requires TablesIntact(t) && sub !in t.subscriptions
    ensures TablesIntact(t.(subscriptions := t.subscriptions[sub := true]))
  {
    var u := t.(subscriptions := t.subscriptions[sub := true]);
    forall x | x in u.deliveries ensures DeliveryIntact(u, x) { SameStaysIntact(t, u, x); }
  }

  /** What a step does to the attempts table: no attempt leaves, an attempt that is no longer
      queued is never queued again. */
  ghost predicate AttemptsAdvance(t: Tables, u: Tables) {
    forall k :: k in t.attempts ==> k in u.attempts && (t.attempts[k] != QUEUED ==> u.attempts[k] != QUEUED)
  }

  lemma StepKeepsTables(w: World, e: Event)
    requires TablesIntact(w.tables) && Enabled(w, e)
    ensures TablesIntact(Next(w, e).tables)
  {
    var t := w.tables;
    match e
    case Claimed(id, token, until) =>
      assert DeliveryIntact(t, id);
      ClaimTouchesOne(t, id, token, until);
      ClaimedIsIntact(t, id, token, until);
      TouchingOneKeepsIntact(t, ClaimRow(t, id, token, until), id);
    case Started(job) =>
      if HoldsLease(t, job, w.clock) {
        StartTouchesOne(t, job, w.clock);
        TouchingOneKeepsIntact(t, Start(t, job, w.clock), job.delivery);
      }
    case Finished(job, o, expected, later) =>
      if Finishes(t, job, expected, w.clock) {
        FinishTouchesOne(t, job, o, expected, w.clock, later);
        TouchingOneKeepsIntact(t, Finish(t, job, o, expected, w.clock, later), job.delivery);
      }
    case Disabled(sub) => DisableKeepsIntact(t, sub);
    case Subscribed(sub) => SubscribeKeepsIntact(t, sub);
    case FannedOut(id, sub) => FanOutKeepsIntact(t, id, sub, w.clock);
    case Ticked(_) =>
  }

  lemma StepAdvancesAttempts(w: World, e: Event)
    requires TablesIntact(w.tables) && Enabled(w, e)
    ensures AttemptsAdvance(w.tables, Next(w, e).tables)
  {
    if e.Claimed? { assert DeliveryIntact(w.tables, e.id); }
  }

  // ---------------------------------------------------------------- tokens

  lemma ClaimKeepsTokens(t: Tables, issued: map<Uuid, AttemptKey>, id: Uuid, token: Uuid, now: int)
    requires TablesIntact(t) && TokensIntact(t, issued) && id in t.deliveries && token !in issued && Leases(t, id)
    ensures TokensIntact(ClaimRow(t, id, token, now), issued[token := AttemptKey(id, t.deliveries[id].attemptCount + 1)])
  {
    hide Linked, Open;
    var k := AttemptKey(id, t.deliveries[id].attemptCount + 1);
    var u, more := ClaimRow(t, id, token, now), issued[token := k];
    assert DeliveryIntact(t, id);
    assert k !in t.attempts;
    forall j | j in u.attempts ensures HasToken(more, j) {
      if j == k { assert more[token] == k; }
      else {
        assert HasToken(issued, j);
        var x :| x in issued && issued[x] == j;
        assert more[x] == j;
      }
    }
  }

  /** No attempt is added, and no lease but possibly taken away. */
  ghost predicate NoNewLease(t: Tables, u: Tables) {
    && t.attempts.Keys == u.attempts.Keys
    && (forall id :: id in u.deliveries && u.deliveries[id].lease.Some? ==>
          (id in t.deliveries && t.deliveries[id].lease == u.deliveries[id].lease && LastAttempt(t, id) == LastAttempt(u, id)))
  }

  lemma TokensStay(t: Tables, u: Tables, issued: map<Uuid, AttemptKey>)
    requires TokensIntact(t, issued) && NoNewLease(t, u)
    ensures TokensIntact(u, issued)
  {
    forall k | k in u.attempts ensures HasToken(issued, k) { assert k in t.attempts; }
  }

  lemma OtherStepsLeaseNothing(w: World, e: Event)
    requires Linked(w.tables) && Enabled(w, e) && (e.Claimed? ==> !Leases(w.tables, e.id))
    ensures NoNewLease(w.tables, Next(w, e).tables) && Next(w, e).issued == w.issued
  {}

  lemma StepKeepsTokens(w: World, e: Event)
    requires TablesIntact(w.tables) && TokensIntact(w.tables, w.issued) && Enabled(w, e)
    ensures TokensIntact(Next(w, e).tables, Next(w, e).issued)
  {
    if e.Claimed? && Leases(w.tables, e.id) { ClaimKeepsTokens(w.tables, w.issued, e.id, e.token, e.until); }
    else {
      OtherStepsLeaseNothing(w, e);
      TokensStay(w.tables, Next(w, e).tables, w.issued);
    }
  }

  // ---------------------------------------------------------------- sends

  lemma StepKeepsSends(w: World, e: Event)
    requires TablesIntact(w.tables) && SendsIntact(w.tables, w.sent) && Enabled(w, e)
    ensures SendsIntact(Next(w, e).tables, Next(w, e).sent)
  {
    StepAdvancesAttempts(w, e);
    if e.Started? && Starts(w.tables, e.job, w.clock) {
      var k := LastAttempt(w.tables, e.job.delivery);
      forall i | 0 <= i < |w.sent| ensures w.sent[i] != k { assert w.tables.attempts[w.sent[i]] != QUEUED; }
    }
  }

  /** Every step keeps the invariant. */
  lemma StepKeepsIntact(w: World, e: Event)
    requires Intact(w) && Enabled(w, e)
    ensures Intact(Next(w, e))
  {
    StepKeepsTables(w, e);
    StepKeepsTokens(w, e);
    StepKeepsSends(w, e);
  }
}
