/** The webhook delivery service as it changes its tables, statement by statement, proved against
    the transactions of `Deliveries`. */
module DeliveryService {
  import opened Domain
  import opened Deliveries
  import opened DeliverySafety
  import opened DeliveryRuns
  import opened DeliveryVerdicts

  // ---------------------------------------------------------------- a batch of claims

  predicate Known(t: Tables, rows: seq<Uuid>) {
    forall i :: 0 <= i < |rows| ==> rows[i] in t.deliveries
  }

  /** Claims the first `n` selected rows, one after the other. */
  function ClaimAll(t: Tables, rows: seq<Uuid>, tokens: seq<Uuid>, times: seq<int>, n: nat): (u: Tables)
    requires Linked(t) && Known(t, rows)
    requires n <= |rows| == |tokens| == |times|
    ensures Linked(u) && u.deliveries.Keys == t.deliveries.Keys && u.subscriptions == t.subscriptions
  {
    if n == 0 then t else ClaimRow(ClaimAll(t, rows, tokens, times, n - 1), rows[n - 1], tokens[n - 1], times[n - 1])
  }

  /** The jobs a batch hands to the queue: one for every row that is leased. */
  function JobsOf(t: Tables, rows: seq<Uuid>, tokens: seq<Uuid>, n: nat): seq<Job>
    requires Linked(t) && Known(t, rows)
    requires n <= |rows| == |tokens|
  {
    if n == 0 then []
    else JobsOf(t, rows, tokens, n - 1) + if Leases(t, rows[n - 1]) then [Job(rows[n - 1], tokens[n - 1])] else []
  }

  function Selected(t: Tables, rows: seq<Uuid>): (s: seq<Delivery>)
    requires Known(t, rows)
    ensures |s| == |rows| && forall i :: 0 <= i < |rows| ==> s[i] == t.deliveries[rows[i]]
  {
    seq(|rows|, i requires 0 <= i < |rows| => t.deliveries[rows[i]])
  }

  predicate Distinct(rows: seq<Uuid>) {
    forall i, j :: 0 <= i < j < |rows| ==> rows[i] != rows[j]
  }

  lemma {:induction false} UnclaimedRowsStay(t: Tables, rows: seq<Uuid>, tokens: seq<Uuid>, times: seq<int>, n: nat, id: Uuid)
    requires Linked(t) && Known(t, rows)
    requires n <= |rows| == |tokens| == |times| && id in t.deliveries && id !in rows[..n]
    ensures SameDelivery(t, ClaimAll(t, rows, tokens, times, n), id)
  {
    if n > 0 {
      assert rows[n - 1] in rows[..n] && rows[..n - 1] <= rows[..n];
      UnclaimedRowsStay(t, rows, tokens, times, n - 1, id);
      OtherRowStays(ClaimAll(t, rows, tokens, times, n - 1), rows[n - 1], tokens[n - 1], times[n - 1], id);
    }
  }

  lemma NextRowIsUnclaimed(t: Tables, rows: seq<Uuid>, tokens: seq<Uuid>, times: seq<int>, i: nat)
    requires Linked(t) && Distinct(rows) && Known(t, rows)
    requires i < |rows| == |tokens| == |times|
    ensures var u := ClaimAll(t, rows, tokens, times, i);
            && rows[i] in u.deliveries && u.deliveries[rows[i]] == t.deliveries[rows[i]]
            && (Leases(u, rows[i]) <==> Leases(t, rows[i]))
  {
    assert rows[i] !in rows[..i];
    UnclaimedRowsStay(t, rows, tokens, times, i, rows[i]);
  }

  /** Job `j` was made for row `i`. */
  ghost predicate MadeFor(rows: seq<Uuid>, tokens: seq<Uuid>, n: nat, j: Job)
    requires n <= |rows| == |tokens|
  {
    exists i :: 0 <= i < n && j == Job(rows[i], tokens[i])
  }

  lemma ClaimedJobIsLive(t: Tables, id: Uuid, token: Uuid, time: int, now: int)
    requires Linked(t) && id in t.deliveries && Leases(t, id) && now < time + LEASE
    ensures Live(ClaimRow(t, id, token, time), Job(id, token), now)
  {}

  lemma LiveJobStaysLive(t: Tables, u: Tables, job: Job, now: int)
    requires Live(t, job, now) && SameDelivery(t, u, job.delivery)
    ensures Live(u, job, now)
  {}

  lemma SameLeases(t: Tables, u: Tables, id: Uuid)
    requires id in t.deliveries && SameDelivery(t, u, id) && u.subscriptions == t.subscriptions
    requires t.deliveries[id].subscription in t.subscriptions
    ensures Leases(u, id) <==> Leases(t, id)
  {}

  lemma {:induction false} EarlierJobs(t: Tables, rows: seq<Uuid>, tokens: seq<Uuid>, n: nat, j: Job)
    requires Linked(t) && Known(t, rows) && n <= |rows| == |tokens|
    ensures j in JobsOf(t, rows, tokens, n) ==> MadeFor(rows, tokens, n, j)
  {
    if n > 0 {
      EarlierJobs(t, rows, tokens, n - 1, j);
      assert j == Job(rows[n - 1], tokens[n - 1]) ==> MadeFor(rows, tokens, n, j);
    }
  }

  /** Every job of a batch is live: it holds the lease of its delivery, whose new attempt is
      queued, until its own lease time. */
  lemma {:induction false} BatchJobsAreLive(t: Tables, rows: seq<Uuid>, tokens: seq<Uuid>, times: seq<int>, n: nat, now: int, j: Job)
    requires Linked(t) && Distinct(rows) && Known(t, rows)
    requires n <= |rows| == |tokens| == |times| && (forall i :: 0 <= i < |times| ==> now < times[i] + LEASE)
    requires j in JobsOf(t, rows, tokens, n)
    ensures Live(ClaimAll(t, rows, tokens, times, n), j, now)
  {
    if n > 0 {
      var u, id := ClaimAll(t, rows, tokens, times, n - 1), rows[n - 1];
      assert id !in rows[..n - 1];
      UnclaimedRowsStay(t, rows, tokens, times, n - 1, id);
      SameLeases(t, u, id);
      if j in JobsOf(t, rows, tokens, n - 1) {
        BatchJobsAreLive(t, rows, tokens, times, n - 1, now, j);
        EarlierJobs(t, rows, tokens, n - 1, j);
        OtherRowStays(u, id, tokens[n - 1], times[n - 1], j.delivery);
        LiveJobStaysLive(u, ClaimRow(u, id, tokens[n - 1], times[n - 1]), j, now);
      } else {
        ClaimedJobIsLive(u, id, tokens[n - 1], times[n - 1], now);
      }
    }
  }

  lemma OtherRowStays(t: Tables, id: Uuid, token: Uuid, time: int, x: Uuid)
    requires Linked(t) && id in t.deliveries && x != id
    ensures SameDelivery(t, ClaimRow(t, id, token, time), x)
  {}

  /** The delivery is claimed as if it were the only row of its batch. */
  ghost predicate ClaimedIn(t: Tables, u: Tables, id: Uuid, token: Uuid, time: int)
    requires Linked(t) && id in t.deliveries
  {
    exists v :: ClaimedAs(t, v, id, token, time) && SameDelivery(v, u, id)
  }

  ghost predicate Waiting(t: Tables, rows: seq<Uuid>)
    requires Known(t, rows)
  {
    forall i :: 0 <= i < |rows| ==> t.deliveries[rows[i]].status in {DeliveryStatus.PENDING, PROCESSING}
  }

  lemma ClaimsAlike(t: Tables, u: Tables, id: Uuid, token: Uuid, time: int)
    requires Linked(t) && Linked(u) && u.subscriptions == t.subscriptions && id in t.deliveries && SameDelivery(t, u, id)
    ensures SameDelivery(ClaimRow(t, id, token, time), ClaimRow(u, id, token, time), id)
  {}

  lemma ClaimedStays(t: Tables, u: Tables, after: Tables, id: Uuid, token: Uuid, time: int)
    requires Linked(t) && id in t.deliveries && ClaimedIn(t, u, id, token, time) && SameDelivery(u, after, id)
    ensures ClaimedIn(t, after, id, token, time)
  {
    var v :| ClaimedAs(t, v, id, token, time) && SameDelivery(v, u, id);
    assert SameDelivery(v, after, id);
  }

  lemma NextIsClaimed(t: Tables, rows: seq<Uuid>, tokens: seq<Uuid>, times: seq<int>, n: nat)
    requires TablesIntact(t) && Distinct(rows) && Known(t, rows) && Waiting(t, rows)
    requires n < |rows| == |tokens| == |times| && TablesIntact(ClaimAll(t, rows, tokens, times, n))
    ensures TablesIntact(ClaimAll(t, rows, tokens, times, n + 1))
    ensures ClaimedIn(t, ClaimAll(t, rows, tokens, times, n + 1), rows[n], tokens[n], times[n])
  {
    var u, id := ClaimAll(t, rows, tokens, times, n), rows[n];
    assert id !in rows[..n];
    UnclaimedRowsStay(t, rows, tokens, times, n, id);
    ClaimVerdict(u, id, tokens[n], times[n]);
    ClaimVerdict(t, id, tokens[n], times[n]);
    ClaimsAlike(t, u, id, tokens[n], times[n]);
  }

  ghost predicate FirstClaimed(t: Tables, u: Tables, rows: seq<Uuid>, tokens: seq<Uuid>, times: seq<int>, n: nat)
    requires Linked(t) && Known(t, rows) && n <= |rows| == |tokens| == |times|
  {
    forall i :: 0 <= i < n ==> ClaimedIn(t, u, rows[i], tokens[i], times[i])
  }

  /** Every selected delivery is claimed, and the batch leaves the tables intact. */
  lemma {:induction false} BatchClaims(t: Tables, rows: seq<Uuid>, tokens: seq<Uuid>, times: seq<int>, n: nat)
    requires Linked(t) && TablesIntact(t) && Distinct(rows) && Known(t, rows) && Waiting(t, rows)
    requires n <= |rows| == |tokens| == |times|
    ensures TablesIntact(ClaimAll(t, rows, tokens, times, n))
    ensures FirstClaimed(t, ClaimAll(t, rows, tokens, times, n), rows, tokens, times, n)
  {
    hide ClaimRow, ClaimedIn, Linked, TablesIntact, Waiting, Distinct, Known;
    if n > 0 {
      BatchClaims(t, rows, tokens, times, n - 1);
      NextIsClaimed(t, rows, tokens, times, n - 1);
      MoreClaimed(t, rows, tokens, times, n - 1);
    }
  }

  lemma MoreClaimed(t: Tables, rows: seq<Uuid>, tokens: seq<Uuid>, times: seq<int>, n: nat)
    requires Linked(t) && Distinct(rows) && Known(t, rows) && n < |rows| == |tokens| == |times|
    requires FirstClaimed(t, ClaimAll(t, rows, tokens, times, n), rows, tokens, times, n)
    requires ClaimedIn(t, ClaimAll(t, rows, tokens, times, n + 1), rows[n], tokens[n], times[n])
    ensures FirstClaimed(t, ClaimAll(t, rows, tokens, times, n + 1), rows, tokens, times, n + 1)
  {
    hide ClaimedIn, ClaimAll, Distinct, Linked;
    forall i | 0 <= i < n ensures ClaimedIn(t, ClaimAll(t, rows, tokens, times, n + 1), rows[i], tokens[i], times[i]) {
      EarlierStaysClaimed(t, rows, tokens, times, n, i);
    }
  }

  lemma EarlierStaysClaimed(t: Tables, rows: seq<Uuid>, tokens: seq<Uuid>, times: seq<int>, n: nat, i: nat)
    requires Linked(t) && Distinct(rows) && Known(t, rows) && i < n < |rows| == |tokens| == |times|
    requires ClaimedIn(t, ClaimAll(t, rows, tokens, times, n), rows[i], tokens[i], times[i])
    ensures ClaimedIn(t, ClaimAll(t, rows, tokens, times, n + 1), rows[i], tokens[i], times[i])
  {
    hide ClaimRow, ClaimedIn, SameDelivery;
    var u := ClaimAll(t, rows, tokens, times, n);
    OtherRowStays(u, rows[n], tokens[n], times[n], rows[i]);
    ClaimedStays(t, u, ClaimAll(t, rows, tokens, times, n + 1), rows[i], tokens[i], times[i]);
  }

  // ---------------------------------------------------------------- the service

  class WebhookDeliveryService {
    var subscriptions: map<Uuid, bool>
    var deliveries: map<Uuid, Delivery>
    var attempts: map<AttemptKey, AttemptStatus>

    ghost function View(): Tables
      reads this
    {
      Tables(subscriptions, deliveries, attempts)
    }

    constructor ()
      ensures View() == Tables(map[], map[], map[]) && TablesIntact(View())
    {
      subscriptions, deliveries, attempts := map[], map[], map[];
    }

    /** `rows` is what the claim query selected and locked, `tokens` the UUIDs drawn and `times`
        the database clock at each lease. */
    method ClaimBatch(rows: seq<Uuid>, tokens: seq<Uuid>, times: seq<int>) returns (jobs: seq<Job>)
      requires Linked(View()) && Distinct(rows) && |rows| <= BATCH && |rows| == |tokens| == |times|
      requires Known(View(), rows)
      modifies this
      ensures View() == ClaimAll(old(View()), rows, tokens, times, |rows|)
      ensures jobs == JobsOf(old(View()), rows, tokens, |rows|)
      ensures TablesIntact(old(View())) && Waiting(old(View()), rows) ==>
                TablesIntact(View()) && FirstClaimed(old(View()), View(), rows, tokens, times, |rows|)
    {
      var before := Tables(subscriptions, deliveries, attempts);
      if TablesIntact(before) && Waiting(before, rows) { BatchClaims(before, rows, tokens, times, |rows|); }
      hide TablesIntact, FirstClaimed, Waiting;
      jobs := [];
      var selected := Selected(before, rows);
      var i := 0;
      while i < |rows|
        invariant 0 <= i <= |rows|
        invariant View() == ClaimAll(before, rows, tokens, times, i)
        invariant jobs == JobsOf(before, rows, tokens, i)
      {
        jobs := ClaimNext(before, rows, tokens, times, selected, i, jobs);
        i := i + 1;
      }
    }

    /** One round of the claim loop. */
    method ClaimNext(ghost before: Tables, rows: seq<Uuid>, tokens: seq<Uuid>, times: seq<int>, selected: seq<Delivery>, i: nat, jobs: seq<Job>)
      returns (more: seq<Job>)
      requires Linked(before) && Distinct(rows) && Known(before, rows) && i < |rows| == |tokens| == |times|
      requires selected == Selected(before, rows)
      requires View() == ClaimAll(before, rows, tokens, times, i) && jobs == JobsOf(before, rows, tokens, i)
      modifies this
      ensures View() == ClaimAll(before, rows, tokens, times, i + 1) && more == JobsOf(before, rows, tokens, i + 1)
    {
      NextRowIsUnclaimed(before, rows, tokens, times, i);
      var leased := Claim(rows[i], selected[i], tokens[i], times[i]);
      more := if leased then jobs + [Job(rows[i], tokens[i])] else jobs;
    }

    /** The writes of one round; `row` is the row as the batch selected it. */
    method Claim(id: Uuid, row: Delivery, token: Uuid, time: int) returns (leased: bool)
      requires Linked(View()) && id in deliveries && row == deliveries[id]
      modifies this
      ensures View() == ClaimRow(old(View()), id, token, time)
      ensures leased <==> Leases(old(View()), id)
      ensures TablesIntact(old(View())) && row.status in {DeliveryStatus.PENDING, PROCESSING} ==> ClaimedAs(old(View()), View(), id, token, time)
    {
      if TablesIntact(View()) && row.status in {DeliveryStatus.PENDING, PROCESSING} { ClaimVerdict(View(), id, token, time); }
      hide TablesIntact, ClaimedAs;
      attempts := map k | k in attempts :: if k.delivery == id && Open(attempts[k]) then ABANDONED else attempts[k];
      var enabled := subscriptions[row.subscription];
      if !enabled || row.attemptCount >= MAX_ATTEMPTS {
        deliveries := deliveries[id := deliveries[id].(status := if enabled then DeliveryStatus.FAILED else DeliveryStatus.CANCELLED, lease := None)];
        return false;
      }
      deliveries := deliveries[id := deliveries[id].(status := PROCESSING, attemptCount := deliveries[id].attemptCount + 1,
                                                     lease := Some(Lease(token, time + LEASE)))];
      attempts := attempts[AttemptKey(id, row.attemptCount + 1) := QUEUED];
      return true;
    }

    /** Selects the row under its lease, and checks the clock once more when it has the lock. */
    method Locked(job: Job, selectedAt: int, lockedAt: int) returns (row: Option<Delivery>)
      requires selectedAt <= lockedAt
      ensures row == if HoldsLease(View(), job, lockedAt) then Some(deliveries[job.delivery]) else None
    {
      if job.delivery !in deliveries { return None; }
      var d := deliveries[job.delivery];
      if d.status != PROCESSING || d.lease.None? || d.lease.value.token != job.token || d.lease.value.until <= selectedAt { return None; }
      if d.lease.value.until <= lockedAt { return None; }
      return Some(d);
    }

    /** Sets the current attempt if it is in the expected state, and says whether it was. */
    method UpdateAttempt(id: Uuid, expected: AttemptStatus, status: AttemptStatus) returns (changed: bool)
      requires id in deliveries
      modifies this`attempts
      ensures attempts == SetLast(old(View()), id, expected, status)
      ensures changed <==> (LastAttempt(old(View()), id) in old(attempts) && old(attempts)[LastAttempt(old(View()), id)] == expected)
    {
      var k := AttemptKey(id, deliveries[id].attemptCount);
      changed := k in attempts && attempts[k] == expected;
      if changed { attempts := attempts[k := status]; }
    }

    method Start(job: Job, selectedAt: int, lockedAt: int) returns (started: bool)
      requires Linked(View()) && selectedAt <= lockedAt
      modifies this
      ensures View() == Deliveries.Start(old(View()), job, lockedAt)
      ensures started <==> Starts(old(View()), job, lockedAt)
      ensures TablesIntact(old(View())) ==>
                if Live(old(View()), job, lockedAt) then started && SendsNow(old(View()), View(), job.delivery)
                else !started && View() == old(View())
    {
      if TablesIntact(View()) { StartVerdict(View(), job, lockedAt); }
      var row := Locked(job, selectedAt, lockedAt);
      if row.None? { return false; }
      if !subscriptions[row.value.subscription] {
        var _ := UpdateAttempt(job.delivery, QUEUED, AttemptStatus.CANCELLED);
        deliveries := deliveries[job.delivery := row.value.(status := DeliveryStatus.CANCELLED, lease := None)];
        return false;
      }
      started := UpdateAttempt(job.delivery, QUEUED, SENDING);
    }

    method Finish(job: Job, outcome: Outcome, expected: AttemptStatus, selectedAt: int, lockedAt: int, clock: int)
      requires Linked(View()) && selectedAt <= lockedAt
      modifies this
      ensures View() == Deliveries.Finish(old(View()), job, outcome, expected, lockedAt, clock)
      ensures TablesIntact(old(View())) && expected in {QUEUED, SENDING} && !(outcome.success && outcome.retry) ==>
                if !Finishes(old(View()), job, expected, lockedAt) then View() == old(View())
                else if outcome.success
                then EndsAs(old(View()), View(), job.delivery, DELIVERED, AttemptStatus.SUCCEEDED, old(View()).deliveries[job.delivery].availableAt)
                else FailsAs(old(View()), View(), job.delivery, outcome.retry, clock)
    {
      if TablesIntact(View()) && expected in {QUEUED, SENDING} && !(outcome.success && outcome.retry) {
        FinishVerdict(View(), job, outcome, expected, lockedAt, clock);
      }
      hide TablesIntact, EndsAs, FailsAs, Linked, Delay;
      var row := Locked(job, selectedAt, lockedAt);
      if row.None? { return; }
      var d := row.value;
      var cancelled := !subscriptions[d.subscription];
      var retry := !cancelled && outcome.retry && d.attemptCount < MAX_ATTEMPTS;
      var changed := UpdateAttempt(job.delivery, expected,
                                   if cancelled then AttemptStatus.CANCELLED else if outcome.success then AttemptStatus.SUCCEEDED else AttemptStatus.FAILED);
      if !changed { return; }
      deliveries := deliveries[job.delivery := d.(
        status := if cancelled then DeliveryStatus.CANCELLED else if outcome.success then DELIVERED else if retry then DeliveryStatus.PENDING else DeliveryStatus.FAILED,
        lease := None,
        availableAt := if retry && d.attemptCount >= 1 then clock + Delay(d.attemptCount) else d.availableAt)];
    }

    /** Start, sign, send, finish. Undecryptable secrets end the delivery. The times are the
        clock readings of the two transactions and of the pause. */
    method Execute(job: Job, signable: bool, answer: Answer, t1: int, t2: int, t3: int) returns (sent: bool)
      requires Linked(View()) && t1 <= t2 <= t3
      modifies this
      ensures sent <==> Starts(old(View()), job, t1) && signable
      ensures var outcome := if signable then OutcomeOf(answer) else Outcome(false, false);
              var begun := Deliveries.Start(old(View()), job, t1);
              View() == if Starts(old(View()), job, t1)
                        then Deliveries.Finish(begun, job, outcome, SENDING, t2, t3) else begun
      ensures TablesIntact(old(View())) ==>
                TablesIntact(View()) && Executed(old(View()), View(), job, signable, answer, t1, t2, t3)
                && (sent <==> Live(old(View()), job, t1) && signable)
    {
      if TablesIntact(View()) { ExecutionVerdict(View(), job, signable, answer, t1, t2, t3); }
      hide TablesIntact, Executed, EndsAs, FailsAs, SendsNow;
      var started := Start(job, t1, t1);
      if !started { return false; }
      if !signable {
        Finish(job, Outcome(false, false), SENDING, t2, t2, t3);
        return false;
      }
      sent := true;
      Finish(job, OutcomeOf(answer), SENDING, t2, t2, t3);
    }

    /** The queue refused the job. Only a live job whose attempt is still queued is released, to
        wait for its next attempt or, after the fifth, as failed; an attempt that is being sent never
        is. */
    method PublicationFailed(job: Job, selectedAt: int, lockedAt: int, clock: int)
      requires TablesIntact(View()) && selectedAt <= lockedAt
      modifies this
      ensures TablesIntact(View()) && subscriptions == old(subscriptions) && Released(old(View()), View(), job, lockedAt, clock)
    {
      ghost var before := View();
      Finish(job, Outcome(false, true), QUEUED, selectedAt, lockedAt, clock);
      ReleasingIsSafe(before, job, lockedAt, clock);
    }

    /** Switches the subscription off: nothing of it is left to do or to send, what had ended stays
        as it ended, and other subscriptions do not notice. */
    method Disable(sub: Uuid) returns (found: bool)
      requires TablesIntact(View())
      modifies this
      ensures found <==> sub in old(subscriptions)
      ensures if found then SwitchedOff(old(View()), View(), sub) && TablesIntact(View()) else View() == old(View())
    {
      if sub !in subscriptions { return false; }
      DisabledIsQuiet(View(), sub);
      DisableKeepsIntact(View(), sub);
      hide TablesIntact, SwitchedOff, Deliveries.Disable;
      SwitchOff(sub);
      return true;
    }

    /** The three updates of the transaction. */
    method SwitchOff(sub: Uuid)
      modifies this
      ensures View() == Deliveries.Disable(old(View()), sub)
    {
      subscriptions := subscriptions[sub := false];
      deliveries := map id | id in deliveries :: if deliveries[id].subscription == sub && deliveries[id].status in {DeliveryStatus.PENDING, PROCESSING}
                                                 then deliveries[id].(status := DeliveryStatus.CANCELLED, lease := None) else deliveries[id];
      attempts := map k | k in attempts :: if k.delivery in deliveries && deliveries[k.delivery].subscription == sub && Open(attempts[k])
                                           then AttemptStatus.CANCELLED else attempts[k];
    }
  }

  // ---------------------------------------------------------------- what a caller learns

  /** A job the queue refused changes its delivery exactly when its lease is live and its attempt
      queued: the attempt is spent, and another waits for its pause unless it was the fifth. */
  ghost predicate Released(t: Tables, u: Tables, job: Job, now: int, clock: int) {
    && (u != t <==> Live(t, job, now))
    && (Live(t, job, now) ==> FailsAs(t, u, job.delivery, true, clock))
    && (job.delivery in t.deliveries && AttemptIs(t, job, SENDING) ==> u == t)
  }

  lemma ReleasingIsSafe(t: Tables, job: Job, now: int, clock: int)
    requires TablesIntact(t)
    ensures var u := Deliveries.Finish(t, job, Outcome(false, true), QUEUED, now, clock);
            TablesIntact(u) && u.subscriptions == t.subscriptions && Released(t, u, job, now, clock)
  {
    FinishVerdict(t, job, Outcome(false, true), QUEUED, now, clock);
  }

  /** Every delivery of `sub` has ended and has no open attempt; those that had ended before, and
      all deliveries of other subscriptions, are untouched with their attempts. */
  ghost predicate SwitchedOff(t: Tables, u: Tables, sub: Uuid) {
    && u.subscriptions == t.subscriptions[sub := false] && u.deliveries.Keys == t.deliveries.Keys
    && (forall id :: id in t.deliveries ==>
          if t.deliveries[id].subscription == sub && !Final(t.deliveries[id].status)
          then u.deliveries[id].status == DeliveryStatus.CANCELLED && NothingOpen(u, id)
          else SameDelivery(t, u, id))
  }

  ghost predicate NothingOpen(t: Tables, id: Uuid) {
    forall n: nat :: AttemptKey(id, n) in t.attempts ==> !Open(t.attempts[AttemptKey(id, n)])
  }

  lemma DisabledIsQuiet(t: Tables, sub: Uuid)
    requires TablesIntact(t)
    ensures SwitchedOff(t, Deliveries.Disable(t, sub), sub)
  {
    hide Linked, DeliveryIntact;
    var u := Deliveries.Disable(t, sub);
    forall id | id in t.deliveries && Final(t.deliveries[id].status) ensures SameDelivery(t, u, id) {
      EndedHasNothingOpen(t, id);
    }
  }

  lemma EndedHasNothingOpen(t: Tables, id: Uuid)
    requires id in t.deliveries && DeliveryIntact(t, id) && Final(t.deliveries[id].status)
    ensures NothingOpen(t, id)
  {
    forall n: nat | AttemptKey(id, n) in t.attempts ensures !Open(t.attempts[AttemptKey(id, n)]) {
      assert AttemptIntact(t.deliveries[id], n, t.attempts[AttemptKey(id, n)]);
    }
  }
}
