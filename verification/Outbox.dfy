/** Outbox publication by any number of publishers that hold no lease: rows, transactions and
    the table CHECK. Times are milliseconds. */
module Outbox {
  import opened Domain

  const STALE := 300_000
  const BATCH := 25

  datatype OutboxStatus = PENDING | PROCESSING | PUBLISHED

  datatype Row = Row(status: OutboxStatus, attempts: nat, availableAt: int, lockedAt: Option<int>, publishedAt: Option<int>)

  /** The table's CHECK: a statement that would break it fails and changes nothing. */
  predicate StateCheck(r: Row) {
    match r.status
    case PENDING => r.lockedAt.None? && r.publishedAt.None?
    case PROCESSING => r.lockedAt.Some? && r.publishedAt.None?
    case PUBLISHED => r.lockedAt.None? && r.publishedAt.Some?
  }

  function Inserted(now: int): Row {
    Row(OutboxStatus.PENDING, 0, now, None, None)
  }

  /** The rows the claim selects. */
  predicate Due(r: Row, now: int) {
    || (r.status == OutboxStatus.PENDING && r.availableAt <= now)
    || (r.status == PROCESSING && r.lockedAt.Some? && r.lockedAt.value < now - STALE)
  }

  function Claimed(r: Row, now: int): Row {
    r.(status := PROCESSING, lockedAt := Some(now))
  }

  function MarkedPublished(r: Row, now: int): Row {
    r.(status := PUBLISHED, lockedAt := None, publishedAt := Some(now))
  }

  function Min(a: int, b: int): int {
    if a < b then a else b
  }

  /** `attempts` is what the publisher read when it claimed the row. */
  function Backoff(attempts: nat): int {
    Min(Power2(if attempts < 6 then attempts else 6) * 1000, 60_000)
  }

  function Released(r: Row, attempts: nat, now: int): Row {
    r.(status := OutboxStatus.PENDING, attempts := r.attempts + 1, availableAt := now + Backoff(attempts), lockedAt := None)
  }

  /** An update as the CHECK lets it through. */
  function Checked(r: Row, updated: Row): Row {
    if StateCheck(updated) then updated else r
  }

  /** The pause doubles with every attempt read, starting at a second and capped at a minute: that
      the exponent stops at 6 loses nothing. It never gets shorter. */
  lemma Backoffs(attempts: nat, more: nat)
    requires attempts <= more
    ensures Backoff(attempts) == Min(1000 * Power2(attempts), 60_000)
    ensures 1000 <= Backoff(attempts) <= Backoff(more) <= 60_000
  {
    PowersGrow(attempts, more);
    PowersGrow(0, attempts);
    if attempts >= 6 { PowersGrow(6, attempts); }
    if more >= 6 { PowersGrow(6, more); }
    assert Power2(6) == 64;
  }

  lemma {:induction false} PowersGrow(m: nat, n: nat)
    requires m <= n
    ensures Power2(m) <= Power2(n)
  {
    if m < n { PowersGrow(m, n - 1); }
  }

  /** A release spends one attempt and holds the row back for the pause, no longer and no less; a claim
      holds it for five minutes; a published row is never claimed. */
  lemma WhenRowsAreDue(r: Row, attempts: nat, now: int, later: int)
    ensures var s := Released(r, attempts, now);
            && s.status == OutboxStatus.PENDING && s.attempts == r.attempts + 1 && s.lockedAt == None && s.publishedAt == r.publishedAt
            && (Due(s, later) <==> later >= now + Min(1000 * Power2(attempts), 60_000))
    ensures var s := Claimed(r, now);
            s.status == PROCESSING && s.attempts == r.attempts && s.publishedAt == r.publishedAt && (Due(s, later) <==> later > now + 300_000)
    ensures var s := MarkedPublished(r, now);
            s.status == PUBLISHED && s.attempts == r.attempts && s.publishedAt == Some(now) && StateCheck(s) && !Due(s, later)
  {
    Backoffs(attempts, attempts);
  }

  /** The CHECK is what stops a stale publisher: releasing a row is rejected exactly when the
      row is published already, since a release does not clear `publishedAt`. */
  lemma ReleaseIsRejectedExactlyWhenPublished(r: Row, attempts: nat, now: int)
    requires StateCheck(r)
    ensures StateCheck(Released(r, attempts, now)) <==> r.status != PUBLISHED
    ensures Checked(r, Released(r, attempts, now)).status == PUBLISHED <==> r.status == PUBLISHED
  {}

  ghost predicate DueFrom(r: Row, from: int) {
    forall now :: now >= from ==> Due(r, now)
  }

  /** Unpublished rows, and no others, become due and stay due. */
  lemma UnpublishedBecomesDue(r: Row)
    requires StateCheck(r)
    ensures r.status != PUBLISHED <==> exists from :: DueFrom(r, from)
  {
    if r.status == OutboxStatus.PENDING { assert DueFrom(r, r.availableAt); }
    if r.status == PROCESSING { assert DueFrom(r, r.lockedAt.value + STALE + 1); }
    if r.status == PUBLISHED { forall from ensures !DueFrom(r, from) { assert !Due(r, from); } }
  }

  // ---------------------------------------------------------------- concurrent publishers

  /** A publisher's progress with one claimed event; `attempts` as it read them. */
  datatype Phase = Adding | Added | Failing
  datatype Flight = Flight(event: Uuid, attempts: nat, phase: Phase)

  /** `queued` are the events whose job ever reached the queue; notifications name their event. */
  datatype World = World(rows: map<Uuid, Row>, flights: map<nat, Flight>, queued: set<Uuid>,
                         notifications: map<Uuid, Uuid>, clock: int)

  datatype Event =
    | Created(id: Uuid)
    | ClaimedBy(flight: nat, id: Uuid)
    | Answered(flight: nat, ok: bool, landed: bool)   // adding the job; a failed call may still have landed
    | Published(flight: nat, ok: bool)                // marking the row; false if the database failed
    | ReleasedBy(flight: nat, ok: bool)               // releasing the row; false if the database failed
    | Crashed(flight: nat)
    | Notified(id: Uuid, notification: Uuid)          // a queued job runs, once or many times
    | Ticked(now: int)

  ghost predicate Enabled(w: World, e: Event) {
    match e
    case Created(id) => id !in w.rows
    case ClaimedBy(f, id) => f !in w.flights && id in w.rows && Due(w.rows[id], w.clock)
    case Answered(f, ok, landed) => f in w.flights && w.flights[f].phase == Adding && (ok ==> landed)
    case Published(f, _) => f in w.flights && w.flights[f].phase == Added && w.flights[f].event in w.rows
    case ReleasedBy(f, _) => f in w.flights && w.flights[f].phase == Failing && w.flights[f].event in w.rows
    case Crashed(f) => f in w.flights
    case Notified(id, n) => id in w.queued && n !in w.notifications
    case Ticked(now) => now >= w.clock
  }

  ghost function Next(w: World, e: Event): World
    requires Enabled(w, e)
  {
    match e
    case Created(id) => w.(rows := w.rows[id := Inserted(w.clock)])
    case ClaimedBy(f, id) =>
      w.(rows := w.rows[id := Claimed(w.rows[id], w.clock)], flights := w.flights[f := Flight(id, w.rows[id].attempts, Adding)])
    case Answered(f, ok, landed) =>
      w.(flights := w.flights[f := w.flights[f].(phase := if ok then Added else Failing)],
         queued := if landed then w.queued + {w.flights[f].event} else w.queued)
    case Published(f, ok) =>
      if ok then w.(rows := w.rows[w.flights[f].event := MarkedPublished(w.rows[w.flights[f].event], w.clock)], flights := w.flights - {f})
      else w.(flights := w.flights[f := w.flights[f].(phase := Failing)])
    case ReleasedBy(f, ok) =>
      var id := w.flights[f].event;
      if !ok then w.(flights := w.flights - {f})
      else w.(rows := w.rows[id := Checked(w.rows[id], Released(w.rows[id], w.flights[f].attempts, w.clock))], flights := w.flights - {f})
    case Crashed(f) => w.(flights := w.flights - {f})
    case Notified(id, n) =>
      if exists m :: m in w.notifications && w.notifications[m] == id then w
      else w.(notifications := w.notifications[n := id])
    case Ticked(now) => w.(clock := now)
  }

  ghost predicate RowIntact(w: World, id: Uuid)
    requires id in w.rows
  {
    var r := w.rows[id];
    && StateCheck(r)
    && (r.status == PUBLISHED ==> id in w.queued)
    && (r.status == OutboxStatus.PENDING ==> r.availableAt <= w.clock + 60_000)
    && (r.status == PROCESSING ==> r.lockedAt.value <= w.clock)
  }

  ghost predicate Intact(w: World) {
    && (forall id :: id in w.rows ==> RowIntact(w, id))
    && (forall f :: f in w.flights ==> w.flights[f].event in w.rows && (w.flights[f].phase == Added ==> w.flights[f].event in w.queued))
    && (forall m, n :: m in w.notifications && n in w.notifications && w.notifications[m] == w.notifications[n] ==> m == n)
    && (forall m :: m in w.notifications ==> w.notifications[m] in w.queued)
  }

  lemma StepKeepsIntact(w: World, e: Event)
    requires Intact(w) && Enabled(w, e)
    ensures Intact(Next(w, e))
  {
    forall id | id in Next(w, e).rows ensures RowIntact(Next(w, e), id) { StepKeepsRow(w, e, id); }
  }

  lemma StepKeepsRow(w: World, e: Event, id: Uuid)
    requires Intact(w) && Enabled(w, e) && id in Next(w, e).rows
    ensures RowIntact(Next(w, e), id)
  {
    if id in w.rows { assert RowIntact(w, id); }
    if e.ReleasedBy? { Backoffs(w.flights[e.flight].attempts, w.flights[e.flight].attempts); }
  }

  /** What a step can do to a row. */
  lemma StepKeepsPublished(w: World, e: Event, id: Uuid)
    requires Intact(w) && Enabled(w, e) && id in w.rows
    ensures id in Next(w, e).rows && (w.rows[id].status == PUBLISHED ==> Next(w, e).rows[id].status == PUBLISHED)
    ensures w.queued <= Next(w, e).queued
  {
    assert RowIntact(w, id);
  }

  lemma StepKeepsNotifications(w: World, e: Event, n: Uuid)
    requires Enabled(w, e) && n in w.notifications
    ensures n in Next(w, e).notifications && Next(w, e).notifications[n] == w.notifications[n]
  {}

  // ---------------------------------------------------------------- runs

  ghost predicate Stepped(w: World, after: World) {
    exists e :: Enabled(w, e) && after == Next(w, e)
  }

  ghost predicate StepsAt(ws: seq<World>, i: nat)
    requires i + 1 < |ws|
  {
    Stepped(ws[i], ws[i + 1])
  }

  ghost predicate Run(ws: seq<World>) {
    && |ws| > 0 && Intact(ws[0])
    && (forall i :: 0 <= i < |ws| - 1 ==> StepsAt(ws, i))
  }

  lemma {:induction false} EventAt(ws: seq<World>, i: nat) returns (e: Event)
    requires Run(ws) && i + 1 < |ws|
    ensures Intact(ws[i]) && Enabled(ws[i], e) && ws[i + 1] == Next(ws[i], e)
  {
    RunStaysIntact(ws, i);
    assert StepsAt(ws, i);
    e :| Enabled(ws[i], e) && ws[i + 1] == Next(ws[i], e);
  }

  lemma {:induction false} RunStaysIntact(ws: seq<World>, i: nat)
    requires Run(ws) && i < |ws|
    ensures Intact(ws[i])
  {
    if i > 0 {
      RunStaysIntact(ws, i - 1);
      assert StepsAt(ws, i - 1);
      var e :| Enabled(ws[i - 1], e) && ws[i] == Next(ws[i - 1], e);
      StepKeepsIntact(ws[i - 1], e);
    }
  }

  /** PUBLISHED is never left, whatever stale publishers do, and a published event's job did
      reach the queue. */
  lemma {:induction false} PublishedForGood(ws: seq<World>, i: nat, j: nat, id: Uuid)
    requires Run(ws) && i <= j < |ws| && id in ws[i].rows && ws[i].rows[id].status == PUBLISHED
    ensures id in ws[j].rows && ws[j].rows[id].status == PUBLISHED && id in ws[i].queued && id in ws[j].queued
  {
    if i < j {
      PublishedForGood(ws, i, j - 1, id);
      var e := EventAt(ws, j - 1);
      StepKeepsPublished(ws[j - 1], e, id);
    } else {
      RunStaysIntact(ws, i);
      assert RowIntact(ws[i], id);
    }
  }

  /** Every unpublished event can be claimed once five minutes have passed, unless a publisher
      touches it before. */
  lemma ClaimableWithinFiveMinutes(ws: seq<World>, i: nat, id: Uuid, now: int)
    requires Run(ws) && i < |ws| && id in ws[i].rows && ws[i].rows[id].status != PUBLISHED
    requires now > ws[i].clock + STALE
    ensures Due(ws[i].rows[id], now)
  {
    RunStaysIntact(ws, i);
    assert RowIntact(ws[i], id);
  }

  lemma {:induction false} NotificationsStay(ws: seq<World>, i: nat, j: nat, n: Uuid)
    requires Run(ws) && i <= j < |ws| && n in ws[i].notifications
    ensures n in ws[j].notifications && ws[j].notifications[n] == ws[i].notifications[n]
  {
    if i < j {
      NotificationsStay(ws, i, j - 1, n);
      var e := EventAt(ws, j - 1);
      StepKeepsNotifications(ws[j - 1], e, n);
    }
  }

  /** However often its job runs, an event has at most one notification, which stays. */
  lemma OneNotificationPerEvent(ws: seq<World>, i: nat, j: nat, n: Uuid)
    requires Run(ws) && i <= j < |ws| && n in ws[i].notifications
    ensures n in ws[j].notifications && ws[j].notifications[n] == ws[i].notifications[n]
    ensures forall m :: m in ws[j].notifications && ws[j].notifications[m] == ws[i].notifications[n] ==> m == n
    ensures ws[i].notifications[n] in ws[i].queued
  {
    NotificationsStay(ws, i, j, n);
    RunStaysIntact(ws, j);
    RunStaysIntact(ws, i);
  }

  /** Whenever its job runs, the event has exactly one notification afterwards. */
  lemma NotifiedOnce(w: World, id: Uuid, n: Uuid)
    requires Intact(w) && Enabled(w, Notified(id, n))
    ensures var u := Next(w, Notified(id, n)).notifications;
            exists m :: m in u && u[m] == id && forall k :: k in u && u[k] == id ==> k == m
  {
    var u := Next(w, Notified(id, n)).notifications;
    if m :| m in w.notifications && w.notifications[m] == id { assert m in u; } else { assert n in u; }
  }

  // ---------------------------------------------------------------- pauses over runs

  /** The step from `i` is a claim of the event. */
  ghost predicate ClaimsAt(ws: seq<World>, i: nat, id: Uuid) {
    i + 1 < |ws| && exists f :: Enabled(ws[i], ClaimedBy(f, id)) && ws[i + 1] == Next(ws[i], ClaimedBy(f, id))
  }

  /** Whatever happens from here on, nobody claims the event before `until`. */
  ghost predicate WaitsUntil(w: World, id: Uuid, until: int) {
    forall ws: seq<World>, i: nat :: Run(ws) && ws[0] == w && ClaimsAt(ws, i, id) ==> ws[i].clock >= until
  }

  /** A publisher still at work on the event would make it claimable before `until` if it failed
      now. */
  ghost predicate Hasty(w: World, f: nat, id: Uuid, until: int) {
    f in w.flights && w.flights[f].event == id && w.clock + Backoff(w.flights[f].attempts) < until
  }

  /** The event is published, or waits until then at least, and nobody shortens that. */
  ghost predicate HeldBack(w: World, id: Uuid, until: int) {
    && id in w.rows
    && (w.rows[id].status == PUBLISHED || (w.rows[id].status == OutboxStatus.PENDING && w.rows[id].availableAt >= until))
    && (forall f :: !Hasty(w, f, id, until))
  }

  lemma StepHoldsBack(w: World, e: Event, id: Uuid, until: int)
    requires Intact(w) && Enabled(w, e) && HeldBack(w, id, until) && w.clock < until
    ensures HeldBack(Next(w, e), id, until) && !(e.ClaimedBy? && e.id == id)
  {
    var u := Next(w, e);
    assert RowIntact(w, id);
    forall f ensures !Hasty(u, f, id, until) { assert !Hasty(w, f, id, until); }
    if e.ReleasedBy? { assert !Hasty(w, e.flight, id, until); }
  }

  lemma {:induction false} HeldBackAlong(ws: seq<World>, i: nat, id: Uuid, until: int)
    requires Run(ws) && i < |ws| && HeldBack(ws[0], id, until)
    ensures ws[i].clock >= until || HeldBack(ws[i], id, until)
    ensures ws[0].clock <= ws[i].clock
  {
    if i > 0 {
      HeldBackAlong(ws, i - 1, id, until);
      var e := EventAt(ws, i - 1);
      if ws[i].clock < until { StepHoldsBack(ws[i - 1], e, id, until); }
    }
  }

  lemma HeldBackWaits(w: World, id: Uuid, until: int)
    requires HeldBack(w, id, until)
    ensures WaitsUntil(w, id, until)
  {
    forall ws: seq<World>, i: nat | Run(ws) && ws[0] == w && ClaimsAt(ws, i, id) ensures ws[i].clock >= until {
      HeldBackAlong(ws, i, id, until);
      if ws[i].clock < until {
        var f :| Enabled(ws[i], ClaimedBy(f, id)) && ws[i + 1] == Next(ws[i], ClaimedBy(f, id));
        RunStaysIntact(ws, i);
        StepHoldsBack(ws[i], ClaimedBy(f, id), id, until);
      }
    }
  }

  lemma RunGoesOn(ws: seq<World>, e: Event) returns (more: seq<World>)
    requires Run(ws) && Enabled(ws[|ws| - 1], e)
    ensures Run(more) && |more| == |ws| + 1 && more[..|ws|] == ws && more[|ws|] == Next(ws[|ws| - 1], e)
  {
    more := ws + [Next(ws[|ws| - 1], e)];
    forall i | 0 <= i < |more| - 1 ensures StepsAt(more, i) {
      if i < |ws| - 1 { assert StepsAt(ws, i); } else { assert Stepped(ws[i], Next(ws[i], e)); }
    }
  }

  /** The hasty publisher fails, releases the row, and once its short pause is over the event is
      claimed. */
  lemma HastyShortens(w: World, id: Uuid, f: nat, until: int)
    requires Intact(w) && id in w.rows && w.rows[id].status == OutboxStatus.PENDING && Hasty(w, f, id, until)
    ensures !WaitsUntil(w, id, until)
  {
    var attempts := w.flights[f].attempts;
    var ws := FlightFails(w, f);
    var n := |ws|;
    ws := RunGoesOn(ws, ReleasedBy(f, true));
    assert RowIntact(w, id);
    assert ws[n].rows[id].availableAt == w.clock + Backoff(attempts) && ws[n].rows[id].status == OutboxStatus.PENDING;
    Backoffs(attempts, attempts);
    ws := RunGoesOn(ws, Ticked(w.clock + Backoff(attempts)));
    var g := FreshFlight(ws[n + 1]);
    ws := RunGoesOn(ws, ClaimedBy(g, id));
    assert ClaimsAt(ws, n + 1, id);
  }

  /** A publisher can come to fail whatever it is at, with no time passing. */
  lemma FlightFails(w: World, f: nat) returns (ws: seq<World>)
    requires Intact(w) && f in w.flights
    ensures Run(ws) && ws[0] == w
    ensures var u := ws[|ws| - 1]; u.rows == w.rows && u.clock == w.clock && u.flights == w.flights[f := w.flights[f].(phase := Failing)]
  {
    ws := [w];
    match w.flights[f].phase {
      case Adding => ws := RunGoesOn(ws, Answered(f, false, false));
      case Added => ws := RunGoesOn(ws, Published(f, false));
      case Failing => assert w.flights == w.flights[f := w.flights[f].(phase := Failing)];
    }
  }

  lemma FreshFlight(w: World) returns (f: nat)
    ensures f !in w.flights
  {
    f := Above(w.flights.Keys);
  }

  lemma {:induction false} Above(s: set<nat>) returns (n: nat)
    ensures forall x :: x in s ==> x < n
  {
    if s == {} { n := 0; }
    else {
      var x :| x in s;
      n := Above(s - {x});
      if x >= n { n := x + 1; }
      forall y | y in s ensures y < n { assert y == x || y in s - {x}; }
    }
  }

  /** A waiting event is claimed by nobody before its time, in every run, exactly when no publisher
      still at work on it would release it for an earlier time. */
  lemma PausesAreKeptExactlyWhen(w: World, id: Uuid)
    requires Intact(w) && id in w.rows && w.rows[id].status == OutboxStatus.PENDING
    ensures WaitsUntil(w, id, w.rows[id].availableAt) <==> forall f :: !Hasty(w, f, id, w.rows[id].availableAt)
  {
    var until := w.rows[id].availableAt;
    if f :| Hasty(w, f, id, until) { HastyShortens(w, id, f, until); } else { HeldBackWaits(w, id, until); }
  }

  /** After a release that committed, the event is claimed by nobody before the pause is over, in
      every run, exactly when no other publisher at work on it has read so few attempts that its pause
      is shorter. */
  lemma ReleasesPauseExactlyWhen(w: World, f: nat)
    requires Intact(w) && Enabled(w, ReleasedBy(f, true)) && w.rows[w.flights[f].event].status != PUBLISHED
    ensures var id, attempts := w.flights[f].event, w.flights[f].attempts;
            WaitsUntil(Next(w, ReleasedBy(f, true)), id, w.clock + Min(1000 * Power2(attempts), 60_000)) <==>
              forall g :: g in w.flights && g != f && w.flights[g].event == id ==> Backoff(w.flights[g].attempts) >= Backoff(attempts)
  {
    var id, attempts, u := w.flights[f].event, w.flights[f].attempts, Next(w, ReleasedBy(f, true));
    assert RowIntact(w, id);
    StepKeepsIntact(w, ReleasedBy(f, true));
    Backoffs(attempts, attempts);
    var until := w.clock + Backoff(attempts);
    PausesAreKeptExactlyWhen(u, id);
    forall g ensures Hasty(u, g, id, until) <==> (g in w.flights && g != f && w.flights[g].event == id && Backoff(w.flights[g].attempts) < Backoff(attempts)) {}
  }
}
