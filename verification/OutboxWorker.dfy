/** The publisher as it runs: claim a batch in one statement, then publish event after event.
    Proved against the rows of `Outbox`. */
module OutboxWorker {
  import opened Domain
  import opened Outbox

  /** How publishing one event went: whether the queue took the job, whether its failed call
      landed all the same, and whether the database was there for the update to PUBLISHED and for the
      release that follows a failure. */
  datatype Trial = Trial(accepted: bool, landed: bool, stored: bool, released: bool, now: int)

  /** The row after one publication that read `attempts`. */
  function AfterPublish(r: Row, attempts: nat, t: Trial): Row {
    if t.accepted && t.stored then Checked(r, MarkedPublished(r, t.now))
    else if t.released then Checked(r, Released(r, attempts, t.now))
    else r
  }

  /** The publication ends with an exception: the release failed or was rejected. */
  predicate Raises(r: Row, attempts: nat, t: Trial) {
    !(t.accepted && t.stored) && (!t.released || !StateCheck(Released(r, attempts, t.now)))
  }

  predicate Lands(t: Trial) {
    t.accepted || t.landed
  }

  ghost predicate Sound(rows: map<Uuid, Row>, queued: set<Uuid>) {
    forall id :: id in rows ==> StateCheck(rows[id]) && (rows[id].status == PUBLISHED ==> id in queued)
  }

  /** Published rows stay published, and every row keeps what the CHECK demands. */
  lemma PublishingOne(r: Row, attempts: nat, t: Trial)
    requires StateCheck(r)
    ensures StateCheck(AfterPublish(r, attempts, t))
    ensures AfterPublish(r, attempts, t).status == PUBLISHED <==> (r.status == PUBLISHED || (t.accepted && t.stored))
    ensures Raises(r, attempts, t) <==> (!(t.accepted && t.stored) && (!t.released || r.status == PUBLISHED))
  {}

  ghost predicate EndsIn(ws: seq<World>, rows: map<Uuid, Row>, queued: set<Uuid>, flights: map<nat, Flight>) {
    |ws| > 0 && ws[|ws| - 1].rows == rows && ws[|ws| - 1].queued == queued && ws[|ws| - 1].flights == flights
  }

  /** One publication is a run of the concurrent publishers in which only this one acts: every
      statement about runs holds of what the worker does. */
  lemma PublicationIsARun(w: World, f: nat, t: Trial)
    requires Intact(w) && f in w.flights && w.flights[f].phase == Adding && w.clock == t.now
    ensures var id, attempts := w.flights[f].event, w.flights[f].attempts;
            && id in w.rows
            && exists ws :: Outbox.Run(ws) && ws[0] == w
                 && EndsIn(ws, w.rows[id := AfterPublish(w.rows[id], attempts, t)], if Lands(t) then w.queued + {id} else w.queued, w.flights - {f})
  {
    hide Intact, Outbox.Run, Backoff, Due;
    FlightBegins(w, f);
    var id, attempts := w.flights[f].event, w.flights[f].attempts;
    PublishingOne(w.rows[id], attempts, t);
    var ws := RunGoesOn([w], Answered(f, t.accepted, t.accepted || t.landed));
    if t.accepted { ws := RunGoesOn(ws, Published(f, t.stored)); }
    if !(t.accepted && t.stored) { ws := RunGoesOn(ws, ReleasedBy(f, t.released)); }
    assert EndsIn(ws, w.rows[id := AfterPublish(w.rows[id], attempts, t)], if Lands(t) then w.queued + {id} else w.queued, w.flights - {f});
  }

  lemma FlightBegins(w: World, f: nat)
    requires Intact(w) && f in w.flights
    ensures Outbox.Run([w]) && w.flights[f].event in w.rows && StateCheck(w.rows[w.flights[f].event])
  {
    assert RowIntact(w, w.flights[f].event);
  }

  /** Of the first `n` events, those that went through are published, their jobs queued. */
  ghost predicate Stored(rows: map<Uuid, Row>, queued: set<Uuid>, order: seq<Uuid>, trials: seq<Trial>, n: nat)
    requires n <= |order| == |trials|
  {
    forall i :: 0 <= i < n && trials[i].accepted && trials[i].stored ==>
      order[i] in rows && rows[order[i]].status == PUBLISHED && order[i] in queued
  }

  lemma StoredGoesOn(rows: map<Uuid, Row>, queued: set<Uuid>, order: seq<Uuid>, trials: seq<Trial>, n: nat, attempts: nat,
                     after: map<Uuid, Row>, more: set<Uuid>)
    requires n < |order| == |trials| && Stored(rows, queued, order, trials, n)
    requires order[n] in rows && StateCheck(rows[order[n]])
    requires after == rows[order[n] := AfterPublish(rows[order[n]], attempts, trials[n])]
    requires more == if Lands(trials[n]) then queued + {order[n]} else queued
    ensures Stored(after, more, order, trials, n) && Stored(after, more, order, trials, n + 1)
  {
    PublishingOne(rows[order[n]], attempts, trials[n]);
  }

  /** How a claimed event ends its publication: published; or released, due again from the end of its
      pause on; or, if even that failed, as it was claimed. */
  ghost predicate Ends(r: Row, s: Row, now: int, t: Trial) {
    if t.accepted && t.stored then s == Row(PUBLISHED, r.attempts, r.availableAt, None, Some(t.now))
    else if t.released then
      s.status == OutboxStatus.PENDING && s.attempts == r.attempts + 1
      && forall later :: Due(s, later) <==> later >= t.now + Min(1000 * Power2(r.attempts), 60_000)
    else s == Claimed(r, now)
  }

  /** Neither the update to PUBLISHED nor the release went through. */
  predicate IsStuck(t: Trial) {
    !(t.accepted && t.stored) && !t.released
  }

  /** After `n` publications of a batch: their events have ended, the others are claimed. */
  ghost predicate Progress(before: map<Uuid, Row>, rows: map<Uuid, Row>, now: int, order: seq<Uuid>, trials: seq<Trial>, n: nat)
    requires n <= |order| == |trials|
  {
    && (forall i :: 0 <= i < |order| ==> order[i] in before && order[i] in rows)
    && (forall i :: 0 <= i < n ==> !IsStuck(trials[i]) && Ends(before[order[i]], rows[order[i]], now, trials[i]))
    && (forall i :: n <= i < |order| ==> rows[order[i]] == Claimed(before[order[i]], now))
  }

  lemma ProgressGoesOn(before: map<Uuid, Row>, rows: map<Uuid, Row>, now: int, order: seq<Uuid>, trials: seq<Trial>, n: nat, after: map<Uuid, Row>)
    requires n < |order| == |trials| && Progress(before, rows, now, order, trials, n)
    requires forall i, j :: 0 <= i < j < |order| ==> order[i] != order[j]
    requires StateCheck(before[order[n]]) && before[order[n]].status != PUBLISHED
    requires after == rows[order[n] := AfterPublish(rows[order[n]], before[order[n]].attempts, trials[n])]
    ensures Raises(rows[order[n]], before[order[n]].attempts, trials[n]) <==> IsStuck(trials[n])
    ensures Progress(before, after, now, order, trials, if IsStuck(trials[n]) then n else n + 1)
  {
    var r := before[order[n]];
    PublishingOne(rows[order[n]], r.attempts, trials[n]);
    var released := Released(Claimed(r, now), r.attempts, trials[n].now);
    forall later ensures Due(released, later) <==> later >= trials[n].now + Min(1000 * Power2(r.attempts), 60_000) {
      WhenRowsAreDue(Claimed(r, now), r.attempts, trials[n].now, later);
    }
    forall i | 0 <= i < |order| && i != n ensures after[order[i]] == rows[order[i]] { assert order[i] != order[n]; }
  }

  /** Rows outside the batch are as they were. */
  ghost predicate OthersKept(rows: map<Uuid, Row>, after: map<Uuid, Row>, picked: set<Uuid>) {
    after.Keys == rows.Keys && forall id :: id in rows && id !in picked ==> after[id] == rows[id]
  }

  lemma ClaimKeepsSound(rows: map<Uuid, Row>, after: map<Uuid, Row>, queued: set<Uuid>, picked: set<Uuid>, now: int)
    requires Sound(rows, queued) && after.Keys == rows.Keys
    requires forall id :: id in rows ==> after[id] == if id in picked then Claimed(rows[id], now) else rows[id]
    requires forall id :: id in picked ==> id in rows && Due(rows[id], now)
    ensures Sound(after, queued) && OthersKept(rows, after, picked)
  {}

  lemma PublishKeepsSound(rows: map<Uuid, Row>, queued: set<Uuid>, id: Uuid, attempts: nat, t: Trial)
    requires Sound(rows, queued) && id in rows
    ensures Sound(rows[id := AfterPublish(rows[id], attempts, t)], if Lands(t) then queued + {id} else queued)
  {
    PublishingOne(rows[id], attempts, t);
  }

  lemma PublishedAreNotPicked(rows: map<Uuid, Row>, after: map<Uuid, Row>, picked: set<Uuid>, now: int)
    requires OthersKept(rows, after, picked) && forall id :: id in picked ==> id in rows && Due(rows[id], now)
    ensures forall id :: id in after && rows[id].status == PUBLISHED ==> after[id] == rows[id]
  {}

  class AsyncWorkerService {
    var rows: map<Uuid, Row>
    var queued: set<Uuid>
    var dispatching: bool
    var stopping: bool

    constructor ()
      ensures rows == map[] && queued == {} && !dispatching && !stopping
    {
      rows, queued, dispatching, stopping := map[], {}, false, false;
    }

    /** Rows locked by other claims are skipped, so `picked` is any set of due rows. */
    method ClaimBatch(picked: set<Uuid>, now: int) returns (claimed: map<Uuid, nat>)
      requires |picked| <= BATCH && forall id :: id in picked ==> id in rows && Due(rows[id], now)
      modifies this`rows
      ensures rows.Keys == old(rows).Keys
      ensures forall id :: id in rows ==> rows[id] == if id in picked then Claimed(old(rows)[id], now) else old(rows)[id]
      ensures claimed.Keys == picked && forall id :: id in picked ==> claimed[id] == old(rows)[id].attempts
      ensures forall id, later :: id in picked ==> (Due(rows[id], later) <==> later > now + 300_000)
    {
      claimed := map id | id in picked :: rows[id].attempts;
      rows := map id | id in rows :: if id in picked then Claimed(rows[id], now) else rows[id];
    }

    /** Queues the job and marks the row published. If either fails, an unpublished row is released:
        one attempt is spent, and the row is due again from the end of its pause on and not before. */
    method Publish(id: Uuid, attempts: nat, t: Trial) returns (raised: bool)
      requires id in rows && StateCheck(rows[id])
      modifies this`rows, this`queued
      ensures id in rows && rows == old(rows)[id := rows[id]]
      ensures t.accepted && t.stored ==> rows[id] == Row(PUBLISHED, old(rows)[id].attempts, old(rows)[id].availableAt, None, Some(t.now))
      ensures !(t.accepted && t.stored) && t.released && old(rows)[id].status != PUBLISHED ==>
                rows[id].status == OutboxStatus.PENDING && rows[id].attempts == old(rows)[id].attempts + 1
                && forall later :: Due(rows[id], later) <==> later >= t.now + Min(1000 * Power2(attempts), 60_000)
      ensures !(t.accepted && t.stored) && !(t.released && old(rows)[id].status != PUBLISHED) ==> rows[id] == old(rows)[id]
      ensures rows == old(rows)[id := AfterPublish(old(rows)[id], attempts, t)]
      ensures raised <==> Raises(old(rows)[id], attempts, t)
      ensures queued == if Lands(t) then old(queued) + {id} else old(queued)
    {
      PublishingOne(rows[id], attempts, t);
      if t.accepted || t.landed { queued := queued + {id}; }
      if t.accepted && t.stored {
        rows := rows[id := MarkedPublished(rows[id], t.now)];
        return false;
      }
      var released := Released(rows[id], attempts, t.now);
      forall later ensures Due(released, later) <==> later >= t.now + Min(1000 * Power2(attempts), 60_000) {
        WhenRowsAreDue(rows[id], attempts, t.now, later);
      }
      if !t.released || !StateCheck(released) {
        assert rows == rows[id := rows[id]];
        return true;
      }
      rows := rows[id := released];
      return false;
    }

    /** One poll: nothing while another poll runs or the worker stops. Else every claimed event is
        published or released, in order, up to the first whose release fails; that one and the rest
        stay claimed, to be reclaimed later. Never is PUBLISHED left, nor a row published whose job did
        not reach the queue. */
    method DispatchOnce(picked: set<Uuid>, now: int, order: seq<Uuid>, trials: seq<Trial>) returns (done: nat)
      requires |picked| <= BATCH && (forall id :: id in picked ==> id in rows && Due(rows[id], now))
      requires |order| == |trials| && (forall i :: 0 <= i < |order| ==> order[i] in picked) && Sound(rows, queued)
      requires (forall id :: id in picked ==> id in order) && forall i, j :: 0 <= i < j < |order| ==> order[i] != order[j]
      modifies this
      ensures dispatching == old(dispatching) && stopping == old(stopping) && Sound(rows, queued)
      ensures old(queued) <= queued && rows.Keys == old(rows).Keys
      ensures old(dispatching) || stopping ==> rows == old(rows) && queued == old(queued) && done == 0
      ensures forall id :: id in rows && old(rows)[id].status == PUBLISHED ==> rows[id] == old(rows)[id]
      ensures done <= |order| && Stored(rows, queued, order, trials, done)
      ensures !(old(dispatching) || stopping) ==>
                (done < |order| ==> IsStuck(trials[done])) && Progress(old(rows), rows, now, order, trials, done)
      ensures forall id :: id in rows && id !in picked ==> rows[id] == old(rows)[id]
    {
      hide Due, AfterPublish, StateCheck, Ends, Stored, IsStuck, Raises, Progress, Sound;
      if stopping || dispatching {
        NothingStored(rows, queued, order, trials);
        return 0;
      }
      dispatching := true;
      var claimed := ClaimBatch(picked, now);
      ClaimKeepsSound(old(rows), rows, queued, picked, now);
      BatchBegins(old(rows), rows, queued, now, picked, order, trials);
      done := 0;
      while done < |order|
        invariant 0 <= done <= |order| && dispatching && stopping == old(stopping)
        invariant Sound(rows, queued) && old(queued) <= queued
        invariant OthersKept(old(rows), rows, picked) && claimed.Keys == picked
        invariant Stored(rows, queued, order, trials, done)
        invariant Progress(old(rows), rows, now, order, trials, done)
      {
        ghost var before, had := rows, queued;
        assert order[done] in picked;
        SoundRow(before, had, order[done]);
        PickedRow(old(rows), old(queued), picked, now, order[done]);
        PublishKeepsSound(before, had, order[done], claimed[order[done]], trials[done]);
        var raised := Publish(order[done], claimed[order[done]], trials[done]);
        StoredGoesOn(before, had, order, trials, done, claimed[order[done]], rows, queued);
        ProgressGoesOn(old(rows), before, now, order, trials, done, rows);
        if raised { break; }
        done := done + 1;
      }
      dispatching := false;
      PublishedAreNotPicked(old(rows), rows, picked, now);
    }
  }

  lemma NothingStored(rows: map<Uuid, Row>, queued: set<Uuid>, order: seq<Uuid>, trials: seq<Trial>)
    requires |order| == |trials|
    ensures Stored(rows, queued, order, trials, 0)
  {}

  lemma SoundRow(rows: map<Uuid, Row>, queued: set<Uuid>, id: Uuid)
    requires Sound(rows, queued) && id in rows
    ensures StateCheck(rows[id])
  {}

  lemma PickedRow(rows: map<Uuid, Row>, queued: set<Uuid>, picked: set<Uuid>, now: int, id: Uuid)
    requires Sound(rows, queued) && id in picked && forall x :: x in picked ==> x in rows && Due(rows[x], now)
    ensures id in rows && StateCheck(rows[id]) && rows[id].status != PUBLISHED
  {}

  lemma BatchBegins(before: map<Uuid, Row>, rows: map<Uuid, Row>, queued: set<Uuid>, now: int, picked: set<Uuid>, order: seq<Uuid>, trials: seq<Trial>)
    requires |order| == |trials| && (forall i :: 0 <= i < |order| ==> order[i] in picked) && picked <= before.Keys == rows.Keys
    requires forall id :: id in rows ==> rows[id] == if id in picked then Claimed(before[id], now) else before[id]
    ensures Stored(rows, queued, order, trials, 0) && Progress(before, rows, now, order, trials, 0)
  {}
}
