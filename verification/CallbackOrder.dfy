/** Callbacks with the same outcome settle a payment the same way in every order and with any
    repetition. */
module CallbackOrder {
  import opened Domain
  import opened Amounts
  import opened Store
  import opened Posting
  import opened Plans
  import opened Ledger
  import opened Business
  import opened Operations
  import opened PaymentSteps

  /** Processes the callbacks in turn; None if one of them is refused. Whichever of them credits
      the payment uses the transaction id `txId`. */
  ghost function SettleAll(db: Db, provider: Provider, es: seq<Evidence>, txId: Uuid): Option<Db>
    decreases |es|
  {
    if es == [] then Some(db)
    else match PlanSettle(db, provider, es[0], txId)
      case Rollback(_) => None
      case Commit(_, w) => SettleAll(Apply(db, w), provider, es[1..], txId)
  }

  function Elems(es: seq<Evidence>): set<Evidence> {
    set e | e in es
  }

  function Key(provider: Provider, e: Evidence): EventKey {
    EventKey(provider, e.event)
  }

  function Stored(e: Evidence): ProviderEvent {
    ProviderEvent(e.reference, e.payload, OutcomeOf(e))
  }

  /** All for payment `id`, with one outcome. */
  ghost predicate Uniform(es: set<Evidence>, id: Uuid, succeeded: bool) {
    forall e :: e in es ==> e.reference == id && e.succeeded == succeeded
  }

  predicate Matches(p: Payment, provider: Provider, e: Evidence) {
    p.provider == provider && Print(p.amount) == e.amountText && p.currency == e.currency
  }

  /** The evidence repeats what is stored under its identity, if anything is. */
  predicate Repeats(events: map<EventKey, ProviderEvent>, provider: Provider, e: Evidence) {
    var k := Key(provider, e);
    k in events ==> events[k].payload == e.payload && events[k].payment == e.reference
  }

  /** One identity, one stored row. */
  ghost predicate Agreeing(es: set<Evidence>) {
    forall e, f :: e in es && f in es && e.event == f.event ==> Stored(e) == Stored(f)
  }

  ghost predicate Harmonious(p: Payment, events: map<EventKey, ProviderEvent>, provider: Provider, es: set<Evidence>) {
    && Agreeing(es)
    && (forall e :: e in es ==> Matches(p, provider, e) && Repeats(events, provider, e))
  }

  ghost function RowsOf(provider: Provider, es: set<Evidence>): map<EventKey, ProviderEvent>
    requires Agreeing(es)
  {
    map e | e in es :: Key(provider, e) := Stored(e)
  }

  ghost predicate EventsIntact(db: Db) {
    forall k :: k in db.events ==> EventIntact(db, k)
  }

  // ---------------------------------------------------------------- one more callback

  /** A callback on a settled payment adds its event, or repeats it, or is refused. */
  lemma SettledCallback(db: Db, provider: Provider, e: Evidence, txId: Uuid)
    requires e.reference in db.payments && db.payments[e.reference].status == OutcomeOf(e) && EventsIntact(db)
    ensures var p, outcome := db.payments[e.reference], PlanSettle(db, provider, e, txId);
            && (outcome.Commit? <==> (Matches(p, provider, e) && Repeats(db.events, provider, e)))
            && (outcome.Commit? ==> Apply(db, outcome.writes) == db.(events := db.events[Key(provider, e) := Stored(e)]))
  {
    hide PlanPost;
    var k := Key(provider, e);
    if k in db.events {
      assert EventIntact(db, k);
      if Repeats(db.events, provider, e) { assert db.events[k := Stored(e)] == db.events; }
    }
    Untouched(db, NOTHING);
    EventApplied(db, provider, e);
  }

  lemma EventApplied(db: Db, provider: Provider, e: Evidence)
    ensures Apply(db, EventRows(provider, e)) == db.(events := db.events[Key(provider, e) := Stored(e)])
  {
    Untouched(db, EventRows(provider, e));
    AddOne(db.events, Key(provider, e), Stored(e));
  }

  lemma EventsStayIntact(db: Db, provider: Provider, e: Evidence)
    requires EventsIntact(db) && e.reference in db.payments && db.payments[e.reference].status == OutcomeOf(e)
    requires db.payments[e.reference].provider == provider
    ensures EventsIntact(db.(events := db.events[Key(provider, e) := Stored(e)]))
  {
    var after := db.(events := db.events[Key(provider, e) := Stored(e)]);
    forall k | k in after.events ensures EventIntact(after, k) { if k in db.events { assert EventIntact(db, k); } }
  }

  /** Harmony of the first callback and the rest is harmony of them all. */
  lemma HarmonyOfFirst(p: Payment, events: map<EventKey, ProviderEvent>, provider: Provider, e: Evidence, rest: set<Evidence>, id: Uuid, succeeded: bool)
    requires Uniform({e} + rest, id, succeeded)
    requires Matches(p, provider, e) && Repeats(events, provider, e)
    ensures Harmonious(p, events, provider, {e} + rest) <==> Harmonious(p, events[Key(provider, e) := Stored(e)], provider, rest)
  {
    var all, more := {e} + rest, events[Key(provider, e) := Stored(e)];
    if Harmonious(p, more, provider, rest) {
      forall f, g | f in all && g in all && f.event == g.event ensures Stored(f) == Stored(g) {
        if f in rest { assert Repeats(more, provider, f); }
        if g in rest { assert Repeats(more, provider, g); }
      }
      forall f | f in all ensures Matches(p, provider, f) && Repeats(events, provider, f) {
        if f in rest { assert Repeats(more, provider, f) && Matches(p, provider, f); }
      }
    }
    if Harmonious(p, events, provider, all) {
      forall f | f in rest ensures Matches(p, provider, f) && Repeats(more, provider, f) {
        assert f in all;
        assert e in all;
      }
      assert rest <= all;
    }
  }

  lemma RowsOfFirst(events: map<EventKey, ProviderEvent>, provider: Provider, e: Evidence, rest: set<Evidence>)
    requires Agreeing({e} + rest)
    ensures Agreeing(rest)
    ensures events[Key(provider, e) := Stored(e)] + RowsOf(provider, rest) == events + RowsOf(provider, {e} + rest)
  {
    var all := {e} + rest;
    assert rest <= all && e in all;
    assert Agreeing(rest);
    assert RowsOf(provider, all) == RowsOf(provider, rest)[Key(provider, e) := Stored(e)] by { RowsOfAll(provider, e, rest); }
    AgreeingRow(provider, e, rest);
  }

  lemma RowsOfAll(provider: Provider, e: Evidence, rest: set<Evidence>)
    requires Agreeing({e} + rest) && Agreeing(rest)
    ensures RowsOf(provider, {e} + rest) == RowsOf(provider, rest)[Key(provider, e) := Stored(e)]
  {
    var all := {e} + rest;
    assert e in all;
    forall f | f in rest ensures f in all {}
  }

  lemma AgreeingRow(provider: Provider, e: Evidence, rest: set<Evidence>)
    requires Agreeing({e} + rest) && Agreeing(rest)
    ensures Key(provider, e) in RowsOf(provider, rest) ==> RowsOf(provider, rest)[Key(provider, e)] == Stored(e)
  {
    var all := {e} + rest;
    forall f | f in rest && f.event == e.event ensures Stored(f) == Stored(e) { assert f in all && e in all; }
  }

  // ---------------------------------------------------------------- all callbacks

  /** On a settled payment: accepted exactly when harmonious, and then all events are stored. */
  lemma {:induction false} SettledFold(db: Db, provider: Provider, es: seq<Evidence>, txId: Uuid, id: Uuid, succeeded: bool)
    requires EventsIntact(db) && id in db.payments && db.payments[id].status == (if succeeded then SUCCEEDED else FAILED)
    requires Uniform(Elems(es), id, succeeded)
    ensures SettleAll(db, provider, es, txId) ==
              if Harmonious(db.payments[id], db.events, provider, Elems(es))
              then Some(db.(events := db.events + RowsOf(provider, Elems(es)))) else None
    decreases |es|
  {
    if es == [] {
      AddNothing(db.events);
      assert RowsOf(provider, Elems(es)) == map[];
    } else {
      var e, rest, p := es[0], es[1..], db.payments[id];
      assert Elems(es) == {e} + Elems(rest) by { assert es == [e] + rest; }
      SettledCallback(db, provider, e, txId);
      if PlanSettle(db, provider, e, txId).Commit? {
        var after := db.(events := db.events[Key(provider, e) := Stored(e)]);
        EventsStayIntact(db, provider, e);
        SettledFold(after, provider, rest, txId, id, succeeded);
        HarmonyOfFirst(p, db.events, provider, e, Elems(rest), id, succeeded);
        if Agreeing(Elems(es)) { RowsOfFirst(db.events, provider, e, Elems(rest)); }
      } else { assert e in Elems(es); }
    }
  }

  /** What the first accepted callback of a pending payment does besides storing its event;
      None if the payment cannot be credited. It is the same for every such callback. */
  ghost function Core(db: Db, id: Uuid, succeeded: bool, txId: Uuid): Option<Db>
    requires id in db.payments
  {
    var p := db.payments[id];
    var settled := db.(payments := db.payments[id := p.(status := if succeeded then SUCCEEDED else FAILED,
                                                        transaction := if succeeded then Some(txId) else None)],
                       outbox := db.outbox[OutboxKey(if succeeded then PAYMENT_SUCCEEDED else PAYMENT_FAILED, id) := p.user]);
    if !succeeded then Some(settled)
    else if p.wallet !in db.books.wallets || Clearing(p.currency) !in db.books.accounts then None
    else match PlanPost(db.books, FundingPosting(db, id, p), txId)
      case Err(_) => None
      case Ok(books) => Some(settled.(books := ApplyBooks(db.books, books)))
  }

  lemma FirstCallback(db: Db, provider: Provider, e: Evidence, txId: Uuid)
    requires e.reference in db.payments && db.payments[e.reference].status == PENDING && EventsIntact(db)
    ensures var p, outcome, core := db.payments[e.reference], PlanSettle(db, provider, e, txId), Core(db, e.reference, e.succeeded, txId);
            && (outcome.Commit? <==> (Matches(p, provider, e) && Repeats(db.events, provider, e) && core.Some?))
            && (outcome.Commit? ==> Apply(db, outcome.writes) == core.value.(events := db.events[Key(provider, e) := Stored(e)]))
  {
    var k, p, outcome := Key(provider, e), db.payments[e.reference], PlanSettle(db, provider, e, txId);
    assert k in db.events ==> EventIntact(db, k);
    if outcome.Commit? {
      assert k !in db.events;
      FirstCallbackCommits(db, provider, e, txId);
    }
  }

  lemma FirstCallbackCommits(db: Db, provider: Provider, e: Evidence, txId: Uuid)
    requires e.reference in db.payments && db.payments[e.reference].status == PENDING
    requires Key(provider, e) !in db.events && PlanSettle(db, provider, e, txId).Commit?
    ensures var core := Core(db, e.reference, e.succeeded, txId);
            core.Some? && Apply(db, PlanSettle(db, provider, e, txId).writes) == core.value.(events := db.events[Key(provider, e) := Stored(e)])
  {
    hide PlanPost, FundingPosting;
    SettleCases(db, provider, e, txId);
    var w := PlanSettle(db, provider, e, txId).writes;
    if e.succeeded {
      SettlementCommits(db, provider, e, Some(txId), w.books);
    } else {
      SettlementCommits(db, provider, e, None, NO_BOOKS);
      Untouched(db, w);
    }
  }

  lemma PendingFold(db: Db, provider: Provider, es: seq<Evidence>, txId: Uuid, id: Uuid, succeeded: bool)
    requires EventsIntact(db) && id in db.payments && db.payments[id].status == PENDING
    requires es != [] && Uniform(Elems(es), id, succeeded)
    ensures SettleAll(db, provider, es, txId) ==
              if Harmonious(db.payments[id], db.events, provider, Elems(es)) && Core(db, id, succeeded, txId).Some?
              then Some(Core(db, id, succeeded, txId).value.(events := db.events + RowsOf(provider, Elems(es)))) else None
  {
    var e, rest, p := es[0], es[1..], db.payments[id];
    assert Elems(es) == {e} + Elems(rest) by { assert es == [e] + rest; }
    assert e in Elems(es);
    FirstCallback(db, provider, e, txId);
    if PlanSettle(db, provider, e, txId).Commit? {
      var after := Core(db, id, succeeded, txId).value.(events := db.events[Key(provider, e) := Stored(e)]);
      CoreKeepsEventsIntact(db, provider, e, txId, after);
      SettledFold(after, provider, rest, txId, id, succeeded);
      SameHarmony(p, after.payments[id], after.events, provider, Elems(rest));
      HarmonyOfFirst(p, db.events, provider, e, Elems(rest), id, succeeded);
      if Agreeing(Elems(es)) { RowsOfFirst(db.events, provider, e, Elems(rest)); }
    }
  }

  lemma SameHarmony(p: Payment, q: Payment, events: map<EventKey, ProviderEvent>, provider: Provider, es: set<Evidence>)
    requires q == p.(status := q.status, transaction := q.transaction)
    ensures Harmonious(p, events, provider, es) <==> Harmonious(q, events, provider, es)
  {
    forall e ensures Matches(p, provider, e) <==> Matches(q, provider, e) {}
  }

  lemma CoreKeepsEventsIntact(db: Db, provider: Provider, e: Evidence, txId: Uuid, after: Db)
    requires EventsIntact(db) && e.reference in db.payments && db.payments[e.reference].status == PENDING
    requires db.payments[e.reference].provider == provider && Core(db, e.reference, e.succeeded, txId).Some?
    requires after == Core(db, e.reference, e.succeeded, txId).value.(events := db.events[Key(provider, e) := Stored(e)])
    ensures EventsIntact(after)
  {
    forall k | k in after.events ensures EventIntact(after, k) { if k in db.events { assert EventIntact(db, k); } }
  }

  /** Evidence of the other outcome is refused once a payment is settled, unless its identity
      and payload are stored already. */
  lemma {:induction false} ConflictingFold(db: Db, provider: Provider, es: seq<Evidence>, txId: Uuid, id: Uuid, succeeded: bool)
    requires id in db.payments && db.payments[id].status !in {PENDING, if succeeded then SUCCEEDED else FAILED}
    requires Uniform(Elems(es), id, succeeded)
    ensures SettleAll(db, provider, es, txId) ==
              if forall e :: e in Elems(es) ==> AlreadyStored(db, provider, e) then Some(db) else None
    decreases |es|
  {
    if es != [] {
      assert Elems(es) == {es[0]} + Elems(es[1..]) by { assert es == [es[0]] + es[1..]; }
      ConflictingCallback(db, provider, es[0], txId);
      ConflictingFold(db, provider, es[1..], txId, id, succeeded);
      if forall e :: e in Elems(es[1..]) ==> AlreadyStored(db, provider, e) {
        assert AlreadyStored(db, provider, es[0]) ==> forall e :: e in Elems(es) ==> AlreadyStored(db, provider, e);
      }
    }
  }

  ghost predicate AlreadyStored(db: Db, provider: Provider, e: Evidence)
    requires e.reference in db.payments
  {
    Matches(db.payments[e.reference], provider, e) && Key(provider, e) in db.events && Repeats(db.events, provider, e)
  }

  lemma ConflictingCallback(db: Db, provider: Provider, e: Evidence, txId: Uuid)
    requires e.reference in db.payments
    requires db.payments[e.reference].status != PENDING && db.payments[e.reference].status != OutcomeOf(e)
    ensures var outcome := PlanSettle(db, provider, e, txId);
            if AlreadyStored(db, provider, e) then outcome.Commit? && Apply(db, outcome.writes) == db else outcome.Rollback?
  {
    Untouched(db, NOTHING);
  }

  /** Callbacks for one payment with one outcome: any order and any repetition of the same set
      is accepted or refused alike, and leaves the same tables, balances and events included. */
  lemma OrderAndRepetitionDoNotMatter(db: Db, provider: Provider, es: seq<Evidence>, fs: seq<Evidence>, txId: Uuid, id: Uuid, succeeded: bool)
    requires RowsIntact(db) && id in db.payments && es != []
    requires Elems(es) == Elems(fs) && Uniform(Elems(es), id, succeeded)
    ensures SettleAll(db, provider, es, txId) == SettleAll(db, provider, fs, txId)
  {
    assert es[0] in Elems(fs);
    var status := db.payments[id].status;
    if status == PENDING {
      PendingFold(db, provider, es, txId, id, succeeded);
      PendingFold(db, provider, fs, txId, id, succeeded);
    } else if status == (if succeeded then SUCCEEDED else FAILED) {
      SettledFold(db, provider, es, txId, id, succeeded);
      SettledFold(db, provider, fs, txId, id, succeeded);
    } else {
      ConflictingFold(db, provider, es, txId, id, succeeded);
      ConflictingFold(db, provider, fs, txId, id, succeeded);
    }
  }
}
