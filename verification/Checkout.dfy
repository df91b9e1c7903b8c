/** Paystack checkout: a durable claim, committed before the provider is called, makes the call
    happen at most once per payment and its URL the only one ever returned. */
module Checkout {
  import opened Domain

  /** The claim row: without a URL, or with the one it acquired. */
  type Claims = map<Uuid, Option<string>>

  const PREFIX := "https://checkout.paystack.com/"

  predicate UrlCharacter(c: char) {
    'A' <= c <= 'Z' || 'a' <= c <= 'z' || '0' <= c <= '9' || c == '_' || c == '-'
  }

  /** The column's type and CHECK. */
  predicate ValidUrl(u: string) {
    && |PREFIX| < |u| <= 512 && u[..|PREFIX|] == PREFIX
    && forall i :: |PREFIX| <= i < |u| ==> UrlCharacter(u[i])
  }

  /** The trigger: a claim starts empty, and acquires a URL once. */
  predicate MayInsert(claims: Claims, paystack: set<Uuid>, p: Uuid, url: Option<string>) {
    p !in claims && url.None? && p in paystack
  }

  predicate MayUpdate(claims: Claims, p: Uuid, url: Option<string>) {
    p in claims && claims[p].None? && url.Some? && ValidUrl(url.value)
  }

  // ---------------------------------------------------------------- concurrent calls

  datatype Phase = Claiming | Calling | Storing(url: string) | Reading

  datatype Call = Call(payment: Uuid, phase: Phase)

  /** `initialized` lists the provider calls made, `answers` the URLs returned to callers. */
  datatype World = World(paystack: set<Uuid>, claims: Claims, calls: map<nat, Call>,
                         initialized: seq<Uuid>, answers: set<(Uuid, string)>)

  datatype Event =
    | Intended(payment: Uuid)
    | Entered(call: nat, payment: Uuid)
    | ClaimedBy(call: nat)
    | Asked(call: nat, answer: Option<string>)   // the provider call: a URL, or a failure or lost response
    | StoredBy(call: nat)
    | ReadBy(call: nat)
    | Crashed(call: nat)

  ghost predicate In(w: World, c: nat, phase: Phase) {
    c in w.calls && w.calls[c].phase == phase
  }

  ghost predicate Enabled(w: World, e: Event) {
    match e
    case Intended(_) => true
    case Entered(c, p) => c !in w.calls && p in w.paystack
    case ClaimedBy(c) => In(w, c, Claiming)
    case Asked(c, _) => In(w, c, Calling)
    case StoredBy(c) => c in w.calls && w.calls[c].phase.Storing?
    case ReadBy(c) => In(w, c, Reading) && w.calls[c].payment in w.claims
    case Crashed(c) => c in w.calls
  }

  ghost function Next(w: World, e: Event): World
    requires Enabled(w, e)
  {
    match e
    case Intended(p) => w.(paystack := w.paystack + {p})
    case Entered(c, p) => w.(calls := w.calls[c := Call(p, Claiming)])
    case ClaimedBy(c) =>
      var p := w.calls[c].payment;
      if MayInsert(w.claims, w.paystack, p, None)
      then w.(claims := w.claims[p := None], calls := w.calls[c := Call(p, Calling)])
      else w.(calls := w.calls[c := Call(p, Reading)])
    case Asked(c, answer) =>
      var p := w.calls[c].payment;
      w.(initialized := w.initialized + [p],
         calls := if answer.Some? then w.calls[c := Call(p, Storing(answer.value))] else w.calls - {c})
    case StoredBy(c) =>
      var p, url := w.calls[c].payment, w.calls[c].phase.url;
      if MayUpdate(w.claims, p, Some(url))
      then w.(claims := w.claims[p := Some(url)], calls := w.calls - {c}, answers := w.answers + {(p, url)})
      else w.(calls := w.calls - {c})
    case ReadBy(c) =>
      var p := w.calls[c].payment;
      w.(calls := w.calls - {c}, answers := if w.claims[p].Some? then w.answers + {(p, w.claims[p].value)} else w.answers)
    case Crashed(c) => w.(calls := w.calls - {c})
  }

  // ---------------------------------------------------------------- the invariant

  /** The call made the claim and has not yet stored a URL. */
  predicate Owns(c: Call, p: Uuid) {
    c.payment == p && (c.phase == Calling || c.phase.Storing?)
  }

  ghost predicate CallIntact(w: World, c: nat)
    requires c in w.calls
  {
    var call := w.calls[c];
    && call.payment in w.paystack
    && (Owns(call, call.payment) || call.phase == Reading ==> call.payment in w.claims)
    && (Owns(call, call.payment) ==> w.claims[call.payment].None?)
    && (call.phase == Calling ==> call.payment !in w.initialized)
  }

  ghost predicate Intact(w: World) {
    && (forall c :: c in w.calls ==> CallIntact(w, c))
    && OneOwner(w)
    && (forall i, j :: 0 <= i < j < |w.initialized| ==> w.initialized[i] != w.initialized[j])
    && (forall p :: p in w.initialized ==> p in w.claims)
    && (forall p :: p in w.claims && w.claims[p].Some? ==> p in w.initialized && ValidUrl(w.claims[p].value))
    && (forall c, p :: c in w.calls && w.calls[c].phase.Storing? && w.calls[c].payment == p ==> p in w.initialized)
    && (forall p, u :: (p, u) in w.answers ==> p in w.claims && w.claims[p] == Some(u))
  }

  lemma StepKeepsCalls(w: World, e: Event, c: nat)
    requires Intact(w) && Enabled(w, e) && c in Next(w, e).calls
    ensures CallIntact(Next(w, e), c)
  {
    if c in w.calls { assert CallIntact(w, c); }
    if e.ClaimedBy? { assert CallIntact(w, e.call); }
  }

  /** At most one call has made the claim of a payment and not yet stored a URL. */
  ghost predicate OneOwner(w: World) {
    forall c, d, p :: c in w.calls && d in w.calls && Owns(w.calls[c], p) && Owns(w.calls[d], p) ==> c == d
  }

  lemma StepKeepsOneOwner(w: World, e: Event)
    requires (forall c :: c in w.calls ==> CallIntact(w, c)) && OneOwner(w) && Enabled(w, e)
    ensures OneOwner(Next(w, e))
  {
    forall c | c in w.calls ensures Owns(w.calls[c], w.calls[c].payment) ==> w.calls[c].payment in w.claims { assert CallIntact(w, c); }
  }

  lemma StepKeepsIntact(w: World, e: Event)
    requires Intact(w) && Enabled(w, e)
    ensures Intact(Next(w, e))
  {
    StepKeepsOneOwner(w, e);
    forall c | c in Next(w, e).calls ensures CallIntact(Next(w, e), c) { StepKeepsCalls(w, e, c); }
    if e.Asked? || e.ClaimedBy? { assert CallIntact(w, e.call); }
  }

  ghost predicate Stepped(w: World, after: World) {
    exists e :: Enabled(w, e) && after == Next(w, e)
  }

  ghost predicate StepsAt(ws: seq<World>, i: nat)
    requires i + 1 < |ws|
  {
    Stepped(ws[i], ws[i + 1])
  }

  ghost predicate Run(ws: seq<World>) {
    && |ws| > 0 && Intact(ws[0])
    && (forall i :: 0 <= i < |ws| - 1 ==> StepsAt(ws, i))
  }

  lemma {:induction false} RunStaysIntact(ws: seq<World>, i: nat)
    requires Run(ws) && i < |ws|
    ensures Intact(ws[i])
  {
    if i > 0 {
      RunStaysIntact(ws, i - 1);
      assert StepsAt(ws, i - 1);
      var e :| Enabled(ws[i - 1], e) && ws[i] == Next(ws[i - 1], e);
      StepKeepsIntact(ws[i - 1], e);
    }
  }

  /** Whatever calls run, repeat, fail or crash, Paystack is asked at most once per payment. */
  lemma InitializedAtMostOnce(ws: seq<World>, i: nat, x: nat, y: nat)
    requires Run(ws) && i < |ws| && x < y < |ws[i].initialized|
    ensures ws[i].initialized[x] != ws[i].initialized[y]
  {
    RunStaysIntact(ws, i);
  }

  lemma StepKeepsAnswers(w: World, e: Event, p: Uuid, u: string)
    requires Enabled(w, e) && (p, u) in w.answers
    ensures (p, u) in Next(w, e).answers
  {}

  lemma {:induction false} AnswersStay(ws: seq<World>, i: nat, j: nat, p: Uuid, u: string)
    requires Run(ws) && i <= j < |ws| && (p, u) in ws[i].answers
    ensures (p, u) in ws[j].answers
  {
    if i < j {
      AnswersStay(ws, i, j - 1, p, u);
      assert StepsAt(ws, j - 1);
      var e :| Enabled(ws[j - 1], e) && ws[j] == Next(ws[j - 1], e);
      StepKeepsAnswers(ws[j - 1], e, p, u);
    }
  }

  /** All calls that return a checkout URL for a payment, now or later, return the same valid
      one, and the provider was asked for it. */
  lemma OneCheckoutUrl(ws: seq<World>, i: nat, j: nat, p: Uuid, u: string, v: string)
    requires Run(ws) && i <= j < |ws| && (p, u) in ws[i].answers && (p, v) in ws[j].answers
    ensures u == v && ValidUrl(u) && p in ws[j].initialized
  {
    AnswersStay(ws, i, j, p, u);
    RunStaysIntact(ws, j);
  }

  lemma StepKeepsUrl(w: World, e: Event, p: Uuid)
    requires Enabled(w, e) && p in w.claims && w.claims[p].Some?
    ensures p in Next(w, e).claims && Next(w, e).claims[p] == w.claims[p]
  {}

  lemma {:induction false} UrlsStay(ws: seq<World>, i: nat, j: nat, p: Uuid)
    requires Run(ws) && i <= j < |ws| && p in ws[i].claims && ws[i].claims[p].Some?
    ensures p in ws[j].claims && ws[j].claims[p] == ws[i].claims[p]
  {
    if i < j {
      UrlsStay(ws, i, j - 1, p);
      assert StepsAt(ws, j - 1);
      var e :| Enabled(ws[j - 1], e) && ws[j] == Next(ws[j - 1], e);
      StepKeepsUrl(ws[j - 1], e, p);
    }
  }

  /** Once a URL is stored, every repeated call that reads the claim, however much later, is answered
      with that URL. */
  lemma StoredUrlIsAnswered(ws: seq<World>, i: nat, j: nat, c: nat, url: string)
    requires Run(ws) && i <= j && j + 1 < |ws| && Enabled(ws[j], ReadBy(c)) && ws[j + 1] == Next(ws[j], ReadBy(c))
    requires ws[j].calls[c].payment in ws[i].claims && ws[i].claims[ws[j].calls[c].payment] == Some(url)
    ensures (ws[j].calls[c].payment, url) in ws[j + 1].answers
  {
    UrlsStay(ws, i, j, ws[j].calls[c].payment);
  }

  // ---------------------------------------------------------------- the service

  datatype Response = Url(url: string) | Unavailable

  /** A call may die after any of its commits. */
  datatype Fate = Survives | DiesOnceClaimed | DiesOnceAnswered

  /** Claims others make or complete meanwhile. */
  ghost predicate Progress(claims: Claims, later: Claims) {
    forall p :: p in claims ==> p in later && (claims[p].Some? ==> later[p] == claims[p])
  }

  lemma RunGoesOn(ws: seq<World>, e: Event) returns (more: seq<World>)
    requires Run(ws) && Enabled(ws[|ws| - 1], e)
    ensures Run(more) && |more| == |ws| + 1 && more[0] == ws[0] && more[|ws|] == Next(ws[|ws| - 1], e)
  {
    more := ws + [Next(ws[|ws| - 1], e)];
    forall i | 0 <= i < |more| - 1 ensures StepsAt(more, i) {
      if i < |ws| - 1 { assert StepsAt(ws, i); } else { assert Stepped(ws[i], Next(ws[i], e)); }
    }
  }

  ghost predicate Leads(w: World, u: World) {
    exists ws :: Run(ws) && ws[0] == w && ws[|ws| - 1] == u
  }

  /** The call of `InitializePaystack` is a run of the concurrent calls in which only this one acts, up
      to the answer it gives and the URL it stores: every statement about runs holds of it. */
  lemma CallIsARun(w: World, c: nat, p: Uuid, answer: Option<string>, fate: Fate)
    requires Intact(w) && p in w.paystack && c !in w.calls
    ensures p in w.claims ==> Leads(w, w.(answers := if w.claims[p].Some? then w.answers + {(p, w.claims[p].value)} else w.answers))
    ensures p !in w.claims ==>
              var stored := fate == Survives && answer.Some? && ValidUrl(answer.value);
              Leads(w, w.(claims := w.claims[p := if stored then answer else None],
                          initialized := if fate == DiesOnceClaimed then w.initialized else w.initialized + [p],
                          answers := if stored then w.answers + {(p, answer.value)} else w.answers))
  {
    hide Intact, ValidUrl;
    var ws := RunGoesOn([w], Entered(c, p));
    ws := RunGoesOn(ws, ClaimedBy(c));
    if p in w.claims { ws := RunGoesOn(ws, ReadBy(c)); }
    else if fate == DiesOnceClaimed { ws := RunGoesOn(ws, Crashed(c)); }
    else {
      ws := RunGoesOn(ws, Asked(c, answer));
      if answer.Some? { ws := RunGoesOn(ws, if fate == Survives then StoredBy(c) else Crashed(c)); }
    }
    assert ws[|ws| - 1].calls == w.calls;
    assert Leads(w, ws[|ws| - 1]);
  }

  class CheckoutService {
    var paystack: set<Uuid>
    var claims: Claims
    var initialized: seq<Uuid>

    constructor (paystack: set<Uuid>)
      ensures this.paystack == paystack && claims == map[] && initialized == []
    {
      this.paystack, claims, initialized := paystack, map[], [];
    }

    /** `answer` is what the provider would return; it is asked only after the claim commits, and
        only by the call that made it. `later` are the claims when a call that lost reads the
        winner's. A URL is returned only once it is stored; None is a call that died. */
    method InitializePaystack(p: Uuid, answer: Option<string>, fate: Fate, later: Claims) returns (r: Option<Response>)
      requires p in paystack && Progress(claims, later)
      modifies this`claims, this`initialized
      ensures Progress(old(claims), claims) && p in claims
      ensures initialized == if p in old(claims) || fate == DiesOnceClaimed then old(initialized) else old(initialized) + [p]
      ensures r.Some? && r.value.Url? ==> claims[p] == Some(r.value.url)
      ensures p in old(claims) ==>
                claims == later && r == Some(if later[p].Some? then Url(later[p].value) else Unavailable)
      ensures p !in old(claims) ==>
                var stored := fate == Survives && answer.Some? && ValidUrl(answer.value);
                && claims == old(claims)[p := if stored then answer else None]
                && r == if fate != Survives then None else if stored then Some(Url(answer.value)) else Some(Unavailable)
    {
      if p in claims {
        claims := later;
        match claims[p] {
          case None => return Some(Unavailable);
          case Some(url) => return Some(Url(url));
        }
      }
      claims := claims[p := None];
      if fate == DiesOnceClaimed { return None; }
      initialized := initialized + [p];
      if fate == DiesOnceAnswered { return None; }
      assert claims[p := None] == claims;
      if answer.None? || !MayUpdate(claims, p, answer) { return Some(Unavailable); }
      claims := claims[p := answer];
      return Some(Url(answer.value));
    }
  }
}
