/**
  Single-flight token refresh of auth-utils.ts within one page: an event loop in which callers,
  responses, failures and other writers of the stored tokens interleave in any order.
 */
module TokenRefresh {
  import opened Common

  type Token = string

  /** How far a refresh request has come; the last three settle its promise. */
  datatype Phase = Sent | Reading | Stored(access: Token) | Refused | Failed

  datatype Request = Request(token: Token, phase: Phase)

  predicate Open(r: Request) {
    r.phase.Sent? || r.phase.Reading?
  }

  /** The module variables, the stored tokens and the promises made so far, each one a request. */
  datatype Page = Page(isRefreshing: bool, refreshPromise: Option<nat>, bearer: Option<Token>, refresh: Option<Token>,
                       requests: seq<Request>)

  datatype Pair = Pair(access: Token, refresh: Token)

  datatype Event =
    | Call(throws: bool)
    | Headers(p: nat, ok: bool)
    | Body(p: nat, pair: Pair)
    | Failure(p: nat)
    | Exchange(p: nat, pair: Pair)
    | SetBearer(token: Token)
    | SetRefresh(token: Token)
    | Clear

  /** A missing or an empty token counts as none. */
  predicate Truthy(t: Option<Token>) {
    t.Some? && t.value != ""
  }

  predicate Joins(s: Page) {
    s.isRefreshing && s.refreshPromise.Some?
  }

  predicate Starts(s: Page) {
    !Joins(s) && Truthy(s.refresh)
  }

  /** The promise a caller is given, if any; otherwise it gets null at once. */
  function Joined(s: Page): Option<nat> {
    if Joins(s) then s.refreshPromise else if Starts(s) then Some(|s.requests|) else None
  }

  function Settle(s: Page, p: nat, phase: Phase): Page
    requires p < |s.requests|
  {
    s.(requests := s.requests[p := s.requests[p].(phase := phase)],
       isRefreshing := phase.Reading? && s.isRefreshing,
       refreshPromise := if phase.Reading? then s.refreshPromise else None)
  }

  /** Events that can happen to the page: an answer needs an open request in the right phase. */
  predicate Enabled(s: Page, e: Event) {
    match e
    case Headers(p, _) => p < |s.requests| && s.requests[p].phase.Sent?
    case Body(p, _) => p < |s.requests| && s.requests[p].phase.Reading?
    case Failure(p) => p < |s.requests| && Open(s.requests[p])
    case Exchange(p, _) => p < |s.requests|
    case _ => true
  }

  function Step(s: Page, e: Event): Page
    requires Enabled(s, e)
  {
    match e
    case Call(throws) =>
      if !Starts(s) then s
      else s.(isRefreshing := !throws, refreshPromise := Some(|s.requests|),
              requests := s.requests + [Request(s.refresh.value, if throws then Failed else Sent)])
    case Headers(p, ok) =>
      if ok then Settle(s, p, Reading) else Settle(s, p, Refused).(bearer := None, refresh := None)
    case Body(p, pair) =>
      if pair.access != "" && pair.refresh != "" then
        Settle(s, p, Stored(pair.access)).(bearer := Some(pair.access), refresh := Some(pair.refresh))
      else Settle(s, p, Failed)
    case Failure(p) => Settle(s, p, Failed)
    case Exchange(_, _) => s
    case SetBearer(token) => s.(bearer := Some(token))
    case SetRefresh(token) => s.(refresh := Some(token))
    case Clear => s.(bearer := None, refresh := None)
  }

  // ---- the page as the program has it ----

  class AuthUtils {
    var isRefreshing: bool
    var refreshPromise: Option<nat>
    var bearer: Option<Token>
    var refresh: Option<Token>
    var requests: seq<Request>

    ghost function State(): Page
      reads this
    {
      Page(isRefreshing, refreshPromise, bearer, refresh, requests)
    }

    constructor (bearer: Option<Token>, refresh: Option<Token>)
      ensures State() == Page(false, None, bearer, refresh, [])
    {
      this.bearer, this.refresh := bearer, refresh;
      isRefreshing, refreshPromise, requests := false, None, [];
    }

    method ClearAllTokens()
      modifies this
      ensures State() == Step(old(State()), Clear)
    {
      bearer, refresh := None, None;
    }

    method SetRefreshToken(token: Token)
      modifies this
      ensures State() == Step(old(State()), SetRefresh(token))
    {
      refresh := Some(token);
    }

    method SetBearerToken(token: Token)
      modifies this
      ensures State() == Step(old(State()), SetBearer(token))
    {
      bearer := Some(token);
    }

    /** The `finally` block and the settling of the promise. */
    method Finally(p: nat, phase: Phase)
      requires p < |requests| && !phase.Reading?
      modifies this
      ensures State() == Settle(old(State()), p, phase)
    {
      isRefreshing := false;
      refreshPromise := None;
      requests := requests[p := requests[p].(phase := phase)];
    }

    /** `throws`: the request cannot even be issued, so `finally` runs before the promise is kept. */
    method RefreshAccessToken(throws: bool) returns (promise: Option<nat>)
      modifies this
      ensures promise == Joined(old(State()))
      ensures State() == Step(old(State()), Call(throws))
    {
      if isRefreshing && refreshPromise.Some? {
        return refreshPromise;
      }
      var current := refresh;
      if !Truthy(current) {
        return None;
      }
      isRefreshing := true;
      var started := |requests|;
      requests := requests + [Request(current.value, Sent)];
      if throws {
        Finally(started, Failed);
      }
      refreshPromise := Some(started);
      return refreshPromise;
    }

    method OnHeaders(p: nat, ok: bool)
      requires Enabled(State(), Headers(p, ok))
      modifies this
      ensures State() == Step(old(State()), Headers(p, ok))
    {
      if ok {
        requests := requests[p := requests[p].(phase := Reading)];
      } else {
        ClearAllTokens();
        Finally(p, Refused);
      }
    }

    method OnBody(p: nat, data: Pair)
      requires Enabled(State(), Body(p, data))
      modifies this
      ensures State() == Step(old(State()), Body(p, data))
    {
      if data.access != "" && data.refresh != "" {
        SetBearerToken(data.access);
        SetRefreshToken(data.refresh);
        Finally(p, Stored(data.access));
      } else {
        Finally(p, Failed);
      }
    }

    method OnFailure(p: nat)
      requires Enabled(State(), Failure(p))
      modifies this
      ensures State() == Step(old(State()), Failure(p))
    {
      Finally(p, Failed);
    }
  }

  // ---- the page and the server together ----

  /** What the server exchanged for each request, and every refresh token ever stored or issued. */
  datatype World = World(page: Page, exchanged: map<nat, Pair>, seen: set<Token>)

  /** Tokens that are stored or issued are new ones (or empty). */
  predicate Unused(w: World, t: Token) {
    t == "" || t !in w.seen
  }

  /**
    An answer with status ok comes after the exchange and its body holds the issued pair. The
    exchange may come late, after the page gave up, and the server need not refuse a spent token.
   */
  predicate Possible(w: World, e: Event) {
    Enabled(w.page, e) &&
    match e
    case Headers(p, ok) => ok ==> p in w.exchanged
    case Body(p, pair) => p in w.exchanged && w.exchanged[p] == pair
    case Exchange(p, pair) => p !in w.exchanged && Unused(w, pair.refresh)
    case SetRefresh(token) => Unused(w, token)
    case _ => true
  }

  function Next(w: World, e: Event): World
    requires Possible(w, e)
  {
    var page := Step(w.page, e);
    match e
    case Exchange(p, pair) => World(page, w.exchanged[p := pair], w.seen + {pair.refresh})
    case SetRefresh(token) => World(page, w.exchanged, w.seen + {token})
    case _ => w.(page := page)
  }

  predicate Initial(w: World) {
    w.page == Page(false, None, w.page.bearer, w.page.refresh, []) && w.exchanged == map[]
    && (Truthy(w.page.refresh) ==> w.page.refresh.value in w.seen)
  }

  predicate IsRun(w: World, events: seq<Event>)
    decreases |events|
  {
    events == [] || (Possible(w, events[0]) && IsRun(Next(w, events[0]), events[1..]))
  }

  function After(w: World, events: seq<Event>): World
    requires IsRun(w, events)
    decreases |events|
  {
    if events == [] then w else After(Next(w, events[0]), events[1..])
  }

  // ---- single flight ----

  /** The flag is up exactly while a request is open, which is then the newest and the kept promise. */
  ghost predicate SingleFlight(s: Page) {
    (s.isRefreshing ==>
      s.requests != [] && s.refreshPromise == Some(|s.requests| - 1) && Open(s.requests[|s.requests| - 1]))
    && (forall p :: 0 <= p < |s.requests| && Open(s.requests[p]) ==> s.isRefreshing && p == |s.requests| - 1)
  }

  lemma StepKeepsSingleFlight(s: Page, e: Event)
    requires SingleFlight(s) && Enabled(s, e)
    ensures SingleFlight(Step(s, e))
  {
  }

  // ---- tokens ----

  /** What is known of a request: its token, its answer, and that a stored or refused one is no longer in storage. */
  ghost predicate RequestOk(w: World, p: nat)
    requires p < |w.page.requests|
  {
    var r := w.page.requests[p];
    r.token != "" && r.token in w.seen
    && (r.phase.Reading? || r.phase.Stored? ==> p in w.exchanged)
    && (r.phase.Stored? ==> w.exchanged[p].access == r.phase.access)
    && (r.phase.Stored? || r.phase.Refused? ==> w.page.refresh != Some(r.token))
  }

  /** The token issued for an open request is a new one, not yet stored or sent. */
  ghost predicate IssuedIsNew(w: World, p: nat)
    requires p < |w.page.requests|
  {
    Open(w.page.requests[p]) && p in w.exchanged && w.exchanged[p].refresh != "" ==>
      w.page.refresh != Some(w.exchanged[p].refresh)
      && w.exchanged[p].refresh in w.seen
      && forall q :: 0 <= q < |w.page.requests| ==> w.page.requests[q].token != w.exchanged[p].refresh
  }

  /** A token is sent again only when the earlier request failed. */
  ghost predicate ResentAfterFailure(s: Page, p: nat, q: nat)
    requires p < q < |s.requests|
  {
    s.requests[p].token == s.requests[q].token ==> s.requests[p].phase.Failed?
  }

  ghost predicate Known(w: World) {
    (Truthy(w.page.refresh) ==> w.page.refresh.value in w.seen)
    && (forall p :: p in w.exchanged ==> p < |w.page.requests|)
  }

  ghost predicate RequestsOk(w: World) {
    forall p :: 0 <= p < |w.page.requests| ==> RequestOk(w, p)
  }

  ghost predicate IssuedAreNew(w: World) {
    forall p :: 0 <= p < |w.page.requests| ==> IssuedIsNew(w, p)
  }

  ghost predicate ResentOnlyAfterFailure(s: Page) {
    forall p, q :: 0 <= p < q < |s.requests| ==> ResentAfterFailure(s, p, q)
  }

  ghost predicate Invariant(w: World) {
    SingleFlight(w.page) && Known(w) && RequestsOk(w) && IssuedAreNew(w) && ResentOnlyAfterFailure(w.page)
  }

  lemma NextKeepsKnown(w: World, e: Event)
    requires Invariant(w) && Possible(w, e)
    ensures Known(Next(w, e))
  {
    if e.Body? {
      assert IssuedIsNew(w, e.p);
    }
  }

  lemma NextKeepsRequests(w: World, e: Event)
    requires Invariant(w) && Possible(w, e)
    ensures RequestsOk(Next(w, e))
  {
    var w' := Next(w, e);
    forall p | 0 <= p < |w'.page.requests|
      ensures RequestOk(w', p)
    {
      if p < |w.page.requests| {
        assert RequestOk(w, p);
        if e.Body? {
          assert IssuedIsNew(w, e.p);
        }
      }
    }
  }

  lemma NextKeepsIssued(w: World, e: Event)
    requires Invariant(w) && Possible(w, e)
    ensures IssuedAreNew(Next(w, e))
  {
    var w' := Next(w, e);
    forall p | 0 <= p < |w'.page.requests|
      ensures IssuedIsNew(w', p)
    {
      if p < |w.page.requests| {
        assert IssuedIsNew(w, p);
        if e.Exchange? && e.p == p {
          forall q | 0 <= q < |w.page.requests| && e.pair.refresh != ""
            ensures w.page.requests[q].token != e.pair.refresh
          {
            assert RequestOk(w, q);
          }
        }
      }
    }
  }

  lemma NextKeepsResent(w: World, e: Event)
    requires Invariant(w) && Possible(w, e)
    ensures ResentOnlyAfterFailure(Next(w, e).page)
  {
    var s, s' := w.page, Next(w, e).page;
    forall p, q | 0 <= p < q < |s'.requests|
      ensures ResentAfterFailure(s', p, q)
    {
      assert RequestOk(w, p);
      if q < |s.requests| {
        assert ResentAfterFailure(s, p, q);
      }
    }
  }

  lemma {:induction false} EveryRunKeepsInvariant(w: World, events: seq<Event>)
    requires Invariant(w) && IsRun(w, events)
    ensures Invariant(After(w, events))
    decreases |events|
  {
    if events != [] {
      var e := events[0];
      StepKeepsSingleFlight(w.page, e);
      NextKeepsKnown(w, e);
      NextKeepsRequests(w, e);
      NextKeepsIssued(w, e);
      NextKeepsResent(w, e);
      EveryRunKeepsInvariant(Next(w, e), events[1..]);
    }
  }

  // ---- the theorems, over every run ----

  ghost predicate Reachable(w: World) {
    exists w0, events :: Initial(w0) && IsRun(w0, events) && After(w0, events) == w
  }

  lemma ReachableIsInvariant(w: World)
    requires Reachable(w)
    ensures Invariant(w)
  {
    var w0, events :| Initial(w0) && IsRun(w0, events) && After(w0, events) == w;
    EveryRunKeepsInvariant(w0, events);
  }

  /**
    At most one request is in flight, and while one is every caller joins it and no request starts;
    when none is, a caller with a stored token starts one, so a failure never leaves the page stuck.
   */
  lemma OneRequestInFlight(w: World, p: nat, throws: bool)
    requires Reachable(w) && p < |w.page.requests|
    ensures Open(w.page.requests[p]) ==>
      (forall q :: 0 <= q < |w.page.requests| && Open(w.page.requests[q]) ==> q == p)
      && Joined(w.page) == Some(p) && Step(w.page, Call(throws)) == w.page
    ensures (forall q :: 0 <= q < |w.page.requests| ==> !Open(w.page.requests[q])) ==>
      Starts(w.page) == Truthy(w.page.refresh)
  {
    ReachableIsInvariant(w);
  }

  /** A settled promise never changes, so all callers that joined it see the same result. */
  lemma {:induction false} ResultsAreFinal(w: World, events: seq<Event>, p: nat)
    requires IsRun(w, events) && p < |w.page.requests|
    ensures p < |After(w, events).page.requests|
    ensures After(w, events).page.requests[p].token == w.page.requests[p].token
    ensures !Open(w.page.requests[p]) ==> After(w, events).page.requests[p] == w.page.requests[p]
    decreases |events|
  {
    if events != [] {
      ResultsAreFinal(Next(w, events[0]), events[1..], p);
    }
  }

  /** The server already exchanged this token. */
  ghost predicate Spent(w: World, t: Token) {
    exists p :: 0 <= p < |w.page.requests| && w.page.requests[p].token == t && p in w.exchanged
  }

  /** It did, but the page saw a failure instead of the issued pair. */
  ghost predicate ReplyLost(w: World, t: Token) {
    exists p :: 0 <= p < |w.page.requests| && w.page.requests[p].token == t && p in w.exchanged
      && w.page.requests[p].phase.Failed?
  }

  /** A stored token is spent exactly when the reply to an exchange of it was lost. */
  lemma SpentIsReplyLost(w: World)
    requires Reachable(w) && Starts(w.page)
    ensures Spent(w, w.page.refresh.value) <==> ReplyLost(w, w.page.refresh.value)
  {
    ReachableIsInvariant(w);
    if Spent(w, w.page.refresh.value) {
      var p :| 0 <= p < |w.page.requests| && w.page.requests[p].token == w.page.refresh.value && p in w.exchanged;
      assert RequestOk(w, p);
    }
  }

  /** The page saw a request with this token fail. */
  predicate SawFailure(s: Page, t: Token) {
    exists p :: 0 <= p < |s.requests| && s.requests[p].token == t && s.requests[p].phase.Failed?
  }

  /** The server issues no empty tokens. */
  predicate IssuesTokens(events: seq<Event>) {
    forall k :: 0 <= k < |events| && events[k].Exchange? ==> events[k].pair.access != "" && events[k].pair.refresh != ""
  }

  /** For all the page can tell, the token may be spent: something it did not notice may have spent it. */
  ghost predicate MayBeSpent(w: World, t: Token) {
    exists events ::
      IsRun(w, events) && IssuesTokens(events) && After(w, events).page == w.page && Spent(After(w, events), t)
  }

  /** There is always a token that was not seen. */
  lemma {:induction false} LengthBound(seen: set<Token>) returns (n: nat)
    ensures forall t :: t in seen ==> |t| <= n
    decreases seen
  {
    n := 0;
    if t :| t in seen {
      n := LengthBound(seen - {t});
      n := if |t| > n then |t| else n;
    }
  }

  function Repeat(n: nat): (t: Token)
    ensures |t| == n
  {
    if n == 0 then "" else Repeat(n - 1) + "x"
  }

  lemma {:induction false} RunsCompose(w: World, events: seq<Event>, more: seq<Event>)
    requires IsRun(w, events) && IsRun(After(w, events), more)
    ensures IsRun(w, events + more) && After(w, events + more) == After(After(w, events), more)
    decreases |events|
  {
    if events == [] {
      assert events + more == more;
    } else {
      assert (events + more)[1..] == events[1..] + more;
      RunsCompose(Next(w, events[0]), events[1..], more);
    }
  }

  lemma ReachableGoesOn(w: World, more: seq<Event>)
    requires Reachable(w) && IsRun(w, more)
    ensures Reachable(After(w, more))
  {
    var w0, events :| Initial(w0) && IsRun(w0, events) && After(w0, events) == w;
    RunsCompose(w0, events, more);
  }

  lemma RunOfOne(w: World, e: Event)
    requires Possible(w, e)
    ensures IsRun(w, [e]) && After(w, [e]) == Next(w, e)
  {
    assert [e][1..] == [];
    assert After(Next(w, e), []) == Next(w, e);
  }

  /** A failed request may have been exchanged, or may still be. */
  lemma FailedMayBeSpent(w: World, t: Token)
    requires SawFailure(w.page, t)
    ensures MayBeSpent(w, t)
  {
    var p :| 0 <= p < |w.page.requests| && w.page.requests[p].token == t && w.page.requests[p].phase.Failed?;
    if p in w.exchanged {
      assert IsRun(w, []) && After(w, []) == w;
    } else {
      var n := LengthBound(w.seen);
      var issued := Repeat(n + 1);
      assert issued !in w.seen && issued != "";
      var late := Exchange(p, Pair("x", issued));
      var w1 := Next(w, late);
      RunOfOne(w, late);
      assert w1.page.requests[p].token == t && p in w1.exchanged;
      assert IssuesTokens([late]) && Spent(After(w, [late]), t);
    }
  }

  /** A starting request may carry a spent token exactly when the page saw a request with the stored token fail. */
  lemma SpentTokenIsSentExactly(w: World)
    requires Reachable(w) && Starts(w.page)
    ensures SawFailure(w.page, w.page.refresh.value) <==> MayBeSpent(w, w.page.refresh.value)
  {
    var t := w.page.refresh.value;
    if MayBeSpent(w, t) {
      var events :| IsRun(w, events) && IssuesTokens(events) && After(w, events).page == w.page
        && Spent(After(w, events), t);
      ReachableGoesOn(w, events);
      SpentIsReplyLost(After(w, events));
    }
    if SawFailure(w.page, t) {
      FailedMayBeSpent(w, t);
    }
  }

  /** Unless a request fails, no token is sent twice. */
  lemma TokensAreSentOnce(w: World, p: nat, q: nat)
    requires Reachable(w) && p < q < |w.page.requests| && !w.page.requests[p].phase.Failed?
    ensures w.page.requests[p].token != w.page.requests[q].token
  {
    ReachableIsInvariant(w);
    assert ResentAfterFailure(w.page, p, q);
  }

  /** A successful result is the access token the server issued for that very request. */
  lemma ResultIsTheIssuedToken(w: World, p: nat)
    requires Reachable(w) && p < |w.page.requests| && w.page.requests[p].phase.Stored?
    ensures p in w.exchanged && w.exchanged[p].access == w.page.requests[p].phase.access
  {
    ReachableIsInvariant(w);
    assert RequestOk(w, p);
  }

  /**
    Settling is all or nothing for the stored tokens: success stores exactly the pair issued for this
    request and hands its access token to every joiner, a refusal clears both, a failure keeps both.
   */
  lemma SettlingStoresThePair(w: World, e: Event, p: nat)
    requires Reachable(w) && Possible(w, e) && p < |w.page.requests|
    requires Open(w.page.requests[p]) && !Open(Next(w, e).page.requests[p])
    ensures var s := Next(w, e).page;
      match s.requests[p].phase
      case Stored(access) => p in w.exchanged && s.bearer == Some(access) && access == w.exchanged[p].access
                             && s.refresh == Some(w.exchanged[p].refresh)
      case Refused => s.bearer == None && s.refresh == None
      case _ => s.bearer == w.page.bearer && s.refresh == w.page.refresh
  {
    ReachableIsInvariant(w);
  }

  /** A reply that lacks a token stores nothing and settles with null; a complete one is stored. */
  lemma OnlyCompletePairsAreStored(w: World, p: nat, pair: Pair)
    requires Reachable(w) && Possible(w, Body(p, pair))
    ensures var s := Next(w, Body(p, pair)).page;
      if pair.access == "" || pair.refresh == "" then
        s.requests[p].phase == Failed && s.bearer == w.page.bearer && s.refresh == w.page.refresh
      else
        s.requests[p].phase == Stored(pair.access) && s.bearer == Some(pair.access) && s.refresh == Some(pair.refresh)
  {
    ReachableIsInvariant(w);
  }

  /** An answer that is not ok clears both tokens, one that is ok changes none yet, and a failure changes none. */
  lemma AnswersDecide(w: World, p: nat)
    requires Reachable(w)
    ensures Possible(w, Headers(p, false)) ==>
      var s := Next(w, Headers(p, false)).page;
      s.requests[p].phase == Refused && s.bearer == None && s.refresh == None
    ensures Possible(w, Headers(p, true)) ==>
      var s := Next(w, Headers(p, true)).page;
      s.requests[p].phase == Reading && s.bearer == w.page.bearer && s.refresh == w.page.refresh
    ensures Possible(w, Failure(p)) ==>
      var s := Next(w, Failure(p)).page;
      s.requests[p].phase == Failed && s.bearer == w.page.bearer && s.refresh == w.page.refresh
  {
    ReachableIsInvariant(w);
  }

  /** A caller that finds no request open starts one with the stored token and is given its promise, or null without. */
  lemma CallerGetsItsPromise(w: World)
    requires Reachable(w) && forall q :: 0 <= q < |w.page.requests| ==> !Open(w.page.requests[q])
    ensures var s, stored := w.page, w.page.refresh;
      if stored.Some? && stored.value != "" then
        && Joined(s) == Some(|s.requests|)
        && Step(s, Call(false)).requests == s.requests + [Request(stored.value, Sent)]
        && Step(s, Call(true)).requests == s.requests + [Request(stored.value, Failed)]
      else Joined(s) == None && Step(s, Call(false)) == s == Step(s, Call(true))
  {
    ReachableIsInvariant(w);
  }

  /** The next request carries the refresh token stored last, and none starts after both were cleared. */
  lemma WritersDecideTheNextToken(w: World, t: Token)
    requires Reachable(w) && t != "" && forall q :: 0 <= q < |w.page.requests| ==> !Open(w.page.requests[q])
    ensures var s := Step(Step(w.page, SetRefresh(t)), Call(false));
      s.requests == w.page.requests + [Request(t, Sent)] && s.bearer == w.page.bearer
    ensures Step(Step(w.page, Clear), Call(false)).requests == w.page.requests
    ensures Step(w.page, Clear).bearer == None && Step(w.page, Clear).refresh == None
    ensures Step(w.page, SetBearer(t)).bearer == Some(t) && Step(w.page, SetBearer(t)).refresh == w.page.refresh
  {
    ReachableIsInvariant(w);
  }

  /** The promise of no replay is false when a reply is lost: the same token goes out twice. */
  lemma LostReplyResendsSpentToken(t: Token, pair: Pair)
    requires t != "" && pair.refresh != "" && pair.refresh != t
    ensures var w0 := World(Page(false, None, None, Some(t), []), map[], {t});
            var events := [Call(false), Exchange(0, pair), Failure(0)];
            Initial(w0) && IsRun(w0, events) && Starts(After(w0, events).page) && Spent(After(w0, events), t)
            && After(w0, events).page.refresh == Some(t)
  {
    var w0 := World(Page(false, None, None, Some(t), []), map[], {t});
    var w1 := Next(w0, Call(false));
    var w2 := Next(w1, Exchange(0, pair));
    var w3 := Next(w2, Failure(0));
    assert After(w3, []) == w3;
    assert IsRun(w2, [Failure(0)]) && After(w2, [Failure(0)]) == w3;
    var two := [Exchange(0, pair), Failure(0)];
    assert two[1..] == [Failure(0)];
    assert IsRun(w1, two) && After(w1, two) == w3;
    var three := [Call(false), Exchange(0, pair), Failure(0)];
    assert three[1..] == two;
    assert w3.page.requests[0].token == t && 0 in w3.exchanged;
  }
}
