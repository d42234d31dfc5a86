/** What every run of the browser client keeps: one refresh at a time, one retry a request, no stale timer. */
module ClientSafety {
  import opened Basics
  import opened ClientRefresh

  predicate Unsettled(r: Refresh) {
    r.Pending? || r.Stored? || r.Failing?
  }

  /** The unsettled refreshes are exactly the one `refreshPromise` holds. */
  predicate RefreshSound(s: State, p: nat)
    requires p < |s.refreshes|
  {
    Unsettled(s.refreshes[p]) <==> s.current == Some(p)
  }

  /** Sent once, or twice after a refresh that gave it a token; requests to the auth endpoints never wait for one. */
  predicate RequestSound(refreshes: seq<Refresh>, r: Request) {
    && r.sends == (if r.granted.Some? then 2 else 1)
    && (r.retried <==> r.via.Some?)
    && (r.auth ==> !r.retried)
    && (r.via.Some? ==> r.via.value < |refreshes|)
    && (r.granted.Some? ==> r.via.Some? && refreshes[r.via.value] == Resolved(r.granted.value))
    && (r.progress.Waiting? ==> r.retried && r.granted.None?)
    && (r.progress.InFlight? && r.retried ==> r.granted.Some?)
  }

  /** A timer belongs to the token in the store and fires no later than the skew before its expiry. */
  predicate TimerSound(s: State) {
    s.timer.Some? ==>
      && s.token == Some(s.timer.value.token)
      && s.timer.value.token.exp.Some?
      && s.timer.value.fireAt <= s.timer.value.token.exp.value * 1000 - REFRESH_SKEW_MS
  }

  predicate Core(s: State) {
    && (s.current.Some? ==> s.current.value < |s.refreshes|)
    && (forall p: nat :: p < |s.refreshes| ==> RefreshSound(s, p))
    && (forall r :: r in s.requests ==> RequestSound(s.refreshes, r))
  }

  predicate Valid(s: State) {
    Core(s) && TimerSound(s)
  }

  // ---- Preservation -----------------------------------------------------------------------------------------

  /** Settled refreshes never change and none disappears. */
  predicate Extends(a: seq<Refresh>, b: seq<Refresh>) {
    |a| <= |b| && forall p :: 0 <= p < |a| && !Unsettled(a[p]) ==> b[p] == a[p]
  }

  lemma RequestsStaySound(s: State, refreshes: seq<Refresh>)
    requires Core(s) && Extends(s.refreshes, refreshes)
    ensures forall r :: r in s.requests ==> RequestSound(refreshes, r)
  {
  }

  lemma RefreshKeepsCore(s: State)
    requires Core(s)
    ensures var (next, p) := RefreshAccessToken(s);
            && Core(next) && p < |next.refreshes| && next.current == Some(p)
            && Extends(s.refreshes, next.refreshes)
            && next.requests == s.requests && next.token == s.token && next.timer == s.timer
  {
    var (next, p) := RefreshAccessToken(s);
    RequestsStaySound(s, next.refreshes);
    if s.current.None? {
      forall q: nat | q < |next.refreshes| ensures RefreshSound(next, q) {
        assert q < |s.refreshes| ==> RefreshSound(s, q);
      }
    }
  }

  lemma RunRefreshKeepsValid(s: State)
    requires Valid(s)
    ensures Valid(RunRefresh(s)) && Extends(s.refreshes, RunRefresh(s).refreshes)
  {
    RefreshKeepsCore(s);
    var (next, p) := RefreshAccessToken(s);
    var watching := RunRefresh(s);
    forall q: nat | q < |watching.refreshes| ensures RefreshSound(watching, q) {
      assert RefreshSound(next, q);
    }
  }

  lemma SetTokenKeepsValid(s: State, token: Option<Token>)
    requires Core(s) && (token == s.token ==> TimerSound(s))
    ensures Valid(SetToken(s, token)) && Extends(s.refreshes, SetToken(s, token).refreshes)
  {
    if token != s.token {
      var cleared := s.(token := token, timer := None);
      forall q: nat | q < |cleared.refreshes| ensures RefreshSound(cleared, q) {
        assert RefreshSound(s, q);
      }
      RunRefreshKeepsValid(cleared);
      var next := SetToken(s, token);
      if next.timer.Some? {
        forall q: nat | q < |next.refreshes| ensures RefreshSound(next, q) {
          assert RefreshSound(s, q);
        }
      }
    }
  }

  /** Replacing one request by a sound one. */
  lemma RequestUpdateKeepsValid(s: State, i: nat, r: Request)
    requires Valid(s) && i < |s.requests| && RequestSound(s.refreshes, r)
    ensures Valid(s.(requests := s.requests[i := r]))
  {
    var next := s.(requests := s.requests[i := r]);
    forall q: nat | q < |next.refreshes| ensures RefreshSound(next, q) {
      assert RefreshSound(s, q);
    }
  }

  lemma RespondKeepsValid(s: State, i: nat, answer: Answer)
    requires Valid(s)
    ensures Valid(RespondStep(s, i, answer)) && Extends(s.refreshes, RespondStep(s, i, answer).refreshes)
  {
    if i < |s.requests| && s.requests[i].progress.InFlight? {
      var r := s.requests[i];
      assert r in s.requests;
      if answer.Unauthorized? && !r.retried && !r.auth {
        RefreshKeepsCore(s);
        var (next, p) := RefreshAccessToken(s);
        RequestUpdateKeepsValid(next, i, r.(retried := true, via := Some(p), progress := Waiting));
      } else {
        RequestUpdateKeepsValid(s, i, r.(progress := Done));
        SetTokenKeepsValid(s.(requests := s.requests[i := r.(progress := Done)]), None);
      }
    }
  }

  lemma RefreshUpdateKeepsCore(s: State, p: nat, r: Refresh)
    requires Core(s) && p < |s.refreshes| && Unsettled(s.refreshes[p])
    ensures Unsettled(r) ==> Core(s.(refreshes := s.refreshes[p := r]))
    ensures !Unsettled(r) ==> Core(s.(refreshes := s.refreshes[p := r], current := None))
  {
    var refreshes := s.refreshes[p := r];
    assert RefreshSound(s, p);
    RequestsStaySound(s, refreshes);
    var next := if Unsettled(r) then s.(refreshes := refreshes) else s.(refreshes := refreshes, current := None);
    forall q: nat | q < |refreshes| ensures RefreshSound(next, q) {
      assert RefreshSound(s, q);
    }
  }

  lemma ReplyKeepsValid(s: State, p: nat, outcome: Outcome)
    requires Valid(s)
    ensures Valid(ReplyStep(s, p, outcome)) && Extends(s.refreshes, ReplyStep(s, p, outcome).refreshes)
  {
    if p < |s.refreshes| && s.refreshes[p].Pending? {
      match outcome {
        case Granted(t) =>
          RefreshUpdateKeepsCore(s, p, Stored(t));
          SetTokenKeepsValid(s.(refreshes := s.refreshes[p := Stored(t)]), Some(t));
        case Refused =>
          RefreshUpdateKeepsCore(s, p, Failing);
          SetTokenKeepsValid(s.(refreshes := s.refreshes[p := Failing]), None);
        case Broken =>
          RefreshUpdateKeepsCore(s, p, Failing);
      }
    }
  }

  lemma SettleKeepsValid(s: State, p: nat)
    requires Valid(s)
    ensures Valid(SettleStep(s, p)) && Extends(s.refreshes, SettleStep(s, p).refreshes)
  {
    if p < |s.refreshes| {
      match s.refreshes[p] {
        case Stored(t) => RefreshUpdateKeepsCore(s, p, Resolved(t));
        case Failing => RefreshUpdateKeepsCore(s, p, Rejected);
        case _ =>
      }
    }
  }

  lemma WakeKeepsValid(s: State, i: nat)
    requires Valid(s)
    ensures Valid(WakeStep(s, i)) && Extends(s.refreshes, WakeStep(s, i).refreshes)
  {
    if i < |s.requests| && s.requests[i].progress.Waiting? {
      var r := s.requests[i];
      assert r in s.requests;
      match s.refreshes[r.via.value] {
        case Resolved(t) =>
          RequestUpdateKeepsValid(s, i, r.(sends := r.sends + 1, progress := InFlight, granted := Some(t),
                                           bearer := Bearer(s, Some(t))));
        case Rejected =>
          RequestUpdateKeepsValid(s, i, r.(progress := Done));
          SetTokenKeepsValid(s.(requests := s.requests[i := r.(progress := Done)]), None);
        case _ =>
      }
    }
  }

  /** Fields the invariant does not read may change freely. */
  lemma OtherFieldsKeepValid(s: State, next: State)
    requires Valid(s)
    requires next.refreshes == s.refreshes && next.current == s.current && next.requests == s.requests
    requires next.token == s.token
    requires next.timer == s.timer || (s.timer.Some? && next.timer == Some(s.timer.value.(fired := true)))
    ensures Valid(next)
  {
    forall q: nat | q < |next.refreshes| ensures RefreshSound(next, q) {
      assert RefreshSound(s, q);
    }
  }

  lemma StepKeepsValid(s: State, e: Event)
    requires Valid(s)
    ensures Valid(Step(s, e)) && Extends(s.refreshes, Step(s, e).refreshes)
  {
    match e {
      case Send(auth) =>
        var next := SendStep(s, auth);
        forall q: nat | q < |next.refreshes| ensures RefreshSound(next, q) {
          assert RefreshSound(s, q);
        }
      case Respond(i, answer) => RespondKeepsValid(s, i, answer);
      case Reply(p, outcome) => ReplyKeepsValid(s, p, outcome);
      case Settle(p) => SettleKeepsValid(s, p);
      case Wake(i) => WakeKeepsValid(s, i);
      case WakeWatcher(p) =>
        OtherFieldsKeepValid(s, s.(watched := s.watched - {p}));
        SetTokenKeepsValid(s.(watched := s.watched - {p}), None);
      case Fire =>
        if s.timer.Some? {
          var fired := s.(timer := Some(s.timer.value.(fired := true)));
          OtherFieldsKeepValid(s, fired);
          RunRefreshKeepsValid(fired);
        }
      case Login(t) => SetTokenKeepsValid(s, Some(t));
      case Logout => SetTokenKeepsValid(s, None);
      case Tick(ms) => OtherFieldsKeepValid(s, s.(now := s.now + ms));
    }
  }

  lemma InitIsValid(token: Option<Token>, now: int)
    ensures Valid(Init(token, now))
  {
    var empty := State(now, token, None, [], None, {}, []);
    RunRefreshKeepsValid(empty);
  }

  lemma {:induction false} RunKeepsValid(s: State, es: seq<Event>)
    requires Valid(s)
    ensures Valid(Run(s, es)) && Extends(s.refreshes, Run(s, es).refreshes)
    decreases |es|
  {
    if es != [] {
      var before := Run(s, es[..|es| - 1]);
      RunKeepsValid(s, es[..|es| - 1]);
      StepKeepsValid(before, es[|es| - 1]);
    }
  }

  // ---- Main results -----------------------------------------------------------------------------------------

  /** At any time at most one refresh request is in flight, and it is the one every new caller would join. */
  lemma OneRefreshInFlight(token: Option<Token>, now: int, es: seq<Event>, p: nat, q: nat)
    requires var s := Run(Init(token, now), es);
             p < |s.refreshes| && q < |s.refreshes| && s.refreshes[p].Pending? && s.refreshes[q].Pending?
    ensures p == q && RefreshAccessToken(Run(Init(token, now), es)).1 == p
  {
    InitIsValid(token, now);
    RunKeepsValid(Init(token, now), es);
    var s := Run(Init(token, now), es);
    assert RefreshSound(s, p) && RefreshSound(s, q);
  }

  /**
   * No request is ever sent more than twice; a second send happens only after the refresh it waited for succeeded,
   * and carries on from that refresh's token; requests to the auth endpoints are sent once.
   */
  lemma RequestsAreRetriedOnce(token: Option<Token>, now: int, es: seq<Event>, i: nat)
    requires i < |Run(Init(token, now), es).requests|
    ensures var s := Run(Init(token, now), es);
            var r := s.requests[i];
            && 1 <= r.sends <= 2
            && (r.auth ==> r.sends == 1)
            && (r.sends == 2 <==> r.granted.Some?)
            && (r.sends == 2 ==> r.via.Some? && r.via.value < |s.refreshes|
                                 && s.refreshes[r.via.value] == Resolved(r.granted.value))
  {
    InitIsValid(token, now);
    RunKeepsValid(Init(token, now), es);
    var s := Run(Init(token, now), es);
    assert s.requests[i] in s.requests;
  }

  /** Requests that waited for the same refresh were given the same token. */
  lemma WaitersShareOneToken(token: Option<Token>, now: int, es: seq<Event>, i: nat, j: nat)
    requires var s := Run(Init(token, now), es);
             && i < |s.requests| && j < |s.requests| && s.requests[i].via == s.requests[j].via
             && s.requests[i].sends == 2 && s.requests[j].sends == 2
    ensures var s := Run(Init(token, now), es);
            s.requests[i].granted == s.requests[j].granted
  {
    RequestsAreRetriedOnce(token, now, es, i);
    RequestsAreRetriedOnce(token, now, es, j);
  }

  /** A pending timer is for the token now in the store, so no timer outlives its token. */
  lemma TimerIsForTheCurrentToken(token: Option<Token>, now: int, es: seq<Event>)
    ensures TimerSound(Run(Init(token, now), es))
  {
    InitIsValid(token, now);
    RunKeepsValid(Init(token, now), es);
  }

  predicate TimerPending(s: State) {
    s.timer.Some? && !s.timer.value.fired
  }

  /** A new token is stored, and arms a timer exactly when it expires later than thirty seconds from now. */
  lemma NewTokenArmsTimerIff(s: State, t: Token)
    requires s.token != Some(t)
    ensures SetToken(s, Some(t)).token == Some(t)
    ensures TimerPending(SetToken(s, Some(t))) <==> t.exp.Some? && t.exp.value * 1000 > s.now + 30000
    ensures TimerPending(SetToken(s, Some(t))) ==>
              SetToken(s, Some(t)).timer.value.fireAt ==
                if t.exp.value * 1000 - 30000 - s.now < 0x8000_0000 then t.exp.value * 1000 - 30000 else s.now + 1
  {
  }

  /** A new token without time left starts a refresh at once, or joins the one under way. */
  lemma StaleTokenRefreshesAtOnce(s: State, t: Token)
    requires Valid(s) && s.token != Some(t) && t.exp.Some? && t.exp.value * 1000 <= s.now + 30000
    ensures var next := SetToken(s, Some(t));
            && next.timer.None? && next.current.Some? && next.current.value in next.watched
            && next.refreshes == s.refreshes + (if s.current.None? then [Pending] else [])
            && next.current.value == (if s.current.None? then |s.refreshes| else s.current.value)
            && next.requests == s.requests
  {
  }

  /** A request goes out once, with the store's token as its header. */
  lemma SendCarriesTheToken(s: State, auth: bool)
    ensures Step(s, Send(auth)) ==
              s.(requests := s.requests + [Request(auth, false, 1, InFlight, None, None, s.token)])
  {
  }

  /** Any answer but a 401 ends the request and nothing else; so do answers to requests that are not in flight. */
  lemma OtherAnswersEndTheRequest(s: State, i: nat, answer: Answer)
    requires i < |s.requests|
    ensures !answer.Unauthorized? && s.requests[i].progress.InFlight? ==>
              Step(s, Respond(i, answer)) == s.(requests := s.requests[i := s.requests[i].(progress := Done)])
    ensures !s.requests[i].progress.InFlight? ==> Step(s, Respond(i, answer)) == s
  {
  }

  /** A resumed request carries the store's token at that moment, and its refresh's when the store has none. */
  lemma ResumedRequestCarries(s: State, i: nat, t: Token)
    requires i < |s.requests| && s.requests[i].progress.Waiting? && s.requests[i].via.Some?
    requires s.requests[i].via.value < |s.refreshes| && s.refreshes[s.requests[i].via.value] == Resolved(t)
    ensures var r := s.requests[i];
            Step(s, Wake(i)) ==
              s.(requests := s.requests[i := r.(sends := r.sends + 1, progress := InFlight, granted := Some(t),
                                                bearer := if s.token.Some? then s.token else Some(t))])
  {
  }

  /** A sign-out empties the store and its timer and touches no request and no refresh. */
  lemma SignOutEffect(s: State)
    requires s.token.Some?
    ensures Step(s, Logout) == s.(token := None, timer := None)
  {
  }

  /** On a page load the persisted token is in the store, with a timer or a refresh exactly as a new one would have. */
  lemma PageLoadEffect(token: Option<Token>, now: int)
    ensures var s := Init(token, now);
            && s.token == token && s.now == now && s.requests == []
            && (TimerPending(s) <==> token.Some? && token.value.exp.Some? && token.value.exp.value * 1000 > now + 30000)
            && |s.refreshes| == if token.Some? && token.value.exp.Some? && token.value.exp.value * 1000 <= now + 30000
                                then 1 else 0
  {
  }

  /** Nothing is under way that could start a refresh on its own. */
  predicate Quiet(s: State) {
    Valid(s) && !TimerPending(s) && forall p :: 0 <= p < |s.refreshes| ==> !s.refreshes[p].Pending?
  }

  /** Events by which a user or the server asks for a fresh token. */
  predicate Prompts(e: Event) {
    e.Login? || (e.Respond? && e.answer.Unauthorized?)
  }

  /**
   * A refresh that returns a token already inside the skew does not start another one: the write happens while the
   * refresh is still the current one. Nothing else is left to start one either, unless the token is the very one the
   * store held already, whose timer the write then leaves alone.
   */
  lemma SkewedGrantIsQuiet(s: State, p: nat, t: Token)
    requires Valid(s) && p < |s.refreshes| && s.refreshes[p].Pending?
    requires t.exp.None? || Delay(t.exp.value, s.now) <= 0
    ensures |Step(s, Reply(p, Granted(t))).refreshes| == |s.refreshes|
    ensures Quiet(Step(s, Reply(p, Granted(t)))) <==> !(s.token == Some(t) && TimerPending(s))
  {
    StepKeepsValid(s, Reply(p, Granted(t)));
    assert RefreshSound(s, p);
    var next := Step(s, Reply(p, Granted(t)));
    forall q | 0 <= q < |next.refreshes| ensures !next.refreshes[q].Pending? {
      assert RefreshSound(s, q);
    }
  }

  lemma QuietStep(s: State, e: Event)
    requires Quiet(s) && !Prompts(e)
    ensures Quiet(Step(s, e)) && |Step(s, e).refreshes| == |s.refreshes|
  {
    StepKeepsValid(s, e);
  }

  /** From then on nothing but a sign-in or a 401 starts another refresh, however long the client runs. */
  lemma {:induction false} SkewedTokenStartsNothing(s: State, es: seq<Event>)
    requires Quiet(s) && forall e :: e in es ==> !Prompts(e)
    ensures Quiet(Run(s, es)) && |Run(s, es).refreshes| == |s.refreshes|
    decreases |es|
  {
    if es != [] {
      SkewedTokenStartsNothing(s, es[..|es| - 1]);
      QuietStep(Run(s, es[..|es| - 1]), es[|es| - 1]);
    }
  }

  // ---- Every waiter is served -------------------------------------------------------------------------------

  /** The refresh under way is answered and settles. */
  function Finish(s: State, p: nat, outcome: Outcome): State {
    Step(Step(s, Reply(p, outcome)), Settle(p))
  }

  lemma FinishSettles(s: State, p: nat, outcome: Outcome)
    requires Valid(s) && p < |s.refreshes| && s.refreshes[p].Pending?
    ensures var next := Finish(s, p, outcome);
            && Valid(next) && next.current.None? && p < |next.refreshes| && next.requests == s.requests
            && next.refreshes[p] == (if outcome.Granted? then Resolved(outcome.token) else Rejected)
            && (outcome.Granted? ==> next.token == Some(outcome.token))
  {
    assert RefreshSound(s, p);
    StepKeepsValid(s, Reply(p, outcome));
    StepKeepsValid(Step(s, Reply(p, outcome)), Settle(p));
  }

  /**
   * Each request waiting for a refresh is served by its answer alone: a token sends every one of them again with that
   * token, and a failure ends every one of them with the user signed out.
   */
  lemma EveryWaiterIsServed(s: State, p: nat, outcome: Outcome, i: nat)
    requires Valid(s) && p < |s.refreshes| && s.refreshes[p].Pending?
    requires i < |s.requests| && s.requests[i].progress.Waiting? && s.requests[i].via == Some(p)
    ensures var next := Step(Finish(s, p, outcome), Wake(i));
            && i < |next.requests|
            && var r := next.requests[i];
               if outcome.Granted? then
                 && r.progress.InFlight? && r.sends == 2
                 && r.granted == Some(outcome.token) && r.bearer == Some(outcome.token)
               else r.progress.Done? && r.sends == 1 && next.token.None?
  {
    FinishSettles(s, p, outcome);
    var before := Finish(s, p, outcome);
    assert before.requests[i] in before.requests;
    if !outcome.Granted? {
      RequestUpdateKeepsValid(before, i, before.requests[i].(progress := Done));
      SetTokenKeepsValid(before.(requests := before.requests[i := before.requests[i].(progress := Done)]), None);
    }
  }

  /** A first 401 makes a request wait for the refresh under way, and starts one exactly when there is none. */
  lemma UnauthorizedJoinsRefresh(s: State, i: nat)
    requires Valid(s) && i < |s.requests| && s.requests[i].progress.InFlight?
    requires !s.requests[i].auth && s.requests[i].sends == 1
    ensures var next := Step(s, Respond(i, Unauthorized));
            && next.requests[i].progress.Waiting? && next.current.Some? && next.requests[i].via == next.current
            && next.current.value < |next.refreshes| && Unsettled(next.refreshes[next.current.value])
            && |next.refreshes| == |s.refreshes| + (if s.current.None? then 1 else 0)
            && next.token == s.token
  {
    assert s.requests[i] in s.requests;
    StepKeepsValid(s, Respond(i, Unauthorized));
    var next := Step(s, Respond(i, Unauthorized));
    assert RefreshSound(next, next.current.value);
  }

  /** A 401 on the retry, or on an auth endpoint, ends the request and signs the user out; nothing is refreshed. */
  lemma LastUnauthorizedSignsOut(s: State, i: nat)
    requires Valid(s) && i < |s.requests| && s.requests[i].progress.InFlight?
    requires s.requests[i].auth || s.requests[i].sends == 2
    ensures var next := Step(s, Respond(i, Unauthorized));
            next.requests[i].progress.Done? && next.token.None? && !TimerPending(next) && next.refreshes == s.refreshes
  {
    var done := s.(requests := s.requests[i := s.requests[i].(progress := Done)]);
    assert s.requests[i] in s.requests;
    RequestUpdateKeepsValid(s, i, s.requests[i].(progress := Done));
    SetTokenKeepsValid(done, None);
  }

  /** A due timer with no refresh under way starts one, whose answer renews the token or signs the user out. */
  lemma DueTimerRenewsOrSignsOut(s: State, outcome: Outcome)
    requires Valid(s) && TimerPending(s) && s.now >= s.timer.value.fireAt && s.current.None?
    ensures var p, fired := |s.refreshes|, Step(s, Fire);
            && |fired.refreshes| == p + 1 && fired.refreshes[p].Pending? && !TimerPending(fired)
            && Step(Finish(fired, p, outcome), WakeWatcher(p)).token
            == if outcome.Granted? then Some(outcome.token) else None
  {
    var p, fired := |s.refreshes|, Step(s, Fire);
    StepKeepsValid(s, Fire);
    FinishSettles(fired, p, outcome);
    ReplyKeepsWatchers(fired, p, outcome);
  }

  lemma ReplyKeepsWatchers(s: State, p: nat, outcome: Outcome)
    requires p in s.watched
    ensures p in Finish(s, p, outcome).watched
  {
  }

  // ---- What a sign-out lasts against ------------------------------------------------------------------------

  /** A refresh in flight is answered with a token. */
  predicate GrantArrives(s: State, e: Event) {
    e.Reply? && e.outcome.Granted? && e.refresh < |s.refreshes| && s.refreshes[e.refresh].Pending?
  }

  lemma StepSignsInIff(s: State, e: Event)
    requires s.token.None? && !e.Login?
    ensures Step(s, e).token.None? <==> !GrantArrives(s, e)
  {
  }

  /** The store is signed out at every moment of the run. */
  predicate SignedOutThroughout(s: State, es: seq<Event>)
    decreases |es|
  {
    Run(s, es).token.None? && (es == [] || SignedOutThroughout(s, es[..|es| - 1]))
  }

  predicate NoGrantArrives(s: State, es: seq<Event>)
    decreases |es|
  {
    es == [] ||
    (NoGrantArrives(s, es[..|es| - 1]) && !GrantArrives(Run(s, es[..|es| - 1]), es[|es| - 1]))
  }

  /**
   * A sign-out lasts until the next sign-in exactly when no refresh in flight meanwhile is answered with a token: the
   * answer is stored whoever has signed out since it was asked for.
   */
  lemma {:induction false} SignOutLastsIff(s: State, es: seq<Event>)
    requires s.token.None? && forall e :: e in es ==> !e.Login?
    ensures SignedOutThroughout(s, es) <==> NoGrantArrives(s, es)
    decreases |es|
  {
    if es != [] {
      var init := es[..|es| - 1];
      SignOutLastsIff(s, init);
      if SignedOutThroughout(s, init) {
        assert Run(s, init).token.None? by {
          SignedOutAtTheEnd(s, init);
        }
        StepSignsInIff(Run(s, init), es[|es| - 1]);
      }
    }
  }

  lemma SignedOutAtTheEnd(s: State, es: seq<Event>)
    requires SignedOutThroughout(s, es)
    ensures Run(s, es).token.None?
  {
  }

  /** So it lasts when no refresh was in flight at the sign-out and no request is answered 401 afterwards. */
  lemma {:induction false} QuietSignOutLasts(s: State, es: seq<Event>)
    requires Valid(s) && s.token.None? && forall p :: 0 <= p < |s.refreshes| ==> !s.refreshes[p].Pending?
    requires forall e :: e in es ==> !Prompts(e)
    ensures SignedOutThroughout(s, es)
    decreases |es|
  {
    if es != [] {
      var init := es[..|es| - 1];
      QuietSignOutLasts(s, init);
      SkewedTokenStartsNothing(s, init);
      SignedOutAtTheEnd(s, init);
      assert es[|es| - 1] in es;
      StepSignsInIff(Run(s, init), es[|es| - 1]);
    }
  }

  /** And it does not when one was: its token signs the user back in. */
  lemma LateGrantSignsBackIn(s: State, p: nat, t: Token)
    requires Valid(s) && p < |s.refreshes| && s.refreshes[p].Pending?
    ensures var out := Step(s, Logout);
            && out.token.None? && GrantArrives(out, Reply(p, Granted(t)))
            && Step(out, Reply(p, Granted(t))).token == Some(t)
  {
    StepKeepsValid(s, Logout);
    assert RefreshSound(s, p);
  }
}
