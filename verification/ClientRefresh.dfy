/**
 * The browser client's session: one shared access token, a single-flight refresh, a retry of requests answered 401,
 * and a timer that renews the token before it expires. Every callback is a step of its own, so steps of different
 * requests interleave freely.
 */
module ClientRefresh {
  import opened Basics

  const REFRESH_SKEW_MS := 30000
  /** Longer delays make `setTimeout` fire at once. */
  const MAX_TIMEOUT_MS := 2147483647

  /** An access token and the `exp` decoded from it, in seconds, if it has one. */
  datatype Token = Token(text: string, exp: Option<int>)

  /** The module variable `timer`; it keeps its value after it has fired. */
  datatype Timer = Timer(token: Token, fireAt: int, fired: bool)

  /**
   * A refresh: its request is in flight; its `then` has stored a token, or it has failed, and its `finally` is still
   * to run; it is settled.
   */
  datatype Refresh = Pending | Stored(token: Token) | Failing | Resolved(token: Token) | Rejected

  datatype Progress = InFlight | Waiting | Done

  /**
   * A request of the application. `via` is the refresh it waited for, `granted` the token that refresh gave it, and
   * `bearer` the header of its last send.
   */
  datatype Request = Request(auth: bool, retried: bool, sends: nat, progress: Progress, via: Option<nat>,
                             granted: Option<Token>, bearer: Option<Token>)

  /** `watched` are the refreshes whose failure signs the user out through `runRefresh`. */
  datatype State = State(now: int, token: Option<Token>, timer: Option<Timer>, refreshes: seq<Refresh>,
                         current: Option<nat>, watched: set<nat>, requests: seq<Request>)

  datatype Answer = Succeeded | Unauthorized | OtherError

  datatype Outcome = Granted(token: Token) | Refused | Broken

  datatype Event =
    | Send(auth: bool)
    | Respond(request: nat, answer: Answer)
    | Reply(refresh: nat, outcome: Outcome)
    | Settle(refresh: nat)
    | Wake(request: nat)
    | WakeWatcher(refresh: nat)
    | Fire
    | Login(token: Token)
    | Logout
    | Tick(ms: nat)

  // ---- Refreshing -------------------------------------------------------------------------------------------

  /** `refreshAccessToken`: the refresh under way, or a new one. */
  function RefreshAccessToken(s: State): (State, nat) {
    match s.current
    case Some(p) => (s, p)
    case None => (s.(refreshes := s.refreshes + [Pending], current := Some(|s.refreshes|)), |s.refreshes|)
  }

  function RunRefresh(s: State): State {
    var (next, p) := RefreshAccessToken(s);
    next.(watched := next.watched + {p})
  }

  function Delay(expSeconds: int, now: int): int {
    expSeconds * 1000 - now - REFRESH_SKEW_MS
  }

  /** `scheduleTokenRefresh` */
  function Schedule(s: State, token: Option<Token>): State {
    var cleared := s.(timer := None);
    if token.None? || token.value.exp.None? then cleared
    else
      var delay := Delay(token.value.exp.value, s.now);
      if delay <= 0 then RunRefresh(cleared)
      else cleared.(timer := Some(Timer(token.value, s.now + if delay > MAX_TIMEOUT_MS then 1 else delay, false)))
  }

  /** A store write; the subscription runs inside it, and only when the token has changed. */
  function SetToken(s: State, token: Option<Token>): State {
    if token == s.token then s else Schedule(s.(token := token), token)
  }

  /** The page load: the persisted token, and the subscription's immediate first call. */
  function Init(token: Option<Token>, now: int): State {
    Schedule(State(now, token, None, [], None, {}, []), token)
  }

  // ---- Steps ------------------------------------------------------------------------------------------------

  /** The request interceptor: the store's token, if there is one, replaces the header. */
  function Bearer(s: State, header: Option<Token>): Option<Token> {
    if s.token.Some? then s.token else header
  }

  function SendStep(s: State, auth: bool): State {
    s.(requests := s.requests + [Request(auth, false, 1, InFlight, None, None, Bearer(s, None))])
  }

  /** The response interceptor. */
  function RespondStep(s: State, i: nat, answer: Answer): State {
    if i >= |s.requests| || !s.requests[i].progress.InFlight? then s
    else
      var r := s.requests[i];
      if answer.Unauthorized? && !r.retried && !r.auth then
        var (next, p) := RefreshAccessToken(s);
        next.(requests := s.requests[i := r.(retried := true, via := Some(p), progress := Waiting)])
      else
        var done := s.(requests := s.requests[i := r.(progress := Done)]);
        if answer.Unauthorized? then SetToken(done, None) else done
  }

  /** The refresh request is answered; a 401 signs the user out in the response interceptor already. */
  function ReplyStep(s: State, p: nat, outcome: Outcome): State {
    if p >= |s.refreshes| || !s.refreshes[p].Pending? then s
    else match outcome
      case Granted(t) => SetToken(s.(refreshes := s.refreshes[p := Stored(t)]), Some(t))
      case Refused => SetToken(s.(refreshes := s.refreshes[p := Failing]), None)
      case Broken => s.(refreshes := s.refreshes[p := Failing])
  }

  /** `finally` */
  function SettleStep(s: State, p: nat): State {
    if p >= |s.refreshes| then s
    else match s.refreshes[p]
      case Stored(t) => s.(refreshes := s.refreshes[p := Resolved(t)], current := None)
      case Failing => s.(refreshes := s.refreshes[p := Rejected], current := None)
      case _ => s
  }

  /** A request resumes after its refresh: sent again with the token, or given up with a sign-out. */
  function WakeStep(s: State, i: nat): State {
    if i >= |s.requests| || !s.requests[i].progress.Waiting? then s
    else
      var r := s.requests[i];
      if r.via.None? || r.via.value >= |s.refreshes| then s
      else match s.refreshes[r.via.value]
        case Resolved(t) =>
          var again := r.(sends := r.sends + 1, progress := InFlight, granted := Some(t), bearer := Bearer(s, Some(t)));
          s.(requests := s.requests[i := again])
        case Rejected => SetToken(s.(requests := s.requests[i := r.(progress := Done)]), None)
        case _ => s
  }

  function WakeWatcherStep(s: State, p: nat): State {
    if p in s.watched && p < |s.refreshes| && s.refreshes[p].Rejected?
    then SetToken(s.(watched := s.watched - {p}), None)
    else s
  }

  function FireStep(s: State): State {
    if s.timer.Some? && !s.timer.value.fired && s.now >= s.timer.value.fireAt
    then RunRefresh(s.(timer := Some(s.timer.value.(fired := true))))
    else s
  }

  function Step(s: State, e: Event): State {
    match e
    case Send(auth) => SendStep(s, auth)
    case Respond(i, answer) => RespondStep(s, i, answer)
    case Reply(p, outcome) => ReplyStep(s, p, outcome)
    case Settle(p) => SettleStep(s, p)
    case Wake(i) => WakeStep(s, i)
    case WakeWatcher(p) => WakeWatcherStep(s, p)
    case Fire => FireStep(s)
    case Login(t) => SetToken(s, Some(t))
    case Logout => SetToken(s, None)
    case Tick(ms) => s.(now := s.now + ms)
  }

  function Run(s: State, es: seq<Event>): State
    decreases |es|
  {
    if es == [] then s else Step(Run(s, es[..|es| - 1]), es[|es| - 1])
  }
}
