/** The client session as the browser runs it: module variables and a store, changed in place by each callback. */
module ClientService {
  import opened Basics
  import opened ClientRefresh
  import opened ClientSafety

  class Session {
    var now: int
    var token: Option<Token>
    var timer: Option<Timer>
    var refreshes: seq<Refresh>
    var refreshPromise: Option<nat>
    var watched: set<nat>
    var requests: seq<Request>

    function View(): State
      reads this
    {
      State(now, token, timer, refreshes, refreshPromise, watched, requests)
    }

    constructor (persisted: Option<Token>, now: int)
      ensures View() == Init(persisted, now) && Valid(View())
    {
      this.now, token, timer := now, persisted, None;
      refreshes, refreshPromise, watched, requests := [], None, {}, [];
      new;
      InitIsValid(persisted, now);
      ScheduleTokenRefresh(persisted);
    }

    method RefreshAccessToken() returns (p: nat)
      modifies this
      ensures (View(), p) == ClientRefresh.RefreshAccessToken(old(View()))
    {
      if refreshPromise.None? {
        refreshes := refreshes + [Pending];
        refreshPromise := Some(|refreshes| - 1);
      }
      p := refreshPromise.value;
    }

    method RunRefresh()
      modifies this
      ensures View() == ClientRefresh.RunRefresh(old(View()))
    {
      var p := RefreshAccessToken();
      watched := watched + {p};
    }

    method ClearRefreshTimer()
      modifies this
      ensures View() == old(View()).(timer := None)
    {
      if timer.Some? {
        timer := None;
      }
    }

    method ScheduleTokenRefresh(t: Option<Token>)
      modifies this
      ensures View() == Schedule(old(View()), t)
    {
      ClearRefreshTimer();
      if t.None? || t.value.exp.None? {
        return;
      }
      var delay := Delay(t.value.exp.value, now);
      if delay <= 0 {
        RunRefresh();
        return;
      }
      timer := Some(Timer(t.value, now + if delay > MAX_TIMEOUT_MS then 1 else delay, false));
    }

    /** `setAccessToken`, `login` and `logout`, with the store's subscription. */
    method Store(t: Option<Token>)
      requires Core(View()) && (t == token ==> TimerSound(View()))
      modifies this
      ensures View() == SetToken(old(View()), t) && Valid(View())
    {
      SetTokenKeepsValid(View(), t);
      if t != token {
        token := t;
        ScheduleTokenRefresh(t);
      }
    }

    method Request(auth: bool)
      requires Valid(View())
      modifies this
      ensures View() == Step(old(View()), Send(auth)) && Valid(View())
    {
      StepKeepsValid(View(), Send(auth));
      requests := requests + [ClientRefresh.Request(auth, false, 1, InFlight, None, None, token)];
    }

    /** The response interceptor up to its `await`. */
    method OnResponse(i: nat, answer: Answer)
      requires Valid(View()) && i < |requests| && requests[i].progress.InFlight?
      modifies this
      ensures View() == Step(old(View()), Respond(i, answer)) && Valid(View())
    {
      StepKeepsValid(View(), Respond(i, answer));
      var original := requests[i];
      if answer.Unauthorized? && !original.retried && !original.auth {
        var p := RefreshAccessToken();
        requests := requests[i := original.(retried := true, via := Some(p), progress := Waiting)];
        return;
      }
      assert original in requests;
      RequestUpdateKeepsValid(View(), i, original.(progress := Done));
      requests := requests[i := original.(progress := Done)];
      if answer.Unauthorized? {
        Store(None);
      }
    }

    /** The interceptor after its `await`: the refresh gave a token, or threw. */
    method OnResume(i: nat)
      requires Valid(View()) && i < |requests| && requests[i].progress.Waiting?
      requires requests[i].via.Some? && requests[i].via.value < |refreshes|
      requires !Unsettled(refreshes[requests[i].via.value])
      modifies this
      ensures View() == Step(old(View()), Wake(i)) && Valid(View())
    {
      StepKeepsValid(View(), Wake(i));
      var original := requests[i];
      match refreshes[original.via.value] {
        case Resolved(t) =>
          var header := if token.Some? then token else Some(t);
          requests := requests[i := original.(sends := original.sends + 1, progress := InFlight,
                                              granted := Some(t), bearer := header)];
        case Rejected =>
          assert original in requests;
          RequestUpdateKeepsValid(View(), i, original.(progress := Done));
          requests := requests[i := original.(progress := Done)];
          Store(None);
      }
    }

    /** The refresh request is answered. */
    method OnRefreshReply(p: nat, outcome: Outcome)
      requires Valid(View()) && p < |refreshes| && refreshes[p].Pending?
      modifies this
      ensures View() == Step(old(View()), Reply(p, outcome)) && Valid(View())
    {
      StepKeepsValid(View(), Reply(p, outcome));
      RefreshUpdateKeepsCore(View(), p, if outcome.Granted? then Stored(outcome.token) else Failing);
      match outcome {
        case Granted(t) =>
          refreshes := refreshes[p := Stored(t)];
          Store(Some(t));
        case Refused =>
          refreshes := refreshes[p := Failing];
          Store(None);
        case Broken =>
          refreshes := refreshes[p := Failing];
      }
    }

    /** `finally`: the variable is cleared whatever it holds, and it holds this very refresh. */
    method OnRefreshSettled(p: nat)
      requires Valid(View()) && p < |refreshes| && (refreshes[p].Stored? || refreshes[p].Failing?)
      modifies this
      ensures old(refreshPromise) == Some(p)
      ensures View() == Step(old(View()), Settle(p)) && Valid(View())
    {
      StepKeepsValid(View(), Settle(p));
      assert RefreshSound(View(), p);
      refreshes := refreshes[p := if refreshes[p].Stored? then Resolved(refreshes[p].token) else Rejected];
      refreshPromise := None;
    }

    method OnTimer()
      requires Valid(View()) && TimerPending(View()) && now >= timer.value.fireAt
      modifies this
      ensures View() == Step(old(View()), Fire) && Valid(View())
    {
      StepKeepsValid(View(), Fire);
      timer := Some(timer.value.(fired := true));
      RunRefresh();
    }
  }
}
