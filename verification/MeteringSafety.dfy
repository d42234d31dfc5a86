/** What every run of the metered lifecycle keeps: balanced counters, plan caps, and sound generation rows. */
module MeteringSafety {
  import opened Basics
  import opened Ledger
  import opened Metering

  // ---- Vocabulary -------------------------------------------------------------------------------------------

  function Used(s: State, u: string, p: string, k: GenerationKind): int {
    if (u, p) in s.counters then Get(s.counters[(u, p)], RunnerField(k)) else 0
  }

  predicate ChargedTo(q: Request, u: string, p: string, k: GenerationKind) {
    q.userId == u && q.kind == k && CurrentPeriodStart(q.at) == p
  }

  predicate CreatedIn(g: Generation, u: string, p: string, k: GenerationKind) {
    g.userId == u && g.kind == k && PeriodOf(g.createdAt) == p
  }

  /** Granted reservations of a user, period and kind. */
  function Reserved(requests: map<nat, Request>, u: string, p: string, k: GenerationKind): set<nat> {
    set r | r in requests && ChargedTo(requests[r], u, p, k)
  }

  function Created(gens: map<nat, Generation>, u: string, p: string, k: GenerationKind): set<nat> {
    set r | r in gens && CreatedIn(gens[r], u, p, k)
  }

  /** Refunds that reached the row of a user, period and kind. */
  function GivenBack(s: State, u: string, p: string, k: GenerationKind): set<nat> {
    set r | r in s.refunded && r in s.gens && CreatedIn(s.gens[r], u, p, k)
  }

  function NonFailed(s: State, u: string, p: string, k: GenerationKind): set<nat> {
    set r | r in s.gens && CreatedIn(s.gens[r], u, p, k) && s.gens[r].status != Failed
  }

  /** Rows created in a period although their reservation was charged to another one. */
  function Strays(s: State, u: string, p: string, k: GenerationKind): set<nat> {
    Created(s.gens, u, p, k) - Reserved(s.requests, u, p, k)
  }

  /** The reservation and the row it paid for fall in the same UTC month. */
  predicate SameMonth(s: State, r: nat)
    requires r in s.gens && r in s.requests
  {
    var created, reserved := s.gens[r].createdAt, s.requests[r].at;
    created.year == reserved.year && created.month == reserved.month
  }

  // ---- The invariant ----------------------------------------------------------------------------------------

  /** The counter is what was reserved less what was given back, and never more than the plan allows. */
  ghost predicate Balanced(s: State, u: string, p: string, k: GenerationKind) {
    && Used(s, u, p, k) + |GivenBack(s, u, p, k)| == |Reserved(s.requests, u, p, k)|
    && WithinLimit(LimitOf(s.plan, u, EndpointQuota(k)), Used(s, u, p, k))
  }

  ghost predicate CountersBalance(s: State) {
    forall u, p, k :: Balanced(s, u, p, k)
  }

  /** What holds of a stored row whatever happened to it. */
  predicate RowSound(g: Generation) {
    && (g.repoId.Some? <==> g.kind.RepoReadme?)
    && (g.status == Completed ==> HasModel(g) && Truthy(g.generatedMd))
    && (g.commitSha.Some? ==> g.status == Completed)
  }

  /** A worker holds the identity of its row, and its stage tells the row's status. */
  predicate WorkerSound(w: Worker, g: Generation) {
    && w.mem.userId == g.userId && w.mem.kind == g.kind && w.mem.createdAt == g.createdAt
    && w.mem.repoId == g.repoId && w.mem.commitSha.None?
    && (w.stage.Loaded? ==> g.status == Queued)
    && (w.stage.Working? ==> g.status == Running)
    && (w.stage.Catching? ==> g.status == Queued || g.status == Running)
    && (w.stage.Refunding? ==> g.status == Failed)
  }

  /** Everything the tables, the queue and the workers say about one request. */
  predicate Sound(s: State, r: nat) {
    && (r in s.gens ==>
          && RowSound(s.gens[r])
          && r in s.requests
          && s.gens[r].userId == s.requests[r].userId
          && s.gens[r].kind == s.requests[r].kind
          && (r !in s.sent ==> s.gens[r].status == Queued))
    && (r in s.sent ==> r in s.gens)
    && (r in s.queue ==> r in s.sent && s.gens[r].status == Queued)
    && (r in s.workers ==> r in s.sent && r !in s.queue && WorkerSound(s.workers[r], s.gens[r]))
    && (r in s.refunded ==> r in s.gens && s.gens[r].status == Failed && r !in s.workers)
  }

  ghost predicate TablesSound(s: State) {
    forall r :: Sound(s, r)
  }

  ghost predicate Valid(s: State) {
    CountersBalance(s) && TablesSound(s)
  }

  // ---- Every step keeps it ----------------------------------------------------------------------------------

  /** A granted reservation raises the one counter it is charged to by one, and not above the plan. */
  lemma ReserveChargesOneCounter(s: State, e: Event, u: string, p: string, k: GenerationKind)
    requires e.Reserve? && StepReserve(s, e) != s
    requires WithinLimit(LimitOf(s.plan, u, EndpointQuota(k)), Used(s, u, p, k))
    ensures var t := StepReserve(s, e);
            var charged := if ChargedTo(Request(e.userId, e.kind, e.now), u, p, k) then 1 else 0;
            && Used(t, u, p, k) == Used(s, u, p, k) + charged
            && WithinLimit(LimitOf(s.plan, u, EndpointQuota(k)), Used(t, u, p, k))
  {
    var key := (e.userId, CurrentPeriodStart(e.now));
    if (u, p) == key {
      assert p == key.1;
    }
  }

  lemma OneMoreReserved(requests: map<nat, Request>, r: nat, q: Request, u: string, p: string, k: GenerationKind)
    requires r !in requests
    ensures |Reserved(requests[r := q], u, p, k)|
         == |Reserved(requests, u, p, k)| + if ChargedTo(q, u, p, k) then 1 else 0
  {
    var before, after := Reserved(requests, u, p, k), Reserved(requests[r := q], u, p, k);
    if ChargedTo(q, u, p, k) {
      assert after == before + {r};
    } else {
      assert after == before;
    }
  }

  lemma ReserveKeepsBalance(s: State, e: Event, u: string, p: string, k: GenerationKind)
    requires e.Reserve? && Balanced(s, u, p, k)
    ensures Balanced(StepReserve(s, e), u, p, k)
  {
    var t := StepReserve(s, e);
    if t != s {
      ReserveChargesOneCounter(s, e, u, p, k);
      OneMoreReserved(s.requests, e.r, Request(e.userId, e.kind, e.now), u, p, k);
      assert GivenBack(t, u, p, k) == GivenBack(s, u, p, k);
    }
  }

  /** A refund that takes effect lowers the one counter its row was created under. */
  lemma RefundCreditsOneCounter(s: State, r: nat, u: string, p: string, k: GenerationKind)
    requires AtStage(s, r, Refunding) && Sound(s, r)
    requires WithinLimit(LimitOf(s.plan, u, EndpointQuota(k)), Used(s, u, p, k))
    ensures var t := StepRefund(s, r);
            var credited := if r in t.refunded && CreatedIn(s.gens[r], u, p, k) then 1 else 0;
            && Used(t, u, p, k) == Used(s, u, p, k) - credited
            && WithinLimit(LimitOf(s.plan, u, EndpointQuota(k)), Used(t, u, p, k))
  {
    var g := s.gens[r];
    if (u, p) == (g.userId, PeriodOf(g.createdAt)) {
      assert p == PeriodOf(g.createdAt);
    }
  }

  /** The set of returned reservations grows by the refunded row, if it belongs there. */
  lemma RefundGrowsGivenBack(s: State, r: nat, u: string, p: string, k: GenerationKind)
    requires AtStage(s, r, Refunding) && Sound(s, r)
    ensures var before, t := GivenBack(s, u, p, k), StepRefund(s, r);
            && r !in before
            && GivenBack(t, u, p, k) == before + (if r in t.refunded && CreatedIn(s.gens[r], u, p, k) then {r} else {})
            && Reserved(t.requests, u, p, k) == Reserved(s.requests, u, p, k)
  {
    assert r !in s.refunded;
  }

  lemma RefundKeepsBalance(s: State, r: nat, u: string, p: string, k: GenerationKind)
    requires Sound(s, r) && Balanced(s, u, p, k)
    ensures Balanced(StepRefund(s, r), u, p, k)
  {
    var t := StepRefund(s, r);
    if AtStage(s, r, Refunding) {
      RefundCreditsOneCounter(s, r, u, p, k);
      RefundGrowsGivenBack(s, r, u, p, k);
    }
  }

  ghost predicate SameIdentities(s: State, t: State) {
    && t.plan == s.plan && t.counters == s.counters && t.requests == s.requests && t.refunded == s.refunded
    && s.gens.Keys <= t.gens.Keys
    && forall r :: r in s.gens ==> SameIdentity(s.gens[r], t.gens[r])
  }

  predicate IsWorkerEvent(e: Event) {
    e.Gather? || e.Advance? || e.Finish? || e.Fail? || e.Stop?
  }

  predicate SameIdentity(g: Generation, h: Generation) {
    g.userId == h.userId && g.kind == h.kind && g.createdAt == h.createdAt
  }

  lemma JobStepKeepsIdentity(row: Generation, w: Worker, e: Event)
    requires WorkerSound(w, row)
    ensures SameIdentity(row, JobStep(row, w, e).row)
  {
  }

  lemma WorkerStepKeepsIdentities(s: State, e: Event)
    requires Sound(s, e.r) && IsWorkerEvent(e)
    ensures SameIdentities(s, Step(s, e))
  {
    if e.r in s.workers {
      JobStepKeepsIdentity(s.gens[e.r], s.workers[e.r], e);
    }
  }

  lemma ApiStepKeepsIdentities(s: State, e: Event)
    requires !IsWorkerEvent(e) && !e.Reserve? && !e.Refund?
    ensures SameIdentities(s, Step(s, e))
  {
  }

  /** Steps that leave counters, reservations and refunds alone and keep every row's identity keep the balance. */
  lemma SameIdentitiesKeepBalance(s: State, t: State, u: string, p: string, k: GenerationKind)
    requires Balanced(s, u, p, k) && s.refunded <= s.gens.Keys && SameIdentities(s, t)
    ensures Balanced(t, u, p, k)
  {
    assert GivenBack(t, u, p, k) == GivenBack(s, u, p, k);
  }

  lemma StepKeepsBalance(s: State, e: Event, u: string, p: string, k: GenerationKind)
    requires Sound(s, e.r) && s.refunded <= s.gens.Keys && Balanced(s, u, p, k)
    ensures Balanced(Step(s, e), u, p, k)
  {
    if e.Reserve? {
      ReserveKeepsBalance(s, e, u, p, k);
    } else if e.Refund? {
      RefundKeepsBalance(s, e.r, u, p, k);
    } else {
      if IsWorkerEvent(e) {
        WorkerStepKeepsIdentities(s, e);
      } else {
        ApiStepKeepsIdentities(s, e);
      }
      SameIdentitiesKeepBalance(s, Step(s, e), u, p, k);
    }
  }

  /** A step says nothing about requests other than its own. */
  lemma WorkerStepLeavesOthersAlone(s: State, e: Event, r: nat)
    requires Sound(s, r) && r != e.r && IsWorkerEvent(e)
    ensures Sound(Step(s, e), r)
  {
  }

  lemma ApiStepLeavesOthersAlone(s: State, e: Event, r: nat)
    requires Sound(s, r) && r != e.r && !IsWorkerEvent(e)
    ensures Sound(Step(s, e), r)
  {
  }

  lemma ApiStepKeepsSound(s: State, e: Event)
    requires Sound(s, e.r) && !IsWorkerEvent(e)
    ensures Sound(Step(s, e), e.r)
  {
  }

  lemma WorkerStepKeepsSound(s: State, e: Event)
    requires Sound(s, e.r) && IsWorkerEvent(e)
    ensures Sound(Step(s, e), e.r)
  {
  }

  lemma StepKeepsSound(s: State, e: Event, r: nat)
    requires Sound(s, r)
    ensures Sound(Step(s, e), r)
  {
    if r != e.r {
      if IsWorkerEvent(e) {
        WorkerStepLeavesOthersAlone(s, e, r);
      } else {
        ApiStepLeavesOthersAlone(s, e, r);
      }
    } else if IsWorkerEvent(e) {
      WorkerStepKeepsSound(s, e);
    } else {
      ApiStepKeepsSound(s, e);
    }
  }

  lemma StepKeepsValid(s: State, e: Event)
    requires Valid(s)
    ensures Valid(Step(s, e))
  {
    forall r: nat ensures Sound(Step(s, e), r) {
      StepKeepsSound(s, e, r);
    }
    assert s.refunded <= s.gens.Keys by {
      forall r | r in s.refunded ensures r in s.gens {
        assert Sound(s, r);
      }
    }
    forall u, p, k ensures Balanced(Step(s, e), u, p, k) {
      StepKeepsBalance(s, e, u, p, k);
    }
  }

  lemma {:induction false} RunKeepsValid(s: State, es: seq<Event>)
    requires Valid(s)
    ensures Valid(Run(s, es))
    decreases |es|
  {
    if es != [] {
      StepKeepsValid(s, es[0]);
      RunKeepsValid(Step(s, es[0]), es[1..]);
    }
  }

  /** The main invariant: it holds after any sequence of steps from the empty tables, under any fixed plan. */
  lemma EveryRunIsValid(plan: map<(string, QuotaKind), int>, es: seq<Event>)
    ensures Valid(Run(Init(plan), es))
  {
    var s := Init(plan);
    forall u, p, k ensures Balanced(s, u, p, k) {
      assert GivenBack(s, u, p, k) == {} && Reserved(s.requests, u, p, k) == {};
    }
    RunKeepsValid(s, es);
  }

  // ---- What the invariant means -----------------------------------------------------------------------------

  /** In every run each stored row keeps the promises of its kind and status, however often it is committed. */
  lemma EveryRowIsSound(plan: map<(string, QuotaKind), int>, es: seq<Event>, r: nat)
    requires r in Run(Init(plan), es).gens
    ensures var g := Run(Init(plan), es).gens[r];
            && (g.repoId.Some? <==> g.kind.RepoReadme?)
            && (g.status == Completed ==> HasModel(g) && Truthy(g.generatedMd))
            && (g.commitSha.Some? ==> g.status == Completed)
  {
    EveryRunIsValid(plan, es);
    assert Sound(Run(Init(plan), es), r);
  }

  /** A row is a stray of its own period exactly when a month boundary fell between reservation and insert. */
  lemma StrayIffMonthBoundary(s: State, r: nat)
    requires Valid(s) && r in s.gens
    ensures r in s.requests
    ensures var g := s.gens[r];
            (r in Strays(s, g.userId, PeriodOf(g.createdAt), g.kind) <==> !SameMonth(s, r))
  {
    assert Sound(s, r);
    PeriodKeysAgree(s.requests[r].at, s.gens[r].createdAt);
  }

  /**
   * Whatever the timing, the rows of a period that have not failed are covered by its counter, up to one for
   * each stray; with no stray, the counter covers them all and the plan covers the counter.
   */
  lemma CounterCoversNonFailed(s: State, u: string, p: string, k: GenerationKind)
    requires Valid(s)
    ensures |NonFailed(s, u, p, k)| <= Used(s, u, p, k) + |Strays(s, u, p, k)|
    ensures WithinLimit(LimitOf(s.plan, u, EndpointQuota(k)), Used(s, u, p, k))
  {
    assert Balanced(s, u, p, k);
    var alive, back, created := NonFailed(s, u, p, k), GivenBack(s, u, p, k), Created(s.gens, u, p, k);
    var reserved, strays := Reserved(s.requests, u, p, k), Strays(s, u, p, k);
    forall r | r in back ensures r in created && r !in alive {
      assert Sound(s, r);
    }
    DisjointPartsFit(alive, back, created, reserved);
  }

  lemma DisjointPartsFit<T>(a: set<T>, b: set<T>, whole: set<T>, paid: set<T>)
    requires a !! b && a + b <= whole
    ensures |a| + |b| <= |paid| + |whole - paid|
  {
    SubsetIsNoLarger(a + b, whole);
    SubsetIsNoLarger(whole * paid, paid);
    assert whole == whole * paid + (whole - paid);
  }

  /** Rows of a period that are alive or whose reservation was given back to it. */
  function Charging(s: State, u: string, p: string, k: GenerationKind): set<nat> {
    NonFailed(s, u, p, k) + GivenBack(s, u, p, k)
  }

  /**
   * The counter covers the rows that have not failed exactly when the strays among the rows alive or refunded are no
   * more than the reservations of the period without such a row.
   */
  lemma CounterCoversIff(s: State, u: string, p: string, k: GenerationKind)
    requires Valid(s)
    ensures var charging := Charging(s, u, p, k);
            var unpaid, spare := |charging * Strays(s, u, p, k)|, |Reserved(s.requests, u, p, k) - charging|;
            |NonFailed(s, u, p, k)| <= Used(s, u, p, k) <==> unpaid <= spare
  {
    assert Balanced(s, u, p, k);
    var alive, back := NonFailed(s, u, p, k), GivenBack(s, u, p, k);
    forall r | r in back ensures r !in alive && r in Created(s.gens, u, p, k) {
      assert Sound(s, r);
    }
    CoverBySets(alive, back, Created(s.gens, u, p, k), Reserved(s.requests, u, p, k), Used(s, u, p, k));
  }

  lemma CoverBySets<T>(alive: set<T>, back: set<T>, created: set<T>, reserved: set<T>, used: int)
    requires alive !! back && alive + back <= created && used + |back| == |reserved|
    ensures |(alive + back) * (created - reserved)| <= |reserved - (alive + back)| <==> |alive| <= used
  {
    var charging := alive + back;
    SplitByOther(charging, reserved);
    SplitByOther(reserved, charging);
    assert charging * (created - reserved) == charging - reserved;
    assert charging * reserved == reserved * charging;
  }

  lemma SplitByOther<T>(a: set<T>, b: set<T>)
    ensures |a| == |a * b| + |a - b|
  {
    assert a == a * b + (a - b);
  }

  /** With every row created in the month of its reservation there are no strays at all. */
  lemma SameMonthRunsAreCovered(s: State, u: string, p: string, k: GenerationKind)
    requires Valid(s)
    requires forall r :: r in Created(s.gens, u, p, k) ==> r in s.requests && SameMonth(s, r)
    ensures Strays(s, u, p, k) == {}
    ensures |NonFailed(s, u, p, k)| <= Used(s, u, p, k)
  {
    forall r | r in Created(s.gens, u, p, k) ensures r !in Strays(s, u, p, k) {
      StrayIffMonthBoundary(s, r);
    }
    assert Strays(s, u, p, k) == {};
    CounterCoversNonFailed(s, u, p, k);
  }

  // A run across one month boundary: the first reservation is January's, everything else happens in February.

  const JAN: Instant := Instant(2026, 0, 9)
  const FEB: Instant := Instant(2026, 1, 0)
  const PLAN := map[("ada", ProfileNarration) := 5]
  const MODEL := Some(AiModel("google", "gemini"))
  const FEB_ROW := Generation("ada", Profile, None, FEB, Some("google"), Some("gemini"), Queued, "queued",
                              None, None, None, None, None)

  function BoundaryStart(): seq<Event> {
    [Reserve(0, "ada", Profile, JAN), Start(0, MODEL, None, FEB), Enqueue(0),
     Reserve(1, "ada", Profile, FEB), Start(1, MODEL, None, FEB)]
  }

  function BoundaryFailure(): seq<Event> {
    [Deliver(0), Gather(0, Refused("timeout")), Fail(0, Saved)]
  }

  function AfterBoundaryStart(): State {
    State(PLAN,
          map[("ada", CurrentPeriodStart(JAN)) := Counter(0, 1), ("ada", CurrentPeriodStart(FEB)) := Counter(0, 1)],
          map[0 := FEB_ROW, 1 := FEB_ROW], {0}, map[],
          map[0 := Request("ada", Profile, JAN), 1 := Request("ada", Profile, FEB)], {0}, {})
  }

  /** A run is determined by its steps. */
  lemma {:induction false} RunAlong(states: seq<State>, es: seq<Event>)
    requires |states| == |es| + 1
    requires forall i {:trigger es[i]} :: 0 <= i < |es| ==> states[i + 1] == Step(states[i], es[i])
    ensures Run(states[0], es) == states[|es|]
    decreases |es|
  {
    if es != [] {
      var rest := states[1..];
      forall i {:trigger es[1..][i]} | 0 <= i < |es[1..]| ensures rest[i + 1] == Step(rest[i], es[1..][i]) {
        assert es[1..][i] == es[i + 1];
      }
      RunAlong(rest, es[1..]);
    }
  }

  lemma BoundaryRunStarts()
    ensures Run(Init(PLAN), BoundaryStart()) == AfterBoundaryStart()
  {
    PeriodKeysAgree(JAN, FEB);
    PeriodKeysAgree(FEB, FEB);
    var es, s0 := BoundaryStart(), Init(PLAN);
    var s1 := s0.(counters := map[("ada", CurrentPeriodStart(JAN)) := Counter(0, 1)],
                  requests := map[0 := Request("ada", Profile, JAN)]);
    assert s1 == Step(s0, es[0]);
    var s2 := s1.(gens := map[0 := FEB_ROW]);
    assert s2 == Step(s1, es[1]);
    var s3 := s2.(queue := {0}, sent := {0});
    assert s3 == Step(s2, es[2]);
    var s4 := AfterBoundaryStart().(gens := map[0 := FEB_ROW]);
    assert s4 == Step(s3, es[3]);
    assert AfterBoundaryStart() == Step(s4, es[4]);
    RunAlong([s0, s1, s2, s3, s4, AfterBoundaryStart()], es);
  }

  const MEM := FEB_ROW.(status := Running, phase := "gathering")
  const LOST := MEM.(status := Failed, phase := "failed", error := Some("timeout"))

  function AfterBoundaryFailure(): State {
    AfterBoundaryStart().(queue := {}, gens := map[0 := LOST, 1 := FEB_ROW],
                          workers := map[0 := Worker(Refunding, LOST)])
  }

  function AfterBoundaryDelivery(): State {
    AfterBoundaryStart().(queue := {}, workers := map[0 := Worker(Loaded, FEB_ROW)])
  }

  function AfterBoundaryRefusal(): State {
    AfterBoundaryStart().(queue := {}, workers := map[0 := Worker(Catching("timeout"), MEM)])
  }

  lemma BoundaryJobIsRefused()
    ensures AfterBoundaryRefusal() == Step(AfterBoundaryDelivery(), Gather(0, Refused("timeout")))
  {
    assert JobStep(FEB_ROW, Worker(Loaded, FEB_ROW), Gather(0, Refused("timeout")))
        == Job(FEB_ROW, Some(Worker(Catching("timeout"), MEM)));
  }

  lemma BoundaryJobThenFails()
    ensures AfterBoundaryFailure() == Step(AfterBoundaryRefusal(), Fail(0, Saved))
  {
    assert JobStep(FEB_ROW, Worker(Catching("timeout"), MEM), Fail(0, Saved))
        == Job(LOST, Some(Worker(Refunding, LOST)));
  }

  lemma BoundaryJobFails()
    ensures Run(AfterBoundaryStart(), BoundaryFailure()) == AfterBoundaryFailure()
  {
    var es, s := BoundaryFailure(), AfterBoundaryStart();
    assert AfterBoundaryDelivery() == Step(s, es[0]);
    BoundaryJobIsRefused();
    BoundaryJobThenFails();
    RunAlong([s, AfterBoundaryDelivery(), AfterBoundaryRefusal(), AfterBoundaryFailure()], es);
  }

  lemma BoundaryRefundDrainsFebruary()
    ensures var t := Step(AfterBoundaryFailure(), Refund(0));
            && Used(t, "ada", CurrentPeriodStart(FEB), Profile) == 0
            && 1 in t.gens && t.gens[1] == FEB_ROW
  {
    assert PeriodOf(FEB) == CurrentPeriodStart(FEB);
    PeriodKeysAgree(JAN, FEB);
  }

  /** Without that assumption the cover fails: the January reservation's refund lands on February's counter. */
  lemma MonthBoundaryUncoversARow()
    ensures var s := Run(Init(PLAN), BoundaryStart() + BoundaryFailure() + [Refund(0)]);
            |NonFailed(s, "ada", CurrentPeriodStart(FEB), Profile)| > Used(s, "ada", CurrentPeriodStart(FEB), Profile)
  {
    BoundaryRunStarts();
    BoundaryJobFails();
    BoundaryRefundDrainsFebruary();
    RunAppend(Init(PLAN), BoundaryStart(), BoundaryFailure());
    RunAppend(Init(PLAN), BoundaryStart() + BoundaryFailure(), [Refund(0)]);
    var s := Step(AfterBoundaryFailure(), Refund(0));
    assert Run(AfterBoundaryFailure(), [Refund(0)]) == s;
    PeriodKeysAgree(FEB, FEB);
    assert 1 in NonFailed(s, "ada", CurrentPeriodStart(FEB), Profile);
  }

  /** A refund that is due is never lost to the `> 0` guard, unless strays drained the row first. */
  lemma RefundTakesEffect(s: State, r: nat)
    requires Valid(s) && AtStage(s, r, Refunding) && r in s.gens
    requires var g := s.gens[r]; Strays(s, g.userId, PeriodOf(g.createdAt), g.kind) == {}
    ensures var g, t := s.gens[r], StepRefund(s, r);
            var p := PeriodOf(g.createdAt);
            && r in t.refunded
            && Used(t, g.userId, p, g.kind) == Used(s, g.userId, p, g.kind) - 1
  {
    var g := s.gens[r];
    var u, p, k := g.userId, PeriodOf(g.createdAt), g.kind;
    assert Sound(s, r) && Balanced(s, u, p, k);
    var back := GivenBack(s, u, p, k);
    assert r !in back;
    forall x | x in back + {r} ensures x in Reserved(s.requests, u, p, k) {
      assert x in Created(s.gens, u, p, k);
      assert x !in Strays(s, u, p, k);
    }
    SubsetIsNoLarger(back + {r}, Reserved(s.requests, u, p, k));
    RefundCreditsOneCounter(s, r, u, p, k);
  }

  /**
   * A refund lowers the counter its own reservation raised exactly when no month boundary fell between them and that
   * counter was not drained to zero before, which takes a stray of its month.
   */
  lemma RefundCreditsTheReservedRowIff(s: State, r: nat)
    requires Valid(s) && AtStage(s, r, Refunding) && r in s.gens && r in s.requests
    ensures var q, t := s.requests[r], StepRefund(s, r);
            var p := CurrentPeriodStart(q.at);
            (Used(t, q.userId, p, q.kind) < Used(s, q.userId, p, q.kind))
              <==> SameMonth(s, r) && Used(s, q.userId, p, q.kind) > 0
    ensures var q := s.requests[r];
            var p := CurrentPeriodStart(q.at);
            SameMonth(s, r) && Strays(s, q.userId, p, q.kind) == {} ==> Used(s, q.userId, p, q.kind) > 0
  {
    var q := s.requests[r];
    var p := CurrentPeriodStart(q.at);
    assert Sound(s, r) && Balanced(s, q.userId, p, q.kind);
    RefundCreditsOneCounter(s, r, q.userId, p, q.kind);
    PeriodKeysAgree(q.at, s.gens[r].createdAt);
    if SameMonth(s, r) && Strays(s, q.userId, p, q.kind) == {} {
      RefundTakesEffect(s, r);
    }
  }

  /** A refund is recorded and lowers its row's own month by one exactly when that counter is above zero. */
  lemma RefundTakesEffectIff(s: State, r: nat)
    requires Valid(s) && AtStage(s, r, Refunding) && r in s.gens
    ensures var g, t := s.gens[r], StepRefund(s, r);
            var p := PeriodOf(g.createdAt);
            var given := if Used(s, g.userId, p, g.kind) > 0 then 1 else 0;
            && Used(t, g.userId, p, g.kind) == Used(s, g.userId, p, g.kind) - given
            && t.refunded == s.refunded + (if given == 1 then {r} else {})
  {
    var g := s.gens[r];
    assert Sound(s, r) && Balanced(s, g.userId, PeriodOf(g.createdAt), g.kind);
    RefundCreditsOneCounter(s, r, g.userId, PeriodOf(g.createdAt), g.kind);
  }

  // ---- Status only moves forward ----------------------------------------------------------------------------

  /** The moves a row's status can make in one step. `Queued` to `Failed` is what a refused first save causes. */
  predicate Advances(a: Status, b: Status) {
    || a == b
    || (a == Queued && (b == Running || b == Failed))
    || (a == Running && (b == Completed || b == Failed))
  }

  lemma StepAdvancesStatus(s: State, e: Event, r: nat)
    requires Sound(s, r) && r in s.gens
    ensures var t := Step(s, e);
            && r in t.gens
            && Advances(s.gens[r].status, t.gens[r].status)
            && ((s.gens[r].status == Queued && t.gens[r].status == Failed)
                  <==> (e == Fail(r, Saved) && CaughtWhileQueued(s, r)))
  {
    if r == e.r && r in s.workers && IsWorkerEvent(e) {
      assert WorkerSound(s.workers[r], s.gens[r]);
    }
  }

  predicate CaughtWhileQueued(s: State, r: nat) {
    r in s.workers && s.workers[r].stage.Catching? && r in s.gens && s.gens[r].status == Queued
  }

  /**
   * Whether the last thing that happened to job `r` in a run is that its first save was refused: the worker had just
   * loaded the row, and since then neither stopped nor went through its `catch` block. `so` is the answer so far.
   */
  predicate FirstSaveRefused(s: State, es: seq<Event>, r: nat, so: bool)
    decreases |es|
  {
    if es == [] then so
    else FirstSaveRefused(Step(s, es[0]), es[1..], r, RefusedAfter(s, es[0], r, so))
  }

  predicate RefusedAfter(s: State, e: Event, r: nat, so: bool) {
    if e.r != r then so
    else if e.Gather? && e.saved.Refused? && AtStage(s, r, Loaded) then true
    else if e.Fail? || e.Stop? then false
    else so
  }

  lemma WorkerStepMovesCaught(s: State, e: Event)
    requires Sound(s, e.r) && IsWorkerEvent(e)
    ensures CaughtWhileQueued(Step(s, e), e.r) == RefusedAfter(s, e, e.r, CaughtWhileQueued(s, e.r))
  {
    if e.r in s.workers {
      assert WorkerSound(s.workers[e.r], s.gens[e.r]);
    }
  }

  lemma ApiStepKeepsCaught(s: State, e: Event)
    requires Sound(s, e.r) && !IsWorkerEvent(e)
    ensures CaughtWhileQueued(Step(s, e), e.r) == CaughtWhileQueued(s, e.r)
  {
  }

  /** The stored row and the worker of job `r` are as they were. */
  predicate JobUntouched(s: State, t: State, r: nat) {
    && (r in t.gens <==> r in s.gens) && (r in s.gens ==> t.gens[r] == s.gens[r])
    && (r in t.workers <==> r in s.workers) && (r in s.workers ==> t.workers[r] == s.workers[r])
  }

  lemma WorkerStepTouchesItsJob(s: State, e: Event, r: nat)
    requires e.r != r && IsWorkerEvent(e)
    ensures JobUntouched(s, Step(s, e), r)
  {
    assert Step(s, e) == StepJob(s, e);
  }

  lemma ApiStepTouchesItsJob(s: State, e: Event, r: nat)
    requires e.r != r && !IsWorkerEvent(e)
    ensures JobUntouched(s, Step(s, e), r)
  {
  }

  lemma OtherJobsUntouched(s: State, e: Event, r: nat)
    requires e.r != r
    ensures JobUntouched(s, Step(s, e), r)
  {
    if IsWorkerEvent(e) {
      WorkerStepTouchesItsJob(s, e, r);
    } else {
      ApiStepTouchesItsJob(s, e, r);
    }
  }

  lemma RefusalIsCaught(s: State, e: Event, r: nat)
    requires Sound(s, r)
    ensures CaughtWhileQueued(Step(s, e), r) == RefusedAfter(s, e, r, CaughtWhileQueued(s, r))
  {
    if e.r != r {
      OtherJobsUntouched(s, e, r);
    } else if IsWorkerEvent(e) {
      WorkerStepMovesCaught(s, e);
    } else {
      ApiStepKeepsCaught(s, e);
    }
  }

  lemma {:induction false} RefusalsAreCaught(s: State, es: seq<Event>, r: nat)
    requires Valid(s)
    ensures CaughtWhileQueued(Run(s, es), r) == FirstSaveRefused(s, es, r, CaughtWhileQueued(s, r))
    decreases |es|
  {
    if es != [] {
      assert Sound(s, r);
      RefusalIsCaught(s, es[0], r);
      StepKeepsValid(s, es[0]);
      RefusalsAreCaught(Step(s, es[0]), es[1..], r);
    }
  }

  /**
   * The exact way round the order queued, running, settled: in any run a step takes a row from queued to failed if and
   * only if it records the failure of a job whose very first save was refused.
   */
  lemma RunningIsSkippedIff(plan: map<(string, QuotaKind), int>, es: seq<Event>, e: Event, r: nat)
    requires r in Run(Init(plan), es).gens
    ensures var s := Run(Init(plan), es);
            && r in Step(s, e).gens
            && ((s.gens[r].status == Queued && Step(s, e).gens[r].status == Failed)
                  <==> (e == Fail(r, Saved) && FirstSaveRefused(Init(plan), es, r, false)))
  {
    EveryRunIsValid(plan, []);
    EveryRunIsValid(plan, es);
    RefusalsAreCaught(Init(plan), es, r);
    assert Sound(Run(Init(plan), es), r);
    StepAdvancesStatus(Run(Init(plan), es), e, r);
  }

  lemma {:induction false} NoRefusalNoSkip(s: State, es: seq<Event>, r: nat)
    requires forall e :: e in es && e.Gather? && e.r == r ==> e.saved.Saved?
    ensures !FirstSaveRefused(s, es, r, false)
    decreases |es|
  {
    if es != [] {
      assert es[0] in es;
      NoRefusalNoSkip(Step(s, es[0]), es[1..], r);
    }
  }

  /** When the first save of every job takes effect, no row ever skips running. */
  lemma StatusOrderHoldsWithoutRefusals(plan: map<(string, QuotaKind), int>, es: seq<Event>, e: Event, r: nat)
    requires r in Run(Init(plan), es).gens
    requires forall d :: d in es && d.Gather? && d.r == r ==> d.saved.Saved?
    ensures var s := Run(Init(plan), es);
            r in Step(s, e).gens && !(s.gens[r].status == Queued && Step(s, e).gens[r].status == Failed)
  {
    NoRefusalNoSkip(Init(plan), es, r);
    RunningIsSkippedIff(plan, es, e, r);
  }

  /** And a refused first save does lead there, from every sound state with a job just loaded. */
  lemma RefusedFirstSaveSkipsRunning(s: State, r: nat, message: string)
    requires Sound(s, r) && AtStage(s, r, Loaded)
    ensures r in s.gens && s.gens[r].status == Queued
    ensures var t := Step(Step(s, Gather(r, Refused(message))), Fail(r, Saved));
            r in t.gens && t.gens[r].status == Failed && t.gens[r].error == Some(message)
  {
    assert WorkerSound(s.workers[r], s.gens[r]);
    RefusalIsCaught(s, Gather(r, Refused(message)), r);
  }

  // ---- The markdown of a failed row -------------------------------------------------------------------------

  /** A row without a result holds no markdown, nor does the entity of a worker still on its way to one. */
  predicate NoMarkdownYet(s: State, r: nat) {
    && (r in s.gens && (s.gens[r].status == Queued || s.gens[r].status == Running) ==> s.gens[r].generatedMd.None?)
    && (AtStage(s, r, Loaded) || AtStage(s, r, Working) ==> s.workers[r].mem.generatedMd.None?)
  }

  /** A worker in its `catch` block whose entity was already completed in memory. */
  predicate CaughtCompleted(s: State, r: nat) {
    r in s.workers && s.workers[r].stage.Catching? && s.workers[r].mem.generatedMd.Some?
  }

  /**
   * Whether the last thing that happened to job `r` in a run is that its completing save was refused; since then the
   * worker neither stopped nor went through its `catch` block. `so` is the answer so far.
   */
  predicate CompletionRefused(s: State, es: seq<Event>, r: nat, so: bool)
    decreases |es|
  {
    if es == [] then so
    else CompletionRefused(Step(s, es[0]), es[1..], r, CompletionRefusedAfter(s, es[0], r, so))
  }

  predicate CompletionRefusedAfter(s: State, e: Event, r: nat, so: bool) {
    if e.r != r then so
    else if e.Finish? && e.saved.Refused? && AtStage(s, r, Working) then Failure(s.workers[r].mem, e.outcome).None?
    else if e.Fail? || e.Stop? then false
    else so
  }

  lemma WorkerStepMovesMarkdown(s: State, e: Event)
    requires Sound(s, e.r) && NoMarkdownYet(s, e.r) && IsWorkerEvent(e)
    ensures NoMarkdownYet(Step(s, e), e.r)
    ensures CaughtCompleted(Step(s, e), e.r) == CompletionRefusedAfter(s, e, e.r, CaughtCompleted(s, e.r))
  {
    if e.r in s.workers {
      assert WorkerSound(s.workers[e.r], s.gens[e.r]);
    }
  }

  lemma ApiStepKeepsMarkdown(s: State, e: Event)
    requires Sound(s, e.r) && NoMarkdownYet(s, e.r) && !IsWorkerEvent(e)
    ensures NoMarkdownYet(Step(s, e), e.r)
    ensures CaughtCompleted(Step(s, e), e.r) == CaughtCompleted(s, e.r)
  {
  }

  lemma {:induction false} CompletionsAreCaught(s: State, es: seq<Event>, r: nat)
    requires Valid(s) && NoMarkdownYet(s, r)
    ensures NoMarkdownYet(Run(s, es), r)
    ensures CaughtCompleted(Run(s, es), r) == CompletionRefused(s, es, r, CaughtCompleted(s, r))
    decreases |es|
  {
    if es != [] {
      var e := es[0];
      assert Sound(s, r);
      if e.r != r {
        OtherJobsUntouched(s, e, r);
      } else if IsWorkerEvent(e) {
        WorkerStepMovesMarkdown(s, e);
      } else {
        ApiStepKeepsMarkdown(s, e);
      }
      StepKeepsValid(s, e);
      CompletionsAreCaught(Step(s, e), es[1..], r);
    }
  }

  lemma FailingStepKeepsMarkdown(s: State, e: Event, r: nat)
    requires Sound(s, r) && NoMarkdownYet(s, r) && r in s.gens && s.gens[r].status != Failed
    ensures r in Step(s, e).gens
    ensures Step(s, e).gens[r].status == Failed ==> (Step(s, e).gens[r].generatedMd.Some? <==> CaughtCompleted(s, r))
  {
    if r == e.r && r in s.workers && IsWorkerEvent(e) {
      assert WorkerSound(s.workers[r], s.gens[r]);
    }
  }

  /**
   * In any run a row that fails is left with markdown if and only if the save that refused to complete it is what made
   * its job fail. As failed rows never change again, that is for good.
   */
  lemma FailedRowHoldsMarkdownIff(plan: map<(string, QuotaKind), int>, es: seq<Event>, e: Event, r: nat)
    requires r in Run(Init(plan), es).gens && Run(Init(plan), es).gens[r].status != Failed
    requires r in Step(Run(Init(plan), es), e).gens && Step(Run(Init(plan), es), e).gens[r].status == Failed
    ensures Step(Run(Init(plan), es), e).gens[r].generatedMd.Some? <==> CompletionRefused(Init(plan), es, r, false)
  {
    EveryRunIsValid(plan, []);
    EveryRunIsValid(plan, es);
    CompletionsAreCaught(Init(plan), es, r);
    assert Sound(Run(Init(plan), es), r);
    FailingStepKeepsMarkdown(Run(Init(plan), es), e, r);
  }

  /** And a refused completing save does leave it, from every sound state with a job at work. */
  lemma RefusedCompletionKeepsMarkdown(s: State, r: nat, outcome: Outcome, message: string)
    requires Sound(s, r) && AtStage(s, r, Working) && Failure(s.workers[r].mem, outcome).None?
    ensures var t := Step(Step(s, Finish(r, outcome, Refused(message))), Fail(r, Saved));
            r in t.gens && t.gens[r].status == Failed && t.gens[r].generatedMd == Some(outcome.markdown)
  {
    var w, done := s.workers[r], Completion(s.workers[r].mem, outcome);
    assert JobStep(s.gens[r], w, Finish(r, outcome, Refused(message)))
        == Job(s.gens[r], Some(Worker(Catching(message), done)));
  }

  // ---- What stays settled -----------------------------------------------------------------------------------

  /** Once completed or failed, a row keeps that status, and a completed row its model, for the rest of any run. */
  lemma {:induction false} SettledRowsStaySettled(s: State, es: seq<Event>, r: nat)
    requires Valid(s) && r in s.gens && (s.gens[r].status == Completed || s.gens[r].status == Failed)
    ensures var t := Run(s, es);
            && r in t.gens
            && t.gens[r].status == s.gens[r].status
            && t.gens[r].provider == s.gens[r].provider && t.gens[r].model == s.gens[r].model
            && (s.gens[r].status == Failed ==> t.gens[r] == s.gens[r])
    decreases |es|
  {
    if es != [] {
      assert Sound(s, r);
      SettledRowStep(s, es[0], r);
      StepKeepsValid(s, es[0]);
      SettledRowsStaySettled(Step(s, es[0]), es[1..], r);
    }
  }

  lemma SettledRowStep(s: State, e: Event, r: nat)
    requires Sound(s, r) && r in s.gens && (s.gens[r].status == Completed || s.gens[r].status == Failed)
    ensures var t := Step(s, e);
            && r in t.gens
            && t.gens[r].status == s.gens[r].status
            && t.gens[r].provider == s.gens[r].provider && t.gens[r].model == s.gens[r].model
            && (s.gens[r].status == Failed ==> t.gens[r] == s.gens[r])
  {
    if r == e.r && r in s.workers && IsWorkerEvent(e) {
      assert WorkerSound(s.workers[r], s.gens[r]);
    }
  }

  lemma SpentJobStep(s: State, e: Event, r: nat)
    requires r in s.sent && r !in s.queue && r !in s.workers
    ensures var t := Step(s, e); r in t.sent && r !in t.queue && r !in t.workers
  {
  }

  /** A job no worker holds and no queue offers is never handed out again: delivery is at most once. */
  lemma {:induction false} DeliveredAtMostOnce(s: State, es: seq<Event>, r: nat)
    requires r in s.sent && r !in s.queue && r !in s.workers
    ensures var t := Run(s, es); r !in t.queue && r !in t.workers
    decreases |es|
  {
    if es != [] {
      SpentJobStep(s, es[0], r);
      DeliveredAtMostOnce(Step(s, es[0]), es[1..], r);
    }
  }
}
