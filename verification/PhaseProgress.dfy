/**
 * The progress panel of a running job. It polls the job's phase, so it sees a subsequence of the phases the agent
 * reported, with repetitions; it counts revisions and moves a percentage from what it sees.
 */
module PhaseProgress {
  import opened Basics
  import opened ReadmeAgent

  /** One poll: the row's phase, null before the first save, and whether its status is still `queued`. */
  datatype Poll = Poll(phase: Option<string>, queued: bool)

  /** What the panel remembers between renders. */
  datatype Memory = Memory(prevPhase: Option<string>, sawReview: bool, round: nat, maxPct: nat)

  const PROFILE_STEPS := ["gathering", "analyzing", "drafting", "reviewing"]
  const REPO_STEPS := ["gathering", "drafting", "reviewing"]

  function Fresh(): Memory {
    Memory(None, false, 1, 0)
  }

  /** `steps.findIndex`. */
  function FindStep(steps: seq<string>, phase: string): (r: Option<nat>)
    ensures r.Some? ==> r.value < |steps| && steps[r.value] == phase
  {
    if steps == [] then None
    else if steps[0] == phase then Some(0)
    else
      var r := FindStep(steps[1..], phase);
      if r.Some? then Some(r.value + 1) else None
  }

  /** The step shown, or nothing while the job is still starting. */
  function CurrentStep(steps: seq<string>, poll: Poll): (r: Option<nat>)
    ensures r.Some? ==> r.value < |steps|
  {
    if poll.queued || poll.phase.None? || poll.phase.value == "" || poll.phase.value == "queued" then None
    else FindStep(steps, poll.phase.value)
  }

  /** `Math.round(((current + 0.5) / n) * 100)`, computed exactly; halves round up. */
  function StepPct(current: nat, n: nat): nat
    requires current < n
  {
    (100 * (2 * current + 1) + n) / (2 * n)
  }

  function RawPct(steps: seq<string>, poll: Poll): nat {
    var current := CurrentStep(steps, poll);
    if current.None? then 6 else StepPct(current.value, |steps|)
  }

  /** One render. */
  function Observe(m: Memory, steps: seq<string>, poll: Poll): Memory {
    var phase := poll.phase;
    var seen :=
      if phase == m.prevPhase then m
      else if phase == Some("reviewing") then m.(sawReview := true, prevPhase := phase)
      else if phase == Some("drafting") && m.sawReview then
        m.(round := m.round + 1, sawReview := false, prevPhase := phase)
      else m.(prevPhase := phase);
    seen.(maxPct := Max(m.maxPct, RawPct(steps, poll)))
  }

  function ObserveAll(m: Memory, steps: seq<string>, polls: seq<Poll>): Memory
    decreases |polls|
  {
    if polls == [] then m else Observe(ObserveAll(m, steps, polls[..|polls| - 1]), steps, polls[|polls| - 1])
  }

  /** The revision number the panel shows; it appears once it is at least 1. */
  function ShownRevision(m: Memory): int {
    m.round - 1
  }

  // ---- The percentage ---------------------------------------------------------------------------------------

  /** A list of steps keeps every step below 100 exactly when it has fewer than a hundred of them. */
  lemma AllStepsBelow100Iff(n: nat)
    requires n > 0
    ensures (forall current: nat :: current < n ==> StepPct(current, n) < 100) <==> n < 100
  {
    forall current: nat | current < n
      ensures StepPct(current, n) < 100 <==> 200 * current + 100 < 199 * n
    {
      var a, b := 100 * (2 * current + 1) + n, 2 * n;
      assert b * 100 == 200 * n;
      QuotientBelow(a, b, 100);
    }
    if n >= 100 {
      assert StepPct(n - 1, n) >= 100;
    }
  }

  lemma QuotientBelow(a: nat, b: nat, q: nat)
    requires b > 0
    ensures a / b < q <==> a < b * q
  {
    assert a == b * (a / b) + a % b;
    if a / b < q {
      assert b * (a / b + 1) <= b * q;
    } else {
      assert b * (a / b) >= b * q;
    }
  }

  /** For every list of polls the percentage never decreases, and with fewer than 100 steps it stays below 100. */
  lemma {:induction false} PercentageIsMonotoneAndUnfinished(m: Memory, steps: seq<string>, polls: seq<Poll>, k: nat)
    requires |steps| < 100 && m.maxPct < 100 && k <= |polls|
    ensures ObserveAll(m, steps, polls[..k]).maxPct <= ObserveAll(m, steps, polls).maxPct < 100
    decreases |polls|
  {
    if k == |polls| {
      assert polls[..k] == polls;
    }
    if polls != [] {
      var init, last := polls[..|polls| - 1], polls[|polls| - 1];
      var j := if k == |polls| then k - 1 else k;
      assert init[..j] == polls[..j];
      PercentageIsMonotoneAndUnfinished(m, steps, init, j);
      var current := CurrentStep(steps, last);
      if current.Some? {
        AllStepsBelow100Iff(|steps|);
      }
    }
  }

  /** The bar of one poll at step `k`: the middle of that step in percent, rounded, halves up; 6 while still queued. */
  lemma BarShowsTheStep(steps: seq<string>, poll: Poll, k: nat)
    requires k < |steps| && poll.phase == Some(steps[k]) && forall j :: 0 <= j < k ==> steps[j] != steps[k]
    requires steps[k] != "" && steps[k] != "queued"
    ensures RawPct(steps, poll.(queued := true)) == 6
    ensures var pct := RawPct(steps, poll.(queued := false));
            && IsRounded(pct, 100 * (2 * k + 1), 2 * |steps|)
            && (|steps| <= 100 ==> 100 * k <= pct * |steps| <= 100 * (k + 1))
  {
    FindStepFinds(steps, k);
    var n := |steps|;
    RoundedQuotient(100 * (2 * k + 1), 2 * n);
    if n <= 100 {
      RoundedIsInStep(StepPct(k, n), k, n);
    }
  }

  /** `p` is `a / b` rounded to the nearest whole number, halves up. */
  predicate IsRounded(p: nat, a: nat, b: nat) {
    b * (2 * p - 1) <= 2 * a < b * (2 * p + 1)
  }

  lemma RoundedQuotient(a: nat, n2: nat)
    requires n2 > 0 && n2 % 2 == 0
    ensures IsRounded((a + n2 / 2) / n2, a, n2)
  {
    var p := (a + n2 / 2) / n2;
    assert a + n2 / 2 == n2 * p + (a + n2 / 2) % n2;
    assert n2 * (2 * p - 1) == 2 * (n2 * p) - n2 && n2 * (2 * p + 1) == 2 * (n2 * p) + n2;
  }

  /** The middle of a step is at least half a step from either end, so rounding stays inside it up to 100 steps. */
  lemma RoundedIsInStep(p: nat, k: nat, n: nat)
    requires k < n <= 100 && IsRounded(p, 100 * (2 * k + 1), 2 * n)
    ensures 100 * k <= p * n <= 100 * (k + 1)
  {
    assert 2 * n * (2 * p - 1) == 4 * (p * n) - 2 * n;
    assert 2 * n * (2 * p + 1) == 4 * (p * n) + 2 * n;
  }

  lemma {:induction false} FindStepFinds(steps: seq<string>, k: nat)
    requires k < |steps| && forall j :: 0 <= j < k ==> steps[j] != steps[k]
    ensures FindStep(steps, steps[k]) == Some(k)
  {
    if k > 0 {
      assert steps[0] != steps[k];
      FindStepFinds(steps[1..], k - 1);
    }
  }

  /** While no step is reported, or one the panel does not know, the bar stands at its start. */
  lemma BarStarts(steps: seq<string>, poll: Poll)
    requires poll.queued || poll.phase.None? || poll.phase.value == "" || poll.phase.value == "queued"
             || poll.phase.value !in steps
    ensures RawPct(steps, poll) == 6
  {
  }

  /** The bar shows the furthest any poll has been. */
  lemma {:induction false} BarShowsTheFurthest(m: Memory, steps: seq<string>, polls: seq<Poll>)
    ensures var pct := ObserveAll(m, steps, polls).maxPct;
            && m.maxPct <= pct && (forall i :: 0 <= i < |polls| ==> RawPct(steps, polls[i]) <= pct)
            && (pct == m.maxPct || exists i :: 0 <= i < |polls| && RawPct(steps, polls[i]) == pct)
    decreases |polls|
  {
    if polls != [] {
      var init := polls[..|polls| - 1];
      BarShowsTheFurthest(m, steps, init);
      var pct := ObserveAll(m, steps, init).maxPct;
      if pct != m.maxPct {
        var i :| 0 <= i < |init| && RawPct(steps, init[i]) == pct;
        assert RawPct(steps, polls[i]) == pct;
      }
      forall i | 0 <= i < |polls| ensures RawPct(steps, polls[i]) <= ObserveAll(m, steps, polls).maxPct {
        if i < |init| {
          assert polls[i] == init[i];
        }
      }
    }
  }

  // ---- What a poll can see ----------------------------------------------------------------------------------

  /** The row before any phase was saved, then after the save at `i`. */
  function PollAt(trace: seq<string>, i: int): Poll
    requires -1 <= i < |trace|
  {
    if i < 0 then Poll(Some("queued"), true) else Poll(Some(trace[i]), false)
  }

  /** Times of polls: each inside the trace, never going back; several may fall together. */
  predicate PollTimes(trace: seq<string>, times: seq<int>) {
    && (forall k :: 0 <= k < |times| ==> -1 <= times[k] < |trace|)
    && (forall k, l :: 0 <= k < l < |times| ==> times[k] <= times[l])
  }

  function Polls(trace: seq<string>, times: seq<int>): seq<Poll>
    requires PollTimes(trace, times)
  {
    seq(|times|, k requires 0 <= k < |times| => PollAt(trace, times[k]))
  }

  /** From the poll at `i` to the next one at `j`, only phases equal to the one already on screen go by unseen. */
  predicate NothingUnseen(trace: seq<string>, i: int, j: int)
    requires -1 <= i < |trace| && j < |trace|
  {
    forall k :: i < k < j ==> i >= 0 && trace[k] == trace[i]
  }

  /** Each phase the job went through was on screen. */
  predicate NoPhaseMissed(trace: seq<string>, times: seq<int>)
    requires PollTimes(trace, times)
  {
    && (times != [] ==> times[0] <= 0)
    && forall k :: 0 <= k && k + 1 < |times| ==> NothingUnseen(trace, times[k], times[k + 1])
  }

  /** Real loop-backs up to and including index `i`: places where drafting follows reviewing. */
  function LoopBacks(trace: seq<string>, i: int): nat
    requires -1 <= i < |trace|
    decreases i + 1
  {
    if i <= 0 then 0
    else LoopBacks(trace, i - 1) + if trace[i - 1] == "reviewing" && trace[i] == "drafting" then 1 else 0
  }

  function Reviews(trace: seq<string>, i: int): nat
    requires -1 <= i < |trace|
    decreases i + 1
  {
    if i < 0 then 0 else Reviews(trace, i - 1) + if trace[i] == "reviewing" then 1 else 0
  }

  /** What the agents emit: a review is followed by a draft or by nothing, and a draft by a review. */
  predicate ReviewThenDraft(trace: seq<string>) {
    && (forall i :: 0 <= i && i + 1 < |trace| && trace[i] == "reviewing" ==> trace[i + 1] == "drafting")
    && (forall i :: 0 <= i && i + 1 < |trace| && trace[i] == "drafting" ==> trace[i + 1] == "reviewing")
  }

  lemma {:induction false} ReviewsCountLoopBacks(trace: seq<string>, i: int)
    requires ReviewThenDraft(trace) && -1 <= i < |trace|
    ensures Reviews(trace, i) == LoopBacks(trace, i) + if i >= 0 && trace[i] == "reviewing" then 1 else 0
    decreases i + 1
  {
    if i > 0 {
      ReviewsCountLoopBacks(trace, i - 1);
    } else if i == 0 {
      assert Reviews(trace, -1) == 0;
    }
  }

  lemma {:induction false} ReviewsGrow(trace: seq<string>, i: int, j: int)
    requires -1 <= i <= j < |trace|
    ensures Reviews(trace, i) <= Reviews(trace, j)
    ensures i < j && trace[j] == "reviewing" ==> Reviews(trace, i) < Reviews(trace, j)
    decreases j - i
  {
    if i < j {
      ReviewsGrow(trace, i, j - 1);
    }
  }

  /** The panel's memory is consistent with having last seen index `i`. */
  predicate Bounded(m: Memory, trace: seq<string>, i: int)
    requires -1 <= i < |trace|
  {
    && m.round >= 1
    && m.prevPhase == PollAt(trace, i).phase
    && (m.prevPhase == Some("reviewing") ==> m.sawReview)
    && m.round - 1 + (if m.sawReview then 1 else 0) <= Reviews(trace, i)
  }

  lemma PollKeepsBounded(m: Memory, steps: seq<string>, trace: seq<string>, i: int, j: int)
    requires -1 <= i <= j < |trace| && Bounded(m, trace, i)
    ensures Bounded(Observe(m, steps, PollAt(trace, j)), trace, j)
  {
    ReviewsGrow(trace, i, j);
  }

  lemma FirstPollIsBounded(steps: seq<string>, trace: seq<string>, j: int)
    requires -1 <= j < |trace|
    ensures Bounded(Observe(Fresh(), steps, PollAt(trace, j)), trace, j)
  {
    ReviewsGrow(trace, -1, j);
  }

  lemma {:induction false} AllPollsAreBounded(steps: seq<string>, trace: seq<string>, times: seq<int>)
    requires PollTimes(trace, times) && times != []
    ensures Bounded(ObserveAll(Fresh(), steps, Polls(trace, times)), trace, times[|times| - 1])
    decreases |times|
  {
    var init, last := times[..|times| - 1], times[|times| - 1];
    var polls := Polls(trace, times);
    assert polls[..|times| - 1] == Polls(trace, init);
    if init == [] {
      FirstPollIsBounded(steps, trace, last);
      assert ObserveAll(Fresh(), steps, polls[..0]) == Fresh();
    } else {
      AllPollsAreBounded(steps, trace, init);
      assert init[|init| - 1] == times[|times| - 2];
      PollKeepsBounded(ObserveAll(Fresh(), steps, Polls(trace, init)), steps, trace, init[|init| - 1], last);
    }
  }

  /** However polls fall, the revision shown never exceeds the loop-backs that have really happened. */
  lemma ShownRevisionNeverExceeds(steps: seq<string>, trace: seq<string>, times: seq<int>)
    requires ReviewThenDraft(trace) && PollTimes(trace, times) && times != []
    ensures ShownRevision(ObserveAll(Fresh(), steps, Polls(trace, times))) <= LoopBacks(trace, times[|times| - 1])
  {
    AllPollsAreBounded(steps, trace, times);
    ReviewsCountLoopBacks(trace, times[|times| - 1]);
  }

  /** The panel's memory is exact for having seen everything up to index `i`. */
  predicate Exact(m: Memory, trace: seq<string>, i: int)
    requires -1 <= i < |trace|
  {
    && m.prevPhase == PollAt(trace, i).phase
    && (m.sawReview <==> m.prevPhase == Some("reviewing"))
    && m.round - 1 == LoopBacks(trace, i)
  }

  lemma {:induction false} SamePhaseNoLoopBack(trace: seq<string>, i: int, j: int)
    requires 0 <= i <= j < |trace| && ReviewThenDraft(trace)
    requires forall k :: i < k <= j ==> trace[k] == trace[i]
    ensures LoopBacks(trace, j) == LoopBacks(trace, i)
    decreases j - i
  {
    if i < j {
      SamePhaseNoLoopBack(trace, i, j - 1);
    }
  }

  lemma NextPollIsExact(m: Memory, steps: seq<string>, trace: seq<string>, i: int, j: int)
    requires -1 <= i <= j < |trace| && ReviewThenDraft(trace) && Exact(m, trace, i)
    requires NothingUnseen(trace, i, j)
    ensures Exact(Observe(m, steps, PollAt(trace, j)), trace, j)
  {
    if i < j {
      if i >= 0 {
        SamePhaseNoLoopBack(trace, i, j - 1);
        assert trace[j - 1] == trace[i];
      }
    }
  }

  /** When no phase is missed, the revision shown is exactly the number of loop-backs so far. */
  lemma {:induction false} ShownRevisionIsExact(steps: seq<string>, trace: seq<string>, times: seq<int>)
    requires ReviewThenDraft(trace) && PollTimes(trace, times) && times != [] && NoPhaseMissed(trace, times)
    requires trace != [] ==> trace[0] != "reviewing"
    ensures Exact(ObserveAll(Fresh(), steps, Polls(trace, times)), trace, times[|times| - 1])
    ensures ShownRevision(ObserveAll(Fresh(), steps, Polls(trace, times))) == LoopBacks(trace, times[|times| - 1])
    decreases |times|
  {
    var init, last := times[..|times| - 1], times[|times| - 1];
    var polls := Polls(trace, times);
    assert polls[..|times| - 1] == Polls(trace, init);
    if init == [] {
      assert ObserveAll(Fresh(), steps, polls[..0]) == Fresh();
    } else {
      ShownRevisionIsExact(steps, trace, init);
      assert init[|init| - 1] == times[|times| - 2];
      NextPollIsExact(ObserveAll(Fresh(), steps, Polls(trace, init)), steps, trace, init[|init| - 1], last);
    }
  }

  // ---- The traces the workers emit --------------------------------------------------------------------------

  function ProfileTrace(revisions: nat): seq<string> {
    ["gathering", "analyzing", "analyzing", "analyzing"] + LoopPhases(revisions)
  }

  function RepoTrace(revisions: nat): seq<string> {
    ["gathering"] + LoopPhases(revisions)
  }

  lemma {:induction false} LoopPhasesLength(n: nat)
    ensures |LoopPhases(n)| == 2 * n
  {
    if n > 0 {
      LoopPhasesLength(n - 1);
    }
  }

  function PhaseOf(i: nat): string {
    if i % 2 == 0 then "drafting" else "reviewing"
  }

  lemma {:induction false} LoopPhasesAt(n: nat, i: nat)
    requires i < 2 * n
    ensures |LoopPhases(n)| == 2 * n && LoopPhases(n)[i] == PhaseOf(i)
  {
    LoopPhasesLength(n);
    LoopPhasesLength(n - 1);
    if i < 2 * (n - 1) {
      LoopPhasesAt(n - 1, i);
    }
  }

  predicate LeadIn(lead: seq<string>) {
    lead != [] && forall i :: 0 <= i < |lead| ==> lead[i] != "drafting" && lead[i] != "reviewing"
  }

  /** After `lead` phases of another kind, drafting and reviewing take turns. */
  predicate TakesTurns(trace: seq<string>, lead: nat) {
    && (forall k :: 0 <= k < lead && k < |trace| ==> trace[k] != "drafting" && trace[k] != "reviewing")
    && (forall k :: lead <= k < |trace| ==> trace[k] == PhaseOf(k - lead))
  }

  lemma TurnsAreOrdered(trace: seq<string>, lead: nat)
    requires TakesTurns(trace, lead)
    ensures ReviewThenDraft(trace)
  {
    forall i | 0 <= i && i + 1 < |trace|
      ensures trace[i] == "reviewing" ==> trace[i + 1] == "drafting"
      ensures trace[i] == "drafting" ==> trace[i + 1] == "reviewing"
    {
      if i >= lead {
        assert trace[i] == PhaseOf(i - lead) && trace[i + 1] == PhaseOf(i + 1 - lead);
      }
    }
  }

  lemma {:induction false} CountLoopBacks(trace: seq<string>, lead: nat, i: int)
    requires 1 <= lead && -1 <= i < |trace| && TakesTurns(trace, lead)
    ensures LoopBacks(trace, i) == if i < lead then 0 else (i - lead) / 2
    decreases i + 1
  {
    if i > 0 {
      CountLoopBacks(trace, lead, i - 1);
      if i > lead {
        assert trace[i - 1] == PhaseOf(i - 1 - lead) && trace[i] == PhaseOf(i - lead);
      }
    }
  }

  /** Any lead-in followed by the loop's phases is a well-ordered trace with one loop-back fewer than revisions. */
  lemma AgentTraceLoopsBack(lead: seq<string>, revisions: nat)
    requires LeadIn(lead)
    ensures var trace := lead + LoopPhases(revisions);
            && ReviewThenDraft(trace) && trace[0] != "reviewing"
            && LoopBacks(trace, |trace| - 1) == Max(revisions - 1, 0)
  {
    var trace := lead + LoopPhases(revisions);
    LoopPhasesLength(revisions);
    LoopTakesTurns(lead, revisions);
    TurnsAreOrdered(trace, |lead|);
    CountLoopBacks(trace, |lead|, |trace| - 1);
  }

  lemma LoopTakesTurns(lead: seq<string>, revisions: nat)
    requires LeadIn(lead)
    ensures TakesTurns(lead + LoopPhases(revisions), |lead|)
  {
    LoopPhasesLength(revisions);
    forall k | |lead| <= k < |lead| + 2 * revisions
      ensures (lead + LoopPhases(revisions))[k] == PhaseOf(k - |lead|)
    {
      LoopPhasesAt(revisions, k - |lead|);
    }
  }

  /**
   * For a profile job of any model and bound, the panel's last revision number is at most the revisions the agent
   * made beyond its first draft, and is exactly that when no phase was missed up to the end.
   */
  lemma ProfileJobShowsItsRevisions(m: Model, bound: int, resumeFirst: bool, times: seq<int>)
    requires var trace := ProfileTrace(ProfileRun(m, bound, resumeFirst).revisions);
             PollTimes(trace, times) && times != []
    ensures var revisions := ProfileRun(m, bound, resumeFirst).revisions;
            var trace := ProfileTrace(revisions);
            var shown := ShownRevision(ObserveAll(Fresh(), PROFILE_STEPS, Polls(trace, times)));
            && shown <= LoopBacks(trace, times[|times| - 1])
            && (NoPhaseMissed(trace, times) && times[|times| - 1] == |trace| - 1 ==> shown == Max(revisions - 1, 0))
  {
    var revisions := ProfileRun(m, bound, resumeFirst).revisions;
    var trace := ProfileTrace(revisions);
    AgentTraceLoopsBack(["gathering", "analyzing", "analyzing", "analyzing"], revisions);
    ShownRevisionNeverExceeds(PROFILE_STEPS, trace, times);
    if NoPhaseMissed(trace, times) {
      ShownRevisionIsExact(PROFILE_STEPS, trace, times);
    }
  }

  lemma RepoJobShowsItsRevisions(m: Model, bound: int, times: seq<int>)
    requires var trace := RepoTrace(RepoRun(m, bound).revisions);
             PollTimes(trace, times) && times != []
    ensures var revisions := RepoRun(m, bound).revisions;
            var trace := RepoTrace(revisions);
            var shown := ShownRevision(ObserveAll(Fresh(), REPO_STEPS, Polls(trace, times)));
            && shown <= LoopBacks(trace, times[|times| - 1])
            && (NoPhaseMissed(trace, times) && times[|times| - 1] == |trace| - 1 ==> shown == Max(revisions - 1, 0))
  {
    var revisions := RepoRun(m, bound).revisions;
    var trace := RepoTrace(revisions);
    AgentTraceLoopsBack(["gathering"], revisions);
    ShownRevisionNeverExceeds(REPO_STEPS, trace, times);
    if NoPhaseMissed(trace, times) {
      ShownRevisionIsExact(REPO_STEPS, trace, times);
    }
  }

  /** What the shipped panels show of each save: the profile job's four steps at 13, 38, 63 and 88 percent. */
  lemma ProfileBar(revisions: nat, i: int)
    requires -1 <= i < |ProfileTrace(revisions)|
    ensures RawPct(PROFILE_STEPS, PollAt(ProfileTrace(revisions), i)) ==
              if i < 0 then 6 else if i == 0 then 13 else if i <= 3 then 38 else if i % 2 == 0 then 63 else 88
  {
    var trace := ProfileTrace(revisions);
    LoopPhasesLength(revisions);
    if i >= 4 {
      LoopPhasesAt(revisions, i - 4);
      assert trace[i] == PhaseOf(i - 4);
    }
    if i >= 0 {
      StepFound(PROFILE_STEPS, if i == 0 then 0 else if i <= 3 then 1 else if i % 2 == 0 then 2 else 3);
    }
  }

  /** The repo job's three steps at 17, 50 and 83. */
  lemma RepoBar(revisions: nat, i: int)
    requires -1 <= i < |RepoTrace(revisions)|
    ensures RawPct(REPO_STEPS, PollAt(RepoTrace(revisions), i)) ==
              if i < 0 then 6 else if i == 0 then 17 else if i % 2 == 1 then 50 else 83
  {
    var trace := RepoTrace(revisions);
    LoopPhasesLength(revisions);
    if i >= 1 {
      LoopPhasesAt(revisions, i - 1);
      assert trace[i] == PhaseOf(i - 1);
    }
    if i >= 0 {
      StepFound(REPO_STEPS, if i == 0 then 0 else if i % 2 == 1 then 1 else 2);
    }
  }

  lemma StepFound(steps: seq<string>, k: nat)
    requires steps == PROFILE_STEPS || steps == REPO_STEPS
    requires k < |steps|
    ensures RawPct(steps, Poll(Some(steps[k]), false)) == StepPct(k, |steps|)
  {
    FindStepFinds(steps, k);
  }

  // ---- The panel as it runs ---------------------------------------------------------------------------------

  class Panel {
    const steps: seq<string>
    var prevPhase: Option<string>
    var sawReview: bool
    var round: nat
    var maxPct: nat

    function View(): Memory
      reads this
    {
      Memory(prevPhase, sawReview, round, maxPct)
    }

    constructor (steps: seq<string>)
      ensures View() == Fresh() && this.steps == steps
    {
      this.steps := steps;
      prevPhase, sawReview, round, maxPct := None, false, 1, 0;
    }

    method Render(poll: Poll) returns (pct: nat, revision: int)
      modifies this
      ensures View() == Observe(old(View()), steps, poll)
      ensures pct == maxPct && revision == ShownRevision(View()) && pct >= old(maxPct)
    {
      var current := CurrentStep(steps, poll);
      if poll.phase != prevPhase {
        if poll.phase == Some("reviewing") {
          sawReview := true;
        } else if poll.phase == Some("drafting") && sawReview {
          round := round + 1;
          sawReview := false;
        }
        prevPhase := poll.phase;
      }
      var rawPct := if current.None? then 6 else StepPct(current.value, |steps|);
      if rawPct > maxPct {
        maxPct := rawPct;
      }
      pct, revision := maxPct, round - 1;
    }
  }
}
