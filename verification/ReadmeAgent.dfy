/**
 * The README agents: a bounded write/review loop, for the profile preceded by two analysts and a planner. The
 * language model is an arbitrary function of everything said so far, so every behaviour it could show is covered.
 */
module ReadmeAgent {
  import opened Basics
  import opened Text

  // ---- The verdict of a review ------------------------------------------------------------------------------

  function Upper(c: char): char {
    if 'a' <= c <= 'z' then c - 32 as char else c
  }

  predicate WordAt(s: string, i: int) {
    0 <= i < |s| && IsWord(s[i])
  }

  /** `\b` */
  predicate Boundary(s: string, i: int) {
    WordAt(s, i - 1) != WordAt(s, i)
  }

  predicate MatchesAt(s: string, i: nat, word: string) {
    && i + |word| <= |s|
    && (forall k :: 0 <= k < |word| ==> Upper(s[i + k]) == word[k])
    && Boundary(s, i) && Boundary(s, i + |word|)
  }

  /** `/\bAPPROVED\b/i` */
  predicate Approved(text: string) {
    exists i: nat :: i < |text| && MatchesAt(text, i, "APPROVED")
  }

  // ---- Prompts and calls ------------------------------------------------------------------------------------

  /** What a prompt holds besides the fixed context and intent. */
  datatype Prompt =
    | ResumeAnalyst
    | RepoAnalyst
    | Planner(resumeProfile: string, repoProfile: string)
    | Writer(flow: Flow, feedback: Option<string>)
    | Reviewer(flow: Flow, draft: string)

  /** What stays the same throughout one write/review loop. */
  datatype Flow =
    | ProfileFlow(plan: string, resumeProfile: string, repoProfile: string)
    | RepoFlow

  datatype Reply = Reply(text: string, inputTokens: nat, outputTokens: nat)

  datatype Call = Call(prompt: Prompt, reply: Reply)

  type Model = (seq<Call>, Prompt) -> Reply

  /** The writer is given the critique unless it is empty or says APPROVED. */
  function WriterPrompt(flow: Flow, critique: string): Prompt {
    Writer(flow, if critique != "" && !Approved(critique) then Some(critique) else None)
  }

  function Ask(m: Model, log: seq<Call>, prompt: Prompt): seq<Call> {
    log + [Call(prompt, m(log, prompt))]
  }

  function Last(log: seq<Call>): string
    requires log != []
  {
    log[|log| - 1].reply.text
  }

  function InputTokens(log: seq<Call>): nat {
    if log == [] then 0 else InputTokens(log[..|log| - 1]) + log[|log| - 1].reply.inputTokens
  }

  function OutputTokens(log: seq<Call>): nat {
    if log == [] then 0 else OutputTokens(log[..|log| - 1]) + log[|log| - 1].reply.outputTokens
  }

  // ---- The loop ---------------------------------------------------------------------------------------------

  datatype Loop = Loop(log: seq<Call>, draft: string, critique: string, revisions: nat, approved: bool)

  /** `write`, `review`, then `route`, from a state with the given critique and revision count. */
  function WriteReview(m: Model, flow: Flow, bound: int, log: seq<Call>, critique: string, revisions: nat): Loop
    decreases bound - revisions
  {
    var written := Ask(m, log, WriterPrompt(flow, critique));
    var draft := Last(written);
    var reviewed := Ask(m, written, Reviewer(flow, draft));
    var verdict := Last(reviewed);
    if Approved(verdict) || revisions + 1 >= bound then Loop(reviewed, draft, verdict, revisions + 1, Approved(verdict))
    else WriteReview(m, flow, bound, reviewed, verdict, revisions + 1)
  }

  /** The phases a loop of `n` revisions reports. */
  function LoopPhases(n: nat): seq<string> {
    if n == 0 then [] else LoopPhases(n - 1) + ["drafting", "reviewing"]
  }

  /** The critique the writer of round `j` works under. */
  function CritiqueOf(log: seq<Call>, start: nat, first: string, j: nat): string
    requires start + 2 * j <= |log|
  {
    if j == 0 then first else log[start + 2 * j - 1].reply.text
  }

  /** Calls from `start` on alternate writing and reviewing, each fed by the one before. */
  predicate Alternates(log: seq<Call>, start: nat, flow: Flow, first: string, rounds: nat) {
    && |log| == start + 2 * rounds
    && forall j: nat :: j < rounds ==>
         && log[start + 2 * j].prompt == WriterPrompt(flow, CritiqueOf(log, start, first, j))
         && log[start + 2 * j + 1].prompt == Reviewer(flow, log[start + 2 * j].reply.text)
  }

  /** Every verdict but the last sent the draft back. */
  predicate SentBack(log: seq<Call>, start: nat, rounds: nat)
    requires |log| == start + 2 * rounds
  {
    forall j: nat :: j + 1 < rounds ==> !Approved(log[start + 2 * j + 1].reply.text)
  }

  /** The two calls of one round. */
  function Round(m: Model, flow: Flow, log: seq<Call>, critique: string): seq<Call> {
    var written := Ask(m, log, WriterPrompt(flow, critique));
    Ask(m, written, Reviewer(flow, Last(written)))
  }

  lemma RoundShape(m: Model, flow: Flow, log: seq<Call>, critique: string)
    ensures var r, n := Round(m, flow, log, critique), |log|;
            && |r| == n + 2 && log <= r
            && r[n].prompt == WriterPrompt(flow, critique)
            && r[n + 1].prompt == Reviewer(flow, r[n].reply.text)
            && Alternates(r, n, flow, critique, 1) && SentBack(r, n, 1)
  {
  }

  /** `route`, asked after at least one review. */
  predicate Leaves(revisions: nat, approved: bool, bound: int) {
    revisions > 0 && (approved || revisions >= bound)
  }

  /** One turn of the loop, then the route. */
  lemma OneRound(m: Model, flow: Flow, bound: int, log: seq<Call>, critique: string, revisions: nat)
    ensures var reviewed := Round(m, flow, log, critique);
            && |reviewed| == |log| + 2
            && var draft, verdict := reviewed[|log|].reply.text, Last(reviewed);
               WriteReview(m, flow, bound, log, critique, revisions) ==
                 if Leaves(revisions + 1, Approved(verdict), bound)
                 then Loop(reviewed, draft, verdict, revisions + 1, Approved(verdict))
                 else WriteReview(m, flow, bound, reviewed, verdict, revisions + 1)
  {
    var written := Ask(m, log, WriterPrompt(flow, critique));
    var reviewed := Round(m, flow, log, critique);
    assert reviewed[|log|] == written[|log|];
  }

  /** What a loop entered with `log`, `critique` and `revisions` leaves behind. */
  predicate Shaped(r: Loop, flow: Flow, bound: int, log: seq<Call>, critique: string, revisions: nat) {
    var rounds := r.revisions - revisions;
    && rounds >= 1
    && log <= r.log
    && Alternates(r.log, |log|, flow, critique, rounds)
    && SentBack(r.log, |log|, rounds)
    && r.draft == r.log[|r.log| - 2].reply.text && r.critique == Last(r.log)
    && (r.approved <==> Approved(r.critique))
    && (r.approved || r.revisions >= bound)
    && r.revisions <= Max(bound, revisions + 1)
  }

  /** A turn in front of a loop that goes on makes a longer loop of the same shape. */
  lemma OneMoreRound(m: Model, r: Loop, flow: Flow, bound: int, log: seq<Call>, critique: string, revisions: nat)
    requires var reviewed := Round(m, flow, log, critique);
             && |reviewed| == |log| + 2 && !Approved(Last(reviewed)) && revisions + 1 < bound
             && Shaped(r, flow, bound, reviewed, Last(reviewed), revisions + 1)
    ensures Shaped(r, flow, bound, log, critique, revisions)
  {
    var n, reviewed := |log|, Round(m, flow, log, critique);
    RoundShape(m, flow, log, critique);
    assert r.log[n] == reviewed[n] && r.log[n + 1] == reviewed[n + 1];
    RoundsShift(r.log, n, flow, critique, Last(reviewed), r.revisions - revisions);
  }

  lemma {:induction false} LoopShape(m: Model, flow: Flow, bound: int, log: seq<Call>, critique: string, revisions: nat)
    ensures Shaped(WriteReview(m, flow, bound, log, critique, revisions), flow, bound, log, critique, revisions)
    decreases bound - revisions
  {
    var reviewed := Round(m, flow, log, critique);
    RoundShape(m, flow, log, critique);
    OneRound(m, flow, bound, log, critique, revisions);
    var verdict := Last(reviewed);
    if !Leaves(revisions + 1, Approved(verdict), bound) {
      LoopShape(m, flow, bound, reviewed, verdict, revisions + 1);
      var r := WriteReview(m, flow, bound, reviewed, verdict, revisions + 1);
      OneMoreRound(m, r, flow, bound, log, critique, revisions);
    }
  }

  /** A first round in front of an alternating log makes a longer one. */
  lemma RoundsShift(log: seq<Call>, start: nat, flow: Flow, first: string, verdict: string, rounds: nat)
    requires rounds >= 2 && |log| == start + 2 * rounds
    requires log[start].prompt == WriterPrompt(flow, first)
    requires log[start + 1].prompt == Reviewer(flow, log[start].reply.text) && log[start + 1].reply.text == verdict
    requires !Approved(verdict)
    requires Alternates(log, start + 2, flow, verdict, rounds - 1) && SentBack(log, start + 2, rounds - 1)
    ensures Alternates(log, start, flow, first, rounds) && SentBack(log, start, rounds)
  {
    forall j: nat | j < rounds
      ensures log[start + 2 * j].prompt == WriterPrompt(flow, CritiqueOf(log, start, first, j))
      ensures log[start + 2 * j + 1].prompt == Reviewer(flow, log[start + 2 * j].reply.text)
    {
      if j > 0 {
        var k := j - 1;
        assert start + 2 + 2 * k == start + 2 * j;
        assert CritiqueOf(log, start + 2, verdict, k) == CritiqueOf(log, start, first, j);
      }
    }
    forall j: nat | j + 1 < rounds ensures !Approved(log[start + 2 * j + 1].reply.text) {
      if j > 0 {
        assert start + 2 + 2 * (j - 1) + 1 == start + 2 * j + 1;
      }
    }
  }

  /**
   * For any model and any bound: drafts, reviews and `revisions` agree and stay within the bound, stopping without
   * approval means the bound was reached, and the draft returned is the one the last review read.
   */
  lemma LoopIsBoundedAndReviewed(m: Model, flow: Flow, bound: int, log: seq<Call>)
    ensures var r := WriteReview(m, flow, bound, log, "", 0);
            && |r.log| - |log| == 2 * r.revisions
            && 1 <= r.revisions <= Max(bound, 1)
            && (!r.approved ==> r.revisions == Max(bound, 1))
            && r.log[|r.log| - 1].prompt == Reviewer(flow, r.draft)
  {
    LoopShape(m, flow, bound, log, "", 0);
    var r := WriteReview(m, flow, bound, log, "", 0);
    var j: nat := r.revisions - 1;
    assert r.log[|log| + 2 * j + 1].prompt == Reviewer(flow, r.log[|log| + 2 * j].reply.text);
  }

  /** Going back to the writer with something to say always says it: round `j`'s prompt carries the last critique. */
  lemma LoopBackFeedsCritique(m: Model, flow: Flow, bound: int, log: seq<Call>, j: nat)
    requires 1 <= j < WriteReview(m, flow, bound, log, "", 0).revisions
    ensures var r := WriteReview(m, flow, bound, log, "", 0);
            && |r.log| == |log| + 2 * r.revisions
            && var critique := r.log[|log| + 2 * j - 1].reply.text;
               r.log[|log| + 2 * j].prompt == Writer(flow, if critique == "" then None else Some(critique))
  {
    LoopShape(m, flow, bound, log, "", 0);
    var r := WriteReview(m, flow, bound, log, "", 0);
    assert !Approved(r.log[|log| + 2 * (j - 1) + 1].reply.text);
    assert r.log[|log| + 2 * j].prompt == WriterPrompt(flow, CritiqueOf(r.log, |log|, "", j));
  }

  // ---- The two agents ---------------------------------------------------------------------------------------

  datatype AgentResult = AgentResult(markdown: string, inputTokens: nat, outputTokens: nat)

  function ResultOf(r: Loop): AgentResult {
    AgentResult(Trim(r.draft), InputTokens(r.log), OutputTokens(r.log))
  }

  function RepoRun(m: Model, bound: int): Loop {
    WriteReview(m, RepoFlow, bound, [], "", 0)
  }

  /** The fan-out: both analysts answer, in either order, before the planner is asked. */
  function Analyses(m: Model, resumeFirst: bool): (seq<Call>, string, string) {
    if resumeFirst then
      var one := Ask(m, [], ResumeAnalyst);
      var two := Ask(m, one, RepoAnalyst);
      (two, Last(one), Last(two))
    else
      var one := Ask(m, [], RepoAnalyst);
      var two := Ask(m, one, ResumeAnalyst);
      (two, Last(two), Last(one))
  }

  function ProfileRun(m: Model, bound: int, resumeFirst: bool): Loop {
    var (log, resume, repos) := Analyses(m, resumeFirst);
    var planned := Ask(m, log, Planner(resume, repos));
    WriteReview(m, ProfileFlow(Last(planned), resume, repos), bound, planned, "", 0)
  }

  lemma TokensAfterAsk(m: Model, log: seq<Call>, p: Prompt)
    ensures InputTokens(Ask(m, log, p)) == InputTokens(log) + m(log, p).inputTokens
    ensures OutputTokens(Ask(m, log, p)) == OutputTokens(log) + m(log, p).outputTokens
  {
    assert Ask(m, log, p)[..|log|] == log;
  }

  /** Two histories that differ only in the order of their first two calls, as the two fan-outs leave them. */
  predicate Swapped(a: seq<Call>, b: seq<Call>) {
    |a| == |b| >= 2 && a[0] == b[1] && a[1] == b[0] && a[2..] == b[2..]
  }

  /** Each analyst answers the same whether it is asked first or after the other. */
  predicate AnalystsIndependent(m: Model) {
    && m(Ask(m, [], ResumeAnalyst), RepoAnalyst) == m([], RepoAnalyst)
    && m(Ask(m, [], RepoAnalyst), ResumeAnalyst) == m([], ResumeAnalyst)
  }

  /** The model answers alike on histories that differ in that order only; otherwise it may remember anything. */
  ghost predicate OrderBlind(m: Model) {
    forall a: seq<Call>, b: seq<Call>, p: Prompt :: Swapped(a, b) ==> m(a, p) == m(b, p)
  }

  /** One more question keeps two such histories alike, in what they hold and in what they cost. */
  lemma AskKeepsSwapped(m: Model, a: seq<Call>, b: seq<Call>, p: Prompt)
    requires OrderBlind(m) && Swapped(a, b)
    requires InputTokens(a) == InputTokens(b) && OutputTokens(a) == OutputTokens(b)
    ensures var x, y := Ask(m, a, p), Ask(m, b, p);
            && Swapped(x, y) && Last(x) == Last(y)
            && InputTokens(x) == InputTokens(y) && OutputTokens(x) == OutputTokens(y)
  {
    assert m(a, p) == m(b, p);
    TokensAfterAsk(m, a, p);
    TokensAfterAsk(m, b, p);
    var call := Call(p, m(a, p));
    assert (a + [call])[2..] == a[2..] + [call] == (b + [call])[2..];
  }

  /** From two such histories the loop goes to equal results. */
  lemma {:induction false} LoopForgetsOrder(m: Model, flow: Flow, bound: int, a: seq<Call>, b: seq<Call>,
                                            critique: string, revisions: nat)
    requires OrderBlind(m) && Swapped(a, b)
    requires InputTokens(a) == InputTokens(b) && OutputTokens(a) == OutputTokens(b)
    ensures ResultOf(WriteReview(m, flow, bound, a, critique, revisions))
         == ResultOf(WriteReview(m, flow, bound, b, critique, revisions))
    decreases bound - revisions
  {
    var w := WriterPrompt(flow, critique);
    AskKeepsSwapped(m, a, b, w);
    var wa, wb := Ask(m, a, w), Ask(m, b, w);
    var rp := Reviewer(flow, Last(wa));
    AskKeepsSwapped(m, wa, wb, rp);
    var ra, rb := Ask(m, wa, rp), Ask(m, wb, rp);
    var verdict := Last(ra);
    if !(Approved(verdict) || revisions + 1 >= bound) {
      LoopForgetsOrder(m, flow, bound, ra, rb, verdict, revisions + 1);
    }
  }

  lemma FanOutsAreSwapped(m: Model)
    requires AnalystsIndependent(m)
    ensures var (a, resume, repos), (b, resume', repos') := Analyses(m, true), Analyses(m, false);
            && resume == resume' && repos == repos' && Swapped(a, b)
            && InputTokens(a) == InputTokens(b) && OutputTokens(a) == OutputTokens(b)
  {
    var e: seq<Call> := [];
    var r1, r2 := Ask(m, e, ResumeAnalyst), Ask(m, e, RepoAnalyst);
    TokensAfterAsk(m, e, ResumeAnalyst);
    TokensAfterAsk(m, r1, RepoAnalyst);
    TokensAfterAsk(m, e, RepoAnalyst);
    TokensAfterAsk(m, r2, ResumeAnalyst);
  }

  /** The profile README and its cost do not depend on which analyst answered first. */
  lemma AnalystOrderDoesNotShow(m: Model, bound: int)
    requires AnalystsIndependent(m) && OrderBlind(m)
    ensures ResultOf(ProfileRun(m, bound, true)) == ResultOf(ProfileRun(m, bound, false))
  {
    FanOutsAreSwapped(m);
    var (a, resume, repos) := Analyses(m, true);
    var (b, _, _) := Analyses(m, false);
    var p := Planner(resume, repos);
    AskKeepsSwapped(m, a, b, p);
    var pa, pb := Ask(m, a, p), Ask(m, b, p);
    LoopForgetsOrder(m, ProfileFlow(Last(pa), resume, repos), bound, pa, pb, "", 0);
  }

  /** A model whose reply depends on the prompt alone. */
  ghost predicate Stateless(m: Model) {
    forall a: seq<Call>, b: seq<Call>, p: Prompt :: m(a, p) == m(b, p)
  }

  /** Such a model is the plainest case of the above. */
  lemma StatelessIsOrderBlind(m: Model)
    requires Stateless(m)
    ensures AnalystsIndependent(m) && OrderBlind(m)
  {
    var e: seq<Call> := [];
    assert m(Ask(m, e, ResumeAnalyst), RepoAnalyst) == m(e, RepoAnalyst);
    assert m(Ask(m, e, RepoAnalyst), ResumeAnalyst) == m(e, ResumeAnalyst);
  }

  /** It goes to equal results even from unrelated histories, as long as they cost the same. */
  lemma {:induction false} LoopForgetsHistory(m: Model, flow: Flow, bound: int, a: seq<Call>, b: seq<Call>,
                                              critique: string, revisions: nat)
    requires Stateless(m)
    requires InputTokens(a) == InputTokens(b) && OutputTokens(a) == OutputTokens(b)
    ensures ResultOf(WriteReview(m, flow, bound, a, critique, revisions))
         == ResultOf(WriteReview(m, flow, bound, b, critique, revisions))
    decreases bound - revisions
  {
    var w := WriterPrompt(flow, critique);
    assert m(a, w) == m(b, w);
    var wa, wb := Ask(m, a, w), Ask(m, b, w);
    TokensAfterAsk(m, a, w);
    TokensAfterAsk(m, b, w);
    var rp := Reviewer(flow, Last(wa));
    assert m(wa, rp) == m(wb, rp);
    var ra, rb := Ask(m, wa, rp), Ask(m, wb, rp);
    TokensAfterAsk(m, wa, rp);
    TokensAfterAsk(m, wb, rp);
    var verdict := Last(ra);
    if !(Approved(verdict) || revisions + 1 >= bound) {
      LoopForgetsHistory(m, flow, bound, ra, rb, verdict, revisions + 1);
    }
  }

  /** A model that tells the writer which analyst spoke first. */
  function Gossip(log: seq<Call>, p: Prompt): Reply {
    if p.Writer? && log != [] then Reply(if log[0].prompt.ResumeAnalyst? then "r" else "g", 0, 0) else Reply("", 0, 0)
  }

  /** Blindness to the order is needed: the analysts of this model are independent and yet their order shows. */
  lemma OrderCanShow()
    ensures AnalystsIndependent(Gossip) && !OrderBlind(Gossip)
    ensures ResultOf(ProfileRun(Gossip, 1, true)) != ResultOf(ProfileRun(Gossip, 1, false))
  {
    if OrderBlind(Gossip) {
      AnalystOrderDoesNotShow(Gossip, 1);
    }
    GossipWrites(true);
    GossipWrites(false);
  }

  lemma GossipWrites(resumeFirst: bool)
    ensures ResultOf(ProfileRun(Gossip, 1, resumeFirst)).markdown == if resumeFirst then "r" else "g"
  {
    var (log, resume, repos) := Analyses(Gossip, resumeFirst);
    var planned := Ask(Gossip, log, Planner(resume, repos));
    var flow := ProfileFlow(Last(planned), resume, repos);
    OneRound(Gossip, flow, 1, planned, "", 0);
    var written := Ask(Gossip, planned, WriterPrompt(flow, ""));
    var draft := Last(written);
    assert planned[0].prompt == if resumeFirst then ResumeAnalyst else RepoAnalyst;
    assert draft == if resumeFirst then "r" else "g";
    assert Round(Gossip, flow, planned, "")[|planned|] == written[|planned|];
    TrimIsIdentityOnTrimmed(draft);
  }

  // ---- Who is told what -------------------------------------------------------------------------------------

  /**
   * A profile run asks both analysts, then the planner with the resume's analysis and the repositories' in their
   * places, then the writer with the plan and both, without feedback; its result is the last draft, trimmed, and the
   * totals of all calls.
   */
  lemma ProfileRunPrompts(m: Model, bound: int, resumeFirst: bool)
    ensures var r := ProfileRun(m, bound, resumeFirst);
            var resume, repos := if resumeFirst then 0 else 1, if resumeFirst then 1 else 0;
            && |r.log| == 3 + 2 * r.revisions >= 5
            && r.log[resume].prompt == ResumeAnalyst && r.log[repos].prompt == RepoAnalyst
            && r.log[2].prompt == Planner(r.log[resume].reply.text, r.log[repos].reply.text)
            && ResultOf(r) == AgentResult(Trim(r.log[|r.log| - 2].reply.text), InputTokens(r.log), OutputTokens(r.log))
    ensures var r := ProfileRun(m, bound, resumeFirst);
            var resume, repos := if resumeFirst then 0 else 1, if resumeFirst then 1 else 0;
            |r.log| >= 5 &&
            var flow := ProfileFlow(r.log[2].reply.text, r.log[resume].reply.text, r.log[repos].reply.text);
            r.log[3].prompt == Writer(flow, None) && r.log[4].prompt == Reviewer(flow, r.log[3].reply.text)
  {
    var (log, resume, repos) := Analyses(m, resumeFirst);
    var planned := Ask(m, log, Planner(resume, repos));
    var flow := ProfileFlow(Last(planned), resume, repos);
    LoopShape(m, flow, bound, planned, "", 0);
    var r := ProfileRun(m, bound, resumeFirst);
    assert forall i :: 0 <= i < 3 ==> r.log[i] == planned[i];
    var j: nat := 0;
    assert r.log[3 + 2 * j].prompt == WriterPrompt(flow, CritiqueOf(r.log, 3, "", j));
    assert r.log[3 + 2 * j + 1].prompt == Reviewer(flow, r.log[3 + 2 * j].reply.text);
  }

  /** A repository run starts with the writer, without feedback, and its result is read off the same way. */
  lemma RepoRunPrompts(m: Model, bound: int)
    ensures var r := RepoRun(m, bound);
            && |r.log| == 2 * r.revisions >= 2
            && r.log[0].prompt == Writer(RepoFlow, None) && r.log[1].prompt == Reviewer(RepoFlow, r.log[0].reply.text)
            && ResultOf(r) == AgentResult(Trim(r.log[|r.log| - 2].reply.text), InputTokens(r.log), OutputTokens(r.log))
  {
    LoopShape(m, RepoFlow, bound, [], "", 0);
    var r := RepoRun(m, bound);
    var j: nat := 0;
    assert r.log[0 + 2 * j].prompt == WriterPrompt(RepoFlow, CritiqueOf(r.log, 0, "", j));
    assert r.log[0 + 2 * j + 1].prompt == Reviewer(RepoFlow, r.log[0 + 2 * j].reply.text);
  }

  /** The totals of calls are the sums of what each of them used, none for no call. */
  lemma {:induction false} TotalsAddUp(a: seq<Call>, b: seq<Call>, c: Call)
    ensures InputTokens(a + b) == InputTokens(a) + InputTokens(b)
    ensures OutputTokens(a + b) == OutputTokens(a) + OutputTokens(b)
    ensures InputTokens([c]) == c.reply.inputTokens && OutputTokens([c]) == c.reply.outputTokens
    decreases |b|
  {
    assert [c][..0] == [];
    if b == [] {
      assert a + b == a;
    } else {
      assert (a + b)[..|a + b| - 1] == a + b[..|b| - 1];
      TotalsAddUp(a, b[..|b| - 1], c);
    }
  }

  // ---- What approves ----------------------------------------------------------------------------------------

  /** The word in any mixture of cases. */
  predicate SpellsApproved(w: string) {
    |w| == 8 && forall k :: 0 <= k < 8 ==> w[k] == "APPROVED"[k] || w[k] == "approved"[k]
  }

  predicate WordCharacter(c: char) {
    'a' <= c <= 'z' || 'A' <= c <= 'Z' || '0' <= c <= '9' || c == '_'
  }

  /** The word stands at `i`, with no letter, digit or underscore right before or after it. */
  predicate ApprovesAt(text: string, i: nat)
    requires i + 8 <= |text|
  {
    && SpellsApproved(text[i..i + 8])
    && (i > 0 ==> !WordCharacter(text[i - 1]))
    && (i + 8 < |text| ==> !WordCharacter(text[i + 8]))
  }

  /** A text approves exactly when the word stands somewhere in it. */
  lemma ApprovedIff(text: string)
    ensures Approved(text) <==> exists i: nat :: i + 8 <= |text| && ApprovesAt(text, i)
  {
    forall i: nat | i + 8 <= |text| ensures MatchesAt(text, i, "APPROVED") <==> ApprovesAt(text, i) {
      MatchIff(text, i);
    }
    if i: nat :| i + 8 <= |text| && ApprovesAt(text, i) {
      assert i < |text| && MatchesAt(text, i, "APPROVED");
    }
  }

  lemma UpperIff(c: char, k: nat)
    requires k < 8
    ensures Upper(c) == "APPROVED"[k] <==> c == "APPROVED"[k] || c == "approved"[k]
  {
  }

  lemma MatchIff(text: string, i: nat)
    requires i + 8 <= |text|
    ensures MatchesAt(text, i, "APPROVED") <==> ApprovesAt(text, i)
  {
    var w := text[i..i + 8];
    forall k: nat | k < 8
      ensures Upper(text[i + k]) == "APPROVED"[k] <==> w[k] == "APPROVED"[k] || w[k] == "approved"[k]
    {
      UpperIff(text[i + k], k);
    }
    assert (forall k :: 0 <= k < 8 ==> Upper(text[i + k]) == "APPROVED"[k]) <==> SpellsApproved(w) by {
      if SpellsApproved(w) {
        forall k | 0 <= k < 8 ensures Upper(text[i + k]) == "APPROVED"[k] {
          UpperIff(text[i + k], k);
        }
      }
    }
    if SpellsApproved(w) {
      assert WordCharacter(w[0]) && WordCharacter(w[7]);
      assert w[0] == text[i] && w[7] == text[i + 7];
    }
  }

  // ---- The agents as they run -------------------------------------------------------------------------------

  lemma PhasesGrow(before: seq<string>, n: nat)
    ensures (before + LoopPhases(n)) + ["drafting", "reviewing"] == before + LoopPhases(n + 1)
  {
  }

  /** One agent run: the token usage it accumulates, the calls it made, and the phases it reported. */
  class AgentRun {
    const model: Model
    var inputTokens: nat
    var outputTokens: nat
    var log: seq<Call>
    var phases: seq<string>

    /** The running totals are the sums over all calls so far. */
    ghost predicate Valid()
      reads this
    {
      inputTokens == InputTokens(log) && outputTokens == OutputTokens(log)
    }

    constructor (model: Model)
      ensures Valid() && log == [] && phases == [] && this.model == model
    {
      this.model := model;
      inputTokens, outputTokens := 0, 0;
      log, phases := [], [];
    }

    /** Report the phase, ask the model, add what the call cost. */
    method Consult(phase: string, prompt: Prompt) returns (text: string)
      requires Valid()
      modifies this
      ensures Valid() && log == Ask(model, old(log), prompt) && phases == old(phases) + [phase]
      ensures text == Last(log)
    {
      phases := phases + [phase];
      var reply := model(log, prompt);
      TokensAfterAsk(model, log, prompt);
      inputTokens := inputTokens + reply.inputTokens;
      outputTokens := outputTokens + reply.outputTokens;
      log := log + [Call(prompt, reply)];
      text := reply.text;
    }

    /** `write`, then `review`. */
    method Cycle(flow: Flow, critique: string) returns (draft: string, verdict: string)
      requires Valid()
      modifies this
      ensures Valid() && log == Round(model, flow, old(log), critique)
      ensures draft == log[|old(log)|].reply.text && verdict == Last(log)
      ensures phases == old(phases) + ["drafting", "reviewing"]
    {
      draft := Consult("drafting", WriterPrompt(flow, critique));
      verdict := Consult("reviewing", Reviewer(flow, draft));
    }

    /** The write/review cycle until the route leaves it. */
    method Revise(flow: Flow, bound: int) returns (draft: string, ghost r: Loop)
      requires Valid()
      modifies this
      ensures Valid() && r == WriteReview(model, flow, bound, old(log), "", 0)
      ensures log == r.log && draft == r.draft
      ensures phases == old(phases) + LoopPhases(r.revisions)
    {
      var critique, revisions, approved := "", 0, false;
      draft := "";
      ghost var whole := WriteReview(model, flow, bound, log, "", 0);
      while !Leaves(revisions, approved, bound)
        invariant Valid()
        invariant phases == old(phases) + LoopPhases(revisions)
        invariant whole == if Leaves(revisions, approved, bound) then Loop(log, draft, critique, revisions, approved)
                           else WriteReview(model, flow, bound, log, critique, revisions)
        decreases Max(bound, 1) - revisions
      {
        OneRound(model, flow, bound, log, critique, revisions);
        PhasesGrow(old(phases), revisions);
        draft, critique := Cycle(flow, critique);
        approved := Approved(critique);
        revisions := revisions + 1;
      }
      r := Loop(log, draft, critique, revisions, approved);
    }

    /** "Narrate about Repos". */
    method RunRepo(bound: int) returns (result: AgentResult)
      requires Valid() && log == [] && phases == []
      modifies this
      ensures result == ResultOf(RepoRun(model, bound))
      ensures phases == LoopPhases(RepoRun(model, bound).revisions)
    {
      var draft;
      ghost var r;
      draft, r := Revise(RepoFlow, bound);
      result := AgentResult(Trim(draft), inputTokens, outputTokens);
    }

    /** The fan-out; the scheduler picks which analyst goes first. */
    method Analyse(resumeFirst: bool) returns (resumeProfile: string, repoProfile: string)
      requires Valid() && log == [] && phases == []
      modifies this
      ensures Valid() && (log, resumeProfile, repoProfile) == Analyses(model, resumeFirst)
      ensures phases == ["analyzing", "analyzing"]
    {
      if resumeFirst {
        resumeProfile := Consult("analyzing", ResumeAnalyst);
        repoProfile := Consult("analyzing", RepoAnalyst);
      } else {
        repoProfile := Consult("analyzing", RepoAnalyst);
        resumeProfile := Consult("analyzing", ResumeAnalyst);
      }
    }

    /** "Narrate Yourself". */
    method RunProfile(bound: int, resumeFirst: bool) returns (result: AgentResult)
      requires Valid() && log == [] && phases == []
      modifies this
      ensures result == ResultOf(ProfileRun(model, bound, resumeFirst))
      ensures var revisions := ProfileRun(model, bound, resumeFirst).revisions;
              phases == ["analyzing", "analyzing", "analyzing"] + LoopPhases(revisions)
    {
      var resumeProfile, repoProfile := Analyse(resumeFirst);
      var plan := Consult("analyzing", Planner(resumeProfile, repoProfile));
      var draft;
      ghost var r;
      draft, r := Revise(ProfileFlow(plan, resumeProfile, repoProfile), bound);
      result := AgentResult(Trim(draft), inputTokens, outputTokens);
    }
  }
}
