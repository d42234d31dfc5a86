/**
 * What each step of the metered lifecycle does when its conditions hold, and that it does nothing otherwise: the whole
 * new state, written out field by field.
 */
module MeteringEffects {
  import opened Basics
  import opened Ledger
  import opened Metering
  import Decimal
  import Text

  /** A period key is the year, the month's two digits counted from one, and the first day. */
  lemma PeriodKeyReads(d: Instant)
    ensures CurrentPeriodStart(d) == PeriodOf(d)
    ensures var parts := Text.Split(PeriodOf(d), '-');
            && |parts| == 3 && (forall i :: 0 <= i < 3 ==> forall c :: c in parts[i] ==> Decimal.IsDigit(c))
            && Decimal.Value(parts[0]) == d.year
            && |parts[1]| == 2 && Decimal.Value(parts[1]) == d.month + 1
            && parts[2] == "01"
  {
    var y, m := Decimal.Render(d.year), Decimal.Pad2(d.month + 1);
    var parts := [y, m, "01"];
    assert Text.Join(parts[1..], "-") == m + "-" + "01" by {
      assert parts[1..] == [m, "01"] && [m, "01"][1..] == ["01"];
    }
    assert Text.Join(parts, "-") == PeriodOf(d);
    Text.SplitJoin(parts, '-');
    Decimal.ValueOfRender(d.year);
    Decimal.PadKeepsValue(d.month + 1);
    Decimal.Pad2HasTwoDigits(d.month + 1);
    assert forall i :: 0 <= i < 3 ==> forall c :: c in parts[i] ==> Decimal.IsDigit(c);
  }

  // ---- Reserving --------------------------------------------------------------------------------------------

  /** A profile run is charged to the profile column under the profile limit. */
  lemma ReserveProfile(s: State, r: nat, u: string, now: Instant)
    requires r !in s.requests
    ensures var key, feature := (u, CurrentPeriodStart(now)), (u, ProfileNarration);
            var was := if key in s.counters then s.counters[key] else Counter(0, 0);
            var used := was.profileNarrationsUsed;
            Step(s, Reserve(r, u, Profile, now)) ==
              if feature in s.plan && (s.plan[feature] == -1 || (s.plan[feature] >= 1 && used < s.plan[feature]))
              then s.(counters := s.counters[key := Counter(was.generationsUsed, used + 1)],
                      requests := s.requests[r := Request(u, Profile, now)])
              else s
  {
  }

  /** A repository run is charged to the generations column under the generations limit. */
  lemma ReserveRepo(s: State, r: nat, u: string, now: Instant)
    requires r !in s.requests
    ensures var key, feature := (u, CurrentPeriodStart(now)), (u, RepoGeneration);
            var was := if key in s.counters then s.counters[key] else Counter(0, 0);
            var used := was.generationsUsed;
            Step(s, Reserve(r, u, RepoReadme, now)) ==
              if feature in s.plan && (s.plan[feature] == -1 || (s.plan[feature] >= 1 && used < s.plan[feature]))
              then s.(counters := s.counters[key := Counter(used + 1, was.profileNarrationsUsed)],
                      requests := s.requests[r := Request(u, RepoReadme, now)])
              else s
  {
  }

  /** A due refund lowers its column of its month by one if that is above zero; either way the job is done with. */
  lemma RefundEffect(s: State, r: nat)
    requires r in s.workers && s.workers[r].stage.Refunding?
    ensures var g := s.workers[r].mem;
            var key := (g.userId, PeriodOf(g.createdAt));
            var was := if key in s.counters then s.counters[key] else Counter(0, 0);
            var next := if g.kind.Profile? then Counter(was.generationsUsed, was.profileNarrationsUsed - 1)
                        else Counter(was.generationsUsed - 1, was.profileNarrationsUsed);
            var used := if g.kind.Profile? then was.profileNarrationsUsed else was.generationsUsed;
            Step(s, Refund(r)) ==
              if used > 0
              then s.(counters := s.counters[key := next], refunded := s.refunded + {r}, workers := s.workers - {r})
              else s.(workers := s.workers - {r})
  {
  }

  // ---- From the request to the worker -----------------------------------------------------------------------

  /** A start records one queued row for the request's own user and kind, with the model that was resolved. */
  lemma StartRecordsTheRequest(s: State, r: nat, model: AiModel, repoId: Option<string>, createdAt: Instant)
    requires r in s.requests && r !in s.gens && (s.requests[r].kind.RepoReadme? ==> repoId.Some?)
    ensures var q, t := s.requests[r], Step(s, Start(r, Some(model), repoId, createdAt));
            && r in t.gens && t == s.(gens := s.gens[r := t.gens[r]])
            && var g := t.gens[r];
               && g.userId == q.userId && g.kind == q.kind && g.createdAt == createdAt
               && g.repoId == (if q.kind.RepoReadme? then repoId else None)
               && g.provider == Some(model.provider) && g.model == Some(model.modelId)
               && g.status == Queued && g.phase == "queued"
               && g.generatedMd.None? && g.inputTokens.None? && g.outputTokens.None?
               && g.commitSha.None? && g.error.None?
  {
  }

  /** Without a model, or a repository where one is needed, nothing is recorded, and a request starts one row only. */
  lemma StartRefuses(s: State, r: nat, model: Option<AiModel>, repoId: Option<string>, createdAt: Instant)
    requires r !in s.requests || r in s.gens || model.None? || (s.requests[r].kind.RepoReadme? && repoId.None?)
    ensures Step(s, Start(r, model, repoId, createdAt)) == s
  {
  }

  /** Enqueuing offers the job, a delivery takes it off the queue with its row, and a stop drops the worker alone. */
  lemma QueueEffects(s: State, r: nat)
    requires r in s.gens
    ensures r !in s.sent ==> Step(s, Enqueue(r)) == s.(queue := s.queue + {r}, sent := s.sent + {r})
    ensures r in s.queue ==>
              Step(s, Deliver(r)) == s.(queue := s.queue - {r}, workers := s.workers[r := Worker(Loaded, s.gens[r])])
    ensures r in s.workers ==> Step(s, Stop(r)) == s.(workers := s.workers - {r})
  {
    assert s.gens[r := s.gens[r]] == s.gens;
  }

  // ---- The worker -------------------------------------------------------------------------------------------

  /** Whether `e` reports `phase` for job `r` at a moment when the worker does so. */
  predicate ReportsPhase(s: State, e: Event, r: nat, phase: string) {
    r in s.workers && r in s.gens && e.r == r &&
    match e
    case Gather(_, _) => phase == "gathering" && s.workers[r].stage.Loaded?
    case Advance(_, p, _) =>
      var mem := s.workers[r].mem;
      && phase == p && s.workers[r].stage.Working?
      && mem.provider.Some? && mem.provider.value != "" && mem.model.Some? && mem.model.value != ""
    case _ => false
  }

  /** A phase that is saved is the row's phase and makes it running; one that is refused leaves the row as it was. */
  lemma PhaseEffect(s: State, e: Event, r: nat, phase: string)
    requires ReportsPhase(s, e, r, phase)
    ensures var mem := s.workers[r].mem.(status := Running, phase := phase);
            Step(s, e) ==
              match e.saved
              case Saved => s.(gens := s.gens[r := mem], workers := s.workers[r := Worker(Working, mem)])
              case Refused(message) => s.(workers := s.workers[r := Worker(Catching(message), mem)])
  {
    assert s.gens[r := s.gens[r]] == s.gens;
  }

  /** A worker of job `r` in its `try` body, with a model. */
  predicate AtWork(s: State, r: nat) {
    && r in s.workers && r in s.gens && s.workers[r].stage.Working?
    && s.workers[r].mem.provider.Some? && s.workers[r].mem.provider.value != ""
    && s.workers[r].mem.model.Some? && s.workers[r].mem.model.value != ""
  }

  /** A result is saved whole: markdown, both token counts, status and phase. */
  lemma CompletionEffect(s: State, r: nat, markdown: string, inputs: nat, outputs: nat, saved: Saved)
    requires AtWork(s, r) && markdown != ""
    ensures var done := s.workers[r].mem.(generatedMd := Some(markdown), inputTokens := Some(inputs),
                                          outputTokens := Some(outputs), status := Completed, phase := "completed");
            Step(s, Finish(r, Produced(markdown, inputs, outputs), saved)) ==
              match saved
              case Saved => s.(gens := s.gens[r := done], workers := s.workers - {r})
              case Refused(message) => s.(workers := s.workers[r := Worker(Catching(message), done)])
  {
    assert s.gens[r := s.gens[r]] == s.gens;
  }

  /** An agent that throws, or returns nothing, or has no model, sends the worker to its `catch` block. */
  lemma TryThrows(s: State, r: nat, outcome: Outcome, saved: Saved)
    requires r in s.workers && r in s.gens && s.workers[r].stage.Working?
    requires AtWork(s, r) ==> outcome.Thrown? || outcome.markdown == ""
    ensures var message := if !AtWork(s, r) then "Generation has no model assigned."
                           else if outcome.Thrown? then outcome.message
                           else "The model returned an empty README.";
            var caught := Worker(Catching(message), s.workers[r].mem);
            Step(s, Finish(r, outcome, saved)) == s.(workers := s.workers[r := caught])
  {
    assert s.gens[r := s.gens[r]] == s.gens;
  }

  /** A failure is saved with its reason before the refund; when that save is refused there is no refund. */
  lemma FailureEffect(s: State, r: nat, message: string, saved: Saved)
    requires r in s.workers && r in s.gens && s.workers[r].stage == Catching(message)
    ensures var failed := s.workers[r].mem.(status := Failed, phase := "failed", error := Some(message));
            Step(s, Fail(r, saved)) ==
              match saved
              case Saved => s.(gens := s.gens[r := failed], workers := s.workers[r := Worker(Refunding, failed)])
              case Refused(_) => s.(workers := s.workers - {r})
  {
    assert s.gens[r := s.gens[r]] == s.gens;
  }

  /** Where a job's step belongs in the life of its worker; the other steps belong anywhere. */
  predicate InTurn(s: State, e: Event) {
    match e
    case Reserve(r, _, _, _) => r !in s.requests
    case Enqueue(r) => r in s.gens && r !in s.sent
    case Deliver(r) => r in s.queue && r in s.gens
    case Gather(r, _) => r in s.workers && s.workers[r].stage.Loaded?
    case Advance(r, _, _) => AtWork(s, r)
    case Finish(r, _, _) => r in s.workers && s.workers[r].stage.Working?
    case Fail(r, _) => r in s.workers && s.workers[r].stage.Catching?
    case Refund(r) => r in s.workers && s.workers[r].stage.Refunding?
    case Stop(r) => r in s.workers
    case _ => true
  }

  /** A step out of turn does nothing. */
  lemma OutOfTurnDoesNothing(s: State, e: Event)
    requires !InTurn(s, e)
    ensures Step(s, e) == s
  {
    if e.r in s.gens {
      assert s.gens[e.r := s.gens[e.r]] == s.gens;
    }
    if e.r in s.workers {
      assert s.workers[e.r := s.workers[e.r]] == s.workers;
    }
  }

  // ---- Committing -------------------------------------------------------------------------------------------

  /**
   * The owner's commit of a completed row, for a repository README one that has a repository, stores the text and its
   * SHA and changes nothing else. Any other commit changes nothing at all.
   */
  lemma CommitEffect(s: State, r: nat, caller: string, kind: GenerationKind, content: string, sha: Option<string>)
    ensures Step(s, Commit(r, caller, kind, content, sha)) ==
              if r in s.gens && s.gens[r].userId == caller && s.gens[r].kind == kind && s.gens[r].status == Completed
                 && (kind.RepoReadme? ==> s.gens[r].repoId.Some? && s.gens[r].repoId.value != "")
                 && content != "" && sha.Some?
              then s.(gens := s.gens[r := s.gens[r].(generatedMd := Some(content), commitSha := sha)])
              else s
  {
  }
}
