/** The services that take the metered steps: the quota guard, the API's start and commit, and a worker's `run`. */
module MeteringService {
  import opened Basics
  import opened Ledger
  import opened Metering
  import opened MeteringSafety

  /** What the outside world does to one run: the fate of each save, the agent's phases and its outcome. */
  datatype Script = Script(
    gathered: Saved, phases: seq<(string, Saved)>, outcome: Outcome, completed: Saved, failed: Saved)

  function AdvanceEvents(r: nat, phases: seq<(string, Saved)>): seq<Event> {
    if phases == [] then []
    else AdvanceEvents(r, phases[..|phases| - 1]) + [Advance(r, phases[|phases| - 1].0, phases[|phases| - 1].1)]
  }

  /** One save for each phase the agent reports, in its order. */
  lemma {:induction false} PhasesAreSavedInOrder(r: nat, phases: seq<(string, Saved)>, i: nat)
    requires i < |phases|
    ensures |AdvanceEvents(r, phases)| == |phases|
    ensures AdvanceEvents(r, phases)[i] == Advance(r, phases[i].0, phases[i].1)
    decreases |phases|
  {
    var init := phases[..|phases| - 1];
    if init != [] {
      PhasesAreSavedInOrder(r, init, if i < |init| then i else 0);
    }
  }

  /** The steps of one delivery; those a run skips are ones whose guard no longer holds. */
  function JobEvents(r: nat, script: Script): seq<Event> {
    [Deliver(r), Gather(r, script.gathered)] + AdvanceEvents(r, script.phases)
    + [Finish(r, script.outcome, script.completed), Fail(r, script.failed), Event.Refund(r)]
  }

  /** Once a worker is past the phases, or has no model to run, later phases change nothing. */
  lemma {:induction false} AdvancesAreIdle(s: State, r: nat, phases: seq<(string, Saved)>)
    requires r in s.workers && (!s.workers[r].stage.Working? || !HasModel(s.workers[r].mem))
    ensures Metering.Run(s, AdvanceEvents(r, phases)) == s
    decreases |phases|
  {
    if phases != [] {
      var init, e := phases[..|phases| - 1], Advance(r, phases[|phases| - 1].0, phases[|phases| - 1].1);
      AdvancesAreIdle(s, r, init);
      RunAppend(s, AdvanceEvents(r, init), [e]);
    }
  }

  class Backend {
    const plan: map<(string, QuotaKind), int>
    var counters: Rows
    var gens: map<nat, Generation>
    var queue: set<nat>
    ghost var workers: map<nat, Worker>
    ghost var requests: map<nat, Request>
    ghost var sent: set<nat>
    ghost var refunded: set<nat>

    ghost function View(): State
      reads this
    {
      State(plan, counters, gens, queue, workers, requests, sent, refunded)
    }

    constructor (plan: map<(string, QuotaKind), int>)
      ensures View() == Init(plan)
    {
      this.plan := plan;
      counters, gens, queue := map[], map[], {};
      workers, requests, sent, refunded := map[], map[], {}, {};
    }

    /** `QuotaService.reserve`, called by the guard for request `r`. */
    method Reserve(ghost r: nat, userId: string, kind: GenerationKind, now: Instant) returns (denial: Option<Denial>)
      requires r !in requests
      modifies this
      ensures View() == Step(old(View()), Event.Reserve(r, userId, kind, now))
      ensures denial.None? <==> r in requests
      ensures denial == Some(NotIncluded) <==>
                var feature := (userId, if kind.Profile? then ProfileNarration else RepoGeneration);
                !(feature in plan && (plan[feature] == -1 || plan[feature] >= 1))
    {
      var quota := EndpointQuota(kind);
      var field := MetricField(quota);
      var limit := LimitOf(plan, userId, quota);
      if limit.None? {
        return Some(NotIncluded);
      }
      if limit.value != -1 && limit.value <= 0 {
        return Some(NotIncluded);
      }
      var key := (userId, CurrentPeriodStart(now));
      var row := if key in counters then counters[key] else Counter(0, 0);
      if limit.value != -1 && Get(row, field) >= limit.value {
        return Some(Exhausted);
      }
      row := Set(row, field, Get(row, field) + 1);
      counters := counters[key := row];
      requests := requests[r := Request(userId, kind, now)];
      denial := None;
    }

    /** `start` of either service, once the guard let request `r` through: insert the row, then enqueue its id. */
    method Start(r: nat, userId: string, kind: GenerationKind, aiModel: Option<AiModel>, repoId: Option<string>,
                 createdAt: Instant)
      returns (started: bool)
      requires Sound(View(), r) && r in requests && r !in gens
      requires requests[r].userId == userId && requests[r].kind == kind
      modifies this
      ensures View() == Step(Step(old(View()), Event.Start(r, aiModel, repoId, createdAt)), Enqueue(r))
      ensures started <==> aiModel.Some? && (kind.RepoReadme? ==> repoId.Some?)
      ensures started ==> r in queue && r in gens && gens[r].status == Queued
    {
      if aiModel.None? {
        return false;
      }
      var target: Option<string> := None;
      if kind.RepoReadme? {
        if repoId.None? {
          return false;
        }
        target := repoId;
      }
      gens := gens[r := Generation(userId, kind, target, createdAt, Some(aiModel.value.provider),
                                   Some(aiModel.value.modelId), Queued, "queued",
                                   None, None, None, None, None)];
      queue := queue + {r};
      sent := sent + {r};
      started := true;
    }

    /** `save(gen)` inside `run`: the row takes the entity, or the error is thrown. */
    method Save(r: nat, gen: Generation, saved: Saved, ghost next: Stage) returns (thrown: Option<string>)
      requires r in gens && r in workers
      modifies this
      ensures var job := SaveEntity(old(gens[r]), gen, saved, next);
              View() == old(View()).(gens := old(gens)[r := job.row], workers := old(workers)[r := job.worker.value])
      ensures thrown == if saved.Saved? then None else Some(saved.message)
    {
      match saved
      case Saved =>
        gens := gens[r := gen];
        workers := workers[r := Worker(next, gen)];
        thrown := None;
      case Refused(message) =>
        workers := workers[r := Worker(Catching(message), gen)];
        assert gens == gens[r := gens[r]];
        thrown := Some(message);
    }

    method Advance(r: nat, gen: Generation, phase: string, saved: Saved)
      returns (next: Generation, thrown: Option<string>)
      requires r in gens && r in workers && workers[r].mem == gen
      modifies this
      ensures var job := AdvanceJob(old(gens[r]), Worker(Working, gen), phase, saved);
              View() == old(View()).(gens := old(gens)[r := job.row], workers := old(workers)[r := job.worker.value])
      ensures r in workers && next == workers[r].mem
      ensures next.provider == gen.provider && next.model == gen.model
      ensures thrown == if saved.Saved? then None else Some(saved.message)
    {
      next := gen.(status := Running, phase := phase);
      thrown := Save(r, next, saved, Working);
    }

    /** The first phase. */
    method Gather(r: nat, gen: Generation, saved: Saved) returns (next: Generation, thrown: Option<string>)
      requires r in gens && r in workers && workers[r] == Worker(Loaded, gen)
      modifies this
      ensures View() == Step(old(View()), Event.Gather(r, saved))
      ensures r in gens && r in workers
      ensures workers[r] == Worker(if thrown.None? then Working else Catching(thrown.value), next)
    {
      next, thrown := Advance(r, gen, "gathering", saved);
    }

    /** `refund`: give the reservation of a failed job back. */
    method Refund(r: nat, gen: Generation)
      requires AtStage(View(), r, Refunding) && workers[r].mem == gen
      modifies this
      ensures View() == Step(old(View()), Event.Refund(r))
    {
      var periodStart := PeriodOf(gen.createdAt);
      var field := RunnerField(gen.kind);
      var key := (gen.userId, periodStart);
      if key in counters {
        var row := counters[key];
        if Get(row, field) > 0 {
          row := Set(row, field, Get(row, field) - 1);
          counters := counters[key := row];
          refunded := refunded + {r};
        }
      }
      workers := workers - {r};
    }

    /** The phases of `generate`, each saved through the hook until one save is refused. */
    method SavePhases(r: nat, gen: Generation, phases: seq<(string, Saved)>)
      returns (next: Generation, thrown: Option<string>)
      requires r in gens && AtStage(View(), r, Working) && workers[r].mem == gen && HasModel(gen)
      modifies this
      ensures View() == Metering.Run(old(View()), AdvanceEvents(r, phases))
      ensures r in gens && r in workers && workers[r].mem == next && HasModel(next)
      ensures workers[r].stage == if thrown.None? then Working else Catching(thrown.value)
    {
      next, thrown := gen, None;
      var i := 0;
      while i < |phases| && thrown.None?
        invariant 0 <= i <= |phases|
        invariant View() == Metering.Run(old(View()), AdvanceEvents(r, phases[..i]))
        invariant r in gens && r in workers && workers[r].mem == next && HasModel(next)
        invariant workers[r].stage == if thrown.None? then Working else Catching(thrown.value)
      {
        ghost var before := View();
        next, thrown := Advance(r, next, phases[i].0, phases[i].1);
        ghost var e := Event.Advance(r, phases[i].0, phases[i].1);
        assert View() == Step(before, e);
        assert phases[..i + 1][..i] == phases[..i];
        RunAppend(old(View()), AdvanceEvents(r, phases[..i]), [e]);
        i := i + 1;
      }
      if thrown.Some? {
        IdleTail(old(View()), View(), r, phases, i);
      } else {
        assert phases[..i] == phases;
      }
    }

    /** The rest of the `try` body: the outcome is checked, then saved. */
    method Finish(r: nat, gen: Generation, outcome: Outcome, saved: Saved)
      returns (next: Generation, thrown: Option<string>)
      requires r in gens && AtStage(View(), r, Working) && workers[r].mem == gen
      modifies this
      ensures View() == Step(old(View()), Event.Finish(r, outcome, saved))
      ensures thrown.Some? ==> r in gens && r in workers && workers[r] == Worker(Catching(thrown.value), next)
      ensures thrown.None? ==> r !in workers && gens[r] == next && next.status == Completed
    {
      next, thrown := gen, None;
      if !Truthy(gen.provider) || !Truthy(gen.model) {
        thrown := Some("Generation has no model assigned.");
      } else {
        match outcome
        case Thrown(message) => thrown := Some(message);
        case Produced(markdown, inputTokens, outputTokens) =>
          if markdown == "" {
            thrown := Some("The model returned an empty README.");
          } else {
            next := next.(generatedMd := Some(markdown), inputTokens := Some(inputTokens));
            next := next.(outputTokens := Some(outputTokens), status := Completed, phase := "completed");
            if saved.Refused? {
              thrown := Some(saved.message);
            } else {
              gens := gens[r := next];
            }
          }
      }
      workers := if thrown.Some? then workers[r := Worker(Catching(thrown.value), next)] else workers - {r};
      assert thrown.Some? ==> gens == gens[r := gens[r]];
    }

    /** The `try` body after the first phase: the phases, then the outcome. */
    method Generate(r: nat, gen: Generation, script: Script) returns (next: Generation, thrown: Option<string>)
      requires r in gens && r in workers && workers[r] == Worker(Working, gen)
      modifies this
      ensures View() == AfterGenerating(old(View()), r, script)
      ensures thrown.Some? ==> r in gens && r in workers && workers[r] == Worker(Catching(thrown.value), next)
      ensures thrown.None? ==> r !in workers
    {
      next, thrown := gen, None;
      if HasModel(gen) {
        next, thrown := SavePhases(r, gen, script.phases);
      } else {
        AdvancesAreIdle(View(), r, script.phases);
      }
      if thrown.None? {
        next, thrown := Finish(r, next, script.outcome, script.completed);
      } else {
        IdleFinish(View(), r, script);
      }
    }

    /** The `catch` block: record the failure, then refund; a refused save leaves before the refund. */
    method Catch(r: nat, gen: Generation, message: string, saved: Saved)
      requires r in gens && r in workers && workers[r] == Worker(Catching(message), gen)
      modifies this
      ensures View() == Step(Step(old(View()), Fail(r, saved)), Event.Refund(r))
    {
      var failed := gen.(status := Failed, phase := "failed", error := Some(message));
      if saved.Saved? {
        gens := gens[r := failed];
        workers := workers[r := Worker(Refunding, failed)];
        assert View() == Step(old(View()), Fail(r, saved));
        Refund(r, failed);
      } else {
        workers := workers - {r};
        assert gens == gens[r := gens[r]];
      }
    }

    /** The job is handed to a worker, which loads its row. */
    method Load(r: nat) returns (gen: Generation)
      requires Sound(View(), r) && r in queue
      modifies this
      ensures View() == Step(old(View()), Deliver(r))
      ensures r in gens && r in workers && workers[r] == Worker(Loaded, gen) && gen == gens[r]
    {
      gen := gens[r];
      queue := queue - {r};
      workers := workers[r := Worker(Loaded, gen)];
    }

    /** `run`: one delivery of job `r`, under any behaviour of the agent and of the database. */
    method Run(r: nat, script: Script)
      requires Sound(View(), r) && r in queue
      modifies this
      ensures View() == Metering.Run(old(View()), JobEvents(r, script))
    {
      ghost var start := View();
      var gen := Load(r);
      ghost var delivered := View();

      var thrown;
      gen, thrown := Gather(r, gen, script.gathered);
      ghost var gathered := View();

      if thrown.None? {
        gen, thrown := Generate(r, gen, script);
      } else {
        AdvancesAreIdle(gathered, r, script.phases);
        IdleFinish(gathered, r, script);
      }
      ghost var finished := View();
      assert finished == AfterGenerating(gathered, r, script);

      if thrown.Some? {
        Catch(r, gen, thrown.value, script.failed);
      } else {
        NothingToCatch(finished, r, script.failed);
      }
      JobUnfolds(start, r, script, delivered, gathered);
    }

    /** `commit` of either service. */
    method Commit(r: nat, caller: string, kind: GenerationKind, content: string, sha: Option<string>)
      returns (committed: bool)
      modifies this
      ensures View() == Step(old(View()), Event.Commit(r, caller, kind, content, sha))
      ensures committed ==> r in gens && gens[r].commitSha == sha && gens[r].generatedMd == Some(content)
      ensures committed <==>
                && r in old(gens) && old(gens)[r].userId == caller && old(gens)[r].kind == kind
                && old(gens)[r].status == Completed && content != "" && sha.Some?
                && (kind.RepoReadme? ==> old(gens)[r].repoId.Some? && old(gens)[r].repoId.value != "")
    {
      if content == "" || r !in gens || gens[r].userId != caller || gens[r].kind != kind {
        return false;
      }
      var gen := gens[r];
      if gen.status != Completed {
        return false;
      }
      if kind.RepoReadme? && !Truthy(gen.repoId) {
        return false;
      }
      if sha.None? {
        return false;
      }
      gen := gen.(generatedMd := Some(content), commitSha := sha);
      gens := gens[r := gen];
      committed := true;
    }
  }

  lemma IdleTail(s: State, t: State, r: nat, phases: seq<(string, Saved)>, i: nat)
    requires i <= |phases| && t == Metering.Run(s, AdvanceEvents(r, phases[..i]))
    requires r in t.workers && !t.workers[r].stage.Working?
    ensures t == Metering.Run(s, AdvanceEvents(r, phases))
    decreases |phases| - i
  {
    if i == |phases| {
      assert phases[..i] == phases;
    } else {
      var e := Advance(r, phases[i].0, phases[i].1);
      assert phases[..i + 1][..i] == phases[..i];
      RunAppend(s, AdvanceEvents(r, phases[..i]), [e]);
      assert Step(t, e) == t by { IdleAdvance(t, r, e); }
      IdleTail(s, t, r, phases, i + 1);
    }
  }

  lemma IdleAdvance(s: State, r: nat, e: Event)
    requires e.Advance? && e.r == r && r in s.workers
    requires !s.workers[r].stage.Working? || !HasModel(s.workers[r].mem)
    ensures Step(s, e) == s
  {
    if r in s.gens {
      assert s.gens == s.gens[r := s.gens[r]] && s.workers == s.workers[r := s.workers[r]];
    }
  }

  lemma IdleFinish(s: State, r: nat, script: Script)
    requires r in s.workers && !s.workers[r].stage.Working?
    ensures Step(s, Event.Finish(r, script.outcome, script.completed)) == s
  {
    if r in s.gens {
      assert s.gens == s.gens[r := s.gens[r]] && s.workers == s.workers[r := s.workers[r]];
    }
  }

  function AfterGenerating(s: State, r: nat, script: Script): State {
    Step(Metering.Run(s, AdvanceEvents(r, script.phases)), Event.Finish(r, script.outcome, script.completed))
  }

  /** After a job without a failure the rest of the script is idle. */
  lemma NothingToCatch(s: State, r: nat, saved: Saved)
    requires r !in s.workers
    ensures Step(Step(s, Fail(r, saved)), Event.Refund(r)) == s
  {
  }

  lemma JobUnfolds(s: State, r: nat, script: Script, delivered: State, gathered: State)
    requires delivered == Step(s, Deliver(r))
    requires gathered == Step(delivered, Gather(r, script.gathered))
    ensures Metering.Run(s, JobEvents(r, script))
         == Step(Step(AfterGenerating(gathered, r, script), Fail(r, script.failed)), Event.Refund(r))
  {
    var head := [Deliver(r), Gather(r, script.gathered)];
    var tail := [Event.Finish(r, script.outcome, script.completed), Fail(r, script.failed), Event.Refund(r)];
    var phased := Metering.Run(gathered, AdvanceEvents(r, script.phases));
    RunAppend(s, head, AdvanceEvents(r, script.phases));
    RunAppend(s, head + AdvanceEvents(r, script.phases), tail);
    RunAlong([s, delivered, gathered], head);
    var finished := Step(phased, tail[0]);
    var caught := Step(finished, tail[1]);
    RunAlong([phased, finished, caught, Step(caught, tail[2])], tail);
  }

  // ---- What one delivery amounts to -------------------------------------------------------------------------

  predicate AllSaved(script: Script) {
    && script.gathered.Saved? && script.completed.Saved? && script.failed.Saved?
    && forall i :: 0 <= i < |script.phases| ==> script.phases[i].1.Saved?
  }

  /** `t` is `s` up to the progress of job `r`. */
  predicate OnlyJobMoved(s: State, t: State, r: nat) {
    && r in s.gens && r in t.gens && t.gens == s.gens[r := t.gens[r]] && SameIdentity(s.gens[r], t.gens[r])
    && t.gens[r].provider == s.gens[r].provider && t.gens[r].model == s.gens[r].model
    && t.counters == s.counters && t.refunded == s.refunded && t.requests == s.requests
  }

  /** A worker in the `try` body whose entity is the stored row. */
  predicate InTry(s: State, r: nat) {
    AtStage(s, r, Working) && r in s.gens && s.workers[r].mem == s.gens[r] && r !in s.queue
  }

  lemma {:induction false} PhasesReachTheEnd(s: State, r: nat, phases: seq<(string, Saved)>)
    requires InTry(s, r) && HasModel(s.gens[r])
    requires forall i :: 0 <= i < |phases| ==> phases[i].1.Saved?
    ensures var t := Metering.Run(s, AdvanceEvents(r, phases)); InTry(t, r) && OnlyJobMoved(s, t, r)
    decreases |phases|
  {
    if phases == [] {
      assert s.gens == s.gens[r := s.gens[r]];
    } else {
      var init, e := phases[..|phases| - 1], Advance(r, phases[|phases| - 1].0, phases[|phases| - 1].1);
      PhasesReachTheEnd(s, r, init);
      RunAppend(s, AdvanceEvents(r, init), [e]);
    }
  }

  lemma DeliveryEntersTry(s: State, r: nat)
    requires Sound(s, r) && r in s.queue && r in s.gens
    ensures var t := Step(Step(s, Deliver(r)), Gather(r, Saved)); InTry(t, r) && OnlyJobMoved(s, t, r)
  {
  }

  lemma TryEndsInDoneOrRefunding(s: State, r: nat, outcome: Outcome)
    requires InTry(s, r)
    ensures var t := Step(Step(s, Event.Finish(r, outcome, Saved)), Fail(r, Saved));
            && OnlyJobMoved(s, t, r) && r !in t.queue
            && Settled(s.gens[r], outcome, t, r)
  {
  }

  /** How the outcome of a run shows in the tables just before the refund. */
  predicate Settled(g: Generation, outcome: Outcome, t: State, r: nat)
    requires r in t.gens
  {
    match Failure(g, outcome)
    case None =>
      && t.gens[r].status == Completed && t.gens[r].generatedMd == Some(outcome.markdown) && r !in t.workers
    case Some(message) =>
      && t.gens[r].status == Failed && t.gens[r].error == Some(message) && AtStage(t, r, Refunding)
  }

  function BeforeRefund(s: State, r: nat, script: Script): State {
    var gathered := Step(Step(s, Deliver(r)), Gather(r, script.gathered));
    Step(AfterGenerating(gathered, r, script), Fail(r, script.failed))
  }

  lemma JobUpToTheRefund(s: State, r: nat, script: Script)
    requires Sound(s, r) && r in s.queue && r in s.gens && AllSaved(script)
    ensures var t := BeforeRefund(s, r, script);
            && OnlyJobMoved(s, t, r) && r !in t.queue
            && Settled(s.gens[r], script.outcome, t, r)
  {
    var gathered := Step(Step(s, Deliver(r)), Gather(r, script.gathered));
    DeliveryEntersTry(s, r);
    if HasModel(s.gens[r]) {
      PhasesReachTheEnd(gathered, r, script.phases);
    } else {
      AdvancesAreIdle(gathered, r, script.phases);
    }
    var phased := Metering.Run(gathered, AdvanceEvents(r, script.phases));
    TryEndsInDoneOrRefunding(phased, r, script.outcome);
  }

  /**
   * When the database answers, a delivered job settles: it completes with the agent's markdown and keeps its
   * reservation, or it fails for the agent's reason and one use is given back to its month, unless that counter is at
   * zero already, which it is not while the month has no strays.
   */
  lemma DeliveredJobSettles(s: State, r: nat, script: Script)
    requires Valid(s) && r in s.queue && r in s.gens && AllSaved(script)
    ensures var g, t := s.gens[r], Metering.Run(s, JobEvents(r, script));
            var u, p, k := g.userId, PeriodOf(g.createdAt), g.kind;
            && r in t.gens && r !in t.workers && r !in t.queue
            && match Failure(g, script.outcome)
               case None =>
                 && t.gens[r].status == Completed && t.gens[r].generatedMd == Some(script.outcome.markdown)
                 && t.gens[r].provider == g.provider && t.gens[r].model == g.model
                 && t.counters == s.counters && t.refunded == s.refunded
               case Some(message) =>
                 && t.gens[r].status == Failed && t.gens[r].error == Some(message)
                 && Used(t, u, p, k) == Max(Used(s, u, p, k) - 1, 0)
                 && (Strays(s, u, p, k) == {} ==> Used(s, u, p, k) > 0)
                 && t.refunded == s.refunded + (if Used(s, u, p, k) > 0 then {r} else {})
  {
    var caught := BeforeRefund(s, r, script);
    JobUnfolds(s, r, script, Step(s, Deliver(r)), Step(Step(s, Deliver(r)), Gather(r, script.gathered)));
    assert Sound(s, r);
    JobUpToTheRefund(s, r, script);
    if Failure(s.gens[r], script.outcome).Some? {
      JobStaysValid(s, r, script);
      RefundOfFailedJob(s, caught, r);
      RefundEndsJob(caught, r);
    } else {
      NoRefundDue(caught, r);
    }
  }

  lemma RefundEndsJob(t: State, r: nat)
    requires AtStage(t, r, Refunding)
    ensures var z := Step(t, Event.Refund(r));
            z == StepRefund(t, r) && r !in z.workers && z.gens == t.gens && z.queue == t.queue
  {
  }

  lemma NoRefundDue(t: State, r: nat)
    requires r !in t.workers
    ensures Step(t, Event.Refund(r)) == t
  {
  }

  lemma JobStaysValid(s: State, r: nat, script: Script)
    requires Valid(s)
    ensures Valid(BeforeRefund(s, r, script))
  {
    var gathered := Step(Step(s, Deliver(r)), Gather(r, script.gathered));
    StepKeepsValid(s, Deliver(r));
    StepKeepsValid(Step(s, Deliver(r)), Gather(r, script.gathered));
    RunKeepsValid(gathered, AdvanceEvents(r, script.phases));
    StepKeepsValid(Metering.Run(gathered, AdvanceEvents(r, script.phases)),
                   Event.Finish(r, script.outcome, script.completed));
    StepKeepsValid(AfterGenerating(gathered, r, script), Fail(r, script.failed));
  }

  lemma RefundOfFailedJob(s: State, t: State, r: nat)
    requires Valid(t) && AtStage(t, r, Refunding) && r in s.gens && r in t.gens
    requires t.requests == s.requests && t.counters == s.counters && t.refunded == s.refunded
    requires t.gens == s.gens[r := t.gens[r]] && SameIdentity(s.gens[r], t.gens[r])
    ensures var g, z := s.gens[r], StepRefund(t, r);
            var u, p, k := g.userId, PeriodOf(g.createdAt), g.kind;
            && Used(z, u, p, k) == Max(Used(s, u, p, k) - 1, 0)
            && (Strays(s, u, p, k) == {} ==> Used(s, u, p, k) > 0)
            && z.refunded == s.refunded + (if Used(s, u, p, k) > 0 then {r} else {})
  {
    var g := s.gens[r];
    assert Balanced(t, g.userId, PeriodOf(g.createdAt), g.kind);
    RefundTakesEffectIff(t, r);
    if Strays(s, g.userId, PeriodOf(g.createdAt), g.kind) == {} {
      NoStraysKeepItCharged(s, t, r);
    }
  }

  lemma NoStraysKeepItCharged(s: State, t: State, r: nat)
    requires Valid(t) && AtStage(t, r, Refunding) && r in s.gens && r in t.gens && t.requests == s.requests
    requires t.gens == s.gens[r := t.gens[r]] && SameIdentity(s.gens[r], t.gens[r])
    requires var g := s.gens[r]; Strays(s, g.userId, PeriodOf(g.createdAt), g.kind) == {}
    ensures var g := s.gens[r]; Used(t, g.userId, PeriodOf(g.createdAt), g.kind) > 0
  {
    var g := s.gens[r];
    var u, p, k := g.userId, PeriodOf(g.createdAt), g.kind;
    assert Created(t.gens, u, p, k) == Created(s.gens, u, p, k);
    RefundTakesEffect(t, r);
    RefundTakesEffectIff(t, r);
  }
}
