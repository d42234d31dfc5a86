/**
 * The metered life of a generation: the quota guard reserves, the API records and enqueues a row, a worker
 * takes the job once, saves its progress, completes or fails, and gives a failed job's reservation back.
 * A run of the system is a sequence of events; each event is one database step.
 */
module Metering {
  import opened Basics
  import opened Ledger

  datatype Status = Queued | Running | Completed | Failed

  datatype Generation = Generation(
    userId: string,
    kind: GenerationKind,
    repoId: Option<string>,
    createdAt: Instant,
    provider: Option<string>,
    model: Option<string>,
    status: Status,
    phase: string,
    generatedMd: Option<string>,
    inputTokens: Option<nat>,
    outputTokens: Option<nat>,
    commitSha: Option<string>,
    error: Option<string>)

  /** JavaScript truthiness of a nullable text column. */
  predicate Truthy(s: Option<string>) {
    s.Some? && s.value != ""
  }

  predicate HasModel(g: Generation) {
    Truthy(g.provider) && Truthy(g.model)
  }

  /** A start request that passed the quota guard; `at` is the moment the guard read the clock. */
  datatype Request = Request(userId: string, kind: GenerationKind, at: Instant)

  /** Where a worker is in `run`: before `gathering`, in the `try` body, in `catch`, or about to refund. */
  datatype Stage = Loaded | Working | Catching(message: string) | Refunding

  /** A job in a worker's hands; `mem` is its in-memory entity, which every save writes out whole. */
  datatype Worker = Worker(stage: Stage, mem: Generation)

  datatype Saved = Saved | Refused(message: string)

  datatype Outcome =
    | Produced(markdown: string, inputTokens: nat, outputTokens: nat)
    | Thrown(message: string)

  datatype AiModel = AiModel(provider: string, modelId: string)

  /**
   * `plan`, `counters`, `gens` and `queue` are stored by the system. `requests`, `sent` and `refunded` are the
   * history the properties speak about: reservations granted, jobs ever enqueued, refunds that took effect.
   */
  datatype State = State(
    plan: map<(string, QuotaKind), int>,
    counters: Rows,
    gens: map<nat, Generation>,
    queue: set<nat>,
    workers: map<nat, Worker>,
    requests: map<nat, Request>,
    sent: set<nat>,
    refunded: set<nat>)

  datatype Event =
    | Reserve(r: nat, userId: string, kind: GenerationKind, now: Instant)
    | Start(r: nat, aiModel: Option<AiModel>, repoId: Option<string>, createdAt: Instant)
    | Enqueue(r: nat)
    | Deliver(r: nat)
    | Gather(r: nat, saved: Saved)
    | Advance(r: nat, phase: string, saved: Saved)
    | Finish(r: nat, outcome: Outcome, saved: Saved)
    | Fail(r: nat, saved: Saved)
    | Refund(r: nat)
    | Stop(r: nat)
    | Commit(r: nat, caller: string, kind: GenerationKind, content: string, sha: Option<string>)

  function LimitOf(plan: map<(string, QuotaKind), int>, userId: string, quota: QuotaKind): Option<int> {
    if (userId, quota) in plan then Some(plan[(userId, quota)]) else None
  }

  function Init(plan: map<(string, QuotaKind), int>): State {
    State(plan, map[], map[], {}, map[], map[], {}, {})
  }

  /** The row `start` inserts, or nothing when the model or the target repository cannot be resolved. */
  function NewRow(q: Request, aiModel: Option<AiModel>, repoId: Option<string>, createdAt: Instant)
    : Option<Generation>
  {
    if aiModel.None? || (q.kind.RepoReadme? && repoId.None?) then None
    else Some(Generation(
        q.userId, q.kind, if q.kind.RepoReadme? then repoId else None, createdAt,
        Some(aiModel.value.provider), Some(aiModel.value.modelId),
        Queued, "queued", None, None, None, None, None))
  }

  /** A job as one worker step leaves it: the stored row, and the worker unless it is finished with the job. */
  datatype Job = Job(row: Generation, worker: Option<Worker>)

  /** One save of the worker's entity: on success the row becomes it, otherwise control goes to `catch`. */
  function SaveEntity(row: Generation, mem: Generation, saved: Saved, next: Stage): Job {
    match saved
    case Saved => Job(mem, Some(Worker(next, mem)))
    case Refused(message) => Job(row, Some(Worker(Catching(message), mem)))
  }

  function Completion(g: Generation, outcome: Outcome): Generation
    requires outcome.Produced?
  {
    g.(generatedMd := Some(outcome.markdown), inputTokens := Some(outcome.inputTokens),
       outputTokens := Some(outcome.outputTokens), status := Completed, phase := "completed")
  }

  /** Why the `try` body throws before its last save, if it does. */
  function Failure(g: Generation, outcome: Outcome): Option<string> {
    if !HasModel(g) then Some("Generation has no model assigned.")
    else if outcome.Thrown? then Some(outcome.message)
    else if outcome.markdown == "" then Some("The model returned an empty README.")
    else None
  }

  predicate AtStage(s: State, r: nat, stage: Stage) {
    r in s.workers && s.workers[r].stage == stage
  }

  function StepReserve(s: State, e: Event): State
    requires e.Reserve?
  {
    if e.r in s.requests then s
    else
      var quota := EndpointQuota(e.kind);
      var key := (e.userId, CurrentPeriodStart(e.now));
      var row := ReserveRow(Lookup(s.counters, key), MetricField(quota), LimitOf(s.plan, e.userId, quota));
      if row.Err? then s
      else s.(counters := s.counters[key := row.value],
              requests := s.requests[e.r := Request(e.userId, e.kind, e.now)])
  }

  function StepStart(s: State, e: Event): State
    requires e.Start?
  {
    if e.r !in s.requests || e.r in s.gens then s
    else
      var row := NewRow(s.requests[e.r], e.aiModel, e.repoId, e.createdAt);
      if row.None? then s else s.(gens := s.gens[e.r := row.value])
  }

  function StepEnqueue(s: State, r: nat): State {
    if r !in s.gens || r in s.sent then s else s.(queue := s.queue + {r}, sent := s.sent + {r})
  }

  /** A job leaves the queue for good when it is handed to a worker. */
  function StepDeliver(s: State, r: nat): State {
    if r !in s.queue || r !in s.gens then s
    else s.(queue := s.queue - {r}, workers := s.workers[r := Worker(Loaded, s.gens[r])])
  }

  /** `advance`, for the first phase and for every later one. */
  function AdvanceJob(row: Generation, w: Worker, phase: string, saved: Saved): Job {
    SaveEntity(row, w.mem.(status := Running, phase := phase), saved, Working)
  }

  /** The rest of the `try` body after the last phase. */
  function FinishJob(row: Generation, w: Worker, outcome: Outcome, saved: Saved): Job {
    var failure := Failure(w.mem, outcome);
    if failure.Some? then Job(row, Some(Worker(Catching(failure.value), w.mem)))
    else
      var done := Completion(w.mem, outcome);
      if saved.Saved? then Job(done, None) else Job(row, Some(Worker(Catching(saved.message), done)))
  }

  /** The save in `catch`; when it is refused the error leaves `run` and no refund follows. */
  function FailJob(row: Generation, w: Worker, saved: Saved): Job
    requires w.stage.Catching?
  {
    var mem := w.mem.(status := Failed, phase := "failed", error := Some(w.stage.message));
    if saved.Saved? then Job(mem, Some(Worker(Refunding, mem))) else Job(row, None)
  }

  function JobStep(row: Generation, w: Worker, e: Event): Job {
    match e
    case Gather(_, saved) => if w.stage.Loaded? then AdvanceJob(row, w, "gathering", saved) else Job(row, Some(w))
    case Advance(_, phase, saved) =>
      if w.stage.Working? && HasModel(w.mem) then AdvanceJob(row, w, phase, saved) else Job(row, Some(w))
    case Finish(_, outcome, saved) =>
      if w.stage.Working? then FinishJob(row, w, outcome, saved) else Job(row, Some(w))
    case Fail(_, saved) => if w.stage.Catching? then FailJob(row, w, saved) else Job(row, Some(w))
    case Stop(_) => Job(row, None)
    case _ => Job(row, Some(w))
  }

  function StepJob(s: State, e: Event): State {
    if e.r !in s.workers || e.r !in s.gens then s
    else
      var job := JobStep(s.gens[e.r], s.workers[e.r], e);
      s.(gens := s.gens[e.r := job.row],
         workers := if job.worker.Some? then s.workers[e.r := job.worker.value] else s.workers - {e.r})
  }

  function StepRefund(s: State, r: nat): State {
    if !AtStage(s, r, Refunding) then s
    else
      var g := s.workers[r].mem;
      var key := (g.userId, PeriodOf(g.createdAt));
      var row := RefundRow(Lookup(s.counters, key), RunnerField(g.kind));
      var t := s.(workers := s.workers - {r});
      if row.None? then t else t.(counters := s.counters[key := row.value], refunded := s.refunded + {r})
  }

  function StepCommit(s: State, e: Event): State
    requires e.Commit?
  {
    if e.r !in s.gens then s
    else
      var g := s.gens[e.r];
      if g.userId != e.caller || g.kind != e.kind || g.status != Completed then s
      else if (g.kind.RepoReadme? && !Truthy(g.repoId)) || e.content == "" || e.sha.None? then s
      else s.(gens := s.gens[e.r := g.(generatedMd := Some(e.content), commitSha := e.sha)])
  }

  /** One database step. An event whose guard does not hold changes nothing. */
  function Step(s: State, e: Event): State {
    match e
    case Reserve(_, _, _, _) => StepReserve(s, e)
    case Start(_, _, _, _) => StepStart(s, e)
    case Enqueue(r) => StepEnqueue(s, r)
    case Deliver(r) => StepDeliver(s, r)
    case Refund(r) => StepRefund(s, r)
    case Commit(_, _, _, _, _) => StepCommit(s, e)
    case _ => StepJob(s, e)
  }

  function Run(s: State, es: seq<Event>): State
    decreases |es|
  {
    if es == [] then s else Run(Step(s, es[0]), es[1..])
  }

  lemma {:induction false} RunAppend(s: State, a: seq<Event>, b: seq<Event>)
    ensures Run(s, a + b) == Run(Run(s, a), b)
    decreases |a|
  {
    if a == [] {
      assert a + b == b;
    } else {
      assert (a + b)[1..] == a[1..] + b;
      RunAppend(Step(s, a[0]), a[1..], b);
    }
  }
}
