/** The `usage_counters` table: its period keys, its two columns, and what one reservation or refund does to a row. */
module Ledger {
  import opened Basics
  import Text
  import Decimal

  /** A moment as the UTC getters see it; `rest` stands for everything below the month. */
  datatype InstantFields = Instant(year: nat, month: nat, rest: nat)

  type Instant = d: InstantFields | d.month < 12 witness Instant(1970, 0, 0)

  /** The key `QuotaService` computes when it reserves. */
  function CurrentPeriodStart(now: Instant): string {
    Decimal.Render(now.year) + "-" + Decimal.Pad2(now.month + 1) + "-01"
  }

  /** The key `GenerationRunner` computes, on its own, when it refunds. */
  function PeriodOf(date: Instant): string {
    Decimal.Render(date.year) + "-" + Decimal.Pad2(date.month + 1) + "-01"
  }

  lemma KeyRegroups(y: string, m: string)
    ensures y + "-" + m + "-01" == y + ['-'] + (m + ['-'] + "01")
  {
  }

  /** The two computations name the same row exactly when the moments share their UTC month. */
  lemma PeriodKeysAgree(reserved: Instant, created: Instant)
    ensures PeriodOf(created) == CurrentPeriodStart(reserved)
       <==> created.year == reserved.year && created.month == reserved.month
  {
    if PeriodOf(created) == CurrentPeriodStart(reserved) {
      var y1, m1 := Decimal.Render(created.year), Decimal.Pad2(created.month + 1);
      var y2, m2 := Decimal.Render(reserved.year), Decimal.Pad2(reserved.month + 1);
      KeyRegroups(y1, m1);
      KeyRegroups(y2, m2);
      Text.PrefixBeforeSeparatorIsUnique(y1, m1 + ['-'] + "01", y2, m2 + ['-'] + "01", '-');
      Text.PrefixBeforeSeparatorIsUnique(m1, "01", m2, "01", '-');
      Decimal.RenderIsInjective(created.year, reserved.year);
      Decimal.Pad2IsInjective(created.month + 1, reserved.month + 1);
    }
  }

  datatype GenerationKind = Profile | RepoReadme

  datatype QuotaKind = ProfileNarration | RepoGeneration

  datatype UsageField = ProfileNarrationsUsed | GenerationsUsed

  /** The `@Quota` mark on the endpoint that starts each kind of generation. */
  function EndpointQuota(kind: GenerationKind): QuotaKind {
    match kind
    case Profile => ProfileNarration
    case RepoReadme => RepoGeneration
  }

  /** The column `METRICS` names for a quota kind. */
  function MetricField(kind: QuotaKind): UsageField {
    match kind
    case ProfileNarration => ProfileNarrationsUsed
    case RepoGeneration => GenerationsUsed
  }

  /** The column declared, separately, by the runner that consumes each kind's queue. */
  function RunnerField(kind: GenerationKind): UsageField {
    match kind
    case Profile => ProfileNarrationsUsed
    case RepoReadme => GenerationsUsed
  }

  datatype Counter = Counter(generationsUsed: int, profileNarrationsUsed: int)

  function Get(c: Counter, f: UsageField): int {
    match f
    case ProfileNarrationsUsed => c.profileNarrationsUsed
    case GenerationsUsed => c.generationsUsed
  }

  function Set(c: Counter, f: UsageField, v: int): Counter {
    match f
    case ProfileNarrationsUsed => c.(profileNarrationsUsed := v)
    case GenerationsUsed => c.(generationsUsed := v)
  }

  /** Rows are keyed by user and period, as the table's unique index has it. */
  type Key = (string, string)

  type Rows = map<Key, Counter>

  function Lookup(rows: Rows, key: Key): Option<Counter> {
    if key in rows then Some(rows[key]) else None
  }

  datatype Denial = NotIncluded | Exhausted

  /** A plan limit as `reserve` reads it: absent denies, -1 is unlimited, anything else below 1 denies. */
  function CheckPlan(limit: Option<int>): Result<int, Denial> {
    if limit.None? then Err(NotIncluded)
    else if limit.value != -1 && limit.value <= 0 then Err(NotIncluded)
    else Ok(limit.value)
  }

  /** The row `reserve` goes on to save, or why it refuses. */
  function ReserveRow(row: Option<Counter>, f: UsageField, limit: Option<int>): Result<Counter, Denial> {
    var plan := CheckPlan(limit);
    if plan.Err? then Err(plan.error)
    else
      var c := if row.Some? then row.value else Counter(0, 0);
      if plan.value != -1 && Get(c, f) >= plan.value then Err(Exhausted)
      else Ok(Set(c, f, Get(c, f) + 1))
  }

  /** The row `refund` saves; nothing is saved for a missing row or a counter at zero. */
  function RefundRow(row: Option<Counter>, f: UsageField): Option<Counter> {
    if row.Some? && Get(row.value, f) > 0 then Some(Set(row.value, f, Get(row.value, f) - 1)) else None
  }

  /** What a plan allows a stored counter to be: never negative, zero unless included, at most a positive cap. */
  predicate WithinLimit(limit: Option<int>, v: int) {
    && 0 <= v
    && (v > 0 ==> limit.Some? && (limit.value == -1 || v <= limit.value))
  }

  function OtherField(f: UsageField): UsageField {
    match f
    case ProfileNarrationsUsed => GenerationsUsed
    case GenerationsUsed => ProfileNarrationsUsed
  }

  /**
   * Reserving is granted exactly when one more use still fits the plan; it then adds one to the charged column of the
   * row, or of a new row of zeros, and leaves the other column alone. Otherwise the plan not including the feature at
   * all, or its being used up, is told apart.
   */
  lemma ReserveGrantedIffRoomLeft(row: Option<Counter>, f: UsageField, limit: Option<int>)
    requires row.Some? ==> WithinLimit(limit, Get(row.value, f))
    ensures var was, answer := if row.Some? then row.value else Counter(0, 0), ReserveRow(row, f, limit);
            && (answer.Ok? <==> WithinLimit(limit, Get(was, f) + 1))
            && (answer.Ok? ==> Get(answer.value, f) == Get(was, f) + 1
                               && Get(answer.value, OtherField(f)) == Get(was, OtherField(f)))
            && (answer == Err(NotIncluded) <==> !WithinLimit(limit, 1))
  {
    var used := if row.Some? then Get(row.value, f) else 0;
    if limit.Some? && limit.value != -1 && limit.value > 0 {
      assert WithinLimit(limit, used + 1) <==> used < limit.value;
    }
  }
}
