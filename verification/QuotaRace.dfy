/**
 * Reservations and refunds as two database steps each: a read that fixes the row to save, and the save. Steps of
 * any number of calls interleave. The save writes either the changed column alone or the whole row, since an
 * entity save may overwrite both columns; everything below holds for both readings.
 */
module QuotaRace {
  import opened Basics
  import opened Ledger
  import M = Metering

  datatype Call = ReserveCall(key: Key, field: UsageField) | RefundCall(key: Key, field: UsageField)

  /** A call past its read: the row it saw, if there was one, and the row it will save; with none seen it inserts. */
  datatype Pending = Pending(call: Call, seen: Option<Counter>, next: Counter)

  datatype State = State(limits: map<(string, UsageField), int>, rows: Rows, pending: map<nat, Pending>)

  datatype Event =
    | Read(op: nat, call: Call)
    | Write(op: nat, wholeRow: bool)

  function LimitOf(limits: map<(string, UsageField), int>, userId: string, f: UsageField): Option<int> {
    if (userId, f) in limits then Some(limits[(userId, f)]) else None
  }

  /** What one uninterrupted call would save: a new row, or nothing when it is denied or has nothing to give back. */
  function Decide(limits: map<(string, UsageField), int>, rows: Rows, call: Call): Option<Counter> {
    match call
    case ReserveCall(key, field) =>
      var r := ReserveRow(Lookup(rows, key), field, LimitOf(limits, key.0, field));
      if r.Ok? then Some(r.value) else None
    case RefundCall(key, field) => RefundRow(Lookup(rows, key), field)
  }

  /** An insert fails, and with it the request, when the unique index holds a row that appeared meanwhile. */
  predicate Accepted(rows: Rows, p: Pending) {
    p.seen.Some? || p.call.key !in rows
  }

  /** The save. Rows are never deleted, so one that was seen is there. */
  function Save(rows: Rows, p: Pending, wholeRow: bool): Rows {
    var key := p.call.key;
    if p.seen.None? then if key in rows then rows else rows[key := p.next]
    else if key !in rows then rows
    else rows[key := if wholeRow then p.next else Set(rows[key], p.call.field, Get(p.next, p.call.field))]
  }

  function Step(s: State, e: Event): State {
    match e
    case Read(op, call) =>
      var next := Decide(s.limits, s.rows, call);
      if op in s.pending || next.None? then s
      else s.(pending := s.pending[op := Pending(call, Lookup(s.rows, call.key), next.value)])
    case Write(op, wholeRow) =>
      if op !in s.pending then s
      else s.(rows := Save(s.rows, s.pending[op], wholeRow), pending := s.pending - {op})
  }

  function Run(s: State, es: seq<Event>): State
    decreases |es|
  {
    if es == [] then s else Run(Step(s, es[0]), es[1..])
  }

  function Init(limits: map<(string, UsageField), int>): State {
    State(limits, map[], map[])
  }

  // ---- Bounds survive every interleaving --------------------------------------------------------------------

  predicate RowWithin(limits: map<(string, UsageField), int>, userId: string, c: Counter) {
    && WithinLimit(LimitOf(limits, userId, GenerationsUsed), c.generationsUsed)
    && WithinLimit(LimitOf(limits, userId, ProfileNarrationsUsed), c.profileNarrationsUsed)
  }

  ghost predicate Bounded(s: State) {
    && (forall key :: key in s.rows ==> RowWithin(s.limits, key.0, s.rows[key]))
    && (forall op :: op in s.pending ==> RowWithin(s.limits, s.pending[op].call.key.0, s.pending[op].next))
  }

  lemma DecideStaysWithin(s: State, call: Call)
    requires Bounded(s)
    ensures var next := Decide(s.limits, s.rows, call);
            next.Some? ==> RowWithin(s.limits, call.key.0, next.value)
  {
    match call
    case ReserveCall(key, field) =>
      ReserveGrantedIffRoomLeft(Lookup(s.rows, key), field, LimitOf(s.limits, key.0, field));
    case RefundCall(key, field) =>
  }

  /** Every stored counter stays between zero and its plan's cap, however reads and writes interleave. */
  lemma {:induction false} EveryInterleavingIsBounded(s: State, es: seq<Event>)
    requires Bounded(s)
    ensures Bounded(Run(s, es))
    decreases |es|
  {
    if es != [] {
      if es[0].Read? {
        DecideStaysWithin(s, es[0].call);
      }
      EveryInterleavingIsBounded(Step(s, es[0]), es[1..]);
    }
  }

  // ---- Windows that do not overlap refine the atomic ledger -------------------------------------------------

  /** One call as a single step. */
  function AtomicRows(limits: map<(string, UsageField), int>, rows: Rows, call: Call): Rows {
    var next := Decide(limits, rows, call);
    if next.None? then rows else rows[call.key := next.value]
  }

  /** A call together with the answer the split run gave it. */
  datatype Answered = Answered(call: Call, accepted: bool)

  function AtomicRun(limits: map<(string, UsageField), int>, rows: Rows, calls: seq<Answered>): Rows
    decreases |calls|
  {
    if calls == [] then rows else AtomicRun(limits, AtomicRows(limits, rows, calls[0].call), calls[1..])
  }

  /** The atomic ledger gives every call, in turn, the answer recorded for it. */
  predicate AnswersAgree(limits: map<(string, UsageField), int>, rows: Rows, calls: seq<Answered>)
    decreases |calls|
  {
    calls == [] ||
    (calls[0].accepted == Decide(limits, rows, calls[0].call).Some? &&
     AnswersAgree(limits, AtomicRows(limits, rows, calls[0].call), calls[1..]))
  }

  /** Whether a read opens its window while no other window on the same row is open, checked along the run. */
  predicate WindowsDisjoint(s: State, es: seq<Event>)
    decreases |es|
  {
    es == [] ||
    ((es[0].Read? ==> forall op :: op in s.pending ==> s.pending[op].call.key != es[0].call.key) &&
     WindowsDisjoint(Step(s, es[0]), es[1..]))
  }

  /** The calls in the order they are answered: at their read when refused there, otherwise at their write. */
  function Linearize(s: State, es: seq<Event>): seq<Answered>
    decreases |es|
  {
    if es == [] then []
    else
      var rest := Linearize(Step(s, es[0]), es[1..]);
      match es[0]
      case Read(op, call) =>
        if op !in s.pending && Decide(s.limits, s.rows, call).None? then [Answered(call, false)] + rest else rest
      case Write(op, _) =>
        if op in s.pending then [Answered(s.pending[op].call, Accepted(s.rows, s.pending[op]))] + rest else rest
  }

  // ---- Every call is answered once --------------------------------------------------------------------------

  /** How many times the run starts `call`. */
  function Starts(s: State, es: seq<Event>, call: Call): nat
    decreases |es|
  {
    if es == [] then 0
    else
      var rest := Starts(Step(s, es[0]), es[1..], call);
      if es[0].Read? && es[0].op !in s.pending && es[0].call == call then rest + 1 else rest
  }

  /** How many answers to `call` are recorded. */
  function Answers(answered: seq<Answered>, call: Call): nat {
    if answered == [] then 0 else (if answered[0].call == call then 1 else 0) + Answers(answered[1..], call)
  }

  function Open(pending: map<nat, Pending>, call: Call): nat {
    |OpenOps(pending, call)|
  }

  function OpenOps(pending: map<nat, Pending>, call: Call): set<nat> {
    set op | op in pending && pending[op].call == call
  }

  /** No call is lost or answered twice: each one started is answered, or its window is still open. */
  lemma {:induction false} EveryCallIsAnsweredOnce(s: State, es: seq<Event>, call: Call)
    ensures Answers(Linearize(s, es), call) + Open(Run(s, es).pending, call) ==
              Open(s.pending, call) + Starts(s, es, call)
    decreases |es|
  {
    if es != [] {
      var e, t := es[0], Step(s, es[0]);
      var rest := Linearize(t, es[1..]);
      EveryCallIsAnsweredOnce(t, es[1..], call);
      if t.pending != s.pending {
        match e {
          case Read(op, c) => OpensOneMore(s.pending, op, t.pending[op], call);
          case Write(op, _) => ClosesOne(s.pending, op, call);
        }
      }
      if Linearize(s, es) != rest {
        assert Linearize(s, es)[1..] == rest;
      }
    }
  }

  lemma OpensOneMore(pending: map<nat, Pending>, op: nat, p: Pending, call: Call)
    requires op !in pending
    ensures Open(pending[op := p], call) == Open(pending, call) + if p.call == call then 1 else 0
  {
    var ops := OpenOps(pending, call);
    assert OpenOps(pending[op := p], call) == if p.call == call then ops + {op} else ops;
  }

  lemma ClosesOne(pending: map<nat, Pending>, op: nat, call: Call)
    requires op in pending
    ensures Open(pending - {op}, call) == Open(pending, call) - if pending[op].call == call then 1 else 0
  {
    var ops := OpenOps(pending, call);
    assert OpenOps(pending - {op}, call) == ops - {op};
  }

  lemma DecideReadsOneRow(limits: map<(string, UsageField), int>, a: Rows, b: Rows, call: Call)
    requires Lookup(a, call.key) == Lookup(b, call.key)
    ensures Decide(limits, a, call) == Decide(limits, b, call)
  {
  }

  function JustSeen(p: Pending): Rows {
    if p.seen.Some? then map[p.call.key := p.seen.value] else map[]
  }

  /** What `p` will save is what the call decided on the row it saw. */
  predicate ReadFrom(limits: map<(string, UsageField), int>, p: Pending) {
    Decide(limits, JustSeen(p), p.call) == Some(p.next)
  }

  /** Every open window still sees the row it read, and no two are open on one row. */
  ghost predicate WindowsCurrent(s: State) {
    && (forall op :: op in s.pending ==>
          ReadFrom(s.limits, s.pending[op]) && Lookup(s.rows, s.pending[op].call.key) == s.pending[op].seen)
    && (forall a, b :: a in s.pending && b in s.pending && s.pending[a].call.key == s.pending[b].call.key ==> a == b)
  }

  /** A save whose row is as it was read is the atomic call, and is accepted like it. */
  lemma CurrentSaveIsAtomic(limits: map<(string, UsageField), int>, rows: Rows, p: Pending, wholeRow: bool)
    requires ReadFrom(limits, p) && Lookup(rows, p.call.key) == p.seen
    ensures Accepted(rows, p) && Decide(limits, rows, p.call) == Some(p.next)
    ensures Save(rows, p, wholeRow) == AtomicRows(limits, rows, p.call)
  {
    DecideReadsOneRow(limits, rows, JustSeen(p), p.call);
  }

  lemma WriteKeepsWindowsCurrent(s: State, op: nat, wholeRow: bool)
    requires WindowsCurrent(s) && op in s.pending
    ensures WindowsCurrent(Step(s, Write(op, wholeRow)))
  {
    var t := Step(s, Write(op, wholeRow));
    forall o | o in t.pending
      ensures ReadFrom(t.limits, t.pending[o]) && Lookup(t.rows, t.pending[o].call.key) == t.pending[o].seen
    {
      assert s.pending[o].call.key != s.pending[op].call.key;
    }
  }

  lemma ReadOpensCurrentWindow(s: State, op: nat, call: Call)
    requires WindowsCurrent(s) && forall o :: o in s.pending ==> s.pending[o].call.key != call.key
    ensures WindowsCurrent(Step(s, Read(op, call)))
  {
    var next := Decide(s.limits, s.rows, call);
    if next.Some? {
      var p := Pending(call, Lookup(s.rows, call.key), next.value);
      DecideReadsOneRow(s.limits, s.rows, JustSeen(p), call);
    }
  }

  /**
   * Refinement: when no two windows on one row overlap, the split run leaves exactly the rows, and gives exactly
   * the answers, of the atomic ledger run on its calls in the order they take effect.
   */
  lemma {:induction false} DisjointWindowsRefineLedger(s: State, es: seq<Event>)
    requires WindowsCurrent(s) && WindowsDisjoint(s, es)
    ensures Run(s, es).rows == AtomicRun(s.limits, s.rows, Linearize(s, es))
    ensures AnswersAgree(s.limits, s.rows, Linearize(s, es))
    decreases |es|
  {
    if es != [] {
      var t := Step(s, es[0]);
      var rest := Linearize(t, es[1..]);
      match es[0] {
        case Read(op, call) =>
          ReadOpensCurrentWindow(s, op, call);
        case Write(op, wholeRow) =>
          if op in s.pending {
            WriteKeepsWindowsCurrent(s, op, wholeRow);
            CurrentSaveIsAtomic(s.limits, s.rows, s.pending[op], wholeRow);
          }
      }
      DisjointWindowsRefineLedger(t, es[1..]);
      if Linearize(s, es) != rest {
        assert Linearize(s, es)[1..] == rest;
      }
    }
  }

  // ---- Exactly when a save does what the ledger would --------------------------------------------------------

  /** The call gets the answer the atomic ledger would give it now, and leaves the ledger's rows. */
  predicate ActsAsLedger(limits: map<(string, UsageField), int>, rows: Rows, p: Pending, wholeRow: bool) {
    && (Accepted(rows, p) <==> Decide(limits, rows, p.call).Some?)
    && Save(rows, p, wholeRow) == AtomicRows(limits, rows, p.call)
  }

  /** What the save overwrites is still as it was read: the row or its absence, or just the column it writes. */
  predicate StillSeen(rows: Rows, p: Pending, wholeRow: bool) {
    if wholeRow || p.seen.None? then Lookup(rows, p.call.key) == p.seen
    else p.call.key in rows && Get(rows[p.call.key], p.call.field) == Get(p.seen.value, p.call.field)
  }

  /** An insert lost to a row under which the ledger refuses the call as well. */
  predicate LostAsLedgerRefuses(limits: map<(string, UsageField), int>, rows: Rows, p: Pending) {
    p.seen.None? && p.call.key in rows && Decide(limits, rows, p.call).None?
  }

  lemma ColumnStillSeenActsAsLedger(limits: map<(string, UsageField), int>, rows: Rows, p: Pending)
    requires ReadFrom(limits, p) && p.seen.Some? && StillSeen(rows, p, false)
    ensures ActsAsLedger(limits, rows, p, false)
  {
    var key := p.call.key;
    var next := Decide(limits, rows, p.call);
    assert next.Some? && Get(next.value, p.call.field) == Get(p.next, p.call.field);
    assert Set(rows[key], p.call.field, Get(p.next, p.call.field)) == next.value;
  }

  lemma ActingAsLedgerNeedsTheRow(limits: map<(string, UsageField), int>, rows: Rows, p: Pending, wholeRow: bool)
    requires ReadFrom(limits, p) && (p.seen.Some? ==> p.call.key in rows)
    requires ActsAsLedger(limits, rows, p, wholeRow) && Accepted(rows, p)
    ensures StillSeen(rows, p, wholeRow)
  {
    var key := p.call.key;
    assert key in AtomicRows(limits, rows, p.call);
    assert Save(rows, p, wholeRow)[key] == AtomicRows(limits, rows, p.call)[key];
  }

  /**
   * A save acts as the ledger would at that moment exactly when what it overwrites is still as it was read, or it is
   * an insert that is lost where the ledger refuses too. In every other case it grants what the ledger refuses, is
   * refused what the ledger grants, or leaves other rows.
   */
  lemma SaveIsAtomicIffCurrent(limits: map<(string, UsageField), int>, rows: Rows, p: Pending, wholeRow: bool)
    requires ReadFrom(limits, p) && (p.seen.Some? ==> p.call.key in rows)
    ensures ActsAsLedger(limits, rows, p, wholeRow)
       <==> StillSeen(rows, p, wholeRow) || LostAsLedgerRefuses(limits, rows, p)
  {
    if StillSeen(rows, p, wholeRow) {
      if wholeRow || p.seen.None? {
        CurrentSaveIsAtomic(limits, rows, p, wholeRow);
      } else {
        ColumnStillSeenActsAsLedger(limits, rows, p);
      }
    }
    if ActsAsLedger(limits, rows, p, wholeRow) && Accepted(rows, p) {
      ActingAsLedgerNeedsTheRow(limits, rows, p, wholeRow);
    }
  }

  /** What every run keeps: each open window was read, and the row it saw is still there in some form. */
  ghost predicate WindowsRead(s: State) {
    forall op :: op in s.pending ==>
      ReadFrom(s.limits, s.pending[op]) && (s.pending[op].seen.Some? ==> s.pending[op].call.key in s.rows)
  }

  lemma StepKeepsWindowsRead(s: State, e: Event)
    requires WindowsRead(s)
    ensures WindowsRead(Step(s, e))
  {
    if e.Read? {
      var next := Decide(s.limits, s.rows, e.call);
      if next.Some? {
        var p := Pending(e.call, Lookup(s.rows, e.call.key), next.value);
        DecideReadsOneRow(s.limits, s.rows, JustSeen(p), e.call);
      }
    }
  }

  /** Every save along the run acts as the ledger would there. */
  predicate SavesAtomic(s: State, es: seq<Event>)
    decreases |es|
  {
    es == [] ||
    ((es[0].Write? && es[0].op in s.pending ==> ActsAsLedger(s.limits, s.rows, s.pending[es[0].op], es[0].wholeRow))
     && SavesAtomic(Step(s, es[0]), es[1..]))
  }

  /** Every save along the run overwrites what was read, or is an insert lost where the ledger refuses too. */
  predicate SavesCurrent(s: State, es: seq<Event>)
    decreases |es|
  {
    es == [] ||
    ((es[0].Write? && es[0].op in s.pending ==>
        var p := s.pending[es[0].op];
        StillSeen(s.rows, p, es[0].wholeRow) || LostAsLedgerRefuses(s.limits, s.rows, p))
     && SavesCurrent(Step(s, es[0]), es[1..]))
  }

  lemma {:induction false} AtomicSavesRefineLedger(s: State, es: seq<Event>)
    requires SavesAtomic(s, es)
    ensures Run(s, es).rows == AtomicRun(s.limits, s.rows, Linearize(s, es))
    ensures AnswersAgree(s.limits, s.rows, Linearize(s, es))
    decreases |es|
  {
    if es != [] {
      var rest := Linearize(Step(s, es[0]), es[1..]);
      AtomicSavesRefineLedger(Step(s, es[0]), es[1..]);
      if Linearize(s, es) != rest {
        assert Linearize(s, es)[1..] == rest;
      }
    }
  }

  /**
   * Every save of a run acts as the ledger would there exactly when every save is of what was read, or an insert lost
   * where the ledger refuses too. Such a run leaves the ledger's rows and gives its answers, whether or not windows
   * overlap.
   */
  lemma {:induction false} RunIsAtomicIffSavesCurrent(s: State, es: seq<Event>)
    requires WindowsRead(s)
    ensures SavesAtomic(s, es) <==> SavesCurrent(s, es)
    ensures SavesCurrent(s, es) ==> Run(s, es).rows == AtomicRun(s.limits, s.rows, Linearize(s, es))
                                    && AnswersAgree(s.limits, s.rows, Linearize(s, es))
    decreases |es|
  {
    if es != [] {
      StepKeepsWindowsRead(s, es[0]);
      if es[0].Write? && es[0].op in s.pending {
        SaveIsAtomicIffCurrent(s.limits, s.rows, s.pending[es[0].op], es[0].wholeRow);
      }
      RunIsAtomicIffSavesCurrent(Step(s, es[0]), es[1..]);
    }
    if SavesAtomic(s, es) {
      AtomicSavesRefineLedger(s, es);
    }
  }

  // ---- From the empty table ---------------------------------------------------------------------------------

  lemma EveryRunIsBounded(limits: map<(string, UsageField), int>, es: seq<Event>)
    ensures Bounded(Run(Init(limits), es))
  {
    EveryInterleavingIsBounded(Init(limits), es);
  }

  lemma EveryDisjointRunRefinesLedger(limits: map<(string, UsageField), int>, es: seq<Event>)
    requires WindowsDisjoint(Init(limits), es)
    ensures var calls := Linearize(Init(limits), es);
            && Run(Init(limits), es).rows == AtomicRun(limits, map[], calls)
            && AnswersAgree(limits, map[], calls)
  {
    DisjointWindowsRefineLedger(Init(limits), es);
  }

  function TwoOverlappingReserves(): seq<Event> {
    var call := ReserveCall(("ada", "2026-01-01"), GenerationsUsed);
    [Read(0, call), Read(1, call), Write(0, true), Write(1, true)]
  }

  /** The run of two overlapping reservations, from a table where both read the same row or none. */
  lemma TwoOverlappingReservesRun(s0: State, p: Pending, granted: Rows, second: Rows)
    requires s0.pending == map[] && p.call == ReserveCall(("ada", "2026-01-01"), GenerationsUsed)
    requires Decide(s0.limits, s0.rows, p.call) == Some(p.next) && Lookup(s0.rows, p.call.key) == p.seen
    requires granted == Save(s0.rows, p, true) && second == Save(granted, p, true)
    ensures Run(s0, TwoOverlappingReserves()).rows == second
    ensures Linearize(s0, TwoOverlappingReserves())
         == [Answered(p.call, Accepted(s0.rows, p)), Answered(p.call, Accepted(granted, p))]
  {
    var es := TwoOverlappingReserves();
    var s1, s2 := s0.(pending := map[0 := p]), s0.(pending := map[0 := p, 1 := p]);
    var s3 := s0.(rows := granted, pending := map[1 := p]);
    assert Step(s0, es[0]) == s1;
    assert Step(s1, es[1]) == s2;
    assert Step(s2, es[2]) == s3;
    assert Step(s3, es[3]) == s0.(rows := second);
    assert es[1..][1..][1..][1..] == [];
    assert es[1..][0] == es[1] && es[1..][1..][0] == es[2] && es[1..][1..][1..][0] == es[3];
    assert Linearize(s3, es[1..][1..][1..]) == [Answered(p.call, Accepted(granted, p))];
    assert Linearize(s2, es[1..][1..])
        == [Answered(p.call, Accepted(s0.rows, p)), Answered(p.call, Accepted(granted, p))];
  }

  /** Overlapping windows lose this: under a cap of one, two calls are granted and the counter shows one. */
  lemma OverlapGrantsPastTheCap()
    ensures var limits := map[("ada", GenerationsUsed) := 1];
            var s0 := State(limits, map[("ada", "2026-01-01") := Counter(0, 0)], map[]);
            var key, call := ("ada", "2026-01-01"), ReserveCall(("ada", "2026-01-01"), GenerationsUsed);
            && Linearize(s0, TwoOverlappingReserves()) == [Answered(call, true), Answered(call, true)]
            && Run(s0, TwoOverlappingReserves()).rows == map[key := Counter(1, 0)]
            && !AnswersAgree(limits, s0.rows, Linearize(s0, TwoOverlappingReserves()))
  {
    var limits := map[("ada", GenerationsUsed) := 1];
    var key, call := ("ada", "2026-01-01"), ReserveCall(("ada", "2026-01-01"), GenerationsUsed);
    var s0 := State(limits, map[key := Counter(0, 0)], map[]);
    var p, after := Pending(call, Some(Counter(0, 0)), Counter(1, 0)), map[key := Counter(1, 0)];
    assert Save(s0.rows, p, true) == after && Save(after, p, true) == after;
    TwoOverlappingReservesRun(s0, p, after, after);
    var calls := Linearize(s0, TwoOverlappingReserves());
    assert AtomicRows(limits, s0.rows, call) == after;
    assert calls[1..][0] == Answered(call, true) && Decide(limits, after, call).None?;
  }

  /**
   * The first two reservations of a month, overlapping: the second insert is refused by the unique index. That is what
   * the ledger says under a cap of one, and only then; a greater cap, or none, has room for both.
   */
  lemma FirstReservationsCollide(cap: int)
    requires cap >= 1 || cap == -1
    ensures var limits := map[("ada", GenerationsUsed) := cap];
            var key, call := ("ada", "2026-01-01"), ReserveCall(("ada", "2026-01-01"), GenerationsUsed);
            var s0 := Init(limits);
            && Linearize(s0, TwoOverlappingReserves()) == [Answered(call, true), Answered(call, false)]
            && Run(s0, TwoOverlappingReserves()).rows == map[key := Counter(1, 0)]
            && (AnswersAgree(limits, s0.rows, Linearize(s0, TwoOverlappingReserves())) <==> cap == 1)
  {
    var limits := map[("ada", GenerationsUsed) := cap];
    var key, call := ("ada", "2026-01-01"), ReserveCall(("ada", "2026-01-01"), GenerationsUsed);
    var s0 := Init(limits);
    var p, after := Pending(call, None, Counter(1, 0)), map[key := Counter(1, 0)];
    assert Save(s0.rows, p, true) == after && Save(after, p, true) == after;
    TwoOverlappingReservesRun(s0, p, after, after);
    var calls := Linearize(s0, TwoOverlappingReserves());
    assert AtomicRows(limits, s0.rows, call) == after;
    var second := calls[1..];
    assert second == [Answered(call, false)] && second[1..] == [];
    assert Decide(limits, after, call).None? <==> cap == 1;
    assert AnswersAgree(limits, AtomicRows(limits, after, call), second[1..]);
    assert AnswersAgree(limits, after, second) <==> cap == 1;
    assert calls[0] == Answered(call, true) && Decide(limits, s0.rows, call).Some?;
  }

  // ---- The atomic ledger is the metered one -----------------------------------------------------------------

  /** The caps by column that a plan sets by feature. */
  function ColumnLimits(plan: map<(string, QuotaKind), int>): map<(string, UsageField), int> {
    map feature | feature in plan :: (feature.0, MetricField(feature.1)) := plan[feature]
  }

  ghost predicate SameLimits(plan: map<(string, QuotaKind), int>, limits: map<(string, UsageField), int>) {
    forall u: string, k: QuotaKind :: M.LimitOf(plan, u, k) == LimitOf(limits, u, MetricField(k))
  }

  /** The reserve and refund calls among the steps of a metered run, each with its answer. */
  function MeteredCalls(s: M.State, es: seq<M.Event>): seq<Answered>
    decreases |es|
  {
    if es == [] then []
    else
      var t := M.Step(s, es[0]);
      var rest := MeteredCalls(t, es[1..]);
      match es[0]
      case Reserve(r, u, kind, now) =>
        if r in s.requests then rest
        else
          var call := ReserveCall((u, CurrentPeriodStart(now)), MetricField(EndpointQuota(kind)));
          [Answered(call, r in t.requests)] + rest
      case Refund(r) =>
        if !M.AtStage(s, r, M.Refunding) then rest
        else
          var g := s.workers[r].mem;
          var call := RefundCall((g.userId, PeriodOf(g.createdAt)), RunnerField(g.kind));
          [Answered(call, t.counters != s.counters)] + rest
      case _ => rest
  }

  lemma ReserveStepIsAtomic(limits: map<(string, UsageField), int>, s: M.State, e: M.Event)
    requires e.Reserve? && e.r !in s.requests && SameLimits(s.plan, limits)
    ensures var call := ReserveCall((e.userId, CurrentPeriodStart(e.now)), MetricField(EndpointQuota(e.kind)));
            && M.Step(s, e).counters == AtomicRows(limits, s.counters, call)
            && (e.r in M.Step(s, e).requests <==> Decide(limits, s.counters, call).Some?)
  {
    assert M.LimitOf(s.plan, e.userId, EndpointQuota(e.kind))
        == LimitOf(limits, e.userId, MetricField(EndpointQuota(e.kind)));
  }

  lemma RefundStepIsAtomic(limits: map<(string, UsageField), int>, s: M.State, r: nat)
    requires M.AtStage(s, r, M.Refunding)
    ensures var g, t := s.workers[r].mem, M.Step(s, M.Refund(r));
            var call := RefundCall((g.userId, PeriodOf(g.createdAt)), RunnerField(g.kind));
            && t.counters == AtomicRows(limits, s.counters, call)
            && (t.counters != s.counters <==> Decide(limits, s.counters, call).Some?)
  {
    var g, t := s.workers[r].mem, M.Step(s, M.Refund(r));
    var key := (g.userId, PeriodOf(g.createdAt));
    if RefundRow(Lookup(s.counters, key), RunnerField(g.kind)).Some? {
      assert t.counters[key] != s.counters[key];
    }
  }

  lemma OtherStepsLeaveCounters(s: M.State, e: M.Event)
    requires e.Reserve? ==> e.r in s.requests
    requires e.Refund? ==> !M.AtStage(s, e.r, M.Refunding)
    ensures M.Step(s, e).counters == s.counters
  {
  }

  lemma StepKeepsPlan(s: M.State, e: M.Event)
    ensures M.Step(s, e).plan == s.plan
  {
  }

  /**
   * The counters of every metered run are the atomic ledger's on the run's own reserve and refund calls, answer for
   * answer: the ledger the split runs refine is the one the metered runs keep.
   */
  lemma {:induction false} MeteredRunIsAtomic(limits: map<(string, UsageField), int>, s: M.State, es: seq<M.Event>)
    requires SameLimits(s.plan, limits)
    ensures M.Run(s, es).counters == AtomicRun(limits, s.counters, MeteredCalls(s, es))
    ensures AnswersAgree(limits, s.counters, MeteredCalls(s, es))
    decreases |es|
  {
    if es != [] {
      var e, t := es[0], M.Step(s, es[0]);
      StepKeepsPlan(s, e);
      MeteredRunIsAtomic(limits, t, es[1..]);
      var rest := MeteredCalls(t, es[1..]);
      if e.Reserve? && e.r !in s.requests {
        ReserveStepIsAtomic(limits, s, e);
        assert MeteredCalls(s, es)[1..] == rest;
      } else if e.Refund? && M.AtStage(s, e.r, M.Refunding) {
        RefundStepIsAtomic(limits, s, e.r);
        assert MeteredCalls(s, es)[1..] == rest;
      } else {
        OtherStepsLeaveCounters(s, e);
        assert MeteredCalls(s, es) == rest;
      }
    }
  }

  lemma SameLimit(plan: map<(string, QuotaKind), int>, u: string, k: QuotaKind)
    ensures M.LimitOf(plan, u, k) == LimitOf(ColumnLimits(plan), u, MetricField(k))
  {
    assert (u, k) in plan ==> (u, MetricField(k)) in ColumnLimits(plan);
    if (u, MetricField(k)) in ColumnLimits(plan) {
      var feature :| feature in plan && (feature.0, MetricField(feature.1)) == (u, MetricField(k));
      assert feature == (u, k);
    }
  }

  lemma MeteredRunsKeepTheAtomicLedger(plan: map<(string, QuotaKind), int>, es: seq<M.Event>)
    ensures var calls := MeteredCalls(M.Init(plan), es);
            && M.Run(M.Init(plan), es).counters == AtomicRun(ColumnLimits(plan), map[], calls)
            && AnswersAgree(ColumnLimits(plan), map[], calls)
  {
    forall u: string, k: QuotaKind ensures M.LimitOf(plan, u, k) == LimitOf(ColumnLimits(plan), u, MetricField(k)) {
      SameLimit(plan, u, k);
    }
    MeteredRunIsAtomic(ColumnLimits(plan), M.Init(plan), es);
  }
}
