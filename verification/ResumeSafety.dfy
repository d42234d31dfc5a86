/** What every run over saved resumes keeps, however its calls interleave and wherever they stop. */
module ResumeSafety {
  import opened Basics
  import opened Resumes

  /** An upload's file is in the store under a key of its own, and its cached text is what parsing that file gives. */
  predicate RowSound(parse: Parser, s: State, id: nat)
    requires id in s.rows
  {
    && id < s.nextRow
    && match s.rows[id]
       case Upload(_, key, mime, text) =>
         && key < |s.fates| && s.fates[key] == OwnedBy(id) && key in s.objects
         && (text.Some? ==> text == Reparse(parse, s.objects, key, mime))
       case Link(_, _, text) => text.None?
  }

  predicate SameFile(a: Row, b: Row) {
    a.Upload? == b.Upload? && (a.Upload? ==> a.key == b.key)
  }

  predicate CallSound(s: State, c: nat)
    requires c < |s.calls|
  {
    match s.calls[c]
    case Stored(_, key, _) => key < |s.fates| && s.fates[key] == Held(c) && key in s.objects
    case Found(id, row) =>
      && id < s.nextRow && (row.Upload? ==> row.key < |s.fates|)
      && if id in s.rows then SameFile(s.rows[id], row) else row.Upload? ==> s.fates[row.key].Released?
    case Dropped(key) => key < |s.fates| && s.fates[key].Released?
    case _ => true
  }

  /** Every object is a row's, or is still in the hands of the call that put it or of the one that removed its row. */
  predicate ObjectSound(s: State, key: nat) {
    && key < |s.fates|
    && match s.fates[key]
       case Held(c) => c < |s.calls| && s.calls[c].Stored? && s.calls[c].key == key
       case OwnedBy(id) => id in s.rows && s.rows[id].Upload? && s.rows[id].key == key
       case Released(c) => c < |s.calls| && (s.calls[c] == Dropped(key) || s.calls[c] == Left(key))
  }

  predicate Valid(parse: Parser, s: State) {
    && (forall id: nat :: id in s.rows ==> RowSound(parse, s, id))
    && (forall c: nat :: c < |s.calls| ==> CallSound(s, c))
    && (forall key: nat :: key in s.objects ==> ObjectSound(s, key))
  }

  // ---- Preservation -----------------------------------------------------------------------------------------

  lemma NewCallKeepsValid(parse: Parser, s: State, call: Call)
    requires Valid(parse, s) && (call.Checked? || (call.Found? && call.id in s.rows && s.rows[call.id] == call.row))
    ensures Valid(parse, s.(calls := s.calls + [call]))
  {
    var next := s.(calls := s.calls + [call]);
    forall id: nat | id in next.rows ensures RowSound(parse, next, id) {
      assert RowSound(parse, s, id);
    }
    forall c: nat | c < |next.calls| ensures CallSound(next, c) {
      if c < |s.calls| {
        assert CallSound(s, c);
      } else if call.Found? {
        assert RowSound(parse, s, call.id);
      }
    }
    forall key: nat | key in next.objects ensures ObjectSound(next, key) {
      assert ObjectSound(s, key);
    }
  }

  lemma PutKeepsValid(parse: Parser, s: State, c: nat)
    requires Valid(parse, s)
    ensures Valid(parse, PutStep(s, c))
  {
    var next := PutStep(s, c);
    if next != s {
      forall id: nat | id in next.rows ensures RowSound(parse, next, id) {
        assert RowSound(parse, s, id);
      }
      forall d: nat | d < |next.calls| ensures CallSound(next, d) {
        assert CallSound(s, d);
      }
      forall key: nat | key in next.objects ensures ObjectSound(next, key) {
        assert key in s.objects ==> ObjectSound(s, key);
      }
    }
  }

  lemma SaveKeepsValid(parse: Parser, s: State, c: nat)
    requires Valid(parse, s)
    ensures Valid(parse, SaveStep(s, c))
  {
    var next := SaveStep(s, c);
    if c < |s.calls| {
      assert CallSound(s, c);
    }
    assert s.nextRow in s.rows ==> RowSound(parse, s, s.nextRow);
    forall id: nat | id in next.rows ensures RowSound(parse, next, id) {
      assert id in s.rows ==> RowSound(parse, s, id);
    }
    forall d: nat | d < |next.calls| ensures CallSound(next, d) {
      assert CallSound(s, d);
    }
    forall key: nat | key in next.objects ensures ObjectSound(next, key) {
      assert ObjectSound(s, key);
    }
  }

  lemma DropKeepsValid(parse: Parser, s: State, c: nat)
    requires Valid(parse, s)
    ensures Valid(parse, DropStep(s, c))
  {
    var next := DropStep(s, c);
    if c < |s.calls| && s.calls[c].Found? {
      assert CallSound(s, c);
      var gone := s.calls[c].id;
      assert gone in s.rows ==> RowSound(parse, s, gone);
      forall id: nat | id in next.rows ensures RowSound(parse, next, id) {
        assert RowSound(parse, s, id);
      }
      forall d: nat | d < |next.calls| ensures CallSound(next, d) {
        assert CallSound(s, d);
      }
      forall key: nat | key in next.objects ensures ObjectSound(next, key) {
        assert ObjectSound(s, key);
      }
    }
  }

  lemma DeleteKeepsValid(parse: Parser, s: State, c: nat, ok: bool)
    requires Valid(parse, s)
    ensures Valid(parse, DeleteStep(s, c, ok))
  {
    var next := DeleteStep(s, c, ok);
    if c < |s.calls| && s.calls[c].Dropped? {
      assert CallSound(s, c);
      forall id: nat | id in next.rows ensures RowSound(parse, next, id) {
        assert RowSound(parse, s, id);
      }
      forall d: nat | d < |next.calls| ensures CallSound(next, d) {
        assert CallSound(s, d);
      }
      forall key: nat | key in next.objects ensures ObjectSound(next, key) {
        assert ObjectSound(s, key);
      }
    }
  }

  lemma AbandonKeepsRows(parse: Parser, s: State, c: nat, id: nat)
    requires Valid(parse, s) && id in s.rows
    ensures RowSound(parse, AbandonStep(s, c), id)
  {
    assert RowSound(parse, s, id);
    assert c < |s.calls| ==> CallSound(s, c);
  }

  lemma AbandonKeepsCalls(parse: Parser, s: State, c: nat, d: nat)
    requires Valid(parse, s) && d < |s.calls|
    ensures CallSound(AbandonStep(s, c), d)
  {
    assert CallSound(s, d);
    assert c < |s.calls| ==> CallSound(s, c);
  }

  lemma AbandonKeepsValid(parse: Parser, s: State, c: nat)
    requires Valid(parse, s)
    ensures Valid(parse, AbandonStep(s, c))
  {
    var next := AbandonStep(s, c);
    forall id: nat | id in next.rows ensures RowSound(parse, next, id) {
      AbandonKeepsRows(parse, s, c, id);
    }
    forall d: nat | d < |next.calls| ensures CallSound(next, d) {
      AbandonKeepsCalls(parse, s, c, d);
    }
    forall key: nat | key in next.objects ensures ObjectSound(next, key) {
      assert ObjectSound(s, key);
      assert c < |s.calls| ==> CallSound(s, c);
    }
  }

  lemma ExtractKeepsValid(parse: Parser, s: State, extracted: nat)
    requires Valid(parse, s)
    ensures Valid(parse, ExtractStep(parse, s, extracted))
  {
    var next := ExtractStep(parse, s, extracted);
    if extracted in s.rows {
      assert RowSound(parse, s, extracted);
      forall id: nat | id in next.rows ensures RowSound(parse, next, id) {
        assert RowSound(parse, s, id);
      }
      forall c: nat | c < |next.calls| ensures CallSound(next, c) {
        assert CallSound(s, c);
      }
      forall key: nat | key in next.objects ensures ObjectSound(next, key) {
        assert ObjectSound(s, key);
      }
    }
  }

  lemma StepKeepsValid(parse: Parser, s: State, e: Event)
    requires Valid(parse, s)
    ensures Valid(parse, Step(parse, s, e))
  {
    match e {
      case Check(user, input, limit) => NewCallKeepsValid(parse, s, Checked(user, input));
      case Put(c) => PutKeepsValid(parse, s, c);
      case Save(c) => SaveKeepsValid(parse, s, c);
      case Find(user, id) => if id in s.rows { NewCallKeepsValid(parse, s, Found(id, s.rows[id])); }
      case Drop(c) => DropKeepsValid(parse, s, c);
      case Delete(c, ok) => DeleteKeepsValid(parse, s, c, ok);
      case Abandon(c) => AbandonKeepsValid(parse, s, c);
      case Extract(id) => ExtractKeepsValid(parse, s, id);
    }
  }

  lemma {:induction false} EveryRunIsValid(parse: Parser, es: seq<Event>)
    ensures Valid(parse, Run(parse, EMPTY, es))
    decreases |es|
  {
    if es != [] {
      EveryRunIsValid(parse, es[..|es| - 1]);
      StepKeepsValid(parse, Run(parse, EMPTY, es[..|es| - 1]), es[|es| - 1]);
    }
  }

  lemma {:induction false} RunKeepsValid(parse: Parser, s: State, es: seq<Event>)
    requires Valid(parse, s)
    ensures Valid(parse, Run(parse, s, es))
    decreases |es|
  {
    if es != [] {
      RunKeepsValid(parse, s, es[..|es| - 1]);
      StepKeepsValid(parse, Run(parse, s, es[..|es| - 1]), es[|es| - 1]);
    }
  }

  // ---- Main results -----------------------------------------------------------------------------------------

  /** Wherever creates and removes stopped, every saved upload still has its file, and no two share one. */
  lemma EveryUploadHasItsFile(parse: Parser, es: seq<Event>, id: nat, other: nat)
    requires var rows := Run(parse, EMPTY, es).rows; id in rows && rows[id].Upload?
    ensures var s := Run(parse, EMPTY, es);
            && s.rows[id].key in s.objects
            && (other in s.rows && other != id && s.rows[other].Upload? ==> s.rows[other].key != s.rows[id].key)
  {
    EveryRunIsValid(parse, es);
    var s := Run(parse, EMPTY, es);
    assert RowSound(parse, s, id);
    assert other in s.rows ==> RowSound(parse, s, other);
  }

  /** A file without a row is one an unfinished create or remove left behind; nothing else leaks. */
  lemma StrayFilesHaveACall(parse: Parser, es: seq<Event>, key: nat)
    requires var s := Run(parse, EMPTY, es);
             && key in s.objects
             && forall id: nat :: id in s.rows && s.rows[id].Upload? ==> s.rows[id].key != key
    ensures exists c: nat :: c < |Run(parse, EMPTY, es).calls| && HoldsKey(Run(parse, EMPTY, es).calls[c], key)
  {
    EveryRunIsValid(parse, es);
    var s := Run(parse, EMPTY, es);
    assert ObjectSound(s, key);
    var c := match s.fates[key] case Held(c) => c case Released(c) => c case _ => 0;
    assert HoldsKey(s.calls[c], key);
  }

  predicate HoldsKey(call: Call, key: nat) {
    (call.Stored? || call.Dropped? || call.Left?) && call.key == key
  }

  /** In every run the cache is invisible: `extractText` answers what parsing the stored file afresh would. */
  lemma CacheIsTransparent(parse: Parser, es: seq<Event>, id: nat)
    requires id in Run(parse, EMPTY, es).rows
    ensures var s := Run(parse, EMPTY, es);
            ExtractText(parse, s.objects, s.rows[id]) == ExtractText(parse, s.objects, s.rows[id].(parsedText := None))
  {
    EveryRunIsValid(parse, es);
    assert RowSound(parse, Run(parse, EMPTY, es), id);
  }

  /** Once an upload's text was read, reading it again needs neither the file nor the parser. */
  lemma ReadTextNeedsNoFile(parse: Parser, s: State, id: nat, other: Parser)
    requires Valid(parse, s) && id in s.rows && s.rows[id].Upload?
    ensures var answer, next := ExtractText(parse, s.objects, s.rows[id]), Step(parse, s, Extract(id));
            && next.objects == s.objects
            && (answer.Some? ==> ExtractText(other, map[], next.rows[id]) == answer)
            && (answer.None? ==> next == s)
  {
    assert RowSound(parse, s, id);
    assert s.rows[id := s.rows[id]] == s.rows;
  }

  // ---- The limit --------------------------------------------------------------------------------------------

  /** A request run without interleaving, stopping after any of its steps. */
  datatype Request =
    | Create(user: string, input: Input, steps: nat)
    | Remove(user: string, id: nat, deleted: bool, steps: nat)
    | ReadText(id: nat)

  function FirstOf(es: seq<Event>, n: nat): seq<Event> {
    if n < |es| then es[..n] else es
  }

  function Script(s: State, r: Request, limit: int): seq<Event> {
    var c := |s.calls|;
    match r
    case Create(user, input, steps) => FirstOf([Check(user, input, limit), Put(c), Save(c)], steps)
    case Remove(user, id, deleted, steps) => FirstOf([Find(user, id), Drop(c), Delete(c, deleted)], steps)
    case ReadText(id) => [Extract(id)]
  }

  /** The plan limit a request is checked against; only creates are. */
  function LimitFor(r: Request, limit: string -> int): int {
    match r
    case Create(user, _, _) => limit(user)
    case _ => 0
  }

  function RunRequests(parse: Parser, s: State, rs: seq<Request>, limit: string -> int): State
    decreases |rs|
  {
    if rs == [] then s
    else
      var before, r := RunRequests(parse, s, rs[..|rs| - 1], limit), rs[|rs| - 1];
      Run(parse, before, Script(before, r, LimitFor(r, limit)))
  }

  lemma CountAfterInsert(rows: map<nat, Row>, id: nat, row: Row, user: string)
    requires id !in rows
    ensures Count(rows[id := row], user) == Count(rows, user) + if row.user == user then 1 else 0
  {
    var next := rows[id := row];
    assert Ids(next, user) == Ids(rows, user) + if row.user == user then {id} else {};
  }

  lemma CountAfterRemove(rows: map<nat, Row>, id: nat, user: string)
    ensures Count(rows - {id}, user) <= Count(rows, user)
  {
    SubsetIsNoLarger(Ids(rows - {id}, user), Ids(rows, user));
  }

  lemma CountAfterUpdate(rows: map<nat, Row>, id: nat, row: Row, user: string)
    requires id in rows && row.user == rows[id].user
    ensures Count(rows[id := row], user) == Count(rows, user)
  {
    assert Ids(rows[id := row], user) == Ids(rows, user);
  }

  lemma RunOne(parse: Parser, s: State, a: Event)
    ensures Run(parse, s, [a]) == Step(parse, s, a)
  {
    assert [a][..0] == [];
  }

  lemma RunTwo(parse: Parser, s: State, a: Event, b: Event)
    ensures Run(parse, s, [a, b]) == Step(parse, Step(parse, s, a), b)
  {
    assert [a, b][..1] == [a];
    RunOne(parse, s, a);
  }

  lemma RunThree(parse: Parser, s: State, a: Event, b: Event, c: Event)
    ensures Run(parse, s, [a, b, c]) == Step(parse, Step(parse, Step(parse, s, a), b), c)
  {
    assert [a, b, c][..2] == [a, b];
    RunTwo(parse, s, a, b);
  }

  /** The state a request leaves, as its steps in a row. */
  lemma ScriptSteps(parse: Parser, s: State, a: Event, b: Event, c: Event, steps: nat)
    ensures var script := FirstOf([a, b, c], steps);
            Run(parse, s, script) ==
              if steps == 0 then s
              else if steps == 1 then Step(parse, s, a)
              else if steps == 2 then Step(parse, Step(parse, s, a), b)
              else Step(parse, Step(parse, Step(parse, s, a), b), c)
  {
    RunOne(parse, s, a);
    RunTwo(parse, s, a, b);
    RunThree(parse, s, a, b, c);
    var script := FirstOf([a, b, c], steps);
    if steps == 0 {
      assert script == [];
    } else if steps == 1 {
      assert script == [a];
    } else if steps == 2 {
      assert script == [a, b];
    } else {
      assert script == [a, b, c];
    }
  }

  lemma CreateStaysUnderLimit(parse: Parser, s: State, creator: string, input: Input, limit: int,
                              user: string, cap: int)
    requires Valid(parse, s) && cap != UNLIMITED && (creator == user ==> limit == cap)
    ensures var c := |s.calls|;
            var checked := Step(parse, s, Check(creator, input, limit));
            var put := Step(parse, checked, Put(c));
            && checked.rows == s.rows && put.rows == s.rows
            && Count(Step(parse, put, Save(c)).rows, user) <= Max(Count(s.rows, user), cap)
  {
    assert s.nextRow in s.rows ==> RowSound(parse, s, s.nextRow);
    if CheckError(s, creator, input, limit).None? {
      var put := Step(parse, Step(parse, s, Check(creator, input, limit)), Put(|s.calls|));
      var after := Step(parse, put, Save(|s.calls|));
      if after.rows != s.rows {
        CountAfterInsert(s.rows, s.nextRow, after.rows[s.nextRow], user);
      }
    }
  }

  lemma RemoveStaysUnderLimit(parse: Parser, s: State, remover: string, id: nat, deleted: bool, user: string)
    ensures var c := |s.calls|;
            var found := Step(parse, s, Find(remover, id));
            var dropped := Step(parse, found, Drop(c));
            && found.rows == s.rows && Count(dropped.rows, user) <= Count(s.rows, user)
            && Step(parse, dropped, Delete(c, deleted)).rows == dropped.rows
  {
    CountAfterRemove(s.rows, id, user);
  }

  lemma RequestStaysUnderLimit(parse: Parser, s: State, r: Request, limit: int, user: string, cap: int)
    requires Valid(parse, s) && cap != UNLIMITED && (r.Create? && r.user == user ==> limit == cap)
    ensures Count(Run(parse, s, Script(s, r, limit)).rows, user) <= Max(Count(s.rows, user), cap)
  {
    var c := |s.calls|;
    match r {
      case Create(creator, input, steps) =>
        ScriptSteps(parse, s, Check(creator, input, limit), Put(c), Save(c), steps);
        CreateStaysUnderLimit(parse, s, creator, input, limit, user, cap);
      case Remove(remover, id, deleted, steps) =>
        ScriptSteps(parse, s, Find(remover, id), Drop(c), Delete(c, deleted), steps);
        RemoveStaysUnderLimit(parse, s, remover, id, deleted, user);
      case ReadText(id) =>
        RunOne(parse, s, Extract(id));
        if id in s.rows {
          CountAfterUpdate(s.rows, id, WithText(parse, s.objects, s.rows[id]), user);
        }
    }
  }

  /**
   * When requests do not overlap, no create ever takes a user with a finite limit past it, whatever the limits of the
   * others: a count already above it, after a downgrade, never grows.
   */
  lemma {:induction false} LimitHoldsWithoutOverlap(parse: Parser, s: State, rs: seq<Request>, limit: string -> int,
                                                    user: string)
    requires Valid(parse, s) && limit(user) != UNLIMITED
    ensures Valid(parse, RunRequests(parse, s, rs, limit))
    ensures Count(RunRequests(parse, s, rs, limit).rows, user) <= Max(Count(s.rows, user), limit(user))
    decreases |rs|
  {
    if rs != [] {
      var before, r := RunRequests(parse, s, rs[..|rs| - 1], limit), rs[|rs| - 1];
      LimitHoldsWithoutOverlap(parse, s, rs[..|rs| - 1], limit, user);
      RequestStaysUnderLimit(parse, before, r, LimitFor(r, limit), user, limit(user));
      RunKeepsValid(parse, before, Script(before, r, LimitFor(r, limit)));
    }
  }

  /** Being under the limit means that one more row still fits it. */
  lemma UnderLimitLeavesRoom(rows: map<nat, Row>, user: string, limit: int, id: nat, row: Row)
    requires id !in rows && row.user == user
    ensures UnderLimit(rows, user, limit) <==> limit == UNLIMITED || Count(rows[id := row], user) <= limit
  {
    CountAfterInsert(rows, id, row, user);
  }

  // ---- The limit when creates overlap -----------------------------------------------------------------------

  /** Creates of a user that passed the check and have neither saved nor ended. */
  function Creating(calls: seq<Call>, user: string): set<nat> {
    set c: nat | c < |calls| && Creates(calls[c], user)
  }

  predicate Creates(call: Call, user: string) {
    (call.Checked? || call.Stored?) && call.user == user
  }

  /** A user's rows and the rows on their way. */
  function Load(s: State, user: string): nat {
    Count(s.rows, user) + |Creating(s.calls, user)|
  }

  lemma CreatingAfterUpdate(calls: seq<Call>, c: nat, call: Call, user: string)
    requires c < |calls|
    ensures |Creating(calls[c := call], user)| + (if Creates(calls[c], user) then 1 else 0)
         == |Creating(calls, user)| + (if Creates(call, user) then 1 else 0)
  {
    CreatingWithout(calls, c, user);
    CreatingWithout(calls[c := call], c, user);
    assert Creating(calls[c := call], user) - {c} == Creating(calls, user) - {c};
  }

  lemma CreatingWithout(calls: seq<Call>, c: nat, user: string)
    requires c < |calls|
    ensures |Creating(calls, user)| == |Creating(calls, user) - {c}| + (if Creates(calls[c], user) then 1 else 0)
  {
    var others := Creating(calls, user) - {c};
    if Creates(calls[c], user) {
      assert Creating(calls, user) == others + {c};
    } else {
      assert Creating(calls, user) == others;
    }
  }

  lemma CreatingAfterAppend(calls: seq<Call>, call: Call, user: string)
    ensures |Creating(calls + [call], user)| == |Creating(calls, user)| + (if Creates(call, user) then 1 else 0)
  {
    var next := calls + [call];
    assert Creating(next, user) == Creating(calls, user) + if Creates(call, user) then {|calls|} else {};
  }

  lemma SaveKeepsLoad(parse: Parser, s: State, c: nat, user: string)
    requires Valid(parse, s)
    ensures Load(SaveStep(s, c), user) <= Load(s, user)
  {
    assert s.nextRow in s.rows ==> RowSound(parse, s, s.nextRow);
    var next := SaveStep(s, c);
    if next != s {
      CreatingAfterUpdate(s.calls, c, Ended, user);
      CountAfterInsert(s.rows, s.nextRow, next.rows[s.nextRow], user);
    }
  }

  lemma DropKeepsLoad(s: State, c: nat, user: string)
    ensures Load(DropStep(s, c), user) <= Load(s, user)
  {
    var next := DropStep(s, c);
    if next != s {
      CreatingAfterUpdate(s.calls, c, next.calls[c], user);
      CountAfterRemove(s.rows, s.calls[c].id, user);
    }
  }

  lemma PutKeepsLoad(s: State, c: nat, user: string)
    ensures Load(PutStep(s, c), user) <= Load(s, user)
  {
    var next := PutStep(s, c);
    if next != s {
      CreatingAfterUpdate(s.calls, c, next.calls[c], user);
    }
  }

  lemma EndKeepsLoad(s: State, c: nat, next: State, user: string)
    requires c < |s.calls| && next.rows == s.rows && |next.calls| == |s.calls|
    requires next.calls == s.calls[c := next.calls[c]] && !next.calls[c].Checked? && !next.calls[c].Stored?
    ensures Load(next, user) <= Load(s, user)
  {
    CreatingAfterUpdate(s.calls, c, next.calls[c], user);
  }

  /** Only an accepted check of the user adds to what is on its way, and only while the rows are below the limit. */
  lemma StepLoad(parse: Parser, s: State, e: Event, user: string)
    requires Valid(parse, s)
    ensures if e.Check? && e.user == user && CheckError(s, user, e.input, e.limit).None?
            then Count(Step(parse, s, e).rows, user) == Count(s.rows, user) && UnderLimit(s.rows, user, e.limit)
            else Load(Step(parse, s, e), user) <= Load(s, user)
  {
    match e {
      case Check(creator, input, limit) =>
        if CheckError(s, creator, input, limit).None? {
          CreatingAfterAppend(s.calls, Checked(creator, input), user);
        }
      case Put(c) => PutKeepsLoad(s, c, user);
      case Save(c) => SaveKeepsLoad(parse, s, c, user);
      case Find(finder, id) =>
        if id in s.rows {
          CreatingAfterAppend(s.calls, Found(id, s.rows[id]), user);
        }
      case Drop(c) => DropKeepsLoad(s, c, user);
      case Delete(c, ok) => if DeleteStep(s, c, ok) != s { EndKeepsLoad(s, c, DeleteStep(s, c, ok), user); }
      case Abandon(c) => if AbandonStep(s, c) != s { EndKeepsLoad(s, c, AbandonStep(s, c), user); }
      case Extract(id) =>
        if id in s.rows {
          CountAfterUpdate(s.rows, id, WithText(parse, s.objects, s.rows[id]), user);
        }
    }
  }

  /** At no moment of the run are more than `k` creates of the user between check and save. */
  predicate AtMostCreating(parse: Parser, s: State, es: seq<Event>, user: string, k: nat)
    decreases |es|
  {
    && |Creating(Run(parse, s, es).calls, user)| <= k
    && (es == [] || AtMostCreating(parse, s, es[..|es| - 1], user, k))
  }

  predicate ChecksAgainst(es: seq<Event>, user: string, limit: int) {
    forall i :: 0 <= i < |es| && es[i].Check? && es[i].user == user ==> es[i].limit == limit
  }

  /**
   * Under every interleaving with at most `k` creates of a user between check and save, rows and creates under way
   * stay below the limit plus `k`, or at what there was at the start.
   */
  lemma {:induction false} OverlapPassesLimitByAtMost(parse: Parser, s: State, es: seq<Event>, user: string, limit: int,
                                                      k: nat)
    requires Valid(parse, s) && limit != UNLIMITED
    requires AtMostCreating(parse, s, es, user, k) && ChecksAgainst(es, user, limit)
    ensures Load(Run(parse, s, es), user) <= Max(Load(s, user), limit - 1 + k)
    decreases |es|
  {
    if es != [] {
      var init, e := es[..|es| - 1], es[|es| - 1];
      assert ChecksAgainst(init, user, limit);
      OverlapPassesLimitByAtMost(parse, s, init, user, limit, k);
      RunKeepsValid(parse, s, init);
      StepLoad(parse, Run(parse, s, init), e, user);
    }
  }

  function Checks(user: string, url: string, limit: int, k: nat): seq<Event> {
    if k == 0 then [] else Checks(user, url, limit, k - 1) + [Check(user, Input(None, url), limit)]
  }

  function Saves(base: nat, k: nat): seq<Event> {
    if k == 0 then [] else Saves(base, k - 1) + [Save(base + k - 1)]
  }

  function Waiting(user: string, url: string, k: nat): seq<Call> {
    seq(k, _ => Checked(user, Input(None, url)))
  }

  lemma {:induction false} ChecksAllPass(parse: Parser, s: State, user: string, url: string, limit: int, k: nat)
    requires UnderLimit(s.rows, user, limit) && url != ""
    ensures Run(parse, s, Checks(user, url, limit, k)) == s.(calls := s.calls + Waiting(user, url, k))
  {
    if k == 0 {
      assert s.calls + Waiting(user, url, 0) == s.calls;
    } else {
      ChecksAllPass(parse, s, user, url, limit, k - 1);
      var es := Checks(user, url, limit, k);
      assert es[..|es| - 1] == Checks(user, url, limit, k - 1);
      assert Waiting(user, url, k - 1) + [Checked(user, Input(None, url))] == Waiting(user, url, k);
      assert (s.calls + Waiting(user, url, k - 1)) + [Checked(user, Input(None, url))]
          == s.calls + Waiting(user, url, k);
    }
  }

  lemma {:induction false} SavesAllLand(parse: Parser, s: State, base: nat, user: string, url: string, n: nat, k: nat)
    requires Valid(parse, s) && k <= n && base + n == |s.calls|
    requires forall i :: base <= i < base + n ==> s.calls[i] == Checked(user, Input(None, url))
    ensures var t := Run(parse, s, Saves(base, k));
            && Count(t.rows, user) == Count(s.rows, user) + k && |t.calls| == |s.calls|
            && forall i :: base + k <= i < base + n ==> t.calls[i] == Checked(user, Input(None, url))
  {
    if k > 0 {
      SavesAllLand(parse, s, base, user, url, n, k - 1);
      var es := Saves(base, k);
      assert es[..|es| - 1] == Saves(base, k - 1);
      RunKeepsValid(parse, s, Saves(base, k - 1));
      var t := Run(parse, s, Saves(base, k - 1));
      assert t.nextRow in t.rows ==> RowSound(parse, t, t.nextRow);
      CountAfterInsert(t.rows, t.nextRow, Link(user, url, None), user);
    }
  }

  /** The bound is reached: from any state with room, `k` creates that check before any saves all land. */
  lemma OverlapReachesTheBound(parse: Parser, s: State, user: string, url: string, limit: int, k: nat)
    requires Valid(parse, s) && UnderLimit(s.rows, user, limit) && url != ""
    ensures var checked := Run(parse, s, Checks(user, url, limit, k));
            Count(Run(parse, checked, Saves(|s.calls|, k)).rows, user) == Count(s.rows, user) + k
  {
    ChecksAllPass(parse, s, user, url, limit, k);
    RunKeepsValid(parse, s, Checks(user, url, limit, k));
    SavesAllLand(parse, Run(parse, s, Checks(user, url, limit, k)), |s.calls|, user, url, k, k);
  }

  /** Two creates that both pass the check before either saves take a user past the limit. */
  lemma OverlappingCreatesPassTheLimit(parse: Parser, user: string, a: string, b: string)
    requires a != "" && b != ""
    ensures var one, two := Check(user, Input(None, a), 1), Check(user, Input(None, b), 1);
            Count(Step(parse, Step(parse, Step(parse, Step(parse, EMPTY, one), two), Save(0)), Save(1)).rows, user) == 2
  {
    var s0 := EMPTY;
    assert Ids(s0.rows, user) == {};
    var s1 := Step(parse, s0, Check(user, Input(None, a), 1));
    var s2 := Step(parse, s1, Check(user, Input(None, b), 1));
    var s3 := Step(parse, s2, Save(0));
    CountAfterInsert(s2.rows, 0, Link(user, a, None), user);
    CountAfterInsert(s3.rows, 1, Link(user, b, None), user);
  }

  // ---- What whole requests do -------------------------------------------------------------------------------

  /** A create and a remove as their steps in a row. */
  lemma CreateSteps(parse: Parser, s: State, user: string, input: Input, limit: int)
    ensures Run(parse, s, Script(s, Create(user, input, 3), limit))
         == SaveStep(PutStep(CheckStep(s, user, input, limit), |s.calls|), |s.calls|)
  {
    RunThree(parse, s, Check(user, input, limit), Put(|s.calls|), Save(|s.calls|));
  }

  lemma RefusedCreateDoesNothing(s: State, user: string, input: Input, limit: int)
    requires CheckError(s, user, input, limit).Some?
    ensures SaveStep(PutStep(CheckStep(s, user, input, limit), |s.calls|), |s.calls|) == s
  {
  }

  lemma RemoveSteps(parse: Parser, s: State, user: string, id: nat, deleted: bool)
    ensures Run(parse, s, Script(s, Remove(user, id, deleted, 3), 0))
         == DeleteStep(DropStep(FindStep(s, user, id), |s.calls|), |s.calls|, deleted)
  {
    RunThree(parse, s, Find(user, id), Drop(|s.calls|), Delete(|s.calls|, deleted));
  }

  /** The new row's id, or the first check that failed. */
  function CreateAnswer(s: State, user: string, input: Input, limit: int): Result<nat, Error> {
    var refused := CheckError(s, user, input, limit);
    if refused.Some? then Err(refused.value)
    else if input.file.Some? && ValidateFile(input.file.value).Some? then Err(ValidateFile(input.file.value).value)
    else Ok(s.nextRow)
  }

  /** An accepted create adds exactly one row holding what was sent; a refused one changes no row and no file. */
  lemma CreateAddsWhatWasSent(parse: Parser, s: State, user: string, input: Input, limit: int)
    requires Valid(parse, s)
    ensures var next := Run(parse, s, Script(s, Create(user, input, 3), limit));
            match CreateAnswer(s, user, input, limit)
            case Err(_) => next.rows == s.rows && next.objects == s.objects
            case Ok(id) =>
              && id !in s.rows && id in next.rows && next.rows - {id} == s.rows && next.rows[id].user == user
              && match input.file
                 case None => next.rows[id] == Link(user, input.url, None) && next.objects == s.objects
                 case Some(file) =>
                   && next.rows[id].Upload? && next.rows[id].mime == file.mime && next.rows[id].parsedText.None?
                   && next.rows[id].key !in s.objects
                   && next.objects == s.objects[next.rows[id].key := file.content]
  {
    CreateSteps(parse, s, user, input, limit);
    assert s.nextRow in s.rows ==> RowSound(parse, s, s.nextRow);
    forall key: nat | key in s.objects ensures key < |s.fates| {
      assert ObjectSound(s, key);
    }
  }

  /** A remove takes away the user's own row and, if the storage call succeeds, exactly its file. */
  lemma RemoveTakesRowAndFile(parse: Parser, s: State, user: string, id: nat, deleted: bool)
    requires Valid(parse, s)
    ensures var next := Run(parse, s, Script(s, Remove(user, id, deleted, 3), 0));
            if id in s.rows && s.rows[id].user == user then
              && next.rows == s.rows - {id}
              && next.objects == (if s.rows[id].Upload? && deleted then s.objects - {s.rows[id].key} else s.objects)
            else next == s
  {
    RemoveSteps(parse, s, user, id, deleted);
  }

  // ---- Reading the text while the resume is removed -----------------------------------------------------------

  /**
   * The end of an `extractText` that loaded `row` earlier and parsed it meanwhile. Saving an entity whose row is gone
   * inserts it again.
   */
  function LateSave(parse: Parser, s: State, id: nat, row: Row, text: string): State {
    s.(rows := s.rows[id := row.(parsedText := Some(text))])
  }

  /** What time can do to an upload that was read as `row`: it is there with the same file, or it is gone for good. */
  predicate ReadEarlier(s: State, id: nat, row: Row, content: Bytes) {
    && row.Upload? && id < s.nextRow && row.key < |s.fates|
    && if id in s.rows then SameFile(s.rows[id], row) && row.key in s.objects && s.objects[row.key] == content
       else s.fates[row.key].Released?
  }

  lemma StepKeepsReadEarlier(parse: Parser, s: State, e: Event, id: nat, row: Row, content: Bytes)
    requires Valid(parse, s) && ReadEarlier(s, id, row, content)
    ensures ReadEarlier(Step(parse, s, e), id, row, content)
  {
    assert id in s.rows ==> RowSound(parse, s, id);
    match e {
      case Save(c) => if c < |s.calls| { assert CallSound(s, c); }
      case Drop(c) => if c < |s.calls| { assert CallSound(s, c); }
      case Delete(c, _) => if c < |s.calls| { assert CallSound(s, c); }
      case Abandon(c) => if c < |s.calls| { assert CallSound(s, c); }
      case _ =>
    }
  }

  lemma {:induction false} RunKeepsReadEarlier(parse: Parser, s: State, es: seq<Event>,
                                               id: nat, row: Row, content: Bytes)
    requires Valid(parse, s) && ReadEarlier(s, id, row, content)
    ensures ReadEarlier(Run(parse, s, es), id, row, content)
    decreases |es|
  {
    if es != [] {
      RunKeepsReadEarlier(parse, s, es[..|es| - 1], id, row, content);
      RunKeepsValid(parse, s, es[..|es| - 1]);
      StepKeepsReadEarlier(parse, Run(parse, s, es[..|es| - 1]), es[|es| - 1], id, row, content);
    }
  }

  /** Every saved upload has its file in the store. */
  predicate FilesPresent(s: State) {
    forall id: nat :: id in s.rows && s.rows[id].Upload? ==> s.rows[id].key in s.objects
  }

  lemma LateSaveKeepsValidIff(parse: Parser, s: State, id: nat, row: Row, content: Bytes, text: string)
    requires Valid(parse, s) && ReadEarlier(s, id, row, content)
    requires Some(text) == Reparse(parse, map[row.key := content], row.key, row.mime)
    ensures Valid(parse, LateSave(parse, s, id, row, text)) <==> id in s.rows
  {
    var next := LateSave(parse, s, id, row, text);
    if id in s.rows {
      assert RowSound(parse, s, id);
      forall i: nat | i in next.rows ensures RowSound(parse, next, i) {
        assert RowSound(parse, s, i);
      }
      forall c: nat | c < |next.calls| ensures CallSound(next, c) {
        assert CallSound(s, c);
      }
      forall key: nat | key in next.objects ensures ObjectSound(next, key) {
        assert ObjectSound(s, key);
      }
    } else {
      assert !RowSound(parse, next, id);
    }
  }

  lemma ValidHasFiles(parse: Parser, s: State)
    requires Valid(parse, s)
    ensures FilesPresent(s)
  {
    forall id: nat | id in s.rows && s.rows[id].Upload? ensures s.rows[id].key in s.objects {
      assert RowSound(parse, s, id);
    }
  }

  lemma LateSaveFilesIff(parse: Parser, s: State, id: nat, row: Row, content: Bytes, text: string, c: nat)
    requires Valid(parse, s) && ReadEarlier(s, id, row, content)
    requires Some(text) == Reparse(parse, map[row.key := content], row.key, row.mime)
    ensures FilesPresent(DeleteStep(LateSave(parse, s, id, row, text), c, true))
       <==> id in s.rows || (row.key in s.objects && !(c < |s.calls| && s.calls[c] == Dropped(row.key)))
  {
    var late := LateSave(parse, s, id, row, text);
    var next := DeleteStep(late, c, true);
    if id in s.rows {
      LateSaveKeepsValidIff(parse, s, id, row, content, text);
      DeleteKeepsValid(parse, late, c, true);
      ValidHasFiles(parse, next);
    } else {
      var settled := DeleteStep(s, c, true);
      DeleteKeepsValid(parse, s, c, true);
      ValidHasFiles(parse, settled);
      assert next.objects == settled.objects && settled.rows == s.rows && next.rows == late.rows;
      assert next.rows[id].Upload? && next.rows[id].key == row.key;
      forall i: nat | i in next.rows && i != id && next.rows[i].Upload? ensures next.rows[i].key in next.objects {
        assert i in settled.rows && settled.rows[i] == next.rows[i];
      }
    }
  }

  /**
   * An `extractText` that loaded a resume and parsed it, and saves after any run of other steps. The save keeps the
   * invariant exactly when the resume is still there. As for files: after it, and after a pending delete `c` lands,
   * every saved upload has its file exactly when the resume is still there, or its file outlived it, neither deleted
   * yet nor about to be by `c`.
   */
  lemma LateSaveIsSafeIff(parse: Parser, s: State, id: nat, es: seq<Event>, text: string, c: nat)
    requires Valid(parse, s) && id in s.rows && s.rows[id].Upload?
    requires Some(text) == Reparse(parse, s.objects, s.rows[id].key, s.rows[id].mime)
    ensures var row, t := s.rows[id], Run(parse, s, es);
            var late := LateSave(parse, t, id, row, text);
            && (Valid(parse, late) <==> id in t.rows)
            && ((id in t.rows || (row.key in t.objects && !(c < |t.calls| && t.calls[c] == Dropped(row.key))))
                  <==> FilesPresent(Step(parse, late, Delete(c, true))))
  {
    var row, t := s.rows[id], Run(parse, s, es);
    assert RowSound(parse, s, id);
    var content := s.objects[row.key];
    RunKeepsReadEarlier(parse, s, es, id, row, content);
    RunKeepsValid(parse, s, es);
    LateSaveKeepsValidIff(parse, t, id, row, content, text);
    LateSaveFilesIff(parse, t, id, row, content, text, c);
  }

  /** And it does go wrong: a remove that runs to its end in between leaves a row whose file is gone. */
  lemma LateSaveLeavesADanglingRow(parse: Parser, user: string, file: File, text: string)
    requires ValidateFile(file).None?
    ensures var checked := Step(parse, EMPTY, Check(user, Input(Some(file), ""), 1));
            var s0 := Step(parse, Step(parse, checked, Put(0)), Save(0));
            && 0 in s0.rows && s0.rows[0].Upload?
            && var s1 := Step(parse, Step(parse, Step(parse, s0, Find(user, 0)), Drop(1)), Delete(1, true));
               var late := LateSave(parse, s1, 0, s0.rows[0], text);
               0 in late.rows && late.rows[0].key !in late.objects
  {
    var start := EMPTY;
    assert Ids(start.rows, user) == {};
  }
}
