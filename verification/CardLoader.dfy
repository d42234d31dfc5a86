/** Agent cards: a front-matter block of keys and item lists between `---` fences, then a body. */
module CardLoader {
  import opened Basics
  import opened Text

  datatype Card = Card(meta: map<string, seq<string>>, body: string)

  // ---- Character classes of the three patterns --------------------------------------------------------------

  /** `[\w-]` */
  predicate IsKeyChar(c: char) {
    IsWord(c) || c == '-'
  }

  /** `.` stops at the four ECMAScript line terminators. */
  predicate IsDot(c: char) {
    c != '\n' && c != '\r' && c != '\U{2028}' && c != '\U{2029}'
  }

  predicate AllDot(s: string) {
    forall i :: 0 <= i < |s| ==> IsDot(s[i])
  }

  predicate StartsWith(s: string, prefix: string) {
    |prefix| <= |s| && s[..|prefix|] == prefix
  }

  // ---- The fences -------------------------------------------------------------------------------------------

  predicate ThreeDashes(s: string, i: nat) {
    |s| >= i + 3 && s[i] == '-' && s[i + 1] == '-' && s[i + 2] == '-'
  }

  /** `\r?\n---` matches here; if it does, what follows the dashes. */
  function AfterFence(s: string): Option<string> {
    if ThreeDashes(s, 2) && s[0] == '\r' && s[1] == '\n' then Some(s[5..])
    else if ThreeDashes(s, 1) && s[0] == '\n' then Some(s[4..])
    else None
  }

  /** The lazy group: how many characters precede the first place a closing fence matches, and what follows it. */
  function FindFence(s: string): (r: Option<(nat, string)>)
    ensures r.Some? ==> r.value.0 <= |s|
  {
    var here := AfterFence(s);
    if here.Some? then Some((0, here.value))
    else if s == "" then None
    else
      var r := FindFence(s[1..]);
      if r.Some? then Some((r.value.0 + 1, r.value.1)) else None
  }

  /** `\r?\n?` at the start of the body. */
  function DropLineEnd(s: string): string {
    var t := if StartsWith(s, "\r") then s[1..] else s;
    if StartsWith(t, "\n") then t[1..] else t
  }

  /** What follows the opening fence, when there is one. */
  function AfterOpening(md: string): Option<string> {
    if StartsWith(md, "---\r\n") then Some(md[5..])
    else if StartsWith(md, "---\n") then Some(md[4..])
    else None
  }

  /** The two groups of the whole pattern: header and raw body. */
  function SplitCard(md: string): Option<(string, string)> {
    match AfterOpening(md)
    case None => None
    case Some(rest) =>
      match FindFence(rest)
      case None => None
      case Some(fence) => Some((rest[..fence.0], DropLineEnd(fence.1)))
  }

  // ---- Lines ------------------------------------------------------------------------------------------------

  function DropCr(s: string): string {
    if s != "" && s[|s| - 1] == '\r' then s[..|s| - 1] else s
  }

  /** `split(/\r?\n/)`: every part but the last gives up one carriage return. */
  function DropCrs(parts: seq<string>): (r: seq<string>)
    ensures |r| == |parts|
  {
    if |parts| <= 1 then parts else [DropCr(parts[0])] + DropCrs(parts[1..])
  }

  function SplitLines(s: string): seq<string> {
    DropCrs(Split(s, '\n'))
  }

  function KeyLength(line: string): (n: nat)
    ensures n <= |line|
  {
    if line != "" && IsKeyChar(line[0]) then KeyLength(line[1..]) + 1 else 0
  }

  /** `^([\w-]+):\s*(.*)$` */
  function MatchKey(line: string): Option<(string, string)> {
    var n := KeyLength(line);
    if n == 0 || n == |line| || line[n] != ':' then None
    else
      var rest := TrimStart(line[n + 1..]);
      if AllDot(rest) then Some((line[..n], rest)) else None
  }

  /** `^\s*-\s*(.+)$`; over trailing space alone the group gives back its last character. */
  function MatchItem(line: string): Option<string> {
    var a := TrimStart(line);
    if !StartsWith(a, "-") then None
    else
      var b := a[1..];
      var c := TrimStart(b);
      if c != "" then if AllDot(c) then Some(c) else None
      else if b != "" && IsDot(b[|b| - 1]) then Some([b[|b| - 1]])
      else None
  }

  function TrimAll(parts: seq<string>): seq<string> {
    if parts == [] then []
    else
      var head := Trim(parts[0]);
      (if head != "" then [head] else []) + TrimAll(parts[1..])
  }

  /** The items a key's own line gives: an inline list, one scalar, or none yet. */
  function ItemsOf(value: string): seq<string> {
    if StartsWith(value, "[") then
      TrimAll(Split(if |value| >= 2 then value[1..|value| - 1] else "", ','))
    else if value != "" then [value]
    else []
  }

  /** The map so far, and the key whose list later item lines extend. */
  datatype Header = Header(meta: map<string, seq<string>>, current: Option<string>)

  function ReadLine(h: Header, line: string): Header {
    match MatchKey(line)
    case Some(kv) => Header(h.meta[kv.0 := ItemsOf(Trim(kv.1))], Some(kv.0))
    case None =>
      match MatchItem(line)
      case Some(item) =>
        if h.current.Some? && h.current.value in h.meta
        then h.(meta := h.meta[h.current.value := h.meta[h.current.value] + [Trim(item)]])
        else h
      case None => h
  }

  function ReadLines(h: Header, lines: seq<string>): Header
    decreases |lines|
  {
    if lines == [] then h else ReadLines(ReadLine(h, lines[0]), lines[1..])
  }

  function Parse(md: string): Card {
    match SplitCard(md)
    case None => Card(map[], Trim(md))
    case Some(groups) => Card(ReadLines(Header(map[], None), SplitLines(groups.0)).meta, Trim(groups.1))
  }

  lemma {:induction false} ReadLinesAppend(h: Header, a: seq<string>, b: seq<string>)
    ensures ReadLines(h, a + b) == ReadLines(ReadLines(h, a), b)
    decreases |a|
  {
    if a == [] {
      assert a + b == b;
    } else {
      assert (a + b)[1..] == a[1..] + b;
      ReadLinesAppend(ReadLine(h, a[0]), a[1..], b);
    }
  }

  predicate CleanItem(item: string) {
    item != "" && Trimmed(item)
  }

  lemma {:induction false} TrimmedPartsAreClean(parts: seq<string>, c: char)
    requires forall i :: 0 <= i < |parts| ==> c !in parts[i]
    ensures forall i :: 0 <= i < |TrimAll(parts)| ==> CleanItem(TrimAll(parts)[i]) && c !in TrimAll(parts)[i]
  {
    if parts != [] {
      TrimmedPartsAreClean(parts[1..], c);
      TrimIsTrimmed(parts[0]);
      TrimAddsNothing(parts[0], c);
    }
  }

  /**
   * Whatever a key line holds, each item it gives is trimmed and not empty; items of an inline list hold no comma, and
   * any other text that is not empty is one item by itself.
   */
  lemma ItemsAreClean(value: string)
    requires Trimmed(value)
    ensures forall i :: 0 <= i < |ItemsOf(value)| ==> CleanItem(ItemsOf(value)[i])
    ensures StartsWith(value, "[") ==> forall i :: 0 <= i < |ItemsOf(value)| ==> ',' !in ItemsOf(value)[i]
    ensures !StartsWith(value, "[") ==> |ItemsOf(value)| == if value == "" then 0 else 1
  {
    var inner := if |value| >= 2 then value[1..|value| - 1] else "";
    PartsHoldNoSeparator(inner, ',');
    TrimmedPartsAreClean(Split(inner, ','), ',');
  }

  /** The list a key line starts with. */
  method FirstItems(value: string) returns (items: seq<string>)
    requires Trimmed(value)
    ensures forall i :: 0 <= i < |items| ==> CleanItem(items[i]) && (StartsWith(value, "[") ==> ',' !in items[i])
    ensures items == ItemsOf(value)
  {
    ItemsAreClean(value);
    if StartsWith(value, "[") {
      var inner := if |value| >= 2 then value[1..|value| - 1] else "";
      items := TrimAll(Split(inner, ','));
    } else if value != "" {
      items := [value];
    } else {
      items := [];
    }
    assert items == ItemsOf(value);
  }

  /** One turn of the loop: a key line opens a list, an item line extends the open one. */
  method TakeLine(line: string, meta: map<string, seq<string>>, current: Option<string>)
    returns (nextMeta: map<string, seq<string>>, nextCurrent: Option<string>)
    requires current.Some? ==> current.value in meta
    ensures Header(nextMeta, nextCurrent) == ReadLine(Header(meta, current), line)
    ensures nextCurrent.Some? ==> nextCurrent.value in nextMeta
  {
    nextMeta, nextCurrent := meta, current;
    var kv := MatchKey(line);
    var item := MatchItem(line);
    if kv.Some? {
      TrimIsTrimmed(kv.value.1);
      var items := FirstItems(Trim(kv.value.1));
      nextCurrent := Some(kv.value.0);
      nextMeta := meta[kv.value.0 := items];
    } else if item.Some? && current.Some? {
      nextMeta := meta[current.value := meta[current.value] + [Trim(item.value)]];
    }
  }

  /** The loop over the header's lines, updating the map and the current list. */
  method ReadHeader(lines: seq<string>) returns (meta: map<string, seq<string>>)
    ensures meta == ReadLines(Header(map[], None), lines).meta
  {
    meta := map[];
    var current: Option<string> := None;
    ghost var start := Header(meta, current);
    var n := 0;
    while n < |lines|
      invariant n <= |lines|
      invariant ReadLines(Header(meta, current), lines[n..]) == ReadLines(start, lines)
      invariant current.Some? ==> current.value in meta
    {
      assert lines[n..][1..] == lines[n + 1..];
      meta, current := TakeLine(lines[n], meta, current);
      n := n + 1;
    }
    assert lines[n..] == [];
  }

  /** `parse` as it runs. */
  method ParseCard(md: string) returns (card: Card)
    ensures card == Parse(md)
  {
    var groups := SplitCard(md);
    if groups.None? {
      return Card(map[], Trim(md));
    }
    var meta := ReadHeader(SplitLines(groups.value.0));
    card := Card(meta, Trim(groups.value.1));
  }
}
