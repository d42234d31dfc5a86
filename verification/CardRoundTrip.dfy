/** Writing cards down, and what reading them back returns. */
module CardRoundTrip {
  import opened Basics
  import opened Text
  import opened CardLoader

  datatype Form = Scalar | Inline | Block

  datatype Entry = Entry(key: string, form: Form, items: seq<string>)

  function Dashed(items: seq<string>): seq<string> {
    if items == [] then [] else ["- " + items[0]] + Dashed(items[1..])
  }

  function EntryLines(e: Entry): seq<string>
    requires e.form.Scalar? ==> e.items != []
  {
    match e.form
    case Scalar => [e.key + ": " + e.items[0]]
    case Inline => [e.key + ": [" + Join(e.items, ", ") + "]"]
    case Block => [e.key + ":"] + Dashed(e.items)
  }

  predicate GoodKey(key: string) {
    key != "" && IsWord(key[0]) && forall i :: 0 <= i < |key| ==> IsKeyChar(key[i])
  }

  predicate GoodItem(item: string) {
    item != "" && Trimmed(item) && AllDot(item)
  }

  /** What each form can carry: a scalar is one item not opening a list, an inline item holds no comma. */
  predicate GoodEntry(e: Entry) {
    && GoodKey(e.key)
    && (forall i :: 0 <= i < |e.items| ==> GoodItem(e.items[i]))
    && (e.form.Scalar? ==> |e.items| == 1 && e.items[0][0] != '[')
    && (e.form.Inline? ==> forall i :: 0 <= i < |e.items| ==> ',' !in e.items[i])
  }

  predicate GoodEntries(es: seq<Entry>) {
    forall i :: 0 <= i < |es| ==> GoodEntry(es[i])
  }

  function Lines(es: seq<Entry>): seq<string>
    requires GoodEntries(es)
  {
    if es == [] then [] else Lines(es[..|es| - 1]) + EntryLines(es[|es| - 1])
  }

  /** The card text: opening fence, one or more lines per entry, closing fence, body. */
  function Print(es: seq<Entry>, nl: string, body: string): string
    requires GoodEntries(es)
  {
    "---" + nl + Join(Lines(es), nl) + nl + "---" + nl + body
  }

  function MetaOf(es: seq<Entry>): map<string, seq<string>> {
    if es == [] then map[] else MetaOf(es[..|es| - 1])[es[|es| - 1].key := es[|es| - 1].items]
  }

  predicate DistinctKeys(es: seq<Entry>) {
    forall i, j :: 0 <= i < j < |es| ==> es[i].key != es[j].key
  }

  // ---- Single lines -----------------------------------------------------------------------------------------

  lemma {:induction false} KeyLengthOfKey(key: string, tail: string)
    requires forall i :: 0 <= i < |key| ==> IsKeyChar(key[i])
    ensures KeyLength(key + ":" + tail) == |key|
    decreases |key|
  {
    var line := key + ":" + tail;
    if key != "" {
      assert line[0] == key[0];
      assert line[1..] == key[1..] + ":" + tail;
      KeyLengthOfKey(key[1..], tail);
    }
  }

  lemma KeyLineMatches(key: string, tail: string)
    requires GoodKey(key) && AllDot(TrimStart(tail))
    ensures MatchKey(key + ":" + tail) == Some((key, TrimStart(tail)))
  {
    var line := key + ":" + tail;
    KeyLengthOfKey(key, tail);
    assert line[..|key|] == key && line[|key| + 1..] == tail && line[|key|] == ':';
  }

  lemma TrimStartOfSpaced(s: string)
    requires s == "" || !IsSpace(s[0])
    ensures TrimStart(" " + s) == s
  {
    assert (" " + s)[1..] == s;
  }

  lemma DashIsNoKey(line: string)
    requires |line| >= 2 && line[0] == '-' && line[1] == ' '
    ensures MatchKey(line).None?
  {
    assert KeyLength(line[1..]) == 0;
    assert KeyLength(line) == 1;
  }

  lemma DashGivesItem(line: string, item: string)
    requires line != "" && line[0] == '-' && TrimStart(line[1..]) == item
    requires item != "" && AllDot(item)
    ensures MatchItem(line) == Some(item)
  {
    assert TrimStart(line) == line;
    assert line[..1] == "-";
  }

  lemma ItemLineMatches(item: string)
    requires GoodItem(item)
    ensures MatchKey("- " + item).None?
    ensures MatchItem("- " + item) == Some(item)
  {
    var line := "- " + item;
    assert line[0] == '-' && line[1] == ' ';
    DashIsNoKey(line);
    TrimStartOfSpaced(item);
    assert line[1..] == " " + item;
    DashGivesItem(line, item);
  }

  lemma TrimAllCons(part: string, item: string, parts: seq<string>)
    requires Trim(part) == item && item != ""
    ensures TrimAll([part] + parts) == [item] + TrimAll(parts)
  {
    assert ([part] + parts)[1..] == parts;
  }

  lemma TrimOfSpaced(item: string)
    requires item != "" && Trimmed(item)
    ensures Trim(" " + item) == item && Trim(item) == item
  {
    TrimStartOfSpaced(item);
    TrimIsIdentityOnTrimmed(item);
  }

  /** One item in front of a comma: whether or not a space precedes it, it comes back trimmed. */
  lemma InlineItemReadsBack(lead: string, item: string, tail: string)
    requires GoodItem(item) && ',' !in item && (lead == "" || lead == " ")
    ensures TrimAll(Split(lead + item + [','] + tail, ',')) == [item] + TrimAll(Split(tail, ','))
  {
    var part := lead + item;
    TrimOfSpaced(item);
    assert lead == "" ==> part == item;
    assert ',' !in part;
    SplitAtSeparator(part, ',', tail);
    TrimAllCons(part, item, Split(tail, ','));
  }

  lemma LastInlineItemReadsBack(lead: string, item: string)
    requires GoodItem(item) && ',' !in item && (lead == "" || lead == " ")
    ensures TrimAll(Split(lead + item, ',')) == [item]
  {
    var part := lead + item;
    TrimOfSpaced(item);
    assert lead == "" ==> part == item;
    assert ',' !in part;
    SplitFree(part, ',');
    TrimAllCons(part, item, []);
    assert [part] + [] == [part];
  }

  predicate GoodInline(items: seq<string>) {
    forall i :: 0 <= i < |items| ==> GoodItem(items[i]) && ',' !in items[i]
  }

  /** The items of a comma-separated text. */
  function InlineItems(s: string): seq<string> {
    TrimAll(Split(s, ','))
  }

  lemma JoinedStep(lead: string, items: seq<string>, first: string, rest: seq<string>)
    requires items == [first] + rest && rest != []
    requires GoodItem(first) && ',' !in first && (lead == "" || lead == " ")
    requires InlineItems(" " + Join(rest, ", ")) == rest
    ensures InlineItems(lead + Join(items, ", ")) == items
  {
    assert items[1..] == rest && items[0] == first;
    JoinedSplitsOff(lead, items);
    InlineItemReadsBack(lead, first, " " + Join(rest, ", "));
  }

  lemma {:induction false} JoinedItemsReadBack(lead: string, items: seq<string>)
    requires GoodInline(items)
    requires items != [] && (lead == "" || lead == " ")
    ensures InlineItems(lead + Join(items, ", ")) == items
    decreases |items|
  {
    if |items| == 1 {
      LastInlineItemReadsBack(lead, items[0]);
    } else {
      JoinedItemsReadBack(" ", items[1..]);
      JoinedStep(lead, items, items[0], items[1..]);
    }
  }

  lemma JoinedSplitsOff(lead: string, items: seq<string>)
    requires |items| > 1
    ensures lead + Join(items, ", ") == lead + items[0] + [','] + (" " + Join(items[1..], ", "))
  {
    assert Join(items, ", ") == items[0] + ", " + Join(items[1..], ", ");
  }

  /** A bracketed text is read as the comma-separated items inside it. */
  lemma BracketsComeOff(inner: string)
    ensures ItemsOf("[" + inner + "]") == InlineItems(inner)
  {
    var value := "[" + inner + "]";
    assert value[1..|value| - 1] == inner;
    assert StartsWith(value, "[");
  }

  lemma InlineItemsReadBack(items: seq<string>)
    requires GoodInline(items)
    ensures ItemsOf("[" + Join(items, ", ") + "]") == items
  {
    var inner := Join(items, ", ");
    BracketsComeOff(inner);
    if items == [] {
      EmptyListReadsBack(inner);
    } else {
      JoinedItemsReadBack("", items);
      assert "" + inner == inner;
    }
  }

  lemma EmptyListReadsBack(s: string)
    requires s == ""
    ensures TrimAll(Split(s, ',')) == []
  {
    assert Split(s, ',') == [s];
    assert Trim(s) == s;
    assert [s][1..] == [];
  }

  lemma {:induction false} JoinedIsDot(items: seq<string>)
    requires forall i :: 0 <= i < |items| ==> AllDot(items[i])
    ensures AllDot(Join(items, ", "))
    decreases |items|
  {
    if |items| > 1 {
      JoinedIsDot(items[1..]);
      var tail := Join(items[1..], ", ");
      var s := items[0] + ", " + tail;
      forall i | 0 <= i < |s| ensures IsDot(s[i]) {
        if i >= |items[0]| + 2 {
          assert s[i] == tail[i - |items[0]| - 2];
        }
      }
    }
  }

  // ---- One entry, then all of them --------------------------------------------------------------------------

  /** An item line appends to the list of the current key. */
  lemma ItemLineExtends(meta: map<string, seq<string>>, key: string, was: seq<string>, item: string)
    requires GoodItem(item)
    ensures ReadLine(Header(meta[key := was], Some(key)), "- " + item) == Header(meta[key := was + [item]], Some(key))
  {
    ItemLineMatches(item);
    TrimIsIdentityOnTrimmed(item);
    assert meta[key := was][key := was + [item]] == meta[key := was + [item]];
  }

  lemma {:induction false} DashedLinesExtend(meta: map<string, seq<string>>, key: string, was: seq<string>,
                                             items: seq<string>)
    requires forall i :: 0 <= i < |items| ==> GoodItem(items[i])
    ensures ReadLines(Header(meta[key := was], Some(key)), Dashed(items))
         == Header(meta[key := was + items], Some(key))
    decreases |items|
  {
    var h := Header(meta[key := was], Some(key));
    if items == [] {
      assert was + items == was;
    } else {
      ItemLineExtends(meta, key, was, items[0]);
      DashedLinesExtend(meta, key, was + [items[0]], items[1..]);
      ReadLinesCons(h, "- " + items[0], Dashed(items[1..]));
      assert (was + [items[0]]) + items[1..] == was + items;
    }
  }

  lemma ReadLinesCons(h: Header, line: string, rest: seq<string>)
    ensures ReadLines(h, [line] + rest) == ReadLines(ReadLine(h, line), rest)
  {
    assert ([line] + rest)[1..] == rest;
  }

  lemma ReadOneLine(h: Header, line: string)
    ensures ReadLines(h, [line]) == ReadLine(h, line)
  {
    assert [line] + [] == [line];
    ReadLinesCons(h, line, []);
  }

  /** A key line with a trimmed value binds the key to the items of the value. */
  lemma KeyLineReads(h: Header, key: string, tail: string, value: string)
    requires GoodKey(key) && TrimStart(tail) == value && Trimmed(value) && AllDot(value)
    ensures ReadLine(h, key + ":" + tail) == Header(h.meta[key := ItemsOf(value)], Some(key))
  {
    KeyLineMatches(key, tail);
    TrimIsIdentityOnTrimmed(value);
  }

  /** A value written after a colon and a space. */
  lemma SpacedValueReads(h: Header, key: string, v: string)
    requires GoodKey(key) && AllDot(v) && Trimmed(v) && TrimStart(" " + v) == v
    ensures ReadLine(h, key + ": " + v) == Header(h.meta[key := ItemsOf(v)], Some(key))
  {
    KeyLineReads(h, key, " " + v, v);
    assert key + ": " + v == key + ":" + (" " + v);
  }

  lemma ScalarReadsBack(h: Header, key: string, v: string)
    requires GoodKey(key) && GoodItem(v) && v[0] != '['
    ensures ReadLine(h, key + ": " + v) == Header(h.meta[key := [v]], Some(key))
  {
    TrimStartOfSpaced(v);
    SpacedValueReads(h, key, v);
    assert v[..1][0] == v[0];
  }

  lemma BracketedValue(inner: string)
    requires AllDot(inner)
    ensures var v := "[" + inner + "]"; AllDot(v) && Trimmed(v) && TrimStart(" " + v) == v
  {
    var v := "[" + inner + "]";
    forall i | 0 <= i < |v| ensures IsDot(v[i]) {
      assert 0 < i < |v| - 1 ==> v[i] == inner[i - 1];
    }
    assert v[0] == '[' && v[|v| - 1] == ']';
    TrimStartOfSpaced(v);
  }

  lemma InlineValue(items: seq<string>)
    requires GoodInline(items)
    ensures var v := "[" + Join(items, ", ") + "]";
            AllDot(v) && Trimmed(v) && TrimStart(" " + v) == v && ItemsOf(v) == items
  {
    JoinedIsDot(items);
    BracketedValue(Join(items, ", "));
    InlineItemsReadBack(items);
  }

  lemma InlineReadsBack(h: Header, key: string, items: seq<string>, inner: string)
    requires GoodKey(key) && GoodInline(items) && inner == Join(items, ", ")
    ensures ReadLine(h, key + ": [" + inner + "]") == Header(h.meta[key := items], Some(key))
  {
    InlineValue(items);
    var v := "[" + inner + "]";
    SpacedValueReads(h, key, v);
    BracketRegroups(key, inner);
  }

  lemma BracketRegroups(key: string, inner: string)
    ensures key + ": [" + inner + "]" == key + ": " + ("[" + inner + "]")
  {
  }

  lemma BlockReadsBack(h: Header, key: string, items: seq<string>)
    requires GoodKey(key) && forall i :: 0 <= i < |items| ==> GoodItem(items[i])
    ensures ReadLines(h, [key + ":"] + Dashed(items)) == Header(h.meta[key := items], Some(key))
  {
    var next := Header(h.meta[key := []], Some(key));
    KeyLineReads(h, key, "", "");
    assert key + ":" == key + ":" + "";
    ReadLinesCons(h, key + ":", Dashed(items));
    DashedLinesExtend(h.meta, key, [], items);
    assert [] + items == items;
    assert next.meta[key := items] == h.meta[key := items];
  }

  /** All three forms leave the same thing behind: the entry's key, bound to the entry's items. */
  lemma EntryReadsBack(h: Header, e: Entry)
    requires GoodEntry(e)
    ensures ReadLines(h, EntryLines(e)) == Header(h.meta[e.key := e.items], Some(e.key))
  {
    match e.form
    case Scalar =>
      ScalarReadsBack(h, e.key, e.items[0]);
      assert e.items == [e.items[0]];
      ReadOneLine(h, EntryLines(e)[0]);
    case Inline =>
      InlineReadsBack(h, e.key, e.items, Join(e.items, ", "));
      ReadOneLine(h, EntryLines(e)[0]);
    case Block =>
      BlockReadsBack(h, e.key, e.items);
  }

  lemma {:induction false} HeaderReadsBack(es: seq<Entry>)
    requires GoodEntries(es)
    ensures ReadLines(Header(map[], None), Lines(es)).meta == MetaOf(es)
    decreases |es|
  {
    if es != [] {
      var init, last := es[..|es| - 1], es[|es| - 1];
      HeaderReadsBack(init);
      ReadLinesAppend(Header(map[], None), Lines(init), EntryLines(last));
      EntryReadsBack(ReadLines(Header(map[], None), Lines(init)), last);
    }
  }

  // ---- Lines and fences in the printed text -----------------------------------------------------------------

  predicate LineBreak(nl: string) {
    nl == "\n" || nl == "\r\n"
  }

  predicate NoBreaks(s: string) {
    '\n' !in s && '\r' !in s
  }

  /** A line with no break in it that cannot be taken for a fence. */
  predicate PlainLine(l: string) {
    NoBreaks(l) && l != "" && (l[0] != '-' || (|l| >= 2 && l[1] != '-'))
  }

  predicate PlainLines(lines: seq<string>) {
    forall i :: 0 <= i < |lines| ==> PlainLine(lines[i])
  }

  lemma DotIsNoBreak(s: string)
    requires AllDot(s)
    ensures NoBreaks(s)
  {
  }

  lemma KeyIsNoBreak(key: string)
    requires GoodKey(key)
    ensures NoBreaks(key) && key[0] != '-'
  {
  }

  lemma {:induction false} DashedArePlain(items: seq<string>)
    requires forall i :: 0 <= i < |items| ==> GoodItem(items[i])
    ensures PlainLines(Dashed(items))
    decreases |items|
  {
    if items != [] {
      DotIsNoBreak(items[0]);
      var l := "- " + items[0];
      assert l[1] == ' ';
      DashedArePlain(items[1..]);
    }
  }

  lemma EntryLinesArePlain(e: Entry)
    requires GoodEntry(e)
    ensures PlainLines(EntryLines(e))
  {
    KeyIsNoBreak(e.key);
    match e.form
    case Scalar =>
      DotIsNoBreak(e.items[0]);
      assert (e.key + ": " + e.items[0])[0] == e.key[0];
    case Inline =>
      JoinedIsDot(e.items);
      DotIsNoBreak(Join(e.items, ", "));
      assert (e.key + ": [" + Join(e.items, ", ") + "]")[0] == e.key[0];
    case Block =>
      DashedArePlain(e.items);
      assert (e.key + ":")[0] == e.key[0];
  }

  lemma {:induction false} LinesArePlain(es: seq<Entry>)
    requires GoodEntries(es)
    ensures PlainLines(Lines(es))
    ensures es != [] ==> Lines(es) != []
    decreases |es|
  {
    if es != [] {
      EntryLinesArePlain(es[|es| - 1]);
      LinesArePlain(es[..|es| - 1]);
    }
  }

  lemma DropCrsCons(part: string, parts: seq<string>)
    requires parts != []
    ensures DropCrs([part] + parts) == [DropCr(part)] + DropCrs(parts)
  {
    assert ([part] + parts)[1..] == parts;
  }

  /** One line and its break come off the front of a text, in either convention. */
  lemma LineComesOff(l: string, nl: string, rest: string)
    requires NoBreaks(l) && LineBreak(nl)
    ensures SplitLines(l + nl + rest) == [l] + SplitLines(rest)
  {
    if nl == "\n" {
      assert l + nl + rest == l + ['\n'] + rest;
      SplitAtSeparator(l, '\n', rest);
      DropCrsCons(l, Split(rest, '\n'));
    } else {
      var part := l + "\r";
      assert l + nl + rest == part + ['\n'] + rest;
      SplitAtSeparator(part, '\n', rest);
      DropCrsCons(part, Split(rest, '\n'));
      assert DropCr(part) == l;
    }
  }

  lemma {:induction false} LinesComeBack(lines: seq<string>, nl: string)
    requires PlainLines(lines) && lines != [] && LineBreak(nl)
    ensures SplitLines(Join(lines, nl)) == lines
    decreases |lines|
  {
    if |lines| == 1 {
      SplitFree(lines[0], '\n');
    } else {
      LinesComeBack(lines[1..], nl);
      LineComesOff(lines[0], nl, Join(lines[1..], nl));
      assert lines == [lines[0]] + lines[1..];
    }
  }

  function Shift(r: Option<(nat, string)>, offset: nat): Option<(nat, string)> {
    if r.Some? then Some((r.value.0 + offset, r.value.1)) else None
  }

  lemma {:induction false} NoFenceInsideLine(a: string, s: string)
    requires NoBreaks(a)
    ensures FindFence(a + s) == Shift(FindFence(s), |a|)
    decreases |a|
  {
    if a == "" {
      assert a + s == s;
    } else {
      assert (a + s)[1..] == a[1..] + s;
      assert (a + s)[0] == a[0];
      NoFenceInsideLine(a[1..], s);
    }
  }

  /** A break followed by a plain line is no fence. */
  lemma PlainLineIsNoFence(t: string)
    requires t != "" && (t[0] != '-' || (|t| >= 2 && t[1] != '-'))
    ensures AfterFence(['\n'] + t).None? && AfterFence(['\r'] + (['\n'] + t)).None?
  {
    var u := ['\n'] + t;
    var v := ['\r'] + u;
    assert u[0] == '\n' && u[1] == t[0] && (|t| >= 2 ==> u[2] == t[1]);
    assert v[0] == '\r' && v[2] == u[1] && (|t| >= 2 ==> v[3] == u[2]);
  }

  lemma FenceSearchMovesOn(c: char, s: string)
    requires AfterFence([c] + s).None?
    ensures FindFence([c] + s) == Shift(FindFence(s), 1)
  {
    assert ([c] + s)[1..] == s;
  }

  lemma TwoCharactersPassed(c: char, d: char, s: string)
    requires AfterFence([c] + ([d] + s)).None? && AfterFence([d] + s).None?
    ensures FindFence([c] + ([d] + s)) == Shift(FindFence(s), 2)
  {
    FenceSearchMovesOn(d, s);
    FenceSearchMovesOn(c, [d] + s);
  }

  lemma CrlfRegroups(t: string)
    ensures "\r\n" + t == ['\r'] + (['\n'] + t)
  {
  }

  lemma NoFenceBeforePlainLine(nl: string, t: string)
    requires LineBreak(nl) && t != "" && (t[0] != '-' || (|t| >= 2 && t[1] != '-'))
    ensures FindFence(nl + t) == Shift(FindFence(t), |nl|)
  {
    PlainLineIsNoFence(t);
    if nl == "\r\n" {
      CrlfRegroups(t);
      TwoCharactersPassed('\r', '\n', t);
    } else {
      FenceSearchMovesOn('\n', t);
    }
  }

  lemma FenceMatchesHere(nl: string, rest: string)
    requires LineBreak(nl)
    ensures AfterFence(nl + "---" + rest) == Some(rest)
    ensures FindFence(nl + "---" + rest) == Some((0, rest))
  {
    var s := nl + "---" + rest;
    if nl == "\n" {
      assert s[0] == '\n' && s[..4] == "\n---" && s[4..] == rest;
    } else {
      assert s[..5] == "\r\n---" && s[5..] == rest;
    }
  }

  predicate StartsLike(t: string, m: string)
    requires m != ""
  {
    t != "" && t[0] == m[0] && (|m| >= 2 ==> |t| >= 2 && t[1] == m[1])
  }

  lemma StartStaysPlain(m: string, tail: string, close: string)
    requires PlainLine(m) && StartsLike(tail, m)
    ensures var t := tail + close; t != "" && (t[0] != '-' || (|t| >= 2 && t[1] != '-'))
  {
    var t := tail + close;
    assert t[0] == tail[0];
    assert |m| >= 2 ==> t[1] == tail[1];
  }

  /** Putting one more line in front of a text that starts with a plain line moves its fence by that line. */
  lemma FenceBehindOneMoreLine(l: string, nl: string, t: string, k: nat, rest: string)
    requires NoBreaks(l) && LineBreak(nl) && t != "" && (t[0] != '-' || (|t| >= 2 && t[1] != '-'))
    requires FindFence(t) == Some((k, rest))
    ensures FindFence(l + (nl + t)) == Some((|l| + |nl| + k, rest))
  {
    NoFenceBeforePlainLine(nl, t);
    var u := nl + t;
    assert FindFence(u) == Some((|nl| + k, rest));
    NoFenceInsideLine(l, u);
  }

  lemma Regroup(l: string, nl: string, tail: string, close: string)
    ensures (l + nl + tail) + close == l + (nl + (tail + close))
  {
  }

  /** The lazy group stops at the closing fence and nowhere earlier, whatever follows it. */
  lemma {:induction false} HeaderEndsAtFence(lines: seq<string>, nl: string, rest: string, header: string)
    requires PlainLines(lines) && lines != [] && LineBreak(nl) && header == Join(lines, nl)
    ensures FindFence(header + (nl + "---" + rest)) == Some((|header|, rest))
    decreases |lines|
  {
    var close := nl + "---" + rest;
    if |lines| == 1 {
      FenceMatchesHere(nl, rest);
      NoFenceInsideLine(lines[0], close);
    } else {
      var tail := Join(lines[1..], nl);
      HeaderEndsAtFence(lines[1..], nl, rest, tail);
      JoinStartsLikeLine(lines[1..], nl);
      StartStaysPlain(lines[1], tail, close);
      FenceBehindOneMoreLine(lines[0], nl, tail + close, |tail|, rest);
      Regroup(lines[0], nl, tail, close);
    }
  }

  lemma JoinStartsLikeLine(lines: seq<string>, nl: string)
    requires lines != [] && lines[0] != ""
    ensures StartsLike(Join(lines, nl), lines[0])
  {
  }

  lemma BodyComesBack(nl: string, body: string)
    requires LineBreak(nl)
    ensures DropLineEnd(nl + body) == body
  {
    var s := nl + body;
    if nl == "\n" {
      assert s[..1] == "\n" && s[1..] == body;
    } else {
      assert s[..1] == "\r" && s[1..] == "\n" + body;
      assert s[1..][..1] == "\n" && s[1..][1..] == body;
    }
  }

  lemma PrintedCardSplits(es: seq<Entry>, nl: string, body: string)
    requires GoodEntries(es) && es != [] && LineBreak(nl)
    ensures SplitCard(Print(es, nl, body)) == Some((Join(Lines(es), nl), body))
  {
    var header := Join(Lines(es), nl);
    var rest := header + (nl + "---" + (nl + body));
    var md := Print(es, nl, body);
    assert md == "---" + nl + rest;
    OpeningMatches(nl, rest);
    LinesArePlain(es);
    HeaderEndsAtFence(Lines(es), nl, nl + body, header);
    assert rest[..|header|] == header && rest[|header|..] == nl + "---" + (nl + body);
    FenceMatchesHere(nl, nl + body);
    BodyComesBack(nl, body);
  }

  lemma OpeningMatches(nl: string, rest: string)
    requires LineBreak(nl)
    ensures AfterOpening("---" + nl + rest) == Some(rest)
  {
    var md := "---" + nl + rest;
    if nl == "\n" {
      assert md[3] == '\n' && md[..4] == "---\n" && md[4..] == rest;
    } else {
      assert md[..5] == "---\r\n" && md[5..] == rest;
    }
  }

  // ---- The round trip ---------------------------------------------------------------------------------------

  /** Reading a printed card gives back its map and its trimmed body, whatever the body holds. */
  lemma RoundTrip(es: seq<Entry>, nl: string, body: string)
    requires GoodEntries(es) && es != [] && LineBreak(nl)
    ensures Parse(Print(es, nl, body)) == Card(MetaOf(es), Trim(body))
  {
    PrintedCardSplits(es, nl, body);
    LinesArePlain(es);
    LinesComeBack(Lines(es), nl);
    HeaderReadsBack(es);
  }

  /** With distinct keys that map binds exactly the keys printed, each to its own items. */
  lemma {:induction false} MetaBindsEveryEntry(es: seq<Entry>)
    requires DistinctKeys(es)
    ensures forall i :: 0 <= i < |es| ==> es[i].key in MetaOf(es) && MetaOf(es)[es[i].key] == es[i].items
    ensures forall key :: key in MetaOf(es) ==> exists i :: 0 <= i < |es| && es[i].key == key
    decreases |es|
  {
    if es != [] {
      var init, last := es[..|es| - 1], es[|es| - 1];
      MetaBindsEveryEntry(init);
      assert forall i :: 0 <= i < |init| ==> init[i] == es[i];
      forall key | key in MetaOf(es) ensures exists i :: 0 <= i < |es| && es[i].key == key {
        if key != last.key {
          var i :| 0 <= i < |init| && init[i].key == key;
          assert es[i].key == key;
        }
      }
    }
  }

  /** The form an entry is written in, and the line ending, do not show in what is read. */
  lemma FormsAgree(es: seq<Entry>, fs: seq<Entry>, nl: string, ml: string, body: string)
    requires GoodEntries(es) && GoodEntries(fs) && es != [] && |es| == |fs| && LineBreak(nl) && LineBreak(ml)
    requires forall i :: 0 <= i < |es| ==> es[i].key == fs[i].key && es[i].items == fs[i].items
    ensures Parse(Print(es, nl, body)) == Parse(Print(fs, ml, body))
  {
    RoundTrip(es, nl, body);
    RoundTrip(fs, ml, body);
    SameMeta(es, fs);
  }

  lemma {:induction false} SameMeta(es: seq<Entry>, fs: seq<Entry>)
    requires |es| == |fs|
    requires forall i :: 0 <= i < |es| ==> es[i].key == fs[i].key && es[i].items == fs[i].items
    ensures MetaOf(es) == MetaOf(fs)
    decreases |es|
  {
    if es != [] {
      SameMeta(es[..|es| - 1], fs[..|fs| - 1]);
    }
  }
}
