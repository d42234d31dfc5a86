/**
 * What the card parser's patterns match, piece by piece: each result says which strings match and what the groups are,
 * for lines and texts of any form.
 */
module CardPatterns {
  import opened Basics
  import opened CardLoader
  import opened Text

  predicate Blank(s: string) {
    forall i :: 0 <= i < |s| ==> IsSpace(s[i])
  }

  predicate OneLine(s: string) {
    '\n' !in s && '\r' !in s && '\U{2028}' !in s && '\U{2029}' !in s
  }

  // ---- Trimming ---------------------------------------------------------------------------------------------

  lemma {:induction false} LeadComesOff(lead: string, s: string)
    requires Blank(lead) && (s == "" || !IsSpace(s[0]))
    ensures TrimStart(lead + s) == s
  {
    if lead == "" {
      assert lead + s == s;
    } else {
      assert (lead + s)[1..] == lead[1..] + s;
      LeadComesOff(lead[1..], s);
    }
  }

  lemma LeadOf(s: string) returns (lead: string)
    ensures s == lead + TrimStart(s) && Blank(lead) && (TrimStart(s) == "" || !IsSpace(TrimStart(s)[0]))
  {
    TrimStartShape(s);
    lead := s[..|s| - |TrimStart(s)|];
  }

  lemma {:induction false} TailComesOff(s: string, tail: string)
    requires Blank(tail) && (s == "" || !IsSpace(s[|s| - 1]))
    ensures TrimEnd(s + tail) == s
  {
    if tail == "" {
      assert s + tail == s;
    } else {
      assert (s + tail)[..|s + tail| - 1] == s + tail[..|tail| - 1];
      TailComesOff(s, tail[..|tail| - 1]);
    }
  }

  /** Trimming takes away the blanks around a text and nothing of the text. */
  lemma TrimIff(s: string, t: string)
    ensures Trim(s) == t <==> Trimmed(t) && exists lead, tail :: Surrounds(s, lead, t, tail)
  {
    TrimIsTrimmed(s);
    TrimStartShape(s);
    TrimEndShape(TrimStart(s));
    var a, r := TrimStart(s), Trim(s);
    assert Surrounds(s, s[..|s| - |a|], r, a[|r|..]);
    if Trimmed(t) {
      if lead, tail :| Surrounds(s, lead, t, tail) {
        SurroundingComesOff(s, lead, t, tail);
      }
    }
  }

  lemma SurroundingComesOff(s: string, lead: string, t: string, tail: string)
    requires Surrounds(s, lead, t, tail) && Trimmed(t)
    ensures Trim(s) == t
  {
    if t == "" {
      assert Blank(s) && s + "" == s;
      LeadComesOff(s, "");
    } else {
      assert lead + t + tail == lead + (t + tail);
      LeadComesOff(lead, t + tail);
      TailComesOff(t, tail);
    }
  }

  predicate Surrounds(s: string, lead: string, t: string, tail: string) {
    s == lead + t + tail && Blank(lead) && Blank(tail)
  }

  // ---- Key lines --------------------------------------------------------------------------------------------

  /** `key:` at the start of the line, blanks, and a value that runs to the end. */
  predicate KeyLine(line: string, key: string, gap: string, value: string) {
    && line == key + ":" + gap + value
    && key != ""
    && (forall i :: 0 <= i < |key| ==> IsWord(key[i]) || key[i] == '-')
    && Blank(gap) && OneLine(value) && (value == "" || !IsSpace(value[0]))
  }

  /** A line is read as a key and its value exactly when it is made up that way. */
  lemma KeyLineIff(line: string, key: string, value: string)
    ensures MatchKey(line) == Some((key, value)) <==> exists gap :: KeyLine(line, key, gap, value)
  {
    if MatchKey(line) == Some((key, value)) {
      MatchIsKeyLine(line, key, value);
    }
    if gap :| KeyLine(line, key, gap, value) {
      KeyLineMatches(line, key, gap, value);
    }
  }

  lemma MatchIsKeyLine(line: string, key: string, value: string)
    requires MatchKey(line) == Some((key, value))
    ensures exists gap :: KeyLine(line, key, gap, value)
  {
    KeyLengthShape(line);
    var gap := LeadOf(line[|key| + 1..]);
    assert line == key + ":" + gap + value;
    assert KeyLine(line, key, gap, value);
  }

  lemma KeyLineMatches(line: string, key: string, gap: string, value: string)
    requires KeyLine(line, key, gap, value)
    ensures MatchKey(line) == Some((key, value))
  {
    var tail := gap + value;
    assert line == key + (":" + tail);
    assert line[|key|] == ':' && line[..|key|] == key && line[|key| + 1..] == tail;
    KeyLengthIs(key, ":" + tail);
    LeadComesOff(gap, value);
  }

  lemma {:induction false} KeyLengthShape(line: string)
    ensures forall i :: 0 <= i < KeyLength(line) ==> IsKeyChar(line[i])
  {
    if line != "" && IsKeyChar(line[0]) {
      KeyLengthShape(line[1..]);
    }
  }

  lemma {:induction false} KeyLengthIs(key: string, rest: string)
    requires forall i :: 0 <= i < |key| ==> IsKeyChar(key[i])
    requires rest != "" && !IsKeyChar(rest[0])
    ensures KeyLength(key + rest) == |key|
  {
    if key != "" {
      assert (key + rest)[1..] == key[1..] + rest;
      KeyLengthIs(key[1..], rest);
    }
  }

  // ---- Item lines -------------------------------------------------------------------------------------------

  /** A dash, indented or not, and an item behind it, which is a blank only when nothing else is there. */
  predicate ItemLine(line: string, indent: string, gap: string, item: string) {
    && line == indent + "-" + gap + item
    && Blank(indent) && Blank(gap) && OneLine(item)
    && item != "" && (IsSpace(item[0]) ==> |item| == 1)
  }

  /** A line is read as an item exactly when it is made up that way. */
  lemma ItemLineIff(line: string, item: string)
    ensures MatchItem(line) == Some(item) <==> exists indent, gap :: ItemLine(line, indent, gap, item)
  {
    if MatchItem(line) == Some(item) {
      MatchIsItemLine(line, item);
    }
    if indent, gap :| ItemLine(line, indent, gap, item) {
      ItemMatches(line, indent, gap, item);
    }
  }

  lemma MatchIsItemLine(line: string, item: string)
    requires MatchItem(line) == Some(item)
    ensures exists indent, gap :: ItemLine(line, indent, gap, item)
  {
    var indent := LeadOf(line);
    var b := TrimStart(line)[1..];
    assert TrimStart(line) == "-" + b && TrimStart("-" + b) == "-" + b;
    var gap := ItemBehind(b, item);
    ItemRegroups(indent, gap, item);
    assert TrimStart(line) == "-" + (gap + item);
    assert ItemLine(line, indent, gap, item);
  }

  /** Behind the dash: what is left over by the item is blank. */
  lemma ItemBehind(b: string, item: string) returns (gap: string)
    requires MatchItem("-" + b) == Some(item)
    ensures b == gap + item && Blank(gap) && item != "" && OneLine(item) && (IsSpace(item[0]) ==> |item| == 1)
  {
    assert ("-" + b)[1..] == b;
    gap := LeadOf(b);
    if TrimStart(b) == "" {
      assert gap == b;
      gap := b[..|b| - 1];
    }
  }

  lemma ItemRegroups(indent: string, gap: string, item: string)
    ensures indent + ("-" + (gap + item)) == indent + "-" + gap + item
  {
  }

  lemma ItemMatches(line: string, indent: string, gap: string, item: string)
    requires ItemLine(line, indent, gap, item)
    ensures MatchItem(line) == Some(item)
  {
    var b := gap + item;
    assert line == indent + ("-" + b);
    LeadComesOff(indent, "-" + b);
    assert ("-" + b)[1..] == b && ("-" + b)[..1] == "-";
    if IsSpace(item[0]) {
      assert Blank(b) && b + "" == b;
      LeadComesOff(b, "");
      assert [b[|b| - 1]] == item;
    } else {
      LeadComesOff(gap, item);
    }
  }

  // ---- What a line does -------------------------------------------------------------------------------------

  /** A key line opens its key's list anew, whatever was there. */
  lemma KeyLineOpens(h: Header, line: string, key: string, gap: string, value: string)
    requires KeyLine(line, key, gap, value)
    ensures ReadLine(h, line) == Header(h.meta[key := ItemsOf(Trim(value))], Some(key))
  {
    KeyLineIff(line, key, value);
  }

  /** An item line that is no key line extends the list that is open, and does nothing when none is. */
  lemma ItemLineExtends(h: Header, line: string, indent: string, gap: string, item: string)
    requires ItemLine(line, indent, gap, item) && h.current.Some? ==> h.current.value in h.meta
    requires ItemLine(line, indent, gap, item) && !exists key, g, value :: KeyLine(line, key, g, value)
    ensures ReadLine(h, line) ==
              match h.current
              case None => h
              case Some(key) => h.(meta := h.meta[key := h.meta[key] + [Trim(item)]])
  {
    ItemLineIff(line, item);
    if MatchKey(line).Some? {
      KeyLineIff(line, MatchKey(line).value.0, MatchKey(line).value.1);
    }
  }

  /** Any other line is skipped. */
  lemma OtherLinesAreSkipped(h: Header, line: string)
    requires !exists key, gap, value :: KeyLine(line, key, gap, value)
    requires !exists indent, gap, item :: ItemLine(line, indent, gap, item)
    ensures ReadLine(h, line) == h
  {
    if MatchKey(line).Some? {
      KeyLineIff(line, MatchKey(line).value.0, MatchKey(line).value.1);
    }
    if MatchItem(line).Some? {
      ItemLineIff(line, MatchItem(line).value);
    }
  }

  // ---- Inline lists -----------------------------------------------------------------------------------------

  /** An inline list is read part by part; a blank part gives no item, and the last character is taken for a bracket. */
  lemma InlinePart(part: string, tail: string, last: char)
    requires ',' !in part
    ensures var first := if Blank(part) then [] else [Trim(part)];
            && ItemsOf("[" + part + [last]) == first
            && ItemsOf("[" + (part + [','] + tail) + [last]) == first + ItemsOf("[" + tail + "]")
  {
    BlankIff(part);
    SplitFree(part, ',');
    SplitAtSeparator(part, ',', tail);
    InnerOf(part, last);
    InnerOf(tail, ']');
    InnerOf(part + [','] + tail, last);
    var parts := [part] + Split(tail, ',');
    assert parts[1..] == Split(tail, ',');
    assert [part][1..] == [];
  }

  lemma InnerOf(inner: string, last: char)
    ensures ItemsOf("[" + inner + [last]) == TrimAll(Split(inner, ','))
  {
    var v := "[" + inner + [last];
    assert v[1..|v| - 1] == inner && v[..1] == "[";
  }

  lemma BlankIff(s: string)
    ensures Blank(s) <==> Trim(s) == ""
  {
    TrimIff(s, "");
    if Blank(s) {
      assert Surrounds(s, s, "", "");
    }
  }

  // ---- Lines ------------------------------------------------------------------------------------------------

  /** A line ends at the first line feed and leaves out a carriage return before it; the last one keeps its own. */
  lemma LinesAreCut(line: string, rest: string)
    requires '\n' !in line
    ensures SplitLines(line) == [line]
    ensures line == "" || line[|line| - 1] != '\r' ==> SplitLines(line + "\n" + rest) == [line] + SplitLines(rest)
    ensures SplitLines(line + "\r\n" + rest) == [line] + SplitLines(rest)
  {
    SplitFree(line, '\n');
    SplitAtSeparator(line, '\n', rest);
    SplitAtSeparator(line + "\r", '\n', rest);
    assert line + "\r\n" + rest == (line + "\r") + ['\n'] + rest;
    assert (line + "\r")[..|line|] == line;
    var parts := Split(rest, '\n');
    assert ([line] + parts)[1..] == parts && ([line + "\r"] + parts)[1..] == parts;
  }

  // ---- The fences -------------------------------------------------------------------------------------------

  /** A closing fence stands at `i`. */
  predicate FenceAt(s: string, i: nat) {
    || (i + 4 <= |s| && s[i..i + 4] == "\n---")
    || (i + 5 <= |s| && s[i..i + 5] == "\r\n---")
  }

  lemma FenceHere(s: string)
    ensures AfterFence(s).Some? <==> FenceAt(s, 0)
    ensures AfterFence(s).Some? ==> AfterFence(s) == Some(s[if s[0] == '\n' then 4 else 5..])
  {
    assert |s| >= 4 ==> (s[..4] == "\n---" <==> s[0] == '\n' && s[1] == '-' && s[2] == '-' && s[3] == '-');
    assert |s| >= 5 ==>
      (s[..5] == "\r\n---" <==> s[0] == '\r' && s[1] == '\n' && s[2] == '-' && s[3] == '-' && s[4] == '-');
  }

  /** What `FindFence` answers: the first closing fence of `s`, with the text behind it. */
  predicate IsFirstFence(s: string, r: Option<(nat, string)>) {
    match r
    case None => forall i: nat | i <= |s| :: !FenceAt(s, i)
    case Some((k, rest)) =>
      && FenceAt(s, k) && (forall i: nat | i < k :: !FenceAt(s, i))
      && rest == s[k + if s[k] == '\n' then 4 else 5..]
  }

  /** The header ends at the first closing fence, and without one there is no header. */
  lemma {:induction false} FirstFenceEndsHeader(s: string)
    ensures IsFirstFence(s, FindFence(s))
  {
    FenceHere(s);
    if AfterFence(s).None? && s != "" {
      FirstFenceEndsHeader(s[1..]);
      LaterFence(s, FindFence(s[1..]));
    }
  }

  lemma LaterFence(s: string, later: Option<(nat, string)>)
    requires s != "" && !FenceAt(s, 0) && IsFirstFence(s[1..], later)
    ensures IsFirstFence(s, if later.Some? then Some((later.value.0 + 1, later.value.1)) else None)
  {
    forall i: nat | 0 < i <= |s| ensures FenceAt(s, i) <==> FenceAt(s[1..], i - 1) {
      FenceMovesOn(s, i);
    }
    if later.Some? {
      var k := later.value.0;
      FenceMovesOn(s, k + 1);
      assert s[1..][k] == s[k + 1];
    }
  }

  lemma FenceMovesOn(s: string, i: nat)
    requires i > 0 && s != ""
    ensures FenceAt(s, i) <==> FenceAt(s[1..], i - 1)
  {
    assert i + 4 <= |s| ==> s[i..i + 4] == s[1..][i - 1..i + 3];
    assert i + 5 <= |s| ==> s[i..i + 5] == s[1..][i - 1..i + 4];
  }

  /** A text that does not open with a fence and a line end is all body. */
  lemma TextWithoutOpening(md: string)
    requires !("---\n" <= md) && !("---\r\n" <= md)
    ensures Parse(md) == Card(map[], Trim(md))
  {
  }

  /** So is one whose fence is never closed. */
  lemma TextWithoutClosing(md: string, nl: string, rest: string)
    requires (nl == "\n" || nl == "\r\n") && md == "---" + nl + rest
    requires forall i: nat | i <= |rest| :: !FenceAt(rest, i)
    ensures Parse(md) == Card(map[], Trim(md))
  {
    assert md[..3 + |nl|] == "---" + nl && md[3 + |nl|..] == rest;
    assert nl == "\n" ==> md[3] == '\n' && "---\r\n"[3] == '\r';
    FirstFenceEndsHeader(rest);
  }
}
