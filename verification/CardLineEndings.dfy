/** Rewriting a card's line feeds as CRLF pairs changes nothing in what it means, for every card without a CR. */
module CardLineEndings {
  import opened Basics
  import opened Text
  import opened CardLoader
  import opened CardRoundTrip

  function ToCrlf(s: string): string {
    if s == "" then ""
    else CrlfChar(s[0]) + ToCrlf(s[1..])
  }

  function CrlfChar(c: char): string {
    if c == '\n' then "\r\n" else [c]
  }

  predicate NoCr(s: string) {
    '\r' !in s
  }

  lemma {:induction false} ToCrlfAppend(a: string, b: string)
    ensures ToCrlf(a + b) == ToCrlf(a) + ToCrlf(b)
    decreases |a|
  {
    if a == "" {
      assert a + b == b;
    } else {
      var c, tail := CrlfChar(a[0]), a[1..];
      ToCrlfAppend(tail, b);
      assert (a + b)[1..] == tail + b && (a + b)[0] == a[0];
      assert c + (ToCrlf(tail) + ToCrlf(b)) == (c + ToCrlf(tail)) + ToCrlf(b);
    }
  }

  lemma {:induction false} ToCrlfKeepsLine(a: string)
    requires '\n' !in a
    ensures ToCrlf(a) == a
    decreases |a|
  {
    if a != "" {
      ToCrlfKeepsLine(a[1..]);
      assert a == [a[0]] + a[1..];
    }
  }

  lemma ToCrlfBreak(a: string, b: string)
    requires '\n' !in a
    ensures ToCrlf(a + ['\n'] + b) == a + "\r\n" + ToCrlf(b)
  {
    assert a + ['\n'] + b == a + (['\n'] + b);
    ToCrlfAppend(a, ['\n'] + b);
    ToCrlfKeepsLine(a);
    assert (['\n'] + b)[1..] == b;
  }

  /** A prefix without breaks is there after the rewriting exactly when it was there before. */
  lemma {:induction false} PrefixSurvives(t: string, p: string)
    requires NoBreaks(p)
    ensures StartsWith(ToCrlf(t), p) <==> StartsWith(t, p)
    ensures StartsWith(t, p) ==> ToCrlf(t)[|p|..] == ToCrlf(t[|p|..])
    decreases |p|
  {
    var u := ToCrlf(t);
    if p != "" && t != "" {
      HeadAndTail(t, p);
      HeadAndTail(u, p);
      if t[0] == p[0] {
        PrefixSurvives(t[1..], p[1..]);
        assert u[1..] == ToCrlf(t[1..]);
        if StartsWith(t, p) {
          assert t[1..][|p| - 1..] == t[|p|..] && u[1..][|p| - 1..] == u[|p|..];
        }
      } else {
        assert u[0] == t[0] || u[0] == '\r';
      }
    }
  }

  lemma HeadAndTail(t: string, p: string)
    requires p != ""
    ensures StartsWith(t, p) <==> t != "" && t[0] == p[0] && StartsWith(t[1..], p[1..])
  {
    if t != "" && t[0] == p[0] && StartsWith(t[1..], p[1..]) {
      assert t[..|p|] == [t[0]] + t[1..][..|p| - 1];
      assert p == [p[0]] + p[1..];
    }
    if StartsWith(t, p) {
      assert t[0] == t[..|p|][0];
      assert t[1..][..|p| - 1] == t[..|p|][1..];
    }
  }

  function Rewritten(r: Option<string>): Option<string> {
    if r.Some? then Some(ToCrlf(r.value)) else None
  }

  lemma BreakThenDashes(t: string)
    ensures AfterFence("\r\n" + t) == if StartsWith(t, "---") then Some(t[3..]) else None
    ensures AfterFence("\n" + t) == if StartsWith(t, "---") then Some(t[3..]) else None
  {
    var u, v := "\r\n" + t, "\n" + t;
    HeadAndTail(u, "\r\n---");
    HeadAndTail(u[1..], "\n---");
    HeadAndTail(v, "\n---");
    assert u[1..] == v && v[1..] == t;
    assert "\r\n---"[1..] == "\n---" && "\n---"[1..] == "---";
    if StartsWith(t, "---") {
      assert u[5..] == t[3..] && v[4..] == t[3..];
    }
    HeadAndTail(u, "\n---");
  }

  lemma NoBreakNoFence(s: string)
    requires s == "" || (s[0] != '\n' && s[0] != '\r')
    ensures AfterFence(s).None?
  {
    HeadAndTail(s, "\r\n---");
    HeadAndTail(s, "\n---");
  }

  /** A fence matches at a position of the rewritten text exactly where it matched before. */
  lemma FenceSurvives(s: string)
    requires NoCr(s)
    ensures AfterFence(ToCrlf(s)) == Rewritten(AfterFence(s))
  {
    if s != "" && s[0] == '\n' {
      var t := s[1..];
      assert s == "\n" + t;
      BreakThenDashes(t);
      BreakThenDashes(ToCrlf(t));
      PrefixSurvives(t, "---");
    } else {
      NoBreakNoFence(s);
      NoBreakNoFence(ToCrlf(s));
    }
  }

  lemma CrlfIsPassed(u: string)
    requires !StartsWith(u, "---")
    ensures FindFence("\r\n" + u) == Shift(FindFence(u), 2)
  {
    BreakThenDashes(u);
    assert ['\n'] + u == "\n" + u && ['\r'] + (['\n'] + u) == "\r\n" + u;
    TwoCharactersPassed('\r', '\n', u);
  }

  lemma BreakIsPassed(s: string, t: string)
    requires s == "\n" + t && AfterFence(s).None?
    ensures FindFence(ToCrlf(s)) == Shift(FindFence(ToCrlf(t)), 2)
  {
    BreakThenDashes(t);
    PrefixSurvives(t, "---");
    assert s[1..] == t && s[0] == '\n';
    CrlfIsPassed(ToCrlf(t));
  }

  lemma {:induction false} FenceSearchSurvives(s: string)
    requires NoCr(s)
    ensures match FindFence(s)
            case None => FindFence(ToCrlf(s)).None?
            case Some(f) => f.0 <= |s| && FindFence(ToCrlf(s)) == Some((|ToCrlf(s[..f.0])|, ToCrlf(f.1)))
    decreases |s|
  {
    FenceSurvives(s);
    if AfterFence(s).None? && s != "" {
      var t := s[1..];
      FenceSearchSurvives(t);
      var found := FindFence(t);
      if s[0] == '\n' {
        BreakIsPassed(s, t);
      } else {
        FenceSearchMovesOn(s[0], ToCrlf(t));
      }
      if found.Some? {
        assert s[..found.value.0 + 1][1..] == t[..found.value.0];
      }
    } else if AfterFence(s).Some? {
      assert ToCrlf(s[..0]) == "";
    }
  }

  lemma {:induction false} LinesSurvive(h: string)
    requires NoCr(h)
    ensures SplitLines(ToCrlf(h)) == SplitLines(h)
    decreases |h|
  {
    if '\n' in h {
      var i := FirstBreak(h);
      var a, b := h[..i], h[i + 1..];
      assert h == a + ['\n'] + b;
      LineComesOff(a, "\n", b);
      assert a + "\n" + b == h;
      ToCrlfBreak(a, b);
      LineComesOff(a, "\r\n", ToCrlf(b));
      LinesSurvive(b);
    } else {
      ToCrlfKeepsLine(h);
    }
  }

  function FirstBreak(h: string): (i: nat)
    requires '\n' in h
    ensures i < |h| && h[i] == '\n' && '\n' !in h[..i]
  {
    if h[0] == '\n' then 0 else
      assert h == [h[0]] + h[1..];
      var i := FirstBreak(h[1..]);
      assert h[..i + 1] == [h[0]] + h[1..][..i];
      i + 1
  }

  lemma {:induction false} TrimStartSurvives(x: string)
    requires NoCr(x)
    ensures TrimStart(ToCrlf(x)) == ToCrlf(TrimStart(x))
    decreases |x|
  {
    if x != "" {
      TrimStartSurvives(x[1..]);
      if x[0] == '\n' {
        var t := ToCrlf(x);
        assert t[1..][1..] == ToCrlf(x[1..]);
        assert t[1..][0] == '\n';
        assert TrimStart(t) == TrimStart(t[1..]) == TrimStart(t[1..][1..]);
      } else {
        assert ToCrlf(x)[1..] == ToCrlf(x[1..]);
      }
    }
  }

  lemma TrimEndOfSnoc(y: string, c: char)
    ensures TrimEnd(y + [c]) == if IsSpace(c) then TrimEnd(y) else y + [c]
  {
    var t := y + [c];
    assert t[..|t| - 1] == y;
  }

  lemma ToCrlfSnoc(y: string, c: char)
    ensures ToCrlf(y + [c]) == ToCrlf(y) + CrlfChar(c)
  {
    ToCrlfAppend(y, [c]);
    assert ToCrlf([c]) == CrlfChar(c) + "" == CrlfChar(c);
  }

  lemma TrimEndOfBreak(y: string)
    ensures TrimEnd(y + "\r\n") == TrimEnd(y)
  {
    TrimEndOfSnoc(y, '\r');
    TrimEndOfSnoc(y + ['\r'], '\n');
    assert y + "\r\n" == y + ['\r'] + ['\n'];
  }

  lemma {:induction false} TrimEndSurvives(x: string)
    requires NoCr(x)
    ensures TrimEnd(ToCrlf(x)) == ToCrlf(TrimEnd(x))
    decreases |x|
  {
    if x != "" {
      var init, last := x[..|x| - 1], x[|x| - 1];
      TrimEndSurvives(init);
      assert x == init + [last];
      ToCrlfSnoc(init, last);
      TrimEndOfSnoc(init, last);
      if last == '\n' {
        TrimEndOfBreak(ToCrlf(init));
      } else {
        TrimEndOfSnoc(ToCrlf(init), last);
      }
    }
  }

  lemma TrimSurvives(x: string)
    requires NoCr(x)
    ensures Trim(ToCrlf(x)) == ToCrlf(Trim(x))
  {
    TrimStartSurvives(x);
    TrimStartShape(x);
    TrimEndSurvives(TrimStart(x));
  }

  lemma OpeningSurvives(md: string)
    requires NoCr(md)
    ensures AfterOpening(ToCrlf(md)) == Rewritten(AfterOpening(md))
  {
    PrefixSurvives(md, "---");
    if StartsWith(md, "---") {
      var t := md[3..];
      assert ToCrlf(md)[3..] == ToCrlf(t);
      DashesThenBreak(md);
      DashesThenBreak(ToCrlf(md));
      if t != "" && t[0] == '\n' {
        assert ToCrlf(t)[..2] == "\r\n" && ToCrlf(t)[2..] == ToCrlf(t[1..]);
      }
    } else {
      NoDashesNoOpening(md);
      NoDashesNoOpening(ToCrlf(md));
    }
  }

  lemma DashesThenBreak(md: string)
    requires StartsWith(md, "---")
    ensures var t := md[3..];
            AfterOpening(md) == if |t| >= 2 && t[0] == '\r' && t[1] == '\n' then Some(t[2..])
                                else if t != "" && t[0] == '\n' then Some(t[1..])
                                else None
  {
    var t := md[3..];
    assert md == "---" + t;
  }

  lemma NoDashesNoOpening(md: string)
    requires !StartsWith(md, "---")
    ensures AfterOpening(md).None?
  {
    assert |md| >= 5 ==> md[..5][..3] == md[..3];
    assert |md| >= 4 ==> md[..4][..3] == md[..3];
  }

  lemma BodySurvives(x: string)
    requires NoCr(x)
    ensures DropLineEnd(ToCrlf(x)) == ToCrlf(DropLineEnd(x))
  {
    if x != "" && x[0] == '\n' {
      var t := ToCrlf(x[1..]);
      BodyComesBack("\r\n", t);
      assert x == "\n" + x[1..];
      BodyComesBack("\n", x[1..]);
    } else {
      HeadAndTail(x, "\r");
      HeadAndTail(x, "\n");
      HeadAndTail(ToCrlf(x), "\r");
      HeadAndTail(ToCrlf(x), "\n");
    }
  }

  lemma PrefixRewrites(s: string, i: nat)
    requires i <= |s|
    ensures var n := |ToCrlf(s[..i])|; n <= |ToCrlf(s)| && ToCrlf(s)[..n] == ToCrlf(s[..i])
  {
    assert s == s[..i] + s[i..];
    ToCrlfAppend(s[..i], s[i..]);
  }

  /** The card is cut in the same places. */
  lemma SplitSurvives(md: string)
    requires NoCr(md)
    ensures match SplitCard(md)
            case None => SplitCard(ToCrlf(md)).None?
            case Some(g) => SplitCard(ToCrlf(md)) == Some((ToCrlf(g.0), ToCrlf(g.1))) && NoCr(g.0) && NoCr(g.1)
  {
    OpeningSurvives(md);
    if AfterOpening(md).Some? {
      var rest := AfterOpening(md).value;
      RestHasNoCr(md);
      FenceSearchSurvives(rest);
      if FindFence(rest).Some? {
        var (i, tail) := FindFence(rest).value;
        PrefixRewrites(rest, i);
        FenceTailHasNoCr(rest);
        BodySurvives(tail);
        DropLineEndShape(tail);
      }
    }
  }

  /** The same map, and the same body up to the same rewriting. */
  lemma CrlfReadsTheSame(md: string)
    requires NoCr(md)
    ensures Parse(ToCrlf(md)) == Card(Parse(md).meta, ToCrlf(Parse(md).body))
  {
    SplitSurvives(md);
    match SplitCard(md) {
      case None => TrimSurvives(md);
      case Some(g) =>
        LinesSurvive(g.0);
        TrimSurvives(g.1);
    }
  }

  lemma RestHasNoCr(md: string)
    requires NoCr(md) && AfterOpening(md).Some?
    ensures NoCr(AfterOpening(md).value)
  {
  }

  lemma {:induction false} FenceTailHasNoCr(s: string)
    requires NoCr(s) && FindFence(s).Some?
    ensures NoCr(FindFence(s).value.1)
    decreases |s|
  {
    if AfterFence(s).None? && s != "" {
      FenceTailHasNoCr(s[1..]);
    }
  }

  lemma DropLineEndShape(x: string)
    requires NoCr(x)
    ensures NoCr(DropLineEnd(x))
  {
  }
}
