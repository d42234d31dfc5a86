/** The `$name` segment of an account's address, made from a display name. */
module AccountSlug {
  import opened Text

  predicate Alnum(c: char) {
    'a' <= c <= 'z' || '0' <= c <= '9'
  }

  predicate AllAlnum(s: string) {
    forall i :: 0 <= i < |s| ==> Alnum(s[i])
  }

  /**
   * `toLowerCase` on one character, as far as a slug can tell: two characters outside ASCII have lower case forms with
   * an ASCII letter in them, U+212A and U+0130, and every other one stays outside `[a-z0-9]`.
   */
  function Lower(c: char): string {
    if 'A' <= c <= 'Z' then [c + 32 as char]
    else if c == '\U{212A}' then "k"
    else if c == '\U{0130}' then "i\U{0307}"
    else [c]
  }

  function LowerAll(s: string): string {
    if s == "" then "" else Lower(s[0]) + LowerAll(s[1..])
  }

  /** Length of the longest run at the front whose characters are all alphanumeric or all not. */
  function RunLength(s: string): (n: nat)
    requires s != ""
    ensures 1 <= n <= |s|
  {
    if |s| > 1 && Alnum(s[1]) == Alnum(s[0]) then 1 + RunLength(s[1..]) else 1
  }

  lemma {:induction false} RunShape(s: string)
    requires s != ""
    ensures forall i :: 0 <= i < RunLength(s) ==> Alnum(s[i]) == Alnum(s[0])
    ensures RunLength(s) < |s| ==> Alnum(s[RunLength(s)]) != Alnum(s[0])
  {
    if |s| > 1 && Alnum(s[1]) == Alnum(s[0]) {
      RunShape(s[1..]);
    }
  }

  /** `replace(/[^a-z0-9]+/g, "-")` */
  function Collapse(s: string): string {
    if s == "" then ""
    else
      var n := RunLength(s);
      (if Alnum(s[0]) then s[..n] else "-") + Collapse(s[n..])
  }

  function StripLead(s: string): string {
    if s != "" && s[0] == '-' then StripLead(s[1..]) else s
  }

  function StripTrail(s: string): string {
    if s != "" && s[|s| - 1] == '-' then StripTrail(s[..|s| - 1]) else s
  }

  /** `accountSlug`; a missing name is the empty string. */
  function AccountSlug(name: string): string {
    var base := StripTrail(StripLead(Collapse(LowerAll(Trim(name)))));
    if base != "" then base else "me"
  }

  // ---- What a slug is ---------------------------------------------------------------------------------------

  /** The alphanumeric runs of a string, in order. */
  function Words(s: string): seq<string> {
    if s == "" then []
    else
      var n := RunLength(s);
      (if Alnum(s[0]) then [s[..n]] else []) + Words(s[n..])
  }

  predicate IsRun(w: string) {
    w != "" && AllAlnum(w)
  }

  predicate AllWords(ws: seq<string>) {
    forall i :: 0 <= i < |ws| ==> IsRun(ws[i])
  }

  /** One or more alphanumeric runs joined by single hyphens. */
  predicate IsSlug(s: string) {
    AllWords(Split(s, '-'))
  }

  lemma {:induction false} WordsAreWords(s: string)
    ensures AllWords(Words(s))
    decreases |s|
  {
    if s != "" {
      RunShape(s);
      WordsAreWords(s[RunLength(s)..]);
    }
  }

  lemma {:induction false} JoinStartsAndEndsAlnum(ws: seq<string>)
    requires ws != [] && AllWords(ws)
    ensures var j := Join(ws, "-"); j != "" && Alnum(j[0]) && Alnum(j[|j| - 1])
  {
    if |ws| > 1 {
      JoinStartsAndEndsAlnum(ws[1..]);
    }
  }

  /** Hyphens before and after the joined runs: what collapsing leaves of the ends. */
  function Lead(s: string): string {
    if s != "" && !Alnum(s[0]) then "-" else ""
  }

  function Trail(s: string): string {
    if Words(s) != [] && s != "" && !Alnum(s[|s| - 1]) then "-" else ""
  }

  lemma JoinCons(w: string, ws: seq<string>, trail: string)
    requires ws != []
    ensures w + ("-" + Join(ws, "-") + trail) == "" + Join([w] + ws, "-") + trail
  {
    assert ([w] + ws)[1..] == ws;
  }

  /** A run of letters and digits in front of a string that is collapsed already. */
  lemma CollapseWordFirst(s: string, w: string, rest: string)
    requires s == w + rest && IsRun(w) && (rest != "" ==> !Alnum(rest[0]))
    requires RunLength(s) == |w|
    requires Collapse(rest) == Lead(rest) + Join(Words(rest), "-") + Trail(rest)
    ensures Collapse(s) == Lead(s) + Join(Words(s), "-") + Trail(s)
  {
    assert s[..|w|] == w && s[|w|..] == rest;
    assert Words(s) == [w] + Words(rest);
    if rest != "" {
      assert s[|s| - 1] == rest[|rest| - 1];
      if Words(rest) != [] {
        JoinCons(w, Words(rest), Trail(rest));
      } else {
        NoWordsNoAlnum(rest);
      }
    }
  }

  lemma {:induction false} NoWordsNoAlnum(s: string)
    requires Words(s) == []
    ensures forall i :: 0 <= i < |s| ==> !Alnum(s[i])
    decreases |s|
  {
    if s != "" {
      RunShape(s);
      NoWordsNoAlnum(s[RunLength(s)..]);
    }
  }

  lemma GapUnfolds(s: string)
    requires s != "" && !Alnum(s[0])
    ensures Collapse(s) == "-" + Collapse(s[RunLength(s)..])
    ensures Words(s) == Words(s[RunLength(s)..])
  {
  }

  lemma HyphenInFront(j: string, trail: string)
    ensures "-" + ("" + j + trail) == "-" + j + trail
  {
  }

  /** A gap in front of a string that is collapsed already. */
  lemma CollapseGapFirst(s: string, rest: string)
    requires s != "" && !Alnum(s[0]) && rest == s[RunLength(s)..]
    requires Collapse(rest) == Lead(rest) + Join(Words(rest), "-") + Trail(rest)
    ensures Collapse(s) == Lead(s) + Join(Words(s), "-") + Trail(s)
  {
    RunShape(s);
    GapUnfolds(s);
    HyphenInFront(Join(Words(rest), "-"), Trail(rest));
    assert Lead(rest) == "";
    assert Trail(s) == Trail(rest) by {
      if rest != "" {
        assert s[|s| - 1] == rest[|rest| - 1];
      }
    }
  }

  lemma {:induction false} CollapseIsJoinedWords(s: string)
    ensures Collapse(s) == Lead(s) + Join(Words(s), "-") + Trail(s)
    decreases |s|
  {
    if s != "" {
      var n := RunLength(s);
      RunShape(s);
      CollapseIsJoinedWords(s[n..]);
      if Alnum(s[0]) {
        CollapseWordFirst(s, s[..n], s[n..]);
      } else {
        CollapseGapFirst(s, s[n..]);
      }
    }
  }

  lemma StripLeaves(j: string, lead: string, trail: string)
    requires lead == "" || lead == "-"
    requires trail == "" || (trail == "-" && j != "")
    requires j != "" ==> j[0] != '-' && j[|j| - 1] != '-'
    ensures StripTrail(StripLead(lead + j + trail)) == j
  {
    var s := j + trail;
    assert lead == "-" ==> (lead + j + trail)[1..] == s;
    assert lead == "" ==> lead + j + trail == s;
    assert StripLead(s) == s;
    assert trail == "-" ==> s[..|s| - 1] == j;
    assert StripTrail(j) == j;
  }

  // ---- Trimming first changes nothing -----------------------------------------------------------------------

  lemma {:induction false} LowerAllJoins(a: string, b: string)
    ensures LowerAll(a + b) == LowerAll(a) + LowerAll(b)
  {
    if a == "" {
      assert a + b == b;
    } else {
      assert (a + b)[1..] == a[1..] + b;
      LowerAllJoins(a[1..], b);
    }
  }

  lemma WordsSkipLead(c: char, s: string)
    requires !Alnum(c)
    ensures Words([c] + s) == Words(s)
  {
    var t := [c] + s;
    assert t[1..] == s;
    if s != "" && !Alnum(s[0]) {
      assert t[RunLength(t)..] == s[RunLength(s)..];
    }
  }

  lemma {:induction false} RunLengthBefore(s: string, c: char)
    requires s != ""
    ensures RunLength(s + [c]) == if RunLength(s) == |s| && Alnum(c) == Alnum(s[0]) then |s| + 1 else RunLength(s)
  {
    RunShape(s);
    if |s| > 1 {
      assert (s + [c])[1..] == s[1..] + [c];
      RunLengthBefore(s[1..], c);
    } else {
      assert (s + [c])[1..] == [c];
    }
  }

  lemma {:induction false} WordsSkipTrail(s: string, c: char)
    requires !Alnum(c)
    ensures Words(s + [c]) == Words(s)
    decreases |s|
  {
    var t := s + [c];
    if s == "" {
      assert t == [c] + "";
      WordsSkipLead(c, "");
    } else {
      var n := RunLength(s);
      RunLengthBefore(s, c);
      if RunLength(t) == n {
        assert t[..n] == s[..n] && t[n..] == s[n..] + [c];
        WordsSkipTrail(s[n..], c);
      } else {
        assert s[n..] == "" && t[|s| + 1..] == "";
      }
    }
  }

  lemma {:induction false} TrimStartKeepsWords(s: string)
    ensures Words(LowerAll(TrimStart(s))) == Words(LowerAll(s))
  {
    if s != "" && IsSpace(s[0]) {
      TrimStartKeepsWords(s[1..]);
      WordsSkipLead(s[0], LowerAll(s[1..]));
    }
  }

  lemma {:induction false} TrimEndKeepsWords(s: string)
    ensures Words(LowerAll(TrimEnd(s))) == Words(LowerAll(s))
  {
    if s != "" && IsSpace(s[|s| - 1]) {
      var init, last := s[..|s| - 1], s[|s| - 1];
      TrimEndKeepsWords(init);
      LowerAllJoins(init, [last]);
      assert init + [last] == s && LowerAll([last]) == [last];
      WordsSkipTrail(LowerAll(init), last);
    }
  }

  // ---- Main results -----------------------------------------------------------------------------------------

  /** A slug is the alphanumeric runs of the lower-cased name joined by hyphens, or `me` when there are none. */
  lemma SlugJoinsTheWords(name: string)
    ensures var ws := Words(LowerAll(name));
            AccountSlug(name) == if ws == [] then "me" else Join(ws, "-")
  {
    var s := LowerAll(Trim(name));
    var ws := Words(s);
    TrimStartKeepsWords(name);
    TrimEndKeepsWords(TrimStart(name));
    CollapseIsJoinedWords(s);
    WordsAreWords(s);
    if ws != [] {
      JoinStartsAndEndsAlnum(ws);
    }
    StripLeaves(Join(ws, "-"), Lead(s), Trail(s));
  }

  lemma NoHyphenInWords(ws: seq<string>)
    requires AllWords(ws)
    ensures forall w :: w in ws ==> '-' !in w
  {
  }

  /** For every name the result is one or more alphanumeric runs joined by single hyphens, with none at either end. */
  lemma SlugIsSlug(name: string)
    ensures IsSlug(AccountSlug(name))
    ensures var s := AccountSlug(name); s != "" && s[0] != '-' && s[|s| - 1] != '-'
  {
    SlugJoinsTheWords(name);
    var ws := Words(LowerAll(name));
    WordsAreWords(LowerAll(name));
    var parts := if ws == [] then ["me"] else ws;
    NoHyphenInWords(parts);
    SplitJoin(parts, '-');
    JoinStartsAndEndsAlnum(parts);
  }

  lemma {:induction false} LowerAllKeeps(s: string)
    requires forall i :: 0 <= i < |s| ==> s[i] < 128 as char && !('A' <= s[i] <= 'Z')
    ensures LowerAll(s) == s
  {
    if s != "" {
      LowerAllKeeps(s[1..]);
    }
  }

  lemma {:induction false} RunOfWord(w: string, s: string)
    requires IsRun(w) && (s == "" || !Alnum(s[0]))
    ensures RunLength(w + s) == |w|
  {
    var t := w + s;
    if |w| > 1 {
      assert t[1..] == w[1..] + s;
      RunOfWord(w[1..], s);
    }
  }

  lemma {:induction false} WordsOfJoin(ws: seq<string>)
    requires ws != [] && AllWords(ws)
    ensures Words(Join(ws, "-")) == ws
    ensures forall i :: 0 <= i < |Join(ws, "-")| ==> Alnum(Join(ws, "-")[i]) || Join(ws, "-")[i] == '-'
  {
    var w, rest := ws[0], ws[1..];
    if rest == [] {
      RunOfWord(w, "");
      assert w + "" == w && w[..|w|] == w && w[|w|..] == "";
    } else {
      WordsOfJoin(rest);
      var tail := "-" + Join(rest, "-");
      var j := Join(ws, "-");
      assert j == w + tail;
      RunOfWord(w, tail);
      assert j[..|w|] == w && j[|w|..] == tail;
      WordsSkipLead('-', Join(rest, "-"));
    }
  }

  lemma JoinEmptyFirst(r: seq<string>, sep: string)
    requires r != []
    ensures Join([""] + r, sep) == sep + Join(r, sep)
  {
    assert ([""] + r)[1..] == r;
  }

  lemma JoinLongerFirst(c: char, r: seq<string>, sep: string)
    requires r != []
    ensures Join([[c] + r[0]] + r[1..], sep) == [c] + Join(r, sep)
  {
    var longer := [[c] + r[0]] + r[1..];
    assert longer[1..] == r[1..];
  }

  lemma {:induction false} JoinOfSplit(s: string, c: char)
    ensures Join(Split(s, c), [c]) == s
  {
    if s != "" {
      JoinOfSplit(s[1..], c);
      var r := Split(s[1..], c);
      assert s == [s[0]] + s[1..];
      if s[0] == c {
        JoinEmptyFirst(r, [c]);
      } else {
        JoinLongerFirst(s[0], r, [c]);
      }
    }
  }

  /** A string is its own slug exactly when it is one, so the function reaches every slug and nothing else. */
  lemma FixedPointsAreTheSlugs(s: string)
    ensures AccountSlug(s) == s <==> IsSlug(s)
  {
    SlugIsSlug(s);
    if IsSlug(s) {
      var ws := Split(s, '-');
      JoinOfSplit(s, '-');
      WordsOfJoin(ws);
      LowerAllKeeps(s);
      SlugJoinsTheWords(s);
    }
  }

  /** Taking the slug of a slug changes nothing. */
  lemma SlugIsIdempotent(name: string)
    ensures AccountSlug(AccountSlug(name)) == AccountSlug(name)
  {
    SlugIsSlug(name);
    FixedPointsAreTheSlugs(AccountSlug(name));
  }

  // ---- Character by character -------------------------------------------------------------------------------

  /** Spelling a capital of the name as the small letter, 32 further on, does not show in the slug. */
  lemma SlugIgnoresCase(name: string, i: nat)
    requires i < |name| && 'A' <= name[i] <= 'Z'
    ensures AccountSlug(name) == AccountSlug(name[i := name[i] + 32 as char])
  {
    var small := name[i := name[i] + 32 as char];
    LowerAllIgnoresCase(name, i);
    SlugJoinsTheWords(name);
    SlugJoinsTheWords(small);
  }

  lemma {:induction false} LowerAllIgnoresCase(s: string, i: nat)
    requires i < |s| && 'A' <= s[i] <= 'Z'
    ensures LowerAll(s) == LowerAll(s[i := s[i] + 32 as char])
  {
    var small := s[i := s[i] + 32 as char];
    if i == 0 {
      assert small[1..] == s[1..];
    } else {
      assert small[1..] == s[1..][i - 1 := s[i] + 32 as char];
      LowerAllIgnoresCase(s[1..], i - 1);
    }
  }

  /** A name of ASCII characters without capitals has the slug of its own words. */
  lemma PlainNameJoinsItsWords(name: string)
    requires forall i :: 0 <= i < |name| ==> name[i] < 128 as char && !('A' <= name[i] <= 'Z')
    ensures AccountSlug(name) == if Words(name) == [] then "me" else Join(Words(name), "-")
  {
    LowerAllKeeps(name);
    SlugJoinsTheWords(name);
  }

  /** The characters of a name that leave a letter or a digit in its slug. */
  predicate Counts(c: char) {
    || 'a' <= c <= 'z' || 'A' <= c <= 'Z' || '0' <= c <= '9'
    || c == '\U{212A}' || c == '\U{0130}'
  }

  function Small(c: char): char {
    if 'A' <= c <= 'Z' then c + 32 as char else if c == '\U{212A}' then 'k' else if c == '\U{0130}' then 'i' else c
  }

  /**
   * The slug made in one pass: each character that counts is added in small, behind a hyphen when something is there
   * already and the character before it did not count. U+0130 brings a combining dot along, so it is always followed
   * by a gap.
   */
  function OnePass(name: string): string
    decreases |name|
  {
    if name == "" then ""
    else
      var n := |name| - 1;
      var done, c := OnePass(name[..n]), name[n];
      if !Counts(c) then done
      else if done == "" || n == 0 || (Counts(name[n - 1]) && name[n - 1] != '\U{0130}') then done + [Small(c)]
      else done + ['-', Small(c)]
  }

  /** For every name, trimming, lower-casing, collapsing and stripping come to that one pass, or to `me`. */
  lemma SlugIsOnePass(name: string)
    ensures AccountSlug(name) == if OnePass(name) == "" then "me" else OnePass(name)
  {
    SlugJoinsTheWords(name);
    OnePassJoinsTheWords(name);
    WordsAreWords(LowerAll(name));
    if Words(LowerAll(name)) != [] {
      JoinStartsAndEndsAlnum(Words(LowerAll(name)));
    }
  }

  lemma {:induction false} OnePassJoinsTheWords(name: string)
    ensures OnePass(name) == Join(Words(LowerAll(name)), "-")
    decreases |name|
  {
    if name != "" {
      var n := |name| - 1;
      var init, c := name[..n], name[n];
      assert name == init + [c];
      LowerAllJoins(init, [c]);
      assert LowerAll([c]) == Lower(c);
      OnePassJoinsTheWords(init);
      LastLowered(init);
      WordsOfLowered(LowerAll(init), c);
      if Counts(c) {
        JoinOfLast(LowerAll(init), Small(c));
      }
    }
  }

  lemma WordsOfLowered(s: string, c: char)
    ensures Words(s + Lower(c)) == if Counts(c) then Words(s + [Small(c)]) else Words(s)
    ensures Counts(c) ==> Alnum(Small(c))
  {
    if c == '\U{0130}' {
      assert s + Lower(c) == (s + "i") + ['\U{0307}'];
      WordsSkipTrail(s + "i", '\U{0307}');
    } else if !Counts(c) {
      WordsSkipTrail(s, c);
    }
  }

  /** Whether a lower-cased string ends in a letter or digit can be read off its last character. */
  lemma {:induction false} LastLowered(s: string)
    ensures s != "" ==>
              LowerAll(s) != "" &&
              (Alnum(LowerAll(s)[|LowerAll(s)| - 1]) <==> Counts(s[|s| - 1]) && s[|s| - 1] != '\U{0130}')
    ensures s == "" ==> LowerAll(s) == ""
  {
    if |s| > 1 {
      LastLowered(s[1..]);
    }
  }

  function LongerLast(ws: seq<string>, c: char): seq<string>
    requires ws != []
  {
    ws[..|ws| - 1] + [ws[|ws| - 1] + [c]]
  }

  /** One more letter or digit at the end lengthens the last word, or is a word of its own after a gap. */
  lemma {:induction false} WordsOfLast(s: string, c: char)
    requires Alnum(c)
    ensures s != "" && Alnum(s[|s| - 1]) ==> Words(s) != [] && Words(s + [c]) == LongerLast(Words(s), c)
    ensures s == "" || !Alnum(s[|s| - 1]) ==> Words(s + [c]) == Words(s) + [[c]]
    decreases |s|
  {
    if s == "" {
      OneRunOfWords([c]);
      assert s + [c] == [c] && Words(s) == [];
    } else {
      var n := RunLength(s);
      RunShape(s);
      RunLengthBefore(s, c);
      if n < |s| {
        WordsOfLast(s[n..], c);
        WordsOfLastBehind(s, s[n..], c);
      } else {
        WordsOfLastAlone(s, c);
        assert LongerLast([s], c) == [s + [c]];
      }
    }
  }

  lemma OneRunOfWords(w: string)
    requires w != "" && RunLength(w) == |w|
    ensures Words(w) == if Alnum(w[0]) then [w] else []
  {
    assert w[..|w|] == w && w[|w|..] == "";
  }

  lemma WordsOfLastAlone(s: string, c: char)
    requires Alnum(c) && s != "" && RunLength(s) == |s|
    requires RunLength(s + [c]) == if Alnum(s[0]) then |s| + 1 else |s|
    ensures Words(s + [c]) == if Alnum(s[0]) then [s + [c]] else [[c]]
    ensures Words(s) == if Alnum(s[0]) then [s] else []
    ensures Alnum(s[|s| - 1]) == Alnum(s[0])
  {
    RunShape(s);
    OneRunOfWords(s);
    if Alnum(s[0]) {
      OneRunOfWords(s + [c]);
    } else {
      OneRunOfWords([c]);
      assert (s + [c])[|s|..] == [c];
    }
  }

  /** The first run of a longer string is untouched by what comes at its end. */
  lemma WordsOfLastBehind(s: string, rest: string, c: char)
    requires s != "" && RunLength(s) < |s| && rest == s[RunLength(s)..] && RunLength(s + [c]) == RunLength(s)
    ensures s[|s| - 1] == rest[|rest| - 1]
    ensures Words(rest) != [] && Words(rest + [c]) == LongerLast(Words(rest), c) ==>
              Words(s) != [] && Words(s + [c]) == LongerLast(Words(s), c)
    ensures Words(rest + [c]) == Words(rest) + [[c]] ==> Words(s + [c]) == Words(s) + [[c]]
  {
    var n, t := RunLength(s), s + [c];
    assert t[..n] == s[..n] && t[n..] == rest + [c];
    var first := if Alnum(s[0]) then [s[..n]] else [];
    assert Words(s) == first + Words(rest) && Words(t) == first + Words(rest + [c]);
    if Words(rest) != [] {
      LongerBehind(first, Words(rest), c);
    }
  }

  lemma LongerBehind(first: seq<string>, ws: seq<string>, c: char)
    requires ws != []
    ensures LongerLast(first + ws, c) == first + LongerLast(ws, c)
  {
  }

  lemma JoinOfLast(s: string, c: char)
    requires Alnum(c)
    ensures var j := Join(Words(s), "-");
            Join(Words(s + [c]), "-") ==
              if s != "" && !Alnum(s[|s| - 1]) && j != "" then j + ['-', c] else j + [c]
  {
    WordsOfLast(s, c);
    WordsAreWords(s);
    var ws := Words(s);
    if ws != [] {
      JoinStartsAndEndsAlnum(ws);
      JoinAppends(ws, c);
    }
  }

  lemma {:induction false} JoinAppends(ws: seq<string>, c: char)
    requires ws != []
    ensures Join(LongerLast(ws, c), "-") == Join(ws, "-") + [c]
    ensures Join(ws + [[c]], "-") == Join(ws, "-") + ['-', c]
  {
    var longer, more := LongerLast(ws, c), ws + [[c]];
    if |ws| > 1 {
      var rest := ws[1..];
      assert longer[1..] == LongerLast(rest, c) && more[1..] == rest + [[c]];
      JoinAppends(rest, c);
    } else {
      assert more[1..] == [[c]];
    }
  }
}
