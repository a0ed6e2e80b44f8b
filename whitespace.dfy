/** The SQL-comparison helper of the kitchen tests: `normalize_whitespace`
    replaces every run of whitespace by one space (the regular-expression
    substitution of `\s+` by " ") and then strips whitespace from both ends. */
module Whitespace {

  /** The characters Python treats as whitespace in a `str`: both `\s` in a
      regular expression over text and `str.strip()` use this set. */
  predicate IsSpace(c: char) {
    var n := c as int;
    (9 <= n <= 13) || (28 <= n <= 32) || n == 0x85 || n == 0xA0 || n == 0x1680
    || (0x2000 <= n <= 0x200A) || n == 0x2028 || n == 0x2029 || n == 0x202F
    || n == 0x205F || n == 0x3000
  }

  /** Every whitespace character of `s` is a plain space. */
  ghost predicate OnlyPlainSpaces(s: string) {
    forall i :: 0 <= i < |s| && IsSpace(s[i]) ==> s[i] == ' '
  }

  /** No two neighbouring characters of `s` are both whitespace. The
      neighbour is named by a second bound variable `j` so that the
      quantifier is triggered by `s[i]` and `s[j]` alone: with `s[i + 1]`
      each instance would create a new index term and trigger the next. */
  ghost predicate NoWhitespaceRuns(s: string) {
    forall i, j :: 0 <= i < j < |s| && j == i + 1 && IsSpace(s[i]) ==> !IsSpace(s[j])
  }

  /** `s` neither starts nor ends with whitespace. */
  ghost predicate Trimmed(s: string) {
    s == [] || (!IsSpace(s[0]) && !IsSpace(s[|s| - 1]))
  }

  ghost predicate AllSpace(s: string) {
    forall i :: 0 <= i < |s| ==> IsSpace(s[i])
  }

  /** The non-whitespace characters of `s`, in order. */
  function Visible(s: string): string {
    if s == [] then []
    else if IsSpace(s[0]) then Visible(s[1..])
    else [s[0]] + Visible(s[1..])
  }

  /** The index of the first non-whitespace character of `s` at or after
      `k`, or `|s|` when there is none. */
  function SkipSpaces(s: string, k: nat): (n: nat)
    requires k <= |s|
    ensures k <= n <= |s|
    ensures forall i :: k <= i < n ==> IsSpace(s[i])
    ensures n == |s| || !IsSpace(s[n])
    decreases |s| - k
  {
    if k < |s| && IsSpace(s[k]) then SkipSpaces(s, k + 1) else k
  }

  /** Drops the leading whitespace of `s` (Python's `lstrip()`). */
  function TrimStart(s: string): (r: string)
    ensures |r| <= |s| && r == s[|s| - |r|..]
    ensures AllSpace(s[..|s| - |r|])
    ensures r == [] || !IsSpace(r[0])
    ensures s != [] && IsSpace(s[0]) ==> |r| < |s|
  {
    var n := SkipSpaces(s, 0);
    assert forall i :: 0 <= i < n ==> s[..n][i] == s[i];
    s[n..]
  }

  /** Only one string fits the description of `lstrip()`: a suffix that
      drops only whitespace and does not itself start with whitespace. */
  lemma TrimStartUnique(s: string, r: string)
    requires |r| <= |s| && r == s[|s| - |r|..]
    requires AllSpace(s[..|s| - |r|])
    requires r == [] || !IsSpace(r[0])
    ensures TrimStart(s) == r
  {
    var t := TrimStart(s);
    var n, m := |s| - |t|, |s| - |r|;
    assert forall i :: 0 <= i < m ==> s[..m][i] == s[i];
    assert forall i :: 0 <= i < n ==> s[..n][i] == s[i];
    assert n < |s| ==> t[0] == s[n];
    assert m < |s| ==> r[0] == s[m];
  }

  /** Drops the trailing whitespace of `s` (Python's `rstrip()`). */
  function TrimEnd(s: string): (r: string)
    ensures |r| <= |s| && r == s[..|r|]
    ensures AllSpace(s[|r|..])
    ensures r == [] || !IsSpace(r[|r| - 1])
  {
    if s != [] && IsSpace(s[|s| - 1]) then
      var r := TrimEnd(s[..|s| - 1]);
      DropOneMoreTrailing(s, r);
      r
    else s
  }

  lemma DropOneMoreTrailing(s: string, r: string)
    requires s != [] && IsSpace(s[|s| - 1])
    requires |r| <= |s| - 1 && r == s[..|s| - 1][..|r|]
    requires AllSpace(s[..|s| - 1][|r|..])
    ensures r == s[..|r|] && AllSpace(s[|r|..])
  {
    assert s[|r|..] == s[..|s| - 1][|r|..] + [s[|s| - 1]];
  }

  /** Python's `strip()`: whitespace removed from both ends. */
  function Strip(s: string): (r: string)
    ensures Trimmed(r) && |r| <= |s|
    ensures exists i, j :: 0 <= i <= j <= |s| && r == s[i..j]
  {
    var t := TrimStart(s);
    var r := TrimEnd(t);
    assert r == s[|s| - |t|..|s| - |t| + |r|];
    r
  }

  /** `re.sub(r'\s+', ' ', s)`: each maximal run of whitespace becomes one
      plain space, everything else is copied. */
  function Collapse(s: string): (r: string)
    ensures |r| <= |s|
    ensures r == [] <==> s == []
    decreases |s|
  {
    if s == [] then []
    else if IsSpace(s[0]) then [' '] + Collapse(TrimStart(s))
    else [s[0]] + Collapse(s[1..])
  }

  /** `normalize_whitespace(sql_query)` of test_kitchen_model.py: never
      longer than its input, and without whitespace at either end. */
  function NormalizeWhitespace(s: string): (r: string)
    ensures |r| <= |s| && Trimmed(r)
  {
    Strip(Collapse(s))
  }

  /** The substitution leaves only plain spaces, never two whitespace
      characters in a row, and keeps a leading visible character in front. */
  lemma {:induction false} CollapseShape(s: string)
    ensures OnlyPlainSpaces(Collapse(s)) && NoWhitespaceRuns(Collapse(s))
    ensures s != [] && !IsSpace(s[0]) ==> Collapse(s) != [] && Collapse(s)[0] == s[0]
    decreases |s|
  {
    if s == [] {
    } else if IsSpace(s[0]) {
      var t := TrimStart(s);
      CollapseShape(t);
      var c := Collapse(t);
      var r := [' '] + c;
      assert Collapse(s) == r;
      assert forall k :: 0 < k < |r| ==> r[k] == c[k - 1];
      assert c != [] ==> !IsSpace(r[1]);
    } else {
      CollapseShape(s[1..]);
      var c := Collapse(s[1..]);
      var r := [s[0]] + c;
      assert Collapse(s) == r;
      assert forall k :: 0 < k < |r| ==> r[k] == c[k - 1];
    }
  }

  /** A slice of a single-spaced string is single-spaced. */
  lemma SliceKeepsSpacing(s: string, i: int, j: int)
    requires 0 <= i <= j <= |s|
    requires OnlyPlainSpaces(s) && NoWhitespaceRuns(s)
    ensures OnlyPlainSpaces(s[i..j]) && NoWhitespaceRuns(s[i..j])
  {
    var t := s[i..j];
    forall k, l | 0 <= k < l < |t| && l == k + 1 && IsSpace(t[k]) ensures !IsSpace(t[l]) {
      assert t[k] == s[i + k] && t[l] == s[i + l];
    }
  }

  /** The result of normalize_whitespace has no whitespace at either end,
      no two whitespace characters in a row, and no whitespace other than
      the plain space. */
  lemma NormalizeShape(s: string)
    ensures Trimmed(NormalizeWhitespace(s))
    ensures OnlyPlainSpaces(NormalizeWhitespace(s))
    ensures NoWhitespaceRuns(NormalizeWhitespace(s))
  {
    var c := Collapse(s);
    CollapseShape(s);
    var i, j :| 0 <= i <= j <= |c| && Strip(c) == c[i..j];
    SliceKeepsSpacing(c, i, j);
  }

  /** A string that is already single-spaced is left alone by the
      substitution. */
  lemma {:induction false} CollapseFixpoint(s: string)
    requires OnlyPlainSpaces(s) && NoWhitespaceRuns(s)
    ensures Collapse(s) == s
    decreases |s|
  {
    if s == [] {
    } else {
      SliceKeepsSpacing(s, 1, |s|);
      CollapseFixpoint(s[1..]);
      if IsSpace(s[0]) {
        assert s[0] == ' ';
        var rest := s[1..];
        assert rest == [] || !IsSpace(rest[0]) by {
          if rest != [] { assert rest[0] == s[1]; }
        }
        assert TrimStart(rest) == rest;
        assert TrimStart(s) == rest;
        assert Collapse(s) == [' '] + rest;
      } else {
        assert Collapse(s) == [s[0]] + s[1..];
      }
      assert s == [s[0]] + s[1..];
    }
  }

  /** A string with no whitespace at its ends is left alone by `strip()`. */
  lemma StripFixpoint(s: string)
    requires Trimmed(s)
    ensures Strip(s) == s
  {
  }

  /** Normalising twice is normalising once. */
  lemma NormalizeIdempotent(s: string)
    ensures NormalizeWhitespace(NormalizeWhitespace(s)) == NormalizeWhitespace(s)
  {
    var n := NormalizeWhitespace(s);
    NormalizeShape(s);
    CollapseFixpoint(n);
    StripFixpoint(n);
  }

  lemma {:induction false} VisibleAppend(a: string, b: string)
    ensures Visible(a + b) == Visible(a) + Visible(b)
    decreases |a|
  {
    if a == [] {
      assert a + b == b;
    } else {
      assert (a + b)[1..] == a[1..] + b;
      VisibleAppend(a[1..], b);
    }
  }

  lemma {:induction false} VisibleOfSpaces(s: string)
    requires AllSpace(s)
    ensures Visible(s) == []
    decreases |s|
  {
    if s != [] {
      VisibleOfSpaces(s[1..]);
    }
  }

  /** Stripping loses no visible character. */
  lemma StripKeepsVisible(s: string)
    ensures Visible(Strip(s)) == Visible(s)
  {
    TrimStartKeepsVisible(s);
    TrimEndKeepsVisible(TrimStart(s));
  }

  lemma TrimStartKeepsVisible(s: string)
    ensures Visible(TrimStart(s)) == Visible(s)
  {
    var t := TrimStart(s);
    VisibleAfterLead(s, |s| - |t|);
  }

  /** Dropping a whitespace prefix keeps the visible characters. */
  lemma VisibleAfterLead(s: string, k: nat)
    requires k <= |s| && AllSpace(s[..k])
    ensures Visible(s[k..]) == Visible(s)
  {
    assert s == s[..k] + s[k..];
    VisibleAppend(s[..k], s[k..]);
    VisibleOfSpaces(s[..k]);
  }

  lemma TrimEndKeepsVisible(t: string)
    ensures Visible(TrimEnd(t)) == Visible(t)
  {
    var r := TrimEnd(t);
    var trail := t[|r|..];
    assert t == r + trail;
    VisibleAppend(r, trail);
    VisibleOfSpaces(trail);
  }

  /** The substitution loses no visible character. */
  lemma {:induction false} CollapseKeepsVisible(s: string)
    ensures Visible(Collapse(s)) == Visible(s)
    decreases |s|
  {
    if s == [] {
    } else if IsSpace(s[0]) {
      var t := TrimStart(s);
      CollapseKeepsVisible(t);
      CollapseAfterSpace(s);
      VisibleAfterSpace(Collapse(t));
      TrimStartKeepsVisible(s);
    } else {
      CollapseKeepsVisible(s[1..]);
      assert Collapse(s)[1..] == Collapse(s[1..]);
    }
  }

  lemma VisibleAfterSpace(x: string)
    ensures Visible(" " + x) == Visible(x)
  {
    assert (" " + x)[1..] == x;
  }

  /** normalize_whitespace changes only whitespace: the visible characters
      come out unchanged and in the same order. */
  lemma NormalizeKeepsVisible(s: string)
    ensures Visible(NormalizeWhitespace(s)) == Visible(s)
  {
    CollapseKeepsVisible(s);
    StripKeepsVisible(Collapse(s));
  }

  // An independent reference definition: Python's `" ".join(s.split())`.

  /** A word: a non-empty stretch of non-whitespace characters. */
  ghost predicate IsWord(w: string) {
    w != [] && forall i :: 0 <= i < |w| ==> !IsSpace(w[i])
  }

  /** The longest prefix of `s` that holds no whitespace. */
  function TakeWord(s: string): (w: string)
    ensures |w| <= |s| && w == s[..|w|]
    ensures forall i :: 0 <= i < |w| ==> !IsSpace(w[i])
    ensures |w| == |s| || IsSpace(s[|w|])
    ensures s != [] && !IsSpace(s[0]) ==> w != []
  {
    if s == [] || IsSpace(s[0]) then [] else [s[0]] + TakeWord(s[1..])
  }

  /** Python's `str.split()` with no separator: the words of `s`, in order. */
  function Words(s: string): seq<string>
    decreases |s|
  {
    var t := TrimStart(s);
    if t == [] then []
    else
      var w := TakeWord(t);
      [w] + Words(t[|w|..])
  }

  /** Every piece `split()` returns is a word. */
  lemma {:induction false} WordsAreWords(s: string)
    ensures forall k :: 0 <= k < |Words(s)| ==> IsWord(Words(s)[k])
    decreases |s|
  {
    var t := TrimStart(s);
    if t != [] {
      var w := TakeWord(t);
      var rest := t[|w|..];
      WordsAreWords(rest);
      assert IsWord(w);
      ConsOfWords(w, Words(rest));
    }
  }

  lemma ConsOfWords(w: string, ws: seq<string>)
    requires IsWord(w) && forall k :: 0 <= k < |ws| ==> IsWord(ws[k])
    ensures forall k :: 0 <= k < |[w] + ws| ==> IsWord(([w] + ws)[k])
  {
    assert forall k :: 0 < k < |ws| + 1 ==> ([w] + ws)[k] == ws[k - 1];
  }

  /** Python's `" ".join(ws)`. */
  function Unwords(ws: seq<string>): string {
    if ws == [] then []
    else if |ws| == 1 then ws[0]
    else ws[0] + " " + Unwords(ws[1..])
  }

  lemma {:induction false} UnwordsTrimmed(ws: seq<string>)
    requires forall k :: 0 <= k < |ws| ==> IsWord(ws[k])
    ensures Trimmed(Unwords(ws))
    ensures ws != [] ==> Unwords(ws) != []
  {
    if |ws| > 1 {
      UnwordsTrimmed(ws[1..]);
      var u := Unwords(ws[1..]);
      assert Unwords(ws) == ws[0] + " " + u;
      assert IsWord(ws[0]);
      assert Unwords(ws)[0] == ws[0][0];
      assert Unwords(ws)[|Unwords(ws)| - 1] == u[|u| - 1];
    } else if |ws| == 1 {
      assert IsWord(ws[0]);
    }
  }

  lemma TrimStartSkipsSpaces(a: string, t: string)
    requires AllSpace(a)
    ensures TrimStart(a + t) == TrimStart(t)
  {
    var r := TrimStart(t);
    var k := |t| - |r|;
    var x := a + t;
    assert x[|x| - |r|..] == r;
    var p := x[..|a| + k];
    forall i | 0 <= i < |p| ensures IsSpace(p[i]) {
      if i < |a| {
        assert p[i] == a[i];
      } else {
        assert p[i] == t[..k][i - |a|];
      }
    }
    TrimStartUnique(x, r);
  }

  lemma {:induction false} TrimEndSkipsSpaces(t: string, b: string)
    requires AllSpace(b)
    ensures TrimEnd(t + b) == TrimEnd(t)
    decreases |b|
  {
    if b == [] {
      assert t + b == t;
    } else {
      var b' := b[..|b| - 1];
      assert (t + b)[..|t + b| - 1] == t + b';
      TrimEndSkipsSpaces(t, b');
    }
  }

  /** Whitespace around a trimmed string is what `strip()` removes. */
  lemma StripPadded(a: string, u: string, b: string)
    requires AllSpace(a) && AllSpace(b) && Trimmed(u)
    ensures Strip(a + u + b) == u
  {
    assert a + u + b == a + (u + b);
    TrimStartSkipsSpaces(a, u + b);
    if u == [] {
      assert u + b == b;
      TrimStartSkipsSpaces(b, []);
      assert b + [] == b;
    } else {
      assert (u + b)[0] == u[0];
      assert TrimStart(u + b) == u + b;
      TrimEndSkipsSpaces(u, b);
    }
  }

  /** Copying a whitespace-free prefix is all the substitution does to it. */
  lemma {:induction false} CollapseWord(w: string, x: string)
    requires forall i :: 0 <= i < |w| ==> !IsSpace(w[i])
    ensures Collapse(w + x) == w + Collapse(x)
    decreases |w|
  {
    if w == [] {
      assert w + x == x;
    } else {
      CollapseWord(w[1..], x);
      assert w == [w[0]] + w[1..];
      CollapseWordStep(w[0], w[1..], x);
    }
  }

  lemma CollapseWordStep(c: char, v: string, x: string)
    requires !IsSpace(c) && Collapse(v + x) == v + Collapse(x)
    ensures Collapse(([c] + v) + x) == ([c] + v) + Collapse(x)
  {
    assert ([c] + v) + x == [c] + (v + x);
    CollapseVisibleHead(c, v + x);
  }

  lemma CollapseVisibleHead(c: char, x: string)
    requires !IsSpace(c)
    ensures Collapse([c] + x) == [c] + Collapse(x)
  {
    assert ([c] + x)[1..] == x;
  }

  /** One space if `t` ends in whitespace. */
  function TrailingSpace(t: string): string {
    if t != [] && IsSpace(t[|t| - 1]) then " " else ""
  }

  lemma WordsOfTrimmedStart(s: string)
    ensures Words(TrimStart(s)) == Words(s)
  {
    var t := TrimStart(s);
    assert TrimStart(t) == t by {
      if t != [] { assert !IsSpace(t[0]); }
    }
  }

  lemma UnwordsCons(w: string, ws: seq<string>)
    requires ws != []
    ensures Unwords([w] + ws) == w + " " + Unwords(ws)
  {
    assert ([w] + ws)[1..] == ws;
  }

  lemma AllSpaceWhenNothingLeft(s: string)
    requires TrimStart(s) == []
    ensures AllSpace(s)
  {
    assert s[..|s|] == s;
  }

  /** A non-empty tail of `t` ends where `t` ends. */
  lemma TrailingSpaceOfSuffix(t: string, k: nat)
    requires k < |t|
    ensures TrailingSpace(t[k..]) == TrailingSpace(t)
  {
    assert t[k..][|t[k..]| - 1] == t[|t| - 1];
  }

  /** After leading whitespace is gone, the substitution yields the joined
      words, plus one space if whitespace ends the text. */
  lemma {:induction false} CollapseIsJoinedWords(t: string)
    requires t == [] || !IsSpace(t[0])
    ensures Collapse(t) == Unwords(Words(t)) + TrailingSpace(t)
    decreases |t|, 1
  {
    if t != [] {
      var w := TakeWord(t);
      var rest := t[|w|..];
      WordsAtWord(t);
      CollapseAtWord(t);
      if rest == [] {
        SingleWord(t);
      } else {
        TrailingSpaceOfSuffix(t, |w|);
        JoinAfterWord(w, rest);
      }
    }
  }

  lemma CollapseAtWord(t: string)
    ensures Collapse(t) == TakeWord(t) + Collapse(t[|TakeWord(t)|..])
  {
    var w := TakeWord(t);
    assert t == w + t[|w|..];
    CollapseWord(w, t[|w|..]);
  }

  /** A text that is one word and nothing else. */
  lemma SingleWord(t: string)
    requires t != [] && !IsSpace(t[0]) && |TakeWord(t)| == |t|
    ensures Collapse(t) == Unwords(Words(t)) + TrailingSpace(t)
  {
    var w := TakeWord(t);
    WordsAtWord(t);
    CollapseAtWord(t);
    assert Words(t[|w|..]) == [];
    assert Unwords([w]) == w;
    assert t[|t| - 1] == w[|w| - 1];
  }

  lemma WordsAtWord(t: string)
    requires t != [] && !IsSpace(t[0])
    ensures Words(t) == [TakeWord(t)] + Words(t[|TakeWord(t)|..])
  {
    assert TrimStart(t) == t;
  }

  /** The step of CollapseIsJoinedWords where whitespace follows a word. */
  lemma {:induction false} JoinAfterWord(w: string, rest: string)
    requires rest != [] && IsSpace(rest[0])
    ensures Unwords([w] + Words(rest)) + TrailingSpace(rest) == w + Collapse(rest)
    decreases |rest|, 0
  {
    var r2 := TrimStart(rest);
    CollapseAfterSpace(rest);
    WordsOfTrimmedStart(rest);
    CollapseIsJoinedWords(r2);
    if r2 == [] {
      AllSpaceWhenNothingLeft(rest);
      JoinLastWord(w, Words(r2), Collapse(r2), TrailingSpace(rest));
    } else {
      TrailingSpaceOfSuffix(rest, |rest| - |r2|);
      JoinNextWord(w, Words(r2), TrailingSpace(r2));
    }
  }

  lemma CollapseAfterSpace(s: string)
    requires s != [] && IsSpace(s[0])
    ensures Collapse(s) == " " + Collapse(TrimStart(s))
  {
  }

  lemma JoinLastWord(w: string, ws: seq<string>, c: string, tr: string)
    requires ws == [] && c == [] && tr == " "
    ensures Unwords([w] + ws) + tr == w + (" " + c)
  {
    assert [w] + ws == [w];
  }

  lemma JoinNextWord(w: string, ws: seq<string>, tr: string)
    requires ws != []
    ensures Unwords([w] + ws) + tr == w + (" " + (Unwords(ws) + tr))
  {
    UnwordsCons(w, ws);
    assert w + " " + Unwords(ws) + tr == w + (" " + (Unwords(ws) + tr));
  }

  /** normalize_whitespace(s) is `" ".join(s.split())`: every run of
      whitespace between two words becomes exactly one space, and the words
      themselves are kept in order. */
  lemma NormalizeIsJoinedWords(s: string)
    ensures NormalizeWhitespace(s) == Unwords(Words(s))
  {
    if s != [] && IsSpace(s[0]) {
      NormalizeLeadingSpace(s);
    } else {
      CollapseIsJoinedWords(s);
      WordsAreWords(s);
      UnwordsTrimmed(Words(s));
      TrailingSpaceIsSpace(s);
      NormalizeOfTail(s, Unwords(Words(s)), TrailingSpace(s));
    }
  }

  lemma NormalizeOfTail(s: string, u: string, tr: string)
    requires Collapse(s) == u + tr && Trimmed(u) && AllSpace(tr)
    ensures NormalizeWhitespace(s) == u
  {
    StripTail(u, tr);
  }

  lemma NormalizeLeadingSpace(s: string)
    requires s != [] && IsSpace(s[0])
    ensures NormalizeWhitespace(s) == Unwords(Words(s))
  {
    var t := TrimStart(s);
    var ws := Words(t);
    CollapseLeadingSpace(s);
    WordsAreWords(t);
    UnwordsTrimmed(ws);
    TrailingSpaceIsSpace(t);
    NormalizeOfPadded(s, Unwords(ws), TrailingSpace(t));
    WordsOfTrimmedStart(s);
  }

  lemma NormalizeOfPadded(s: string, u: string, tr: string)
    requires Collapse(s) == " " + (u + tr) && Trimmed(u) && AllSpace(tr)
    ensures NormalizeWhitespace(s) == u
  {
    StripAround(" ", u, tr);
  }

  lemma TrailingSpaceIsSpace(t: string)
    ensures AllSpace(TrailingSpace(t))
  {
  }

  lemma CollapseLeadingSpace(s: string)
    requires s != [] && IsSpace(s[0])
    ensures Collapse(s) == " " + (Unwords(Words(TrimStart(s))) + TrailingSpace(TrimStart(s)))
  {
    CollapseAfterSpace(s);
    CollapseIsJoinedWords(TrimStart(s));
  }

  lemma StripTail(u: string, b: string)
    requires AllSpace(b) && Trimmed(u)
    ensures Strip(u + b) == u
  {
    if u == [] {
      assert u + b == b;
      TrimStartSkipsSpaces(b, []);
      assert b + [] == b;
    } else {
      assert (u + b)[0] == u[0];
      assert TrimStart(u + b) == u + b;
      TrimEndSkipsSpaces(u, b);
    }
  }

  lemma StripAround(a: string, u: string, b: string)
    requires AllSpace(a) && AllSpace(b) && Trimmed(u)
    ensures Strip(a + (u + b)) == u
  {
    assert a + (u + b) == a + u + b;
    StripPadded(a, u, b);
  }
}
