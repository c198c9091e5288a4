/**
  The two string operations `parse_shape` applies to a line: Python's
  `str.strip()` and `str.split()` with no separator. Both treat as whitespace
  exactly the characters for which Python's `str.isspace()` holds.
 */
module Text {

  /** Python's whitespace: ASCII tab to carriage return, the four information
      separators 0x1C..0x1F, space, NEL, NBSP and the Unicode space separators. */
  predicate IsSpace(c: char) {
    ('\t' <= c <= '\r') || ('\U{1C}' <= c <= '\U{1F}') || c == ' ' ||
    c == '\U{85}' || c == '\U{A0}' || c == '\U{1680}' ||
    ('\U{2000}' <= c <= '\U{200A}') || c == '\U{2028}' || c == '\U{2029}' ||
    c == '\U{202F}' || c == '\U{205F}' || c == '\U{3000}'
  }

  /** Every character of `s` is whitespace (the empty string included). */
  predicate Blank(s: string) {
    forall i :: 0 <= i < |s| ==> IsSpace(s[i])
  }

  /** What `split()` can return as one element: non-empty, no whitespace. */
  predicate Token(w: string) {
    |w| > 0 && forall i :: 0 <= i < |w| ==> !IsSpace(w[i])
  }

  predicate AllTokens(ws: seq<string>) {
    forall k :: 0 <= k < |ws| ==> Token(ws[k])
  }

  /** `s` with its leading whitespace removed. */
  function TrimStart(s: string): (r: string)
    ensures |r| <= |s|
    ensures r == [] || !IsSpace(r[0])
  {
    if s != [] && IsSpace(s[0]) then TrimStart(s[1..]) else s
  }

  /** What `TrimStart` removes is blank, and what it keeps is the rest of `s`. */
  lemma {:induction false} TrimStartSplits(s: string)
    ensures var r := TrimStart(s); r == s[|s| - |r|..] && Blank(s[..|s| - |r|])
    decreases |s|
  {
    var r := TrimStart(s);
    if s != [] && IsSpace(s[0]) {
      TrimStartSplits(s[1..]);
      assert s[1..][|s| - 1 - |r|..] == s[|s| - |r|..];
      var p := s[..|s| - |r|];
      forall i | 0 <= i < |p| ensures IsSpace(p[i]) {
        if i > 0 {
          assert p[i] == s[1..][..|s| - 1 - |r|][i - 1];
        }
      }
    }
  }

  /** `s` with its trailing whitespace removed. */
  function TrimEnd(s: string): (r: string)
    ensures |r| <= |s|
    ensures r == [] || !IsSpace(r[|r| - 1])
  {
    if s != [] && IsSpace(s[|s| - 1]) then TrimEnd(s[..|s| - 1]) else s
  }

  /** What `TrimEnd` removes is blank, and what it keeps is the start of `s`. */
  lemma {:induction false} TrimEndSplits(s: string)
    ensures var r := TrimEnd(s); r == s[..|r|] && Blank(s[|r|..])
    decreases |s|
  {
    var r := TrimEnd(s);
    if s != [] && IsSpace(s[|s| - 1]) {
      var init := s[..|s| - 1];
      TrimEndSplits(init);
      assert init[..|r|] == s[..|r|];
      forall i | 0 <= i < |s| - |r| ensures IsSpace(s[|r|..][i]) {
        if i < |s| - 1 - |r| {
          assert s[|r|..][i] == init[|r|..][i];
        }
      }
    }
  }

  /** `str.strip()`: the slice of `s` left once whitespace is cut from both ends. */
  function Strip(s: string): (r: string)
    ensures r == [] || (!IsSpace(r[0]) && !IsSpace(r[|r| - 1]))
  {
    TrimEndSplits(TrimStart(s));
    TrimEnd(TrimStart(s))
  }

  /** `strip()` leaves nothing exactly when the string is blank. */
  lemma StripEmptyIffBlank(s: string)
    ensures Blank(s) <==> Strip(s) == []
  {
    var t := TrimStart(s);
    TrimStartSplits(s);
    TrimEndSplits(t);
    if Strip(s) == [] {
      assert Blank(t) by {
        assert t[0..] == t;
      }
      assert s == s[..|s| - |t|] + t;
    } else {
      assert t[0] == s[|s| - |t|];
    }
  }

  /** The longest prefix of `s` without whitespace. */
  function Word(s: string): (w: string)
    ensures |w| <= |s| && w == s[..|w|]
    ensures forall i :: 0 <= i < |w| ==> !IsSpace(w[i])
    ensures |w| < |s| ==> IsSpace(s[|w|])
  {
    if s == [] || IsSpace(s[0]) then [] else [s[0]] + Word(s[1..])
  }

  /** `str.split()`: the maximal runs of non-whitespace characters, in order. */
  function Split(s: string): (ws: seq<string>)
    ensures AllTokens(ws)
    decreases |s|
  {
    if s == [] then []
    else if IsSpace(s[0]) then Split(s[1..])
    else
      var w := Word(s);
      [w] + Split(s[|w|..])
  }

  /** `" ".join(ws)`. */
  function Join(ws: seq<string>): string {
    if |ws| == 0 then ""
    else if |ws| == 1 then ws[0]
    else ws[0] + " " + Join(ws[1..])
  }

  /** Splitting finds nothing exactly when the line is blank. */
  lemma {:induction false} SplitEmptyIffBlank(s: string)
    ensures Split(s) == [] <==> Blank(s)
    decreases |s|
  {
    if s != [] && IsSpace(s[0]) {
      SplitEmptyIffBlank(s[1..]);
      assert forall i :: 1 <= i < |s| ==> s[i] == s[1..][i - 1];
    }
  }

  /** Leading whitespace does not change what `split()` returns. */
  lemma {:induction false} SplitSkipsLeading(p: string, t: string)
    requires Blank(p)
    ensures Split(p + t) == Split(t)
    decreases |p|
  {
    if p == [] {
      assert p + t == t;
    } else {
      assert (p + t)[0] == p[0] && (p + t)[1..] == p[1..] + t;
      assert Blank(p[1..]) by {
        forall i | 0 <= i < |p[1..]| ensures IsSpace(p[1..][i]) {
          assert p[1..][i] == p[i + 1];
        }
      }
      assert IsSpace(p[0]);
      assert Split(p + t) == Split(p[1..] + t);
      SplitSkipsLeading(p[1..], t);
    }
  }

  /** A word ends at the first whitespace, wherever the string continues. */
  lemma {:induction false} WordOfConcat(t: string, q: string)
    ensures Word(t + q) == if |Word(t)| < |t| then Word(t) else t + Word(q)
    decreases |t|
  {
    if t == [] {
      assert t + q == q;
    } else if !IsSpace(t[0]) {
      assert (t + q)[1..] == t[1..] + q;
      WordOfConcat(t[1..], q);
    }
  }

  /** Trailing whitespace does not change what `split()` returns. */
  lemma {:induction false} SplitSkipsTrailing(t: string, q: string)
    requires Blank(q)
    ensures Split(t + q) == Split(t)
    decreases |t|
  {
    if t == [] {
      assert t + q == q;
      SplitEmptyIffBlank(q);
    } else if IsSpace(t[0]) {
      assert (t + q)[1..] == t[1..] + q;
      SplitSkipsTrailing(t[1..], q);
    } else {
      WordOfConcat(t, q);
      var w := Word(t);
      if |w| < |t| {
        assert (t + q)[|w|..] == t[|w|..] + q;
        SplitSkipsTrailing(t[|w|..], q);
      } else {
        assert q == [] || IsSpace(q[0]);
        assert Word(q) == [];
        assert (t + q)[|w|..] == q;
        SplitEmptyIffBlank(q);
        assert t[|w|..] == [];
      }
    }
  }

  /** `line.strip().split()` is `line.split()`: the strip is redundant. */
  lemma SplitOfStrip(s: string)
    ensures Split(Strip(s)) == Split(s)
  {
    var t := TrimStart(s);
    var r := TrimEnd(t);
    TrimStartSplits(s);
    TrimEndSplits(t);
    assert s == s[..|s| - |t|] + t;
    SplitSkipsLeading(s[..|s| - |t|], t);
    assert t == r + t[|r|..];
    SplitSkipsTrailing(r, t[|r|..]);
  }

  /** A single token is its own only word. */
  lemma WordOfToken(w: string)
    requires Token(w)
    ensures Word(w) == w
  {
  }

  /** A token ends at any whitespace, however long the run: a tab or several
      spaces separate tokens just as one space does. */
  lemma SplitToken(w: string, q: string)
    requires Token(w) && (q == [] || IsSpace(q[0]))
    ensures Split(w + q) == [w] + Split(q)
  {
    WordOfToken(w);
    WordOfConcat(w, q);
    assert Word(q) == [];
    assert (w + q)[0] == w[0];
    assert (w + q)[|w|..] == q;
  }

  /** `split()` undoes `" ".join` on tokens. */
  lemma {:induction false} SplitJoin(ws: seq<string>)
    requires AllTokens(ws)
    ensures Split(Join(ws)) == ws
  {
    if |ws| == 1 {
      WordOfToken(ws[0]);
      assert ws[0][|ws[0]|..] == [];
    } else if |ws| > 1 {
      var w, rest := ws[0], " " + Join(ws[1..]);
      var t := w + rest;
      assert Join(ws) == t;
      WordOfToken(w);
      WordOfConcat(w, rest);
      assert Word(rest) == [];
      assert Word(t) == w;
      assert t != [] && !IsSpace(t[0]);
      assert t[|w|..] == rest;
      assert Split(t) == [w] + Split(rest);
      assert rest[1..] == Join(ws[1..]);
      assert Split(rest) == Split(Join(ws[1..]));
      SplitJoin(ws[1..]);
    }
  }

  /** A line written as tokens joined by single spaces, with any whitespace
      around it (a trailing newline, say), splits back into those tokens. */
  lemma SplitPaddedJoin(p: string, ws: seq<string>, q: string)
    requires Blank(p) && Blank(q) && AllTokens(ws)
    ensures Split(p + Join(ws) + q) == ws
  {
    assert p + Join(ws) + q == p + (Join(ws) + q);
    SplitSkipsLeading(p, Join(ws) + q);
    SplitSkipsTrailing(Join(ws), q);
    SplitJoin(ws);
  }
}
