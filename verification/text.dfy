/** Python's argument-less `str.strip()` and `str.split()`, over the
    whitespace table that `str.isspace()` uses. The lifecycle code trims
    every piece of captured output before interpreting it and tokenises
    free-text commands with `split()`, so both are part of the model. */
module Text {

  /** The code points for which Python's `str.isspace()` holds: bidirectional
      class WS, B or S, or general category Zs. Both `strip()` and `split()`
      without arguments use exactly this table. */
  predicate IsSpace(c: char) {
    || ('\U{9}' <= c <= '\U{D}')
    || ('\U{1C}' <= c <= '\U{20}')
    || c == '\U{85}' || c == '\U{A0}' || c == '\U{1680}'
    || ('\U{2000}' <= c <= '\U{200A}')
    || c == '\U{2028}' || c == '\U{2029}' || c == '\U{202F}'
    || c == '\U{205F}' || c == '\U{3000}'
  }

  predicate AllSpace(s: string) {
    forall i | 0 <= i < |s| :: IsSpace(s[i])
  }

  predicate NoSpace(s: string) {
    forall i | 0 <= i < |s| :: !IsSpace(s[i])
  }

  /** Neither end of `s` is whitespace: what `strip()` guarantees. */
  predicate IsTrimmed(s: string) {
    s == [] || (!IsSpace(s[0]) && !IsSpace(s[|s| - 1]))
  }

  /** The number of whitespace characters that open `s`. */
  function Lead(s: string): (n: nat)
    ensures n <= |s|
    ensures AllSpace(s[..n])
    ensures n < |s| ==> !IsSpace(s[n])
  {
    if |s| > 0 && IsSpace(s[0]) then
      var n := 1 + Lead(s[1..]);
      assert s[..n] == [s[0]] + s[1..][..n - 1];
      n
    else
      0
  }

  /** `s` without its trailing whitespace. */
  function TrimEnd(s: string): (r: string)
    ensures |r| <= |s| && r == s[..|r|]
    ensures AllSpace(s[|r|..])
    ensures r == [] || !IsSpace(r[|r| - 1])
  {
    if |s| > 0 && IsSpace(s[|s| - 1]) then
      var r := TrimEnd(s[..|s| - 1]);
      assert AllSpace(s[|r|..]) by {
        AllSpaceAppend(s[..|s| - 1][|r|..], [s[|s| - 1]]);
        assert s[|r|..] == s[..|s| - 1][|r|..] + [s[|s| - 1]];
      }
      r
    else
      s
  }

  /** Python's `s.strip()`: `s` less its leading and its trailing run of
      whitespace (see `TrimIsSlice` and `TrimCutsWhitespace`). */
  function Trim(s: string): (r: string)
    ensures IsTrimmed(r)
    ensures r == [] <==> AllSpace(s)
  {
    TrimEmptyIffAllSpace(s);
    TrimEnd(s[Lead(s)..])
  }

  /** What `strip()` keeps is the slice of `s` that starts after the
      leading whitespace. */
  lemma TrimIsSlice(s: string)
    ensures var i := Lead(s);
      i + |Trim(s)| <= |s| && Trim(s) == s[i..i + |Trim(s)|]
  {
    var i := Lead(s);
    var r := TrimEnd(s[i..]);
    assert Trim(s) == r;
    PrefixOfSuffix(s, i, r);
  }

  /** What `strip()` removes, on either side of that slice, is whitespace. */
  lemma TrimCutsWhitespace(s: string)
    ensures var i := Lead(s);
      i + |Trim(s)| <= |s| && AllSpace(s[..i]) && AllSpace(s[i + |Trim(s)|..])
  {
    var i := Lead(s);
    var r := TrimEnd(s[i..]);
    assert Trim(s) == r;
    SliceOfSuffix(s, i, |r|);
    assert AllSpace(s[i..][|r|..]);
  }

  /** A prefix of a suffix is a slice of the whole. */
  lemma PrefixOfSuffix(s: string, i: nat, r: string)
    requires i + |r| <= |s| && r == s[i..][..|r|]
    ensures r == s[i..i + |r|]
  {
  }

  /** Slicing a suffix is slicing the whole, shifted. */
  lemma SliceOfSuffix(s: string, i: nat, j: nat)
    requires i + j <= |s|
    ensures s[i..][..j] == s[i..i + j]
    ensures s[i..][j..] == s[i + j..]
  {
  }

  /** `strip()` leaves nothing exactly when there is nothing but whitespace,
      and what it leaves starts and ends with non-whitespace. */
  lemma TrimEmptyIffAllSpace(s: string)
    ensures var r := TrimEnd(s[Lead(s)..]);
      && IsTrimmed(r)
      && (r == [] <==> AllSpace(s))
  {
    var i := Lead(s);
    var t := s[i..];
    var r := TrimEnd(t);
    if r == [] {
      assert AllSpace(t) by { assert t[|r|..] == t; }
      AllSpaceAppend(s[..i], t);
      assert s[..i] + t == s;
    } else {
      assert r[0] == s[i];
    }
  }

  lemma AllSpaceAppend(a: string, b: string)
    requires AllSpace(a) && AllSpace(b)
    ensures AllSpace(a + b)
  {
    forall i | 0 <= i < |a + b| ensures IsSpace((a + b)[i]) {
      if i < |a| { assert (a + b)[i] == a[i]; } else { assert (a + b)[i] == b[i - |a|]; }
    }
  }

  /** The non-whitespace characters of `s`, in order. */
  function NonSpace(s: string): string {
    if |s| == 0 then []
    else (if IsSpace(s[0]) then [] else [s[0]]) + NonSpace(s[1..])
  }

  /** The length of the run of non-whitespace characters that opens `s`. */
  function WordLen(s: string): (n: nat)
    ensures n <= |s|
    ensures NoSpace(s[..n])
    ensures n < |s| ==> IsSpace(s[n])
  {
    if |s| == 0 || IsSpace(s[0]) then 0
    else
      var n := 1 + WordLen(s[1..]);
      assert s[..n] == [s[0]] + s[1..][..n - 1];
      n
  }

  /** A token list `split()` can produce: every token non-empty and free of whitespace. */
  predicate Words(ws: seq<string>) {
    forall k | 0 <= k < |ws| :: |ws[k]| > 0 && NoSpace(ws[k])
  }

  function Concat(ws: seq<string>): string {
    if |ws| == 0 then [] else ws[0] + Concat(ws[1..])
  }

  /** Python's `s.split()`: maximal runs of non-whitespace, with no empty
      tokens for leading, trailing or repeated whitespace. Quotes mean nothing. */
  function Split(s: string): (ws: seq<string>)
    ensures Words(ws)
    decreases |s|
  {
    if |s| == 0 then []
    else if IsSpace(s[0]) then Split(s[1..])
    else
      var n := WordLen(s);
      [s[..n]] + Split(s[n..])
  }

  /** A string gives no tokens exactly when it is all whitespace. */
  lemma {:induction false} SplitEmptyIffAllSpace(s: string)
    ensures Split(s) == [] <==> AllSpace(s)
    decreases |s|
  {
    if |s| > 0 && IsSpace(s[0]) {
      SplitEmptyIffAllSpace(s[1..]);
      if AllSpace(s[1..]) {
        AllSpaceAppend([s[0]], s[1..]);
        assert [s[0]] + s[1..] == s;
      } else {
        var j :| 0 <= j < |s[1..]| && !IsSpace(s[1..][j]);
        assert s[1..][j] == s[j + 1];
      }
    }
  }

  /** Splitting loses only whitespace: the tokens, concatenated, are the
      non-whitespace characters of `s` in their original order. */
  lemma {:induction false} SplitKeepsNonSpace(s: string)
    ensures Concat(Split(s)) == NonSpace(s)
    decreases |s|
  {
    if |s| > 0 {
      if IsSpace(s[0]) {
        SplitKeepsNonSpace(s[1..]);
      } else {
        var n := WordLen(s);
        var ws := Split(s);
        assert ws == [s[..n]] + Split(s[n..]);
        assert ws[1..] == Split(s[n..]);
        SplitKeepsNonSpace(s[n..]);
        NonSpaceAppend(s[..n], s[n..]);
        NonSpaceOfWord(s[..n]);
        assert s[..n] + s[n..] == s;
      }
    }
  }

  /** `words` separated by single spaces, as a shell command is written. */
  function Join(ws: seq<string>): string {
    if |ws| == 0 then []
    else if |ws| == 1 then ws[0]
    else ws[0] + " " + Join(ws[1..])
  }

  lemma {:induction false} NonSpaceAppend(a: string, b: string)
    ensures NonSpace(a + b) == NonSpace(a) + NonSpace(b)
    decreases |a|
  {
    if |a| > 0 {
      assert (a + b)[1..] == a[1..] + b;
      NonSpaceAppend(a[1..], b);
    } else {
      assert a + b == b;
    }
  }

  lemma {:induction false} NonSpaceOfWord(w: string)
    requires NoSpace(w)
    ensures NonSpace(w) == w
    decreases |w|
  {
    if |w| > 0 {
      NonSpaceOfWord(w[1..]);
      assert w == [w[0]] + w[1..];
    }
  }

  /** Trimming is determined by its result: whatever whitespace surrounds a
      trimmed string, `strip()` gives that string back. */
  lemma TrimUnique(a: string, m: string, b: string)
    requires AllSpace(a) && AllSpace(b) && IsTrimmed(m)
    ensures Trim(a + m + b) == m
  {
    var s := a + m + b;
    if m == [] {
      assert s == a + b;
      assert AllSpace(s) by {
        forall i | 0 <= i < |s| ensures IsSpace(s[i]) {
          if i >= |a| { assert s[i] == b[i - |a|]; }
        }
      }
    } else {
      LeadOfSpaces(a, m + b);
      assert s == a + (m + b);
      assert s[|a|..] == m + b;
      TrimEndOfSpaces(m, b);
    }
  }

  lemma {:induction false} LeadOfSpaces(a: string, rest: string)
    requires AllSpace(a)
    requires rest == [] || !IsSpace(rest[0])
    ensures Lead(a + rest) == |a|
    decreases |a|
  {
    if |a| > 0 {
      assert (a + rest)[1..] == a[1..] + rest;
      LeadOfSpaces(a[1..], rest);
    } else {
      assert a + rest == rest;
    }
  }

  lemma {:induction false} TrimEndOfSpaces(m: string, b: string)
    requires m == [] || !IsSpace(m[|m| - 1])
    requires AllSpace(b)
    ensures TrimEnd(m + b) == m
    decreases |b|
  {
    if |b| > 0 {
      var s := m + b;
      assert s[..|s| - 1] == m + b[..|b| - 1];
      assert s[|s| - 1] == b[|b| - 1];
      TrimEndOfSpaces(m, b[..|b| - 1]);
    } else {
      assert m + b == m;
    }
  }

  /** Stripping twice is stripping once. */
  lemma TrimIdempotent(s: string)
    ensures Trim(Trim(s)) == Trim(s)
  {
    TrimUnique([], Trim(s), []);
    assert [] + Trim(s) + [] == Trim(s);
  }

  lemma {:induction false} WordLenOfWord(w: string, rest: string)
    requires NoSpace(w)
    requires rest == [] || IsSpace(rest[0])
    ensures WordLen(w + rest) == |w|
    decreases |w|
  {
    if |w| > 0 {
      assert (w + rest)[1..] == w[1..] + rest;
      WordLenOfWord(w[1..], rest);
    } else {
      assert w + rest == rest;
    }
  }

  /** A token followed by whitespace (or nothing) is split off whole. */
  lemma SplitWordThen(w: string, rest: string)
    requires |w| > 0 && NoSpace(w)
    requires rest == [] || IsSpace(rest[0])
    ensures Split(w + rest) == [w] + Split(rest)
  {
    WordLenOfWord(w, rest);
    var s := w + rest;
    assert s[..|w|] == w && s[|w|..] == rest;
  }

  /** Whitespace that opens a string produces no token. */
  lemma SplitSkipsSpace(c: char, rest: string)
    requires IsSpace(c)
    ensures Split([c] + rest) == Split(rest)
  {
    assert ([c] + rest)[1..] == rest;
  }

  /** Splitting undoes joining with single spaces: `split()` recovers every
      token list it could have produced. */
  lemma {:induction false} SplitJoin(ws: seq<string>)
    requires Words(ws)
    ensures Split(Join(ws)) == ws
    decreases |ws|
  {
    if |ws| == 0 {
    } else if |ws| == 1 {
      assert ws[0] + [] == ws[0];
      SplitWordThen(ws[0], []);
      assert ws == [ws[0]];
    } else {
      var w, tail := ws[0], ws[1..];
      assert Words(tail) by {
        forall k | 0 <= k < |tail| ensures |tail[k]| > 0 && NoSpace(tail[k]) {
          assert tail[k] == ws[k + 1];
        }
      }
      var rest := Join(tail);
      assert Join(ws) == w + " " + rest;
      assert w + " " + rest == w + (" " + rest);
      SplitWordThen(w, " " + rest);
      SplitSkipsSpace(' ', rest);
      SplitJoin(tail);
      assert ws == [w] + tail;
    }
  }

  /** The tokens of a split, joined back with single spaces, split the same
      way again: `split()` is insensitive to how much whitespace separates tokens. */
  lemma SplitNormalises(s: string)
    ensures Split(Join(Split(s))) == Split(s)
  {
    SplitJoin(Split(s));
  }

  /** Whitespace runs to place around and between tokens: each is
      whitespace, and each one that separates two tokens is non-empty. The
      first and the last may be empty. */
  predicate Separators(gaps: seq<string>) {
    && (forall k | 0 <= k < |gaps| :: AllSpace(gaps[k]))
    && (forall k | 0 < k < |gaps| - 1 :: |gaps[k]| > 0)
  }

  /** `gaps[0] + ws[0] + gaps[1] + ... + ws[n - 1] + gaps[n]`. */
  function Weave(gaps: seq<string>, ws: seq<string>): string
    requires |gaps| == |ws| + 1
    decreases |ws|
  {
    if |ws| == 0 then gaps[0] else gaps[0] + ws[0] + Weave(gaps[1..], ws[1..])
  }

  /** The whitespace runs `split()` discards from `s`, in order, counting the
      possibly empty ones before the first token and after the last. */
  function Gaps(s: string): (gaps: seq<string>)
    ensures |gaps| > 0
    decreases |s|
  {
    if |s| == 0 then [[]]
    else if IsSpace(s[0]) then
      var g := Gaps(s[1..]);
      [[s[0]] + g[0]] + g[1..]
    else
      [[]] + Gaps(s[WordLen(s)..])
  }

  /** `s` is its tokens interleaved with the runs `Gaps` reports. */
  predicate WovenFromSplit(s: string) {
    && |Gaps(s)| == |Split(s)| + 1
    && Separators(Gaps(s))
    && Weave(Gaps(s), Split(s)) == s
  }

  /** `split()` cuts `s` at every whitespace run and nowhere else: `s` is its
      tokens interleaved with whitespace runs, the inner ones non-empty. */
  lemma {:induction false} SplitCutsAtWhitespace(s: string)
    ensures |Gaps(s)| == |Split(s)| + 1
    ensures Separators(Gaps(s))
    ensures Weave(Gaps(s), Split(s)) == s
    decreases |s|
  {
    if |s| == 0 {
    } else if IsSpace(s[0]) {
      SplitCutsAtWhitespace(s[1..]);
      WovenAfterSpace(s);
    } else {
      SplitCutsAtWhitespace(s[WordLen(s)..]);
      WovenAfterWord(s);
    }
  }

  lemma WovenAfterSpace(s: string)
    requires |s| > 0 && IsSpace(s[0]) && WovenFromSplit(s[1..])
    ensures WovenFromSplit(s)
  {
    var rest := s[1..];
    var g, ws := Gaps(rest), Split(rest);
    assert Gaps(s) == [[s[0]] + g[0]] + g[1..] && Split(s) == ws;
    SeparatorsWiden(s[0], g);
    WeaveFirstGap(s[0], g, ws);
    TakeThenDrop(s, 1);
    assert s[..1] == [s[0]];
  }

  lemma WovenAfterWord(s: string)
    requires |s| > 0 && !IsSpace(s[0]) && WovenFromSplit(s[WordLen(s)..])
    ensures WovenFromSplit(s)
  {
    var n := WordLen(s);
    var rest := s[n..];
    var g, ws := Gaps(rest), Split(rest);
    assert Gaps(s) == [[]] + g && Split(s) == [s[..n]] + ws;
    if rest != [] {
      assert rest[0] == s[n];
      GapsOpenWithSpace(rest);
    }
    SeparatorsCons(g);
    WeaveCons(s[..n], g, ws);
    TakeThenDrop(s, n);
  }

  /** A string that opens with whitespace has a non-empty first run. */
  lemma GapsOpenWithSpace(s: string)
    requires |s| > 0 && IsSpace(s[0])
    ensures |Gaps(s)[0]| > 0
  {
  }

  /** An empty run may open the sequence when the old first run separates. */
  lemma SeparatorsCons(g: seq<string>)
    requires Separators(g) && (|g| > 1 ==> |g[0]| > 0)
    ensures Separators([[]] + g)
  {
    var gs := [[]] + g;
    forall k | 0 < k < |gs| ensures gs[k] == g[k - 1] {
    }
  }

  /** Widening the first run by one whitespace character keeps separators. */
  lemma SeparatorsWiden(c: char, g: seq<string>)
    requires IsSpace(c) && |g| > 0 && Separators(g)
    ensures Separators([[c] + g[0]] + g[1..])
  {
    var gs := [[c] + g[0]] + g[1..];
    AllSpaceAppend([c], g[0]);
    forall k | 0 < k < |gs| ensures gs[k] == g[k] {
    }
  }

  lemma WeaveCons(w: string, g: seq<string>, ws: seq<string>)
    requires |g| == |ws| + 1
    ensures Weave([[]] + g, [w] + ws) == w + Weave(g, ws)
  {
    var gs, all := [[]] + g, [w] + ws;
    assert gs[0] == [] && all[0] == w && gs[1..] == g && all[1..] == ws;
    assert [] + w == w;
  }

  lemma WeaveFirstGap(c: char, g: seq<string>, ws: seq<string>)
    requires |g| == |ws| + 1
    ensures Weave([[c] + g[0]] + g[1..], ws) == [c] + Weave(g, ws)
  {
    var first := [c] + g[0];
    var gs := [first] + g[1..];
    if |ws| == 0 {
      assert Weave(gs, ws) == gs[0] == first;
    } else {
      var tail := Weave(g[1..], ws[1..]);
      assert Weave(gs, ws) == first + ws[0] + tail by {
        assert gs[0] == first && gs[1..] == g[1..];
      }
      assert Weave(g, ws) == g[0] + ws[0] + tail;
      ConsAssoc(c, g[0], ws[0], tail);
    }
  }

  lemma TakeThenDrop(s: string, n: nat)
    requires n <= |s|
    ensures s[..n] + s[n..] == s
  {
  }

  lemma ConsAssoc(c: char, x: string, y: string, z: string)
    ensures [c] + x + y + z == [c] + (x + y + z)
  {
  }

  /** Whitespace before a string adds no token. */
  lemma {:induction false} SplitAfterSpaces(a: string, x: string)
    requires AllSpace(a)
    ensures Split(a + x) == Split(x)
    decreases |a|
  {
    if |a| > 0 {
      assert a + x == [a[0]] + (a[1..] + x);
      SplitSkipsSpace(a[0], a[1..] + x);
      SplitAfterSpaces(a[1..], x);
    } else {
      assert a + x == x;
    }
  }

  /** The tokenisation is unique: whichever way a string is written as words
      interleaved with whitespace runs, `split()` returns exactly those words. */
  lemma {:induction false} SplitWeave(gaps: seq<string>, ws: seq<string>)
    requires |gaps| == |ws| + 1 && Separators(gaps) && Words(ws)
    ensures Split(Weave(gaps, ws)) == ws
    decreases |ws|
  {
    if |ws| == 0 {
      SplitEmptyIffAllSpace(gaps[0]);
    } else {
      var gs, tail := gaps[1..], ws[1..];
      SeparatorsTail(gaps);
      WordsTail(ws);
      SplitWeave(gs, tail);
      var rest := Weave(gs, tail);
      WeaveOpensWithSeparator(gaps, ws);
      SplitWordThen(ws[0], rest);
      WeaveUnfold(gaps, ws);
      SplitAfterSpaces(gaps[0], ws[0] + rest);
      assert ws == [ws[0]] + tail;
    }
  }

  lemma SeparatorsTail(gaps: seq<string>)
    requires |gaps| > 0 && Separators(gaps)
    ensures Separators(gaps[1..])
  {
    var gs := gaps[1..];
    forall k | 0 <= k < |gs| ensures gs[k] == gaps[k + 1] {
    }
  }

  lemma WordsTail(ws: seq<string>)
    requires |ws| > 0 && Words(ws)
    ensures Words(ws[1..])
  {
    var tail := ws[1..];
    forall k | 0 <= k < |tail| ensures tail[k] == ws[k + 1] {
    }
  }

  /** After the first gap and word, what follows is empty or opens with whitespace. */
  lemma WeaveOpensWithSeparator(gaps: seq<string>, ws: seq<string>)
    requires |gaps| == |ws| + 1 && |ws| > 0 && Separators(gaps)
    ensures var rest := Weave(gaps[1..], ws[1..]);
      rest == [] || IsSpace(rest[0])
  {
    var gs, tail := gaps[1..], ws[1..];
    var rest := Weave(gs, tail);
    if |tail| == 0 {
      assert rest == gaps[1];
    } else {
      assert gs[0] == gaps[1] && |gaps[1]| > 0;
      assert rest == gs[0] + tail[0] + Weave(gs[1..], tail[1..]);
      assert rest[0] == gaps[1][0];
    }
  }

  lemma WeaveUnfold(gaps: seq<string>, ws: seq<string>)
    requires |gaps| == |ws| + 1 && |ws| > 0
    ensures Weave(gaps, ws) == gaps[0] + (ws[0] + Weave(gaps[1..], ws[1..]))
  {
  }
}
