/**
 * The handful of Python `str` operations the translation service relies on,
 * written out over `seq<char>`: `isspace`, ASCII `upper`/`lower`, `strip`,
 * whitespace `split`, `join`, `replace`, substring `in`, `split('/')[-1]`
 * and decimal formatting of a non-negative integer.
 */
module Text {

  /** Python's `str.isspace()` for one character. */
  predicate IsSpace(c: char) {
    || c == ' '
    || ('\t' <= c <= '\r')
    || ('\U{1C}' <= c <= '\U{1F}')
    || c == '\U{85}' || c == '\U{A0}' || c == '\U{1680}'
    || ('\U{2000}' <= c <= '\U{200A}')
    || c == '\U{2028}' || c == '\U{2029}' || c == '\U{202F}' || c == '\U{205F}' || c == '\U{3000}'
  }

  predicate NotSpace(c: char) { !IsSpace(c) }

  predicate IsLowerAscii(c: char) { 'a' <= c <= 'z' }

  predicate IsUpperAscii(c: char) { 'A' <= c <= 'Z' }

  /** No character of `s` is a lower-case ASCII letter. */
  predicate NoLower(s: string) {
    forall i :: 0 <= i < |s| ==> !IsLowerAscii(s[i])
  }

  function ToUpperChar(c: char): (u: char)
    ensures !IsLowerAscii(u)
    ensures !IsLowerAscii(c) ==> u == c
  {
    if IsLowerAscii(c) then (c as int - 32) as char else c
  }

  function ToLowerChar(c: char): (l: char)
    ensures !IsUpperAscii(l)
    ensures !IsUpperAscii(c) ==> l == c
  {
    if IsUpperAscii(c) then (c as int + 32) as char else c
  }

  /** `s.upper()`, restricted to ASCII letters. */
  function Upper(s: string): (r: string)
    ensures |r| == |s| && NoLower(r)
  {
    seq(|s|, i requires 0 <= i < |s| => ToUpperChar(s[i]))
  }

  /** `s.lower()`, restricted to ASCII letters. */
  function Lower(s: string): (r: string)
    ensures |r| == |s|
    ensures forall i :: 0 <= i < |r| ==> !IsUpperAscii(r[i])
  {
    seq(|s|, i requires 0 <= i < |s| => ToLowerChar(s[i]))
  }

  lemma UpperIdempotent(s: string)
    ensures Upper(Upper(s)) == Upper(s)
  {
  }

  /** Number of leading characters of `s` that satisfy `p`. */
  function LeadCount(s: string, p: char -> bool): (n: nat)
    ensures n <= |s|
    ensures forall i :: 0 <= i < n ==> p(s[i])
    ensures n < |s| ==> !p(s[n])
  {
    if s == [] || !p(s[0]) then 0 else 1 + LeadCount(s[1..], p)
  }

  /** Number of trailing characters of `s` that satisfy `p`. */
  function TrailCount(s: string, p: char -> bool): (n: nat)
    ensures n <= |s|
    ensures forall i :: |s| - n <= i < |s| ==> p(s[i])
    ensures n < |s| ==> !p(s[|s| - 1 - n])
  {
    if s == [] || !p(s[|s| - 1]) then 0 else 1 + TrailCount(s[..|s| - 1], p)
  }

  /**
   * `s.strip(chars)`: the longest slice of `s` whose first and last
   * characters do not satisfy `p`, after dropping a run of `p` characters on
   * each side.
   */
  function StripBy(s: string, p: char -> bool): (r: string)
    ensures LeadCount(s, p) + |r| <= |s|
    ensures r == s[LeadCount(s, p)..LeadCount(s, p) + |r|]
    ensures forall i :: LeadCount(s, p) + |r| <= i < |s| ==> p(s[i])
    ensures r != [] ==> !p(r[0]) && !p(r[|r| - 1])
    ensures r == [] <==> forall i :: 0 <= i < |s| ==> p(s[i])
  {
    var t := s[LeadCount(s, p)..];
    t[..|t| - TrailCount(t, p)]
  }

  /** `s.strip()` with no argument: removes leading and trailing whitespace. */
  function Strip(s: string): (r: string)
    ensures |r| <= |s|
    ensures r != [] ==> !IsSpace(r[0]) && !IsSpace(r[|r| - 1])
    ensures r == [] <==> forall i :: 0 <= i < |s| ==> IsSpace(s[i])
  {
    StripBy(s, IsSpace)
  }

  /** A string whose ends do not satisfy `p` is its own strip. */
  lemma StripByNoop(s: string, p: char -> bool)
    requires s != [] && !p(s[0]) && !p(s[|s| - 1])
    ensures StripBy(s, p) == s
  {
    assert LeadCount(s, p) == 0;
    assert s[0..] == s;
    assert TrailCount(s, p) == 0;
  }

  lemma StripByIdempotent(s: string, p: char -> bool)
    ensures StripBy(StripBy(s, p), p) == StripBy(s, p)
  {
    var r := StripBy(s, p);
    if r != [] {
      StripByNoop(r, p);
    }
  }

  /** A non-empty run of non-whitespace characters: what `split()` yields. */
  predicate IsWord(w: string) {
    w != [] && forall i :: 0 <= i < |w| ==> !IsSpace(w[i])
  }

  /** `s.split()` with no argument: the maximal runs of non-whitespace, in order. */
  function Split(s: string): (ws: seq<string>)
    ensures forall i :: 0 <= i < |ws| ==> IsWord(ws[i])
    ensures ws == [] <==> forall i :: 0 <= i < |s| ==> IsSpace(s[i])
    decreases |s|
  {
    var a := LeadCount(s, IsSpace);
    if a == |s| then
      assert forall i :: 0 <= i < |s| ==> IsSpace(s[i]);
      []
    else
      var t := s[a..];
      assert !IsSpace(s[a]) && t[0] == s[a];
      var n := LeadCount(t, NotSpace);
      assert IsWord(t[..n]) by {
        assert n > 0 by { assert NotSpace(t[0]); }
        assert forall i :: 0 <= i < n ==> NotSpace(t[i]);
      }
      var rest := Split(t[n..]);
      WordsCons(t[..n], rest);
      [t[..n]] + rest
  }

  lemma WordsCons(w: string, ws: seq<string>)
    requires IsWord(w) && forall i :: 0 <= i < |ws| ==> IsWord(ws[i])
    ensures forall i :: 0 <= i < |[w] + ws| ==> IsWord(([w] + ws)[i])
  {
    forall i | 0 <= i < |[w] + ws| ensures IsWord(([w] + ws)[i]) {
      if i > 0 {
        assert ([w] + ws)[i] == ws[i - 1];
      }
    }
  }

  /** `sep.join(ws)`: it starts with the first word. */
  function Join(ws: seq<string>, sep: string): (r: string)
    ensures ws != [] ==> |ws[0]| <= |r| && r[..|ws[0]|] == ws[0]
  {
    if ws == [] then []
    else if |ws| == 1 then ws[0]
    else
      ws[0] + sep + Join(ws[1..], sep)
  }

  lemma {:induction false} JoinNoLower(ws: seq<string>, sep: string)
    requires NoLower(sep)
    requires forall i :: 0 <= i < |ws| ==> NoLower(ws[i])
    ensures NoLower(Join(ws, sep))
  {
    if |ws| > 1 {
      JoinNoLower(ws[1..], sep);
    }
  }

  lemma {:induction false} LeadCountOfWord(w: string, rest: string, p: char -> bool)
    requires forall i :: 0 <= i < |w| ==> p(w[i])
    requires rest != [] ==> !p(rest[0])
    ensures LeadCount(w + rest, p) == |w|
  {
    if w != [] {
      assert (w + rest)[1..] == w[1..] + rest;
      LeadCountOfWord(w[1..], rest, p);
    } else {
      assert w + rest == rest;
    }
  }

  lemma SplitSkipsSpace(c: char, s: string)
    requires IsSpace(c)
    ensures Split([c] + s) == Split(s)
  {
    var cs := [c] + s;
    assert cs[1..] == s;
    assert LeadCount(cs, IsSpace) == 1 + LeadCount(s, IsSpace);
    var a := LeadCount(s, IsSpace);
    if a < |s| {
      assert cs[a + 1..] == s[a..];
    }
  }

  lemma SplitOfWordThen(w: string, rest: string)
    requires IsWord(w)
    requires rest != [] ==> IsSpace(rest[0])
    ensures Split(w + rest) == [w] + Split(rest)
  {
    var s := w + rest;
    assert s[0] == w[0];
    assert LeadCount(s, IsSpace) == 0;
    assert s[0..] == s;
    LeadCountOfWord(w, rest, NotSpace);
    assert s[..|w|] == w;
    assert s[|w|..] == rest;
  }

  /** Splitting the single-space join of words gives the words back. */
  lemma {:induction false} SplitJoin(ws: seq<string>)
    requires forall i :: 0 <= i < |ws| ==> IsWord(ws[i])
    ensures Split(Join(ws, " ")) == ws
  {
    if |ws| == 1 {
      SplitOfWordThen(ws[0], []);
      assert ws[0] + [] == ws[0];
    } else if |ws| > 1 {
      var tail := Join(ws[1..], " ");
      WordsTail(ws);
      SplitJoin(ws[1..]);
      SplitJoinStep(ws[0], tail);
      assert Join(ws, " ") == ws[0] + " " + tail;
      assert ws == [ws[0]] + ws[1..];
    }
  }

  lemma WordsTail(ws: seq<string>)
    requires ws != [] && forall i :: 0 <= i < |ws| ==> IsWord(ws[i])
    ensures forall i :: 0 <= i < |ws[1..]| ==> IsWord(ws[1..][i])
  {
    forall i | 0 <= i < |ws[1..]| ensures IsWord(ws[1..][i]) {
      assert ws[1..][i] == ws[i + 1];
    }
  }

  /** A word, a space and then any text split into the word and the text's parts. */
  lemma SplitJoinStep(w: string, tail: string)
    requires IsWord(w)
    ensures Split(w + " " + tail) == [w] + Split(tail)
  {
    var rest := [' '] + tail;
    assert w + " " + tail == w + rest;
    SplitOfWordThen(w, rest);
    SplitSkipsSpace(' ', tail);
  }

  /** `pat` occurs in `s` starting at index `k`. */
  predicate OccursAt(s: string, pat: string, k: nat) {
    k + |pat| <= |s| && s[k..k + |pat|] == pat
  }

  /** An occurrence in the tail of `s` is an occurrence in `s` one place later. */
  lemma OccursAtTail(s: string, pat: string, k: nat)
    requires s != []
    ensures OccursAt(s[1..], pat, k) <==> OccursAt(s, pat, k + 1)
  {
    if k + 1 + |pat| <= |s| {
      assert s[1..][k..k + |pat|] == s[k + 1..k + 1 + |pat|];
    }
  }

  /** Python's substring test `pat in s`: `pat` occurs somewhere in `s`. */
  predicate Contains(s: string, pat: string)
    ensures Contains(s, pat) <==> exists k: nat :: OccursAt(s, pat, k)
    decreases |s|
  {
    if pat <= s then
      assert OccursAt(s, pat, 0);
      true
    else if s == [] then
      assert forall k: nat :: !OccursAt(s, pat, k);
      false
    else
      assert !OccursAt(s, pat, 0);
      assert forall k: nat :: OccursAt(s[1..], pat, k) <==> OccursAt(s, pat, k + 1) by {
        forall k: nat ensures OccursAt(s[1..], pat, k) <==> OccursAt(s, pat, k + 1) {
          OccursAtTail(s, pat, k);
        }
      }
      assert (exists k: nat :: OccursAt(s, pat, k)) ==> exists k: nat :: OccursAt(s[1..], pat, k) by {
        if exists k: nat :: OccursAt(s, pat, k) {
          var k: nat :| OccursAt(s, pat, k);
          assert OccursAt(s[1..], pat, k - 1);
        }
      }
      Contains(s[1..], pat)
  }

  /**
   * `s.replace(pat, rep)`: scan left to right, replacing each occurrence of
   * `pat` and resuming after it (occurrences never overlap).
   */
  function ReplaceAll(s: string, pat: string, rep: string): (r: string)
    requires pat != []
    ensures |rep| <= |pat| ==> |r| <= |s|
    decreases |s|
  {
    if |s| < |pat| then s
    else if s[..|pat|] == pat then rep + ReplaceAll(s[|pat|..], pat, rep)
    else [s[0]] + ReplaceAll(s[1..], pat, rep)
  }

  lemma {:induction false} ReplaceAllNoLower(s: string, pat: string, rep: string)
    requires pat != []
    requires NoLower(s) && NoLower(rep)
    ensures NoLower(ReplaceAll(s, pat, rep))
    decreases |s|
  {
    if |s| >= |pat| {
      if s[..|pat|] == pat {
        ReplaceAllNoLower(s[|pat|..], pat, rep);
      } else {
        ReplaceAllNoLower(s[1..], pat, rep);
      }
    }
  }

  /** Where the pattern occurs nowhere, `replace` changes nothing. */
  lemma {:induction false} ReplaceAllAbsent(s: string, pat: string, rep: string)
    requires pat != [] && !Contains(s, pat)
    ensures ReplaceAll(s, pat, rep) == s
    decreases |s|
  {
    if |s| >= |pat| {
      assert !OccursAt(s, pat, 0);
      assert s[..|pat|] != pat;
      assert !Contains(s[1..], pat);
      ReplaceAllAbsent(s[1..], pat, rep);
      assert s == [s[0]] + s[1..];
    }
  }

  /** No occurrence can start inside a prefix that lacks the pattern's first character. */
  lemma {:induction false} ReplaceAllKeepsPrefix(u: string, v: string, pat: string, rep: string)
    requires pat != []
    requires forall i :: 0 <= i < |u| ==> u[i] != pat[0]
    ensures ReplaceAll(u + v, pat, rep) == u + ReplaceAll(v, pat, rep)
    decreases |u|
  {
    var s := u + v;
    if u == [] {
      assert s == v;
    } else {
      assert s[1..] == u[1..] + v;
      ReplaceAllKeepsPrefix(u[1..], v, pat, rep);
      if |s| < |pat| {
        assert ReplaceAll(s[1..], pat, rep) == s[1..];
        assert ReplaceAll(v, pat, rep) == v;
      } else {
        assert s[..|pat|] != pat by {
          assert s[..|pat|][0] == u[0];
        }
        assert ReplaceAll(s, pat, rep) == [s[0]] + ReplaceAll(s[1..], pat, rep);
        assert [s[0]] + u[1..] == u;
      }
    }
  }

  lemma {:induction false} ReplaceAllNoMatch(u: string, pat: string, rep: string)
    requires pat != []
    requires forall i :: 0 <= i < |u| ==> u[i] != pat[|pat| - 1]
    ensures ReplaceAll(u, pat, rep) == u
    decreases |u|
  {
    if |u| >= |pat| {
      assert u[..|pat|][|pat| - 1] == u[|pat| - 1];
      ReplaceAllNoMatch(u[1..], pat, rep);
      assert u == [u[0]] + u[1..];
    }
  }

  /**
   * `replace` does replace: the first occurrence, when nothing before it can
   * start one, becomes the replacement, and the scan resumes after it.
   */
  lemma ReplaceAllAtOccurrence(u: string, v: string, pat: string, rep: string)
    requires pat != []
    requires forall i :: 0 <= i < |u| ==> u[i] != pat[0]
    ensures ReplaceAll(u + pat + v, pat, rep) == u + rep + ReplaceAll(v, pat, rep)
  {
    assert u + pat + v == u + (pat + v);
    ReplaceAllKeepsPrefix(u, pat + v, pat, rep);
    assert (pat + v)[..|pat|] == pat;
    assert (pat + v)[|pat|..] == v;
  }

  /** No occurrence can end inside a suffix that lacks the pattern's last character. */
  lemma {:induction false} ReplaceAllKeepsSuffix(v: string, u: string, pat: string, rep: string)
    requires pat != []
    requires forall i :: 0 <= i < |u| ==> u[i] != pat[|pat| - 1]
    ensures ReplaceAll(v + u, pat, rep) == ReplaceAll(v, pat, rep) + u
    decreases |v|
  {
    var s := v + u;
    if v == [] {
      assert s == u;
      ReplaceAllNoMatch(u, pat, rep);
    } else if |s| < |pat| {
    } else if s[..|pat|] == pat {
      assert s[|pat| - 1] == pat[|pat| - 1];
      assert |pat| - 1 < |v|;
      assert v[..|pat|] == pat;
      assert s[|pat|..] == v[|pat|..] + u;
      ReplaceAllKeepsSuffix(v[|pat|..], u, pat, rep);
    } else {
      assert s[1..] == v[1..] + u;
      ReplaceAllKeepsSuffix(v[1..], u, pat, rep);
      if |v| >= |pat| {
        assert v[..|pat|] == s[..|pat|];
      } else {
        assert ReplaceAll(v[1..], pat, rep) == v[1..];
        assert v == [v[0]] + v[1..];
      }
    }
  }

  function DigitChar(d: nat): (c: char)
    requires d < 10
    ensures '0' <= c <= '9'
  {
    ('0' as int + d) as char
  }

  /** A space and a space-free tail survive any pattern of two or more characters that ends in a space. */
  lemma ReplaceAllSpaceThen(v: string, pat: string, rep: string)
    requires |pat| >= 2 && pat[|pat| - 1] == ' ' && ' ' !in v
    ensures ReplaceAll(" " + v, pat, rep) == " " + v
  {
    ReplaceAllKeepsSuffix(" ", v, pat, rep);
  }

  /**
   * The pattern " P " does not match at a space followed by a different
   * space-free word w and a space.
   */
  lemma ReplaceAllSkipsWord(w: string, v: string, p: string, rep: string)
    requires ' ' !in w && ' ' !in v && ' ' !in p && w != p
    ensures ReplaceAll(" " + w + " " + v, " " + p + " ", rep) == " " + w + " " + v
  {
    var s := " " + w + " " + v;
    var pat := " " + p + " ";
    if |s| >= |pat| {
      var k: nat;
      if |w| < |p| {
        k := 1 + |w|;
        assert s[k] == ' ' && pat[k] == p[|w|];
      } else if |w| > |p| {
        k := 1 + |p|;
        assert s[k] == w[|p|] && pat[k] == ' ';
      } else {
        var i :| 0 <= i < |w| && w[i] != p[i];
        k := 1 + i;
        assert s[k] == w[i] && pat[k] == p[i];
      }
      assert s[..|pat|][k] != pat[k];
      assert s[1..] == w + (" " + v);
      ReplaceAllKeepsPrefix(w, " " + v, pat, rep);
      ReplaceAllSpaceThen(v, pat, rep);
    }
  }

  /**
   * Around a space-free word w between space-free u and v, the pattern
   * " p " replaces " w " when w is p and changes nothing otherwise.
   */
  lemma ReplaceAllWordStep(u: string, w: string, v: string, p: string, rep: string)
    requires ' ' !in u && ' ' !in w && ' ' !in v && ' ' !in p
    ensures ReplaceAll(u + " " + w + " " + v, " " + p + " ", rep) ==
      if w == p then u + rep + v else u + " " + w + " " + v
  {
    var pat := " " + p + " ";
    if w == p {
      assert u + " " + w + " " + v == u + pat + v;
      ReplaceAllAtOccurrence(u, v, pat, rep);
      ReplaceAllNoMatch(v, pat, rep);
    } else {
      assert u + " " + w + " " + v == u + (" " + w + " " + v);
      ReplaceAllKeepsPrefix(u, " " + w + " " + v, pat, rep);
      ReplaceAllSkipsWord(w, v, p, rep);
    }
  }

  /** A single space between two space-free words survives any pattern " p ". */
  lemma ReplaceAllOneSpace(u: string, v: string, p: string, rep: string)
    requires ' ' !in u && ' ' !in v
    ensures ReplaceAll(u + " " + v, " " + p + " ", rep) == u + " " + v
  {
    assert u + " " + v == u + (" " + v);
    ReplaceAllKeepsPrefix(u, " " + v, " " + p + " ", rep);
    ReplaceAllSpaceThen(v, " " + p + " ", rep);
  }

  /** The number a string of decimal digits denotes. */
  function DecimalValue(s: string): int
    decreases |s|
  {
    if s == [] then 0 else DecimalValue(s[..|s| - 1]) * 10 + (s[|s| - 1] as int - '0' as int)
  }

  /**
   * `str(n)` for a non-negative integer: decimal digits that denote `n`,
   * without a leading zero.
   */
  function NatToString(n: nat): (r: string)
    ensures r != []
    ensures forall i :: 0 <= i < |r| ==> '0' <= r[i] <= '9'
    ensures DecimalValue(r) == n
    ensures r[0] == '0' ==> r == "0"
    decreases n
  {
    if n < 10 then [DigitChar(n)]
    else
      var init := NatToString(n / 10);
      var r := init + [DigitChar(n % 10)];
      assert r[..|r| - 1] == init;
      r
  }

  /**
   * `s.split(sep)[-1]`: the part of `s` after its last `sep`, or all of `s`
   * when `sep` does not occur.
   */
  function LastSegment(s: string, sep: char): (r: string)
    ensures |r| <= |s| && r == s[|s| - |r|..]
    ensures sep !in r
    ensures |r| < |s| ==> s[|s| - |r| - 1] == sep
    decreases |s|
  {
    if s == [] then []
    else if s[|s| - 1] == sep then []
    else
      var init := s[..|s| - 1];
      var r := LastSegment(init, sep);
      assert r == s[|s| - 1 - |r|..|s| - 1];
      r + [s[|s| - 1]]
  }

  lemma {:induction false} LastSegmentAfter(a: string, sep: char, b: string)
    requires sep !in b
    ensures LastSegment(a + [sep] + b, sep) == b
    decreases |b|
  {
    var s := a + [sep] + b;
    if b != [] {
      assert s[..|s| - 1] == a + [sep] + b[..|b| - 1];
      LastSegmentAfter(a, sep, b[..|b| - 1]);
      assert b == b[..|b| - 1] + [b[|b| - 1]];
    } else {
      assert s[|s| - 1] == sep;
    }
  }
}
