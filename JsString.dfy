/**
  The JavaScript string operations the core relies on (`split`, `trim`,
  `indexOf`, `lastIndexOf`, `slice` and `replace` with a global pattern),
  written over `seq<char>`.
 */
module JsString {
  import opened Wrappers

  /** The ECMAScript WhiteSpace and LineTerminator code points: what `trim`
      removes and what the regular-expression class `\s` matches. */
  predicate IsWhitespace(c: char) {
    || c == '\t' || c == '\n' || c == '\U{000B}' || c == '\U{000C}' || c == '\r' || c == ' '
    || c == '\U{00A0}' || c == '\U{1680}' || ('\U{2000}' <= c <= '\U{200A}')
    || c == '\U{2028}' || c == '\U{2029}' || c == '\U{202F}' || c == '\U{205F}'
    || c == '\U{3000}' || c == '\U{FEFF}'
  }

  predicate AllWhitespace(s: string) {
    forall i :: 0 <= i < |s| ==> IsWhitespace(s[i])
  }

  predicate StartsWith(s: string, p: string) {
    |p| <= |s| && s[..|p|] == p
  }

  predicate EndsWith(s: string, p: string) {
    |p| <= |s| && s[|s| - |p|..] == p
  }

  lemma WhitespaceAppend(w: string, c: char)
    requires AllWhitespace(w) && IsWhitespace(c)
    ensures AllWhitespace(w + [c])
  {
    forall i | 0 <= i < |w + [c]| ensures IsWhitespace((w + [c])[i]) {
      if i < |w| {
        assert (w + [c])[i] == w[i];
      }
    }
  }

  lemma WhitespacePrepend(c: char, w: string)
    requires AllWhitespace(w) && IsWhitespace(c)
    ensures AllWhitespace([c] + w)
  {
    forall i | 0 <= i < |[c] + w| ensures IsWhitespace(([c] + w)[i]) {
      if i > 0 {
        assert ([c] + w)[i] == w[i - 1];
      }
    }
  }

  /** `s.trimStart()`: drops the longest all-whitespace prefix. */
  function TrimStart(s: string): (r: string)
    ensures |r| <= |s| && r == s[|s| - |r|..]
    ensures AllWhitespace(s[..|s| - |r|])
    ensures r == [] || !IsWhitespace(r[0])
  {
    if s != [] && IsWhitespace(s[0]) then
      var r := TrimStart(s[1..]);
      WhitespacePrepend(s[0], s[1..][..|s| - 1 - |r|]);
      assert s[..|s| - |r|] == [s[0]] + s[1..][..|s| - 1 - |r|];
      r
    else s
  }

  /** `s.trimEnd()`: drops the longest all-whitespace suffix. */
  function TrimEnd(s: string): (r: string)
    ensures |r| <= |s| && r == s[..|r|]
    ensures AllWhitespace(s[|r|..])
    ensures r == [] || !IsWhitespace(r[|r| - 1])
  {
    if s != [] && IsWhitespace(s[|s| - 1]) then
      var r := TrimEnd(s[..|s| - 1]);
      WhitespaceAppend(s[..|s| - 1][|r|..], s[|s| - 1]);
      assert s[|r|..] == s[..|s| - 1][|r|..] + [s[|s| - 1]];
      r
    else s
  }

  /** `trimStart` removes exactly a whitespace prefix that stops at a
      non-whitespace character. */
  lemma {:induction false} TrimStartPrefix(w: string, x: string)
    requires AllWhitespace(w) && (x == [] || !IsWhitespace(x[0]))
    ensures TrimStart(w + x) == x
    decreases |w|
  {
    if w != [] {
      assert (w + x)[1..] == w[1..] + x;
      TrimStartPrefix(w[1..], x);
    }
  }

  /** `trimEnd` removes exactly a whitespace suffix that follows a
      non-whitespace character. */
  lemma {:induction false} TrimEndSuffix(x: string, w: string)
    requires AllWhitespace(w) && (x == [] || !IsWhitespace(x[|x| - 1]))
    ensures TrimEnd(x + w) == x
    decreases |w|
  {
    if w != [] {
      assert (x + w)[..|x + w| - 1] == x + w[..|w| - 1];
      TrimEndSuffix(x, w[..|w| - 1]);
    }
  }

  /** `s.trim()`: the input with whitespace removed from both ends. */
  function Trim(s: string): (r: string)
    ensures r == [] || (!IsWhitespace(r[0]) && !IsWhitespace(r[|r| - 1]))
    ensures exists i :: 0 <= i <= |s| - |r| && r == s[i..i + |r|]
                        && AllWhitespace(s[..i]) && AllWhitespace(s[i + |r|..])
  {
    var t := TrimStart(s);
    var r := TrimEnd(t);
    TrimWindow(s, t, r, |s| - |t|);
    r
  }

  /** What `trimStart` then `trimEnd` leave is a window of `s` with
      whitespace on both sides. */
  lemma TrimWindow(s: string, t: string, r: string, i: int)
    requires |t| <= |s| && i == |s| - |t| && t == s[i..] && AllWhitespace(s[..i])
    requires |r| <= |t| && r == t[..|r|] && AllWhitespace(t[|r|..])
    requires t == [] || !IsWhitespace(t[0])
    ensures r == [] || !IsWhitespace(r[0])
    ensures exists k :: 0 <= k <= |s| - |r| && r == s[k..k + |r|]
                        && AllWhitespace(s[..k]) && AllWhitespace(s[k + |r|..])
  {
    assert s[i + |r|..] == t[|r|..];
    assert 0 <= i <= |s| - |r| && r == s[i..i + |r|];
    assert r != [] ==> r[0] == t[0];
  }

  /** A string with no whitespace at either end is its own trim. */
  lemma TrimNoEdges(s: string)
    requires s != [] && !IsWhitespace(s[0]) && !IsWhitespace(s[|s| - 1])
    ensures Trim(s) == s
  {
    TrimStartPrefix([], s);
    assert [] + s == s;
    TrimEndSuffix(s, []);
    assert s + [] == s;
  }

  /** `s.split(sep)` for a one-character separator: never empty, and joining
      the parts back with `sep` gives `s`. */
  function Split(s: string, sep: char): (parts: seq<string>)
    ensures |parts| >= 1
    ensures forall i :: 0 <= i < |parts| ==> sep !in parts[i]
    ensures Join(parts, sep) == s
  {
    if s == [] then [[]]
    else
      var rest := Split(s[1..], sep);
      if s[0] == sep then
        assert ([[]] + rest)[1..] == rest;
        [[]] + rest
      else
        var parts := [[s[0]] + rest[0]] + rest[1..];
        assert parts[1..] == rest[1..];
        parts
  }

  /** `parts.join(sep)`. */
  function Join(parts: seq<string>, sep: char): string {
    if |parts| == 0 then []
    else if |parts| == 1 then parts[0]
    else parts[0] + [sep] + Join(parts[1..], sep)
  }

  /** Splitting undoes joining: parts without the separator, joined with
      it, split back into the same parts. */
  lemma {:induction false} SplitJoin(parts: seq<string>, sep: char)
    requires |parts| >= 1
    requires forall i :: 0 <= i < |parts| ==> sep !in parts[i]
    ensures Split(Join(parts, sep), sep) == parts
    decreases |parts|, |parts[0]|
  {
    var p := parts[0];
    if p == [] {
      if |parts| > 1 {
        var rest := parts[1..];
        assert Join(parts, sep) == [sep] + Join(rest, sep);
        assert ([sep] + Join(rest, sep))[1..] == Join(rest, sep);
        SplitJoin(rest, sep);
        assert parts == [[]] + rest;
      }
    } else {
      var shorter := [p[1..]] + parts[1..];
      assert shorter[1..] == parts[1..];
      assert Join(parts, sep) == [p[0]] + Join(shorter, sep);
      assert ([p[0]] + Join(shorter, sep))[1..] == Join(shorter, sep);
      assert p[0] != sep by { assert p[0] in parts[0]; }
      forall i | 0 <= i < |shorter| ensures sep !in shorter[i] {
        if i == 0 {
          assert forall c :: c in p[1..] ==> c in p;
        } else {
          assert shorter[i] == parts[i];
        }
      }
      SplitJoin(shorter, sep);
      assert p == [p[0]] + p[1..];
      assert [[p[0]] + p[1..]] + parts[1..] == parts;
    }
  }

  /** A segment without the separator, followed by the separator, splits
      off as the first part. */
  lemma {:induction false} SplitCons(a: string, sep: char, s: string)
    requires sep !in a
    ensures Split(a + [sep] + s, sep) == [a] + Split(s, sep)
    decreases |a|
  {
    if a == [] {
      assert a + [sep] + s == [sep] + s;
      assert ([sep] + s)[1..] == s;
    } else {
      var t := a + [sep] + s;
      assert t[1..] == a[1..] + [sep] + s && t[0] == a[0];
      SplitCons(a[1..], sep, s);
      assert [a[0]] + a[1..] == a;
    }
  }

  /** `s.indexOf(c)`: the first position holding `c`, or -1. */
  function IndexOf(s: string, c: char): (r: int)
    ensures r == -1 <==> c !in s
    ensures r != -1 ==> 0 <= r < |s| && s[r] == c && c !in s[..r]
  {
    if s == [] then -1
    else if s[0] == c then 0
    else
      var r := IndexOf(s[1..], c);
      if r == -1 then -1
      else
        assert s[..r + 1] == [s[0]] + s[1..][..r];
        r + 1
  }

  /** `s.lastIndexOf(c)`: the last position holding `c`, or -1. */
  function LastIndexOf(s: string, c: char): (r: int)
    ensures r == -1 <==> c !in s
    ensures r != -1 ==> 0 <= r < |s| && s[r] == c && c !in s[r + 1..]
  {
    if s == [] then -1
    else if s[|s| - 1] == c then |s| - 1
    else
      var r := LastIndexOf(s[..|s| - 1], c);
      assert r != -1 ==> s[r + 1..] == s[..|s| - 1][r + 1..] + [s[|s| - 1]];
      assert s == s[..|s| - 1] + [s[|s| - 1]];
      r
  }

  /** `s.slice(start, end)` for non-negative arguments: both are clamped to
      the length, and an empty range gives the empty string. */
  function Slice(s: string, start: nat, end: nat): (r: string)
    ensures start < end <= |s| ==> r == s[start..end]
    ensures start < |s| < end ==> r == s[start..]
    ensures end <= start || |s| <= start ==> r == []
  {
    var a := if start <= |s| then start else |s|;
    var b := if end <= |s| then end else |s|;
    if a < b then s[a..b] else []
  }

  /** A literal alternative of a regular expression: never empty. */
  type Pattern = p: string | p != [] witness "?"

  /** The first of `pats` that `s` starts with, in the order in which a
      regular-expression alternation tries its branches. */
  function FirstMatch(s: string, pats: seq<string>): (r: Option<string>)
    ensures r.Some? ==> r.value in pats && StartsWith(s, r.value)
    ensures r.None? ==> forall p :: p in pats ==> !StartsWith(s, p)
  {
    if pats == [] then None
    else if StartsWith(s, pats[0]) then Some(pats[0])
    else FirstMatch(s, pats[1..])
  }

  /** No pattern of `pats` starts anywhere in `s`. */
  predicate NoOccurrence(s: string, pats: seq<string>) {
    forall i, p :: 0 <= i < |s| && p in pats ==> !StartsWith(s[i..], p)
  }

  /** `s.replace(/p1|p2|.../g, rep)` for literal alternatives: scans from the
      left, replaces each leftmost non-overlapping match and copies every
      other character. Its own contract says only that text without a match
      is unchanged and that nothing but input and replacement text appears;
      what it replaces is fixed by `ReplaceAllConcat` here (a match-free cut
      splits the work) and, for single passes, by `ResponseCleaning.RunChar`
      (one character), `ResponseCleaning.RunWhole` (a string that is itself
      a match) and `ResponseCleaning.RunMapChars` (text in which no character
      begins a longer alternative is replaced character by character). */
  function ReplaceAll(s: string, pats: seq<Pattern>, rep: string): (r: string)
    ensures NoOccurrence(s, pats) ==> r == s
    ensures forall c :: c in r ==> c in s || c in rep
    decreases |s|
  {
    if s == [] then []
    else
      match FirstMatch(s, pats)
      case Some(p) =>
        assert s[0..] == s;
        rep + ReplaceAll(s[|p|..], pats, rep)
      case None =>
        var rest := ReplaceAll(s[1..], pats, rep);
        assert NoOccurrence(s, pats) ==> NoOccurrence(s[1..], pats) by {
          if NoOccurrence(s, pats) {
            forall i, p | 0 <= i < |s[1..]| && p in pats ensures !StartsWith(s[1..][i..], p) {
              assert s[1..][i..] == s[i + 1..];
            }
          }
        }
        assert s == [s[0]] + s[1..];
        [s[0]] + rest
  }

  /** Two strings that match exactly the same patterns pick the same one. */
  lemma {:induction false} FirstMatchAgree(s1: string, s2: string, pats: seq<string>)
    requires forall p :: p in pats ==> (StartsWith(s1, p) <==> StartsWith(s2, p))
    ensures FirstMatch(s1, pats) == FirstMatch(s2, pats)
  {
    if pats != [] {
      FirstMatchAgree(s1, s2, pats[1..]);
    }
  }

  /** No match of a pattern starts inside `u` and ends inside `v`. */
  predicate NoStraddle(u: string, v: string, pats: seq<string>) {
    forall i, p :: 0 <= i < |u| && p in pats && |u| - i < |p| ==> !StartsWith((u + v)[i..], p)
  }

  /** Without a straddling match, `u + v` and `u` start with the same patterns. */
  lemma HeadAgree(u: string, v: string, pats: seq<Pattern>)
    requires u != [] && NoStraddle(u, v, pats)
    ensures FirstMatch(u + v, pats) == FirstMatch(u, pats)
  {
    var uv := u + v;
    forall p | p in pats ensures StartsWith(uv, p) <==> StartsWith(u, p) {
      assert uv[0..] == uv;
      if |p| <= |u| {
        assert uv[..|p|] == u[..|p|];
      }
    }
    FirstMatchAgree(uv, u, pats);
  }

  /** Dropping the first `n` characters of `u` keeps the boundary clean. */
  lemma NoStraddleTail(u: string, v: string, pats: seq<Pattern>, n: nat)
    requires n <= |u| && NoStraddle(u, v, pats)
    ensures (u + v)[n..] == u[n..] + v
    ensures NoStraddle(u[n..], v, pats)
  {
    assert (u + v)[n..] == u[n..] + v;
    forall i, q | 0 <= i < |u[n..]| && q in pats && |u[n..]| - i < |q| ensures !StartsWith((u[n..] + v)[i..], q) {
      assert (u[n..] + v)[i..] == (u + v)[i + n..];
    }
  }

  /** Replacing in `u + v` is replacing in `u` and in `v` separately, when no
      match crosses the boundary. */
  lemma {:induction false} ReplaceAllConcat(u: string, v: string, pats: seq<Pattern>, rep: string)
    requires NoStraddle(u, v, pats)
    ensures ReplaceAll(u + v, pats, rep) == ReplaceAll(u, pats, rep) + ReplaceAll(v, pats, rep)
    decreases |u|
  {
    if u == [] {
      assert u + v == v;
    } else {
      HeadAgree(u, v, pats);
      match FirstMatch(u, pats)
      case Some(p) =>
        NoStraddleTail(u, v, pats, |p|);
        ReplaceAllConcat(u[|p|..], v, pats, rep);
        ConcatMatched(u, v, pats, rep, p);
      case None =>
        NoStraddleTail(u, v, pats, 1);
        ReplaceAllConcat(u[1..], v, pats, rep);
        ConcatCopied(u, v, pats, rep);
    }
  }

  /** The step of `ReplaceAllConcat` where `u` starts with a match `p`. */
  lemma ConcatMatched(u: string, v: string, pats: seq<Pattern>, rep: string, p: Pattern)
    requires u != [] && FirstMatch(u + v, pats) == FirstMatch(u, pats) == Some(p)
    requires (u + v)[|p|..] == u[|p|..] + v
    requires ReplaceAll(u[|p|..] + v, pats, rep) == ReplaceAll(u[|p|..], pats, rep) + ReplaceAll(v, pats, rep)
    ensures ReplaceAll(u + v, pats, rep) == ReplaceAll(u, pats, rep) + ReplaceAll(v, pats, rep)
  {
    var a := ReplaceAll(u[|p|..], pats, rep);
    var b := ReplaceAll(v, pats, rep);
    UnfoldMatched(u + v, pats, rep, p);
    UnfoldMatched(u, pats, rep, p);
    assert ReplaceAll(u + v, pats, rep) == rep + (a + b);
    Assoc(rep, a, b);
  }

  /** The step of `ReplaceAllConcat` where the first character of `u` is copied. */
  lemma ConcatCopied(u: string, v: string, pats: seq<Pattern>, rep: string)
    requires u != [] && FirstMatch(u + v, pats) == FirstMatch(u, pats) == None
    requires (u + v)[1..] == u[1..] + v
    requires ReplaceAll(u[1..] + v, pats, rep) == ReplaceAll(u[1..], pats, rep) + ReplaceAll(v, pats, rep)
    ensures ReplaceAll(u + v, pats, rep) == ReplaceAll(u, pats, rep) + ReplaceAll(v, pats, rep)
  {
    var a := ReplaceAll(u[1..], pats, rep);
    var b := ReplaceAll(v, pats, rep);
    UnfoldCopied(u + v, pats, rep);
    UnfoldCopied(u, pats, rep);
    assert (u + v)[0] == u[0];
    assert ReplaceAll(u + v, pats, rep) == [u[0]] + (a + b);
    Assoc([u[0]], a, b);
  }

  /** A sequence is its prefix followed by the rest. */
  lemma Cut<T>(s: seq<T>, k: nat)
    requires k <= |s|
    ensures s == s[..k] + s[k..]
  {
  }

  /** Concatenation is associative (stated once, so that proofs do not
      have to rediscover it element by element). */
  lemma Assoc(x: string, y: string, z: string)
    ensures x + (y + z) == (x + y) + z
  {
  }

  /** `ReplaceAll` on a string that starts with the match `p`. */
  lemma UnfoldMatched(s: string, pats: seq<Pattern>, rep: string, p: Pattern)
    requires s != [] && FirstMatch(s, pats) == Some(p)
    ensures ReplaceAll(s, pats, rep) == rep + ReplaceAll(s[|p|..], pats, rep)
  {
  }

  /** `ReplaceAll` on a string that starts with no match. */
  lemma UnfoldCopied(s: string, pats: seq<Pattern>, rep: string)
    requires s != [] && FirstMatch(s, pats) == None
    ensures ReplaceAll(s, pats, rep) == [s[0]] + ReplaceAll(s[1..], pats, rep)
  {
  }

  /** No nonempty tail of `u` is a proper prefix of a pattern. */
  predicate ClosedEnd(u: string, pats: seq<string>) {
    forall p :: p in pats ==> NoTailPrefix(u, p)
  }

  /** No non-empty tail of `u` is a proper prefix of `p`. */
  predicate NoTailPrefix(u: string, p: string) {
    forall i :: 0 <= i < |u| && |u| - i < |p| ==> p[..|u| - i] != u[i..]
  }

  lemma ClosedEndNoStraddle(u: string, v: string, pats: seq<string>)
    requires ClosedEnd(u, pats)
    ensures NoStraddle(u, v, pats)
  {
    forall i, p | 0 <= i < |u| && p in pats && |u| - i < |p| ensures !StartsWith((u + v)[i..], p) {
      var w := (u + v)[i..];
      assert w[..|u| - i] == u[i..];
      assert |p| <= |w| ==> w[..|p|][..|u| - i] == w[..|u| - i];
    }
  }
}
