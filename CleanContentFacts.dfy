/**
  What `cleanContentString` does to content: the escaping and unescaping
  replacements cancel out except on line breaks and on the two-character
  escapes backslash-n and backslash-t, which become real newlines and tabs.
 */
module CleanContentFacts {
  import opened Wrappers
  import opened JsString
  import opened ResponseCleaning

  /** `c` occurs in some pattern of the pass other than as its last character. */
  predicate Inner(c: char, pass: Pass) {
    exists p :: p in pass.pats && c in p[..|p| - 1]
  }

  /** A string whose last character cannot continue any pattern leaves no
      match open at its end. */
  lemma ClosedByLast(u: string, pass: Pass)
    requires u != [] && !Inner(u[|u| - 1], pass)
    ensures ClosedEnd(u, pass.pats)
  {
    forall p | p in pass.pats ensures NoTailPrefix(u, p) {
      forall i | 0 <= i < |u| && |u| - i < |p| ensures p[..|u| - i] != u[i..] {
        var n := |u| - i;
        assert p[n - 1] in p[..|p| - 1];
        assert p[..n][n - 1] == p[n - 1] && u[i..][n - 1] == u[|u| - 1];
      }
    }
  }

  /** A pass whose patterns are single characters never has a match open. */
  lemma ClosedSingle(u: string, pass: Pass)
    requires forall p :: p in pass.pats ==> |p| == 1
    ensures ClosedEnd(u, pass.pats)
  {
  }

  /** Only a carriage return can begin a CRLF. */
  lemma ClosedNewlines(u: string)
    requires u != [] && u[|u| - 1] != '\r'
    ensures ClosedEnd(u, EscapeNewlines.pats)
  {
    var c := u[|u| - 1];
    forall p | p in EscapeNewlines.pats ensures c !in p[..|p| - 1] {
      assert p == "\r\n" || p == "\n";
    }
    ClosedByLast(u, EscapeNewlines);
  }

  /** Only a backslash can begin an escape of the unescaping passes. */
  lemma ClosedUnescape(u: string, pass: Pass)
    requires pass == UnescapeNewlines || pass == UnescapeTabs || pass == UnescapeQuotes
    requires u != [] && u[|u| - 1] != '\\'
    ensures ClosedEnd(u, pass.pats)
  {
    var c := u[|u| - 1];
    forall p | p in pass.pats ensures c !in p[..|p| - 1] {
      assert p == "\\\\n" || p == "\\\\t" || p == "\\\"";
      assert p[..|p| - 1] == "\\\\" || p[..|p| - 1] == "\\";
    }
    ClosedByLast(u, pass);
  }

  /** Only a backtick or a letter of `json` can continue a fence. */
  lemma ClosedFences(u: string)
    requires u != [] && u[|u| - 1] !in "`jso"
    ensures ClosedEnd(u, DropFences.pats)
  {
    var c := u[|u| - 1];
    forall p | p in DropFences.pats ensures c !in p[..|p| - 1] {
      assert p == "```json" || p == "```";
      assert p[..|p| - 1] == "```jso" || p[..|p| - 1] == "``";
    }
    ClosedByLast(u, DropFences);
  }

  // ---------------------------------------------------------------------
  // Backslash-n and backslash-t
  // ---------------------------------------------------------------------

  /** Two characters that neither begin nor form a pattern are kept. */
  lemma KeepPair(a: char, b: char, pass: Pass)
    requires !Starts(a, pass) && !Starts(b, pass) && [a] !in pass.pats && [b] !in pass.pats
    ensures Run([a, b], pass) == [a, b]
  {
    assert [a, b] == [a] + [b];
    RunCons(a, [b], pass);
    RunChar(a, pass);
    RunChar(b, pass);
  }

  lemma EscapeStepOne(x: char)
    requires x == 'n' || x == 't'
    ensures Run(['\\', x], EscapeNewlines) == ['\\', x]
  {
    KeepPair('\\', x, EscapeNewlines);
  }

  lemma EscapeStepTwo(x: char)
    requires x == 'n' || x == 't'
    ensures Run(['\\', x], EscapeTabs) == ['\\', x]
  {
    KeepPair('\\', x, EscapeTabs);
  }

  lemma EscapeStepThree(x: char)
    requires x == 'n' || x == 't'
    ensures Run(['\\', x], EscapeBackslashes) == ['\\', '\\', x]
  {
    RunMapChars(['\\', x], EscapeBackslashes);
  }

  lemma EscapeStepFour(x: char)
    requires x == 'n' || x == 't'
    ensures Run(['\\', '\\', x], EscapeQuotes) == ['\\', '\\', x]
  {
    RunMapChars(['\\', '\\', x], EscapeQuotes);
  }

  lemma UnescapeSteps()
    ensures Run("\\\\n", UnescapeNewlines) == "\n"
    ensures Run("\\\\t", UnescapeNewlines) == "\\\\t"
    ensures Run("\\\\t", UnescapeTabs) == "\t"
  {
    RunWhole("\\\\n", UnescapeNewlines);
    RunWhole("\\\\t", UnescapeTabs);
    var s := "\\\\t";
    assert NoOccurrence(s, UnescapeNewlines.pats) by {
      assert s[0..][..3] == s;
    }
  }

  lemma CharSteps(c: char, tail: seq<Pass>)
    requires forall k :: 0 <= k < |tail| ==> [c] !in tail[k].pats && !Starts(c, tail[k])
    ensures ApplyPasses([c], tail) == [c]
    ensures ClosedAll([c], tail)
    decreases |tail|
  {
    if tail != [] {
      RunChar(c, tail[0]);
      RunCons(c, [], tail[0]);
      CharSteps(c, tail[1..]);
    }
  }

  // ---------------------------------------------------------------------
  // The eight passes of `cleanContentString` on one token
  // ---------------------------------------------------------------------

  /** The chain traced through its nine stages. */
  lemma Trace(s0: string, s1: string, s2: string, s3: string, s4: string,
              s5: string, s6: string, s7: string, s8: string)
    requires Run(s0, EscapeNewlines) == s1 && Run(s1, EscapeTabs) == s2
    requires Run(s2, EscapeBackslashes) == s3 && Run(s3, EscapeQuotes) == s4
    requires Run(s4, UnescapeNewlines) == s5 && Run(s5, UnescapeTabs) == s6
    requires Run(s6, UnescapeQuotes) == s7 && Run(s7, DropFences) == s8
    ensures ApplyPasses(s0, CleanPasses) == s8
  {
    var ps := CleanPasses;
    assert ps[0..] == ps;
    PassStep(s0, ps, 0);
    PassStep(s1, ps, 1);
    PassStep(s2, ps, 2);
    PassStep(s3, ps, 3);
    PassStep(s4, ps, 4);
    PassStep(s5, ps, 5);
    PassStep(s6, ps, 6);
    PassStep(s7, ps, 7);
  }

  /** Pass `k` of a chain, then the passes after it. */
  lemma PassStep(s: string, passes: seq<Pass>, k: nat)
    requires k < |passes|
    ensures ApplyPasses(s, passes[k..]) == ApplyPasses(Run(s, passes[k]), passes[k + 1..])
  {
    assert passes[k..][1..] == passes[k + 1..];
  }

  /** No stage of the chain leaves a match open at its end. */
  lemma TraceClosed(s0: string, s1: string, s2: string, s3: string, s4: string,
                    s5: string, s6: string, s7: string)
    requires Run(s0, EscapeNewlines) == s1 && Run(s1, EscapeTabs) == s2
    requires Run(s2, EscapeBackslashes) == s3 && Run(s3, EscapeQuotes) == s4
    requires Run(s4, UnescapeNewlines) == s5 && Run(s5, UnescapeTabs) == s6
    requires Run(s6, UnescapeQuotes) == s7
    requires ClosedEnd(s0, EscapeNewlines.pats) && ClosedEnd(s1, EscapeTabs.pats)
    requires ClosedEnd(s2, EscapeBackslashes.pats) && ClosedEnd(s3, EscapeQuotes.pats)
    requires ClosedEnd(s4, UnescapeNewlines.pats) && ClosedEnd(s5, UnescapeTabs.pats)
    requires ClosedEnd(s6, UnescapeQuotes.pats) && ClosedEnd(s7, DropFences.pats)
    ensures ClosedAll(s0, CleanPasses)
  {
    var ps := CleanPasses;
    assert ps[8..] == [];
    ClosedStep(s7, Run(s7, DropFences), ps[7..]);
    ClosedStep(s6, s7, ps[6..]);
    ClosedStep(s5, s6, ps[5..]);
    ClosedStep(s4, s5, ps[4..]);
    ClosedStep(s3, s4, ps[3..]);
    ClosedStep(s2, s3, ps[2..]);
    ClosedStep(s1, s2, ps[1..]);
    ClosedStep(s0, s1, ps);
  }

  lemma ClosedStep(u: string, v: string, passes: seq<Pass>)
    requires passes != [] && ClosedEnd(u, passes[0].pats) && Run(u, passes[0]) == v
    requires ClosedAll(v, passes[1..])
    ensures ClosedAll(u, passes)
  {
  }

  /** The stages of backslash-n after the first pass. */
  lemma NewlineStages()
    ensures Run("\\n", EscapeTabs) == "\\n"
    ensures Run("\\n", EscapeBackslashes) == "\\\\n"
    ensures Run("\\\\n", EscapeQuotes) == "\\\\n"
    ensures Run("\\\\n", UnescapeNewlines) == "\n"
    ensures Run("\n", UnescapeTabs) == "\n"
    ensures Run("\n", UnescapeQuotes) == "\n"
    ensures Run("\n", DropFences) == "\n"
  {
    EscapeStepTwo('n');
    EscapeStepThree('n');
    EscapeStepFour('n');
    UnescapeSteps();
    RunChar('\n', UnescapeTabs);
    RunChar('\n', UnescapeQuotes);
    RunChar('\n', DropFences);
  }

  lemma NewlineStagesClosed()
    ensures ClosedEnd("\\n", EscapeTabs.pats)
    ensures ClosedEnd("\\n", EscapeBackslashes.pats)
    ensures ClosedEnd("\\\\n", EscapeQuotes.pats)
    ensures ClosedEnd("\\\\n", UnescapeNewlines.pats)
    ensures ClosedEnd("\n", UnescapeTabs.pats)
    ensures ClosedEnd("\n", UnescapeQuotes.pats)
    ensures ClosedEnd("\n", DropFences.pats)
  {
    ClosedSingle("\\n", EscapeTabs);
    ClosedSingle("\\n", EscapeBackslashes);
    ClosedSingle("\\\\n", EscapeQuotes);
    ClosedUnescape("\\\\n", UnescapeNewlines);
    ClosedUnescape("\n", UnescapeTabs);
    ClosedUnescape("\n", UnescapeQuotes);
    ClosedFences("\n");
  }

  /** Whatever the first pass turns into backslash-n ends as a line feed. */
  lemma LineBreakRest(t: string)
    requires Run(t, EscapeNewlines) == "\\n"
    ensures ApplyPasses(t, CleanPasses) == "\n"
  {
    NewlineStages();
    Trace(t, "\\n", "\\n", "\\\\n", "\\\\n", "\n", "\n", "\n", "\n");
  }

  lemma LineBreakRestClosed(t: string)
    requires Run(t, EscapeNewlines) == "\\n" && ClosedEnd(t, EscapeNewlines.pats)
    ensures ClosedAll(t, CleanPasses)
  {
    NewlineStages();
    NewlineStagesClosed();
    TraceClosed(t, "\\n", "\\n", "\\\\n", "\\\\n", "\n", "\n", "\n");
  }

  /** A line feed, a CRLF and the escape backslash-n all become a line feed. */
  lemma LineBreakToken(t: string)
    requires t == "\n" || t == "\r\n" || t == "\\n"
    ensures ApplyPasses(t, CleanPasses) == "\n"
    ensures ClosedAll(t, CleanPasses)
  {
    if t == "\n" {
      RunChar('\n', EscapeNewlines);
    } else if t == "\r\n" {
      RunWhole(t, EscapeNewlines);
    } else {
      EscapeStepOne('n');
    }
    ClosedByLast(t, EscapeNewlines);
    LineBreakRest(t);
    LineBreakRestClosed(t);
  }

  // ---------------------------------------------------------------------
  // Tabs
  // ---------------------------------------------------------------------

  /** The stages of backslash-t after the second pass. */
  lemma TabStages()
    ensures Run("\\t", EscapeBackslashes) == "\\\\t"
    ensures Run("\\\\t", EscapeQuotes) == "\\\\t"
    ensures Run("\\\\t", UnescapeNewlines) == "\\\\t"
    ensures Run("\\\\t", UnescapeTabs) == "\t"
    ensures Run("\t", UnescapeQuotes) == "\t"
    ensures Run("\t", DropFences) == "\t"
  {
    EscapeStepThree('t');
    EscapeStepFour('t');
    UnescapeSteps();
    RunChar('\t', UnescapeQuotes);
    RunChar('\t', DropFences);
  }

  lemma TabStagesClosed()
    ensures ClosedEnd("\\t", EscapeBackslashes.pats)
    ensures ClosedEnd("\\\\t", EscapeQuotes.pats)
    ensures ClosedEnd("\\\\t", UnescapeNewlines.pats)
    ensures ClosedEnd("\\\\t", UnescapeTabs.pats)
    ensures ClosedEnd("\t", UnescapeQuotes.pats)
    ensures ClosedEnd("\t", DropFences.pats)
  {
    ClosedSingle("\\t", EscapeBackslashes);
    ClosedSingle("\\\\t", EscapeQuotes);
    ClosedUnescape("\\\\t", UnescapeNewlines);
    ClosedUnescape("\\\\t", UnescapeTabs);
    ClosedUnescape("\t", UnescapeQuotes);
    ClosedFences("\t");
  }

  /** A token the first pass keeps and the second turns into backslash-t. */
  lemma TabRest(t: string)
    requires Run(t, EscapeNewlines) == t && Run(t, EscapeTabs) == "\\t"
    ensures ApplyPasses(t, CleanPasses) == "\t"
  {
    TabStages();
    Trace(t, t, "\\t", "\\\\t", "\\\\t", "\\\\t", "\t", "\t", "\t");
  }

  lemma TabRestClosed(t: string)
    requires Run(t, EscapeNewlines) == t && Run(t, EscapeTabs) == "\\t"
    requires ClosedEnd(t, EscapeNewlines.pats) && ClosedEnd(t, EscapeTabs.pats)
    ensures ClosedAll(t, CleanPasses)
  {
    TabStages();
    TabStagesClosed();
    TraceClosed(t, t, "\\t", "\\\\t", "\\\\t", "\\\\t", "\t", "\t");
  }

  /** A tab and the escape backslash-t both become a tab. */
  lemma TabToken(t: string)
    requires t == "\t" || t == "\\t"
    ensures ApplyPasses(t, CleanPasses) == "\t"
    ensures ClosedAll(t, CleanPasses)
  {
    if t == "\t" {
      RunChar('\t', EscapeNewlines);
      RunChar('\t', EscapeTabs);
    } else {
      EscapeStepOne('t');
      EscapeStepTwo('t');
    }
    ClosedByLast(t, EscapeNewlines);
    ClosedByLast(t, EscapeTabs);
    TabRest(t);
    TabRestClosed(t);
  }

  // ---------------------------------------------------------------------
  // Quotes
  // ---------------------------------------------------------------------

  lemma QuoteStages()
    ensures Run("\"", EscapeNewlines) == "\""
    ensures Run("\"", EscapeTabs) == "\""
    ensures Run("\"", EscapeBackslashes) == "\""
    ensures Run("\"", EscapeQuotes) == "\\\""
    ensures Run("\\\"", UnescapeNewlines) == "\\\""
    ensures Run("\\\"", UnescapeTabs) == "\\\""
    ensures Run("\\\"", UnescapeQuotes) == "\""
    ensures Run("\"", DropFences) == "\""
  {
    RunChar('"', EscapeNewlines);
    RunChar('"', EscapeTabs);
    RunChar('"', EscapeBackslashes);
    RunChar('"', EscapeQuotes);
    var e := "\\\"";
    assert NoOccurrence(e, UnescapeNewlines.pats) && NoOccurrence(e, UnescapeTabs.pats) by {
      assert e[0..] == e && e[1..] == "\"";
    }
    RunWhole(e, UnescapeQuotes);
    RunChar('"', DropFences);
  }

  lemma QuoteStagesClosed()
    ensures ClosedEnd("\"", EscapeNewlines.pats)
    ensures ClosedEnd("\"", EscapeTabs.pats)
    ensures ClosedEnd("\"", EscapeBackslashes.pats)
    ensures ClosedEnd("\"", EscapeQuotes.pats)
    ensures ClosedEnd("\\\"", UnescapeNewlines.pats)
    ensures ClosedEnd("\\\"", UnescapeTabs.pats)
    ensures ClosedEnd("\"", UnescapeQuotes.pats)
    ensures ClosedEnd("\"", DropFences.pats)
  {
    ClosedNewlines("\"");
    ClosedSingle("\"", EscapeTabs);
    ClosedSingle("\"", EscapeBackslashes);
    ClosedSingle("\"", EscapeQuotes);
    ClosedUnescape("\\\"", UnescapeNewlines);
    ClosedUnescape("\\\"", UnescapeTabs);
    ClosedUnescape("\"", UnescapeQuotes);
    ClosedFences("\"");
  }

  /** A quote is escaped and then unescaped again. */
  lemma QuoteToken()
    ensures ApplyPasses("\"", CleanPasses) == "\""
    ensures ClosedAll("\"", CleanPasses)
  {
    QuoteStages();
    QuoteStagesClosed();
    Trace("\"", "\"", "\"", "\"", "\\\"", "\\\"", "\\\"", "\"", "\"");
    TraceClosed("\"", "\"", "\"", "\"", "\\\"", "\\\"", "\\\"", "\"");
  }

  // ---------------------------------------------------------------------
  // Every other character
  // ---------------------------------------------------------------------

  /** The characters some pass of the chain reacts to. */
  predicate Special(c: char) {
    c == '\r' || c == '\n' || c == '\t' || c == '\\' || c == '"' || c == '`'
  }

  lemma OtherToken(c: char)
    requires !Special(c)
    ensures ApplyPasses([c], CleanPasses) == [c]
    ensures ClosedAll([c], CleanPasses)
  {
    CharSteps(c, CleanPasses);
  }

  /** A carriage return not followed by a line feed is kept, and no
      replacement reaches across it. */
  lemma LoneReturn(rest: string)
    requires rest == [] || rest[0] != '\n'
    ensures ApplyPasses("\r", CleanPasses) == "\r"
    ensures Separable("\r", rest, CleanPasses)
  {
    var ps := CleanPasses;
    RunChar('\r', EscapeNewlines);
    CharSteps('\r', ps[1..]);
    ClosedAllSeparable("\r", Run(rest, EscapeNewlines), ps[1..]);
    LoneReturnNoStraddle(rest);
  }

  lemma LoneReturnNoStraddle(rest: string)
    requires rest == [] || rest[0] != '\n'
    ensures NoStraddle("\r", rest, EscapeNewlines.pats)
  {
    forall i, p | 0 <= i < 1 && p in EscapeNewlines.pats && 1 - i < |p|
      ensures !StartsWith(("\r" + rest)[i..], p)
    {
      assert p == "\r\n";
      var w := ("\r" + rest)[i..];
      assert |p| <= |w| ==> w[1] == rest[0] && w[..|p|][1] == w[1];
    }
  }

  // ---------------------------------------------------------------------
  // The whole chain on plain content
  // ---------------------------------------------------------------------

  lemma PlainSuffix(s: string, n: nat)
    requires Plain(s) && n <= |s|
    requires n == 0 || s[n - 1] != '\\'
    ensures Plain(s[n..])
  {
    var r := s[n..];
    forall i | 0 <= i < |r| && r[i] == '\\' ensures i + 1 < |r| && (r[i + 1] == 'n' || r[i + 1] == 't') {
      assert s[n + i] == '\\';
    }
  }

  /** On plain content the passes compute exactly the intended reading. */
  lemma {:induction false} PassesPlain(s: string)
    requires Plain(s)
    ensures ApplyPasses(s, CleanPasses) == Decoded(s)
    decreases |s|
  {
    if s != [] {
      var n, d := PlainHead(s);
      var head, tail := s[..n], s[n..];
      PassesPlain(tail);
      Cut(s, n);
      ApplyPassesConcat(head, tail, CleanPasses);
    } else {
      ApplyPassesEmpty(CleanPasses);
    }
  }

  /** The first token of plain content (a CRLF, an escape or one character):
      the passes turn it into its reading, and no replacement crosses its end. */
  lemma PlainHead(s: string) returns (n: nat, d: string)
    requires Plain(s) && s != []
    ensures 1 <= n <= |s| && Plain(s[n..])
    ensures ApplyPasses(s[..n], CleanPasses) == d
    ensures Separable(s[..n], s[n..], CleanPasses)
    ensures Decoded(s) == d + Decoded(s[n..])
  {
    var ps := CleanPasses;
    n := if |s| >= 2 && ((s[0] == '\r' && s[1] == '\n') || s[0] == '\\') then 2 else 1;
    var t, rest := s[..n], s[n..];
    if s[0] == '\\' {
      assert s[1] == 'n' || s[1] == 't';
    }
    PlainSuffix(s, n);
    if n == 2 && s[0] == '\r' {
      assert t == "\r\n";
      d := "\n";
      LineBreakToken(t);
      ClosedAllSeparable(t, rest, ps);
    } else if n == 2 && s[1] == 'n' {
      assert t == "\\n";
      d := "\n";
      LineBreakToken(t);
      ClosedAllSeparable(t, rest, ps);
    } else if n == 2 {
      assert t == "\\t";
      d := "\t";
      TabToken(t);
      ClosedAllSeparable(t, rest, ps);
    } else if s[0] == '\r' {
      assert t == "\r";
      d := t;
      LoneReturn(rest);
    } else if s[0] == '\n' {
      assert t == "\n";
      d := t;
      LineBreakToken(t);
      ClosedAllSeparable(t, rest, ps);
    } else if s[0] == '\t' {
      assert t == "\t";
      d := t;
      TabToken(t);
      ClosedAllSeparable(t, rest, ps);
    } else if s[0] == '"' {
      assert t == "\"";
      d := t;
      QuoteToken();
      ClosedAllSeparable(t, rest, ps);
    } else {
      assert t == [s[0]] && s[0] in s;
      d := t;
      OtherToken(s[0]);
      ClosedAllSeparable(t, rest, ps);
    }
  }

  /** `cleanContentString` on plain content: the escapes and CRLF line
      breaks decoded, then trimmed. */
  lemma CleanContentPlain(s: string)
    requires Plain(s)
    ensures CleanContent(s) == Trim(Decoded(s))
  {
    PassesPlain(s);
  }

  /** Every CRLF turned into LF, as a single replacement pass. */
  const CrlfToLf := Pass(["\r\n"], "\n")

  /** Without backslashes, the intended reading only joins CRLF pairs. */
  lemma {:induction false} DecodedWithoutEscapes(s: string)
    requires '\\' !in s
    ensures Decoded(s) == Run(s, CrlfToLf)
    decreases |s|
  {
    if s != [] {
      assert forall c :: c in s[1..] ==> c in s;
      if |s| >= 2 && s[0] == '\r' && s[1] == '\n' {
        assert forall c :: c in s[2..] ==> c in s;
        assert StartsWith(s, "\r\n");
        DecodedWithoutEscapes(s[2..]);
      } else {
        assert s[0] != '\\';
        assert !StartsWith(s, "\r\n");
        DecodedWithoutEscapes(s[1..]);
      }
    }
  }

  /** Content without backslashes or backticks comes back trimmed, with
      every CRLF turned into LF; quotes, tabs and newlines survive. */
  lemma CleanContentWithoutEscapes(s: string)
    requires '\\' !in s && '`' !in s
    ensures CleanContent(s) == Trim(Run(s, CrlfToLf))
  {
    assert Plain(s);
    CleanContentPlain(s);
    DecodedWithoutEscapes(s);
  }

  /** The escapes backslash-n and backslash-t become a newline and a tab. */
  lemma CleanContentEscapesExample()
    ensures CleanContent("a\\nb\\tc") == "a\nb\tc"
  {
    ExamplePlain();
    CleanContentPlain("a\\nb\\tc");
    ExampleDecoded();
    ExampleTrim();
  }

  lemma ExamplePlain()
    ensures Plain("a\\nb\\tc")
  {
    var s := "a\\nb\\tc";
    forall i | 0 <= i < |s| && s[i] == '\\' ensures i + 1 < |s| && (s[i + 1] == 'n' || s[i + 1] == 't') {
    }
  }

  lemma ExampleDecoded()
    ensures Decoded("a\\nb\\tc") == "a\nb\tc"
  {
    var s := "a\\nb\\tc";
    assert s[1..] == "\\nb\\tc" && s[3..] == "b\\tc" && s[4..] == "\\tc" && s[6..] == "c";
  }

  lemma ExampleTrim()
    ensures Trim("a\nb\tc") == "a\nb\tc"
  {
    TrimNoEdges("a\nb\tc");
  }
}
