/**
  What `prepareJsonResponse` keeps: the span between the first `{` and the
  last `}` of the filtered text, and nothing it returns changes when it is
  prepared again.
 */
module PrepareJsonFacts {
  import opened Wrappers
  import opened JsString
  import opened ResponseCleaning

  /** `i` is the first `{` and `j` the last `}` of `f`. */
  predicate Braces(f: string, i: nat, j: nat) {
    i < |f| && j < |f| && f[i] == '{' && '{' !in f[..i] && f[j] == '}' && '}' !in f[j + 1..]
  }

  /** The result is the text from the first `{` to the last `}` inclusive,
      and the empty string when the last `}` comes before the first `{`. */
  lemma BraceSpanBetween(f: string, i: nat, j: nat)
    requires Braces(f, i, j)
    ensures i < j ==> BraceSpan(f) == Success(f[i..j + 1])
    ensures j < i ==> BraceSpan(f) == Success([])
  {
    var a, b := IndexOf(f, '{'), LastIndexOf(f, '}');
    assert f[i] in f && f[j] in f;
    assert a == i;
    assert b == j;
  }

  lemma PrepareSpan(s: string, i: nat, j: nat)
    requires Braces(Filtered(s), i, j)
    ensures i < j ==> PrepareJsonResponse(s) == Success(Filtered(s)[i..j + 1])
    ensures j < i ==> PrepareJsonResponse(s) == Success([])
  {
    BraceSpanBetween(Filtered(s), i, j);
  }

  /** A text that starts with `{` and ends with `}` is its own span. */
  lemma BraceSpanWhole(v: string)
    requires |v| >= 2 && v[0] == '{' && v[|v| - 1] == '}'
    ensures BraceSpan(v) == Success(v)
  {
    assert v[..0] == [] && v[|v|..] == [];
    BraceSpanBetween(v, 0, |v| - 1);
    assert v[0..|v|] == v;
  }

  /** A non-empty span starts with `{` and ends with `}`. */
  lemma BraceSpanBraced(f: string)
    requires BraceSpan(f).Success? && BraceSpan(f).value != []
    ensures var v := BraceSpan(f).value; |v| >= 2 && v[0] == '{' && v[|v| - 1] == '}'
  {
  }

  /** A non-empty result starts with `{` and ends with `}`. */
  lemma PrepareBraced(s: string)
    requires PrepareJsonResponse(s).Success? && PrepareJsonResponse(s).value != []
    ensures var v := PrepareJsonResponse(s).value; |v| >= 2 && v[0] == '{' && v[|v| - 1] == '}'
  {
    BraceSpanBraced(Filtered(s));
  }

  /** Printable text that starts with `{` and ends with `}` passes through
      `prepareJsonResponse` unchanged. */
  lemma PrepareObject(v: string)
    requires |v| >= 2 && v[0] == '{' && v[|v| - 1] == '}'
    requires forall c :: c in v ==> IsPrintable(c)
    ensures PrepareJsonResponse(v) == Success(v)
  {
    assert !StartsWith(v, JsonFence) by {
      assert |JsonFence| <= |v| ==> v[..|JsonFence|][0] == v[0];
    }
    assert !EndsWith(v, Fence) by {
      assert |Fence| <= |v| ==> v[|v| - |Fence|..][|Fence| - 1] == v[|v| - 1];
    }
    assert Filtered(v) == v;
    BraceSpanWhole(v);
  }

  /** Preparing a non-empty result again gives it back unchanged. */
  lemma PrepareIdempotent(s: string)
    requires PrepareJsonResponse(s).Success? && PrepareJsonResponse(s).value != []
    ensures PrepareJsonResponse(PrepareJsonResponse(s).value) == PrepareJsonResponse(s)
  {
    PrepareBraced(s);
    PrepareObject(PrepareJsonResponse(s).value);
  }

  /** Filtering one character keeps it exactly when it is printable. */
  lemma KeepPrintableChar(c: char)
    ensures KeepPrintable([c]) == if IsPrintable(c) then [c] else []
  {
    assert [c][1..] == [];
  }

  /** Filtering distributes over concatenation, so the kept characters stay
      in their order: the result is the characters of `s` one by one, each
      kept or dropped. */
  lemma {:induction false} KeepPrintableConcat(a: string, b: string)
    ensures KeepPrintable(a + b) == KeepPrintable(a) + KeepPrintable(b)
    decreases |a|
  {
    if a == [] {
      assert a + b == b;
    } else {
      assert (a + b)[0] == a[0] && (a + b)[1..] == a[1..] + b;
      KeepPrintableConcat(a[1..], b);
      var h := if IsPrintable(a[0]) then [a[0]] else [];
      Assoc(h, KeepPrintable(a[1..]), KeepPrintable(b));
    }
  }

  /** A JSON body the model wrapped in a ```` ```json ```` block. */
  function FencedBlock(body: string): string {
    JsonFence + "\n" + body + "\n" + Fence
  }

  /** Stripping the fences of a block gives back a body with no whitespace
      at its ends. */
  lemma StripFencedBlock(body: string)
    requires body == [] || (!IsWhitespace(body[0]) && !IsWhitespace(body[|body| - 1]))
    ensures StripFences(FencedBlock(body)) == body
  {
    var s := FencedBlock(body);
    assert StartsWith(s, JsonFence) by {
      assert s[..|JsonFence|] == JsonFence;
    }
    var after := s[|JsonFence|..];
    if body == [] {
      assert after == "\n\n" + Fence;
      TrimStartPrefix("\n\n", Fence);
      assert Fence[..|Fence| - |Fence|] == [];
    } else {
      assert after == "\n" + (body + "\n" + Fence);
      TrimStartPrefix("\n", body + "\n" + Fence);
      var rest := body + "\n" + Fence;
      assert EndsWith(rest, Fence) by {
        assert rest[|rest| - |Fence|..] == Fence;
      }
      assert rest[..|rest| - |Fence|] == body + "\n";
      TrimEndSuffix(body, "\n");
    }
  }

  /** Every answer splits into what the fence pattern removes and what it
      keeps: `s == p + StripFences(s) + q`, where `p` is an opening
      ```` ```json ```` at the very start with all the whitespace after it
      (empty when there is none), and `q` is a closing ```` ``` ```` at the
      very end of what follows `p`, with all the whitespace before it (empty
      when there is none). */
  lemma StripFencesParts(s: string) returns (p: string, q: string)
    ensures s == p + StripFences(s) + q
    ensures p == [] <==> !StartsWith(s, JsonFence)
    ensures p != [] ==> StartsWith(p, JsonFence) && AllWhitespace(p[|JsonFence|..])
                        && (|p| == |s| || !IsWhitespace(s[|p|]))
    ensures |p| <= |s| && (q == [] <==> !EndsWith(s[|p|..], Fence))
    ensures q != [] ==> EndsWith(q, Fence) && AllWhitespace(q[..|q| - |Fence|])
    ensures q != [] ==> StripFences(s) == [] || !IsWhitespace(StripFences(s)[|StripFences(s)| - 1])
  {
    p := OpeningPart(s);
    var rest := s[|p|..];
    var r;
    r, q := ClosingPart(rest);
    StripFencesAfterOpening(s, rest);
    Cut(s, |p|);
    Assoc(p, r, q);
  }

  /** What the closing alternative is searched in decides the result. */
  lemma StripFencesAfterOpening(s: string, rest: string)
    requires rest == if StartsWith(s, JsonFence) then TrimStart(s[|JsonFence|..]) else s
    ensures StripFences(s) == if EndsWith(rest, Fence) then TrimEnd(rest[..|rest| - |Fence|]) else rest
  {
  }

  /** The part the opening alternative removes; the rest is what the
      closing alternative is searched in. */
  lemma OpeningPart(s: string) returns (p: string)
    ensures |p| <= |s| && p == s[..|p|]
    ensures s[|p|..] == if StartsWith(s, JsonFence) then TrimStart(s[|JsonFence|..]) else s
    ensures p == [] <==> !StartsWith(s, JsonFence)
    ensures p != [] ==> StartsWith(p, JsonFence) && AllWhitespace(p[|JsonFence|..])
                        && (|p| == |s| || !IsWhitespace(s[|p|]))
  {
    if StartsWith(s, JsonFence) {
      var t := s[|JsonFence|..];
      var rest := TrimStart(t);
      p := s[..|s| - |rest|];
      assert p[..|JsonFence|] == JsonFence;
      assert p[|JsonFence|..] == t[..|t| - |rest|];
    } else {
      p := [];
    }
  }

  /** The part the closing alternative removes from `rest`. */
  lemma ClosingPart(rest: string) returns (r: string, q: string)
    ensures r == if EndsWith(rest, Fence) then TrimEnd(rest[..|rest| - |Fence|]) else rest
    ensures rest == r + q
    ensures q == [] <==> !EndsWith(rest, Fence)
    ensures q != [] ==> EndsWith(q, Fence) && AllWhitespace(q[..|q| - |Fence|])
                        && (r == [] || !IsWhitespace(r[|r| - 1]))
  {
    if EndsWith(rest, Fence) {
      var m := rest[..|rest| - |Fence|];
      r := TrimEnd(m);
      var w := m[|r|..];
      q := w + Fence;
      assert q[..|q| - |Fence|] == w;
      assert q[|q| - |Fence|..] == Fence;
      Cut(rest, |rest| - |Fence|);
      Cut(m, |r|);
      Assoc(r, w, Fence);
    } else {
      r, q := rest, [];
    }
  }

  /** A fenced JSON object in printable text comes back exactly. */
  lemma PrepareFencedObject(body: string)
    requires |body| >= 2 && body[0] == '{' && body[|body| - 1] == '}'
    requires forall c :: c in body ==> IsPrintable(c)
    ensures PrepareJsonResponse(FencedBlock(body)) == Success(body)
  {
    StripFencedBlock(body);
    assert Filtered(FencedBlock(body)) == body;
    BraceSpanWhole(body);
  }
}
