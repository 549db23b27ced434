/**
  server/src/index.js: `cleanContentString`, `prepareJsonResponse` and the
  map that cleans the content of every generated file.

  Each `replace(/.../g, ...)` of the source is a `Pass`: a list of literal
  alternatives tried in order at each position, and the replacement text.
 */
module ResponseCleaning {
  import opened Wrappers
  import opened JsString
  import opened Payload

  // ---------------------------------------------------------------------
  // Chains of global replacements
  // ---------------------------------------------------------------------

  /** One `s.replace(/alt1|alt2|.../g, rep)` with literal alternatives. */
  datatype Pass = Pass(pats: seq<Pattern>, rep: string)

  /** One pass over `s`. */
  function Run(s: string, pass: Pass): string {
    ReplaceAll(s, pass.pats, pass.rep)
  }

  /** No pass of the chain finds a match in `s`. */
  predicate Untouched(s: string, passes: seq<Pass>) {
    forall k :: 0 <= k < |passes| ==> NoOccurrence(s, passes[k].pats)
  }

  /** The passes applied one after the other, as a chain of `.replace` calls:
      text in which no pass finds a match is left as it is. What each pass
      replaces is stated by `RunChar`, `RunCons` and `RunMapChars`, and the
      chain distributes over concatenation by `ApplyPassesConcat`. */
  function ApplyPasses(s: string, passes: seq<Pass>): (r: string)
    ensures Untouched(s, passes) ==> r == s
    decreases |passes|
  {
    if passes == [] then s
    else ApplyPasses(Run(s, passes[0]), passes[1..])
  }

  /** The replacements of `cleanContentString`, in order: `\r?\n` becomes
      backslash-n, a tab becomes backslash-t, every backslash is doubled,
      every quote is escaped, then backslash-backslash-n becomes a newline,
      backslash-backslash-t a tab, backslash-quote a quote, and every code
      fence (```` ```json ```` or ```` ``` ````) is dropped. */
  const EscapeNewlines := Pass(["\r\n", "\n"], "\\n")
  const EscapeTabs := Pass(["\t"], "\\t")
  const EscapeBackslashes := Pass(["\\"], "\\\\")
  const EscapeQuotes := Pass(["\""], "\\\"")
  const UnescapeNewlines := Pass(["\\\\n"], "\n")
  const UnescapeTabs := Pass(["\\\\t"], "\t")
  const UnescapeQuotes := Pass(["\\\""], "\"")
  const DropFences := Pass(["```json", "```"], "")

  const CleanPasses := [EscapeNewlines, EscapeTabs, EscapeBackslashes, EscapeQuotes,
                        UnescapeNewlines, UnescapeTabs, UnescapeQuotes, DropFences]

  /** `cleanContentString(str)`: the replacement chain, then `trim`. */
  function CleanContent(s: string): (r: string)
    ensures r == [] || (!IsWhitespace(r[0]) && !IsWhitespace(r[|r| - 1]))
  {
    var chained := ApplyPasses(s, CleanPasses);
    Trim(chained)
  }

  // ---------------------------------------------------------------------
  // What the chain does to ordinary content
  // ---------------------------------------------------------------------

  /** Content the chain handles as intended: no backtick, and every
      backslash starts an escape `\n` or `\t`. */
  predicate Plain(s: string) {
    '`' !in s &&
    forall i :: 0 <= i < |s| && s[i] == '\\' ==> i + 1 < |s| && (s[i + 1] == 'n' || s[i + 1] == 't')
  }

  /** The intended reading of content: CRLF and the two-character escape
      `\n` are line breaks, the escape `\t` is a tab, and every other
      character stands for itself. */
  function Decoded(s: string): string {
    if s == [] then []
    else if |s| >= 2 && s[0] == '\r' && s[1] == '\n' then "\n" + Decoded(s[2..])
    else if |s| >= 2 && s[0] == '\\' && s[1] == 'n' then "\n" + Decoded(s[2..])
    else if |s| >= 2 && s[0] == '\\' && s[1] == 't' then "\t" + Decoded(s[2..])
    else [s[0]] + Decoded(s[1..])
  }

  /** No replacement crosses the boundary between `u` and `v`, at any pass. */
  predicate Separable(u: string, v: string, passes: seq<Pass>)
    decreases |passes|
  {
    passes == [] ||
    (NoStraddle(u, v, passes[0].pats) &&
     Separable(Run(u, passes[0]), Run(v, passes[0]), passes[1..]))
  }

  lemma {:induction false} ApplyPassesConcat(u: string, v: string, passes: seq<Pass>)
    requires Separable(u, v, passes)
    ensures ApplyPasses(u + v, passes) == ApplyPasses(u, passes) + ApplyPasses(v, passes)
    decreases |passes|
  {
    if passes != [] {
      var pass := passes[0];
      ReplaceAllConcat(u, v, pass.pats, pass.rep);
      ApplyPassesConcat(Run(u, pass), Run(v, pass), passes[1..]);
    }
  }

  lemma {:induction false} ApplyPassesEmpty(passes: seq<Pass>)
    ensures ApplyPasses([], passes) == []
    decreases |passes|
  {
    if passes != [] {
      ApplyPassesEmpty(passes[1..]);
    }
  }

  /** At every pass, no tail of `u` could begin a match. */
  predicate ClosedAll(u: string, passes: seq<Pass>)
    decreases |passes|
  {
    passes == [] ||
    (ClosedEnd(u, passes[0].pats) &&
     ClosedAll(Run(u, passes[0]), passes[1..]))
  }

  lemma {:induction false} ClosedAllSeparable(u: string, v: string, passes: seq<Pass>)
    requires ClosedAll(u, passes)
    ensures Separable(u, v, passes)
    decreases |passes|
  {
    if passes != [] {
      var pass := passes[0];
      ClosedEndNoStraddle(u, v, pass.pats);
      ClosedAllSeparable(Run(u, pass), Run(v, pass), passes[1..]);
    }
  }

  // ---------------------------------------------------------------------
  // One pass on a short string
  // ---------------------------------------------------------------------

  lemma RunChar(c: char, pass: Pass)
    ensures Run([c], pass) == if [c] in pass.pats then pass.rep else [c]
  {
    match FirstMatch([c], pass.pats)
    case Some(p) =>
      assert p == [c];
      assert [c][|p|..] == [];
    case None =>
      assert [c][1..] == [];
      if [c] in pass.pats {
        assert StartsWith([c], [c]);
      }
  }

  /** A single character closes a pass when no longer pattern begins with it. */
  predicate Starts(c: char, pass: Pass) {
    exists p :: p in pass.pats && |p| > 1 && p[0] == c
  }

  lemma RunCons(c: char, rest: string, pass: Pass)
    requires !Starts(c, pass)
    ensures ClosedEnd([c], pass.pats)
    ensures Run([c] + rest, pass) == Run([c], pass) + Run(rest, pass)
  {
    forall p | p in pass.pats ensures NoTailPrefix([c], p) {
      assert |p| > 1 ==> p[..1] == [p[0]];
    }
    ClosedEndNoStraddle([c], rest, pass.pats);
    ReplaceAllConcat([c], rest, pass.pats, pass.rep);
  }

  lemma RunWhole(s: string, pass: Pass)
    requires FirstMatch(s, pass.pats) == Some(s)
    ensures Run(s, pass) == pass.rep
  {
    assert s[|s|..] == [];
  }

  /** Each stage is the previous one after one more pass. */
  lemma {:induction false} Ladder(stages: seq<string>, passes: seq<Pass>)
    requires |stages| == |passes| + 1
    requires forall k :: 0 <= k < |passes| ==> Run(stages[k], passes[k]) == stages[k + 1]
    ensures ApplyPasses(stages[0], passes) == stages[|passes|]
    decreases |passes|
  {
    if passes != [] {
      Ladder(stages[1..], passes[1..]);
    }
  }

  lemma {:induction false} ClosedLadder(stages: seq<string>, passes: seq<Pass>)
    requires |stages| == |passes| + 1
    requires forall k :: 0 <= k < |passes| ==> Run(stages[k], passes[k]) == stages[k + 1]
    requires forall k :: 0 <= k < |passes| ==> ClosedEnd(stages[k], passes[k].pats)
    ensures ClosedAll(stages[0], passes)
    decreases |passes|
  {
    if passes != [] {
      ClosedLadder(stages[1..], passes[1..]);
    }
  }

  /** A pass read character by character. */
  function MapChars(s: string, pass: Pass): string {
    if s == [] then [] else (if [s[0]] in pass.pats then pass.rep else [s[0]]) + MapChars(s[1..], pass)
  }

  /** When no character of `s` begins a longer pattern, a pass replaces
      characters one at a time. */
  lemma {:induction false} RunMapChars(s: string, pass: Pass)
    requires forall i :: 0 <= i < |s| ==> !Starts(s[i], pass)
    ensures Run(s, pass) == MapChars(s, pass)
  {
    if s != [] {
      assert s == [s[0]] + s[1..];
      RunCons(s[0], s[1..], pass);
      RunChar(s[0], pass);
      RunMapChars(s[1..], pass);
    }
  }

  // ---------------------------------------------------------------------
  // prepareJsonResponse
  // ---------------------------------------------------------------------

  const JsonFence := "```json"
  const Fence := "```"

  /** `replace(/^```json\s*|\s*```$/g, '')`: an opening ```` ```json ```` at
      the very start goes together with the whitespace after it, and a
      closing ```` ``` ```` at the very end together with the whitespace
      before it. */
  function StripFences(s: string): (r: string)
    ensures |r| <= |s|
    ensures !StartsWith(s, JsonFence) && !EndsWith(s, Fence) ==> r == s
    ensures !StartsWith(s, JsonFence) ==> r == s[..|r|]
  {
    var rest := if StartsWith(s, JsonFence) then TrimStart(s[|JsonFence|..]) else s;
    if EndsWith(rest, Fence) then TrimEnd(rest[..|rest| - |Fence|]) else rest
  }

  /** The class `[\x20-\x7E\n\t]`: printable ASCII, newline and tab. */
  predicate IsPrintable(c: char) {
    (' ' <= c <= '~') || c == '\n' || c == '\t'
  }

  /** `replace(/[^\x20-\x7E\n\t]/g, '')`: the printable characters of `s`, in
      order. */
  function KeepPrintable(s: string): (r: string)
    ensures forall c :: c in r ==> IsPrintable(c)
    ensures forall c :: IsPrintable(c) ==> multiset(r)[c] == multiset(s)[c]
    ensures (forall c :: c in s ==> IsPrintable(c)) ==> r == s
  {
    if s == [] then []
    else
      assert s == [s[0]] + s[1..];
      (if IsPrintable(s[0]) then [s[0]] else []) + KeepPrintable(s[1..])
  }

  const PrepareErrorPrefix := "Failed to prepare JSON response: "
  const InvalidStructure := "Invalid JSON structure"

  /** The text `prepareJsonResponse` searches for braces. */
  function Filtered(s: string): (r: string)
    ensures forall c :: c in r ==> IsPrintable(c)
  {
    KeepPrintable(StripFences(s))
  }

  /** `prepareJsonResponse(responseStr)`: strips the fences, drops the
      characters that are not printable, and keeps the text from the first
      `{` to the last `}`; a missing brace is an error. */
  function PrepareJsonResponse(s: string): (r: Result<string, string>)
    ensures r.Failure? <==> '{' !in Filtered(s) || '}' !in Filtered(s)
    ensures r.Failure? ==> r.error == PrepareErrorPrefix + InvalidStructure
    ensures r.Success? ==> forall c :: c in r.value ==> IsPrintable(c)
  {
    BraceSpan(Filtered(s))
  }

  /** The brace search and slice of `prepareJsonResponse` on the filtered
      text `f`. */
  function BraceSpan(f: string): (r: Result<string, string>)
    ensures r.Failure? <==> '{' !in f || '}' !in f
    ensures r.Failure? ==> r.error == PrepareErrorPrefix + InvalidStructure
    ensures r.Success? ==> forall c :: c in r.value ==> c in f
  {
    var startIdx := IndexOf(f, '{');
    var endIdx := LastIndexOf(f, '}');
    if startIdx == -1 || endIdx == -1 then
      Failure(PrepareErrorPrefix + InvalidStructure)
    else
      var span := Slice(f, startIdx, endIdx + 1);
      assert span == [] || span == f[startIdx..endIdx + 1];
      Success(span)
  }

  // ---------------------------------------------------------------------
  // The per-file cleaning of the parsed response
  // ---------------------------------------------------------------------

  /** `files.map(file => ({ ...file, content: cleanContentString(file.content) }))`. */
  function CleanFiles(files: seq<FileRecord>): (r: seq<FileRecord>)
    ensures |r| == |files|
    ensures forall i :: 0 <= i < |files| ==>
              r[i].path == files[i].path && r[i].fileType == files[i].fileType &&
              r[i].content == CleanContent(files[i].content)
  {
    if files == [] then []
    else [files[0].(content := CleanContent(files[0].content))] + CleanFiles(files[1..])
  }

  /** The parsed response with `code.files` replaced by its cleaned copy. */
  function CleanResponse(resp: GenerationResponse): (r: GenerationResponse)
    ensures r.explanation == resp.explanation && r.dependencies == resp.dependencies
    ensures r.code.files == CleanFiles(resp.code.files)
  {
    resp.(code := Code(CleanFiles(resp.code.files)))
  }
}
