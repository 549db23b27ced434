# Website builder: explorer tree and response cleaning, modelled in Dafny

The website builder asks a language model for a project. Its answer is a JSON
object `{ code: { files: [{ path, content, type }] }, explanation,
dependencies }`. The project covers two pieces of code that handle that answer.

**Server side.** Before parsing, the server trims the raw answer down to its
JSON object. `prepareJsonResponse` does this in four steps:

1. It strips Markdown fences.
2. It drops non-printable characters.
3. It cuts from the first `{` to the last `}`.
4. It reports a missing brace as an error.

After parsing, `cleanContentString` normalizes the content of each file with
eight regular-expression replacements and then a trim.

**Client side.** `transformToHierarchy` turns the flat list of files into the
tree shown by the file explorer:

- It splits every path on `/`.
- It walks the tree with a cursor. Where a name is missing, it creates a
  folder, or a file. A new file goes under the first folder of its level.
- It then sorts every level so that folders come first.

`fileExplorerData` applies this to a response.

The model keeps three behaviours of this code:

- Node ids are the record's full path (client/src/utils/FileSystem.js:15).
  A folder's id is therefore the path of the file that created it, so ids
  are not unique.
- A new file at a level that holds a folder goes under the first folder of
  that level (client/src/utils/FileSystem.js:29-31).
- A repeated path can add a second file of the same name.

Modules:

- `Wrappers`, `Payload`: `Option`/`Result` and the response records.
- `JsString`: the JavaScript string operations the code uses: `split`,
  `indexOf`, `lastIndexOf`, `slice`, `trim`, and replacing every match of a
  set of literal alternatives.
- `FileTree`: explorer nodes, and the specification of the tree builder as
  functions: `InsertParts`, `Build`, `SortByType`, `SortTree`, `Hierarchy`.
- `TreeCursor`: the `currentLevel` cursor, as a path of indices into the tree.
  It has a read (`LevelAt`) and a write-back (`Plug`).
- `FileSystem`: the imperative methods. They follow the loops of the source
  and are proved equal to the `FileTree` functions.
- `FileTreeFacts`, `ComparatorFacts`, `TreeExamples`: what the tree builder
  guarantees, what its comparator does, and concrete trees (including the
  project shown on the builder page).
- `ResponseCleaning`, `CleanContentFacts`, `PrepareJsonFacts`: the server
  functions, and what they guarantee.

## Model

| member | source | states |
|---|---|---|
| FileSystem.TransformToHierarchy | client/src/utils/FileSystem.js:1-62 | The tree built by the two loops and the sort is `Hierarchy(files)`. That is every record inserted in order, followed by the folders-first sort. An empty file list gives an empty tree. |
| FileSystem.RecordDone | client/src/utils/FileSystem.js:5-43 | Once every segment of record `f` has been handled, the root holds exactly the first `f + 1` records. |
| FileSystem.NewFolderStep | client/src/utils/FileSystem.js:12-25 | Pushing a new folder for a missing segment that is not the last, then moving the cursor into it, keeps the insertion invariant. |
| FileSystem.NewFileStep | client/src/utils/FileSystem.js:26-35 | Placing a missing last segment as a file completes the insertion. The file goes under the first folder of the level, or is appended when there is none. |
| FileSystem.EnterStep | client/src/utils/FileSystem.js:36-40 | Moving the cursor into an existing folder of that name keeps the insertion invariant. |
| FileSystem.SkipStep | client/src/utils/FileSystem.js:36-41 | An existing file of that name leaves the cursor where it is and keeps the invariant. |
| FileSystem.SortHierarchy | client/src/utils/FileSystem.js:51-59 | The level returned is `SortTree(nodes)`: every folder's children are sorted by type and then recursively, and then the level itself is sorted. |
| FileSystem.FolderStep | client/src/utils/FileSystem.js:52-56 | The recursive call is on a smaller tree. Sorting children that are already sorted by type gives the same folder as sorting them once. |
| FileSystem.FileExplorerData | client/src/utils/FileSystem.js:68-71 | The explorer data of a response is the hierarchy of its `code.files`. |
| FileTree.InsertParts | client/src/utils/FileSystem.js:9-41 | One record's segments walked from a level. The level only grows, by at most one node. Existing nodes keep their id, name and kind. A new node carries the record's path as id and one of its segments as name. What it adds and where is stated by the `FileSystem` step lemmas, `ResolvedInsertIsNoOp`, `UnresolvedInsertGrows` and `InsertPartsUnique`. |
| FileTree.InsertRecord | client/src/utils/FileSystem.js:6-42 | The same for one whole record, split on `/`. |
| FileTree.Build | client/src/utils/FileSystem.js:5-43 | Every record inserted in order. The root holds at most one node per record. Its nodes trace back to records (`BuildFromRecords`), and its folder names are unique per level (`BuildUnique`). |
| FileTree.SortTree | client/src/utils/FileSystem.js:51-59 | Keeps the length of the level and puts its folders first. `SortTreeFoldersFirst`, `SortTreeLabels` and `SortKeepsGroupOrder` extend this to every level, with every node kept and group order kept. |
| FileTree.SortEach | client/src/utils/FileSystem.js:52-57 | Keeps the length of the level. `SortEachIndex` states that position `j` holds node `j` with its subtree sorted. |
| FileTree.SortNode | client/src/utils/FileSystem.js:53-55 | A node keeps its id, name and kind. A file is unchanged. A folder keeps its number of children, which are sorted with folders first. |
| FileTree.Hierarchy | client/src/utils/FileSystem.js:1-62 | The built tree, sorted. It has as many top-level nodes as the built tree, at most one per record, with folders first. The hierarchy lemmas of `FileTreeFacts` state the rest. |
| FileTree.FindByName | client/src/utils/FileSystem.js:10 | Returns the index of the first node with that name. Returns `None` exactly when no node of the level has it. |
| FileTree.FirstFolder | client/src/utils/FileSystem.js:29 | Returns the index of the first folder, with only files before it. Returns `None` exactly when the level has no folder. |
| FileTree.SortByType | client/src/utils/FileSystem.js:46-48 | Every folder precedes every file. The result is a permutation of the level. Folders keep their order and files keep theirs. |
| FileTree.SortTreeOfSorted | client/src/utils/FileSystem.js:53-55 | Sorting a level by type before sorting its whole subtree changes nothing. This is why the double sort of the children is harmless. |
| FileTree.CompareByTypeFixed | client/src/utils/FileSystem.js:47 | The corrected comparator: negative exactly for folder against file, and positive exactly for file against folder. |
| FileTreeFacts.SortTreeLabels | client/src/utils/FileSystem.js:45-61 | Sorting keeps every node of the forest, counted with multiplicity. |
| FileTreeFacts.SortTreeMember | client/src/utils/FileSystem.js:51-59 | Every node of a sorted level is a node of the original level, with its subtree sorted. |
| FileTreeFacts.SortKeepsGroupOrder | client/src/utils/FileSystem.js:46-48 | After the sort the files of a level are those of the original level, in their order. The folders are the original folders in their order, each with its subtree sorted. |
| FileTreeFacts.SortTreeFoldersFirst | client/src/utils/FileSystem.js:45-61 | After the sort, folders precede files at every level of the tree. |
| FileTreeFacts.HierarchyFoldersFirst | client/src/utils/FileSystem.js:45-61 | In the explorer tree of any file list, folders precede files at every level. |
| FileTreeFacts.InsertPartsFromRecords | client/src/utils/FileSystem.js:9-41 | Inserting the path of a record keeps every node traceable to a record of the list. |
| FileTreeFacts.BuildFromRecords | client/src/utils/FileSystem.js:5-43 | Every node built from a prefix of the list was created by a record of the list. |
| FileTreeFacts.HierarchyFromRecords | client/src/utils/FileSystem.js:13-19 | Every node of the hierarchy has the full path of some record as its id. A file is named by that record's last segment and holds its content. A folder is named by another segment of that record's path. |
| FileTreeFacts.InsertPartsUnique | client/src/utils/FileSystem.js:10-12 | Inserting a path never adds a folder whose name is already used at that level. Existing folders are reused. |
| FileTreeFacts.BuildUnique | client/src/utils/FileSystem.js:5-43 | No level of the built tree has two folders with the same name. |
| FileTreeFacts.SortTreeUnique | client/src/utils/FileSystem.js:51-59 | Sorting keeps folder names unique at every level. |
| FileTreeFacts.HierarchyUniqueFolderNames | client/src/utils/FileSystem.js:36-40 | In the explorer tree no level holds two folders with the same name. |
| FileTreeFacts.ResolvedInsertIsNoOp | client/src/utils/FileSystem.js:36-41 | A path whose every segment names an existing node along the walk leaves the tree unchanged. On that walk a folder is entered, and a file keeps the walk at its level. |
| FileTreeFacts.UnresolvedInsertGrows | client/src/utils/FileSystem.js:12-35 | A path that does not resolve adds at least one node. |
| FileTreeFacts.RecordUnchangedIffResolves | client/src/utils/FileSystem.js:10-41 | Adding a record leaves the built tree unchanged exactly when its path already resolves in it. |
| ComparatorFacts.CompareByTypeInconsistent | client/src/utils/FileSystem.js:47 | For two folders, or two files, the comparator as written says each is greater than the other. |
| ComparatorFacts.CompareByTypeAgreesBelowZero | client/src/utils/FileSystem.js:47 | The comparator as written and the corrected one agree on which pairs compare below zero. |
| ComparatorFacts.CompareByTypeFixedConsistent | client/src/utils/FileSystem.js:47 | The corrected comparator is reflexive (zero), antisymmetric, and transitive on "not greater". |
| ComparatorFacts.SortByTypeIsStableSort | client/src/utils/FileSystem.js:46-48 | `SortByType` is a stable sort under the corrected comparator: ordered by it, a permutation, and stable within each type. |
| TreeCursor.PlugLevelAt | client/src/utils/FileSystem.js:7 | Writing back the level the cursor designates leaves the tree unchanged. |
| TreeCursor.PlugPlug | client/src/utils/FileSystem.js:24 | A push through `currentLevel` keeps the cursor valid, and a read through it sees the new level. A second write overrides the first. |
| TreeCursor.Descend | client/src/utils/FileSystem.js:39 | Moving the cursor into folder `i` of its level designates that folder's children. Writing there rewrites only that folder. |
| TreeExamples.TopFile | client/src/utils/FileSystem.js:32-34 | A new top-level file at a level holding only files is appended after them. |
| TreeExamples.TopFileUnderFolder | client/src/utils/FileSystem.js:29-31 | A new file at a level holding a folder goes under the first folder, at the end of its children. |
| TreeExamples.NewFolderWithFile | client/src/utils/FileSystem.js:12-25 | A path `d/x` whose folder `d` is missing appends folder `d`, holding file `x`. Both nodes carry the record's full path as id. |
| TreeExamples.FileThenFolder | client/src/utils/FileSystem.js:45-61 | A top-level file followed by a file in a new folder: the folder is sorted before the file. |
| TreeExamples.FolderThenFile | client/src/utils/FileSystem.js:29-31 | A file in a folder followed by a top-level file: the top-level file ends up inside the folder. |
| TreeExamples.FolderThenFileExample | client/src/utils/FileSystem.js:29-31 | `dir/b.txt` then `a.txt` gives the single folder `dir` holding `b.txt` and `a.txt`. |
| TreeExamples.RepeatedFileDuplicated | client/src/utils/FileSystem.js:10 | A top-level path given twice, while a folder exists, yields two files of that name inside the folder. The name lookup runs at the top level only. |
| TreeExamples.RepeatedFileExample | client/src/utils/FileSystem.js:29-31 | `d/x`, `a`, `a` gives a folder whose children are `x` and two files named `a`, one with each record's content. |
| TreeExamples.SampleHierarchy | client/src/utils/FileSystem.js:65 | Any eleven records shaped like the sample response give the tree: `src` first, holding `pages` (with the page files and `index.css`), `index.tsx`, `App.tsx` and `tsconfig.json`; then `package.json` and `tailwind.config.js`. |
| TreeExamples.SampleProjectHierarchy | client/src/pages/Builder.jsx:10-104 | The sample project of the builder page, under its real file names, gives that tree. The `src` folder has id `src/index.tsx` and the `pages` folder has id `src/pages/Home.tsx`. |
| JsString.Split | client/src/utils/FileSystem.js:6 | The parts are never empty as a list. No part contains the separator. Joining them with it gives back the path. |
| JsString.SplitJoin | client/src/utils/FileSystem.js:6 | Splitting a join of separator-free parts gives back the parts. |
| JsString.Trim | server/src/index.js:60 | The result has no whitespace at either end, and it is a window of the input with only whitespace cut on either side. |
| JsString.TrimNoEdges | server/src/index.js:60 | A string without whitespace at its ends is its own trim. |
| JsString.TrimStartPrefix | server/src/index.js:67 | Leading whitespace is dropped and nothing else: the input is that whitespace followed by the result. |
| JsString.TrimEndSuffix | server/src/index.js:67 | Trailing whitespace is dropped and nothing else: the input is the result followed by that whitespace. |
| JsString.IndexOf | server/src/index.js:73 | Returns -1 exactly when the character is absent. Otherwise returns its first position. |
| JsString.LastIndexOf | server/src/index.js:74 | Returns -1 exactly when the character is absent. Otherwise returns its last position. |
| JsString.Slice | server/src/index.js:81 | In-range bounds give the span between them. An end past the string stops at its end. A start at or past the end, or a reversed span, gives the empty string. |
| JsString.ReplaceAll | server/src/index.js:52-59 | A string with no occurrence of the pattern is unchanged. Every character of the result comes from the input or from the replacement. What it replaces is fixed by `ReplaceAllConcat`, `RunChar`, `RunWhole` and `RunMapChars`. |
| JsString.ReplaceAllConcat | server/src/index.js:52-59 | When no match straddles the cut, replacing in `u + v` is replacing in `u`, then in `v`. |
| ResponseCleaning.ApplyPasses | server/src/index.js:51-59 | The chain of `.replace` calls, with `CleanPasses` listing the eight of `cleanContentString` in order. Text in which no pass matches is unchanged. `ApplyPassesConcat`, `PassesPlain` and the token lemmas state what the chain computes. |
| ResponseCleaning.ApplyPassesConcat | server/src/index.js:51-59 | When no pass of the chain straddles the cut, the chain distributes over concatenation. |
| ResponseCleaning.CleanContent | server/src/index.js:50-61 | The cleaned content has no whitespace at either end. |
| CleanContentFacts.LineBreakToken | server/src/index.js:52-56 | A line feed, a CRLF and the two-character escape `\n` each come out of the chain as one line feed. |
| CleanContentFacts.TabToken | server/src/index.js:53-57 | A tab and the escape `\t` each come out as one tab. |
| CleanContentFacts.QuoteToken | server/src/index.js:55-58 | A double quote is escaped and unescaped again, so it comes out unchanged. |
| CleanContentFacts.OtherToken | server/src/index.js:51-59 | Any other character that no pass touches comes out unchanged. |
| CleanContentFacts.LoneReturn | server/src/index.js:52 | A carriage return not followed by a line feed is kept, and no replacement joins it with what follows. |
| CleanContentFacts.PassesPlain | server/src/index.js:51-59 | On content whose every backslash starts `\n` or `\t` and which has no backtick, the replacement chain computes `Decoded`. `Decoded` reads CRLF and `\n` as line feeds and `\t` as a tab. |
| CleanContentFacts.CleanContentPlain | server/src/index.js:50-61 | On such content, the cleaned string is the trimmed decoded content. |
| CleanContentFacts.DecodedWithoutEscapes | server/src/index.js:52 | Without backslashes, decoding only turns CRLF into LF. |
| CleanContentFacts.CleanContentWithoutEscapes | server/src/index.js:50-61 | Content with no backslash and no backtick is cleaned to its trim, with CRLF turned into LF. |
| CleanContentFacts.CleanContentEscapesExample | server/src/index.js:52-57 | `a\nb\tc` written with escapes is cleaned to `a`, line feed, `b`, tab, `c`. |
| ResponseCleaning.StripFences | server/src/index.js:67 | Never lengthens the answer. An answer with neither a leading ```` ```json ```` nor a trailing ```` ``` ```` is unchanged. Without the leading fence, the result is a prefix of the answer. |
| PrepareJsonFacts.StripFencesParts | server/src/index.js:67 | Every answer is `p` + result + `q`. `p` is empty exactly when the answer does not start with ```` ```json ````; otherwise it is that fence with all the whitespace after it. `q` is empty exactly when the rest does not end with ```` ``` ````; otherwise it is that fence with all the whitespace before it. |
| ResponseCleaning.KeepPrintable | server/src/index.js:70 | Only printable ASCII, line feed and tab remain. Every such character keeps its count. An all-printable string is unchanged. |
| PrepareJsonFacts.KeepPrintableChar | server/src/index.js:70 | One character is kept exactly when it is printable ASCII, a line feed or a tab. |
| PrepareJsonFacts.KeepPrintableConcat | server/src/index.js:70 | Filtering distributes over concatenation. With `KeepPrintableChar`, the result is the input's printable characters in their original order. |
| ResponseCleaning.Filtered | server/src/index.js:67-70 | After fence stripping and filtering, only printable characters remain. |
| ResponseCleaning.BraceSpan | server/src/index.js:73-81 | Fails exactly when `{` or `}` is missing, with the prefixed `Invalid JSON structure` message. On success, the result is made of characters of the input. |
| ResponseCleaning.PrepareJsonResponse | server/src/index.js:64-87 | Fails exactly when the filtered answer lacks `{` or `}`, and the error is `Failed to prepare JSON response: Invalid JSON structure`. On success, the result holds only printable characters. |
| PrepareJsonFacts.BraceSpanBetween | server/src/index.js:73-81 | With `i` the first `{` and `j` the last `}`: the result is the span from `i` to `j` inclusive when `i < j`, and empty when `j < i`. |
| PrepareJsonFacts.PrepareSpan | server/src/index.js:64-87 | The same, stated for the whole preparation of an answer. |
| PrepareJsonFacts.PrepareBraced | server/src/index.js:73-81 | A non-empty prepared result starts with `{` and ends with `}`. |
| PrepareJsonFacts.PrepareObject | server/src/index.js:64-87 | A printable string that starts with `{` and ends with `}` passes through unchanged. |
| PrepareJsonFacts.PrepareIdempotent | server/src/index.js:64-87 | Preparing a non-empty prepared result again gives the same result. |
| PrepareJsonFacts.StripFencedBlock | server/src/index.js:67 | A body wrapped as ```` ```json ````, line feed, body, line feed, ```` ``` ```` is recovered exactly, when it has no whitespace at its ends. |
| PrepareJsonFacts.PrepareFencedObject | server/src/index.js:64-87 | A printable object wrapped in a JSON fence is prepared to exactly that object. |
| ResponseCleaning.CleanFiles | server/src/index.js:130-133 | Same number of files. Each keeps its path and type, and its content is the cleaned content. |
| ResponseCleaning.CleanResponse | server/src/index.js:130-133 | The explanation and the dependencies are untouched. The files are the cleaned files. |

## Left out

- The HTTP server: the Express setup, the `/generate-website` route, the call
  to the language model, `JSON.parse`, and the HTTP responses and status codes
  (server/src/index.js:1-47 and 89-149). These are I/O. `CleanResponse` takes
  the parsed object as its input.
- The `console.log` calls (client/src/utils/FileSystem.js:2,
  server/src/index.js:125). They are output only.
- `SortByType`: the JavaScript engine's `Array.prototype.sort` with the
  comparator as written is not modelled. The comparator is inconsistent (see
  Findings), so the engine's order for same-typed nodes is not defined. The
  model uses the stable folders-then-files partition that a consistent
  comparator gives.
- Aliasing of `currentLevel`: the source pushes into arrays that are shared
  with the tree. The model works on values, with `currentLevel` as an index
  path that is read with `LevelAt` and written back with `Plug`.
- The in-place `sort` and the reassignment of `node.children` are returned as
  new values.
- Nodes do not carry the source's `type` field, and a folder's `content: null`
  and a file's `children: null` are not stored. The `Folder`/`File`
  constructors carry that distinction.
- JavaScript strings are sequences of UTF-16 code units. The model uses Dafny
  characters and makes no distinction between surrogate pairs.
- Regular expressions are modelled as replacement of literal alternatives,
  where the leftmost match wins and the first alternative wins at a position.
  `\s` and `trim` use the ECMAScript whitespace set, written out explicitly.
- Missing fields or wrong types in the parsed response (no `code`, or a
  non-string `content`) make JavaScript throw a `TypeError`. The record types
  exclude them.
- The `try`/`catch` re-throw of prepareJsonResponse is modelled as a
  `Failure` carrying the prefixed message.
- ResponseCleaning.CleanContent: its contract states only the trimmed ends.
  What it computes is stated by `CleanContentPlain` for content in which every
  backslash starts `\n` or `\t` and there is no backtick, and by the token
  lemmas. Other content is not described. There, any other backslash is
  doubled. Runs of three backticks are dropped, together with a `json` that
  follows them. Other backticks are kept.
- The contents of the sample files (client/src/utils/FileSystem.js:65) are not
  reproduced. The sample lemmas hold for any contents.

## Findings

| source | as written | input that shows it | evidently intended | confidence | as-written member | corrected member |
|---|---|---|---|---|---|---|
| client/src/utils/FileSystem.js:47 | The comparator returns 1 for every pair that is not folder-then-file, including two nodes of the same type. It is therefore not a consistent comparator. | Two folders `a` and `b`: `compare(a, b) == 1` and `compare(b, a) == 1` | Return 0 for two nodes of the same type, so the sort is a stable folders-first partition | not executed | ComparatorFacts.CompareByTypeInconsistent | ComparatorFacts.SortByTypeIsStableSort |
