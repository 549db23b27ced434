/**
  Concrete runs of `transformToHierarchy`: small record lists that show the
  placement rules and their quirks, and the sample project listed next to
  the function in client/src/utils/FileSystem.js, whose tree is the one
  hard-coded in client/src/pages/Builder.jsx.
 */
module TreeExamples {
  import opened Wrappers
  import opened JsString
  import opened Payload
  import opened FileTree
  import opened FileTreeFacts

  // ---------------------------------------------------------------------
  // One record at a time
  // ---------------------------------------------------------------------

  lemma BuildStep(files: seq<FileRecord>, k: nat)
    requires k < |files|
    ensures Build(files[..k + 1]) == InsertRecord(Build(files[..k]), files[k])
  {
    assert files[..k + 1][..k] == files[..k];
  }

  lemma BuildLast(files: seq<FileRecord>)
    requires files != []
    ensures Build(files) == InsertRecord(Build(files[..|files| - 1]), files[|files| - 1])
  {
    BuildStep(files, |files| - 1);
    assert files[..|files|] == files;
  }

  lemma BuildPair(r1: FileRecord, r2: FileRecord)
    ensures Build([r1, r2]) == InsertRecord(InsertRecord([], r1), r2)
  {
    assert [r1, r2][..1] == [r1] && [r1][..0] == [];
    assert Build([r1]) == InsertRecord(Build([]), r1);
  }

  lemma BuildTriple(r1: FileRecord, r2: FileRecord, r3: FileRecord)
    ensures Build([r1, r2, r3]) == InsertRecord(InsertRecord(InsertRecord([], r1), r2), r3)
  {
    assert [r1, r2, r3][..2] == [r1, r2];
    BuildPair(r1, r2);
  }

  lemma SplitOne(a: string)
    requires '/' !in a
    ensures Split(a, '/') == [a]
  {
    SplitJoin([a], '/');
  }

  lemma SplitTwo(a: string, b: string)
    requires '/' !in a && '/' !in b
    ensures Split(a + "/" + b, '/') == [a, b]
  {
    SplitCons(a, '/', b);
    SplitOne(b);
  }

  lemma SplitThree(a: string, b: string, x: string)
    requires '/' !in a && '/' !in b && '/' !in x
    ensures Split(a + "/" + b + "/" + x, '/') == [a, b, x]
  {
    assert a + "/" + b + "/" + x == a + ['/'] + (b + ['/'] + x);
    SplitCons(a, '/', b + ['/'] + x);
    SplitTwo(b, x);
  }

  /** A one-segment path naming nothing at a level without folders: the
      file is appended to the level. */
  lemma TopFile(level: seq<Node>, r: FileRecord)
    requires '/' !in r.path
    requires forall j :: 0 <= j < |level| ==> level[j].name != r.path && level[j].File?
    ensures InsertRecord(level, r) == level + [File(r.path, r.path, r.content)]
  {
    SplitOne(r.path);
  }

  /** A one-segment path naming nothing at a level holding folder `j` first:
      the file goes under that folder. */
  lemma TopFileUnderFolder(level: seq<Node>, r: FileRecord, j: nat)
    requires '/' !in r.path
    requires forall i :: 0 <= i < |level| ==> level[i].name != r.path
    requires j < |level| && level[j].Folder? && forall i :: 0 <= i < j ==> level[i].File?
    ensures InsertRecord(level, r)
         == level[j := level[j].(children := level[j].children + [File(r.path, r.path, r.content)])]
  {
    SplitOne(r.path);
  }

  /** A two-segment path whose folder is missing: a folder holding the file
      is appended. */
  lemma NewFolderWithFile(level: seq<Node>, r: FileRecord, d: string, x: string)
    requires '/' !in d && '/' !in x && r.path == d + "/" + x
    requires forall i :: 0 <= i < |level| ==> level[i].name != d
    ensures InsertRecord(level, r) == level + [Folder(r.path, d, [File(r.path, x, r.content)])]
  {
    SplitTwo(d, x);
    FolderInLevel(level, d, x, r.path, r.content);
  }

  /** A path whose first segment names folder `i` of the level: the rest
      of the path goes into that folder's children. */
  lemma IntoFolder(level: seq<Node>, r: FileRecord, parts: seq<string>, i: nat)
    requires Split(r.path, '/') == parts && |parts| >= 2
    requires i < |level| && level[i].Folder? && level[i].name == parts[0]
    requires forall j :: 0 <= j < i ==> level[j].name != parts[0]
    ensures InsertRecord(level, r)
         == level[i := level[i].(children := InsertParts(level[i].children, parts[1..], r.path, r.content))]
  {
  }

  lemma FileInLevel(level: seq<Node>, x: string, path: string, c: string)
    requires forall j :: 0 <= j < |level| ==> level[j].name != x && level[j].File?
    ensures InsertParts(level, [x], path, c) == level + [File(path, x, c)]
  {
  }

  lemma FileInLevelUnderFolder(level: seq<Node>, x: string, path: string, c: string, j: nat)
    requires forall i :: 0 <= i < |level| ==> level[i].name != x
    requires j < |level| && level[j].Folder? && forall i :: 0 <= i < j ==> level[i].File?
    ensures InsertParts(level, [x], path, c)
         == level[j := level[j].(children := level[j].children + [File(path, x, c)])]
  {
  }

  lemma FolderInLevel(level: seq<Node>, d: string, x: string, path: string, c: string)
    requires forall j :: 0 <= j < |level| ==> level[j].name != d
    ensures InsertParts(level, [d, x], path, c) == level + [Folder(path, d, [File(path, x, c)])]
  {
    assert [d, x][1..] == [x];
    FileInLevel([], x, path, c);
    assert [] + [File(path, x, c)] == [File(path, x, c)];
    assert FindByName(level, d).None?;
  }

  lemma EnterInLevel(level: seq<Node>, d: string, x: string, path: string, c: string, i: nat)
    requires i < |level| && level[i].Folder? && level[i].name == d
    requires forall j :: 0 <= j < i ==> level[j].name != d
    ensures InsertParts(level, [d, x], path, c)
         == level[i := level[i].(children := InsertParts(level[i].children, [x], path, c))]
  {
    assert [d, x][1..] == [x];
  }

  // ---------------------------------------------------------------------
  // Sorting a concrete level
  // ---------------------------------------------------------------------

  /** A sorted level is its folders, each with its subtree sorted, followed
      by its files, each group in its original order. */
  lemma SortTreeShape(nodes: seq<Node>)
    ensures SortTree(nodes) == SortEach(Folders(nodes)) + Files(nodes)
  {
    SortKeepsGroupOrder(nodes);
    SortEachFilters(nodes);
    SortEachOfFiles(Files(nodes));
  }

  lemma SortFiles(nodes: seq<Node>)
    requires forall k :: 0 <= k < |nodes| ==> nodes[k].File?
    ensures SortTree(nodes) == nodes
  {
    SortTreeShape(nodes);
    FilesOnly(nodes);
  }

  lemma {:induction false} FilesOnly(nodes: seq<Node>)
    requires forall k :: 0 <= k < |nodes| ==> nodes[k].File?
    ensures Folders(nodes) == [] && Files(nodes) == nodes
  {
    if nodes != [] {
      FilesOnly(nodes[1..]);
    }
  }

  /** Files, then one folder, then files: the folder moves to the front. */
  lemma {:induction false} FiltersAround(a: seq<Node>, f: Node, b: seq<Node>)
    requires f.Folder?
    requires forall k :: 0 <= k < |a| ==> a[k].File?
    requires forall k :: 0 <= k < |b| ==> b[k].File?
    ensures Folders(a + [f] + b) == [f] && Files(a + [f] + b) == a + b
  {
    FilesOnly(a);
    FilesOnly(b);
    assert [f][1..] == [];
    assert Folders([f]) == [f] && Files([f]) == [];
    FiltersConcat(a, [f]);
    assert Folders(a + [f]) == [f] && Files(a + [f]) == a;
    FiltersConcat(a + [f], b);
  }

  /** The same, with the folder's subtree sorted and the files unchanged. */
  lemma SortAround(a: seq<Node>, f: Node, b: seq<Node>)
    requires f.Folder?
    requires forall k :: 0 <= k < |a| ==> a[k].File?
    requires forall k :: 0 <= k < |b| ==> b[k].File?
    ensures SortTree(a + [f] + b) == [Folder(f.id, f.name, SortTree(f.children))] + (a + b)
  {
    SortTreeShape(a + [f] + b);
    FiltersAround(a, f, b);
    SortOne(f);
  }

  lemma SortOne(f: Node)
    requires f.Folder?
    ensures SortEach([f]) == [Folder(f.id, f.name, SortTree(f.children))]
  {
    assert [f][1..] == [];
  }

  // ---------------------------------------------------------------------
  // Small record lists
  // ---------------------------------------------------------------------

  /** A file first and a folder after it: the folder is created at the
      root and sorted before the file. */
  lemma FileThenFolder(a: string, d: string, b: string, ra: FileRecord, rb: FileRecord)
    requires '/' !in d && '/' !in b && '/' !in a && a != d
    requires ra.path == a && rb.path == d + "/" + b
    ensures Hierarchy([ra, rb])
         == [Folder(rb.path, d, [File(rb.path, b, rb.content)])] + [File(a, a, ra.content)]
  {
    FileThenFolderBuild(a, d, b, ra, rb);
    FolderMovesFirst(File(a, a, ra.content), Folder(rb.path, d, [File(rb.path, b, rb.content)]));
  }

  /** A file and then a folder holding only files: the folder moves first. */
  lemma FolderMovesFirst(f: Node, dir: Node)
    requires f.File? && dir.Folder?
    requires forall k :: 0 <= k < |dir.children| ==> dir.children[k].File?
    ensures SortTree([f] + [dir]) == [dir] + [f]
  {
    assert [f] + [dir] + [] == [f] + [dir];
    SortAround([f], dir, []);
    SortFiles(dir.children);
    assert [f] + [] == [f];
  }

  lemma FileThenFolderBuild(a: string, d: string, b: string, ra: FileRecord, rb: FileRecord)
    requires '/' !in d && '/' !in b && '/' !in a && a != d
    requires ra.path == a && rb.path == d + "/" + b
    ensures Build([ra, rb]) == [File(a, a, ra.content)] + [Folder(rb.path, d, [File(rb.path, b, rb.content)])]
  {
    BuildPair(ra, rb);
    TopFile([], ra);
    assert [] + [File(a, a, ra.content)] == [File(a, a, ra.content)];
    NewFolderWithFile([File(a, a, ra.content)], rb, d, b);
  }

  /** A folder first and a top-level file after it: the file is not put at
      the root but under the folder. */
  lemma FolderThenFile(d: string, b: string, a: string, rb: FileRecord, ra: FileRecord)
    requires '/' !in d && '/' !in b && '/' !in a && a != d
    requires rb.path == d + "/" + b && ra.path == a
    ensures Hierarchy([rb, ra])
         == [Folder(rb.path, d, [File(rb.path, b, rb.content), File(a, a, ra.content)])]
  {
    FolderThenFileBuild(d, b, a, rb, ra);
    SortLone(Folder(rb.path, d, [File(rb.path, b, rb.content), File(a, a, ra.content)]));
  }

  /** A lone folder of files is already sorted. */
  lemma SortLone(dir: Node)
    requires dir.Folder?
    requires forall k :: 0 <= k < |dir.children| ==> dir.children[k].File?
    ensures SortTree([dir]) == [dir]
  {
    assert [] + [dir] == [dir];
    SortLast([], dir);
    SortFiles(dir.children);
  }

  lemma FolderThenFileBuild(d: string, b: string, a: string, rb: FileRecord, ra: FileRecord)
    requires '/' !in d && '/' !in b && '/' !in a && a != d
    requires rb.path == d + "/" + b && ra.path == a
    ensures Build([rb, ra]) == [Folder(rb.path, d, [File(rb.path, b, rb.content), File(a, a, ra.content)])]
  {
    var dir := Folder(rb.path, d, [File(rb.path, b, rb.content)]);
    BuildPair(rb, ra);
    NewFolderWithFile([], rb, d, b);
    assert [] + [dir] == [dir];
    FileUnderLoneFolder(dir, ra);
    assert [File(rb.path, b, rb.content)] + [File(a, a, ra.content)]
        == [File(rb.path, b, rb.content), File(a, a, ra.content)];
  }

  lemma FolderThenFileExample(rb: FileRecord, ra: FileRecord)
    requires rb.path == "dir/b.txt" && ra.path == "a.txt"
    ensures Hierarchy([rb, ra])
         == [Folder("dir/b.txt", "dir", [File("dir/b.txt", "b.txt", rb.content), File("a.txt", "a.txt", ra.content)])]
  {
    assert "dir" + "/" + "b.txt" == "dir/b.txt";
    FolderThenFile("dir", "b.txt", "a.txt", rb, ra);
  }

  /** The name lookup sees only the current level, so a second record for
      the same top-level file, arriving when a folder exists, adds a second
      file of that name under the folder instead of being ignored. */
  lemma RepeatedFileDuplicated(d: string, x: string, a: string, r1: FileRecord, r2: FileRecord, r3: FileRecord)
    requires '/' !in d && '/' !in x && '/' !in a && a != d && a != x
    requires r1.path == d + "/" + x && r2.path == a && r3.path == a
    ensures Build([r1, r2, r3])
         == [Folder(r1.path, d, [File(r1.path, x, r1.content), File(a, a, r2.content), File(a, a, r3.content)])]
  {
    BuildTriple(r1, r2, r3);
    var fx := File(r1.path, x, r1.content);
    NewFolderWithFile([], r1, d, x);
    assert [] + [Folder(r1.path, d, [fx])] == [Folder(r1.path, d, [fx])];
    FileUnderLoneFolder(Folder(r1.path, d, [fx]), r2);
    assert [fx] + [File(a, a, r2.content)] == [fx, File(a, a, r2.content)];
    FileUnderLoneFolder(Folder(r1.path, d, [fx, File(a, a, r2.content)]), r3);
    assert [fx, File(a, a, r2.content)] + [File(a, a, r3.content)]
        == [fx, File(a, a, r2.content), File(a, a, r3.content)];
  }

  /** A top-level file next to a lone folder of another name goes into it. */
  lemma FileUnderLoneFolder(dir: Node, r: FileRecord)
    requires dir.Folder? && '/' !in r.path && dir.name != r.path
    ensures InsertRecord([dir], r)
         == [Folder(dir.id, dir.name, dir.children + [File(r.path, r.path, r.content)])]
  {
    TopFileUnderFolder([dir], r, 0);
  }

  lemma RepeatedFileExample(r1: FileRecord, r2: FileRecord, r3: FileRecord)
    requires r1.path == "d/x" && r2.path == "a" && r3.path == "a"
    ensures var tree := Build([r1, r2, r3]);
            |tree| == 1 && tree[0].Folder? && |tree[0].children| == 3
            && tree[0].children[1] == File("a", "a", r2.content)
            && tree[0].children[2] == File("a", "a", r3.content)
  {
    assert "d" + "/" + "x" == "d/x";
    RepeatedFileDuplicated("d", "x", "a", r1, r2, r3);
  }

  // ---------------------------------------------------------------------
  // The sample project
  // ---------------------------------------------------------------------

  /** Thirteen names without `/`, all different. In the sample they are
      package.json, tailwind.config.js, src, index.tsx, App.tsx, pages,
      Home.tsx, About.tsx, Privacy.tsx, Location.tsx, Contact.tsx,
      index.css and tsconfig.json. */
  predicate SampleNames(n: seq<string>) {
    |n| == 13 && (forall k :: 0 <= k < |n| ==> '/' !in n[k]) &&
    (forall i, j :: 0 <= i < j < |n| ==> n[i] != n[j])
  }

  /** The eleven records of the sample, in their order, with the paths
      built from the names: two top-level files, two files in `src`, five
      in `src/pages`, one more in `src` and one more at the top. */
  predicate SampleRecords(n: seq<string>, fs: seq<FileRecord>)
    requires |n| == 13
  {
    |fs| == 11 &&
    fs[0].path == n[0] && fs[1].path == n[1] &&
    fs[2].path == n[2] + "/" + n[3] && fs[3].path == n[2] + "/" + n[4] &&
    fs[4].path == n[2] + "/" + n[5] + "/" + n[6] && fs[5].path == n[2] + "/" + n[5] + "/" + n[7] &&
    fs[6].path == n[2] + "/" + n[5] + "/" + n[8] && fs[7].path == n[2] + "/" + n[5] + "/" + n[9] &&
    fs[8].path == n[2] + "/" + n[5] + "/" + n[10] && fs[9].path == n[2] + "/" + n[11] &&
    fs[10].path == n[12]
  }

  /** The file node record `k` creates, named `n[m]`. */
  function SampleFile(n: seq<string>, fs: seq<FileRecord>, k: nat, m: nat): Node
    requires |n| == 13 && |fs| == 11 && k < 11 && m < 13
  {
    File(fs[k].path, n[m], fs[k].content)
  }

  /** The `src` folder, created by record 2, and the `pages` folder,
      created by record 4. */
  function Src(n: seq<string>, fs: seq<FileRecord>, kids: seq<Node>): Node
    requires |n| == 13 && |fs| == 11
  {
    Folder(fs[2].path, n[2], kids)
  }

  function Pages(n: seq<string>, fs: seq<FileRecord>, kids: seq<Node>): Node
    requires |n| == 13 && |fs| == 11
  {
    Folder(fs[4].path, n[5], kids)
  }

  /** The two top-level files. */
  function Top(n: seq<string>, fs: seq<FileRecord>): seq<Node>
    requires |n| == 13 && |fs| == 11
  {
    [SampleFile(n, fs, 0, 0), SampleFile(n, fs, 1, 1)]
  }

  /** The five page files and the stylesheet that lands next to them. */
  function PageFiles(n: seq<string>, fs: seq<FileRecord>): seq<Node>
    requires |n| == 13 && |fs| == 11
  {
    [SampleFile(n, fs, 4, 6), SampleFile(n, fs, 5, 7), SampleFile(n, fs, 6, 8),
     SampleFile(n, fs, 7, 9), SampleFile(n, fs, 8, 10), SampleFile(n, fs, 9, 11)]
  }

  /** The tree of client/src/pages/Builder.jsx: `src` (with id of its first
      file) first, holding `pages` first (with the page files and
      `index.css`), then `index.tsx`, `App.tsx` and `tsconfig.json`; then
      the two top-level files. */
  function SampleTree(n: seq<string>, fs: seq<FileRecord>): seq<Node>
    requires |n| == 13 && |fs| == 11
  {
    [Src(n, fs, [Pages(n, fs, PageFiles(n, fs))] + ([SampleFile(n, fs, 2, 3), SampleFile(n, fs, 3, 4)] + [SampleFile(n, fs, 10, 12)]))]
    + Top(n, fs)
  }

  lemma SampleStep0(n: seq<string>, fs: seq<FileRecord>)
    requires SampleNames(n) && SampleRecords(n, fs)
    ensures InsertRecord([], fs[0]) == [SampleFile(n, fs, 0, 0)]
  {
    TopFile([], fs[0]);
  }

  lemma SampleStep1(n: seq<string>, fs: seq<FileRecord>)
    requires SampleNames(n) && SampleRecords(n, fs)
    ensures InsertRecord([SampleFile(n, fs, 0, 0)], fs[1]) == Top(n, fs)
  {
    assert n[0] != n[1];
    TopFile([SampleFile(n, fs, 0, 0)], fs[1]);
  }

  lemma SampleStep2(n: seq<string>, fs: seq<FileRecord>)
    requires SampleNames(n) && SampleRecords(n, fs)
    ensures InsertRecord(Top(n, fs), fs[2]) == Top(n, fs) + [Src(n, fs, [SampleFile(n, fs, 2, 3)])]
  {
    assert n[0] != n[2] && n[1] != n[2];
    NewFolderWithFile(Top(n, fs), fs[2], n[2], n[3]);
  }

  /** A record under `src`: the rest of its path goes into `src`. */
  lemma SampleIntoSrc(n: seq<string>, fs: seq<FileRecord>, kids: seq<Node>, k: nat, parts: seq<string>)
    requires SampleNames(n) && SampleRecords(n, fs) && k < 11
    requires Split(fs[k].path, '/') == parts && |parts| >= 2 && parts[0] == n[2]
    ensures InsertRecord(Top(n, fs) + [Src(n, fs, kids)], fs[k])
         == Top(n, fs) + [Src(n, fs, InsertParts(kids, parts[1..], fs[k].path, fs[k].content))]
  {
    assert n[0] != n[2] && n[1] != n[2];
    var level := Top(n, fs) + [Src(n, fs, kids)];
    IntoFolder(level, fs[k], parts, 2);
  }

  lemma SampleStep3(n: seq<string>, fs: seq<FileRecord>)
    requires SampleNames(n) && SampleRecords(n, fs)
    ensures InsertRecord(Top(n, fs) + [Src(n, fs, [SampleFile(n, fs, 2, 3)])], fs[3])
         == Top(n, fs) + [Src(n, fs, [SampleFile(n, fs, 2, 3), SampleFile(n, fs, 3, 4)])]
  {
    SplitTwo(n[2], n[4]);
    SampleIntoSrc(n, fs, [SampleFile(n, fs, 2, 3)], 3, [n[2], n[4]]);
    assert [n[2], n[4]][1..] == [n[4]];
    assert n[3] != n[4];
    FileInLevel([SampleFile(n, fs, 2, 3)], n[4], fs[3].path, fs[3].content);
    assert InsertParts([SampleFile(n, fs, 2, 3)], [n[4]], fs[3].path, fs[3].content)
        == [SampleFile(n, fs, 2, 3), SampleFile(n, fs, 3, 4)];
    assert InsertRecord(Top(n, fs) + [Src(n, fs, [SampleFile(n, fs, 2, 3)])], fs[3])
        == Top(n, fs) + [Src(n, fs, InsertParts([SampleFile(n, fs, 2, 3)], [n[4]], fs[3].path, fs[3].content))];
  }

  lemma SampleStep4(n: seq<string>, fs: seq<FileRecord>)
    requires SampleNames(n) && SampleRecords(n, fs)
    ensures InsertRecord(Top(n, fs) + [Src(n, fs, [SampleFile(n, fs, 2, 3), SampleFile(n, fs, 3, 4)])], fs[4])
         == Top(n, fs) + [Src(n, fs, [SampleFile(n, fs, 2, 3), SampleFile(n, fs, 3, 4),
                                      Pages(n, fs, [SampleFile(n, fs, 4, 6)])])]
  {
    var kids := [SampleFile(n, fs, 2, 3), SampleFile(n, fs, 3, 4)];
    SplitThree(n[2], n[5], n[6]);
    SampleIntoSrc(n, fs, kids, 4, [n[2], n[5], n[6]]);
    assert [n[2], n[5], n[6]][1..] == [n[5], n[6]];
    assert n[3] != n[5] && n[4] != n[5];
    FolderInLevel(kids, n[5], n[6], fs[4].path, fs[4].content);
    assert InsertParts(kids, [n[5], n[6]], fs[4].path, fs[4].content)
        == kids + [Pages(n, fs, [SampleFile(n, fs, 4, 6)])];
    assert kids + [Pages(n, fs, [SampleFile(n, fs, 4, 6)])]
        == [SampleFile(n, fs, 2, 3), SampleFile(n, fs, 3, 4), Pages(n, fs, [SampleFile(n, fs, 4, 6)])];
    assert InsertRecord(Top(n, fs) + [Src(n, fs, kids)], fs[4])
        == Top(n, fs) + [Src(n, fs, InsertParts(kids, [n[5], n[6]], fs[4].path, fs[4].content))];
  }

  /** One more page: it goes into `pages`, after the pages already there. */
  lemma SamplePageStep(n: seq<string>, fs: seq<FileRecord>, ps: seq<Node>, k: nat)
    requires SampleNames(n) && SampleRecords(n, fs) && 5 <= k <= 8
    requires forall j :: 0 <= j < |ps| ==> ps[j].File? && ps[j].name != n[k + 2]
    ensures InsertRecord(Top(n, fs) + [Src(n, fs, [SampleFile(n, fs, 2, 3), SampleFile(n, fs, 3, 4), Pages(n, fs, ps)])], fs[k])
         == Top(n, fs) + [Src(n, fs, [SampleFile(n, fs, 2, 3), SampleFile(n, fs, 3, 4),
                                      Pages(n, fs, ps + [SampleFile(n, fs, k, k + 2)])])]
  {
    var kids := [SampleFile(n, fs, 2, 3), SampleFile(n, fs, 3, 4), Pages(n, fs, ps)];
    var x := n[k + 2];
    SplitThree(n[2], n[5], x);
    SampleIntoSrc(n, fs, kids, k, [n[2], n[5], x]);
    assert [n[2], n[5], x][1..] == [n[5], x];
    assert n[3] != n[5] && n[4] != n[5];
    IntoThird(SampleFile(n, fs, 2, 3), SampleFile(n, fs, 3, 4), fs[4].path, n[5], ps, x, fs[k].path, fs[k].content);
    assert InsertRecord(Top(n, fs) + [Src(n, fs, kids)], fs[k])
        == Top(n, fs) + [Src(n, fs, InsertParts(kids, [n[5], x], fs[k].path, fs[k].content))];
  }

  /** A two-segment path whose folder is the third node of a level: the
      file is appended to that folder's children. */
  lemma IntoThird(a: Node, b: Node, id: string, d: string, ps: seq<Node>, x: string, path: string, c: string)
    requires a.name != d && b.name != d
    requires forall j :: 0 <= j < |ps| ==> ps[j].File? && ps[j].name != x
    ensures InsertParts([a, b, Folder(id, d, ps)], [d, x], path, c) == [a, b, Folder(id, d, ps + [File(path, x, c)])]
  {
    var level := [a, b, Folder(id, d, ps)];
    EnterInLevel(level, d, x, path, c, 2);
    FileInLevel(ps, x, path, c);
  }

  /** A one-segment path naming nothing at a level of two files and a
      folder: the file goes under the folder. */
  lemma UnderThird(a: Node, b: Node, id: string, d: string, ps: seq<Node>, x: string, path: string, c: string)
    requires a.File? && b.File? && a.name != x && b.name != x && d != x
    ensures InsertParts([a, b, Folder(id, d, ps)], [x], path, c) == [a, b, Folder(id, d, ps + [File(path, x, c)])]
  {
    FileInLevelUnderFolder([a, b, Folder(id, d, ps)], x, path, c, 2);
  }

  lemma SampleStep9(n: seq<string>, fs: seq<FileRecord>, ps: seq<Node>)
    requires SampleNames(n) && SampleRecords(n, fs)
    ensures InsertRecord(Top(n, fs) + [Src(n, fs, [SampleFile(n, fs, 2, 3), SampleFile(n, fs, 3, 4), Pages(n, fs, ps)])], fs[9])
         == Top(n, fs) + [Src(n, fs, [SampleFile(n, fs, 2, 3), SampleFile(n, fs, 3, 4),
                                      Pages(n, fs, ps + [SampleFile(n, fs, 9, 11)])])]
  {
    var kids := [SampleFile(n, fs, 2, 3), SampleFile(n, fs, 3, 4), Pages(n, fs, ps)];
    SplitTwo(n[2], n[11]);
    SampleIntoSrc(n, fs, kids, 9, [n[2], n[11]]);
    assert [n[2], n[11]][1..] == [n[11]];
    assert n[3] != n[11] && n[4] != n[11] && n[5] != n[11];
    UnderThird(SampleFile(n, fs, 2, 3), SampleFile(n, fs, 3, 4), fs[4].path, n[5], ps, n[11], fs[9].path, fs[9].content);
    assert InsertRecord(Top(n, fs) + [Src(n, fs, kids)], fs[9])
        == Top(n, fs) + [Src(n, fs, InsertParts(kids, [n[11]], fs[9].path, fs[9].content))];
  }

  lemma SampleStep10(n: seq<string>, fs: seq<FileRecord>, kids: seq<Node>)
    requires SampleNames(n) && SampleRecords(n, fs)
    ensures InsertRecord(Top(n, fs) + [Src(n, fs, kids)], fs[10])
         == Top(n, fs) + [Src(n, fs, kids + [SampleFile(n, fs, 10, 12)])]
  {
    assert n[0] != n[12] && n[1] != n[12] && n[2] != n[12];
    TopFileUnderFolder(Top(n, fs) + [Src(n, fs, kids)], fs[10], 2);
  }

  lemma SampleBuildSrc(n: seq<string>, fs: seq<FileRecord>)
    requires SampleNames(n) && SampleRecords(n, fs)
    ensures Build(fs[..5])
         == Top(n, fs) + [Src(n, fs, [SampleFile(n, fs, 2, 3), SampleFile(n, fs, 3, 4),
                                      Pages(n, fs, [SampleFile(n, fs, 4, 6)])])]
  {
    assert fs[..0] == [];
    BuildStep(fs, 0); SampleStep0(n, fs);
    BuildStep(fs, 1); SampleStep1(n, fs);
    BuildStep(fs, 2); SampleStep2(n, fs);
    BuildStep(fs, 3); SampleStep3(n, fs);
    BuildStep(fs, 4); SampleStep4(n, fs);
  }

  /** The root level while the pages are being added. */
  function PagesLevel(n: seq<string>, fs: seq<FileRecord>, ps: seq<Node>): seq<Node>
    requires |n| == 13 && |fs| == 11
  {
    Top(n, fs) + [Src(n, fs, [SampleFile(n, fs, 2, 3), SampleFile(n, fs, 3, 4), Pages(n, fs, ps)])]
  }

  lemma SampleBuildPage(n: seq<string>, fs: seq<FileRecord>, k: nat)
    requires SampleNames(n) && SampleRecords(n, fs) && 5 <= k <= 8
    requires Build(fs[..k]) == PagesLevel(n, fs, PageFiles(n, fs)[..k - 4])
    ensures Build(fs[..k + 1]) == PagesLevel(n, fs, PageFiles(n, fs)[..k - 3])
  {
    var ps := PageFiles(n, fs)[..k - 4];
    PagesSoFar(n, fs, k, ps);
    BuildStep(fs, k);
    SamplePageStep(n, fs, ps, k);
  }

  /** The pages before record `k` are files with other names, and record
      `k` adds the next one. */
  lemma PagesSoFar(n: seq<string>, fs: seq<FileRecord>, k: nat, ps: seq<Node>)
    requires SampleNames(n) && |fs| == 11 && 5 <= k <= 8 && ps == PageFiles(n, fs)[..k - 4]
    ensures forall j :: 0 <= j < |ps| ==> ps[j].File? && ps[j].name != n[k + 2]
    ensures ps + [SampleFile(n, fs, k, k + 2)] == PageFiles(n, fs)[..k - 3]
  {
    var pf := PageFiles(n, fs);
    forall j | 0 <= j < |ps|
      ensures ps[j].File? && ps[j].name != n[k + 2]
    {
      assert ps[j] == pf[j] && pf[j].name == n[j + 6];
    }
    assert pf[k - 4] == SampleFile(n, fs, k, k + 2);
    assert pf[..k - 4] + [pf[k - 4]] == pf[..k - 3];
  }

  lemma SampleBuildFirstPages(n: seq<string>, fs: seq<FileRecord>)
    requires SampleNames(n) && SampleRecords(n, fs)
    ensures Build(fs[..7]) == PagesLevel(n, fs, PageFiles(n, fs)[..3])
  {
    SampleBuildSrc(n, fs);
    assert PageFiles(n, fs)[..1] == [SampleFile(n, fs, 4, 6)];
    SampleBuildPage(n, fs, 5);
    SampleBuildPage(n, fs, 6);
  }

  lemma SampleBuildNine(n: seq<string>, fs: seq<FileRecord>)
    requires SampleNames(n) && SampleRecords(n, fs)
    ensures Build(fs[..9]) == PagesLevel(n, fs, PageFiles(n, fs)[..5])
  {
    SampleBuildFirstPages(n, fs);
    SampleBuildPage(n, fs, 7);
    SampleBuildPage(n, fs, 8);
  }

  lemma SampleBuildPages(n: seq<string>, fs: seq<FileRecord>)
    requires SampleNames(n) && SampleRecords(n, fs)
    ensures Build(fs[..10]) == PagesLevel(n, fs, PageFiles(n, fs))
  {
    var ps := PageFiles(n, fs)[..5];
    SampleBuildNine(n, fs);
    BuildStep(fs, 9);
    SampleStep9(n, fs, ps);
    PagesLast(n, fs);
  }

  lemma PagesLast(n: seq<string>, fs: seq<FileRecord>)
    requires |n| == 13 && |fs| == 11
    ensures PageFiles(n, fs)[..5] + [SampleFile(n, fs, 9, 11)] == PageFiles(n, fs)
  {
  }

  lemma SampleBuild(n: seq<string>, fs: seq<FileRecord>)
    requires SampleNames(n) && SampleRecords(n, fs)
    ensures Build(fs)
         == Top(n, fs) + [Src(n, fs, [SampleFile(n, fs, 2, 3), SampleFile(n, fs, 3, 4)]
                                     + [Pages(n, fs, PageFiles(n, fs))] + [SampleFile(n, fs, 10, 12)])]
  {
    var kids := [SampleFile(n, fs, 2, 3), SampleFile(n, fs, 3, 4), Pages(n, fs, PageFiles(n, fs))];
    SampleBuildPages(n, fs);
    BuildLast(fs);
    SampleStep10(n, fs, kids);
    assert kids == [SampleFile(n, fs, 2, 3), SampleFile(n, fs, 3, 4)] + [Pages(n, fs, PageFiles(n, fs))];
  }

  /** The eleven records of the sample project give the tree the file
      explorer shows for it: `src` first and, inside it, `pages` first; the
      files of each level keep the order of their records. */
  lemma SampleHierarchy(n: seq<string>, fs: seq<FileRecord>)
    requires SampleNames(n) && SampleRecords(n, fs)
    ensures Hierarchy(fs) == SampleTree(n, fs)
  {
    SampleBuild(n, fs);
    SampleSort(n, fs);
  }

  lemma SampleSort(n: seq<string>, fs: seq<FileRecord>)
    requires |n| == 13 && |fs| == 11
    ensures SortTree(Top(n, fs) + [Src(n, fs, [SampleFile(n, fs, 2, 3), SampleFile(n, fs, 3, 4)]
                                              + [Pages(n, fs, PageFiles(n, fs))] + [SampleFile(n, fs, 10, 12)])])
         == SampleTree(n, fs)
  {
    SortSample(Top(n, fs), SampleFile(n, fs, 2, 3), SampleFile(n, fs, 3, 4), Pages(n, fs, PageFiles(n, fs)),
               SampleFile(n, fs, 10, 12), fs[2].path, n[2]);
  }

  /** Sorting a root of files plus one folder whose one sub-folder holds
      only files: the folder moves first, and inside it the sub-folder. */
  lemma SortSample(top: seq<Node>, a: Node, b: Node, p: Node, c: Node, id: string, name: string)
    requires forall k :: 0 <= k < |top| ==> top[k].File?
    requires a.File? && b.File? && c.File? && p.Folder?
    requires forall k :: 0 <= k < |p.children| ==> p.children[k].File?
    ensures SortTree(top + [Folder(id, name, [a, b] + [p] + [c])])
         == [Folder(id, name, [p] + ([a, b] + [c]))] + top
  {
    SortLast(top, Folder(id, name, [a, b] + [p] + [c]));
    SortInner(a, b, p, c);
  }

  /** A folder after files moves to the front. */
  lemma SortLast(top: seq<Node>, f: Node)
    requires forall k :: 0 <= k < |top| ==> top[k].File?
    requires f.Folder?
    ensures SortTree(top + [f]) == [Folder(f.id, f.name, SortTree(f.children))] + top
  {
    assert top + [f] == top + [f] + [];
    SortAround(top, f, []);
    assert top + [] == top;
  }

  lemma SortInner(a: Node, b: Node, p: Node, c: Node)
    requires a.File? && b.File? && c.File? && p.Folder?
    requires forall k :: 0 <= k < |p.children| ==> p.children[k].File?
    ensures SortTree([a, b] + [p] + [c]) == [p] + ([a, b] + [c])
  {
    SortAround([a, b], p, [c]);
    SortFiles(p.children);
  }

  /** The names of the sample project. */
  const SampleNameList: seq<string> :=
    ["package.json", "tailwind.config.js", "src", "index.tsx", "App.tsx", "pages",
     "Home.tsx", "About.tsx", "Privacy.tsx", "Location.tsx", "Contact.tsx",
     "index.css", "tsconfig.json"]

  lemma SampleNameListOk()
    ensures SampleNames(SampleNameList)
  {
    var n := SampleNameList;
    forall k | 0 <= k < |n| ensures '/' !in n[k] {
    }
    forall i, j | 0 <= i < j < |n| ensures n[i] != n[j] {
    }
  }

  /** The sample project's records (src/index.tsx, src/pages/Home.tsx and
      so on), whatever their contents and types, give the tree the builder
      page shows before any request. */
  lemma SampleProjectHierarchy(fs: seq<FileRecord>)
    requires SampleRecords(SampleNameList, fs)
    ensures Hierarchy(fs) == SampleTree(SampleNameList, fs)
  {
    SampleNameListOk();
    SampleHierarchy(SampleNameList, fs);
  }
}
