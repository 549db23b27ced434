/**
  The explorer tree built by `transformToHierarchy` in
  client/src/utils/FileSystem.js, and the functions that specify it.

  A node in the source is an object `{ id, name, type, content, children }`
  with `content` null exactly for folders and `children` null exactly for
  files; the two constructors of `Node` make that pairing hold by
  construction. `id` is the full path of the record whose processing created
  the node, not the node's own path.
 */
module FileTree {
  import opened Wrappers
  import opened JsString
  import opened Payload

  datatype Node =
    | Folder(id: string, name: string, children: seq<Node>)
    | File(id: string, name: string, content: string)

  // ---------------------------------------------------------------------
  // Lookups at one level (`currentLevel.find(...)`)
  // ---------------------------------------------------------------------

  /** `level.find(node => node.name === name)`, as the index of that node. */
  function FindByName(level: seq<Node>, name: string): (r: Option<nat>)
    ensures r.Some? ==> r.value < |level| && level[r.value].name == name
                        && forall j :: 0 <= j < r.value ==> level[j].name != name
    ensures r.None? ==> forall j :: 0 <= j < |level| ==> level[j].name != name
  {
    if level == [] then None
    else if level[0].name == name then Some(0)
    else
      match FindByName(level[1..], name)
      case None => None
      case Some(i) => Some(i + 1)
  }

  /** `level.find(node => node.type === "folder")`, as the index of that node. */
  function FirstFolder(level: seq<Node>): (r: Option<nat>)
    ensures r.Some? ==> r.value < |level| && level[r.value].Folder?
                        && forall j :: 0 <= j < r.value ==> level[j].File?
    ensures r.None? ==> forall j :: 0 <= j < |level| ==> level[j].File?
  {
    if level == [] then None
    else if level[0].Folder? then Some(0)
    else
      match FirstFolder(level[1..])
      case None => None
      case Some(i) => Some(i + 1)
  }

  // ---------------------------------------------------------------------
  // Building: the effect of one record, and of the whole list
  // ---------------------------------------------------------------------

  /** The level `level` after walking the remaining segments `parts` of the
      record (`path`, `content`), as the inner `forEach` does: a missing
      segment becomes a folder (or, for the last segment, a file that goes
      under the first folder of the level when there is one); an existing
      folder is entered; an existing file leaves the cursor where it is. */
  function InsertParts(level: seq<Node>, parts: seq<string>, path: string, content: string): (r: seq<Node>)
    ensures |level| <= |r| <= |level| + 1
    ensures forall i :: 0 <= i < |level| ==>
              r[i].id == level[i].id && r[i].name == level[i].name && r[i].Folder? == level[i].Folder?
    ensures |r| == |level| + 1 ==> r[|level|].id == path && r[|level|].name in parts
    decreases |parts|
  {
    if parts == [] then level
    else
      var part := parts[0];
      match FindByName(level, part)
      case None =>
        if |parts| > 1 then
          level + [Folder(path, part, InsertParts([], parts[1..], path, content))]
        else
          var file := File(path, part, content);
          (match FirstFolder(level)
           case Some(j) => level[j := level[j].(children := level[j].children + [file])]
           case None => level + [file])
      case Some(i) =>
        if level[i].Folder? then
          level[i := level[i].(children := InsertParts(level[i].children, parts[1..], path, content))]
        else
          InsertParts(level, parts[1..], path, content)
  }

  /** The root level after processing one record. */
  function InsertRecord(root: seq<Node>, r: FileRecord): (t: seq<Node>)
    ensures |root| <= |t| <= |root| + 1
    ensures forall i :: 0 <= i < |root| ==>
              t[i].id == root[i].id && t[i].name == root[i].name && t[i].Folder? == root[i].Folder?
    ensures |t| == |root| + 1 ==> t[|root|].id == r.path && t[|root|].name in Split(r.path, '/')
  {
    InsertParts(root, Split(r.path, '/'), r.path, r.content)
  }

  /** The unsorted tree after processing every record, in order. */
  function Build(files: seq<FileRecord>): (r: seq<Node>)
    ensures |r| <= |files|
  {
    if files == [] then []
    else InsertRecord(Build(files[..|files| - 1]), files[|files| - 1])
  }

  // ---------------------------------------------------------------------
  // Sorting: folders before files, at every level
  // ---------------------------------------------------------------------

  /** The folders of a level, in order. */
  function Folders(nodes: seq<Node>): (r: seq<Node>)
    ensures |r| <= |nodes| && forall i :: 0 <= i < |r| ==> r[i].Folder?
  {
    if nodes == [] then []
    else (if nodes[0].Folder? then [nodes[0]] else []) + Folders(nodes[1..])
  }

  /** The files of a level, in order. */
  function Files(nodes: seq<Node>): (r: seq<Node>)
    ensures |r| <= |nodes| && forall i :: 0 <= i < |r| ==> r[i].File?
  {
    if nodes == [] then []
    else (if nodes[0].File? then [nodes[0]] else []) + Files(nodes[1..])
  }

  /** Every folder of the level comes before every file. */
  predicate FoldersFirst(nodes: seq<Node>) {
    forall i, j :: 0 <= i < j < |nodes| && nodes[i].File? ==> nodes[j].File?
  }

  lemma {:induction false} FiltersConcat(a: seq<Node>, b: seq<Node>)
    ensures Folders(a + b) == Folders(a) + Folders(b)
    ensures Files(a + b) == Files(a) + Files(b)
  {
    if a == [] {
      assert a + b == b;
    } else {
      var ab := a + b;
      assert ab[0] == a[0] && ab[1..] == a[1..] + b;
      FiltersConcat(a[1..], b);
      assert Folders(ab) == (if a[0].Folder? then [a[0]] else []) + Folders(a[1..] + b);
      assert Files(ab) == (if a[0].File? then [a[0]] else []) + Files(a[1..] + b);
    }
  }

  lemma {:induction false} FiltersPartition(nodes: seq<Node>)
    ensures multiset(Folders(nodes)) + multiset(Files(nodes)) == multiset(nodes)
    ensures |Folders(nodes)| + |Files(nodes)| == |nodes|
  {
    if nodes != [] {
      FiltersPartition(nodes[1..]);
      assert nodes == [nodes[0]] + nodes[1..];
    }
  }

  lemma {:induction false} FoldersOfFilesEmpty(nodes: seq<Node>)
    ensures Folders(Files(nodes)) == [] && Files(Folders(nodes)) == []
    ensures Folders(Folders(nodes)) == Folders(nodes) && Files(Files(nodes)) == Files(nodes)
  {
    if nodes != [] {
      FoldersOfFilesEmpty(nodes[1..]);
      var h := [nodes[0]];
      assert Folders(h) == (if nodes[0].Folder? then h else []);
      assert Files(h) == (if nodes[0].File? then h else []);
      FiltersConcat(if nodes[0].File? then h else [], Files(nodes[1..]));
      FiltersConcat(if nodes[0].Folder? then h else [], Folders(nodes[1..]));
    }
  }

  /** `sortByType`: the level reordered so that folders come first, each
      group keeping its insertion order (a stable partition). */
  function SortByType(nodes: seq<Node>): (r: seq<Node>)
    ensures FoldersFirst(r)
    ensures multiset(r) == multiset(nodes) && |r| == |nodes|
    ensures Folders(r) == Folders(nodes) && Files(r) == Files(nodes)
  {
    Partitioned(nodes);
    Folders(nodes) + Files(nodes)
  }

  /** The folders of a level followed by its files are a stable partition of it. */
  lemma Partitioned(nodes: seq<Node>)
    ensures var r := Folders(nodes) + Files(nodes);
            FoldersFirst(r) && multiset(r) == multiset(nodes) && |r| == |nodes| &&
            Folders(r) == Folders(nodes) && Files(r) == Files(nodes)
  {
    var a: seq<Node>, b: seq<Node> := Folders(nodes), Files(nodes);
    var r := a + b;
    FiltersPartition(nodes);
    FoldersOfFilesEmpty(nodes);
    FiltersConcat(a, b);
    assert a + [] == a && [] + b == b;
    FoldersThenFiles(a, b);
  }

  /** Folders followed by files: no folder comes after a file. */
  lemma FoldersThenFiles(a: seq<Node>, b: seq<Node>)
    requires forall i :: 0 <= i < |a| ==> a[i].Folder?
    requires forall i :: 0 <= i < |b| ==> b[i].File?
    ensures FoldersFirst(a + b)
  {
    forall k | 0 <= k < |a + b| ensures (a + b)[k].File? <==> k >= |a| {
      if k < |a| {
        assert (a + b)[k] == a[k];
      } else {
        assert (a + b)[k] == b[k - |a|];
      }
    }
  }

  /** `sortHierarchy`: every level of the tree sorted by `SortByType`. */
  function SortTree(nodes: seq<Node>): (r: seq<Node>)
    ensures |r| == |nodes| && FoldersFirst(r)
    decreases nodes, 1
  {
    SortByType(SortEach(nodes))
  }

  /** Each node of a level with its own subtree sorted. */
  function SortEach(nodes: seq<Node>): (r: seq<Node>)
    ensures |r| == |nodes|
    decreases nodes, 0
  {
    if nodes == [] then [] else [SortNode(nodes[0])] + SortEach(nodes[1..])
  }

  function SortNode(n: Node): (r: Node)
    ensures r.id == n.id && r.name == n.name && r.Folder? == n.Folder?
    ensures n.File? ==> r == n
    ensures n.Folder? ==> |r.children| == |n.children| && FoldersFirst(r.children)
    decreases n
  {
    match n
    case Folder(id, name, children) => Folder(id, name, SortTree(children))
    case File(_, _, _) => n
  }

  /** Position `j` of `SortEach(nodes)` holds `nodes[j]` with its subtree sorted. */
  lemma {:induction false} SortEachIndex(nodes: seq<Node>)
    ensures forall j :: 0 <= j < |nodes| ==> SortEach(nodes)[j] == SortNode(nodes[j])
  {
    if nodes != [] {
      SortEachIndex(nodes[1..]);
    }
  }

  lemma {:induction false} SortEachConcat(a: seq<Node>, b: seq<Node>)
    ensures SortEach(a + b) == SortEach(a) + SortEach(b)
  {
    if a == [] {
      assert a + b == b;
    } else {
      assert (a + b)[0] == a[0] && (a + b)[1..] == a[1..] + b;
      SortEachConcat(a[1..], b);
    }
  }

  /** Sorting inside each node keeps its type, so it commutes with picking
      out the folders or the files of a level. */
  lemma {:induction false} SortEachFilters(nodes: seq<Node>)
    ensures Folders(SortEach(nodes)) == SortEach(Folders(nodes))
    ensures Files(SortEach(nodes)) == SortEach(Files(nodes))
  {
    if nodes != [] {
      var n := nodes[0];
      SortEachFilters(nodes[1..]);
      var h := [SortNode(n)];
      assert SortEach(nodes) == h + SortEach(nodes[1..]);
      FiltersConcat(h, SortEach(nodes[1..]));
      assert SortNode(n).Folder? == n.Folder?;
      var fh := if n.Folder? then [n] else [];
      var gh := if n.File? then [n] else [];
      SortEachConcat(fh, Folders(nodes[1..]));
      SortEachConcat(gh, Files(nodes[1..]));
      assert SortEach(fh) == (if n.Folder? then h else []);
      assert SortEach(gh) == (if n.File? then h else []);
    }
  }

  /** Sorting a level before sorting the whole subtree makes no difference:
      the source sorts each children array once before recursing into it and
      once more inside the recursion. */
  lemma SortTreeOfSorted(nodes: seq<Node>)
    ensures SortTree(SortByType(nodes)) == SortTree(nodes)
  {
    var fs, gs := Folders(nodes), Files(nodes);
    SortEachConcat(fs, gs);
    SortEachFilters(fs);
    SortEachFilters(gs);
    SortEachFilters(nodes);
    FoldersOfFilesEmpty(nodes);
    FiltersConcat(SortEach(fs), SortEach(gs));
    assert SortEach([]) == [];
  }

  /** The number of nodes in a forest. */
  function Count(nodes: seq<Node>): nat {
    if nodes == [] then 0
    else 1 + (if nodes[0].Folder? then Count(nodes[0].children) else 0) + Count(nodes[1..])
  }

  lemma {:induction false} CountConcat(a: seq<Node>, b: seq<Node>)
    ensures Count(a + b) == Count(a) + Count(b)
  {
    if a == [] {
      assert a + b == b;
    } else {
      assert (a + b)[0] == a[0] && (a + b)[1..] == a[1..] + b;
      CountConcat(a[1..], b);
    }
  }

  lemma {:induction false} CountFilters(nodes: seq<Node>)
    ensures Count(Folders(nodes)) + Count(Files(nodes)) == Count(nodes)
  {
    if nodes != [] {
      var n := nodes[0];
      CountFilters(nodes[1..]);
      CountConcat(if n.Folder? then [n] else [], Folders(nodes[1..]));
      CountConcat(if n.File? then [n] else [], Files(nodes[1..]));
      assert Count([n]) == 1 + (if n.Folder? then Count(n.children) else 0) by {
        assert [n][1..] == [];
      }
    }
  }

  lemma CountSortByType(nodes: seq<Node>)
    ensures Count(SortByType(nodes)) == Count(nodes)
  {
    CountConcat(Folders(nodes), Files(nodes));
    CountFilters(nodes);
  }

  /** A folder's subtree holds fewer nodes than the level it sits in. */
  lemma {:induction false} CountChildren(nodes: seq<Node>, i: nat)
    requires i < |nodes| && nodes[i].Folder?
    ensures Count(nodes[i].children) < Count(nodes)
  {
    if i > 0 {
      CountChildren(nodes[1..], i - 1);
    }
  }

  /** `transformToHierarchy(files)`: the built tree, sorted. */
  function Hierarchy(files: seq<FileRecord>): (r: seq<Node>)
    ensures |r| == |Build(files)| <= |files| && FoldersFirst(r)
  {
    SortTree(Build(files))
  }

  // ---------------------------------------------------------------------
  // The comparator handed to `Array.prototype.sort`
  // ---------------------------------------------------------------------

  /** The comparator as written: -1 for a folder against a file, 1 otherwise. */
  function CompareByType(a: Node, b: Node): int {
    if a.Folder? && b.File? then -1 else 1
  }

  /** The comparator as intended: folders before files, and 0 between two
      nodes of the same type. */
  function CompareByTypeFixed(a: Node, b: Node): (r: int)
    ensures r < 0 <==> a.Folder? && b.File?
    ensures r > 0 <==> a.File? && b.Folder?
  {
    if a.Folder? == b.Folder? then 0 else if a.Folder? then -1 else 1
  }
}
