/**
  What `transformToHierarchy` guarantees, stated and proved about the
  functions of module FileTree (and so, through the ensures clauses of
  module FileSystem, about the methods that follow the source).
 */
module FileTreeFacts {
  import opened Wrappers
  import opened JsString
  import opened Payload
  import opened FileTree

  // ---------------------------------------------------------------------
  // The nodes of a forest, each without its children
  // ---------------------------------------------------------------------

  /** A node with its children dropped: what a node says about itself. */
  function Shallow(n: Node): (r: Node)
    ensures r.id == n.id && r.name == n.name && r.Folder? == n.Folder?
    ensures r.File? ==> r == n
  {
    match n
    case Folder(id, name, _) => Folder(id, name, [])
    case File(_, _, _) => n
  }

  /** Every node of the forest, without children, in depth-first order. */
  function Labels(nodes: seq<Node>): seq<Node> {
    if nodes == [] then []
    else [Shallow(nodes[0])] + (if nodes[0].Folder? then Labels(nodes[0].children) else []) + Labels(nodes[1..])
  }

  lemma {:induction false} LabelsConcat(a: seq<Node>, b: seq<Node>)
    ensures Labels(a + b) == Labels(a) + Labels(b)
  {
    if a == [] {
      assert a + b == b;
    } else {
      assert (a + b)[0] == a[0] && (a + b)[1..] == a[1..] + b;
      LabelsConcat(a[1..], b);
    }
  }

  lemma LabelsOne(n: Node)
    ensures Labels([n]) == [Shallow(n)] + (if n.Folder? then Labels(n.children) else [])
  {
    assert [n][1..] == [];
  }

  lemma {:induction false} LabelsFilters(nodes: seq<Node>)
    ensures multiset(Labels(Folders(nodes))) + multiset(Labels(Files(nodes))) == multiset(Labels(nodes))
  {
    if nodes != [] {
      LabelsFilters(nodes[1..]);
      LabelsFiltersStep(nodes);
    }
  }

  /** The step of `LabelsFilters`: the head goes to one of the two groups. */
  lemma LabelsFiltersStep(nodes: seq<Node>)
    requires nodes != []
    requires multiset(Labels(Folders(nodes[1..]))) + multiset(Labels(Files(nodes[1..])))
          == multiset(Labels(nodes[1..]))
    ensures multiset(Labels(Folders(nodes))) + multiset(Labels(Files(nodes))) == multiset(Labels(nodes))
  {
    var n, rest := nodes[0], nodes[1..];
    var head := [n];
    LabelsOne(n);
    assert Labels(nodes) == Labels(head) + Labels(rest);
    var h, fo, fi := multiset(Labels(head)), multiset(Labels(Folders(rest))), multiset(Labels(Files(rest)));
    assert multiset(Labels(nodes)) == h + (fo + fi);
    if n.Folder? {
      assert Folders(nodes) == head + Folders(rest) && Files(nodes) == Files(rest);
      LabelsConcat(head, Folders(rest));
      assert multiset(Labels(Folders(nodes))) == h + fo;
      UnionAssoc(h, fo, fi);
    } else {
      assert Files(nodes) == head + Files(rest) && Folders(nodes) == Folders(rest);
      LabelsConcat(head, Files(rest));
      assert multiset(Labels(Files(nodes))) == h + fi;
      UnionSwap(h, fo, fi);
    }
  }

  /** Multiset union is associative. */
  lemma UnionAssoc(x: multiset<Node>, y: multiset<Node>, z: multiset<Node>)
    ensures (x + y) + z == x + (y + z)
  {
  }

  /** The head of a union can move behind the next term. */
  lemma UnionSwap(x: multiset<Node>, y: multiset<Node>, z: multiset<Node>)
    ensures y + (x + z) == x + (y + z)
  {
  }

  // ---------------------------------------------------------------------
  // Sorting permutes each level and adds or removes no node
  // ---------------------------------------------------------------------

  /** Sorting keeps every node of the tree (each with its own id, name, type
      and content), adding none and dropping none. */
  lemma {:induction false} SortTreeLabels(nodes: seq<Node>)
    ensures multiset(Labels(SortTree(nodes))) == multiset(Labels(nodes))
    decreases nodes, 1
  {
    var each := SortEach(nodes);
    SortEachLabels(nodes);
    LabelsConcat(Folders(each), Files(each));
    LabelsFilters(each);
  }

  lemma {:induction false} SortEachLabels(nodes: seq<Node>)
    ensures multiset(Labels(SortEach(nodes))) == multiset(Labels(nodes))
    decreases nodes, 0
  {
    if nodes != [] {
      var n := nodes[0];
      assert nodes == [n] + nodes[1..];
      assert SortEach(nodes) == [SortNode(n)] + SortEach(nodes[1..]);
      LabelsConcat([SortNode(n)], SortEach(nodes[1..]));
      LabelsConcat([n], nodes[1..]);
      SortEachLabels(nodes[1..]);
      LabelsOne(n);
      LabelsOne(SortNode(n));
      if n.Folder? {
        SortTreeLabels(n.children);
      }
    }
  }

  /** Each node of a sorted level is a node of the unsorted level with its
      own subtree sorted; `k` is its position before sorting. */
  lemma SortTreeMember(nodes: seq<Node>, m: Node) returns (k: nat)
    requires m in SortTree(nodes)
    ensures k < |nodes| && m == SortNode(nodes[k])
  {
    var each := SortEach(nodes);
    var sorted := SortByType(each);
    assert m in multiset(sorted);
    assert m in multiset(each);
    k :| 0 <= k < |each| && each[k] == m;
    SortEachIndex(nodes);
  }

  /** Sorting keeps the order inside each group: the files of a level stay
      exactly as they were, and its folders stay in their order, each with
      its own subtree sorted. */
  lemma SortKeepsGroupOrder(nodes: seq<Node>)
    ensures Files(SortTree(nodes)) == Files(nodes)
    ensures Folders(SortTree(nodes)) == SortEach(Folders(nodes))
  {
    SortEachFilters(nodes);
    SortEachOfFiles(Files(nodes));
  }

  lemma {:induction false} SortEachOfFiles(nodes: seq<Node>)
    requires forall k :: 0 <= k < |nodes| ==> nodes[k].File?
    ensures SortEach(nodes) == nodes
  {
    if nodes != [] {
      SortEachOfFiles(nodes[1..]);
    }
  }

  /** At every level of a tree, folders come before files. */
  predicate FoldersFirstEverywhere(nodes: seq<Node>) {
    FoldersFirst(nodes) && forall n :: n in nodes && n.Folder? ==> FoldersFirstEverywhere(n.children)
  }

  lemma {:induction false} SortTreeFoldersFirst(nodes: seq<Node>)
    ensures FoldersFirstEverywhere(SortTree(nodes))
    decreases nodes
  {
    forall m | m in SortTree(nodes) && m.Folder?
      ensures FoldersFirstEverywhere(m.children)
    {
      var k := SortTreeMember(nodes, m);
      SortTreeFoldersFirst(nodes[k].children);
    }
  }

  // ---------------------------------------------------------------------
  // Every node comes from a record
  // ---------------------------------------------------------------------

  /** Node `l` (children aside) is one that processing record `r` creates:
      its id is the record's full path; a file is named by the last path
      segment and holds the record's content; a folder is named by one of
      the other segments. */
  predicate CreatedBy(l: Node, r: FileRecord) {
    var parts := Split(r.path, '/');
    l.id == r.path &&
    match l
    case File(_, name, content) => name == parts[|parts| - 1] && content == r.content
    case Folder(_, name, _) => name in parts[..|parts| - 1]
  }

  /** Some record of `files` created node `l`. */
  predicate Created(l: Node, files: seq<FileRecord>) {
    exists r :: r in files && CreatedBy(l, r)
  }

  /** Every node of the forest was created by one of the records. */
  predicate FromRecords(nodes: seq<Node>, files: seq<FileRecord>) {
    forall l :: l in Labels(nodes) ==> Created(l, files)
  }

  /** The labels of a level, cut around its node at `j`. */
  lemma LabelsAround(level: seq<Node>, j: nat)
    requires j < |level|
    ensures Labels(level) == Labels(level[..j]) + Labels([level[j]]) + Labels(level[j + 1..])
  {
    CutAround(level, j);
    LabelsThree(level, level[..j], [level[j]], level[j + 1..]);
  }

  lemma CutAround(level: seq<Node>, j: nat)
    requires j < |level|
    ensures level == level[..j] + [level[j]] + level[j + 1..]
  {
  }

  lemma LabelsThree(level: seq<Node>, a: seq<Node>, b: seq<Node>, c: seq<Node>)
    requires level == a + b + c
    ensures Labels(level) == Labels(a) + Labels(b) + Labels(c)
  {
    LabelsConcat(a + b, c);
    LabelsConcat(a, b);
  }

  /** A single node, with its subtree, was created by the records. */
  lemma FromRecordsOne(n: Node, files: seq<FileRecord>)
    ensures FromRecords([n], files)
            <==> Created(Shallow(n), files) && (n.Folder? ==> FromRecords(n.children, files))
  {
    LabelsOne(n);
  }

  lemma FromRecordsAppend(level: seq<Node>, n: Node, files: seq<FileRecord>)
    requires FromRecords(level, files) && FromRecords([n], files)
    ensures FromRecords(level + [n], files)
  {
    LabelsConcat(level, [n]);
  }

  lemma FromRecordsUpdate(level: seq<Node>, j: nat, n: Node, files: seq<FileRecord>)
    requires j < |level|
    requires FromRecords(level, files) && FromRecords([n], files)
    ensures FromRecords(level[j := n], files)
  {
    LabelsAround(level, j);
    LabelsAround(level[j := n], j);
    assert level[j := n][..j] == level[..j] && level[j := n][j + 1..] == level[j + 1..];
  }

  lemma FromRecordsAt(level: seq<Node>, j: nat, files: seq<FileRecord>)
    requires j < |level| && FromRecords(level, files)
    ensures FromRecords([level[j]], files)
  {
    LabelsAround(level, j);
  }

  /** A file created by `r` placed at a level of created nodes, under its
      first folder or at its end. */
  lemma PlaceFileFromRecords(level: seq<Node>, file: Node, files: seq<FileRecord>)
    requires file.File? && Created(file, files) && FromRecords(level, files)
    ensures FromRecords(match FirstFolder(level)
                        case Some(j) => level[j := level[j].(children := level[j].children + [file])]
                        case None => level + [file], files)
  {
    FromRecordsOne(file, files);
    match FirstFolder(level)
    case Some(j) =>
      var prev := level[j];
      var folder := prev.(children := prev.children + [file]);
      FromRecordsAt(level, j, files);
      FromRecordsOne(prev, files);
      FromRecordsAppend(prev.children, file, files);
      assert Shallow(folder) == Shallow(prev);
      FromRecordsOne(folder, files);
      FromRecordsUpdate(level, j, folder, files);
    case None =>
      FromRecordsAppend(level, file, files);
  }

  /** Replacing the children of the folder at `i` by created nodes. */
  lemma ReplaceChildrenFromRecords(level: seq<Node>, i: nat, sub: seq<Node>, files: seq<FileRecord>)
    requires i < |level| && level[i].Folder?
    requires FromRecords(level, files) && FromRecords(sub, files)
    ensures FromRecords(level[i := level[i].(children := sub)], files)
  {
    var prev := level[i];
    var folder := prev.(children := sub);
    FromRecordsAt(level, i, files);
    FromRecordsOne(prev, files);
    assert Shallow(folder) == Shallow(prev);
    FromRecordsOne(folder, files);
    FromRecordsUpdate(level, i, folder, files);
  }

  /** The children of a created folder were created too. */
  lemma ChildrenFromRecords(level: seq<Node>, i: nat, files: seq<FileRecord>)
    requires i < |level| && level[i].Folder? && FromRecords(level, files)
    ensures FromRecords(level[i].children, files)
  {
    FromRecordsAt(level, i, files);
    FromRecordsOne(level[i], files);
  }

  /** The file node for the last segment of `r`, placed at a level of created nodes. */
  lemma LastPartFromRecords(level: seq<Node>, r: FileRecord, part: string, files: seq<FileRecord>)
    requires r in files && FromRecords(level, files)
    requires part == Split(r.path, '/')[|Split(r.path, '/')| - 1]
    ensures FromRecords(match FirstFolder(level)
                        case Some(j) => level[j := level[j].(children := level[j].children + [File(r.path, part, r.content)])]
                        case None => level + [File(r.path, part, r.content)], files)
  {
    var file := File(r.path, part, r.content);
    assert CreatedBy(file, r);
    PlaceFileFromRecords(level, file, files);
  }

  /** A folder created by `r` around a subtree created by the records. */
  lemma NewFolderFromRecords(level: seq<Node>, r: FileRecord, part: string, sub: seq<Node>, files: seq<FileRecord>)
    requires r in files && FromRecords(level, files) && FromRecords(sub, files)
    requires part in Split(r.path, '/')[..|Split(r.path, '/')| - 1]
    ensures FromRecords(level + [Folder(r.path, part, sub)], files)
  {
    var folder := Folder(r.path, part, sub);
    assert CreatedBy(Shallow(folder), r);
    FromRecordsOne(folder, files);
    FromRecordsAppend(level, folder, files);
  }

  lemma {:induction false} InsertPartsFromRecords(level: seq<Node>, k: nat, r: FileRecord, files: seq<FileRecord>)
    requires r in files
    requires k <= |Split(r.path, '/')|
    requires FromRecords(level, files)
    ensures FromRecords(InsertParts(level, Split(r.path, '/')[k..], r.path, r.content), files)
    decreases |Split(r.path, '/')| - k, 1
  {
    var all := Split(r.path, '/');
    if k < |all| {
      match FindByName(level, all[k])
      case None =>
        if k < |all| - 1 {
          NewFolderCaseFromRecords(level, k, r, files);
        } else {
          NewFileCaseFromRecords(level, k, r, files);
        }
      case Some(i) =>
        if level[i].Folder? {
          EnterCaseFromRecords(level, k, r, files, i);
        } else {
          SkipCaseFromRecords(level, k, r, files, i);
        }
    }
  }

  lemma {:induction false} NewFolderCaseFromRecords(level: seq<Node>, k: nat, r: FileRecord, files: seq<FileRecord>)
    requires r in files && FromRecords(level, files)
    requires k < |Split(r.path, '/')| - 1 && FindByName(level, Split(r.path, '/')[k]).None?
    ensures FromRecords(InsertParts(level, Split(r.path, '/')[k..], r.path, r.content), files)
    decreases |Split(r.path, '/')| - k, 0
  {
    var all := Split(r.path, '/');
    var parts := all[k..];
    assert parts[0] == all[k] && parts[1..] == all[k + 1..];
    assert FromRecords([], files) by { assert Labels([]) == []; }
    InsertPartsFromRecords([], k + 1, r, files);
    assert all[k] in all[..|all| - 1];
    NewFolderFromRecords(level, r, all[k], InsertParts([], parts[1..], r.path, r.content), files);
  }

  lemma NewFileCaseFromRecords(level: seq<Node>, k: nat, r: FileRecord, files: seq<FileRecord>)
    requires r in files && FromRecords(level, files)
    requires k == |Split(r.path, '/')| - 1 && FindByName(level, Split(r.path, '/')[k]).None?
    ensures FromRecords(InsertParts(level, Split(r.path, '/')[k..], r.path, r.content), files)
  {
    var all := Split(r.path, '/');
    assert all[k..] == [all[k]];
    LastPartFromRecords(level, r, all[k], files);
  }

  lemma {:induction false} EnterCaseFromRecords(level: seq<Node>, k: nat, r: FileRecord, files: seq<FileRecord>, i: nat)
    requires r in files && FromRecords(level, files)
    requires k < |Split(r.path, '/')| && FindByName(level, Split(r.path, '/')[k]) == Some(i)
    requires i < |level| && level[i].Folder?
    ensures FromRecords(InsertParts(level, Split(r.path, '/')[k..], r.path, r.content), files)
    decreases |Split(r.path, '/')| - k, 0
  {
    var all := Split(r.path, '/');
    var parts := all[k..];
    assert parts[0] == all[k] && parts[1..] == all[k + 1..];
    ChildrenFromRecords(level, i, files);
    InsertPartsFromRecords(level[i].children, k + 1, r, files);
    ReplaceChildrenFromRecords(level, i, InsertParts(level[i].children, parts[1..], r.path, r.content), files);
  }

  lemma {:induction false} SkipCaseFromRecords(level: seq<Node>, k: nat, r: FileRecord, files: seq<FileRecord>, i: nat)
    requires r in files && FromRecords(level, files)
    requires k < |Split(r.path, '/')| && FindByName(level, Split(r.path, '/')[k]) == Some(i)
    requires i < |level| && level[i].File?
    ensures FromRecords(InsertParts(level, Split(r.path, '/')[k..], r.path, r.content), files)
    decreases |Split(r.path, '/')| - k, 0
  {
    var all := Split(r.path, '/');
    var parts := all[k..];
    assert parts[0] == all[k] && parts[1..] == all[k + 1..];
    InsertPartsFromRecords(level, k + 1, r, files);
  }

  lemma {:induction false} BuildFromRecords(files: seq<FileRecord>, m: nat)
    requires m <= |files|
    ensures FromRecords(Build(files[..m]), files)
  {
    if m > 0 {
      var prefix := files[..m];
      var r := files[m - 1];
      assert prefix[..m - 1] == files[..m - 1] && prefix[m - 1] == r;
      var prev := Build(files[..m - 1]);
      assert Build(prefix) == InsertRecord(prev, r);
      BuildFromRecords(files, m - 1);
      InsertPartsFromRecords(prev, 0, r, files);
      assert Split(r.path, '/')[0..] == Split(r.path, '/');
    }
  }

  /** Every node of the explorer tree was created by one of the records: its
      id is that record's full path (so a folder's id is the path of the
      file whose record created it); a file node is named by the last path
      segment and holds that record's content; a folder is named by another
      segment of that path. */
  lemma HierarchyFromRecords(files: seq<FileRecord>)
    ensures FromRecords(Hierarchy(files), files)
  {
    BuildFromRecords(files, |files|);
    assert files[..|files|] == files;
    var built := Build(files);
    SortTreeLabels(built);
    forall l | l in Labels(Hierarchy(files)) ensures Created(l, files) {
      assert l in multiset(Labels(SortTree(built)));
      assert l in Labels(built);
    }
  }

  // ---------------------------------------------------------------------
  // An existing folder is entered, never duplicated
  // ---------------------------------------------------------------------

  /** The names of the folders of a level, in order. */
  function FolderNames(nodes: seq<Node>): seq<string> {
    if nodes == [] then []
    else (if nodes[0].Folder? then [nodes[0].name] else []) + FolderNames(nodes[1..])
  }

  predicate Distinct(names: seq<string>) {
    forall i, j :: 0 <= i < j < |names| ==> names[i] != names[j]
  }

  /** No two folders of the same level share a name, at any level. */
  predicate UniqueFolderNames(nodes: seq<Node>) {
    Distinct(FolderNames(nodes)) && forall n :: n in nodes && n.Folder? ==> UniqueFolderNames(n.children)
  }

  lemma {:induction false} FolderNamesConcat(a: seq<Node>, b: seq<Node>)
    ensures FolderNames(a + b) == FolderNames(a) + FolderNames(b)
  {
    if a == [] {
      assert a + b == b;
    } else {
      assert (a + b)[0] == a[0] && (a + b)[1..] == a[1..] + b;
      FolderNamesConcat(a[1..], b);
    }
  }

  lemma {:induction false} FolderNamesMember(nodes: seq<Node>, x: string) returns (i: nat)
    requires x in FolderNames(nodes)
    ensures i < |nodes| && nodes[i].Folder? && nodes[i].name == x
  {
    if nodes[0].Folder? && nodes[0].name == x {
      i := 0;
    } else {
      var j := FolderNamesMember(nodes[1..], x);
      i := j + 1;
    }
  }

  /** Replacing a node by one of the same type and name keeps the folder names. */
  lemma FolderNamesUpdate(level: seq<Node>, j: nat, n: Node)
    requires j < |level| && n.Folder? == level[j].Folder? && n.name == level[j].name
    ensures FolderNames(level[j := n]) == FolderNames(level)
  {
    var pre, post := level[..j], level[j + 1..];
    assert level == pre + [level[j]] + post;
    assert level[j := n] == pre + [n] + post;
    FolderNamesConcat(pre + [level[j]], post);
    FolderNamesConcat(pre, [level[j]]);
    FolderNamesConcat(pre + [n], post);
    FolderNamesConcat(pre, [n]);
    assert FolderNames([n]) == FolderNames([level[j]]) by {
      assert [n][1..] == [] && [level[j]][1..] == [];
    }
  }

  lemma UniqueAppend(level: seq<Node>, n: Node)
    requires UniqueFolderNames(level)
    requires n.Folder? ==> n.name !in FolderNames(level) && UniqueFolderNames(n.children)
    ensures UniqueFolderNames(level + [n])
  {
    FolderNamesConcat(level, [n]);
    assert [n][1..] == [];
  }

  lemma UniqueUpdate(level: seq<Node>, j: nat, n: Node)
    requires UniqueFolderNames(level) && j < |level|
    requires n.Folder? == level[j].Folder? && n.name == level[j].name
    requires n.Folder? ==> UniqueFolderNames(n.children)
    ensures UniqueFolderNames(level[j := n])
  {
    FolderNamesUpdate(level, j, n);
    forall m | m in level[j := n] && m.Folder? ensures UniqueFolderNames(m.children) {
      var k :| 0 <= k < |level| && level[j := n][k] == m;
      if k != j {
        assert m in level;
      }
    }
  }

  /** Walking a record's segments never creates a folder beside a folder of
      the same name: a missing name gets a new node, a present one is
      reused. */
  lemma {:induction false} InsertPartsUnique(level: seq<Node>, parts: seq<string>, path: string, content: string)
    requires UniqueFolderNames(level)
    ensures UniqueFolderNames(InsertParts(level, parts, path, content))
    decreases |parts|
  {
    if parts != [] {
      var part := parts[0];
      match FindByName(level, part)
      case None =>
        if part in FolderNames(level) {
          var i := FolderNamesMember(level, part);
        }
        if |parts| > 1 {
          assert UniqueFolderNames([]) by { assert FolderNames([]) == []; }
          InsertPartsUnique([], parts[1..], path, content);
          UniqueAppend(level, Folder(path, part, InsertParts([], parts[1..], path, content)));
        } else {
          var file := File(path, part, content);
          match FirstFolder(level)
          case Some(j) =>
            var prev := level[j];
            assert prev in level;
            UniqueAppend(prev.children, file);
            UniqueUpdate(level, j, prev.(children := prev.children + [file]));
          case None =>
            UniqueAppend(level, file);
        }
      case Some(i) =>
        if level[i].Folder? {
          var prev := level[i];
          assert prev in level;
          InsertPartsUnique(prev.children, parts[1..], path, content);
          UniqueUpdate(level, i, prev.(children := InsertParts(prev.children, parts[1..], path, content)));
        } else {
          InsertPartsUnique(level, parts[1..], path, content);
        }
    }
  }

  lemma {:induction false} BuildUnique(files: seq<FileRecord>)
    ensures UniqueFolderNames(Build(files))
  {
    if files == [] {
      assert FolderNames([]) == [];
    } else {
      var r := files[|files| - 1];
      BuildUnique(files[..|files| - 1]);
      InsertPartsUnique(Build(files[..|files| - 1]), Split(r.path, '/'), r.path, r.content);
    }
  }

  lemma {:induction false} FolderNamesFilters(nodes: seq<Node>)
    ensures FolderNames(Folders(nodes)) == FolderNames(nodes)
    ensures FolderNames(Files(nodes)) == []
  {
    if nodes != [] {
      var n := nodes[0];
      FolderNamesFilters(nodes[1..]);
      FolderNamesConcat(if n.Folder? then [n] else [], Folders(nodes[1..]));
      FolderNamesConcat(if n.File? then [n] else [], Files(nodes[1..]));
      assert [n][1..] == [];
      assert FolderNames([]) == [];
    }
  }

  lemma {:induction false} FolderNamesSortEach(nodes: seq<Node>)
    ensures FolderNames(SortEach(nodes)) == FolderNames(nodes)
  {
    if nodes != [] {
      FolderNamesSortEach(nodes[1..]);
      assert SortEach(nodes)[1..] == SortEach(nodes[1..]);
    }
  }

  /** Sorting a level keeps its folder names in their order. */
  lemma FolderNamesSortTree(nodes: seq<Node>)
    ensures FolderNames(SortTree(nodes)) == FolderNames(nodes)
  {
    var each := SortEach(nodes);
    FolderNamesSortEach(nodes);
    FolderNamesConcat(Folders(each), Files(each));
    FolderNamesFilters(each);
  }

  lemma {:induction false} SortTreeUnique(nodes: seq<Node>)
    requires UniqueFolderNames(nodes)
    ensures UniqueFolderNames(SortTree(nodes))
    decreases nodes
  {
    FolderNamesSortTree(nodes);
    forall m | m in SortTree(nodes) && m.Folder?
      ensures UniqueFolderNames(m.children)
    {
      var k := SortTreeMember(nodes, m);
      assert nodes[k] in nodes;
      SortTreeUnique(nodes[k].children);
    }
  }

  // ---------------------------------------------------------------------
  // The tree `transformToHierarchy` returns
  // ---------------------------------------------------------------------

  /** Folders come before files at every level of the explorer tree. */
  lemma HierarchyFoldersFirst(files: seq<FileRecord>)
    ensures FoldersFirstEverywhere(Hierarchy(files))
  {
    SortTreeFoldersFirst(Build(files));
  }

  /** No level of the explorer tree holds two folders with the same name. */
  lemma HierarchyUniqueFolderNames(files: seq<FileRecord>)
    ensures UniqueFolderNames(Hierarchy(files))
  {
    BuildUnique(files);
    SortTreeUnique(Build(files));
  }

  // ---------------------------------------------------------------------
  // A record that names nothing new changes nothing
  // ---------------------------------------------------------------------

  /** Walking `parts` from `level` finds every segment up to the last one:
      each is the name of a node at the current level (a folder moves the
      walk into its children, a file leaves it where it is). */
  predicate Resolves(level: seq<Node>, parts: seq<string>)
    decreases |parts|
  {
    parts != [] &&
    match FindByName(level, parts[0])
    case None => false
    case Some(i) =>
      |parts| == 1 ||
      (if level[i].Folder? then Resolves(level[i].children, parts[1..]) else Resolves(level, parts[1..]))
  }

  lemma {:induction false} ResolvedInsertIsNoOp(level: seq<Node>, parts: seq<string>, path: string, content: string)
    requires Resolves(level, parts)
    ensures InsertParts(level, parts, path, content) == level
    decreases |parts|
  {
    var i := FindByName(level, parts[0]).value;
    if |parts| == 1 {
      if level[i].Folder? {
        assert parts[1..] == [];
        assert level[i].(children := level[i].children) == level[i];
      }
    } else if level[i].Folder? {
      ResolvedInsertIsNoOp(level[i].children, parts[1..], path, content);
      assert level[i].(children := level[i].children) == level[i];
    } else {
      ResolvedInsertIsNoOp(level, parts[1..], path, content);
    }
  }

  lemma CountOne(n: Node)
    ensures Count([n]) == 1 + (if n.Folder? then Count(n.children) else 0)
  {
    assert [n][1..] == [];
  }

  lemma CountUpdate(level: seq<Node>, j: nat, n: Node)
    requires j < |level|
    ensures Count(level[j := n]) + Count([level[j]]) == Count(level) + Count([n])
  {
    var pre, post := level[..j], level[j + 1..];
    assert level == pre + [level[j]] + post;
    assert level[j := n] == pre + [n] + post;
    CountConcat(pre + [level[j]], post);
    CountConcat(pre, [level[j]]);
    CountConcat(pre + [n], post);
    CountConcat(pre, [n]);
  }

  lemma {:induction false} UnresolvedInsertGrows(level: seq<Node>, parts: seq<string>, path: string, content: string)
    requires parts != [] && !Resolves(level, parts)
    ensures Count(InsertParts(level, parts, path, content)) > Count(level)
    decreases |parts|
  {
    var part := parts[0];
    match FindByName(level, part)
    case None =>
      if |parts| > 1 {
        var folder := Folder(path, part, InsertParts([], parts[1..], path, content));
        CountConcat(level, [folder]);
        CountOne(folder);
      } else {
        var file := File(path, part, content);
        CountOne(file);
        match FirstFolder(level)
        case Some(j) =>
          var prev := level[j];
          var folder := prev.(children := prev.children + [file]);
          CountUpdate(level, j, folder);
          CountOne(prev);
          CountOne(folder);
          CountConcat(prev.children, [file]);
        case None =>
          CountConcat(level, [file]);
      }
    case Some(i) =>
      if level[i].Folder? {
        var prev := level[i];
        var sub := InsertParts(prev.children, parts[1..], path, content);
        UnresolvedInsertGrows(prev.children, parts[1..], path, content);
        CountUpdate(level, i, prev.(children := sub));
        CountOne(prev);
        CountOne(prev.(children := sub));
      } else {
        UnresolvedInsertGrows(level, parts[1..], path, content);
      }
  }

  /** A record leaves the tree unchanged exactly when walking its path finds
      every segment, the last one included: in particular a second record
      with the path of an earlier one found at the same place is dropped,
      and the first content wins. */
  lemma RecordUnchangedIffResolves(files: seq<FileRecord>, r: FileRecord)
    ensures Build(files + [r]) == Build(files) <==> Resolves(Build(files), Split(r.path, '/'))
  {
    assert (files + [r])[..|files|] == files;
    var parts := Split(r.path, '/');
    if Resolves(Build(files), parts) {
      ResolvedInsertIsNoOp(Build(files), parts, r.path, r.content);
    } else {
      UnresolvedInsertGrows(Build(files), parts, r.path, r.content);
    }
  }
}
