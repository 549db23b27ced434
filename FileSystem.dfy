/**
  client/src/utils/FileSystem.js: `transformToHierarchy` with its inner
  `sortByType` and `sortHierarchy`, and `fileExplorerData`.

  The methods follow the source step by step (the loop over records, the
  loop over path segments moving the cursor, the loop over a level during
  the sort) and are proved equal to the functions of module FileTree.
 */
module FileSystem {
  import opened Wrappers
  import opened JsString
  import opened Payload
  import opened FileTree
  import opened TreeCursor

  /** `transformToHierarchy(files)`. */
  method TransformToHierarchy(files: seq<FileRecord>) returns (tree: seq<Node>)
    ensures tree == Hierarchy(files)
    ensures files == [] ==> tree == []
  {
    var root: seq<Node> := [];
    var f := 0;
    while f < |files|
      invariant 0 <= f <= |files|
      invariant root == Build(files[..f])
    {
      var file := files[f];
      var pathParts := Split(file.path, '/');
      var cursor: seq<nat> := [];
      ghost var target := InsertParts(root, pathParts, file.path, file.content);
      var k := 0;
      RecordStart(root, pathParts, file.path, file.content);
      while k < |pathParts|
        invariant 0 <= k <= |pathParts|
        invariant Inserting(root, cursor, pathParts[k..], file.path, file.content, target)
      {
        var part := pathParts[k];
        var currentLevel := LevelAt(root, cursor);
        ghost var rest := pathParts[k..];
        assert rest[0] == part && rest[1..] == pathParts[k + 1..];
        var existing := FindByName(currentLevel, part);
        if existing.None? {
          var isFile := k == |pathParts| - 1;
          if !isFile {
            // a new folder is pushed at the current level and entered
            var newNode := Folder(file.path, part, []);
            NewFolderStep(root, cursor, rest, file.path, file.content, target);
            root := Plug(root, cursor, currentLevel + [newNode]);
            cursor := cursor + [|currentLevel|];
          } else {
            // a new file goes under the first folder of the level, if any
            var newNode := File(file.path, part, file.content);
            var folder := FirstFolder(currentLevel);
            var updated: seq<Node>;
            if folder.Some? {
              var j := folder.value;
              updated := currentLevel[j := currentLevel[j].(children := currentLevel[j].children + [newNode])];
            } else {
              updated := currentLevel + [newNode];
            }
            NewFileStep(root, cursor, rest, file.path, file.content, target, updated);
            root := Plug(root, cursor, updated);
          }
        } else {
          var i := existing.value;
          if currentLevel[i].Folder? {
            // an existing folder is entered
            EnterStep(root, cursor, rest, file.path, file.content, target, i);
            cursor := cursor + [i];
          } else {
            SkipStep(root, cursor, rest, file.path, file.content, target, i);
          }
        }
        k := k + 1;
      }
      RecordDone(files, f, root, cursor, target);
      f := f + 1;
    }
    assert files[..|files|] == files;
    tree := SortHierarchy(root);
  }

  /** While one record is inserted: `cursor` is valid in `root`, and
      inserting the remaining path segments at the level it designates, then
      writing that level back, gives `target`. */
  ghost predicate Inserting(root: seq<Node>, cursor: seq<nat>, rest: seq<string>, path: string, content: string,
                            target: seq<Node>)
  {
    ValidCursor(root, cursor) && Plug(root, cursor, InsertParts(LevelAt(root, cursor), rest, path, content)) == target
  }

  /** Before the first segment the cursor is at the root. */
  lemma RecordStart(root: seq<Node>, parts: seq<string>, path: string, content: string)
    ensures Inserting(root, [], parts[0..], path, content, InsertParts(root, parts, path, content))
  {
    assert parts[0..] == parts;
  }

  /** After the last segment the root holds the record. */
  lemma RecordDone(files: seq<FileRecord>, f: nat, root: seq<Node>, cursor: seq<nat>, target: seq<Node>)
    requires f < |files|
    requires target == InsertRecord(Build(files[..f]), files[f])
    requires Inserting(root, cursor, Split(files[f].path, '/')[|Split(files[f].path, '/')|..],
                       files[f].path, files[f].content, target)
    ensures root == Build(files[..f + 1])
  {
    PlugLevelAt(root, cursor);
    assert files[..f + 1][..f] == files[..f];
  }

  /** A missing segment that is not the last: a new folder is pushed and entered. */
  lemma NewFolderStep(root: seq<Node>, cursor: seq<nat>, rest: seq<string>, path: string, content: string,
                      target: seq<Node>)
    requires Inserting(root, cursor, rest, path, content, target) && |rest| >= 2
    requires FindByName(LevelAt(root, cursor), rest[0]).None?
    ensures Inserting(Plug(root, cursor, LevelAt(root, cursor) + [Folder(path, rest[0], [])]),
                      cursor + [|LevelAt(root, cursor)|], rest[1..], path, content, target)
  {
    var level := LevelAt(root, cursor);
    var newNode := Folder(path, rest[0], []);
    var sub := InsertParts([], rest[1..], path, content);
    var grown := level + [newNode];
    PlugPlug(root, cursor, grown, grown[|level| := newNode.(children := sub)]);
    Descend(Plug(root, cursor, grown), cursor, |level|, sub);
    assert grown[|level| := newNode.(children := sub)] == level + [Folder(path, rest[0], sub)];
  }

  /** A missing last segment: the file is placed and the record is done. */
  lemma NewFileStep(root: seq<Node>, cursor: seq<nat>, rest: seq<string>, path: string, content: string,
                    target: seq<Node>, updated: seq<Node>)
    requires Inserting(root, cursor, rest, path, content, target) && |rest| == 1
    requires FindByName(LevelAt(root, cursor), rest[0]).None?
    requires var level := LevelAt(root, cursor);
             match FirstFolder(level)
             case Some(j) => updated == level[j := level[j].(children := level[j].children + [File(path, rest[0], content)])]
             case None => updated == level + [File(path, rest[0], content)]
    ensures Inserting(Plug(root, cursor, updated), cursor, rest[1..], path, content, target)
  {
    PlugPlug(root, cursor, updated, updated);
  }

  /** An existing folder: the cursor enters it. */
  lemma EnterStep(root: seq<Node>, cursor: seq<nat>, rest: seq<string>, path: string, content: string,
                  target: seq<Node>, i: nat)
    requires Inserting(root, cursor, rest, path, content, target) && rest != []
    requires FindByName(LevelAt(root, cursor), rest[0]) == Some(i)
    requires i < |LevelAt(root, cursor)| && LevelAt(root, cursor)[i].Folder?
    ensures Inserting(root, cursor + [i], rest[1..], path, content, target)
  {
    var level := LevelAt(root, cursor);
    Descend(root, cursor, i, InsertParts(level[i].children, rest[1..], path, content));
  }

  /** An existing file of that name: the segment is skipped. */
  lemma SkipStep(root: seq<Node>, cursor: seq<nat>, rest: seq<string>, path: string, content: string,
                 target: seq<Node>, i: nat)
    requires Inserting(root, cursor, rest, path, content, target) && rest != []
    requires FindByName(LevelAt(root, cursor), rest[0]) == Some(i)
    requires i < |LevelAt(root, cursor)| && LevelAt(root, cursor)[i].File?
    ensures Inserting(root, cursor, rest[1..], path, content, target)
  {
  }

  /** `sortHierarchy(nodes)`: sorts the children of every folder of the
      level (first with `sortByType`, then recursively), then the level. */
  method SortHierarchy(nodes: seq<Node>) returns (sorted: seq<Node>)
    ensures sorted == SortTree(nodes)
    decreases Count(nodes)
  {
    var level := nodes;
    var i := 0;
    while i < |level|
      invariant 0 <= i <= |level| == |nodes|
      invariant forall j :: 0 <= j < i ==> level[j] == SortNode(nodes[j])
      invariant forall j :: i <= j < |level| ==> level[j] == nodes[j]
    {
      if level[i].Folder? {
        var node := level[i];
        var children := SortByType(node.children);
        FolderStep(nodes, i);
        children := SortHierarchy(children);
        level := level[i := Folder(node.id, node.name, children)];
      }
      i := i + 1;
    }
    SortEachPointwise(nodes, level);
    sorted := SortByType(level);
  }

  /** The recursive call on folder `i` of a level: it is on a smaller tree,
      and sorting the already type-sorted children gives the sorted folder. */
  lemma FolderStep(nodes: seq<Node>, i: nat)
    requires i < |nodes| && nodes[i].Folder?
    ensures Count(SortByType(nodes[i].children)) < Count(nodes)
    ensures Folder(nodes[i].id, nodes[i].name, SortTree(SortByType(nodes[i].children))) == SortNode(nodes[i])
  {
    CountChildren(nodes, i);
    CountSortByType(nodes[i].children);
    SortTreeOfSorted(nodes[i].children);
  }

  /** A level whose every node is the sorted node of `nodes` is `SortEach(nodes)`. */
  lemma SortEachPointwise(nodes: seq<Node>, level: seq<Node>)
    requires |level| == |nodes|
    requires forall j :: 0 <= j < |level| ==> level[j] == SortNode(nodes[j])
    ensures level == SortEach(nodes)
  {
    SortEachIndex(nodes);
  }

  /** `fileExplorerData(data)`: the hierarchy of the response's file list. */
  method FileExplorerData(data: GenerationResponse) returns (tree: seq<Node>)
    ensures tree == Hierarchy(data.code.files)
  {
    tree := TransformToHierarchy(data.code.files);
  }
}
