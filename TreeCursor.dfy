/**
  The cursor `currentLevel` of `transformToHierarchy`: a reference to the
  children array of some folder (or to the root array), which the source
  reads with `find` and grows with `push`. Here it is the path of child
  indices leading from the root to that folder; `LevelAt` reads the level it
  designates and `Plug` writes a new level back in its place.
 */
module TreeCursor {
  import opened FileTree

  /** `cursor` designates a level: every index on it selects a folder. */
  predicate ValidCursor(level: seq<Node>, cursor: seq<nat>)
    decreases cursor
  {
    cursor == [] ||
    (cursor[0] < |level| && level[cursor[0]].Folder?
     && ValidCursor(level[cursor[0]].children, cursor[1..]))
  }

  /** The level the cursor designates. */
  function LevelAt(level: seq<Node>, cursor: seq<nat>): seq<Node>
    requires ValidCursor(level, cursor)
    decreases cursor
  {
    if cursor == [] then level
    else LevelAt(level[cursor[0]].children, cursor[1..])
  }

  /** The tree with the level the cursor designates replaced by `sub`. */
  function Plug(level: seq<Node>, cursor: seq<nat>, sub: seq<Node>): seq<Node>
    requires ValidCursor(level, cursor)
    decreases cursor
  {
    if cursor == [] then sub
    else
      var i := cursor[0];
      level[i := level[i].(children := Plug(level[i].children, cursor[1..], sub))]
  }

  /** Writing back the level that is there changes nothing. */
  lemma {:induction false} PlugLevelAt(level: seq<Node>, cursor: seq<nat>)
    requires ValidCursor(level, cursor)
    ensures Plug(level, cursor, LevelAt(level, cursor)) == level
    decreases cursor
  {
    if cursor != [] {
      PlugLevelAt(level[cursor[0]].children, cursor[1..]);
    }
  }

  /** After a write the cursor still designates a level, that level is what
      was written, and a second write overrides the first. */
  lemma {:induction false} PlugPlug(level: seq<Node>, cursor: seq<nat>, s1: seq<Node>, s2: seq<Node>)
    requires ValidCursor(level, cursor)
    ensures ValidCursor(Plug(level, cursor, s1), cursor)
    ensures LevelAt(Plug(level, cursor, s1), cursor) == s1
    ensures Plug(Plug(level, cursor, s1), cursor, s2) == Plug(level, cursor, s2)
    decreases cursor
  {
    if cursor != [] {
      var i := cursor[0];
      PlugPlug(level[i].children, cursor[1..], s1, s2);
    }
  }

  /** Descending into the folder at index `i` of the current level: the
      longer cursor is valid, designates that folder's children, and writing
      through it is writing the current level with that folder's children
      replaced. */
  lemma {:induction false} Descend(level: seq<Node>, cursor: seq<nat>, i: nat, sub: seq<Node>)
    requires ValidCursor(level, cursor)
    requires i < |LevelAt(level, cursor)| && LevelAt(level, cursor)[i].Folder?
    ensures ValidCursor(level, cursor + [i])
    ensures LevelAt(level, cursor + [i]) == LevelAt(level, cursor)[i].children
    ensures Plug(level, cursor + [i], sub)
            == Plug(level, cursor, LevelAt(level, cursor)[i := LevelAt(level, cursor)[i].(children := sub)])
    decreases cursor
  {
    if cursor == [] {
      assert [] + [i] == [i];
      assert [i][1..] == [];
    } else {
      var j := cursor[0];
      assert (cursor + [i])[0] == j && (cursor + [i])[1..] == cursor[1..] + [i];
      Descend(level[j].children, cursor[1..], i, sub);
    }
  }
}
