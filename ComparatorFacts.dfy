/**
  The comparator `sortByType` hands to `Array.prototype.sort` in
  client/src/utils/FileSystem.js answers 1 for two folders and for two
  files, so it claims each of two same-typed nodes is greater than the
  other. The model sorts with the stable partition `SortByType`, which is
  exactly a stable sort by the corrected comparator `CompareByTypeFixed`.
 */
module ComparatorFacts {
  import opened FileTree

  /** As written, two nodes of the same type are each "greater" than the
      other, which a consistent comparator never answers. */
  lemma CompareByTypeInconsistent()
    ensures var a, b := Folder("a", "a", []), Folder("b", "b", []);
            CompareByType(a, b) > 0 && CompareByType(b, a) > 0
    ensures var a, b := File("a", "a", ""), File("b", "b", "");
            CompareByType(a, b) > 0 && CompareByType(b, a) > 0
  {
  }

  /** The two comparators agree on every "less than" answer, the only kind
      a sort needs to decide that one element goes before another. */
  lemma CompareByTypeAgreesBelowZero(a: Node, b: Node)
    ensures CompareByType(a, b) < 0 <==> CompareByTypeFixed(a, b) < 0
  {
  }

  /** The corrected comparator is antisymmetric and transitive. */
  lemma CompareByTypeFixedConsistent(a: Node, b: Node, c: Node)
    ensures CompareByTypeFixed(a, b) == -CompareByTypeFixed(b, a)
    ensures CompareByTypeFixed(a, a) == 0
    ensures CompareByTypeFixed(a, b) <= 0 && CompareByTypeFixed(b, c) <= 0 ==> CompareByTypeFixed(a, c) <= 0
  {
  }

  /** `SortByType` orders a level by the corrected comparator and keeps
      the insertion order of equal nodes (folders among folders, files
      among files): it is the stable sort by `CompareByTypeFixed`. */
  lemma SortByTypeIsStableSort(nodes: seq<Node>)
    ensures var r := SortByType(nodes);
            (forall i, j :: 0 <= i < j < |r| ==> CompareByTypeFixed(r[i], r[j]) <= 0)
            && multiset(r) == multiset(nodes)
            && Folders(r) == Folders(nodes) && Files(r) == Files(nodes)
  {
    var r := SortByType(nodes);
    forall i, j | 0 <= i < j < |r| ensures CompareByTypeFixed(r[i], r[j]) <= 0 {
      assert r[i].File? ==> r[j].File?;
    }
  }
}
