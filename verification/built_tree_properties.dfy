/** Properties of the tree `_build_tree` returns, stated over every node the
    pre-order walk visits (gdrive.py). */
module BuiltTreeProperties {
  import opened DriveTypes
  import opened TreeSpec
  import opened TreeBuilder
  import opened TreeWalk

  /** Every node in the subtree of a faithful node is faithful. */
  lemma {:induction false} WellBuiltClosed(files: seq<ApiFile>, n: DriveFile)
    requires WellBuilt(files, n)
    ensures forall m :: m in Walk(n) ==> WellBuilt(files, m)
    decreases n
  {
    forall m | m in Walk(n)
      ensures WellBuilt(files, m)
    {
      if m != n {
        assert m in WalkForest(n.children);
        WalkForestMembers(n.children, m);
        var k :| 0 <= k < |n.children| && m in Walk(n.children[k]);
        WellBuiltClosed(files, n.children[k]);
      }
    }
  }

  /** Every node strictly below the root of a built tree is faithful. */
  lemma DescendantsWellBuilt(files: seq<ApiFile>, root: ApiFile, t: DriveFile)
    requires BuiltFrom(files, root, t)
    ensures forall m :: m in WalkForest(t.children) ==> WellBuilt(files, m)
  {
    forall m | m in WalkForest(t.children)
      ensures WellBuilt(files, m)
    {
      WalkForestMembers(t.children, m);
      var k :| 0 <= k < |t.children| && m in Walk(t.children[k]);
      WellBuiltClosed(files, t.children[k]);
    }
  }

  /** No node of the built tree is an `OtherFile`: such records are dropped,
      and so is everything reachable only through them. */
  lemma BuiltTreeHasNoOtherFile(files: seq<ApiFile>, root: ApiFile, rank: map<string, nat>)
    requires Ranked(files, rank) && root.id in rank
    ensures forall m :: m in Walk(BuildTree(files, root, rank)) ==> m.mime != OtherFile
  {
    var t := BuildTree(files, root, rank);
    DescendantsWellBuilt(files, root, t);
  }

  /** Every document node of the built tree is a leaf, even when other records
      name the document as their parent. */
  lemma BuiltTreeDocumentsAreLeaves(files: seq<ApiFile>, root: ApiFile, rank: map<string, nat>)
    requires Ranked(files, rank) && root.id in rank
    ensures forall m :: m in Walk(BuildTree(files, root, rank)) && m.mime == Document ==> m.children == []
  {
    var t := BuildTree(files, root, rank);
    DescendantsWellBuilt(files, root, t);
  }

  /** The path rule: the root's children carry the root's name as path; the
      children of any folder below the root carry that folder's path, a slash
      and its name. */
  lemma BuiltTreePaths(files: seq<ApiFile>, root: ApiFile, rank: map<string, nat>)
    requires Ranked(files, rank) && root.id in rank
    ensures BuildTree(files, root, rank).path == ""
    ensures forall c :: c in BuildTree(files, root, rank).children ==> c.path == root.name
    ensures forall m, c :: m in WalkForest(BuildTree(files, root, rank).children) && c in m.children
              ==> c.path == m.path + "/" + m.name
  {
    var t := BuildTree(files, root, rank);
    DescendantsWellBuilt(files, root, t);
    forall m, c | m in WalkForest(t.children) && c in m.children
      ensures c.path == m.path + "/" + m.name
    {
      var k :| 0 <= k < |m.children| && m.children[k] == c;
    }
  }

  /** Child membership and order: the children of every folder of the built
      tree, root included, are made one by one and in order from the candidate
      records listed under the folder's id, keeping their id, name and kind. */
  lemma BuiltTreeChildren(files: seq<ApiFile>, root: ApiFile, rank: map<string, nat>)
    requires Ranked(files, rank) && root.id in rank
    ensures forall m :: m in Walk(BuildTree(files, root, rank)) && m.mime == Folder ==>
      && |m.children| == |Candidates(files, m.id)|
      && forall k :: 0 <= k < |m.children| ==>
           && m.children[k].id == Candidates(files, m.id)[k].id
           && m.children[k].name == Candidates(files, m.id)[k].name
           && m.children[k].mime == ParseMimeType(Candidates(files, m.id)[k].mimeType)
  {
    var t := BuildTree(files, root, rank);
    DescendantsWellBuilt(files, root, t);
  }

  /** A qualifying record appears under every folder of the built tree whose id
      it lists as a parent, so a record with several such parents is duplicated
      under each of them. */
  lemma BuiltTreeChildUnderEveryParent(files: seq<ApiFile>, root: ApiFile, rank: map<string, nat>, f: ApiFile, m: DriveFile)
    requires Ranked(files, rank) && root.id in rank
    requires f in files && ParseMimeType(f.mimeType) != OtherFile
    requires m in Walk(BuildTree(files, root, rank)) && m.mime == Folder && m.id in f.parents
    ensures exists k :: 0 <= k < |m.children| && m.children[k].id == f.id && m.children[k].name == f.name
  {
    BuiltTreeChildren(files, root, rank);
    CandidatesMembers(files, m.id);
    var cands := Candidates(files, m.id);
    var k :| 0 <= k < |cands| && cands[k] == f;
    assert m.children[k].id == f.id && m.children[k].name == f.name;
  }

  /** `s` holds the ids reached only through the record `o`: it contains
      `o`'s id, and every other record whose id is in `s` lists only parents
      whose ids are in `s`. */
  ghost predicate ReachedOnlyThrough(files: seq<ApiFile>, o: ApiFile, s: set<string>)
  {
    && o.id in s
    && forall r, p :: r in files && r != o && r.id in s && p in r.parents ==> p in s
  }

  /** A child made from a candidate under a parent outside `s` is outside `s`. */
  lemma ChildNotPruned(files: seq<ApiFile>, parent: string, c: DriveFile, r: ApiFile, o: ApiFile, s: set<string>)
    requires ParseMimeType(o.mimeType) == OtherFile && ReachedOnlyThrough(files, o, s)
    requires r in Candidates(files, parent) && c.id == r.id && parent !in s
    ensures c.id !in s
  {
    CandidatesMembers(files, parent);
    assert r in files && parent in r.parents && r != o;
  }

  /** Below a faithful node outside `s`, no node has an id in `s`. */
  lemma {:induction false} PrunedBelow(files: seq<ApiFile>, n: DriveFile, o: ApiFile, s: set<string>)
    requires ParseMimeType(o.mimeType) == OtherFile && ReachedOnlyThrough(files, o, s)
    requires WellBuilt(files, n) && n.id !in s
    ensures forall m :: m in WalkForest(n.children) ==> m.id !in s
    decreases n
  {
    forall m | m in WalkForest(n.children)
      ensures m.id !in s
    {
      WalkForestMembers(n.children, m);
      var k :| 0 <= k < |n.children| && m in Walk(n.children[k]);
      var c := n.children[k];
      var r := Candidates(files, n.id)[k];
      assert r in Candidates(files, n.id);
      ChildNotPruned(files, n.id, c, r, o, s);
      if m != c {
        PrunedBelow(files, c, o, s);
      }
    }
  }

  /** Pruning drops whole subtrees: an `OtherFile` record other than the root,
      and every record reached only through it, at any depth, is absent from
      the built tree below the root. */
  lemma BuiltTreePrunesOtherFileSubtrees(files: seq<ApiFile>, root: ApiFile, rank: map<string, nat>, o: ApiFile, s: set<string>)
    requires Ranked(files, rank) && root.id in rank
    requires ParseMimeType(o.mimeType) == OtherFile && ReachedOnlyThrough(files, o, s) && root.id !in s
    ensures forall m :: m in WalkForest(BuildTree(files, root, rank).children) ==> m.id !in s
  {
    var t := BuildTree(files, root, rank);
    forall m | m in WalkForest(t.children)
      ensures m.id !in s
    {
      WalkForestMembers(t.children, m);
      var k :| 0 <= k < |t.children| && m in Walk(t.children[k]);
      var c := t.children[k];
      var r := Candidates(files, root.id)[k];
      assert r in Candidates(files, root.id);
      ChildNotPruned(files, root.id, c, r, o, s);
      if m != c {
        PrunedBelow(files, c, o, s);
      }
    }
  }

  /** A root that no record lists as a parent yields a tree with no children,
      and the walk visits the root alone. */
  lemma BuiltTreeLoneRoot(files: seq<ApiFile>, root: ApiFile, rank: map<string, nat>)
    requires Ranked(files, rank) && root.id in rank
    requires forall f :: f in files ==> root.id !in f.parents
    ensures BuildTree(files, root, rank).children == []
    ensures Walk(BuildTree(files, root, rank)) == [BuildTree(files, root, rank)]
  {
    CandidatesUnlisted(files, root.id);
  }

  /** A ranking rules out the input on which the builder's recursion never
      bottoms out (in Python it raises RecursionError once the recursion limit
      is exhausted): a folder that lists itself as its own parent is never
      ranked, so it can be neither the root nor reached from it. */
  lemma RankedExcludesSelfParent(files: seq<ApiFile>, rank: map<string, nat>, i: nat)
    requires Ranked(files, rank)
    requires i < |files| && ParseMimeType(files[i].mimeType) == Folder
    requires files[i].id in files[i].parents
    ensures files[i].id !in rank
  {
  }
}
