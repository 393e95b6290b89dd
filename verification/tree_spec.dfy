/** What a tree built from a Drive listing must look like, stated independently
    of the builder in gdrive.py: which records become the children of a node,
    in which order, with which kind and path. */
module TreeSpec {
  import opened DriveTypes

  /** The records listed under `parent` that classify as a folder or a
      document, in listing order: exactly the records that become children of
      a node whose id is `parent`. */
  function Candidates(files: seq<ApiFile>, parent: string): (r: seq<ApiFile>)
    ensures |r| <= |files|
  {
    if files == [] then []
    else
      var f := files[0];
      (if parent in f.parents && ParseMimeType(f.mimeType) != OtherFile then [f] else [])
        + Candidates(files[1..], parent)
  }

  /** A record is a candidate exactly when it is listed, names `parent` among
      its parents, and classifies as a folder or a document. */
  lemma {:induction false} CandidatesMembers(files: seq<ApiFile>, parent: string)
    ensures forall f :: f in Candidates(files, parent) <==>
      f in files && parent in f.parents && ParseMimeType(f.mimeType) != OtherFile
    decreases |files|
  {
    if files != [] {
      CandidatesMembers(files[1..], parent);
      assert files == [files[0]] + files[1..];
    }
  }

  /** A parent id that no record lists has no candidates. */
  lemma {:induction false} CandidatesUnlisted(files: seq<ApiFile>, parent: string)
    requires forall f :: f in files ==> parent !in f.parents
    ensures Candidates(files, parent) == []
    decreases |files|
  {
    if files != [] {
      assert files[0] in files;
      assert forall f :: f in files[1..] ==> f in files;
      CandidatesUnlisted(files[1..], parent);
    }
  }

  /** A candidate list of one record is the record if it qualifies and nothing otherwise. */
  lemma CandidatesSingle(f: ApiFile, parent: string)
    ensures Candidates([f], parent)
         == if parent in f.parents && ParseMimeType(f.mimeType) != OtherFile then [f] else []
  {
    assert [f][1..] == [];
  }

  /** Selecting candidates distributes over concatenation of listings, so the
      selection keeps listing order and keeps every qualifying occurrence. */
  lemma {:induction false} CandidatesAppend(a: seq<ApiFile>, b: seq<ApiFile>, parent: string)
    ensures Candidates(a + b, parent) == Candidates(a, parent) + Candidates(b, parent)
    decreases |a|
  {
    if a == [] {
      assert a + b == b;
    } else {
      assert (a + b)[0] == a[0];
      assert (a + b)[1..] == a[1..] + b;
      CandidatesAppend(a[1..], b, parent);
    }
  }

  /** Node `c` was made from record `f` and placed at `path`. */
  ghost predicate FromRecord(c: DriveFile, f: ApiFile, path: string)
  {
    && c.id == f.id
    && c.name == f.name
    && c.mime == ParseMimeType(f.mimeType)
    && c.path == path
  }

  /** A node below the root is faithful to the listing: it is a folder or a
      document; a document has no children; the children of a folder are made
      one by one, in order, from the candidates listed under the folder's id,
      carry the folder's own path extended by its name, and are faithful in turn. */
  ghost predicate WellBuilt(files: seq<ApiFile>, n: DriveFile)
    decreases n
  {
    && n.mime != OtherFile
    && (n.mime == Document ==> n.children == [])
    && (n.mime == Folder ==>
          var cands := Candidates(files, n.id);
          && |n.children| == |cands|
          && forall k :: 0 <= k < |n.children| ==>
               FromRecord(n.children[k], cands[k], n.path + "/" + n.name) && WellBuilt(files, n.children[k]))
  }

  /** The children `cs` are made, in order, from the candidate records `cands`,
      all at `path`, and each is faithful to the listing. */
  ghost predicate ChildrenMatch(files: seq<ApiFile>, cands: seq<ApiFile>, path: string, cs: seq<DriveFile>)
  {
    && |cs| == |cands|
    && forall k :: 0 <= k < |cs| ==> FromRecord(cs[k], cands[k], path) && WellBuilt(files, cs[k])
  }

  /** `t` is the tree for root record `root`: it keeps the root's id and name,
      is a folder whatever the record's mime type, has the empty path, and its
      children are the candidates under the root's id placed at the root's name. */
  ghost predicate BuiltFrom(files: seq<ApiFile>, root: ApiFile, t: DriveFile)
  {
    && t.id == root.id
    && t.name == root.name
    && t.mime == Folder
    && t.path == ""
    && ChildrenMatch(files, Candidates(files, root.id), root.name, t.children)
  }

  /** Faithfulness pins a node down completely: two faithful nodes that agree
      on id, name, kind and path are the same tree. */
  lemma {:induction false} WellBuiltUnique(files: seq<ApiFile>, n: DriveFile, m: DriveFile)
    requires WellBuilt(files, n) && WellBuilt(files, m)
    requires n.id == m.id && n.name == m.name && n.mime == m.mime && n.path == m.path
    ensures n == m
    decreases n
  {
    if n.mime == Folder {
      forall k | 0 <= k < |n.children|
        ensures n.children[k] == m.children[k]
      {
        WellBuiltUnique(files, n.children[k], m.children[k]);
      }
      assert n.children == m.children;
    }
  }

  /** There is at most one tree for a given root record. */
  lemma BuiltFromUnique(files: seq<ApiFile>, root: ApiFile, t: DriveFile, u: DriveFile)
    requires BuiltFrom(files, root, t) && BuiltFrom(files, root, u)
    ensures t == u
  {
    forall k | 0 <= k < |t.children|
      ensures t.children[k] == u.children[k]
    {
      WellBuiltUnique(files, t.children[k], u.children[k]);
    }
    assert t.children == u.children;
  }
}
