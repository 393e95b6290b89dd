/** Building the Drive tree from the flat listing (`_build_tree`, its inner
    `_helper`, and the root lookup of `get_directory` in gdrive.py). */
module TreeBuilder {
  import opened DriveTypes
  import opened TreeSpec

  /** The one error of the lookup: no record carries the requested root name. */
  datatype DirectoryError = RootNotFound(rootName: string)

  /** `rank` decreases along every edge the builder recurses over: whenever a
      folder record lists a ranked parent, the folder is ranked lower. A ranking
      exists exactly when no folder cycle is reachable from the ranked ids; on a
      reachable cycle the source's recursion never bottoms out and Python raises
      RecursionError once the recursion limit is exhausted. */
  ghost predicate Ranked(files: seq<ApiFile>, rank: map<string, nat>)
  {
    forall i, p |
      0 <= i < |files| && ParseMimeType(files[i].mimeType) == Folder && p in files[i].parents && p in rank
      :: files[i].id in rank && rank[files[i].id] < rank[p]
  }

  /** The children made for parent id `parent` while scanning the listing from
      index `i`: every record naming `parent` among its parents is classified;
      `OtherFile` records are skipped without looking at what they contain; a
      folder is expanded by a fresh scan of the whole listing with the path
      extended by the folder's name; a document gets no children. */
  function ChildrenFrom(files: seq<ApiFile>, i: nat, path: string, parent: string, ghost rank: map<string, nat>)
    : (out: seq<DriveFile>)
    requires Ranked(files, rank) && parent in rank
    requires i <= |files|
    ensures |out| <= |files| - i
    ensures forall c :: c in out ==> c.path == path && c.mime != OtherFile
    decreases rank[parent], |files| - i
  {
    if i == |files| then []
    else
      var f := files[i];
      var rest := ChildrenFrom(files, i + 1, path, parent, rank);
      if parent !in f.parents then rest
      else
        var kind := ParseMimeType(f.mimeType);
        if kind == OtherFile then rest
        else
          var children := if kind == Folder then ChildrenFrom(files, 0, path + "/" + f.name, f.id, rank) else [];
          [DriveFile(f.id, f.name, kind, path, children)] + rest
  }

  /** The scan from index `i` makes, in order, one faithful node per candidate
      record of the rest of the listing. */
  lemma {:induction false} ChildrenFromMatches(files: seq<ApiFile>, i: nat, path: string, parent: string, rank: map<string, nat>)
    requires Ranked(files, rank) && parent in rank
    requires i <= |files|
    ensures ChildrenMatch(files, Candidates(files[i..], parent), path, ChildrenFrom(files, i, path, parent, rank))
    decreases rank[parent], |files| - i
  {
    if i < |files| {
      var f := files[i];
      assert files[i..][0] == f;
      assert files[i..][1..] == files[i + 1..];
      ChildrenFromMatches(files, i + 1, path, parent, rank);
      var rest := ChildrenFrom(files, i + 1, path, parent, rank);
      var candRest := Candidates(files[i + 1..], parent);
      var kind := ParseMimeType(f.mimeType);
      if parent in f.parents && kind != OtherFile {
        var children := if kind == Folder then ChildrenFrom(files, 0, path + "/" + f.name, f.id, rank) else [];
        var node := DriveFile(f.id, f.name, kind, path, children);
        if kind == Folder {
          ChildrenFromMatches(files, 0, path + "/" + f.name, f.id, rank);
          assert files[0..] == files;
        }
        assert WellBuilt(files, node);
        var out := [node] + rest;
        var cands := [f] + candRest;
        assert ChildrenFrom(files, i, path, parent, rank) == out;
        assert Candidates(files[i..], parent) == cands;
        forall k | 0 <= k < |out|
          ensures FromRecord(out[k], cands[k], path) && WellBuilt(files, out[k])
        {
          if k > 0 {
            assert out[k] == rest[k - 1] && cands[k] == candRest[k - 1];
          }
        }
      }
    }
  }

  /** The tree for `root`: a folder with the root's id and name and the empty
      path, whose children are scanned for the root's id and placed at the
      root's name. It is the one tree the listing determines for that root. */
  function BuildTree(files: seq<ApiFile>, root: ApiFile, ghost rank: map<string, nat>): (t: DriveFile)
    requires Ranked(files, rank) && root.id in rank
    ensures BuiltFrom(files, root, t)
  {
    ChildrenFromMatches(files, 0, root.name, root.id, rank);
    assert files[0..] == files;
    DriveFile(root.id, root.name, Folder, "", ChildrenFrom(files, 0, root.name, root.id, rank))
  }

  /** The first record, in listing order, whose name is exactly `rootName`. */
  function FindRoot(files: seq<ApiFile>, rootName: string): (r: Option<ApiFile>)
    ensures r.None? <==> forall i :: 0 <= i < |files| ==> files[i].name != rootName
    ensures r.Some? ==>
      exists i :: 0 <= i < |files| && files[i] == r.value && files[i].name == rootName
        && forall j :: 0 <= j < i ==> files[j].name != rootName
  {
    if files == [] then None
    else if files[0].name == rootName then Some(files[0])
    else
      var r := FindRoot(files[1..], rootName);
      assert forall j :: 1 <= j < |files| ==> files[j] == files[1..][j - 1];
      r
  }

  /** The root the lookup picks, if any, is ranked. */
  ghost predicate RootRanked(files: seq<ApiFile>, rootName: string, rank: map<string, nat>)
  {
    FindRoot(files, rootName).Some? ==> FindRoot(files, rootName).value.id in rank
  }

  /** The directory under the first record named `rootName`, or `RootNotFound`
      when no record has that name, in which case no tree is built. */
  function GetDirectory(files: seq<ApiFile>, rootName: string, ghost rank: map<string, nat>)
    : (r: Result<DriveFile, DirectoryError>)
    requires Ranked(files, rank) && RootRanked(files, rootName, rank)
    ensures r.Err? <==> forall i :: 0 <= i < |files| ==> files[i].name != rootName
    ensures r.Err? ==> r.error == RootNotFound(rootName)
    ensures r.Ok? ==>
      exists i :: 0 <= i < |files| && files[i].name == rootName
        && (forall j :: 0 <= j < i ==> files[j].name != rootName)
        && BuiltFrom(files, files[i], r.value)
  {
    match FindRoot(files, rootName)
    case None => Err(RootNotFound(rootName))
    case Some(root) => Ok(BuildTree(files, root, rank))
  }
}
