/** A worked listing: a root folder holding a document, a sub-folder with a
    document of its own, and a shortcut that is dropped. */
module DriveExample {
  import opened DriveTypes
  import opened TreeSpec
  import opened TreeBuilder
  import opened TreeWalk

  const ShortcutMime: string := "application/vnd.google-apps.shortcut"

  function Listing(): seq<ApiFile>
  {
    [ ApiFile("1", "Root", FolderMime, []),
      ApiFile("2", "Doc1", DocumentMime, ["1"]),
      ApiFile("3", "Sub", FolderMime, ["1"]),
      ApiFile("4", "Doc2", DocumentMime, ["3"]),
      ApiFile("5", "Ignore", ShortcutMime, ["1"]) ]
  }

  function ListingRank(): map<string, nat>
  {
    map["1" := 2, "3" := 1]
  }

  function Doc1Node(): DriveFile { DriveFile("2", "Doc1", Document, "Root", []) }
  function Doc2Node(): DriveFile { DriveFile("4", "Doc2", Document, "Root/Sub", []) }
  function SubNode(): DriveFile { DriveFile("3", "Sub", Folder, "Root", [Doc2Node()]) }
  function RootNode(): DriveFile { DriveFile("1", "Root", Folder, "", [Doc1Node(), SubNode()]) }

  /** Sub lies below Root in the ranking, so the builder's recursion ends. */
  lemma ExampleRanked()
    ensures Ranked(Listing(), ListingRank())
  {
    var files := Listing();
    forall i, p | 0 <= i < |files| && ParseMimeType(files[i].mimeType) == Folder && p in files[i].parents && p in ListingRank()
      ensures files[i].id in ListingRank() && ListingRank()[files[i].id] < ListingRank()[p]
    {
      assert i == 0 || i == 2;
    }
  }

  /** Splits off the record at index `k` of a listing suffix. */
  lemma CandidatesCons(files: seq<ApiFile>, k: nat, id: string)
    requires k < |files|
    ensures Candidates(files[k..], id) == Candidates([files[k]], id) + Candidates(files[k + 1..], id)
  {
    assert files[k..] == [files[k]] + files[k + 1..];
    CandidatesAppend([files[k]], files[k + 1..], id);
  }

  /** The listing, record by record, under the id `id`. */
  lemma ListingCandidates(id: string)
    ensures Candidates(Listing(), id)
         == Candidates([Listing()[0]], id) + (Candidates([Listing()[1]], id) + (Candidates([Listing()[2]], id)
          + (Candidates([Listing()[3]], id) + Candidates([Listing()[4]], id))))
  {
    var files := Listing();
    assert files[5..] == [];
    CandidatesCons(files, 4, id);
    CandidatesCons(files, 3, id);
    CandidatesCons(files, 2, id);
    CandidatesCons(files, 1, id);
    CandidatesCons(files, 0, id);
    assert files[0..] == files;
  }

  /** Root holds Doc1 and Sub; the shortcut is dropped. */
  lemma CandidatesUnderRoot()
    ensures Candidates(Listing(), "1") == [Listing()[1], Listing()[2]]
  {
    var files := Listing();
    ListingCandidates("1");
    assert Candidates([files[3]], "1") + Candidates([files[4]], "1") == [];
    CandidatesSingle(files[0], "1");
    CandidatesSingle(files[1], "1");
    CandidatesSingle(files[2], "1");
    CandidatesSingle(files[3], "1");
    CandidatesSingle(files[4], "1");
  }

  /** Sub holds Doc2. */
  lemma CandidatesUnderSub()
    ensures Candidates(Listing(), "3") == [Listing()[3]]
  {
    var files := Listing();
    ListingCandidates("3");
    CandidatesSingle(files[0], "3");
    CandidatesSingle(files[1], "3");
    CandidatesSingle(files[2], "3");
    CandidatesSingle(files[3], "3");
    CandidatesSingle(files[4], "3");
  }

  /** The expected tree meets the specification of a tree built for Root. */
  lemma ExpectedTreeBuiltFrom()
    ensures BuiltFrom(Listing(), Listing()[0], RootNode())
  {
    var files := Listing();
    CandidatesUnderRoot();
    CandidatesUnderSub();
    assert WellBuilt(files, Doc1Node());
    assert WellBuilt(files, Doc2Node());
    assert WellBuilt(files, SubNode());
  }

  /** Root is the first record named "Root". */
  lemma ExampleFindRoot()
    ensures FindRoot(Listing(), "Root") == Some(Listing()[0])
  {
  }

  /** The listing builds the expected tree. */
  lemma ExampleTree()
    ensures RootRanked(Listing(), "Root", ListingRank())
    ensures GetDirectory(Listing(), "Root", ListingRank()) == Ok(RootNode())
  {
    ExampleFindRoot();
    ExampleRanked();
    ExpectedTreeBuiltFrom();
    var files := Listing();
    var t := BuildTree(files, files[0], ListingRank());
    BuiltFromUnique(files, files[0], RootNode(), t);
  }

  /** The walk of the expected tree visits Root, Doc1, Sub, Doc2. */
  lemma ExampleWalk()
    ensures Walk(RootNode()) == [RootNode(), Doc1Node(), SubNode(), Doc2Node()]
  {
  }

  /** Asking for a name no record carries is the not-found error. */
  lemma ExampleRootNotFound()
    ensures GetDirectory(Listing(), "Missing", ListingRank()) == Err(RootNotFound("Missing"))
  {
  }
}
