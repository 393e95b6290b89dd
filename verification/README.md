# Drive archiver: listing-to-tree model

This project models the core of a small Google Drive archiver, `gdrive.py`.
The archiver lists every file in a Drive account as a flat sequence of
records. Each record has an id, a name, a mime string and a list of parent
ids. The core turns that listing into a tree under a root folder picked by
name, and then walks the tree in pre-order. The tool's caller exports every
Google Docs document it meets on that walk.

The model is written in Dafny, one module per concern:

- `DriveTypes` (`drive_types.dfy`) holds the listing record `ApiFile`, the
  tree node `DriveFile` and the three-way `MimeType`. It also holds
  `ParseMimeType`, which classifies a mime string.
- `TreeSpec` (`tree_spec.dfy`) says what a correct tree is, independently of
  the builder. `Candidates` lists the records that belong under a parent id,
  in listing order. `WellBuilt` and `BuiltFrom` describe a faithful tree.
  Two lemmas show that this description fixes the tree uniquely.
- `TreeBuilder` (`tree_builder.dfy`) holds the builder: `_helper` as
  `ChildrenFrom`, `_build_tree` as `BuildTree`, the `next(...)` root lookup as
  `FindRoot`, and the lookup-then-build step of `get_directory` as
  `GetDirectory`. It proves that the builder meets `TreeSpec`.
- `TreeWalk` (`tree_walk.dfy`) models `walk_tree` as `Walk`, the sequence of
  nodes the callback receives. It proves that every node occurrence of the
  tree is visited exactly once, in pre-order.
- `BuiltTreeProperties` (`built_tree_properties.dfy`) states the promised
  properties of the built tree over every node the walk visits. These cover
  kind pruning, leaf documents, paths, child membership and order, and
  duplication under several parents.
- `DriveExample` (`drive_example.dfy`) works through a concrete five-record
  listing.

`_helper` rescans the whole listing for every folder. When a folder cycle can
be reached from the root, its recursion never bottoms out, and Python raises
`RecursionError` once the recursion limit is exhausted. The model takes a ghost ranking of
folder ids as its termination argument. `Ranked` says that a folder listing a
ranked parent is ranked strictly lower than that parent. Ids that cannot be
reached may stay unranked, so a cycle that is never reached does not stop the
model from applying. `RankedExcludesSelfParent` shows that a folder listing
itself as its parent can never be ranked.

The model follows `gdrive.py` on three points that are easy to misread:

- `parents` is a list, as the code reads it, and not a set. A parent matches
  when it is a member of that list.
- The path rule depends on where a node sits, not on whether a path is empty.
  The root's children get the root's name. Children of every folder below the
  root get `path + "/" + name`, even when that folder's path is empty because
  the root's name is empty.
- A record listed under several parents is duplicated under each of them.
  The model does not require any node to appear only once.

## Model

| member | source | states |
|---|---|---|
| DriveTypes.ParseMimeType | gdrive.py:145-150 | the result is `Folder` exactly for the Drive folder mime string, `Document` exactly for the Google Docs mime string, and `OtherFile` exactly for every other string |
| DriveTypes.ParseMimeStringRoundTrip | gdrive.py:145-150 | classifying the mime string of a recognised kind gives back that kind |
| DriveTypes.ParseMimeTypeRecognisedIsMimeString | gdrive.py:145-150 | a string classified as a folder or a document is that kind's one mime string |
| TreeSpec.Candidates | gdrive.py:129-133 | the records that become children under a parent id, in listing order; never more than the listing holds. `CandidatesMembers` and `CandidatesAppend` characterise it |
| TreeSpec.CandidatesMembers | gdrive.py:129-133 | a record is selected under parent id `x` exactly when it is in the listing, lists `x` among its parents, and is not classified `OtherFile` |
| TreeSpec.CandidatesAppend | gdrive.py:129-141 | selection distributes over concatenation of listings, so it keeps listing order and every qualifying occurrence |
| TreeSpec.CandidatesUnlisted | gdrive.py:129-130 | a parent id that no record lists selects nothing |
| TreeSpec.WellBuiltUnique | gdrive.py:127-141 | two faithful nodes with the same id, name, kind and path are the same tree, so the specification leaves the builder no choice |
| TreeSpec.BuiltFromUnique | gdrive.py:142 | at most one tree meets the specification for a given root record |
| TreeBuilder.ChildrenFrom | gdrive.py:127-141 | the scan from index `i` yields at most one node per remaining record; every node carries the given path and is never `OtherFile` |
| TreeBuilder.ChildrenFromMatches | gdrive.py:127-141 | the scan yields, in order, one faithful node per selected record of the remaining listing: same id and name, the parsed kind, the given path, and for a folder the children of a rescan under its id at the extended path |
| TreeBuilder.BuildTree | gdrive.py:126-142 | the result keeps the root record's id and name, is a `Folder` whatever the record's mime type, has path `""`, and its children are the faithful nodes for the records selected under the root's id at the root's name |
| TreeBuilder.FindRoot | gdrive.py:76 | the result is absent exactly when no record has the requested name; otherwise it is a record with that name such that no earlier record has it |
| TreeBuilder.GetDirectory | gdrive.py:76-81 | the result is `RootNotFound(rootName)` exactly when no record has the name, and then no tree is built; otherwise it is the tree built from the first record with that name |
| TreeWalk.Walk | gdrive.py:96-99 | the nodes the callback receives, in order: as many as the tree has nodes, counted independently by `Size`, the first being the node itself. `WalkChildSegment`, `WalkVisitsPosition`, `WalkIndexInjective` and `WalkIndexSurjective` characterise it as a pre-order visit of every node occurrence exactly once |
| TreeWalk.WalkForest | gdrive.py:98-99 | the walks of sibling subtrees one after the other, with as many entries as those subtrees have nodes. `WalkForestAppend` and `WalkForestMembers` characterise it |
| TreeWalk.WalkForestAppend | gdrive.py:98-99 | walking a concatenation of sibling lists is walking each list in turn |
| TreeWalk.WalkChildSegment | gdrive.py:96-99 | the walk of the `k`-th child is a contiguous segment, starting just after the node and the whole subtrees of the earlier children |
| TreeWalk.WalkVisitsPosition | gdrive.py:96-99 | every node occurrence in the tree is visited, at its pre-order index |
| TreeWalk.WalkSubtreeContiguous | gdrive.py:96-99 | wherever a node is visited, its whole subtree is visited next, as one block in pre-order |
| TreeWalk.WalkIndexInjective | gdrive.py:96-99 | two different node occurrences are never visited at the same step |
| TreeWalk.WalkIndexSurjective | gdrive.py:96-99 | every step of the walk visits some node occurrence of the tree, so with the two lemmas above each occurrence is visited exactly once |
| TreeWalk.WalkForestMembers | gdrive.py:98-99 | a node is visited in a forest walk exactly when it is visited in the walk of one of the forest's trees |
| BuiltTreeProperties.BuiltTreeHasNoOtherFile | gdrive.py:131-133 | no node the walk of the built tree visits has kind `OtherFile` |
| BuiltTreeProperties.BuiltTreeDocumentsAreLeaves | gdrive.py:135-140 | every document node of the built tree has no children, even if records name it as their parent |
| BuiltTreeProperties.BuiltTreePaths | gdrive.py:137-142 | the root has path `""`; the root's children have the root's name as path; every child of a folder below the root has that folder's path, a slash and its name |
| BuiltTreeProperties.BuiltTreeChildren | gdrive.py:129-141 | every folder of the built tree, root included, has exactly one child per record selected under its id, in listing order, with that record's id, name and parsed kind |
| BuiltTreeProperties.BuiltTreeChildUnderEveryParent | gdrive.py:129-130 | a qualifying record appears under every folder of the built tree whose id it lists, so a record with several such parents is duplicated under each |
| BuiltTreeProperties.BuiltTreePrunesOtherFileSubtrees | gdrive.py:129-141 | given an `OtherFile` record `o` and a set `s` of ids that holds `o`'s id and is closed upward for every other record (a record other than `o` with its id in `s` lists only parents in `s`), no node below a root outside `s` has an id in `s`: the pruned record and everything reachable only through it, at any depth, are absent |
| BuiltTreeProperties.BuiltTreeLoneRoot | gdrive.py:142 | a root that no record lists as a parent has no children, and the walk visits the root alone |
| BuiltTreeProperties.RankedExcludesSelfParent | gdrive.py:136-138 | a folder that lists itself as its parent, on which the builder's recursion never bottoms out, is never ranked |
| BuiltTreeProperties.WellBuiltClosed | gdrive.py:135-141 | every node in the subtree of a faithful node is faithful |
| BuiltTreeProperties.DescendantsWellBuilt | gdrive.py:137-142 | every node strictly below the root of a built tree is faithful |
| DriveExample.ExampleTree | gdrive.py:76-81 | the five-record listing builds Root with children Doc1 (path `Root`) and Sub (path `Root`), Sub holding Doc2 (path `Root/Sub`); the shortcut is dropped |
| DriveExample.ExampleWalk | gdrive.py:96-99 | that tree is walked as Root, Doc1, Sub, Doc2 |
| DriveExample.ExampleRootNotFound | gdrive.py:76-79 | asking that listing for a name no record carries gives `RootNotFound` |

## Left out

- Authentication (`_get_creds`, `_check_secrets_file`, the token pickle): OAuth, file-system and third-party credential objects, with no logic of the core's own.
- `Service.connect` and the paginated `files().list` loop in `get_directory`: network calls; the complete listing is an input sequence of records instead.
- `Service.export_file`: chunked network download, only called by the walk's caller.
- The `print` and `exit(1)` on a missing root: modelled as the `RootNotFound` error value.
- The callback of `walk_tree`: its side effects belong to the caller, so the walk returns the sequence of nodes the callback would receive, in order.
- main.py is not part of this model: directory creation, export calls, byte writes and command-line handling.
- Listings with a folder cycle reachable from the root: the source's recursion never bottoms out on them and Python raises `RecursionError` once the recursion limit is exhausted. The model's functions require a ranking that exists exactly when no such cycle is reachable.
- Python's recursion-depth limit on `_helper` and `walk_tree`: the model's recursion is unbounded, so an acyclic tree nested deeper than the limit (about 1000 levels by default), on which the source raises `RecursionError`, is built and walked in full by the model.
- TreeBuilder.ChildrenFrom: its own contract only bounds the result; the full statement of what it builds is `TreeBuilder.ChildrenFromMatches`.
