/** The pre-order walk over an assembled tree (`walk_tree` in gdrive.py),
    modelled as the sequence of nodes the callback is handed, in order. */
module TreeWalk {
  import opened DriveTypes

  /** The nodes `walk_tree` passes to its callback: the node itself, then the
      walk of each child in turn. The callback is first handed the node itself,
      and it is called once per node of the tree, counted independently by `Size`. */
  function Walk(n: DriveFile): (visits: seq<DriveFile>)
    ensures |visits| == Size(n)
    ensures visits[0] == n
    decreases n, 1
  {
    [n] + WalkForest(n.children)
  }

  /** The walks of a list of sibling subtrees, one after the other: one entry
      per node of the siblings' subtrees. */
  function WalkForest(cs: seq<DriveFile>): (visits: seq<DriveFile>)
    ensures |visits| == SizeForest(cs)
    decreases cs, 0
  {
    if cs == [] then [] else Walk(cs[0]) + WalkForest(cs[1..])
  }

  /** The number of nodes in a tree, counted independently of the walk. */
  function Size(n: DriveFile): (count: nat)
    decreases n, 1
  {
    1 + SizeForest(n.children)
  }

  /** The number of nodes in a list of sibling subtrees. */
  function SizeForest(cs: seq<DriveFile>): (count: nat)
    decreases cs, 0
  {
    if cs == [] then 0 else Size(cs[0]) + SizeForest(cs[1..])
  }

  /** A position in a tree: the child indices followed from the root. */
  ghost predicate ValidPos(n: DriveFile, p: seq<nat>)
    decreases |p|
  {
    p == [] || (p[0] < |n.children| && ValidPos(n.children[p[0]], p[1..]))
  }

  /** The node found at a valid position. */
  ghost function At(n: DriveFile, p: seq<nat>): DriveFile
    requires ValidPos(n, p)
    decreases |p|
  {
    if p == [] then n else At(n.children[p[0]], p[1..])
  }

  /** Where the node at position `p` should be visited in a pre-order walk: after
      every node of its left siblings' subtrees and after its parent. */
  ghost function Index(n: DriveFile, p: seq<nat>): nat
    requires ValidPos(n, p)
    decreases |p|
  {
    if p == [] then 0
    else 1 + SizeForest(n.children[..p[0]]) + Index(n.children[p[0]], p[1..])
  }

  // ---------------------------------------------------------------------
  // Basic facts about the walk
  // ---------------------------------------------------------------------

  /** The walk of a concatenation of sibling lists is the concatenation of their walks. */
  lemma {:induction false} WalkForestAppend(a: seq<DriveFile>, b: seq<DriveFile>)
    ensures WalkForest(a + b) == WalkForest(a) + WalkForest(b)
    decreases |a|
  {
    if a == [] {
      assert a + b == b;
    } else {
      assert (a + b)[1..] == a[1..] + b;
      WalkForestAppend(a[1..], b);
    }
  }

  /** Node counts add up over a concatenation of sibling lists. */
  lemma {:induction false} SizeForestAppend(a: seq<DriveFile>, b: seq<DriveFile>)
    ensures SizeForest(a + b) == SizeForest(a) + SizeForest(b)
    decreases |a|
  {
    if a == [] {
      assert a + b == b;
    } else {
      assert (a + b)[1..] == a[1..] + b;
      SizeForestAppend(a[1..], b);
    }
  }

  /** Children are walked in list order, each child's whole subtree is walked
      before the next sibling, and the child's walk starts right after the node
      and the subtrees of its earlier siblings. */
  lemma {:induction false} WalkChildSegment(n: DriveFile, k: nat)
    requires k < |n.children|
    ensures 1 + SizeForest(n.children[..k]) + Size(n.children[k]) <= |Walk(n)|
    ensures Walk(n)[1 + SizeForest(n.children[..k]) .. 1 + SizeForest(n.children[..k]) + Size(n.children[k])]
         == Walk(n.children[k])
  {
    var cs := n.children;
    var c := cs[k];
    assert cs == cs[..k] + ([c] + cs[k+1..]);
    WalkForestAppend(cs[..k], [c] + cs[k+1..]);
    assert ([c] + cs[k+1..])[1..] == cs[k+1..];
    assert WalkForest([c] + cs[k+1..]) == Walk(c) + WalkForest(cs[k+1..]);
    assert Walk(n) == [n] + WalkForest(cs[..k]) + Walk(c) + WalkForest(cs[k+1..]);
  }

  /** Membership in a forest's walk: a node is visited exactly when it is
      visited in the walk of one of the trees. */
  lemma {:induction false} WalkForestMembers(cs: seq<DriveFile>, m: DriveFile)
    ensures m in WalkForest(cs) <==> exists k :: 0 <= k < |cs| && m in Walk(cs[k])
    decreases |cs|
  {
    if cs != [] {
      WalkForestMembers(cs[1..], m);
      if m in WalkForest(cs[1..]) {
        var k :| 0 <= k < |cs[1..]| && m in Walk(cs[1..][k]);
        assert m in Walk(cs[k + 1]);
      }
      if exists k :: 0 <= k < |cs| && m in Walk(cs[k]) {
        var k :| 0 <= k < |cs| && m in Walk(cs[k]);
        if k > 0 {
          assert m in Walk(cs[1..][k - 1]);
        }
      }
    }
  }

  // ---------------------------------------------------------------------
  // Every tree position is visited exactly once, in pre-order
  // ---------------------------------------------------------------------

  /** The node at each position is visited at that position's pre-order index. */
  lemma {:induction false} WalkVisitsPosition(n: DriveFile, p: seq<nat>)
    requires ValidPos(n, p)
    ensures Index(n, p) < |Walk(n)|
    ensures Walk(n)[Index(n, p)] == At(n, p)
    decreases |p|
  {
    if p != [] {
      var k := p[0];
      WalkChildSegment(n, k);
      WalkVisitsPosition(n.children[k], p[1..]);
    }
  }

  /** At the index where a node is visited, the walk continues with that
      node's whole subtree and nothing else interleaved. */
  lemma {:induction false} WalkSubtreeContiguous(n: DriveFile, p: seq<nat>)
    requires ValidPos(n, p)
    ensures Index(n, p) + Size(At(n, p)) <= |Walk(n)|
    ensures Walk(n)[Index(n, p) .. Index(n, p) + Size(At(n, p))] == Walk(At(n, p))
    decreases |p|
  {
    if p != [] {
      var k := p[0];
      var c := n.children[k];
      var off := 1 + SizeForest(n.children[..k]);
      WalkChildSegment(n, k);
      WalkSubtreeContiguous(c, p[1..]);
      assert Index(n, p) == off + Index(c, p[1..]);
      assert At(n, p) == At(c, p[1..]);
      SliceOfSlice(Walk(n), off, off + Size(c), Index(c, p[1..]), Index(c, p[1..]) + Size(At(c, p[1..])));
    }
  }

  /** A slice of a slice is a slice of the original sequence. */
  lemma SliceOfSlice<T>(w: seq<T>, a: nat, b: nat, i: nat, j: nat)
    requires a <= b <= |w| && i <= j <= b - a
    ensures a + j <= |w|
    ensures w[a..b][i..j] == w[a + i .. a + j]
  {
    var inner := w[a..b];
    forall x | 0 <= x < j - i
      ensures inner[i..j][x] == w[a + i .. a + j][x]
    {
      assert inner[i..j][x] == inner[i + x] == w[a + (i + x)];
    }
  }

  /** Positions whose index lies inside a child's segment belong to that child. */
  lemma {:induction false} IndexLowerBound(n: DriveFile, p: seq<nat>)
    requires ValidPos(n, p) && p != []
    ensures 1 + SizeForest(n.children[..p[0]]) <= Index(n, p)
    ensures Index(n, p) < 1 + SizeForest(n.children[..p[0]]) + Size(n.children[p[0]])
  {
    WalkVisitsPosition(n.children[p[0]], p[1..]);
  }

  /** Node counts of sibling prefixes grow strictly with the prefix. */
  lemma {:induction false} SizeForestPrefixGrows(cs: seq<DriveFile>, j: nat, k: nat)
    requires j < k <= |cs|
    ensures SizeForest(cs[..j]) + Size(cs[j]) <= SizeForest(cs[..k])
    decreases k - j
  {
    assert cs[..j+1] == cs[..j] + [cs[j]];
    SizeForestAppend(cs[..j], [cs[j]]);
    assert [cs[j]][1..] == [];
    if j + 1 < k {
      assert cs[..k] == cs[..j+1] + cs[j+1..k];
      SizeForestAppend(cs[..j+1], cs[j+1..k]);
    }
  }

  /** No two positions are visited at the same index: the walk visits every node occurrence at most once. */
  lemma {:induction false} WalkIndexInjective(n: DriveFile, p: seq<nat>, q: seq<nat>)
    requires ValidPos(n, p) && ValidPos(n, q)
    requires Index(n, p) == Index(n, q)
    ensures p == q
    decreases |p|
  {
    if p == [] || q == [] {
      if p != [] {
        IndexLowerBound(n, p);
      } else if q != [] {
        IndexLowerBound(n, q);
      }
    } else {
      IndexLowerBound(n, p);
      IndexLowerBound(n, q);
      if p[0] < q[0] {
        SizeForestPrefixGrows(n.children, p[0], q[0]);
      } else if q[0] < p[0] {
        SizeForestPrefixGrows(n.children, q[0], p[0]);
      } else {
        WalkIndexInjective(n.children[p[0]], p[1..], q[1..]);
        assert p == [p[0]] + p[1..] && q == [q[0]] + q[1..];
      }
    }
  }

  /** Finds the child whose segment of the walk contains a given index. */
  lemma {:induction false} ForestSegmentOf(cs: seq<DriveFile>, i: nat) returns (k: nat)
    requires i < SizeForest(cs)
    ensures k < |cs|
    ensures SizeForest(cs[..k]) <= i < SizeForest(cs[..k]) + Size(cs[k])
    decreases |cs|
  {
    if i < Size(cs[0]) {
      k := 0;
      assert cs[..0] == [];
    } else {
      var k' := ForestSegmentOf(cs[1..], i - Size(cs[0]));
      k := k' + 1;
      assert cs[..k] == [cs[0]] + cs[1..][..k'];
      SizeForestAppend([cs[0]], cs[1..][..k']);
      assert [cs[0]][1..] == [];
    }
  }

  /** Every entry of the walk is the visit of some position: together with
      `WalkIndexInjective`, each node occurrence is visited exactly once. */
  lemma {:induction false} WalkIndexSurjective(n: DriveFile, i: nat) returns (p: seq<nat>)
    requires i < |Walk(n)|
    ensures ValidPos(n, p) && Index(n, p) == i
    decreases n
  {
    if i == 0 {
      p := [];
    } else {
      var k := ForestSegmentOf(n.children, i - 1);
      var c := n.children[k];
      var j := i - 1 - SizeForest(n.children[..k]);
      var q := WalkIndexSurjective(c, j);
      p := [k] + q;
      assert p[1..] == q;
    }
  }
}
