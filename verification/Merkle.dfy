/**
 Binary Merkle trees in which an odd last node is paired with itself, as both
 `raucle/audit.py` and `raucle/conformance.py` build them.

 The hash is a parameter. Binding results read "equal, or two different inputs among
 those actually hashed share a digest"; they never assume the hash has no collisions.
 */
module Merkle {

  type Byte = b: int | 0 <= b < 256
  type Bytes = seq<Byte>
  type Hash = Bytes -> Bytes

  /** Every digest has 32 bytes. */
  ghost predicate Is256Bit(h: Hash) {
    forall x :: |h(x)| == 32
  }

  /** No two different inputs of the set share a digest. */
  ghost predicate CollisionFree(h: Hash, inputs: set<Bytes>) {
    forall x, y :: x in inputs && y in inputs && h(x) == h(y) ==> x == y
  }

  lemma CollisionFreeSubset(h: Hash, small: set<Bytes>, large: set<Bytes>)
    requires small <= large && CollisionFree(h, large)
    ensures CollisionFree(h, small)
  {
  }

  /** How a parent's two child digests are laid out before hashing. */
  type Layout = (Bytes, Bytes) -> Bytes

  /** The layout can be parsed back into two digests. */
  ghost predicate Parses(lay: Layout) {
    forall a, b, c, d :: |a| == |b| == |c| == |d| == 32 && lay(a, b) == lay(c, d) ==> a == c && b == d
  }

  ghost predicate AllDigests(level: seq<Bytes>) {
    forall i :: 0 <= i < |level| ==> |level[i]| == 32
  }

  /** The right child of parent `i`; an odd last node is its own sibling. */
  function RightOf(level: seq<Bytes>, i: nat): Bytes
    requires 2 * i < |level|
  {
    if 2 * i + 1 < |level| then level[2 * i + 1] else level[2 * i]
  }

  function NodeInput(lay: Layout, level: seq<Bytes>, i: nat): Bytes
    requires 2 * i < |level|
  {
    lay(level[2 * i], RightOf(level, i))
  }

  /** One level up. */
  function FoldLevel(h: Hash, lay: Layout, level: seq<Bytes>): (r: seq<Bytes>)
    ensures |r| == (|level| + 1) / 2
    ensures forall i :: 0 <= i < |r| ==> r[i] == h(NodeInput(lay, level, i))
  {
    seq((|level| + 1) / 2, i requires 0 <= i < (|level| + 1) / 2 => h(NodeInput(lay, level, i)))
  }

  function Root(h: Hash, lay: Layout, level: seq<Bytes>): Bytes
    requires level != []
    decreases |level|
  {
    if |level| == 1 then level[0] else Root(h, lay, FoldLevel(h, lay, level))
  }

  /** One pass over a level, two nodes at a time. */
  method FoldLevelLoop(h: Hash, lay: Layout, level: seq<Bytes>) returns (next: seq<Bytes>)
    ensures next == FoldLevel(h, lay, level)
  {
    next := [];
    var i := 0;
    while i < |level|
      invariant i % 2 == 0 && i <= |level| + 1
      invariant |next| == i / 2
      invariant forall k :: 0 <= k < |next| ==> next[k] == h(NodeInput(lay, level, k))
    {
      var left := level[i];
      var right := if i + 1 < |level| then level[i + 1] else left;
      assert 2 * (i / 2) == i;
      next := next + [h(lay(left, right))];
      i := i + 2;
    }
  }

  /** The root by repeated folding. */
  method RootLoop(h: Hash, lay: Layout, leaves: seq<Bytes>) returns (root: Bytes)
    requires leaves != []
    ensures root == Root(h, lay, leaves)
  {
    var level := leaves;
    while |level| > 1
      invariant level != []
      invariant Root(h, lay, level) == Root(h, lay, leaves)
      decreases |level|
    {
      level := FoldLevelLoop(h, lay, level);
    }
    return level[0];
  }

  /** Everything hashed between a level and its root. */
  ghost function NodeInputs(h: Hash, lay: Layout, level: seq<Bytes>): set<Bytes>
    decreases |level|
  {
    if |level| <= 1 then {}
    else (set i | 0 <= i < (|level| + 1) / 2 :: NodeInput(lay, level, i))
         + NodeInputs(h, lay, FoldLevel(h, lay, level))
  }

  lemma LevelFromParents(lay: Layout, a: seq<Bytes>, b: seq<Bytes>)
    requires Parses(lay) && AllDigests(a) && AllDigests(b) && |a| == |b|
    requires forall i :: 0 <= i < (|a| + 1) / 2 ==> NodeInput(lay, a, i) == NodeInput(lay, b, i)
    ensures a == b
  {
    forall i | 0 <= 2 * i < |a|
      ensures a[2 * i] == b[2 * i] && (2 * i + 1 < |a| ==> a[2 * i + 1] == b[2 * i + 1])
    {
      assert i < (|a| + 1) / 2;
      PairFromParent(lay, a, b, i);
    }
    PairsMakeLevel(a, b);
  }

  lemma PairsMakeLevel(a: seq<Bytes>, b: seq<Bytes>)
    requires |a| == |b|
    requires forall i :: 0 <= 2 * i < |a| ==> a[2 * i] == b[2 * i] && (2 * i + 1 < |a| ==> a[2 * i + 1] == b[2 * i + 1])
    ensures a == b
  {
    forall k | 0 <= k < |a|
      ensures a[k] == b[k]
    {
      var i := k / 2;
      assert k == 2 * i || k == 2 * i + 1;
      assert a[2 * i] == b[2 * i];
    }
  }

  lemma PairFromParent(lay: Layout, a: seq<Bytes>, b: seq<Bytes>, i: nat)
    requires Parses(lay) && AllDigests(a) && AllDigests(b) && |a| == |b| && 2 * i < |a|
    requires NodeInput(lay, a, i) == NodeInput(lay, b, i)
    ensures a[2 * i] == b[2 * i] && (2 * i + 1 < |a| ==> a[2 * i + 1] == b[2 * i + 1])
  {
    var ar, br := RightOf(a, i), RightOf(b, i);
    assert |a[2 * i]| == |b[2 * i]| == |ar| == |br| == 32;
    assert lay(a[2 * i], ar) == lay(b[2 * i], br);
  }

  /** Count and root together fix every leaf, or the two trees hashed a collision. */
  lemma {:induction false} RootBinds(h: Hash, lay: Layout, a: seq<Bytes>, b: seq<Bytes>)
    requires Is256Bit(h) && Parses(lay) && AllDigests(a) && AllDigests(b)
    requires |a| == |b| && a != [] && Root(h, lay, a) == Root(h, lay, b)
    ensures a == b || !CollisionFree(h, NodeInputs(h, lay, a) + NodeInputs(h, lay, b))
    decreases |a|
  {
    if |a| > 1 && CollisionFree(h, NodeInputs(h, lay, a) + NodeInputs(h, lay, b)) {
      var fa, fb := FoldLevel(h, lay, a), FoldLevel(h, lay, b);
      CollisionFreeSubset(h, NodeInputs(h, lay, fa) + NodeInputs(h, lay, fb),
                          NodeInputs(h, lay, a) + NodeInputs(h, lay, b));
      RootBinds(h, lay, fa, fb);
      forall i | 0 <= i < (|a| + 1) / 2
        ensures NodeInput(lay, a, i) == NodeInput(lay, b, i)
      {
        assert fa[i] == fb[i];
        assert NodeInput(lay, a, i) in NodeInputs(h, lay, a);
        assert NodeInput(lay, b, i) in NodeInputs(h, lay, b);
      }
      LevelFromParents(lay, a, b);
    }
  }

  /** The root alone binds nothing: repeating the last of an odd number of leaves, three or more, keeps it. */
  lemma RootIgnoresRepeatedLast(h: Hash, lay: Layout, leaves: seq<Bytes>)
    requires |leaves| % 2 == 1 && |leaves| >= 3
    ensures Root(h, lay, leaves + [leaves[|leaves| - 1]]) == Root(h, lay, leaves)
  {
    var more := leaves + [leaves[|leaves| - 1]];
    var m := |leaves| / 2;
    forall i | 0 <= i <= m
      ensures NodeInput(lay, more, i) == NodeInput(lay, leaves, i)
    {
      assert more[2 * i] == leaves[2 * i];
      assert RightOf(more, i) == RightOf(leaves, i);
    }
    assert (|leaves| + 1) / 2 == (|more| + 1) / 2 == m + 1;
    assert FoldLevel(h, lay, more) == FoldLevel(h, lay, leaves);
  }

  // ---- Authentication paths -----------------------------------------------

  /** A sibling digest; `isRight` says the walked node is the right child. */
  datatype Step = Step(isRight: bool, sibling: Bytes)

  function StepInput(lay: Layout, digest: Bytes, s: Step): Bytes {
    if s.isRight then lay(s.sibling, digest) else lay(digest, s.sibling)
  }

  /** Recompute upwards from one digest. */
  function Walk(h: Hash, lay: Layout, digest: Bytes, path: seq<Step>): Bytes {
    if path == [] then digest
    else h(StepInput(lay, Walk(h, lay, digest, path[..|path| - 1]), path[|path| - 1]))
  }

  /** Everything hashed while walking. */
  ghost function WalkInputs(h: Hash, lay: Layout, digest: Bytes, path: seq<Step>): set<Bytes> {
    if path == [] then {}
    else
      var init := path[..|path| - 1];
      WalkInputs(h, lay, digest, init) + {StepInput(lay, Walk(h, lay, digest, init), path[|path| - 1])}
  }

  function StepAt(level: seq<Bytes>, index: nat): Step
    requires index < |level|
  {
    if index % 2 == 0 then Step(false, if index + 1 < |level| then level[index + 1] else level[index])
    else Step(true, level[index - 1])
  }

  function PathTo(h: Hash, lay: Layout, level: seq<Bytes>, index: nat): seq<Step>
    requires index < |level|
    decreases |level|
  {
    if |level| == 1 then []
    else [StepAt(level, index)] + PathTo(h, lay, FoldLevel(h, lay, level), index / 2)
  }

  lemma {:induction false} WalkCons(h: Hash, lay: Layout, digest: Bytes, s: Step, path: seq<Step>)
    ensures Walk(h, lay, digest, [s] + path) == Walk(h, lay, h(StepInput(lay, digest, s)), path)
  {
    var all := [s] + path;
    if path == [] {
      assert all == [s] && all[..0] == [];
      assert Walk(h, lay, digest, []) == digest;
    } else {
      assert all[..|all| - 1] == [s] + path[..|path| - 1];
      WalkCons(h, lay, digest, s, path[..|path| - 1]);
    }
  }

  lemma ParentOf(h: Hash, lay: Layout, level: seq<Bytes>, index: nat)
    requires index < |level| && |level| > 1
    ensures index / 2 < |FoldLevel(h, lay, level)| < |level|
    ensures FoldLevel(h, lay, level)[index / 2] == h(StepInput(lay, level[index], StepAt(level, index)))
  {
  }

  /** An honest path recomputes the root, also where a node is its own sibling. */
  lemma {:induction false} PathReachesRoot(h: Hash, lay: Layout, level: seq<Bytes>, index: nat)
    requires index < |level|
    ensures Walk(h, lay, level[index], PathTo(h, lay, level, index)) == Root(h, lay, level)
    decreases |level|
  {
    if |level| > 1 {
      var up := FoldLevel(h, lay, level);
      ParentOf(h, lay, level, index);
      hide StepAt, StepInput, FoldLevel, Walk;
      WalkCons(h, lay, level[index], StepAt(level, index), PathTo(h, lay, up, index / 2));
      PathReachesRoot(h, lay, up, index / 2);
    } else {
      assert PathTo(h, lay, level, index) == [];
    }
  }

  lemma {:induction false} PathIsDigests(h: Hash, lay: Layout, level: seq<Bytes>, index: nat)
    requires index < |level| && AllDigests(level) && Is256Bit(h)
    ensures forall k :: 0 <= k < |PathTo(h, lay, level, index)| ==> |PathTo(h, lay, level, index)[k].sibling| == 32
    decreases |level|
  {
    if |level| > 1 {
      PathIsDigests(h, lay, FoldLevel(h, lay, level), index / 2);
    }
  }
}
