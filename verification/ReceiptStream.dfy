/** The head anchor of the containment receipt stream (`raucle/containment.py`). */
module ReceiptStream {
  import opened Basics
  import opened Merkle

  const HEAD_SIZE: nat := 64

  /** The ASCII text of 64 zeros. */
  function Genesis(): (r: Bytes)
    ensures |r| == HEAD_SIZE
  {
    seq(HEAD_SIZE, i => 0x30)
  }

  /** Digest texts have 64 characters. */
  ghost predicate HexDigests(h: Hash) {
    forall x :: |h(x)| == HEAD_SIZE
  }

  /** `_fold_stream_head` over the receipt hashes of a stream. */
  function Head(h: Hash, ids: seq<Bytes>): Bytes {
    if ids == [] then Genesis() else h(Head(h, ids[..|ids| - 1]) + ids[|ids| - 1])
  }

  datatype Anchor = Anchor(count: nat, head: Bytes)

  /** `_compute_stream_head`: one pass over the stream. */
  method ComputeHead(h: Hash, ids: seq<Bytes>) returns (anchor: Anchor)
    ensures anchor == Anchor(|ids|, Head(h, ids))
  {
    var head, count := Genesis(), 0;
    for i := 0 to |ids|
      invariant head == Head(h, ids[..i]) && count == i
    {
      assert ids[..i + 1][..i] == ids[..i];
      head := h(head + ids[i]);
      count := count + 1;
    }
    assert ids[..|ids|] == ids;
    return Anchor(count, head);
  }

  datatype Gap = NoGap | MissingStream | TruncatedOrRewritten

  /** `verify_receipt_stream_anchor`; `None` is a stream that was never anchored. */
  function GapOf(h: Hash, stream: Option<seq<Bytes>>, anchor: Option<Anchor>): Option<Gap> {
    if anchor.None? then None
    else if stream.None? then Some(MissingStream)
    else if anchor.value != Anchor(|stream.value|, Head(h, stream.value)) then Some(TruncatedOrRewritten)
    else Some(NoGap)
  }

  /** Every fold input of a stream. */
  ghost function FoldInputs(h: Hash, ids: seq<Bytes>): set<Bytes> {
    if ids == [] then {}
    else FoldInputs(h, ids[..|ids| - 1]) + {Head(h, ids[..|ids| - 1]) + ids[|ids| - 1]}
  }

  lemma {:induction false} HeadBinds(h: Hash, a: seq<Bytes>, b: seq<Bytes>)
    requires HexDigests(h) && |a| == |b| && Head(h, a) == Head(h, b)
    ensures a == b || !CollisionFree(h, FoldInputs(h, a) + FoldInputs(h, b))
  {
    if a != [] && CollisionFree(h, FoldInputs(h, a) + FoldInputs(h, b)) {
      var a', b' := a[..|a| - 1], b[..|b| - 1];
      var x, y := Head(h, a') + a[|a| - 1], Head(h, b') + b[|b| - 1];
      assert x in FoldInputs(h, a) && y in FoldInputs(h, b);
      assert x == y;
      assert |Head(h, a')| == HEAD_SIZE && |Head(h, b')| == HEAD_SIZE;
      assert x[..HEAD_SIZE] == Head(h, a') && y[..HEAD_SIZE] == Head(h, b');
      assert x[HEAD_SIZE..] == a[|a| - 1] && y[HEAD_SIZE..] == b[|b| - 1];
      CollisionFreeSubset(h, FoldInputs(h, a') + FoldInputs(h, b'), FoldInputs(h, a) + FoldInputs(h, b));
      HeadBinds(h, a', b');
      assert a == a' + [a[|a| - 1]] && b == b' + [b[|b| - 1]];
    }
  }

  /**
   A stream shows no gap against the anchor of `anchored` exactly when it still lists
   the same receipt hashes, or the two folds hashed a collision.
   */
  lemma NoGapIff(h: Hash, anchored: seq<Bytes>, stream: Option<seq<Bytes>>)
    requires HexDigests(h)
    ensures var gap := GapOf(h, stream, Some(Anchor(|anchored|, Head(h, anchored))));
            && (stream == Some(anchored) ==> gap == Some(NoGap))
            && (gap == Some(NoGap) ==>
                  stream.Some? &&
                  (stream.value == anchored
                   || !CollisionFree(h, FoldInputs(h, anchored) + FoldInputs(h, stream.value))))
            && (gap == Some(MissingStream) <==> stream == None) && gap != None
    ensures GapOf(h, stream, None) == None
  {
    if stream.Some? && |stream.value| == |anchored| && Head(h, stream.value) == Head(h, anchored) {
      HeadBinds(h, anchored, stream.value);
    }
  }
}
