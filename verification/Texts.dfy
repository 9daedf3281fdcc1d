/** Python's `str.split` and `str.join` on a one-character separator. */
module Texts {
  import opened Canon

  /** `t.split(sep)`. */
  function Split(t: Text, sep: CodePoint): (r: seq<Text>)
    ensures |r| >= 1
  {
    if t == [] then [[]]
    else
      var rest := Split(t[1..], sep);
      if t[0] == sep then [[]] + rest else [[t[0]] + rest[0]] + rest[1..]
  }

  /** `sep.join(segments)`. */
  function Join(segments: seq<Text>, sep: CodePoint): Text {
    if segments == [] then []
    else if |segments| == 1 then segments[0]
    else segments[0] + [sep] + Join(segments[1..], sep)
  }

  predicate Without(t: Text, sep: CodePoint) {
    sep !in t
  }

  lemma {:induction false} SplitHasNoSeparator(t: Text, sep: CodePoint)
    ensures forall seg :: seg in Split(t, sep) ==> Without(seg, sep)
  {
    if t != [] {
      SplitHasNoSeparator(t[1..], sep);
      var rest := Split(t[1..], sep);
      assert rest[0] in rest;
      assert forall seg :: seg in rest[1..] ==> seg in rest;
      assert t[0] != sep ==> Without([t[0]] + rest[0], sep);
    }
  }

  lemma {:induction false} SplitSegment(seg: Text, rest: Text, sep: CodePoint)
    requires Without(seg, sep)
    ensures Split(seg, sep) == [seg]
    ensures Split(seg + [sep] + rest, sep) == [seg] + Split(rest, sep)
  {
    if seg == [] {
      assert seg + [sep] + rest == [sep] + rest;
    } else {
      SplitSegment(seg[1..], rest, sep);
      assert seg == [seg[0]] + seg[1..];
      assert (seg + [sep] + rest)[1..] == seg[1..] + [sep] + rest;
    }
  }

  /** Splitting undoes joining. */
  lemma {:induction false} SplitJoin(segments: seq<Text>, sep: CodePoint)
    requires segments != [] && forall seg :: seg in segments ==> Without(seg, sep)
    ensures Split(Join(segments, sep), sep) == segments
  {
    hide Split, Without;
    assert segments[0] in segments && forall seg :: seg in segments[1..] ==> seg in segments;
    if |segments| == 1 {
      SplitSegment(segments[0], [], sep);
    } else {
      assert Join(segments, sep) == segments[0] + [sep] + Join(segments[1..], sep);
      SplitJoin(segments[1..], sep);
      SplitSegment(segments[0], Join(segments[1..], sep), sep);
    }
  }
}
