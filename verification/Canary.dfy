/** The zero-width watermark codec (`_token_to_zw` and `_zw_to_token` in `raucle/canary.py`). */
module Canary {
  import opened Basics
  import opened Order
  import opened Canon
  import opened Texts
  import opened Merkle

  const ZERO: CodePoint := 0x200B
  const ONE: CodePoint := 0x200C
  const SEP: CodePoint := 0x200D

  /** UTF-8, both ways; decoding is strict. */
  datatype Utf8 = Utf8(encode: Text -> Bytes, decode: Bytes -> Option<Text>)

  /** Decoding undoes encoding, and the empty text has no bytes. */
  ghost predicate Utf8Ok(u: Utf8) {
    u.encode([]) == [] && forall t :: Clean(t) ==> u.decode(u.encode(t)) == Some(t)
  }

  predicate IsZeroWidth(c: CodePoint) {
    c == ZERO || c == ONE || c == SEP
  }

  predicate AllZeroWidth(t: Text) {
    forall i :: 0 <= i < |t| ==> IsZeroWidth(t[i])
  }

  // ---- Bytes as bits ------------------------------------------------------

  /** The low `n` bits of a number, most significant first. */
  function Bits(b: nat, n: nat): (r: Text)
    ensures |r| == n && forall i :: 0 <= i < n ==> r[i] == ZERO || r[i] == ONE
  {
    if n == 0 then [] else Bits(b / 2, n - 1) + [if b % 2 == 1 then ONE else ZERO]
  }

  /** `int(bits, 2)`. */
  function Value(bits: Text): nat {
    if bits == [] then 0
    else 2 * Value(bits[..|bits| - 1]) + if bits[|bits| - 1] == ONE then 1 else 0
  }

  function Pow2(n: nat): nat {
    if n == 0 then 1 else 2 * Pow2(n - 1)
  }

  lemma {:induction false} ValueOfBits(b: nat, n: nat)
    requires b < Pow2(n)
    ensures Value(Bits(b, n)) == b
  {
    if n > 0 {
      ValueOfBits(b / 2, n - 1);
      assert Bits(b, n)[..n - 1] == Bits(b / 2, n - 1);
    }
  }

  lemma {:induction false} ValueBound(bits: Text)
    ensures Value(bits) < Pow2(|bits|)
  {
    if bits != [] {
      ValueBound(bits[..|bits| - 1]);
    }
  }

  function Octet(b: Byte): Text {
    Bits(b, 8)
  }

  lemma OctetRange()
    ensures Pow2(8) == 256
  {
  }

  function Octets(bytes: Bytes): (r: seq<Text>)
    ensures |r| == |bytes| && forall i :: 0 <= i < |r| ==> r[i] == Octet(bytes[i])
  {
    seq(|bytes|, i requires 0 <= i < |bytes| => Octet(bytes[i]))
  }

  /** The pieces of eight bits, read as bytes; pieces of any other length are dropped. */
  function ReadOctets(pieces: seq<Text>): Bytes {
    if pieces == [] then []
    else
      var rest := ReadOctets(pieces[1..]);
      if |pieces[0]| == 8 then [ByteOf(pieces[0])] + rest else rest
  }

  function ByteOf(bits: Text): Byte
    requires |bits| == 8
  {
    ValueBound(bits);
    OctetRange();
    Value(bits)
  }

  lemma OctetReads(b: Byte)
    ensures |Octet(b)| == 8 && ByteOf(Octet(b)) == b
  {
    OctetRange();
    ValueOfBits(b, 8);
  }

  /** Odd pieces between the octets, as a partly reflowed text leaves them, do not matter. */
  lemma {:induction false} ReadOctetsFilters(pieces: seq<Text>, bytes: Bytes)
    requires Eights(pieces) == Octets(bytes)
    ensures ReadOctets(pieces) == bytes
  {
    hide Octet, Octets, Eights, Value;
    if pieces == [] {
      NoOctets(bytes);
    } else {
      EightsCons(pieces);
      if |pieces[0]| == 8 {
        OctetsCons(bytes);
        assert pieces[0] == Eights(pieces)[0] == Octet(bytes[0]);
        OctetReads(bytes[0]);
        assert Eights(pieces[1..]) == Eights(pieces)[1..] == Octets(bytes[1..]);
        ReadOctetsFilters(pieces[1..], bytes[1..]);
        assert bytes == [bytes[0]] + bytes[1..];
      } else {
        ReadOctetsFilters(pieces[1..], bytes);
      }
    }
  }

  lemma NoOctets(bytes: Bytes)
    requires Eights([]) == Octets(bytes)
    ensures bytes == []
  {
  }

  lemma OctetsCons(bytes: Bytes)
    requires bytes != []
    ensures Octets(bytes) == [Octet(bytes[0])] + Octets(bytes[1..])
  {
  }

  lemma EightsCons(pieces: seq<Text>)
    requires pieces != []
    ensures Eights(pieces) == (if |pieces[0]| == 8 then [pieces[0]] else []) + Eights(pieces[1..])
  {
  }

  function Eights(pieces: seq<Text>): seq<Text> {
    if pieces == [] then []
    else (if |pieces[0]| == 8 then [pieces[0]] else []) + Eights(pieces[1..])
  }

  lemma {:induction false} EightsOfOctets(bytes: Bytes)
    ensures Eights(Octets(bytes)) == Octets(bytes)
  {
    if bytes != [] {
      assert Octets(bytes)[1..] == Octets(bytes[1..]);
      EightsOfOctets(bytes[1..]);
    }
  }

  // ---- Encoding -----------------------------------------------------------

  function ZwBytes(bytes: Bytes): Text {
    Join(Octets(bytes), SEP)
  }

  /** What `_token_to_zw` produces. */
  function Watermark(u: Utf8, token: Text): Text {
    ZwBytes(u.encode(token))
  }

  /** `_token_to_zw`: one octet per byte, separated. */
  method TokenToZw(u: Utf8, token: Text) returns (zw: Text)
    ensures zw == Watermark(u, token)
  {
    var bytes := u.encode(token);
    var parts: seq<Text> := [];
    for i := 0 to |bytes|
      invariant parts == Octets(bytes[..i])
    {
      parts := parts + [Octet(bytes[i])];
    }
    assert bytes[..|bytes|] == bytes;
    zw := Join(parts, SEP);
  }

  lemma {:induction false} JoinZeroWidth(pieces: seq<Text>)
    requires forall p :: p in pieces ==> AllZeroWidth(p)
    ensures AllZeroWidth(Join(pieces, SEP))
  {
    if pieces != [] {
      assert pieces[0] in pieces && forall p :: p in pieces[1..] ==> p in pieces;
      JoinZeroWidth(pieces[1..]);
    }
  }

  lemma {:induction false} ZwLength(bytes: Bytes)
    ensures |ZwBytes(bytes)| == if bytes == [] then 0 else 9 * |bytes| - 1
    ensures AllZeroWidth(ZwBytes(bytes))
  {
    if bytes != [] {
      ZwLength(bytes[1..]);
      assert Octets(bytes)[1..] == Octets(bytes[1..]);
    }
    JoinZeroWidth(Octets(bytes));
  }

  // ---- Runs ---------------------------------------------------------------

  /** The finished runs of zero-width characters and the run being collected. */
  datatype Scan = Scan(runs: seq<Text>, current: Text)

  function ScanChar(s: Scan, c: CodePoint): Scan {
    if IsZeroWidth(c) then Scan(s.runs, s.current + [c])
    else if s.current != [] then Scan(s.runs + [s.current], [])
    else s
  }

  function ScanFrom(s: Scan, text: Text): Scan
    decreases |text|
  {
    if text == [] then s else ScanFrom(ScanChar(s, text[0]), text[1..])
  }

  function Finish(s: Scan): seq<Text> {
    if s.current != [] then s.runs + [s.current] else s.runs
  }

  /** The contiguous runs of zero-width characters, in order. */
  function Runs(text: Text): seq<Text> {
    Finish(ScanFrom(Scan([], []), text))
  }

  lemma {:induction false} ScanConcat(s: Scan, a: Text, b: Text)
    ensures ScanFrom(s, a + b) == ScanFrom(ScanFrom(s, a), b)
    decreases |a|
  {
    if a == [] {
      assert a + b == b;
    } else {
      assert (a + b)[1..] == a[1..] + b;
      ScanConcat(ScanChar(s, a[0]), a[1..], b);
    }
  }

  /** Runs already finished are carried along untouched. */
  lemma {:induction false} ScanCarries(runs: seq<Text>, current: Text, text: Text)
    ensures var s := ScanFrom(Scan([], current), text);
            ScanFrom(Scan(runs, current), text) == Scan(runs + s.runs, s.current)
    decreases |text|
  {
    if text == [] {
      assert runs + [] == runs;
    } else {
      var with, bare := ScanChar(Scan(runs, current), text[0]), ScanChar(Scan([], current), text[0]);
      ScanCarries(with.runs, with.current, text[1..]);
      ScanCarries(bare.runs, bare.current, text[1..]);
      var s := ScanFrom(Scan([], with.current), text[1..]);
      assert with.runs == runs + bare.runs;
      assert runs + bare.runs + s.runs == runs + (bare.runs + s.runs);
    }
  }

  lemma {:induction false} ScanRun(s: Scan, run: Text)
    requires AllZeroWidth(run)
    ensures ScanFrom(s, run) == Scan(s.runs, s.current + run)
    decreases |run|
  {
    if run == [] {
      assert s.current + run == s.current;
    } else {
      ScanRun(ScanChar(s, run[0]), run[1..]);
      assert s.current + [run[0]] + run[1..] == s.current + run;
    }
  }

  lemma {:induction false} ScanEndsClean(s: Scan, text: Text)
    requires text != [] && !IsZeroWidth(text[|text| - 1])
    ensures ScanFrom(s, text).current == []
    decreases |text|
  {
    if |text| > 1 {
      ScanEndsClean(ScanChar(s, text[0]), text[1..]);
    } else {
      assert text[1..] == [];
    }
  }

  /** No zero-width character touches the run from either side. */
  predicate Apart(before: Text, after: Text) {
    && (before != [] ==> !IsZeroWidth(before[|before| - 1]))
    && (after != [] ==> !IsZeroWidth(after[0]))
  }

  /** Every maximal run is collected, once, in its place. */
  lemma RunsAround(before: Text, run: Text, after: Text)
    requires run != [] && AllZeroWidth(run) && Apart(before, after)
    ensures Runs(before + run + after) == Runs(before) + [run] + Runs(after)
  {
    var none := Scan([], []);
    ScanConcat(none, before + run, after);
    ScanConcat(none, before, run);
    var s := ScanFrom(none, before);
    if before != [] {
      ScanEndsClean(none, before);
    }
    ScanRun(s, run);
    assert s.current + run == run;
    var done := Scan(s.runs, run);
    if after == [] {
      assert Runs(after) == [];
    } else {
      assert ScanFrom(done, after) == ScanFrom(Scan(s.runs + [run], []), after[1..]);
      assert ScanFrom(none, after) == ScanFrom(none, after[1..]);
      ScanCarries(s.runs + [run], [], after[1..]);
    }
  }

  lemma {:induction false} NoZeroWidthNoRuns(text: Text)
    requires forall i :: 0 <= i < |text| ==> !IsZeroWidth(text[i])
    ensures Runs(text) == []
  {
    if text != [] {
      NoZeroWidthNoRuns(text[1..]);
    }
  }

  // ---- Decoding -----------------------------------------------------------

  function DecodeRun(u: Utf8, run: Text): Option<Text> {
    u.decode(ReadOctets(Split(run, SEP)))
  }

  function RunKey(run: Text): seq<int> {
    [-|run|]
  }

  function FirstDecoded(u: Utf8, runs: seq<Text>): Option<Text> {
    if runs == [] then None
    else if DecodeRun(u, runs[0]).Some? then DecodeRun(u, runs[0])
    else FirstDecoded(u, runs[1..])
  }

  /** What `_zw_to_token` recovers: the longest run that decodes, earlier ones first. */
  function Recovered(u: Utf8, text: Text): Option<Text> {
    FirstDecoded(u, Sort(Runs(text), RunKey))
  }

  /** `_zw_to_token`. */
  method ZwToToken(u: Utf8, text: Text) returns (token: Option<Text>)
    ensures token == Recovered(u, text)
  {
    var runs: seq<Text> := [];
    var current: Text := [];
    for i := 0 to |text|
      invariant ScanFrom(Scan([], []), text[..i]) == Scan(runs, current)
    {
      assert text[..i + 1] == text[..i] + [text[i]];
      ScanConcat(Scan([], []), text[..i], [text[i]]);
      assert [text[i]][1..] == [];
      if IsZeroWidth(text[i]) {
        current := current + [text[i]];
      } else if current != [] {
        runs := runs + [current];
        current := [];
      }
    }
    assert text[..|text|] == text;
    if current != [] {
      runs := runs + [current];
    }
    var sorted := Sort(runs, RunKey);
    for i := 0 to |sorted|
      invariant FirstDecoded(u, sorted) == FirstDecoded(u, sorted[i..])
    {
      assert sorted[i..][1..] == sorted[i + 1..];
      var decoded := DecodeRun(u, sorted[i]);
      if decoded.Some? {
        return decoded;
      }
    }
    return None;
  }

  /** Separated pieces decode to the token when their octets spell it. */
  lemma DecodePieces(u: Utf8, pieces: seq<Text>, token: Text)
    requires Utf8Ok(u) && Clean(token) && pieces != []
    requires forall p :: p in pieces ==> Without(p, SEP)
    requires Eights(pieces) == Octets(u.encode(token))
    ensures DecodeRun(u, Join(pieces, SEP)) == Some(token)
  {
    SplitJoin(pieces, SEP);
    ReadOctetsFilters(pieces, u.encode(token));
  }

  lemma EncodedNonEmpty(u: Utf8, token: Text)
    requires Utf8Ok(u) && Clean(token) && token != []
    ensures u.encode(token) != []
  {
  }

  lemma DecodeWatermark(u: Utf8, token: Text)
    requires Utf8Ok(u) && Clean(token) && token != []
    ensures Watermark(u, token) != [] && AllZeroWidth(Watermark(u, token))
    ensures DecodeRun(u, Watermark(u, token)) == Some(token)
  {
    var bytes := u.encode(token);
    EncodedNonEmpty(u, token);
    ZwLength(bytes);
    EightsOfOctets(bytes);
    DecodePieces(u, Octets(bytes), token);
  }

  lemma RunOrder(x: Text, y: Text)
    ensures Leq(RunKey(x), RunKey(y)) <==> |y| <= |x|
  {
  }

  // ---- Which runs are tried first -----------------------------------------

  /** The runs of at least, or else below, a length, in order. */
  function Cut(runs: seq<Text>, n: int, long: bool): seq<Text> {
    if runs == [] then []
    else (if |runs[0]| >= n <==> long then [runs[0]] else []) + Cut(runs[1..], n, long)
  }

  lemma {:induction false} CutMembers(runs: seq<Text>, n: int, long: bool)
    ensures forall x :: x in Cut(runs, n, long) ==> x in runs && (|x| >= n <==> long)
  {
    if runs != [] {
      CutMembers(runs[1..], n, long);
    }
  }

  /** The runs tried before one of length `n`: no shorter ones before it in the text, longer ones after it. */
  function TriedBefore(before: seq<Text>, n: nat, after: seq<Text>): seq<Text> {
    Sort(Cut(before, n, true) + Cut(after, n + 1, true), RunKey)
  }

  /** The runs tried after it. */
  function TriedAfter(before: seq<Text>, n: nat, after: seq<Text>): seq<Text> {
    Sort(Cut(before, n, false) + Cut(after, n + 1, false), RunKey)
  }

  /** A run goes in front of whatever is no longer. */
  lemma {:induction false} InsertBefore(x: Text, p: seq<Text>, q: seq<Text>)
    requires q == [] || |q[0]| <= |x|
    ensures Insert(x, p + q, RunKey) == Insert(x, p, RunKey) + q
  {
    hide Leq, RunKey;
    if p == [] {
      assert p + q == q;
      if q != [] {
        RunOrder(x, q[0]);
      }
    } else {
      RunOrder(x, p[0]);
      assert (p + q)[1..] == p[1..] + q;
      InsertBefore(x, p[1..], q);
      assert [x] + (p + q) == [x] + p + q;
    }
  }

  /** A run passes whatever is longer. */
  lemma {:induction false} InsertPast(x: Text, p: seq<Text>, q: seq<Text>)
    requires forall y :: y in p ==> |x| < |y|
    ensures Insert(x, p + q, RunKey) == p + Insert(x, q, RunKey)
  {
    hide Leq, RunKey;
    if p == [] {
      assert p + q == q;
      assert [] + Insert(x, q, RunKey) == Insert(x, q, RunKey);
    } else {
      assert p[0] in p;
      RunOrder(x, p[0]);
      assert (p + q)[1..] == p[1..] + q;
      InsertPast(x, p[1..], q);
    }
  }

  lemma SortedIn(runs: seq<Text>)
    ensures forall x :: x in Sort(runs, RunKey) <==> x in runs
  {
    SortMembers(runs, RunKey);
  }

  /** `q` holds nothing longer than `x`. */
  lemma NoneLonger(x: Text, runs: seq<Text>)
    requires forall y :: y in runs ==> |y| <= |x|
    ensures Sort(runs, RunKey) == [] || |Sort(runs, RunKey)[0]| <= |x|
  {
    hide *;
    SortedIn(runs);
    var q := Sort(runs, RunKey);
    assert q != [] ==> q[0] in q;
  }

  lemma SortCons(x: Text, runs: seq<Text>)
    ensures Sort([x] + runs, RunKey) == Insert(x, Sort(runs, RunKey), RunKey)
  {
    assert ([x] + runs)[1..] == runs;
  }

  lemma CutCons(x: Text, runs: seq<Text>, n: int, long: bool)
    ensures Cut([x] + runs, n, long) == if |x| >= n <==> long then [x] + Cut(runs, n, long) else Cut(runs, n, long)
  {
    assert ([x] + runs)[1..] == runs;
  }

  lemma HeadTail(runs: seq<Text>)
    requires runs != []
    ensures runs == [runs[0]] + runs[1..]
  {
  }

  lemma CutNothing(n: int)
    ensures Sort([], RunKey) == Sort(Cut([], n, true), RunKey) + Sort(Cut([], n, false), RunKey)
  {
  }

  /** Sorting sorts the long runs before the short ones. */
  lemma {:induction false} SortCuts(runs: seq<Text>, n: int)
    ensures Sort(runs, RunKey) == Sort(Cut(runs, n, true), RunKey) + Sort(Cut(runs, n, false), RunKey)
  {
    hide *;
    if runs == [] {
      CutNothing(n);
    } else {
      var x, rest := runs[0], runs[1..];
      var long, short := Cut(rest, n, true), Cut(rest, n, false);
      HeadTail(runs);
      SortCuts(rest, n);
      SortCons(x, rest);
      CutCons(x, rest, n, true);
      CutCons(x, rest, n, false);
      if |x| >= n {
        SortCons(x, long);
        CutMembers(rest, n, false);
        NoneLonger(x, short);
        InsertBefore(x, Sort(long, RunKey), Sort(short, RunKey));
      } else {
        SortCons(x, short);
        CutMembers(rest, n, true);
        SortedIn(long);
        InsertPast(x, Sort(long, RunKey), Sort(short, RunKey));
      }
    }
  }

  lemma TriedParts(a: seq<Text>, n: nat, b: seq<Text>)
    ensures TriedBefore(a, n, b) == Sort(Cut(a, n, true) + Cut(b, n + 1, true), RunKey)
    ensures TriedAfter(a, n, b) == Sort(Cut(a, n, false) + Cut(b, n + 1, false), RunKey)
  {
  }

  lemma NothingBefore(n: nat, b: seq<Text>)
    ensures TriedBefore([], n, b) == Sort(Cut(b, n + 1, true), RunKey)
    ensures TriedAfter([], n, b) == Sort(Cut(b, n + 1, false), RunKey)
  {
    assert [] + Cut(b, n + 1, true) == Cut(b, n + 1, true) && [] + Cut(b, n + 1, false) == Cut(b, n + 1, false);
  }

  lemma InsertAlone(run: Text, q: seq<Text>)
    requires q == [] || |q[0]| <= |run|
    ensures Insert(run, q, RunKey) == [run] + q
  {
    hide *;
    InsertBefore(run, [], q);
    InsertNone(run);
    EmptyFront(q);
  }

  lemma InsertNone(run: Text)
    ensures Insert(run, [], RunKey) == [run]
  {
  }

  lemma EmptyFront<T>(q: seq<T>)
    ensures [] + q == q
  {
  }

  lemma Regroup<T>(p: seq<T>, m: seq<T>, q: seq<T>)
    ensures p + (m + q) == p + m + q
  {
  }

  /** A run before all others: behind the longer ones, in front of the rest. */
  lemma SortFront(run: Text, b: seq<Text>)
    ensures Sort([run] + b, RunKey) == TriedBefore([], |run|, b) + ([run] + TriedAfter([], |run|, b))
  {
    hide *;
    var n := |run|;
    var long, short := Cut(b, n + 1, true), Cut(b, n + 1, false);
    NothingBefore(n, b);
    SortCons(run, b);
    SortCuts(b, n + 1);
    CutMembers(b, n + 1, true);
    SortedIn(long);
    CutMembers(b, n + 1, false);
    NoneLonger(run, short);
    InsertPast(run, Sort(long, RunKey), Sort(short, RunKey));
    InsertAlone(run, Sort(short, RunKey));
  }

  /** A run before the others is tried earlier if it is no shorter, later if it is shorter. */
  lemma TriedCons(x: Text, a: seq<Text>, n: nat, b: seq<Text>)
    ensures |x| >= n ==> TriedBefore([x] + a, n, b) == Insert(x, TriedBefore(a, n, b), RunKey)
                         && TriedAfter([x] + a, n, b) == TriedAfter(a, n, b)
    ensures |x| < n ==> TriedAfter([x] + a, n, b) == Insert(x, TriedAfter(a, n, b), RunKey)
                        && TriedBefore([x] + a, n, b) == TriedBefore(a, n, b)
  {
    hide *;
    var long := |x| >= n;
    TriedParts([x] + a, n, b);
    TriedParts(a, n, b);
    CutCons(x, a, n, true);
    CutCons(x, a, n, false);
    Regroup([x], Cut(a, n, long), Cut(b, n + 1, long));
    SortCons(x, Cut(a, n, long) + Cut(b, n + 1, long));
  }

  lemma TriedBeforeNoShorter(a: seq<Text>, n: nat, b: seq<Text>)
    ensures forall x :: x in TriedBefore(a, n, b) ==> n <= |x|
  {
    CutMembers(a, n, true);
    CutMembers(b, n + 1, true);
    SortedIn(Cut(a, n, true) + Cut(b, n + 1, true));
  }

  lemma Appended(x: Text, p: seq<Text>, run: Text)
    requires |x| < |run| && forall y :: y in p ==> |x| < |y|
    ensures forall y :: y in p + [run] ==> |x| < |y|
  {
  }

  lemma SingleFirst(run: Text, q: seq<Text>)
    ensures ([run] + q)[0] == run
  {
  }

  /** Where one run among others ends up. */
  lemma {:induction false} SortAround(a: seq<Text>, run: Text, b: seq<Text>)
    ensures Sort(a + ([run] + b), RunKey) == TriedBefore(a, |run|, b) + ([run] + TriedAfter(a, |run|, b))
  {
    hide *;
    var all := [run] + b;
    if a == [] {
      assert a + all == all;
      SortFront(run, b);
    } else {
      var x, rest := a[0], a[1..];
      var p, q := TriedBefore(rest, |run|, b), TriedAfter(rest, |run|, b);
      HeadTail(a);
      Regroup([x], rest, all);
      SortCons(x, rest + all);
      SortAround(rest, run, b);
      TriedCons(x, rest, |run|, b);
      if |x| >= |run| {
        SingleFirst(run, q);
        InsertBefore(x, p, [run] + q);
      } else {
        TriedBeforeNoShorter(rest, |run|, b);
        Appended(x, p, run);
        Regroup(p, [run], q);
        InsertPast(x, p + [run], q);
        Regroup(p, [run], Insert(x, q, RunKey));
      }
    }
  }

  lemma {:induction false} FirstDecodedConcat(u: Utf8, p: seq<Text>, q: seq<Text>)
    ensures FirstDecoded(u, p + q) ==
            if FirstDecoded(u, p).Some? then FirstDecoded(u, p) else FirstDecoded(u, q)
  {
    if p == [] {
      assert p + q == q;
    } else {
      assert (p + q)[1..] == p[1..] + q;
      FirstDecodedConcat(u, p[1..], q);
    }
  }

  lemma RecoveredDef(u: Utf8, text: Text)
    ensures Recovered(u, text) == FirstDecoded(u, Sort(Runs(text), RunKey))
  {
  }

  lemma DecodesFirst(u: Utf8, run: Text, q: seq<Text>)
    requires DecodeRun(u, run).Some?
    ensures FirstDecoded(u, [run] + q) == DecodeRun(u, run)
  {
  }

  /** A run that decodes is reached exactly when none tried before it decodes. */
  lemma RecoveredAround(u: Utf8, before: Text, run: Text, after: Text)
    requires run != [] && AllZeroWidth(run) && Apart(before, after) && DecodeRun(u, run).Some?
    ensures var first := FirstDecoded(u, TriedBefore(Runs(before), |run|, Runs(after)));
            Recovered(u, before + run + after) == if first.Some? then first else DecodeRun(u, run)
  {
    var p, q := TriedBefore(Runs(before), |run|, Runs(after)), TriedAfter(Runs(before), |run|, Runs(after));
    hide *;
    RecoveredDef(u, before + run + after);
    RunsAround(before, run, after);
    Regroup(Runs(before), [run], Runs(after));
    SortAround(Runs(before), run, Runs(after));
    FirstDecodedConcat(u, p, [run] + q);
    DecodesFirst(u, run, q);
  }

  lemma {:induction false} NoneLong(runs: seq<Text>, n: int)
    requires forall x :: x in runs ==> |x| < n
    ensures Cut(runs, n, true) == []
  {
    if runs != [] {
      assert runs[0] in runs;
      NoneLong(runs[1..], n);
    }
  }

  lemma LongestDecodes(u: Utf8, before: Text, run: Text, after: Text)
    requires run != [] && AllZeroWidth(run) && Apart(before, after)
    requires forall x :: x in Runs(before) ==> |x| < |run|
    requires forall x :: x in Runs(after) ==> |x| <= |run|
    requires DecodeRun(u, run).Some?
    ensures Recovered(u, before + run + after) == DecodeRun(u, run)
  {
    RecoveredAround(u, before, run, after);
    NoneLong(Runs(before), |run|);
    NoneLong(Runs(after), |run| + 1);
    TriedParts(Runs(before), |run|, Runs(after));
  }

  /**
   Exactly when a watermark that other zero-width runs do not touch is recovered: the first
   run that decodes among those no shorter before it and those longer after it, if there is
   any, decodes to the same token.
   */
  lemma WatermarkRecoveredIff(u: Utf8, token: Text, before: Text, after: Text)
    requires Utf8Ok(u) && Clean(token) && token != [] && Apart(before, after)
    ensures var first := FirstDecoded(u, TriedBefore(Runs(before), |Watermark(u, token)|, Runs(after)));
            Recovered(u, before + Watermark(u, token) + after) == Some(token) <==> first == None || first == Some(token)
  {
    DecodeWatermark(u, token);
    RecoveredAround(u, before, Watermark(u, token), after);
  }

  /**
   Round trip: a watermark is recovered from any text around it whose own zero-width
   runs do not touch it, are shorter before it, and no longer after it.
   */
  lemma WatermarkRecovered(u: Utf8, token: Text, before: Text, after: Text)
    requires Utf8Ok(u) && Clean(token) && token != [] && Apart(before, after)
    requires forall x :: x in Runs(before) ==> |x| < |Watermark(u, token)|
    requires forall x :: x in Runs(after) ==> |x| <= |Watermark(u, token)|
    ensures Recovered(u, before + Watermark(u, token) + after) == Some(token)
  {
    DecodeWatermark(u, token);
    LongestDecodes(u, before, Watermark(u, token), after);
  }

  /** Different tokens never share a watermark. */
  lemma WatermarkInjective(u: Utf8, a: Text, b: Text)
    requires Utf8Ok(u) && Clean(a) && Clean(b) && a != [] && b != []
    requires Watermark(u, a) == Watermark(u, b)
    ensures a == b
  {
    DecodeWatermark(u, a);
    DecodeWatermark(u, b);
  }

  // ---- Decoys -------------------------------------------------------------

  function Decoy(n: nat): (r: Text)
    ensures |r| == n && forall i :: 0 <= i < n ==> r[i] == ONE
  {
    seq(n, i => ONE)
  }

  /**
   A longer run without octets in it reads as the empty token and ends the search: the
   watermark beside it is not decoded.
   */
  lemma DecoyWins(u: Utf8, before: Text, after: Text, n: nat)
    requires Utf8Ok(u) && n > 8 && Apart(before, after)
    requires forall x :: x in Runs(before) ==> |x| < n
    requires forall x :: x in Runs(after) ==> |x| <= n
    ensures Recovered(u, before + Decoy(n) + after) == Some([])
  {
    var run := Decoy(n);
    assert Join([run], SEP) == run;
    assert Eights([run]) == Eights([run][1..]) == [];
    assert u.encode([]) == [] && Clean([]);
    DecodePieces(u, [run], []);
    LongestDecodes(u, before, run, after);
  }
}
