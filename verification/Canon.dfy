/**
 Canonical key ordering: `raucle/_canon.py`. A Python string is a sequence of code
 points, lone surrogates included; a sort key is its UTF-16 big-endian encoding.
 */
module Canon {
  import opened Basics
  import opened Order

  type CodePoint = c: int | 0 <= c < 0x110000
  type Text = seq<CodePoint>

  predicate IsSurrogate(c: CodePoint) {
    0xD800 <= c <= 0xDFFF
  }

  /** The string can be encoded: it holds no unpaired surrogate. */
  predicate Clean(s: Text) {
    forall i :: 0 <= i < |s| ==> !IsSurrogate(s[i])
  }

  /** The characters of an ASCII literal as code points. */
  function Ascii(s: string): (t: Text)
    requires forall i :: 0 <= i < |s| ==> s[i] as int < 128
    ensures |t| == |s|
  {
    seq(|s|, i requires 0 <= i < |s| => s[i] as int)
  }

  /** `reject_lone_surrogates`: the first unpaired surrogate, if any. */
  method RejectLoneSurrogates(s: Text) returns (found: Option<CodePoint>)
    ensures found == None <==> Clean(s)
    ensures found.Some? ==> IsSurrogate(found.value) &&
                            exists i :: 0 <= i < |s| && s[i] == found.value && Clean(s[..i])
  {
    for i := 0 to |s|
      invariant Clean(s[..i])
    {
      if IsSurrogate(s[i]) {
        return Some(s[i]);
      }
      assert s[..i + 1] == s[..i] + [s[i]];
    }
    assert s[..|s|] == s;
    return None;
  }

  // ---- UTF-16 -------------------------------------------------------------

  /** The UTF-16 code units of one code point. */
  function Units(c: CodePoint): (u: seq<int>)
    ensures 1 <= |u| <= 2
    ensures forall i :: 0 <= i < |u| ==> 0 <= u[i] < 0x10000
  {
    if c < 0x10000 then [c]
    else [0xD800 + (c - 0x10000) / 0x400, 0xDC00 + (c - 0x10000) % 0x400]
  }

  function CodeUnits(s: Text): (u: seq<int>)
    ensures forall i :: 0 <= i < |u| ==> 0 <= u[i] < 0x10000
  {
    if s == [] then [] else Units(s[0]) + CodeUnits(s[1..])
  }

  /** Big-endian bytes of a code-unit sequence. */
  function BigEndian(u: seq<int>): seq<int> {
    if u == [] then [] else [u[0] / 256, u[0] % 256] + BigEndian(u[1..])
  }

  /** The bytes of `s.encode("utf-16-be")`, also for the strings that call refuses. */
  function Key16(s: Text): seq<int> {
    BigEndian(CodeUnits(s))
  }

  /** `utf16_key`: refuses a lone surrogate, otherwise the big-endian bytes. */
  function Utf16Key(s: Text): Option<seq<int>> {
    if Clean(s) then Some(Key16(s)) else None
  }

  /** Comparing the bytes compares the code units (section 3.2.3 of RFC 8785). */
  lemma {:induction false} ByteOrderIsUnitOrder(u: seq<int>, v: seq<int>)
    requires forall i :: 0 <= i < |u| ==> 0 <= u[i]
    requires forall i :: 0 <= i < |v| ==> 0 <= v[i]
    ensures Leq(BigEndian(u), BigEndian(v)) <==> Leq(u, v)
  {
    if u != [] && v != [] {
      var a, b := BigEndian(u), BigEndian(v);
      assert a[2..] == BigEndian(u[1..]) && b[2..] == BigEndian(v[1..]);
      ByteOrderIsUnitOrder(u[1..], v[1..]);
      assert a[1..][1..] == a[2..] && b[1..][1..] == b[2..];
      assert Leq(a[1..], b[1..]) <==> a[1] < b[1] || (a[1] == b[1] && Leq(a[2..], b[2..]));
      assert u[0] == 256 * (u[0] / 256) + u[0] % 256;
      assert v[0] == 256 * (v[0] / 256) + v[0] % 256;
    }
  }

  lemma UnitsInjective(c: CodePoint, d: CodePoint)
    requires Units(c) == Units(d)
    ensures c == d
  {
  }

  lemma HeadUnits(s: Text, t: Text)
    requires Clean(s) && Clean(t) && s != [] && t != [] && CodeUnits(s) == CodeUnits(t)
    ensures s[0] == t[0] && CodeUnits(s[1..]) == CodeUnits(t[1..])
  {
    var a, b := CodeUnits(s), CodeUnits(t);
    assert a[0] == Units(s[0])[0] && b[0] == Units(t[0])[0];
    // A leading unit is a high surrogate exactly when the code point is astral.
    assert |Units(s[0])| == |Units(t[0])|;
    var n := |Units(s[0])|;
    assert a[..n] == Units(s[0]) && b[..n] == Units(t[0]);
    assert a[n..] == CodeUnits(s[1..]) && b[n..] == CodeUnits(t[1..]);
    UnitsInjective(s[0], t[0]);
  }

  lemma {:induction false} CodeUnitsInjective(s: Text, t: Text)
    requires Clean(s) && Clean(t) && CodeUnits(s) == CodeUnits(t)
    ensures s == t
  {
    if s != [] && t != [] {
      HeadUnits(s, t);
      CodeUnitsInjective(s[1..], t[1..]);
      assert s == [s[0]] + s[1..] && t == [t[0]] + t[1..];
    }
  }

  /** Two encodable strings with one key are one string. */
  lemma Key16Injective(s: Text, t: Text)
    requires Clean(s) && Clean(t) && Key16(s) == Key16(t)
    ensures s == t
  {
    var u, v := CodeUnits(s), CodeUnits(t);
    LeqTotal(Key16(s), Key16(s));
    ByteOrderIsUnitOrder(u, v);
    ByteOrderIsUnitOrder(v, u);
    LeqAntisymmetric(u, v);
    CodeUnitsInjective(s, t);
  }

  /** The keys of encodable strings order and identify them as their code units do. */
  lemma KeyOrderIsUnitOrder(s: Text, t: Text)
    requires Utf16Key(s).Some? && Utf16Key(t).Some?
    ensures Leq(Utf16Key(s).value, Utf16Key(t).value) <==> Leq(CodeUnits(s), CodeUnits(t))
    ensures Utf16Key(s) == Utf16Key(t) <==> s == t
  {
    ByteOrderIsUnitOrder(CodeUnits(s), CodeUnits(t));
    if Utf16Key(s) == Utf16Key(t) {
      Key16Injective(s, t);
    }
  }

  predicate Bmp(s: Text) {
    forall i :: 0 <= i < |s| ==> s[i] < 0x10000
  }

  lemma {:induction false} BmpCodeUnits(s: Text)
    requires Bmp(s)
    ensures CodeUnits(s) == s
  {
    if s != [] {
      BmpCodeUnits(s[1..]);
      assert s == [s[0]] + s[1..];
    }
  }

  /** On strings without astral characters the key order is plain code-point order. */
  lemma BmpOrderIsCodePointOrder(s: Text, t: Text)
    requires Bmp(s) && Bmp(t)
    ensures Leq(Key16(s), Key16(t)) <==> Leq(s, t)
  {
    BmpCodeUnits(s);
    BmpCodeUnits(t);
    ByteOrderIsUnitOrder(CodeUnits(s), CodeUnits(t));
  }

  /** With an astral character the two orders disagree: U+1F511 sorts before U+FF5E. */
  lemma AstralOrderDiffers()
    ensures !Leq([0x1F511], [0xFF5E])
    ensures Leq(Key16([0x1F511]), Key16([0xFF5E]))
  {
  }

  lemma Key16InjectiveOn(s: seq<Text>)
    requires forall x :: x in s ==> Clean(x)
    ensures InjectiveOn(Key16, s)
  {
    forall x, y | x in s && y in s && Key16(x) == Key16(y)
      ensures x == y
    {
      Key16Injective(x, y);
    }
  }

  // ---- Key reordering -----------------------------------------------------

  /** A JSON value; object members are in insertion order, as in a Python dict. */
  datatype Json = Atom(text: Text) | Arr(items: seq<Json>) | Obj(members: seq<Member>)
  datatype Member = Member(name: Text, value: Json)

  const MEMBER_KEY: Member -> seq<int> := (m: Member) => Key16(m.name)

  /** Every key, at every depth, can be encoded. */
  predicate KeysClean(j: Json)
    decreases j
  {
    match j
    case Atom(_) => true
    case Arr(items) => forall v :: v in items ==> KeysClean(v)
    case Obj(ms) => forall m :: m in ms ==> Clean(m.name) && KeysClean(m.value)
  }

  /** What a Python dict guarantees: distinct keys in every object. */
  ghost predicate DistinctKeys(j: Json)
    decreases j
  {
    match j
    case Atom(_) => true
    case Arr(items) => forall v :: v in items ==> DistinctKeys(v)
    case Obj(ms) =>
      && (forall i, k :: 0 <= i < k < |ms| ==> ms[i].name != ms[k].name)
      && (forall m :: m in ms ==> DistinctKeys(m.value))
  }

  function Reordered(j: Json): Json
    decreases j, 1
  {
    match j
    case Atom(_) => j
    case Arr(items) => Arr(ReorderedItems(items))
    case Obj(ms) => Obj(Sort(ReorderedMembers(ms), MEMBER_KEY))
  }

  function ReorderedItems(items: seq<Json>): (r: seq<Json>)
    ensures |r| == |items|
    ensures forall i :: 0 <= i < |r| ==> r[i] == Reordered(items[i])
    decreases items, 0
  {
    if items == [] then [] else [Reordered(items[0])] + ReorderedItems(items[1..])
  }

  function ReorderedMembers(ms: seq<Member>): (r: seq<Member>)
    ensures |r| == |ms|
    ensures forall i :: 0 <= i < |r| ==> r[i] == Member(ms[i].name, Reordered(ms[i].value))
    decreases ms, 0
  {
    if ms == [] then []
    else [Member(ms[0].name, Reordered(ms[0].value))] + ReorderedMembers(ms[1..])
  }

  /** `reorder_keys_utf16`: refuses exactly when some key has a lone surrogate. */
  function ReorderKeysUtf16(j: Json): Option<Json> {
    if KeysClean(j) then Some(Reordered(j)) else None
  }

  ghost function Names(ms: seq<Member>): set<Text> {
    set m | m in ms :: m.name
  }

  /** The same value with object members in any order, at every depth. */
  ghost predicate SameValue(a: Json, b: Json)
    decreases a
  {
    match a
    case Atom(_) => a == b
    case Arr(items) =>
      b.Arr? && |b.items| == |items| &&
      forall i :: 0 <= i < |items| ==> SameValue(items[i], b.items[i])
    case Obj(ms) =>
      && b.Obj?
      && Names(b.members) <= Names(ms)
      && (forall m :: m in ms ==>
            exists n :: n in b.members && n.name == m.name && SameValue(m.value, n.value))
  }

  lemma MembersInjective(ms: seq<Member>)
    requires forall m :: m in ms ==> Clean(m.name)
    requires forall i, k :: 0 <= i < k < |ms| ==> ms[i].name != ms[k].name
    ensures InjectiveOn(MEMBER_KEY, ms)
  {
    forall x, y | x in ms && y in ms && MEMBER_KEY(x) == MEMBER_KEY(y)
      ensures x == y
    {
      Key16Injective(x.name, y.name);
    }
  }

  lemma ReorderedMembersDistinct(ms: seq<Member>)
    requires KeysClean(Obj(ms)) && DistinctKeys(Obj(ms))
    ensures NoDup(ReorderedMembers(ms)) && InjectiveOn(MEMBER_KEY, ReorderedMembers(ms))
  {
    MembersInjective(ReorderedMembers(ms));
  }

  /** Every insertion order of a value reorders to one tree. */
  lemma {:induction false} ReorderIgnoresInsertionOrder(a: Json, b: Json)
    requires KeysClean(a) && KeysClean(b) && DistinctKeys(a) && DistinctKeys(b)
    requires SameValue(a, b)
    ensures Reordered(a) == Reordered(b)
    decreases a
  {
    match a
    case Atom(_) =>
    case Arr(items) =>
      forall i | 0 <= i < |items|
        ensures Reordered(items[i]) == Reordered(b.items[i])
      {
        ReorderIgnoresInsertionOrder(items[i], b.items[i]);
      }
      assert ReorderedItems(items) == ReorderedItems(b.items);
    case Obj(ms) =>
      var ns := b.members;
      var ra, rb := ReorderedMembers(ms), ReorderedMembers(ns);
      forall i | 0 <= i < |ra|
        ensures ra[i] in rb
      {
        ReorderedMemberMatches(a, b, ms[i]);
      }
      forall k | 0 <= k < |rb|
        ensures exists i :: 0 <= i < |ra| && ra[i].name == rb[k].name
      {
        assert ns[k] in ns && ns[k].name in Names(ns);
      }
      ReorderedMembersDistinct(ms);
      ReorderedMembersDistinct(ns);
      MatchedMembers(ra, rb);
      SortSameElements(ra, rb, MEMBER_KEY);
  }

  /** Two objects that reorder alike hold, under each name, members that reorder alike. */
  lemma MemberBehind(ms: seq<Member>, ns: seq<Member>, m: Member) returns (n: Member)
    requires Sort(ReorderedMembers(ms), MEMBER_KEY) == Sort(ReorderedMembers(ns), MEMBER_KEY) && m in ms
    ensures n in ns && n.name == m.name && Reordered(n.value) == Reordered(m.value)
  {
    hide Sort;
    var ra, rb := ReorderedMembers(ms), ReorderedMembers(ns);
    SortMembers(ra, MEMBER_KEY);
    SortMembers(rb, MEMBER_KEY);
    ReorderedIn(ms, m);
    assert Member(m.name, Reordered(m.value)) in rb;
    var k :| 0 <= k < |rb| && rb[k] == Member(m.name, Reordered(m.value));
    n := ns[k];
  }

  /** Only values that differ in insertion order alone reorder to one tree. */
  lemma {:induction false} ReorderedTellsApart(a: Json, b: Json)
    requires Reordered(a) == Reordered(b)
    ensures SameValue(a, b)
    decreases a
  {
    match a
    case Atom(_) =>
    case Arr(items) =>
      forall i | 0 <= i < |items|
        ensures SameValue(items[i], b.items[i])
      {
        assert ReorderedItems(items)[i] == ReorderedItems(b.items)[i];
        ReorderedTellsApart(items[i], b.items[i]);
      }
    case Obj(ms) =>
      var ns := b.members;
      forall m | m in ms
        ensures exists n :: n in ns && n.name == m.name && SameValue(m.value, n.value)
      {
        var n := MemberBehind(ms, ns, m);
        ReorderedTellsApart(m.value, n.value);
      }
      forall n | n in ns
        ensures n.name in Names(ms)
      {
        var m := MemberBehind(ns, ms, n);
      }
  }

  lemma {:induction false} SameValueSameKeys(a: Json, b: Json)
    requires SameValue(a, b) && KeysClean(b)
    ensures KeysClean(a)
    decreases a
  {
    match a
    case Atom(_) =>
    case Arr(items) =>
      forall v | v in items
        ensures KeysClean(v)
      {
        var i :| 0 <= i < |items| && items[i] == v;
        SameValueSameKeys(v, b.items[i]);
      }
    case Obj(ms) =>
      forall m | m in ms
        ensures Clean(m.name) && KeysClean(m.value)
      {
        var n :| n in b.members && n.name == m.name && SameValue(m.value, n.value);
        SameValueSameKeys(m.value, n.value);
      }
  }

  /** One tree for each value: two encodable values reorder alike exactly when only insertion order tells them apart. */
  lemma OneTreePerValue(a: Json, b: Json)
    requires DistinctKeys(a) && DistinctKeys(b) && ReorderKeysUtf16(b).Some?
    ensures ReorderKeysUtf16(a) == ReorderKeysUtf16(b) <==> SameValue(a, b)
  {
    if SameValue(a, b) {
      SameValueSameKeys(a, b);
      ReorderIgnoresInsertionOrder(a, b);
    }
    if ReorderKeysUtf16(a) == ReorderKeysUtf16(b) {
      ReorderedTellsApart(a, b);
    }
  }

  lemma MatchedMembers(ra: seq<Member>, rb: seq<Member>)
    requires forall i :: 0 <= i < |ra| ==> ra[i] in rb
    requires forall k :: 0 <= k < |rb| ==> exists i :: 0 <= i < |ra| && ra[i].name == rb[k].name
    requires InjectiveOn(MEMBER_KEY, rb)
    ensures SameElements(ra, rb)
  {
  }

  lemma ReorderedIn(ns: seq<Member>, n: Member)
    requires n in ns
    ensures Member(n.name, Reordered(n.value)) in ReorderedMembers(ns)
  {
  }

  lemma {:induction false} ReorderedMemberMatches(a: Json, b: Json, m: Member)
    requires KeysClean(a) && KeysClean(b) && DistinctKeys(a) && DistinctKeys(b)
    requires a.Obj? && b.Obj? && SameValue(a, b) && m in a.members
    ensures Member(m.name, Reordered(m.value)) in ReorderedMembers(b.members)
    decreases a, 0
  {
    var n :| n in b.members && n.name == m.name && SameValue(m.value, n.value);
    ReorderIgnoresInsertionOrder(m.value, n.value);
    ReorderedIn(b.members, n);
  }

  lemma {:induction false} ReorderedKeepsShape(j: Json)
    requires KeysClean(j) && DistinctKeys(j)
    ensures KeysClean(Reordered(j)) && DistinctKeys(Reordered(j))
    decreases j
  {
    match j
    case Atom(_) =>
    case Arr(items) =>
      var r := ReorderedItems(items);
      forall v | v in r
        ensures KeysClean(v) && DistinctKeys(v)
      {
        var i :| 0 <= i < |r| && r[i] == v;
        ReorderedKeepsShape(items[i]);
      }
    case Obj(ms) =>
      var r := ReorderedMembers(ms);
      var s := Sort(r, MEMBER_KEY);
      SortMembers(r, MEMBER_KEY);
      forall m | m in s
        ensures Clean(m.name) && KeysClean(m.value) && DistinctKeys(m.value)
      {
        var i :| 0 <= i < |r| && r[i] == m;
        assert ms[i] in ms;
        ReorderedKeepsShape(ms[i].value);
      }
      ReorderedMembersDistinct(ms);
      SortNoDup(r, MEMBER_KEY);
      forall i, k | 0 <= i < k < |s|
        ensures s[i].name != s[k].name
      {
        assert s[i] in r && s[k] in r;
        assert MEMBER_KEY(s[i]) == Key16(s[i].name) && MEMBER_KEY(s[k]) == Key16(s[k].name);
      }
  }

  /** Reordering keeps the value: only the order of members changes. */
  lemma {:induction false} ReorderKeepsValue(j: Json)
    ensures SameValue(j, Reordered(j))
    decreases j
  {
    match j
    case Atom(_) =>
    case Arr(items) =>
      forall i | 0 <= i < |items|
        ensures SameValue(items[i], ReorderedItems(items)[i])
      {
        ReorderKeepsValue(items[i]);
      }
    case Obj(ms) =>
      var r := ReorderedMembers(ms);
      var s := Sort(r, MEMBER_KEY);
      SortMembers(r, MEMBER_KEY);
      forall m | m in s
        ensures m.name in Names(ms)
      {
        var i :| 0 <= i < |r| && r[i] == m;
        assert ms[i] in ms;
      }
      forall m | m in ms
        ensures exists n :: n in s && n.name == m.name && SameValue(m.value, n.value)
      {
        var i :| 0 <= i < |ms| && ms[i] == m;
        ReorderKeepsValue(m.value);
        assert r[i] in r;
        assert r[i] in s && r[i].name == m.name && SameValue(m.value, r[i].value);
      }
  }

  /** Reordering twice is reordering once. */
  lemma ReorderIdempotent(j: Json)
    requires KeysClean(j) && DistinctKeys(j)
    ensures Reordered(Reordered(j)) == Reordered(j)
  {
    ReorderedKeepsShape(j);
    ReorderKeepsValue(j);
    ReorderIgnoresInsertionOrder(j, Reordered(j));
  }
}
