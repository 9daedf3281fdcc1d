/** The order of everything canonical: object keys, value lists, field names, combinations and committed arguments. */
module CanonicalOrder {
  import opened Basics
  import opened Order
  import opened Canon
  import opened Values
  import opened Policy
  import opened Narrowing
  import opened Absorb
  import opened Merkle
  import opened Conformance

  /** One UTF-16 code unit for a character of the basic plane, otherwise a surrogate pair that spells it. */
  lemma UnitsSpell(c: CodePoint)
    ensures if c < 0x10000 then Units(c) == [c]
            else
              && |Units(c)| == 2 && 0xD800 <= Units(c)[0] <= 0xDBFF && 0xDC00 <= Units(c)[1] <= 0xDFFF
              && c == 0x10000 + (Units(c)[0] - 0xD800) * 0x400 + (Units(c)[1] - 0xDC00)
  {
  }

  /** `a` may stand in front of `b`: by UTF-16 code units. */
  ghost predicate TextBefore(a: Text, b: Text) {
    Leq(CodeUnits(a), CodeUnits(b))
  }

  lemma KeyIsTextOrder(a: Text, b: Text)
    ensures Leq(Key16(a), Key16(b)) <==> TextBefore(a, b)
  {
    ByteOrderIsUnitOrder(CodeUnits(a), CodeUnits(b));
  }

  // ---- Object keys --------------------------------------------------------

  /** Some object of the value, at whatever depth, has this key. */
  ghost predicate HasKey(j: Json, k: Text)
    decreases j
  {
    match j
    case Atom(_) => false
    case Arr(items) => exists v :: v in items && HasKey(v, k)
    case Obj(ms) => exists m :: m in ms && (m.name == k || HasKey(m.value, k))
  }

  lemma {:induction false} KeysCleanIff(j: Json)
    ensures KeysClean(j) <==> forall k :: HasKey(j, k) ==> Clean(k)
    decreases j
  {
    match j
    case Atom(_) =>
    case Arr(items) =>
      forall v | v in items ensures KeysClean(v) <==> forall k :: HasKey(v, k) ==> Clean(k) {
        KeysCleanIff(v);
      }
    case Obj(ms) =>
      forall m | m in ms ensures KeysClean(m.value) <==> forall k :: HasKey(m.value, k) ==> Clean(k) {
        KeysCleanIff(m.value);
      }
  }

  /** In every object, at every depth, the keys stand in order. */
  ghost predicate KeysInOrder(j: Json)
    decreases j
  {
    match j
    case Atom(_) => true
    case Arr(items) => forall v :: v in items ==> KeysInOrder(v)
    case Obj(ms) =>
      && (forall i, k :: 0 <= i < k < |ms| ==> TextBefore(ms[i].name, ms[k].name))
      && forall m :: m in ms ==> KeysInOrder(m.value)
  }

  lemma {:induction false} ReorderedInOrder(j: Json)
    ensures KeysInOrder(Reordered(j))
    decreases j
  {
    match j
    case Atom(_) =>
    case Arr(items) =>
      forall i | 0 <= i < |items| ensures KeysInOrder(Reordered(items[i])) {
        ReorderedInOrder(items[i]);
      }
    case Obj(ms) =>
      forall i | 0 <= i < |ms| ensures KeysInOrder(Reordered(ms[i].value)) {
        ReorderedInOrder(ms[i].value);
      }
      MembersInOrder(ReorderedMembers(ms));
  }

  lemma MembersInOrder(ms: seq<Member>)
    requires forall m :: m in ms ==> KeysInOrder(m.value)
    ensures KeysInOrder(Obj(Sort(ms, MEMBER_KEY)))
  {
    var sorted := Sort(ms, MEMBER_KEY);
    SortMembers(ms, MEMBER_KEY);
    SortSorted(ms, MEMBER_KEY);
    forall i, k | 0 <= i < k < |sorted| ensures TextBefore(sorted[i].name, sorted[k].name) {
      KeyIsTextOrder(sorted[i].name, sorted[k].name);
    }
    hide KeysInOrder;
    assert forall m :: m in sorted ==> KeysInOrder(m.value);
    OrderedObject(sorted);
  }

  lemma OrderedObject(ms: seq<Member>)
    requires forall i, k :: 0 <= i < k < |ms| ==> TextBefore(ms[i].name, ms[k].name)
    requires forall m :: m in ms ==> KeysInOrder(m.value)
    ensures KeysInOrder(Obj(ms))
  {
  }

  /** Reordering is refused exactly for a key with a lone surrogate; otherwise every object comes out in order. */
  lemma ReorderIff(j: Json)
    ensures ReorderKeysUtf16(j).None? <==> exists k :: HasKey(j, k) && Utf16Key(k).None?
    ensures ReorderKeysUtf16(j).Some? ==> KeysInOrder(ReorderKeysUtf16(j).value)
    ensures forall k :: Utf16Key(k) == if exists i :: 0 <= i < |k| && 0xD800 <= k[i] <= 0xDFFF then None
                                       else Some(Key16(k))
  {
    KeysCleanIff(j);
    ReorderedInOrder(j);
  }

  // ---- Value lists --------------------------------------------------------

  /** Strings in front of bools, bools in front of integers; false in front of true. */
  ghost predicate ScalarBefore(a: Scalar, b: Scalar) {
    match a
    case Str(t) => b.Str? ==> TextBefore(t, b.text)
    case Bool(x) => b.Int? || (b.Bool? && (x ==> b.b))
    case Int(n) => b.Int? && n <= b.n
    case _ => true
  }

  lemma HeadOrder(a: int, s: seq<int>, b: int, t: seq<int>)
    ensures Leq([a] + s, [b] + t) <==> a < b || (a == b && Leq(s, t))
  {
    assert ([a] + s)[1..] == s && ([b] + t)[1..] == t;
  }

  /** A scalar's rank and what is compared within it. */
  lemma KeyParts(s: Scalar)
    ensures s.Str? ==> ScalarKey(s) == [0] + Key16(s.text)
    ensures s.Bool? ==> ScalarKey(s) == [1] + [if s.b then 1 else 0]
    ensures s.Int? ==> ScalarKey(s) == [2] + [s.n]
  {
  }

  lemma ScalarKeyOrder(a: Scalar, b: Scalar)
    requires MemberOk(a) && MemberOk(b)
    ensures Leq(ScalarKey(a), ScalarKey(b)) <==> ScalarBefore(a, b)
  {
    KeyParts(a);
    KeyParts(b);
    HeadOrder(ScalarKey(a)[0], ScalarKey(a)[1..], ScalarKey(b)[0], ScalarKey(b)[1..]);
    assert ScalarKey(a) == [ScalarKey(a)[0]] + ScalarKey(a)[1..];
    assert ScalarKey(b) == [ScalarKey(b)[0]] + ScalarKey(b)[1..];
    if a.Str? && b.Str? {
      KeyIsTextOrder(a.text, b.text);
    }
    hide Key16, TextBefore, ScalarKey;
  }

  /** The same entries, in order. */
  ghost predicate ArrangedList(raw: seq<Scalar>, list: seq<Scalar>) {
    multiset(raw) == multiset(list) && forall i, k :: 0 <= i < k < |list| ==> ScalarBefore(list[i], list[k])
  }

  lemma SortedList(raw: seq<Scalar>)
    requires MembersOk(raw)
    ensures ArrangedList(raw, SortScalars(raw))
  {
    var list := SortScalars(raw);
    SortMembers(raw, ScalarKey);
    SortSorted(raw, ScalarKey);
    forall i, k | 0 <= i < k < |list| ensures ScalarBefore(list[i], list[k]) {
      assert list[i] in raw && list[k] in raw;
      ScalarKeyOrder(list[i], list[k]);
    }
  }

  ghost predicate ArrangedLists(raw: Option<map<Text, seq<Scalar>>>, lists: Option<map<Text, seq<Scalar>>>) {
    && (raw.Some? <==> lists.Some?) && Entries(raw).Keys == Entries(lists).Keys
    && forall f :: f in Entries(lists) ==> ArrangedList(Entries(raw)[f], Entries(lists)[f])
  }

  lemma ListsArranged(p: Platform, raw: Option<map<Text, seq<Scalar>>>)
    requires NormaliseLists(p, raw).Ok?
    ensures ArrangedLists(raw, NormaliseLists(p, raw).value)
  {
    forall f | f in Entries(raw) ensures ArrangedList(Entries(raw)[f], SortScalars(Entries(raw)[f])) {
      SortedList(Entries(raw)[f]);
    }
    hide SortScalars, ArrangedList;
  }

  // ---- Names and combinations ---------------------------------------------

  ghost predicate ArrangedNames(raw: seq<Text>, names: seq<Text>) {
    multiset(raw) == multiset(names) && forall i, k :: 0 <= i < k < |names| ==> TextBefore(names[i], names[k])
  }

  lemma SortedNamesInOrder(raw: seq<Text>)
    ensures ArrangedNames(raw, SortNames(raw))
  {
    var names := SortNames(raw);
    SortSorted(raw, Key16);
    forall i, k | 0 <= i < k < |names| ensures TextBefore(names[i], names[k]) {
      KeyIsTextOrder(names[i], names[k]);
    }
  }

  /** Name by name, the shorter list in front of its extensions. */
  ghost predicate ComboBefore(a: seq<Text>, b: seq<Text>)
    decreases |a|
  {
    a == [] || (b != [] && if a[0] == b[0] then ComboBefore(a[1..], b[1..]) else TextBefore(a[0], b[0]))
  }

  /** Keys cut off by a zero compare like the pieces in front of it, and then like what follows. */
  lemma {:induction false} ChunkOrder(a: seq<int>, b: seq<int>, s: seq<int>, t: seq<int>)
    requires (forall i :: 0 <= i < |a| ==> 0 <= a[i]) && forall i :: 0 <= i < |b| ==> 0 <= b[i]
    ensures Leq(Shifted(a) + [0] + s, Shifted(b) + [0] + t) <==> if a == b then Leq(s, t) else Leq(a, b)
  {
    var x, y := Shifted(a) + [0] + s, Shifted(b) + [0] + t;
    if a == [] && b == [] {
      assert x[1..] == s && y[1..] == t;
    } else if a != [] && b != [] {
      assert Shifted(a)[1..] == Shifted(a[1..]) && Shifted(b)[1..] == Shifted(b[1..]);
      assert x[1..] == Shifted(a[1..]) + [0] + s && y[1..] == Shifted(b[1..]) + [0] + t;
      ChunkOrder(a[1..], b[1..], s, t);
      assert a == b <==> a[0] == b[0] && a[1..] == b[1..] by {
        assert a == [a[0]] + a[1..] && b == [b[0]] + b[1..];
      }
    }
  }

  lemma {:induction false} ComboKeyOrder(a: seq<Text>, b: seq<Text>)
    requires forall t :: t in a || t in b ==> Clean(t)
    ensures Leq(ComboKey(a), ComboKey(b)) <==> ComboBefore(a, b)
    decreases |a|
  {
    if a != [] && b != [] {
      assert Clean(a[0]) && Clean(b[0]);
      ComboKeyOrder(a[1..], b[1..]);
      KeysNonNegative(CodeUnits(a[0]));
      KeysNonNegative(CodeUnits(b[0]));
      ChunkOrder(Key16(a[0]), Key16(b[0]), ComboKey(a[1..]), ComboKey(b[1..]));
      KeyIsTextOrder(a[0], b[0]);
      if a[0] != b[0] && Key16(a[0]) == Key16(b[0]) {
        Key16Injective(a[0], b[0]);
      }
      hide Key16, Shifted, TextBefore;
      assert ComboKey(a) == Shifted(Key16(a[0])) + [0] + ComboKey(a[1..]);
      assert ComboKey(b) == Shifted(Key16(b[0])) + [0] + ComboKey(b[1..]);
    } else if a != [] {
      assert ComboKey(a) != [];
    }
  }

  ghost predicate CombosInOrder(combos: seq<seq<Text>>) {
    forall i, k :: 0 <= i < k < |combos| ==> ComboBefore(combos[i], combos[k])
  }

  /** `tidy` holds the combinations with the names of each in order. */
  ghost predicate NamesArranged(raw: seq<seq<Text>>, tidy: seq<seq<Text>>) {
    |tidy| == |raw| && forall i :: 0 <= i < |raw| ==> ArrangedNames(raw[i], tidy[i])
  }

  /** Each combination in order, and the combinations too; none is lost or doubled. */
  ghost predicate ArrangedCombos(raw: seq<seq<Text>>, combos: seq<seq<Text>>) {
    CombosInOrder(combos) && exists tidy :: NamesArranged(raw, tidy) && multiset(tidy) == multiset(combos)
  }

  lemma SortedCombosInOrder(raw: seq<seq<Text>>)
    requires forall c :: c in raw ==> ComboOk(c)
    ensures ArrangedCombos(raw, SortCombos(raw))
  {
    var tidy, combos := Absorb.SortedNames(raw), SortCombos(raw);
    forall i | 0 <= i < |raw| ensures ArrangedNames(raw[i], tidy[i]) {
      SortedNamesInOrder(raw[i]);
    }
    SortCombosMembers(raw);
    SortSorted(tidy, ComboKey);
    forall i, k | 0 <= i < k < |combos| ensures ComboBefore(combos[i], combos[k]) {
      TidyClean(raw, combos[i]);
      TidyClean(raw, combos[k]);
      ComboKeyOrder(combos[i], combos[k]);
    }
    hide ComboKey, ComboBefore, SortNames, ArrangedNames, Sort;
    assert NamesArranged(raw, tidy);
  }

  lemma TidyClean(raw: seq<seq<Text>>, c: seq<Text>)
    requires (forall d :: d in raw ==> ComboOk(d)) && c in SortCombos(raw)
    ensures forall t :: t in c ==> Clean(t)
  {
    SortCombosMembers(raw);
    var i :| 0 <= i < |raw| && Absorb.SortedNames(raw)[i] == c;
    SortMembers(raw[i], Key16);
    assert ComboOk(raw[i]);
  }

  /** The canonical form keeps bounds and prefixes, and every list, name and combination, each list in order. */
  lemma CanonicalForm(p: Platform, c: Constraints)
    requires Normalise(p, c).Ok?
    ensures var n := Normalise(p, c).value;
            && n.unknownKinds == {} && n.startsWith == c.startsWith
            && n.maxValue == c.maxValue && n.minValue == c.minValue
            && ArrangedLists(c.forbiddenValues, n.forbiddenValues) && ArrangedLists(c.allowedValues, n.allowedValues)
            && (n.requiredPresent.Some? <==> c.requiredPresent.Some?)
            && ArrangedNames(NameList(c.requiredPresent), NameList(n.requiredPresent))
            && (n.forbiddenCombinations.Some? <==> c.forbiddenCombinations.Some?)
            && ArrangedCombos(ComboList(c.forbiddenCombinations), ComboList(n.forbiddenCombinations))
  {
    NormaliseParts(p, c);
    ListsArranged(p, c.forbiddenValues);
    ListsArranged(p, c.allowedValues);
    SortedNamesInOrder(NameList(c.requiredPresent));
    NothingArranged();
    if c.forbiddenCombinations.Some? {
      SortedCombosInOrder(c.forbiddenCombinations.value);
    }
    hide Normalise, NormaliseLists, ArrangedLists, ArrangedNames, ArrangedCombos, SortNames, SortCombos, ComboOk;
  }

  lemma NothingArranged()
    ensures ArrangedNames([], []) && ArrangedCombos([], [])
  {
    assert NamesArranged([], []);
  }

  // ---- Committed arguments ------------------------------------------------

  ghost predicate FieldsInOrder(args: seq<Arg>) {
    forall i, k :: 0 <= i < k < |args| ==> TextBefore(args[i].field, args[k].field)
  }

  /** The leaves of a commitment are those of the arguments, in the order of their field names. */
  lemma CommittedInOrder(c: Codec, args: seq<Arg>) returns (ordered: seq<Arg>)
    ensures multiset(ordered) == multiset(args) && FieldsInOrder(ordered)
    ensures args != [] ==> ordered != [] && Commitment(c, args) == Root(c.h, NodeLayout, Leaves(c, ordered))
  {
    ordered := Ordered(args);
    SortSorted(args, ArgKey);
    forall i, k | 0 <= i < k < |ordered| ensures TextBefore(ordered[i].field, ordered[k].field) {
      KeyIsTextOrder(ordered[i].field, ordered[k].field);
    }
  }
}
