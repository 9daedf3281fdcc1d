/**
 The verifier's three-valued re-check of disclosed fields (`recheck_constraints` in
 `raucle/conformance.py`), and where it agrees with the gate's own checkers.
 */
module Recheck {
  import opened Basics
  import opened Canon
  import opened Values
  import opened Policy

  datatype Verdict = Satisfied | Violated | Unknown

  /** One field under one constraint; `Raises` is a comparison Python refuses. */
  datatype Tri = Pass | Fail | Hidden | Raises

  /** A `starts_with` entry is iterated: a list yields prefixes, a string yields its characters. */
  datatype Prefixes = ListOf(prefixes: seq<Text>) | OneString(text: Text)

  /** The constraint object of a receipt; an absent kind is `None`. */
  datatype Spec = Spec(
    allowedValues: Option<map<Text, seq<Scalar>>>, forbiddenValues: Option<map<Text, seq<Scalar>>>,
    maxValue: Option<map<Text, int>>, minValue: Option<map<Text, int>>, startsWith: Option<map<Text, Prefixes>>,
    requiredPresent: Option<seq<Text>>, forbiddenCombinations: Option<seq<seq<Text>>>)

  // ---- The evaluators -----------------------------------------------------

  /** `value in allowed`: a nested value never equals a scalar member. */
  predicate ValueIn(v: Value, members: seq<Scalar>) {
    v.Leaf? && In(v.scalar, members)
  }

  /** `value <= bound` and `value >= bound`; text, `None` and containers cannot be compared. */
  function AtMostBound(v: Value, bound: int): Tri {
    if v.Leaf? && Number(v.scalar).Some? then (if Number(v.scalar).value <= bound as real then Pass else Fail)
    else if v.Leaf? && v.scalar.Infinity? then (if v.scalar.negative then Pass else Fail)
    else if v.Leaf? && v.scalar.NaN? then Fail
    else Raises
  }

  function AtLeastBound(v: Value, bound: int): Tri {
    if v.Leaf? && Number(v.scalar).Some? then (if bound as real <= Number(v.scalar).value then Pass else Fail)
    else if v.Leaf? && v.scalar.Infinity? then (if v.scalar.negative then Fail else Pass)
    else if v.Leaf? && v.scalar.NaN? then Fail
    else Raises
  }

  predicate SomePrefix(value: Text, prefixes: Prefixes) {
    match prefixes
    case ListOf(list) => exists p :: p in list && HasPrefix(value, p)
    case OneString(text) => value != [] && value[0] in text
  }

  function Decide(ok: bool): Tri {
    if ok then Pass else Fail
  }

  /** The evaluator table, applied to one field that was disclosed. */
  function AllowedTri(v: Value, members: seq<Scalar>): Tri {
    Decide(ValueIn(v, members))
  }

  function ForbiddenTri(v: Value, members: seq<Scalar>): Tri {
    Decide(!ValueIn(v, members))
  }

  function PrefixTri(v: Value, prefixes: Prefixes): Tri {
    Decide(v.Leaf? && v.scalar.Str? && SomePrefix(v.scalar.text, prefixes))
  }

  // ---- The folds ----------------------------------------------------------

  function FieldTri<C>(m: map<Text, C>, d: Args, tri: (Value, C) -> Tri, f: Text): Tri
    requires f in m
  {
    if f in d then tri(d[f], m[f]) else Hidden
  }

  predicate AnyField<C>(m: map<Text, C>, d: Args, tri: (Value, C) -> Tri, t: Tri) {
    exists f :: f in m && FieldTri(m, d, tri, f) == t
  }

  /** One evaluated kind; `Err` is the exception a comparison raises. */
  function KindVerdict<C>(m: Option<map<Text, C>>, d: Args, tri: (Value, C) -> Tri): Result<Option<Verdict>, ()> {
    if m.None? then Ok(None)
    else if AnyField(m.value, d, tri, Raises) then Err(())
    else if AnyField(m.value, d, tri, Fail) then Ok(Some(Violated))
    else if AnyField(m.value, d, tri, Hidden) then Ok(Some(Unknown))
    else Ok(Some(Satisfied))
  }

  predicate AllDisclosed(fields: seq<Text>, d: Args) {
    forall f :: f in fields ==> f in d
  }

  function RequiredVerdict(required: Option<seq<Text>>, d: Args): Option<Verdict> {
    if NameList(required) == [] then None
    else if AllDisclosed(required.value, d) then Some(Satisfied)
    else Some(Unknown)
  }

  /** Python's truth value. */
  predicate Truthy(v: Value) {
    match v
    case Leaf(Str(t)) => t != []
    case Leaf(Int(n)) => n != 0
    case Leaf(Bool(b)) => b
    case Leaf(Float(r)) => r != 0.0
    case Leaf(Infinity(_)) => true
    case Leaf(NaN) => true
    case Leaf(Null) => false
    case Items(items) => items != []
    case Fields(fields) => fields != []
  }

  function ComboVerdict(combo: seq<Text>, d: Args): Verdict {
    if !AllDisclosed(combo, d) then Unknown
    else if forall f :: f in combo ==> Truthy(d[f]) then Violated
    else Satisfied
  }

  predicate AnyCombo(combos: seq<seq<Text>>, d: Args, v: Verdict) {
    exists c :: c in combos && ComboVerdict(c, d) == v
  }

  function CombosVerdict(combos: Option<seq<seq<Text>>>, d: Args): Option<Verdict> {
    if ComboList(combos) == [] then None
    else if AnyCombo(combos.value, d, Violated) then Some(Violated)
    else if AnyCombo(combos.value, d, Unknown) then Some(Unknown)
    else Some(Satisfied)
  }

  datatype Verdicts = Verdicts(
    allowedValues: Option<Verdict>, forbiddenValues: Option<Verdict>, maxValue: Option<Verdict>,
    minValue: Option<Verdict>, startsWith: Option<Verdict>, requiredPresent: Option<Verdict>,
    forbiddenCombinations: Option<Verdict>)

  /** `recheck_constraints`; `Err` is the exception of an impossible comparison. */
  function Recheck(s: Spec, d: Args): Result<Verdicts, ()> {
    var allowed :- KindVerdict(s.allowedValues, d, AllowedTri);
    var forbidden :- KindVerdict(s.forbiddenValues, d, ForbiddenTri);
    var upper :- KindVerdict(s.maxValue, d, AtMostBound);
    var lower :- KindVerdict(s.minValue, d, AtLeastBound);
    var prefixes :- KindVerdict(s.startsWith, d, PrefixTri);
    Ok(Verdicts(allowed, forbidden, upper, lower, prefixes, RequiredVerdict(s.requiredPresent, d),
                CombosVerdict(s.forbiddenCombinations, d)))
  }

  // ---- Disclosing more only settles verdicts ------------------------------

  /** `d` discloses part of `more`. */
  predicate PartOf(d: Args, more: Args) {
    forall f :: f in d ==> f in more && more[f] == d[f]
  }

  /** A kind is settled the same way, or was unknown. */
  predicate Refines(a: Option<Verdict>, b: Option<Verdict>) {
    a == b || (a == Some(Unknown) && b.Some?)
  }

  predicate AllRefine(a: Verdicts, b: Verdicts) {
    && Refines(a.allowedValues, b.allowedValues) && Refines(a.forbiddenValues, b.forbiddenValues)
    && Refines(a.maxValue, b.maxValue) && Refines(a.minValue, b.minValue) && Refines(a.startsWith, b.startsWith)
    && Refines(a.requiredPresent, b.requiredPresent) && Refines(a.forbiddenCombinations, b.forbiddenCombinations)
  }

  lemma KindRefines<C>(m: Option<map<Text, C>>, d: Args, more: Args, tri: (Value, C) -> Tri)
    requires PartOf(d, more) && KindVerdict(m, more, tri).Ok?
    requires forall v, c :: tri(v, c) != Hidden
    ensures KindVerdict(m, d, tri).Ok? && Refines(KindVerdict(m, d, tri).value, KindVerdict(m, more, tri).value)
  {
  }

  lemma CombosRefine(combos: Option<seq<seq<Text>>>, d: Args, more: Args)
    requires PartOf(d, more)
    ensures Refines(CombosVerdict(combos, d), CombosVerdict(combos, more))
  {
  }

  /**
   A verdict reached on some disclosed fields stands however many more are disclosed,
   up to all the arguments of the call: only UNKNOWN can change.
   */
  lemma MoreDisclosureOnlySettles(s: Spec, d: Args, more: Args)
    requires PartOf(d, more) && Recheck(s, more).Ok?
    ensures Recheck(s, d).Ok? && AllRefine(Recheck(s, d).value, Recheck(s, more).value)
  {
    hide KindVerdict, CombosVerdict;
    KindRefines(s.allowedValues, d, more, AllowedTri);
    KindRefines(s.forbiddenValues, d, more, ForbiddenTri);
    KindRefines(s.maxValue, d, more, AtMostBound);
    KindRefines(s.minValue, d, more, AtLeastBound);
    KindRefines(s.startsWith, d, more, PrefixTri);
    CombosRefine(s.forbiddenCombinations, d, more);
  }

  // ---- The gate and the re-check ------------------------------------------

  /** Some constraint list could name a scalar of this value. */
  ghost predicate Nameable(s: Scalar) {
    exists m :: MemberOk(m) && PyEq(s, m)
  }

  /**
   For which arguments the re-check's reading of `forbidden_values` is the gate's: those
   that are not containers holding a scalar a list could name. The gate looks inside.
   */
  lemma ForbiddenAgreesIff(v: Value)
    ensures (forall bads :: MembersOk(bads) ==> (ForbiddenTri(v, bads) == Pass <==> ForbidsNone(bads, v)))
            <==> v.Leaf? || forall s :: s in Flatten(v) ==> !Nameable(s)
  {
    if v.Leaf? {
      assert Flatten(v) == [v.scalar];
    } else if forall s :: s in Flatten(v) ==> !Nameable(s) {
      forall bads | MembersOk(bads)
        ensures ForbidsNone(bads, v)
      {
        forall s | s in Flatten(v)
          ensures !In(s, bads)
        {
          assert !Nameable(s);
        }
      }
    } else {
      var s :| s in Flatten(v) && Nameable(s);
      var m :| MemberOk(m) && PyEq(s, m);
      var bads := [m];
      assert m in bads && MembersOk(bads);
      assert In(s, bads) && ForbiddenTri(v, bads) == Pass && !ForbidsNone(bads, v);
    }
  }

  /** For `allowed_values`: leaves, and containers the gate would refuse whatever the list. */
  lemma AllowedAgreesIff(v: Value)
    ensures (forall oks :: MembersOk(oks) ==> (AllowedTri(v, oks) == Pass <==> AllowsAll(oks, v)))
            <==> v.Leaf? || Flatten(v) == [] || exists s :: s in Flatten(v) && !Nameable(s)
  {
    if v.Leaf? {
      assert Flatten(v) == [v.scalar];
    } else if Flatten(v) == [] || exists s :: s in Flatten(v) && !Nameable(s) {
      forall oks | MembersOk(oks)
        ensures !AllowsAll(oks, v)
      {
        if Flatten(v) != [] {
          var s :| s in Flatten(v) && !Nameable(s);
          assert !In(s, oks);
        }
      }
    } else {
      var oks := Members(Flatten(v));
      assert AllowsAll(oks, v) && AllowedTri(v, oks) == Fail;
    }
  }

  /** A list that names every scalar of a list of nameable ones. */
  ghost function Members(l: seq<Scalar>): (r: seq<Scalar>)
    requires forall s :: s in l ==> Nameable(s)
    ensures MembersOk(r) && forall s :: s in l ==> In(s, r)
  {
    if l == [] then []
    else
      assert Nameable(l[0]);
      var m :| MemberOk(m) && PyEq(l[0], m);
      var rest := Members(l[1..]);
      var r := [m] + rest;
      assert m in r && forall x :: x in rest ==> x in r;
      assert forall s :: s in l ==> s == l[0] || s in l[1..];
      r
  }

  /** Numeric bounds: the two agree for exactly the numbers. The gate refuses bools, and never raises. */
  lemma BoundsAgreeIff(v: Value)
    ensures (forall bound: int ::
               AtMostBound(v, bound) == Decide(AtMost(bound, v)) && AtLeastBound(v, bound) == Decide(AtLeast(bound, v)))
            <==> v.Leaf? && (IsNumber(v.scalar) || v.scalar.NaN?)
  {
    if v.Leaf? {
      assert Flatten(v) == [v.scalar];
      if v.scalar.Bool? {
        assert AtMostBound(v, 1) == Pass && !AtMost(1, v);
      } else if v.scalar.Infinity? {
        assert AtMostBound(v, 0) == Pass || AtLeastBound(v, 0) == Pass;
      } else if v.scalar.Str? || v.scalar.Null? {
        assert AtMostBound(v, 0) == Raises;
      }
    } else {
      assert AtMostBound(v, 0) == Raises;
    }
  }

  /**
   A prefix given as one string is read by its characters: the re-check accepts whatever
   starts with any of them. That is the gate's reading exactly for prefixes of one character.
   */
  lemma OneStringAgreesIff(p: Platform, prefix: Text)
    ensures (forall v :: PrefixTri(v, OneString(prefix)) == Pass <==> PrefixMatches(p, prefix, v)) <==> |prefix| == 1
  {
    if |prefix| != 1 {
      var start: Text := if prefix == [] then [] else [prefix[0]];
      var v := Leaf(Str(start));
      assert PrefixTri(v, OneString(prefix)) == Pass <==> prefix != [];
      assert PrefixMatches(p, prefix, v) <==> prefix == [];
    } else {
      forall v: Value
        ensures PrefixTri(v, OneString(prefix)) == Pass <==> PrefixMatches(p, prefix, v)
      {
        if v.Leaf? && v.scalar.Str? {
          assert HasPrefix(v.scalar.text, prefix) <==> v.scalar.text != [] && v.scalar.text[0] == prefix[0];
        }
      }
    }
  }

  /** For prefixes that are neither empty nor file URIs it is only ever weaker. */
  lemma OneStringIsWeaker(p: Platform, prefix: Text, v: Value)
    requires prefix != [] && PrefixMatches(p, prefix, v) && !HasPrefix(prefix, FILE_SCHEME)
    ensures PrefixTri(v, OneString(prefix)) == Pass
  {
  }

  /** A combination: the gate refuses presence, the re-check truth. They agree unless some present field is falsy. */
  lemma CombinationAgreesIff(combo: seq<Text>, args: Args)
    ensures (ComboVerdict(combo, args) == Violated <==> !CombosOk([combo], args))
            <==> !AllDisclosed(combo, args) || forall f :: f in combo ==> Truthy(args[f])
  {
    assert CombosOk([combo], args) <==> exists f :: f in combo && f !in args by {
      assert combo in [combo];
    }
  }
}
