/**
 The constraint language of a capability token: its canonical form and the gate's
 seven checkers (`raucle/capability.py`).
 */
module Policy {
  import opened Basics
  import opened Order
  import opened Canon
  import opened Texts
  import opened Values

  /**
   A constraint block. Each registered kind is present or absent; `unknownKinds` are
   the keys outside the registry.
   */
  datatype Constraints = Constraints(
    forbiddenValues: Option<map<Text, seq<Scalar>>>,
    allowedValues: Option<map<Text, seq<Scalar>>>,
    startsWith: Option<map<Text, Text>>,
    maxValue: Option<map<Text, int>>,
    minValue: Option<map<Text, int>>,
    requiredPresent: Option<seq<Text>>,
    forbiddenCombinations: Option<seq<seq<Text>>>,
    unknownKinds: set<Text>)

  const NO_CONSTRAINTS := Constraints(None, None, None, None, None, None, None, {})

  /** `BadMember` and `BadFieldName` also stand for a string that cannot be encoded. */
  datatype Refusal = UnknownKind | BadFieldName | BadMember | PrefixNotNarrower

  /**
   What the platform supplies: Unicode NFC, and the percent-decoded path of a URI
   (`None` when the URI does not parse).
   */
  datatype Platform = Platform(nfc: Text -> Text, uriPath: Text -> Option<Text>)

  function Entries<V>(m: Option<map<Text, V>>): map<Text, V> {
    m.GetOr(map[])
  }

  function NameList(s: Option<seq<Text>>): seq<Text> {
    s.GetOr([])
  }

  function ComboList(s: Option<seq<seq<Text>>>): seq<seq<Text>> {
    s.GetOr([])
  }

  // ---- Canonical form -----------------------------------------------------

  /** `value_sort_key`: strings first by UTF-16, then `bool`, then `int`. */
  function ScalarKey(s: Scalar): seq<int> {
    match s
    case Str(t) => [0] + Key16(t)
    case Bool(b) => [1, if b then 1 else 0]
    case Int(n) => [2, n]
    case _ => [3]
  }

  /** The key of a combination, a list of byte strings; each name ends with a 0. */
  function ComboKey(combo: seq<Text>): seq<int> {
    if combo == [] then [] else Shifted(Key16(combo[0])) + [0] + ComboKey(combo[1..])
  }

  function Shifted(key: seq<int>): (r: seq<int>)
    ensures |r| == |key| && forall i :: 0 <= i < |key| ==> r[i] == key[i] + 1
  {
    seq(|key|, i requires 0 <= i < |key| => key[i] + 1)
  }

  /** `_require_json_scalar`, and an encodable string. */
  predicate MemberOk(s: Scalar) {
    (s.Str? && Clean(s.text)) || s.Int? || s.Bool?
  }

  predicate MembersOk(l: seq<Scalar>) {
    forall s :: s in l ==> MemberOk(s)
  }

  /** `_validate_field_keys`: non-empty, and distinct after NFC. */
  predicate FieldKeysOk(p: Platform, keys: set<Text>) {
    && (forall k :: k in keys ==> k != [])
    && (forall k, l :: k in keys && l in keys && p.nfc(k) == p.nfc(l) ==> k == l)
  }

  predicate NameListOk(p: Platform, names: seq<Text>) {
    && (forall k :: k in names ==> k != [] && Clean(k))
    && (forall k, l :: k in names && l in names && p.nfc(k) == p.nfc(l) ==> k == l)
  }

  predicate ComboOk(combo: seq<Text>) {
    forall k :: k in combo ==> k != [] && Clean(k)
  }

  function SortScalars(l: seq<Scalar>): seq<Scalar> {
    Sort(l, ScalarKey)
  }

  function SortNames(l: seq<Text>): seq<Text> {
    Sort(l, Key16)
  }

  function SortCombos(combos: seq<seq<Text>>): seq<seq<Text>> {
    Sort(seq(|combos|, i requires 0 <= i < |combos| => SortNames(combos[i])), ComboKey)
  }

  function NormaliseLists(p: Platform, m: Option<map<Text, seq<Scalar>>>)
    : Result<Option<map<Text, seq<Scalar>>>, Refusal>
  {
    if m.None? then Ok(None)
    else if !FieldKeysOk(p, m.value.Keys) then Err(BadFieldName)
    else if exists f :: f in m.value && !MembersOk(m.value[f]) then Err(BadMember)
    else Ok(Some(map f | f in m.value :: SortScalars(m.value[f])))
  }

  function NormaliseFields<V>(p: Platform, m: Option<map<Text, V>>): Result<Option<map<Text, V>>, Refusal> {
    if m.Some? && !FieldKeysOk(p, m.value.Keys) then Err(BadFieldName) else Ok(m)
  }

  function NormaliseRequired(p: Platform, names: Option<seq<Text>>): Result<Option<seq<Text>>, Refusal> {
    if names.None? then Ok(None)
    else if !NameListOk(p, names.value) then Err(BadFieldName)
    else Ok(Some(SortNames(names.value)))
  }

  function NormaliseCombos(combos: Option<seq<seq<Text>>>): Result<Option<seq<seq<Text>>>, Refusal> {
    if combos.None? then Ok(None)
    else if exists c :: c in combos.value && !ComboOk(c) then Err(BadFieldName)
    else Ok(Some(SortCombos(combos.value)))
  }

  /** `_normalise_constraints`: the canonical form, or the first refusal. */
  function Normalise(p: Platform, c: Constraints): Result<Constraints, Refusal> {
    if c.unknownKinds != {} then Err(UnknownKind)
    else
      var forbidden :- NormaliseLists(p, c.forbiddenValues);
      var allowed :- NormaliseLists(p, c.allowedValues);
      var prefixes :- NormaliseFields(p, c.startsWith);
      var upper :- NormaliseFields(p, c.maxValue);
      var lower :- NormaliseFields(p, c.minValue);
      var required :- NormaliseRequired(p, c.requiredPresent);
      var combos :- NormaliseCombos(c.forbiddenCombinations);
      Ok(Constraints(forbidden, allowed, prefixes, upper, lower, required, combos, {}))
  }

  // ---- file:// canonicalisation -------------------------------------------

  const SLASH: CodePoint := 0x2F
  const FILE_SCHEME: Text := Ascii("file://")
  const DOT: Text := Ascii(".")
  const DOTDOT: Text := Ascii("..")

  predicate HasPrefix(t: Text, prefix: Text) {
    prefix <= t
  }

  /** The dot-segment loop: drop ".", and let ".." pop unless only the root is left. */
  function ResolveDots(segments: seq<Text>, done: seq<Text>): seq<Text> {
    if segments == [] then done
    else
      var seg := segments[0];
      var next := if seg == DOT then done
                  else if seg == DOTDOT then (if |done| > 1 then done[..|done| - 1] else done)
                  else done + [seg];
      ResolveDots(segments[1..], next)
  }

  /** Every run of slashes reduced to one slash. */
  function Collapse(t: Text): Text {
    if |t| >= 2 && t[0] == SLASH && t[1] == SLASH then Collapse(t[1..])
    else if t == [] then []
    else [t[0]] + Collapse(t[1..])
  }

  /** `_canonical_file_uri`: `None` for a string that is not a file URI. */
  function CanonicalFileUri(p: Platform, value: Text): Option<Text> {
    if !HasPrefix(value, FILE_SCHEME) then None
    else
      match p.uriPath(value)
      case None => Some([])
      case Some(path) => Some(FILE_SCHEME + Collapse(Join(ResolveDots(Split(path, SLASH), []), SLASH)))
  }

  // ---- The checkers -------------------------------------------------------

  /** `forbidden_values` on one argument: no scalar inside it is listed. */
  predicate ForbidsNone(bads: seq<Scalar>, v: Value) {
    forall s :: s in Flatten(v) ==> !In(s, bads)
  }

  /** `allowed_values` on one argument: it holds a scalar and every one is listed. */
  predicate AllowsAll(oks: seq<Scalar>, v: Value) {
    Flatten(v) != [] && forall s :: s in Flatten(v) ==> In(s, oks)
  }

  predicate StartsWith(p: Platform, prefix: Text, value: Text) {
    var canonPrefix, canonValue := CanonicalFileUri(p, prefix), CanonicalFileUri(p, value);
    if canonPrefix.Some? && canonValue.Some? then HasPrefix(canonValue.value, canonPrefix.value)
    else HasPrefix(value, prefix)
  }

  predicate PrefixMatches(p: Platform, prefix: Text, v: Value) {
    v.Leaf? && v.scalar.Str? && StartsWith(p, prefix, v.scalar.text)
  }

  predicate AtMost(bound: int, v: Value) {
    Flatten(v) != [] &&
    forall s :: s in Flatten(v) ==> IsNumber(s) && Number(s).value <= bound as real
  }

  predicate AtLeast(bound: int, v: Value) {
    Flatten(v) != [] &&
    forall s :: s in Flatten(v) ==> IsNumber(s) && bound as real <= Number(s).value
  }

  predicate ForbiddenOk(m: map<Text, seq<Scalar>>, args: Args) {
    forall f :: f in m && f in args ==> ForbidsNone(m[f], args[f])
  }

  predicate AllowedOk(m: map<Text, seq<Scalar>>, args: Args) {
    forall f :: f in m ==> f in args && AllowsAll(m[f], args[f])
  }

  predicate PrefixesOk(p: Platform, m: map<Text, Text>, args: Args) {
    forall f :: f in m ==> f in args && PrefixMatches(p, m[f], args[f])
  }

  predicate MaxOk(m: map<Text, int>, args: Args) {
    forall f :: f in m ==> f in args && AtMost(m[f], args[f])
  }

  predicate MinOk(m: map<Text, int>, args: Args) {
    forall f :: f in m ==> f in args && AtLeast(m[f], args[f])
  }

  predicate RequiredOk(names: seq<Text>, args: Args) {
    forall f :: f in names ==> f in args
  }

  predicate CombosOk(combos: seq<seq<Text>>, args: Args) {
    forall c :: c in combos ==> exists f :: f in c && f !in args
  }

  datatype Kind =
    | Unmodelled | ForbiddenValues | AllowedValues | StartsWithKind | MaxValue | MinValue
    | RequiredPresent | ForbiddenCombinations

  /** `_check_constraints`: the first violated kind in the gate's order, or `None`. */
  function CheckConstraints(p: Platform, c: Constraints, args: Args): Option<Kind> {
    if c.unknownKinds != {} then Some(Unmodelled)
    else if !ForbiddenOk(Entries(c.forbiddenValues), args) then Some(ForbiddenValues)
    else if !AllowedOk(Entries(c.allowedValues), args) then Some(AllowedValues)
    else if !PrefixesOk(p, Entries(c.startsWith), args) then Some(StartsWithKind)
    else if !MaxOk(Entries(c.maxValue), args) then Some(MaxValue)
    else if !MinOk(Entries(c.minValue), args) then Some(MinValue)
    else if !RequiredOk(NameList(c.requiredPresent), args) then Some(RequiredPresent)
    else if !CombosOk(ComboList(c.forbiddenCombinations), args) then Some(ForbiddenCombinations)
    else None
  }

  /** The constraint block admits the call. */
  predicate Accepts(p: Platform, c: Constraints, args: Args) {
    CheckConstraints(p, c, args) == None
  }
}
