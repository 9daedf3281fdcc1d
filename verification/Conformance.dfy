/** Field commitments with selective disclosure (`raucle/conformance.py`). */
module Conformance {
  import opened Basics
  import opened Order
  import opened Canon
  import opened Merkle

  /** SHA-256, UTF-8 and canonical JSON. */
  datatype Codec = Codec(h: Hash, utf8: Text -> Bytes, json: Json -> Bytes)

  /** Digests have 32 bytes, UTF-8 is injective, and canonical JSON escapes NUL. */
  ghost predicate CodecOk(c: Codec) {
    && Is256Bit(c.h)
    && (forall s, t :: Clean(s) && Clean(t) && c.utf8(s) == c.utf8(t) ==> s == t)
    && (forall v :: 0 !in c.json(v))
  }

  const DOMAIN: Bytes := [0x72, 0x61, 0x75, 0x63, 0x6C, 0x65, 0x2F, 0x64, 0x31, 0x00]
  const LEAF: Bytes := [0x6C, 0x00]
  const NODE: Bytes := [0x6E, 0x00]
  const EMPTY: Bytes := [0x65, 0x6D, 0x70, 0x74, 0x79]

  /** One call argument. Arguments are in insertion order. */
  datatype Arg = Arg(field: Text, value: Json)

  ghost predicate ArgsOk(args: seq<Arg>) {
    && (forall i, j :: 0 <= i < j < |args| ==> args[i].field != args[j].field)
    && FieldsClean(args)
  }

  /** A field name with a lone surrogate makes the sort key raise. */
  predicate FieldsClean(args: seq<Arg>) {
    forall i :: 0 <= i < |args| ==> Clean(args[i].field)
  }

  predicate HasField(args: seq<Arg>, field: Text) {
    exists i :: 0 <= i < |args| && args[i].field == field
  }

  function ArgKey(a: Arg): seq<int> {
    Key16(a.field)
  }

  /** `sorted(args, key=_utf16_key)`. */
  function Ordered(args: seq<Arg>): seq<Arg> {
    Sort(args, ArgKey)
  }

  function LeafInput(c: Codec, field: Text, value: Json): Bytes {
    DOMAIN + LEAF + (c.utf8(field) + [0] + c.json(value))
  }

  function LeafDigest(c: Codec, field: Text, value: Json): Bytes {
    c.h(LeafInput(c, field, value))
  }

  function NodeLayout(left: Bytes, right: Bytes): Bytes {
    DOMAIN + NODE + (left + [0] + right)
  }

  const EMPTY_INPUT: Bytes := DOMAIN + EMPTY

  function Leaves(c: Codec, ordered: seq<Arg>): (r: seq<Bytes>)
    ensures |r| == |ordered|
    ensures forall i :: 0 <= i < |r| ==> r[i] == LeafDigest(c, ordered[i].field, ordered[i].value)
  {
    seq(|ordered|, i requires 0 <= i < |ordered| => LeafDigest(c, ordered[i].field, ordered[i].value))
  }

  /** The committed root. */
  function Commitment(c: Codec, args: seq<Arg>): Bytes {
    if args == [] then c.h(EMPTY_INPUT) else Root(c.h, NodeLayout, Leaves(c, Ordered(args)))
  }

  /** A digest string: the `sha256:` prefix and hex, or anything else. */
  datatype DigestText = Sha256(digest: Bytes) | BadText

  /** `commit_args`; `None` is the encoding error. */
  method CommitArgs(c: Codec, args: seq<Arg>) returns (root: Option<DigestText>)
    ensures root == if FieldsClean(args) then Some(Sha256(Commitment(c, args))) else None
  {
    if args == [] {
      return Some(Sha256(c.h(EMPTY_INPUT)));
    }
    if !FieldsClean(args) {
      return None;
    }
    var level := Leaves(c, Ordered(args));
    var digest := RootLoop(c.h, NodeLayout, level);
    return Some(Sha256(digest));
  }

  lemma ArgKeyInjectiveOn(args: seq<Arg>)
    requires ArgsOk(args)
    ensures InjectiveOn(ArgKey, args) && NoDup(args)
  {
    forall x, y | x in args && y in args && ArgKey(x) == ArgKey(y)
      ensures x == y
    {
      Key16Injective(x.field, y.field);
    }
  }

  lemma OrderedOk(args: seq<Arg>)
    requires ArgsOk(args)
    ensures ArgsOk(Ordered(args)) && SameElements(Ordered(args), args) && |Ordered(args)| == |args|
  {
    var o := Ordered(args);
    ArgKeyInjectiveOn(args);
    SortMembers(args, ArgKey);
    SortNoDup(args, ArgKey);
    forall i | 0 <= i < |o|
      ensures Clean(o[i].field)
    {
      assert o[i] in args;
    }
    forall i, j | 0 <= i < j < |o|
      ensures o[i].field != o[j].field
    {
      assert o[i] in args && o[j] in args && ArgKey(o[i]) == Key16(o[i].field);
    }
  }

  /** The commitment does not depend on the order the arguments were written in. */
  lemma CommitmentIgnoresOrder(c: Codec, a: seq<Arg>, b: seq<Arg>)
    requires ArgsOk(a) && ArgsOk(b) && SameElements(a, b)
    ensures Commitment(c, a) == Commitment(c, b)
  {
    ArgKeyInjectiveOn(a);
    ArgKeyInjectiveOn(b);
    SortSameElements(a, b, ArgKey);
    assert a != [] ==> a[0] in b;
    assert b != [] ==> b[0] in a;
  }

  // ---- Disclosure ---------------------------------------------------------

  function FieldIndex(args: seq<Arg>, field: Text): nat
    requires HasField(args, field)
    ensures FieldIndex(args, field) < |args| && args[FieldIndex(args, field)].field == field
  {
    if args[0].field == field then 0
    else
      assert HasField(args[1..], field) by {
        var i :| 0 <= i < |args| && args[i].field == field;
        assert args[1..][i - 1].field == field;
      }
      1 + FieldIndex(args[1..], field)
  }

  function ValueOf(args: seq<Arg>, field: Text): Json
    requires HasField(args, field)
  {
    args[FieldIndex(args, field)].value
  }

  datatype PathEntry = PathEntry(isRight: bool, sibling: DigestText)

  function Texts(path: seq<Step>): (r: seq<PathEntry>)
    ensures |r| == |path|
    ensures forall i :: 0 <= i < |r| ==> r[i] == PathEntry(path[i].isRight, Sha256(path[i].sibling))
  {
    seq(|path|, i requires 0 <= i < |path| => PathEntry(path[i].isRight, Sha256(path[i].sibling)))
  }

  lemma SortKeepsField(args: seq<Arg>, field: Text)
    ensures HasField(Ordered(args), field) <==> HasField(args, field)
  {
    SortMembers(args, ArgKey);
    var o := Ordered(args);
    assert forall i :: 0 <= i < |o| ==> o[i] in args;
    assert forall i :: 0 <= i < |args| ==> args[i] in o;
  }

  /** The sibling path of a field's leaf. */
  function FieldPath(c: Codec, args: seq<Arg>, field: Text): seq<Step>
    requires HasField(args, field)
  {
    SortKeepsField(args, field);
    PathTo(c.h, NodeLayout, Leaves(c, Ordered(args)), FieldIndex(Ordered(args), field))
  }

  /** The sibling recorded at one level. */
  method SiblingStep(level: seq<Bytes>, index: nat) returns (step: Step)
    requires index < |level|
    ensures step == StepAt(level, index)
  {
    if index % 2 == 0 {
      return Step(false, if index + 1 < |level| then level[index + 1] else level[index]);
    } else {
      return Step(true, level[index - 1]);
    }
  }

  lemma PathUnfolds(h: Hash, level: seq<Bytes>, index: nat, steps: seq<Step>)
    requires index < |level| && |level| > 1
    ensures index / 2 < |FoldLevel(h, NodeLayout, level)| < |level|
    ensures steps + PathTo(h, NodeLayout, level, index)
            == steps + [StepAt(level, index)] + PathTo(h, NodeLayout, FoldLevel(h, NodeLayout, level), index / 2)
  {
    var rest := PathTo(h, NodeLayout, FoldLevel(h, NodeLayout, level), index / 2);
    assert steps + ([StepAt(level, index)] + rest) == steps + [StepAt(level, index)] + rest;
  }

  /** A string UTF-16 and UTF-8 cannot encode. */
  datatype EncodingError = LoneSurrogate

  /** `disclosure_path`: the loop climbs the tree, recording one sibling per level. */
  method DisclosurePath(c: Codec, args: seq<Arg>, field: Text)
    returns (path: Result<Option<seq<PathEntry>>, EncodingError>)
    ensures path == if !HasField(args, field) then Ok(None)
                    else if FieldsClean(args) then Ok(Some(Texts(FieldPath(c, args, field))))
                    else Err(LoneSurrogate)
  {
    if !HasField(args, field) {
      return Ok(None);
    }
    if !FieldsClean(args) {
      return Err(LoneSurrogate);
    }
    SortKeepsField(args, field);
    var order := Ordered(args);
    var index: nat := FieldIndex(order, field);
    var level := Leaves(c, order);
    var steps: seq<Step> := [];
    ghost var whole := FieldPath(c, args, field);
    assert [] + whole == whole;
    while |level| > 1
      invariant index < |level|
      invariant whole == steps + PathTo(c.h, NodeLayout, level, index)
      decreases |level|
    {
      var step := SiblingStep(level, index);
      var up := FoldLevelLoop(c.h, NodeLayout, level);
      PathUnfolds(c.h, level, index, steps);
      steps := steps + [step];
      level := up;
      index := index / 2;
    }
    assert steps + [] == steps;
    return Ok(Some(Texts(steps)));
  }

  /** One disclosed field as it arrives: an object with a value and a path, or something else. */
  datatype Disclosed = Disclosed(value: Json, path: Option<seq<PathEntry>>) | MalformedEntry

  type Disclosure = map<Text, Disclosed>

  function HonestEntry(c: Codec, args: seq<Arg>, field: Text): Disclosed
    requires HasField(args, field)
  {
    Disclosed(ValueOf(args, field), Some(Texts(FieldPath(c, args, field))))
  }

  /** `disclose_args`: absent fields are skipped; a present one needs every name encoded. */
  method DiscloseArgs(c: Codec, args: seq<Arg>, fields: seq<Text>) returns (d: Result<Disclosure, EncodingError>)
    ensures d.Ok? <==> FieldsClean(args) || forall f :: f in fields ==> !HasField(args, f)
    ensures d.Ok? ==> forall f :: f in d.value <==> f in fields && HasField(args, f)
    ensures d.Ok? ==> forall f :: f in d.value ==> d.value[f] == HonestEntry(c, args, f)
  {
    var out: Disclosure := map[];
    for i := 0 to |fields|
      invariant FieldsClean(args) || forall f :: f in fields[..i] ==> !HasField(args, f)
      invariant forall f :: f in out <==> f in fields[..i] && HasField(args, f)
      invariant forall f :: f in out ==> out[f] == HonestEntry(c, args, f)
    {
      assert fields[..i + 1] == fields[..i] + [fields[i]];
      if HasField(args, fields[i]) {
        var path := DisclosurePath(c, args, fields[i]);
        if path.Err? {
          assert fields[i] in fields;
          return Err(path.error);
        }
        out := out[fields[i] := Disclosed(ValueOf(args, fields[i]), path.value)];
      }
    }
    assert fields[..|fields|] == fields;
    return Ok(out);
  }

  // ---- Verification -------------------------------------------------------

  predicate PathWellFormed(path: seq<PathEntry>) {
    forall i :: 0 <= i < |path| ==> path[i].sibling.Sha256? && |path[i].sibling.digest| == 32
  }

  function Steps(path: seq<PathEntry>): (r: seq<Step>)
    requires PathWellFormed(path)
    ensures |r| == |path|
    ensures forall i :: 0 <= i < |r| ==> r[i] == Step(path[i].isRight, path[i].sibling.digest)
  {
    seq(|path|, i requires 0 <= i < |path| => Step(path[i].isRight, path[i].sibling.digest))
  }

  /** The entry's leaf can be encoded and walks to the expected root. */
  predicate EntryOk(c: Codec, root: Bytes, field: Text, e: Disclosed) {
    && Clean(field)
    && e.Disclosed? && e.path.Some? && PathWellFormed(e.path.value)
    && Walk(c.h, NodeLayout, LeafDigest(c, field, e.value), Steps(e.path.value)) == root
  }

  /** `_assert_leaf_reaches_root`. */
  method LeafReachesRoot(c: Codec, field: Text, value: Json, path: seq<PathEntry>, root: Bytes) returns (ok: bool)
    ensures ok <==> EntryOk(c, root, field, Disclosed(value, Some(path)))
  {
    if !Clean(field) {
      return false;
    }
    var digest := LeafDigest(c, field, value);
    for i := 0 to |path|
      invariant PathWellFormed(path[..i])
      invariant digest == Walk(c.h, NodeLayout, LeafDigest(c, field, value), Steps(path[..i]))
    {
      match path[i].sibling {
        case BadText =>
          return false;
        case Sha256(sibling) =>
          if |sibling| != 32 {
            return false;
          }
          assert path[..i + 1] == path[..i] + [path[i]];
          assert Steps(path[..i + 1])[..i] == Steps(path[..i]);
          digest := if path[i].isRight then c.h(NodeLayout(sibling, digest)) else c.h(NodeLayout(digest, sibling));
      }
    }
    assert path[..|path|] == path;
    return digest == root;
  }

  /** `verify_disclosure`: every entry must verify; `None` is the raised error. */
  method VerifyDisclosure(c: Codec, root: DigestText, d: Disclosure) returns (verified: Option<map<Text, Json>>)
    ensures verified.Some? <==> root.Sha256? && forall f :: f in d ==> EntryOk(c, root.digest, f, d[f])
    ensures verified.Some? ==> verified.value.Keys == d.Keys && forall f :: f in d ==> verified.value[f] == d[f].value
  {
    if root.BadText? {
      return None;
    }
    var out: map<Text, Json> := map[];
    var todo := d.Keys;
    while todo != {}
      invariant todo <= d.Keys
      invariant out.Keys == d.Keys - todo
      invariant forall f :: f in out ==> EntryOk(c, root.digest, f, d[f]) && out[f] == d[f].value
      decreases todo
    {
      var f :| f in todo;
      if d[f].MalformedEntry? || d[f].path.None? {
        return None;
      }
      var ok := LeafReachesRoot(c, f, d[f].value, d[f].path.value, root.digest);
      if !ok {
        return None;
      }
      out := out[f := d[f].value];
      todo := todo - {f};
    }
    return Some(out);
  }

  // ---- Completeness -------------------------------------------------------

  lemma OrderedHasField(args: seq<Arg>, field: Text)
    requires ArgsOk(args) && HasField(args, field)
    ensures HasField(Ordered(args), field)
    ensures ValueOf(Ordered(args), field) == ValueOf(args, field)
  {
    OrderedOk(args);
    var a := args[FieldIndex(args, field)];
    assert a in Ordered(args);
    var i :| 0 <= i < |Ordered(args)| && Ordered(args)[i] == a;
    assert i == FieldIndex(Ordered(args), field);
  }

  lemma HonestEntryOk(c: Codec, args: seq<Arg>, field: Text)
    requires Is256Bit(c.h) && ArgsOk(args) && HasField(args, field)
    ensures EntryOk(c, Commitment(c, args), field, HonestEntry(c, args, field))
  {
    OrderedHasField(args, field);
    OrderedOk(args);
    var order := Ordered(args);
    var leaves, index := Leaves(c, order), FieldIndex(order, field);
    PathReachesRoot(c.h, NodeLayout, leaves, index);
    PathIsDigests(c.h, NodeLayout, leaves, index);
    var path := PathTo(c.h, NodeLayout, leaves, index);
    assert Steps(Texts(path)) == path;
  }

  /** Commit, disclose, verify: every honest package verifies to exactly the requested fields. */
  method CommitDiscloseVerify(c: Codec, args: seq<Arg>, fields: seq<Text>)
    returns (root: DigestText, verified: Option<map<Text, Json>>)
    requires Is256Bit(c.h) && ArgsOk(args)
    ensures root == Sha256(Commitment(c, args))
    ensures verified.Some?
    ensures forall f :: f in verified.value <==> f in fields && HasField(args, f)
    ensures forall f :: f in verified.value ==> verified.value[f] == ValueOf(args, f)
  {
    var committed := CommitArgs(c, args);
    root := committed.value;
    var d := DiscloseArgs(c, args, fields);
    forall f | f in d.value
      ensures EntryOk(c, root.digest, f, d.value[f])
    {
      HonestEntryOk(c, args, f);
    }
    verified := VerifyDisclosure(c, root, d.value);
  }

  // ---- Soundness ----------------------------------------------------------

  /** Level `k` of the tree over the leaves. */
  ghost function Level(c: Codec, leaves: seq<Bytes>, k: nat): seq<Bytes> {
    if k == 0 then leaves else FoldLevel(c.h, NodeLayout, Level(c, leaves, k - 1))
  }

  /** Everything hashed for the first `k` levels above the leaves. */
  ghost function LevelInputs(c: Codec, leaves: seq<Bytes>, k: nat): set<Bytes> {
    if k == 0 then {}
    else
      var below := Level(c, leaves, k - 1);
      LevelInputs(c, leaves, k - 1) + set i | 0 <= i < (|below| + 1) / 2 :: Merkle.NodeInput(NodeLayout, below, i)
  }

  ghost function LeafInputs(c: Codec, ordered: seq<Arg>): set<Bytes> {
    set i | 0 <= i < |ordered| :: LeafInput(c, ordered[i].field, ordered[i].value)
  }

  ghost function Height(n: nat): nat {
    if n <= 1 then 0 else 1 + Height((n + 1) / 2)
  }

  /** Everything hashed when committing. */
  ghost function CommitInputs(c: Codec, args: seq<Arg>): set<Bytes> {
    if args == [] then {EMPTY_INPUT}
    else
      var o := Ordered(args);
      LeafInputs(c, o) + LevelInputs(c, Leaves(c, o), Height(|o|))
  }

  /** Everything hashed when checking one entry. */
  ghost function EntryInputs(c: Codec, field: Text, e: Disclosed): set<Bytes>
    requires e.Disclosed? && e.path.Some? && PathWellFormed(e.path.value)
  {
    {LeafInput(c, field, e.value)} + WalkInputs(c.h, NodeLayout, LeafDigest(c, field, e.value), Steps(e.path.value))
  }

  lemma {:induction false} LevelShift(c: Codec, leaves: seq<Bytes>, k: nat)
    ensures Level(c, leaves, k + 1) == Level(c, FoldLevel(c.h, NodeLayout, leaves), k)
  {
    if k > 0 {
      LevelShift(c, leaves, k - 1);
    }
  }

  lemma {:induction false} RootIsTopLevel(c: Codec, leaves: seq<Bytes>)
    requires leaves != []
    ensures Level(c, leaves, Height(|leaves|)) == [Root(c.h, NodeLayout, leaves)]
    decreases |leaves|
  {
    if |leaves| > 1 {
      RootIsTopLevel(c, FoldLevel(c.h, NodeLayout, leaves));
      LevelShift(c, leaves, Height((|leaves| + 1) / 2));
    }
  }

  lemma LayoutsDiffer(c: Codec, field: Text, value: Json, l: Bytes, r: Bytes)
    ensures LeafInput(c, field, value) != NodeLayout(l, r)
    ensures LeafInput(c, field, value) != EMPTY_INPUT
    ensures NodeLayout(l, r) != EMPTY_INPUT
  {
    assert LeafInput(c, field, value)[10] == 0x6C;
    assert NodeLayout(l, r)[10] == 0x6E;
    assert EMPTY_INPUT[10] == 0x65;
  }

  lemma NodeLayoutParses(a: Bytes, b: Bytes, x: Bytes, y: Bytes)
    requires |a| == |x| == 32 && NodeLayout(a, b) == NodeLayout(x, y)
    ensures a == x && b == y
  {
    var p, q := NodeLayout(a, b), NodeLayout(x, y);
    var m, n := a + [0] + b, x + [0] + y;
    assert p[12..] == m && q[12..] == n;
    assert m[..32] == a && n[..32] == x;
    assert m[33..] == b && n[33..] == y;
  }

  /** The last NUL separates name and value: canonical JSON holds none. */
  lemma LeafInputParses(c: Codec, f: Text, v: Json, g: Text, w: Json)
    requires CodecOk(c) && Clean(f) && Clean(g) && LeafInput(c, f, v) == LeafInput(c, g, w)
    ensures f == g && c.json(v) == c.json(w)
  {
    var p, q := c.utf8(f) + [0] + c.json(v), c.utf8(g) + [0] + c.json(w);
    assert LeafInput(c, f, v)[12..] == p && LeafInput(c, g, w)[12..] == q;
    assert p[|c.utf8(f)|] == 0 && q[|c.utf8(g)|] == 0;
    assert forall i :: |c.utf8(f)| < i < |p| ==> p[i] == c.json(v)[i - |c.utf8(f)| - 1];
    assert forall i :: |c.utf8(g)| < i < |q| ==> q[i] == c.json(w)[i - |c.utf8(g)| - 1];
    assert forall i :: |c.utf8(f)| < i < |p| ==> p[i] != 0;
    assert forall i :: |c.utf8(g)| < i < |q| ==> q[i] != 0;
    assert |c.utf8(f)| == |c.utf8(g)|;
    assert p[..|c.utf8(f)|] == c.utf8(f) && q[..|c.utf8(g)|] == c.utf8(g);
    assert p[|c.utf8(f)| + 1..] == c.json(v) && q[|c.utf8(g)| + 1..] == c.json(w);
  }

  /** The entry hashes the same leaf input as committed argument `i`. */
  ghost predicate IsLeaf(c: Codec, field: Text, value: Json, ordered: seq<Arg>, i: nat) {
    i < |ordered| && LeafInput(c, ordered[i].field, ordered[i].value) == LeafInput(c, field, value)
  }

  /** The walk and the tree below level `k` were hashed within `inputs`, which hold no collision. */
  ghost predicate Within(c: Codec, ordered: seq<Arg>, field: Text, value: Json, path: seq<Step>, k: nat,
                         inputs: set<Bytes>)
  {
    && Is256Bit(c.h) && CollisionFree(c.h, inputs)
    && (forall j :: 0 <= j < |path| ==> |path[j].sibling| == 32)
    && LeafInputs(c, ordered) <= inputs && LevelInputs(c, Leaves(c, ordered), k) <= inputs
    && LeafInput(c, field, value) in inputs
    && WalkInputs(c.h, NodeLayout, LeafDigest(c, field, value), path) <= inputs
  }

  /** The walk ends at node `i` of level `k`. */
  ghost predicate EndsAt(c: Codec, ordered: seq<Arg>, field: Text, value: Json, path: seq<Step>, k: nat, i: nat) {
    var level := Level(c, Leaves(c, ordered), k);
    i < |level| && Walk(c.h, NodeLayout, LeafDigest(c, field, value), path) == level[i]
  }

  ghost predicate ArrivesWithin(c: Codec, ordered: seq<Arg>, field: Text, value: Json, path: seq<Step>, k: nat, i: nat,
                                inputs: set<Bytes>)
  {
    Within(c, ordered, field, value, path, k, inputs) && EndsAt(c, ordered, field, value, path, k, i)
  }

  lemma WalkAtLeafLevel(c: Codec, ordered: seq<Arg>, field: Text, value: Json, path: seq<Step>, i: nat,
                        inputs: set<Bytes>)
    requires ArrivesWithin(c, ordered, field, value, path, 0, i, inputs)
    ensures IsLeaf(c, field, value, ordered, i)
  {
    var d := LeafDigest(c, field, value);
    var leaf := LeafInput(c, ordered[i].field, ordered[i].value);
    assert leaf in LeafInputs(c, ordered);
    if path != [] {
      WalkEndsInNode(c, d, path);
      LayoutsDiffer(c, ordered[i].field, ordered[i].value, LeftPart(c, d, path), RightPart(c, d, path));
    }
  }

  lemma WalkFromChild(c: Codec, ordered: seq<Arg>, field: Text, value: Json, path: seq<Step>, k: nat, i: nat,
                      inputs: set<Bytes>) returns (child: nat, init: seq<Step>)
    requires k > 0 && ArrivesWithin(c, ordered, field, value, path, k, i, inputs)
    ensures |init| < |path| && ArrivesWithin(c, ordered, field, value, init, k - 1, child, inputs)
  {
    var leaves, d := Leaves(c, ordered), LeafDigest(c, field, value);
    var below := Level(c, leaves, k - 1);
    var node := Merkle.NodeInput(NodeLayout, below, i);
    assert node in LevelInputs(c, leaves, k);
    LayoutsDiffer(c, field, value, below[2 * i], RightOf(below, i));
    assert path != [];
    WalkEndsInNode(c, d, path);
    LevelIsDigests(c, leaves, k - 1);
    NodeLayoutParses(LeftPart(c, d, path), RightPart(c, d, path), below[2 * i], RightOf(below, i));
    init := path[..|path| - 1];
    child := if path[|path| - 1].isRight && 2 * i + 1 < |below| then 2 * i + 1 else 2 * i;
  }

  /** A walk that ends at a tree node started at a leaf below it. */
  lemma {:induction false} WalkStartsAtLeaf(c: Codec, ordered: seq<Arg>, field: Text, value: Json,
                                            path: seq<Step>, k: nat, i: nat, inputs: set<Bytes>) returns (leaf: nat)
    requires ArrivesWithin(c, ordered, field, value, path, k, i, inputs)
    ensures IsLeaf(c, field, value, ordered, leaf)
    decreases |path|
  {
    hide *;
    if k == 0 {
      WalkAtLeafLevel(c, ordered, field, value, path, i, inputs);
      leaf := i;
    } else {
      var child, init := WalkFromChild(c, ordered, field, value, path, k, i, inputs);
      leaf := WalkStartsAtLeaf(c, ordered, field, value, init, k - 1, child, inputs);
    }
  }

  ghost function LeftPart(c: Codec, d: Bytes, path: seq<Step>): Bytes
    requires path != []
  {
    var s := path[|path| - 1];
    if s.isRight then s.sibling else Walk(c.h, NodeLayout, d, path[..|path| - 1])
  }

  ghost function RightPart(c: Codec, d: Bytes, path: seq<Step>): Bytes
    requires path != []
  {
    var s := path[|path| - 1];
    if s.isRight then Walk(c.h, NodeLayout, d, path[..|path| - 1]) else s.sibling
  }

  ghost function LastInput(c: Codec, d: Bytes, path: seq<Step>): Bytes
    requires path != []
  {
    NodeLayout(LeftPart(c, d, path), RightPart(c, d, path))
  }

  lemma WalkEndsInNode(c: Codec, d: Bytes, path: seq<Step>)
    requires path != [] && Is256Bit(c.h) && |d| == 32
    requires forall j :: 0 <= j < |path| ==> |path[j].sibling| == 32
    ensures Walk(c.h, NodeLayout, d, path) == c.h(LastInput(c, d, path))
    ensures LastInput(c, d, path) in WalkInputs(c.h, NodeLayout, d, path)
    ensures WalkInputs(c.h, NodeLayout, d, path[..|path| - 1]) <= WalkInputs(c.h, NodeLayout, d, path)
    ensures |LeftPart(c, d, path)| == 32
  {
  }

  lemma {:induction false} LevelIsDigests(c: Codec, leaves: seq<Bytes>, k: nat)
    requires Is256Bit(c.h) && AllDigests(leaves)
    ensures AllDigests(Level(c, leaves, k))
  {
  }

  /**
   Soundness: an entry accepted against the commitment names a committed field and
   carries a value with the same canonical encoding, whatever its path; otherwise the
   two computations hashed a collision. Nothing is accepted against the empty tree.
   */
  lemma DisclosureSound(c: Codec, args: seq<Arg>, field: Text, e: Disclosed)
    requires CodecOk(c) && ArgsOk(args)
    requires EntryOk(c, Commitment(c, args), field, e)
    ensures || (HasField(args, field) && c.json(ValueOf(args, field)) == c.json(e.value))
            || !CollisionFree(c.h, CommitInputs(c, args) + EntryInputs(c, field, e))
  {
    var inputs := CommitInputs(c, args) + EntryInputs(c, field, e);
    var path, d := Steps(e.path.value), LeafDigest(c, field, e.value);
    if CollisionFree(c.h, inputs) {
      if args == [] {
        EmptyAdmitsNothing(c, field, e.value, path, inputs);
      } else {
        var i := CommittedLeaf(c, args, field, e, inputs);
        LeafIsCommitted(c, args, field, e.value, i);
      }
    }
  }

  lemma CommittedLeaf(c: Codec, args: seq<Arg>, field: Text, e: Disclosed, inputs: set<Bytes>) returns (i: nat)
    requires Is256Bit(c.h) && args != [] && CollisionFree(c.h, inputs)
    requires EntryOk(c, Commitment(c, args), field, e)
    requires CommitInputs(c, args) <= inputs && EntryInputs(c, field, e) <= inputs
    ensures IsLeaf(c, field, e.value, Ordered(args), i)
  {
    var o := Ordered(args);
    RootIsTopLevel(c, Leaves(c, o));
    assert ArrivesWithin(c, o, field, e.value, Steps(e.path.value), Height(|o|), 0, inputs);
    i := WalkStartsAtLeaf(c, o, field, e.value, Steps(e.path.value), Height(|o|), 0, inputs);
  }

  lemma LeafIsCommitted(c: Codec, args: seq<Arg>, field: Text, value: Json, i: nat)
    requires CodecOk(c) && ArgsOk(args) && Clean(field)
    requires IsLeaf(c, field, value, Ordered(args), i)
    ensures HasField(args, field) && c.json(ValueOf(args, field)) == c.json(value)
  {
    var o := Ordered(args);
    OrderedOk(args);
    LeafInputParses(c, o[i].field, o[i].value, field, value);
    assert o[i] in args;
    OrderedHasField(args, field);
    assert FieldIndex(o, field) == i;
  }

  lemma EmptyAdmitsNothing(c: Codec, field: Text, value: Json, path: seq<Step>, inputs: set<Bytes>)
    requires CodecOk(c) && CollisionFree(c.h, inputs) && EMPTY_INPUT in inputs && LeafInput(c, field, value) in inputs
    requires forall j :: 0 <= j < |path| ==> |path[j].sibling| == 32
    requires WalkInputs(c.h, NodeLayout, LeafDigest(c, field, value), path) <= inputs
    ensures Walk(c.h, NodeLayout, LeafDigest(c, field, value), path) != c.h(EMPTY_INPUT)
  {
    var d := LeafDigest(c, field, value);
    if path == [] {
      LayoutsDiffer(c, field, value, [], []);
    } else {
      WalkEndsInNode(c, d, path);
      LayoutsDiffer(c, field, value, LeftPart(c, d, path), RightPart(c, d, path));
    }
  }
}
