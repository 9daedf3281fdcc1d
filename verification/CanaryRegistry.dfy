/** Embedding canaries, checking output for them, and the registry (`CanaryManager` in `raucle/canary.py`). */
module CanaryRegistry {
  import opened Basics
  import opened Canon
  import opened Canary

  datatype Strategy = ZeroWidth | Semantic | Comment

  datatype CanaryToken = CanaryToken(value: Text, strategy: Strategy, createdAt: int)

  datatype Evidence = Nothing | Verbatim | Decoded | Literal | Prefix

  datatype CheckResult = CheckResult(
    leaked: bool, confidence: real, value: Text, strategy: Option<Strategy>, evidence: Evidence)

  const NOT_LEAKED := CheckResult(false, 0.0, [], None, Nothing)

  const STOP: Text := [0x2E, 0x20]
  const DOT: CodePoint := 0x2E
  const PREFIX_LENGTH := 12

  /** UTF-8, `str.isspace` and the truncated keyed digest of a token. */
  datatype Env = Env(utf8: Utf8, isSpace: CodePoint -> bool, mac: Text -> Text)

  // ---- Substrings ---------------------------------------------------------

  predicate OccursAt(text: Text, part: Text, i: nat) {
    i + |part| <= |text| && text[i..i + |part|] == part
  }

  /** `part in text`. */
  predicate Contains(text: Text, part: Text) {
    exists i :: 0 <= i <= |text| && OccursAt(text, part, i)
  }

  /** `text.find(part)`, from position `i` on. */
  function FindFrom(text: Text, part: Text, i: nat): (r: Option<nat>)
    requires i <= |text|
    ensures r.Some? ==> i <= r.value <= |text| && OccursAt(text, part, r.value)
    ensures forall k :: i <= k <= (if r.Some? then r.value - 1 else |text|) ==> !OccursAt(text, part, k)
    decreases |text| - i
  {
    if OccursAt(text, part, i) then Some(i)
    else if i == |text| then None
    else FindFrom(text, part, i + 1)
  }

  lemma ContainsInside(before: Text, part: Text, after: Text)
    ensures Contains(before + part + after, part)
  {
    var text := before + part + after;
    assert text[|before|..|before| + |part|] == part;
    assert OccursAt(text, part, |before|);
  }

  lemma ContainsWider(before: Text, text: Text, after: Text, part: Text)
    requires Contains(text, part)
    ensures Contains(before + text + after, part)
  {
    var i :| 0 <= i <= |text| && OccursAt(text, part, i);
    var wide := before + text + after;
    assert wide[|before| + i..|before| + i + |part|] == text[i..i + |part|];
    assert OccursAt(wide, part, |before| + i);
  }

  // ---- Embedding ----------------------------------------------------------

  function RStrip(e: Env, text: Text): Text {
    if text == [] || !e.isSpace(text[|text| - 1]) then text else RStrip(e, text[..|text| - 1])
  }

  /** Where a zero-width watermark goes: after the first sentence, or at the end. */
  function InsertionPoint(prompt: Text): (i: nat)
    ensures i <= |prompt|
  {
    match FindFrom(prompt, STOP, 0)
    case Some(i) => i + 1
    case None => |prompt|
  }

  const SEMANTIC_OPEN: Text := [0x0A, 0x0A] + Ascii("[Ref: session-token=")
  const SEMANTIC_CLOSE: Text := Ascii("]")
  const COMMENT_OPEN: Text := [0x0A] + Ascii("<!-- canary:")
  const COMMENT_CLOSE: Text := Ascii(" -->")

  /** The watermarked prompt `embed` returns. */
  function Embedded(e: Env, prompt: Text, strategy: Strategy, value: Text): Text {
    match strategy
    case ZeroWidth =>
      var i := InsertionPoint(prompt);
      prompt[..i] + Watermark(e.utf8, value) + prompt[i..]
    case Semantic => RStrip(e, prompt) + SEMANTIC_OPEN + value + SEMANTIC_CLOSE
    case Comment => RStrip(e, prompt) + COMMENT_OPEN + value + COMMENT_CLOSE
  }

  /** What a reader sees. */
  function Visible(text: Text): Text {
    if text == [] then []
    else (if IsZeroWidth(text[0]) then [] else [text[0]]) + Visible(text[1..])
  }

  lemma {:induction false} VisibleConcat(a: Text, b: Text)
    ensures Visible(a + b) == Visible(a) + Visible(b)
  {
    if a == [] {
      assert a + b == b;
    } else {
      assert (a + b)[1..] == a[1..] + b;
      VisibleConcat(a[1..], b);
    }
  }

  lemma {:induction false} VisibleOfRun(run: Text)
    requires AllZeroWidth(run)
    ensures Visible(run) == []
  {
    if run != [] {
      VisibleOfRun(run[1..]);
    }
  }

  predicate NoZeroWidth(text: Text) {
    forall i :: 0 <= i < |text| ==> !IsZeroWidth(text[i])
  }

  lemma {:induction false} OrdinaryIsVisible(text: Text)
    requires NoZeroWidth(text)
    ensures Visible(text) == text
  {
    if text != [] {
      assert !IsZeroWidth(text[0]);
      OrdinaryIsVisible(text[1..]);
      assert text == [text[0]] + text[1..];
    }
  }

  /** A zero-width watermark changes nothing a reader sees: of an ordinary prompt, the prompt. */
  lemma EmbeddingIsInvisible(e: Env, prompt: Text, value: Text)
    ensures Visible(Embedded(e, prompt, ZeroWidth, value)) == Visible(prompt)
    ensures NoZeroWidth(prompt) ==> Visible(Embedded(e, prompt, ZeroWidth, value)) == prompt
  {
    if NoZeroWidth(prompt) {
      OrdinaryIsVisible(prompt);
    }
    var i := InsertionPoint(prompt);
    var mark := Watermark(e.utf8, value);
    ZwLength(e.utf8.encode(value));
    VisibleConcat(prompt[..i] + mark, prompt[i..]);
    VisibleConcat(prompt[..i], mark);
    VisibleOfRun(mark);
    VisibleConcat(prompt[..i], prompt[i..]);
    assert prompt[..i] + prompt[i..] == prompt;
  }

  /** The watermark follows the first full stop that ends a sentence, or the whole prompt. */
  lemma WatermarkIsPlaced(e: Env, before: Text, after: Text, value: Text)
    requires !Contains(before + Ascii("."), Ascii(". "))
    ensures Embedded(e, before + Ascii(". ") + after, ZeroWidth, value) ==
            before + Ascii(".") + Watermark(e.utf8, value) + Ascii(" ") + after
    ensures !Contains(before, Ascii(". ")) ==>
              Embedded(e, before, ZeroWidth, value) == before + Watermark(e.utf8, value)
  {
    hide Watermark;
    var prompt, end := before + Ascii(". ") + after, before + Ascii(".");
    assert Ascii(". ") == STOP && Ascii(".") == [0x2E] && Ascii(" ") == [0x20];
    assert prompt == end + [0x20] + after && OccursAt(prompt, STOP, |before|);
    forall k: nat | k < |before| ensures !OccursAt(prompt, STOP, k) {
      assert !OccursAt(end, STOP, k);
      assert k + 2 <= |end| && end[k..k + 2] == prompt[k..k + 2];
    }
    assert InsertionPoint(prompt) == |before| + 1;
    assert prompt[..|before| + 1] == end && prompt[|before| + 1..] == [0x20] + after;
    if !Contains(before, STOP) {
      assert before[..|before|] == before;
    }
  }

  /** The text without the white space at its end. */
  ghost predicate Stripped(e: Env, text: Text, bare: Text) {
    && bare <= text && (forall i :: |bare| <= i < |text| ==> e.isSpace(text[i]))
    && (bare != [] ==> !e.isSpace(bare[|bare| - 1]))
  }

  lemma {:induction false} RStripStrips(e: Env, text: Text)
    ensures Stripped(e, text, RStrip(e, text))
  {
    if text != [] && e.isSpace(text[|text| - 1]) {
      RStripStrips(e, text[..|text| - 1]);
    }
  }

  /** The other two strategies put a readable mark behind the stripped prompt. */
  lemma MarkIsReadable(e: Env, prompt: Text, value: Text, bare: Text)
    requires Stripped(e, prompt, bare)
    ensures Embedded(e, prompt, Semantic, value) ==
            bare + [0x0A, 0x0A] + Ascii("[Ref: session-token=") + value + Ascii("]")
    ensures Embedded(e, prompt, Comment, value) == bare + [0x0A] + Ascii("<!-- canary:") + value + Ascii(" -->")
  {
    RStripStrips(e, prompt);
    var other := RStrip(e, prompt);
    assert other == bare;
    hide Ascii;
    assert bare + [0x0A, 0x0A] + Ascii("[Ref: session-token=") == bare + SEMANTIC_OPEN;
    assert bare + [0x0A] + Ascii("<!-- canary:") == bare + COMMENT_OPEN;
  }

  /** Embedded into an ordinary prompt, the token is decoded again, wherever the watermark went. */
  lemma EmbeddedIsRecovered(e: Env, prompt: Text, value: Text)
    requires Utf8Ok(e.utf8) && Clean(value) && value != [] && NoZeroWidth(prompt)
    ensures Recovered(e.utf8, Embedded(e, prompt, ZeroWidth, value)) == Some(value)
  {
    var i := InsertionPoint(prompt);
    NoZeroWidthNoRuns(prompt[..i]);
    NoZeroWidthNoRuns(prompt[i..]);
    WatermarkRecovered(e.utf8, value, prompt[..i], prompt[i..]);
  }

  // ---- Checking -----------------------------------------------------------

  /** `_check_single`: the strongest evidence first. */
  function CheckSingle(e: Env, output: Text, t: CanaryToken): CheckResult {
    if t.strategy == ZeroWidth && Contains(output, Watermark(e.utf8, t.value)) then
      CheckResult(true, 0.99, t.value, Some(t.strategy), Verbatim)
    else if t.strategy == ZeroWidth && Recovered(e.utf8, output) == Some(t.value) && t.value != [] then
      CheckResult(true, 0.95, t.value, Some(t.strategy), Decoded)
    else if Contains(output, t.value) then
      CheckResult(true, if t.strategy == Semantic then 0.98 else 0.95, t.value, Some(t.strategy), Literal)
    else if |t.value| > PREFIX_LENGTH && Contains(output, t.value[..PREFIX_LENGTH]) then
      CheckResult(true, 0.70, t.value, Some(t.strategy), Prefix)
    else CheckResult(false, 0.0, [], None, Nothing)
  }

  /** The confidence a leak of the embedded prompt has. */
  function FullConfidence(s: Strategy): real {
    match s
    case ZeroWidth => 0.99
    case Semantic => 0.98
    case Comment => 0.95
  }

  /** Output that repeats the watermarked prompt, anywhere, is a leak at full confidence. */
  lemma LeakedPromptIsDetected(e: Env, prompt: Text, t: CanaryToken, before: Text, after: Text)
    ensures var r := CheckSingle(e, before + Embedded(e, prompt, t.strategy, t.value) + after, t);
            && r.leaked && r.confidence == FullConfidence(t.strategy)
            && r.value == t.value && r.strategy == Some(t.strategy)
  {
    hide Recovered, Watermark;
    var shown := Embedded(e, prompt, t.strategy, t.value);
    match t.strategy {
      case ZeroWidth =>
        var i := InsertionPoint(prompt);
        ContainsInside(prompt[..i], Watermark(e.utf8, t.value), prompt[i..]);
        ContainsWider(before, shown, after, Watermark(e.utf8, t.value));
      case Semantic =>
        ContainsInside(RStrip(e, prompt) + SEMANTIC_OPEN, t.value, SEMANTIC_CLOSE);
        ContainsWider(before, shown, after, t.value);
      case Comment =>
        ContainsInside(RStrip(e, prompt) + COMMENT_OPEN, t.value, COMMENT_CLOSE);
        ContainsWider(before, shown, after, t.value);
    }
  }

  /** A leak that was read literally stays a leak whatever text surrounds it; only decoding can be disturbed. */
  lemma LiteralLeakSurvives(e: Env, output: Text, t: CanaryToken, before: Text, after: Text)
    requires CheckSingle(e, output, t).leaked && CheckSingle(e, output, t).evidence != Decoded
    ensures CheckSingle(e, before + output + after, t).leaked
    ensures CheckSingle(e, before + output + after, t).confidence >= CheckSingle(e, output, t).confidence
            || CheckSingle(e, before + output + after, t).evidence == Decoded
  {
    hide Recovered, Watermark;
    if Contains(output, Watermark(e.utf8, t.value)) {
      ContainsWider(before, output, after, Watermark(e.utf8, t.value));
    }
    if Contains(output, t.value) {
      ContainsWider(before, output, after, t.value);
    }
    if |t.value| > PREFIX_LENGTH && Contains(output, t.value[..PREFIX_LENGTH]) {
      ContainsWider(before, output, after, t.value[..PREFIX_LENGTH]);
    }
  }

  /** The part stands somewhere in the text. */
  ghost predicate Shows(text: Text, part: Text) {
    exists before, after :: text == before + part + after
  }

  lemma ContainsIff(text: Text, part: Text)
    ensures Contains(text, part) <==> Shows(text, part)
  {
    if Contains(text, part) {
      var i :| 0 <= i <= |text| && OccursAt(text, part, i);
      assert text == text[..i] + part + text[i + |part|..];
    }
    if before, after :| text == before + part + after {
      ContainsInside(before, part, after);
    }
  }

  /** What a check finds, strongest first. */
  ghost predicate Shown(e: Env, output: Text, t: CanaryToken, kind: Evidence) {
    match kind
    case Verbatim => t.strategy == ZeroWidth && Shows(output, Watermark(e.utf8, t.value))
    case Decoded => t.strategy == ZeroWidth && t.value != [] && Recovered(e.utf8, output) == Some(t.value)
    case Literal => Shows(output, t.value)
    case Prefix => |t.value| > 12 && Shows(output, t.value[..12])
    case Nothing => true
  }

  function Strength(kind: Evidence): nat {
    match kind
    case Verbatim => 4
    case Decoded => 3
    case Literal => 2
    case Prefix => 1
    case Nothing => 0
  }

  function ConfidenceOf(kind: Evidence, s: Strategy): real {
    match kind
    case Verbatim => 0.99
    case Decoded => 0.95
    case Literal => if s == Semantic then 0.98 else 0.95
    case Prefix => 0.70
    case Nothing => 0.0
  }

  /** A check reports the strongest evidence the output shows of the token, and no leak when it shows none. */
  lemma LeakIff(e: Env, output: Text, t: CanaryToken, kind: Evidence)
    ensures CheckSingle(e, output, t).evidence == kind <==>
            Shown(e, output, t, kind) && forall k :: Strength(k) > Strength(kind) ==> !Shown(e, output, t, k)
    ensures CheckSingle(e, output, t).leaked <==> exists k :: k != Nothing && Shown(e, output, t, k)
    ensures var r := CheckSingle(e, output, t);
            && r.confidence == ConfidenceOf(r.evidence, t.strategy)
            && (r.leaked ==> r.value == t.value && r.strategy == Some(t.strategy)) && (!r.leaked ==> r == NOT_LEAKED)
  {
    ContainsIff(output, Watermark(e.utf8, t.value));
    ContainsIff(output, t.value);
    if |t.value| > 12 {
      ContainsIff(output, t.value[..12]);
    }
    hide Contains, Shows, Recovered, Watermark;
    assert Strength(Verbatim) == 4 && Strength(Decoded) == 3 && Strength(Literal) == 2;
    assert Strength(Prefix) == 1 && Strength(Nothing) == 0;
    var r := CheckSingle(e, output, t);
    if r.leaked {
      assert Shown(e, output, t, r.evidence);
    }
  }

  // ---- The registry -------------------------------------------------------

  /** A dict from token value to token, in insertion order. */
  type Registry = seq<CanaryToken>

  ghost predicate DistinctValues(reg: Registry) {
    forall i, j :: 0 <= i < j < |reg| ==> reg[i].value != reg[j].value
  }

  /** The position of a value. */
  function IndexOf(reg: Registry, value: Text): (r: Option<nat>)
    ensures r.Some? ==> r.value < |reg| && reg[r.value].value == value
    ensures r.None? ==> forall i :: 0 <= i < |reg| ==> reg[i].value != value
  {
    if reg == [] then None
    else if reg[0].value == value then Some(0)
    else
      match IndexOf(reg[1..], value)
      case None => None
      case Some(i) => Some(i + 1)
  }

  /** `registry[token.value] = token`. */
  function Put(reg: Registry, t: CanaryToken): Registry {
    match IndexOf(reg, t.value)
    case Some(i) => reg[i := t]
    case None => reg + [t]
  }

  /** `min` by creation time: the first of the oldest. */
  function Oldest(reg: Registry): (i: nat)
    requires reg != []
    ensures i < |reg|
    ensures forall k :: 0 <= k < |reg| ==> reg[i].createdAt <= reg[k].createdAt
    ensures forall k :: 0 <= k < i ==> reg[i].createdAt < reg[k].createdAt
  {
    if |reg| == 1 then 0
    else
      var i := Oldest(reg[..|reg| - 1]);
      if reg[|reg| - 1].createdAt < reg[i].createdAt then |reg| - 1 else i
  }

  function RemoveAt(reg: Registry, i: nat): Registry
    requires i < |reg|
  {
    reg[..i] + reg[i + 1..]
  }

  /** `_register`; `None` when there is no room at all and nothing to evict. */
  function Registered(reg: Registry, t: CanaryToken, maxTokens: int): Option<Registry> {
    if |reg| >= maxTokens then (if reg == [] then None else Some(Put(RemoveAt(reg, Oldest(reg)), t)))
    else Some(Put(reg, t))
  }

  /** One token per value, and no more than there is room for. */
  ghost predicate RegistryOk(reg: Registry, maxTokens: int) {
    DistinctValues(reg) && |reg| <= if maxTokens > 0 then maxTokens else 0
  }

  /**
   A registration fails exactly when there is room for none; otherwise the registry keeps to
   its bound, holds one token per value, and holds the newest.
   */
  lemma RegisterKeepsBound(reg: Registry, t: CanaryToken, maxTokens: int)
    requires RegistryOk(reg, maxTokens)
    ensures Registered(reg, t, maxTokens).Some? <==> maxTokens >= 1
    ensures maxTokens >= 1 ==>
              var next := Registered(reg, t, maxTokens).value;
              && RegistryOk(next, maxTokens) && t in next
              && forall x :: x in next ==> x == t || x in reg
  {
    if maxTokens >= 1 {
      var base := if |reg| >= maxTokens then RemoveAt(reg, Oldest(reg)) else reg;
      assert DistinctValues(base) && |base| < maxTokens;
      PutKeeps(base, t);
    }
  }

  lemma PutKeeps(base: Registry, t: CanaryToken)
    requires DistinctValues(base)
    ensures DistinctValues(Put(base, t)) && t in Put(base, t) && |Put(base, t)| <= |base| + 1
    ensures forall x :: x in Put(base, t) ==> x == t || x in base
  {
    var next := Put(base, t);
    var i := IndexOf(base, t.value);
    assert next[if i.Some? then i.value else |base|] == t;
    assert DistinctValues(next);
  }

  /** All registrations so far, oldest first. */
  function RegisterAll(ts: seq<CanaryToken>, maxTokens: int): Option<Registry> {
    if ts == [] then Some([])
    else
      match RegisterAll(ts[..|ts| - 1], maxTokens)
      case None => None
      case Some(reg) => Registered(reg, ts[|ts| - 1], maxTokens)
  }

  ghost predicate InTimeOrder(ts: seq<CanaryToken>) {
    forall i, j :: 0 <= i < j < |ts| ==> ts[i].createdAt <= ts[j].createdAt
  }

  function Latest(ts: seq<CanaryToken>, n: nat): seq<CanaryToken> {
    if |ts| <= n then ts else ts[|ts| - n..]
  }

  lemma PutFresh(reg: Registry, t: CanaryToken)
    requires forall x :: x in reg ==> x.value != t.value
    ensures Put(reg, t) == reg + [t]
  {
  }

  lemma FirstIsOldest(reg: Registry)
    requires reg != [] && InTimeOrder(reg)
    ensures Oldest(reg) == 0 && RemoveAt(reg, 0) == reg[1..]
  {
  }

  /** A fresh, latest token joins at the end, and the first one leaves when there is no room. */
  lemma RegisterFresh(reg: Registry, t: CanaryToken, maxTokens: nat)
    requires maxTokens >= 1 && InTimeOrder(reg) && forall x :: x in reg ==> x.value != t.value
    ensures Registered(reg, t, maxTokens) == Some((if |reg| >= maxTokens then reg[1..] else reg) + [t])
  {
    hide Oldest, Put, InTimeOrder, RemoveAt;
    if |reg| >= maxTokens {
      FirstIsOldest(reg);
      assert forall x :: x in reg[1..] ==> x in reg;
      PutFresh(reg[1..], t);
    } else {
      PutFresh(reg, t);
    }
  }

  lemma LatestIsFresh(init: seq<CanaryToken>, t: CanaryToken, n: nat)
    requires DistinctValues(init + [t]) && InTimeOrder(init + [t])
    ensures InTimeOrder(Latest(init, n)) && forall x :: x in Latest(init, n) ==> x.value != t.value
  {
    var ts, reg := init + [t], Latest(init, n);
    var d := |init| - |reg|;
    assert forall k :: 0 <= k < |reg| ==> reg[k] == ts[k + d];
    assert ts[|init|] == t;
  }

  lemma LatestStep(init: seq<CanaryToken>, t: CanaryToken, maxTokens: nat)
    requires maxTokens >= 1 && DistinctValues(init + [t]) && InTimeOrder(init + [t])
    ensures Registered(Latest(init, maxTokens), t, maxTokens) == Some(Latest(init + [t], maxTokens))
  {
    hide Registered, DistinctValues, InTimeOrder;
    var reg := Latest(init, maxTokens);
    LatestIsFresh(init, t, maxTokens);
    RegisterFresh(reg, t, maxTokens);
    if |reg| >= maxTokens {
      assert reg[1..] + [t] == Latest(init + [t], maxTokens);
    }
  }

  /** Fresh tokens registered as time passes: the registry is exactly the latest `maxTokens` of them. */
  lemma {:induction false} RegistryIsLatest(ts: seq<CanaryToken>, maxTokens: nat)
    requires maxTokens >= 1 && DistinctValues(ts) && InTimeOrder(ts)
    ensures RegisterAll(ts, maxTokens) == Some(Latest(ts, maxTokens))
  {
    if ts != [] {
      var init, t := ts[..|ts| - 1], ts[|ts| - 1];
      assert init + [t] == ts;
      RegistryIsLatest(init, maxTokens);
      hide Registered;
      LatestStep(init, t, maxTokens);
    }
  }

  // ---- Signed tokens ------------------------------------------------------

  predicate IsAscii(t: Text) {
    forall i :: 0 <= i < |t| ==> t[i] < 128
  }

  /** The digest is eight hexadecimal characters. */
  ghost predicate MacOk(e: Env) {
    forall raw :: |e.mac(raw)| == 8 && IsAscii(e.mac(raw)) && DOT !in e.mac(raw)
  }

  function SignedValue(e: Env, raw: Text): Text {
    raw + [DOT] + e.mac(raw)
  }

  /** The position of the last dot. */
  function LastDot(value: Text): (r: Option<nat>)
    ensures r.Some? ==> r.value < |value| && value[r.value] == DOT && DOT !in value[r.value + 1..]
    ensures r.None? ==> DOT !in value
  {
    if value == [] then None
    else
      var init, last := value[..|value| - 1], value[|value| - 1];
      if last == DOT then Some(|value| - 1)
      else
        match LastDot(init)
        case None => assert value == init + [last]; None
        case Some(i) => assert value[i + 1..] == init[i + 1..] + [last]; Some(i)
  }

  /** `verify_token`; `None` is the exception a value that cannot be encoded or compared raises. */
  function VerifyToken(e: Env, signing: bool, value: Text): Option<bool> {
    if !signing then Some(true)
    else
      match LastDot(value)
      case None => Some(false)
      case Some(i) =>
        if !Clean(value[..i]) || !IsAscii(value[i + 1..]) then None
        else Some(value[i + 1..] == e.mac(value[..i]))
  }

  /** With a secret, a value is accepted exactly when it is some text with its own digest attached. */
  lemma VerifiesIffSigned(e: Env, value: Text)
    requires MacOk(e)
    ensures VerifyToken(e, true, value) == Some(true) <==> exists raw :: Clean(raw) && value == SignedValue(e, raw)
  {
    if VerifyToken(e, true, value) == Some(true) {
      var i := LastDot(value).value;
      assert value == value[..i] + [DOT] + value[i + 1..];
      assert value == SignedValue(e, value[..i]);
    }
    if raw :| Clean(raw) && value == SignedValue(e, raw) {
      var i := LastDot(value).value;
      assert value[|raw|] == DOT && value[|raw| + 1..] == e.mac(raw);
      assert i == |raw| && value[..i] == raw;
    }
  }

  /** The digest is what follows the last dot; text before it that has no encoding, or after it beyond ASCII, raises. */
  lemma VerifyTokenIff(e: Env, signing: bool, value: Text, raw: Text, tag: Text)
    ensures !signing || DOT !in value ==> VerifyToken(e, signing, value) == Some(!signing)
    ensures signing && value == raw + [DOT] + tag && DOT !in tag ==>
              VerifyToken(e, signing, value) ==
              if Clean(raw) && forall c :: c in tag ==> c < 128 then Some(tag == e.mac(raw)) else None
  {
    if signing && value == raw + [DOT] + tag && DOT !in tag {
      var i := LastDot(value).value;
      assert value[|raw|] == DOT && value[|raw| + 1..] == tag;
      assert i == |raw| && value[..i] == raw;
      assert IsAscii(tag) <==> forall c :: c in tag ==> c < 128 by {
        assert forall k :: 0 <= k < |tag| ==> tag[k] in tag;
      }
    }
  }

  // ---- The manager --------------------------------------------------------

  class CanaryManager {
    const env: Env
    const signing: bool
    const maxTokens: int
    var registry: Registry

    constructor (env: Env, signing: bool, maxTokens: int)
      ensures this.env == env && this.signing == signing && this.maxTokens == maxTokens && registry == []
    {
      this.env, this.signing, this.maxTokens, registry := env, signing, maxTokens, [];
    }

    /** `_register`: evict when full, then store. */
    method Register(t: CanaryToken) returns (ok: bool)
      modifies this
      ensures ok == Registered(old(registry), t, maxTokens).Some?
      ensures registry == Registered(old(registry), t, maxTokens).GetOr(old(registry))
    {
      if |registry| >= maxTokens {
        if registry == [] {
          return false;
        }
        registry := RemoveAt(registry, Oldest(registry));
      }
      registry := Put(registry, t);
      return true;
    }

    /** `embed`, with the random part and the clock supplied. */
    method Embed(prompt: Text, strategy: Strategy, raw: Text, now: int) returns (r: Option<(Text, CanaryToken)>)
      modifies this
      ensures var t := CanaryToken(if signing then SignedValue(env, raw) else raw, strategy, now);
              && registry == Registered(old(registry), t, maxTokens).GetOr(old(registry))
              && r == if Registered(old(registry), t, maxTokens).None? then None
                      else Some((Embedded(env, prompt, strategy, t.value), t))
    {
      var value := if signing then SignedValue(env, raw) else raw;
      var t := CanaryToken(value, strategy, now);
      var ok := Register(t);
      if !ok {
        return None;
      }
      var watermarked;
      if strategy == ZeroWidth {
        var mark := TokenToZw(env.utf8, value);
        var i := InsertionPoint(prompt);
        watermarked := prompt[..i] + mark + prompt[i..];
      } else if strategy == Semantic {
        watermarked := RStrip(env, prompt) + SEMANTIC_OPEN + value + SEMANTIC_CLOSE;
      } else {
        watermarked := RStrip(env, prompt) + COMMENT_OPEN + value + COMMENT_CLOSE;
      }
      return Some((watermarked, t));
    }

    /** `check_output` over the registered tokens: the first one that leaked, if any. */
    method CheckOutput(output: Text) returns (r: CheckResult)
      ensures r.leaked <==> exists t :: t in registry && CheckSingle(env, output, t).leaked
      ensures !r.leaked ==> r == NOT_LEAKED
      ensures r.leaked ==>
                exists i :: && 0 <= i < |registry| && r == CheckSingle(env, output, registry[i])
                            && forall k :: 0 <= k < i ==> !CheckSingle(env, output, registry[k]).leaked
    {
      for i := 0 to |registry|
        invariant forall k :: 0 <= k < i ==> !CheckSingle(env, output, registry[k]).leaked
      {
        r := CheckSingle(env, output, registry[i]);
        if r.leaked {
          assert registry[i] in registry;
          return;
        }
      }
      return NOT_LEAKED;
    }

    /** `check_output_all`: every leak, in registry order. */
    method CheckOutputAll(output: Text) returns (rs: seq<CheckResult>)
      ensures rs == Leaks(env, output, registry)
    {
      rs := [];
      for i := 0 to |registry|
        invariant rs == Leaks(env, output, registry[..i])
      {
        assert registry[..i + 1][..i] == registry[..i];
        var r := CheckSingle(env, output, registry[i]);
        if r.leaked {
          rs := rs + [r];
        }
      }
      assert registry[..|registry|] == registry;
    }

    /** `revoke_token`. */
    method RevokeToken(value: Text) returns (existed: bool)
      modifies this
      ensures existed == IndexOf(old(registry), value).Some?
      ensures registry ==
              if existed then RemoveAt(old(registry), IndexOf(old(registry), value).value) else old(registry)
    {
      var i := IndexOf(registry, value);
      if i.None? {
        return false;
      }
      registry := RemoveAt(registry, i.value);
      return true;
    }
  }

  function Leaks(e: Env, output: Text, reg: Registry): seq<CheckResult> {
    if reg == [] then []
    else
      var r := CheckSingle(e, output, reg[|reg| - 1]);
      Leaks(e, output, reg[..|reg| - 1]) + if r.leaked then [r] else []
  }

  lemma LatestMember(ts: seq<CanaryToken>, n: nat, i: nat)
    requires |ts| - n <= i < |ts|
    ensures ts[i] in Latest(ts, n)
  {
  }

  /** Repeating the prompt of any of the latest tokens makes a check of the whole registry report a leak. */
  lemma LatestAreWatched(e: Env, ts: seq<CanaryToken>, maxTokens: nat, i: nat, prompt: Text, before: Text, after: Text)
    requires maxTokens >= 1 && DistinctValues(ts) && InTimeOrder(ts)
    requires |ts| - maxTokens <= i < |ts|
    ensures var output := before + Embedded(e, prompt, ts[i].strategy, ts[i].value) + after;
            && RegisterAll(ts, maxTokens).Some?
            && exists t :: t in RegisterAll(ts, maxTokens).value && CheckSingle(e, output, t).leaked
  {
    hide CheckSingle, Embedded, RegisterAll, DistinctValues, InTimeOrder, Latest;
    RegistryIsLatest(ts, maxTokens);
    LeakedPromptIsDetected(e, prompt, ts[i], before, after);
    LatestMember(ts, maxTokens, i);
  }
}
