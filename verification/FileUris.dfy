/**
 Canonical `file://` paths: what the dot-segment loop guarantees, the loop itself, and
 why comparing raw prefixes is not enough when delegating.
 */
module FileUris {
  import opened Basics
  import opened Canon
  import opened Texts
  import opened Values
  import opened Policy
  import opened Narrowing
  import opened Attenuation

  function CanonicalPath(path: Text): Text {
    Collapse(Join(ResolveDots(Split(path, SLASH), []), SLASH))
  }

  predicate Plain(segments: seq<Text>) {
    forall seg :: seg in segments ==> seg != DOT && seg != DOTDOT && Without(seg, SLASH)
  }

  lemma {:induction false} ResolveDotsPlain(segments: seq<Text>, done: seq<Text>)
    requires Plain(done) && forall seg :: seg in segments ==> Without(seg, SLASH)
    ensures Plain(ResolveDots(segments, done))
  {
    if segments != [] {
      var seg := segments[0];
      var next := if seg == DOT then done
                  else if seg == DOTDOT then (if |done| > 1 then done[..|done| - 1] else done)
                  else done + [seg];
      assert seg in segments;
      assert forall x :: x in next ==> x in done || x == seg;
      ResolveDotsPlain(segments[1..], next);
    }
  }

  lemma {:induction false} CollapseTail(t: Text)
    ensures Split(Collapse(t), SLASH)[0] == Split(t, SLASH)[0]
    ensures forall seg :: seg in Split(Collapse(t), SLASH)[1..] ==> seg in Split(t, SLASH)[1..]
  {
    if |t| >= 2 && t[0] == SLASH && t[1] == SLASH {
      CollapseTail(t[1..]);
      assert Split(t, SLASH)[1..] == Split(t[1..], SLASH);
    } else if t != [] {
      CollapseTail(t[1..]);
      assert Collapse(t)[1..] == Collapse(t[1..]);
      if t[0] == SLASH {
        var a, b := Split(Collapse(t[1..]), SLASH), Split(t[1..], SLASH);
        assert Split(Collapse(t), SLASH)[1..] == a && Split(t, SLASH)[1..] == b;
        assert a == [a[0]] + a[1..] && b == [b[0]] + b[1..];
      }
    }
  }

  lemma CollapseKeepsSegments(t: Text)
    ensures forall seg :: seg in Split(Collapse(t), SLASH) ==> seg in Split(t, SLASH)
  {
    CollapseTail(t);
    var a, b := Split(Collapse(t), SLASH), Split(t, SLASH);
    assert a == [a[0]] + a[1..] && b == [b[0]] + b[1..];
  }

  /** No "." or ".." segment survives, so no path can climb past the prefix it shows. */
  lemma CanonicalPathHasNoDots(path: Text)
    ensures Plain(Split(CanonicalPath(path), SLASH))
  {
    var segments := ResolveDots(Split(path, SLASH), []);
    SplitHasNoSeparator(path, SLASH);
    ResolveDotsPlain(Split(path, SLASH), []);
    CollapseKeepsSegments(Join(segments, SLASH));
    if segments == [] {
      assert Split(Join(segments, SLASH), SLASH) == [[]];
    } else {
      SplitJoin(segments, SLASH);
    }
  }

  // ---- What the two passes compute ----------------------------------------

  ghost predicate NoDots(segments: seq<Text>) {
    DOT !in segments && DOTDOT !in segments
  }

  /**
   Resolving dot segments: a path without them stays, "." goes, and ".." goes together with the segment
   in front of it, or alone when no more than the root would be in front of it.
   */
  ghost predicate DotRules(resolve: seq<Text> -> seq<Text>) {
    && (forall a :: NoDots(a) ==> resolve(a) == a)
    && (forall a, b :: NoDots(a) ==> resolve(a + [DOT] + b) == resolve(a + b))
    && (forall a, x, b :: NoDots(a + [x]) && a != [] ==> resolve(a + [x] + [DOTDOT] + b) == resolve(a + b))
    && (forall a, b :: NoDots(a) && |a| <= 1 ==> resolve(a + [DOTDOT] + b) == resolve(a + b))
  }

  lemma {:induction false} ResolveAfter(a: seq<Text>, b: seq<Text>, done: seq<Text>)
    requires NoDots(a)
    ensures ResolveDots(a + b, done) == ResolveDots(b, done + a)
  {
    if a == [] {
      assert a + b == b && done + a == done;
    } else {
      assert a[0] in a && NoDots(a[1..]);
      assert (a + b)[1..] == a[1..] + b && done + a == (done + [a[0]]) + a[1..];
      ResolveAfter(a[1..], b, done + [a[0]]);
    }
  }

  lemma ResolveDot(seg: Text, b: seq<Text>, done: seq<Text>)
    ensures ResolveDots([seg] + b, done) ==
            ResolveDots(b, if seg == DOT then done
                           else if seg == DOTDOT then (if |done| > 1 then done[..|done| - 1] else done)
                           else done + [seg])
  {
    assert ([seg] + b)[1..] == b;
  }

  lemma AfterPlain(a: seq<Text>, seg: Text, b: seq<Text>)
    requires NoDots(a)
    ensures ResolveDots(a + [seg] + b, []) ==
            ResolveDots(b, if seg == DOT then a
                           else if seg == DOTDOT then (if |a| > 1 then a[..|a| - 1] else a)
                           else a + [seg])
    ensures ResolveDots(a + b, []) == ResolveDots(b, a)
  {
    assert a + [seg] + b == a + ([seg] + b) && [] + a == a;
    ResolveAfter(a, [seg] + b, []);
    ResolveAfter(a, b, []);
    ResolveDot(seg, b, a);
  }

  /** The loop obeys the rules. */
  lemma ResolveDotsRules()
    ensures DotRules(s => ResolveDots(s, []))
  {
    hide ResolveDots;
    forall a | NoDots(a) ensures ResolveDots(a, []) == a {
      AfterPlain(a, DOT, []);
      assert a + [] == a;
      ResolvedAll(a);
    }
    forall a, b | NoDots(a) ensures ResolveDots(a + [DOT] + b, []) == ResolveDots(a + b, []) {
      AfterPlain(a, DOT, b);
    }
    assert DOT != DOTDOT;
    forall a, x, b | NoDots(a + [x]) && a != []
      ensures ResolveDots(a + [x] + [DOTDOT] + b, []) == ResolveDots(a + b, [])
    {
      AfterPlain(a + [x], DOTDOT, b);
      assert forall y :: y in a ==> y in a + [x];
      AfterPlain(a, DOT, b);
      assert (a + [x])[..|a|] == a;
    }
    forall a, b | NoDots(a) && |a| <= 1 ensures ResolveDots(a + [DOTDOT] + b, []) == ResolveDots(a + b, []) {
      AfterPlain(a, DOTDOT, b);
    }
  }

  lemma ResolvedAll(done: seq<Text>)
    ensures ResolveDots([], done) == done
  {
  }

  lemma {:induction false} FirstDots(s: seq<Text>) returns (i: nat)
    requires !NoDots(s)
    ensures i < |s| && NoDots(s[..i]) && (s[i] == DOT || s[i] == DOTDOT)
  {
    if s[0] == DOT || s[0] == DOTDOT {
      i := 0;
    } else {
      assert s == [s[0]] + s[1..];
      i := FirstDots(s[1..]);
      assert s[..i + 1] == [s[0]] + s[1..][..i];
      i := i + 1;
    }
  }

  /** And nothing else does. */
  lemma {:induction false} DotRulesDecide(resolve: seq<Text> -> seq<Text>, s: seq<Text>)
    requires DotRules(resolve)
    ensures resolve(s) == ResolveDots(s, [])
    decreases |s|
  {
    hide ResolveDots, DotRules;
    ResolveDotsRules();
    var own := (t: seq<Text>) => ResolveDots(t, []);
    if NoDots(s) {
      FixedPath(resolve, s);
      FixedPath(own, s);
    } else {
      var i := FirstDots(s);
      var a, b := s[..i], s[i + 1..];
      var shorter := if s[i] == DOTDOT && i > 1 then a[..i - 1] + b else a + b;
      Shortens(resolve, s, i);
      Shortens(own, s, i);
      DotRulesDecide(resolve, shorter);
    }
  }

  lemma FixedPath(resolve: seq<Text> -> seq<Text>, s: seq<Text>)
    requires DotRules(resolve) && NoDots(s)
    ensures resolve(s) == s
  {
  }

  lemma Shortens(resolve: seq<Text> -> seq<Text>, s: seq<Text>, i: nat)
    requires DotRules(resolve)
    requires i < |s| && NoDots(s[..i]) && (s[i] == DOT || s[i] == DOTDOT)
    ensures resolve(s) == resolve(if s[i] == DOTDOT && i > 1 then s[..i][..i - 1] + s[i + 1..] else s[..i] + s[i + 1..])
  {
    var a, b := s[..i], s[i + 1..];
    assert s == a + [s[i]] + b;
    if s[i] == DOTDOT && i > 1 {
      var c := a[..i - 1];
      assert a == c + [a[i - 1]];
      assert NoDots(c + [a[i - 1]]) && c != [];
      assert resolve(c + [a[i - 1]] + [DOTDOT] + b) == resolve(c + b);
    }
  }

  /** Collapsing: two slashes in a row count as one, and a text without them stays. */
  ghost predicate SlashRules(collapse: Text -> Text) {
    && (forall t :: !HasDouble(t) ==> collapse(t) == t)
    && (forall a: Text, b: Text :: collapse(a + [SLASH, SLASH] + b) == collapse(a + [SLASH] + b))
  }

  lemma {:induction false} CollapseDouble(a: Text, b: Text)
    ensures Collapse(a + [SLASH, SLASH] + b) == Collapse(a + [SLASH] + b)
  {
    var x, y := a + [SLASH, SLASH] + b, a + [SLASH] + b;
    if a == [] {
      assert x[1..] == y;
    } else {
      CollapseDouble(a[1..], b);
      assert x[1..] == a[1..] + [SLASH, SLASH] + b && y[1..] == a[1..] + [SLASH] + b;
      assert x[1] == y[1];
    }
  }

  lemma CollapseRules()
    ensures SlashRules(Collapse)
  {
    forall t | !HasDouble(t) ensures Collapse(t) == t {
      NoDoubleCollapsed(t);
    }
    forall a: Text, b: Text ensures Collapse(a + [SLASH, SLASH] + b) == Collapse(a + [SLASH] + b) {
      CollapseDouble(a, b);
    }
  }

  /** These rules leave one function. */
  lemma {:induction false} SlashRulesDecide(collapse: Text -> Text, t: Text)
    requires SlashRules(collapse)
    ensures collapse(t) == Collapse(t)
    decreases |t|
  {
    hide Collapse;
    CollapseRules();
    if HasDouble(t) {
      var i :| 0 <= i < |t| - 1 && t[i] == SLASH && t[i + 1] == SLASH;
      var a, b := t[..i], t[i + 2..];
      assert t == a + [SLASH, SLASH] + b;
      SlashRulesDecide(collapse, a + [SLASH] + b);
    }
  }

  // ---- The loops ----------------------------------------------------------

  lemma {:induction false} ResolveDotsStep(segments: seq<Text>, seg: Text, done: seq<Text>)
    ensures ResolveDots(segments + [seg], done) == ResolveDots([seg], ResolveDots(segments, done))
  {
    if segments == [] {
      assert segments + [seg] == [seg];
    } else {
      assert (segments + [seg])[1..] == segments[1..] + [seg];
      var head := segments[0];
      var next := if head == DOT then done
                  else if head == DOTDOT then (if |done| > 1 then done[..|done| - 1] else done)
                  else done + [head];
      ResolveDotsStep(segments[1..], seg, next);
    }
  }

  /** One `replace("//", "/")` pass: non-overlapping, left to right. */
  function ReplaceDouble(t: Text): (r: Text)
    ensures |r| <= |t|
  {
    if |t| >= 2 && t[0] == SLASH && t[1] == SLASH then [SLASH] + ReplaceDouble(t[2..])
    else if t == [] then []
    else [t[0]] + ReplaceDouble(t[1..])
  }

  predicate HasDouble(t: Text) {
    exists i :: 0 <= i < |t| - 1 && t[i] == SLASH && t[i + 1] == SLASH
  }

  lemma {:induction false} ReplaceShrinks(t: Text)
    requires HasDouble(t)
    ensures |ReplaceDouble(t)| < |t|
  {
    if !(t[0] == SLASH && t[1] == SLASH) {
      var i :| 0 <= i < |t| - 1 && t[i] == SLASH && t[i + 1] == SLASH;
      assert t[1..][i - 1] == SLASH && t[1..][i] == SLASH;
      ReplaceShrinks(t[1..]);
    }
  }

  lemma {:induction false} NoDoubleCollapsed(t: Text)
    requires !HasDouble(t)
    ensures Collapse(t) == t
  {
    if t != [] {
      assert !HasDouble(t[1..]) by {
        forall i | 0 <= i < |t[1..]| - 1
          ensures !(t[1..][i] == SLASH && t[1..][i + 1] == SLASH)
        {
          assert !(t[i + 1] == SLASH && t[i + 2] == SLASH);
        }
      }
      NoDoubleCollapsed(t[1..]);
    }
  }

  /** Collapsing after one slash: leading slashes of the rest are absorbed. */
  lemma {:induction false} CollapseAfterSlash(a: Text, b: Text)
    requires Collapse(a) == Collapse(b)
    ensures Collapse([SLASH] + a) == Collapse([SLASH] + b)
  {
    CollapseCons(a);
    CollapseCons(b);
    CollapseHead(a);
    CollapseHead(b);
  }

  lemma CollapseCons(a: Text)
    ensures Collapse([SLASH] + a) == if a != [] && a[0] == SLASH then Collapse(a) else [SLASH] + Collapse(a)
  {
  }

  lemma {:induction false} CollapseHead(a: Text)
    ensures Collapse(a) == [] <==> a == []
    ensures a != [] ==> Collapse(a)[0] == a[0]
  {
    if |a| >= 2 && a[0] == SLASH && a[1] == SLASH {
      CollapseHead(a[1..]);
    }
  }

  lemma {:induction false} ReplaceKeepsCollapse(t: Text)
    ensures Collapse(ReplaceDouble(t)) == Collapse(t)
  {
    if |t| >= 2 && t[0] == SLASH && t[1] == SLASH {
      ReplaceKeepsCollapse(t[2..]);
      CollapseAfterSlash(ReplaceDouble(t[2..]), t[2..]);
      assert t[1..] == [SLASH] + t[2..];
    } else if t != [] {
      ReplaceKeepsCollapse(t[1..]);
      if t[0] == SLASH {
        CollapseAfterSlash(ReplaceDouble(t[1..]), t[1..]);
        assert t == [SLASH] + t[1..];
      } else {
        assert ReplaceDouble(t)[1..] == ReplaceDouble(t[1..]);
      }
    }
  }

  /** The body of `_canonical_file_uri` after decoding: two loops over the path. */
  method ResolvePath(path: Text) returns (resolved: Text)
    ensures resolved == CanonicalPath(path)
    ensures Plain(Split(resolved, SLASH)) && !HasDouble(resolved)
  {
    var parts := Split(path, SLASH);
    var segments: seq<Text> := [];
    for i := 0 to |parts|
      invariant segments == ResolveDots(parts[..i], [])
    {
      assert parts[..i + 1] == parts[..i] + [parts[i]];
      ResolveDotsStep(parts[..i], parts[i], []);
      if parts[i] == DOT {
        continue;
      }
      if parts[i] == DOTDOT {
        if |segments| > 1 {
          segments := segments[..|segments| - 1];
        }
        continue;
      }
      segments := segments + [parts[i]];
    }
    assert parts[..|parts|] == parts;
    resolved := Join(segments, SLASH);
    while HasDouble(resolved)
      invariant Collapse(resolved) == CanonicalPath(path)
      decreases |resolved|
    {
      ReplaceShrinks(resolved);
      ReplaceKeepsCollapse(resolved);
      resolved := ReplaceDouble(resolved);
    }
    NoDoubleCollapsed(resolved);
    CanonicalPathHasNoDots(path);
  }

  // ---- What raw prefix narrowing misses -----------------------------------

  /** URIs without percent escapes, queries or hosts: the path is what follows `file://`. */
  const PLAIN_PATHS := Platform((t: Text) => t, (t: Text) => if |t| >= 7 then Some(t[7..]) else None)

  const DATA: Text := [0x64]
  const SECRET: Text := [0x73]
  const DATA_DIR := FILE_SCHEME + Join([[], DATA, []], SLASH)
  const ESCAPING_DIR := FILE_SCHEME + Join([[], DATA, DOTDOT, []], SLASH)
  const SECRET_FILE := FILE_SCHEME + Join([[], SECRET], SLASH)

  lemma SampleUri(segments: seq<Text>, resolved: seq<Text>)
    requires segments != [] && forall seg :: seg in segments ==> Without(seg, SLASH)
    requires ResolveDots(segments, []) == resolved && !HasDouble(Join(resolved, SLASH))
    ensures CanonicalFileUri(PLAIN_PATHS, FILE_SCHEME + Join(segments, SLASH))
            == Some(FILE_SCHEME + Join(resolved, SLASH))
  {
    SplitJoin(segments, SLASH);
    assert (FILE_SCHEME + Join(segments, SLASH))[7..] == Join(segments, SLASH);
    NoDoubleCollapsed(Join(resolved, SLASH));
  }

  function PrefixToken(prefix: Text): Capability {
    Capability([], [], [], NO_CONSTRAINTS.(startsWith := Some(map[DATA := prefix])), [], [], 0, 0, 1,
               None, None, [], None, None, None, [])
  }

  /**
   Extending a prefix as a raw string does not narrow it as a path: this child passes
   every delegation test, yet it admits a file outside its parent's directory.
   */
  lemma RawPrefixExtensionEscapes()
    ensures var parent, child := PrefixToken(DATA_DIR), PrefixToken(ESCAPING_DIR);
            var args: Args := map[DATA := Leaf(Str(SECRET_FILE))];
            && AttenuationViolation(PLAIN_PATHS, child, parent) == None
            && Accepts(PLAIN_PATHS, child.constraints, args)
            && !Accepts(PLAIN_PATHS, parent.constraints, args)
  {
    CanonicalSamples();
    var parent, child := PrefixToken(DATA_DIR), PrefixToken(ESCAPING_DIR);
    var args: Args := map[DATA := Leaf(Str(SECRET_FILE))];
    var p, e := parent.constraints, child.constraints;
    assert HasPrefix(ESCAPING_DIR, DATA_DIR);
    assert Entries(p.startsWith) == map[DATA := DATA_DIR] && Entries(e.startsWith) == map[DATA := ESCAPING_DIR];
    assert MergedPrefixes(p, e).value == map[DATA := ESCAPING_DIR];
    assert RawMerge(p, e) == e;
    assert Normalise(PLAIN_PATHS, e) == Ok(e);
    assert PrefixMatches(PLAIN_PATHS, ESCAPING_DIR, args[DATA]);
    assert !PrefixMatches(PLAIN_PATHS, DATA_DIR, args[DATA]);
    assert PrefixesOk(PLAIN_PATHS, Entries(e.startsWith), args);
    assert !PrefixesOk(PLAIN_PATHS, Entries(p.startsWith), args) by {
      assert DATA in Entries(p.startsWith);
    }
  }

  lemma CanonicalSamples()
    ensures CanonicalFileUri(PLAIN_PATHS, DATA_DIR) == Some(DATA_DIR)
    ensures CanonicalFileUri(PLAIN_PATHS, ESCAPING_DIR) == Some(FILE_SCHEME + Join([[], []], SLASH))
    ensures CanonicalFileUri(PLAIN_PATHS, SECRET_FILE) == Some(SECRET_FILE)
    ensures HasPrefix(ESCAPING_DIR, DATA_DIR)
    ensures HasPrefix(SECRET_FILE, FILE_SCHEME + Join([[], []], SLASH)) && !HasPrefix(SECRET_FILE, DATA_DIR)
  {
    JoinCons([], [DATA, []]);
    JoinCons(DATA, [[]]);
    JoinCons([], [DATA, DOTDOT, []]);
    JoinCons(DATA, [DOTDOT, []]);
    JoinCons(DOTDOT, [[]]);
    JoinCons([], [SECRET]);
    JoinCons([], [[]]);
    assert Join([[]], SLASH) == [] && Join([SECRET], SLASH) == SECRET;
    assert Join([[], DATA, []], SLASH) == [SLASH, 0x64, SLASH];
    assert Join([[], DATA, DOTDOT, []], SLASH) == [SLASH, 0x64, SLASH, 0x2E, 0x2E, SLASH];
    assert Join([[], SECRET], SLASH) == [SLASH, 0x73];
    assert Join([[], []], SLASH) == [SLASH];
    assert SECRET_FILE[8] == 0x73 && DATA_DIR[8] == 0x64;
    ResolveData();
    ResolveEscape();
    ResolveSecret();
    SampleUri([[], DATA, []], [[], DATA, []]);
    SampleUri([[], DATA, DOTDOT, []], [[], []]);
    SampleUri([[], SECRET], [[], SECRET]);
  }

  /** "/d/": nothing to resolve. */
  lemma ResolveData()
    ensures ResolveDots([[], DATA, []], []) == [[], DATA, []]
  {
    var d, e, none: seq<Text> := [DATA], [[]], [];
    assert DOT[0] == 0x2E && DOTDOT[0] == 0x2E;
    ResolveCons([], d + e, none);
    assert [[], DATA, []] == e + (d + e) && none + e == e;
    assert ResolveDots([[], DATA, []], none) == ResolveDots(d + e, e);
    ResolveCons(DATA, e, e);
    assert ResolveDots(d + e, e) == ResolveDots(e, e + d);
    ResolveCons([], none, e + d);
    assert e + none == e;
    assert ResolveDots(e, e + d) == ResolveDots(none, e + d + e);
    assert e + d + e == [[], DATA, []];
  }

  /** "/d/../": the ".." pops the directory. */
  lemma ResolveEscape()
    ensures ResolveDots([[], DATA, DOTDOT, []], []) == [[], []]
  {
    var d, u, e: seq<Text> := [DATA], [DOTDOT], [[]];
    ResolveCons([], d + (u + e), []);
    ResolveCons(DATA, u + e, e);
    ResolveCons(DOTDOT, e, e + d);
    ResolveCons([], [], e);
    assert [[], DATA, DOTDOT, []] == e + (d + (u + e)) && [] + e == e && e + [] == e;
    assert (e + d)[..1] == e && e + e == [[], []];
  }

  lemma ResolveSecret()
    ensures ResolveDots([[], SECRET], []) == [[], SECRET]
  {
    var s, e, none: seq<Text> := [SECRET], [[]], [];
    assert DOT[0] == 0x2E && DOTDOT[0] == 0x2E;
    ResolveCons([], s, none);
    assert [[], SECRET] == e + s && none + e == e;
    ResolveCons(SECRET, none, e);
    assert s + none == s;
    assert ResolveDots(s, e) == ResolveDots(none, e + s);
  }

  lemma JoinCons(seg: Text, rest: seq<Text>)
    requires rest != []
    ensures Join([seg] + rest, SLASH) == seg + [SLASH] + Join(rest, SLASH)
  {
  }

  lemma ResolveCons(seg: Text, rest: seq<Text>, done: seq<Text>)
    ensures seg == DOTDOT && |done| > 1 ==>
              ResolveDots([seg] + rest, done) == ResolveDots(rest, done[..|done| - 1])
    ensures seg != DOT && seg != DOTDOT ==> ResolveDots([seg] + rest, done) == ResolveDots(rest, done + [seg])
    ensures ResolveDots([], done) == done
  {
  }
}
