/**
 The bounded requirement expressions of an authorization evidence chain
 (`raucle/epaec.py`): tokens, the left-associative AND/OR grammar and its meaning.
 */
module Epaec {
  import opened Basics
  import opened Canon

  const MAX_LENGTH := 1024
  const MAX_DEPTH := 16

  const OPEN: Text := [0x28]
  const CLOSE: Text := [0x29]
  const AND: Text := [0x41, 0x4E, 0x44]
  const OR: Text := [0x4F, 0x52]
  const SPACE: CodePoint := 0x20

  datatype Error = TooLong | BadToken | ParseError | Unbalanced | DepthExceeded

  // ---- Trees --------------------------------------------------------------

  datatype Op = Conj | Disj

  /** A parsed expression: terms folded from the left, AND and OR with one precedence. */
  datatype Expr = Single(term: Term) | Chain(left: Expr, op: Op, right: Term)
  datatype Term = Name(id: Text) | Group(body: Expr)

  function OpToken(op: Op): Text {
    if op == Conj then AND else OR
  }

  function PrintExpr(e: Expr): (r: seq<Text>)
    ensures r != []
    decreases e
  {
    match e
    case Single(t) => PrintTerm(t)
    case Chain(l, op, t) => PrintExpr(l) + [OpToken(op)] + PrintTerm(t)
  }

  function PrintTerm(t: Term): (r: seq<Text>)
    ensures r != []
    decreases t
  {
    match t
    case Name(id) => [id]
    case Group(e) => [OPEN] + PrintExpr(e) + [CLOSE]
  }

  predicate Reserved(tok: Text) {
    tok == OPEN || tok == CLOSE || tok == AND || tok == OR
  }

  predicate IsOp(tok: Text) {
    tok == AND || tok == OR
  }

  /** No name is a parenthesis or an operator. */
  predicate NamesOk(e: Expr)
    decreases e
  {
    match e
    case Single(t) => TermNamesOk(t)
    case Chain(l, _, t) => NamesOk(l) && TermNamesOk(t)
  }

  predicate TermNamesOk(t: Term)
    decreases t
  {
    match t
    case Name(id) => !Reserved(id)
    case Group(e) => NamesOk(e)
  }

  /** How deeply parentheses nest. */
  function Depth(e: Expr): nat
    decreases e
  {
    match e
    case Single(t) => TermDepth(t)
    case Chain(l, _, t) => if Depth(l) > TermDepth(t) then Depth(l) else TermDepth(t)
  }

  function TermDepth(t: Term): nat
    decreases t
  {
    match t
    case Name(_) => 0
    case Group(e) => 1 + Depth(e)
  }

  /** What an expression means: a name holds exactly when it is satisfied. */
  function Denote(e: Expr, satisfied: set<Text>): bool
    decreases e
  {
    match e
    case Single(t) => DenoteTerm(t, satisfied)
    case Chain(l, op, t) =>
      if op == Conj then Denote(l, satisfied) && DenoteTerm(t, satisfied)
      else Denote(l, satisfied) || DenoteTerm(t, satisfied)
  }

  function DenoteTerm(t: Term, satisfied: set<Text>): bool
    decreases t
  {
    match t
    case Name(id) => id in satisfied
    case Group(e) => Denote(e, satisfied)
  }

  /** The language has no negation: satisfying more names never falsifies an expression. */
  lemma {:induction false} DenoteMonotone(e: Expr, a: set<Text>, b: set<Text>)
    requires a <= b && Denote(e, a)
    ensures Denote(e, b)
    decreases e
  {
    match e
    case Single(t) => DenoteTermMonotone(t, a, b);
    case Chain(l, _, t) =>
      if Denote(l, a) {
        DenoteMonotone(l, a, b);
      }
      if DenoteTerm(t, a) {
        DenoteTermMonotone(t, a, b);
      }
  }

  lemma {:induction false} DenoteTermMonotone(t: Term, a: set<Text>, b: set<Text>)
    requires a <= b && DenoteTerm(t, a)
    ensures DenoteTerm(t, b)
    decreases t
  {
    match t
    case Name(_) =>
    case Group(e) => DenoteMonotone(e, a, b);
  }

  /** Nothing holds of nothing. */
  lemma {:induction false} DenoteNothing(e: Expr)
    ensures !Denote(e, {})
    decreases e
  {
    match e
    case Single(t) => DenoteNothingTerm(t);
    case Chain(l, _, t) =>
      DenoteNothing(l);
      DenoteNothingTerm(t);
  }

  lemma {:induction false} DenoteNothingTerm(t: Term)
    ensures !DenoteTerm(t, {})
    decreases t
  {
    match t
    case Name(_) =>
    case Group(e) => DenoteNothing(e);
  }

  // ---- The parser ---------------------------------------------------------

  datatype Parsed<T> = Parsed(tree: T, next: nat)

  /** The tree `_parse_requirement` folds over, from token `pos` on. */
  function ParseExpr(tokens: seq<Text>, pos: nat, depth: nat): (r: Result<Parsed<Expr>, Error>)
    requires pos <= |tokens|
    ensures r.Ok? ==> pos < r.value.next <= |tokens|
    decreases |tokens| - pos, 1
  {
    if depth > MAX_DEPTH then Err(DepthExceeded)
    else
      var first :- ParseTerm(tokens, pos, depth);
      ParseMore(Single(first.tree), tokens, first.next, depth)
  }

  function ParseMore(left: Expr, tokens: seq<Text>, pos: nat, depth: nat): (r: Result<Parsed<Expr>, Error>)
    requires pos <= |tokens|
    ensures r.Ok? ==> pos <= r.value.next <= |tokens|
    decreases |tokens| - pos, 2
  {
    if pos < |tokens| && IsOp(tokens[pos]) then
      var op := if tokens[pos] == AND then Conj else Disj;
      var rhs :- ParseTerm(tokens, pos + 1, depth);
      ParseMore(Chain(left, op, rhs.tree), tokens, rhs.next, depth)
    else Ok(Parsed(left, pos))
  }

  function ParseTerm(tokens: seq<Text>, pos: nat, depth: nat): (r: Result<Parsed<Term>, Error>)
    requires pos <= |tokens|
    ensures r.Ok? ==> pos < r.value.next <= |tokens|
    decreases |tokens| - pos, 0
  {
    if pos == |tokens| then Err(ParseError)
    else if tokens[pos] == OPEN then
      var body :- ParseExpr(tokens, pos + 1, depth + 1);
      if body.next == |tokens| || tokens[body.next] != CLOSE then Err(Unbalanced)
      else Ok(Parsed(Group(body.tree), body.next + 1))
    else if IsOp(tokens[pos]) || tokens[pos] == CLOSE then Err(ParseError)
    else Ok(Parsed(Name(tokens[pos]), pos + 1))
  }

  /** `tokens` from `pos` on start with `p`. */
  predicate At(tokens: seq<Text>, pos: nat, p: seq<Text>) {
    pos + |p| <= |tokens| && tokens[pos..pos + |p|] == p
  }

  lemma AtSplit(tokens: seq<Text>, pos: nat, p: seq<Text>, q: seq<Text>)
    ensures At(tokens, pos, p + q) <==> At(tokens, pos, p) && At(tokens, pos + |p|, q)
  {
    if At(tokens, pos, p + q) {
      var mid := tokens[pos..pos + |p + q|];
      assert mid[..|p|] == p && mid[|p|..] == q;
    }
    if At(tokens, pos, p) && At(tokens, pos + |p|, q) {
      assert tokens[pos..pos + |p + q|] == tokens[pos..pos + |p|] + tokens[pos + |p|..pos + |p| + |q|];
    }
  }

  lemma AtOne(tokens: seq<Text>, pos: nat, tok: Text)
    ensures At(tokens, pos, [tok]) <==> pos < |tokens| && tokens[pos] == tok
  {
  }

  lemma AtThree(tokens: seq<Text>, pos: nat, p: seq<Text>, tok: Text, q: seq<Text>)
    ensures At(tokens, pos, p + [tok] + q)
            <==> && At(tokens, pos, p) && pos + |p| < |tokens| && tokens[pos + |p|] == tok
                 && At(tokens, pos + |p| + 1, q)
  {
    AtSplit(tokens, pos, p + [tok], q);
    AtSplit(tokens, pos, p, [tok]);
    AtOne(tokens, pos + |p|, tok);
    hide At;
  }

  lemma AtChain(tokens: seq<Text>, pos: nat, l: Expr, op: Op, t: Term)
    ensures |PrintExpr(Chain(l, op, t))| == |PrintExpr(l)| + 1 + |PrintTerm(t)|
    ensures var p := pos + |PrintExpr(l)|;
            At(tokens, pos, PrintExpr(Chain(l, op, t)))
            <==> At(tokens, pos, PrintExpr(l)) && p < |tokens| && tokens[p] == OpToken(op)
                 && At(tokens, p + 1, PrintTerm(t))
  {
    AtThree(tokens, pos, PrintExpr(l), OpToken(op), PrintTerm(t));
  }

  lemma AtGroup(tokens: seq<Text>, pos: nat, e: Expr)
    ensures var p := pos + 1 + |PrintExpr(e)|;
            At(tokens, pos, PrintTerm(Group(e)))
            <==> pos < |tokens| && tokens[pos] == OPEN && At(tokens, pos + 1, PrintExpr(e))
                 && p < |tokens| && tokens[p] == CLOSE
  {
    AtSplit(tokens, pos, [OPEN] + PrintExpr(e), [CLOSE]);
    AtSplit(tokens, pos, [OPEN], PrintExpr(e));
    AtOne(tokens, pos, OPEN);
    AtOne(tokens, pos + 1 + |PrintExpr(e)|, CLOSE);
  }

  /**
   Completeness: on the print of a tree the parser rebuilds exactly that tree, or
   reports the depth when some parenthesis nests too far.
   */
  lemma {:induction false} ParsePrinted(tokens: seq<Text>, pos: nat, depth: nat, e: Expr)
    requires NamesOk(e) && At(tokens, pos, PrintExpr(e))
    ensures ParseExpr(tokens, pos, depth)
            == if depth + Depth(e) <= MAX_DEPTH then ParseMore(e, tokens, pos + |PrintExpr(e)|, depth)
               else Err(DepthExceeded)
    decreases e
  {
    hide At, PrintTerm, ParseTerm;
    match e
    case Single(t) => ParsePrintedTerm(tokens, pos, depth, t);
    case Chain(l, op, t) =>
      AtChain(tokens, pos, l, op, t);
      hide ParseExpr, PrintExpr;
      ParsePrinted(tokens, pos, depth, l);
      if depth + Depth(l) <= MAX_DEPTH {
        ParsePrintedTerm(tokens, pos + |PrintExpr(l)| + 1, depth, t);
      }
  }

  lemma {:induction false} ParsePrintedTerm(tokens: seq<Text>, pos: nat, depth: nat, t: Term)
    requires TermNamesOk(t) && At(tokens, pos, PrintTerm(t))
    ensures depth <= MAX_DEPTH ==>
              ParseTerm(tokens, pos, depth)
              == if depth + TermDepth(t) <= MAX_DEPTH then Ok(Parsed(t, pos + |PrintTerm(t)|)) else Err(DepthExceeded)
    decreases t
  {
    match t
    case Name(id) => AtOne(tokens, pos, id);
    case Group(e) =>
      AtGroup(tokens, pos, e);
      hide ParseExpr;
      ParsePrinted(tokens, pos + 1, depth + 1, e);
  }

  /** Soundness: whatever the parser accepts is the print of the tree it returns. */
  lemma {:induction false} ParsedIsPrinted(tokens: seq<Text>, pos: nat, depth: nat)
    requires pos <= |tokens| && ParseExpr(tokens, pos, depth).Ok?
    ensures var p := ParseExpr(tokens, pos, depth).value;
            && At(tokens, pos, PrintExpr(p.tree)) && p.next == pos + |PrintExpr(p.tree)|
            && NamesOk(p.tree) && depth + Depth(p.tree) <= MAX_DEPTH
            && (p.next < |tokens| ==> !IsOp(tokens[p.next]))
    decreases |tokens| - pos, 1
  {
    ParsedTermIsPrinted(tokens, pos, depth);
    var first := ParseTerm(tokens, pos, depth).value;
    ParsedMoreIsPrinted(Single(first.tree), tokens, pos, first.next, depth);
  }

  lemma {:induction false} ParsedMoreIsPrinted(left: Expr, tokens: seq<Text>, start: nat, pos: nat, depth: nat)
    requires pos <= |tokens| && ParseMore(left, tokens, pos, depth).Ok?
    requires At(tokens, start, PrintExpr(left)) && pos == start + |PrintExpr(left)|
    requires NamesOk(left) && depth <= MAX_DEPTH && depth + Depth(left) <= MAX_DEPTH
    ensures var p := ParseMore(left, tokens, pos, depth).value;
            && At(tokens, start, PrintExpr(p.tree)) && p.next == start + |PrintExpr(p.tree)|
            && NamesOk(p.tree) && depth + Depth(p.tree) <= MAX_DEPTH
            && (p.next < |tokens| ==> !IsOp(tokens[p.next]))
    decreases |tokens| - pos, 2
  {
    hide At, PrintExpr, PrintTerm, ParseTerm;
    if pos < |tokens| && IsOp(tokens[pos]) {
      var op := if tokens[pos] == AND then Conj else Disj;
      ParsedTermIsPrinted(tokens, pos + 1, depth);
      var rhs := ParseTerm(tokens, pos + 1, depth).value;
      AtChain(tokens, start, left, op, rhs.tree);
      ParsedMoreIsPrinted(Chain(left, op, rhs.tree), tokens, start, rhs.next, depth);
    }
  }

  lemma {:induction false} ParsedTermIsPrinted(tokens: seq<Text>, pos: nat, depth: nat)
    requires pos <= |tokens| && depth <= MAX_DEPTH && ParseTerm(tokens, pos, depth).Ok?
    ensures var p := ParseTerm(tokens, pos, depth).value;
            && At(tokens, pos, PrintTerm(p.tree)) && p.next == pos + |PrintTerm(p.tree)|
            && TermNamesOk(p.tree) && depth + TermDepth(p.tree) <= MAX_DEPTH
    decreases |tokens| - pos, 0
  {
    if tokens[pos] == OPEN {
      ParsedIsPrinted(tokens, pos + 1, depth + 1);
      AtGroup(tokens, pos, ParseExpr(tokens, pos + 1, depth + 1).value.tree);
    } else {
      AtOne(tokens, pos, tokens[pos]);
    }
  }

  /** All tokens form one expression. */
  function ParseAll(tokens: seq<Text>): Result<Expr, Error> {
    if tokens == [] then Err(ParseError)
    else
      var p :- ParseExpr(tokens, 0, 0);
      if p.next == |tokens| then Ok(p.tree) else Err(Unbalanced)
  }

  /** `tokens` are the print of `e`, whose names are names and whose nesting is bounded. */
  predicate Prints(e: Expr, tokens: seq<Text>) {
    NamesOk(e) && Depth(e) <= MAX_DEPTH && PrintExpr(e) == tokens
  }

  /**
   The parser decides the grammar: it accepts with tree `e` exactly when the tokens are
   the print of `e`. So no token list is the print of two trees.
   */
  lemma AcceptsIffPrint(tokens: seq<Text>, e: Expr)
    ensures ParseAll(tokens) == Ok(e) <==> Prints(e, tokens)
  {
    assert tokens[0..|tokens|] == tokens;
    if Prints(e, tokens) {
      ParsePrinted(tokens, 0, 0, e);
    }
    if ParseAll(tokens) == Ok(e) {
      ParsedIsPrinted(tokens, 0, 0);
    }
  }

  /** A well-formed expression is refused only for its depth, and then says so. */
  lemma OnlyDepthRefuses(e: Expr)
    requires NamesOk(e)
    ensures ParseAll(PrintExpr(e)) == if Depth(e) <= MAX_DEPTH then Ok(e) else Err(DepthExceeded)
  {
    var tokens := PrintExpr(e);
    assert tokens[0..|tokens|] == tokens;
    ParsePrinted(tokens, 0, 0, e);
  }

  /** The value and error the parser must deliver over a satisfied set. */
  ghost predicate Delivers<T>(r: Result<Parsed<T>, Error>, meaning: (T, set<Text>) -> bool, satisfied: set<Text>,
                              value: bool, next: nat, error: Option<Error>) {
    match r
    case Ok(p) => error == None && next == p.next && value == meaning(p.tree, satisfied)
    case Err(e) => error == Some(e) && !value
  }

  /** `_parse_requirement`: evaluates while it parses, folding from the left. */
  method ParseRequirement(tokens: seq<Text>, pos: nat, depth: nat, satisfied: set<Text>)
    returns (value: bool, next: nat, error: Option<Error>)
    requires pos <= |tokens|
    ensures Delivers(ParseExpr(tokens, pos, depth), Denote, satisfied, value, next, error)
    decreases |tokens| - pos, 1
  {
    if depth > MAX_DEPTH {
      return false, pos, Some(DepthExceeded);
    }
    value, next, error := ParseTermValue(tokens, pos, depth, satisfied);
    if error.Some? {
      return false, next, error;
    }
    ghost var tree := Single(ParseTerm(tokens, pos, depth).value.tree);
    while next < |tokens| && IsOp(tokens[next])
      invariant pos < next <= |tokens| && error == None
      invariant value == Denote(tree, satisfied)
      invariant ParseExpr(tokens, pos, depth) == ParseMore(tree, tokens, next, depth)
      decreases |tokens| - next
    {
      var op := tokens[next];
      ghost var parsed := ParseTerm(tokens, next + 1, depth);
      var rhs;
      rhs, next, error := ParseTermValue(tokens, next + 1, depth, satisfied);
      if error.Some? {
        return false, next, error;
      }
      value := if op == AND then value && rhs else value || rhs;
      tree := Chain(tree, if op == AND then Conj else Disj, parsed.value.tree);
    }
  }

  /** `_parse_term`. */
  method ParseTermValue(tokens: seq<Text>, pos: nat, depth: nat, satisfied: set<Text>)
    returns (value: bool, next: nat, error: Option<Error>)
    requires pos <= |tokens|
    ensures Delivers(ParseTerm(tokens, pos, depth), DenoteTerm, satisfied, value, next, error)
    decreases |tokens| - pos, 0
  {
    if pos >= |tokens| {
      return false, pos, Some(ParseError);
    }
    var tok := tokens[pos];
    if tok == OPEN {
      value, next, error := ParseRequirement(tokens, pos + 1, depth + 1, satisfied);
      if error.Some? {
        return false, next, error;
      }
      if next >= |tokens| || tokens[next] != CLOSE {
        return false, next, Some(Unbalanced);
      }
      return value, next + 1, None;
    }
    if tok == AND || tok == OR || tok == CLOSE {
      return false, pos, Some(ParseError);
    }
    return tok in satisfied, pos + 1, None;
  }

  // ---- Tokens -------------------------------------------------------------

  /** Python's `str.isspace` and `str.isalnum` on one character. */
  datatype Chars = Chars(isSpace: CodePoint -> bool, isAlnum: CodePoint -> bool)

  predicate IsParen(c: CodePoint) {
    c == 0x28 || c == 0x29
  }

  predicate IsWord(chars: Chars, c: CodePoint) {
    chars.isAlnum(c) || c == 0x2D || c == 0x5F || c == 0x2E || c == 0x40
  }

  /** What holds of the real classes: a blank is white, letters and parentheses are not. */
  ghost predicate CharsOk(chars: Chars) {
    && chars.isSpace(SPACE)
    && (forall c :: IsParen(c) || IsWord(chars, c) ==> !chars.isSpace(c))
    && (forall c :: IsParen(c) ==> !IsWord(chars, c))
    && (forall c :: c in AND || c in OR ==> IsWord(chars, c))
  }

  /** The length of the longest run of word characters at the front. */
  function RunLength(chars: Chars, text: Text): (n: nat)
    ensures n <= |text|
    ensures forall i :: 0 <= i < n ==> IsWord(chars, text[i])
    ensures n < |text| ==> !IsWord(chars, text[n])
  {
    if text == [] || !IsWord(chars, text[0]) then 0 else 1 + RunLength(chars, text[1..])
  }

  /** The tokens of a text, or nothing when some character starts no token. */
  function Tokens(chars: Chars, text: Text): Option<seq<Text>>
    decreases |text|
  {
    if text == [] then Some([])
    else if chars.isSpace(text[0]) then Tokens(chars, text[1..])
    else if IsParen(text[0]) then
      match Tokens(chars, text[1..])
      case None => None
      case Some(rest) => Some([[text[0]]] + rest)
    else if IsWord(chars, text[0]) then
      var n := 1 + RunLength(chars, text[1..]);
      match Tokens(chars, text[n..])
      case None => None
      case Some(rest) => Some([text[..n]] + rest)
    else None
  }

  ghost function Prefixed(done: seq<Text>, rest: Option<seq<Text>>): Option<seq<Text>> {
    match rest
    case None => None
    case Some(r) => Some(done + r)
  }

  /** The inner loop of the tokenizer: where the word that starts at `i` ends. */
  method WordEnd(chars: Chars, text: Text, i: nat) returns (j: nat)
    requires i < |text| && !chars.isSpace(text[i]) && !IsParen(text[i]) && IsWord(chars, text[i])
    ensures i < j <= |text|
    ensures Tokens(chars, text[i..]) == Prefixed([text[i..j]], Tokens(chars, text[j..]))
  {
    hide Tokens, Prefixed;
    j := i;
    while j < |text| && IsWord(chars, text[j])
      invariant i <= j <= |text|
      invariant forall k :: i <= k < j ==> IsWord(chars, text[k])
      decreases |text| - j
    {
      j := j + 1;
    }
    var rest := text[i..];
    assert rest[..j - i] == text[i..j] && rest[j - i..] == text[j..];
    TokensAtWord(chars, rest, j - i);
  }

  /** `_tokenize_requirement`. */
  method TokenizeRequirement(chars: Chars, text: Text) returns (r: Result<seq<Text>, Error>)
    ensures |text| > MAX_LENGTH ==> r == Err(TooLong)
    ensures |text| <= MAX_LENGTH ==>
              r == match Tokens(chars, text) case Some(tokens) => Ok(tokens) case None => Err(BadToken)
  {
    if |text| > MAX_LENGTH {
      return Err(TooLong);
    }
    var tokens: seq<Text> := [];
    var i := 0;
    hide Tokens, Prefixed, IsWord, IsParen;
    assert text[0..] == text;
    PrefixedNone(Tokens(chars, text));
    while i < |text|
      invariant i <= |text|
      invariant Prefixed(tokens, Tokens(chars, text[i..])) == Tokens(chars, text)
      decreases |text| - i
    {
      var ch := text[i];
      ghost var rest := text[i..];
      assert rest[1..] == text[i + 1..];
      if chars.isSpace(ch) {
        TokensAtSpace(chars, rest);
        i := i + 1;
      } else if IsParen(ch) {
        TokensAtParen(chars, rest);
        PrefixedStep(tokens, [ch], Tokens(chars, text[i + 1..]));
        tokens := tokens + [[ch]];
        i := i + 1;
      } else if IsWord(chars, ch) {
        var j := WordEnd(chars, text, i);
        PrefixedStep(tokens, text[i..j], Tokens(chars, text[j..]));
        tokens := tokens + [text[i..j]];
        i := j;
      } else {
        TokensAtNone(chars, rest, tokens);
        return Err(BadToken);
      }
    }
    assert text[i..] == [];
    TokensAtEnd(chars, tokens);
    return Ok(tokens);
  }

  lemma PrefixedNone(rest: Option<seq<Text>>)
    ensures Prefixed([], rest) == rest
  {
    if rest.Some? {
      assert [] + rest.value == rest.value;
    }
  }

  lemma TokensAtSpace(chars: Chars, text: Text)
    requires text != [] && chars.isSpace(text[0])
    ensures Tokens(chars, text) == Tokens(chars, text[1..])
  {
  }

  lemma TokensAtParen(chars: Chars, text: Text)
    requires text != [] && !chars.isSpace(text[0]) && IsParen(text[0])
    ensures Tokens(chars, text) == Prefixed([[text[0]]], Tokens(chars, text[1..]))
  {
  }

  lemma TokensAtWord(chars: Chars, text: Text, n: nat)
    requires 0 < n <= |text| && !chars.isSpace(text[0]) && !IsParen(text[0])
    requires (forall k :: 0 <= k < n ==> IsWord(chars, text[k])) && (n < |text| ==> !IsWord(chars, text[n]))
    ensures Tokens(chars, text) == Prefixed([text[..n]], Tokens(chars, text[n..]))
  {
  }

  lemma TokensAtNone(chars: Chars, text: Text, done: seq<Text>)
    requires text != [] && !chars.isSpace(text[0]) && !IsParen(text[0]) && !IsWord(chars, text[0])
    ensures Prefixed(done, Tokens(chars, text)) == None
  {
  }

  lemma TokensAtEnd(chars: Chars, done: seq<Text>)
    ensures Prefixed(done, Tokens(chars, [])) == Some(done)
  {
    assert done + [] == done;
  }

  lemma PrefixedStep(done: seq<Text>, tok: Text, rest: Option<seq<Text>>)
    ensures Prefixed(done, Prefixed([tok], rest)) == Prefixed(done + [tok], rest)
  {
    if rest.Some? {
      assert done + ([tok] + rest.value) == done + [tok] + rest.value;
    }
  }

  predicate IsToken(chars: Chars, tok: Text) {
    tok == OPEN || tok == CLOSE || (tok != [] && forall i :: 0 <= i < |tok| ==> IsWord(chars, tok[i]))
  }

  function Concat(tokens: seq<Text>): Text {
    if tokens == [] then [] else tokens[0] + Concat(tokens[1..])
  }

  function WithoutSpaces(chars: Chars, text: Text): Text {
    if text == [] then []
    else (if chars.isSpace(text[0]) then [] else [text[0]]) + WithoutSpaces(chars, text[1..])
  }

  lemma WordIsNotSpace(chars: Chars, c: CodePoint)
    requires CharsOk(chars) && IsWord(chars, c)
    ensures !chars.isSpace(c)
  {
  }

  lemma {:induction false} WithoutSpacesWord(chars: Chars, text: Text, n: nat)
    requires CharsOk(chars) && n <= |text| && forall i :: 0 <= i < n ==> IsWord(chars, text[i])
    ensures WithoutSpaces(chars, text) == text[..n] + WithoutSpaces(chars, text[n..])
  {
    if n > 0 {
      WordIsNotSpace(chars, text[0]);
      hide IsWord;
      WithoutSpacesWord(chars, text[1..], n - 1);
      assert text[1..][n - 1..] == text[n..];
      assert text[..n] == [text[0]] + text[1..][..n - 1];
    } else {
      assert text[0..] == text;
    }
  }

  /** Tokens lose nothing but white space, and invent nothing. */
  lemma {:induction false} TokensKeepText(chars: Chars, text: Text)
    requires CharsOk(chars) && Tokens(chars, text).Some?
    ensures var tokens := Tokens(chars, text).value;
            Concat(tokens) == WithoutSpaces(chars, text) && forall i :: 0 <= i < |tokens| ==> IsToken(chars, tokens[i])
    decreases |text|
  {
    if text != [] {
      if chars.isSpace(text[0]) {
        TokensKeepText(chars, text[1..]);
      } else if IsParen(text[0]) {
        TokensKeepText(chars, text[1..]);
        var rest := Tokens(chars, text[1..]).value;
        assert ([[text[0]]] + rest)[1..] == rest;
      } else {
        var n := 1 + RunLength(chars, text[1..]);
        TokensKeepText(chars, text[n..]);
        WithoutSpacesWord(chars, text, n);
        var rest := Tokens(chars, text[n..]).value;
        assert ([text[..n]] + rest)[1..] == rest;
      }
    }
  }

  predicate KnownChar(chars: Chars, c: CodePoint) {
    chars.isSpace(c) || IsParen(c) || IsWord(chars, c)
  }

  /** A text has tokens exactly when every character is white, a parenthesis or a word character. */
  lemma {:induction false} TokensIff(chars: Chars, text: Text)
    ensures Tokens(chars, text).Some? <==> forall i :: 0 <= i < |text| ==> KnownChar(chars, text[i])
    decreases |text|
  {
    if text != [] {
      var n := if !chars.isSpace(text[0]) && !IsParen(text[0]) && IsWord(chars, text[0])
               then 1 + RunLength(chars, text[1..]) else 1;
      assert forall i :: 1 <= i < n ==> text[i] == text[1..][i - 1];
      TokensIff(chars, text[n..]);
      assert forall i :: n <= i < |text| ==> text[i] == text[n..][i - n];
      if KnownChar(chars, text[0]) {
        assert forall i :: 0 <= i < n ==> KnownChar(chars, text[i]);
      }
    }
  }

  /** Tokens written with one blank after each. */
  function Spaced(tokens: seq<Text>): Text {
    if tokens == [] then [] else tokens[0] + [SPACE] + Spaced(tokens[1..])
  }

  /** A token and a blank in front of a text are read as that token. */
  lemma FirstTokenRead(chars: Chars, tok: Text, tail: Text)
    requires CharsOk(chars) && IsToken(chars, tok)
    ensures Tokens(chars, tok + [SPACE] + tail) == Prefixed([tok], Tokens(chars, tail))
  {
    var text, n := tok + [SPACE] + tail, |tok|;
    assert text[..n] == tok && text[n..] == [SPACE] + tail && text[n..][1..] == tail;
    assert text[0] == tok[0] && text[n] == SPACE;
    TokensAtSpace(chars, text[n..]);
    hide Tokens;
    if tok == OPEN || tok == CLOSE {
      TokensAtParen(chars, text);
    } else {
      assert forall i :: 0 <= i < n ==> text[i] == tok[i];
      TokensAtWord(chars, text, n);
    }
  }

  /** Reading back what was written. */
  lemma {:induction false} TokensOfSpaced(chars: Chars, tokens: seq<Text>)
    requires CharsOk(chars) && forall i :: 0 <= i < |tokens| ==> IsToken(chars, tokens[i])
    ensures Tokens(chars, Spaced(tokens)) == Some(tokens)
  {
    if tokens != [] {
      hide Tokens, CharsOk;
      TokensOfSpaced(chars, tokens[1..]);
      FirstTokenRead(chars, tokens[0], Spaced(tokens[1..]));
      assert tokens == [tokens[0]] + tokens[1..];
    }
  }

  // ---- Evaluation ---------------------------------------------------------

  /** A requirement text, read completely: its tree or the error. */
  function Understand(chars: Chars, text: Text): Result<Expr, Error> {
    if |text| > MAX_LENGTH then Err(TooLong)
    else
      match Tokens(chars, text)
      case None => Err(BadToken)
      case Some(tokens) => ParseAll(tokens)
  }

  function ErrorIn<T>(r: Result<T, Error>): Option<Error> {
    if r.Err? then Some(r.error) else None
  }

  /**
   `evaluate_requirement`: the error depends on the text alone, never on what is
   satisfied, and without an error the value is the meaning of the one tree.
   */
  method EvaluateRequirement(chars: Chars, text: Text, satisfied: set<Text>) returns (value: bool, error: Option<Error>)
    ensures error == ErrorIn(Understand(chars, text))
    ensures value <==> Understand(chars, text).Ok? && Denote(Understand(chars, text).value, satisfied)
  {
    var tokens := TokenizeRequirement(chars, text);
    if tokens.Err? {
      return false, Some(tokens.error);
    }
    if tokens.value == [] {
      return false, Some(ParseError);
    }
    var next;
    value, next, error := ParseRequirement(tokens.value, 0, 0, satisfied);
    if error.Some? {
      return false, error;
    }
    if next != |tokens.value| {
      return false, Some(Unbalanced);
    }
  }

  /** Every name can be written as one word. */
  predicate Writable(chars: Chars, e: Expr) {
    forall i :: 0 <= i < |PrintExpr(e)| ==> IsToken(chars, PrintExpr(e)[i])
  }

  /** Print, write, tokenize and parse: every bounded tree comes back. */
  lemma WrittenTreeIsUnderstood(chars: Chars, e: Expr)
    requires CharsOk(chars) && NamesOk(e) && Writable(chars, e) && |Spaced(PrintExpr(e))| <= MAX_LENGTH
    ensures Understand(chars, Spaced(PrintExpr(e))) == if Depth(e) <= MAX_DEPTH then Ok(e) else Err(DepthExceeded)
  {
    TokensOfSpaced(chars, PrintExpr(e));
    OnlyDepthRefuses(e);
  }

  /** Whatever is understood spells its tree, character for character, white space aside. */
  lemma UnderstoodIsWritten(chars: Chars, text: Text)
    requires CharsOk(chars) && Understand(chars, text).Ok?
    ensures var e := Understand(chars, text).value;
            NamesOk(e) && Depth(e) <= MAX_DEPTH && WithoutSpaces(chars, text) == Concat(PrintExpr(e))
  {
    TokensKeepText(chars, text);
    AcceptsIffPrint(Tokens(chars, text).value, Understand(chars, text).value);
  }

  /** AND does not bind tighter: `a OR b AND c` is `(a OR b) AND c`, so `a` alone does not satisfy it. */
  lemma NoPrecedence(a: Text, b: Text, c: Text)
    requires !Reserved(a) && !Reserved(b) && !Reserved(c) && a != c
    ensures ParseAll([a, OR, b, AND, c]) == Ok(Chain(Chain(Single(Name(a)), Disj, Name(b)), Conj, Name(c)))
    ensures !Denote(ParseAll([a, OR, b, AND, c]).value, {a})
  {
    var ea: Expr := Single(Name(a));
    var eab := Chain(ea, Disj, Name(b));
    var e := Chain(eab, Conj, Name(c));
    assert PrintExpr(ea) == [a] && NamesOk(ea) && Depth(ea) == 0;
    assert PrintExpr(eab) == [a] + [OR] + [b] && NamesOk(eab) && Depth(eab) == 0;
    assert PrintExpr(e) == [a] + [OR] + [b] + [AND] + [c] == [a, OR, b, AND, c];
    assert NamesOk(e) && Depth(e) == 0 && Prints(e, [a, OR, b, AND, c]);
    AcceptsIffPrint([a, OR, b, AND, c], e);
  }
}
