/** The algebraic front end (pyscheme/parse_algebra.py): a regular-expression tokenizer
    and a recursive-descent parser over `+ -`, `* /` and `^` that emits the same
    list-shaped trees as the s-expression parser.

    The parser is modelled as written, including two behaviours of its loops:
    the operator symbol of a `+`/`-` or `*`/`/` chain is read once, before the loop,
    so every node of the chain carries the first operator; and every `*` or `/`
    reads two operands and keeps only the second. */
module ParseAlgebra {
  import opened Wrappers
  import opened Values
  import Text
  import Atoms
  import Seqs

  /** `Token(type, value)`: the OP, NUM, OPAREN, CPAREN and END token types. */
  datatype Token = Op(op: char) | Num(value: Value) | OParen | CParen | End

  /** What the tokenizer yields: `toks`, and then either nothing more (when `toks`
      ends with END) or the character that makes the next step raise. */
  datatype Stream = Stream(toks: seq<Token>, error: Option<char>)

  datatype SyntaxError =
    | UnexpectedCharacter(c: char)          // "Unexpected character: {!r}"
    | Expected(what: string, found: Token)  // "Expected {} but found {!r}"

  // ---------------------------------------------------------------------------
  // Tokenizer

  /** The operator class of the token pattern: `+`, `-`, `*`, `/` and `^`. */
  predicate IsOpChar(c: char)
  {
    c == '+' || c == '*' || c == '/' || c == '^' || c == '-'
  }

  /** `\w`, for the ASCII range. */
  predicate IsWordChar(c: char)
  {
    'a' <= c <= 'z' || 'A' <= c <= 'Z' || '0' <= c <= '9' || c == '_'
  }

  /** End of the whitespace run starting at `i` (see `SpaceRunEndIsRunEnd`). */
  function SpaceRunEnd(s: string, i: nat): (j: nat)
    requires i <= |s|
    ensures i <= j <= |s|
    decreases |s| - i
  {
    if i < |s| && Text.IsSpace(s[i]) then SpaceRunEnd(s, i + 1) else i
  }

  /** End of the word-character run starting at `i` (see `WordRunEndIsRunEnd`). */
  function WordRunEnd(s: string, i: nat): (j: nat)
    requires i <= |s|
    ensures i <= j <= |s|
    decreases |s| - i
  {
    if i < |s| && IsWordChar(s[i]) then WordRunEnd(s, i + 1) else i
  }

  /** The last position in `s[i..j]` holding something other than a newline (see
      `LastNonNewlineIsLast`). */
  function LastNonNewline(s: string, i: nat, j: nat): (r: Option<nat>)
    requires i <= j <= |s|
    ensures r.Some? ==> i <= r.value < j
    decreases j - i
  {
    if j == i then None
    else if s[j - 1] != '\n' then Some(j - 1)
    else LastNonNewline(s, i, j - 1)
  }

  /** `SpaceRunEnd` ends the longest run of whitespace from `i`. */
  lemma {:induction false} SpaceRunEndIsRunEnd(s: string, i: nat)
    requires i <= |s|
    ensures var j := SpaceRunEnd(s, i);
            (forall k | i <= k < j :: Text.IsSpace(s[k])) && (j == |s| || !Text.IsSpace(s[j]))
    decreases |s| - i
  {
    if i < |s| && Text.IsSpace(s[i]) {
      SpaceRunEndIsRunEnd(s, i + 1);
    }
  }

  /** `WordRunEnd` ends the longest run of word characters from `i`. */
  lemma {:induction false} WordRunEndIsRunEnd(s: string, i: nat)
    requires i <= |s|
    ensures var j := WordRunEnd(s, i);
            (forall k | i <= k < j :: IsWordChar(s[k])) && (j == |s| || !IsWordChar(s[j]))
    decreases |s| - i
  {
    if i < |s| && IsWordChar(s[i]) {
      WordRunEndIsRunEnd(s, i + 1);
    }
  }

  /** `LastNonNewline` finds the last character other than a newline, and finds none
      exactly when the range holds only newlines. */
  lemma {:induction false} LastNonNewlineIsLast(s: string, i: nat, j: nat)
    requires i <= j <= |s|
    ensures match LastNonNewline(s, i, j)
            case Some(p) => s[p] != '\n' && forall k | p < k < j :: s[k] == '\n'
            case None => forall k | i <= k < j :: s[k] == '\n'
    decreases j - i
  {
    if j > i && s[j - 1] == '\n' {
      LastNonNewlineIsLast(s, i, j - 1);
    }
  }

  predicate IsAtom(v: Value)
  {
    v.Int? || v.Float? || v.Sym?
  }

  function Cons(t: Token, st: Stream): Stream
  {
    Stream([t] + st.toks, st.error)
  }

  /** The tokens of `s` from position `i` on, following `_TOKEN_RE.finditer`: after an
      optional whitespace run comes an operator, a word, a parenthesis, or any other
      character, which is an error.  A whitespace run that reaches the end of the
      input is matched by backtracking, so its last character other than a newline
      is the error character; a run of newlines alone matches nothing.  Words become
      NUM tokens through `atom`, which `Tokenize` fixes to `Atoms.Atom`; taking it as a
      parameter lets the lemmas below reason about the scanning alone. */
  function LexFrom(s: string, i: nat, atom: string -> Value): Stream
    requires i <= |s|
    decreases |s| - i
  {
    var j := SpaceRunEnd(s, i);
    if j == |s| then
      match LastNonNewline(s, i, j)
      case Some(k) => Stream([], Some(s[k]))
      case None => Stream([End], None)
    else
      var c := s[j];
      if IsOpChar(c) then Cons(Op(c), LexFrom(s, j + 1, atom))
      else if IsWordChar(c) then
        var w := WordRunEnd(s, j);
        Cons(Num(atom(s[j..w])), LexFrom(s, w, atom))
      else if c == '(' then Cons(OParen, LexFrom(s, j + 1, atom))
      else if c == ')' then Cons(CParen, LexFrom(s, j + 1, atom))
      else Stream([], Some(c))
  }

  /** `tokenize(expr)`. */
  function Tokenize(s: string): (st: Stream)
    ensures WellFormed(st)
  {
    LexWellFormed(s, 0, Atoms.Atom);
    LexFrom(s, 0, Atoms.Atom)
  }

  /** Prefixing a token other than END keeps a stream well formed. */
  lemma ConsWellFormed(t: Token, st: Stream)
    requires WellFormed(st) && !t.End? && (t.Num? ==> IsAtom(t.value))
    ensures WellFormed(Cons(t, st))
  {
    var r := Cons(t, st);
    assert forall k | 1 <= k < |r.toks| :: r.toks[k] == st.toks[k - 1];
  }

  lemma {:induction false} LexWellFormed(s: string, i: nat, atom: string -> Value)
    requires i <= |s|
    requires forall w :: IsAtom(atom(w))
    ensures WellFormed(LexFrom(s, i, atom))
    decreases |s| - i, 1
  {
    var j := SpaceRunEnd(s, i);
    if j < |s| {
      var c := s[j];
      if IsOpChar(c) || c == '(' || c == ')' {
        LexWellFormed(s, j + 1, atom);
        ConsWellFormed(if IsOpChar(c) then Op(c) else if c == '(' then OParen else CParen, LexFrom(s, j + 1, atom));
      } else if IsWordChar(c) {
        LexWordWellFormed(s, j, atom);
      }
    }
  }

  lemma {:induction false} LexWordWellFormed(s: string, j: nat, atom: string -> Value)
    requires j < |s| && IsWordChar(s[j])
    requires forall w :: IsAtom(atom(w))
    ensures WellFormed(Cons(Num(atom(s[j..WordRunEnd(s, j)])), LexFrom(s, WordRunEnd(s, j), atom)))
    decreases |s| - j, 0
  {
    var w := WordRunEnd(s, j);
    LexWellFormed(s, w, atom);
    ConsWellFormed(Num(atom(s[j..w])), LexFrom(s, w, atom));
  }

  /** END appears at most once, last, and exactly when no error character follows;
      NUM tokens hold atoms. */
  predicate WellFormed(st: Stream)
  {
    (forall k | 0 <= k < |st.toks| :: st.toks[k].End? ==> k == |st.toks| - 1) &&
    (forall k | 0 <= k < |st.toks| :: st.toks[k].Num? ==> IsAtom(st.toks[k].value)) &&
    (st.error.None? <==> (st.toks != [] && st.toks[|st.toks| - 1].End?))
  }

  // ---------------------------------------------------------------------------
  // Parser: the specification as functions over the token stream.  A position is
  // the index of the current token; each function returns the tree it read and
  // the position after it.

  type Parsed = Result<(Value, nat), SyntaxError>

  /** `token = next(tokens)` from position `p`: the next position, or the
      tokenizer's error when the stream stops here. */
  function Next(s: Stream, p: nat): (r: Result<nat, SyntaxError>)
    requires WellFormed(s) && p < |s.toks| && !s.toks[p].End?
    ensures r.Ok? ==> r.value == p + 1 && r.value < |s.toks|
  {
    if p + 1 < |s.toks| then Ok(p + 1) else Err(UnexpectedCharacter(s.error.value))
  }

  predicate IsMulOp(t: Token)
  {
    t == Op('*') || t == Op('/')
  }

  predicate IsAddOp(t: Token)
  {
    t == Op('+') || t == Op('-')
  }

  /** `Symbol(t.value)` for an operator token. */
  function OpSymbol(t: Token): Value
  {
    if t.Op? then Sym([t.op]) else Sym([])
  }

  /** A parse tree: a NUM value, or `[Symbol(op), left, right]`. */
  predicate WellShaped(v: Value)
    decreases v
  {
    if v.List? then
      |v.items| == 3 &&
      v.items[0] in {Sym("+"), Sym("-"), Sym("*"), Sym("/"), Sym("^")} &&
      WellShaped(v.items[1]) && WellShaped(v.items[2])
    else
      IsAtom(v)
  }

  predicate Advanced(r: Parsed, s: Stream, p: nat)
  {
    r.Ok? ==> p < r.value.1 < |s.toks| && WellShaped(r.value.0)
  }

  /** `term()`. */
  function TermAt(s: Stream, p: nat): (r: Parsed)
    requires WellFormed(s) && p < |s.toks|
    ensures Advanced(r, s, p)
    decreases |s.toks| - p, 0
  {
    var t := s.toks[p];
    if t.Num? then
      match Next(s, p)
      case Err(e) => Err(e)
      case Ok(p1) => Ok((t.value, p1))
    else if t.OParen? then
      match Next(s, p)
      case Err(e) => Err(e)
      case Ok(p1) =>
        match AdditionAt(s, p1)
        case Err(e) => Err(e)
        case Ok((tree, p2)) =>
          if s.toks[p2].CParen? then
            match Next(s, p2)
            case Err(e) => Err(e)
            case Ok(p3) => Ok((tree, p3))
          else Err(Expected("')'", s.toks[p2]))
    else Err(Expected("term", t))
  }

  /** `exponentiation()`: right-recursive on `^`. */
  function ExponentiationAt(s: Stream, p: nat): (r: Parsed)
    requires WellFormed(s) && p < |s.toks|
    ensures Advanced(r, s, p)
    decreases |s.toks| - p, 1
  {
    match TermAt(s, p)
    case Err(e) => Err(e)
    case Ok((left, p1)) =>
      if s.toks[p1] == Op('^') then
        match Next(s, p1)
        case Err(e) => Err(e)
        case Ok(p2) =>
          match ExponentiationAt(s, p2)
          case Err(e) => Err(e)
          case Ok((right, p3)) => Ok((List([Sym("^"), left, right]), p3))
      else Ok((left, p1))
  }

  /** The `while` loop of `multiplication()`, with `t` the token read before it. */
  function MulLoop(s: Stream, p: nat, left: Value, t: Token): (r: Parsed)
    requires WellFormed(s) && p < |s.toks| && WellShaped(left)
    requires IsMulOp(s.toks[p]) ==> IsMulOp(t)
    ensures r.Ok? ==> p <= r.value.1 < |s.toks| && WellShaped(r.value.0)
    decreases |s.toks| - p, 2
  {
    if IsMulOp(s.toks[p]) then
      match Next(s, p)
      case Err(e) => Err(e)
      case Ok(p1) =>
        match ExponentiationAt(s, p1)
        case Err(e) => Err(e)
        case Ok((_, p2)) =>
          match ExponentiationAt(s, p2)
          case Err(e) => Err(e)
          case Ok((right, p3)) =>
            MulLoop(s, p3, List([OpSymbol(t), left, right]), t)
    else Ok((left, p))
  }

  /** `multiplication()`. */
  function MultiplicationAt(s: Stream, p: nat): (r: Parsed)
    requires WellFormed(s) && p < |s.toks|
    ensures Advanced(r, s, p)
    decreases |s.toks| - p, 3
  {
    match ExponentiationAt(s, p)
    case Err(e) => Err(e)
    case Ok((left, p1)) => MulLoop(s, p1, left, s.toks[p1])
  }

  /** The `while` loop of `addition()`, with `t` the token read before it. */
  function AddLoop(s: Stream, p: nat, left: Value, t: Token): (r: Parsed)
    requires WellFormed(s) && p < |s.toks| && WellShaped(left)
    requires IsAddOp(s.toks[p]) ==> IsAddOp(t)
    ensures r.Ok? ==> p <= r.value.1 < |s.toks| && WellShaped(r.value.0)
    decreases |s.toks| - p, 4
  {
    if IsAddOp(s.toks[p]) then
      match Next(s, p)
      case Err(e) => Err(e)
      case Ok(p1) =>
        match MultiplicationAt(s, p1)
        case Err(e) => Err(e)
        case Ok((right, p2)) =>
          AddLoop(s, p2, List([OpSymbol(t), left, right]), t)
    else Ok((left, p))
  }

  /** `addition()`. */
  function AdditionAt(s: Stream, p: nat): (r: Parsed)
    requires WellFormed(s) && p < |s.toks|
    ensures Advanced(r, s, p)
    decreases |s.toks| - p, 5
  {
    match MultiplicationAt(s, p)
    case Err(e) => Err(e)
    case Ok((left, p1)) => AddLoop(s, p1, left, s.toks[p1])
  }

  /** `parse(tokens)`: an addition that must be followed by END. */
  function ParseStream(s: Stream): (r: Result<Value, SyntaxError>)
    requires WellFormed(s)
    ensures r.Ok? ==> WellShaped(r.value)
  {
    if s.toks == [] then Err(UnexpectedCharacter(s.error.value))
    else
      match AdditionAt(s, 0)
      case Err(e) => Err(e)
      case Ok((tree, q)) =>
        if s.toks[q].End? then Ok(tree) else Err(Expected("end of input", s.toks[q]))
  }

  /** `parse_expression(s)`. */
  function ExpressionOf(s: string): Result<Value, SyntaxError>
  {
    ParseStream(Tokenize(s))
  }

  // ---------------------------------------------------------------------------
  // Parser: the closure over a token cursor, as written

  /** The `type` and `values` arguments of `match`. */
  datatype Pattern = NumType | OParenType | CParenType | OpType(values: set<char>)

  predicate Matches(t: Token, pat: Pattern)
  {
    match pat
    case NumType => t.Num?
    case OParenType => t.OParen?
    case CParenType => t.CParen?
    case OpType(values) => t.Op? && t.op in values
  }

  /** A method's result with the cursor position after it, as the functions above return it. */
  function Pack(r: Result<Value, SyntaxError>, p: nat): Parsed
  {
    if r.Ok? then Ok((r.value, p)) else Err(r.error)
  }

  /** The state of one `parse(tokens)` call: the token stream and the position of
      the current `token`. */
  class AlgebraParser {
    const stream: Stream
    var pos: nat

    ghost predicate Valid()
      reads this
    {
      WellFormed(stream) && pos < |stream.toks|
    }

    /** `token = next(tokens)`, for a stream that yields a first token. */
    constructor (s: Stream)
      requires WellFormed(s) && s.toks != []
      ensures Valid() && stream == s && pos == 0
    {
      stream, pos := s, 0;
    }

    function Current(): Token
      reads this
      requires Valid()
    {
      stream.toks[pos]
    }

    /** `match(type, values)`: on a match, advance to the next token and answer true. */
    method Match(pat: Pattern) returns (r: Result<bool, SyntaxError>)
      requires Valid()
      modifies this
      ensures Valid()
      ensures !Matches(old(Current()), pat) ==> r == Ok(false) && pos == old(pos)
      ensures Matches(old(Current()), pat) ==>
                Next(stream, old(pos)) == (if r.Ok? then Ok(pos) else Err(r.error)) &&
                (r.Ok? ==> r.value)
    {
      if Matches(Current(), pat) {
        if pos + 1 < |stream.toks| {
          pos := pos + 1;
          return Ok(true);
        }
        return Err(UnexpectedCharacter(stream.error.value));
      }
      return Ok(false);
    }

    /** `term()`. */
    method Term() returns (r: Result<Value, SyntaxError>)
      requires Valid()
      modifies this
      ensures Valid()
      ensures TermAt(stream, old(pos)) == Pack(r, pos)
      decreases |stream.toks| - pos, 0
    {
      var t := Current();
      var m := Match(NumType);
      if m.Err? {
        return Err(m.error);
      }
      if m.value {
        return Ok(t.value);
      }
      m := Match(OParenType);
      if m.Err? {
        return Err(m.error);
      }
      if m.value {
        var tree := Addition();
        if tree.Err? {
          return tree;
        }
        m := Match(CParenType);
        if m.Err? {
          return Err(m.error);
        }
        if m.value {
          return tree;
        }
        return Err(Expected("')'", Current()));
      }
      return Err(Expected("term", Current()));
    }

    /** `exponentiation()`. */
    method Exponentiation() returns (r: Result<Value, SyntaxError>)
      requires Valid()
      modifies this
      ensures Valid()
      ensures ExponentiationAt(stream, old(pos)) == Pack(r, pos)
      decreases |stream.toks| - pos, 1
    {
      var left := Term();
      if left.Err? {
        return left;
      }
      var t := Current();
      var m := Match(OpType({'^'}));
      if m.Err? {
        return Err(m.error);
      }
      if m.value {
        var right := Exponentiation();
        if right.Err? {
          return right;
        }
        return Ok(List([OpSymbol(t), left.value, right.value]));
      }
      return left;
    }

    /** `multiplication()`. */
    method Multiplication() returns (r: Result<Value, SyntaxError>)
      requires Valid()
      modifies this
      ensures Valid()
      ensures MultiplicationAt(stream, old(pos)) == Pack(r, pos)
      decreases |stream.toks| - pos, 3
    {
      var first := Exponentiation();
      if first.Err? {
        return first;
      }
      var left := first.value;
      var t := Current();
      while true
        invariant Valid() && old(pos) < pos
        invariant WellShaped(left)
        invariant IsMulOp(Current()) ==> IsMulOp(t)
        invariant MultiplicationAt(stream, old(pos)) == MulLoop(stream, pos, left, t)
        decreases |stream.toks| - pos
      {
        var m := Match(OpType({'*', '/'}));
        if m.Err? {
          return Err(m.error);
        }
        if !m.value {
          break;
        }
        var right := Exponentiation();
        if right.Err? {
          return right;
        }
        right := Exponentiation();
        if right.Err? {
          return right;
        }
        left := List([OpSymbol(t), left, right.value]);
      }
      return Ok(left);
    }

    /** `addition()`. */
    method Addition() returns (r: Result<Value, SyntaxError>)
      requires Valid()
      modifies this
      ensures Valid()
      ensures AdditionAt(stream, old(pos)) == Pack(r, pos)
      decreases |stream.toks| - pos, 5
    {
      var first := Multiplication();
      if first.Err? {
        return first;
      }
      var left := first.value;
      var t := Current();
      while true
        invariant Valid() && old(pos) < pos
        invariant WellShaped(left)
        invariant IsAddOp(Current()) ==> IsAddOp(t)
        invariant AdditionAt(stream, old(pos)) == AddLoop(stream, pos, left, t)
        decreases |stream.toks| - pos
      {
        var m := Match(OpType({'+', '-'}));
        if m.Err? {
          return Err(m.error);
        }
        if !m.value {
          break;
        }
        var right := Multiplication();
        if right.Err? {
          return right;
        }
        left := List([OpSymbol(t), left, right.value]);
      }
      return Ok(left);
    }
  }

  /** `parse(tokens)`: read an addition, then demand END. */
  method Parse(s: Stream) returns (r: Result<Value, SyntaxError>)
    requires WellFormed(s)
    ensures r == ParseStream(s)
  {
    if s.toks == [] {
      return Err(UnexpectedCharacter(s.error.value));
    }
    var parser := new AlgebraParser(s);
    var tree := parser.Addition();
    if tree.Err? {
      return tree;
    }
    if !parser.Current().End? {
      return Err(Expected("end of input", parser.Current()));
    }
    return tree;
  }

  /** `parse_expression(s)`. */
  method ParseExpression(s: string) returns (r: Result<Value, SyntaxError>)
    ensures r == ExpressionOf(s)
  {
    r := Parse(Tokenize(s));
  }

  // ---------------------------------------------------------------------------
  // Properties of the parser

  /** The tokens `op1 v1 op2 v2 ...` that continue a chain after its first operand. */
  function ChainTokens(rest: seq<(char, Value)>): (ts: seq<Token>)
    ensures |ts| == 2 * |rest|
  {
    if rest == [] then [] else [Op(rest[0].0), Num(rest[0].1)] + ChainTokens(rest[1..])
  }

  /** The left-nested tree of a chain whose every node carries the symbol `sym`. */
  function FoldWith(left: Value, rest: seq<(char, Value)>, sym: Value): Value
    decreases |rest|
  {
    if rest == [] then left else FoldWith(List([sym, left, rest[0].1]), rest[1..], sym)
  }

  predicate ChainOf(rest: seq<(char, Value)>, ops: set<char>)
  {
    forall i | 0 <= i < |rest| :: rest[i].0 in ops && IsAtom(rest[i].1)
  }

  /** A single NUM that no `^`, `*` or `/` follows is a whole multiplication. */
  lemma MultiplicationOfNum(s: Stream, p: nat)
    requires WellFormed(s) && p + 1 < |s.toks| && s.toks[p].Num?
    requires s.toks[p + 1] != Op('^') && !IsMulOp(s.toks[p + 1])
    ensures MultiplicationAt(s, p) == Ok((s.toks[p].value, p + 1))
  {
    var v := s.toks[p].value;
    assert Next(s, p) == Ok(p + 1);
    assert TermAt(s, p) == Ok((v, p + 1));
    assert ExponentiationAt(s, p) == Ok((v, p + 1));
    assert MulLoop(s, p + 1, v, s.toks[p + 1]) == Ok((v, p + 1));
  }

  lemma {:induction false} AddLoopChain(s: Stream, p: nat, left: Value, t: Token, rest: seq<(char, Value)>)
    requires WellFormed(s) && WellShaped(left)
    requires Seqs.At(s.toks, p, ChainTokens(rest)) && p + 2 * |rest| < |s.toks| && s.toks[p + 2 * |rest|] == End
    requires ChainOf(rest, {'+', '-'})
    requires rest != [] ==> IsAddOp(t)
    ensures AddLoop(s, p, left, t) == Ok((FoldWith(left, rest, OpSymbol(t)), p + 2 * |rest|))
    decreases |rest|
  {
    if rest != [] {
      var ts := ChainTokens(rest);
      assert ts == [Op(rest[0].0), Num(rest[0].1)] + ChainTokens(rest[1..]);
      Seqs.AtSplit(s.toks, p, [Op(rest[0].0), Num(rest[0].1)], ChainTokens(rest[1..]));
      Seqs.AtIndex(s.toks, p, ts, 0);
      Seqs.AtIndex(s.toks, p, ts, 1);
      assert s.toks[p + 2] != Op('^') && !IsMulOp(s.toks[p + 2]) by {
        if |rest| > 1 {
          Seqs.AtIndex(s.toks, p + 2, ChainTokens(rest[1..]), 0);
        }
      }
      MultiplicationOfNum(s, p + 1);
      var next := List([OpSymbol(t), left, rest[0].1]);
      assert WellShaped(next);
      assert ChainOf(rest[1..], {'+', '-'}) by {
        forall i | 0 <= i < |rest[1..]| ensures rest[1..][i].0 in {'+', '-'} && IsAtom(rest[1..][i].1) {
          assert rest[1..][i] == rest[i + 1];
        }
      }
      AddLoopChain(s, p + 2, next, t, rest[1..]);
    }
  }

  lemma {:induction false} ChainTokensShape(rest: seq<(char, Value)>)
    requires forall i | 0 <= i < |rest| :: IsAtom(rest[i].1)
    ensures forall k | 0 <= k < |ChainTokens(rest)| ::
              !ChainTokens(rest)[k].End? &&
              (ChainTokens(rest)[k].Num? ==> IsAtom(ChainTokens(rest)[k].value))
    decreases |rest|
  {
    if rest != [] {
      ChainTokensShape(rest[1..]);
      var ts := ChainTokens(rest);
      forall k | 2 <= k < |ts| ensures ts[k] == ChainTokens(rest[1..])[k - 2] {
      }
    }
  }

  /** In a chain of `+` and `-`, every node carries the symbol of the chain's first
      operator, which `addition()` reads once before its loop. */
  lemma AdditiveChain(v0: Value, rest: seq<(char, Value)>)
    requires IsAtom(v0) && ChainOf(rest, {'+', '-'})
    ensures var s := Stream([Num(v0)] + ChainTokens(rest) + [End], None);
            WellFormed(s) && ParseStream(s) == Ok(FoldWith(v0, rest, OpSymbol(s.toks[1])))
  {
    var s := Stream([Num(v0)] + ChainTokens(rest) + [End], None);
    AddStreamWellFormed(v0, rest);
    AddStreamTokens(v0, rest);
    MultiplicationOfNum(s, 0);
    AddLoopChain(s, 1, v0, s.toks[1], rest);
    assert AdditionAt(s, 0) == AddLoop(s, 1, v0, s.toks[1]);
  }

  lemma AddStreamWellFormed(v0: Value, rest: seq<(char, Value)>)
    requires IsAtom(v0) && ChainOf(rest, {'+', '-'})
    ensures WellFormed(Stream([Num(v0)] + ChainTokens(rest) + [End], None))
  {
    var s := Stream([Num(v0)] + ChainTokens(rest) + [End], None);
    ChainTokensShape(rest);
    assert forall k | 1 <= k < |s.toks| - 1 :: s.toks[k] == ChainTokens(rest)[k - 1];
  }

  lemma AddStreamTokens(v0: Value, rest: seq<(char, Value)>)
    ensures var ts := [Num(v0)] + ChainTokens(rest) + [End];
            ts[0] == Num(v0) && Seqs.At(ts, 1, ChainTokens(rest)) && ts[1 + 2 * |rest|] == End &&
            (rest != [] ==> ts[1] == Op(rest[0].0) && ts[2] == Num(rest[0].1))
  {
    var ts := [Num(v0)] + ChainTokens(rest) + [End];
    Seqs.AtMiddle([Num(v0)], ChainTokens(rest), [End]);
    if rest != [] {
      assert ts[1] == ChainTokens(rest)[0];
      assert ts[2] == ChainTokens(rest)[1];
    }
  }

  /** `a - b + c` reads as `[-, [-, a, b], c]`. */
  lemma SubtractThenAdd(a: Value, b: Value, c: Value)
    requires IsAtom(a) && IsAtom(b) && IsAtom(c)
    ensures ParseStream(Stream([Num(a), Op('-'), Num(b), Op('+'), Num(c), End], None))
         == Ok(List([Sym("-"), List([Sym("-"), a, b]), c]))
  {
    var rest := [('-', b), ('+', c)];
    AdditiveChain(a, rest);
    assert ChainTokens(rest) == [Op('-'), Num(b), Op('+'), Num(c)] by {
      assert rest[1..] == [('+', c)];
      assert rest[1..][1..] == [];
    }
    assert [Num(a)] + ChainTokens(rest) + [End] == [Num(a), Op('-'), Num(b), Op('+'), Num(c), End];
    assert OpSymbol(Op('-')) == Sym("-");
    assert FoldWith(a, rest, Sym("-")) == FoldWith(List([Sym("-"), a, b]), [('+', c)], Sym("-"));
    assert FoldWith(List([Sym("-"), a, b]), [('+', c)], Sym("-"))
        == FoldWith(List([Sym("-"), List([Sym("-"), a, b]), c]), [], Sym("-"));
  }

  /** `a + 3` reads as `[+, a, 3]`. */
  lemma AddSymbolAndInt()
    ensures ParseStream(Stream([Num(Sym("a")), Op('+'), Num(Int(3)), End], None))
         == Ok(List([Sym("+"), Sym("a"), Int(3)]))
  {
    var rest := [('+', Int(3))];
    AdditiveChain(Sym("a"), rest);
    assert rest[1..] == [];
    assert [Num(Sym("a"))] + ChainTokens(rest) + [End] == [Num(Sym("a")), Op('+'), Num(Int(3)), End];
  }

  /** The tokens `v0 ^ v1 ^ ... ^ vk`. */
  function PowerTokens(vs: seq<Value>): (ts: seq<Token>)
    requires vs != []
    ensures |ts| == 2 * |vs| - 1
  {
    if |vs| == 1 then [Num(vs[0])] else [Num(vs[0]), Op('^')] + PowerTokens(vs[1..])
  }

  /** The right-nested tree `[^, v0, [^, v1, ... vk]]`. */
  function RightNested(vs: seq<Value>): Value
    requires vs != []
  {
    if |vs| == 1 then vs[0] else List([Sym("^"), vs[0], RightNested(vs[1..])])
  }

  lemma {:induction false} ExponentiationChain(s: Stream, p: nat, vs: seq<Value>)
    requires vs != [] && (forall i | 0 <= i < |vs| :: IsAtom(vs[i]))
    requires WellFormed(s) && p + 2 * |vs| - 1 < |s.toks|
    requires Seqs.At(s.toks, p, PowerTokens(vs)) && s.toks[p + 2 * |vs| - 1] != Op('^')
    ensures ExponentiationAt(s, p) == Ok((RightNested(vs), p + 2 * |vs| - 1))
    decreases |vs|
  {
    var ts := PowerTokens(vs);
    Seqs.AtIndex(s.toks, p, ts, 0);
    if |vs| > 1 {
      assert ts == [Num(vs[0]), Op('^')] + PowerTokens(vs[1..]);
      Seqs.AtSplit(s.toks, p, [Num(vs[0]), Op('^')], PowerTokens(vs[1..]));
      Seqs.AtIndex(s.toks, p, ts, 1);
      ExponentiationChain(s, p + 2, vs[1..]);
    }
  }

  /** `^` is right-associative: `v0 ^ v1 ^ ... ^ vk` nests to the right. */
  lemma PowerChain(vs: seq<Value>)
    requires vs != [] && (forall i | 0 <= i < |vs| :: IsAtom(vs[i]))
    ensures var s := Stream(PowerTokens(vs) + [End], None);
            WellFormed(s) && ParseStream(s) == Ok(RightNested(vs))
  {
    var s := Stream(PowerTokens(vs) + [End], None);
    PowerStreamWellFormed(vs);
    Seqs.AtMiddle([], PowerTokens(vs), [End]);
    assert [] + PowerTokens(vs) + [End] == s.toks;
    PowerStreamParses(s, vs, 2 * |vs| - 1, RightNested(vs));
  }

  lemma PowerStreamParses(s: Stream, vs: seq<Value>, q: nat, tree: Value)
    requires vs != [] && (forall i | 0 <= i < |vs| :: IsAtom(vs[i]))
    requires q == 2 * |vs| - 1 && tree == RightNested(vs)
    requires WellFormed(s) && q < |s.toks|
    requires Seqs.At(s.toks, 0, PowerTokens(vs)) && s.toks[q] == End
    ensures ParseStream(s) == Ok(tree)
  {
    PowerStreamExponentiation(s, vs);
    ExponentiationIsWhole(s, tree, q);
  }

  lemma PowerStreamExponentiation(s: Stream, vs: seq<Value>)
    requires vs != [] && (forall i | 0 <= i < |vs| :: IsAtom(vs[i]))
    requires WellFormed(s) && 2 * |vs| - 1 < |s.toks|
    requires Seqs.At(s.toks, 0, PowerTokens(vs)) && s.toks[2 * |vs| - 1] == End
    ensures ExponentiationAt(s, 0) == Ok((RightNested(vs), 2 * |vs| - 1))
  {
    ExponentiationChain(s, 0, vs);
  }

  /** An exponentiation that reaches END is the whole expression. */
  lemma ExponentiationIsWhole(s: Stream, tree: Value, q: nat)
    requires WellFormed(s) && q < |s.toks| && s.toks[q] == End
    requires ExponentiationAt(s, 0) == Ok((tree, q))
    ensures ParseStream(s) == Ok(tree)
  {
    assert WellShaped(tree) by {
      assert MultiplicationAt(s, 0) == MulLoop(s, q, tree, End);
    }
    assert MulLoop(s, q, tree, End) == Ok((tree, q));
    assert MultiplicationAt(s, 0) == Ok((tree, q));
    assert AddLoop(s, q, tree, End) == Ok((tree, q));
    assert AdditionAt(s, 0) == Ok((tree, q));
  }

  lemma PowerStreamWellFormed(vs: seq<Value>)
    requires vs != [] && (forall i | 0 <= i < |vs| :: IsAtom(vs[i]))
    ensures WellFormed(Stream(PowerTokens(vs) + [End], None))
  {
    PowerTokensShape(vs);
    var ts := PowerTokens(vs) + [End];
    assert forall k | 0 <= k < |ts| - 1 :: ts[k] == PowerTokens(vs)[k];
  }

  lemma {:induction false} PowerTokensShape(vs: seq<Value>)
    requires vs != [] && (forall i | 0 <= i < |vs| :: IsAtom(vs[i]))
    ensures forall k | 0 <= k < |PowerTokens(vs)| ::
              !PowerTokens(vs)[k].End? &&
              (PowerTokens(vs)[k].Num? ==> IsAtom(PowerTokens(vs)[k].value))
    decreases |vs|
  {
    if |vs| > 1 {
      PowerTokensShape(vs[1..]);
      var ts := PowerTokens(vs);
      forall k | 2 <= k < |ts| ensures ts[k] == PowerTokens(vs[1..])[k - 2] {
      }
    }
  }

  /** `a ^ b ^ c` reads as `[^, a, [^, b, c]]`. */
  lemma PowerIsRightAssociative(a: Value, b: Value, c: Value)
    requires IsAtom(a) && IsAtom(b) && IsAtom(c)
    ensures ParseStream(Stream([Num(a), Op('^'), Num(b), Op('^'), Num(c), End], None))
         == Ok(List([Sym("^"), a, List([Sym("^"), b, c])]))
  {
    var vs := [a, b, c];
    PowerChain(vs);
    assert vs[1..] == [b, c] && vs[1..][1..] == [c];
    assert PowerTokens([c]) == [Num(c)];
    assert PowerTokens([b, c]) == [Num(b), Op('^'), Num(c)];
    assert PowerTokens(vs) == [Num(a), Op('^'), Num(b), Op('^'), Num(c)];
    assert PowerTokens(vs) + [End] == [Num(a), Op('^'), Num(b), Op('^'), Num(c), End];
    assert RightNested([b, c]) == List([Sym("^"), b, c]);
  }

  /** Each `*` or `/` reads two operands and keeps the second, so `a * b` with
      nothing after it runs out of terms at END. */
  lemma ProductOfTwoFails(a: Value, b: Value, op: char)
    requires IsAtom(a) && IsAtom(b) && (op == '*' || op == '/')
    ensures ParseStream(Stream([Num(a), Op(op), Num(b), End], None)) == Err(Expected("term", End))
  {
    var s := Stream([Num(a), Op(op), Num(b), End], None);
    assert WellFormed(s);
    assert ExponentiationAt(s, 0) == Ok((a, 1));
    assert ExponentiationAt(s, 2) == Ok((b, 3));
    assert TermAt(s, 3) == Err(Expected("term", End));
    assert ExponentiationAt(s, 3) == Err(Expected("term", End));
    assert MulLoop(s, 1, a, Op(op)) == Err(Expected("term", End));
    assert MultiplicationAt(s, 0) == Err(Expected("term", End));
    assert AdditionAt(s, 0) == Err(Expected("term", End));
  }

  /** ... and `a * b c` reads as `[*, a, c]`. */
  lemma ProductKeepsSecondOperand(a: Value, b: Value, c: Value, op: char)
    requires IsAtom(a) && IsAtom(b) && IsAtom(c) && (op == '*' || op == '/')
    ensures ParseStream(Stream([Num(a), Op(op), Num(b), Num(c), End], None))
         == Ok(List([Sym([op]), a, c]))
  {
    var s := Stream([Num(a), Op(op), Num(b), Num(c), End], None);
    assert WellFormed(s);
    assert ExponentiationAt(s, 0) == Ok((a, 1));
    assert ExponentiationAt(s, 2) == Ok((b, 3));
    assert ExponentiationAt(s, 3) == Ok((c, 4));
    assert MulLoop(s, 4, List([Sym([op]), a, c]), Op(op)) == Ok((List([Sym([op]), a, c]), 4));
    assert MulLoop(s, 1, a, Op(op)) == Ok((List([Sym([op]), a, c]), 4));
    assert MultiplicationAt(s, 0) == Ok((List([Sym([op]), a, c]), 4));
    assert AddLoop(s, 4, List([Sym([op]), a, c]), End) == Ok((List([Sym([op]), a, c]), 4));
    assert AdditionAt(s, 0) == Ok((List([Sym([op]), a, c]), 4));
  }

  /** Tokens left after a complete addition are an error. */
  lemma LeftoverTokens(a: Value, b: Value)
    requires IsAtom(a) && IsAtom(b)
    ensures ParseStream(Stream([Num(a), Num(b), End], None)) == Err(Expected("end of input", Num(b)))
  {
    var s := Stream([Num(a), Num(b), End], None);
    assert WellFormed(s);
    MultiplicationOfNum(s, 0);
    assert AddLoop(s, 1, a, Num(b)) == Ok((a, 1));
    assert AdditionAt(s, 0) == Ok((a, 1));
  }

  /** A parenthesis that is never closed is reported at the token found instead. */
  lemma MissingCloseParen(a: Value)
    requires IsAtom(a)
    ensures ParseStream(Stream([OParen, Num(a), End], None)) == Err(Expected("')'", End))
  {
    var s := Stream([OParen, Num(a), End], None);
    assert WellFormed(s);
    MultiplicationOfNum(s, 1);
    assert AddLoop(s, 2, a, End) == Ok((a, 2));
    assert AdditionAt(s, 1) == Ok((a, 2));
    assert TermAt(s, 0) == Err(Expected("')'", End));
    assert ExponentiationAt(s, 0) == Err(Expected("')'", End));
    assert MultiplicationAt(s, 0) == Err(Expected("')'", End));
    assert AdditionAt(s, 0) == Err(Expected("')'", End));
  }

  /** An input that starts with neither a NUM nor `(` is not a term. */
  lemma NotATerm(s: Stream)
    requires WellFormed(s) && s.toks != [] && !s.toks[0].Num? && !s.toks[0].OParen?
    ensures ParseStream(s) == Err(Expected("term", s.toks[0]))
  {
    assert TermAt(s, 0) == Err(Expected("term", s.toks[0]));
    assert ExponentiationAt(s, 0) == Err(Expected("term", s.toks[0]));
    assert MultiplicationAt(s, 0) == Err(Expected("term", s.toks[0]));
    assert AdditionAt(s, 0) == Err(Expected("term", s.toks[0]));
  }

  // ---------------------------------------------------------------------------
  // Properties of the tokenizer

  /** A token that can be written out and read back: an operator, a parenthesis, a
      non-negative int, or a symbol made of word characters that starts with no digit
      and does not spell `inf`, `infinity` or `nan`. */
  predicate Renderable(t: Token)
  {
    match t
    case Op(c) => IsOpChar(c)
    case OParen => true
    case CParen => true
    case Num(v) =>
      (v.Int? && v.i >= 0) ||
      (v.Sym? && v.name != [] && (forall k | 0 <= k < |v.name| :: IsWordChar(v.name[k])) &&
       !Atoms.IsDigit(v.name[0]) && !Atoms.IsSpecialFloat(v.name))
    case End => false
  }

  function TokenText(t: Token): (text: string)
    requires Renderable(t)
    ensures text != [] && !Text.IsSpace(text[0])
  {
    match t
    case Op(c) => [c]
    case OParen => "("
    case CParen => ")"
    case Num(v) => if v.Int? then Atoms.NatText(v.i) else v.name
  }

  /** The tokens written out separated by single spaces. */
  function Render(ts: seq<Token>): (s: string)
    requires forall k | 0 <= k < |ts| :: Renderable(ts[k])
    ensures ts != [] ==> s != [] && !Text.IsSpace(s[0])
  {
    if ts == [] then []
    else if |ts| == 1 then TokenText(ts[0])
    else TokenText(ts[0]) + " " + Render(ts[1..])
  }

  function Prepend(ts: seq<Token>, st: Stream): Stream
  {
    Stream(ts + st.toks, st.error)
  }

  lemma PrependNothing(st: Stream)
    ensures Prepend([], st) == st
  {
    assert [] + st.toks == st.toks;
  }

  /** Lexing from inside a whitespace run that is followed by more input is lexing
      from its end. */
  lemma LexSkipsSpace(s: string, i: nat, atom: string -> Value)
    requires i <= |s| && SpaceRunEnd(s, i) < |s|
    ensures LexFrom(s, i, atom) == LexFrom(s, SpaceRunEnd(s, i), atom)
  {
    var j := SpaceRunEnd(s, i);
    SpaceRunEndIsRunEnd(s, i);
    assert SpaceRunEnd(s, j) == j;
  }

  /** Lexing at a character that starts a token, after no whitespace. */
  lemma LexAtChar(s: string, i: nat, atom: string -> Value)
    requires i < |s| && !Text.IsSpace(s[i])
    ensures var c := s[i];
            (IsOpChar(c) ==> LexFrom(s, i, atom) == Cons(Op(c), LexFrom(s, i + 1, atom))) &&
            (c == '(' ==> LexFrom(s, i, atom) == Cons(OParen, LexFrom(s, i + 1, atom))) &&
            (c == ')' ==> LexFrom(s, i, atom) == Cons(CParen, LexFrom(s, i + 1, atom))) &&
            (IsWordChar(c) ==>
               LexFrom(s, i, atom) == Cons(Num(atom(s[i..WordRunEnd(s, i)])), LexFrom(s, WordRunEnd(s, i), atom)))
  {
    assert SpaceRunEnd(s, i) == i;
  }

  /** The written-out word of a NUM token reads back as its value. */
  lemma AtomOfTokenText(t: Token)
    requires Renderable(t)
    ensures ReadsBack(t, Atoms.Atom)
  {
    if t.Num? {
      AtomOfNumText(t);
    }
  }

  lemma AtomOfNumText(t: Token)
    requires Renderable(t) && t.Num?
    ensures Atoms.Atom(TokenText(t)) == t.value
  {
    if t.value.Int? {
      Atoms.AtomOfIntText(t.value.i);
      assert Atoms.IntText(t.value.i) == TokenText(t);
    } else {
      Atoms.AtomOfName(t.value.name);
    }
  }

  lemma TokenTextWordChars(t: Token)
    requires Renderable(t) && t.Num?
    ensures forall k | 0 <= k < |TokenText(t)| :: IsWordChar(TokenText(t)[k])
  {
  }

  /** A renderable token whose written-out word `atom` converts back to its value. */
  predicate ReadsBack(t: Token, atom: string -> Value)
  {
    Renderable(t) && (t.Num? ==> atom(TokenText(t)) == t.value)
  }

  /** One written-out token, followed by a character that cannot continue it, lexes
      as that token. */
  lemma LexOneToken(s: string, i: nat, t: Token, e: nat, atom: string -> Value)
    requires ReadsBack(t, atom)
    requires Seqs.At(s, i, TokenText(t)) && e == i + |TokenText(t)| && e <= |s|
    requires e < |s| ==> !IsWordChar(s[e])
    ensures LexFrom(s, i, atom) == Cons(t, LexFrom(s, e, atom))
  {
    var text := TokenText(t);
    Seqs.AtSlice(s, i, text);
    Seqs.AtIndex(s, i, text, 0);
    if t.Num? {
      LexOneWord(s, i, t, e, atom);
    } else {
      LexAtChar(s, i, atom);
    }
  }

  lemma LexOneWord(s: string, i: nat, t: Token, e: nat, atom: string -> Value)
    requires t.Num? && ReadsBack(t, atom)
    requires i <= e <= |s| && s[i..e] == TokenText(t)
    requires e < |s| ==> !IsWordChar(s[e])
    ensures LexFrom(s, i, atom) == Cons(t, LexFrom(s, e, atom))
  {
    var text := TokenText(t);
    TokenTextWordChars(t);
    forall k | i <= k < e
      ensures IsWordChar(s[k])
    {
      assert s[k] == text[k - i];
    }
    WordRunEndIs(s, i, e);
    assert s[i] == text[0];
    LexAtChar(s, i, atom);
  }

  /** A written-out token, a space and the start of the next token lex as that token
      followed by what the next one starts. */
  lemma LexTokenThenSpace(s: string, i: nat, t: Token, e: nat, atom: string -> Value)
    requires ReadsBack(t, atom)
    requires Seqs.At(s, i, TokenText(t)) && e == i + |TokenText(t)|
    requires e + 1 < |s| && s[e] == ' ' && !Text.IsSpace(s[e + 1])
    ensures LexFrom(s, i, atom) == Cons(t, LexFrom(s, e + 1, atom))
  {
    LexOneToken(s, i, t, e, atom);
    assert SpaceRunEnd(s, e + 1) == e + 1;
    LexSkipsSpace(s, e, atom);
  }

  /** Every token is renderable and its written-out word reads back through `atom`. */
  predicate AllReadBack(ts: seq<Token>, atom: string -> Value)
  {
    forall k | 0 <= k < |ts| :: Renderable(ts[k]) && ReadsBack(ts[k], atom)
  }

  lemma AllReadBackTail(ts: seq<Token>, atom: string -> Value)
    requires ts != [] && AllReadBack(ts, atom)
    ensures Renderable(ts[0]) && ReadsBack(ts[0], atom) && AllReadBack(ts[1..], atom)
  {
    assert forall k | 0 <= k < |ts| - 1 :: ts[1..][k] == ts[k + 1];
  }

  /** The position `end` is the end of the input or holds whitespace. */
  predicate EndsWord(s: string, end: nat)
  {
    end == |s| || (end < |s| && Text.IsSpace(s[end]))
  }

  /** `ts` written out token by token in `s` from `i` to `end`, single spaces between
      them, each token's word reading back through `atom`. */
  ghost predicate Written(s: string, i: nat, ts: seq<Token>, end: nat, atom: string -> Value)
    decreases |ts|
  {
    if ts == [] then end == i
    else
      ReadsBack(ts[0], atom) && Seqs.At(s, i, TokenText(ts[0])) &&
      var e := i + |TokenText(ts[0])|;
      if |ts| == 1 then end == e
      else e < |s| && s[e] == ' ' && Written(s, e + 1, ts[1..], end, atom)
  }

  /** Written-out tokens followed by whitespace or the end lex as those tokens. */
  lemma {:induction false} LexWritten(s: string, i: nat, ts: seq<Token>, end: nat, atom: string -> Value)
    requires Written(s, i, ts, end, atom) && EndsWord(s, end)
    ensures LexFrom(s, i, atom) == Prepend(ts, LexFrom(s, end, atom))
    decreases |ts|, 1
  {
    if ts == [] {
      PrependNothing(LexFrom(s, i, atom));
    } else if |ts| == 1 {
      Seqs.AtBound(s, i, TokenText(ts[0]));
      LexOneToken(s, i, ts[0], end, atom);
      PrependOne(ts, LexFrom(s, i, atom), LexFrom(s, end, atom));
    } else {
      LexWrittenMore(s, i, ts, end, atom);
    }
  }

  lemma {:induction false} LexWrittenMore(s: string, i: nat, ts: seq<Token>, end: nat, atom: string -> Value)
    requires |ts| > 1 && Written(s, i, ts, end, atom) && EndsWord(s, end)
    ensures LexFrom(s, i, atom) == Prepend(ts, LexFrom(s, end, atom))
    decreases |ts|, 0
  {
    var e := i + |TokenText(ts[0])|;
    WrittenStart(s, e + 1, ts[1..], end, atom);
    LexTokenThenSpace(s, i, ts[0], e, atom);
    LexWritten(s, e + 1, ts[1..], end, atom);
    PrependStep(ts, LexFrom(s, i, atom), LexFrom(s, e + 1, atom), LexFrom(s, end, atom));
  }

  /** Written-out tokens start with a character other than whitespace. */
  lemma WrittenStart(s: string, i: nat, ts: seq<Token>, end: nat, atom: string -> Value)
    requires ts != [] && Written(s, i, ts, end, atom)
    ensures i < |s| && !Text.IsSpace(s[i])
  {
    Seqs.AtIndex(s, i, TokenText(ts[0]), 0);
  }

  /** `Render(ts)` found in `s` at `i` is `ts` written out there. */
  lemma {:induction false} RenderIsWritten(s: string, i: nat, ts: seq<Token>, end: nat, atom: string -> Value)
    requires AllReadBack(ts, atom) && Seqs.At(s, i, Render(ts)) && end == i + |Render(ts)|
    ensures Written(s, i, ts, end, atom)
    decreases |ts|, 1
  {
    if |ts| > 1 {
      RenderIsWrittenMore(s, i, ts, end, atom);
    } else if |ts| == 1 {
      AllReadBackTail(ts, atom);
      WrittenOne(s, i, ts, Render(ts), atom);
    }
  }

  lemma {:induction false} RenderIsWrittenMore(s: string, i: nat, ts: seq<Token>, end: nat, atom: string -> Value)
    requires |ts| > 1 && AllReadBack(ts, atom) && Seqs.At(s, i, Render(ts)) && end == i + |Render(ts)|
    ensures Written(s, i, ts, end, atom)
    decreases |ts|, 0
  {
    AllReadBackTail(ts, atom);
    RenderSplit(ts);
    var text, r := TokenText(ts[0]), Render(ts[1..]);
    AtSpaceJoin(s, i, text, r);
    RenderIsWritten(s, i + |text| + 1, ts[1..], end, atom);
    WrittenCons(s, i, ts, text, end, atom);
  }

  lemma WrittenOne(s: string, i: nat, ts: seq<Token>, text: string, atom: string -> Value)
    requires |ts| == 1 && ReadsBack(ts[0], atom) && text == Render(ts)
    requires Seqs.At(s, i, text)
    ensures Written(s, i, ts, i + |text|, atom)
  {
  }

  lemma WrittenCons(s: string, i: nat, ts: seq<Token>, text: string, end: nat, atom: string -> Value)
    requires |ts| > 1 && ReadsBack(ts[0], atom) && text == TokenText(ts[0])
    requires Seqs.At(s, i, text) && i + |text| < |s| && s[i + |text|] == ' '
    requires Written(s, i + |text| + 1, ts[1..], end, atom)
    ensures Written(s, i, ts, end, atom)
  {
  }

  /** The lexer reads `Render(ts)`, found in `s` and followed by whitespace or the end,
      as the tokens `ts`. */
  lemma LexRenderedFrom(s: string, i: nat, ts: seq<Token>, end: nat, atom: string -> Value)
    requires AllReadBack(ts, atom)
    requires Seqs.At(s, i, Render(ts)) && end == i + |Render(ts)| && EndsWord(s, end)
    ensures LexFrom(s, i, atom) == Prepend(ts, LexFrom(s, end, atom))
  {
    RenderIsWritten(s, i, ts, end, atom);
    LexWritten(s, i, ts, end, atom);
  }

  lemma PrependOne(ts: seq<Token>, a: Stream, b: Stream)
    requires |ts| == 1 && a == Cons(ts[0], b)
    ensures a == Prepend(ts, b)
  {
    assert [ts[0]] == ts;
  }

  lemma PrependStep(ts: seq<Token>, a: Stream, b: Stream, c: Stream)
    requires ts != [] && a == Cons(ts[0], b) && b == Prepend(ts[1..], c)
    ensures a == Prepend(ts, c)
  {
    assert [ts[0]] + ts[1..] == ts;
    assert a.toks == [ts[0]] + (ts[1..] + c.toks);
  }

  /** Where the first of several written-out tokens ends, and what follows it. */
  lemma RenderSplit(ts: seq<Token>)
    requires |ts| > 1 && forall k | 0 <= k < |ts| :: Renderable(ts[k])
    ensures Render(ts) == TokenText(ts[0]) + (" " + Render(ts[1..]))
    ensures |Render(ts)| == |TokenText(ts[0])| + 1 + |Render(ts[1..])|
  {
  }

  /** Two texts joined by a space, found in `s`: where each part lies. */
  lemma AtSpaceJoin(s: string, i: nat, a: string, r: string)
    requires r != [] && Seqs.At(s, i, a + (" " + r))
    ensures Seqs.At(s, i, a) && Seqs.At(s, i + |a| + 1, r)
    ensures i + |a| + 1 < |s| && s[i + |a|] == ' ' && s[i + |a| + 1] == r[0]
  {
    Seqs.AtSplit(s, i, a, " " + r);
    Seqs.AtSplit(s, i + |a|, " ", r);
    Seqs.AtIndex(s, i + |a|, " ", 0);
    Seqs.AtIndex(s, i + |a| + 1, r, 0);
  }

  lemma {:induction false} WordRunEndIs(s: string, i: nat, e: nat)
    requires i <= e <= |s|
    requires forall k | i <= k < e :: IsWordChar(s[k])
    requires e < |s| ==> !IsWordChar(s[e])
    ensures WordRunEnd(s, i) == e
    decreases e - i
  {
    if i < e {
      WordRunEndIs(s, i + 1, e);
    }
  }

  /** Round trip: tokenizing written-out tokens gives them back, followed by END. */
  lemma TokenizeRender(ts: seq<Token>)
    requires forall k | 0 <= k < |ts| :: Renderable(ts[k])
    ensures Tokenize(Render(ts)) == Stream(ts + [End], None)
  {
    var s := Render(ts);
    Seqs.AtPrefix(s, []);
    assert s + [] == s;
    AllReadBackAtom(ts);
    LexRenderedFrom(s, 0, ts, |s|, Atoms.Atom);
  }

  lemma AllReadBackAtom(ts: seq<Token>)
    requires forall k | 0 <= k < |ts| :: Renderable(ts[k])
    ensures AllReadBack(ts, Atoms.Atom)
  {
    forall k | 0 <= k < |ts| ensures ReadsBack(ts[k], Atoms.Atom) {
      AtomOfTokenText(ts[k]);
    }
  }

  /** Whitespace other than a newline at the very end of the input is matched by the
      error alternative, so the tokenizer raises there instead of yielding END. */
  lemma TrailingSpaceIsUnexpected(ts: seq<Token>, w: char)
    requires forall k | 0 <= k < |ts| :: Renderable(ts[k])
    requires Text.IsSpace(w) && w != '\n'
    ensures Tokenize(Render(ts) + [w]) == Stream(ts, Some(w))
  {
    var s := Render(ts) + [w];
    var n := |Render(ts)|;
    Seqs.AtPrefix(Render(ts), [w]);
    AllReadBackAtom(ts);
    LexRenderedFrom(s, 0, ts, n, Atoms.Atom);
    LexLastSpace(s, n, Atoms.Atom);
    assert ts + [] == ts;
  }

  /** A last character that is whitespace other than a newline is the error. */
  lemma LexLastSpace(s: string, n: nat, atom: string -> Value)
    requires n + 1 == |s| && Text.IsSpace(s[n]) && s[n] != '\n'
    ensures LexFrom(s, n, atom) == Stream([], Some(s[n]))
  {
    assert SpaceRunEnd(s, n) == |s| by {
      assert SpaceRunEnd(s, n + 1) == n + 1;
    }
    assert LastNonNewline(s, n, |s|) == Some(n);
  }
}
