/** The s-expression front end (pyscheme/parse_scheme.py): a tokenizer that pads
    parentheses with spaces and splits on whitespace, and a recursive parser with one
    token of lookahead that reads the first expression of the token stream. */
module ParseScheme {
  import opened Wrappers
  import opened Values
  import Text
  import Atoms
  import Seqs

  datatype SyntaxError = UnexpectedEOF | UnexpectedClose

  // ---------------------------------------------------------------------------
  // Tokenizer

  /** `code.replace('(', ' ( ').replace(')', ' ) ')`. */
  function PadParens(code: string): string
  {
    if code == [] then []
    else (if code[0] == '(' then " ( " else if code[0] == ')' then " ) " else [code[0]]) + PadParens(code[1..])
  }

  /** The tokens of `code`: its padded text split on whitespace. */
  function Tokenize(code: string): seq<string>
  {
    Text.SplitWhitespace(PadParens(code))
  }

  /** `tokenize_file`: the tokens of each line in turn. */
  function TokenizeFile(lines: seq<string>): seq<string>
  {
    if lines == [] then [] else Tokenize(lines[0]) + TokenizeFile(lines[1..])
  }

  /** A token as the tokenizer produces them: non-empty, free of whitespace, and
      either a lone parenthesis or free of parentheses. */
  predicate GoodToken(t: string)
  {
    t != [] && Text.NoSpace(t) && (t == "(" || t == ")" || ('(' !in t && ')' !in t))
  }

  lemma {:induction false} PadParensAppend(a: string, b: string)
    ensures PadParens(a + b) == PadParens(a) + PadParens(b)
    decreases |a|
  {
    if a == [] {
      assert a + b == b;
    } else {
      assert (a + b)[0] == a[0];
      assert (a + b)[1..] == a[1..] + b;
      PadParensAppend(a[1..], b);
    }
  }

  lemma {:induction false} PadParensFree(t: string)
    requires '(' !in t && ')' !in t
    ensures PadParens(t) == t
    decreases |t|
  {
    if t != [] {
      PadParensFree(t[1..]);
      assert t == [t[0]] + t[1..];
    }
  }

  /** A padded parenthesis is a token of its own. */
  lemma SplitPaddedParen(p: char, x: string, cur: string)
    requires Text.NoSpace(cur) && !Text.IsSpace(p)
    ensures Text.SplitWhitespaceFrom([' ', p, ' '] + x, cur) == Text.Flush(cur) + [[p]] + Text.SplitWhitespaceFrom(x, [])
  {
    var s := [' ', p, ' '] + x;
    assert s[0] == ' ' && s[1..] == [p, ' '] + x;
    assert Text.SplitWhitespaceFrom(s, cur) == Text.Flush(cur) + Text.SplitWhitespaceFrom([p, ' '] + x, []);
    var s1 := [p, ' '] + x;
    assert s1[0] == p && s1[1..] == [' '] + x;
    assert [] + [p] == [p];
    assert Text.SplitWhitespaceFrom(s1, []) == Text.SplitWhitespaceFrom([' '] + x, [p]);
    var s2 := [' '] + x;
    assert s2[0] == ' ' && s2[1..] == x;
    assert Text.SplitWhitespaceFrom(s2, [p]) == [[p]] + Text.SplitWhitespaceFrom(x, []);
  }

  /** Every token is well formed: parentheses are always tokens of their own and no
      token is empty or holds whitespace. */
  lemma {:induction false} TokensFromGood(code: string, cur: string)
    requires Text.NoSpace(cur) && '(' !in cur && ')' !in cur
    ensures forall t <- Text.SplitWhitespaceFrom(PadParens(code), cur) :: GoodToken(t)
    decreases |code|
  {
    if code != [] {
      var c := code[0];
      var x := PadParens(code[1..]);
      if c == '(' || c == ')' {
        assert PadParens(code) == [' ', c, ' '] + x;
        SplitPaddedParen(c, x, cur);
        TokensFromGood(code[1..], []);
      } else {
        assert PadParens(code) == [c] + x;
        assert ([c] + x)[1..] == x;
        if Text.IsSpace(c) {
          TokensFromGood(code[1..], []);
        } else {
          TokensFromGood(code[1..], cur + [c]);
        }
      }
    }
  }

  lemma TokenizeGood(code: string)
    ensures forall t <- Tokenize(code) :: GoodToken(t)
  {
    TokensFromGood(code, []);
  }

  /** Padding only adds whitespace. */
  lemma {:induction false} PadParensRemoveSpace(code: string)
    ensures Text.RemoveSpace(PadParens(code)) == Text.RemoveSpace(code)
    decreases |code|
  {
    if code != [] {
      var c := code[0];
      var x := PadParens(code[1..]);
      PadParensRemoveSpace(code[1..]);
      if c == '(' || c == ')' {
        assert !Text.IsSpace(c);
        assert Text.RemoveSpace(code) == [c] + Text.RemoveSpace(code[1..]);
        var s := [' ', c, ' '] + x;
        assert PadParens(code) == s;
        assert s[0] == ' ' && s[1..] == [c, ' '] + x;
        var s1 := [c, ' '] + x;
        assert s1[0] == c && s1[1..] == [' '] + x;
        var s2 := [' '] + x;
        assert s2[0] == ' ' && s2[1..] == x;
        assert Text.RemoveSpace(s2) == Text.RemoveSpace(x);
        assert Text.RemoveSpace(s1) == [c] + Text.RemoveSpace(s2);
        assert Text.RemoveSpace(s) == Text.RemoveSpace(s1);
      } else {
        assert PadParens(code) == [c] + x;
        assert ([c] + x)[0] == c && ([c] + x)[1..] == x;
      }
    }
  }

  /** Tokenizing loses nothing but whitespace: the tokens, concatenated, are the
      input with its whitespace removed. */
  lemma TokenizeKeepsText(code: string)
    ensures Text.Concat(Tokenize(code)) == Text.RemoveSpace(code)
  {
    Text.SplitWhitespaceConcat(PadParens(code));
    PadParensRemoveSpace(code);
  }

  /** Tokenizing a text is tokenizing its lines one after the other. */
  lemma {:induction false} TokenizeLines(lines: seq<string>)
    ensures Tokenize(Text.Join(lines, '\n')) == TokenizeFile(lines)
    decreases |lines|
  {
    if |lines| == 1 {
      assert TokenizeFile(lines[1..]) == [];
    } else if |lines| > 1 {
      var rest := Text.Join(lines[1..], '\n');
      PadParensAppend(lines[0] + ['\n'], rest);
      PadParensAppend(lines[0], ['\n']);
      assert PadParens(['\n']) == ['\n'];
      Text.SplitWhitespaceFromSpace(PadParens(lines[0]), '\n', PadParens(rest), []);
      TokenizeLines(lines[1..]);
    }
  }

  /** A well-formed token on its own tokenizes to itself. */
  lemma TokenizeOne(t: string)
    requires GoodToken(t)
    ensures Tokenize(t) == [t]
  {
    if t == "(" || t == ")" {
      assert PadParens(t) == [' ', t[0], ' '] + [];
      SplitPaddedParen(t[0], [], []);
      assert [t[0]] == t;
    } else {
      PadParensFree(t);
      Text.SplitWhitespaceFromWord(t, [], []);
      assert t + [] == t && [] + t == t;
    }
  }

  /** A well-formed token, a space, then more text: the token comes first. */
  lemma TokenizeCons(t: string, j: string)
    requires GoodToken(t)
    ensures Tokenize(t + ([' '] + j)) == [t] + Tokenize(j)
  {
    var s2 := [' '] + PadParens(j);
    PadParensAppend(t, [' '] + j);
    PadParensAppend([' '], j);
    assert PadParens([' ']) == [' '];
    assert PadParens(t + ([' '] + j)) == PadParens(t) + s2;
    assert s2[0] == ' ' && s2[1..] == PadParens(j);
    assert Text.SplitWhitespaceFrom(s2, []) == Tokenize(j);
    if t == "(" || t == ")" {
      SplitParenThenRest(t, s2);
    } else {
      SplitWordThenSpace(t, s2);
    }
  }

  lemma SplitParenThenRest(t: string, s2: string)
    requires t == "(" || t == ")"
    ensures Text.SplitWhitespaceFrom(PadParens(t) + s2, []) == [t] + Text.SplitWhitespaceFrom(s2, [])
  {
    assert PadParens(t) == [' ', t[0], ' '];
    assert [t[0]] == t;
    SplitPaddedParen(t[0], s2, []);
  }

  lemma SplitWordThenSpace(t: string, s2: string)
    requires GoodToken(t) && t != "(" && t != ")"
    requires s2 != [] && s2[0] == ' '
    ensures Text.SplitWhitespaceFrom(PadParens(t) + s2, []) == [t] + Text.SplitWhitespaceFrom(s2[1..], [])
  {
    PadParensFree(t);
    Text.SplitWhitespaceFromWord(t, s2, []);
    assert [] + t == t;
  }

  /** Tokenizing the space-separated tokens gives them back. */
  lemma {:induction false} TokenizeJoin(ts: seq<string>)
    requires forall t <- ts :: GoodToken(t)
    ensures Tokenize(Text.Join(ts, ' ')) == ts
    decreases |ts|
  {
    if ts != [] {
      assert ts[0] in ts;
      if |ts| == 1 {
        assert Text.Join(ts, ' ') == ts[0];
        TokenizeOne(ts[0]);
      } else {
        var j := Text.Join(ts[1..], ' ');
        assert Text.Join(ts, ' ') == ts[0] + ([' '] + j);
        TokenizeCons(ts[0], j);
        TokenizeJoin(ts[1..]);
        assert ts == [ts[0]] + ts[1..];
      }
    }
  }

  // ---------------------------------------------------------------------------
  // Parser: the specification as functions over the token sequence

  /** The expression starting at token `pos` and the position after it. */
  function ParseAt(ts: seq<string>, pos: nat, atom: string -> Value): (r: Result<(Value, nat), SyntaxError>)
    requires pos <= |ts|
    ensures r.Ok? ==> pos < r.value.1 <= |ts|
    decreases |ts| - pos, 0
  {
    if pos == |ts| then Err(UnexpectedEOF)
    else if ts[pos] == "(" then ParseListAt(ts, pos + 1, [], atom)
    else if ts[pos] == ")" then Err(UnexpectedClose)
    else Ok((atom(ts[pos]), pos + 1))
  }

  /** The rest of a list whose items `acc` are already read, up to its `)`. */
  function ParseListAt(ts: seq<string>, pos: nat, acc: seq<Value>, atom: string -> Value): (r: Result<(Value, nat), SyntaxError>)
    requires pos <= |ts|
    ensures r.Ok? ==> pos < r.value.1 <= |ts|
    decreases |ts| - pos, 1
  {
    if pos < |ts| && ts[pos] == ")" then Ok((List(acc), pos + 1))
    else
      match ParseAt(ts, pos, atom)
      case Err(e) => Err(e)
      case Ok((v, p)) => ParseListAt(ts, p, acc + [v], atom)
  }

  /** The first expression of a token sequence. */
  function FirstExpression(ts: seq<string>): Result<Value, SyntaxError>
  {
    match ParseAt(ts, 0, Atoms.Atom)
    case Ok((v, _)) => Ok(v)
    case Err(e) => Err(e)
  }

  // ---------------------------------------------------------------------------
  // Parser: the iterator and the recursive descent as written

  /** An iterator over `tokens` that also shows the next token without consuming it. */
  class LookaheadIterator {
    const tokens: seq<string>
    /** Tokens consumed so far. */
    var pos: nat
    /** Tokens consumed by the second, one-ahead copy of the iterator. */
    var ahead: nat
    var lookahead: Option<string>

    /** `lookahead` is the next unconsumed token, or None once all are consumed. */
    ghost predicate Valid()
      reads this
    {
      pos <= |tokens| &&
      ahead == (if pos < |tokens| then pos + 1 else |tokens|) &&
      lookahead == (if pos < |tokens| then Some(tokens[pos]) else None)
    }

    constructor (ts: seq<string>)
      ensures Valid() && tokens == ts && pos == 0
    {
      tokens, pos, ahead, lookahead := ts, 0, 0, None;
      new;
      Advance();
    }

    /** `_advance`: read one token ahead, or None at the end. */
    method Advance()
      modifies this
      ensures pos == old(pos)
      ensures old(ahead) < |tokens| ==> lookahead == Some(tokens[old(ahead)]) && ahead == old(ahead) + 1
      ensures old(ahead) >= |tokens| ==> lookahead == None && ahead == old(ahead)
    {
      if ahead < |tokens| {
        lookahead := Some(tokens[ahead]);
        ahead := ahead + 1;
      } else {
        lookahead := None;
      }
    }

    /** `__next__`, with `next(ts, None)`'s default: the next token, None at the end. */
    method Next() returns (t: Option<string>)
      requires Valid()
      modifies this
      ensures Valid()
      ensures old(pos) < |tokens| ==> t == Some(tokens[old(pos)]) && pos == old(pos) + 1
      ensures old(pos) == |tokens| ==> t == None && pos == old(pos)
    {
      Advance();
      if pos < |tokens| {
        t := Some(tokens[pos]);
        pos := pos + 1;
      } else {
        t := None;
      }
    }
  }

  /** `parse_internal`: reads one expression from the iterator. */
  method ParseInternal(ts: LookaheadIterator) returns (r: Result<Value, SyntaxError>)
    requires ts.Valid()
    modifies ts
    ensures ts.Valid()
    ensures ParseAt(ts.tokens, old(ts.pos), Atoms.Atom) == (if r.Ok? then Ok((r.value, ts.pos)) else Err(r.error))
    decreases |ts.tokens| - ts.pos
  {
    var t := ts.Next();
    if t.None? {
      return Err(UnexpectedEOF);
    }
    if t.value == "(" {
      var result: seq<Value> := [];
      while ts.lookahead != Some(")")
        invariant ts.Valid() && old(ts.pos) < ts.pos
        invariant ParseAt(ts.tokens, old(ts.pos), Atoms.Atom) == ParseListAt(ts.tokens, ts.pos, result, Atoms.Atom)
        decreases |ts.tokens| - ts.pos
      {
        ghost var p0 := ts.pos;
        ParseListAtStep(ts.tokens, p0, result, Atoms.Atom);
        var x := ParseInternal(ts);
        if x.Err? {
          return Err(x.error);
        }
        result := result + [x.value];
      }
      var _ := ts.Next();
      return Ok(List(result));
    } else if t.value == ")" {
      return Err(UnexpectedClose);
    } else {
      return Ok(Atoms.Atom(t.value));
    }
  }

  /** `parse`: the first expression of the token sequence. */
  method Parse(tokens: seq<string>) returns (r: Result<Value, SyntaxError>)
    ensures r == FirstExpression(tokens)
  {
    var ts := new LookaheadIterator(tokens);
    r := ParseInternal(ts);
  }

  /** `parse_expression`: tokenize, then read the first expression. */
  method ParseExpression(s: string) returns (r: Result<Value, SyntaxError>)
    ensures r == FirstExpression(Tokenize(s))
  {
    r := Parse(Tokenize(s));
  }

  // ---------------------------------------------------------------------------
  // Properties of the parser

  /** Only the first expression is read: tokens after it never change the result. */
  lemma {:induction false} ParseAtIgnoresRest(ts: seq<string>, more: seq<string>, pos: nat, atom: string -> Value)
    requires pos <= |ts| && ParseAt(ts, pos, atom).Ok?
    ensures ParseAt(ts + more, pos, atom) == ParseAt(ts, pos, atom)
    decreases |ts| - pos, 0
  {
    assert (ts + more)[pos] == ts[pos];
    if ts[pos] == "(" {
      ParseListAtIgnoresRest(ts, more, pos + 1, [], atom);
    }
  }

  lemma {:induction false} ParseListAtIgnoresRest(ts: seq<string>, more: seq<string>, pos: nat, acc: seq<Value>, atom: string -> Value)
    requires pos <= |ts| && ParseListAt(ts, pos, acc, atom).Ok?
    ensures ParseListAt(ts + more, pos, acc, atom) == ParseListAt(ts, pos, acc, atom)
    decreases |ts| - pos, 1
  {
    if pos < |ts| && ts[pos] == ")" {
      assert (ts + more)[pos] == ts[pos];
    } else {
      ParseAtIgnoresRest(ts, more, pos, atom);
      var (v, p) := ParseAt(ts, pos, atom).value;
      if pos < |ts| {
        assert (ts + more)[pos] == ts[pos];
      }
      ParseListAtIgnoresRest(ts, more, p, acc + [v], atom);
    }
  }

  lemma FirstExpressionIgnoresRest(ts: seq<string>, more: seq<string>)
    requires FirstExpression(ts).Ok?
    ensures FirstExpression(ts + more) == FirstExpression(ts)
  {
    ParseAtIgnoresRest(ts, more, 0, Atoms.Atom);
  }

  /** Empty input, or input that ends inside a list, is 'unexpected EOF'. */
  lemma {:induction false} ParseListAtAtEnd(ts: seq<string>, pos: nat, acc: seq<Value>, atom: string -> Value)
    requires pos <= |ts|
    requires forall k | pos <= k < |ts| :: ts[k] != ")"
    ensures ParseListAt(ts, pos, acc, atom) == Err(UnexpectedEOF)
    decreases |ts| - pos
  {
    if pos == |ts| {
    } else if ts[pos] == "(" {
      ParseListAtAtEnd(ts, pos + 1, [], atom);
    } else {
      ParseListAtAtEnd(ts, pos + 1, acc + [atom(ts[pos])], atom);
    }
  }

  /** A list that is never closed ends in 'unexpected EOF'. */
  lemma UnclosedIsEOF(ts: seq<string>)
    requires ts != [] && ts[0] == "("
    requires forall k | 0 <= k < |ts| :: ts[k] != ")"
    ensures FirstExpression(ts) == Err(UnexpectedEOF)
  {
    ParseListAtAtEnd(ts, 1, [], Atoms.Atom);
  }

  /** A `)` where an expression is expected is 'unexpected )'. */
  lemma StrayCloseIsError(ts: seq<string>)
    requires ts != [] && ts[0] == ")"
    ensures FirstExpression(ts) == Err(UnexpectedClose)
  {
  }

  /** `()` is the empty list, whatever follows it. */
  lemma EmptyListParses(more: seq<string>)
    ensures FirstExpression(["(", ")"] + more) == Ok(List([]))
  {
    var ts := ["(", ")"] + more;
    assert ts[0] == "(" && ts[1] == ")";
    assert ParseListAt(ts, 1, [], Atoms.Atom) == Ok((List([]), 2));
    assert ParseAt(ts, 0, Atoms.Atom) == Ok((List([]), 2));
  }

  // ---------------------------------------------------------------------------
  // Round trip through a printer

  /** A value the printer can write out as tokens: ints, symbols that form a single
      token, and lists of those. */
  predicate Printable(v: Value)
    decreases v
  {
    match v
    case Int(_) => true
    case Sym(n) => GoodToken(n) && n != "(" && n != ")"
    case List(xs) => forall i | 0 <= i < |xs| :: Printable(xs[i])
    case _ => false
  }

  /** Every symbol in `v` reads back as itself rather than as a number. */
  predicate SymbolsReadBack(v: Value)
    decreases v
  {
    match v
    case Sym(n) => Atoms.Atom(n) == v
    case List(xs) => forall i | 0 <= i < |xs| :: SymbolsReadBack(xs[i])
    case _ => true
  }

  /** The tokens that write out a value. */
  function TokensOf(v: Value): (ts: seq<string>)
    requires Printable(v)
    ensures ts != [] && ts[0] != ")"
    decreases v, 1
  {
    match v
    case Int(i) => [Atoms.IntText(i)]
    case Sym(n) => [n]
    case List(xs) => ["("] + ItemsTokens(v, 0) + [")"]
  }

  function ItemsTokens(v: Value, i: nat): seq<string>
    requires v.List? && Printable(v) && i <= |v.items|
    decreases v, 0, |v.items| - i
  {
    if i == |v.items| then [] else TokensOf(v.items[i]) + ItemsTokens(v, i + 1)
  }

  /** The text of a value in s-expression syntax. */
  function Unparse(v: Value): string
    requires Printable(v)
  {
    Text.Join(TokensOf(v), ' ')
  }

  lemma {:induction false} TokensOfGood(v: Value)
    requires Printable(v)
    ensures forall t <- TokensOf(v) :: GoodToken(t)
    decreases v, 1
  {
    match v
    case Int(i) =>
      var s := Atoms.IntText(i);
      Atoms.IntTextShape(i);
      assert forall k | 0 <= k < |s| :: s[k] == '-' || Atoms.IsDigit(s[k]) by {
        forall k | 0 <= k < |s| ensures s[k] == '-' || Atoms.IsDigit(s[k]) {
          if i < 0 && k > 0 {
            assert s[k] == s[1..][k - 1];
          }
        }
      }
    case Sym(n) =>
    case List(xs) => ItemsTokensGood(v, 0);
  }

  lemma {:induction false} ItemsTokensGood(v: Value, i: nat)
    requires v.List? && Printable(v) && i <= |v.items|
    ensures forall t <- ItemsTokens(v, i) :: GoodToken(t)
    decreases v, 0, |v.items| - i
  {
    if i < |v.items| {
      TokensOfGood(v.items[i]);
      ItemsTokensGood(v, i + 1);
    }
  }

  /** Every token of `v` that is an atom converts back, through `atom`, to the int or
      symbol it was written from. */
  predicate ReadsBack(v: Value, atom: string -> Value)
    requires Printable(v)
    decreases v
  {
    match v
    case Int(i) => atom(Atoms.IntText(i)) == v
    case Sym(n) => atom(n) == v
    case List(xs) => forall i | 0 <= i < |xs| :: ReadsBack(xs[i], atom)
  }

  lemma {:induction false} PrintableReadsBack(v: Value)
    requires Printable(v) && SymbolsReadBack(v)
    ensures ReadsBack(v, Atoms.Atom)
    decreases v
  {
    match v
    case Int(i) => Atoms.AtomOfIntText(i);
    case Sym(n) =>
    case List(xs) =>
      forall i | 0 <= i < |xs|
        ensures ReadsBack(xs[i], Atoms.Atom)
      {
        assert SymbolsReadBack(xs[i]);
        PrintableReadsBack(xs[i]);
      }
  }

  /** Reading the tokens of a printable value at any position gives the value back. */
  lemma {:induction false} ParseTokensOf(v: Value, ts: seq<string>, pos: nat, atom: string -> Value)
    requires Printable(v) && ReadsBack(v, atom)
    requires Seqs.At(ts, pos, TokensOf(v))
    ensures pos + |TokensOf(v)| <= |ts|
    ensures ParseAt(ts, pos, atom) == Ok((v, pos + |TokensOf(v)|))
    decreases v, 1
  {
    Seqs.AtBound(ts, pos, TokensOf(v));
    if v.List? {
      ParseListTokensOf(v, ts, pos, atom);
    }
  }

  lemma {:induction false} ParseListTokensOf(v: Value, ts: seq<string>, pos: nat, atom: string -> Value)
    requires v.List? && Printable(v) && ReadsBack(v, atom)
    requires Seqs.At(ts, pos, TokensOf(v))
    ensures pos + |TokensOf(v)| <= |ts|
    ensures ParseAt(ts, pos, atom) == Ok((v, pos + |TokensOf(v)|))
    decreases v, 0, |v.items| + 1
  {
    var closed := ItemsTokens(v, 0) + [")"];
    assert TokensOf(v) == ["("] + closed;
    Seqs.AtSplit(ts, pos, ["("], closed);
    Seqs.AtBound(ts, pos, TokensOf(v));
    ParseItemsTokens(v, 0, ts, pos + 1, [], atom);
    assert [] + v.items[0..] == v.items;
  }

  /** Reading the tokens of the items from `i` on, then `)`, closes the list. */
  lemma {:induction false} ParseItemsTokens(v: Value, i: nat, ts: seq<string>, pos: nat, acc: seq<Value>, atom: string -> Value)
    requires v.List? && Printable(v) && ReadsBack(v, atom) && i <= |v.items|
    requires Seqs.At(ts, pos, ItemsTokens(v, i) + [")"])
    ensures pos + |ItemsTokens(v, i)| + 1 <= |ts|
    ensures ParseListAt(ts, pos, acc, atom) == Ok((List(acc + v.items[i..]), pos + |ItemsTokens(v, i)| + 1))
    decreases v, 0, |v.items| - i
  {
    Seqs.AtBound(ts, pos, ItemsTokens(v, i) + [")"]);
    if i == |v.items| {
      assert ItemsTokens(v, i) + [")"] == [")"];
      assert acc + v.items[i..] == acc;
    } else {
      var x := v.items[i];
      var p := pos + |TokensOf(x)|;
      var n := |ItemsTokens(v, i + 1)|;
      assert ItemsTokens(v, i) + [")"] == TokensOf(x) + (ItemsTokens(v, i + 1) + [")"]);
      Seqs.AtSplit(ts, pos, TokensOf(x), ItemsTokens(v, i + 1) + [")"]);
      ParseTokensOf(x, ts, pos, atom);
      ParseItemsTokens(v, i + 1, ts, p, acc + [x], atom);
      Seqs.SuffixCons(v.items, i);
      ParseListAtChain(ts, pos, acc, atom, x, p, v.items[i + 1..], v.items[i..], p + n + 1);
    }
  }

  /** Reading an item that is not `)` moves it into the list read so far. */
  lemma ParseListAtStep(ts: seq<string>, pos: nat, acc: seq<Value>, atom: string -> Value)
    requires pos <= |ts| && !(pos < |ts| && ts[pos] == ")")
    ensures ParseAt(ts, pos, atom).Err? ==> ParseListAt(ts, pos, acc, atom) == Err(ParseAt(ts, pos, atom).error)
    ensures ParseAt(ts, pos, atom).Ok? ==>
            var (x, p) := ParseAt(ts, pos, atom).value;
            ParseListAt(ts, pos, acc, atom) == ParseListAt(ts, p, acc + [x], atom)
  {
  }

  /** An item read at `pos`, then the rest of the list read after it, is the list read at `pos`. */
  lemma ParseListAtChain(ts: seq<string>, pos: nat, acc: seq<Value>, atom: string -> Value,
                         x: Value, p: nat, items: seq<Value>, all: seq<Value>, end: nat)
    requires pos < |ts| && ts[pos] != ")"
    requires ParseAt(ts, pos, atom) == Ok((x, p))
    requires ParseListAt(ts, p, acc + [x], atom) == Ok((List(acc + [x] + items), end))
    requires all == [x] + items
    ensures ParseListAt(ts, pos, acc, atom) == Ok((List(acc + all), end))
  {
    ParseListAtStep(ts, pos, acc, atom);
    assert acc + [x] + items == acc + all;
  }

  /** Round trip: reading the printed text of a printable value gives the value. */
  lemma ParseUnparse(v: Value)
    requires Printable(v) && SymbolsReadBack(v)
    ensures FirstExpression(Tokenize(Unparse(v))) == Ok(v)
  {
    TokensOfGood(v);
    TokenizeJoin(TokensOf(v));
    var ts := TokensOf(v);
    Seqs.AtSuffix(ts, 0);
    assert ts[0..] == ts;
    PrintableReadsBack(v);
    ParseTokensOf(v, ts, 0, Atoms.Atom);
  }
}
