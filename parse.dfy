/** The front-end dispatcher (pyscheme/parse.py): the regular expression `\(.*\)$`,
    matched at the start of the input in multi-line mode, sends the text to the
    s-expression parser; everything else goes to the algebraic parser. */
module Parse {
  import opened Wrappers
  import opened Values
  import Text
  import Atoms
  import ParseScheme
  import ParseAlgebra

  /** The error of whichever front end read the text. */
  datatype ParseError =
    | SchemeError(scheme: ParseScheme.SyntaxError)
    | AlgebraError(algebra: ParseAlgebra.SyntaxError)

  /** Index of the first newline of `s`, or `|s|` when it has none. */
  function FirstLineEnd(s: string): (n: nat)
    ensures n <= |s| && (n < |s| ==> s[n] == '\n')
    ensures forall k | 0 <= k < n :: s[k] != '\n'
  {
    if s == [] || s[0] == '\n' then 0
    else
      var n := 1 + FirstLineEnd(s[1..]);
      assert forall k | 1 <= k < n :: s[k] == s[1..][k - 1];
      n
  }

  /** The test the dispatcher makes: the first line is at least two characters long,
      starts with `(` and ends with `)`. */
  predicate IsSchemeLike(s: string)
  {
    var n := FirstLineEnd(s);
    2 <= n && s[0] == '(' && s[n - 1] == ')'
  }

  /** What `re.match(r'\(.*\)$', s, re.MULTILINE)` accepts: a `(` at the start, a run
      of characters other than newline, a `)`, and then the end of the text or of a
      line. */
  ghost predicate RegexMatches(s: string)
  {
    exists j | 1 <= j < |s| ::
      s[0] == '(' && s[j] == ')' && (forall k | 1 <= k < j :: s[k] != '\n') &&
      (j + 1 == |s| || s[j + 1] == '\n')
  }

  /** The dispatcher's test is exactly the regular expression. */
  lemma SchemeLikeIsRegexMatch(s: string)
    ensures IsSchemeLike(s) <==> RegexMatches(s)
  {
    var n := FirstLineEnd(s);
    if IsSchemeLike(s) {
      var j := n - 1;
      assert 1 <= j < |s| && s[0] == '(' && s[j] == ')' && (forall k | 1 <= k < j :: s[k] != '\n');
    }
    if RegexMatches(s) {
      var j :| 1 <= j < |s| && s[0] == '(' && s[j] == ')' && (forall k | 1 <= k < j :: s[k] != '\n') &&
                (j + 1 == |s| || s[j + 1] == '\n');
      assert forall k | 0 <= k <= j :: s[k] != '\n';
      assert n == j + 1;
    }
  }

  function FromScheme(r: Result<Value, ParseScheme.SyntaxError>): Result<Value, ParseError>
  {
    match r
    case Ok(v) => Ok(v)
    case Err(e) => Err(SchemeError(e))
  }

  function FromAlgebra(r: Result<Value, ParseAlgebra.SyntaxError>): Result<Value, ParseError>
  {
    match r
    case Ok(v) => Ok(v)
    case Err(e) => Err(AlgebraError(e))
  }

  /** `parse_expression(s)` as a function. */
  function ExpressionOf(s: string): Result<Value, ParseError>
  {
    if IsSchemeLike(s) then FromScheme(ParseScheme.FirstExpression(ParseScheme.Tokenize(s)))
    else FromAlgebra(ParseAlgebra.ExpressionOf(s))
  }

  /** `parse_expression(s)`: one test, then one of the two front ends. */
  method ParseExpression(s: string) returns (r: Result<Value, ParseError>)
    ensures IsSchemeLike(s) ==> r == FromScheme(ParseScheme.FirstExpression(ParseScheme.Tokenize(s)))
    ensures !IsSchemeLike(s) ==> r == FromAlgebra(ParseAlgebra.ExpressionOf(s))
  {
    if IsSchemeLike(s) {
      var x := ParseScheme.ParseExpression(s);
      r := FromScheme(x);
    } else {
      var x := ParseAlgebra.ParseExpression(s);
      r := FromAlgebra(x);
    }
  }

  // ---------------------------------------------------------------------------
  // Which front end reads what

  /** Only the first line decides: whatever follows the first newline is never looked at. */
  lemma FirstLineDecides(line: string, rest: string)
    requires '\n' !in line
    ensures IsSchemeLike(line + "\n" + rest) <==> IsSchemeLike(line)
  {
    var s := line + "\n" + rest;
    OneLine(line);
    assert s[|line|] == '\n';
    assert forall k | 0 <= k < |line| :: s[k] == line[k];
    assert FirstLineEnd(s) == |line|;
  }

  /** On a single line the test looks at the first and the last character only. */
  lemma OneLine(s: string)
    requires '\n' !in s
    ensures FirstLineEnd(s) == |s|
    ensures IsSchemeLike(s) <==> (2 <= |s| && s[0] == '(' && s[|s| - 1] == ')')
  {
    assert forall k | 0 <= k < |s| :: s[k] in s;
  }

  /** A list written out in s-expression syntax is sent to the s-expression parser and
      read back as itself. */
  lemma DispatchUnparse(v: Value)
    requires v.List? && ParseScheme.Printable(v) && ParseScheme.SymbolsReadBack(v)
    ensures ExpressionOf(ParseScheme.Unparse(v)) == Ok(v)
  {
    var ts := ParseScheme.TokensOf(v);
    var s := ParseScheme.Unparse(v);
    assert ts == ["("] + ParseScheme.ItemsTokens(v, 0) + [")"];
    Text.JoinFirst(ts, ' ');
    Text.JoinLast(ts, ' ');
    ParseScheme.TokensOfGood(v);
    forall t <- ts ensures '\n' !in t {
      assert ParseScheme.GoodToken(t);
      assert forall k | 0 <= k < |t| :: t[k] != '\n' by {
        assert Text.IsSpace('\n');
      }
    }
    Text.JoinAvoids(ts, ' ', '\n');
    OneLine(s);
    ParseScheme.ParseUnparse(v);
  }

  /** The characters of a written-out algebra token. */
  lemma TokenTextChars(t: ParseAlgebra.Token)
    requires ParseAlgebra.Renderable(t)
    ensures var w := ParseAlgebra.TokenText(t);
            '\n' !in w && (w[0] == '(' <==> t.OParen?) && (w[|w| - 1] == ')' <==> t.CParen?)
  {
    var w := ParseAlgebra.TokenText(t);
    if t.Num? {
      ParseAlgebra.TokenTextWordChars(t);
      assert ParseAlgebra.IsWordChar(w[0]) && ParseAlgebra.IsWordChar(w[|w| - 1]);
      assert forall k | 0 <= k < |w| :: w[k] != '\n';
    }
  }

  /** Written-out algebra tokens: a single line whose first character is that of the
      first token and whose last is that of the last token. */
  lemma {:induction false} RenderShape(ts: seq<ParseAlgebra.Token>)
    requires ts != [] && forall k | 0 <= k < |ts| :: ParseAlgebra.Renderable(ts[k])
    ensures var r := ParseAlgebra.Render(ts);
            var a, z := ParseAlgebra.TokenText(ts[0]), ParseAlgebra.TokenText(ts[|ts| - 1]);
            '\n' !in r && r[0] == a[0] && r[|r| - 1] == z[|z| - 1]
    decreases |ts|, 1
  {
    TokenTextChars(ts[0]);
    if |ts| > 1 {
      RenderShapeMore(ts);
    }
  }

  lemma {:induction false} RenderShapeMore(ts: seq<ParseAlgebra.Token>)
    requires |ts| > 1 && forall k | 0 <= k < |ts| :: ParseAlgebra.Renderable(ts[k])
    ensures var r := ParseAlgebra.Render(ts);
            var a, z := ParseAlgebra.TokenText(ts[0]), ParseAlgebra.TokenText(ts[|ts| - 1]);
            '\n' !in r && r[0] == a[0] && r[|r| - 1] == z[|z| - 1]
    decreases |ts|, 0
  {
    var rest := ts[1..];
    RenderShape(rest);
    assert rest[|rest| - 1] == ts[|ts| - 1];
    TokenTextChars(ts[0]);
    ParseAlgebra.RenderSplit(ts);
    SpacedShape(ParseAlgebra.TokenText(ts[0]), ParseAlgebra.Render(rest));
  }

  /** Two one-line texts joined by a space make one line, from the first one's first
      character to the second one's last. */
  lemma SpacedShape(a: string, r: string)
    requires a != [] && r != [] && '\n' !in a && '\n' !in r
    ensures var s := a + (" " + r);
            '\n' !in s && s[0] == a[0] && s[|s| - 1] == r[|r| - 1]
  {
    var s := a + (" " + r);
    assert forall k | 0 <= k < |s| :: s[k] != '\n' by {
      forall k | 0 <= k < |s|
        ensures s[k] != '\n'
      {
        if k < |a| {
          assert s[k] == a[k];
        } else if k > |a| {
          assert s[k] == r[k - |a| - 1];
        }
      }
    }
  }

  /** Written-out algebra is sent to the s-expression parser exactly when it starts
      with `(` and ends with `)`, as `(a + 3) * (b + 5)` does. */
  lemma RenderedIsSchemeLike(ts: seq<ParseAlgebra.Token>)
    requires forall k | 0 <= k < |ts| :: ParseAlgebra.Renderable(ts[k])
    ensures IsSchemeLike(ParseAlgebra.Render(ts)) <==> (ts != [] && ts[0].OParen? && ts[|ts| - 1].CParen?)
  {
    if ts != [] {
      RenderShape(ts);
      TokenTextChars(ts[0]);
      TokenTextChars(ts[|ts| - 1]);
      OneLine(ParseAlgebra.Render(ts));
      if |ts| == 1 {
        assert ParseAlgebra.Render(ts) == ParseAlgebra.TokenText(ts[0]);
      } else {
        ParseAlgebra.RenderSplit(ts);
      }
    }
  }

  /** Every other written-out algebra is read by the algebraic parser, from its tokens. */
  lemma DispatchRender(ts: seq<ParseAlgebra.Token>)
    requires forall k | 0 <= k < |ts| :: ParseAlgebra.Renderable(ts[k])
    requires !(ts != [] && ts[0].OParen? && ts[|ts| - 1].CParen?)
    ensures ParseAlgebra.WellFormed(ParseAlgebra.Stream(ts + [ParseAlgebra.End], None))
    ensures ExpressionOf(ParseAlgebra.Render(ts)) ==
            FromAlgebra(ParseAlgebra.ParseStream(ParseAlgebra.Stream(ts + [ParseAlgebra.End], None)))
  {
    RenderedIsSchemeLike(ts);
    ParseAlgebra.TokenizeRender(ts);
  }

  /** `(- zFoo 1)` and `zFoo - 1`: a prefix s-expression and the infix algebra for the
      same `+` or `-` of a name and a non-negative int, each written the way its printer
      spaces it, read as the same tree through the two front ends. */
  lemma FrontEndsAgree(c: char, name: string, i: nat)
    requires c == '+' || c == '-'
    requires ParseAlgebra.Renderable(ParseAlgebra.Num(Sym(name)))
    ensures var tree := List([Sym([c]), Sym(name), Int(i)]);
            ParseScheme.Printable(tree) &&
            ExpressionOf(ParseScheme.Unparse(tree)) == Ok(tree) &&
            ExpressionOf(ParseAlgebra.Render([ParseAlgebra.Num(Sym(name)), ParseAlgebra.Op(c), ParseAlgebra.Num(Int(i))])) == Ok(tree)
  {
    var tree := List([Sym([c]), Sym(name), Int(i)]);
    SchemeTreeReadsBack(c, name, i, tree);
    DispatchUnparse(tree);
    AlgebraTree(c, name, i, tree, [ParseAlgebra.Num(Sym(name)), ParseAlgebra.Op(c), ParseAlgebra.Num(Int(i))]);
  }

  lemma SchemeTreeReadsBack(c: char, name: string, i: nat, tree: Value)
    requires c == '+' || c == '-'
    requires ParseAlgebra.Renderable(ParseAlgebra.Num(Sym(name)))
    requires tree == List([Sym([c]), Sym(name), Int(i)])
    ensures ParseScheme.Printable(tree) && ParseScheme.SymbolsReadBack(tree)
  {
    OperatorReadsBack(c);
    NameReadsBack(name);
    assert ParseScheme.Printable(Int(i)) && ParseScheme.SymbolsReadBack(Int(i));
    ThreeReadBack(Sym([c]), Sym(name), Int(i));
  }

  lemma ThreeReadBack(a: Value, b: Value, d: Value)
    requires ParseScheme.Printable(a) && ParseScheme.SymbolsReadBack(a)
    requires ParseScheme.Printable(b) && ParseScheme.SymbolsReadBack(b)
    requires ParseScheme.Printable(d) && ParseScheme.SymbolsReadBack(d)
    ensures ParseScheme.Printable(List([a, b, d])) && ParseScheme.SymbolsReadBack(List([a, b, d]))
  {
    var xs := [a, b, d];
    assert forall k | 0 <= k < 3 :: xs[k] == a || xs[k] == b || xs[k] == d;
  }

  lemma OperatorReadsBack(c: char)
    requires c == '+' || c == '-'
    ensures ParseScheme.Printable(Sym([c])) && ParseScheme.SymbolsReadBack(Sym([c]))
  {
    Atoms.AtomOfOneChar(c);
  }

  lemma NameReadsBack(name: string)
    requires ParseAlgebra.Renderable(ParseAlgebra.Num(Sym(name)))
    ensures ParseScheme.Printable(Sym(name)) && ParseScheme.SymbolsReadBack(Sym(name))
  {
    assert forall k | 0 <= k < |name| :: ParseAlgebra.IsWordChar(name[k]);
    assert forall k | 0 <= k < |name| :: !Text.IsSpace(name[k]) && name[k] != '(' && name[k] != ')';
    Atoms.AtomOfName(name);
  }

  lemma AlgebraTree(c: char, name: string, i: nat, tree: Value, ts: seq<ParseAlgebra.Token>)
    requires c == '+' || c == '-'
    requires ParseAlgebra.Renderable(ParseAlgebra.Num(Sym(name)))
    requires tree == List([Sym([c]), Sym(name), Int(i)])
    requires ts == [ParseAlgebra.Num(Sym(name)), ParseAlgebra.Op(c), ParseAlgebra.Num(Int(i))]
    ensures ExpressionOf(ParseAlgebra.Render(ts)) == Ok(tree)
  {
    assert forall k | 0 <= k < |ts| :: ParseAlgebra.Renderable(ts[k]);
    var rest := [(c, Int(i))];
    assert ParseAlgebra.ChainTokens(rest) == [ParseAlgebra.Op(c), ParseAlgebra.Num(Int(i))];
    assert [ParseAlgebra.Num(Sym(name))] + ParseAlgebra.ChainTokens(rest) + [ParseAlgebra.End] == ts + [ParseAlgebra.End];
    ParseAlgebra.AdditiveChain(Sym(name), rest);
    DispatchRender(ts);
  }
}
