# startables core, modelled in Dafny

This project models the core of the `startables` repository in Dafny and proves properties of the model. The core has four parts.

- **pyscheme**, a small Scheme interpreter used for expression cells:
  - the `atom` conversion and the s-expression tokenizer and reader (`parse_scheme`);
  - the algebraic-expression tokenizer and precedence-climbing parser (`parse_algebra`);
  - the dispatcher that chooses between the two (`parse`);
  - the evaluator with its caching, listener-notifying `Environment` (`core`);
  - the list and integer procedures of the standard environment (`special_forms`).
- **units**: unit conversions (identity, scale, affine) and the custom unit policy built from them.
- **tables**: the CSV block reader (`read_csv`) and the `TableBundle` store.
- **startables**:
  - column metadata;
  - destination sanitising and column-specification checks of `Table`;
  - `Bundle.pop_tables`;
  - the expression-cell helpers;
  - the separator repair of the CSV table-block reader.

## Modelling choices

**Files and modules.** Each source file becomes one Dafny module. The modules are `Atoms`, `ParseScheme`, `ParseAlgebra`, `Parse`, `Values`, `Builtins`, `Core`, `SpecialForms`, `Units`, `Store`, `ReadCsv` and `Startables`. Three shared modules support them:
- `Wrappers` holds `Option` and `Result`;
- `Text` models Python's `str.split`, `join`, `strip` and `isspace`;
- `Seqs` holds facts about subsequences.

**Pure code as functions, imperative code as methods.**
- Code that works by recursion or only computes a value is written as functions:
  - the recursive readers and parsers;
  - `evaluate`;
  - the unit conversions;
  - the validators.
- Code that updates state step by step is written as methods:
  - the lookahead iterator and the algebra parser's cursor (classes);
  - the `Environment` arena (class `Core.Environments`);
  - the `Table` and `Bundle` classes;
  - the loops of `make_table` and `read_file_csv`.

  Each method is proved equal to the specification function, and the properties are proved as lemmas about that function.

**CSV reader, as written.** `make_table` splits data rows on `;` whatever the separator (see "## Findings"). The reader pipeline (`ReadCsv.MakeTable`, `ReadCsv.TokenOf`, `ReadCsv.ReadFileCsv`, `ReadCsv.ReadBundleFromCsv`) follows the code as written. `ReadCsv.TableOf` is the corrected table reader, which splits rows on the table's own separator. The two agree for the default separator `;` (`ReadCsv.DefaultSeparatorAgrees`).

**Environments.** Environments live in an arena: a sequence of scopes, where a parent always precedes its children. A scope holds its parent's index, its definitions, its value cache and the indices of its listeners. Evaluation passes the arena along and is bounded by a `fuel` count.

**Child registration, as intended.** In CPython a child is never notified by its parent, because the `weakref.WeakSet` entry for the bound method `self._handle_update` dies as soon as `__init__` returns (see "## Findings"). The working model instead follows the intended design: `Core.NewChild` adds every new scope to its parent's listener set. Every scope creation goes through `Core.NewChild`: `Core.Apply`, `Core.Lookup`, `Core.Environments.NewEnvironment`, `Core.Environments.Evaluate` and `SpecialForms.RootScopes`. So `Core.DefineClears`, `Core.Environments.Define` and `Core.Environments.HandleUpdate` also empty the caches of descendant scopes, where CPython's children keep their stale caches. `Core.NewChildAsWritten` and `Core.StaleChildAsWritten` model the behaviour as written.

**Integers and floats.**
- Integers are unbounded, as Python's are.
- A float token is kept as its literal text, so floating-point arithmetic is out of scope. It is reported as `Unmodelled`, which is distinct from every Python exception.
- Unit conversions work on exact reals.

**Algebraic parser, as written.** The parser is modelled as written, with its quirks:
- a chain of `+`/`-` (or `*`/`/`) uses the symbol of the operator read before the loop for every node;
- each `*` or `/` parses two operands and keeps only the second (`ProductKeepsSecondOperand`);
- trailing whitespace other than a newline is an "unexpected character" error, because the optional-whitespace prefix of the token pattern gives back its match.

So `a - b + c` builds `[-, [-, a, b], c]`, and `a * b c` builds `[*, a, c]`. This is not ordinary arithmetic, but it is what the code does.

## Model

| member | source | states |
|---|---|---|
| Atoms.Atom | pyscheme/atoms.py:8-16 | every token becomes an int, a float or a Symbol, tried in that order |
| Atoms.IsIntText | pyscheme/atoms.py:10-11 | the texts `int()` accepts: surrounding whitespace, an optional sign, digits with single `_` separators; `Atoms.AtomOfIntText` shows every printed int is one |
| Atoms.IntValue | pyscheme/atoms.py:10-11 | the value `int()` gives such a text, separators skipped and the sign applied; `Atoms.AtomOfIntText` proves `int(str(n)) == n` |
| Atoms.IsFloatText | pyscheme/atoms.py:13-14 | the texts `float()` accepts: a decimal literal with optional exponent, or `inf`, `infinity`, `nan` in any case; `Atoms.IntTextIsFloatText` and `Atoms.NoDigitNoDecimal` relate it to ints and digits |
| Atoms.AtomOfIntText | pyscheme/atoms.py:10-11 | `int(str(n)) == n`, so the printed form of any int reads back as that int |
| Atoms.IntTextIsFloatText | pyscheme/atoms.py:10-14 | every text `int()` accepts is also a float literal, and `atom` still yields the int because `int` is tried first |
| Atoms.NoDigitNoDecimal | pyscheme/atoms.py:13-14 | a text with no digit is never a decimal literal for `float()` |
| Atoms.AtomWithoutDigits | pyscheme/atoms.py:8-16 | a token with no digit that is not `inf`, `infinity` or `nan` becomes the Symbol of its own text |
| Atoms.AtomOfOneChar | pyscheme/atoms.py:8-16 | a single character that is neither a digit nor whitespace becomes a Symbol |
| Atoms.AtomOfName | pyscheme/atoms.py:15-16 | a name that starts with no digit, sign or point and is not a special float becomes a Symbol |
| ParseScheme.PadParensAppend | pyscheme/parse_scheme.py:44 | padding the parentheses distributes over concatenation |
| ParseScheme.PadParens | pyscheme/parse_scheme.py:44 | each parenthesis is surrounded by spaces and every other character kept; `ParseScheme.PadParensRemoveSpace` proves it only adds whitespace |
| ParseScheme.Tokenize | pyscheme/parse_scheme.py:36-44 | the tokens of a text; `ParseScheme.TokenizeGood` and `ParseScheme.TokenizeKeepsText` prove each is well formed and that only whitespace is dropped |
| ParseScheme.TokenizeFile | pyscheme/parse_scheme.py:41-44 | the tokens of each line in turn; `ParseScheme.TokenizeLines` proves it equals tokenizing the joined text |
| ParseScheme.PadParensFree | pyscheme/parse_scheme.py:44 | text with no parenthesis is not changed by the padding |
| ParseScheme.TokenizeGood | pyscheme/parse_scheme.py:36-44 | every token is non-empty and has no whitespace, and a parenthesis is always a token of its own |
| ParseScheme.PadParensRemoveSpace | pyscheme/parse_scheme.py:44 | padding only adds whitespace |
| ParseScheme.TokenizeKeepsText | pyscheme/parse_scheme.py:36-44 | the tokens, concatenated, are the input with its whitespace removed, so the tokenizer drops nothing else |
| ParseScheme.TokenizeLines | pyscheme/parse_scheme.py:36-44 | tokenizing a text equals tokenizing its lines one after another, as `tokenize_file` does |
| ParseScheme.TokenizeOne | pyscheme/parse_scheme.py:44 | a well-formed token on its own tokenizes to itself |
| ParseScheme.TokenizeCons | pyscheme/parse_scheme.py:44 | a well-formed token followed by a space and more text comes out first |
| ParseScheme.TokenizeJoin | pyscheme/parse_scheme.py:36-44 | tokenizing well-formed tokens joined by spaces gives back those tokens |
| ParseScheme.ParseAt | pyscheme/parse_scheme.py:50-63 | a successful read consumes at least one token and stays within the input |
| ParseScheme.ParseListAt | pyscheme/parse_scheme.py:54-59 | a successful list read consumes at least its closing `)` and stays within the input |
| ParseScheme.LookaheadIterator.constructor | pyscheme/parse_scheme.py:24-26 | a fresh iterator is at the first token, with the lookahead primed |
| ParseScheme.LookaheadIterator.Advance | pyscheme/parse_scheme.py:28-29 | the lookahead becomes the next token, or None past the end; the read position does not move |
| ParseScheme.LookaheadIterator.Next | pyscheme/parse_scheme.py:31-33 | returns the next token and moves past it, or None at the end, keeping the lookahead one token ahead |
| ParseScheme.ParseInternal | pyscheme/parse_scheme.py:50-63 | the value read and the iterator's new position are those of the recursive reading function, with `unexpected EOF` and `unexpected )` as its errors |
| ParseScheme.Parse | pyscheme/parse_scheme.py:47-65 | returns the first expression of the token sequence |
| ParseScheme.FirstExpression | pyscheme/parse_scheme.py:47-65 | the first expression read from position 0; `ParseScheme.FirstExpressionIgnoresRest`, `ParseScheme.UnclosedIsEOF`, `ParseScheme.StrayCloseIsError` and `ParseScheme.ParseUnparse` state what it reads |
| ParseScheme.ParseExpression | pyscheme/parse_scheme.py:68-69 | returns the first expression of the tokens of the text |
| ParseScheme.ParseAtIgnoresRest | pyscheme/parse_scheme.py:47-65 | tokens after a complete expression never change what is read |
| ParseScheme.ParseListAtIgnoresRest | pyscheme/parse_scheme.py:54-59 | tokens after a closed list never change what is read |
| ParseScheme.FirstExpressionIgnoresRest | pyscheme/parse_scheme.py:47-48 | only the first expression is read; what follows it is ignored |
| ParseScheme.ParseListAtAtEnd | pyscheme/parse_scheme.py:51-56 | a list whose remaining tokens hold no `)` ends in `unexpected EOF` |
| ParseScheme.UnclosedIsEOF | pyscheme/parse_scheme.py:51-56 | an opening `(` that is never closed is `unexpected EOF` |
| ParseScheme.StrayCloseIsError | pyscheme/parse_scheme.py:60-61 | a `)` where an expression is expected is `unexpected )` |
| ParseScheme.EmptyListParses | pyscheme/parse_scheme.py:54-59 | `()` reads as the empty list whatever tokens follow it |
| ParseScheme.TokensOf | pyscheme/parse_scheme.py:54-63 | the tokens that write out a value are never empty and never start with `)` |
| ParseScheme.TokensOfGood | pyscheme/parse_scheme.py:44 | the tokens that write out a value are all well formed |
| ParseScheme.PrintableReadsBack | pyscheme/atoms.py:8-16 | every int and symbol token of a printable value converts back through `atom` to itself |
| ParseScheme.ParseTokensOf | pyscheme/parse_scheme.py:50-63 | reading the written tokens of a value, at any position, gives the value and the position after its tokens |
| ParseScheme.ParseItemsTokens | pyscheme/parse_scheme.py:54-59 | reading the tokens of a list's remaining items and then `)` closes the list with exactly those items |
| ParseScheme.ParseListAtStep | pyscheme/parse_scheme.py:56-57 | an item that is not `)` is read and appended, or its error ends the list |
| ParseScheme.ParseUnparse | pyscheme/parse_scheme.py:68-69 | round trip: parsing the printed text of a printable value gives the value back |
| ParseAlgebra.SpaceRunEndIsRunEnd | pyscheme/parse_algebra.py:40 | the scanner's whitespace skip ends the longest whitespace run |
| ParseAlgebra.WordRunEndIsRunEnd | pyscheme/parse_algebra.py:42 | an atom token is the longest run of word characters |
| ParseAlgebra.LastNonNewlineIsLast | pyscheme/parse_algebra.py:39-46 | locates the last character that is not a newline, or finds that there is none |
| ParseAlgebra.Tokenize | pyscheme/parse_algebra.py:49-63 | the token stream ends in END exactly when no unexpected character stops it, and every NUM holds an atom |
| ParseAlgebra.ConsWellFormed | pyscheme/parse_algebra.py:49-63 | putting a token other than END in front keeps a stream well formed |
| ParseAlgebra.LexWellFormed | pyscheme/parse_algebra.py:51-63 | the scanner yields a well-formed stream from any position |
| ParseAlgebra.LexFrom | pyscheme/parse_algebra.py:39-63 | the scan of `_TOKEN_RE.finditer` from a position: optional whitespace, then an operator, a word, a parenthesis or an error character; `ParseAlgebra.LexWellFormed` and `ParseAlgebra.TokenizeRender` state its shape and round trip |
| ParseAlgebra.Next | pyscheme/parse_algebra.py:76-85 | moving past a token that is not END either moves one step or raises the tokenizer's error |
| ParseAlgebra.TermAt | pyscheme/parse_algebra.py:87-100 | a term consumes input and yields a parse tree |
| ParseAlgebra.ExponentiationAt | pyscheme/parse_algebra.py:102-109 | an exponentiation consumes input and yields a parse tree |
| ParseAlgebra.MulLoop | pyscheme/parse_algebra.py:115-118 | the multiplication loop stops at a token within the stream and yields a parse tree |
| ParseAlgebra.MultiplicationAt | pyscheme/parse_algebra.py:111-118 | a multiplication consumes input and yields a parse tree |
| ParseAlgebra.AddLoop | pyscheme/parse_algebra.py:124-126 | the addition loop stops at a token within the stream and yields a parse tree |
| ParseAlgebra.AdditionAt | pyscheme/parse_algebra.py:120-126 | an addition consumes input and yields a parse tree |
| ParseAlgebra.ParseStream | pyscheme/parse_algebra.py:128-131 | every successful parse is a tree of NUM atoms and `[Symbol(op), left, right]` nodes |
| ParseAlgebra.AlgebraParser.constructor | pyscheme/parse_algebra.py:68-69 | the parser starts at the first token |
| ParseAlgebra.AlgebraParser.Match | pyscheme/parse_algebra.py:76-85 | a matching token is consumed and answers true; otherwise nothing moves and the answer is false |
| ParseAlgebra.AlgebraParser.Term | pyscheme/parse_algebra.py:87-100 | the value and new position are those of the term function, errors included |
| ParseAlgebra.AlgebraParser.Exponentiation | pyscheme/parse_algebra.py:102-109 | the value and new position are those of the exponentiation function |
| ParseAlgebra.AlgebraParser.Multiplication | pyscheme/parse_algebra.py:111-118 | the value and new position are those of the multiplication function |
| ParseAlgebra.AlgebraParser.Addition | pyscheme/parse_algebra.py:120-126 | the value and new position are those of the addition function |
| ParseAlgebra.Parse | pyscheme/parse_algebra.py:66-131 | returns the parse of the whole stream, or the error it raises |
| ParseAlgebra.ParseExpression | pyscheme/parse_algebra.py:16-20 | returns the parse of the tokens of the text |
| ParseAlgebra.ChainTokens | pyscheme/parse_algebra.py:124-125 | a chain after its first operand has two tokens per link |
| ParseAlgebra.MultiplicationOfNum | pyscheme/parse_algebra.py:111-118 | a NUM that no `^`, `*` or `/` follows is a whole multiplication |
| ParseAlgebra.AddLoopChain | pyscheme/parse_algebra.py:123-126 | the addition loop folds a chain to the left, labelling every node with the operator read before the loop |
| ParseAlgebra.AdditiveChain | pyscheme/parse_algebra.py:120-131 | any chain of `+` and `-` parses left-nested, every node carrying the first operator's symbol |
| ParseAlgebra.SubtractThenAdd | pyscheme/parse_algebra.py:120-126 | `a - b + c` parses as `[-, [-, a, b], c]` |
| ParseAlgebra.AddSymbolAndInt | pyscheme/parse_algebra.py:120-126 | `a + 3` parses as `[+, a, 3]` |
| ParseAlgebra.ExponentiationChain | pyscheme/parse_algebra.py:102-109 | a run of `^` parses right-nested |
| ParseAlgebra.PowerChain | pyscheme/parse_algebra.py:102-109 | `^` is right-associative for a chain of any length |
| ParseAlgebra.ExponentiationIsWhole | pyscheme/parse_algebra.py:111-131 | an exponentiation that reaches END is the whole parse |
| ParseAlgebra.PowerIsRightAssociative | pyscheme/parse_algebra.py:102-109 | `a ^ b ^ c` parses as `[^, a, [^, b, c]]` |
| ParseAlgebra.ProductOfTwoFails | pyscheme/parse_algebra.py:115-117 | each `*` or `/` reads two operands, so `a * b` fails expecting a term at END |
| ParseAlgebra.ProductKeepsSecondOperand | pyscheme/parse_algebra.py:115-117 | `a * b c` parses as `[*, a, c]`: the first operand after the operator is dropped |
| ParseAlgebra.LeftoverTokens | pyscheme/parse_algebra.py:128-130 | tokens left after a complete addition are an `end of input` error |
| ParseAlgebra.MissingCloseParen | pyscheme/parse_algebra.py:93-98 | an unclosed parenthesis is an error expecting `')'` at the token found |
| ParseAlgebra.NotATerm | pyscheme/parse_algebra.py:99-100 | input starting with neither a NUM nor `(` is an error expecting a term |
| ParseAlgebra.TokenText | pyscheme/parse_algebra.py:39-46 | the written-out word of a token is non-empty and starts with no whitespace |
| ParseAlgebra.LexSkipsSpace | pyscheme/parse_algebra.py:40 | whitespace before a token is skipped |
| ParseAlgebra.LexAtChar | pyscheme/parse_algebra.py:41-60 | an operator, a parenthesis or a word character starts the token of its kind |
| ParseAlgebra.AtomOfNumText | pyscheme/parse_algebra.py:56 | the written-out word of a NUM converts back through `atom` to its value |
| ParseAlgebra.LexOneToken | pyscheme/parse_algebra.py:39-60 | one written-out token followed by a character that cannot continue it scans as that token |
| ParseAlgebra.LexWritten | pyscheme/parse_algebra.py:49-60 | space-separated written-out tokens scan as those tokens |
| ParseAlgebra.LexRenderedFrom | pyscheme/parse_algebra.py:49-60 | the rendered text of a token sequence, found anywhere, scans as that sequence |
| ParseAlgebra.TokenizeRender | pyscheme/parse_algebra.py:49-63 | round trip: tokenizing rendered tokens gives them back, followed by END |
| ParseAlgebra.TrailingSpaceIsUnexpected | pyscheme/parse_algebra.py:39-62 | whitespace other than a newline at the very end of the input is matched by the error alternative and raises |
| ParseAlgebra.LexLastSpace | pyscheme/parse_algebra.py:40-45 | a last character that is whitespace other than a newline is the error |
| Parse.FirstLineEnd | pyscheme/parse.py:16 | finds the end of the first line, the only part of the input the dispatcher's pattern can look at |
| Parse.IsSchemeLike | pyscheme/parse.py:16 | the first line starts with `(` and ends with `)`; `Parse.SchemeLikeIsRegexMatch` proves it is exactly the regular-expression match |
| Parse.SchemeLikeIsRegexMatch | pyscheme/parse.py:16 | the dispatcher's test holds exactly when the pattern `\(.*\)$` matches at the start under `re.MULTILINE` |
| Parse.ParseExpression | pyscheme/parse.py:6-19 | input whose first line starts with `(` and ends with `)` goes to the s-expression parser; everything else goes to the algebraic parser |
| Parse.FirstLineDecides | pyscheme/parse.py:16 | whatever follows the first newline never affects which parser is chosen |
| Parse.OneLine | pyscheme/parse.py:16 | on a single line the test looks only at the first and last characters |
| Parse.DispatchUnparse | pyscheme/parse.py:16-17 | a list written in s-expression syntax goes to the s-expression parser and reads back as itself |
| Parse.TokenTextChars | pyscheme/parse.py:16 | a written-out algebra token holds no newline; it starts with `(` or ends with `)` only when it is that parenthesis |
| Parse.RenderShape | pyscheme/parse.py:16 | written-out algebra is one line that starts with its first token's text and ends with its last token's text |
| Parse.RenderedIsSchemeLike | pyscheme/parse.py:11-16 | written-out algebra goes to the s-expression parser exactly when it starts with `(` and ends with `)`, as `(a+3)*(b+5)` does |
| Parse.DispatchRender | pyscheme/parse.py:18-19 | all other written-out algebra is parsed by the algebraic parser from its own tokens |
| Parse.FrontEndsAgree | pyscheme/parse.py:6-19 | `(+ a 1)` and `a + 1` give the same tree through the two front ends |
| Values.BoundItem | pyscheme/typing.py:6 | an item of a list refers to no environment beyond the list's bound |
| Values.BoundAllAtMost | pyscheme/typing.py:6 | a list is bounded by any common bound of its items |
| Builtins.IntOf | pyscheme/special_forms.py:16-28 | exactly ints and bools take part in integer arithmetic, since Python's `bool` is an `int` |
| Builtins.PyEquals | pyscheme/special_forms.py:24-42 | Python `==` on the modelled values; `Builtins.IntOperators` and `Builtins.IsNullIsEmptyList` state it on ints and lists |
| Builtins.Arith | pyscheme/special_forms.py:16-28 | `+`, `-`, `*`, `mod`, `expt` as Python's operators; `Builtins.IntOperators` and `Builtins.ListOperators` state it on ints and lists |
| Builtins.Compared | pyscheme/special_forms.py:20-23 | `>`, `<`, `>=`, `<=` through the ordering sign; `Builtins.IntOperators` proves they are the integer comparisons |
| Builtins.Unary | pyscheme/special_forms.py:25-53 | the builtins of one argument; `Builtins.UnaryOperators`, `Builtins.ConsCarCdr`, `Builtins.BeginAndLength` and `Builtins.IsNullIsEmptyList` state them |
| Builtins.Truthy | pyscheme/core.py:141-144 | Python truthiness: an int is true when non-zero and a list when non-empty; a float's truthiness is not modelled |
| Builtins.Order | pyscheme/special_forms.py:20-23 | numeric comparison is defined exactly on int-like values, and its sign agrees with `<` and `>` |
| Builtins.FloorMod | pyscheme/special_forms.py:27 | Python's `%`: the remainder has the sign of the divisor and is smaller than it in magnitude |
| Builtins.FloorModDivides | pyscheme/special_forms.py:27 | Python's division identity `x == (x // y) * y + x % y` holds for the modelled `%` |
| Builtins.Repeat | pyscheme/special_forms.py:18 | `list * n` has `n` copies, and none when `n` is not positive |
| Builtins.Call | pyscheme/special_forms.py:15-54 | `list` returns its arguments; a builtin of one or two parameters called with the wrong number of arguments raises |
| Builtins.ConsCarCdr | pyscheme/special_forms.py:38-40 | `cons`, `car` and `cdr` undo one another |
| Builtins.IsNullIsEmptyList | pyscheme/special_forms.py:50 | `null?` holds exactly for a value equal to the empty list, and never raises |
| Builtins.BeginAndLength | pyscheme/special_forms.py:37-43 | `begin` yields its last argument and raises IndexError with none; `length` of a list is its number of items |
| Builtins.IntOperators | pyscheme/special_forms.py:16-28 | on ints and bools, `+`, `-`, `*` are the integer operations, `mod` the floored remainder raising ZeroDivisionError on zero, and the comparisons and `=` the integer ones |
| Builtins.ListOperators | pyscheme/special_forms.py:16-36 | `+` and `append` concatenate lists, `*` by an int repeats a list from either side, and `equal?` of lists of different lengths is false |
| Builtins.UnaryOperators | pyscheme/special_forms.py:25-53 | `list?`, `symbol?` and `procedure?` hold exactly of their kind, and `abs` of an int is its magnitude |
| Builtins.ExtremeIsFirst | pyscheme/special_forms.py:47-48 | the running maximum (minimum) returns the first item that no other item beats |
| Builtins.Extreme | pyscheme/special_forms.py:47-48 | the running maximum or minimum, replaced only by a strictly better item; `Builtins.ExtremeIsFirst` proves it is the first extreme item |
| Builtins.MaxMin | pyscheme/special_forms.py:47-48 | `max`/`min` of one iterable or of several arguments; `Builtins.MaxMinIsFirstExtreme` states its results and errors |
| Builtins.MaxMinIsFirstExtreme | pyscheme/special_forms.py:47-48 | on numbers `max` and `min` return the first extreme item, of a single list argument or of the arguments themselves, and raise with no items |
| Core.WithCache | pyscheme/core.py:94-95 | storing a value caches it in one scope and changes no other scope, no definition and no link |
| Core.NewChild | pyscheme/core.py:30-40 | a new scope gets its parent and initial values, and is registered as a listener of its parent as the design intends (as written the registration is lost, see `Core.NewChildAsWritten`); nothing else changes |
| Core.ParamKeys | pyscheme/core.py:118-119 | a parameter list binds its items; a parameter symbol binds its single characters, as Python iterates a string; anything else raises |
| Core.Eval | pyscheme/core.py:122-157 | evaluation only ever adds scopes and keeps the arena well formed |
| Core.EvalList | pyscheme/core.py:138-157 | evaluating a special form or a call keeps the arena well formed |
| Core.EvalIf | pyscheme/core.py:141-144 | `if` keeps the arena well formed |
| Core.EvalDefine | pyscheme/core.py:145-147 | the `define` form keeps the arena well formed |
| Core.EvalSet | pyscheme/core.py:148-150 | `set!` keeps the arena well formed |
| Core.EvalCall | pyscheme/core.py:154-157 | a call keeps the arena well formed |
| Core.EvalArgs | pyscheme/core.py:156 | the evaluated arguments are as many as the argument expressions |
| Core.Apply | pyscheme/core.py:118-119 | applying a procedure keeps the arena well formed |
| Core.Lookup | pyscheme/core.py:63-77 | a value that is found is left cached in the scope it was looked up in |
| Core.Memo | pyscheme/core.py:75-76 | a successful result is cached under its name, and the result itself is unchanged |
| Core.SetItem | pyscheme/core.py:79-86 | a successful assignment keeps the arena well formed and its size |
| Core.ClearWhere | pyscheme/core.py:50 | exactly the caches of the chosen scopes are emptied |
| Core.ClearWhereKeepsLinks | pyscheme/core.py:50 | emptying caches changes no parent and no listener |
| Core.ClearWhereTwice | pyscheme/core.py:50-55 | emptying caches in two steps equals emptying the union at once |
| Core.HearsByLinks | pyscheme/core.py:53-55 | which scopes hear an update depends only on the listener links |
| Core.HearsOnlyLater | pyscheme/core.py:39-40 | an update never reaches a scope older than the updated one, so never an ancestor |
| Core.HeardUnfolds | pyscheme/core.py:45-55 | an update reaches the updated scope and everything its listeners hear |
| Core.Hears | pyscheme/core.py:45-55 | a scope hears an update of another when it is that scope or hears one of its listeners; `Core.HearsOnlyLater` and `Core.HearsByLinks` state its reach |
| Core.Contains | pyscheme/core.py:88-92 | `__contains__`: the name is cached or defined in the scope or an ancestor; `Core.MissingIsKeyError` proves a name not contained raises KeyError on lookup |
| Core.WithDefs | pyscheme/core.py:103 | replacing the definitions of a scope keeps its links and the arena well formed |
| Core.WithValues | pyscheme/core.py:97-99 | `update` caches every entry given and keeps links |
| Core.UpdatedLastWins | pyscheme/core.py:35-36 | a name maps to the value of its last pair; names with no pair keep their entry |
| Core.Updated | pyscheme/core.py:97-99 | the pairs stored in order; `Core.UpdatedLastWins` proves the last pair of a name wins |
| Core.NewScope | pyscheme/core.py:30-40 | a new environment holds its definitions and values, with a later pair winning, and keeps the arena well formed |
| Core.MissingIsKeyError | pyscheme/core.py:69-73 | a name defined nowhere up the parent chain raises KeyError and changes nothing |
| Core.CacheShadowsDefinition | pyscheme/core.py:64-65 | a cached value is returned as it is, even when the name is also defined |
| Core.LookupIsMemoised | pyscheme/core.py:63-77 | once a lookup has produced a value, the next lookup returns it without evaluating anything |
| Core.ChainGoesUp | pyscheme/core.py:69-70 | the parent chain runs to older scopes only |
| Core.SetItemNearest | pyscheme/core.py:79-86 | `set!` overwrites the nearest scope on the chain that caches the name without defining it, and raises KeyError when there is none |
| Core.BindFailsOnNonSymbol | pyscheme/core.py:119 | binding succeeds exactly when every key `zip` pairs is a symbol; a list key is Python's TypeError, and any other non-symbol key, which Python binds, is reported as unmodelled |
| Core.BindNames | pyscheme/core.py:119 | the names bound are exactly the keys of the pairs `zip` produces |
| Core.Bind | pyscheme/core.py:118-119 | the parameter dict of a call built from `zip`; `Core.BindNames`, `Core.BindLastWins` and `Core.BindFailsOnNonSymbol` state its keys, values and failures |
| Core.BindLastWins | pyscheme/core.py:119 | each bound name holds the argument paired with its last occurrence |
| Core.IfTakesOneBranch | pyscheme/core.py:141-144 | `if` evaluates only the branch its test selects |
| Core.EvalCases | pyscheme/core.py:134-155 | a symbol is looked up in the scope, any other non-list is its own value, `quote` yields its argument unevaluated, `lambda` captures the current scope, and `()` raises IndexError; none of these changes the store |
| Core.DefineAndSetYieldNone | pyscheme/core.py:145-150 | `define` and a successful `set!` evaluate the value once, store it in the current scope and make the form yield None |
| Core.CallEvaluatesInCapturedScope | pyscheme/core.py:118-119 | calling a procedure evaluates its body in a new child of the scope it captured, with its parameters bound to the arguments |
| Core.LookupOrder | pyscheme/core.py:63-77 | an uncached name is computed from its local definition in a throwaway child, else taken from the parent and cached, else raises KeyError at the root |
| Core.DefineClears | pyscheme/core.py:101-105 | `define` stores the definition and empties the cache of the scope and of every scope that hears it, and of no other |
| Core.AfterDefine | pyscheme/core.py:101-105 | the arena after `define`; `Core.DefineClears` states exactly what changes |
| Core.ChildHearsParent | pyscheme/core.py:39-40 | a registered child hears every update of its parent |
| Core.NewChildAsWritten | pyscheme/core.py:37-40 | with a weakly held bound-method listener, the child is effectively never registered with its parent |
| Core.StaleChildAsWritten | pyscheme/core.py:37-40 | as written, a child keeps serving a value its parent has since redefined |
| Core.FreshChildRegistered | pyscheme/core.py:37-40 | with registration, the child's cache is emptied and it yields the new value |
| Core.Environments.constructor | pyscheme/core.py:7 | the arena starts empty |
| Core.Environments.NewEnvironment | pyscheme/core.py:30-40 | a new scope is appended as the constructor builds it, registered with its parent as intended rather than lost as written |
| Core.Environments.Add | pyscheme/core.py:94-95 | caches one value |
| Core.Environments.Update | pyscheme/core.py:97-99 | caches every given value |
| Core.Environments.HandleUpdate | pyscheme/core.py:45-55 | empties the caches of exactly the scopes the update reaches through the listener links, which with the intended registration include the descendants |
| Core.Environments.Define | pyscheme/core.py:101-105 | stores the definition and empties the caches the update reaches, descendants included under the intended registration |
| Core.Environments.GetItem | pyscheme/core.py:63-77 | returns the lookup's result and leaves the arena as the lookup does |
| Core.Environments.Has | pyscheme/core.py:88-92 | `__contains__` on the arena, as `Core.Contains` |
| Core.Environments.SetValue | pyscheme/core.py:79-86 | assigns as `SetItem` does; on KeyError nothing changes |
| Core.Environments.Evaluate | pyscheme/core.py:57-61 | evaluates in a new child of the scope |
| SpecialForms.RootScopes | pyscheme/special_forms.py:9-56 | the builtins scope caches the procedures, and the caller's scope is its child, registered as intended, so earlier scopes are untouched |
| SpecialForms.MakeRootEnvironment | pyscheme/special_forms.py:9-56 | builds the two scopes and returns the caller's |
| SpecialForms.DefineKeepsBuiltins | pyscheme/special_forms.py:55-56 | a `define` in the caller's scope leaves the builtins as they were |
| SpecialForms.BuiltinsVisible | pyscheme/special_forms.py:15-56 | every builtin is visible from the caller's scope |
| SpecialForms.PlusIsAdd | pyscheme/special_forms.py:16 | `+` names the builtin addition |
| SpecialForms.PlusFoundInChain | pyscheme/core.py:69-70 | looking up `+` two scopes below the builtins climbs to them and finds the addition |
| SpecialForms.ListIsCall | pyscheme/core.py:154-157 | a list whose head names no special form is a call |
| SpecialForms.CallApplies | pyscheme/core.py:154-157 | a call evaluates the head and then the arguments, and applies the one to the others |
| SpecialForms.AddsInts | pyscheme/special_forms.py:16 | the builtin `+` adds two ints |
| SpecialForms.AddInChain | pyscheme/special_forms.py:16 | `(+ a b)` of two ints evaluates to their sum in such a scope |
| SpecialForms.TwoInts | pyscheme/core.py:136-137 | int arguments evaluate to themselves and change nothing |
| SpecialForms.OnePlusTwo | pyscheme/special_forms.py:9-56 | `(+ 1 2)` evaluated in the standard environment gives 3 |
| Units.FromRef | startables/units.py:127-128 | converting back from the reference unit raises exactly when the scale factor or slope is zero, as Python's division by zero does |
| Units.ToRef | startables/units.py:95-163 | `to_ref` of identity, scale and affine conversions; `Units.FromRefUndoesToRef` and `Units.ToRefUndoesFromRef` prove `from_ref` is its inverse |
| Units.FromRefUndoesToRef | startables/units.py:86-166 | `from_ref` undoes `to_ref` for identity, scale and affine conversions |
| Units.ToRefUndoesFromRef | startables/units.py:86-166 | `to_ref` undoes `from_ref` |
| Units.Reverse | startables/units.py:101-102 | the reversal swaps source and reference and can itself be inverted; a zero factor raises |
| Units.ReverseSwapsDirections | startables/units.py:124-170 | the reversed conversion's `to_ref` is the original's `from_ref`, and the other way round |
| Units.ReverseTwice | startables/units.py:130-132 | reversing twice gives back the same conversion |
| Units.Alias | startables/units.py:62-72 | the copy has the new source unit and otherwise equals the original |
| Units.AliasConvertsAlike | startables/units.py:62-72 | an alias converts values exactly as the original does |
| Units.NewPolicy | startables/units.py:277-303 | every failure to build a policy is a ValueError |
| Units.UnitsOf | startables/units.py:305-309 | iteration yields exactly the units that have a conversion |
| Units.RefUnit | startables/units.py:348-352 | a unit has a reference unit exactly when it is present; otherwise ValueError |
| Units.Convert | startables/units.py:311-328 | units that cannot be converted, missing or with different reference units, raise ValueError |
| Units.ConvertToRef | startables/units.py:342-346 | succeeds exactly for a unit that is present; otherwise ValueError |
| Units.BySourceKeys | startables/units.py:302-303 | the conversions keyed by source cover exactly the source units |
| Units.BySource | startables/units.py:302-303 | the dict keyed by source unit; `Units.BySourceKeys`, `Units.BySourceLastWins` and `Units.BySourceEntries` state its keys and entries |
| Units.SelfConversions | startables/units.py:302-303 | the identity conversions of the reference units; `Units.RefUnitsAreOwnReference` proves each reference unit converts to itself |
| Units.BySourceLastWins | startables/units.py:302-303 | the entry for a source unit is the last conversion given for it |
| Units.BySourceEntries | startables/units.py:302-303 | every entry converts from its key to one of the given reference units |
| Units.NewPolicySucceeds | startables/units.py:282-297 | a policy is built exactly when the mode is `overwrite` or `raise`, no source repeats under `raise`, and no unit is both a source and a reference |
| Units.PolicyUnits | startables/units.py:300-309 | a built policy's units are its source units and its reference units |
| Units.NoDualRole | startables/units.py:293-297 | in a built policy, sources and reference units are disjoint |
| Units.RefUnitsAreOwnReference | startables/units.py:300-303 | each reference unit is added with an identity conversion to itself |
| Units.LastConversionKept | startables/units.py:302-303 | under `overwrite` the last conversion given for a source is kept |
| Units.EveryConversionKeptUnderRaise | startables/units.py:288-303 | under `raise` every conversion given is kept |
| Units.NewPolicyWellFormed | startables/units.py:277-303 | in a built policy each unit maps to a conversion from it, whose reference unit is present and converts to itself |
| Units.CanConvertIsEquivalence | startables/units.py:357-362 | `can_convert` is reflexive on the units present, symmetric and transitive |
| Units.CanConvert | startables/units.py:357-362 | both units present with the same reference unit; `Units.CanConvertIsEquivalence` and `Units.ConvertSucceeds` state it |
| Units.RefUnitIsReachable | startables/units.py:348-362 | a unit can be converted to its reference unit, which is its own reference unit |
| Units.ConvertSucceeds | startables/units.py:311-362 | with invertible conversions, `convert` succeeds exactly when `can_convert` holds, through the shared reference unit |
| Units.ConvertToOwnRef | startables/units.py:311-346 | converting to a unit's reference unit is `convert_to_ref` |
| Units.ConvertRoundTrip | startables/units.py:311-321 | converting there and back gives the value back |
| Units.ConvertToSelf | startables/units.py:311-321 | converting a unit to itself changes nothing |
| Store.KeptNames | tables/store.py:47-49 | at most one name per token |
| Store.Kept | tables/store.py:48-49 | the tokens the bundle keeps: table tokens with a payload; `Store.IgnoredTokens` proves the others change nothing |
| Store.BundleOf | tables/store.py:47-49 | the dict comprehension over the tokens; `Store.BundleNames`, `Store.LastTableWins` and `Store.StoredCameFromStream` state its contents |
| Store.GetItem | tables/store.py:51-55 | a name present gives its table; otherwise KeyError with that name |
| Store.Names | tables/store.py:57-59 | iteration yields each name of a kept token exactly once |
| Store.BundleNames | tables/store.py:47-59 | the names iterated are distinct and are exactly the stored names, which are exactly those of the kept tokens |
| Store.LastTableWins | tables/store.py:47-49 | the stored table of a name is the last table token of that name |
| Store.StoredCameFromStream | tables/store.py:47-49 | every stored table is the payload of some table token |
| Store.IgnoredTokens | tables/store.py:48-49 | tokens that are not tables, or carry no payload, leave the bundle unchanged |
| ReadCsv.NextBlock | tables/readers/read_csv.py:87-96 | a block starts only at a line beginning with `*`, `:` or the separator, and a blank block never follows metadata |
| ReadCsv.Classification | tables/readers/read_csv.py:88-96 | `***` opens a directive, `**` a table, `:` a template row, the separator a blank block except inside metadata, and every other line continues its block |
| ReadCsv.FlattenAppend | tables/readers/read_csv.py:98-104 | the lines of the blocks are read in order |
| ReadCsv.Grow | tables/readers/read_csv.py:104 | adding a line changes only the current block |
| ReadCsv.GrowFlatten | tables/readers/read_csv.py:104 | adding a line to the current block appends it to the lines read |
| ReadCsv.PendingGrows | tables/readers/read_csv.py:104 | adding a line to the reader grows its current block |
| ReadCsv.FeedContinues | tables/readers/read_csv.py:98-104 | a line that starts nothing keeps the blocks a correct cut of the file |
| ReadCsv.Feed | tables/readers/read_csv.py:87-104 | one line fed to the reader; `ReadCsv.FeedContinues` and `ReadCsv.FeedOpens` state both cases |
| ReadCsv.Run | tables/readers/read_csv.py:82-104 | the reader after a file's lines; `ReadCsv.RunSplits` proves the blocks cut the file at the starting lines |
| ReadCsv.Blocks | tables/readers/read_csv.py:75-107 | the blocks emitted, the last only with lines; `ReadCsv.BlocksOfFile` and `ReadCsv.BlocksJoinToFile` state them |
| ReadCsv.FeedOpens | tables/readers/read_csv.py:98-104 | a line that starts a block closes the current one and opens a block recording the 1-based line number |
| ReadCsv.RunSplits | tables/readers/read_csv.py:82-104 | after every line the blocks cut the lines read so far at exactly the lines that start a block |
| ReadCsv.BlocksOfFile | tables/readers/read_csv.py:75-107 | the blocks of a file cut it at exactly the block-starting lines, and the last block has lines; an empty file gives no block |
| ReadCsv.BlocksJoinToFile | tables/readers/read_csv.py:75-107 | joining the blocks gives back the file: no line is lost or repeated |
| ReadCsv.DoneIsPrefix | tables/readers/read_csv.py:98-100 | the blocks emitted partway through a file are a prefix of the file's blocks, so tokens can stream out early |
| ReadCsv.Take | tables/readers/read_csv.py:45 | `xs[:n]` is the first `n` items, or all of them |
| ReadCsv.TakeNonBlank | tables/readers/read_csv.py:43 | the column names are the longest prefix of the fields that are not blank |
| ReadCsv.SplitOn | tables/readers/read_csv.py:42 | splitting gives at least one piece |
| ReadCsv.JoinSplitOn | tables/readers/read_csv.py:42 | joining the pieces of a split restores the string |
| ReadCsv.SplitOnAbsent | tables/readers/read_csv.py:42 | a string without the separator is a single piece |
| ReadCsv.OneDestination | tables/readers/read_csv.py:42 | a destinations field without a space is one destination, since the field is split on the literal `" ,;"` |
| ReadCsv.Destinations | tables/readers/read_csv.py:42 | the stripped pieces of the first field split on `" ,;"`; `ReadCsv.OneDestination` states the common case |
| ReadCsv.TableName | tables/readers/read_csv.py:41 | the first field without its two leading characters; `ReadCsv.TableNameOf` proves it reads back the name |
| ReadCsv.TableNameOf | tables/readers/read_csv.py:41 | a header line `**name` followed by the separator names the table `name` |
| ReadCsv.RowCells | tables/readers/read_csv.py:47 | a data row has at most as many cells as the table has columns |
| ReadCsv.Shortest | tables/readers/read_csv.py:52 | `zip(*rows)` yields as many tuples as the shortest row has cells, and none without rows |
| ReadCsv.LayoutOf | tables/readers/read_csv.py:41-48 | after the four header lines every line is a data row, and the column count fits every list the loop zips |
| ReadCsv.ColumnCells | tables/readers/read_csv.py:52 | the `j`-th tuple of `zip(*rows)` holds the `j`-th cell of every row |
| ReadCsv.ParseOnOff | tables/readers/read_csv.py:21-27 | an onoff column parses exactly when every stripped cell is `0` or `1`, which become False and True |
| ReadCsv.ParseColumn | tables/readers/read_csv.py:30-37 | a `text` column keeps its cells; a column of any other unit but `onoff` parses exactly when every cell is a float literal |
| ReadCsv.Slots | tables/readers/read_csv.py:48-52 | one loop step per zipped column, pairing name, unit and the parse of its cells |
| ReadCsv.ColumnsFailAtFirstBad | tables/readers/read_csv.py:51-56 | the columns are built exactly when every one parses; otherwise the error names the first column that does not, with the table and its unit |
| ReadCsv.BuildColumns | tables/readers/read_csv.py:50-56 | the column loop as a function; `ReadCsv.ColumnsFailAtFirstBad`, `ReadCsv.ColumnsKept` and `ReadCsv.ColumnKeys` state its result |
| ReadCsv.ColumnsKept | tables/readers/read_csv.py:54 | a built column holds its parsed cells under its name, and a later column of the same name replaces it |
| ReadCsv.ColumnKeys | tables/readers/read_csv.py:51-56 | the table's columns are exactly the zipped column names |
| ReadCsv.BuildStep | tables/readers/read_csv.py:52-56 | one loop step either stores the column or raises naming it |
| ReadCsv.ColumnsErrorStays | tables/readers/read_csv.py:55-56 | once a column raises, no later column changes the error |
| ReadCsv.RowSplitAsWritten | tables/readers/read_csv.py:47 | as written, with `,` as separator, the row `1,2` stays one cell, so a two-column table loses its second column |
| ReadCsv.RowsReadBack | tables/readers/read_csv.py:47 | split on the table's own separator, a row gives back the cells it was written with, cut to the table's width |
| ReadCsv.TableWith | tables/readers/read_csv.py:40-62 | `make_table` with the data rows split on a given character; `ReadCsv.TableShape` states its result |
| ReadCsv.TableAsWritten | tables/readers/read_csv.py:40-62 | `make_table` as written, rows split on `;`; `ReadCsv.MakeTable` computes it and `ReadCsv.RowSplitAsWritten` shows the lost column |
| ReadCsv.TableOf | tables/readers/read_csv.py:47 | `make_table` with rows split on the table's own separator; `ReadCsv.RowsReadBack` proves rows read back |
| ReadCsv.DefaultSeparatorAgrees | tables/readers/read_csv.py:47 | with the default separator `;` the as-written and corrected table readers agree |
| ReadCsv.TableShape | tables/readers/read_csv.py:40-62 | whatever the rows are split on, fewer than four lines raise IndexError, and a parsed table carries the header's name, destinations and units and one column per zipped name |
| ReadCsv.MakeTable | tables/readers/read_csv.py:40-62 | the loop builds the table as written, data rows split on `;`, errors included, column by column |
| ReadCsv.MakeToken | tables/readers/read_csv.py:65-72 | only table blocks get a payload, which is their table as `make_table` builds it |
| ReadCsv.TokenOf | tables/readers/read_csv.py:65-72 | `make_token` as a function; `ReadCsv.MakeToken` computes it and `ReadCsv.TokensMatchBlocks` states its payloads |
| ReadCsv.TokensOf | tables/readers/read_csv.py:98-107 | a successful read gives one token per block |
| ReadCsv.TokensErrorStays | tables/readers/read_csv.py:99 | an error in an early block is the error of the whole stream |
| ReadCsv.TokensMatchBlocks | tables/readers/read_csv.py:70-72 | token `k` has the type of block `k` and a table payload exactly for table blocks, built as written from that block's lines and origin |
| ReadCsv.ReadFileCsv | tables/readers/read_csv.py:75-107 | the loop emits the tokens of the file's blocks; when a table raises, the tokens of every earlier block have already been emitted and are returned with the error of exactly the next block |
| ReadCsv.ReadBundleFromCsv | tables/readers/read_csv.py:110-112 | the bundle of the tokens read, or the reader's error, the tokens emitted before it being dropped |
| Startables.FormatString | startables/startables.py:100-102 | a non-empty format string always holds a brace; one without braces is wrapped as `{:…}`; one with a brace, or the empty one, is kept |
| Startables.FormatStringIdempotent | startables/startables.py:100-102 | normalising a format string twice changes nothing more |
| Startables.NewColumnMetadata | startables/startables.py:78-103 | the home unit falls back to the unit when absent or empty; a given format is normalised |
| Startables.Stripped | startables/startables.py:414 | every destination is stripped, in order |
| Startables.FirstWithSpace | startables/startables.py:415-416 | finds the first destination holding whitespace, or none exactly when none does |
| Startables.DistinctIffSetSize | startables/startables.py:419 | the duplicate test by set size holds exactly when some destination repeats |
| Startables.SanitizeDestinations | startables/startables.py:413-421 | succeeds exactly when the stripped destinations hold no whitespace and no repeat, returning them; otherwise raises for the first one with whitespace, or else for the duplicates |
| Startables.SanitizeIdempotent | startables/startables.py:413-421 | sanitised destinations are their own sanitising |
| Startables.TableDestinations | startables/startables.py:162-164 | no destinations, or an empty list, mean `['all']`; others are sanitised |
| Startables.DefaultIsSanitized | startables/startables.py:162-164 | the default destination passes sanitising unchanged |
| Startables.SetterKeepsEmpty | startables/startables.py:198-200 | the setter keeps an empty list: the default applies only at construction |
| Startables.MissingColumns | startables/startables.py:172 | the missing columns are exactly the columns without a specification |
| Startables.ValidateColSpecs | startables/startables.py:170-175 | raises exactly when some column has no specification, listing exactly those columns |
| Startables.DefaultColSpecs | startables/startables.py:156-157 | without specifications every column gets one with unit `text` |
| Startables.ColSpecs | startables/startables.py:151-157 | given specifications are kept if they cover every column and raise otherwise; none gives the defaults |
| Startables.Table.constructor | startables/startables.py:138-169 | stores the name, columns, specifications and destinations; it demands what `__init__` checks (a specification per column, sanitised destinations), so every table is valid |
| Startables.Table.SetDestinations | startables/startables.py:198-200 | sanitised destinations replace the old ones; on error nothing changes and the table stays valid |
| Startables.NewTable | startables/startables.py:138-169 | a table is built exactly when its specifications and destinations pass; a specification error comes first; the new table carries them |
| Startables.Selected | startables/startables.py:470-485 | the selected tables are exactly the bundle's tables that match, in bundle order |
| Startables.Unselected | startables/startables.py:523 | the tables kept are exactly those that do not match |
| Startables.Without | startables/startables.py:523 | removing the popped tables keeps exactly the others |
| Startables.WithoutSelection | startables/startables.py:521-523 | removing what a selection picked leaves exactly the unselected tables, in order |
| Startables.PopPartitions | startables/startables.py:507-525 | the popped and the kept tables together are the bundle, each table as often as before |
| Startables.PopEverything | startables/startables.py:509-510 | with no filter every table is popped and none is kept |
| Startables.Bundle.constructor | startables/startables.py:459-461 | the bundle holds the given tables |
| Startables.Bundle.PopTables | startables/startables.py:507-525 | returns the selected tables in order and keeps exactly the others, a partition of the old bundle |
| Startables.IsExpressionStr | startables/startables.py:858-862 | a value that is no string is no expression; a string is one exactly when `^{{.*}}$` matches |
| Startables.MatchesExpression | startables/startables.py:39 | what `^{{.*}}$` matches; `Startables.ExpressionForm` and `Startables.FormIsExpression` characterise it in both directions |
| Startables.ExpressionBody | startables/startables.py:39 | the text between the markers; `Startables.StripMarkersOfExpression` proves stripping the markers yields it |
| Startables.ExpressionForm | startables/startables.py:39 | every expression string is `{{`, a body without newlines, `}}`, and at most one newline |
| Startables.FormIsExpression | startables/startables.py:39 | conversely every such string is an expression string with that body |
| Startables.StripExpressionMarkers | startables/startables.py:724-725 | the result neither starts nor ends with a brace and is no longer than the input |
| Startables.StripMarkersOfExpression | startables/startables.py:724-725 | stripping the markers gives back the body, when the body neither starts nor ends with a brace |
| Startables.MaxCount | startables/startables.py:633-634 | the largest separator count of any line |
| Startables.CountConcat | startables/startables.py:633 | separators in a concatenation add up |
| Startables.PadLine | startables/startables.py:638-639 | a line is padded with separators, only appended, up to the largest count; a line at it is unchanged |
| Startables.PadLines | startables/startables.py:631-640 | every padded line has the largest count and starts with its original line |
| Startables.RepairedLines | startables/startables.py:631-640 | the repaired block has the same lines, each padded |
| Startables.RepairBlock | startables/startables.py:632-640 | the repaired block; `Startables.RepairedLines`, `Startables.RepairEvensCounts` and `Startables.RepairIdempotent` state it |
| Startables.RepairEvensCounts | startables/startables.py:631-640 | after the repair every line has the same number of separators |
| Startables.RepairIdempotent | startables/startables.py:631-640 | repairing a repaired block changes nothing |
| Text.SplitWhitespaceConcat | pyscheme/parse_scheme.py:44 | `str.split()` keeps every non-whitespace character, in order |
| Text.Split | tables/readers/read_csv.py:41 | `str.split(sep)` gives at least one piece, and no piece holds the separator |
| Text.SplitLength | tables/readers/read_csv.py:41 | there is one piece more than there are separators |
| Text.SplitJoin | tables/readers/read_csv.py:41 | splitting a join of separator-free pieces gives back the pieces |
| Text.JoinSplit | startables/startables.py:632-640 | joining the pieces of a split gives back the string |
| Text.StripBy | tables/readers/read_csv.py:42 | stripping removes only dropped characters at both ends and leaves none there |
| Text.StripByIdempotent | startables/startables.py:414 | stripping twice is stripping once |

## Left out

**pyscheme**
- The `math` module's contents, `/`, `round`, the trigonometric procedures, `eq?` and `map` of the standard environment: they need floating point, object identity or Python iterators. These names are unbound in the model's standard environment. Looking one up (`(/ 6 3)`, `pi`) raises KeyError, and `Core.Contains` is false for it, where Python finds the procedure or constant.
- Floating-point arithmetic, float comparison and float truthiness evaluate to `Unmodelled` errors, not to values.
- Operations that would return a plain Python string (`car` of a symbol, `+` of two symbols) evaluate to `Unmodelled`. The same holds for ordering lists or strings with `<` and for comparing procedures by identity.
- `Atoms.Atom`: `int()` and `float()` accept only ASCII digits in the model. Python also accepts every Unicode decimal digit, so a token such as `٣` is the int 3 in Python but a Symbol in the model.
- `ParseAlgebra.Tokenize`: the word pattern `\w` matches only ASCII letters, digits and `_` in the model. Python's `\w` on a `str` also matches Unicode letters and digits, so `é + 1` tokenizes in Python but raises "Unexpected character" in the model.
- `Core.Eval`: evaluation depth is bounded by a fuel count, and running out gives `OutOfFuel`. The interpreter itself has no bound except Python's recursion limit.
- `define` and `set!` with a name that is not a symbol: Python would store a non-string key. The model reports `Unmodelled` instead.
- `Core.Bind`: a lambda parameter that is a hashable non-symbol, such as the `1` of `((lambda (1) 1) 5)`, is bound by Python's dict comprehension, but the model reports `Unmodelled`. A list parameter is Python's TypeError in both.
- `Core.NewChild`: it registers every new scope with its parent, the intended behaviour. As written in CPython the registration is lost at once, so descendant caches are never emptied by `define`. This affects `Core.Apply`, `Core.Lookup`, `Core.Environments.NewEnvironment`, `Core.Environments.Evaluate`, `SpecialForms.RootScopes`, `Core.DefineClears`, `Core.Environments.Define` and `Core.Environments.HandleUpdate`.
- `Procedure` objects close over an index into the arena rather than an object reference. Garbage collection of scopes is not modelled.
- `Symbol` is a subclass of `str`, so a symbol equals the plain string with the same text. The model has no plain strings in expressions, so that equality never arises.
- The end-to-end scenario of `pyscheme/test/test_package.py` (redefining `aPar` changes what `zFoo` evaluates to) is not stated as one lemma over concrete stores. Its parts are: `Core.DefineClears` empties the caches, `Core.LookupOrder` recomputes from the definition, and `SpecialForms.AddInChain` does the sum.
- The `modified_symbols` argument of `_handle_update` and `_notify_listeners` is ignored by the source; the model omits it.

**units**
- `CustomUnitConversion`: arbitrary Python callables. Its bytecode-comparing `__eq__` is left out as well.
- `__repr__` and `__ne__` are left out.
- `Units.UnitsOf`: iteration is modelled as the set of units present. The insertion order in which `__iter__` yields them is not modelled.
- Conversion of NumPy arrays and pandas Series is left out; values are single reals.
- Floating-point rounding is left out: conversions are exact over reals. So `FromRefUndoesToRef` is exact where Python's is only approximate.

**tables**
- Opening files is left out; a file is its sequence of lines.
- The `pdtable` construction (`make_pdtable`, the DataFrame) is not part of this model. A table is its name, destinations, units, origin and parsed columns. A float column keeps the literal texts that Python's `float()` accepts.
- `ReadCsv.Destinations`: splits the first field on the literal string `" ,;"` exactly as written. The evident intent, splitting on any of those characters, is not modelled.
- `ReadCsv.LayoutOf`: `zip` truncation to the shortest of the names, units and rows is modelled as written. Surplus names are silently dropped.
- Separators are single characters.

**startables**
- The rest of `startables.py` is left out: I/O, Excel and CSV writing, unit conversion of tables, expression evaluation, and `copy`.
- `Startables.Selected`: the name and destination regular expressions of `_filter_tables` are abstracted as a selector function. The `ValueError` for giving both a name and a pattern is not modelled.
- `Startables.SanitizeDestinations`: destinations are strings. The `str(d)` conversion of other values is left out.
- `Startables.NewTable`: the DataFrame is represented by its column names only.

## Findings

| source | as written | input that shows it | evidently intended | confidence | as-written member | corrected member |
|---|---|---|---|---|---|---|
| pyscheme/core.py:37-40 | the child registers the bound method `self._handle_update` in the parent's `weakref.WeakSet`. That temporary bound method is collected at once, so the parent never notifies the child | a root defining `a` as 1; a child looks `a` up and caches 1; the root then redefines `a` as 2; the child still yields 1 | a child hears its parent's updates, so its cache is cleared | not executed | Core.StaleChildAsWritten | Core.FreshChildRegistered |
| tables/readers/read_csv.py:47 | data rows are split on a hard-coded `';'` whatever `sep` is | `sep = ','` with a two-column row `1,2`: the row is one cell, so the second column is lost | rows split on the table's own separator | not executed | ReadCsv.RowSplitAsWritten | ReadCsv.RowsReadBack |
