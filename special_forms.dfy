/** The standard environment (pyscheme/special_forms.py): a scope holding the
    builtin procedures and, for the caller, a child of it, so that definitions made by
    the caller never disturb the builtins. */
module SpecialForms {
  import opened Wrappers
  import opened Values
  import opened Core

  /** The list and integer procedures of the standard environment, by name. */
  const Procedures: map<string, Value> := map[
    "+" := Prim(Add), "-" := Prim(Sub), "*" := Prim(Mul),
    ">" := Prim(Gt), "<" := Prim(Lt), ">=" := Prim(Ge), "<=" := Prim(Le), "=" := Prim(NumEq),
    "abs" := Prim(Abs), "mod" := Prim(Mod), "expt" := Prim(Expt),
    "append" := Prim(Append), "begin" := Prim(Begin), "car" := Prim(Car), "cdr" := Prim(Cdr),
    "cons" := Prim(Cons), "equal?" := Prim(IsEqual), "length" := Prim(Length),
    "list" := Prim(MakeList), "list?" := Prim(IsList), "max" := Prim(Max), "min" := Prim(Min),
    "not" := Prim(Not), "null?" := Prim(IsNull), "number?" := Prim(IsNumber),
    "procedure?" := Prim(IsProcedure), "symbol?" := Prim(IsSymbol)]

  /** The arena after `make_root_environment`: the builtins scope at index `|st|`,
      caching the procedures, and the caller's scope at `|st| + 1`, its registered
      child. */
  function RootScopes(st: Store): (r: Store)
    ensures |r| == |st| + 2 && r[..|st|] == st
    ensures r[|st|] == Scope(None, map[], Procedures, {|st| + 1})
    ensures r[|st| + 1] == Scope(Some(|st|), map[], map[], {})
    ensures ValidStore(st) ==> ValidStore(r)
  {
    var st1 := NewScope(st, None, [], []);
    var st2 := WithValues(st1, |st|, Procedures);
    NewScope(st2, Some(|st|), [], [])
  }

  /** `make_root_environment`, building the two scopes in the arena. */
  method MakeRootEnvironment(envs: Environments) returns (root: nat)
    requires envs.Valid()
    modifies envs
    ensures envs.Valid() && root == |old(envs.scopes)| + 1
    ensures envs.scopes == RootScopes(old(envs.scopes))
  {
    var builtins := envs.NewEnvironment(None, [], []);
    envs.Update(builtins, Procedures);
    root := envs.NewEnvironment(Some(builtins), [], []);
  }

  /** `define` in the caller's scope leaves the builtins scope as it was. */
  lemma DefineKeepsBuiltins(st: Store, name: string, x: Value)
    requires ValidStore(st)
    ensures AfterDefine(RootScopes(st), |st| + 1, name, x)[|st|] == RootScopes(st)[|st|]
  {
    DefineClears(RootScopes(st), |st| + 1, name, x);
  }

  /** Every builtin is visible from the caller's scope and from its children, unless
      shadowed there. */
  lemma BuiltinsVisible(st: Store, name: string)
    requires ValidStore(st) && name in Procedures
    ensures Contains(RootScopes(st), |st| + 1, name)
  {
  }

  /** `+` names the builtin addition. */
  lemma PlusIsAdd()
    ensures "+" in Procedures && Procedures["+"] == Prim(Add)
  {
  }

  /** A scope two empty links below the builtins. */
  ghost predicate PlusTwoUp(c: Store, k: nat)
  {
    ValidStore(c) && 2 <= k < |c| &&
    c[k].parent == Some(k - 1) && c[k - 1].parent == Some(k - 2) &&
    "+" !in c[k].cache && "+" !in c[k].defs && "+" !in c[k - 1].cache && "+" !in c[k - 1].defs &&
    "+" in c[k - 2].cache && c[k - 2].cache["+"] == Prim(Add)
  }

  /** Looking `+` up from such a scope climbs to the builtins and finds the addition. */
  lemma PlusFoundInChain(c: Store, k: nat)
    requires PlusTwoUp(c, k)
    ensures Lookup(2, c, k, "+").r == Ok(Prim(Add))
  {
    assert Lookup(0, c, k - 2, "+") == Outcome(Ok(Prim(Add)), c);
    var up := Lookup(1, c, k - 1, "+");
    assert up.r == Ok(Prim(Add));
  }

  /** A list whose head is no special form's name is a call. */
  lemma ListIsCall(fuel: nat, st: Store, e: nat, f: string, args: seq<Value>)
    requires ValidStore(st) && e < |st| && fuel > 0
    requires f !in {"quote", "if", "define", "set!", "lambda"}
    ensures Eval(fuel, st, e, List([Sym(f)] + args)) == EvalCall(fuel - 1, st, e, Sym(f), args)
  {
    var xs := [Sym(f)] + args;
    assert xs[0] == Sym(f) && xs[1..] == args;
    assert EvalList(fuel - 1, st, e, xs) == EvalCall(fuel - 1, st, e, Sym(f), args);
  }

  /** A call whose head and arguments are known applies the one to the others. */
  lemma CallApplies(fuel: nat, st: Store, e: nat, head: Value, argExprs: seq<Value>, f: Outcome, a: ArgsOutcome)
    requires ValidStore(st) && e < |st|
    requires f == Eval(fuel, st, e, head) && f.r.Ok?
    requires a == EvalArgs(fuel, f.st, e, argExprs) && a.r.Ok?
    ensures EvalCall(fuel, st, e, head, argExprs) == Apply(fuel, a.st, f.r.value, a.r.value)
  {
  }

  /** The builtin `+` adds two ints. */
  lemma AddsInts(fuel: nat, st: Store, a: int, b: int)
    requires ValidStore(st)
    ensures Apply(fuel, st, Prim(Add), [Int(a), Int(b)]) == Outcome(Ok(Int(a + b)), st)
  {
    assert Builtins.Call(Add, [Int(a), Int(b)]) == Builtins.Arith(Add, Int(a), Int(b));
  }

  /** In a scope whose chain of two empty scopes leads to the builtins, `(+ a b)` of two
      ints gives their sum. */
  lemma AddInChain(c: Store, k: nat, a: int, b: int)
    requires PlusTwoUp(c, k)
    ensures Eval(4, c, k, List([Sym("+"), Int(a), Int(b)])).r == Ok(Int(a + b))
  {
    ListIsCall(4, c, k, "+", [Int(a), Int(b)]);
    assert [Sym("+")] + [Int(a), Int(b)] == [Sym("+"), Int(a), Int(b)];
    var plus := Lookup(2, c, k, "+");
    PlusFoundInChain(c, k);
    assert Eval(3, c, k, Sym("+")) == plus;
    TwoInts(3, plus.st, k, a, b);
    CallApplies(3, c, k, Sym("+"), [Int(a), Int(b)], plus, ArgsOutcome(Ok([Int(a), Int(b)]), plus.st));
    AddsInts(3, plus.st, a, b);
  }

  /** Arguments that are ints evaluate to themselves, changing nothing. */
  lemma TwoInts(fuel: nat, st: Store, e: nat, a: int, b: int)
    requires ValidStore(st) && e < |st| && fuel > 0
    ensures EvalArgs(fuel, st, e, [Int(a), Int(b)]) == ArgsOutcome(Ok([Int(a), Int(b)]), st)
  {
    assert Eval(fuel, st, e, Int(a)) == Outcome(Ok(Int(a)), st);
    assert Eval(fuel, st, e, Int(b)) == Outcome(Ok(Int(b)), st);
    assert EvalArgs(fuel, st, e, []) == ArgsOutcome(Ok([]), st);
    var one := [Int(b)];
    assert one != [] && one[0] == Int(b) && one[1..] == [] && [Int(b)] + [] == one;
    assert EvalArgs(fuel, st, e, one) == ArgsOutcome(Ok(one), st);
    var two := [Int(a), Int(b)];
    assert two != [] && two[0] == Int(a) && two[1..] == one && [Int(a)] + one == two;
  }

  /** `(+ 1 2)` evaluated in the standard environment gives 3. */
  lemma OnePlusTwo(st: Store)
    requires ValidStore(st)
    ensures var r := RootScopes(st);
            Eval(4, NewChild(r, |st| + 1, map[]), |st| + 2, List([Sym("+"), Int(1), Int(2)])).r == Ok(Int(3))
  {
    var r := RootScopes(st);
    var c := NewChild(r, |st| + 1, map[]);
    PlusIsAdd();
    AddInChain(c, |st| + 2, 1, 2);
  }
}
