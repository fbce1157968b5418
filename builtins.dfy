/** The list and integer procedures of the standard environment
    (pyscheme/special_forms.py), as Python's `operator` functions, builtins and lambdas
    behave on the values of module Values. */
module Builtins {
  import opened Wrappers
  import opened Values

  /** Python's `bool` is a subclass of `int`: both take part in integer arithmetic. */
  function IntOf(v: Value): (r: Option<int>)
    ensures r.Some? <==> v.Int? || v.Bool?
  {
    match v
    case Int(i) => Some(i)
    case Bool(b) => Some(if b then 1 else 0)
    case _ => None
  }

  predicate IsNumeric(v: Value)
  {
    v.Int? || v.Bool? || v.Float?
  }

  /** Python truthiness: zero, empty collections and None are false; a float's
      truthiness depends on its value, which the model does not compute. */
  function Truthy(v: Value): (r: Result<bool, Error>)
    ensures r.Err? <==> v.Float?
    ensures v.Int? ==> r == Ok(v.i != 0)
    ensures v.List? ==> r == Ok(v.items != [])
  {
    match v
    case Int(i) => Ok(i != 0)
    case Float(_) => Err(Unmodelled("truthiness of a float"))
    case Sym(name) => Ok(name != [])
    case Bool(b) => Ok(b)
    case NoneValue => Ok(false)
    case List(xs) => Ok(xs != [])
    case Proc(_, _, _) => Ok(true)
    case Prim(_) => Ok(true)
  }

  /** Builtins that are the same Python function under two names compare equal. */
  function Canonical(op: Builtin): Builtin
  {
    match op
    case Append => Add
    case IsEqual => NumEq
    case _ => op
  }

  /** Python `==`.  Lists compare their lengths, then their items from left to right,
      stopping at the first difference; procedures compare by identity, which the model
      does not track. */
  function PyEquals(a: Value, b: Value): (r: Result<bool, Error>)
    decreases a, 1
  {
    if IntOf(a).Some? && IntOf(b).Some? then Ok(IntOf(a).value == IntOf(b).value)
    else if IsNumeric(a) && IsNumeric(b) then Err(Unmodelled("comparison of floats"))
    else if a.Sym? && b.Sym? then Ok(a.name == b.name)
    else if a.NoneValue? && b.NoneValue? then Ok(true)
    else if a.List? && b.List? then
      if |a.items| != |b.items| then Ok(false) else ItemsEqual(a, b.items, 0)
    else if a.Proc? && b.Proc? then Err(Unmodelled("identity of procedures"))
    else if a.Prim? && b.Prim? then Ok(Canonical(a.op) == Canonical(b.op))
    else Ok(false)
  }

  /** The item-by-item part of list equality, from index `k` on. */
  function ItemsEqual(a: Value, ys: seq<Value>, k: nat): (r: Result<bool, Error>)
    requires a.List? && |a.items| == |ys| && k <= |ys|
    decreases a, 0, |ys| - k
  {
    if k == |ys| then Ok(true)
    else match PyEquals(a.items[k], ys[k])
      case Err(e) => Err(e)
      case Ok(same) => if same then ItemsEqual(a, ys, k + 1) else Ok(false)
  }

  /** The sign of Python's ordering of `a` and `b`, defined for numbers; Python orders
      lists and strings too, which the model leaves out. */
  function Order(a: Value, b: Value): (r: Result<int, Error>)
    ensures r.Ok? <==> IntOf(a).Some? && IntOf(b).Some?
    ensures r.Ok? ==> (r.value < 0 <==> IntOf(a).value < IntOf(b).value)
    ensures r.Ok? ==> (r.value > 0 <==> IntOf(a).value > IntOf(b).value)
  {
    if IntOf(a).Some? && IntOf(b).Some? then
      var x, y := IntOf(a).value, IntOf(b).value;
      Ok(if x < y then -1 else if x > y then 1 else 0)
    else if IsNumeric(a) && IsNumeric(b) then Err(Unmodelled("comparison of floats"))
    else if (a.List? && b.List?) || (a.Sym? && b.Sym?) then Err(Unmodelled("ordering of sequences"))
    else Err(TypeError("'<' not supported between these types"))
  }

  function Pow(x: int, n: nat): int
  {
    if n == 0 then 1 else x * Pow(x, n - 1)
  }

  /** Python's `%` on ints: the remainder takes the sign of the divisor. */
  function FloorMod(x: int, y: int): (m: int)
    requires y != 0
    ensures y > 0 ==> 0 <= m < y
    ensures y < 0 ==> y < m <= 0
  {
    var r := x % y;
    if y < 0 && r != 0 then r + y else r
  }

  /** The quotient Python's `//` pairs with `%`, rounded towards negative infinity. */
  function FloorQuotient(x: int, y: int): int
    requires y != 0
  {
    if y < 0 && x % y != 0 then x / y - 1 else x / y
  }

  /** Python's division identity `x == (x // y) * y + x % y`: with the sign rule above,
      `FloorMod` is the remainder of the division rounded down. */
  lemma FloorModDivides(x: int, y: int)
    requires y != 0
    ensures x == y * FloorQuotient(x, y) + FloorMod(x, y)
  {
    var q, r := x / y, x % y;
    assert x == y * q + r;
    if y < 0 && r != 0 {
      assert y * (q - 1) == y * q - y;
    }
  }

  /** `xs * n` for a Python list: `n` copies, none when `n` is not positive. */
  function Repeat(xs: seq<Value>, n: int): (r: seq<Value>)
    ensures |r| == if n <= 0 then 0 else n * |xs|
    decreases if n <= 0 then 0 else n
  {
    if n <= 0 then [] else xs + Repeat(xs, n - 1)
  }

  /** The running maximum (or minimum) of Python's `max` (`min`): an item replaces the
      current one only when it is strictly greater (smaller). */
  function Extreme(best: Value, rest: seq<Value>, greatest: bool): (r: Result<Value, Error>)
    decreases |rest|
  {
    if rest == [] then Ok(best)
    else match Order(rest[0], best)
      case Err(e) => Err(e)
      case Ok(s) =>
        if (greatest && s > 0) || (!greatest && s < 0) then Extreme(rest[0], rest[1..], greatest)
        else Extreme(best, rest[1..], greatest)
  }

  /** `max`/`min` called with one iterable argument or with several arguments. */
  function MaxMin(args: seq<Value>, greatest: bool): (r: Result<Value, Error>)
  {
    if args == [] then Err(TypeError("expected at least 1 argument"))
    else if |args| == 1 then
      match args[0]
      case List(xs) =>
        if xs == [] then Err(ValueError("arg is an empty sequence")) else Extreme(xs[0], xs[1..], greatest)
      case Sym(_) => Err(Unmodelled("characters of a string"))
      case _ => Err(TypeError("object is not iterable"))
    else Extreme(args[0], args[1..], greatest)
  }

  function Arith(op: Builtin, a: Value, b: Value): (r: Result<Value, Error>)
    requires op in {Add, Sub, Mul, Mod, Expt}
  {
    if IntOf(a).Some? && IntOf(b).Some? then
      var x, y := IntOf(a).value, IntOf(b).value;
      if op == Add then Ok(Int(x + y))
      else if op == Sub then Ok(Int(x - y))
      else if op == Mul then Ok(Int(x * y))
      else if op == Mod then (if y == 0 then Err(ZeroDivisionError) else Ok(Int(FloorMod(x, y))))
      else if y >= 0 then Ok(Int(Pow(x, y)))
        else if x == 0 then Err(ZeroDivisionError)
        else Err(Unmodelled("negative power of an int is a float"))
    else if IsNumeric(a) && IsNumeric(b) then Err(Unmodelled("floating-point arithmetic"))
    else if op == Add && a.List? && b.List? then Ok(List(a.items + b.items))
    else if op == Mul && a.List? && IntOf(b).Some? then Ok(List(Repeat(a.items, IntOf(b).value)))
    else if op == Mul && IntOf(a).Some? && b.List? then Ok(List(Repeat(b.items, IntOf(a).value)))
    else if (op == Add && a.Sym? && b.Sym?) || (op == Mul && (a.Sym? || b.Sym?) && (IntOf(a).Some? || IntOf(b).Some?))
         || (op == Mod && a.Sym?) then
      Err(Unmodelled("plain string result"))
    else Err(TypeError("unsupported operand types"))
  }

  function Compared(op: Builtin, a: Value, b: Value): (r: Result<Value, Error>)
    requires op in {Gt, Lt, Ge, Le}
  {
    match Order(a, b)
    case Err(e) => Err(e)
    case Ok(s) =>
      Ok(Bool(if op == Gt then s > 0 else if op == Lt then s < 0 else if op == Ge then s >= 0 else s <= 0))
  }

  function ArityError(): Error
  {
    TypeError("wrong number of arguments")
  }

  /** Calling builtin `op` with the evaluated arguments `args`. */
  function Call(op: Builtin, args: seq<Value>): (r: Result<Value, Error>)
    ensures op == MakeList ==> r == Ok(List(args))
    ensures op in BinaryOps && |args| != 2 ==> r == Err(ArityError())
    ensures op in UnaryOps && |args| != 1 ==> r == Err(ArityError())
  {
    match op
    case MakeList => Ok(List(args))
    case Begin => if args == [] then Err(IndexError) else Ok(args[|args| - 1])
    case Max => MaxMin(args, true)
    case Min => MaxMin(args, false)
    case Add | Sub | Mul | Mod | Expt => if |args| != 2 then Err(ArityError()) else Arith(op, args[0], args[1])
    case Append => if |args| != 2 then Err(ArityError()) else Arith(Add, args[0], args[1])
    case Gt | Lt | Ge | Le => if |args| != 2 then Err(ArityError()) else Compared(op, args[0], args[1])
    case NumEq | IsEqual =>
      if |args| != 2 then Err(ArityError())
      else (match PyEquals(args[0], args[1]) case Ok(t) => Ok(Bool(t)) case Err(e) => Err(e))
    case Cons =>
      if |args| != 2 then Err(ArityError())
      else if args[1].List? then Ok(List([args[0]] + args[1].items))
      else Err(TypeError("can only concatenate list to list"))
    case Abs | Car | Cdr | Length | IsList | IsNull | Not | IsNumber | IsProcedure | IsSymbol =>
      if |args| != 1 then Err(ArityError()) else Unary(op, args[0])
  }

  const BinaryOps: set<Builtin> := {Add, Sub, Mul, Gt, Lt, Ge, Le, NumEq, Mod, Expt, Append, Cons, IsEqual}
  const UnaryOps: set<Builtin> := {Abs, Car, Cdr, Length, IsList, IsNull, Not, IsNumber, IsProcedure, IsSymbol}

  /** The builtins of one argument. */
  function Unary(op: Builtin, a: Value): (r: Result<Value, Error>)
    requires op in UnaryOps
  {
    match op
    case Abs =>
      if IntOf(a).Some? then Ok(Int(if IntOf(a).value < 0 then -IntOf(a).value else IntOf(a).value))
      else if a.Float? then Err(Unmodelled("floating-point arithmetic"))
      else Err(TypeError("bad operand type for abs()"))
    case Car =>
      if a.List? then (if a.items == [] then Err(IndexError) else Ok(a.items[0]))
      else if a.Sym? then (if a.name == [] then Err(IndexError) else Err(Unmodelled("plain string result")))
      else Err(TypeError("object is not subscriptable"))
    case Cdr =>
      if a.List? then Ok(List(if a.items == [] then [] else a.items[1..]))
      else if a.Sym? then Err(Unmodelled("plain string result"))
      else Err(TypeError("object is not subscriptable"))
    case Length =>
      if a.List? then Ok(Int(|a.items|))
      else if a.Sym? then Ok(Int(|a.name|))
      else Err(TypeError("object has no len()"))
    case IsList => Ok(Bool(a.List?))
    case IsNull => (match PyEquals(a, List([])) case Ok(t) => Ok(Bool(t)) case Err(e) => Err(e))
    case Not => (match Truthy(a) case Ok(t) => Ok(Bool(!t)) case Err(e) => Err(e))
    case IsNumber => Err(TypeError("isinstance() arg 2 must be a type"))
    case IsProcedure => Ok(Bool(a.Proc? || a.Prim?))
    case _ => Ok(Bool(a.Sym?)) // IsSymbol
  }

  /** `cons`, `car` and `cdr` undo each other. */
  lemma ConsCarCdr(x: Value, ys: seq<Value>)
    ensures Call(Cons, [x, List(ys)]) == Ok(List([x] + ys))
    ensures Call(Car, [List([x] + ys)]) == Ok(x)
    ensures Call(Cdr, [List([x] + ys)]) == Ok(List(ys))
  {
    assert ([x] + ys)[1..] == ys;
  }

  /** `null?` holds exactly for a value equal to the empty list, and never fails. */
  lemma IsNullIsEmptyList(v: Value)
    ensures Call(IsNull, [v]) == Ok(Bool(v == List([])))
  {
  }

  /** `begin` returns its last argument; `length` is `len` of a list. */
  lemma BeginAndLength(xs: seq<Value>, x: Value)
    ensures Call(Begin, xs + [x]) == Ok(x)
    ensures Call(Begin, []) == Err(IndexError)
    ensures Call(Length, [List(xs)]) == Ok(Int(|xs|))
  {
  }

  /** On ints and bools the arithmetic and comparison builtins are Python's integer
      operators: `mod` is the floored remainder and raises on a zero divisor. */
  lemma IntOperators(a: Value, b: Value)
    requires IntOf(a).Some? && IntOf(b).Some?
    ensures Call(Add, [a, b]) == Ok(Int(IntOf(a).value + IntOf(b).value))
    ensures Call(Sub, [a, b]) == Ok(Int(IntOf(a).value - IntOf(b).value))
    ensures Call(Mul, [a, b]) == Ok(Int(IntOf(a).value * IntOf(b).value))
    ensures IntOf(b).value == 0 ==> Call(Mod, [a, b]) == Err(ZeroDivisionError)
    ensures IntOf(b).value != 0 ==> Call(Mod, [a, b]) == Ok(Int(FloorMod(IntOf(a).value, IntOf(b).value)))
    ensures Call(Gt, [a, b]) == Ok(Bool(IntOf(a).value > IntOf(b).value))
    ensures Call(Lt, [a, b]) == Ok(Bool(IntOf(a).value < IntOf(b).value))
    ensures Call(Ge, [a, b]) == Ok(Bool(IntOf(a).value >= IntOf(b).value))
    ensures Call(Le, [a, b]) == Ok(Bool(IntOf(a).value <= IntOf(b).value))
    ensures Call(NumEq, [a, b]) == Ok(Bool(IntOf(a).value == IntOf(b).value))
  {
  }

  /** On lists `+` and `append` concatenate, `*` by an int repeats, and `equal?` of two
      lists of different lengths is false. */
  lemma ListOperators(xs: seq<Value>, ys: seq<Value>, n: int)
    ensures Call(Add, [List(xs), List(ys)]) == Ok(List(xs + ys))
    ensures Call(Append, [List(xs), List(ys)]) == Ok(List(xs + ys))
    ensures Call(Mul, [List(xs), Int(n)]) == Ok(List(Repeat(xs, n)))
    ensures Call(Mul, [Int(n), List(xs)]) == Ok(List(Repeat(xs, n)))
    ensures |xs| != |ys| ==> Call(IsEqual, [List(xs), List(ys)]) == Ok(Bool(false))
  {
  }

  /** The type tests and `abs`: `list?` holds exactly of lists, `symbol?` of symbols,
      `procedure?` of procedures and builtins, and `abs` of an int is its magnitude. */
  lemma UnaryOperators(v: Value, i: int)
    ensures Call(IsList, [v]) == Ok(Bool(v.List?))
    ensures Call(IsSymbol, [v]) == Ok(Bool(v.Sym?))
    ensures Call(IsProcedure, [v]) == Ok(Bool(v.Proc? || v.Prim?))
    ensures Call(Abs, [Int(i)]) == Ok(Int(if i < 0 then -i else i))
  {
  }

  /** Whether `a` wins over `b` in `max` (`greatest`) or `min`. */
  predicate Beats(a: Value, b: Value, greatest: bool)
    requires IntOf(a).Some? && IntOf(b).Some?
  {
    if greatest then IntOf(a).value > IntOf(b).value else IntOf(a).value < IntOf(b).value
  }

  predicate AllInts(xs: seq<Value>)
  {
    forall k | 0 <= k < |xs| :: IntOf(xs[k]).Some?
  }

  /** `m` is the first item of `xs` that no item beats, as Python's `max` and `min`
      return it. */
  ghost predicate FirstExtreme(xs: seq<Value>, m: Value, greatest: bool)
    requires AllInts(xs)
  {
    IntOf(m).Some? &&
    (forall j | 0 <= j < |xs| :: !Beats(xs[j], m, greatest)) &&
    exists k | 0 <= k < |xs| :: xs[k] == m && forall j | 0 <= j < k :: Beats(m, xs[j], greatest)
  }

  lemma {:induction false} ExtremeIsFirst(best: Value, rest: seq<Value>, greatest: bool)
    requires AllInts([best] + rest)
    ensures Extreme(best, rest, greatest).Ok?
    ensures FirstExtreme([best] + rest, Extreme(best, rest, greatest).value, greatest)
    decreases |rest|, 1
  {
    var xs := [best] + rest;
    assert xs[0] == best;
    if rest != [] {
      assert rest[0] == xs[1];
      if Beats(rest[0], best, greatest) {
        ExtremeTakes(best, rest, greatest);
      } else {
        ExtremeKeeps(best, rest, greatest);
      }
    }
  }

  /** The step where the next item beats the current one and replaces it. */
  lemma {:induction false} ExtremeTakes(best: Value, rest: seq<Value>, greatest: bool)
    requires rest != [] && AllInts([best] + rest) && IntOf(best).Some? && IntOf(rest[0]).Some?
    requires Beats(rest[0], best, greatest)
    ensures Extreme(best, rest, greatest).Ok?
    ensures FirstExtreme([best] + rest, Extreme(best, rest, greatest).value, greatest)
    decreases |rest|, 0
  {
    var xs := [best] + rest;
    var tail := rest[1..];
    assert [rest[0]] + tail == rest;
    assert AllInts(rest) by {
      forall j | 0 <= j < |rest|
        ensures IntOf(rest[j]).Some?
      {
        assert rest[j] == xs[j + 1];
      }
    }
    ExtremeIsFirst(rest[0], tail, greatest);
    var m := Extreme(rest[0], tail, greatest).value;
    assert Extreme(best, rest, greatest).value == m;
    var k :| 0 <= k < |rest| && rest[k] == m && forall j | 0 <= j < k :: Beats(m, rest[j], greatest);
    assert !Beats(rest[0], m, greatest);
    assert xs[k + 1] == m;
    forall j | 0 <= j < |xs|
      ensures !Beats(xs[j], m, greatest)
      ensures j < k + 1 ==> Beats(m, xs[j], greatest)
    {
      if j > 0 {
        assert xs[j] == rest[j - 1];
      }
    }
  }

  /** The step where the current item stays. */
  lemma {:induction false} ExtremeKeeps(best: Value, rest: seq<Value>, greatest: bool)
    requires rest != [] && AllInts([best] + rest) && IntOf(best).Some? && IntOf(rest[0]).Some?
    requires !Beats(rest[0], best, greatest)
    ensures Extreme(best, rest, greatest).Ok?
    ensures FirstExtreme([best] + rest, Extreme(best, rest, greatest).value, greatest)
    decreases |rest|, 0
  {
    var xs := [best] + rest;
    var tail := rest[1..];
    var ys := [best] + tail;
    assert AllInts(ys) by {
      forall j | 0 <= j < |ys|
        ensures IntOf(ys[j]).Some?
      {
        if j > 0 {
          assert ys[j] == xs[j + 1];
        }
      }
    }
    ExtremeIsFirst(best, tail, greatest);
    var m := Extreme(best, tail, greatest).value;
    assert Extreme(best, rest, greatest).value == m;
    var k :| 0 <= k < |ys| && ys[k] == m && forall j | 0 <= j < k :: Beats(m, ys[j], greatest);
    assert !Beats(ys[0], m, greatest);
    var k' := if k == 0 then 0 else k + 1;
    assert xs[k'] == m;
    forall j | 0 <= j < |xs|
      ensures !Beats(xs[j], m, greatest)
      ensures j < k' ==> Beats(m, xs[j], greatest)
    {
      if j > 1 {
        assert xs[j] == ys[j - 1];
      } else if j == 1 && j < k' {
        assert xs[1] == rest[0];
        assert Beats(m, ys[0], greatest);
      }
    }
  }

  /** The items `max` and `min` choose among: the items of a single list argument, or
      the arguments themselves. */
  function Candidates(args: seq<Value>): seq<Value>
  {
    if |args| == 1 && args[0].List? then args[0].items else args
  }

  /** On numbers, `max` (`min`) returns the first of its candidates that no other
      candidate exceeds (undercuts); with no candidates it raises. */
  lemma MaxMinIsFirstExtreme(args: seq<Value>, greatest: bool)
    requires |args| == 1 ==> args[0].List?
    requires AllInts(Candidates(args))
    ensures Candidates(args) == [] ==> MaxMin(args, greatest).Err?
    ensures Candidates(args) != [] ==>
              MaxMin(args, greatest).Ok? && FirstExtreme(Candidates(args), MaxMin(args, greatest).value, greatest)
  {
    var xs := Candidates(args);
    if xs != [] {
      assert [xs[0]] + xs[1..] == xs;
      ExtremeIsFirst(xs[0], xs[1..], greatest);
    }
  }
}
