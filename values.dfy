/** The values a pyscheme program manipulates and the exceptions evaluation can raise. */
module Values {

  /** The modelled builtin procedures of the standard environment. */
  datatype Builtin =
    | Add | Sub | Mul | Gt | Lt | Ge | Le | NumEq | Abs | Mod | Expt | Max | Min
    | Append | Begin | Car | Cdr | Cons | IsEqual | Length | MakeList
    | IsList | IsNull | Not | IsNumber | IsProcedure | IsSymbol

  /** A Python value as pyscheme sees it.  An `int` is `Int`; a `float` is kept as the
      token text it was read from; a `Symbol` (a `str` subclass) is `Sym`; a Python
      list is `List`; a `Procedure` records its parameter expression, its body and the
      environment it closes over (an index into the store of environments, see
      module Core); a builtin is `Prim`. */
  datatype Value =
    | Int(i: int)
    | Float(text: string)
    | Sym(name: string)
    | Bool(b: bool)
    | NoneValue
    | List(items: seq<Value>)
    | Proc(params: Value, body: Value, env: nat)
    | Prim(op: Builtin)

  /** The Python exceptions evaluation can end in.  `Unmodelled` marks behaviour
      outside the model (floating-point arithmetic, plain strings) and `OutOfFuel`
      the model's bound on evaluation depth. */
  datatype Error =
    | KeyError(key: string)
    | TypeError(what: string)
    | ValueError(what: string)
    | IndexError
    | ZeroDivisionError
    | Unmodelled(what: string)
    | OutOfFuel

  function MaxNat(a: nat, b: nat): nat
  {
    if a < b then b else a
  }

  /** One more than the largest environment index a procedure inside `v` closes over,
      0 when there is none: `v` only refers to environments below `Bound(v)`. */
  function Bound(v: Value): nat
    decreases v, 1
  {
    match v
    case Proc(p, b, env) => MaxNat(env + 1, MaxNat(Bound(p), Bound(b)))
    case List(xs) => BoundFrom(v, 0)
    case _ => 0
  }

  /** The bound of the items of the list `v` from index `i` on. */
  function BoundFrom(v: Value, i: nat): nat
    requires v.List? && i <= |v.items|
    decreases v, 0, |v.items| - i
  {
    if i == |v.items| then 0 else MaxNat(Bound(v.items[i]), BoundFrom(v, i + 1))
  }

  /** The bound of a sequence of values. */
  function BoundAll(xs: seq<Value>): nat
  {
    Bound(List(xs))
  }

  lemma {:induction false} BoundFromItem(v: Value, i: nat, k: nat)
    requires v.List? && i <= k < |v.items|
    ensures Bound(v.items[k]) <= BoundFrom(v, i)
    decreases k - i
  {
    if i < k {
      BoundFromItem(v, i + 1, k);
    }
  }

  /** An item of a list is bounded by the list. */
  lemma BoundItem(xs: seq<Value>, k: nat)
    requires k < |xs|
    ensures Bound(xs[k]) <= BoundAll(xs)
  {
    BoundFromItem(List(xs), 0, k);
  }

  /** A list is bounded by any bound of all its items. */
  lemma {:induction false} BoundFromAtMost(v: Value, i: nat, n: nat)
    requires v.List? && i <= |v.items|
    requires forall k | i <= k < |v.items| :: Bound(v.items[k]) <= n
    ensures BoundFrom(v, i) <= n
    decreases |v.items| - i
  {
    if i < |v.items| {
      BoundFromAtMost(v, i + 1, n);
    }
  }

  lemma BoundAllAtMost(xs: seq<Value>, n: nat)
    requires forall k | 0 <= k < |xs| :: Bound(xs[k]) <= n
    ensures BoundAll(xs) <= n
  {
    BoundFromAtMost(List(xs), 0, n);
  }
}
