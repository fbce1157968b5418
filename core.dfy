/** Environments and the evaluator (pyscheme/core.py).

    Python environments are objects linked by `parent` references; here they live in an
    arena, a sequence of scopes indexed by position, where a parent always comes before
    its children.  Evaluation threads the arena through every step, because looking a
    name up, `define` and `set!` all change scopes in place.  Evaluation can diverge (a
    definition that refers to itself), so it is bounded by a fuel argument. */
module Core {
  import opened Wrappers
  import opened Values
  import Builtins

  /** One `Environment`: its parent, its definition map, its value cache and the
      scopes that listen for its updates. */
  datatype Scope = Scope(parent: Option<nat>, defs: map<string, Value>, cache: map<string, Value>, listeners: set<nat>)

  type Store = seq<Scope>

  /** A parent comes before its children and a scope only notifies later scopes. */
  ghost predicate ScopeValid(st: Store, i: nat)
    requires i < |st|
  {
    (st[i].parent.Some? ==> st[i].parent.value < i) &&
    (forall l | l in st[i].listeners :: i < l < |st|)
  }

  ghost predicate ValidStore(st: Store)
  {
    forall i | 0 <= i < |st| :: ScopeValid(st, i)
  }

  /** Storing `v` under `name` in the cache of scope `i`. */
  function WithCache(st: Store, i: nat, name: string, v: Value): (r: Store)
    requires i < |st|
    ensures |r| == |st| && r[i].cache == st[i].cache[name := v]
    ensures forall j | 0 <= j < |st| :: r[j].parent == st[j].parent && r[j].listeners == st[j].listeners
    ensures forall j | 0 <= j < |st| && j != i :: r[j] == st[j]
    ensures r[i].defs == st[i].defs
    ensures ValidStore(st) ==> ValidStore(r)
  {
    var r := st[i := st[i].(cache := st[i].cache[name := v])];
    assert ValidStore(st) ==> forall j | 0 <= j < |r| :: ScopeValid(r, j) by {
      if ValidStore(st) {
        forall j | 0 <= j < |r|
          ensures ScopeValid(r, j)
        {
          assert ScopeValid(st, j);
        }
      }
    }
    r
  }

  /** A new scope whose parent is `p` and whose cache starts as `values`, registered as
      a listener of its parent so that the parent's updates reach it. */
  function NewChild(st: Store, p: nat, values: map<string, Value>): (r: Store)
    requires p < |st|
    ensures |r| == |st| + 1 && r[|st|] == Scope(Some(p), map[], values, {})
    ensures r[p].listeners == st[p].listeners + {|st|}
    ensures forall j | 0 <= j < |st| :: r[j].parent == st[j].parent && r[j].defs == st[j].defs && r[j].cache == st[j].cache
    ensures forall j | 0 <= j < |st| && j != p :: r[j] == st[j]
    ensures ValidStore(st) ==> ValidStore(r)
  {
    var r := st[p := st[p].(listeners := st[p].listeners + {|st|})] + [Scope(Some(p), map[], values, {})];
    assert ValidStore(st) ==> forall j | 0 <= j < |r| :: ScopeValid(r, j) by {
      if ValidStore(st) {
        forall j | 0 <= j < |r|
          ensures ScopeValid(r, j)
        {
          if j < |st| {
            assert ScopeValid(st, j);
          }
        }
      }
    }
    r
  }

  /** The result of evaluating: a value or an exception, and the arena afterwards (an
      exception does not undo the changes made before it). */
  datatype Outcome = Outcome(r: Result<Value, Error>, st: Store)

  datatype ArgsOutcome = ArgsOutcome(r: Result<seq<Value>, Error>, st: Store)

  /** `is_symbol`: `x` is the symbol `s`. */
  predicate IsForm(x: Value, s: string)
  {
    x.Sym? && x.name == s
  }

  /** The keys a procedure binds its parameters to: the items of a parameter list, or
      the characters of a parameter symbol (Python iterates a string by character). */
  function ParamKeys(params: Value): (r: Result<seq<Value>, Error>)
    ensures params.List? ==> r == Ok(params.items)
    ensures params.Sym? ==> (r.Ok? && |r.value| == |params.name| &&
              forall k | 0 <= k < |params.name| :: r.value[k] == Sym([params.name[k]]))
    ensures !params.List? && !params.Sym? ==> r.Err?
  {
    match params
    case List(ps) => Ok(ps)
    case Sym(name) => Ok(seq(|name|, k requires 0 <= k < |name| => Sym([name[k]])))
    case _ => Err(TypeError("object is not iterable"))
  }

  function Min(a: nat, b: nat): nat
  {
    if a < b then a else b
  }

  /** `{k: v for k, v in zip(keys, args)}`: the pairs up to the shorter of the two
      sequences, a later pair overwriting an earlier one with the same key. */
  function Bind(keys: seq<Value>, args: seq<Value>): (r: Result<map<string, Value>, Error>)
    decreases |keys|
  {
    var n := Min(|keys|, |args|);
    if n == 0 then Ok(map[])
    else match Bind(keys[..n - 1], args[..n - 1])
      case Err(e) => Err(e)
      case Ok(m) =>
        match keys[n - 1]
        case Sym(k) => Ok(m[k := args[n - 1]])
        case List(_) => Err(TypeError("unhashable type: 'list'"))
        case _ => Err(Unmodelled("a parameter that is not a symbol"))
  }

  /** `evaluate(x, env)` with `env` the scope at index `e`. */
  function Eval(fuel: nat, st: Store, e: nat, x: Value): (o: Outcome)
    requires ValidStore(st) && e < |st|
    ensures ValidStore(o.st) && |st| <= |o.st|
    decreases fuel, 0, 0
  {
    if fuel == 0 then Outcome(Err(OutOfFuel), st)
    else match x
      case Sym(name) => Lookup(fuel - 1, st, e, name)
      case List(xs) => EvalList(fuel - 1, st, e, xs)
      case _ => Outcome(Ok(x), st)
  }

  /** Evaluating a list: a special form or a procedure call.  Unpacking a special form
      with the wrong number of parts raises ValueError; the empty list has no head. */
  function EvalList(fuel: nat, st: Store, e: nat, xs: seq<Value>): (o: Outcome)
    requires ValidStore(st) && e < |st|
    ensures ValidStore(o.st) && |st| <= |o.st|
    decreases fuel, 3, 0
  {
    if xs == [] then Outcome(Err(IndexError), st)
    else if IsForm(xs[0], "quote") then
      if |xs| != 2 then Outcome(Err(ValueError("quote")), st) else Outcome(Ok(xs[1]), st)
    else if IsForm(xs[0], "if") then
      if |xs| != 4 then Outcome(Err(ValueError("if")), st) else EvalIf(fuel, st, e, xs[1], xs[2], xs[3])
    else if IsForm(xs[0], "define") then
      if |xs| != 3 then Outcome(Err(ValueError("define")), st) else EvalDefine(fuel, st, e, xs[1], xs[2])
    else if IsForm(xs[0], "set!") then
      if |xs| != 3 then Outcome(Err(ValueError("set!")), st) else EvalSet(fuel, st, e, xs[1], xs[2])
    else if IsForm(xs[0], "lambda") then
      if |xs| != 3 then Outcome(Err(ValueError("lambda")), st) else Outcome(Ok(Proc(xs[1], xs[2], e)), st)
    else EvalCall(fuel, st, e, xs[0], xs[1..])
  }

  /** `if`: the test, then exactly one of the two branches. */
  function EvalIf(fuel: nat, st: Store, e: nat, test: Value, conseq: Value, alt: Value): (o: Outcome)
    requires ValidStore(st) && e < |st|
    ensures ValidStore(o.st) && |st| <= |o.st|
    decreases fuel, 1, 0
  {
    var t := Eval(fuel, st, e, test);
    match t.r
    case Err(err) => t
    case Ok(v) =>
      match Builtins.Truthy(v)
      case Err(err) => Outcome(Err(err), t.st)
      case Ok(b) => Eval(fuel, t.st, e, if b then conseq else alt)
  }

  /** The `define` form: the value is evaluated, then stored in the current scope's
      cache (not its definitions); the form's value is None. */
  function EvalDefine(fuel: nat, st: Store, e: nat, name: Value, x: Value): (o: Outcome)
    requires ValidStore(st) && e < |st|
    ensures ValidStore(o.st) && |st| <= |o.st|
    decreases fuel, 1, 0
  {
    var v := Eval(fuel, st, e, x);
    match v.r
    case Err(err) => v
    case Ok(value) =>
      match name
      case Sym(s) => Outcome(Ok(NoneValue), WithCache(v.st, e, s, value))
      case List(_) => Outcome(Err(TypeError("unhashable type: 'list'")), v.st)
      case _ => Outcome(Err(Unmodelled("a name that is not a symbol")), v.st)
  }

  /** The `set!` form: the value is evaluated, then assigned with `SetItem`. */
  function EvalSet(fuel: nat, st: Store, e: nat, name: Value, x: Value): (o: Outcome)
    requires ValidStore(st) && e < |st|
    ensures ValidStore(o.st) && |st| <= |o.st|
    decreases fuel, 1, 0
  {
    var v := Eval(fuel, st, e, x);
    match v.r
    case Err(err) => v
    case Ok(value) =>
      match name
      case Sym(s) =>
        (match SetItem(v.st, e, s, value)
         case Ok(st') => Outcome(Ok(NoneValue), st')
         case Err(err) => Outcome(Err(err), v.st))
      case List(_) => Outcome(Err(TypeError("unhashable type: 'list'")), v.st)
      case _ => Outcome(Err(Unmodelled("a name that is not a symbol")), v.st)
  }

  /** A procedure call: the head, then the arguments from left to right, then the
      application. */
  function EvalCall(fuel: nat, st: Store, e: nat, head: Value, argExprs: seq<Value>): (o: Outcome)
    requires ValidStore(st) && e < |st|
    ensures ValidStore(o.st) && |st| <= |o.st|
    decreases fuel, 2, 0
  {
    var f := Eval(fuel, st, e, head);
    match f.r
    case Err(err) => f
    case Ok(proc) =>
      var a := EvalArgs(fuel, f.st, e, argExprs);
      match a.r
      case Err(err) => Outcome(Err(err), a.st)
      case Ok(args) => Apply(fuel, a.st, proc, args)
  }

  /** The arguments of a call, from left to right, stopping at the first exception. */
  function EvalArgs(fuel: nat, st: Store, e: nat, xs: seq<Value>): (o: ArgsOutcome)
    requires ValidStore(st) && e < |st|
    ensures ValidStore(o.st) && |st| <= |o.st|
    ensures o.r.Ok? ==> |o.r.value| == |xs|
    decreases fuel, 1, |xs|
  {
    if xs == [] then ArgsOutcome(Ok([]), st)
    else
      var first := Eval(fuel, st, e, xs[0]);
      match first.r
      case Err(err) => ArgsOutcome(Err(err), first.st)
      case Ok(v) =>
        var rest := EvalArgs(fuel, first.st, e, xs[1..]);
        match rest.r
        case Err(err) => rest
        case Ok(vs) => ArgsOutcome(Ok([v] + vs), rest.st)
  }

  /** Calling `proc`: a builtin computes its result; a `Procedure` evaluates its body in
      a new child of the scope it captured, with its parameters bound by `zip`; any
      other value is not callable. */
  function Apply(fuel: nat, st: Store, proc: Value, args: seq<Value>): (o: Outcome)
    requires ValidStore(st)
    ensures ValidStore(o.st) && |st| <= |o.st|
    decreases fuel, 1, 0
  {
    match proc
    case Prim(op) => Outcome(Builtins.Call(op, args), st)
    case Proc(params, body, env) =>
      if env >= |st| then Outcome(Err(Unmodelled("a procedure from another arena")), st)
      else
        (match ParamKeys(params)
         case Err(err) => Outcome(Err(err), st)
         case Ok(keys) =>
           match Bind(keys, args)
           case Err(err) => Outcome(Err(err), st)
           case Ok(values) => Eval(fuel, NewChild(st, env, values), |st|, body))
    case _ => Outcome(Err(TypeError("object is not callable")), st)
  }

  /** `Environment.__getitem__`: the cache, then the local definition (evaluated in a
      new child), then the parent; whatever is found is cached in this scope. */
  function Lookup(fuel: nat, st: Store, i: nat, name: string): (o: Outcome)
    requires ValidStore(st) && i < |st|
    ensures ValidStore(o.st) && |st| <= |o.st|
    ensures o.r.Ok? ==> name in o.st[i].cache && o.st[i].cache[name] == o.r.value
    decreases fuel, 1, 0
  {
    if name in st[i].cache then Outcome(Ok(st[i].cache[name]), st)
    else if name in st[i].defs then
      Memo(Eval(fuel, NewChild(st, i, map[]), |st|, st[i].defs[name]), i, name)
    else match st[i].parent
      case None => Outcome(Err(KeyError(name)), st)
      case Some(p) =>
        assert ScopeValid(st, i);
        if fuel == 0 then Outcome(Err(OutOfFuel), st)
        else Memo(Lookup(fuel - 1, st, p, name), i, name)
  }

  /** A successful lookup stores its value in scope `i`'s cache. */
  function Memo(o: Outcome, i: nat, name: string): (r: Outcome)
    requires ValidStore(o.st) && i < |o.st|
    ensures ValidStore(r.st) && |r.st| == |o.st| && r.r == o.r
    ensures r.r.Ok? ==> name in r.st[i].cache && r.st[i].cache[name] == r.r.value
  {
    match o.r
    case Ok(v) => Outcome(o.r, WithCache(o.st, i, name, v))
    case Err(_) => o
  }

  /** `Environment.__setitem__`: overwrite the value cached in the nearest scope,
      starting at `i`, that caches `name` without defining it. */
  function SetItem(st: Store, i: nat, name: string, v: Value): (r: Result<Store, Error>)
    requires ValidStore(st) && i < |st|
    ensures r.Ok? ==> ValidStore(r.value) && |r.value| == |st|
    decreases i
  {
    if name in st[i].cache && name !in st[i].defs then Ok(WithCache(st, i, name, v))
    else match st[i].parent
      case Some(p) => assert ScopeValid(st, i); SetItem(st, p, name, v)
      case None => Err(KeyError(name))
  }

  /** `Environment.__contains__`: `name` is cached or defined here or in an ancestor. */
  predicate Contains(st: Store, i: nat, name: string)
    requires ValidStore(st) && i < |st|
    decreases i
  {
    name in st[i].cache || name in st[i].defs ||
    (st[i].parent.Some? && (assert ScopeValid(st, i); Contains(st, st[i].parent.value, name)))
  }

  /** Scope `j` hears an update of scope `i`: it is `i` itself or it hears one of the
      scopes listening to `i` (`_handle_update` calls `_notify_listeners`). */
  ghost predicate Hears(st: Store, i: nat, j: nat)
    requires ValidStore(st) && i < |st|
    decreases |st| - i
  {
    i == j || exists l | l in st[i].listeners :: (assert ScopeValid(st, i); Hears(st, l, j))
  }

  /** The scopes an update of scope `i` reaches. */
  ghost function Heard(st: Store, i: nat): set<nat>
    requires ValidStore(st) && i < |st|
  {
    set j | 0 <= j < |st| && Hears(st, i, j)
  }

  /** The arena with the caches of the scopes in `clear` emptied. */
  function ClearWhere(st: Store, clear: set<nat>): (r: Store)
    ensures |r| == |st|
    ensures forall j | 0 <= j < |st| :: r[j] == if j in clear then st[j].(cache := map[]) else st[j]
  {
    seq(|st|, j requires 0 <= j < |st| => if j in clear then st[j].(cache := map[]) else st[j])
  }

  /** Whether two arenas have the same shape: the same parents and listeners. */
  ghost predicate SameLinks(st: Store, st': Store)
  {
    |st| == |st'| && forall j | 0 <= j < |st| :: st[j].parent == st'[j].parent && st[j].listeners == st'[j].listeners
  }

  lemma ClearWhereKeepsLinks(st: Store, clear: set<nat>)
    ensures SameLinks(st, ClearWhere(st, clear))
    ensures ValidStore(st) ==> ValidStore(ClearWhere(st, clear))
  {
    var r := ClearWhere(st, clear);
    if ValidStore(st) {
      forall j | 0 <= j < |r|
        ensures ScopeValid(r, j)
      {
        assert ScopeValid(st, j);
      }
    }
  }

  lemma ClearWhereTwice(st: Store, a: set<nat>, b: set<nat>)
    ensures ClearWhere(ClearWhere(st, a), b) == ClearWhere(st, a + b)
  {
  }

  /** Who hears an update depends only on the listener links. */
  lemma {:induction false} HearsByLinks(st: Store, st': Store, i: nat, j: nat)
    requires ValidStore(st) && ValidStore(st') && SameLinks(st, st') && i < |st|
    ensures Hears(st, i, j) <==> Hears(st', i, j)
    decreases |st| - i
  {
    assert ScopeValid(st, i);
    forall l | l in st[i].listeners
      ensures Hears(st, l, j) <==> Hears(st', l, j)
    {
      HearsByLinks(st, st', l, j);
    }
  }

  /** An update only reaches scopes created after the updated one: never an ancestor. */
  lemma {:induction false} HearsOnlyLater(st: Store, i: nat, j: nat)
    requires ValidStore(st) && i < |st| && Hears(st, i, j)
    ensures i <= j
    decreases |st| - i
  {
    if i != j {
      assert ScopeValid(st, i);
      var l :| l in st[i].listeners && Hears(st, l, j);
      HearsOnlyLater(st, l, j);
    }
  }

  /** The scopes that hear an update of one of the scopes in `from`. */
  ghost function HeardVia(st: Store, from: set<nat>): set<nat>
    requires ValidStore(st)
  {
    set j | 0 <= j < |st| && HearsOneOf(st, from, j)
  }

  ghost predicate HearsOneOf(st: Store, from: set<nat>, j: nat)
    requires ValidStore(st)
  {
    exists l | l in from && l < |st| :: Hears(st, l, j)
  }

  lemma HeardViaNothing(st: Store)
    requires ValidStore(st)
    ensures HeardVia(st, {}) == {}
  {
  }

  lemma HeardViaOneMore(st: Store, from: set<nat>, l: nat)
    requires ValidStore(st) && l < |st|
    ensures HeardVia(st, from + {l}) == HeardVia(st, from) + Heard(st, l)
  {
  }

  lemma HeardByLinks(st: Store, st': Store, i: nat)
    requires ValidStore(st) && ValidStore(st') && SameLinks(st, st') && i < |st|
    ensures Heard(st, i) == Heard(st', i)
  {
    forall j | 0 <= j < |st|
      ensures Hears(st, i, j) <==> Hears(st', i, j)
    {
      HearsByLinks(st, st', i, j);
    }
  }

  /** The update reaches the updated scope and everything its listeners hear. */
  lemma HeardUnfolds(st: Store, i: nat)
    requires ValidStore(st) && i < |st|
    ensures Heard(st, i) == {i} + HeardVia(st, st[i].listeners)
  {
    assert ScopeValid(st, i);
    forall j | j in Heard(st, i)
      ensures j in {i} + HeardVia(st, st[i].listeners)
    {
      if j != i {
        var l :| l in st[i].listeners && Hears(st, l, j);
      }
    }
  }

  /** Replacing the definitions of scope `i`. */
  function WithDefs(st: Store, i: nat, defs: map<string, Value>): (r: Store)
    requires i < |st|
    ensures r == st[i := st[i].(defs := defs)]
    ensures SameLinks(st, r) && (ValidStore(st) ==> ValidStore(r))
  {
    var r := st[i := st[i].(defs := defs)];
    assert ValidStore(st) ==> forall j | 0 <= j < |r| :: ScopeValid(r, j) by {
      if ValidStore(st) {
        forall j | 0 <= j < |r|
          ensures ScopeValid(r, j)
        {
          assert ScopeValid(st, j);
        }
      }
    }
    r
  }

  /** `Environment.define`: the definition is stored, then `_handle_update` empties
      the cache of the scope and of every scope that hears it. */
  ghost function AfterDefine(st: Store, i: nat, name: string, x: Value): (r: Store)
    requires ValidStore(st) && i < |st|
  {
    var st1 := WithDefs(st, i, st[i].defs[name := x]);
    ClearWhere(st1, Heard(st1, i))
  }

  /** `update` (and the `values` argument of the constructor): the pairs are stored in
      order, a later pair overwriting an earlier one. */
  function Updated(m: map<string, Value>, pairs: seq<(string, Value)>): (r: map<string, Value>)
    decreases |pairs|
  {
    if pairs == [] then m else Updated(m[pairs[0].0 := pairs[0].1], pairs[1..])
  }

  /** Caching all of `values` in scope `i`. */
  function WithValues(st: Store, i: nat, values: map<string, Value>): (r: Store)
    requires i < |st|
    ensures r == st[i := st[i].(cache := st[i].cache + values)]
    ensures SameLinks(st, r) && (ValidStore(st) ==> ValidStore(r))
  {
    var r := st[i := st[i].(cache := st[i].cache + values)];
    assert ValidStore(st) ==> forall j | 0 <= j < |r| :: ScopeValid(r, j) by {
      if ValidStore(st) {
        forall j | 0 <= j < |r|
          ensures ScopeValid(r, j)
        {
          assert ScopeValid(st, j);
        }
      }
    }
    r
  }

  /** The pairs given to the constructor: a name maps to the value of its last pair;
      names without a pair keep their entry. */
  lemma {:induction false} UpdatedLastWins(m: map<string, Value>, pairs: seq<(string, Value)>, name: string)
    ensures name in Updated(m, pairs) <==> name in m || exists k | 0 <= k < |pairs| :: pairs[k].0 == name
    ensures forall k | 0 <= k < |pairs| && pairs[k].0 == name && (forall j | k < j < |pairs| :: pairs[j].0 != name) ::
              Updated(m, pairs)[name] == pairs[k].1
    ensures (forall k | 0 <= k < |pairs| :: pairs[k].0 != name) && name in m ==> Updated(m, pairs)[name] == m[name]
    decreases |pairs|
  {
    if pairs != [] {
      var rest := pairs[1..];
      UpdatedLastWins(m[pairs[0].0 := pairs[0].1], rest, name);
      assert forall k | 1 <= k < |pairs| :: pairs[k] == rest[k - 1];
      assert forall k | 0 <= k < |rest| :: rest[k] == pairs[k + 1];
    }
  }

  /** A new `Environment`, registered with its parent when it has one. */
  function NewScope(st: Store, parent: Option<nat>, values: seq<(string, Value)>, definitions: seq<(string, Value)>): (r: Store)
    requires parent.Some? ==> parent.value < |st|
    ensures |r| == |st| + 1
    ensures r[|st|] == Scope(parent, Updated(map[], definitions), Updated(map[], values), {})
    ensures ValidStore(st) ==> ValidStore(r)
  {
    match parent
    case None =>
      var r := st + [Scope(None, Updated(map[], definitions), Updated(map[], values), {})];
      assert ValidStore(st) ==> forall j | 0 <= j < |r| :: ScopeValid(r, j) by {
        if ValidStore(st) {
          forall j | 0 <= j < |r|
            ensures ScopeValid(r, j)
          {
            if j < |st| {
              assert ScopeValid(st, j);
            }
          }
        }
      }
      r
    case Some(p) =>
      var r := NewChild(st, p, Updated(map[], values));
      WithDefs(r, |st|, Updated(map[], definitions))
  }

  /** A name that is neither cached nor defined anywhere up the parent chain is not
      found: KeyError, unless the fuel runs out first; nothing changes. */
  lemma {:induction false} MissingIsKeyError(fuel: nat, st: Store, i: nat, name: string)
    requires ValidStore(st) && i < |st| && !Contains(st, i, name)
    ensures Lookup(fuel, st, i, name) == Outcome(Err(KeyError(name)), st) ||
            Lookup(fuel, st, i, name) == Outcome(Err(OutOfFuel), st)
    decreases fuel
  {
    if st[i].parent.Some? && fuel > 0 {
      assert ScopeValid(st, i);
      MissingIsKeyError(fuel - 1, st, st[i].parent.value, name);
    }
  }

  /** A value found in the cache is returned as it is, even when the name is also
      defined, and nothing changes. */
  lemma CacheShadowsDefinition(fuel: nat, st: Store, i: nat, name: string)
    requires ValidStore(st) && i < |st| && name in st[i].cache
    ensures Lookup(fuel, st, i, name) == Outcome(Ok(st[i].cache[name]), st)
  {
  }

  /** Lookup is memoised: once it has produced a value, looking the name up again in
      the same scope returns that value without evaluating anything. */
  lemma LookupIsMemoised(fuel: nat, fuel': nat, st: Store, i: nat, name: string)
    requires ValidStore(st) && i < |st| && Lookup(fuel, st, i, name).r.Ok?
    ensures var o := Lookup(fuel, st, i, name);
            Lookup(fuel', o.st, i, name) == o
  {
  }

  /** Scope `j` is `i` or one of its ancestors. */
  ghost predicate OnChain(st: Store, i: nat, j: nat)
    requires ValidStore(st) && i < |st|
    decreases i
  {
    i == j || (st[i].parent.Some? && (assert ScopeValid(st, i); OnChain(st, st[i].parent.value, j)))
  }

  /** `set!` may overwrite `name` in a scope that caches it without defining it. */
  predicate Settable(sc: Scope, name: string)
  {
    name in sc.cache && name !in sc.defs
  }

  lemma {:induction false} ChainGoesUp(st: Store, i: nat, j: nat)
    requires ValidStore(st) && i < |st| && OnChain(st, i, j)
    ensures j <= i
    decreases i
  {
    if i != j {
      assert ScopeValid(st, i);
      ChainGoesUp(st, st[i].parent.value, j);
    }
  }

  /** `set!` succeeds exactly when some scope up the chain caches the name without
      defining it, and then overwrites the nearest such scope and nothing else;
      otherwise it raises KeyError. */
  lemma {:induction false} SetItemNearest(st: Store, i: nat, name: string, v: Value)
    requires ValidStore(st) && i < |st|
    ensures SetItem(st, i, name, v).Ok? <==> exists j | 0 <= j <= i :: OnChain(st, i, j) && Settable(st[j], name)
    ensures SetItem(st, i, name, v).Ok? ==>
              exists j | 0 <= j <= i :: OnChain(st, i, j) && Settable(st[j], name) &&
                SetItem(st, i, name, v).value == WithCache(st, j, name, v) &&
                forall k | j < k <= i :: OnChain(st, i, k) ==> !Settable(st[k], name)
    ensures SetItem(st, i, name, v).Err? ==> SetItem(st, i, name, v).error == KeyError(name)
    decreases i
  {
    if Settable(st[i], name) {
      assert OnChain(st, i, i);
    } else if st[i].parent.Some? {
      assert ScopeValid(st, i);
      var p := st[i].parent.value;
      SetItemNearest(st, p, name, v);
      forall k | 0 <= k <= i && OnChain(st, i, k) && k != i
        ensures OnChain(st, p, k) && k <= p
      {
        ChainGoesUp(st, p, k);
      }
      forall k | 0 <= k <= p && OnChain(st, p, k)
        ensures OnChain(st, i, k)
      {
      }
    } else {
      forall j | 0 <= j <= i && OnChain(st, i, j)
        ensures j == i
      {
      }
    }
  }

  /** `zip` binds the first `n` keys to the first `n` arguments, `n` the shorter
      length: binding fails exactly when one of those keys is not a symbol. */
  lemma {:induction false} BindFailsOnNonSymbol(keys: seq<Value>, args: seq<Value>)
    ensures Bind(keys, args).Ok? <==> forall k | 0 <= k < Min(|keys|, |args|) :: keys[k].Sym?
    decreases |keys|
  {
    var n := Min(|keys|, |args|);
    if n > 0 {
      var ks, vs := keys[..n - 1], args[..n - 1];
      BindFailsOnNonSymbol(ks, vs);
      assert forall k | 0 <= k < n - 1 :: ks[k] == keys[k];
    }
  }

  /** The names bound are exactly those of the first `n` keys. */
  lemma {:induction false} BindNames(keys: seq<Value>, args: seq<Value>)
    requires Bind(keys, args).Ok?
    ensures forall s | s in Bind(keys, args).value :: exists k | 0 <= k < Min(|keys|, |args|) :: keys[k] == Sym(s)
    ensures forall k | 0 <= k < Min(|keys|, |args|) :: keys[k].Sym? && keys[k].name in Bind(keys, args).value
    decreases |keys|
  {
    var n := Min(|keys|, |args|);
    if n > 0 {
      var ks, vs := keys[..n - 1], args[..n - 1];
      BindNames(ks, vs);
      assert forall k | 0 <= k < n - 1 :: ks[k] == keys[k];
    }
  }

  /** Each bound name holds the argument paired with its last occurrence. */
  lemma {:induction false} BindLastWins(keys: seq<Value>, args: seq<Value>, k: nat)
    requires Bind(keys, args).Ok? && k < Min(|keys|, |args|)
    requires forall j | k < j < Min(|keys|, |args|) :: keys[j] != keys[k]
    ensures keys[k].Sym? && keys[k].name in Bind(keys, args).value
    ensures Bind(keys, args).value[keys[k].name] == args[k]
    decreases |keys|
  {
    var n := Min(|keys|, |args|);
    var ks, vs := keys[..n - 1], args[..n - 1];
    BindNames(keys, args);
    if k < n - 1 {
      BindLastWins(ks, vs, k);
      assert keys[n - 1] != keys[k];
    }
  }

  /** The cases of `evaluate`: a symbol is looked up, a value that is neither a symbol nor
      a list is returned unchanged, `quote` returns its argument unevaluated, `lambda`
      captures the current scope, and the empty list has no head. */
  lemma EvalCases(fuel: nat, st: Store, e: nat, x: Value, p: Value, b: Value)
    requires ValidStore(st) && e < |st| && fuel > 0
    ensures x.Sym? ==> Eval(fuel, st, e, x) == Lookup(fuel - 1, st, e, x.name)
    ensures !x.Sym? && !x.List? ==> Eval(fuel, st, e, x) == Outcome(Ok(x), st)
    ensures Eval(fuel, st, e, List([Sym("quote"), x])) == Outcome(Ok(x), st)
    ensures Eval(fuel, st, e, List([Sym("lambda"), p, b])) == Outcome(Ok(Proc(p, b, e)), st)
    ensures Eval(fuel, st, e, List([])) == Outcome(Err(IndexError), st)
  {
  }

  /** The `define` form evaluates its value eagerly, caches it in the current scope and
      yields None; the `set!` form also yields None when the assignment succeeds. */
  lemma DefineAndSetYieldNone(fuel: nat, st: Store, e: nat, s: string, x: Value)
    requires ValidStore(st) && e < |st| && fuel > 0
    ensures var v := Eval(fuel - 1, st, e, x);
            v.r.Ok? ==> Eval(fuel, st, e, List([Sym("define"), Sym(s), x])) ==
                        Outcome(Ok(NoneValue), WithCache(v.st, e, s, v.r.value))
    ensures var v := Eval(fuel - 1, st, e, x);
            v.r.Ok? && SetItem(v.st, e, s, v.r.value).Ok? ==>
              Eval(fuel, st, e, List([Sym("set!"), Sym(s), x])) ==
              Outcome(Ok(NoneValue), SetItem(v.st, e, s, v.r.value).value)
  {
    var xs := [Sym("define"), Sym(s), x];
    assert IsForm(xs[0], "define") && !IsForm(xs[0], "quote") && !IsForm(xs[0], "if");
    assert Eval(fuel, st, e, List(xs)) == EvalDefine(fuel - 1, st, e, Sym(s), x);
    var ys := [Sym("set!"), Sym(s), x];
    assert IsForm(ys[0], "set!") && !IsForm(ys[0], "define");
    assert !IsForm(ys[0], "quote") && !IsForm(ys[0], "if");
    assert Eval(fuel, st, e, List(ys)) == EvalSet(fuel - 1, st, e, Sym(s), x);
  }

  /** Calling a procedure evaluates its body in a new child of the scope it captured,
      with the parameters bound by `zip`. */
  lemma CallEvaluatesInCapturedScope(fuel: nat, st: Store, params: Value, body: Value, env: nat,
                                     args: seq<Value>, keys: seq<Value>, values: map<string, Value>)
    requires ValidStore(st) && env < |st|
    requires ParamKeys(params) == Ok(keys) && Bind(keys, args) == Ok(values)
    ensures Apply(fuel, st, Proc(params, body, env), args) == Eval(fuel, NewChild(st, env, values), |st|, body)
  {
  }

  /** Lookup tries the local definition, evaluated in a new child, before the parent, and
      the parent before raising. */
  lemma LookupOrder(fuel: nat, st: Store, i: nat, name: string)
    requires ValidStore(st) && i < |st| && name !in st[i].cache
    ensures name in st[i].defs ==>
              Lookup(fuel, st, i, name) == Memo(Eval(fuel, NewChild(st, i, map[]), |st|, st[i].defs[name]), i, name)
    ensures name !in st[i].defs && st[i].parent.Some? && fuel > 0 ==>
              st[i].parent.value < |st| &&
              Lookup(fuel, st, i, name) == Memo(Lookup(fuel - 1, st, st[i].parent.value, name), i, name)
    ensures name !in st[i].defs && st[i].parent.None? ==>
              Lookup(fuel, st, i, name) == Outcome(Err(KeyError(name)), st)
  {
    if st[i].parent.Some? {
      assert ScopeValid(st, i);
    }
  }

  /** `if` evaluates only the branch its test selects: the other branch can be
      anything. */
  lemma IfTakesOneBranch(fuel: nat, st: Store, e: nat, test: Value, conseq: Value, alt: Value, other: Value, t: Outcome)
    requires ValidStore(st) && e < |st| && t == Eval(fuel, st, e, test) && t.r.Ok?
    ensures Builtins.Truthy(t.r.value) == Ok(true) ==>
              EvalIf(fuel, st, e, test, conseq, alt) == EvalIf(fuel, st, e, test, conseq, other)
    ensures Builtins.Truthy(t.r.value) == Ok(false) ==>
              EvalIf(fuel, st, e, test, conseq, alt) == EvalIf(fuel, st, e, test, other, alt)
  {
  }

  /** `define` stores the definition and empties the cache of the scope, of every
      scope that hears it and of no other; an ancestor is never touched. */
  lemma DefineClears(st: Store, i: nat, name: string, x: Value)
    requires ValidStore(st) && i < |st|
    ensures var r := AfterDefine(st, i, name, x);
            |r| == |st| && r[i].defs == st[i].defs[name := x] && r[i].cache == map[] &&
            (forall j | 0 <= j < |st| && Hears(st, i, j) :: r[j].cache == map[] && r[j].parent == st[j].parent) &&
            (forall j | 0 <= j < |st| && !Hears(st, i, j) :: r[j] == st[j]) &&
            (forall j | 0 <= j < i :: r[j] == st[j])
  {
    var st1 := WithDefs(st, i, st[i].defs[name := x]);
    HeardByLinks(st1, st, i);
    forall j | 0 <= j < i
      ensures !Hears(st, i, j)
    {
      if Hears(st, i, j) {
        HearsOnlyLater(st, i, j);
      }
    }
  }

  /** A scope registered by `NewChild` hears every update of its parent. */
  lemma ChildHearsParent(st: Store, p: nat, values: map<string, Value>)
    requires ValidStore(st) && p < |st|
    ensures Hears(NewChild(st, p, values), p, |st|)
  {
    var r := NewChild(st, p, values);
    assert |st| in r[p].listeners && Hears(r, |st|, |st|);
  }

  /** A child as `Environment.__init__` actually creates it: the listener it registers
      is a bound method held only by a `WeakSet`, so the entry disappears at once and
      the parent's listeners stay as they were. */
  function NewChildAsWritten(st: Store, p: nat, values: map<string, Value>): (r: Store)
    requires p < |st|
    ensures |r| == |st| + 1 && r[|st|] == Scope(Some(p), map[], values, {})
    ensures forall j | 0 <= j < |st| :: r[j] == st[j]
    ensures ValidStore(st) ==> ValidStore(r)
  {
    var r := st + [Scope(Some(p), map[], values, {})];
    assert ValidStore(st) ==> forall j | 0 <= j < |r| :: ScopeValid(r, j) by {
      if ValidStore(st) {
        forall j | 0 <= j < |r|
          ensures ScopeValid(r, j)
        {
          if j < |st| {
            assert ScopeValid(st, j);
          }
        }
      }
    }
    r
  }

  /** With the registration as written, a child keeps a value it cached from its parent
      after the parent redefines the name: the parent now yields 2, the child still 1. */
  lemma StaleChildAsWritten()
    ensures var st0 := [Scope(None, map[], map["a" := Int(1)], {})];
            var st1 := NewChildAsWritten(st0, 0, map[]);
            var o := Lookup(1, st1, 1, "a");
            var st2 := AfterDefine(o.st, 0, "a", Int(2));
            o.r == Ok(Int(1)) &&
            Lookup(1, st2, 1, "a").r == Ok(Int(1)) &&
            Lookup(1, st2, 0, "a").r == Ok(Int(2))
  {
    var st0 := [Scope(None, map[], map["a" := Int(1)], {})];
    var st1 := NewChildAsWritten(st0, 0, map[]);
    var o := Lookup(1, st1, 1, "a");
    assert o.st == WithCache(st1, 1, "a", Int(1));
    var st2 := AfterDefine(o.st, 0, "a", Int(2));
    assert !Hears(WithDefs(o.st, 0, o.st[0].defs["a" := Int(2)]), 0, 1);
    assert st2[1] == o.st[1];
  }

  /** With registration, the same sequence of steps leaves the child nothing stale: its
      cache is emptied and it yields the new value 2. */
  lemma FreshChildRegistered()
    ensures var st0 := [Scope(None, map[], map["a" := Int(1)], {})];
            var st1 := NewChild(st0, 0, map[]);
            var o := Lookup(1, st1, 1, "a");
            var st2 := AfterDefine(o.st, 0, "a", Int(2));
            o.r == Ok(Int(1)) &&
            st2[1].cache == map[] &&
            Lookup(2, st2, 1, "a").r == Ok(Int(2))
  {
    var st0 := [Scope(None, map[], map["a" := Int(1)], {})];
    var st1 := NewChild(st0, 0, map[]);
    ChildHearsParent(st0, 0, map[]);
    var o := Lookup(1, st1, 1, "a");
    assert o.st == WithCache(st1, 1, "a", Int(1));
    HearsByLinks(st1, o.st, 0, 1);
    DefineClears(o.st, 0, "a", Int(2));
    var st2 := AfterDefine(o.st, 0, "a", Int(2));
    assert st2[1].cache == map[];
  }

  /** The arena of `Environment` objects, updated in place by their methods. */
  class Environments {
    var scopes: Store

    ghost predicate Valid()
      reads this
    {
      ValidStore(scopes)
    }

    constructor ()
      ensures scopes == [] && Valid()
    {
      scopes := [];
    }

    /** `Environment(parent, values, definitions)`; returns the index of the new scope. */
    method NewEnvironment(parent: Option<nat>, values: seq<(string, Value)>, definitions: seq<(string, Value)>) returns (i: nat)
      requires Valid() && (parent.Some? ==> parent.value < |scopes|)
      modifies this
      ensures Valid() && i == |old(scopes)|
      ensures scopes == NewScope(old(scopes), parent, values, definitions)
    {
      i := |scopes|;
      scopes := NewScope(scopes, parent, values, definitions);
    }

    /** `Environment.add`: caches `v` under `name`. */
    method Add(i: nat, name: string, v: Value)
      requires Valid() && i < |scopes|
      modifies this
      ensures Valid() && scopes == WithCache(old(scopes), i, name, v)
    {
      scopes := WithCache(scopes, i, name, v);
    }

    /** `Environment.update` with a dict: every entry is cached, replacing an entry
        already cached under the same name. */
    method Update(i: nat, values: map<string, Value>)
      requires Valid() && i < |scopes|
      modifies this
      ensures Valid() && scopes == WithValues(old(scopes), i, values)
    {
      scopes := WithValues(scopes, i, values);
    }

    /** `Environment._handle_update`: empties this scope's cache and passes the update
        on to every listener. */
    method HandleUpdate(i: nat)
      requires Valid() && i < |scopes|
      modifies this
      ensures Valid() && scopes == ClearWhere(old(scopes), Heard(old(scopes), i))
      decreases |scopes| - i
    {
      ghost var st0 := scopes;
      ClearWhereKeepsLinks(st0, {i});
      scopes := ClearWhere(scopes, {i});
      assert ScopeValid(st0, i);
      var todo := scopes[i].listeners;
      ghost var done: set<nat> := {};
      HeardViaNothing(st0);
      while todo != {}
        invariant Valid() && SameLinks(st0, scopes)
        invariant todo + done == st0[i].listeners && todo !! done
        invariant scopes == ClearWhere(st0, {i} + HeardVia(st0, done))
        decreases todo
      {
        var l :| l in todo;
        ghost var before := scopes;
        HandleUpdate(l);
        HeardByLinks(before, st0, l);
        ClearWhereKeepsLinks(before, Heard(before, l));
        HeardViaOneMore(st0, done, l);
        todo := todo - {l};
        done := done + {l};
      }
      HeardUnfolds(st0, i);
    }

    /** `Environment.define`. */
    method Define(i: nat, name: string, x: Value)
      requires Valid() && i < |scopes|
      modifies this
      ensures Valid() && scopes == AfterDefine(old(scopes), i, name, x)
    {
      scopes := WithDefs(scopes, i, scopes[i].defs[name := x]);
      HandleUpdate(i);
    }

    /** `Environment.__getitem__`. */
    method GetItem(fuel: nat, i: nat, name: string) returns (r: Result<Value, Error>)
      requires Valid() && i < |scopes|
      modifies this
      ensures Valid()
      ensures r == Lookup(fuel, old(scopes), i, name).r && scopes == Lookup(fuel, old(scopes), i, name).st
    {
      var o := Lookup(fuel, scopes, i, name);
      r, scopes := o.r, o.st;
    }

    /** `Environment.__setitem__`; a KeyError is returned, nothing else changes then. */
    method SetValue(i: nat, name: string, v: Value) returns (err: Option<Error>)
      requires Valid() && i < |scopes|
      modifies this
      ensures Valid()
      ensures SetItem(old(scopes), i, name, v).Ok? ==> err == None && scopes == SetItem(old(scopes), i, name, v).value
      ensures SetItem(old(scopes), i, name, v).Err? ==> err == Some(SetItem(old(scopes), i, name, v).error) && scopes == old(scopes)
    {
      match SetItem(scopes, i, name, v)
      case Ok(st) =>
        scopes := st;
        err := None;
      case Err(e) =>
        err := Some(e);
    }

    /** `Environment.__contains__`. */
    predicate Has(i: nat, name: string)
      requires Valid() && i < |scopes|
      reads this
    {
      Contains(scopes, i, name)
    }

    /** `Environment.evaluate`: evaluates in a new child of scope `i`. */
    method Evaluate(fuel: nat, i: nat, x: Value) returns (r: Result<Value, Error>)
      requires Valid() && i < |scopes|
      modifies this
      ensures Valid()
      ensures var o := Eval(fuel, NewChild(old(scopes), i, map[]), |old(scopes)|, x);
              r == o.r && scopes == o.st
    {
      var st := NewChild(scopes, i, map[]);
      var o := Eval(fuel, st, |scopes|, x);
      r, scopes := o.r, o.st;
    }
  }
}
