/** Unit conversions and the unit policy built from them (startables/units.py), over
    exact reals. */
module Units {
  import opened Wrappers

  /** How a value in the source unit relates to the same value in the reference unit. */
  datatype Law =
    | Identity                               // the two units are aliases
    | Scale(refPerSrc: real)                 // ref = src * refPerSrc
    | Affine(slope: real, intercept: real)   // ref = src * slope + intercept

  /** A conversion between a source unit and its reference unit. */
  datatype Conversion = Conversion(src: string, ref: string, law: Law)

  datatype UnitError = ValueError(what: string) | ZeroDivisionError

  /** `to_ref`: a value in the source unit, expressed in the reference unit. */
  function ToRef(c: Conversion, v: real): real
  {
    match c.law
    case Identity => v
    case Scale(k) => v * k
    case Affine(slope, intercept) => v * slope + intercept
  }

  /** The conversions whose `from_ref` divides by a nonzero factor. */
  predicate Invertible(c: Conversion)
  {
    match c.law
    case Identity => true
    case Scale(k) => k != 0.0
    case Affine(slope, _) => slope != 0.0
  }

  /** `from_ref`: a value in the reference unit, expressed in the source unit. A zero
      factor makes the division raise. */
  function FromRef(c: Conversion, v: real): (r: Result<real, UnitError>)
    ensures r.Err? <==> !Invertible(c)
    ensures r.Err? ==> r.error == ZeroDivisionError
  {
    match c.law
    case Identity => Ok(v)
    case Scale(k) => if k == 0.0 then Err(ZeroDivisionError) else Ok(v / k)
    case Affine(slope, intercept) =>
      if slope == 0.0 then Err(ZeroDivisionError) else Ok((v - intercept) / slope)
  }

  /** `from_ref` undoes `to_ref`. */
  lemma FromRefUndoesToRef(c: Conversion, v: real)
    requires Invertible(c)
    ensures FromRef(c, ToRef(c, v)) == Ok(v)
  {
    match c.law
    case Identity =>
    case Scale(k) =>
      assert ToRef(c, v) == v * k;
      assert FromRef(c, v * k) == Ok((v * k) / k);
      assert (v * k) / k == v;
    case Affine(slope, intercept) =>
      var x := v * slope + intercept;
      assert ToRef(c, v) == x;
      assert FromRef(c, x) == Ok((x - intercept) / slope);
      assert x - intercept == v * slope;
      assert (v * slope) / slope == v;
  }

  /** `to_ref` undoes `from_ref`. */
  lemma ToRefUndoesFromRef(c: Conversion, v: real)
    requires Invertible(c)
    ensures ToRef(c, FromRef(c, v).value) == v
  {
    match c.law
    case Identity =>
    case Scale(k) =>
      assert (v / k) * k == v;
    case Affine(slope, intercept) =>
      assert ((v - intercept) / slope) * slope == v - intercept;
  }

  /** `reverse`: the conversion with source and reference swapped. Its factor is the
      reciprocal, so a zero factor makes it raise. */
  function Reverse(c: Conversion): (r: Result<Conversion, UnitError>)
    ensures r.Ok? <==> Invertible(c)
    ensures r.Ok? ==> r.value.src == c.ref && r.value.ref == c.src && Invertible(r.value)
    ensures r.Err? ==> r.error == ZeroDivisionError
  {
    match c.law
    case Identity => Ok(Conversion(c.ref, c.src, Identity))
    case Scale(k) =>
      if k == 0.0 then Err(ZeroDivisionError) else Ok(Conversion(c.ref, c.src, Scale(1.0 / k)))
    case Affine(slope, intercept) =>
      if slope == 0.0 then Err(ZeroDivisionError)
      else Ok(Conversion(c.ref, c.src, Affine(1.0 / slope, -intercept / slope)))
  }

  /** Dividing by the reciprocal of a nonzero factor multiplies by it. */
  lemma DivideByReciprocal(v: real, s: real)
    requires s != 0.0
    ensures v * (1.0 / s) == v / s && v / (1.0 / s) == v * s
  {
  }

  /** The two halves of an affine law composed with its reversal. */
  lemma AffineReciprocal(v: real, slope: real, intercept: real)
    requires slope != 0.0
    ensures v * (1.0 / slope) + -intercept / slope == (v - intercept) / slope
    ensures (v - -intercept / slope) / (1.0 / slope) == v * slope + intercept
  {
    DivideByReciprocal(v, slope);
    DivideByReciprocal(v - -intercept / slope, slope);
    assert (v - -intercept / slope) * slope == v * slope + (intercept / slope) * slope;
  }

  /** The reversed conversion goes to the old source exactly as the old one came from
      it, and back. */
  lemma ReverseSwapsDirections(c: Conversion, v: real)
    requires Invertible(c)
    ensures ToRef(Reverse(c).value, v) == FromRef(c, v).value
    ensures FromRef(Reverse(c).value, v) == Ok(ToRef(c, v))
  {
    match c.law
    case Identity =>
    case Scale(k) =>
      DivideByReciprocal(v, k);
      var r := Conversion(c.ref, c.src, Scale(1.0 / k));
      assert Reverse(c) == Ok(r);
      assert FromRef(r, v) == Ok(v / (1.0 / k));
      assert FromRef(c, v) == Ok(v / k);
      assert ToRef(c, v) == v * k;
      assert ToRef(r, v) == v * (1.0 / k);
    case Affine(slope, intercept) =>
      AffineReciprocal(v, slope, intercept);
      var r := Conversion(c.ref, c.src, Affine(1.0 / slope, -intercept / slope));
      assert Reverse(c) == Ok(r);
      assert ToRef(r, v) == v * (1.0 / slope) + -intercept / slope;
      assert FromRef(r, v) == Ok((v - -intercept / slope) / (1.0 / slope));
      assert FromRef(c, v) == Ok((v - intercept) / slope);
      assert ToRef(c, v) == v * slope + intercept;
  }

  /** Reversing twice gives back the conversion. */
  lemma ReverseTwice(c: Conversion)
    requires Invertible(c)
    ensures Reverse(Reverse(c).value) == Ok(c)
  {
    match c.law
    case Identity =>
    case Scale(k) =>
      assert 1.0 / (1.0 / k) == k;
    case Affine(slope, intercept) =>
      assert 1.0 / (1.0 / slope) == slope;
      assert -(-intercept / slope) / (1.0 / slope) == intercept;
  }

  /** `alias`: a copy with a new source unit and nothing else changed. */
  function Alias(c: Conversion, u: string): (r: Conversion)
    ensures r.src == u && r.(src := c.src) == c
  {
    c.(src := u)
  }

  /** An alias converts values exactly as the original does. */
  lemma AliasConvertsAlike(c: Conversion, u: string, v: real)
    ensures ToRef(Alias(c, u), v) == ToRef(c, v) && FromRef(Alias(c, u), v) == FromRef(c, v)
    ensures Reverse(Alias(c, u)).Ok? ==> Reverse(Alias(c, u)).value.ref == u
  {
  }

  // ---------------------------------------------------------------------------------
  // CustomUnitPolicy

  /** The policy: for each unit present, the conversion to its reference unit. */
  datatype Policy = Policy(conversions: map<string, Conversion>)

  /** Some unit is the source of two of the conversions. */
  predicate HasDuplicateSource(ucs: seq<Conversion>)
  {
    exists i, j :: 0 <= i < j < |ucs| && ucs[i].src == ucs[j].src
  }

  /** Some unit is a source in one conversion and a reference in another (or the same). */
  predicate HasDualRole(ucs: seq<Conversion>)
  {
    exists i, j :: 0 <= i < |ucs| && 0 <= j < |ucs| && ucs[i].src == ucs[j].ref
  }

  function SourceUnits(ucs: seq<Conversion>): set<string>
  {
    set i | 0 <= i < |ucs| :: ucs[i].src
  }

  function RefUnits(ucs: seq<Conversion>): set<string>
  {
    set i | 0 <= i < |ucs| :: ucs[i].ref
  }

  /** The conversions keyed by source unit, a later one replacing an earlier one. */
  function BySource(ucs: seq<Conversion>): map<string, Conversion>
    decreases |ucs|
  {
    if ucs == [] then map[]
    else BySource(ucs[..|ucs| - 1])[ucs[|ucs| - 1].src := ucs[|ucs| - 1]]
  }

  /** The identity conversion of each reference unit to itself. */
  function SelfConversions(refs: set<string>): map<string, Conversion>
  {
    map r | r in refs :: Conversion(r, r, Identity)
  }

  /** `CustomUnitPolicy(unit_conversions, duplicates)`: the mode is checked, then
      duplicate sources (under "raise"), then units in both roles; every reference unit
      is added with an identity conversion to itself. */
  function NewPolicy(ucs: seq<Conversion>, duplicates: string): (r: Result<Policy, UnitError>)
    ensures r.Err? ==> r.error.ValueError?
  {
    if duplicates != "overwrite" && duplicates != "raise" then
      Err(ValueError("duplicates: expected one of overwrite, raise"))
    else if duplicates == "raise" && HasDuplicateSource(ucs) then
      Err(ValueError("conflicting conversions supplied"))
    else if HasDualRole(ucs) then
      Err(ValueError("units with conflicting roles"))
    else Ok(Policy(BySource(ucs) + SelfConversions(RefUnits(ucs))))
  }

  /** `__iter__`: the units present in the policy. */
  function UnitsOf(p: Policy): (r: set<string>)
    ensures forall u :: u in r <==> u in p.conversions
  {
    p.conversions.Keys
  }

  /** `ref_unit`. */
  function RefUnit(p: Policy, u: string): (r: Result<string, UnitError>)
    ensures r.Ok? <==> u in p.conversions
    ensures r.Err? ==> r.error.ValueError?
  {
    if u in p.conversions then Ok(p.conversions[u].ref)
    else Err(ValueError("unit '" + u + "' not found in unit policy"))
  }

  /** `can_convert`. */
  predicate CanConvert(p: Policy, from: string, to: string)
  {
    from in p.conversions && to in p.conversions &&
    p.conversions[from].ref == p.conversions[to].ref
  }

  /** `convert`: through the shared reference unit; a missing unit, or two units with
      different reference units, raise ValueError. */
  function Convert(p: Policy, v: real, from: string, to: string): (r: Result<real, UnitError>)
    ensures !CanConvert(p, from, to) ==> r.Err? && r.error.ValueError?
  {
    var ucs := p.conversions;
    if from in ucs && to in ucs then
      if ucs[from].ref == ucs[to].ref then FromRef(ucs[to], ToRef(ucs[from], v))
      else Err(ValueError("'" + from + "' and '" + to + "' do not share same reference unit"))
    else if from in ucs then Err(ValueError("unit '" + to + "' not found in unit policy"))
    else if to in ucs then Err(ValueError("unit '" + from + "' not found in unit policy"))
    else Err(ValueError("units '" + from + "' and '" + to + "' not found in unit policy"))
  }

  /** `convert_to_ref`. */
  function ConvertToRef(p: Policy, v: real, u: string): (r: Result<real, UnitError>)
    ensures r.Ok? <==> u in p.conversions
    ensures r.Err? ==> r.error.ValueError?
  {
    if u in p.conversions then Ok(ToRef(p.conversions[u], v))
    else Err(ValueError("unit '" + u + "' not found in unit policy"))
  }

  /** What a policy built by `NewPolicy` always satisfies: each unit maps to a
      conversion from it, and its reference unit is present, converting to itself. */
  ghost predicate WellFormed(p: Policy)
  {
    forall u | u in p.conversions ::
      p.conversions[u].src == u &&
      p.conversions[u].ref in p.conversions &&
      p.conversions[p.conversions[u].ref] == Conversion(p.conversions[u].ref, p.conversions[u].ref, Identity)
  }

  /** Every conversion of the policy can be inverted. */
  ghost predicate AllInvertible(p: Policy)
  {
    forall u | u in p.conversions :: Invertible(p.conversions[u])
  }

  // ---------------------------------------------------------------------------------
  // Lemmas about the construction

  lemma {:induction false} BySourceKeys(ucs: seq<Conversion>)
    ensures BySource(ucs).Keys == SourceUnits(ucs)
    decreases |ucs|
  {
    if ucs != [] {
      var init := ucs[..|ucs| - 1];
      BySourceKeys(init);
      assert SourceUnits(ucs) == SourceUnits(init) + {ucs[|ucs| - 1].src} by {
        forall u | u in SourceUnits(ucs) ensures u in SourceUnits(init) + {ucs[|ucs| - 1].src} {
          var i :| 0 <= i < |ucs| && ucs[i].src == u;
          if i < |ucs| - 1 { assert init[i] == ucs[i]; }
        }
        forall u | u in SourceUnits(init) ensures u in SourceUnits(ucs) {
          var i :| 0 <= i < |init| && init[i].src == u;
          assert ucs[i] == init[i];
        }
      }
    }
  }

  /** The entry for a source unit is the last conversion given for it. */
  lemma {:induction false} BySourceLastWins(ucs: seq<Conversion>, i: nat)
    requires i < |ucs|
    requires forall j | i < j < |ucs| :: ucs[j].src != ucs[i].src
    ensures ucs[i].src in BySource(ucs) && BySource(ucs)[ucs[i].src] == ucs[i]
    decreases |ucs|
  {
    if i < |ucs| - 1 {
      var init := ucs[..|ucs| - 1];
      assert init[i] == ucs[i];
      forall j | i < j < |init| ensures init[j].src != init[i].src {
        assert init[j] == ucs[j];
      }
      BySourceLastWins(init, i);
    }
  }

  /** Every entry converts from its key, to one of the given reference units. */
  lemma {:induction false} BySourceEntries(ucs: seq<Conversion>)
    ensures forall u | u in BySource(ucs) :: BySource(ucs)[u].src == u && BySource(ucs)[u].ref in RefUnits(ucs)
    decreases |ucs|
  {
    if ucs != [] {
      var init := ucs[..|ucs| - 1];
      BySourceEntries(init);
      forall u | u in BySource(init) ensures BySource(init)[u].ref in RefUnits(ucs) {
        var i :| 0 <= i < |init| && init[i].ref == BySource(init)[u].ref;
        assert ucs[i] == init[i];
      }
      assert ucs[|ucs| - 1].ref in RefUnits(ucs);
    }
  }

  /** A policy is built exactly when the mode is known, no source repeats under
      "raise", and no unit plays both roles. */
  lemma NewPolicySucceeds(ucs: seq<Conversion>, duplicates: string)
    ensures NewPolicy(ucs, duplicates).Ok? <==>
      (duplicates == "overwrite" || duplicates == "raise") &&
      !(duplicates == "raise" && HasDuplicateSource(ucs)) &&
      !HasDualRole(ucs)
  {
  }

  /** The units of a built policy are its sources and its reference units. */
  lemma PolicyUnits(ucs: seq<Conversion>, duplicates: string)
    requires NewPolicy(ucs, duplicates).Ok?
    ensures UnitsOf(NewPolicy(ucs, duplicates).value) == SourceUnits(ucs) + RefUnits(ucs)
  {
    BySourceKeys(ucs);
  }

  /** A source and a reference unit are never the same unit in a built policy. */
  lemma NoDualRole(ucs: seq<Conversion>)
    requires !HasDualRole(ucs)
    ensures SourceUnits(ucs) !! RefUnits(ucs)
  {
    forall u | u in SourceUnits(ucs) ensures u !in RefUnits(ucs) {
      var i :| 0 <= i < |ucs| && ucs[i].src == u;
    }
  }

  /** Each reference unit is its own reference unit, by an identity conversion. */
  lemma RefUnitsAreOwnReference(ucs: seq<Conversion>, duplicates: string, r: string)
    requires NewPolicy(ucs, duplicates).Ok? && r in RefUnits(ucs)
    ensures NewPolicy(ucs, duplicates).value.conversions[r] == Conversion(r, r, Identity)
    ensures RefUnit(NewPolicy(ucs, duplicates).value, r) == Ok(r)
  {
    BySourceKeys(ucs);
    NoDualRole(ucs);
  }

  /** Under "overwrite" the last conversion given for a source is the one kept; under
      "raise" every conversion given is kept. */
  lemma LastConversionKept(ucs: seq<Conversion>, duplicates: string, i: nat)
    requires NewPolicy(ucs, duplicates).Ok? && i < |ucs|
    requires forall j | i < j < |ucs| :: ucs[j].src != ucs[i].src
    ensures ucs[i].src in NewPolicy(ucs, duplicates).value.conversions
    ensures NewPolicy(ucs, duplicates).value.conversions[ucs[i].src] == ucs[i]
  {
    BySourceLastWins(ucs, i);
    NoDualRole(ucs);
    assert ucs[i].src in SourceUnits(ucs);
  }

  lemma EveryConversionKeptUnderRaise(ucs: seq<Conversion>, i: nat)
    requires NewPolicy(ucs, "raise").Ok? && i < |ucs|
    ensures ucs[i].src in NewPolicy(ucs, "raise").value.conversions
    ensures NewPolicy(ucs, "raise").value.conversions[ucs[i].src] == ucs[i]
  {
    forall j | i < j < |ucs| ensures ucs[j].src != ucs[i].src {
      if ucs[j].src == ucs[i].src {
        assert HasDuplicateSource(ucs);
      }
    }
    LastConversionKept(ucs, "raise", i);
  }

  /** A built policy is well formed. */
  lemma NewPolicyWellFormed(ucs: seq<Conversion>, duplicates: string)
    requires NewPolicy(ucs, duplicates).Ok?
    ensures WellFormed(NewPolicy(ucs, duplicates).value)
  {
    var p := NewPolicy(ucs, duplicates).value;
    BySourceKeys(ucs);
    BySourceEntries(ucs);
    NoDualRole(ucs);
    forall u | u in p.conversions
      ensures p.conversions[u].src == u && p.conversions[u].ref in p.conversions
      ensures p.conversions[p.conversions[u].ref] == Conversion(p.conversions[u].ref, p.conversions[u].ref, Identity)
    {
      var r := p.conversions[u].ref;
      assert r in RefUnits(ucs);
    }
  }

  // ---------------------------------------------------------------------------------
  // Lemmas about a well-formed policy

  /** `can_convert` relates units with the same reference unit: it is reflexive on the
      units present, symmetric and transitive. */
  lemma CanConvertIsEquivalence(p: Policy, a: string, b: string, c: string)
    ensures CanConvert(p, a, a) <==> a in p.conversions
    ensures CanConvert(p, a, b) ==> CanConvert(p, b, a)
    ensures CanConvert(p, a, b) && CanConvert(p, b, c) ==> CanConvert(p, a, c)
  {
  }

  /** A unit can be converted to its reference unit, and the reference unit of the
      reference unit is itself. */
  lemma RefUnitIsReachable(p: Policy, u: string)
    requires WellFormed(p) && u in p.conversions
    ensures CanConvert(p, u, RefUnit(p, u).value)
    ensures RefUnit(p, RefUnit(p, u).value) == RefUnit(p, u)
  {
  }

  /** `convert` succeeds exactly when `can_convert` holds (all conversions being
      invertible), with the value through the shared reference unit. */
  lemma ConvertSucceeds(p: Policy, v: real, from: string, to: string)
    requires AllInvertible(p)
    ensures Convert(p, v, from, to).Ok? <==> CanConvert(p, from, to)
    ensures CanConvert(p, from, to) ==>
      Convert(p, v, from, to) == FromRef(p.conversions[to], ConvertToRef(p, v, from).value)
  {
  }

  /** Converting to a unit's reference unit is `convert_to_ref`. */
  lemma ConvertToOwnRef(p: Policy, v: real, u: string)
    requires WellFormed(p) && u in p.conversions
    ensures Convert(p, v, u, RefUnit(p, u).value) == ConvertToRef(p, v, u)
  {
  }

  /** Converting there and back gives the value back. */
  lemma ConvertRoundTrip(p: Policy, v: real, from: string, to: string)
    requires AllInvertible(p) && CanConvert(p, from, to)
    ensures Convert(p, Convert(p, v, from, to).value, to, from) == Ok(v)
  {
    var f := p.conversions[from];
    var t := p.conversions[to];
    var w := Convert(p, v, from, to).value;
    ToRefUndoesFromRef(t, ToRef(f, v));
    assert ToRef(t, w) == ToRef(f, v);
    FromRefUndoesToRef(f, v);
  }

  /** Converting a unit to itself changes nothing. */
  lemma ConvertToSelf(p: Policy, v: real, u: string)
    requires AllInvertible(p) && u in p.conversions
    ensures Convert(p, v, u, u) == Ok(v)
  {
    FromRefUndoesToRef(p.conversions[u], v);
  }
}
