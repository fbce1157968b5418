/** Atom classification (pyscheme/atoms.py): a token becomes an `int` when Python's
    `int()` accepts it, else a `float` when `float()` accepts it, else a `Symbol`.
    Both conversions strip surrounding whitespace and accept `_` between digits. */
module Atoms {
  import opened Values
  import Text

  predicate IsDigit(c: char)
  {
    '0' <= c <= '9'
  }

  /** Index just past an optional `+` or `-` at position `i`. */
  function SignEnd(s: string, i: nat): (j: nat)
    requires i <= |s|
    ensures i <= j <= |s|
  {
    if i < |s| && (s[i] == '+' || s[i] == '-') then i + 1 else i
  }

  /** End of the longest digit part `d(_?d)*` starting at `i`; `i` itself when there is none. */
  function DigitPartEnd(s: string, i: nat): (j: nat)
    requires i <= |s|
    ensures i <= j <= |s|
    ensures j > i ==> IsDigit(s[i])
  {
    if i < |s| && IsDigit(s[i]) then DigitPartRest(s, i + 1) else i
  }

  /** Continuation of a digit part after at least one digit, from position `j`. */
  function DigitPartRest(s: string, j: nat): (k: nat)
    requires j <= |s|
    ensures j <= k <= |s|
    decreases |s| - j
  {
    if j < |s| && IsDigit(s[j]) then DigitPartRest(s, j + 1)
    else if j + 1 < |s| && s[j] == '_' && IsDigit(s[j + 1]) then DigitPartRest(s, j + 2)
    else j
  }

  /** A stripped integer literal: an optional sign, then a digit part reaching the end. */
  predicate IsIntCore(t: string)
  {
    var p := SignEnd(t, 0);
    p < |t| && DigitPartEnd(t, p) == |t|
  }

  /** The texts `int()` accepts (ASCII digits). */
  predicate IsIntText(s: string)
  {
    IsIntCore(Text.Strip(s))
  }

  /** Value of a digit string, skipping the `_` separators. */
  function DigitsValue(d: string): nat
    decreases |d|
  {
    if d == [] then 0
    else if IsDigit(d[|d| - 1]) then 10 * DigitsValue(d[..|d| - 1]) + (d[|d| - 1] as int - '0' as int)
    else DigitsValue(d[..|d| - 1])
  }

  /** `int(s)` for a text `int()` accepts. */
  function IntValue(s: string): int
    requires IsIntText(s)
  {
    var t := Text.Strip(s);
    var p := SignEnd(t, 0);
    if t[0] == '-' then -(DigitsValue(t[p..]) as int) else DigitsValue(t[p..])
  }

  /** ASCII lower-casing, as `float()` compares `inf`, `infinity` and `nan`. */
  function Lower(s: string): (r: string)
    ensures |r| == |s|
  {
    if s == [] then []
    else [if 'A' <= s[0] <= 'Z' then (s[0] as int + 32) as char else s[0]] + Lower(s[1..])
  }

  /** The special spellings `float()` accepts after an optional sign. */
  predicate IsSpecialFloat(t: string)
  {
    var p := SignEnd(t, 0);
    Lower(t[p..]) in {"inf", "infinity", "nan"}
  }

  /** A decimal literal from `p`: digits with an optional `.` and at least one digit
      in the mantissa, then an optional exponent `e`/`E`, sign, digits. */
  predicate IsDecimalFrom(t: string, p: nat)
    requires p <= |t|
  {
    var a := DigitPartEnd(t, p);
    var m := if a < |t| && t[a] == '.' then DigitPartEnd(t, a + 1) else a;
    (a > p || m > a + 1) &&
    (m == |t| ||
     (t[m] in {'e', 'E'} &&
      var q := SignEnd(t, m + 1);
      DigitPartEnd(t, q) > q && DigitPartEnd(t, q) == |t|))
  }

  /** The texts `float()` accepts (ASCII spellings). */
  predicate IsFloatText(s: string)
  {
    var t := Text.Strip(s);
    IsSpecialFloat(t) || IsDecimalFrom(t, SignEnd(t, 0))
  }

  /** `atom(token)`: the conversion chain `int`, then `float`, then `Symbol`. */
  function Atom(token: string): (v: Value)
    ensures v.Int? || v.Float? || v.Sym?
  {
    if IsIntText(token) then Int(IntValue(token))
    else if IsFloatText(token) then Float(token)
    else Sym(token)
  }

  // ---------------------------------------------------------------------------
  // Decimal rendering of an int, used to state the round trip through `atom`.

  function DigitChar(d: nat): char
    requires d < 10
  {
    ('0' as int + d) as char
  }

  function NatText(n: nat): (s: string)
    ensures s != [] && forall i | 0 <= i < |s| :: IsDigit(s[i])
  {
    if n < 10 then [DigitChar(n)] else NatText(n / 10) + [DigitChar(n % 10)]
  }

  /** `str(n)`. */
  function IntText(n: int): string
  {
    if n < 0 then "-" + NatText(-n) else NatText(n)
  }

  lemma {:induction false} NatTextValue(n: nat)
    ensures DigitsValue(NatText(n)) == n
  {
    if n >= 10 {
      var s := NatText(n);
      assert s[..|s| - 1] == NatText(n / 10);
      NatTextValue(n / 10);
    }
  }

  lemma {:induction false} AllDigitsRest(s: string, j: nat)
    requires j <= |s|
    requires forall i | j <= i < |s| :: IsDigit(s[i])
    ensures DigitPartRest(s, j) == |s|
    decreases |s| - j
  {
    if j < |s| {
      AllDigitsRest(s, j + 1);
    }
  }

  lemma IntTextShape(n: int)
    ensures var s := IntText(n); var p := if n < 0 then 1 else 0;
            p < |s| && s[p..] == NatText(if n < 0 then -n else n) &&
            (s[0] == '-' <==> n < 0) && SignEnd(s, 0) == p
  {
  }

  lemma StripIntText(n: int)
    ensures Text.Strip(IntText(n)) == IntText(n)
  {
    var s := IntText(n);
    IntTextShape(n);
    assert s[|s| - 1] == NatText(if n < 0 then -n else n)[|s| - 1 - (if n < 0 then 1 else 0)];
    assert !Text.IsSpace(s[0]) && !Text.IsSpace(s[|s| - 1]);
    Text.StripByFixed(s, Text.IsSpace);
  }

  /** `int(str(n)) == n`, and so `atom(str(n))` is the int `n`: the int attempt comes first. */
  lemma AtomOfIntText(n: int)
    ensures IsIntText(IntText(n))
    ensures IntValue(IntText(n)) == n
    ensures Atom(IntText(n)) == Int(n)
  {
    var s := IntText(n);
    StripIntText(n);
    IntTextShape(n);
    var p := SignEnd(s, 0);
    AllDigitsRest(s, p + 1);
    assert DigitPartEnd(s, p) == |s|;
    assert IsIntCore(s);
    NatTextValue(if n < 0 then -n else n);
  }

  /** Every text `int()` accepts is also accepted by `float()`, so it is the order of
      the attempts that makes `'1'` the int 1 rather than the float 1.0. */
  lemma IntTextIsFloatText(s: string)
    requires IsIntText(s)
    ensures IsFloatText(s)
    ensures Atom(s) == Int(IntValue(s))
  {
    var t := Text.Strip(s);
    assert IsDecimalFrom(t, SignEnd(t, 0));
  }

  /** Without a digit, a text is no decimal literal. */
  lemma NoDigitNoDecimal(t: string, p: nat)
    requires p <= |t|
    requires forall i | 0 <= i < |t| :: !IsDigit(t[i])
    ensures !IsDecimalFrom(t, p)
  {
    var a := DigitPartEnd(t, p);
    assert a == p;
    if a < |t| && t[a] == '.' {
      assert DigitPartEnd(t, a + 1) == a + 1;
    }
  }

  /** A token without a single digit is a Symbol with exactly its own text, unless it
      spells one of the special floats `inf`, `infinity` or `nan`. */
  lemma AtomWithoutDigits(token: string)
    requires forall i | 0 <= i < |token| :: !IsDigit(token[i])
    requires !IsSpecialFloat(Text.Strip(token))
    ensures Atom(token) == Sym(token)
  {
    var t := Text.Strip(token);
    var a := Text.StripStart(token, Text.IsSpace);
    assert forall i | 0 <= i < |t| :: t[i] == token[a + i];
    NoDigitNoDecimal(t, SignEnd(t, 0));
  }

  /** A single character other than a digit or whitespace is a Symbol: alone, a sign
      or a point is no number, and the special floats are longer. */
  lemma AtomOfOneChar(c: char)
    requires !IsDigit(c) && !Text.IsSpace(c)
    ensures Atom([c]) == Sym([c])
  {
    var w := [c];
    Text.StripByFixed(w, Text.IsSpace);
    assert Text.Strip(w) == w;
    var p := SignEnd(w, 0);
    assert DigitPartEnd(w, p) == p;
    assert !IsSpecialFloat(w) by {
      assert |Lower(w[p..])| <= 1;
    }
    if p == 0 && c == '.' {
      assert DigitPartEnd(w, 1) == 1;
    }
    assert !IsDecimalFrom(w, p);
  }

  /** A name that starts with neither a digit, a sign nor a point, and does not spell a
      special float, is a Symbol: both numeric conversions reject it. */
  lemma AtomOfName(w: string)
    requires w != [] && Text.NoSpace(w)
    requires !IsDigit(w[0]) && w[0] != '+' && w[0] != '-' && w[0] != '.'
    requires !IsSpecialFloat(w)
    ensures Atom(w) == Sym(w)
  {
    Text.StripByFixed(w, Text.IsSpace);
    assert Text.Strip(w) == w;
    assert SignEnd(w, 0) == 0;
    assert DigitPartEnd(w, 0) == 0;
    assert !IsDecimalFrom(w, 0);
  }
}
