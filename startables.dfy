/** The table and bundle rules of startables/startables.py: column metadata, the
    sanitising of destinations and their default, the check of column specifications,
    expression strings and their markers, the repair of csv blocks that miss
    separators, and popping tables out of a bundle. A table's DataFrame is represented
    by its column names only. */
module Startables {
  import opened Wrappers
  import Text

  const DefaultDestination: string := "all"
  const DefaultUnit: string := "text"

  // ---------------------------------------------------------------------------
  // Column metadata.

  /** `ColumnMetadata`; the remark and the format string are optional. */
  datatype ColumnMetadata = ColumnMetadata(
    unit: string,
    homeUnit: string,
    remark: Option<string>,
    format: Option<string>)

  predicate HasBrace(f: string)
  {
    '{' in f || '}' in f
  }

  /** The format string as stored: a bare format specifier such as `.2f` is wrapped
      into the full format string `{:.2f}`; a string that already holds a brace, and
      the empty string, are kept. */
  function FormatString(f: string): (r: string)
    ensures f != "" ==> HasBrace(r)
    ensures HasBrace(f) || f == "" ==> r == f
    ensures !HasBrace(f) && f != "" ==> |r| == |f| + 3 && r[..2] == "{:" && r[2..|r| - 1] == f && r[|r| - 1] == '}'
  {
    if f != "" && !HasBrace(f) then
      var r := "{:" + f + "}";
      assert r[2] in r;
      r
    else f
  }

  /** Normalising a format string twice changes nothing more. */
  lemma FormatStringIdempotent(f: string)
    ensures FormatString(FormatString(f)) == FormatString(f)
  {
  }

  /** `ColumnMetadata.__init__`: the home unit falls back to the unit when it is absent
      or empty, and a given format is normalised. */
  function NewColumnMetadata(unit: string, homeUnit: Option<string>, remark: Option<string>,
                             format: Option<string>): (m: ColumnMetadata)
    ensures m.unit == unit && m.remark == remark
    ensures homeUnit.Some? && homeUnit.value != "" ==> m.homeUnit == homeUnit.value
    ensures homeUnit.None? || homeUnit == Some("") ==> m.homeUnit == unit
    ensures m.format.Some? <==> format.Some?
    ensures format.Some? ==> m.format.value == FormatString(format.value)
    ensures m.format.Some? && m.format.value != "" ==> HasBrace(m.format.value)
  {
    ColumnMetadata(
      unit,
      if homeUnit.Some? && homeUnit.value != "" then homeUnit.value else unit,
      remark,
      if format.Some? then Some(FormatString(format.value)) else None)
  }

  // ---------------------------------------------------------------------------
  // Destinations.

  /** The three ValueErrors a table raises. */
  datatype TableError =
    | WhitespaceInDestination(destination: string)
    | DuplicateDestinations
    | MissingColumnSpecs(columns: seq<string>)

  predicate Distinct(xs: seq<string>)
  {
    forall i, j | 0 <= i < j < |xs| :: xs[i] != xs[j]
  }

  predicate AllNoSpace(xs: seq<string>)
  {
    forall i | 0 <= i < |xs| :: Text.NoSpace(xs[i])
  }

  /** `d` is the first element of `xs` that holds whitespace. */
  ghost predicate FirstSpaced(xs: seq<string>, d: string)
  {
    exists k | 0 <= k < |xs| :: xs[k] == d && !Text.NoSpace(d) && forall j | 0 <= j < k :: Text.NoSpace(xs[j])
  }

  function Stripped(ds: seq<string>): (r: seq<string>)
    ensures |r| == |ds| && forall i | 0 <= i < |ds| :: r[i] == Text.Strip(ds[i])
  {
    seq(|ds|, i requires 0 <= i < |ds| => Text.Strip(ds[i]))
  }

  /** The position of the first element holding whitespace. */
  function FirstWithSpace(xs: seq<string>): (r: Option<nat>)
    ensures r.Some? ==> r.value < |xs| && !Text.NoSpace(xs[r.value])
    ensures r.Some? ==> forall j | 0 <= j < r.value :: Text.NoSpace(xs[j])
    ensures r.None? <==> AllNoSpace(xs)
  {
    if xs == [] then None
    else if !Text.NoSpace(xs[0]) then Some(0)
    else
      match FirstWithSpace(xs[1..])
      case None => None
      case Some(k) => Some(k + 1)
  }

  /** A list has as many distinct elements as entries exactly when no entry repeats. */
  lemma {:induction false} DistinctIffSetSize(xs: seq<string>)
    ensures |set x | x in xs| == |xs| <==> Distinct(xs)
    decreases |xs|
  {
    if xs != [] {
      var init := xs[..|xs| - 1];
      var last := xs[|xs| - 1];
      DistinctIffSetSize(init);
      SetSizeBound(init);
      assert (set x | x in xs) == (set x | x in init) + {last} by {
        assert xs == init + [last];
      }
      if last in init {
        var k :| 0 <= k < |init| && init[k] == last;
        assert xs[k] == xs[|xs| - 1];
      } else {
        if Distinct(init) {
          forall i, j | 0 <= i < j < |xs| ensures xs[i] != xs[j] {
            if j == |xs| - 1 {
              assert xs[i] == init[i];
            } else {
              assert xs[i] == init[i] && xs[j] == init[j];
            }
          }
        } else {
          var i, j :| 0 <= i < j < |init| && init[i] == init[j];
          assert xs[i] == xs[j];
        }
      }
    }
  }

  lemma {:induction false} SetSizeBound(xs: seq<string>)
    ensures |set x | x in xs| <= |xs|
    decreases |xs|
  {
    if xs != [] {
      var init := xs[..|xs| - 1];
      SetSizeBound(init);
      assert (set x | x in xs) == (set x | x in init) + {xs[|xs| - 1]} by {
        assert xs == init + [xs[|xs| - 1]];
      }
    }
  }

  /** `Table._sanitize_destinations`: every destination is stripped and the order is
      kept; a stripped destination that still holds whitespace is refused (the first
      such one is named), and so are repeated destinations. */
  function SanitizeDestinations(ds: seq<string>): (r: Result<seq<string>, TableError>)
    ensures r.Ok? <==> AllNoSpace(Stripped(ds)) && Distinct(Stripped(ds))
    ensures r.Ok? ==> r.value == Stripped(ds)
    ensures r == Err(DuplicateDestinations) <==> AllNoSpace(Stripped(ds)) && !Distinct(Stripped(ds))
    ensures r.Err? && r.error != DuplicateDestinations ==>
              r.error.WhitespaceInDestination? && FirstSpaced(Stripped(ds), r.error.destination)
  {
    var s := Stripped(ds);
    match FirstWithSpace(s)
    case Some(k) => Err(WhitespaceInDestination(s[k]))
    case None =>
      DistinctIffSetSize(s);
      if |set d | d in s| != |s| then Err(DuplicateDestinations) else Ok(s)
  }

  /** Sanitised destinations are their own sanitising. */
  lemma SanitizeIdempotent(ds: seq<string>)
    requires SanitizeDestinations(ds).Ok?
    ensures SanitizeDestinations(SanitizeDestinations(ds).value) == SanitizeDestinations(ds)
  {
    var s := Stripped(ds);
    forall i | 0 <= i < |s| ensures Text.Strip(s[i]) == s[i] {
      Text.StripByIdempotent(ds[i], Text.IsSpace);
    }
    assert Stripped(s) == s;
  }

  /** The destinations a new table gets: none, or an empty list, mean `['all']`. */
  function TableDestinations(ds: Option<seq<string>>): (r: Result<seq<string>, TableError>)
    ensures ds.None? || ds == Some([]) ==> r == Ok([DefaultDestination])
    ensures ds.Some? && ds.value != [] ==> r == SanitizeDestinations(ds.value)
  {
    if ds.None? || ds.value == [] then
      DefaultIsSanitized();
      SanitizeDestinations([DefaultDestination])
    else SanitizeDestinations(ds.value)
  }

  /** The default destination passes sanitising unchanged. */
  lemma DefaultIsSanitized()
    ensures SanitizeDestinations([DefaultDestination]) == Ok([DefaultDestination])
  {
    Text.StripByFixed(DefaultDestination, Text.IsSpace);
    assert Stripped([DefaultDestination]) == [DefaultDestination];
  }

  /** Assigning an empty list through the setter keeps it empty: the default applies
      to construction only. */
  lemma SetterKeepsEmpty()
    ensures SanitizeDestinations([]) == Ok([])
  {
    assert Stripped([]) == [];
  }

  // ---------------------------------------------------------------------------
  // Column specifications.

  /** The columns without a specification, in column order. */
  function MissingColumns(specs: map<string, ColumnMetadata>, columns: seq<string>): (r: seq<string>)
    ensures forall c :: c in r <==> c in columns && c !in specs
    ensures |r| <= |columns|
  {
    if columns == [] then []
    else (if columns[0] in specs then [] else [columns[0]]) + MissingColumns(specs, columns[1..])
  }

  predicate AllSpecified(specs: map<string, ColumnMetadata>, columns: seq<string>)
  {
    forall i | 0 <= i < |columns| :: columns[i] in specs
  }

  /** `Table._validate_col_specs`: an error exactly when some column has no
      specification, naming the columns that miss one; extra specifications are
      allowed. */
  function ValidateColSpecs(specs: map<string, ColumnMetadata>, columns: seq<string>): (r: Option<TableError>)
    ensures r.None? <==> AllSpecified(specs, columns)
    ensures r.Some? ==> r.value.MissingColumnSpecs? && r.value.columns != []
    ensures r.Some? ==> forall c :: c in r.value.columns <==> c in columns && c !in specs
  {
    var missing := MissingColumns(specs, columns);
    if missing != [] then
      assert missing[0] in missing;
      Some(MissingColumnSpecs(missing))
    else None
  }

  /** The specifications a table without any gets: unit `text` for every column. */
  function DefaultColSpecs(columns: seq<string>): (r: map<string, ColumnMetadata>)
    ensures AllSpecified(r, columns)
    ensures forall c :: c in r <==> c in columns
    ensures forall c | c in r :: r[c] == NewColumnMetadata(DefaultUnit, None, None, None)
  {
    map c | c in columns :: NewColumnMetadata(DefaultUnit, None, None, None)
  }

  /** The specifications a new table keeps: given ones are checked and kept as given,
      no (or empty) ones are replaced by the defaults. Either way every column of the
      table has one. */
  function ColSpecs(specs: map<string, ColumnMetadata>, columns: seq<string>): (r: Result<map<string, ColumnMetadata>, TableError>)
    ensures specs == map[] ==> r == Ok(DefaultColSpecs(columns))
    ensures specs != map[] ==> (r.Ok? <==> AllSpecified(specs, columns))
    ensures specs != map[] && r.Ok? ==> r.value == specs
    ensures r.Err? ==> Some(r.error) == ValidateColSpecs(specs, columns)
    ensures r.Ok? ==> AllSpecified(r.value, columns)
  {
    if specs == map[] then Ok(DefaultColSpecs(columns))
    else
      match ValidateColSpecs(specs, columns)
      case Some(e) => Err(e)
      case None => Ok(specs)
  }

  // ---------------------------------------------------------------------------
  // Tables.

  /** A table: its name, the column names of its DataFrame, the column
      specifications and the destinations. */
  class Table {
    var name: string
    var columns: seq<string>
    var colSpecs: map<string, ColumnMetadata>
    var destinations: seq<string>

    /** What construction establishes and the destinations setter keeps. */
    ghost predicate Valid()
      reads this
    {
      AllSpecified(colSpecs, columns) && AllNoSpace(destinations) && Distinct(destinations)
    }

    constructor (name: string, columns: seq<string>, colSpecs: map<string, ColumnMetadata>, destinations: seq<string>)
      requires AllSpecified(colSpecs, columns) && AllNoSpace(destinations) && Distinct(destinations)
      ensures Valid()
      ensures this.name == name && this.columns == columns
      ensures this.colSpecs == colSpecs && this.destinations == destinations
    {
      this.name := name;
      this.columns := columns;
      this.colSpecs := colSpecs;
      this.destinations := destinations;
    }

    /** The `destinations` setter: sanitised destinations replace the old ones; on an
        error nothing changes. */
    method SetDestinations(ds: seq<string>) returns (e: Option<TableError>)
      modifies this
      ensures e.None? <==> SanitizeDestinations(ds).Ok?
      ensures e.None? ==> destinations == SanitizeDestinations(ds).value
      ensures e.Some? ==> e.value == SanitizeDestinations(ds).error && destinations == old(destinations)
      ensures name == old(name) && columns == old(columns) && colSpecs == old(colSpecs)
      ensures old(Valid()) ==> Valid()
    {
      var r := SanitizeDestinations(ds);
      if r.Err? {
        return Some(r.error);
      }
      destinations := r.value;
      e := None;
    }
  }

  /** `Table.__init__`: the column specifications are checked first, then the
      destinations; a new table has a specification for each of its columns and
      sanitised destinations. */
  method NewTable(columns: seq<string>, name: string, specs: map<string, ColumnMetadata>,
                  destinations: Option<seq<string>>) returns (r: Result<Table, TableError>)
    ensures r.Ok? <==> ColSpecs(specs, columns).Ok? && TableDestinations(destinations).Ok?
    ensures r.Err? && ColSpecs(specs, columns).Err? ==> r.error == ColSpecs(specs, columns).error
    ensures r.Err? && ColSpecs(specs, columns).Ok? ==> r.error == TableDestinations(destinations).error
    ensures r.Ok? ==> fresh(r.value) && r.value.Valid()
    ensures r.Ok? ==> r.value.name == name && r.value.columns == columns
    ensures r.Ok? ==> r.value.colSpecs == ColSpecs(specs, columns).value
    ensures r.Ok? ==> r.value.destinations == TableDestinations(destinations).value
  {
    var cs := ColSpecs(specs, columns);
    if cs.Err? {
      return Err(cs.error);
    }
    var ds := TableDestinations(destinations);
    if ds.Err? {
      return Err(ds.error);
    }
    var t := new Table(name, columns, cs.value, ds.value);
    return Ok(t);
  }

  // ---------------------------------------------------------------------------
  // Bundles.

  /** The selection `_filter_tables` makes, as a condition on a table's name and
      destinations. */
  type Selector = (string, seq<string>) -> bool

  predicate Matches(t: Table, select: Selector)
    reads t
  {
    select(t.name, t.destinations)
  }

  /** The selected tables, in bundle order. */
  function Selected(ts: seq<Table>, select: Selector): (r: seq<Table>)
    reads set t | t in ts
    ensures forall t | t in r :: t in ts && Matches(t, select)
    ensures forall t | t in ts && Matches(t, select) :: t in r
    ensures |r| <= |ts|
  {
    if ts == [] then []
    else (if Matches(ts[0], select) then [ts[0]] else []) + Selected(ts[1..], select)
  }

  /** The unselected tables, in bundle order. */
  function Unselected(ts: seq<Table>, select: Selector): (r: seq<Table>)
    reads set t | t in ts
    ensures forall t | t in r :: t in ts && !Matches(t, select)
    ensures forall t | t in ts && !Matches(t, select) :: t in r
  {
    if ts == [] then []
    else (if Matches(ts[0], select) then [] else [ts[0]]) + Unselected(ts[1..], select)
  }

  /** The tables of `ts` that are not (the same object as) one of `gone`, in order. */
  function Without(ts: seq<Table>, gone: seq<Table>): (r: seq<Table>)
    ensures forall t | t in r :: t in ts && t !in gone
    ensures forall t | t in ts && t !in gone :: t in r
  {
    if ts == [] then []
    else (if ts[0] in gone then [] else [ts[0]]) + Without(ts[1..], gone)
  }

  /** Removing what a selection picked leaves exactly the unselected tables, in order. */
  lemma {:induction false} WithoutSelection(ts: seq<Table>, gone: seq<Table>, select: Selector)
    requires forall t | t in ts :: t in gone <==> Matches(t, select)
    ensures Without(ts, gone) == Unselected(ts, select)
    decreases |ts|
  {
    if ts != [] {
      WithoutSelection(ts[1..], gone, select);
    }
  }

  /** What is popped and what stays make up the bundle, each table exactly as often as
      before. */
  lemma {:induction false} PopPartitions(ts: seq<Table>, select: Selector)
    ensures multiset(Selected(ts, select)) + multiset(Unselected(ts, select)) == multiset(ts)
    decreases |ts|
  {
    if ts != [] {
      PopPartitions(ts[1..], select);
      assert ts == [ts[0]] + ts[1..];
    }
  }

  /** A selection of every table pops them all and leaves none. */
  lemma {:induction false} PopEverything(ts: seq<Table>, select: Selector)
    requires forall t | t in ts :: Matches(t, select)
    ensures Selected(ts, select) == ts && Unselected(ts, select) == []
    decreases |ts|
  {
    if ts != [] {
      PopEverything(ts[1..], select);
      assert ts == [ts[0]] + ts[1..];
    }
  }

  /** A bundle of tables. */
  class Bundle {
    var tables: seq<Table>

    constructor (tables: seq<Table>)
      ensures this.tables == tables
    {
      this.tables := tables;
    }

    /** `Bundle.pop_tables`: the selected tables are returned in bundle order, and the
        bundle keeps exactly the others, in their order. */
    method PopTables(select: Selector) returns (popped: seq<Table>)
      modifies this
      ensures popped == Selected(old(tables), select)
      ensures tables == Unselected(old(tables), select)
      ensures multiset(popped) + multiset(tables) == multiset(old(tables))
    {
      popped := Selected(tables, select);
      WithoutSelection(tables, popped, select);
      PopPartitions(tables, select);
      tables := Without(tables, popped);
    }
  }

  // ---------------------------------------------------------------------------
  // Expression strings.

  /** A cell value: a string, or a value of any other type. */
  datatype Cell = StrCell(text: string) | OtherCell

  /** `s` without one trailing newline, as `$` allows. */
  function LastLine(s: string): string
  {
    if s != [] && s[|s| - 1] == '\n' then s[..|s| - 1] else s
  }

  /** `EXPRESSION_RE.match(s)`: `{{`, any characters but a newline, `}}`, and at most
      one newline after them. */
  predicate MatchesExpression(s: string)
  {
    var t := LastLine(s);
    |t| >= 4 && t[..2] == "{{" && t[|t| - 2..] == "}}" && '\n' !in t[2..|t| - 2]
  }

  /** `_is_expression_str`; a value that is not a string is no expression. */
  function IsExpressionStr(x: Cell): (r: bool)
    ensures x.OtherCell? ==> !r
    ensures x.StrCell? ==> (r <==> MatchesExpression(x.text))
  {
    x.StrCell? && MatchesExpression(x.text)
  }

  /** The text between the markers of an expression string. */
  function ExpressionBody(s: string): string
    requires MatchesExpression(s)
  {
    var t := LastLine(s);
    t[2..|t| - 2]
  }

  /** Every expression string is `{{`, a body without newlines, `}}`, and possibly one
      newline. */
  lemma ExpressionForm(s: string)
    requires MatchesExpression(s)
    ensures '\n' !in ExpressionBody(s)
    ensures s == "{{" + ExpressionBody(s) + "}}" || s == "{{" + ExpressionBody(s) + "}}\n"
  {
    var t := LastLine(s);
    assert t == t[..2] + t[2..|t| - 2] + t[|t| - 2..];
    if t != s {
      assert s == t + "\n";
    }
  }

  /** Conversely every such string is an expression string. */
  lemma FormIsExpression(body: string, newline: bool)
    requires '\n' !in body
    ensures var s := "{{" + body + "}}" + (if newline then "\n" else "");
            MatchesExpression(s) && ExpressionBody(s) == body
  {
    var t := "{{" + body + "}}";
    var s := t + (if newline then "\n" else "");
    assert LastLine(s) == t;
    assert t[..2] == "{{" && t[|t| - 2..] == "}}" && t[2..|t| - 2] == body;
  }

  function Braces(): set<char>
  {
    {'{', '}'}
  }

  /** `_strip_expression_markers`: every leading and trailing brace goes. */
  function StripExpressionMarkers(e: string): (r: string)
    ensures r == [] || (r[0] !in Braces() && r[|r| - 1] !in Braces())
    ensures |r| <= |e|
  {
    Text.StripChars(e, Braces())
  }

  /** Stripping the markers of an expression string gives back its body, when the body
      itself neither starts nor ends with a brace. */
  lemma StripMarkersOfExpression(body: string)
    requires body == [] || (body[0] !in Braces() && body[|body| - 1] !in Braces())
    ensures StripExpressionMarkers("{{" + body + "}}") == body
  {
    var s := "{{" + body + "}}";
    var drop := c => c in Braces();
    LeadingBraces(body);
    assert Text.LeadingCount(s, drop) == Text.LeadingCount(body + "}}", drop) + 2 by {
      assert s[1..] == "{" + body + "}}" && s[1..][1..] == body + "}}";
    }
    if body == [] {
      assert Text.StripBy(s, drop) == [];
    } else {
      var t := s[2..];
      assert t == body + "}}";
      TrailingBraces(body);
    }
  }

  lemma LeadingBraces(body: string)
    requires body == [] || (body[0] !in Braces() && body[|body| - 1] !in Braces())
    ensures Text.LeadingCount(body + "}}", c => c in Braces()) == (if body == [] then 2 else 0)
  {
    var drop := c => c in Braces();
    if body == [] {
      assert ("}}")[1..] == "}" && ("}")[1..] == "";
    }
  }

  lemma TrailingBraces(body: string)
    requires body != [] && body[0] !in Braces() && body[|body| - 1] !in Braces()
    ensures Text.TrailingCount(body + "}}", c => c in Braces()) == 2
  {
    var t := body + "}}";
    assert t[..|t| - 1] == body + "}" && (body + "}")[..|body|] == body;
  }

  // ---------------------------------------------------------------------------
  // Repairing blocks that miss separators.

  /** The largest number of separators on any line. */
  function MaxCount(lines: seq<string>, sep: char): (m: nat)
    requires lines != []
    ensures forall i | 0 <= i < |lines| :: Text.Count(lines[i], sep) <= m
    ensures exists i | 0 <= i < |lines| :: Text.Count(lines[i], sep) == m
  {
    if |lines| == 1 then Text.Count(lines[0], sep)
    else
      var rest := MaxCount(lines[1..], sep);
      var here := Text.Count(lines[0], sep);
      assert forall i | 1 <= i < |lines| :: lines[i] == lines[1..][i - 1];
      if here >= rest then here else rest
  }

  function Repeat(c: char, n: nat): (r: string)
    ensures |r| == n && forall i | 0 <= i < n :: r[i] == c
  {
    if n == 0 then [] else [c] + Repeat(c, n - 1)
  }

  lemma {:induction false} CountConcat(a: string, b: string, c: char)
    ensures Text.Count(a + b, c) == Text.Count(a, c) + Text.Count(b, c)
    decreases |a|
  {
    if a != [] {
      var ab := a + b;
      assert ab[0] == a[0] && ab[1..] == a[1..] + b;
      assert Text.Count(ab, c) == (if a[0] == c then 1 else 0) + Text.Count(a[1..] + b, c);
      CountConcat(a[1..], b, c);
    } else {
      assert a + b == b;
    }
  }

  lemma {:induction false} CountRepeat(c: char, n: nat)
    ensures Text.Count(Repeat(c, n), c) == n
    decreases n
  {
    if n > 0 {
      assert Repeat(c, n)[1..] == Repeat(c, n - 1);
      CountRepeat(c, n - 1);
    }
  }

  /** One line padded with `sep` up to `m` separators. */
  function PadLine(line: string, sep: char, m: nat): (r: string)
    requires Text.Count(line, sep) <= m
    ensures Text.Count(r, sep) == m
    ensures |line| <= |r| && r[..|line|] == line
    ensures forall k | |line| <= k < |r| :: r[k] == sep
    ensures Text.Count(line, sep) == m ==> r == line
  {
    var r := line + Repeat(sep, m - Text.Count(line, sep));
    CountConcat(line, Repeat(sep, m - Text.Count(line, sep)), sep);
    CountRepeat(sep, m - Text.Count(line, sep));
    assert r[..|line|] == line;
    r
  }

  /** The lines of a block, each padded to the block's largest separator count. No line
      is removed, a line is only extended by separators, and a line already at the
      largest count is unchanged. */
  function PadLines(lines: seq<string>, sep: char): (r: seq<string>)
    requires lines != []
    ensures |r| == |lines|
    ensures forall i | 0 <= i < |r| :: Text.Count(r[i], sep) == MaxCount(lines, sep)
    ensures forall i | 0 <= i < |r| :: |lines[i]| <= |r[i]| && r[i][..|lines[i]|] == lines[i]
    ensures forall i, k | 0 <= i < |r| && |lines[i]| <= k < |r[i]| :: r[i][k] == sep
    ensures forall i | 0 <= i < |r| :: Text.Count(lines[i], sep) == MaxCount(lines, sep) ==> r[i] == lines[i]
  {
    var m := MaxCount(lines, sep);
    seq(|lines|, i requires 0 <= i < |lines| => PadLine(lines[i], sep, m))
  }

  /** The repair in `_parse_csv_table_block`: split the block into lines, pad them,
      and join them again. */
  function RepairBlock(block: string, sep: char): (r: string)
  {
    Text.Join(PadLines(Text.Split(block, '\n'), sep), '\n')
  }

  lemma {:induction false} CountAbsent(s: string, c: char)
    requires c !in s
    ensures Text.Count(s, c) == 0
    decreases |s|
  {
    if s != [] {
      assert s[0] != c;
      CountAbsent(s[1..], c);
    }
  }

  /** Padding brings in no character the lines avoid, other than the separator. */
  lemma PaddedAvoids(lines: seq<string>, sep: char, c: char)
    requires lines != [] && forall p <- lines :: c !in p
    ensures forall p <- PadLines(lines, sep) :: c !in p
  {
    var padded := PadLines(lines, sep);
    if sep == c {
      forall i | 0 <= i < |lines| ensures Text.Count(lines[i], sep) == 0 {
        assert lines[i] in lines;
        CountAbsent(lines[i], c);
      }
      assert padded == lines;
    } else {
      forall i | 0 <= i < |padded| ensures c !in padded[i] {
        assert lines[i] in lines;
        PaddedLineAvoids(lines[i], padded[i], sep, c);
      }
    }
  }

  lemma PaddedLineAvoids(line: string, p: string, sep: char, c: char)
    requires c != sep && c !in line
    requires |line| <= |p| && p[..|line|] == line
    requires forall k | |line| <= k < |p| :: p[k] == sep
    ensures c !in p
  {
    forall k | 0 <= k < |p| ensures p[k] != c {
      if k < |line| {
        assert p[k] == p[..|line|][k];
      }
    }
  }

  /** Padding adds no line break, so the repaired block has the same number of lines,
      each the padded version of the original line. */
  lemma RepairedLines(block: string, sep: char)
    ensures Text.Split(RepairBlock(block, sep), '\n') == PadLines(Text.Split(block, '\n'), sep)
  {
    var lines := Text.Split(block, '\n');
    PaddedAvoids(lines, sep, '\n');
    Text.SplitJoin(PadLines(lines, sep), '\n');
  }

  /** After the repair every line carries the same number of separators. */
  lemma RepairEvensCounts(block: string, sep: char)
    ensures var ls := Text.Split(RepairBlock(block, sep), '\n');
            forall i, j | 0 <= i < j < |ls| :: Text.Count(ls[i], sep) == Text.Count(ls[j], sep)
  {
    RepairedLines(block, sep);
  }

  /** Repairing a repaired block changes nothing. */
  lemma RepairIdempotent(block: string, sep: char)
    ensures RepairBlock(RepairBlock(block, sep), sep) == RepairBlock(block, sep)
  {
    var padded := PadLines(Text.Split(block, '\n'), sep);
    RepairedLines(block, sep);
    var m := MaxCount(padded, sep);
    assert m == MaxCount(Text.Split(block, '\n'), sep);
    assert PadLines(padded, sep) == padded;
  }
}
