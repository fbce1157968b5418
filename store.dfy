/** The tokens a reader emits and the simplest store for them (tables/store.py): a
    bundle of tables keyed by name. */
module Store {
  import opened Wrappers

  /** `StarBlockType`: the kinds of block a reader can emit. */
  datatype BlockType = Directive | TableBlock | TemplateRow | Metadata | Blank

  /** The parsed cells of one column. Float cells are kept as the literal text that
      Python's `float()` accepts. */
  datatype ColumnData =
    | TextColumn(texts: seq<string>)
    | OnOffColumn(flags: seq<bool>)
    | FloatColumn(literals: seq<string>)

  /** Where a table came from: the file name and the block's line number. */
  datatype Origin = Origin(file: string, line: nat)

  /** A table as a reader builds it. */
  datatype Table = Table(
    name: string,
    destinations: set<string>,
    units: seq<string>,
    columns: map<string, ColumnData>,
    origin: Origin)

  /** A token: the block type, and a payload for table blocks only. */
  datatype Token = Token(kind: BlockType, payload: Option<Table>)

  /** `TableBundle`: the tables, and their names in the order a dict iterates them
      (first insertion). */
  datatype Bundle = Bundle(names: seq<string>, tables: map<string, Table>)

  datatype StoreError = KeyError(key: string)

  /** The tokens the bundle keeps. */
  predicate Kept(t: Token)
  {
    t.kind == TableBlock && t.payload.Some?
  }

  /** The names of the kept tokens, in stream order (repeats included). */
  function KeptNames(ts: seq<Token>): (r: seq<string>)
    ensures |r| <= |ts|
  {
    if ts == [] then []
    else
      var init := KeptNames(ts[..|ts| - 1]);
      var t := ts[|ts| - 1];
      if Kept(t) then init + [t.payload.value.name] else init
  }

  /** `TableBundle(ts)`: kept tokens in stream order, a later table replacing an
      earlier one of the same name while keeping its place. */
  function BundleOf(ts: seq<Token>): (b: Bundle)
  {
    if ts == [] then Bundle([], map[])
    else
      var b := BundleOf(ts[..|ts| - 1]);
      var t := ts[|ts| - 1];
      if !Kept(t) then b
      else
        var n := t.payload.value.name;
        Bundle(if n in b.tables then b.names else b.names + [n], b.tables[n := t.payload.value])
  }

  /** `__getitem__` and `__getattr__`. */
  function GetItem(b: Bundle, name: string): (r: Result<Table, StoreError>)
    ensures r.Ok? <==> name in b.tables
    ensures r.Ok? ==> r.value == b.tables[name]
    ensures r.Err? ==> r.error == KeyError(name)
  {
    if name in b.tables then Ok(b.tables[name]) else Err(KeyError(name))
  }

  /** `__iter__` of `TableBundle(ts)`: every name of a kept token, once each. */
  function Names(ts: seq<Token>): (r: seq<string>)
    ensures Distinct(r)
    ensures forall n :: n in r <==> n in KeptNames(ts)
  {
    BundleNames(ts);
    BundleOf(ts).names
  }

  predicate Distinct(xs: seq<string>)
  {
    forall i, j | 0 <= i < j < |xs| :: xs[i] != xs[j]
  }

  /** Iteration lists every stored name exactly once, and only the names of kept
      tokens are stored. */
  lemma {:induction false} BundleNames(ts: seq<Token>)
    ensures Distinct(BundleOf(ts).names)
    ensures forall n :: n in BundleOf(ts).names <==> n in BundleOf(ts).tables
    ensures forall n :: n in BundleOf(ts).tables <==> n in KeptNames(ts)
    decreases |ts|
  {
    if ts != [] {
      BundleNames(ts[..|ts| - 1]);
    }
  }

  /** A stored table is the last kept token of that name. */
  lemma {:induction false} LastTableWins(ts: seq<Token>, i: nat)
    requires i < |ts| && Kept(ts[i])
    requires forall j | i < j < |ts| :: Kept(ts[j]) ==> ts[j].payload.value.name != ts[i].payload.value.name
    ensures GetItem(BundleOf(ts), ts[i].payload.value.name) == Ok(ts[i].payload.value)
    decreases |ts|
  {
    if i < |ts| - 1 {
      var init := ts[..|ts| - 1];
      assert init[i] == ts[i];
      forall j | i < j < |init| ensures Kept(init[j]) ==> init[j].payload.value.name != init[i].payload.value.name {
        assert init[j] == ts[j];
      }
      LastTableWins(init, i);
    }
  }

  /** Only kept tokens contribute: a stored table is the payload of some kept token. */
  lemma {:induction false} StoredCameFromStream(ts: seq<Token>, n: string)
    requires n in BundleOf(ts).tables
    ensures exists i | 0 <= i < |ts| :: Kept(ts[i]) && ts[i].payload.value == BundleOf(ts).tables[n]
    decreases |ts|
  {
    var init := ts[..|ts| - 1];
    var t := ts[|ts| - 1];
    if Kept(t) && t.payload.value.name == n {
      assert Kept(ts[|ts| - 1]);
    } else {
      StoredCameFromStream(init, n);
      var i :| 0 <= i < |init| && Kept(init[i]) && init[i].payload.value == BundleOf(init).tables[n];
      assert ts[i] == init[i];
    }
  }

  /** Tokens that are not tables, or carry no payload, leave the bundle unchanged. */
  lemma IgnoredTokens(ts: seq<Token>, t: Token)
    requires !Kept(t)
    ensures BundleOf(ts + [t]) == BundleOf(ts)
  {
    assert (ts + [t])[..|ts|] == ts;
  }
}
