/** The CSV reader of starTables (tables/readers/read_csv.py): the file's lines are cut
    into blocks at the lines that start a new block, and each block becomes a token;
    table blocks are parsed into a table. */
module ReadCsv {
  import opened Wrappers
  import opened Store
  import Text
  import Atoms

  datatype CsvError =
    | IndexError                                            // a table block of fewer than four lines
    | ColumnError(column: string, table: string, unit: string)  // a cell its column's type rejects

  // ---------------------------------------------------------------------------------
  // Cutting the file into blocks

  /** The block a line starts, if it starts one: `***` a directive, `**` a table, `:` a
      template row, and the separator a blank block unless the current block is the
      leading metadata. */
  function NextBlock(line: string, block: BlockType, sep: char): (r: Option<BlockType>)
    ensures r == Some(Blank) ==> block != Metadata
    ensures r.Some? ==> line != [] && (line[0] == '*' || line[0] == ':' || line[0] == sep)
  {
    if Text.StartsWith(line, "**") then
      (if Text.StartsWith(line, "***") then Some(Directive) else Some(TableBlock))
    else if Text.StartsWith(line, ":") then Some(TemplateRow)
    else if Text.StartsWith(line, [sep]) && block != Metadata then Some(Blank)
    else None
  }

  /** The classification in full: `***` a directive, else `**` a table, `:` a template
      row, the separator a blank block except inside the leading metadata, and any other
      line continues the current block. */
  lemma Classification(line: string, block: BlockType, sep: char)
    ensures Text.StartsWith(line, "***") ==> NextBlock(line, block, sep) == Some(Directive)
    ensures Text.StartsWith(line, "**") && !Text.StartsWith(line, "***") ==>
              NextBlock(line, block, sep) == Some(TableBlock)
    ensures line != [] && line[0] == ':' ==> NextBlock(line, block, sep) == Some(TemplateRow)
    ensures line != [] && line[0] == sep && sep != '*' && sep != ':' ==>
              NextBlock(line, block, sep) == (if block == Metadata then None else Some(Blank))
    ensures line == [] || (line[0] != '*' && line[0] != ':' && line[0] != sep) ==>
              NextBlock(line, block, sep) == None
  {
    if Text.StartsWith(line, "***") {
      assert line[..2] == line[..3][..2];
    }
  }

  /** A block: its type, its lines, and the line number its origin records. */
  datatype Block = Block(kind: BlockType, lines: seq<string>, line: nat)

  /** The reader's state between two lines: the blocks emitted so far, and the current
      block's lines, type and line number. */
  datatype Reader = Reader(done: seq<Block>, lines: seq<string>, block: BlockType, line: nat)

  /** One line, the `n`-th (0-based), fed to the reader. */
  function Feed(r: Reader, n: nat, line: string, sep: char): Reader
  {
    match NextBlock(line, r.block, sep)
    case None => r.(lines := r.lines + [line])
    case Some(next) => Reader(r.done + [Block(r.block, r.lines, r.line)], [line], next, n + 1)
  }

  /** The reader after the lines of `file`, starting in a metadata block at line 0. */
  function Run(file: seq<string>, sep: char): Reader
    decreases |file|
  {
    if file == [] then Reader([], [], Metadata, 0)
    else Feed(Run(file[..|file| - 1], sep), |file| - 1, file[|file| - 1], sep)
  }

  /** The blocks emitted so far and the current one. */
  function Pending(r: Reader): seq<Block>
  {
    r.done + [Block(r.block, r.lines, r.line)]
  }

  /** The blocks `read_file_csv` emits: the last one only if it has lines. */
  function Blocks(file: seq<string>, sep: char): seq<Block>
  {
    var r := Run(file, sep);
    if r.lines != [] then Pending(r) else r.done
  }

  /** The lines of the blocks, in order. */
  function Flatten(bs: seq<Block>): seq<string>
  {
    if bs == [] then [] else Flatten(bs[..|bs| - 1]) + bs[|bs| - 1].lines
  }

  /** No line of the block but its first starts a new block. */
  predicate Continues(b: Block, sep: char)
  {
    forall j | 0 < j < |b.lines| :: NextBlock(b.lines[j], b.kind, sep).None?
  }

  /** The block begins with a line that starts it, after a block of type `prev`, at the
      0-based line index `start`; its recorded line number is `start + 1`. */
  predicate Opens(prev: BlockType, b: Block, start: nat, sep: char)
  {
    b.lines != [] && NextBlock(b.lines[0], prev, sep) == Some(b.kind) && b.line == start + 1
  }

  /** `bs` cuts `file` at exactly the lines that start a block: a first metadata block
      at line 0 whose lines start nothing, then blocks each opened by its first line. */
  ghost predicate SplitInto(file: seq<string>, bs: seq<Block>, sep: char)
  {
    |bs| >= 1 && Flatten(bs) == file &&
    bs[0].kind == Metadata && bs[0].line == 0 &&
    (bs[0].lines != [] ==> NextBlock(bs[0].lines[0], Metadata, sep).None?) &&
    (forall k | 0 <= k < |bs| :: Continues(bs[k], sep)) &&
    (forall k | 0 < k < |bs| :: Opens(bs[k - 1].kind, bs[k], |Flatten(bs[..k])|, sep))
  }

  lemma FlattenAppend(bs: seq<Block>, b: Block)
    ensures Flatten(bs + [b]) == Flatten(bs) + b.lines
  {
    assert (bs + [b])[..|bs|] == bs;
  }

  /** The blocks with `line` added to the last one. */
  function Grow(bs: seq<Block>, line: string): (r: seq<Block>)
    requires |bs| >= 1
    ensures |r| == |bs| && r[..|bs| - 1] == bs[..|bs| - 1]
  {
    bs[..|bs| - 1] + [bs[|bs| - 1].(lines := bs[|bs| - 1].lines + [line])]
  }

  lemma GrowFlatten(bs: seq<Block>, line: string)
    requires |bs| >= 1
    ensures Flatten(Grow(bs, line)) == Flatten(bs) + [line]
  {
    var init := bs[..|bs| - 1];
    var last := bs[|bs| - 1];
    var g := Grow(bs, line);
    assert g[..|bs| - 1] == init;
    assert g[|bs| - 1].lines == last.lines + [line];
    assert Flatten(bs) == Flatten(init) + last.lines;
    assert Flatten(g) == Flatten(init) + (last.lines + [line]);
  }

  lemma GrowContinues(bs: seq<Block>, line: string, sep: char)
    requires |bs| >= 1 && forall k | 0 <= k < |bs| :: Continues(bs[k], sep)
    requires bs[|bs| - 1].lines != [] ==> NextBlock(line, bs[|bs| - 1].kind, sep).None?
    ensures forall k | 0 <= k < |bs| :: Continues(Grow(bs, line)[k], sep)
  {
    var g := Grow(bs, line);
    forall k | 0 <= k < |bs| ensures Continues(g[k], sep) {
      if k < |bs| - 1 {
        assert g[k] == g[..|bs| - 1][k] == bs[k];
      } else {
        var b := bs[k];
        assert g[k] == b.(lines := b.lines + [line]);
        assert Continues(b, sep);
        forall j | 0 < j < |g[k].lines| ensures NextBlock(g[k].lines[j], g[k].kind, sep).None? {
          if j < |b.lines| {
            assert g[k].lines[j] == b.lines[j];
          }
        }
      }
    }
  }

  lemma GrowOpens(bs: seq<Block>, line: string, sep: char)
    requires |bs| >= 1 && (|bs| > 1 ==> bs[|bs| - 1].lines != [])
    requires forall k | 0 < k < |bs| :: Opens(bs[k - 1].kind, bs[k], |Flatten(bs[..k])|, sep)
    ensures forall k | 0 < k < |bs| :: Opens(Grow(bs, line)[k - 1].kind, Grow(bs, line)[k], |Flatten(Grow(bs, line)[..k])|, sep)
  {
    var g := Grow(bs, line);
    forall k | 0 < k < |bs| ensures Opens(g[k - 1].kind, g[k], |Flatten(g[..k])|, sep) {
      assert g[..k] == g[..|bs| - 1][..k] == bs[..k];
      assert g[k - 1] == g[..|bs| - 1][k - 1] == bs[k - 1];
      assert Opens(bs[k - 1].kind, bs[k], |Flatten(bs[..k])|, sep);
      if k < |bs| - 1 {
        assert g[k] == g[..|bs| - 1][k] == bs[k];
      } else {
        assert g[k].lines[0] == bs[k].lines[0];
      }
    }
  }

  /** Adding a line to the reader's current block grows its pending blocks. */
  lemma PendingGrows(r: Reader, line: string)
    ensures Pending(r.(lines := r.lines + [line])) == Grow(Pending(r), line)
  {
    var p := Pending(r);
    assert p[..|r.done|] == r.done;
    assert p[|r.done|] == Block(r.block, r.lines, r.line);
  }

  /** The first block of a grown cut still starts nothing. */
  lemma GrowFirst(bs: seq<Block>, line: string, sep: char)
    requires |bs| >= 1 && bs[0].kind == Metadata && bs[0].line == 0
    requires bs[0].lines != [] ==> NextBlock(bs[0].lines[0], Metadata, sep).None?
    requires |bs| == 1 ==> NextBlock(line, Metadata, sep).None?
    ensures Grow(bs, line)[0].kind == Metadata && Grow(bs, line)[0].line == 0
    ensures Grow(bs, line)[0].lines != [] ==> NextBlock(Grow(bs, line)[0].lines[0], Metadata, sep).None?
  {
    var g := Grow(bs, line);
    if |bs| == 1 {
      if bs[0].lines == [] {
        assert g[0].lines == [line];
      } else {
        assert g[0].lines[0] == bs[0].lines[0];
      }
    } else {
      assert g[0] == g[..|bs| - 1][0] == bs[0];
    }
  }

  /** Feeding a line that continues the current block keeps the cut. */
  lemma FeedContinues(file: seq<string>, r: Reader, line: string, sep: char)
    requires SplitInto(file, Pending(r), sep) && (r.done != [] ==> r.lines != [])
    requires NextBlock(line, r.block, sep).None?
    ensures SplitInto(file + [line], Pending(r.(lines := r.lines + [line])), sep)
  {
    var bs := Pending(r);
    PendingGrows(r, line);
    GrowFlatten(bs, line);
    GrowContinues(bs, line, sep);
    GrowOpens(bs, line, sep);
    GrowFirst(bs, line, sep);
  }

  /** Feeding a line that starts a block closes the current one and opens the next. */
  lemma FeedOpens(file: seq<string>, r: Reader, line: string, next: BlockType, sep: char)
    requires SplitInto(file, Pending(r), sep)
    requires NextBlock(line, r.block, sep) == Some(next)
    ensures SplitInto(file + [line], Pending(Reader(Pending(r), [line], next, |file| + 1)), sep)
  {
    var bs := Pending(r);
    var nb := Block(next, [line], |file| + 1);
    var bs' := bs + [nb];
    assert Pending(Reader(Pending(r), [line], next, |file| + 1)) == bs';
    FlattenAppend(bs, nb);
    forall k | 0 <= k < |bs'| ensures Continues(bs'[k], sep) {
      if k < |bs| {
        assert bs'[k] == bs[k];
      }
    }
    forall k | 0 < k < |bs'| ensures Opens(bs'[k - 1].kind, bs'[k], |Flatten(bs'[..k])|, sep) {
      if k < |bs| {
        assert bs'[..k] == bs[..k] && bs'[k] == bs[k] && bs'[k - 1] == bs[k - 1];
      } else {
        assert bs'[..k] == bs;
        assert bs'[k - 1] == bs[|bs| - 1] && bs[|bs| - 1].kind == r.block;
      }
    }
  }

  /** The reader's state always cuts the lines read so far correctly, and after the
      first line the current block is never empty. */
  lemma {:induction false} RunSplits(file: seq<string>, sep: char)
    ensures SplitInto(file, Pending(Run(file, sep)), sep)
    ensures file != [] ==> Run(file, sep).lines != []
    ensures Run(file, sep).done != [] ==> Run(file, sep).lines != []
    decreases |file|
  {
    if file == [] {
      var bs := Pending(Run(file, sep));
      assert bs == [Block(Metadata, [], 0)];
      FlattenAppend([], bs[0]);
    } else {
      var init := file[..|file| - 1];
      var line := file[|file| - 1];
      assert init + [line] == file;
      RunSplits(init, sep);
      var r := Run(init, sep);
      match NextBlock(line, r.block, sep)
      case None =>
        FeedContinues(init, r, line, sep);
      case Some(next) =>
        FeedOpens(init, r, line, next, sep);
    }
  }

  /** The blocks of a file cut it at exactly the lines that start a block, and the
      last block has lines; an empty file gives no block. */
  lemma BlocksOfFile(file: seq<string>, sep: char)
    ensures file == [] ==> Blocks(file, sep) == []
    ensures file != [] ==> SplitInto(file, Blocks(file, sep), sep)
    ensures file != [] ==> Blocks(file, sep)[|Blocks(file, sep)| - 1].lines != []
  {
    RunSplits(file, sep);
  }

  /** Joining the blocks gives back the file. */
  lemma BlocksJoinToFile(file: seq<string>, sep: char)
    ensures Flatten(Blocks(file, sep)) == file
  {
    BlocksOfFile(file, sep);
  }

  /** The blocks emitted before a point of the file are among the blocks of the whole
      file. */
  lemma {:induction false} DoneIsPrefix(file: seq<string>, m: nat, sep: char)
    requires m <= |file|
    ensures Run(file[..m], sep).done <= Blocks(file, sep)
    decreases |file| - m
  {
    if m == |file| {
      assert file[..m] == file;
    } else {
      DoneIsPrefix(file, m + 1, sep);
      assert file[..m + 1][..m] == file[..m];
      assert file[..m + 1] == file[..m] + [file[m]];
    }
  }

  // ---------------------------------------------------------------------------------
  // Parsing a table block

  function Min(a: int, b: int): int
  {
    if a <= b then a else b
  }

  /** `xs[:n]`. */
  function Take<T>(xs: seq<T>, n: nat): (r: seq<T>)
    ensures |r| == Min(n, |xs|) && r == xs[..|r|]
  {
    if n <= |xs| then xs[..n] else xs
  }

  /** `s[2:]`. */
  function DropTwo(s: string): string
  {
    if |s| >= 2 then s[2..] else []
  }

  /** `itertools.takewhile(lambda s: len(s.strip()) > 0, fields)`. */
  function TakeNonBlank(fields: seq<string>): (r: seq<string>)
    ensures r <= fields
    ensures forall i | 0 <= i < |r| :: Text.Strip(r[i]) != []
    ensures |r| == |fields| || Text.Strip(fields[|r|]) == []
  {
    if fields == [] || Text.Strip(fields[0]) == [] then []
    else
      var rest := TakeNonBlank(fields[1..]);
      var r := [fields[0]] + rest;
      assert r[1..] == rest && fields == [fields[0]] + fields[1..];
      assert forall i | 1 <= i < |r| :: r[i] == rest[i - 1];
      r
  }

  /** `s.split(d)` for a separator of any nonzero length, scanning left to right. */
  function SplitOn(s: string, d: string): (pieces: seq<string>)
    requires |d| > 0
    ensures |pieces| >= 1
    decreases |s|
  {
    if s == [] then [[]]
    else if Text.StartsWith(s, d) then [[]] + SplitOn(s[|d|..], d)
    else
      var rest := SplitOn(s[1..], d);
      [[s[0]] + rest[0]] + rest[1..]
  }

  /** `d.join(pieces)`. */
  function JoinOn(pieces: seq<string>, d: string): string
  {
    if pieces == [] then []
    else if |pieces| == 1 then pieces[0]
    else pieces[0] + d + JoinOn(pieces[1..], d)
  }

  /** Gluing a character onto the first piece glues it onto the join. */
  lemma JoinOnFirst(c: char, ps: seq<string>, d: string)
    requires |ps| >= 1
    ensures JoinOn([[c] + ps[0]] + ps[1..], d) == [c] + JoinOn(ps, d)
  {
    var qs := [[c] + ps[0]] + ps[1..];
    if |ps| > 1 {
      assert qs[1..] == ps[1..];
      assert JoinOn(qs, d) == ([c] + ps[0]) + d + JoinOn(ps[1..], d);
    }
  }

  /** Joining the pieces of a split restores the string. */
  lemma {:induction false} JoinSplitOn(s: string, d: string)
    requires |d| > 0
    ensures JoinOn(SplitOn(s, d), d) == s
    decreases |s|
  {
    if s == [] {
    } else if Text.StartsWith(s, d) {
      var ps := SplitOn(s[|d|..], d);
      JoinSplitOn(s[|d|..], d);
      assert SplitOn(s, d) == [[]] + ps;
      assert ([[]] + ps)[1..] == ps;
      assert JoinOn([[]] + ps, d) == [] + d + JoinOn(ps, d);
      assert s == d + s[|d|..];
    } else {
      var rest := SplitOn(s[1..], d);
      JoinSplitOn(s[1..], d);
      assert SplitOn(s, d) == [[s[0]] + rest[0]] + rest[1..];
      JoinOnFirst(s[0], rest, d);
      assert s == [s[0]] + s[1..];
    }
  }

  /** A string in which the separator's first character never occurs is one piece. */
  lemma {:induction false} SplitOnAbsent(s: string, d: string)
    requires |d| > 0 && d[0] !in s
    ensures SplitOn(s, d) == [s]
    decreases |s|
  {
    if s != [] {
      assert !Text.StartsWith(s, d) by {
        assert s[0] != d[0];
        if |d| <= |s| { assert s[..|d|][0] == s[0]; }
      }
      assert forall c | c in s[1..] :: c in s;
      SplitOnAbsent(s[1..], d);
      assert [s[0]] + s[1..] == s;
    }
  }

  /** The destinations: the first field of the line, split on the literal string
      `" ,;"`, each piece stripped. */
  function Destinations(line: string, sep: char): set<string>
  {
    var pieces := SplitOn(Text.Split(line, sep)[0], " ,;");
    set i | 0 <= i < |pieces| :: Text.Strip(pieces[i])
  }

  /** A first field without a space is a single destination. */
  lemma OneDestination(d: string, rest: string, sep: char)
    requires sep !in d && ' ' !in d
    ensures Destinations(d + [sep] + rest, sep) == {Text.Strip(d)}
  {
    Text.SplitPrefix(d, [sep] + rest, sep);
    assert Text.Split([sep] + rest, sep)[0] == [] by {
      assert ([sep] + rest)[1..] == rest;
    }
    assert d + [sep] + rest == d + ([sep] + rest);
    assert d + [] == d;
    SplitOnAbsent(d, " ,;");
  }

  /** The table name: the first field of the first line without its two leading
      characters (the `**` marker). */
  function TableName(line: string, sep: char): string
  {
    DropTwo(Text.Split(line, sep)[0])
  }

  /** A header line `**name` followed by the separator names the table `name`. */
  lemma TableNameOf(name: string, rest: string, sep: char)
    requires sep !in name && sep != '*'
    ensures TableName("**" + name + [sep] + rest, sep) == name
  {
    var head := "**" + name;
    assert sep !in head by {
      assert forall i | 0 <= i < |head| :: head[i] == '*' || head[i] in name by {
        forall i | 0 <= i < |head| ensures head[i] == '*' || head[i] in name {
          if i >= 2 { assert head[i] == name[i - 2]; }
        }
      }
    }
    Text.SplitPrefix(head, [sep] + rest, sep);
    assert Text.Split([sep] + rest, sep)[0] == [] by {
      assert ([sep] + rest)[1..] == rest;
    }
    assert "**" + name + [sep] + rest == head + ([sep] + rest);
    assert head + [] == head;
    assert head[2..] == name;
  }

  /** The cells of a data row: the row split on `rowSep`, cut to `n`. */
  function RowCells(line: string, rowSep: char, n: nat): (r: seq<string>)
    ensures |r| <= n
  {
    Take(Text.Split(line, rowSep), n)
  }

  /** The number of tuples `zip(*rows)` yields: the shortest row's length, none without
      rows. */
  function Shortest(rows: seq<seq<string>>): (m: nat)
    ensures forall i | 0 <= i < |rows| :: m <= |rows[i]|
    ensures rows != [] ==> exists i | 0 <= i < |rows| :: m == |rows[i]|
    ensures rows == [] ==> m == 0
  {
    if rows == [] then 0
    else if |rows| == 1 then |rows[0]|
    else
      var m := Shortest(rows[1..]);
      assert forall i | 1 <= i < |rows| :: rows[i] == rows[1..][i - 1];
      if |rows[0]| <= m then |rows[0]| else m
  }

  /** Everything `make_table` computes before its column loop. */
  datatype Layout = Layout(
    name: string,
    destinations: set<string>,
    names: seq<string>,
    units: seq<string>,
    rows: seq<seq<string>>,
    count: nat)

  /** The number of columns the loop builds fits every list it zips. */
  predicate Fits(l: Layout)
  {
    l.count <= |l.names| && l.count <= |l.units| &&
    forall i | 0 <= i < |l.rows| :: l.count <= |l.rows[i]|
  }

  /** The header of a table block of at least four lines, its data rows split on
      `rowSep`. */
  function LayoutOf(lines: seq<string>, sep: char, rowSep: char): (l: Layout)
    requires |lines| >= 4
    ensures Fits(l) && |l.rows| == |lines| - 4
  {
    var names := TakeNonBlank(Text.Split(lines[2], sep));
    var units := Take(Text.Split(lines[3], sep), |names|);
    var rows := seq(|lines| - 4, i requires 0 <= i < |lines| - 4 => RowCells(lines[4 + i], rowSep, |names|));
    Layout(TableName(lines[0], sep), Destinations(lines[1], sep), names, units, rows,
           Min(|units|, Shortest(rows)))
  }

  /** The `j`-th cells of the rows: the `j`-th tuple of `zip(*rows)`. */
  function ColumnCells(rows: seq<seq<string>>, j: nat): (r: seq<string>)
    requires forall i | 0 <= i < |rows| :: j < |rows[i]|
    ensures |r| == |rows| && forall i | 0 <= i < |rows| :: r[i] == rows[i][j]
  {
    seq(|rows|, i requires 0 <= i < |rows| => rows[i][j])
  }

  /** `_TF_values[cell.strip()]`: `0` is False, `1` is True, anything else is missing. */
  function Flag(cell: string): Option<bool>
  {
    var s := Text.Strip(cell);
    if s == "0" then Some(false) else if s == "1" then Some(true) else None
  }

  /** `_parse_onoff_column`: each cell, stripped, must be `0` or `1`. */
  function ParseOnOff(cells: seq<string>): (r: Option<seq<bool>>)
    ensures r.Some? <==> forall i | 0 <= i < |cells| :: Flag(cells[i]).Some?
    ensures r.Some? ==> |r.value| == |cells|
    ensures r.Some? ==> forall i | 0 <= i < |cells| :: Flag(cells[i]) == Some(r.value[i])
  {
    if cells == [] then Some([])
    else
      match Flag(cells[0])
      case None => None
      case Some(b) =>
        match ParseOnOff(cells[1..])
        case None =>
          assert forall i | 1 <= i < |cells| :: cells[i] == cells[1..][i - 1];
          None
        case Some(flags) =>
          assert forall i | 1 <= i < |cells| :: cells[i] == cells[1..][i - 1];
          Some([b] + flags)
  }

  /** The column parser a unit selects: `text`, `onoff`, or else floats. */
  function ParseColumn(unit: string, cells: seq<string>): (r: Option<ColumnData>)
    ensures unit == "text" ==> r == Some(TextColumn(cells))
    ensures unit != "text" && unit != "onoff" ==>
      (r.Some? <==> forall i | 0 <= i < |cells| :: Atoms.IsFloatText(cells[i]))
  {
    if unit == "text" then Some(TextColumn(cells))
    else if unit == "onoff" then
      (match ParseOnOff(cells) case Some(flags) => Some(OnOffColumn(flags)) case None => None)
    else if forall i | 0 <= i < |cells| :: Atoms.IsFloatText(cells[i]) then Some(FloatColumn(cells))
    else None
  }

  /** One step of the column loop: a column's name, unit and parsed cells (None when
      they do not parse). */
  datatype Slot = Slot(name: string, unit: string, data: Option<ColumnData>)

  /** The steps of the column loop, one per zipped column. */
  function Slots(l: Layout): (r: seq<Slot>)
    requires Fits(l)
    ensures |r| == l.count
    ensures forall j | 0 <= j < l.count ::
      r[j] == Slot(l.names[j], l.units[j], ParseColumn(l.units[j], ColumnCells(l.rows, j)))
  {
    seq(l.count, j requires 0 <= j < l.count =>
      Slot(l.names[j], l.units[j], ParseColumn(l.units[j], ColumnCells(l.rows, j))))
  }

  /** The column loop over `slots`, filling the dict; the first column that does not
      parse raises, naming the column, the table and the unit. */
  function BuildColumns(slots: seq<Slot>, table: string): Result<map<string, ColumnData>, CsvError>
  {
    if slots == [] then Ok(map[])
    else
      var last := slots[|slots| - 1];
      match BuildColumns(slots[..|slots| - 1], table)
      case Err(e) => Err(e)
      case Ok(m) =>
        match last.data
        case None => Err(ColumnError(last.name, table, last.unit))
        case Some(c) => Ok(m[last.name := c])
  }

  /** The columns are built exactly when every one parses; otherwise the error names the
      first column that does not. */
  lemma {:induction false} ColumnsFailAtFirstBad(slots: seq<Slot>, table: string)
    ensures BuildColumns(slots, table).Ok? <==> forall j | 0 <= j < |slots| :: slots[j].data.Some?
    ensures forall j | 0 <= j < |slots| && slots[j].data.None? && (forall i | 0 <= i < j :: slots[i].data.Some?) ::
      BuildColumns(slots, table) == Err(ColumnError(slots[j].name, table, slots[j].unit))
    decreases |slots|
  {
    if slots != [] {
      var init := slots[..|slots| - 1];
      ColumnsFailAtFirstBad(init, table);
      assert forall j | 0 <= j < |init| :: init[j] == slots[j];
    }
  }

  /** A built column holds its parsed cells under its name; a later column of the same
      name replaces an earlier one. */
  lemma {:induction false} ColumnsKept(slots: seq<Slot>, table: string, j: nat)
    requires j < |slots| && BuildColumns(slots, table).Ok?
    requires forall i | j < i < |slots| :: slots[i].name != slots[j].name
    ensures slots[j].name in BuildColumns(slots, table).value
    ensures Some(BuildColumns(slots, table).value[slots[j].name]) == slots[j].data
    decreases |slots|
  {
    var init := slots[..|slots| - 1];
    if j < |slots| - 1 {
      assert init[j] == slots[j];
      forall i | j < i < |init| ensures init[i].name != init[j].name {
        assert init[i] == slots[i];
      }
      ColumnsKept(init, table, j);
    }
  }

  /** The names the dict holds are the names of the columns. */
  lemma {:induction false} ColumnKeys(slots: seq<Slot>, table: string)
    requires BuildColumns(slots, table).Ok?
    ensures BuildColumns(slots, table).value.Keys == set j | 0 <= j < |slots| :: slots[j].name
    decreases |slots|
  {
    if slots != [] {
      var init := slots[..|slots| - 1];
      ColumnKeys(init, table);
      assert forall j | 0 <= j < |init| :: init[j] == slots[j];
    }
  }

  /** `make_table`, its data rows split on `rowSep`. */
  function TableWith(lines: seq<string>, sep: char, rowSep: char, origin: Origin): Result<Table, CsvError>
  {
    if |lines| < 4 then Err(IndexError)
    else
      var l := LayoutOf(lines, sep, rowSep);
      match BuildColumns(Slots(l), l.name)
      case Err(e) => Err(e)
      case Ok(columns) => Ok(Table(l.name, l.destinations, l.units, columns, origin))
  }

  /** `make_table` as written: data rows are split on `;` whatever the separator. */
  function TableAsWritten(lines: seq<string>, sep: char, origin: Origin): Result<Table, CsvError>
  {
    TableWith(lines, sep, ';', origin)
  }

  /** `make_table` with its data rows split on the table's own separator. */
  function TableOf(lines: seq<string>, sep: char, origin: Origin): Result<Table, CsvError>
  {
    TableWith(lines, sep, sep, origin)
  }

  /** With `,` as separator, the as-written reader keeps the row `1,2` as a single
      cell, so a two-column table loses its second column. */
  lemma RowSplitAsWritten()
    ensures RowCells(Text.Join(["1", "2"], ','), ';', 2) == ["1,2"]
  {
    assert Text.Join(["1", "2"], ',') == "1" + [','] + "2";
    assert "1" + [','] + "2" == "1,2";
    Text.SplitPrefix("1,2", [], ';');
    assert Text.Split([], ';') == [[]];
    assert "1,2" + [] == "1,2";
  }

  /** Splitting data rows on the separator reads back the cells a row was written
      with, cut to the table's width. */
  lemma RowsReadBack(cells: seq<string>, sep: char, n: nat)
    requires |cells| >= 1 && forall c <- cells :: sep !in c
    ensures RowCells(Text.Join(cells, sep), sep, n) == Take(cells, n)
  {
    Text.SplitJoin(cells, sep);
  }

  /** A table block needs its four header lines; a table that parses carries the
      name, destinations and units of its header and one entry per built column.  This
      holds whatever the rows are split on, so of the table reader as written and of the
      corrected one alike. */
  lemma TableShape(lines: seq<string>, sep: char, rowSep: char, origin: Origin)
    ensures |lines| < 4 ==> TableWith(lines, sep, rowSep, origin) == Err(IndexError)
    ensures TableWith(lines, sep, rowSep, origin).Ok? ==>
      (var l := LayoutOf(lines, sep, rowSep);
       var t := TableWith(lines, sep, rowSep, origin).value;
       t.name == TableName(lines[0], sep) && t.destinations == Destinations(lines[1], sep) &&
       t.units == l.units && t.origin == origin &&
       t.columns.Keys == set j | 0 <= j < l.count :: l.names[j])
  {
    if |lines| >= 4 {
      var l := LayoutOf(lines, sep, rowSep);
      if BuildColumns(Slots(l), l.name).Ok? {
        ColumnKeys(Slots(l), l.name);
      }
    }
  }

  /** One more step of the column loop. */
  lemma BuildStep(slots: seq<Slot>, j: nat, table: string, columns: map<string, ColumnData>)
    requires j < |slots| && BuildColumns(slots[..j], table) == Ok(columns)
    ensures slots[j].data.None? ==>
      BuildColumns(slots[..j + 1], table) == Err(ColumnError(slots[j].name, table, slots[j].unit))
    ensures slots[j].data.Some? ==>
      BuildColumns(slots[..j + 1], table) == Ok(columns[slots[j].name := slots[j].data.value])
  {
    assert slots[..j + 1][..j] == slots[..j];
  }

  /** Once a column raises, the loop raises that error however many columns follow. */
  lemma {:induction false} ColumnsErrorStays(p: seq<Slot>, q: seq<Slot>, table: string)
    requires p <= q && BuildColumns(p, table).Err?
    ensures BuildColumns(q, table) == BuildColumns(p, table)
    decreases |q|
  {
    if |q| > |p| {
      var init := q[..|q| - 1];
      assert p <= init;
      ColumnsErrorStays(p, init, table);
    } else {
      assert q == p;
    }
  }

  /** With the default separator `;` the reader as written and the corrected one agree. */
  lemma DefaultSeparatorAgrees(lines: seq<string>, origin: Origin)
    ensures TableAsWritten(lines, ';', origin) == TableOf(lines, ';', origin)
  {
  }

  /** `make_table`: the header, then the column loop filling the dict; as written, the
      data rows are split on `;`. */
  method MakeTable(lines: seq<string>, sep: char, origin: Origin) returns (r: Result<Table, CsvError>)
    ensures r == TableAsWritten(lines, sep, origin)
  {
    if |lines| < 4 {
      return Err(IndexError);
    }
    var l := LayoutOf(lines, sep, ';');
    var columns: map<string, ColumnData> := map[];
    ghost var slots := Slots(l);
    for j := 0 to l.count
      invariant BuildColumns(slots[..j], l.name) == Ok(columns)
    {
      var data := ParseColumn(l.units[j], ColumnCells(l.rows, j));
      assert slots[j] == Slot(l.names[j], l.units[j], data);
      BuildStep(slots, j, l.name, columns);
      if data.None? {
        ColumnsErrorStays(slots[..j + 1], slots, l.name);
        return Err(ColumnError(l.names[j], l.name, l.units[j]));
      }
      columns := columns[l.names[j] := data.value];
    }
    assert slots[..l.count] == slots;
    return Ok(Table(l.name, l.destinations, l.units, columns, origin));
  }

  // ---------------------------------------------------------------------------------
  // Tokens

  /** `make_token`: only table blocks get a payload, built by `make_table` as written. */
  function TokenOf(b: Block, sep: char, file: string): Result<Token, CsvError>
  {
    if b.kind == TableBlock then
      match TableAsWritten(b.lines, sep, Origin(file, b.line))
      case Err(e) => Err(e)
      case Ok(t) => Ok(Token(TableBlock, Some(t)))
    else Ok(Token(b.kind, None))
  }

  method MakeToken(kind: BlockType, lines: seq<string>, sep: char, origin: Origin) returns (r: Result<Token, CsvError>)
    ensures r == TokenOf(Block(kind, lines, origin.line), sep, origin.file)
  {
    if kind == TableBlock {
      var t := MakeTable(lines, sep, origin);
      if t.Err? {
        return Err(t.error);
      }
      return Ok(Token(TableBlock, Some(t.value)));
    }
    return Ok(Token(kind, None));
  }

  /** The tokens of the blocks in order, up to the first block whose table raises. */
  function TokensOf(bs: seq<Block>, sep: char, file: string): (r: Result<seq<Token>, CsvError>)
    ensures r.Ok? ==> |r.value| == |bs|
  {
    if bs == [] then Ok([])
    else
      match TokensOf(bs[..|bs| - 1], sep, file)
      case Err(e) => Err(e)
      case Ok(ts) =>
        match TokenOf(bs[|bs| - 1], sep, file)
        case Err(e) => Err(e)
        case Ok(t) => Ok(ts + [t])
  }

  /** An error in the tokens of some blocks is the error of any longer stream. */
  lemma {:induction false} TokensErrorStays(bs: seq<Block>, more: seq<Block>, sep: char, file: string)
    requires bs <= more && TokensOf(bs, sep, file).Err?
    ensures TokensOf(more, sep, file) == TokensOf(bs, sep, file)
    decreases |more|
  {
    if |more| > |bs| {
      var init := more[..|more| - 1];
      assert bs <= init;
      TokensErrorStays(bs, init, sep, file);
    } else {
      assert more == bs;
    }
  }

  /** Token `k` has the type of block `k`, and a table payload exactly for table
      blocks. */
  lemma {:induction false} TokensMatchBlocks(bs: seq<Block>, sep: char, file: string, k: nat)
    requires TokensOf(bs, sep, file).Ok? && k < |bs|
    ensures TokensOf(bs, sep, file).value[k].kind == bs[k].kind
    ensures TokensOf(bs, sep, file).value[k].payload.Some? <==> bs[k].kind == TableBlock
    ensures bs[k].kind == TableBlock ==>
      Ok(TokensOf(bs, sep, file).value[k].payload.value) == TableAsWritten(bs[k].lines, sep, Origin(file, bs[k].line))
    decreases |bs|
  {
    if k < |bs| - 1 {
      var init := bs[..|bs| - 1];
      TokensMatchBlocks(init, sep, file, k);
    }
  }

  /** `read_file_csv`: the loop over the lines, emitting the current block's token at
      each line that starts a new block, and the last block's if it has lines.  The
      generator hands each token to its consumer as it goes, so a table that does not
      parse ends the stream with its error after the tokens of all earlier blocks. */
  method ReadFileCsv(file: seq<string>, name: string, sep: char) returns (tokens: seq<Token>, err: Option<CsvError>)
    ensures err.None? ==> TokensOf(Blocks(file, sep), sep, name) == Ok(tokens)
    ensures err.Some? ==> TokensOf(Blocks(file, sep), sep, name) == Err(err.value)
    ensures err.Some? ==>
      |tokens| < |Blocks(file, sep)| &&
      TokensOf(Blocks(file, sep)[..|tokens|], sep, name) == Ok(tokens) &&
      TokenOf(Blocks(file, sep)[|tokens|], sep, name) == Err(err.value)
  {
    var lines: seq<string> := [];
    var block := Metadata;
    var blockLine: nat := 0;
    tokens := [];
    ghost var done: seq<Block> := [];
    for n := 0 to |file|
      invariant Run(file[..n], sep) == Reader(done, lines, block, blockLine)
      invariant TokensOf(done, sep, name) == Ok(tokens)
    {
      var line := file[n];
      assert file[..n + 1] == file[..n] + [line];
      assert file[..n + 1][..n] == file[..n];
      var next := NextBlock(line, block, sep);
      if next.Some? {
        var t := MakeToken(block, lines, sep, Origin(name, blockLine));
        if t.Err? {
          ghost var cur := Block(block, lines, blockLine);
          DoneIsPrefix(file, n + 1, sep);
          assert TokensOf(done + [cur], sep, name) == Err(t.error);
          TokensErrorStays(done + [cur], Blocks(file, sep), sep, name);
          FailingBlock(done, cur, Blocks(file, sep));
          return tokens, Some(t.error);
        }
        assert (done + [Block(block, lines, blockLine)])[..|done|] == done;
        tokens := tokens + [t.value];
        done := done + [Block(block, lines, blockLine)];
        lines := [];
        block := next.value;
        blockLine := n + 1;
      }
      lines := lines + [line];
    }
    assert file[..|file|] == file;
    if lines != [] {
      var t := MakeToken(block, lines, sep, Origin(name, blockLine));
      if t.Err? {
        FailingBlock(done, Block(block, lines, blockLine), Blocks(file, sep));
        return tokens, Some(t.error);
      }
      assert (done + [Block(block, lines, blockLine)])[..|done|] == done;
      tokens := tokens + [t.value];
    }
    return tokens, None;
  }

  /** The block after an emitted prefix `done` of the blocks `bs` is block `|done|`. */
  lemma FailingBlock(done: seq<Block>, cur: Block, bs: seq<Block>)
    requires done + [cur] <= bs
    ensures |done| < |bs| && bs[..|done|] == done && bs[|done|] == cur
  {
    assert (done + [cur])[..|done|] == done;
  }

  /** `read_bundle_from_csv`: the bundle of the tokens read.  The tokens emitted before
      an error never reach a bundle: the error propagates out of the constructor. */
  method ReadBundleFromCsv(file: seq<string>, name: string, sep: char) returns (r: Result<Bundle, CsvError>)
    ensures TokensOf(Blocks(file, sep), sep, name).Ok? ==>
      r == Ok(BundleOf(TokensOf(Blocks(file, sep), sep, name).value))
    ensures TokensOf(Blocks(file, sep), sep, name).Err? ==>
      r == Err(TokensOf(Blocks(file, sep), sep, name).error)
  {
    var ts, err := ReadFileCsv(file, name, sep);
    if err.Some? {
      return Err(err.value);
    }
    return Ok(BundleOf(ts));
  }
}
