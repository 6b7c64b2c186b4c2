/** The parser of Hive's DESCRIBE rows. */
module DescribeParser {
  import opened Wrappers

  datatype Cell = Null | Text(text: string) | Foreign

  /** A row as the driver delivers it: a sequence of cells, or something else. */
  datatype Row = Cells(cells: seq<Cell>) | NoSequence

  datatype Column = Column(name: string, typ: string, comment: Option<string>, ordinal: nat)

  const PARTITION_MARKER := "# Partition Information"
  const COLUMN_HEADER := "# col_name"

  // ---------------------------------------------------------------------------------------------
  // Cells

  /** `str.isspace` of one character. */
  predicate IsSpace(c: char) {
    var k := c as int;
    0x09 <= k <= 0x0D || 0x1C <= k <= 0x20 || k == 0x85 || k == 0xA0 || k == 0x1680 ||
    0x2000 <= k <= 0x200A || k == 0x2028 || k == 0x2029 || k == 0x202F || k == 0x205F || k == 0x3000
  }

  function StripLeft(s: string): string {
    if s != [] && IsSpace(s[0]) then StripLeft(s[1..]) else s
  }

  function StripRight(s: string): string {
    if s != [] && IsSpace(s[|s| - 1]) then StripRight(s[..|s| - 1]) else s
  }

  function Strip(s: string): string {
    StripRight(StripLeft(s))
  }

  predicate BlankText(s: string) {
    Strip(s) == []
  }

  predicate Blank(c: Cell) {
    c.Null? || (c.Text? && BlankText(c.text))
  }

  predicate BlankRow(cells: seq<Cell>) {
    forall i :: 0 <= i < |cells| ==> Blank(cells[i])
  }

  /** `_is_column_header`, given that the name cell already reads `# col_name`. */
  predicate HeaderTail(cells: seq<Cell>)
    requires |cells| == 3
  {
    && cells[1].Text? && Strip(cells[1].text) == "data_type"
    && (Blank(cells[2]) || (cells[2].Text? && Strip(cells[2].text) == "comment"))
  }

  // ---------------------------------------------------------------------------------------------
  // The parser

  datatype State = State(columns: seq<Column>, partitions: seq<Column>, inPartitions: bool)

  function CommentOf(c: Cell): Option<string> {
    if c.Text? && !BlankText(c.text) then Some(c.text) else None
  }

  /** One iteration of the row loop; `None` is the HiveResponseShapeError. */
  function StepRow(st: State, row: Row): Option<State> {
    if !(row.Cells? && |row.cells| == 3) then None
    else if BlankRow(row.cells) then Some(st)
    else if !row.cells[0].Text? || BlankText(row.cells[0].text) then None
    else
      var name := Strip(row.cells[0].text);
      if name == PARTITION_MARKER then
        if st.inPartitions || st.columns == [] || !BlankRow(row.cells[1..]) then None
        else Some(st.(inPartitions := true))
      else if name == COLUMN_HEADER then
        if HeaderTail(row.cells) then Some(st) else None
      else if name[..1] == "#" then None
      else if !row.cells[1].Text? || BlankText(row.cells[1].text) then None
      else if row.cells[2].Foreign? then None
      else if st.inPartitions then
        Some(st.(partitions := st.partitions +
          [Column(row.cells[0].text, row.cells[1].text, CommentOf(row.cells[2]), |st.partitions| + 1)]))
      else
        Some(st.(columns := st.columns +
          [Column(row.cells[0].text, row.cells[1].text, CommentOf(row.cells[2]), |st.columns| + 1)]))
  }

  function Scan(rows: seq<Row>): Option<State> {
    if rows == [] then Some(State([], [], false))
    else match Scan(rows[..|rows| - 1])
      case None => None
      case Some(st) => StepRow(st, rows[|rows| - 1])
  }

  function Parse(rows: seq<Row>): Option<(seq<Column>, seq<Column>)> {
    match Scan(rows)
    case None => None
    case Some(st) =>
      if st.columns == [] || (st.inPartitions && st.partitions == []) then None
      else Some((st.columns, st.partitions))
  }

  lemma {:induction false} ScanFails(rows: seq<Row>, n: nat)
    requires n <= |rows| && Scan(rows[..n]).None?
    ensures Scan(rows).None?
  {
    if n < |rows| {
      assert rows[..|rows| - 1][..n] == rows[..n];
      ScanFails(rows[..|rows| - 1], n);
    } else {
      assert rows[..n] == rows;
    }
  }

  /** `parse_describe_rows` */
  method ParseDescribeRows(rows: seq<Row>) returns (r: Option<(seq<Column>, seq<Column>)>)
    ensures r == Parse(rows)
  {
    var columns, partitions, inPartitions, i := [], [], false, 0;
    while i < |rows|
      invariant i <= |rows|
      invariant Scan(rows[..i]) == Some(State(columns, partitions, inPartitions))
    {
      var row := rows[i];
      i := i + 1;
      assert rows[..i][..i - 1] == rows[..i - 1];
      ScanFailsIfStepDoes(rows, i);
      if !(row.Cells? && |row.cells| == 3) {
        return None;
      }
      var cells := row.cells;
      if BlankRow(cells) {
        continue;
      }
      if !cells[0].Text? || BlankText(cells[0].text) {
        return None;
      }
      var name := Strip(cells[0].text);
      if name == PARTITION_MARKER {
        if inPartitions || columns == [] || !BlankRow(cells[1..]) {
          return None;
        }
        inPartitions := true;
        continue;
      }
      if name == COLUMN_HEADER {
        if !HeaderTail(cells) {
          return None;
        }
        continue;
      }
      if name[..1] == "#" || !cells[1].Text? || BlankText(cells[1].text) || cells[2].Foreign? {
        return None;
      }
      if inPartitions {
        partitions := partitions +
          [Column(cells[0].text, cells[1].text, CommentOf(cells[2]), |partitions| + 1)];
      } else {
        columns := columns + [Column(cells[0].text, cells[1].text, CommentOf(cells[2]), |columns| + 1)];
      }
    }
    assert rows[..i] == rows;
    if columns == [] || (inPartitions && partitions == []) {
      return None;
    }
    return Some((columns, partitions));
  }

  lemma ScanFailsIfStepDoes(rows: seq<Row>, i: nat)
    requires i <= |rows|
    ensures Scan(rows[..i]).None? ==> Scan(rows).None?
  {
    if Scan(rows[..i]).None? {
      ScanFails(rows, i);
    }
  }

  // ---------------------------------------------------------------------------------------------
  // What a row says, whatever the rows around it

  datatype Reading = Noise | Marker | Field(name: string, typ: string, comment: Option<string>) | Malformed

  function Read(row: Row): Reading {
    if !(row.Cells? && |row.cells| == 3) then Malformed
    else if BlankRow(row.cells) then Noise
    else if !row.cells[0].Text? || BlankText(row.cells[0].text) then Malformed
    else
      var name := Strip(row.cells[0].text);
      if name == PARTITION_MARKER then (if BlankRow(row.cells[1..]) then Marker else Malformed)
      else if name == COLUMN_HEADER then (if HeaderTail(row.cells) then Noise else Malformed)
      else if name[..1] == "#" || !row.cells[1].Text? || BlankText(row.cells[1].text) || row.cells[2].Foreign? then
        Malformed
      else Field(row.cells[0].text, row.cells[1].text, CommentOf(row.cells[2]))
  }

  predicate Readable(rows: seq<Row>) {
    forall i :: 0 <= i < |rows| ==> !Read(rows[i]).Malformed?
  }

  /** The readings of the rows that are not noise, in order. */
  function Readings(rows: seq<Row>): seq<Reading> {
    if rows == [] then []
    else
      var last := Read(rows[|rows| - 1]);
      Readings(rows[..|rows| - 1]) + (if last.Noise? then [] else [last])
  }

  function Fields(columns: seq<Column>): (r: seq<Reading>)
    ensures |r| == |columns|
    ensures forall i :: 0 <= i < |r| ==> r[i] == Field(columns[i].name, columns[i].typ, columns[i].comment)
  {
    seq(|columns|, i requires 0 <= i < |columns| => Field(columns[i].name, columns[i].typ, columns[i].comment))
  }

  predicate Numbered(columns: seq<Column>) {
    forall i :: 0 <= i < |columns| ==> columns[i].ordinal == i + 1
  }

  predicate StateOk(st: State) {
    && Numbered(st.columns) && Numbered(st.partitions)
    && (st.inPartitions ==> st.columns != [])
    && (!st.inPartitions ==> st.partitions == [])
  }

  /** The readings that lead to a state. */
  function Trace(st: State): seq<Reading> {
    Fields(st.columns) + if st.inPartitions then [Marker] + Fields(st.partitions) else []
  }

  lemma FieldsAppend(columns: seq<Column>, c: Column)
    ensures Fields(columns + [c]) == Fields(columns) + [Field(c.name, c.typ, c.comment)]
  {
  }

  lemma StepTraces(st: State, row: Row)
    requires StateOk(st) && StepRow(st, row).Some?
    ensures !Read(row).Malformed? && StateOk(StepRow(st, row).value)
    ensures Trace(StepRow(st, row).value) == Trace(st) + (if Read(row).Noise? then [] else [Read(row)])
  {
    if Read(row).Field? {
      var f := Read(row);
      if st.inPartitions {
        FieldsAppend(st.partitions, Column(f.name, f.typ, f.comment, |st.partitions| + 1));
      } else {
        FieldsAppend(st.columns, Column(f.name, f.typ, f.comment, |st.columns| + 1));
      }
    }
  }

  lemma {:induction false} ScanTraces(rows: seq<Row>)
    requires Scan(rows).Some?
    ensures Readable(rows) && StateOk(Scan(rows).value) && Readings(rows) == Trace(Scan(rows).value)
  {
    if rows != [] {
      ScanTraces(rows[..|rows| - 1]);
      StepTraces(Scan(rows[..|rows| - 1]).value, rows[|rows| - 1]);
      assert rows == rows[..|rows| - 1] + [rows[|rows| - 1]];
    }
  }

  /** The state before the last reading of its trace. */
  lemma TraceShrinks(st: State, before: seq<Reading>, last: Reading) returns (st': State)
    requires StateOk(st) && Trace(st) == before + [last] && !last.Noise? && !last.Malformed?
    ensures StateOk(st') && Trace(st') == before
    ensures last.Marker? ==> !st'.inPartitions && st'.columns != [] && st == st'.(inPartitions := true)
    ensures last.Field? && st'.inPartitions ==> st == st'.(partitions := st'.partitions +
      [Column(last.name, last.typ, last.comment, |st'.partitions| + 1)])
    ensures last.Field? && !st'.inPartitions ==> st == st'.(columns := st'.columns +
      [Column(last.name, last.typ, last.comment, |st'.columns| + 1)])
  {
    assert Trace(st)[|Trace(st)| - 1] == last;
    assert before == Trace(st)[..|Trace(st)| - 1];
    if st.inPartitions && st.partitions == [] {
      st' := st.(inPartitions := false);
      assert Trace(st) == Fields(st.columns) + [Marker];
    } else if st.inPartitions {
      var n := |st.partitions| - 1;
      st' := st.(partitions := st.partitions[..n]);
      assert st.partitions == st.partitions[..n] + [st.partitions[n]];
      FieldsAppend(st.partitions[..n], st.partitions[n]);
    } else {
      var n := |st.columns| - 1;
      st' := st.(columns := st.columns[..n]);
      assert st.columns == st.columns[..n] + [st.columns[n]];
      FieldsAppend(st.columns[..n], st.columns[n]);
    }
  }

  lemma {:induction false} TracesScan(rows: seq<Row>, st: State)
    requires Readable(rows) && StateOk(st) && Readings(rows) == Trace(st)
    ensures Scan(rows) == Some(st)
  {
    if rows == [] {
      assert Trace(st) == [];
      assert Fields(st.columns) == [];
      assert st == State([], [], false);
    } else {
      var before, row := rows[..|rows| - 1], rows[|rows| - 1];
      assert !Read(row).Malformed?;
      if Read(row).Noise? {
        TracesScan(before, st);
      } else {
        var st' := TraceShrinks(st, Readings(before), Read(row));
        TracesScan(before, st');
      }
    }
  }

  /** The readings of a table's description. */
  function Description(columns: seq<Column>, partitions: seq<Column>): seq<Reading> {
    Fields(columns) + if partitions == [] then [] else [Marker] + Fields(partitions)
  }

  /** The parser's exact acceptance: the rows that are neither blank nor well-formed headers
      describe the columns, then, behind one marker, the partition columns, numbered from one in
      each section. */
  lemma ParseAcceptsDescriptions(rows: seq<Row>, columns: seq<Column>, partitions: seq<Column>)
    ensures Parse(rows) == Some((columns, partitions)) <==>
            && Readable(rows) && columns != [] && Numbered(columns) && Numbered(partitions)
            && Readings(rows) == Description(columns, partitions)
  {
    if Parse(rows) == Some((columns, partitions)) {
      ScanTraces(rows);
    }
    if Readable(rows) && columns != [] && Numbered(columns) && Numbered(partitions)
       && Readings(rows) == Description(columns, partitions) {
      TracesScan(rows, State(columns, partitions, partitions != []));
    }
  }

  // ---------------------------------------------------------------------------------------------
  // The inverse printer

  predicate Printable(c: Column) {
    && !BlankText(c.name) && Strip(c.name)[..1] != "#" && !BlankText(c.typ)
    && (c.comment.Some? ==> !BlankText(c.comment.value))
  }

  function PrintColumn(c: Column): Row {
    Cells([Text(c.name), Text(c.typ), if c.comment.Some? then Text(c.comment.value) else Null])
  }

  function PrintColumns(columns: seq<Column>): (r: seq<Row>)
    ensures |r| == |columns|
    ensures forall i :: 0 <= i < |r| ==> r[i] == PrintColumn(columns[i])
  {
    seq(|columns|, i requires 0 <= i < |columns| => PrintColumn(columns[i]))
  }

  function Print(columns: seq<Column>, partitions: seq<Column>): seq<Row> {
    PrintColumns(columns) +
    if partitions == [] then [] else [Cells([Text(PARTITION_MARKER), Null, Null])] + PrintColumns(partitions)
  }

  /** The rows that are left when blank rows and well-formed headers are dropped. */
  function WithoutNoise(rows: seq<Row>): seq<Row> {
    if rows == [] then []
    else WithoutNoise(rows[..|rows| - 1]) + (if Read(rows[|rows| - 1]).Noise? then [] else [rows[|rows| - 1]])
  }

  lemma PrintedColumnReads(c: Column)
    requires Printable(c)
    ensures Read(PrintColumn(c)) == Field(c.name, c.typ, c.comment)
  {
    assert Strip(c.name)[..1] != PARTITION_MARKER[..1];
    assert Strip(c.name)[..1] != COLUMN_HEADER[..1];
    assert !Blank(PrintColumn(c).cells[0]);
  }

  lemma MarkerReads()
    ensures Read(Cells([Text(PARTITION_MARKER), Null, Null])) == Marker
  {
    var row := Cells([Text(PARTITION_MARKER), Null, Null]);
    assert Strip(PARTITION_MARKER) == PARTITION_MARKER;
    assert !Blank(row.cells[0]);
  }

  lemma {:induction false} NoiseIsInvisible(rows: seq<Row>)
    ensures Readings(rows) == Readings(WithoutNoise(rows))
    ensures Readable(rows) <==> Readable(WithoutNoise(rows))
  {
    if rows != [] {
      var before, row := rows[..|rows| - 1], rows[|rows| - 1];
      NoiseIsInvisible(before);
      assert rows == before + [row];
      var kept := WithoutNoise(before) + [row];
      assert kept[..|kept| - 1] == WithoutNoise(before) && kept[|kept| - 1] == row;
      assert Read(row).Noise? ==> WithoutNoise(rows) == WithoutNoise(before);
      assert !Read(row).Noise? ==> WithoutNoise(rows) == kept;
    }
  }

  lemma {:induction false} ReadingsOf(rows: seq<Row>, readings: seq<Reading>)
    requires |readings| == |rows|
    requires forall i :: 0 <= i < |rows| ==> Read(rows[i]) == readings[i] && !readings[i].Noise?
    ensures Readings(rows) == readings
  {
    if rows != [] {
      ReadingsOf(rows[..|rows| - 1], readings[..|rows| - 1]);
    }
  }

  lemma {:induction false} NoiselessRows(rows: seq<Row>)
    requires forall i :: 0 <= i < |rows| ==> !Read(rows[i]).Noise?
    ensures WithoutNoise(rows) == rows
  {
    if rows != [] {
      NoiselessRows(rows[..|rows| - 1]);
    }
  }

  /** A printed row reads as its part of the description. */
  lemma PrintedRowReads(columns: seq<Column>, partitions: seq<Column>, i: nat)
    requires forall c :: c in columns || c in partitions ==> Printable(c)
    requires i < |Print(columns, partitions)|
    ensures |Description(columns, partitions)| == |Print(columns, partitions)|
    ensures Read(Print(columns, partitions)[i]) == Description(columns, partitions)[i]
    ensures !Description(columns, partitions)[i].Noise? && !Description(columns, partitions)[i].Malformed?
  {
    if i < |columns| {
      PrintedColumnReads(columns[i]);
    } else if i == |columns| {
      MarkerReads();
    } else {
      PrintedColumnReads(partitions[i - |columns| - 1]);
    }
  }

  lemma PrintedTableReads(columns: seq<Column>, partitions: seq<Column>)
    requires forall c :: c in columns || c in partitions ==> Printable(c)
    ensures Readable(Print(columns, partitions))
    ensures Readings(Print(columns, partitions)) == Description(columns, partitions)
    ensures WithoutNoise(Print(columns, partitions)) == Print(columns, partitions)
  {
    var printed, description := Print(columns, partitions), Description(columns, partitions);
    forall i | 0 <= i < |printed|
      ensures Read(printed[i]) == description[i] && !description[i].Noise? && !description[i].Malformed?
    {
      PrintedRowReads(columns, partitions, i);
    }
    ReadingsOf(printed, description);
    NoiselessRows(printed);
  }

  /** Round trip: a printed table, with blank rows and well-formed headers inserted anywhere,
      parses back to its columns and partition columns. */
  lemma PrintedTablesParse(rows: seq<Row>, columns: seq<Column>, partitions: seq<Column>)
    requires columns != [] && Numbered(columns) && Numbered(partitions)
    requires forall c :: c in columns || c in partitions ==> Printable(c)
    requires WithoutNoise(rows) == Print(columns, partitions)
    ensures Parse(rows) == Some((columns, partitions))
  {
    PrintedTableReads(columns, partitions);
    NoiseIsInvisible(rows);
    ParseAcceptsDescriptions(rows, columns, partitions);
  }

  lemma {:induction false} FieldsArePrintable(rows: seq<Row>, i: nat)
    requires Readable(rows) && i < |Readings(rows)| && Readings(rows)[i].Field?
    ensures var f := Readings(rows)[i]; Printable(Column(f.name, f.typ, f.comment, 1))
  {
    if i < |Readings(rows[..|rows| - 1])| {
      FieldsArePrintable(rows[..|rows| - 1], i);
    }
  }

  /** Whatever parses is printable, and printing it parses to the same columns. */
  lemma ParsedTablesPrint(rows: seq<Row>)
    requires Parse(rows).Some?
    ensures var (columns, partitions) := Parse(rows).value;
            Parse(Print(columns, partitions)) == Parse(rows)
  {
    var (columns, partitions) := Parse(rows).value;
    ParseAcceptsDescriptions(rows, columns, partitions);
    forall c | c in columns || c in partitions ensures Printable(c) {
      if c in columns {
        var i :| 0 <= i < |columns| && columns[i] == c;
        assert Readings(rows)[i] == Field(c.name, c.typ, c.comment);
        FieldsArePrintable(rows, i);
      } else {
        var i :| 0 <= i < |partitions| && partitions[i] == c;
        assert Readings(rows)[|columns| + 1 + i] == Field(c.name, c.typ, c.comment);
        FieldsArePrintable(rows, |columns| + 1 + i);
      }
    }
    PrintedTableReads(columns, partitions);
    PrintedTablesParse(Print(columns, partitions), columns, partitions);
  }

  // ---------------------------------------------------------------------------------------------
  // What a single row means

  /** The code points that Python strips. */
  const WHITE_SPACE: set<int> := {0x09, 0x0A, 0x0B, 0x0C, 0x0D, 0x1C, 0x1D, 0x1E, 0x1F, 0x20, 0x85, 0xA0, 0x1680,
    0x2000, 0x2001, 0x2002, 0x2003, 0x2004, 0x2005, 0x2006, 0x2007, 0x2008, 0x2009, 0x200A,
    0x2028, 0x2029, 0x202F, 0x205F, 0x3000}

  predicate White(s: string) {
    forall c :: c in s ==> c as int in WHITE_SPACE
  }

  /** The text is `core` between white space. */
  ghost predicate Trims(text: string, core: string) {
    && (core != "" ==> core[0] as int !in WHITE_SPACE && core[|core| - 1] as int !in WHITE_SPACE)
    && exists before, after :: text == before + core + after && White(before) && White(after)
  }

  lemma SpacesMean(c: char)
    ensures IsSpace(c) <==> c as int in WHITE_SPACE
  {
  }

  lemma {:induction false} StripLeftTrims(s: string) returns (before: string)
    ensures s == before + StripLeft(s) && White(before)
    ensures StripLeft(s) != "" ==> StripLeft(s)[0] as int !in WHITE_SPACE
  {
    before := "";
    if s != "" {
      SpacesMean(s[0]);
      if IsSpace(s[0]) {
        var rest := StripLeftTrims(s[1..]);
        before := [s[0]] + rest;
        assert s == [s[0]] + s[1..];
      }
    }
  }

  lemma {:induction false} StripRightTrims(s: string) returns (after: string)
    ensures s == StripRight(s) + after && White(after)
    ensures StripRight(s) != "" ==> StripRight(s)[|StripRight(s)| - 1] as int !in WHITE_SPACE
    ensures StripRight(s) != "" ==> StripRight(s)[0] == s[0]
  {
    after := "";
    if s != "" {
      var n := |s| - 1;
      SpacesMean(s[n]);
      if IsSpace(s[n]) {
        var rest := StripRightTrims(s[..n]);
        after := rest + [s[n]];
        assert s == s[..n] + [s[n]];
      }
    }
  }

  lemma StripTrims(s: string)
    ensures Trims(s, Strip(s))
  {
    var before := StripLeftTrims(s);
    var after := StripRightTrims(StripLeft(s));
    assert s == before + Strip(s) + after;
  }

  lemma {:induction false} StripLeftOf(before: string, rest: string)
    requires White(before) && (rest != "" ==> rest[0] as int !in WHITE_SPACE)
    ensures StripLeft(before + rest) == rest
  {
    if before == "" {
      assert before + rest == rest;
      if rest != "" {
        SpacesMean(rest[0]);
      }
    } else {
      assert before[0] in before && forall c :: c in before[1..] ==> c in before;
      SpacesMean(before[0]);
      assert (before + rest)[1..] == before[1..] + rest;
      StripLeftOf(before[1..], rest);
    }
  }

  lemma {:induction false} StripRightOf(core: string, after: string)
    requires White(after) && (core != "" ==> core[|core| - 1] as int !in WHITE_SPACE)
    ensures StripRight(core + after) == core
  {
    if after == "" {
      assert core + after == core;
      if core != "" {
        SpacesMean(core[|core| - 1]);
      }
    } else {
      var n := |after| - 1;
      assert after[n] in after && forall c :: c in after[..n] ==> c in after;
      SpacesMean(after[n]);
      assert (core + after)[..|core + after| - 1] == core + after[..n];
      StripRightOf(core, after[..n]);
    }
  }

  lemma CoreStrips(before: string, core: string, after: string)
    requires White(before) && White(after)
    requires core != "" ==> core[0] as int !in WHITE_SPACE && core[|core| - 1] as int !in WHITE_SPACE
    ensures Strip(before + core + after) == core
  {
    if core == "" {
      assert before + core + after == (before + after) + "";
      StripLeftOf(before + after, "");
    } else {
      assert before + core + after == before + (core + after);
      StripLeftOf(before, core + after);
      StripRightOf(core, after);
    }
  }

  /** Stripping yields the only core of a text. */
  lemma StripMeans(s: string, core: string)
    ensures Strip(s) == core <==> Trims(s, core)
  {
    StripTrims(s);
    if Trims(s, core) {
      var before, after :| s == before + core + after && White(before) && White(after);
      CoreStrips(before, core, after);
    }
  }

  lemma WhiteTrims(s: string)
    ensures Trims(s, "") <==> White(s)
  {
    if White(s) {
      assert s == s + "" + "" && White("");
    }
  }

  /** The cell is null or white space. */
  predicate Empty(c: Cell) {
    c.Null? || (c.Text? && White(c.text))
  }

  predicate HasText(c: Cell) {
    c.Text? && !White(c.text)
  }

  lemma BlankMeans(c: Cell)
    ensures Blank(c) <==> Empty(c)
  {
    if c.Text? {
      StripMeans(c.text, "");
      WhiteTrims(c.text);
    }
  }

  lemma BlankCells(a: Cell, b: Cell, c: Cell)
    ensures BlankRow([a, b, c]) <==> Empty(a) && Empty(b) && Empty(c)
    ensures BlankRow([a, b, c][1..]) <==> Empty(b) && Empty(c)
  {
    BlankMeans(a);
    BlankMeans(b);
    BlankMeans(c);
    assert [a, b, c][0] == a && [a, b, c][1] == b && [a, b, c][2] == c;
    assert [a, b, c][1..] == [b, c] && [b, c][0] == b && [b, c][1] == c;
  }

  /** The row is a header: "# col_name", "data_type", and "comment" or nothing, each between white
      space. */
  ghost predicate HeaderRow(a: Cell, b: Cell, c: Cell) {
    && a.Text? && Trims(a.text, "# col_name") && b.Text? && Trims(b.text, "data_type")
    && (Empty(c) || (c.Text? && Trims(c.text, "comment")))
  }

  ghost predicate MarkerRow(a: Cell, b: Cell, c: Cell) {
    a.Text? && Trims(a.text, "# Partition Information") && Empty(b) && Empty(c)
  }

  /** The row names a column that is no comment line, gives its type, and may comment on it. */
  ghost predicate ColumnRow(a: Cell, b: Cell, c: Cell, name: string, typ: string, comment: Option<string>) {
    && a == Text(name) && b == Text(typ) && !White(typ) && !c.Foreign?
    && (exists core :: Trims(name, core) && core != "" && core[0] != '#')
    && comment == if HasText(c) then Some(c.text) else None
  }

  lemma CoresMean(name: string)
    ensures (exists core :: Trims(name, core) && core != "" && core[0] != '#') <==>
            !BlankText(name) && Strip(name)[..1] != "#"
  {
    StripMeans(name, Strip(name));
    if core :| Trims(name, core) && core != "" && core[0] != '#' {
      StripMeans(name, core);
    }
    if !BlankText(name) && Strip(name)[..1] != "#" {
      assert Trims(name, Strip(name));
    }
  }

  lemma HeadersMean(a: Cell, b: Cell, c: Cell)
    ensures a.Text? && Strip(a.text) == COLUMN_HEADER && HeaderTail([a, b, c]) <==> HeaderRow(a, b, c)
  {
    BlankMeans(c);
    if a.Text? {
      StripMeans(a.text, "# col_name");
    }
    if b.Text? {
      StripMeans(b.text, "data_type");
    }
    if c.Text? {
      StripMeans(c.text, "comment");
    }
  }

  /** A row is skipped exactly if it is empty or a header. */
  lemma NoiseRows(a: Cell, b: Cell, c: Cell)
    ensures Read(Cells([a, b, c])) == Noise <==> (Empty(a) && Empty(b) && Empty(c)) || HeaderRow(a, b, c)
  {
    BlankCells(a, b, c);
    BlankMeans(a);
    HeadersMean(a, b, c);
  }

  /** A row opens the partition section exactly if it is the marker. */
  lemma MarkerRows(a: Cell, b: Cell, c: Cell)
    ensures Read(Cells([a, b, c])) == Marker <==> MarkerRow(a, b, c)
  {
    BlankCells(a, b, c);
    BlankMeans(a);
    if a.Text? {
      StripMeans(a.text, "# Partition Information");
      StripMeans(a.text, "");
    }
  }

  /** A row gives a column exactly if it names one that is no comment line, gives its type, and has a
      comment cell; in all cases but these three a row is malformed. */
  lemma ColumnRows(a: Cell, b: Cell, c: Cell, name: string, typ: string, comment: Option<string>)
    ensures Read(Cells([a, b, c])) == Field(name, typ, comment) <==> ColumnRow(a, b, c, name, typ, comment)
  {
    BlankCells(a, b, c);
    BlankMeans(a);
    BlankMeans(b);
    BlankMeans(c);
    MarkedNames(name);
    CoresMean(name);
    if a.Text? {
      MarkedNames(a.text);
    }
  }

  lemma MarkedNames(s: string)
    ensures Strip(s) == COLUMN_HEADER || Strip(s) == PARTITION_MARKER ==> Strip(s)[..1] == "#"
  {
    assert COLUMN_HEADER[..1] == "#" && PARTITION_MARKER[..1] == "#";
  }
}
