/** The CSV writer down to its bytes, and a reader for section 2 of RFC 4180 that reads them back. */
module Csv {
  import opened Options
  import opened Utf16
  import opened Utf8

  const BOM: Unit := 0xFEFF
  const QUOTE: Unit := 34
  const COMMA: Unit := 44
  const APOSTROPHE: Unit := 39
  const CR: Unit := 13
  const LF: Unit := 10
  const CRLF: Text := [CR, LF]

  /** The first units a spreadsheet takes for the start of a formula: `=`, `+`, `-`, `@`, tab and CR. */
  const DANGEROUS: set<Unit> := {61, 43, 45, 64, 9, 13}

  /** Rows of cells. */
  type Table = seq<seq<Text>>

  // ---------------------------------------------------------------- the writer

  function Guard(text: Text): Text {
    if |text| > 0 && text[0] in DANGEROUS then [APOSTROPHE] + text else text
  }

  predicate Special(u: Unit) { u in {QUOTE, COMMA, CR, LF} }

  predicate NeedsQuotes(text: Text) { exists k :: 0 <= k < |text| && Special(text[k]) }

  function DoubleQuotes(text: Text): Text {
    if |text| == 0 then [] else (if text[0] == QUOTE then [QUOTE, QUOTE] else [text[0]]) + DoubleQuotes(text[1..])
  }

  function Enclose(guarded: Text): Text {
    if NeedsQuotes(guarded) then [QUOTE] + DoubleQuotes(guarded) + [QUOTE] else guarded
  }

  function Cell(text: Text): Text { Enclose(Guard(text)) }

  function Join(parts: seq<Text>, separator: Text): Text {
    if |parts| == 0 then []
    else if |parts| == 1 then parts[0]
    else parts[0] + separator + Join(parts[1..], separator)
  }

  function Map(f: Text -> Text, cells: seq<Text>): (r: seq<Text>)
    ensures |r| == |cells| && forall k :: 0 <= k < |r| ==> r[k] == f(cells[k])
  {
    seq(|cells|, k requires 0 <= k < |cells| => f(cells[k]))
  }

  function Each(f: Text -> Text, rows: Table): (r: Table)
    ensures |r| == |rows| && forall k :: 0 <= k < |r| ==> r[k] == Map(f, rows[k])
  {
    seq(|rows|, k requires 0 <= k < |rows| => Map(f, rows[k]))
  }

  function Lines(cells: Table): (r: seq<Text>)
    ensures |r| == |cells| && forall k :: 0 <= k < |r| ==> r[k] == Join(cells[k], [COMMA])
  {
    seq(|cells|, k requires 0 <= k < |cells| => Join(cells[k], [COMMA]))
  }

  function Page(cells: Table): Text { Join(Lines(cells), CRLF) + CRLF }

  /** The columns and the rows below them, each cell already turned into text. */
  function WriteCsv(columns: seq<Text>, rows: Table): seq<Byte> {
    Encode([BOM] + Page(Each(Cell, [columns] + rows)))
  }

  // ---------------------------------------------------------------- the reader

  /** A field, or a record, read from position 0, and what is left. */
  datatype Read<T> = NoRead | Got(value: T, rest: Text)

  /** Inside quotes: two quotes stand for one, a single one closes the field. */
  function ReadQuoted(s: Text): (r: Read<Text>)
    ensures r.Got? ==> |r.rest| < |s|
  {
    if |s| == 0 then NoRead
    else if s[0] == QUOTE then
      if |s| > 1 && s[1] == QUOTE then
        match ReadQuoted(s[2..])
        case NoRead => NoRead
        case Got(value, rest) => Got([QUOTE] + value, rest)
      else Got([], s[1..])
    else
      match ReadQuoted(s[1..])
      case NoRead => NoRead
      case Got(value, rest) => Got([s[0]] + value, rest)
  }

  /** What may follow a field: a comma, a line end, or nothing. */
  predicate Ends(rest: Text) { |rest| == 0 || rest[0] in {COMMA, CR, LF} }

  /** A field without quotes runs up to there. */
  function ReadPlain(s: Text): (r: Read<Text>)
    ensures r.Got? ==> |r.rest| <= |s|
  {
    if Ends(s) then Got([], s)
    else if s[0] == QUOTE then NoRead
    else
      match ReadPlain(s[1..])
      case NoRead => NoRead
      case Got(value, rest) => Got([s[0]] + value, rest)
  }

  function ReadField(s: Text): (r: Read<Text>)
    ensures r.Got? ==> |r.rest| <= |s|
  {
    if |s| > 0 && s[0] == QUOTE then ReadQuoted(s[1..]) else ReadPlain(s)
  }

  /** Fields separated by commas, ended by CRLF. */
  function ReadRecord(s: Text): (r: Read<seq<Text>>)
    ensures r.Got? ==> |r.rest| < |s|
    decreases |s|
  {
    match ReadField(s)
    case NoRead => NoRead
    case Got(field, rest) =>
      if |rest| > 0 && rest[0] == COMMA then
        match ReadRecord(rest[1..])
        case NoRead => NoRead
        case Got(more, after) => Got([field] + more, after)
      else if |rest| > 1 && rest[0] == CR && rest[1] == LF then Got([field], rest[2..])
      else NoRead
  }

  datatype Document = Unreadable | Records(records: Table)

  function ReadPage(s: Text): Document
    decreases |s|
  {
    if |s| == 0 then Records([])
    else
      match ReadRecord(s)
      case NoRead => Unreadable
      case Got(record, rest) =>
        match ReadPage(rest)
        case Unreadable => Unreadable
        case Records(records) => Records([record] + records)
  }

  /** UTF-8, the byte-order mark, then the records. */
  function ReadCsv(bytes: seq<Byte>): Document {
    match Decode(bytes)
    case None => Unreadable
    case Some(text) => if |text| > 0 && text[0] == BOM then ReadPage(text[1..]) else Unreadable
  }

  // ---------------------------------------------------------------- a page reads back

  lemma {:induction false} QuotedReadsBack(text: Text, rest: Text)
    requires |rest| == 0 || rest[0] != QUOTE
    ensures ReadQuoted(DoubleQuotes(text) + [QUOTE] + rest) == Got(text, rest)
  {
    var s := DoubleQuotes(text) + [QUOTE] + rest;
    if |text| == 0 {
      assert s == [QUOTE] + rest;
    } else {
      var tail := DoubleQuotes(text[1..]) + [QUOTE] + rest;
      QuotedReadsBack(text[1..], rest);
      if text[0] == QUOTE {
        assert s == [QUOTE, QUOTE] + tail && s[2..] == tail;
      } else {
        assert s == [text[0]] + tail && s[1..] == tail;
      }
      assert text == [text[0]] + text[1..];
    }
  }

  lemma {:induction false} PlainReadsBack(text: Text, rest: Text)
    requires !NeedsQuotes(text) && Ends(rest)
    ensures ReadPlain(text + rest) == Got(text, rest)
  {
    if |text| == 0 {
      assert text + rest == rest;
    } else {
      assert !Special(text[0]);
      assert !NeedsQuotes(text[1..]) by {
        forall k | 0 <= k < |text[1..]| ensures !Special(text[1..][k]) { assert text[1..][k] == text[k + 1]; }
      }
      PlainReadsBack(text[1..], rest);
      assert (text + rest)[1..] == text[1..] + rest;
      assert text == [text[0]] + text[1..];
    }
  }

  lemma QuoteOpens(inner: Text)
    ensures ReadField([QUOTE] + inner) == ReadQuoted(inner)
  {
    assert ([QUOTE] + inner)[0] == QUOTE && ([QUOTE] + inner)[1..] == inner;
  }

  lemma RestGrouped(a: Text, b: Text, c: Text, d: Text)
    ensures (a + b + c) + d == a + (b + c + d)
  {
  }

  lemma PlainFieldReadsBack(text: Text, rest: Text)
    requires !NeedsQuotes(text) && Ends(rest)
    ensures ReadField(text + rest) == Got(text, rest)
  {
    PlainReadsBack(text, rest);
    if |text| > 0 { assert !Special(text[0]) && (text + rest)[0] == text[0]; }
  }

  /** An enclosed cell, up to the comma or line end behind it. */
  lemma CellReadsBack(guarded: Text, rest: Text)
    requires Ends(rest)
    ensures ReadField(Enclose(guarded) + rest) == Got(guarded, rest)
  {
    if NeedsQuotes(guarded) {
      RestGrouped([QUOTE], DoubleQuotes(guarded), [QUOTE], rest);
      QuoteOpens(DoubleQuotes(guarded) + [QUOTE] + rest);
      QuotedReadsBack(guarded, rest);
    } else {
      PlainFieldReadsBack(guarded, rest);
    }
  }

  lemma LastFieldReadsBack(text: Text, rest: Text)
    ensures ReadRecord(Enclose(text) + (CRLF + rest)) == Got([text], rest)
  {
    CellReadsBack(text, CRLF + rest);
    assert (CRLF + rest)[2..] == rest;
  }

  lemma FieldReadsBack(text: Text, tail: Text)
    requires ReadRecord(tail).Got?
    ensures ReadRecord(Enclose(text) + ([COMMA] + tail)) == Got([text] + ReadRecord(tail).value, ReadRecord(tail).rest)
  {
    CellReadsBack(text, [COMMA] + tail);
    assert ([COMMA] + tail)[1..] == tail;
  }

  lemma JoinSplits(parts: seq<Text>, separator: Text)
    requires |parts| > 1
    ensures Join(parts, separator) == parts[0] + separator + Join(parts[1..], separator)
  {
  }

  lemma Regroup(a: Text, b: Text, c: Text, d: Text, e: Text)
    ensures (a + b + c) + d + e == a + (b + (c + d + e))
  {
  }

  lemma {:induction false} LineReadsBack(row: seq<Text>, rest: Text)
    requires |row| > 0
    ensures ReadRecord(Join(Map(Enclose, row), [COMMA]) + CRLF + rest) == Got(row, rest)
    decreases |row|
  {
    var cells := Map(Enclose, row);
    if |row| == 1 {
      LastFieldReadsBack(row[0], rest);
      assert Join(cells, [COMMA]) + CRLF + rest == Enclose(row[0]) + (CRLF + rest);
      assert row == [row[0]];
    } else {
      var more := Join(Map(Enclose, row[1..]), [COMMA]);
      LineReadsBack(row[1..], rest);
      FieldReadsBack(row[0], more + CRLF + rest);
      assert cells[1..] == Map(Enclose, row[1..]);
      JoinSplits(cells, [COMMA]);
      Regroup(Enclose(row[0]), [COMMA], more, CRLF, rest);
      assert row == [row[0]] + row[1..];
    }
  }

  lemma PageReadsOn(s: Text, record: seq<Text>, rest: Text, records: Table)
    requires ReadRecord(s) == Got(record, rest) && ReadPage(rest) == Records(records)
    ensures ReadPage(s) == Records([record] + records)
  {
  }

  /** The first line, and the page of the others. */
  lemma PageSplits(rows: Table)
    requires |rows| > 0
    ensures var tail := if |rows| == 1 then [] else Page(Each(Enclose, rows[1..]));
            Page(Each(Enclose, rows)) == Join(Map(Enclose, rows[0]), [COMMA]) + CRLF + tail
  {
    var cells := Each(Enclose, rows);
    assert Lines(cells)[0] == Join(cells[0], [COMMA]);
    if |rows| > 1 { assert Lines(cells)[1..] == Lines(Each(Enclose, rows[1..])); }
  }

  predicate NoEmptyRow(rows: Table) { forall k :: 0 <= k < |rows| ==> |rows[k]| > 0 }

  lemma {:induction false} PageReadsBack(rows: Table)
    requires |rows| > 0 && NoEmptyRow(rows)
    ensures ReadPage(Page(Each(Enclose, rows))) == Records(rows)
    decreases |rows|
  {
    var tail := if |rows| == 1 then [] else Page(Each(Enclose, rows[1..]));
    PageSplits(rows);
    LineReadsBack(rows[0], tail);
    if |rows| > 1 { PageReadsBack(rows[1..]); }
    PageReadsOn(Page(Each(Enclose, rows)), rows[0], tail, rows[1..]);
    assert rows == [rows[0]] + rows[1..];
  }

  // ---------------------------------------------------------------- lone surrogates

  lemma PlainIsWellFormed(t: Text)
    requires forall k :: 0 <= k < |t| ==> t[k] < 0xD800
    ensures WellFormed(t) == t
  {
  }

  lemma MendedUnit(u: Unit)
    ensures WellFormed([u]) == [if IsHigh(u) || IsLow(u) then REPLACEMENT else u]
  {
  }

  function Doubled(u: Unit): Text { if u == QUOTE then [QUOTE, QUOTE] else [u] }

  lemma DoubledOne(u: Unit, rest: Text)
    ensures DoubleQuotes([u] + rest) == Doubled(u) + DoubleQuotes(rest)
    ensures |rest| > 0 ==> DoubleQuotes(rest)[0] == rest[0]
  {
    assert ([u] + rest)[1..] == rest;
  }

  lemma DoubledPair(high: Unit, low: Unit, rest: Text)
    requires IsHigh(high) && IsLow(low)
    ensures DoubleQuotes([high, low] + rest) == [high, low] + DoubleQuotes(rest)
  {
    assert [high, low] + rest == [high] + ([low] + rest);
    DoubledOne(high, [low] + rest);
    DoubledOne(low, rest);
  }

  lemma MendedDoubled(u: Unit)
    ensures WellFormed(Doubled(u)) == Doubled(WellFormed([u])[0])
  {
    MendedUnit(u);
    if u == QUOTE { PlainIsWellFormed([QUOTE, QUOTE]); }
  }

  lemma MendedDoubledFirst(u: Unit, rest: Text)
    requires MeetCleanly([u], rest)
    ensures WellFormed(Doubled(u) + DoubleQuotes(rest)) == WellFormed(Doubled(u)) + WellFormed(DoubleQuotes(rest))
  {
    DoubledOne(u, rest);
    WellFormedJoins(Doubled(u), DoubleQuotes(rest));
  }

  lemma MendedDoubledPair(high: Unit, low: Unit, rest: Text)
    requires IsHigh(high) && IsLow(low)
    ensures WellFormed([high, low] + DoubleQuotes(rest)) == [high, low] + WellFormed(DoubleQuotes(rest))
  {
    WellFormedJoins([high, low], DoubleQuotes(rest));
    assert WellFormed([high, low]) == [high, low];
  }

  lemma {:induction false} MendedDoubles(text: Text)
    ensures WellFormed(DoubleQuotes(text)) == DoubleQuotes(WellFormed(text))
    decreases |text|
  {
    if |text| > 0 {
      var rest := text[FirstLength(text)..];
      WellFormedSplits(text);
      MendedDoubles(rest);
      if StartsWithPair(text) {
        assert text == [text[0], text[1]] + rest;
        DoubledPair(text[0], text[1], rest);
        DoubledPair(text[0], text[1], WellFormed(rest));
        MendedDoubledPair(text[0], text[1], rest);
      } else {
        assert text == [text[0]] + rest;
        DoubledOne(text[0], rest);
        MendedDoubled(text[0]);
        MendedDoubledFirst(text[0], rest);
        MendedUnit(text[0]);
        DoubledOne(WellFormed([text[0]])[0], WellFormed(rest));
      }
    }
  }

  lemma MendedNeedsQuotes(text: Text)
    ensures NeedsQuotes(WellFormed(text)) <==> NeedsQuotes(text)
  {
    forall k | 0 <= k < |text| ensures Special(WellFormed(text)[k]) <==> Special(text[k]) {}
  }

  /** A cell with its lone surrogates replaced is the cell of the text with them replaced. */
  lemma MendedEnclose(text: Text)
    ensures WellFormed(Enclose(text)) == Enclose(WellFormed(text))
  {
    MendedNeedsQuotes(text);
    if NeedsQuotes(text) {
      var body := DoubleQuotes(text);
      MendedDoubles(text);
      MendedUnit(QUOTE);
      WellFormedJoins([QUOTE], body);
      WellFormedJoins([QUOTE] + body, [QUOTE]);
    }
  }

  predicate Plain(separator: Text) { |separator| > 0 && forall k :: 0 <= k < |separator| ==> separator[k] < 0xD800 }

  lemma {:induction false} MendedJoin(parts: seq<Text>, separator: Text)
    requires Plain(separator)
    ensures WellFormed(Join(parts, separator)) == Join(Map(WellFormed, parts), separator)
    decreases |parts|
  {
    if |parts| == 1 {
    } else if |parts| > 1 {
      var rest := Join(parts[1..], separator);
      MendedJoin(parts[1..], separator);
      PlainIsWellFormed(separator);
      WellFormedJoins(parts[0], separator);
      WellFormedJoins(parts[0] + separator, rest);
      assert Map(WellFormed, parts)[1..] == Map(WellFormed, parts[1..]);
    }
  }

  lemma MendedLine(row: seq<Text>)
    ensures WellFormed(Join(Map(Enclose, row), [COMMA])) == Join(Map(Enclose, Map(WellFormed, row)), [COMMA])
  {
    MendedJoin(Map(Enclose, row), [COMMA]);
    forall k | 0 <= k < |row|
      ensures WellFormed(Enclose(row[k])) == Enclose(WellFormed(row[k]))
    {
      MendedEnclose(row[k]);
    }
    assert Map(WellFormed, Map(Enclose, row)) == Map(Enclose, Map(WellFormed, row));
  }

  lemma MendedPage(rows: Table)
    ensures WellFormed([BOM] + Page(Each(Enclose, rows))) == [BOM] + Page(Each(Enclose, Each(WellFormed, rows)))
  {
    var lines, mended := Lines(Each(Enclose, rows)), Lines(Each(Enclose, Each(WellFormed, rows)));
    forall k | 0 <= k < |rows| ensures WellFormed(lines[k]) == mended[k] { MendedLine(rows[k]); }
    assert Map(WellFormed, lines) == mended;
    MendedJoin(lines, CRLF);
    PlainIsWellFormed(CRLF);
    WellFormedJoins(Join(lines, CRLF), CRLF);
    MendedUnit(BOM);
    WellFormedJoins([BOM], Page(Each(Enclose, rows)));
  }

  // ---------------------------------------------------------------- main results

  function Guarded(columns: seq<Text>, rows: Table): Table { Each(Guard, [columns] + rows) }

  lemma WrittenPage(columns: seq<Text>, rows: Table)
    ensures WriteCsv(columns, rows) == Encode([BOM] + Page(Each(Enclose, Guarded(columns, rows))))
  {
    var table := [columns] + rows;
    forall k | 0 <= k < |table| ensures Map(Cell, table[k]) == Map(Enclose, Map(Guard, table[k])) {}
    assert Each(Cell, table) == Each(Enclose, Guarded(columns, rows));
  }

  lemma FullRowsReadBack(columns: seq<Text>, rows: Table)
    requires |columns| > 0 && NoEmptyRow(rows)
    ensures ReadCsv(WriteCsv(columns, rows)) == Records(Each(WellFormed, Guarded(columns, rows)))
  {
    var table := Guarded(columns, rows);
    WrittenPage(columns, rows);
    DecodesEncoded([BOM] + Page(Each(Enclose, table)));
    MendedPage(table);
    PageReadsBack(Each(WellFormed, table));
    assert ([BOM] + Page(Each(Enclose, Each(WellFormed, table))))[1..] == Page(Each(Enclose, Each(WellFormed, table)));
  }

  /** A row without cells is written like a row of one empty cell. */
  function Filled(rows: Table): (r: Table)
    ensures |r| == |rows| && forall k :: 0 <= k < |r| ==> r[k] == if |rows[k]| == 0 then [[]] else rows[k]
  {
    seq(|rows|, k requires 0 <= k < |rows| => if |rows[k]| == 0 then [[]] else rows[k])
  }

  lemma FilledWritesSame(columns: seq<Text>, rows: Table)
    ensures var filled := Filled([columns] + rows); WriteCsv(columns, rows) == WriteCsv(filled[0], filled[1..])
  {
    var table := [columns] + rows;
    var filled := Filled(table);
    assert [filled[0]] + filled[1..] == filled;
    forall k | 0 <= k < |table| ensures Lines(Each(Cell, table))[k] == Lines(Each(Cell, filled))[k] {
      if |table[k]| == 0 { assert Map(Cell, []) == [] && Map(Cell, [[]]) == [[]]; }
    }
    assert Lines(Each(Cell, table)) == Lines(Each(Cell, filled));
  }

  /** What can be read of a table: guarded, lone surrogates replaced, no row empty. */
  function Readable(columns: seq<Text>, rows: Table): Table { Each(WellFormed, Each(Guard, Filled([columns] + rows))) }

  /** The reader gets back exactly that, row by row and cell by cell. */
  lemma CsvReadsBack(columns: seq<Text>, rows: Table)
    ensures ReadCsv(WriteCsv(columns, rows)) == Records(Readable(columns, rows))
  {
    var filled := Filled([columns] + rows);
    FilledWritesSame(columns, rows);
    assert [filled[0]] + filled[1..] == filled;
    FullRowsReadBack(filled[0], filled[1..]);
  }

  predicate AllWellFormed(rows: Table) {
    forall i, j :: 0 <= i < |rows| && 0 <= j < |rows[i]| ==> WellFormed(rows[i][j]) == rows[i][j]
  }

  lemma GuardMended(text: Text)
    ensures WellFormed(Guard(text)) == Guard(text) <==> WellFormed(text) == text
  {
    if |text| > 0 && text[0] in DANGEROUS {
      MendedUnit(APOSTROPHE);
      WellFormedJoins([APOSTROPHE], text);
      assert ([APOSTROPHE] + text)[1..] == text && ([APOSTROPHE] + WellFormed(text))[1..] == WellFormed(text);
    }
  }

  lemma MendedGuardedIff(table: Table)
    ensures Each(WellFormed, Each(Guard, Filled(table))) == Each(Guard, table) <==>
              NoEmptyRow(table) && AllWellFormed(table)
  {
    var read, was := Each(WellFormed, Each(Guard, Filled(table))), Each(Guard, table);
    forall i, j | 0 <= i < |table| && 0 <= j < |table[i]|
      ensures read[i][j] == was[i][j] <==> WellFormed(table[i][j]) == table[i][j]
    {
      GuardMended(table[i][j]);
    }
    if NoEmptyRow(table) {
      assert Filled(table) == table;
      if AllWellFormed(table) {
        forall i | 0 <= i < |table| ensures read[i] == was[i] {}
      } else {
        var i, j :| 0 <= i < |table| && 0 <= j < |table[i]| && WellFormed(table[i][j]) != table[i][j];
        assert read[i][j] != was[i][j];
      }
    } else {
      var i :| 0 <= i < |table| && |table[i]| == 0;
      assert |read[i]| != |was[i]|;
    }
  }

  /** The guarded cells themselves come back exactly if every row has a cell and no cell a lone surrogate. */
  lemma CsvReadsBackIff(columns: seq<Text>, rows: Table)
    ensures ReadCsv(WriteCsv(columns, rows)) == Records(Guarded(columns, rows))
            <==> NoEmptyRow([columns] + rows) && AllWellFormed([columns] + rows)
  {
    CsvReadsBack(columns, rows);
    MendedGuardedIff([columns] + rows);
  }

  /** The bytes of a file are determined by what can be read of it. */
  lemma BytesOfReadable(columns: seq<Text>, rows: Table)
    ensures WriteCsv(columns, rows) == Encode([BOM] + Page(Each(Enclose, Readable(columns, rows))))
  {
    var filled := Filled([columns] + rows);
    FilledWritesSame(columns, rows);
    assert [filled[0]] + filled[1..] == filled;
    WrittenPage(filled[0], filled[1..]);
    MendedPage(Each(Guard, filled));
    EncodesWellFormed([BOM] + Page(Each(Enclose, Each(Guard, filled))));
  }

  /** Two files are equal exactly if the same can be read of both. */
  lemma FilesEqualIff(columns: seq<Text>, rows: Table, columns2: seq<Text>, rows2: Table)
    ensures WriteCsv(columns, rows) == WriteCsv(columns2, rows2)
            <==> Readable(columns, rows) == Readable(columns2, rows2)
  {
    CsvReadsBack(columns, rows);
    CsvReadsBack(columns2, rows2);
    BytesOfReadable(columns, rows);
    BytesOfReadable(columns2, rows2);
  }

  /** A guarded text never starts a formula; the guard is one apostrophe, only where a formula would start. */
  lemma MendedGuard(text: Text)
    ensures var cell := WellFormed(Guard(text));
            && (|cell| > 0 ==> cell[0] !in DANGEROUS)
            && cell == (if |text| > 0 && text[0] in DANGEROUS then [APOSTROPHE] + WellFormed(text)
                        else WellFormed(text))
  {
    if |text| > 0 {
      MendedUnit(APOSTROPHE);
      WellFormedJoins([APOSTROPHE], text);
    }
  }

  /** No cell that is read back starts a formula, and a cell changes only by that apostrophe. */
  lemma NoCellStartsAFormula(columns: seq<Text>, rows: Table, i: nat, j: nat)
    requires i <= |rows| && j < |([columns] + rows)[i]|
    ensures var read := ReadCsv(WriteCsv(columns, rows)); var was := ([columns] + rows)[i][j];
            && read.Records? && |read.records| == |rows| + 1 && |read.records[i]| == |([columns] + rows)[i]|
            && var cell := read.records[i][j];
               && (|cell| > 0 ==> cell[0] !in DANGEROUS)
               && cell == (if |was| > 0 && was[0] in DANGEROUS then [APOSTROPHE] + WellFormed(was) else WellFormed(was))
  {
    CsvReadsBack(columns, rows);
    MendedGuard(([columns] + rows)[i][j]);
  }
}
