/** The household CSV reader and the export's cell writer (lib/guests/csv.ts).

    Reading is a character machine; writing guards spreadsheet formulas, doubles
    quotes and quotes every cell (section 2 of RFC 4180). */
module Csv {

  import opened Texts
  import opened Wrappers

  type Row = seq<Text>

  const QUOTE: Unit := 34
  const APOSTROPHE: Unit := 39
  const COMMA: Unit := 44
  const CR: Unit := 13
  const LF: Unit := 10

  datatype CsvError = UnclosedQuote

  /** The signs of the format, and those that begin a formula in a spreadsheet. */
  lemma SignsAre(text: Text)
    ensures QUOTE == '\"' as int && APOSTROPHE == '\'' as int && COMMA == ',' as int && CR == '\r' as int && LF == '\n' as int
    ensures StartsFormula(text) <==>
              text != [] && text[0] in {'=' as int, '+' as int, '-' as int, '@' as int, '\t' as int, '\r' as int}
  {
  }

  // ----- Writing -----

  predicate StartsFormula(text: Text) {
    text != [] && text[0] in {61, 43, 45, 64, 9, 13}
  }

  /** The text the export means to carry: a leading apostrophe disarms a formula. */
  function Guard(text: Text): Text {
    if StartsFormula(text) then [APOSTROPHE] + text else text
  }

  function Doubled(text: Text): Text {
    if text == [] then []
    else (if text[0] == QUOTE then [QUOTE, QUOTE] else text[..1]) + Doubled(text[1..])
  }

  function CsvCell(text: Text): Text {
    [QUOTE] + Doubled(Guard(text)) + [QUOTE]
  }

  function JoinCells(row: Row): Text
    requires row != []
  {
    if |row| == 1 then CsvCell(row[0]) else CsvCell(row[0]) + [COMMA] + JoinCells(row[1..])
  }

  ghost predicate Exportable(table: seq<Row>) {
    table != [] && forall i :: 0 <= i < |table| ==> table[i] != []
  }

  function Export(table: seq<Row>): Text
    requires Exportable(table)
  {
    if |table| == 1 then JoinCells(table[0]) else JoinCells(table[0]) + [CR, LF] + Export(table[1..])
  }

  function GuardRow(row: Row): (r: Row) {
    seq(|row|, i requires 0 <= i < |row| => Guard(row[i]))
  }

  function GuardTable(table: seq<Row>): (r: seq<Row>) {
    seq(|table|, i requires 0 <= i < |table| => GuardRow(table[i]))
  }

  // ----- Reading -----

  /** The reader's local variables between two characters. */
  datatype Scan = Scan(rows: seq<Row>, row: Row, cell: Text, quoted: bool)

  const START := Scan([], [], [], false)

  predicate EndsRow(c: Unit) { c == LF || c == CR }

  /** What is left of the input, and the variables, after one turn of the loop. */
  function Turn(input: Text, s: Scan): (r: (Text, Scan))
    requires input != []
    ensures |r.0| < |input|
  {
    var c, rest := input[0], input[1..];
    if c == QUOTE then
      if s.quoted && rest != [] && rest[0] == QUOTE then (rest[1..], s.(cell := s.cell + [QUOTE]))
      else (rest, s.(quoted := !s.quoted))
    else if c == COMMA && !s.quoted then (rest, s.(row := s.row + [s.cell], cell := []))
    else if EndsRow(c) && !s.quoted then
      (if c == CR && rest != [] && rest[0] == LF then rest[1..] else rest,
       Scan(s.rows + [s.row + [s.cell]], [], [], false))
    else (rest, s.(cell := s.cell + [c]))
  }

  function ScanFrom(input: Text, s: Scan): Scan
    decreases |input|
  {
    if input == [] then s else var (rest, s') := Turn(input, s); ScanFrom(rest, s')
  }

  function Finish(s: Scan): Result<seq<Row>, CsvError> {
    if s.quoted then Err(UnclosedQuote) else Ok(s.rows + [s.row + [s.cell]])
  }

  function Parsed(input: Text): Result<seq<Row>, CsvError> {
    Finish(ScanFrom(input, START))
  }

  /** The loop itself. It also advances its index inside the body, and still ends. */
  method ParseCsv(input: Text) returns (result: Result<seq<Row>, CsvError>)
    ensures result == Parsed(input)
  {
    var rows: seq<Row>, row: Row, cell, quoted := [], [], [], false;
    var index := 0;
    while index < |input|
      invariant index <= |input|
      invariant ScanFrom(input[index..], Scan(rows, row, cell, quoted)) == ScanFrom(input, START)
    {
      var character := input[index];
      ghost var here := input[index..];
      assert here[0] == character && here[1..] == input[index + 1..];
      var pairs := index + 1 < |input|;
      assert pairs ==> here[1..][0] == input[index + 1] && here[1..][1..] == input[index + 2..];
      if character == QUOTE {
        if quoted && pairs && input[index + 1] == QUOTE {
          cell := cell + [QUOTE];
          index := index + 1;
        } else {
          quoted := !quoted;
        }
      } else if character == COMMA && !quoted {
        row := row + [cell];
        cell := [];
      } else if (character == LF || character == CR) && !quoted {
        if character == CR && pairs && input[index + 1] == LF {
          index := index + 1;
        }
        row := row + [cell];
        rows := rows + [row];
        row := [];
        cell := [];
      } else {
        cell := cell + [character];
      }
      index := index + 1;
    }
    assert input[index..] == [];
    if quoted {
      return Err(UnclosedQuote);
    }
    row := row + [cell];
    rows := rows + [row];
    return Ok(rows);
  }

  // ----- The round trip -----

  /** Inside quotes the reader undoes the doubling, and leaves at the closing quote. */
  lemma {:induction false} ScanDoubled(text: Text, rest: Text, s: Scan)
    requires s.quoted && (rest != [] ==> rest[0] != QUOTE)
    ensures ScanFrom(Doubled(text) + [QUOTE] + rest, s) == ScanFrom(rest, s.(cell := s.cell + text, quoted := false))
    decreases |text|
  {
    var input := Doubled(text) + [QUOTE] + rest;
    if text == [] {
      assert input[1..] == rest && s.cell + text == s.cell;
    } else {
      var tail := Doubled(text[1..]) + [QUOTE] + rest;
      if text[0] == QUOTE {
        assert input[1..][1..] == tail;
      } else {
        assert input[1..] == tail;
      }
      assert text[..1] == [text[0]];
      assert Turn(input, s) == (tail, s.(cell := s.cell + text[..1]));
      assert s.cell + text == (s.cell + text[..1]) + text[1..];
      ScanDoubled(text[1..], rest, s.(cell := s.cell + text[..1]));
    }
  }

  lemma ScanCell(text: Text, rest: Text, s: Scan)
    requires !s.quoted && s.cell == [] && (rest != [] ==> rest[0] != QUOTE)
    ensures ScanFrom(CsvCell(text) + rest, s) == ScanFrom(rest, s.(cell := Guard(text)))
  {
    var input := CsvCell(text) + rest;
    assert input[1..] == Doubled(Guard(text)) + [QUOTE] + rest;
    ScanDoubled(Guard(text), rest, s.(quoted := true));
    assert s.cell + Guard(text) == Guard(text);
  }

  lemma JoinedSplit(row: Row, rest: Text)
    requires |row| > 1
    ensures JoinCells(row) + rest == CsvCell(row[0]) + ([COMMA] + (JoinCells(row[1..]) + rest))
  {
    Regroup(CsvCell(row[0]), [COMMA], JoinCells(row[1..]), rest);
  }

  lemma Regroup(a: Text, b: Text, c: Text, d: Text)
    ensures a + b + c + d == a + (b + (c + d))
  {
  }

  lemma ScanComma(rest: Text, s: Scan)
    requires !s.quoted
    ensures ScanFrom([COMMA] + rest, s) == ScanFrom(rest, s.(row := s.row + [s.cell], cell := []))
  {
    assert ([COMMA] + rest)[1..] == rest;
  }

  lemma {:induction false} ScanRow(row: Row, rest: Text, s: Scan)
    requires row != [] && !s.quoted && s.cell == [] && (rest != [] ==> rest[0] != QUOTE)
    ensures ScanFrom(JoinCells(row) + rest, s)
         == ScanFrom(rest, s.(row := s.row + GuardRow(row)[..|row| - 1], cell := Guard(row[|row| - 1])))
    decreases |row|
  {
    if |row| == 1 {
      ScanCell(row[0], rest, s);
      assert s.row + GuardRow(row)[..0] == s.row;
    } else {
      var more := JoinCells(row[1..]) + rest;
      JoinedSplit(row, rest);
      ScanCell(row[0], [COMMA] + more, s);
      ScanComma(more, s.(cell := Guard(row[0])));
      var next := s.(row := s.row + [Guard(row[0])]);
      ScanRow(row[1..], rest, next);
      GuardedSplit(row, s.row);
    }
  }

  lemma GuardedSplit(row: Row, done: Row)
    requires |row| > 1
    ensures done + [Guard(row[0])] + GuardRow(row[1..])[..|row| - 2] == done + GuardRow(row)[..|row| - 1]
  {
    assert [Guard(row[0])] + GuardRow(row[1..])[..|row| - 2] == GuardRow(row)[..|row| - 1];
  }

  lemma ScanLineBreak(rest: Text, s: Scan)
    requires !s.quoted
    ensures ScanFrom([CR, LF] + rest, s) == ScanFrom(rest, Scan(s.rows + [s.row + [s.cell]], [], [], false))
  {
    var input := [CR, LF] + rest;
    assert input[1..][1..] == rest;
  }

  lemma {:induction false} ScanTable(table: seq<Row>, done: seq<Row>)
    requires Exportable(table)
    ensures Finish(ScanFrom(Export(table), Scan(done, [], [], false))) == Ok(done + GuardTable(table))
    decreases |table|
  {
    var s, first := Scan(done, [], [], false), table[0];
    var last := |first| - 1;
    assert [] + GuardRow(first)[..last] + [Guard(first[last])] == GuardRow(first);
    assert GuardTable(table) == [GuardRow(first)] + GuardTable(table[1..]);
    if |table| == 1 {
      assert Export(table) == JoinCells(first) + [];
      ScanRow(first, [], s);
      assert GuardTable(table) == [GuardRow(first)];
    } else {
      var more := [CR, LF] + Export(table[1..]);
      assert Export(table) == JoinCells(first) + more;
      ScanRow(first, more, s);
      ScanLineBreak(Export(table[1..]), s.(row := [] + GuardRow(first)[..last], cell := Guard(first[last])));
      ScanTable(table[1..], done + [GuardRow(first)]);
      assert done + [GuardRow(first)] + GuardTable(table[1..]) == done + GuardTable(table);
    }
  }

  /** Reading an export gives back every cell as guarded: unchanged unless it began a formula,
      and never beginning one. */
  lemma ExportRoundTrip(table: seq<Row>)
    requires Exportable(table)
    ensures Parsed(Export(table)).Ok?
    ensures var rows := Parsed(Export(table)).value;
            && |rows| == |table|
            && (forall i :: 0 <= i < |rows| ==> |rows[i]| == |table[i]|)
            && (forall i, j :: 0 <= i < |rows| && 0 <= j < |rows[i]| ==>
                  && !StartsFormula(rows[i][j])
                  && rows[i][j] == if StartsFormula(table[i][j]) then [APOSTROPHE] + table[i][j] else table[i][j])
  {
    ScanTable(table, []);
    assert [] + GuardTable(table) == GuardTable(table);
    assert forall i :: 0 <= i < |table| ==> GuardTable(table)[i] == GuardRow(table[i]);
  }

  // ----- Which texts are refused -----

  function QuoteCount(text: Text): nat {
    if text == [] then 0 else (if text[0] == QUOTE then 1 else 0) + QuoteCount(text[1..])
  }

  lemma {:induction false} ScanParity(input: Text, s: Scan)
    ensures ScanFrom(input, s).quoted <==> (QuoteCount(input) % 2 == 1) != s.quoted
    decreases |input|
  {
    if input != [] {
      var (rest, s') := Turn(input, s);
      ScanParity(rest, s');
      if |rest| + 2 == |input| {
        assert rest == input[1..][1..];
        assert QuoteCount(input[1..]) == (if input[1] == QUOTE then 1 else 0) + QuoteCount(rest);
      }
    }
  }

  /** The reader refuses a text exactly when it holds an odd number of quotes. */
  lemma RefusedExactlyOnOddQuotes(input: Text)
    ensures Parsed(input).Err? <==> QuoteCount(input) % 2 == 1
  {
    ScanParity(input, START);
  }
}
