/** Exactly which household files are imported, and what every row of them becomes (lib/guests/csv.ts,
    lib/guests/contracts.ts). */
module ImportOutcomes {

  import opened Wrappers
  import opened Texts
  import opened Csv
  import opened HouseholdCsv

  // ----- Names in a cell -----

  /** The parts with semicolons between them. */
  function Joint(parts: seq<Text>): Text
    requires parts != []
  {
    if |parts| == 1 then parts[0] else parts[0] + [59] + Joint(parts[1..])
  }

  /** Splitting a cell cuts it at every semicolon and nowhere else. */
  lemma {:induction false} SplitCutsAtSemicolons(text: Text)
    ensures Joint(Split(text)) == text && forall i :: 0 <= i < |Split(text)| ==> 59 !in Split(text)[i]
  {
    if text != [] {
      SplitCutsAtSemicolons(text[1..]);
      var parts, tail := Split(text), Split(text[1..]);
      if text[0] == 59 {
        assert parts[1..] == tail;
      } else {
        assert parts[1..] == tail[1..];
        assert [text[0]] + Joint(tail) == Joint(parts);
      }
    }
  }

  /** Parts that are blank are passed over, all others come trimmed and in order. */
  lemma {:induction false} KeptInOrder(parts: seq<Text>, last: Text)
    ensures Kept(parts + [last]) == Kept(parts) + Kept([last])
  {
    if parts == [] {
      assert parts + [last] == [last];
    } else {
      KeptInOrder(parts[1..], last);
      assert (parts + [last])[1..] == parts[1..] + [last];
      Associative(if Trim(parts[0]) != [] then [Trim(parts[0])] else [], Kept(parts[1..]), Kept([last]));
    }
  }

  lemma Associative(a: seq<Text>, b: seq<Text>, c: seq<Text>)
    ensures a + (b + c) == (a + b) + c
  {
  }

  lemma KeptAlone(part: Text)
    ensures Kept([part]) == if Trim(part) == [] then [] else [Trim(part)]
  {
    assert [part][1..] == [];
  }

  // ----- The header -----

  /** The same word in ASCII letters of either case. */
  ghost predicate SameWord(t: Text, word: Text) {
    |t| == |word| && forall i :: 0 <= i < |t| ==> t[i] == word[i] || (97 <= word[i] <= 122 && t[i] == word[i] - 32)
  }

  /** A column is recognised by its name in letters of either case, with spaces around it. */
  lemma ColumnsAreWords(row: Row, i: nat, word: Text)
    requires i < |row| && forall k :: 0 <= k < |word| ==> !(65 <= word[k] <= 90)
    ensures i < |Header(row)| && (Header(row)[i] == word <==> SameWord(Trim(row[i]), word))
  {
    var t := Trim(row[i]);
    if SameWord(t, word) {
      assert LowerCase(t) == word;
    } else if LowerCase(t) == word {
      forall k | 0 <= k < |t| ensures t[k] == word[k] || (97 <= word[k] <= 122 && t[k] == word[k] - 32) {
        assert LowerCase(t)[k] == word[k];
      }
    }
  }

  lemma {:induction false} LastColumnCounts(header: seq<Text>, name: Text)
    ensures match Position(header, name)
            case Some(i) => i < |header| && header[i] == name && forall j :: i < j < |header| ==> header[j] != name
            case None => name !in header
  {
    if header != [] {
      LastColumnCounts(header[..|header| - 1], name);
      assert header == header[..|header| - 1] + [header[|header| - 1]];
    }
  }

  // ----- A row -----

  /** The extra seats of a row: the number in its cell, nothing or a blank counting as zero. */
  function Extra(number: NumberReader, cell: Option<Text>): Option<int> {
    number(if cell.Some? && Trim(cell.value) != [] then Trim(cell.value) else [48])
  }

  /** Seat `i` of a row with these names. */
  predicate SeatIs(slot: Slot, i: nat, adults: seq<Text>, children: seq<Text>) {
    if i < |adults| then slot.adult && slot.name == Some(adults[i]) && !slot.additional
    else if i < |adults| + |children| then !slot.adult && slot.name == Some(children[i - |adults|]) && !slot.additional
    else slot.adult && slot.name == None && slot.additional
  }

  ghost predicate NamesFit(names: seq<Text>) { forall i :: 0 <= i < |names| ==> 1 <= |names[i]| <= 120 }

  /** A row is read exactly when it has a title of 1 to 160 units, 0 to 10 extra seats, names of 1 to 120 units and 1
      to 20 seats in all. It becomes the household of that title with its adults, children and extra seats. */
  lemma RowReadExactlyWhen(number: NumberReader, header: seq<Text>, row: Row)
    ensures var r, title, extra := ReadRow(number, header, row), Cell(row, header, HOUSEHOLD), Extra(number, Cell(row, header, ADDITIONAL));
            var adults, children := Names(Cell(row, header, ADULTS)), Names(Cell(row, header, CHILDREN));
            && (r.Ok? <==>
                  && title.Some? && 1 <= |Trim(title.value)| <= 160 && extra.Some? && 0 <= extra.value <= 10
                  && NamesFit(adults) && NamesFit(children) && 1 <= |adults| + |children| + extra.value <= 20)
            && (r.Ok? ==>
                  && r.value.title == Trim(title.value) && |r.value.slots| == |adults| + |children| + extra.value
                  && forall i :: 0 <= i < |r.value.slots| ==> SeatIs(r.value.slots[i], i, adults, children))
            && (r == Err(BadAdditional) <==> !(extra.Some? && 0 <= extra.value <= 10))
  {
    var title, extra := Cell(row, header, HOUSEHOLD), Extra(number, Cell(row, header, ADDITIONAL));
    ZeroIsTrimmed();
    if title.Some? && extra.Some? && 0 <= extra.value <= 10 {
      MadeExactlyWhen(Trim(title.value), Names(Cell(row, header, ADULTS)), Names(Cell(row, header, CHILDREN)), extra.value);
    }
  }

  lemma ZeroIsTrimmed()
    ensures Trim([48]) == [48]
  {
    TrimIsIdentity([48]);
  }

  lemma MadeExactlyWhen(title: Text, adults: seq<Text>, children: seq<Text>, extra: nat)
    ensures var r := Made(title, adults, children, extra);
            && (r.Ok? <==>
                  1 <= |title| <= 160 && NamesFit(adults) && NamesFit(children) && 1 <= |adults| + |children| + extra <= 20)
            && (r.Ok? ==>
                  && r.value.title == title && |r.value.slots| == |adults| + |children| + extra
                  && forall i :: 0 <= i < |r.value.slots| ==> SeatIs(r.value.slots[i], i, adults, children))
            && (r.Err? ==> r == Err(BadHousehold))
  {
    var slots := Seats(adults, children, extra);
    assert |slots| == |adults| + |children| + extra && forall i :: 0 <= i < |slots| ==> SeatIs(slots[i], i, adults, children);
    if Made(title, adults, children, extra).Ok? {
      forall i | 0 <= i < |adults| ensures 1 <= |adults[i]| <= 120 { assert SeatIs(slots[i], i, adults, children); }
      forall i | 0 <= i < |children| ensures 1 <= |children[i]| <= 120 {
        assert SeatIs(slots[|adults| + i], |adults| + i, adults, children);
      }
    }
  }

  // ----- The file -----

  /** The rows with something in them. */
  function Filled(rows: seq<Row>): seq<Row> {
    if rows == [] then []
    else (if exists i :: 0 <= i < |rows[0]| && Trim(rows[0][i]) != [] then [rows[0]] else []) + Filled(rows[1..])
  }

  ghost predicate AllRead(number: NumberReader, header: seq<Text>, rows: seq<Row>) {
    rows == [] || (ReadRow(number, header, rows[0]).Ok? && AllRead(number, header, rows[1..]))
  }

  /** Each row becomes the household at its place. */
  ghost predicate ReadAs(number: NumberReader, header: seq<Text>, rows: seq<Row>, hs: seq<Household>) {
    if rows == [] then hs == []
    else hs != [] && ReadRow(number, header, rows[0]) == Ok(hs[0]) && ReadAs(number, header, rows[1..], hs[1..])
  }

  lemma {:induction false} RowsReadExactlyWhen(number: NumberReader, header: seq<Text>, rows: seq<Row>)
    ensures var r := ReadRows(number, header, rows);
            (r.Ok? <==> AllRead(number, header, Filled(rows))) && (r.Ok? ==> ReadAs(number, header, Filled(rows), r.value))
  {
    if rows != [] {
      var rest, others := Filled(rows[1..]), ReadRows(number, header, rows[1..]);
      RowsReadExactlyWhen(number, header, rows[1..]);
      if Blank(rows[0]) {
        assert Filled(rows) == rest;
      } else {
        assert Filled(rows) == [rows[0]] + rest && Filled(rows)[1..] == rest;
        if ReadRows(number, header, rows).Ok? { assert ReadRows(number, header, rows).value[1..] == others.value; }
      }
    }
  }

  /** A file is imported exactly when it is a table of at most 500 rows under a header with the four columns, in any
      order and beside others, and every row with something in it can be read; each becomes its household, in order. */
  lemma ImportedExactlyWhen(number: NumberReader, input: Text)
    ensures var r, table := ParseHouseholds(number, input), Parsed(Trim(input));
            && (r.Ok? <==>
                  && table.Ok? && 1 <= |table.value| <= 501
                  && var header, filled := Header(table.value[0]), Filled(table.value[1..]);
                  && HOUSEHOLD in header && ADULTS in header && CHILDREN in header && ADDITIONAL in header
                  && AllRead(number, header, filled))
            && (r.Ok? ==> ReadAs(number, Header(table.value[0]), Filled(table.value[1..]), r.value))
  {
    var table := Parsed(Trim(input));
    if table.Ok? && table.value != [] {
      var header := Header(table.value[0]);
      RowsReadExactlyWhen(number, header, table.value[1..]);
      FourColumns(header);
    }
  }

  lemma FourColumns(header: seq<Text>)
    ensures HasColumns(header) <==> HOUSEHOLD in header && ADULTS in header && CHILDREN in header && ADDITIONAL in header
  {
    assert COLUMNS[0] == HOUSEHOLD && COLUMNS[1] == ADULTS && COLUMNS[2] == CHILDREN && COLUMNS[3] == ADDITIONAL;
  }
}
