/** The household import: header, name lists and extra seats of each row (lib/guests/csv.ts,
    lib/guests/contracts.ts). */
module HouseholdCsv {

  import opened Csv
  import opened Texts
  import opened Wrappers
  import Households

  datatype Slot = Slot(adult: bool, name: Option<Text>, additional: bool)

  datatype Household = Household(title: Text, slots: seq<Slot>)

  datatype ImportError = Unreadable | MissingColumn | TooManyRows | BadAdditional | BadHousehold

  const SEMICOLON: Unit := 59
  const ZERO: Text := [48]
  const HOUSEHOLD: Text := [104, 111, 117, 115, 101, 104, 111, 108, 100]
  const ADULTS: Text := [97, 100, 117, 108, 116, 115]
  const CHILDREN: Text := [99, 104, 105, 108, 100, 114, 101, 110]
  const ADDITIONAL: Text := [97, 100, 100, 105, 116, 105, 111, 110, 97, 108, 95, 103, 117, 101, 115, 116, 115]
  const COLUMNS: seq<Text> := [HOUSEHOLD, ADULTS, CHILDREN, ADDITIONAL]

  /** Reading a number: present when the text is one and it is an integer. */
  type NumberReader = Text -> Option<int>

  // ----- Header and cells -----

  /** Only ASCII letters can become letters of a required name. */
  function Lower(u: Unit): Unit { if 65 <= u <= 90 then u + 32 else u }

  function LowerCase(t: Text): Text { seq(|t|, i requires 0 <= i < |t| => Lower(t[i])) }

  function Header(row: Row): seq<Text> {
    seq(|row|, i requires 0 <= i < |row| => LowerCase(Trim(row[i])))
  }

  /** Of two columns of one name the last counts. */
  function Position(header: seq<Text>, name: Text): Option<nat> {
    if header == [] then None
    else if header[|header| - 1] == name then Some(|header| - 1)
    else Position(header[..|header| - 1], name)
  }

  function Cell(row: Row, header: seq<Text>, name: Text): Option<Text> {
    match Position(header, name)
    case Some(i) => if i < |row| then Some(row[i]) else None
    case None => None
  }

  // ----- Rows -----

  function Split(text: Text): (parts: seq<Text>)
    ensures parts != []
  {
    if text == [] then [[]]
    else
      var parts := Split(text[1..]);
      if text[0] == SEMICOLON then [[]] + parts else [[text[0]] + parts[0]] + parts[1..]
  }

  function Kept(parts: seq<Text>): seq<Text> {
    if parts == [] then []
    else (if Trim(parts[0]) != [] then [Trim(parts[0])] else []) + Kept(parts[1..])
  }

  function Names(cell: Option<Text>): seq<Text> {
    Kept(Split(if cell.Some? then cell.value else []))
  }

  function Additional(number: NumberReader, cell: Option<Text>): Result<nat, ImportError> {
    var text := Trim(if cell.Some? then cell.value else ZERO);
    var value := number(if text == [] then ZERO else text);
    if value.None? || value.value < 0 || value.value > 10 then Err(BadAdditional) else Ok(value.value)
  }

  function Seats(adults: seq<Text>, children: seq<Text>, additional: nat): seq<Slot> {
    seq(|adults|, i requires 0 <= i < |adults| => Slot(true, Some(adults[i]), false))
    + seq(|children|, i requires 0 <= i < |children| => Slot(false, Some(children[i]), false))
    + seq(additional, _ => Slot(true, None, true))
  }

  predicate FitsName(name: Text) { 0 < |name| <= 120 }

  /** The household schema. The import trims before it gets here. */
  predicate ValidHousehold(h: Household) {
    && 0 < |h.title| <= 160 && 1 <= |h.slots| <= Households.MAX_SLOTS
    && forall i :: 0 <= i < |h.slots| && h.slots[i].name.Some? ==> FitsName(h.slots[i].name.value)
  }

  function Made(title: Text, adults: seq<Text>, children: seq<Text>, additional: nat): Result<Household, ImportError> {
    var h := Household(title, Seats(adults, children, additional));
    if ValidHousehold(h) then Ok(h) else Err(BadHousehold)
  }

  function ReadRow(number: NumberReader, header: seq<Text>, row: Row): Result<Household, ImportError> {
    match Additional(number, Cell(row, header, ADDITIONAL))
    case Err(error) => Err(error)
    case Ok(additional) =>
      match Cell(row, header, HOUSEHOLD)
      case None => Err(BadHousehold)
      case Some(title) =>
        Made(Trim(title), Names(Cell(row, header, ADULTS)), Names(Cell(row, header, CHILDREN)), additional)
  }

  predicate Blank(row: Row) {
    forall i :: 0 <= i < |row| ==> Trim(row[i]) == []
  }

  function ReadRows(number: NumberReader, header: seq<Text>, rows: seq<Row>): Result<seq<Household>, ImportError> {
    if rows == [] then Ok([])
    else if Blank(rows[0]) then ReadRows(number, header, rows[1..])
    else
      match ReadRow(number, header, rows[0])
      case Err(error) => Err(error)
      case Ok(first) =>
        match ReadRows(number, header, rows[1..])
        case Err(error) => Err(error)
        case Ok(others) => Ok([first] + others)
  }

  predicate HasColumns(header: seq<Text>) {
    forall i :: 0 <= i < |COLUMNS| ==> COLUMNS[i] in header
  }

  function FromTable(number: NumberReader, rows: seq<Row>): Result<seq<Household>, ImportError> {
    if rows == [] then Err(Unreadable)
    else if !HasColumns(Header(rows[0])) then Err(MissingColumn)
    else if |rows| > 501 then Err(TooManyRows)
    else ReadRows(number, Header(rows[0]), rows[1..])
  }

  function ParseHouseholds(number: NumberReader, input: Text): Result<seq<Household>, ImportError> {
    match Parsed(Trim(input))
    case Err(_) => Err(Unreadable)
    case Ok(rows) => FromTable(number, rows)
  }

  // ----- What an import can bring -----

  predicate CleanName(name: Text) { FitsName(name) && Trimmed(name) && SEMICOLON !in name }

  /** Named adults, then named children, then at most ten unnamed additional adults. */
  ghost predicate WellSeated(slots: seq<Slot>) {
    exists a: nat, b: nat :: a <= b <= |slots| && |slots| - b <= 10 && Seated(slots, a, b)
  }

  ghost predicate Seated(slots: seq<Slot>, a: nat, b: nat)
    requires a <= b <= |slots|
  {
    && (forall i :: 0 <= i < b ==> slots[i].adult == (i < a) && !slots[i].additional && slots[i].name.Some? && CleanName(slots[i].name.value))
    && (forall i :: b <= i < |slots| ==> slots[i].adult && slots[i].additional && slots[i].name.None?)
  }

  lemma {:induction false} PartsHaveNoSemicolon(text: Text)
    ensures forall i :: 0 <= i < |Split(text)| ==> SEMICOLON !in Split(text)[i]
  {
    if text != [] {
      PartsHaveNoSemicolon(text[1..]);
    }
  }

  /** A name as the import takes it from a cell. */
  predicate Cut(name: Text) { name != [] && Trimmed(name) && SEMICOLON !in name }

  ghost predicate AllCut(names: seq<Text>) { forall i :: 0 <= i < |names| ==> Cut(names[i]) }

  lemma {:induction false} KeptAreCut(parts: seq<Text>)
    requires forall i :: 0 <= i < |parts| ==> SEMICOLON !in parts[i]
    ensures AllCut(Kept(parts))
  {
    if parts != [] {
      var name, names := Trim(parts[0]), Kept(parts[1..]);
      KeptAreCut(parts[1..]);
      TrimAddsNothing(SEMICOLON, parts[0]);
      if name != [] {
        assert Kept(parts) == [name] + names;
      } else {
        assert Kept(parts) == names;
      }
    }
  }

  lemma NamesAreCut(cell: Option<Text>)
    ensures AllCut(Names(cell))
  {
    var text := if cell.Some? then cell.value else [];
    PartsHaveNoSemicolon(text);
    KeptAreCut(Split(text));
  }

  /** A valid household in canonical form. */
  ghost predicate Canonical(h: Household) {
    Trimmed(h.title) && ValidHousehold(h) && WellSeated(h.slots)
  }

  lemma MadeIsCanonical(title: Text, adults: seq<Text>, children: seq<Text>, additional: nat)
    requires Made(title, adults, children, additional).Ok? && Trimmed(title) && AllCut(adults) && AllCut(children) && additional <= 10
    ensures Canonical(Made(title, adults, children, additional).value)
  {
    assert Seated(Seats(adults, children, additional), |adults|, |adults| + |children|);
  }

  lemma RowIsCanonical(number: NumberReader, header: seq<Text>, row: Row)
    requires ReadRow(number, header, row).Ok?
    ensures Canonical(ReadRow(number, header, row).value)
  {
    var title, additional := Cell(row, header, HOUSEHOLD), Additional(number, Cell(row, header, ADDITIONAL));
    var adults, children := Cell(row, header, ADULTS), Cell(row, header, CHILDREN);
    NamesAreCut(adults);
    NamesAreCut(children);
    MadeIsCanonical(Trim(title.value), Names(adults), Names(children), additional.value);
  }

  ghost predicate AllCanonical(hs: seq<Household>) {
    forall i :: 0 <= i < |hs| ==> Canonical(hs[i])
  }

  lemma {:induction false} RowsAreCanonical(number: NumberReader, header: seq<Text>, rows: seq<Row>)
    requires ReadRows(number, header, rows).Ok?
    ensures |ReadRows(number, header, rows).value| <= |rows| && AllCanonical(ReadRows(number, header, rows).value)
  {
    if rows != [] {
      RowsAreCanonical(number, header, rows[1..]);
      if !Blank(rows[0]) {
        RowIsCanonical(number, header, rows[0]);
      }
    }
  }

  lemma TableIsCanonical(number: NumberReader, rows: seq<Row>)
    requires FromTable(number, rows).Ok?
    ensures |FromTable(number, rows).value| <= 500 && AllCanonical(FromTable(number, rows).value)
  {
    RowsAreCanonical(number, Header(rows[0]), rows[1..]);
  }

  /** Whatever text is imported, what comes out is at most 500 valid households in canonical form. */
  lemma EveryImportIsCanonical(number: NumberReader, input: Text)
    requires ParseHouseholds(number, input).Ok?
    ensures |ParseHouseholds(number, input).value| <= 500 && AllCanonical(ParseHouseholds(number, input).value)
  {
    match Parsed(Trim(input))
    case Ok(rows) => TableIsCanonical(number, rows);
  }

  // ----- Writing households and reading them back -----

  datatype Listing = Listing(title: Text, adults: seq<Text>, children: seq<Text>, additional: nat)

  function Listed(l: Listing): Household {
    Household(l.title, Seats(l.adults, l.children, l.additional))
  }

  ghost predicate CleanNames(names: seq<Text>) {
    (forall i :: 0 <= i < |names| ==> CleanName(names[i])) && (names != [] ==> !StartsFormula(names[0]))
  }

  /** A household that four cells can carry: no semicolon within a name, no cell that the export
      would take for a formula. */
  ghost predicate Writable(l: Listing) {
    && 0 < |l.title| <= 160 && Trimmed(l.title) && !StartsFormula(l.title)
    && CleanNames(l.adults) && CleanNames(l.children)
    && l.additional <= 10 && 1 <= |l.adults| + |l.children| + l.additional <= Households.MAX_SLOTS
  }

  function Joined(names: seq<Text>): Text {
    if names == [] then [] else if |names| == 1 then names[0] else names[0] + [SEMICOLON] + Joined(names[1..])
  }

  /** How small numbers are written. */
  type NumberWriter = nat -> Text

  ghost predicate ReadsWhatItWrites(number: NumberReader, digits: NumberWriter) {
    forall n: nat :: n <= 10 ==>
      digits(n) != [] && Trimmed(digits(n)) && !StartsFormula(digits(n)) && number(digits(n)) == Some(n)
  }

  function CellOf(l: Listing, digits: NumberWriter, column: nat): Text {
    match column
    case 0 => l.title
    case 1 => Joined(l.adults)
    case 2 => Joined(l.children)
    case _ => digits(l.additional)
  }

  /** The four columns in some order. */
  ghost predicate Arrangement(columns: seq<nat>) {
    && |columns| == 4
    && (forall i :: 0 <= i < 4 ==> columns[i] < 4)
    && (forall i, j :: 0 <= i < j < 4 ==> columns[i] != columns[j])
  }

  function HeaderRow(columns: seq<nat>): Row
    requires forall i :: 0 <= i < |columns| ==> columns[i] < 4
  {
    seq(|columns|, i requires 0 <= i < |columns| => COLUMNS[columns[i]])
  }

  function WriteRow(l: Listing, digits: NumberWriter, columns: seq<nat>): Row {
    seq(|columns|, i requires 0 <= i < |columns| => CellOf(l, digits, columns[i]))
  }

  function WriteRows(ls: seq<Listing>, digits: NumberWriter, columns: seq<nat>): seq<Row> {
    if ls == [] then [] else [WriteRow(ls[0], digits, columns)] + WriteRows(ls[1..], digits, columns)
  }

  function AllListed(ls: seq<Listing>): seq<Household> {
    seq(|ls|, i requires 0 <= i < |ls| => Listed(ls[i]))
  }

  lemma {:induction false} SplitAfter(name: Text, rest: Text)
    requires SEMICOLON !in name
    ensures Split(name + [SEMICOLON] + rest) == [name] + Split(rest)
    decreases |name|
  {
    var text := name + [SEMICOLON] + rest;
    if name == [] {
      assert text[1..] == rest;
    } else {
      assert text[1..] == name[1..] + [SEMICOLON] + rest;
      assert name[0] != SEMICOLON && name[0] in name;
      SplitAfter(name[1..], rest);
      assert [name[0]] + name[1..] == name;
    }
  }

  lemma {:induction false} SplitOne(name: Text)
    requires SEMICOLON !in name
    ensures Split(name) == [name]
    decreases |name|
  {
    if name != [] {
      assert name[0] in name;
      SplitOne(name[1..]);
      assert [name[0]] + name[1..] == name;
    }
  }

  lemma {:induction false} SplitJoined(names: seq<Text>)
    requires names != [] && forall i :: 0 <= i < |names| ==> CleanName(names[i])
    ensures Split(Joined(names)) == names
    decreases |names|
  {
    if |names| == 1 {
      SplitOne(names[0]);
    } else {
      SplitJoined(names[1..]);
      SplitAfter(names[0], Joined(names[1..]));
    }
  }

  lemma {:induction false} KeptAll(names: seq<Text>)
    requires forall i :: 0 <= i < |names| ==> CleanName(names[i])
    ensures Kept(names) == names
    decreases |names|
  {
    if names != [] {
      TrimIsIdentity(names[0]);
      KeptAll(names[1..]);
    }
  }

  lemma NamesComeBack(names: seq<Text>)
    requires CleanNames(names)
    ensures Names(Some(Joined(names))) == names && !StartsFormula(Joined(names))
  {
    if names == [] {
      assert Split([]) == [[]] && Trim([]) == [];
      assert Kept([[]]) == Kept([[]][1..]);
    } else {
      SplitJoined(names);
      KeptAll(names);
    }
  }

  lemma {:induction false} PositionOnly(header: seq<Text>, i: nat)
    requires i < |header| && forall j :: 0 <= j < |header| && j != i ==> header[j] != header[i]
    ensures Position(header, header[i]) == Some(i)
    decreases |header|
  {
    if i < |header| - 1 {
      PositionOnly(header[..|header| - 1], i);
    }
  }

  /** Small letters and underscores. */
  predicate Small(t: Text) { t != [] && forall i :: 0 <= i < |t| ==> 95 <= t[i] <= 122 }

  lemma ColumnsAreSmall()
    ensures forall i :: 0 <= i < 4 ==> Small(COLUMNS[i])
  {
    assert Small(HOUSEHOLD) && Small(ADULTS) && Small(CHILDREN) && Small(ADDITIONAL);
  }

  lemma PositionOf(columns: seq<nat>, i: nat)
    requires Arrangement(columns) && i < 4
    ensures Position(HeaderRow(columns), COLUMNS[columns[i]]) == Some(i)
  {
    var header := HeaderRow(columns);
    forall j | 0 <= j < 4 && j != i ensures header[j] != header[i] {
      assert columns[j] != columns[i];
    }
    PositionOnly(header, i);
  }

  /** Wherever a column stands, its cell is found. */
  lemma CellFound(l: Listing, digits: NumberWriter, columns: seq<nat>, i: nat)
    requires Arrangement(columns) && i < 4
    ensures Cell(WriteRow(l, digits, columns), HeaderRow(columns), COLUMNS[columns[i]]) == Some(CellOf(l, digits, columns[i]))
  {
    PositionOf(columns, i);
  }

  lemma HeaderUnchanged(columns: seq<nat>)
    requires forall i :: 0 <= i < |columns| ==> columns[i] < 4
    ensures Header(HeaderRow(columns)) == HeaderRow(columns) && Unguarded(HeaderRow(columns))
  {
    ColumnsAreSmall();
    forall i | 0 <= i < |columns|
      ensures Header(HeaderRow(columns))[i] == HeaderRow(columns)[i] && !StartsFormula(HeaderRow(columns)[i])
    {
    }
  }

  predicate Unguarded(row: Row) {
    forall i :: 0 <= i < |row| ==> !StartsFormula(row[i])
  }

  lemma Placed(columns: seq<nat>, column: nat) returns (i: nat)
    requires Arrangement(columns) && column < 4
    ensures i < 4 && columns[i] == column
  {
    i := if columns[0] == column then 0 else if columns[1] == column then 1 else if columns[2] == column then 2 else 3;
  }

  /** Each of the four cells is found, whatever the arrangement. */
  lemma CellsFound(l: Listing, digits: NumberWriter, columns: seq<nat>, column: nat)
    requires Arrangement(columns) && column < 4
    ensures Cell(WriteRow(l, digits, columns), HeaderRow(columns), COLUMNS[column]) == Some(CellOf(l, digits, column))
  {
    var i := Placed(columns, column);
    CellFound(l, digits, columns, i);
  }

  lemma NotBlank(row: Row, i: nat, title: Text)
    requires i < |row| && row[i] == title && title != [] && Trimmed(title)
    ensures !Blank(row)
  {
    TrimIsIdentity(title);
  }

  lemma RowNotBlank(digits: NumberWriter, l: Listing, columns: seq<nat>)
    requires Arrangement(columns) && Writable(l)
    ensures !Blank(WriteRow(l, digits, columns))
  {
    var i := Placed(columns, 0);
    NotBlank(WriteRow(l, digits, columns), i, l.title);
  }

  lemma FourCellsFound(l: Listing, digits: NumberWriter, columns: seq<nat>)
    requires Arrangement(columns)
    ensures var row, header := WriteRow(l, digits, columns), HeaderRow(columns);
            && Cell(row, header, HOUSEHOLD) == Some(l.title) && Cell(row, header, ADULTS) == Some(Joined(l.adults))
            && Cell(row, header, CHILDREN) == Some(Joined(l.children)) && Cell(row, header, ADDITIONAL) == Some(digits(l.additional))
  {
    CellsFound(l, digits, columns, 0);
    CellsFound(l, digits, columns, 1);
    CellsFound(l, digits, columns, 2);
    CellsFound(l, digits, columns, 3);
    assert COLUMNS[0] == HOUSEHOLD && COLUMNS[1] == ADULTS && COLUMNS[2] == CHILDREN && COLUMNS[3] == ADDITIONAL;
  }

  lemma MadeAsListed(l: Listing)
    requires Writable(l)
    ensures Made(Trim(l.title), Names(Some(Joined(l.adults))), Names(Some(Joined(l.children))), l.additional) == Ok(Listed(l))
  {
    NamesComeBack(l.adults);
    NamesComeBack(l.children);
    TrimIsIdentity(l.title);
  }

  lemma RowComesBack(number: NumberReader, digits: NumberWriter, l: Listing, columns: seq<nat>)
    requires Arrangement(columns) && Writable(l) && ReadsWhatItWrites(number, digits)
    ensures ReadRow(number, HeaderRow(columns), WriteRow(l, digits, columns)) == Ok(Listed(l))
  {
    FourCellsFound(l, digits, columns);
    AdditionalComesBack(number, digits, l.additional);
    MadeAsListed(l);
  }

  lemma AdditionalComesBack(number: NumberReader, digits: NumberWriter, n: nat)
    requires n <= 10 && ReadsWhatItWrites(number, digits)
    ensures Additional(number, Some(digits(n))) == Ok(n)
  {
    TrimIsIdentity(digits(n));
  }

  lemma {:induction false} RowsComeBack(number: NumberReader, digits: NumberWriter, ls: seq<Listing>, columns: seq<nat>)
    requires Arrangement(columns) && ReadsWhatItWrites(number, digits) && forall i :: 0 <= i < |ls| ==> Writable(ls[i])
    ensures |WriteRows(ls, digits, columns)| == |ls|
    ensures ReadRows(number, HeaderRow(columns), WriteRows(ls, digits, columns)) == Ok(AllListed(ls))
    decreases |ls|
  {
    if ls == [] {
      assert AllListed(ls) == [] && WriteRows(ls, digits, columns) == [];
    } else {
      RowComesBack(number, digits, ls[0], columns);
      RowNotBlank(digits, ls[0], columns);
      RowsComeBack(number, digits, ls[1..], columns);
      var row, rows := WriteRow(ls[0], digits, columns), WriteRows(ls[1..], digits, columns);
      ListedMore(ls);
      assert WriteRows(ls, digits, columns) == [row] + rows;
    }
  }

  lemma ListedMore(ls: seq<Listing>)
    requires ls != []
    ensures AllListed(ls) == [Listed(ls[0])] + AllListed(ls[1..])
  {
  }

  ghost predicate AllUnguarded(rows: seq<Row>) {
    forall i :: 0 <= i < |rows| ==> rows[i] != [] && Unguarded(rows[i])
  }

  lemma {:induction false} RowsUnguarded(number: NumberReader, digits: NumberWriter, ls: seq<Listing>, columns: seq<nat>)
    requires Arrangement(columns) && ReadsWhatItWrites(number, digits) && forall i :: 0 <= i < |ls| ==> Writable(ls[i])
    ensures AllUnguarded(WriteRows(ls, digits, columns))
    decreases |ls|
  {
    if ls != [] {
      RowsUnguarded(number, digits, ls[1..], columns);
    }
  }

  lemma {:induction false} CellsQuoted(row: Row)
    requires row != []
    ensures |JoinCells(row)| >= 2 && JoinCells(row)[0] == QUOTE && JoinCells(row)[|JoinCells(row)| - 1] == QUOTE
    decreases |row|
  {
    if |row| > 1 {
      CellsQuoted(row[1..]);
    }
  }

  lemma {:induction false} ExportQuoted(table: seq<Row>)
    requires Exportable(table)
    ensures Export(table) != [] && Export(table)[0] == QUOTE && Export(table)[|Export(table)| - 1] == QUOTE
    decreases |table|
  {
    CellsQuoted(table[0]);
    if |table| > 1 {
      ExportQuoted(table[1..]);
    }
  }

  lemma TableComesBack(table: seq<Row>)
    requires table != [] && AllUnguarded(table)
    ensures Exportable(table) && Parsed(Trim(Export(table))) == Ok(table)
  {
    ExportQuoted(table);
    TrimIsIdentity(Export(table));
    ExportRoundTrip(table);
    var rows := Parsed(Export(table)).value;
    forall i | 0 <= i < |table| ensures rows[i] == table[i] {
      assert Unguarded(table[i]) && |rows[i]| == |table[i]|;
      forall j | 0 <= j < |rows[i]| ensures rows[i][j] == table[i][j] {
      }
    }
    assert rows == table;
  }

  lemma HeaderHasColumns(columns: seq<nat>)
    requires Arrangement(columns)
    ensures HasColumns(HeaderRow(columns))
  {
    forall i: nat | i < 4 ensures COLUMNS[i] in HeaderRow(columns) {
      var j := Placed(columns, i);
      assert HeaderRow(columns)[j] == COLUMNS[i];
    }
  }

  /** Households written with the export's own cells are read back as they were, with the four
      columns in any order. */
  lemma WrittenHouseholdsComeBack(number: NumberReader, digits: NumberWriter, ls: seq<Listing>, columns: seq<nat>)
    requires Arrangement(columns) && ReadsWhatItWrites(number, digits)
    requires |ls| <= 500 && forall i :: 0 <= i < |ls| ==> Writable(ls[i])
    ensures var table := [HeaderRow(columns)] + WriteRows(ls, digits, columns);
            Exportable(table) && ParseHouseholds(number, Export(table)) == Ok(AllListed(ls))
  {
    var rows := WriteRows(ls, digits, columns);
    HeaderUnchanged(columns);
    HeaderHasColumns(columns);
    RowsUnguarded(number, digits, ls, columns);
    TableComesBack([HeaderRow(columns)] + rows);
    RowsComeBack(number, digits, ls, columns);
    assert ([HeaderRow(columns)] + rows)[1..] == rows;
  }
}
