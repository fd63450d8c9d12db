/** stableStringify, whose SHA-256 stands for the content of an invitation version
    (lib/invitation/compiler.ts). */
module StableJson {

  import opened Texts
  import opened Wrappers

  predicate InNumber(u: Unit) { 48 <= u <= 57 || u in {43, 45, 46, 69, 101} }

  /** The text JavaScript prints for a finite number stands for the number. */
  type Number = t: Text | t != [] && forall u :: u in t ==> InNumber(u) witness [48]

  datatype Json =
    | Undefined
    | Null
    | Bool(b: bool)
    | Num(token: Number)
    | Str(s: Text)
    | Arr(items: seq<Json>)
    | Obj(entries: seq<Entry>)

  datatype Entry = Entry(key: Text, value: Json)

  const NULL: Text := [110, 117, 108, 108]
  const TRUE: Text := [116, 114, 117, 101]
  const FALSE: Text := [102, 97, 108, 115, 101]
  const UNDEFINED: Text := [117, 110, 100, 101, 102, 105, 110, 101, 100]

  // ----- JSON.stringify of a string (section 7 of RFC 8259) -----

  predicate HighSurrogate(u: Unit) { 0xD800 <= u <= 0xDBFF }

  predicate LowSurrogate(u: Unit) { 0xDC00 <= u <= 0xDFFF }

  function HexDigit(n: nat): Unit
    requires n < 16
  {
    if n < 10 then 48 + n else 87 + n
  }

  /** The letter after the backslash of a short escape, if the unit has one. */
  function ShortEscape(u: Unit): Option<Unit> {
    match u
    case 8 => Some(98)
    case 9 => Some(116)
    case 10 => Some(110)
    case 12 => Some(102)
    case 13 => Some(114)
    case 34 => Some(34)
    case 92 => Some(92)
    case _ => None
  }

  function EscapeUnit(u: Unit): Text {
    match ShortEscape(u)
    case Some(letter) => [92, letter]
    case None =>
      if u < 32 || HighSurrogate(u) || LowSurrogate(u) then
        [92, 117, HexDigit(u / 4096), HexDigit(u / 256 % 16), HexDigit(u / 16 % 16), HexDigit(u % 16)]
      else [u]
  }

  /** Surrogates that pair up are printed as they are, lone ones are escaped. */
  function Escape(s: Text): Text {
    if s == [] then []
    else if HighSurrogate(s[0]) && |s| > 1 && LowSurrogate(s[1]) then [s[0], s[1]] + Escape(s[2..])
    else EscapeUnit(s[0]) + Escape(s[1..])
  }

  function Quoted(s: Text): Text { [34] + Escape(s) + [34] }

  // ----- The printer -----

  type Order = (Text, Text) -> bool

  /** Array.prototype.sort by key is stable. */
  function Insert(le: Order, e: Entry, sorted: seq<Entry>): (r: seq<Entry>)
    ensures multiset(r) == multiset(sorted) + multiset{e}
  {
    if sorted == [] || le(e.key, sorted[0].key) then [e] + sorted
    else
      assert sorted == [sorted[0]] + sorted[1..];
      [sorted[0]] + Insert(le, e, sorted[1..])
  }

  function Sort(le: Order, entries: seq<Entry>): (r: seq<Entry>)
    ensures multiset(r) == multiset(entries)
  {
    if entries == [] then []
    else
      assert entries == [entries[0]] + entries[1..];
      Insert(le, entries[0], Sort(le, entries[1..]))
  }

  function Size(v: Json): nat {
    match v
    case Arr(items) => 1 + SizeAll(items)
    case Obj(entries) => 1 + SizeEntries(entries)
    case _ => 1
  }

  function SizeAll(items: seq<Json>): nat {
    if items == [] then 0 else 1 + Size(items[0]) + SizeAll(items[1..])
  }

  function SizeEntries(entries: seq<Entry>): nat {
    if entries == [] then 0 else 1 + Size(entries[0].value) + SizeEntries(entries[1..])
  }

  lemma SizeInsert(le: Order, e: Entry, sorted: seq<Entry>)
    ensures SizeEntries(Insert(le, e, sorted)) == 1 + Size(e.value) + SizeEntries(sorted)
  {
    if sorted == [] || le(e.key, sorted[0].key) {
      assert ([e] + sorted)[1..] == sorted;
    } else {
      SizeInsert(le, e, sorted[1..]);
      assert Insert(le, e, sorted)[1..] == Insert(le, e, sorted[1..]);
    }
  }

  lemma {:induction false} SizeSort(le: Order, entries: seq<Entry>)
    ensures SizeEntries(Sort(le, entries)) == SizeEntries(entries)
  {
    if entries != [] {
      SizeSort(le, entries[1..]);
      SizeInsert(le, entries[0], Sort(le, entries[1..]));
    }
  }

  /** What the function returns: JSON.stringify(undefined) is not a string. */
  function StableStringify(le: Order, v: Json): Option<Text>
    decreases Size(v)
  {
    match v
    case Undefined => None
    case Null => Some(NULL)
    case Bool(b) => Some(if b then TRUE else FALSE)
    case Num(token) => Some(token)
    case Str(s) => Some(Quoted(s))
    case Arr(items) => Some([91] + JoinItems(le, items) + [93])
    case Obj(entries) =>
      SizeSort(le, entries);
      Some([123] + JoinEntries(le, Sort(le, entries)) + [125])
  }

  /** Array.prototype.join prints an undefined element as nothing. */
  function JoinItems(le: Order, items: seq<Json>): Text
    decreases SizeAll(items)
  {
    if items == [] then []
    else
      var first := match StableStringify(le, items[0]) case Some(t) => t case None => [];
      if |items| == 1 then first else first + [44] + JoinItems(le, items[1..])
  }

  /** A template literal prints an undefined value as the word. */
  function JoinEntries(le: Order, entries: seq<Entry>): Text
    decreases SizeEntries(entries)
  {
    if entries == [] then []
    else
      var value := match StableStringify(le, entries[0].value) case Some(t) => t case None => UNDEFINED;
      var first := Quoted(entries[0].key) + [58] + value;
      if |entries| == 1 then first else first + [44] + JoinEntries(le, entries[1..])
  }

  // ----- A reader for the printed text -----

  function HexValue(u: Unit): Option<nat> {
    if 48 <= u <= 57 then Some(u - 48) else if 97 <= u <= 102 then Some(u - 87) else None
  }

  function ShortUnescape(letter: Unit): Option<Unit> {
    match letter
    case 98 => Some(8)
    case 116 => Some(9)
    case 110 => Some(10)
    case 102 => Some(12)
    case 114 => Some(13)
    case 34 => Some(34)
    case 92 => Some(92)
    case _ => None
  }

  /** One unit of string content and the text after it. */
  function ReadUnit(t: Text): (r: Option<(Unit, Text)>)
    ensures r.Some? ==> |r.value.1| < |t|
  {
    if t == [] then None
    else if t[0] != 92 then Some((t[0], t[1..]))
    else if |t| < 2 then None
    else if t[1] != 117 then
      match ShortUnescape(t[1]) case Some(u) => Some((u, t[2..])) case None => None
    else if |t| < 6 then None
    else
      match (HexValue(t[2]), HexValue(t[3]), HexValue(t[4]), HexValue(t[5]))
      case (Some(a), Some(b), Some(c), Some(d)) => Some((4096 * a + 256 * b + 16 * c + d, t[6..]))
      case _ => None
  }

  /** String content up to the closing quote, and the text after that quote. */
  function ReadString(t: Text): (r: Option<(Text, Text)>)
    ensures r.Some? ==> |r.value.1| < |t|
    decreases |t|
  {
    if t == [] then None
    else if t[0] == 34 then Some(([], t[1..]))
    else
      match ReadUnit(t)
      case None => None
      case Some((u, rest)) =>
        match ReadString(rest) case None => None case Some((s, rest')) => Some(([u] + s, rest'))
  }

  function NumberLength(t: Text): (n: nat)
    ensures n <= |t| && (forall i :: 0 <= i < n ==> InNumber(t[i])) && (n < |t| ==> !InNumber(t[n]))
  {
    if t == [] || !InNumber(t[0]) then 0 else 1 + NumberLength(t[1..])
  }

  function Read(t: Text): (r: Option<(Json, Text)>)
    ensures r.Some? ==> |r.value.1| < |t|
    decreases |t|, 0
  {
    if t == [] then None
    else if t[0] == 34 then
      match ReadString(t[1..]) case None => None case Some((s, rest)) => Some((Str(s), rest))
    else if t[0] == 91 then
      if |t| > 1 && t[1] == 93 then Some((Arr([]), t[2..]))
      else match ReadItems(t[1..]) case None => None case Some((items, rest)) => Some((Arr(items), rest))
    else if t[0] == 123 then
      if |t| > 1 && t[1] == 125 then Some((Obj([]), t[2..]))
      else match ReadEntries(t[1..]) case None => None case Some((entries, rest)) => Some((Obj(entries), rest))
    else if NULL <= t then Some((Null, t[4..]))
    else if TRUE <= t then Some((Bool(true), t[4..]))
    else if FALSE <= t then Some((Bool(false), t[5..]))
    else if UNDEFINED <= t then Some((Undefined, t[9..]))
    else
      var n := NumberLength(t);
      if n == 0 then None else Some((Num(t[..n]), t[n..]))
  }

  function ReadItems(t: Text): (r: Option<(seq<Json>, Text)>)
    ensures r.Some? ==> |r.value.1| < |t|
    decreases |t|, 1
  {
    var item: Option<(Json, Text)> := if t != [] && t[0] in {44, 93} then Some((Undefined, t)) else Read(t);
    match item
    case None => None
    case Some((v, rest)) =>
      if rest == [] then None
      else if rest[0] == 93 then Some(([v], rest[1..]))
      else if rest[0] != 44 then None
      else match ReadItems(rest[1..]) case None => None case Some((vs, rest')) => Some(([v] + vs, rest'))
  }

  function ReadEntries(t: Text): (r: Option<(seq<Entry>, Text)>)
    ensures r.Some? ==> |r.value.1| < |t|
    decreases |t|, 1
  {
    if t == [] || t[0] != 34 then None
    else
      match ReadString(t[1..])
      case None => None
      case Some((key, rest)) =>
        if rest == [] || rest[0] != 58 then None
        else
          match Read(rest[1..])
          case None => None
          case Some((v, rest')) =>
            if rest' == [] then None
            else if rest'[0] == 125 then Some(([Entry(key, v)], rest'[1..]))
            else if rest'[0] != 44 then None
            else
              match ReadEntries(rest'[1..])
              case None => None
              case Some((es, rest'')) => Some(([Entry(key, v)] + es, rest''))
  }

  // ----- Reading what was printed -----

  /** The tree the text determines: keys sorted, and an array of one undefined printed as empty. */
  function Canonical(le: Order, v: Json): Json
    decreases Size(v)
  {
    match v
    case Arr(items) => if items == [Undefined] then Arr([]) else Arr(CanonicalAll(le, items))
    case Obj(entries) =>
      SizeSort(le, entries);
      Obj(CanonicalEntries(le, Sort(le, entries)))
    case _ => v
  }

  function CanonicalAll(le: Order, items: seq<Json>): (r: seq<Json>)
    ensures |r| == |items|
    decreases SizeAll(items)
  {
    if items == [] then [] else [Canonical(le, items[0])] + CanonicalAll(le, items[1..])
  }

  function CanonicalEntries(le: Order, entries: seq<Entry>): (r: seq<Entry>)
    ensures |r| == |entries|
    decreases SizeEntries(entries)
  {
    if entries == [] then []
    else [Entry(entries[0].key, Canonical(le, entries[0].value))] + CanonicalEntries(le, entries[1..])
  }

  function Printed(le: Order, v: Json): Text {
    match StableStringify(le, v) case Some(t) => t case None => UNDEFINED
  }

  predicate Delimited(rest: Text) { rest == [] || rest[0] in {44, 93, 125} }

  lemma HexDigits(u: Unit)
    ensures u == 4096 * (u / 4096) + 256 * (u / 256 % 16) + 16 * (u / 16 % 16) + u % 16
    ensures u / 4096 < 16
  {
    assert u / 256 == 16 * (u / 4096) + u / 256 % 16;
    assert u / 16 == 16 * (u / 256) + u / 16 % 16;
  }

  lemma ReadEscapedUnit(u: Unit, rest: Text)
    ensures ReadUnit(EscapeUnit(u) + rest) == Some((u, rest))
    ensures EscapeUnit(u)[0] != 34
  {
    var t := EscapeUnit(u) + rest;
    if ShortEscape(u).Some? {
      assert t[2..] == rest;
    } else if u < 32 || HighSurrogate(u) || LowSurrogate(u) {
      HexDigits(u);
      var a, b, c, d := u / 4096, u / 256 % 16, u / 16 % 16, u % 16;
      assert t == [92, 117, HexDigit(a), HexDigit(b), HexDigit(c), HexDigit(d)] + rest;
      assert t[6..] == rest;
      assert HexValue(t[2]) == Some(a) && HexValue(t[3]) == Some(b);
      assert HexValue(t[4]) == Some(c) && HexValue(t[5]) == Some(d);
    } else {
      assert t[1..] == rest;
    }
  }

  /** Two raw units read from a string that does not end there. */
  lemma ReadStringPair(t: Text, u: Unit, w: Unit, tail: Text, s: Text, rest: Text)
    requires u !in {34, 92} && w !in {34, 92} && t == [u, w] + tail && ReadString(tail) == Some((s, rest))
    ensures ReadString(t) == Some(([u, w] + s, rest))
  {
    var second := [w] + tail;
    assert second[1..] == tail && t[1..] == second;
    assert [u] + ([w] + s) == [u, w] + s;
  }

  predicate StartsPair(s: Text) { |s| > 1 && HighSurrogate(s[0]) && LowSurrogate(s[1]) }

  lemma ReadEscapedPair(s: Text, rest: Text)
    requires StartsPair(s) && ReadString(Escape(s[2..]) + [34] + rest) == Some((s[2..], rest))
    ensures ReadString(Escape(s) + [34] + rest) == Some((s, rest))
  {
    var tail := Escape(s[2..]) + [34] + rest;
    assert Escape(s) + [34] + rest == [s[0], s[1]] + tail;
    ReadStringPair([s[0], s[1]] + tail, s[0], s[1], tail, s[2..], rest);
    assert s == [s[0], s[1]] + s[2..];
  }

  lemma ReadEscapedSingle(s: Text, rest: Text)
    requires s != [] && !StartsPair(s) && ReadString(Escape(s[1..]) + [34] + rest) == Some((s[1..], rest))
    ensures ReadString(Escape(s) + [34] + rest) == Some((s, rest))
  {
    var head, tail := EscapeUnit(s[0]), Escape(s[1..]) + [34] + rest;
    assert Escape(s) == head + Escape(s[1..]);
    assert Escape(s) + [34] + rest == head + tail;
    ReadEscapedUnit(s[0], tail);
    assert (head + tail)[0] == head[0];
    assert s == [s[0]] + s[1..];
  }

  lemma {:induction false} ReadEscaped(s: Text, rest: Text)
    ensures ReadString(Escape(s) + [34] + rest) == Some((s, rest))
    decreases |s|
  {
    if s == [] {
      assert (Escape(s) + [34] + rest)[1..] == rest;
    } else if StartsPair(s) {
      ReadEscaped(s[2..], rest);
      ReadEscapedPair(s, rest);
    } else {
      ReadEscaped(s[1..], rest);
      ReadEscapedSingle(s, rest);
    }
  }

  lemma ReadQuoted(s: Text, rest: Text)
    ensures var t := Quoted(s) + rest; t[0] == 34 && ReadString(t[1..]) == Some((s, rest))
  {
    ReadEscaped(s, rest);
    assert (Quoted(s) + rest)[1..] == Escape(s) + [34] + rest;
  }

  lemma {:induction false} NumberLengthExact(token: Text, rest: Text)
    requires (forall u :: u in token ==> InNumber(u)) && (rest == [] || !InNumber(rest[0]))
    ensures NumberLength(token + rest) == |token|
    decreases |token|
  {
    if token == [] {
      assert token + rest == rest;
    } else {
      assert (token + rest)[1..] == token[1..] + rest;
      assert token[0] in token;
      NumberLengthExact(token[1..], rest);
    }
  }

  /** The four words. */
  lemma ReadWord(le: Order, v: Json, rest: Text)
    requires v.Undefined? || v.Null? || v.Bool?
    ensures Read(Printed(le, v) + rest) == Some((v, rest))
  {
    match v
    case Undefined =>
      assert (UNDEFINED + rest)[9..] == rest;
      assert Read(UNDEFINED + rest) == Some((v, rest));
    case Null =>
      assert (NULL + rest)[4..] == rest;
      assert Read(NULL + rest) == Some((v, rest));
    case Bool(b) => ReadBool(b, rest);
  }

  lemma ReadBool(b: bool, rest: Text)
    ensures Read((if b then TRUE else FALSE) + rest) == Some((Bool(b), rest))
  {
    if b { assert (TRUE + rest)[4..] == rest; } else { assert (FALSE + rest)[5..] == rest; }
  }

  lemma ReadNumber(le: Order, token: Number, rest: Text)
    requires Delimited(rest)
    ensures Read(token + rest) == Some((Num(token), rest))
  {
    var t := token + rest;
    NumberLengthExact(token, rest);
    assert token[0] in token && t[0] == token[0];
    assert t[..|token|] == token && t[|token|..] == rest;
  }

  lemma ReadStringLeaf(s: Text, rest: Text)
    ensures Read(Quoted(s) + rest) == Some((Str(s), rest))
  {
    ReadQuoted(s, rest);
  }

  /** The reader recovers the canonical tree from the text followed by any delimiter. */
  lemma {:induction false} ReadPrinted(le: Order, v: Json, rest: Text)
    requires Delimited(rest)
    ensures Read(Printed(le, v) + rest) == Some((Canonical(le, v), rest))
    decreases Size(v), 0
  {
    match v
    case Num(token) => ReadNumber(le, token, rest);
    case Str(s) => ReadStringLeaf(s, rest);
    case Arr(items) => ReadPrintedArray(le, items, rest);
    case Obj(entries) => ReadPrintedObject(le, entries, rest);
    case _ => ReadWord(le, v, rest);
  }

  lemma {:induction false} ReadPrintedArray(le: Order, items: seq<Json>, rest: Text)
    ensures Read(Printed(le, Arr(items)) + rest) == Some((Canonical(le, Arr(items)), rest))
    decreases SizeAll(items), 2
  {
    if items == [] || items == [Undefined] {
      ReadPrintedEmpty(le, items, rest);
    } else {
      var t, inner := Printed(le, Arr(items)) + rest, JoinItems(le, items) + [93] + rest;
      assert t == [91] + inner;
      assert t[1..] == inner;
      ReadPrintedItems(le, items, rest);
    }
  }

  lemma ReadPrintedEmpty(le: Order, items: seq<Json>, rest: Text)
    requires items == [] || items == [Undefined]
    ensures Read(Printed(le, Arr(items)) + rest) == Some((Canonical(le, Arr(items)), rest))
  {
    if items == [Undefined] { assert items[0] == Undefined && |items| == 1; }
    assert JoinItems(le, items) == [];
    var t := Printed(le, Arr(items)) + rest;
    assert t == [91, 93] + rest;
    assert t[2..] == rest;
  }

  lemma {:induction false} ReadPrintedObject(le: Order, entries: seq<Entry>, rest: Text)
    ensures Read(Printed(le, Obj(entries)) + rest) == Some((Canonical(le, Obj(entries)), rest))
    decreases SizeEntries(entries), 2
  {
    SizeSort(le, entries);
    var sorted := Sort(le, entries);
    if sorted != [] { ReadPrintedEntries(le, sorted, rest); }
    ReadBraces(le, sorted, rest);
    Braces(JoinEntries(le, sorted), rest);
  }

  lemma Braces(inner: Text, rest: Text)
    ensures ([123] + inner + [125]) + rest == [123] + (inner + [125] + rest)
  {
  }

  lemma ReadBraces(le: Order, sorted: seq<Entry>, rest: Text)
    requires sorted != [] ==>
               ReadEntries(JoinEntries(le, sorted) + [125] + rest) == Some((CanonicalEntries(le, sorted), rest))
    ensures Read([123] + (JoinEntries(le, sorted) + [125] + rest)) == Some((Obj(CanonicalEntries(le, sorted)), rest))
  {
    var inner := JoinEntries(le, sorted) + [125] + rest;
    var t := [123] + inner;
    assert t[1..] == inner;
    if sorted == [] {
      assert inner == [125] + rest;
      assert t[2..] == rest;
    } else {
      assert JoinEntries(le, sorted)[0] == 34;
    }
  }

  /** The text of one array element, as join prints it. */
  function ItemText(le: Order, v: Json): Text {
    match StableStringify(le, v) case Some(t) => t case None => []
  }

  lemma ReadItemText(le: Order, v: Json, more: Text)
    requires Delimited(more) && more != [] && more[0] != 125
    requires v != Undefined ==> Read(Printed(le, v) + more) == Some((Canonical(le, v), more))
    ensures var t := ItemText(le, v) + more;
            (if t[0] in {44, 93} then Some((Undefined, t)) else Read(t)) == Some((Canonical(le, v), more))
  {
    if v == Undefined {
      assert ItemText(le, v) + more == more;
    } else {
    }
  }

  /** The elements' text split at the first element. */
  lemma JoinedItemsSplit(le: Order, items: seq<Json>, rest: Text)
    requires items != []
    ensures JoinItems(le, items) + [93] + rest == ItemText(le, items[0]) + AfterItem(le, items, rest)
  {
  }

  /** What follows the first element in the text of a non-empty array. */
  function AfterItem(le: Order, items: seq<Json>, rest: Text): Text
    requires items != []
  {
    if |items| == 1 then [93] + rest else [44] + (JoinItems(le, items[1..]) + [93] + rest)
  }

  lemma {:induction false} ReadPrintedItems(le: Order, items: seq<Json>, rest: Text)
    requires items != []
    ensures ReadItems(JoinItems(le, items) + [93] + rest) == Some((CanonicalAll(le, items), rest))
    decreases SizeAll(items), 1
  {
    var v, more := items[0], AfterItem(le, items, rest);
    if v != Undefined { ReadPrinted(le, v, more); }
    if |items| > 1 { ReadPrintedItems(le, items[1..], rest); }
    ReadItemText(le, v, more);
    JoinedItemsSplit(le, items, rest);
    assert |items| == 1 ==> CanonicalAll(le, items) == [Canonical(le, v)];
  }

  /** One member read from an object's text. */
  lemma ReadMember(le: Order, e: Entry, more: Text, t: Text)
    requires more != [] && Read(Printed(le, e.value) + more) == Some((Canonical(le, e.value), more))
    requires t == Quoted(e.key) + ([58] + (Printed(le, e.value) + more))
    ensures t[0] == 34 && ReadString(t[1..]) == Some((e.key, [58] + (Printed(le, e.value) + more)))
    ensures Read(([58] + (Printed(le, e.value) + more))[1..]) == Some((Canonical(le, e.value), more))
  {
    var after := [58] + (Printed(le, e.value) + more);
    ReadQuoted(e.key, after);
    assert after[1..] == Printed(le, e.value) + more;
  }

  /** What follows the first member in the text of a non-empty object. */
  function AfterEntry(le: Order, entries: seq<Entry>, rest: Text): Text
    requires entries != []
  {
    if |entries| == 1 then [125] + rest else [44] + (JoinEntries(le, entries[1..]) + [125] + rest)
  }

  lemma Reassociate(key: Text, value: Text, others: Text, rest: Text)
    ensures key + [58] + value + [125] + rest == key + ([58] + (value + ([125] + rest)))
    ensures key + [58] + value + [44] + others + [125] + rest
         == key + ([58] + (value + ([44] + (others + [125] + rest))))
  {
  }

  lemma JoinedEntriesSplit(le: Order, entries: seq<Entry>, rest: Text)
    requires entries != []
    ensures JoinEntries(le, entries) + [125] + rest
         == Quoted(entries[0].key) + ([58] + (Printed(le, entries[0].value) + AfterEntry(le, entries, rest)))
  {
    var key, value := Quoted(entries[0].key), Printed(le, entries[0].value);
    if |entries| == 1 {
      assert JoinEntries(le, entries) == key + [58] + value;
      Reassociate(key, value, [], rest);
    } else {
      var others := JoinEntries(le, entries[1..]);
      assert JoinEntries(le, entries) == key + [58] + value + [44] + others;
      Reassociate(key, value, others, rest);
    }
  }

  lemma {:induction false} ReadPrintedEntries(le: Order, entries: seq<Entry>, rest: Text)
    requires entries != []
    ensures ReadEntries(JoinEntries(le, entries) + [125] + rest) == Some((CanonicalEntries(le, entries), rest))
    decreases SizeEntries(entries), 1
  {
    var e, more := entries[0], AfterEntry(le, entries, rest);
    ReadPrinted(le, e.value, more);
    if |entries| > 1 { ReadPrintedEntries(le, entries[1..], rest); }
    JoinedEntriesSplit(le, entries, rest);
    var t := JoinEntries(le, entries) + [125] + rest;
    ReadMember(le, e, more, t);
    assert |entries| == 1 ==> CanonicalEntries(le, entries) == [Entry(e.key, Canonical(le, e.value))];
  }

  // ----- What the text stands for -----

  /** A value up to the order of object keys. */
  datatype Meaning =
    | MUndefined
    | MNull
    | MBool(b: bool)
    | MNum(token: Number)
    | MStr(s: Text)
    | MArr(items: seq<Meaning>)
    | MObj(members: map<Text, Meaning>)

  /** With `blur`, an array of one undefined is not told from the empty array. */
  function Means(v: Json, blur: bool): Meaning {
    match v
    case Undefined => MUndefined
    case Null => MNull
    case Bool(b) => MBool(b)
    case Num(token) => MNum(token)
    case Str(s) => MStr(s)
    case Arr(items) => if blur && items == [Undefined] then MArr([]) else MArr(MeansAll(items, blur))
    case Obj(entries) => MObj(MeansEntries(entries, blur))
  }

  function MeansAll(items: seq<Json>, blur: bool): seq<Meaning> {
    if items == [] then [] else [Means(items[0], blur)] + MeansAll(items[1..], blur)
  }

  function MeansEntries(entries: seq<Entry>, blur: bool): (m: map<Text, Meaning>)
    ensures m.Keys == Keys(entries)
  {
    if entries == [] then map[]
    else MeansEntries(entries[1..], blur)[entries[0].key := Means(entries[0].value, blur)]
  }

  function Keys(entries: seq<Entry>): set<Text> {
    if entries == [] then {} else {entries[0].key} + Keys(entries[1..])
  }

  predicate DistinctKeys(entries: seq<Entry>) {
    entries == [] || (entries[0].key !in Keys(entries[1..]) && DistinctKeys(entries[1..]))
  }

  /** A JavaScript object has each key once. */
  ghost predicate IsValue(v: Json)
    decreases Size(v)
  {
    match v
    case Arr(items) => AreValues(items)
    case Obj(entries) => DistinctKeys(entries) && AreMembers(entries)
    case _ => true
  }

  ghost predicate AreValues(items: seq<Json>)
    decreases SizeAll(items)
  {
    items == [] || (IsValue(items[0]) && AreValues(items[1..]))
  }

  ghost predicate AreMembers(entries: seq<Entry>)
    decreases SizeEntries(entries)
  {
    entries == [] || (IsValue(entries[0].value) && AreMembers(entries[1..]))
  }

  predicate Before(le: Order, k: Text, k': Text) { le(k, k') && !le(k', k) }

  ghost predicate Linear(le: Order) {
    && (forall k, k' :: le(k, k') || le(k', k))
    && (forall k, k', k'' :: le(k, k') && le(k', k'') ==> le(k, k''))
  }

  ghost predicate Apart(le: Order, keys: set<Text>) {
    forall k, k' :: k in keys && k' in keys && k != k' ==> Before(le, k, k') || Before(le, k', k)
  }

  /** No two keys of one object compare equal. */
  ghost predicate KeysApart(le: Order, v: Json)
    decreases Size(v)
  {
    match v
    case Arr(items) => AllKeysApart(le, items)
    case Obj(entries) => Apart(le, Keys(entries)) && MembersKeysApart(le, entries)
    case _ => true
  }

  ghost predicate AllKeysApart(le: Order, items: seq<Json>)
    decreases SizeAll(items)
  {
    items == [] || (KeysApart(le, items[0]) && AllKeysApart(le, items[1..]))
  }

  ghost predicate MembersKeysApart(le: Order, entries: seq<Entry>)
    decreases SizeEntries(entries)
  {
    entries == [] || (KeysApart(le, entries[0].value) && MembersKeysApart(le, entries[1..]))
  }

  // ----- Sorting keeps the members -----

  lemma InsertKeepsKeys(le: Order, e: Entry, sorted: seq<Entry>)
    requires DistinctKeys(sorted) && e.key !in Keys(sorted)
    ensures Keys(Insert(le, e, sorted)) == Keys(sorted) + {e.key} && DistinctKeys(Insert(le, e, sorted))
  {
    if sorted == [] || le(e.key, sorted[0].key) {
      assert ([e] + sorted)[1..] == sorted;
    } else {
      InsertKeepsKeys(le, e, sorted[1..]);
      assert Insert(le, e, sorted)[1..] == Insert(le, e, sorted[1..]);
    }
  }

  lemma UpdatesCommute(m: map<Text, Meaning>, k: Text, x: Meaning, k': Text, x': Meaning)
    requires k != k'
    ensures m[k := x][k' := x'] == m[k' := x'][k := x]
  {
  }

  lemma MeansHead(e: Entry, entries: seq<Entry>, blur: bool)
    ensures MeansEntries([e] + entries, blur) == MeansEntries(entries, blur)[e.key := Means(e.value, blur)]
  {
    assert ([e] + entries)[1..] == entries;
  }

  lemma InsertKeepsMeaning(le: Order, e: Entry, sorted: seq<Entry>, blur: bool)
    requires e.key !in Keys(sorted)
    ensures MeansEntries(Insert(le, e, sorted), blur) == MeansEntries(sorted, blur)[e.key := Means(e.value, blur)]
  {
    if sorted == [] || le(e.key, sorted[0].key) {
      MeansHead(e, sorted, blur);
    } else {
      var head, tail := sorted[0], sorted[1..];
      InsertKeepsMeaning(le, e, tail, blur);
      MeansHead(head, Insert(le, e, tail), blur);
      UpdatesCommute(MeansEntries(tail, blur), e.key, Means(e.value, blur), head.key, Means(head.value, blur));
    }
  }

  lemma InsertKeepsMembers(le: Order, e: Entry, sorted: seq<Entry>)
    ensures IsValue(e.value) && AreMembers(sorted) ==> AreMembers(Insert(le, e, sorted))
    ensures KeysApart(le, e.value) && MembersKeysApart(le, sorted) ==> MembersKeysApart(le, Insert(le, e, sorted))
  {
    if sorted == [] || le(e.key, sorted[0].key) {
      assert ([e] + sorted)[1..] == sorted;
    } else {
      InsertKeepsMembers(le, e, sorted[1..]);
      assert Insert(le, e, sorted)[1..] == Insert(le, e, sorted[1..]);
    }
  }

  lemma InsertKeeps(le: Order, e: Entry, sorted: seq<Entry>, blur: bool)
    requires DistinctKeys(sorted) && e.key !in Keys(sorted)
    ensures var r := Insert(le, e, sorted);
            && Keys(r) == Keys(sorted) + {e.key} && DistinctKeys(r)
            && MeansEntries(r, blur) == MeansEntries(sorted, blur)[e.key := Means(e.value, blur)]
            && (IsValue(e.value) && AreMembers(sorted) ==> AreMembers(r))
            && (KeysApart(le, e.value) && MembersKeysApart(le, sorted) ==> MembersKeysApart(le, r))
  {
    InsertKeepsKeys(le, e, sorted);
    InsertKeepsMeaning(le, e, sorted, blur);
    InsertKeepsMembers(le, e, sorted);
  }

  lemma {:induction false} SortKeeps(le: Order, entries: seq<Entry>, blur: bool)
    requires DistinctKeys(entries)
    ensures var r := Sort(le, entries);
            && Keys(r) == Keys(entries) && DistinctKeys(r)
            && MeansEntries(r, blur) == MeansEntries(entries, blur)
            && (AreMembers(entries) ==> AreMembers(r))
            && (MembersKeysApart(le, entries) ==> MembersKeysApart(le, r))
  {
    if entries != [] {
      SortKeeps(le, entries[1..], blur);
      InsertKeeps(le, entries[0], Sort(le, entries[1..]), blur);
    }
  }

  ghost predicate Ascending(le: Order, entries: seq<Entry>) {
    entries == [] ||
    ((forall k :: k in Keys(entries[1..]) ==> Before(le, entries[0].key, k)) && Ascending(le, entries[1..]))
  }

  lemma {:induction false} InsertAscends(le: Order, e: Entry, sorted: seq<Entry>)
    requires Linear(le) && Ascending(le, sorted) && DistinctKeys(sorted) && e.key !in Keys(sorted)
    requires Apart(le, Keys(sorted) + {e.key})
    ensures Ascending(le, Insert(le, e, sorted))
    decreases |sorted|
  {
    if sorted == [] {
      assert Insert(le, e, sorted)[1..] == [];
    } else if le(e.key, sorted[0].key) {
      assert ([e] + sorted)[1..] == sorted;
      assert Before(le, e.key, sorted[0].key);
    } else {
      InsertKeeps(le, e, sorted[1..], true);
      InsertAscends(le, e, sorted[1..]);
      assert Insert(le, e, sorted)[1..] == Insert(le, e, sorted[1..]);
      assert Before(le, sorted[0].key, e.key);
    }
  }

  lemma {:induction false} SortAscends(le: Order, entries: seq<Entry>)
    requires Linear(le) && DistinctKeys(entries) && Apart(le, Keys(entries))
    ensures Ascending(le, Sort(le, entries))
  {
    if entries != [] {
      SortAscends(le, entries[1..]);
      SortKeeps(le, entries[1..], true);
      InsertAscends(le, entries[0], Sort(le, entries[1..]));
    }
  }

  // ----- The canonical tree and the value determine each other -----

  lemma {:induction false} CanonicalMeans(le: Order, v: Json)
    requires IsValue(v)
    ensures Means(Canonical(le, v), true) == Means(v, true)
    decreases Size(v), 0
  {
    match v
    case Arr(items) =>
      if items != [Undefined] {
        CanonicalMeansAll(le, items);
      }
    case Obj(entries) =>
      SizeSort(le, entries);
      SortKeeps(le, entries, true);
      CanonicalMeansEntries(le, Sort(le, entries));
    case _ =>
  }

  lemma {:induction false} CanonicalMeansAll(le: Order, items: seq<Json>)
    requires AreValues(items)
    ensures MeansAll(CanonicalAll(le, items), true) == MeansAll(items, true)
    decreases SizeAll(items), 1
  {
    if items != [] {
      CanonicalMeans(le, items[0]);
      CanonicalMeansAll(le, items[1..]);
    }
  }

  lemma {:induction false} CanonicalMeansEntries(le: Order, entries: seq<Entry>)
    requires AreMembers(entries)
    ensures MeansEntries(CanonicalEntries(le, entries), true) == MeansEntries(entries, true)
    decreases SizeEntries(entries), 1
  {
    if entries != [] {
      CanonicalMeans(le, entries[0].value);
      CanonicalMeansEntries(le, entries[1..]);
    }
  }

  lemma {:induction false} MeaningFixesCanonical(le: Order, a: Json, b: Json)
    requires Linear(le) && IsValue(a) && IsValue(b) && KeysApart(le, a) && KeysApart(le, b)
    requires Means(a, true) == Means(b, true)
    ensures Canonical(le, a) == Canonical(le, b)
    decreases Size(a), 0
  {
    match a
    case Arr(items) =>
      MeaningFixesItems(le, if items == [Undefined] then [] else items,
                        if b.items == [Undefined] then [] else b.items);
    case Obj(entries) =>
      SizeSort(le, entries);
      SortKeeps(le, entries, true);
      SortKeeps(le, b.entries, true);
      SortAscends(le, entries);
      SortAscends(le, b.entries);
      MeaningFixesEntries(le, Sort(le, entries), Sort(le, b.entries));
    case _ =>
  }

  lemma {:induction false} MeaningFixesItems(le: Order, a: seq<Json>, b: seq<Json>)
    requires Linear(le) && AreValues(a) && AreValues(b) && AllKeysApart(le, a) && AllKeysApart(le, b)
    requires MeansAll(a, true) == MeansAll(b, true)
    ensures CanonicalAll(le, a) == CanonicalAll(le, b)
    decreases SizeAll(a), 1
  {
    if a != [] {
      assert MeansAll(a, true)[0] == MeansAll(b, true)[0];
      assert MeansAll(a, true)[1..] == MeansAll(b, true)[1..];
      MeaningFixesCanonical(le, a[0], b[0]);
      MeaningFixesItems(le, a[1..], b[1..]);
    }
  }

  lemma WithoutHead(entries: seq<Entry>, blur: bool)
    requires entries != [] && DistinctKeys(entries)
    ensures MeansEntries(entries[1..], blur) == MeansEntries(entries, blur) - {entries[0].key}
  {
  }

  lemma {:induction false} MeaningFixesEntries(le: Order, a: seq<Entry>, b: seq<Entry>)
    requires Linear(le) && DistinctKeys(a) && DistinctKeys(b) && Ascending(le, a) && Ascending(le, b)
    requires AreMembers(a) && AreMembers(b) && MembersKeysApart(le, a) && MembersKeysApart(le, b)
    requires MeansEntries(a, true) == MeansEntries(b, true)
    ensures CanonicalEntries(le, a) == CanonicalEntries(le, b)
    decreases SizeEntries(a), 1
  {
    assert Keys(a) == Keys(b);
    if a != [] {
      assert a[0].key in Keys(b) && b != [] && b[0].key in Keys(a);
      assert a[0].key == b[0].key;
      var k, m := a[0].key, MeansEntries(a, true);
      assert m[k] == Means(a[0].value, true) == Means(b[0].value, true);
      MeaningFixesCanonical(le, a[0].value, b[0].value);
      WithoutHead(a, true);
      WithoutHead(b, true);
      MeaningFixesEntries(le, a[1..], b[1..]);
    } else {
      assert b == [];
    }
  }

  // ----- The text stands for the value -----

  /** Whatever the comparison, equal texts come only from equal values. */
  lemma TextDeterminesValue(le: Order, a: Json, b: Json)
    requires IsValue(a) && IsValue(b) && StableStringify(le, a) == StableStringify(le, b)
    ensures Means(a, true) == Means(b, true)
  {
    ReadPrinted(le, a, []);
    ReadPrinted(le, b, []);
    CanonicalMeans(le, a);
    CanonicalMeans(le, b);
  }

  lemma {:induction false} CanonicalDeterminesText(le: Order, a: Json, b: Json)
    requires Canonical(le, a) == Canonical(le, b)
    ensures StableStringify(le, a) == StableStringify(le, b)
    decreases Size(a), 0
  {
    match a
    case Arr(items) =>
      assert JoinItems(le, [Undefined]) == JoinItems(le, []);
      if items != [Undefined] && b.items != [Undefined] { CanonicalDeterminesItems(le, items, b.items); }
    case Obj(entries) =>
      SizeSort(le, entries);
      CanonicalDeterminesEntries(le, Sort(le, entries), Sort(le, b.entries));
    case _ =>
  }

  lemma {:induction false} CanonicalDeterminesItems(le: Order, a: seq<Json>, b: seq<Json>)
    requires CanonicalAll(le, a) == CanonicalAll(le, b)
    ensures JoinItems(le, a) == JoinItems(le, b)
    decreases SizeAll(a), 1
  {
    if a != [] {
      assert CanonicalAll(le, a)[0] == CanonicalAll(le, b)[0];
      assert CanonicalAll(le, a)[1..] == CanonicalAll(le, b)[1..];
      CanonicalDeterminesText(le, a[0], b[0]);
      CanonicalDeterminesItems(le, a[1..], b[1..]);
    }
  }

  lemma {:induction false} CanonicalDeterminesEntries(le: Order, a: seq<Entry>, b: seq<Entry>)
    requires CanonicalEntries(le, a) == CanonicalEntries(le, b)
    ensures JoinEntries(le, a) == JoinEntries(le, b)
    decreases SizeEntries(a), 1
  {
    if a != [] {
      assert CanonicalEntries(le, a)[0] == CanonicalEntries(le, b)[0];
      assert CanonicalEntries(le, a)[1..] == CanonicalEntries(le, b)[1..];
      CanonicalDeterminesText(le, a[0].value, b[0].value);
      CanonicalDeterminesEntries(le, a[1..], b[1..]);
    }
  }

  /** Two values print the same text exactly when they are equal up to key order,
      where [undefined] and [] count as one. */
  lemma SameTextExactlyWhenSameValue(le: Order, a: Json, b: Json)
    requires Linear(le) && IsValue(a) && IsValue(b) && KeysApart(le, a) && KeysApart(le, b)
    ensures StableStringify(le, a) == StableStringify(le, b) <==> Means(a, true) == Means(b, true)
  {
    if StableStringify(le, a) == StableStringify(le, b) {
      TextDeterminesValue(le, a, b);
    } else if Means(a, true) == Means(b, true) {
      MeaningFixesCanonical(le, a, b);
      CanonicalDeterminesText(le, a, b);
    }
  }

  /** No array of exactly one undefined anywhere, as in everything a JSON document can hold. */
  ghost predicate NoLoneUndefined(v: Json)
    decreases Size(v)
  {
    match v
    case Arr(items) => items != [Undefined] && NoneLone(items)
    case Obj(entries) => NoMemberLone(entries)
    case _ => true
  }

  ghost predicate NoneLone(items: seq<Json>)
    decreases SizeAll(items)
  {
    items == [] || (NoLoneUndefined(items[0]) && NoneLone(items[1..]))
  }

  ghost predicate NoMemberLone(entries: seq<Entry>)
    decreases SizeEntries(entries)
  {
    entries == [] || (NoLoneUndefined(entries[0].value) && NoMemberLone(entries[1..]))
  }

  lemma {:induction false} NothingBlurred(v: Json)
    requires NoLoneUndefined(v)
    ensures Means(v, true) == Means(v, false)
    decreases Size(v), 0
  {
    match v
    case Arr(items) => NothingBlurredAll(items);
    case Obj(entries) => NothingBlurredEntries(entries);
    case _ =>
  }

  lemma {:induction false} NothingBlurredAll(items: seq<Json>)
    requires NoneLone(items)
    ensures MeansAll(items, true) == MeansAll(items, false)
    decreases SizeAll(items), 1
  {
    if items != [] {
      NothingBlurred(items[0]);
      NothingBlurredAll(items[1..]);
    }
  }

  lemma {:induction false} NothingBlurredEntries(entries: seq<Entry>)
    requires NoMemberLone(entries)
    ensures MeansEntries(entries, true) == MeansEntries(entries, false)
    decreases SizeEntries(entries), 1
  {
    if entries != [] {
      NothingBlurred(entries[0].value);
      NothingBlurredEntries(entries[1..]);
    }
  }

  /** On such values a content hash, its digest being injective, stands for the exact value. */
  lemma ContentHashStandsForContent<D>(le: Order, digest: Option<Text> -> D, a: Json, b: Json)
    requires forall t, t' :: digest(t) == digest(t') ==> t == t'
    requires Linear(le) && IsValue(a) && IsValue(b) && KeysApart(le, a) && KeysApart(le, b)
    requires NoLoneUndefined(a) && NoLoneUndefined(b)
    ensures digest(StableStringify(le, a)) == digest(StableStringify(le, b)) <==> Means(a, false) == Means(b, false)
  {
    SameTextExactlyWhenSameValue(le, a, b);
    NothingBlurred(a);
    NothingBlurred(b);
  }

  /** Outside them the text is not injective: join drops the undefined element. */
  lemma LoneUndefinedPrintsAsEmpty(le: Order)
    ensures StableStringify(le, Arr([Undefined])) == StableStringify(le, Arr([]))
    ensures Means(Arr([Undefined]), false) != Means(Arr([]), false)
  {
    assert MeansAll([Undefined], false) != [];
  }

  lemma FirstOfTwo(le: Order, e: Entry, f: Entry)
    requires le(e.key, f.key)
    ensures Canonical(le, Obj([e, f])).Obj?
    ensures |Canonical(le, Obj([e, f])).entries| > 0 && Canonical(le, Obj([e, f])).entries[0].key == e.key
  {
    SizeSort(le, [e, f]);
    assert [e, f][1..] == [f] && [f][1..] == [];
    assert Sort(le, [f]) == [f];
    assert Sort(le, [e, f]) == [e] + [f];
  }

  lemma TwoMembers(e: Entry, f: Entry, blur: bool)
    ensures MeansEntries([e, f], blur) == map[f.key := Means(f.value, blur)][e.key := Means(e.value, blur)]
  {
    assert [e, f][1..] == [f] && [f][1..] == [];
  }

  lemma DifferentTexts(le: Order, a: Json, b: Json)
    requires Canonical(le, a) != Canonical(le, b)
    ensures StableStringify(le, a) != StableStringify(le, b)
  {
    ReadPrinted(le, a, []);
    ReadPrinted(le, b, []);
  }

  /** Two keys that compare equal keep their insertion order, and the text shows it. */
  lemma TiedKeysShowInsertionOrder(le: Order, e: Entry, f: Entry)
    requires e.key != f.key && le(e.key, f.key) && le(f.key, e.key)
    ensures StableStringify(le, Obj([e, f])) != StableStringify(le, Obj([f, e]))
    ensures Means(Obj([e, f]), false) == Means(Obj([f, e]), false)
  {
    FirstOfTwo(le, e, f);
    FirstOfTwo(le, f, e);
    DifferentTexts(le, Obj([e, f]), Obj([f, e]));
    TwoMembers(e, f, false);
    TwoMembers(f, e, false);
    UpdatesCommute(map[], e.key, Means(e.value, false), f.key, Means(f.value, false));
  }
}
