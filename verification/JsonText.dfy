/** The text behind a content hash is well-formed: hashing encodes it as UTF-8, which would merge
    texts with unpaired surrogates (lib/invitation/compiler.ts:53, section 8.2 of RFC 8259). */
module JsonText {

  import opened Wrappers
  import opened Texts
  import opened StableJson

  /** No control characters, and surrogates only in pairs of a high and a low one. */
  predicate WellFormed(t: Text) {
    if t == [] then true
    else if 0xD800 <= t[0] < 0xDC00 then |t| > 1 && 0xDC00 <= t[1] < 0xE000 && WellFormed(t[2..])
    else !(0xDC00 <= t[0] < 0xE000) && t[0] >= 32 && WellFormed(t[1..])
  }

  lemma {:induction false} WellFormedJoin(a: Text, b: Text)
    requires WellFormed(a) && WellFormed(b)
    ensures WellFormed(a + b)
    decreases |a|
  {
    if a == [] {
      assert a + b == b;
    } else if 0xD800 <= a[0] < 0xDC00 {
      WellFormedJoin(a[2..], b);
      assert (a + b)[2..] == a[2..] + b;
    } else {
      WellFormedJoin(a[1..], b);
      assert (a + b)[1..] == a[1..] + b;
    }
  }

  predicate Plain(t: Text) { forall i :: 0 <= i < |t| ==> 32 <= t[i] < 0xD800 }

  lemma {:induction false} PlainIsWellFormed(t: Text)
    requires Plain(t)
    ensures WellFormed(t)
  {
    if t != [] {
      PlainIsWellFormed(t[1..]);
    }
  }

  lemma EscapedUnitIsWellFormed(u: Unit)
    ensures WellFormed(EscapeUnit(u))
  {
    if ShortEscape(u).Some? || u < 32 || HighSurrogate(u) || LowSurrogate(u) {
      HexDigits(u);
      PlainIsWellFormed(EscapeUnit(u));
    } else {
      assert [u][1..] == [];
    }
  }

  lemma {:induction false} EscapedIsWellFormed(s: Text)
    ensures WellFormed(Escape(s))
    decreases |s|
  {
    if s == [] {
    } else if StartsPair(s) {
      EscapedIsWellFormed(s[2..]);
      assert ([s[0], s[1]] + Escape(s[2..]))[2..] == Escape(s[2..]);
    } else {
      EscapedIsWellFormed(s[1..]);
      EscapedUnitIsWellFormed(s[0]);
      WellFormedJoin(EscapeUnit(s[0]), Escape(s[1..]));
    }
  }

  lemma QuotedIsWellFormed(s: Text)
    ensures WellFormed(Quoted(s))
  {
    EscapedIsWellFormed(s);
    Enclosed(34, Escape(s), 34);
  }

  lemma Enclosed(open: Unit, inner: Text, close: Unit)
    requires WellFormed(inner) && Plain([open]) && Plain([close])
    ensures WellFormed([open] + inner + [close])
  {
    PlainIsWellFormed([open]);
    PlainIsWellFormed([close]);
    WellFormedJoin([open], inner);
    WellFormedJoin([open] + inner, [close]);
  }

  lemma Between(a: Text, sign: Unit, b: Text)
    requires WellFormed(a) && WellFormed(b) && Plain([sign])
    ensures WellFormed(a + [sign] + b)
  {
    PlainIsWellFormed([sign]);
    WellFormedJoin(a, [sign]);
    WellFormedJoin(a + [sign], b);
  }

  /** Whatever is printed, control characters and lone surrogates are escaped. */
  lemma {:induction false} PrintedIsWellFormed(le: Order, v: Json)
    ensures StableStringify(le, v).Some? ==> WellFormed(StableStringify(le, v).value)
    decreases Size(v), 0
  {
    match v
    case Num(token) =>
      assert forall i :: 0 <= i < |token| ==> token[i] in token;
      PlainIsWellFormed(token);
    case Str(s) => QuotedIsWellFormed(s);
    case Arr(items) =>
      ItemsAreWellFormed(le, items);
      Enclosed(91, JoinItems(le, items), 93);
    case Obj(entries) =>
      SizeSort(le, entries);
      EntriesAreWellFormed(le, Sort(le, entries));
      Enclosed(123, JoinEntries(le, Sort(le, entries)), 125);
    case _ => WordsAreWellFormed();
  }

  lemma WordsAreWellFormed()
    ensures WellFormed(NULL) && WellFormed(TRUE) && WellFormed(FALSE) && WellFormed(UNDEFINED)
  {
    PlainIsWellFormed(NULL);
    PlainIsWellFormed(TRUE);
    PlainIsWellFormed(FALSE);
    PlainIsWellFormed(UNDEFINED);
  }

  lemma {:induction false} ItemsAreWellFormed(le: Order, items: seq<Json>)
    ensures WellFormed(JoinItems(le, items))
    decreases SizeAll(items), 1
  {
    if items != [] {
      PrintedIsWellFormed(le, items[0]);
      if |items| > 1 {
        ItemsAreWellFormed(le, items[1..]);
        Between(ItemText(le, items[0]), 44, JoinItems(le, items[1..]));
      }
    }
  }

  lemma {:induction false} EntriesAreWellFormed(le: Order, entries: seq<Entry>)
    ensures WellFormed(JoinEntries(le, entries))
    decreases SizeEntries(entries), 1
  {
    if entries != [] {
      var key, value := Quoted(entries[0].key), Printed(le, entries[0].value);
      PrintedIsWellFormed(le, entries[0].value);
      WordsAreWellFormed();
      QuotedIsWellFormed(entries[0].key);
      Between(key, 58, value);
      if |entries| > 1 {
        EntriesAreWellFormed(le, entries[1..]);
        Between(key + [58] + value, 44, JoinEntries(le, entries[1..]));
      }
    }
  }

  /** A digest that tells well-formed texts apart tells printed values apart, as exactly as their texts do. */
  lemma HashStandsForContent<D>(le: Order, digest: Text -> D, a: Json, b: Json)
    requires forall t, t' :: WellFormed(t) && WellFormed(t') && digest(t) == digest(t') ==> t == t'
    requires Linear(le) && IsValue(a) && IsValue(b) && KeysApart(le, a) && KeysApart(le, b)
    requires NoLoneUndefined(a) && NoLoneUndefined(b) && a != Undefined && b != Undefined
    ensures digest(StableStringify(le, a).value) == digest(StableStringify(le, b).value) <==> Means(a, false) == Means(b, false)
  {
    PrintedIsWellFormed(le, a);
    PrintedIsWellFormed(le, b);
    SameTextExactlyWhenSameValue(le, a, b);
    NothingBlurred(a);
    NothingBlurred(b);
  }

  /** The units of a printed number. */
  lemma NumbersAreOf(u: Unit)
    ensures InNumber(u) <==> '0' as int <= u <= '9' as int || u in {'+' as int, '-' as int, '.' as int, 'E' as int, 'e' as int}
  {
  }

  /** The four words, spelled out. */
  lemma WordsAre()
    ensures NULL == Spelled("null") && TRUE == Spelled("true") && FALSE == Spelled("false") && UNDEFINED == Spelled("undefined")
  {
  }

  function Spelled(s: string): Text { seq(|s|, i requires 0 <= i < |s| => s[i] as int % 0x1_0000) }
}
