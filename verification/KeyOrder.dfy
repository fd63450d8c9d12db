/** Exactly when the text behind a content hash does not depend on the order in which keys were
    inserted (lib/invitation/compiler.ts:8-18). */
module KeyOrder {

  import opened Texts
  import opened StableJson

  // ----- What the meaning alone says about key order -----

  /** What is left of a meaning when an array of one undefined counts as the empty array. */
  ghost function Blurred(m: Meaning): Meaning {
    match m
    case MArr(items) => if items == [MUndefined] then MArr([]) else
        MArr(seq(|items|, i requires 0 <= i < |items| => Blurred(items[i])))
    case MObj(members) => MObj(map k | k in members :: Blurred(members[k]))
    case _ => m
  }

  /** No two keys of one object compare equal, told from the meaning. */
  ghost predicate MeansApart(le: Order, m: Meaning) {
    match m
    case MArr(items) => forall i :: 0 <= i < |items| ==> MeansApart(le, items[i])
    case MObj(members) => Apart(le, members.Keys) && forall k :: k in members ==> MeansApart(le, members[k])
    case _ => true
  }

  lemma MeansAllAt(items: seq<Json>, blur: bool)
    ensures |MeansAll(items, blur)| == |items|
    ensures forall i :: 0 <= i < |items| ==> MeansAll(items, blur)[i] == Means(items[i], blur)
  {
  }

  lemma OneUndefined(items: seq<Json>)
    ensures MeansAll(items, false) == [MUndefined] <==> items == [Undefined]
  {
    MeansAllAt(items, false);
    if |items| == 1 { assert items == [items[0]] && MeansAll(items, false) == [MeansAll(items, false)[0]]; }
  }

  lemma {:induction false} BlurredMeans(v: Json)
    ensures Means(v, true) == Blurred(Means(v, false))
    decreases Size(v), 0
  {
    match v
    case Arr(items) =>
      MeansAllAt(items, true);
      MeansAllAt(items, false);
      BlurredMeansAll(items);
      OneUndefined(items);
    case Obj(entries) => BlurredMeansEntries(entries);
    case _ =>
  }

  lemma {:induction false} BlurredMeansAll(items: seq<Json>)
    ensures forall i :: 0 <= i < |items| ==> Means(items[i], true) == Blurred(Means(items[i], false))
    decreases SizeAll(items), 1
  {
    if items != [] {
      BlurredMeans(items[0]);
      BlurredMeansAll(items[1..]);
    }
  }

  lemma {:induction false} BlurredMeansEntries(entries: seq<Entry>)
    ensures var m := MeansEntries(entries, false);
            MeansEntries(entries, true) == map k | k in m :: Blurred(m[k])
    decreases SizeEntries(entries), 1
  {
    if entries != [] {
      BlurredMeans(entries[0].value);
      BlurredMeansEntries(entries[1..]);
    }
  }

  lemma {:induction false} ApartMeans(le: Order, v: Json)
    requires IsValue(v)
    ensures KeysApart(le, v) <==> MeansApart(le, Means(v, false))
    decreases Size(v), 0
  {
    match v
    case Arr(items) =>
      MeansAllAt(items, false);
      ApartMeansAll(le, items);
    case Obj(entries) =>
      assert MeansEntries(entries, false).Keys == Keys(entries);
      ApartMeansEntries(le, entries);
    case _ =>
  }

  lemma {:induction false} ApartMeansAll(le: Order, items: seq<Json>)
    requires AreValues(items)
    ensures AllKeysApart(le, items) <==> forall i :: 0 <= i < |items| ==> MeansApart(le, Means(items[i], false))
    decreases SizeAll(items), 1
  {
    if items != [] {
      ApartMeans(le, items[0]);
      ApartMeansAll(le, items[1..]);
    }
  }

  ghost predicate EachApart(le: Order, m: map<Text, Meaning>) {
    forall k :: k in m ==> MeansApart(le, m[k])
  }

  lemma ApartUpdate(le: Order, m: map<Text, Meaning>, key: Text, x: Meaning)
    requires key !in m
    ensures EachApart(le, m[key := x]) <==> MeansApart(le, x) && EachApart(le, m)
  {
    var m' := m[key := x];
    assert m'[key] == x;
    assert forall k :: k in m ==> k in m' && m'[k] == m[k];
  }

  lemma {:induction false} ApartMeansEntries(le: Order, entries: seq<Entry>)
    requires DistinctKeys(entries) && AreMembers(entries)
    ensures MembersKeysApart(le, entries) <==> EachApart(le, MeansEntries(entries, false))
    decreases SizeEntries(entries), 1
  {
    if entries != [] {
      ApartMeans(le, entries[0].value);
      ApartMeansEntries(le, entries[1..]);
      var m, x := MeansEntries(entries[1..], false), Means(entries[0].value, false);
      ApartUpdate(le, m, entries[0].key, x);
      assert MeansEntries(entries, false) == m[entries[0].key := x];
    }
  }

  // ----- A tie between two keys shows -----

  /** Key `k` comes before key `k'` in the list. */
  predicate Precedes(entries: seq<Entry>, k: Text, k': Text) {
    entries != [] &&
    if entries[0].key == k then k' in Keys(entries[1..])
    else entries[0].key != k' && Precedes(entries[1..], k, k')
  }

  lemma PrecedesOneWay(entries: seq<Entry>, k: Text, k': Text)
    requires k != k' && Precedes(entries, k, k')
    ensures !Precedes(entries, k', k)
  {
  }

  lemma InsertedBefore(le: Order, e: Entry, sorted: seq<Entry>, k: Text)
    requires k in Keys(sorted) && e.key !in Keys(sorted) && le(e.key, k)
    ensures Precedes(Insert(le, e, sorted), e.key, k)
  {
    if le(e.key, sorted[0].key) {
      assert ([e] + sorted)[1..] == sorted;
    } else {
      InsertedBefore(le, e, sorted[1..], k);
      assert Insert(le, e, sorted)[1..] == Insert(le, e, sorted[1..]);
    }
  }

  lemma InsertKeepsPrecedes(le: Order, e: Entry, sorted: seq<Entry>, k: Text, k': Text)
    requires e.key != k && e.key != k' && e.key !in Keys(sorted) && DistinctKeys(sorted)
    requires Precedes(sorted, k, k')
    ensures Precedes(Insert(le, e, sorted), k, k')
  {
    if le(e.key, sorted[0].key) {
      assert ([e] + sorted)[1..] == sorted;
    } else {
      InsertKeepsKeys(le, e, sorted[1..]);
      if sorted[0].key != k { InsertKeepsPrecedes(le, e, sorted[1..], k, k'); }
      assert Insert(le, e, sorted)[1..] == Insert(le, e, sorted[1..]);
    }
  }

  /** Sorting is stable: of two keys that compare equal, the one inserted first comes first. */
  lemma {:induction false} SortIsStable(le: Order, entries: seq<Entry>, k: Text, k': Text)
    requires DistinctKeys(entries) && Precedes(entries, k, k') && k != k' && le(k, k')
    ensures Precedes(Sort(le, entries), k, k')
  {
    var e, rest := entries[0], entries[1..];
    SortKeeps(le, rest, false);
    if e.key == k {
      InsertedBefore(le, e, Sort(le, rest), k');
    } else {
      PrecedesHasBoth(rest, k, k');
      SortIsStable(le, rest, k, k');
      InsertKeepsPrecedes(le, e, Sort(le, rest), k, k');
    }
  }

  lemma PrecedesHasBoth(entries: seq<Entry>, k: Text, k': Text)
    requires Precedes(entries, k, k')
    ensures k in Keys(entries) && k' in Keys(entries)
  {
  }

  lemma CanonicalKeepsPrecedes(le: Order, entries: seq<Entry>, k: Text, k': Text)
    ensures Keys(CanonicalEntries(le, entries)) == Keys(entries)
    ensures Precedes(CanonicalEntries(le, entries), k, k') <==> Precedes(entries, k, k')
  {
    if entries != [] {
      CanonicalKeepsPrecedes(le, entries[1..], k, k');
      assert CanonicalEntries(le, entries)[1..] == CanonicalEntries(le, entries[1..]);
    }
  }

  /** The same members, inserted in another order. */
  ghost predicate SameMembers(a: seq<Entry>, b: seq<Entry>) {
    && Keys(a) == Keys(b) && DistinctKeys(a) && DistinctKeys(b)
    && (AreMembers(a) ==> AreMembers(b))
    && MeansEntries(a, false) == MeansEntries(b, false)
  }

  lemma MembersUnder(e: Entry, entries: seq<Entry>)
    ensures AreMembers([e] + entries) <==> IsValue(e.value) && AreMembers(entries)
  {
    assert ([e] + entries)[1..] == entries;
  }

  /** The first member inserted last instead. */
  lemma {:induction false} MovedToTheEnd(e: Entry, rest: seq<Entry>)
    requires DistinctKeys([e] + rest)
    ensures SameMembers([e] + rest, rest + [e])
    ensures forall k :: k in Keys(rest) ==> Precedes(rest + [e], k, e.key)
  {
    assert ([e] + rest)[1..] == rest;
    if rest == [] {
      assert [e] + rest == rest + [e];
    } else {
      var f, tail := rest[0], rest[1..];
      assert rest == [f] + tail && rest + [e] == [f] + (tail + [e]);
      assert ([e] + tail)[1..] == tail && (rest + [e])[1..] == tail + [e];
      MovedToTheEnd(e, tail);
      MembersUnder(e, rest);
      MembersUnder(e, tail);
      MembersUnder(f, tail + [e]);
      MeansHead(e, rest, false);
      MeansHead(e, tail, false);
      UpdatesCommute(MeansEntries(tail, false), e.key, Means(e.value, false), f.key, Means(f.value, false));
    }
  }

  ghost predicate Tied(le: Order, k: Text, k': Text) { k != k' && le(k, k') && le(k', k) }

  /** Whenever two keys tie, some other insertion order turns them round. */
  lemma {:induction false} TieTurns(le: Order, entries: seq<Entry>)
    returns (other: seq<Entry>, first: Text, second: Text)
    requires Linear(le) && DistinctKeys(entries) && !Apart(le, Keys(entries))
    ensures SameMembers(entries, other) && Tied(le, first, second)
    ensures Precedes(entries, first, second) && Precedes(other, second, first)
  {
    var e, rest := entries[0], entries[1..];
    assert entries == [e] + rest;
    if Apart(le, Keys(rest)) {
      first := e.key;
      second :| second in Keys(rest) && Tied(le, first, second);
      MovedToTheEnd(e, rest);
      other := rest + [e];
    } else {
      other, first, second := TieTurns(le, rest);
      PrecedesHasBoth(rest, first, second);
      assert ([e] + other)[1..] == other;
      other := [e] + other;
    }
  }

  lemma {:induction false} CanonicalKeepsTies(le: Order, entries: seq<Entry>, k: Text, k': Text)
    requires DistinctKeys(entries) && Tied(le, k, k') && Precedes(entries, k, k')
    ensures Canonical(le, Obj(entries)).Obj?
    ensures Precedes(Canonical(le, Obj(entries)).entries, k, k')
  {
    SizeSort(le, entries);
    SortIsStable(le, entries, k, k');
    CanonicalKeepsPrecedes(le, Sort(le, entries), k, k');
  }

  lemma {:induction false} TurnedTieShows(le: Order, entries: seq<Entry>) returns (other: seq<Entry>)
    requires Linear(le) && DistinctKeys(entries) && !Apart(le, Keys(entries))
    ensures SameMembers(entries, other)
    ensures Canonical(le, Obj(entries)) != Canonical(le, Obj(other))
  {
    var first, second;
    other, first, second := TieTurns(le, entries);
    CanonicalKeepsTies(le, entries, first, second);
    CanonicalKeepsTies(le, other, second, first);
    PrecedesOneWay(Canonical(le, Obj(entries)).entries, first, second);
  }

  // ----- A tie anywhere in a value shows -----

  /** The canonical members, whatever the order of sorting. */
  ghost function CanonicalMembers(le: Order, entries: seq<Entry>): multiset<Entry> {
    if entries == [] then multiset{}
    else CanonicalMembers(le, entries[1..]) + multiset{Entry(entries[0].key, Canonical(le, entries[0].value))}
  }

  lemma CanonicalMembersInsert(le: Order, e: Entry, sorted: seq<Entry>)
    ensures CanonicalMembers(le, Insert(le, e, sorted))
         == CanonicalMembers(le, sorted) + multiset{Entry(e.key, Canonical(le, e.value))}
  {
    if sorted == [] || le(e.key, sorted[0].key) {
      assert ([e] + sorted)[1..] == sorted;
    } else {
      CanonicalMembersInsert(le, e, sorted[1..]);
      assert Insert(le, e, sorted)[1..] == Insert(le, e, sorted[1..]);
    }
  }

  lemma CanonicalMembersSort(le: Order, entries: seq<Entry>)
    ensures CanonicalMembers(le, Sort(le, entries)) == CanonicalMembers(le, entries)
  {
    if entries != [] {
      CanonicalMembersSort(le, entries[1..]);
      CanonicalMembersInsert(le, entries[0], Sort(le, entries[1..]));
    }
  }

  lemma CanonicalMembersAre(le: Order, entries: seq<Entry>)
    ensures CanonicalMembers(le, entries) == multiset(CanonicalEntries(le, entries))
  {
  }

  /** Two objects with the same canonical tree have the same canonical members. */
  lemma CanonicalObjects(le: Order, a: seq<Entry>, b: seq<Entry>)
    requires Canonical(le, Obj(a)) == Canonical(le, Obj(b))
    ensures CanonicalMembers(le, a) == CanonicalMembers(le, b)
  {
    SizeSort(le, a);
    SizeSort(le, b);
    CanonicalMembersSort(le, a);
    CanonicalMembersSort(le, b);
    CanonicalMembersAre(le, Sort(le, a));
    CanonicalMembersAre(le, Sort(le, b));
  }

  lemma {:induction false} TurnedRound(le: Order, v: Json) returns (u: Json)
    requires Linear(le) && IsValue(v) && !KeysApart(le, v)
    ensures IsValue(u) && u != Undefined && Means(u, false) == Means(v, false)
    ensures Canonical(le, u) != Canonical(le, v)
    decreases Size(v), 0
  {
    match v
    case Arr(items) =>
      var others := TurnedRoundItem(le, items);
      u := Arr(others);
    case Obj(entries) =>
      if Apart(le, Keys(entries)) {
        var others := TurnedRoundMember(le, entries);
        u := Obj(others);
        if Canonical(le, u) == Canonical(le, v) { CanonicalObjects(le, others, entries); }
      } else {
        var others := TurnedTieShows(le, entries);
        u := Obj(others);
      }
  }

  lemma {:induction false} TurnedRoundItem(le: Order, items: seq<Json>) returns (others: seq<Json>)
    requires Linear(le) && AreValues(items) && !AllKeysApart(le, items)
    ensures AreValues(others) && MeansAll(others, false) == MeansAll(items, false)
    ensures others != [Undefined] && CanonicalAll(le, others) != CanonicalAll(le, items)
    decreases SizeAll(items), 1
  {
    if KeysApart(le, items[0]) {
      var rest := TurnedRoundItem(le, items[1..]);
      others := [items[0]] + rest;
      assert others[1..] == rest;
      assert CanonicalAll(le, others)[1..] == CanonicalAll(le, rest);
      assert CanonicalAll(le, items)[1..] == CanonicalAll(le, items[1..]);
    } else {
      var first := TurnedRound(le, items[0]);
      others := [first] + items[1..];
      assert others[1..] == items[1..];
      assert CanonicalAll(le, others)[0] == Canonical(le, first);
      assert CanonicalAll(le, items)[0] == Canonical(le, items[0]);
    }
  }

  lemma MultisetsDiffer(m: multiset<Entry>, n: multiset<Entry>, x: Entry, y: Entry)
    ensures m != n ==> m + multiset{x} != n + multiset{x}
    ensures x != y ==> m + multiset{x} != m + multiset{y}
  {
    assert m + multiset{x} - multiset{x} == m && n + multiset{x} - multiset{x} == n;
    if x != y { assert (m + multiset{x})[x] != (m + multiset{y})[x]; }
  }

  lemma OtherTail(le: Order, e: Entry, rest: seq<Entry>, tail: seq<Entry>)
    requires SameMembers(rest, tail) && e.key !in Keys(rest)
    requires CanonicalMembers(le, tail) != CanonicalMembers(le, rest)
    ensures SameMembers([e] + rest, [e] + tail) && CanonicalMembers(le, [e] + tail) != CanonicalMembers(le, [e] + rest)
  {
    var c := Entry(e.key, Canonical(le, e.value));
    MultisetsDiffer(CanonicalMembers(le, tail), CanonicalMembers(le, rest), c, c);
  }

  lemma OtherHead(le: Order, e: Entry, value: Json, rest: seq<Entry>)
    requires Canonical(le, value) != Canonical(le, e.value)
    ensures CanonicalMembers(le, [Entry(e.key, value)] + rest) != CanonicalMembers(le, [e] + rest)
  {
    var m := CanonicalMembers(le, rest);
    MultisetsDiffer(m, m, Entry(e.key, Canonical(le, value)), Entry(e.key, Canonical(le, e.value)));
  }

  lemma {:induction false} TurnedRoundMember(le: Order, entries: seq<Entry>) returns (others: seq<Entry>)
    requires Linear(le) && DistinctKeys(entries) && AreMembers(entries) && !MembersKeysApart(le, entries)
    ensures SameMembers(entries, others) && CanonicalMembers(le, others) != CanonicalMembers(le, entries)
    decreases SizeEntries(entries), 1
  {
    var e, rest := entries[0], entries[1..];
    assert entries == [e] + rest;
    if KeysApart(le, e.value) {
      var tail := TurnedRoundMember(le, rest);
      others := [e] + tail;
      OtherTail(le, e, rest, tail);
    } else {
      var value := TurnedRound(le, e.value);
      others := [Entry(e.key, value)] + rest;
      OtherHead(le, e, value, rest);
    }
  }

  // ----- Exactly when the insertion order does not show -----

  /** Every value equal to `v` up to the order of keys prints the text of `v`. */
  ghost predicate OrderNeverShows(le: Order, v: Json) {
    forall u :: IsValue(u) && Means(u, false) == Means(v, false) ==> StableStringify(le, u) == StableStringify(le, v)
  }

  lemma {:induction false} OrderNeverShowsExactlyWhenKeysApart(le: Order, v: Json)
    requires Linear(le) && IsValue(v)
    ensures OrderNeverShows(le, v) <==> KeysApart(le, v)
  {
    if KeysApart(le, v) {
      forall u | IsValue(u) && Means(u, false) == Means(v, false)
        ensures StableStringify(le, u) == StableStringify(le, v)
      {
        ApartMeans(le, u);
        ApartMeans(le, v);
        BlurredMeans(u);
        BlurredMeans(v);
        SameTextExactlyWhenSameValue(le, u, v);
      }
    } else {
      var u := TurnedRound(le, v);
      DifferentTexts(le, u, v);
    }
  }
}
