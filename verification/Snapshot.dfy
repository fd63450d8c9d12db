/** The snapshot whose content hash an invitation version carries: what its schema admits
    (lib/invitation/config.ts, lib/products/content.ts, lib/products/presentation.ts), and why its
    hash stands for its content. */
module Snapshot {

  import opened Texts
  import opened StableJson
  import opened KeyOrder
  import opened JsonText
  import opened Wrappers

  // ----- Shapes of parsed values -----

  predicate Letter(c: char) { 'a' <= c <= 'z' || 'A' <= c <= 'Z' }

  /** The name of a field, in ASCII letters. */
  type Name = s: string | s != "" && forall i :: 0 <= i < |s| ==> Letter(s[i]) witness "a"

  function Units(name: Name): Text {
    seq(|name|, i requires 0 <= i < |name| => name[i] as int)
  }

  /** A strict object schema admits exactly its fields; an optional one may be missing or undefined. */
  datatype Field = Field(name: Name, shape: Shape, optional: bool)

  datatype Shape =
    | Chars
    | Numeral
    | Flag
    | List(element: Shape)
    | Record(fields: seq<Field>)

  /** What a schema of this shape lets through, its limits and enumerations aside. */
  ghost predicate Conforms(shape: Shape, v: Json)
    decreases shape
  {
    match shape
    case Chars => v.Str?
    case Numeral => v.Num?
    case Flag => v.Bool?
    case List(element) => v.Arr? && forall i :: 0 <= i < |v.items| ==> Conforms(element, v.items[i])
    case Record(fields) =>
      && v.Obj? && DistinctKeys(v.entries)
      && (forall f :: 0 <= f < |fields| && !fields[f].optional ==> Units(fields[f].name) in Keys(v.entries))
      && (forall i :: 0 <= i < |v.entries| ==>
            exists f :: 0 <= f < |fields| && v.entries[i].key == Units(fields[f].name)
                     && (Conforms(fields[f].shape, v.entries[i].value)
                         || (fields[f].optional && v.entries[i].value == Undefined)))
  }

  // ----- Conforming values can be hashed -----

  ghost predicate Word(t: Text) {
    exists name: Name :: t == Units(name)
  }

  /** No two words of ASCII letters compare equal. */
  ghost predicate TellsWordsApart(le: Order) {
    forall k, k' :: Word(k) && Word(k') && k != k' ==> Before(le, k, k') || Before(le, k', k)
  }

  /** All that the hash asks of a value. */
  ghost predicate Hashable(le: Order, v: Json) {
    IsValue(v) && NoLoneUndefined(v) && KeysApart(le, v)
  }

  lemma HashableItems(le: Order, items: seq<Json>)
    requires forall i :: 0 <= i < |items| ==> Hashable(le, items[i])
    ensures AreValues(items) && NoneLone(items) && AllKeysApart(le, items)
  {
    if items != [] { HashableItems(le, items[1..]); }
  }

  lemma HashableMembers(le: Order, entries: seq<Entry>)
    requires forall i :: 0 <= i < |entries| ==> Hashable(le, entries[i].value)
    ensures AreMembers(entries) && NoMemberLone(entries) && MembersKeysApart(le, entries)
  {
    if entries != [] { HashableMembers(le, entries[1..]); }
  }

  lemma KeysAreOfEntries(entries: seq<Entry>, k: Text) returns (i: nat)
    requires k in Keys(entries)
    ensures i < |entries| && entries[i].key == k
  {
    if entries[0].key == k {
      i := 0;
    } else {
      i := KeysAreOfEntries(entries[1..], k);
      i := i + 1;
    }
  }

  lemma WordsApart(le: Order, entries: seq<Entry>)
    requires TellsWordsApart(le)
    requires forall i :: 0 <= i < |entries| ==> Word(entries[i].key)
    ensures Apart(le, Keys(entries))
  {
    forall k | k in Keys(entries) ensures Word(k) {
      var i := KeysAreOfEntries(entries, k);
    }
  }

  lemma {:induction false} ConformingIsHashable(le: Order, shape: Shape, v: Json)
    requires TellsWordsApart(le) && Conforms(shape, v)
    ensures Hashable(le, v) && v != Undefined
    decreases shape
  {
    match shape
    case List(element) =>
      forall i | 0 <= i < |v.items| ensures Hashable(le, v.items[i]) && v.items[i] != Undefined {
        ConformingIsHashable(le, element, v.items[i]);
      }
      HashableItems(le, v.items);
    case Record(fields) =>
      forall i | 0 <= i < |v.entries| ensures Hashable(le, v.entries[i].value) && Word(v.entries[i].key) {
        var f :| 0 <= f < |fields| && v.entries[i].key == Units(fields[f].name)
              && (Conforms(fields[f].shape, v.entries[i].value)
                  || (fields[f].optional && v.entries[i].value == Undefined));
        if v.entries[i].value != Undefined { ConformingIsHashable(le, fields[f].shape, v.entries[i].value); }
      }
      HashableMembers(le, v.entries);
      WordsApart(le, v.entries);
    case _ =>
  }

  // ----- The snapshot's schema -----

  function Required(name: Name, shape: Shape): Field { Field(name, shape, false) }

  function Optional(name: Name, shape: Shape): Field { Field(name, shape, true) }

  const PRESENTATION := Record([Required("palette", Chars), Required("ornaments", Chars), Required("fit", Chars)])

  const PLACEMENT := Record([
    Required("id", Chars), Required("assetKey", Chars), Required("anchor", Chars),
    Required("x", Numeral), Required("y", Numeral), Required("scale", Numeral),
    Required("rotation", Numeral), Required("zIndex", Numeral), Required("hidden", Flag)])

  const SCENE := Record([
    Required("id", Chars), Required("label", Chars), Required("modules", List(Chars)),
    Required("layoutVariant", Chars), Required("interactionPreset", Chars), Required("assets", List(PLACEMENT))])

  const VERSIONS := [
    Required("schemaVersion", Numeral), Required("themeVersion", Chars), Required("rendererVersion", Chars)]

  const STYLE := [Required("typography", Chars), Required("animationIntensity", Chars)]

  const SCENES := [Optional("productPresentation", PRESENTATION), Required("scenes", List(SCENE))]

  const CONFIG := Record(VERSIONS + STYLE + SCENES)

  const CHAPTER := Record([Required("title", Chars), Required("copy", Chars)])

  const ENTOURAGE := Record([Required("id", Chars), Required("title", Chars), Required("members", List(Chars))])

  const MOMENT := Record([
    Required("id", Chars), Required("time", Chars), Required("title", Chars), Required("detail", Chars)])

  const WEDDING := Record([
    Required("preferredNames", List(Chars)), Required("monogram", Chars),
    Required("storyChapters", List(CHAPTER)), Required("entourage", List(ENTOURAGE)),
    Required("program", List(MOMENT))])

  const PRODUCT := Record([
    Required("slug", Chars), Required("designVersion", Numeral), Required("dateIso", Chars),
    Required("timezone", Chars), Required("weddingDetails", WEDDING)])

  const ACTIVITY := Record([
    Required("id", Chars), Optional("kind", Chars), Required("label", Chars), Required("timeLabel", Chars),
    Required("venueName", Chars), Required("address", Chars), Required("mapUrl", Chars)])

  const PARTICIPANT := Record([Required("roleLabel", Chars), Required("displayName", Chars)])

  const PHOTO := Record([Required("mediaId", Chars), Required("alt", Chars)])

  const MEDIA := Record([Required("gallery", List(PHOTO))])

  const HEADING := [
    Required("version", Numeral), Required("slug", Chars), Required("eventType", Chars), Required("title", Chars)]

  const WORDING := [
    Optional("secondaryName", Chars), Required("hostWording", Chars), Required("dateLabel", Chars),
    Required("rsvpDeadlineLabel", Chars)]

  const PROGRAM := [Required("activities", List(ACTIVITY)), Required("participants", List(PARTICIPANT))]

  const NOTES := [Optional("story", Chars), Optional("dressCode", Chars), Optional("giftInformation", Chars)]

  const DESIGN := [Required("media", MEDIA), Optional("product", PRODUCT), Required("config", CONFIG)]

  const SNAPSHOT := Record(HEADING + WORDING + PROGRAM + NOTES + DESIGN)

  /** Neither failure of the printer reaches a compiled snapshot: under a comparison that tells
      words of letters apart, its hash stands for its exact content, whatever the order of keys. */
  lemma SnapshotHashStandsForContent<D>(le: Order, digest: Text -> D, a: Json, b: Json)
    requires forall t, t' :: WellFormed(t) && WellFormed(t') && digest(t) == digest(t') ==> t == t'
    requires Linear(le) && TellsWordsApart(le) && Conforms(SNAPSHOT, a) && Conforms(SNAPSHOT, b)
    ensures StableStringify(le, a).Some? && StableStringify(le, b).Some?
    ensures digest(StableStringify(le, a).value) == digest(StableStringify(le, b).value) <==> Means(a, false) == Means(b, false)
    ensures OrderNeverShows(le, a)
  {
    ConformingIsHashable(le, SNAPSHOT, a);
    ConformingIsHashable(le, SNAPSHOT, b);
    HashStandsForContent(le, digest, a, b);
    OrderNeverShowsExactlyWhenKeysApart(le, a);
  }
}
