/** Drafts and events: a brief made from an event, and the event a brief completes to
    (lib/content/brief.ts, lib/domain/event.ts). */
module Brief {

  import opened Wrappers
  import opened Texts

  // ----- Events and drafts -----

  datatype Person = Person(displayName: Text, roleLabel: Text)

  datatype Kind = Ceremony | Reception | Program | Party

  datatype Activity = Activity(
    id: Text, kind: Kind, title: Text, startsAt: Text, venueName: Text, address: Text, mapUrl: Text)

  datatype TextKey = HostWording | Story | DressCode | GiftInformation

  datatype Variant =
    | Wedding(partner: Person, otherPartner: Person)
    | Birthday(celebrant: Person, displayedAge: Option<int>)
    | Debut(debutante: Person)
    | Christening(child: Person, guardians: seq<Person>)

  /** An event, whose optional texts may be missing, or a draft of one, which has all four. A
      draft's missing age is null. */
  datatype Event = Event(
    id: Text, timezone: Text, primaryLocalDate: Text, rsvpDeadline: Text, texts: map<TextKey, Text>,
    activities: seq<Activity>, participants: seq<Person>, variant: Variant)

  datatype MediaReference = MediaReference(mediaId: Text, alt: Text)

  /** Wedding details have a schema of their own and stand here for a parsed value. */
  datatype Document = Document(event: Event, gallery: seq<MediaReference>, weddingDetails: Option<nat>)

  /** The text formats, as the validation library and the calendar decide them. */
  datatype Formats = Formats(
    uuid: Text -> bool, timezone: Text -> bool, date: Text -> bool, dateTime: Text -> bool, httpsUrl: Text -> bool)

  datatype Error = SchemaError | DeadlineAfterDate

  const TEXT_KEYS: seq<TextKey> := [HostWording, Story, DressCode, GiftInformation]

  function MaxText(key: TextKey): nat {
    match key
    case HostWording => 260
    case Story => 2400
    case DressCode => 500
    case GiftInformation => 800
  }

  /** Order of texts by code unit, as `>` compares them. */
  predicate After(s: Text, t: Text) {
    if s == [] then false
    else if t == [] then true
    else s[0] > t[0] || (s[0] == t[0] && After(s[1..], t[1..]))
  }

  // ----- The draft schema -----

  function TrimPerson(p: Person): Person { Person(Trim(p.displayName), Trim(p.roleLabel)) }

  function TrimPeople(ps: seq<Person>): seq<Person> { seq(|ps|, i requires 0 <= i < |ps| => TrimPerson(ps[i])) }

  function TrimTexts(texts: map<TextKey, Text>): map<TextKey, Text> { map k | k in texts :: Trim(texts[k]) }

  function TrimVariant(v: Variant): Variant {
    match v
    case Wedding(a, b) => Wedding(TrimPerson(a), TrimPerson(b))
    case Birthday(c, age) => Birthday(TrimPerson(c), age)
    case Debut(d) => Debut(TrimPerson(d))
    case Christening(c, gs) => Christening(TrimPerson(c), TrimPeople(gs))
  }

  function TrimDraftActivity(a: Activity): Activity {
    Activity(a.id, a.kind, Trim(a.title), Trim(a.startsAt), Trim(a.venueName), Trim(a.address), Trim(a.mapUrl))
  }

  function TrimDraftActivities(list: seq<Activity>): seq<Activity> {
    seq(|list|, i requires 0 <= i < |list| => TrimDraftActivity(list[i]))
  }

  function TrimDraft(e: Event): Event {
    Event(e.id, Trim(e.timezone), Trim(e.primaryLocalDate), Trim(e.rsvpDeadline), TrimTexts(e.texts),
          TrimDraftActivities(e.activities),
          TrimPeople(e.participants), TrimVariant(e.variant))
  }

  predicate DraftPerson(p: Person) { |p.displayName| <= 120 && |p.roleLabel| <= 60 }

  predicate DraftActivity(f: Formats, a: Activity) {
    && f.uuid(a.id) && |a.title| <= 80 && |a.startsAt| <= 50 && |a.venueName| <= 160 && |a.address| <= 240 && |a.mapUrl| <= 2048
  }

  predicate ValidAge(age: Option<int>) { age.Some? ==> 1 <= age.value <= 150 }

  predicate DraftVariant(v: Variant) {
    match v
    case Wedding(a, b) => DraftPerson(a) && DraftPerson(b)
    case Birthday(c, age) => DraftPerson(c) && ValidAge(age)
    case Debut(d) => DraftPerson(d)
    case Christening(c, gs) => DraftPerson(c) && |gs| <= 4 && forall i :: 0 <= i < |gs| ==> DraftPerson(gs[i])
  }

  predicate TextsFit(texts: map<TextKey, Text>) {
    forall k :: k in texts ==> |texts[k]| <= MaxText(k)
  }

  predicate DraftEvent(f: Formats, e: Event) {
    && f.uuid(e.id) && |e.timezone| <= 80 && |e.primaryLocalDate| <= 10 && |e.rsvpDeadline| <= 10
    && (forall k :: k in TEXT_KEYS <==> k in e.texts) && TextsFit(e.texts)
    && |e.activities| <= 8 && (forall i :: 0 <= i < |e.activities| ==> DraftActivity(f, e.activities[i]))
    && |e.participants| <= 120 && (forall i :: 0 <= i < |e.participants| ==> DraftPerson(e.participants[i]))
    && DraftVariant(e.variant)
  }

  function TrimGallery(gallery: seq<MediaReference>): seq<MediaReference> {
    seq(|gallery|, i requires 0 <= i < |gallery| => MediaReference(gallery[i].mediaId, Trim(gallery[i].alt)))
  }

  predicate ValidGallery(f: Formats, gallery: seq<MediaReference>) {
    |gallery| <= 12 && forall i :: 0 <= i < |gallery| ==> f.uuid(gallery[i].mediaId) && |gallery[i].alt| <= 300
  }

  /** Parsing trims first and checks what is left. */
  function ParseDocument(f: Formats, d: Document): Result<Document, Error> {
    var event, gallery := TrimDraft(d.event), TrimGallery(d.gallery);
    if DraftEvent(f, event) && ValidGallery(f, gallery) then Ok(Document(event, gallery, d.weddingDetails)) else Err(SchemaError)
  }

  // ----- The event schema -----

  function TrimActivity(a: Activity): Activity {
    Activity(a.id, a.kind, Trim(a.title), a.startsAt, Trim(a.venueName), Trim(a.address), a.mapUrl)
  }

  function TrimActivities(list: seq<Activity>): seq<Activity> {
    seq(|list|, i requires 0 <= i < |list| => TrimActivity(list[i]))
  }

  function TrimEvent(e: Event): Event {
    Event(e.id, e.timezone, e.primaryLocalDate, e.rsvpDeadline, TrimTexts(e.texts),
          TrimActivities(e.activities),
          TrimPeople(e.participants), TrimVariant(e.variant))
  }

  predicate NamedPerson(p: Person) { DraftPerson(p) && p.displayName != [] && p.roleLabel != [] }

  predicate ValidActivity(f: Formats, a: Activity) {
    && f.uuid(a.id) && 0 < |a.title| <= 80 && f.dateTime(a.startsAt) && 0 < |a.venueName| <= 160 && 0 < |a.address| <= 240
    && f.httpsUrl(a.mapUrl)
  }

  predicate ValidVariant(v: Variant) {
    match v
    case Wedding(a, b) => NamedPerson(a) && NamedPerson(b)
    case Birthday(c, age) => NamedPerson(c) && ValidAge(age)
    case Debut(d) => NamedPerson(d)
    case Christening(c, gs) => NamedPerson(c) && 1 <= |gs| <= 4 && forall i :: 0 <= i < |gs| ==> NamedPerson(gs[i])
  }

  predicate ValidEvent(f: Formats, e: Event) {
    && f.uuid(e.id) && 0 < |e.timezone| <= 80 && f.timezone(e.timezone) && f.date(e.primaryLocalDate) && f.date(e.rsvpDeadline)
    && TextsFit(e.texts)
    && 1 <= |e.activities| <= 8 && (forall i :: 0 <= i < |e.activities| ==> ValidActivity(f, e.activities[i]))
    && |e.participants| <= 120 && (forall i :: 0 <= i < |e.participants| ==> NamedPerson(e.participants[i]))
    && ValidVariant(e.variant)
  }

  function ParseEvent(f: Formats, e: Event): Result<Event, Error> {
    if ValidEvent(f, TrimEvent(e)) then Ok(TrimEvent(e)) else Err(SchemaError)
  }

  function ValidateForSubmission(f: Formats, e: Event): Result<Event, Error> {
    match ParseEvent(f, e)
    case Err(error) => Err(error)
    case Ok(parsed) => if After(e.rsvpDeadline, e.primaryLocalDate) then Err(DeadlineAfterDate) else Ok(parsed)
  }

  // ----- From event to brief and back -----

  function Filled(texts: map<TextKey, Text>): map<TextKey, Text> {
    map k | k in TEXT_KEYS :: if k in texts then texts[k] else []
  }

  function DraftOf(e: Event): Event {
    e.(texts := Filled(e.texts))
  }

  function BriefFromEvent(f: Formats, e: Event, gallery: seq<MediaReference>): Result<Document, Error> {
    ParseDocument(f, Document(DraftOf(e), gallery, None))
  }

  function NonEmpty(texts: map<TextKey, Text>): map<TextKey, Text> {
    map k | k in texts && !(k in TEXT_KEYS && texts[k] == []) :: texts[k]
  }

  /** The event without its empty optional texts. */
  function Stripped(e: Event): Event {
    e.(texts := NonEmpty(e.texts))
  }

  /** The loop that deletes the empty optional texts from a copy. */
  method StripEmptyOptionalText(e: Event) returns (candidate: Event)
    ensures candidate == Stripped(e)
  {
    var texts := e.texts;
    for i := 0 to |TEXT_KEYS|
      invariant texts == map k | k in e.texts && !(k in TEXT_KEYS[..i] && e.texts[k] == []) :: e.texts[k]
    {
      var key := TEXT_KEYS[i];
      assert TEXT_KEYS[..i + 1] == TEXT_KEYS[..i] + [key];
      if key in texts && texts[key] == [] {
        texts := texts - {key};
      }
    }
    assert TEXT_KEYS[..|TEXT_KEYS|] == TEXT_KEYS;
    candidate := e.(texts := texts);
  }

  function CompleteEventFromBrief(f: Formats, d: Document): Result<Event, Error> {
    match ParseDocument(f, d)
    case Err(error) => Err(error)
    case Ok(parsed) =>
      match ParseEvent(f, Stripped(parsed.event))
      case Err(error) => Err(error)
      case Ok(event) => ValidateForSubmission(f, event)
  }

  // ----- Trimming what is trimmed -----

  predicate TrimmedPerson(p: Person) { Trimmed(p.displayName) && Trimmed(p.roleLabel) }

  ghost predicate TrimmedPeople(ps: seq<Person>) { forall i :: 0 <= i < |ps| ==> TrimmedPerson(ps[i]) }

  ghost predicate TrimmedVariant(v: Variant) {
    match v
    case Wedding(a, b) => TrimmedPerson(a) && TrimmedPerson(b)
    case Birthday(c, _) => TrimmedPerson(c)
    case Debut(d) => TrimmedPerson(d)
    case Christening(c, gs) => TrimmedPerson(c) && TrimmedPeople(gs)
  }

  ghost predicate TrimmedTexts(texts: map<TextKey, Text>) { forall k :: k in texts ==> Trimmed(texts[k]) }

  predicate TrimmedActivity(a: Activity) { Trimmed(a.title) && Trimmed(a.venueName) && Trimmed(a.address) }

  /** The texts that both schemas trim. */
  ghost predicate TrimmedEvent(e: Event) {
    && TrimmedTexts(e.texts) && TrimmedPeople(e.participants) && TrimmedVariant(e.variant) && TrimmedActivities(e.activities)
  }

  /** The texts that only the draft schema trims. */
  ghost predicate TrimmedSchedule(e: Event) {
    Trimmed(e.timezone) && Trimmed(e.primaryLocalDate) && Trimmed(e.rsvpDeadline) && TrimmedPlaces(e.activities)
  }

  lemma PersonTrim(p: Person)
    ensures TrimmedPerson(TrimPerson(p)) && (TrimPerson(p) == p <==> TrimmedPerson(p))
  {
  }

  lemma PeopleTrim(ps: seq<Person>)
    ensures TrimmedPeople(TrimPeople(ps)) && (TrimPeople(ps) == ps <==> TrimmedPeople(ps))
  {
    forall i | 0 <= i < |ps| ensures TrimPeople(ps)[i] == TrimPerson(ps[i]) && (TrimPerson(ps[i]) == ps[i] <==> TrimmedPerson(ps[i])) {
      PersonTrim(ps[i]);
    }
  }

  lemma VariantTrim(v: Variant)
    ensures TrimmedVariant(TrimVariant(v)) && (TrimVariant(v) == v <==> TrimmedVariant(v))
  {
    match v
    case Wedding(a, b) => PersonTrim(a); PersonTrim(b);
    case Birthday(c, _) => PersonTrim(c);
    case Debut(d) => PersonTrim(d);
    case Christening(c, gs) => PersonTrim(c); PeopleTrim(gs);
  }

  ghost predicate TrimmedActivities(list: seq<Activity>) { forall i :: 0 <= i < |list| ==> TrimmedActivity(list[i]) }

  predicate TrimmedPlace(a: Activity) { Trimmed(a.startsAt) && Trimmed(a.mapUrl) }

  ghost predicate TrimmedPlaces(list: seq<Activity>) { forall i :: 0 <= i < |list| ==> TrimmedPlace(list[i]) }

  lemma ActivitiesTrim(list: seq<Activity>)
    ensures TrimmedActivities(TrimActivities(list)) && (TrimActivities(list) == list <==> TrimmedActivities(list))
  {
    var trimmed := TrimActivities(list);
    forall i | 0 <= i < |list| ensures TrimmedActivity(trimmed[i]) && (trimmed[i] == list[i] <==> TrimmedActivity(list[i])) {
    }
  }

  lemma DraftActivitiesTrim(list: seq<Activity>)
    ensures TrimmedActivities(TrimDraftActivities(list)) && TrimmedPlaces(TrimDraftActivities(list))
    ensures TrimDraftActivities(list) == list <==> TrimmedActivities(list) && TrimmedPlaces(list)
  {
    var trimmed := TrimDraftActivities(list);
    forall i | 0 <= i < |list|
      ensures TrimmedActivity(trimmed[i]) && TrimmedPlace(trimmed[i])
      ensures trimmed[i] == list[i] <==> TrimmedActivity(list[i]) && TrimmedPlace(list[i])
    {
    }
  }

  lemma EventTrim(e: Event)
    ensures TrimmedEvent(TrimEvent(e)) && (TrimEvent(e) == e <==> TrimmedEvent(e))
  {
    PeopleTrim(e.participants);
    VariantTrim(e.variant);
    ActivitiesTrim(e.activities);
  }

  /** A valid event that the schema returns as it is. */
  ghost predicate Parsed(f: Formats, e: Event) { ValidEvent(f, e) && TrimmedEvent(e) }

  lemma ParsedExactly(f: Formats, e: Event)
    ensures ParseEvent(f, e) == Ok(e) <==> Parsed(f, e)
  {
    EventTrim(e);
  }

  lemma DraftTrim(e: Event)
    ensures TrimmedEvent(TrimDraft(e)) && TrimmedSchedule(TrimDraft(e))
    ensures TrimDraft(e) == e <==> TrimmedEvent(e) && TrimmedSchedule(e)
  {
    PeopleTrim(e.participants);
    VariantTrim(e.variant);
    DraftActivitiesTrim(e.activities);
    TrimIsIdentity(e.timezone);
    TrimIsIdentity(e.primaryLocalDate);
    TrimIsIdentity(e.rsvpDeadline);
  }

  // ----- The round trips -----

  /** A parsed event whose schedule also passes the draft schema unchanged, due no later than its date. */
  ghost predicate FitsDraft(e: Event) {
    && !After(e.rsvpDeadline, e.primaryLocalDate)
    && TrimmedSchedule(e) && |e.primaryLocalDate| <= 10 && |e.rsvpDeadline| <= 10
    && forall i :: 0 <= i < |e.activities| ==> |e.activities[i].startsAt| <= 50 && |e.activities[i].mapUrl| <= 2048
  }

  lemma StrippedDraft(e: Event)
    ensures Stripped(DraftOf(e)) == Stripped(e)
    ensures TrimmedEvent(e) ==> TrimmedEvent(DraftOf(e)) && TrimmedEvent(Stripped(e))
  {
    EveryKeyListed();
    assert NonEmpty(Filled(e.texts)) == NonEmpty(e.texts);
  }

  lemma EveryKeyListed()
    ensures forall k: TextKey :: k in TEXT_KEYS
  {
    forall k: TextKey ensures k in TEXT_KEYS {
      var i := match k case HostWording => 0 case Story => 1 case DressCode => 2 case GiftInformation => 3;
      assert TEXT_KEYS[i] == k;
    }
  }

  lemma DraftRestored(draft: Event)
    requires forall k :: k in TEXT_KEYS <==> k in draft.texts
    ensures DraftOf(Stripped(draft)) == draft
  {
    EveryKeyListed();
    assert Filled(NonEmpty(draft.texts)) == draft.texts;
  }

  lemma ValidFitsDraft(f: Formats, e: Event)
    requires ValidEvent(f, e) && FitsDraft(e)
    ensures DraftEvent(f, DraftOf(e))
  {
    forall i | 0 <= i < |e.activities| ensures DraftActivity(f, e.activities[i]) {
      assert ValidActivity(f, e.activities[i]);
    }
  }

  lemma ValidStripped(f: Formats, e: Event)
    requires ValidEvent(f, e)
    ensures ValidEvent(f, Stripped(e))
  {
  }

  /** Completing the brief of a valid event gives the event back without its empty optional texts,
      exactly when its schedule fits the draft schema and its deadline is not after its date. */
  lemma EventRoundTrip(f: Formats, e: Event, gallery: seq<MediaReference>)
    requires Parsed(f, e) && ValidGallery(f, TrimGallery(gallery))
    ensures var brief := BriefFromEvent(f, e, gallery);
            (brief.Ok? && CompleteEventFromBrief(f, brief.value) == Ok(Stripped(e))) <==> FitsDraft(e)
  {
    var brief := BriefFromEvent(f, e, gallery);
    if FitsDraft(e) {
      FittingEventComesBack(f, e, gallery);
    }
    if brief.Ok? && CompleteEventFromBrief(f, brief.value) == Ok(Stripped(e)) {
      OnlyFittingEventsComeBack(f, e, gallery);
    }
  }

  lemma FittingEventComesBack(f: Formats, e: Event, gallery: seq<MediaReference>)
    requires Parsed(f, e) && ValidGallery(f, TrimGallery(gallery)) && FitsDraft(e)
    ensures BriefFromEvent(f, e, gallery) == Ok(Document(DraftOf(e), TrimGallery(gallery), None))
    ensures CompleteEventFromBrief(f, BriefFromEvent(f, e, gallery).value) == Ok(Stripped(e))
  {
    EventTrim(e);
    StrippedDraft(e);
    DraftTrim(DraftOf(e));
    ValidFitsDraft(f, e);
    EventTrim(Stripped(e));
    ValidStripped(f, e);
    assert ParseEvent(f, Stripped(e)) == Ok(Stripped(e));
  }

  lemma OnlyFittingEventsComeBack(f: Formats, e: Event, gallery: seq<MediaReference>)
    requires Parsed(f, e)
    ensures var brief := BriefFromEvent(f, e, gallery);
            brief.Ok? && CompleteEventFromBrief(f, brief.value) == Ok(Stripped(e)) ==> FitsDraft(e)
  {
    var draft, brief := TrimDraft(DraftOf(e)), BriefFromEvent(f, e, gallery);
    if brief.Ok? && CompleteEventFromBrief(f, brief.value) == Ok(Stripped(e)) {
      assert brief.value.event == draft && DraftEvent(f, draft);
      DraftTrim(DraftOf(e));
      DraftTrim(draft);
      CompletionIs(f, brief.value);
      assert Stripped(draft) == Stripped(e);
      DeadlineKept(f, brief.value);
    }
  }

  lemma DeadlineKept(f: Formats, d: Document)
    ensures var completed := CompleteEventFromBrief(f, d);
            completed.Ok? ==> !After(completed.value.rsvpDeadline, completed.value.primaryLocalDate)
  {
  }

  /** Briefing the completion of a ready document gives the parsed document back, event and gallery;
      only the wedding details are lost. */
  lemma DocumentRoundTrip(f: Formats, d: Document)
    ensures var completed, parsed := CompleteEventFromBrief(f, d), ParseDocument(f, d);
            completed.Ok? ==>
              && parsed.Ok?
              && BriefFromEvent(f, completed.value, d.gallery) == Ok(parsed.value.(weddingDetails := None))
              && (BriefFromEvent(f, completed.value, d.gallery) == parsed <==> d.weddingDetails == None)
  {
    var completed, draft := CompleteEventFromBrief(f, d), TrimDraft(d.event);
    if completed.Ok? {
      CompletionIs(f, d);
      DraftTrim(d.event);
      DraftTrim(draft);
      DraftRestored(draft);
      assert TrimDraft(DraftOf(completed.value)) == draft;
    }
  }

  /** A completed event is the parsed draft without its empty optional texts. */
  lemma CompletionIs(f: Formats, d: Document)
    ensures var completed := CompleteEventFromBrief(f, d);
            completed.Ok? ==> ParseDocument(f, d).Ok? && completed.value == Stripped(TrimDraft(d.event))
  {
    var draft := TrimDraft(d.event);
    DraftTrim(d.event);
    EventTrim(Stripped(draft));
  }
}
