/** Saving and submitting an event brief: the document is read and completed before the
    transaction that writes the event rows (lib/content/service.ts, lib/orders/service.ts). */
module BriefSubmission {

  import opened Wrappers
  import opened Texts
  import opened Brief

  // ----- Event rows -----

  datatype ActivityRow = ActivityRow(
    id: Text, kind: Kind, title: Text, startsAt: int, venueName: Text, address: Text, mapUrl: Text)

  datatype GroupKey = WeddingParty | Candles | Godparents | Participants

  datatype ParticipantRow = ParticipantRow(groupKey: GroupKey, person: Person)

  datatype Details = Details(hostWording: Option<Text>, variant: Variant)

  /** The rows of one event. Activities and participants are listed in display order, content is
      keyed by its module. */
  datatype Rows = Rows(
    timezone: Text, primaryLocalDate: Text, rsvpDeadline: Text, details: Details, activities: seq<ActivityRow>,
    participants: seq<ParticipantRow>, content: map<TextKey, Text>, contentRevision: nat)

  /** Reading a start time and printing it again in UTC. */
  datatype Clock = Clock(instant: Text -> int, utc: int -> Text)

  predicate PrintsValid(f: Formats, clock: Clock, t: int) { f.dateTime(clock.utc(t)) }

  function GroupOf(v: Variant): GroupKey {
    match v
    case Wedding(_, _) => WeddingParty
    case Birthday(_, _) => Participants
    case Debut(_) => Candles
    case Christening(_, _) => Godparents
  }

  function TextOf(e: Event, key: TextKey): Option<Text> {
    if key in e.texts && e.texts[key] != [] then Some(e.texts[key]) else None
  }

  function ActivityRowOf(clock: Clock, a: Activity): ActivityRow {
    ActivityRow(a.id, a.kind, a.title, clock.instant(a.startsAt), a.venueName, a.address, a.mapUrl)
  }

  const CONTENT_KEYS: seq<TextKey> := [Story, DressCode, GiftInformation]

  function ActivityRows(clock: Clock, activities: seq<Activity>): seq<ActivityRow> {
    seq(|activities|, i requires 0 <= i < |activities| => ActivityRowOf(clock, activities[i]))
  }

  function ParticipantRows(group: GroupKey, people: seq<Person>): seq<ParticipantRow> {
    seq(|people|, i requires 0 <= i < |people| => ParticipantRow(group, people[i]))
  }

  function ContentRows(e: Event): map<TextKey, Text> {
    map key | key in CONTENT_KEYS && TextOf(e, key).Some? :: TextOf(e, key).value
  }

  function RowsOf(clock: Clock, e: Event, contentRevision: nat): Rows {
    Rows(e.timezone, e.primaryLocalDate, e.rsvpDeadline, Details(TextOf(e, HostWording), e.variant),
         ActivityRows(clock, e.activities), ParticipantRows(GroupOf(e.variant), e.participants), ContentRows(e), contentRevision)
  }

  function TextsOf(r: Rows): map<TextKey, Text> {
    (if r.details.hostWording.Some? then map[HostWording := r.details.hostWording.value] else map[]) + r.content
  }

  function ActivityOf(clock: Clock, r: ActivityRow): Activity {
    Activity(r.id, r.kind, r.title, clock.utc(r.startsAt), r.venueName, r.address, r.mapUrl)
  }

  function Candidate(clock: Clock, id: Text, r: Rows): Event {
    Event(id, r.timezone, r.primaryLocalDate, r.rsvpDeadline, TextsOf(r),
          seq(|r.activities|, i requires 0 <= i < |r.activities| => ActivityOf(clock, r.activities[i])),
          seq(|r.participants|, i requires 0 <= i < |r.participants| => r.participants[i].person), r.details.variant)
  }

  /** The event that an order shows: its rows, put together and parsed. */
  function Hydrate(f: Formats, clock: Clock, id: Text, r: Rows): Result<Event, Error> {
    ParseEvent(f, Candidate(clock, id, r))
  }

  // ----- Tables and transactions -----

  datatype BriefRow = BriefRow(document: Document, revision: nat, submitted: bool)

  datatype Production = New | Collecting | ReadyForProduction | InProduction | Delivered | Closed

  datatype Order = Order(state: Production, submitted: bool)

  /** The invitation keeps the date its expiry is counted from, and its draft's revision. */
  datatype Invitation = Invitation(expiresFrom: Text, draftRevision: Option<nat>)

  /** One order. Its event's id and variant are fixed when it is created. */
  datatype Db = Db(
    eventId: Text, eventVariant: Variant, brief: Option<BriefRow>, rows: Option<Rows>, invitation: Option<Invitation>, order: Order)

  datatype Failure = NotFound | IdentityChanged | NewerRevision | NotReady | DuplicateActivity | Unreleased

  predicate SameKind(v: Variant, w: Variant) {
    (v.Wedding? && w.Wedding?) || (v.Birthday? && w.Birthday?) || (v.Debut? && w.Debut?) || (v.Christening? && w.Christening?)
  }

  function Bumped(i: Option<Invitation>): Option<Invitation> {
    if i.Some? && i.value.draftRevision.Some? then Some(i.value.(draftRevision := Some(i.value.draftRevision.value + 1))) else i
  }

  function Save(db: Db, expectedRevision: nat, document: Document): (Db, Result<nat, Failure>) {
    if db.rows.None? then (db, Err(NotFound))
    else if !SameKind(document.event.variant, db.eventVariant) || document.event.id != db.eventId then (db, Err(IdentityChanged))
    else if db.brief.None? || db.brief.value.revision != expectedRevision then (db, Err(NewerRevision))
    else
      (db.(brief := Some(BriefRow(document, expectedRevision + 1, false)),
           invitation := Bumped(db.invitation),
           order := Order(if db.order.state == New then Collecting else db.order.state, false)), Ok(expectedRevision + 1))
  }

  /** What a submission reads and carries to its transaction. */
  datatype Held = Held(document: Document, revision: nat, event: Event)

  /** How a document completes. It is a parameter of the protocol, which needs nothing else of it. */
  type Completion = Document -> Result<Event, Error>

  function SubmitRead(complete: Completion, db: Db, expectedRevision: nat, galleryReady: bool): Result<Held, Failure> {
    if db.brief.None? then Err(NotFound)
    else if db.brief.value.revision != expectedRevision then Err(NewerRevision)
    else
      match complete(db.brief.value.document)
      case Err(_) => Err(NotReady)
      case Ok(event) => if galleryReady then Ok(Held(db.brief.value.document, expectedRevision, event)) else Err(NotReady)
  }

  /** Activity ids are unique in the whole table: `taken` are those of other orders' events. */
  ghost predicate InsertableActivities(taken: set<Text>, activities: seq<Activity>) {
    && (forall i :: 0 <= i < |activities| ==> activities[i].id !in taken)
    && (forall i, j :: 0 <= i < j < |activities| ==> activities[i].id != activities[j].id)
  }

  function Upserted(i: Option<Invitation>, date: Text): Option<Invitation> {
    match i
    case None => Some(Invitation(date, Some(1)))
    case Some(i) => Some(Invitation(date, Some(if i.draftRevision.Some? then i.draftRevision.value + 1 else 1)))
  }

  /** The transaction of a submission. Anything that throws takes all of it back. */
  ghost function SubmitWrite(clock: Clock, db: Db, h: Held, taken: set<Text>, released: bool, productionReady: bool)
    : (Db, Result<(), Failure>)
  {
    if db.brief.None? || db.brief.value.revision != h.revision then (db, Err(NewerRevision))
    else if db.rows.None? then (db, Err(NotFound))
    else if !InsertableActivities(taken, h.event.activities) then (db, Err(DuplicateActivity))
    else if !released then (db, Err(Unreleased))
    else
      var state := if db.order.state == Delivered || db.order.state == Closed then db.order.state
                   else if productionReady then ReadyForProduction else Collecting;
      (db.(brief := Some(db.brief.value.(submitted := true)),
           rows := Some(RowsOf(clock, h.event, db.rows.value.contentRevision + 1)),
           invitation := Upserted(db.invitation, h.event.primaryLocalDate),
           order := Order(state, true)), Ok(()))
  }

  // ----- The store -----

  class BriefStore {
    var db: Db

    method SaveEventBrief(expectedRevision: nat, document: Document) returns (revision: Result<nat, Failure>)
      modifies this
      ensures (db, revision) == Save(old(db), expectedRevision, document)
    {
      if db.rows.None? {
        return Err(NotFound);
      }
      if !SameKind(document.event.variant, db.eventVariant) || document.event.id != db.eventId {
        return Err(IdentityChanged);
      }
      if db.brief.None? || db.brief.value.revision != expectedRevision {
        return Err(NewerRevision);
      }
      db := db.(brief := Some(BriefRow(document, db.brief.value.revision + 1, false)));
      if db.invitation.Some? && db.invitation.value.draftRevision.Some? {
        db := db.(invitation := Some(db.invitation.value.(draftRevision := Some(db.invitation.value.draftRevision.value + 1))));
      }
      db := db.(order := Order(if db.order.state == New then Collecting else db.order.state, false));
      return Ok(expectedRevision + 1);
    }

    /** The insert of the activities, which fails at an id that is already there. */
    method InsertActivities(clock: Clock, taken: set<Text>, activities: seq<Activity>)
      returns (rows: seq<ActivityRow>, clash: bool)
      ensures clash <==> !InsertableActivities(taken, activities)
      ensures !clash ==> rows == ActivityRows(clock, activities)
    {
      rows, clash := [], false;
      for displayOrder := 0 to |activities|
        invariant |rows| == displayOrder && forall k :: 0 <= k < displayOrder ==> rows[k] == ActivityRowOf(clock, activities[k])
        invariant forall i :: 0 <= i < displayOrder ==> activities[i].id !in taken
        invariant forall i, j :: 0 <= i < j < displayOrder ==> activities[i].id != activities[j].id
      {
        if activities[displayOrder].id in taken {
          return rows, true;
        }
        if exists k :: 0 <= k < |rows| && rows[k].id == activities[displayOrder].id {
          var k :| 0 <= k < |rows| && rows[k].id == activities[displayOrder].id;
          assert activities[k].id == activities[displayOrder].id;
          return rows, true;
        }
        assert forall k :: 0 <= k < displayOrder ==> rows[k].id == activities[k].id;
        rows := rows + [ActivityRowOf(clock, activities[displayOrder])];
      }
    }

    method InsertParticipants(group: GroupKey, people: seq<Person>) returns (rows: seq<ParticipantRow>)
      ensures rows == ParticipantRows(group, people)
    {
      rows := [];
      for displayOrder := 0 to |people|
        invariant |rows| == displayOrder && forall k :: 0 <= k < displayOrder ==> rows[k] == ParticipantRow(group, people[k])
      {
        rows := rows + [ParticipantRow(group, people[displayOrder])];
      }
    }

    method InsertContent(e: Event) returns (rows: map<TextKey, Text>)
      ensures rows == ContentRows(e)
    {
      rows := map[];
      for i := 0 to |CONTENT_KEYS|
        invariant rows == map key | key in CONTENT_KEYS[..i] && TextOf(e, key).Some? :: TextOf(e, key).value
      {
        var key := CONTENT_KEYS[i];
        assert CONTENT_KEYS[..i + 1] == CONTENT_KEYS[..i] + [key];
        if key in e.texts && e.texts[key] != [] {
          rows := rows[key := e.texts[key]];
        }
      }
      assert CONTENT_KEYS[..|CONTENT_KEYS|] == CONTENT_KEYS;
    }

    method SubmitEventBrief(clock: Clock, h: Held, taken: set<Text>, released: bool, productionReady: bool)
      returns (result: Result<(), Failure>)
      modifies this
      ensures (db, result) == SubmitWrite(clock, old(db), h, taken, released, productionReady)
    {
      var before := db;
      if db.brief.None? || db.brief.value.revision != h.revision {
        return Err(NewerRevision);
      }
      db := db.(brief := Some(db.brief.value.(submitted := true)));
      if db.rows.None? {
        db := before;
        return Err(NotFound);
      }
      var e, rows := h.event, db.rows.value;
      rows := rows.(timezone := e.timezone, primaryLocalDate := e.primaryLocalDate, rsvpDeadline := e.rsvpDeadline,
                    details := Details(TextOf(e, HostWording), e.variant), contentRevision := rows.contentRevision + 1);
      rows := rows.(activities := [], participants := [], content := map[]);
      var activities, clash := InsertActivities(clock, taken, e.activities);
      if clash {
        db := before;
        return Err(DuplicateActivity);
      }
      var participants := InsertParticipants(GroupOf(e.variant), e.participants);
      var content := InsertContent(e);
      rows := rows.(activities := activities, participants := participants, content := content);
      db := db.(rows := Some(rows));
      if !released {
        db := before;
        return Err(Unreleased);
      }
      db := db.(invitation := Upserted(db.invitation, e.primaryLocalDate));
      var state := db.order.state;
      if state != Delivered && state != Closed {
        state := if productionReady then ReadyForProduction else Collecting;
      }
      db := db.(order := Order(state, true));
      return Ok(());
    }
  }

  // ----- Rows and events -----

  /** The event with its start times printed in UTC and without its empty optional texts. */
  function Normal(clock: Clock, e: Event): Event {
    Stripped(e).(activities := seq(|e.activities|, i requires 0 <= i < |e.activities| =>
      e.activities[i].(startsAt := clock.utc(clock.instant(e.activities[i].startsAt)))))
  }

  lemma TextsRestored(clock: Clock, e: Event, contentRevision: nat)
    ensures TextsOf(RowsOf(clock, e, contentRevision)) == NonEmpty(e.texts)
  {
    EveryKeyListed();
    var r := RowsOf(clock, e, contentRevision);
    forall key: TextKey ensures key in CONTENT_KEYS <==> key != HostWording {
      match key
      case HostWording =>
      case Story => assert CONTENT_KEYS[0] == key;
      case DressCode => assert CONTENT_KEYS[1] == key;
      case GiftInformation => assert CONTENT_KEYS[2] == key;
    }
    assert TextsOf(r).Keys == NonEmpty(e.texts).Keys;
  }

  /** Reading back the rows of an event gives the event, start times in UTC. */
  lemma RowsReadBack(f: Formats, clock: Clock, e: Event, contentRevision: nat)
    requires Parsed(f, e) && forall t :: PrintsValid(f, clock, t)
    ensures Hydrate(f, clock, e.id, RowsOf(clock, e, contentRevision)) == Ok(Normal(clock, e))
  {
    TextsRestored(clock, e, contentRevision);
    CandidateIsNormal(clock, e, contentRevision);
    NormalIsValid(f, clock, e);
  }

  lemma CandidateIsNormal(clock: Clock, e: Event, contentRevision: nat)
    requires TextsOf(RowsOf(clock, e, contentRevision)) == NonEmpty(e.texts)
    ensures Candidate(clock, e.id, RowsOf(clock, e, contentRevision)) == Normal(clock, e)
  {
    var c, n := Candidate(clock, e.id, RowsOf(clock, e, contentRevision)), Normal(clock, e);
    assert c.activities == n.activities;
    assert c.participants == n.participants;
  }

  lemma NormalIsValid(f: Formats, clock: Clock, e: Event)
    requires Parsed(f, e) && forall t :: PrintsValid(f, clock, t)
    ensures ParseEvent(f, Normal(clock, e)) == Ok(Normal(clock, e))
  {
    ParsedExactly(f, Normal(clock, e));
    forall i | 0 <= i < |e.activities| ensures ValidActivity(f, Normal(clock, e).activities[i]) {
      assert ValidActivity(f, e.activities[i]);
      assert PrintsValid(f, clock, clock.instant(e.activities[i].startsAt));
    }
  }

  // ----- Every interleaving of saves and submissions -----

  datatype Step =
    | EnsureBrief(document: Document)
    | SaveStep(expectedRevision: nat, document: Document)
    | ReadStep(expectedRevision: nat, galleryReady: bool)
    | WriteStep(held: Held, taken: set<Text>, released: bool, productionReady: bool)
    | Purge

  /** `held` is what submissions in flight have read. They may use it at any time, or never. */
  datatype System = System(db: Db, held: set<Held>)

  ghost function Next(complete: Completion, clock: Clock, s: System, e: Step): System {
    match e
    case EnsureBrief(document) =>
      if s.db.rows.Some? && s.db.brief.None? then s.(db := s.db.(brief := Some(BriefRow(document, 1, false)))) else s
    case SaveStep(expectedRevision, document) => s.(db := Save(s.db, expectedRevision, document).0)
    case ReadStep(expectedRevision, galleryReady) =>
      var read := SubmitRead(complete, s.db, expectedRevision, galleryReady);
      if read.Ok? then s.(held := s.held + {read.value}) else s
    case WriteStep(h, taken, released, productionReady) =>
      if h in s.held then s.(db := SubmitWrite(clock, s.db, h, taken, released, productionReady).0) else s
    case Purge => s.(db := s.db.(brief := None, rows := None, invitation := None))
  }

  ghost function Run(complete: Completion, clock: Clock, s: System, steps: seq<Step>): System
    decreases |steps|
  {
    if steps == [] then s else Run(complete, clock, Next(complete, clock, s, steps[0]), steps[1..])
  }

  /** An order as it is created: nothing submitted, nobody in flight. */
  ghost predicate Init(s: System) {
    s.held == {} && (s.db.brief.Some? ==> !s.db.brief.value.submitted && s.db.rows.Some?)
  }

  /** The event rows are those of the completion of the stored document. */
  ghost predicate RowsMatch(complete: Completion, clock: Clock, db: Db) {
    db.brief.Some? && db.rows.Some? &&
    var completion := complete(db.brief.value.document);
    completion.Ok? && db.rows.value == RowsOf(clock, completion.value, db.rows.value.contentRevision)
  }

  /** What was read is what is stored, unless a later revision or nothing is. */
  ghost predicate Fresh(complete: Completion, db: Db, h: Held) {
    && complete(h.document) == Ok(h.event)
    && (db.brief.Some? ==>
          && h.revision <= db.brief.value.revision
          && (h.revision == db.brief.value.revision ==> h.document == db.brief.value.document))
  }

  ghost predicate Inv(complete: Completion, clock: Clock, s: System) {
    && (s.db.brief.Some? ==> s.db.rows.Some?)
    && (s.db.brief.Some? && s.db.brief.value.submitted ==> RowsMatch(complete, clock, s.db))
    && (forall h :: h in s.held ==> Fresh(complete, s.db, h))
    && (s.db.brief.None? && s.db.rows.Some? ==> s.held == {})
  }

  lemma {:induction false} RunKeeps(complete: Completion, clock: Clock, s: System, steps: seq<Step>)
    requires Inv(complete, clock, s)
    ensures Inv(complete, clock, Run(complete, clock, s, steps))
    decreases |steps|
  {
    if steps != [] {
      RunKeeps(complete, clock, Next(complete, clock, s, steps[0]), steps[1..]);
    }
  }

  /** In every interleaving a submitted brief has the event rows of the document now stored. */
  lemma SubmittedMeansRowsMatch(complete: Completion, clock: Clock, s: System, steps: seq<Step>)
    requires Init(s)
    ensures var db := Run(complete, clock, s, steps).db;
            db.brief.Some? && db.brief.value.submitted ==> RowsMatch(complete, clock, db)
  {
    RunKeeps(complete, clock, s, steps);
  }

  /** The order shows the completion of the stored document. */
  ghost predicate ShowsTheDocument(f: Formats, clock: Clock, db: Db) {
    db.brief.Some? && db.rows.Some? &&
    var completion := CompleteEventFromBrief(f, db.brief.value.document);
    completion.Ok? && Hydrate(f, clock, completion.value.id, db.rows.value) == Ok(Normal(clock, completion.value))
  }

  function Completes(f: Formats): Completion { d => CompleteEventFromBrief(f, d) }

  /** So the event that a submitted order shows is the one its customer completed. */
  lemma SubmittedOrderShowsTheDocument(f: Formats, clock: Clock, s: System, steps: seq<Step>)
    requires Init(s) && forall t :: PrintsValid(f, clock, t)
    ensures var db := Run(Completes(f), clock, s, steps).db;
            db.brief.Some? && db.brief.value.submitted ==> ShowsTheDocument(f, clock, db)
  {
    SubmittedMeansRowsMatch(Completes(f), clock, s, steps);
    var db := Run(Completes(f), clock, s, steps).db;
    if db.brief.Some? && db.brief.value.submitted {
      var event := CompleteEventFromBrief(f, db.brief.value.document).value;
      CompletedIsParsed(f, db.brief.value.document);
      RowsReadBack(f, clock, event, db.rows.value.contentRevision);
    }
  }

  lemma CompletedIsParsed(f: Formats, d: Document)
    ensures var completed := CompleteEventFromBrief(f, d);
            completed.Ok? ==> Parsed(f, completed.value)
  {
    CompletionIs(f, d);
    DraftTrim(d.event);
    EventTrim(Stripped(TrimDraft(d.event)));
  }

  // ----- Orders placed for a paid purchase -----

  /** The order of a paid purchase starts with the purchase's document as stored when the order is
      placed, and with the event completed from it when it was read, perhaps before a later save. */
  function Placed(clock: Clock, stored: Document, read: Event): Db {
    Db(read.id, read.variant, Some(BriefRow(stored, 1, false)), Some(RowsOf(clock, read, 1)), None, Order(New, false))
  }

  /** Whatever was read, in every interleaving a submitted placed order shows the document stored by
      then, and a first submission without interruption gets it there. */
  lemma PlacedOrderCatchesUp(f: Formats, clock: Clock, stored: Document, read: Event, steps: seq<Step>,
                             taken: set<Text>, productionReady: bool)
    requires forall t :: PrintsValid(f, clock, t)
    ensures var db := Run(Completes(f), clock, System(Placed(clock, stored, read), {}), steps).db;
            db.brief.Some? && db.brief.value.submitted ==> ShowsTheDocument(f, clock, db)
    ensures var completion := CompleteEventFromBrief(f, stored);
            completion.Ok? && InsertableActivities(taken, completion.value.activities) ==>
            var db := Run(Completes(f), clock, System(Placed(clock, stored, read), {}),
                          FirstSubmission(stored, completion.value, taken, productionReady)).db;
            db.brief == Some(BriefRow(stored, 1, true)) && ShowsTheDocument(f, clock, db)
  {
    var s := System(Placed(clock, stored, read), {});
    SubmittedOrderShowsTheDocument(f, clock, s, steps);
    var completion := CompleteEventFromBrief(f, stored);
    if completion.Ok? && InsertableActivities(taken, completion.value.activities) {
      SubmittedAtOnce(Completes(f), clock, s, stored, completion.value, taken, productionReady);
      SubmittedOrderShowsTheDocument(f, clock, s, FirstSubmission(stored, completion.value, taken, productionReady));
    }
  }

  function FirstSubmission(stored: Document, event: Event, taken: set<Text>, productionReady: bool): seq<Step> {
    [ReadStep(1, true), WriteStep(Held(stored, 1, event), taken, true, productionReady)]
  }

  lemma SubmittedAtOnce(complete: Completion, clock: Clock, s: System, stored: Document, event: Event,
                        taken: set<Text>, productionReady: bool)
    requires s.db.brief == Some(BriefRow(stored, 1, false)) && s.db.rows.Some?
    requires complete(stored) == Ok(event) && InsertableActivities(taken, event.activities)
    ensures Run(complete, clock, s, FirstSubmission(stored, event, taken, productionReady)).db.brief
         == Some(BriefRow(stored, 1, true))
  {
    var steps := FirstSubmission(stored, event, taken, productionReady);
    var s' := Next(complete, clock, s, steps[0]);
    assert s' == s.(held := s.held + {Held(stored, 1, event)});
    assert steps[1..] == [steps[1]] && [steps[1]][1..] == [];
    assert Run(complete, clock, s', [steps[1]]) == Next(complete, clock, s', steps[1]);
  }

  // ----- Revisions -----

  predicate Past(db: Db, revision: nat) {
    db.brief.Some? ==> db.brief.value.revision > revision
  }

  lemma {:induction false} PastStays(complete: Completion, clock: Clock, s: System, steps: seq<Step>, revision: nat)
    requires Past(s.db, revision) && (s.db.brief.None? ==> s.db.rows.None?)
    ensures Past(Run(complete, clock, s, steps).db, revision)
    decreases |steps|
  {
    if steps != [] {
      PastStays(complete, clock, Next(complete, clock, s, steps[0]), steps[1..], revision);
    }
  }

  /** Two saves from the same revision are never both accepted, whatever happens in between, and a
      submission that read before a save cannot write after it. */
  lemma OneSavePerRevision(complete: Completion, clock: Clock, s: System, revision: nat, document: Document, steps: seq<Step>,
                           document': Document, h: Held, taken: set<Text>, released: bool, productionReady: bool)
    requires Save(s.db, revision, document).1.Ok?
    ensures var later := Run(complete, clock, s.(db := Save(s.db, revision, document).0), steps).db;
            && Save(later, revision, document').1.Err? && Save(later, revision, document').0 == later
            && (h.revision <= revision ==> SubmitWrite(clock, later, h, taken, released, productionReady) == (later, Err(NewerRevision)))
  {
    PastStays(complete, clock, s.(db := Save(s.db, revision, document).0), steps, revision);
  }
}
