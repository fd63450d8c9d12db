/** When a brief completes, and exactly what saving and submitting it write (lib/content/brief.ts,
    lib/content/service.ts). */
module BriefOutcomes {

  import opened Wrappers
  import opened Texts
  import opened Brief
  import opened BriefSubmission

  // ----- What a customer has to fill in -----

  /** The people an event is about, besides its participants. */
  function Named(v: Variant): seq<Person> {
    match v
    case Wedding(a, b) => [a, b]
    case Birthday(c, _) => [c]
    case Debut(d) => [d]
    case Christening(c, gs) => [c] + gs
  }

  /** Names from `least` to 120 units and roles to 60, one to four guardians where one is needed, ages to 150. */
  ghost predicate PeopleFit(e: Event, least: nat) {
    && |e.participants| <= 120
    && (forall p :: p in e.participants || p in Named(e.variant) ==>
          least <= |p.displayName| <= 120 && least <= |p.roleLabel| <= 60)
    && (e.variant.Christening? ==> least <= |e.variant.guardians| <= 4)
    && (e.variant.Birthday? && e.variant.displayedAge.Some? ==> 1 <= e.variant.displayedAge.value <= 150)
  }

  /** The optional texts within their limits. */
  ghost predicate TextLimits(texts: map<TextKey, Text>) {
    && (HostWording in texts ==> |texts[HostWording]| <= 260) && (Story in texts ==> |texts[Story]| <= 2400)
    && (DressCode in texts ==> |texts[DressCode]| <= 500) && (GiftInformation in texts ==> |texts[GiftInformation]| <= 800)
  }

  ghost predicate ActivitiesFit(f: Formats, e: Event, least: nat) {
    && least <= |e.activities| <= 8
    && forall a :: a in e.activities ==>
         f.uuid(a.id) && least <= |a.title| <= 80 && least <= |a.venueName| <= 160 && least <= |a.address| <= 240
  }

  /** What a draft must satisfy to be saved at all. */
  ghost predicate Fillable(f: Formats, e: Event) {
    && f.uuid(e.id) && |e.timezone| <= 80 && |e.primaryLocalDate| <= 10 && |e.rsvpDeadline| <= 10
    && (forall k: TextKey :: k in e.texts) && TextLimits(e.texts) && PeopleFit(e, 0) && ActivitiesFit(f, e, 0)
    && forall a :: a in e.activities ==> |a.startsAt| <= 50 && |a.mapUrl| <= 2048
  }

  /** What it must satisfy besides to become the event of an order. */
  ghost predicate FilledIn(f: Formats, e: Event) {
    && 1 <= |e.timezone| && f.timezone(e.timezone) && f.date(e.primaryLocalDate) && f.date(e.rsvpDeadline)
    && PeopleFit(e, 1) && ActivitiesFit(f, e, 1)
    && forall a :: a in e.activities ==> f.dateTime(a.startsAt) && f.httpsUrl(a.mapUrl)
  }

  lemma DraftExactlyWhenFillable(f: Formats, e: Event)
    ensures DraftEvent(f, e) <==> Fillable(f, e)
  {
    EveryKeyListed();
    LimitsAre(e.texts);
    PeopleAre(e);
  }

  lemma LimitsAre(texts: map<TextKey, Text>)
    ensures TextsFit(texts) <==> TextLimits(texts)
  {
    if TextLimits(texts) {
      forall k | k in texts ensures |texts[k]| <= MaxText(k) {
        match k case HostWording => case Story => case DressCode => case GiftInformation =>
      }
    }
  }

  lemma PeopleAre(e: Event)
    ensures PeopleFit(e, 0) <==>
              |e.participants| <= 120 && (forall i :: 0 <= i < |e.participants| ==> DraftPerson(e.participants[i])) && DraftVariant(e.variant)
    ensures PeopleFit(e, 1) <==>
              |e.participants| <= 120 && (forall i :: 0 <= i < |e.participants| ==> NamedPerson(e.participants[i])) && ValidVariant(e.variant)
  {
    var named := Named(e.variant);
    match e.variant
    case Wedding(a, b) => assert a in named && b in named;
    case Birthday(c, _) => assert c in named;
    case Debut(d) => assert d in named;
    case Christening(c, gs) =>
      assert c in named;
      forall i | 0 <= i < |gs| ensures gs[i] in named { assert named[i + 1] == gs[i]; }
  }

  lemma ValidExactlyWhenFilledIn(f: Formats, e: Event)
    requires DraftEvent(f, e)
    ensures ValidEvent(f, Stripped(e)) <==> FilledIn(f, e)
  {
    PeopleAre(e);
    assert TextsFit(NonEmpty(e.texts));
  }

  /** Text `s` sorts after text `t`: it goes on where `t` ends, or has the greater unit where they first differ. */
  ghost predicate SortsAfter(s: Text, t: Text) {
    exists n: nat :: n < |s| && n <= |t| && s[..n] == t[..n] && (n == |t| || s[n] > t[n])
  }

  lemma {:induction false} AfterExactlyWhenSorted(s: Text, t: Text)
    ensures After(s, t) <==> SortsAfter(s, t)
    decreases |s|
  {
    if s != [] && t != [] {
      AfterExactlyWhenSorted(s[1..], t[1..]);
      if s[0] == t[0] {
        if n: nat :| n < |s| && n <= |t| && s[..n] == t[..n] && (n == |t| || s[n] > t[n]) {
          assert n > 0;
          assert s[1..][..n - 1] == s[..n][1..] && t[1..][..n - 1] == t[..n][1..];
        }
        if n: nat :| n < |s| - 1 && n <= |t| - 1 && s[1..][..n] == t[1..][..n] && (n == |t| - 1 || s[1..][n] > t[1..][n]) {
          assert s[..n + 1] == [s[0]] + s[1..][..n] && t[..n + 1] == [t[0]] + t[1..][..n];
        }
      } else {
        assert s[..0] == t[..0];
        if n: nat :| n < |s| && n <= |t| && s[..n] == t[..n] && (n == |t| || s[n] > t[n]) {
          if n > 0 { assert s[..n][0] == t[..n][0]; }
        }
      }
    } else if s != [] {
      assert s[..0] == t[..0];
    }
  }

  /** At most 12 photos, each with an alternative text of at most 300 units once trimmed. */
  ghost predicate PhotosFit(f: Formats, gallery: seq<MediaReference>) {
    |gallery| <= 12 && forall i :: 0 <= i < |gallery| ==> f.uuid(gallery[i].mediaId) && |Trim(gallery[i].alt)| <= 300
  }

  lemma GalleryExactlyWhenItFits(f: Formats, gallery: seq<MediaReference>)
    ensures ValidGallery(f, TrimGallery(gallery)) <==> PhotosFit(f, gallery)
  {
    var trimmed := TrimGallery(gallery);
    forall i | 0 <= i < |gallery|
      ensures trimmed[i].mediaId == gallery[i].mediaId && trimmed[i].alt == Trim(gallery[i].alt)
    {
    }
  }

  /** A document can be saved exactly when its trimmed draft can be filled in further and its photos fit. */
  lemma ParsesExactlyWhen(f: Formats, d: Document)
    ensures ParseDocument(f, d).Ok? <==> Fillable(f, TrimDraft(d.event)) && PhotosFit(f, d.gallery)
    ensures ParseDocument(f, d).Ok? ==> ParseDocument(f, d).value == Document(TrimDraft(d.event), TrimGallery(d.gallery), d.weddingDetails)
  {
    GalleryExactlyWhenItFits(f, d.gallery);
    DraftExactlyWhenFillable(f, TrimDraft(d.event));
  }

  /** And it is ready exactly when the draft is filled in besides, with a deadline that does not sort after its date. */
  lemma CompletesExactlyWhen(f: Formats, d: Document)
    ensures var draft := TrimDraft(d.event);
            CompleteEventFromBrief(f, d).Ok? <==>
              ParseDocument(f, d).Ok? && FilledIn(f, draft) && !SortsAfter(draft.rsvpDeadline, draft.primaryLocalDate)
    ensures CompleteEventFromBrief(f, d).Ok? ==> CompleteEventFromBrief(f, d).value == Stripped(TrimDraft(d.event))
  {
    var draft := TrimDraft(d.event);
    DraftTrim(d.event);
    EventTrim(Stripped(draft));
    AfterExactlyWhenSorted(draft.rsvpDeadline, draft.primaryLocalDate);
    if ParseDocument(f, d).Ok? { ValidExactlyWhenFilledIn(f, draft); }
  }

  // ----- Saving and submitting -----

  /** Only the revision that was read can be saved, of a brief of the same event. Then the document is replaced and
      its submission withdrawn, the draft of the invitation and the order know, and nothing else changes. */
  lemma SavedExactlyWhen(db: Db, revision: nat, document: Document)
    ensures var (db', saved) := Save(db, revision, document);
            && (saved.Ok? <==>
                  && db.rows.Some? && db.brief.Some? && db.brief.value.revision == revision
                  && document.event.id == db.eventId && SameKind(document.event.variant, db.eventVariant))
            && (saved.Ok? ==>
                  && saved.value == revision + 1 && db'.brief == Some(BriefRow(document, revision + 1, false))
                  && db'.rows == db.rows && db'.eventId == db.eventId && db'.eventVariant == db.eventVariant
                  && !db'.order.submitted && (db.order.state == New ==> db'.order.state == Collecting)
                  && (db.order.state != New ==> db'.order.state == db.order.state)
                  && (db.invitation.None? ==> db'.invitation.None?)
                  && (db.invitation.Some? ==> NextDraft(db.invitation.value, db'.invitation, db.invitation.value.expiresFrom, None)))
            && (saved.Err? ==> db' == db)
            && (saved == Err(IdentityChanged) <==>
                  db.rows.Some? && !(document.event.id == db.eventId && SameKind(document.event.variant, db.eventVariant)))
  {
  }

  /** The invitation afterwards: its date, and its draft one revision on, or `first` where there was none. */
  predicate NextDraft(before: Invitation, after: Option<Invitation>, date: Text, first: Option<nat>) {
    && after.Some? && after.value.expiresFrom == date
    && after.value.draftRevision == if before.draftRevision.Some? then Some(before.draftRevision.value + 1) else first
  }

  /** A submission gets as far as its transaction exactly with the stored revision of a brief that completes and has
      its photos ready, and carries that document and its event. */
  lemma ReadsExactlyWhen(complete: Completion, db: Db, revision: nat, galleryReady: bool)
    ensures var read := SubmitRead(complete, db, revision, galleryReady);
            && (read.Ok? <==>
                  db.brief.Some? && db.brief.value.revision == revision && complete(db.brief.value.document).Ok? && galleryReady)
            && (read.Ok? ==>
                  read.value.document == db.brief.value.document && read.value.revision == revision
                  && complete(read.value.document) == Ok(read.value.event))
  {
  }

  /** Its transaction takes effect exactly while the revision is still stored, the activities' ids are free and the
      theme is released; otherwise everything is taken back. */
  lemma SubmittedExactlyWhen(clock: Clock, db: Db, h: Held, taken: set<Text>, released: bool, productionReady: bool)
    ensures var (db', result) := SubmitWrite(clock, db, h, taken, released, productionReady);
            && (result.Ok? <==>
                  && db.brief.Some? && db.brief.value.revision == h.revision && db.rows.Some? && released
                  && (forall i :: 0 <= i < |h.event.activities| ==> h.event.activities[i].id !in taken)
                  && (forall i, j :: 0 <= i < j < |h.event.activities| ==> h.event.activities[i].id != h.event.activities[j].id))
            && (result.Err? ==> db' == db)
  {
  }

  /** What it leaves: the brief submitted as it is, the event's rows in place of the old ones under the next content
      revision, the invitation expiring by the event's date with the next draft, and the order submitted,
      ready for production if it can be, but not reopened once delivered or closed. */
  lemma SubmissionIs(clock: Clock, db: Db, h: Held, taken: set<Text>, released: bool, productionReady: bool)
    requires SubmitWrite(clock, db, h, taken, released, productionReady).1.Ok?
    ensures var db' := SubmitWrite(clock, db, h, taken, released, productionReady).0;
            && db'.brief == Some(BriefRow(db.brief.value.document, h.revision, true))
            && db'.eventId == db.eventId && db'.eventVariant == db.eventVariant && db'.rows.Some?
            && db'.rows.value.contentRevision == db.rows.value.contentRevision + 1
            && db'.rows.value == RowsOf(clock, h.event, db'.rows.value.contentRevision)
            && db'.order.submitted
            && db'.order.state == (if db.order.state in {Delivered, Closed} then db.order.state
                                   else if productionReady then ReadyForProduction else Collecting)
            && (if db.invitation.Some? then NextDraft(db.invitation.value, db'.invitation, h.event.primaryLocalDate, Some(1))
                else db'.invitation.Some? && db'.invitation.value.expiresFrom == h.event.primaryLocalDate
                     && db'.invitation.value.draftRevision == Some(1))
  {
  }

  /** The rows hold the event: each activity and participant at its place, its details and its texts. */
  lemma RowsHoldTheEvent(clock: Clock, e: Event, revision: nat)
    ensures var r := RowsOf(clock, e, revision);
            && r.timezone == e.timezone && r.primaryLocalDate == e.primaryLocalDate && r.rsvpDeadline == e.rsvpDeadline
            && |r.activities| == |e.activities| && |r.participants| == |e.participants| && r.details.variant == e.variant
            && (forall i :: 0 <= i < |e.activities| ==>
                  var row, a := r.activities[i], e.activities[i];
                  && row.id == a.id && row.kind == a.kind && row.title == a.title && row.startsAt == clock.instant(a.startsAt)
                  && row.venueName == a.venueName && row.address == a.address && row.mapUrl == a.mapUrl)
            && (forall i :: 0 <= i < |e.participants| ==>
                  && r.participants[i].person == e.participants[i]
                  && r.participants[i].groupKey == match e.variant
                                                   case Wedding(_, _) => WeddingParty
                                                   case Birthday(_, _) => Participants
                                                   case Debut(_) => Candles
                                                   case Christening(_, _) => Godparents)
            && (r.details.hostWording == if HostWording in e.texts && e.texts[HostWording] != [] then Some(e.texts[HostWording]) else None)
            && (forall k :: k in r.content <==> k != HostWording && k in e.texts && e.texts[k] != [])
            && (forall k :: k in r.content ==> r.content[k] == e.texts[k])
  {
    TextsRestored(clock, e, revision);
    EveryKeyListed();
    forall k: TextKey ensures k in CONTENT_KEYS <==> k != HostWording {
      match k
      case HostWording =>
      case Story => assert CONTENT_KEYS[0] == k;
      case DressCode => assert CONTENT_KEYS[1] == k;
      case GiftInformation => assert CONTENT_KEYS[2] == k;
    }
  }

  // ----- Where briefs start -----

  /** The first look at an order's brief stores it at revision 1, not submitted; later looks change nothing. */
  lemma FirstLookStoresIt(complete: Completion, clock: Clock, s: System, document: Document)
    ensures var s' := Next(complete, clock, s, EnsureBrief(document));
            && s'.held == s.held && s'.db == s.db.(brief := s'.db.brief)
            && s'.db.brief == if s.db.rows.Some? && s.db.brief.None? then Some(BriefRow(document, 1, false)) else s.db.brief
  {
  }

  /** The order of a paid purchase shows the event as it was read, and keeps the stored document for a submission. */
  lemma PlacedOrderShowsWhatWasRead(f: Formats, clock: Clock, stored: Document, read: Event)
    requires Parsed(f, read) && forall t :: PrintsValid(f, clock, t)
    ensures var db := Placed(clock, stored, read);
            && db.eventId == read.id && db.eventVariant == read.variant && db.rows.Some? && db.rows.value.contentRevision == 1
            && Hydrate(f, clock, read.id, db.rows.value) == Ok(Normal(clock, read))
            && db.brief == Some(BriefRow(stored, 1, false)) && db.invitation == None && db.order == Order(New, false)
  {
    RowsReadBack(f, clock, read, 1);
  }
}
