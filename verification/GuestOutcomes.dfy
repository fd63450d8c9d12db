/** What each transaction of guest access comes to, row by row: which links and sessions it opens,
    which it closes, and that it leaves every other household alone (lib/guests/service.ts). */
module GuestOutcomes {

  import opened Wrappers
  import opened GuestAccess
  import opened GuestAccessSafety

  // ----- Rows of other households -----

  /** Households outside `groups` keep their links and sessions, and get no others. */
  ghost predicate SameElsewhere(db: Db, db': Db, groups: set<Id>) {
    && (forall l :: l in db.links && db.links[l].group !in groups ==> l in db'.links && db'.links[l] == db.links[l])
    && (forall l :: l in db'.links && db'.links[l].group !in groups ==> l in db.links && db'.links[l] == db.links[l])
    && (forall x :: x in db.sessions && db.sessions[x].group !in groups ==> x in db'.sessions && db'.sessions[x] == db.sessions[x])
    && (forall x :: x in db'.sessions && db'.sessions[x].group !in groups ==> x in db.sessions && db'.sessions[x] == db.sessions[x])
  }

  /** Every link and session of these households is revoked, and none has gone. */
  ghost predicate Closed(db: Db, db': Db, groups: set<Id>) {
    && (forall l :: l in db.links && db.links[l].group in groups ==>
          l in db'.links && db'.links[l] == db.links[l].(revoked := true))
    && (forall x :: x in db.sessions && db.sessions[x].group in groups ==>
          x in db'.sessions && db'.sessions[x] == db.sessions[x].(revoked := true))
  }

  // ----- Links that are issued -----

  /** An unrevoked link of a household with this credential, the only link that has it. */
  ghost predicate Issued(db: Db, group: Id, link: Id, digest: Id, expiresAt: int) {
    && link in db.links && db.links[link].group == group && db.links[link].digest == digest
    && db.links[link].expiresAt == expiresAt && !db.links[link].revoked
    && forall l :: l in db.links && db.links[l].digest == digest ==> l == link
  }

  /** The household may be entered now. */
  predicate Open(db: Db, group: Id, now: int) {
    && group in db.groups && db.groups[group].active && db.groups[group].invitation in db.invitations
    && var i := db.invitations[db.groups[group].invitation];
    && i.availability == Live && i.expiresAt > now
  }

  /** A link that was issued opens its household exactly while the household is open and the link
      has not expired. */
  lemma IssuedLinkIsUsable(db: Db, group: Id, link: Id, digest: Id, expiresAt: int, slug: Id, now: int)
    requires Issued(db, group, link, digest, expiresAt)
    ensures Usable(db, slug, link, now) <==>
              Open(db, group, now) && expiresAt > now && db.invitations[db.groups[group].invitation].slug == slug
  {
  }

  /** A rotation succeeds exactly for a household of the invitation with a new id and digest. Then its
      new link is issued with the next generation, everything it had before is closed, and
      nothing else changes. */
  lemma RotationIssuesALink(db: Db, invitation: Id, group: Id, link: Id, digest: Id, expiresAt: int)
    ensures Rotate(db, invitation, group, link, digest, expiresAt).Ok? <==>
              OwnsGroup(db, invitation, group) && link !in db.links && forall l :: l in db.links ==> db.links[l].digest != digest
    ensures Rotate(db, invitation, group, link, digest, expiresAt).Ok? ==>
              var db' := Rotate(db, invitation, group, link, digest, expiresAt).value;
              && Issued(db', group, link, digest, expiresAt)
              && (forall l :: l in db.links && db.links[l].group == group ==>
                    db.links[l].generation < db'.links[link].generation <= MaxGeneration(db.links, group) + 1)
              && Closed(db, db', {group}) && SameElsewhere(db, db', {group})
              && db'.links.Keys == db.links.Keys + {link} && db'.sessions.Keys == db.sessions.Keys
              && db'.invitations == db.invitations && db'.groups == db.groups
  {
    MaxIsReached(db.links, group);
  }

  /** So the credential that a rotation hands out lets its holder in, whenever the household is open. */
  lemma RotatedLinkLetsIn(s: System, invitation: Id, group: Id, link: Id, digest: Id, expiresAt: int, session: Id,
                          sessionDigest: Id)
    requires Inv(s) && Rotate(s.db, invitation, group, link, digest, expiresAt).Ok?
    requires Open(s.db, group, s.now) && s.db.invitations[invitation].hasLiveVersion && expiresAt > s.now
    requires session !in s.db.sessions && !SessionDigestTaken(s.db.sessions, sessionDigest)
    ensures var slug, s' := s.db.invitations[invitation].slug, Next(s, RotateLink(invitation, group, link, digest, expiresAt));
            && Usable(s'.db, slug, link, s'.now)
            && Authorises(Run(s', [ReadGrant(slug, link), WriteSession(GrantOf(s'.db, link, s'.now), session, sessionDigest)]),
                          slug, session)
  {
    var e := RotateLink(invitation, group, link, digest, expiresAt);
    StepKeeps(s, e);
    RotatedLinkIsUsable(s.db, s.now, invitation, group, link, digest, expiresAt, session, sessionDigest);
    UsableLinkLetsIn(Next(s, e), s.db.invitations[invitation].slug, link, session, sessionDigest);
  }

  lemma RotatedLinkIsUsable(db: Db, now: int, invitation: Id, group: Id, link: Id, digest: Id, expiresAt: int, session: Id,
                            sessionDigest: Id)
    requires Rotate(db, invitation, group, link, digest, expiresAt).Ok? && Open(db, group, now) && expiresAt > now
    requires session !in db.sessions && !SessionDigestTaken(db.sessions, sessionDigest)
    ensures var db' := Rotate(db, invitation, group, link, digest, expiresAt).value;
            && Usable(db', db.invitations[invitation].slug, link, now)
            && db'.links[link].group == group && db'.groups == db.groups && db'.invitations == db.invitations
            && session !in db'.sessions && !SessionDigestTaken(db'.sessions, sessionDigest)
  {
    RotationIssuesALink(db, invitation, group, link, digest, expiresAt);
    var db' := Rotate(db, invitation, group, link, digest, expiresAt).value;
    IssuedLinkIsUsable(db', group, link, digest, expiresAt, db.invitations[invitation].slug, now);
    NoSessionAdded(db, db', session, sessionDigest);
  }

  lemma NoSessionAdded(db: Db, db': Db, session: Id, digest: Id)
    requires session !in db.sessions && !SessionDigestTaken(db.sessions, digest) && db'.sessions.Keys == db.sessions.Keys
    requires forall x :: x in db.sessions ==> db'.sessions[x].digest == db.sessions[x].digest
    ensures session !in db'.sessions && !SessionDigestTaken(db'.sessions, digest)
  {
  }

  // ----- Households that are added -----

  /** An active household of the invitation whose first link is issued. */
  ghost predicate Added(db: Db, invitation: Id, draw: Draw, expiresAt: int) {
    && draw.group in db.groups && db.groups[draw.group] == Group(invitation, true)
    && Issued(db, draw.group, draw.link, draw.digest, expiresAt) && db.links[draw.link].generation == 1
  }

  /** Rows drawn for new households, all different and none taken. */
  ghost predicate Fresh(db: Db, draws: seq<Draw>) {
    && (forall k :: 0 <= k < |draws| ==>
          draws[k].group !in db.groups && draws[k].link !in db.links
          && forall l :: l in db.links ==> db.links[l].digest != draws[k].digest)
    && (forall j, k :: 0 <= j < k < |draws| ==> Apart(draws[j], draws[k]))
  }

  predicate Apart(d: Draw, d': Draw) { d.group != d'.group && d.link != d'.link && d.digest != d'.digest }

  /** Nothing there before has changed. */
  ghost predicate OnlyAdded(db: Db, db': Db, draws: seq<Draw>) {
    && db'.invitations == db.invitations && db'.sessions == db.sessions
    && (forall g :: g in db.groups ==> g in db'.groups && db'.groups[g] == db.groups[g])
    && (forall l :: l in db.links ==> l in db'.links && db'.links[l] == db.links[l])
    && (forall g :: g in db'.groups && g !in db.groups ==> exists k :: 0 <= k < |draws| && draws[k].group == g)
    && (forall l :: l in db'.links && l !in db.links ==> exists k :: 0 <= k < |draws| && draws[k].link == l)
  }

  lemma InsertedAdds(db: Db, invitation: Id, draw: Draw, expiresAt: int)
    requires Insertable(db, invitation, draw)
    ensures Added(Inserted(db, invitation, draw, expiresAt), invitation, draw, expiresAt)
    ensures OnlyAdded(db, Inserted(db, invitation, draw, expiresAt), [draw])
  {
    assert [draw][0] == draw;
  }

  lemma FreshTail(db: Db, invitation: Id, draws: seq<Draw>, expiresAt: int)
    requires draws != [] && invitation in db.invitations
    ensures Fresh(db, draws) <==> Insertable(db, invitation, draws[0]) && Fresh(Inserted(db, invitation, draws[0], expiresAt), draws[1..])
  {
    var db' := Inserted(db, invitation, draws[0], expiresAt);
    if Fresh(db, draws) {
      forall k | 0 <= k < |draws| - 1
        ensures draws[1..][k].group !in db'.groups && draws[1..][k].link !in db'.links
        ensures forall l :: l in db'.links ==> db'.links[l].digest != draws[1..][k].digest
      {
        assert Apart(draws[0], draws[k + 1]);
      }
      forall j, k | 0 <= j < k < |draws| - 1 ensures Apart(draws[1..][j], draws[1..][k]) {
        assert Apart(draws[j + 1], draws[k + 1]);
      }
    }
    if Insertable(db, invitation, draws[0]) && Fresh(db', draws[1..]) {
      forall k | 1 <= k < |draws|
        ensures draws[k].group !in db.groups && draws[k].link !in db.links && Apart(draws[0], draws[k])
        ensures forall l :: l in db.links ==> db.links[l].digest != draws[k].digest
      {
        assert draws[1..][k - 1] == draws[k];
        assert db'.links[draws[0].link].digest == draws[0].digest;
        assert forall l :: l in db.links ==> l in db'.links && db'.links[l] == db.links[l];
      }
      forall j, k | 0 <= j < k < |draws| ensures Apart(draws[j], draws[k]) {
        if j > 0 { assert Apart(draws[1..][j - 1], draws[1..][k - 1]); }
      }
    }
  }

  lemma {:induction false} AllInserted(db: Db, invitation: Id, draws: seq<Draw>, expiresAt: int)
    requires invitation in db.invitations
    ensures InsertAll(db, invitation, draws, expiresAt).Some? <==> Fresh(db, draws)
    ensures InsertAll(db, invitation, draws, expiresAt).Some? ==>
              var db' := InsertAll(db, invitation, draws, expiresAt).value;
              OnlyAdded(db, db', draws) && forall k :: 0 <= k < |draws| ==> Added(db', invitation, draws[k], expiresAt)
    decreases |draws|
  {
    if draws != [] {
      FreshTail(db, invitation, draws, expiresAt);
      var mid := Inserted(db, invitation, draws[0], expiresAt);
      if Insertable(db, invitation, draws[0]) { AllInserted(mid, invitation, draws[1..], expiresAt); }
      if Fresh(db, draws) {
        InsertedAdds(db, invitation, draws[0], expiresAt);
        var db' := InsertAll(db, invitation, draws, expiresAt).value;
        OnlyAddedMore(db, mid, db', draws);
        AddedStays(mid, db', invitation, draws[0], draws[1..], expiresAt);
        forall k | 0 <= k < |draws| ensures Added(db', invitation, draws[k], expiresAt) {
          if k > 0 { assert draws[1..][k - 1] == draws[k]; }
        }
      }
    }
  }

  lemma OnlyAddedMore(db: Db, mid: Db, db': Db, draws: seq<Draw>)
    requires draws != [] && OnlyAdded(db, mid, [draws[0]]) && OnlyAdded(mid, db', draws[1..])
    ensures OnlyAdded(db, db', draws)
  {
    forall g | g in db'.groups && g !in db.groups ensures exists k :: 0 <= k < |draws| && draws[k].group == g {
      if g in mid.groups {
        assert draws[0].group == g;
      } else {
        var k :| 0 <= k < |draws| - 1 && draws[1..][k].group == g;
        assert draws[k + 1].group == g;
      }
    }
    forall l | l in db'.links && l !in db.links ensures exists k :: 0 <= k < |draws| && draws[k].link == l {
      if l in mid.links {
        assert draws[0].link == l;
      } else {
        var k :| 0 <= k < |draws| - 1 && draws[1..][k].link == l;
        assert draws[k + 1].link == l;
      }
    }
  }

  /** What was added first is still there after the rest. */
  lemma AddedStays(mid: Db, db': Db, invitation: Id, first: Draw, rest: seq<Draw>, expiresAt: int)
    requires Fresh(mid, rest) && Added(mid, invitation, first, expiresAt) && OnlyAdded(mid, db', rest)
    requires forall k :: 0 <= k < |rest| ==> Added(db', invitation, rest[k], expiresAt)
    ensures Added(db', invitation, first, expiresAt)
  {
    assert mid.links[first.link].digest == first.digest;
    forall l | l in db'.links && l !in mid.links ensures db'.links[l].digest != first.digest {
      var k :| 0 <= k < |rest| && rest[k].link == l;
      assert Added(db', invitation, rest[k], expiresAt);
    }
  }

  /** An import succeeds exactly when it stays within the limit and its rows are fresh. Then every
      household of it is there with a working first link, and nothing else changes. */
  lemma ImportAddsHouseholds(db: Db, invitation: Id, draws: seq<Draw>, expiresAt: int)
    ensures Import(db, invitation, draws, expiresAt).Ok? <==>
              invitation in db.invitations && draws != [] && |GroupsOf(db.groups, invitation)| + |draws| <= 500 && Fresh(db, draws)
    ensures Import(db, invitation, draws, expiresAt).Ok? ==>
              var db' := Import(db, invitation, draws, expiresAt).value;
              OnlyAdded(db, db', draws) && forall k :: 0 <= k < |draws| ==> Added(db', invitation, draws[k], expiresAt)
  {
    if invitation in db.invitations { AllInserted(db, invitation, draws, expiresAt); }
  }

  /** The same of a single household. */
  lemma CreationAddsAHousehold(db: Db, invitation: Id, draw: Draw, expiresAt: int)
    ensures Create(db, invitation, draw, expiresAt).Ok? <==>
              invitation in db.invitations && |GroupsOf(db.groups, invitation)| < 500 && Fresh(db, [draw])
    ensures Create(db, invitation, draw, expiresAt).Ok? ==>
              var db' := Create(db, invitation, draw, expiresAt).value;
              OnlyAdded(db, db', [draw]) && Added(db', invitation, draw, expiresAt)
  {
    if invitation in db.invitations { FreshTail(db, invitation, [draw], expiresAt); }
    if Insertable(db, invitation, draw) { InsertedAdds(db, invitation, draw, expiresAt); }
  }

  // ----- Revocation, availability, deletion -----

  lemma RevocationCloses(db: Db, invitation: Id, group: Id)
    ensures Revoke(db, invitation, group).Ok? <==> group in db.groups && db.groups[group].invitation == invitation
    ensures Revoke(db, invitation, group).Ok? ==>
              var db' := Revoke(db, invitation, group).value;
              && Closed(db, db', {group}) && SameElsewhere(db, db', {group})
              && db'.links.Keys == db.links.Keys && db'.sessions.Keys == db.sessions.Keys
              && db'.invitations == db.invitations && db'.groups == db.groups
  {
  }

  /** Where each change may start and where it ends. Only a removal or an expiry closes the
      households, all of them and no others; these and a suspension raise the epoch. */
  lemma ChangesAre(db: Db, invitation: Id, change: Change, now: int)
    requires invitation in db.invitations
    ensures var i := db.invitations[invitation];
            ChangeAvailability(db, invitation, change, now).Ok? <==>
              match change
              case Suspend => i.availability == Live
              case Resume => i.availability == Suspended && i.expiresAt > now && i.hasLiveVersion
              case Remove => i.availability != Removed
              case Expire => i.availability == Live || i.availability == Suspended
              case AutoExpire => (i.availability == Live || i.availability == Suspended) && i.expiresAt <= now
              case Publish => i.availability != Expired && i.availability != Removed && i.expiresAt > now
    ensures ChangeAvailability(db, invitation, change, now).Ok? ==>
              var db' := ChangeAvailability(db, invitation, change, now).value;
              var i, i' := db.invitations[invitation], db'.invitations[invitation];
              var closing := change == Remove || change == Expire || change == AutoExpire;
              && (i'.availability == Live <==> change == Resume || change == Publish)
              && (i'.availability == Suspended <==> change == Suspend) && (i'.availability == Removed <==> change == Remove)
              && i'.epoch == (if closing || change == Suspend then i.epoch + 1 else i.epoch)
              && i'.slug == i.slug && i'.expiresAt == i.expiresAt && (i'.hasLiveVersion <==> i.hasLiveVersion || change == Publish)
              && (forall j :: j in db.invitations && j != invitation ==> j in db'.invitations && db'.invitations[j] == db.invitations[j])
              && db'.invitations.Keys == db.invitations.Keys && db'.groups == db.groups
              && (if closing then
                    Closed(db, db', GroupsOf(db.groups, invitation)) && SameElsewhere(db, db', GroupsOf(db.groups, invitation))
                  else db'.links == db.links && db'.sessions == db.sessions)
  {
    assert RevokeLinks(db.links, {}) == db.links && RevokeSessions(db.sessions, {}) == db.sessions;
  }

  /** Deleting an invitation takes its households, links and sessions with it and nothing else. */
  lemma PurgeTakesItsHouseholds(db: Db, invitation: Id)
    ensures var db', gone := Purge(db, invitation), GroupsOf(db.groups, invitation);
            && db'.invitations == db.invitations - {invitation} && SameElsewhere(db, db', gone)
            && (forall g :: g in db'.groups <==> g in db.groups && db.groups[g].invitation != invitation)
            && (forall g :: g in db'.groups ==> db'.groups[g] == db.groups[g])
            && (forall l :: l in db'.links ==> db'.links[l].group !in gone)
            && (forall x :: x in db'.sessions ==> db'.sessions[x].group !in gone)
  {
  }

  /** A submitted brief moves an invitation's expiry and nothing else, or adds one not yet published. */
  lemma SavedInvitationIs(db: Db, invitation: Id, slug: Id, expiresAt: int)
    ensures var db' := SaveInvitation(db, invitation, slug, expiresAt);
            && invitation in db'.invitations && db'.invitations[invitation].expiresAt == expiresAt
            && (if invitation in db.invitations then
                  db'.invitations[invitation].(expiresAt := 0) == db.invitations[invitation].(expiresAt := 0)
                else db'.invitations[invitation].availability == Unpublished && !db'.invitations[invitation].hasLiveVersion
                     && db'.invitations[invitation].slug == slug && db'.invitations[invitation].epoch == 1)
            && (forall j :: j in db.invitations && j != invitation ==> j in db'.invitations && db'.invitations[j] == db.invitations[j])
            && db'.groups == db.groups && db'.links == db.links && db'.sessions == db.sessions
  {
  }

  // ----- Exchanges and checks -----

  /** An exchange's grant lasts 30 days, or until its link or its invitation expires, whichever comes
      first, and carries the link's generation and the epoch of the invitation. */
  lemma GrantEndsFirst(db: Db, slug: Id, link: Id, now: int)
    requires Usable(db, slug, link, now)
    ensures var t, l := GrantOf(db, link, now), db.links[link];
            var i := db.invitations[db.groups[l.group].invitation];
            && t.expiresAt <= now + 30 * 24 * 3600 * 1000 && t.expiresAt <= l.expiresAt && t.expiresAt <= i.expiresAt
            && (t.expiresAt == now + 30 * 24 * 3600 * 1000 || t.expiresAt == l.expiresAt || t.expiresAt == i.expiresAt)
            && t.expiresAt > now && t.group == l.group && t.generation == l.generation && t.epoch == i.epoch
  {
  }

  /** The insert adds one session of the grant, or is refused and changes nothing. */
  lemma InsertedSessionIs(db: Db, grant: Grant, session: Id, digest: Id)
    ensures InsertSession(db, grant, session, digest).Ok? <==>
              grant.group in db.groups && session !in db.sessions && forall x :: x in db.sessions ==> db.sessions[x].digest != digest
    ensures InsertSession(db, grant, session, digest).Ok? ==>
              var db' := InsertSession(db, grant, session, digest).value;
              && db'.sessions.Keys == db.sessions.Keys + {session} && db'.sessions[session].digest == digest
              && db'.sessions[session].expiresAt == grant.expiresAt && !db'.sessions[session].revoked
              && Check(db'.sessions[session].group, db'.sessions[session].generation) == Check(grant.group, grant.generation)
              && db'.sessions[session].epoch == grant.epoch
              && (forall x :: x in db.sessions ==> db'.sessions[x] == db.sessions[x])
              && db'.links == db.links && db'.groups == db.groups && db'.invitations == db.invitations
  {
  }

  /** A check's first read carries the session's generation to the second exactly when the row passes, and time only
      moves on. */
  lemma ReadsAndWaitsAre(s: System, slug: Id, session: Id, duration: nat)
    ensures var s' := Next(s, ReadSession(slug, session));
            && s'.db == s.db && s'.now == s.now && s'.grants == s.grants
            && (if PassesRow(s.db, slug, session, s.now) then
                  s'.checks == s.checks + {Check(s.db.sessions[session].group, s.db.sessions[session].generation)}
                else s'.checks == s.checks)
    ensures Next(s, Wait(duration)) == s.(now := s.now + duration) && Next(s, Wait(duration)).now >= s.now
  {
  }

  /** Nobody enters a household that is not open, or through what is revoked, expired or meant for
      another address: no link of it can be exchanged and no session of it is authorised. */
  lemma NobodyEntersOtherwise(s: System, slug: Id, group: Id)
    ensures forall l :: Usable(s.db, slug, l, s.now) && s.db.links[l].group == group ==>
              Open(s.db, group, s.now) && !s.db.links[l].revoked && s.db.links[l].expiresAt > s.now
              && s.db.invitations[s.db.groups[group].invitation].slug == slug
    ensures forall x :: Authorises(s, slug, x) && s.db.sessions[x].group == group ==>
              && Open(s.db, group, s.now) && !s.db.sessions[x].revoked && s.db.sessions[x].expiresAt > s.now
              && s.db.invitations[s.db.groups[group].invitation].slug == slug
              && s.db.invitations[s.db.groups[group].invitation].hasLiveVersion
              && s.db.sessions[x].epoch == s.db.invitations[s.db.groups[group].invitation].epoch
              && exists l :: l in s.db.links && s.db.links[l].group == group && !s.db.links[l].revoked
                             && s.db.links[l].generation == s.db.sessions[x].generation && s.db.links[l].expiresAt > s.now
  {
  }
}
