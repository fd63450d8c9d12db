/** Guest links, sessions and access epochs (lib/guests/service.ts), with every transaction
    elsewhere that touches them. Identifiers, digests and times are opaque numbers. */
module GuestAccess {

  import opened Wrappers

  type Id = nat

  datatype Availability = Unpublished | Live | Suspended | Expired | Removed

  datatype Invitation = Invitation(slug: Id, availability: Availability, epoch: nat, expiresAt: int, hasLiveVersion: bool)

  datatype Group = Group(invitation: Id, active: bool)

  datatype Link = Link(group: Id, digest: Id, generation: nat, expiresAt: int, revoked: bool)

  datatype Session = Session(group: Id, generation: nat, epoch: nat, digest: Id, expiresAt: int, revoked: bool)

  datatype Db = Db(
    invitations: map<Id, Invitation>,
    groups: map<Id, Group>,
    links: map<Id, Link>,
    sessions: map<Id, Session>)

  datatype Error = NotFound | Conflict | Unauthorized | ConstraintViolation

  const HOUSEHOLD_LIMIT := 500
  const SESSION_DURATION := 30 * 86_400_000

  // ----- Transactions: an error rolls everything back -----

  function Answer(r: Result<Db, Error>): Result<(), Error> {
    match r case Ok(_) => Ok(()) case Err(e) => Err(e)
  }

  function After(r: Result<Db, Error>, before: Db): Db {
    match r case Ok(db) => db case Err(_) => before
  }

  function GroupsOf(groups: map<Id, Group>, invitation: Id): set<Id> {
    set g | g in groups && groups[g].invitation == invitation
  }

  function RevokeLinks(links: map<Id, Link>, groups: set<Id>): map<Id, Link> {
    map l | l in links :: if links[l].group in groups then links[l].(revoked := true) else links[l]
  }

  function RevokeSessions(sessions: map<Id, Session>, groups: set<Id>): map<Id, Session> {
    map s | s in sessions :: if sessions[s].group in groups then sessions[s].(revoked := true) else sessions[s]
  }

  predicate DigestTaken(links: map<Id, Link>, digest: Id) {
    exists l :: l in links && links[l].digest == digest
  }

  /** The ids and the credential digest drawn for a new household. */
  datatype Draw = Draw(group: Id, link: Id, digest: Id)

  predicate Insertable(db: Db, invitation: Id, draw: Draw) {
    && invitation in db.invitations && draw.group !in db.groups && draw.link !in db.links
    && !DigestTaken(db.links, draw.digest)
  }

  function Inserted(db: Db, invitation: Id, draw: Draw, expiresAt: int): Db {
    db.(groups := db.groups[draw.group := Group(invitation, true)],
        links := db.links[draw.link := Link(draw.group, draw.digest, 1, expiresAt, false)])
  }

  function InsertAll(db: Db, invitation: Id, draws: seq<Draw>, expiresAt: int): Option<Db>
    decreases |draws|
  {
    if draws == [] then Some(db)
    else if !Insertable(db, invitation, draws[0]) then None
    else InsertAll(Inserted(db, invitation, draws[0], expiresAt), invitation, draws[1..], expiresAt)
  }

  function Import(db: Db, invitation: Id, draws: seq<Draw>, expiresAt: int): Result<Db, Error> {
    if draws == [] || |GroupsOf(db.groups, invitation)| + |draws| > HOUSEHOLD_LIMIT then Err(Conflict)
    else match InsertAll(db, invitation, draws, expiresAt)
      case Some(db') => Ok(db')
      case None => Err(ConstraintViolation)
  }

  function Create(db: Db, invitation: Id, draw: Draw, expiresAt: int): Result<Db, Error> {
    if |GroupsOf(db.groups, invitation)| >= HOUSEHOLD_LIMIT then Err(Conflict)
    else if !Insertable(db, invitation, draw) then Err(ConstraintViolation)
    else Ok(Inserted(db, invitation, draw, expiresAt))
  }

  /** coalesce(max(generation), 0) over the household's links. */
  ghost function MaxGeneration(links: map<Id, Link>, group: Id): nat
    decreases |links|
  {
    if links == map[] then 0
    else
      var l :| l in links;
      var m := MaxGeneration(links - {l}, group);
      if links[l].group == group && links[l].generation > m then links[l].generation else m
  }

  lemma MaxIsReached(links: map<Id, Link>, group: Id)
    ensures var m := MaxGeneration(links, group);
            && (forall l :: l in links && links[l].group == group ==> links[l].generation <= m)
            && (m == 0 || exists l :: l in links && links[l].group == group && links[l].generation == m)
    decreases |links|
  {
    if links != map[] {
      var l :| l in links && MaxGeneration(links, group) ==
        (var m := MaxGeneration(links - {l}, group);
         if links[l].group == group && links[l].generation > m then links[l].generation else m);
      MaxIsReached(links - {l}, group);
      assert forall k :: k in links && k != l ==> k in links - {l};
    }
  }

  predicate OwnsGroup(db: Db, invitation: Id, group: Id) {
    group in db.groups && db.groups[group].invitation == invitation
  }

  function WithLink(db: Db, link: Id, issue: Link): Db {
    db.(links := db.links[link := issue])
  }

  function Revoked(db: Db, groups: set<Id>): Db {
    db.(links := RevokeLinks(db.links, groups), sessions := RevokeSessions(db.sessions, groups))
  }

  ghost function Rotate(db: Db, invitation: Id, group: Id, link: Id, digest: Id, expiresAt: int): Result<Db, Error> {
    if !OwnsGroup(db, invitation, group) then Err(NotFound)
    else if link in db.links || DigestTaken(db.links, digest) then Err(ConstraintViolation)
    else
      var generation := MaxGeneration(db.links, group) + 1;
      Ok(WithLink(Revoked(db, {group}), link, Link(group, digest, generation, expiresAt, false)))
  }

  function Revoke(db: Db, invitation: Id, group: Id): Result<Db, Error> {
    if !OwnsGroup(db, invitation, group) then Err(NotFound)
    else Ok(Revoked(db, {group}))
  }

  datatype Change = Suspend | Resume | Remove | Expire | AutoExpire | Publish

  predicate Allowed(i: Invitation, change: Change, now: int) {
    match change
    case Suspend => i.availability == Live
    case Resume => i.availability == Suspended && i.expiresAt > now && i.hasLiveVersion
    case Remove => i.availability != Removed
    case Expire => i.availability in {Live, Suspended}
    case AutoExpire => i.availability in {Live, Suspended} && i.expiresAt <= now
    case Publish => i.availability !in {Expired, Removed} && i.expiresAt > now
  }

  function Target(change: Change): Availability {
    match change
    case Suspend => Suspended
    case Resume => Live
    case Remove => Removed
    case Expire => Expired
    case AutoExpire => Expired
    case Publish => Live
  }

  predicate BumpsEpoch(change: Change) { change in {Suspend, Remove, Expire, AutoExpire} }

  predicate RevokesAll(change: Change) { change in {Remove, Expire, AutoExpire} }

  /** Availability changes, including automatic expiry, publication and the suspension of a refund. */
  function ChangeAvailability(db: Db, invitation: Id, change: Change, now: int): Result<Db, Error> {
    if invitation !in db.invitations then Err(NotFound)
    else if !Allowed(db.invitations[invitation], change, now) then Err(Conflict)
    else
      var i := db.invitations[invitation];
      var i' := i.(availability := Target(change),
                   epoch := if BumpsEpoch(change) then i.epoch + 1 else i.epoch,
                   hasLiveVersion := i.hasLiveVersion || change == Publish);
      var groups := if RevokesAll(change) then GroupsOf(db.groups, invitation) else {};
      Ok(Revoked(db.(invitations := db.invitations[invitation := i']), groups))
  }

  /** Submission of a brief inserts the invitation or moves its expiry. */
  function SaveInvitation(db: Db, invitation: Id, slug: Id, expiresAt: int): Db {
    var row := if invitation in db.invitations then db.invitations[invitation].(expiresAt := expiresAt)
               else Invitation(slug, Unpublished, 1, expiresAt, false);
    db.(invitations := db.invitations[invitation := row])
  }

  function SetActive(db: Db, group: Id, active: bool): Db {
    if group in db.groups then db.(groups := db.groups[group := db.groups[group].(active := active)]) else db
  }

  /** Deleting an invitation cascades to its households, their links and their sessions. */
  function Purge(db: Db, invitation: Id): Db {
    var gone := GroupsOf(db.groups, invitation);
    Db(db.invitations - {invitation}, db.groups - gone,
       map l | l in db.links && db.links[l].group !in gone :: db.links[l],
       map s | s in db.sessions && db.sessions[s].group !in gone :: db.sessions[s])
  }

  // ----- The exchange and the check, each two separate steps -----

  /** What the exchange read, and carries to its insert. */
  datatype Grant = Grant(group: Id, generation: nat, epoch: nat, expiresAt: int)

  function Min(a: int, b: int): int { if a < b then a else b }

  /** The row the exchange's join finds is usable. */
  predicate Usable(db: Db, slug: Id, link: Id, now: int) {
    && link in db.links && !db.links[link].revoked && db.links[link].group in db.groups
    && var g := db.groups[db.links[link].group];
    && g.invitation in db.invitations
    && var i := db.invitations[g.invitation];
    && i.slug == slug && g.active && i.availability == Live && db.links[link].expiresAt > now && i.expiresAt > now
  }

  function GrantOf(db: Db, link: Id, now: int): Grant
    requires link in db.links && db.links[link].group in db.groups
    requires db.groups[db.links[link].group].invitation in db.invitations
  {
    var l := db.links[link];
    var i := db.invitations[db.groups[l.group].invitation];
    Grant(l.group, l.generation, i.epoch, Min(now + SESSION_DURATION, Min(l.expiresAt, i.expiresAt)))
  }

  predicate SessionDigestTaken(sessions: map<Id, Session>, digest: Id) {
    exists s :: s in sessions && sessions[s].digest == digest
  }

  function InsertSession(db: Db, grant: Grant, session: Id, digest: Id): Result<Db, Error> {
    if grant.group !in db.groups || session in db.sessions || SessionDigestTaken(db.sessions, digest) then
      Err(ConstraintViolation)
    else
      Ok(db.(sessions := db.sessions[session :=
        Session(grant.group, grant.generation, grant.epoch, digest, grant.expiresAt, false)]))
  }

  /** What the first read of a check carries to the second. */
  datatype Check = Check(group: Id, generation: nat)

  /** The first read of a check: the session row joined to its household and invitation. */
  predicate PassesRow(db: Db, slug: Id, session: Id, now: int) {
    && session in db.sessions && !db.sessions[session].revoked && db.sessions[session].group in db.groups
    && var s, g := db.sessions[session], db.groups[db.sessions[session].group];
    && g.invitation in db.invitations
    && var i := db.invitations[g.invitation];
    && i.slug == slug && i.hasLiveVersion && g.active && i.availability == Live
    && s.expiresAt > now && i.expiresAt > now && s.epoch == i.epoch
  }

  /** The second read of a check: an unrevoked link of the session's generation. */
  predicate PassesLink(db: Db, check: Check, now: int) {
    exists l :: l in db.links && db.links[l].group == check.group && db.links[l].generation == check.generation
                && !db.links[l].revoked && db.links[l].expiresAt > now
  }

  // ----- The store -----

  class GuestStore {
    var invitations: map<Id, Invitation>
    var groups: map<Id, Group>
    var links: map<Id, Link>
    var sessions: map<Id, Session>

    ghost function State(): Db
      reads this
    {
      Db(invitations, groups, links, sessions)
    }

    method CreateHousehold(invitation: Id, draw: Draw, expiresAt: int) returns (result: Result<(), Error>)
      modifies this
      ensures result == Answer(Create(old(State()), invitation, draw, expiresAt))
      ensures State() == After(Create(old(State()), invitation, draw, expiresAt), old(State()))
    {
      var count := |GroupsOf(groups, invitation)|;
      if count >= HOUSEHOLD_LIMIT {
        return Err(Conflict);
      }
      var taken := exists l :: l in links && links[l].digest == draw.digest;
      if invitation !in invitations || draw.group in groups || draw.link in links || taken {
        return Err(ConstraintViolation);
      }
      groups := groups[draw.group := Group(invitation, true)];
      links := links[draw.link := Link(draw.group, draw.digest, 1, expiresAt, false)];
      return Ok(());
    }

    /** One transaction: a row that violates a constraint rolls every earlier row back. */
    method ImportHouseholds(invitation: Id, draws: seq<Draw>, expiresAt: int) returns (result: Result<(), Error>)
      modifies this
      ensures result == Answer(Import(old(State()), invitation, draws, expiresAt))
      ensures State() == After(Import(old(State()), invitation, draws, expiresAt), old(State()))
    {
      if draws == [] {
        return Err(Conflict);
      }
      var count := |GroupsOf(groups, invitation)|;
      if count + |draws| > HOUSEHOLD_LIMIT {
        return Err(Conflict);
      }
      var groups0, links0 := groups, links;
      for index := 0 to |draws|
        invariant invitations == old(invitations) && sessions == old(sessions)
        invariant InsertAll(old(State()), invitation, draws, expiresAt)
               == InsertAll(State(), invitation, draws[index..], expiresAt)
      {
        var draw := draws[index];
        assert draws[index..][0] == draw && draws[index..][1..] == draws[index + 1..];
        var taken := exists l :: l in links && links[l].digest == draw.digest;
        if invitation !in invitations || draw.group in groups || draw.link in links || taken {
          assert !Insertable(State(), invitation, draw);
          groups, links := groups0, links0;
          return Err(ConstraintViolation);
        }
        groups := groups[draw.group := Group(invitation, true)];
        links := links[draw.link := Link(draw.group, draw.digest, 1, expiresAt, false)];
      }
      return Ok(());
    }

    method RotateHouseholdLink(invitation: Id, group: Id, link: Id, digest: Id, expiresAt: int)
      returns (result: Result<(), Error>)
      modifies this
      ensures result == Answer(Rotate(old(State()), invitation, group, link, digest, expiresAt))
      ensures State() == After(Rotate(old(State()), invitation, group, link, digest, expiresAt), old(State()))
    {
      if group !in groups || groups[group].invitation != invitation {
        return Err(NotFound);
      }
      var taken := exists l :: l in links && links[l].digest == digest;
      if link in links || taken {
        return Err(ConstraintViolation);
      }
      var generation := HighestGeneration(group);
      links := RevokeLinks(links, {group});
      sessions := RevokeSessions(sessions, {group});
      links := links[link := Link(group, digest, generation + 1, expiresAt, false)];
      return Ok(());
    }

    method HighestGeneration(group: Id) returns (highest: nat)
      ensures highest == MaxGeneration(links, group)
    {
      highest := 0;
      var todo := links.Keys;
      while todo != {}
        invariant todo <= links.Keys
        invariant forall l :: l in links.Keys - todo && links[l].group == group ==> links[l].generation <= highest
        invariant highest == 0 || exists l :: l in links && links[l].group == group && links[l].generation == highest
        decreases todo
      {
        var l :| l in todo;
        todo := todo - {l};
        if links[l].group == group && links[l].generation > highest {
          highest := links[l].generation;
        }
      }
      MaxIsReached(links, group);
    }

    method RevokeHouseholdLink(invitation: Id, group: Id) returns (result: Result<(), Error>)
      modifies this
      ensures result == Answer(Revoke(old(State()), invitation, group))
      ensures State() == After(Revoke(old(State()), invitation, group), old(State()))
    {
      if group !in groups || groups[group].invitation != invitation {
        return Err(NotFound);
      }
      links := RevokeLinks(links, {group});
      sessions := RevokeSessions(sessions, {group});
      return Ok(());
    }

    /** The read of the exchange: the row with this digest, if it is usable. */
    method ReadGrant(slug: Id, digest: Id, now: int) returns (result: Result<Grant, Error>)
      ensures result.Err? ==> forall l :: l in links && links[l].digest == digest ==> !Usable(State(), slug, l, now)
      ensures result.Ok? ==> exists l :: l in links && links[l].digest == digest && Usable(State(), slug, l, now)
                                         && result.value == GrantOf(State(), l, now)
    {
      var db := Db(invitations, groups, links, sessions);
      if exists l :: l in links && links[l].digest == digest && Usable(db, slug, l, now) {
        var l :| l in links && links[l].digest == digest && Usable(db, slug, l, now);
        return Ok(GrantOf(db, l, now));
      }
      return Err(Unauthorized);
    }

    /** The write of the exchange: only the foreign key and the unique digest are checked. */
    method WriteSession(grant: Grant, session: Id, digest: Id) returns (result: Result<(), Error>)
      modifies this
      ensures result == Answer(InsertSession(old(State()), grant, session, digest))
      ensures State() == After(InsertSession(old(State()), grant, session, digest), old(State()))
    {
      var taken := exists s :: s in sessions && sessions[s].digest == digest;
      if grant.group !in groups || session in sessions || taken {
        return Err(ConstraintViolation);
      }
      sessions := sessions[session :=
        Session(grant.group, grant.generation, grant.epoch, digest, grant.expiresAt, false)];
      return Ok(());
    }

    /** The automatic expiry of the retention sweep. */
    method ExpireInvitation(invitation: Id, now: int) returns (expired: bool)
      modifies this
      ensures expired <==> ChangeAvailability(old(State()), invitation, AutoExpire, now).Ok?
      ensures State() == After(ChangeAvailability(old(State()), invitation, AutoExpire, now), old(State()))
    {
      if invitation !in invitations {
        return false;
      }
      var i := invitations[invitation];
      if !(i.availability == Live || i.availability == Suspended) || !(i.expiresAt <= now) {
        return false;
      }
      invitations := invitations[invitation := i.(availability := Expired, epoch := i.epoch + 1)];
      links := RevokeLinks(links, GroupsOf(groups, invitation));
      sessions := RevokeSessions(sessions, GroupsOf(groups, invitation));
      return true;
    }
  }
}
