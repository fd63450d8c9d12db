/** Guest access over whole runs: what is revoked stays out, in every interleaving of the
    exchange's and the check's two steps with everything else. */
module GuestAccessSafety {

  import opened Wrappers
  import opened GuestAccess

  /** The store, the clock, the household ids ever drawn, and every read still held by a
      request in flight. A request may use what it read at any later time, or never. */
  datatype System = System(db: Db, now: int, drawn: set<Id>, grants: set<Grant>, checks: set<Check>)

  datatype Step =
    | CreateHousehold(invitation: Id, draw: Draw, expiresAt: int)
    | ImportHouseholds(invitation: Id, draws: seq<Draw>, expiresAt: int)
    | RotateLink(invitation: Id, group: Id, link: Id, digest: Id, expiresAt: int)
    | RevokeLink(invitation: Id, group: Id)
    | ReadGrant(slug: Id, link: Id)
    | WriteSession(grant: Grant, session: Id, digest: Id)
    | ReadSession(slug: Id, session: Id)
    | ChangeTo(invitation: Id, change: Change)
    | SaveBrief(invitation: Id, slug: Id, expiresAt: int)
    | SetGroupActive(group: Id, active: bool)
    | PurgeInvitation(invitation: Id)
    | Wait(duration: nat)

  function GroupIds(draws: seq<Draw>): set<Id> {
    set d | d in draws :: d.group
  }

  ghost function Next(s: System, e: Step): System {
    match e
    case CreateHousehold(invitation, draw, expiresAt) =>
      if draw.group in s.drawn then s
      else s.(db := After(Create(s.db, invitation, draw, expiresAt), s.db), drawn := s.drawn + {draw.group})
    case ImportHouseholds(invitation, draws, expiresAt) =>
      if GroupIds(draws) * s.drawn != {} then s
      else s.(db := After(Import(s.db, invitation, draws, expiresAt), s.db), drawn := s.drawn + GroupIds(draws))
    case RotateLink(invitation, group, link, digest, expiresAt) =>
      s.(db := After(Rotate(s.db, invitation, group, link, digest, expiresAt), s.db))
    case RevokeLink(invitation, group) => s.(db := After(Revoke(s.db, invitation, group), s.db))
    case ReadGrant(slug, link) =>
      if Usable(s.db, slug, link, s.now) then s.(grants := s.grants + {GrantOf(s.db, link, s.now)}) else s
    case WriteSession(grant, session, digest) =>
      if grant in s.grants then s.(db := After(InsertSession(s.db, grant, session, digest), s.db)) else s
    case ReadSession(slug, session) =>
      if PassesRow(s.db, slug, session, s.now) then
        s.(checks := s.checks + {Check(s.db.sessions[session].group, s.db.sessions[session].generation)})
      else s
    case ChangeTo(invitation, change) => s.(db := After(ChangeAvailability(s.db, invitation, change, s.now), s.db))
    case SaveBrief(invitation, slug, expiresAt) => s.(db := SaveInvitation(s.db, invitation, slug, expiresAt))
    case SetGroupActive(group, active) => s.(db := SetActive(s.db, group, active))
    case PurgeInvitation(invitation) => s.(db := Purge(s.db, invitation))
    case Wait(duration) => s.(now := s.now + duration)
  }

  ghost function Run(s: System, steps: seq<Step>): System
    decreases |steps|
  {
    if steps == [] then s else Run(Next(s, steps[0]), steps[1..])
  }

  const EMPTY := System(Db(map[], map[], map[], map[]), 0, {}, {}, {})

  // ----- The invariant -----

  ghost predicate References(db: Db) {
    && (forall g :: g in db.groups ==> db.groups[g].invitation in db.invitations)
    && (forall l :: l in db.links ==> db.links[l].group in db.groups)
    && (forall x :: x in db.sessions ==> db.sessions[x].group in db.groups)
  }

  ghost predicate UniqueGenerations(links: map<Id, Link>) {
    forall l, k :: l in links && k in links && l != k && links[l].group == links[k].group ==>
      links[l].generation != links[k].generation
  }

  ghost predicate OneLiveLink(links: map<Id, Link>) {
    forall l, k :: l in links && k in links && l != k && links[l].group == links[k].group ==>
      links[l].revoked || links[k].revoked
  }

  ghost predicate GoodLinks(links: map<Id, Link>) { UniqueGenerations(links) && OneLiveLink(links) }

  /** A generation and an epoch that the household has already reached. */
  ghost predicate Reached(db: Db, group: Id, generation: nat, epoch: nat) {
    group in db.groups ==>
      && generation <= MaxGeneration(db.links, group)
      && (db.groups[group].invitation in db.invitations ==> epoch <= db.invitations[db.groups[group].invitation].epoch)
  }

  ghost predicate SessionsReached(db: Db) {
    forall x :: x in db.sessions ==>
      Reached(db, db.sessions[x].group, db.sessions[x].generation, db.sessions[x].epoch)
  }

  ghost predicate Core(db: Db, drawn: set<Id>) {
    && References(db) && db.groups.Keys <= drawn
    && GoodLinks(db.links) && SessionsReached(db)
  }

  /** What requests in flight still hold. */
  ghost predicate HeldReached(s: System) {
    && (forall t :: t in s.grants ==> t.group in s.drawn && Reached(s.db, t.group, t.generation, t.epoch))
    && (forall c :: c in s.checks ==> c.group in s.drawn && Reached(s.db, c.group, c.generation, 0))
  }

  ghost predicate Inv(s: System) {
    Core(s.db, s.drawn) && HeldReached(s)
  }

  // ----- What any transaction may do to the households already drawn -----

  ghost predicate Evolves(db: Db, db': Db, drawn: set<Id>) {
    && (forall g :: g in drawn && g in db'.groups ==> g in db.groups && db.groups[g].invitation == db'.groups[g].invitation)
    && (forall l :: l in db'.links && db'.links[l].group in drawn && db'.links[l].group in db'.groups ==> OldOrNewer(db, db'.links[l], l))
    && (forall g :: g in drawn && g in db'.groups ==> MaxGeneration(db.links, g) <= MaxGeneration(db'.links, g))
    && (forall i :: i in db.invitations && i in db'.invitations ==> db.invitations[i].epoch <= db'.invitations[i].epoch)
  }

  /** A link row is an earlier row, no less revoked, or has a generation never used before. */
  ghost predicate OldOrNewer(db: Db, link: Link, id: Id) {
    || (id in db.links && db.links[id].group == link.group && db.links[id].generation == link.generation
        && (db.links[id].revoked ==> link.revoked))
    || link.generation > MaxGeneration(db.links, link.group)
  }

  lemma MaxGrows(links: map<Id, Link>, links': map<Id, Link>, group: Id)
    requires forall l :: l in links && links[l].group == group ==>
               l in links' && links'[l].group == group && links'[l].generation == links[l].generation
    ensures MaxGeneration(links, group) <= MaxGeneration(links', group)
  {
    MaxIsReached(links, group);
    MaxIsReached(links', group);
  }

  lemma MaxUnchangedByRevoking(links: map<Id, Link>, groups: set<Id>)
    ensures forall g :: MaxGeneration(RevokeLinks(links, groups), g) == MaxGeneration(links, g)
  {
    var links' := RevokeLinks(links, groups);
    forall g ensures MaxGeneration(links', g) == MaxGeneration(links, g) {
      MaxGrows(links, links', g);
      assert forall l :: l in links' ==> links[l].generation == links'[l].generation && links[l].group == links'[l].group;
      MaxGrows(links', links, g);
    }
  }

  lemma SessionsStay(db: Db, db': Db, drawn: set<Id>)
    requires References(db) && SessionsReached(db) && db.groups.Keys <= drawn && Evolves(db, db', drawn)
    requires forall x :: x in db'.sessions ==>
               x in db.sessions && db'.sessions[x].(revoked := false) == db.sessions[x].(revoked := false)
    ensures SessionsReached(db')
  {
    forall x | x in db'.sessions
      ensures Reached(db', db'.sessions[x].group, db'.sessions[x].generation, db'.sessions[x].epoch)
    {
      var y := db.sessions[x];
      assert db'.sessions[x].(revoked := false) == y.(revoked := false);
    }
  }

  // ----- Each transaction keeps the core and evolves the households -----

  lemma RevokingKeepsLinks(links: map<Id, Link>, groups: set<Id>)
    requires GoodLinks(links)
    ensures GoodLinks(RevokeLinks(links, groups))
  {
  }

  lemma RevokingEvolves(db: Db, drawn: set<Id>, groups: set<Id>)
    ensures Evolves(db, Revoked(db, groups), drawn)
  {
    MaxUnchangedByRevoking(db.links, groups);
  }

  lemma RevokingKeeps(db: Db, drawn: set<Id>, groups: set<Id>)
    requires Core(db, drawn)
    ensures var db' := Revoked(db, groups);
            Core(db', drawn) && Evolves(db, db', drawn)
  {
    var db' := Revoked(db, groups);
    RevokingEvolves(db, drawn, groups);
    RevokingKeepsLinks(db.links, groups);
    SessionsStay(db, db', drawn);
  }

  lemma InsertedEvolves(db: Db, drawn: set<Id>, invitation: Id, draw: Draw, expiresAt: int)
    requires Core(db, drawn) && draw.group !in drawn && Insertable(db, invitation, draw)
    ensures Evolves(db, Inserted(db, invitation, draw, expiresAt), drawn)
  {
    var db' := Inserted(db, invitation, draw, expiresAt);
    forall g | g in drawn ensures MaxGeneration(db.links, g) <= MaxGeneration(db'.links, g) {
      MaxGrows(db.links, db'.links, g);
    }
  }

  lemma InsertedKeeps(db: Db, drawn: set<Id>, invitation: Id, draw: Draw, expiresAt: int)
    requires Core(db, drawn) && draw.group !in drawn && Insertable(db, invitation, draw)
    ensures Core(Inserted(db, invitation, draw, expiresAt), drawn + {draw.group})
  {
    var db' := Inserted(db, invitation, draw, expiresAt);
    InsertedEvolves(db, drawn, invitation, draw, expiresAt);
    SessionsStay(db, db', drawn);
  }

  lemma EvolvesTransitive(db: Db, db': Db, db'': Db, drawn: set<Id>, drawn': set<Id>)
    requires Evolves(db, db', drawn) && Evolves(db', db'', drawn') && drawn <= drawn'
    requires forall i :: i in db.invitations && i in db''.invitations ==> i in db'.invitations
    ensures Evolves(db, db'', drawn)
  {
    forall l | l in db''.links && db''.links[l].group in drawn && db''.links[l].group in db''.groups
      ensures OldOrNewer(db, db''.links[l], l)
    {
      assert OldOrNewer(db', db''.links[l], l);
      var g := db''.links[l].group;
      assert g in db'.groups && MaxGeneration(db.links, g) <= MaxGeneration(db'.links, g);
    }
  }

  lemma FirstIsNew(draws: seq<Draw>, drawn: set<Id>)
    requires draws != [] && GroupIds(draws) * drawn == {}
    ensures draws[0].group !in drawn
  {
    assert draws[0] in draws && draws[0].group in GroupIds(draws);
    assert draws[0].group !in GroupIds(draws) * drawn;
  }

  lemma {:induction false} InsertAllKeeps(db: Db, drawn: set<Id>, invitation: Id, draws: seq<Draw>, expiresAt: int)
    requires Core(db, drawn) && GroupIds(draws) * drawn == {}
    requires InsertAll(db, invitation, draws, expiresAt).Some?
    ensures var db' := InsertAll(db, invitation, draws, expiresAt).value;
            && Core(db', drawn + GroupIds(draws)) && Evolves(db, db', drawn)
            && db'.invitations == db.invitations
    decreases |draws|
  {
    if draws == [] {
      assert drawn + GroupIds(draws) == drawn;
    } else {
      var db' := Inserted(db, invitation, draws[0], expiresAt);
      var drawn' := drawn + {draws[0].group};
      FirstIsNew(draws, drawn);
      InsertedKeeps(db, drawn, invitation, draws[0], expiresAt);
      InsertedEvolves(db, drawn, invitation, draws[0], expiresAt);
      RestAreFresh(db', draws, invitation, expiresAt);
      InsertAllKeeps(db', drawn', invitation, draws[1..], expiresAt);
      EvolvesTransitive(db, db', InsertAll(db, invitation, draws, expiresAt).value, drawn, drawn');
      assert drawn' + GroupIds(draws[1..]) == drawn + GroupIds(draws);
    }
  }

  /** The primary key refuses a household id drawn twice within one import. */
  lemma RestAreFresh(db: Db, draws: seq<Draw>, invitation: Id, expiresAt: int)
    requires draws != [] && draws[0].group in db.groups
    requires InsertAll(db, invitation, draws[1..], expiresAt).Some?
    ensures draws[0].group !in GroupIds(draws[1..])
  {
    InsertAllRefuses(db, draws[1..], invitation, expiresAt, draws[0].group);
  }

  lemma {:induction false} InsertAllRefuses(db: Db, draws: seq<Draw>, invitation: Id, expiresAt: int, group: Id)
    requires group in db.groups && InsertAll(db, invitation, draws, expiresAt).Some?
    ensures group !in GroupIds(draws)
    decreases |draws|
  {
    if draws != [] {
      InsertAllRefuses(Inserted(db, invitation, draws[0], expiresAt), draws[1..], invitation, expiresAt, group);
      assert GroupIds(draws) == {draws[0].group} + GroupIds(draws[1..]);
    }
  }

  lemma NewLinkKeeps(links: map<Id, Link>, link: Id, issue: Link)
    requires GoodLinks(links) && link !in links && MaxGeneration(links, issue.group) < issue.generation
    requires forall l :: l in links && links[l].group == issue.group ==> links[l].revoked
    ensures GoodLinks(links[link := issue])
  {
    MaxIsReached(links, issue.group);
  }

  lemma NewLinkEvolves(db: Db, drawn: set<Id>, link: Id, issue: Link)
    requires link !in db.links && MaxGeneration(db.links, issue.group) < issue.generation
    ensures Evolves(db, WithLink(db, link, issue), drawn)
  {
    var db' := WithLink(db, link, issue);
    forall g ensures MaxGeneration(db.links, g) <= MaxGeneration(db'.links, g) {
      MaxGrows(db.links, db'.links, g);
    }
  }

  lemma NewLinkKeepsCore(db: Db, drawn: set<Id>, link: Id, issue: Link)
    requires Core(db, drawn) && issue.group in db.groups && link !in db.links
    requires GoodLinks(db.links[link := issue]) && Evolves(db, WithLink(db, link, issue), drawn)
    ensures Core(WithLink(db, link, issue), drawn)
  {
    SessionsStay(db, WithLink(db, link, issue), drawn);
  }

  lemma IssueKeeps(db: Db, drawn: set<Id>, link: Id, issue: Link)
    requires Core(db, drawn) && issue.group in db.groups && link !in db.links
    requires MaxGeneration(db.links, issue.group) < issue.generation
    requires forall l :: l in db.links && db.links[l].group == issue.group ==> db.links[l].revoked
    ensures Core(WithLink(db, link, issue), drawn) && Evolves(db, WithLink(db, link, issue), drawn)
  {
    NewLinkKeeps(db.links, link, issue);
    NewLinkEvolves(db, drawn, link, issue);
    NewLinkKeepsCore(db, drawn, link, issue);
  }

  lemma ReissueKeeps(db: Db, drawn: set<Id>, link: Id, issue: Link)
    requires Core(db, drawn) && issue.group in db.groups && link !in db.links
    requires MaxGeneration(db.links, issue.group) < issue.generation
    ensures var db' := WithLink(Revoked(db, {issue.group}), link, issue); Core(db', drawn) && Evolves(db, db', drawn)
  {
    var mid := Revoked(db, {issue.group});
    RevokingKeeps(db, drawn, {issue.group});
    MaxUnchangedByRevoking(db.links, {issue.group});
    assert MaxGeneration(mid.links, issue.group) < issue.generation;
    IssueKeeps(mid, drawn, link, issue);
    EvolvesTransitive(db, mid, WithLink(mid, link, issue), drawn, drawn);
  }

  lemma RotateKeeps(db: Db, drawn: set<Id>, invitation: Id, group: Id, link: Id, digest: Id, expiresAt: int, db': Db)
    requires Core(db, drawn) && Rotate(db, invitation, group, link, digest, expiresAt) == Ok(db')
    ensures Core(db', drawn) && Evolves(db, db', drawn)
  {
    var issue := Link(group, digest, MaxGeneration(db.links, group) + 1, expiresAt, false);
    assert group in db.groups;
    assert link !in db.links;
    assert db' == WithLink(Revoked(db, {issue.group}), link, issue);
    ReissueKeeps(db, drawn, link, issue);
  }

  lemma EvolvesReflexive(db: Db, drawn: set<Id>)
    ensures Evolves(db, db, drawn)
  {
  }

  lemma ChangeKeeps(db: Db, drawn: set<Id>, invitation: Id, change: Change, now: int)
    requires Core(db, drawn)
    ensures var db' := After(ChangeAvailability(db, invitation, change, now), db);
            Core(db', drawn) && Evolves(db, db', drawn)
  {
    var r := ChangeAvailability(db, invitation, change, now);
    EvolvesReflexive(db, drawn);
    if r.Ok? {
      var groups := if RevokesAll(change) then GroupsOf(db.groups, invitation) else {};
      var mid := Revoked(db, groups);
      RevokingKeeps(db, drawn, groups);
      EvolvesReflexive(mid, drawn);
      assert Evolves(mid, r.value, drawn);
      SessionsStay(mid, r.value, drawn);
      EvolvesTransitive(db, mid, r.value, drawn, drawn);
    }
  }

  lemma SaveKeeps(db: Db, drawn: set<Id>, invitation: Id, slug: Id, expiresAt: int)
    requires Core(db, drawn)
    ensures var db' := SaveInvitation(db, invitation, slug, expiresAt); Core(db', drawn) && Evolves(db, db', drawn)
  {
    EvolvesReflexive(db, drawn);
    SessionsStay(db, SaveInvitation(db, invitation, slug, expiresAt), drawn);
  }

  lemma SetActiveKeeps(db: Db, drawn: set<Id>, group: Id, active: bool)
    requires Core(db, drawn)
    ensures var db' := SetActive(db, group, active); Core(db', drawn) && Evolves(db, db', drawn)
  {
    EvolvesReflexive(db, drawn);
    SessionsStay(db, SetActive(db, group, active), drawn);
  }

  lemma PurgeEvolves(db: Db, drawn: set<Id>, invitation: Id)
    ensures Evolves(db, Purge(db, invitation), drawn)
  {
    var db' := Purge(db, invitation);
    forall g | g in db'.groups ensures MaxGeneration(db.links, g) <= MaxGeneration(db'.links, g) {
      MaxGrows(db.links, db'.links, g);
    }
  }

  lemma PurgeKeeps(db: Db, drawn: set<Id>, invitation: Id)
    requires Core(db, drawn)
    ensures Core(Purge(db, invitation), drawn)
  {
    PurgeEvolves(db, drawn, invitation);
    SessionsStay(db, Purge(db, invitation), drawn);
  }

  lemma SessionKeeps(db: Db, drawn: set<Id>, grant: Grant, session: Id, digest: Id)
    requires Core(db, drawn) && Reached(db, grant.group, grant.generation, grant.epoch)
    ensures var db' := After(InsertSession(db, grant, session, digest), db); Core(db', drawn) && Evolves(db, db', drawn)
  {
    EvolvesReflexive(db, drawn);
  }

  lemma StepKeepsStore(s: System, e: Step)
    requires Inv(s)
    ensures var s' := Next(s, e); Core(s'.db, s'.drawn) && Evolves(s.db, s'.db, s.drawn) && s.drawn <= s'.drawn
  {
    match e
    case CreateHousehold(invitation, draw, expiresAt) =>
      EvolvesReflexive(s.db, s.drawn);
      if draw.group !in s.drawn && Create(s.db, invitation, draw, expiresAt).Ok? {
        InsertedKeeps(s.db, s.drawn, invitation, draw, expiresAt);
        InsertedEvolves(s.db, s.drawn, invitation, draw, expiresAt);
      }
    case ImportHouseholds(invitation, draws, expiresAt) =>
      EvolvesReflexive(s.db, s.drawn);
      if GroupIds(draws) * s.drawn == {} && Import(s.db, invitation, draws, expiresAt).Ok? {
        InsertAllKeeps(s.db, s.drawn, invitation, draws, expiresAt);
      }
    case RotateLink(invitation, group, link, digest, expiresAt) =>
      var r := Rotate(s.db, invitation, group, link, digest, expiresAt);
      if r.Ok? {
        RotateKeeps(s.db, s.drawn, invitation, group, link, digest, expiresAt, r.value);
      } else {
        EvolvesReflexive(s.db, s.drawn);
      }
    case RevokeLink(invitation, group) =>
      EvolvesReflexive(s.db, s.drawn);
      RevokingKeeps(s.db, s.drawn, {group});
    case WriteSession(grant, session, digest) =>
      EvolvesReflexive(s.db, s.drawn);
      if grant in s.grants { SessionKeeps(s.db, s.drawn, grant, session, digest); }
    case ChangeTo(invitation, change) => ChangeKeeps(s.db, s.drawn, invitation, change, s.now);
    case SaveBrief(invitation, slug, expiresAt) => SaveKeeps(s.db, s.drawn, invitation, slug, expiresAt);
    case SetGroupActive(group, active) => SetActiveKeeps(s.db, s.drawn, group, active);
    case PurgeInvitation(invitation) =>
      PurgeEvolves(s.db, s.drawn, invitation);
      PurgeKeeps(s.db, s.drawn, invitation);
    case _ => EvolvesReflexive(s.db, s.drawn);
  }

  lemma GrantIsReached(db: Db, slug: Id, link: Id, now: int)
    requires Usable(db, slug, link, now)
    ensures var t := GrantOf(db, link, now); Reached(db, t.group, t.generation, t.epoch)
  {
    MaxIsReached(db.links, db.links[link].group);
  }

  lemma ReadKeepsHeld(s: System, e: Step)
    requires Inv(s) && (e.ReadGrant? || e.ReadSession?)
    ensures HeldReached(Next(s, e))
  {
    if e.ReadGrant? && Usable(s.db, e.slug, e.link, s.now) {
      GrantIsReached(s.db, e.slug, e.link, s.now);
    }
  }

  /** Every step keeps the invariant, and only moves households forward. */
  lemma StepKeeps(s: System, e: Step)
    requires Inv(s)
    ensures Inv(Next(s, e)) && Evolves(s.db, Next(s, e).db, s.drawn) && s.drawn <= Next(s, e).drawn
  {
    StepKeepsStore(s, e);
    var s' := Next(s, e);
    if e.ReadGrant? || e.ReadSession? {
      ReadKeepsHeld(s, e);
    } else {
      assert s'.grants == s.grants && s'.checks == s.checks;
    }
  }

  lemma {:induction false} RunKeeps(s: System, steps: seq<Step>)
    requires Inv(s)
    ensures Inv(Run(s, steps))
    decreases |steps|
  {
    if steps != [] {
      StepKeeps(s, steps[0]);
      RunKeeps(Next(s, steps[0]), steps[1..]);
    }
  }

  /** In every reachable state a household's generations are unique, at most one of its links
      is unrevoked, and nothing stored or in flight is ahead of the household. */
  lemma ReachableStatesAreGood(steps: seq<Step>)
    ensures Inv(Run(EMPTY, steps))
  {
    RunKeeps(EMPTY, steps);
  }

  // ----- What is revoked stays out -----

  /** No unrevoked link of this household has this generation, and none can come. */
  ghost predicate DeadGeneration(s: System, group: Id, generation: nat) {
    && group in s.drawn
    && (group in s.db.groups ==> generation <= MaxGeneration(s.db.links, group))
    && forall l :: l in s.db.links && s.db.links[l].group == group && s.db.links[l].generation == generation ==>
         s.db.links[l].revoked
  }

  /** The invitation of this household has left this epoch behind. */
  ghost predicate DeadEpoch(s: System, group: Id, epoch: nat) {
    && group in s.drawn
    && (group in s.db.groups && s.db.groups[group].invitation in s.db.invitations ==>
          epoch < s.db.invitations[s.db.groups[group].invitation].epoch)
  }

  lemma DeadGenerationStays(s: System, e: Step, group: Id, generation: nat)
    requires Inv(s) && DeadGeneration(s, group, generation)
    ensures DeadGeneration(Next(s, e), group, generation)
  {
    StepKeeps(s, e);
    var db' := Next(s, e).db;
    forall l | l in db'.links && db'.links[l].group == group && db'.links[l].generation == generation
      ensures db'.links[l].revoked
    {
      assert group in db'.groups && OldOrNewer(s.db, db'.links[l], l);
    }
  }

  lemma DeadEpochStays(s: System, e: Step, group: Id, epoch: nat)
    requires Inv(s) && DeadEpoch(s, group, epoch)
    ensures Inv(Next(s, e)) && DeadEpoch(Next(s, e), group, epoch)
  {
    StepKeeps(s, e);
  }

  lemma {:induction false} DeadGenerationForever(s: System, steps: seq<Step>, group: Id, generation: nat)
    requires Inv(s) && DeadGeneration(s, group, generation)
    ensures DeadGeneration(Run(s, steps), group, generation)
    decreases |steps|
  {
    if steps != [] {
      StepKeeps(s, steps[0]);
      DeadGenerationStays(s, steps[0], group, generation);
      DeadGenerationForever(Next(s, steps[0]), steps[1..], group, generation);
    }
  }

  lemma {:induction false} DeadEpochForever(s: System, steps: seq<Step>, group: Id, epoch: nat)
    requires Inv(s) && DeadEpoch(s, group, epoch)
    ensures DeadEpoch(Run(s, steps), group, epoch)
    decreases |steps|
  {
    if steps != [] {
      DeadEpochStays(s, steps[0], group, epoch);
      DeadEpochForever(Next(s, steps[0]), steps[1..], group, epoch);
    }
  }

  /** A check of a session succeeds in this state: both of its reads pass. */
  predicate Authorises(s: System, slug: Id, session: Id) {
    && PassesRow(s.db, slug, session, s.now)
    && PassesLink(s.db, Check(s.db.sessions[session].group, s.db.sessions[session].generation), s.now)
  }

  /** The steps that revoke the links of a household, where they succeed. */
  ghost predicate RevokesHousehold(s: System, e: Step, group: Id) {
    match e
    case RotateLink(invitation, g, link, digest, expiresAt) =>
      g == group && Rotate(s.db, invitation, g, link, digest, expiresAt).Ok?
    case RevokeLink(invitation, g) => g == group && Revoke(s.db, invitation, g).Ok?
    case ChangeTo(invitation, change) =>
      OwnsGroup(s.db, invitation, group) && RevokesAll(change)
      && ChangeAvailability(s.db, invitation, change, s.now).Ok?
    case _ => false
  }

  lemma RevokingKillsGenerations(s: System, e: Step, group: Id, generation: nat)
    requires Inv(s) && RevokesHousehold(s, e, group) && generation <= MaxGeneration(s.db.links, group)
    ensures DeadGeneration(Next(s, e), group, generation)
  {
    StepKeeps(s, e);
    assert group in s.db.groups;
    var db' := Next(s, e).db;
    MaxIsReached(db'.links, group);
  }

  /** A generation someone has: in a session, in an exchange or in a check in flight. */
  ghost predicate HandedOut(s: System, group: Id, generation: nat) {
    || (exists x :: x in s.db.sessions && s.db.sessions[x].group == group && s.db.sessions[x].generation == generation)
    || (exists t :: t in s.grants && t.group == group && t.generation == generation)
    || Check(group, generation) in s.checks
  }

  /** No check in flight passes its second read, and no session is authorised. */
  ghost predicate LockedOut(s: System, group: Id, generation: nat) {
    && !PassesLink(s.db, Check(group, generation), s.now)
    && forall slug, x :: x in s.db.sessions && s.db.sessions[x].group == group && s.db.sessions[x].generation == generation ==>
         !Authorises(s, slug, x)
  }

  /** Once a household's links are revoked, nothing handed out before ever lets anyone in again:
      not its sessions, not the checks in flight, not a session inserted later by an exchange
      that had read the link earlier. */
  lemma RevocationIsFinal(s: System, e: Step, steps: seq<Step>, group: Id, generation: nat)
    requires Inv(s) && RevokesHousehold(s, e, group) && HandedOut(s, group, generation)
    ensures LockedOut(Run(Next(s, e), steps), group, generation)
  {
    StepKeeps(s, e);
    assert group in s.db.groups;
    RevokingKillsGenerations(s, e, group, generation);
    DeadGenerationForever(Next(s, e), steps, group, generation);
  }

  /** Once an invitation's epoch has moved on, no session of an earlier epoch passes a check that
      begins afterwards, whenever it was inserted. */
  lemma EpochBumpIsFinal(s: System, invitation: Id, change: Change, steps: seq<Step>, group: Id)
    requires Inv(s) && OwnsGroup(s.db, invitation, group)
    requires BumpsEpoch(change) && ChangeAvailability(s.db, invitation, change, s.now).Ok?
    ensures var later := Run(Next(s, ChangeTo(invitation, change)), steps);
            forall slug, x :: x in later.db.sessions && later.db.sessions[x].group == group
                              && later.db.sessions[x].epoch <= s.db.invitations[invitation].epoch ==>
              !PassesRow(later.db, slug, x, later.now)
  {
    var s' := Next(s, ChangeTo(invitation, change));
    StepKeeps(s, ChangeTo(invitation, change));
    var later := Run(s', steps);
    forall slug, x | x in later.db.sessions && later.db.sessions[x].group == group
                     && later.db.sessions[x].epoch <= s.db.invitations[invitation].epoch
      ensures !PassesRow(later.db, slug, x, later.now)
    {
      DeadEpochForever(s', steps, group, later.db.sessions[x].epoch);
    }
  }

  /** And nothing is kept out needlessly: a usable link exchanged without interruption gives a
      session that is authorised at once. */
  lemma UsableLinkLetsIn(s: System, slug: Id, link: Id, session: Id, digest: Id)
    requires Inv(s) && Usable(s.db, slug, link, s.now)
    requires s.db.invitations[s.db.groups[s.db.links[link].group].invitation].hasLiveVersion
    requires session !in s.db.sessions && !SessionDigestTaken(s.db.sessions, digest)
    ensures var grant := GrantOf(s.db, link, s.now);
            Authorises(Run(s, [ReadGrant(slug, link), WriteSession(grant, session, digest)]), slug, session)
  {
    var grant := GrantOf(s.db, link, s.now);
    var s1 := Next(s, ReadGrant(slug, link));
    var s2 := Next(s1, WriteSession(grant, session, digest));
    assert [ReadGrant(slug, link), WriteSession(grant, session, digest)][1..] == [WriteSession(grant, session, digest)];
    assert Run(s1, [WriteSession(grant, session, digest)]) == Run(s2, []);
    var l := s2.db.links[link];
    assert l.group == grant.group && l.generation == grant.generation && !l.revoked && l.expiresAt > s2.now;
  }

  // ----- The household limit -----

  ghost predicate WithinLimit(db: Db) {
    forall i :: |GroupsOf(db.groups, i)| <= HOUSEHOLD_LIMIT
  }

  lemma InsertedCounts(db: Db, invitation: Id, draw: Draw, expiresAt: int, other: Id)
    requires draw.group !in db.groups
    ensures |GroupsOf(Inserted(db, invitation, draw, expiresAt).groups, other)|
         == |GroupsOf(db.groups, other)| + if other == invitation then 1 else 0
  {
    var before, after := GroupsOf(db.groups, other), GroupsOf(Inserted(db, invitation, draw, expiresAt).groups, other);
    assert after == if other == invitation then before + {draw.group} else before;
  }

  lemma {:induction false} InsertAllCounts(db: Db, invitation: Id, draws: seq<Draw>, expiresAt: int, other: Id)
    requires InsertAll(db, invitation, draws, expiresAt).Some?
    ensures |GroupsOf(InsertAll(db, invitation, draws, expiresAt).value.groups, other)|
         == |GroupsOf(db.groups, other)| + if other == invitation then |draws| else 0
    decreases |draws|
  {
    if draws != [] {
      InsertedCounts(db, invitation, draws[0], expiresAt, other);
      InsertAllCounts(Inserted(db, invitation, draws[0], expiresAt), invitation, draws[1..], expiresAt, other);
    }
  }

  lemma FewerGroups(groups: map<Id, Group>, groups': map<Id, Group>, invitation: Id)
    requires forall g :: g in groups' ==> g in groups && groups'[g].invitation == groups[g].invitation
    ensures |GroupsOf(groups', invitation)| <= |GroupsOf(groups, invitation)|
  {
    var few, many := GroupsOf(groups', invitation), GroupsOf(groups, invitation);
    assert few <= many && many == few + (many - few);
    assert |few + (many - few)| == |few| + |many - few|;
  }

  lemma StepKeepsLimit(s: System, e: Step)
    requires WithinLimit(s.db)
    ensures WithinLimit(Next(s, e).db)
  {
    forall i ensures |GroupsOf(Next(s, e).db.groups, i)| <= HOUSEHOLD_LIMIT {
      assert |GroupsOf(s.db.groups, i)| <= HOUSEHOLD_LIMIT;
      if e.CreateHousehold? && Create(s.db, e.invitation, e.draw, e.expiresAt).Ok? {
        InsertedCounts(s.db, e.invitation, e.draw, e.expiresAt, i);
      } else if e.ImportHouseholds? && Import(s.db, e.invitation, e.draws, e.expiresAt).Ok? {
        InsertAllCounts(s.db, e.invitation, e.draws, e.expiresAt, i);
      } else if e.SetGroupActive? || e.PurgeInvitation? {
        FewerGroups(s.db.groups, Next(s, e).db.groups, i);
      }
    }
  }

  /** However creations and imports interleave, an invitation never holds more than 500 households. */
  lemma {:induction false} LimitHolds(s: System, steps: seq<Step>)
    requires WithinLimit(s.db)
    ensures WithinLimit(Run(s, steps).db)
    decreases |steps|
  {
    if steps != [] {
      StepKeepsLimit(s, steps[0]);
      LimitHolds(Next(s, steps[0]), steps[1..]);
    }
  }
}
