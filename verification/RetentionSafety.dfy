/** Retention over whole runs: several sweeps at once, each of which may stop after any step, and
    the administrators' removals beside them. */
module RetentionSafety {

  import opened Wrappers
  import opened Retention

  // ----- Sweeps in flight -----

  /** How far a sweep has got with one record. */
  datatype Phase = Fetched | TombstonePut | TombstoneMarked | Deleting(todo: seq<Id>, filesGone: bool)

  datatype Worker = Worker(record: Id, seen: Record, phase: Phase)

  datatype System = System(db: Db, now: int, workers: map<Id, Worker>)

  datatype Step =
    | AddInvitation(invitation: Id, order: Id, slugDigest: Id, expiresAt: int)
    | Reopen(invitation: Id, availability: Availability)
    | Expire(invitation: Id)
    | ByHand(invitation: Id, remove: bool)
    | Fetch(worker: Id, record: Id)
    | Advance(worker: Id, todo: seq<Id>)
    | Crash(worker: Id)
    | OtherRows(media: map<Id, Media>, backups: map<Id, Backup>, files: set<Id>, briefs: set<Id>, events: set<Id>)
    | Wait(duration: nat)

  /** The next durable step of a sweep. `todo` lists the backups when the purge starts. */
  function Advanced(s: System, id: Id, todo: seq<Id>): System
    requires id in s.workers
  {
    var w := s.workers[id];
    match w.phase
    case Fetched =>
      if w.seen.exported then s.(workers := s.workers[id := w.(phase := TombstoneMarked)])
      else s.(db := PutTombstone(s.db, w.record, w.seen), workers := s.workers[id := w.(phase := TombstonePut)])
    case TombstonePut =>
      s.(db := MarkExported(s.db, w.record), workers := s.workers[id := w.(phase := TombstoneMarked)])
    case TombstoneMarked =>
      if w.record !in s.db.records || s.db.records[w.record].purged then s.(workers := s.workers - {id})
      else s.(workers := s.workers[id := w.(phase := Deleting(todo, false))])
    case Deleting(backups, filesGone) =>
      if backups == [] then s.(db := CommitPurge(s.db, w.record), workers := s.workers - {id})
      else if filesGone then
        s.(db := MarkDeleted(s.db, backups[0]), workers := s.workers[id := w.(phase := Deleting(backups[1..], false))])
      else s.(db := RemoveFiles(s.db, backups[0]), workers := s.workers[id := w.(phase := Deleting(backups, true))])
  }

  function Next(s: System, e: Step): System {
    match e
    case AddInvitation(invitation, order, slugDigest, expiresAt) =>
      if invitation in s.db.invitations || invitation in s.db.records then s
      else s.(db := s.db.(invitations := s.db.invitations[invitation := Invitation(order, slugDigest, Unpublished, 1, expiresAt)]))
    case Reopen(invitation, availability) =>
      if invitation in s.db.invitations && Open(s.db.invitations[invitation].availability) && Open(availability) then
        s.(db := s.db.(invitations := s.db.invitations[invitation := s.db.invitations[invitation].(availability := availability)]))
      else s
    case Expire(invitation) => s.(db := ExpireOne(s.db, invitation, s.now))
    case ByHand(invitation, remove) => s.(db := EndByHand(s.db, invitation, remove, s.now))
    case Fetch(worker, record) =>
      if Due(s.db, record, s.now) then s.(workers := s.workers[worker := Worker(record, s.db.records[record], Fetched)]) else s
    case Advance(worker, todo) => if worker in s.workers then Advanced(s, worker, todo) else s
    case Crash(worker) => s.(workers := s.workers - {worker})
    case OtherRows(media, backups, files, briefs, events) =>
      s.(db := s.db.(media := media, backups := backups, files := files, briefs := briefs, events := events))
    case Wait(duration) => s.(now := s.now + duration)
  }

  predicate Open(a: Availability) { a == Unpublished || a == Live || a == Suspended }

  function Run(s: System, steps: seq<Step>): System
    decreases |steps|
  {
    if steps == [] then s else Run(Next(s, steps[0]), steps[1..])
  }

  const EMPTY := System(Db(map[], map[], map[], {}, {}, {}, {}, map[], map[], {}, map[], []), 0, map[])

  // ----- The invariant -----

  function Purges(audits: seq<Audit>, invitation: Id): nat {
    if audits == [] then 0
    else Purges(audits[..|audits| - 1], invitation) + if audits[|audits| - 1] == ContentPurged(invitation) then 1 else 0
  }

  /** A tombstone names the record it stands for. */
  predicate Names(tombstones: map<Id, Tombstone>, i: Id, r: Record) {
    && i in tombstones && tombstones[i].invitation == i && tombstones[i].order == r.order && tombstones[i].slugDigest == r.slugDigest
  }

  /** A purged record had its tombstone exported and its date had come. */
  predicate GoodRecord(db: Db, now: int, i: Id)
    requires i in db.records
  {
    var r := db.records[i];
    && (r.purged ==> r.exported && i !in db.invitations && r.executeAfter <= now)
    && (r.exported ==> Names(db.tombstones, i, r))
    && (i in db.invitations ==> !Open(db.invitations[i].availability))
  }

  ghost predicate GoodRecords(db: Db, now: int) {
    forall i :: i in db.records ==> GoodRecord(db, now, i)
  }

  predicate GoodWorker(db: Db, now: int, w: Worker) {
    && w.record in db.records
    && w.seen.order == db.records[w.record].order && w.seen.slugDigest == db.records[w.record].slugDigest
    && db.records[w.record].executeAfter <= now
    && (w.seen.exported ==> db.records[w.record].exported)
    && match w.phase
       case Fetched => true
       case TombstonePut => Names(db.tombstones, w.record, db.records[w.record])
       case _ => db.records[w.record].exported
  }

  ghost predicate GoodWorkers(db: Db, now: int, workers: map<Id, Worker>) {
    forall id :: id in workers ==> GoodWorker(db, now, workers[id])
  }

  predicate IsPurged(records: map<Id, Record>, i: Id) {
    i in records && records[i].purged
  }

  ghost predicate PurgedOnce(audits: seq<Audit>, records: map<Id, Record>) {
    forall i: Id :: Purges(audits, i) == if IsPurged(records, i) then 1 else 0
  }

  ghost predicate Inv(s: System) {
    GoodRecords(s.db, s.now) && GoodWorkers(s.db, s.now, s.workers) && PurgedOnce(s.db.audits, s.db.records)
  }

  // ----- Every step keeps it -----

  lemma ExpireKeeps(s: System, invitation: Id)
    requires Inv(s)
    ensures Inv(s.(db := ExpireOne(s.db, invitation, s.now)))
  {
    if ExpiryDue(s.db, invitation, s.now) {
      var i, audits := s.db.invitations[invitation], s.db.audits + [ExpiredAutomatically(invitation)];
      assert invitation !in s.db.records;
      var db' := s.db.(invitations := Ended(s.db, invitation, Expired),
                       records := s.db.records[invitation := NewRecord(i, s.now + GRACE)], audits := audits);
      assert ExpireOne(s.db, invitation, s.now) == db';
    } else {
      assert s.(db := ExpireOne(s.db, invitation, s.now)) == s;
    }
  }

  lemma ByHandKeeps(s: System, invitation: Id, remove: bool)
    requires Inv(s)
    ensures Inv(s.(db := EndByHand(s.db, invitation, remove, s.now)))
  {
    if invitation in s.db.invitations && invitation in s.db.records { assert GoodRecord(s.db, s.now, invitation); }
  }

  lemma ExportKeeps(s: System, id: Id, todo: seq<Id>)
    requires Inv(s) && id in s.workers && (s.workers[id].phase.Fetched? || s.workers[id].phase.TombstonePut?)
    ensures Inv(Advanced(s, id, todo))
  {
    assert GoodWorker(s.db, s.now, s.workers[id]);
  }

  lemma AdvanceKeeps(s: System, id: Id, todo: seq<Id>)
    requires Inv(s) && id in s.workers
    ensures Inv(Advanced(s, id, todo))
  {
    var w := s.workers[id];
    match w.phase
    case Fetched => ExportKeeps(s, id, todo);
    case TombstonePut => ExportKeeps(s, id, todo);
    case _ =>
  }

  lemma StepKeeps(s: System, e: Step)
    requires Inv(s)
    ensures Inv(Next(s, e))
  {
    match e
    case Expire(invitation) => ExpireKeeps(s, invitation);
    case ByHand(invitation, remove) => ByHandKeeps(s, invitation, remove);
    case Advance(worker, todo) => if worker in s.workers { AdvanceKeeps(s, worker, todo); }
    case _ =>
  }

  lemma {:induction false} RunKeeps(s: System, steps: seq<Step>)
    requires Inv(s)
    ensures Inv(Run(s, steps))
    decreases |steps|
  {
    if steps != [] {
      StepKeeps(s, steps[0]);
      RunKeeps(Next(s, steps[0]), steps[1..]);
    }
  }

  /** In every reachable state a purged record has its tombstone in the backup store, its date has
      come and its invitation is gone. */
  lemma PurgedAfterExportAndDate(steps: seq<Step>, i: Id)
    requires IsPurged(Run(EMPTY, steps).db.records, i)
    ensures var s := Run(EMPTY, steps); var r := s.db.records[i];
            r.exported && Names(s.db.tombstones, i, r) && r.executeAfter <= s.now && i !in s.db.invitations
  {
    RunKeeps(EMPTY, steps);
    assert GoodRecord(Run(EMPTY, steps).db, Run(EMPTY, steps).now, i);
  }

  /** However many sweeps overlap, each record is purged once at most, and then audited once. */
  lemma PurgedAndAuditedOnce(steps: seq<Step>, i: Id)
    ensures var db := Run(EMPTY, steps).db;
            Purges(db.audits, i) == if i in db.records && db.records[i].purged then 1 else 0
  {
    RunKeeps(EMPTY, steps);
    assert Purges(Run(EMPTY, steps).db.audits, i) == if IsPurged(Run(EMPTY, steps).db.records, i) then 1 else 0;
  }

  // ----- One record, by sweeps that stop anywhere -----

  datatype Action = PutIt | MarkIt | FilesOf(backup: Id) | MarkBackup(backup: Id) | Commit

  function Do(db: Db, i: Id, a: Action): Db
    requires i in db.records
    ensures i in Do(db, i, a).records
  {
    match a
    case PutIt => PutTombstone(db, i, db.records[i])
    case MarkIt => MarkExported(db, i)
    case FilesOf(b) => RemoveFiles(db, b)
    case MarkBackup(b) => MarkDeleted(db, b)
    case Commit => CommitPurge(db, i)
  }

  function DoAll(db: Db, i: Id, actions: seq<Action>): Db
    requires i in db.records
    ensures i in DoAll(db, i, actions).records
    decreases |actions|
  {
    if actions == [] then db else DoAll(Do(db, i, actions[0]), i, actions[1..])
  }

  function Deletions(backups: seq<Id>): seq<Action> {
    if backups == [] then [] else [FilesOf(backups[0]), MarkBackup(backups[0])] + Deletions(backups[1..])
  }

  /** The steps of one record, whose backups are read in the given order. */
  function Plan(db: Db, i: Id, backups: seq<Id>): seq<Action>
    requires i in db.records
  {
    if db.records[i].purged then []
    else (if db.records[i].exported then [] else [PutIt, MarkIt]) + (Deletions(backups) + [Commit])
  }

  ghost predicate Lists(db: Db, i: Id, backups: seq<Id>)
    requires i in db.records
  {
    forall b :: b in backups <==> b in BackupsOf(db, db.records[i].order)
  }

  /** A step that a sweep may take now. */
  ghost predicate Legal(db: Db, i: Id, a: Action)
    requires i in db.records
  {
    var r := db.records[i];
    !r.purged &&
    match a
    case PutIt => !r.exported
    case MarkIt => i in db.tombstones && db.tombstones[i] == Tombstone(r.order, i, r.slugDigest, r.executeAfter)
    case FilesOf(b) => r.exported && b in BackupsOf(db, r.order)
    case MarkBackup(b) => r.exported && b in BackupsOf(db, r.order)
    case Commit => r.exported && BackupsDeleted(db, BackupsOf(db, r.order)) == db
  }

  ghost predicate AllLegal(db: Db, i: Id, actions: seq<Action>)
    requires i in db.records
    decreases |actions|
  {
    actions == [] || (Legal(db, i, actions[0]) && AllLegal(Do(db, i, actions[0]), i, actions[1..]))
  }

  lemma ExportLeadsToTheSame(db: Db, i: Id, a: Action)
    requires i in db.records && Legal(db, i, a) && (a == PutIt || a == MarkIt)
    ensures Purged(Do(db, i, a), i) == Purged(db, i)
  {
    var r, db' := db.records[i], Do(db, i, a);
    if a == PutIt || !r.exported {
      var stone := Tombstone(r.order, i, r.slugDigest, r.executeAfter);
      assert Exported(db, i) == db.(tombstones := db.tombstones[i := stone], records := db.records[i := r.(exported := true)]);
      assert Exported(db', i) == Exported(db, i);
    } else {
      assert db' == db;
    }
  }

  lemma DeletionLeadsToTheSame(db: Db, i: Id, a: Action)
    requires i in db.records && Legal(db, i, a) && (a.FilesOf? || a.MarkBackup?)
    ensures Purged(Do(db, i, a), i) == Purged(db, i)
  {
    var gone, db' := BackupsOf(db, db.records[i].order), Do(db, i, a);
    assert BackupsOf(db', db.records[i].order) == gone;
    if a.FilesOf? { assert db.backups[a.backup].prefix in Prefixes(db.backups, gone); }
    assert BackupsDeleted(db', gone).files == BackupsDeleted(db, gone).files;
    assert BackupsDeleted(db', gone).backups == BackupsDeleted(db, gone).backups;
  }

  lemma LegalLeadsToTheSame(db: Db, i: Id, a: Action)
    requires i in db.records && Legal(db, i, a)
    ensures Purged(Do(db, i, a), i) == Purged(db, i)
  {
    match a
    case PutIt => ExportLeadsToTheSame(db, i, a);
    case MarkIt => ExportLeadsToTheSame(db, i, a);
    case FilesOf(_) => DeletionLeadsToTheSame(db, i, a);
    case MarkBackup(_) => DeletionLeadsToTheSame(db, i, a);
    case Commit => assert Exported(db, i) == db;
  }

  lemma {:induction false} LegalPrefixLeadsToTheSame(db: Db, i: Id, actions: seq<Action>, k: nat)
    requires i in db.records && AllLegal(db, i, actions) && k <= |actions|
    ensures Purged(DoAll(db, i, actions[..k]), i) == Purged(db, i)
    decreases |actions|
  {
    if k > 0 {
      LegalLeadsToTheSame(db, i, actions[0]);
      LegalPrefixLeadsToTheSame(Do(db, i, actions[0]), i, actions[1..], k - 1);
      assert actions[..k][1..] == actions[1..][..k - 1];
    }
  }

  lemma DeletionPair(db: Db, i: Id, b: Id, rest: seq<Action>)
    requires i in db.records && !db.records[i].purged && db.records[i].exported && b in BackupsOf(db, db.records[i].order)
    ensures DoAll(db, i, [FilesOf(b), MarkBackup(b)] + rest) == DoAll(BackupsDeleted(db, {b}), i, rest)
    ensures AllLegal(BackupsDeleted(db, {b}), i, rest) ==> AllLegal(db, i, [FilesOf(b), MarkBackup(b)] + rest)
  {
    var both := [FilesOf(b), MarkBackup(b)] + rest;
    var d := Do(db, i, FilesOf(b));
    assert both[0] == FilesOf(b) && both[1..] == [MarkBackup(b)] + rest && both[1..][0] == MarkBackup(b) && both[1..][1..] == rest;
    NoneDeleted(db);
    OneMoreDeleted(db, {}, b);
    assert {} + {b} == {b};
    assert Do(d, i, MarkBackup(b)) == BackupsDeleted(db, {b});
  }

  function Listed(backups: seq<Id>): set<Id> { set b | b in backups }

  /** The loop over the backups deletes exactly those listed. */
  lemma {:induction false} DeletionsDelete(db: Db, i: Id, backups: seq<Id>, rest: seq<Action>)
    requires i in db.records && !db.records[i].purged && db.records[i].exported
    requires Listed(backups) <= BackupsOf(db, db.records[i].order)
    ensures DoAll(db, i, Deletions(backups) + rest) == DoAll(BackupsDeleted(db, Listed(backups)), i, rest)
    ensures AllLegal(BackupsDeleted(db, Listed(backups)), i, rest) ==> AllLegal(db, i, Deletions(backups) + rest)
    decreases |backups|
  {
    if backups == [] {
      NoneDeleted(db);
      assert Listed(backups) == {} && Deletions(backups) + rest == rest;
    } else {
      var later, once := Deletions(backups[1..]) + rest, BackupsDeleted(db, {backups[0]});
      ListedMore(db, i, backups);
      DeletionsMore(backups, rest);
      DeletionsDelete(once, i, backups[1..], rest);
      DeletionPair(db, i, backups[0], later);
    }
  }

  lemma DeletionsMore(backups: seq<Id>, rest: seq<Action>)
    requires backups != []
    ensures Deletions(backups) + rest == [FilesOf(backups[0]), MarkBackup(backups[0])] + (Deletions(backups[1..]) + rest)
  {
    var pair, others := [FilesOf(backups[0]), MarkBackup(backups[0])], Deletions(backups[1..]);
    assert Deletions(backups) == pair + others;
    assert (pair + others) + rest == pair + (others + rest);
  }

  lemma ListedMore(db: Db, i: Id, backups: seq<Id>)
    requires backups != [] && i in db.records && Listed(backups) <= BackupsOf(db, db.records[i].order)
    ensures backups[0] in BackupsOf(db, db.records[i].order)
    ensures var once := BackupsDeleted(db, {backups[0]});
            && BackupsDeleted(db, Listed(backups)) == BackupsDeleted(once, Listed(backups[1..]))
            && once.records == db.records && Listed(backups[1..]) <= BackupsOf(once, db.records[i].order)
  {
    var once := BackupsDeleted(db, {backups[0]});
    DeletedTwice(db, {backups[0]}, Listed(backups[1..]));
    assert Listed(backups) == {backups[0]} + Listed(backups[1..]);
    assert BackupsOf(once, db.records[i].order) == BackupsOf(db, db.records[i].order);
  }

  lemma DeletedTwice(db: Db, first: set<Id>, second: set<Id>)
    ensures BackupsDeleted(BackupsDeleted(db, first), second) == BackupsDeleted(db, first + second)
  {
    assert Prefixes(db.backups, first + second) == Prefixes(db.backups, first) + Prefixes(db.backups, second);
  }

  lemma ExportPair(db: Db, i: Id, rest: seq<Action>)
    requires i in db.records && !db.records[i].purged && !db.records[i].exported
    ensures DoAll(db, i, [PutIt, MarkIt] + rest) == DoAll(Exported(db, i), i, rest)
    ensures AllLegal(Exported(db, i), i, rest) ==> AllLegal(db, i, [PutIt, MarkIt] + rest)
  {
    var plan, put := [PutIt, MarkIt] + rest, Do(db, i, PutIt);
    assert plan[0] == PutIt && plan[1..] == [MarkIt] + rest && plan[1..][0] == MarkIt && plan[1..][1..] == rest;
    assert Do(put, i, MarkIt) == Exported(db, i);
  }

  lemma DeletedAllIsLegal(db: Db, i: Id, backups: seq<Id>)
    requires i in db.records && !db.records[i].purged && db.records[i].exported && Lists(db, i, backups)
    ensures AllLegal(db, i, Deletions(backups) + [Commit])
    ensures DoAll(db, i, Deletions(backups) + [Commit]) == Purged(db, i)
  {
    var all := BackupsOf(db, db.records[i].order);
    var after := BackupsDeleted(db, all);
    assert Listed(backups) == all;
    DeletedTwice(db, all, all);
    assert all + all == all && BackupsOf(after, db.records[i].order) == all;
    DeletionsDelete(db, i, backups, [Commit]);
    assert Purged(db, i) == CommitPurge(after, i);
  }

  /** A complete pass over a record is legal step by step and comes to what the sweep promises. */
  lemma PlanIsLegal(db: Db, i: Id, backups: seq<Id>)
    requires i in db.records && Lists(db, i, backups)
    ensures AllLegal(db, i, Plan(db, i, backups)) && DoAll(db, i, Plan(db, i, backups)) == Purged(db, i)
  {
    if !db.records[i].purged {
      var rest := Deletions(backups) + [Commit];
      DeletedAllIsLegal(Exported(db, i), i, backups);
      if db.records[i].exported {
        assert Plan(db, i, backups) == rest;
      } else {
        ExportPair(db, i, rest);
        assert Plan(db, i, backups) == [PutIt, MarkIt] + rest;
      }
    }
  }

  // ----- Any number of interrupted sweeps -----

  datatype Attempt = Attempt(backups: seq<Id>, steps: nat)

  function Cut(db: Db, i: Id, t: Attempt): Db
    requires i in db.records
    ensures i in Cut(db, i, t).records
  {
    var plan := Plan(db, i, t.backups);
    DoAll(db, i, plan[..if t.steps <= |plan| then t.steps else |plan|])
  }

  ghost predicate AllList(db: Db, i: Id, attempts: seq<Attempt>)
    requires i in db.records
    decreases |attempts|
  {
    attempts == [] || (Lists(db, i, attempts[0].backups) && AllList(Cut(db, i, attempts[0]), i, attempts[1..]))
  }

  function After(db: Db, i: Id, attempts: seq<Attempt>): Db
    requires i in db.records
    ensures i in After(db, i, attempts).records
    decreases |attempts|
  {
    if attempts == [] then db else After(Cut(db, i, attempts[0]), i, attempts[1..])
  }

  /** After any number of passes cut anywhere, one whole pass gives what one pass alone gives. */
  lemma {:induction false} PurgeConvergence(db: Db, i: Id, attempts: seq<Attempt>, backups: seq<Id>)
    requires i in db.records && AllList(db, i, attempts) && Lists(After(db, i, attempts), i, backups)
    ensures var end := After(db, i, attempts);
            DoAll(end, i, Plan(end, i, backups)) == Purged(db, i)
    decreases |attempts|
  {
    if attempts == [] {
      PlanIsLegal(db, i, backups);
    } else {
      var plan := Plan(db, i, attempts[0].backups);
      PlanIsLegal(db, i, attempts[0].backups);
      LegalPrefixLeadsToTheSame(db, i, plan, if attempts[0].steps <= |plan| then attempts[0].steps else |plan|);
      PurgeConvergence(Cut(db, i, attempts[0]), i, attempts[1..], backups);
    }
  }

  /** What that is: the rows gone, the files gone, media deleted, the order closed. */
  lemma PurgedIs(db: Db, i: Id)
    requires i in db.records && !db.records[i].purged
    ensures var end, order := Purged(db, i), db.records[i].order;
            && end.records[i].purged && end.records[i].exported && (db.records[i].exported || Names(end.tombstones, i, db.records[i]))
            && end.invitations == db.invitations - {i} && order !in end.briefs && order !in end.events
            && (order in db.closed ==> end.closed[order])
            && (forall m :: m in end.media && end.media[m].order == order && !end.media[m].catalog ==> end.media[m].deleted)
            && (forall b :: b in BackupsOf(db, order) ==> end.backups[b].deleted && db.backups[b].prefix !in end.files)
            && end.audits == db.audits + [ContentPurged(i)]
  {
    var exported := Exported(db, i);
    assert BackupsOf(exported, db.records[i].order) == BackupsOf(db, db.records[i].order);
    forall b | b in BackupsOf(db, db.records[i].order) ensures db.backups[b].prefix !in Purged(db, i).files {
      assert db.backups[b].prefix in Prefixes(db.backups, BackupsOf(db, db.records[i].order));
    }
  }
}
