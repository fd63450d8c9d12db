/** The retention sweep: automatic expiry, tombstones and purges (lib/operations/retention.ts,
    lib/reviews/service.ts). Times are milliseconds; of a record's timestamps only whether they are
    set is kept. */
module Retention {

  import opened Wrappers

  type Id = nat

  datatype Availability = Unpublished | Live | Suspended | Expired | Removed

  datatype Invitation = Invitation(order: Id, slugDigest: Id, availability: Availability, epoch: nat, expiresAt: int)

  /** An invitation has at most one deletion record, so records are keyed by invitation. */
  datatype Record = Record(order: Id, slugDigest: Id, executeAfter: int, exported: bool, purged: bool)

  datatype Tombstone = Tombstone(order: Id, invitation: Id, slugDigest: Id, executeAfter: int)

  datatype Media = Media(order: Id, catalog: bool, deleted: bool)

  datatype Backup = Backup(media: Id, prefix: Id, deleted: bool)

  datatype Audit = ExpiredAutomatically(invitation: Id) | ContentPurged(invitation: Id)

  /** `files` are the backup prefixes that hold files; reviews and approvals are named by their
      invitation, notifications, briefs and events by their order. */
  datatype Db = Db(
    invitations: map<Id, Invitation>,
    records: map<Id, Record>,
    closed: map<Id, bool>,
    reviews: set<(Id, Id)>,
    notifications: set<(Id, Id)>,
    briefs: set<Id>,
    events: set<Id>,
    media: map<Id, Media>,
    backups: map<Id, Backup>,
    files: set<Id>,
    tombstones: map<Id, Tombstone>,
    audits: seq<Audit>)

  const DAY := 86_400_000
  const GRACE := 30 * DAY

  // ----- Ends of an invitation's life -----

  predicate Running(a: Availability) { a == Live || a == Suspended }

  predicate ExpiryDue(db: Db, invitation: Id, now: int) {
    invitation in db.invitations && Running(db.invitations[invitation].availability) && db.invitations[invitation].expiresAt <= now
  }

  function Ended(db: Db, invitation: Id, how: Availability): map<Id, Invitation>
    requires invitation in db.invitations
  {
    var i := db.invitations[invitation];
    db.invitations[invitation := i.(availability := how, epoch := i.epoch + 1)]
  }

  function NewRecord(i: Invitation, executeAfter: int): Record {
    Record(i.order, i.slugDigest, executeAfter, false, false)
  }

  /** Automatic expiry: one transaction, which checks the row again and keeps an earlier record. */
  function ExpireOne(db: Db, invitation: Id, now: int): Db {
    if !ExpiryDue(db, invitation, now) then db
    else
      db.(invitations := Ended(db, invitation, Expired),
          records := if invitation in db.records then db.records
                     else db.records[invitation := NewRecord(db.invitations[invitation], now + GRACE)],
          audits := db.audits + [ExpiredAutomatically(invitation)])
  }

  /** Removal and expiry by an administrator, which move an earlier record's date. */
  function EndByHand(db: Db, invitation: Id, remove: bool, now: int): Db {
    if invitation !in db.invitations then db
    else
      var i := db.invitations[invitation];
      if !(if remove then i.availability != Removed else Running(i.availability)) then db
      else
        var executeAfter := if remove then now else now + GRACE;
        var record := if invitation in db.records then db.records[invitation].(executeAfter := executeAfter)
                      else NewRecord(i, executeAfter);
        db.(invitations := Ended(db, invitation, if remove then Removed else Expired), records := db.records[invitation := record])
  }

  // ----- Steps of a purge -----

  predicate Due(db: Db, invitation: Id, now: int) {
    invitation in db.records && !db.records[invitation].purged && db.records[invitation].executeAfter <= now
  }

  function PutTombstone(db: Db, invitation: Id, seen: Record): Db {
    db.(tombstones := db.tombstones[invitation := Tombstone(seen.order, invitation, seen.slugDigest, seen.executeAfter)])
  }

  function MarkExported(db: Db, invitation: Id): Db {
    if invitation in db.records then db.(records := db.records[invitation := db.records[invitation].(exported := true)]) else db
  }

  function BackupsOf(db: Db, order: Id): set<Id> {
    set b | b in db.backups && db.backups[b].media in db.media && db.media[db.backups[b].media].order == order
  }

  function RemoveFiles(db: Db, backup: Id): Db {
    if backup in db.backups then db.(files := db.files - {db.backups[backup].prefix}) else db
  }

  function MarkDeleted(db: Db, backup: Id): Db {
    if backup in db.backups then db.(backups := db.backups[backup := db.backups[backup].(deleted := true)]) else db
  }

  function DeletedMedia(media: map<Id, Media>, order: Id): map<Id, Media> {
    map m | m in media :: if media[m].order == order && !media[m].catalog then media[m].(deleted := true) else media[m]
  }

  /** The transaction that deletes the rows, unless the record has been purged meanwhile. */
  function CommitPurge(db: Db, invitation: Id): Db {
    if invitation !in db.records || db.records[invitation].purged then db
    else
      var r := db.records[invitation];
      db.(invitations := db.invitations - {invitation},
          reviews := (set v | v in db.reviews && v.0 != invitation),
          notifications := (set n | n in db.notifications && n.0 != r.order),
          briefs := db.briefs - {r.order},
          events := db.events - {r.order},
          media := DeletedMedia(db.media, r.order),
          closed := if r.order in db.closed then db.closed[r.order := true] else db.closed,
          records := db.records[invitation := r.(purged := true)],
          audits := db.audits + [ContentPurged(invitation)])
  }

  // ----- What a purge comes to -----

  function Exported(db: Db, invitation: Id): Db
    requires invitation in db.records
  {
    if db.records[invitation].exported then db
    else MarkExported(PutTombstone(db, invitation, db.records[invitation]), invitation)
  }

  function Prefixes(backups: map<Id, Backup>, gone: set<Id>): set<Id> {
    set b | b in backups && b in gone :: backups[b].prefix
  }

  function BackupsDeleted(db: Db, gone: set<Id>): Db {
    db.(files := db.files - Prefixes(db.backups, gone),
        backups := map b | b in db.backups :: if b in gone then db.backups[b].(deleted := true) else db.backups[b])
  }

  /** A record processed without interruption: tombstone first, then backups, then rows. */
  function Purged(db: Db, invitation: Id): Db {
    if invitation !in db.records || db.records[invitation].purged then db
    else
      var exported := Exported(db, invitation);
      CommitPurge(BackupsDeleted(exported, BackupsOf(exported, db.records[invitation].order)), invitation)
  }

  function ExpireAll(db: Db, candidates: seq<Id>, now: int): Db
    decreases |candidates|
  {
    if candidates == [] then db else ExpireAll(ExpireOne(db, candidates[0], now), candidates[1..], now)
  }

  /** The records whose processing throws are left for the next sweep. */
  function PurgeAll(db: Db, due: seq<Id>, failing: set<Id>): Db
    decreases |due|
  {
    if due == [] then db
    else PurgeAll(if due[0] in failing then db else Purged(db, due[0]), due[1..], failing)
  }

  /** Those of the due records that throw, or do not. */
  function Throwing(due: seq<Id>, failing: set<Id>, throws: bool): seq<Id> {
    if due == [] then []
    else (if (due[0] in failing) == throws then [due[0]] else []) + Throwing(due[1..], failing, throws)
  }

  ghost predicate Outstanding(db: Db, due: seq<Id>) {
    && (forall i :: 0 <= i < |due| ==> due[i] in db.records && !db.records[due[i]].purged)
    && (forall i, j :: 0 <= i < j < |due| ==> due[i] != due[j])
  }

  lemma ThrowingMoves(done: seq<Id>, rest: seq<Id>, failing: set<Id>, throws: bool)
    requires rest != []
    ensures done + Throwing(rest, failing, throws)
         == (if (rest[0] in failing) == throws then done + [rest[0]] else done) + Throwing(rest[1..], failing, throws)
  {
  }

  // ----- The store -----

  lemma NoneDeleted(db: Db)
    ensures BackupsDeleted(db, {}) == db
  {
    assert Prefixes(db.backups, {}) == {};
  }

  lemma OneMorePrefix(backups: map<Id, Backup>, gone: set<Id>, b: Id)
    requires b in backups
    ensures Prefixes(backups, gone + {b}) == Prefixes(backups, gone) + {backups[b].prefix}
  {
  }

  lemma OneMoreDeleted(db: Db, gone: set<Id>, b: Id)
    requires b in db.backups
    ensures MarkDeleted(RemoveFiles(BackupsDeleted(db, gone), b), b) == BackupsDeleted(db, gone + {b})
  {
    OneMorePrefix(db.backups, gone, b);
  }

  class RetentionStore {
    var db: Db

    method ExpireInvitation(invitation: Id, now: int) returns (updated: bool)
      modifies this
      ensures db == ExpireOne(old(db), invitation, now)
      ensures updated == ExpiryDue(old(db), invitation, now)
    {
      updated := ExpiryDue(db, invitation, now);
      if !updated {
        return;
      }
      var i := db.invitations[invitation];
      db := db.(invitations := db.invitations[invitation := i.(availability := Expired, epoch := i.epoch + 1)]);
      if invitation !in db.records {
        db := db.(records := db.records[invitation := Record(i.order, i.slugDigest, now + 30 * 86_400_000, false, false)]);
      }
      db := db.(audits := db.audits + [ExpiredAutomatically(invitation)]);
    }

    method ExportTombstone(invitation: Id)
      requires invitation in db.records
      modifies this
      ensures db == Exported(old(db), invitation)
    {
      var record := db.records[invitation];
      if record.exported {
        return;
      }
      db := db.(tombstones := db.tombstones[invitation := Tombstone(record.order, invitation, record.slugDigest, record.executeAfter)]);
      db := db.(records := db.records[invitation := record.(exported := true)]);
    }

    /** The loop over the backups of a record's order, in any order. */
    method DeleteBackups(backups: set<Id>)
      requires backups <= db.backups.Keys
      modifies this
      ensures db == BackupsDeleted(old(db), backups)
    {
      var todo := backups;
      NoneDeleted(db);
      while todo != {}
        invariant todo <= backups <= old(db.backups.Keys)
        invariant db == BackupsDeleted(old(db), backups - todo)
        decreases todo
      {
        var b :| b in todo;
        OneMoreDeleted(old(db), backups - todo, b);
        db := db.(files := db.files - {db.backups[b].prefix});
        db := db.(backups := db.backups[b := db.backups[b].(deleted := true)]);
        assert backups - todo + {b} == backups - (todo - {b});
        todo := todo - {b};
      }
      assert backups - todo == backups;
    }

    method PurgeInvitation(invitation: Id)
      modifies this
      ensures db == if invitation !in old(db).records || old(db).records[invitation].purged then old(db)
                    else CommitPurge(BackupsDeleted(old(db), BackupsOf(old(db), old(db).records[invitation].order)), invitation)
    {
      if invitation !in db.records || db.records[invitation].purged {
        return;
      }
      var record := db.records[invitation];
      DeleteBackups(BackupsOf(db, record.order));
      db := db.(reviews := set v | v in db.reviews && v.0 != invitation);
      db := db.(invitations := db.invitations - {invitation}, briefs := db.briefs - {record.order}, events := db.events - {record.order});
      db := db.(notifications := set n | n in db.notifications && n.0 != record.order);
      db := db.(media := DeletedMedia(db.media, record.order));
      if record.order in db.closed {
        db := db.(closed := db.closed[record.order := true]);
      }
      db := db.(records := db.records[invitation := record.(purged := true)], audits := db.audits + [ContentPurged(invitation)]);
    }

    method ExpireCandidates(candidates: seq<Id>, now: int) returns (expired: nat)
      modifies this
      ensures db == ExpireAll(old(db), candidates, now) && expired <= |candidates|
    {
      expired := 0;
      for i := 0 to |candidates|
        invariant expired <= i
        invariant ExpireAll(old(db), candidates, now) == ExpireAll(db, candidates[i..], now)
      {
        assert candidates[i..][1..] == candidates[i + 1..];
        var updated := ExpireInvitation(candidates[i], now);
        if updated {
          expired := expired + 1;
        }
      }
    }

    method PurgeRecord(invitation: Id)
      requires invitation in db.records && !db.records[invitation].purged
      modifies this
      ensures db == Purged(old(db), invitation)
    {
      ExportTombstone(invitation);
      PurgeInvitation(invitation);
    }

    /** The loop over the due records: one that throws does not stop the others. */
    method PurgeDue(due: seq<Id>, failing: set<Id>) returns (purged: seq<Id>, failed: seq<Id>)
      requires Outstanding(db, due)
      modifies this
      ensures db == PurgeAll(old(db), due, failing)
      ensures purged == Throwing(due, failing, false) && failed == Throwing(due, failing, true)
    {
      purged, failed := [], [];
      var rest := due;
      while rest != []
        invariant PurgeAll(old(db), due, failing) == PurgeAll(db, rest, failing)
        invariant Outstanding(db, rest)
        invariant Throwing(due, failing, false) == purged + Throwing(rest, failing, false)
        invariant Throwing(due, failing, true) == failed + Throwing(rest, failing, true)
        decreases |rest|
      {
        StillOutstanding(db, rest);
        ThrowingMoves(failed, rest, failing, true);
        ThrowingMoves(purged, rest, failing, false);
        var throws := TryRecord(rest[0], failing);
        if throws {
          failed := failed + [rest[0]];
        } else {
          purged := purged + [rest[0]];
        }
        rest := rest[1..];
      }
    }

    method TryRecord(invitation: Id, failing: set<Id>) returns (throws: bool)
      requires invitation in db.records && !db.records[invitation].purged
      modifies this
      ensures throws == (invitation in failing)
      ensures db == if throws then old(db) else Purged(old(db), invitation)
    {
      throws := invitation in failing;
      if !throws {
        PurgeRecord(invitation);
      }
    }

    /** One sweep over the candidates and the due records it read. */
    method RunRetentionSweep(candidates: seq<Id>, due: seq<Id>, failing: set<Id>, now: int)
      returns (expired: nat, purged: seq<Id>, failed: seq<Id>)
      requires Outstanding(db, due)
      modifies this
      ensures db == PurgeAll(ExpireAll(old(db), candidates, now), due, failing)
      ensures expired <= |candidates|
      ensures purged == Throwing(due, failing, false) && failed == Throwing(due, failing, true)
    {
      RecordsSurviveExpiry(db, candidates, now);
      expired := ExpireCandidates(candidates, now);
      purged, failed := PurgeDue(due, failing);
    }
  }

  lemma StillOutstanding(db: Db, due: seq<Id>)
    requires Outstanding(db, due) && due != []
    ensures Outstanding(db, due[1..]) && Outstanding(Purged(db, due[0]), due[1..])
  {
    OtherRecordsKept(db, due[0]);
  }

  lemma OtherRecordsKept(db: Db, invitation: Id)
    ensures forall r :: r in db.records && r != invitation ==>
              r in Purged(db, invitation).records && Purged(db, invitation).records[r] == db.records[r]
  {
  }

  lemma {:induction false} RecordsSurviveExpiry(db: Db, candidates: seq<Id>, now: int)
    ensures forall r :: r in db.records ==>
              r in ExpireAll(db, candidates, now).records && ExpireAll(db, candidates, now).records[r] == db.records[r]
    decreases |candidates|
  {
    if candidates != [] {
      RecordsSurviveExpiry(ExpireOne(db, candidates[0], now), candidates[1..], now);
    }
  }
}
