/** What each retention transaction comes to, row by row, and that it leaves every other order and
    invitation alone (lib/operations/retention.ts, lib/reviews/service.ts). */
module RetentionOutcomes {

  import opened Wrappers
  import opened Retention
  import opened RetentionSafety

  // ----- Purges -----

  /** The backups of an order's media. */
  predicate BacksUp(db: Db, b: Id, order: Id) {
    b in db.backups && db.backups[b].media in db.media && db.media[db.backups[b].media].order == order
  }

  /** A purge touches rows of its own invitation and order only: all other media, catalog artwork, backups, files, briefs,
      events, notifications, reviews, orders, invitations, records and tombstones are as they were. */
  lemma PurgeLeavesOthersAlone(db: Db, i: Id)
    requires i in db.records && !db.records[i].purged
    ensures var end, order := Purged(db, i), db.records[i].order;
            && end.media.Keys == db.media.Keys && end.backups.Keys == db.backups.Keys && end.closed.Keys == db.closed.Keys
            && end.records.Keys == db.records.Keys
            && (forall m :: m in db.media && (db.media[m].order != order || db.media[m].catalog) ==> end.media[m] == db.media[m])
            && (forall b :: b in db.backups && !BacksUp(db, b, order) ==> end.backups[b] == db.backups[b])
            && (forall f :: f in end.files <==> f in db.files && !exists b :: BacksUp(db, b, order) && db.backups[b].prefix == f)
            && (forall o :: o != order ==> (o in end.briefs <==> o in db.briefs) && (o in end.events <==> o in db.events))
            && (forall o :: o in db.closed && o != order ==> end.closed[o] == db.closed[o])
            && (forall j :: j in db.records && j != i ==> end.records[j] == db.records[j])
            && (forall j :: j in db.invitations && j != i ==> j in end.invitations && end.invitations[j] == db.invitations[j])
            && (forall j :: j != i ==> (j in end.tombstones <==> j in db.tombstones))
            && (forall j :: j != i && j in db.tombstones ==> end.tombstones[j] == db.tombstones[j])
            && (forall v :: v in db.reviews && v.0 != i ==> v in end.reviews)
            && (forall n :: n in db.notifications && n.0 != order ==> n in end.notifications)
  {
    FilesLeft(db, i);
    assert BackupsOf(Exported(db, i), db.records[i].order) == BackupsOf(db, db.records[i].order);
  }

  lemma FilesLeft(db: Db, i: Id)
    requires i in db.records && !db.records[i].purged
    ensures var order := db.records[i].order;
            forall f :: f in Purged(db, i).files <==> f in db.files && !exists b :: BacksUp(db, b, order) && db.backups[b].prefix == f
  {
    var order, exported := db.records[i].order, Exported(db, i);
    assert BackupsOf(exported, order) == BackupsOf(db, order);
    forall f ensures f in Prefixes(db.backups, BackupsOf(db, order)) <==> exists b :: BacksUp(db, b, order) && db.backups[b].prefix == f {
      if b :| BacksUp(db, b, order) && db.backups[b].prefix == f { assert b in BackupsOf(db, order); }
    }
  }

  /** And of its own it leaves only the media row as deleted, the deleted backup rows, the closed order, the
      purged record and the tombstone. */
  lemma PurgeLeavesNothingOfItsOwn(db: Db, i: Id)
    requires i in db.records && !db.records[i].purged
    ensures var end, order := Purged(db, i), db.records[i].order;
            && i !in end.invitations && order !in end.briefs && order !in end.events
            && (forall v :: v in end.reviews ==> v in db.reviews && v.0 != i)
            && (forall n :: n in end.notifications ==> n in db.notifications && n.0 != order)
            && (forall m :: m in end.media && db.media[m].order == order && !db.media[m].catalog ==>
                  end.media[m] == db.media[m].(deleted := true))
            && (forall b :: BacksUp(db, b, order) ==> end.backups[b] == db.backups[b].(deleted := true))
            && (order in db.closed ==> end.closed[order])
            && end.records[i] == db.records[i].(exported := true, purged := true)
            && (if db.records[i].exported then end.tombstones == db.tombstones
                else i in end.tombstones
                     && end.tombstones[i] == Tombstone(order, i, db.records[i].slugDigest, db.records[i].executeAfter))
  {
    var exported := Exported(db, i);
    assert BackupsOf(exported, db.records[i].order) == BackupsOf(db, db.records[i].order);
    PurgedIs(db, i);
  }

  // ----- Ends of an invitation's life -----

  /** Only this invitation, its record and the audits may differ. */
  ghost predicate OnlyEnds(db: Db, end: Db, i: Id) {
    && end == db.(invitations := end.invitations, records := end.records, audits := end.audits)
    && (forall j :: j != i ==> (j in end.invitations <==> j in db.invitations) && (j in end.records <==> j in db.records))
    && (forall j :: j != i && j in db.invitations ==> end.invitations[j] == db.invitations[j])
    && (forall j :: j != i && j in db.records ==> end.records[j] == db.records[j])
  }

  /** An automatic expiry takes effect exactly on a live or suspended invitation whose time has come: it expires with
      its epoch raised, and its content is due for deletion 30 days later unless a record says otherwise. */
  lemma ExpiryIs(db: Db, i: Id, now: int)
    ensures var end := ExpireOne(db, i, now);
            var due := i in db.invitations && db.invitations[i].availability in {Live, Suspended} && db.invitations[i].expiresAt <= now;
            && (!due ==> end == db)
            && (due ==>
                  && OnlyEnds(db, end, i) && i in end.invitations && i in end.records
                  && end.invitations[i] == db.invitations[i].(availability := Expired, epoch := db.invitations[i].epoch + 1)
                  && end.audits == db.audits + [ExpiredAutomatically(i)]
                  && (if i in db.records then end.records[i] == db.records[i]
                      else end.records[i].executeAfter == now + 30 * 24 * 3600 * 1000 && !end.records[i].exported && !end.records[i].purged
                           && end.records[i].order == db.invitations[i].order && end.records[i].slugDigest == db.invitations[i].slugDigest))
  {
  }

  /** An administrator's removal is due for deletion at once and an expiry after 30 days, also where a record already
      gave another date; a removal ends anything but a removed invitation, an expiry a running one. */
  lemma EndingByHandIs(db: Db, i: Id, remove: bool, now: int)
    ensures var end := EndByHand(db, i, remove, now);
            var ends := i in db.invitations && if remove then db.invitations[i].availability != Removed
                                               else db.invitations[i].availability in {Live, Suspended};
            && (!ends ==> end == db)
            && (ends ==>
                  && OnlyEnds(db, end, i) && end.audits == db.audits && i in end.invitations && i in end.records
                  && end.invitations[i] == db.invitations[i].(availability := if remove then Removed else Expired,
                                                              epoch := db.invitations[i].epoch + 1)
                  && end.records[i].executeAfter == (if remove then now else now + 30 * 24 * 3600 * 1000)
                  && (if i in db.records then end.records[i].(executeAfter := 0) == db.records[i].(executeAfter := 0)
                      else !end.records[i].exported && !end.records[i].purged
                           && end.records[i].order == db.invitations[i].order && end.records[i].slugDigest == db.invitations[i].slugDigest))
  {
  }

  // ----- One worker, undisturbed -----

  /** The worker's next `n` steps, with nothing in between. */
  function Advances(id: Id, todo: seq<Id>, n: nat): seq<Step> { seq(n, i requires 0 <= i < n => Advance(id, todo)) }

  lemma OneAdvance(s: System, id: Id, todo: seq<Id>, n: nat)
    requires n > 0
    ensures Run(s, Advances(id, todo, n)) == Run(Next(s, Advance(id, todo)), Advances(id, todo, n - 1))
  {
    assert Advances(id, todo, n)[1..] == Advances(id, todo, n - 1);
  }

  function Listed(todo: seq<Id>): set<Id> { set b | b in todo }

  lemma FirstDeleted(db: Db, b: Id, rest: set<Id>)
    requires b in db.backups && b !in rest
    ensures BackupsDeleted(MarkDeleted(RemoveFiles(db, b), b), rest) == BackupsDeleted(db, {b} + rest)
  {
    var db' := MarkDeleted(RemoveFiles(db, b), b);
    assert Prefixes(db'.backups, rest) == Prefixes(db.backups, rest);
    assert Prefixes(db.backups, {b} + rest) == {db.backups[b].prefix} + Prefixes(db.backups, rest);
  }

  /** From the first backup on: each one's files and then its row, and at last the rows of the order. */
  lemma {:induction false} DeletingRuns(s: System, id: Id, todo: seq<Id>, left: seq<Id>)
    requires id in s.workers && s.workers[id].phase == Deleting(left, false)
    requires (forall b :: b in left ==> b in s.db.backups) && forall i, j :: 0 <= i < j < |left| ==> left[i] != left[j]
    ensures Run(s, Advances(id, todo, 2 * |left| + 1)).db
         == CommitPurge(BackupsDeleted(s.db, Listed(left)), s.workers[id].record)
    decreases |left|
  {
    var n := 2 * |left| + 1;
    OneAdvance(s, id, todo, n);
    var s1 := Next(s, Advance(id, todo));
    if left == [] {
      NoneDeleted(s.db);
      assert Listed(left) == {} && Run(s1, Advances(id, todo, 0)) == s1;
    } else {
      OneAdvance(s1, id, todo, n - 1);
      var s2 := Next(s1, Advance(id, todo));
      DeletingRuns(s2, id, todo, left[1..]);
      FirstDeleted(s.db, left[0], Listed(left[1..]));
      assert Listed(left) == {left[0]} + Listed(left[1..]);
    }
  }

  /** A worker that fetched a record and is not disturbed purges it: its tombstone, every backup of its order, its rows. */
  lemma UndisturbedWorkerPurges(s: System, id: Id, i: Id, todo: seq<Id>) returns (n: nat)
    requires i in s.db.records && !s.db.records[i].purged && id in s.workers
    requires s.workers[id] == Worker(i, s.db.records[i], Fetched)
    requires Listed(todo) == BackupsOf(s.db, s.db.records[i].order) && forall j, k :: 0 <= j < k < |todo| ==> todo[j] != todo[k]
    ensures Run(s, Advances(id, todo, n)).db == Purged(s.db, i)
  {
    var exported := Exported(s.db, i);
    var deleting := s.(db := exported, workers := s.workers[id := s.workers[id].(phase := Deleting(todo, false))]);
    assert forall b :: b in todo ==> b in Listed(todo);
    DeletingRuns(deleting, id, todo, todo);
    assert BackupsOf(exported, s.db.records[i].order) == BackupsOf(s.db, s.db.records[i].order);
    n := 2 * |todo| + if s.db.records[i].exported then 3 else 4;
    UntilDeleting(s, id, i, todo, 2 * |todo| + 1);
  }

  lemma UntilDeleting(s: System, id: Id, i: Id, todo: seq<Id>, rest: nat)
    requires i in s.db.records && !s.db.records[i].purged && id in s.workers
    requires s.workers[id] == Worker(i, s.db.records[i], Fetched)
    ensures var n := rest + if s.db.records[i].exported then 2 else 3;
            Run(s, Advances(id, todo, n))
            == Run(s.(db := Exported(s.db, i), workers := s.workers[id := s.workers[id].(phase := Deleting(todo, false))]),
                   Advances(id, todo, rest))
  {
    var w := s.workers[id];
    if s.db.records[i].exported {
      OneAdvance(s, id, todo, rest + 2);
      var s1 := s.(workers := s.workers[id := w.(phase := TombstoneMarked)]);
      assert Next(s, Advance(id, todo)) == s1;
      LastBeforeDeleting(s1, id, i, todo, rest);
      assert s1.workers[id := w.(phase := Deleting(todo, false))] == s.workers[id := w.(phase := Deleting(todo, false))];
    } else {
      OneAdvance(s, id, todo, rest + 3);
      var s1 := s.(db := PutTombstone(s.db, i, w.seen), workers := s.workers[id := w.(phase := TombstonePut)]);
      assert Next(s, Advance(id, todo)) == s1;
      OneAdvance(s1, id, todo, rest + 2);
      var s2 := s1.(db := MarkExported(s1.db, i), workers := s1.workers[id := w.(phase := TombstoneMarked)]);
      assert Next(s1, Advance(id, todo)) == s2;
      LastBeforeDeleting(s2, id, i, todo, rest);
      assert s2.workers[id := w.(phase := Deleting(todo, false))] == s.workers[id := w.(phase := Deleting(todo, false))];
    }
  }

  lemma LastBeforeDeleting(s: System, id: Id, i: Id, todo: seq<Id>, rest: nat)
    requires id in s.workers && s.workers[id].phase == TombstoneMarked && s.workers[id].record == i
    requires i in s.db.records && !s.db.records[i].purged
    ensures Run(s, Advances(id, todo, rest + 1))
         == Run(s.(workers := s.workers[id := s.workers[id].(phase := Deleting(todo, false))]), Advances(id, todo, rest))
  {
    OneAdvance(s, id, todo, rest + 1);
  }

  /** And one whose record was purged meanwhile stops without writing. */
  lemma LateWorkerStops(s: System, id: Id, todo: seq<Id>)
    requires id in s.workers && s.workers[id].phase == TombstoneMarked
    ensures var i := s.workers[id].record;
            (i !in s.db.records || s.db.records[i].purged) ==> Next(s, Advance(id, todo)) == s.(workers := s.workers - {id})
  {
  }

  // ----- A whole sweep -----

  lemma {:induction false} OtherRecordsUntouched(db: Db, due: seq<Id>, failing: set<Id>, r: Id)
    requires r in db.records && (r !in due || r in failing)
    ensures r in PurgeAll(db, due, failing).records && PurgeAll(db, due, failing).records[r] == db.records[r]
    decreases |due|
  {
    if due != [] {
      OtherRecordsKept(db, due[0]);
      OtherRecordsUntouched(if due[0] in failing then db else Purged(db, due[0]), due[1..], failing, r);
    }
  }

  /** Of the due records a sweep purges exactly those that do not throw, whatever the others do. */
  lemma {:induction false} SweepPurgesTheRest(db: Db, due: seq<Id>, failing: set<Id>, r: Id)
    requires Outstanding(db, due) && r in due
    ensures r in PurgeAll(db, due, failing).records
    ensures if r in failing then PurgeAll(db, due, failing).records[r] == db.records[r]
            else PurgeAll(db, due, failing).records[r] == db.records[r].(exported := true, purged := true)
    decreases |due|
  {
    if r in failing {
      OtherRecordsUntouched(db, due, failing, r);
    } else if due[0] == r {
      PurgeLeavesNothingOfItsOwn(db, r);
      OtherRecordsUntouched(Purged(db, r), due[1..], failing, r);
    } else {
      StillOutstanding(db, due);
      OtherRecordsKept(db, due[0]);
      SweepPurgesTheRest(if due[0] in failing then db else Purged(db, due[0]), due[1..], failing, r);
    }
  }

  /** And every candidate whose time has come ends expired, every other invitation as it was. */
  lemma {:induction false} SweepExpires(db: Db, candidates: seq<Id>, now: int, i: Id)
    requires i in db.invitations
    ensures i in ExpireAll(db, candidates, now).invitations
    ensures var end := ExpireAll(db, candidates, now).invitations[i];
            if i in candidates && ExpiryDue(db, i, now) then
              end == db.invitations[i].(availability := Expired, epoch := db.invitations[i].epoch + 1)
            else end == db.invitations[i]
    decreases |candidates|
  {
    if candidates != [] {
      ExpiryIs(db, candidates[0], now);
      SweepExpires(ExpireOne(db, candidates[0], now), candidates[1..], now, i);
    }
  }
}
