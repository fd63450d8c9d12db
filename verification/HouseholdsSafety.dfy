/** Households over whole runs: seats, response revisions, replays and display orders. */
module HouseholdsSafety {

  import opened Wrappers
  import opened Households

  datatype Op =
    | CreateOp(group: Id, title: string, inputs: seq<SlotInput>, draws: seq<Id>)
    | EditOp(group: Id, edit: Edit, draws: seq<Id>)
    | SubmitOp(group: Id, submission: Submission, open: bool, live: nat)
    | CorrectOp(group: Id, correction: Correction, version: Option<nat>, key: Id)

  function Apply(db: Db, op: Op): (Db, Outcome) {
    match op
    case CreateOp(group, title, inputs, draws) =>
      if |inputs| == |draws| then Create(db, group, title, inputs, draws) else (db, Refused(Invalid))
    case EditOp(group, edit, draws) =>
      if |edit.inputs| == |draws| then ApplyEdit(db, group, edit, draws) else (db, Refused(Invalid))
    case SubmitOp(group, submission, open, live) => Submit(db, group, submission, open, live)
    case CorrectOp(group, correction, version, key) => Correct(db, group, correction, version, key)
  }

  function Run(db: Db, ops: seq<Op>): Db
    decreases |ops|
  {
    if ops == [] then db else Run(Apply(db, ops[0]).0, ops[1..])
  }

  const EMPTY := Db(map[], map[], map[], map[])

  // ----- Which rows an edit leaves, and with which orders -----

  /** Each input's row carries that input's position, or that of a later input for the same row. */
  lemma {:induction false} EachInputIsWritten(slots: map<Id, Slot>, group: Id, inputs: seq<SlotInput>, draws: seq<Id>, k: nat, j: nat)
    requires j < k <= |inputs| == |draws|
    ensures var w, r := Written(slots, group, inputs, draws, k), RowOf(inputs, draws, j);
            r in w && j <= w[r].order < k && w[r].group == group
  {
    if j < k - 1 {
      EachInputIsWritten(slots, group, inputs, draws, k - 1, j);
    }
  }

  /** After the writes a row is untouched, or it is the row of the input that its order names. */
  lemma {:induction false} OtherRowsUntouched(slots: map<Id, Slot>, group: Id, inputs: seq<SlotInput>, draws: seq<Id>, k: nat)
    requires k <= |inputs| == |draws|
    ensures var w := Written(slots, group, inputs, draws, k);
            && slots.Keys <= w.Keys
            && (forall s :: s in w && !(s in slots && w[s] == slots[s]) ==>
                  w[s].order < k && RowOf(inputs, draws, w[s].order) == s && w[s].group == group)
  {
    if k > 0 {
      OtherRowsUntouched(slots, group, inputs, draws, k - 1);
    }
  }

  lemma WrittenRows(slots: map<Id, Slot>, group: Id, inputs: seq<SlotInput>, draws: seq<Id>, k: nat)
    requires k <= |inputs| == |draws|
    ensures var w := Written(slots, group, inputs, draws, k);
            && slots.Keys <= w.Keys
            && (forall j :: 0 <= j < k ==>
                  var r := RowOf(inputs, draws, j); r in w && j <= w[r].order < k && w[r].group == group)
            && (forall s :: s in w && !(s in slots && w[s] == slots[s]) ==>
                  w[s].order < k && RowOf(inputs, draws, w[s].order) == s && w[s].group == group)
  {
    OtherRowsUntouched(slots, group, inputs, draws, k);
    var w := Written(slots, group, inputs, draws, k);
    forall j | 0 <= j < k
      ensures var r := RowOf(inputs, draws, j); r in w && j <= w[r].order < k && w[r].group == group
    {
      EachInputIsWritten(slots, group, inputs, draws, k, j);
    }
  }

  /** Every write goes to a supplied row of the household or to a new one. */
  lemma RowsAreSuppliedOrDrawn(inputs: seq<SlotInput>, draws: seq<Id>, k: nat)
    requires k < |inputs| == |draws|
    ensures RowOf(inputs, draws, k) in Supplied(inputs) || RowOf(inputs, draws, k) == draws[k]
  {
    if inputs[k].id.Some? {
      assert inputs[k] in inputs;
    }
  }

  lemma SuppliedIsWritten(inputs: seq<SlotInput>, draws: seq<Id>, id: Id) returns (j: nat)
    requires |inputs| == |draws| && id in Supplied(inputs)
    ensures j < |inputs| && inputs[j].id == Some(id) && RowOf(inputs, draws, j) == id
  {
    var input :| input in inputs && input.id.Some? && input.id.value == id;
    j :| 0 <= j < |inputs| && inputs[j] == input;
  }

  /** A finished edit has overwritten every row of its household and no other row. */
  lemma EditedRows(db: Db, group: Id, u: Edit, draws: seq<Id>)
    requires |u.inputs| == |draws| && ApplyEdit(db, group, u, draws).1 == Saved
    ensures var db' := ApplyEdit(db, group, u, draws).0;
            && (forall s :: s in db.slots && db.slots[s].group != group ==> s in db'.slots && db'.slots[s] == db.slots[s])
            && (forall s :: s in db'.slots && db'.slots[s].group != group ==> s in db.slots && db'.slots[s] == db.slots[s])
            && (forall s :: s in Allocated(db.slots, group) && s in Supplied(u.inputs) ==> s in Allocated(db'.slots, group))
            && (forall s :: s in Allocated(db'.slots, group) ==>
                  db'.slots[s].order < |u.inputs| && RowOf(u.inputs, draws, db'.slots[s].order) == s)
            && (forall j :: 0 <= j < |u.inputs| ==>
                  var r := RowOf(u.inputs, draws, j); r in Allocated(db'.slots, group) && j <= db'.slots[r].order)
  {
    var n := |u.inputs|;
    var before := Shifted(db.slots - Removed(db.slots, group, u.inputs), group);
    var w := Written(before, group, u.inputs, draws, n);
    assert ApplyEdit(db, group, u, draws).0.slots == w;
    WrittenRows(before, group, u.inputs, draws, n);
    forall s | s in db.slots && db.slots[s].group != group ensures s in w && w[s] == db.slots[s] {
      assert s in before && before[s] == db.slots[s];
      if w[s] != before[s] { RowsAreSuppliedOrDrawn(u.inputs, draws, w[s].order); }
    }
    forall s | s in Allocated(w, group) ensures w[s].order < n && RowOf(u.inputs, draws, w[s].order) == s {
      if s in before && w[s] == before[s] {
        assert s in Supplied(u.inputs);
        var j := SuppliedIsWritten(u.inputs, draws, s);
      }
    }
  }

  // ----- Display orders -----

  function Orders(slots: map<Id, Slot>, group: Id): set<nat> {
    set s | s in slots && slots[s].group == group :: slots[s].order
  }

  /** The household's orders are 0 to n-1, all of them and nothing else. */
  ghost predicate NumberedFromZero(slots: map<Id, Slot>, group: Id, n: nat) {
    forall k: nat :: k in Orders(slots, group) <==> k < n
  }

  ghost predicate DistinctIds(inputs: seq<SlotInput>) {
    forall j, k :: 0 <= j < k < |inputs| && inputs[j].id.Some? ==> inputs[j].id != inputs[k].id
  }

  lemma DistinctIdsDistinctRows(slots: map<Id, Slot>, inputs: seq<SlotInput>, draws: seq<Id>)
    requires |inputs| == |draws| && Supplied(inputs) <= slots.Keys && FreshDraws(slots, draws)
    ensures DistinctIds(inputs) <==>
              forall j, k :: 0 <= j < k < |inputs| ==> RowOf(inputs, draws, j) != RowOf(inputs, draws, k)
  {
    forall j | 0 <= j < |inputs| && inputs[j].id.Some? ensures inputs[j].id.value in slots {
      assert inputs[j] in inputs;
    }
    if !DistinctIds(inputs) {
      var j, k :| 0 <= j < k < |inputs| && inputs[j].id.Some? && inputs[j].id == inputs[k].id;
      assert RowOf(inputs, draws, j) == RowOf(inputs, draws, k);
    }
  }

  /** A finished edit leaves the household numbered 0 to n-1 exactly when no id was supplied twice. */
  lemma NumberedExactlyWhenDistinct(db: Db, group: Id, u: Edit, draws: seq<Id>)
    requires |u.inputs| == |draws| && ApplyEdit(db, group, u, draws).1 == Saved
    ensures NumberedFromZero(ApplyEdit(db, group, u, draws).0.slots, group, |u.inputs|) <==> DistinctIds(u.inputs)
  {
    var w := ApplyEdit(db, group, u, draws).0.slots;
    EditedRows(db, group, u, draws);
    DistinctIdsDistinctRows(db.slots, u.inputs, draws);
    if DistinctIds(u.inputs) {
      forall n: nat | n < |u.inputs| ensures n in Orders(w, group) {
        var r := RowOf(u.inputs, draws, n);
        assert r in Allocated(w, group) && RowOf(u.inputs, draws, w[r].order) == r;
      }
    } else {
      var j: nat, k: nat :| j < k < |u.inputs| && RowOf(u.inputs, draws, j) == RowOf(u.inputs, draws, k);
      OrderSkipped(w, group, u.inputs, draws, j, k);
    }
  }

  lemma OrderSkipped(w: map<Id, Slot>, group: Id, inputs: seq<SlotInput>, draws: seq<Id>, j: nat, k: nat)
    requires j < k < |inputs| == |draws| && RowOf(inputs, draws, j) == RowOf(inputs, draws, k)
    requires forall s :: s in Allocated(w, group) ==> w[s].order < |inputs| && RowOf(inputs, draws, w[s].order) == s
    requires RowOf(inputs, draws, k) in w && k <= w[RowOf(inputs, draws, k)].order
    ensures j !in Orders(w, group)
  {
    forall s | s in Allocated(w, group) ensures w[s].order != j {
    }
  }

  // ----- The invariant over every run -----

  lemma EditKeeps(db: Db, group: Id, u: Edit, draws: seq<Id>)
    requires |u.inputs| == |draws| && Inv(db)
    ensures Inv(ApplyEdit(db, group, u, draws).0)
  {
    var (db', outcome) := ApplyEdit(db, group, u, draws);
    if outcome == Saved {
      EditedRows(db, group, u, draws);
      EditKeepsOrders(db, group, u, draws);
      EditKeepsSeats(db, group, u, draws);
      forall s | s in db'.slots ensures db'.slots[s].group in db'.groups && db'.slots[s].order < MAX_SLOTS {
        if db'.slots[s].group == group { assert s in Allocated(db'.slots, group); }
      }
    }
  }

  lemma EditKeepsOrders(db: Db, group: Id, u: Edit, draws: seq<Id>)
    requires |u.inputs| == |draws| && Inv(db) && ApplyEdit(db, group, u, draws).1 == Saved
    ensures UniqueOrders(ApplyEdit(db, group, u, draws).0.slots)
  {
    var before := Shifted(db.slots - Removed(db.slots, group, u.inputs), group);
    WritingNeverClashes(before, group, u.inputs, draws, |u.inputs|);
  }

  lemma EditKeepsSeats(db: Db, group: Id, u: Edit, draws: seq<Id>)
    requires |u.inputs| == |draws| && Inv(db) && ApplyEdit(db, group, u, draws).1 == Saved
    ensures GoodSeats(ApplyEdit(db, group, u, draws).0)
  {
    var db' := ApplyEdit(db, group, u, draws).0;
    EditedRows(db, group, u, draws);
    forall a | a in db'.attendees ensures a.1 in db'.slots && db'.slots[a.1].group == a.0 {
      assert a in db.attendees && a.1 !in Removed(db.slots, group, u.inputs);
      if a.0 == group { assert a.1 in Allocated(db.slots, group); }
    }
  }

  lemma CreatedRows(db: Db, group: Id, inputs: seq<SlotInput>, draws: seq<Id>)
    requires |inputs| == |draws| <= MAX_SLOTS && Supplied(inputs) == {} && FreshDraws(db.slots, draws) && UniqueOrders(db.slots)
    requires forall s :: s in db.slots ==> db.slots[s].group != group
    ensures var w := Written(db.slots, group, inputs, draws, |inputs|);
            && UniqueOrders(w)
            && (forall s :: s in db.slots ==> s in w && w[s] == db.slots[s])
            && (forall s :: s in w && s !in db.slots ==> w[s].group == group && w[s].order < MAX_SLOTS)
  {
    var w := Written(db.slots, group, inputs, draws, |inputs|);
    WritingNeverClashes(db.slots, group, inputs, draws, |inputs|);
    WrittenRows(db.slots, group, inputs, draws, |inputs|);
    forall s | s in db.slots ensures s in w && w[s] == db.slots[s] {
      if w[s] != db.slots[s] { RowsAreSuppliedOrDrawn(inputs, draws, w[s].order); }
    }
  }

  lemma CreateKeeps(db: Db, group: Id, title: string, inputs: seq<SlotInput>, draws: seq<Id>)
    requires |inputs| == |draws| && Inv(db)
    ensures Inv(Create(db, group, title, inputs, draws).0)
  {
    if Create(db, group, title, inputs, draws).1 == Saved {
      CreatedRows(db, group, inputs, draws);
    }
  }

  /** Replacing a response by one whose seats are the household's own, none when it declines. */
  lemma RespondKeeps(db: Db, group: Id, status: Status, version: nat, note: Option<string>, key: Id, seats: set<Id>,
                     names: map<Id, string>)
    requires Inv(db) && seats <= Allocated(db.slots, group) && !KeyTaken(db, group, key)
    requires status == Attending <==> seats != {}
    ensures Inv(Respond(db, group, status, version, note, key, seats, names))
  {
    var db' := Respond(db, group, status, version, note, key, seats, names);
    RespondSeats(db, group, status, version, note, key, seats, names);
    KeyStaysUnique(db, group, db'.rsvps[group]);
    assert db'.slots == db.slots && db'.groups == db.groups && GoodSlots(db');
  }

  lemma KeyStaysUnique(db: Db, group: Id, r: Rsvp)
    requires UniqueKeys(db) && !KeyTaken(db, group, r.key)
    ensures UniqueKeys(db.(rsvps := db.rsvps[group := r]))
  {
    forall g | g in db.rsvps && g != group ensures db.rsvps[g].key != r.key {
    }
  }

  lemma RespondSeats(db: Db, group: Id, status: Status, version: nat, note: Option<string>, key: Id, seats: set<Id>,
                     names: map<Id, string>)
    requires GoodSeats(db) && seats <= Allocated(db.slots, group)
    requires status == Attending <==> seats != {}
    ensures GoodSeats(Respond(db, group, status, version, note, key, seats, names))
  {
    var db' := Respond(db, group, status, version, note, key, seats, names);
    forall a | a in db'.attendees ensures a.1 in db.slots && db.slots[a.1].group == a.0 && a.0 in db'.rsvps {
      if a.0 == group { assert a in AttendeeRows(db.slots, group, seats, names); }
    }
    forall g | g in db'.rsvps ensures db'.rsvps[g].status == Attending <==> exists a :: a in db'.attendees && a.0 == g {
      if g == group {
        if s :| s in seats { assert (group, s) in db'.attendees; }
      } else {
        assert forall a: (Id, Id) :: a.0 == g ==> (a in db'.attendees <==> a in db.attendees);
      }
    }
  }

  lemma SubmitKeeps(db: Db, group: Id, s: Submission, open: bool, live: nat)
    requires Inv(db)
    ensures Inv(Submit(db, group, s, open, live).0)
  {
    if Submit(db, group, s, open, live).1 == Saved {
      var seats := Selected(db.slots, group, s.selected);
      if s.status == Attending { assert |seats| > 0; }
      RespondKeeps(db, group, s.status, s.version, Kept(s.note), s.key, if s.status == Attending then seats else {}, s.names);
    }
  }

  lemma CorrectKeeps(db: Db, group: Id, c: Correction, live: Option<nat>, key: Id)
    requires Inv(db)
    ensures Inv(Correct(db, group, c, live, key).0)
  {
    if Correct(db, group, c, live, key).1 == Saved {
      RespondKeeps(db, group, c.status, live.value, Kept(c.note), key, Selected(db.slots, group, c.selected), c.names);
    }
  }

  lemma OpKeeps(db: Db, op: Op)
    requires Inv(db)
    ensures Inv(Apply(db, op).0)
  {
    match op
    case CreateOp(group, title, inputs, draws) =>
      if |inputs| == |draws| { CreateKeeps(db, group, title, inputs, draws); }
    case EditOp(group, edit, draws) =>
      if |edit.inputs| == |draws| { EditKeeps(db, group, edit, draws); }
    case SubmitOp(group, submission, open, live) => SubmitKeeps(db, group, submission, open, live);
    case CorrectOp(group, correction, version, key) => CorrectKeeps(db, group, correction, version, key);
  }

  lemma {:induction false} RunKeeps(db: Db, ops: seq<Op>)
    requires Inv(db)
    ensures Inv(Run(db, ops))
    decreases |ops|
  {
    if ops != [] {
      OpKeeps(db, ops[0]);
      RunKeeps(Apply(db, ops[0]).0, ops[1..]);
    }
  }

  /** In every reachable state attendees sit in their own household's slots, and a response attends
      exactly when someone does. */
  lemma SeatsAreAlwaysOwn(ops: seq<Op>)
    ensures var db := Run(EMPTY, ops);
            && (forall a :: a in db.attendees ==> a.1 in db.slots && db.slots[a.1].group == a.0 && a.0 in db.rsvps)
            && (forall g :: g in db.rsvps ==> (db.rsvps[g].status == Attending <==> exists a :: a in db.attendees && a.0 == g))
  {
    RunKeeps(EMPTY, ops);
  }

  /** In every reachable state the slots of a household have different orders below 20, so that
      shifting them by 1000 is always safe. */
  lemma OrdersAreAlwaysUnique(ops: seq<Op>, done: set<Id>)
    ensures var slots := Run(EMPTY, ops).slots;
            && (forall s, t :: s in slots && t in slots && s != t && slots[s].group == slots[t].group ==>
                  slots[s].order != slots[t].order)
            && (forall s :: s in slots ==> slots[s].order < MAX_SLOTS)
            && UniqueOrders(PartlyShifted(slots, done))
  {
    RunKeeps(EMPTY, ops);
    ShiftingNeverClashes(Run(EMPTY, ops).slots, done);
  }

  // ----- Exactly-once responses -----

  /** Submissions and corrections of a household that were accepted in a run. */
  function Accepted(db: Db, ops: seq<Op>, group: Id): nat
    decreases |ops|
  {
    if ops == [] then 0
    else
      var (next, outcome) := Apply(db, ops[0]);
      (if (ops[0].SubmitOp? || ops[0].CorrectOp?) && ops[0].group == group && outcome == Saved then 1 else 0)
      + Accepted(next, ops[1..], group)
  }

  lemma OneStepRevision(db: Db, op: Op, group: Id)
    ensures Revision(Apply(db, op).0, group) == Revision(db, group) + Accepted(db, [op], group)
  {
    assert Accepted(Apply(db, op).0, [], group) == 0;
    match op
    case CreateOp(_, _, _, _) => assert Apply(db, op).0.rsvps == db.rsvps;
    case EditOp(_, _, _) => assert Apply(db, op).0.rsvps == db.rsvps;
    case SubmitOp(g, s, open, live) => assert Apply(db, op) == Submit(db, g, s, open, live);
    case CorrectOp(g, c, version, key) => assert Apply(db, op) == Correct(db, g, c, version, key);
  }

  /** A household's revision is the number of its accepted submissions and corrections. */
  lemma {:induction false} RevisionCountsAccepted(db: Db, ops: seq<Op>, group: Id)
    ensures Revision(Run(db, ops), group) == Revision(db, group) + Accepted(db, ops, group)
    decreases |ops|
  {
    if ops != [] {
      OneStepRevision(db, ops[0], group);
      RevisionCountsAccepted(Apply(db, ops[0]).0, ops[1..], group);
    }
  }

  /** However a run continues, a submission once accepted never changes anything again. */
  lemma AcceptedSubmissionNeverActsAgain(db: Db, group: Id, s: Submission, open: bool, live: nat, ops: seq<Op>,
                                         open': bool, live': nat)
    requires Submit(db, group, s, open, live).1 == Saved
    ensures var later := Run(Submit(db, group, s, open, live).0, ops);
            Submit(later, group, s, open', live').0 == later && Submit(later, group, s, open', live').1 != Saved
  {
    var saved := Submit(db, group, s, open, live).0;
    assert Revision(saved, group) == s.expectedRevision + 1;
    RevisionCountsAccepted(saved, ops, group);
  }

  /** Sent again at once it is recognised, not refused. */
  lemma ImmediateReplayIsRecognised(db: Db, group: Id, s: Submission, open: bool, live: nat)
    requires Submit(db, group, s, open, live).1 == Saved
    ensures var saved := Submit(db, group, s, open, live).0;
            Submit(saved, group, s, open, live) == (saved, Replayed)
  {
    var saved := Submit(db, group, s, open, live).0;
    assert saved.slots == db.slots;
    assert group in saved.rsvps && saved.rsvps[group].key == s.key;
    assert Selected(saved.slots, group, s.selected) == Selected(db.slots, group, s.selected);
  }

  /** What an accepted submission leaves: the requested seats, each once, or nobody. */
  lemma AcceptedSubmissionSeatsTheRequested(db: Db, group: Id, s: Submission, open: bool, live: nat)
    requires Submit(db, group, s, open, live).1 == Saved
    ensures var db' := Submit(db, group, s, open, live).0;
            && (forall id :: (group, id) in db'.attendees <==> s.status == Attending && id in s.selected)
            && (forall id :: id in s.selected ==> id in Allocated(db.slots, group))
            && (forall a: (Id, Id) :: a.0 != group ==> (a in db'.attendees <==> a in db.attendees))
            && (forall a: (Id, Id) :: a.0 != group && a in db.attendees ==> db'.attendees[a] == db.attendees[a])
  {
    SameCountExactlyWhenAllocated(db.slots, group, s.selected);
    forall id | id in s.selected ensures id in Allocated(db.slots, group) {
      assert id in Distinct(s.selected);
    }
  }
}
