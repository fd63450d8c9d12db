/** Household seats, responses and corrections (lib/guests/service.ts, lib/domain/rsvp.ts). */
module Households {

  import opened Wrappers

  type Id = nat

  datatype Slot = Slot(group: Id, adult: bool, name: Option<string>, additional: bool, order: nat)

  datatype Group = Group(title: string, active: bool, revision: nat)

  datatype Status = Attending | Declined

  datatype Rsvp = Rsvp(status: Status, revision: nat, version: nat, note: Option<string>, key: Id)

  /** A household has at most one response, so responses are keyed by household. */
  datatype Db = Db(
    groups: map<Id, Group>,
    slots: map<Id, Slot>,
    rsvps: map<Id, Rsvp>,
    attendees: map<(Id, Id), Option<string>>)

  datatype Error =
    | Invalid | NotFound | DeadlinePassed | VersionChanged | SeatOutside | NameMissing | ResponseChanged
    | RevisionChanged | SlotOutside | SeatOccupied | DeclinedWithSeats | AttendingWithoutSeats | Unpublished
    | ConstraintViolation

  datatype Outcome = Saved | Replayed | Refused(error: Error)

  const MAX_SLOTS := 20
  const SHIFT := 1000

  // ----- Inputs -----

  datatype SlotInput = SlotInput(id: Option<Id>, adult: bool, name: Option<string>, additional: bool)

  datatype Submission = Submission(
    status: Status, selected: seq<Id>, expectedRevision: nat, version: nat, note: Option<string>,
    names: map<Id, string>, key: Id)

  datatype Correction = Correction(status: Status, selected: seq<Id>, names: map<Id, string>, note: Option<string>)

  function Distinct(ids: seq<Id>): set<Id> { set id | id in ids }

  /** The refinements of the submission schema. */
  predicate ValidSubmission(s: Submission) {
    && |s.selected| <= MAX_SLOTS && s.version > 0
    && (s.status == Attending ==> s.selected != [])
    && (s.status == Declined ==> s.selected == [])
    && |Distinct(s.selected)| == |s.selected|
    && s.names.Keys <= Distinct(s.selected)
  }

  // ----- Responses -----

  function Allocated(slots: map<Id, Slot>, group: Id): set<Id> {
    set s | s in slots && slots[s].group == group
  }

  /** The household's rows whose ids were requested. */
  function Selected(slots: map<Id, Slot>, group: Id, requested: seq<Id>): set<Id> {
    set s | s in slots && slots[s].group == group && s in requested
  }

  function Revision(db: Db, group: Id): nat {
    if group in db.rsvps then db.rsvps[group].revision else 0
  }

  predicate KeyTaken(db: Db, group: Id, key: Id) {
    exists g :: g in db.rsvps && g != group && db.rsvps[g].key == key
  }

  function DisplayName(slot: Slot, names: map<Id, string>, id: Id): Option<string> {
    if slot.name.Some? then slot.name else if id in names then Some(names[id]) else None
  }

  predicate NeedsName(slot: Slot, names: map<Id, string>, id: Id) {
    slot.name.None? && slot.adult && id !in names
  }

  /** An empty note is stored as none. */
  function Kept(note: Option<string>): Option<string> {
    if note == Some("") then None else note
  }

  /** The response row and its attendee rows replaced. */
  function Respond(db: Db, group: Id, status: Status, version: nat, note: Option<string>, key: Id,
                   seats: set<Id>, names: map<Id, string>): Db
    requires seats <= db.slots.Keys
  {
    db.(rsvps := db.rsvps[group := Rsvp(status, Revision(db, group) + 1, version, note, key)],
        attendees := WithoutGroup(db.attendees, group) + AttendeeRows(db.slots, group, seats, names))
  }

  function AttendeeRows(slots: map<Id, Slot>, group: Id, seats: set<Id>, names: map<Id, string>)
    : map<(Id, Id), Option<string>>
    requires seats <= slots.Keys
  {
    map s | s in seats :: (group, s) := DisplayName(slots[s], names, s)
  }

  function WithoutGroup(attendees: map<(Id, Id), Option<string>>, group: Id): map<(Id, Id), Option<string>> {
    map a | a in attendees && a.0 != group :: attendees[a]
  }

  /** `open` says the deadline has not passed, `live` is the version the session was read with. */
  function Submit(db: Db, group: Id, s: Submission, open: bool, live: nat): (Db, Outcome) {
    var seats := Selected(db.slots, group, s.selected);
    if !ValidSubmission(s) then (db, Refused(Invalid))
    else if !open then (db, Refused(DeadlinePassed))
    else if s.version != live then (db, Refused(VersionChanged))
    else if |seats| != |s.selected| then (db, Refused(SeatOutside))
    else if exists id :: id in seats && NeedsName(db.slots[id], s.names, id) then (db, Refused(NameMissing))
    else if group in db.rsvps && db.rsvps[group].key == s.key then (db, Replayed)
    else if Revision(db, group) != s.expectedRevision then (db, Refused(ResponseChanged))
    else if group !in db.groups || KeyTaken(db, group, s.key) then (db, Refused(ConstraintViolation))
    else (Respond(db, group, s.status, s.version, Kept(s.note), s.key, if s.status == Attending then seats else {}, s.names), Saved)
  }

  /** `key` is drawn at random for each correction. */
  function Correct(db: Db, group: Id, c: Correction, live: Option<nat>, key: Id): (Db, Outcome) {
    var seats := Selected(db.slots, group, c.selected);
    if group !in db.groups then (db, Refused(NotFound))
    else if |seats| != |c.selected| then (db, Refused(SeatOutside))
    else if c.status == Declined && seats != {} then (db, Refused(DeclinedWithSeats))
    else if c.status == Attending && seats == {} then (db, Refused(AttendingWithoutSeats))
    else if live.None? then (db, Refused(Unpublished))
    else if KeyTaken(db, group, key) then (db, Refused(ConstraintViolation))
    else (Respond(db, group, c.status, live.value, Kept(c.note), key, seats, c.names), Saved)
  }

  // ----- Seats -----

  function NewSlot(group: Id, input: SlotInput, order: nat): Slot {
    Slot(group, input.adult, input.name, input.additional, order)
  }

  function Supplied(inputs: seq<SlotInput>): set<Id> {
    set i | i in inputs && i.id.Some? :: i.id.value
  }

  function Shifted(slots: map<Id, Slot>, group: Id): map<Id, Slot> {
    map s | s in slots :: if slots[s].group == group then slots[s].(order := slots[s].order + SHIFT) else slots[s]
  }

  /** The row that input `k` writes: its own, or the one drawn for it. */
  function RowOf(inputs: seq<SlotInput>, draws: seq<Id>, k: nat): Id
    requires k < |inputs| == |draws|
  {
    match inputs[k].id case Some(id) => id case None => draws[k]
  }

  /** The slots after the first `k` inputs have been written in order. */
  function Written(slots: map<Id, Slot>, group: Id, inputs: seq<SlotInput>, draws: seq<Id>, k: nat): map<Id, Slot>
    requires k <= |inputs| == |draws|
  {
    if k == 0 then slots
    else Written(slots, group, inputs, draws, k - 1)[RowOf(inputs, draws, k - 1) := NewSlot(group, inputs[k - 1], k - 1)]
  }

  /** Ids drawn for new rows collide with nothing. */
  predicate FreshDraws(slots: map<Id, Slot>, draws: seq<Id>) {
    && (forall k :: 0 <= k < |draws| ==> draws[k] !in slots)
    && (forall j, k :: 0 <= j < k < |draws| ==> draws[j] != draws[k])
  }

  datatype Edit = Edit(title: string, active: bool, expectedRevision: nat, inputs: seq<SlotInput>)

  function Removed(slots: map<Id, Slot>, group: Id, inputs: seq<SlotInput>): set<Id> {
    Allocated(slots, group) - Supplied(inputs)
  }

  predicate Occupied(attendees: map<(Id, Id), Option<string>>, removed: set<Id>) {
    exists a :: a in attendees && a.1 in removed
  }

  function ApplyEdit(db: Db, group: Id, u: Edit, draws: seq<Id>): (Db, Outcome)
    requires |u.inputs| == |draws|
  {
    var removed := Removed(db.slots, group, u.inputs);
    if !(1 <= |u.inputs| <= MAX_SLOTS) then (db, Refused(Invalid))
    else if group !in db.groups then (db, Refused(NotFound))
    else if db.groups[group].revision != u.expectedRevision then (db, Refused(RevisionChanged))
    else if !(Supplied(u.inputs) <= Allocated(db.slots, group)) then (db, Refused(SlotOutside))
    else if Occupied(db.attendees, removed) then (db, Refused(SeatOccupied))
    else if !FreshDraws(db.slots, draws) then (db, Refused(ConstraintViolation))
    else
      (db.(slots := Written(Shifted(db.slots - removed, group), group, u.inputs, draws, |u.inputs|),
           groups := db.groups[group := Group(u.title, u.active, u.expectedRevision + 1)]), Saved)
  }

  function Create(db: Db, group: Id, title: string, inputs: seq<SlotInput>, draws: seq<Id>): (Db, Outcome)
    requires |inputs| == |draws|
  {
    if !(1 <= |inputs| <= MAX_SLOTS) || Supplied(inputs) != {} then (db, Refused(Invalid))
    else if group in db.groups || !FreshDraws(db.slots, draws) then (db, Refused(ConstraintViolation))
    else (db.(groups := db.groups[group := Group(title, true, 1)],
              slots := Written(db.slots, group, inputs, draws, |inputs|)), Saved)
  }

  // ----- The invariant -----

  /** The unique index on household and display order. */
  ghost predicate UniqueOrders(slots: map<Id, Slot>) {
    forall s, t :: s in slots && t in slots && s != t && slots[s].group == slots[t].group ==>
      slots[s].order != slots[t].order
  }

  ghost predicate OrdersBelow(slots: map<Id, Slot>, bound: nat) {
    forall s :: s in slots ==> slots[s].order < bound
  }

  ghost predicate GoodSlots(db: Db) {
    UniqueOrders(db.slots) && OrdersBelow(db.slots, MAX_SLOTS) && forall s :: s in db.slots ==> db.slots[s].group in db.groups
  }

  /** Every attendee sits in a slot of the response's own household, and the households that
      attend are exactly those with an attendee. */
  ghost predicate GoodSeats(db: Db) {
    && (forall a :: a in db.attendees ==> a.1 in db.slots && db.slots[a.1].group == a.0 && a.0 in db.rsvps)
    && (forall g :: g in db.rsvps ==> (db.rsvps[g].status == Attending <==> exists a :: a in db.attendees && a.0 == g))
  }

  ghost predicate UniqueKeys(db: Db) {
    forall g, h :: g in db.rsvps && h in db.rsvps && g != h ==> db.rsvps[g].key != db.rsvps[h].key
  }

  ghost predicate Inv(db: Db) {
    GoodSlots(db) && GoodSeats(db) && UniqueKeys(db)
  }

  // ----- The counting lemma -----

  /** The length comparison after filtering succeeds exactly when the requested ids are
      duplicate-free and all allocated. */
  lemma SameCountExactlyWhenAllocated(slots: map<Id, Slot>, group: Id, requested: seq<Id>)
    ensures |Selected(slots, group, requested)| == |requested| <==>
              (|Distinct(requested)| == |requested| && Distinct(requested) <= Allocated(slots, group))
  {
    var ids, seats := Distinct(requested), Selected(slots, group, requested);
    DistinctAtMost(requested);
    assert seats == ids * Allocated(slots, group);
    assert ids == seats + (ids - seats) && |seats + (ids - seats)| == |seats| + |ids - seats|;
    if |seats| == |requested| {
      assert ids - seats == {};
      assert ids <= Allocated(slots, group);
    } else if ids <= Allocated(slots, group) {
      assert seats == ids;
    }
  }

  lemma {:induction false} DistinctAtMost(ids: seq<Id>)
    ensures |Distinct(ids)| <= |ids|
  {
    if ids != [] {
      DistinctAtMost(ids[1..]);
      assert Distinct(ids) == {ids[0]} + Distinct(ids[1..]);
    }
  }

  lemma NoSeatsNoRows(attendees: map<(Id, Id), Option<string>>, slots: map<Id, Slot>, group: Id, names: map<Id, string>)
    ensures attendees + AttendeeRows(slots, group, {}, names) == attendees
  {
  }

  // ----- Reordering under the unique index -----

  /** The slots when some of the household's rows have been shifted and the others not yet. */
  function PartlyShifted(slots: map<Id, Slot>, done: set<Id>): map<Id, Slot> {
    map s | s in slots :: if s in done then slots[s].(order := slots[s].order + SHIFT) else slots[s]
  }

  /** In whatever order the rows are shifted, no two rows of a household ever share an order. */
  lemma ShiftingNeverClashes(slots: map<Id, Slot>, done: set<Id>)
    requires UniqueOrders(slots) && OrdersBelow(slots, SHIFT)
    ensures UniqueOrders(PartlyShifted(slots, done))
  {
  }

  /** The writes that follow find only shifted rows and smaller orders in their way. */
  lemma {:induction false} WritingNeverClashes(slots: map<Id, Slot>, group: Id, inputs: seq<SlotInput>, draws: seq<Id>, k: nat)
    requires k <= |inputs| == |draws| && k <= SHIFT && UniqueOrders(slots)
    requires forall s :: s in slots && slots[s].group == group ==> slots[s].order >= SHIFT
    ensures var w := Written(slots, group, inputs, draws, k);
            UniqueOrders(w) && forall s :: s in w && w[s].group == group ==> w[s].order < k || w[s].order >= SHIFT
  {
    if k > 0 {
      WritingNeverClashes(slots, group, inputs, draws, k - 1);
    }
  }

  // ----- The store -----

  class HouseholdStore {
    var groups: map<Id, Group>
    var slots: map<Id, Slot>
    var rsvps: map<Id, Rsvp>
    var attendees: map<(Id, Id), Option<string>>

    ghost function State(): Db
      reads this
    {
      Db(groups, slots, rsvps, attendees)
    }

    /** One row write. Its precondition is the unique index, which the database checks at once. */
    method WriteSlot(id: Id, slot: Slot)
      requires UniqueOrders(slots[id := slot])
      modifies `slots
      ensures slots == old(slots)[id := slot]
    {
      slots := slots[id := slot];
    }

    method ShiftRow(id: Id, ghost before: map<Id, Slot>, ghost done: set<Id>)
      requires slots == PartlyShifted(before, done) && id in slots && id !in done
      requires UniqueOrders(before) && OrdersBelow(before, SHIFT)
      modifies `slots
      ensures slots == PartlyShifted(before, done + {id})
    {
      ShiftingNeverClashes(before, done + {id});
      WriteSlot(id, slots[id].(order := slots[id].order + SHIFT));
    }

    /** The shift by 1000 updates the household's rows one by one, in any order. */
    method ShiftOrders(group: Id)
      requires UniqueOrders(slots) && OrdersBelow(slots, SHIFT)
      modifies `slots
      ensures slots == Shifted(old(slots), group) && UniqueOrders(slots)
    {
      ghost var before, done := slots, {};
      var todo := Allocated(slots, group);
      while todo != {}
        invariant done == Allocated(before, group) - todo && todo <= Allocated(before, group)
        invariant slots == PartlyShifted(before, done)
        decreases todo
      {
        var id :| id in todo;
        ShiftRow(id, before, done);
        done, todo := done + {id}, todo - {id};
      }
      ShiftingNeverClashes(before, done);
      assert done == Allocated(before, group);
    }

    /** The loop over the supplied slots. */
    method WriteInputs(group: Id, inputs: seq<SlotInput>, draws: seq<Id>)
      requires |inputs| == |draws| <= MAX_SLOTS && UniqueOrders(slots)
      requires forall s :: s in slots && slots[s].group == group ==> slots[s].order >= SHIFT
      modifies `slots
      ensures slots == Written(old(slots), group, inputs, draws, |inputs|) && UniqueOrders(slots)
    {
      for displayOrder := 0 to |inputs|
        invariant slots == Written(old(slots), group, inputs, draws, displayOrder) && UniqueOrders(slots)
      {
        WritingNeverClashes(old(slots), group, inputs, draws, displayOrder + 1);
        var slot := inputs[displayOrder];
        var id := match slot.id case Some(id) => id case None => draws[displayOrder];
        WriteSlot(id, Slot(group, slot.adult, slot.name, slot.additional, displayOrder));
      }
    }

    method CreateHousehold(group: Id, title: string, inputs: seq<SlotInput>, draws: seq<Id>) returns (outcome: Outcome)
      requires |inputs| == |draws| && GoodSlots(State())
      modifies this
      ensures (State(), outcome) == Create(old(State()), group, title, inputs, draws)
    {
      if !(1 <= |inputs| <= MAX_SLOTS) || Supplied(inputs) != {} {
        return Refused(Invalid);
      }
      if group in groups || !FreshDraws(slots, draws) {
        return Refused(ConstraintViolation);
      }
      groups := groups[group := Group(title, true, 1)];
      WriteInputs(group, inputs, draws);
      return Saved;
    }

    method UpdateHousehold(group: Id, u: Edit, draws: seq<Id>) returns (outcome: Outcome)
      requires |u.inputs| == |draws| && GoodSlots(State())
      modifies this
      ensures (State(), outcome) == ApplyEdit(old(State()), group, u, draws)
    {
      if !(1 <= |u.inputs| <= MAX_SLOTS) {
        return Refused(Invalid);
      }
      if group !in groups {
        return Refused(NotFound);
      }
      if groups[group].revision != u.expectedRevision {
        return Refused(RevisionChanged);
      }
      var existing := Allocated(slots, group);
      var suppliedIds := Supplied(u.inputs);
      if exists id :: id in suppliedIds && id !in existing {
        return Refused(SlotOutside);
      }
      var removed := existing - suppliedIds;
      if removed != {} {
        if exists a :: a in attendees && a.1 in removed {
          return Refused(SeatOccupied);
        }
      }
      if !FreshDraws(slots, draws) {
        return Refused(ConstraintViolation);
      }
      slots := slots - removed;
      ShiftOrders(group);
      WriteInputs(group, u.inputs, draws);
      groups := groups[group := Group(u.title, u.active, groups[group].revision + 1)];
      return Saved;
    }

    method SubmitGuestRsvp(group: Id, s: Submission, open: bool, live: nat) returns (outcome: Outcome)
      modifies this
      ensures (State(), outcome) == Submit(old(State()), group, s, open, live)
    {
      if !ValidSubmission(s) {
        return Refused(Invalid);
      }
      if !open {
        return Refused(DeadlinePassed);
      }
      if s.version != live {
        return Refused(VersionChanged);
      }
      var selected := Selected(slots, group, s.selected);
      if |selected| != |s.selected| {
        return Refused(SeatOutside);
      }
      var unnamed := AnyUnnamed(selected, s.names);
      if unnamed {
        return Refused(NameMissing);
      }
      if group in rsvps && rsvps[group].key == s.key {
        return Replayed;
      }
      var revision := if group in rsvps then rsvps[group].revision else 0;
      if revision != s.expectedRevision {
        return Refused(ResponseChanged);
      }
      var taken := exists g :: g in rsvps && g != group && rsvps[g].key == s.key;
      if group !in groups || taken {
        return Refused(ConstraintViolation);
      }
      rsvps := rsvps[group := Rsvp(s.status, revision + 1, s.version, Kept(s.note), s.key)];
      attendees := WithoutGroup(attendees, group);
      NoSeatsNoRows(attendees, slots, group, s.names);
      if s.status == Attending && selected != {} {
        attendees := attendees + AttendeeRows(slots, group, selected, s.names);
      }
      return Saved;
    }

    /** The loop that asks a name for each selected unnamed adult. */
    method AnyUnnamed(selected: set<Id>, names: map<Id, string>) returns (unnamed: bool)
      requires selected <= slots.Keys
      ensures unnamed <==> exists id :: id in selected && NeedsName(slots[id], names, id)
    {
      var todo := selected;
      while todo != {}
        invariant todo <= selected
        invariant forall id :: id in selected - todo ==> !NeedsName(slots[id], names, id)
        decreases todo
      {
        var id :| id in todo;
        if slots[id].name.None? && slots[id].adult && id !in names {
          assert NeedsName(slots[id], names, id);
          return true;
        }
        todo := todo - {id};
      }
      return false;
    }

    method CorrectHouseholdRsvp(group: Id, c: Correction, live: Option<nat>, key: Id) returns (outcome: Outcome)
      modifies this
      ensures (State(), outcome) == Correct(old(State()), group, c, live, key)
    {
      if group !in groups {
        return Refused(NotFound);
      }
      var selected := Selected(slots, group, c.selected);
      if |selected| != |c.selected| {
        return Refused(SeatOutside);
      }
      if c.status == Declined && selected != {} {
        return Refused(DeclinedWithSeats);
      }
      if c.status == Attending && selected == {} {
        return Refused(AttendingWithoutSeats);
      }
      if live.None? {
        return Refused(Unpublished);
      }
      var taken := exists g :: g in rsvps && g != group && rsvps[g].key == key;
      if taken {
        return Refused(ConstraintViolation);
      }
      var revision := if group in rsvps then rsvps[group].revision else 0;
      rsvps := rsvps[group := Rsvp(c.status, revision + 1, live.value, Kept(c.note), key)];
      attendees := WithoutGroup(attendees, group);
      NoSeatsNoRows(attendees, slots, group, c.names);
      if selected != {} {
        attendees := attendees + AttendeeRows(slots, group, selected, c.names);
      }
      return Saved;
    }
  }
}
