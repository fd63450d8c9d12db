/** What each household operation comes to, row by row: exactly when it is accepted, what it saves and
    what it leaves alone (lib/guests/service.ts, lib/domain/rsvp.ts). */
module HouseholdOutcomes {

  import opened Wrappers
  import opened Households
  import opened HouseholdsSafety

  /** The operations of a run, whose draws fit their inputs. */
  lemma OperationsAre(db: Db, group: Id, title: string, inputs: seq<SlotInput>, edit: Edit, draws: seq<Id>)
    ensures |inputs| == |draws| ==> Apply(db, CreateOp(group, title, inputs, draws)) == Create(db, group, title, inputs, draws)
    ensures |edit.inputs| == |draws| ==> Apply(db, EditOp(group, edit, draws)) == ApplyEdit(db, group, edit, draws)
  {
  }

  // ----- Responses -----

  /** The requested seats are different seats of this household. */
  ghost predicate OwnSeats(db: Db, group: Id, selected: seq<Id>) {
    && (forall k :: 0 <= k < |selected| ==> selected[k] in db.slots && db.slots[selected[k]].group == group)
    && (forall j, k :: 0 <= j < k < |selected| ==> selected[j] != selected[k])
  }

  /** Every selected adult has a name, assigned or typed. */
  ghost predicate AdultsNamed(db: Db, selected: seq<Id>, names: map<Id, string>) {
    forall k :: 0 <= k < |selected| && selected[k] in db.slots && db.slots[selected[k]].adult ==>
      db.slots[selected[k]].name.Some? || selected[k] in names
  }

  /** No other household has a response with this key. */
  ghost predicate KeyFree(db: Db, group: Id, key: Id) {
    forall g :: g in db.rsvps && g != group ==> db.rsvps[g].key != key
  }

  lemma {:induction false} DistinctExactlyWhen(ids: seq<Id>)
    ensures |Distinct(ids)| == |ids| <==> forall j, k :: 0 <= j < k < |ids| ==> ids[j] != ids[k]
  {
    if ids != [] {
      var rest := ids[1..];
      DistinctExactlyWhen(rest);
      DistinctAtMost(rest);
      assert Distinct(ids) == {ids[0]} + Distinct(rest);
      assert forall k :: 1 <= k < |ids| ==> ids[k] == rest[k - 1];
      if ids[0] in rest {
        assert Distinct(ids) == Distinct(rest);
      } else if forall j, k :: 0 <= j < k < |rest| ==> rest[j] != rest[k] {
        forall j, k | 0 <= j < k < |ids| ensures ids[j] != ids[k] {
          if j > 0 { assert rest[j - 1] != rest[k - 1]; }
        }
      }
    }
  }

  lemma SeatsAreOwn(db: Db, group: Id, selected: seq<Id>)
    ensures |Selected(db.slots, group, selected)| == |selected| <==> OwnSeats(db, group, selected)
    ensures OwnSeats(db, group, selected) ==> Selected(db.slots, group, selected) == Distinct(selected)
  {
    SameCountExactlyWhenAllocated(db.slots, group, selected);
    DistinctExactlyWhen(selected);
    if OwnSeats(db, group, selected) {
      assert Distinct(selected) <= Allocated(db.slots, group);
    }
    if Distinct(selected) <= Allocated(db.slots, group) {
      forall k | 0 <= k < |selected| ensures selected[k] in db.slots && db.slots[selected[k]].group == group {
        assert selected[k] in Distinct(selected);
      }
    }
  }

  /** The submission makes sense in itself: seats if and only if attending, at most 20, none twice, and names for
      selected seats only. */
  ghost predicate Sensible(s: Submission) {
    && (s.status == Attending <==> s.selected != []) && |s.selected| <= 20 && s.version > 0
    && (forall j, k :: 0 <= j < k < |s.selected| ==> s.selected[j] != s.selected[k])
    && (forall id :: id in s.names ==> id in s.selected)
  }

  lemma ValidExactlyWhenSensible(s: Submission)
    ensures ValidSubmission(s) <==> Sensible(s)
  {
    DistinctExactlyWhen(s.selected);
    assert s.status == Attending || s.status == Declined;
  }

  /** What is asked of a submission before its key and revision are looked at. */
  ghost predicate Acceptable(db: Db, group: Id, s: Submission, open: bool, live: nat) {
    Sensible(s) && open && s.version == live && OwnSeats(db, group, s.selected) && AdultsNamed(db, s.selected, s.names)
  }

  lemma NamedExactlyWhen(db: Db, group: Id, s: Submission)
    requires OwnSeats(db, group, s.selected)
    ensures AdultsNamed(db, s.selected, s.names) <==>
              !exists id :: id in Selected(db.slots, group, s.selected) && NeedsName(db.slots[id], s.names, id)
  {
    SeatsAreOwn(db, group, s.selected);
    if id :| id in Selected(db.slots, group, s.selected) && NeedsName(db.slots[id], s.names, id) {
      var k :| 0 <= k < |s.selected| && s.selected[k] == id;
    } else {
      forall k | 0 <= k < |s.selected| && db.slots[s.selected[k]].adult
        ensures db.slots[s.selected[k]].name.Some? || s.selected[k] in s.names
      {
        assert s.selected[k] in Selected(db.slots, group, s.selected);
      }
    }
  }

  /** A response is saved exactly when the submission is sensible, in time and for the live version, asks for
      seats of the household with every adult named, and has the current revision and a new
      key. Nothing else writes: a key that is the household's own is recognised, the rest is refused. */
  lemma SavedExactlyWhen(db: Db, group: Id, s: Submission, open: bool, live: nat)
    ensures var (db', outcome) := Submit(db, group, s, open, live);
            var replay := group in db.rsvps && db.rsvps[group].key == s.key;
            && (outcome == Saved <==>
                  && Acceptable(db, group, s, open, live) && !replay && group in db.groups && KeyFree(db, group, s.key)
                  && s.expectedRevision == (if group in db.rsvps then db.rsvps[group].revision else 0))
            && (outcome == Replayed <==> Acceptable(db, group, s, open, live) && replay)
            && (outcome == Refused(ResponseChanged) <==>
                  Acceptable(db, group, s, open, live) && !replay && s.expectedRevision != Revision(db, group))
            && (outcome == Refused(DeadlinePassed) <==> Sensible(s) && !open)
            && (outcome == Refused(VersionChanged) <==> Sensible(s) && open && s.version != live)
            && (outcome != Saved ==> db' == db)
  {
    ValidExactlyWhenSensible(s);
    SeatsAreOwn(db, group, s.selected);
    if OwnSeats(db, group, s.selected) { NamedExactlyWhen(db, group, s); }
  }

  /** The name shown for a seat: the assigned one, or else the one the guest typed. */
  ghost predicate ShownName(slot: Slot, names: map<Id, string>, id: Id, shown: Option<string>) {
    && (slot.name.Some? ==> shown == slot.name)
    && (slot.name.None? && id in names ==> shown == Some(names[id]))
    && (slot.name.None? && id !in names ==> shown == None)
  }

  /** The household's response and seats are these, and nothing else of the tables has changed. */
  ghost predicate Answered(db: Db, db': Db, group: Id, r: Rsvp, seats: seq<Id>, names: map<Id, string>) {
    && group in db'.rsvps && db'.rsvps[group] == r && db'.rsvps.Keys == db.rsvps.Keys + {group}
    && (forall g :: g in db.rsvps && g != group ==> db'.rsvps[g] == db.rsvps[g])
    && db'.groups == db.groups && db'.slots == db.slots
    && (forall id :: (group, id) in db'.attendees <==> id in seats)
    && (forall id :: id in seats ==>
          id in db.slots && (group, id) in db'.attendees && ShownName(db.slots[id], names, id, db'.attendees[(group, id)]))
    && (forall a: (Id, Id) :: a.0 != group ==> (a in db'.attendees <==> a in db.attendees))
    && (forall a: (Id, Id) :: a.0 != group && a in db.attendees ==> db'.attendees[a] == db.attendees[a])
  }

  lemma RespondAnswers(db: Db, group: Id, status: Status, version: nat, note: Option<string>, key: Id, seats: set<Id>,
                       names: map<Id, string>, selected: seq<Id>)
    requires seats <= db.slots.Keys && forall id :: id in seats <==> id in selected
    ensures Answered(db, Respond(db, group, status, version, note, key, seats, names), group,
                     Rsvp(status, Revision(db, group) + 1, version, note, key), selected, names)
  {
  }

  /** What a saved submission leaves: the next revision with its status, version, note and key, and exactly the
      requested seats, each with the right name. */
  lemma SavedResponseIs(db: Db, group: Id, s: Submission, open: bool, live: nat)
    requires Submit(db, group, s, open, live).1 == Saved
    ensures var note := if s.note == Some("") then None else s.note;
            Answered(db, Submit(db, group, s, open, live).0, group,
                     Rsvp(s.status, s.expectedRevision + 1, live, note, s.key), s.selected, s.names)
  {
    SeatsAreOwn(db, group, s.selected);
    var seats := Selected(db.slots, group, s.selected);
    RespondAnswers(db, group, s.status, s.version, Kept(s.note), s.key, if s.status == Attending then seats else {}, s.names, s.selected);
  }

  /** A correction is saved exactly for a household of a published invitation, with seats of its own and seats if
      and only if it attends; revision and deadline do not matter. It leaves the same kind of response. */
  lemma CorrectedExactlyWhen(db: Db, group: Id, c: Correction, live: Option<nat>, key: Id)
    ensures var (db', outcome) := Correct(db, group, c, live, key);
            && (outcome == Saved <==>
                  && group in db.groups && live.Some? && OwnSeats(db, group, c.selected)
                  && (c.status == Attending <==> c.selected != []) && KeyFree(db, group, key))
            && (outcome == Saved ==>
                  var note := if c.note == Some("") then None else c.note;
                  Answered(db, db', group, Rsvp(c.status, Revision(db, group) + 1, live.value, note, key), c.selected, c.names))
            && (outcome != Saved ==> db' == db)
  {
    SeatsAreOwn(db, group, c.selected);
    var seats := Selected(db.slots, group, c.selected);
    assert c.selected != [] ==> c.selected[0] in c.selected;
    if OwnSeats(db, group, c.selected) && live.Some? {
      assert seats == {} <==> c.selected == [] by { assert c.selected != [] ==> c.selected[0] in seats; }
      RespondAnswers(db, group, c.status, live.value, Kept(c.note), key, seats, c.names, c.selected);
    }
  }

  // ----- Seats -----

  /** Different ids, none of them in use. */
  ghost predicate NewIds(slots: map<Id, Slot>, ids: seq<Id>) {
    forall k :: 0 <= k < |ids| ==> ids[k] !in slots && ids[k] !in ids[..k]
  }

  lemma NewExactlyWhenFresh(slots: map<Id, Slot>, ids: seq<Id>)
    ensures FreshDraws(slots, ids) <==> NewIds(slots, ids)
  {
    if NewIds(slots, ids) {
      forall j, k | 0 <= j < k < |ids| ensures ids[j] != ids[k] {
        assert ids[..k][j] == ids[j];
      }
    }
  }

  /** A written row holds what its input says, at its input's position. */
  predicate Holds(slot: Slot, group: Id, inputs: seq<SlotInput>) {
    && slot.group == group && slot.order < |inputs|
    && slot.adult == inputs[slot.order].adult && slot.name == inputs[slot.order].name
    && slot.additional == inputs[slot.order].additional
  }

  lemma {:induction false} WrittenHold(slots: map<Id, Slot>, group: Id, inputs: seq<SlotInput>, draws: seq<Id>, k: nat)
    requires k <= |inputs| == |draws|
    ensures var w := Written(slots, group, inputs, draws, k);
            forall s :: s in w && !(s in slots && w[s] == slots[s]) ==> Holds(w[s], group, inputs)
    ensures forall j :: 0 <= j < k ==>
              RowOf(inputs, draws, j) in Written(slots, group, inputs, draws, k)
              && Holds(Written(slots, group, inputs, draws, k)[RowOf(inputs, draws, j)], group, inputs)
  {
    if k > 0 {
      WrittenHold(slots, group, inputs, draws, k - 1);
    }
  }

  /** An edit is saved exactly for one to twenty seats at the household's current revision, all supplied ids its
      own, none of the seats left out occupied, and new ids fresh. */
  lemma EditedExactlyWhen(db: Db, group: Id, u: Edit, draws: seq<Id>)
    requires |u.inputs| == |draws|
    ensures var (db', outcome) := ApplyEdit(db, group, u, draws);
            var supplied := (id: Id) => exists k :: 0 <= k < |u.inputs| && u.inputs[k].id == Some(id);
            && (outcome == Saved <==>
                  && 1 <= |u.inputs| <= 20 && group in db.groups && db.groups[group].revision == u.expectedRevision
                  && (forall id :: supplied(id) ==> id in db.slots && db.slots[id].group == group)
                  && (forall a :: a in db.attendees && a.1 in db.slots && db.slots[a.1].group == group ==> supplied(a.1))
                  && NewIds(db.slots, draws))
            && (outcome != Saved ==> db' == db)
  {
    NewExactlyWhenFresh(db.slots, draws);
    SuppliedAre(u.inputs);
  }

  lemma SuppliedAre(inputs: seq<SlotInput>)
    ensures forall id :: id in Supplied(inputs) <==> exists k :: 0 <= k < |inputs| && inputs[k].id == Some(id)
  {
    forall id | id in Supplied(inputs) ensures exists k :: 0 <= k < |inputs| && inputs[k].id == Some(id) {
      var i :| i in inputs && i.id.Some? && i.id.value == id;
      var k :| 0 <= k < |inputs| && inputs[k] == i;
    }
  }

  /** What it leaves: every seat of the household holds what an input says, all others are gone, the title and state
      are the edit's, and responses and other households are untouched. */
  lemma EditedHouseholdIs(db: Db, group: Id, u: Edit, draws: seq<Id>)
    requires |u.inputs| == |draws| && ApplyEdit(db, group, u, draws).1 == Saved
    ensures var db' := ApplyEdit(db, group, u, draws).0;
            && (forall s :: s in Allocated(db'.slots, group) ==> Holds(db'.slots[s], group, u.inputs))
            && (forall s :: s in Allocated(db.slots, group) && s !in Supplied(u.inputs) ==> s !in db'.slots)
            && db'.groups == db.groups[group := Group(u.title, u.active, db.groups[group].revision + 1)]
            && db'.rsvps == db.rsvps && db'.attendees == db.attendees
            && (forall s :: s in db.slots && db.slots[s].group != group ==> s in db'.slots && db'.slots[s] == db.slots[s])
  {
    EditedRows(db, group, u, draws);
    EditedSeatsHold(db, group, u, draws);
    LeftOutAreGone(db, group, u, draws);
  }

  lemma EditedSeatsHold(db: Db, group: Id, u: Edit, draws: seq<Id>)
    requires |u.inputs| == |draws| && ApplyEdit(db, group, u, draws).1 == Saved
    ensures var w := ApplyEdit(db, group, u, draws).0.slots;
            forall s :: s in Allocated(w, group) ==> Holds(w[s], group, u.inputs)
  {
    EditedRows(db, group, u, draws);
    var w := ApplyEdit(db, group, u, draws).0.slots;
    WrittenHold(Shifted(db.slots - Removed(db.slots, group, u.inputs), group), group, u.inputs, draws, |u.inputs|);
    forall s | s in Allocated(w, group) ensures Holds(w[s], group, u.inputs) {
      assert RowOf(u.inputs, draws, w[s].order) == s;
    }
  }

  lemma LeftOutAreGone(db: Db, group: Id, u: Edit, draws: seq<Id>)
    requires |u.inputs| == |draws| && ApplyEdit(db, group, u, draws).1 == Saved
    ensures var w := ApplyEdit(db, group, u, draws).0.slots;
            forall s :: s in Allocated(db.slots, group) && s !in Supplied(u.inputs) ==> s !in w
  {
    var before := Shifted(db.slots - Removed(db.slots, group, u.inputs), group);
    var w := Written(before, group, u.inputs, draws, |u.inputs|);
    OtherRowsUntouched(before, group, u.inputs, draws, |u.inputs|);
    forall s | s in w && s !in before ensures s in Supplied(u.inputs) || s !in db.slots {
      RowsAreSuppliedOrDrawn(u.inputs, draws, w[s].order);
    }
  }

  /** A household is created exactly with one to twenty new seats under fresh ids; seat `k` is what input `k` says. */
  lemma CreatedHouseholdIs(db: Db, group: Id, title: string, inputs: seq<SlotInput>, draws: seq<Id>)
    requires |inputs| == |draws|
    ensures var (db', outcome) := Create(db, group, title, inputs, draws);
            && (outcome == Saved <==>
                  && 1 <= |inputs| <= 20 && (forall k :: 0 <= k < |inputs| ==> inputs[k].id == None)
                  && group !in db.groups && NewIds(db.slots, draws))
            && (outcome == Saved ==>
                  && db'.groups == db.groups[group := Group(title, true, 1)] && db'.rsvps == db.rsvps && db'.attendees == db.attendees
                  && (forall k :: 0 <= k < |inputs| ==>
                        draws[k] in db'.slots && Holds(db'.slots[draws[k]], group, inputs) && db'.slots[draws[k]].order == k)
                  && (forall s :: s in db.slots ==> s in db'.slots && db'.slots[s] == db.slots[s])
                  && (forall s :: s in db'.slots ==> s in db.slots || s in draws))
            && (outcome != Saved ==> db' == db)
  {
    NewExactlyWhenFresh(db.slots, draws);
    SuppliedAre(inputs);
    assert Supplied(inputs) == {} <==> forall k :: 0 <= k < |inputs| ==> inputs[k].id == None by {
      forall k | 0 <= k < |inputs| && inputs[k].id.Some? ensures inputs[k].id.value in Supplied(inputs) {}
    }
    if Create(db, group, title, inputs, draws).1 == Saved {
      NewRows(db.slots, group, inputs, draws, |inputs|);
    }
  }

  lemma {:induction false} NewRows(slots: map<Id, Slot>, group: Id, inputs: seq<SlotInput>, draws: seq<Id>, n: nat)
    requires n <= |inputs| == |draws| && FreshDraws(slots, draws) && forall k :: 0 <= k < |inputs| ==> inputs[k].id == None
    ensures var w := Written(slots, group, inputs, draws, n);
            && (forall k :: 0 <= k < n ==> draws[k] in w && Holds(w[draws[k]], group, inputs) && w[draws[k]].order == k)
            && (forall s :: s in slots ==> s in w && w[s] == slots[s])
            && (forall s :: s in w ==> s in slots || s in draws)
  {
    if n > 0 {
      NewRows(slots, group, inputs, draws, n - 1);
    }
  }
}
