/** Upload intents and the media allowance of an order (lib/media/service.ts, lib/media/policy.ts).
    Rows are numbered in the order they were inserted. */
module MediaQuota {

  import opened Wrappers

  type Id = nat

  const MAX_UPLOAD_BYTES := 25 * 1024 * 1024
  const MAX_MEDIA := 12
  const MAX_MEDIA_BYTES := MAX_MEDIA * MAX_UPLOAD_BYTES
  const MAX_INT32 := 0x7FFF_FFFF

  datatype State = Quarantined | Processing | Ready | Rejected | Deleted

  datatype Row = Row(order: Id, owner: Id, key: Id, state: State, bytes: nat)

  datatype Error = Invalid | Forbidden | KeyElsewhere | AlreadyFinalized | Quota

  predicate Counts(r: Row, order: Id) { r.order == order && r.state != Deleted }

  function Live(rows: seq<Row>, order: Id): nat {
    if rows == [] then 0 else Live(rows[..|rows| - 1], order) + if Counts(rows[|rows| - 1], order) then 1 else 0
  }

  function Bytes(rows: seq<Row>, order: Id): nat {
    if rows == [] then 0
    else Bytes(rows[..|rows| - 1], order) + if Counts(rows[|rows| - 1], order) then rows[|rows| - 1].bytes else 0
  }

  /** The row of an intent key, which is unique. */
  function FindKey(rows: seq<Row>, key: Id): Option<nat> {
    if rows == [] then None
    else if rows[|rows| - 1].key == key then Some(|rows| - 1)
    else FindKey(rows[..|rows| - 1], key)
  }

  lemma {:induction false} KeyFound(rows: seq<Row>, key: Id)
    ensures match FindKey(rows, key)
            case Some(i) => i < |rows| && rows[i].key == key
            case None => forall i :: 0 <= i < |rows| ==> rows[i].key != key
  {
    if rows != [] {
      KeyFound(rows[..|rows| - 1], key);
    }
  }

  /** `customer` is the order's owner, absent when the actor may not upload to it. */
  function Intent(rows: seq<Row>, order: Id, key: Id, bytes: int, customer: Option<Id>): (seq<Row>, Result<nat, Error>) {
    if !(0 < bytes <= MAX_UPLOAD_BYTES) then (rows, Err(Invalid))
    else if customer.None? then (rows, Err(Forbidden))
    else
      KeyFound(rows, key);
      match FindKey(rows, key)
      case Some(i) =>
        if rows[i].order != order || rows[i].owner != customer.value then (rows, Err(KeyElsewhere))
        else if rows[i].state != Quarantined then (rows, Err(AlreadyFinalized))
        else (rows, Ok(i))
      case None =>
        if Live(rows, order) >= MAX_MEDIA || Bytes(rows, order) + bytes > MAX_MEDIA_BYTES then (rows, Err(Quota))
        else (rows + [Row(order, customer.value, key, Quarantined, bytes)], Ok(|rows|))
  }

  class MediaTable {
    var rows: seq<Row>

    method CreateUploadIntent(order: Id, key: Id, bytes: int, customer: Option<Id>) returns (media: Result<nat, Error>)
      modifies this
      ensures (rows, media) == Intent(old(rows), order, key, bytes, customer)
    {
      if !(0 < bytes <= MAX_UPLOAD_BYTES) {
        return Err(Invalid);
      }
      if customer.None? {
        return Err(Forbidden);
      }
      KeyFound(rows, key);
      var existing := FindKey(rows, key);
      if existing.Some? {
        var row := rows[existing.value];
        if row.order != order || row.owner != customer.value {
          return Err(KeyElsewhere);
        }
        if row.state != Quarantined {
          return Err(AlreadyFinalized);
        }
        return Ok(existing.value);
      }
      var count, used := Live(rows, order), Bytes(rows, order);
      if count >= MAX_MEDIA || used + bytes > MAX_MEDIA_BYTES {
        return Err(Quota);
      }
      rows := rows + [Row(order, customer.value, key, Quarantined, bytes)];
      return Ok(|rows| - 1);
    }
  }

  /** A key names one row at most. */
  ghost predicate OwnKeys(rows: seq<Row>) {
    forall i, j :: 0 <= i < j < |rows| ==> rows[i].key != rows[j].key
  }

  /** An intent is accepted exactly from the order's owner, for 1 byte to 25 MB, and either names a quarantined upload
      of this order and owner by its key, which is answered again, or has a new key and fits the allowance,
      which adds one quarantined row. A key of another order or customer is refused, and nothing else changes rows. */
  lemma IntentIs(rows: seq<Row>, order: Id, key: Id, bytes: int, customer: Option<Id>)
    requires OwnKeys(rows)
    ensures var (rows', media) := Intent(rows, order, key, bytes, customer);
            var sound := 1 <= bytes <= 25 * 1024 * 1024 && customer.Some?;
            && (forall i :: 0 <= i < |rows| && rows[i].key == key && sound ==>
                  && rows' == rows
                  && (media == Ok(i) <==> rows[i].order == order && rows[i].owner == customer.value && rows[i].state == Quarantined)
                  && (media == Err(KeyElsewhere) <==> rows[i].order != order || rows[i].owner != customer.value)
                  && (media.Ok? ==> media == Ok(i)))
            && (sound && (forall i :: 0 <= i < |rows| ==> rows[i].key != key) ==>
                  && (media.Ok? <==> Live(rows, order) < 12 && Bytes(rows, order) + bytes <= 12 * 25 * 1024 * 1024)
                  && (media.Ok? ==>
                        && media.value == |rows| && |rows'| == |rows| + 1 && rows <= rows'
                        && var r := rows'[|rows|];
                        && r.order == order && r.owner == customer.value && r.key == key && r.state == Quarantined && r.bytes == bytes))
            && (!sound || media.Err? ==> media.Err? && rows' == rows)
  {
    KeyFound(rows, key);
  }

  // ----- Runs -----

  /** A worker run starts by reading its row and marking it, and ends by one write that asks nothing
      of the row's state. Finalising an upload likewise reads the row first, and its rejection asks
      nothing of the state. Other steps may come between. */
  datatype Step =
    | UploadIntent(order: Id, key: Id, bytes: int, customer: Option<Id>)
    | Finalise(run: Id, media: nat)
    | Begin(run: Id, media: nat)
    | Publish(run: Id, size: nat)
    | Reject(run: Id)
    | Stop(run: Id)
    | Delete(media: nat)

  datatype Flight = Flight(media: nat, worker: bool)

  /** The rows, and the worker runs and finalisations that have started and not ended. */
  datatype System = System(rows: seq<Row>, runs: map<Id, Flight>)

  const EMPTY := System([], map[])

  predicate Open(r: Row) { r.state == Quarantined || r.state == Processing }

  function Write(rows: seq<Row>, i: nat, state: State, bytes: nat): seq<Row>
    requires i < |rows|
  {
    rows[i := rows[i].(state := state, bytes := bytes)]
  }

  function Next(s: System, e: Step): System {
    match e
    case UploadIntent(order, key, bytes, customer) => s.(rows := Intent(s.rows, order, key, bytes, customer).0)
    case Finalise(run, i) =>
      if i < |s.rows| && s.rows[i].state == Quarantined && run !in s.runs then s.(runs := s.runs[run := Flight(i, false)]) else s
    case Begin(run, i) =>
      if i < |s.rows| && Open(s.rows[i]) && run !in s.runs then
        System(Write(s.rows, i, Processing, s.rows[i].bytes), s.runs[run := Flight(i, true)])
      else s
    case Publish(run, size) =>
      if Ends(s, run) && s.runs[run].worker && 0 < size <= MAX_UPLOAD_BYTES then
        System(Write(s.rows, s.runs[run].media, Ready, size), s.runs - {run})
      else s
    case Reject(run) =>
      if Ends(s, run) then
        System(Write(s.rows, s.runs[run].media, Rejected, s.rows[s.runs[run].media].bytes), s.runs - {run})
      else s
    case Stop(run) => s.(runs := s.runs - {run})
    case Delete(i) => if i < |s.rows| then s.(rows := Write(s.rows, i, Deleted, s.rows[i].bytes)) else s
  }

  predicate Ends(s: System, run: Id) { run in s.runs && s.runs[run].media < |s.rows| }

  function Run(s: System, steps: seq<Step>): System
    decreases |steps|
  {
    if steps == [] then s else Run(Next(s, steps[0]), steps[1..])
  }

  /** A finalisation starts on a quarantined upload, a worker run on one that is open, which it marks; both under a
      new name. Neither starts otherwise. */
  lemma FlightsStart(s: System, run: Id, i: nat)
    ensures var s' := Next(s, Finalise(run, i));
            && s'.rows == s.rows
            && s'.runs == if i < |s.rows| && s.rows[i].state == Quarantined && run !in s.runs.Keys
                          then s.runs[run := Flight(i, false)] else s.runs
    ensures var s', starts := Next(s, Begin(run, i)), i < |s.rows| && s.rows[i].state in {Quarantined, Processing} && run !in s.runs.Keys;
            && s'.runs == (if starts then s.runs[run := Flight(i, true)] else s.runs)
            && |s'.rows| == |s.rows| && (forall j :: 0 <= j < |s.rows| && !(j == i && starts) ==> s'.rows[j] == s.rows[j])
            && (starts ==> s'.rows[i] == s.rows[i].(state := Processing))
  {
  }

  // ----- The allowance -----

  ghost predicate WithinAllowance(rows: seq<Row>) {
    forall order: Id :: Live(rows, order) <= MAX_MEDIA
  }

  ghost predicate GoodRows(rows: seq<Row>) {
    && (forall i :: 0 <= i < |rows| ==> rows[i].bytes <= MAX_UPLOAD_BYTES)
    && (forall i, j :: 0 <= i < j < |rows| ==> rows[i].key != rows[j].key)
  }

  lemma {:induction false} LiveAfter(rows: seq<Row>, i: nat, r: Row, order: Id)
    requires i < |rows|
    ensures Live(rows[i := r], order)
         == Live(rows, order) - (if Counts(rows[i], order) then 1 else 0) + if Counts(r, order) then 1 else 0
    decreases |rows|
  {
    var n := |rows| - 1;
    if i < n {
      LiveAfter(rows[..n], i, r, order);
      assert rows[i := r][..n] == rows[..n][i := r];
    } else {
      assert rows[i := r][..n] == rows[..n];
    }
  }

  lemma {:induction false} BytesBounded(rows: seq<Row>, order: Id)
    requires GoodRows(rows)
    ensures Bytes(rows, order) <= Live(rows, order) * MAX_UPLOAD_BYTES
  {
    if rows != [] {
      BytesBounded(rows[..|rows| - 1], order);
    }
  }

  /** Writing a row keeps the allowance exactly when it does not bring a deleted row of a full order
      back. */
  lemma WriteKeepsExactlyUnless(rows: seq<Row>, i: nat, state: State, bytes: nat)
    requires WithinAllowance(rows) && i < |rows|
    ensures WithinAllowance(Write(rows, i, state, bytes)) <==>
              !(rows[i].state == Deleted && state != Deleted && Live(rows, rows[i].order) == MAX_MEDIA)
  {
    var r := rows[i].(state := state, bytes := bytes);
    var rows' := Write(rows, i, state, bytes);
    forall order: Id
      ensures Live(rows', order) == Live(rows, order) - (if Counts(rows[i], order) then 1 else 0) + if Counts(r, order) then 1 else 0
    {
      LiveAfter(rows, i, r, order);
    }
    assert Live(rows, r.order) <= MAX_MEDIA;
  }

  /** A run's last write to a row that was deleted meanwhile, in an order that is full again. */
  predicate Overfills(s: System, e: Step) {
    && (e.Publish? || e.Reject?) && Ends(s, e.run) && (e.Publish? ==> s.runs[e.run].worker && 0 < e.size <= MAX_UPLOAD_BYTES)
    && s.rows[s.runs[e.run].media].state == Deleted && Live(s.rows, s.rows[s.runs[e.run].media].order) >= MAX_MEDIA
  }

  lemma StepKeepsRows(s: System, e: Step)
    requires GoodRows(s.rows)
    ensures GoodRows(Next(s, e).rows)
  {
    if e.UploadIntent? { KeyFound(s.rows, e.key); }
  }

  /** One step leaves the allowance exactly when it overfills. */
  lemma StepKeepsExactlyUnless(s: System, e: Step)
    requires WithinAllowance(s.rows)
    ensures WithinAllowance(Next(s, e).rows) <==> !Overfills(s, e)
  {
    match e
    case UploadIntent(order, key, bytes, customer) => IntentKeeps(s.rows, order, key, bytes, customer);
    case Finalise(run, i) =>
    case Begin(run, i) => if i < |s.rows| { WriteKeepsExactlyUnless(s.rows, i, Processing, s.rows[i].bytes); }
    case Publish(run, size) => if Ends(s, run) { EndKeepsExactlyUnless(s, run, Ready, size); }
    case Reject(run) => if Ends(s, run) { EndKeepsExactlyUnless(s, run, Rejected, s.rows[s.runs[run].media].bytes); }
    case Stop(run) =>
    case Delete(i) => if i < |s.rows| { WriteKeepsExactlyUnless(s.rows, i, Deleted, s.rows[i].bytes); }
  }

  lemma EndKeepsExactlyUnless(s: System, run: Id, state: State, bytes: nat)
    requires WithinAllowance(s.rows) && Ends(s, run) && state != Deleted
    ensures var i := s.runs[run].media;
            WithinAllowance(Write(s.rows, i, state, bytes)) <==>
              !(s.rows[i].state == Deleted && Live(s.rows, s.rows[i].order) >= MAX_MEDIA)
  {
    WriteKeepsExactlyUnless(s.rows, s.runs[run].media, state, bytes);
    assert Live(s.rows, s.rows[s.runs[run].media].order) <= MAX_MEDIA;
  }

  lemma IntentKeeps(rows: seq<Row>, order: Id, key: Id, bytes: int, customer: Option<Id>)
    requires WithinAllowance(rows)
    ensures WithinAllowance(Intent(rows, order, key, bytes, customer).0)
  {
    KeyFound(rows, key);
    var next := Intent(rows, order, key, bytes, customer).0;
    if next != rows { assert next[..|rows|] == rows; }
  }

  /** Every state that the run goes through keeps every order's allowance. */
  ghost predicate AlwaysWithin(s: System, steps: seq<Step>)
    decreases |steps|
  {
    WithinAllowance(s.rows) && (steps != [] ==> AlwaysWithin(Next(s, steps[0]), steps[1..]))
  }

  ghost predicate NeverOverfills(s: System, steps: seq<Step>)
    decreases |steps|
  {
    steps != [] ==> !Overfills(s, steps[0]) && NeverOverfills(Next(s, steps[0]), steps[1..])
  }

  lemma {:induction false} WithinExactlyWhileFrom(s: System, steps: seq<Step>)
    requires WithinAllowance(s.rows)
    ensures AlwaysWithin(s, steps) <==> NeverOverfills(s, steps)
    decreases |steps|
  {
    if steps != [] {
      StepKeepsExactlyUnless(s, steps[0]);
      if !Overfills(s, steps[0]) { WithinExactlyWhileFrom(Next(s, steps[0]), steps[1..]); }
    }
  }

  /** Over every run, with worker runs overlapping anything: the allowance of 12 holds throughout
      exactly when no run ends by writing a row deleted meanwhile into an order that is full. */
  lemma AllowanceHoldsExactly(steps: seq<Step>)
    ensures AlwaysWithin(EMPTY, steps) <==> NeverOverfills(EMPTY, steps)
  {
    WithinExactlyWhileFrom(EMPTY, steps);
  }

  lemma {:induction false} RunKeeps(s: System, steps: seq<Step>)
    requires GoodRows(s.rows) && WithinAllowance(s.rows) && NeverOverfills(s, steps)
    ensures GoodRows(Run(s, steps).rows) && WithinAllowance(Run(s, steps).rows)
    decreases |steps|
  {
    if steps != [] {
      StepKeepsRows(s, steps[0]);
      StepKeepsExactlyUnless(s, steps[0]);
      RunKeeps(Next(s, steps[0]), steps[1..]);
    }
  }

  /** Then an order's bytes fit the allowance, and so the 32-bit cast of their sum never wraps. */
  lemma AllowanceHolds(steps: seq<Step>, order: Id)
    requires NeverOverfills(EMPTY, steps)
    ensures Live(Run(EMPTY, steps).rows, order) <= MAX_MEDIA
    ensures Bytes(Run(EMPTY, steps).rows, order) <= MAX_MEDIA_BYTES <= MAX_INT32
  {
    RunKeeps(EMPTY, steps);
    BytesBounded(Run(EMPTY, steps).rows, order);
  }

  /** And the byte check never refuses what the count check lets through: a new key of a valid size
      is refused for the allowance exactly when the order holds 12 objects. */
  lemma ByteCheckNeverDecides(steps: seq<Step>, order: Id, key: Id, bytes: int, customer: Id)
    requires NeverOverfills(EMPTY, steps) && 0 < bytes <= MAX_UPLOAD_BYTES
    ensures var rows := Run(EMPTY, steps).rows;
            && (Live(rows, order) < MAX_MEDIA ==> Bytes(rows, order) + bytes <= MAX_MEDIA_BYTES)
            && (Intent(rows, order, key, bytes, Some(customer)).1 == Err(Quota)
                <==> FindKey(rows, key).None? && Live(rows, order) == MAX_MEDIA)
  {
    RunKeeps(EMPTY, steps);
    CountDecides(Run(EMPTY, steps).rows, order, key, bytes, customer);
  }

  lemma CountDecides(rows: seq<Row>, order: Id, key: Id, bytes: int, customer: Id)
    requires GoodRows(rows) && Live(rows, order) <= MAX_MEDIA && 0 < bytes <= MAX_UPLOAD_BYTES
    ensures Live(rows, order) < MAX_MEDIA ==> Bytes(rows, order) + bytes <= MAX_MEDIA_BYTES
    ensures Intent(rows, order, key, bytes, Some(customer)).1 == Err(Quota)
       <==> FindKey(rows, key).None? && Live(rows, order) == MAX_MEDIA
  {
    BytesBounded(rows, order);
  }

  // ----- Runs that no deletion overlaps -----

  /** No object is deleted while a run of it is under way. */
  ghost predicate NoDeletionDuringARun(s: System, steps: seq<Step>)
    decreases |steps|
  {
    steps != [] ==>
      && (steps[0].Delete? ==> forall run :: run in s.runs ==> s.runs[run].media != steps[0].media)
      && NoDeletionDuringARun(Next(s, steps[0]), steps[1..])
  }

  ghost predicate RunsAlive(s: System) {
    forall run :: run in s.runs ==> s.runs[run].media < |s.rows| && s.rows[s.runs[run].media].state != Deleted
  }

  lemma {:induction false} AliveNeverOverfills(s: System, steps: seq<Step>)
    requires RunsAlive(s) && NoDeletionDuringARun(s, steps)
    ensures NeverOverfills(s, steps)
    decreases |steps|
  {
    if steps != [] {
      AliveNeverOverfills(Next(s, steps[0]), steps[1..]);
    }
  }

  /** As long as no deletion overlaps a run of the same object, the allowance holds throughout. */
  lemma AllowanceHoldsWithoutOverlap(steps: seq<Step>)
    requires NoDeletionDuringARun(EMPTY, steps)
    ensures AlwaysWithin(EMPTY, steps)
  {
    AliveNeverOverfills(EMPTY, steps);
    AllowanceHoldsExactly(steps);
  }

  // ----- Retries -----

  /** A key that was accepted once names one row for good: whatever happens in between, sending it
      again adds nothing, and answers with that row or not at all. */
  lemma AcceptedKeyNamesOneRow(s: System, order: Id, key: Id, bytes: int, customer: Option<Id>, steps: seq<Step>,
                               order': Id, bytes': int, customer': Option<Id>)
    requires GoodRows(s.rows) && Intent(s.rows, order, key, bytes, customer).1.Ok?
    ensures var (accepted, media) := Intent(s.rows, order, key, bytes, customer);
            var later := Run(s.(rows := accepted), steps).rows;
            var (rows', again) := Intent(later, order', key, bytes', customer');
            rows' == later && (again.Ok? ==> again == media)
  {
    var (accepted, media) := Intent(s.rows, order, key, bytes, customer);
    KeyFound(s.rows, key);
    StepKeepsRows(s, UploadIntent(order, key, bytes, customer));
    KeysStay(s.(rows := accepted), steps, media.value);
    KeyFound(Run(s.(rows := accepted), steps).rows, key);
  }

  lemma {:induction false} KeysStay(s: System, steps: seq<Step>, i: nat)
    requires GoodRows(s.rows) && i < |s.rows|
    ensures GoodRows(Run(s, steps).rows) && i < |Run(s, steps).rows| && Run(s, steps).rows[i].key == s.rows[i].key
    decreases |steps|
  {
    if steps != [] {
      StepKeepsRows(s, steps[0]);
      KeysStay(Next(s, steps[0]), steps[1..], i);
    }
  }

  // ----- A run that leaves 13 live objects -----

  function Uploads(n: nat): seq<Step> {
    if n == 0 then [] else Uploads(n - 1) + [UploadIntent(0, n - 1, 1, Some(0))]
  }

  function Uploaded(n: nat): seq<Row> { seq(n, i requires 0 <= i < n => Row(0, 0, i, Quarantined, 1)) }

  lemma {:induction false} RunAppend(s: System, first: seq<Step>, second: seq<Step>)
    ensures Run(s, first + second) == Run(Run(s, first), second)
    decreases |first|
  {
    if first == [] {
      assert first + second == second;
    } else {
      assert (first + second)[1..] == first[1..] + second;
      RunAppend(Next(s, first[0]), first[1..], second);
    }
  }

  lemma RunOneMore(s: System, steps: seq<Step>, e: Step)
    ensures Run(s, steps + [e]) == Next(Run(s, steps), e)
  {
    RunAppend(s, steps, [e]);
    assert Run(Run(s, steps), [e]) == Run(Next(Run(s, steps), e), []);
  }

  lemma {:induction false} UploadedCounts(n: nat)
    ensures Live(Uploaded(n), 0) == n && Bytes(Uploaded(n), 0) == n
  {
    if n > 0 {
      UploadedCounts(n - 1);
      assert Uploaded(n)[..n - 1] == Uploaded(n - 1);
    }
  }

  lemma OneUploadMore(n: nat)
    requires n < MAX_MEDIA
    ensures Next(System(Uploaded(n), map[]), UploadIntent(0, n, 1, Some(0))) == System(Uploaded(n + 1), map[])
  {
    UploadedCounts(n);
    KeyFound(Uploaded(n), n);
    assert Uploaded(n + 1) == Uploaded(n) + [Row(0, 0, n, Quarantined, 1)];
  }

  lemma {:induction false} UploadsFill(n: nat)
    requires n <= MAX_MEDIA
    ensures Run(EMPTY, Uploads(n)) == System(Uploaded(n), map[])
  {
    if n == 0 {
      assert Uploaded(0) == [];
    } else {
      UploadsFill(n - 1);
      OneUploadMore(n - 1);
      RunOneMore(EMPTY, Uploads(n - 1), UploadIntent(0, n - 1, 1, Some(0)));
    }
  }

  /** Uploads, a worker run started on the first, and that upload deleted. */
  lemma DeletedDuringARun(n: nat) returns (steps: seq<Step>)
    requires 0 < n <= MAX_MEDIA
    ensures Run(EMPTY, steps) == System(Write(Uploaded(n), 0, Deleted, 1), map[0 := Flight(0, true)])
  {
    var rows, flights := Uploaded(n), map[0 := Flight(0, true)];
    steps := Uploads(n);
    UploadsFill(n);
    RunOneMore(EMPTY, steps, Begin(0, 0));
    assert Next(System(rows, map[]), Begin(0, 0)) == System(Write(rows, 0, Processing, 1), flights);
    steps := steps + [Begin(0, 0)];
    RunOneMore(EMPTY, steps, Delete(0));
    assert Write(Write(rows, 0, Processing, 1), 0, Deleted, 1) == Write(rows, 0, Deleted, 1);
    steps := steps + [Delete(0)];
  }

  /** Another upload accepted in its place, and then the run published: the order holds 13 live
      objects. */
  lemma ThirteenLiveObjects() returns (steps: seq<Step>)
    ensures Live(Run(EMPTY, steps).rows, 0) == MAX_MEDIA + 1
  {
    steps := DeletedDuringARun(12);
    var erased, flights := Write(Uploaded(12), 0, Deleted, 1), map[0 := Flight(0, true)];
    ErasedHasRoom();
    RunOneMore(EMPTY, steps, UploadIntent(0, 12, 1, Some(0)));
    steps := steps + [UploadIntent(0, 12, 1, Some(0))];
    var replaced := erased + [Row(0, 0, 12, Quarantined, 1)];
    assert Run(EMPTY, steps) == System(replaced, flights);
    RunOneMore(EMPTY, steps, Publish(0, 1));
    steps := steps + [Publish(0, 1)];
    assert Run(EMPTY, steps).rows == Write(replaced, 0, Ready, 1);
    RevivedCounts();
  }

  lemma RevivedCounts()
    ensures Live(Write(Write(Uploaded(12), 0, Deleted, 1) + [Row(0, 0, 12, Quarantined, 1)], 0, Ready, 1), 0) == MAX_MEDIA + 1
  {
    var full, erased := Uploaded(12), Write(Uploaded(12), 0, Deleted, 1);
    var replaced := erased + [Row(0, 0, 12, Quarantined, 1)];
    UploadedCounts(12);
    LiveAfter(full, 0, full[0].(state := Deleted), 0);
    assert replaced[..12] == erased;
    LiveAfter(replaced, 0, replaced[0].(state := Ready), 0);
  }

  lemma ErasedHasRoom()
    ensures var erased := Write(Uploaded(12), 0, Deleted, 1);
            Intent(erased, 0, 12, 1, Some(0)) == (erased + [Row(0, 0, 12, Quarantined, 1)], Ok(12))
  {
    var full, erased := Uploaded(12), Write(Uploaded(12), 0, Deleted, 1);
    UploadedCounts(12);
    LiveAfter(full, 0, full[0].(state := Deleted), 0);
    assert GoodRows(erased);
    BytesBounded(erased, 0);
    KeyFound(erased, 12);
  }
}
