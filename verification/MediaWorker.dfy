/** Processing one uploaded image as a sequence of durable steps, any of which may be the last
    (lib/media/worker.ts, lib/media/storage.ts, lib/backup/worker.ts). */
module MediaWorker {

  import opened Wrappers

  type Id = nat

  datatype Kind = Jpeg | Png | Webp

  datatype Bucket = Quarantine | Private

  /** Object paths: what was uploaded, the validated original, and one file per variant width. */
  datatype Key = Upload(name: nat) | Original(order: Id, media: Id, kind: Kind) | Sized(order: Id, media: Id, width: nat)

  datatype Content = Content(size: nat, body: nat)

  datatype Variant = Variant(width: nat, height: nat, content: Content, checksum: nat)

  datatype Code = TypeMismatch | Invalid(code: nat)

  /** What the image processor says of a file. */
  datatype Inspection =
    | Accepted(kind: Kind, width: nat, height: nat, checksum: nat, recipe: nat, variants: seq<Variant>)
    | Refused(code: Code)

  type Image = Content -> Inspection

  datatype MediaState = Quarantined | Processing | Ready | Rejected | Deleted

  datatype Facts = Facts(kind: Kind, width: nat, height: nat, checksum: nat, recipe: nat)

  datatype Media = Media(
    id: Id, order: Option<Id>, catalog: bool, finalized: bool, claimed: Option<Kind>, state: MediaState, failure: Option<Code>,
    bucket: Bucket, key: Key, quarantineKey: Option<Key>, bytes: nat, facts: Option<Facts>)

  datatype VariantRow = VariantRow(key: Key, height: nat, bytes: nat, checksum: nat)

  datatype Audit = Succeeded(recipe: nat, variants: nat) | Failed(code: Code)

  /** One media row with its variant rows, keyed by recipe and width, its audit trail, its backup
      row and job, and the object store. Timestamps are left out. */
  datatype World = World(
    media: Media, variants: map<(nat, nat), VariantRow>, objects: map<(Bucket, Key), Content>, audits: seq<Audit>,
    backup: Option<Id>, backupJob: bool)

  // ----- Durable steps -----

  datatype Action =
    | MarkProcessing
    | Put(key: Key, content: Content)
    | Publish(order: Id, bytes: nat, image: Inspection)
    | Reject(code: Code)
    | RemoveUpload(bucket: Bucket, key: Key)
    | ClearKey
    | QueueBackup(order: Id)

  /** Put if absent. */
  function Stored(objects: map<(Bucket, Key), Content>, key: Key, content: Content): map<(Bucket, Key), Content> {
    if (Private, key) in objects then objects else objects[(Private, key) := content]
  }

  /** The variant rows after the first `n` inserts, each of which gives way to an earlier row. */
  function Inserted(rows: map<(nat, nat), VariantRow>, order: Id, media: Id, image: Inspection, n: nat): map<(nat, nat), VariantRow>
    requires image.Accepted? && n <= |image.variants|
  {
    if n == 0 then rows
    else
      var before, v := Inserted(rows, order, media, image, n - 1), image.variants[n - 1];
      if (image.recipe, v.width) in before then before
      else before[(image.recipe, v.width) := VariantRow(Sized(order, media, v.width), v.height, v.content.size, v.checksum)]
  }

  function Published(m: Media, order: Id, bytes: nat, image: Inspection): Media
    requires image.Accepted?
  {
    m.(bucket := Private, key := Original(order, m.id, image.kind), bytes := bytes, state := Ready, failure := None,
       facts := Some(Facts(image.kind, image.width, image.height, image.checksum, image.recipe)))
  }

  function Do(w: World, a: Action): World {
    match a
    case MarkProcessing =>
      if w.media.state == Quarantined || w.media.state == Processing then
        w.(media := w.media.(state := Processing, failure := None))
      else w
    case Put(key, content) => w.(objects := Stored(w.objects, key, content))
    case Publish(order, bytes, image) =>
      if image.Accepted? then
        w.(variants := Inserted(w.variants, order, w.media.id, image, |image.variants|),
           media := Published(w.media, order, bytes, image),
           audits := w.audits + [Succeeded(image.recipe, |image.variants|)])
      else w
    case Reject(code) =>
      w.(media := w.media.(state := Rejected, failure := Some(code)), audits := w.audits + [Failed(code)])
    case RemoveUpload(bucket, key) => w.(objects := w.objects - {(bucket, key)})
    case ClearKey => w.(media := w.media.(quarantineKey := None))
    case QueueBackup(order) => w.(backup := if w.backup.Some? then w.backup else Some(order), backupJob := true)
  }

  function DoAll(w: World, actions: seq<Action>): World
    decreases |actions|
  {
    if actions == [] then w else DoAll(Do(w, actions[0]), actions[1..])
  }

  // ----- A run -----

  /** How far removing the upload gets: its failures are caught. */
  datatype Removal = Cleared | RemovedOnly | NotRemoved

  /** What a run does not decide itself. The variant uploads run in parallel and land in any order. */
  datatype Choice = Choice(arrival: seq<nat>, removal: Removal)

  /** Every variant lands, in some order. */
  ghost predicate Arrives(arrival: seq<nat>, n: nat) {
    && |arrival| == n
    && (forall i :: 0 <= i < n ==> arrival[i] < n)
    && (forall v: nat :: v < n ==> v in arrival)
  }

  function PutOriginal(m: Media, order: Id, content: Content, image: Inspection): Action
    requires image.Accepted?
  {
    Put(Original(order, m.id, image.kind), content)
  }

  function PutVariant(m: Media, order: Id, v: Variant): Action {
    Put(Sized(order, m.id, v.width), v.content)
  }

  function VariantPuts(m: Media, order: Id, variants: seq<Variant>, arrival: seq<nat>): seq<Action>
    requires forall i :: 0 <= i < |arrival| ==> arrival[i] < |variants|
  {
    seq(|arrival|, i requires 0 <= i < |arrival| => PutVariant(m, order, variants[arrival[i]]))
  }

  /** A variant whose path already holds content of another size, or that another variant wants for
      content of another size: paths carry the width alone. */
  predicate Conflict(objects: map<(Bucket, Key), Content>, m: Media, order: Id, variants: seq<Variant>) {
    || (exists i :: 0 <= i < |variants| && Clash(objects, PutVariant(m, order, variants[i])))
    || (exists i, j :: 0 <= i < |variants| && 0 <= j < |variants| && SamePath(variants[i], variants[j]))
  }

  predicate SamePath(v: Variant, u: Variant) {
    v.width == u.width && v.content.size != u.content.size
  }

  predicate Clash(objects: map<(Bucket, Key), Content>, put: Action)
    requires put.Put?
  {
    (Private, put.key) in objects && objects[(Private, put.key)].size != put.content.size
  }

  predicate Pending(m: Media) {
    (m.state == Quarantined || m.state == Processing) && m.order.Some? && m.finalized
  }

  function Detected(m: Media, image: Inspection): Inspection {
    if image.Accepted? && m.claimed != Some(image.kind) then Refused(TypeMismatch) else image
  }

  function RemovalSteps(m: Media, removal: Removal): seq<Action> {
    if m.quarantineKey.None? || removal == NotRemoved then []
    else if removal == RemovedOnly then [RemoveUpload(m.bucket, m.quarantineKey.value)]
    else [RemoveUpload(m.bucket, m.quarantineKey.value), ClearKey]
  }

  function BackupSteps(m: Media): seq<Action> {
    if m.catalog || m.order.None? then [] else [QueueBackup(m.order.value)]
  }

  /** The steps after every put has landed. */
  function LaterSteps(objects: map<(Bucket, Key), Content>, m: Media, order: Id, content: Content, image: Inspection, c: Choice): seq<Action>
    requires image.Accepted?
  {
    if Conflict(objects, m, order, image.variants) then []
    else [Publish(order, content.size, image)] + RemovalSteps(m, c.removal) + BackupSteps(m)
  }

  function StoreSteps(objects: map<(Bucket, Key), Content>, m: Media, order: Id, content: Content, image: Inspection, c: Choice): seq<Action>
    requires image.Accepted? && forall i :: 0 <= i < |c.arrival| ==> c.arrival[i] < |image.variants|
  {
    var original := PutOriginal(m, order, content, image);
    if Clash(objects, original) then []
    else [original] + (VariantPuts(m, order, image.variants, c.arrival) + LaterSteps(objects, m, order, content, image, c))
  }

  /** The steps of one run, from the row and the upload as the run first read them. */
  function Plan(w: World, process: Image, c: Choice): seq<Action>
    requires ChoiceFits(w, process, c)
  {
    var m := w.media;
    if m.state == Ready then BackupSteps(m)
    else if !Pending(m) then []
    else if (m.bucket, m.key) !in w.objects then [MarkProcessing]
    else
      var content := w.objects[(m.bucket, m.key)];
      var image := Detected(m, process(content));
      if image.Refused? then [MarkProcessing, Reject(image.code)]
      else
        [MarkProcessing] + StoreSteps(w.objects, m, m.order.value, content, image, c)
  }

  /** The variants that a run of this state would store, if it gets that far. */
  function Candidates(w: World, process: Image): seq<Variant> {
    if (w.media.bucket, w.media.key) in w.objects then
      match process(w.objects[(w.media.bucket, w.media.key)])
      case Accepted(_, _, _, _, _, variants) => variants
      case Refused(_) => []
    else []
  }

  ghost predicate ChoiceFits(w: World, process: Image, c: Choice) {
    Arrives(c.arrival, |Candidates(w, process)|)
  }

  function Complete(w: World, process: Image, c: Choice): World
    requires ChoiceFits(w, process, c)
  {
    DoAll(w, Plan(w, process, c))
  }

  function Prefix(actions: seq<Action>, steps: nat): seq<Action> {
    actions[..if steps <= |actions| then steps else |actions|]
  }

  /** A run that stops after `steps` steps. */
  function Cut(w: World, process: Image, c: Choice, steps: nat): World
    requires ChoiceFits(w, process, c)
  {
    DoAll(w, Prefix(Plan(w, process, c), steps))
  }

  /** The cleanup of quarantine copies that a finished image still names. */
  function Swept(w: World): World {
    if w.media.state == Ready && w.media.quarantineKey.Some? then
      w.(objects := w.objects - {(Quarantine, w.media.quarantineKey.value)}, media := w.media.(quarantineKey := None))
    else w
  }

  // ----- Landing variants, one after another -----

  lemma {:induction false} DoAllAppend(w: World, first: seq<Action>, second: seq<Action>)
    ensures DoAll(w, first + second) == DoAll(DoAll(w, first), second)
    decreases |first|
  {
    if first == [] {
      assert first + second == second;
    } else {
      assert (first + second)[1..] == first[1..] + second;
      DoAllAppend(Do(w, first[0]), first[1..], second);
    }
  }

  lemma DoAllOne(w: World, actions: seq<Action>, k: nat)
    requires k < |actions|
    ensures DoAll(w, actions[..k + 1]) == Do(DoAll(w, actions[..k]), actions[k])
  {
    assert actions[..k + 1] == actions[..k] + [actions[k]];
    DoAllAppend(w, actions[..k], [actions[k]]);
    assert DoAll(DoAll(w, actions[..k]), [actions[k]]) == DoAll(Do(DoAll(w, actions[..k]), actions[k]), []);
  }

  /** What the first `k` landings leave: only objects change, and each path holds what it held
      before or the first variant to land there. */
  ghost predicate Landed(before: map<(Bucket, Key), Content>, after: map<(Bucket, Key), Content>, m: Media, order: Id,
                         variants: seq<Variant>, arrival: seq<nat>, k: nat)
    requires k <= |arrival| && forall i :: 0 <= i < |arrival| ==> arrival[i] < |variants|
  {
    && (forall b :: b in before ==> b in after && after[b] == before[b])
    && (forall b :: b in after && b !in before ==>
          exists i :: 0 <= i < k && b == (Private, Sized(order, m.id, variants[arrival[i]].width)) && after[b] == variants[arrival[i]].content)
    && (forall i :: 0 <= i < k ==> (Private, Sized(order, m.id, variants[arrival[i]].width)) in after)
  }

  lemma LandOne(before: map<(Bucket, Key), Content>, after: map<(Bucket, Key), Content>, m: Media, order: Id,
                variants: seq<Variant>, arrival: seq<nat>, k: nat)
    requires k < |arrival| && forall i :: 0 <= i < |arrival| ==> arrival[i] < |variants|
    requires Landed(before, after, m, order, variants, arrival, k)
    ensures var v := variants[arrival[k]];
            Landed(before, Stored(after, Sized(order, m.id, v.width), v.content), m, order, variants, arrival, k + 1)
  {
  }

  lemma {:induction false} PutsLand(w: World, m: Media, order: Id, variants: seq<Variant>, arrival: seq<nat>, k: nat)
    requires k <= |arrival| && forall i :: 0 <= i < |arrival| ==> arrival[i] < |variants|
    ensures var w' := DoAll(w, VariantPuts(m, order, variants, arrival)[..k]);
            w' == w.(objects := w'.objects) && Landed(w.objects, w'.objects, m, order, variants, arrival, k)
  {
    if k > 0 {
      PutsLand(w, m, order, variants, arrival, k - 1);
      var puts := VariantPuts(m, order, variants, arrival);
      var earlier := DoAll(w, puts[..k - 1]);
      LandOne(w.objects, earlier.objects, m, order, variants, arrival, k - 1);
      DoAllOne(w, puts, k - 1);
      assert puts[k - 1] == PutVariant(m, order, variants[arrival[k - 1]]);
    }
  }

  /** Some landing among the first `k` was refused. */
  ghost predicate RefusedAmong(objects: map<(Bucket, Key), Content>, m: Media, order: Id, variants: seq<Variant>, arrival: seq<nat>, k: nat)
    requires k <= |arrival| && forall i :: 0 <= i < |arrival| ==> arrival[i] < |variants|
  {
    || (exists i :: 0 <= i < k && Clash(objects, PutVariant(m, order, variants[arrival[i]])))
    || (exists i, j :: 0 <= i < k && 0 <= j < k && SamePath(variants[arrival[i]], variants[arrival[j]]))
  }

  /** The next landing is refused exactly when it conflicts with the start or with an earlier one. */
  lemma NextLanding(before: map<(Bucket, Key), Content>, after: map<(Bucket, Key), Content>, m: Media, order: Id,
                    variants: seq<Variant>, arrival: seq<nat>, k: nat)
    requires k < |arrival| && forall i :: 0 <= i < |arrival| ==> arrival[i] < |variants|
    requires Landed(before, after, m, order, variants, arrival, k)
    ensures RefusedAmong(before, m, order, variants, arrival, k + 1)
         == (RefusedAmong(before, m, order, variants, arrival, k) || Clash(after, PutVariant(m, order, variants[arrival[k]])))
  {
    var v := variants[arrival[k]];
    var b := (Private, Sized(order, m.id, v.width));
    if !RefusedAmong(before, m, order, variants, arrival, k) {
      if Clash(after, PutVariant(m, order, v)) && b !in before {
        var i :| 0 <= i < k && b == (Private, Sized(order, m.id, variants[arrival[i]].width)) && after[b] == variants[arrival[i]].content;
        assert SamePath(variants[arrival[i]], variants[arrival[k]]);
      }
      if i :| 0 <= i < k && SamePath(variants[arrival[i]], v) {
      }
      assert forall i :: 0 <= i < k ==> (SamePath(variants[arrival[i]], v) <==> SamePath(v, variants[arrival[i]]));
    }
  }

  /** When all have landed, in whatever order, one was refused exactly if there was a conflict. */
  lemma RefusedExactlyOnConflict(objects: map<(Bucket, Key), Content>, m: Media, order: Id, variants: seq<Variant>, arrival: seq<nat>)
    requires Arrives(arrival, |variants|)
    ensures RefusedAmong(objects, m, order, variants, arrival, |arrival|) <==> Conflict(objects, m, order, variants)
  {
    if i: nat :| i < |variants| && Clash(objects, PutVariant(m, order, variants[i])) {
      assert i in arrival;
      var a :| 0 <= a < |arrival| && arrival[a] == i;
      assert Clash(objects, PutVariant(m, order, variants[arrival[a]]));
    }
    if i: nat, j: nat :| i < |variants| && j < |variants| && SamePath(variants[i], variants[j]) {
      assert i in arrival;
      var a :| 0 <= a < |arrival| && arrival[a] == i;
      assert j in arrival;
      var b :| 0 <= b < |arrival| && arrival[b] == j;
      assert SamePath(variants[arrival[a]], variants[arrival[b]]);
    }
  }

  /** A run cut within its second part has done the first part whole. */
  lemma CutLater(w: World, first: seq<Action>, second: seq<Action>, steps: nat)
    requires |first| <= steps
    ensures DoAll(w, Prefix(first + second, steps)) == DoAll(DoAll(w, first), Prefix(second, steps - |first|))
  {
    assert Prefix(first + second, steps) == first + Prefix(second, steps - |first|);
    DoAllAppend(w, first, Prefix(second, steps - |first|));
  }

  lemma CutEarlier(first: seq<Action>, second: seq<Action>, steps: nat)
    requires steps <= |first|
    ensures Prefix(first + second, steps) == Prefix(first, steps)
  {
  }

  lemma OneAction(w: World, a: Action)
    ensures DoAll(w, [a]) == Do(w, a) && Prefix([a], 0) == [] && forall k: nat :: k > 0 ==> Prefix([a], k) == [a]
  {
    assert DoAll(w, [a]) == DoAll(Do(w, a), []);
  }

  // ----- The store -----

  class MediaStore {
    var media: Media
    var variants: map<(nat, nat), VariantRow>
    var objects: map<(Bucket, Key), Content>
    var audits: seq<Audit>
    var backup: Option<Id>
    var backupJob: bool

    ghost function State(): World
      reads this
    {
      World(media, variants, objects, audits, backup, backupJob)
    }

    method PutImmutable(key: Key, content: Content) returns (stored: bool)
      modifies `objects
      ensures State() == Do(old(State()), Put(key, content))
      ensures stored <==> !Clash(old(objects), Put(key, content))
    {
      if (Private, key) in objects {
        return objects[(Private, key)].size == content.size;
      }
      objects := objects[(Private, key) := content];
      return true;
    }

    /** The transaction that publishes: variant rows, the media row and the audit event. */
    method RecordReady(order: Id, bytes: nat, image: Inspection)
      requires image.Accepted?
      modifies `media, `variants, `audits
      ensures State() == Do(old(State()), Publish(order, bytes, image))
    {
      for i := 0 to |image.variants|
        invariant variants == Inserted(old(variants), order, media.id, image, i)
        invariant unchanged(`media) && unchanged(`objects) && unchanged(`audits) && unchanged(`backup) && unchanged(`backupJob)
      {
        var v := image.variants[i];
        if (image.recipe, v.width) !in variants {
          variants := variants[(image.recipe, v.width) := VariantRow(Sized(order, media.id, v.width), v.height, v.content.size, v.checksum)];
        }
      }
      media := media.(bucket := Private, key := Original(order, media.id, image.kind), bytes := bytes, state := Ready, failure := None,
                      facts := Some(Facts(image.kind, image.width, image.height, image.checksum, image.recipe)));
      audits := audits + [Succeeded(image.recipe, |image.variants|)];
    }

    method RecordRejected(code: Code)
      modifies `media, `audits
      ensures State() == Do(old(State()), Reject(code))
    {
      media := media.(state := Rejected, failure := Some(code));
      audits := audits + [Failed(code)];
    }

    method EnqueueBackup(order: Id)
      modifies `backup, `backupJob
      ensures State() == Do(old(State()), QueueBackup(order))
    {
      if backup.None? {
        backup := Some(order);
      }
      backupJob := true;
    }

    method LandVariants(seen: Media, order: Id, rows: seq<Variant>, arrival: seq<nat>, limit: nat) returns (refused: bool)
      requires Arrives(arrival, |rows|) && limit <= |arrival|
      modifies `objects
      ensures State() == DoAll(old(State()), VariantPuts(seen, order, rows, arrival)[..limit])
      ensures limit == |arrival| ==> (refused <==> Conflict(old(objects), seen, order, rows))
    {
      ghost var puts := VariantPuts(seen, order, rows, arrival);
      refused := false;
      for i := 0 to limit
        invariant State() == DoAll(old(State()), puts[..i])
        invariant refused == RefusedAmong(old(objects), seen, order, rows, arrival, i)
      {
        PutsLand(old(State()), seen, order, rows, arrival, i);
        NextLanding(old(objects), objects, seen, order, rows, arrival, i);
        DoAllOne(old(State()), puts, i);
        var v := rows[arrival[i]];
        var stored := PutImmutable(Sized(order, seen.id, v.width), v.content);
        refused := refused || !stored;
      }
      if limit == |arrival| {
        RefusedExactlyOnConflict(old(objects), seen, order, rows, arrival);
      }
    }

    /** From publishing on. Whatever goes wrong with the upload is left to the sweep. */
    method Finish(seen: Media, order: Id, bytes: nat, image: Inspection, removal: Removal, budget: nat)
      requires image.Accepted? && seen.order == Some(order)
      modifies this
      ensures State() == DoAll(old(State()), Prefix([Publish(order, bytes, image)] + RemovalSteps(seen, removal) + BackupSteps(seen), budget))
    {
      ghost var publish, remove, queue := [Publish(order, bytes, image)], RemovalSteps(seen, removal), BackupSteps(seen);
      if budget == 0 {
        return;
      }
      assert publish + remove + queue == publish + (remove + queue);
      CutLater(State(), publish, remove + queue, budget);
      OneAction(State(), publish[0]);
      RecordReady(order, bytes, image);
      var left := RemoveUploaded(seen, removal, budget - 1, queue);
      if left > 0 && !seen.catalog {
        OneAction(State(), QueueBackup(order));
        EnqueueBackup(order);
      }
    }

    /** The steps of the removal that the budget allows, and what is left of it. */
    method RemoveUploaded(seen: Media, removal: Removal, budget: nat, ghost queue: seq<Action>) returns (left: nat)
      modifies `media, `objects
      ensures DoAll(old(State()), Prefix(RemovalSteps(seen, removal) + queue, budget)) == DoAll(State(), Prefix(queue, left))
      ensures left == 0 || left == budget - |RemovalSteps(seen, removal)|
    {
      ghost var steps := RemovalSteps(seen, removal);
      left := budget;
      if seen.quarantineKey.Some? && removal != NotRemoved {
        if left == 0 {
          return;
        }
        ghost var start := State();
        OneAction(start, steps[0]);
        objects := objects - {(seen.bucket, seen.quarantineKey.value)};
        left := left - 1;
        if removal == Cleared {
          if left == 0 {
            assert Prefix(steps + queue, 1) == [steps[0]];
            return;
          }
          media := media.(quarantineKey := None);
          left := left - 1;
          DoAllOne(start, steps, 0);
          DoAllOne(start, steps, 1);
          assert steps[..0] == [] && steps[..2] == steps;
        } else {
          assert steps == [steps[0]];
        }
        CutLater(start, steps, queue, budget);
      } else {
        assert steps + queue == queue;
      }
    }

    /** The cleanup of a quarantine copy that a finished image still names. */
    method SweepQuarantine()
      modifies `media, `objects
      ensures State() == Swept(old(State()))
    {
      if media.state == Ready && media.quarantineKey.Some? {
        objects := objects - {(Quarantine, media.quarantineKey.value)};
        media := media.(quarantineKey := None);
      }
    }

    /** One run, stopped after `budget` durable steps. */
    method ProcessMedia(process: Image, c: Choice, budget: nat)
      requires ChoiceFits(State(), process, c)
      modifies this
      ensures State() == Cut(old(State()), process, c, budget)
    {
      ghost var plan := Plan(State(), process, c);
      assert Prefix(plan, 0) == [];
      if media.state == Ready {
        assert plan == BackupSteps(media);
        if !media.catalog && media.order.Some? && budget > 0 {
          OneAction(State(), QueueBackup(media.order.value));
          EnqueueBackup(media.order.value);
        }
        return;
      }
      if !Pending(media) || budget == 0 {
        return;
      }
      var seen, order := media, media.order.value;
      ghost var start := State();
      OneAction(start, MarkProcessing);
      media := media.(state := Processing, failure := None);
      assert State() == Do(start, MarkProcessing);
      if (seen.bucket, seen.key) !in objects {
        assert plan == [MarkProcessing];
        return;
      }
      var content := objects[(seen.bucket, seen.key)];
      var image := Detected(seen, process(content));
      if image.Refused? {
        assert plan == [MarkProcessing] + [Reject(image.code)];
        CutLater(start, [MarkProcessing], [Reject(image.code)], budget);
        OneAction(State(), Reject(image.code));
        if budget > 1 {
          RecordRejected(image.code);
        }
        return;
      }
      StoreAndFinish(seen, order, content, image, c, budget - 1);
      StorePlan(start, process, c, budget);
    }

    /** The puts, and the rest unless one of them was refused. */
    method StoreAndFinish(seen: Media, order: Id, content: Content, image: Inspection, c: Choice, budget: nat)
      requires image.Accepted? && seen.order == Some(order) && Arrives(c.arrival, |image.variants|)
      modifies this
      ensures State() == DoAll(old(State()), Prefix(StoreSteps(old(objects), seen, order, content, image, c), budget))
    {
      ghost var start, original := State(), PutOriginal(seen, order, content, image);
      if budget == 0 {
        return;
      }
      var stored := PutImmutable(Original(order, seen.id, image.kind), content);
      if !stored {
        assert Do(start, original) == start;
        return;
      }
      ghost var puts := VariantPuts(seen, order, image.variants, c.arrival);
      ghost var rest := LaterSteps(old(objects), seen, order, content, image, c);
      CutLater(start, [original], puts + rest, budget);
      OneAction(start, original);
      OriginalApart(start.objects, seen, order, content, image);
      ghost var prepared := State();
      var limit := if budget - 1 < |c.arrival| then budget - 1 else |c.arrival|;
      var refused := LandVariants(seen, order, image.variants, c.arrival, limit);
      if limit < |c.arrival| {
        CutEarlier(puts, rest, budget - 1);
        return;
      }
      assert puts[..|puts|] == puts;
      CutLater(prepared, puts, rest, budget - 1);
      if refused {
        return;
      }
      Finish(seen, order, content.size, image, c.removal, budget - 1 - |c.arrival|);
    }
  }

  /** The original's path is none of the variants'. */
  lemma OriginalApart(objects: map<(Bucket, Key), Content>, m: Media, order: Id, content: Content, image: Inspection)
    requires image.Accepted?
    ensures var after := Stored(objects, Original(order, m.id, image.kind), content);
            Conflict(after, m, order, image.variants) == Conflict(objects, m, order, image.variants)
  {
    var after := Stored(objects, Original(order, m.id, image.kind), content);
    assert forall i :: 0 <= i < |image.variants| ==>
        Clash(after, PutVariant(m, order, image.variants[i])) == Clash(objects, PutVariant(m, order, image.variants[i]));
  }

  lemma StorePlan(w: World, process: Image, c: Choice, budget: nat)
    requires ChoiceFits(w, process, c) && Pending(w.media) && (w.media.bucket, w.media.key) in w.objects && budget > 0
    requires Detected(w.media, process(w.objects[(w.media.bucket, w.media.key)])).Accepted?
    ensures var content := w.objects[(w.media.bucket, w.media.key)];
            var steps := StoreSteps(w.objects, w.media, w.media.order.value, content, Detected(w.media, process(content)), c);
            Cut(w, process, c, budget) == DoAll(Do(w, MarkProcessing), Prefix(steps, budget - 1))
  {
    var content := w.objects[(w.media.bucket, w.media.key)];
    var steps := StoreSteps(w.objects, w.media, w.media.order.value, content, Detected(w.media, process(content)), c);
    assert Plan(w, process, c) == [MarkProcessing] + steps;
    CutLater(w, [MarkProcessing], steps, budget);
    OneAction(w, MarkProcessing);
  }
}
