/** Runs of the media worker that stop after any step: where they lead does not depend on how
    often, or where, they stopped. */
module MediaConvergence {

  import opened Wrappers
  import opened MediaWorker

  // ----- Where a state leads -----

  /** The files of an accepted image, whatever order they land in. */
  function Files(m: Media, order: Id, variants: seq<Variant>, n: nat): map<(Bucket, Key), Content>
    requires n <= |variants|
  {
    if n == 0 then map[]
    else Files(m, order, variants, n - 1)[(Private, Sized(order, m.id, variants[n - 1].width)) := variants[n - 1].content]
  }

  /** What was there stays; what is missing is added. */
  function AllStored(objects: map<(Bucket, Key), Content>, m: Media, order: Id, content: Content, image: Inspection)
    : map<(Bucket, Key), Content>
    requires image.Accepted?
  {
    Files(m, order, image.variants, |image.variants|)[(Private, Original(order, m.id, image.kind)) := content] + objects
  }

  function Queued(w: World): World {
    DoAll(w, BackupSteps(w.media))
  }

  /** The outcome of a complete run followed by the sweep, said without steps. */
  function Final(w: World, process: Image): World {
    var m := w.media;
    if m.state == Ready then Swept(Queued(w))
    else if !Pending(m) then w
    else
      var marked := Do(w, MarkProcessing);
      if (m.bucket, m.key) !in w.objects then marked
      else
        var content := w.objects[(m.bucket, m.key)];
        var image := Detected(m, process(content));
        if image.Refused? then Do(marked, Reject(image.code))
        else
          var stored := marked.(objects := AllStored(w.objects, m, m.order.value, content, image));
          Swept(Queued(Do(stored, Publish(m.order.value, content.size, image))))
  }

  /** An upload waiting in quarantine whose files, if it is accepted, can all be stored: variants of
      one width are one file, and no path holds content of another size. */
  ghost predicate Sound(w: World, process: Image) {
    Pending(w.media) ==>
      && w.media.bucket == Quarantine
      && (Accepts(w, process) ==> Storable(w.objects, w.media, UploadOf(w), ImageOf(w, process)))
  }

  predicate Accepts(w: World, process: Image) {
    && Pending(w.media) && (w.media.bucket, w.media.key) in w.objects
    && Detected(w.media, process(w.objects[(w.media.bucket, w.media.key)])).Accepted?
  }

  function UploadOf(w: World): Content
    requires (w.media.bucket, w.media.key) in w.objects
  {
    w.objects[(w.media.bucket, w.media.key)]
  }

  function ImageOf(w: World, process: Image): Inspection
    requires Accepts(w, process)
  {
    process(UploadOf(w))
  }

  ghost predicate Storable(objects: map<(Bucket, Key), Content>, m: Media, content: Content, image: Inspection)
    requires m.order.Some? && image.Accepted?
  {
    && !Clash(objects, PutOriginal(m, m.order.value, content, image))
    && !Conflict(objects, m, m.order.value, image.variants)
    && OneFilePerWidth(image.variants)
  }

  ghost predicate OneFilePerWidth(variants: seq<Variant>) {
    forall i, j :: 0 <= i < |variants| && 0 <= j < |variants| && variants[i].width == variants[j].width ==>
      variants[i].content == variants[j].content
  }

  // ----- Storing part of the files -----

  lemma {:induction false} FilesAre(m: Media, order: Id, variants: seq<Variant>, n: nat)
    requires n <= |variants| && OneFilePerWidth(variants)
    ensures var files := Files(m, order, variants, n);
            && (forall i :: 0 <= i < n ==>
                  var b := (Private, Sized(order, m.id, variants[i].width)); b in files && files[b] == variants[i].content)
            && (forall b :: b in files ==> exists i :: 0 <= i < n && b == (Private, Sized(order, m.id, variants[i].width)))
  {
    if n > 0 {
      FilesAre(m, order, variants, n - 1);
    }
  }

  /** Objects on the way from `objects` to all of an image's files. */
  ghost predicate PartlyStored(objects: map<(Bucket, Key), Content>, partly: map<(Bucket, Key), Content>, all: map<(Bucket, Key), Content>) {
    && (forall b :: b in objects ==> b in partly)
    && (forall b :: b in partly ==> b in all && partly[b] == all[b])
  }

  lemma PartlyStoredLeadsToAll(objects: map<(Bucket, Key), Content>, partly: map<(Bucket, Key), Content>, m: Media, order: Id,
                               content: Content, image: Inspection)
    requires image.Accepted? && PartlyStored(objects, partly, AllStored(objects, m, order, content, image))
    ensures AllStored(partly, m, order, content, image) == AllStored(objects, m, order, content, image)
    ensures forall k :: (Quarantine, k) in objects <==> (Quarantine, k) in partly
    ensures forall k :: (Quarantine, k) in objects ==> objects[(Quarantine, k)] == partly[(Quarantine, k)]
  {
    FilesArePrivate(m, order, image.variants, |image.variants|);
  }

  lemma {:induction false} FilesArePrivate(m: Media, order: Id, variants: seq<Variant>, n: nat)
    requires n <= |variants|
    ensures forall b :: b in Files(m, order, variants, n) ==> b.0 == Private && b.1.Sized?
  {
    if n > 0 {
      FilesArePrivate(m, order, variants, n - 1);
    }
  }

  /** Landed variants, in any order and any number, are part of the files; all of them are all. */
  lemma LandedIsPartlyStored(objects: map<(Bucket, Key), Content>, after: map<(Bucket, Key), Content>, m: Media, order: Id,
                             content: Content, image: Inspection, arrival: seq<nat>, k: nat)
    requires image.Accepted? && OneFilePerWidth(image.variants) && Arrives(arrival, |image.variants|) && k <= |arrival|
    requires Landed(Stored(objects, Original(order, m.id, image.kind), content), after, m, order, image.variants, arrival, k)
    ensures PartlyStored(objects, after, AllStored(objects, m, order, content, image))
    ensures k == |arrival| ==> after == AllStored(objects, m, order, content, image)
  {
    FilesAre(m, order, image.variants, |image.variants|);
    FilesArePrivate(m, order, image.variants, |image.variants|);
    var all := AllStored(objects, m, order, content, image);
    forall b | b in after ensures b in all && after[b] == all[b] {
      if b !in Stored(objects, Original(order, m.id, image.kind), content) {
        var i :| 0 <= i < k && b == (Private, Sized(order, m.id, image.variants[arrival[i]].width))
                 && after[b] == image.variants[arrival[i]].content;
        assert b in Files(m, order, image.variants, |image.variants|);
      }
    }
    if k == |arrival| { LandedIsAllStored(objects, after, m, order, content, image, arrival); }
  }

  lemma LandedIsAllStored(objects: map<(Bucket, Key), Content>, after: map<(Bucket, Key), Content>, m: Media, order: Id,
                          content: Content, image: Inspection, arrival: seq<nat>)
    requires image.Accepted? && OneFilePerWidth(image.variants) && Arrives(arrival, |image.variants|)
    requires Landed(Stored(objects, Original(order, m.id, image.kind), content), after, m, order, image.variants, arrival, |arrival|)
    requires PartlyStored(objects, after, AllStored(objects, m, order, content, image))
    ensures after == AllStored(objects, m, order, content, image)
  {
    FilesAre(m, order, image.variants, |image.variants|);
    var all := AllStored(objects, m, order, content, image);
    forall b | b in all ensures b in after {
      if b in Files(m, order, image.variants, |image.variants|) {
        var i: nat :| i < |image.variants| && b == (Private, Sized(order, m.id, image.variants[i].width));
        assert i in arrival;
      }
    }
  }

  /** A state between the start of a run and its publication. */
  ghost predicate Midway(w: World, w': World, process: Image) {
    Accepts(w, process) && w' == Do(w, MarkProcessing).(objects := w'.objects)
    && PartlyStored(w.objects, w'.objects, AllStored(w.objects, w.media, w.media.order.value, UploadOf(w), ImageOf(w, process)))
  }

  lemma MidwayLeadsToTheSame(w: World, w': World, process: Image)
    requires Sound(w, process) && Midway(w, w', process)
    ensures Sound(w', process) && Final(w', process) == Final(w, process)
  {
    var m, order, content, image := w.media, w.media.order.value, UploadOf(w), ImageOf(w, process);
    PartlyStoredLeadsToAll(w.objects, w'.objects, m, order, content, image);
    FilesFit(w.objects, w'.objects, m, order, content, image);
    assert Accepts(w', process) && UploadOf(w') == content && ImageOf(w', process) == image;
    assert Files(w'.media, order, image.variants, |image.variants|) == Files(m, order, image.variants, |image.variants|) by {
      FilesDependOnId(m, w'.media, order, image.variants, |image.variants|);
    }
    assert Do(w', MarkProcessing) == w';
  }

  lemma {:induction false} FilesDependOnId(m: Media, m': Media, order: Id, variants: seq<Variant>, n: nat)
    requires n <= |variants| && m.id == m'.id
    ensures Files(m, order, variants, n) == Files(m', order, variants, n)
  {
    if n > 0 {
      FilesDependOnId(m, m', order, variants, n - 1);
    }
  }

  lemma FilesFit(objects: map<(Bucket, Key), Content>, partly: map<(Bucket, Key), Content>, m: Media, order: Id,
                 content: Content, image: Inspection)
    requires image.Accepted? && m.order == Some(order) && Storable(objects, m, content, image)
    requires PartlyStored(objects, partly, AllStored(objects, m, order, content, image))
    ensures Storable(partly, m, content, image)
  {
    FilesAre(m, order, image.variants, |image.variants|);
    FilesArePrivate(m, order, image.variants, |image.variants|);
    forall i | 0 <= i < |image.variants| ensures !Clash(partly, PutVariant(m, order, image.variants[i])) {
      assert !Clash(objects, PutVariant(m, order, image.variants[i]));
    }
  }

  // ----- After publication -----

  /** A step that a finished run may still take: removing the upload, forgetting it once it is
      gone, queueing the backup. */
  predicate Closing(w: World, a: Action) {
    w.media.state == Ready &&
    match a
    case RemoveUpload(bucket, key) => bucket == Quarantine && w.media.quarantineKey == Some(key)
    case ClearKey => w.media.quarantineKey.Some? && (Quarantine, w.media.quarantineKey.value) !in w.objects
    case QueueBackup(order) => w.media.order == Some(order) && !w.media.catalog
    case _ => false
  }

  predicate AllClosing(w: World, actions: seq<Action>)
    decreases |actions|
  {
    actions == [] || (Closing(w, actions[0]) && AllClosing(Do(w, actions[0]), actions[1..]))
  }

  lemma QueuedIs(w: World)
    ensures Queued(w) == if w.media.catalog || w.media.order.None? then w else Do(w, QueueBackup(w.media.order.value))
  {
    if !w.media.catalog && w.media.order.Some? {
      OneAction(w, QueueBackup(w.media.order.value));
    }
  }

  lemma ClosingLeadsToTheSame(w: World, a: Action, process: Image)
    requires Closing(w, a)
    ensures Do(w, a).media.state == Ready && Final(Do(w, a), process) == Final(w, process)
  {
    QueuedIs(w);
    QueuedIs(Do(w, a));
  }

  lemma {:induction false} AllClosingLeadToTheSame(w: World, actions: seq<Action>, k: nat, process: Image)
    requires w.media.state == Ready && AllClosing(w, actions) && k <= |actions|
    ensures DoAll(w, actions[..k]).media.state == Ready && Final(DoAll(w, actions[..k]), process) == Final(w, process)
    decreases |actions|
  {
    if k > 0 {
      ClosingLeadsToTheSame(w, actions[0], process);
      AllClosingLeadToTheSame(Do(w, actions[0]), actions[1..], k - 1, process);
      assert actions[..k][1..] == actions[1..][..k - 1];
    }
  }

  lemma BackupCloses(w: World, m: Media)
    requires w.media.state == Ready && m.order == w.media.order && m.catalog == w.media.catalog
    ensures AllClosing(w, BackupSteps(m))
  {
    if !m.catalog && m.order.Some? {
      assert AllClosing(Do(w, BackupSteps(m)[0]), []);
    }
  }

  /** The end of a run that read the row as `m` closes what its publication opened. */
  lemma EndCloses(w: World, m: Media, removal: Removal)
    requires w.media.state == Ready && m.order == w.media.order && m.catalog == w.media.catalog
    requires m.bucket == Quarantine && m.quarantineKey == w.media.quarantineKey
    ensures AllClosing(w, RemovalSteps(m, removal) + BackupSteps(m))
  {
    var steps, backup := RemovalSteps(m, removal), BackupSteps(m);
    if steps == [] {
      assert steps + backup == backup;
      BackupCloses(w, m);
    } else {
      var removed := Do(w, steps[0]);
      assert (steps + backup)[1..] == steps[1..] + backup;
      if removal == RemovedOnly {
        assert steps[1..] + backup == backup;
        BackupCloses(removed, m);
      } else {
        assert (steps[1..] + backup)[0] == ClearKey && (steps[1..] + backup)[1..] == backup;
        BackupCloses(Do(removed, ClearKey), m);
      }
    }
  }

  /** Once the backup is queued only the sweep is missing. */
  lemma OnlySweepMissing(w: World, m: Media, steps: seq<Action>, process: Image)
    requires w.media.state == Ready && m.order == w.media.order && m.catalog == w.media.catalog
    requires AllClosing(w, steps + BackupSteps(m))
    ensures Swept(DoAll(w, steps + BackupSteps(m))) == Final(w, process)
  {
    var end := DoAll(w, steps);
    AllClosingLeadToTheSame(w, steps + BackupSteps(m), |steps + BackupSteps(m)|, process);
    assert (steps + BackupSteps(m))[..|steps + BackupSteps(m)|] == steps + BackupSteps(m);
    DoAllAppend(w, steps, BackupSteps(m));
    ClosingKeepsOwner(w, steps, BackupSteps(m));
    QueuedIs(end);
    assert DoAll(w, steps + BackupSteps(m)) == Queued(end);
    QueuedIs(Queued(end));
  }

  lemma {:induction false} ClosingKeepsOwner(w: World, steps: seq<Action>, more: seq<Action>)
    requires AllClosing(w, steps + more)
    ensures DoAll(w, steps).media.order == w.media.order && DoAll(w, steps).media.catalog == w.media.catalog
    ensures AllClosing(DoAll(w, steps), more)
    decreases |steps|
  {
    if steps == [] {
      assert steps + more == more;
    } else {
      assert (steps + more)[1..] == steps[1..] + more;
      ClosingKeepsOwner(Do(w, steps[0]), steps[1..], more);
    }
  }

  // ----- One run, cut anywhere -----

  /** The state in which an accepted upload has just been published. */
  function PublishedFrom(w: World, process: Image): World
    requires Accepts(w, process)
  {
    var stored := Do(w, MarkProcessing).(objects := AllStored(w.objects, w.media, w.media.order.value, UploadOf(w), ImageOf(w, process)));
    Do(stored, Publish(w.media.order.value, UploadOf(w).size, ImageOf(w, process)))
  }

  lemma PutsLeadHalfway(w: World, process: Image, c: Choice, k: nat) returns (partly: World)
    requires Sound(w, process) && Accepts(w, process) && ChoiceFits(w, process, c) && k <= |c.arrival|
    ensures var m, order, image := w.media, w.media.order.value, ImageOf(w, process);
            var original := PutOriginal(m, order, UploadOf(w), image);
            partly == DoAll(Do(Do(w, MarkProcessing), original), VariantPuts(m, order, image.variants, c.arrival)[..k])
    ensures Midway(w, partly, process)
    ensures k == |c.arrival| ==> partly.objects == AllStored(w.objects, w.media, w.media.order.value, UploadOf(w), ImageOf(w, process))
  {
    var m, order, content, image := w.media, w.media.order.value, UploadOf(w), ImageOf(w, process);
    var begun := Do(Do(w, MarkProcessing), PutOriginal(m, order, content, image));
    partly := DoAll(begun, VariantPuts(m, order, image.variants, c.arrival)[..k]);
    PutsLand(begun, m, order, image.variants, c.arrival, k);
    LandedIsPartlyStored(w.objects, partly.objects, m, order, content, image, c.arrival, k);
  }

  /** A run stopped among its puts, the first of which is the original's. */
  lemma CutAmongPuts(start: World, original: Action, puts: seq<Action>, later: seq<Action>, k: nat)
    requires 0 < k <= |puts| + 1
    ensures DoAll(start, Prefix([original] + (puts + later), k)) == DoAll(Do(start, original), puts[..k - 1])
  {
    CutLater(start, [original], puts + later, k);
    OneAction(start, original);
    CutEarlier(puts, later, k - 1);
  }

  /** A run stopped after its puts. */
  lemma CutAfterPuts(start: World, original: Action, puts: seq<Action>, later: seq<Action>, k: nat)
    requires k > |puts|
    ensures DoAll(start, Prefix([original] + (puts + later), k))
         == DoAll(DoAll(Do(start, original), puts), Prefix(later, k - 1 - |puts|))
  {
    CutLater(start, [original], puts + later, k);
    OneAction(start, original);
    CutLater(Do(start, original), puts, later, k - 1);
  }

  /** The steps of an accepting run that has not stored its original yet, or not all its variants. */
  lemma StoringPrefix(w: World, process: Image, c: Choice, k: nat) returns (partly: World)
    requires Sound(w, process) && Accepts(w, process) && ChoiceFits(w, process, c) && k <= |c.arrival| + 1
    ensures partly == DoAll(Do(w, MarkProcessing), Prefix(StepsOf(w, process, c), k)) && Midway(w, partly, process)
  {
    var m, order, content, image := w.media, w.media.order.value, UploadOf(w), ImageOf(w, process);
    var original, marked := PutOriginal(m, order, content, image), Do(w, MarkProcessing);
    var puts, later := VariantPuts(m, order, image.variants, c.arrival), LaterSteps(w.objects, m, order, content, image, c);
    assert StepsOf(w, process, c) == [original] + (puts + later);
    if k == 0 {
      assert Prefix(StepsOf(w, process, c), 0) == [];
      partly := marked;
    } else {
      CutAmongPuts(marked, original, puts, later, k);
      partly := PutsLeadHalfway(w, process, c, k - 1);
    }
  }

  function StepsOf(w: World, process: Image, c: Choice): seq<Action>
    requires Accepts(w, process) && ChoiceFits(w, process, c)
  {
    StoreSteps(w.objects, w.media, w.media.order.value, UploadOf(w), ImageOf(w, process), c)
  }

  lemma ClosingPrefix(w: World, process: Image, c: Choice, k: nat) returns (stored: World)
    requires Sound(w, process) && Accepts(w, process) && ChoiceFits(w, process, c) && k > |c.arrival| + 1
    ensures stored == Do(w, MarkProcessing).(objects := AllStored(w.objects, w.media, w.media.order.value, UploadOf(w), ImageOf(w, process)))
    ensures DoAll(Do(w, MarkProcessing), Prefix(StepsOf(w, process, c), k))
         == DoAll(stored, Prefix(LaterSteps(w.objects, w.media, w.media.order.value, UploadOf(w), ImageOf(w, process), c), k - 1 - |c.arrival|))
  {
    var m, order, content, image := w.media, w.media.order.value, UploadOf(w), ImageOf(w, process);
    var original, marked := PutOriginal(m, order, content, image), Do(w, MarkProcessing);
    var puts, later := VariantPuts(m, order, image.variants, c.arrival), LaterSteps(w.objects, m, order, content, image, c);
    assert StepsOf(w, process, c) == [original] + (puts + later);
    CutAfterPuts(marked, original, puts, later, k);
    stored := PutsLeadHalfway(w, process, c, |puts|);
    assert puts[..|puts|] == puts;
  }

  lemma AfterMarking(w: World, process: Image, c: Choice, k: nat)
    requires Sound(w, process) && Accepts(w, process) && ChoiceFits(w, process, c)
    ensures var end := DoAll(Do(w, MarkProcessing), Prefix(StepsOf(w, process, c), k));
            Sound(end, process) && Final(end, process) == Final(w, process)
  {
    if k <= |c.arrival| + 1 {
      var partly := StoringPrefix(w, process, c, k);
      MidwayLeadsToTheSame(w, partly, process);
    } else {
      var stored := ClosingPrefix(w, process, c, k);
      ClosingRun(w, process, c, stored, k - 1 - |c.arrival|);
    }
  }

  /** Every prefix of an accepting run either has not published or closes what it published. */
  lemma AcceptingRun(w: World, process: Image, c: Choice, steps: nat)
    requires Sound(w, process) && Accepts(w, process) && ChoiceFits(w, process, c)
    ensures Sound(Cut(w, process, c, steps), process) && Final(Cut(w, process, c, steps), process) == Final(w, process)
  {
    if steps == 0 {
      assert Prefix(Plan(w, process, c), 0) == [];
    } else {
      StorePlan(w, process, c, steps);
      AfterMarking(w, process, c, steps - 1);
    }
  }

  lemma ClosingRun(w: World, process: Image, c: Choice, stored: World, k: nat)
    requires Sound(w, process) && Accepts(w, process) && k > 0
    requires stored == Do(w, MarkProcessing).(objects := AllStored(w.objects, w.media, w.media.order.value, UploadOf(w), ImageOf(w, process)))
    ensures var end := DoAll(stored, Prefix(LaterSteps(w.objects, w.media, w.media.order.value, UploadOf(w), ImageOf(w, process), c), k));
            end.media.state == Ready && Final(end, process) == Final(w, process)
  {
    var m, order, content, image := w.media, w.media.order.value, UploadOf(w), ImageOf(w, process);
    var publish := Publish(order, content.size, image);
    var rest := RemovalSteps(m, c.removal) + BackupSteps(m);
    assert LaterSteps(w.objects, m, order, content, image, c) == [publish] + rest;
    CutLater(stored, [publish], rest, k);
    OneAction(stored, publish);
    var published := PublishedFrom(w, process);
    EndCloses(published, m, c.removal);
    AllClosingLeadToTheSame(published, rest, if k - 1 <= |rest| then k - 1 else |rest|, process);
  }

  /** A run, cut anywhere, changes nothing of where the state leads. */
  lemma CutLeadsToTheSame(w: World, process: Image, c: Choice, steps: nat)
    requires Sound(w, process) && ChoiceFits(w, process, c)
    ensures Sound(Cut(w, process, c, steps), process) && Final(Cut(w, process, c, steps), process) == Final(w, process)
  {
    var m, plan := w.media, Plan(w, process, c);
    if Accepts(w, process) {
      AcceptingRun(w, process, c, steps);
    } else if m.state == Ready {
      BackupCloses(w, m);
      AllClosingLeadToTheSame(w, plan, if steps <= |plan| then steps else |plan|, process);
    } else if Pending(m) && steps > 0 {
      RefusingRun(w, process, c, steps);
    }
  }

  lemma RefusingRun(w: World, process: Image, c: Choice, steps: nat)
    requires Sound(w, process) && ChoiceFits(w, process, c) && Pending(w.media) && !Accepts(w, process) && steps > 0
    ensures Sound(Cut(w, process, c, steps), process) && Final(Cut(w, process, c, steps), process) == Final(w, process)
  {
    var m, plan, marked := w.media, Plan(w, process, c), Do(w, MarkProcessing);
    OneAction(w, MarkProcessing);
    if (m.bucket, m.key) !in w.objects {
      assert plan == [MarkProcessing];
    } else {
      var code := Detected(m, process(w.objects[(m.bucket, m.key)])).code;
      assert plan == [MarkProcessing] + [Reject(code)];
      CutLater(w, [MarkProcessing], [Reject(code)], steps);
      OneAction(marked, Reject(code));
    }
    assert Do(marked, MarkProcessing) == marked;
  }

  /** A complete run leaves nothing but the sweep to do. */
  lemma CompleteRunThenSweep(w: World, process: Image, c: Choice)
    requires Sound(w, process) && ChoiceFits(w, process, c)
    ensures Swept(Complete(w, process, c)) == Final(w, process)
  {
    var m, plan := w.media, Plan(w, process, c);
    assert Prefix(plan, |plan|) == plan;
    if Accepts(w, process) {
      AcceptingRunThenSweep(w, process, c);
    } else if m.state == Ready {
      BackupCloses(w, m);
      assert [] + BackupSteps(m) == BackupSteps(m);
      OnlySweepMissing(w, m, [], process);
    } else if Pending(m) {
      CompleteRefusal(w, process, c);
    }
  }

  lemma CompleteRefusal(w: World, process: Image, c: Choice)
    requires Sound(w, process) && ChoiceFits(w, process, c) && Pending(w.media) && !Accepts(w, process)
    ensures Complete(w, process, c) == Final(w, process) && Swept(Complete(w, process, c)) == Complete(w, process, c)
  {
    var m, marked := w.media, Do(w, MarkProcessing);
    OneAction(w, MarkProcessing);
    if (m.bucket, m.key) in w.objects {
      var code := Detected(m, process(w.objects[(m.bucket, m.key)])).code;
      assert Plan(w, process, c) == [MarkProcessing] + [Reject(code)];
      DoAllAppend(w, [MarkProcessing], [Reject(code)]);
      OneAction(marked, Reject(code));
    }
  }

  /** A complete accepting run publishes, and then removes the upload as far as it gets and queues the backup. */
  lemma AcceptingRunIs(w: World, process: Image, c: Choice)
    requires Sound(w, process) && ChoiceFits(w, process, c) && Accepts(w, process)
    ensures Complete(w, process, c) == DoAll(PublishedFrom(w, process), RemovalSteps(w.media, c.removal) + BackupSteps(w.media))
  {
    var m, order, content, image := w.media, w.media.order.value, UploadOf(w), ImageOf(w, process);
    var puts, publish := VariantPuts(m, order, image.variants, c.arrival), Publish(order, content.size, image);
    var original, removal := PutOriginal(m, order, content, image), RemovalSteps(m, c.removal);
    var later := LaterSteps(w.objects, m, order, content, image, c);
    assert Plan(w, process, c) == [MarkProcessing] + ([original] + (puts + later));
    assert later == [publish] + (removal + BackupSteps(m));
    DoAllAppend(w, [MarkProcessing], [original] + (puts + later));
    OneAction(w, MarkProcessing);
    DoAllAppend(Do(w, MarkProcessing), [original], puts + later);
    OneAction(Do(w, MarkProcessing), original);
    DoAllAppend(Do(Do(w, MarkProcessing), original), puts, later);
    var stored := PutsLeadHalfway(w, process, c, |puts|);
    assert puts[..|puts|] == puts;
    DoAllAppend(stored, [publish], removal + BackupSteps(m));
    OneAction(stored, publish);
  }

  lemma AcceptingRunThenSweep(w: World, process: Image, c: Choice)
    requires Sound(w, process) && ChoiceFits(w, process, c) && Accepts(w, process)
    ensures Swept(Complete(w, process, c)) == Final(w, process)
  {
    AcceptingRunIs(w, process, c);
    var published := PublishedFrom(w, process);
    EndCloses(published, w.media, c.removal);
    OnlySweepMissing(published, w.media, RemovalSteps(w.media, c.removal), process);
  }

  // ----- Any number of interrupted runs -----

  datatype Interrupted = Interrupted(choice: Choice, steps: nat)

  ghost predicate Fits(w: World, process: Image, runs: seq<Interrupted>)
    decreases |runs|
  {
    runs == [] || (ChoiceFits(w, process, runs[0].choice) && Fits(Cut(w, process, runs[0].choice, runs[0].steps), process, runs[1..]))
  }

  function After(w: World, process: Image, runs: seq<Interrupted>): World
    requires Fits(w, process, runs)
    decreases |runs|
  {
    if runs == [] then w else After(Cut(w, process, runs[0].choice, runs[0].steps), process, runs[1..])
  }

  lemma {:induction false} InterruptedRunsLeadToTheSame(w: World, process: Image, runs: seq<Interrupted>)
    requires Sound(w, process) && Fits(w, process, runs)
    ensures Sound(After(w, process, runs), process) && Final(After(w, process, runs), process) == Final(w, process)
    decreases |runs|
  {
    if runs != [] {
      CutLeadsToTheSame(w, process, runs[0].choice, runs[0].steps);
      InterruptedRunsLeadToTheSame(Cut(w, process, runs[0].choice, runs[0].steps), process, runs[1..]);
    }
  }

  /** After any number of runs cut anywhere, one complete run and one sweep give what one complete
      run and one sweep would have given at once. */
  lemma CrashConvergence(w: World, process: Image, runs: seq<Interrupted>, last: Choice, only: Choice)
    requires Sound(w, process) && Fits(w, process, runs)
    requires ChoiceFits(After(w, process, runs), process, last) && ChoiceFits(w, process, only)
    ensures Swept(Complete(After(w, process, runs), process, last)) == Swept(Complete(w, process, only))
  {
    InterruptedRunsLeadToTheSame(w, process, runs);
    CompleteRunThenSweep(After(w, process, runs), process, last);
    CompleteRunThenSweep(w, process, only);
  }

  /** What that is for an accepted upload: published once, with every file in place, the upload
      gone, its key forgotten and one backup queued. */
  lemma AcceptedUploadEndsPublished(w: World, process: Image)
    requires Sound(w, process) && Accepts(w, process) && w.media.quarantineKey == Some(w.media.key)
    ensures var end, image, order := Final(w, process), ImageOf(w, process), w.media.order.value;
            && end.media.state == Ready && end.media.quarantineKey == None
            && end.media.bucket == Private && end.media.key == Original(order, w.media.id, image.kind)
            && end.audits == w.audits + [Succeeded(image.recipe, |image.variants|)]
            && (Quarantine, w.media.key) !in end.objects
            && end.objects == AllStored(w.objects, w.media, order, UploadOf(w), image) - {(Quarantine, w.media.key)}
            && end.variants == Inserted(w.variants, order, w.media.id, image, |image.variants|)
            && (!w.media.catalog ==> end.backup.Some? && end.backupJob)
  {
    QueuedIs(PublishedFrom(w, process));
  }

  // ----- Uploads that cannot be stored -----

  /** Some put of an accepting run must be refused. */
  predicate Stuck(w: World, process: Image) {
    Accepts(w, process) &&
    (Clash(w.objects, PutOriginal(w.media, w.media.order.value, UploadOf(w), ImageOf(w, process)))
     || Conflict(w.objects, w.media, w.media.order.value, ImageOf(w, process).variants))
  }

  lemma ConflictStays(objects: map<(Bucket, Key), Content>, after: map<(Bucket, Key), Content>, m: Media, m': Media, order: Id,
                      variants: seq<Variant>)
    requires m.id == m'.id && forall b :: b in objects ==> b in after && after[b] == objects[b]
    requires Conflict(objects, m, order, variants)
    ensures Conflict(after, m', order, variants)
  {
    if i :| 0 <= i < |variants| && Clash(objects, PutVariant(m, order, variants[i])) {
      assert Clash(after, PutVariant(m', order, variants[i]));
    }
  }

  /** What a run of a stuck upload can leave: the row marked, and some of its puts. */
  lemma StuckCutIs(w: World, process: Image, c: Choice, steps: nat) returns (k: nat)
    requires Stuck(w, process) && ChoiceFits(w, process, c) && steps > 0
    ensures var m, order, image := w.media, w.media.order.value, ImageOf(w, process);
            var original, marked := PutOriginal(m, order, UploadOf(w), image), Do(w, MarkProcessing);
            && k <= |c.arrival|
            && Cut(w, process, c, steps) == if Clash(w.objects, original) || steps == 1 then marked
                                            else DoAll(Do(marked, original), VariantPuts(m, order, image.variants, c.arrival)[..k])
  {
    var m, order, content, image := w.media, w.media.order.value, UploadOf(w), ImageOf(w, process);
    var puts, original := VariantPuts(m, order, image.variants, c.arrival), PutOriginal(m, order, content, image);
    var marked := Do(w, MarkProcessing);
    StorePlan(w, process, c, steps);
    k := 0;
    if !Clash(w.objects, original) && steps > 1 {
      assert StoreSteps(w.objects, m, order, content, image, c) == [original] + (puts + []);
      assert puts + [] == puts;
      CutLater(marked, [original], puts, steps - 1);
      OneAction(marked, original);
      k := if steps - 2 <= |puts| then steps - 2 else |puts|;
    }
  }

  lemma StuckCut(w: World, process: Image, c: Choice, steps: nat)
    requires Stuck(w, process) && ChoiceFits(w, process, c) && steps > 0
    ensures var end := Cut(w, process, c, steps);
            && end == Do(w, MarkProcessing).(objects := end.objects)
            && forall b :: b in w.objects ==> b in end.objects && end.objects[b] == w.objects[b]
  {
    var m, order, image := w.media, w.media.order.value, ImageOf(w, process);
    var k := StuckCutIs(w, process, c, steps);
    PutsLand(Do(Do(w, MarkProcessing), PutOriginal(m, order, UploadOf(w), image)), m, order, image.variants, c.arrival, k);
  }

  /** A stuck upload stays stuck: no run, complete or not, publishes or rejects it. */
  lemma StuckStays(w: World, process: Image, c: Choice, steps: nat)
    requires Stuck(w, process) && ChoiceFits(w, process, c)
    ensures Stuck(Cut(w, process, c, steps), process) && Cut(w, process, c, steps).audits == w.audits
  {
    if steps == 0 {
      assert Prefix(Plan(w, process, c), 0) == [];
    } else {
      var end, order, variants := Cut(w, process, c, steps), w.media.order.value, ImageOf(w, process).variants;
      StuckCut(w, process, c, steps);
      if Conflict(w.objects, w.media, order, variants) {
        ConflictStays(w.objects, end.objects, w.media, end.media, order, variants);
      }
    }
  }

  lemma {:induction false} StuckForever(w: World, process: Image, runs: seq<Interrupted>)
    requires Stuck(w, process) && Fits(w, process, runs)
    ensures Stuck(After(w, process, runs), process) && After(w, process, runs).audits == w.audits
    decreases |runs|
  {
    if runs != [] {
      StuckStays(w, process, runs[0].choice, runs[0].steps);
      StuckForever(Cut(w, process, runs[0].choice, runs[0].steps), process, runs[1..]);
    }
  }

  // ----- Exactly which uploads are published -----

  /** An accepted upload on its way: the row marked, and some of its own files added. */
  ghost predicate Grown(w: World, end: World, process: Image) {
    Accepts(w, process) && end == Do(w, MarkProcessing).(objects := end.objects)
    && (forall b :: b in w.objects ==> b in end.objects && end.objects[b] == w.objects[b])
    && (forall b :: b in end.objects && b !in w.objects ==> OwnFile(w, process, b, end.objects[b]))
  }

  ghost predicate OwnFile(w: World, process: Image, b: (Bucket, Key), content: Content)
    requires Accepts(w, process)
  {
    var m, order, image := w.media, w.media.order.value, ImageOf(w, process);
    || (b == (Private, Original(order, m.id, image.kind)) && content == UploadOf(w))
    || exists i :: 0 <= i < |image.variants| && b == (Private, Sized(order, m.id, image.variants[i].width))
                   && content == image.variants[i].content
  }

  predicate Tidying(a: Action) { a.RemoveUpload? || a.ClearKey? || a.QueueBackup? }

  lemma {:induction false} TidyingKeepsState(w: World, actions: seq<Action>)
    requires forall i :: 0 <= i < |actions| ==> Tidying(actions[i])
    ensures DoAll(w, actions).media.state == w.media.state
    decreases |actions|
  {
    if actions != [] {
      TidyingKeepsState(Do(w, actions[0]), actions[1..]);
    }
  }

  /** The puts of a run, any number of them. */
  lemma PutsGrow(w: World, process: Image, c: Choice, k: nat)
    requires Accepts(w, process) && ChoiceFits(w, process, c) && k <= |c.arrival|
    ensures var m, order, image := w.media, w.media.order.value, ImageOf(w, process);
            var begun := Do(Do(w, MarkProcessing), PutOriginal(m, order, UploadOf(w), image));
            Grown(w, DoAll(begun, VariantPuts(m, order, image.variants, c.arrival)[..k]), process)
  {
    var m, order, image := w.media, w.media.order.value, ImageOf(w, process);
    var begun := Do(Do(w, MarkProcessing), PutOriginal(m, order, UploadOf(w), image));
    PutsLand(begun, m, order, image.variants, c.arrival, k);
    var end := DoAll(begun, VariantPuts(m, order, image.variants, c.arrival)[..k]);
    forall b | b in end.objects && b !in w.objects ensures OwnFile(w, process, b, end.objects[b]) {
      if b in begun.objects {
        assert b == (Private, Original(order, m.id, image.kind));
      } else {
        var i :| 0 <= i < k && b == (Private, Sized(order, m.id, image.variants[c.arrival[i]].width))
                 && end.objects[b] == image.variants[c.arrival[i]].content;
      }
    }
  }

  /** A run of an upload that is not stuck has published once it has taken one step after its puts,
      and before that it has only added files. */
  lemma CutOfUnstuck(w: World, process: Image, c: Choice, steps: nat)
    requires Accepts(w, process) && !Stuck(w, process) && ChoiceFits(w, process, c) && steps > 0
    ensures var end := Cut(w, process, c, steps);
            if steps <= |c.arrival| + 2 then Grown(w, end, process) else end.media.state == Ready
  {
    var m, order, content, image := w.media, w.media.order.value, UploadOf(w), ImageOf(w, process);
    var original, marked := PutOriginal(m, order, content, image), Do(w, MarkProcessing);
    var puts, later := VariantPuts(m, order, image.variants, c.arrival), LaterSteps(w.objects, m, order, content, image, c);
    StorePlan(w, process, c, steps);
    assert StepsOf(w, process, c) == [original] + (puts + later);
    if steps == 1 {
      assert Prefix(StepsOf(w, process, c), 0) == [];
    } else if steps - 2 <= |puts| {
      CutAmongPuts(marked, original, puts, later, steps - 1);
      PutsGrow(w, process, c, steps - 2);
    } else {
      CutAfterPuts(marked, original, puts, later, steps - 1);
      assert later == [Publish(order, content.size, image)] + (RemovalSteps(m, c.removal) + BackupSteps(m));
      PublishedAfterPuts(DoAll(Do(marked, original), puts), m, order, content, image, c.removal, steps - 2 - |puts|);
    }
  }

  lemma PublishedAfterPuts(stored: World, m: Media, order: Id, content: Content, image: Inspection, removal: Removal, k: nat)
    requires image.Accepted? && k > 0
    ensures var rest := RemovalSteps(m, removal) + BackupSteps(m);
            DoAll(stored, Prefix([Publish(order, content.size, image)] + rest, k)).media.state == Ready
  {
    var publish, rest := Publish(order, content.size, image), RemovalSteps(m, removal) + BackupSteps(m);
    CutLater(stored, [publish], rest, k);
    OneAction(stored, publish);
    TidyingKeepsState(Do(stored, publish), Prefix(rest, k - 1));
  }

  /** Published, or accepted and not stuck. */
  ghost predicate OnItsWay(w: World, process: Image) {
    w.media.state == Ready || (Accepts(w, process) && !Stuck(w, process))
  }

  lemma CutKeepsOnItsWay(w: World, process: Image, c: Choice, steps: nat)
    requires OnItsWay(w, process) && ChoiceFits(w, process, c)
    ensures OnItsWay(Cut(w, process, c, steps), process)
  {
    var plan := Plan(w, process, c);
    if w.media.state == Ready {
      TidyingKeepsState(w, Prefix(plan, steps));
    } else if steps == 0 {
      assert Prefix(plan, 0) == [];
    } else {
      CutOfUnstuck(w, process, c, steps);
    }
  }

  lemma {:induction false} RunsKeepOnItsWay(w: World, process: Image, runs: seq<Interrupted>)
    requires OnItsWay(w, process) && Fits(w, process, runs)
    ensures OnItsWay(After(w, process, runs), process)
    decreases |runs|
  {
    if runs != [] {
      CutKeepsOnItsWay(w, process, runs[0].choice, runs[0].steps);
      RunsKeepOnItsWay(Cut(w, process, runs[0].choice, runs[0].steps), process, runs[1..]);
    }
  }

  lemma CompleteRunPublishes(w: World, process: Image, c: Choice)
    requires OnItsWay(w, process) && ChoiceFits(w, process, c)
    ensures Complete(w, process, c).media.state == Ready
  {
    var plan := Plan(w, process, c);
    assert Prefix(plan, |plan|) == plan;
    if w.media.state == Ready {
      TidyingKeepsState(w, plan);
    } else {
      assert plan == [MarkProcessing] + StepsOf(w, process, c);
      CutOfUnstuck(w, process, c, |plan|);
    }
  }

  /** After any number of runs cut anywhere, a complete run leaves an accepted upload published
      exactly when none of its puts had to be refused at the start. */
  lemma PublishedExactlyWhenStorable(w: World, process: Image, runs: seq<Interrupted>, last: Choice)
    requires Accepts(w, process) && Fits(w, process, runs) && ChoiceFits(After(w, process, runs), process, last)
    ensures Complete(After(w, process, runs), process, last).media.state == Ready <==> !Stuck(w, process)
  {
    var before := After(w, process, runs);
    if Stuck(w, process) {
      StuckForever(w, process, runs);
      var plan := Plan(before, process, last);
      assert Prefix(plan, |plan|) == plan;
      StuckStays(before, process, last, |plan|);
    } else {
      RunsKeepOnItsWay(w, process, runs);
      CompleteRunPublishes(before, process, last);
    }
  }

  // ----- Where stuck uploads end -----

  /** The row marked, and every file in place whose path was free, unless the original's was not. */
  function StuckOutcome(w: World, process: Image): World
    requires Accepts(w, process)
  {
    var m, order, content, image := w.media, w.media.order.value, UploadOf(w), ImageOf(w, process);
    Do(w, MarkProcessing).(objects :=
      if Clash(w.objects, PutOriginal(m, order, content, image)) then w.objects
      else AllStored(w.objects, m, order, content, image))
  }

  lemma StuckComplete(w: World, process: Image, c: Choice)
    requires Stuck(w, process) && ChoiceFits(w, process, c) && OneFilePerWidth(ImageOf(w, process).variants)
    ensures Complete(w, process, c) == StuckOutcome(w, process)
  {
    var m, order, content, image := w.media, w.media.order.value, UploadOf(w), ImageOf(w, process);
    var original, puts, marked := PutOriginal(m, order, content, image), VariantPuts(m, order, image.variants, c.arrival), Do(w, MarkProcessing);
    OneAction(w, MarkProcessing);
    if Clash(w.objects, original) {
      assert Plan(w, process, c) == [MarkProcessing];
    } else {
      assert puts + [] == puts;
      assert Plan(w, process, c) == [MarkProcessing] + ([original] + puts);
      DoAllAppend(w, [MarkProcessing], [original] + puts);
      DoAllAppend(marked, [original], puts);
      OneAction(marked, original);
      PutsLand(Do(marked, original), m, order, image.variants, c.arrival, |puts|);
      assert puts[..|puts|] == puts;
      LandedIsPartlyStored(w.objects, DoAll(Do(marked, original), puts).objects, m, order, content, image, c.arrival, |puts|);
    }
  }

  lemma StuckCutStored(w: World, process: Image, c: Choice, steps: nat)
    requires Stuck(w, process) && ChoiceFits(w, process, c) && steps > 0 && OneFilePerWidth(ImageOf(w, process).variants)
    ensures var m, order, content, image := w.media, w.media.order.value, UploadOf(w), ImageOf(w, process);
            var after := Cut(w, process, c, steps).objects;
            if Clash(w.objects, PutOriginal(m, order, content, image)) then after == w.objects
            else PartlyStored(w.objects, after, AllStored(w.objects, m, order, content, image))
  {
    var m, order, content, image := w.media, w.media.order.value, UploadOf(w), ImageOf(w, process);
    var k := StuckCutIs(w, process, c, steps);
    PutsLand(Do(Do(w, MarkProcessing), PutOriginal(m, order, content, image)), m, order, image.variants, c.arrival, k);
    if !Clash(w.objects, PutOriginal(m, order, content, image)) && steps > 1 {
      LandedIsPartlyStored(w.objects, Cut(w, process, c, steps).objects, m, order, content, image, c.arrival, k);
    }
  }

  lemma StuckLeadsToTheSame(w: World, process: Image, c: Choice, steps: nat)
    requires Stuck(w, process) && ChoiceFits(w, process, c) && OneFilePerWidth(ImageOf(w, process).variants)
    ensures var end := Cut(w, process, c, steps);
            && Stuck(end, process) && ImageOf(end, process) == ImageOf(w, process)
            && StuckOutcome(end, process) == StuckOutcome(w, process)
  {
    var m, order, content, image := w.media, w.media.order.value, UploadOf(w), ImageOf(w, process);
    var end := Cut(w, process, c, steps);
    StuckStays(w, process, c, steps);
    if steps == 0 {
      assert Prefix(Plan(w, process, c), 0) == [];
    } else {
      StuckCut(w, process, c, steps);
      StuckCutStored(w, process, c, steps);
      FilesDependOnId(m, end.media, order, image.variants, |image.variants|);
      if !Clash(w.objects, PutOriginal(m, order, content, image)) {
        PartlyStoredLeadsToAll(w.objects, end.objects, m, order, content, image);
      }
      assert Do(end, MarkProcessing) == end;
    }
  }

  /** A stuck upload converges too: however often and wherever its runs were cut, a complete run
      leaves the same row, audits and files. */
  lemma {:induction false} StuckConvergence(w: World, process: Image, runs: seq<Interrupted>, last: Choice)
    requires Stuck(w, process) && OneFilePerWidth(ImageOf(w, process).variants)
    requires Fits(w, process, runs) && ChoiceFits(After(w, process, runs), process, last)
    ensures Complete(After(w, process, runs), process, last) == StuckOutcome(w, process)
    decreases |runs|
  {
    if runs == [] {
      StuckComplete(w, process, last);
    } else {
      StuckLeadsToTheSame(w, process, runs[0].choice, runs[0].steps);
      StuckConvergence(Cut(w, process, runs[0].choice, runs[0].steps), process, runs[1..], last);
    }
  }
}
