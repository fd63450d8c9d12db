/** What the processing of an upload comes to, row by row: the published rows and the files they name,
    and exactly which uploads are rejected (lib/media/worker.ts). */
module MediaOutcomes {

  import opened Wrappers
  import opened MediaWorker
  import opened MediaConvergence

  // ----- Published images -----

  /** The row of a width names the file stored for that width, and describes a variant of it. */
  ghost predicate NamesItsFile(row: VariantRow, width: nat, order: Id, media: Id, variants: seq<Variant>,
                               objects: map<(Bucket, Key), Content>)
  {
    && row.key == Sized(order, media, width) && (Private, row.key) in objects && objects[(Private, row.key)].size == row.bytes
    && exists i :: 0 <= i < |variants| && Describes(row, width, variants[i])
  }

  predicate Describes(row: VariantRow, width: nat, v: Variant) {
    v.width == width && row.height == v.height && row.bytes == v.content.size && row.checksum == v.checksum
  }

  /** Rows that were there stay as they are. Every other row describes the variant of its width and
      recipe, under that width's path, and every variant has a row. */
  lemma {:induction false} InsertedRowsDescribe(rows: map<(nat, nat), VariantRow>, order: Id, media: Id, image: Inspection, n: nat)
    requires image.Accepted? && n <= |image.variants|
    ensures var after := Inserted(rows, order, media, image, n);
            && (forall k :: k in rows ==> k in after && after[k] == rows[k])
            && (forall k :: k in after && k !in rows ==> NewRow(k, after[k], order, media, image, n))
            && (forall i :: 0 <= i < n ==> (image.recipe, image.variants[i].width) in after)
  {
    if n > 0 {
      InsertedRowsDescribe(rows, order, media, image, n - 1);
      var before, after := Inserted(rows, order, media, image, n - 1), Inserted(rows, order, media, image, n);
      forall k | k in after && k !in rows ensures NewRow(k, after[k], order, media, image, n) {
        if k in before {
          assert NewRow(k, before[k], order, media, image, n - 1);
        } else {
          assert Describes(after[k], k.1, image.variants[n - 1]);
        }
      }
    }
  }

  /** A row of this recipe under its width's path that describes one of the first `n` variants. */
  ghost predicate NewRow(k: (nat, nat), row: VariantRow, order: Id, media: Id, image: Inspection, n: nat)
    requires image.Accepted? && n <= |image.variants|
  {
    k.0 == image.recipe && row.key == Sized(order, media, k.1) && exists i :: 0 <= i < n && Describes(row, k.1, image.variants[i])
  }

  /** Every variant's path holds content of its size once all files are stored. */
  lemma StoredFileFits(objects: map<(Bucket, Key), Content>, m: Media, content: Content, image: Inspection, i: nat)
    requires m.order.Some? && image.Accepted? && Storable(objects, m, content, image) && i < |image.variants|
    ensures var all, v := AllStored(objects, m, m.order.value, content, image), image.variants[i];
            var b := (Private, Sized(m.order.value, m.id, v.width));
            b in all && all[b].size == v.content.size && (b !in objects ==> all[b] == v.content)
  {
    FilesAre(m, m.order.value, image.variants, |image.variants|);
    assert !Clash(objects, PutVariant(m, m.order.value, image.variants[i]));
  }

  /** An accepted upload's image as published: the validated original under its own path, with the facts that the
      processor found, and nothing else of the row changed. */
  ghost predicate PublishedRow(m: Media, end: Media, upload: Content, image: Inspection)
    requires m.order.Some? && image.Accepted?
  {
    && end.state == Ready && end.failure == None && end.bucket == Private && end.key == Original(m.order.value, m.id, image.kind)
    && end.bytes == upload.size
    && end.facts.Some? && end.facts.value.kind == image.kind && end.facts.value.width == image.width
    && end.facts.value.height == image.height && end.facts.value.checksum == image.checksum && end.facts.value.recipe == image.recipe
    && end.id == m.id && end.order == m.order && end.catalog == m.catalog && end.finalized == m.finalized && end.claimed == m.claimed
    && end.claimed == Some(image.kind) && end.quarantineKey == None
  }

  /** Whatever runs were cut before: after a complete run and a sweep an accepted upload is published with
      its facts, its original is stored under the published path, every new variant row names a stored
      file of its width with the size, height and checksum of a variant of that width, and no
      variant is without a row. */
  lemma PublishedRowsNameTheirFiles(w: World, process: Image, runs: seq<Interrupted>, last: Choice)
    requires Sound(w, process) && Accepts(w, process) && Fits(w, process, runs) && ChoiceFits(After(w, process, runs), process, last)
    ensures var end, image, order := Swept(Complete(After(w, process, runs), process, last)), ImageOf(w, process), w.media.order.value;
            && PublishedRow(w.media, end.media, UploadOf(w), image)
            && (Private, end.media.key) in end.objects && end.objects[(Private, end.media.key)].size == UploadOf(w).size
            && (forall k :: k in w.variants ==> k in end.variants && end.variants[k] == w.variants[k])
            && (forall k :: k in end.variants && k !in w.variants ==>
                  k.0 == image.recipe && NamesItsFile(end.variants[k], k.1, order, w.media.id, image.variants, end.objects))
            && (forall i :: 0 <= i < |image.variants| ==> (image.recipe, image.variants[i].width) in end.variants)
  {
    InterruptedRunsLeadToTheSame(w, process, runs);
    CompleteRunThenSweep(After(w, process, runs), process, last);
    FinalRowsNameTheirFiles(w, process);
  }

  lemma FinalRowsNameTheirFiles(w: World, process: Image)
    requires Sound(w, process) && Accepts(w, process)
    ensures var end, image, order := Final(w, process), ImageOf(w, process), w.media.order.value;
            && PublishedRow(w.media, end.media, UploadOf(w), image)
            && (Private, end.media.key) in end.objects && end.objects[(Private, end.media.key)].size == UploadOf(w).size
            && (forall k :: k in w.variants ==> k in end.variants && end.variants[k] == w.variants[k])
            && (forall k :: k in end.variants && k !in w.variants ==>
                  k.0 == image.recipe && NamesItsFile(end.variants[k], k.1, order, w.media.id, image.variants, end.objects))
            && (forall i :: 0 <= i < |image.variants| ==> (image.recipe, image.variants[i].width) in end.variants)
  {
    var end, image, order, m := Final(w, process), ImageOf(w, process), w.media.order.value, w.media;
    FinalIs(w, process);
    InsertedRowsDescribe(w.variants, order, m.id, image, |image.variants|);
    OriginalFits(w.objects, m, UploadOf(w), image);
    forall k | k in end.variants && k !in w.variants
      ensures NamesItsFile(end.variants[k], k.1, order, m.id, image.variants, end.objects)
    {
      NewRowNamesItsFile(w, process, k, end.variants[k], end.objects);
    }
  }

  lemma OriginalFits(objects: map<(Bucket, Key), Content>, m: Media, content: Content, image: Inspection)
    requires m.order.Some? && image.Accepted? && Storable(objects, m, content, image)
    ensures var all, b := AllStored(objects, m, m.order.value, content, image), (Private, Original(m.order.value, m.id, image.kind));
            b in all && all[b].size == content.size
  {
    assert !Clash(objects, PutOriginal(m, m.order.value, content, image));
  }

  lemma NewRowNamesItsFile(w: World, process: Image, k: (nat, nat), row: VariantRow, objects: map<(Bucket, Key), Content>)
    requires Sound(w, process) && Accepts(w, process)
    requires var image := ImageOf(w, process); NewRow(k, row, w.media.order.value, w.media.id, image, |image.variants|)
    requires forall b: (Bucket, Key) :: b.0 == Private ==>
               var all := AllStored(w.objects, w.media, w.media.order.value, UploadOf(w), ImageOf(w, process));
               (b in objects <==> b in all) && (b in objects ==> objects[b] == all[b])
    ensures NamesItsFile(row, k.1, w.media.order.value, w.media.id, ImageOf(w, process).variants, objects)
  {
    var image := ImageOf(w, process);
    var i: nat :| i < |image.variants| && Describes(row, k.1, image.variants[i]);
    StoredFileFits(w.objects, w.media, UploadOf(w), image, i);
  }

  /** The outcome of an accepted upload, part by part. */
  lemma FinalIs(w: World, process: Image)
    requires Sound(w, process) && Accepts(w, process)
    ensures var end, image, order := Final(w, process), ImageOf(w, process), w.media.order.value;
            && end.media == Published(Do(w, MarkProcessing).media, order, UploadOf(w).size, image).(quarantineKey := None)
            && end.variants == Inserted(w.variants, order, w.media.id, image, |image.variants|)
            && forall b: (Bucket, Key) :: b.0 == Private ==>
                 (b in end.objects <==> b in AllStored(w.objects, w.media, order, UploadOf(w), image))
                 && (b in end.objects ==> end.objects[b] == AllStored(w.objects, w.media, order, UploadOf(w), image)[b])
  {
    QueuedIs(PublishedFrom(w, process));
  }

  /** How far removing the upload got decides what is left to the sweep: the copy and its key, the key alone, or nothing. */
  lemma RemovalIs(w: World, process: Image, c: Choice)
    requires Sound(w, process) && Accepts(w, process) && ChoiceFits(w, process, c) && w.media.quarantineKey == Some(w.media.key)
    ensures var end := Complete(w, process, c);
            && end.media.state == Ready
            && ((Quarantine, w.media.key) in end.objects <==> c.removal == NotRemoved)
            && (end.media.quarantineKey == None <==> c.removal == Cleared)
            && (end.media.quarantineKey.Some? ==> end.media.quarantineKey == w.media.quarantineKey)
  {
    AcceptingRunIs(w, process, c);
    var published, m := PublishedFrom(w, process), w.media;
    DoAllAppend(published, RemovalSteps(m, c.removal), BackupSteps(m));
    var removed := DoAll(published, RemovalSteps(m, c.removal));
    RemovedIs(published, m, c.removal);
    if BackupSteps(m) != [] { OneAction(removed, BackupSteps(m)[0]); }
  }

  lemma RemovedIs(published: World, m: Media, removal: Removal)
    requires m.quarantineKey.Some?
    ensures var removed, key := DoAll(published, RemovalSteps(m, removal)), m.quarantineKey.value;
            removed == match removal
                       case NotRemoved => published
                       case RemovedOnly => published.(objects := published.objects - {(m.bucket, key)})
                       case Cleared => published.(objects := published.objects - {(m.bucket, key)},
                                                  media := published.media.(quarantineKey := None))
  {
    var remove := RemoveUpload(m.bucket, m.quarantineKey.value);
    if removal == RemovedOnly {
      OneAction(published, remove);
    } else if removal == Cleared {
      assert [remove, ClearKey][1..] == [ClearKey];
      OneAction(Do(published, remove), ClearKey);
    }
  }

  /** Such runs exist: variants may land in their own order. */
  lemma SomeRunFits(w: World, process: Image, removal: Removal) returns (c: Choice)
    ensures ChoiceFits(w, process, c) && c.removal == removal
  {
    var n := |Candidates(w, process)|;
    var arrival := seq(n, i requires 0 <= i < n => i);
    forall v: nat | v < n ensures v in arrival {
      assert arrival[v] == v;
    }
    c := Choice(arrival, removal);
  }

  // ----- Uploads that are refused -----

  /** Why an upload is refused: another type than was claimed, or what the processor says. */
  function Refusal(w: World, process: Image): Option<Code> {
    if !Pending(w.media) || (w.media.bucket, w.media.key) !in w.objects then None
    else
      match process(w.objects[(w.media.bucket, w.media.key)])
      case Refused(code) => Some(code)
      case Accepted(kind, _, _, _, _, _) => if w.media.claimed == Some(kind) then None else Some(TypeMismatch)
  }

  /** Whatever runs were cut before: an upload that is refused ends rejected with the reason and one audit of
      it, and nothing is stored or published; with its file missing it is only marked, and an image
      that is neither pending nor published is left alone. */
  lemma RefusedUploadsEndRejected(w: World, process: Image, runs: seq<Interrupted>, last: Choice)
    requires Sound(w, process) && !Accepts(w, process) && w.media.state != Ready
    requires Fits(w, process, runs) && ChoiceFits(After(w, process, runs), process, last)
    ensures var end, code := Swept(Complete(After(w, process, runs), process, last)), Refusal(w, process);
            && end.variants == w.variants && end.objects == w.objects && end.backup == w.backup && end.backupJob == w.backupJob
            && (code.Some? ==>
                  && end.media == w.media.(state := Rejected, failure := code) && end.audits == w.audits + [Failed(code.value)])
            && (code.None? && Pending(w.media) ==>
                  end.media == w.media.(state := Processing, failure := None) && end.audits == w.audits)
            && (!Pending(w.media) ==> end == w)
  {
    InterruptedRunsLeadToTheSame(w, process, runs);
    CompleteRunThenSweep(After(w, process, runs), process, last);
  }

  /** An upload is accepted exactly when it is pending, its file is there and the processor accepts it as the
      type that was claimed. */
  lemma AcceptedExactlyWhen(w: World, process: Image)
    ensures Accepts(w, process) <==>
              && (w.media.state == Quarantined || w.media.state == MediaState.Processing) && w.media.order.Some? && w.media.finalized
              && (w.media.bucket, w.media.key) in w.objects
              && var image := process(w.objects[(w.media.bucket, w.media.key)]);
              image.Accepted? && w.media.claimed == Some(image.kind)
  {
  }

  /** A published image gets its backup if it is not catalog artwork, once, and loses its quarantine copy; nothing
      else of it ever changes. */
  lemma PublishedStaysAsItIs(w: World, process: Image, runs: seq<Interrupted>, last: Choice)
    requires w.media.state == Ready && Fits(w, process, runs) && ChoiceFits(After(w, process, runs), process, last)
    ensures var end := Swept(Complete(After(w, process, runs), process, last));
            && end.media == w.media.(quarantineKey := None) && end.variants == w.variants && end.audits == w.audits
            && (w.media.order.Some? && !w.media.catalog ==>
                  end.backupJob && end.backup == (if w.backup.Some? then w.backup else w.media.order))
            && (w.media.order.None? || w.media.catalog ==> end.backup == w.backup && end.backupJob == w.backupJob)
            && (forall b :: b in end.objects <==> b in w.objects && !QuarantineCopy(w.media, b))
            && (forall b :: b in end.objects ==> end.objects[b] == w.objects[b])
  {
    InterruptedRunsLeadToTheSame(w, process, runs);
    CompleteRunThenSweep(After(w, process, runs), process, last);
    SweptIs(w);
  }

  predicate QuarantineCopy(m: Media, b: (Bucket, Key)) { m.quarantineKey.Some? && b == (Quarantine, m.quarantineKey.value) }

  lemma SweptIs(w: World)
    requires w.media.state == Ready
    ensures var end := Swept(Queued(w));
            && end.media == w.media.(quarantineKey := None) && end.variants == w.variants && end.audits == w.audits
            && (w.media.order.Some? && !w.media.catalog ==>
                  end.backupJob && end.backup == (if w.backup.Some? then w.backup else w.media.order))
            && (w.media.order.None? || w.media.catalog ==> end.backup == w.backup && end.backupJob == w.backupJob)
            && (forall b :: b in end.objects <==> b in w.objects && !QuarantineCopy(w.media, b))
            && (forall b :: b in end.objects ==> end.objects[b] == w.objects[b])
  {
    QueuedIs(w);
  }
}
