/** The sizes of an image's variants, and the images whose variants get in each other's way
    (lib/media/image-processor.ts, lib/media/policy.ts). */
module MediaSizes {

  import opened Wrappers
  import opened MediaWorker
  import opened MediaConvergence

  const MAX_HEIGHT := 2400
  const MAX_PIXELS := 50_000_000

  datatype Size = Size(width: nat, height: nat)

  /** To the nearest integer. */
  function Rounded(n: nat, d: nat): nat
    requires d > 0
  {
    (2 * n + d) / (2 * d)
  }

  function AtLeastOne(n: nat): nat { if n == 0 then 1 else n }

  /** Whether the target width, and not the greatest height, limits the variant. */
  predicate WidthLimits(width: nat, height: nat, target: nat) { target * height <= MAX_HEIGHT * width }

  /** Fitted inside the target width and the greatest height, in proportion, never enlarged. */
  function Inside(width: nat, height: nat, target: nat): Size
    requires 0 < target <= width && height > 0
  {
    if WidthLimits(width, height, target) then Size(target, AtLeastOne(Rounded(height * target, width)))
    else Size(AtLeastOne(Rounded(width * MAX_HEIGHT, height)), MAX_HEIGHT)
  }

  /** The target widths 480, 960 and 1600, none wider than the image, each once. */
  function Targets(width: nat): seq<nat>
    requires width > 0
  {
    if width <= 480 then [width] else if width <= 960 then [480, width]
    else if width <= 1600 then [480, 960, width] else [480, 960, 1600]
  }

  function Lesser(a: nat, b: nat): nat { if a < b then a else b }

  /** The targets are the widths 480, 960 and 1600, or the image's own where it is narrower, smallest first. */
  lemma TargetsAre(width: nat)
    requires width > 0
    ensures var targets := Targets(width);
            && (forall t :: t in targets <==> t == Lesser(width, 480) || t == Lesser(width, 960) || t == Lesser(width, 1600))
            && forall i, j :: 0 <= i < j < |targets| ==> targets[i] < targets[j]
  {
    var targets := Targets(width);
    assert targets[0] in targets && targets[|targets| - 1] in targets;
    if |targets| == 3 { assert targets[1] in targets; }
  }

  /** A variant lies within its target width and 2400 high and reaches one of the two, which one is decided
      by the image's shape. The other side is the nearest to proportion, but at least 1. */
  lemma InsideIs(width: nat, height: nat, target: nat)
    requires 0 < target <= width && height > 0
    ensures var a := Inside(width, height, target);
            if target * height <= 2400 * width then a.width == target && Proportional(a.height, height * target, width)
            else a.height == 2400 && Proportional(a.width, width * 2400, height)
  {
    Nearest(height * target, width);
    Nearest(width * 2400, height);
  }

  /** The integer nearest to `n / d`, halves rounded up, but at least 1. */
  predicate Proportional(side: nat, n: nat, d: nat) {
    side >= 1 && 2 * n < (2 * side + 1) * d && (side > 1 ==> (2 * side - 1) * d <= 2 * n)
  }

  lemma Nearest(n: nat, d: nat)
    requires d > 0
    ensures Proportional(AtLeastOne(Rounded(n, d)), n, d)
  {
    var r := Rounded(n, d);
    Divided(2 * n + d, 2 * d);
    assert 2 * d * r <= 2 * n + d < 2 * d * r + 2 * d;
    assert (2 * r + 1) * d == 2 * d * r + d && (2 * r - 1) * d == 2 * d * r - d;
  }

  lemma Divided(n: nat, d: nat)
    requires d > 0
    ensures d * (n / d) <= n < d * (n / d) + d
  {
  }

  /** Of equal sizes one is kept. */
  function Kept(sizes: seq<Size>): seq<Size> {
    if sizes == [] then []
    else
      var before := Kept(sizes[..|sizes| - 1]);
      if sizes[|sizes| - 1] in before then before else before + [sizes[|sizes| - 1]]
  }

  function Sizes(width: nat, height: nat): seq<Size>
    requires width > 0 && height > 0
  {
    var targets := Targets(width);
    Kept(seq(|targets|, i requires 0 <= i < |targets| => Inside(width, height, targets[i])))
  }

  /** Two kept sizes of one width, which one storage path must hold. */
  ghost predicate ShareAPath(width: nat, height: nat)
    requires width > 0 && height > 0
  {
    exists a, b :: a in Sizes(width, height) && b in Sizes(width, height) && a.width == b.width && a.height != b.height
  }

  /** Some target limits by width, another is limited by height, and both round
      to one width but not to one height. */
  ghost predicate RoundsTogether(width: nat, height: nat)
    requires width > 0 && height > 0
  {
    exists t, u :: t in Targets(width) && u in Targets(width) && WidthLimits(width, height, t) && !WidthLimits(width, height, u)
      && Inside(width, height, t).width == Inside(width, height, u).width && Inside(width, height, t).height != MAX_HEIGHT
  }

  lemma {:induction false} KeptAreThose(sizes: seq<Size>)
    ensures forall z :: z in Kept(sizes) <==> z in sizes
  {
    if sizes != [] {
      KeptAreThose(sizes[..|sizes| - 1]);
      assert sizes == sizes[..|sizes| - 1] + [sizes[|sizes| - 1]];
    }
  }

  lemma SizesAreThose(width: nat, height: nat)
    requires width > 0 && height > 0
    ensures forall z :: z in Sizes(width, height) <==> exists t :: t in Targets(width) && z == Inside(width, height, t)
  {
    var targets := Targets(width);
    var all := seq(|targets|, i requires 0 <= i < |targets| => Inside(width, height, targets[i]));
    KeptAreThose(all);
    forall t | t in targets ensures Inside(width, height, t) in all {
      var i :| 0 <= i < |targets| && targets[i] == t;
      assert all[i] == Inside(width, height, t);
    }
    forall z | z in all ensures exists t :: t in targets && z == Inside(width, height, t) {
      var i :| 0 <= i < |all| && all[i] == z;
      assert targets[i] in targets;
    }
  }

  lemma SizeHasTarget(width: nat, height: nat, z: Size) returns (t: nat)
    requires width > 0 && height > 0 && z in Sizes(width, height)
    ensures t in Targets(width) && z == Inside(width, height, t)
  {
    SizesAreThose(width, height);
    t :| t in Targets(width) && z == Inside(width, height, t);
  }

  lemma SharedIsRoundedTogether(width: nat, height: nat)
    requires width > 0 && height > 0
    ensures ShareAPath(width, height) ==> RoundsTogether(width, height)
  {
    if ShareAPath(width, height) {
      var a, b :| a in Sizes(width, height) && b in Sizes(width, height) && a.width == b.width && a.height != b.height;
      var t := SizeHasTarget(width, height, a);
      var u := SizeHasTarget(width, height, b);
    }
  }

  /** The other way round: such targets give two kept sizes. */
  lemma RoundedTogetherShares(width: nat, height: nat)
    requires width > 0 && height > 0
    ensures RoundsTogether(width, height) ==> ShareAPath(width, height)
  {
    SizesAreThose(width, height);
    if RoundsTogether(width, height) {
      var t, u :| t in Targets(width) && u in Targets(width) && WidthLimits(width, height, t) && !WidthLimits(width, height, u)
        && Inside(width, height, t).width == Inside(width, height, u).width && Inside(width, height, t).height != MAX_HEIGHT;
      var a, b := Inside(width, height, t), Inside(width, height, u);
      assert a in Sizes(width, height) && b in Sizes(width, height) && a.width == b.width && a.height != b.height;
    }
  }

  /** Which images those are, by their width and height alone. */
  lemma SharedPathExactlyWhenRoundedTogether(width: nat, height: nat)
    requires width > 0 && height > 0
    ensures ShareAPath(width, height) <==> RoundsTogether(width, height)
  {
    SharedIsRoundedTogether(width, height);
    RoundedTogetherShares(width, height);
  }

  /** The variants of an image have these sizes. */
  ghost predicate HaveSizes(variants: seq<Variant>, sizes: seq<Size>) {
    |variants| == |sizes| && forall i :: 0 <= i < |sizes| ==> Size(variants[i].width, variants[i].height) == sizes[i]
  }

  ghost predicate UnequalFiles(variants: seq<Variant>) {
    forall v, u :: v in variants && u in variants && v.width == u.width && v.height != u.height ==> v.content.size != u.content.size
  }

  /** Nothing of the upload has been stored yet. */
  ghost predicate NothingStored(w: World) {
    forall k: Key :: (Private, k) !in w.objects
  }

  /** An accepted image, with nothing stored and unequal files, is stuck exactly when it rounds so. */
  lemma StuckExactlyWhenRoundedTogether(w: World, process: Image, width: nat, height: nat)
    requires Accepts(w, process) && width > 0 && height > 0 && HaveSizes(ImageOf(w, process).variants, Sizes(width, height))
    requires UnequalFiles(ImageOf(w, process).variants) && NothingStored(w)
    ensures Stuck(w, process) <==> RoundsTogether(width, height)
  {
    SharedPathExactlyWhenRoundedTogether(width, height);
    SharingVariantsStick(w, process, width, height);
    StickingVariantsShare(w, process, width, height);
  }

  lemma {:induction false} KeptAreDistinct(sizes: seq<Size>)
    ensures forall i, j :: 0 <= i < j < |Kept(sizes)| ==> Kept(sizes)[i] != Kept(sizes)[j]
  {
    if sizes != [] {
      KeptAreDistinct(sizes[..|sizes| - 1]);
    }
  }

  lemma SizesAreDistinct(width: nat, height: nat)
    requires width > 0 && height > 0
    ensures forall i, j :: 0 <= i < j < |Sizes(width, height)| ==> Sizes(width, height)[i] != Sizes(width, height)[j]
  {
    var targets := Targets(width);
    KeptAreDistinct(seq(|targets|, i requires 0 <= i < |targets| => Inside(width, height, targets[i])));
  }

  lemma StickingVariantsShare(w: World, process: Image, width: nat, height: nat)
    requires Accepts(w, process) && width > 0 && height > 0 && HaveSizes(ImageOf(w, process).variants, Sizes(width, height))
    requires NothingStored(w)
    ensures Stuck(w, process) ==> ShareAPath(width, height)
  {
    var variants := ImageOf(w, process).variants;
    if Stuck(w, process) {
      var i, j :| 0 <= i < |variants| && 0 <= j < |variants| && SamePath(variants[i], variants[j]);
      SizesAreDistinct(width, height);
      var a, b := Sizes(width, height)[i], Sizes(width, height)[j];
      assert a in Sizes(width, height) && b in Sizes(width, height) && a.width == b.width && a.height != b.height;
    }
  }

  lemma SharingVariantsStick(w: World, process: Image, width: nat, height: nat)
    requires Accepts(w, process) && width > 0 && height > 0 && HaveSizes(ImageOf(w, process).variants, Sizes(width, height))
    requires UnequalFiles(ImageOf(w, process).variants)
    ensures ShareAPath(width, height) ==> Stuck(w, process)
  {
    var variants := ImageOf(w, process).variants;
    if ShareAPath(width, height) {
      var a, b :| a in Sizes(width, height) && b in Sizes(width, height) && a.width == b.width && a.height != b.height;
      var i :| 0 <= i < |variants| && Sizes(width, height)[i] == a;
      var j :| 0 <= j < |variants| && Sizes(width, height)[j] == b;
      assert variants[i] in variants && variants[j] in variants;
      assert SamePath(variants[i], variants[j]);
    }
  }

  /** A tall image within the pixel limit whose two variants are 480 wide, 2399 and 2400 high. */
  lemma TallImageSharesAPath()
    ensures 2001 * 10000 <= MAX_PIXELS && RoundsTogether(2001, 10000)
    ensures Inside(2001, 10000, 480) == Size(480, 2399) && Inside(2001, 10000, 960) == Size(480, 2400)
    ensures Inside(2001, 10000, 1600) == Size(480, 2400)
  {
    assert Targets(2001) == [480, 960, 1600];
    assert 480 in Targets(2001) && 960 in Targets(2001);
    assert WidthLimits(2001, 10000, 480) && !WidthLimits(2001, 10000, 960);
  }

  /** An upload of that image as it waits in quarantine. No run publishes or rejects it. */
  lemma TallUploadIsStuck() returns (w: World, process: Image)
    ensures Accepts(w, process) && Stuck(w, process) && w.objects.Keys == {(Quarantine, w.media.key)}
    ensures HaveSizes(ImageOf(w, process).variants, [Size(480, 2399), Size(480, 2400)])
    ensures forall runs :: Fits(w, process, runs) ==> After(w, process, runs).media.state == Processing
  {
    var upload := Content(3, 0);
    var variants := [Variant(480, 2399, Content(1, 1), 1), Variant(480, 2400, Content(2, 2), 2)];
    process := content => Accepted(Jpeg, 2001, 10000, 0, 1, variants);
    var media := Media(7, Some(5), false, true, Some(Jpeg), Processing, None, Quarantine, Upload(0), Some(Upload(0)), 3, None);
    w := World(media, map[], map[(Quarantine, Upload(0)) := upload], [], None, false);
    assert SamePath(variants[0], variants[1]);
    forall runs | Fits(w, process, runs) ensures After(w, process, runs).media.state == Processing {
      StuckForever(w, process, runs);
      StuckRunsProcess(w, process, runs);
    }
  }

  lemma {:induction false} StuckRunsProcess(w: World, process: Image, runs: seq<Interrupted>)
    requires Stuck(w, process) && Fits(w, process, runs) && w.media.state == Processing
    ensures After(w, process, runs).media.state == Processing
    decreases |runs|
  {
    if runs != [] {
      var end := Cut(w, process, runs[0].choice, runs[0].steps);
      StuckStays(w, process, runs[0].choice, runs[0].steps);
      if runs[0].steps > 0 {
        StuckCut(w, process, runs[0].choice, runs[0].steps);
      } else {
        assert Prefix(Plan(w, process, runs[0].choice), 0) == [];
      }
      StuckRunsProcess(end, process, runs[1..]);
    }
  }
}
