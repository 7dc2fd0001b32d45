/** The pairing backport as a run over a tree of files: classify, refuse or write, and report. */
module PairingPatch {
  import opened PatchText
  import opened AtomicWrite

  ghost predicate AllWellFormed(ps: seq<Patch>) { forall i :: 0 <= i < |ps| ==> WellFormed(ps[i]) }

  function Shapes(ps: seq<Patch>, tree: seq<string>): seq<Shape>
    requires |tree| == |ps| && forall i :: 0 <= i < |ps| ==> WellFormed(ps[i])
  {
    seq(|ps|, i requires 0 <= i < |ps| => Shown(ps[i], tree[i]))
  }

  predicate All(shapes: seq<Shape>, shape: Shape) { forall i :: 0 <= i < |shapes| ==> shapes[i] == shape }

  /** items.filter(item => item.state === 'applied').length */
  function CountApplied(shapes: seq<Shape>): nat {
    if shapes == [] then 0
    else CountApplied(shapes[..|shapes| - 1]) + if shapes[|shapes| - 1] == Applied then 1 else 0
  }

  /** The first files patched and the rest pristine, which only an interrupted run leaves. */
  predicate CutShort(shapes: seq<Shape>) {
    var patched := CountApplied(shapes);
    patched > 0 && forall i :: 0 <= i < |shapes| ==> shapes[i] == if i < patched then Applied else Pristine
  }

  function PatchedTree(ps: seq<Patch>, tree: seq<string>, k: nat): (t: seq<string>)
    requires |tree| == |ps| && forall i :: 0 <= i < |ps| ==> WellFormed(ps[i])
    ensures |t| == |tree|
  {
    seq(|tree|, i requires 0 <= i < |tree| => if i < k then Patched(ps[i], tree[i]) else tree[i])
  }

  datatype Verdict = AlreadyApplied | Wrote | RefusedCutShort | RefusedUnknown | WriteFailed

  /** What a run concludes when `renames` of its renames would go through. */
  function Concluded(shapes: seq<Shape>, renames: nat): Verdict {
    if All(shapes, Applied) then AlreadyApplied
    else if !All(shapes, Pristine) then (if CutShort(shapes) then RefusedCutShort else RefusedUnknown)
    else if renames >= |shapes| then Wrote
    else WriteFailed
  }

  function TreeAfter(ps: seq<Patch>, tree: seq<string>, renames: nat): seq<string>
    requires |tree| == |ps| && forall i :: 0 <= i < |ps| ==> WellFormed(ps[i])
  {
    match Concluded(Shapes(ps, tree), renames)
    case Wrote => PatchedTree(ps, tree, |tree|)
    case WriteFailed => PatchedTree(ps, tree, renames)
    case _ => tree
  }

  predicate IsPartial(shapes: seq<Shape>, renames: nat) {
    match Concluded(shapes, renames)
    case RefusedCutShort => true
    case RefusedUnknown => CountApplied(shapes) > 0
    case WriteFailed => renames > 0
    case _ => false
  }

  function ExitCode(shapes: seq<Shape>, renames: nat, bestEffort: bool): int {
    match Concluded(shapes, renames)
    case AlreadyApplied => 0
    case Wrote => 0
    case _ => if bestEffort && !IsPartial(shapes, renames) then 0 else 1
  }

  // ----- what the exit code promises -----

  lemma {:induction false} CountAppliedZero(shapes: seq<Shape>)
    ensures CountApplied(shapes) == 0 <==> forall i :: 0 <= i < |shapes| ==> shapes[i] != Applied
  {
    if shapes != [] { CountAppliedZero(shapes[..|shapes| - 1]); }
  }

  lemma {:induction false} CountAppliedPrefix(shapes: seq<Shape>, k: nat)
    requires k <= |shapes| && forall i :: 0 <= i < |shapes| ==> (shapes[i] == Applied <==> i < k)
    ensures CountApplied(shapes) == k
  {
    if shapes != [] {
      var n := |shapes| - 1;
      CountAppliedPrefix(shapes[..n], if k <= n then k else n);
    }
  }

  /**
   * A best-effort run that exits 0 leaves the tree wholly patched (already, or by this run), or as
   * it was with no file that reads as patched.
   */
  lemma BestEffortZeroIsWhole(ps: seq<Patch>, tree: seq<string>, renames: nat)
    requires |tree| == |ps| && AllWellFormed(ps)
    requires ExitCode(Shapes(ps, tree), renames, true) == 0
    ensures var after := TreeAfter(ps, tree, renames);
      || (after == tree && All(Shapes(ps, tree), Applied))
      || (after == PatchedTree(ps, tree, |tree|) && All(Shapes(ps, tree), Pristine))
      || (after == tree && forall i :: 0 <= i < |ps| ==> Shown(ps[i], tree[i]) != Applied)
  {
    var shapes := Shapes(ps, tree);
    CountAppliedZero(shapes);
    if Concluded(shapes, renames).WriteFailed? {
      assert PatchedTree(ps, tree, 0) == tree;
      forall i | 0 <= i < |ps| ensures Shown(ps[i], tree[i]) != Applied { assert shapes[i] == Pristine; }
    } else if Concluded(shapes, renames).RefusedUnknown? {
      forall i | 0 <= i < |ps| ensures Shown(ps[i], tree[i]) != Applied { assert shapes[i] != Applied; }
    }
  }

  /** Without best effort only a tree that ends wholly patched exits 0. */
  lemma StrictZeroIsPatched(ps: seq<Patch>, tree: seq<string>, renames: nat)
    requires |tree| == |ps| && AllWellFormed(ps)
    requires ExitCode(Shapes(ps, tree), renames, false) == 0
    ensures All(Shapes(ps, tree), Applied) || TreeAfter(ps, tree, renames) == PatchedTree(ps, tree, |tree|)
  {
  }

  /**
   * Exactly when a run exits 0: the tree is patched already, or this run patched all of it; or with best
   * effort, when no file reads as patched and none has been replaced.
   */
  lemma ExitZeroIff(shapes: seq<Shape>, renames: nat, bestEffort: bool)
    ensures ExitCode(shapes, renames, bestEffort) == 0 <==>
      || All(shapes, Applied)
      || (All(shapes, Pristine) && renames >= |shapes|)
      || (bestEffort && (forall i :: 0 <= i < |shapes| ==> shapes[i] != Applied) && (All(shapes, Pristine) ==> renames == 0))
    ensures ExitCode(shapes, renames, bestEffort) == 0 || ExitCode(shapes, renames, bestEffort) == 1
  {
    CountAppliedZero(shapes);
    if shapes != [] && All(shapes, Pristine) { assert shapes[0] == Pristine; }
  }

  lemma NotBoth(shapes: seq<Shape>)
    ensures shapes == [] || !All(shapes, Applied) || !All(shapes, Pristine)
  {
    if shapes != [] && All(shapes, Applied) { assert shapes[0] == Applied; }
  }

  /** Exactly what a run writes: of a pristine tree the files whose renames went through, of any other nothing. */
  lemma WritesLaw(ps: seq<Patch>, tree: seq<string>, renames: nat)
    requires |tree| == |ps| && AllWellFormed(ps)
    ensures TreeAfter(ps, tree, renames) == if All(Shapes(ps, tree), Pristine) then PatchedTree(ps, tree, renames) else tree
  {
    NotBoth(Shapes(ps, tree));
    if renames >= |tree| { assert PatchedTree(ps, tree, renames) == PatchedTree(ps, tree, |tree|); }
  }

  // ----- running again -----

  /** Which of the first `k` files keep no anchor across the cut. */
  function Clean(ps: seq<Patch>, tree: seq<string>, k: nat): seq<bool>
    requires k <= |tree| == |ps| && forall i :: 0 <= i < |ps| ==> WellFormed(ps[i])
  {
    seq(k, i requires 0 <= i < k => LeavesNoAnchor(ps[i], tree[i]))
  }

  predicate Each(bs: seq<bool>) { forall i :: 0 <= i < |bs| ==> bs[i] }

  predicate LeftBy(shapes: seq<Shape>, clean: seq<bool>) {
    && |clean| <= |shapes|
    && forall i :: 0 <= i < |shapes| ==>
         shapes[i] == if i >= |clean| then Pristine else if clean[i] then Applied else Unknown
  }

  lemma ShapesAfterRenames(ps: seq<Patch>, tree: seq<string>, k: nat)
    requires k <= |tree| == |ps| && AllWellFormed(ps) && All(Shapes(ps, tree), Pristine)
    ensures LeftBy(Shapes(ps, PatchedTree(ps, tree, k)), Clean(ps, tree, k))
  {
    forall i | 0 <= i < |ps|
      ensures Shapes(ps, PatchedTree(ps, tree, k))[i] ==
        if i >= k then Pristine else if Clean(ps, tree, k)[i] then Applied else Unknown
    {
      assert Shapes(ps, tree)[i] == Pristine;
      if i < k { PatchedReadsAppliedIff(ps[i], tree[i]); }
    }
  }

  lemma MixedShapes(shapes: seq<Shape>, clean: seq<bool>)
    requires LeftBy(shapes, clean) && 0 < |clean| < |shapes|
    ensures !All(shapes, Applied) && !All(shapes, Pristine)
    ensures CutShort(shapes) <==> Each(clean)
  {
    assert shapes[0] != Pristine && shapes[|shapes| - 1] == Pristine;
    if Each(clean) {
      CountAppliedPrefix(shapes, |clean|);
    } else {
      var i :| 0 <= i < |clean| && !clean[i];
      assert shapes[i] == Unknown;
    }
  }

  /** A write that stops between two renames fails, also with best effort, and leaves the first files patched. */
  lemma PartialWriteFails(ps: seq<Patch>, tree: seq<string>, k: nat)
    requires |tree| == |ps| && AllWellFormed(ps) && All(Shapes(ps, tree), Pristine) && 0 < k < |ps|
    ensures TreeAfter(ps, tree, k) == PatchedTree(ps, tree, k) && ExitCode(Shapes(ps, tree), k, true) == 1
  {
    assert Shapes(ps, tree)[0] == Pristine;
  }

  lemma RefusalConcluded(shapes: seq<Shape>, clean: seq<bool>, later: nat)
    requires LeftBy(shapes, clean) && 0 < |clean| < |shapes|
    ensures Concluded(shapes, later) == if Each(clean) then RefusedCutShort else RefusedUnknown
  {
    MixedShapes(shapes, clean);
  }

  /**
   * After a write that stopped between two renames every later run is refused and writes nothing;
   * it says so, as a run cut short, exactly when no file patched so far keeps an anchor across the cut.
   */
  lemma RerunAfterPartialRefused(ps: seq<Patch>, tree: seq<string>, k: nat, later: nat)
    requires |tree| == |ps| && AllWellFormed(ps) && All(Shapes(ps, tree), Pristine) && 0 < k < |ps|
    ensures var left := PatchedTree(ps, tree, k);
      && TreeAfter(ps, left, later) == left
      && Concluded(Shapes(ps, left), later) == if Each(Clean(ps, tree, k)) then RefusedCutShort else RefusedUnknown
  {
    ShapesAfterRenames(ps, tree, k);
    RefusalConcluded(Shapes(ps, PatchedTree(ps, tree, k)), Clean(ps, tree, k), later);
  }

  /** A completed run is recognised as applied by the next one exactly under the same condition. */
  lemma RerunAfterSuccess(ps: seq<Patch>, tree: seq<string>, later: nat)
    requires |tree| == |ps| && AllWellFormed(ps) && All(Shapes(ps, tree), Pristine) && ps != []
    ensures Concluded(Shapes(ps, PatchedTree(ps, tree, |ps|)), later) == AlreadyApplied <==> Each(Clean(ps, tree, |ps|))
  {
    ShapesAfterRenames(ps, tree, |ps|);
    AppliedIffClean(Shapes(ps, PatchedTree(ps, tree, |ps|)), Clean(ps, tree, |ps|));
  }

  lemma AppliedIffClean(shapes: seq<Shape>, clean: seq<bool>)
    requires LeftBy(shapes, clean) && |clean| == |shapes|
    ensures All(shapes, Applied) <==> Each(clean)
  {
    if !Each(clean) {
      var i :| 0 <= i < |clean| && !clean[i];
      assert shapes[i] == Unknown;
    }
  }

  // ----- the script -----

  /** The contents of the patched files, when every one can be read. */
  predicate Readable(links: map<string, string>, files: map<string, string>, ps: seq<Patch>) {
    forall i :: 0 <= i < |ps| ==> RealPathOf(links, ps[i].file) in files
  }

  function TreeOf(links: map<string, string>, files: map<string, string>, ps: seq<Patch>): seq<string>
    requires Readable(links, files, ps)
  {
    seq(|ps|, i requires 0 <= i < |ps| => files[RealPathOf(links, ps[i].file)])
  }

  function FilesOf(ps: seq<Patch>): seq<string> { seq(|ps|, i requires 0 <= i < |ps| => ps[i].file) }

  function EntriesOf(ps: seq<Patch>, tree: seq<string>): seq<Entry>
    requires |tree| == |ps| && forall i :: 0 <= i < |ps| ==> WellFormed(ps[i])
  {
    seq(|ps|, i requires 0 <= i < |ps| => Entry(ps[i].file, Patched(ps[i], tree[i])))
  }

  /** The shapes of the files in front of the first that cannot be read. */
  function ShapesRead(links: map<string, string>, files: map<string, string>, ps: seq<Patch>): seq<Shape>
    requires AllWellFormed(ps)
  {
    if ps == [] then []
    else
      var n := |ps| - 1;
      var front := ShapesRead(links, files, ps[..n]);
      var path := RealPathOf(links, ps[n].file);
      if |front| == n && path in files then front + [Shown(ps[n], files[path])] else front
  }

  lemma {:induction false} ReadingStops(links: map<string, string>, files: map<string, string>, ps: seq<Patch>, i: nat)
    requires AllWellFormed(ps) && i < |ps| && RealPathOf(links, ps[i].file) !in files
    requires |ShapesRead(links, files, ps[..i])| == i
    ensures ShapesRead(links, files, ps) == ShapesRead(links, files, ps[..i])
  {
    var n := |ps| - 1;
    if i < n {
      assert ps[..n][..i] == ps[..i];
      ReadingStops(links, files, ps[..n], i);
    }
  }

  /** classify(): reads the files in order, and on the first unreadable one fails, partial if one before it reads as applied. */
  method Classify(disk: Disk, ps: seq<Patch>) returns (tree: seq<string>, shapes: seq<Shape>, ok: bool, partial: bool)
    requires AllWellFormed(ps)
    ensures ok <==> Readable(disk.links, disk.files, ps)
    ensures ok ==> tree == TreeOf(disk.links, disk.files, ps) && shapes == Shapes(ps, tree)
    ensures !ok ==> partial == (Applied in ShapesRead(disk.links, disk.files, ps))
  {
    tree, shapes, ok, partial := [], [], true, false;
    var i := 0;
    while i < |ps|
      invariant 0 <= i <= |ps| && |tree| == |shapes| == i
      invariant shapes == ShapesRead(disk.links, disk.files, ps[..i])
      invariant forall k :: 0 <= k < i ==>
        && RealPathOf(disk.links, ps[k].file) in disk.files
        && tree[k] == disk.files[RealPathOf(disk.links, ps[k].file)]
        && shapes[k] == Shown(ps[k], tree[k])
    {
      var path := disk.Target(ps[i].file);
      if path !in disk.files {
        ReadingStops(disk.links, disk.files, ps, i);
        return tree, shapes, false, Applied in shapes;
      }
      assert ps[..i + 1][..i] == ps[..i];
      tree := tree + [disk.files[path]];
      shapes := shapes + [Shown(ps[i], disk.files[path])];
      i := i + 1;
    }
  }

  /** run(): on distinct, readable files it leaves the tree and returns the code of the conclusion above. */
  method Run(disk: Disk, ps: seq<Patch>, bestEffort: bool, fails: Call -> bool, torn: nat -> string)
    returns (code: int, renames: nat)
    requires AllWellFormed(ps)
    modifies disk`files
    ensures var readable := Readable(disk.links, old(disk.files), ps);
      if !readable then
        && disk.files == old(disk.files)
        && code == if bestEffort && Applied !in ShapesRead(disk.links, old(disk.files), ps) then 0 else 1
      else
        var tree := TreeOf(disk.links, old(disk.files), ps);
        && code == ExitCode(Shapes(ps, tree), renames, bestEffort)
        && (disk.SeparatePaths(FilesOf(ps)) ==>
              Readable(disk.links, disk.files, ps) && TreeOf(disk.links, disk.files, ps) == TreeAfter(ps, tree, renames))
        && (disk.SeparatePaths(FilesOf(ps)) && (forall c :: !fails(c)) && All(Shapes(ps, tree), Pristine) && ps != [] ==>
              renames == |ps|)
  {
    renames := 0;
    var tree, shapes, ok, partial := Classify(disk, ps);
    if !ok {
      return if bestEffort && !partial then 0 else 1, 0;
    }
    NotBoth(shapes);
    if All(shapes, Applied) {
      return 0, 0;
    }
    if !All(shapes, Pristine) {
      var patched := CountApplied(shapes);
      return if bestEffort && patched == 0 then 0 else 1, 0;
    }
    var entries := EntriesOf(ps, tree);
    var out, replaced, _ := disk.WriteFilesAtomic(entries, fails, torn);
    renames := replaced;
    code := if out.Done? || (bestEffort && !out.partial) then 0 else 1;
    if disk.SeparatePaths(FilesOf(ps)) {
      assert forall i :: 0 <= i < |ps| ==> disk.Jobs(entries)[i].target == RealPathOf(disk.links, ps[i].file);
      disk.SeparatePathsSeparateJobs(entries, FilesOf(ps));
      WrittenTree(disk, ps, tree, old(disk.files), replaced);
    }
  }

  /** The files after `k` renames are the tree after `k` renames. */
  lemma WrittenTree(disk: Disk, ps: seq<Patch>, tree: seq<string>, before: map<string, string>, k: nat)
    requires AllWellFormed(ps) && Readable(disk.links, before, ps) && tree == TreeOf(disk.links, before, ps)
    requires k <= |ps| && FirstReplaced(disk.Jobs(EntriesOf(ps, tree)), before, disk.files, k)
    ensures Readable(disk.links, disk.files, ps)
    ensures TreeOf(disk.links, disk.files, ps) == PatchedTree(ps, tree, k)
  {
    var jobs := disk.Jobs(EntriesOf(ps, tree));
    forall i | 0 <= i < |ps|
      ensures RealPathOf(disk.links, ps[i].file) in disk.files
      ensures disk.files[RealPathOf(disk.links, ps[i].file)] == PatchedTree(ps, tree, k)[i]
    {
      assert jobs[i].target == RealPathOf(disk.links, ps[i].file) && jobs[i].target in before;
    }
  }
}
