/** Exactly when an accepted plan runs to its committed receipt. */
module MaintenanceProgress {
  import opened Wrappers
  import opened Tree
  import opened TreePaths
  import opened TreePlan
  import opened Maintenance
  import opened MaintenanceSafety

  predicate Free(t: Forest, path: Path) { Lookup(t, path).None? && !IsDir(t, path) }

  /** No temporary name is taken, in the tree or by an earlier file of the delta. */
  predicate TempsFree(t: Forest, files: seq<Change>)
    requires InScope(files)
  {
    && (forall i :: 0 <= i < |files| ==> Free(t, TempOf(files[i].path)))
    && (forall i, j :: 0 <= j < i < |files| ==> files[j].path != TempOf(files[i].path))
  }

  lemma StageSucceeds(t: Forest, path: Path, raw: Bytes)
    requires path != [] && IsDir(t, Parent(path))
    ensures Exclusive(t, TempOf(path), raw).Some? <==> Free(t, TempOf(path))
  {
    assert Parent(TempOf(path)) == Parent(path);
    ReplaceSucceeds(t, TempOf(path), raw);
  }

  lemma TempsFreeStep(t: Forest, files: seq<Change>)
    requires InScope(files) && files != [] && Replace(t, files[0].path, files[0].raw).Some?
    ensures TempsFree(t, files) <==>
              (Free(t, TempOf(files[0].path)) && TempsFree(Replace(t, files[0].path, files[0].raw).value, files[1..]))
  {
    var c, rest := files[0], files[1..];
    var g := Replace(t, c.path, c.raw).value;
    forall i | 0 <= i < |rest|
      ensures rest[i] == files[i + 1]
      ensures Free(g, TempOf(rest[i].path)) <==> Free(t, TempOf(rest[i].path)) && c.path != TempOf(rest[i].path)
    {
      ReplaceReads(t, c.path, c.raw, TempOf(rest[i].path));
      ReplaceSucceeds(t, c.path, c.raw);
    }
    if Free(t, TempOf(c.path)) && TempsFree(g, rest) {
      forall i | 0 <= i < |files| ensures Free(t, TempOf(files[i].path)) {
        if i > 0 { assert files[i] == rest[i - 1]; }
      }
      forall i, j | 0 <= j < i < |files| ensures files[j].path != TempOf(files[i].path) {
        assert files[i] == rest[i - 1];
        if j > 0 { assert files[j] == rest[j - 1]; }
      }
    }
    if TempsFree(t, files) {
      forall i | 0 <= i < |rest| ensures Free(g, TempOf(rest[i].path)) {
        assert files[0].path != TempOf(files[i + 1].path);
      }
      forall i, j | 0 <= j < i < |rest| ensures rest[j].path != TempOf(rest[i].path) {
        assert files[j + 1].path != TempOf(files[i + 1].path);
      }
    }
  }

  /** Both effects of one file, None when either refuses. */
  function Both(p: Package, d: Disk, a: Op, b: Op): Option<Disk> {
    match Do(p, d, a)
    case None => None
    case Some(e) => Do(p, e, b)
  }

  lemma GoOne(p: Package, d: Disk, a: Op, rest: seq<Op>, stop: Stop)
    ensures Go(p, d, [a] + rest, stop).done <==>
              (stop.after >= 1 && Do(p, d, a).Some?
               && Go(p, Do(p, d, a).value, rest, stop.(after := stop.after - 1)).done)
    ensures stop.after >= 1 && Do(p, d, a).Some? ==>
              Go(p, d, [a] + rest, stop) == Go(p, Do(p, d, a).value, rest, stop.(after := stop.after - 1))
  {
    hide Do, Partial;
    assert ([a] + rest)[1..] == rest;
  }

  lemma GoTwo(p: Package, d: Disk, a: Op, b: Op, rest: seq<Op>, stop: Stop)
    ensures Go(p, d, [a, b] + rest, stop).done <==>
              (stop.after >= 2 && Both(p, d, a, b).Some?
               && Go(p, Both(p, d, a, b).value, rest, stop.(after := stop.after - 2)).done)
    ensures stop.after >= 2 && Both(p, d, a, b).Some? ==>
              Go(p, d, [a, b] + rest, stop) == Go(p, Both(p, d, a, b).value, rest, stop.(after := stop.after - 2))
  {
    hide Do, Go;
    assert [a, b] + rest == [a] + ([b] + rest);
    GoOne(p, d, a, [b] + rest, stop);
    if stop.after >= 1 && Do(p, d, a).Some? {
      GoOne(p, Do(p, d, a).value, b, rest, stop.(after := stop.after - 1));
    }
  }

  lemma OneFile(p: Package, d: Disk, c: Change)
    requires c.path != [] && IsDir(d.tree, Parent(c.path))
    ensures var r := Both(p, d, StageFile(c.path, c.raw), SwapFile(c.path, c.raw));
      && (r.Some? <==> Free(d.tree, TempOf(c.path)) && !IsDir(d.tree, c.path))
      && (r.Some? ==> Replace(d.tree, c.path, c.raw).Some?
                      && r.value == d.(tree := Replace(d.tree, c.path, c.raw).value))
  {
    ReplaceSucceeds(d.tree, c.path, c.raw);
    StageSucceeds(d.tree, c.path, c.raw);
    if Exclusive(d.tree, TempOf(c.path), c.raw).Some? {
      UnlinkUndoesExclusive(d.tree, TempOf(c.path), c.raw);
    }
  }

  lemma {:induction false} FilesComplete(p: Package, d: Disk, files: seq<Change>, stop: Stop)
    requires InScope(files) && ParentsExist(d.tree, files)
    ensures Go(p, d, FileOps(files), stop).done <==>
              (NoTargetIsDirectory(d.tree, files) && TempsFree(d.tree, files) && stop.after >= 2 * |files|)
    ensures Go(p, d, FileOps(files), stop).done ==>
              Go(p, d, FileOps(files), stop).stop.after == stop.after - 2 * |files|
    decreases |files|
  {
    hide Go, Do, Both, Exclusive, Free, Replace, IsDir;
    if files == [] {
      GoNone(p, d, stop);
    } else {
      var c, rest := files[0], files[1..];
      var stage, swap := StageFile(c.path, c.raw), SwapFile(c.path, c.raw);
      assert files == [c] + rest;
      GoTwo(p, d, stage, swap, FileOps(rest), stop);
      OneFile(p, d, c);
      if stop.after >= 2 && Both(p, d, stage, swap).Some? {
        var e := Both(p, d, stage, swap).value;
        forall q ensures IsDir(e.tree, q) <==> IsDir(d.tree, q) { ReplaceReads(d.tree, c.path, c.raw, q); }
        TempsFreeStep(d.tree, files);
        FilesComplete(p, e, rest, stop.(after := stop.after - 2));
      }
    }
  }

  lemma GoNone(p: Package, d: Disk, stop: Stop)
    ensures Go(p, d, [], stop) == Ran(d, stop, true)
  {
  }

  predicate RoutesReady(p: Package, d: Disk, j: nat) {
    |d.routes| == |p.routes| &&
    forall k :: j <= k < |p.routes| ==> Sha256(d.routes[k]) == p.routes[k].base && k !in d.routeTemps
  }

  lemma {:induction false} RoutesComplete(p: Package, d: Disk, j: nat, stop: Stop)
    requires j <= |p.routes| && RoutesReady(p, d, j)
    ensures var r := Go(p, d, RouteOps(j, |p.routes|), stop);
      && (r.done <==> stop.after >= 2 * (|p.routes| - j))
      && (r.done ==> r.stop.after == stop.after - 2 * (|p.routes| - j) && |r.disk.routes| == |p.routes|)
      && (r.done ==> forall k :: 0 <= k < |p.routes| ==>
            r.disk.routes[k] == if k < j then d.routes[k] else p.routes[k].raw)
    decreases |p.routes| - j
  {
    if j < |p.routes| {
      var ops := RouteOps(j, |p.routes|);
      assert ops[1..] == [SwapRoute(j)] + RouteOps(j + 1, |p.routes|);
      assert ops[1..][1..] == RouteOps(j + 1, |p.routes|);
      var d1 := Do(p, d, StageRoute(j)).value;
      var d2 := Do(p, d1, SwapRoute(j)).value;
      if stop.after >= 2 { RoutesComplete(p, d2, j + 1, stop.(after := stop.after - 2)); }
    }
  }

  function Needed(p: Package): nat { 1 + 2 * |p.files| + 2 * |p.routes| + 3 }

  lemma TailCompletes(p: Package, d: Disk, stop: Stop)
    requires !d.receiptTemp
    ensures Go(p, d, TAIL, stop).done <==> Verified(p, d) && stop.after >= 3
  {
    assert TAIL[1..] == [StageReceipt, Commit];
    assert TAIL[1..][1..] == [Commit];
    assert TAIL[1..][1..][1..] == [];
  }

  lemma {:induction false} ProgramSplits(p: Package, d: Disk, stop: Stop)
    requires d.receipt == Absent && stop.after > 0
    ensures var d1 := d.(receipt := Unknown); var stop1 := stop.(after := stop.after - 1);
      var f := Go(p, d1, FileOps(p.files), stop1);
      var g := Go(p, f.disk, RouteOps(0, |p.routes|), f.stop);
      Go(p, d, Program(p), stop) ==
        if !f.done then f else if !g.done then g else Go(p, g.disk, TAIL, g.stop)
  {
    var d1, stop1 := d.(receipt := Unknown), stop.(after := stop.after - 1);
    assert Program(p)[1..] == FileOps(p.files) + (RouteOps(0, |p.routes|) + TAIL);
    GoAppend(p, d1, FileOps(p.files), RouteOps(0, |p.routes|) + TAIL, stop1);
    var f := Go(p, d1, FileOps(p.files), stop1);
    GoAppend(p, f.disk, RouteOps(0, |p.routes|), TAIL, f.stop);
  }

  /** From an untouched disk and an accepted plan, the program reaches its committed receipt exactly
      when nothing stops it, no target is a directory, no temporary name is taken, and the predicted
      tree is within the bounds the plan did not check. */
  lemma InstallCompletes(p: Package, tree: Forest, routes: seq<Bytes>, stop: Stop)
    requires Wf(tree) && InScope(p.files)
    requires PlanOk(p, Start(tree, routes).disk) && RoutesAtBase(p, Start(tree, routes).disk)
    ensures var predicted := Planned(Measured(tree).value, p.files);
      Go(p, Start(tree, routes).disk, Program(p), stop).done <==>
        && stop.after >= Needed(p)
        && NoTargetIsDirectory(tree, p.files)
        && TempsFree(tree, p.files)
        && |predicted.entries| <= MAX_FILES && predicted.total <= MAX_TOTAL
  {
    var d := Start(tree, routes).disk;
    if stop.after > 0 {
      ProgramSplits(p, d, stop);
      var d1, stop1 := d.(receipt := Unknown), stop.(after := stop.after - 1);
      FilesComplete(p, d1, p.files, stop1);
      var f := Go(p, d1, FileOps(p.files), stop1);
      if f.done {
        FilesRun(p, d1, p.files, stop1);
        RoutesComplete(p, f.disk, 0, f.stop);
        var g := Go(p, f.disk, RouteOps(0, |p.routes|), f.stop);
        if g.done {
          RoutesRun(p, f.disk, 0, f.stop);
          VerifyAgreesWithPlan(tree, p.files);
          TailCompletes(p, g.disk, g.stop);
        }
      }
    }
  }

  // ---------- accepted plans that never complete ----------

  lemma {:induction false} StaysReserved(p: Package, d: Disk, ops: seq<Op>, stop: Stop)
    requires d.receipt != Absent
    ensures Go(p, d, ops, stop).disk.receipt != Absent
    decreases |ops|
  {
    if ops != [] && stop.after > 0 && Do(p, d, ops[0]).Some? {
      StaysReserved(p, Do(p, d, ops[0]).value, ops[1..], stop.(after := stop.after - 1));
    }
  }

  /** Payload, plan and routes all pass, the reservation is made, and the installation never completes. */
  ghost predicate Stuck(p: Package, tree: Forest, routes: seq<Bytes>) {
    var d := Start(tree, routes).disk;
    && PayloadOk(p) && InScope(p.files) && Wf(tree)
    && PlanOk(p, d) && RoutesAtBase(p, d)
    && (forall stop :: !Go(p, d, Program(p), stop).done)
    && (forall stop: Stop :: stop.after > 0 ==> Go(p, d, Program(p), stop).disk.receipt != Absent)
  }

  lemma StuckBy(p: Package, tree: Forest, routes: seq<Bytes>)
    requires PayloadOk(p) && InScope(p.files) && Wf(tree)
    requires PlanOk(p, Start(tree, routes).disk) && RoutesAtBase(p, Start(tree, routes).disk)
    requires !NoTargetIsDirectory(tree, p.files)
             || Planned(Measured(tree).value, p.files).total > MAX_TOTAL
             || |Planned(Measured(tree).value, p.files).entries| > MAX_FILES
    ensures Stuck(p, tree, routes)
  {
    hide PayloadOk, PlanOk, NoTargetIsDirectory, TempsFree, Planned, Go, Do;
    var d := Start(tree, routes).disk;
    forall stop ensures !Go(p, d, Program(p), stop).done { InstallCompletes(p, tree, routes, stop); }
    forall stop: Stop | stop.after > 0 ensures Go(p, d, Program(p), stop).disk.receipt != Absent {
      ReservedAtOnce(p, d, stop);
    }
  }

  lemma ReservedAtOnce(p: Package, d: Disk, stop: Stop)
    requires d.receipt == Absent && stop.after > 0
    ensures Go(p, d, Program(p), stop).disk.receipt != Absent
  {
    StaysReserved(p, d.(receipt := Unknown), Program(p)[1..], stop.(after := stop.after - 1));
  }

  /** The package whose plan for one new byte at `packages/x` is what the tree predicts. */
  ghost function PackageFor(tree: Forest, routes: seq<Bytes>): Package
    requires |routes| == ROUTES
  {
    var base, files := Walked(Sources(tree)), [Change(["packages", "x"], [0])];
    Package(TreeSha(base), TreeSha(Planned(base, files)), files,
            [Route(Sha256(routes[0]), [0]), Route(Sha256(routes[1]), [0])])
  }

  lemma PackageForPasses(tree: Forest, routes: seq<Bytes>)
    requires |routes| == ROUTES && Measured(tree).Some? && IsDir(tree, ["packages"])
    ensures var p := PackageFor(tree, routes); var d := Start(tree, routes).disk;
      PayloadOk(p) && InScope(p.files) && PlanOk(p, d) && RoutesAtBase(p, d)
  {
    var p := PackageFor(tree, routes);
    assert Parent(p.files[0].path) == ["packages"];
    assert p.files[0].path == ["packages", "x"];
    PayloadInScope(p);
  }

  /** A payload the call accepts, over a tree in which its target is a directory. */
  lemma PlanAcceptsDirectoryTarget(routes: seq<Bytes>)
    requires |routes| == ROUTES
    ensures var tree := Cons("packages", Dir(Cons("x", Dir(Nil), Nil)), Nil);
      Stuck(PackageFor(tree, routes), tree, routes)
  {
    var tree := Cons("packages", Dir(Cons("x", Dir(Nil), Nil)), Nil);
    var p := PackageFor(tree, routes);
    assert Sources(tree) == tree;
    assert IsDir(tree, ["packages", "x"]) by { assert ["packages", "x"][1..] == ["x"] && ["x"][1..] == []; }
    assert IsDir(tree, ["packages"]) by { assert ["packages"][1..] == []; }
    PackageForPasses(tree, routes);
    assert p.files[0].path == ["packages", "x"];
    StuckBy(p, tree, routes);
  }

  lemma CountFile(name: string, raw: Bytes, rest: Forest)
    ensures var f := Cons(name, File(raw), rest);
      Dirs(f) == Dirs(rest) && Files(f) == 1 + Files(rest) && Total(f) == |raw| + Total(rest)
  {
  }

  lemma CountDir(name: string, kids: Forest)
    ensures var f := Cons(name, Dir(kids), Nil);
      Dirs(f) == 1 + Dirs(kids) && Files(f) == Files(kids) && Total(f) == Total(kids)
  {
  }

  function LargeTree(big: Bytes): Forest { Cons("packages", Dir(Cons("b", File(big), Nil)), Nil) }

  function LargerTree(big: Bytes): Forest {
    Cons("packages", Dir(Cons("b", File(big), Cons("x", File([0]), Nil))), Nil)
  }

  lemma LargeSizes(big: Bytes)
    ensures Dirs(LargeTree(big)) == 1 && Files(LargeTree(big)) == 1 && Total(LargeTree(big)) == |big|
    ensures Total(LargerTree(big)) == |big| + 1
  {
    CountFile("b", big, Nil);
    CountDir("packages", Cons("b", File(big), Nil));
    CountFile("x", [0], Nil);
    CountFile("b", big, Cons("x", File([0]), Nil));
    CountDir("packages", Cons("b", File(big), Cons("x", File([0]), Nil)));
  }

  lemma LargeReplace(big: Bytes)
    ensures Replace(LargeTree(big), ["packages", "x"], [0]) == Some(LargerTree(big))
  {
    var kids, path := Cons("b", File(big), Nil), ["packages", "x"];
    assert "b" != "x" by { assert "b"[0] != "x"[0]; }
    assert path[1..] == ["x"];
    assert Find(Nil, "x").None? && Find(kids, "x").None?;
    assert Bind(Nil, "x", File([0])) == Cons("x", File([0]), Nil);
    assert Bind(kids, "x", File([0])) == Cons("b", File(big), Cons("x", File([0]), Nil));
    assert Replace(kids, ["x"], [0]) == Some(Bind(kids, "x", File([0])));
  }

  lemma LargeIsSources(big: Bytes)
    ensures Sources(LargeTree(big)) == LargeTree(big) && Sources(LargerTree(big)) == LargerTree(big)
    ensures Wf(LargeTree(big)) && IsDir(LargeTree(big), ["packages"])
  {
    assert ["packages"][1..] == [];
  }

  lemma ApplyOne(f: Forest, c: Change)
    requires InScope([c])
    ensures ApplyAll(f, [c]) == Replace(f, c.path, c.raw)
  {
    assert [c][1..] == [];
  }

  /** A payload the call accepts, over a tree that is exactly as large as the walk allows. */
  lemma PlanAcceptsTooLarge(big: Bytes, routes: seq<Bytes>)
    requires |big| == MAX_TOTAL && |routes| == ROUTES
    ensures Stuck(PackageFor(LargeTree(big), routes), LargeTree(big), routes)
  {
    hide Dirs, Files, Total, Sources, Replace, ApplyAll, IsDir, Wf, LargeTree, LargerTree, Stuck, Entries, SumSizes, Overlay;
    var tree := LargeTree(big);
    var p := PackageFor(tree, routes);
    LargeSizes(big);
    LargeIsSources(big);
    LargeReplace(big);
    PackageForPasses(tree, routes);
    ApplyOne(tree, p.files[0]);
    PlanCommutes(tree, p.files);
    StuckBy(p, tree, routes);
  }
}
