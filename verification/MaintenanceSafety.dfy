/** What every run of the maintenance installation keeps. */
module MaintenanceSafety {
  import opened Wrappers
  import opened Tree
  import opened TreePaths
  import opened TreePlan
  import opened Maintenance

  // ---------- one file ----------

  lemma {:induction false} UnbindBind(f: Forest, name: string, node: Node)
    requires Find(f, name).None?
    ensures Unbind(Bind(f, name, node), name) == f
    decreases f
  {
    if f.Cons? { UnbindBind(f.rest, name, node); }
  }

  lemma {:induction false} BindBack(f: Forest, name: string, was: Node, node: Node)
    requires Find(f, name) == Some(was)
    ensures Bind(Bind(f, name, node), name, was) == f
    decreases f
  {
    if f.name != name { BindBack(f.rest, name, was, node); }
  }

  /** Removing an exclusively created file restores the tree, node by node. */
  lemma {:induction false} UnlinkUndoesExclusive(f: Forest, path: Path, raw: Bytes)
    requires path != [] && Exclusive(f, path, raw).Some?
    ensures Unlink(Exclusive(f, path, raw).value, path) == f
    ensures Lookup(Exclusive(f, path, raw).value, path) == Some(raw)
    decreases |path|
  {
    ReplaceReads(f, path, raw, path);
    match Find(f, path[0])
    case Some(Dir(kids)) =>
      assert Lookup(f, path) == Lookup(kids, path[1..]);
      UnlinkUndoesExclusive(kids, path[1..], raw);
      var k := Replace(kids, path[1..], raw).value;
      BindFinds(f, path[0], Dir(k), path[0]);
      BindBack(f, path[0], Dir(kids), Dir(k));
    case Some(File(_)) =>
    case None => UnbindBind(f, path[0], File(raw));
  }

  /** A finished replacement leaves no temporary: it is the plain replacement. */
  lemma FileCycle(p: Package, d: Disk, path: Path, raw: Bytes)
    requires path != [] && Do(p, d, StageFile(path, raw)).Some?
    requires Do(p, Do(p, d, StageFile(path, raw)).value, SwapFile(path, raw)).Some?
    ensures var e := Do(p, Do(p, d, StageFile(path, raw)).value, SwapFile(path, raw)).value;
      Replace(d.tree, path, raw).Some? && e == d.(tree := Replace(d.tree, path, raw).value)
  {
    UnlinkUndoesExclusive(d.tree, TempOf(path), raw);
  }

  // ---------- runs of effects ----------

  lemma {:induction false} GoAppend(p: Package, d: Disk, a: seq<Op>, b: seq<Op>, stop: Stop)
    ensures var r := Go(p, d, a, stop);
      Go(p, d, a + b, stop) == if r.done then Go(p, r.disk, b, r.stop) else r
    decreases |a|
  {
    if a == [] {
      assert a + b == b;
    } else {
      assert (a + b)[1..] == a[1..] + b;
      match Do(p, d, a[0])
      case None =>
      case Some(e) => if stop.after > 0 { GoAppend(p, e, a[1..], b, stop.(after := stop.after - 1)); }
    }
  }

  /** The effects that write no receipt. */
  predicate Quiet(op: Op) { !op.Reserve? && !op.Commit? }

  lemma {:induction false} QuietRun(p: Package, d: Disk, ops: seq<Op>, stop: Stop)
    requires forall op <- ops :: Quiet(op)
    ensures Go(p, d, ops, stop).disk.receipt == d.receipt
    decreases |ops|
  {
    if ops != [] {
      assert Quiet(ops[0]);
      if stop.after > 0 && Do(p, d, ops[0]).Some? {
        QuietRun(p, Do(p, d, ops[0]).value, ops[1..], stop.(after := stop.after - 1));
      }
    }
  }

  lemma {:induction false} FileOpsQuiet(files: seq<Change>)
    ensures forall op <- FileOps(files) :: Quiet(op)
    decreases |files|
  {
    if files != [] { FileOpsQuiet(files[1..]); }
  }

  lemma {:induction false} RouteOpsQuiet(j: nat, n: nat)
    ensures forall op <- RouteOps(j, n) :: Quiet(op)
    decreases n - j
  {
    if j < n { RouteOpsQuiet(j + 1, n); }
  }

  /** All the file effects together are the delta applied to the tree. */
  lemma {:induction false} FilesRun(p: Package, d: Disk, files: seq<Change>, stop: Stop)
    requires InScope(files) && Go(p, d, FileOps(files), stop).done
    ensures var e := Go(p, d, FileOps(files), stop).disk;
      ApplyAll(d.tree, files).Some? && e == d.(tree := ApplyAll(d.tree, files).value)
    decreases |files|
  {
    if files != [] {
      var c := files[0];
      var stage, swap := StageFile(c.path, c.raw), SwapFile(c.path, c.raw);
      var ops := FileOps(files);
      assert ops[1..] == [swap] + FileOps(files[1..]);
      assert ops[1..][1..] == FileOps(files[1..]);
      var d1 := Do(p, d, stage).value;
      var d2 := Do(p, d1, swap).value;
      FileCycle(p, d, c.path, c.raw);
      FilesRun(p, d2, files[1..], stop.(after := stop.after - 2));
    }
  }

  lemma {:induction false} RoutesRun(p: Package, d: Disk, j: nat, stop: Stop)
    requires j <= |p.routes| == |d.routes| && Go(p, d, RouteOps(j, |p.routes|), stop).done
    ensures var e := Go(p, d, RouteOps(j, |p.routes|), stop).disk;
      e.tree == d.tree && |e.routes| == |d.routes| && e.receiptTemp == d.receiptTemp
    decreases |p.routes| - j
  {
    if j < |p.routes| {
      var ops := RouteOps(j, |p.routes|);
      assert ops[1..] == [SwapRoute(j)] + RouteOps(j + 1, |p.routes|);
      assert ops[1..][1..] == RouteOps(j + 1, |p.routes|);
      var d1 := Do(p, d, StageRoute(j)).value;
      RoutesRun(p, Do(p, d1, SwapRoute(j)).value, j + 1, stop.(after := stop.after - 2));
    }
  }

  lemma TailRun(p: Package, d: Disk, stop: Stop)
    requires d.receipt == Unknown
    ensures var r := Go(p, d, TAIL, stop);
      && r.disk.receipt in {Unknown, Waiting}
      && (r.done ==> r.disk.receipt == Waiting)
      && (r.disk.receipt == Waiting ==> r.disk == d.(receipt := Waiting, receiptTemp := false) && Verified(p, d))
  {
    assert TAIL[1..] == [StageReceipt, Commit];
    assert TAIL[1..][1..] == [Commit];
  }

  /** Every target as sealed: the tree is the base with the delta applied, its walk gives the app
      digest, and each route holds its sealed bytes. */
  predicate Exact(p: Package, base: Forest, d: Disk) {
    && InScope(p.files)
    && ApplyAll(base, p.files) == Some(d.tree)
    && Verified(p, d)
  }

  /** The whole program from an untouched disk, stopped anywhere. */
  lemma ProgramRun(p: Package, d: Disk, stop: Stop)
    requires InScope(p.files) && d.receipt == Absent && |d.routes| == |p.routes|
    ensures var r := Go(p, d, Program(p), stop);
      && (r.disk.receipt == Absent ==> r.disk == d)
      && (r.done ==> r.disk.receipt == Waiting)
      && (r.disk.receipt == Waiting ==> Exact(p, d.tree, r.disk))
  {
    var rest := FileOps(p.files) + (RouteOps(0, |p.routes|) + TAIL);
    assert Program(p)[1..] == rest;
    if stop.after > 0 {
      var d1 := d.(receipt := Unknown);
      var stop1 := stop.(after := stop.after - 1);
      GoAppend(p, d1, FileOps(p.files), RouteOps(0, |p.routes|) + TAIL, stop1);
      FileOpsQuiet(p.files);
      QuietRun(p, d1, FileOps(p.files), stop1);
      var f := Go(p, d1, FileOps(p.files), stop1);
      if f.done {
        FilesRun(p, d1, p.files, stop1);
        GoAppend(p, f.disk, RouteOps(0, |p.routes|), TAIL, f.stop);
        RouteOpsQuiet(0, |p.routes|);
        QuietRun(p, f.disk, RouteOps(0, |p.routes|), f.stop);
        var g := Go(p, f.disk, RouteOps(0, |p.routes|), f.stop);
        if g.done {
          RoutesRun(p, f.disk, 0, f.stop);
          TailRun(p, g.disk, g.stop);
        }
      }
    }
  }

  // ---------- every run ----------

  /** Any changed byte implies a receipt, and a committed receipt implies exact targets. */
  predicate Inv(p: Package, base: Forest, routes: seq<Bytes>, s: Sys) {
    && (s.disk.receipt == Absent ==> s.disk == Start(base, routes).disk)
    && (s.disk.receipt == Waiting ==> Exact(p, base, s.disk))
    && (s.waiting ==> s.attempted && s.disk.receipt == Waiting)
  }

  lemma InvStep(p: Package, base: Forest, routes: seq<Bytes>, s: Sys, e: Event)
    requires Inv(p, base, routes, s)
    ensures Inv(p, base, routes, Step(p, s, e).0)
    ensures s.disk.receipt != Absent ==> Step(p, s, e).0.disk == s.disk
  {
    if e.Promote? && !s.attempted && PayloadOk(p) && e.env.identity {
      PayloadInScope(p);
      if e.env.entry && s.disk.receipt == Absent && ApplyGuard(p, s.disk, e.env) {
        ProgramRun(p, s.disk, e.env.stop);
      }
    }
  }

  lemma {:induction false} InvRun(p: Package, base: Forest, routes: seq<Bytes>, s: Sys, run: seq<Event>)
    requires Inv(p, base, routes, s)
    ensures Inv(p, base, routes, Exec(p, s, run))
    ensures s.disk.receipt != Absent ==> Exec(p, s, run).disk == s.disk
    decreases |run|
  {
    if run != [] {
      InvStep(p, base, routes, s, run[0]);
      InvRun(p, base, routes, Step(p, s, run[0]).0, run[1..]);
    }
  }

  /** In every crash state: a byte that differs from the start implies that a receipt exists, and a
      committed receipt implies that every target holds its sealed bytes. */
  lemma ReservedBeforeApplied(p: Package, base: Forest, routes: seq<Bytes>, run: seq<Event>)
    ensures var d := Exec(p, Start(base, routes), run).disk;
      && (d != Start(base, routes).disk ==> d.receipt != Absent)
      && (d.receipt == Waiting ==> Exact(p, base, d))
      && (d.receipt == Waiting ==>
            && ApplyAll(base, p.files) == Some(d.tree)
            && WithinBounds(Sources(d.tree)) && p.app == TreeSha(Walked(Sources(d.tree)))
            && |d.routes| == |p.routes| && forall j :: 0 <= j < |p.routes| ==> d.routes[j] == p.routes[j].raw)
  {
    InvRun(p, base, routes, Start(base, routes), run);
  }

  /** Once a receipt exists, whatever it says, nothing on disk ever changes again, so the delta is
      applied by at most one call over all restarts.  A receipt other than the committed one also
      refuses every later call. */
  lemma ReceiptBlocks(p: Package, base: Forest, routes: seq<Bytes>, run: seq<Event>, more: seq<Event>)
    ensures var s := Exec(p, Start(base, routes), run);
      s.disk.receipt != Absent ==> Exec(p, s, more).disk == s.disk
    ensures var s := Exec(p, Start(base, routes), run);
      s.disk.receipt in {Unknown, Torn} ==>
        forall e: Event :: !e.Restart? ==> !Step(p, Exec(p, s, more), e).1
  {
    InvRun(p, base, routes, Start(base, routes), run);
    InvRun(p, base, routes, Exec(p, Start(base, routes), run), more);
    var t := Exec(p, Exec(p, Start(base, routes), run), more);
    forall e: Event | t.disk.receipt in {Unknown, Torn} && !e.Restart? ensures !Step(p, t, e).1 {
      if e.Promote? && PayloadOk(p) { PayloadInScope(p); }
    }
  }

  /** A granted handoff saw, at that moment, the committed receipt and exact targets. */
  lemma HandoffSeesExactTargets(p: Package, base: Forest, routes: seq<Bytes>, run: seq<Event>, env: Env)
    ensures var s := Exec(p, Start(base, routes), run);
      Step(p, s, Handoff(env)).1 ==> s.disk.receipt == Waiting && Exact(p, base, s.disk)
  {
    InvRun(p, base, routes, Start(base, routes), run);
  }

  lemma {:induction false} HandoffsBounded(p: Package, base: Forest, routes: seq<Bytes>, s: Sys, run: seq<Event>)
    requires Inv(p, base, routes, s)
    ensures Handoffs(p, s, run) <= (if s.attempted && !s.waiting then 0 else 1) + Restarts(run)
    decreases |run|
  {
    if run != [] {
      InvStep(p, base, routes, s, run[0]);
      HandoffsBounded(p, base, routes, Step(p, s, run[0]).0, run[1..]);
    }
  }

  /** At most one handoff per process life. */
  lemma OneHandoffPerLife(p: Package, base: Forest, routes: seq<Bytes>, run: seq<Event>)
    ensures Handoffs(p, Start(base, routes), run) <= 1 + Restarts(run)
  {
    HandoffsBounded(p, base, routes, Start(base, routes), run);
  }

  /** The app digest alone fixes the bytes: a tree whose walk gives the planned manifest holds, at
      every path of the delta, the sealed bytes, whatever tree the plan started from. */
  lemma ManifestFixesBytes(base: Manifest, tree: Forest, files: seq<Change>, i: nat)
    requires Wf(tree) && InScope(files) && i < |files|
    requires forall j :: i < j < |files| ==> files[j].path != files[i].path
    requires Measured(tree) == Some(Planned(base, files))
    ensures Lookup(tree, files[i].path) == Some(files[i].raw)
  {
    var q := files[i].path;
    OverlayAt(base.entries, files, i);
    SourcesWf(tree);
    EntriesAt(Sources(tree), q);
    SourcesFind(tree, q[0]);
  }

  lemma {:induction false} OverlayAt(entries: map<Path, Entry>, files: seq<Change>, i: nat)
    requires i < |files| && forall j :: i < j < |files| ==> files[j].path != files[i].path
    ensures files[i].path in Overlay(entries, files)
    ensures Overlay(entries, files)[files[i].path] == EntryOf(files[i].raw)
    decreases |files|
  {
    var next := entries[files[0].path := EntryOf(files[0].raw)];
    if i > 0 {
      OverlayAt(next, files[1..], i - 1);
    } else {
      OverlayOther(next, files[1..], files[0].path);
    }
  }

  lemma {:induction false} OverlayOther(entries: map<Path, Entry>, files: seq<Change>, q: Path)
    requires q in entries && forall c <- files :: c.path != q
    ensures q in Overlay(entries, files) && Overlay(entries, files)[q] == entries[q]
    decreases |files|
  {
    if files != [] { OverlayOther(entries[files[0].path := EntryOf(files[0].raw)], files[1..], q); }
  }
}
