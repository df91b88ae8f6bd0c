/** The maintenance phase as it runs: two volatile flags and files changed in place. */
module MaintenancePhase {
  import opened Wrappers
  import opened Tree
  import opened TreePaths
  import opened TreePlan
  import opened Maintenance
  import opened MaintenanceSafety

  class Phase {
    const p: Package
    var disk: Disk
    var attempted: bool
    var waiting: bool
    var held: bool
    var stop: Stop   // what the environment still allows this call

    constructor (p: Package, disk: Disk)
      ensures this.p == p && State() == Sys(disk, false, false, false)
    {
      this.p, this.disk := p, disk;
      attempted, waiting, held, stop := false, false, false, Stop(0, None);
    }

    function State(): Sys
      reads this
    {
      Sys(disk, attempted, waiting, held)
    }

    /** One effect on disk, or the point where the call stops. */
    method Perform(op: Op) returns (ok: bool)
      modifies this`disk, this`stop
      ensures Ran(disk, stop, ok) == Go(p, old(disk), [op], old(stop))
    {
      if stop.after == 0 {
        if stop.inside.Some? { disk := Partial(p, disk, op, stop.inside.value); }
        return false;
      }
      var r := Do(p, disk, op);
      if r.None? { return false; }
      disk, stop := r.value, stop.(after := stop.after - 1);
      return true;
    }

    /** Stages and renames one file or route. */
    method PerformBoth(a: Op, b: Op, ghost rest: seq<Op>, ghost all: Ran) returns (ok: bool)
      requires Go(p, disk, [a] + ([b] + rest), stop) == all
      modifies this`disk, this`stop
      ensures if ok then Go(p, disk, rest, stop) == all else Ran(disk, stop, false) == all
    {
      GoAppend(p, disk, [a], [b] + rest, stop);
      ok := Perform(a);
      if !ok { return; }
      GoAppend(p, disk, [b], rest, stop);
      ok := Perform(b);
    }

    /** Reserve, replace every file and route, verify, commit. */
    method Apply() returns (ok: bool)
      requires InScope(p.files)
      modifies this`disk, this`stop
      ensures Ran(disk, stop, ok) == Go(p, old(disk), Program(p), old(stop))
    {
      hide Do, Partial;
      ghost var all := Go(p, disk, Program(p), stop);
      ghost var tail := RouteOps(0, |p.routes|) + TAIL;
      GoAppend(p, disk, [Reserve], FileOps(p.files) + tail, stop);
      ok := Perform(Reserve);
      if !ok { return; }
      ok := ApplyFiles(tail, all);
      if !ok { return; }
      ok := ApplyRoutes(all);
    }

    method ApplyFiles(ghost tail: seq<Op>, ghost all: Ran) returns (ok: bool)
      requires Go(p, disk, FileOps(p.files) + tail, stop) == all
      modifies this`disk, this`stop
      ensures if ok then Go(p, disk, tail, stop) == all else Ran(disk, stop, false) == all
    {
      hide Do, Partial, Go;
      var i := 0;
      assert p.files[0..] == p.files;
      while i < |p.files|
        invariant 0 <= i <= |p.files|
        invariant Go(p, disk, FileOps(p.files[i..]) + tail, stop) == all
      {
        var c := p.files[i];
        assert p.files[i..][1..] == p.files[i + 1..];
        ghost var rest := FileOps(p.files[i + 1..]) + tail;
        assert FileOps(p.files[i..]) + tail == [StageFile(c.path, c.raw)] + ([SwapFile(c.path, c.raw)] + rest);
        ok := PerformBoth(StageFile(c.path, c.raw), SwapFile(c.path, c.raw), rest, all);
        if !ok { return; }
        i := i + 1;
      }
      assert FileOps(p.files[i..]) + tail == tail;
      ok := true;
    }

    method ApplyRoutes(ghost all: Ran) returns (ok: bool)
      requires Go(p, disk, RouteOps(0, |p.routes|) + TAIL, stop) == all
      modifies this`disk, this`stop
      ensures Ran(disk, stop, ok) == all
    {
      hide Do, Partial;
      var j := 0;
      while j < |p.routes|
        invariant 0 <= j <= |p.routes|
        invariant Go(p, disk, RouteOps(j, |p.routes|) + TAIL, stop) == all
      {
        ghost var rest := RouteOps(j + 1, |p.routes|) + TAIL;
        assert RouteOps(j, |p.routes|) + TAIL == [StageRoute(j)] + ([SwapRoute(j)] + rest);
        ok := PerformBoth(StageRoute(j), SwapRoute(j), rest, all);
        if !ok { return; }
        j := j + 1;
      }
      assert RouteOps(j, |p.routes|) + TAIL == TAIL;
      ok := Finish(all);
    }

    method Finish(ghost all: Ran) returns (ok: bool)
      requires Go(p, disk, TAIL, stop) == all
      modifies this`disk, this`stop
      ensures Ran(disk, stop, ok) == all
    {
      assert TAIL == [Verify] + [StageReceipt, Commit];
      GoAppend(p, disk, [Verify], [StageReceipt, Commit], stop);
      ok := Perform(Verify);
      if !ok { return; }
      assert [StageReceipt, Commit] == [StageReceipt] + [Commit];
      GoAppend(p, disk, [StageReceipt], [Commit], stop);
      ok := Perform(StageReceipt);
      if !ok { return; }
      ok := Perform(Commit);
    }

    /** Readonly when a receipt exists; otherwise plans first and applies. */
    method Protected(env: Env) returns (ok: bool)
      requires InScope(p.files)
      modifies this`disk, this`stop
      ensures disk == Body(p, old(disk), env).disk && ok == Body(p, old(disk), env).done
    {
      if !env.entry { return false; }
      if disk.receipt != Absent {
        return disk.receipt == Waiting && Verified(p, disk) && env.proofs;
      }
      var planned := Plan(disk.tree, p.files);
      if planned.None? || TreeSha(Measured(disk.tree).value) != p.base || TreeSha(planned.value) != p.app
      { return false; }
      if !RoutesAtBase(p, disk) || !env.shapes { return false; }
      stop := env.stop;
      ok := Apply();
    }

    method PromoteWaiting(env: Env) returns (ok: bool)
      modifies this
      ensures (State(), ok) == PromoteCall(p, old(State()), env)
    {
      if attempted { return false; }
      attempted := true;
      if !PayloadOk(p) || !env.identity { return false; }
      PayloadInScope(p);
      ok := Protected(env);
      ok := ok && env.exit;
      waiting := ok;
      if !ok { held := true; }
    }

    method HandoffWaiting(env: Env) returns (ok: bool)
      modifies this
      ensures (State(), ok) == HandoffCall(p, old(State()), env)
    {
      if !waiting { return false; }
      ok := HandoffOk(p, disk, env);
      waiting := false;
      if !ok { held := true; }
    }

    method RestartProcess()
      modifies this
      ensures State() == Step(p, old(State()), Restart).0
    {
      attempted, waiting, held := false, false, false;
    }
  }
}
