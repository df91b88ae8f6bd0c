/** Exactly when the calls of the maintenance phase return, in every reachable state. */
module MaintenanceCalls {
  import opened Wrappers
  import opened Tree
  import opened TreePaths
  import opened TreePlan
  import opened Maintenance
  import opened MaintenanceSafety
  import opened MaintenanceProgress

  /** The base tree and routes are the packaged ones, and the packaged plan predicts the app tree. */
  ghost predicate Plans(p: Package, tree: Forest, routes: seq<Bytes>)
    requires InScope(p.files)
  {
    && WithinBounds(Sources(tree)) && p.base == TreeSha(Walked(Sources(tree)))
    && (forall c <- p.files :: IsDir(tree, Parent(c.path)))
    && p.app == TreeSha(Planned(Walked(Sources(tree)), p.files))
    && |routes| == |p.routes| && (forall j :: 0 <= j < |p.routes| ==> Sha256(routes[j]) == p.routes[j].base)
  }

  /** Nothing stands in the way of the effects. */
  ghost predicate Installs(p: Package, tree: Forest, stop: Stop)
    requires InScope(p.files)
  {
    var predicted := Planned(Walked(Sources(tree)), p.files);
    && stop.after >= 1 + 2 * |p.files| + 2 * |p.routes| + 3
    && (forall c <- p.files :: !IsDir(tree, c.path))
    && TempsFree(tree, p.files)
    && |predicted.entries| <= 512 && predicted.total <= 4194304
  }

  /** A promotion returns exactly when it is the first of its process, the package and the owner check out,
      and either a committed receipt stands and the proofs check out, or no receipt stands, the plan is
      the packaged one, every route change is allowed and nothing stands in the way. */
  lemma PromoteReturns(p: Package, base: Forest, routes: seq<Bytes>, run: seq<Event>, env: Env)
    requires Wf(base) && PayloadOk(p)
    ensures InScope(p.files)
    ensures var s := Exec(p, Start(base, routes), run);
      && (Step(p, s, Promote(env)).1 <==>
            && !s.attempted && env.identity && env.entry && env.exit
            && match s.disk.receipt
               case Waiting => env.proofs
               case Absent => Plans(p, base, routes) && env.shapes && Installs(p, base, env.stop)
               case _ => false)
      && (Step(p, s, Promote(env)).1 ==>
            && Step(p, s, Promote(env)).0.waiting && Step(p, s, Promote(env)).0.disk.receipt == Waiting)
  {
    PayloadInScope(p);
    InvRun(p, base, routes, Start(base, routes), run);
    var s := Exec(p, Start(base, routes), run);
    InvStep(p, base, routes, s, Promote(env));
    if s.disk.receipt == Absent {
      PlansIs(p, base, routes);
      if Plans(p, base, routes) { InstallCompletes(p, base, routes, env.stop); }
    }
    hide Exec, Go, Planned, TempsFree;
  }

  /** A first call that gets past its package and then fails in any way holds custody, and no call ever
      promotes twice in a process. */
  lemma PromoteFailsClosed(p: Package, s: Sys, env: Env)
    requires PayloadOk(p)
    ensures s.attempted ==> Step(p, s, Promote(env)) == (s, false)
    ensures Step(p, s, Promote(env)).0.attempted
    ensures !s.attempted && env.identity && !Step(p, s, Promote(env)).1 ==>
              Step(p, s, Promote(env)).0.held && !Step(p, s, Promote(env)).0.waiting
    ensures !s.attempted && !env.identity ==> Step(p, s, Promote(env)) == (s.(attempted := true), false)
  {
    hide Body;
  }

  /** A handoff that is refused while the process waits holds custody. */
  lemma HandoffFailsClosed(p: Package, s: Sys, env: Env)
    ensures s.waiting && !Step(p, s, Handoff(env)).1 ==> Step(p, s, Handoff(env)).0.held
    ensures !s.waiting ==> Step(p, s, Handoff(env)) == (s, false)
  {
  }

  lemma PlansIs(p: Package, tree: Forest, routes: seq<Bytes>)
    requires InScope(p.files)
    ensures Plans(p, tree, routes) <==> PlanOk(p, Start(tree, routes).disk) && RoutesAtBase(p, Start(tree, routes).disk)
  {
  }

  /** A call whose package does not check out never returns. */
  lemma PromoteRefusesPayload(p: Package, s: Sys, env: Env)
    requires !PayloadOk(p)
    ensures !Step(p, s, Promote(env)).1 && Step(p, s, Promote(env)).0.disk == s.disk
  {
  }

  /** What a package must be before a call returns, changes the disk or grants a handoff. */
  lemma OnlySealedPackages(p: Package, s: Sys, e: Event)
    requires e.Promote? || e.Handoff?
    requires Step(p, s, e).1 || Step(p, s, e).0.disk != s.disk
    ensures 1 <= |p.files| <= 32 && |p.routes| == 2
    ensures forall c <- p.files ::
              && |c.path| >= 2 && (c.path[0] == "packages" || c.path[0] == "scripts")
              && 0 < |c.raw| <= 65536
              && forall n <- c.path :: n != "" && n != "." && n != ".." && n != "node_modules"
    ensures forall i, j :: 0 <= i < j < |p.files| ==> p.files[i].path != p.files[j].path
    ensures forall r <- p.routes :: 0 < |r.raw| <= 65536
  {
    hide Body;
  }

  /** A handoff is granted exactly to a waiting process whose package, owner and proofs check out; the
      committed receipt and the exact targets are then there.  It is spent either way. */
  lemma HandoffReturns(p: Package, base: Forest, routes: seq<Bytes>, run: seq<Event>, env: Env)
    requires PayloadOk(p)
    ensures var s := Exec(p, Start(base, routes), run);
      && (Step(p, s, Handoff(env)).1 <==> s.waiting && env.entry && env.identity && env.proofs && env.exit)
      && !Step(p, s, Handoff(env)).0.waiting && Step(p, s, Handoff(env)).0.disk == s.disk
  {
    InvRun(p, base, routes, Start(base, routes), run);
  }
}
