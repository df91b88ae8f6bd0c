/** The maintenance installation: plan, reserve, replace in place, verify, commit; then one handoff.

    The disk changes in small effects, in a fixed order.  A call may stop before any effect or
    inside one (an exception, a missed deadline or a crash); what is on disk then stays there. */
module Maintenance {
  import opened Wrappers
  import opened Tree
  import opened TreePaths
  import opened TreePlan

  const SUFFIX := ".hr-s256-maintenance"
  const MAX_RAW := 65536
  const ROUTES := 2

  datatype TreeDigest = TreeSha(manifest: Manifest)

  datatype Route = Route(base: Digest, raw: Bytes)

  /** The compiled package: sealed bytes, and the digests of the trees before and after. */
  datatype Package = Package(base: TreeDigest, app: TreeDigest, files: seq<Change>, routes: seq<Route>)

  /** The receipt of this installation.  Torn stands for every text that is neither record. */
  datatype Receipt = Absent | Torn | Unknown | Waiting

  datatype Disk = Disk(tree: Forest, routes: seq<Bytes>, routeTemps: set<nat>,
                       receipt: Receipt, receiptTemp: bool)

  predicate NameOk(name: string) { name !in {"", ".", "..", NODE_MODULES} }

  /** `_payload`. */
  predicate PayloadOk(p: Package) {
    && 1 <= |p.files| <= 32
    && (forall c <- p.files ::
          |c.path| >= 2 && c.path[0] in {"packages", "scripts"}
          && (forall n <- c.path :: NameOk(n)) && 0 < |c.raw| <= MAX_RAW)
    && (forall i, j :: 0 <= i < j < |p.files| ==> p.files[i].path != p.files[j].path)
    && |p.routes| == ROUTES && (forall r <- p.routes :: 0 < |r.raw| <= MAX_RAW)
  }

  function TempOf(path: Path): Path
    requires path != []
  {
    path[..|path| - 1] + [path[|path| - 1] + SUFFIX]
  }

  // ---------- removing a name ----------

  function Unbind(f: Forest, name: string): Forest {
    match f
    case Nil => Nil
    case Cons(n, node, rest) => if n == name then rest else Cons(n, node, Unbind(rest, name))
  }

  function Unlink(f: Forest, path: Path): Forest
    decreases |path|
  {
    if path == [] then f
    else if |path| == 1 then Unbind(f, path[0])
    else match Find(f, path[0])
      case Some(Dir(kids)) => Bind(f, path[0], Dir(Unlink(kids, path[1..])))
      case _ => f
  }

  // ---------- effects ----------

  datatype Op =
    | Reserve
    | StageFile(path: Path, raw: Bytes)
    | SwapFile(path: Path, raw: Bytes)
    | StageRoute(j: nat)
    | SwapRoute(j: nat)
    | Verify
    | StageReceipt
    | Commit

  function Exclusive(f: Forest, path: Path, raw: Bytes): Option<Forest>
    requires path != []
  {
    if Lookup(f, path).Some? || IsDir(f, path) then None else Replace(f, path, raw)
  }

  /** `_verify` without the proof files. */
  predicate Verified(p: Package, d: Disk) {
    && Measured(d.tree).Some?
    && TreeSha(Measured(d.tree).value) == p.app
    && |d.routes| == |p.routes|
    && forall j :: 0 <= j < |p.routes| ==> d.routes[j] == p.routes[j].raw
  }

  /** One effect; None when it refuses. */
  function Do(p: Package, d: Disk, op: Op): Option<Disk> {
    match op
    case Reserve =>
      if d.receipt == Absent then Some(d.(receipt := Unknown)) else None
    case StageFile(path, raw) =>
      if path == [] then None
      else (match Exclusive(d.tree, TempOf(path), raw)
            case None => None
            case Some(t) => Some(d.(tree := t)))
    case SwapFile(path, raw) =>
      if path == [] || Lookup(d.tree, TempOf(path)) != Some(raw) then None
      else (match Replace(Unlink(d.tree, TempOf(path)), path, raw)
            case None => None
            case Some(t) => Some(d.(tree := t)))
    case StageRoute(j) =>
      if j < |p.routes| && j < |d.routes| && Sha256(d.routes[j]) == p.routes[j].base && j !in d.routeTemps
      then Some(d.(routeTemps := d.routeTemps + {j})) else None
    case SwapRoute(j) =>
      if j < |p.routes| && j < |d.routes| && j in d.routeTemps
      then Some(d.(routes := d.routes[j := p.routes[j].raw], routeTemps := d.routeTemps - {j})) else None
    case Verify => if Verified(p, d) then Some(d) else None
    case StageReceipt => if d.receiptTemp then None else Some(d.(receiptTemp := true))
    case Commit => if d.receiptTemp then Some(d.(receipt := Waiting, receiptTemp := false)) else None
  }

  /** An effect cut short after some of its bytes. */
  function Partial(p: Package, d: Disk, op: Op, bytes: nat): Disk {
    match op
    case Reserve => if d.receipt == Absent then d.(receipt := Torn) else d
    case StageFile(path, raw) =>
      if path == [] then d
      else (match Exclusive(d.tree, TempOf(path), if bytes <= |raw| then raw[..bytes] else raw)
            case None => d
            case Some(t) => d.(tree := t))
    case StageRoute(j) => if Do(p, d, op).Some? then Do(p, d, op).value else d
    case StageReceipt => d.(receiptTemp := true)
    case _ => d
  }

  function FileOps(files: seq<Change>): seq<Op>
    decreases |files|
  {
    if files == [] then []
    else [StageFile(files[0].path, files[0].raw), SwapFile(files[0].path, files[0].raw)] + FileOps(files[1..])
  }

  function RouteOps(j: nat, n: nat): seq<Op>
    decreases n - j
  {
    if j >= n then [] else [StageRoute(j), SwapRoute(j)] + RouteOps(j + 1, n)
  }

  const TAIL: seq<Op> := [Verify, StageReceipt, Commit]

  function Program(p: Package): seq<Op> {
    [Reserve] + (FileOps(p.files) + (RouteOps(0, |p.routes|) + TAIL))
  }

  /** Where a call stops: after how many effects, and how far into the next one. */
  datatype Stop = Stop(after: nat, inside: Option<nat>)

  datatype Ran = Ran(disk: Disk, stop: Stop, done: bool)

  function Go(p: Package, d: Disk, ops: seq<Op>, stop: Stop): Ran
    decreases |ops|
  {
    if ops == [] then Ran(d, stop, true)
    else if stop.after == 0 then
      Ran(if stop.inside.Some? then Partial(p, d, ops[0], stop.inside.value) else d, stop, false)
    else match Do(p, d, ops[0])
      case None => Ran(d, stop, false)
      case Some(e) => Go(p, e, ops[1..], stop.(after := stop.after - 1))
  }

  // ---------- the calls ----------

  /** Volatile flags: `_state`, and whether the owner was told that the outcome is unknown. */
  datatype Sys = Sys(disk: Disk, attempted: bool, waiting: bool, held: bool)

  datatype Env = Env(
    identity: bool,   // typed identity and hashes of the package
    entry: bool,      // continuity and installed proofs, before anything else
    shapes: bool,     // every route change is the allowed one
    proofs: bool,     // installed proofs, when verifying without applying
    stop: Stop,
    exit: bool)       // continuity, at the end

  datatype Event = Promote(env: Env) | Handoff(env: Env) | Restart

  ghost predicate PlanOk(p: Package, d: Disk)
    requires InScope(p.files)
  {
    && Measured(d.tree).Some?
    && TreeSha(Measured(d.tree).value) == p.base
    && ParentsExist(d.tree, p.files)
    && TreeSha(Planned(Measured(d.tree).value, p.files)) == p.app
  }

  predicate RoutesAtBase(p: Package, d: Disk) {
    |d.routes| == |p.routes| && forall j :: 0 <= j < |p.routes| ==> Sha256(d.routes[j]) == p.routes[j].base
  }

  ghost predicate ApplyGuard(p: Package, d: Disk, env: Env)
    requires InScope(p.files)
  {
    PlanOk(p, d) && RoutesAtBase(p, d) && env.shapes
  }

  /** The protected part of `promote_waiting`: the new disk, and whether it got to the end. */
  ghost function Body(p: Package, d: Disk, env: Env): Ran
    requires InScope(p.files)
  {
    if !env.entry then Ran(d, env.stop, false)
    else if d.receipt != Absent then
      Ran(d, env.stop, d.receipt == Waiting && Verified(p, d) && env.proofs)
    else if !ApplyGuard(p, d, env) then Ran(d, env.stop, false)
    else Go(p, d, Program(p), env.stop)
  }

  lemma PayloadInScope(p: Package)
    requires PayloadOk(p)
    ensures InScope(p.files)
  {
    forall c <- p.files ensures c.path != [] && c.path[0] != NODE_MODULES { }
  }

  ghost function PromoteCall(p: Package, s: Sys, env: Env): (Sys, bool) {
    if s.attempted then (s, false)
    else if !PayloadOk(p) || !env.identity then (s.(attempted := true), false)
    else
      PayloadInScope(p);
      var r := Body(p, s.disk, env);
      if r.done && env.exit then (s.(disk := r.disk, attempted := true, waiting := true), true)
      else (s.(disk := r.disk, attempted := true, waiting := false, held := true), false)
  }

  predicate HandoffOk(p: Package, d: Disk, env: Env) {
    env.entry && PayloadOk(p) && env.identity && d.receipt == Waiting && Verified(p, d) && env.proofs && env.exit
  }

  function HandoffCall(p: Package, s: Sys, env: Env): (Sys, bool) {
    if !s.waiting then (s, false)
    else if HandoffOk(p, s.disk, env) then (s.(waiting := false), true)
    else (s.(waiting := false, held := true), false)
  }

  ghost function Step(p: Package, s: Sys, e: Event): (Sys, bool) {
    match e
    case Promote(env) => PromoteCall(p, s, env)
    case Handoff(env) => HandoffCall(p, s, env)
    case Restart => (Sys(s.disk, false, false, false), true)
  }

  ghost function Exec(p: Package, s: Sys, run: seq<Event>): Sys
    decreases |run|
  {
    if run == [] then s else Exec(p, Step(p, s, run[0]).0, run[1..])
  }

  /** How many handoffs a run grants. */
  ghost function Handoffs(p: Package, s: Sys, run: seq<Event>): nat
    decreases |run|
  {
    if run == [] then 0
    else (if run[0].Handoff? && Step(p, s, run[0]).1 then 1 else 0) + Handoffs(p, Step(p, s, run[0]).0, run[1..])
  }

  function Restarts(run: seq<Event>): nat
    decreases |run|
  {
    if run == [] then 0 else (if run[0].Restart? then 1 else 0) + Restarts(run[1..])
  }

  /** Before the installation: no receipt, no leftovers. */
  function Start(tree: Forest, routes: seq<Bytes>): Sys {
    Sys(Disk(tree, routes, {}, Absent, false), false, false, false)
  }
}
