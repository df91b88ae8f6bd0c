/** The bootstrap installation: reserve, publish four artifacts exclusively in a fixed order, commit;
    after a restart, reattach to a committed installation without writing. */
module Bootstrap {
  import opened Wrappers
  import opened Tree

  datatype Artifact = Floor | Validator | Scope | Authority

  const ORDER: seq<Artifact> := [Floor, Validator, Scope, Authority]

  type Sealed = f: Artifact -> Bytes | forall a :: f(a) != [] witness (a: Artifact) => [0]

  /** Torn stands for every text that is neither record. */
  datatype Receipt = Absent | Torn | Unknown | Committed

  datatype Disk = Disk(files: map<Artifact, Bytes>, receipt: Receipt)

  datatype Pins = Pins(authority: Digest, scope: Digest)

  datatype Sys = Sys(disk: Disk, attempted: bool, pins: Option<Pins>)

  /** How many writes complete, and how many bytes of the next one land (None: not even its file). */
  datatype Stop = Stop(after: nat, inside: Option<nat>)

  datatype Env = Env(
    selector: bool,  // the compiled event selector is one of the two allowed values
    inputs: bool,    // the sealed inputs pass every shape, digest and time check
    access: bool,    // lock, parents and containers open as required
    stop: Stop,
    exit: bool)      // the rest of the call raises nothing

  datatype Published = Published(files: map<Artifact, Bytes>, stop: Stop, done: bool)

  /** Exclusive creation of each artifact in turn. */
  function PublishAll(sealed: Sealed, files: map<Artifact, Bytes>, todo: seq<Artifact>, stop: Stop): Published
    decreases |todo|
  {
    if todo == [] then Published(files, stop, true)
    else
      var a := todo[0];
      if a in files then Published(files, stop, false)
      else if stop.after == 0 then
        Published(if stop.inside.Some? then files[a := Cut(sealed(a), stop.inside.value)] else files, stop, false)
      else PublishAll(sealed, files[a := sealed(a)], todo[1..], stop.(after := stop.after - 1))
  }

  function Cut(raw: Bytes, n: nat): Bytes { if n <= |raw| then raw[..n] else raw }

  predicate AllSealed(sealed: Sealed, files: map<Artifact, Bytes>) {
    forall a <- ORDER :: a in files && files[a] == sealed(a)
  }

  datatype Ran = Ran(disk: Disk, done: bool)

  /** No receipt yet: reserve first, whatever comes next. */
  function Install(sealed: Sealed, d: Disk, stop: Stop): Ran
  {
    if stop.after == 0 then Ran(if stop.inside.Some? then d.(receipt := Torn) else d, false)
    else
      var reserved := d.(receipt := Unknown);
      if d.files != map[] then Ran(reserved, false)
      else
        var r := PublishAll(sealed, d.files, ORDER, stop.(after := stop.after - 1));
        var written := reserved.(files := r.files);
        if r.done && AllSealed(sealed, r.files) && r.stop.after > 0
        then Ran(written.(receipt := Committed), true) else Ran(written, false)
  }

  function Body(sealed: Sealed, d: Disk, env: Env): Ran {
    if !env.access then Ran(d, false)
    else match d.receipt
      case Absent => Install(sealed, d, env.stop)
      case Committed => Ran(d, AllSealed(sealed, d.files))
      case _ => Ran(d, false)
  }

  function PinsOf(sealed: Sealed): Pins { Pins(Sha256(sealed(Authority)), Sha256(sealed(Scope))) }

  /** `installation_bootstrap`, and whether it returned. */
  function Call(sealed: Sealed, s: Sys, env: Env): (Sys, bool) {
    if !env.selector || s.attempted then (s, false)
    else if !env.inputs then (s.(attempted := true), false)
    else
      var r := Body(sealed, s.disk, env);
      if r.done && env.exit then (Sys(r.disk, true, Some(PinsOf(sealed))), true)
      else (Sys(r.disk, true, None), false)
  }

  datatype Event = Bootstrap(env: Env) | Restart

  function Step(sealed: Sealed, s: Sys, e: Event): (Sys, bool) {
    match e
    case Bootstrap(env) => Call(sealed, s, env)
    case Restart => (Sys(s.disk, false, None), true)
  }

  function Exec(sealed: Sealed, s: Sys, run: seq<Event>): Sys
    decreases |run|
  {
    if run == [] then s else Exec(sealed, Step(sealed, s, run[0]).0, run[1..])
  }

  function Start(files: map<Artifact, Bytes>): Sys { Sys(Disk(files, Absent), false, None) }

  /** The volatile flags, and files published in place. */
  class Installer {
    const sealed: Sealed
    var files: map<Artifact, Bytes>
    var receipt: Receipt
    var attempted: bool
    var pins: Option<Pins>
    var stop: Stop

    constructor (sealed: Sealed, files: map<Artifact, Bytes>)
      ensures this.sealed == sealed && State() == Start(files)
    {
      this.sealed, this.files := sealed, files;
      receipt, attempted, pins, stop := Absent, false, None, Stop(0, None);
    }

    function State(): Sys
      reads this
    {
      Sys(Disk(files, receipt), attempted, pins)
    }

    /** `_publish` of one artifact. */
    method Publish(a: Artifact) returns (ok: bool)
      modifies this`files, this`stop
      ensures Published(files, stop, ok) == PublishAll(sealed, old(files), [a], old(stop))
    {
      if a in files { return false; }
      if stop.after == 0 {
        if stop.inside.Some? { files := files[a := Cut(sealed(a), stop.inside.value)]; }
        return false;
      }
      files, stop := files[a := sealed(a)], stop.(after := stop.after - 1);
      ok := true;
    }

    method PublishInOrder() returns (ok: bool)
      modifies this`files, this`stop
      ensures Published(files, stop, ok) == PublishAll(sealed, old(files), ORDER, old(stop))
    {
      var i := 0;
      ok := true;
      while i < |ORDER|
        invariant 0 <= i <= |ORDER|
        invariant PublishAll(sealed, files, ORDER[i..], stop) == PublishAll(sealed, old(files), ORDER, old(stop))
      {
        assert ORDER[i..][0] == ORDER[i] && ORDER[i..][1..] == ORDER[i + 1..];
        ok := Publish(ORDER[i]);
        if !ok { return; }
        i := i + 1;
      }
      ok := true;
    }

    method InstallNow() returns (ok: bool)
      requires receipt == Absent
      modifies this`files, this`stop, this`receipt
      ensures Ran(Disk(files, receipt), ok) == Install(sealed, old(Disk(files, receipt)), old(stop))
    {
      if stop.after == 0 {
        if stop.inside.Some? { receipt := Torn; }
        return false;
      }
      receipt, stop := Unknown, stop.(after := stop.after - 1);
      if files != map[] { return false; }
      ok := PublishInOrder();
      if !ok || !AllSealed(sealed, files) || stop.after == 0 { return false; }
      receipt := Committed;
    }

    method InstallationBootstrap(env: Env) returns (ok: bool)
      modifies this
      ensures (State(), ok) == Call(sealed, old(State()), env)
    {
      if !env.selector || attempted { return false; }
      attempted := true;
      if !env.inputs { return false; }
      ok := false;
      if env.access {
        if receipt == Absent {
          stop := env.stop;
          ok := InstallNow();
        } else {
          ok := receipt == Committed && AllSealed(sealed, files);
        }
      }
      ok := ok && env.exit;
      pins := if ok then Some(PinsOf(sealed)) else None;
    }
  }
}
