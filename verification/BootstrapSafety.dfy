/** What every run of the bootstrap installation keeps. */
module BootstrapSafety {
  import opened Wrappers
  import opened Tree
  import opened Bootstrap

  /** An artifact is present only if every earlier one is present and exact. */
  predicate Ordered(sealed: Sealed, files: map<Artifact, Bytes>) {
    forall i, j :: 0 <= i < j < |ORDER| && ORDER[j] in files ==> ORDER[i] in files && files[ORDER[i]] == sealed(ORDER[i])
  }

  predicate HasFirst(sealed: Sealed, files: map<Artifact, Bytes>, n: nat)
    requires n <= |ORDER|
  {
    && (forall i :: 0 <= i < n ==> ORDER[i] in files && files[ORDER[i]] == sealed(ORDER[i]))
    && (forall i :: n <= i < |ORDER| ==> ORDER[i] !in files)
  }

  lemma FirstIsOrdered(sealed: Sealed, files: map<Artifact, Bytes>, n: nat)
    requires n <= |ORDER| && HasFirst(sealed, files, n)
    ensures Ordered(sealed, files) && (n == |ORDER| ==> AllSealed(sealed, files))
    ensures n < |ORDER| ==> ORDER[n] !in files
  {
  }

  lemma Distinct(i: nat, j: nat)
    requires i < |ORDER| && j < |ORDER| && ORDER[i] == ORDER[j]
    ensures i == j
  {
  }

  lemma FirstStep(sealed: Sealed, files: map<Artifact, Bytes>, n: nat, raw: Bytes)
    requires n < |ORDER| && HasFirst(sealed, files, n)
    ensures Ordered(sealed, files[ORDER[n] := raw])
    ensures raw == sealed(ORDER[n]) ==> HasFirst(sealed, files[ORDER[n] := raw], n + 1)
  {
    var next := files[ORDER[n] := raw];
    forall i | 0 <= i < |ORDER| && i != n
      ensures ORDER[i] in next <==> ORDER[i] in files
      ensures ORDER[i] in files ==> next[ORDER[i]] == files[ORDER[i]]
    {
      if ORDER[i] == ORDER[n] { Distinct(i, n); }
    }
  }

  lemma PublishHead(sealed: Sealed, files: map<Artifact, Bytes>, n: nat, stop: Stop)
    requires n < |ORDER| && ORDER[n] !in files
    ensures PublishAll(sealed, files, ORDER[n..], stop) ==
      if stop.after == 0 then
        Published(if stop.inside.Some? then files[ORDER[n] := Cut(sealed(ORDER[n]), stop.inside.value)] else files, stop, false)
      else PublishAll(sealed, files[ORDER[n] := sealed(ORDER[n])], ORDER[n + 1..], stop.(after := stop.after - 1))
  {
    hide Cut;
    assert ORDER[n..][0] == ORDER[n] && ORDER[n..][1..] == ORDER[n + 1..];
  }

  lemma PublishNone(sealed: Sealed, files: map<Artifact, Bytes>, stop: Stop)
    ensures PublishAll(sealed, files, ORDER[|ORDER|..], stop) == Published(files, stop, true)
  {
  }

  lemma {:induction false} PublishKeepsOrder(sealed: Sealed, files: map<Artifact, Bytes>, n: nat, stop: Stop)
    requires n <= |ORDER| && HasFirst(sealed, files, n)
    ensures var r := PublishAll(sealed, files, ORDER[n..], stop);
      Ordered(sealed, r.files) && (r.done ==> AllSealed(sealed, r.files))
      && (r.done <==> stop.after >= |ORDER| - n) && (r.done ==> r.stop.after == stop.after - (|ORDER| - n))
    decreases |ORDER| - n
  {
    FirstIsOrdered(sealed, files, n);
    hide Ordered, AllSealed, HasFirst, PublishAll, Cut;
    if n < |ORDER| {
      PublishHead(sealed, files, n, stop);
      if stop.after > 0 {
        FirstStep(sealed, files, n, sealed(ORDER[n]));
        PublishKeepsOrder(sealed, files[ORDER[n] := sealed(ORDER[n])], n + 1, stop.(after := stop.after - 1));
      } else if stop.inside.Some? {
        FirstStep(sealed, files, n, Cut(sealed(ORDER[n]), stop.inside.value));
      }
    } else {
      PublishNone(sealed, files, stop);
    }
  }

  lemma InstallKeeps(sealed: Sealed, d: Disk, stop: Stop)
    requires d.receipt == Absent
    ensures var r := Install(sealed, d, stop);
      && (r.disk.receipt == Absent ==> r.disk == d)
      && (d.files != map[] ==> r.disk.files == d.files && r.disk.receipt != Committed)
      && (d.files == map[] ==> Ordered(sealed, r.disk.files))
      && (r.disk.receipt == Committed <==> r.done)
      && (r.done <==> d.files == map[] && stop.after >= |ORDER| + 2)
      && (r.done ==> AllSealed(sealed, r.disk.files))
  {
    if stop.after > 0 && d.files == map[] {
      assert ORDER[0..] == ORDER;
      PublishKeepsOrder(sealed, d.files, 0, stop.(after := stop.after - 1));
    }
  }

  predicate Inv(sealed: Sealed, base: map<Artifact, Bytes>, s: Sys) {
    && (s.disk.receipt == Absent ==> s.disk.files == base)
    && (base != map[] ==> s.disk.files == base && s.disk.receipt != Committed)
    && (base == map[] ==> Ordered(sealed, s.disk.files))
    && (s.disk.receipt == Committed ==> AllSealed(sealed, s.disk.files))
    && (s.pins.Some? ==> s.attempted && s.disk.receipt == Committed && s.pins == Some(PinsOf(sealed)))
  }

  lemma InvStep(sealed: Sealed, base: map<Artifact, Bytes>, s: Sys, e: Event)
    requires Inv(sealed, base, s)
    ensures Inv(sealed, base, Step(sealed, s, e).0)
    ensures s.disk.receipt != Absent ==> Step(sealed, s, e).0.disk == s.disk
  {
    if e.Bootstrap? && s.disk.receipt == Absent { InstallKeeps(sealed, s.disk, e.env.stop); }
  }

  lemma {:induction false} InvRun(sealed: Sealed, base: map<Artifact, Bytes>, s: Sys, run: seq<Event>)
    requires Inv(sealed, base, s)
    ensures Inv(sealed, base, Exec(sealed, s, run))
    ensures s.disk.receipt != Absent ==> Exec(sealed, s, run).disk == s.disk
    decreases |run|
  {
    if run != [] {
      InvStep(sealed, base, s, run[0]);
      InvRun(sealed, base, Step(sealed, s, run[0]).0, run[1..]);
    }
  }

  /** In every crash state: a changed artifact implies a receipt; a committed receipt implies that all
      four artifacts hold their sealed bytes; an authority the run put there implies that the other
      three hold theirs; and a file found in place is never touched nor committed over. */
  lemma InstallationIsExact(sealed: Sealed, base: map<Artifact, Bytes>, run: seq<Event>)
    ensures var d := Exec(sealed, Start(base), run).disk;
      && (d.files != base ==> d.receipt != Absent)
      && (d.receipt == Committed ==> base == map[] && forall a: Artifact :: a in d.files && d.files[a] == sealed(a))
      && (Authority in d.files && Authority !in base ==>
            forall a <- [Floor, Validator, Scope] :: a in d.files && d.files[a] == sealed(a))
      && (base != map[] ==> d.files == base)
  {
    InvRun(sealed, base, Start(base), run);
    var d := Exec(sealed, Start(base), run).disk;
    forall a: Artifact ensures a in ORDER { EveryArtifact(a); }
    assert ORDER[3] == Authority && ORDER[0] == Floor && ORDER[1] == Validator && ORDER[2] == Scope;
  }

  /** A receipt freezes the disk; an uncommitted one also refuses every later call. */
  lemma ReceiptBlocks(sealed: Sealed, base: map<Artifact, Bytes>, run: seq<Event>, more: seq<Event>)
    ensures var s := Exec(sealed, Start(base), run);
      s.disk.receipt != Absent ==> Exec(sealed, s, more).disk == s.disk
    ensures var s := Exec(sealed, Start(base), run);
      s.disk.receipt in {Unknown, Torn} ==>
        forall env :: !Call(sealed, Exec(sealed, s, more), env).1
  {
    InvRun(sealed, base, Start(base), run);
    InvRun(sealed, base, Exec(sealed, Start(base), run), more);
  }

  lemma EveryArtifact(a: Artifact)
    ensures a in ORDER
  {
    assert ORDER[0] == Floor && ORDER[1] == Validator && ORDER[2] == Scope && ORDER[3] == Authority;
  }

  /** Activation pins are set only over a committed, exact installation: to the digest of the authority
      file and the digest of the scope file that are in place. */
  lemma PinsAreTruthful(sealed: Sealed, base: map<Artifact, Bytes>, run: seq<Event>)
    ensures var s := Exec(sealed, Start(base), run);
      s.pins.Some? ==>
        && s.disk.receipt == Committed
        && (forall a: Artifact :: a in s.disk.files && s.disk.files[a] == sealed(a))
        && s.pins.value.authority == Sha256(s.disk.files[Authority])
        && s.pins.value.scope == Sha256(s.disk.files[Scope])
  {
    InvRun(sealed, base, Start(base), run);
    forall a: Artifact ensures a in ORDER { EveryArtifact(a); }
  }

  /** One call per process: the second one is refused and changes nothing. */
  lemma OneCallPerProcess(sealed: Sealed, s: Sys, env: Env, again: Env)
    ensures env.selector ==> Call(sealed, s, env).0.attempted
    ensures s.attempted ==> Call(sealed, s, again) == (s, false)
    ensures !env.selector ==> Call(sealed, s, env) == (s, false)
  {
  }

  /** A call that returns has set them. */
  lemma ReturnSetsPins(sealed: Sealed, s: Sys, env: Env)
    ensures Call(sealed, s, env).1 ==>
              Call(sealed, s, env).0.pins == Some(Pins(Sha256(sealed(Authority)), Sha256(sealed(Scope))))
    ensures !Call(sealed, s, env).1 && !s.attempted && env.selector && env.inputs ==> Call(sealed, s, env).0.pins == None
  {
  }

  /** Exactly when a first call in a process life returns: over a committed installation, or over an
      empty one when all six writes complete. */
  lemma ReturnsExactly(sealed: Sealed, base: map<Artifact, Bytes>, run: seq<Event>, env: Env)
    ensures var s := Exec(sealed, Start(base), run);
      Call(sealed, s, env).1 <==>
        && env.selector && !s.attempted && env.inputs && env.access && env.exit
        && (s.disk.receipt == Committed ||
            (s.disk.receipt == Absent && base == map[] && env.stop.after >= |ORDER| + 2))
  {
    InvRun(sealed, base, Start(base), run);
    var s := Exec(sealed, Start(base), run);
    if s.disk.receipt == Absent { InstallKeeps(sealed, s.disk, env.stop); }
  }
}
