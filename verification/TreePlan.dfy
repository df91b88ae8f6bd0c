/** Planning a finite delta on the manifest, and applying it to the tree. */
module TreePlan {
  import opened Wrappers
  import opened Tree
  import opened TreePaths

  datatype Change = Change(path: Path, raw: Bytes)

  /** The delta of a package: never an empty path, never dependency material. */
  predicate InScope(delta: seq<Change>) {
    forall c <- delta :: c.path != [] && c.path[0] != NODE_MODULES
  }

  predicate WithinBounds(f: Forest) {
    Dirs(f) <= MAX_DIRS && Files(f) <= MAX_FILES && Total(f) <= MAX_TOTAL
  }

  /** The walk of the app directory: None when a tree bound is exceeded. */
  function Measured(f: Forest): Option<Manifest> {
    if WithinBounds(Sources(f)) then Some(Walked(Sources(f))) else None
  }

  function Overlay(entries: map<Path, Entry>, delta: seq<Change>): map<Path, Entry>
    decreases |delta|
  {
    if delta == [] then entries
    else Overlay(entries[delta[0].path := EntryOf(delta[0].raw)], delta[1..])
  }

  /** The manifest predicted before anything is written. */
  ghost function Planned(m: Manifest, delta: seq<Change>): Manifest {
    var entries := Overlay(m.entries, delta);
    Manifest(m.dirs, entries, SumSizes(entries))
  }

  predicate ParentsExist(f: Forest, delta: seq<Change>)
    requires InScope(delta)
  {
    forall c <- delta :: IsDir(f, Parent(c.path))
  }

  predicate NoTargetIsDirectory(f: Forest, delta: seq<Change>) {
    forall c <- delta :: !IsDir(f, c.path)
  }

  function ApplyAll(f: Forest, delta: seq<Change>): Option<Forest>
    requires InScope(delta)
    decreases |delta|
  {
    if delta == [] then Some(f)
    else match Replace(f, delta[0].path, delta[0].raw)
      case None => None
      case Some(g) => ApplyAll(g, delta[1..])
  }

  /** `_planned`: the dictionary of entries updated path by path. */
  method Plan(f: Forest, delta: seq<Change>) returns (r: Option<Manifest>)
    requires InScope(delta)
    ensures r.Some? <==> Measured(f).Some? && ParentsExist(f, delta)
    ensures r.Some? ==> r.value == Planned(Measured(f).value, delta)
  {
    var m := Measured(f);
    if m.None? { return None; }
    var entries, i := m.value.entries, 0;
    while i < |delta|
      invariant 0 <= i <= |delta|
      invariant forall j :: 0 <= j < i ==> IsDir(f, Parent(delta[j].path))
      invariant Overlay(entries, delta[i..]) == Overlay(m.value.entries, delta)
    {
      if !IsDir(f, Parent(delta[i].path)) { return None; }
      entries := entries[delta[i].path := EntryOf(delta[i].raw)];
      assert delta[i..][1..] == delta[i + 1..];
      i := i + 1;
    }
    var total := Sum(entries);
    r := Some(Manifest(m.value.dirs, entries, total));
  }

  method Sum(m: map<Path, Entry>) returns (total: nat)
    ensures total == SumSizes(m)
  {
    var rest := m;
    total := 0;
    while rest != map[]
      invariant total + SumSizes(rest) == SumSizes(m)
      decreases |rest|
    {
      var p :| p in rest;
      SumWithout(rest, p);
      total, rest := total + rest[p].size, rest - {p};
    }
  }

  lemma {:induction false} ApplySucceeds(f: Forest, delta: seq<Change>)
    requires InScope(delta)
    ensures ApplyAll(f, delta).Some? <==> ParentsExist(f, delta) && NoTargetIsDirectory(f, delta)
    decreases |delta|
  {
    if delta != [] {
      var c := delta[0];
      assert delta == [c] + delta[1..];
      ReplaceSucceeds(f, c.path, c.raw);
      if Replace(f, c.path, c.raw).Some? {
        var g := Replace(f, c.path, c.raw).value;
        ApplySucceeds(g, delta[1..]);
        forall q ensures IsDir(g, q) <==> IsDir(f, q) { ReplaceReads(f, c.path, c.raw, q); }
      }
    }
  }

  lemma {:induction false} ApplyEntries(f: Forest, delta: seq<Change>)
    requires Wf(f) && InScope(delta) && ApplyAll(f, delta).Some?
    ensures var g := ApplyAll(f, delta).value;
      Wf(g) && Dirs(g) == Dirs(f) && Entries(g, []) == Overlay(Entries(f, []), delta)
    decreases |delta|
  {
    if delta != [] {
      var c := delta[0];
      ReplaceKeeps(f, c.path, c.raw);
      ReplaceEntries(f, c.path, c.raw);
      ApplyEntries(Replace(f, c.path, c.raw).value, delta[1..]);
    }
  }

  lemma {:induction false} SourcesApply(f: Forest, delta: seq<Change>)
    requires InScope(delta) && ApplyAll(f, delta).Some?
    ensures ApplyAll(Sources(f), delta) == Some(Sources(ApplyAll(f, delta).value))
    decreases |delta|
  {
    if delta != [] {
      SourcesReplace(f, delta[0].path, delta[0].raw);
      SourcesApply(Replace(f, delta[0].path, delta[0].raw).value, delta[1..]);
    }
  }

  /** Planning commutes with applying.  The replacements all succeed exactly when every parent exists
      and no target is a directory, and then the walked manifest is the predicted one. */
  lemma PlanCommutes(f: Forest, delta: seq<Change>)
    requires Wf(f) && InScope(delta)
    ensures ApplyAll(f, delta).Some? <==> ParentsExist(f, delta) && NoTargetIsDirectory(f, delta)
    ensures ApplyAll(f, delta).Some? ==>
              Walked(Sources(ApplyAll(f, delta).value)) == Planned(Walked(Sources(f)), delta)
  {
    ApplySucceeds(f, delta);
    if ApplyAll(f, delta).Some? {
      SourcesApply(f, delta);
      SourcesWf(f);
      ApplyEntries(Sources(f), delta);
      TotalIsSum(Sources(ApplyAll(f, delta).value), []);
    }
  }

  /** The check after the replacements can reject an accepted plan for one reason only: the plan does
      not apply the tree bounds to the manifest it predicts, and the walk does. */
  lemma VerifyAgreesWithPlan(f: Forest, delta: seq<Change>)
    requires Wf(f) && InScope(delta) && Measured(f).Some? && ApplyAll(f, delta).Some?
    ensures var predicted := Planned(Measured(f).value, delta);
      var after := Measured(ApplyAll(f, delta).value);
      && (after == Some(predicted) <==> |predicted.entries| <= MAX_FILES && predicted.total <= MAX_TOTAL)
      && (after != Some(predicted) ==> after == None)
  {
    PlanCommutes(f, delta);
    SourcesApply(f, delta);
    SourcesWf(f);
    ApplyEntries(Sources(f), delta);
    TotalIsSum(Sources(ApplyAll(f, delta).value), []);
  }

  /** The bytes the delta leaves at a path, None where it does not write. */
  function LastWrite(delta: seq<Change>, q: Path): Option<Bytes>
    decreases |delta|
  {
    if delta == [] then None
    else if LastWrite(delta[1..], q).Some? then LastWrite(delta[1..], q)
    else if delta[0].path == q then Some(delta[0].raw)
    else None
  }

  /** Bytes outside the delta are what they were; a path in it holds its last bytes. */
  lemma {:induction false} ApplyReads(f: Forest, delta: seq<Change>, q: Path)
    requires InScope(delta) && ApplyAll(f, delta).Some?
    ensures Lookup(ApplyAll(f, delta).value, q)
            == if LastWrite(delta, q).Some? then LastWrite(delta, q) else Lookup(f, q)
    decreases |delta|
  {
    if delta != [] {
      ReplaceReads(f, delta[0].path, delta[0].raw, q);
      ApplyReads(Replace(f, delta[0].path, delta[0].raw).value, delta[1..], q);
    }
  }
}
