/** The manifest computed from captured file names alone, against the recursive walk. */
module TreeFlat {
  import opened Wrappers
  import opened Strings
  import opened Tree
  import opened TreePaths

  // ---------- names and paths ----------

  predicate Plain(name: string) { '/' !in name }

  function Join(path: Path): string {
    if path == [] then "" else if |path| == 1 then path[0] else path[0] + "/" + Join(path[1..])
  }

  /** Splitting a relative name gives back the path it was joined from, so two paths never share a
      manifest name. */
  lemma {:induction false} SplitJoin(path: Path)
    requires path != [] && forall n <- path :: Plain(n)
    ensures SplitOn(Join(path), '/') == path
    decreases |path|
  {
    assert Plain(path[0]);
    if |path| == 1 {
      SplitPlain(path[0], '/', "");
      assert path == [path[0]];
    } else {
      SplitJoin(path[1..]);
      SplitPlain(path[0], '/', Join(path[1..]));
      assert path == [path[0]] + path[1..];
    }
  }

  // ---------- the flat manifest ----------

  /** Every proper nonempty prefix of a captured name. */
  ghost function FlatDirs(names: set<Path>): set<Path> {
    set p, d | p in names && 1 <= d < |p| :: p[..d]
  }

  ghost function Flat(tree: map<Path, Bytes>): Manifest {
    var entries := map p | p in tree :: EntryOf(tree[p]);
    Manifest(|FlatDirs(tree.Keys)|, entries, SumSizes(entries))
  }

  /** The capture holds every file of the tree and nothing else. */
  ghost predicate Captures(tree: map<Path, Bytes>, f: Forest) {
    forall p :: Lookup(f, p) == if p in tree then Some(tree[p]) else None
  }

  ghost predicate EveryDirectoryHoldsAFile(f: Forest) {
    forall p :: p != [] && IsDir(f, p) ==> exists q :: Lookup(f, p + q).Some?
  }

  // ---------- counting directories ----------

  ghost function DirPaths(f: Forest, prefix: Path): set<Path> {
    match f
    case Nil => {}
    case Cons(_, File(_), rest) => DirPaths(rest, prefix)
    case Cons(name, Dir(kids), rest) =>
      {prefix + [name]} + DirPaths(kids, prefix + [name]) + DirPaths(rest, prefix)
  }

  lemma {:induction false} DirPathsUnder(f: Forest, prefix: Path, p: Path)
    requires p in DirPaths(f, prefix)
    ensures |prefix| < |p| && p[..|prefix|] == prefix && Lists(f, p[|prefix|])
    decreases f
  {
    match f
    case Cons(name, File(_), rest) => DirPathsUnder(rest, prefix, p);
    case Cons(name, Dir(kids), rest) =>
      if p in DirPaths(rest, prefix) { DirPathsUnder(rest, prefix, p); }
      else if p in DirPaths(kids, prefix + [name]) {
        DirPathsUnder(kids, prefix + [name], p);
        assert p[..|prefix|] == p[..|prefix| + 1][..|prefix|];
        assert p[|prefix|] == p[..|prefix| + 1][|prefix|];
      }
  }

  lemma {:induction false} DirPathsCount(f: Forest, prefix: Path)
    requires Wf(f)
    ensures |DirPaths(f, prefix)| == Dirs(f)
    decreases f
  {
    match f
    case Nil =>
    case Cons(_, File(_), rest) => DirPathsCount(rest, prefix);
    case Cons(name, Dir(kids), rest) =>
      DirPathsCount(kids, prefix + [name]);
      DirPathsCount(rest, prefix);
      var here, below, beside := {prefix + [name]}, DirPaths(kids, prefix + [name]), DirPaths(rest, prefix);
      forall p | p in here + below && p in beside ensures false {
        if p in below {
          DirPathsUnder(kids, prefix + [name], p);
          assert p[|prefix|] == p[..|prefix| + 1][|prefix|];
        }
        DirPathsUnder(rest, prefix, p);
      }
      if prefix + [name] in below { DirPathsUnder(kids, prefix + [name], prefix + [name]); }
      assert here !! below && (here + below) !! beside;
      assert |here + below| == 1 + |below|;
  }

  lemma {:induction false} DirPathsAre(f: Forest, prefix: Path, q: Path)
    requires Wf(f)
    ensures prefix + q in DirPaths(f, prefix) <==> q != [] && IsDir(f, q)
    decreases f, 0
  {
    if q == [] {
      if prefix + q in DirPaths(f, prefix) { DirPathsUnder(f, prefix, prefix + q); }
    } else {
      match f
      case Nil =>
      case Cons(name, node, rest) =>
        DirPathsAre(rest, prefix, q);
        FindWf(rest, name);
        assert (prefix + q)[|prefix|] == q[0];
        if node.Dir? { KidsDirs(node.kids, name, prefix, q); }
    }
  }

  lemma {:induction false} KidsDirs(kids: Forest, name: string, prefix: Path, q: Path)
    requires Wf(kids) && q != []
    ensures prefix + q in {prefix + [name]} + DirPaths(kids, prefix + [name])
            <==> q[0] == name && IsDir(kids, q[1..])
    decreases kids, 1
  {
    assert (prefix + q)[|prefix|] == q[0];
    if q[0] == name {
      assert prefix + q == prefix + [name] + q[1..];
      DirPathsAre(kids, prefix + [name], q[1..]);
      if |q| == 1 { assert q == [name]; }
    } else if prefix + q in DirPaths(kids, prefix + [name]) {
      DirPathsUnder(kids, prefix + [name], prefix + q);
    }
  }

  lemma {:induction false} ParentsAreDirs(f: Forest, p: Path, d: nat)
    requires Lookup(f, p).Some? && d < |p|
    ensures IsDir(f, p[..d])
    decreases d
  {
    if d > 0 {
      match Find(f, p[0])
      case Some(Dir(kids)) =>
        ParentsAreDirs(kids, p[1..], d - 1);
        assert p[..d][1..] == p[1..][..d - 1];
    }
  }

  lemma {:induction false} NoFileAtDir(f: Forest, p: Path)
    requires IsDir(f, p)
    ensures Lookup(f, p).None?
    decreases |p|
  {
    if p != [] { NoFileAtDir(Find(f, p[0]).value.kids, p[1..]); }
  }

  lemma FlatDirsAreDirs(tree: map<Path, Bytes>, f: Forest)
    requires Wf(f) && Captures(tree, f)
    ensures FlatDirs(tree.Keys) <= DirPaths(f, [])
  {
    forall x | x in FlatDirs(tree.Keys) ensures x in DirPaths(f, []) {
      var p, d :| p in tree.Keys && 1 <= d < |p| && x == p[..d];
      ParentsAreDirs(f, p, d);
      DirPathsAre(f, [], x);
      assert [] + x == x;
    }
  }

  lemma FlatDirIff(tree: map<Path, Bytes>, f: Forest, x: Path)
    requires Captures(tree, f) && x != [] && IsDir(f, x)
    ensures x in FlatDirs(tree.Keys) <==> exists q :: Lookup(f, x + q).Some?
  {
    if x in FlatDirs(tree.Keys) {
      var p, d :| p in tree.Keys && 1 <= d < |p| && x == p[..d];
      assert p == x + p[d..];
    }
    if q :| Lookup(f, x + q).Some? {
      if q == [] { assert x + q == x; NoFileAtDir(f, x); }
      assert x + q in tree.Keys && (x + q)[..|x|] == x;
    }
  }


  lemma FlatEntries(tree: map<Path, Bytes>, f: Forest)
    requires Wf(f) && Captures(tree, f)
    ensures Flat(tree).entries == Entries(f, [])
  {
    forall q ensures q in tree <==> q in Entries(f, []) { EntriesAt(f, q); }
    forall q | q in Entries(f, []) ensures Entries(f, [])[q] == EntryOf(tree[q]) { EntriesAt(f, q); }
  }

  lemma FlatCoversDirs(tree: map<Path, Bytes>, f: Forest)
    requires Wf(f) && Captures(tree, f)
    ensures FlatDirs(tree.Keys) == DirPaths(f, []) <==> EveryDirectoryHoldsAFile(f)
  {
    FlatDirsAreDirs(tree, f);
    forall x ensures x in DirPaths(f, []) <==> x != [] && IsDir(f, x) {
      DirPathsAre(f, [], x);
      assert [] + x == x;
    }
    forall x | x != [] && IsDir(f, x)
      ensures x in FlatDirs(tree.Keys) <==> exists q :: Lookup(f, x + q).Some?
    {
      FlatDirIff(tree, f, x);
    }
    hide FlatDirs, DirPaths, IsDir, Lookup;
  }

  lemma Sizes(a: set<Path>, b: set<Path>)
    requires a <= b
    ensures |a| <= |b| && (|a| == |b| <==> a == b)
  {
    assert b == a + (b - a);
    assert |b - a| == |b| - |a|;
  }

  /** The flat manifest equals the walked one exactly when every directory holds a file somewhere
      beneath it; it never counts more directories than the walk. */
  lemma FlatIsWalked(tree: map<Path, Bytes>, f: Forest)
    requires Wf(f) && Captures(tree, f)
    ensures Flat(tree) == Walked(f) <==> EveryDirectoryHoldsAFile(f)
    ensures Flat(tree).entries == Walked(f).entries && Flat(tree).total == Walked(f).total
    ensures Flat(tree).dirs <= Walked(f).dirs
  {
    hide EveryDirectoryHoldsAFile, Captures, FlatDirs, DirPaths;
    FlatDirsAreDirs(tree, f);
    FlatEntries(tree, f);
    FlatCoversDirs(tree, f);
    Sizes(FlatDirs(tree.Keys), DirPaths(f, []));
    DirPathsCount(f, []);
    TotalIsSum(f, []);
  }
}
