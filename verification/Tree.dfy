/** The source tree and its manifest, shared by maintenance, bootstrap packaging and the shim
    compiler.  File digests are symbolic, so an entry determines the bytes of its file. */
module Tree {

  type Bytes = seq<int>

  datatype Digest = Sha256(raw: Bytes)

  /** A directory listing.  Every result below holds for any order of the entries. */
  datatype Forest = Nil | Cons(name: string, node: Node, rest: Forest)
  datatype Node = File(raw: Bytes) | Dir(kids: Forest)

  type Path = seq<string>

  datatype Entry = Entry(size: nat, digest: Digest)

  /** The manifest that is hashed: how many directories, every file, and the bytes in all. */
  datatype Manifest = Manifest(dirs: nat, entries: map<Path, Entry>, total: nat)

  const MAX_DIRS := 128
  const MAX_FILES := 512
  const MAX_TOTAL := 4 * 1024 * 1024

  function EntryOf(raw: Bytes): Entry { Entry(|raw|, Sha256(raw)) }

  // ---------- the recursive walk ----------

  predicate Lists(f: Forest, name: string) {
    f.Cons? && (f.name == name || Lists(f.rest, name))
  }

  /** No directory lists a name twice. */
  predicate Wf(f: Forest) {
    f.Cons? ==>
      && !Lists(f.rest, f.name)
      && Wf(f.rest)
      && (f.node.Dir? ==> Wf(f.node.kids))
  }

  function Entries(f: Forest, prefix: Path): map<Path, Entry> {
    match f
    case Nil => map[]
    case Cons(name, File(raw), rest) => map[prefix + [name] := EntryOf(raw)] + Entries(rest, prefix)
    case Cons(name, Dir(kids), rest) => Entries(kids, prefix + [name]) + Entries(rest, prefix)
  }

  function Dirs(f: Forest): nat {
    match f
    case Nil => 0
    case Cons(_, File(_), rest) => Dirs(rest)
    case Cons(_, Dir(kids), rest) => 1 + Dirs(kids) + Dirs(rest)
  }

  /** The running byte total of the walk. */
  function Total(f: Forest): nat {
    match f
    case Nil => 0
    case Cons(_, File(raw), rest) => |raw| + Total(rest)
    case Cons(_, Dir(kids), rest) => Total(kids) + Total(rest)
  }

  /** How many files the walk appends to its list. */
  function Files(f: Forest): nat {
    match f
    case Nil => 0
    case Cons(_, File(_), rest) => 1 + Files(rest)
    case Cons(_, Dir(kids), rest) => Files(kids) + Files(rest)
  }

  function Walked(f: Forest): Manifest { Manifest(Dirs(f), Entries(f, []), Total(f)) }

  /** `nonlocal` counters and the entry list of the recursive walk. */
  class Walker {
    var entries: map<Path, Entry>
    var files: nat
    var directories: nat
    var total: nat

    constructor ()
      ensures entries == map[] && files == directories == total == 0
    {
      entries, files, directories, total := map[], 0, 0, 0;
    }

    predicate Within()
      reads this
    {
      directories <= MAX_DIRS && files <= MAX_FILES && total <= MAX_TOTAL
    }

    /** Visits one directory; false when a tree bound is exceeded. */
    method Walk(f: Forest, prefix: Path) returns (ok: bool)
      requires Within()
      modifies this
      ensures ok ==> entries == old(entries) + Entries(f, prefix)
      ensures ok ==> directories == old(directories) + Dirs(f)
      ensures ok ==> total == old(total) + Total(f) && files == old(files) + Files(f)
      ensures ok ==> Within()
      ensures !ok ==> old(directories) + Dirs(f) > MAX_DIRS || old(files) + Files(f) > MAX_FILES
                      || old(total) + Total(f) > MAX_TOTAL
      decreases f
    {
      match f
      case Nil =>
        ok := true;
      case Cons(name, File(raw), rest) =>
        entries := entries[prefix + [name] := EntryOf(raw)];
        files, total := files + 1, total + |raw|;
        ok := Within();
        if ok {
          ghost var here := map[prefix + [name] := EntryOf(raw)];
          assert entries == old(entries) + here;
          ok := Walk(rest, prefix);
          UnionAssoc(old(entries), here, Entries(rest, prefix));
        }
      case Cons(name, Dir(kids), rest) =>
        directories := directories + 1;
        ok := Within();
        if ok {
          ok := Walk(kids, prefix + [name]);
          if ok {
            ok := Walk(rest, prefix);
            UnionAssoc(old(entries), Entries(kids, prefix + [name]), Entries(rest, prefix));
          }
        }
    }
  }

  lemma UnionAssoc(a: map<Path, Entry>, b: map<Path, Entry>, c: map<Path, Entry>)
    ensures (a + b) + c == a + (b + c)
  {
  }

  // ---------- where the entries lie ----------

  /** Every entry of a directory lies under one of its names. */
  lemma {:induction false} EntriesUnder(f: Forest, prefix: Path, p: Path)
    requires p in Entries(f, prefix)
    ensures |prefix| < |p| && p[..|prefix|] == prefix && Lists(f, p[|prefix|])
    decreases f
  {
    match f
    case Cons(name, File(raw), rest) =>
      if p in Entries(rest, prefix) { EntriesUnder(rest, prefix, p); }
    case Cons(name, Dir(kids), rest) =>
      if p in Entries(rest, prefix) { EntriesUnder(rest, prefix, p); }
      else {
        EntriesUnder(kids, prefix + [name], p);
        assert p[..|prefix|] == p[..|prefix| + 1][..|prefix|];
        assert p[|prefix|] == p[..|prefix| + 1][|prefix|];
      }
  }

  // ---------- sums ----------

  ghost function SumSizes(m: map<Path, Entry>): nat
    decreases |m|
  {
    if m == map[] then 0
    else var p :| p in m; m[p].size + SumSizes(m - {p})
  }

  lemma {:induction false} SumWithout(m: map<Path, Entry>, p: Path)
    requires p in m
    ensures SumSizes(m) == m[p].size + SumSizes(m - {p})
    decreases |m|
  {
    var q :| q in m && SumSizes(m) == m[q].size + SumSizes(m - {q});
    if q != p {
      SumWithout(m - {q}, p);
      SumWithout(m - {p}, q);
      assert m - {q} - {p} == m - {p} - {q};
    }
  }

  lemma DropUnion(a: map<Path, Entry>, b: map<Path, Entry>, p: Path)
    requires a.Keys !! b.Keys && p in a
    ensures (a + b) - {p} == (a - {p}) + b && p in a + b && (a + b)[p] == a[p]
    ensures (a - {p}).Keys !! b.Keys
  {
    assert p !in b.Keys;
  }

  lemma SumStep(a: map<Path, Entry>, b: map<Path, Entry>, p: Path)
    requires a.Keys !! b.Keys && p in a
    ensures (a - {p}).Keys !! b.Keys && |a - {p}| < |a|
    ensures SumSizes(a) == a[p].size + SumSizes(a - {p})
    ensures SumSizes(a + b) == a[p].size + SumSizes((a - {p}) + b)
  {
    hide SumSizes;
    DropUnion(a, b, p);
    SumWithout(a, p);
    SumWithout(a + b, p);
    assert (a - {p}).Keys == a.Keys - {p};
  }

  lemma {:induction false} SumUnion(a: map<Path, Entry>, b: map<Path, Entry>)
    requires a.Keys !! b.Keys
    ensures SumSizes(a + b) == SumSizes(a) + SumSizes(b)
    decreases |a|
  {
    if p :| p in a {
      SumStep(a, b, p);
      SumUnion(a - {p}, b);
    } else {
      assert a + b == b;
    }
  }

  /** In a tree without duplicate names the listing has no duplicate paths, so the running total is
      the sum over the manifest, and the list is as long as the map. */
  lemma {:induction false} TotalIsSum(f: Forest, prefix: Path)
    requires Wf(f)
    ensures SumSizes(Entries(f, prefix)) == Total(f) && |Entries(f, prefix)| == Files(f)
    decreases f
  {
    match f
    case Nil =>
    case Cons(name, File(raw), rest) =>
      TotalIsSum(rest, prefix);
      var p := prefix + [name];
      var here := map[p := EntryOf(raw)];
      if p in Entries(rest, prefix) { EntriesUnder(rest, prefix, p); }
      SumWithout(here, p);
      assert here - {p} == map[];
      SumUnion(here, Entries(rest, prefix));
      UnionSize(here, Entries(rest, prefix));
    case Cons(name, Dir(kids), rest) =>
      TotalIsSum(kids, prefix + [name]);
      TotalIsSum(rest, prefix);
      KidsApart(name, kids, rest, prefix);
      SumUnion(Entries(kids, prefix + [name]), Entries(rest, prefix));
      UnionSize(Entries(kids, prefix + [name]), Entries(rest, prefix));
  }

  lemma UnionSize(a: map<Path, Entry>, b: map<Path, Entry>)
    requires a.Keys !! b.Keys
    ensures |a + b| == |a| + |b|
  {
    assert (a + b).Keys == a.Keys + b.Keys;
    assert |(a + b).Keys| == |a.Keys| + |b.Keys|;
  }

  lemma KidsApart(name: string, kids: Forest, rest: Forest, prefix: Path)
    requires !Lists(rest, name)
    ensures Entries(kids, prefix + [name]).Keys !! Entries(rest, prefix).Keys
  {
    forall p | p in Entries(kids, prefix + [name]) && p in Entries(rest, prefix) ensures false {
      EntriesUnder(kids, prefix + [name], p);
      assert p[|prefix|] == p[..|prefix| + 1][|prefix|];
      EntriesUnder(rest, prefix, p);
    }
  }
}
