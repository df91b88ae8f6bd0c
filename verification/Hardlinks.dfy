/** Hardlink groups: the partition of the paths that the entries table gives, written as one line per
    group, read back in blocks as digests. */
module Hardlinks {
  import opened Wrappers
  import opened Order
  import opened Strings
  import opened Inventory

  /** One row of the entries table. */
  datatype Entry = Entry(row: Row, file: bool, dev: nat, ino: nat)

  type Table = map<string, Entry>

  type Inode = (nat, nat)

  function InodeOf(e: Entry): Inode { (e.dev, e.ino) }

  function RowsOf(t: Table): map<string, Row> { map p | p in t :: t[p].row }

  // ---------- the partition ----------

  /** All paths of one inode, and those of them that are files. */
  function PathsOf(t: Table, i: Inode): set<string> { set p | p in t && InodeOf(t[p]) == i }

  function FilesOf(t: Table, i: Inode): set<string> { set p | p in t && t[p].file && InodeOf(t[p]) == i }

  function Linked(t: Table): set<Inode> { set p | p in t && |FilesOf(t, InodeOf(t[p]))| > 1 :: InodeOf(t[p]) }

  /** The groups of paths, whatever the inode numbers. */
  function Partition(t: Table): set<set<string>> { set i | i in Linked(t) :: PathsOf(t, i) }

  /** A group is all the paths of one device and inode that at least two files share. */
  lemma PartitionIs(t: Table, s: set<string>)
    ensures s in Partition(t) <==>
              exists p, q :: p in t && q in t && p != q && t[p].file && t[q].file
                && t[p].dev == t[q].dev && t[p].ino == t[q].ino
                && s == (set x | x in t && t[x].dev == t[p].dev && t[x].ino == t[p].ino)
  {
    if s in Partition(t) {
      var i :| i in Linked(t) && s == PathsOf(t, i);
      var p, q := TwoOf(FilesOf(t, i));
      assert s == set x | x in t && t[x].dev == t[p].dev && t[x].ino == t[p].ino;
    }
    if p, q :| p in t && q in t && p != q && t[p].file && t[q].file
               && t[p].dev == t[q].dev && t[p].ino == t[q].ino
               && s == (set x | x in t && t[x].dev == t[p].dev && t[x].ino == t[p].ino)
    {
      var i := InodeOf(t[p]);
      assert {p, q} <= FilesOf(t, i);
      AtLeastTwo(FilesOf(t, i), p, q);
      assert i in Linked(t) && s == PathsOf(t, i);
    }
  }

  lemma TwoOf(s: set<string>) returns (p: string, q: string)
    requires |s| > 1
    ensures p in s && q in s && p != q
  {
    p :| p in s;
    assert |s - {p}| > 0;
    q :| q in s - {p};
  }

  lemma AtLeastTwo(s: set<string>, p: string, q: string)
    requires p in s && q in s && p != q
    ensures |s| > 1
  {
    assert s == {p, q} + (s - {p, q});
  }

  /** Different inodes have different, nonempty groups. */
  lemma GroupsApart(t: Table, i: Inode, j: Inode)
    requires i in Linked(t) && j in Linked(t) && PathsOf(t, i) == PathsOf(t, j)
    ensures i == j
  {
    var p :| p in t && |FilesOf(t, InodeOf(t[p]))| > 1 && InodeOf(t[p]) == i;
    assert p in PathsOf(t, i);
  }

  /** A list of sorted path lists, one for each group. */
  ghost predicate ListsGroups(groups: seq<seq<string>>, t: Table) {
    && (forall i, j :: 0 <= i < j < |groups| ==> groups[i] != groups[j])
    && (forall g <- groups :: exists s :: s in Partition(t) && g == KeyOrder(s))
    && (forall s <- Partition(t) :: KeyOrder(s) in groups)
  }

  lemma KeyOrderInjective(a: set<string>, b: set<string>)
    requires KeyOrder(a) == KeyOrder(b)
    ensures a == b
  {
    forall x ensures x in a <==> x in b { assert x in KeyOrder(a) <==> x in KeyOrder(b); }
  }

  ghost function GroupList(t: Table, inodes: seq<Inode>): seq<seq<string>> {
    seq(|inodes|, n requires 0 <= n < |inodes| => KeyOrder(PathsOf(t, inodes[n])))
  }

  lemma GroupListLists(t: Table, inodes: seq<Inode>)
    requires forall i :: i in inodes <==> i in Linked(t)
    requires forall m, n :: 0 <= m < n < |inodes| ==> inodes[m] != inodes[n]
    ensures ListsGroups(GroupList(t, inodes), t)
  {
    hide Linked, PathsOf, KeyOrder;
    var groups := GroupList(t, inodes);
    forall m, n | 0 <= m < n < |groups| ensures groups[m] != groups[n] {
      if groups[m] == groups[n] {
        assert inodes[m] in inodes && inodes[n] in inodes;
        KeyOrderInjective(PathsOf(t, inodes[m]), PathsOf(t, inodes[n]));
        GroupsApart(t, inodes[m], inodes[n]);
      }
    }
    forall g <- groups ensures exists s :: s in Partition(t) && g == KeyOrder(s) {
      var n :| 0 <= n < |groups| && groups[n] == g;
      assert inodes[n] in inodes && PathsOf(t, inodes[n]) in Partition(t);
    }
    forall s <- Partition(t) ensures KeyOrder(s) in groups {
      var i :| i in Linked(t) && s == PathsOf(t, i);
      assert i in inodes;
      var n :| 0 <= n < |inodes| && inodes[n] == i;
      assert groups[n] == KeyOrder(s);
    }
  }

  /** The loop over GROUP BY dev, ino HAVING count(*) > 1. */
  method ExportGroups(t: Table) returns (groups: seq<seq<string>>)
    ensures ListsGroups(groups, t)
  {
    groups := [];
    var rest := Linked(t);
    ghost var inodes: seq<Inode> := [];
    while rest != {}
      invariant rest <= Linked(t) && groups == GroupList(t, inodes)
      invariant forall i :: i in inodes <==> i in Linked(t) && i !in rest
      invariant forall m, n :: 0 <= m < n < |inodes| ==> inodes[m] != inodes[n]
      decreases |rest|
    {
      hide Linked, PathsOf;
      var i :| i in rest;
      var g := SortKeys(PathsOf(t, i));
      assert GroupList(t, inodes + [i]) == GroupList(t, inodes) + [g];
      groups, rest := groups + [g], rest - {i};
      inodes := inodes + [i];
    }
    GroupListLists(t, inodes);
  }

  // ---------- the file ----------

  const NEWLINE := '\n'

  /** `hardlinks.jsonl`: the JSON text of every group, each ended by a newline. */
  function FileText(enc: seq<string> -> string, groups: seq<seq<string>>): string
    decreases |groups|
  {
    if groups == [] then "" else enc(groups[0]) + [NEWLINE] + FileText(enc, groups[1..])
  }

  /** Canonical JSON is injective and holds no newline; a digest is injective. */
  ghost predicate Encodes(enc: seq<string> -> string, h: string -> string) {
    && (forall g, k :: enc(g) == enc(k) ==> g == k)
    && (forall g :: NEWLINE !in enc(g))
    && (forall x, y :: h(x) == h(y) ==> x == y)
  }

  lemma {:induction false} FileLines(enc: seq<string> -> string, groups: seq<seq<string>>)
    requires forall g :: NEWLINE !in enc(g)
    ensures SplitOn(FileText(enc, groups), NEWLINE) == Names(enc, groups) + [""]
    decreases |groups|
  {
    if groups != [] {
      FileLines(enc, groups[1..]);
      SplitPlain(enc(groups[0]), NEWLINE, FileText(enc, groups[1..]));
      assert Names(enc, groups) == [enc(groups[0])] + Names(enc, groups[1..]);
    }
  }

  function Names<T>(f: T -> string, xs: seq<T>): seq<string> {
    seq(|xs|, i requires 0 <= i < |xs| => f(xs[i]))
  }

  // ---------- reading ----------

  /** The lines that have ended, and what follows the last newline, over blocks of any size. */
  method ReadLines(blocks: seq<string>) returns (lines: seq<string>, tail: string)
    ensures lines + [tail] == SplitOn(Concat(blocks), NEWLINE)
  {
    lines, tail := [], "";
    ghost var sofar := "";
    var n := 0;
    while n < |blocks|
      invariant 0 <= n <= |blocks|
      invariant sofar == Concat(blocks[..n])
      invariant lines + [tail] == SplitOn(sofar, NEWLINE)
    {
      var pieces := SplitOn(blocks[n], NEWLINE);
      SplitConcat(sofar, blocks[n], NEWLINE);
      lines, tail := TakePieces(lines, tail, pieces);
      ConcatSnoc(blocks[..n], blocks[n]);
      assert blocks[..n + 1] == blocks[..n] + [blocks[n]];
      sofar := sofar + blocks[n];
      n := n + 1;
    }
    assert blocks[..n] == blocks;
  }

  /** One block: each piece goes on with the open line, and each but the last ends it. */
  method TakePieces(lines: seq<string>, tail: string, pieces: seq<string>) returns (more: seq<string>, open: string)
    requires pieces != []
    ensures more + [open] == Glue(lines + [tail], pieces)
  {
    more, open := lines, tail;
    var i := 0;
    while i < |pieces|
      invariant 0 <= i <= |pieces|
      invariant i < |pieces| ==> more + [open + pieces[i]] + pieces[i + 1..] == Glue(lines + [tail], pieces)
      invariant i == |pieces| ==> more + [open] == Glue(lines + [tail], pieces)
    {
      open := open + pieces[i];
      if i < |pieces| - 1 {
        assert pieces[i + 1..] == [pieces[i + 1]] + pieces[i + 2..];
        assert "" + pieces[i + 1] == pieces[i + 1];
        more, open := more + [open], "";
      } else {
        assert pieces[i + 1..] == [];
      }
      i := i + 1;
    }
  }

  /** The file ends its last line, and no two lines have the same digest. */
  ghost predicate Readable(text: string, h: string -> string) {
    var parts := SplitOn(text, NEWLINE);
    Last(parts) == "" && forall i, j :: 0 <= i < j < |parts| - 1 ==> h(parts[i]) != h(parts[j])
  }

  /** The sorted digests of the lines. */
  ghost predicate IsTopology(text: string, h: string -> string, groups: seq<string>) {
    Sorted(groups) && forall d :: d in groups <==> d in Names(h, Front(SplitOn(text, NEWLINE)))
  }

  /** `topology`: one digest per line; a repeated one violates the primary key, and an unterminated last
      line is refused. */
  method Topology(blocks: seq<string>, h: string -> string) returns (groups: Option<seq<string>>)
    ensures groups.Some? <==> Readable(Concat(blocks), h)
    ensures groups.Some? ==> IsTopology(Concat(blocks), h, groups.value)
  {
    var lines, tail := ReadLines(blocks);
    ghost var parts := SplitOn(Concat(blocks), NEWLINE);
    assert Front(parts) == lines && Last(parts) == tail;
    assert forall i :: 0 <= i < |lines| ==> parts[i] == lines[i];
    var names := Names(h, lines);
    assert forall i :: 0 <= i < |lines| ==> names[i] == h(parts[i]);
    var seen := DistinctDigests(names);
    if seen.None? {
      ghost var i, j :| 0 <= i < j < |names| && names[i] == names[j];
      assert h(parts[i]) == h(parts[j]);
      return None;
    }
    if tail != "" { return None; }
    var ks := SortKeys(seen.value);
    groups := Some(ks);
  }

  method DistinctDigests(ds: seq<string>) returns (seen: Option<set<string>>)
    ensures seen.Some? <==> forall i, j :: 0 <= i < j < |ds| ==> ds[i] != ds[j]
    ensures seen.Some? ==> forall d :: d in seen.value <==> d in ds
  {
    var all, n := {}, 0;
    while n < |ds|
      invariant 0 <= n <= |ds|
      invariant forall x :: x in all <==> x in ds[..n]
      invariant forall i, j :: 0 <= i < j < n ==> ds[i] != ds[j]
    {
      if ds[n] in all {
        var i :| 0 <= i < n && ds[..n][i] == ds[n];
        assert ds[i] == ds[n];
        return None;
      }
      forall i | 0 <= i < n ensures ds[i] != ds[n] { assert ds[..n][i] == ds[i]; }
      assert ds[..n + 1] == ds[..n] + [ds[n]];
      all, n := all + {ds[n]}, n + 1;
    }
    assert ds[..n] == ds;
    seen := Some(all);
  }

  // ---------- digests stand for partitions ----------

  /** The file of a table is always readable, and its lines are the digests of the groups. */
  lemma ExportedIsReadable(t: Table, groups: seq<seq<string>>, enc: seq<string> -> string, h: string -> string)
    requires ListsGroups(groups, t) && Encodes(enc, h)
    ensures Readable(FileText(enc, groups), h)
    ensures Front(SplitOn(FileText(enc, groups), NEWLINE)) == Names(enc, groups)
  {
    FileLines(enc, groups);
    var parts := SplitOn(FileText(enc, groups), NEWLINE);
    assert Front(parts) == Names(enc, groups);
    forall i, j | 0 <= i < j < |parts| - 1 ensures h(parts[i]) != h(parts[j]) {
      assert parts[i] == enc(groups[i]) && parts[j] == enc(groups[j]);
    }
  }

  lemma DigestOf(t: Table, groups: seq<seq<string>>, enc: seq<string> -> string, h: string -> string,
                 ds: seq<string>, s: set<string>)
    requires ListsGroups(groups, t) && Encodes(enc, h) && IsTopology(FileText(enc, groups), h, ds)
    ensures s in Partition(t) <==> h(enc(KeyOrder(s))) in ds
  {
    ExportedIsReadable(t, groups, enc, h);
    var names := Names(h, Names(enc, groups));
    if s in Partition(t) {
      var i :| 0 <= i < |groups| && groups[i] == KeyOrder(s);
      assert names[i] == h(enc(KeyOrder(s)));
    }
    if h(enc(KeyOrder(s))) in ds {
      var i :| 0 <= i < |names| && names[i] == h(enc(KeyOrder(s)));
      assert names[i] == h(enc(groups[i])) && groups[i] in groups;
      var u :| u in Partition(t) && groups[i] == KeyOrder(u);
      KeyOrderInjective(s, u);
    }
  }

  lemma DigestFrom(t: Table, groups: seq<seq<string>>, enc: seq<string> -> string, h: string -> string,
                   ds: seq<string>, d: string) returns (s: set<string>)
    requires ListsGroups(groups, t) && Encodes(enc, h) && IsTopology(FileText(enc, groups), h, ds) && d in ds
    ensures s in Partition(t) && d == h(enc(KeyOrder(s)))
  {
    ExportedIsReadable(t, groups, enc, h);
    var names := Names(h, Names(enc, groups));
    var i :| 0 <= i < |names| && names[i] == d;
    assert names[i] == h(enc(groups[i])) && groups[i] in groups;
    s :| s in Partition(t) && groups[i] == KeyOrder(s);
  }

  /** Two exported tables have the same sorted digests exactly when they partition the same paths in the
      same way, whatever the device and inode numbers. */
  lemma SamePartition(a: Table, b: Table, ga: seq<seq<string>>, gb: seq<seq<string>>,
                      enc: seq<string> -> string, h: string -> string, da: seq<string>, db: seq<string>)
    requires ListsGroups(ga, a) && ListsGroups(gb, b) && Encodes(enc, h)
    requires IsTopology(FileText(enc, ga), h, da) && IsTopology(FileText(enc, gb), h, db)
    ensures da == db <==> Partition(a) == Partition(b)
  {
    hide IsTopology, ListsGroups, Partition;
    if da == db {
      forall s ensures s in Partition(a) <==> s in Partition(b) {
        DigestOf(a, ga, enc, h, da, s);
        DigestOf(b, gb, enc, h, db, s);
      }
    }
    if Partition(a) == Partition(b) {
      forall d ensures d in da <==> d in db {
        if d in da { var s := DigestFrom(a, ga, enc, h, da, d); DigestOf(b, gb, enc, h, db, s); }
        if d in db { var s := DigestFrom(b, gb, enc, h, db, d); DigestOf(a, ga, enc, h, da, s); }
      }
      TopologySorted(FileText(enc, ga), h, da);
      TopologySorted(FileText(enc, gb), h, db);
      SortedUnique(da, db);
    }
  }

  lemma TopologySorted(text: string, h: string -> string, ds: seq<string>)
    requires IsTopology(text, h, ds)
    ensures Sorted(ds)
  {
  }
}
