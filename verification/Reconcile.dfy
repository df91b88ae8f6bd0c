/** Re-applying the empty attributes that a copy left out, and nothing else.  Both sides are parsed
    listings, which never hold a path without attributes. */
module Reconcile {
  import opened Wrappers
  import opened Order
  import opened Xattrs
  import opened XattrListing

  datatype Digest = Sha(attributes: map<string, seq<Byte>>)

  /** `xattr_map`: one digest per path. */
  function XattrMap(rows: Rows): map<string, Digest> { map k | k in rows :: Sha(rows[k]) }

  lemma XattrMapInjective(a: Rows, b: Rows)
    ensures XattrMap(a) == XattrMap(b) <==> a == b
  {
    if XattrMap(a) == XattrMap(b) {
      assert a.Keys == XattrMap(a).Keys && b.Keys == XattrMap(b).Keys;
      forall k | k in a ensures a[k] == b[k] { assert XattrMap(a)[k] == XattrMap(b)[k]; }
    }
  }

  type Place = (string, string)

  function Of(rows: Rows, rel: string): map<string, seq<Byte>> { if rel in rows then rows[rel] else map[] }

  /** Present and empty at the source, absent at the target. */
  predicate LeftOut(a: Rows, b: Rows, p: Place) {
    p.1 in Of(a, p.0) && p.1 !in Of(b, p.0) && Of(a, p.0)[p.1] == []
  }

  predicate Agrees(a: Rows, b: Rows, p: Place) {
    (p.1 in Of(a, p.0) <==> p.1 in Of(b, p.0)) && (p.1 in Of(a, p.0) ==> Of(a, p.0)[p.1] == Of(b, p.0)[p.1])
  }

  predicate Unexpected(a: Rows, b: Rows, p: Place) { !Agrees(a, b, p) && !LeftOut(a, b, p) }

  predicate Before(p: Place, q: Place) { Less(p.0, q.0) || (p.0 == q.0 && Less(p.1, q.1)) }

  predicate InOrder(ps: seq<Place>) { forall i, j :: 0 <= i < j < |ps| ==> Before(ps[i], ps[j]) }

  lemma InOrderConcat(x: seq<Place>, y: seq<Place>)
    requires InOrder(x) && InOrder(y) && forall p, q :: p in x && q in y ==> Before(p, q)
    ensures InOrder(x + y)
  {
    var z := x + y;
    forall i, j | 0 <= i < j < |z| ensures Before(z[i], z[j]) {
      if i < |x| <= j { assert z[i] in x && z[j] in y; }
    }
  }

  function RepairsIn(a: Rows, b: Rows, rel: string, names: seq<string>): seq<Place>
    decreases |names|
  {
    if names == [] then []
    else (if LeftOut(a, b, (rel, names[0])) then [(rel, names[0])] else []) + RepairsIn(a, b, rel, names[1..])
  }

  predicate CleanIn(a: Rows, b: Rows, rel: string, names: seq<string>)
    decreases |names|
  {
    names != [] ==> !Unexpected(a, b, (rel, names[0])) && CleanIn(a, b, rel, names[1..])
  }

  lemma {:induction false} RepairsInAre(a: Rows, b: Rows, rel: string, names: seq<string>)
    requires Sorted(names)
    ensures forall p :: p in RepairsIn(a, b, rel, names) <==> p.0 == rel && p.1 in names && LeftOut(a, b, p)
    ensures InOrder(RepairsIn(a, b, rel, names))
    ensures CleanIn(a, b, rel, names) <==> forall name <- names :: !Unexpected(a, b, (rel, name))
    decreases |names|
  {
    if names != [] {
      HeadLess(names);
      RepairsInAre(a, b, rel, names[1..]);
      hide Less, LeftOut, Agrees, Unexpected;
      var first := if LeftOut(a, b, (rel, names[0])) then [(rel, names[0])] else [];
      assert InOrder(first);
      InOrderConcat(first, RepairsIn(a, b, rel, names[1..]));
    }
  }

  lemma NamesCover(a: Rows, b: Rows, rel: string, names: seq<string>)
    requires Sorted(names) && forall x :: x in names <==> x in Of(a, rel).Keys + Of(b, rel).Keys
    ensures InOrder(RepairsIn(a, b, rel, names))
    ensures forall p :: p in RepairsIn(a, b, rel, names) <==> p.0 == rel && LeftOut(a, b, p)
    ensures CleanIn(a, b, rel, names) <==> forall name :: !Unexpected(a, b, (rel, name))
  {
    RepairsInAre(a, b, rel, names);
    forall name | name !in names ensures Agrees(a, b, (rel, name)) && !LeftOut(a, b, (rel, name)) { }
    assert forall p: Place :: p.0 == rel ==> p == (rel, p.1);
  }

  method WalkNames(a: Rows, b: Rows, rel: string, names: seq<string>) returns (repairs: seq<Place>, clean: bool)
    ensures repairs == RepairsIn(a, b, rel, names)
    ensures clean == CleanIn(a, b, rel, names)
  {
    hide LeftOut, Agrees;
    repairs, clean := [], true;
    var n := 0;
    assert names[0..] == names;
    while n < |names|
      invariant 0 <= n <= |names|
      invariant repairs + RepairsIn(a, b, rel, names[n..]) == RepairsIn(a, b, rel, names)
      invariant clean && CleanIn(a, b, rel, names[n..]) <==> CleanIn(a, b, rel, names)
    {
      var p := (rel, names[n]);
      ghost var rest := RepairsIn(a, b, rel, names[n + 1..]);
      assert names[n..][1..] == names[n + 1..];
      if LeftOut(a, b, p) {
        assert repairs + ([p] + rest) == (repairs + [p]) + rest;
        repairs := repairs + [p];
      } else {
        assert [] + rest == rest;
        if !Agrees(a, b, p) { clean := false; }
      }
      n := n + 1;
    }
  }

  /** The inner loop: one path, its names in order. */
  method CompareNames(a: Rows, b: Rows, rel: string) returns (repairs: seq<Place>, clean: bool)
    ensures InOrder(repairs) && forall p :: p in repairs <==> p.0 == rel && LeftOut(a, b, p)
    ensures clean <==> forall name :: !Unexpected(a, b, (rel, name))
  {
    var names := SortKeys(Of(a, rel).Keys + Of(b, rel).Keys);
    repairs, clean := WalkNames(a, b, rel, names);
    NamesCover(a, b, rel, names);
  }

  ghost predicate Covers(a: Rows, b: Rows, rels: seq<string>, repairs: seq<Place>) {
    InOrder(repairs) && forall p :: p in repairs <==> p.0 in rels && LeftOut(a, b, p)
  }

  ghost predicate CleanOver(a: Rows, b: Rows, rels: seq<string>) {
    forall rel, name :: rel in rels ==> !Unexpected(a, b, (rel, name))
  }

  lemma CoversNone(a: Rows, b: Rows)
    ensures Covers(a, b, [], []) && CleanOver(a, b, [])
  {
  }

  lemma CoversSnoc(a: Rows, b: Rows, rels: seq<string>, rel: string, repairs: seq<Place>, more: seq<Place>)
    requires Covers(a, b, rels, repairs) && forall r <- rels :: Less(r, rel)
    requires InOrder(more) && forall p :: p in more <==> p.0 == rel && LeftOut(a, b, p)
    ensures Covers(a, b, rels + [rel], repairs + more)
  {
    hide Less, LeftOut, InOrder;
    InOrderConcat(repairs, more);
  }

  lemma CleanSnoc(a: Rows, b: Rows, rels: seq<string>, rel: string)
    ensures CleanOver(a, b, rels + [rel]) <==> CleanOver(a, b, rels) && forall name :: !Unexpected(a, b, (rel, name))
  {
    hide Unexpected;
    assert forall r :: r in rels + [rel] <==> r in rels || r == rel;
  }

  lemma RelsCover(a: Rows, b: Rows, rels: seq<string>, repairs: seq<Place>)
    requires Covers(a, b, rels, repairs) && forall x :: x in rels <==> x in a.Keys + b.Keys
    ensures InOrder(repairs) && forall p :: p in repairs <==> LeftOut(a, b, p)
    ensures CleanOver(a, b, rels) <==> forall p :: !Unexpected(a, b, p)
  {
    forall p: Place ensures p == (p.0, p.1) && (p.0 !in rels ==> Agrees(a, b, p) && !LeftOut(a, b, p)) { }
  }

  lemma PrefixBelow(rels: seq<string>, n: nat)
    requires Sorted(rels) && n < |rels|
    ensures forall r <- rels[..n] :: Less(r, rels[n])
    ensures rels[..n + 1] == rels[..n] + [rels[n]]
  {
  }

  /** The outer loop, over sorted paths. */
  method WalkRels(a: Rows, b: Rows, rels: seq<string>) returns (repairs: seq<Place>, clean: bool)
    requires Sorted(rels)
    ensures Covers(a, b, rels, repairs) && clean == CleanOver(a, b, rels)
  {
    hide Covers, CleanOver, InOrder, LeftOut, Less, Unexpected, Sorted;
    repairs, clean := [], true;
    CoversNone(a, b);
    var n := 0;
    assert rels[..0] == [];
    while n < |rels|
      invariant 0 <= n <= |rels|
      invariant Covers(a, b, rels[..n], repairs)
      invariant clean == CleanOver(a, b, rels[..n])
    {
      var some, fine := CompareNames(a, b, rels[n]);
      PrefixBelow(rels, n);
      CoversSnoc(a, b, rels[..n], rels[n], repairs, some);
      CleanSnoc(a, b, rels[..n], rels[n]);
      repairs, clean := repairs + some, clean && fine;
      n := n + 1;
    }
    assert rels[..n] == rels;
  }

  /** Every difference is inspected before anything is written. */
  method Compare(a: Rows, b: Rows) returns (repairs: seq<Place>, clean: bool)
    ensures InOrder(repairs) && forall p :: p in repairs <==> LeftOut(a, b, p)
    ensures clean <==> forall p :: !Unexpected(a, b, p)
  {
    var rels := SortKeys(a.Keys + b.Keys);
    repairs, clean := WalkRels(a, b, rels);
    RelsCover(a, b, rels, repairs);
  }

  // ---------- writing ----------

  ghost predicate OnlyLeftOut(a: Rows, b: Rows) { forall p :: !Unexpected(a, b, p) }

  /** The target with some of the left-out attributes written. */
  ghost predicate Repaired(a: Rows, was: Rows, now: Rows, done: seq<Place>) {
    && NoEmpty(now)
    && forall p: Place :: if p in done then Has(now, p.0, p.1) && now[p.0][p.1] == [] else Agrees(was, now, p)
  }

  lemma RepairedStep(a: Rows, was: Rows, now: Rows, done: seq<Place>, p: Place)
    requires Repaired(a, was, now, done)
    ensures Repaired(a, was, Stored(now, p.0, p.1, []), done + [p])
  {
    var next := Stored(now, p.0, p.1, []);
    assert p.1 in next[p.0];
    forall q: Place
      ensures if q in done + [p] then Has(next, q.0, q.1) && next[q.0][q.1] == [] else Agrees(was, next, q)
    {
      if q != p { assert Agrees(now, next, q); }
    }
  }

  lemma AllRepaired(a: Rows, was: Rows, now: Rows, done: seq<Place>)
    requires NoEmpty(a) && OnlyLeftOut(a, was) && Repaired(a, was, now, done)
    requires forall p :: p in done <==> LeftOut(a, was, p)
    ensures now == a
  {
    forall key, name
      ensures Has(now, key, name) <==> Has(a, key, name)
      ensures Has(now, key, name) && Has(a, key, name) ==> now[key][name] == a[key][name]
    {
      var p := (key, name);
      assert !Unexpected(a, was, p);
      if p !in done { assert Agrees(was, now, p) && Agrees(a, was, p); }
    }
    SameRows(now, a);
  }

  /** A copied tree: its attributes, which paths exist, and which lie behind a linked directory. */
  class Target {
    var attrs: Rows
    const present: set<string>
    const behindLink: set<string>

    constructor (attrs: Rows, present: set<string>, behindLink: set<string>)
      ensures this.attrs == attrs && this.present == present && this.behindLink == behindLink
    {
      this.attrs, this.present, this.behindLink := attrs, present, behindLink;
    }

    predicate Writable(rel: string) { rel in present && rel !in behindLink }

    /** `reconcile_xattrs`.  `writes` is how many attribute writes succeed. */
    method ReconcileXattrs(source: Rows, expected: map<string, Digest>, writes: nat) returns (repairs: Option<seq<Place>>)
      requires NoEmpty(source) && NoEmpty(attrs)
      modifies this
      ensures repairs.Some? ==> attrs == source && XattrMap(source) == expected
      ensures repairs.Some? ==> OnlyLeftOut(source, old(attrs))
                                && (forall p :: p in repairs.value <==> LeftOut(source, old(attrs), p))
                                && InOrder(repairs.value) && |repairs.value| <= writes
                                && (forall p <- repairs.value :: Writable(p.0))
      ensures repairs.None? ==> XattrMap(source) != expected || !OnlyLeftOut(source, old(attrs))
                                || (exists p :: LeftOut(source, old(attrs), p) && !Writable(p.0))
                                || exists ps :: IsRepairList(source, old(attrs), ps) && |ps| > writes
      ensures XattrMap(source) != expected || !OnlyLeftOut(source, old(attrs)) ==> attrs == old(attrs)
      ensures forall p: Place :: Agrees(old(attrs), attrs, p)
                || (LeftOut(source, old(attrs), p) && Has(attrs, p.0, p.1) && attrs[p.0][p.1] == [])
    {
      if XattrMap(source) != expected { return None; }
      var list, clean := Compare(source, attrs);
      if !clean { return None; }
      ghost var was := attrs;
      assert IsRepairList(source, was, list);
      var n := 0;
      assert list[..0] == [];
      while n < |list|
        invariant 0 <= n <= |list| && n <= writes
        invariant Repaired(source, was, attrs, list[..n])
        invariant forall i :: 0 <= i < n ==> Writable(list[i].0)
      {
        var p := list[n];
        assert p in list;
        if !Writable(p.0) || n >= writes { return None; }
        RepairedStep(source, was, attrs, list[..n], p);
        assert list[..n + 1] == list[..n] + [p];
        attrs := Stored(attrs, p.0, p.1, []);
        n := n + 1;
      }
      assert list[..n] == list;
      AllRepaired(source, was, attrs, list);
      if XattrMap(attrs) != expected { return None; }
      repairs := Some(list);
    }
  }

  ghost predicate IsRepairList(a: Rows, b: Rows, ps: seq<Place>) {
    InOrder(ps) && forall p :: p in ps <==> LeftOut(a, b, p)
  }
}
