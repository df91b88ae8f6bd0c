/** Which processes of a table belong to a worker: its descendants, and detached trusted-tree ones. */
module OldWorkers {

  datatype Process = Process(pid: nat, parent: nat, rest: string)

  type Table = map<nat, Process>

  predicate Keyed(rows: Table) { forall p <- rows :: rows[p].pid == p }

  /** Substring test. */
  predicate Contains(s: string, part: string) {
    exists i :: 0 <= i <= |s| && part <= s[i..]
  }

  predicate Detached(rows: Table, live: string, self: nat, p: nat)
    requires p in rows
  {
    Contains(rows[p].rest, live) && p != self
  }

  // ---------- descent ----------

  predicate Closed(rows: Table, s: set<nat>) { forall p <- rows :: rows[p].parent in s ==> p in s }

  /** The least set with the root that is closed under listed children. */
  ghost predicate IsLeast(rows: Table, root: nat, s: set<nat>) {
    root in s && Closed(rows, s) && forall t: set<nat> :: root in t && Closed(rows, t) ==> s <= t
  }

  /** A chain of parent links from the root down to p. */
  ghost predicate Descends(rows: Table, root: nat, p: nat) {
    exists chain: seq<nat> :: IsChain(rows, chain) && chain[0] == root && chain[|chain| - 1] == p
  }

  predicate IsChain(rows: Table, chain: seq<nat>) {
    chain != [] && forall i :: 0 < i < |chain| ==> chain[i] in rows && rows[chain[i]].parent == chain[i - 1]
  }

  lemma DescendsChild(rows: Table, root: nat, p: nat)
    requires p in rows && Descends(rows, root, rows[p].parent)
    ensures Descends(rows, root, p)
  {
    var chain :| IsChain(rows, chain) && chain[0] == root && chain[|chain| - 1] == rows[p].parent;
    var longer := chain + [p];
    assert IsChain(rows, longer) && longer[0] == root && longer[|longer| - 1] == p;
  }

  lemma {:induction false} ChainInside(rows: Table, chain: seq<nat>, s: set<nat>)
    requires IsChain(rows, chain) && Closed(rows, s) && chain[0] in s
    ensures chain[|chain| - 1] in s
    decreases |chain|
  {
    if |chain| > 1 {
      var front := chain[..|chain| - 1];
      assert front[0] == chain[0];
      ChainInside(rows, front, s);
      var p := chain[|chain| - 1];
      assert p in rows && rows[p].parent == front[|front| - 1];
    }
  }

  /** The least closed set is exactly the root and its descendants, cycles or not. */
  lemma LeastIsDescent(rows: Table, root: nat, s: set<nat>)
    requires IsLeast(rows, root, s)
    ensures forall p :: p in s <==> Descends(rows, root, p)
  {
    var t := set p | p in s && Descends(rows, root, p);
    assert IsChain(rows, [root]);
    forall p | p in rows && rows[p].parent in t ensures p in t { DescendsChild(rows, root, p); }
    assert s <= t;
    forall p | Descends(rows, root, p) ensures p in s {
      var chain :| IsChain(rows, chain) && chain[0] == root && chain[|chain| - 1] == p;
      ChainInside(rows, chain, s);
    }
  }

  /** The fixpoint loop.  The set only grows and stays inside the table, so it ends for every table. */
  method Family(rows: Table, pid: nat) returns (wanted: set<nat>)
    ensures IsLeast(rows, pid, wanted)
  {
    wanted := {pid};
    ghost var all := {pid} + rows.Keys;
    while true
      invariant pid in wanted && wanted <= all
      invariant forall t: set<nat> :: pid in t && Closed(rows, t) ==> wanted <= t
      decreases |all - wanted|
    {
      var next := wanted + set p | p in rows && rows[p].parent in wanted;
      if next == wanted {
        assert forall p <- rows :: rows[p].parent in wanted ==> p in next;
        return;
      }
      forall t: set<nat> | pid in t && Closed(rows, t) ensures next <= t {
        forall p | p in rows && rows[p].parent in wanted ensures p in t { assert rows[p].parent in t; }
      }
      Shrinks(all, wanted, next);
      wanted := next;
    }
  }

  lemma Shrinks(all: set<nat>, s: set<nat>, t: set<nat>)
    requires s <= t <= all && s != t
    ensures |all - t| < |all - s|
  {
    assert all - s == (all - t) + (t - s);
    assert t - s != {};
  }

  // ---------- the list ----------

  predicate Ascending(ps: seq<nat>) { forall i, j :: 0 <= i < j < |ps| ==> ps[i] < ps[j] }

  lemma {:induction false} HasLeast(s: set<nat>) returns (p: nat)
    requires s != {}
    ensures p in s && forall q <- s :: p <= q
    decreases |s|
  {
    p :| p in s;
    assert forall q <- s :: q == p || q in s - {p};
    if s != {p} {
      var r := HasLeast(s - {p});
      if r < p { p := r; }
    }
  }

  method SortPids(s: set<nat>) returns (ps: seq<nat>)
    ensures Ascending(ps) && forall p :: p in ps <==> p in s
  {
    ps := [];
    var rest := s;
    while rest != {}
      invariant Ascending(ps) && rest <= s
      invariant forall p :: p in ps <==> p in s && p !in rest
      invariant forall i, q :: 0 <= i < |ps| && q in rest ==> ps[i] < q
      decreases |rest|
    {
      ghost var least := HasLeast(rest);
      assert least in rest && forall q <- rest :: least <= q;
      var p :| p in rest && forall q <- rest :: p <= q;
      ps, rest := ps + [p], rest - {p};
    }
  }

  /** Belongs to the worker: listed, and a descendant, or another process whose command line names the
      trusted tree. */
  ghost predicate Wanted(rows: Table, pid: nat, live: string, self: nat, p: nat) {
    && p in rows
    && (Descends(rows, pid, p) || (p != self && exists x, y :: rows[p].rest == x + live + y))
  }

  lemma ContainsIs(s: string, part: string)
    ensures Contains(s, part) <==> exists x, y :: s == x + part + y
  {
    if Contains(s, part) {
      var i :| 0 <= i <= |s| && part <= s[i..];
      assert s == s[..i] + part + s[i + |part|..];
    }
    if x, y :| s == x + part + y {
      assert s[|x|..] == part + y;
    }
  }

  /** Exactly the wanted rows, each once, by ascending pid. */
  method Workers(rows: Table, pid: nat, live: string, self: nat) returns (out: seq<Process>)
    requires Keyed(rows)
    ensures Ascending(seq(|out|, i requires 0 <= i < |out| => out[i].pid))
    ensures forall r :: r in out <==> Wanted(rows, pid, live, self, r.pid) && rows[r.pid] == r
  {
    var wanted := Family(rows, pid);
    LeastIsDescent(rows, pid, wanted);
    wanted := wanted + set p | p in rows && Detached(rows, live, self, p);
    var listed := set p | p in wanted && p in rows;
    var ps := SortPids(listed);
    forall i | 0 <= i < |ps| ensures ps[i] in rows { assert ps[i] in ps; }
    out := seq(|ps|, i requires 0 <= i < |ps| => rows[ps[i]]);
    forall p | p in rows ensures Contains(rows[p].rest, live) <==> exists x, y :: rows[p].rest == x + live + y {
      ContainsIs(rows[p].rest, live);
    }
    forall r ensures r in out <==> Wanted(rows, pid, live, self, r.pid) && rows[r.pid] == r {
      if r in out {
        var i :| 0 <= i < |out| && out[i] == r;
        assert ps[i] in ps && r.pid == ps[i];
      }
      if Wanted(rows, pid, live, self, r.pid) && rows[r.pid] == r {
        assert r.pid in ps;
        var i :| 0 <= i < |ps| && ps[i] == r.pid;
        assert out[i] == r;
      }
    }
  }
}
