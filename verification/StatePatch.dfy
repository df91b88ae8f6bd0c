/** Reading the rows of a document diff as addresses. */
module StatePatch {
  import opened Wrappers
  import opened Order
  import opened StateDiff

  // ---------- pointers are unambiguous ----------

  lemma {:induction false} ReplaceAllConcat(s: string, t: string, c: char, sub: string)
    ensures ReplaceAll(s + t, c, sub) == ReplaceAll(s, c, sub) + ReplaceAll(t, c, sub)
    decreases |s|
  {
    if s == "" {
      assert s + t == t;
    } else {
      assert (s + t)[1..] == s[1..] + t;
      ReplaceAllConcat(s[1..], t, c, sub);
    }
  }

  lemma EscapeHead(s: string)
    requires s != ""
    ensures Escape(s) == (if s[0] == '~' then "~0" else if s[0] == '/' then "~1" else [s[0]]) + Escape(s[1..])
  {
    var once := if s[0] == '~' then "~0" else [s[0]];
    ReplaceAllConcat(once, ReplaceAll(s[1..], '~', "~0"), '/', "~1");
    assert once[1..] == if s[0] == '~' then "0" else "";
    if s[0] == '~' { assert "0"[1..] == ""; assert ReplaceAll("0", '/', "~1") == "0"; }
  }

  /** Decoding inverts escaping, and an escaped token holds no slash. */
  lemma {:induction false} UnescapeEscape(s: string)
    ensures Unescape(Escape(s)) == Some(s)
    ensures '/' !in Escape(s)
    decreases |s|
  {
    if s != "" {
      EscapeHead(s);
      UnescapeEscape(s[1..]);
      var head := if s[0] == '~' then "~0" else if s[0] == '/' then "~1" else [s[0]];
      assert Escape(s)[|head|..] == Escape(s[1..]);
      assert s == [s[0]] + s[1..];
    }
  }

  function Undecimal(s: string): int {
    if s == "" then 0 else 10 * Undecimal(s[..|s| - 1]) + (s[|s| - 1] as int - '0' as int)
  }

  lemma {:induction false} UndecimalDecimal(n: nat)
    ensures Undecimal(Decimal(n)) == n
    decreases n
  {
    var s := Decimal(n);
    if n < 10 {
      assert s[..|s| - 1] == "";
    } else {
      UndecimalDecimal(n / 10);
      assert s[..|s| - 1] == Decimal(n / 10);
    }
  }

  predicate SameKind(t: Token, u: Token) { t.Key? <==> u.Key? }

  lemma TextInjective(t: Token, u: Token)
    requires SameKind(t, u) && Escape(Text(t)) == Escape(Text(u))
    ensures t == u
  {
    UnescapeEscape(Text(t));
    UnescapeEscape(Text(u));
    if t.Index? { UndecimalDecimal(t.i); UndecimalDecimal(u.i); }
  }

  /** A string without slashes that ends at a slash or at the end of s. */
  predicate Segment(s: string, e: string) {
    '/' !in e && e <= s && (|s| == |e| || s[|e|] == '/')
  }

  lemma SegmentUnique(s: string, e: string, f: string)
    requires Segment(s, e) && Segment(s, f)
    ensures e == f
  {
    assert forall k :: 0 <= k < |e| ==> s[k] == e[k] && s[k] != '/';
    assert forall k :: 0 <= k < |f| ==> s[k] == f[k] && s[k] != '/';
  }

  lemma ChildSegment(path: string, t: Token, q: string)
    requires Extends(Child(path, t), q)
    ensures |path| < |q| && Segment(q[|path| + 1..], Escape(Text(t)))
  {
    UnescapeEscape(Text(t));
    var e, rest := Escape(Text(t)), q[|path| + 1..];
    var n := |path| + 1;
    assert Child(path, t)[n..] == e;
    assert rest[..|e|] == q[..n + |e|][n..];
  }

  /** A pointer lies inside at most one child of a container. */
  lemma ChildrenApart(path: string, t: Token, u: Token, q: string)
    requires SameKind(t, u) && Extends(Child(path, t), q) && Extends(Child(path, u), q)
    ensures t == u
  {
    ChildSegment(path, t, q);
    ChildSegment(path, u, q);
    SegmentUnique(q[|path| + 1..], Escape(Text(t)), Escape(Text(u)));
    TextInjective(t, u);
  }

  lemma ExtendsChild(path: string, t: Token, q: string)
    requires Extends(Child(path, t), q)
    ensures Extends(path, q) && q != path
  {
    assert q[..|path|] == q[..|Child(path, t)|][..|path|];
    assert q[|path|] == q[..|Child(path, t)|][|path|];
  }

  lemma ExtendsTransitive(p: string, q: string, r: string)
    requires Extends(p, q) && Extends(q, r)
    ensures Extends(p, r)
  {
    assert r[..|p|] == r[..|q|][..|p|];
    if |p| < |q| { assert r[|p|] == r[..|q|][|p|]; }
  }

  // ---------- where the rows lie ----------

  predicate Distinct(ts: seq<Token>) {
    && (forall i, j :: 0 <= i < j < |ts| ==> ts[i] != ts[j])
    && (forall t, u | t in ts && u in ts :: SameKind(t, u))
  }

  lemma TokensAre(b: Json, a: Json)
    requires SameShape(b, a)
    ensures Distinct(Tokens(b, a))
    ensures forall t :: At(b, t).Some? || At(a, t).Some? <==> t in Tokens(b, a)
  {
    if b.Obj? {
      var ks := KeyOrder(b.fields.Keys + a.fields.Keys);
      forall i, j | 0 <= i < j < |ks| ensures ks[i] != ks[j] { LessTotal(ks[i], ks[i]); }
      forall t: Token ensures At(b, t).Some? || At(a, t).Some? <==> t in Keys(ks) {
        if t.Key? && t.name in ks { var n :| 0 <= n < |ks| && ks[n] == t.name; assert Keys(ks)[n] == t; }
        if t in Keys(ks) { var n :| 0 <= n < |ks| && Keys(ks)[n] == t; assert ks[n] in ks; }
      }
    } else {
      var ts := Indices(0, Max(|b.items|, |a.items|));
      forall t: Token ensures At(b, t).Some? || At(a, t).Some? <==> t in ts {
        if t.Index? && t.i < |ts| { assert ts[t.i] == t; }
      }
    }
  }

  lemma {:induction false} RowsExtend(b: Json, a: Json, path: string, r: Row)
    requires r in Diff(b, a, path)
    ensures Extends(path, r.path)
    decreases b, 2, 0
  {
    if SameShape(b, a) {
      var t := RowsIn(b, a, path, Tokens(b, a), r);
      ExtendsChild(path, t, r.path);
    }
  }

  /** Each row belongs to one token. */
  lemma {:induction false} RowsIn(b: Json, a: Json, path: string, ts: seq<Token>, r: Row) returns (t: Token)
    requires r in DiffAll(b, a, path, ts)
    ensures t in ts && r in DiffAt(b, a, path, t) && Extends(Child(path, t), r.path)
    decreases b, 1, |ts|
  {
    if r in DiffAt(b, a, path, ts[0]) {
      t := ts[0];
      DiffAtExtends(b, a, path, t, r);
    } else {
      t := RowsIn(b, a, path, ts[1..], r);
    }
  }

  lemma {:induction false} DiffAtExtends(b: Json, a: Json, path: string, t: Token, r: Row)
    requires r in DiffAt(b, a, path, t)
    ensures Extends(Child(path, t), r.path)
    decreases b, 0, 0
  {
    if At(b, t).Some? && At(a, t).Some? { RowsExtend(At(b, t).value, At(a, t).value, Child(path, t), r); }
  }

  // ---------- no row inside another ----------

  predicate Apart(rows: seq<Row>) {
    forall i, j :: 0 <= i < |rows| && 0 <= j < |rows| && i != j ==> !Extends(rows[i].path, rows[j].path)
  }

  lemma ApartConcat(x: seq<Row>, y: seq<Row>)
    requires Apart(x) && Apart(y)
    requires forall r, s :: r in x && s in y ==> !Extends(r.path, s.path) && !Extends(s.path, r.path)
    ensures Apart(x + y)
  {
    var z := x + y;
    forall i, j | 0 <= i < |z| && 0 <= j < |z| && i != j ensures !Extends(z[i].path, z[j].path) {
      if i < |x| <= j { assert z[i] in x && z[j] in y; }
      if j < |x| <= i { assert z[j] in x && z[i] in y; }
    }
  }

  /** No row's pointer equals or extends another's: every difference is reported once. */
  lemma {:induction false} RowsApart(b: Json, a: Json, path: string)
    ensures Apart(Diff(b, a, path))
    decreases b, 2, 0
  {
    if SameShape(b, a) {
      TokensAre(b, a);
      AllApart(b, a, path, Tokens(b, a));
    }
  }

  lemma {:induction false} AllApart(b: Json, a: Json, path: string, ts: seq<Token>)
    requires Distinct(ts)
    ensures Apart(DiffAll(b, a, path, ts))
    decreases b, 1, |ts|
  {
    if ts != [] {
      var t := ts[0];
      if At(b, t).Some? && At(a, t).Some? { RowsApart(At(b, t).value, At(a, t).value, Child(path, t)); }
      AllApart(b, a, path, ts[1..]);
      var x, y := DiffAt(b, a, path, t), DiffAll(b, a, path, ts[1..]);
      forall r, s | r in x && s in y ensures !Extends(r.path, s.path) && !Extends(s.path, r.path) {
        DiffAtExtends(b, a, path, t, r);
        var u := RowsIn(b, a, path, ts[1..], s);
        assert t in ts && u in ts && t != u;
        if Extends(r.path, s.path) {
          ExtendsTransitive(Child(path, t), r.path, s.path);
          ChildrenApart(path, t, u, s.path);
        }
        if Extends(s.path, r.path) {
          ExtendsTransitive(Child(path, u), s.path, r.path);
          ChildrenApart(path, t, u, r.path);
        }
      }
      ApartConcat(x, y);
    }
  }

  // ---------- reversing ----------

  function Flip(r: Row): Row {
    match r
    case Add(p, v) => Remove(p, v)
    case Remove(p, v) => Add(p, v)
    case Replace(p, x, y) => Replace(p, y, x)
  }

  function Reversed(rows: seq<Row>): seq<Row> { seq(|rows|, i requires 0 <= i < |rows| => Flip(rows[i])) }

  /** Exchanging before and after in every row gives the diff of the exchanged documents. */
  lemma {:induction false} DiffReversed(b: Json, a: Json, path: string)
    ensures Diff(a, b, path) == Reversed(Diff(b, a, path))
    decreases b, 2, 0
  {
    if SameShape(b, a) {
      if b.Obj? { assert b.fields.Keys + a.fields.Keys == a.fields.Keys + b.fields.Keys; }
      AllReversed(b, a, path, Tokens(b, a));
    }
  }

  lemma {:induction false} AllReversed(b: Json, a: Json, path: string, ts: seq<Token>)
    ensures DiffAll(a, b, path, ts) == Reversed(DiffAll(b, a, path, ts))
    decreases b, 1, |ts|
  {
    if ts != [] {
      var t := ts[0];
      AllReversed(b, a, path, ts[1..]);
      if At(b, t).Some? && At(a, t).Some? { DiffReversed(At(b, t).value, At(a, t).value, Child(path, t)); }
      assert DiffAt(a, b, path, t) == Reversed(DiffAt(b, a, path, t));
    }
  }

  // ---------- reading the rows as addresses ----------

  function RowAt(rows: seq<Row>, q: string): Option<Row> {
    if rows == [] then None else if rows[0].path == q then Some(rows[0]) else RowAt(rows[1..], q)
  }

  /** The names that rows add directly under a pointer. */
  function AddedNames(rows: seq<Row>, path: string): set<string> {
    set r | r in rows && r.Add? && |path| < |r.path| && Unescape(r.path[|path| + 1..]).Some?
      :: Unescape(r.path[|path| + 1..]).value
  }

  predicate Holds(doc: Json, rows: seq<Row>, path: string, t: Token) {
    match RowAt(rows, Child(path, t))
    case Some(Add(_, _)) => true
    case Some(Remove(_, _)) => false
    case _ => At(doc, t).Some?
  }

  /** The document the rows describe: every value in the old one is kept, replaced or removed as the
      row at its own pointer says, and added names and items come from their rows. */
  function Patch(doc: Json, rows: seq<Row>, path: string): Json
    decreases doc, 2, 0
  {
    match RowAt(rows, path)
    case Some(Replace(_, _, v)) => v
    case _ =>
      match doc
      case Obj(m) =>
        Obj(map k | k in m.Keys + AddedNames(rows, path) && Holds(doc, rows, path, Key(k))
              :: PatchAt(doc, rows, path, Key(k)))
      case Arr(s) => Arr(PatchItems(doc, rows, path, 0))
      case _ => doc
  }

  function PatchAt(doc: Json, rows: seq<Row>, path: string, t: Token): Json
    requires Holds(doc, rows, path, t)
    decreases doc, 0, 0
  {
    var row := RowAt(rows, Child(path, t));
    if row.Some? && row.value.Add? then row.value.after else Patch(At(doc, t).value, rows, Child(path, t))
  }

  function PatchItems(doc: Json, rows: seq<Row>, path: string, i: nat): seq<Json>
    requires doc.Arr?
    decreases doc, 1, |doc.items| + |rows| - i
  {
    if i >= |doc.items| + |rows| then []
    else if Holds(doc, rows, path, Index(i)) then
      [PatchAt(doc, rows, path, Index(i))] + PatchItems(doc, rows, path, i + 1)
    else PatchItems(doc, rows, path, i + 1)
  }

  lemma {:induction false} RowAtConcat(x: seq<Row>, y: seq<Row>, q: string)
    ensures RowAt(x + y, q) == if RowAt(x, q).Some? then RowAt(x, q) else RowAt(y, q)
    decreases |x|
  {
    if x == [] {
      assert x + y == y;
    } else {
      assert (x + y)[1..] == x[1..] + y;
      RowAtConcat(x[1..], y, q);
    }
  }

  lemma {:induction false} RowAtIn(rows: seq<Row>, q: string)
    ensures RowAt(rows, q).Some? <==> exists r :: r in rows && r.path == q
    ensures RowAt(rows, q).Some? ==> RowAt(rows, q).value in rows && RowAt(rows, q).value.path == q
    decreases |rows|
  {
    if rows != [] && rows[0].path != q {
      RowAtIn(rows[1..], q);
      assert rows == [rows[0]] + rows[1..];
    } else if rows != [] {
      assert rows[0] in rows;
    }
  }

  /** Inside one child, the rows of the whole container are the rows of that child. */
  lemma {:induction false} RowAtChild(b: Json, a: Json, path: string, ts: seq<Token>, t: Token, q: string)
    requires Distinct(ts) && (forall u <- ts :: SameKind(t, u)) && Extends(Child(path, t), q)
    ensures RowAt(DiffAll(b, a, path, ts), q) == if t in ts then RowAt(DiffAt(b, a, path, t), q) else None
    decreases |ts|
  {
    if ts != [] {
      var u := ts[0];
      RowAtConcat(DiffAt(b, a, path, u), DiffAll(b, a, path, ts[1..]), q);
      RowAtChild(b, a, path, ts[1..], t, q);
      assert ts == [u] + ts[1..];
      RowAtIn(DiffAt(b, a, path, u), q);
      if u != t && RowAt(DiffAt(b, a, path, u), q).Some? {
        DiffAtExtends(b, a, path, u, RowAt(DiffAt(b, a, path, u), q).value);
        ChildrenApart(path, t, u, q);
      }
    }
  }

  /** Inside a pointer, the given rows are those of one diff. */
  ghost predicate Agree(rows: seq<Row>, part: seq<Row>, path: string) {
    forall q :: Extends(path, q) ==> RowAt(rows, q) == RowAt(part, q)
  }

  lemma ChildInside(path: string, t: Token)
    ensures Extends(path, Child(path, t)) && Extends(Child(path, t), Child(path, t))
  {
    assert Child(path, t)[..|path|] == path;
  }

  /** What the row at a child's own pointer says. */
  lemma ChildRow(b: Json, a: Json, path: string, t: Token, rows: seq<Row>)
    requires SameShape(b, a) && Agree(rows, Diff(b, a, path), path)
    requires t.Key? <==> b.Obj?
    ensures RowAt(rows, Child(path, t)) == RowAt(DiffAt(b, a, path, t), Child(path, t))
    ensures At(b, t).Some? && At(a, t).Some? ==>
              Agree(rows, Diff(At(b, t).value, At(a, t).value, Child(path, t)), Child(path, t))
  {
    TokensAre(b, a);
    var ts := Tokens(b, a);
    assert forall u <- ts :: SameKind(t, u) by {
      forall u <- ts ensures SameKind(t, u) { assert At(b, u).Some? || At(a, u).Some?; }
    }
    ChildInside(path, t);
    forall q | Extends(Child(path, t), q) ensures RowAt(rows, q) == RowAt(DiffAt(b, a, path, t), q) {
      ExtendsChild(path, t, q);
      RowAtChild(b, a, path, ts, t, q);
    }
  }

  lemma RootRow(b: Json, a: Json, path: string)
    ensures RowAt(Diff(b, a, path), path)
            == if SameShape(b, a) || b == a then None else Some(Replace(path, b, a))
  {
    RowAtIn(Diff(b, a, path), path);
    if SameShape(b, a) && RowAt(Diff(b, a, path), path).Some? {
      var t := RowsIn(b, a, path, Tokens(b, a), RowAt(Diff(b, a, path), path).value);
      ExtendsChild(path, t, path);
    }
  }

  /** Which children the rows say there are, and what is in them. */
  lemma {:induction false} ChildPatched(b: Json, a: Json, path: string, t: Token, rows: seq<Row>)
    requires SameShape(b, a) && Agree(rows, Diff(b, a, path), path)
    requires t.Key? <==> b.Obj?
    ensures Holds(b, rows, path, t) <==> At(a, t).Some?
    ensures At(a, t).Some? ==> PatchAt(b, rows, path, t) == At(a, t).value
    decreases b, 0, 0
  {
    ChildRow(b, a, path, t, rows);
    if At(b, t).Some? && At(a, t).Some? {
      RootRow(At(b, t).value, At(a, t).value, Child(path, t));
      PatchDiffWithin(At(b, t).value, At(a, t).value, Child(path, t), rows);
    }
  }

  lemma {:induction false} PatchDiffWithin(b: Json, a: Json, path: string, rows: seq<Row>)
    requires Agree(rows, Diff(b, a, path), path)
    ensures Patch(b, rows, path) == a
    decreases b, 1, 0
  {
    RootRow(b, a, path);
    assert Extends(path, path);
    if b.Obj? && a.Obj? {
      FieldsPatched(b, a, path, rows);
    } else if b.Arr? && a.Arr? {
      ItemsPatched(b, a, path, rows, 0);
    }
  }

  lemma {:induction false} FieldsPatched(b: Json, a: Json, path: string, rows: seq<Row>)
    requires b.Obj? && a.Obj? && Agree(rows, Diff(b, a, path), path) && RowAt(rows, path).None?
    ensures Patch(b, rows, path) == a
    decreases b, 0, 1
  {
    hide Diff, Agree;
    forall k ensures Holds(b, rows, path, Key(k)) <==> k in a.fields {
      ChildPatched(b, a, path, Key(k), rows);
    }
    forall k | k in a.fields
      ensures k in b.fields.Keys + AddedNames(rows, path)
      ensures PatchAt(b, rows, path, Key(k)) == a.fields[k]
    {
      ChildPatched(b, a, path, Key(k), rows);
      if k !in b.fields {
        ChildRow(b, a, path, Key(k), rows);
        RowAtIn(rows, Child(path, Key(k)));
        var r := RowAt(rows, Child(path, Key(k))).value;
        assert r.path[|path| + 1..] == Escape(k);
        UnescapeEscape(k);
        assert r in rows && r.Add?;
      }
    }
    assert Patch(b, rows, path).fields.Keys == a.fields.Keys;
  }

  ghost function IndexPaths(path: string, lo: nat, n: nat): set<string>
    decreases n
  {
    if n == 0 then {} else {Child(path, Index(lo))} + IndexPaths(path, lo + 1, n - 1)
  }

  lemma {:induction false} IndexPathsHave(path: string, lo: nat, n: nat, p: string) returns (i: nat)
    requires p in IndexPaths(path, lo, n)
    ensures lo <= i < lo + n && p == Child(path, Index(i))
    decreases n
  {
    hide Child;
    if p == Child(path, Index(lo)) { i := lo; } else { i := IndexPathsHave(path, lo + 1, n - 1, p); }
  }

  lemma ChildInjective(path: string, t: Token, u: Token)
    requires SameKind(t, u) && Child(path, t) == Child(path, u)
    ensures t == u
  {
    ChildInside(path, t);
    ChildrenApart(path, t, u, Child(path, t));
  }

  lemma {:induction false} IndexPathsCount(path: string, lo: nat, n: nat)
    ensures |IndexPaths(path, lo, n)| == n
    decreases n
  {
    hide Child;
    if n > 0 {
      IndexPathsCount(path, lo + 1, n - 1);
      if Child(path, Index(lo)) in IndexPaths(path, lo + 1, n - 1) {
        var i := IndexPathsHave(path, lo + 1, n - 1, Child(path, Index(lo)));
        ChildInjective(path, Index(lo), Index(i));
      }
    }
  }

  lemma {:induction false} PathsBounded(rows: seq<Row>, ps: set<string>)
    requires forall p <- ps :: RowAt(rows, p).Some?
    ensures |ps| <= |rows|
    decreases |rows|
  {
    if rows == [] {
      assert forall p :: RowAt(rows, p).None?;
      assert ps == {};
    } else {
      var rest := ps - {rows[0].path};
      PathsBounded(rows[1..], rest);
      assert ps <= rest + {rows[0].path};
      Larger(ps, rest, rows[0].path);
    }
  }

  lemma Larger(ps: set<string>, rest: set<string>, p: string)
    requires rest == ps - {p}
    ensures |ps| <= |rest| + 1
  {
    if p in ps { assert ps == rest + {p}; } else { assert ps == rest; }
  }

  lemma AddsFit(b: Json, a: Json, path: string, rows: seq<Row>)
    requires b.Arr? && a.Arr? && Agree(rows, Diff(b, a, path), path)
    ensures |a.items| <= |b.items| + |rows|
  {
    hide Diff, Agree, Child;
    if |a.items| > |b.items| {
      var n := |a.items| - |b.items|;
      IndexPathsCount(path, |b.items|, n);
      forall p | p in IndexPaths(path, |b.items|, n) ensures RowAt(rows, p).Some? {
        var i := IndexPathsHave(path, |b.items|, n, p);
        ChildRow(b, a, path, Index(i), rows);
      }
      PathsBounded(rows, IndexPaths(path, |b.items|, n));
    }
  }

  lemma {:induction false} ItemsPatched(b: Json, a: Json, path: string, rows: seq<Row>, i: nat)
    requires b.Arr? && a.Arr? && Agree(rows, Diff(b, a, path), path)
    ensures PatchItems(b, rows, path, i) == if i <= |a.items| then a.items[i..] else []
    decreases b, 0, 1 + (if i <= |b.items| + |rows| then |b.items| + |rows| - i else 0)
  {
    AddsFit(b, a, path, rows);
    if i < |b.items| + |rows| {
      ChildPatched(b, a, path, Index(i), rows);
      ItemsPatched(b, a, path, rows, i + 1);
    }
  }

  // ---------- the main statements ----------

  /** The diff is complete and reversible: read as addresses into the document before, its rows give
      the document after, and the flipped rows lead back. */
  lemma DiffRebuilds(before: Json, after: Json)
    ensures Patch(before, Diff(before, after, ""), "") == after
    ensures Patch(after, Reversed(Diff(before, after, "")), "") == before
  {
    PatchDiffWithin(before, after, "", Diff(before, after, ""));
    DiffReversed(before, after, "");
    PatchDiffWithin(after, before, "", Diff(after, before, ""));
  }

  lemma {:induction false} NoRowsNoChange(doc: Json, path: string)
    ensures Patch(doc, [], path) == doc
    decreases doc, 1
  {
    match doc
    case Obj(m) =>
      forall k | k in m ensures PatchAt(doc, [], path, Key(k)) == m[k] { NoRowsNoChange(m[k], Child(path, Key(k))); }
      assert AddedNames([], path) == {};
    case Arr(s) => NoRowsSameItems(doc, path, 0);
    case _ =>
  }

  lemma {:induction false} NoRowsSameItems(doc: Json, path: string, i: nat)
    requires doc.Arr? && i <= |doc.items|
    ensures PatchItems(doc, [], path, i) == doc.items[i..]
    decreases doc, 0, |doc.items| - i
  {
    if i < |doc.items| {
      NoRowsNoChange(doc.items[i], Child(path, Index(i)));
      NoRowsSameItems(doc, path, i + 1);
    }
  }

  /** The diff is empty exactly when the typed documents are equal. */
  lemma EmptyIffEqual(before: Json, after: Json, path: string)
    ensures Diff(before, after, path) == [] <==> before == after
  {
    if Diff(before, after, path) == [] {
      PatchDiffWithin(before, after, path, []);
      NoRowsNoChange(before, path);
    }
    if before == after { SameHasNoRows(before, path); }
  }

  lemma {:induction false} SameHasNoRows(doc: Json, path: string)
    ensures Diff(doc, doc, path) == []
    decreases doc, 1, 0
  {
    if Container(doc) { SameHasNoRowsAll(doc, path, Tokens(doc, doc)); }
  }

  lemma {:induction false} SameHasNoRowsAll(doc: Json, path: string, ts: seq<Token>)
    ensures DiffAll(doc, doc, path, ts) == []
    decreases doc, 0, |ts|
  {
    if ts != [] {
      if At(doc, ts[0]).Some? { SameHasNoRows(At(doc, ts[0]).value, Child(path, ts[0])); }
      SameHasNoRowsAll(doc, path, ts[1..]);
    }
  }
}
