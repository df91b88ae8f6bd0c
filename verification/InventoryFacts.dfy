/** What the streaming comparison reports, in terms of the two sets of rows. */
module InventoryFacts {
  import opened Wrappers
  import opened Order
  import opened Inventory
  import opened Hardlinks
  import opened InventoryDiff

  // ---------- one path ----------

  /** The two rows agree in one field; an absent value and null are the same. */
  predicate SameColumn(x: Row, y: Row, f: Field) {
    match f
    case Xattrs => x.xattrs == y.xattrs
    case Acl => x.acl == y.acl
    case _ => (f in x.plain <==> f in y.plain) && (f in x.plain ==> x.plain[f] == y.plain[f])
  }

  ghost predicate SameFields(x: Row, y: Row) { forall f: Field :: SameColumn(x, y, f) }

  lemma {:induction false} FieldOutsEmpty(x: Row, y: Row, fs: seq<Field>)
    requires x.xattrs.Ok? && y.xattrs.Ok?
    ensures FieldOuts(x, y, fs) == [] <==> forall f <- fs :: Column(x, f) == Column(y, f)
    decreases |fs|
  {
    if fs != [] {
      FieldOutsEmpty(x, y, fs[1..]);
      assert fs == [fs[0]] + fs[1..];
    }
  }

  lemma ColumnTells(x: Row, y: Row, f: Field)
    requires x.xattrs.Ok? && y.xattrs.Ok?
    ensures Column(x, f) == Column(y, f) <==> SameColumn(x, y, f)
    ensures f in FIELDS
  {
    NormalizeInjective(x.xattrs.values, y.xattrs.values);
    assert FIELDS[0] == Kind && FIELDS[1] == Sha256 && FIELDS[2] == Target && FIELDS[3] == Uid;
    assert FIELDS[4] == Gid && FIELDS[5] == Mode && FIELDS[6] == Flags && FIELDS[7] == Xattrs && FIELDS[8] == Acl;
  }

  lemma NoFieldOuts(x: Row, y: Row)
    requires x.xattrs.Ok? && y.xattrs.Ok?
    ensures FieldOuts(x, y, FIELDS) == [] <==> SameFields(x, y)
  {
    FieldOutsEmpty(x, y, FIELDS);
    forall f: Field ensures (Column(x, f) == Column(y, f) <==> SameColumn(x, y, f)) && f in FIELDS {
      ColumnTells(x, y, f);
    }
    hide Column, SameColumn, FIELDS, FieldOuts;
  }

  lemma {:induction false} ClassRowsEmpty(path: string, v: map<string, string>, w: map<string, string>, names: seq<string>)
    ensures ClassRows(path, v, w, names) == [] <==> forall k <- names :: Get(v, k) == Get(w, k)
    decreases |names|
  {
    if names != [] {
      ClassRowsEmpty(path, v, w, names[1..]);
      assert names == [names[0]] + names[1..];
    }
  }

  /** A path has classified attributes exactly when its normalized attributes differ, exactly when its
      raw ones do. */
  lemma ClassesTellAttributes(x: Row, y: Row)
    requires x.xattrs.Ok? && y.xattrs.Ok?
    ensures Classes(x, y) == [] <==> x.xattrs == y.xattrs
    ensures Classes(x, y) == [] <==> Column(x, Xattrs) == Column(y, Xattrs)
  {
    var v, w := x.xattrs.values, y.xattrs.values;
    NormalizeInjective(v, w);
    ClassRowsEmpty(x.path, v, w, KeyOrder(v.Keys + w.Keys));
    if forall k <- KeyOrder(v.Keys + w.Keys) :: Get(v, k) == Get(w, k) {
      forall k ensures Get(v, k) == Get(w, k) {
        if k in v.Keys + w.Keys { assert k in KeyOrder(v.Keys + w.Keys); }
      }
      assert v.Keys == w.Keys by { forall k ensures k in v <==> k in w { assert Get(v, k) == Get(w, k); } }
      forall k | k in v ensures v[k] == w[k] { assert Get(v, k) == Get(w, k); }
      assert v == w;
    }
  }

  // ---------- all paths ----------

  function AtPath(out: seq<Out>, p: string): seq<Out>
    decreases |out|
  {
    if out == [] then [] else (if out[0].path == p then [out[0]] else []) + AtPath(out[1..], p)
  }

  /** The lines due for one path. */
  ghost function Due(x: Option<Row>, y: Option<Row>): seq<Out>
  {
    match (x, y)
    case (None, None) => []
    case (Some(r), None) => Lost(r)
    case (None, Some(r)) => Gained(r)
    case (Some(r), Some(s)) => if r.xattrs.Ok? && s.xattrs.Ok? then FieldOuts(r, s, FIELDS) else []
  }

  lemma {:induction false} AtPathConcat(x: seq<Out>, y: seq<Out>, p: string)
    ensures AtPath(x + y, p) == AtPath(x, p) + AtPath(y, p)
    decreases |x|
  {
    if x == [] {
      assert x + y == y;
    } else {
      assert (x + y)[1..] == x[1..] + y && (x + y)[0] == x[0];
      AtPathConcat(x[1..], y, p);
      var head := if x[0].path == p then [x[0]] else [];
      assert AtPath(x, p) == head + AtPath(x[1..], p) && AtPath(x + y, p) == head + AtPath(x[1..] + y, p);
    }
  }

  lemma {:induction false} AtPathAll(x: seq<Out>, q: string, p: string)
    requires forall o <- x :: o.path == q
    ensures AtPath(x, p) == if p == q then x else []
    decreases |x|
  {
    if x != [] { AtPathAll(x[1..], q, p); }
  }

  lemma {:induction false} FieldOutsPath(x: Row, y: Row, fs: seq<Field>)
    requires x.xattrs.Ok? && y.xattrs.Ok?
    ensures forall o <- FieldOuts(x, y, fs) :: o.path == x.path
    decreases |fs|
  {
    if fs != [] { FieldOutsPath(x, y, fs[1..]); }
  }

  lemma {:induction false} FindAbove(rows: seq<Row>, p: string)
    requires SortedRows(rows) && (rows != [] ==> Less(p, rows[0].path))
    ensures Find(rows, p).None?
    decreases |rows|
  {
    FindIn(rows, p);
    if Find(rows, p).Some? {
      var i :| 0 <= i < |rows| && rows[i] == Find(rows, p).value;
      LessTotal(p, p);
      if i > 0 { LessTransitive(p, rows[0].path, rows[i].path); }
    }
  }

  lemma TailSorted(rows: seq<Row>)
    requires SortedRows(rows) && rows != []
    ensures SortedRows(rows[1..]) && Find(rows[1..], rows[0].path).None?
  {
    FindAbove(rows[1..], rows[0].path);
  }

  /** One step of the merge, seen from any path. */
  lemma StepAtPath(first: seq<Out>, rest: seq<Out>, q: string, p: string)
    requires forall o <- first :: o.path == q
    ensures AtPath(first + rest, p) == if p == q then first + AtPath(rest, p) else AtPath(rest, p)
  {
    AtPathConcat(first, rest, p);
    AtPathAll(first, q, p);
  }

  /** Exactly the missing paths, the added paths and the differing fields: for every path, the lines
      of the merge about it are the lines due for its two rows, in order and without repetition. */
  lemma {:induction false} MergeIsExact(a: seq<Row>, b: seq<Row>, p: string)
    requires SortedRows(a) && SortedRows(b) && Merge(a, b).Some?
    ensures AtPath(Merge(a, b).value.out, p) == Due(Find(a, p), Find(b, p))
    decreases |a| + |b|
  {
    hide FieldOuts, Classes, AtPath;
    if a == [] && b == [] {
      NoOut(p);
    } else if b == [] || (a != [] && Less(a[0].path, b[0].path)) {
      TailSorted(a);
      FindAbove(b, a[0].path);
      MergeIsExact(a[1..], b, p);
      StepAtPath(Lost(a[0]), Merge(a[1..], b).value.out, a[0].path, p);
    } else if a == [] || Less(b[0].path, a[0].path) {
      TailSorted(b);
      FindAbove(a, b[0].path);
      MergeIsExact(a, b[1..], p);
      StepAtPath(Gained(b[0]), Merge(a, b[1..]).value.out, b[0].path, p);
    } else {
      LessTotal(a[0].path, b[0].path);
      TailSorted(a);
      TailSorted(b);
      MergeIsExact(a[1..], b[1..], p);
      FieldOutsPath(a[0], b[0], FIELDS);
      StepAtPath(FieldOuts(a[0], b[0], FIELDS), Merge(a[1..], b[1..]).value.out, a[0].path, p);
    }
  }

  lemma NoOut(p: string)
    ensures AtPath([], p) == []
  {
  }

  /** The merge is rejected exactly when some common path has attributes that were not read as OK. */
  lemma {:induction false} MergeRejects(a: seq<Row>, b: seq<Row>)
    requires SortedRows(a) && SortedRows(b)
    ensures Merge(a, b).None? <==> exists p :: Clash(a, b, p)
    decreases |a| + |b|
  {
    hide FieldOuts, Classes;
    if a == [] && b == [] {
    } else if b == [] || (a != [] && Less(a[0].path, b[0].path)) {
      TailSorted(a);
      FindAbove(b, a[0].path);
      MergeRejects(a[1..], b);
      forall p ensures Clash(a, b, p) <==> Clash(a[1..], b, p) { }
    } else if a == [] || Less(b[0].path, a[0].path) {
      TailSorted(b);
      FindAbove(a, b[0].path);
      MergeRejects(a, b[1..]);
      forall p ensures Clash(a, b, p) <==> Clash(a, b[1..], p) { }
    } else {
      LessTotal(a[0].path, b[0].path);
      TailSorted(a);
      TailSorted(b);
      MergeRejects(a[1..], b[1..]);
      if a[0].xattrs.Ok? && b[0].xattrs.Ok? {
        forall p ensures Clash(a, b, p) <==> Clash(a[1..], b[1..], p) { }
      } else {
        assert Clash(a, b, a[0].path);
      }
    }
  }

  predicate Clash(a: seq<Row>, b: seq<Row>, p: string) {
    Find(a, p).Some? && Find(b, p).Some? && !(Find(a, p).value.xattrs.Ok? && Find(b, p).value.xattrs.Ok?)
  }

  // ---------- counters ----------

  function PathsOf(out: seq<Out>): set<string> { set o | o in out :: o.path }

  lemma {:induction false} AtPathIn(out: seq<Out>, p: string)
    ensures AtPath(out, p) != [] <==> p in PathsOf(out)
    decreases |out|
  {
    if out != [] {
      AtPathIn(out[1..], p);
      assert out == [out[0]] + out[1..];
      assert out[0] in out;
      assert forall o :: o in out[1..] ==> o in out;
    }
  }

  lemma StepPaths(first: seq<Out>, rest: seq<Out>, q: string)
    requires (forall o <- first :: o.path == q) && q !in PathsOf(rest)
    ensures |PathsOf(first + rest)| == |PathsOf(rest)| + if first != [] then 1 else 0
  {
    if first == [] {
      assert first + rest == rest;
    } else {
      assert first[0] in first + rest;
      assert PathsOf(first + rest) == {q} + PathsOf(rest);
    }
  }

  lemma Unreported(a: seq<Row>, b: seq<Row>, q: string)
    requires SortedRows(a) && SortedRows(b) && Merge(a, b).Some?
    requires Find(a, q).None? && Find(b, q).None?
    ensures q !in PathsOf(Merge(a, b).value.out)
  {
    MergeIsExact(a, b, q);
    AtPathIn(Merge(a, b).value.out, q);
  }

  /** `diff_paths` is the number of paths that have a line. */
  lemma {:induction false} ChangedCountsPaths(a: seq<Row>, b: seq<Row>)
    requires SortedRows(a) && SortedRows(b) && Merge(a, b).Some?
    ensures Merge(a, b).value.changed == |PathsOf(Merge(a, b).value.out)|
    decreases |a| + |b|
  {
    hide FieldOuts, Classes, PathsOf;
    if a == [] && b == [] {
      NoPaths();
    } else if b == [] || (a != [] && Less(a[0].path, b[0].path)) {
      TailSorted(a);
      FindAbove(b, a[0].path);
      ChangedCountsPaths(a[1..], b);
      Unreported(a[1..], b, a[0].path);
      StepPaths(Lost(a[0]), Merge(a[1..], b).value.out, a[0].path);
    } else if a == [] || Less(b[0].path, a[0].path) {
      TailSorted(b);
      FindAbove(a, b[0].path);
      ChangedCountsPaths(a, b[1..]);
      Unreported(a, b[1..], b[0].path);
      StepPaths(Gained(b[0]), Merge(a, b[1..]).value.out, b[0].path);
    } else {
      LessTotal(a[0].path, b[0].path);
      TailSorted(a);
      TailSorted(b);
      ChangedCountsPaths(a[1..], b[1..]);
      Unreported(a[1..], b[1..], a[0].path);
      FieldOutsPath(a[0], b[0], FIELDS);
      StepPaths(FieldOuts(a[0], b[0], FIELDS), Merge(a[1..], b[1..]).value.out, a[0].path);
    }
  }

  lemma NoPaths()
    ensures |PathsOf([])| == 0
  {
    assert PathsOf([]) == {};
  }

  predicate Ascends(out: seq<Out>) {
    forall i, j :: 0 <= i < j < |out| ==> out[i].path == out[j].path || Less(out[i].path, out[j].path)
  }

  lemma StepAscends(first: seq<Out>, rest: seq<Out>, q: string)
    requires (forall o <- first :: o.path == q) && Ascends(rest)
    requires forall o <- rest :: Less(q, o.path)
    ensures Ascends(first + rest)
  {
    var all := first + rest;
    forall i, j | 0 <= i < j < |all| ensures all[i].path == all[j].path || Less(all[i].path, all[j].path) {
      if i < |first| { assert all[i] in first; }
      if j < |first| { assert all[j] in first; } else { assert all[j] in rest; }
    }
  }

  /** A reported path is the path of a row. */
  lemma ReportedAbove(a: seq<Row>, b: seq<Row>, q: string)
    requires SortedRows(a) && SortedRows(b) && Merge(a, b).Some?
    requires (a != [] ==> Less(q, a[0].path)) && (b != [] ==> Less(q, b[0].path))
    ensures forall o <- Merge(a, b).value.out :: Less(q, o.path)
  {
    var out := Merge(a, b).value.out;
    forall o <- out ensures Less(q, o.path) {
      MergeIsExact(a, b, o.path);
      AtPathIn(out, o.path);
      FindIn(a, o.path);
      FindIn(b, o.path);
      if Find(a, o.path).Some? { RowAbove(a, q, Find(a, o.path).value); }
      else { RowAbove(b, q, Find(b, o.path).value); }
    }
  }

  lemma RowAbove(a: seq<Row>, q: string, r: Row)
    requires SortedRows(a) && r in a && Less(q, a[0].path)
    ensures Less(q, r.path)
  {
    var i :| 0 <= i < |a| && a[i] == r;
    if i > 0 { LessTransitive(q, a[0].path, a[i].path); }
  }

  /** The lines come in ascending order of their paths; with the lines of each path known, the whole
      artifact is determined. */
  lemma {:induction false} MergeAscends(a: seq<Row>, b: seq<Row>)
    requires SortedRows(a) && SortedRows(b) && Merge(a, b).Some?
    ensures Ascends(Merge(a, b).value.out)
    decreases |a| + |b|
  {
    hide FieldOuts, Classes, Less, Ascends;
    if a == [] && b == [] {
      NothingAscends();
    } else if b == [] || (a != [] && Less(a[0].path, b[0].path)) {
      TailSorted(a);
      MergeAscends(a[1..], b);
      ReportedAbove(a[1..], b, a[0].path);
      StepAscends(Lost(a[0]), Merge(a[1..], b).value.out, a[0].path);
    } else if a == [] || Less(b[0].path, a[0].path) {
      TailSorted(b);
      MergeAscends(a, b[1..]);
      ReportedAbove(a, b[1..], b[0].path);
      StepAscends(Gained(b[0]), Merge(a, b[1..]).value.out, b[0].path);
    } else {
      LessTotal(a[0].path, b[0].path);
      TailSorted(a);
      TailSorted(b);
      MergeAscends(a[1..], b[1..]);
      ReportedAbove(a[1..], b[1..], a[0].path);
      FieldOutsPath(a[0], b[0], FIELDS);
      StepAscends(FieldOuts(a[0], b[0], FIELDS), Merge(a[1..], b[1..]).value.out, a[0].path);
    }
  }

  lemma NothingAscends()
    ensures Ascends([])
  {
  }

  // ---------- hardlink groups ----------

  lemma GroupsTail(a: seq<string>)
    requires Sorted(a) && a != []
    ensures Sorted(a[1..]) && a[0] !in a[1..] && forall x :: x in a <==> x == a[0] || x in a[1..]
  {
    HeadLess(a);
    LessTotal(a[0], a[0]);
  }

  lemma {:induction false} AboveAll(a: seq<string>, x: string)
    requires Sorted(a) && (a != [] ==> Less(x, a[0]))
    ensures x !in a
    decreases |a|
  {
    LessTotal(x, x);
    if a != [] {
      GroupsTail(a);
      if |a| > 1 { LessTransitive(x, a[0], a[1]); }
      AboveAll(a[1..], x);
    }
  }

  function Elements(a: seq<string>): set<string> { set x | x in a }

  predicate GroupDue(o: Out, a: seq<string>, b: seq<string>) {
    || (o.before.Group? && o == Out(".", GroupMissing, o.before, Null) && o.before.digest in a && o.before.digest !in b)
    || (o.after.Group? && o == Out(".", GroupAdded, Null, o.after) && o.after.digest in b && o.after.digest !in a)
  }

  /** The group lines are the symmetric difference of the two group sets, each group once. */
  lemma {:induction false} GroupsAreDifference(a: seq<string>, b: seq<string>)
    requires Sorted(a) && Sorted(b)
    ensures forall o :: o in Groups(a, b) <==> GroupDue(o, a, b)
    decreases |a| + |b|
  {
    hide Less, Sorted;
    if a == [] && b == [] {
    } else if a != [] && b != [] && a[0] == b[0] {
      GroupsTail(a);
      GroupsTail(b);
      GroupsAreDifference(a[1..], b[1..]);
    } else if b == [] || (a != [] && Less(a[0], b[0])) {
      GroupsTail(a);
      AboveAll(b, a[0]);
      GroupsAreDifference(a[1..], b);
    } else {
      GroupsTail(b);
      if a != [] { LessTotal(a[0], b[0]); }
      AboveAll(a, b[0]);
      GroupsAreDifference(a, b[1..]);
    }
  }

  lemma ElementsHead(a: seq<string>)
    requires Sorted(a) && a != []
    ensures Sorted(a[1..]) && Elements(a) == {a[0]} + Elements(a[1..]) && a[0] !in Elements(a[1..])
  {
    GroupsTail(a);
  }

  lemma OneMore(x: string, a: set<string>, b: set<string>)
    requires x !in a && x !in b
    ensures |({x} + a) - b| == 1 + |a - b| && b - ({x} + a) == b - a
    ensures ({x} + a) - ({x} + b) == a - b
  {
    assert ({x} + a) - b == {x} + (a - b);
  }

  lemma {:induction false} GroupsCount(a: seq<string>, b: seq<string>)
    requires Sorted(a) && Sorted(b)
    ensures |Groups(a, b)| == |Elements(a) - Elements(b)| + |Elements(b) - Elements(a)|
    decreases |a| + |b|
  {
    hide Less, Sorted, Elements;
    if a == [] && b == [] {
    } else if a != [] && b != [] && a[0] == b[0] {
      ElementsHead(a);
      ElementsHead(b);
      GroupsCount(a[1..], b[1..]);
      OneMore(a[0], Elements(a[1..]), Elements(b[1..]));
      OneMore(a[0], Elements(b[1..]), Elements(a[1..]));
    } else if b == [] || (a != [] && Less(a[0], b[0])) {
      ElementsHead(a);
      NotAbove(b, a[0]);
      GroupsCount(a[1..], b);
      OneMore(a[0], Elements(a[1..]), Elements(b));
    } else {
      ElementsHead(b);
      if a != [] { LessTotal(a[0], b[0]); }
      NotAbove(a, b[0]);
      GroupsCount(a, b[1..]);
      OneMore(b[0], Elements(b[1..]), Elements(a));
    }
  }

  lemma NotAbove(a: seq<string>, x: string)
    requires Sorted(a) && (a != [] ==> Less(x, a[0]))
    ensures x !in Elements(a)
  {
    AboveAll(a, x);
  }

  lemma NoGroups(a: seq<string>, b: seq<string>)
    requires Sorted(a) && Sorted(b)
    ensures Groups(a, b) == [] <==> a == b
  {
    GroupsAreDifference(a, b);
    if Groups(a, b) == [] {
      forall x ensures x in a <==> x in b {
        assert Out(".", GroupMissing, Group(x), Null) !in Groups(a, b);
        assert Out(".", GroupAdded, Null, Group(x)) !in Groups(a, b);
      }
      SortedUnique(a, b);
    }
    GroupsCount(a, b);
    if a == b { assert Elements(a) - Elements(b) == {}; }
  }

  // ---------- zero ----------

  /** Both inventories have the same paths, and at each the same compared fields. */
  ghost predicate RowsAgree(a: seq<Row>, b: seq<Row>) {
    forall p :: (Find(a, p).Some? <==> Find(b, p).Some?)
                && (Find(a, p).Some? ==> SameFields(Find(a, p).value, Find(b, p).value))
  }

  /** The comparison reports zero exactly when the rows agree and the hardlink groups are the same. */
  lemma ZeroIffAgree(a: seq<Row>, b: seq<Row>, ga: seq<string>, gb: seq<string>)
    requires SortedRows(a) && SortedRows(b) && Sorted(ga) && Sorted(gb) && Merge(a, b).Some?
    ensures |Merge(a, b).value.out + Groups(ga, gb)| == 0 <==> RowsAgree(a, b) && ga == gb
  {
    var out := Merge(a, b).value.out;
    NoGroups(ga, gb);
    MergeRejects(a, b);
    forall p ensures AtPath(out, p) == [] <==>
      ((Find(a, p).Some? <==> Find(b, p).Some?)
       && (Find(a, p).Some? ==> SameFields(Find(a, p).value, Find(b, p).value)))
    {
      MergeIsExact(a, b, p);
      assert !Clash(a, b, p);
      if Find(a, p).Some? && Find(b, p).Some? { NoFieldOuts(Find(a, p).value, Find(b, p).value); }
    }
    if out != [] {
      AtPathIn(out, out[0].path);
      assert out[0] in out;
    } else {
      forall p ensures AtPath(out, p) == [] { }
    }
  }

  // ---------- no omission is known ----------

  lemma {:induction false} ClassRowsReal(path: string, v: map<string, string>, w: map<string, string>, names: seq<string>)
    ensures forall c <- ClassRows(path, v, w, names) :: c.classification == RealXattrDifference
    decreases |names|
  {
    if names != [] { ClassRowsReal(path, v, w, names[1..]); }
  }

  lemma {:induction false} MergeClassesReal(a: seq<Row>, b: seq<Row>)
    requires Merge(a, b).Some?
    ensures forall c <- Merge(a, b).value.classes :: c.classification == RealXattrDifference
    decreases |a| + |b|
  {
    hide FieldOuts, ClassRows;
    if a == [] && b == [] {
    } else if b == [] || (a != [] && Less(a[0].path, b[0].path)) {
      MergeClassesReal(a[1..], b);
    } else if a == [] || Less(b[0].path, a[0].path) {
      MergeClassesReal(a, b[1..]);
    } else {
      MergeClassesReal(a[1..], b[1..]);
      var v, w := a[0].xattrs.values, b[0].xattrs.values;
      ClassRowsReal(a[0].path, v, w, KeyOrder(v.Keys + w.Keys));
    }
  }

  lemma {:induction false} AllOfOneKind(classes: seq<Class>, c: Classification, d: Classification)
    requires forall x <- classes :: x.classification == c
    ensures CountClasses(classes, d) == if c == d then |classes| else 0
    decreases |classes|
  {
    if classes != [] { AllOfOneKind(classes[..|classes| - 1], c, d); }
  }

  /** The classifier knows omissions, but the comparison never reports one: every classified attribute
      counts as a real difference. */
  lemma NoKnownOmissions(a: seq<Row>, b: seq<Row>)
    requires Merge(a, b).Some?
    ensures CountClasses(Merge(a, b).value.classes, DittoEmptyValueOmission) == 0
    ensures CountClasses(Merge(a, b).value.classes, RealXattrDifference) == |Merge(a, b).value.classes|
  {
    MergeClassesReal(a, b);
    AllOfOneKind(Merge(a, b).value.classes, RealXattrDifference, DittoEmptyValueOmission);
    AllOfOneKind(Merge(a, b).value.classes, RealXattrDifference, RealXattrDifference);
  }

  /** The sorted rows of an entries table. */
  ghost predicate Selected(rows: seq<Row>, table: map<string, Row>) {
    SortedRows(rows) && forall p :: Find(rows, p) == if p in table then Some(table[p]) else None
  }

  ghost predicate RowsSame(a: map<string, Row>, b: map<string, Row>) {
    a.Keys == b.Keys && forall p <- a :: p in b && SameFields(a[p], b[p])
  }

  lemma RowsAgreeSame(ra: seq<Row>, rb: seq<Row>, a: map<string, Row>, b: map<string, Row>)
    requires Selected(ra, a) && Selected(rb, b)
    ensures RowsAgree(ra, rb) <==> RowsSame(a, b)
  {
    hide SameFields, SortedRows;
    forall p ensures (Find(ra, p).Some? <==> p in a) && (Find(rb, p).Some? <==> p in b) { }
    if RowsAgree(ra, rb) {
      forall p | p in a ensures p in b && SameFields(a[p], b[p]) { assert Find(ra, p) == Some(a[p]); }
      forall p | p in b ensures p in a { assert Find(rb, p) == Some(b[p]); }
    }
  }

  /** Exported, chunked, written out and read back, two entry tables compare as zero exactly when they
      have the same paths with the same compared fields and the same partition into hardlink groups. */
  lemma TablesAgree(a: Table, b: Table, ca: seq<seq<Row>>, cb: seq<seq<Row>>,
                    ga: seq<seq<string>>, gb: seq<seq<string>>, enc: seq<string> -> string, h: string -> string,
                    da: seq<string>, db: seq<string>)
    requires Selected(Concat(ca), RowsOf(a)) && Selected(Concat(cb), RowsOf(b)) && Merge(Concat(ca), Concat(cb)).Some?
    requires ListsGroups(ga, a) && ListsGroups(gb, b) && Encodes(enc, h)
    requires IsTopology(FileText(enc, ga), h, da) && IsTopology(FileText(enc, gb), h, db)
    ensures |Merge(Concat(ca), Concat(cb)).value.out + Groups(da, db)| == 0
            <==> RowsSame(RowsOf(a), RowsOf(b)) && Partition(a) == Partition(b)
  {
    hide SameFields, Merge, Groups, SortedRows, RowsAgree, RowsSame, IsTopology, ListsGroups, Encodes, Partition, RowsOf;
    TopologySorted(FileText(enc, ga), h, da);
    TopologySorted(FileText(enc, gb), h, db);
    ZeroIffAgree(Concat(ca), Concat(cb), da, db);
    RowsAgreeSame(Concat(ca), Concat(cb), RowsOf(a), RowsOf(b));
    SamePartition(a, b, ga, gb, enc, h, da, db);
  }
}
