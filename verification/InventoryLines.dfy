/** Every line and every counter of the comparison, spelled out on the rows. */
module InventoryLines {
  import opened Wrappers
  import opened Order
  import opened Inventory
  import opened InventoryDiff
  import opened InventoryFacts

  // ---------- one line ----------

  /** No row of the list has this path. */
  predicate Lacks(rows: seq<Row>, path: string) { forall r <- rows :: r.path != path }

  function Plain(r: Row, f: Field): Cell { if f in r.plain then Text(r.plain[f]) else Null }

  /** The cell of raw attributes: the nonempty ones, and the sorted names of the empty ones. */
  predicate Shows(c: Cell, v: map<string, string>) {
    && c.Normal?
    && c.norm.nonempty == (map k | k in v && v[k] != EMPTY :: v[k])
    && Sorted(c.norm.empty) && (forall k <- v :: v[k] == EMPTY ==> k in c.norm.empty)
    && (forall k <- c.norm.empty :: k in v && v[k] == EMPTY)
  }

  /** The line of one differing field: the value before, then the value after. */
  predicate FieldLine(o: Out, x: Row, y: Row) {
    && o.path == x.path && o.what.Differs?
    && match o.what.field
       case Acl => x.acl != y.acl && o.before == Text(x.acl) && o.after == Text(y.acl)
       case Xattrs =>
         && x.xattrs.Ok? && y.xattrs.Ok? && x.xattrs.values != y.xattrs.values
         && Shows(o.before, x.xattrs.values) && Shows(o.after, y.xattrs.values)
       case f => Plain(x, f) != Plain(y, f) && o.before == Plain(x, f) && o.after == Plain(y, f)
  }

  predicate MissingLine(o: Out, a: seq<Row>, b: seq<Row>) {
    exists r :: r in a && Lacks(b, r.path) &&
      (o == Out(r.path, Missing, Whole(r), Null) || o == Out(r.path, AclMissing, Text(r.acl), Null))
  }

  predicate AddedLine(o: Out, a: seq<Row>, b: seq<Row>) {
    exists r :: r in b && Lacks(a, r.path) &&
      (o == Out(r.path, Added, Null, Whole(r)) || o == Out(r.path, AclAdded, Null, Text(r.acl)))
  }

  predicate DiffersLine(o: Out, a: seq<Row>, b: seq<Row>) {
    exists x, y :: x in a && y in b && x.path == y.path && FieldLine(o, x, y)
  }

  // ---------- the lines are these ----------

  lemma {:induction false} InAtPath(out: seq<Out>, o: Out)
    ensures o in AtPath(out, o.path) <==> o in out
    decreases |out|
  {
    if out != [] {
      InAtPath(out[1..], o);
      assert out == [out[0]] + out[1..];
    }
  }

  lemma {:induction false} InFieldOuts(x: Row, y: Row, fs: seq<Field>, o: Out)
    requires x.xattrs.Ok? && y.xattrs.Ok?
    ensures o in FieldOuts(x, y, fs) <==>
              exists f :: f in fs && Column(x, f) != Column(y, f) && o == Out(x.path, Differs(f), Column(x, f), Column(y, f))
    decreases |fs|
  {
    if fs != [] {
      InFieldOuts(x, y, fs[1..], o);
      assert fs == [fs[0]] + fs[1..];
    }
  }

  lemma ShowsNormal(c: Cell, v: map<string, string>)
    ensures Shows(c, v) <==> c == Normal(Normalize(v))
  {
    if Shows(c, v) {
      assert forall k :: k in c.norm.empty <==> k in KeyOrder(EmptyNames(v));
      SortedUnique(c.norm.empty, KeyOrder(EmptyNames(v)));
    }
  }

  lemma ColumnIs(x: Row, y: Row, f: Field, o: Out)
    requires x.xattrs.Ok? && y.xattrs.Ok?
    ensures FieldLine(o, x, y) && o.what.field == f <==>
              (Column(x, f) != Column(y, f) && o == Out(x.path, Differs(f), Column(x, f), Column(y, f)))
  {
    if f == Xattrs {
      NormalizeInjective(x.xattrs.values, y.xattrs.values);
      ShowsNormal(o.before, x.xattrs.values);
      ShowsNormal(o.after, y.xattrs.values);
    }
    hide Shows, Normalize;
  }

  lemma FieldOutsAre(x: Row, y: Row, o: Out)
    requires x.xattrs.Ok? && y.xattrs.Ok?
    ensures o in FieldOuts(x, y, FIELDS) <==> FieldLine(o, x, y)
  {
    hide FieldOuts, Column, FieldLine, FIELDS;
    InFieldOuts(x, y, FIELDS, o);
    if o.what.Differs? {
      ColumnIs(x, y, o.what.field, o);
      ColumnTells(x, y, o.what.field);
    } else {
      NotField(o, x, y);
    }
  }

  lemma NotField(o: Out, x: Row, y: Row)
    requires !o.what.Differs?
    ensures !FieldLine(o, x, y)
  {
  }

  /** The row of a path in a sorted list is its only one. */
  lemma FindIs(rows: seq<Row>, r: Row)
    requires SortedRows(rows)
    ensures Find(rows, r.path) == Some(r) <==> r in rows
    ensures Find(rows, r.path).None? <==> Lacks(rows, r.path)
  {
    FindIn(rows, r.path);
    if r in rows {
      var i, j :| 0 <= i < |rows| && 0 <= j < |rows| && rows[i] == r && rows[j] == Find(rows, r.path).value;
      LessTotal(r.path, r.path);
    }
  }

  lemma MissingDue(a: seq<Row>, b: seq<Row>, o: Out)
    requires SortedRows(a) && SortedRows(b)
    ensures MissingLine(o, a, b) <==>
              (Find(a, o.path).Some? && Find(b, o.path).None?
               && o in [Out(o.path, Missing, Whole(Find(a, o.path).value), Null),
                        Out(o.path, AclMissing, Text(Find(a, o.path).value.acl), Null)])
  {
    hide Find, SortedRows;
    FindInHidden(a, o.path);
    if Find(a, o.path).Some? { var r := Find(a, o.path).value; FindIs(a, r); FindIs(b, r); }
    if MissingLine(o, a, b) {
      var r :| r in a && Lacks(b, r.path) &&
        (o == Out(r.path, Missing, Whole(r), Null) || o == Out(r.path, AclMissing, Text(r.acl), Null));
      FindIs(a, r);
      FindIs(b, r);
    }
  }

  lemma FindInHidden(rows: seq<Row>, path: string)
    ensures Find(rows, path).Some? ==> Find(rows, path).value in rows && Find(rows, path).value.path == path
  {
    FindIn(rows, path);
  }

  lemma AddedDue(a: seq<Row>, b: seq<Row>, o: Out)
    requires SortedRows(a) && SortedRows(b)
    ensures AddedLine(o, a, b) <==>
              (Find(a, o.path).None? && Find(b, o.path).Some?
               && o in [Out(o.path, Added, Null, Whole(Find(b, o.path).value)),
                        Out(o.path, AclAdded, Null, Text(Find(b, o.path).value.acl))])
  {
    hide Find, SortedRows;
    FindInHidden(b, o.path);
    if Find(b, o.path).Some? { var r := Find(b, o.path).value; FindIs(a, r); FindIs(b, r); }
    if AddedLine(o, a, b) {
      var r :| r in b && Lacks(a, r.path) &&
        (o == Out(r.path, Added, Null, Whole(r)) || o == Out(r.path, AclAdded, Null, Text(r.acl)));
      FindIs(a, r);
      FindIs(b, r);
    }
  }

  lemma DiffersDue(a: seq<Row>, b: seq<Row>, o: Out)
    requires SortedRows(a) && SortedRows(b)
    ensures DiffersLine(o, a, b) <==>
              (Find(a, o.path).Some? && Find(b, o.path).Some? && FieldLine(o, Find(a, o.path).value, Find(b, o.path).value))
  {
    hide Find, SortedRows;
    FindInHidden(a, o.path);
    FindInHidden(b, o.path);
    if DiffersLine(o, a, b) {
      var x, y :| x in a && y in b && x.path == y.path && FieldLine(o, x, y);
      FindIs(a, x);
      FindIs(b, y);
      PathOfLine(o, x, y);
    }
  }

  lemma PathOfLine(o: Out, x: Row, y: Row)
    requires FieldLine(o, x, y)
    ensures o.path == x.path
  {
  }

  /** The comparison writes a line if and only if it is due: the two lines of a row that only one side
      has, with the row on its own side; or the line of a field that differs between the two rows of a
      path, with the value before and the value after. */
  lemma LinesExact(a: seq<Row>, b: seq<Row>, o: Out)
    requires SortedRows(a) && SortedRows(b) && Merge(a, b).Some?
    ensures o in Merge(a, b).value.out <==> MissingLine(o, a, b) || AddedLine(o, a, b) || DiffersLine(o, a, b)
  {
    hide Merge, FieldOuts, Find, FieldLine, MissingLine, AddedLine, DiffersLine, AtPath, SortedRows;
    var p := o.path;
    MergeIsExact(a, b, p);
    InAtPath(Merge(a, b).value.out, o);
    MissingDue(a, b, o);
    AddedDue(a, b, o);
    DiffersDue(a, b, o);
    MergeRejects(a, b);
    FindInHidden(a, p);
    FindInHidden(b, p);
    if Find(a, p).Some? && Find(b, p).Some? {
      assert !Clash(a, b, p);
      FieldOutsAre(Find(a, p).value, Find(b, p).value, o);
    }
  }

  // ---------- their order ----------

  /** A row that only one side has gives two lines, the row first. */
  lemma LinesOfOneSide(a: seq<Row>, b: seq<Row>, r: Row)
    requires SortedRows(a) && SortedRows(b) && Merge(a, b).Some?
    ensures r in a && Lacks(b, r.path) ==>
              (AtPath(Merge(a, b).value.out, r.path)
               == [Out(r.path, Missing, Whole(r), Null), Out(r.path, AclMissing, Text(r.acl), Null)])
    ensures r in b && Lacks(a, r.path) ==>
              (AtPath(Merge(a, b).value.out, r.path)
               == [Out(r.path, Added, Null, Whole(r)), Out(r.path, AclAdded, Null, Text(r.acl))])
  {
    hide Merge, Find, AtPath, SortedRows;
    MergeIsExact(a, b, r.path);
    FindIs(a, r);
    FindIs(b, r);
  }

  function Place(f: Field): nat {
    match f
    case Kind => 0 case Sha256 => 1 case Target => 2 case Uid => 3 case Gid => 4
    case Mode => 5 case Flags => 6 case Xattrs => 7 case Acl => 8
  }

  predicate Placed(fs: seq<Field>) { forall i, j :: 0 <= i < j < |fs| ==> Place(fs[i]) < Place(fs[j]) }

  predicate FieldsAscend(out: seq<Out>) {
    && (forall o <- out :: o.what.Differs?)
    && forall i, j :: 0 <= i < j < |out| ==> Place(out[i].what.field) < Place(out[j].what.field)
  }

  lemma {:induction false} FieldOutsAscend(x: Row, y: Row, fs: seq<Field>)
    requires x.xattrs.Ok? && y.xattrs.Ok? && Placed(fs)
    ensures FieldsAscend(FieldOuts(x, y, fs))
    ensures forall o <- FieldOuts(x, y, fs) :: o.what.field in fs
    decreases |fs|
  {
    if fs != [] {
      FieldOutsAscend(x, y, fs[1..]);
      assert fs == [fs[0]] + fs[1..];
      assert forall f <- fs[1..] :: Place(fs[0]) < Place(f);
    }
  }

  /** The lines of a path that both sides have come in the order of the fields, each field at most once. */
  lemma LinesOfBothSides(a: seq<Row>, b: seq<Row>, x: Row, y: Row)
    requires SortedRows(a) && SortedRows(b) && Merge(a, b).Some? && x in a && y in b && x.path == y.path
    ensures FieldsAscend(AtPath(Merge(a, b).value.out, x.path))
  {
    hide Merge, Find, AtPath, SortedRows, FieldOuts;
    MergeIsExact(a, b, x.path);
    FindIs(a, x);
    FindIs(b, y);
    if x.xattrs.Ok? && y.xattrs.Ok? { FieldOutsAscend(x, y, FIELDS); }
  }

  // ---------- classified attributes ----------

  function ValueOf(v: map<string, string>, name: string): Option<string> { if name in v then Some(v[name]) else None }

  lemma {:induction false} InClassRows(path: string, v: map<string, string>, w: map<string, string>, names: seq<string>, c: Class)
    ensures c in ClassRows(path, v, w, names) <==>
              c.name in names && ValueOf(v, c.name) != ValueOf(w, c.name)
              && c == Class(path, c.name, RealXattrDifference, ValueOf(v, c.name), ValueOf(w, c.name))
    decreases |names|
  {
    if names != [] {
      InClassRows(path, v, w, names[1..], c);
      assert names == [names[0]] + names[1..];
    }
  }

  /** One path: an attribute is classified if and only if its values differ, with both of them. */
  lemma ClassesAre(x: Row, y: Row, c: Class)
    requires x.xattrs.Ok? && y.xattrs.Ok?
    ensures c in Classes(x, y) <==>
              ValueOf(x.xattrs.values, c.name) != ValueOf(y.xattrs.values, c.name)
              && c == Class(x.path, c.name, RealXattrDifference,
                            ValueOf(x.xattrs.values, c.name), ValueOf(y.xattrs.values, c.name))
  {
    var v, w := x.xattrs.values, y.xattrs.values;
    InClassRows(x.path, v, w, KeyOrder(v.Keys + w.Keys), c);
  }

  ghost predicate ClassLine(c: Class, a: seq<Row>, b: seq<Row>) {
    exists x, y :: x in a && y in b && x.path == y.path && x.xattrs.Ok? && y.xattrs.Ok? && c in Classes(x, y)
  }

  /** All paths: the classified attributes are those of the paths that both sides have. */
  lemma {:induction false} ClassLinesExact(a: seq<Row>, b: seq<Row>, c: Class)
    requires SortedRows(a) && SortedRows(b) && Merge(a, b).Some?
    ensures c in Merge(a, b).value.classes <==> ClassLine(c, a, b)
    decreases |a| + |b|
  {
    hide FieldOuts, Classes, Less;
    if a == [] && b == [] {
    } else if b == [] || (a != [] && Less(a[0].path, b[0].path)) {
      LacksAbove(b, a[0].path);
      TailSorted(a);
      ClassLinesExact(a[1..], b, c);
      assert forall x :: x in a <==> x == a[0] || x in a[1..];
    } else if a == [] || Less(b[0].path, a[0].path) {
      LacksAbove(a, b[0].path);
      TailSorted(b);
      ClassLinesExact(a, b[1..], c);
      assert forall y :: y in b <==> y == b[0] || y in b[1..];
    } else {
      LessTotal(a[0].path, b[0].path);
      LacksTail(a);
      LacksTail(b);
      TailSorted(a);
      TailSorted(b);
      ClassLinesExact(a[1..], b[1..], c);
      assert forall x :: x in a <==> x == a[0] || x in a[1..];
      assert forall y :: y in b <==> y == b[0] || y in b[1..];
    }
  }

  lemma LacksAbove(rows: seq<Row>, p: string)
    requires SortedRows(rows) && (rows != [] ==> Less(p, rows[0].path))
    ensures Lacks(rows, p)
  {
    FindAbove(rows, p);
    FindIn(rows, p);
  }

  lemma LacksTail(rows: seq<Row>)
    requires SortedRows(rows) && rows != []
    ensures Lacks(rows[1..], rows[0].path)
  {
    TailSorted(rows);
    FindIn(rows[1..], rows[0].path);
  }

  // ---------- counters ----------

  predicate AclLine(o: Out) { o.what == AclMissing || o.what == AclAdded || o.what == Differs(Acl) }

  /** `acl_differences` counts the lines about an ACL, one by one. */
  lemma {:induction false} AclCounted(out: seq<Out>)
    ensures CountAcl(out) == |set i | 0 <= i < |out| && AclLine(out[i])|
    decreases |out|
  {
    if out != [] {
      var n := |out| - 1;
      var front := out[..n];
      AclCounted(front);
      var s, t := set i | 0 <= i < |front| && AclLine(front[i]), set i | 0 <= i < |out| && AclLine(out[i]);
      assert forall i :: 0 <= i < n ==> front[i] == out[i];
      assert t == if AclLine(out[n]) then s + {n} else s;
      assert n !in s;
    }
  }
}
