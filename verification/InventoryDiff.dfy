/** The streaming comparison of two exported inventories. */
module InventoryDiff {
  import opened Wrappers
  import opened Order
  import opened Inventory
  import opened Hardlinks

  datatype Cell =
    | Null
    | Text(text: string)
    | Normal(norm: Norm)
    | Whole(row: Row)
    | Group(digest: string)

  datatype What =
    | Missing | AclMissing | Added | AclAdded
    | Differs(field: Field)
    | GroupMissing | GroupAdded

  /** One line of the artifact. */
  datatype Out = Out(path: string, what: What, before: Cell, after: Cell)

  datatype Classification = DittoEmptyValueOmission | RealXattrDifference

  /** One line of the attribute classification. */
  datatype Class = Class(path: string, name: string, classification: Classification,
                         before: Option<string>, after: Option<string>)

  // ---------- one path ----------

  ghost function Column(r: Row, f: Field): Cell
    requires r.xattrs.Ok?
  {
    match f
    case Xattrs => Normal(Normalize(r.xattrs.values))
    case Acl => Text(r.acl)
    case _ => if f in r.plain then Text(r.plain[f]) else Null
  }

  ghost function FieldOuts(x: Row, y: Row, fs: seq<Field>): seq<Out>
    requires x.xattrs.Ok? && y.xattrs.Ok?
    decreases |fs|
  {
    if fs == [] then []
    else
      (if Column(x, fs[0]) != Column(y, fs[0])
       then [Out(x.path, Differs(fs[0]), Column(x, fs[0]), Column(y, fs[0]))] else [])
      + FieldOuts(x, y, fs[1..])
  }

  function Get(v: map<string, string>, k: string): Option<string> { if k in v then Some(v[k]) else None }

  function ClassRows(path: string, v: map<string, string>, w: map<string, string>, names: seq<string>): seq<Class>
    decreases |names|
  {
    if names == [] then []
    else
      (if Get(v, names[0]) != Get(w, names[0])
       then [Class(path, names[0], RealXattrDifference, Get(v, names[0]), Get(w, names[0]))] else [])
      + ClassRows(path, v, w, names[1..])
  }

  ghost function Classes(x: Row, y: Row): seq<Class>
    requires x.xattrs.Ok? && y.xattrs.Ok?
  {
    var v, w := x.xattrs.values, y.xattrs.values;
    ClassRows(x.path, v, w, KeyOrder(v.Keys + w.Keys))
  }

  function Lost(x: Row): seq<Out> {
    [Out(x.path, Missing, Whole(x), Null), Out(x.path, AclMissing, Text(x.acl), Null)]
  }

  function Gained(y: Row): seq<Out> {
    [Out(y.path, Added, Null, Whole(y)), Out(y.path, AclAdded, Null, Text(y.acl))]
  }

  // ---------- the merge ----------

  /** What the merge adds to the artifacts and to the number of changed paths. */
  datatype Merged = Merged(out: seq<Out>, classes: seq<Class>, changed: nat)

  function Before(out: seq<Out>, classes: seq<Class>, rest: Option<Merged>): Option<Merged> {
    match rest
    case None => None
    case Some(m) =>
      Some(Merged(out + m.out, classes + m.classes, (if out != [] then 1 else 0) + m.changed))
  }

  /** None: attributes that were not read as OK cannot be compared. */
  ghost function Merge(a: seq<Row>, b: seq<Row>): Option<Merged>
    decreases |a| + |b|
  {
    if a == [] && b == [] then Some(Merged([], [], 0))
    else if b == [] || (a != [] && Less(a[0].path, b[0].path)) then Before(Lost(a[0]), [], Merge(a[1..], b))
    else if a == [] || Less(b[0].path, a[0].path) then Before(Gained(b[0]), [], Merge(a, b[1..]))
    else if !a[0].xattrs.Ok? || !b[0].xattrs.Ok? then None
    else Before(FieldOuts(a[0], b[0], FIELDS), Classes(a[0], b[0]), Merge(a[1..], b[1..]))
  }

  /** Sorted group digests, merged the same way. */
  function Groups(a: seq<string>, b: seq<string>): seq<Out>
    decreases |a| + |b|
  {
    if a == [] && b == [] then []
    else if a != [] && b != [] && a[0] == b[0] then Groups(a[1..], b[1..])
    else if b == [] || (a != [] && Less(a[0], b[0])) then
      [Out(".", GroupMissing, Group(a[0]), Null)] + Groups(a[1..], b)
    else [Out(".", GroupAdded, Null, Group(b[0]))] + Groups(a, b[1..])
  }

  predicate AboutAcl(o: Out) { o.what in {AclMissing, AclAdded, Differs(Acl)} }

  function CountAcl(out: seq<Out>): nat
    decreases |out|
  {
    if out == [] then 0 else CountAcl(out[..|out| - 1]) + (if AboutAcl(out[|out| - 1]) then 1 else 0)
  }

  /** What is written so far, and what one path adds to it. */
  function After(m: Merged, out: seq<Out>, classes: seq<Class>): Merged {
    Merged(m.out + out, m.classes + classes, m.changed + if out != [] then 1 else 0)
  }

  function Plus(m: Merged, rest: Option<Merged>): Option<Merged> {
    match rest
    case None => None
    case Some(r) => Some(Merged(m.out + r.out, m.classes + r.classes, m.changed + r.changed))
  }

  lemma PlusBefore(m: Merged, out: seq<Out>, classes: seq<Class>, rest: Option<Merged>)
    ensures Plus(m, Before(out, classes, rest)) == Plus(After(m, out, classes), rest)
  {
    if rest.Some? {
      assert m.out + (out + rest.value.out) == (m.out + out) + rest.value.out;
      assert m.classes + (classes + rest.value.classes) == (m.classes + classes) + rest.value.classes;
    }
  }

  function CountClasses(classes: seq<Class>, c: Classification): nat
    decreases |classes|
  {
    if classes == [] then 0
    else CountClasses(classes[..|classes| - 1], c) + (if classes[|classes| - 1].classification == c then 1 else 0)
  }

  /** One turn of the merge, at positions in the two lists. */
  lemma MergeHead(a: seq<Row>, b: seq<Row>, i: nat, j: nat)
    requires i <= |a| && j <= |b| && (i < |a| || j < |b|)
    ensures Merge(a[i..], b[j..]) ==
      if j == |b| || (i < |a| && Less(a[i].path, b[j].path)) then Before(Lost(a[i]), [], Merge(a[i + 1..], b[j..]))
      else if i == |a| || Less(b[j].path, a[i].path) then Before(Gained(b[j]), [], Merge(a[i..], b[j + 1..]))
      else if !a[i].xattrs.Ok? || !b[j].xattrs.Ok? then None
      else Before(FieldOuts(a[i], b[j], FIELDS), Classes(a[i], b[j]), Merge(a[i + 1..], b[j + 1..]))
  {
    hide FieldOuts, Classes, Less, Before;
    assert i < |a| ==> a[i..][0] == a[i] && a[i..][1..] == a[i + 1..];
    assert j < |b| ==> b[j..][0] == b[j] && b[j..][1..] == b[j + 1..];
  }

  lemma GroupsHead(a: seq<string>, b: seq<string>, i: nat, j: nat)
    requires i <= |a| && j <= |b| && (i < |a| || j < |b|)
    ensures Groups(a[i..], b[j..]) ==
      if i < |a| && j < |b| && a[i] == b[j] then Groups(a[i + 1..], b[j + 1..])
      else if j == |b| || (i < |a| && Less(a[i], b[j])) then
        [Out(".", GroupMissing, Group(a[i]), Null)] + Groups(a[i + 1..], b[j..])
      else [Out(".", GroupAdded, Null, Group(b[j]))] + Groups(a[i..], b[j + 1..])
  {
    hide Less;
    assert i < |a| ==> a[i..][0] == a[i] && a[i..][1..] == a[i + 1..];
    assert j < |b| ==> b[j..][0] == b[j] && b[j..][1..] == b[j + 1..];
  }

  lemma GroupsNone()
    ensures Groups([], []) == []
  {
  }

  lemma MergeNone()
    ensures Merge([], []) == Some(Merged([], [], 0))
  {
  }

  // ---------- the loop ----------

  /** The open artifacts and the counters of `diff`. */
  class Comparison {
    var out: seq<Out>
    var classes: seq<Class>
    var diffFields: nat
    var diffPaths: nat
    var aclDifferences: nat
    var hardlinkDifferences: nat
    var realXattrDifferences: nat
    var knownDittoOmissions: nat

    predicate Valid()
      reads this
    {
      && diffFields == |out| && aclDifferences == CountAcl(out)
      && knownDittoOmissions == CountClasses(classes, DittoEmptyValueOmission)
      && realXattrDifferences == CountClasses(classes, RealXattrDifference)
    }

    constructor ()
      ensures Valid() && out == [] && classes == [] && diffPaths == hardlinkDifferences == 0
    {
      out, classes := [], [];
      diffFields, diffPaths, aclDifferences, hardlinkDifferences := 0, 0, 0, 0;
      knownDittoOmissions, realXattrDifferences := 0, 0;
    }

    method Emit(o: Out)
      requires Valid()
      modifies this`out, this`diffFields, this`aclDifferences
      ensures Valid() && out == old(out) + [o]
    {
      assert (out + [o])[..|out + [o]| - 1] == out;
      out, diffFields := out + [o], diffFields + 1;
      if AboutAcl(o) { aclDifferences := aclDifferences + 1; }
    }

    /** One classified attribute: a line, and one of two counters. */
    method WriteClass(row: Class)
      requires Valid()
      modifies this`classes, this`knownDittoOmissions, this`realXattrDifferences
      ensures Valid() && classes == old(classes) + [row]
    {
      assert (classes + [row])[..|classes + [row]| - 1] == classes;
      classes := classes + [row];
      if row.classification == DittoEmptyValueOmission {
        knownDittoOmissions := knownDittoOmissions + 1;
      } else {
        realXattrDifferences := realXattrDifferences + 1;
      }
    }

    method ClassifyNames(path: string, v: map<string, string>, w: map<string, string>, names: seq<string>)
      requires Valid()
      modifies this`classes, this`knownDittoOmissions, this`realXattrDifferences
      ensures Valid() && classes == old(classes) + ClassRows(path, v, w, names)
    {
      var n := 0;
      assert names[0..] == names;
      while n < |names|
        invariant 0 <= n <= |names|
        invariant Valid()
        invariant classes + ClassRows(path, v, w, names[n..]) == old(classes) + ClassRows(path, v, w, names)
      {
        ghost var rest := ClassRows(path, v, w, names[n + 1..]);
        assert names[n..][1..] == names[n + 1..];
        if Get(v, names[n]) != Get(w, names[n]) {
          var row := Class(path, names[n], RealXattrDifference, Get(v, names[n]), Get(w, names[n]));
          assert classes + ([row] + rest) == (classes + [row]) + rest;
          WriteClass(row);
        } else {
          assert [] + rest == rest;
        }
        n := n + 1;
      }
    }

    method Cells(x: Row, y: Row, f: Field) returns (c: Cell, d: Cell)
      requires x.xattrs.Ok? && y.xattrs.Ok?
      ensures c == Column(x, f) && d == Column(y, f)
    {
      if f == Xattrs {
        var n := NormalizeXattrs(x.xattrs.values);
        var m := NormalizeXattrs(y.xattrs.values);
        return Normal(n), Normal(m);
      }
      if f == Acl { return Text(x.acl), Text(y.acl); }
      c := if f in x.plain then Text(x.plain[f]) else Null;
      d := if f in y.plain then Text(y.plain[f]) else Null;
    }

    /** The loop over the fields of a path present on both sides. */
    method Fields(x: Row, y: Row, fs: seq<Field>) returns (changed: bool)
      requires Valid() && x.xattrs.Ok? && y.xattrs.Ok?
      modifies this`out, this`diffFields, this`aclDifferences
      ensures Valid() && out == old(out) + FieldOuts(x, y, fs)
      ensures changed <==> FieldOuts(x, y, fs) != []
    {
      changed := false;
      var n := 0;
      assert fs[0..] == fs;
      while n < |fs|
        invariant 0 <= n <= |fs|
        invariant Valid()
        invariant out + FieldOuts(x, y, fs[n..]) == old(out) + FieldOuts(x, y, fs)
        invariant |old(out)| <= |out|
        invariant changed <==> |out| > |old(out)|
      {
        ghost var rest := FieldOuts(x, y, fs[n + 1..]);
        assert fs[n..][1..] == fs[n + 1..];
        var c, d := Cells(x, y, fs[n]);
        if c != d {
          assert out + ([Out(x.path, Differs(fs[n]), c, d)] + rest) == (out + [Out(x.path, Differs(fs[n]), c, d)]) + rest;
          Emit(Out(x.path, Differs(fs[n]), c, d));
          changed := true;
        } else {
          assert [] + rest == rest;
        }
        n := n + 1;
      }
    }

    function Now(): Merged
      reads this
    {
      Merged(out, classes, diffPaths)
    }

    method OnlyBefore(x: Row)
      requires Valid()
      modifies this
      ensures Valid() && hardlinkDifferences == old(hardlinkDifferences)
      ensures Now() == After(old(Now()), Lost(x), [])
    {
      Emit(Out(x.path, Missing, Whole(x), Null));
      Emit(Out(x.path, AclMissing, Text(x.acl), Null));
      diffPaths := diffPaths + 1;
    }

    method OnlyAfter(y: Row)
      requires Valid()
      modifies this
      ensures Valid() && hardlinkDifferences == old(hardlinkDifferences)
      ensures Now() == After(old(Now()), Gained(y), [])
    {
      Emit(Out(y.path, Added, Null, Whole(y)));
      Emit(Out(y.path, AclAdded, Null, Text(y.acl)));
      diffPaths := diffPaths + 1;
    }

    method OnBoth(x: Row, y: Row)
      requires Valid() && x.xattrs.Ok? && y.xattrs.Ok?
      modifies this
      ensures Valid() && hardlinkDifferences == old(hardlinkDifferences)
      ensures Now() == After(old(Now()), FieldOuts(x, y, FIELDS), Classes(x, y))
    {
      hide FieldOuts, ClassRows, CountAcl, Column;
      var v, w := x.xattrs.values, y.xattrs.values;
      var changed := Fields(x, y, FIELDS);
      var names := SortKeys(v.Keys + w.Keys);
      ClassifyNames(x.path, v, w, names);
      if changed { diffPaths := diffPaths + 1; }
    }

    /** The merge join; false when the comparison is rejected. */
    method MergeRows(a: seq<Row>, b: seq<Row>) returns (ok: bool)
      requires Valid()
      modifies this
      ensures Valid() && hardlinkDifferences == old(hardlinkDifferences)
      ensures ok <==> Merge(a, b).Some?
      ensures ok ==> Some(Now()) == Plus(old(Now()), Merge(a, b))
    {
      hide FieldOuts, Classes, Less, Merge, CountAcl, CountClasses;
      var i, j := 0, 0;
      assert a[0..] == a && b[0..] == b;
      while i < |a| || j < |b|
        invariant 0 <= i <= |a| && 0 <= j <= |b|
        invariant Valid() && hardlinkDifferences == old(hardlinkDifferences)
        invariant Plus(Now(), Merge(a[i..], b[j..])) == Plus(old(Now()), Merge(a, b))
        decreases |a| - i + |b| - j
      {
        ghost var was := Now();
        MergeHead(a, b, i, j);
        if j == |b| || (i < |a| && Less(a[i].path, b[j].path)) {
          OnlyBefore(a[i]);
          PlusBefore(was, Lost(a[i]), [], Merge(a[i + 1..], b[j..]));
          i := i + 1;
        } else if i == |a| || Less(b[j].path, a[i].path) {
          OnlyAfter(b[j]);
          PlusBefore(was, Gained(b[j]), [], Merge(a[i..], b[j + 1..]));
          j := j + 1;
        } else {
          if !a[i].xattrs.Ok? || !b[j].xattrs.Ok? { return false; }
          OnBoth(a[i], b[j]);
          PlusBefore(was, FieldOuts(a[i], b[j], FIELDS), Classes(a[i], b[j]), Merge(a[i + 1..], b[j + 1..]));
          i, j := i + 1, j + 1;
        }
      }
      MergeNone();
      assert a[i..] == [] && b[j..] == [];
      assert out + [] == out && classes + [] == classes;
      ok := true;
    }

    method MergeGroups(a: seq<string>, b: seq<string>)
      requires Valid()
      modifies this
      ensures Valid() && out == old(out) + Groups(a, b)
      ensures hardlinkDifferences == old(hardlinkDifferences) + |Groups(a, b)|
      ensures diffPaths == old(diffPaths) && classes == old(classes)
    {
      hide Groups, Less, CountAcl, CountClasses;
      var i, j := 0, 0;
      assert a[0..] == a && b[0..] == b;
      while i < |a| || j < |b|
        invariant 0 <= i <= |a| && 0 <= j <= |b|
        invariant Valid() && diffPaths == old(diffPaths) && classes == old(classes)
        invariant out + Groups(a[i..], b[j..]) == old(out) + Groups(a, b)
        invariant hardlinkDifferences + |Groups(a[i..], b[j..])| == old(hardlinkDifferences) + |Groups(a, b)|
        decreases |a| - i + |b| - j
      {
        GroupsHead(a, b, i, j);
        if i < |a| && j < |b| && a[i] == b[j] {
          i, j := i + 1, j + 1;
        } else {
          ghost var was := out;
          if j == |b| || (i < |a| && Less(a[i], b[j])) {
            Emit(Out(".", GroupMissing, Group(a[i]), Null));
            i := i + 1;
          } else {
            Emit(Out(".", GroupAdded, Null, Group(b[j])));
            j := j + 1;
          }
          hardlinkDifferences := hardlinkDifferences + 1;
          ghost var rest := Groups(a[i..], b[j..]);
          assert was + ([out[|was|]] + rest) == out + rest;
        }
      }
      GroupsNone();
      assert a[i..] == [] && b[j..] == [];
      assert out + [] == out;
    }

    /** `diff`: rows first, then hardlink groups.  None when the comparison is rejected, otherwise
        whether it passes. */
    method Compare(before: seq<seq<Row>>, after: seq<seq<Row>>, linksBefore: seq<string>, linksAfter: seq<string>,
                   h: string -> string)
      returns (pass: Option<bool>)
      requires Valid() && out == [] && classes == [] && diffPaths == hardlinkDifferences == 0
      modifies this
      ensures Valid()
      ensures pass.Some? ==> (pass.value <==> diffFields == 0)
      ensures pass.Some? ==> Merge(Concat(before), Concat(after)).Some?
                             && var m := Merge(Concat(before), Concat(after)).value;
                             && classes == m.classes && diffPaths == m.changed
                             && exists ga, gb ::
                                  IsTopology(Concat(linksBefore), h, ga) && IsTopology(Concat(linksAfter), h, gb)
                                  && out == m.out + Groups(ga, gb) && hardlinkDifferences == |Groups(ga, gb)|
      ensures pass.None? <==> (Merge(Concat(before), Concat(after)).None?
                               || !Readable(Concat(linksBefore), h) || !Readable(Concat(linksAfter), h))
    {
      var a := IterRows(before);
      var b := IterRows(after);
      var ok := MergeRows(a, b);
      if !ok { return None; }
      var ga := Topology(linksBefore, h);
      if ga.None? { return None; }
      var gb := Topology(linksAfter, h);
      if gb.None? { return None; }
      hide IsTopology, Readable;
      MergeGroups(ga.value, gb.value);
      assert IsTopology(Concat(linksBefore), h, ga.value) && IsTopology(Concat(linksAfter), h, gb.value);
      pass := Some(diffFields == 0);
    }
  }
}
