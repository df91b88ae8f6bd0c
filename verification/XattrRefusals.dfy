/** Listings that the attribute parser refuses. */
module XattrRefusals {
  import opened Wrappers
  import opened Xattrs
  import opened XattrListing

  /** A header is refused inside a value, for an unknown path, or for an attribute that was seen. */
  lemma HeaderRefused(s: State, a: Attr, more: seq<string>, paths: map<string, string>)
    requires Printable(a)
    requires !s.ended || a.path !in paths || Has(s.rows, paths[a.path], a.name)
    ensures Run(s, [HeaderText(a)] + more, paths) == None
  {
    hide Classify, HeaderText;
    ReadsHeader(a);
    assert ([HeaderText(a)] + more)[1..] == more;
  }

  // ---------- repeated attributes ----------

  lemma HasStored(rows: Rows, key: string, name: string, value: seq<Byte>, k: string, n: string)
    ensures Has(Stored(rows, key, name, value), k, n) <==> Has(rows, k, n) || (k == key && n == name)
  {
  }

  /** Another attribute than `a`. */
  predicate Other(a: Attr, b: Attr, paths: map<string, string>)
    requires a.path in paths && b.path in paths
  {
    a.name != b.name || paths[a.path] != paths[b.path]
  }

  lemma DistinctHead(a: Attr, rest: seq<Attr>, paths: map<string, string>)
    requires Known([a] + rest, paths) && Known(rest, paths) && a.path in paths
    ensures Distinct([a] + rest, paths) <==> Distinct(rest, paths) && forall b <- rest :: Other(a, b, paths)
  {
    hide Printable;
    var all := [a] + rest;
    assert forall i :: 0 <= i < |rest| ==> all[i + 1] == rest[i];
    assert forall i :: 0 < i < |all| ==> all[i] == rest[i - 1];
    if Distinct(all, paths) {
      forall b <- rest ensures Other(a, b, paths) {
        var i :| 0 <= i < |rest| && rest[i] == b;
        assert all[0] == a && all[i + 1] == b;
      }
      forall i, j | 0 <= i < j < |rest|
        ensures rest[i].name != rest[j].name || paths[rest[i].path] != paths[rest[j].path]
      {
        assert all[i + 1] == rest[i] && all[j + 1] == rest[j];
      }
    }
    if Distinct(rest, paths) && forall b <- rest :: Other(a, b, paths) {
      forall i, j | 0 <= i < j < |all|
        ensures all[i].name != all[j].name || paths[all[i].path] != paths[all[j].path]
      {
        assert all[j] == rest[j - 1] && rest[j - 1] in rest;
        if i == 0 { assert Other(a, rest[j - 1], paths); } else { assert all[i] == rest[i - 1]; }
      }
    }
  }

  lemma ClearHead(rows: Rows, a: Attr, rest: seq<Attr>, paths: map<string, string>)
    requires Known([a] + rest, paths) && Known(rest, paths) && a.path in paths && !Has(rows, paths[a.path], a.name)
    ensures Clear(rows, [a] + rest, paths) <==> Clear(rows, rest, paths)
    ensures Clear(Stored(rows, paths[a.path], a.name, a.value), rest, paths)
            <==> Clear(rows, rest, paths) && forall b <- rest :: Other(a, b, paths)
  {
    hide Has, Stored, Printable;
    assert forall b :: b in [a] + rest <==> b == a || b in rest;
    forall k, n
      ensures Has(Stored(rows, paths[a.path], a.name, a.value), k, n) <==> Has(rows, k, n) || (k == paths[a.path] && n == a.name)
    {
      HasStored(rows, paths[a.path], a.name, a.value, k, n);
    }
  }

  lemma ClearStored(s: State, a: Attr, rest: seq<Attr>, paths: map<string, string>)
    requires Known([a] + rest, paths) && Known(rest, paths) && a.path in paths
    requires !Has(s.rows, paths[a.path], a.name)
    ensures Clear(Stored(s.rows, paths[a.path], a.name, a.value), rest, paths) && Distinct(rest, paths)
            <==> Clear(s.rows, [a] + rest, paths) && Distinct([a] + rest, paths)
  {
    hide Has, Stored, Clear, Distinct, Printable;
    DistinctHead(a, rest, paths);
    ClearHead(s.rows, a, rest, paths);
  }

  lemma {:induction false} PrintReadsExactly(s: State, attrs: seq<Attr>, paths: map<string, string>)
    requires s.ended && Known(attrs, paths)
    ensures Run(s, Print(attrs), paths).Some? <==> Clear(s.rows, attrs, paths) && Distinct(attrs, paths)
    ensures Run(s, Print(attrs), paths).Some? ==> Run(s, Print(attrs), paths).value.ended
    decreases |attrs|
  {
    hide DataRows, Printable, Classify, Step, Run;
    if attrs == [] {
      NothingRead(s, paths);
    } else {
      var a, rest := attrs[0], attrs[1..];
      assert attrs == [a] + rest && a in attrs;
      if Has(s.rows, paths[a.path], a.name) {
        assert Print(attrs) == [HeaderText(a)] + (DataRows(a.value) + [Hex(|a.value|, 8)] + Print(rest));
        HeaderRefused(s, a, DataRows(a.value) + [Hex(|a.value|, 8)] + Print(rest), paths);
      } else {
        RunConcat(s, Block(a, DataRows(a.value)), Print(rest), paths);
        BlockReads(s, a, DataRows(a.value), paths);
        var t := Run(s, Block(a, DataRows(a.value)), paths).value;
        PrintReadsExactly(t, rest, paths);
        ClearStored(s, a, rest, paths);
      }
    }
  }

  lemma NothingRead(s: State, paths: map<string, string>)
    ensures Run(s, [], paths) == Some(s)
  {
  }

  /** A printed listing of known paths is accepted exactly when no attribute is listed twice. */
  lemma ParsePrintExactly(attrs: seq<Attr>, paths: map<string, string>)
    requires Known(attrs, paths)
    ensures Parse(Print(attrs), paths).Some? <==>
              forall i, j :: 0 <= i < j < |attrs| ==>
                attrs[i].name != attrs[j].name || paths[attrs[i].path] != paths[attrs[j].path]
  {
    PrintReadsExactly(Xattrs.START, attrs, paths);
  }

  // ---------- missing length lines ----------

  lemma {:induction false} RowsLeaveOpen(rows: Rows, c: Current, v: seq<Byte>, k: nat, paths: map<string, string>)
    requires k <= RowCount(v)
    ensures Run(Open(rows, c, v, 0), DataRows(v)[..k], paths) == Some(Open(rows, c, v, k))
    decreases k
  {
    hide Classify, RowLine, Step, Upto;
    if k == 0 {
      assert DataRows(v)[..0] == [];
    } else {
      RowsLeaveOpen(rows, c, v, k - 1, paths);
      var q := DataRows(v)[k - 1];
      assert DataRows(v)[..k] == DataRows(v)[..k - 1] + [q];
      RunConcat(Open(rows, c, v, 0), DataRows(v)[..k - 1], [q], paths);
      RowStep(rows, c, v, k - 1, q, paths);
      assert [q][1..] == [];
    }
  }

  lemma OpenHeader(s: State, a: Attr, k: nat, paths: map<string, string>)
    requires s.ended && Printable(a) && a.path in paths && !Has(s.rows, paths[a.path], a.name) && k <= RowCount(a.value)
    ensures var r := Run(s, [HeaderText(a)] + DataRows(a.value)[..k], paths);
      r.Some? && !r.value.ended
  {
    assert |DataRows(a.value)| == RowCount(a.value);
    hide Classify, HeaderText, DataRows;
    var c := Current(paths[a.path], a.name);
    ReadsHeader(a);
    assert ([HeaderText(a)] + DataRows(a.value)[..k])[1..] == DataRows(a.value)[..k];
    assert Upto(a.value, 0) == [];
    RowsLeaveOpen(s.rows, c, a.value, k, paths);
  }

  /** A value without its length line is refused, whatever listing stands before it and whether the listing
      ends there or another header follows. */
  lemma UnterminatedRefused(before: seq<Attr>, a: Attr, k: nat, after: seq<Attr>, paths: map<string, string>)
    requires Known(before, paths) && Printable(a) && a.path in paths && Known(after, paths) && k <= RowCount(a.value)
    ensures Parse(Print(before) + ([HeaderText(a)] + DataRows(a.value)[..k]) + Print(after), paths) == None
  {
    assert |DataRows(a.value)| == RowCount(a.value);
    hide Classify, HeaderText, DataRows, Hex, Step, Block, Run;
    var x, y, z := Print(before), [HeaderText(a)] + DataRows(a.value)[..k], Print(after);
    RunConcat(Xattrs.START, x, y, paths);
    RunConcat(Xattrs.START, x + y, z, paths);
    PrintReadsExactly(Xattrs.START, before, paths);
    if Run(Xattrs.START, x, paths).Some? {
      var s := Run(Xattrs.START, x, paths).value;
      if Has(s.rows, paths[a.path], a.name) {
        HeaderRefused(s, a, DataRows(a.value)[..k], paths);
      } else {
        OpenHeader(s, a, k, paths);
        var t := Run(s, y, paths).value;
        if after == [] {
          NothingRead(t, paths);
        } else {
          NextHeader(after);
          var more :| z == [HeaderText(after[0])] + more;
          assert after[0] in after;
          HeaderRefused(t, after[0], more, paths);
        }
      }
    }
  }

  lemma NextHeader(attrs: seq<Attr>)
    requires attrs != []
    ensures exists more :: Print(attrs) == [HeaderText(attrs[0])] + more
  {
    hide HeaderText, DataRows, Hex;
    var a := attrs[0];
    assert Print(attrs) == [HeaderText(a)] + (DataRows(a.value) + [Hex(|a.value|, 8)] + Print(attrs[1..]));
  }

  // ---------- unknown paths ----------

  /** An attribute of a path that is not known is refused. */
  lemma UnknownPathRefused(before: seq<Attr>, a: Attr, more: seq<string>, paths: map<string, string>)
    requires Printable(a) && a.path !in paths
    ensures Parse(Print(before) + ([HeaderText(a)] + more), paths) == None
  {
    hide Classify, HeaderText, DataRows, Hex, Step, Block, Run;
    var x, y := Print(before), [HeaderText(a)] + more;
    RunConcat(Xattrs.START, x, y, paths);
    if Run(Xattrs.START, x, paths).Some? {
      HeaderRefused(Run(Xattrs.START, x, paths).value, a, more, paths);
    }
  }

  // ---------- malformed rows ----------

  /** A row of more than sixteen octets is refused, whatever its offset and text column. */
  lemma RowTooLong(offset: nat, bs: seq<Byte>, pad: nat, text: string)
    requires |bs| > 16 && pad >= 1
    ensures Classify(RowText(offset, bs, pad, text)) == Bad
  {
    hide ColumnStart, Words, HexRun, AllHex, RowLike, Joined, Hex, HexValue, Spaces, LastSeparator;
    var h := Hex(offset, 8);
    var rest := Joined(bs) + Spaces(pad) + "|" + text + "|";
    HexReads(offset, 8);
    assert RowText(offset, bs, pad, text) == h + "  " + rest;
    OffsetReads(h, rest);
    RestReads(bs, pad, text);
  }
}
