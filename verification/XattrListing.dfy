/** The canonical printer of attribute listings, and what the parser makes of its output. */
module XattrListing {
  import opened Wrappers
  import opened Xattrs

  datatype Attr = Attr(path: string, name: string, value: seq<Byte>)

  // ---------- the printer ----------

  function Lower(d: nat): char
    requires d < 16
  {
    "0123456789abcdef"[d]
  }

  /** At least w digits. */
  function Hex(n: nat, w: nat): string
    decreases n, w
  {
    if n == 0 && w == 0 then "" else Hex(n / 16, if w == 0 then 0 else w - 1) + [Lower(n % 16)]
  }

  function OctetText(b: Byte): string { [Lower(b / 16), Lower(b % 16)] }

  function Joined(bs: seq<Byte>): string {
    if bs == [] then "" else if |bs| == 1 then OctetText(bs[0]) else OctetText(bs[0]) + " " + Joined(bs[1..])
  }

  function Spaces(n: nat): string { seq(n, _ => ' ') }

  function Shown(bs: seq<Byte>): string {
    seq(|bs|, i requires 0 <= i < |bs| => if 32 <= bs[i] < 127 then bs[i] as char else '.')
  }

  function RowText(offset: nat, bs: seq<Byte>, pad: nat, text: string): string {
    Hex(offset, 8) + "  " + (Joined(bs) + Spaces(pad) + "|" + text + "|")
  }

  function Chunk(v: seq<Byte>, j: nat): seq<Byte>
    requires 16 * j < |v|
  {
    if 16 * j + 16 <= |v| then v[16 * j..16 * j + 16] else v[16 * j..]
  }

  function RowLine(v: seq<Byte>, j: nat): string
    requires 16 * j < |v|
  {
    RowText(16 * j, Chunk(v, j), 3 * (16 - |Chunk(v, j)|) + 2, Shown(Chunk(v, j)))
  }

  function RowCount(v: seq<Byte>): nat { (|v| + 15) / 16 }

  function DataRows(v: seq<Byte>): seq<string> {
    seq(RowCount(v), j requires 0 <= j < RowCount(v) => RowLine(v, j))
  }

  function HeaderText(a: Attr): string { a.path + ": " + a.name + ":" }

  /** One attribute with the given rows. */
  function Block(a: Attr, rows: seq<string>): seq<string> { [HeaderText(a)] + rows + [Hex(|a.value|, 8)] }

  function Print(attrs: seq<Attr>): seq<string>
    decreases |attrs|
  {
    if attrs == [] then [] else Block(attrs[0], DataRows(attrs[0].value)) + Print(attrs[1..])
  }

  // ---------- lines read back ----------

  lemma LowerHex(d: nat)
    requires d < 16
    ensures IsHex(Lower(d)) && HexDigit(Lower(d)) == d && !IsSpace(Lower(d)) && Lower(d) != ':'
  {
  }

  lemma {:induction false} HexReads(n: nat, w: nat)
    ensures AllHex(Hex(n, w)) && HexValue(Hex(n, w)) == n && |Hex(n, w)| >= w
    decreases n, w
  {
    if n > 0 || w > 0 {
      HexReads(n / 16, if w == 0 then 0 else w - 1);
      LowerHex(n % 16);
      var s := Hex(n, w);
      assert s[..|s| - 1] == Hex(n / 16, if w == 0 then 0 else w - 1);
    }
  }

  lemma {:induction false} HexRunOf(s: string, t: string)
    requires AllHex(s) && (t == "" || !IsHex(t[0]))
    ensures HexRun(s + t) == |s|
    decreases |s|
  {
    if s == "" {
      assert s + t == t;
    } else {
      assert (s + t)[1..] == s[1..] + t;
      HexRunOf(s[1..], t);
    }
  }

  lemma {:induction false} NoSeparator(s: string)
    requires ':' !in s
    ensures LastSeparator(s).None?
    decreases |s|
  {
    if s != "" { NoSeparator(s[1..]); }
  }

  lemma {:induction false} SeparatorAt(s: string, name: string)
    requires forall c <- name :: NameChar(c)
    ensures LastSeparator(s + ": " + name + ":") == Some(|s|)
    decreases |s|
  {
    var whole := s + ": " + name + ":";
    if s == "" {
      var rest := whole[1..];
      assert rest == " " + name + ":";
      NameHasNone(" " + name);
    } else {
      assert whole[1..] == s[1..] + ": " + name + ":";
      SeparatorAt(s[1..], name);
    }
  }

  /** A trailing colon with nothing behind it separates nothing. */
  lemma {:induction false} NameHasNone(s: string)
    requires ':' !in s
    ensures LastSeparator(s + ":").None?
    decreases |s|
  {
    var whole := s + ":";
    if s == "" {
      assert whole == ":" && whole[1..] == "";
    } else {
      assert whole[1..] == s[1..] + ":";
      NameHasNone(s[1..]);
    }
  }

  predicate Printable(a: Attr) {
    a.path != "" && a.path[0] == '/' && a.name != "" && forall c <- a.name :: NameChar(c)
  }

  lemma ReadsHeader(a: Attr)
    requires Printable(a)
    ensures Classify(HeaderText(a)) == Header(a.path, a.name)
  {
    var s := HeaderText(a);
    assert s == a.path + ": " + a.name + ":";
    SeparatorAt(a.path, a.name);
    assert s[0] == '/' && HexRun(s) == 0;
    var name := s[|a.path| + 2..];
    assert name == a.name + ":";
    assert name[..|name| - 1] == a.name;
    assert s[..|a.path|] == a.path;
  }

  lemma ReadsFinal(n: nat)
    ensures Classify(Hex(n, 8)) == Final(n)
  {
    HexReads(n, 8);
    NoSeparator(Hex(n, 8));
  }

  lemma {:induction false} SpaceRunOf(n: nat, t: string)
    requires t != "" && t[0] != ' '
    ensures SpaceRun(Spaces(n) + t) == n
    decreases n
  {
    if n == 0 {
      assert Spaces(n) + t == t;
    } else {
      assert (Spaces(n) + t)[1..] == Spaces(n - 1) + t;
      SpaceRunOf(n - 1, t);
    }
  }

  lemma ColumnHere(pad: nat, text: string)
    requires pad >= 1
    ensures ColumnStart(Spaces(pad) + "|" + text + "|") == Some(0)
  {
    var s := Spaces(pad) + "|" + text + "|";
    assert s == Spaces(pad) + ("|" + text + "|");
    SpaceRunOf(pad, "|" + text + "|");
  }

  /** A character that starts no column is skipped. */
  lemma ColumnSkips(c: char, t: string)
    requires t != "" && (c != ' ' || (t[0] != ' ' && t[0] != '|'))
    ensures ColumnStart([c] + t) == (match ColumnStart(t) case None => None case Some(i) => Some(i + 1))
  {
    assert ([c] + t)[1..] == t;
    if c == ' ' { SpaceRunOf(1, t); assert Spaces(1) == " "; }
  }

  function Shift(o: Option<nat>, n: nat): Option<nat> {
    match o
    case None => None
    case Some(i) => Some(i + n)
  }

  lemma ColumnSkipsOctet(b: Byte, t: string)
    requires t != ""
    ensures ColumnStart(OctetText(b) + t) == Shift(ColumnStart(t), 2)
  {
    var x, y := Lower(b / 16), Lower(b % 16);
    LowerHex(b / 16);
    LowerHex(b % 16);
    ColumnSkips(y, t);
    ColumnSkips(x, [y] + t);
    assert OctetText(b) + t == [x] + ([y] + t);
  }

  lemma ColumnSkipsOctetAndSpace(b: Byte, rest: string)
    requires rest != "" && rest[0] != ' ' && rest[0] != '|'
    ensures ColumnStart(OctetText(b) + " " + rest) == Shift(ColumnStart(rest), 3)
  {
    hide ColumnStart, OctetText;
    ColumnSkips(' ', rest);
    ColumnSkipsOctet(b, " " + rest);
    assert OctetText(b) + " " + rest == OctetText(b) + (" " + rest);
  }

  lemma {:induction false} ColumnAfterOctets(bs: seq<Byte>, column: string)
    requires bs != [] && column != "" && ColumnStart(column) == Some(0)
    ensures ColumnStart(Joined(bs) + column) == Some(|Joined(bs)|)
    decreases |bs|
  {
    hide ColumnStart, Joined, OctetText;
    JoinedCons(bs);
    assert |OctetText(bs[0])| == 2 by { OctetLength(bs[0]); }
    if |bs| == 1 {
      ColumnSkipsOctet(bs[0], column);
    } else {
      var tail := Joined(bs[1..]);
      ColumnAfterOctets(bs[1..], column);
      JoinedHead(bs[1..]);
      ColumnSkipsOctetAndSpace(bs[0], tail + column);
      assert OctetText(bs[0]) + " " + tail + column == OctetText(bs[0]) + " " + (tail + column);
    }
  }

  lemma OctetLength(b: Byte)
    ensures |OctetText(b)| == 2
  {
  }

  lemma JoinedCons(bs: seq<Byte>)
    requires bs != []
    ensures Joined(bs) == if |bs| == 1 then OctetText(bs[0]) else OctetText(bs[0]) + " " + Joined(bs[1..])
  {
  }

  lemma JoinedHead(bs: seq<Byte>)
    requires bs != []
    ensures Joined(bs) != "" && Joined(bs)[0] != ' ' && Joined(bs)[0] != '|'
  {
    LowerHex(bs[0] / 16);
    assert Joined(bs)[0] == Lower(bs[0] / 16);
  }

  function Texts(bs: seq<Byte>): seq<string> { seq(|bs|, i requires 0 <= i < |bs| => OctetText(bs[i])) }

  lemma WordOctet(b: Byte, t: string)
    requires t == "" || t[0] == ' '
    ensures Words(OctetText(b) + t) == [OctetText(b)] + Words(if t == "" then "" else t[1..])
  {
    var s := OctetText(b) + t;
    LowerHex(b / 16);
    LowerHex(b % 16);
    assert s[1..] == [Lower(b % 16)] + t && s[1..][1..] == t;
    assert WordEnd(t) == 0;
    assert WordEnd(s[1..]) == 1 && WordEnd(s) == 2;
    assert s[..2] == OctetText(b) && s[2..] == t;
    if t != "" { assert Words(t) == Words(t[1..]); }
  }

  lemma {:induction false} WordsOfOctets(bs: seq<Byte>)
    ensures Words(Joined(bs)) == Texts(bs)
    decreases |bs|
  {
    if bs == [] {
    } else if |bs| == 1 {
      assert OctetText(bs[0]) + "" == OctetText(bs[0]);
      WordOctet(bs[0], "");
    } else {
      WordsOfOctets(bs[1..]);
      var t := " " + Joined(bs[1..]);
      assert t[1..] == Joined(bs[1..]);
      assert Joined(bs) == OctetText(bs[0]) + t;
      WordOctet(bs[0], t);
      assert Texts(bs) == [OctetText(bs[0])] + Texts(bs[1..]);
    }
  }

  lemma OctetsOfTexts(bs: seq<Byte>)
    ensures forall w <- Texts(bs) :: IsOctet(w)
    ensures Octets(Texts(bs)) == bs
  {
    forall i | 0 <= i < |bs| ensures IsOctet(Texts(bs)[i]) && Octet(Texts(bs)[i]) == bs[i] {
      LowerHex(bs[i] / 16);
      LowerHex(bs[i] % 16);
    }
  }

  lemma OffsetReads(h: string, rest: string)
    requires AllHex(h) && |h| >= 8
    ensures var s := h + "  " + rest;
      RowLike(s) && HexRun(s) == |h| && !AllHex(s) && s[..|h|] == h && s[|h| + 2..] == rest
  {
    var s := h + "  " + rest;
    assert s == h + ("  " + rest);
    HexRunOf(h, "  " + rest);
    assert s[|h|] == ' ' && s[|h| + 1] == ' ';
    assert s[|h|] in s && !IsHex(s[|h|]);
  }

  lemma RestReads(bs: seq<Byte>, pad: nat, text: string)
    requires 1 <= |bs| && pad >= 1
    ensures var rest := Joined(bs) + Spaces(pad) + "|" + text + "|";
      ColumnStart(rest) == Some(|Joined(bs)|) && Words(rest[..|Joined(bs)|]) == Texts(bs)
  {
    var rest, column := Joined(bs) + Spaces(pad) + "|" + text + "|", Spaces(pad) + "|" + text + "|";
    ColumnHere(pad, text);
    ColumnAfterOctets(bs, column);
    assert rest == Joined(bs) + column;
    assert rest[..|Joined(bs)|] == Joined(bs);
    WordsOfOctets(bs);
  }

  /** A row reads back as its offset and octets, whatever its text column says. */
  lemma ReadsRow(offset: nat, bs: seq<Byte>, pad: nat, text: string)
    requires 1 <= |bs| <= 16 && pad >= 1
    ensures Classify(RowText(offset, bs, pad, text)) == Data(offset, bs)
  {
    hide ColumnStart, Words, HexRun, AllHex, RowLike, Joined, Hex, HexValue, Spaces, LastSeparator;
    var h := Hex(offset, 8);
    var rest := Joined(bs) + Spaces(pad) + "|" + text + "|";
    HexReads(offset, 8);
    assert RowText(offset, bs, pad, text) == h + "  " + rest;
    OffsetReads(h, rest);
    RestReads(bs, pad, text);
    OctetsOfTexts(bs);
  }

  lemma ChunkSize(v: seq<Byte>, j: nat)
    requires 16 * j < |v|
    ensures 1 <= |Chunk(v, j)| <= 16
  {
  }

  lemma ReadsRowLine(v: seq<Byte>, j: nat)
    requires 16 * j < |v|
    ensures Classify(RowLine(v, j)) == Data(16 * j, Chunk(v, j))
  {
    hide Classify, RowText, Chunk, Shown;
    ChunkSize(v, j);
    ReadsRow(16 * j, Chunk(v, j), 3 * (16 - |Chunk(v, j)|) + 2, Shown(Chunk(v, j)));
  }

  // ---------- whole listings ----------

  lemma {:induction false} RunConcat(s: State, x: seq<string>, y: seq<string>, paths: map<string, string>)
    ensures Run(s, x + y, paths)
            == match Run(s, x, paths) case None => None case Some(t) => Run(t, y, paths)
    decreases |x|
  {
    if x == [] {
      assert x + y == y;
    } else {
      assert (x + y)[1..] == x[1..] + y;
      match Step(s, Classify(x[0]), paths)
      case None =>
      case Some(t) => RunConcat(t, x[1..], y, paths);
    }
  }

  /** Where the reader of one value stands after k rows. */
  function Upto(v: seq<Byte>, k: nat): seq<Byte> { if 16 * k < |v| then v[..16 * k] else v }

  lemma UptoNext(v: seq<Byte>, k: nat)
    requires 16 * k < |v|
    ensures Upto(v, k) + Chunk(v, k) == Upto(v, k + 1) && |Upto(v, k)| == 16 * k
  {
  }

  function Open(rows: Rows, c: Current, v: seq<Byte>, k: nat): State { State(rows, Some(c), Upto(v, k), false) }

  lemma UptoLength(v: seq<Byte>, k: nat)
    requires k <= RowCount(v)
    ensures |Upto(v, k)| == if k < RowCount(v) then 16 * k else |v|
    ensures k < RowCount(v) <==> 16 * k < |v|
  {
  }

  lemma RowStep(rows: Rows, c: Current, v: seq<Byte>, k: nat, q: string, paths: map<string, string>)
    requires k <= RowCount(v) && q in DataRows(v)
    ensures var r := Step(Open(rows, c, v, k), Classify(q), paths);
      && (r.Some? <==> k < RowCount(v) && q == DataRows(v)[k])
      && (r.Some? ==> r.value == Open(rows, c, v, k + 1))
  {
    hide Classify, RowLine, Upto, Chunk;
    var j: nat :| j < RowCount(v) && DataRows(v)[j] == q;
    ReadsRowLine(v, j);
    UptoLength(v, k);
    if k < RowCount(v) {
      ReadsRowLine(v, k);
      UptoNext(v, k);
    }
  }

  lemma FinalStep(rows: Rows, c: Current, v: seq<Byte>, k: nat, paths: map<string, string>)
    requires k <= RowCount(v)
    ensures var r := Run(Open(rows, c, v, k), [Hex(|v|, 8)], paths);
      && (r.Some? <==> k == RowCount(v))
      && (r.Some? ==> r.value == State(Stored(rows, c.key, c.name, v), Some(c), v, true))
  {
    hide Classify, Hex;
    ReadsFinal(|v|);
    UptoLength(v, k);
    assert [Hex(|v|, 8)][1..] == [];
  }

  /** Within one value, only the next row of the printer is accepted, and the length line only after
      the last one. */
  lemma {:induction false} RowsInOrder(rows: Rows, c: Current, v: seq<Byte>, k: nat, qs: seq<string>,
                                       paths: map<string, string>)
    requires k <= RowCount(v)
    requires forall q <- qs :: q in DataRows(v)
    ensures var r := Run(Open(rows, c, v, k), qs + [Hex(|v|, 8)], paths);
      && (r.Some? <==> qs == DataRows(v)[k..])
      && (r.Some? ==> r == Some(State(Stored(rows, c.key, c.name, v), Some(c), v, true)))
    decreases |qs|
  {
    hide Classify, RowLine, Hex, Step, Upto, Open;
    var lines, all := qs + [Hex(|v|, 8)], DataRows(v);
    if qs == [] {
      assert lines == [Hex(|v|, 8)];
      FinalStep(rows, c, v, k, paths);
    } else {
      assert lines[0] == qs[0] && lines[1..] == qs[1..] + [Hex(|v|, 8)];
      assert qs[0] in all;
      RowStep(rows, c, v, k, qs[0], paths);
      if k < RowCount(v) && qs[0] == all[k] {
        RowsInOrder(rows, c, v, k + 1, qs[1..], paths);
        assert all[k..] == [all[k]] + all[k + 1..];
      } else {
        assert k < RowCount(v) ==> all[k..][0] == all[k];
      }
    }
  }

  predicate Known(attrs: seq<Attr>, paths: map<string, string>) {
    forall a <- attrs :: Printable(a) && a.path in paths
  }

  predicate Distinct(attrs: seq<Attr>, paths: map<string, string>)
    requires Known(attrs, paths)
  {
    forall i, j :: 0 <= i < j < |attrs| ==>
      attrs[i].name != attrs[j].name || paths[attrs[i].path] != paths[attrs[j].path]
  }

  /** The map a listing stands for. */
  function Collect(rows: Rows, attrs: seq<Attr>, paths: map<string, string>): Rows
    requires Known(attrs, paths)
    decreases |attrs|
  {
    if attrs == [] then rows
    else Collect(Stored(rows, paths[attrs[0].path], attrs[0].name, attrs[0].value), attrs[1..], paths)
  }

  predicate Clear(rows: Rows, attrs: seq<Attr>, paths: map<string, string>)
    requires Known(attrs, paths)
  {
    forall a <- attrs :: !Has(rows, paths[a.path], a.name)
  }

  /** One attribute read from a closed state: accepted exactly when its rows are the printed ones. */
  lemma BlockReads(s: State, a: Attr, qs: seq<string>, paths: map<string, string>)
    requires s.ended && Printable(a) && a.path in paths && !Has(s.rows, paths[a.path], a.name)
    requires forall q <- qs :: q in DataRows(a.value)
    ensures var r := Run(s, Block(a, qs), paths);
      && (r.Some? <==> qs == DataRows(a.value))
      && (r.Some? ==> r.value.ended && r.value.rows == Stored(s.rows, paths[a.path], a.name, a.value))
  {
    hide Classify, HeaderText, DataRows, Hex;
    var lines := Block(a, qs);
    assert lines[0] == HeaderText(a) && lines[1..] == qs + [Hex(|a.value|, 8)];
    ReadsHeader(a);
    var c := Current(paths[a.path], a.name);
    assert Upto(a.value, 0) == [];
    RowsInOrder(s.rows, c, a.value, 0, qs, paths);
    assert DataRows(a.value)[0..] == DataRows(a.value);
  }

  lemma {:induction false} PrintReads(s: State, attrs: seq<Attr>, paths: map<string, string>)
    requires s.ended && Known(attrs, paths) && Distinct(attrs, paths) && Clear(s.rows, attrs, paths)
    ensures var r := Run(s, Print(attrs), paths);
      r.Some? && r.value.ended && r.value.rows == Collect(s.rows, attrs, paths)
    decreases |attrs|
  {
    hide Block, DataRows, Printable;
    if attrs != [] {
      var a := attrs[0];
      RunConcat(s, Block(a, DataRows(a.value)), Print(attrs[1..]), paths);
      BlockReads(s, a, DataRows(a.value), paths);
      var t := Run(s, Block(a, DataRows(a.value)), paths).value;
      forall b <- attrs[1..] ensures !Has(t.rows, paths[b.path], b.name) {
        var i :| 0 <= i < |attrs[1..]| && attrs[1..][i] == b;
        assert attrs[i + 1] == b && b in attrs;
      }
      PrintReads(t, attrs[1..], paths);
    }
  }

  /** The parser inverts the printer, empty values included. */
  lemma ParsePrint(attrs: seq<Attr>, paths: map<string, string>)
    requires Known(attrs, paths) && Distinct(attrs, paths)
    ensures Parse(Print(attrs), paths) == Some(Collect(map[], attrs, paths))
  {
    PrintReads(START, attrs, paths);
  }

  /** What is collected: every attribute of the list under the key of its path, and nothing else. */
  lemma {:induction false} Collected(rows: Rows, attrs: seq<Attr>, paths: map<string, string>, key: string, name: string)
    requires Known(attrs, paths) && Distinct(attrs, paths) && Clear(rows, attrs, paths)
    ensures var all := Collect(rows, attrs, paths);
      && (Has(all, key, name) <==> Has(rows, key, name) || exists a :: a in attrs && paths[a.path] == key && a.name == name)
      && (Has(rows, key, name) ==> all[key][name] == rows[key][name])
      && (forall a <- attrs :: paths[a.path] == key && a.name == name ==> Has(all, key, name) && all[key][name] == a.value)
    decreases |attrs|
  {
    if attrs != [] {
      var a, rest := attrs[0], attrs[1..];
      var next := Stored(rows, paths[a.path], a.name, a.value);
      forall b <- rest ensures !Has(next, paths[b.path], b.name) {
        var i :| 0 <= i < |rest| && rest[i] == b;
        assert attrs[i + 1] == b && b in attrs;
      }
      Collected(next, rest, paths, key, name);
      assert attrs == [a] + rest;
      assert a in attrs;
    }
  }

  // ---------- every map has a listing ----------

  predicate NoEmpty(rows: Rows) { forall k <- rows :: rows[k] != map[] }

  /** The attributes of a map, in some order. */
  ghost predicate Lists(attrs: seq<Attr>, rows: Rows, paths: map<string, string>)
    requires Known(attrs, paths)
  {
    && NoEmpty(rows)
    && (forall key, name :: Has(rows, key, name) ==>
          exists a :: a in attrs && paths[a.path] == key && a.name == name)
    && (forall a <- attrs :: Has(rows, paths[a.path], a.name) && rows[paths[a.path]][a.name] == a.value)
  }

  lemma {:induction false} CollectNoEmpty(rows: Rows, attrs: seq<Attr>, paths: map<string, string>)
    requires Known(attrs, paths) && NoEmpty(rows)
    ensures NoEmpty(Collect(rows, attrs, paths))
    decreases |attrs|
  {
    if attrs != [] {
      var a := attrs[0];
      var next := Stored(rows, paths[a.path], a.name, a.value);
      assert a.name in next[paths[a.path]];
      CollectNoEmpty(next, attrs[1..], paths);
    }
  }

  lemma {:induction false} RunNoEmpty(s: State, lines: seq<string>, paths: map<string, string>)
    requires NoEmpty(s.rows)
    ensures Run(s, lines, paths).Some? ==> NoEmpty(Run(s, lines, paths).value.rows)
    decreases |lines|
  {
    hide Classify;
    if lines != [] && Step(s, Classify(lines[0]), paths).Some? {
      var t := Step(s, Classify(lines[0]), paths).value;
      if t.rows != s.rows { assert s.current.value.name in t.rows[s.current.value.key]; }
      RunNoEmpty(t, lines[1..], paths);
    }
  }

  /** What is parsed never lists a path without attributes. */
  lemma ParsedHasNoEmpty(lines: seq<string>, paths: map<string, string>)
    ensures Parse(lines, paths).Some? ==> NoEmpty(Parse(lines, paths).value)
  {
    RunNoEmpty(Xattrs.START, lines, paths);
  }

  lemma SameRows(x: Rows, y: Rows)
    requires NoEmpty(x) && NoEmpty(y)
    requires forall key, name :: Has(x, key, name) <==> Has(y, key, name)
    requires forall key, name :: Has(x, key, name) && Has(y, key, name) ==> x[key][name] == y[key][name]
    ensures x == y
  {
    forall key ensures key in x <==> key in y {
      if key in x { var name :| name in x[key]; assert Has(x, key, name); }
      if key in y { var name :| name in y[key]; assert Has(y, key, name); }
    }
    forall key | key in x ensures x[key] == y[key] {
      forall name ensures name in x[key] <==> name in y[key] {
        assert Has(x, key, name) <==> Has(y, key, name);
      }
      forall name | name in x[key] ensures x[key][name] == y[key][name] { assert Has(x, key, name); }
    }
  }

  /** Whatever the order of the listing, it parses back to exactly the map it lists. */
  lemma ParsePrintMap(rows: Rows, attrs: seq<Attr>, paths: map<string, string>)
    requires Known(attrs, paths) && Distinct(attrs, paths) && Lists(attrs, rows, paths)
    ensures Parse(Print(attrs), paths) == Some(rows)
  {
    var all := Collect(map[], attrs, paths);
    ParsePrint(attrs, paths);
    CollectNoEmpty(map[], attrs, paths);
    forall key, name
      ensures Has(all, key, name) <==> Has(rows, key, name)
      ensures Has(all, key, name) ==> all[key][name] == rows[key][name]
    {
      Collected(map[], attrs, paths, key, name);
    }
    SameRows(all, rows);
  }

  /** The map can be printed: its keys come from known absolute paths, its names are names. */
  ghost predicate Namable(rows: Rows, pathOf: map<string, string>, paths: map<string, string>) {
    && NoEmpty(rows)
    && (forall key <- rows :: key in pathOf && pathOf[key] in paths && paths[pathOf[key]] == key
          && pathOf[key] != "" && pathOf[key][0] == '/')
    && (forall key, name :: Has(rows, key, name) ==> name != "" && forall c <- name :: NameChar(c))
  }

  lemma {:induction false} Enumerate(s: set<(string, string)>) returns (q: seq<(string, string)>)
    ensures (forall x :: x in q <==> x in s) && forall i, j :: 0 <= i < j < |q| ==> q[i] != q[j]
    decreases |s|
  {
    if s == {} {
      q := [];
    } else {
      var x :| x in s;
      var rest := Enumerate(s - {x});
      q := rest + [x];
    }
  }

  /** Every such map has a listing, and the parser gives the map back. */
  lemma EveryMapRoundTrips(rows: Rows, pathOf: map<string, string>, paths: map<string, string>) returns (attrs: seq<Attr>)
    requires Namable(rows, pathOf, paths)
    ensures Known(attrs, paths) && Distinct(attrs, paths) && Lists(attrs, rows, paths)
    ensures Parse(Print(attrs), paths) == Some(rows)
  {
    var q := Enumerate(set key, name | key in rows && name in rows[key] :: (key, name));
    forall i | 0 <= i < |q| ensures Has(rows, q[i].0, q[i].1) { assert q[i] in q; }
    attrs := seq(|q|, i requires 0 <= i < |q| => Attr(pathOf[q[i].0], q[i].1, rows[q[i].0][q[i].1]));
    forall a <- attrs
      ensures Printable(a) && a.path in paths
      ensures Has(rows, paths[a.path], a.name) && rows[paths[a.path]][a.name] == a.value
    {
      var i :| 0 <= i < |q| && attrs[i] == a;
      assert Has(rows, q[i].0, q[i].1);
    }
    forall key, name | Has(rows, key, name)
      ensures exists a :: a in attrs && paths[a.path] == key && a.name == name
    {
      assert (key, name) in q;
      var i :| 0 <= i < |q| && q[i] == (key, name);
      assert attrs[i] in attrs;
    }
    assert Distinct(attrs, paths) by {
      forall i, j | 0 <= i < j < |attrs|
        ensures attrs[i].name != attrs[j].name || paths[attrs[i].path] != paths[attrs[j].path]
      {
        assert q[i] != q[j] && Has(rows, q[i].0, q[i].1) && Has(rows, q[j].0, q[j].1);
      }
    }
    ParsePrintMap(rows, attrs, paths);
  }

  /** A listing in which the rows of one value were dropped, repeated or moved is rejected: of all the
      lists made of that value's rows, only the printed one is accepted. */
  lemma TamperedListing(before: seq<Attr>, a: Attr, after: seq<Attr>, qs: seq<string>, paths: map<string, string>)
    requires Known(before + [a] + after, paths) && Distinct(before + [a] + after, paths)
    requires forall q <- qs :: q in DataRows(a.value)
    ensures Parse(Print(before) + Block(a, qs) + Print(after), paths).Some? <==> qs == DataRows(a.value)
  {
    var all := before + [a] + after;
    hide Block, DataRows, Printable, Print;
    assert forall b <- before :: b in all;
    assert forall b <- after :: b in all;
    assert all[|before|] == a && a in all;
    assert Distinct(before, paths) by {
      forall i, j | 0 <= i < j < |before| ensures before[i].name != before[j].name || paths[before[i].path] != paths[before[j].path]
      { assert all[i] == before[i] && all[j] == before[j]; }
    }
    PrintReads(START, before, paths);
    var s := Run(START, Print(before), paths).value;
    var head := Print(before) + Block(a, qs);
    RunConcat(START, Print(before), Block(a, qs), paths);
    RunConcat(START, head, Print(after), paths);
    ClearAfter(before, a, after, paths);
    BlockReads(s, a, qs, paths);
    if qs == DataRows(a.value) {
      PrintReads(Run(s, Block(a, qs), paths).value, after, paths);
    }
  }

  lemma ClearAfter(before: seq<Attr>, a: Attr, after: seq<Attr>, paths: map<string, string>)
    requires Known(before + [a] + after, paths) && Distinct(before + [a] + after, paths)
    requires Known(before, paths) && Distinct(before, paths) && Known(after, paths) && a.path in paths
    ensures var rows := Collect(map[], before, paths);
      && !Has(rows, paths[a.path], a.name)
      && Clear(Stored(rows, paths[a.path], a.name, a.value), after, paths)
    ensures Distinct(after, paths)
  {
    var all, n := before + [a] + after, |before|;
    var rows := Collect(map[], before, paths);
    Collected(map[], before, paths, paths[a.path], a.name);
    forall b | b in before ensures b.name != a.name || paths[b.path] != paths[a.path] {
      var i :| 0 <= i < n && before[i] == b;
      assert all[i] == b && all[n] == a;
    }
    forall c | c in after ensures !Has(Stored(rows, paths[a.path], a.name, a.value), paths[c.path], c.name) {
      var k :| 0 <= k < |after| && after[k] == c;
      assert all[n + 1 + k] == c && all[n] == a;
      Collected(map[], before, paths, paths[c.path], c.name);
      forall b | b in before ensures b.name != c.name || paths[b.path] != paths[c.path] {
        var i :| 0 <= i < n && before[i] == b;
        assert all[i] == b;
      }
    }
    forall i, j | 0 <= i < j < |after| ensures after[i].name != after[j].name || paths[after[i].path] != paths[after[j].path] {
      assert all[n + 1 + i] == after[i] && all[n + 1 + j] == after[j];
    }
  }
}
