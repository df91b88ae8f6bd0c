/** The parser of attribute listings: a header per attribute, hex rows with offsets, a length line. */
module Xattrs {
  import opened Wrappers

  type Byte = b: int | 0 <= b < 256

  type Rows = map<string, map<string, seq<Byte>>>

  // ---------- characters ----------

  predicate IsHex(c: char) { '0' <= c <= '9' || 'a' <= c <= 'f' || 'A' <= c <= 'F' }

  function HexDigit(c: char): nat
    requires IsHex(c)
  {
    if c <= '9' then c as int - '0' as int
    else if c <= 'F' then c as int - 'A' as int + 10
    else c as int - 'a' as int + 10
  }

  predicate AllHex(s: string) { forall c <- s :: IsHex(c) }

  function HexValue(s: string): nat
    requires AllHex(s)
  {
    if s == "" then 0 else 16 * HexValue(s[..|s| - 1]) + HexDigit(s[|s| - 1])
  }

  /** What str.split() without arguments separates on. */
  predicate IsSpace(c: char) {
    var n := c as int;
    9 <= n <= 13 || 28 <= n <= 32 || n in {0x85, 0xA0, 0x1680, 0x2028, 0x2029, 0x202F, 0x205F, 0x3000}
    || 0x2000 <= n <= 0x200A
  }

  predicate NameChar(c: char) {
    '0' <= c <= '9' || 'a' <= c <= 'z' || 'A' <= c <= 'Z' || c in {'.', '_', '-'}
  }

  // ---------- one line ----------

  datatype Line =
    | Blank
    | Header(path: string, name: string)
    | Data(offset: nat, octets: seq<Byte>)
    | Final(length: nat)
    | Bad

  /** The longest hexadecimal prefix. */
  function HexRun(s: string): (n: nat)
    ensures n <= |s| && AllHex(s[..n]) && (n < |s| ==> !IsHex(s[n]))
  {
    if s == "" || !IsHex(s[0]) then 0
    else
      var n := HexRun(s[1..]);
      assert s[..n + 1] == [s[0]] + s[1..][..n];
      n + 1
  }

  /** An offset and two spaces: a row, even when its text column holds a colon. */
  predicate RowLike(s: string) {
    var n := HexRun(s);
    n >= 8 && n + 2 <= |s| && s[n] == ' ' && s[n + 1] == ' '
  }

  /** The last place where a colon and a space stand. */
  function LastSeparator(s: string): Option<nat> {
    if s == "" then None
    else match LastSeparator(s[1..])
      case Some(i) => Some(i + 1)
      case None => if |s| >= 2 && s[0] == ':' && s[1] == ' ' then Some(0) else None
  }

  lemma {:induction false} SeparatorInside(s: string)
    ensures LastSeparator(s).Some? ==> LastSeparator(s).value + 2 <= |s|
    decreases |s|
  {
    if s != "" { SeparatorInside(s[1..]); }
  }

  function HeaderLine(s: string): Line
    requires LastSeparator(s).Some?
  {
    SeparatorInside(s);
    var i := LastSeparator(s).value;
    var name := s[i + 2..];
    if |name| >= 2 && name[|name| - 1] == ':' && forall c <- name[..|name| - 1] :: NameChar(c)
    then Header(s[..i], name[..|name| - 1]) else Bad
  }

  function SpaceRun(s: string): (n: nat)
    ensures n <= |s|
  {
    if s == "" || s[0] != ' ' then 0 else 1 + SpaceRun(s[1..])
  }

  /** One or more spaces, then a text column between bars up to the end of the line. */
  predicate TextColumn(s: string) {
    var n := SpaceRun(s);
    n >= 1 && n + 2 <= |s| && s[n] == '|' && s[|s| - 1] == '|'
  }

  /** The first place where a text column can start. */
  function ColumnStart(s: string): Option<nat> {
    if s == "" then None
    else if TextColumn(s) then Some(0)
    else match ColumnStart(s[1..])
      case None => None
      case Some(i) => Some(i + 1)
  }

  lemma {:induction false} ColumnInside(s: string)
    ensures ColumnStart(s).Some? ==> ColumnStart(s).value <= |s|
    decreases |s|
  {
    if s != "" { ColumnInside(s[1..]); }
  }

  function WordEnd(s: string): (n: nat)
    ensures n <= |s| && (s != "" && !IsSpace(s[0]) ==> n > 0)
  {
    if s == "" || IsSpace(s[0]) then 0 else 1 + WordEnd(s[1..])
  }

  function Words(s: string): seq<string>
    decreases |s|
  {
    if s == "" then []
    else if IsSpace(s[0]) then Words(s[1..])
    else [s[..WordEnd(s)]] + Words(s[WordEnd(s)..])
  }

  predicate IsOctet(w: string) { |w| == 2 && AllHex(w) }

  function Octet(w: string): Byte
    requires IsOctet(w)
  {
    16 * HexDigit(w[0]) + HexDigit(w[1])
  }

  function Octets(ws: seq<string>): seq<Byte>
    requires forall w <- ws :: IsOctet(w)
  {
    seq(|ws|, i requires 0 <= i < |ws| => Octet(ws[i]))
  }

  function DataLine(s: string): Line {
    if !RowLike(s) then Bad
    else
      var n := HexRun(s);
      var rest := s[n + 2..];
      ColumnInside(rest);
      match ColumnStart(rest)
      case None => Bad
      case Some(p) =>
        var ws := Words(rest[..p]);
        if 1 <= |ws| <= 16 && forall w <- ws :: IsOctet(w) then Data(HexValue(s[..n]), Octets(ws)) else Bad
  }

  function Classify(s: string): Line {
    if s == "" then Blank
    else if LastSeparator(s).Some? && !RowLike(s) then HeaderLine(s)
    else if |s| >= 8 && AllHex(s) then Final(HexValue(s))
    else DataLine(s)
  }

  // ---------- the machine ----------

  datatype Current = Current(key: string, name: string)

  datatype State = State(rows: Rows, current: Option<Current>, value: seq<Byte>, ended: bool)

  const START := State(map[], None, [], true)

  predicate Has(rows: Rows, key: string, name: string) { key in rows && name in rows[key] }

  function Stored(rows: Rows, key: string, name: string, value: seq<Byte>): Rows {
    rows[key := (if key in rows then rows[key] else map[])[name := value]]
  }

  function Step(s: State, line: Line, paths: map<string, string>): Option<State> {
    match line
    case Blank => Some(s)
    case Header(path, name) =>
      if s.ended && path in paths && !Has(s.rows, paths[path], name)
      then Some(State(s.rows, Some(Current(paths[path], name)), [], false)) else None
    case Final(n) =>
      if s.current.Some? && !s.ended && n == |s.value|
      then Some(s.(rows := Stored(s.rows, s.current.value.key, s.current.value.name, s.value), ended := true))
      else None
    case Data(offset, octets) =>
      if s.current.Some? && !s.ended && offset == |s.value|
      then Some(s.(value := s.value + octets)) else None
    case Bad => None
  }

  function Run(s: State, lines: seq<string>, paths: map<string, string>): Option<State>
    decreases |lines|
  {
    if lines == [] then Some(s)
    else match Step(s, Classify(lines[0]), paths)
      case None => None
      case Some(t) => Run(t, lines[1..], paths)
  }

  /** None when the listing is rejected. */
  function Parse(lines: seq<string>, paths: map<string, string>): Option<Rows> {
    match Run(START, lines, paths)
    case None => None
    case Some(s) => if s.ended then Some(s.rows) else None
  }

  lemma RunHead(s: State, lines: seq<string>, i: nat, paths: map<string, string>)
    requires i < |lines|
    ensures Run(s, lines[i..], paths) == match Step(s, Classify(lines[i]), paths)
                                         case None => None
                                         case Some(t) => Run(t, lines[i + 1..], paths)
  {
    hide Classify, Step;
    assert lines[i..][1..] == lines[i + 1..];
  }

  /** The loop over `current`, `value` and `ended`. */
  method ParseXattrs(lines: seq<string>, paths: map<string, string>) returns (r: Option<Rows>)
    ensures r == Parse(lines, paths)
  {
    hide Classify, Run;
    var rows: Rows := map[];
    var current: Option<Current> := None;
    var value: seq<Byte> := [];
    var ended, i := true, 0;
    assert lines[0..] == lines;
    while i < |lines|
      invariant 0 <= i <= |lines|
      invariant Run(State(rows, current, value, ended), lines[i..], paths) == Run(START, lines, paths)
    {
      RunHead(State(rows, current, value, ended), lines, i, paths);
      var line := Classify(lines[i]);
      match line {
        case Blank =>
        case Header(path, name) =>
          if !ended || path !in paths || Has(rows, paths[path], name) { return None; }
          current, value, ended := Some(Current(paths[path], name)), [], false;
        case Final(n) =>
          if current.None? || ended || n != |value| { return None; }
          rows := Stored(rows, current.value.key, current.value.name, value);
          ended := true;
        case Data(offset, octets) =>
          if current.None? || ended || offset != |value| { return None; }
          value := value + octets;
        case Bad => return None;
      }
      i := i + 1;
    }
    assert lines[i..] == [];
    RunNone(State(rows, current, value, ended), paths);
    if !ended { return None; }
    r := Some(rows);
  }

  lemma RunNone(s: State, paths: map<string, string>)
    ensures Run(s, [], paths) == Some(s)
  {
  }
}
