/** The recursive document diff with JSON pointers (section 3 of RFC 6901), and reading its rows
    back as addresses. */
module StateDiff {
  import opened Wrappers
  import opened Order

  /** A parsed document.  Different constructors are different Python types. */
  datatype Json =
    | Null
    | Bool(b: bool)
    | Int(i: int)
    | Float(r: real)
    | Str(s: string)
    | Arr(items: seq<Json>)
    | Obj(fields: map<string, Json>)

  datatype Token = Key(name: string) | Index(i: nat)

  datatype Row =
    | Add(path: string, after: Json)
    | Remove(path: string, before: Json)
    | Replace(path: string, before: Json, after: Json)

  // ---------- pointers ----------

  function ReplaceAll(s: string, c: char, sub: string): string {
    if s == "" then "" else (if s[0] == c then sub else [s[0]]) + ReplaceAll(s[1..], c, sub)
  }

  function Escape(s: string): string { ReplaceAll(ReplaceAll(s, '~', "~0"), '/', "~1") }

  /** Decodes one reference token; None when a tilde starts no escape. */
  function Unescape(s: string): Option<string> {
    if s == "" then Some("")
    else if s[0] == '~' then
      if |s| == 1 || s[1] !in {'0', '1'} then None
      else match Unescape(s[2..])
        case None => None
        case Some(t) => Some([if s[1] == '0' then '~' else '/'] + t)
    else match Unescape(s[1..])
      case None => None
      case Some(t) => Some([s[0]] + t)
  }

  function Digit(d: nat): char
    requires d < 10
  {
    "0123456789"[d]
  }

  function Decimal(n: nat): string {
    if n < 10 then [Digit(n)] else Decimal(n / 10) + [Digit(n % 10)]
  }

  function Text(t: Token): string {
    match t
    case Key(k) => k
    case Index(i) => Decimal(i)
  }

  function Child(path: string, t: Token): string { path + "/" + Escape(Text(t)) }

  /** q is p or addresses something inside what p addresses. */
  predicate Extends(p: string, q: string) {
    |p| <= |q| && q[..|p|] == p && (|q| == |p| || q[|p|] == '/')
  }

  // ---------- the diff ----------

  predicate Container(j: Json) { j.Arr? || j.Obj? }

  predicate SameShape(b: Json, a: Json) { (b.Obj? && a.Obj?) || (b.Arr? && a.Arr?) }

  function At(j: Json, t: Token): (r: Option<Json>)
    ensures r.Some? ==> r.value < j
  {
    match (j, t)
    case (Obj(m), Key(k)) => if k in m then Some(m[k]) else None
    case (Arr(s), Index(i)) => if i < |s| then Some(s[i]) else None
    case _ => None
  }

  function Indices(lo: nat, hi: nat): seq<Token>
    requires lo <= hi
  {
    seq(hi - lo, n requires 0 <= n < hi - lo => Index(lo + n))
  }

  function Keys(ks: seq<string>): seq<Token> { seq(|ks|, n requires 0 <= n < |ks| => Key(ks[n])) }

  function Max(x: nat, y: nat): nat { if x < y then y else x }

  /** The keys of both, sorted; or every index of the longer list. */
  ghost function Tokens(b: Json, a: Json): seq<Token>
    requires SameShape(b, a)
  {
    if b.Obj? then Keys(KeyOrder(b.fields.Keys + a.fields.Keys)) else Indices(0, Max(|b.items|, |a.items|))
  }

  ghost function Diff(b: Json, a: Json, path: string): seq<Row>
    decreases b, 2, 0
  {
    if !Container(b) && b == a then []
    else if SameShape(b, a) then DiffAll(b, a, path, Tokens(b, a))
    else [Replace(path, b, a)]
  }

  ghost function DiffAll(b: Json, a: Json, path: string, ts: seq<Token>): seq<Row>
    decreases b, 1, |ts|
  {
    if ts == [] then [] else DiffAt(b, a, path, ts[0]) + DiffAll(b, a, path, ts[1..])
  }

  ghost function DiffAt(b: Json, a: Json, path: string, t: Token): seq<Row>
    decreases b, 0, 0
  {
    match (At(b, t), At(a, t))
    case (None, None) => []
    case (None, Some(y)) => [Add(Child(path, t), y)]
    case (Some(x), None) => [Remove(Child(path, t), x)]
    case (Some(x), Some(y)) => Diff(x, y, Child(path, t))
  }

  lemma {:induction false} DiffAllSnoc(b: Json, a: Json, path: string, ts: seq<Token>, t: Token)
    ensures DiffAll(b, a, path, ts + [t]) == DiffAll(b, a, path, ts) + DiffAt(b, a, path, t)
    decreases |ts|
  {
    if ts == [] {
      assert ts + [t] == [t];
    } else {
      assert (ts + [t])[1..] == ts[1..] + [t];
      DiffAllSnoc(b, a, path, ts[1..], t);
    }
  }

  /** What either loop of `state_diff` adds for one key or index. */
  method RowsAt(before: Json, after: Json, path: string, t: Token) returns (rows: seq<Row>)
    requires At(before, t).Some? || At(after, t).Some?
    ensures rows == DiffAt(before, after, path, t)
    decreases before, 0
  {
    var b, a := At(before, t), At(after, t);
    if b.None? {
      rows := [Add(Child(path, t), a.value)];
    } else if a.None? {
      rows := [Remove(Child(path, t), b.value)];
    } else {
      rows := StateDiff(b.value, a.value, Child(path, t));
    }
  }

  method DiffList(before: Json, after: Json, path: string, ts: seq<Token>) returns (rows: seq<Row>)
    requires forall t <- ts :: At(before, t).Some? || At(after, t).Some?
    ensures rows == DiffAll(before, after, path, ts)
    decreases before, 1
  {
    rows := [];
    var n := 0;
    while n < |ts|
      invariant 0 <= n <= |ts|
      invariant rows == DiffAll(before, after, path, ts[..n])
    {
      DiffAllSnoc(before, after, path, ts[..n], ts[n]);
      assert ts[..n + 1] == ts[..n] + [ts[n]];
      var more := RowsAt(before, after, path, ts[n]);
      rows := rows + more;
      n := n + 1;
    }
    assert ts[..n] == ts;
  }

  /** `state_diff`: local row lists grown in a loop over the sorted keys, or over the indices. */
  method StateDiff(before: Json, after: Json, path: string) returns (rows: seq<Row>)
    ensures rows == Diff(before, after, path)
    decreases before, 2
  {
    if !Container(before) && before == after { return []; }
    if before.Obj? && after.Obj? {
      var ks := SortKeys(before.fields.Keys + after.fields.Keys);
      forall n | 0 <= n < |ks| ensures ks[n] in before.fields.Keys + after.fields.Keys {
        assert ks[n] in ks;
      }
      rows := DiffList(before, after, path, Keys(ks));
    } else if before.Arr? && after.Arr? {
      rows := DiffList(before, after, path, Indices(0, Max(|before.items|, |after.items|)));
    } else {
      rows := [Replace(path, before, after)];
    }
  }
}
