/** Exported inventories: sorted rows in chunks, normalized attributes. */
module Inventory {
  import opened Wrappers
  import opened Order
  import opened Strings

  datatype Field = Kind | Sha256 | Target | Uid | Gid | Mode | Flags | Xattrs | Acl

  const FIELDS: seq<Field> := [Kind, Sha256, Target, Uid, Gid, Mode, Flags, Xattrs, Acl]

  /** The digest of the empty byte string. */
  const EMPTY := "e3b0c44298fc1c149afbf4c8996fb92427ae41e4649b934ca495991b7852b855"

  datatype RawXattrs = Ok(values: map<string, string>) | NotOk

  /** One entry.  Values are canonical texts, paths are byte strings; `plain` holds the compared
      fields that are present and not null, `other` everything that is not compared. */
  datatype Row = Row(path: string, plain: map<Field, string>, xattrs: RawXattrs, acl: string, other: string)

  // ---------- export and read back ----------

  function FirstComponent(path: string): string {
    if path == "" || path[0] == '/' then "" else [path[0]] + FirstComponent(path[1..])
  }

  /** The part before the first slash. */
  lemma {:induction false} FirstComponentIs(path: string)
    ensures FirstComponent(path) == SplitOn(path, '/')[0]
    decreases |path|
  {
    if path != "" { FirstComponentIs(path[1..]); }
  }

  function Concat<T>(chunks: seq<seq<T>>): seq<T>
    decreases |chunks|
  {
    if chunks == [] then [] else chunks[0] + Concat(chunks[1..])
  }

  lemma {:induction false} ConcatSnoc<T>(chunks: seq<seq<T>>, c: seq<T>)
    ensures Concat(chunks + [c]) == Concat(chunks) + c
    decreases |chunks|
  {
    if chunks == [] {
      assert chunks + [c] == [c];
    } else {
      assert (chunks + [c])[1..] == chunks[1..] + [c];
      ConcatSnoc(chunks[1..], c);
    }
  }

  predicate ChunkOk(c: seq<Row>, limit: nat) {
    && 1 <= |c| && (|c| == 1 || |c| <= limit)
    && forall i :: 0 <= i < |c| ==> FirstComponent(c[i].path) == FirstComponent(c[0].path)
  }

  /** A chunk ends only when it is full or the first path component changes. */
  predicate Boundary(c: seq<Row>, next: Row, limit: nat)
    requires c != []
  {
    |c| >= limit || FirstComponent(next.path) != FirstComponent(c[0].path)
  }

  predicate Chunked(chunks: seq<seq<Row>>, limit: nat)
    decreases |chunks|
  {
    chunks != [] ==>
      && ChunkOk(chunks[0], limit)
      && Chunked(chunks[1..], limit)
      && (|chunks| > 1 ==> Boundary(chunks[0], chunks[1][0], limit))
  }

  lemma {:induction false} ChunkedSnoc(chunks: seq<seq<Row>>, c: seq<Row>, limit: nat)
    requires Chunked(chunks, limit) && ChunkOk(c, limit)
    requires chunks != [] ==> chunks[|chunks| - 1] != [] && Boundary(chunks[|chunks| - 1], c[0], limit)
    ensures Chunked(chunks + [c], limit)
    decreases |chunks|
  {
    if chunks == [] {
      assert chunks + [c] == [c];
    } else {
      assert (chunks + [c])[1..] == chunks[1..] + [c];
      ChunkedSnoc(chunks[1..], c, limit);
    }
  }

  /** The chunking loop of `export_inventory`. */
  method Export(rows: seq<Row>, limit: nat) returns (chunks: seq<seq<Row>>)
    ensures Concat(chunks) == rows
    ensures Chunked(chunks, limit)
  {
    if rows == [] { return []; }
    var closed: seq<seq<Row>> := [];
    var chunk, component, n := [rows[0]], FirstComponent(rows[0].path), 1;
    while n < |rows|
      invariant 1 <= n <= |rows|
      invariant Concat(closed) + chunk == rows[..n]
      invariant Chunked(closed, limit) && ChunkOk(chunk, limit) && component == FirstComponent(chunk[0].path)
      invariant closed != [] ==> closed[|closed| - 1] != [] && Boundary(closed[|closed| - 1], chunk[0], limit)
    {
      var row := rows[n];
      var first := FirstComponent(row.path);
      assert rows[..n + 1] == rows[..n] + [row];
      if |chunk| >= limit || first != component {
        ConcatSnoc(closed, chunk);
        ChunkedSnoc(closed, chunk, limit);
        closed := closed + [chunk];
        chunk, component := [row], first;
      } else {
        chunk := chunk + [row];
      }
      n := n + 1;
    }
    assert rows[..n] == rows;
    ConcatSnoc(closed, chunk);
    ChunkedSnoc(closed, chunk, limit);
    chunks := closed + [chunk];
  }

  lemma NextChunk(chunks: seq<seq<Row>>, limit: nat)
    requires Chunked(chunks, limit) && chunks != []
    ensures |chunks[0]| <= |Concat(chunks)| && chunks[0] == Concat(chunks)[..|chunks[0]|]
    ensures |chunks[0]| < |Concat(chunks)| ==> Boundary(chunks[0], Concat(chunks)[|chunks[0]|], limit)
  {
    if |chunks| > 1 { assert chunks[1..][0] == chunks[1] && ChunkOk(chunks[1], limit); }
  }

  lemma FirstChunk(a: seq<seq<Row>>, b: seq<seq<Row>>, limit: nat)
    requires Chunked(a, limit) && Chunked(b, limit) && a != [] && b != [] && Concat(a) == Concat(b)
    ensures |a[0]| >= |b[0]|
  {
    NextChunk(a, limit);
    NextChunk(b, limit);
    assert forall k :: 0 <= k < |b[0]| ==> b[0][k] == Concat(a)[k];
    assert forall k :: 0 <= k < |a[0]| ==> a[0][k] == Concat(a)[k];
  }

  /** The rules fix the chunks: two chunkings of the same rows are the same. */
  lemma {:induction false} ChunkingUnique(a: seq<seq<Row>>, b: seq<seq<Row>>, limit: nat)
    requires Chunked(a, limit) && Chunked(b, limit) && Concat(a) == Concat(b)
    ensures a == b
    decreases |a|
  {
    if a != [] && b != [] {
      FirstChunk(a, b, limit);
      FirstChunk(b, a, limit);
      NextChunk(a, limit);
      NextChunk(b, limit);
      assert Concat(a[1..]) == Concat(a)[|a[0]|..] && Concat(b[1..]) == Concat(b)[|b[0]|..];
      ChunkingUnique(a[1..], b[1..], limit);
    }
  }

  /** `iter_rows`: every line of every chunk, in order. */
  method IterRows(chunks: seq<seq<Row>>) returns (rows: seq<Row>)
    ensures rows == Concat(chunks)
  {
    rows := [];
    var n := 0;
    while n < |chunks|
      invariant 0 <= n <= |chunks|
      invariant rows == Concat(chunks[..n])
    {
      var m := 0;
      while m < |chunks[n]|
        invariant 0 <= m <= |chunks[n]|
        invariant rows == Concat(chunks[..n]) + chunks[n][..m]
      {
        assert chunks[n][..m + 1] == chunks[n][..m] + [chunks[n][m]];
        rows := rows + [chunks[n][m]];
        m := m + 1;
      }
      assert chunks[n][..m] == chunks[n];
      ConcatSnoc(chunks[..n], chunks[n]);
      assert chunks[..n + 1] == chunks[..n] + [chunks[n]];
      n := n + 1;
    }
    assert chunks[..n] == chunks;
  }

  // ---------- the entries table ----------

  predicate Keyed(db: map<string, Row>) { forall p <- db :: db[p].path == p }

  predicate SortedRows(rows: seq<Row>) {
    forall i, j :: 0 <= i < j < |rows| ==> Less(rows[i].path, rows[j].path)
  }

  function Find(rows: seq<Row>, path: string): Option<Row>
    decreases |rows|
  {
    if rows == [] then None else if rows[0].path == path then Some(rows[0]) else Find(rows[1..], path)
  }

  /** SELECT ... ORDER BY path. */
  method SelectRows(db: map<string, Row>) returns (rows: seq<Row>)
    requires Keyed(db)
    ensures SortedRows(rows)
    ensures forall p :: Find(rows, p) == if p in db then Some(db[p]) else None
  {
    var ks := SortKeys(db.Keys);
    forall i | 0 <= i < |ks| ensures ks[i] in db { assert ks[i] in ks; }
    rows := seq(|ks|, i requires 0 <= i < |ks| => db[ks[i]]);
    forall p ensures Find(rows, p) == if p in db then Some(db[p]) else None {
      FindIn(rows, p);
      if p in db { var i :| 0 <= i < |ks| && ks[i] == p; assert rows[i].path == p; }
      if Find(rows, p).Some? { var i :| 0 <= i < |rows| && rows[i] == Find(rows, p).value; }
    }
  }

  lemma {:induction false} FindIn(rows: seq<Row>, path: string)
    ensures Find(rows, path).Some? <==> exists r :: r in rows && r.path == path
    ensures Find(rows, path).Some? ==> Find(rows, path).value in rows && Find(rows, path).value.path == path
    decreases |rows|
  {
    if rows != [] {
      FindIn(rows[1..], path);
      assert rows == [rows[0]] + rows[1..];
      assert rows[0] in rows;
    }
  }

  // ---------- extended attributes ----------

  datatype Norm = Norm(nonempty: map<string, string>, empty: seq<string>)

  function EmptyNames(v: map<string, string>): set<string> { set k | k in v && v[k] == EMPTY }

  ghost function Normalize(v: map<string, string>): Norm {
    Norm(map k | k in v && v[k] != EMPTY :: v[k], KeyOrder(EmptyNames(v)))
  }

  method NormalizeXattrs(v: map<string, string>) returns (n: Norm)
    ensures n == Normalize(v)
  {
    var names := SortKeys(EmptyNames(v));
    n := Norm(map k | k in v && v[k] != EMPTY :: v[k], names);
  }

  /** Normalization loses nothing: empty names are kept apart, not dropped. */
  lemma NormalizeInjective(v: map<string, string>, w: map<string, string>)
    ensures Normalize(v) == Normalize(w) <==> v == w
  {
    if Normalize(v) == Normalize(w) {
      assert forall k :: k in EmptyNames(v) <==> k in KeyOrder(EmptyNames(v));
      assert forall k :: k in EmptyNames(w) <==> k in KeyOrder(EmptyNames(w));
      forall k ensures k in v <==> k in w
               ensures k in v && k in w ==> v[k] == w[k]
      {
        assert k in EmptyNames(v) <==> k in EmptyNames(w);
        assert k in Normalize(v).nonempty <==> k in Normalize(w).nonempty;
        if k in Normalize(v).nonempty { assert Normalize(v).nonempty[k] == Normalize(w).nonempty[k]; }
      }
      assert v.Keys == w.Keys;
    }
  }
}
