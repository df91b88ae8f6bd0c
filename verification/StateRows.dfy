/** How deep the rows of a document diff go, and in which order they come. */
module StateRows {
  import opened Wrappers
  import opened Order
  import opened StateDiff
  import opened StatePatch

  // ---------- depth ----------

  /** A replacement is of unequal values that are not both lists and not both objects. */
  predicate Deep(r: Row) {
    r.Replace? ==> r.before != r.after && !(r.before.Arr? && r.after.Arr?) && !(r.before.Obj? && r.after.Obj?)
  }

  /** The rows go as deep as the two documents have the same shape. */
  lemma {:induction false} RowsAreDeep(b: Json, a: Json, path: string, r: Row)
    requires r in Diff(b, a, path)
    ensures Deep(r)
    decreases b, 1
  {
    if SameShape(b, a) {
      var t := RowsIn(b, a, path, Tokens(b, a), r);
      if At(b, t).Some? && At(a, t).Some? { RowsAreDeep(At(b, t).value, At(a, t).value, Child(path, t), r); }
    }
  }

  // ---------- order ----------

  /** Keys in the order of their characters, indices in their order. */
  predicate Earlier(t: Token, u: Token) {
    || (t.Key? && u.Key? && Less(t.name, u.name))
    || (t.Index? && u.Index? && t.i < u.i)
  }

  /** Both pointers go into children of the same container, the first not into a later one. */
  ghost predicate InTurn(path: string, p: string, q: string) {
    exists t, u :: (t == u || Earlier(t, u)) && Extends(Child(path, t), p) && Extends(Child(path, u), q)
  }

  predicate Ascending(ts: seq<Token>) { forall i, j :: 0 <= i < j < |ts| ==> Earlier(ts[i], ts[j]) }

  lemma TokensAscend(b: Json, a: Json)
    requires SameShape(b, a)
    ensures Ascending(Tokens(b, a))
  {
  }

  ghost predicate RowsInTurn(path: string, rows: seq<Row>) {
    forall i, j :: 0 <= i < j < |rows| ==> InTurn(path, rows[i].path, rows[j].path)
  }

  /** Rows of one child, then rows of later children. */
  lemma InTurnConcat(path: string, t: Token, x: seq<Row>, y: seq<Row>)
    requires forall r <- x :: Extends(Child(path, t), r.path)
    requires forall r <- y :: exists u :: Earlier(t, u) && Extends(Child(path, u), r.path)
    requires RowsInTurn(path, y)
    ensures RowsInTurn(path, x + y)
  {
    hide Extends, Child, Earlier;
    var z := x + y;
    forall i, j | 0 <= i < j < |z| ensures InTurn(path, z[i].path, z[j].path) {
      if i < |x| {
        assert z[i] in x;
        if j < |x| { assert z[j] in x; } else { assert z[j] in y; }
      }
    }
  }

  lemma {:induction false} AllInTurn(b: Json, a: Json, path: string, ts: seq<Token>)
    requires Ascending(ts)
    ensures RowsInTurn(path, DiffAll(b, a, path, ts))
    decreases |ts|
  {
    hide Extends, Child, Earlier, DiffAt, InTurn;
    if ts != [] {
      var t, rest := ts[0], ts[1..];
      AllInTurn(b, a, path, rest);
      var x, y := DiffAt(b, a, path, t), DiffAll(b, a, path, rest);
      forall r <- x ensures Extends(Child(path, t), r.path) { DiffAtExtends(b, a, path, t, r); }
      forall r <- y ensures exists u :: Earlier(t, u) && Extends(Child(path, u), r.path) {
        var u := RowsIn(b, a, path, rest, r);
        var n :| 0 <= n < |rest| && rest[n] == u;
        assert ts[n + 1] == u && Earlier(ts[0], ts[n + 1]);
      }
      InTurnConcat(path, t, x, y);
    }
  }

  /** At every container the rows come in the order of its keys or indices. */
  lemma RowsInOrder(b: Json, a: Json, path: string)
    requires SameShape(b, a)
    ensures RowsInTurn(path, Diff(b, a, path))
  {
    TokensAscend(b, a);
    AllInTurn(b, a, path, Tokens(b, a));
  }
}
