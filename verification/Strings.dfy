/** Splitting a text at every occurrence of one character. */
module Strings {

  function SplitOn(s: string, c: char): (parts: seq<string>)
    ensures parts != []
  {
    if s == "" then [""]
    else
      var rest := SplitOn(s[1..], c);
      if s[0] == c then [""] + rest else [[s[0]] + rest[0]] + rest[1..]
  }

  /** The separator closes the last part of what stands before it. */
  lemma {:induction false} SplitPlain(a: string, c: char, tail: string)
    requires c !in a
    ensures SplitOn(a, c) == [a]
    ensures SplitOn(a + [c] + tail, c) == [a] + SplitOn(tail, c)
    decreases |a|
  {
    var whole := a + [c] + tail;
    if a == "" {
      assert whole == [c] + tail && whole[1..] == tail;
    } else {
      SplitPlain(a[1..], c, tail);
      assert whole[1..] == a[1..] + [c] + tail;
      assert a == [a[0]] + a[1..];
    }
  }

  function Front(parts: seq<string>): seq<string>
    requires parts != []
  {
    parts[..|parts| - 1]
  }

  function Last(parts: seq<string>): string
    requires parts != []
  {
    parts[|parts| - 1]
  }

  /** The parts of two texts in a row: the part that is open goes on. */
  function Glue(xs: seq<string>, ys: seq<string>): (zs: seq<string>)
    requires xs != [] && ys != []
    ensures zs != []
  {
    Front(xs) + [Last(xs) + ys[0]] + ys[1..]
  }

  lemma GlueSeparator(xs: seq<string>, ys: seq<string>)
    requires xs != [] && ys != []
    ensures Glue([""] + xs, ys) == [""] + Glue(xs, ys)
  {
    assert Front([""] + xs) == [""] + Front(xs);
  }

  lemma GlueCharacter(x: char, xs: seq<string>, ys: seq<string>)
    requires xs != [] && ys != []
    ensures Glue([[x] + xs[0]] + xs[1..], ys) == [[x] + Glue(xs, ys)[0]] + Glue(xs, ys)[1..]
  {
    var more := [[x] + xs[0]] + xs[1..];
    if |xs| == 1 {
      assert Front(more) == [] && Front(xs) == [];
      assert [x] + (xs[0] + ys[0]) == [x] + xs[0] + ys[0];
    } else {
      assert Front(more) == [[x] + xs[0]] + Front(xs)[1..];
      assert Glue(xs, ys)[0] == xs[0];
      assert Glue(xs, ys)[1..] == Front(xs)[1..] + [Last(xs) + ys[0]] + ys[1..];
    }
  }

  /** Splitting a text that comes in two pieces. */
  lemma {:induction false} SplitConcat(x: string, y: string, c: char)
    ensures SplitOn(x + y, c) == Glue(SplitOn(x, c), SplitOn(y, c))
    decreases |x|
  {
    var ys := SplitOn(y, c);
    if x == "" {
      assert x + y == y;
      assert "" + ys[0] == ys[0] && ys == [ys[0]] + ys[1..];
    } else {
      assert (x + y)[1..] == x[1..] + y && (x + y)[0] == x[0];
      SplitConcat(x[1..], y, c);
      GlueSeparator(SplitOn(x[1..], c), ys);
      GlueCharacter(x[0], SplitOn(x[1..], c), ys);
      hide Glue;
    }
  }
}
