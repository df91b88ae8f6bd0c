/** The order of strings by their characters, and sorted lists of distinct strings. */
module Order {

  predicate Less(a: string, b: string) {
    b != "" && (a == "" || a[0] < b[0] || (a[0] == b[0] && Less(a[1..], b[1..])))
  }

  /** One string comes before another when they agree up to a place where the first one ends or has the
      smaller character. */
  lemma {:induction false} LessSpelledOut(a: string, b: string)
    ensures Less(a, b) <==>
              exists n :: 0 <= n <= |a| && n < |b| && a[..n] == b[..n] && (n == |a| || a[n] < b[n])
    decreases |a|
  {
    if Less(a, b) {
      if a == "" || a[0] < b[0] {
        assert a[..0] == b[..0];
      } else {
        LessSpelledOut(a[1..], b[1..]);
        var n :| 0 <= n <= |a[1..]| && n < |b[1..]| && a[1..][..n] == b[1..][..n] && (n == |a[1..]| || a[1..][n] < b[1..][n]);
        assert a[..n + 1] == [a[0]] + a[1..][..n] && b[..n + 1] == [b[0]] + b[1..][..n];
      }
    }
    if n :| 0 <= n <= |a| && n < |b| && a[..n] == b[..n] && (n == |a| || a[n] < b[n]) {
      if n > 0 {
        LessSpelledOut(a[1..], b[1..]);
        assert a[0] == a[..n][0] && b[0] == b[..n][0];
        assert a[1..][..n - 1] == a[..n][1..] && b[1..][..n - 1] == b[..n][1..];
      }
    }
  }

  predicate Sorted(ks: seq<string>) { forall i, j :: 0 <= i < j < |ks| ==> Less(ks[i], ks[j]) }

  lemma {:induction false} LessTotal(a: string, b: string)
    ensures Less(a, b) || Less(b, a) || a == b
    ensures !(Less(a, b) && Less(b, a)) && !Less(a, a)
    decreases |a|
  {
    if a != "" {
      if b != "" && a[0] == b[0] {
        LessTotal(a[1..], b[1..]);
        assert a == [a[0]] + a[1..] && b == [b[0]] + b[1..];
      }
      LessTotal(a[1..], a[1..]);
    }
  }

  lemma {:induction false} LessTransitive(a: string, b: string, c: string)
    requires Less(a, b) && Less(b, c)
    ensures Less(a, c)
    decreases |a|
  {
    if a != "" && a[0] == b[0] && b[0] == c[0] { LessTransitive(a[1..], b[1..], c[1..]); }
  }

  lemma HeadLess(ks: seq<string>)
    requires Sorted(ks) && ks != []
    ensures Sorted(ks[1..]) && ks == [ks[0]] + ks[1..] && forall x <- ks[1..] :: Less(ks[0], x)
  {
  }

  function Insert(k: string, ks: seq<string>): (r: seq<string>)
    requires Sorted(ks)
    ensures Sorted(r) && forall x :: x in r <==> x == k || x in ks
  {
    if ks == [] then [k]
    else
      HeadLess(ks);
      if ks[0] == k then ks
      else if Less(k, ks[0]) then
        assert forall x <- ks[1..] :: Less(k, x) by {
          forall x <- ks[1..] ensures Less(k, x) { LessTransitive(k, ks[0], x); }
        }
        [k] + ks
      else
        var rest := Insert(k, ks[1..]);
        LessTotal(k, ks[0]);
        assert forall x <- rest :: Less(ks[0], x);
        [ks[0]] + rest
  }

  ghost function KeyOrder(s: set<string>): (ks: seq<string>)
    ensures Sorted(ks) && forall x :: x in ks <==> x in s
  {
    if s == {} then [] else var k :| k in s; Insert(k, KeyOrder(s - {k}))
  }

  /** A strictly sorted list is determined by its elements. */
  lemma {:induction false} SortedUnique(a: seq<string>, b: seq<string>)
    requires Sorted(a) && Sorted(b) && forall x :: x in a <==> x in b
    ensures a == b
    decreases |a|
  {
    if a != [] { assert a[0] in b; }
    if b != [] { assert b[0] in a; }
    if a != [] && b != [] {
      HeadLess(a);
      HeadLess(b);
      LessTotal(a[0], b[0]);
      assert a[0] == b[0];
      LessTotal(a[0], a[0]);
      forall x ensures x in a[1..] <==> x in b[1..] {
        assert x in a <==> x == a[0] || x in a[1..];
        assert x in b <==> x == b[0] || x in b[1..];
      }
      SortedUnique(a[1..], b[1..]);
    }
  }

  /** `sorted` of a set of keys. */
  method SortKeys(s: set<string>) returns (ks: seq<string>)
    ensures Sorted(ks) && ks == KeyOrder(s)
  {
    ks := [];
    var rest := s;
    while rest != {}
      invariant Sorted(ks)
      invariant rest <= s && forall x :: x in ks <==> x in s - rest
      decreases |rest|
    {
      var k :| k in rest;
      ks, rest := Insert(k, ks), rest - {k};
    }
    SortedUnique(ks, KeyOrder(s));
  }
}
