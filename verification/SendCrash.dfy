/** What a power loss can leave of the ledger: the synced bytes, and any part of the rest. */
module SendCrash {
  import opened Wrappers
  import opened SendLedger

  /** The file cut off after `keep` tokens, the next one perhaps in part. */
  predicate Kept(f: Text, synced: nat, keep: nat, cut: bool) {
    synced <= keep <= |f| && (cut ==> keep < |f| && f[keep] != Newline)
  }

  function Remains(f: Text, keep: nat, cut: bool): Text
    requires keep <= |f|
  {
    f[..keep] + if cut then [Fragment] else []
  }

  /** `t` can be what is left of `f`, of which the first `synced` tokens are durable. */
  ghost predicate Survives(f: Text, synced: nat, t: Text) {
    exists keep: nat, cut: bool :: Kept(f, synced, keep, cut) && t == Remains(f, keep, cut)
  }

  lemma SurvivesItself(f: Text, synced: nat)
    requires synced <= |f|
    ensures Survives(f, synced, f)
  {
    assert Kept(f, synced, |f|, false) && f == Remains(f, |f|, false);
  }

  lemma SyncedSurvivesAlone(f: Text, t: Text)
    requires Survives(f, |f|, t)
    ensures t == f
  {
    var keep: nat, cut: bool :| Kept(f, |f|, keep, cut) && t == Remains(f, keep, cut);
    assert f[..keep] == f;
  }

  lemma SurvivorKeepsSynced(f: Text, synced: nat, t: Text)
    requires Survives(f, synced, t)
    ensures synced <= |t| && synced <= |f| && t[..synced] == f[..synced]
  {
    var keep: nat, cut: bool :| Kept(f, synced, keep, cut) && t == Remains(f, keep, cut);
    assert t[..synced] == f[..keep][..synced];
  }

  /** A loss after a loss leaves nothing that one loss could not have left. */
  lemma SurvivorOfSurvivor(f: Text, synced: nat, t: Text, u: Text)
    requires Survives(f, synced, t) && Survives(t, synced, u)
    ensures Survives(f, synced, u)
  {
    var keep: nat, cut: bool :| Kept(f, synced, keep, cut) && t == Remains(f, keep, cut);
    var keep2: nat, cut2: bool :| Kept(t, synced, keep2, cut2) && u == Remains(t, keep2, cut2);
    if keep2 > keep {
      assert u == t && Kept(f, synced, keep, cut);
    } else {
      assert t[..keep2] == f[..keep2];
      if cut2 {
        assert keep2 < keep ==> t[keep2] == f[keep2];
        assert Kept(f, synced, keep2, true) && u == Remains(f, keep2, true);
      } else {
        assert Kept(f, synced, keep2, false) && u == Remains(f, keep2, false);
      }
    }
  }

  lemma MoreSynced(f: Text, synced: nat, more: nat, t: Text)
    requires synced <= more && Survives(f, more, t)
    ensures Survives(f, synced, t)
  {
    var keep: nat, cut: bool :| Kept(f, more, keep, cut) && t == Remains(f, keep, cut);
    assert Kept(f, synced, keep, cut);
  }

  /** What a loss during or after one append leaves: something the old text could have left, or the old
      text with a part of the new line. */
  lemma SurvivorOfAppend(f: Text, synced: nat, r: Rec, io: AppendIO, t: Text)
    requires synced <= |f| && Survives(Append(f, r, io), synced, t)
    ensures Survives(f, synced, t) || t == f + Line(r) || exists n: nat, c: bool :: n <= 5 && t == f + Torn(r, n, c)
  {
    var g := Append(f, r, io);
    AppendEffect(f, r, io);
    var keep: nat, cut: bool :| Kept(g, synced, keep, cut) && t == Remains(g, keep, cut);
    if keep < |f| {
      assert g[..keep] == f[..keep] && g[keep] == f[keep];
      assert Kept(f, synced, keep, cut) && t == Remains(f, keep, cut);
    } else {
      PartOfLine(f, r, io, keep - |f|, cut);
    }
  }

  lemma PartOfLine(f: Text, r: Rec, io: AppendIO, m: nat, cut: bool)
    requires |f| + m <= |Append(f, r, io)|
    requires cut ==> |f| + m < |Append(f, r, io)| && Append(f, r, io)[|f| + m] != Newline
    ensures var t := Remains(Append(f, r, io), |f| + m, cut);
      t == f + Line(r) || exists n: nat, c: bool :: n <= 5 && t == f + Torn(r, n, c)
  {
    var g := Append(f, r, io);
    var t := Remains(g, |f| + m, cut);
    if g == f + Line(r) {
      assert g[..|f| + m] == f + Line(r)[..m];
      if m == 6 {
        assert t == f + Line(r);
      } else {
        assert Line(r)[..m] == Encode(r)[..m];
        assert m == 5 ==> g[|f| + m] == Line(r)[5] == Newline;
        assert t == f + Torn(r, m, cut);
      }
    } else {
      var n, c := io.n, io.cut;
      assert g == f + Torn(r, n, c);
      assert g[..|f| + m] == f + Torn(r, n, c)[..m];
      if m <= n {
        assert Torn(r, n, c)[..m] == Encode(r)[..m];
        assert t == f + Torn(r, m, cut);
      } else {
        assert t == f + Torn(r, n, c);
      }
    }
  }

  /** If what is left can still be read, then it reads like something the old text could have left, or
      like the old text with at most the new record on top. */
  lemma SurvivorReads(f: Text, synced: nat, r: Rec, io: AppendIO, t: Text)
    requires synced <= |f| && Survives(Append(f, r, io), synced, t) && Parse(t).Trusted()
    ensures Survives(f, synced, t)
            || (Parse(f).Trusted() && Parse(t) == Parse(f))
            || (Parse(f).Trusted() && Parse(t) == Parse(f).(latest := Parse(f).latest[r.visit := r.state]))
  {
    hide Parse, Tail;
    SurvivorOfAppend(f, synced, r, io, t);
    ParseAppend(f, r);
    if n: nat, c: bool :| n <= 5 && t == f + Torn(r, n, c) { ParseTorn(f, r, n, c); }
  }

  // ---------- corruption that is synced ----------

  lemma {:induction false} EndedGrows(p: Text, more: Text)
    ensures Ended(p) <= Ended(p + more)
    decreases |more|
  {
    if more == [] {
      assert p + more == p;
    } else {
      var init := more[..|more| - 1];
      assert (p + more)[..|p + more| - 1] == p + init;
      EndedGrows(p, init);
    }
  }

  lemma {:induction false} CorruptGrows(lines: seq<Text>, n: nat)
    requires n <= |lines|
    ensures Fold(lines[..n]).corrupt <= Fold(lines).corrupt
    decreases |lines|
  {
    if n < |lines| {
      var init := lines[..|lines| - 1];
      assert init[..n] == lines[..n];
      CorruptGrows(init, n);
    } else {
      assert lines[..n] == lines;
    }
  }

  /** Corrupt lines that have ended stay corrupt, whatever follows. */
  lemma CorruptStays(p: Text, more: Text)
    requires Tail(p) == [] && !Parse(p).Trusted()
    ensures !Parse(p + more).Trusted()
  {
    ParseSplit(p);
    ParseSplit(p + more);
    EndedGrows(p, more);
    CorruptGrows(Ended(p + more), |Ended(p)|);
    assert Ended(p + more)[..|Ended(p)|] == Ended(p);
  }
}
