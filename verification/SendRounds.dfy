/** What the fence buys the dispatch: how sends relate to claims and to operator clears. */
module SendRounds {
  import opened Wrappers
  import opened SendLedger
  import opened SendCrash
  import opened SendFence

  /** SEND_STARTED for visit `k` is in the text at offset `at`, newline included. */
  predicate StartedAt(f: Text, at: nat, k: nat) {
    at + 6 <= |f| && f[at + 3].Rest? && f[at..at + 6] == Line(Rec(k, SendStarted, f[at + 3].id))
  }

  /** ... and it is durable. */
  predicate DurableAt(s: Sys, at: nat, k: nat) { at + 6 <= s.synced && StartedAt(s.text, at, k) }

  lemma DurableStays(s: Sys, e: Event, at: nat, k: nat)
    requires SyncedFits(s) && DurableAt(s, at, k)
    ensures DurableAt(Step(s, e), at, k)
  {
    SyncedGrows(s, e);
    hide Step;
    var f, g := s.text, Step(s, e).text;
    assert g[at + 3] == g[..s.synced][at + 3] && f[at + 3] == f[..s.synced][at + 3];
    assert g[at..at + 6] == g[..s.synced][at..at + 6] && f[at..at + 6] == f[..s.synced][at..at + 6];
  }

  lemma StartedByAppend(f: Text, k: nat, rest: nat)
    ensures StartedAt(f + Line(Rec(k, SendStarted, rest)), |f|, k)
  {
    var line := Line(Rec(k, SendStarted, rest));
    assert (f + line)[|f|..|f| + 6] == line;
    assert (f + line)[|f| + 3] == line[3] == Rest(rest);
  }

  // ---------- every send answers one durable claim ----------

  predicate IsSend(e: Entry, r: nat, k: nat) { e.Send? && e.round == r && e.visit == k }

  /** Entry `i` is a claim by round `r` of visit `k` that no send has used before entry `j`. */
  predicate Answers(log: seq<Entry>, i: nat, j: nat, r: nat, k: nat) {
    && i < j <= |log|
    && log[i].Claim? && log[i].round == r && log[i].visit == k
    && forall m :: i < m < j ==> !IsSend(log[m], r, k)
  }

  /** The send at entry `j` answers a claim that was durable when it was sent. */
  ghost predicate Answered(log: seq<Entry>, j: nat)
    requires j < |log| && log[j].Send?
  {
    exists i: nat :: Answers(log, i, j, log[j].round, log[j].visit) && log[i].at + 6 <= log[j].durable
  }

  ghost predicate Held(log: seq<Entry>, r: nat, k: nat) { exists i: nat :: Answers(log, i, |log|, r, k) }

  ghost predicate LogInv(s: Sys) {
    && SyncedFits(s)
    && (forall i :: 0 <= i < |s.log| && s.log[i].Claim? ==> DurableAt(s, s.log[i].at, s.log[i].visit))
    && (forall j :: 0 <= j < |s.log| && s.log[j].Send? ==> Answered(s.log, j) && s.log[j].durable <= s.synced)
    && (forall r :: r in s.rounds && s.rounds[r].Holding? ==> Held(s.log, r, s.rounds[r].visit))
  }

  lemma AnswersExtend(log: seq<Entry>, e: Entry, i: nat, j: nat, r: nat, k: nat)
    requires Answers(log, i, j, r, k)
    ensures Answers(log + [e], i, j, r, k)
    ensures j == |log| && !IsSend(e, r, k) ==> Answers(log + [e], i, j + 1, r, k)
  {
  }

  lemma AnsweredExtend(log: seq<Entry>, e: Entry, j: nat)
    requires j < |log| && log[j].Send? && Answered(log, j)
    ensures Answered(log + [e], j)
  {
    var i: nat :| Answers(log, i, j, log[j].round, log[j].visit) && log[i].at + 6 <= log[j].durable;
    AnswersExtend(log, e, i, j, log[j].round, log[j].visit);
  }

  lemma HeldExtend(log: seq<Entry>, e: Entry, r: nat, k: nat)
    requires Held(log, r, k) && !IsSend(e, r, k)
    ensures Held(log + [e], r, k)
  {
    var i: nat :| Answers(log, i, |log|, r, k);
    AnswersExtend(log, e, i, |log|, r, k);
  }

  lemma LogInvDispatch(s: Sys, r: nat)
    requires LogInv(s) && RoundOf(s, r).Holding?
    ensures LogInv(Step(s, Dispatch(r)))
  {
    var k := RoundOf(s, r).visit;
    var e, t := Send(r, k, s.synced), Step(s, Dispatch(r));
    var i: nat :| Answers(s.log, i, |s.log|, r, k);
    AnswersExtend(s.log, e, i, |s.log|, r, k);
    assert DurableAt(s, s.log[i].at, k);
    assert t.log[|s.log|] == e && Answered(t.log, |s.log|);
    forall j | 0 <= j < |t.log| && t.log[j].Send? ensures Answered(t.log, j) && t.log[j].durable <= t.synced {
      if j < |s.log| { AnsweredExtend(s.log, e, j); }
    }
    forall q | q in t.rounds && t.rounds[q].Holding? ensures Held(t.log, q, t.rounds[q].visit) {
      HeldExtend(s.log, e, q, t.rounds[q].visit);
    }
  }

  lemma LogInvEntry(s: Sys, t: Sys, e: Entry)
    requires LogInv(s) && SyncedFits(t) && s.synced <= t.synced && t.log == s.log + [e] && !e.Send?
    requires forall i :: 0 <= i < |t.log| && t.log[i].Claim? ==> DurableAt(t, t.log[i].at, t.log[i].visit)
    requires forall r :: r in t.rounds && t.rounds[r].Holding? ==>
               (r in s.rounds && s.rounds[r] == t.rounds[r]) || (e.Claim? && e.round == r && e.visit == t.rounds[r].visit)
    ensures LogInv(t)
  {
    forall j | 0 <= j < |t.log| && t.log[j].Send? ensures Answered(t.log, j) && t.log[j].durable <= t.synced {
      AnsweredExtend(s.log, e, j);
    }
    forall r | r in t.rounds && t.rounds[r].Holding? ensures Held(t.log, r, t.rounds[r].visit) {
      if r in s.rounds && s.rounds[r] == t.rounds[r] {
        HeldExtend(s.log, e, r, t.rounds[r].visit);
      } else {
        assert Answers(t.log, |s.log|, |t.log|, r, t.rounds[r].visit);
      }
    }
  }

  lemma LogInvClaim(s: Sys, r: nat, c: Candidate, rest: nat, io: AppendIO)
    requires LogInv(s)
    ensures LogInv(Step(s, TryClaim(r, c, rest, io)))
  {
    hide Parse;
    var e, round := TryClaim(r, c, rest, io), RoundOf(s, r);
    var t := Step(s, e);
    SyncedGrows(s, e);
    forall i | 0 <= i < |s.log| && s.log[i].Claim? ensures DurableAt(t, s.log[i].at, s.log[i].visit) {
      DurableStays(s, e, s.log[i].at, s.log[i].visit);
    }
    if round.Saw? && DecidesSend(round.fence, c) && Start(s.text, round.visit, rest, io).1.Claimed? {
      StartedByAppend(s.text, round.visit, rest);
      assert t.synced == |t.text| == |s.text| + 6;
      LogInvEntry(s, t, Claim(r, round.visit, |s.text|));
    }
  }

  lemma LogInvStep(s: Sys, e: Event)
    requires LogInv(s)
    ensures LogInv(Step(s, e))
  {
    hide Parse, Append, Survives, StartedAt;
    SyncedGrows(s, e);
    forall i | 0 <= i < |s.log| && s.log[i].Claim? ensures DurableAt(Step(s, e), s.log[i].at, s.log[i].visit) {
      DurableStays(s, e, s.log[i].at, s.log[i].visit);
    }
    match e
    case TryClaim(r, c, rest, io) => LogInvClaim(s, r, c, rest, io);
    case Dispatch(r) => if RoundOf(s, r).Holding? { LogInvDispatch(s, r); }
    case ClearFence(v, euid, reasonGiven, rest, io) =>
      if Step(s, e) != s { LogInvEntry(s, Step(s, e), OperatorClear(v)); }
    case _ =>
  }

  lemma {:induction false} LogInvExec(s: Sys, run: seq<Event>)
    requires LogInv(s)
    ensures LogInv(Exec(s, run))
    decreases run
  {
    if run != [] {
      LogInvStep(s, run[0]);
      LogInvExec(Step(s, run[0]), run[1..]);
    }
  }

  /** Every send is preceded by a claim of the same round and visit that no other send uses, and whose
      SEND_STARTED line was durable when it was sent: it lies within what was synced then, and is
      still in the text after every later power loss. */
  lemma SendAnswersDurableClaim(run: seq<Event>, j: nat)
    requires j < |Exec(START, run).log| && Exec(START, run).log[j].Send?
    ensures var s := Exec(START, run);
            var r, k := s.log[j].round, s.log[j].visit;
            exists i: nat ::
              && Answers(s.log, i, j, r, k)
              && s.log[i].at + 6 <= s.log[j].durable <= s.synced
              && StartedAt(s.text, s.log[i].at, k)
              && forall m: nat :: m < |s.log| && Answers(s.log, i, m, r, k) && IsSend(s.log[m], r, k) ==> m == j
  {
    LogInvExec(START, run);
    var s := Exec(START, run);
    var r, k := s.log[j].round, s.log[j].visit;
    var i: nat :| Answers(s.log, i, j, r, k) && s.log[i].at + 6 <= s.log[j].durable;
    assert DurableAt(s, s.log[i].at, k);
  }

  // ---------- sends against clears ----------

  /** The rounds that hold an unused claim of `k`. */
  function Holders(s: Sys, k: nat): set<nat> {
    set r | r in s.rounds && s.rounds[r] == Holding(k)
  }

  ghost predicate CountInv(s: Sys, k: nat) {
    && Count(s.log, k, ASend) + |Holders(s, k)| <= Count(s.log, k, AClaim)
    && Count(s.log, k, AClaim) <= Count(s.log, k, AClear) + OpenClaims(s.log, k)
  }

  lemma SizeWithout(a: set<nat>, x: nat)
    ensures |a| == |a - {x}| + (if x in a then 1 else 0)
  {
    if x in a { assert a == (a - {x}) + {x}; } else { assert a - {x} == a; }
  }

  lemma HoldersUpdate(s: Sys, r: nat, round: Round, k: nat)
    ensures var t := s.(rounds := s.rounds[r := round]);
            |Holders(t, k)| == |Holders(s, k)|
              - (if RoundOf(s, r) == Holding(k) then 1 else 0)
              + (if round == Holding(k) then 1 else 0)
  {
    var t := s.(rounds := s.rounds[r := round]);
    assert forall x :: x != r ==> (x in Holders(t, k) <==> x in Holders(s, k));
    assert Holders(t, k) - {r} == Holders(s, k) - {r};
    SizeWithout(Holders(s, k), r);
    SizeWithout(Holders(t, k), r);
  }

  lemma HoldersDrop(s: Sys, r: nat, k: nat)
    ensures |Holders(s.(rounds := s.rounds - {r}), k)| <= |Holders(s, k)|
  {
    var t := s.(rounds := s.rounds - {r});
    assert Holders(s, k) == Holders(t, k) + (if r in Holders(s, k) then {r} else {});
  }

  lemma CountClaim(s: Sys, r: nat, c: Candidate, rest: nat, io: AppendIO, k: nat)
    requires CountInv(s, k) && FenceInv(Step(s, TryClaim(r, c, rest, io)), k)
    ensures CountInv(Step(s, TryClaim(r, c, rest, io)), k)
  {
    hide Parse, Append, Count, OpenClaims, Holders, FenceInv, DecidesSend;
    if RoundOf(s, r).Saw? {
      HoldersUpdate(s, r, Holding(RoundOf(s, r).visit), k);
      HoldersUpdate(s, r, Idle, k);
      LogGrows(s.log, Claim(r, RoundOf(s, r).visit, |s.text|));
      SameHolders(s.(rounds := s.rounds[r := Holding(RoundOf(s, r).visit)]), Step(s, TryClaim(r, c, rest, io)), k);
      SameHolders(s.(rounds := s.rounds[r := Idle]), Step(s, TryClaim(r, c, rest, io)), k);
    }
  }

  lemma CountDispatch(s: Sys, r: nat, k: nat)
    requires CountInv(s, k)
    ensures CountInv(Step(s, Dispatch(r)), k)
  {
    hide Count, OpenClaims, Holders;
    if RoundOf(s, r).Holding? {
      HoldersUpdate(s, r, Sent(RoundOf(s, r).visit), k);
      LogGrows(s.log, Send(r, RoundOf(s, r).visit, s.synced));
      SameHolders(s.(rounds := s.rounds[r := Sent(RoundOf(s, r).visit)]), Step(s, Dispatch(r)), k);
    }
  }

  lemma CountStep(s: Sys, e: Event, k: nat)
    requires CountInv(s, k) && FenceInv(s, k)
    ensures CountInv(Step(s, e), k)
  {
    hide Parse, Append, Count, OpenClaims, Holders;
    FenceStep(s, e, k);
    match e
    case QueryFence(r, v) => HoldersUpdate(s, r, Saw(v, Query(s.text, v)), k);
    case TryClaim(r, c, rest, io) => CountClaim(s, r, c, rest, io, k);
    case Dispatch(r) => CountDispatch(s, r, k);
    case Report(v, state, rest, io) => SameHolders(s, Step(s, e), k);
    case ClearFence(v, euid, reasonGiven, rest, io) =>
      LogGrows(s.log, OperatorClear(v));
      SameHolders(s, Step(s, e), k);
    case RoundDies(r) => HoldersDrop(s, r, k);
    case PowerLoss(keep, cut) => SameHolders(s, Step(s, e), k);
  }

  lemma SameHolders(s: Sys, t: Sys, k: nat)
    ensures s.rounds == t.rounds ==> Holders(s, k) == Holders(t, k)
  {
  }

  lemma {:induction false} CountExec(s: Sys, run: seq<Event>, k: nat)
    requires CountInv(s, k) && FenceInv(s, k)
    ensures CountInv(Exec(s, run), k)
    decreases run
  {
    if run != [] {
      CountStep(s, run[0], k);
      FenceStep(s, run[0], k);
      CountExec(Step(s, run[0]), run[1..], k);
    }
  }

  /** A node visit is sent at most once more often than the operator cleared it. */
  lemma SendsBoundedByClears(run: seq<Event>, k: nat)
    ensures Count(Exec(START, run).log, k, ASend) <= Count(Exec(START, run).log, k, AClear) + 1
  {
    CountExec(START, run, k);
    FenceExec(START, run, k);
  }

  /** Sends of a node visit since its last operator clear. */
  function OpenSends(log: seq<Entry>, k: nat): nat
    decreases log
  {
    if log == [] then 0
    else
      var before := OpenSends(log[..|log| - 1], k);
      match log[|log| - 1]
      case Claim(_, _, _) => before
      case Send(_, v, _) => if v == k then before + 1 else before
      case OperatorClear(v) => if v == k then 0 else before
  }

  lemma OpenSendsGrow(log: seq<Entry>, e: Entry, k: nat)
    ensures OpenSends(log + [e], k) ==
              match e
              case Claim(_, _, _) => OpenSends(log, k)
              case Send(_, v, _) => if v == k then OpenSends(log, k) + 1 else OpenSends(log, k)
              case OperatorClear(v) => if v == k then 0 else OpenSends(log, k)
  {
    assert (log + [e])[..|log|] == log;
  }

}
