/** Exactly when a node visit is sent at most once between operator clears. */
module SendBudget {
  import opened Wrappers
  import opened SendLedger
  import opened SendCrash
  import opened SendFence
  import opened SendRounds

  // ---------- the condition ----------

  /** Some part of the file that a power loss may leave, the whole of it included, lets a round claim. */
  ghost predicate Claimable(s: Sys, k: nat) {
    exists t :: Survives(s.text, s.synced, t) && Parse(t).Trusted() && Parse(t).Of(k) == NotSent
  }

  /** Sends since the last clear, claims still held, and one more if the visit can be claimed. */
  ghost function Budget(s: Sys, k: nat): nat {
    OpenSends(s.log, k) + |Holders(s, k)| + if Claimable(s, k) then 1 else 0
  }

  /** No clear of `k` completes, or leaves any part of its record, while a round holds a claim of it.
      Clears that are refused do not matter. */
  predicate ClearSafely(s: Sys, e: Event, k: nat) { Clears(s, e, k) ==> Holders(s, k) == {} }

  predicate ClearsSafely(s: Sys, run: seq<Event>, k: nat)
    decreases run
  {
    run == [] || (ClearSafely(s, run[0], k) && ClearsSafely(Step(s, run[0]), run[1..], k))
  }

  // ---------- what can be claimed ----------

  /** No step but a clear of `k` makes it claimable. */
  lemma ClaimableStep(s: Sys, e: Event, k: nat)
    requires SyncedFits(s) && !Clears(s, e, k)
    ensures Claimable(Step(s, e), k) ==> Claimable(s, k)
  {
    hide Parse, Survives;
    SurvivesItself(s.text, s.synced);
    StepWrites(s, e);
    if t :| Survives(Step(s, e).text, Step(s, e).synced, t) && Parse(t).Trusted() && Parse(t).Of(k) == NotSent {
      if e.ClearFence? && e.visit == k {
        MoreSynced(s.text, s.synced, Step(s, e).synced, t);
      } else {
        SurvivorsOfStep(s, e, t);
      }
    }
  }

  lemma Unclaimable(s: Sys, k: nat)
    requires FencedOff(s, k)
    ensures !Claimable(s, k)
  {
  }

  lemma NowClaimable(s: Sys, k: nat)
    requires SyncedFits(s) && Parse(s.text).Trusted() && Parse(s.text).Of(k) == NotSent
    ensures Claimable(s, k)
  {
    SurvivesItself(s.text, s.synced);
  }

  // ---------- the budget is kept ----------

  lemma BudgetClaim(s: Sys, r: nat, c: Candidate, rest: nat, io: AppendIO, k: nat)
    requires SyncedFits(s) && Budget(s, k) <= 1
    ensures Budget(Step(s, TryClaim(r, c, rest, io)), k) <= 1
  {
    hide Parse, Append, Survives, OpenSends, Holders, Claimable, FencedOff;
    var e, round := TryClaim(r, c, rest, io), RoundOf(s, r);
    var t := Step(s, e);
    ClaimableStep(s, e, k);
    if round.Saw? {
      HoldersUpdate(s, r, Holding(round.visit), k);
      HoldersUpdate(s, r, Idle, k);
      SameHolders(s.(rounds := s.rounds[r := Holding(round.visit)]), t, k);
      SameHolders(s.(rounds := s.rounds[r := Idle]), t, k);
      OpenSendsGrow(s.log, Claim(r, round.visit, |s.text|), k);
      if DecidesSend(round.fence, c) && Start(s.text, round.visit, rest, io).1.Claimed? && round.visit == k {
        NowClaimable(s, k);
        FencedByClaim(s, r, c, rest, io);
        FencedSame(Wrote(s, Start(s.text, k, rest, io).0, io), t, k);
        Unclaimable(t, k);
      }
    }
  }

  lemma BudgetDispatch(s: Sys, r: nat, k: nat)
    requires SyncedFits(s)
    ensures Budget(Step(s, Dispatch(r)), k) <= Budget(s, k)
  {
    hide Parse, Survives, OpenSends, Holders, Claimable;
    var t := Step(s, Dispatch(r));
    ClaimableStep(s, Dispatch(r), k);
    if RoundOf(s, r).Holding? {
      var v := RoundOf(s, r).visit;
      HoldersUpdate(s, r, Sent(v), k);
      OpenSendsGrow(s.log, Send(r, v, s.synced), k);
      SameHolders(s.(rounds := s.rounds[r := Sent(v)]), t, k);
    }
  }

  lemma BudgetClear(s: Sys, v: nat, euid: nat, reasonGiven: bool, rest: nat, io: AppendIO, k: nat)
    requires SyncedFits(s) && Budget(s, k) <= 1 && ClearSafely(s, ClearFence(v, euid, reasonGiven, rest, io), k)
    ensures Budget(Step(s, ClearFence(v, euid, reasonGiven, rest, io)), k) <= 1
  {
    hide Parse, Append, Survives, OpenSends, Holders, Claimable;
    var e := ClearFence(v, euid, reasonGiven, rest, io);
    SameHolders(s, Step(s, e), k);
    OpenSendsGrow(s.log, OperatorClear(v), k);
    if !Clears(s, e, k) { ClaimableStep(s, e, k); }
  }

  lemma BudgetStep(s: Sys, e: Event, k: nat)
    requires SyncedFits(s) && Budget(s, k) <= 1 && ClearSafely(s, e, k)
    ensures Budget(Step(s, e), k) <= 1
  {
    hide Parse, Append, Survives, OpenSends, Holders, Claimable;
    match e
    case TryClaim(r, c, rest, io) => BudgetClaim(s, r, c, rest, io, k);
    case Dispatch(r) => BudgetDispatch(s, r, k);
    case ClearFence(v, euid, reasonGiven, rest, io) => BudgetClear(s, v, euid, reasonGiven, rest, io, k);
    case QueryFence(r, v) => ClaimableStep(s, e, k); HoldersUpdate(s, r, Saw(v, Query(s.text, v)), k);
    case RoundDies(r) => ClaimableStep(s, e, k); HoldersDrop(s, r, k);
    case Report(v, state, rest, io) => ClaimableStep(s, e, k); SameHolders(s, Step(s, e), k);
    case PowerLoss(keep, cut) => ClaimableStep(s, e, k); SameHolders(s, Step(s, e), k);
  }

  lemma {:induction false} BudgetExec(s: Sys, run: seq<Event>, k: nat)
    requires SyncedFits(s) && Budget(s, k) <= 1 && ClearsSafely(s, run, k)
    ensures Budget(Exec(s, run), k) <= 1
    decreases run
  {
    if run != [] {
      SyncedGrows(s, run[0]);
      BudgetStep(s, run[0], k);
      BudgetExec(Step(s, run[0]), run[1..], k);
    }
  }

  // ---------- an overdrawn budget is spent ----------

  predicate NoClearEvent(run: seq<Event>) { forall e <- run :: !e.ClearFence? }

  lemma {:induction false} NoClearIsSafe(s: Sys, run: seq<Event>, k: nat)
    requires NoClearEvent(run)
    ensures ClearsSafely(s, run, k)
    decreases run
  {
    if run != [] { NoClearIsSafe(Step(s, run[0]), run[1..], k); }
  }

  lemma ExecOne(s: Sys, e: Event, more: seq<Event>)
    ensures Exec(s, [e] + more) == Exec(Step(s, e), more)
  {
    assert ([e] + more)[1..] == more;
  }

  /** A held claim can be sent. */
  lemma SendHeld(s: Sys, r: nat, k: nat)
    requires r in Holders(s, k)
    ensures var t := Step(s, Dispatch(r));
      && OpenSends(t.log, k) == OpenSends(s.log, k) + 1
      && |Holders(t, k)| == |Holders(s, k)| - 1
      && t.text == s.text && t.synced == s.synced
  {
    hide OpenSends;
    var t := Step(s, Dispatch(r));
    HoldersUpdate(s, r, Sent(k), k);
    OpenSendsGrow(s.log, Send(r, k, s.synced), k);
    SameHolders(s.(rounds := s.rounds[r := Sent(k)]), t, k);
  }

  /** All held claims can be sent. */
  lemma {:induction false} SendAllHeld(s: Sys, k: nat) returns (run: seq<Event>)
    ensures NoClearEvent(run)
    ensures var t := Exec(s, run);
      OpenSends(t.log, k) == OpenSends(s.log, k) + |Holders(s, k)| && t.text == s.text && t.synced == s.synced
    decreases |Holders(s, k)|
  {
    if Holders(s, k) == {} {
      run := [];
    } else {
      var r :| r in Holders(s, k);
      SendHeld(s, r, k);
      var more := SendAllHeld(Step(s, Dispatch(r)), k);
      run := [Dispatch(r)] + more;
      hide Step, Holders, OpenSends;
      ExecOne(s, Dispatch(r), more);
    }
  }

  const FREE := Candidate(false, false, true, Resolved(0))

  /** A claimable visit can be claimed and sent once more: by a new round, if need be after the power
      loss that leaves it claimable. */
  lemma ClaimAndSend(s: Sys, k: nat) returns (run: seq<Event>)
    requires SyncedFits(s) && Parse(s.text).Trusted() && Parse(s.text).Of(k) == NotSent
    ensures NoClearEvent(run)
    ensures OpenSends(Exec(s, run).log, k) == OpenSends(s.log, k) + 1
  {
    hide Parse, OpenSends;
    var a, b, c := QueryFence(0, k), TryClaim(0, FREE, 0, Written), Dispatch(0);
    var s1 := Step(s, a);
    assert RoundOf(s1, 0) == Saw(k, Fenced(NotSent));
    var s2 := Step(s1, b);
    OpenSendsGrow(s1.log, Claim(0, k, |s1.text|), k);
    assert RoundOf(s2, 0) == Holding(k);
    OpenSendsGrow(s2.log, Send(0, k, s2.synced), k);
    run := [a, b, c];
    ExecThree(s, a, b, c);
  }

  lemma ExecThree(s: Sys, a: Event, b: Event, c: Event)
    ensures Exec(s, [a, b, c]) == Step(Step(Step(s, a), b), c)
  {
    hide Step;
    ExecOne(s, a, [b, c]);
    assert [a] + [b, c] == [a, b, c];
    ExecTwo(Step(s, a), b, c);
  }

  lemma {:induction false} ExecConcat(s: Sys, a: seq<Event>, b: seq<Event>)
    ensures Exec(s, a + b) == Exec(Exec(s, a), b)
    decreases a
  {
    if a == [] {
      assert a + b == b;
    } else {
      assert (a + b)[1..] == a[1..] + b;
      ExecConcat(Step(s, a[0]), a[1..], b);
    }
  }

  /** The power loss that leaves a claimable ledger. */
  lemma LoseToClaimable(s: Sys, k: nat) returns (e: Event)
    requires SyncedFits(s) && Claimable(s, k)
    ensures e.PowerLoss?
    ensures var t := Step(s, e);
      SyncedFits(t) && t.log == s.log && Parse(t.text).Trusted() && Parse(t.text).Of(k) == NotSent
  {
    hide Parse;
    var t :| Survives(s.text, s.synced, t) && Parse(t).Trusted() && Parse(t).Of(k) == NotSent;
    var keep: nat, cut: bool :| Kept(s.text, s.synced, keep, cut) && t == Remains(s.text, keep, cut);
    e := PowerLoss(keep, cut);
  }

  /** The whole budget can be spent without any clear. */
  lemma SpendAll(s: Sys, k: nat) returns (run: seq<Event>)
    requires SyncedFits(s)
    ensures NoClearEvent(run)
    ensures OpenSends(Exec(s, run).log, k) == Budget(s, k)
  {
    hide Parse, Survives, OpenSends, Holders, Step, Exec;
    run := SendAllHeld(s, k);
    if Claimable(s, k) {
      var t := Exec(s, run);
      ClaimableSame(s, t, k);
      var e := LoseToClaimable(t, k);
      var last := ClaimAndSend(Step(t, e), k);
      ExecOne(t, e, last);
      ExecConcat(s, run, [e] + last);
      run := run + ([e] + last);
    }
  }

  lemma ClaimableSame(s: Sys, t: Sys, k: nat)
    requires s.text == t.text && s.synced == t.synced
    ensures Claimable(s, k) == Claimable(t, k)
  {
  }

  // ---------- the main statements ----------

  /** From any state with its durable part in the file: every continuation whose clears of `k` are safe
      sends it at most once between clears, exactly when the budget is at most one. */
  lemma OneSendExactly(s: Sys, k: nat)
    requires SyncedFits(s)
    ensures (forall more :: ClearsSafely(s, more, k) ==> OpenSends(Exec(s, more).log, k) <= 1) <==> Budget(s, k) <= 1
  {
    hide Exec, Step, OpenSends, Holders, Claimable, ClearsSafely;
    if Budget(s, k) <= 1 {
      forall more | ClearsSafely(s, more, k) ensures OpenSends(Exec(s, more).log, k) <= 1 { BudgetExec(s, more, k); }
    } else {
      var run := SpendAll(s, k);
      NoClearIsSafe(s, run, k);
    }
  }

  /** If no clear of a visit completes while a round holds a claim of it, the visit is sent at most once
      between clears. */
  lemma OneSendBetweenSafeClears(run: seq<Event>, k: nat)
    requires ClearsSafely(START, run, k)
    ensures OpenSends(Exec(START, run).log, k) <= 1
  {
    assert Holders(START, k) == {};
    BudgetExec(START, run, k);
  }

  /** At the moment of a clear that changes the file, in every reachable state: what follows is sent at
      most once before the next clear exactly when the claims still held, with one more if the visit
      can now be claimed, are at most one. */
  lemma ClearExactly(run: seq<Event>, e: Event, k: nat)
    requires Clears(Exec(START, run), e, k)
    ensures var s := Exec(START, run); var t := Step(s, e);
      (forall more :: ClearsSafely(t, more, k) ==> OpenSends(Exec(t, more).log, k) <= 1)
      <==> |Holders(s, k)| + (if Claimable(t, k) then 1 else 0) <= 1
  {
    hide Exec, OpenSends, Holders, Claimable, ClearsSafely, Clear;
    var s := Exec(START, run);
    SyncedLinesReached(run);
    SyncedGrows(s, e);
    SameHolders(s, Step(s, e), k);
    OpenSendsGrow(s.log, OperatorClear(k), k);
    OneSendExactly(Step(s, e), k);
  }

  /** A clear that returns, on a ledger whose last line has ended, makes the visit claimable: then the
      condition is that no round holds a claim of it. */
  lemma CleanClearExactly(run: seq<Event>, k: nat, rest: nat)
    requires var s := Exec(START, run);
      Parse(s.text).Trusted() && Parse(s.text).Of(k) != NotSent && Tail(s.text) == []
    ensures var s := Exec(START, run); var t := Step(s, ClearFence(k, 0, true, rest, Written));
      (forall more :: ClearsSafely(t, more, k) ==> OpenSends(Exec(t, more).log, k) <= 1) <==> Holders(s, k) == {}
  {
    hide Exec, OpenSends, Holders, ClearsSafely, Parse, Tail, Claimable;
    var s, e := Exec(START, run), ClearFence(k, 0, true, rest, Written);
    ParseAppend(s.text, Rec(k, NotSent, rest));
    SyncedLinesReached(run);
    SyncedGrows(s, e);
    assert Step(s, e).text == s.text + Line(Rec(k, NotSent, rest));
    NowClaimable(Step(s, e), k);
    ClearExactly(run, e, k);
  }

  /** One round has queried and claimed. */
  function Claiming(k: nat, rest: nat): seq<Event> { [QueryFence(0, k), TryClaim(0, FREE, rest, Written)] }

  lemma HolderReached(k: nat, rest: nat)
    ensures var s := Exec(START, Claiming(k, rest));
      0 in Holders(s, k) && Parse(s.text).Trusted() && Parse(s.text).Of(k) == SendStarted && Tail(s.text) == []
  {
    ExecTwo(START, QueryFence(0, k), TryClaim(0, FREE, rest, Written));
    var s1 := Step(START, QueryFence(0, k));
    ClaimReadsBack(s1.text, k, rest, Written);
    AppendNewline([] + Encode(Rec(k, SendStarted, rest)));
    assert [] + Line(Rec(k, SendStarted, rest)) == [] + Encode(Rec(k, SendStarted, rest)) + [Newline];
  }

  /** From the start, in six steps and with one complete clear: two sends with no clear between them. */
  lemma UnsafeClearSendsTwice(k: nat, rest: nat)
    ensures var s := Exec(START, Claiming(k, rest));
      var t := Step(s, ClearFence(k, 0, true, rest, Written));
      exists more :: ClearsSafely(t, more, k) && OpenSends(Exec(t, more).log, k) > 1
  {
    HolderReached(k, rest);
    hide Exec, OpenSends, Holders, ClearsSafely, Parse, Tail, Step;
    CleanClearExactly(Claiming(k, rest), k, rest);
  }

  /** A refused clear beside a held claim is safe. */
  lemma RefusedClearIsSafe(s: Sys, k: nat, euid: nat, reasonGiven: bool, rest: nat, io: AppendIO)
    requires euid != 0 || !reasonGiven
    ensures ClearSafely(s, ClearFence(k, euid, reasonGiven, rest, io), k)
  {
  }
}
