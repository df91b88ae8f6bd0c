/** Any number of overlapping dispatch rounds over one send ledger, on a machine that can lose power. */
module SendFence {
  import opened Wrappers
  import opened SendLedger
  import opened SendCrash

  // ---------- decision ----------

  /** What a round knows about a candidate besides the fence state. */
  datatype Candidate = Candidate(
    quarantined: bool, sentThisRound: bool, capacityLeft: bool, resolution: Resolution)

  datatype Resolution = Resolved(agent: nat) | Unresolved

  /** `decide` answers SEND. */
  predicate DecidesSend(fence: Fence, c: Candidate) {
    && fence == Fenced(NotSent)
    && !c.quarantined && !c.sentThisRound && c.capacityLeft && c.resolution.Resolved?
  }

  // ---------- the system ----------

  datatype Round =
    | Idle
    | Saw(visit: nat, fence: Fence)          // a query result, stale from the moment it is returned
    | Holding(visit: nat)                    // a successful claim, not yet acted on
    | Sent(visit: nat)

  datatype Entry =
    | Claim(round: nat, visit: nat, at: nat) // SEND_STARTED written at offset `at`
    | Send(round: nat, visit: nat, durable: nat) // how much of the text was durable when it was sent
    | OperatorClear(visit: nat)              // the operator's record reached the file, at least in part

  /** The file, how much of it is durable, what each round remembers, and what happened. */
  datatype Sys = Sys(text: Text, synced: nat, rounds: map<nat, Round>, log: seq<Entry>)

  const START := Sys([], 0, map[], [])

  /** The ledger after one call. */
  function Wrote(s: Sys, text: Text, io: AppendIO): Sys {
    s.(text := text, synced := SyncedAfter(s.text, s.synced, text, io))
  }

  function RoundOf(s: Sys, r: nat): Round { if r in s.rounds then s.rounds[r] else Idle }

  datatype Event =
    | QueryFence(round: nat, visit: nat)
    | TryClaim(round: nat, candidate: Candidate, rest: nat, io: AppendIO)
    | Dispatch(round: nat)
    | Report(visit: nat, state: SendState, rest: nat, io: AppendIO)
    | ClearFence(visit: nat, euid: nat, reasonGiven: bool, rest: nat, io: AppendIO)
    | RoundDies(round: nat)
    | PowerLoss(keep: nat, cut: bool)   // whatever was not synced may be gone

  function Step(s: Sys, e: Event): Sys {
    match e
    case QueryFence(r, k) => s.(rounds := s.rounds[r := Saw(k, Query(s.text, k))])
    case TryClaim(r, c, rest, io) =>
      var round := RoundOf(s, r);
      if !round.Saw? || !DecidesSend(round.fence, c) then s else
      var (text, reply) := Start(s.text, round.visit, rest, io);
      var t := Wrote(s, text, io);
      if reply.Claimed?
      then t.(rounds := s.rounds[r := Holding(round.visit)], log := s.log + [Claim(r, round.visit, |s.text|)])
      else t.(rounds := s.rounds[r := Idle])
    case Dispatch(r) =>
      var round := RoundOf(s, r);
      if round.Holding?
      then s.(rounds := s.rounds[r := Sent(round.visit)], log := s.log + [Send(r, round.visit, s.synced)])
      else s
    case Report(k, state, rest, io) => Wrote(s, Record(s.text, k, state, rest, io).0, io)
    case ClearFence(k, euid, reasonGiven, rest, io) =>
      var text := Clear(s.text, k, euid, reasonGiven, rest, io).0;
      if text == s.text then s else Wrote(s, text, io).(log := s.log + [OperatorClear(k)])
    case RoundDies(r) => s.(rounds := s.rounds - {r})
    case PowerLoss(keep, cut) =>
      if Kept(s.text, s.synced, keep, cut) then s.(text := Remains(s.text, keep, cut)) else s
  }

  function Exec(s: Sys, run: seq<Event>): Sys
    decreases run
  {
    if run == [] then s else Exec(Step(s, run[0]), run[1..])
  }

  // ---------- counting ----------

  /** Claims of a node visit since its last operator clear. */
  function OpenClaims(log: seq<Entry>, k: nat): nat
    decreases log
  {
    if log == [] then 0
    else
      var before := OpenClaims(log[..|log| - 1], k);
      match log[|log| - 1]
      case Claim(_, v, _) => if v == k then before + 1 else before
      case Send(_, _, _) => before
      case OperatorClear(v) => if v == k then 0 else before
  }

  /** Sends (or claims, or operator clears) of a node visit in all. */
  function Count(log: seq<Entry>, k: nat, kind: EntryKind): nat
    decreases log
  {
    if log == [] then 0
    else Count(log[..|log| - 1], k, kind) + (if Matches(log[|log| - 1], k, kind) then 1 else 0)
  }

  datatype EntryKind = AClaim | ASend | AClear

  predicate Matches(e: Entry, k: nat, kind: EntryKind) {
    match e
    case Claim(_, v, _) => kind.AClaim? && v == k
    case Send(_, v, _) => kind.ASend? && v == k
    case OperatorClear(v) => kind.AClear? && v == k
  }

  lemma LogGrows(log: seq<Entry>, e: Entry)
    ensures (log + [e])[..|log|] == log
    ensures forall k, kind :: Count(log + [e], k, kind) == Count(log, k, kind) + (if Matches(e, k, kind) then 1 else 0)
    ensures forall k :: OpenClaims(log + [e], k) ==
              match e
              case Claim(_, v, _) => if v == k then OpenClaims(log, k) + 1 else OpenClaims(log, k)
              case Send(_, _, _) => OpenClaims(log, k)
              case OperatorClear(v) => if v == k then 0 else OpenClaims(log, k)
  {
    assert (log + [e])[..|log|] == log;
  }

  // ---------- per-visit state machine ----------

  /** The moves of one node visit: claimed, its outcome recorded, or cleared by the operator. */
  predicate Allowed(s: Sys, e: Event, k: nat, before: SendState, after: SendState) {
    || before == after
    || (e.TryClaim? && RoundOf(s, e.round).Saw? && RoundOf(s, e.round).visit == k && before == NotSent && after == SendStarted)
    || (e.Report? && e.visit == k && before == NotSent && after == SendOutcomeUnknown)
    || (e.Report? && e.visit == k && before == SendStarted && after == e.state && after in {SendConfirmed, SendOutcomeUnknown})
    || (e.ClearFence? && e.visit == k && e.euid == 0 && e.reasonGiven && before != NotSent && after == NotSent)
  }

  /** Without a power loss the folded ledger refines that machine at every step that leaves it
      trusted, torn appends included; CONFIRMED and UNKNOWN leave only by an operator clear. */
  lemma FoldRefinesMachine(s: Sys, e: Event, k: nat)
    requires Parse(s.text).Trusted() && Parse(Step(s, e).text).Trusted() && !e.PowerLoss?
    ensures Allowed(s, e, k, Parse(s.text).Of(k), Parse(Step(s, e).text).Of(k))
    ensures Parse(s.text).Of(k) in {SendConfirmed, SendOutcomeUnknown}
              && Parse(Step(s, e).text).Of(k) != Parse(s.text).Of(k) ==>
              e.ClearFence? && e.visit == k && e.euid == 0 && e.reasonGiven
  {
    hide Parse, Append;
    match e
    case TryClaim(r, c, rest, io) =>
      if RoundOf(s, r).Saw? { AppendEffect(s.text, Rec(RoundOf(s, r).visit, SendStarted, rest), io); }
    case Report(v, state, rest, io) =>
      var next := OutcomeAfter(Parse(s.text).Of(v), state);
      if next.Some? { AppendEffect(s.text, Rec(v, next.value, rest), io); }
    case ClearFence(v, euid, reasonGiven, rest, io) =>
      AppendEffect(s.text, Rec(v, NotSent, rest), io);
    case _ =>
  }

  // ---------- writes and losses ----------

  /** The record that a step appends, if it appends one. */
  function Appends(s: Sys, e: Event): Option<(Rec, AppendIO)> {
    if !Parse(s.text).Trusted() then None
    else match e
      case TryClaim(r, c, rest, io) =>
        var round := RoundOf(s, r);
        if round.Saw? && DecidesSend(round.fence, c) && Parse(s.text).Of(round.visit) == NotSent
        then Some((Rec(round.visit, SendStarted, rest), io)) else None
      case Report(k, state, rest, io) =>
        var next := OutcomeAfter(Parse(s.text).Of(k), state);
        if state in {SendConfirmed, SendOutcomeUnknown} && next.Some? then Some((Rec(k, next.value, rest), io)) else None
      case ClearFence(k, euid, reasonGiven, rest, io) =>
        if euid == 0 && reasonGiven && Parse(s.text).Of(k) != NotSent
        then Some((Rec(k, NotSent, rest), io)) else None
      case _ => None
  }

  /** A step appends one record, loses power, or leaves the file alone. */
  lemma StepWrites(s: Sys, e: Event)
    ensures var t := Step(s, e);
      match Appends(s, e)
      case Some(a) => t.text == Append(s.text, a.0, a.1) && t.synced == SyncedAfter(s.text, s.synced, t.text, a.1)
      case None => if e.PowerLoss? then t.synced == s.synced && (t.text == s.text || Survives(s.text, s.synced, t.text))
                   else t.text == s.text && t.synced == s.synced
  {
    hide Parse, Append;
    match e
    case PowerLoss(keep, cut) =>
      if Kept(s.text, s.synced, keep, cut) { assert Survives(s.text, s.synced, Step(s, e).text); }
    case _ =>
  }

  ghost predicate SyncedFits(s: Sys) { s.synced <= |s.text| }

  /** What is durable stays, and never becomes less. */
  lemma SyncedGrows(s: Sys, e: Event)
    requires SyncedFits(s)
    ensures var t := Step(s, e);
      SyncedFits(t) && s.synced <= t.synced && t.text[..s.synced] == s.text[..s.synced]
  {
    hide Parse, Append, Survives;
    StepWrites(s, e);
    var a := Appends(s, e);
    if a.Some? { AppendEffect(s.text, a.value.0, a.value.1); }
    else if e.PowerLoss? && Step(s, e).text != s.text { SurvivorKeepsSynced(s.text, s.synced, Step(s, e).text); }
  }

  /** How what may survive changes in one step: nothing new, except that a write adds its record on top
      of what can be read now. */
  lemma SurvivorsOfStep(s: Sys, e: Event, t: Text)
    requires SyncedFits(s) && Survives(Step(s, e).text, Step(s, e).synced, t) && Parse(t).Trusted()
    ensures Survives(s.text, s.synced, t)
            || (Parse(s.text).Trusted() && Parse(t) == Parse(s.text))
            || (Parse(s.text).Trusted() && Appends(s, e).Some?
                && var r := Appends(s, e).value.0; Parse(t) == Parse(s.text).(latest := Parse(s.text).latest[r.visit := r.state]))
  {
    hide Parse, Append, Survives, Appends;
    StepWrites(s, e);
    SyncedGrows(s, e);
    MoreSynced(Step(s, e).text, s.synced, Step(s, e).synced, t);
    var a := Appends(s, e);
    if a.Some? {
      SurvivorReads(s.text, s.synced, a.value.0, a.value.1, t);
    } else if e.PowerLoss? && Step(s, e).text != s.text {
      SurvivorOfSurvivor(s.text, s.synced, Step(s, e).text, t);
    }
  }

  // ---------- corruption ----------

  /** Until power is lost, a ledger that cannot be trusted stays as it is: no start, record or clear
      touches it, and no claim succeeds. */
  lemma UntrustedIsAbsorbing(s: Sys, e: Event)
    requires !Parse(s.text).Trusted()
    ensures !e.PowerLoss? ==> Step(s, e).text == s.text
    ensures forall k, kind :: kind != ASend ==> Count(Step(s, e).log, k, kind) == Count(s.log, k, kind)
    ensures forall k :: OpenClaims(Step(s, e).log, k) == OpenClaims(s.log, k)
  {
    if e.Dispatch? && RoundOf(s, e.round).Holding? { LogGrows(s.log, Send(e.round, RoundOf(s, e.round).visit, s.synced)); }
  }

  lemma {:induction false} UntrustedForever(s: Sys, run: seq<Event>)
    requires !Parse(s.text).Trusted() && forall e <- run :: !e.PowerLoss?
    ensures Exec(s, run).text == s.text
    ensures forall k :: Count(Exec(s, run).log, k, AClaim) == Count(s.log, k, AClaim)
    decreases run
  {
    if run != [] {
      UntrustedIsAbsorbing(s, run[0]);
      UntrustedForever(Step(s, run[0]), run[1..]);
    }
  }

  /** In reachable states the durable part ends in a newline. */
  ghost predicate SyncedLines(s: Sys) { SyncedFits(s) && Tail(s.text[..s.synced]) == [] }

  lemma SyncedLinesStep(s: Sys, e: Event)
    requires SyncedLines(s)
    ensures SyncedLines(Step(s, e))
  {
    hide Parse, Survives, Appends;
    StepWrites(s, e);
    SyncedGrows(s, e);
    var t, a := Step(s, e), Appends(s, e);
    if a.Some? && t.synced != s.synced {
      AppendNewline(s.text + Encode(a.value.0));
      assert t.text == s.text + Encode(a.value.0) + [Newline];
      assert t.text[..t.synced] == t.text;
    }
  }

  lemma {:induction false} SyncedLinesExec(s: Sys, run: seq<Event>)
    requires SyncedLines(s)
    ensures SyncedLines(Exec(s, run))
    decreases run
  {
    if run != [] {
      SyncedLinesStep(s, run[0]);
      SyncedLinesExec(Step(s, run[0]), run[1..]);
    }
  }

  lemma SyncedLinesReached(run: seq<Event>)
    ensures SyncedLines(Exec(START, run))
  {
    SyncedLinesExec(START, run);
  }

  lemma {:induction false} SyncedStays(s: Sys, run: seq<Event>)
    requires SyncedFits(s)
    ensures s.synced <= |Exec(s, run).text| && Exec(s, run).text[..s.synced] == s.text[..s.synced]
    decreases run
  {
    hide Step;
    if run != [] {
      var t := Step(s, run[0]);
      SyncedGrows(s, run[0]);
      SyncedStays(t, run[1..]);
      SamePrefix(Exec(t, run[1..]).text, t.text, s.synced, t.synced);
    }
  }

  lemma SamePrefix(f: Text, g: Text, n: nat, m: nat)
    requires n <= m <= |f| && m <= |g| && f[..m] == g[..m]
    ensures f[..n] == g[..n]
  {
    assert f[..n] == f[..m][..n] && g[..n] == g[..m][..n];
  }

  /** Losing everything that can be lost leaves the durable part. */
  lemma LoseAll(s: Sys)
    requires SyncedFits(s)
    ensures Exec(s, [PowerLoss(s.synced, false)]).text == s.text[..s.synced]
  {
    var loss := PowerLoss(s.synced, false);
    assert Step(s, loss).text == s.text[..s.synced] + [] == s.text[..s.synced];
    hide Step;
    assert [loss][1..] == [];
    assert Exec(Step(s, loss), []) == Step(s, loss);
  }

  lemma SpoiledStays(s: Sys, more: seq<Event>)
    requires SyncedLines(s) && !Parse(s.text[..s.synced]).Trusted()
    ensures !Parse(Exec(s, more).text).Trusted()
  {
    hide Exec, Step, Parse, Tail;
    SyncedStays(s, more);
    var f := Exec(s, more).text;
    CorruptStays(s.text[..s.synced], f[s.synced..]);
    assert f == f[..s.synced] + f[s.synced..];
  }

  /** In every reachable state: the ledger can never be trusted again, in any continuation, exactly when
      the corruption is in its durable part.  Corruption that was not synced can vanish with the power,
      and the ledger is then read as it was before. */
  lemma SpoiledForGood(run: seq<Event>)
    ensures SyncedFits(Exec(START, run))
    ensures var s := Exec(START, run);
      (forall more :: !Parse(Exec(s, more).text).Trusted()) <==> !Parse(s.text[..s.synced]).Trusted()
  {
    SyncedLinesReached(run);
    hide Step, Parse, Tail;
    var s := Exec(START, run);
    if Parse(s.text[..s.synced]).Trusted() {
      LoseAll(s);
    } else {
      forall more ensures !Parse(Exec(s, more).text).Trusted() { SpoiledStays(s, more); }
    }
  }

  // ---------- claims that read back ----------

  /** A successful claim leaves a readable SEND_STARTED if and only if the text it appended to ended
      in a newline; on a tail that lost its newline it spoils the ledger instead. */
  lemma ClaimReadsBack(f: Text, k: nat, rest: nat, io: AppendIO)
    requires Start(f, k, rest, io).1.Claimed?
    ensures var g := Start(f, k, rest, io).0;
            && g == f + Line(Rec(k, SendStarted, rest))
            && (Tail(f) == [] <==> Parse(g).Trusted())
            && (Parse(g).Trusted() ==> Parse(g).Of(k) == SendStarted)
  {
    ParseAppend(f, Rec(k, SendStarted, rest));
  }

  /** A reachable trusted ledger without its last newline: a claim that was written up to the newline. */
  lemma TailWithoutNewline(k: nat, rest: nat, c: Candidate)
    requires DecidesSend(Fenced(NotSent), c)
    ensures var s := Exec(START, [QueryFence(0, k), TryClaim(0, c, rest, Stopped(5, false))]);
      Parse(s.text).Trusted() && Tail(s.text) != []
  {
    var a, b := QueryFence(0, k), TryClaim(0, c, rest, Stopped(5, false));
    ExecTwo(START, a, b);
    var r := Rec(k, SendStarted, rest);
    var s := Step(Step(START, a), b);
    assert s.text == [] + Encode(r) == Encode(r);
    AppendTokens([], Encode(r));
    ParseSplit(s.text);
    ParseOfEncode(r);
  }

  lemma ExecTwo(s: Sys, a: Event, b: Event)
    ensures Exec(s, [a, b]) == Step(Step(s, a), b)
  {
    hide Step;
    assert [a, b][1..] == [b] && [b][1..] == [];
    assert Exec(Step(s, a), [b]) == Exec(Step(Step(s, a), b), []);
  }

  // ---------- invariant ----------

  /** Whatever part of the file a power loss leaves: if it can be read, visit `k` is fenced there. */
  ghost predicate FencedOff(s: Sys, k: nat) {
    forall t :: Survives(s.text, s.synced, t) && Parse(t).Trusted() ==> Parse(t).Of(k) != NotSent
  }

  ghost predicate FenceInv(s: Sys, k: nat) {
    SyncedFits(s) && OpenClaims(s.log, k) <= 1 && (OpenClaims(s.log, k) == 1 ==> FencedOff(s, k))
  }

  /** A step that does not write NOT_SENT for `k` keeps it fenced. */
  lemma FencedStep(s: Sys, e: Event, k: nat)
    requires SyncedFits(s) && FencedOff(s, k)
    requires Appends(s, e).Some? ==> Appends(s, e).value.0.visit != k || Appends(s, e).value.0.state != NotSent
    ensures FencedOff(Step(s, e), k)
  {
    hide Parse, Survives, Appends, Step;
    SurvivesItself(s.text, s.synced);
    forall t | Survives(Step(s, e).text, Step(s, e).synced, t) && Parse(t).Trusted() ensures Parse(t).Of(k) != NotSent {
      SurvivorsOfStep(s, e, t);
    }
  }

  /** A claim that returns has synced its record: nothing but the whole file can be left. */
  lemma FencedByClaim(s: Sys, r: nat, c: Candidate, rest: nat, io: AppendIO)
    requires SyncedFits(s) && RoundOf(s, r).Saw?
    requires Start(s.text, RoundOf(s, r).visit, rest, io).1.Claimed?
    ensures var t := Wrote(s, Start(s.text, RoundOf(s, r).visit, rest, io).0, io);
      FencedOff(t, RoundOf(s, r).visit)
  {
    hide Parse, Survives, Tail;
    var k := RoundOf(s, r).visit;
    var t := Wrote(s, Start(s.text, k, rest, io).0, io);
    ClaimReadsBack(s.text, k, rest, io);
    assert t.synced == |t.text|;
    forall u | Survives(t.text, t.synced, u) && Parse(u).Trusted() ensures Parse(u).Of(k) != NotSent {
      SyncedSurvivesAlone(t.text, u);
    }
  }

  lemma FenceClaim(s: Sys, r: nat, c: Candidate, rest: nat, io: AppendIO, k: nat)
    requires FenceInv(s, k)
    ensures FenceInv(Step(s, TryClaim(r, c, rest, io)), k)
  {
    hide Parse, Survives, Append, Line, OpenClaims, FencedOff;
    var e, round := TryClaim(r, c, rest, io), RoundOf(s, r);
    SyncedGrows(s, e);
    if round.Saw? && DecidesSend(round.fence, c) && Start(s.text, round.visit, rest, io).1.Claimed? {
      LogGrows(s.log, Claim(r, round.visit, |s.text|));
      FencedByClaim(s, r, c, rest, io);
      FencedSame(Wrote(s, Start(s.text, round.visit, rest, io).0, io), Step(s, e), round.visit);
      if OpenClaims(s.log, k) == 1 { ClaimNotFenced(s, e, k); FencedStep(s, e, k); }
    } else if OpenClaims(s.log, k) == 1 {
      FencedStep(s, e, k);
    }
  }

  lemma FencedSame(s: Sys, t: Sys, k: nat)
    requires s.text == t.text && s.synced == t.synced && FencedOff(s, k)
    ensures FencedOff(t, k)
  {
  }

  /** A claim of `k` needs a readable NOT_SENT, which a fenced visit does not have. */
  lemma ClaimNotFenced(s: Sys, e: Event, k: nat)
    requires SyncedFits(s) && FencedOff(s, k) && e.TryClaim? && Appends(s, e).Some?
    ensures RoundOf(s, e.round).visit != k
  {
    SurvivesItself(s.text, s.synced);
  }

  lemma FenceClear(s: Sys, v: nat, euid: nat, reasonGiven: bool, rest: nat, io: AppendIO, k: nat)
    requires FenceInv(s, k)
    ensures FenceInv(Step(s, ClearFence(v, euid, reasonGiven, rest, io)), k)
  {
    hide Parse, Survives, Append, Line, OpenClaims, FencedOff;
    var e := ClearFence(v, euid, reasonGiven, rest, io);
    SyncedGrows(s, e);
    LogGrows(s.log, OperatorClear(v));
    if OpenClaims(Step(s, e).log, k) == 1 {
      if v == k { assert Step(s, e) == s; } else { FencedStep(s, e, k); }
    }
  }

  lemma FenceStep(s: Sys, e: Event, k: nat)
    requires FenceInv(s, k)
    ensures FenceInv(Step(s, e), k)
  {
    hide Parse, Survives, Append, Line, OpenClaims, FencedOff;
    match e
    case TryClaim(r, c, rest, io) => FenceClaim(s, r, c, rest, io, k);
    case ClearFence(v, euid, reasonGiven, rest, io) => FenceClear(s, v, euid, reasonGiven, rest, io, k);
    case Dispatch(r) =>
      SyncedGrows(s, e);
      if RoundOf(s, r).Holding? { LogGrows(s.log, Send(r, RoundOf(s, r).visit, s.synced)); }
      if OpenClaims(s.log, k) == 1 { FencedStep(s, e, k); }
    case _ =>
      SyncedGrows(s, e);
      if OpenClaims(s.log, k) == 1 { FencedStep(s, e, k); }
  }

  lemma {:induction false} FenceExec(s: Sys, run: seq<Event>, k: nat)
    requires FenceInv(s, k)
    ensures FenceInv(Exec(s, run), k)
    decreases run
  {
    if run != [] {
      FenceStep(s, run[0], k);
      FenceExec(Step(s, run[0]), run[1..], k);
    }
  }

  lemma StartFenced(k: nat)
    ensures FenceInv(START, k)
  {
  }

  /** However many rounds interleave, however stale their queries, wherever they crash and whatever
      unsynced text a power loss takes, a node visit gets at most one successful claim between
      operator clears. */
  lemma AtMostOneClaim(run: seq<Event>, k: nat)
    ensures OpenClaims(Exec(START, run).log, k) <= 1
  {
    StartFenced(k);
    FenceExec(START, run, k);
  }

  // ---------- outcomes that are synced ----------

  /** Whatever a power loss leaves reads `q` for visit `k`, if it reads at all. */
  ghost predicate AlwaysReads(s: Sys, k: nat, q: SendState) {
    forall t :: Survives(s.text, s.synced, t) && Parse(t).Trusted() ==> Parse(t).Of(k) == q
  }

  predicate Clears(s: Sys, e: Event, k: nat) { e.ClearFence? && e.visit == k && Step(s, e).text != s.text }

  predicate NoClear(s: Sys, run: seq<Event>, k: nat)
    decreases run
  {
    run == [] || (!Clears(s, run[0], k) && NoClear(Step(s, run[0]), run[1..], k))
  }

  lemma FinalStep(s: Sys, e: Event, k: nat, q: SendState)
    requires SyncedFits(s) && AlwaysReads(s, k, q) && q in {SendConfirmed, SendOutcomeUnknown} && !Clears(s, e, k)
    ensures AlwaysReads(Step(s, e), k, q)
  {
    hide Parse, Survives, Append;
    SurvivesItself(s.text, s.synced);
    StepWrites(s, e);
    var a := Appends(s, e);
    if a.Some? && e.ClearFence? && e.visit == k && Step(s, e).text == s.text {
      forall t | Survives(Step(s, e).text, Step(s, e).synced, t) && Parse(t).Trusted() ensures Parse(t).Of(k) == q {
        MoreSynced(s.text, s.synced, Step(s, e).synced, t);
      }
    } else {
      forall t | Survives(Step(s, e).text, Step(s, e).synced, t) && Parse(t).Trusted() ensures Parse(t).Of(k) == q {
        SurvivorsOfStep(s, e, t);
      }
    }
  }

  /** A recorded outcome leaves only by an operator clear, over every run and through every power loss. */
  lemma {:induction false} OutcomeStands(s: Sys, run: seq<Event>, k: nat, q: SendState)
    requires SyncedFits(s) && AlwaysReads(s, k, q) && q in {SendConfirmed, SendOutcomeUnknown} && NoClear(s, run, k)
    ensures Parse(Exec(s, run).text).Trusted() ==> Parse(Exec(s, run).text).Of(k) == q
    decreases run
  {
    if run == [] {
      SurvivesItself(s.text, s.synced);
    } else {
      FinalStep(s, run[0], k, q);
      SyncedGrows(s, run[0]);
      OutcomeStands(Step(s, run[0]), run[1..], k, q);
    }
  }

  /** A record call that returned an outcome has made it so. */
  lemma RecordedStands(s: Sys, k: nat, state: SendState, rest: nat, io: AppendIO)
    requires Record(s.text, k, state, rest, io).1.Recorded?
    ensures AlwaysReads(Step(s, Report(k, state, rest, io)), k, Record(s.text, k, state, rest, io).1.state)
  {
    hide Parse, Survives, Tail;
    var t := Step(s, Report(k, state, rest, io));
    ParseAppend(s.text, Rec(k, Record(s.text, k, state, rest, io).1.state, rest));
    forall u | Survives(t.text, t.synced, u) && Parse(u).Trusted()
      ensures Parse(u).Of(k) == Record(s.text, k, state, rest, io).1.state
    {
      SyncedSurvivesAlone(t.text, u);
    }
  }
}
