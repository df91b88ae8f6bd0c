/** What each ledger call does in each state of the visit, written out. */
module SendTables {
  import opened Wrappers
  import opened SendLedger
  import opened SendFence

  /** The tokens of one complete line. */
  function Whole(k: nat, state: SendState, rest: nat): Text {
    [Open, Visit(k), State(state), Rest(rest), Close, Newline]
  }

  /** A complete write of a new state over a ledger that can be read and whose last line has ended. */
  ghost predicate NowReads(f: Text, g: Text, k: nat, state: SendState) {
    && Parse(g).Trusted() && Parse(g).Of(k) == state
    && forall v :: v != k ==> Parse(g).Of(v) == Parse(f).Of(v)
  }

  lemma WholeReads(f: Text, k: nat, state: SendState, rest: nat)
    requires Parse(f).Trusted() && Tail(f) == []
    ensures NowReads(f, f + Whole(k, state, rest), k, state)
  {
    assert Line(Rec(k, state, rest)) == Whole(k, state, rest);
    hide Parse, Tail;
    ParseAppend(f, Rec(k, state, rest));
  }

  /** `ledger_query`. */
  lemma QueryTable(f: Text, k: nat)
    ensures Query(f, k) == LedgerUntrusted <==> !Parse(f).Trusted()
    ensures Parse(f).Trusted() ==> Query(f, k) == Fenced(Parse(f).Of(k))
  {
  }

  /** `ledger_start`: a readable visit that was not sent is claimed; every other one is told its state. */
  lemma StartTable(f: Text, k: nat, rest: nat)
    ensures !Parse(f).Trusted() ==> Start(f, k, rest, Written) == (f, Untrusted)
    ensures Parse(f).Trusted() && Parse(f).Of(k) == NotSent ==>
              Start(f, k, rest, Written) == (f + Whole(k, SendStarted, rest), Claimed)
    ensures Parse(f).Trusted() && Parse(f).Of(k) == NotSent && Tail(f) == [] ==>
              NowReads(f, Start(f, k, rest, Written).0, k, SendStarted)
    ensures forall q | q in {SendStarted, SendConfirmed, SendOutcomeUnknown} ::
              Parse(f).Trusted() && Parse(f).Of(k) == q ==> Start(f, k, rest, Written) == (f, NotClaimed(q))
  {
    assert Line(Rec(k, SendStarted, rest)) == Whole(k, SendStarted, rest);
    if Parse(f).Trusted() && Tail(f) == [] { WholeReads(f, k, SendStarted, rest); }
  }

  /** `ledger_record`: an outcome after a start is recorded as it is, one without a start as UNKNOWN, and
      a final outcome stays. */
  lemma RecordTable(f: Text, k: nat, state: SendState, rest: nat)
    requires state in {SendConfirmed, SendOutcomeUnknown}
    ensures !Parse(f).Trusted() ==> Record(f, k, state, rest, Written) == (f, Untrusted)
    ensures Parse(f).Trusted() && Parse(f).Of(k) == SendStarted ==>
              Record(f, k, state, rest, Written) == (f + Whole(k, state, rest), Recorded(state))
    ensures Parse(f).Trusted() && Parse(f).Of(k) == NotSent ==>
              Record(f, k, state, rest, Written) == (f + Whole(k, SendOutcomeUnknown, rest), Recorded(SendOutcomeUnknown))
    ensures Parse(f).Trusted() && Parse(f).Of(k) == SendConfirmed ==>
              Record(f, k, state, rest, Written) == (f, Unrecorded(SendConfirmed))
    ensures Parse(f).Trusted() && Parse(f).Of(k) == SendOutcomeUnknown ==>
              Record(f, k, state, rest, Written) == (f, Unrecorded(SendOutcomeUnknown))
  {
    assert Line(Rec(k, state, rest)) == Whole(k, state, rest);
    assert Line(Rec(k, SendOutcomeUnknown, rest)) == Whole(k, SendOutcomeUnknown, rest);
    hide Parse, Line, Encode, Whole;
  }

  /** ... and it reads back, over a ledger whose last line has ended. */
  lemma RecordReads(f: Text, k: nat, state: SendState, rest: nat)
    requires state in {SendConfirmed, SendOutcomeUnknown} && Parse(f).Trusted() && Tail(f) == []
    ensures Parse(f).Of(k) == SendStarted ==> NowReads(f, Record(f, k, state, rest, Written).0, k, state)
    ensures Parse(f).Of(k) == NotSent ==> NowReads(f, Record(f, k, state, rest, Written).0, k, SendOutcomeUnknown)
  {
    hide Parse, Tail, Record, Whole, NowReads;
    RecordTable(f, k, state, rest);
    WholeReads(f, k, state, rest);
    WholeReads(f, k, SendOutcomeUnknown, rest);
  }

  /** Any other state is not an outcome. */
  lemma RecordRefuses(f: Text, k: nat, state: SendState, rest: nat, io: AppendIO)
    requires state in {NotSent, SendStarted}
    ensures Record(f, k, state, rest, io) == (f, Usage)
  {
  }

  /** `ledger_clear`: for root with a reason, every fenced visit goes back to not sent. */
  lemma ClearTable(f: Text, k: nat, euid: nat, reasonGiven: bool, rest: nat)
    ensures euid != 0 ==> Clear(f, k, euid, reasonGiven, rest, Written) == (f, Denied)
    ensures euid == 0 && !reasonGiven ==> Clear(f, k, euid, reasonGiven, rest, Written) == (f, Usage)
    ensures euid == 0 && reasonGiven && !Parse(f).Trusted() ==> Clear(f, k, euid, reasonGiven, rest, Written) == (f, Untrusted)
    ensures euid == 0 && reasonGiven && Parse(f).Trusted() && Parse(f).Of(k) == NotSent ==>
              Clear(f, k, euid, reasonGiven, rest, Written) == (f, Unrecorded(NotSent))
    ensures euid == 0 && reasonGiven && Parse(f).Trusted() && Parse(f).Of(k) != NotSent ==>
              Clear(f, k, euid, reasonGiven, rest, Written) == (f + Whole(k, NotSent, rest), Recorded(NotSent))
    ensures euid == 0 && reasonGiven && Parse(f).Trusted() && Parse(f).Of(k) != NotSent && Tail(f) == [] ==>
              NowReads(f, Clear(f, k, euid, reasonGiven, rest, Written).0, k, NotSent)
  {
    assert Line(Rec(k, NotSent, rest)) == Whole(k, NotSent, rest);
    if Parse(f).Trusted() && Tail(f) == [] { WholeReads(f, k, NotSent, rest); }
  }

  /** A write that does not return: no call answers success, and the text has only grown. */
  lemma FailedWrites(f: Text, k: nat, state: SendState, euid: nat, reasonGiven: bool, rest: nat, io: AppendIO)
    requires io.Stopped?
    ensures f <= Start(f, k, rest, io).0 && !Start(f, k, rest, io).1.Claimed?
    ensures f <= Record(f, k, state, rest, io).0 && !Record(f, k, state, rest, io).1.Recorded?
    ensures f <= Clear(f, k, euid, reasonGiven, rest, io).0 && !Clear(f, k, euid, reasonGiven, rest, io).1.Recorded?
  {
  }

  // ---------- one round ----------

  /** A round claims only what it saw as not sent, within capacity, resolved, neither quarantined nor sent
      in this round; in every other case the system stays as it is. */
  lemma ClaimNeedsDecision(s: Sys, r: nat, c: Candidate, rest: nat, io: AppendIO)
    ensures var sees := r in s.rounds && s.rounds[r].Saw? && s.rounds[r].fence == Fenced(NotSent);
      !(sees && !c.quarantined && !c.sentThisRound && c.capacityLeft && c.resolution.Resolved?)
      ==> Step(s, TryClaim(r, c, rest, io)) == s
  {
  }

  /** A round sends only a claim that it holds, once. */
  lemma SendNeedsClaim(s: Sys, r: nat)
    ensures !(r in s.rounds && s.rounds[r].Holding?) ==> Step(s, Dispatch(r)) == s
    ensures r in s.rounds && s.rounds[r].Holding? ==>
              && Step(s, Dispatch(r)).log == s.log + [Send(r, s.rounds[r].visit, s.synced)]
              && Step(s, Dispatch(r)).rounds == s.rounds[r := Sent(s.rounds[r].visit)]
              && Step(s, Dispatch(r)).text == s.text
  {
  }

  /** A visit that was never sent goes through one undisturbed round: queried, claimed, sent once, and its
      outcome recorded. */
  lemma RoundCompletes(s: Sys, r: nat, k: nat, c: Candidate, state: SendState, rest: nat)
    requires Parse(s.text).Trusted() && Tail(s.text) == [] && Parse(s.text).Of(k) == NotSent
    requires !c.quarantined && !c.sentThisRound && c.capacityLeft && c.resolution.Resolved?
    requires state in {SendConfirmed, SendOutcomeUnknown}
    ensures var t := Step(Step(Step(Step(s, QueryFence(r, k)), TryClaim(r, c, rest, Written)), Dispatch(r)),
                          Report(k, state, rest, Written));
      && t.text == s.text + Whole(k, SendStarted, rest) + Whole(k, state, rest)
      && NowReads(s.text, t.text, k, state)
      && t.log == s.log + [Claim(r, k, |s.text|), Send(r, k, |s.text| + 6)]
  {
    hide Parse, Tail, Start, Record;
    var f := s.text;
    var g := f + Whole(k, SendStarted, rest);
    QueryTable(f, k);
    StartTable(f, k, rest);
    EndsLine(f, k, SendStarted, rest);
    RecordTable(g, k, state, rest);
    RecordReads(g, k, state, rest);
  }

  lemma EndsLine(f: Text, k: nat, state: SendState, rest: nat)
    ensures Tail(f + Whole(k, state, rest)) == []
  {
    assert f + Whole(k, state, rest) == f + Encode(Rec(k, state, rest)) + [Newline];
    AppendNewline(f + Encode(Rec(k, state, rest)));
  }
}
