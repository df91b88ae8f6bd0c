/** `dispatch_round_tools.py`: the append-only send ledger, as text and as the table it folds to. */
module SendLedger {
  import opened Wrappers

  datatype SendState = NotSent | SendStarted | SendConfirmed | SendOutcomeUnknown

  /** One record: the node visit it fences, its state, and everything else it carries. */
  datatype Rec = Rec(visit: nat, state: SendState, rest: nat)

  /** The ledger text in tokens.  A record is one brace group on one line; `Fragment` is part of a
      token that a write cut short. */
  datatype Token = Newline | Open | Visit(id: nat) | State(state: SendState) | Rest(id: nat) | Close | Fragment

  type Text = seq<Token>

  function Encode(r: Rec): Text { [Open, Visit(r.visit), State(r.state), Rest(r.rest), Close] }

  /** The line that `_append_unlocked` writes. */
  function Line(r: Rec): Text { Encode(r) + [Newline] }

  /** A non-blank line is exactly one record, or it is corrupt. */
  function ParseLine(line: Text): (r: Option<Rec>)
    ensures r.Some? <==> exists q :: line == Encode(q)
    ensures r.Some? ==> line == Encode(r.value)
  {
    if |line| == 5 && line[0] == Open && line[1].Visit? && line[2].State? && line[3].Rest? && line[4] == Close
    then var q := Rec(line[1].id, line[2].state, line[3].id);
         assert line == Encode(q);
         Some(q)
    else None
  }

  // ---------- lines ----------

  /** What follows the last newline. */
  function Tail(f: Text): (t: Text)
    ensures Newline !in t
  {
    if f == [] || f[|f| - 1] == Newline then [] else Tail(f[..|f| - 1]) + [f[|f| - 1]]
  }

  /** The newline-terminated lines. */
  function Ended(f: Text): seq<Text> {
    if f == [] then []
    else
      var init := f[..|f| - 1];
      if f[|f| - 1] == Newline then Ended(init) + [Tail(init)] else Ended(init)
  }

  /** What iterating over the open file yields. */
  function Lines(f: Text): seq<Text> {
    if Tail(f) == [] then Ended(f) else Ended(f) + [Tail(f)]
  }

  lemma {:induction false} AppendTokens(f: Text, more: Text)
    requires Newline !in more
    ensures Tail(f + more) == Tail(f) + more && Ended(f + more) == Ended(f)
    decreases more
  {
    if more == [] {
      assert f + more == f;
    } else {
      var init := more[..|more| - 1];
      assert (f + more)[..|f + more| - 1] == f + init;
      AppendTokens(f, init);
      assert Tail(f) + more == Tail(f) + init + [more[|more| - 1]];
    }
  }

  lemma AppendNewline(f: Text)
    ensures Tail(f + [Newline]) == [] && Ended(f + [Newline]) == Ended(f) + [Tail(f)]
  {
    assert (f + [Newline])[..|f|] == f;
  }

  // ---------- the fold ----------

  /** The latest record state by node visit, and how many lines are corrupt. */
  datatype Table = Table(latest: map<nat, SendState>, corrupt: nat) {
    predicate Trusted() { corrupt == 0 }

    function Of(k: nat): SendState { if k in latest then latest[k] else NotSent }
  }

  function Absorb(t: Table, line: Text): Table {
    if line == [] then t
    else match ParseLine(line)
      case None => t.(corrupt := t.corrupt + 1)
      case Some(r) => t.(latest := t.latest[r.visit := r.state])
  }

  function Fold(lines: seq<Text>): Table {
    if lines == [] then Table(map[], 0) else Absorb(Fold(lines[..|lines| - 1]), lines[|lines| - 1])
  }

  function Parse(f: Text): Table { Fold(Lines(f)) }

  lemma FoldAppend(lines: seq<Text>, line: Text)
    ensures Fold(lines + [line]) == Absorb(Fold(lines), line)
  {
    assert (lines + [line])[..|lines|] == lines;
  }

  lemma ParseSplit(f: Text)
    ensures Parse(f) == Absorb(Fold(Ended(f)), Tail(f))
  {
    if Tail(f) != [] { FoldAppend(Ended(f), Tail(f)); }
  }

  lemma ParseLineAppended(f: Text, r: Rec)
    ensures Parse(f + Line(r)) == Absorb(Fold(Ended(f)), Tail(f) + Encode(r))
  {
    AppendTokens(f, Encode(r));
    AppendNewline(f + Encode(r));
    assert f + Line(r) == f + Encode(r) + [Newline];
    FoldAppend(Ended(f), Tail(f) + Encode(r));
  }

  /** Appending a whole line puts the record on top, or spoils the ledger, according to whether the
      text ended in a newline. */
  lemma ParseAppend(f: Text, r: Rec)
    ensures Tail(f) == [] ==> Parse(f + Line(r)) == Parse(f).(latest := Parse(f).latest[r.visit := r.state])
    ensures Tail(f) != [] ==> !Parse(f + Line(r)).Trusted()
  {
    ParseSplit(f);
    ParseLineAppended(f, r);
    hide Parse, Fold, Ended, Line, Tail, ParseLine;
    if Tail(f) == [] {
      assert Tail(f) + Encode(r) == Encode(r);
      ParseOfEncode(r);
    } else {
      ParseOfGlued(Tail(f), r);
    }
  }

  lemma ParseOfEncode(r: Rec)
    ensures ParseLine(Encode(r)) == Some(r)
  {
    var p := ParseLine(Encode(r));
    assert Encode(p.value)[1] == Encode(r)[1] && Encode(p.value)[2] == Encode(r)[2] && Encode(p.value)[3] == Encode(r)[3];
  }

  lemma ParseOfGlued(t: Text, r: Rec)
    requires t != []
    ensures ParseLine(t + Encode(r)) == None
  {
    assert |t + Encode(r)| > 5;
  }

  /** A torn append parses only if all of it is there and it stands alone on its line. */
  lemma ParseOfTorn(t: Text, r: Rec, n: nat, cut: bool)
    requires n <= 5 && Torn(r, n, cut) != []
    ensures ParseLine(t + Torn(r, n, cut)) == if t == [] && n == 5 then Some(r) else None
  {
    if t != [] {
      PrefixGlued(t, r, n, cut);
    } else {
      assert t + Torn(r, n, cut) == Torn(r, n, cut);
      if n == 5 {
        assert Torn(r, n, cut) == Encode(r);
        ParseOfEncode(r);
      } else {
        ParseOfPrefix(r, n, cut);
      }
    }
  }

  /** A write that stops anywhere leaves the table as it was, with the record on top, or spoiled. */
  lemma ParseTorn(f: Text, r: Rec, n: nat, cut: bool)
    requires n <= 5
    ensures var t := Parse(f + Torn(r, n, cut));
            || t == Parse(f)
            || (Tail(f) == [] && t == Parse(f).(latest := Parse(f).latest[r.visit := r.state]))
            || !t.Trusted()
  {
    var torn := Torn(r, n, cut);
    if torn == [] {
      assert f + torn == f;
    } else {
      AppendTokens(f, torn);
      ParseSplit(f);
      ParseSplit(f + torn);
      ParseOfTorn(Tail(f), r, n, cut);
    }
  }

  /** The tokens of `r` that reached the file, the last one perhaps only in part. */
  function Torn(r: Rec, n: nat, cut: bool): (t: Text)
    requires n <= 5
    ensures Newline !in t
  {
    if cut && n < 5 then Encode(r)[..n] + [Fragment] else Encode(r)[..n]
  }

  lemma ParseOfPrefix(r: Rec, n: nat, cut: bool)
    requires n < 5
    ensures ParseLine(Torn(r, n, cut)) == None
  {
    assert cut && n == 4 ==> Torn(r, n, cut)[4] == Fragment;
  }

  lemma PrefixGlued(t: Text, r: Rec, n: nat, cut: bool)
    requires t != [] && n <= 5 && Torn(r, n, cut) != []
    ensures ParseLine(t + Torn(r, n, cut)) == None
  {
    var line := t + Torn(r, n, cut);
    assert line[|t|] == Torn(r, n, cut)[0];
    assert line[|t|] == Open || line[|t|] == Fragment;
  }

  // ---------- the calls, under the lock ----------

  /** What one append did: all of it and synced, or tokens of it before a failure or crash.
      `Stopped(6, _)` wrote everything and then raised. */
  datatype AppendIO = Written | Stopped(n: nat, cut: bool)

  function Append(f: Text, r: Rec, io: AppendIO): Text {
    match io
    case Written => f + Line(r)
    case Stopped(n, cut) => if n > 5 then f + Line(r) else f + Torn(r, n, cut)
  }

  datatype Reply =
    | Untrusted                                 // raised LedgerUntrusted
    | Failed                                    // raised by the append, or the process died
    | Denied                                    // operator-only call by somebody else
    | Usage                                     // rejected arguments
    | Claimed
    | NotClaimed(state: SendState)
    | Recorded(state: SendState)
    | Unrecorded(state: SendState)

  /** `ledger_query` reports corruption as a state of its own. */
  datatype Fence = Fenced(state: SendState) | LedgerUntrusted

  function Query(f: Text, k: nat): Fence {
    if Parse(f).Trusted() then Fenced(Parse(f).Of(k)) else LedgerUntrusted
  }

  function Start(f: Text, k: nat, rest: nat, io: AppendIO): (r: (Text, Reply)) {
    if !Parse(f).Trusted() then (f, Untrusted)
    else if Parse(f).Of(k) != NotSent then (f, NotClaimed(Parse(f).Of(k)))
    else (Append(f, Rec(k, SendStarted, rest), io), if io.Written? then Claimed else Failed)
  }

  /** What `ledger_record` appends, if it appends at all: an outcome without a fence is UNKNOWN. */
  function OutcomeAfter(cur: SendState, state: SendState): Option<SendState> {
    match cur
    case NotSent => Some(SendOutcomeUnknown)
    case SendStarted => Some(state)
    case _ => None
  }

  function Record(f: Text, k: nat, state: SendState, rest: nat, io: AppendIO): (r: (Text, Reply)) {
    if state != SendConfirmed && state != SendOutcomeUnknown then (f, Usage)
    else if !Parse(f).Trusted() then (f, Untrusted)
    else
      var cur := Parse(f).Of(k);
      match OutcomeAfter(cur, state)
      case None => (f, Unrecorded(cur))
      case Some(next) => (Append(f, Rec(k, next, rest), io), if io.Written? then Recorded(next) else Failed)
  }

  function Clear(f: Text, k: nat, euid: nat, reasonGiven: bool, rest: nat, io: AppendIO): (r: (Text, Reply)) {
    if euid != 0 then (f, Denied)
    else if !reasonGiven then (f, Usage)
    else if !Parse(f).Trusted() then (f, Untrusted)
    else if Parse(f).Of(k) == NotSent then (f, Unrecorded(NotSent))
    else (Append(f, Rec(k, NotSent, rest), io), if io.Written? then Recorded(NotSent) else Failed)
  }

  /** How much of the file is durable after a call: a write that returned has synced all of it. */
  function SyncedAfter(f: Text, synced: nat, g: Text, io: AppendIO): nat {
    if g != f && io.Written? then |g| else synced
  }

  predicate Moves(t: Table, u: Table, k: nat, state: SendState) {
    u == t || u == t.(latest := t.latest[k := state]) || !u.Trusted()
  }

  /** Every append, complete or not: the old table, the record on top, or a ledger spoiled for good.
      The text only grows. */
  lemma AppendEffect(f: Text, r: Rec, io: AppendIO)
    ensures f <= Append(f, r, io)
    ensures Moves(Parse(f), Parse(Append(f, r, io)), r.visit, r.state)
  {
    ParseAppend(f, r);
    if io.Stopped? && io.n <= 5 { ParseTorn(f, r, io.n, io.cut); }
  }

  // ---------- the calls as they run ----------

  class Ledger {
    var text: Text
    var synced: nat   // how much of the text is durable

    /** `_append_unlocked`: write, flush, sync. */
    method AppendUnlocked(r: Rec, io: AppendIO) returns (ok: bool)
      modifies this
      ensures text == Append(old(text), r, io) && ok == io.Written?
      ensures synced == SyncedAfter(old(text), old(synced), text, io)
    {
      text := Append(text, r, io);
      ok := io.Written?;
      if ok { synced := |text|; }
    }

    /** `_parse_unlocked`: one pass over the lines, later records replacing earlier ones. */
    method ParseUnlocked() returns (latest: map<nat, SendState>, corrupt: nat)
      ensures Table(latest, corrupt) == Parse(text)
    {
      latest, corrupt := map[], 0;
      var lines := Lines(text);
      for i := 0 to |lines|
        invariant Table(latest, corrupt) == Fold(lines[..i])
      {
        FoldAppend(lines[..i], lines[i]);
        assert lines[..i + 1] == lines[..i] + [lines[i]];
        if lines[i] == [] { continue; }
        match ParseLine(lines[i])
        case None => corrupt := corrupt + 1;
        case Some(r) => latest := latest[r.visit := r.state];
      }
      assert lines[..|lines|] == lines;
    }

    method LedgerStart(k: nat, rest: nat, io: AppendIO) returns (reply: Reply)
      modifies this
      ensures (text, reply) == Start(old(text), k, rest, io)
      ensures synced == SyncedAfter(old(text), old(synced), text, io)
    {
      var latest, corrupt := ParseUnlocked();
      if corrupt > 0 { return Untrusted; }
      var cur := if k in latest then latest[k] else NotSent;
      if cur != NotSent { return NotClaimed(cur); }
      var ok := AppendUnlocked(Rec(k, SendStarted, rest), io);
      reply := if ok then Claimed else Failed;
    }

    method LedgerRecord(k: nat, state: SendState, rest: nat, io: AppendIO) returns (reply: Reply)
      modifies this
      ensures (text, reply) == Record(old(text), k, state, rest, io)
      ensures synced == SyncedAfter(old(text), old(synced), text, io)
    {
      if state != SendConfirmed && state != SendOutcomeUnknown { return Usage; }
      var latest, corrupt := ParseUnlocked();
      if corrupt > 0 { return Untrusted; }
      var cur := if k in latest then latest[k] else NotSent;
      var next := state;
      if cur == state || cur == SendConfirmed || cur == SendOutcomeUnknown {
        return Unrecorded(cur);
      } else if cur == NotSent {
        next := SendOutcomeUnknown;
      }
      var ok := AppendUnlocked(Rec(k, next, rest), io);
      reply := if ok then Recorded(next) else Failed;
    }

    method LedgerClear(k: nat, euid: nat, reasonGiven: bool, rest: nat, io: AppendIO) returns (reply: Reply)
      modifies this
      ensures (text, reply) == Clear(old(text), k, euid, reasonGiven, rest, io)
      ensures synced == SyncedAfter(old(text), old(synced), text, io)
    {
      if euid != 0 { return Denied; }
      if !reasonGiven { return Usage; }
      var latest, corrupt := ParseUnlocked();
      if corrupt > 0 { return Untrusted; }
      if k !in latest || latest[k] == NotSent { return Unrecorded(NotSent); }
      var ok := AppendUnlocked(Rec(k, NotSent, rest), io);
      reply := if ok then Recorded(NotSent) else Failed;
    }
  }
}
