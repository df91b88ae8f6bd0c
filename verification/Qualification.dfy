/** The effects of a qualification run, and the automaton that accepts the allowed histories. */
module Qualification {
  import opened Wrappers

  datatype Phase = DeploymentStart | RestartA | RestartB

  const PHASES: seq<Phase> := [DeploymentStart, RestartA, RestartB]

  /** One observed turn. */
  datatype Turn = Turn(floor: int, maxIssuedTurnSeq: int, processGeneration: int, completedAt: int,
                       handle: string, message: string, receipt: string)

  predicate Hash(s: string) { |s| == 64 && forall c <- s :: '0' <= c <= '9' || 'a' <= c <= 'f' }

  /** A later turn of a restarted process. */
  predicate Follows(value: Turn, previous: Turn) {
    && value.processGeneration > previous.processGeneration
    && value.maxIssuedTurnSeq > previous.maxIssuedTurnSeq
    && value.handle != previous.handle && value.message != previous.message && value.receipt != previous.receipt
  }

  /** `_checked_turn`; list-typed fields of the observation are not part of the turn here. */
  predicate Checked(value: Turn, previous: Option<Turn>, startedAt: int) {
    && value.floor > 0 && value.maxIssuedTurnSeq > 0 && value.processGeneration > 0 && value.completedAt > 0
    && value.floor == value.processGeneration && value.completedAt >= startedAt
    && value.handle != "" && Hash(value.message) && Hash(value.receipt)
    && (previous.Some? ==> Follows(value, previous.value))
  }

  datatype Event =
    | Launch(phase: Phase, child: nat)
    | Accept(turn: Turn, runtime: string)
    | Terminate(child: nat)
    | Exit(child: nat)
    | Output(n: nat)    // 0, 1: a proof name is claimed; 2, 3: its bytes are written
    | Unknown

  datatype Track = Track(
    launched: seq<nat>, running: Option<nat>, terminated: set<nat>, queried: bool,
    turns: seq<Turn>, runtimes: seq<string>, outputs: nat, unknown: bool)

  const START := Track([], None, {}, false, [], [], 0, false)

  function Last(turns: seq<Turn>): Option<Turn> { if turns == [] then None else Some(turns[|turns| - 1]) }

  function Next(t: Track, e: Event): Option<Track> {
    if t.unknown then None
    else match e
      case Launch(p, c) =>
        if t.running.None? && t.outputs == 0 && |t.launched| < |PHASES| && p == PHASES[|t.launched|] && c !in t.launched
        then Some(t.(launched := t.launched + [c], running := Some(c), queried := false)) else None
      case Accept(turn, runtime) =>
        if t.running.Some? && t.running.value !in t.terminated && !t.queried && runtime !in t.runtimes
           && (t.turns != [] ==> Follows(turn, t.turns[|t.turns| - 1]))
        then Some(t.(turns := t.turns + [turn], runtimes := t.runtimes + [runtime], queried := true)) else None
      case Terminate(c) =>
        if t.running == Some(c) && c !in t.terminated then Some(t.(terminated := t.terminated + {c})) else None
      case Exit(c) =>
        if t.running == Some(c) && c in t.terminated then Some(t.(running := None)) else None
      case Output(n) =>
        if n == t.outputs < 4 && |t.turns| == |PHASES| && t.running.None? then Some(t.(outputs := n + 1)) else None
      case Unknown => Some(t.(unknown := true))
  }

  /** None when the history is not allowed. */
  function Replay(log: seq<Event>): Option<Track>
    decreases |log|
  {
    if log == [] then Some(START)
    else match Replay(log[..|log| - 1])
      case None => None
      case Some(t) => Next(t, log[|log| - 1])
  }

  lemma ReplaySnoc(log: seq<Event>, e: Event)
    ensures Replay(log + [e]) == match Replay(log) case None => None case Some(t) => Next(t, e)
  {
    assert (log + [e])[..|log + [e]| - 1] == log;
  }

  lemma {:induction false} PrefixAllowed(log: seq<Event>, n: nat)
    requires n <= |log| && Replay(log).Some?
    ensures Replay(log[..n]).Some?
    decreases |log|
  {
    if n < |log| {
      var front := log[..|log| - 1];
      assert front[..n] == log[..n];
      PrefixAllowed(front, n);
    } else {
      assert log[..n] == log;
    }
  }

  // ---------- what allowed histories have in common ----------

  predicate Increasing(turns: seq<Turn>) {
    forall i, j :: 0 <= i < j < |turns| ==>
      && turns[i].processGeneration < turns[j].processGeneration
      && turns[i].maxIssuedTurnSeq < turns[j].maxIssuedTurnSeq
  }

  predicate Distinct<T(==)>(s: seq<T>) { forall i, j :: 0 <= i < j < |s| ==> s[i] != s[j] }

  /** Kept by every event. */
  predicate Sound(t: Track) {
    && |t.launched| <= |PHASES| && Distinct(t.launched)
    && (t.running.Some? ==> t.launched != [] && t.running.value == t.launched[|t.launched| - 1])
    && (forall c <- t.launched :: t.running == Some(c) || c in t.terminated)
    && |t.turns| == |t.runtimes| <= |t.launched|
    && (|t.turns| == |t.launched| && t.turns != [] ==> t.queried)
    && Increasing(t.turns) && Distinct(t.runtimes)
    && (t.outputs > 0 ==> t.running.None? && |t.turns| == |PHASES|)
  }

  lemma NextSound(t: Track, e: Event)
    requires Sound(t) && Next(t, e).Some?
    ensures Sound(Next(t, e).value)
  {
    if e.Accept? && t.turns != [] {
      var last := t.turns[|t.turns| - 1];
      assert forall i :: 0 <= i < |t.turns| ==> t.turns[i].processGeneration <= last.processGeneration
                                                && t.turns[i].maxIssuedTurnSeq <= last.maxIssuedTurnSeq;
    }
  }

  lemma {:induction false} ReplaySound(log: seq<Event>)
    requires Replay(log).Some?
    ensures Sound(Replay(log).value)
    decreases |log|
  {
    if log != [] {
      ReplaySound(log[..|log| - 1]);
      NextSound(Replay(log[..|log| - 1]).value, log[|log| - 1]);
    }
  }

  function Launches(log: seq<Event>): seq<Phase>
    decreases |log|
  {
    if log == [] then []
    else Launches(log[..|log| - 1]) + (if log[|log| - 1].Launch? then [log[|log| - 1].phase] else [])
  }

  function Running(log: seq<Event>): set<nat>
    decreases |log|
  {
    if log == [] then {}
    else match log[|log| - 1]
      case Launch(_, c) => Running(log[..|log| - 1]) + {c}
      case Exit(c) => Running(log[..|log| - 1]) - {c}
      case _ => Running(log[..|log| - 1])
  }

  lemma NextLaunched(t: Track, e: Event)
    requires Next(t, e).Some?
    ensures Next(t, e).value.launched == if e.Launch? then t.launched + [e.child] else t.launched
    ensures e.Launch? ==> |t.launched| < |PHASES| && e.phase == PHASES[|t.launched|]
  {
  }

  lemma {:induction false} TracksLaunches(log: seq<Event>)
    requires Replay(log).Some?
    ensures |Replay(log).value.launched| <= |PHASES|
    ensures Launches(log) == PHASES[..|Replay(log).value.launched|]
    decreases |log|
  {
    hide Next;
    if log != [] {
      var e := log[|log| - 1];
      TracksLaunches(log[..|log| - 1]);
      NextLaunched(Replay(log[..|log| - 1]).value, e);
      var k := |Replay(log[..|log| - 1]).value.launched|;
      assert e.Launch? ==> PHASES[..k + 1] == PHASES[..k] + [PHASES[k]];
    }
  }

  lemma {:induction false} TracksRunning(log: seq<Event>)
    requires Replay(log).Some?
    ensures Running(log) == if Replay(log).value.running.Some? then {Replay(log).value.running.value} else {}
    decreases |log|
  {
    if log != [] { TracksRunning(log[..|log| - 1]); }
  }

  /** At every moment of an allowed history the launches so far are the first phases in order, and at
      most one owned child has not exited. */
  lemma PhasesInOrderOneChild(log: seq<Event>, n: nat)
    requires Replay(log).Some? && n <= |log|
    ensures |Launches(log[..n])| <= |PHASES| && Launches(log[..n]) == PHASES[..|Launches(log[..n])|]
    ensures |Running(log[..n])| <= 1
  {
    PrefixAllowed(log, n);
    TracksLaunches(log[..n]);
    TracksRunning(log[..n]);
  }

  /** Nothing follows UNKNOWN: no launch, stop or seal. */
  lemma {:induction false} UnknownIsLast(log: seq<Event>, n: nat)
    requires Replay(log).Some? && n < |log| && log[n] == Unknown
    ensures n == |log| - 1
    decreases |log|
  {
    if n < |log| - 1 {
      var front := log[..|log| - 1];
      UnknownIsLast(front, n);
    }
  }

  // ---------- a sealed history is one exact script ----------

  function Script(cs: seq<nat>, ts: seq<Turn>, rs: seq<string>): seq<Event>
    requires |cs| == |ts| == |rs| <= |PHASES|
    decreases |cs|
  {
    if cs == [] then []
    else
      var k := |cs| - 1;
      Script(cs[..k], ts[..k], rs[..k])
      + [Launch(PHASES[k], cs[k]), Accept(ts[k], rs[k]), Terminate(cs[k]), Exit(cs[k])]
  }

  function Outputs(n: nat): seq<Event> { seq(n, i requires 0 <= i < n => Output(i)) }

  /** Every child launched so far gave its turn, or may still give it. */
  predicate NoneMissed(t: Track) {
    |t.turns| == |t.launched| || (|t.turns| + 1 == |t.launched| && t.running.Some? && !t.queried && t.running.value !in t.terminated)
  }

  /** The only history that leads to a track in which no child was missed. */
  function Only(t: Track): seq<Event>
    requires Sound(t) && NoneMissed(t)
  {
    var k := |t.launched|;
    if t.running.None? then Script(t.launched, t.turns, t.runtimes) + Outputs(t.outputs)
    else
      var c := t.launched[k - 1];
      Script(t.launched[..k - 1], t.turns[..k - 1], t.runtimes[..k - 1])
      + [Launch(PHASES[k - 1], c)]
      + (if |t.turns| == k then [Accept(t.turns[k - 1], t.runtimes[k - 1])] else [])
      + (if c in t.terminated then [Terminate(c)] else [])
  }

  predicate Regular(t: Track) { Sound(t) && forall c <- t.terminated :: c in t.launched }

  lemma LaunchFacts(t: Track, p: Phase, c: nat)
    requires Regular(t) && Next(t, Launch(p, c)).Some? && NoneMissed(Next(t, Launch(p, c)).value)
    ensures c !in t.terminated && |t.turns| == |t.runtimes| == |t.launched| && NoneMissed(t)
  {
  }

  lemma OnlyLaunch(t: Track, p: Phase, c: nat)
    requires Regular(t) && Next(t, Launch(p, c)).Some?
    requires Sound(Next(t, Launch(p, c)).value) && NoneMissed(Next(t, Launch(p, c)).value)
    ensures NoneMissed(t) && Only(Next(t, Launch(p, c)).value) == Only(t) + [Launch(p, c)]
  {
    hide Sound, Script, NoneMissed;
    LaunchFacts(t, p, c);
    var u, k := Next(t, Launch(p, c)).value, |t.launched|;
    assert u.launched[..k] == t.launched && t.turns[..k] == t.turns && t.runtimes[..k] == t.runtimes;
    assert Only(t) == Script(t.launched, t.turns, t.runtimes);
  }

  lemma OnlyAccept(t: Track, turn: Turn, runtime: string)
    requires Regular(t) && Next(t, Accept(turn, runtime)).Some?
    requires Sound(Next(t, Accept(turn, runtime)).value) && NoneMissed(Next(t, Accept(turn, runtime)).value)
    ensures NoneMissed(t) && Only(Next(t, Accept(turn, runtime)).value) == Only(t) + [Accept(turn, runtime)]
  {
    var u, k := Next(t, Accept(turn, runtime)).value, |t.launched|;
    assert |t.turns| == k - 1;
    assert u.turns[..k - 1] == t.turns == t.turns[..k - 1];
    assert u.runtimes[..k - 1] == t.runtimes == t.runtimes[..k - 1];
    hide Sound, Script;
  }

  lemma OnlyTerminate(t: Track, c: nat)
    requires Regular(t) && Next(t, Terminate(c)).Some?
    requires Sound(Next(t, Terminate(c)).value) && NoneMissed(Next(t, Terminate(c)).value)
    ensures NoneMissed(t) && Only(Next(t, Terminate(c)).value) == Only(t) + [Terminate(c)]
  {
    assert |t.turns| == |t.launched|;
    hide Script;
  }

  lemma OnlyExit(t: Track, c: nat)
    requires Regular(t) && Next(t, Exit(c)).Some?
    requires Sound(Next(t, Exit(c)).value) && NoneMissed(Next(t, Exit(c)).value)
    ensures NoneMissed(t) && Only(Next(t, Exit(c)).value) == Only(t) + [Exit(c)]
  {
    assert t.outputs == 0 && |t.turns| == |t.launched|;
  }

  lemma OnlyOutput(t: Track, n: nat)
    requires Regular(t) && Next(t, Output(n)).Some?
    requires Sound(Next(t, Output(n)).value) && NoneMissed(Next(t, Output(n)).value)
    ensures NoneMissed(t) && Only(Next(t, Output(n)).value) == Only(t) + [Output(n)]
  {
    hide Script;
    assert Outputs(n + 1) == Outputs(n) + [Output(n)];
  }

  lemma NextOnly(t: Track, e: Event)
    requires Regular(t) && Next(t, e).Some? && !e.Unknown?
    requires Sound(Next(t, e).value) && NoneMissed(Next(t, e).value)
    ensures NoneMissed(t) && Only(Next(t, e).value) == Only(t) + [e]
  {
    hide Only, Next, Sound, NoneMissed, Regular;
    match e
    case Launch(p, c) => OnlyLaunch(t, p, c);
    case Accept(turn, runtime) => OnlyAccept(t, turn, runtime);
    case Terminate(c) => OnlyTerminate(t, c);
    case Exit(c) => OnlyExit(t, c);
    case Output(n) => OnlyOutput(t, n);
  }

  lemma EmptyHistory()
    ensures Sound(START) && Only(START) == []
  {
  }

  lemma ReplayLast(log: seq<Event>)
    requires log != [] && Replay(log).Some? && !Replay(log).value.unknown
    ensures var front := log[..|log| - 1];
      && Replay(front).Some? && !Replay(front).value.unknown && !log[|log| - 1].Unknown?
      && Next(Replay(front).value, log[|log| - 1]) == Replay(log)
      && log == front + [log[|log| - 1]]
  {
  }

  lemma {:induction false} OnlyHistory(log: seq<Event>)
    requires Replay(log).Some? && !Replay(log).value.unknown && NoneMissed(Replay(log).value)
    ensures Sound(Replay(log).value) && log == Only(Replay(log).value)
    decreases |log|
  {
    ReplaySound(log);
    if log == [] {
      EmptyHistory();
    } else {
      hide Only, Next, Sound, NoneMissed, Replay;
      var front := log[..|log| - 1];
      ReplayLast(log);
      ReplayRegular(front);
      NextOnly(Replay(front).value, log[|log| - 1]);
      OnlyHistory(front);
    }
  }

  lemma ReplayRegular(log: seq<Event>)
    requires Replay(log).Some?
    ensures Regular(Replay(log).value)
  {
    ReplaySound(log);
    TerminatedLaunched(log);
  }

  lemma {:induction false} TerminatedLaunched(log: seq<Event>)
    requires Replay(log).Some?
    ensures forall c <- Replay(log).value.terminated :: c in Replay(log).value.launched
    decreases |log|
  {
    ReplaySound(log);
    if log != [] {
      var front := log[..|log| - 1];
      ReplaySound(front);
      TerminatedLaunched(front);
    }
  }

  /** Once a proof name is claimed the whole history is forced: three phases in order, in each one
      turn before the stop, every child exited, then the outputs in order, and at most UNKNOWN after
      them.  The turns have strictly increasing generations and sequence numbers and pairwise distinct
      runtimes. */
  lemma SealedHistory(log: seq<Event>)
    requires Replay(log).Some? && Replay(log).value.outputs > 0
    ensures var t := Replay(log).value;
      && |t.launched| == |t.turns| == |t.runtimes| == |PHASES|
      && log == Script(t.launched, t.turns, t.runtimes) + Outputs(t.outputs) + (if t.unknown then [Unknown] else [])
      && Increasing(t.turns) && Distinct(t.runtimes) && Distinct(t.launched) && Running(log) == {}
  {
    ReplaySound(log);
    TracksRunning(log);
    var t := Replay(log).value;
    if t.unknown {
      var front := log[..|log| - 1];
      ReplaySound(front);
      OnlyHistory(front);
      assert log == front + [Unknown];
    } else {
      OnlyHistory(log);
    }
  }
}
