/** Everything outside the driver that a run depends on: what each check answers, what is observed, and
    what the clocks say. */
module QualificationEnv {
  import opened Wrappers
  import opened Qualification

  datatype LaunchEnv = LaunchEnv(
    before: bool,      // continuity
    context: bool,     // window, canonical lock and consuming binary
    claim: bool,       // the exclusive phase claim, its readback, the child descriptors
    startedAt: int,
    challenge: bool,   // the handoff
    after: bool,       // continuity
    alive: bool)       // the child is still there

  datatype StopEnv = StopEnv(before: bool, alive: bool, exits: bool, after: bool)

  /** One call of the deployment's start callback. */
  datatype StartEnv = StartEnv(
    unloaded: bool,    // both routes
    installed: bool,   // the installed files
    continuity: bool,
    installedAt: int,
    launch: LaunchEnv)

  datatype DeployEnv = DeployEnv(bound: bool, starts: seq<StartEnv>, complete: bool, after: bool)

  datatype TurnEnv = TurnEnv(before: bool, exchange: bool, after: bool, health: bool, value: Turn, runtime: string)

  datatype PhaseEnv = PhaseEnv(stop: StopEnv, launch: LaunchEnv, turn: TurnEnv)

  datatype SealEnv = SealEnv(
    before: bool,
    now: int,
    output: nat -> bool,       // 0, 1: exclusive creation of a name; 2, 3: a complete write read back
    continuity: nat -> bool,   // before each write
    after: bool)

  datatype RunEnv = RunEnv(
    selectors: bool,   // before the procedure is claimed
    source: bool,      // pinned sources
    deploy: DeployEnv,
    phases: nat -> PhaseEnv,
    stop: StopEnv,
    continuity: bool,
    seal: SealEnv,
    recorded: bool)

  // ---------- when each part passes ----------

  predicate LaunchPasses(e: LaunchEnv) { e.before && e.context && e.claim && e.challenge && e.after && e.alive }

  predicate StopPasses(e: StopEnv) { e.before && e.alive && e.exits && e.after }

  /** The callback fails before it has touched the driver. */
  predicate Harmless(e: StartEnv) { !e.unloaded || !e.installed }

  predicate StartPasses(e: StartEnv) { e.unloaded && e.installed && e.continuity && LaunchPasses(e.launch) }

  /** No call of the callback leaves UNKNOWN. */
  predicate StartsPass(es: seq<StartEnv>, running: bool)
    decreases |es|
  {
    es == [] ||
    if Harmless(es[0]) then StartsPass(es[1..], running)
    else !running && StartPasses(es[0]) && StartsPass(es[1..], true)
  }

  /** The first call that touches the driver. */
  function TheStart(es: seq<StartEnv>): Option<StartEnv>
    decreases |es|
  {
    if es == [] then None else if Harmless(es[0]) then TheStart(es[1..]) else Some(es[0])
  }

  predicate AllHarmless(es: seq<StartEnv>) { forall e <- es :: Harmless(e) }

  /** Call `i` passes, and every other one is harmless. */
  predicate OnlyAt(es: seq<StartEnv>, i: nat)
    requires i < |es|
  {
    StartPasses(es[i]) && forall j :: 0 <= j < |es| && j != i ==> Harmless(es[j])
  }

  lemma OnlyAtHead(es: seq<StartEnv>)
    requires es != []
    ensures OnlyAt(es, 0) <==> StartPasses(es[0]) && AllHarmless(es[1..])
    ensures AllHarmless(es) <==> Harmless(es[0]) && AllHarmless(es[1..])
  {
    hide StartPasses, Harmless;
    assert es == [es[0]] + es[1..];
    assert forall j :: 0 < j < |es| ==> es[j] == es[1..][j - 1];
    assert forall j :: 0 <= j < |es[1..]| ==> es[1..][j] == es[j + 1];
  }

  lemma OnlyAtTail(es: seq<StartEnv>, i: nat)
    requires 0 < i < |es|
    ensures OnlyAt(es, i) <==> Harmless(es[0]) && OnlyAt(es[1..], i - 1)
  {
    hide StartPasses, Harmless;
    assert forall j :: 0 < j < |es| ==> es[j] == es[1..][j - 1];
    assert forall j :: 0 <= j < |es[1..]| ==> es[1..][j] == es[j + 1];
  }

  lemma {:induction false} HarmlessStarts(es: seq<StartEnv>)
    ensures StartsPass(es, true) <==> AllHarmless(es)
    ensures TheStart(es).None? <==> AllHarmless(es)
    decreases |es|
  {
    hide StartPasses, Harmless, AllHarmless;
    if es == [] {
      NothingHarmful();
    } else {
      OnlyAtHead(es);
      HarmlessStarts(es[1..]);
    }
  }

  lemma NothingHarmful()
    ensures AllHarmless([])
  {
  }

  lemma NotBoth(e: StartEnv)
    ensures !(StartPasses(e) && Harmless(e))
  {
  }

  /** The deployment launches once exactly when one call passes and every other one is harmless. */
  lemma {:induction false} ExactlyOneStart(es: seq<StartEnv>)
    ensures StartsPass(es, false) && TheStart(es).Some? <==> exists i :: 0 <= i < |es| && OnlyAt(es, i)
    decreases |es|
  {
    hide StartPasses, Harmless, AllHarmless, OnlyAt;
    if es != [] {
      OnlyAtHead(es);
      NotBoth(es[0]);
      HarmlessStarts(es[1..]);
      ExactlyOneStart(es[1..]);
      forall i | 0 < i < |es| ensures OnlyAt(es, i) <==> Harmless(es[0]) && OnlyAt(es[1..], i - 1) { OnlyAtTail(es, i); }
      if i :| 0 <= i < |es[1..]| && OnlyAt(es[1..], i) {
        OnlyAtTail(es, i + 1);
      }
    }
  }

  /** When the child of phase `i` was started. */
  function StartedAt(env: RunEnv, i: nat): int
    requires i == 0 ==> TheStart(env.deploy.starts).Some?
  {
    if i == 0 then TheStart(env.deploy.starts).value.launch.startedAt else env.phases(i).launch.startedAt
  }

  predicate HexDigest(s: string) { |s| == 64 && forall c <- s :: '0' <= c <= '9' || 'a' <= c <= 'f' }

  /** The turn of phase `i` is observed, healthy, well formed, of this start, and later than and different
      from the turn before it; its runtime is new. */
  predicate TurnPasses(env: RunEnv, i: nat)
    requires i == 0 ==> TheStart(env.deploy.starts).Some?
  {
    var e := env.phases(i).turn;
    var v := e.value;
    && e.before && e.exchange && e.after && e.health
    && v.floor > 0 && v.maxIssuedTurnSeq > 0 && v.processGeneration > 0 && v.completedAt > 0
    && v.floor == v.processGeneration && v.completedAt >= StartedAt(env, i)
    && v.handle != "" && HexDigest(v.message) && HexDigest(v.receipt)
    && (forall j :: 0 <= j < i ==> Runtime(env, j) != e.runtime)
    && (i > 0 ==>
          var w := env.phases(i - 1).turn.value;
          && v.processGeneration > w.processGeneration && v.maxIssuedTurnSeq > w.maxIssuedTurnSeq
          && v.handle != w.handle && v.message != w.message && v.receipt != w.receipt)
  }

  /** `_checked_turn` asks for exactly that of the turn. */
  lemma TurnChecked(env: RunEnv, i: nat, previous: Option<Turn>)
    requires i == 0 ==> TheStart(env.deploy.starts).Some?
    requires previous == if i == 0 then None else Some(env.phases(i - 1).turn.value)
    ensures var e := env.phases(i).turn;
      TurnPasses(env, i) <==>
        (e.before && e.exchange && e.after && e.health
         && (forall j :: 0 <= j < i ==> Runtime(env, j) != e.runtime)
         && Checked(e.value, previous, StartedAt(env, i)))
  {
    assert forall s :: Hash(s) <==> HexDigest(s);
    hide Hash, HexDigest, TheStart;
  }

  predicate PhasePasses(env: RunEnv, i: nat)
    requires i == 0 ==> TheStart(env.deploy.starts).Some?
  {
    (i > 0 ==> StopPasses(env.phases(i).stop) && LaunchPasses(env.phases(i).launch)) && TurnPasses(env, i)
  }

  /** The wall clock is not behind the installation or any turn, both names are free, both writes complete. */
  predicate SealPasses(e: SealEnv, installedAt: int, turns: seq<Turn>) {
    && e.before && e.now >= installedAt && (forall turn <- turns :: e.now >= turn.completedAt)
    && e.output(0) && e.output(1) && e.continuity(2) && e.output(2) && e.continuity(3) && e.output(3)
    && e.after
  }

  function Value(env: RunEnv, i: nat): Turn { env.phases(i).turn.value }

  function Runtime(env: RunEnv, i: nat): string { env.phases(i).turn.runtime }

  predicate DeployPasses(e: DeployEnv) { e.bound && StartsPass(e.starts, false) && e.complete && e.after }

  /** One start, three phases, the last stop, the seal. */
  predicate SequencePasses(env: RunEnv) {
    && DeployPasses(env.deploy) && TheStart(env.deploy.starts).Some?
    && PhasePasses(env, 0) && PhasePasses(env, 1) && PhasePasses(env, 2)
    && StopPasses(env.stop) && env.continuity
    && SealPasses(env.seal, TheStart(env.deploy.starts).value.installedAt, [Value(env, 0), Value(env, 1), Value(env, 2)])
  }

  predicate RunPasses(env: RunEnv) { env.selectors && env.source && SequencePasses(env) }

  // ---------- the one history of a sealed run ----------

  function FullScript(env: RunEnv): (s: seq<Event>)
    ensures |s| == 16
  {
    [Launch(DeploymentStart, 0), Accept(Value(env, 0), Runtime(env, 0)), Terminate(0), Exit(0),
     Launch(RestartA, 1), Accept(Value(env, 1), Runtime(env, 1)), Terminate(1), Exit(1),
     Launch(RestartB, 2), Accept(Value(env, 2), Runtime(env, 2)), Terminate(2), Exit(2),
     Output(0), Output(1), Output(2), Output(3)]
  }

  lemma ScriptStart(env: RunEnv)
    ensures FullScript(env)[..1] == [Launch(DeploymentStart, 0)]
    ensures FullScript(env)[..1] + [Accept(Value(env, 0), Runtime(env, 0))] == FullScript(env)[..2]
  {
  }

  lemma ScriptStop(env: RunEnv, i: nat)
    requires 1 <= i <= 3
    ensures FullScript(env)[..4 * i - 2] + [Terminate(i - 1), Exit(i - 1)] == FullScript(env)[..4 * i]
  {
    if i == 1 { } else if i == 2 { } else { }
  }

  lemma ScriptPhase(env: RunEnv, i: nat)
    requires 1 <= i < 3
    ensures FullScript(env)[..4 * i] + [Launch(PHASES[i], i)] + [Accept(Value(env, i), Runtime(env, i))]
            == FullScript(env)[..4 * i + 2]
  {
    if i == 1 { } else { }
  }

  lemma ScriptEnd(env: RunEnv)
    ensures FullScript(env)[..12] + [Output(0), Output(1), Output(2), Output(3)] == FullScript(env)
  {
  }
}
