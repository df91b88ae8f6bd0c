/** The original driver: one object that launches, observes, stops and seals, and remembers UNKNOWN.

    Everything outside the object (descriptors, processes, clocks, files) is a parameter with an
    arbitrary value.  The ghost field `log` is the history of effects. */
module QualificationDriver {
  import opened Wrappers
  import opened Qualification
  import opened QualificationEnv

  datatype Outcome = Sealed | Rejected | Parked(recorded: bool)

  class Driver {
    const admin: bool
    var unknown: bool
    var effectStarted: bool
    var claimed: bool
    var used: seq<Phase>
    var child: Option<nat>
    var owned: seq<nat>
    var stopped: set<nat>
    var queryUsed: bool
    var startedAt: int
    var installedAt: int
    var turns: seq<Turn>
    var runtimes: set<string>
    ghost var log: seq<Event>

    predicate ChildRunning()
      reads this
    {
      child.Some? && child.value !in stopped
    }

    ghost predicate Fits(pending: seq<Phase>)
      reads this
    {
      && Replay(log).Some?
      && var t := Replay(log).value;
      && t.unknown == unknown
      && (!unknown ==>
            && t.launched == owned && t.terminated == stopped
            && t.running == (if ChildRunning() then child else None)
            && (child.Some? <==> owned != []) && (child.Some? ==> child.value == |owned| - 1 && child.value in owned)
            && (forall c <- owned :: c < |owned|)
            && |owned| <= |PHASES| && used == PHASES[..|owned|] + pending
            && (ChildRunning() && t.queried ==> queryUsed)
            && t.turns == turns && (forall r :: r in t.runtimes <==> r in runtimes))
    }

    /** The fields are what the history of effects says, until UNKNOWN ends it. */
    ghost predicate Valid()
      reads this
    {
      Fits([]) && (!claimed ==> log == [] || unknown)
    }

    constructor (admin: bool, admitted: bool)
      ensures Valid() && !claimed && unknown == !admitted
    {
      this.admin := admin;
      unknown, effectStarted, claimed, used, child, owned, stopped := !admitted, false, false, [], None, [], {};
      queryUsed, startedAt, installedAt, turns, runtimes := false, 0, 0, [], {};
      log := if admitted then [] else [Unknown];
      new;
      if !admitted { ReplaySnoc([], Unknown); assert [] + [Unknown] == [Unknown]; }
    }

    method MarkUnknown(ghost pending: seq<Phase>)
      requires Fits(pending)
      modifies this`unknown, this`log
      ensures Fits([]) && unknown
      ensures log == old(log) + if old(unknown) then [] else [Unknown]
    {
      if !unknown {
        ReplaySnoc(log, Unknown);
        log := log + [Unknown];
      }
      unknown := true;
    }

    /** `_continuity`: any failure is remembered. */
    method Continuity(fine: bool) returns (ok: bool)
      requires Fits([])
      modifies this`unknown, this`log
      ensures Fits([]) && unknown == !ok
      ensures ok <==> !old(unknown) && fine
      ensures ok ==> log == old(log)
      ensures !ok ==> log == old(log) + if old(unknown) then [] else [Unknown]
    {
      if unknown { return false; }
      ok := fine;
      if !ok { MarkUnknown([]); }
    }

    /** `_next_context`: a phase is consumed before its fallible launch, in order, once. */
    method NextContext(phase: Phase, fine: bool) returns (ok: bool)
      requires Fits([])
      modifies this`unknown, this`log, this`used
      ensures Fits(if ok then [phase] else []) && unknown == !ok
      ensures ok <==> !old(unknown) && fine && |old(used)| < 3 && phase == [DeploymentStart, RestartA, RestartB][|old(used)|]
      ensures ok ==> log == old(log) && |owned| == |old(used)| && used == old(used) + [phase]
    {
      if unknown { return false; }
      if |used| >= |PHASES| || phase != PHASES[|used|] { MarkUnknown([]); return false; }
      ok := fine;
      if !ok { MarkUnknown([]); return; }
      used := used + [phase];
    }

    /** `_launch_phase`. */
    method LaunchPhase(phase: Phase, env: LaunchEnv) returns (ok: bool)
      requires Fits([])
      modifies this`unknown, this`log, this`used, this`child, this`owned, this`queryUsed, this`startedAt
      ensures Fits([]) && unknown == !ok
      ensures ok <==> !old(unknown) && LaunchPasses(env) && !old(ChildRunning())
                      && |old(used)| < 3 && phase == [DeploymentStart, RestartA, RestartB][|old(used)|]
      ensures ok ==> log == old(log) + [Launch(phase, |old(owned)|)] && ChildRunning() && !queryUsed
                     && startedAt == env.startedAt && |owned| == |old(owned)| + 1
    {
      if unknown { return false; }
      ok := Continuity(env.before);
      if !ok { return; }
      if ChildRunning() { MarkUnknown([]); return false; }
      ok := NextContext(phase, env.context);
      if !ok { return; }
      queryUsed := false;
      ok := env.claim;
      if !ok { MarkUnknown([phase]); return; }
      startedAt := env.startedAt;
      Spawn(phase);
      ok := env.challenge;
      if !ok { MarkUnknown([]); return; }
      ok := Continuity(env.after);
      if !ok { return; }
      ok := env.alive;
      if !ok { MarkUnknown([]); }
    }

    method Spawn(phase: Phase)
      requires Fits([phase]) && !unknown && !ChildRunning() && !queryUsed
      requires |owned| < |PHASES| && phase == PHASES[|owned|]
      modifies this`child, this`owned, this`log
      ensures Fits([]) && ChildRunning() && log == old(log) + [Launch(phase, |old(owned)|)]
      ensures |owned| == |old(owned)| + 1
    {
      var c := |owned|;
      ReplaySnoc(log, Launch(phase, c));
      ReplaySound(log);
      TerminatedLaunched(log);
      assert c !in owned && c !in stopped;
      hide Sound;
      assert PHASES[..c + 1] == PHASES[..c] + [phase];
      child, owned := Some(c), owned + [c];
      log := log + [Launch(phase, c)];
    }

    /** `_stop_owned_child`: the claim comes before the effect, and only a live owned child is stopped. */
    method StopOwnedChild(env: StopEnv) returns (ok: bool)
      requires Fits([])
      modifies this`unknown, this`log, this`stopped
      ensures Fits([]) && unknown == !ok
      ensures ok <==> !old(unknown) && old(ChildRunning()) && StopPasses(env)
      ensures ok ==> !ChildRunning() && child == old(child) && child.Some?
                     && log == old(log) + [Terminate(child.value), Exit(child.value)]
      ensures ok ==> Replay(log).value.outputs == 0
    {
      if unknown { return false; }
      if child.None? || child.value !in owned || child.value in stopped { MarkUnknown([]); return false; }
      ok := Continuity(env.before);
      if !ok { return; }
      ReplaySound(log);
      ok := TerminateAndWait(child.value, env.alive, env.exits);
      if !ok { return; }
      ok := Continuity(env.after);
    }

    method TerminateAndWait(c: nat, alive: bool, exits: bool) returns (ok: bool)
      requires Fits([]) && !unknown && child == Some(c) && ChildRunning()
      modifies this`unknown, this`log, this`stopped
      ensures Fits([]) && unknown == !ok
      ensures ok <==> alive && exits
      ensures ok ==> !ChildRunning() && log == old(log) + [Terminate(c), Exit(c)]
      ensures ok ==> Replay(log).value.outputs == Replay(old(log)).value.outputs
    {
      hide Sound;
      stopped := stopped + {c};
      if !alive {
        ReplaySnoc(log, Unknown);
        log, unknown := log + [Unknown], true;
        return false;
      }
      ReplaySnoc(log, Terminate(c));
      log := log + [Terminate(c)];
      ok := exits;
      if ok {
        ReplaySnoc(log, Exit(c));
        log := log + [Exit(c)];
      } else {
        ReplaySnoc(log, Unknown);
        log, unknown := log + [Unknown], true;
      }
    }

    /** The start callback of the deployment: it may fail before it launches. */
    method QualificationStart(env: StartEnv) returns (ok: bool)
      requires Fits([])
      modifies this`unknown, this`log, this`used, this`child, this`owned, this`queryUsed, this`startedAt, this`installedAt
      ensures Fits([])
      ensures Harmless(env) || old(unknown) ==> !ok && unchanged(this)
      ensures !Harmless(env) ==> unknown == !ok
      ensures !Harmless(env) && !old(unknown) ==>
                (ok <==> StartPasses(env) && !old(ChildRunning()) && old(used) == [])
      ensures ok ==> log == old(log) + [Launch(DeploymentStart, |old(owned)|)] && ChildRunning() && !queryUsed
                     && startedAt == env.launch.startedAt && installedAt == env.installedAt && |owned| == |old(owned)| + 1
    {
      if unknown || !env.unloaded || !env.installed { return false; }
      ok := Continuity(env.continuity);
      if !ok { return; }
      installedAt := env.installedAt;
      ok := LaunchPhase(DeploymentStart, env.launch);
      assert ok ==> old(used) == [];
    }

    predicate Fresh()
      reads this
    {
      !unknown && used == [] && child.None? && owned == [] && turns == [] && runtimes == {}
    }

    /** `_deploy_original`: the deployment may call its start callback any number of times, and may
        swallow what it raises. */
    method DeployOriginal(env: DeployEnv) returns (ok: bool)
      requires Fits([])
      modifies this`unknown, this`effectStarted, this`log, this`used, this`child, this`owned, this`queryUsed,
               this`startedAt, this`installedAt
      ensures Fits([]) && unknown == !ok
      ensures effectStarted <==> old(effectStarted) || (!old(unknown) && env.bound)
      ensures old(Fresh()) && old(log) == [] ==> (ok <==> DeployPasses(env))
      ensures old(Fresh()) && old(log) == [] && ok ==>
                match TheStart(env.starts)
                case None => child.None?
                case Some(s) =>
                  && log == [Launch(DeploymentStart, 0)] && ChildRunning() && !queryUsed && |owned| == 1
                  && startedAt == s.launch.startedAt && installedAt == s.installedAt
    {
      if unknown { return false; }
      ok := env.bound;
      if !ok { MarkUnknown([]); return; }
      effectStarted := true;
      RunStarts(env.starts);
      ok := env.complete;
      if !ok { MarkUnknown([]); return; }
      ok := Continuity(env.after);
    }

    method RunStarts(starts: seq<StartEnv>)
      requires Fits([])
      modifies this`unknown, this`log, this`used, this`child, this`owned, this`queryUsed, this`startedAt, this`installedAt
      ensures Fits([])
      ensures old(Fresh()) && old(log) == [] ==> (!unknown <==> StartsPass(starts, false))
      ensures old(Fresh()) && old(log) == [] && !unknown ==> Started(TheStart(starts))
    {
      ghost var clean := Fresh() && log == [];
      var i := 0;
      assert starts[0..] == starts;
      while i < |starts|
        invariant 0 <= i <= |starts| && Fits([])
        invariant clean && !unknown ==> StartsPass(starts, false) == StartsPass(starts[i..], ChildRunning())
        invariant clean && unknown ==> !StartsPass(starts, false)
        invariant clean && !unknown && ChildRunning() ==> Started(TheStart(starts)) && TheStart(starts).Some?
        invariant clean && !unknown && !ChildRunning() ==>
                    Fresh() && log == [] && TheStart(starts) == TheStart(starts[i..])
      {
        hide Replay, Fits, LaunchPasses;
        assert starts[i..][0] == starts[i] && starts[i..][1..] == starts[i + 1..];
        var _ := QualificationStart(starts[i]);
        i := i + 1;
      }
    }

    /** What the first launch leaves, or nothing. */
    predicate StartedFields(s: Option<StartEnv>)
      reads this
    {
      match s
      case None => child.None?
      case Some(e) => && ChildRunning() && !queryUsed && |owned| == 1
                      && startedAt == e.launch.startedAt && installedAt == e.installedAt
    }

    ghost predicate Started(s: Option<StartEnv>)
      reads this
    {
      StartedFields(s) && (s.Some? ==> log == [Launch(DeploymentStart, 0)])
    }

    /** One turn of the running child, observed once. */
    method ObservedTurn(env: TurnEnv) returns (ok: bool)
      requires Fits([])
      modifies this`unknown, this`log, this`queryUsed
      ensures Fits([]) && unknown == !ok
      ensures ok <==> !old(unknown) && old(ChildRunning()) && !old(queryUsed) && env.before && env.exchange && env.after
      ensures ok ==> log == old(log) && ChildRunning() && queryUsed && !Replay(log).value.queried
    {
      ok := Continuity(env.before);
      if !ok { return; }
      if !ChildRunning() || queryUsed { MarkUnknown([]); ok := false; return; }
      queryUsed := true;
      ok := env.exchange;
      if !ok { MarkUnknown([]); return; }
      ok := Continuity(env.after);
    }

    /** The tail of one phase: health, runtime, checked turn. */
    method AcceptTurn(value: Turn, runtime: string, health: bool) returns (ok: bool)
      requires Fits([]) && !unknown && ChildRunning() && !Replay(log).value.queried && queryUsed
      modifies this`unknown, this`log, this`turns, this`runtimes
      ensures Fits([]) && unknown == !ok
      ensures ok <==> health && runtime !in old(runtimes) && Checked(value, Last(old(turns)), startedAt)
      ensures ok ==> turns == old(turns) + [value] && runtimes == old(runtimes) + {runtime}
      ensures ok ==> log == old(log) + [Accept(value, runtime)]
    {
      ok := health;
      if !ok || runtime in runtimes { MarkUnknown([]); ok := false; return; }
      if !Checked(value, Last(turns), startedAt) {
        MarkUnknown([]);
        runtimes := runtimes + {runtime};
        ok := false;
        return;
      }
      hide Sound, Checked;
      ReplaySnoc(log, Accept(value, runtime));
      log, turns, runtimes := log + [Accept(value, runtime)], turns + [value], runtimes + {runtime};
    }

    /** One proof name or one proof file. */
    method WriteOutput(n: nat, fine: bool) returns (ok: bool)
      requires Fits([]) && !unknown && !ChildRunning() && |turns| == |PHASES| && Replay(log).value.outputs == n < 4
      modifies this`log
      ensures Fits([]) && ok == fine
      ensures ok ==> log == old(log) + [Output(n)] && Replay(log).value.outputs == n + 1
      ensures !ok ==> log == old(log)
    {
      if !fine { return false; }
      hide Sound;
      ReplaySnoc(log, Output(n));
      log := log + [Output(n)];
      ok := true;
    }

    /** `_seal_owned`, called with no child running. */
    method SealOwned(env: SealEnv) returns (ok: bool)
      requires Fits([]) && !ChildRunning() && (!unknown ==> Replay(log).value.outputs == 0)
      modifies this`unknown, this`log
      ensures Fits([]) && (ok ==> !unknown && Replay(log).value.outputs == 4)
      ensures ok <==> !old(unknown) && |turns| == 3 && SealPasses(env, installedAt, turns)
      ensures ok ==> log == old(log) + [Output(0), Output(1), Output(2), Output(3)]
    {
      hide Replay, Fits;
      ok := Continuity(env.before);
      if !ok { return; }
      if |turns| != |PHASES| { return false; }
      if env.now < installedAt || exists turn <- turns :: env.now < turn.completedAt { return false; }
      ok := WriteOutput(0, env.output(0));
      if !ok { return; }
      ok := WriteOutput(1, env.output(1));
      if !ok { return; }
      ok := Continuity(env.continuity(2));
      if !ok { return; }
      ok := WriteOutput(2, env.output(2));
      if !ok { return; }
      ok := Continuity(env.continuity(3));
      if !ok { return; }
      ok := WriteOutput(3, env.output(3));
      if !ok { return; }
      ok := Continuity(env.after);
    }

    /** After `i` phases of a run that has passed so far; before the first one the child is launched. */
    ghost predicate Reached(env: RunEnv, i: nat)
      reads this
      requires i <= 3 && TheStart(env.deploy.starts).Some?
    {
      && !unknown && ChildRunning() && |turns| == i && (forall j :: 0 <= j < i ==> turns[j] == Value(env, j))
      && (forall r :: r in runtimes <==> exists j :: 0 <= j < i && r == Runtime(env, j))
      && |owned| == (if i == 0 then 1 else i)
      && log == FullScript(env)[..if i == 0 then 1 else 4 * i - 2]
      && installedAt == TheStart(env.deploy.starts).value.installedAt
      && (i == 0 ==> !queryUsed && startedAt == StartedAt(env, 0))
    }

    /** The turn of phase `i`, once its child runs. */
    method TurnOf(env: RunEnv, i: nat) returns (ok: bool)
      requires Fits([]) && i < 3 && TheStart(env.deploy.starts).Some?
      requires !unknown && ChildRunning() && !queryUsed && startedAt == StartedAt(env, i) && |owned| == i + 1
      requires |turns| == i && forall j :: 0 <= j < i ==> turns[j] == Value(env, j)
      requires forall r :: r in runtimes <==> exists j :: 0 <= j < i && r == Runtime(env, j)
      requires installedAt == TheStart(env.deploy.starts).value.installedAt
      requires log + [Accept(Value(env, i), Runtime(env, i))] == FullScript(env)[..4 * i + 2]
      modifies this`unknown, this`log, this`queryUsed, this`turns, this`runtimes
      ensures Fits([]) && unknown == !ok
      ensures ok <==> TurnPasses(env, i)
      ensures ok ==> Reached(env, i + 1)
    {
      hide Replay, Fits, FullScript, TheStart, TurnPasses, Checked;
      var e := env.phases(i).turn;
      TurnChecked(env, i, Last(turns));
      assert e.runtime !in runtimes <==> forall j :: 0 <= j < i ==> Runtime(env, j) != e.runtime;
      ok := ObservedTurn(e);
      if !ok { return; }
      ok := AcceptTurn(e.value, e.runtime, e.health);
    }

    /** One turn of the loop: from the second phase on, stop the last child and launch the next. */
    method PhaseOf(env: RunEnv, i: nat) returns (ok: bool)
      requires Fits([]) && i < 3 && TheStart(env.deploy.starts).Some? && Reached(env, i)
      modifies this`unknown, this`log, this`used, this`child, this`owned, this`stopped,
               this`queryUsed, this`startedAt, this`turns, this`runtimes
      ensures Fits([]) && unknown == !ok
      ensures ok <==> PhasePasses(env, i)
      ensures ok ==> Reached(env, i + 1)
    {
      hide Replay, LaunchPasses, StopPasses, TurnPasses;
      ghost var start := log;
      if i > 0 {
        assert |used| == i;
        ok := StopOwnedChild(env.phases(i).stop);
        if !ok { return; }
        ScriptStop(env, i);
        ok := LaunchPhase(PHASES[i], env.phases(i).launch);
        if !ok { return; }
        ScriptPhase(env, i);
      } else {
        ScriptStart(env);
      }
      hide FullScript, Fits;
      ok := TurnOf(env, i);
    }

    /** `_sequence_owned`, and the admin procedure, which has the same shape. */
    method SequenceOwned(env: RunEnv) returns (ok: bool)
      requires Fits([]) && log == [] && Fresh()
      modifies this`unknown, this`effectStarted, this`log, this`used, this`child, this`owned, this`stopped,
               this`queryUsed, this`startedAt, this`installedAt, this`turns, this`runtimes
      ensures Fits([]) && unknown == !ok
      ensures ok <==> SequencePasses(env)
      ensures effectStarted <==> old(effectStarted) || env.deploy.bound
      ensures ok ==> Replay(log).value.outputs == 4 && log == FullScript(env)
    {
      hide Replay, Fits, StartsPass, TheStart, PhasePasses, StopPasses, SealPasses, FullScript;
      turns, runtimes := [], {};
      ok := DeployOriginal(env.deploy);
      if !ok { return; }
      if TheStart(env.deploy.starts).None? {
        ok := ObservedTurn(env.phases(0).turn);  // there is no child to observe
        return;
      }
      ScriptStart(env);
      var i := 0;
      while i < |PHASES|
        invariant i <= |PHASES| && Fits([]) && Reached(env, i)
        invariant forall j :: 0 <= j < i ==> PhasePasses(env, j)
        invariant effectStarted && env.deploy.bound
      {
        ok := PhaseOf(env, i);
        if !ok { return; }
        i := i + 1;
      }
      ok := StopOwnedChild(env.stop);
      if !ok { return; }
      ScriptStop(env, 3);
      ok := Continuity(env.continuity);
      if !ok { return; }
      assert turns == [Value(env, 0), Value(env, 1), Value(env, 2)];
      ok := SealOwned(env.seal);
      ScriptEnd(env);
      if !ok { MarkUnknown([]); }
    }

    /** `run`: the procedure is claimed once; every failure leaves UNKNOWN, and in the admin branch the
        object then parks with whatever it holds, once an effect has started.  It seals exactly when an
        admitted and unclaimed object meets nothing but passing checks, and then its history is the one
        script of three phases and four outputs. */
    method Run(env: RunEnv) returns (r: Outcome)
      requires Valid()
      modifies this
      ensures Valid() && claimed == (old(claimed) || (!old(unknown) && env.selectors))
      ensures r == Sealed <==> !unknown
      ensures r == Sealed <==> !old(unknown) && !old(claimed) && RunPasses(env)
      ensures r == Sealed ==> log == FullScript(env) && Replay(log).value.outputs == 4
      ensures old(unknown) ==> log == old(log) && r == Rejected
      ensures r.Parked? <==> r != Sealed && !old(unknown) && admin && effectStarted
      ensures effectStarted <==>
                (old(effectStarted) || (!old(unknown) && !old(claimed) && env.selectors && env.source && env.deploy.bound))
    {
      if unknown { return Rejected; }
      var ok := env.selectors && !claimed;
      if ok {
        claimed := true;
        ok := env.source;
        if ok { ok := SequenceOwned(env); } else { MarkUnknown([]); }
      } else {
        claimed := claimed || env.selectors;
        MarkUnknown([]);
      }
      if ok { return Sealed; }
      if !admin || !effectStarted { return Rejected; }
      r := Parked(env.recorded);
    }
  }
}
