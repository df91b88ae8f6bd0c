/** What every run of the journal and lifecycle keeps. */
module LaunchSafety {
  import opened Wrappers
  import opened Receipts
  import opened Journal
  import opened Lifecycle

  /** Some receipt that only exists after a completed seal. */
  predicate PastSeal(s: Store) {
    AttemptOrLater(s) || LaunchClaimed in s || TerminalPresent(s)
  }

  predicate SealReads(s: Store) { Readback(s, PhaseSealed).Some? }

  /** The invariant of every reachable state. */
  ghost predicate Inv(w: World) {
    && |w.tokens| <= 1
    && (PastSeal(w.files) ==> SealReads(w.files))
    // A live token belongs to a complete seal that nothing has followed.
    && (w.tokens != [] ==> SealReads(w.files) && !PastSeal(w.files))
    // Terminals exclude each other; a terminal record is the one its tombstone binds.
    && !(PhaseUnknown in w.files && KeyTombstone in w.files)
    && !(PhaseClosed in w.files && PhaseAbandoned in w.files)
    && (forall k :: k in {PhaseClosed, PhaseAbandoned} && k in w.files ==>
          && KeyTombstone in w.files
          && (w.files[k].Whole? ==>
                && w.files[k].rec.PhaseRec?
                && w.files[KeyTombstone] == Whole(TombstoneFor(w.files[k].rec))))
    // An abandonment and a launch attempt exclude each other.
    && (AbandonMark(w.files) ==> !AttemptOrLater(w.files) && LaunchClaimed !in w.files)
    && (LaunchClaimed in w.files ==> PhaseLaunchAttempt in w.files)
  }

  /** A readable ABANDONED tombstone, or any ABANDONED record. */
  predicate AbandonMark(s: Store) {
    || PhaseAbandoned in s
    || (KeyTombstone in s && s[KeyTombstone].Whole? && s[KeyTombstone].rec.TombstoneRec?
        && s[KeyTombstone].rec.phase == Abandoned)
  }

  /** A readable seal means that no name a seal writes is free. */
  lemma SealNamesTaken(s: Store)
    requires SealReads(s)
    ensures Intent in s && LaunchAuthorization in s && BundleJson in s
    ensures LiveHandleIndex in s && BundleCommitment in s && PhaseSealed in s
    ensures Readback(s, BundleCommitment).Some? && Readback(s, LaunchAuthorization).Some? && Readback(s, BundleJson).Some?
  {
    ParentsRead(s, PhaseSealed);
    assert BundleCommitment in Parents(PhaseSealed);
    ParentsRead(s, BundleCommitment);
    assert {LaunchAuthorization, LiveHandleIndex, BundleJson} <= Parents(BundleCommitment);
    ParentsRead(s, LaunchAuthorization);
    assert Intent in Parents(LaunchAuthorization);
  }

  lemma SealStays(s: Store, t: Store)
    requires SealReads(s) && Extends(s, t)
    ensures SealReads(t)
  {
    ReadbackStable(s, t, PhaseSealed);
  }

  /** Every phase record that can be built at all hangs off a readable seal. */
  lemma {:induction false} ParentReadsSeal(s: Store, k: Kind)
    requires k in {PhaseSealed, PhaseLaunchAttempt, PhaseStartup, PhaseConsumption}
    requires Read(s, k).Some?
    ensures SealReads(s)
    decreases LRank(k)
  {
    if k == PhaseLaunchAttempt {
      ParentsRead(s, PhaseLaunchAttempt);
      assert PhaseSealed in Parents(PhaseLaunchAttempt);
    } else if k != PhaseSealed {
      assert Admits(s, k, s[k].rec);
      ParentReadsSeal(s, ParentOf(s, k).value);
    }
  }

  lemma PhaseOfRead(s: Store, k: Kind)
    requires k in {PhaseStartup, PhaseConsumption, PhaseAbandoned, PhaseClosed, PhaseUnknown} && Read(s, k).Some?
    ensures Read(s, k).value.phase == StateOf(k)
  {
    assert Admits(s, k, s[k].rec);
  }

  lemma InvSealBundle(w: World, b: Bundle, at: int, io: SealIO)
    requires Inv(w)
    ensures Inv(SealBundle(w, b, at, io).world)
  {
    if PastSeal(w.files) || w.tokens != [] {
      SealNamesTaken(w.files);
    } else {
      var o := SealBundle(w, b, at, io);
      assert !PastSeal(o.world.files);
    }
  }

  lemma InvClaim(w: World, at: int, io: (WriteOutcome, WriteOutcome))
    requires Inv(w)
    ensures Inv(ClaimLaunch(w, at, io).world)
  {
    var o := ClaimLaunch(w, at, io);
    if PastSeal(w.files) || w.tokens != [] { SealStays(w.files, o.world.files); }
  }

  lemma InvCreatePhase(w: World, k: Kind, r: Record, o: WriteOutcome)
    requires Inv(w) && !TerminalPresent(w.files) && w.tokens == [] && SealReads(w.files)
    requires k in {PhaseStartup, PhaseConsumption, PhaseUnknown}
    ensures Inv(w.(files := Create(w.files, k, r, o)))
  {
    SealStays(w.files, Create(w.files, k, r, o));
  }

  lemma InvRecord(w: World, k: Kind, v: Observation, at: int, parent: Kind, o: WriteOutcome)
    requires Inv(w) && !TerminalPresent(w.files)
    requires k in {PhaseStartup, PhaseConsumption, PhaseUnknown}
    requires parent in {PhaseSealed, PhaseLaunchAttempt, PhaseStartup, PhaseConsumption}
    requires LRank(parent) < LRank(k) && (w.tokens != [] ==> parent != PhaseSealed)
    ensures Inv(RecordPhase(w, k, v, at, parent, o).world)
  {
    var r := RecordFrom(w.files, k, v, at, parent);
    if r.Some? {
      ParentReadsSeal(w.files, parent);
      InvCreatePhase(w, k, r.value, o);
    }
  }

  /** Both writes of a terminal call, as far as they got. */
  lemma InvMarks(s: Store, k: Kind, r: Record, io: (WriteOutcome, WriteOutcome))
    requires Inv(World(s, [])) && !TerminalPresent(s) && SealReads(s) && r.PhaseRec?
    requires (k == PhaseClosed && r.phase == Closed)
          || (k == PhaseAbandoned && r.phase == Abandoned && !AttemptOrLater(s))
    ensures Inv(World(Create(s, KeyTombstone, TombstoneFor(r), io.0), []))
    ensures io.0.Completed? ==>
              Inv(World(Create(Create(s, KeyTombstone, TombstoneFor(r), io.0), k, r, io.1), []))
  {
    var t := Create(s, KeyTombstone, TombstoneFor(r), io.0);
    SealStays(s, t);
    SealStays(s, Create(t, k, r, io.1));
  }

  lemma InvTerminal(w: World, k: Kind, v: Observation, at: int, parent: Kind, io: (WriteOutcome, WriteOutcome))
    requires Inv(w)
    requires (k == PhaseClosed && parent == PhaseConsumption)
          || (k == PhaseAbandoned && parent == PhaseSealed && !AttemptOrLater(w.files))
    ensures Inv(Terminal(w, k, v, at, parent, io).world)
  {
    var r := RecordFrom(w.files, k, v, at, parent);
    if !TerminalPresent(w.files) && r.Some? {
      ParentReadsSeal(w.files, parent);
      assert Inv(World(w.files, []));
      InvMarks(w.files, k, r.value, io);
    }
  }

  lemma InvSealReceipt(w: World, k: Kind, r: Record, o: WriteOutcome)
    requires Inv(w) && k in {Intent, LaunchAuthorization}
    ensures Inv(WriteReceipt(w, k, r, o).world)
  {
    if PastSeal(w.files) || w.tokens != [] { SealNamesTaken(w.files); }
  }

  lemma InvJournalStep(w: World, e: Event)
    requires Inv(w) && IsJournalCall(e)
    ensures Inv(Step(w, e))
  {
    match e
    case CallSealIntent(nonce, preimage, at, o) => InvSealReceipt(w, Intent, IntentRec(preimage, ShaText(nonce), at), o);
    case CallSealAuthorization(a, o) =>
      var intent := Readback(w.files, Intent);
      if intent.Some? { InvSealReceipt(w, LaunchAuthorization, AuthorizationRec(Sha(intent.value), a), o); }
    case CallSealBundle(b, at, io) => InvSealBundle(w, b, at, io);
    case CallClaim(at, io) => InvClaim(w, at, io);
    case Restart =>
  }

  lemma InvUnknown(w: World, v: Observation, at: int, o: WriteOutcome)
    requires Inv(w)
    ensures Inv(RecordUnknown(w, v, at, o).world)
  {
    var parent := LastPresent(w.files);
    if !TerminalPresent(w.files) && parent.Some? {
      InvRecord(w.(tokens := []), PhaseUnknown, v, at, parent.value, o);
    }
  }

  lemma InvStep(w: World, e: Event)
    requires Inv(w)
    ensures Inv(Step(w, e))
  {
    match e
    case CallStartup(v, at, o) => if !TerminalPresent(w.files) { InvRecord(w, PhaseStartup, v, at, PhaseLaunchAttempt, o); }
    case CallConsumption(v, at, o) => if !TerminalPresent(w.files) { InvRecord(w, PhaseConsumption, v, at, PhaseStartup, o); }
    case CallAbandoned(v, at, io) => if !AttemptOrLater(w.files) { InvTerminal(w, PhaseAbandoned, v, at, PhaseSealed, io); }
    case CallClosed(v, at, io) => InvTerminal(w, PhaseClosed, v, at, PhaseConsumption, io);
    case CallUnknown(v, at, o) => InvUnknown(w, v, at, o);
    case _ => InvJournalStep(w, e);
  }

  // ---------- whole runs ----------

  lemma {:induction false} InvExec(w: World, run: seq<Event>)
    requires Inv(w)
    ensures Inv(Exec(w, run))
    decreases run
  {
    if run != [] {
      InvStep(w, run[0]);
      InvExec(Step(w, run[0]), run[1..]);
    }
  }

  lemma {:induction false} ExecConcat(w: World, run: seq<Event>, more: seq<Event>)
    ensures Exec(w, run + more) == Exec(Exec(w, run), more)
    decreases run
  {
    if run == [] {
      assert run + more == more;
    } else {
      assert (run + more)[1..] == run[1..] + more;
      ExecConcat(Step(w, run[0]), run[1..], more);
    }
  }

  /** The bundle name is taken and no token is held: no later call can launch. */
  predicate Spent(w: World) { BundleJson in w.files && w.tokens == [] }

  /** The names that one call may create. */
  function Creates(e: Event): set<Kind> {
    match e
    case CallSealIntent(_, _, _, _) => {Intent}
    case CallSealAuthorization(_, _) => {LaunchAuthorization}
    case CallSealBundle(_, _, _) => {BundleJson, LiveHandleIndex, BundleCommitment, PhaseSealed}
    case CallClaim(_, _) => {PhaseLaunchAttempt, LaunchClaimed}
    case CallStartup(_, _, _) => {PhaseStartup}
    case CallConsumption(_, _, _) => {PhaseConsumption}
    case CallAbandoned(_, _, _) => {KeyTombstone, PhaseAbandoned}
    case CallClosed(_, _, _) => {KeyTombstone, PhaseClosed}
    case CallUnknown(_, _, _) => {PhaseUnknown}
    case Restart => {}
  }

  /** `t` is `s` with new files under names of `ks` only. */
  ghost predicate Grows(s: Store, t: Store, ks: set<Kind>) {
    Extends(s, t) && forall k :: k in t && k !in s ==> k in ks
  }

  lemma CreateGrows(s: Store, t: Store, ks: set<Kind>, k: Kind, r: Record, o: WriteOutcome)
    requires Grows(s, t, ks)
    ensures Grows(s, Create(t, k, r, o), ks + {k})
  {
  }

  lemma GrowsWrite(w: World, k: Kind, r: Record, o: WriteOutcome)
    ensures Grows(w.files, WriteReceipt(w, k, r, o).world.files, {k})
    ensures WriteReceipt(w, k, r, o).world.tokens == w.tokens
  {
    CreateGrows(w.files, w.files, {}, k, r, o);
    assert {} + {k} == {k};
  }

  lemma GrowsSealBundle(w: World, b: Bundle, at: int, io: SealIO)
    ensures Grows(w.files, SealBundle(w, b, at, io).world.files, {BundleJson, LiveHandleIndex, BundleCommitment, PhaseSealed})
    ensures BundleJson in w.files ==> SealBundle(w, b, at, io).world == w
  {
  }

  lemma GrowsClaim(w: World, at: int, io: (WriteOutcome, WriteOutcome))
    ensures Grows(w.files, ClaimLaunch(w, at, io).world.files, {PhaseLaunchAttempt, LaunchClaimed})
    ensures w.tokens == [] ==> ClaimLaunch(w, at, io) == Raised(w)
  {
  }

  lemma GrowsTerminal(w: World, k: Kind, v: Observation, at: int, parent: Kind, io: (WriteOutcome, WriteOutcome))
    requires LRank(parent) < LRank(k) && HasPhaseShape(parent)
    ensures Grows(w.files, Terminal(w, k, v, at, parent, io).world.files, {KeyTombstone, k})
    ensures Terminal(w, k, v, at, parent, io).world.tokens == []
    ensures TerminalPresent(w.files) ==> Terminal(w, k, v, at, parent, io).world.files == w.files
  {
    hide Read, Readback, Admits, BuildRecord, RecordFrom, RecordedOk, TombstoneFor;
    var r := RecordFrom(w.files, k, v, at, parent);
    if r.Some? {
      var marked := Create(w.files, KeyTombstone, TombstoneFor(r.value), io.0);
      CreateGrows(w.files, w.files, {k}, KeyTombstone, TombstoneFor(r.value), io.0);
      CreateGrows(w.files, marked, {KeyTombstone, k}, k, r.value, io.1);
      assert {k} + {KeyTombstone} == {KeyTombstone, k} == {KeyTombstone, k} + {k};
    }
  }

  lemma GrowsRecord(w: World, k: Kind, v: Observation, at: int, parent: Kind, o: WriteOutcome)
    requires LRank(parent) < LRank(k) && HasPhaseShape(parent)
    ensures Grows(w.files, RecordPhase(w, k, v, at, parent, o).world.files, {k})
    ensures RecordPhase(w, k, v, at, parent, o).world.tokens == w.tokens
  {
  }

  lemma GrowsUnknown(w: World, v: Observation, at: int, o: WriteOutcome)
    ensures Grows(w.files, RecordUnknown(w, v, at, o).world.files, {PhaseUnknown})
    ensures RecordUnknown(w, v, at, o).world.tokens == []
  {
    var parent := LastPresent(w.files);
    if parent.Some? { GrowsRecord(w.(tokens := []), PhaseUnknown, v, at, parent.value, o); }
  }

  lemma GrowsAbandoned(w: World, v: Observation, at: int, io: (WriteOutcome, WriteOutcome))
    ensures Grows(w.files, RecordAbandoned(w, v, at, io).world.files, {KeyTombstone, PhaseAbandoned})
    ensures RecordAbandoned(w, v, at, io).world.tokens == []
  {
    GrowsTerminal(w, PhaseAbandoned, v, at, PhaseSealed, io);
  }

  predicate IsJournalCall(e: Event) {
    e.CallSealIntent? || e.CallSealAuthorization? || e.CallSealBundle? || e.CallClaim? || e.Restart?
  }

  lemma JournalStepGrows(w: World, e: Event)
    requires IsJournalCall(e)
    ensures Grows(w.files, Step(w, e).files, Creates(e))
    ensures e.CallSealBundle? || e.CallClaim? || Step(w, e).tokens == w.tokens || Step(w, e).tokens == []
  {
    match e
    case CallSealIntent(nonce, preimage, at, o) => GrowsWrite(w, Intent, IntentRec(preimage, ShaText(nonce), at), o);
    case CallSealAuthorization(a, o) =>
      var intent := Readback(w.files, Intent);
      if intent.Some? { GrowsWrite(w, LaunchAuthorization, AuthorizationRec(Sha(intent.value), a), o); }
    case CallSealBundle(b, at, io) => GrowsSealBundle(w, b, at, io);
    case CallClaim(at, io) => GrowsClaim(w, at, io);
    case Restart =>
  }

  lemma PhaseStepGrows(w: World, e: Event)
    requires e.CallStartup? || e.CallConsumption?
    ensures Grows(w.files, Step(w, e).files, Creates(e)) && Step(w, e).tokens == w.tokens
  {
    match e
    case CallStartup(v, at, o) => GrowsRecord(w, PhaseStartup, v, at, PhaseLaunchAttempt, o);
    case CallConsumption(v, at, o) => GrowsRecord(w, PhaseConsumption, v, at, PhaseStartup, o);
  }

  predicate IsTerminalCall(e: Event) { e.CallUnknown? || e.CallClosed? || e.CallAbandoned? }

  /** Every terminal call drops the token, whether or not it succeeds. */
  lemma TerminalStepGrows(w: World, e: Event)
    requires IsTerminalCall(e)
    ensures Grows(w.files, Step(w, e).files, Creates(e)) && Step(w, e).tokens == []
  {
    match e
    case CallAbandoned(v, at, io) => GrowsAbandoned(w, v, at, io);
    case CallClosed(v, at, io) => GrowsTerminal(w, PhaseClosed, v, at, PhaseConsumption, io);
    case CallUnknown(v, at, o) => GrowsUnknown(w, v, at, o);
  }

  /** Files are only ever added, and only under the names of the call. */
  lemma StepGrows(w: World, e: Event)
    ensures Grows(w.files, Step(w, e).files, Creates(e))
    ensures e.CallSealBundle? || e.CallClaim? || Step(w, e).tokens == w.tokens || Step(w, e).tokens == []
  {
    if IsJournalCall(e) { JournalStepGrows(w, e); }
    else if IsTerminalCall(e) { TerminalStepGrows(w, e); }
    else { PhaseStepGrows(w, e); }
  }

  lemma SpentStep(w: World, e: Event)
    requires Spent(w)
    ensures Spent(Step(w, e)) && !IsLaunch(w, e)
    ensures PhaseLaunchAttempt in Step(w, e).files <==> PhaseLaunchAttempt in w.files
    ensures LaunchClaimed in Step(w, e).files <==> LaunchClaimed in w.files
  {
    StepGrows(w, e);
    if e.CallSealBundle? { GrowsSealBundle(w, e.bundle, e.at, e.io4); }
    if e.CallClaim? { GrowsClaim(w, e.at, e.io); }
  }

  lemma {:induction false} SpentForever(w: World, run: seq<Event>)
    requires Spent(w)
    ensures Spent(Exec(w, run)) && Launches(w, run) == 0
    ensures PhaseLaunchAttempt in Exec(w, run).files <==> PhaseLaunchAttempt in w.files
    ensures LaunchClaimed in Exec(w, run).files <==> LaunchClaimed in w.files
    decreases run
  {
    if run != [] {
      SpentStep(w, run[0]);
      SpentForever(Step(w, run[0]), run[1..]);
    }
  }

  lemma {:induction false} LaunchBudget(w: World, run: seq<Event>)
    requires Inv(w)
    ensures Launches(w, run) <= 1
    decreases run
  {
    if run != [] {
      var e := run[0];
      InvStep(w, e);
      if IsLaunch(w, e) {
        SealNamesTaken(w.files);
        StepGrows(w, e);
        SpentForever(Step(w, e), run[1..]);
      } else {
        LaunchBudget(Step(w, e), run[1..]);
      }
    }
  }

  /** Over every run, whatever the interleaving of calls, failures and restarts, at most one claim
      ever returns a launch. */
  lemma AtMostOneLaunch(run: seq<Event>)
    ensures Launches(START, run) <= 1
  {
    LaunchBudget(START, run);
  }

  /** A launch is on disk, whole and readable, before the claim returns, and stays so. */
  lemma LaunchIsOnRecord(w: World, e: Event, more: seq<Event>)
    requires IsLaunch(w, e)
    ensures Readback(Exec(Step(w, e), more).files, PhaseLaunchAttempt).Some?
    ensures Readback(Exec(Step(w, e), more).files, LaunchClaimed).Some?
  {
    var s := Step(w, e).files;
    ParentsRead(s, LaunchClaimed);
    assert PhaseLaunchAttempt in Parents(LaunchClaimed);
    ExecExtends(Step(w, e), more);
    ReadbackStable(s, Exec(Step(w, e), more).files, PhaseLaunchAttempt);
    ReadbackStable(s, Exec(Step(w, e), more).files, LaunchClaimed);
  }

  lemma {:induction false} ExecExtends(w: World, run: seq<Event>)
    ensures Extends(w.files, Exec(w, run).files)
    decreases run
  {
    if run != [] {
      StepGrows(w, run[0]);
      ExecExtends(Step(w, run[0]), run[1..]);
    }
  }

  /** Once the bundle name exists, no claim succeeds after a restart. */
  lemma NoLaunchAfterRestart(w: World, run: seq<Event>)
    requires BundleJson in w.files
    ensures Launches(w, [Restart] + run) == 0
  {
    assert ([Restart] + run)[1..] == run;
    SpentForever(Step(w, Restart), run);
  }

  /** No claim succeeds after a terminal call of any kind, even one that raised. */
  lemma NoLaunchAfterTerminalCall(w: World, e: Event, run: seq<Event>)
    requires BundleJson in w.files && IsTerminalCall(e)
    ensures Launches(w, [e] + run) == 0
  {
    assert ([e] + run)[1..] == run;
    TerminalStepGrows(w, e);
    SpentForever(Step(w, e), run);
  }

  /** An ABANDONED tombstone or record and a launch attempt never coexist. */
  lemma AbandonedExcludesAttempt(run: seq<Event>)
    ensures var s := Exec(START, run).files;
            AbandonMark(s) ==> PhaseLaunchAttempt !in s && LaunchClaimed !in s
  {
    InvExec(START, run);
  }

  lemma NoFreeName(s: Store, t: Store, ks: set<Kind>)
    requires Grows(s, t, ks) && forall k :: k in ks ==> k in s
    ensures t == s
  {
  }

  lemma FrozenJournalStep(w: World, e: Event)
    requires Inv(w) && TerminalPresent(w.files) && IsJournalCall(e)
    ensures Step(w, e).files == w.files
  {
    hide Accepts, Admits;
    if e.CallClaim? {
      GrowsClaim(w, e.at, e.io);
    } else {
      SealNamesTaken(w.files);
      assert Creates(e) <= {Intent, LaunchAuthorization, BundleJson, LiveHandleIndex, BundleCommitment, PhaseSealed};
      JournalStepGrows(w, e);
      NoFreeName(w.files, Step(w, e).files, Creates(e));
    }
  }

  /** After UNKNOWN or a tombstone, no call adds any file at all. */
  lemma FrozenStep(w: World, e: Event)
    requires Inv(w) && TerminalPresent(w.files)
    ensures Step(w, e).files == w.files
  {
    match e
    case CallStartup(v, at, o) =>
    case CallConsumption(v, at, o) =>
    case CallUnknown(v, at, o) =>
    case CallClosed(v, at, io) => GrowsTerminal(w, PhaseClosed, v, at, PhaseConsumption, io);
    case CallAbandoned(v, at, io) => GrowsTerminal(w, PhaseAbandoned, v, at, PhaseSealed, io);
    case _ => FrozenJournalStep(w, e);
  }

  lemma {:induction false} FrozenForever(w: World, run: seq<Event>)
    requires Inv(w) && TerminalPresent(w.files)
    ensures Exec(w, run).files == w.files
    decreases run
  {
    if run != [] {
      FrozenStep(w, run[0]);
      InvStep(w, run[0]);
      FrozenForever(Step(w, run[0]), run[1..]);
    }
  }

  /** UNKNOWN and the tombstone exclude each other, and a terminal record on disk is the one that
      the tombstone beside it already names. */
  lemma TerminalsExclude(run: seq<Event>)
    ensures var s := Exec(START, run).files;
            && !(PhaseUnknown in s && KeyTombstone in s)
            && !(PhaseClosed in s && PhaseAbandoned in s)
            && (forall k :: k in {PhaseClosed, PhaseAbandoned} && k in s && s[k].Whole? ==>
                  s[k].rec.PhaseRec? && KeyTombstone in s && s[KeyTombstone] == Whole(TombstoneFor(s[k].rec)))
  {
    InvExec(START, run);
  }

  /** Once `record_unknown` has returned, its record reads back, unchanged, in every later state. */
  lemma UnknownReadsForever(run: seq<Event>, e: Event, more: seq<Event>)
    requires e.CallUnknown? && Call(Exec(START, run), e).digest.Some?
    ensures var after := Step(Exec(START, run), e);
            var r := Read(after.files, PhaseUnknown);
            && r.Some? && Call(Exec(START, run), e).digest == Some(Sha(r.value))
            && Read(Exec(after, more).files, PhaseUnknown) == r
  {
    var w := Exec(START, run);
    InvExec(START, run);
    InvStep(w, e);
    FrozenForever(Step(w, e), more);
  }

  /** When the snapshot denies that a launch may have occurred, none was attempted before and none
      can be attempted after, in any continuation. */
  lemma NoLaunchIsTruthful(run: seq<Event>, more: seq<Event>)
    requires !Snapshot(Exec(START, run).files).launchMayHaveOccurred
    ensures Launches(START, run) == 0 && Launches(Exec(START, run), more) == 0
    ensures PhaseLaunchAttempt !in Exec(START, run).files
    ensures PhaseLaunchAttempt !in Exec(Exec(START, run), more).files
    ensures LaunchClaimed !in Exec(Exec(START, run), more).files
  {
    var w := Exec(START, run);
    InvExec(START, run);
    if PhaseClosed in w.files && Read(w.files, PhaseClosed).Some? { PhaseOfRead(w.files, PhaseClosed); }
    assert PhaseAbandoned in w.files;
    SealNamesTaken(w.files);
    SpentForever(w, more);
    LaunchLeavesClaim(START, run);
  }

  lemma {:induction false} LaunchLeavesClaim(w: World, run: seq<Event>)
    ensures Launches(w, run) > 0 ==> LaunchClaimed in Exec(w, run).files
    decreases run
  {
    if run != [] {
      if IsLaunch(w, run[0]) {
        LaunchIsOnRecord(w, run[0], run[1..]);
      } else {
        LaunchLeavesClaim(Step(w, run[0]), run[1..]);
      }
    }
  }
}
