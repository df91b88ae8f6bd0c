/** Exactly when a launch can still happen once the volatile token is gone.

    A restart or a terminal call empties the token list.  That forbids a launch for good unless the
    bundle has never been sealed and an authorization that leaves room for it stands or can still
    be given. */
module LaunchPossible {
  import opened Wrappers
  import opened Receipts
  import opened Journal
  import opened Lifecycle
  import opened LaunchSafety
  import opened Progress

  // ---------- the condition ----------

  /** After this authorization there is time to seal and then to claim, and before its holder check
      there is time for the cut that a bundle must show. */
  predicate LeavesRoom(a: Authorization) {
    a.authorizedAtWallMs + 2 <= MAX_WALL_MS && 2 <= a.holderCheck.executedAtWallMs
  }

  /** What a caller can read before it acts: the bundle name is free, and the authorization, or the
      intent when there is none yet, or neither file, still leaves room. */
  predicate CanStillLaunch(s: Store) {
    && BundleJson !in s
    && if LaunchAuthorization in s then
         Readback(s, LaunchAuthorization).Some? && LeavesRoom(Readback(s, LaunchAuthorization).value.authorization)
       else if Intent in s then
         Readback(s, Intent).Some? && Readback(s, Intent).value.atWallMs + 3 <= MAX_WALL_MS
       else true
  }

  // ---------- what reachable states add ----------

  /** The early files in the order in which they are written. */
  ghost predicate Early(s: Store) {
    && (Intent in s && s[Intent].Whole? ==>
          s[Intent].rec.IntentRec? && 0 <= s[Intent].rec.atWallMs && s[Intent].rec.nonceSha.of.Text?)
    && (LaunchAuthorization in s ==> Readback(s, Intent).Some?)
    && (LiveHandleIndex in s || BundleCommitment in s || PhaseSealed in s ==> BundleJson in s)
  }

  /** Readback of the two early receipts looks at no later file. */
  lemma EarlyReads(s: Store, t: Store)
    requires Extends(s, t)
    requires Intent in t ==> Intent in s
    ensures Readback(t, Intent) == Readback(s, Intent)
    ensures (LaunchAuthorization in t ==> LaunchAuthorization in s) ==>
              Readback(t, LaunchAuthorization) == Readback(s, LaunchAuthorization)
  {
  }

  lemma EarlySameNames(s: Store, t: Store)
    requires Early(s) && Extends(s, t)
    requires Intent in t ==> Intent in s
    requires LaunchAuthorization in t ==> LaunchAuthorization in s
    requires LiveHandleIndex in t || BundleCommitment in t || PhaseSealed in t ==> BundleJson in t
    ensures Early(t)
  {
    EarlyReads(s, t);
  }

  lemma SealTakesBundleFirst(w: World, b: Bundle, at: int, io: SealIO)
    requires Early(w.files)
    ensures var t := SealBundle(w, b, at, io).world.files;
      LiveHandleIndex in t || BundleCommitment in t || PhaseSealed in t ==> BundleJson in t
  {
    hide Accepts, ValidBundle;
  }

  lemma EarlyIntent(w: World, nonce: string, preimage: Digest, at: int, o: WriteOutcome)
    requires Early(w.files)
    ensures Early(SealIntent(w, nonce, preimage, at, o).world.files)
  {
    var t := SealIntent(w, nonce, preimage, at, o).world.files;
    if Intent in w.files {
      assert t == w.files;
    } else {
      assert LaunchAuthorization !in t;
    }
  }

  lemma EarlyAuthorization(w: World, a: Authorization, o: WriteOutcome)
    requires Early(w.files)
    ensures Early(SealAuthorization(w, a, o).world.files)
  {
    hide ValidAuthorization, ValidBundle, CommitmentOk, AttemptOk, ClaimedOk;
    var t := SealAuthorization(w, a, o).world.files;
    EarlyReads(w.files, t);
  }

  lemma EarlyStep(w: World, e: Event)
    requires Early(w.files)
    ensures Early(Step(w, e).files)
  {
    hide Readback, Accepts;
    StepGrows(w, e);
    match e
    case CallSealIntent(nonce, preimage, at, o) => EarlyIntent(w, nonce, preimage, at, o);
    case CallSealAuthorization(a, o) => EarlyAuthorization(w, a, o);
    case CallSealBundle(b, at, io) =>
      SealTakesBundleFirst(w, b, at, io);
      EarlySameNames(w.files, Step(w, e).files);
    case _ => EarlySameNames(w.files, Step(w, e).files);
  }

  lemma {:induction false} EarlyExec(w: World, run: seq<Event>)
    requires Early(w.files)
    ensures Early(Exec(w, run).files)
    decreases run
  {
    if run != [] {
      EarlyStep(w, run[0]);
      EarlyExec(Step(w, run[0]), run[1..]);
    }
  }

  // ---------- no launch without it ----------

  /** No claim can succeed from here: there is no token, or none that the clock still lets in. */
  predicate Hopeless(w: World) {
    if BundleJson in w.files
    then w.tokens == [] || TooLate(w.files)
    else w.tokens == [] && !CanStillLaunch(w.files)
  }

  /** The bundle was sealed at the last moment there is. */
  predicate TooLate(s: Store) {
    Readback(s, BundleCommitment).Some? && Readback(s, BundleCommitment).value.sealedAtWallMs >= MAX_WALL_MS
  }

  lemma TooLateStays(s: Store, t: Store)
    requires Extends(s, t) && TooLate(s)
    ensures TooLate(t)
  {
    ReadbackStable(s, t, BundleCommitment);
  }

  lemma HopelessIntent(w: World, nonce: string, preimage: Digest, at: int, o: WriteOutcome)
    requires Early(w.files) && Hopeless(w) && BundleJson !in w.files
    ensures SealIntent(w, nonce, preimage, at, o).world == w
  {
    assert Intent in w.files;
  }

  lemma HopelessAuthorization(w: World, a: Authorization, o: WriteOutcome)
    requires Early(w.files) && Hopeless(w) && BundleJson !in w.files
    ensures Hopeless(SealAuthorization(w, a, o).world)
  {
    hide ValidBundle, CommitmentOk, AttemptOk, ClaimedOk;
    var t := SealAuthorization(w, a, o).world.files;
    if LaunchAuthorization !in w.files && LaunchAuthorization in t {
      assert Readback(t, Intent) == Readback(w.files, Intent);
      assert a.authorizedAtWallMs + 2 > MAX_WALL_MS;
      assert Readback(t, LaunchAuthorization).Some? ==>
               Readback(t, LaunchAuthorization).value.authorization == a;
    }
  }

  lemma BundleNeedsRoom(b: Bundle, a: Authorization, sha: Digest)
    requires ValidBundle(b, a, sha)
    ensures 2 <= a.holderCheck.executedAtWallMs
  {
  }

  lemma SealedTime(w: World, b: Bundle, at: int, io: SealIO)
    requires SealBundle(w, b, at, io).digest.Some?
    ensures var t := SealBundle(w, b, at, io).world.files;
      Readback(t, BundleCommitment).Some? && Readback(t, BundleCommitment).value.sealedAtWallMs == at
  {
    var a := Readback(w.files, LaunchAuthorization).value;
    SealReturns(w, b, at, io);
    SealReadsBack(w.files, b, at);
    var s2 := Create(Create(w.files, BundleJson, BundleRec(b), Completed), LiveHandleIndex, IndexFor(a.authorization, b), Completed);
    var s3 := Create(s2, BundleCommitment, CommitmentFor(a, b, at), Completed);
    var s4 := Create(s3, PhaseSealed, PhaseUnder(CommitmentFor(a, b, at), SealedNotAttempted, at, None), Completed);
    hide Accepts, ValidBundle, Readback;
    CreateExtends(s3, PhaseSealed, PhaseUnder(CommitmentFor(a, b, at), SealedNotAttempted, at, None), Completed);
    ReadbackStable(s3, s4, BundleCommitment);
  }

  lemma HopelessSeal(w: World, b: Bundle, at: int, io: SealIO)
    requires Early(w.files) && Hopeless(w) && BundleJson !in w.files
    ensures Hopeless(SealBundle(w, b, at, io).world)
  {
    hide Accepts, ValidBundle, Readback;
    var t := SealBundle(w, b, at, io).world;
    if SealAdmitted(w.files, b, at) {
      var authorization := Readback(w.files, LaunchAuthorization).value;
      BundleNeedsRoom(b, authorization.authorization, Sha(authorization));
      assert LaunchAuthorization in w.files;
      assert at >= MAX_WALL_MS;
      if SealBundle(w, b, at, io).digest.Some? { SealedTime(w, b, at, io); }
      GrowsSealBundle(w, b, at, io);
      SealTakesBundleFirst(w, b, at, io);
      if BundleJson !in t.files { assert t == w; }
    }
  }

  lemma HopelessQuiet(w: World, e: Event)
    requires Early(w.files) && Hopeless(w) && BundleJson !in w.files
    requires !e.CallSealIntent? && !e.CallSealAuthorization? && !e.CallSealBundle?
    ensures Hopeless(Step(w, e)) && !IsLaunch(w, e)
  {
    hide Accepts;
    StepGrows(w, e);
    EarlyReads(w.files, Step(w, e).files);
    if e.CallClaim? { GrowsClaim(w, e.at, e.io); }
  }

  /** With the bundle name taken and the last moment passed, a claim is refused by the clock. */
  lemma HopelessLate(w: World, e: Event)
    requires Inv(w) && BundleJson in w.files && TooLate(w.files)
    ensures TooLate(Step(w, e).files) && BundleJson in Step(w, e).files && !IsLaunch(w, e)
  {
    StepGrows(w, e);
    TooLateStays(w.files, Step(w, e).files);
  }

  lemma HopelessStep(w: World, e: Event)
    requires Inv(w) && Early(w.files) && Hopeless(w)
    ensures Hopeless(Step(w, e)) && !IsLaunch(w, e)
  {
    if BundleJson in w.files {
      if w.tokens == [] { SpentStep(w, e); } else { HopelessLate(w, e); }
    } else {
      match e
      case CallSealIntent(nonce, preimage, at, o) => HopelessIntent(w, nonce, preimage, at, o);
      case CallSealAuthorization(a, o) => HopelessAuthorization(w, a, o);
      case CallSealBundle(b, at, io) => HopelessSeal(w, b, at, io);
      case _ => HopelessQuiet(w, e);
    }
  }

  lemma {:induction false} HopelessForever(w: World, run: seq<Event>)
    requires Inv(w) && Early(w.files) && Hopeless(w)
    ensures Launches(w, run) == 0
    decreases run
  {
    if run != [] {
      HopelessStep(w, run[0]);
      InvStep(w, run[0]);
      EarlyStep(w, run[0]);
      HopelessForever(Step(w, run[0]), run[1..]);
    }
  }

  // ---------- a launch with it ----------

  function BundleFor(a: Authorization, authorizationSha: Digest): Bundle {
    Bundle(1, a.handle, a.subject, a.subject.runtimeEpoch,
           Cutover(a.hostId, a.startupNonce, a.subjectPreimage, a.subjectPreimage, a.subjectPreimage, a.subjectPreimage,
                   authorizationSha, a.consumingBinary, 0, 1, a.authorizedAtWallMs),
           a.consumingBinary, Census(a.hostId, a.outputs, a.holderCheck.executedAtWallMs, 0), a.holderCheck)
  }

  const ALL := SealIO(Completed, Completed, Completed, Completed)

  /** Seal at once, then claim a moment later. */
  function SealAndClaim(a: Record): seq<Event>
    requires a.AuthorizationRec?
  {
    var at := a.authorization.authorizedAtWallMs + 1;
    [CallSealBundle(BundleFor(a.authorization, Sha(a)), at, ALL), CallClaim(at + 1, (Completed, Completed))]
  }

  lemma BundleForIsValid(s: Store)
    requires Readback(s, LaunchAuthorization).Some?
    requires LeavesRoom(Readback(s, LaunchAuthorization).value.authorization)
    ensures var a := Readback(s, LaunchAuthorization).value;
      ValidBundle(BundleFor(a.authorization, Sha(a)), a.authorization, Sha(a))
  {
    var r := s[LaunchAuthorization].rec;
    assert Accepts(s, LaunchAuthorization, r);
  }

  lemma RunTwo(w: World, a: Event, b: Event)
    ensures Launches(w, [a, b]) ==
      (if IsLaunch(w, a) then 1 else 0) + (if IsLaunch(Step(w, a), b) then 1 else 0)
  {
    hide Step, IsLaunch;
    assert [a, b][1..] == [b];
    assert [b][1..] == [];
    assert Launches(Step(w, a), [b]) == if IsLaunch(Step(w, a), b) then 1 else 0;
  }

  lemma SealedCanClaim(w: World, b: Bundle, at: int)
    requires Early(w.files) && Inv(w) && BundleJson !in w.files && SealAdmitted(w.files, b, at) && at < MAX_WALL_MS
    ensures SealBundle(w, b, at, ALL).digest.Some?
    ensures IsLaunch(SealBundle(w, b, at, ALL).world, CallClaim(at + 1, (Completed, Completed)))
  {
    if PastSeal(w.files) { SealNamesTaken(w.files); }
    SealReturns(w, b, at, ALL);
    SealedTime(w, b, at, ALL);
    var t := SealBundle(w, b, at, ALL).world;
    InvSealBundle(w, b, at, ALL);
    ClaimReturns(t, at + 1, (Completed, Completed));
    SealedReads(w, b, at);
  }

  lemma SealedReads(w: World, b: Bundle, at: int)
    requires SealBundle(w, b, at, ALL).digest.Some?
    ensures var t := SealBundle(w, b, at, ALL).world;
      && SealReads(t.files)
      && Readback(t.files, BundleCommitment).Some?
      && t.tokens == [Sha(Readback(t.files, BundleCommitment).value)]
  {
    SealedTime(w, b, at, ALL);
    var t := SealBundle(w, b, at, ALL).world;
    assert t.files[BundleCommitment] == Whole(CommitmentFor(Readback(w.files, LaunchAuthorization).value, b, at));
  }

  lemma SealThenClaim(w: World, b: Bundle, at: int)
    requires Early(w.files) && Inv(w) && BundleJson !in w.files && SealAdmitted(w.files, b, at) && at < MAX_WALL_MS
    ensures Launches(w, [CallSealBundle(b, at, ALL), CallClaim(at + 1, (Completed, Completed))]) == 1
  {
    hide Readback, Accepts, ValidBundle, Inv, Early, IsLaunch, SealAdmitted, Launches;
    var e := CallSealBundle(b, at, ALL);
    SealedCanClaim(w, b, at);
    assert Step(w, e) == SealBundle(w, b, at, ALL).world;
    hide SealBundle, Step, Call;
    RunTwo(w, e, CallClaim(at + 1, (Completed, Completed)));
    NotAClaim(w, e);
  }

  /** A standing authorization that leaves room is sealed and claimed. */
  lemma AuthorizedLaunches(w: World)
    requires Inv(w) && Early(w.files) && CanStillLaunch(w.files) && LaunchAuthorization in w.files
    ensures Launches(w, SealAndClaim(Readback(w.files, LaunchAuthorization).value)) == 1
  {
    hide Readback, Accepts, ValidBundle, Inv, Early, BundleFor, Launches;
    var a := Readback(w.files, LaunchAuthorization).value;
    BundleForIsValid(w.files);
    SealThenClaim(w, BundleFor(a.authorization, Sha(a)), a.authorization.authorizedAtWallMs + 1);
  }

  lemma NotAClaim(w: World, e: Event)
    requires !e.CallClaim?
    ensures !IsLaunch(w, e)
  {
  }

  lemma LaunchesAfter(w: World, e: Event, run: seq<Event>)
    requires !e.CallClaim?
    ensures Launches(w, [e] + run) == Launches(Step(w, e), run)
  {
    assert ([e] + run)[1..] == run;
  }

  const SOME := Sha256(Unseen(0))

  /** An authorization that answers an intent as early as it can. */
  function AuthorizationFor(intent: Record): Authorization
    requires intent.IntentRec? && intent.nonceSha.of.Text?
  {
    var at := if intent.atWallMs < 2 then 3 else intent.atWallMs + 1;
    Authorization("h", intent.nonceSha.of.text, HANDLE, Subject(HANDLE, "e", AGENT, 1), intent.subjectPreimage,
                  SOME, SOME, [SOME, SOME], HolderCheck(2, ["/"], 0), at)
  }

  lemma IntentLaunches(w: World)
    requires Inv(w) && Early(w.files) && CanStillLaunch(w.files)
    requires Intent in w.files && LaunchAuthorization !in w.files
    ensures exists run :: Launches(w, run) == 1
  {
    var intent := Readback(w.files, Intent).value;
    var a := AuthorizationFor(intent);
    var e := CallSealAuthorization(a, Completed);
    var t := Step(w, e);
    AuthorizationStands(w, a);
    InvStep(w, e);
    EarlyStep(w, e);
    AuthorizedLaunches(t);
    LaunchesAfter(w, e, SealAndClaim(Readback(t.files, LaunchAuthorization).value));
  }

  lemma AuthorizationStands(w: World, a: Authorization)
    requires Readback(w.files, Intent).Some? && LaunchAuthorization !in w.files && BundleJson !in w.files
    requires ValidAuthorization(a, Readback(w.files, Intent).value) && LeavesRoom(a)
    ensures var t := SealAuthorization(w, a, Completed).world.files;
      && LaunchAuthorization in t && CanStillLaunch(t)
      && Readback(t, LaunchAuthorization) == Some(AuthorizationRec(Sha(Readback(w.files, Intent).value), a))
  {
    hide ValidAuthorization, ValidBundle;
    var r := AuthorizationRec(Sha(Readback(w.files, Intent).value), a);
    var t := Create(w.files, LaunchAuthorization, r, Completed);
    assert Readback(t, Intent) == Readback(w.files, Intent);
    assert Accepts(t, LaunchAuthorization, r);
  }

  const NONCE := "0123456789abcdef"

  lemma FreshLaunches(w: World)
    requires Inv(w) && Early(w.files) && CanStillLaunch(w.files) && Intent !in w.files
    ensures exists run :: Launches(w, run) == 1
  {
    var e := CallSealIntent(NONCE, SOME, 0, Completed);
    var t := Step(w, e);
    InvStep(w, e);
    EarlyStep(w, e);
    assert t.files == w.files[Intent := Whole(IntentRec(SOME, ShaText(NONCE), 0))];
    IntentLaunches(t);
    var run :| Launches(t, run) == 1;
    LaunchesAfter(w, e, run);
  }

  // ---------- the main statements ----------

  lemma SpentLaunches(w: World)
    requires Inv(w) && Early(w.files) && w.tokens == []
    ensures (forall run :: Launches(w, run) == 0) <==> !CanStillLaunch(w.files)
  {
    hide Inv, Early, Readback;
    if CanStillLaunch(w.files) {
      if LaunchAuthorization in w.files {
        AuthorizedLaunches(w);
      } else if Intent in w.files {
        IntentLaunches(w);
      } else {
        FreshLaunches(w);
      }
    } else {
      forall run ensures Launches(w, run) == 0 { HopelessForever(w, run); }
    }
  }

  lemma Reached(run: seq<Event>)
    ensures Inv(Exec(START, run)) && Early(Exec(START, run).files)
  {
    InvExec(START, run);
    EarlyExec(START, run);
  }

  /** After a restart, in every reachable state, no run launches exactly when the bundle name is taken
      or no authorization that leaves room stands or can still be given. */
  lemma LaunchAfterRestart(run: seq<Event>)
    ensures var w := Exec(START, run);
      (forall more :: Launches(w, [Restart] + more) == 0) <==> !CanStillLaunch(w.files)
  {
    var w := Exec(START, run);
    Reached(run);
    SpentAfter(w, Restart);
  }

  /** The same after any terminal call, whether it returned or raised. */
  lemma LaunchAfterTerminalCall(run: seq<Event>, e: Event)
    requires IsTerminalCall(e)
    ensures var w := Exec(START, run);
      (forall more :: Launches(w, [e] + more) == 0) <==> !CanStillLaunch(w.files)
  {
    var w := Exec(START, run);
    Reached(run);
    TerminalStepGrows(w, e);
    SpentAfter(w, e);
  }

  lemma SpentAfter(w: World, e: Event)
    requires Inv(w) && Early(w.files) && (e.Restart? || IsTerminalCall(e)) && Step(w, e).tokens == []
    ensures (forall more :: Launches(w, [e] + more) == 0) <==> !CanStillLaunch(w.files)
  {
    hide Inv, Early, Launches;
    InvStep(w, e);
    EarlyStep(w, e);
    StepGrows(w, e);
    EarlyReads(w.files, Step(w, e).files);
    assert CanStillLaunch(Step(w, e).files) == CanStillLaunch(w.files);
    SpentLaunches(Step(w, e));
    var t := Step(w, e);
    if CanStillLaunch(w.files) {
      var run :| Launches(t, run) != 0;
      LaunchesAfter(w, e, run);
      assert Launches(w, [e] + run) != 0;
    } else {
      forall more ensures Launches(w, [e] + more) == 0 { LaunchesAfter(w, e, more); }
    }
  }

  /** The first half of a run that reaches a standing authorization. */
  const AUTHORIZED: seq<Event> :=
    [CallSealIntent(NONCE, SOME, 0, Completed),
     CallSealAuthorization(AuthorizationFor(IntentRec(SOME, ShaText(NONCE), 0)), Completed)]

  lemma ExecTwo(w: World, a: Event, b: Event)
    ensures Exec(w, [a, b]) == Step(Step(w, a), b)
  {
    hide Step;
    assert [a, b][1..] == [b] && [b][1..] == [];
    assert Exec(Step(w, a), [b]) == Exec(Step(Step(w, a), b), []);
  }

  lemma IntentState()
    ensures var w := Step(START, AUTHORIZED[0]);
      w.files == map[Intent := Whole(IntentRec(SOME, ShaText(NONCE), 0))]
      && Readback(w.files, Intent) == Some(IntentRec(SOME, ShaText(NONCE), 0))
  {
  }

  lemma AuthorizationStep(w: World, intent: Record)
    requires w.files == map[Intent := Whole(intent)] && Readback(w.files, Intent) == Some(intent)
    requires intent == IntentRec(SOME, ShaText(NONCE), 0)
    ensures var s := Step(w, CallSealAuthorization(AuthorizationFor(intent), Completed)).files;
      CanStillLaunch(s) && PhaseSealed !in s && !AttemptOrLater(s)
  {
    var e := CallSealAuthorization(AuthorizationFor(intent), Completed);
    assert ValidAuthorization(AuthorizationFor(intent), intent);
    hide Readback, Accepts, ValidBundle, ValidAuthorization, CanStillLaunch;
    AuthorizationStands(w, AuthorizationFor(intent));
    assert Step(w, e) == SealAuthorization(w, AuthorizationFor(intent), Completed).world;
    StepGrows(w, e);
  }

  lemma AuthorizedState()
    ensures var s := Exec(START, AUTHORIZED).files;
      CanStillLaunch(s) && PhaseSealed !in s && !AttemptOrLater(s)
  {
    hide Exec, Readback, CanStillLaunch, AuthorizationFor, Step, AttemptOrLater;
    IntentState();
    AuthorizationStep(Step(START, AUTHORIZED[0]), IntentRec(SOME, ShaText(NONCE), 0));
    ExecTwo(START, AUTHORIZED[0], AUTHORIZED[1]);
  }

  /** A reachable witness: with intent and authorization on record and no bundle, `record_unknown`
      raises, and the process then seals and launches. */
  lemma LaunchFollowsRaisedUnknown(v: Observation)
    ensures var w := Exec(START, AUTHORIZED);
      var e := CallUnknown(v, 0, Completed);
      && Call(w, e).digest.None?
      && exists more :: Launches(w, [e] + more) != 0
  {
    hide Exec, Readback, CanStillLaunch, Launches;
    var e := CallUnknown(v, 0, Completed);
    AuthorizedState();
    LaunchAfterTerminalCall(AUTHORIZED, e);
  }

  /** The same after a restart. */
  lemma LaunchFollowsRestart()
    ensures exists more :: Launches(Exec(START, AUTHORIZED), [Restart] + more) != 0
  {
    hide Exec, Readback, CanStillLaunch, Launches;
    AuthorizedState();
    LaunchAfterRestart(AUTHORIZED);
  }
}
