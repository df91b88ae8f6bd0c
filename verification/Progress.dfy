/** Every call returns exactly when its checks pass and its writes complete: the readback that
    follows each write never rejects what was just written. */
module Progress {
  import opened Wrappers
  import opened Receipts
  import opened Journal
  import opened Lifecycle

  lemma CreateExtends(s: Store, k: Kind, r: Record, o: WriteOutcome)
    ensures Extends(s, Create(s, k, r, o))
  {
  }

  // ---------- phases ----------

  lemma RecordReadsBack(s: Store, k: Kind, v: Observation, at: int)
    requires k in {PhaseStartup, PhaseConsumption, PhaseUnknown} && k !in s && ParentOf(s, k).Some?
    requires RecordFrom(s, k, v, at, ParentOf(s, k).value).Some?
    ensures RecordedOk(s, k, RecordFrom(s, k, v, at, ParentOf(s, k).value).value, Completed)
  {
    var parent := ParentOf(s, k).value;
    var r := RecordFrom(s, k, v, at, parent).value;
    var t := Create(s, k, r, Completed);
    CreateExtends(s, k, r, Completed);
    RecordStable(s, t, k, v, at, parent);
    assert ParentOf(t, k) == Some(parent);
    assert Admits(t, k, r);
  }

  lemma StartupReturns(w: World, v: Observation, at: int, o: WriteOutcome)
    ensures RecordStartup(w, v, at, o).digest.Some? <==>
              && !TerminalPresent(w.files) && PhaseConsumption !in w.files && PhaseStartup !in w.files
              && RecordFrom(w.files, PhaseStartup, v, at, PhaseLaunchAttempt).Some?
              && o.Completed?
  {
    if PhaseStartup !in w.files && RecordFrom(w.files, PhaseStartup, v, at, PhaseLaunchAttempt).Some? {
      RecordReadsBack(w.files, PhaseStartup, v, at);
    }
  }

  lemma ConsumptionReturns(w: World, v: Observation, at: int, o: WriteOutcome)
    ensures RecordConsumption(w, v, at, o).digest.Some? <==>
              && !TerminalPresent(w.files) && PhaseConsumption !in w.files
              && RecordFrom(w.files, PhaseConsumption, v, at, PhaseStartup).Some?
              && o.Completed?
  {
    if PhaseConsumption !in w.files && RecordFrom(w.files, PhaseConsumption, v, at, PhaseStartup).Some? {
      RecordReadsBack(w.files, PhaseConsumption, v, at);
    }
  }

  lemma UnknownReturns(w: World, v: Observation, at: int, o: WriteOutcome)
    ensures RecordUnknown(w, v, at, o).digest.Some? <==>
              && !TerminalPresent(w.files) && LastPresent(w.files).Some?
              && RecordFrom(w.files, PhaseUnknown, v, at, LastPresent(w.files).value).Some?
              && o.Completed?
  {
    var parent := LastPresent(w.files);
    if !TerminalPresent(w.files) && parent.Some? && RecordFrom(w.files, PhaseUnknown, v, at, parent.value).Some? {
      RecordReadsBack(w.files, PhaseUnknown, v, at);
    }
  }

  // ---------- terminals ----------

  /** Every phase is at or after the seal. */
  lemma {:induction false} PhaseAfterSeal(s: Store, k: Kind)
    requires k in {PhaseSealed, PhaseLaunchAttempt, PhaseStartup, PhaseConsumption} && Read(s, k).Some?
    ensures Readback(s, BundleCommitment).Some?
    ensures Readback(s, BundleCommitment).value.sealedAtWallMs <= Read(s, k).value.atWallMs
    decreases LRank(k)
  {
    if k == PhaseSealed {
      assert Accepts(s, k, s[k].rec);
    } else if k == PhaseLaunchAttempt {
      assert Accepts(s, k, s[k].rec);
      PhaseAfterSeal(s, PhaseSealed);
    } else {
      assert Admits(s, k, s[k].rec);
      PhaseAfterSeal(s, ParentOf(s, k).value);
    }
  }

  lemma TombstoneReadsBack(s: Store, k: Kind, v: Observation, at: int)
    requires k in {PhaseClosed, PhaseAbandoned} && KeyTombstone !in s
    requires RecordFrom(s, k, v, at, ParentOf(s, k).value).Some?
    ensures RecordedOk(s, KeyTombstone, TombstoneFor(RecordFrom(s, k, v, at, ParentOf(s, k).value).value), Completed)
  {
    var r := RecordFrom(s, k, v, at, ParentOf(s, k).value).value;
    var t := Create(s, KeyTombstone, TombstoneFor(r), Completed);
    PhaseAfterSeal(s, ParentOf(s, k).value);
    CreateExtends(s, KeyTombstone, TombstoneFor(r), Completed);
    ReadbackStable(s, t, BundleCommitment);
    assert TombstoneOk(TombstoneFor(r), Readback(s, BundleCommitment));
    assert Admits(t, KeyTombstone, TombstoneFor(r));
  }

  lemma TerminalReadsBack(s: Store, k: Kind, v: Observation, at: int)
    requires k in {PhaseClosed, PhaseAbandoned} && KeyTombstone !in s && k !in s
    requires k == PhaseAbandoned ==> !AttemptOrLater(s)
    requires RecordFrom(s, k, v, at, ParentOf(s, k).value).Some?
    ensures var r := RecordFrom(s, k, v, at, ParentOf(s, k).value).value;
            RecordedOk(Create(s, KeyTombstone, TombstoneFor(r), Completed), k, r, Completed)
  {
    var parent := ParentOf(s, k).value;
    var r := RecordFrom(s, k, v, at, parent).value;
    var t := Create(s, KeyTombstone, TombstoneFor(r), Completed);
    var u := Create(t, k, r, Completed);
    TombstoneReadsBack(s, k, v, at);
    CreateExtends(s, KeyTombstone, TombstoneFor(r), Completed);
    CreateExtends(t, k, r, Completed);
    RecordStable(s, u, k, v, at, parent);
    ReadStable(t, u, KeyTombstone);
    assert Admits(u, k, r);
  }

  lemma ClosedReturns(w: World, v: Observation, at: int, io: (WriteOutcome, WriteOutcome))
    ensures RecordClosed(w, v, at, io).digest.Some? <==>
              && !TerminalPresent(w.files)
              && RecordFrom(w.files, PhaseClosed, v, at, PhaseConsumption).Some?
              && io.0.Completed? && io.1.Completed?
  {
    if !TerminalPresent(w.files) && RecordFrom(w.files, PhaseClosed, v, at, PhaseConsumption).Some? {
      TombstoneReadsBack(w.files, PhaseClosed, v, at);
      TerminalReadsBack(w.files, PhaseClosed, v, at);
    }
  }

  lemma AbandonedReturns(w: World, v: Observation, at: int, io: (WriteOutcome, WriteOutcome))
    ensures RecordAbandoned(w, v, at, io).digest.Some? <==>
              && !AttemptOrLater(w.files) && !TerminalPresent(w.files)
              && RecordFrom(w.files, PhaseAbandoned, v, at, PhaseSealed).Some?
              && io.0.Completed? && io.1.Completed?
  {
    if && !AttemptOrLater(w.files) && !TerminalPresent(w.files)
       && RecordFrom(w.files, PhaseAbandoned, v, at, PhaseSealed).Some? {
      TombstoneReadsBack(w.files, PhaseAbandoned, v, at);
      TerminalReadsBack(w.files, PhaseAbandoned, v, at);
    }
  }

  // ---------- seal and claim ----------

  lemma IndexReadsBack(s: Store, a: Record, b: Bundle)
    requires Readback(s, LaunchAuthorization) == Some(a) && LiveHandleIndex !in s
    ensures WriteOk(s, LiveHandleIndex, IndexFor(a.authorization, b), Completed)
  {
    var index := IndexFor(a.authorization, b);
    var t := Create(s, LiveHandleIndex, index, Completed);
    CreateExtends(s, LiveHandleIndex, index, Completed);
    ReadbackStable(s, t, LaunchAuthorization);
    assert Accepts(t, LiveHandleIndex, index);
  }

  lemma CommitmentReadsBack(s: Store, a: Record, b: Bundle, at: int)
    requires Readback(s, LaunchAuthorization) == Some(a) && BundleCommitment !in s
    requires Readback(s, BundleJson) == Some(BundleRec(b))
    requires Readback(s, LiveHandleIndex) == Some(IndexFor(a.authorization, b))
    requires a.authorization.authorizedAtWallMs < at <= MAX_WALL_MS
    ensures WriteOk(s, BundleCommitment, CommitmentFor(a, b, at), Completed)
  {
    hide AuthorizationOk, IndexOk, SealedOk, AttemptOk, ClaimedOk, ValidBundle, ValidAuthorization;
    var commitment := CommitmentFor(a, b, at);
    var t := Create(s, BundleCommitment, commitment, Completed);
    CreateExtends(s, BundleCommitment, commitment, Completed);
    ReadbackStable(s, t, LaunchAuthorization);
    ReadbackStable(s, t, BundleJson);
    ReadbackStable(s, t, LiveHandleIndex);
    assert Accepts(t, BundleCommitment, commitment);
  }

  lemma SealedReadsBack(s: Store, commitment: Record)
    requires Readback(s, BundleCommitment) == Some(commitment) && PhaseSealed !in s
    ensures WriteOk(s, PhaseSealed, PhaseUnder(commitment, SealedNotAttempted, commitment.sealedAtWallMs, None), Completed)
  {
    var phase := PhaseUnder(commitment, SealedNotAttempted, commitment.sealedAtWallMs, None);
    var t := Create(s, PhaseSealed, phase, Completed);
    CreateExtends(s, PhaseSealed, phase, Completed);
    ReadbackStable(s, t, BundleCommitment);
    assert Accepts(t, PhaseSealed, phase);
  }

  lemma SealReadsBack(s: Store, b: Bundle, at: int)
    requires SealAdmitted(s, b, at)
    requires BundleJson !in s && LiveHandleIndex !in s && BundleCommitment !in s && PhaseSealed !in s
    ensures var a := Readback(s, LaunchAuthorization).value;
            var s1 := Create(s, BundleJson, BundleRec(b), Completed);
            var s2 := Create(s1, LiveHandleIndex, IndexFor(a.authorization, b), Completed);
            var s3 := Create(s2, BundleCommitment, CommitmentFor(a, b, at), Completed);
            && WriteOk(s, BundleJson, BundleRec(b), Completed)
            && WriteOk(s1, LiveHandleIndex, IndexFor(a.authorization, b), Completed)
            && WriteOk(s2, BundleCommitment, CommitmentFor(a, b, at), Completed)
            && WriteOk(s3, PhaseSealed, PhaseUnder(CommitmentFor(a, b, at), SealedNotAttempted, at, None), Completed)
  {
    var a := Readback(s, LaunchAuthorization).value;
    var s1 := Create(s, BundleJson, BundleRec(b), Completed);
    var index := IndexFor(a.authorization, b);
    var s2 := Create(s1, LiveHandleIndex, index, Completed);
    var commitment := CommitmentFor(a, b, at);
    assert Readback(s1, BundleJson) == Some(BundleRec(b));
    ReadbackStable(s, s1, LaunchAuthorization);
    IndexReadsBack(s1, a, b);
    ReadbackStable(s1, s2, LaunchAuthorization);
    ReadbackStable(s1, s2, BundleJson);
    CommitmentReadsBack(s2, a, b, at);
    SealedReadsBack(Create(s2, BundleCommitment, commitment, Completed), commitment);
  }

  lemma SealReturns(w: World, b: Bundle, at: int, io: SealIO)
    ensures SealBundle(w, b, at, io).digest.Some? <==>
              && SealAdmitted(w.files, b, at)
              && BundleJson !in w.files && LiveHandleIndex !in w.files
              && BundleCommitment !in w.files && PhaseSealed !in w.files
              && io == SealIO(Completed, Completed, Completed, Completed)
  {
    if && SealAdmitted(w.files, b, at)
       && BundleJson !in w.files && LiveHandleIndex !in w.files
       && BundleCommitment !in w.files && PhaseSealed !in w.files {
      SealReadsBack(w.files, b, at);
    }
  }

  lemma ClaimReadsBack(w: World, at: int)
    requires ClaimAdmitted(w, at) && PhaseLaunchAttempt !in w.files && LaunchClaimed !in w.files
    ensures var attempt := AttemptFor(w.files, at);
            var s1 := Create(w.files, PhaseLaunchAttempt, attempt, Completed);
            var claim := ClaimRec(Sha(Readback(w.files, LaunchAuthorization).value),
                                  Sha(Readback(w.files, BundleCommitment).value), at);
            && WriteOk(w.files, PhaseLaunchAttempt, attempt, Completed)
            && WriteOk(s1, LaunchClaimed, claim, Completed)
  {
    var s := w.files;
    var attempt := AttemptFor(s, at);
    var s1 := Create(s, PhaseLaunchAttempt, attempt, Completed);
    var claim := ClaimRec(Sha(Readback(s, LaunchAuthorization).value), Sha(Readback(s, BundleCommitment).value), at);
    var s2 := Create(s1, LaunchClaimed, claim, Completed);
    CreateExtends(s, PhaseLaunchAttempt, attempt, Completed);
    CreateExtends(s1, LaunchClaimed, claim, Completed);
    assert Accepts(s, PhaseSealed, s[PhaseSealed].rec);
    ReadbackStable(s, s1, PhaseSealed);
    ReadbackStable(s, s1, BundleCommitment);
    assert Accepts(s1, PhaseLaunchAttempt, attempt);
    ReadbackStable(s, s2, LaunchAuthorization);
    ReadbackStable(s, s2, BundleCommitment);
    ReadbackStable(s1, s2, PhaseLaunchAttempt);
    assert Accepts(s2, LaunchClaimed, claim);
  }

  lemma ClaimReturns(w: World, at: int, io: (WriteOutcome, WriteOutcome))
    ensures ClaimLaunch(w, at, io).digest.Some? <==>
              && ClaimAdmitted(w, at)
              && PhaseLaunchAttempt !in w.files && LaunchClaimed !in w.files
              && io.0.Completed? && io.1.Completed?
  {
    if ClaimAdmitted(w, at) && PhaseLaunchAttempt !in w.files && LaunchClaimed !in w.files {
      ClaimReadsBack(w, at);
    }
  }
}
