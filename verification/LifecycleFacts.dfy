/** What lifecycle receipts and the snapshot say, spelled out on the stored fields. */
module LifecycleFacts {
  import opened Wrappers
  import opened Receipts
  import opened Journal
  import opened Lifecycle
  import opened LaunchSafety

  // ---------- the tombstone ----------

  predicate RightPhase(k: Kind, r: Record) {
    r.PhaseRec? && (k == PhaseClosed ==> r.phase == Closed) && (k == PhaseAbandoned ==> r.phase == Abandoned)
  }

  ghost predicate TerminalPhases(s: Store) {
    forall k :: k in {PhaseClosed, PhaseAbandoned} && k in s && s[k].Whole? ==> RightPhase(k, s[k].rec)
  }

  lemma TerminalWrites(w: World, k: Kind, v: Observation, at: int, parent: Kind, io: (WriteOutcome, WriteOutcome))
    requires (k == PhaseClosed && parent == PhaseConsumption) || (k == PhaseAbandoned && parent == PhaseSealed)
    ensures var t := Terminal(w, k, v, at, parent, io).world.files;
      k in t && k !in w.files && t[k].Whole? ==> RightPhase(k, t[k].rec)
  {
    hide Read, Readback, Admits, BuildRecord, RecordedOk;
  }

  lemma NoNewTerminal(s: Store, t: Store, ks: set<Kind>)
    requires Grows(s, t, ks) && TerminalPhases(s)
    requires (PhaseClosed in t && PhaseClosed !in s && t[PhaseClosed].Whole? ==> RightPhase(PhaseClosed, t[PhaseClosed].rec))
    requires (PhaseAbandoned in t && PhaseAbandoned !in s && t[PhaseAbandoned].Whole? ==>
                RightPhase(PhaseAbandoned, t[PhaseAbandoned].rec))
    ensures TerminalPhases(t)
  {
  }

  lemma TerminalPhasesStep(w: World, e: Event)
    requires TerminalPhases(w.files)
    ensures TerminalPhases(Step(w, e).files)
  {
    hide RightPhase, Terminal, TerminalPhases, SealBundle, ClaimLaunch, RecordUnknown, RecordStartup, RecordConsumption, Grows;
    StepGrows(w, e);
    if e.CallClosed? {
      TerminalWrites(w, PhaseClosed, e.v, e.at, PhaseConsumption, e.io);
    } else if e.CallAbandoned? {
      TerminalWrites(w, PhaseAbandoned, e.v, e.at, PhaseSealed, e.io);
    }
    OnlyOwnNames(w.files, Step(w, e).files, Creates(e));
    assert PhaseClosed in Creates(e) ==> e.CallClosed?;
    assert PhaseAbandoned in Creates(e) ==> e.CallAbandoned?;
    NoNewTerminal(w.files, Step(w, e).files, Creates(e));
  }

  lemma OnlyOwnNames(s: Store, t: Store, ks: set<Kind>)
    requires Grows(s, t, ks)
    ensures PhaseClosed in t && PhaseClosed !in s ==> PhaseClosed in ks
    ensures PhaseAbandoned in t && PhaseAbandoned !in s ==> PhaseAbandoned in ks
  {
  }

  lemma {:induction false} TerminalPhasesExec(w: World, run: seq<Event>)
    requires TerminalPhases(w.files)
    ensures TerminalPhases(Exec(w, run).files)
    decreases run
  {
    if run != [] {
      TerminalPhasesStep(w, run[0]);
      TerminalPhasesExec(Step(w, run[0]), run[1..]);
    }
  }

  /** The stored tombstone names the stored record: by its digest, and by every field they share. */
  predicate Binds(t: Record, r: Record)
    requires r.PhaseRec?
  {
    && t.TombstoneRec?
    && t.terminalSha == Sha256(Receipt(r))
    && t.phase == r.phase && t.hostId == r.hostId && t.nonceSha == r.nonceSha
    && t.commitmentSha == r.commitmentSha && t.atWallMs == r.atWallMs
  }

  /** In every reachable state, a whole terminal record stands beside a whole tombstone that names it. */
  lemma TombstoneNamesRecord(run: seq<Event>, k: Kind)
    requires k in {PhaseClosed, PhaseAbandoned}
    requires k in Exec(START, run).files && Exec(START, run).files[k].Whole?
    ensures var s := Exec(START, run).files; var r := s[k].rec;
      && r.PhaseRec? && r.phase == (if k == PhaseClosed then Closed else Abandoned)
      && KeyTombstone in s && s[KeyTombstone].Whole? && Binds(s[KeyTombstone].rec, r)
  {
    InvExec(START, run);
    TerminalPhasesExec(START, run);
    assert RightPhase(k, Exec(START, run).files[k].rec);
  }

  /** A terminal record that reads back is the one its tombstone names. */
  lemma ReadTerminalIsNamed(s: Store, k: Kind)
    requires k in {PhaseClosed, PhaseAbandoned} && Read(s, k).Some?
    ensures var r := Read(s, k).value;
      r.PhaseRec? && KeyTombstone in s && s[KeyTombstone].Whole? && Binds(s[KeyTombstone].rec, r)
  {
    assert Admits(s, k, s[k].rec);
  }

  /** One tombstone admits at most one record: the same tombstone beside another record, in any
      directory, makes that record unreadable. */
  lemma OneRecordPerTombstone(s: Store, t: Store, k: Kind, l: Kind)
    requires k in {PhaseClosed, PhaseAbandoned} && l in {PhaseClosed, PhaseAbandoned}
    requires KeyTombstone in s && KeyTombstone in t && s[KeyTombstone] == t[KeyTombstone]
    requires Read(s, k).Some? && Read(t, l).Some?
    ensures Read(s, k) == Read(t, l)
  {
    ReadTerminalIsNamed(s, k);
    ReadTerminalIsNamed(t, l);
  }

  // ---------- the records ----------

  /** Which receipt a phase record hangs off. */
  predicate HangsOff(s: Store, k: Kind, parent: Kind) {
    match k
    case PhaseStartup => parent == PhaseLaunchAttempt
    case PhaseConsumption => parent == PhaseStartup
    case PhaseClosed => parent == PhaseConsumption
    case PhaseAbandoned => parent == PhaseSealed
    case _ =>
      && parent in {PhaseSealed, PhaseLaunchAttempt, PhaseStartup, PhaseConsumption} && parent in s
      && (PhaseLaunchAttempt in s ==> parent != PhaseSealed)
      && (PhaseStartup in s ==> parent in {PhaseStartup, PhaseConsumption})
      && (PhaseConsumption in s ==> parent == PhaseConsumption)
  }

  predicate PhaseNamed(k: Kind, phase: Phase) {
    || (k == PhaseStartup && phase == StartupObserved)
    || (k == PhaseConsumption && phase == ConsumptionReadback)
    || (k == PhaseClosed && phase == Closed)
    || (k == PhaseAbandoned && phase == Abandoned)
    || (k == PhaseUnknown && phase == Unknown)
  }

  /** A device and an inode. */
  predicate TwoNumbers(id: seq<int>) { |id| == 2 && id[0] >= 0 && id[1] >= 0 }

  /** A live child and custody held, except that an abandonment owns no child. */
  predicate Held(own: Ownership, child: bool) {
    && (if child then own.ownedChild.Some? && own.ownedChild.value.pid > 0 else own.ownedChild.None?)
    && own.windowHeld == Some(true) && own.lockHeld == Some(true) && own.sourcesInhibited == Some(true)
  }

  predicate Observed(k: Kind, v: Observation, at: int, authorization: Record, bundle: Record)
    requires authorization.AuthorizationRec? && bundle.BundleRec?
  {
    && TwoNumbers(v.own.windowIdentity) && TwoNumbers(v.own.lockIdentity)
    && v.own.sourcesInhibitedReceipt == bundle.bundle.cut.sourcesInhibited
    && match k
    case PhaseStartup =>
      && v.StartupSeen? && Held(v.own, true)
      && v.launchAuthorization == Sha256(Receipt(authorization))
      && v.consumingBinary == authorization.authorization.consumingBinary
    case PhaseConsumption =>
      && v.ConsumptionSeen? && Held(v.own, true) && v.settlementExact
      && v.validatorBinary == authorization.authorization.consumingBinary
    case PhaseClosed => v.Release? && Held(v.own, true) && v.outcomeUnknown && v.noLaunchReceipt.None?
    case PhaseAbandoned => v.Release? && Held(v.own, false) && v.outcomeUnknown && v.noLaunchReceipt.Some?
    case _ =>
      && v.Contained? && v.custodian == "fixed-DS-owner" && at < v.deadlineWallMs <= at + 300000
      && (v.own.ownedChild.Some? ==> v.own.ownedChild.value.pid > 0)
  }

  const PHASE_KINDS: set<Kind> := {PhaseStartup, PhaseConsumption, PhaseClosed, PhaseAbandoned, PhaseUnknown}

  lemma HangsOffParent(s: Store, k: Kind)
    requires k in PHASE_KINDS && ParentOf(s, k).Some?
    ensures HangsOff(s, k, ParentOf(s, k).value)
  {
  }

  lemma ObservedBy(k: Kind, v: Observation, at: int, previous: Record, authorization: Record, bundle: Record, claimReads: bool)
    requires authorization.AuthorizationRec? && bundle.BundleRec? && previous.PhaseRec? && k in PHASE_KINDS
    requires ObservationOk(k, v, previous, authorization, bundle, claimReads)
    requires k == PhaseUnknown ==> v.Contained? && at < v.deadlineWallMs <= at + CONTAINMENT_MS
    ensures Observed(k, v, at, authorization, bundle)
  {
  }

  /** The record is bound by digest to a record of that kind, and later. */
  predicate Follows(s: Store, r: Record, parent: Kind)
    requires r.PhaseRec?
  {
    && Read(s, parent).Some? && Read(s, parent).value.PhaseRec?
    && r.previousSha == Some(Sha256(Receipt(Read(s, parent).value)))
    && Read(s, parent).value.atWallMs < r.atWallMs <= 9007199254740991
  }

  /** ... and it is a record of its phase under the commitment, with what its phase must have observed. */
  predicate Spelled(k: Kind, r: Record, c: Record, authorization: Record, bundle: Record)
    requires r.PhaseRec? && c.CommitmentRec? && authorization.AuthorizationRec? && bundle.BundleRec?
  {
    && PhaseNamed(k, r.phase) && r.observation.Some?
    && r.hostId == c.hostId && r.nonceSha == Sha256(Text(c.startupNonce)) && r.commitmentSha == Sha256(Receipt(c))
    && Observed(k, r.observation.value, r.atWallMs, authorization, bundle)
  }

  lemma Built(k: Kind, v: Observation, at: int, previous: Option<Record>, authorization: Option<Record>,
              commitment: Option<Record>, bundle: Option<Record>, claimReads: bool, r: Record)
    requires previous.Some? ==> previous.value.PhaseRec?
    requires authorization.Some? ==> authorization.value.AuthorizationRec?
    requires commitment.Some? ==> commitment.value.CommitmentRec?
    requires bundle.Some? ==> bundle.value.BundleRec?
    requires k in PHASE_KINDS
    requires BuildRecord(k, v, at, previous, authorization, commitment, bundle, claimReads) == Some(r)
    ensures previous.Some? && authorization.Some? && commitment.Some? && bundle.Some? && r.PhaseRec? && r.atWallMs == at
    ensures Spelled(k, r, commitment.value, authorization.value, bundle.value)
    ensures k == PhaseStartup ==> claimReads
    ensures r.previousSha == Some(Sha256(Receipt(previous.value)))
    ensures previous.value.atWallMs < at <= 9007199254740991
  {
    ObservedBy(k, v, at, previous.value, authorization.value, bundle.value, claimReads);
    hide Observed, ObservationOk;
  }

  /** What readback of the record has read itself. */
  lemma ReadHasParent(s: Store, k: Kind) returns (r: Record, parent: Kind)
    requires k in PHASE_KINDS && Read(s, k).Some?
    ensures Read(s, k) == Some(r) && r.PhaseRec? && r.observation.Some?
    ensures ParentOf(s, k) == Some(parent)
    ensures Read(s, parent).Some? ==> Read(s, parent).value.PhaseRec?
    ensures Readback(s, LaunchAuthorization).Some? ==> Readback(s, LaunchAuthorization).value.AuthorizationRec?
    ensures Readback(s, BundleCommitment).Some? ==> Readback(s, BundleCommitment).value.CommitmentRec?
    ensures Readback(s, BundleJson).Some? ==> Readback(s, BundleJson).value.BundleRec?
    ensures BuildRecord(k, r.observation.value, r.atWallMs, Read(s, parent), Readback(s, LaunchAuthorization),
                        Readback(s, BundleCommitment), Readback(s, BundleJson), Readback(s, LaunchClaimed).Some?) == Some(r)
  {
    hide BuildRecord;
    r := s[k].rec;
    assert Admits(s, k, r);
    parent := ParentOf(s, k).value;
    assert RecordFrom(s, k, r.observation.value, r.atWallMs, parent) == Some(r);
  }

  lemma FollowsBy(s: Store, r: Record, parent: Kind)
    requires r.PhaseRec? && Read(s, parent).Some? && Read(s, parent).value.PhaseRec?
    requires r.previousSha == Some(Sha256(Receipt(Read(s, parent).value)))
    requires Read(s, parent).value.atWallMs < r.atWallMs <= 9007199254740991
    ensures Follows(s, r, parent)
  {
  }

  /** A lifecycle record that reads back is a record of its phase under the commitment on disk, later
      than the record it hangs off and bound to it by digest, with what its phase must have observed. */
  lemma RecordSpelledOut(s: Store, k: Kind)
    requires k in PHASE_KINDS && Read(s, k).Some?
    ensures Readback(s, BundleCommitment).Some? && Readback(s, LaunchAuthorization).Some? && Readback(s, BundleJson).Some?
    ensures Readback(s, BundleCommitment).value.CommitmentRec? && Readback(s, LaunchAuthorization).value.AuthorizationRec?
    ensures Readback(s, BundleJson).value.BundleRec?
    ensures k == PhaseStartup ==> Readback(s, LaunchClaimed).Some?
    ensures Read(s, k).value.PhaseRec?
    ensures exists parent :: HangsOff(s, k, parent) && Follows(s, Read(s, k).value, parent)
    ensures Spelled(k, Read(s, k).value, Readback(s, BundleCommitment).value, Readback(s, LaunchAuthorization).value,
                    Readback(s, BundleJson).value)
  {
    hide *;
    var r, parent := ReadHasParent(s, k);
    HangsOffParent(s, k);
    Built(k, r.observation.value, r.atWallMs, Read(s, parent), Readback(s, LaunchAuthorization),
          Readback(s, BundleCommitment), Readback(s, BundleJson), Readback(s, LaunchClaimed).Some?, r);
    FollowsBy(s, r, parent);
  }

  predicate SameCustody(r: Record, parent: Record) {
    r.PhaseRec? && r.observation.Some? && parent.PhaseRec? && parent.observation.Some?
    && r.observation.value.own == parent.observation.value.own
  }

  /** From startup to close one custody is observed: the same child, window, lock and inhibited sources. */
  lemma CustodyUnbroken(s: Store, k: Kind, parent: Kind)
    requires (k == PhaseConsumption && parent == PhaseStartup) || (k == PhaseClosed && parent == PhaseConsumption)
    requires Read(s, k).Some?
    ensures Read(s, parent).Some? && SameCustody(Read(s, k).value, Read(s, parent).value)
  {
    var r, p := ReadHasParent(s, k);
    assert p == parent;
    PhaseSeen(s, parent);
    hide Read, Readback, Admits;
  }

  /** An UNKNOWN after a startup still names the same window and lock, and no other child. */
  predicate SameWindow(r: Record, parent: Record) {
    && r.PhaseRec? && r.observation.Some? && parent.PhaseRec? && parent.observation.Some?
    && var now, before := r.observation.value.own, parent.observation.value.own;
    && now.windowIdentity == before.windowIdentity && now.lockIdentity == before.lockIdentity
    && now.lockOwnership == before.lockOwnership && now.sourcesInhibitedReceipt == before.sourcesInhibitedReceipt
    && (now.ownedChild.Some? ==> now.ownedChild == before.ownedChild)
  }

  lemma UnknownKeepsWindow(s: Store, parent: Kind)
    requires Read(s, PhaseUnknown).Some?
    requires parent == (if PhaseConsumption in s then PhaseConsumption else PhaseStartup) && parent in s
    ensures Read(s, parent).Some? && SameWindow(Read(s, PhaseUnknown).value, Read(s, parent).value)
  {
    var r, p := ReadHasParent(s, PhaseUnknown);
    assert p == parent;
    PhaseSeen(s, parent);
    hide Read, Readback, Admits;
  }

  lemma PhaseSeen(s: Store, k: Kind)
    requires k in {PhaseStartup, PhaseConsumption}
    ensures Read(s, k).Some? ==> && Read(s, k).value.PhaseRec? && Read(s, k).value.observation.Some?
                                 && Read(s, k).value.phase in {StartupObserved, ConsumptionReadback}
  {
    if Read(s, k).Some? {
      RecordSpelledOut(s, k);
      hide Read, Readback;
    }
  }

  // ---------- the snapshot ----------

  /** In every reachable state the snapshot is one of four answers, told apart by what reads back: the
      named custodian while an UNKNOWN reads back, closed or abandoned while that record reads back and
      there is no UNKNOWN, and otherwise unknown with a launch possible. */
  lemma SnapshotExact(run: seq<Event>)
    ensures var s := Exec(START, run).files; var view := Snapshot(s);
      && (PhaseUnknown in s && Read(s, PhaseUnknown).Some? <==> view == View(Unknown, true, Some("fixed-DS-owner")))
      && (PhaseUnknown !in s && Read(s, PhaseClosed).Some? <==> view == View(Closed, true, None))
      && (PhaseUnknown !in s && Read(s, PhaseAbandoned).Some? <==> view == View(Abandoned, false, None))
      && (Read(s, PhaseUnknown).None? && (PhaseUnknown in s || (Read(s, PhaseClosed).None? && Read(s, PhaseAbandoned).None?))
          <==> view == View(Unknown, true, None))
  {
    var s := Exec(START, run).files;
    InvExec(START, run);
    SnapshotParts(s);
  }

  lemma PhaseOnRecord(s: Store, k: Kind)
    requires k in {PhaseUnknown, PhaseClosed, PhaseAbandoned} && Read(s, k).Some?
    ensures k in s && Read(s, k).value.PhaseRec? && Read(s, k).value.observation.Some?
    ensures k == PhaseClosed ==> Read(s, k).value.phase == Closed
    ensures k == PhaseAbandoned ==> Read(s, k).value.phase == Abandoned
    ensures k == PhaseUnknown ==> Read(s, k).value.observation.value.Contained?
                                  && Read(s, k).value.observation.value.custodian == "fixed-DS-owner"
  {
    hide Readback, Admits, HangsOff;
    RecordSpelledOut(s, k);
  }

  lemma SnapshotParts(s: Store)
    requires !(PhaseClosed in s && PhaseAbandoned in s)
    ensures var view := Snapshot(s);
      && (PhaseUnknown in s && Read(s, PhaseUnknown).Some? ==> view == View(Unknown, true, Some("fixed-DS-owner")))
      && (PhaseUnknown !in s && Read(s, PhaseClosed).Some? ==> view == View(Closed, true, None))
      && (PhaseUnknown !in s && Read(s, PhaseAbandoned).Some? ==> view == View(Abandoned, false, None))
      && (Read(s, PhaseUnknown).None? && (PhaseUnknown in s || (Read(s, PhaseClosed).None? && Read(s, PhaseAbandoned).None?))
          ==> view == View(Unknown, true, None))
  {
    hide Readback, Admits, HasShape;
    if Read(s, PhaseUnknown).Some? { PhaseOnRecord(s, PhaseUnknown); }
    if Read(s, PhaseClosed).Some? { PhaseOnRecord(s, PhaseClosed); }
    if Read(s, PhaseAbandoned).Some? { PhaseOnRecord(s, PhaseAbandoned); }
  }
}
