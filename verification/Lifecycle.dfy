/** `lifecycle.py`: phase observations, terminal tombstones and the read-only snapshot. */
module Lifecycle {
  import opened Wrappers
  import opened Receipts
  import opened J = Journal

  // ---------- observations ----------

  predicate Descriptor(id: seq<int>) {
    |id| == 2 && id[0] >= 0 && id[1] >= 0
  }

  predicate OwnershipOk(o: Ownership, childRequired: bool, unknownChild: bool) {
    && (if childRequired
        then (o.ownedChild.Some? && o.ownedChild.value.pid > 0) || (unknownChild && o.ownedChild.None?)
        else o.ownedChild.None?)
    && Descriptor(o.windowIdentity) && Descriptor(o.lockIdentity)
    && (unknownChild ||
        (o.windowHeld == Some(true) && o.lockHeld == Some(true) && o.sourcesInhibited == Some(true)))
  }

  /** Shape and values of the observation that one phase kind demands. */
  predicate ProjectionOk(k: Kind, v: Observation, authorization: Record)
    requires authorization.AuthorizationRec?
  {
    match k
    case PhaseStartup =>
      && v.StartupSeen?
      && v.launchAuthorization == Sha(authorization)
      && v.consumingBinary == authorization.authorization.consumingBinary
    case PhaseConsumption =>
      && v.ConsumptionSeen?
      && v.validatorBinary == authorization.authorization.consumingBinary
      && v.settlementExact
    case PhaseClosed => v.Release? && v.outcomeUnknown && v.noLaunchReceipt.None?
    case PhaseAbandoned => v.Release? && v.outcomeUnknown && v.noLaunchReceipt.Some?
    case _ => v.Contained? && v.custodian == CUSTODIAN
  }

  /** The custody that was observed before is the custody that is observed now. */
  predicate CustodyContinues(k: Kind, now: Ownership, before: Ownership) {
    if k == PhaseUnknown then
      && now.windowIdentity == before.windowIdentity
      && now.lockIdentity == before.lockIdentity
      && now.lockOwnership == before.lockOwnership
      && now.sourcesInhibitedReceipt == before.sourcesInhibitedReceipt
      && (now.ownedChild.None? || now.ownedChild == before.ownedChild)
    else now == before
  }

  predicate ObservationOk(k: Kind, v: Observation, previous: Record, authorization: Record, bundle: Record, claimReads: bool)
    requires authorization.AuthorizationRec? && bundle.BundleRec? && previous.PhaseRec?
  {
    && ProjectionOk(k, v, authorization)
    && (k == PhaseStartup ==> claimReads)
    && OwnershipOk(v.own, k != PhaseAbandoned, k == PhaseUnknown)
    && v.own.sourcesInhibitedReceipt == bundle.bundle.cut.sourcesInhibited
    && (previous.phase in {StartupObserved, ConsumptionReadback} && previous.observation.Some?
        ==> CustodyContinues(k, v.own, previous.observation.value.own))
  }

  function StateOf(k: Kind): Phase {
    match k
    case PhaseStartup => StartupObserved
    case PhaseConsumption => ConsumptionReadback
    case PhaseAbandoned => Abandoned
    case PhaseClosed => Closed
    case _ => Unknown
  }

  // ---------- records ----------

  /** The phases a launch goes through; UNKNOWN hangs off the last one present. */
  function LastPresent(s: Store): Option<Kind> {
    if PhaseConsumption in s then Some(PhaseConsumption)
    else if PhaseStartup in s then Some(PhaseStartup)
    else if PhaseLaunchAttempt in s then Some(PhaseLaunchAttempt)
    else if PhaseSealed in s then Some(PhaseSealed)
    else None
  }

  predicate AttemptOrLater(s: Store) {
    PhaseLaunchAttempt in s || PhaseStartup in s || PhaseConsumption in s
  }

  predicate TerminalPresent(s: Store) {
    PhaseUnknown in s || PhaseClosed in s || PhaseAbandoned in s || KeyTombstone in s
  }

  function ParentOf(s: Store, k: Kind): Option<Kind> {
    match k
    case PhaseStartup => Some(PhaseLaunchAttempt)
    case PhaseConsumption => Some(PhaseStartup)
    case PhaseAbandoned => Some(PhaseSealed)
    case PhaseClosed => Some(PhaseConsumption)
    case PhaseUnknown => LastPresent(s)
    case _ => None
  }

  /** What `_record` builds, from the receipts that it reads back. */
  function BuildRecord(k: Kind, v: Observation, at: int, previous: Option<Record>,
                       authorization: Option<Record>, commitment: Option<Record>,
                       bundle: Option<Record>, claimReads: bool): (r: Option<Record>)
    requires previous.Some? ==> previous.value.PhaseRec?
    requires authorization.Some? ==> authorization.value.AuthorizationRec?
    requires commitment.Some? ==> commitment.value.CommitmentRec?
    requires bundle.Some? ==> bundle.value.BundleRec?
    ensures r.Some? ==> r.value.PhaseRec? && r.value.observation == Some(v) && r.value.atWallMs == at
    ensures r.Some? ==> previous.Some? && r.value.previousSha == Some(Sha(previous.value))
    ensures r.Some? ==> previous.value.atWallMs < at <= MAX_WALL_MS
  {
    if && previous.Some? && authorization.Some? && commitment.Some? && bundle.Some?
       && previous.value.atWallMs < at <= MAX_WALL_MS
       && ObservationOk(k, v, previous.value, authorization.value, bundle.value, claimReads)
       && (k == PhaseUnknown ==> v.Contained? && at < v.deadlineWallMs <= at + CONTAINMENT_MS)
    then Some(PhaseUnder(commitment.value, StateOf(k), at, Some(Sha(previous.value)), Some(v)))
    else None
  }

  function TombstoneFor(r: Record): Record
    requires r.PhaseRec?
  {
    TombstoneRec(r.phase, r.hostId, r.nonceSha, r.commitmentSha, Sha(r), r.atWallMs)
  }

  predicate TombstoneOk(r: Record, commitment: Option<Record>)
    requires r.TombstoneRec? && (commitment.Some? ==> commitment.value.CommitmentRec?)
  {
    && commitment.Some?
    && r.phase in {Closed, Abandoned}
    && r.hostId == commitment.value.hostId
    && r.nonceSha == ShaText(commitment.value.startupNonce)
    && r.commitmentSha == Sha(commitment.value)
    && commitment.value.sealedAtWallMs < r.atWallMs <= MAX_WALL_MS
  }

  // ---------- readback ----------

  function LRank(k: Kind): nat {
    match k
    case KeyTombstone => 7
    case PhaseStartup => 8
    case PhaseConsumption => 9
    case PhaseAbandoned => 10
    case PhaseClosed => 10
    case PhaseUnknown => 10
    case _ => J.Rank(k)
  }

  predicate Delegated(k: Kind) { LRank(k) < 7 }

  /** Lifecycle readback; journal kinds are delegated. */
  function Read(s: Store, k: Kind): (r: Option<Record>)
    ensures r.Some? ==> k in s && s[k] == Whole(r.value) && HasShape(k, r.value)
    decreases LRank(k), |s|
  {
    if Delegated(k) then Readback(s, k)
    else if k !in s || s[k].Torn? || !HasShape(k, s[k].rec) then None
    else if Admits(s, k, s[k].rec) then Some(s[k].rec) else None
  }

  /** `_record` on the present directory. */
  function RecordFrom(s: Store, k: Kind, v: Observation, at: int, parent: Kind): (r: Option<Record>)
    requires LRank(parent) < LRank(k) && HasPhaseShape(parent)
    ensures r.Some? ==> r.value.PhaseRec? && r.value.observation == Some(v) && r.value.atWallMs == at
    ensures r.Some? ==> Read(s, parent).Some? && r.value.phase == StateOf(k)
    ensures r.Some? ==> && r.value.previousSha == Some(Sha(Read(s, parent).value))
                        && Read(s, parent).value.atWallMs < at <= MAX_WALL_MS
    ensures r.Some? && k == PhaseStartup ==> Readback(s, LaunchClaimed).Some?
    decreases LRank(k), |s|, 0
  {
    BuildRecord(k, v, at, Read(s, parent), Readback(s, LaunchAuthorization), Readback(s, BundleCommitment),
                Readback(s, BundleJson), Readback(s, LaunchClaimed).Some?)
  }

  predicate HasPhaseShape(k: Kind) {
    k in {PhaseSealed, PhaseLaunchAttempt, PhaseStartup, PhaseConsumption, PhaseAbandoned, PhaseClosed, PhaseUnknown}
  }

  predicate Admits(s: Store, k: Kind, r: Record)
    requires HasShape(k, r) && !Delegated(k)
    decreases LRank(k), |s|, 1
  {
    if k == KeyTombstone then TombstoneOk(r, Readback(s, BundleCommitment))
    else
      var parent := ParentOf(s, k);
      && parent.Some? && r.observation.Some?
      && RecordFrom(s, k, r.observation.value, r.atWallMs, parent.value) == Some(r)
      && (k in {PhaseAbandoned, PhaseClosed} ==> Read(s, KeyTombstone) == Some(TombstoneFor(r)))
      && (k == PhaseAbandoned ==> !AttemptOrLater(s))
  }

  /** A lifecycle receipt that reads back keeps reading back as files are added, as long as an
      UNKNOWN keeps its last present phase and no attempt appears beside an ABANDONED. */
  lemma {:induction false} ReadStable(s: Store, t: Store, k: Kind)
    requires Extends(s, t) && Read(s, k).Some?
    requires k == PhaseUnknown ==> LastPresent(t) == LastPresent(s)
    requires k == PhaseAbandoned ==> !AttemptOrLater(t)
    ensures Read(t, k) == Read(s, k)
    decreases LRank(k)
  {
    if Delegated(k) {
      ReadbackStable(s, t, k);
    } else if k == KeyTombstone {
      ReadbackStable(s, t, BundleCommitment);
    } else {
      var r := s[k].rec;
      assert Admits(s, k, r);
      var parent := ParentOf(s, k).value;
      assert ParentOf(t, k) == Some(parent);
      assert RecordFrom(s, k, r.observation.value, r.atWallMs, parent) == Some(r);
      RecordStable(s, t, k, r.observation.value, r.atWallMs, parent);
      if k in {PhaseAbandoned, PhaseClosed} { ReadStable(s, t, KeyTombstone); }
    }
  }

  lemma {:induction false} RecordStable(s: Store, t: Store, k: Kind, v: Observation, at: int, parent: Kind)
    requires LRank(parent) < LRank(k) && HasPhaseShape(parent) && !Delegated(k)
    requires Extends(s, t) && RecordFrom(s, k, v, at, parent).Some?
    ensures RecordFrom(t, k, v, at, parent) == RecordFrom(s, k, v, at, parent)
    decreases LRank(k), 0
  {
    ReadStable(s, t, parent);
    ReadbackStable(s, t, LaunchAuthorization);
    ReadbackStable(s, t, BundleCommitment);
    ReadbackStable(s, t, BundleJson);
    if k == PhaseStartup { ReadbackStable(s, t, LaunchClaimed); }
  }

  // ---------- operations ----------

  /** `_write_once` of a lifecycle receipt. */
  predicate RecordedOk(s: Store, k: Kind, r: Record, o: WriteOutcome) {
    k !in s && o.Completed? && Read(Create(s, k, r, o), k) == Some(r)
  }

  function Recorded(w: World, k: Kind, r: Record, o: WriteOutcome): Outcome {
    Outcome(w.(files := Create(w.files, k, r, o)),
            if RecordedOk(w.files, k, r, o) then Some(Sha(r)) else None)
  }

  function RecordPhase(w: World, k: Kind, v: Observation, at: int, parent: Kind, o: WriteOutcome): Outcome
    requires LRank(parent) < LRank(k) && HasPhaseShape(parent)
  {
    var r := RecordFrom(w.files, k, v, at, parent);
    if r.None? then Raised(w) else Recorded(w, k, r.value, o)
  }

  function RecordStartup(w: World, v: Observation, at: int, o: WriteOutcome): Outcome {
    if TerminalPresent(w.files) || PhaseConsumption in w.files then Raised(w)
    else RecordPhase(w, PhaseStartup, v, at, PhaseLaunchAttempt, o)
  }

  function RecordConsumption(w: World, v: Observation, at: int, o: WriteOutcome): Outcome {
    if TerminalPresent(w.files) then Raised(w)
    else RecordPhase(w, PhaseConsumption, v, at, PhaseStartup, o)
  }

  /** `_terminal`: the token goes first, then the tombstone that binds the record, then the record. */
  function Terminal(w: World, k: Kind, v: Observation, at: int, parent: Kind, io: (WriteOutcome, WriteOutcome)): Outcome
    requires LRank(parent) < LRank(k) && HasPhaseShape(parent)
  {
    var spent := w.(tokens := []);
    if TerminalPresent(w.files) then Raised(spent) else
    var r := RecordFrom(w.files, k, v, at, parent);
    if r.None? then Raised(spent) else Marked(spent, k, r.value, io)
  }

  function Marked(w: World, k: Kind, r: Record, io: (WriteOutcome, WriteOutcome)): Outcome
    requires r.PhaseRec?
  {
    var marked := w.(files := Create(w.files, KeyTombstone, TombstoneFor(r), io.0));
    if !RecordedOk(w.files, KeyTombstone, TombstoneFor(r), io.0) then Raised(marked)
    else Recorded(marked, k, r, io.1)
  }

  function RecordAbandoned(w: World, v: Observation, at: int, io: (WriteOutcome, WriteOutcome)): Outcome {
    if AttemptOrLater(w.files) then Raised(w.(tokens := []))
    else Terminal(w, PhaseAbandoned, v, at, PhaseSealed, io)
  }

  function RecordClosed(w: World, v: Observation, at: int, io: (WriteOutcome, WriteOutcome)): Outcome {
    Terminal(w, PhaseClosed, v, at, PhaseConsumption, io)
  }

  function RecordUnknown(w: World, v: Observation, at: int, o: WriteOutcome): Outcome {
    var spent := w.(tokens := []);
    var parent := LastPresent(w.files);
    if TerminalPresent(w.files) || parent.None? then Raised(spent)
    else RecordPhase(spent, PhaseUnknown, v, at, parent.value, o)
  }

  // ---------- runs ----------

  /** One call under the mutation lock with what the operating system did, or a restart.
      A crash inside a call is that call with a failing outcome followed by `Restart`. */
  datatype Event =
    | CallSealIntent(nonce: string, preimage: Digest, at: int, o: WriteOutcome)
    | CallSealAuthorization(authorization: Authorization, o: WriteOutcome)
    | CallSealBundle(bundle: Bundle, at: int, io4: SealIO)
    | CallClaim(at: int, io: (WriteOutcome, WriteOutcome))
    | CallStartup(v: Observation, at: int, o: WriteOutcome)
    | CallConsumption(v: Observation, at: int, o: WriteOutcome)
    | CallAbandoned(v: Observation, at: int, io: (WriteOutcome, WriteOutcome))
    | CallClosed(v: Observation, at: int, io: (WriteOutcome, WriteOutcome))
    | CallUnknown(v: Observation, at: int, o: WriteOutcome)
    | Restart

  function Call(w: World, e: Event): Outcome {
    match e
    case CallSealIntent(nonce, preimage, at, o) => SealIntent(w, nonce, preimage, at, o)
    case CallSealAuthorization(a, o) => SealAuthorization(w, a, o)
    case CallSealBundle(b, at, io) => SealBundle(w, b, at, io)
    case CallClaim(at, io) => ClaimLaunch(w, at, io)
    case CallStartup(v, at, o) => RecordStartup(w, v, at, o)
    case CallConsumption(v, at, o) => RecordConsumption(w, v, at, o)
    case CallAbandoned(v, at, io) => RecordAbandoned(w, v, at, io)
    case CallClosed(v, at, io) => RecordClosed(w, v, at, io)
    case CallUnknown(v, at, o) => RecordUnknown(w, v, at, o)
    case Restart => Raised(w.(tokens := []))
  }

  function Step(w: World, e: Event): World { Call(w, e).world }

  const START := World(map[], [])

  function Exec(w: World, run: seq<Event>): World
    decreases run
  {
    if run == [] then w else Exec(Step(w, run[0]), run[1..])
  }

  predicate IsLaunch(w: World, e: Event) { e.CallClaim? && Call(w, e).digest.Some? }

  /** How many claims return a launch in a run. */
  function Launches(w: World, run: seq<Event>): nat
    decreases run
  {
    if run == [] then 0
    else (if IsLaunch(w, run[0]) then 1 else 0) + Launches(Step(w, run[0]), run[1..])
  }

  // ---------- snapshot ----------

  datatype View = View(disposition: Phase, launchMayHaveOccurred: bool, custodian: Option<string>)

  const CONSERVATIVE := View(Unknown, true, None)

  function Snapshot(s: Store): View {
    if PhaseUnknown in s then
      var u := Read(s, PhaseUnknown);
      if u.Some? && u.value.observation.Some? && u.value.observation.value.Contained?
      then CONSERVATIVE.(custodian := Some(u.value.observation.value.custodian))
      else CONSERVATIVE
    else if PhaseClosed in s && PhaseAbandoned in s then CONSERVATIVE
    else if PhaseClosed in s || PhaseAbandoned in s then
      var r := Read(s, if PhaseClosed in s then PhaseClosed else PhaseAbandoned);
      if r.None? then CONSERVATIVE
      else View(r.value.phase, r.value.phase != Abandoned, None)
    else CONSERVATIVE
  }
}
