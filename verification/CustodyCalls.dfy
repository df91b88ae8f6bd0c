/** The journal and lifecycle calls as they run: a directory and a token list that they update in
    place, one call at a time under the mutation lock.  Each is proved against the function that
    the run theorems are about. */
module CustodyCalls {
  import opened Wrappers
  import opened Receipts
  import opened Journal
  import opened Lifecycle

  /** The write loop shared by every receipt.  `accepted` is how many bytes each `write` takes. */
  method WriteLoop(raw: seq<int>, accepted: seq<nat>) returns (disk: seq<int>, ok: bool)
    ensures disk <= raw
    ensures ok <==> disk == raw
  {
    disk := [];
    var i := 0;
    while |disk| < |raw|
      invariant disk <= raw
      decreases |accepted| - i
    {
      var count := if i < |accepted| then accepted[i] else 0;
      if count == 0 { return disk, false; }
      var upTo := if |disk| + count <= |raw| then |disk| + count else |raw|;
      disk := raw[..upTo];
      i := i + 1;
    }
    assert disk == raw;
    ok := true;
  }

  /** One exclusive create with its write loop and sync: what is on disk under the name, and the outcome
      that the calls below are told.  A torn file is a proper part of the bytes. */
  method WriteNew(raw: seq<int>, created: bool, accepted: seq<nat>, synced: bool)
    returns (disk: Option<seq<int>>, o: WriteOutcome)
    ensures disk.Some? <==> created
    ensures disk.Some? ==> disk.value <= raw
    ensures o == match disk
                 case None => NotCreated
                 case Some(bytes) => if bytes != raw then LeftTorn else if synced then Completed else CompletedThenFailed
  {
    if !created { return None, NotCreated; }
    var bytes, ok := WriteLoop(raw, accepted);
    disk := Some(bytes);
    o := if !ok then LeftTorn else if synced then Completed else CompletedThenFailed;
  }

  lemma PhaseOutcome(w: World, k: Kind, v: Observation, at: int, parent: Kind, o: WriteOutcome)
    requires LRank(parent) < LRank(k) && HasPhaseShape(parent)
    ensures RecordPhase(w, k, v, at, parent, o)
            == match RecordFrom(w.files, k, v, at, parent)
               case None => Outcome(w, None)
               case Some(r) => Recorded(w, k, r, o)
  {
  }

  class Custody {
    var files: Store
    var tokens: seq<Digest>

    function State(): World
      reads this
    {
      World(files, tokens)
    }

    constructor ()
      ensures State() == START
    {
      files, tokens := map[], [];
    }

    /** Process restart: the directory stays, the token list does not. */
    method RestartProcess()
      modifies this
      ensures State() == Step(old(State()), Restart)
    {
      tokens := [];
    }

    /** `write_once`, `write_bundle_once` and `_write_once`: the name is taken exclusively. */
    method Put(k: Kind, r: Record, o: WriteOutcome) returns (raised: bool)
      modifies this`files
      ensures files == Create(old(files), k, r, o)
      ensures raised <==> k in old(files) || !o.Completed?
    {
      if k in files || o.NotCreated? { return true; }
      if o.LeftTorn? {
        files := files[k := Torn];
        return true;
      }
      files := files[k := Whole(r)];
      raised := o.CompletedThenFailed?;
    }

    /** The same from the bytes up: the file is whole exactly when the loop wrote every byte. */
    method PutBytes(k: Kind, r: Record, raw: seq<int>, created: bool, accepted: seq<nat>, synced: bool)
      returns (raised: bool, disk: Option<seq<int>>, o: WriteOutcome)
      modifies this`files
      ensures files == Create(old(files), k, r, o)
      ensures disk.Some? <==> created
      ensures disk.Some? ==> disk.value <= raw
      ensures raised <==> k in old(files) || !created || disk.value != raw || !synced
      ensures k !in old(files) ==>
                (k in files <==> created) && (created ==> files[k] == if disk.value == raw then Whole(r) else Torn)
    {
      disk, o := WriteNew(raw, created, accepted, synced);
      raised := Put(k, r, o);
    }

    method WriteJournal(k: Kind, r: Record, o: WriteOutcome) returns (digest: Option<Digest>)
      modifies this`files
      ensures files == Create(old(files), k, r, o)
      ensures digest == if WriteOk(old(files), k, r, o) then Some(Sha(r)) else None
    {
      var raised := Put(k, r, o);
      if raised { return None; }
      var observed := Readback(files, k);
      digest := if observed == Some(r) then Some(Sha(r)) else None;
    }

    method WriteLifecycle(k: Kind, r: Record, o: WriteOutcome) returns (digest: Option<Digest>)
      modifies this`files
      ensures files == Create(old(files), k, r, o)
      ensures digest == if RecordedOk(old(files), k, r, o) then Some(Sha(r)) else None
      ensures Outcome(World(files, tokens), digest) == Recorded(old(World(files, tokens)), k, r, o)
    {
      var raised := Put(k, r, o);
      if raised { return None; }
      var observed := Read(files, k);
      digest := if observed == Some(r) then Some(Sha(r)) else None;
    }

    method SealBundleCommitment(b: Bundle, at: int, io: SealIO) returns (digest: Option<Digest>)
      modifies this
      ensures Outcome(State(), digest) == SealBundle(old(State()), b, at, io)
    {
      var receipt := Readback(files, LaunchAuthorization);
      if receipt.None? { return None; }
      var authorization := receipt.value;
      if !ValidBundle(b, authorization.authorization, Sha(authorization)) { return None; }
      if !(authorization.authorization.authorizedAtWallMs < at <= MAX_WALL_MS) { return None; }
      var index := IndexFor(authorization.authorization, b);
      var commitment := CommitmentFor(authorization, b, at);
      var d := WriteJournal(BundleJson, BundleRec(b), io.bundle);
      if d.None? { return None; }
      d := WriteJournal(LiveHandleIndex, index, io.index);
      if d.None? { return None; }
      digest := WriteJournal(BundleCommitment, commitment, io.commitment);
      if digest.None? { return None; }
      var phase := PhaseUnder(commitment, SealedNotAttempted, at, None);
      d := WriteJournal(PhaseSealed, phase, io.phase);
      if d.None? { return None; }
      tokens := [Sha(commitment)];
    }

    method ClaimOneLaunch(at: int, io: (WriteOutcome, WriteOutcome)) returns (digest: Option<Digest>)
      modifies this
      ensures Outcome(State(), digest) == ClaimLaunch(old(State()), at, io)
    {
      // The token goes first: whatever fails below, this process cannot claim again.
      var token := None;
      if tokens != [] {
        token := Some(tokens[|tokens| - 1]);
        tokens := tokens[..|tokens| - 1];
      }
      var authorization := Readback(files, LaunchAuthorization);
      var commitment := Readback(files, BundleCommitment);
      if authorization.None? || commitment.None? { return None; }
      if token != Some(Sha(commitment.value)) { return None; }
      var sealed := Readback(files, PhaseSealed);
      if sealed.None? { return None; }
      if !(commitment.value.sealedAtWallMs < at <= MAX_WALL_MS) { return None; }
      var attempt := PhaseUnder(commitment.value, LaunchAttemptCommitted, at, Some(Sha(sealed.value)));
      var d := WriteJournal(PhaseLaunchAttempt, attempt, io.0);
      if d.None? { return None; }
      digest := WriteJournal(LaunchClaimed, ClaimRec(Sha(authorization.value), Sha(commitment.value), at), io.1);
    }

    method RecordTerminal(k: Kind, v: Observation, at: int, parent: Kind, io: (WriteOutcome, WriteOutcome))
      returns (digest: Option<Digest>)
      requires (k == PhaseClosed && parent == PhaseConsumption) || (k == PhaseAbandoned && parent == PhaseSealed)
      modifies this
      ensures Outcome(State(), digest) == Terminal(old(State()), k, v, at, parent, io)
    {
      hide Read, Admits, BuildRecord, Marked;
      tokens, digest := [], None;
      if !TerminalPresent(files) {
        var r := RecordFrom(files, k, v, at, parent);
        if r.Some? { digest := WriteTerminal(k, r.value, io); }
      }
    }

    /** The tombstone that binds the record, then the record. */
    method WriteTerminal(k: Kind, r: Record, io: (WriteOutcome, WriteOutcome)) returns (digest: Option<Digest>)
      requires r.PhaseRec?
      modifies this`files
      ensures Outcome(State(), digest) == Marked(old(State()), k, r, io)
    {
      var d := WriteLifecycle(KeyTombstone, TombstoneFor(r), io.0);
      if d.None? { return None; }
      digest := WriteLifecycle(k, r, io.1);
    }

    method Abandon(v: Observation, at: int, io: (WriteOutcome, WriteOutcome)) returns (digest: Option<Digest>)
      modifies this
      ensures Outcome(State(), digest) == RecordAbandoned(old(State()), v, at, io)
    {
      tokens := [];
      if AttemptOrLater(files) { return None; }
      digest := RecordTerminal(PhaseAbandoned, v, at, PhaseSealed, io);
    }

    method Contain(v: Observation, at: int, o: WriteOutcome) returns (digest: Option<Digest>)
      modifies this
      ensures Outcome(State(), digest) == RecordUnknown(old(State()), v, at, o)
    {
      tokens := [];
      if TerminalPresent(files) { return None; }
      var parent := LastPresent(files);
      if parent.None? { return None; }
      digest := WritePhase(PhaseUnknown, v, at, parent.value, o);
    }

    method SealLaunchIntent(nonce: string, preimage: Digest, at: int, o: WriteOutcome) returns (digest: Option<Digest>)
      modifies this
      ensures Outcome(State(), digest) == SealIntent(old(State()), nonce, preimage, at, o)
    {
      if !(16 <= |nonce| <= 128) || !WallMs(at) { return None; }
      digest := WriteJournal(Intent, IntentRec(preimage, ShaText(nonce), at), o);
    }

    method SealLaunchAuthorization(a: Authorization, o: WriteOutcome) returns (digest: Option<Digest>)
      modifies this
      ensures Outcome(State(), digest) == SealAuthorization(old(State()), a, o)
    {
      var intent := Readback(files, Intent);
      if intent.None? || !ValidAuthorization(a, intent.value) { return None; }
      digest := WriteJournal(LaunchAuthorization, AuthorizationRec(Sha(intent.value), a), o);
    }

    /** A phase receipt built on its parent as the directory stands. */
    method WritePhase(k: Kind, v: Observation, at: int, parent: Kind, o: WriteOutcome) returns (digest: Option<Digest>)
      requires LRank(parent) < LRank(k) && HasPhaseShape(parent)
      modifies this`files
      ensures Outcome(World(files, tokens), digest) == RecordPhase(old(World(files, tokens)), k, v, at, parent, o)
    {
      hide *;
      PhaseOutcome(World(files, tokens), k, v, at, parent, o);
      var r := RecordFrom(files, k, v, at, parent);
      if r.None? { return None; }
      digest := WriteLifecycle(k, r.value, o);
    }

    method Startup(v: Observation, at: int, o: WriteOutcome) returns (digest: Option<Digest>)
      modifies this`files
      ensures Outcome(State(), digest) == RecordStartup(old(State()), v, at, o)
    {
      if TerminalPresent(files) || PhaseConsumption in files { return None; }
      digest := WritePhase(PhaseStartup, v, at, PhaseLaunchAttempt, o);
    }

    method Consumption(v: Observation, at: int, o: WriteOutcome) returns (digest: Option<Digest>)
      modifies this`files
      ensures Outcome(State(), digest) == RecordConsumption(old(State()), v, at, o)
    {
      if TerminalPresent(files) { return None; }
      digest := WritePhase(PhaseConsumption, v, at, PhaseStartup, o);
    }

    method Close(v: Observation, at: int, io: (WriteOutcome, WriteOutcome)) returns (digest: Option<Digest>)
      modifies this
      ensures Outcome(State(), digest) == RecordClosed(old(State()), v, at, io)
    {
      digest := RecordTerminal(PhaseClosed, v, at, PhaseConsumption, io);
    }
  }
}
