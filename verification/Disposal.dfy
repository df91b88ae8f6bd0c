/** The e31 and e32 closures: an authorization record is published before a terminal record, each
    by exclusive rename and directory sync, and an in-memory cache remembers which records are
    known to be durable. */
module Disposal {
  import opened Wrappers

  datatype Slot = AuthSlot | TerminalSlot

  /** SHA-256 of a canonical record is symbolic. */
  datatype Digest = Sha256(of: Doc)
  datatype Doc = AuthDoc | TerminalDoc(authorization: Digest)

  /** The exact record that may stand in a slot. */
  function Expected(s: Slot): Doc {
    match s
    case AuthSlot => AuthDoc
    case TerminalSlot => TerminalDoc(Sha256(AuthDoc))
  }

  /** A directory entry; `pin` is the file identity, change time included. */
  datatype Entry = Entry(pin: nat, doc: Doc)

  /** One record's place: the entry that reads there now, whether that entry survives any crash,
      and the pin that the in-memory cache holds for it. */
  datatype Place = Place(visible: Option<Entry>, durable: bool, cached: Option<nat>)

  datatype Effect = Renamed(slot: Slot) | Synced(slot: Slot)

  /** Both places, a clock for fresh pins, and every rename and sync so far. */
  datatype Engine = Engine(auth: Place, terminal: Place, clock: nat, log: seq<Effect>) {
    function At(s: Slot): Place { if s == AuthSlot then auth else terminal }

    function With(s: Slot, p: Place): Engine {
      if s == AuthSlot then this.(auth := p) else this.(terminal := p)
    }

    predicate Has(s: Slot) { At(s).visible.Some? }
  }

  const START := Engine(Place(None, false, None), Place(None, false, None), 0, [])

  /** How far one publication got. */
  datatype PublishIO =
    | NotRenamed           // failed before the exclusive rename
    | RenamedOnly          // the entry is visible, the directory sync did not happen
    | SyncedOnly           // synced, but a later check raised before the cache was updated
    | Published

  /** How far one establishment got. */
  datatype EstablishIO = NotSynced | SyncedUnrecorded | Established

  // ---------- the shared primitives ----------

  /** `_publish`: refuses an existing name. */
  function Publish(e: Engine, s: Slot, io: PublishIO): (r: (Engine, bool)) {
    if e.Has(s) || io.NotRenamed? then (e, false) else
    var shown := e.With(s, Place(Some(Entry(e.clock, Expected(s))), false, e.At(s).cached))
                  .(clock := e.clock + 1, log := e.log + [Renamed(s)]);
    if io.RenamedOnly? then (shown, false) else
    var synced := shown.With(s, shown.At(s).(durable := true)).(log := shown.log + [Synced(s)]);
    if io.SyncedOnly? then (synced, false)
    else (synced.With(s, synced.At(s).(cached := Some(e.clock))), true)
  }

  /** `_load`: absent, or exactly the expected record, or an error. */
  predicate Loads(e: Engine, s: Slot) {
    e.Has(s) ==> e.At(s).visible.value.doc == Expected(s)
  }

  /** `_pair`: no terminal without its authorization, and their digests agree. */
  predicate PairOk(e: Engine) {
    && Loads(e, AuthSlot) && Loads(e, TerminalSlot)
    && (e.Has(TerminalSlot) ==>
          && e.Has(AuthSlot)
          && e.terminal.visible.value.doc.TerminalDoc?
          && e.terminal.visible.value.doc.authorization == Sha256(e.auth.visible.value.doc))
  }

  /** `_known`: the cached pin is the pin of the entry that is there now. */
  predicate Known(e: Engine, s: Slot) {
    e.Has(s) && e.At(s).cached == Some(e.At(s).visible.value.pin)
  }

  /** `_known` also drops a cached pin that no longer matches. */
  function Forget(e: Engine, s: Slot): Engine {
    if Known(e, s) then e else e.With(s, e.At(s).(cached := None))
  }

  /** `all(_known(...))` over both paths stops at the first unknown one. */
  function ForgetStale(e: Engine): Engine {
    if Known(e, AuthSlot) then Forget(e, TerminalSlot) else Forget(e, AuthSlot)
  }

  /** `_establish`: nothing for a known record, otherwise sync the file and its directory. */
  function Establish(e: Engine, s: Slot, io: EstablishIO): (r: (Engine, bool)) {
    if !e.Has(s) || !PairOk(e) then (e, false)
    else if Known(e, s) then (e, !io.NotSynced?)
    else
      var forgot := e.With(s, e.At(s).(cached := None));
      if io.NotSynced? then (forgot, false) else
      var synced := forgot.With(s, forgot.At(s).(durable := true)).(log := e.log + [Synced(s)]);
      if io.SyncedUnrecorded? then (synced, false)
      else (synced.With(s, synced.At(s).(cached := Some(e.At(s).visible.value.pin))), true)
  }

  // ---------- disposal ----------

  datatype DisposeIO = DisposeIO(
    admitted: bool,                            // identity, lease and scene checks before any write
    publishAuth: PublishIO, establishAuth: EstablishIO,
    publishTerminal: PublishIO, establishTerminal: EstablishIO,
    finished: bool)                            // the checks after the last write

  /** `e32_closure_dispose`: publish what is missing, establish both, in order. */
  function DisposeE32(e: Engine, io: DisposeIO): (r: (Engine, bool)) {
    if !io.admitted || !PairOk(e) then (e, false) else
    var e0 := if e.Has(TerminalSlot) then ForgetStale(e) else e;
    var p := if e.Has(AuthSlot) then (e0, true) else Publish(e0, AuthSlot, io.publishAuth);
    if !p.1 then (p.0, false) else
    var q := Establish(p.0, AuthSlot, io.establishAuth);
    if !q.1 then (q.0, false) else
    var r := if e.Has(TerminalSlot) then (q.0, true) else Publish(q.0, TerminalSlot, io.publishTerminal);
    if !r.1 then (r.0, false) else
    var t := Establish(r.0, TerminalSlot, io.establishTerminal);
    (t.0, t.1 && io.finished)
  }

  /** The body of `e31_closure_dispose`: publish, or else establish, each record in order. */
  function DisposeE31Body(e: Engine, preserved: bool, io: DisposeIO): (r: (Engine, bool)) {
    if !io.admitted || !PairOk(e) then (e, false)
    else if preserved && !(e.Has(AuthSlot) && e.Has(TerminalSlot)) then (e, false)
    else
      var p := if e.Has(AuthSlot) then Establish(e, AuthSlot, io.establishAuth)
               else Publish(e, AuthSlot, io.publishAuth);
      if !p.1 || !PairOk(p.0) then (p.0, false) else
      var t := if e.Has(TerminalSlot) then Establish(p.0, TerminalSlot, io.establishTerminal)
               else Publish(p.0, TerminalSlot, io.publishTerminal);
      (t.0, t.1 && io.finished)
  }

  function Uncached(e: Engine): Engine {
    e.(auth := e.auth.(cached := None), terminal := e.terminal.(cached := None))
  }

  /** `e31_closure_dispose` forgets everything it knew when it raises. */
  function DisposeE31(e: Engine, preserved: bool, io: DisposeIO): (r: (Engine, bool)) {
    var (e', ok) := DisposeE31Body(e, preserved, io);
    if ok then (e', true) else (Uncached(e'), false)
  }

  /** Both records are there, and both are known to be durable. */
  predicate ShowsTerminal(e: Engine) {
    PairOk(e) && e.Has(TerminalSlot) && Known(e, AuthSlot) && Known(e, TerminalSlot)
  }

  /** `view`: whether status reports the disposal as terminal.  Asking drops stale pins. */
  function View(e: Engine, admitted: bool): (r: (Engine, bool)) {
    if !admitted || !PairOk(e) || !e.Has(TerminalSlot) then (e, false)
    else (ForgetStale(e), Known(e, AuthSlot) && Known(e, TerminalSlot))
  }

  // ---------- runs ----------

  datatype Event =
    | DisposalE32(io: DisposeIO)
    | DisposalE31(preserved: bool, io: DisposeIO)
    | Viewed(admitted: bool)
    | Touched(slot: Slot)                // a backup or link changes the identity of an entry
    | Crash(survivors: set<Slot>)        // unsynced entries survive or not; the cache is lost

  /** What a crash leaves in one place. */
  function Survivor(p: Place, lucky: bool): Place {
    Place(if p.durable || lucky then p.visible else None, p.durable, None)
  }

  function AfterCrash(e: Engine, survivors: set<Slot>): Engine {
    e.(auth := Survivor(e.auth, AuthSlot in survivors), terminal := Survivor(e.terminal, TerminalSlot in survivors))
  }

  function Step(e: Engine, ev: Event): Engine {
    match ev
    case DisposalE32(io) => DisposeE32(e, io).0
    case DisposalE31(preserved, io) => DisposeE31(e, preserved, io).0
    case Viewed(admitted) => View(e, admitted).0
    case Touched(s) =>
      if e.Has(s)
      then e.With(s, e.At(s).(visible := Some(Entry(e.clock, e.At(s).visible.value.doc)))).(clock := e.clock + 1)
      else e
    case Crash(survivors) => AfterCrash(e, survivors)
  }

  function Exec(e: Engine, run: seq<Event>): Engine
    decreases run
  {
    if run == [] then e else Exec(Step(e, run[0]), run[1..])
  }

  // ---------- invariant ----------

  /** What the cache calls known is durable; nothing but the expected record is ever there. */
  predicate PlaceInv(p: Place, doc: Doc, clock: nat) {
    && (p.visible.Some? ==> p.visible.value.doc == doc && p.visible.value.pin < clock)
    && (p.cached.Some? ==> p.cached.value < clock)
    && (p.durable ==> p.visible.Some?)
    && (p.visible.Some? && p.cached == Some(p.visible.value.pin) ==> p.durable)
  }

  /** ... and the terminal record is never visible before its authorization is durable. */
  predicate Inv(e: Engine) {
    && PlaceInv(e.auth, Expected(AuthSlot), e.clock)
    && PlaceInv(e.terminal, Expected(TerminalSlot), e.clock)
    && (e.Has(TerminalSlot) ==> e.auth.durable)
  }

  /** No durable record is ever lost. */
  predicate KeepsDurable(e: Engine, f: Engine) {
    (e.auth.durable ==> f.auth.durable) && (e.terminal.durable ==> f.terminal.durable)
  }

  lemma InvPublish(e: Engine, s: Slot, io: PublishIO)
    requires Inv(e) && (s == TerminalSlot ==> e.auth.durable)
    ensures var (f, ok) := Publish(e, s, io);
            && Inv(f) && KeepsDurable(e, f)
            && (ok ==> Known(f, s))
            && (!e.Has(s) ==> (ok <==> io.Published?))
            && (s == AuthSlot ==> f.terminal == e.terminal)
            && (s == TerminalSlot ==> f.auth == e.auth)
  {
  }

  lemma InvEstablish(e: Engine, s: Slot, io: EstablishIO)
    requires Inv(e)
    ensures var (f, ok) := Establish(e, s, io);
            && Inv(f) && KeepsDurable(e, f)
            && (ok ==> Known(f, s))
            && (e.Has(s) && io.Established? ==> ok)
            && f.auth.visible == e.auth.visible && f.terminal.visible == e.terminal.visible
            && (s == AuthSlot ==> f.terminal == e.terminal)
            && (s == TerminalSlot ==> f.auth == e.auth)
  {
  }

  lemma InvStep(e: Engine, ev: Event)
    requires Inv(e)
    ensures Inv(Step(e, ev))
    ensures KeepsDurable(e, Step(e, ev))
  {
    match ev
    case DisposalE32(io) => E32Keeps(e, io);
    case DisposalE31(preserved, io) => E31Keeps(e, preserved, io);
    case Viewed(admitted) =>
    case Touched(s) =>
    case Crash(survivors) =>
  }

  lemma E32Keeps(e: Engine, io: DisposeIO)
    requires Inv(e)
    ensures Inv(DisposeE32(e, io).0) && KeepsDurable(e, DisposeE32(e, io).0)
    ensures DisposeE32(e, io).1 ==> ShowsTerminal(DisposeE32(e, io).0)
  {
    var e0 := if e.Has(TerminalSlot) then ForgetStale(e) else e;
    assert Inv(e0);
    var p := if e.Has(AuthSlot) then (e0, true) else Publish(e0, AuthSlot, io.publishAuth);
    if !e.Has(AuthSlot) { InvPublish(e0, AuthSlot, io.publishAuth); }
    InvEstablish(p.0, AuthSlot, io.establishAuth);
    var q := Establish(p.0, AuthSlot, io.establishAuth);
    if p.1 && q.1 {
      InvPublish(q.0, TerminalSlot, io.publishTerminal);
      var r := if e.Has(TerminalSlot) then (q.0, true) else Publish(q.0, TerminalSlot, io.publishTerminal);
      InvEstablish(r.0, TerminalSlot, io.establishTerminal);
    }
  }

  lemma E31Keeps(e: Engine, preserved: bool, io: DisposeIO)
    requires Inv(e)
    ensures Inv(DisposeE31(e, preserved, io).0) && KeepsDurable(e, DisposeE31(e, preserved, io).0)
    ensures DisposeE31(e, preserved, io).1 ==> ShowsTerminal(DisposeE31(e, preserved, io).0)
  {
    if e.Has(AuthSlot) { InvEstablish(e, AuthSlot, io.establishAuth); } else { InvPublish(e, AuthSlot, io.publishAuth); }
    var p := if e.Has(AuthSlot) then Establish(e, AuthSlot, io.establishAuth)
             else Publish(e, AuthSlot, io.publishAuth);
    if p.1 {
      if e.Has(TerminalSlot) { InvEstablish(p.0, TerminalSlot, io.establishTerminal); }
      else { InvPublish(p.0, TerminalSlot, io.publishTerminal); }
    }
  }

  lemma {:induction false} InvExec(e: Engine, run: seq<Event>)
    requires Inv(e)
    ensures Inv(Exec(e, run)) && KeepsDurable(e, Exec(e, run))
    decreases run
  {
    if run != [] {
      InvStep(e, run[0]);
      InvExec(Step(e, run[0]), run[1..]);
    }
  }

  // ---------- main results ----------

  /** At every crash point of every run, a surviving terminal record has its authorization record
      beside it, and names that record's digest. */
  lemma TerminalSurvivesWithAuthorization(run: seq<Event>, survivors: set<Slot>)
    ensures var e := AfterCrash(Exec(START, run), survivors);
            e.Has(TerminalSlot) ==>
              && e.Has(AuthSlot)
              && e.terminal.visible.value.doc == TerminalDoc(Sha256(e.auth.visible.value.doc))
  {
    InvExec(START, run);
    InvStep(Exec(START, run), Crash(survivors));
  }

  /** Status reports a terminal disposal only if both records outlive every continuation, crashes
      included. */
  lemma StatusIsDurable(run: seq<Event>, admitted: bool, more: seq<Event>, survivors: set<Slot>)
    requires View(Exec(START, run), admitted).1
    ensures var e := AfterCrash(Exec(View(Exec(START, run), admitted).0, more), survivors);
            && e.Has(AuthSlot) && e.Has(TerminalSlot)
            && e.auth.visible.value.doc == Expected(AuthSlot)
            && e.terminal.visible.value.doc == Expected(TerminalSlot)
  {
    var shown := View(Exec(START, run), admitted).0;
    InvExec(START, run);
    assert shown == Exec(START, run) && ShowsTerminal(shown);
    InvExec(shown, more);
    InvStep(Exec(shown, more), Crash(survivors));
  }

  /** After a completed disposal, a repeat renames and syncs nothing, however far it gets.  The e32
      repeat changes nothing at all; the e31 repeat can only lose its cache, by raising. */
  lemma RepeatIsSilent(e: Engine, preserved: bool, io: DisposeIO)
    requires ShowsTerminal(e)
    ensures DisposeE32(e, io).0 == e
    ensures var again := DisposeE31(e, preserved, io).0;
            again == e || (!DisposeE31(e, preserved, io).1 && again == Uncached(e))
  {
  }

  /** From every reachable state, an undisturbed disposal completes and status then shows it. */
  lemma DisposalCompletes(run: seq<Event>, preserved: bool)
    ensures var done := DisposeIO(true, Published, Established, Published, Established, true);
            var e := Exec(START, run);
            && DisposeE32(e, done).1 && ShowsTerminal(DisposeE32(e, done).0)
            && ((preserved ==> e.Has(TerminalSlot)) ==>
                  DisposeE31(e, preserved, done).1 && ShowsTerminal(DisposeE31(e, preserved, done).0))
  {
    var done := DisposeIO(true, Published, Established, Published, Established, true);
    var e := Exec(START, run);
    InvExec(START, run);
    E32Keeps(e, done);
    E31Keeps(e, preserved, done);
    CompletesE32(e, done);
  }

  lemma CompletesE32(e: Engine, done: DisposeIO)
    requires Inv(e) && done == DisposeIO(true, Published, Established, Published, Established, true)
    ensures DisposeE32(e, done).1
  {
    var e0 := if e.Has(TerminalSlot) then ForgetStale(e) else e;
    assert Inv(e0);
    var p := if e.Has(AuthSlot) then (e0, true) else Publish(e0, AuthSlot, done.publishAuth);
    if !e.Has(AuthSlot) { InvPublish(e0, AuthSlot, done.publishAuth); }
    InvEstablish(p.0, AuthSlot, done.establishAuth);
    var q := Establish(p.0, AuthSlot, done.establishAuth);
    InvPublish(q.0, TerminalSlot, done.publishTerminal);
    var r := if e.Has(TerminalSlot) then (q.0, true) else Publish(q.0, TerminalSlot, done.publishTerminal);
    InvEstablish(r.0, TerminalSlot, done.establishTerminal);
  }
}
