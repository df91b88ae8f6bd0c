/** Exactly when disposal returns, what it has then written, and exactly when status shows it. */
module DisposalFacts {
  import opened Wrappers
  import opened Disposal

  /** The entry that is there now is the one the cache knows to be durable. */
  predicate Fresh(p: Place) { p.visible.Some? && p.cached == Some(p.visible.value.pin) }

  /** What one record needs so that both closures get past it. */
  predicate Passes(p: Place, publish: PublishIO, establish: EstablishIO) {
    if p.visible.None? then publish == Published
    else if Fresh(p) then establish != NotSynced
    else establish == Established
  }

  /** The renames and syncs of one record that gets past: none when it is known to be durable. */
  function Effects(p: Place, s: Slot): seq<Effect> {
    if p.visible.None? then [Renamed(s), Synced(s)] else if Fresh(p) then [] else [Synced(s)]
  }

  // ---------- status ----------

  /** Status shows the disposal exactly when both records stand and the cache knows both as they are now;
      they are then the exact authorization and the terminal that names its digest. */
  lemma ViewExact(run: seq<Event>, admitted: bool)
    ensures var e := Exec(START, run);
      && (View(e, admitted).1 <==> admitted && Fresh(e.auth) && Fresh(e.terminal))
      && (View(e, admitted).1 ==>
            && e.auth.visible.value.doc == AuthDoc
            && e.terminal.visible.value.doc == TerminalDoc(Sha256(AuthDoc)))
      && View(e, admitted).0.auth.visible == e.auth.visible && View(e, admitted).0.terminal.visible == e.terminal.visible
      && View(e, admitted).0.log == e.log
  {
    InvExec(START, run);
  }

  /** Asking drops the first stale pin, and nothing else. */
  lemma ViewDropsStale(e: Engine)
    requires PairOk(e) && e.Has(TerminalSlot)
    ensures !Fresh(e.auth) ==> View(e, true).0 == e.(auth := e.auth.(cached := None))
    ensures Fresh(e.auth) && !Fresh(e.terminal) ==> View(e, true).0 == e.(terminal := e.terminal.(cached := None))
    ensures Fresh(e.auth) && Fresh(e.terminal) ==> View(e, true).0 == e
  {
  }

  /** After a crash nothing is known, so status shows nothing until a disposal has established both. */
  lemma CrashHidesStatus(run: seq<Event>, survivors: set<Slot>, admitted: bool)
    ensures !View(AfterCrash(Exec(START, run), survivors), admitted).1
  {
  }

  /** A record with other bytes, or a terminal without its authorization, stops every call: nothing is
      renamed, synced or shown. */
  lemma WrongRecordStops(e: Engine, preserved: bool, io: DisposeIO, admitted: bool)
    requires (e.auth.visible.Some? && e.auth.visible.value.doc != AuthDoc)
          || (e.terminal.visible.Some?
              && (e.auth.visible.None? || e.terminal.visible.value.doc != TerminalDoc(Sha256(AuthDoc))))
    ensures DisposeE32(e, io) == (e, false) && View(e, admitted) == (e, false)
    ensures DisposeE31(e, preserved, io) ==
              (e.(auth := e.auth.(cached := None), terminal := e.terminal.(cached := None)), false)
  {
  }

  // ---------- disposal ----------

  /** e32 establishes a record also right after publishing it. */
  predicate PassesE32(p: Place, publish: PublishIO, establish: EstablishIO) {
    Passes(p, publish, establish) && establish != NotSynced
  }

  lemma E32Step(e: Engine, io: DisposeIO)
    requires Inv(e)
    ensures DisposeE32(e, io).1 <==>
              && io.admitted && io.finished
              && PassesE32(e.auth, io.publishAuth, io.establishAuth)
              && PassesE32(e.terminal, io.publishTerminal, io.establishTerminal)
    ensures DisposeE32(e, io).1 ==>
              DisposeE32(e, io).0.log == e.log + Effects(e.auth, AuthSlot) + Effects(e.terminal, TerminalSlot)
  {
    hide Inv;
    InvFacts(e);
    if io.admitted {
      var e0 := if e.Has(TerminalSlot) then ForgetStale(e) else e;
      assert e0.auth.visible == e.auth.visible && e0.terminal.visible == e.terminal.visible && e0.log == e.log;
      assert Fresh(e0.auth) == Fresh(e.auth) && Fresh(e0.terminal) == Fresh(e.terminal);
      E32Slots(e, e0, io);
    }
  }

  lemma InvFacts(e: Engine)
    requires Inv(e)
    ensures PairOk(e)
    ensures e.Has(AuthSlot) ==> e.auth.visible.value.doc == AuthDoc
    ensures e.Has(TerminalSlot) ==> e.Has(AuthSlot) && e.terminal.visible.value.doc == TerminalDoc(Sha256(AuthDoc))
  {
  }

  /** The exact record in a place. */
  predicate Right(e: Engine) {
    && (e.Has(AuthSlot) ==> e.auth.visible.value.doc == AuthDoc)
    && (e.Has(TerminalSlot) ==> e.Has(AuthSlot) && e.terminal.visible.value.doc == TerminalDoc(Sha256(AuthDoc)))
  }

  lemma PublishSlot(e: Engine, s: Slot, io: PublishIO)
    requires Right(e) && !e.Has(s) && (s == TerminalSlot ==> e.Has(AuthSlot))
    ensures var (f, ok) := Publish(e, s, io);
      && (ok <==> io == Published)
      && (ok ==> Right(f) && Fresh(f.At(s)) && f.log == e.log + [Renamed(s), Synced(s)])
      && (s == AuthSlot ==> f.terminal == e.terminal) && (s == TerminalSlot ==> f.auth == e.auth)
  {
  }

  lemma EstablishSlot(e: Engine, s: Slot, io: EstablishIO)
    requires Right(e) && e.Has(s)
    ensures var (f, ok) := Establish(e, s, io);
      && (ok <==> if Fresh(e.At(s)) then io != NotSynced else io == Established)
      && (ok ==> Right(f) && Fresh(f.At(s)) && f.log == e.log + (if Fresh(e.At(s)) then [] else [Synced(s)]))
      && (s == AuthSlot ==> f.terminal == e.terminal) && (s == TerminalSlot ==> f.auth == e.auth)
  {
  }

  lemma E32Slots(e: Engine, e0: Engine, io: DisposeIO)
    requires io.admitted && PairOk(e) && Right(e)
    requires e0 == if e.Has(TerminalSlot) then ForgetStale(e) else e
    requires e0.auth.visible == e.auth.visible && e0.terminal.visible == e.terminal.visible && e0.log == e.log
    requires Fresh(e0.auth) == Fresh(e.auth) && Fresh(e0.terminal) == Fresh(e.terminal)
    ensures DisposeE32(e, io).1 <==>
              && io.finished
              && PassesE32(e.auth, io.publishAuth, io.establishAuth)
              && PassesE32(e.terminal, io.publishTerminal, io.establishTerminal)
    ensures DisposeE32(e, io).1 ==>
              DisposeE32(e, io).0.log == e.log + Effects(e.auth, AuthSlot) + Effects(e.terminal, TerminalSlot)
  {
    hide Publish, Establish, ForgetStale, PairOk, Fresh;
    assert Right(e0);
    var p := if e.Has(AuthSlot) then (e0, true) else Publish(e0, AuthSlot, io.publishAuth);
    if !e.Has(AuthSlot) { PublishSlot(e0, AuthSlot, io.publishAuth); }
    if p.1 {
      HasFresh(p.0.auth);
      EstablishSlot(p.0, AuthSlot, io.establishAuth);
      var q := Establish(p.0, AuthSlot, io.establishAuth);
      if q.1 {
        HasFresh(q.0.auth);
        if !e.Has(TerminalSlot) { PublishSlot(q.0, TerminalSlot, io.publishTerminal); }
        var r := if e.Has(TerminalSlot) then (q.0, true) else Publish(q.0, TerminalSlot, io.publishTerminal);
        if r.1 {
          HasFresh(r.0.terminal);
          EstablishSlot(r.0, TerminalSlot, io.establishTerminal);
        }
      }
    }
  }

  lemma HasFresh(p: Place)
    ensures Fresh(p) ==> p.visible.Some?
  {
  }

  /** In every reachable state: an e32 disposal returns exactly when it is admitted, every record gets past
      and the final checks pass; it has then renamed what was missing and synced what was not known. */
  lemma DisposeE32Exactly(run: seq<Event>, io: DisposeIO)
    ensures var e := Exec(START, run);
      && (DisposeE32(e, io).1 <==>
            && io.admitted && io.finished
            && PassesE32(e.auth, io.publishAuth, io.establishAuth)
            && PassesE32(e.terminal, io.publishTerminal, io.establishTerminal))
      && (DisposeE32(e, io).1 ==>
            && DisposeE32(e, io).0.log == e.log + Effects(e.auth, AuthSlot) + Effects(e.terminal, TerminalSlot)
            && View(DisposeE32(e, io).0, true).1)
  {
    var e := Exec(START, run);
    InvExec(START, run);
    E32Step(e, io);
    E32Keeps(e, io);
  }

  lemma E31Slots(e: Engine, preserved: bool, io: DisposeIO)
    requires io.admitted && Right(e) && PairOk(e) && (preserved ==> e.Has(AuthSlot) && e.Has(TerminalSlot))
    ensures DisposeE31Body(e, preserved, io).1 <==>
              && io.finished
              && Passes(e.auth, io.publishAuth, io.establishAuth)
              && Passes(e.terminal, io.publishTerminal, io.establishTerminal)
    ensures DisposeE31Body(e, preserved, io).1 ==>
              DisposeE31Body(e, preserved, io).0.log == e.log + Effects(e.auth, AuthSlot) + Effects(e.terminal, TerminalSlot)
  {
    hide Publish, Establish, Fresh;
    if e.Has(AuthSlot) { EstablishSlot(e, AuthSlot, io.establishAuth); } else { PublishSlot(e, AuthSlot, io.publishAuth); }
    var p := if e.Has(AuthSlot) then Establish(e, AuthSlot, io.establishAuth) else Publish(e, AuthSlot, io.publishAuth);
    if p.1 {
      HasFresh(p.0.auth);
      if e.Has(TerminalSlot) { EstablishSlot(p.0, TerminalSlot, io.establishTerminal); }
      else { PublishSlot(p.0, TerminalSlot, io.publishTerminal); }
    }
  }

  /** The same for e31: with a preserved stage both records must stand already. */
  lemma DisposeE31Exactly(run: seq<Event>, preserved: bool, io: DisposeIO)
    ensures var e := Exec(START, run);
      && (DisposeE31(e, preserved, io).1 <==>
            && io.admitted && io.finished
            && (preserved ==> e.auth.visible.Some? && e.terminal.visible.Some?)
            && Passes(e.auth, io.publishAuth, io.establishAuth)
            && Passes(e.terminal, io.publishTerminal, io.establishTerminal))
      && (DisposeE31(e, preserved, io).1 ==>
            && DisposeE31(e, preserved, io).0.log == e.log + Effects(e.auth, AuthSlot) + Effects(e.terminal, TerminalSlot)
            && View(DisposeE31(e, preserved, io).0, true).1)
  {
    var e := Exec(START, run);
    InvExec(START, run);
    InvFacts(e);
    E31Keeps(e, preserved, io);
    hide Inv, Publish, Establish;
    if io.admitted && (preserved ==> e.Has(AuthSlot) && e.Has(TerminalSlot)) { E31Slots(e, preserved, io); }
  }
}
