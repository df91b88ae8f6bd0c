/** The disposal calls as the engine runs them, updating the directory and the durability cache in
    place; each is proved against the function that the crash theorems are about. */
module DisposalEngine {
  import opened Wrappers
  import opened Disposal

  class ClosureEngine {
    var auth: Place
    var terminal: Place
    var clock: nat
    var log: seq<Effect>

    function State(): Engine
      reads this
    {
      Engine(auth, terminal, clock, log)
    }

    constructor ()
      ensures State() == START
    {
      auth, terminal := Place(None, false, None), Place(None, false, None);
      clock, log := 0, [];
    }

    method SetPlace(s: Slot, p: Place)
      modifies this`auth, this`terminal
      ensures State() == old(State()).With(s, p)
    {
      if s == AuthSlot { auth := p; } else { terminal := p; }
    }

    /** Write a temporary, sync it, rename it exclusively, sync the directory, read it back. */
    method PublishRecord(s: Slot, io: PublishIO) returns (ok: bool)
      modifies this
      ensures (State(), ok) == Publish(old(State()), s, io)
    {
      if State().Has(s) || io.NotRenamed? { return false; }
      var pin := clock;
      SetPlace(s, Place(Some(Entry(pin, Expected(s))), false, State().At(s).cached));
      clock, log := clock + 1, log + [Renamed(s)];
      if io.RenamedOnly? { return false; }
      SetPlace(s, State().At(s).(durable := true));
      log := log + [Synced(s)];
      if io.SyncedOnly? { return false; }
      SetPlace(s, State().At(s).(cached := Some(pin)));
      ok := true;
    }

    method KnowsDurable(s: Slot) returns (known: bool)
      modifies this`auth, this`terminal
      ensures known == Known(old(State()), s) && State() == Forget(old(State()), s)
    {
      known := Known(State(), s);
      if !known { SetPlace(s, State().At(s).(cached := None)); }
    }

    method EstablishRecord(s: Slot, io: EstablishIO) returns (ok: bool)
      modifies this
      ensures (State(), ok) == Establish(old(State()), s, io)
    {
      if !State().Has(s) || !PairOk(State()) { return false; }
      var known := KnowsDurable(s);
      if known { return !io.NotSynced?; }
      if io.NotSynced? { return false; }
      SetPlace(s, State().At(s).(durable := true));
      log := log + [Synced(s)];
      if io.SyncedUnrecorded? { return false; }
      SetPlace(s, State().At(s).(cached := Some(State().At(s).visible.value.pin)));
      ok := true;
    }

    /** The added part of `view`: `all` stops at the first record that is not known. */
    method ViewStatus(admitted: bool) returns (shown: bool)
      modifies this`auth, this`terminal
      ensures (State(), shown) == View(old(State()), admitted)
    {
      if !admitted || !PairOk(State()) || !State().Has(TerminalSlot) { return false; }
      shown := KnowsDurable(AuthSlot);
      if shown { shown := KnowsDurable(TerminalSlot); }
    }

    method ClosureDisposeE32(io: DisposeIO) returns (ok: bool)
      modifies this
      ensures (State(), ok) == DisposeE32(old(State()), io)
    {
      if !io.admitted || !PairOk(State()) { return false; }
      var hadAuth, hadTerminal := State().Has(AuthSlot), State().Has(TerminalSlot);
      if hadTerminal {
        var known := KnowsDurable(AuthSlot);
        if known { known := KnowsDurable(TerminalSlot); }
      }
      if !hadAuth {
        ok := PublishRecord(AuthSlot, io.publishAuth);
        if !ok { return; }
      }
      ok := EstablishRecord(AuthSlot, io.establishAuth);
      if !ok { return; }
      if !hadTerminal {
        ok := PublishRecord(TerminalSlot, io.publishTerminal);
        if !ok { return; }
      }
      ok := EstablishRecord(TerminalSlot, io.establishTerminal);
      ok := ok && io.finished;
    }

    method ClosureDisposeE31(preserved: bool, io: DisposeIO) returns (ok: bool)
      modifies this
      ensures (State(), ok) == DisposeE31(old(State()), preserved, io)
    {
      ok := BodyE31(preserved, io);
      if !ok {
        auth := auth.(cached := None);
        terminal := terminal.(cached := None);
      }
    }

    method BodyE31(preserved: bool, io: DisposeIO) returns (ok: bool)
      modifies this
      ensures (State(), ok) == DisposeE31Body(old(State()), preserved, io)
    {
      if !io.admitted || !PairOk(State()) { return false; }
      var hadAuth, hadTerminal := State().Has(AuthSlot), State().Has(TerminalSlot);
      if preserved && !(hadAuth && hadTerminal) { return false; }
      if hadAuth { ok := EstablishRecord(AuthSlot, io.establishAuth); }
      else { ok := PublishRecord(AuthSlot, io.publishAuth); }
      if !ok || !PairOk(State()) { return false; }
      if hadTerminal { ok := EstablishRecord(TerminalSlot, io.establishTerminal); }
      else { ok := PublishRecord(TerminalSlot, io.publishTerminal); }
      ok := ok && io.finished;
    }
  }
}
