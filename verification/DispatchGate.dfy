/** The dispatch gate as an object over its registry, its ledger and its scope store. */
module DispatchGate {
  import opened Text
  import opened HttpResponse
  import opened Clock
  import L = Leases
  import R = Receipts
  import G = Gate
  import I = GateInvariant
  import LeaseRegistry
  import ReceiptLedger
  import ScopeStore

  class Gate {
    const registry: LeaseRegistry.Registry
    const ledger: ReceiptLedger.Ledger
    const store: ScopeStore.Store
    var flights: map<nat, G.Flight>
    var state: G.GateState
    var closed: bool
    var lastNow: int
    var issued: nat

    ghost function Own(): G.Gate
      reads this, store
    {
      G.Gate(store.table, flights, state, closed, lastNow, issued)
    }

    ghost function State(): G.Sys
      reads this, store, registry, ledger
    {
      G.Sys(Own(), registry.State(), ledger.State())
    }

    ghost predicate Valid()
      reads this, store, registry, ledger
    {
      registry.Valid() && ledger.Valid() && store.Valid() && I.Inv(State())
    }

    constructor (generation: nat)
      ensures Valid() && State() == I.Start(generation) && fresh(registry) && fresh(ledger) && fresh(store)
    {
      registry := new LeaseRegistry.Registry(generation);
      ledger := new ReceiptLedger.Ledger();
      store := new ScopeStore.Store();
      flights, state, closed, lastNow, issued := map[], G.Ready, false, 0, 0;
      new;
      I.StartInv(generation);
    }

    // --- Clock and sweep --------------------------------------------------------------------

    method SweepOverdue(now: int)
      modifies `flights
      ensures flights == G.SweepFlights(old(flights), now)
    {
      var todo := flights.Keys;
      while todo != {}
        invariant todo <= flights.Keys == old(flights.Keys)
        invariant forall id | id in flights ::
          flights[id] == if id in todo then old(flights)[id] else G.SweepFlight(old(flights)[id], now)
        decreases |todo|
      {
        var id :| id in todo;
        var f := flights[id];
        if !f.overdue && now >= f.deadline {
          flights := flights[id := f.(overdue := true, abort := if f.abort.Attached? then G.Fired else f.abort)];
        }
        todo := todo - {id};
      }
    }

    method ReadClock(clock: Reading) returns (now: Option<int>)
      requires Valid()
      modifies `state, `lastNow
      ensures Valid() && State() == old(State()).(gate := G.ReadClock(old(Own()), clock).0)
          && now == G.ReadClock(old(Own()), clock).1
    {
      hide I.Inv, R.Inv, L.Inv;
      I.ReadSteps(State(), clock);
      if clock.Fault? || clock.now < 0 || clock.now < lastNow {
        state := G.Held;
        return None;
      }
      lastNow := clock.now;
      return Some(clock.now);
    }

    method Advance(clock: Reading) returns (now: Option<int>)
      requires Valid()
      modifies `flights, `state, `lastNow, store
      ensures Valid() && State() == old(State()).(gate := G.Advance(old(Own()), clock).0)
          && now == G.Advance(old(Own()), clock).1
      ensures flights.Keys == old(flights.Keys)
    {
      hide I.Inv, R.Inv, L.Inv, ScopeStore.Describes, G.Bytes, G.SweepFlights, G.PruneScopes;
      I.AdvanceSteps(State(), clock);
      if state.Held? { return None; }
      now := ReadClock(clock);
      if now.Some? {
        SweepOverdue(now.value);
        store.Prune(now.value);
      }
    }

    // --- Scope store ----------------------------------------------------------------------------

    method InstallScope(grant: L.Grant, generation: nat, m: G.Manifest, c: G.Clocks) returns (r: G.Result<G.ScopeEntry>)
      requires Valid()
      modifies this, store, registry
      ensures Valid() && (State(), r) == G.InstallScope(old(State()), grant, generation, m, c)
    {
      hide I.Inv, R.Inv, L.Inv, L.Evolves, ScopeStore.Describes, G.Bytes, G.Advance, L.Tick, L.CheckAt, G.StoreScope,
          G.Verified;
      I.InstallSteps(State(), grant, generation, m, c);
      if state.Closed? { return G.Raised(G.ClosedFault); }
      var held := state.Held?;
      var now := Advance(c.tick);
      if now.None? { return G.Raised(if held then G.HeldFault else G.ClockFault); }
      if !(m.service == grant.service && m.runId == grant.runId && m.attemptId == grant.attemptId
           && m.digest == grant.scope) {
        return G.Raised(G.ManifestMismatch);
      }
      if generation != registry.generation { return G.Raised(G.GenerationMismatch); }
      var v := registry.Check(c.check, grant.service, grant.sentinel, generation, grant.scope);
      if v.Err? || !G.Verified(v.value, grant.leaseId) { return G.Raised(G.LeaseUnverified); }
      registry.Snapshot(c.after);
      r := StoreScope(grant, m, now.value);
    }

    method StoreScope(grant: L.Grant, m: G.Manifest, now: int) returns (r: G.Result<G.ScopeEntry>)
      requires store.Valid()
      modifies store, `issued
      ensures store.Valid() && (Own(), r) == G.StoreScope(old(Own()), registry.records, grant, m, now)
    {
      hide ScopeStore.Describes, G.Bytes, G.OverCapacity, G.Taken, G.PruneScopes, G.OnlyKnown;
      store.KeysAgree();
      ScopeStore.Indexes(store.byIndex, store.byLease, store.indexOf, store.chargeOf, store.table,
                         (grant.service, grant.sentinel));
      if grant.leaseId !in registry.records || !G.SameGrant(registry.records[grant.leaseId], grant) {
        return G.Raised(G.LeaseUnverified);
      }
      if now >= grant.expiresAt { return G.Raised(G.GrantExpired); }
      if grant.leaseId in store.byLease {
        if store.indexOf[grant.leaseId] == (grant.service, grant.sentinel)
            && store.byLease[grant.leaseId].scope == m.digest {
          return G.Ok(store.byLease[grant.leaseId]);
        }
        return G.Raised(G.ScopeConflict);
      }
      if (grant.service, grant.sentinel) in store.byIndex { return G.Raised(G.ScopeConflict); }
      r := AddScope(grant, m.bytes + G.SCOPE_OVERHEAD, now);
    }

    method AddScope(grant: L.Grant, charge: nat, now: int) returns (r: G.Result<G.ScopeEntry>)
      requires store.Valid() && grant.leaseId !in store.table && !G.Taken(store.table, grant.service, grant.sentinel)
      modifies store, `issued
      ensures store.Valid() && (Own(), r) == G.AddScope(old(Own()), registry.records, grant, charge, now)
    {
      hide ScopeStore.Describes, G.Bytes, G.OverCapacity, G.PruneScopes, G.OnlyKnown;
      I.RoomWithin(Own(), registry.records, charge, now);
      var over := store.Over(charge);
      if over {
        store.Prune(now);
        store.Forget(registry.records);
        over := store.Over(charge);
        if over { return G.Raised(G.ScopeCapacity); }
      }
      var entry := G.ScopeEntry(grant.leaseId, grant.runId, grant.attemptId, grant.service, grant.scope,
                                grant.expiresAt, now, issued);
      store.Insert(entry, grant.sentinel, charge);
      issued := issued + 1;
      return G.Ok(entry);
    }

    method Resolve(service: nat, sentinel: nat, clock: Reading) returns (r: Option<G.ScopeEntry>)
      requires Valid()
      modifies `state, `lastNow
      ensures Valid() && State() == old(State()).(gate := G.Resolve(old(Own()), service, sentinel, clock).0)
          && r == G.Resolve(old(Own()), service, sentinel, clock).1
    {
      hide I.Inv, R.Inv, L.Inv, G.Bytes, G.ReadClock, ScopeStore.Describes;
      I.ResolveSteps(State(), service, sentinel, clock);
      ScopeStore.Indexes(store.byIndex, store.byLease, store.indexOf, store.chargeOf, store.table, (service, sentinel));
      if (service, sentinel) !in store.byIndex { return None; }
      var entry := store.byIndex[(service, sentinel)];
      I.ResolveUnique(State(), service, sentinel, clock, entry.leaseId);
      var now := Some(lastNow);
      if !state.Held? { now := ReadClock(clock); }
      if now.None? || now.value - entry.installedAt >= G.STORE_RETENTION { return None; }
      return Some(entry);
    }

    method Precheck(entry: G.ScopeEntry, sentinel: nat, clock: Reading) returns (ok: bool)
      requires Valid()
      modifies registry
      ensures Valid() && (State(), ok) == G.Precheck(old(State()), entry, sentinel, clock)
    {
      hide I.Inv, R.Inv, L.Inv, L.Tick, L.CheckAt, ScopeStore.Describes, G.Bytes;
      I.PrecheckSteps(State(), entry, sentinel, clock);
      store.KeysAgree();
      if !state.Ready? || entry.leaseId !in store.byLease || store.byLease[entry.leaseId] != entry { return false; }
      var v := registry.Check(clock, entry.service, sentinel, registry.generation, entry.scope);
      return v.Ok? && v.value.reason.Authorized? && v.value.leaseId == Some(entry.leaseId);
    }

    // --- Flights ----------------------------------------------------------------------------------

    method Deny(entry: G.ScopeEntry, routeId: nat, req: G.Request, reason: R.Reason, reserve: Reading,
                finalize: Reading)
      returns (r: G.Result<(R.Token, R.Receipt)>)
      requires Valid()
      modifies ledger
      ensures Valid() && (State(), r) == G.Deny(old(State()), entry, routeId, req, reason, reserve, finalize)
    {
      hide I.Inv, R.Inv, L.Inv, R.Reserve, R.Finalize, R.Charges, ScopeStore.Describes, G.Bytes;
      I.DenySteps(State(), entry, routeId, req, reason, reserve, finalize);
      store.KeysAgree();
      if entry.leaseId !in store.byLease || store.byLease[entry.leaseId] != entry { return G.Raised(G.ScopeUnknown); }
      if !G.DenialReason(reason) { return G.Raised(G.InvalidReason); }
      var token := ledger.Reserve(reserve, G.MetaFor(entry, routeId, req), req.deadline, req.charge);
      if token.Err? { return G.Raised(G.ReserveFault(token.error)); }
      var done := ledger.Finalize(finalize, token.value, R.NotDispatched, reason, None);
      return if done.Ok? then G.Ok(done.value) else G.Raised(G.ReceiptUnavailable);
    }

    method Reserve(entry: G.ScopeEntry, routed: G.Routed, req: G.Request, c: G.Clocks) returns (r: G.Result<R.Token>)
      requires Valid()
      modifies this, store, ledger
      ensures Valid() && (State(), r) == G.Reserve(old(State()), entry, routed, req, c)
    {
      hide I.Inv, R.Inv, L.Inv, G.Advance, R.Reserve, R.Charges, ScopeStore.Describes, G.Bytes;
      I.ReserveSteps(State(), entry, routed, req, c);
      if state.Closed? { return G.Raised(G.ClosedFault); }
      var now := Advance(c.tick);
      if now.None? { return G.Raised(G.HeldFault); }
      store.KeysAgree();
      if entry.leaseId !in store.byLease || store.byLease[entry.leaseId] != entry { return G.Raised(G.ScopeUnknown); }
      if routed.service != entry.service || routed.scope != entry.scope { return G.Raised(G.BindingMismatch); }
      if !routed.enabled { return G.Raised(G.RouteUnavailable); }
      if req.deadline > entry.expiresAt { return G.Raised(G.DeadlineExceedsLease); }
      if |flights| >= G.MAX_OPEN { return G.Raised(G.DispatchCapacity); }
      var token := ledger.Reserve(c.ledger, G.MetaFor(entry, routed.routeId, req), req.deadline, req.charge);
      if token.Err? { return G.Raised(G.ReserveFault(token.error)); }
      var mark := issued;
      var f := G.Flight(mark, token.value, entry.leaseId, entry.service, entry.scope, store.indexOf[entry.leaseId].1,
                        routed.requiresPermit, req.deadline, G.Waiting, false, None, G.NoAbort);
      flights := flights[token.value.id := f];
      issued := mark + 1;
      return G.Ok(R.Token(token.value.id, mark));
    }

    method FinalizeAndDrop<T>(id: nat, clock: Reading, outcome: R.DispatchState, reason: R.Reason,
                              code: G.Code) returns (r: G.Answer<T>)
      requires Valid() && id in flights
      modifies `flights, ledger
      ensures Valid() && (State(), r) == G.FinalizeAndDrop<T>(old(State()), id, clock, outcome, reason, code)
    {
      hide I.Inv, R.Inv, L.Inv, R.Finalize, ScopeStore.Describes, G.Bytes;
      I.DropSteps<T>(State(), id, clock, outcome, reason, code);
      var done := ledger.Finalize(clock, flights[id].reservation, outcome, reason, None);
      flights := flights - {id};
      return if done.Ok? then G.Denied(code, done.value.0, done.value.1) else G.Refusal(G.TransitionFault(done.error));
    }

    method CheckedLease(f: G.Flight, sentinel: nat, c: G.Clocks) returns (r: G.LeaseCheck)
      requires Valid()
      modifies `state, `lastNow, registry
      ensures Valid() && (State(), r) == G.CheckLease(old(State()), f, sentinel, c)
    {
      hide I.Inv, R.Inv, L.Inv, L.Tick, L.CheckAt, G.ReadClock, ScopeStore.Describes, G.Bytes;
      I.CheckLeaseSteps(State(), f, sentinel, c);
      var before := ReadClock(c.before);
      if before.None? { return G.Refused(G.GateHeld); }
      I.RegCheckSteps(registry.State(), c.check, f.service, sentinel, registry.generation, f.scope);
      ghost var mid := State();
      ghost var (t, seen) := L.Tick(registry.State(), c.check);
      var v := registry.Check(c.check, f.service, sentinel, registry.generation, f.scope);
      assert registry.State() == if seen.Err? then t
          else L.CheckAt(t, f.service, sentinel, mid.reg.generation, f.scope).0;
      I.RegMoves(mid, registry.State());
      var after := ReadClock(c.after);
      if after.None? { return G.Refused(G.GateHeld); }
      if v.Err? || !(v.value.reason.Authorized? && v.value.leaseId == Some(f.leaseId)) {
        return G.Refused(G.LeaseDenied);
      }
      if !(before.value <= v.value.at <= after.value) {
        state := G.Held;
        return G.Refused(G.GateHeld);
      }
      return G.Passed(v.value.at);
    }

    method Admit(handle: R.Token, sentinel: nat, c: G.Clocks) returns (r: G.Answer<G.Admission>)
      requires Valid()
      modifies this, store, registry, ledger
      ensures Valid() && (State(), r) == G.Admit(old(State()), handle, sentinel, c)
    {
      hide I.Inv, R.Inv, L.Inv, G.Advance, G.AdmitChecked, G.FinalizeAndDrop, ScopeStore.Describes, G.Bytes;
      var id := handle.id;
      if id !in flights || flights[id].handle != handle.mark { return G.Refusal(G.HandleUnknown); }
      if !flights[id].phase.Waiting? { return G.Refusal(G.HandleConsumed); }
      ghost var before := State();
      I.AdvanceSteps(before, c.tick);
      var now := Advance(c.tick);
      if now.None? { r := FinalizeAndDrop(id, c.ledger, R.NotDispatched, G.DenialOf(G.GateHeld), G.GateHeld); return; }
      if flights[id].overdue {
        I.JustDrop(State(), id);
        flights := flights - {id};
        return G.Refusal(G.DeadlineExpired);
      }
      if state.Closed? {
        r := FinalizeAndDrop(id, c.ledger, R.NotDispatched, G.DenialOf(G.GateClosed), G.GateClosed);
        return;
      }
      if sentinel != flights[id].sentinel {
        r := FinalizeAndDrop(id, c.ledger, R.NotDispatched, G.DenialOf(G.SentinelMismatch), G.SentinelMismatch);
        return;
      }
      if flights[id].requiresPermit {
        r := FinalizeAndDrop(id, c.ledger, R.NotDispatched, G.DenialOf(G.PermitUnavailable), G.PermitUnavailable);
        return;
      }
      r := AdmitChecked(id, sentinel, c);
    }

    method AdmitChecked(id: nat, sentinel: nat, c: G.Clocks) returns (r: G.Answer<G.Admission>)
      requires Valid() && id in flights && flights[id].phase.Waiting?
      modifies this, registry, ledger
      ensures Valid() && (State(), r) == G.AdmitChecked(old(State()), id, sentinel, c)
    {
      hide I.Inv, R.Inv, L.Inv, G.CheckLease, G.FinalizeAndDrop, G.Connect, ScopeStore.Describes, G.Bytes;
      I.CheckLeaseSteps(State(), flights[id], sentinel, c);
      I.PassedAt(State(), flights[id], sentinel, c);
      var check := CheckedLease(flights[id], sentinel, c);
      if check.Refused? {
        r := FinalizeAndDrop(id, c.ledger, R.NotDispatched, G.DenialOf(check.code), check.code);
        return;
      }
      if check.at + G.RESPONSE_MARGIN + G.MIN_ADMISSION > flights[id].deadline {
        r := FinalizeAndDrop(id, c.ledger, R.NotDispatched, G.DenialOf(G.InsufficientTime), G.InsufficientTime);
        return;
      }
      r := Connect(id, check.at, c.ledger);
    }

    method Connect(id: nat, at: int, clock: Reading) returns (r: G.Answer<G.Admission>)
      requires Valid() && id in flights && flights[id].phase.Waiting?
      requires 0 <= at && at + G.RESPONSE_MARGIN + G.MIN_ADMISSION <= flights[id].deadline
      modifies this, ledger
      ensures Valid() && (State(), r) == G.Connect(old(State()), id, at, clock)
    {
      hide I.Inv, R.Inv, L.Inv, R.Advance, ScopeStore.Describes, G.Bytes;
      I.ConnectSteps(State(), id, at, clock);
      var f := flights[id];
      var begun := ledger.BeginConnect(clock, f.reservation);
      if begun.Err? {
        flights := flights - {id};
        return G.Refusal(G.TransitionFault(begun.error));
      }
      var mark := issued;
      flights := flights[id := f.(phase := G.Admitted, admission := Some(mark))];
      issued := mark + 1;
      return G.Granted(G.Admission(R.Token(id, mark), at, L.Min(at + G.CONNECT, f.deadline - G.RESPONSE_MARGIN)));
    }

    method AttachAbort(token: R.Token) returns (r: G.Result<bool>)
      requires Valid()
      modifies `flights
      ensures Valid() && State() == old(State()).(gate := G.AttachAbort(old(Own()), token).0)
          && r == G.AttachAbort(old(Own()), token).1
    {
      hide I.Inv, R.Inv, L.Inv, ScopeStore.Describes, G.Bytes;
      I.AttachSteps(State(), token);
      if token.id !in flights || flights[token.id].admission != Some(token.mark) {
        return G.Raised(G.AdmissionUnknown);
      }
      var f := flights[token.id];
      if !state.Ready? || f.overdue { return G.Ok(false); }
      flights := flights[token.id := f.(abort := if f.abort.Fired? then G.Fired else G.Attached)];
      return G.Ok(true);
    }

    method BeginWrite(token: R.Token, sentinel: nat, c: G.Clocks) returns (r: G.Answer<int>)
      requires Valid()
      modifies this, store, registry, ledger
      ensures Valid() && (State(), r) == G.BeginWrite(old(State()), token, sentinel, c)
    {
      hide I.Inv, R.Inv, L.Inv, G.Advance, G.WriteChecked, G.FinalizeAndDrop, ScopeStore.Describes, G.Bytes, I.Linked;
      var id := token.id;
      if id !in flights || flights[id].admission != Some(token.mark) { return G.Refusal(G.AdmissionUnknown); }
      if flights[id].phase.Writing? { return G.Refusal(G.WriteClaimed); }
      ghost var before := State();
      I.AdvanceSteps(before, c.tick);
      I.FlightOf(before, id);
      var now := Advance(c.tick);
      if now.None? { r := FinalizeAndDrop(id, c.ledger, R.Failed, R.ConnectFailed, G.GateHeld); return; }
      if flights[id].overdue {
        I.JustDrop(State(), id);
        flights := flights - {id};
        return G.Refusal(G.DeadlineExpired);
      }
      if state.Closed? { r := FinalizeAndDrop(id, c.ledger, R.Failed, R.ConnectFailed, G.GateClosed); return; }
      if sentinel != flights[id].sentinel {
        r := FinalizeAndDrop(id, c.ledger, R.Failed, R.ConnectFailed, G.SentinelMismatch);
        return;
      }
      r := WriteChecked(id, sentinel, c);
    }

    method WriteChecked(id: nat, sentinel: nat, c: G.Clocks) returns (r: G.Answer<int>)
      requires Valid() && id in flights && flights[id].phase.Admitted?
      modifies this, registry, ledger
      ensures Valid() && (State(), r) == G.WriteChecked(old(State()), id, sentinel, c)
    {
      hide I.Inv, R.Inv, L.Inv, G.CheckLease, G.FinalizeAndDrop, G.Dispatch, ScopeStore.Describes, G.Bytes;
      I.CheckLeaseSteps(State(), flights[id], sentinel, c);
      var check := CheckedLease(flights[id], sentinel, c);
      if check.Refused? { r := FinalizeAndDrop(id, c.ledger, R.Failed, R.ConnectFailed, check.code); return; }
      if flights[id].requiresPermit {
        r := FinalizeAndDrop(id, c.ledger, R.Failed, R.ConnectFailed, G.PermitUnavailable);
        return;
      }
      if check.at + G.MIN_WRITE > flights[id].deadline - G.RESPONSE_MARGIN {
        r := FinalizeAndDrop(id, c.ledger, R.Failed, R.ConnectFailed, G.InsufficientTime);
        return;
      }
      r := Dispatch(id, check.at, c.ledger);
    }

    method Dispatch(id: nat, at: int, clock: Reading) returns (r: G.Answer<int>)
      requires Valid() && id in flights && flights[id].phase.Admitted?
      modifies this, ledger
      ensures Valid() && (State(), r) == G.Dispatch(old(State()), id, at, clock)
    {
      hide I.Inv, R.Inv, L.Inv, R.Advance, ScopeStore.Describes, G.Bytes;
      I.DispatchSteps(State(), id, at, clock);
      var f := flights[id];
      var begun := ledger.BeginDispatch(clock, f.reservation);
      if begun.Err? {
        flights := flights - {id};
        return G.Refusal(G.TransitionFault(begun.error));
      }
      flights := flights[id := f.(phase := G.Writing)];
      return G.Granted(L.Min(at + G.WRITE, f.deadline - G.RESPONSE_MARGIN));
    }

    method Finish(token: R.Token, clock: Reading, outcome: R.DispatchState, reason: R.Reason,
                  upstream: Option<Response>)
      returns (r: G.Result<(R.Token, R.Receipt)>)
      requires Valid()
      modifies `flights, ledger
      ensures Valid() && (State(), r) == G.Finish(old(State()), token, clock, outcome, reason, upstream)
    {
      hide I.Inv, R.Inv, L.Inv, R.Finalize, ScopeStore.Describes, G.Bytes;
      I.FinishSteps(State(), token, clock, outcome, reason, upstream);
      var id := token.id;
      if id !in flights || flights[id].admission != Some(token.mark) { return G.Raised(G.AdmissionUnknown); }
      if flights[id].overdue {
        flights := flights - {id};
        return G.Raised(G.DeadlineExpired);
      }
      var done := ledger.Finalize(clock, flights[id].reservation, outcome, reason, upstream);
      if done.Err? && G.OutcomeError(done.error) { return G.Raised(G.InvalidOutcome); }
      flights := flights - {id};
      return if done.Ok? then G.Ok(done.value) else G.Raised(G.TransitionFault(done.error));
    }

    method Release(token: R.Token) returns (ok: bool)
      requires Valid()
      modifies `flights
      ensures Valid() && State() == old(State()).(gate := G.Release(old(Own()), token).0)
          && ok == G.Release(old(Own()), token).1
    {
      hide I.Inv, R.Inv, L.Inv, ScopeStore.Describes, G.Bytes;
      I.ReleaseSteps(State(), token);
      if token.id !in flights { return false; }
      if flights[token.id].handle != token.mark && flights[token.id].admission != Some(token.mark) { return false; }
      flights := flights - {token.id};
      return true;
    }

    // --- Closeout and shutdown ----------------------------------------------------------------------

    method CountEntries(leaseId: nat) returns (pending: nat, inFlight: nat, uncertain: nat, drain: Option<int>)
      ensures pending == |G.PendingIds(ledger.State(), leaseId)|
      ensures inFlight == |G.InFlightIds(ledger.State(), leaseId)|
      ensures uncertain == |G.UncertainIds(ledger.State(), leaseId)|
      ensures G.LatestDeadline(ledger.State(), G.InFlightIds(ledger.State(), leaseId), drain)
    {
      hide G.LatestDeadline, G.PendingIds, G.InFlightIds, G.UncertainIds, Visited;
      pending, inFlight, uncertain, drain := 0, 0, 0, None;
      ghost var l := ledger.State();
      ghost var p, f, u := G.PendingIds(l, leaseId), G.InFlightIds(l, leaseId), G.UncertainIds(l, leaseId);
      Sorted(l, leaseId);
      var todo := ledger.entries.Keys;
      NoneVisited(p, todo);
      NoneVisited(f, todo);
      NoneVisited(u, todo);
      NoDeadline(l);
      while todo != {}
        invariant todo <= ledger.entries.Keys
        invariant pending == |Visited(p, todo)| && inFlight == |Visited(f, todo)| && uncertain == |Visited(u, todo)|
        invariant Visited(f, todo) <= l.entries.Keys && G.LatestDeadline(l, Visited(f, todo), drain)
        decreases |todo|
      {
        var id :| id in todo;
        var e := ledger.entries[id];
        OneMore(p, todo, id);
        OneMore(f, todo, id);
        OneMore(u, todo, id);
        LaterDeadline(l, Visited(f, todo), id, drain);
        if e.meta.leaseId == leaseId {
          if e.phase.Reserved? {
            pending := pending + 1;
          } else if G.InFlight(e.phase) {
            inFlight := inFlight + 1;
            if drain.None? || e.deadline > drain.value { drain := Some(e.deadline); }
          } else if G.Uncertain(e.phase) {
            uncertain := uncertain + 1;
          }
        }
        todo := todo - {id};
      }
      AllVisited(p);
      AllVisited(f);
      AllVisited(u);
    }

    method CountOverdue(leaseId: nat) returns (overdue: nat)
      ensures overdue == |G.OverdueIds(Own(), leaseId)|
    {
      overdue := 0;
      ghost var late := G.OverdueIds(Own(), leaseId);
      var todo := flights.Keys;
      NoneVisited(late, todo);
      while todo != {}
        invariant todo <= flights.Keys && overdue == |Visited(late, todo)|
        decreases |todo|
      {
        var id :| id in todo;
        OneMore(late, todo, id);
        if flights[id].leaseId == leaseId && flights[id].overdue { overdue := overdue + 1; }
        todo := todo - {id};
      }
      AllVisited(late);
    }

    method Closeout(leaseId: nat, c: G.Clocks) returns (r: G.Closeout)
      requires Valid()
      modifies this, store, registry, ledger
      ensures Valid() && State() == G.CloseoutSys(old(State()), c).0
      ensures r.state == G.CloseoutVerdict(old(State()), leaseId, c)
      ensures r.view == G.ViewOf(Own(), registry.State(), leaseId)
      ensures r.pending == |G.PendingIds(ledger.State(), leaseId)|
      ensures r.inFlight == |G.InFlightIds(ledger.State(), leaseId)|
      ensures r.overdue == |G.OverdueIds(Own(), leaseId)| && r.uncertain == |G.UncertainIds(ledger.State(), leaseId)|
      ensures G.LatestDeadline(ledger.State(), G.InFlightIds(ledger.State(), leaseId), r.drainBy)
    {
      hide I.Inv, R.Inv, L.Inv, G.Advance, L.Tick, R.Tick, ScopeStore.Describes, G.Bytes, G.PendingIds, G.InFlightIds,
          G.UncertainIds, G.OverdueIds, G.LatestDeadline;
      I.CloseoutSteps(State(), c);
      ghost var s := State();
      I.Parts(s);
      registry.Snapshot(c.check);
      ledger.Snapshot(c.ledger);
      I.SnapshotSteps(s, c);
      var now := Advance(c.tick);
      store.KeysAgree();
      var view := if leaseId in registry.records then G.Known(registry.records[leaseId].state)
                  else if leaseId in store.byLease then G.Pruned else G.Unknown;
      var pending, inFlight, uncertain, drain := CountEntries(leaseId);
      var overdue := CountOverdue(leaseId);
      var verdict := G.Decide(now.Some?, registry.held || ledger.held, view, overdue, inFlight);
      return G.Closeout(view, verdict, pending, inFlight, overdue, uncertain, drain);
    }

    method Shutdown() returns (inFlight: nat, overdue: nat, aborted: nat)
      requires Valid()
      modifies this
      ensures Valid() && State() == old(State()).(gate := G.Shutdown(old(Own())))
      ensures old(closed) ==> inFlight == overdue == aborted == 0
      ensures !old(closed) ==>
        inFlight == |G.OpenIds(old(flights))| && overdue == |G.LateIds(old(flights))|
        && aborted == |G.AbortedIds(old(flights))|
    {
      hide G.ShutFlights, G.OpenIds, G.LateIds, G.AbortedIds, I.Inv, R.Inv, L.Inv, ScopeStore.Describes, G.Bytes;
      I.ShutdownSteps(State());
      inFlight, overdue, aborted := 0, 0, 0;
      var first := !closed;
      closed := true;
      if state.Ready? { state := G.Closed; }
      if first { inFlight, overdue, aborted := FireAborts(); }
    }

    method FireAborts() returns (inFlight: nat, overdue: nat, aborted: nat)
      modifies `flights
      ensures flights == G.ShutFlights(old(flights))
      ensures inFlight == |G.OpenIds(old(flights))| && overdue == |G.LateIds(old(flights))|
          && aborted == |G.AbortedIds(old(flights))|
    {
      hide G.OpenIds, G.LateIds, G.AbortedIds, Visited;
      inFlight, overdue, aborted := 0, 0, 0;
      ghost var was := flights;
      ghost var o, l, a := G.OpenIds(was), G.LateIds(was), G.AbortedIds(was);
      var todo := flights.Keys;
      Shut(was);
      NoneVisited(o, todo);
      NoneVisited(l, todo);
      NoneVisited(a, todo);
      while todo != {}
        invariant todo <= flights.Keys == was.Keys
        invariant forall id | id in was :: flights[id] == if id in todo then was[id] else G.ShutFlight(was[id])
        invariant inFlight == |Visited(o, todo)| && overdue == |Visited(l, todo)| && aborted == |Visited(a, todo)|
        decreases |todo|
      {
        var id :| id in todo;
        OneMore(o, todo, id);
        OneMore(l, todo, id);
        OneMore(a, todo, id);
        var x := flights[id];
        if !x.phase.Waiting? { inFlight := inFlight + 1; }
        if x.overdue { overdue := overdue + 1; }
        if (!x.phase.Waiting? || x.overdue) && x.abort.Attached? {
          flights := flights[id := x.(abort := G.Fired)];
          aborted := aborted + 1;
        }
        todo := todo - {id};
      }
      AllVisited(o);
      AllVisited(l);
      AllVisited(a);
    }
  }

  /** The members of `s` already taken off the list. */
  ghost function Visited(s: set<nat>, todo: set<nat>): set<nat> { s - todo }

  lemma OneMore(s: set<nat>, todo: set<nat>, id: nat)
    requires id in todo
    ensures |Visited(s, todo - {id})| == |Visited(s, todo)| + (if id in s then 1 else 0)
    ensures Visited(s, todo - {id}) == if id in s then Visited(s, todo) + {id} else Visited(s, todo)
  {
    if id in s {
      assert s - (todo - {id}) == (s - todo) + {id};
    } else {
      assert s - (todo - {id}) == s - todo;
    }
  }

  lemma NoneVisited(s: set<nat>, todo: set<nat>)
    requires s <= todo
    ensures Visited(s, todo) == {}
  {
  }

  lemma AllVisited(s: set<nat>)
    ensures Visited(s, {}) == s
  {
  }

  lemma Sorted(l: R.Ledger, leaseId: nat)
    ensures G.PendingIds(l, leaseId) <= l.entries.Keys && G.InFlightIds(l, leaseId) <= l.entries.Keys
        && G.UncertainIds(l, leaseId) <= l.entries.Keys
    ensures forall id | id in l.entries ::
      var e := l.entries[id];
      && (id in G.PendingIds(l, leaseId) <==> e.meta.leaseId == leaseId && e.phase.Reserved?)
      && (id in G.InFlightIds(l, leaseId) <==> e.meta.leaseId == leaseId && G.InFlight(e.phase))
      && (id in G.UncertainIds(l, leaseId) <==> e.meta.leaseId == leaseId && G.Uncertain(e.phase))
  {
  }

  lemma Shut(flights: map<nat, G.Flight>)
    ensures G.OpenIds(flights) <= flights.Keys && G.LateIds(flights) <= flights.Keys
        && G.AbortedIds(flights) <= flights.Keys
    ensures forall id | id in flights ::
      && (id in G.OpenIds(flights) <==> !flights[id].phase.Waiting?)
      && (id in G.LateIds(flights) <==> flights[id].overdue)
      && (id in G.AbortedIds(flights) <==> G.ShutFlight(flights[id]) != flights[id])
  {
  }

  lemma NoDeadline(l: R.Ledger)
    ensures G.LatestDeadline(l, {}, None)
  {
  }

  lemma LaterDeadline(l: R.Ledger, ids: set<nat>, id: nat, drain: Option<int>)
    requires ids <= l.entries.Keys && id in l.entries && G.LatestDeadline(l, ids, drain)
    ensures var d := l.entries[id].deadline;
            G.LatestDeadline(l, ids + {id}, if drain.None? || d > drain.value then Some(d) else drain)
  {
    var d := l.entries[id].deadline;
    assert id in ids + {id};
    if drain.Some? && d <= drain.value {
      var k :| k in ids && l.entries[k].deadline == drain.value;
      assert k in ids + {id};
    }
  }
}
