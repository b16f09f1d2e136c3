/** The invariant that ties the gate's flights to the ledger's entries and to the leases. */
module GateInvariant {
  import opened Text
  import opened HttpResponse
  import opened Clock
  import L = Leases
  import R = Receipts
  import opened Gate

  // --- What a ledger step leaves alone ---------------------------------------------------------

  /** Open entries other than `skip` are untouched unless their deadline has passed. */
  ghost predicate Keeps(l: R.Ledger, l': R.Ledger, skip: Option<nat>) {
    && R.Evolves(l, l')
    && forall id | id in l.entries && Some(id) != skip && !l.entries[id].phase.Finalized? ::
         l'.lastNow >= l.entries[id].deadline || (id in l'.entries && l'.entries[id] == l.entries[id])
  }

  lemma KeepsTrans(a: R.Ledger, b: R.Ledger, c: R.Ledger, skip: Option<nat>)
    requires R.Inv(a) && Keeps(a, b, None) && Keeps(b, c, skip)
    ensures Keeps(a, c, skip)
  {
    hide R.Inv, R.EntryEvolves;
    R.IdsOf(a);
    R.EvolvesTransitive(a, b, c);
  }

  lemma TickKeeps(l: R.Ledger, clock: Reading)
    requires R.Inv(l)
    ensures Keeps(l, R.Tick(l, clock).0, None)
  {
    hide R.Inv, R.Evolves;
    R.TickSteps(l, clock);
  }

  lemma ReserveKeeps(l: R.Ledger, clock: Reading, meta: R.Meta, deadline: int, charge: nat)
    requires R.Inv(l)
    ensures var (l', r) := R.Reserve(l, clock, meta, deadline, charge);
            && R.Inv(l') && Keeps(l, l', None)
            && (r.Ok? ==> r.value.id == l.issued < l'.issued && r.value.id in l'.entries
                          && var e := l'.entries[r.value.id];
                             e.mark == r.value.mark && e.deadline == deadline && e.meta == meta && e.phase.Reserved?)
  {
    hide R.Inv, R.Evolves, R.Tick, R.Charges;
    TickKeeps(l, clock);
    R.TickSteps(l, clock);
    var (t, now) := R.Tick(l, clock);
    if now.Ok? {
      R.ReserveSteps(t, meta, deadline, charge);
      R.IdsOf(t);
      KeepsTrans(l, t, R.ReserveAt(t, meta, deadline, charge).0, None);
    }
  }

  lemma AdvanceKeeps(l: R.Ledger, clock: Reading, token: R.Token, from: R.Phase, to: R.Phase)
    requires R.Inv(l) && ((from.Reserved? && to.Connecting?) || (from.Connecting? && to.Dispatched?))
    ensures var (l', r) := R.Advance(l, clock, token, from, to);
            && R.Inv(l') && Keeps(l, l', Some(token.id)) && (r.Err? ==> Keeps(l, l', None))
            && (r.Ok? ==> token.id in l.entries && token.id in l'.entries
                          && var e := l.entries[token.id];
                             e.mark == token.mark && e.phase == from && l'.entries[token.id] == e.(phase := to))
  {
    hide R.Inv, R.Evolves, R.Tick;
    TickKeeps(l, clock);
    R.TickSteps(l, clock);
    var (t, now) := R.Tick(l, clock);
    if now.Ok? {
      R.AdvanceSteps(t, token, from, to);
      KeepsTrans(l, t, R.AdvanceAt(t, token, from, to).0, Some(token.id));
      if R.AdvanceAt(t, token, from, to).1.Ok? { OpenUnchanged(l, clock, token.id); }
    }
  }

  /** An entry still open after a tick is the one that was there before it. */
  lemma OpenUnchanged(l: R.Ledger, clock: Reading, id: nat)
    requires id in R.Tick(l, clock).0.entries && !R.Tick(l, clock).0.entries[id].phase.Finalized?
    ensures id in l.entries && R.Tick(l, clock).0.entries[id] == l.entries[id]
  {
  }

  lemma FinalizeKeeps(l: R.Ledger, clock: Reading, token: R.Token, state: R.DispatchState, reason: R.Reason,
                      upstream: Option<Response>)
    requires R.Inv(l)
    ensures var (l', r) := R.Finalize(l, clock, token, state, reason, upstream);
            && R.Inv(l') && Keeps(l, l', Some(token.id)) && (r.Err? ==> Keeps(l, l', None))
            && (r.Ok? ==>
                        token.id in l.entries && l.entries[token.id].mark == token.mark
                        && R.Legal(l.entries[token.id].phase, state) && r.value.1.id == token.id
                        && r.value.1.state == state && r.value.1.reason == reason)
  {
    hide R.Inv, R.Evolves, R.Tick, R.ClientFor, R.Legal, Serializable;
    TickKeeps(l, clock);
    R.TickSteps(l, clock);
    var (t, now) := R.Tick(l, clock);
    if now.Ok? {
      R.FinalizeSteps(t, token, state, reason, upstream);
      KeepsTrans(l, t, R.FinalizeAt(t, token, state, reason, upstream).0, Some(token.id));
      if R.FinalizeAt(t, token, state, reason, upstream).1.Ok? { OpenUnchanged(l, clock, token.id); }
    }
  }

  lemma ClaimKeeps(l: R.Ledger, clock: Reading, token: R.Token, wire: string)
    requires R.Inv(l)
    ensures var l' := R.ClaimDelivery(l, clock, token, wire).0; R.Inv(l') && Keeps(l, l', None)
  {
    hide R.Inv, R.Evolves, R.Tick, Serialize;
    TickKeeps(l, clock);
    R.TickSteps(l, clock);
    var (t, now) := R.Tick(l, clock);
    if now.Ok? {
      R.ClaimSteps(t, token, wire);
      KeepsTrans(l, t, R.ClaimAt(t, token, wire).0, None);
    }
  }

  lemma CompleteKeeps(l: R.Ledger, clock: Reading, claim: R.Token, outcome: R.DeliveryOutcome, bytes: int)
    requires R.Inv(l)
    ensures var l' := R.CompleteDelivery(l, clock, claim, outcome, bytes).0; R.Inv(l') && Keeps(l, l', None)
  {
    hide R.Inv, R.Evolves, R.Tick, R.BytesOk;
    TickKeeps(l, clock);
    R.TickSteps(l, clock);
    var (t, now) := R.Tick(l, clock);
    if now.Ok? {
      R.CompleteSteps(t, claim, outcome, bytes);
      KeepsTrans(l, t, R.CompleteAt(t, claim, outcome, bytes).0, None);
    }
  }

  // --- The invariant ---------------------------------------------------------------------------------

  predicate PhaseMatch(f: FlightPhase, e: R.Phase) {
    match f
    case Waiting => e.Reserved?
    case Admitted => e.Connecting?
    case Writing => e.Dispatched?
  }

  /** The flight's ledger entry is open, in the matching phase. */
  ghost predicate Linked(f: Flight, l: R.Ledger) {
    && f.reservation.id in l.entries
    && var e := l.entries[f.reservation.id];
       e.mark == f.reservation.mark && e.deadline == f.deadline && e.meta.leaseId == f.leaseId
           && PhaseMatch(f.phase, e.phase)
  }

  /** The ledger's own clock has passed the flight's deadline and closed its entry. */
  ghost predicate Lapsed(f: Flight, l: R.Ledger) {
    l.lastNow >= f.deadline && (f.reservation.id in l.entries ==> l.entries[f.reservation.id].phase.Finalized?)
  }

  /** Either the entry is still open in step with the flight, or the ledger has let it lapse. */
  ghost predicate FlightOk(id: nat, f: Flight, g: Gate, regIssued: nat, l: R.Ledger) {
    && f.reservation.id == id && id < l.issued
    && f.handle < g.issued && (f.admission.Some? ==> f.admission.value < g.issued && f.admission.value != f.handle)
    && (f.phase.Waiting? <==> f.admission.None?)
    && (!f.phase.Waiting? ==> f.deadline >= RESPONSE_MARGIN + MIN_ADMISSION)
    && f.leaseId < regIssued
    && (f.overdue ==> g.lastNow >= f.deadline)
    && (Linked(f, l) || Lapsed(f, l))
  }

  ghost predicate ScopeOk(id: nat, scope: Scope, g: Gate, regIssued: nat) {
    scope.entry.leaseId == id && id < regIssued && scope.entry.mark < g.issued
  }

  ghost predicate ScopesOk(scopes: map<nat, Scope>) {
    && (forall a, b | a in scopes && b in scopes && scopes[a].entry.service == scopes[b].entry.service
        && scopes[a].sentinel == scopes[b].sentinel :: a == b)
    && |scopes| <= MAX_SCOPES && Bytes(scopes) <= MAX_SCOPE_BYTES
  }

  ghost predicate Inv(s: Sys) {
    && L.Inv(s.reg) && R.Inv(s.ledger) && s.gate.lastNow >= 0
    && |s.gate.flights| <= MAX_OPEN
    && (forall id | id in s.gate.flights :: FlightOk(id, s.gate.flights[id], s.gate, s.reg.issued, s.ledger))
    && (forall id | id in s.gate.scopes :: ScopeOk(id, s.gate.scopes[id], s.gate, s.reg.issued))
    && ScopesOk(s.gate.scopes)
  }

  // --- Building blocks -----------------------------------------------------------------------------------

  lemma Parts(s: Sys)
    requires Inv(s)
    ensures L.Inv(s.reg) && R.Inv(s.ledger) && s.gate.lastNow >= 0 && |s.gate.flights| <= MAX_OPEN
        && ScopesOk(s.gate.scopes)
  {
  }

  lemma FlightOf(s: Sys, id: nat)
    requires Inv(s) && id in s.gate.flights
    ensures FlightOk(id, s.gate.flights[id], s.gate, s.reg.issued, s.ledger)
  {
  }

  lemma RegMoves(s: Sys, reg: L.Registry)
    requires Inv(s) && L.Inv(reg) && s.reg.issued <= reg.issued
    ensures Inv(s.(reg := reg))
  {
    hide L.Inv, R.Inv, Linked, Bytes;
  }

  lemma FlightKept(id: nat, f: Flight, g: Gate, regIssued: nat, l: R.Ledger, l': R.Ledger, skip: Option<nat>)
    requires FlightOk(id, f, g, regIssued, l) && Keeps(l, l', skip) && Some(id) != skip && R.Inv(l')
    ensures FlightOk(id, f, g, regIssued, l')
  {
    hide R.Inv;
    if id in l'.entries { R.EntryOf(l', id); }
  }

  lemma LedgerMoves(s: Sys, l: R.Ledger)
    requires Inv(s) && R.Inv(l) && Keeps(s.ledger, l, None)
    ensures Inv(s.(ledger := l))
  {
    hide L.Inv, R.Inv, FlightOk, Keeps, Bytes;
    forall id | id in s.gate.flights ensures FlightOk(id, s.gate.flights[id], s.gate, s.reg.issued, l) {
      FlightKept(id, s.gate.flights[id], s.gate, s.reg.issued, s.ledger, l, None);
    }
  }

  /** The ledger moves on one entry while its flight is dropped. */
  lemma DropMoves(s: Sys, l: R.Ledger, id: nat)
    requires Inv(s) && R.Inv(l) && Keeps(s.ledger, l, Some(id)) && id in s.gate.flights
    ensures Inv(Drop(s.(ledger := l), id))
  {
    hide L.Inv, R.Inv, FlightOk, Keeps, Bytes;
    var u := Drop(s.(ledger := l), id);
    forall k | k in u.gate.flights ensures FlightOk(k, u.gate.flights[k], u.gate, u.reg.issued, l) {
      FlightKept(k, s.gate.flights[k], s.gate, s.reg.issued, s.ledger, l, Some(id));
      SameGateClock(k, s.gate.flights[k], s.gate, u.gate, s.reg.issued, l);
    }
    assert u.gate.flights.Keys == s.gate.flights.Keys - {id};
    assert |u.gate.flights| == |u.gate.flights.Keys| && |s.gate.flights| == |s.gate.flights.Keys|;
  }

  lemma SameGateClock(id: nat, f: Flight, g: Gate, g': Gate, regIssued: nat, l: R.Ledger)
    requires FlightOk(id, f, g, regIssued, l) && g.lastNow <= g'.lastNow && g.issued <= g'.issued
    ensures FlightOk(id, f, g', regIssued, l)
  {
  }

  /** The ledger moves on one entry while its flight is replaced. */
  lemma SetMoves(s: Sys, l: R.Ledger, id: nat, f: Flight, issued: nat)
    requires Inv(s) && R.Inv(l) && Keeps(s.ledger, l, Some(id)) && id in s.gate.flights && s.gate.issued <= issued
    requires FlightOk(id, f, s.gate.(issued := issued), s.reg.issued, l)
    ensures Inv(Sys(SetFlight(s.gate, id, f).(issued := issued), s.reg, l))
  {
    hide L.Inv, R.Inv, FlightOk, Keeps, Bytes;
    var g := SetFlight(s.gate, id, f).(issued := issued);
    forall k | k in g.flights ensures FlightOk(k, g.flights[k], g, s.reg.issued, l) {
      if k == id {
        SameGateClock(k, f, s.gate.(issued := issued), g, s.reg.issued, l);
      } else {
        FlightKept(k, s.gate.flights[k], s.gate, s.reg.issued, s.ledger, l, Some(id));
        SameGateClock(k, s.gate.flights[k], s.gate, g, s.reg.issued, l);
      }
    }
    MapGrows(s.gate.flights, id, f);
  }

  // --- Scope bytes -----------------------------------------------------------------------------------------

  lemma {:induction false} BytesRemove(scopes: map<nat, Scope>, id: nat)
    requires id in scopes
    ensures Bytes(scopes) == scopes[id].charge + Bytes(scopes - {id})
  {
    var k :| k in scopes && Bytes(scopes) == scopes[k].charge + Bytes(scopes - {k});
    if k != id {
      BytesRemove(scopes - {k}, id);
      BytesRemove(scopes - {id}, k);
      assert scopes - {k} - {id} == scopes - {id} - {k};
    }
  }

  lemma BytesAdd(scopes: map<nat, Scope>, id: nat, scope: Scope)
    requires id !in scopes
    ensures Bytes(scopes[id := scope]) == Bytes(scopes) + scope.charge
  {
    BytesRemove(scopes[id := scope], id);
    assert scopes[id := scope] - {id} == scopes;
  }

  lemma {:induction false} BytesSubset(a: map<nat, Scope>, b: map<nat, Scope>)
    requires a.Keys <= b.Keys && forall id | id in a :: a[id] == b[id]
    ensures Bytes(a) <= Bytes(b) && |a| <= |b|
    decreases |a|
  {
    if a.Keys == {} {
      assert a == map[];
    } else {
      var id :| id in a;
      assert id in b.Keys;
      BytesRemove(a, id);
      BytesRemove(b, id);
      BytesSubset(a - {id}, b - {id});
      assert (a - {id}).Keys == a.Keys - {id} && (b - {id}).Keys == b.Keys - {id};
      assert |a| == |a.Keys| && |b| == |b.Keys| && |a - {id}| == |(a - {id}).Keys| && |b - {id}| == |(b - {id}).Keys|;
    }
  }

  lemma ScopesSubset(a: map<nat, Scope>, b: map<nat, Scope>)
    requires ScopesOk(b) && a.Keys <= b.Keys && forall id | id in a :: a[id] == b[id]
    ensures ScopesOk(a)
  {
    hide Bytes;
    BytesSubset(a, b);
  }

  // --- Gate-only steps ----------------------------------------------------------------------------------------

  /** Reading the clock may hold the gate; it never changes flights or scopes. */
  lemma ReadSteps(s: Sys, clock: Reading)
    requires Inv(s)
    ensures var (g, now) := ReadClock(s.gate, clock);
            && Inv(s.(gate := g)) && g.flights == s.gate.flights && g.issued == s.gate.issued
                && g.scopes == s.gate.scopes
            && (now.Some? ==> now.value == g.lastNow == clock.now && g.state == s.gate.state)
  {
    hide L.Inv, R.Inv, FlightOk, Bytes;
    var g := ReadClock(s.gate, clock).0;
    forall id | id in g.flights ensures FlightOk(id, g.flights[id], g, s.reg.issued, s.ledger) {
      SameGateClock(id, g.flights[id], s.gate, g, s.reg.issued, s.ledger);
    }
  }

  lemma SweptOk(id: nat, f: Flight, g: Gate, g': Gate, regIssued: nat, l: R.Ledger, now: int)
    requires FlightOk(id, f, g, regIssued, l) && g.issued <= g'.issued && g.lastNow <= now == g'.lastNow
    ensures FlightOk(id, SweepFlight(f, now), g', regIssued, l)
  {
  }

  lemma AdvanceSteps(s: Sys, clock: Reading)
    requires Inv(s)
    ensures var (g, now) := Advance(s.gate, clock);
            && Inv(s.(gate := g)) && g.issued == s.gate.issued && g.flights.Keys == s.gate.flights.Keys
            && (forall id | id in g.flights ::
                  g.flights[id] == s.gate.flights[id] || g.flights[id] == SweepFlight(s.gate.flights[id], g.lastNow))
            && (now.Some? ==>
                  clock.At? && now.value == g.lastNow == clock.now && g.state == s.gate.state
                  && !g.state.Held?
                  && forall id | id in g.flights :: g.flights[id].overdue <==> g.lastNow >= g.flights[id].deadline)
            && (now.None? ==> g.state.Held?)
  {
    hide L.Inv, R.Inv, FlightOk, Bytes, ScopesOk, Linked;
    ReadSteps(s, clock);
    var (r, seen) := ReadClock(s.gate, clock);
    var (g, now) := Advance(s.gate, clock);
    if now.Some? {
      forall id | id in g.flights
        ensures FlightOk(id, g.flights[id], g, s.reg.issued, s.ledger)
        ensures g.flights[id].overdue <==> g.lastNow >= g.flights[id].deadline
      {
        SweptOk(id, s.gate.flights[id], s.gate, g, s.reg.issued, s.ledger, now.value);
        OverdueOk(id, s.gate.flights[id], s.gate, s.reg.issued, s.ledger);
      }
      assert g.flights.Keys == s.gate.flights.Keys;
      assert |g.flights| == |g.flights.Keys| && |s.gate.flights| == |s.gate.flights.Keys|;
      ScopesSubset(g.scopes, s.gate.scopes);
    }
  }

  lemma OverdueOk(id: nat, f: Flight, g: Gate, regIssued: nat, l: R.Ledger)
    requires FlightOk(id, f, g, regIssued, l)
    ensures f.overdue ==> g.lastNow >= f.deadline
  {
  }

  // --- Steps of each operation -----------------------------------------------------------------------------------

  lemma CheckLeaseSteps(s: Sys, f: Flight, sentinel: nat, c: Clocks)
    requires Inv(s)
    ensures var (s', r) := CheckLease(s, f, sentinel, c);
            Inv(s') && s'.gate.flights == s.gate.flights && s'.gate.issued == s.gate.issued && s'.ledger == s.ledger
  {
    hide Inv, L.Inv, L.Evolves, L.Tick, L.CheckAt, ReadClock;
    Parts(s);
    ReadSteps(s, c.before);
    var (g1, before) := ReadClock(s.gate, c.before);
    var s1 := s.(gate := g1);
    if before.Some? {
      RegCheckSteps(s.reg, c.check, f.service, sentinel, s.reg.generation, f.scope);
      var (t, now) := L.Tick(s.reg, c.check);
      var u := if now.Err? then t else L.CheckAt(t, f.service, sentinel, s.reg.generation, f.scope).0;
      RegMoves(s1, u);
      ReadSteps(s1.(reg := u), c.after);
      var g2 := ReadClock(g1, c.after).0;
      HoldMoves(s1.(reg := u, gate := g2));
    }
  }

  lemma HoldMoves(s: Sys)
    requires Inv(s)
    ensures Inv(s.(gate := s.gate.(state := Held)))
  {
    hide L.Inv, R.Inv, Linked, Bytes;
  }

  /** A registry check with any reading keeps the registry sound. */
  lemma RegCheckSteps(reg: L.Registry, clock: Reading, service: nat, sentinel: nat, generation: nat, scope: nat)
    requires L.Inv(reg)
    ensures var (t, now) := L.Tick(reg, clock);
            && L.Inv(t) && L.Evolves(reg, t) && reg.issued <= t.issued
            && (now.Ok? ==> var u := L.CheckAt(t, service, sentinel, generation, scope).0;
                            L.Inv(u) && L.Evolves(t, u) && reg.issued <= u.issued)
  {
    hide L.Inv, L.Evolves, L.Tick, L.CheckAt;
    L.TickSteps(reg, clock);
    var t := L.Tick(reg, clock).0;
    L.CheckSteps(t, service, sentinel, generation, scope);
    IssuedGrows(reg, t);
    IssuedGrows(t, L.CheckAt(t, service, sentinel, generation, scope).0);
  }

  lemma IssuedGrows(a: L.Registry, b: L.Registry)
    requires L.Evolves(a, b)
    ensures a.issued <= b.issued
  {
  }

  lemma DropSteps<T>(s: Sys, id: nat, clock: Reading, state: R.DispatchState, reason: R.Reason, code: Code)
    requires Inv(s) && id in s.gate.flights
    ensures Inv(FinalizeAndDrop<T>(s, id, clock, state, reason, code).0)
  {
    hide Inv, R.Inv, R.Finalize, Keeps;
    Parts(s);
    FlightOf(s, id);
    FinalizeKeeps(s.ledger, clock, s.gate.flights[id].reservation, state, reason, None);
    DropMoves(s, R.Finalize(s.ledger, clock, s.gate.flights[id].reservation, state, reason, None).0, id);
  }

  lemma JustDrop(s: Sys, id: nat)
    requires Inv(s) && id in s.gate.flights
    ensures Inv(Drop(s, id))
  {
    hide Inv, R.Inv, Keeps;
    Parts(s);
    SelfKeeps(s.ledger, id);
    DropMoves(s, s.ledger, id);
    assert s.(ledger := s.ledger) == s;
  }

  lemma ConnectSteps(s: Sys, id: nat, at: int, clock: Reading)
    requires Inv(s) && id in s.gate.flights && s.gate.flights[id].phase.Waiting?
    requires 0 <= at && at + RESPONSE_MARGIN + MIN_ADMISSION <= s.gate.flights[id].deadline
    ensures Inv(Connect(s, id, at, clock).0)
  {
    hide Inv, R.Inv, R.Advance, Keeps, Linked;
    Parts(s);
    FlightOf(s, id);
    var f := s.gate.flights[id];
    AdvanceKeeps(s.ledger, clock, f.reservation, R.Reserved, R.Connecting);
    var (l, r) := R.BeginConnect(s.ledger, clock, f.reservation);
    if r.Err? {
      DropMoves(s, l, id);
    } else {
      Monotone(s.ledger, l, id);
      AdmittedOk(id, f, s.gate, s.reg.issued, s.ledger, l);
      SetMoves(s, l, id, f.(phase := Admitted, admission := Some(s.gate.issued)), s.gate.issued + 1);
    }
  }

  lemma AdmittedOk(id: nat, f: Flight, g: Gate, regIssued: nat, l: R.Ledger, l': R.Ledger)
    requires FlightOk(id, f, g, regIssued, l) && f.phase.Waiting? && l.lastNow <= l'.lastNow && l.issued <= l'.issued
    requires f.deadline >= RESPONSE_MARGIN + MIN_ADMISSION
    requires id in l.entries && l.entries[id].phase.Reserved? && id in l'.entries
        && l'.entries[id] == l.entries[id].(phase := R.Connecting)
    ensures FlightOk(id, f.(phase := Admitted, admission := Some(g.issued)), g.(issued := g.issued + 1), regIssued, l')
  {
  }

  lemma Monotone(l: R.Ledger, l': R.Ledger, id: nat)
    requires Keeps(l, l', Some(id))
    ensures l.lastNow <= l'.lastNow && l.issued <= l'.issued
  {
  }

  lemma DispatchSteps(s: Sys, id: nat, at: int, clock: Reading)
    requires Inv(s) && id in s.gate.flights && s.gate.flights[id].phase.Admitted?
    ensures Inv(Dispatch(s, id, at, clock).0)
  {
    hide Inv, R.Inv, R.Advance, Keeps;
    Parts(s);
    FlightOf(s, id);
    var f := s.gate.flights[id];
    AdvanceKeeps(s.ledger, clock, f.reservation, R.Connecting, R.Dispatched);
    var (l, r) := R.BeginDispatch(s.ledger, clock, f.reservation);
    if r.Err? {
      DropMoves(s, l, id);
    } else {
      assert FlightOk(id, f.(phase := Writing), s.gate, s.reg.issued, l) by { Monotone(s.ledger, l, id); }
      SetMoves(s, l, id, f.(phase := Writing), s.gate.issued);
    }
  }

  lemma AdmitSteps(s: Sys, handle: R.Token, sentinel: nat, c: Clocks)
    requires Inv(s)
    ensures Inv(Admit(s, handle, sentinel, c).0)
  {
    hide Inv, Advance, CheckLease, FinalizeAndDrop, Connect;
    if FindHandle(s.gate, handle) && s.gate.flights[handle.id].phase.Waiting? {
      AdvanceSteps(s, c.tick);
      var (g, now) := Advance(s.gate, c.tick);
      var s1, id := s.(gate := g), handle.id;
      forall code: Code ensures Inv(DenyAdmission<Admission>(s1, id, c.ledger, code).0) {
        DropSteps<Admission>(s1, id, c.ledger, R.NotDispatched, DenialOf(code), code);
      }
      JustDrop(s1, id);
      CheckLeaseSteps(s1, g.flights[id], sentinel, c);
      var (s2, check) := CheckLease(s1, g.flights[id], sentinel, c);
      forall code: Code ensures Inv(DenyAdmission<Admission>(s2, id, c.ledger, code).0) {
        DropSteps<Admission>(s2, id, c.ledger, R.NotDispatched, DenialOf(code), code);
      }
      if check.Passed? {
        PassedAt(s1, g.flights[id], sentinel, c);
        if check.at + RESPONSE_MARGIN + MIN_ADMISSION <= g.flights[id].deadline { ConnectSteps(s2, id, check.at,
            c.ledger); }
      }
    }
  }

  /** A check passes at an instant of the gate's own clock. */
  lemma PassedAt(s: Sys, f: Flight, sentinel: nat, c: Clocks)
    ensures CheckLease(s, f, sentinel, c).1.Passed? ==> CheckLease(s, f, sentinel, c).1.at >= 0
    ensures CheckLease(s, f, sentinel, c).0.gate.flights == s.gate.flights
  {
    hide L.Tick, L.CheckAt;
  }

  lemma BeginWriteSteps(s: Sys, token: R.Token, sentinel: nat, c: Clocks)
    requires Inv(s)
    ensures Inv(BeginWrite(s, token, sentinel, c).0)
  {
    hide Inv, Advance, CheckLease, FinalizeAndDrop, Dispatch;
    if FindAdmission(s.gate, token) && !s.gate.flights[token.id].phase.Writing? {
      FlightOf(s, token.id);
      AdvanceSteps(s, c.tick);
      var (g, now) := Advance(s.gate, c.tick);
      var s1, id := s.(gate := g), token.id;
      forall code: Code ensures Inv(DenyWrite<int>(s1, id, c.ledger, code).0) {
        DropSteps<int>(s1, id, c.ledger, R.Failed, R.ConnectFailed, code);
      }
      JustDrop(s1, id);
      CheckLeaseSteps(s1, g.flights[id], sentinel, c);
      var (s2, check) := CheckLease(s1, g.flights[id], sentinel, c);
      forall code: Code ensures Inv(DenyWrite<int>(s2, id, c.ledger, code).0) {
        DropSteps<int>(s2, id, c.ledger, R.Failed, R.ConnectFailed, code);
      }
      if check.Passed? { DispatchSteps(s2, id, check.at, c.ledger); }
    }
  }

  function NewFlight(g: Gate, entry: ScopeEntry, routed: Routed, req: Request, token: R.Token): Flight
    requires entry.leaseId in g.scopes
  {
    Flight(g.issued, token, entry.leaseId, entry.service, entry.scope, g.scopes[entry.leaseId].sentinel,
           routed.requiresPermit, req.deadline, Waiting, false, None, NoAbort)
  }

  /** A reservation leaves the gate swept, the ledger as its own reservation leaves it or untouched,
      and one more flight exactly when it succeeds. */
  lemma ReserveMakes(s: Sys, entry: ScopeEntry, routed: Routed, req: Request, c: Clocks)
    ensures var (u, r) := Reserve(s, entry, routed, req, c);
            var g := Advance(s.gate, c.tick).0;
            var meta := MetaFor(entry, routed.routeId, req);
            var (l, token) := R.Reserve(s.ledger, c.ledger, meta, req.deadline, req.charge);
            if r.Ok? then
              && token.Ok? && entry.leaseId in g.scopes && |g.flights| < MAX_OPEN
              && var g' := SetFlight(g, token.value.id, NewFlight(g, entry, routed, req, token.value));
                 u == Sys(g'.(issued := g.issued + 1), s.reg, l)
            else u == s || u == s.(gate := g) || u == Sys(g, s.reg, l)
  {
    hide Advance, MetaFor;
  }

  lemma ReserveSteps(s: Sys, entry: ScopeEntry, routed: Routed, req: Request, c: Clocks)
    requires Inv(s)
    ensures Inv(Reserve(s, entry, routed, req, c).0)
  {
    hide Inv, R.Inv, Advance, R.Reserve, Keeps, FlightOk, Reserve;
    AdvanceSteps(s, c.tick);
    var g := Advance(s.gate, c.tick).0;
    var s1 := s.(gate := g);
    Parts(s);
    ReserveKeeps(s.ledger, c.ledger, MetaFor(entry, routed.routeId, req), req.deadline, req.charge);
    var (l, token) := R.Reserve(s.ledger, c.ledger, MetaFor(entry, routed.routeId, req), req.deadline, req.charge);
    LedgerMoves(s1, l);
    ReserveMakes(s, entry, routed, req, c);
    if Reserve(s, entry, routed, req, c).1.Ok? {
      ScopeOf(s1, entry.leaseId);
      var f := NewFlight(g, entry, routed, req, token.value);
      NewFlightOk(token.value.id, f, g, s.reg.issued, l);
      AddFlight(s1.(ledger := l), token.value.id, f);
    }
  }

  /** A flight just reserved: waiting, with its entry reserved under the same id. */
  lemma NewFlightOk(id: nat, f: Flight, g: Gate, regIssued: nat, l: R.Ledger)
    requires f.reservation.id == id && id < l.issued && id in l.entries && f.handle == g.issued && f.admission.None?
        && f.phase.Waiting?
    requires f.leaseId < regIssued && !f.overdue
    requires var e := l.entries[id];
               e.mark == f.reservation.mark && e.deadline == f.deadline && e.meta.leaseId == f.leaseId
               && e.phase.Reserved?
    ensures FlightOk(id, f, g.(issued := g.issued + 1), regIssued, l)
  {
  }

  lemma ScopeOf(s: Sys, id: nat)
    requires Inv(s) && id in s.gate.scopes
    ensures ScopeOk(id, s.gate.scopes[id], s.gate, s.reg.issued)
  {
  }

  lemma MapGrows<V>(m: map<nat, V>, id: nat, v: V)
    ensures |m[id := v]| <= |m| + 1 && (id in m ==> |m[id := v]| == |m|)
  {
    var n := m[id := v];
    assert n.Keys == m.Keys + {id};
    assert |n| == |n.Keys| && |m| == |m.Keys|;
  }

  lemma AddFlight(s: Sys, id: nat, f: Flight)
    requires Inv(s) && |s.gate.flights| < MAX_OPEN
    requires FlightOk(id, f, s.gate.(issued := s.gate.issued + 1), s.reg.issued, s.ledger)
    ensures Inv(s.(gate := SetFlight(s.gate, id, f).(issued := s.gate.issued + 1)))
  {
    hide L.Inv, R.Inv, FlightOk, ScopesOk;
    var g := SetFlight(s.gate, id, f).(issued := s.gate.issued + 1);
    forall k | k in g.flights ensures FlightOk(k, g.flights[k], g, s.reg.issued, s.ledger) {
      if k == id {
        SameGateClock(k, f, s.gate.(issued := s.gate.issued + 1), g, s.reg.issued, s.ledger);
      } else {
        SameGateClock(k, s.gate.flights[k], s.gate, g, s.reg.issued, s.ledger);
      }
    }
    MapGrows(s.gate.flights, id, f);
  }

  lemma DenySteps(s: Sys, entry: ScopeEntry, routeId: nat, req: Request, reason: R.Reason, reserve: Reading,
                  finalize: Reading)
    requires Inv(s)
    ensures Inv(Deny(s, entry, routeId, req, reason, reserve, finalize).0)
  {
    hide Inv, R.Inv, R.Reserve, R.Finalize, Keeps, MetaFor;
    Parts(s);
    var meta := MetaFor(entry, routeId, req);
    DenyKeeps(s.ledger, reserve, finalize, meta, req.deadline, req.charge, reason);
    var (l, token) := R.Reserve(s.ledger, reserve, meta, req.deadline, req.charge);
    LedgerMoves(s, l);
    if token.Ok? { LedgerMoves(s, R.Finalize(l, finalize, token.value, R.NotDispatched, reason, None).0); }
  }

  /** A reservation finalized at once leaves every other entry alone. */
  lemma DenyKeeps(l: R.Ledger, reserve: Reading, finalize: Reading, meta: R.Meta, deadline: int, charge: nat,
                  reason: R.Reason)
    requires R.Inv(l)
    ensures var (m, token) := R.Reserve(l, reserve, meta, deadline, charge);
            && R.Inv(m) && Keeps(l, m, None)
            && (token.Ok? ==>
                  var n := R.Finalize(m, finalize, token.value, R.NotDispatched, reason, None).0;
                  R.Inv(n) && Keeps(l, n, None))
  {
    hide R.Inv, R.Reserve, R.Finalize, Keeps;
    ReserveKeeps(l, reserve, meta, deadline, charge);
    var (m, token) := R.Reserve(l, reserve, meta, deadline, charge);
    if token.Ok? {
      FinalizeKeeps(m, finalize, token.value, R.NotDispatched, reason, None);
      R.IdsOf(l);
      KeepsOld(l, m, R.Finalize(m, finalize, token.value, R.NotDispatched, reason, None).0, token.value.id);
    }
  }

  lemma KeepsOld(a: R.Ledger, b: R.Ledger, c: R.Ledger, id: nat)
    requires R.Inv(a) && Keeps(a, b, None) && Keeps(b, c, Some(id)) && id !in a.entries
    ensures Keeps(a, c, None)
  {
    hide R.Inv, R.EntryEvolves;
    R.IdsOf(a);
    R.EvolvesTransitive(a, b, c);
  }

  lemma AttachSteps(s: Sys, token: R.Token)
    requires Inv(s)
    ensures Inv(s.(gate := AttachAbort(s.gate, token).0))
  {
    hide Inv, R.Inv, Keeps, Linked;
    if FindAdmission(s.gate, token) {
      Parts(s);
      FlightOf(s, token.id);
      var f := s.gate.flights[token.id];
      forall a: Abort ensures Inv(s.(gate := SetFlight(s.gate, token.id, f.(abort := a)))) {
        AbortOk(token.id, f, s.gate, s.reg.issued, s.ledger, a);
        SelfKeeps(s.ledger, token.id);
        SetMoves(s, s.ledger, token.id, f.(abort := a), s.gate.issued);
      }
    }
  }

  lemma SelfKeeps(l: R.Ledger, id: nat)
    ensures Keeps(l, l, Some(id)) && Keeps(l, l, None)
  {
    hide R.Evolves;
    R.SameEvolves(l);
  }

  lemma AbortOk(id: nat, f: Flight, g: Gate, regIssued: nat, l: R.Ledger, a: Abort)
    requires FlightOk(id, f, g, regIssued, l)
    ensures FlightOk(id, f.(abort := a), g, regIssued, l)
  {
  }

  lemma FinishSteps(s: Sys, token: R.Token, clock: Reading, state: R.DispatchState, reason: R.Reason,
                    upstream: Option<Response>)
    requires Inv(s)
    ensures Inv(Finish(s, token, clock, state, reason, upstream).0)
  {
    hide Inv, R.Inv, R.Finalize, Keeps, Linked;
    if FindAdmission(s.gate, token) {
      Parts(s);
      FlightOf(s, token.id);
      JustDrop(s, token.id);
      var f := s.gate.flights[token.id];
      FinalizeKeeps(s.ledger, clock, f.reservation, state, reason, upstream);
      var (l, r) := R.Finalize(s.ledger, clock, f.reservation, state, reason, upstream);
      DropMoves(s, l, token.id);
      if r.Err? { LedgerMoves(s, l); }
    }
  }

  lemma ReleaseSteps(s: Sys, token: R.Token)
    requires Inv(s)
    ensures Inv(s.(gate := Release(s.gate, token).0))
  {
    hide Inv;
    if token.id in s.gate.flights { JustDrop(s, token.id); }
  }

  lemma ResolveSteps(s: Sys, service: nat, sentinel: nat, clock: Reading)
    requires Inv(s)
    ensures Inv(s.(gate := Resolve(s.gate, service, sentinel, clock).0))
  {
    hide Inv, ReadClock;
    ReadSteps(s, clock);
    assert s.(gate := s.gate) == s;
  }

  /** Indexes are unique, so resolving finds one scope. */
  lemma ResolveUnique(s: Sys, service: nat, sentinel: nat, clock: Reading, id: nat)
    requires Inv(s) && id in s.gate.scopes && Indexed(s.gate.scopes[id], service, sentinel)
    ensures Resolve(s.gate, service, sentinel, clock) == ResolveAt(s.gate, id, clock)
  {
    hide ResolveAt, Bytes, L.Inv, R.Inv, FlightOk;
  }

  lemma PrecheckSteps(s: Sys, entry: ScopeEntry, sentinel: nat, clock: Reading)
    requires Inv(s)
    ensures Inv(Precheck(s, entry, sentinel, clock).0)
  {
    hide Inv, L.Inv, L.Evolves, L.Tick, L.CheckAt;
    Parts(s);
    RegCheckSteps(s.reg, clock, entry.service, sentinel, s.reg.generation, entry.scope);
    var (t, now) := L.Tick(s.reg, clock);
    RegMoves(s, t);
    if now.Ok? { RegMoves(s, L.CheckAt(t, entry.service, sentinel, s.reg.generation, entry.scope).0); }
  }

  // --- Installing a scope -----------------------------------------------------------------------------------------

  lemma ScopesMove(s: Sys, scopes: map<nat, Scope>)
    requires Inv(s) && scopes.Keys <= s.gate.scopes.Keys && forall id | id in scopes :: scopes[id] == s.gate.scopes[id]
    ensures Inv(s.(gate := s.gate.(scopes := scopes)))
  {
    hide L.Inv, R.Inv, FlightOk, Bytes, ScopesOk;
    ScopesSubset(scopes, s.gate.scopes);
    var g := s.gate.(scopes := scopes);
    forall id | id in g.flights ensures FlightOk(id, g.flights[id], g, s.reg.issued, s.ledger) {
      SameGateClock(id, g.flights[id], s.gate, g, s.reg.issued, s.ledger);
    }
  }

  lemma ScopeAdded(s: Sys, id: nat, scope: Scope)
    requires Inv(s) && id !in s.gate.scopes && !OverCapacity(s.gate.scopes, scope.charge)
    requires ScopeOk(id, scope, s.gate.(issued := s.gate.issued + 1), s.reg.issued)
    requires forall k | k in s.gate.scopes :: !Indexed(s.gate.scopes[k], scope.entry.service, scope.sentinel)
    ensures Inv(s.(gate := s.gate.(scopes := s.gate.scopes[id := scope], issued := s.gate.issued + 1)))
  {
    hide L.Inv, R.Inv, FlightOk, ScopesOk, OverCapacity, Indexed;
    var g := s.gate.(scopes := s.gate.scopes[id := scope], issued := s.gate.issued + 1);
    forall k | k in g.flights ensures FlightOk(k, g.flights[k], g, s.reg.issued, s.ledger) {
      SameGateClock(k, g.flights[k], s.gate, g, s.reg.issued, s.ledger);
    }
    ScopesGrow(s.gate.scopes, id, scope);
  }

  lemma ScopesGrow(scopes: map<nat, Scope>, id: nat, scope: Scope)
    requires ScopesOk(scopes) && id !in scopes && !OverCapacity(scopes, scope.charge)
    requires forall k | k in scopes :: !Indexed(scopes[k], scope.entry.service, scope.sentinel)
    ensures ScopesOk(scopes[id := scope])
  {
    hide Bytes;
    BytesAdd(scopes, id, scope);
    MapGrows(scopes, id, scope);
  }

  lemma StoreSteps(s: Sys, grant: L.Grant, m: Manifest, now: int)
    requires Inv(s)
    ensures Inv(s.(gate := StoreScope(s.gate, s.reg.records, grant, m, now).0))
  {
    hide Inv, SameGrant, Taken, AddScope, Indexed;
    assert s.(gate := s.gate) == s;
    if grant.leaseId in s.reg.records && grant.leaseId !in s.gate.scopes
        && !Taken(s.gate.scopes, grant.service, grant.sentinel) {
      AddSteps(s, grant, m.bytes + SCOPE_OVERHEAD, now);
    }
  }

  lemma AddSteps(s: Sys, grant: L.Grant, charge: nat, now: int)
    requires Inv(s) && grant.leaseId in s.reg.records && grant.leaseId !in s.gate.scopes
    requires !Taken(s.gate.scopes, grant.service, grant.sentinel)
    ensures Inv(s.(gate := AddScope(s.gate, s.reg.records, grant, charge, now).0))
  {
    hide Inv, OverCapacity, Room;
    Parts(s);
    var g, room := s.gate, Room(s.gate, s.reg.records, charge, now);
    RoomWithin(g, s.reg.records, charge, now);
    ScopesMove(s, room);
    L.IdsOf(s.reg);
    if !OverCapacity(room, charge) {
      var entry := ScopeEntry(grant.leaseId, grant.runId, grant.attemptId, grant.service, grant.scope, grant.expiresAt,
                              now, g.issued);
      ScopeAdded(s.(gate := g.(scopes := room)), grant.leaseId, Scope(entry, grant.sentinel, charge));
    }
  }

  lemma RoomWithin(g: Gate, records: map<nat, L.Record>, charge: nat, now: int)
    ensures var room := Room(g, records, charge, now);
            room.Keys <= g.scopes.Keys && forall id | id in room :: room[id] == g.scopes[id]
  {
    hide OverCapacity;
  }

  lemma InstallSteps(s: Sys, grant: L.Grant, generation: nat, m: Manifest, c: Clocks)
    requires Inv(s)
    ensures Inv(InstallScope(s, grant, generation, m, c).0)
  {
    hide Inv, L.Inv, L.Evolves, L.Tick, L.CheckAt, Advance, StoreScope, Verified;
    AdvanceSteps(s, c.tick);
    var (g, now) := Advance(s.gate, c.tick);
    var s1 := s.(gate := g);
    Parts(s);
    RegCheckSteps(s.reg, c.check, grant.service, grant.sentinel, generation, grant.scope);
    var (t, seen) := L.Tick(s.reg, c.check);
    RegMoves(s1, t);
    if seen.Ok? {
      var u := L.CheckAt(t, grant.service, grant.sentinel, generation, grant.scope).0;
      RegMoves(s1, u);
      L.TickSteps(u, c.after);
      var w := L.Tick(u, c.after).0;
      IssuedGrows(u, w);
      RegMoves(s1, w);
      if now.Some? { StoreSteps(s1.(reg := w), grant, m, now.value); }
    }
  }

  lemma CloseoutSteps(s: Sys, c: Clocks)
    requires Inv(s)
    ensures Inv(CloseoutSys(s, c).0)
  {
    hide Inv, L.Inv, L.Evolves, L.Tick, R.Inv, R.Evolves, R.Tick, Advance, Keeps;
    Parts(s);
    AdvanceSteps(s, c.tick);
    var s1 := s.(gate := Advance(s.gate, c.tick).0);
    L.TickSteps(s.reg, c.check);
    IssuedGrows(s.reg, L.Tick(s.reg, c.check).0);
    RegMoves(s1, L.Tick(s.reg, c.check).0);
    R.TickSteps(s.ledger, c.ledger);
    TickKeeps(s.ledger, c.ledger);
    LedgerMoves(s1.(reg := L.Tick(s.reg, c.check).0), R.Tick(s.ledger, c.ledger).0);
  }

  /** The registry's and the ledger's snapshots alone. */
  lemma SnapshotSteps(s: Sys, c: Clocks)
    requires Inv(s)
    ensures Inv(s.(reg := L.Tick(s.reg, c.check).0, ledger := R.Tick(s.ledger, c.ledger).0))
  {
    hide Inv, L.Inv, L.Evolves, L.Tick, R.Inv, R.Evolves, R.Tick, Keeps;
    Parts(s);
    L.TickSteps(s.reg, c.check);
    IssuedGrows(s.reg, L.Tick(s.reg, c.check).0);
    RegMoves(s, L.Tick(s.reg, c.check).0);
    R.TickSteps(s.ledger, c.ledger);
    TickKeeps(s.ledger, c.ledger);
    LedgerMoves(s.(reg := L.Tick(s.reg, c.check).0), R.Tick(s.ledger, c.ledger).0);
  }

  lemma ShutdownSteps(s: Sys)
    requires Inv(s)
    ensures Inv(s.(gate := Shutdown(s.gate)))
  {
    hide L.Inv, R.Inv, FlightOk, Bytes;
    var g := Shutdown(s.gate);
    assert g.flights.Keys == s.gate.flights.Keys;
    assert |g.flights| == |g.flights.Keys| && |s.gate.flights| == |s.gate.flights.Keys|;
    forall id | id in g.flights ensures FlightOk(id, g.flights[id], g, s.reg.issued, s.ledger) {
      AbortOk(id, s.gate.flights[id], s.gate, s.reg.issued, s.ledger, g.flights[id].abort);
      SameGateClock(id, g.flights[id], s.gate, g, s.reg.issued, s.ledger);
    }
  }

  // --- Runs --------------------------------------------------------------------------------------------------------

  /** Every step of the whole system: the gate's own operations, the control session's calls
      on the registry, and the response writer's calls on the ledger. */
  datatype Op =
    | DoNow(clock: Reading)
    | DoInstall(grant: L.Grant, generation: nat, manifest: Manifest, clocks: Clocks)
    | DoResolve(service: nat, sentinel: nat, clock: Reading)
    | DoPrecheck(entry: ScopeEntry, sentinel: nat, clock: Reading)
    | DoDeny(entry: ScopeEntry, routeId: nat, req: Request, reason: R.Reason, reserve: Reading, finalize: Reading)
    | DoReserve(entry: ScopeEntry, routed: Routed, req: Request, clocks: Clocks)
    | DoAdmit(handle: R.Token, sentinel: nat, clocks: Clocks)
    | DoAttach(token: R.Token)
    | DoBeginWrite(token: R.Token, sentinel: nat, clocks: Clocks)
    | DoFinish(token: R.Token, clock: Reading, state: R.DispatchState, reason: R.Reason, upstream: Option<Response>)
    | DoRelease(token: R.Token)
    | DoCloseout(leaseId: nat, clocks: Clocks)
    | DoShutdown
    | Control(op: L.Op)
    | DoClaim(clock: Reading, token: R.Token, wire: string)
    | DoComplete(clock: Reading, claim: R.Token, outcome: R.DeliveryOutcome, bytes: int)

  ghost function Step(s: Sys, op: Op): Sys {
    match op
    case DoNow(clock) => s.(gate := Advance(s.gate, clock).0)
    case DoInstall(grant, generation, m, c) => InstallScope(s, grant, generation, m, c).0
    case DoResolve(service, sentinel, clock) => s.(gate := Resolve(s.gate, service, sentinel, clock).0)
    case DoPrecheck(entry, sentinel, clock) => Precheck(s, entry, sentinel, clock).0
    case DoDeny(entry, routeId, req, reason, r, f) => Deny(s, entry, routeId, req, reason, r, f).0
    case DoReserve(entry, routed, req, c) => Reserve(s, entry, routed, req, c).0
    case DoAdmit(handle, sentinel, c) => Admit(s, handle, sentinel, c).0
    case DoAttach(token) => s.(gate := AttachAbort(s.gate, token).0)
    case DoBeginWrite(token, sentinel, c) => BeginWrite(s, token, sentinel, c).0
    case DoFinish(token, clock, state, reason, upstream) => Finish(s, token, clock, state, reason, upstream).0
    case DoRelease(token) => s.(gate := Release(s.gate, token).0)
    case DoCloseout(_, c) => CloseoutSys(s, c).0
    case DoShutdown => s.(gate := Shutdown(s.gate))
    case Control(lop) => s.(reg := L.Step(s.reg, lop))
    case DoClaim(clock, token, wire) => s.(ledger := R.ClaimDelivery(s.ledger, clock, token, wire).0)
    case DoComplete(clock, claim, outcome, bytes) => s.(ledger := R.CompleteDelivery(s.ledger, clock, claim, outcome,
        bytes).0)
  }

  ghost function Run(s: Sys, ops: seq<Op>): Sys
    decreases |ops|
  {
    if ops == [] then s else Run(Step(s, ops[0]), ops[1..])
  }

  lemma ScopeOpSteps(s: Sys, op: Op)
    requires Inv(s) && (op.DoNow? || op.DoInstall? || op.DoResolve? || op.DoPrecheck? || op.DoCloseout?
                        || op.DoShutdown?)
    ensures Inv(Step(s, op))
  {
    hide Inv, Advance, InstallScope, Resolve, Precheck, CloseoutSys, Shutdown;
    match op
    case DoNow(clock) => AdvanceSteps(s, clock);
    case DoInstall(grant, generation, m, c) => InstallSteps(s, grant, generation, m, c);
    case DoResolve(service, sentinel, clock) => ResolveSteps(s, service, sentinel, clock);
    case DoPrecheck(entry, sentinel, clock) => PrecheckSteps(s, entry, sentinel, clock);
    case DoCloseout(_, c) => CloseoutSteps(s, c);
    case DoShutdown => ShutdownSteps(s);
  }

  lemma FlightOpSteps(s: Sys, op: Op)
    requires Inv(s)
    requires op.DoDeny? || op.DoReserve? || op.DoAdmit? || op.DoAttach? || op.DoBeginWrite? || op.DoFinish?
        || op.DoRelease?
    ensures Inv(Step(s, op))
  {
    hide Inv, Deny, Reserve, Admit, AttachAbort, BeginWrite, Finish, Release;
    match op
    case DoDeny(entry, routeId, req, reason, r, f) => DenySteps(s, entry, routeId, req, reason, r, f);
    case DoReserve(entry, routed, req, c) => ReserveSteps(s, entry, routed, req, c);
    case DoAdmit(handle, sentinel, c) => AdmitSteps(s, handle, sentinel, c);
    case DoAttach(token) => AttachSteps(s, token);
    case DoBeginWrite(token, sentinel, c) => BeginWriteSteps(s, token, sentinel, c);
    case DoFinish(token, clock, state, reason, upstream) => FinishSteps(s, token, clock, state, reason, upstream);
    case DoRelease(token) => ReleaseSteps(s, token);
  }

  lemma OutsideOpSteps(s: Sys, op: Op)
    requires Inv(s) && (op.Control? || op.DoClaim? || op.DoComplete?)
    ensures Inv(Step(s, op))
  {
    hide Inv, L.Inv, R.Inv, L.Step, R.ClaimDelivery, R.CompleteDelivery, L.Evolves, Keeps;
    Parts(s);
    match op
    case Control(lop) =>
      L.StepSteps(s.reg, lop);
      IssuedGrows(s.reg, L.Step(s.reg, lop));
      RegMoves(s, L.Step(s.reg, lop));
    case DoClaim(clock, token, wire) =>
      ClaimKeeps(s.ledger, clock, token, wire);
      LedgerMoves(s, R.ClaimDelivery(s.ledger, clock, token, wire).0);
    case DoComplete(clock, claim, outcome, bytes) =>
      CompleteKeeps(s.ledger, clock, claim, outcome, bytes);
      LedgerMoves(s, R.CompleteDelivery(s.ledger, clock, claim, outcome, bytes).0);
  }

  /** Every step of every kind keeps the invariant. */
  lemma StepSteps(s: Sys, op: Op)
    requires Inv(s)
    ensures Inv(Step(s, op))
  {
    hide Inv, Step;
    if op.Control? || op.DoClaim? || op.DoComplete? {
      OutsideOpSteps(s, op);
    } else if op.DoNow? || op.DoInstall? || op.DoResolve? || op.DoPrecheck? || op.DoCloseout? || op.DoShutdown? {
      ScopeOpSteps(s, op);
    } else {
      FlightOpSteps(s, op);
    }
  }

  lemma {:induction false} RunSteps(s: Sys, ops: seq<Op>)
    requires Inv(s)
    ensures Inv(Run(s, ops))
    decreases |ops|
  {
    hide Inv, Step;
    if ops != [] {
      StepSteps(s, ops[0]);
      RunSteps(Step(s, ops[0]), ops[1..]);
    }
  }

  function Start(generation: nat): Sys {
    Sys(Gate(map[], map[], Ready, false, 0, 0), L.Fresh(generation), R.EMPTY)
  }

  lemma StartInv(generation: nat)
    ensures Inv(Start(generation))
  {
    hide L.Inv, R.Inv;
    L.FreshInv(generation);
    R.EmptyInv();
  }
}
