/** What a closeout verdict and a revoked lease mean for every later run of the gate. */
module Closeout {
  import opened Text
  import opened HttpResponse
  import opened Clock
  import L = Leases
  import R = Receipts
  import opened Gate
  import opened GateInvariant

  // --- Leases only move forward under the whole system ---------------------------------------

  lemma SelfReg(reg: L.Registry)
    requires L.Inv(reg)
    ensures L.Evolves(reg, reg)
  {
    L.Same(reg);
  }

  lemma RegChecked(reg: L.Registry, clock: Reading, service: nat, sentinel: nat, generation: nat, scope: nat)
    requires L.Inv(reg)
    ensures var (t, now) := L.Tick(reg, clock);
            && L.Inv(t) && L.Evolves(reg, t)
            && (now.Ok? ==> var u := L.CheckAt(t, service, sentinel, generation, scope).0;
                              L.Inv(u) && L.Evolves(reg, u))
  {
    hide L.Inv, L.Evolves, L.Tick, L.CheckAt;
    RegCheckSteps(reg, clock, service, sentinel, generation, scope);
    var (t, now) := L.Tick(reg, clock);
    L.IdsOf(reg);
    if now.Ok? { L.EvolvesTransitive(reg, t, L.CheckAt(t, service, sentinel, generation, scope).0); }
  }

  lemma InstallReg(s: Sys, grant: L.Grant, generation: nat, m: Manifest, c: Clocks)
    requires L.Inv(s.reg)
    ensures L.Evolves(s.reg, InstallScope(s, grant, generation, m, c).0.reg)
  {
    hide L.Inv, L.Evolves, L.Tick, L.CheckAt, Advance, StoreScope, Verified;
    SelfReg(s.reg);
    RegChecked(s.reg, c.check, grant.service, grant.sentinel, generation, grant.scope);
    var (t, now) := L.Tick(s.reg, c.check);
    if now.Ok? {
      var u := L.CheckAt(t, grant.service, grant.sentinel, generation, grant.scope).0;
      L.TickSteps(u, c.after);
      L.IdsOf(s.reg);
      L.EvolvesTransitive(s.reg, u, L.Tick(u, c.after).0);
    }
  }

  lemma CheckLeaseReg(s: Sys, f: Flight, sentinel: nat, c: Clocks)
    requires L.Inv(s.reg)
    ensures L.Evolves(s.reg, CheckLease(s, f, sentinel, c).0.reg)
  {
    hide L.Inv, L.Evolves, L.Tick, L.CheckAt, ReadClock;
    SelfReg(s.reg);
    RegChecked(s.reg, c.check, f.service, sentinel, s.reg.generation, f.scope);
    var (t, now) := L.Tick(s.reg, c.check);
    assert now.Ok? ==> L.Evolves(s.reg, L.CheckAt(t, f.service, sentinel, s.reg.generation, f.scope).0);
  }

  lemma AdmitReg(s: Sys, handle: R.Token, sentinel: nat, c: Clocks)
    requires L.Inv(s.reg)
    ensures L.Evolves(s.reg, Admit(s, handle, sentinel, c).0.reg)
  {
    hide L.Inv, L.Evolves, Advance, CheckLease, R.Finalize, R.BeginConnect;
    SelfReg(s.reg);
    if FindHandle(s.gate, handle) {
      FlightsStay(s.gate, c.tick);
      var g := Advance(s.gate, c.tick).0;
      CheckLeaseReg(s.(gate := g), g.flights[handle.id], sentinel, c);
    }
  }

  lemma FlightsStay(g: Gate, clock: Reading)
    ensures Advance(g, clock).0.flights.Keys == g.flights.Keys
  {
  }

  lemma WriteReg(s: Sys, token: R.Token, sentinel: nat, c: Clocks)
    requires L.Inv(s.reg)
    ensures L.Evolves(s.reg, BeginWrite(s, token, sentinel, c).0.reg)
  {
    hide L.Inv, L.Evolves, Advance, CheckLease, R.Finalize, R.BeginDispatch;
    SelfReg(s.reg);
    if FindAdmission(s.gate, token) {
      FlightsStay(s.gate, c.tick);
      var g := Advance(s.gate, c.tick).0;
      CheckLeaseReg(s.(gate := g), g.flights[token.id], sentinel, c);
    }
  }

  lemma StepReg(s: Sys, op: Op)
    requires L.Inv(s.reg)
    ensures L.Evolves(s.reg, Step(s, op).reg)
  {
    hide L.Inv, L.Evolves, L.Tick, L.CheckAt, L.Step, InstallScope, Precheck, Deny, Reserve, Admit, BeginWrite, Finish;
    SelfReg(s.reg);
    match op
    case DoInstall(grant, generation, m, c) => InstallReg(s, grant, generation, m, c);
    case DoPrecheck(entry, sentinel, clock) => PrecheckReg(s, entry, sentinel, clock);
    case DoDeny(entry, routeId, req, reason, r, f) => DenyReg(s, entry, routeId, req, reason, r, f);
    case DoReserve(entry, routed, req, c) => ReserveReg(s, entry, routed, req, c);
    case DoAdmit(handle, sentinel, c) => AdmitReg(s, handle, sentinel, c);
    case DoBeginWrite(token, sentinel, c) => WriteReg(s, token, sentinel, c);
    case DoFinish(token, clock, state, reason, upstream) => FinishReg(s, token, clock, state, reason, upstream);
    case DoCloseout(_, c) => L.TickSteps(s.reg, c.check);
    case Control(lop) => L.StepSteps(s.reg, lop);
    case _ =>
  }

  lemma PrecheckReg(s: Sys, entry: ScopeEntry, sentinel: nat, clock: Reading)
    requires L.Inv(s.reg)
    ensures L.Evolves(s.reg, Precheck(s, entry, sentinel, clock).0.reg)
  {
    hide L.Inv, L.Evolves, L.Tick, L.CheckAt;
    SelfReg(s.reg);
    RegChecked(s.reg, clock, entry.service, sentinel, s.reg.generation, entry.scope);
    var (t, now) := L.Tick(s.reg, clock);
    assert now.Ok? ==> L.Evolves(s.reg, L.CheckAt(t, entry.service, sentinel, s.reg.generation, entry.scope).0);
  }

  lemma DenyReg(s: Sys, entry: ScopeEntry, routeId: nat, req: Request, reason: R.Reason, reserve: Reading,
                finalize: Reading)
    ensures Deny(s, entry, routeId, req, reason, reserve, finalize).0.reg == s.reg
  {
    hide R.Reserve, R.Finalize;
  }

  lemma ReserveReg(s: Sys, entry: ScopeEntry, routed: Routed, req: Request, c: Clocks)
    ensures Reserve(s, entry, routed, req, c).0.reg == s.reg
  {
    hide R.Reserve, Advance;
  }

  lemma FinishReg(s: Sys, token: R.Token, clock: Reading, state: R.DispatchState, reason: R.Reason,
                  upstream: Option<Response>)
    ensures Finish(s, token, clock, state, reason, upstream).0.reg == s.reg
  {
    hide R.Finalize;
  }

  lemma {:induction false} RunReg(s: Sys, ops: seq<Op>)
    requires Inv(s)
    ensures Inv(Run(s, ops)) && L.Evolves(s.reg, Run(s, ops).reg)
    decreases |ops|
  {
    hide Inv, L.Inv, L.Evolves, Step;
    Parts(s);
    if ops == [] {
      SelfReg(s.reg);
    } else {
      StepSteps(s, ops[0]);
      StepReg(s, ops[0]);
      var m := Step(s, ops[0]);
      RunReg(m, ops[1..]);
      L.IdsOf(s.reg);
      L.EvolvesTransitive(s.reg, m.reg, Run(s, ops).reg);
    }
  }

  // --- What an admission and a write rest on ----------------------------------------------------

  /** A passed check was an authorization of this flight's lease, at an instant between two
      readings of the gate's own clock. */
  lemma PassedMeans(s: Sys, f: Flight, sentinel: nat, c: Clocks)
    ensures var (s', r) := CheckLease(s, f, sentinel, c);
            r.Passed? ==>
              && L.Authorizes(s.reg, c.check, f.service, sentinel, s.reg.generation, f.scope, f.leaseId)
              && c.before.At? && c.check.At? && c.after.At?
              && r.at == c.check.now && c.before.now <= c.check.now <= c.after.now && s'.gate.flights == s.gate.flights
  {
    hide L.CheckAt, L.Settle;
    var (t, now) := L.Tick(s.reg, c.check);
    if now.Ok? { CheckedAt(t, f.service, sentinel, s.reg.generation, f.scope); SettledAt(s.reg, c.check); }
  }

  lemma SettledAt(reg: L.Registry, clock: Reading)
    ensures L.Tick(reg, clock).1.Ok? ==> L.Tick(reg, clock).0.lastNow == clock.now
  {
  }

  lemma CheckedAt(t: L.Registry, service: nat, sentinel: nat, generation: nat, scope: nat)
    ensures L.CheckAt(t, service, sentinel, generation, scope).1.at == t.lastNow
  {
    hide L.RevokeAll, L.Expire;
  }

  /** What a granted admission says about the flight `f` it was granted to. */
  ghost predicate AdmissionRests(reg: L.Registry, f: Flight, sentinel: nat, c: Clocks, a: Admission) {
    && L.Authorizes(reg, c.check, f.service, sentinel, reg.generation, f.scope, f.leaseId)
    && c.before.At? && c.after.At? && c.before.now <= a.at <= c.after.now
    && a.at + RESPONSE_MARGIN + MIN_ADMISSION <= f.deadline
    && a.connectBy <= f.deadline - RESPONSE_MARGIN
  }

  ghost predicate AdmissionMade(s: Sys, id: nat, mark: nat) {
    && id in s.gate.flights && s.gate.flights[id].admission == Some(mark) && s.gate.flights[id].phase.Admitted?
    && id in s.ledger.entries && s.ledger.entries[id].phase.Connecting?
  }

  lemma ConnectMakes(s: Sys, id: nat, at: int, clock: Reading)
    requires Inv(s) && id in s.gate.flights
    ensures var (s', r) := Connect(s, id, at, clock);
            r.Granted? ==> AdmissionMade(s', id, r.value.token.mark) && r.value.at == at
                           && r.value.connectBy <= s.gate.flights[id].deadline - RESPONSE_MARGIN
  {
    hide Inv, R.Inv, R.Advance, Keeps;
    FlightOf(s, id);
    Parts(s);
    AdvanceKeeps(s.ledger, clock, s.gate.flights[id].reservation, R.Reserved, R.Connecting);
    var (l, r) := R.BeginConnect(s.ledger, clock, s.gate.flights[id].reservation);
    assert r.Ok? ==> id in l.entries && l.entries[id].phase.Connecting?;
  }

  lemma AdmitCheckedMeans(s: Sys, id: nat, sentinel: nat, c: Clocks)
    requires Inv(s) && id in s.gate.flights
    ensures var (s', r) := AdmitChecked(s, id, sentinel, c);
            r.Granted? ==>
              AdmissionRests(s.reg, s.gate.flights[id], sentinel, c, r.value)
              && AdmissionMade(s', id, r.value.token.mark)
  {
    hide Inv, CheckLease, Connect, FinalizeAndDrop, L.Authorizes, AdmissionMade;
    PassedMeans(s, s.gate.flights[id], sentinel, c);
    CheckLeaseSteps(s, s.gate.flights[id], sentinel, c);
    var (s2, check) := CheckLease(s, s.gate.flights[id], sentinel, c);
    if check.Passed? { ConnectMakes(s2, id, check.at, c.ledger); }
    NeverGranted<Admission>(s2, id, c.ledger);
  }

  lemma NeverGranted<T>(s: Sys, id: nat, clock: Reading)
    requires id in s.gate.flights
    ensures forall state, reason, code :: !FinalizeAndDrop<T>(s, id, clock, state, reason, code).1.Granted?
  {
    hide R.Finalize;
  }

  lemma RestsSwept(reg: L.Registry, f: Flight, f': Flight, sentinel: nat, c: Clocks, a: Admission)
    requires AdmissionRests(reg, f', sentinel, c, a)
    requires f'.service == f.service && f'.scope == f.scope && f'.leaseId == f.leaseId && f'.deadline == f.deadline
    ensures AdmissionRests(reg, f, sentinel, c, a)
  {
  }

  /** An admission rests on an authorization of the flight's lease read between two readings of
      the gate's clock, early enough to connect and answer before the deadline. */
  lemma AdmittedMeans(s: Sys, handle: R.Token, sentinel: nat, c: Clocks)
    requires Inv(s)
    ensures var (s', r) := Admit(s, handle, sentinel, c);
            r.Granted? ==>
              && handle.id in s.gate.flights && s.gate.state.Ready?
              && sentinel == s.gate.flights[handle.id].sentinel && !s.gate.flights[handle.id].requiresPermit
              && AdmissionRests(s.reg, s.gate.flights[handle.id], sentinel, c, r.value)
              && AdmissionMade(s', handle.id, r.value.token.mark)
  {
    hide Inv, Advance, AdmitChecked, FinalizeAndDrop, AdmissionRests, AdmissionMade;
    if FindHandle(s.gate, handle) && s.gate.flights[handle.id].phase.Waiting? {
      AdvanceSteps(s, c.tick);
      var g, id := Advance(s.gate, c.tick).0, handle.id;
      var s1 := s.(gate := g);
      NeverGranted<Admission>(s1, id, c.ledger);
      AdmitCheckedMeans(s1, id, sentinel, c);
      var (s', r) := AdmitChecked(s1, id, sentinel, c);
      if r.Granted? { RestsSwept(s.reg, s.gate.flights[id], g.flights[id], sentinel, c, r.value); }
    }
  }

  /** What a granted write says about the flight it was granted to. */
  ghost predicate WriteRests(reg: L.Registry, f: Flight, sentinel: nat, c: Clocks, until: int) {
    && L.Authorizes(reg, c.check, f.service, sentinel, reg.generation, f.scope, f.leaseId) && !f.requiresPermit
    && c.check.At? && c.check.now + MIN_WRITE <= f.deadline - RESPONSE_MARGIN
    && until <= f.deadline - RESPONSE_MARGIN
  }

  ghost predicate WriteMade(s: Sys, id: nat) {
    && id in s.gate.flights && s.gate.flights[id].phase.Writing?
    && id in s.ledger.entries && s.ledger.entries[id].phase.Dispatched?
  }

  lemma DispatchMakes(s: Sys, id: nat, at: int, clock: Reading)
    requires Inv(s) && id in s.gate.flights
    ensures var (s', r) := Dispatch(s, id, at, clock);
            r.Granted? ==> WriteMade(s', id) && r.value <= s.gate.flights[id].deadline - RESPONSE_MARGIN
  {
    hide Inv, R.Inv, R.Advance, Keeps;
    FlightOf(s, id);
    Parts(s);
    AdvanceKeeps(s.ledger, clock, s.gate.flights[id].reservation, R.Connecting, R.Dispatched);
    var (l, r) := R.BeginDispatch(s.ledger, clock, s.gate.flights[id].reservation);
    assert r.Ok? ==> id in l.entries && l.entries[id].phase.Dispatched?;
  }

  lemma WriteCheckedMeans(s: Sys, id: nat, sentinel: nat, c: Clocks)
    requires Inv(s) && id in s.gate.flights
    ensures var (s', r) := WriteChecked(s, id, sentinel, c);
            r.Granted? ==> WriteRests(s.reg, s.gate.flights[id], sentinel, c, r.value) && WriteMade(s', id)
  {
    hide Inv, CheckLease, Dispatch, FinalizeAndDrop, L.Authorizes, WriteMade;
    PassedMeans(s, s.gate.flights[id], sentinel, c);
    CheckLeaseSteps(s, s.gate.flights[id], sentinel, c);
    var (s2, check) := CheckLease(s, s.gate.flights[id], sentinel, c);
    if check.Passed? { DispatchMakes(s2, id, check.at, c.ledger); }
    NeverGranted<int>(s2, id, c.ledger);
  }

  lemma WriteSwept(reg: L.Registry, f: Flight, f': Flight, sentinel: nat, c: Clocks, until: int)
    requires WriteRests(reg, f', sentinel, c, until) && f'.requiresPermit == f.requiresPermit
    requires f'.service == f.service && f'.scope == f.scope && f'.leaseId == f.leaseId && f'.deadline == f.deadline
    ensures WriteRests(reg, f, sentinel, c, until)
  {
  }

  /** A write fence passes only for an admitted flight whose lease is authorized again, with
      its ledger entry dispatched. */
  lemma WriteMeans(s: Sys, token: R.Token, sentinel: nat, c: Clocks)
    requires Inv(s)
    ensures var (s', r) := BeginWrite(s, token, sentinel, c);
            r.Granted? ==>
              && token.id in s.gate.flights && s.gate.state.Ready?
              && s.gate.flights[token.id].phase.Admitted? && s.gate.flights[token.id].admission == Some(token.mark)
              && sentinel == s.gate.flights[token.id].sentinel
              && WriteRests(s.reg, s.gate.flights[token.id], sentinel, c, r.value) && WriteMade(s', token.id)
  {
    hide Inv, Advance, WriteChecked, FinalizeAndDrop, WriteRests, WriteMade, Linked;
    if FindAdmission(s.gate, token) && !s.gate.flights[token.id].phase.Writing? {
      AdvanceSteps(s, c.tick);
      FlightOf(s, token.id);
      var g, id := Advance(s.gate, c.tick).0, token.id;
      var s1 := s.(gate := g);
      NeverGranted<int>(s1, id, c.ledger);
      WriteCheckedMeans(s1, id, sentinel, c);
      var (s', r) := WriteChecked(s1, id, sentinel, c);
      if r.Granted? { WriteSwept(s.reg, s.gate.flights[id], g.flights[id], sentinel, c, r.value); }
    }
  }

  // --- The fence ------------------------------------------------------------------------------------

  /** No admission and no write for this lease succeeds, whatever token, sentinel and clocks. */
  ghost predicate Fenced(s: Sys, leaseId: nat) {
    && (forall h: R.Token, sentinel: nat, c: Clocks | h.id in s.gate.flights
        && s.gate.flights[h.id].leaseId == leaseId ::
          !Admit(s, h, sentinel, c).1.Granted?)
    && (forall t: R.Token, sentinel: nat, c: Clocks | t.id in s.gate.flights
        && s.gate.flights[t.id].leaseId == leaseId ::
          !BeginWrite(s, t, sentinel, c).1.Granted?)
  }

  ghost predicate Gone(reg: L.Registry, leaseId: nat) { L.Dead(reg, leaseId) || reg.held }

  lemma GoneDenies(reg: L.Registry, clock: Reading, service: nat, sentinel: nat, generation: nat, scope: nat,
                   leaseId: nat)
    requires L.Inv(reg) && Gone(reg, leaseId)
    ensures !L.Authorizes(reg, clock, service, sentinel, generation, scope, leaseId)
  {
    hide L.Inv, L.Authorizes, L.Dead;
    if reg.held { L.HeldForever(reg, [], clock, service, sentinel, generation, scope, leaseId); }
    else { L.RevocationFence(reg, [], clock, service, sentinel, generation, scope, leaseId); }
  }

  lemma GoneFenced(s: Sys, leaseId: nat)
    requires Inv(s) && Gone(s.reg, leaseId)
    ensures Fenced(s, leaseId)
  {
    hide Inv, L.Inv, Gone, Admit, BeginWrite, L.Authorizes;
    Parts(s);
    forall h: R.Token, sentinel: nat, c: Clocks | h.id in s.gate.flights && s.gate.flights[h.id].leaseId == leaseId
      ensures !Admit(s, h, sentinel, c).1.Granted?
    {
      AdmittedMeans(s, h, sentinel, c);
      var f := s.gate.flights[h.id];
      GoneDenies(s.reg, c.check, f.service, sentinel, s.reg.generation, f.scope, leaseId);
    }
    forall t: R.Token, sentinel: nat, c: Clocks | t.id in s.gate.flights && s.gate.flights[t.id].leaseId == leaseId
      ensures !BeginWrite(s, t, sentinel, c).1.Granted?
    {
      WriteMeans(s, t, sentinel, c);
      var f := s.gate.flights[t.id];
      GoneDenies(s.reg, c.check, f.service, sentinel, s.reg.generation, f.scope, leaseId);
    }
  }

  lemma GoneForever(a: L.Registry, b: L.Registry, leaseId: nat)
    requires Gone(a, leaseId) && L.Evolves(a, b)
    ensures Gone(b, leaseId)
  {
  }

  /** Once a lease is revoked, expired, forgotten or the registry is held, no admission and no
      write for it succeeds in any continuation of the whole system. */
  lemma RevocationFence(s: Sys, ops: seq<Op>, leaseId: nat)
    requires Inv(s) && Gone(s.reg, leaseId)
    ensures Fenced(Run(s, ops), leaseId)
  {
    hide Inv, Run, Fenced, Gone, L.Evolves;
    RunReg(s, ops);
    GoneForever(s.reg, Run(s, ops).reg, leaseId);
    GoneFenced(Run(s, ops), leaseId);
  }

  // --- Closeout ----------------------------------------------------------------------------------------

  /** No flight of this lease is admitted or writing. */
  ghost predicate NoneOpen(g: Gate, leaseId: nat) {
    forall id | id in g.flights && g.flights[id].leaseId == leaseId :: g.flights[id].phase.Waiting?
  }

  lemma QuiescentGone(s: Sys, leaseId: nat, c: Clocks)
    requires Inv(s) && CloseoutVerdict(s, leaseId, c).Quiescent?
    ensures Gone(CloseoutSys(s, c).0.reg, leaseId)
  {
    hide Inv, L.Inv, Advance, L.Tick, R.Tick, OverdueIds, InFlightIds;
    CloseoutSteps(s, c);
    var s' := CloseoutSys(s, c).0;
    Parts(s');
    L.IdsOf(s'.reg);
    if leaseId in s'.gate.scopes { ScopeOf(s', leaseId); }
  }

  /** An open flight is counted in the ledger, or past the ledger's clock. */
  lemma OpenCounted(s: Sys, id: nat)
    requires Inv(s) && id in s.gate.flights
    ensures s.gate.flights[id].phase.Waiting? || id in InFlightIds(s.ledger, s.gate.flights[id].leaseId)
        || s.ledger.lastNow >= s.gate.flights[id].deadline
  {
    hide Inv;
    FlightOf(s, id);
  }

  /** What a quiescent verdict says about the two sets it counts. */
  lemma QuiescentCounts(s: Sys, leaseId: nat, c: Clocks)
    requires CloseoutVerdict(s, leaseId, c).Quiescent?
    ensures var s' := CloseoutSys(s, c).0;
            && OverdueIds(s'.gate, leaseId) == {} && InFlightIds(s'.ledger, leaseId) == {}
            && Advance(s.gate, c.tick).1.Some? && !s'.ledger.held
  {
    hide Advance, L.Tick, R.Tick, Entries, ViewOf;
  }

  /** A flight past the gate's reading is marked overdue. */
  lemma LateIsOverdue(g: Gate, clock: Reading, id: nat)
    requires Advance(g, clock).1.Some? && id in Advance(g, clock).0.flights
    ensures var f := Advance(g, clock).0.flights[id];
            clock.At? && (clock.now >= f.deadline ==> id in OverdueIds(Advance(g, clock).0, f.leaseId))
  {
  }

  /** An open flight under a quiescent verdict lies between the two readings. */
  lemma QuiescentGap(s: Sys, leaseId: nat, c: Clocks, id: nat)
    requires Inv(s) && CloseoutVerdict(s, leaseId, c).Quiescent?
    requires var f := CloseoutSys(s, c).0.gate.flights; id in f && f[id].leaseId == leaseId && !f[id].phase.Waiting?
    ensures var f := CloseoutSys(s, c).0.gate.flights[id];
            c.tick.At? && c.ledger.At? && c.tick.now < f.deadline <= c.ledger.now
                && f.deadline >= RESPONSE_MARGIN + MIN_ADMISSION
  {
    hide Inv, L.Inv, R.Inv, Advance, L.Tick, R.Tick, L.Evolves, R.Evolves, OverdueIds, InFlightIds, CloseoutVerdict;
    CloseoutSteps(s, c);
    QuiescentCounts(s, leaseId, c);
    LedgerReads(s.ledger, c.ledger);
    var s' := CloseoutSys(s, c).0;
    OpenCounted(s', id);
    LateIsOverdue(s.gate, c.tick, id);
    DeadlineAtLeast(s', id);
  }

  lemma DeadlineAtLeast(s: Sys, id: nat)
    requires Inv(s) && id in s.gate.flights
    ensures !s.gate.flights[id].phase.Waiting? ==> s.gate.flights[id].deadline >= RESPONSE_MARGIN + MIN_ADMISSION
  {
    hide Inv;
    FlightOf(s, id);
  }

  /** A quiescent verdict read with the gate's reading not before the ledger's is sound. */
  lemma QuiescentSound(s: Sys, leaseId: nat, c: Clocks)
    requires Inv(s) && CloseoutVerdict(s, leaseId, c).Quiescent?
    requires c.tick.At? && c.ledger.At? && c.tick.now >= c.ledger.now
    ensures NoneOpen(CloseoutSys(s, c).0.gate, leaseId)
  {
    hide Inv, CloseoutVerdict, CloseoutSys;
    var g := CloseoutSys(s, c).0.gate;
    forall id | id in g.flights && g.flights[id].leaseId == leaseId ensures g.flights[id].phase.Waiting? {
      QuiescentWaits(s, leaseId, c, id);
    }
  }

  lemma QuiescentWaits(s: Sys, leaseId: nat, c: Clocks, id: nat)
    requires Inv(s) && CloseoutVerdict(s, leaseId, c).Quiescent?
    requires c.tick.At? && c.ledger.At? && (c.tick.now >= c.ledger.now
                                            || c.ledger.now < RESPONSE_MARGIN + MIN_ADMISSION)
    requires var f := CloseoutSys(s, c).0.gate.flights; id in f && f[id].leaseId == leaseId
    ensures CloseoutSys(s, c).0.gate.flights[id].phase.Waiting?
  {
    hide Inv, CloseoutVerdict, CloseoutSys;
    if !CloseoutSys(s, c).0.gate.flights[id].phase.Waiting? {
      QuiescentGap(s, leaseId, c, id);
    }
  }

  lemma LedgerReads(l: R.Ledger, clock: Reading)
    ensures var (t, now) := R.Tick(l, clock); (now.Ok? ==> clock.At? && t.lastNow == clock.now) && (now.Err? ==> t.held)
  {
    hide R.Pruned, R.Swept;
  }

  /** Soundness and finality together: with one monotone clock a quiescent lease has no open
      flight now, and none of its flights is admitted or written in any later run. */
  lemma QuiescentFinal(s: Sys, leaseId: nat, c: Clocks, ops: seq<Op>)
    requires Inv(s) && CloseoutVerdict(s, leaseId, c).Quiescent?
    requires c.tick.At? && c.ledger.At? && c.tick.now >= c.ledger.now
    ensures NoneOpen(CloseoutSys(s, c).0.gate, leaseId)
    ensures Fenced(Run(CloseoutSys(s, c).0, ops), leaseId)
  {
    hide *;
    QuiescentSound(s, leaseId, c);
    QuiescentGone(s, leaseId, c);
    CloseoutSteps(s, c);
    RevocationFence(CloseoutSys(s, c).0, ops, leaseId);
  }
}
