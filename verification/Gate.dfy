/** The dispatch gate over its registry and ledger, as a value: one function per locked
    operation. */
module Gate {
  import opened Text
  import opened HttpResponse
  import opened Clock
  import L = Leases
  import R = Receipts

  const MAX_SCOPES: nat := 1024
  const MAX_SCOPE_BYTES: nat := 2 * 1024 * 1024
  const SCOPE_OVERHEAD: nat := 1024
  const STORE_RETENTION: nat := 310_000
  const MAX_OPEN: nat := 32
  const CONNECT: nat := 5_000
  const WRITE: nat := 10_000
  const RESPONSE_MARGIN: nat := 1_000
  const MIN_ADMISSION: nat := 1_000
  const MIN_WRITE: nat := 500

  datatype GateState = Ready | Closed | Held

  datatype FlightPhase = Waiting | Admitted | Writing

  datatype Abort = NoAbort | Attached | Fired

  /** `handle` and `admission` are the marks of the tokens given to the flight's owner; the
      keyed index of a lease is its service and sentinel. */
  datatype Flight = Flight(
    handle: nat, reservation: R.Token, leaseId: nat, service: nat, scope: nat, sentinel: nat,
    requiresPermit: bool, deadline: int, phase: FlightPhase, overdue: bool, admission: Option<nat>, abort: Abort)

  datatype ScopeEntry = ScopeEntry(
    leaseId: nat, runId: nat, attemptId: nat, service: nat, scope: nat, expiresAt: int, installedAt: int, mark: nat)

  datatype Scope = Scope(entry: ScopeEntry, sentinel: nat, charge: nat)

  datatype Gate = Gate(
    scopes: map<nat, Scope>, flights: map<nat, Flight>, state: GateState, closed: bool, lastNow: int, issued: nat)

  /** The gate is the only authority over one registry and one ledger. */
  datatype Sys = Sys(gate: Gate, reg: L.Registry, ledger: R.Ledger)

  datatype Code = LeaseDenied | SentinelMismatch | PermitUnavailable | InsufficientTime | GateClosed | GateHeld

  datatype Fault =
    | ClockFault | HeldFault | ClosedFault
    | ManifestMismatch | GenerationMismatch | LeaseUnverified | GrantExpired | ScopeConflict
    | ScopeCapacity | ScopeUnknown
    | InvalidReason | BindingMismatch | RouteUnavailable | DeadlineExceedsLease | DispatchCapacity
    | HandleUnknown | HandleConsumed | AdmissionUnknown | WriteClaimed
    | DeadlineExpired | ReceiptUnavailable | InvalidOutcome

  datatype Result<+T> = Ok(value: T) | Raised(fault: Fault)

  /** Every clock read one operation may make, in order. */
  datatype Clocks = Clocks(tick: Reading, before: Reading, check: Reading, after: Reading, ledger: Reading)

  // --- Clock, sweep and pruning ------------------------------------------------------------

  function ReadClock(g: Gate, clock: Reading): (Gate, Option<int>) {
    if clock.Fault? || clock.now < 0 || clock.now < g.lastNow then (g.(state := Held), None)
    else (g.(lastNow := clock.now), Some(clock.now))
  }

  function SweepFlight(f: Flight, now: int): Flight {
    if !f.overdue && now >= f.deadline then f.(overdue := true, abort := if f.abort.Attached? then Fired else f.abort)
    else f
  }

  function SweepFlights(flights: map<nat, Flight>, now: int): map<nat, Flight> {
    map id | id in flights :: SweepFlight(flights[id], now)
  }

  function PruneScopes(scopes: map<nat, Scope>, now: int): map<nat, Scope> {
    map id | id in scopes && now - scopes[id].entry.installedAt < STORE_RETENTION :: scopes[id]
  }

  /** A held gate never reads its clock again. */
  function Advance(g: Gate, clock: Reading): (Gate, Option<int>) {
    if g.state.Held? then (g, None)
    else
      var (r, now) := ReadClock(g, clock);
      if now.None? then (r, None)
      else (r.(flights := SweepFlights(r.flights, now.value), scopes := PruneScopes(r.scopes, now.value)), now)
  }

  // --- Scope store ---------------------------------------------------------------------------

  datatype Manifest = Manifest(service: nat, runId: nat, attemptId: nat, digest: nat, bytes: nat)

  ghost function Bytes(scopes: map<nat, Scope>): nat {
    if scopes == map[] then 0
    else
      var id :| id in scopes;
      scopes[id].charge + Bytes(scopes - {id})
  }

  ghost predicate OverCapacity(scopes: map<nat, Scope>, charge: nat) {
    |scopes| >= MAX_SCOPES || Bytes(scopes) + charge > MAX_SCOPE_BYTES
  }

  function OnlyKnown(scopes: map<nat, Scope>, records: map<nat, L.Record>): map<nat, Scope> {
    map id | id in scopes && id in records :: scopes[id]
  }

  predicate Indexed(scope: Scope, service: nat, sentinel: nat) {
    scope.entry.service == service && scope.sentinel == sentinel
  }

  predicate SameGrant(r: L.Record, g: L.Grant) {
    r.grant.service == g.service && r.grant.runId == g.runId && r.grant.attemptId == g.attemptId
    && r.grant.boot == g.boot && r.grant.scope == g.scope && r.grant.expiresAt == g.expiresAt && L.Live(r)
  }

  /** The gate's own part of an installation, once the registry has been consulted. */
  ghost function StoreScope(g: Gate, records: map<nat, L.Record>, grant: L.Grant, m: Manifest, now: int): (Gate,
      Result<ScopeEntry>) {
    if grant.leaseId !in records || !SameGrant(records[grant.leaseId], grant) then (g, Raised(LeaseUnverified))
    else if now >= grant.expiresAt then (g, Raised(GrantExpired))
    else if grant.leaseId in g.scopes then
      var known := g.scopes[grant.leaseId];
      if Indexed(known, grant.service, grant.sentinel) && known.entry.scope == m.digest
      then (g, Ok(known.entry)) else (g, Raised(ScopeConflict))
    else if Taken(g.scopes, grant.service, grant.sentinel) then (g, Raised(ScopeConflict))
    else AddScope(g, records, grant, m.bytes + SCOPE_OVERHEAD, now)
  }

  ghost predicate Taken(scopes: map<nat, Scope>, service: nat, sentinel: nat) {
    exists id :: id in scopes && Indexed(scopes[id], service, sentinel)
  }

  /** Over capacity, scopes of leases the registry has forgotten make room first. */
  ghost function Room(g: Gate, records: map<nat, L.Record>, charge: nat, now: int): map<nat, Scope> {
    if OverCapacity(g.scopes, charge) then OnlyKnown(PruneScopes(g.scopes, now), records) else g.scopes
  }

  ghost function AddScope(g: Gate, records: map<nat, L.Record>, grant: L.Grant, charge: nat, now: int): (Gate,
      Result<ScopeEntry>) {
    var room := Room(g, records, charge, now);
    if OverCapacity(room, charge) then (g.(scopes := room), Raised(ScopeCapacity))
    else
      var entry := ScopeEntry(grant.leaseId, grant.runId, grant.attemptId, grant.service, grant.scope, grant.expiresAt,
                              now, g.issued);
      (g.(scopes := room[grant.leaseId := Scope(entry, grant.sentinel, charge)], issued := g.issued + 1), Ok(entry))
  }

  predicate Verified(v: L.Verdict, id: nat) {
    v.leaseId == Some(id) && (v.reason.Authorized? || v.reason == L.NotActive(L.Registered))
  }

  /** `check` and `after` are the registry's readings for its check and its snapshot. */
  ghost function InstallScope(s: Sys, grant: L.Grant, generation: nat, m: Manifest, c: Clocks): (Sys,
      Result<ScopeEntry>) {
    if s.gate.state.Closed? then (s, Raised(ClosedFault))
    else
      var (g, now) := Advance(s.gate, c.tick);
      var s1 := s.(gate := g);
      if now.None? then (s1, Raised(if s.gate.state.Held? then HeldFault else ClockFault))
      else if !(m.service == grant.service && m.runId == grant.runId && m.attemptId == grant.attemptId
                && m.digest == grant.scope)
      then (s1, Raised(ManifestMismatch))
      else if generation != s.reg.generation then (s1, Raised(GenerationMismatch))
      else
        var (t, seen) := L.Tick(s.reg, c.check);
        if seen.Err? then (s1.(reg := t), Raised(LeaseUnverified))
        else
          var (u, v) := L.CheckAt(t, grant.service, grant.sentinel, generation, grant.scope);
          if !Verified(v, grant.leaseId) then (s1.(reg := u), Raised(LeaseUnverified))
          else
            var w := L.Tick(u, c.after).0;
            var (g', r) := StoreScope(g, w.records, grant, m, now.value);
            (Sys(g', w, s.ledger), r)
  }

  predicate Installed(g: Gate, entry: ScopeEntry) {
    entry.leaseId in g.scopes && g.scopes[entry.leaseId].entry == entry
  }

  /** Resolving reads the clock without a tick; a held gate answers from its last reading. */
  ghost function Resolve(g: Gate, service: nat, sentinel: nat, clock: Reading): (Gate, Option<ScopeEntry>) {
    if Taken(g.scopes, service, sentinel) then
      var id :| id in g.scopes && Indexed(g.scopes[id], service, sentinel);
      ResolveAt(g, id, clock)
    else (g, None)
  }

  function ResolveAt(g: Gate, id: nat, clock: Reading): (Gate, Option<ScopeEntry>)
    requires id in g.scopes
  {
    var (r, now) := if g.state.Held? then (g, Some(g.lastNow)) else ReadClock(g, clock);
    if now.None? || now.value - g.scopes[id].entry.installedAt >= STORE_RETENTION then (r, None)
    else (r, Some(g.scopes[id].entry))
  }

  ghost function Precheck(s: Sys, entry: ScopeEntry, sentinel: nat, clock: Reading): (Sys, bool) {
    if !s.gate.state.Ready? || !Installed(s.gate, entry) then (s, false)
    else
      var (t, now) := L.Tick(s.reg, clock);
      if now.Err? then (s.(reg := t), false)
      else
        var (u, v) := L.CheckAt(t, entry.service, sentinel, s.reg.generation, entry.scope);
        (s.(reg := u), v.reason.Authorized? && v.leaseId == Some(entry.leaseId))
  }

  // --- Flights ----------------------------------------------------------------------------------

  function ReserveFault(e: R.Error): Fault { if e.InvalidDeadline? then DeadlineExpired else ReceiptUnavailable }

  function TransitionFault(e: R.Error): Fault { if e.DeadlineExpired? then DeadlineExpired else ReceiptUnavailable }

  datatype Routed = Routed(service: nat, scope: nat, routeId: nat, enabled: bool, requiresPermit: bool)

  datatype Request = Request(digest: nat, bytes: int, deadline: int, charge: nat)

  function MetaFor(entry: ScopeEntry, routeId: nat, req: Request): R.Meta {
    R.Meta(entry.leaseId, entry.attemptId, None, entry.service, routeId, req.digest, req.bytes)
  }

  predicate DenialReason(reason: R.Reason) {
    reason.RequestRejected? || reason.LeaseDenied? || reason.RouteDenied? || reason.PermitDenied? || reason.Deadline?
  }

  ghost function Deny(s: Sys, entry: ScopeEntry, routeId: nat, req: Request, reason: R.Reason, reserve: Reading,
                      finalize: Reading)
    : (Sys, Result<(R.Token, R.Receipt)>)
  {
    if !Installed(s.gate, entry) then (s, Raised(ScopeUnknown))
    else if !DenialReason(reason) then (s, Raised(InvalidReason))
    else
      var (l, token) := R.Reserve(s.ledger, reserve, MetaFor(entry, routeId, req), req.deadline, req.charge);
      if token.Err? then (s.(ledger := l), Raised(ReserveFault(token.error)))
      else
        var (l', r) := R.Finalize(l, finalize, token.value, R.NotDispatched, reason, None);
        (s.(ledger := l'), if r.Ok? then Ok(r.value) else Raised(ReceiptUnavailable))
  }

  ghost function Reserve(s: Sys, entry: ScopeEntry, routed: Routed, req: Request, c: Clocks): (Sys, Result<R.Token>) {
    if s.gate.state.Closed? then (s, Raised(ClosedFault))
    else
      var (g, now) := Advance(s.gate, c.tick);
      var s1 := s.(gate := g);
      if now.None? then (s1, Raised(HeldFault))
      else if !Installed(g, entry) then (s1, Raised(ScopeUnknown))
      else if routed.service != entry.service || routed.scope != entry.scope then (s1, Raised(BindingMismatch))
      else if !routed.enabled then (s1, Raised(RouteUnavailable))
      else if req.deadline > entry.expiresAt then (s1, Raised(DeadlineExceedsLease))
      else if |g.flights| >= MAX_OPEN then (s1, Raised(DispatchCapacity))
      else
        var (l, token) := R.Reserve(s.ledger, c.ledger, MetaFor(entry, routed.routeId, req), req.deadline, req.charge);
        if token.Err? then (s1.(ledger := l), Raised(ReserveFault(token.error)))
        else
          var f := Flight(g.issued, token.value, entry.leaseId, entry.service, entry.scope,
                          g.scopes[entry.leaseId].sentinel,
                          routed.requiresPermit, req.deadline, Waiting, false, None, NoAbort);
          (Sys(g.(flights := g.flights[token.value.id := f], issued := g.issued + 1), s.reg, l),
           Ok(R.Token(token.value.id, g.issued)))
  }

  datatype LeaseCheck = Passed(at: int) | Refused(code: Code)

  /** The lease check between two readings of the gate's own clock. */
  ghost function CheckLease(s: Sys, f: Flight, sentinel: nat, c: Clocks): (Sys, LeaseCheck) {
    var (g1, before) := ReadClock(s.gate, c.before);
    if before.None? then (s.(gate := g1), Refused(GateHeld))
    else
      var (t, now) := L.Tick(s.reg, c.check);
      var (u, v) := if now.Err? then (t, L.Verdict(None, L.Disconnected, 0))
                    else L.CheckAt(t, f.service, sentinel, s.reg.generation, f.scope);
      var (g2, after) := ReadClock(g1, c.after);
      var s2 := Sys(g2, u, s.ledger);
      if after.None? then (s2, Refused(GateHeld))
      else if !(v.reason.Authorized? && v.leaseId == Some(f.leaseId)) then (s2, Refused(LeaseDenied))
      else if !(before.value <= v.at <= after.value) then (s2.(gate := g2.(state := Held)), Refused(GateHeld))
      else (s2, Passed(v.at))
  }

  function Drop(s: Sys, id: nat): Sys { s.(gate := s.gate.(flights := s.gate.flights - {id})) }

  datatype Answer<T> =
    | Granted(value: T)
    | Denied(code: Code, token: R.Token, receipt: R.Receipt)
    | Refusal(fault: Fault)

  /** Finalizes a flight's reservation and removes the flight whatever the ledger says. */
  function FinalizeAndDrop<T>(s: Sys, id: nat, clock: Reading, state: R.DispatchState, reason: R.Reason,
                              code: Code): (Sys, Answer<T>)
    requires id in s.gate.flights
  {
    var (l, r) := R.Finalize(s.ledger, clock, s.gate.flights[id].reservation, state, reason, None);
    (Drop(s.(ledger := l), id), if r.Ok? then Denied(code, r.value.0, r.value.1) else Refusal(TransitionFault(r.error)))
  }

  function DenialOf(code: Code): R.Reason {
    if code.InsufficientTime? then R.Deadline else if code.PermitUnavailable? then R.PermitDenied else R.LeaseDenied
  }

  function DenyAdmission<T>(s: Sys, id: nat, clock: Reading, code: Code): (Sys, Answer<T>)
    requires id in s.gate.flights
  {
    FinalizeAndDrop(s, id, clock, R.NotDispatched, DenialOf(code), code)
  }

  function DenyWrite<T>(s: Sys, id: nat, clock: Reading, code: Code): (Sys, Answer<T>)
    requires id in s.gate.flights
  {
    FinalizeAndDrop(s, id, clock, R.Failed, R.ConnectFailed, code)
  }

  datatype Admission = Admission(token: R.Token, at: int, connectBy: int)

  function FindHandle(g: Gate, handle: R.Token): bool {
    handle.id in g.flights && g.flights[handle.id].handle == handle.mark
  }

  function FindAdmission(g: Gate, token: R.Token): bool {
    token.id in g.flights && g.flights[token.id].admission == Some(token.mark)
  }

  function SetFlight(g: Gate, id: nat, f: Flight): Gate { g.(flights := g.flights[id := f]) }

  /** The ledger transition that makes an admission final. */
  function Connect(s: Sys, id: nat, at: int, clock: Reading): (Sys, Answer<Admission>)
    requires id in s.gate.flights
  {
    var f := s.gate.flights[id];
    var (l, r) := R.BeginConnect(s.ledger, clock, f.reservation);
    var s1 := s.(ledger := l);
    if r.Err? then (Drop(s1, id), Refusal(TransitionFault(r.error)))
    else
      var g := SetFlight(s.gate, id, f.(phase := Admitted, admission := Some(s.gate.issued))).(issued := s.gate.issued
          + 1);
      (s1.(gate := g), Granted(Admission(R.Token(id, s.gate.issued), at,
                                         L.Min(at + CONNECT, f.deadline - RESPONSE_MARGIN))))
  }

  ghost function Admit(s: Sys, handle: R.Token, sentinel: nat, c: Clocks): (Sys, Answer<Admission>) {
    if !FindHandle(s.gate, handle) then (s, Refusal(HandleUnknown))
    else if !s.gate.flights[handle.id].phase.Waiting? then (s, Refusal(HandleConsumed))
    else
      var (g, now) := Advance(s.gate, c.tick);
      var s1, id := s.(gate := g), handle.id;
      if now.None? then DenyAdmission(s1, id, c.ledger, GateHeld)
      else if g.flights[id].overdue then (Drop(s1, id), Refusal(DeadlineExpired))
      else if g.state.Closed? then DenyAdmission(s1, id, c.ledger, GateClosed)
      else if sentinel != g.flights[id].sentinel then DenyAdmission(s1, id, c.ledger, SentinelMismatch)
      else if g.flights[id].requiresPermit then DenyAdmission(s1, id, c.ledger, PermitUnavailable)
      else AdmitChecked(s1, id, sentinel, c)
  }

  ghost function AdmitChecked(s: Sys, id: nat, sentinel: nat, c: Clocks): (Sys, Answer<Admission>)
    requires id in s.gate.flights
  {
    var (s2, check) := CheckLease(s, s.gate.flights[id], sentinel, c);
    if check.Refused? then DenyAdmission(s2, id, c.ledger, check.code)
    else if check.at + RESPONSE_MARGIN + MIN_ADMISSION > s.gate.flights[id].deadline
        then DenyAdmission(s2, id, c.ledger, InsufficientTime)
    else Connect(s2, id, check.at, c.ledger)
  }

  function AttachAbort(g: Gate, token: R.Token): (Gate, Result<bool>) {
    if !FindAdmission(g, token) then (g, Raised(AdmissionUnknown))
    else if !g.state.Ready? || g.flights[token.id].overdue then (g, Ok(false))
    else (SetFlight(g, token.id,
        g.flights[token.id].(abort := if g.flights[token.id].abort.Fired? then Fired else Attached)), Ok(true))
  }

  function Dispatch(s: Sys, id: nat, at: int, clock: Reading): (Sys, Answer<int>)
    requires id in s.gate.flights
  {
    var f := s.gate.flights[id];
    var (l, r) := R.BeginDispatch(s.ledger, clock, f.reservation);
    var s1 := s.(ledger := l);
    if r.Err? then (Drop(s1, id), Refusal(TransitionFault(r.error)))
    else (s1.(gate := SetFlight(s.gate, id, f.(phase := Writing))), Granted(L.Min(at + WRITE,
        f.deadline - RESPONSE_MARGIN)))
  }

  ghost function BeginWrite(s: Sys, token: R.Token, sentinel: nat, c: Clocks): (Sys, Answer<int>) {
    if !FindAdmission(s.gate, token) then (s, Refusal(AdmissionUnknown))
    else if s.gate.flights[token.id].phase.Writing? then (s, Refusal(WriteClaimed))
    else
      var (g, now) := Advance(s.gate, c.tick);
      var s1, id := s.(gate := g), token.id;
      if now.None? then DenyWrite(s1, id, c.ledger, GateHeld)
      else if g.flights[id].overdue then (Drop(s1, id), Refusal(DeadlineExpired))
      else if g.state.Closed? then DenyWrite(s1, id, c.ledger, GateClosed)
      else if sentinel != g.flights[id].sentinel then DenyWrite(s1, id, c.ledger, SentinelMismatch)
      else WriteChecked(s1, id, sentinel, c)
  }

  ghost function WriteChecked(s: Sys, id: nat, sentinel: nat, c: Clocks): (Sys, Answer<int>)
    requires id in s.gate.flights
  {
    var (s2, check) := CheckLease(s, s.gate.flights[id], sentinel, c);
    if check.Refused? then DenyWrite(s2, id, c.ledger, check.code)
    else if s.gate.flights[id].requiresPermit then DenyWrite(s2, id, c.ledger, PermitUnavailable)
    else if check.at + MIN_WRITE > s.gate.flights[id].deadline - RESPONSE_MARGIN
        then DenyWrite(s2, id, c.ledger, InsufficientTime)
    else Dispatch(s2, id, check.at, c.ledger)
  }

  predicate OutcomeError(e: R.Error) {
    e.InvalidTransition? || e.InvalidReason? || e.InvalidUpstreamResponse? || e.InvalidResponse?
  }

  function Finish(s: Sys, token: R.Token, clock: Reading, state: R.DispatchState, reason: R.Reason,
                  upstream: Option<Response>)
    : (Sys, Result<(R.Token, R.Receipt)>)
  {
    if !FindAdmission(s.gate, token) then (s, Raised(AdmissionUnknown))
    else if s.gate.flights[token.id].overdue then (Drop(s, token.id), Raised(DeadlineExpired))
    else
      var (l, r) := R.Finalize(s.ledger, clock, s.gate.flights[token.id].reservation, state, reason, upstream);
      var s1 := s.(ledger := l);
      if r.Ok? then (Drop(s1, token.id), Ok(r.value))
      else if OutcomeError(r.error) then (s1, Raised(InvalidOutcome))
      else (Drop(s1, token.id), Raised(TransitionFault(r.error)))
  }

  /** Either token of a flight releases it. */
  function Release(g: Gate, token: R.Token): (Gate, bool) {
    if FindHandle(g, token) || FindAdmission(g, token) then (g.(flights := g.flights - {token.id}), true)
        else (g, false)
  }

  // --- Closeout and shutdown -----------------------------------------------------------------------

  datatype LeaseView = Known(state: L.LeaseState) | Pruned | Unknown

  datatype CloseoutState = Open | Draining | Overdue | Quiescent | Undecided

  datatype Closeout = Closeout(view: LeaseView, state: CloseoutState, pending: nat, inFlight: nat, overdue: nat,
                               uncertain: nat, drainBy: Option<int>)

  ghost function Entries(l: R.Ledger, leaseId: nat): set<nat> {
    set id | id in l.entries && l.entries[id].meta.leaseId == leaseId
  }

  ghost function PendingIds(l: R.Ledger, leaseId: nat): set<nat> {
    set id | id in Entries(l, leaseId) && l.entries[id].phase.Reserved?
  }

  predicate InFlight(p: R.Phase) { p.Connecting? || p.Dispatched? }

  ghost function InFlightIds(l: R.Ledger, leaseId: nat): set<nat> {
    set id | id in Entries(l, leaseId) && InFlight(l.entries[id].phase)
  }

  predicate Uncertain(p: R.Phase) { p.Finalized? && (p.receipt.state.DispatchedUnknown? || p.receipt.state.Partial?) }

  ghost function UncertainIds(l: R.Ledger, leaseId: nat): set<nat> {
    set id | id in Entries(l, leaseId) && Uncertain(l.entries[id].phase)
  }

  ghost function OverdueIds(g: Gate, leaseId: nat): set<nat> {
    set id | id in g.flights && g.flights[id].leaseId == leaseId && g.flights[id].overdue
  }

  ghost predicate LatestDeadline(l: R.Ledger, ids: set<nat>, drain: Option<int>)
    requires ids <= l.entries.Keys
  {
    if drain.None? then ids == {}
    else (exists id :: id in ids && l.entries[id].deadline == drain.value)
         && forall id | id in ids :: l.entries[id].deadline <= drain.value
  }

  function ViewOf(g: Gate, reg: L.Registry, leaseId: nat): LeaseView {
    if leaseId in reg.records then Known(reg.records[leaseId].state) else if leaseId in g.scopes then Pruned
        else Unknown
  }

  function Decide(gateOk: bool, held: bool, view: LeaseView, overdue: nat, inFlight: nat): CloseoutState {
    if !gateOk || held || view.Unknown? then Undecided
    else if view.Known? && (view.state.Registered? || view.state.Active?) then Open
    else if overdue > 0 then Overdue
    else if inFlight > 0 then Draining
    else Quiescent
  }

  /** The snapshots come first and the gate's own tick last. */
  ghost function CloseoutSys(s: Sys, c: Clocks): (Sys, bool) {
    var (g, now) := Advance(s.gate, c.tick);
    (Sys(g, L.Tick(s.reg, c.check).0, R.Tick(s.ledger, c.ledger).0), now.Some?)
  }

  ghost function CloseoutVerdict(s: Sys, leaseId: nat, c: Clocks): CloseoutState {
    var (s', ok) := CloseoutSys(s, c);
    Decide(ok, s'.reg.held || s'.ledger.held, ViewOf(s'.gate, s'.reg, leaseId), |OverdueIds(s'.gate, leaseId)|,
           |InFlightIds(s'.ledger, leaseId)|)
  }

  function ShutFlight(f: Flight): Flight {
    if (!f.phase.Waiting? || f.overdue) && f.abort.Attached? then f.(abort := Fired) else f
  }

  function ShutFlights(flights: map<nat, Flight>): map<nat, Flight> { map id | id in flights ::
        ShutFlight(flights[id]) }

  ghost function OpenIds(flights: map<nat, Flight>): set<nat> { set id | id in flights && !flights[id].phase.Waiting? }

  ghost function LateIds(flights: map<nat, Flight>): set<nat> { set id | id in flights && flights[id].overdue }

  ghost function AbortedIds(flights: map<nat, Flight>): set<nat> {
    set id | id in flights && ShutFlight(flights[id]) != flights[id]
  }

  function Shutdown(g: Gate): Gate {
    var flights := if g.closed then g.flights else ShutFlights(g.flights);
    g.(closed := true, state := if g.state.Ready? then Closed else g.state, flights := flights)
  }
}
