/** When the gate says yes at its two fences and around them, and to what, against the system as
    the caller finds it. */
module GateAnswers {
  import opened Text
  import opened HttpResponse
  import opened Clock
  import L = Leases
  import R = Receipts
  import LA = LeaseAnswers
  import RA = ReceiptAnswers
  import opened Gate
  import I = GateInvariant
  import C = Closeout

  // --- Readings ---------------------------------------------------------------------------------

  /** The lease check lies between two good readings of the gate, not before its last one. */
  predicate Timely(g: Gate, c: Clocks) {
    && c.before.At? && c.check.At? && c.after.At?
    && g.lastNow <= c.before.now <= c.check.now <= c.after.now
  }

  /** The same with the tick that comes first. */
  predicate InOrder(g: Gate, c: Clocks) {
    c.tick.At? && g.lastNow <= c.tick.now && Timely(g.(lastNow := c.tick.now), c)
  }

  /** The registry authorizes this flight's own lease at the check. */
  ghost predicate Cleared(reg: L.Registry, f: Flight, sentinel: nat, c: Clocks) {
    L.Authorizes(reg, c.check, f.service, sentinel, reg.generation, f.scope, f.leaseId)
  }

  /** The registry after that check. */
  ghost predicate Looked(reg: L.Registry, f: Flight, sentinel: nat, c: Clocks, reg': L.Registry) {
    reg' == L.CheckAt(L.Tick(reg, c.check).0, f.service, sentinel, reg.generation, f.scope).0
  }

  lemma AdvanceAnswers(g: Gate, clock: Reading)
    requires g.lastNow >= 0
    ensures var (g', now) := Advance(g, clock);
            && (now.Some? <==> !g.state.Held? && clock.At? && g.lastNow <= clock.now)
            && (now.Some? ==>
                  && now.value == clock.now && g'.lastNow == clock.now && g'.state == g.state && g'.issued == g.issued
                  && g'.flights.Keys == g.flights.Keys
                  && forall id | id in g.flights ::
                       g'.flights[id] == g.flights[id]
                       || (clock.now >= g.flights[id].deadline && g'.flights[id].overdue))
            && (now.None? ==> g'.state.Held? && g'.flights == g.flights)
            && (now.Some? ==> forall id | id in g.flights ::
                  g'.flights[id].overdue <==> g.flights[id].overdue || clock.now >= g.flights[id].deadline)
  {
    hide PruneScopes;
  }

  /** A lease check passes exactly when the registry authorizes the flight's own lease at an instant
      between two good readings of the gate; otherwise the code says which of the two failed. */
  lemma CheckedExactly(s: Sys, f: Flight, sentinel: nat, c: Clocks)
    requires L.Inv(s.reg) && s.gate.lastNow >= 0
    ensures var (s', r) := CheckLease(s, f, sentinel, c);
            && (r.Passed? <==> Cleared(s.reg, f, sentinel, c) && Timely(s.gate, c))
            && (r.Passed? ==> r.at == c.check.now && Looked(s.reg, f, sentinel, c, s'.reg)
                              && s'.gate == s.gate.(lastNow := c.after.now))
            && s'.gate.flights == s.gate.flights && s'.gate.issued == s.gate.issued && s'.ledger == s.ledger
            && (r.Refused? ==> r.code in {GateHeld, LeaseDenied})
            && (r == Refused(LeaseDenied) ==> !Cleared(s.reg, f, sentinel, c))
            && (r == Refused(GateHeld) ==> !Timely(s.gate, c))
  {
    hide L.Inv, L.Tick, L.CheckAt;
    var (t, now) := L.Tick(s.reg, c.check);
    C.SettledAt(s.reg, c.check);
    C.CheckedAt(t, f.service, sentinel, s.reg.generation, f.scope);
    if !c.check.At? { NoReading(s.reg, c.check); }
  }

  lemma NoReading(reg: L.Registry, clock: Reading)
    requires clock.Fault?
    ensures L.Tick(reg, clock).1.Err?
  {
  }

  // --- The entry behind a flight --------------------------------------------------------------------

  /** The ledger still has the flight's entry open, in the flight's own phase, exactly while its clock
      has not reached the deadline. */
  lemma EntryBehind(s: Sys, id: nat, clock: Reading)
    requires I.Inv(s) && id in s.gate.flights && RA.Usable(s.ledger, clock)
    ensures var f := s.gate.flights[id];
            && R.Inv(s.ledger) && clock.At? && f.reservation.id == id
            && (RA.OpenAt(s.ledger, f.reservation, clock.now) <==> clock.now < f.deadline)
            && (clock.now < f.deadline ==> I.Linked(f, s.ledger))
  {
    hide I.Inv, R.Inv;
    I.FlightOf(s, id);
    I.Parts(s);
  }

  /** The ledger would take a transition of this flight. */
  predicate LedgerReady(l: R.Ledger, f: Flight, clock: Reading) { RA.Usable(l, clock) && clock.now < f.deadline }

  /** The entry of a flight moved to a phase by a reading of the ledger. */
  ghost predicate Moved(l: R.Ledger, l': R.Ledger, id: nat, phase: R.Phase, clock: Reading) {
    id in l.entries && l' == R.Put(R.Tick(l, clock).0, id, l.entries[id].(phase := phase), l.issued)
  }

  lemma TransitionOf(s: Sys, id: nat, clock: Reading)
    requires I.Inv(s) && id in s.gate.flights
    ensures var f := s.gate.flights[id];
            var (l, r) := R.BeginConnect(s.ledger, clock, f.reservation);
            f.phase.Waiting? ==>
              (r.Ok? <==> LedgerReady(s.ledger, f, clock)) && (r.Ok? ==> Moved(s.ledger, l, id, R.Connecting, clock))
    ensures var f := s.gate.flights[id];
            var (l, r) := R.BeginDispatch(s.ledger, clock, f.reservation);
            f.phase.Admitted? ==>
              (r.Ok? <==> LedgerReady(s.ledger, f, clock)) && (r.Ok? ==> Moved(s.ledger, l, id, R.Dispatched, clock))
  {
    hide I.Inv, R.Inv, R.Advance, R.Tick;
    I.Parts(s);
    I.FlightOf(s, id);
    RA.TransitionExactly(s.ledger, clock, s.gate.flights[id].reservation);
    if RA.Usable(s.ledger, clock) { EntryBehind(s, id, clock); }
  }

  // --- Denials ------------------------------------------------------------------------------------------

  /** A refusal at the fence itself, of a flight that was found. */
  predicate Lapses<T>(r: Answer<T>) { r.Refusal? ==> r.fault in {DeadlineExpired, ReceiptUnavailable} }

  lemma Denies<T>(s: Sys, id: nat, clock: Reading, state: R.DispatchState, reason: R.Reason, code: Code)
    requires I.Inv(s) && id in s.gate.flights
    ensures var (s', r) := FinalizeAndDrop<T>(s, id, clock, state, reason, code);
            && !r.Granted? && id !in s'.gate.flights && Lapses(r)
            && (r.Denied? ==> r.code == code && r.receipt.state == state && r.receipt.reason == reason)
  {
    hide I.Inv, R.Inv, R.Finalize;
    I.Parts(s);
    RA.FinalizeExactly(s.ledger, clock, s.gate.flights[id].reservation, state, reason, None);
  }

  /** What a denial code asserts about the system the caller found. */
  ghost predicate Justified(s: Sys, f: Flight, sentinel: nat, c: Clocks, code: Code, least: nat) {
    match code
    case GateHeld => s.gate.state.Held? || !InOrder(s.gate, c)
    case GateClosed => s.gate.state.Closed?
    case SentinelMismatch => sentinel != f.sentinel
    case PermitUnavailable => f.requiresPermit
    case LeaseDenied => !Cleared(s.reg, f, sentinel, c)
    case InsufficientTime => c.check.At? && c.check.now + least > f.deadline
  }

  /** The gate's tick, as both fences use it: past it, a flight in time is the very one found. */
  lemma Ticked(s: Sys, id: nat, clock: Reading)
    requires I.Inv(s) && id in s.gate.flights
    ensures var (g, now) := Advance(s.gate, clock);
            && I.Inv(s.(gate := g)) && g.flights.Keys == s.gate.flights.Keys
            && (now.Some? <==> !s.gate.state.Held? && clock.At? && s.gate.lastNow <= clock.now)
            && (now.Some? ==>
                  && g.lastNow == clock.now && g.state == s.gate.state && g.issued == s.gate.issued
                  && (g.flights[id].overdue <==> clock.now >= s.gate.flights[id].deadline)
                  && (!g.flights[id].overdue ==> g.flights[id] == s.gate.flights[id]))
  {
    hide I.Inv, Advance, I.Linked, I.Lapsed;
    I.Parts(s);
    I.FlightOf(s, id);
    I.AdvanceSteps(s, clock);
    AdvanceAnswers(s.gate, clock);
  }

  // --- The first fence -------------------------------------------------------------------------------

  /** Everything an admission asks of the system the caller finds. */
  ghost predicate MayAdmit(s: Sys, handle: R.Token, sentinel: nat, c: Clocks) {
    && handle.id in s.gate.flights
    && var f := s.gate.flights[handle.id];
       && f.handle == handle.mark && f.phase.Waiting? && s.gate.state.Ready? && InOrder(s.gate, c)
       && c.tick.now < f.deadline && sentinel == f.sentinel && !f.requiresPermit
       && Cleared(s.reg, f, sentinel, c) && c.check.now + 2_000 <= f.deadline
       && LedgerReady(s.ledger, f, c.ledger)
  }

  /** The flight `f` admitted under the mark `issued`: stamped with the lease check, connecting for
      5 seconds but not into its last second. */
  ghost predicate AdmittedTo(f: Flight, issued: nat, l: R.Ledger, c: Clocks, s': Sys, id: nat, a: Admission) {
    && c.check.At? && c.after.At? && s'.gate.lastNow == c.after.now && s'.gate.issued == issued + 1
    && a == Admission(R.Token(id, issued), c.check.now, L.Min(c.check.now + 5_000, f.deadline - 1_000))
    && id in s'.gate.flights && s'.gate.flights[id] == f.(phase := Admitted, admission := Some(issued))
    && Moved(l, s'.ledger, id, R.Connecting, c.ledger)
  }

  lemma ConnectExactly(s: Sys, id: nat, at: int, clock: Reading)
    requires I.Inv(s) && id in s.gate.flights && s.gate.flights[id].phase.Waiting?
    ensures var (s', r) := Connect(s, id, at, clock);
            var f := s.gate.flights[id];
            && !r.Denied? && (r.Granted? <==> LedgerReady(s.ledger, f, clock)) && Lapses(r)
            && (r.Granted? ==>
                  && r.value == Admission(R.Token(id, s.gate.issued), at, L.Min(at + 5_000, f.deadline - 1_000))
                  && id in s'.gate.flights
                  && s'.gate.flights[id] == f.(phase := Admitted, admission := Some(s.gate.issued))
                  && s'.gate.lastNow == s.gate.lastNow && s'.gate.issued == s.gate.issued + 1
                  && s'.gate.state == s.gate.state && s'.reg == s.reg
                  && Moved(s.ledger, s'.ledger, id, R.Connecting, clock))
            && (!r.Granted? ==> id !in s'.gate.flights)
  {
    hide I.Inv, LedgerReady, Moved, R.BeginConnect;
    TransitionOf(s, id, clock);
    var (l, t) := R.BeginConnect(s.ledger, clock, s.gate.flights[id].reservation);
    assert t.Ok? <==> LedgerReady(s.ledger, s.gate.flights[id], clock);
  }

  lemma AdmitCheckedExactly(s: Sys, id: nat, sentinel: nat, c: Clocks)
    requires I.Inv(s) && id in s.gate.flights && s.gate.flights[id].phase.Waiting?
    ensures var (s', r) := AdmitChecked(s, id, sentinel, c);
            var f := s.gate.flights[id];
            && (r.Granted? <==>
                  && Cleared(s.reg, f, sentinel, c) && Timely(s.gate, c) && c.check.now + 2_000 <= f.deadline
                  && LedgerReady(s.ledger, f, c.ledger))
            && (r.Granted? ==> AdmittedTo(f, s.gate.issued, s.ledger, c, s', id, r.value)
                               && Looked(s.reg, f, sentinel, c, s'.reg) && s'.gate.state == s.gate.state)
            && (!r.Granted? ==> id !in s'.gate.flights) && Lapses(r)
            && (r.Denied? ==>
                  && r.receipt.state.NotDispatched? && r.receipt.reason == DenialOf(r.code)
                  && (r.code.GateHeld? ==> !Timely(s.gate, c))
                  && (r.code.LeaseDenied? ==> !Cleared(s.reg, f, sentinel, c))
                  && (r.code.InsufficientTime? ==> c.check.At? && c.check.now + 2_000 > f.deadline)
                  && r.code in {GateHeld, LeaseDenied, InsufficientTime})
  {
    hide I.Inv, CheckLease, Connect, FinalizeAndDrop, Cleared, Looked, LedgerReady, Moved;
    var f := s.gate.flights[id];
    I.Parts(s);
    CheckedExactly(s, f, sentinel, c);
    I.CheckLeaseSteps(s, f, sentinel, c);
    var (s2, check) := CheckLease(s, f, sentinel, c);
    if check.Refused? {
      Denies<Admission>(s2, id, c.ledger, R.NotDispatched, DenialOf(check.code), check.code);
    } else if c.check.now + 2_000 > f.deadline {
      Denies<Admission>(s2, id, c.ledger, R.NotDispatched, R.Deadline, InsufficientTime);
    } else {
      ConnectExactly(s2, id, c.check.now, c.ledger);
    }
  }

  /** An admission is granted exactly under `MayAdmit`, and moves flight and entry on together.
      Otherwise the waiting flight is dropped, and a denial says why and records that nothing was
      dispatched. */
  lemma AdmitExactly(s: Sys, handle: R.Token, sentinel: nat, c: Clocks)
    requires I.Inv(s)
    ensures var (s', r) := Admit(s, handle, sentinel, c);
            && (r.Granted? <==> MayAdmit(s, handle, sentinel, c))
            && (r.Granted? ==>
                  && AdmittedTo(s.gate.flights[handle.id], s.gate.issued, s.ledger, c, s', handle.id, r.value)
                  && Looked(s.reg, s.gate.flights[handle.id], sentinel, c, s'.reg) && s'.gate.state.Ready?)
            && (FindHandle(s.gate, handle) && s.gate.flights[handle.id].phase.Waiting? && !r.Granted? ==>
                  handle.id !in s'.gate.flights)
            && (r.Denied? ==>
                  && FindHandle(s.gate, handle) && r.receipt.state.NotDispatched?
                  && r.receipt.reason == (if r.code.InsufficientTime? then R.Deadline
                                          else if r.code.PermitUnavailable? then R.PermitDenied else R.LeaseDenied)
                  && Justified(s, s.gate.flights[handle.id], sentinel, c, r.code, 2_000))
            && (r == Refusal(HandleUnknown) <==> !FindHandle(s.gate, handle))
            && (r == Refusal(HandleConsumed) <==>
                  FindHandle(s.gate, handle) && !s.gate.flights[handle.id].phase.Waiting?)
  {
    hide I.Inv, Advance, AdmitChecked, FinalizeAndDrop, Cleared, Looked, LedgerReady, AdmittedTo;
    if FindHandle(s.gate, handle) && s.gate.flights[handle.id].phase.Waiting? {
      var id := handle.id;
      Ticked(s, id, c.tick);
      var (g, now) := Advance(s.gate, c.tick);
      var s1, f := s.(gate := g), s.gate.flights[id];
      if now.None? {
        Denies<Admission>(s1, id, c.ledger, R.NotDispatched, R.LeaseDenied, GateHeld);
      } else if !g.flights[id].overdue {
        if g.state.Closed? {
          Denies<Admission>(s1, id, c.ledger, R.NotDispatched, R.LeaseDenied, GateClosed);
        } else if sentinel != f.sentinel {
          Denies<Admission>(s1, id, c.ledger, R.NotDispatched, R.LeaseDenied, SentinelMismatch);
        } else if f.requiresPermit {
          Denies<Admission>(s1, id, c.ledger, R.NotDispatched, R.PermitDenied, PermitUnavailable);
        } else {
          AdmitCheckedExactly(s1, id, sentinel, c);
        }
      }
    }
  }

  // --- The second fence ---------------------------------------------------------------------------------

  /** Everything a write asks of the system the caller finds. */
  ghost predicate MayWrite(s: Sys, token: R.Token, sentinel: nat, c: Clocks) {
    && token.id in s.gate.flights
    && var f := s.gate.flights[token.id];
       && f.admission == Some(token.mark) && f.phase.Admitted? && s.gate.state.Ready? && InOrder(s.gate, c)
       && c.tick.now < f.deadline && sentinel == f.sentinel && !f.requiresPermit
       && Cleared(s.reg, f, sentinel, c) && c.check.now + 1_500 <= f.deadline
       && LedgerReady(s.ledger, f, c.ledger)
  }

  /** The flight `f` writing, for 10 seconds from the lease check but not into its last second. */
  ghost predicate WritesTo(f: Flight, l: R.Ledger, c: Clocks, s': Sys, id: nat, until: int) {
    && c.check.At? && c.after.At? && s'.gate.lastNow == c.after.now
    && until == L.Min(c.check.now + 10_000, f.deadline - 1_000)
    && id in s'.gate.flights && s'.gate.flights[id] == f.(phase := Writing)
    && Moved(l, s'.ledger, id, R.Dispatched, c.ledger)
  }

  lemma DispatchExactly(s: Sys, id: nat, at: int, clock: Reading)
    requires I.Inv(s) && id in s.gate.flights && s.gate.flights[id].phase.Admitted?
    ensures var (s', r) := Dispatch(s, id, at, clock);
            var f := s.gate.flights[id];
            && !r.Denied? && (r.Granted? <==> LedgerReady(s.ledger, f, clock)) && Lapses(r)
            && (r.Granted? ==>
                  && r.value == L.Min(at + 10_000, f.deadline - 1_000)
                  && id in s'.gate.flights && s'.gate.flights[id] == f.(phase := Writing)
                  && s'.gate.lastNow == s.gate.lastNow && s'.gate.state == s.gate.state && s'.reg == s.reg
                  && Moved(s.ledger, s'.ledger, id, R.Dispatched, clock))
            && (!r.Granted? ==> id !in s'.gate.flights)
  {
    hide I.Inv, LedgerReady, Moved, R.BeginDispatch;
    TransitionOf(s, id, clock);
    var (l, t) := R.BeginDispatch(s.ledger, clock, s.gate.flights[id].reservation);
    assert t.Ok? <==> LedgerReady(s.ledger, s.gate.flights[id], clock);
  }

  lemma WriteCheckedExactly(s: Sys, id: nat, sentinel: nat, c: Clocks)
    requires I.Inv(s) && id in s.gate.flights && s.gate.flights[id].phase.Admitted?
    ensures var (s', r) := WriteChecked(s, id, sentinel, c);
            var f := s.gate.flights[id];
            && (r.Granted? <==>
                  && Cleared(s.reg, f, sentinel, c) && Timely(s.gate, c) && !f.requiresPermit
                  && c.check.now + 1_500 <= f.deadline && LedgerReady(s.ledger, f, c.ledger))
            && (r.Granted? ==> WritesTo(f, s.ledger, c, s', id, r.value)
                               && Looked(s.reg, f, sentinel, c, s'.reg) && s'.gate.state == s.gate.state)
            && (!r.Granted? ==> id !in s'.gate.flights) && Lapses(r)
            && (r.Denied? ==>
                  && r.receipt.state.Failed? && r.receipt.reason.ConnectFailed?
                  && (r.code.GateHeld? ==> !Timely(s.gate, c))
                  && (r.code.LeaseDenied? ==> !Cleared(s.reg, f, sentinel, c))
                  && (r.code.PermitUnavailable? ==> f.requiresPermit)
                  && (r.code.InsufficientTime? ==> c.check.At? && c.check.now + 1_500 > f.deadline)
                  && r.code in {GateHeld, LeaseDenied, PermitUnavailable, InsufficientTime})
  {
    hide I.Inv, CheckLease, Dispatch, FinalizeAndDrop, Cleared, Looked, LedgerReady, Moved;
    var f := s.gate.flights[id];
    I.Parts(s);
    CheckedExactly(s, f, sentinel, c);
    I.CheckLeaseSteps(s, f, sentinel, c);
    var (s2, check) := CheckLease(s, f, sentinel, c);
    if check.Refused? {
      Denies<int>(s2, id, c.ledger, R.Failed, R.ConnectFailed, check.code);
    } else if f.requiresPermit {
      Denies<int>(s2, id, c.ledger, R.Failed, R.ConnectFailed, PermitUnavailable);
    } else if c.check.now + 1_500 > f.deadline {
      Denies<int>(s2, id, c.ledger, R.Failed, R.ConnectFailed, InsufficientTime);
    } else {
      DispatchExactly(s2, id, c.check.now, c.ledger);
    }
  }

  /** The write fence passes exactly under `MayWrite`, and moves flight and entry on together.
      Otherwise the admitted flight is dropped, and a denial says why and records a failed
      connection. */
  lemma WriteExactly(s: Sys, token: R.Token, sentinel: nat, c: Clocks)
    requires I.Inv(s)
    ensures var (s', r) := BeginWrite(s, token, sentinel, c);
            && (r.Granted? <==> MayWrite(s, token, sentinel, c))
            && (r.Granted? ==>
                  && WritesTo(s.gate.flights[token.id], s.ledger, c, s', token.id, r.value)
                  && Looked(s.reg, s.gate.flights[token.id], sentinel, c, s'.reg) && s'.gate.state.Ready?)
            && (FindAdmission(s.gate, token) && !s.gate.flights[token.id].phase.Writing? && !r.Granted? ==>
                  token.id !in s'.gate.flights)
            && (r.Denied? ==>
                  && FindAdmission(s.gate, token) && r.receipt.state.Failed? && r.receipt.reason.ConnectFailed?
                  && Justified(s, s.gate.flights[token.id], sentinel, c, r.code, 1_500))
            && (r == Refusal(AdmissionUnknown) <==> !FindAdmission(s.gate, token))
            && (r == Refusal(WriteClaimed) <==>
                  FindAdmission(s.gate, token) && s.gate.flights[token.id].phase.Writing?)
  {
    hide I.Inv, Advance, WriteChecked, FinalizeAndDrop, Cleared, Looked, LedgerReady, WritesTo, I.Linked, I.Lapsed;
    if FindAdmission(s.gate, token) && !s.gate.flights[token.id].phase.Writing? {
      var id := token.id;
      I.FlightOf(s, id);
      Ticked(s, id, c.tick);
      var (g, now) := Advance(s.gate, c.tick);
      var s1, f := s.(gate := g), s.gate.flights[id];
      if now.None? {
        Denies<int>(s1, id, c.ledger, R.Failed, R.ConnectFailed, GateHeld);
      } else if !g.flights[id].overdue {
        if g.state.Closed? {
          Denies<int>(s1, id, c.ledger, R.Failed, R.ConnectFailed, GateClosed);
        } else if sentinel != f.sentinel {
          Denies<int>(s1, id, c.ledger, R.Failed, R.ConnectFailed, SentinelMismatch);
        } else {
          WriteCheckedExactly(s1, id, sentinel, c);
        }
      }
    }
  }

  // --- Before and after the fences --------------------------------------------------------------------------

  /** The scope is installed and was so less than 310 seconds ago. */
  predicate Stored(g: Gate, entry: ScopeEntry, now: int) {
    && entry.leaseId in g.scopes && g.scopes[entry.leaseId].entry == entry && now < entry.installedAt + 310_000
  }

  lemma StoredAfter(g: Gate, clock: Reading, entry: ScopeEntry)
    requires Advance(g, clock).1.Some?
    ensures var g' := Advance(g, clock).0;
            (Installed(g', entry) <==> Stored(g, entry, clock.now))
            && (Installed(g', entry) ==> g'.scopes[entry.leaseId] == g.scopes[entry.leaseId])
  {
    hide SweepFlights;
  }

  /** A flight is reserved exactly on a ready gate for an installed scope, on an enabled route of its
      service and scope, with a deadline the lease outlives, a free place, and the ledger's consent; it
      then waits under the ledger's own id. */
  lemma ReserveExactly(s: Sys, entry: ScopeEntry, routed: Routed, req: Request, c: Clocks)
    requires I.Inv(s)
    ensures var (s', r) := Reserve(s, entry, routed, req, c);
            var meta := MetaFor(entry, routed.routeId, req);
            var (l, token) := R.Reserve(s.ledger, c.ledger, meta, req.deadline, req.charge);
            && (r.Ok? <==>
                  && s.gate.state.Ready? && c.tick.At? && s.gate.lastNow <= c.tick.now
                  && Stored(s.gate, entry, c.tick.now)
                  && routed.service == entry.service && routed.scope == entry.scope && routed.enabled
                  && req.deadline <= entry.expiresAt && |s.gate.flights| < 32 && token.Ok?)
            && (r.Ok? ==>
                  && r.value == R.Token(token.value.id, s.gate.issued) && s'.ledger == l && s'.reg == s.reg
                  && s'.gate.state == s.gate.state && s'.gate.lastNow == c.tick.now
                  && token.value.id in s'.gate.flights
                  && s'.gate.flights[token.value.id] ==
                     Flight(s.gate.issued, token.value, entry.leaseId, entry.service, entry.scope,
                            s.gate.scopes[entry.leaseId].sentinel, routed.requiresPermit, req.deadline, Waiting, false,
                            None, NoAbort))
  {
    hide I.Inv, Advance, R.Reserve, MetaFor, R.Inv, L.Inv;
    I.Parts(s);
    AdvanceAnswers(s.gate, c.tick);
    var (g, now) := Advance(s.gate, c.tick);
    assert |g.flights| == |g.flights.Keys| && |s.gate.flights| == |s.gate.flights.Keys|;
    if now.Some? { StoredAfter(s.gate, c.tick, entry); }
    assert now.Some? && !s.gate.state.Closed? <==>
           s.gate.state.Ready? && c.tick.At? && s.gate.lastNow <= c.tick.now;
    var (l, token) := R.Reserve(s.ledger, c.ledger, MetaFor(entry, routed.routeId, req), req.deadline, req.charge);
    var (s', r) := Reserve(s, entry, routed, req, c);
    assert r.Ok? ==> token.Ok?;
  }

  /** Which outcomes a flight can end with. */
  predicate Ends(phase: FlightPhase, state: R.DispatchState) {
    match state
    case NotDispatched => phase.Waiting?
    case Failed => phase.Admitted?
    case DispatchedUnknown => !phase.Waiting?
    case Partial => phase.Writing?
    case TransportConfirmed => phase.Writing?
  }

  /** An outcome in itself: a reason of its state, with an upstream response exactly when confirmed. */
  predicate Outcome(state: R.DispatchState, reason: R.Reason, upstream: Option<Response>) {
    && R.ClientFor(state, reason).Some? && (state.TransportConfirmed? <==> upstream.Some?)
    && (upstream.Some? ==> Serializable(upstream.value))
  }

  /** The receipt a flight ends with. */
  ghost predicate EndsWith(s: Sys, id: nat, clock: Reading, state: R.DispatchState, reason: R.Reason,
                           upstream: Option<Response>, token: R.Token, receipt: R.Receipt) {
    && id in s.ledger.entries && id in s.gate.flights && clock.At? && token == R.Token(id, s.ledger.issued)
    && RA.Records(receipt, s.gate.flights[id].reservation, s.ledger.entries[id], state, reason, upstream, clock.now)
  }

  lemma FinalizeOf(s: Sys, id: nat, clock: Reading, state: R.DispatchState, reason: R.Reason,
                   upstream: Option<Response>)
    requires I.Inv(s) && id in s.gate.flights
    ensures var f := s.gate.flights[id];
            var (l, r) := R.Finalize(s.ledger, clock, f.reservation, state, reason, upstream);
            && (r.Ok? <==>
                  LedgerReady(s.ledger, f, clock) && Ends(f.phase, state) && Outcome(state, reason, upstream))
            && (r.Ok? ==> EndsWith(s, id, clock, state, reason, upstream, r.value.0, r.value.1))
            && (r.Err? ==>
                  l == R.Tick(s.ledger, clock).0 && (OutcomeError(r.error) <==> LedgerReady(s.ledger, f, clock)))
  {
    hide I.Inv, R.Inv, R.Finalize, R.Tick, Serializable, RA.Records, R.ClientFor, RA.Possible, Ends, RA.OpenAt,
        RA.Usable, R.Put;
    I.Parts(s);
    RA.FinalizeExactly(s.ledger, clock, s.gate.flights[id].reservation, state, reason, upstream);
    if RA.Usable(s.ledger, clock) {
      EntryBehind(s, id, clock);
      if clock.now < s.gate.flights[id].deadline { SamePhase(s.gate.flights[id], s.ledger, state); }
    }
  }

  lemma SamePhase(f: Flight, l: R.Ledger, state: R.DispatchState)
    requires I.Linked(f, l)
    ensures RA.Possible(l.entries[f.reservation.id].phase, state) <==> Ends(f.phase, state)
  {
  }

  /** A flight is finished exactly when it is admitted under this token, not marked overdue, the ledger's
      clock is before its deadline, and the outcome is one its phase admits; it is then gone, and its
      receipt says what it was given. */
  lemma FinishExactly(s: Sys, token: R.Token, clock: Reading, state: R.DispatchState, reason: R.Reason,
                      upstream: Option<Response>)
    requires I.Inv(s)
    ensures var (s', r) := Finish(s, token, clock, state, reason, upstream);
            && (r.Ok? <==>
                  && FindAdmission(s.gate, token) && !s.gate.flights[token.id].overdue
                  && LedgerReady(s.ledger, s.gate.flights[token.id], clock)
                  && Ends(s.gate.flights[token.id].phase, state) && Outcome(state, reason, upstream))
            && (r.Ok? ==>
                  && token.id !in s'.gate.flights
                  && EndsWith(s, token.id, clock, state, reason, upstream, r.value.0, r.value.1))
  {
    hide I.Inv, R.Finalize, LedgerReady, Ends, Outcome, EndsWith;
    if FindAdmission(s.gate, token) { FinalizeOf(s, token.id, clock, state, reason, upstream); }
  }

  /** An outcome that does not fit keeps the flight, exactly when everything else would have recorded it;
      any other failure drops it. */
  lemma FinishRejects(s: Sys, token: R.Token, clock: Reading, state: R.DispatchState, reason: R.Reason,
                      upstream: Option<Response>)
    requires I.Inv(s) && FindAdmission(s.gate, token)
    ensures var (s', r) := Finish(s, token, clock, state, reason, upstream);
            var f := s.gate.flights[token.id];
            && (r == Raised(InvalidOutcome) <==>
                  && !f.overdue && LedgerReady(s.ledger, f, clock)
                  && !(Ends(f.phase, state) && Outcome(state, reason, upstream)))
            && (r == Raised(InvalidOutcome) ==> s' == s.(ledger := R.Tick(s.ledger, clock).0))
            && (r != Raised(InvalidOutcome) ==> token.id !in s'.gate.flights)
  {
    hide I.Inv, R.Finalize, R.Tick, LedgerReady, Ends, Outcome, EndsWith, OutcomeError;
    FinalizeOf(s, token.id, clock, state, reason, upstream);
    var f := s.gate.flights[token.id];
    var (l, e) := R.Finalize(s.ledger, clock, f.reservation, state, reason, upstream);
    if e.Err? { assert TransitionFault(e.error) != InvalidOutcome; }
  }

  /** A request may go on exactly when the gate is ready, its scope installed, and its lease authorized. */
  lemma PrecheckExactly(s: Sys, entry: ScopeEntry, sentinel: nat, clock: Reading)
    requires I.Inv(s)
    ensures Precheck(s, entry, sentinel, clock).1 <==>
            && s.gate.state.Ready? && entry.leaseId in s.gate.scopes && s.gate.scopes[entry.leaseId].entry == entry
            && L.Authorizes(s.reg, clock, entry.service, sentinel, s.reg.generation, entry.scope, entry.leaseId)
  {
    hide I.Inv, L.Tick, L.CheckAt;
    var (t, now) := L.Tick(s.reg, clock);
    C.SettledAt(s.reg, clock);
    C.CheckedAt(t, entry.service, sentinel, s.reg.generation, entry.scope);
  }

  // --- Installing ----------------------------------------------------------------------------------------------

  /** The lease of a grant stands: it lasts under the receiver in contact, as the registry recorded it. */
  ghost predicate Stands(reg: L.Registry, clock: Reading, grant: L.Grant, generation: nat) {
    && LA.Usable(reg, clock) && generation == reg.generation && reg.boot.Some?
    && clock.now < reg.lastHeartbeat + 15_000
    && grant.leaseId in reg.records && LA.Lasting(reg.records[grant.leaseId], clock.now)
    && reg.records[grant.leaseId].grant.service == grant.service
    && reg.records[grant.leaseId].grant.sentinel == grant.sentinel
    && (reg.records[grant.leaseId].state.Active? ==> reg.records[grant.leaseId].grant.scope == grant.scope)
  }

  /** The gate has a place for the grant: the very same scope already, or an index nobody has and room. */
  ghost predicate Placed(g: Gate, records: map<nat, L.Record>, grant: L.Grant, m: Manifest, now: int) {
    if grant.leaseId in g.scopes then
      && g.scopes[grant.leaseId].entry.service == grant.service && g.scopes[grant.leaseId].sentinel == grant.sentinel
      && g.scopes[grant.leaseId].entry.scope == m.digest
    else
      && (forall id | id in g.scopes ::
            !(g.scopes[id].entry.service == grant.service && g.scopes[id].sentinel == grant.sentinel))
      && !OverCapacity(Room(g, records, m.bytes + 1_024, now), m.bytes + 1_024)
  }

  /** The registry as an installation leaves it. */
  ghost function Consulted(reg: L.Registry, grant: L.Grant, generation: nat, c: Clocks): L.Registry {
    var u := L.CheckAt(L.Tick(reg, c.check).0, grant.service, grant.sentinel, generation, grant.scope).0;
    L.Tick(u, c.after).0
  }

  lemma StoreExactly(g: Gate, records: map<nat, L.Record>, grant: L.Grant, m: Manifest, now: int)
    ensures var (g', r) := StoreScope(g, records, grant, m, now);
            && (r.Ok? <==>
                  && grant.leaseId in records && SameGrant(records[grant.leaseId], grant) && now < grant.expiresAt
                  && Placed(g, records, grant, m, now))
            && (r.Ok? && grant.leaseId in g.scopes ==> g' == g && r.value == g.scopes[grant.leaseId].entry)
            && (r.Ok? && grant.leaseId !in g.scopes ==>
                  && r.value == ScopeEntry(grant.leaseId, grant.runId, grant.attemptId, grant.service, grant.scope,
                                           grant.expiresAt, now, g.issued)
                  && grant.leaseId in g'.scopes
                  && g'.scopes[grant.leaseId] == Scope(r.value, grant.sentinel, m.bytes + 1_024))
  {
    hide OverCapacity, Room, SameGrant;
  }

  /** A scope is installed exactly on a ready gate, for a manifest of the grant, whose lease stands at the
      check and is live in the same words at the snapshot, before the grant expires, and with a place
      for it. The same installation again answers with the scope on record and changes nothing of it. */
  lemma InstallExactly(s: Sys, grant: L.Grant, generation: nat, m: Manifest, c: Clocks)
    requires I.Inv(s)
    ensures var (s', r) := InstallScope(s, grant, generation, m, c);
            var g, w := Advance(s.gate, c.tick).0, Consulted(s.reg, grant, generation, c);
            && (r.Ok? <==>
                  && s.gate.state.Ready? && c.tick.At? && s.gate.lastNow <= c.tick.now
                  && m.service == grant.service && m.runId == grant.runId && m.attemptId == grant.attemptId
                  && m.digest == grant.scope && Stands(s.reg, c.check, grant, generation)
                  && grant.leaseId in w.records && SameGrant(w.records[grant.leaseId], grant)
                  && c.tick.now < grant.expiresAt && Placed(g, w.records, grant, m, c.tick.now))
            && (r.Ok? ==> (s'.gate, r) == StoreScope(g, w.records, grant, m, c.tick.now) && s'.ledger == s.ledger)
  {
    hide I.Inv, L.Inv, Advance, L.Tick, L.CheckAt, StoreScope, SameGrant, Placed;
    I.Parts(s);
    AdvanceAnswers(s.gate, c.tick);
    LA.RecognizesExactly(s.reg, c.check, grant.service, grant.sentinel, generation, grant.scope, grant.leaseId);
    var g, w := Advance(s.gate, c.tick).0, Consulted(s.reg, grant, generation, c);
    if c.tick.At? { StoreExactly(g, w.records, grant, m, c.tick.now); }
    assert Stands(s.reg, c.check, grant, generation) <==>
           generation == s.reg.generation && L.Tick(s.reg, c.check).1.Ok?
           && Verified(L.CheckAt(L.Tick(s.reg, c.check).0, grant.service, grant.sentinel, generation, grant.scope).1,
                       grant.leaseId);
  }

  // --- Closeout ---------------------------------------------------------------------------------------------

  ghost predicate Late(g: Gate, leaseId: nat) {
    exists id :: id in g.flights && g.flights[id].leaseId == leaseId && g.flights[id].overdue
  }

  ghost predicate Flying(l: R.Ledger, leaseId: nat) {
    exists id :: id in l.entries && l.entries[id].meta.leaseId == leaseId
                 && (l.entries[id].phase.Connecting? || l.entries[id].phase.Dispatched?)
  }

  /** Every verdict, by what the closeout found: nothing can be said of an unknown lease or from a machine
      that is held; a live lease is open; then overdue flights come before entries in flight. */
  lemma VerdictExactly(s: Sys, leaseId: nat, c: Clocks)
    requires I.Inv(s)
    ensures var v := CloseoutVerdict(s, leaseId, c);
            var s' := CloseoutSys(s, c).0;
            var sure := && !s.gate.state.Held? && c.tick.At? && s.gate.lastNow <= c.tick.now
                        && LA.Usable(s.reg, c.check) && RA.Usable(s.ledger, c.ledger)
                        && (leaseId in s'.reg.records || leaseId in s'.gate.scopes);
            var live := leaseId in s'.reg.records && L.Live(s'.reg.records[leaseId]);
            var late, flying := Late(s'.gate, leaseId), Flying(s'.ledger, leaseId);
            && (v.Undecided? <==> !sure)
            && (v.Open? <==> sure && live)
            && (v.Overdue? <==> sure && !live && late)
            && (v.Draining? <==> sure && !live && !late && flying)
            && (v.Quiescent? <==> sure && !live && !late && !flying)
  {
    hide I.Inv, L.Inv, R.Inv, Advance, L.Tick, R.Tick, OverdueIds, InFlightIds, Late, Flying;
    I.Parts(s);
    AdvanceAnswers(s.gate, c.tick);
    HeldAfter(s, c);
    SomeLate(CloseoutSys(s, c).0.gate, leaseId);
    SomeFlying(CloseoutSys(s, c).0.ledger, leaseId);
  }

  lemma SomeLate(g: Gate, leaseId: nat)
    ensures |OverdueIds(g, leaseId)| > 0 <==> Late(g, leaseId)
  {
    SomeMember(OverdueIds(g, leaseId));
    if Late(g, leaseId) {
      var id :| id in g.flights && g.flights[id].leaseId == leaseId && g.flights[id].overdue;
      assert id in OverdueIds(g, leaseId);
    }
  }

  lemma SomeFlying(l: R.Ledger, leaseId: nat)
    ensures |InFlightIds(l, leaseId)| > 0 <==> Flying(l, leaseId)
  {
    SomeMember(InFlightIds(l, leaseId));
    if Flying(l, leaseId) {
      var id :| id in l.entries && l.entries[id].meta.leaseId == leaseId && InFlight(l.entries[id].phase);
      assert id in InFlightIds(l, leaseId);
    }
  }

  lemma SomeMember(s: set<nat>)
    ensures |s| > 0 <==> exists id :: id in s
  {
    if s != {} { var id :| id in s; }
  }

  lemma HeldAfter(s: Sys, c: Clocks)
    requires L.Inv(s.reg) && R.Inv(s.ledger)
    ensures L.Tick(s.reg, c.check).0.held <==> !LA.Usable(s.reg, c.check)
    ensures R.Tick(s.ledger, c.ledger).0.held <==> !RA.Usable(s.ledger, c.ledger)
  {
    hide L.Inv, L.Settle, R.Swept, R.Pruned;
    L.TimeOf(s.reg);
    if LA.Usable(s.reg, c.check) { LA.HeaderAfter(s.reg, c.check); }
  }
}
