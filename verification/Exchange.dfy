/** One request exchange driving the gate, interleaved with everything else that happens. */
module Exchange {
  import opened Text
  import opened HttpResponse
  import opened Clock
  import L = Leases
  import R = Receipts
  import opened Gate
  import opened GateInvariant
  import C = Closeout

  // --- What the rest of the system does to one flight ------------------------------------------

  /** The tokens an exchange holds; nobody else presents them. */
  datatype Tokens = Tokens(handle: R.Token, admission: Option<R.Token>)

  predicate Mine(t: Tokens, token: R.Token) { token == t.handle || t.admission == Some(token) }

  /** A step of another handler, of the control session, of a closeout or of the writer. */
  predicate Foreign(op: Op, t: Tokens) {
    match op
    case DoAdmit(handle, _, _) => !Mine(t, handle)
    case DoAttach(token) => !Mine(t, token)
    case DoBeginWrite(token, _, _) => !Mine(t, token)
    case DoFinish(token, _, _, _, _) => !Mine(t, token)
    case DoRelease(token) => !Mine(t, token)
    case _ => true
  }

  ghost predicate SameFlight(f: Flight, f': Flight) {
    f' == f.(overdue := f'.overdue, abort := f'.abort)
  }

  ghost predicate Stays(g: Gate, g': Gate, id: nat) {
    id in g.flights ==> id in g'.flights && SameFlight(g.flights[id], g'.flights[id])
  }

  /** The flight's tokens are exactly the ones this exchange holds. */
  predicate Holds(t: Tokens, f: Flight) {
    && f.handle == t.handle.mark
    && if t.admission.None? then f.admission.None?
       else t.admission.value.id == t.handle.id && f.admission == Some(t.admission.value.mark)
  }

  lemma AdvanceStays(g: Gate, clock: Reading, id: nat)
    ensures Stays(g, Advance(g, clock).0, id)
  {
  }

  lemma CheckLeaseFlights(s: Sys, f: Flight, sentinel: nat, c: Clocks)
    ensures CheckLease(s, f, sentinel, c).0.gate.flights == s.gate.flights
    ensures CheckLease(s, f, sentinel, c).0.ledger == s.ledger
  {
    hide L.Tick, L.CheckAt;
  }

  lemma AdmitStays(s: Sys, handle: R.Token, sentinel: nat, c: Clocks, id: nat)
    requires handle.id != id
    ensures Stays(s.gate, Admit(s, handle, sentinel, c).0.gate, id)
  {
    hide Advance, CheckLease, R.Finalize, R.BeginConnect;
    if FindHandle(s.gate, handle) {
      AdvanceStays(s.gate, c.tick, id);
      AdvanceStays(s.gate, c.tick, handle.id);
      var g := Advance(s.gate, c.tick).0;
      CheckLeaseFlights(s.(gate := g), g.flights[handle.id], sentinel, c);
    }
  }

  lemma WriteStays(s: Sys, token: R.Token, sentinel: nat, c: Clocks, id: nat)
    requires token.id != id
    ensures Stays(s.gate, BeginWrite(s, token, sentinel, c).0.gate, id)
  {
    hide Advance, CheckLease, R.Finalize, R.BeginDispatch;
    if FindAdmission(s.gate, token) {
      AdvanceStays(s.gate, c.tick, id);
      AdvanceStays(s.gate, c.tick, token.id);
      var g := Advance(s.gate, c.tick).0;
      CheckLeaseFlights(s.(gate := g), g.flights[token.id], sentinel, c);
    }
  }

  lemma ReserveStays(s: Sys, entry: ScopeEntry, routed: Routed, req: Request, c: Clocks, id: nat)
    requires Inv(s)
    ensures Stays(s.gate, Reserve(s, entry, routed, req, c).0.gate, id)
  {
    hide Inv, R.Inv, L.Inv, ScopesOk, Linked, Lapsed, Advance, R.Reserve, R.Evolves, Keeps;
    AdvanceStays(s.gate, c.tick, id);
    Parts(s);
    ReserveKeeps(s.ledger, c.ledger, MetaFor(entry, routed.routeId, req), req.deadline, req.charge);
    var (l, token) := R.Reserve(s.ledger, c.ledger, MetaFor(entry, routed.routeId, req), req.deadline, req.charge);
    if id in s.gate.flights { FlightOf(s, id); }
  }

  lemma InstallStays(s: Sys, grant: L.Grant, generation: nat, m: Manifest, c: Clocks, id: nat)
    ensures Stays(s.gate, InstallScope(s, grant, generation, m, c).0.gate, id)
    ensures InstallScope(s, grant, generation, m, c).0.ledger == s.ledger
  {
    hide Advance, L.Tick, L.CheckAt, OverCapacity, Room, Taken, Verified, SameGrant;
    AdvanceStays(s.gate, c.tick, id);
  }

  /** A foreign step leaves the exchange's flight in place, apart from the overdue mark. */
  lemma StepStays(s: Sys, op: Op, t: Tokens)
    requires Inv(s) && Foreign(op, t) && t.handle.id in s.gate.flights && Holds(t, s.gate.flights[t.handle.id])
    ensures Stays(s.gate, Step(s, op).gate, t.handle.id)
  {
    hide Inv, Advance, InstallScope, Precheck, Deny, Reserve, Admit, BeginWrite, L.Step, L.Tick, R.Tick, R.Finalize,
        R.ClaimDelivery, R.CompleteDelivery;
    var id := t.handle.id;
    match op
    case DoNow(clock) => AdvanceStays(s.gate, clock, id);
    case DoInstall(grant, generation, m, c) => InstallStays(s, grant, generation, m, c, id);
    case DoResolve(service, sentinel, clock) =>
    case DoPrecheck(entry, sentinel, clock) =>
      assert Precheck(s, entry, sentinel, clock).0.gate == s.gate by { PrecheckGate(s, entry, sentinel, clock); }
    case DoDeny(entry, routeId, req, reason, r, f) => DenyGate(s, entry, routeId, req, reason, r, f);
    case DoReserve(entry, routed, req, c) => ReserveStays(s, entry, routed, req, c, id);
    case DoAdmit(handle, sentinel, c) =>
      if handle.id == id { UnknownHandle(s, handle, sentinel, c); } else { AdmitStays(s, handle, sentinel, c, id); }
    case DoAttach(token) =>
    case DoBeginWrite(token, sentinel, c) =>
      if token.id == id { UnknownAdmission(s, token, sentinel, c); } else { WriteStays(s, token, sentinel, c, id); }
    case DoFinish(token, clock, state, reason, upstream) =>
    case DoRelease(token) =>
    case DoCloseout(_, c) => AdvanceStays(s.gate, c.tick, id);
    case DoShutdown =>
    case Control(lop) =>
    case DoClaim(clock, token, wire) =>
    case DoComplete(clock, claim, outcome, bytes) =>
  }

  lemma PrecheckGate(s: Sys, entry: ScopeEntry, sentinel: nat, clock: Reading)
    ensures Precheck(s, entry, sentinel, clock).0.gate == s.gate
    ensures Precheck(s, entry, sentinel, clock).0.ledger == s.ledger
  {
    hide L.Tick, L.CheckAt;
  }

  lemma DenyGate(s: Sys, entry: ScopeEntry, routeId: nat, req: Request, reason: R.Reason, reserve: Reading,
                 finalize: Reading)
    ensures Deny(s, entry, routeId, req, reason, reserve, finalize).0.gate == s.gate
  {
    hide R.Reserve, R.Finalize;
  }

  lemma UnknownHandle(s: Sys, handle: R.Token, sentinel: nat, c: Clocks)
    requires !FindHandle(s.gate, handle)
    ensures Admit(s, handle, sentinel, c).0 == s
  {
    hide Advance, AdmitChecked, FinalizeAndDrop;
  }

  lemma UnknownAdmission(s: Sys, token: R.Token, sentinel: nat, c: Clocks)
    requires !FindAdmission(s.gate, token)
    ensures BeginWrite(s, token, sentinel, c).0 == s
  {
    hide Advance, WriteChecked, FinalizeAndDrop;
  }

  // --- The ledger only moves forward ----------------------------------------------------------------

  lemma Forward(l: R.Ledger, l': R.Ledger, skip: Option<nat>)
    requires Keeps(l, l', skip)
    ensures R.Evolves(l, l')
  {
  }

  lemma FinalizeForward(l: R.Ledger, clock: Reading, token: R.Token, state: R.DispatchState, reason: R.Reason,
                        upstream: Option<Response>)
    requires R.Inv(l)
    ensures R.Evolves(l, R.Finalize(l, clock, token, state, reason, upstream).0)
  {
    hide R.Inv, R.Evolves, Keeps, R.Finalize;
    FinalizeKeeps(l, clock, token, state, reason, upstream);
    Forward(l, R.Finalize(l, clock, token, state, reason, upstream).0, Some(token.id));
  }

  lemma AdvanceForward(l: R.Ledger, clock: Reading, token: R.Token, from: R.Phase, to: R.Phase)
    requires R.Inv(l) && ((from.Reserved? && to.Connecting?) || (from.Connecting? && to.Dispatched?))
    ensures R.Evolves(l, R.Advance(l, clock, token, from, to).0)
  {
    hide R.Inv, R.Evolves, Keeps, R.Advance;
    AdvanceKeeps(l, clock, token, from, to);
    Forward(l, R.Advance(l, clock, token, from, to).0, Some(token.id));
  }

  lemma ReserveForward(l: R.Ledger, clock: Reading, meta: R.Meta, deadline: int, charge: nat)
    requires R.Inv(l)
    ensures var l' := R.Reserve(l, clock, meta, deadline, charge).0; R.Inv(l') && R.Evolves(l, l')
  {
    hide R.Inv, R.Evolves, Keeps, R.Reserve;
    ReserveKeeps(l, clock, meta, deadline, charge);
    Forward(l, R.Reserve(l, clock, meta, deadline, charge).0, None);
  }

  lemma AdmitForward(s: Sys, handle: R.Token, sentinel: nat, c: Clocks)
    requires R.Inv(s.ledger)
    ensures R.Evolves(s.ledger, Admit(s, handle, sentinel, c).0.ledger)
  {
    hide R.Inv, R.Evolves, Advance, CheckLease, R.Finalize, R.Advance;
    R.SameEvolves(s.ledger);
    if FindHandle(s.gate, handle) {
      AdvanceStays(s.gate, c.tick, handle.id);
      var g := Advance(s.gate, c.tick).0;
      var f := g.flights[handle.id];
      CheckLeaseFlights(s.(gate := g), f, sentinel, c);
      forall reason ensures R.Evolves(s.ledger,
          R.Finalize(s.ledger, c.ledger, f.reservation, R.NotDispatched, reason, None).0) {
        FinalizeForward(s.ledger, c.ledger, f.reservation, R.NotDispatched, reason, None);
      }
      AdvanceForward(s.ledger, c.ledger, f.reservation, R.Reserved, R.Connecting);
    }
  }

  lemma WriteForward(s: Sys, token: R.Token, sentinel: nat, c: Clocks)
    requires R.Inv(s.ledger)
    ensures R.Evolves(s.ledger, BeginWrite(s, token, sentinel, c).0.ledger)
  {
    hide R.Inv, R.Evolves, Advance, CheckLease, R.Finalize, R.Advance;
    R.SameEvolves(s.ledger);
    if FindAdmission(s.gate, token) {
      AdvanceStays(s.gate, c.tick, token.id);
      var g := Advance(s.gate, c.tick).0;
      var f := g.flights[token.id];
      CheckLeaseFlights(s.(gate := g), f, sentinel, c);
      FinalizeForward(s.ledger, c.ledger, f.reservation, R.Failed, R.ConnectFailed, None);
      AdvanceForward(s.ledger, c.ledger, f.reservation, R.Connecting, R.Dispatched);
    }
  }

  /** The calls that may reach the ledger, one by one. */
  lemma InstallSteadies(s: Sys, grant: L.Grant, generation: nat, m: Manifest, c: Clocks)
    ensures Step(s, DoInstall(grant, generation, m, c)).ledger == s.ledger
  {
    hide InstallScope;
    InstallStays(s, grant, generation, m, c, 0);
  }

  lemma PrecheckSteadies(s: Sys, entry: ScopeEntry, sentinel: nat, clock: Reading)
    ensures Step(s, DoPrecheck(entry, sentinel, clock)).ledger == s.ledger
  {
    hide Precheck;
    PrecheckGate(s, entry, sentinel, clock);
  }

  lemma CloseoutForward(s: Sys, leaseId: nat, c: Clocks)
    requires R.Inv(s.ledger)
    ensures R.Evolves(s.ledger, Step(s, DoCloseout(leaseId, c)).ledger)
  {
    hide R.Inv, R.Evolves, Advance, L.Tick, R.Tick;
    R.TickSteps(s.ledger, c.ledger);
  }

  lemma ClaimForward(l: R.Ledger, clock: Reading, token: R.Token, wire: string)
    requires R.Inv(l)
    ensures R.Evolves(l, R.ClaimDelivery(l, clock, token, wire).0)
  {
    hide R.Inv, R.Evolves, Keeps, R.ClaimDelivery;
    ClaimKeeps(l, clock, token, wire);
    Forward(l, R.ClaimDelivery(l, clock, token, wire).0, None);
  }

  lemma CompleteForward(l: R.Ledger, clock: Reading, claim: R.Token, outcome: R.DeliveryOutcome, bytes: int)
    requires R.Inv(l)
    ensures R.Evolves(l, R.CompleteDelivery(l, clock, claim, outcome, bytes).0)
  {
    hide R.Inv, R.Evolves, Keeps, R.CompleteDelivery;
    CompleteKeeps(l, clock, claim, outcome, bytes);
    Forward(l, R.CompleteDelivery(l, clock, claim, outcome, bytes).0, None);
  }

  /** Which ledger each of the calls leaves behind. */
  lemma LedgerAfter(s: Sys, op: Op)
    ensures match op
            case DoDeny(entry, routeId, req, reason, r, f) =>
              Step(s, op).ledger == Deny(s, entry, routeId, req, reason, r, f).0.ledger
            case DoReserve(entry, routed, req, c) => Step(s, op).ledger == Reserve(s, entry, routed, req, c).0.ledger
            case DoAdmit(handle, sentinel, c) => Step(s, op).ledger == Admit(s, handle, sentinel, c).0.ledger
            case DoBeginWrite(token, sentinel, c) => Step(s, op).ledger == BeginWrite(s, token, sentinel, c).0.ledger
            case DoFinish(token, clock, state, reason, upstream) =>
              Step(s, op).ledger == Finish(s, token, clock, state, reason, upstream).0.ledger
            case DoClaim(clock, token, wire) => Step(s, op).ledger == R.ClaimDelivery(s.ledger, clock, token, wire).0
            case DoComplete(clock, claim, outcome, bytes) =>
              Step(s, op).ledger == R.CompleteDelivery(s.ledger, clock, claim, outcome, bytes).0
            case _ => true
  {
    hide Advance, InstallScope, Resolve, Precheck, Deny, Reserve, Admit, AttachAbort, BeginWrite, Finish, Release,
         CloseoutSys, Shutdown, L.Step, R.ClaimDelivery, R.CompleteDelivery;
  }

  lemma OthersLeaveLedger(s: Sys, op: Op)
    requires op.DoNow? || op.DoResolve? || op.DoAttach? || op.DoRelease? || op.DoShutdown? || op.Control?
    ensures Step(s, op).ledger == s.ledger
  {
    hide Advance, Resolve, AttachAbort, Release, Shutdown, L.Step;
  }

  lemma StepForward(s: Sys, op: Op)
    requires Inv(s)
    ensures R.Evolves(s.ledger, Step(s, op).ledger)
  {
    hide Inv, R.Inv, R.Evolves, Step, Deny, Reserve, Admit, BeginWrite, Finish, R.ClaimDelivery, R.CompleteDelivery;
    Parts(s);
    R.SameEvolves(s.ledger);
    LedgerAfter(s, op);
    match op
    case DoInstall(grant, generation, m, c) => InstallSteadies(s, grant, generation, m, c);
    case DoPrecheck(entry, sentinel, clock) => PrecheckSteadies(s, entry, sentinel, clock);
    case DoDeny(entry, routeId, req, reason, r, f) => DenyForward(s, entry, routeId, req, reason, r, f);
    case DoReserve(entry, routed, req, c) => OpenForward(s, entry, routed, req, c);
    case DoAdmit(handle, sentinel, c) => AdmitForward(s, handle, sentinel, c);
    case DoBeginWrite(token, sentinel, c) => WriteForward(s, token, sentinel, c);
    case DoFinish(token, clock, state, reason, upstream) => FinishForward(s, token, clock, state, reason, upstream);
    case DoCloseout(id, c) => CloseoutForward(s, id, c);
    case DoClaim(clock, token, wire) => ClaimForward(s.ledger, clock, token, wire);
    case DoComplete(clock, claim, outcome, bytes) => CompleteForward(s.ledger, clock, claim, outcome, bytes);
    case _ => OthersLeaveLedger(s, op);
  }

  lemma FinishForward(s: Sys, token: R.Token, clock: Reading, state: R.DispatchState, reason: R.Reason,
                      upstream: Option<Response>)
    requires R.Inv(s.ledger)
    ensures R.Evolves(s.ledger, Finish(s, token, clock, state, reason, upstream).0.ledger)
  {
    hide R.Inv, R.Evolves, R.Finalize;
    R.SameEvolves(s.ledger);
    if FindAdmission(s.gate, token) {
      FinalizeForward(s.ledger, clock, s.gate.flights[token.id].reservation, state, reason, upstream);
    }
  }

  lemma OpenForward(s: Sys, entry: ScopeEntry, routed: Routed, req: Request, c: Clocks)
    requires R.Inv(s.ledger)
    ensures R.Evolves(s.ledger, Reserve(s, entry, routed, req, c).0.ledger)
  {
    hide R.Inv, R.Evolves, R.Reserve, Advance;
    R.SameEvolves(s.ledger);
    ReserveForward(s.ledger, c.ledger, MetaFor(entry, routed.routeId, req), req.deadline, req.charge);
  }

  lemma DenyForward(s: Sys, entry: ScopeEntry, routeId: nat, req: Request, reason: R.Reason, reserve: Reading,
                    finalize: Reading)
    requires R.Inv(s.ledger)
    ensures R.Evolves(s.ledger, Deny(s, entry, routeId, req, reason, reserve, finalize).0.ledger)
  {
    hide R.Inv, R.Evolves, R.Reserve, R.Finalize;
    R.SameEvolves(s.ledger);
    ReserveForward(s.ledger, reserve, MetaFor(entry, routeId, req), req.deadline, req.charge);
    var (l, token) := R.Reserve(s.ledger, reserve, MetaFor(entry, routeId, req), req.deadline, req.charge);
    if token.Ok? {
      FinalizeForward(l, finalize, token.value, R.NotDispatched, reason, None);
      R.IdsOf(s.ledger);
      R.EvolvesTransitive(s.ledger, l, R.Finalize(l, finalize, token.value, R.NotDispatched, reason, None).0);
    }
  }

  // --- The exchange ------------------------------------------------------------------------------------

  datatype Pc =
    | Begin
    | Holding
    | Admitted
    | Connected
    | Attached
    | Fenced
    | Sent
    | Received(response: Response)
    | Closing(state: R.DispatchState, reason: R.Reason, upstream: Option<Response>, fence: bool, again: bool)
    | Releasing
    | Finished

  /** `sends` counts the calls of the channel's send. */
  datatype Exchange = Exchange(pc: Pc, tokens: Tokens, sends: nat, receipt: Option<R.Receipt>)

  /** What the outside world answers at each point. */
  datatype Choice =
    | PreDeny(entry: ScopeEntry, routeId: nat, req: Request, reason: R.Reason, reserve: Reading, finalize: Reading)
    | AskReserve(entry: ScopeEntry, routed: Routed, req: Request, clocks: Clocks)
    | AskAdmit(sentinel: nat, clocks: Clocks)
    | ConnectFails(tls: bool)
    | ChannelOk
    | Attach
    | AskWrite(sentinel: nat, clocks: Clocks)
    | SendFails(late: bool)
    | SendOk
    | ReceiveFails(late: bool)
    | ReceiveGives(response: Response)
    | PolicyRaises
    | PolicySays(reason: R.Reason)
    | AskFinish(clock: Reading)
    | AskRelease

  function Unmapped(fence: bool): (R.DispatchState, R.Reason) {
    if fence then (R.DispatchedUnknown, R.Abandoned) else (R.Failed, R.ConnectFailed)
  }

  function Close(x: Exchange, state: R.DispatchState, reason: R.Reason, upstream: Option<Response>,
                 fence: bool): Exchange {
    x.(pc := Closing(state, reason, upstream, fence, false))
  }

  function Leave(x: Exchange, receipt: Option<R.Receipt>): Exchange { x.(pc := Releasing, receipt := receipt) }

  ghost function Admitting(x: Exchange, s: Sys, sentinel: nat, c: Clocks): (Exchange, Sys) {
    var (s', r) := Admit(s, x.tokens.handle, sentinel, c);
    match r
    case Granted(a) => (x.(pc := Pc.Admitted, tokens := x.tokens.(admission := Some(a.token))), s')
    case Denied(_, _, receipt) => (Leave(x, Some(receipt)), s')
    case Refusal(_) => (Leave(x, None), s')
  }

  ghost function Fencing(x: Exchange, s: Sys, token: R.Token, sentinel: nat, c: Clocks): (Exchange, Sys) {
    var (s', r) := BeginWrite(s, token, sentinel, c);
    match r
    case Granted(_) => (x.(pc := Fenced), s')
    case Denied(_, _, receipt) => (Leave(x, Some(receipt)), s')
    case Refusal(_) => (Leave(x, None), s')
  }

  /** The first attempt falls back once, on an outcome the ledger rejects. */
  function Finishing(x: Exchange, s: Sys, token: R.Token, clock: Reading): (Exchange, Sys)
    requires x.pc.Closing?
  {
    var (s', r) := Finish(s, token, clock, x.pc.state, x.pc.reason, x.pc.upstream);
    if r.Ok? then (Leave(x, Some(r.value.1)), s')
    else if r.fault.InvalidOutcome? && !x.pc.again then
      var (state, reason) := Unmapped(x.pc.fence);
      (x.(pc := Closing(state, reason, None, x.pc.fence, true)), s')
    else (Leave(x, None), s')
  }

  /** One step of the exchange; a choice that does not fit the program point changes nothing. */
  ghost function Act(x: Exchange, s: Sys, choice: Choice): (Exchange, Sys) {
    match (x.pc, choice)
    case (Begin, PreDeny(entry, routeId, req, reason, reserve, finalize)) =>
      var (s', r) := Deny(s, entry, routeId, req, reason, reserve, finalize);
      (x.(pc := Finished, receipt := if r.Ok? then Some(r.value.1) else None), s')
    case (Begin, AskReserve(entry, routed, req, c)) =>
      var (s', r) := Reserve(s, entry, routed, req, c);
      (if r.Ok? then x.(pc := Holding, tokens := Tokens(r.value, None)) else x.(pc := Finished), s')
    case (Holding, AskAdmit(sentinel, c)) => Admitting(x, s, sentinel, c)
    case (Admitted, ConnectFails(tls)) =>
      (Close(x, R.Failed, if tls then R.UpstreamTlsFailed else R.ConnectFailed, None, false), s)
    case (Admitted, ChannelOk) => (x.(pc := Connected), s)
    case (Connected, Attach) =>
      if x.tokens.admission.None? then (x, s)
      else
        var (g, r) := AttachAbort(s.gate, x.tokens.admission.value);
        (if r.Ok? then x.(pc := Pc.Attached) else Close(x, Unmapped(false).0, Unmapped(false).1, None, false),
         s.(gate := g))
    case (Attached, AskWrite(sentinel, c)) =>
      if x.tokens.admission.None? then (x, s) else Fencing(x, s, x.tokens.admission.value, sentinel, c)
    case (Fenced, SendFails(late)) =>
      (Close(x, R.DispatchedUnknown, if late then R.Deadline else R.WriteFailed, None, true).(sends := x.sends + 1), s)
    case (Fenced, SendOk) => (x.(pc := Sent, sends := x.sends + 1), s)
    case (Sent, ReceiveFails(late)) =>
      (Close(x, R.DispatchedUnknown, if late then R.Deadline else R.ReceiveFailed, None, true), s)
    case (Sent, ReceiveGives(response)) =>
      (if Serializable(response) then x.(pc := Received(response))
          else Close(x, R.DispatchedUnknown, R.MalformedResponse, None, true), s)
    case (Received(_), PolicyRaises) => (Close(x, Unmapped(true).0, Unmapped(true).1, None, true), s)
    case (Received(response), PolicySays(reason)) => (Close(x, R.TransportConfirmed, reason, Some(response), true), s)
    case (Closing(_, _, _, _, _), AskFinish(clock)) =>
      if x.tokens.admission.None? then (x, s) else Finishing(x, s, x.tokens.admission.value, clock)
    case (Releasing, AskRelease) => (x.(pc := Finished), s.(gate := Release(s.gate, x.tokens.handle).0))
    case _ => (x, s)
  }

  // --- The invariant of an exchange ----------------------------------------------------------------------

  /** The write fence has been passed for this entry: whatever is recorded for it later says
      that bytes may have been sent. */
  ghost predicate PastFence(l: R.Ledger, id: nat) {
    && id < l.issued
    && (id in l.entries ==>
          var p := l.entries[id].phase;
          p.Dispatched? || (p.Finalized? && p.receipt.state != R.NotDispatched && p.receipt.state != R.Failed))
  }

  ghost predicate HasFlight(x: Exchange, s: Sys, phase: FlightPhase) {
    && x.tokens.handle.id in s.gate.flights && Holds(x.tokens, s.gate.flights[x.tokens.handle.id])
    && s.gate.flights[x.tokens.handle.id].phase == phase && (x.tokens.admission.Some? <==> !phase.Waiting?)
  }

  ghost predicate AtPoint(x: Exchange, s: Sys) {
    match x.pc
    case Begin => x.sends == 0 && x.receipt.None?
    case Holding => x.sends == 0 && HasFlight(x, s, Waiting)
    case Admitted => x.sends == 0 && HasFlight(x, s, FlightPhase.Admitted)
    case Connected => x.sends == 0 && HasFlight(x, s, FlightPhase.Admitted)
    case Attached => x.sends == 0 && HasFlight(x, s, FlightPhase.Admitted)
    case Fenced => x.sends == 0 && HasFlight(x, s, Writing) && PastFence(s.ledger, x.tokens.handle.id)
    case Sent => x.sends == 1 && HasFlight(x, s, Writing)
    case Received(response) => x.sends == 1 && HasFlight(x, s, Writing)
    case Closing(state, reason, upstream, fence, again) =>
      && HasFlight(x, s, if fence then Writing else FlightPhase.Admitted)
      && x.sends == (if fence then 1 else 0)
      && (again ==> (state, reason) == Unmapped(fence) && upstream.None?)
    case Releasing => x.sends <= 1
    case Finished => x.sends <= 1
  }

  ghost predicate Honest(x: Exchange) {
    x.receipt.Some? && (x.receipt.value.state == R.NotDispatched || x.receipt.value.state == R.Failed) ==> x.sends == 0
  }

  ghost predicate ExInv(x: Exchange, s: Sys) {
    && Inv(s) && AtPoint(x, s) && Honest(x)
    && (x.receipt.Some? ==> x.pc.Releasing? || x.pc.Finished?)
    && (x.sends > 0 ==> PastFence(s.ledger, x.tokens.handle.id))
  }

  lemma PastFenceStays(l: R.Ledger, l': R.Ledger, id: nat)
    requires PastFence(l, id) && R.Evolves(l, l')
    ensures PastFence(l', id)
  {
  }

  lemma ForeignKeeps(x: Exchange, s: Sys, op: Op)
    requires ExInv(x, s) && Foreign(op, x.tokens)
    ensures ExInv(x, Step(s, op))
  {
    hide Inv, Step, R.Evolves, PastFence, Honest;
    StepSteps(s, op);
    StepForward(s, op);
    if x.sends > 0 || x.pc.Fenced? { PastFenceStays(s.ledger, Step(s, op).ledger, x.tokens.handle.id); }
    if x.tokens.handle.id in s.gate.flights && Holds(x.tokens, s.gate.flights[x.tokens.handle.id]) { StepStays(s, op,
        x.tokens); }
  }

  // --- The exchange's own steps ---------------------------------------------------------------------------

  lemma ReserveGives(s: Sys, entry: ScopeEntry, routed: Routed, req: Request, c: Clocks)
    requires Inv(s)
    ensures var (s', r) := Reserve(s, entry, routed, req, c);
            r.Ok? ==> && r.value.id in s'.gate.flights && s'.gate.flights[r.value.id].handle == r.value.mark
                      && s'.gate.flights[r.value.id].phase.Waiting? && s'.gate.flights[r.value.id].admission.None?
  {
    hide Inv, Advance, R.Reserve;
  }

  lemma AdmitKeepsHandle(s: Sys, handle: R.Token, sentinel: nat, c: Clocks)
    requires Inv(s)
    ensures var (s', r) := Admit(s, handle, sentinel, c);
            r.Granted? ==> && handle.id in s'.gate.flights && s'.gate.flights[handle.id].handle == handle.mark
                           && r.value.token.id == handle.id
  {
    hide Inv, Advance, CheckLease, R.Finalize, R.BeginConnect;
    if FindHandle(s.gate, handle) {
      AdvanceStays(s.gate, c.tick, handle.id);
      var g := Advance(s.gate, c.tick).0;
      CheckLeaseFlights(s.(gate := g), g.flights[handle.id], sentinel, c);
    }
  }

  lemma WriteKeepsTokens(s: Sys, token: R.Token, sentinel: nat, c: Clocks)
    requires Inv(s) && token.id in s.gate.flights
    ensures var (s', r) := BeginWrite(s, token, sentinel, c);
            r.Granted? ==>
              && token.id in s'.gate.flights
              && s'.gate.flights[token.id].handle == s.gate.flights[token.id].handle
              && s'.gate.flights[token.id].admission == s.gate.flights[token.id].admission
  {
    hide Inv, Advance, CheckLease, R.Finalize, R.BeginDispatch;
    if FindAdmission(s.gate, token) {
      AdvanceStays(s.gate, c.tick, token.id);
      var g := Advance(s.gate, c.tick).0;
      CheckLeaseFlights(s.(gate := g), g.flights[token.id], sentinel, c);
    }
  }

  lemma BeginActs(x: Exchange, s: Sys, choice: Choice)
    requires ExInv(x, s) && x.pc.Begin?
    ensures ExInv(Act(x, s, choice).0, Act(x, s, choice).1)
  {
    hide Inv, Deny, Reserve, PastFence;
    match choice
    case PreDeny(entry, routeId, req, reason, reserve, finalize) =>
      DenySteps(s, entry, routeId, req, reason, reserve, finalize);
    case AskReserve(entry, routed, req, c) =>
      ReserveSteps(s, entry, routed, req, c);
      ReserveGives(s, entry, routed, req, c);
    case _ =>
  }

  lemma HoldingActs(x: Exchange, s: Sys, choice: Choice)
    requires ExInv(x, s) && x.pc.Holding?
    ensures ExInv(Act(x, s, choice).0, Act(x, s, choice).1)
  {
    hide Inv, Admit, PastFence;
    if choice.AskAdmit? {
      AdmitSteps(s, x.tokens.handle, choice.sentinel, choice.clocks);
      AdmitKeepsHandle(s, x.tokens.handle, choice.sentinel, choice.clocks);
      C.AdmittedMeans(s, x.tokens.handle, choice.sentinel, choice.clocks);
    }
  }

  lemma AttachedActs(x: Exchange, s: Sys, choice: Choice)
    requires ExInv(x, s) && x.pc.Attached?
    ensures ExInv(Act(x, s, choice).0, Act(x, s, choice).1)
  {
    hide Inv, BeginWrite;
    if choice.AskWrite? {
      var token := x.tokens.admission.value;
      BeginWriteSteps(s, token, choice.sentinel, choice.clocks);
      WriteKeepsTokens(s, token, choice.sentinel, choice.clocks);
      C.WriteMeans(s, token, choice.sentinel, choice.clocks);
      var s' := BeginWrite(s, token, choice.sentinel, choice.clocks).0;
      if x.tokens.handle.id in s'.gate.flights { FlightOf(s', x.tokens.handle.id); }
    }
  }

  lemma ConnectedActs(x: Exchange, s: Sys, choice: Choice)
    requires ExInv(x, s) && x.pc.Connected?
    ensures ExInv(Act(x, s, choice).0, Act(x, s, choice).1)
  {
    hide Inv, PastFence;
    AttachSteps(s, x.tokens.admission.value);
  }

  /** A rejected outcome leaves the flight in place. */
  lemma RejectedStays(s: Sys, token: R.Token, clock: Reading, state: R.DispatchState, reason: R.Reason,
                      upstream: Option<Response>)
    requires Finish(s, token, clock, state, reason, upstream).1 == Raised(InvalidOutcome)
    ensures Finish(s, token, clock, state, reason, upstream).0.gate == s.gate
  {
    hide R.Finalize;
  }

  /** A flight is finished only with an outcome that is legal for its entry. */
  lemma FinishedLegal(s: Sys, token: R.Token, clock: Reading, state: R.DispatchState, reason: R.Reason,
                      upstream: Option<Response>)
    requires Inv(s) && Finish(s, token, clock, state, reason, upstream).1.Ok?
    ensures Finish(s, token, clock, state, reason, upstream).1.value.1.state == state
    ensures token.id in s.ledger.entries && R.Legal(s.ledger.entries[token.id].phase, state)
  {
    hide Inv, R.Inv, R.Finalize, R.Evolves, Keeps, R.Legal, FlightOk, OutcomeError, TransitionFault;
    Parts(s);
    FlightId(s, token.id);
    FinalizeKeeps(s.ledger, clock, s.gate.flights[token.id].reservation, state, reason, upstream);
  }

  lemma FaultKinds(e: R.Error)
    ensures TransitionFault(e) != InvalidOutcome
  {
  }

  lemma FlightId(s: Sys, id: nat)
    requires Inv(s) && id in s.gate.flights
    ensures s.gate.flights[id].reservation.id == id
  {
    hide Inv, Linked, Lapsed;
    FlightOf(s, id);
  }

  lemma LeaveInv(x: Exchange, s: Sys, receipt: Option<R.Receipt>)
    requires Inv(s) && x.sends <= 1 && (x.sends > 0 ==> PastFence(s.ledger, x.tokens.handle.id))
        && Honest(x.(receipt := receipt))
    ensures ExInv(Leave(x, receipt), s)
  {
    hide Inv, PastFence;
  }

  lemma AgainInv(x: Exchange, s: Sys, s': Sys)
    requires ExInv(x, s) && x.pc.Closing? && Inv(s') && s'.gate == s.gate
        && (x.sends > 0 ==> PastFence(s'.ledger, x.tokens.handle.id))
    ensures ExInv(x.(pc := Closing(Unmapped(x.pc.fence).0, Unmapped(x.pc.fence).1, None, x.pc.fence, true)), s')
  {
    hide Inv, PastFence;
  }

  lemma ClosingActs(x: Exchange, s: Sys, clock: Reading)
    requires ExInv(x, s) && x.pc.Closing? && x.tokens.admission.Some?
    ensures ExInv(Finishing(x, s, x.tokens.admission.value, clock).0,
            Finishing(x, s, x.tokens.admission.value, clock).1)
  {
    hide Inv, R.Inv, R.Evolves, Finish, PastFence, ExInv, HasFlight;
    var token := x.tokens.admission.value;
    ClosingFacts(x, s);
    var s', r := Finish(s, token, clock, x.pc.state, x.pc.reason, x.pc.upstream).0,
        Finish(s, token, clock, x.pc.state, x.pc.reason, x.pc.upstream).1;
    FinishSteps(s, token, clock, x.pc.state, x.pc.reason, x.pc.upstream);
    FinishForward(s, token, clock, x.pc.state, x.pc.reason, x.pc.upstream);
    if x.sends > 0 { PastFenceStays(s.ledger, s'.ledger, x.tokens.handle.id); }
    if r == Raised(InvalidOutcome) && !x.pc.again {
      RejectedStays(s, token, clock, x.pc.state, x.pc.reason, x.pc.upstream);
      AgainInv(x, s, s');
    } else if r.Raised? {
      LeaveInv(x, s', None);
    } else {
      FinishedLegal(s, token, clock, x.pc.state, x.pc.reason, x.pc.upstream);
      if x.sends > 0 { LegalPastFence(s.ledger, token.id, x.pc.state); }
      LeaveInv(x, s', Some(r.value.1));
    }
  }

  lemma ClosingFacts(x: Exchange, s: Sys)
    requires ExInv(x, s) && x.pc.Closing? && x.tokens.admission.Some?
    ensures Inv(s) && R.Inv(s.ledger) && x.sends <= 1 && x.receipt.None?
        && x.tokens.admission.value.id == x.tokens.handle.id
    ensures x.sends > 0 ==> PastFence(s.ledger, x.tokens.handle.id)
  {
    hide Inv, R.Inv, L.Inv, ScopesOk, PastFence;
    Parts(s);
  }

  lemma LegalPastFence(l: R.Ledger, id: nat, state: R.DispatchState)
    requires PastFence(l, id) && id in l.entries && R.Legal(l.entries[id].phase, state)
    ensures state != R.NotDispatched && state != R.Failed
  {
  }

  lemma ActKeeps(x: Exchange, s: Sys, choice: Choice)
    requires ExInv(x, s)
    ensures ExInv(Act(x, s, choice).0, Act(x, s, choice).1)
  {
    hide Inv, Admit, BeginWrite, Finish, Deny, Reserve, PastFence, AttachAbort;
    match x.pc
    case Begin => BeginActs(x, s, choice);
    case Holding => HoldingActs(x, s, choice);
    case Connected => ConnectedActs(x, s, choice);
    case Attached => AttachedActs(x, s, choice);
    case Closing(_, _, _, _, _) => if choice.AskFinish? { ClosingActs(x, s, choice.clock); }
    case Releasing => ReleaseSteps(s, x.tokens.handle);
    case _ =>
  }

  // --- Interleaved runs -----------------------------------------------------------------------------------------

  datatype Event = Own(choice: Choice) | Other(op: Op)

  /** An exchange step, or a step of anyone else that does not use the exchange's tokens. */
  ghost function Next(x: Exchange, s: Sys, e: Event): (Exchange, Sys) {
    match e
    case Own(choice) => Act(x, s, choice)
    case Other(op) => if Foreign(op, x.tokens) then (x, Step(s, op)) else (x, s)
  }

  ghost function Interleave(x: Exchange, s: Sys, events: seq<Event>): (Exchange, Sys)
    decreases |events|
  {
    if events == [] then (x, s)
    else
      var (x', s') := Next(x, s, events[0]);
      Interleave(x', s', events[1..])
  }

  lemma {:induction false} InterleaveKeeps(x: Exchange, s: Sys, events: seq<Event>)
    requires ExInv(x, s)
    ensures ExInv(Interleave(x, s, events).0, Interleave(x, s, events).1)
    decreases |events|
  {
    hide ExInv, Act, Step;
    if events != [] {
      match events[0] {
        case Own(choice) => ActKeeps(x, s, choice);
        case Other(op) => if Foreign(op, x.tokens) { ForeignKeeps(x, s, op); }
      }
      var (x', s') := Next(x, s, events[0]);
      InterleaveKeeps(x', s', events[1..]);
    }
  }

  function Fresh(unused: R.Token): Exchange { Exchange(Begin, Tokens(unused, None), 0, None) }

  /** Over every interleaving: the channel's send is called at most once; if it was called, the
      ledger records nothing that denies dispatch; and a receipt that denies dispatch means it
      was never called. */
  lemma HonestReceipts(s: Sys, unused: R.Token, events: seq<Event>)
    requires Inv(s)
    ensures var (x, s') := Interleave(Fresh(unused), s, events);
            && x.sends <= 1
            && (x.sends == 1 ==> PastFence(s'.ledger, x.tokens.handle.id))
            && (x.receipt.Some? && (x.receipt.value.state == R.NotDispatched || x.receipt.value.state == R.Failed)
                ==> x.sends == 0)
  {
    hide Inv, Interleave, PastFence, HasFlight;
    InterleaveKeeps(Fresh(unused), s, events);
  }

  /** A send starts only from a passed write fence: first send, flight writing, entry dispatched
      (or since abandoned as dispatched). */
  lemma SendAfterFence(x: Exchange, s: Sys, choice: Choice)
    requires ExInv(x, s) && Act(x, s, choice).0.sends > x.sends
    ensures x.sends == 0 && HasFlight(x, s, Writing) && PastFence(s.ledger, x.tokens.handle.id)
  {
    hide Inv, Admit, BeginWrite, Finish, Deny, Reserve, PastFence, AttachAbort, HasFlight;
  }

  /** The fallback outcome is always legal for the flight's phase. */
  lemma FallbackLegal(x: Exchange, s: Sys, clock: Reading)
    requires ExInv(x, s) && x.pc.Closing? && x.pc.again && x.tokens.admission.Some?
    ensures Finish(s, x.tokens.admission.value, clock, Unmapped(x.pc.fence).0, Unmapped(x.pc.fence).1,
                   None).1 != Raised(InvalidOutcome)
  {
    hide Inv, R.Finalize, PastFence, OutcomeError;
    var token := x.tokens.admission.value;
    FlightOf(s, token.id);
    FallbackFinal(s.ledger, clock, s.gate.flights[token.id], x.pc.fence);
    var e := R.Finalize(s.ledger, clock, s.gate.flights[token.id].reservation, Unmapped(x.pc.fence).0,
                        Unmapped(x.pc.fence).1, None).1;
    if e.Err? { FaultKinds(e.error); }
  }

  lemma FallbackFinal(l: R.Ledger, clock: Reading, f: Flight, fence: bool)
    requires f.phase == (if fence then Writing else FlightPhase.Admitted) && (Linked(f, l) || Lapsed(f, l))
    ensures var r := R.Finalize(l, clock, f.reservation, Unmapped(fence).0, Unmapped(fence).1, None).1;
            r.Err? ==> !OutcomeError(r.error)
  {
    hide R.Tick;
    var (t, now) := R.Tick(l, clock);
    TickFaults(l, clock);
    if now.Ok? && R.Active(t, f.reservation).Ok? {
      OpenUnchanged(l, clock, f.reservation.id);
    }
  }

  lemma TickFaults(l: R.Ledger, clock: Reading)
    ensures var r := R.Tick(l, clock).1; r.Err? ==> !OutcomeError(r.error)
  {
    hide R.Pruned, R.Swept;
  }

  /** The body delivered with a receipt is the one the receipt names, so the ledger's claim on
      its bytes never mismatches. */
  lemma DeliveredBody(l: R.Ledger, clock: Reading, token: R.Token, state: R.DispatchState, reason: R.Reason,
                      upstream: Option<Response>, wire: string)
    requires R.Inv(l)
    ensures var (l', r) := R.Finalize(l, clock, token, state, reason, upstream);
            r.Ok? ==>
              && var body := if state == R.TransportConfirmed && reason == R.Fine then upstream
                             else match R.ClientFor(state, reason) case Some(Local(kind)) =>
                                 Some(R.LocalResponse(kind)) case _ => None;
                 body == Some(r.value.1.client) && Serializable(r.value.1.client)
                 && (Serialize(r.value.1.client) == Some(wire) ==> R.ClaimAt(l', r.value.0, wire).1.Ok?)
  {
    hide R.Inv, R.Tick, Serialize, Serializable, R.LocalResponse;
  }
}
