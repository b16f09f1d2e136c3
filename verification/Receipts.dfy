/** Dispatch receipts: the reason tables and the ledger as a value, one function per
    locked operation. */
module Receipts {
  import opened Text
  import opened HttpResponse
  import opened Clock
  import opened Counting

  const MAX_RECEIPTS: nat := 2048
  const MAX_RECEIPT_BYTES: nat := 8192
  const MAX_LEDGER_BYTES: nat := 2 * 1024 * 1024
  const RETENTION: nat := 310_000
  const MAX_HANDLER: nat := 40_000
  const MAX_REQUEST_BYTES: nat := 2048 + 16384 + 262144

  // --- Outcomes and the client response each one names ------------------------------------

  datatype DispatchState = NotDispatched | Failed | DispatchedUnknown | Partial | TransportConfirmed

  datatype Reason =
    | RequestRejected | LeaseDenied | RouteDenied | PermitDenied | Deadline | Abandoned
    | ConnectFailed | UpstreamTlsFailed
    | WriteFailed | ReceiveFailed | MalformedResponse
    | ResponseIncomplete | ResponseOverflow
    | Fine | ResponsePolicyRejected

  datatype LocalKind =
    InvalidRequest | Denied | Unavailable | UpstreamFailed | UpstreamUnknown | DeadlinePassed | ResponseRejected

  datatype ClientBody = Upstream | Local(kind: LocalKind)

  /** The client response a reason stands for; `None` when the state has no such reason. */
  function ClientFor(state: DispatchState, reason: Reason): Option<ClientBody> {
    match state
    case NotDispatched =>
      (match reason
       case RequestRejected => Some(Local(InvalidRequest))
       case LeaseDenied => Some(Local(Denied))
       case RouteDenied => Some(Local(Denied))
       case PermitDenied => Some(Local(Denied))
       case Deadline => Some(Local(DeadlinePassed))
       case Abandoned => Some(Local(Unavailable))
       case _ => None)
    case Failed =>
      (match reason
       case ConnectFailed => Some(Local(UpstreamFailed))
       case UpstreamTlsFailed => Some(Local(UpstreamFailed))
       case _ => None)
    case DispatchedUnknown =>
      (match reason
       case WriteFailed => Some(Local(UpstreamUnknown))
       case ReceiveFailed => Some(Local(UpstreamUnknown))
       case MalformedResponse => Some(Local(UpstreamUnknown))
       case Abandoned => Some(Local(UpstreamUnknown))
       case Deadline => Some(Local(DeadlinePassed))
       case _ => None)
    case Partial =>
      (match reason
       case ResponseIncomplete => Some(Local(UpstreamUnknown))
       case ResponseOverflow => Some(Local(UpstreamUnknown))
       case _ => None)
    case TransportConfirmed =>
      (match reason
       case Fine => Some(Upstream)
       case ResponsePolicyRejected => Some(Local(ResponseRejected))
       case _ => None)
  }

  function LocalResponse(kind: LocalKind): (r: Response)
    ensures Serializable(r)
  {
    match kind
    case InvalidRequest => Response(400, "{\"error\":\"forwarder_invalid_request\"}")
    case Denied => Response(403, "{\"error\":\"forwarder_denied\"}")
    case Unavailable => Response(503, "{\"error\":\"forwarder_unavailable\"}")
    case UpstreamFailed => Response(502, "{\"error\":\"forwarder_upstream_failed\"}")
    case UpstreamUnknown => Response(502, "{\"error\":\"forwarder_dispatch_unknown\"}")
    case DeadlinePassed => Response(504, "{\"error\":\"forwarder_deadline\"}")
    case ResponseRejected => Response(502, "{\"error\":\"forwarder_response_rejected\"}")
  }

  // --- Entries --------------------------------------------------------------------------------

  datatype Meta = Meta(leaseId: nat, attemptId: nat, operationId: Option<nat>, service: nat, routeId: nat,
                       requestDigest: nat, requestBytes: int)

  /** An object handed to a caller: equal values with another mark are forgeries. */
  datatype Token = Token(id: nat, mark: nat)

  /** Digests are injective, so the record keeps the responses themselves. */
  datatype Receipt = Receipt(
    id: nat, meta: Meta, state: DispatchState, reason: Reason,
    upstream: Option<Response>, client: Response, started: int, completed: int)

  datatype Delivery = Pending | Sending(claim: nat) | Ended(claim: nat, outcome: DeliveryOutcome, bytes: int)

  datatype DeliveryOutcome = Sent | NotSent | SendUnknown

  /** `handed` marks the receipt object returned to the caller; the sweep hands out none. */
  datatype Phase =
    | Reserved
    | Connecting
    | Dispatched
    | Finalized(receipt: Receipt, handed: Option<nat>, delivery: Delivery)

  datatype Entry = Entry(meta: Meta, mark: nat, deadline: int, started: int, charge: nat, phase: Phase)

  predicate Legal(phase: Phase, state: DispatchState) {
    match phase
    case Reserved => state == NotDispatched
    case Connecting => state == Failed || state == DispatchedUnknown
    case Dispatched => state == DispatchedUnknown || state == Partial || state == TransportConfirmed
    case Finalized(_, _, _) => false
  }

  function AbandonedState(phase: Phase): DispatchState {
    if phase.Reserved? then NotDispatched else DispatchedUnknown
  }

  function Close(id: nat, e: Entry, state: DispatchState, reason: Reason, upstream: Option<Response>, now: int): Receipt
    requires ClientFor(state, reason).Some?
    requires ClientFor(state, reason).value.Upstream? ==> upstream.Some?
  {
    var client := match ClientFor(state, reason).value
      case Upstream => upstream.value
      case Local(kind) => LocalResponse(kind);
    Receipt(id, e.meta, state, reason, upstream, client, e.started, now)
  }

  /** Abandonment is stamped at the deadline itself, not when it is noticed. */
  function SweepEntry(id: nat, e: Entry, now: int): Entry {
    if e.phase.Finalized? || now < e.deadline then e
    else e.(phase := Finalized(Close(id, e, AbandonedState(e.phase), Abandoned, None, e.deadline), None, Pending))
  }

  predicate Retained(e: Entry, now: int) {
    e.phase.Finalized? ==> now - e.phase.receipt.completed < RETENTION
  }

  function Swept(entries: map<nat, Entry>, now: int): map<nat, Entry> {
    map id | id in entries :: SweepEntry(id, entries[id], now)
  }

  function Pruned(entries: map<nat, Entry>, now: int): map<nat, Entry> {
    map id | id in entries && Retained(entries[id], now) :: entries[id]
  }

  // --- Charges -----------------------------------------------------------------------------------

  ghost function Charges(entries: map<nat, Entry>): nat {
    if entries == map[] then 0
    else
      var id :| id in entries;
      entries[id].charge + Charges(entries - {id})
  }

  lemma {:induction false} ChargesRemove(entries: map<nat, Entry>, id: nat)
    requires id in entries
    ensures Charges(entries) == entries[id].charge + Charges(entries - {id})
  {
    var k :| k in entries && Charges(entries) == entries[k].charge + Charges(entries - {k});
    if k != id {
      ChargesRemove(entries - {k}, id);
      ChargesRemove(entries - {id}, k);
      assert entries - {k} - {id} == entries - {id} - {k};
    }
  }

  lemma ChargesAdd(entries: map<nat, Entry>, id: nat, e: Entry)
    requires id !in entries
    ensures Charges(entries[id := e]) == Charges(entries) + e.charge
  {
    ChargesRemove(entries[id := e], id);
    assert entries[id := e] - {id} == entries;
  }

  lemma {:induction false} ChargesReplace(a: map<nat, Entry>, b: map<nat, Entry>)
    requires a.Keys == b.Keys && forall id | id in a :: a[id].charge == b[id].charge
    ensures Charges(a) == Charges(b)
    decreases |a|
  {
    if a.Keys == {} {
      assert a == map[] && b == map[];
    } else {
      var id :| id in a;
      assert id in b.Keys;
      ChargesRemove(a, id);
      ChargesRemove(b, id);
      assert (a - {id}).Keys == a.Keys - {id};
      assert (b - {id}).Keys == b.Keys - {id};
      ChargesReplace(a - {id}, b - {id});
    }
  }

  // --- The ledger ------------------------------------------------------------------------------------

  datatype Ledger = Ledger(entries: map<nat, Entry>, lastNow: int, held: bool, issued: nat)

  datatype Error =
    | LedgerHeld | ClockInvalid | ClockRegressed
    | InvalidRequestBytes | InvalidDeadline | CapacityRecords | ReceiptTooLarge | CapacityBytes
    | ReservationUnknown | ReservationFinalized | DeadlineExpired | InvalidTransition
    | InvalidReason | InvalidUpstreamResponse | InvalidResponse
    | ReceiptUnknown | ReceiptMismatch | DeliveryClaimed
    | ClaimUnknown | DeliveryCompleted | InvalidBytesSent

  datatype Outcome<+T> = Ok(value: T) | Err(error: Error)

  /** `lastNow` starts at zero, below which no reading is usable anyway. */
  const EMPTY: Ledger := Ledger(map[], 0, false, 0)

  /** One clock read: a fault holds the ledger for good; a good reading sweeps and prunes. */
  function Tick(l: Ledger, clock: Reading): (Ledger, Outcome<int>) {
    if l.held then (l, Err(LedgerHeld))
    else if clock.Fault? || clock.now < 0 then (l.(held := true), Err(ClockInvalid))
    else if clock.now < l.lastNow then (l.(held := true), Err(ClockRegressed))
    else (l.(lastNow := clock.now, entries := Pruned(Swept(l.entries, clock.now), clock.now)), Ok(clock.now))
  }

  ghost function Reserve(l: Ledger, clock: Reading, meta: Meta, deadline: int, charge: nat): (Ledger, Outcome<Token>) {
    var (t, now) := Tick(l, clock);
    if now.Err? then (t, Err(now.error)) else ReserveAt(t, meta, deadline, charge)
  }

  /** The part of `Reserve` after a good reading, which is now the ledger's own. */
  ghost function ReserveAt(t: Ledger, meta: Meta, deadline: int, charge: nat): (Ledger, Outcome<Token>) {
    if !(0 <= meta.requestBytes <= MAX_REQUEST_BYTES) then (t, Err(InvalidRequestBytes))
    else if !(t.lastNow < deadline <= t.lastNow + MAX_HANDLER) then (t, Err(InvalidDeadline))
    else if |t.entries| >= MAX_RECEIPTS then (t, Err(CapacityRecords))
    else if charge > MAX_RECEIPT_BYTES then (t, Err(ReceiptTooLarge))
    else if Charges(t.entries) + charge > MAX_LEDGER_BYTES then (t, Err(CapacityBytes))
    else
      var e := Entry(meta, t.issued, deadline, t.lastNow, charge, Reserved);
      (t.(entries := t.entries[t.issued := e], issued := t.issued + 1), Ok(Token(t.issued, t.issued)))
  }

  /** The entry a reservation still acts on. */
  function Active(t: Ledger, token: Token): (r: Outcome<Entry>)
    ensures r.Ok? ==>
      token.id in t.entries && r.value == t.entries[token.id] && !r.value.phase.Finalized?
      && r.value.mark == token.mark
  {
    if token.id !in t.entries || t.entries[token.id].mark != token.mark then Err(ReservationUnknown)
    else
      var e := t.entries[token.id];
      if !e.phase.Finalized? then Ok(e)
      else if e.phase.handed.None? then Err(DeadlineExpired)
      else Err(ReservationFinalized)
  }

  function Put(t: Ledger, id: nat, e: Entry, issued: nat): Ledger {
    t.(entries := t.entries[id := e], issued := issued)
  }

  function Advance(l: Ledger, clock: Reading, token: Token, from: Phase, to: Phase): (Ledger, Outcome<()>) {
    var (t, now) := Tick(l, clock);
    if now.Err? then (t, Err(now.error)) else AdvanceAt(t, token, from, to)
  }

  function AdvanceAt(t: Ledger, token: Token, from: Phase, to: Phase): (Ledger, Outcome<()>) {
    var e := Active(t, token);
    if e.Err? then (t, Err(e.error))
    else if e.value.phase != from then (t, Err(InvalidTransition))
    else (Put(t, token.id, e.value.(phase := to), t.issued), Ok(()))
  }

  function BeginConnect(l: Ledger, clock: Reading, token: Token): (Ledger, Outcome<()>) {
    Advance(l, clock, token, Reserved, Connecting)
  }

  function BeginDispatch(l: Ledger, clock: Reading, token: Token): (Ledger, Outcome<()>) {
    Advance(l, clock, token, Connecting, Dispatched)
  }

  function Finalize(l: Ledger, clock: Reading, token: Token, state: DispatchState, reason: Reason,
                    upstream: Option<Response>)
    : (Ledger, Outcome<(Token, Receipt)>)
  {
    var (t, now) := Tick(l, clock);
    if now.Err? then (t, Err(now.error)) else FinalizeAt(t, token, state, reason, upstream)
  }

  function FinalizeAt(t: Ledger, token: Token, state: DispatchState, reason: Reason, upstream: Option<Response>)
    : (Ledger, Outcome<(Token, Receipt)>)
  {
    var e := Active(t, token);
    if e.Err? then (t, Err(e.error))
    else if !Legal(e.value.phase, state) then (t, Err(InvalidTransition))
    else if ClientFor(state, reason).None? then (t, Err(InvalidReason))
    else if state.TransportConfirmed? != upstream.Some? then (t, Err(InvalidUpstreamResponse))
    else if upstream.Some? && !Serializable(upstream.value) then (t, Err(InvalidResponse))
    else
      var receipt := Close(token.id, e.value, state, reason, upstream, t.lastNow);
      var closed := e.value.(phase := Finalized(receipt, Some(t.issued), Pending));
      (Put(t, token.id, closed, t.issued + 1), Ok((Token(token.id, t.issued), receipt)))
  }

  function ClaimDelivery(l: Ledger, clock: Reading, token: Token, wire: string): (Ledger, Outcome<Token>) {
    var (t, now) := Tick(l, clock);
    if now.Err? then (t, Err(now.error)) else ClaimAt(t, token, wire)
  }

  /** The wire bytes stand for their digest. */
  function ClaimAt(t: Ledger, token: Token, wire: string): (Ledger, Outcome<Token>) {
    if token.id !in t.entries then (t, Err(ReceiptUnknown))
    else
      var e := t.entries[token.id];
      if !e.phase.Finalized? || e.phase.handed != Some(token.mark) then (t, Err(ReceiptUnknown))
      else if Serialize(e.phase.receipt.client) != Some(wire) then (t, Err(ReceiptMismatch))
      else if !e.phase.delivery.Pending? then (t, Err(DeliveryClaimed))
      else
        var claimed := e.(phase := e.phase.(delivery := Sending(t.issued)));
        (Put(t, token.id, claimed, t.issued + 1), Ok(Token(token.id, t.issued)))
  }

  function ClaimOf(d: Delivery): Option<nat> {
    if d.Pending? then None else Some(d.claim)
  }

  function WireBytes(r: Response): int {
    var wire := Serialize(r);
    if wire.Some? then |wire.value| else 0
  }

  predicate BytesOk(client: Response, outcome: DeliveryOutcome, bytes: int) {
    var all := WireBytes(client);
    0 <= bytes <= all && (outcome.Sent? ==> bytes == all) && (outcome.NotSent? ==> bytes == 0)
  }

  function CompleteDelivery(l: Ledger, clock: Reading, claim: Token, outcome: DeliveryOutcome, bytes: int): (Ledger,
      Outcome<()>) {
    var (t, now) := Tick(l, clock);
    if now.Err? then (t, Err(now.error)) else CompleteAt(t, claim, outcome, bytes)
  }

  function CompleteAt(t: Ledger, claim: Token, outcome: DeliveryOutcome, bytes: int): (Ledger, Outcome<()>) {
    if claim.id !in t.entries then (t, Err(ClaimUnknown))
    else
      var e := t.entries[claim.id];
      if !e.phase.Finalized? || ClaimOf(e.phase.delivery) != Some(claim.mark) then (t, Err(ClaimUnknown))
      else if !e.phase.delivery.Sending? then (t, Err(DeliveryCompleted))
      else if !BytesOk(e.phase.receipt.client, outcome, bytes) then (t, Err(InvalidBytesSent))
      else
        var done := e.(phase := e.phase.(delivery := Ended(claim.mark, outcome, bytes)));
        (Put(t, claim.id, done, t.issued), Ok(()))
  }

  // --- What every ledger satisfies ----------------------------------------------------------------------

  /** The delivery record agrees with the receipt it delivers. */
  ghost predicate DeliveryOk(client: Response, d: Delivery) {
    d.Ended? ==> BytesOk(client, d.outcome, d.bytes)
  }

  /** A receipt names its reservation, a reason of its state, and the one client response
      that reason stands for. */
  ghost predicate ReceiptOk(id: nat, e: Entry, r: Receipt) {
    && r.id == id && r.meta == e.meta && r.started == e.started
    && r.started <= r.completed <= e.deadline
    && ClientFor(r.state, r.reason).Some?
    && (r.state.TransportConfirmed? <==> r.upstream.Some?)
    && Serializable(r.client)
    && r.client == match ClientFor(r.state, r.reason).value
         case Upstream => if r.upstream.Some? then r.upstream.value else r.client
         case Local(kind) => LocalResponse(kind)
  }

  ghost predicate EntryOk(id: nat, e: Entry, issued: nat) {
    && id < issued && e.mark < issued
    && 0 <= e.started < e.deadline <= e.started + MAX_HANDLER
    && (e.phase.Finalized? ==>
          && ReceiptOk(id, e, e.phase.receipt)
          && DeliveryOk(e.phase.receipt.client, e.phase.delivery)
          && (e.phase.handed.Some? ==> e.phase.handed.value < issued)
          && (e.phase.handed.None? ==> e.phase.delivery.Pending? && e.phase.receipt.completed == e.deadline)
          && (!e.phase.delivery.Pending? ==> e.phase.delivery.claim < issued))
  }

  /** Nothing open is past its deadline and nothing closed is past its retention. */
  ghost predicate Timely(e: Entry, now: int) {
    && e.started <= now
    && (if e.phase.Finalized? then e.phase.receipt.completed <= now < e.phase.receipt.completed + RETENTION
        else now < e.deadline)
  }

  ghost predicate Inv(l: Ledger) {
    && l.lastNow >= 0
    && (forall id | id in l.entries :: EntryOk(id, l.entries[id], l.issued) && Timely(l.entries[id], l.lastNow))
    && |l.entries| <= MAX_RECEIPTS
    && Charges(l.entries) <= MAX_LEDGER_BYTES
  }

  // --- How entries evolve ----------------------------------------------------------------------------------

  /** Which final states are still reachable from a phase: dispatch is never forgotten. */
  ghost predicate Reachable(phase: Phase, state: DispatchState) {
    match phase
    case Reserved => true
    case Connecting => state != NotDispatched
    case Dispatched => state != NotDispatched && state != Failed
    case Finalized(r, _, _) => r.state == state
  }

  ghost predicate DeliveryEvolves(d: Delivery, d': Delivery) {
    match d
    case Pending => true
    case Sending(c) => !d'.Pending? && d'.claim == c
    case Ended(_, _, _) => d' == d
  }

  ghost predicate PhaseEvolves(p: Phase, p': Phase) {
    match p'
    case Reserved => p.Reserved?
    case Connecting => p.Reserved? || p.Connecting?
    case Dispatched => !p.Finalized?
    case Finalized(r, handed, d) =>
      Reachable(p, r.state) && (p.Finalized? ==> p.receipt == r && p.handed == handed && DeliveryEvolves(p.delivery, d))
  }

  ghost predicate EntryEvolves(e: Entry, e': Entry) {
    && e'.meta == e.meta && e'.mark == e.mark && e'.deadline == e.deadline
    && e'.started == e.started && e'.charge == e.charge
    && PhaseEvolves(e.phase, e'.phase)
  }

  /** Later ledgers: time and holds only grow, ids never return, entries only move forward. */
  ghost predicate Evolves(l: Ledger, l': Ledger) {
    && l.lastNow <= l'.lastNow && l.issued <= l'.issued && (l.held ==> l'.held)
    && forall id | id in l'.entries ::
         if id in l.entries then EntryEvolves(l.entries[id], l'.entries[id]) else id >= l.issued
  }

  lemma EvolvesTransitive(a: Ledger, b: Ledger, c: Ledger)
    requires Evolves(a, b) && Evolves(b, c) && forall id | id in a.entries :: id < a.issued
    ensures Evolves(a, c)
  {
    hide EntryEvolves;
    forall id | id in c.entries && id in a.entries ensures EntryEvolves(a.entries[id], c.entries[id]) {
      EntryTransitive(a.entries[id], b.entries[id], c.entries[id]);
    }
  }

  lemma EntryTransitive(a: Entry, b: Entry, c: Entry)
    requires EntryEvolves(a, b) && EntryEvolves(b, c)
    ensures EntryEvolves(a, c)
  {
  }

  // --- Every step keeps the invariant and moves forward -----------------------------------------------------------

  lemma SweepEntryOk(id: nat, e: Entry, last: int, now: int, issued: nat)
    requires EntryOk(id, e, issued) && Timely(e, last) && last <= now
    ensures var s := SweepEntry(id, e, now);
            EntryOk(id, s, issued) && EntryEvolves(e, s) && (Retained(s, now) ==> Timely(s, now))
  {
  }

  lemma TickSteps(l: Ledger, clock: Reading)
    requires Inv(l)
    ensures var (t, now) := Tick(l, clock);
            && Inv(t) && Evolves(l, t) && t.issued == l.issued && t.entries.Keys <= l.entries.Keys
            && (now.Ok? ==> now.value == t.lastNow && !t.held)
  {
    var (t, now) := Tick(l, clock);
    if now.Ok? {
      forall id | id in t.entries
        ensures EntryOk(id, t.entries[id], t.issued) && Timely(t.entries[id], t.lastNow)
        ensures EntryEvolves(l.entries[id], t.entries[id])
      {
        SweepEntryOk(id, l.entries[id], l.lastNow, t.lastNow, l.issued);
      }
      PruneCharges(l.entries, t.lastNow);
    } else {
      forall id | id in t.entries ensures EntryEvolves(l.entries[id], t.entries[id]) {}
    }
  }

  lemma PruneCharges(entries: map<nat, Entry>, now: int)
    ensures var kept := Pruned(Swept(entries, now), now);
            Charges(kept) <= Charges(entries) && |kept| <= |entries|
  {
    var swept := Swept(entries, now);
    assert swept.Keys == entries.Keys;
    ChargesReplace(entries, swept);
    var kept := Pruned(swept, now);
    ChargesSubset(kept, swept);
    assert kept.Keys <= entries.Keys;
    SubsetSize(kept.Keys, entries.Keys);
    assert |kept.Keys| == |kept| && |entries.Keys| == |entries|;
  }

  lemma {:induction false} ChargesSubset(a: map<nat, Entry>, b: map<nat, Entry>)
    requires a.Keys <= b.Keys && forall id | id in a :: a[id] == b[id]
    ensures Charges(a) <= Charges(b)
    decreases |a|
  {
    if a.Keys != {} {
      var id :| id in a;
      assert id in b.Keys;
      ChargesRemove(a, id);
      ChargesRemove(b, id);
      ChargesSubset(a - {id}, b - {id});
    }
  }

  /** Replacing one entry by a later form of itself. */
  lemma Update(t: Ledger, id: nat, e: Entry, issued: nat)
    requires Inv(t) && id in t.entries && t.issued <= issued
    requires EntryOk(id, e, issued) && Timely(e, t.lastNow) && EntryEvolves(t.entries[id], e)
    ensures var u := Put(t, id, e, issued);
            Inv(u) && Evolves(t, u)
  {
    hide EntryEvolves, ReceiptOk, DeliveryOk, Timely, Charges;
    var u := Put(t, id, e, issued);
    assert e.charge == t.entries[id].charge by { EvolvesCharge(t.entries[id], e); }
    ChargesReplace(t.entries, u.entries);
    assert u.entries.Keys == t.entries.Keys;
    assert |u.entries| == |u.entries.Keys| && |t.entries| == |t.entries.Keys|;
    forall k | k in u.entries ensures EntryOk(k, u.entries[k], u.issued) && Timely(u.entries[k], u.lastNow) {
      if k != id { assert EntryOk(k, t.entries[k], t.issued); }
    }
    forall k | k in u.entries ensures EntryEvolves(t.entries[k], u.entries[k]) {
      if k != id { SelfEvolves(t.entries[k]); }
    }
  }

  lemma EvolvesCharge(e: Entry, e': Entry)
    requires EntryEvolves(e, e')
    ensures e.charge == e'.charge
  {
  }

  lemma SelfEvolves(e: Entry)
    ensures EntryEvolves(e, e)
  {
  }

  /** Adding a new entry under the next id. */
  lemma Insert(t: Ledger, e: Entry)
    requires Inv(t) && |t.entries| < MAX_RECEIPTS && Charges(t.entries) + e.charge <= MAX_LEDGER_BYTES
    requires EntryOk(t.issued, e, t.issued + 1) && Timely(e, t.lastNow)
    ensures var u := Put(t, t.issued, e, t.issued + 1);
            Inv(u) && Evolves(t, u)
  {
    hide EntryEvolves, ReceiptOk, DeliveryOk, Timely, Charges;
    var u := Put(t, t.issued, e, t.issued + 1);
    var id := t.issued;
    IdsOf(t);
    ChargesAdd(t.entries, id, e);
    assert u.entries.Keys == t.entries.Keys + {id};
    assert |u.entries| == |u.entries.Keys| && |t.entries| == |t.entries.Keys|;
    forall k | k in u.entries ensures EntryOk(k, u.entries[k], u.issued) && Timely(u.entries[k], u.lastNow) {
      if k != id { assert EntryOk(k, t.entries[k], t.issued); }
    }
    forall k | k in u.entries && k in t.entries ensures EntryEvolves(t.entries[k], u.entries[k]) {
      SelfEvolves(t.entries[k]);
    }
  }

  lemma EntryOf(l: Ledger, id: nat)
    requires Inv(l) && id in l.entries
    ensures EntryOk(id, l.entries[id], l.issued) && Timely(l.entries[id], l.lastNow)
  {
  }

  lemma LedgerBounds(l: Ledger)
    requires Inv(l)
    ensures l.lastNow >= 0
  {
  }

  lemma IdsOf(l: Ledger)
    requires Inv(l)
    ensures forall id | id in l.entries :: id < l.issued
  {
    forall id | id in l.entries ensures id < l.issued { EntryOf(l, id); }
  }

  lemma ReserveSteps(t: Ledger, meta: Meta, deadline: int, charge: nat)
    requires Inv(t)
    ensures var u := ReserveAt(t, meta, deadline, charge).0; Inv(u) && Evolves(t, u)
  {
    hide Inv, Evolves, Charges;
    LedgerBounds(t);
    if ReserveAt(t, meta, deadline, charge).1.Ok? {
      Insert(t, Entry(meta, t.issued, deadline, t.lastNow, charge, Reserved));
    } else {
      SameEvolves(t);
    }
  }

  lemma SameEvolves(t: Ledger)
    ensures Evolves(t, t)
  {
    forall id | id in t.entries ensures EntryEvolves(t.entries[id], t.entries[id]) { SelfEvolves(t.entries[id]); }
  }

  lemma AdvanceSteps(t: Ledger, token: Token, from: Phase, to: Phase)
    requires Inv(t)
    requires (from.Reserved? && to.Connecting?) || (from.Connecting? && to.Dispatched?)
    ensures var u := AdvanceAt(t, token, from, to).0; Inv(u) && Evolves(t, u)
  {
    SameEvolves(t);
    var e := Active(t, token);
    if e.Ok? && e.value.phase == from {
      EntryOf(t, token.id);
      hide Evolves, Inv;
      Update(t, token.id, e.value.(phase := to), t.issued);
    }
  }

  lemma CloseOk(id: nat, e: Entry, state: DispatchState, reason: Reason, upstream: Option<Response>, now: int,
                issued: nat)
    requires EntryOk(id, e, issued) && Timely(e, now) && Legal(e.phase, state) && ClientFor(state, reason).Some?
    requires (state.TransportConfirmed? <==> upstream.Some?) && (upstream.Some? ==> Serializable(upstream.value))
    requires ClientFor(state, reason).value.Upstream? ==> upstream.Some?
    ensures var c := e.(phase := Finalized(Close(id, e, state, reason, upstream, now), Some(issued), Pending));
            EntryOk(id, c, issued + 1) && Timely(c, now) && EntryEvolves(e, c)
  {
    hide ClientFor, LocalResponse, Serializable;
  }

  lemma UpstreamOnlyConfirmed(state: DispatchState, reason: Reason)
    requires ClientFor(state, reason).Some? && ClientFor(state, reason).value.Upstream?
    ensures state.TransportConfirmed?
  {
  }

  lemma FinalizeSteps(t: Ledger, token: Token, state: DispatchState, reason: Reason, upstream: Option<Response>)
    requires Inv(t)
    ensures var u := FinalizeAt(t, token, state, reason, upstream).0; Inv(u) && Evolves(t, u)
  {
    SameEvolves(t);
    hide Evolves, Inv, ClientFor, Serializable, EntryOk, Timely, EntryEvolves;
    if FinalizeAt(t, token, state, reason, upstream).1.Ok? {
      EntryOf(t, token.id);
      if ClientFor(state, reason).value.Upstream? { UpstreamOnlyConfirmed(state, reason); }
      CloseOk(token.id, t.entries[token.id], state, reason, upstream, t.lastNow, t.issued);
      var closed := t.entries[token.id].(phase :=
          Finalized(Close(token.id, t.entries[token.id], state, reason, upstream, t.lastNow), Some(t.issued), Pending));
      Update(t, token.id, closed, t.issued + 1);
    }
  }

  lemma ClaimOk(id: nat, e: Entry, now: int, issued: nat)
    requires EntryOk(id, e, issued) && Timely(e, now) && e.phase.Finalized? && e.phase.delivery.Pending?
        && e.phase.handed.Some?
    ensures var c := e.(phase := e.phase.(delivery := Sending(issued)));
            EntryOk(id, c, issued + 1) && Timely(c, now) && EntryEvolves(e, c)
  {
    hide ClientFor, LocalResponse, Serializable;
  }

  lemma ClaimSteps(t: Ledger, token: Token, wire: string)
    requires Inv(t)
    ensures var u := ClaimAt(t, token, wire).0; Inv(u) && Evolves(t, u)
  {
    SameEvolves(t);
    hide Evolves, Inv, Serialize, EntryOk, Timely, EntryEvolves;
    if ClaimAt(t, token, wire).1.Ok? {
      EntryOf(t, token.id);
      var e := t.entries[token.id];
      ClaimOk(token.id, e, t.lastNow, t.issued);
      Update(t, token.id, e.(phase := e.phase.(delivery := Sending(t.issued))), t.issued + 1);
    }
  }

  lemma CompleteOk(id: nat, e: Entry, now: int, issued: nat, outcome: DeliveryOutcome, bytes: int)
    requires EntryOk(id, e, issued) && Timely(e, now) && e.phase.Finalized? && e.phase.delivery.Sending?
    requires BytesOk(e.phase.receipt.client, outcome, bytes)
    ensures var c := e.(phase := e.phase.(delivery := Ended(e.phase.delivery.claim, outcome, bytes)));
            EntryOk(id, c, issued) && Timely(c, now) && EntryEvolves(e, c)
  {
    hide ClientFor, LocalResponse, Serializable, BytesOk;
  }

  lemma CompleteSteps(t: Ledger, claim: Token, outcome: DeliveryOutcome, bytes: int)
    requires Inv(t)
    ensures var u := CompleteAt(t, claim, outcome, bytes).0; Inv(u) && Evolves(t, u)
  {
    SameEvolves(t);
    hide Evolves, Inv, BytesOk, EntryOk, Timely, EntryEvolves;
    if CompleteAt(t, claim, outcome, bytes).1.Ok? {
      EntryOf(t, claim.id);
      var e := t.entries[claim.id];
      CompleteOk(claim.id, e, t.lastNow, t.issued, outcome, bytes);
      Update(t, claim.id, e.(phase := e.phase.(delivery := Ended(claim.mark, outcome, bytes))), t.issued);
    }
  }

  /** Sweeping and pruning again at the last accepted reading changes nothing. */
  lemma AlreadyFresh(l: Ledger)
    requires Inv(l)
    ensures Pruned(Swept(l.entries, l.lastNow), l.lastNow) == l.entries
  {
    forall id | id in l.entries ensures SweepEntry(id, l.entries[id], l.lastNow) == l.entries[id]
        && Retained(l.entries[id], l.lastNow) {
      EntryOf(l, id);
    }
  }

  // --- Runs ---------------------------------------------------------------------------------------------------------

  /** Every call a ledger can receive; `Look` is any read-only query. */
  datatype Op =
    | DoReserve(clock: Reading, meta: Meta, deadline: int, charge: nat)
    | DoConnect(clock: Reading, token: Token)
    | DoDispatch(clock: Reading, token: Token)
    | DoFinalize(clock: Reading, token: Token, state: DispatchState, reason: Reason, upstream: Option<Response>)
    | DoClaim(clock: Reading, token: Token, wire: string)
    | DoComplete(clock: Reading, token: Token, outcome: DeliveryOutcome, bytes: int)
    | Look(clock: Reading)

  /** What a call does once its clock reading has been accepted. */
  ghost function StepAt(t: Ledger, op: Op): Ledger {
    match op
    case DoReserve(_, meta, deadline, charge) => ReserveAt(t, meta, deadline, charge).0
    case DoConnect(_, token) => AdvanceAt(t, token, Reserved, Connecting).0
    case DoDispatch(_, token) => AdvanceAt(t, token, Connecting, Dispatched).0
    case DoFinalize(_, token, state, reason, upstream) => FinalizeAt(t, token, state, reason, upstream).0
    case DoClaim(_, token, wire) => ClaimAt(t, token, wire).0
    case DoComplete(_, token, outcome, bytes) => CompleteAt(t, token, outcome, bytes).0
    case Look(_) => t
  }

  ghost function Step(l: Ledger, op: Op): Ledger {
    var (t, now) := Tick(l, op.clock);
    if now.Err? then t else StepAt(t, op)
  }

  ghost function Run(l: Ledger, ops: seq<Op>): Ledger
    decreases |ops|
  {
    if ops == [] then l else Run(Step(l, ops[0]), ops[1..])
  }

  lemma StepAtSteps(t: Ledger, op: Op)
    requires Inv(t)
    ensures Inv(StepAt(t, op)) && Evolves(t, StepAt(t, op))
  {
    hide Inv, Evolves, ReserveAt, AdvanceAt, FinalizeAt, ClaimAt, CompleteAt;
    match op
    case DoReserve(_, meta, deadline, charge) => ReserveSteps(t, meta, deadline, charge);
    case DoConnect(_, token) => AdvanceSteps(t, token, Reserved, Connecting);
    case DoDispatch(_, token) => AdvanceSteps(t, token, Connecting, Dispatched);
    case DoFinalize(_, token, state, reason, upstream) => FinalizeSteps(t, token, state, reason, upstream);
    case DoClaim(_, token, wire) => ClaimSteps(t, token, wire);
    case DoComplete(_, token, outcome, bytes) => CompleteSteps(t, token, outcome, bytes);
    case Look(_) => SameEvolves(t);
  }

  lemma StepSteps(l: Ledger, op: Op)
    requires Inv(l)
    ensures Inv(Step(l, op)) && Evolves(l, Step(l, op))
  {
    TickSteps(l, op.clock);
    IdsOf(l);
    var (t, now) := Tick(l, op.clock);
    hide Inv, Evolves, Tick, StepAt;
    if now.Ok? {
      StepAtSteps(t, op);
      EvolvesTransitive(l, t, StepAt(t, op));
    }
  }

  /** Over every run the ledger keeps its bounds and every entry only moves forward. */
  lemma {:induction false} RunSteps(l: Ledger, ops: seq<Op>)
    requires Inv(l)
    ensures Inv(Run(l, ops)) && Evolves(l, Run(l, ops))
    decreases |ops|
  {
    if ops == [] {
      forall id | id in l.entries ensures EntryEvolves(l.entries[id], l.entries[id]) { SelfEvolves(l.entries[id]); }
    } else {
      StepSteps(l, ops[0]);
      var m := Step(l, ops[0]);
      RunSteps(m, ops[1..]);
      IdsOf(l);
      hide Step, Inv, Evolves;
      EvolvesTransitive(l, m, Run(l, ops));
    }
  }

  lemma EmptyInv()
    ensures Inv(EMPTY)
  {
  }

  /** After any run and any accepted reading at `t`, whatever is retained was reserved less
      than 350 seconds before `t`, completed no later than its deadline, and fits the caps. */
  lemma RetentionWindow(ops: seq<Op>, clock: Reading)
    ensures var (l, now) := Tick(Run(EMPTY, ops), clock);
            && Charges(l.entries) <= MAX_LEDGER_BYTES && |l.entries| <= MAX_RECEIPTS
            && forall id | id in l.entries ::
                 var e := l.entries[id];
                 && (now.Ok? ==>
                       now.value - e.started < RETENTION + MAX_HANDLER
                       && (!e.phase.Finalized? ==> now.value < e.deadline))
                 && (e.phase.Finalized? ==> e.started <= e.phase.receipt.completed <= e.deadline)
  {
    EmptyInv();
    RunSteps(EMPTY, ops);
    TickSteps(Run(EMPTY, ops), clock);
    var (l, now) := Tick(Run(EMPTY, ops), clock);
    hide Run, Tick, Evolves;
    forall id | id in l.entries
      ensures var e := l.entries[id];
              && (now.Ok? ==>
                    now.value - e.started < RETENTION + MAX_HANDLER
                    && (!e.phase.Finalized? ==> now.value < e.deadline))
              && (e.phase.Finalized? ==> e.started <= e.phase.receipt.completed <= e.deadline)
    {
      assert EntryOk(id, l.entries[id], l.issued) && Timely(l.entries[id], l.lastNow);
    }
  }

  lemma FinalizedStays(a: Ledger, ops: seq<Op>, clock: Reading, id: nat)
    requires Inv(a) && id in a.entries && a.entries[id].phase.Finalized?
    ensures var t := Tick(Run(a, ops), clock).0;
            id in t.entries ==> PhaseEvolves(a.entries[id].phase, t.entries[id].phase) && t.entries[id].phase.Finalized?
  {
    RunSteps(a, ops);
    var b := Run(a, ops);
    TickSteps(b, clock);
    var t := Tick(b, clock).0;
    IdsOf(a);
    hide Run, Tick, Inv;
    EvolvesTransitive(a, b, t);
  }

  lemma FinalizeCloses(l: Ledger, op: Op)
    requires op.DoFinalize? && Finalize(l, op.clock, op.token, op.state, op.reason, op.upstream).1.Ok?
    ensures var a := Step(l, op); op.token.id in a.entries && a.entries[op.token.id].phase.Finalized?
  {
    hide Tick, ClientFor, Serializable, Legal, Close;
  }

  lemma FinalizeNeedsOpen(l: Ledger, clock: Reading, token: Token, state: DispatchState, reason: Reason,
                          upstream: Option<Response>)
    requires Finalize(l, clock, token, state, reason, upstream).1.Ok?
    ensures var t := Tick(l, clock).0; token.id in t.entries && !t.entries[token.id].phase.Finalized?
  {
    hide Tick, ClientFor, Serializable, Legal, Close;
  }

  /** A reservation is finalized at most once, by its caller or by the sweep. */
  lemma FinalizedOnce(l: Ledger, op: Op, ops: seq<Op>, again: Op)
    requires Inv(l) && op.DoFinalize? && again.DoFinalize? && again.token.id == op.token.id
    requires Finalize(l, op.clock, op.token, op.state, op.reason, op.upstream).1.Ok?
    ensures Finalize(Run(Step(l, op), ops), again.clock, again.token, again.state, again.reason, again.upstream).1.Err?
  {
    hide *;
    StepSteps(l, op);
    FinalizeCloses(l, op);
    var b := Run(Step(l, op), ops);
    FinalizedStays(Step(l, op), ops, again.clock, op.token.id);
    if Finalize(b, again.clock, again.token, again.state, again.reason, again.upstream).1.Ok? {
      FinalizeNeedsOpen(b, again.clock, again.token, again.state, again.reason, again.upstream);
    }
  }

  lemma ClaimMarks(l: Ledger, op: Op)
    requires op.DoClaim? && ClaimDelivery(l, op.clock, op.token, op.wire).1.Ok?
    ensures var a := Step(l, op);
            op.token.id in a.entries && a.entries[op.token.id].phase.Finalized?
                && a.entries[op.token.id].phase.delivery.Sending?
  {
    hide Tick, Serialize;
  }

  lemma ClaimNeedsPending(l: Ledger, clock: Reading, token: Token, wire: string)
    requires ClaimDelivery(l, clock, token, wire).1.Ok?
    ensures var t := Tick(l, clock).0;
            token.id in t.entries && t.entries[token.id].phase.Finalized? && t.entries[token.id].phase.delivery.Pending?
  {
    hide Tick, Serialize;
  }

  /** The right to write a receipt's client bytes is granted at most once. */
  lemma ClaimedOnce(l: Ledger, op: Op, ops: seq<Op>, again: Op)
    requires Inv(l) && op.DoClaim? && again.DoClaim? && again.token.id == op.token.id
    requires ClaimDelivery(l, op.clock, op.token, op.wire).1.Ok?
    ensures ClaimDelivery(Run(Step(l, op), ops), again.clock, again.token, again.wire).1.Err?
  {
    hide Inv, Evolves, Run, Step, Tick, ClaimDelivery;
    StepSteps(l, op);
    ClaimMarks(l, op);
    var b := Run(Step(l, op), ops);
    FinalizedStays(Step(l, op), ops, again.clock, op.token.id);
    if ClaimDelivery(b, again.clock, again.token, again.wire).1.Ok? {
      ClaimNeedsPending(b, again.clock, again.token, again.wire);
    }
  }

  lemma CompleteEnds(l: Ledger, op: Op)
    requires op.DoComplete? && CompleteDelivery(l, op.clock, op.token, op.outcome, op.bytes).1.Ok?
    ensures var a := Step(l, op);
            op.token.id in a.entries && a.entries[op.token.id].phase.Finalized?
                && a.entries[op.token.id].phase.delivery.Ended?
  {
    hide Tick, BytesOk;
  }

  lemma CompleteNeedsSending(l: Ledger, clock: Reading, token: Token, outcome: DeliveryOutcome, bytes: int)
    requires CompleteDelivery(l, clock, token, outcome, bytes).1.Ok?
    ensures var t := Tick(l, clock).0;
            token.id in t.entries && t.entries[token.id].phase.Finalized? && t.entries[token.id].phase.delivery.Sending?
  {
    hide Tick, BytesOk;
  }

  /** A delivery outcome is recorded at most once. */
  lemma DeliveredOnce(l: Ledger, op: Op, ops: seq<Op>, again: Op)
    requires Inv(l) && op.DoComplete? && again.DoComplete? && again.token.id == op.token.id
    requires CompleteDelivery(l, op.clock, op.token, op.outcome, op.bytes).1.Ok?
    ensures CompleteDelivery(Run(Step(l, op), ops), again.clock, again.token, again.outcome, again.bytes).1.Err?
  {
    hide Inv, Evolves, Run, Step, Tick, CompleteDelivery;
    StepSteps(l, op);
    CompleteEnds(l, op);
    var b := Run(Step(l, op), ops);
    FinalizedStays(Step(l, op), ops, again.clock, op.token.id);
    if CompleteDelivery(b, again.clock, again.token, again.outcome, again.bytes).1.Ok? {
      CompleteNeedsSending(b, again.clock, again.token, again.outcome, again.bytes);
    }
  }

  /** A granted claim names bytes that parse back to exactly the receipt's client response. */
  lemma ClaimNamesBytes(l: Ledger, clock: Reading, token: Token, wire: string)
    requires Inv(l) && ClaimDelivery(l, clock, token, wire).1.Ok?
    ensures var t := Tick(l, clock).0;
            && token.id in t.entries && t.entries[token.id].phase.Finalized?
            && ParseResponse(wire) == Some(t.entries[token.id].phase.receipt.client)
  {
    hide Tick, Serialize, ParseResponse, Inv;
    var t := Tick(l, clock).0;
    assert token.id in t.entries && t.entries[token.id].phase.Finalized?
           && Serialize(t.entries[token.id].phase.receipt.client) == Some(wire);
    RoundTrip(t.entries[token.id].phase.receipt.client);
  }
}
