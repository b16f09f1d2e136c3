/** When the receipt ledger says yes, and to what, against the ledger as the caller finds it. */
module ReceiptAnswers {
  import opened Text
  import opened HttpResponse
  import opened Clock
  import opened Receipts

  /** A reading the ledger takes. */
  predicate Usable(l: Ledger, clock: Reading) { clock.At? && l.lastNow <= clock.now && !l.held }

  // --- What a reading leaves -------------------------------------------------------------------

  /** An open entry stays as it is up to its deadline and is then abandoned at that deadline; a
      closed one is kept for 310 seconds after its completion. */
  lemma EntryAfter(l: Ledger, clock: Reading, id: nat)
    requires Inv(l) && Usable(l, clock)
    ensures var t := Tick(l, clock).0;
            && Tick(l, clock).1 == Ok(clock.now) && t.lastNow == clock.now && t.issued == l.issued && !t.held
            && (id in t.entries ==> id in l.entries)
            && (id in l.entries ==>
                  var e := l.entries[id];
                  if e.phase.Finalized? then
                    && (id in t.entries <==> clock.now < e.phase.receipt.completed + 310_000)
                    && (id in t.entries ==> t.entries[id] == e)
                  else if clock.now < e.deadline then id in t.entries && t.entries[id] == e
                  else
                    && (id in t.entries <==> clock.now < e.deadline + 310_000)
                    && (id in t.entries ==>
                          && t.entries[id] == e.(phase := t.entries[id].phase) && t.entries[id].phase.Finalized?
                          && t.entries[id].phase.handed.None? && t.entries[id].phase.receipt.reason.Abandoned?
                          && t.entries[id].phase.receipt.completed == e.deadline
                          && t.entries[id].phase.receipt.state ==
                             if e.phase.Reserved? then NotDispatched else DispatchedUnknown))
  {
  }

  lemma Unusable(l: Ledger, clock: Reading)
    requires Inv(l) && !Usable(l, clock)
    ensures var r := Tick(l, clock).1;
            r.Err? && (r.error.LedgerHeld? || r.error.ClockInvalid? || r.error.ClockRegressed?)
  {
    hide Swept, Pruned;
  }

  /** The reservation is on record under this token, open, and before its deadline. */
  predicate OpenAt(l: Ledger, token: Token, now: int) {
    && token.id in l.entries && l.entries[token.id].mark == token.mark
    && !l.entries[token.id].phase.Finalized? && now < l.entries[token.id].deadline
  }

  lemma ActiveExactly(l: Ledger, clock: Reading, token: Token)
    requires Inv(l) && Usable(l, clock)
    ensures var r := Active(Tick(l, clock).0, token);
            (r.Ok? <==> OpenAt(l, token, clock.now)) && (r.Ok? ==> r.value == l.entries[token.id])
  {
    hide Inv, Tick;
    EntryAfter(l, clock, token.id);
  }

  lemma ActiveErrors(t: Ledger, token: Token)
    ensures var r := Active(t, token);
            r.Err? ==> r.error.ReservationUnknown? || r.error.DeadlineExpired? || r.error.ReservationFinalized?
  {
  }

  // --- Reserving ---------------------------------------------------------------------------------

  /** A reservation is made exactly when the reading is good, the deadline lies within 40 seconds, the
      request within 280,576 bytes, and a place and its charge are free. */
  lemma ReserveExactly(l: Ledger, clock: Reading, meta: Meta, deadline: int, charge: nat)
    requires Inv(l)
    ensures var (u, r) := Reserve(l, clock, meta, deadline, charge);
            var t := Tick(l, clock).0;
            && (r.Ok? <==>
                  && Usable(l, clock) && 0 <= meta.requestBytes <= 280_576
                  && clock.now < deadline <= clock.now + 40_000
                  && |t.entries| < 2_048 && charge <= 8_192 && Charges(t.entries) + charge <= 2_097_152)
            && (r.Ok? ==>
                  && r.value == Token(l.issued, l.issued) && u.issued == l.issued + 1 && u.lastNow == clock.now
                  && u.entries == t.entries[l.issued := Entry(meta, l.issued, deadline, clock.now, charge, Reserved)])
  {
    hide Inv, Tick, Charges;
    if Usable(l, clock) { EntryAfter(l, clock, 0); } else { Unusable(l, clock); }
  }

  // --- Connecting and dispatching ------------------------------------------------------------------

  /** A transition happens exactly for an open reservation in the phase before, up to its deadline. */
  lemma TransitionExactly(l: Ledger, clock: Reading, token: Token)
    requires Inv(l)
    ensures var (u, r) := BeginConnect(l, clock, token);
            && (r.Ok? <==> Usable(l, clock) && OpenAt(l, token, clock.now) && l.entries[token.id].phase.Reserved?)
            && (r.Ok? ==>
                  u == Put(Tick(l, clock).0, token.id, l.entries[token.id].(phase := Connecting), l.issued))
    ensures var (u, r) := BeginDispatch(l, clock, token);
            && (r.Ok? <==> Usable(l, clock) && OpenAt(l, token, clock.now) && l.entries[token.id].phase.Connecting?)
            && (r.Ok? ==>
                  u == Put(Tick(l, clock).0, token.id, l.entries[token.id].(phase := Dispatched), l.issued))
  {
    hide Inv, Tick, Active;
    if Usable(l, clock) {
      EntryAfter(l, clock, token.id);
      ActiveExactly(l, clock, token);
    } else {
      Unusable(l, clock);
    }
  }

  // --- Finalizing --------------------------------------------------------------------------------------

  /** Which outcomes an open reservation admits: nothing sent before connecting, a certain failure
      only while connecting, a response only after dispatch. */
  predicate Possible(phase: Phase, state: DispatchState) {
    match state
    case NotDispatched => phase.Reserved?
    case Failed => phase.Connecting?
    case DispatchedUnknown => phase.Connecting? || phase.Dispatched?
    case Partial => phase.Dispatched?
    case TransportConfirmed => phase.Dispatched?
  }

  /** The status a client sees for an outcome: 504 whenever time ran out, the upstream's own only
      for a fine confirmed response, 502 for everything else that reached the upstream. */
  lemma ClientMeans(state: DispatchState, reason: Reason)
    ensures ClientFor(state, reason).Some? <==>
            || (state.NotDispatched? && reason in {RequestRejected, LeaseDenied, RouteDenied, PermitDenied, Deadline,
                                                   Abandoned})
            || (state.Failed? && reason in {ConnectFailed, UpstreamTlsFailed})
            || (state.DispatchedUnknown? && reason in {WriteFailed, ReceiveFailed, MalformedResponse, Abandoned,
                                                       Deadline})
            || (state.Partial? && reason in {ResponseIncomplete, ResponseOverflow})
            || (state.TransportConfirmed? && reason in {Fine, ResponsePolicyRejected})
    ensures ClientFor(state, reason) == Some(Upstream) <==> state.TransportConfirmed? && reason.Fine?
    ensures ClientFor(state, reason).Some? && ClientFor(state, reason).value.Local? ==>
              LocalResponse(ClientFor(state, reason).value.kind).status ==
              if reason.Deadline? then 504
              else if reason.RequestRejected? then 400
              else if reason in {LeaseDenied, RouteDenied, PermitDenied} then 403
              else if state.NotDispatched? then 503
              else 502
  {
  }

  /** The receipt of an outcome: what was reserved, how it ended and when, and what the client gets. */
  predicate Records(receipt: Receipt, token: Token, e: Entry, state: DispatchState, reason: Reason,
                    upstream: Option<Response>, now: int) {
    && receipt.id == token.id && receipt.meta == e.meta && receipt.state == state && receipt.reason == reason
    && receipt.upstream == upstream && receipt.started == e.started && receipt.completed == now
    && (reason.Fine? ==> Some(receipt.client) == upstream)
    && (!reason.Fine? && ClientFor(state, reason).Some? && ClientFor(state, reason).value.Local? ==>
          receipt.client == LocalResponse(ClientFor(state, reason).value.kind))
  }

  /** The outcome, not the reservation, is at fault. */
  predicate Misfit(e: Error) {
    e.InvalidTransition? || e.InvalidReason? || e.InvalidUpstreamResponse? || e.InvalidResponse?
  }

  /** An outcome is recorded exactly for an open reservation up to its deadline, when its phase admits
      the state, the state has the reason, and an upstream response comes with a confirmed transport
      and only then, in a form that can be sent on. */
  lemma FinalizeExactly(l: Ledger, clock: Reading, token: Token, state: DispatchState, reason: Reason,
                        upstream: Option<Response>)
    requires Inv(l)
    ensures var (u, r) := Finalize(l, clock, token, state, reason, upstream);
            && (r.Ok? <==>
                  && Usable(l, clock) && OpenAt(l, token, clock.now) && Possible(l.entries[token.id].phase, state)
                  && ClientFor(state, reason).Some? && (state.TransportConfirmed? <==> upstream.Some?)
                  && (upstream.Some? ==> Serializable(upstream.value)))
            && (r.Ok? ==>
                  && r.value.0 == Token(token.id, l.issued)
                  && Records(r.value.1, token, l.entries[token.id], state, reason, upstream, clock.now)
                  && u == Put(Tick(l, clock).0, token.id,
                              l.entries[token.id].(phase := Finalized(r.value.1, Some(l.issued), Pending)),
                              l.issued + 1))
            && (r.Err? ==>
                  && u == Tick(l, clock).0
                  && (Misfit(r.error) <==> Usable(l, clock) && OpenAt(l, token, clock.now)))
  {
    hide Inv, Tick, Active, Serializable, LocalResponse;
    if Usable(l, clock) {
      EntryAfter(l, clock, token.id);
      ActiveExactly(l, clock, token);
      ActiveErrors(Tick(l, clock).0, token);
      ClientMeans(state, reason);
    } else {
      Unusable(l, clock);
    }
  }

  // --- Delivering --------------------------------------------------------------------------------------

  /** A finalized receipt handed out under this token and still kept. */
  predicate KeptAt(l: Ledger, token: Token, now: int) {
    && token.id in l.entries && l.entries[token.id].phase.Finalized?
    && l.entries[token.id].phase.handed == Some(token.mark)
    && now < l.entries[token.id].phase.receipt.completed + 310_000
  }

  /** The right to send is granted exactly for the serialized client response of a kept receipt that
      nobody has begun to send. */
  lemma ClaimExactly(l: Ledger, clock: Reading, token: Token, wire: string)
    requires Inv(l)
    ensures var (u, r) := ClaimDelivery(l, clock, token, wire);
            && (r.Ok? <==>
                  && Usable(l, clock) && KeptAt(l, token, clock.now)
                  && Serialize(l.entries[token.id].phase.receipt.client) == Some(wire)
                  && l.entries[token.id].phase.delivery.Pending?)
            && (r.Ok? ==>
                  && r.value == Token(token.id, l.issued)
                  && u == Put(Tick(l, clock).0, token.id,
                              l.entries[token.id].(phase := l.entries[token.id].phase.(delivery := Sending(l.issued))),
                              l.issued + 1))
  {
    hide Inv, Tick, Serialize;
    if Usable(l, clock) { EntryAfter(l, clock, token.id); } else { Unusable(l, clock); }
  }

  /** The end of a delivery is recorded exactly once, for the claim that began it, with a byte count the
      outcome allows: all of them when sent, none when not. */
  lemma CompleteExactly(l: Ledger, clock: Reading, claim: Token, outcome: DeliveryOutcome, bytes: int)
    requires Inv(l)
    ensures var (u, r) := CompleteDelivery(l, clock, claim, outcome, bytes);
            && (r.Ok? <==>
                  && Usable(l, clock) && claim.id in l.entries && l.entries[claim.id].phase.Finalized?
                  && clock.now < l.entries[claim.id].phase.receipt.completed + 310_000
                  && l.entries[claim.id].phase.delivery == Sending(claim.mark)
                  && var all := WireBytes(l.entries[claim.id].phase.receipt.client);
                     match outcome
                     case Sent => bytes == all
                     case NotSent => bytes == 0
                     case SendUnknown => 0 <= bytes <= all)
            && (r.Ok? ==>
                  u == Put(Tick(l, clock).0, claim.id,
                           l.entries[claim.id].(phase := l.entries[claim.id].phase.(
                             delivery := Ended(claim.mark, outcome, bytes))), l.issued))
  {
    hide Inv, Tick, WireBytes;
    if Usable(l, clock) {
      EntryAfter(l, clock, claim.id);
      assert claim.id in l.entries && l.entries[claim.id].phase.Finalized? ==>
          WireBytes(l.entries[claim.id].phase.receipt.client) >= 0 by { WireCounts(l, claim.id); }
      AbandonedUnclaimed(l, clock, claim.id);
    } else {
      Unusable(l, clock);
    }
  }

  lemma WireCounts(l: Ledger, id: nat)
    ensures id in l.entries && l.entries[id].phase.Finalized? ==>
              WireBytes(l.entries[id].phase.receipt.client) >= 0
  {
    hide Serialize;
  }

  lemma AbandonedUnclaimed(l: Ledger, clock: Reading, id: nat)
    requires Inv(l) && Usable(l, clock)
    ensures var t := Tick(l, clock).0;
            id in t.entries && !l.entries[id].phase.Finalized? && t.entries[id].phase.Finalized? ==>
              t.entries[id].phase.delivery.Pending?
  {
  }
}
