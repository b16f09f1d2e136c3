/** The receipt ledger as an object: fields updated in place, charges kept incrementally,
    sweep and retention as loops over the entries. */
module ReceiptLedger {
  import opened Text
  import opened HttpResponse
  import opened Clock
  import R = Receipts

  class Ledger {
    var entries: map<nat, R.Entry>
    var chargedBytes: int
    var lastNow: int
    var held: bool
    var issued: nat

    function State(): R.Ledger
      reads this
    {
      R.Ledger(entries, lastNow, held, issued)
    }

    /** The running total is the sum of the retained charges, and the ledger is sound. */
    ghost predicate Valid()
      reads this
    {
      R.Inv(State()) && chargedBytes == R.Charges(entries)
    }

    constructor ()
      ensures Valid() && State() == R.EMPTY
    {
      entries, chargedBytes, lastNow, held, issued := map[], 0, 0, false, 0;
    }

    method SweepAbandoned(now: int)
      requires chargedBytes == R.Charges(entries)
      modifies `entries
      ensures entries == R.Swept(old(entries), now) && chargedBytes == R.Charges(entries)
    {
      var todo := entries.Keys;
      while todo != {}
        invariant todo <= entries.Keys == old(entries.Keys)
        invariant forall id | id in entries ::
          entries[id] == if id in todo then old(entries)[id] else R.SweepEntry(id, old(entries)[id], now)
        decreases |todo|
      {
        var id :| id in todo;
        entries := entries[id := R.SweepEntry(id, entries[id], now)];
        todo := todo - {id};
      }
      R.ChargesReplace(old(entries), entries);
    }

    method PruneRetention(now: int)
      requires chargedBytes == R.Charges(entries)
      modifies `entries, `chargedBytes
      ensures entries == R.Pruned(old(entries), now) && chargedBytes == R.Charges(entries)
    {
      var todo := entries.Keys;
      while todo != {}
        invariant todo <= entries.Keys <= old(entries.Keys)
        invariant forall id | id in entries :: entries[id] == old(entries)[id]
        invariant forall id | id in old(entries) :: id in entries <==> id in todo || R.Retained(old(entries)[id], now)
        invariant chargedBytes == R.Charges(entries)
        decreases |todo|
      {
        var id :| id in todo;
        var e := entries[id];
        if e.phase.Finalized? && now - e.phase.receipt.completed >= R.RETENTION {
          R.ChargesRemove(entries, id);
          entries := entries - {id};
          chargedBytes := chargedBytes - e.charge;
        }
        todo := todo - {id};
      }
    }

    method Tick(clock: Reading) returns (r: R.Outcome<int>)
      requires Valid()
      modifies this
      ensures Valid() && (State(), r) == R.Tick(old(State()), clock)
      ensures r.Ok? ==> r.value == lastNow
    {
      hide R.Inv, R.Evolves, R.Charges;
      R.TickSteps(State(), clock);
      if held { return R.Err(R.LedgerHeld); }
      if clock.Fault? || clock.now < 0 {
        held := true;
        return R.Err(R.ClockInvalid);
      }
      if clock.now < lastNow {
        held := true;
        return R.Err(R.ClockRegressed);
      }
      lastNow := clock.now;
      SweepAbandoned(clock.now);
      PruneRetention(clock.now);
      return R.Ok(clock.now);
    }

    method Reserve(clock: Reading, meta: R.Meta, deadline: int, charge: nat) returns (r: R.Outcome<R.Token>)
      requires Valid()
      modifies this
      ensures Valid() && (State(), r) == R.Reserve(old(State()), clock, meta, deadline, charge)
    {
      hide R.Inv, R.Evolves, R.Charges, R.Tick;
      var now := Tick(clock);
      if now.Err? { return R.Err(now.error); }
      ghost var t := State();
      R.ReserveSteps(t, meta, deadline, charge);
      R.IdsOf(t);
      if !(0 <= meta.requestBytes <= R.MAX_REQUEST_BYTES) { return R.Err(R.InvalidRequestBytes); }
      if !(now.value < deadline <= now.value + R.MAX_HANDLER) { return R.Err(R.InvalidDeadline); }
      if |entries| >= R.MAX_RECEIPTS { return R.Err(R.CapacityRecords); }
      if charge > R.MAX_RECEIPT_BYTES { return R.Err(R.ReceiptTooLarge); }
      if chargedBytes + charge > R.MAX_LEDGER_BYTES { return R.Err(R.CapacityBytes); }
      var id, e := issued, R.Entry(meta, issued, deadline, now.value, charge, R.Reserved);
      R.ChargesAdd(entries, id, e);
      entries := entries[id := e];
      chargedBytes := chargedBytes + charge;
      issued := issued + 1;
      return R.Ok(R.Token(id, id));
    }

    /** Replaces an entry by one of equal charge, which leaves the total alone. */
    method Store(id: nat, e: R.Entry, next: nat)
      requires chargedBytes == R.Charges(entries) && id in entries && entries[id].charge == e.charge
      modifies `entries, `issued
      ensures State() == R.Put(old(State()), id, e, next) && chargedBytes == R.Charges(entries)
    {
      R.ChargesReplace(entries, entries[id := e]);
      entries := entries[id := e];
      issued := next;
    }

    method Advance(clock: Reading, token: R.Token, from: R.Phase, to: R.Phase) returns (r: R.Outcome<()>)
      requires Valid()
      requires (from.Reserved? && to.Connecting?) || (from.Connecting? && to.Dispatched?)
      modifies this
      ensures Valid() && (State(), r) == R.Advance(old(State()), clock, token, from, to)
    {
      hide R.Inv, R.Evolves, R.Charges, R.Tick, R.Active;
      var now := Tick(clock);
      if now.Err? { return R.Err(now.error); }
      R.AdvanceSteps(State(), token, from, to);
      var e := R.Active(State(), token);
      if e.Err? { return R.Err(e.error); }
      if e.value.phase != from { return R.Err(R.InvalidTransition); }
      Store(token.id, e.value.(phase := to), issued);
      return R.Ok(());
    }

    method BeginConnect(clock: Reading, token: R.Token) returns (r: R.Outcome<()>)
      requires Valid()
      modifies this
      ensures Valid() && (State(), r) == R.BeginConnect(old(State()), clock, token)
    {
      r := Advance(clock, token, R.Reserved, R.Connecting);
    }

    method BeginDispatch(clock: Reading, token: R.Token) returns (r: R.Outcome<()>)
      requires Valid()
      modifies this
      ensures Valid() && (State(), r) == R.BeginDispatch(old(State()), clock, token)
    {
      r := Advance(clock, token, R.Connecting, R.Dispatched);
    }

    method Finalize(clock: Reading, token: R.Token, state: R.DispatchState, reason: R.Reason,
                    upstream: Option<Response>)
      returns (r: R.Outcome<(R.Token, R.Receipt)>)
      requires Valid()
      modifies this
      ensures Valid() && (State(), r) == R.Finalize(old(State()), clock, token, state, reason, upstream)
    {
      hide R.Inv, R.Evolves, R.Charges, R.Tick, R.FinalizeAt;
      var now := Tick(clock);
      if now.Err? { return R.Err(now.error); }
      r := FinalizeEntry(token, state, reason, upstream);
    }

    method FinalizeEntry(token: R.Token, state: R.DispatchState, reason: R.Reason, upstream: Option<Response>)
      returns (r: R.Outcome<(R.Token, R.Receipt)>)
      requires Valid()
      modifies this
      ensures Valid() && (State(), r) == R.FinalizeAt(old(State()), token, state, reason, upstream)
    {
      hide R.Inv, R.Evolves, R.Charges, R.Close, R.ClientFor, Serializable, R.Legal, R.Active;
      R.FinalizeSteps(State(), token, state, reason, upstream);
      var e := R.Active(State(), token);
      if e.Err? { return R.Err(e.error); }
      if !R.Legal(e.value.phase, state) { return R.Err(R.InvalidTransition); }
      if R.ClientFor(state, reason).None? { return R.Err(R.InvalidReason); }
      if state.TransportConfirmed? != upstream.Some? { return R.Err(R.InvalidUpstreamResponse); }
      if upstream.Some? && !Serializable(upstream.value) { return R.Err(R.InvalidResponse); }
      if R.ClientFor(state, reason).value.Upstream? { R.UpstreamOnlyConfirmed(state, reason); }
      var receipt, mark := R.Close(token.id, e.value, state, reason, upstream, lastNow), issued;
      Store(token.id, e.value.(phase := R.Finalized(receipt, Some(mark), R.Pending)), mark + 1);
      return R.Ok((R.Token(token.id, mark), receipt));
    }

    method ClaimDelivery(clock: Reading, token: R.Token, wire: string) returns (r: R.Outcome<R.Token>)
      requires Valid()
      modifies this
      ensures Valid() && (State(), r) == R.ClaimDelivery(old(State()), clock, token, wire)
    {
      hide R.Inv, R.Evolves, R.Charges, R.Tick, Serialize;
      var now := Tick(clock);
      if now.Err? { return R.Err(now.error); }
      R.ClaimSteps(State(), token, wire);
      if token.id !in entries { return R.Err(R.ReceiptUnknown); }
      var e := entries[token.id];
      if !e.phase.Finalized? || e.phase.handed != Some(token.mark) { return R.Err(R.ReceiptUnknown); }
      if Serialize(e.phase.receipt.client) != Some(wire) { return R.Err(R.ReceiptMismatch); }
      if !e.phase.delivery.Pending? { return R.Err(R.DeliveryClaimed); }
      var mark := issued;
      Store(token.id, e.(phase := e.phase.(delivery := R.Sending(mark))), mark + 1);
      return R.Ok(R.Token(token.id, mark));
    }

    method CompleteDelivery(clock: Reading, claim: R.Token, outcome: R.DeliveryOutcome,
                            bytes: int) returns (r: R.Outcome<()>)
      requires Valid()
      modifies this
      ensures Valid() && (State(), r) == R.CompleteDelivery(old(State()), clock, claim, outcome, bytes)
    {
      hide R.Inv, R.Evolves, R.Charges, R.Tick, R.BytesOk;
      var now := Tick(clock);
      if now.Err? { return R.Err(now.error); }
      R.CompleteSteps(State(), claim, outcome, bytes);
      if claim.id !in entries { return R.Err(R.ClaimUnknown); }
      var e := entries[claim.id];
      if !e.phase.Finalized? || R.ClaimOf(e.phase.delivery) != Some(claim.mark) { return R.Err(R.ClaimUnknown); }
      if !e.phase.delivery.Sending? { return R.Err(R.DeliveryCompleted); }
      if !R.BytesOk(e.phase.receipt.client, outcome, bytes) { return R.Err(R.InvalidBytesSent); }
      Store(claim.id, e.(phase := e.phase.(delivery := R.Ended(claim.mark, outcome, bytes))), issued);
      return R.Ok(());
    }

    /** Stays readable while held; sweeping again at the last reading changes nothing. */
    method Snapshot(clock: Reading)
      requires Valid()
      modifies this
      ensures Valid() && State() == R.Tick(old(State()), clock).0
    {
      hide R.Inv, R.Evolves, R.Charges, R.Tick, R.Swept, R.Pruned;
      var now := Tick(clock);
      R.AlreadyFresh(State());
      SweepAbandoned(lastNow);
      PruneRetention(lastNow);
    }

    /** Answers from freshly swept entries, and never while held. */
    method Contains(clock: Reading, token: R.Token) returns (found: bool)
      requires Valid()
      modifies this
      ensures Valid() && State() == R.Tick(old(State()), clock).0
      ensures found <==> !held && token.id in entries && entries[token.id].phase.Finalized?
                         && entries[token.id].phase.handed == Some(token.mark)
    {
      Snapshot(clock);
      return !held && token.id in entries && entries[token.id].phase.Finalized?
          && entries[token.id].phase.handed == Some(token.mark);
    }
  }
}
