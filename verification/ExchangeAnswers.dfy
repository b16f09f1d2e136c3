/** What an exchange reports when nobody disturbs it, for every way it can go. */
module ExchangeAnswers {
  import opened Text
  import opened HttpResponse
  import opened Clock
  import L = Leases
  import R = Receipts
  import LA = LeaseAnswers
  import RA = ReceiptAnswers
  import opened Gate
  import I = GateInvariant
  import A = GateAnswers
  import opened Exchange

  ghost function Acts(x: Exchange, s: Sys, choices: seq<Choice>): (Exchange, Sys)
    decreases |choices|
  {
    if choices == [] then (x, s)
    else
      var (x', s') := Act(x, s, choices[0]);
      Acts(x', s', choices[1..])
  }

  lemma ActsFirst(x: Exchange, s: Sys, choice: Choice, rest: seq<Choice>)
    ensures Acts(x, s, [choice] + rest) == Acts(Act(x, s, choice).0, Act(x, s, choice).1, rest)
  {
    hide Act;
    assert ([choice] + rest)[1..] == rest;
  }

  lemma {:induction false} ActsSplit(x: Exchange, s: Sys, a: seq<Choice>, b: seq<Choice>)
    ensures Acts(x, s, a + b) == Acts(Acts(x, s, a).0, Acts(x, s, a).1, b)
    decreases |a|
  {
    hide Act;
    if a == [] {
      assert a + b == b;
    } else {
      assert (a + b)[1..] == a[1..] + b;
      ActsSplit(Act(x, s, a[0]).0, Act(x, s, a[0]).1, a[1..], b);
    }
  }

  // --- Closing ----------------------------------------------------------------------------------

  /** The outcome as the world gave it, where the flight can end so; otherwise the fallback. */
  function Settled(fence: bool, state: R.DispatchState, reason: R.Reason, upstream: Option<Response>)
    : (R.DispatchState, R.Reason, Option<Response>)
  {
    if A.Ends(if fence then Writing else FlightPhase.Admitted, state) && A.Outcome(state, reason, upstream)
    then (state, reason, upstream)
    else if fence then (R.DispatchedUnknown, R.Abandoned, None) else (R.Failed, R.ConnectFailed, None)
  }

  /** The exchange is over with this receipt, its flight gone; the client gets the upstream's response
      exactly when it was confirmed and fine. */
  ghost predicate Ended(x: Exchange, s: Sys, id: nat, told: (R.DispatchState, R.Reason, Option<Response>)) {
    && x.pc.Finished? && id !in s.gate.flights && x.receipt.Some?
    && x.receipt.value.state == told.0 && x.receipt.value.reason == told.1 && x.receipt.value.upstream == told.2
    && (told.1.Fine? ==> told.2 == Some(x.receipt.value.client))
    && (!told.1.Fine? ==>
          && R.ClientFor(told.0, told.1).Some? && R.ClientFor(told.0, told.1).value.Local?
          && x.receipt.value.client == R.LocalResponse(R.ClientFor(told.0, told.1).value.kind))
  }

  /** The flight of an exchange, in time for the ledger at two readings. */
  ghost predicate Ready(x: Exchange, s: Sys, clock: Reading, again: Reading) {
    && x.tokens.handle.id in s.gate.flights && !s.gate.flights[x.tokens.handle.id].overdue
    && A.LedgerReady(s.ledger, s.gate.flights[x.tokens.handle.id], clock)
    && again.At? && clock.now <= again.now < s.gate.flights[x.tokens.handle.id].deadline
  }

  lemma RecordsClient(receipt: R.Receipt, token: R.Token, e: R.Entry, state: R.DispatchState, reason: R.Reason,
                      upstream: Option<Response>, now: int)
    requires RA.Records(receipt, token, e, state, reason, upstream, now) && A.Outcome(state, reason, upstream)
    ensures receipt.state == state && receipt.reason == reason && receipt.upstream == upstream
    ensures reason.Fine? ==> upstream == Some(receipt.client)
    ensures !reason.Fine? ==>
              && R.ClientFor(state, reason).Some? && R.ClientFor(state, reason).value.Local?
              && receipt.client == R.LocalResponse(R.ClientFor(state, reason).value.kind)
  {
    hide Serializable, R.LocalResponse;
    RA.ClientMeans(state, reason);
  }

  /** The flight a closing exchange still has. */
  lemma ClosingFlight(x: Exchange, s: Sys)
    requires ExInv(x, s) && x.pc.Closing?
    ensures I.Inv(s) && x.tokens.admission.Some? && x.tokens.admission.value.id == x.tokens.handle.id
    ensures FindAdmission(s.gate, x.tokens.admission.value)
    ensures s.gate.flights[x.tokens.handle.id].phase == if x.pc.fence then Writing else FlightPhase.Admitted
  {
    hide I.Inv, PastFence;
  }

  /** One finish that fits ends the exchange with that outcome. */
  lemma FinishEnds(x: Exchange, s: Sys, clock: Reading)
    requires ExInv(x, s) && x.pc.Closing? && Ready(x, s, clock, clock)
    requires A.Ends(if x.pc.fence then Writing else FlightPhase.Admitted, x.pc.state)
    requires A.Outcome(x.pc.state, x.pc.reason, x.pc.upstream)
    ensures var (x', s') := Act(x, s, AskFinish(clock));
            && x'.pc.Releasing? && x'.sends == x.sends && x'.tokens == x.tokens
            && Ended(x'.(pc := Finished), s', x.tokens.handle.id, (x.pc.state, x.pc.reason, x.pc.upstream))
  {
    hide I.Inv, Finish, R.ClientFor, R.LocalResponse, PastFence, A.Ends, A.Outcome, A.LedgerReady, RA.Records;
    var token := x.tokens.admission.value;
    A.FinishExactly(s, token, clock, x.pc.state, x.pc.reason, x.pc.upstream);
    var r := Finish(s, token, clock, x.pc.state, x.pc.reason, x.pc.upstream).1.value;
    RecordsClient(r.1, s.gate.flights[token.id].reservation, s.ledger.entries[token.id], x.pc.state, x.pc.reason,
                  x.pc.upstream, clock.now);
  }

  lemma ReleaseGone(x: Exchange, s: Sys)
    requires x.pc.Releasing? && x.tokens.handle.id !in s.gate.flights
    ensures Act(x, s, AskRelease) == (x.(pc := Finished), s)
  {
  }

  /** An outcome that does not fit leaves the flight to the fallback. */
  lemma FinishFallsBack(x: Exchange, s: Sys, clock: Reading, again: Reading)
    requires ExInv(x, s) && x.pc.Closing? && !x.pc.again && Ready(x, s, clock, again)
    requires !(A.Ends(if x.pc.fence then Writing else FlightPhase.Admitted, x.pc.state)
               && A.Outcome(x.pc.state, x.pc.reason, x.pc.upstream))
    ensures var (x', s') := Act(x, s, AskFinish(clock));
            && x' == x.(pc := Closing(Unmapped(x.pc.fence).0, Unmapped(x.pc.fence).1, None, x.pc.fence, true))
            && ExInv(x', s') && Ready(x', s', again, again)
  {
    hide ExInv, I.Inv, Finish, Act, A.Ends, A.Outcome, R.Tick, Ready;
    ClosingFlight(x, s);
    ActKeeps(x, s, AskFinish(clock));
    A.FinishRejects(s, x.tokens.admission.value, clock, x.pc.state, x.pc.reason, x.pc.upstream);
    ReadyFlight(x, s, clock, again);
    FinishingAct(x, s, clock);
    ReadyLater(x, s, clock, again);
  }

  lemma ReadyFlight(x: Exchange, s: Sys, clock: Reading, again: Reading)
    requires Ready(x, s, clock, again)
    ensures x.tokens.handle.id in s.gate.flights && !s.gate.flights[x.tokens.handle.id].overdue
    ensures A.LedgerReady(s.ledger, s.gate.flights[x.tokens.handle.id], clock)
  {
  }

  lemma FinishingAct(x: Exchange, s: Sys, clock: Reading)
    requires x.pc.Closing? && x.tokens.admission.Some?
    ensures Act(x, s, AskFinish(clock)) == Finishing(x, s, x.tokens.admission.value, clock)
  {
    hide Finishing;
  }

  lemma ReadyLater(x: Exchange, s: Sys, clock: Reading, again: Reading)
    requires I.Inv(s) && Ready(x, s, clock, again)
    ensures forall x': Exchange | x'.tokens == x.tokens ::
              Ready(x', s.(ledger := R.Tick(s.ledger, clock).0), again, again)
  {
    hide I.Inv, R.Inv, R.Tick;
    I.Parts(s);
    RA.EntryAfter(s.ledger, clock, 0);
  }

  lemma FallbackFits(fence: bool)
    ensures A.Ends(if fence then Writing else FlightPhase.Admitted, Unmapped(fence).0)
    ensures A.Outcome(Unmapped(fence).0, Unmapped(fence).1, None)
  {
  }

  /** From any closing point the exchange ends with its outcome, or with the fallback where that does not
      fit, within two tries. */
  lemma ClosingEnds(x: Exchange, s: Sys, clock: Reading, again: Reading)
    requires ExInv(x, s) && x.pc.Closing? && !x.pc.again && Ready(x, s, clock, again)
    ensures var (x', s') := Acts(x, s, [AskFinish(clock), AskFinish(again), AskRelease]);
            && x'.sends == x.sends
            && Ended(x', s', x.tokens.handle.id, Settled(x.pc.fence, x.pc.state, x.pc.reason, x.pc.upstream))
  {
    hide ExInv, Act, Ready, Ended, A.Ends, A.Outcome;
    var (x1, s1) := Act(x, s, AskFinish(clock));
    Three(x, s, AskFinish(clock), AskFinish(again), AskRelease);
    if A.Ends(if x.pc.fence then Writing else FlightPhase.Admitted, x.pc.state)
       && A.Outcome(x.pc.state, x.pc.reason, x.pc.upstream) {
      ReadyOnce(x, s, clock, again);
      FinishEnds(x, s, clock);
      EndedGone(x1.(pc := Finished), s1, x.tokens.handle.id,
                (x.pc.state, x.pc.reason, x.pc.upstream));
      FinishIdle(x1, s1, again);
      ReleaseGone(x1, s1);
    } else {
      FinishFallsBack(x, s, clock, again);
      FallbackFits(x.pc.fence);
      FinishEnds(x1, s1, again);
      var (x2, s2) := Act(x1, s1, AskFinish(again));
      EndedGone(x2.(pc := Finished), s2, x.tokens.handle.id, (x1.pc.state, x1.pc.reason, x1.pc.upstream));
      ReleaseGone(x2, s2);
    }
  }

  lemma Three(x: Exchange, s: Sys, a: Choice, b: Choice, c: Choice)
    ensures var (x1, s1) := Act(x, s, a); var (x2, s2) := Act(x1, s1, b);
            Acts(x, s, [a, b, c]) == Act(x2, s2, c)
  {
    hide Act;
    assert [a, b, c][1..] == [b, c] && [b, c][1..] == [c] && [c][1..] == [];
    var (x1, s1) := Act(x, s, a);
    var (x2, s2) := Act(x1, s1, b);
    assert Acts(x2, s2, [c]) == Act(x2, s2, c);
    assert Acts(x1, s1, [b, c]) == Acts(x2, s2, [c]);
  }

  lemma ReadyOnce(x: Exchange, s: Sys, clock: Reading, again: Reading)
    requires Ready(x, s, clock, again)
    ensures Ready(x, s, clock, clock)
  {
  }

  lemma EndedGone(x: Exchange, s: Sys, id: nat, told: (R.DispatchState, R.Reason, Option<Response>))
    requires Ended(x, s, id, told)
    ensures id !in s.gate.flights
  {
  }

  lemma FinishIdle(x: Exchange, s: Sys, clock: Reading)
    requires x.pc.Releasing?
    ensures Act(x, s, AskFinish(clock)) == (x, s)
  {
  }

  // --- After the fence --------------------------------------------------------------------------------

  /** How things can go once the fence has passed. */
  datatype Ending =
    | NotSent(late: bool)
    | NotReceived(late: bool)
    | Judged(response: Response, reason: R.Reason)
    | Unjudged(response: Response)

  function Going(e: Ending): seq<Choice> {
    match e
    case NotSent(late) => [SendFails(late)]
    case NotReceived(late) => [SendOk, ReceiveFails(late)]
    case Judged(response, reason) => [SendOk, ReceiveGives(response), PolicySays(reason)]
    case Unjudged(response) => [SendOk, ReceiveGives(response), PolicyRaises]
  }

  /** What the receipt must then say. */
  function Told(e: Ending): (R.DispatchState, R.Reason, Option<Response>) {
    match e
    case NotSent(late) => (R.DispatchedUnknown, if late then R.Deadline else R.WriteFailed, None)
    case NotReceived(late) => (R.DispatchedUnknown, if late then R.Deadline else R.ReceiveFailed, None)
    case Judged(response, reason) =>
      if !Serializable(response) then (R.DispatchedUnknown, R.MalformedResponse, None)
      else if reason.Fine? || reason.ResponsePolicyRejected? then (R.TransportConfirmed, reason, Some(response))
      else (R.DispatchedUnknown, R.Abandoned, None)
    case Unjudged(response) =>
      (R.DispatchedUnknown, if Serializable(response) then R.Abandoned else R.MalformedResponse, None)
  }

  /** Going one of these ways brings a fenced exchange to its closing point, having called send once. */
  lemma GoingCloses(x: Exchange, s: Sys, e: Ending)
    requires ExInv(x, s) && x.pc.Fenced?
    ensures var (x', s') := Acts(x, s, Going(e));
            && ExInv(x', s') && s' == s && x'.pc.Closing? && !x'.pc.again && x'.tokens == x.tokens && x'.sends == 1
            && Settled(x'.pc.fence, x'.pc.state, x'.pc.reason, x'.pc.upstream) == Told(e)
  {
    hide ExInv, Serializable, Act, Acts, Settled, Told;
    SendsAtFence(x, s);
    match e
    case NotSent(late) => SendCloses(x, s, late);
    case NotReceived(late) => ReceiveCloses(x, s, late);
    case Judged(response, reason) =>
      Receives(x, s, response, PolicySays(reason));
      JudgedSettles(e);
    case Unjudged(response) =>
      Receives(x, s, response, PolicyRaises);
      JudgedSettles(e);
  }

  lemma SendCloses(x: Exchange, s: Sys, late: bool)
    requires ExInv(x, s) && x.pc.Fenced? && x.sends == 0
    ensures var (x', s') := Acts(x, s, [SendFails(late)]);
            var reason := if late then R.Deadline else R.WriteFailed;
            && ExInv(x', s') && s' == s && x'.tokens == x.tokens && x'.sends == 1
            && x'.pc == Closing(R.DispatchedUnknown, reason, None, true, false)
            && Settled(true, R.DispatchedUnknown, reason, None) == Told(NotSent(late))
  {
    hide ExInv;
    ActsOne(x, s, SendFails(late));
    ActKeeps(x, s, SendFails(late));
  }

  lemma ReceiveCloses(x: Exchange, s: Sys, late: bool)
    requires ExInv(x, s) && x.pc.Fenced? && x.sends == 0
    ensures var (x', s') := Acts(x, s, [SendOk, ReceiveFails(late)]);
            var reason := if late then R.Deadline else R.ReceiveFailed;
            && ExInv(x', s') && s' == s && x'.tokens == x.tokens && x'.sends == 1
            && x'.pc == Closing(R.DispatchedUnknown, reason, None, true, false)
            && Settled(true, R.DispatchedUnknown, reason, None) == Told(NotReceived(late))
  {
    hide ExInv;
    ActsTwo(x, s, SendOk, ReceiveFails(late));
    ActKeeps(x, s, SendOk);
    ActKeeps(Act(x, s, SendOk).0, s, ReceiveFails(late));
  }

  lemma JudgedSettles(e: Ending)
    ensures Settled(true, R.DispatchedUnknown, R.MalformedResponse, None) ==
            (R.DispatchedUnknown, R.MalformedResponse, None)
    ensures Settled(true, R.DispatchedUnknown, R.Abandoned, None) == (R.DispatchedUnknown, R.Abandoned, None)
    ensures e.Judged? && Serializable(e.response) ==>
              Settled(true, R.TransportConfirmed, e.reason, Some(e.response)) == Told(e)
    ensures e.Judged? && !Serializable(e.response) ==> Told(e) == (R.DispatchedUnknown, R.MalformedResponse, None)
    ensures e.Unjudged? ==>
              Told(e) == (R.DispatchedUnknown,
                          if Serializable(e.response) then R.Abandoned else R.MalformedResponse, None)
  {
    hide Serializable;
  }

  lemma SendsAtFence(x: Exchange, s: Sys)
    requires ExInv(x, s) && x.pc.Fenced?
    ensures x.sends == 0
  {
  }

  lemma ActsOne(x: Exchange, s: Sys, a: Choice)
    ensures Acts(x, s, [a]) == Act(x, s, a)
  {
    hide Act;
    assert [a][1..] == [];
  }

  lemma ActsTwo(x: Exchange, s: Sys, a: Choice, b: Choice)
    ensures Acts(x, s, [a, b]) == Act(Act(x, s, a).0, Act(x, s, a).1, b)
  {
    hide Act;
    assert [a, b][1..] == [b] && [b][1..] == [];
    ActsOne(Act(x, s, a).0, Act(x, s, a).1, b);
  }

  lemma Receives(x: Exchange, s: Sys, response: Response, verdict: Choice)
    requires ExInv(x, s) && x.pc.Fenced? && x.sends == 0 && (verdict.PolicySays? || verdict.PolicyRaises?)
    ensures var (x', s') := Acts(x, s, [SendOk, ReceiveGives(response), verdict]);
            && ExInv(x', s') && s' == s && x'.tokens == x.tokens && x'.sends == 1
            && x'.pc == if !Serializable(response) then
                          Closing(R.DispatchedUnknown, R.MalformedResponse, None, true, false)
                        else if verdict.PolicySays? then
                          Closing(R.TransportConfirmed, verdict.reason, Some(response), true, false)
                        else Closing(R.DispatchedUnknown, R.Abandoned, None, true, false)
  {
    hide ExInv, Serializable;
    var x1 := Act(x, s, SendOk).0;
    var x2 := Act(x1, s, ReceiveGives(response)).0;
    ActKeeps(x, s, SendOk);
    ActKeeps(x1, s, ReceiveGives(response));
    ActKeeps(x2, s, verdict);
    Three(x, s, SendOk, ReceiveGives(response), verdict);
  }

  /** However it goes after the fence, as long as the ledger is in time, the exchange ends with the receipt
      that tells it, having called send once; with a response that can be sent on and found fine, the
      client gets that response. */
  lemma FencedEnds(x: Exchange, s: Sys, e: Ending, clock: Reading, again: Reading)
    requires ExInv(x, s) && x.pc.Fenced? && Ready(x, s, clock, again)
    ensures var (x', s') := Acts(x, s, Going(e) + [AskFinish(clock), AskFinish(again), AskRelease]);
            x'.sends == 1 && Ended(x', s', x.tokens.handle.id, Told(e))
  {
    hide ExInv, Act, Ended, Settled, Told, Going;
    ActsSplit(x, s, Going(e), [AskFinish(clock), AskFinish(again), AskRelease]);
    GoingCloses(x, s, e);
    ClosingEnds(Acts(x, s, Going(e)).0, s, clock, again);
  }

  /** A connection that fails is told as a certain failure, without a send. */
  lemma UnconnectedEnds(x: Exchange, s: Sys, tls: bool, clock: Reading, again: Reading)
    requires ExInv(x, s) && x.pc.Admitted? && Ready(x, s, clock, again)
    ensures var (x', s') := Acts(x, s, [ConnectFails(tls)] + [AskFinish(clock), AskFinish(again), AskRelease]);
            && x'.sends == 0
            && Ended(x', s', x.tokens.handle.id,
                     (R.Failed, if tls then R.UpstreamTlsFailed else R.ConnectFailed, None))
  {
    hide ExInv, Ended;
    ActsFirst(x, s, ConnectFails(tls), [AskFinish(clock), AskFinish(again), AskRelease]);
    ActKeeps(x, s, ConnectFails(tls));
    assert x.sends == 0 by { AdmittedUnsent(x, s); }
    ClosingEnds(Act(x, s, ConnectFails(tls)).0, s, clock, again);
  }

  lemma AdmittedUnsent(x: Exchange, s: Sys)
    requires ExInv(x, s) && x.pc.Admitted?
    ensures x.sends == 0
  {
  }

  // --- The whole exchange --------------------------------------------------------------------------------

  /** The readings of one exchange: its reservation, its two fences and its finish. */
  datatype Times = Times(reserve: Clocks, admit: Clocks, write: Clocks, finish: Reading)

  /** Every reading is good and none is before the one that comes first on its clock. */
  predicate Orderly(g: Gate, l: R.Ledger, t: Times) {
    && t.reserve.tick.At? && g.lastNow <= t.reserve.tick.now
    && A.InOrder(g.(lastNow := t.reserve.tick.now), t.admit)
    && A.InOrder(g.(lastNow := t.admit.after.now), t.write)
    && RA.Usable(l, t.reserve.ledger) && t.admit.ledger.At? && t.write.ledger.At? && t.finish.At?
    && t.reserve.ledger.now <= t.admit.ledger.now <= t.write.ledger.now <= t.finish.now
  }

  /** A request that can be served: an installed scope on an enabled route without a permit, room for one
      more flight and its receipt, and a deadline that leaves each fence its margin. */
  ghost predicate Servable(s: Sys, entry: ScopeEntry, routed: Routed, req: Request, sentinel: nat, t: Times)
    requires Orderly(s.gate, s.ledger, t)
  {
    && s.gate.state.Ready? && A.Stored(s.gate, entry, t.reserve.tick.now)
    && s.gate.scopes[entry.leaseId].sentinel == sentinel
    && routed.service == entry.service && routed.scope == entry.scope && routed.enabled && !routed.requiresPermit
    && req.deadline <= entry.expiresAt && |s.gate.flights| < 32
    && R.Reserve(s.ledger, t.reserve.ledger, MetaFor(entry, routed.routeId, req), req.deadline, req.charge).1.Ok?
    && t.admit.check.now + 2_000 <= req.deadline && t.write.check.now + 1_500 <= req.deadline
    && t.write.tick.now < req.deadline && t.finish.now < req.deadline
  }

  /** The lease behind it: in contact and lasting up to the second fence. */
  ghost predicate Backed(reg: L.Registry, entry: ScopeEntry, sentinel: nat, t: Times) {
    && t.admit.check.At? && t.write.check.At?
    && LA.Usable(reg, t.admit.check) && t.admit.check.now <= t.write.check.now
    && reg.boot.Some? && t.write.check.now < reg.lastHeartbeat + 15_000
    && LA.Authorizing(reg, t.write.check.now, entry.service, sentinel, entry.scope, entry.leaseId)
  }

  /** The flight of the exchange between its steps. */
  ghost predicate Flies(x: Exchange, s: Sys, entry: ScopeEntry, sentinel: nat, deadline: int) {
    && x.tokens.handle.id in s.gate.flights
    && var f := s.gate.flights[x.tokens.handle.id];
       f.leaseId == entry.leaseId && f.service == entry.service && f.scope == entry.scope && f.sentinel == sentinel
       && !f.requiresPermit && f.deadline == deadline && !f.overdue
  }

  /** The ledger's clock after a reading it took. */
  predicate Read(l: R.Ledger, clock: Reading) { clock.At? && l.lastNow == clock.now && !l.held }

  lemma Reserves(x: Exchange, s: Sys, entry: ScopeEntry, routed: Routed, req: Request, sentinel: nat, t: Times)
    requires ExInv(x, s) && x.pc.Begin? && Orderly(s.gate, s.ledger, t) && Servable(s, entry, routed, req, sentinel, t)
    ensures var (x', s') := Act(x, s, AskReserve(entry, routed, req, t.reserve));
            && ExInv(x', s') && x'.pc.Holding? && Flies(x', s', entry, sentinel, req.deadline)
            && s'.gate.state.Ready? && s'.gate.lastNow == t.reserve.tick.now && s'.reg == s.reg
            && x'.tokens.handle.id == s.ledger.issued && Read(s'.ledger, t.reserve.ledger)
  {
    hide ExInv, I.Inv, Reserve, R.Reserve, MetaFor, R.Tick;
    ActKeeps(x, s, AskReserve(entry, routed, req, t.reserve));
    BeginInv(x, s);
    A.ReserveExactly(s, entry, routed, req, t.reserve);
    I.Parts(s);
    RA.EntryAfter(s.ledger, t.reserve.ledger, 0);
    RA.ReserveExactly(s.ledger, t.reserve.ledger, MetaFor(entry, routed.routeId, req), req.deadline, req.charge);
    ReserveUnheld(s.ledger, t.reserve.ledger, MetaFor(entry, routed.routeId, req), req.deadline, req.charge);
  }

  lemma ReserveUnheld(l: R.Ledger, clock: Reading, meta: R.Meta, deadline: int, charge: nat)
    ensures R.Reserve(l, clock, meta, deadline, charge).1.Ok? ==>
              !R.Reserve(l, clock, meta, deadline, charge).0.held
  {
    hide R.Swept, R.Pruned, R.Charges;
  }

  lemma BeginInv(x: Exchange, s: Sys)
    requires ExInv(x, s)
    ensures I.Inv(s)
  {
    hide I.Inv;
  }

  lemma MovedRead(l: R.Ledger, l': R.Ledger, id: nat, phase: R.Phase, clock: Reading)
    requires R.Inv(l) && RA.Usable(l, clock) && A.Moved(l, l', id, phase, clock)
    ensures Read(l', clock)
  {
    hide R.Inv, R.Tick;
    RA.EntryAfter(l, clock, 0);
  }

  lemma HoldingFlight(x: Exchange, s: Sys)
    requires ExInv(x, s)
    ensures x.pc.Holding? ==> FindHandle(s.gate, x.tokens.handle) && s.gate.flights[x.tokens.handle.id].phase.Waiting?
    ensures x.pc.Admitted? || x.pc.Connected? || x.pc.Attached? ==>
              && x.tokens.admission.Some? && x.tokens.admission.value.id == x.tokens.handle.id
              && FindAdmission(s.gate, x.tokens.admission.value)
              && s.gate.flights[x.tokens.handle.id].phase.Admitted?
  {
    hide I.Inv, PastFence;
  }

  lemma Admits(x: Exchange, s: Sys, entry: ScopeEntry, sentinel: nat, deadline: int, c: Clocks)
    requires ExInv(x, s) && x.pc.Holding? && Flies(x, s, entry, sentinel, deadline)
    requires s.gate.state.Ready? && A.InOrder(s.gate, c) && c.check.now + 2_000 <= deadline
    requires L.Authorizes(s.reg, c.check, entry.service, sentinel, s.reg.generation, entry.scope, entry.leaseId)
    requires RA.Usable(s.ledger, c.ledger) && c.ledger.now < deadline
    ensures var (x', s') := Act(x, s, AskAdmit(sentinel, c));
            && ExInv(x', s') && x'.pc.Admitted? && x'.tokens.handle == x.tokens.handle
            && Flies(x', s', entry, sentinel, deadline)
            && s'.gate.state.Ready? && s'.gate.lastNow == c.after.now && Read(s'.ledger, c.ledger)
            && s'.reg == L.CheckAt(L.Tick(s.reg, c.check).0, entry.service, sentinel, s.reg.generation, entry.scope).0
  {
    hide ExInv, I.Inv, Admit, L.Authorizes, L.CheckAt, L.Tick, R.Tick, A.Moved;
    ActKeeps(x, s, AskAdmit(sentinel, c));
    BeginInv(x, s);
    HoldingFlight(x, s);
    A.AdmitExactly(s, x.tokens.handle, sentinel, c);
    I.Parts(s);
    assert A.MayAdmit(s, x.tokens.handle, sentinel, c);
    var (s', r) := Admit(s, x.tokens.handle, sentinel, c);
    MovedRead(s.ledger, s'.ledger, x.tokens.handle.id, R.Connecting, c.ledger);
  }

  lemma Attaches(x: Exchange, s: Sys, entry: ScopeEntry, sentinel: nat, deadline: int)
    requires ExInv(x, s) && x.pc.Admitted? && Flies(x, s, entry, sentinel, deadline) && s.gate.state.Ready?
    ensures var (x1, s1) := Act(x, s, ChannelOk);
            var (x', s') := Act(x1, s1, Attach);
            && ExInv(x', s') && x'.pc.Attached? && x'.tokens.handle == x.tokens.handle
            && Flies(x', s', entry, sentinel, deadline)
            && s'.gate.state.Ready? && s'.gate.lastNow == s.gate.lastNow && s'.ledger == s.ledger && s'.reg == s.reg
  {
    hide ExInv;
    HoldingFlight(x, s);
    ActKeeps(x, s, ChannelOk);
    ActKeeps(Act(x, s, ChannelOk).0, s, Attach);
  }

  lemma Fences(x: Exchange, s: Sys, entry: ScopeEntry, sentinel: nat, deadline: int, c: Clocks)
    requires ExInv(x, s) && x.pc.Attached? && Flies(x, s, entry, sentinel, deadline)
    requires s.gate.state.Ready? && A.InOrder(s.gate, c) && c.tick.now < deadline && c.check.now + 1_500 <= deadline
    requires L.Authorizes(s.reg, c.check, entry.service, sentinel, s.reg.generation, entry.scope, entry.leaseId)
    requires RA.Usable(s.ledger, c.ledger) && c.ledger.now < deadline
    ensures var (x', s') := Act(x, s, AskWrite(sentinel, c));
            && ExInv(x', s') && x'.pc.Fenced? && x'.tokens.handle == x.tokens.handle
            && Flies(x', s', entry, sentinel, deadline)
            && Read(s'.ledger, c.ledger)
  {
    hide ExInv, I.Inv, BeginWrite, L.Authorizes, L.CheckAt, L.Tick, R.Tick, A.Moved;
    ActKeeps(x, s, AskWrite(sentinel, c));
    BeginInv(x, s);
    HoldingFlight(x, s);
    A.WriteExactly(s, x.tokens.admission.value, sentinel, c);
    I.Parts(s);
    assert A.MayWrite(s, x.tokens.admission.value, sentinel, c);
    var (s', r) := BeginWrite(s, x.tokens.admission.value, sentinel, c);
    MovedRead(s.ledger, s'.ledger, x.tokens.handle.id, R.Dispatched, c.ledger);
  }

  function Opening(entry: ScopeEntry, routed: Routed, req: Request, sentinel: nat, t: Times): seq<Choice> {
    [AskReserve(entry, routed, req, t.reserve), AskAdmit(sentinel, t.admit), ChannelOk, Attach,
     AskWrite(sentinel, t.write)]
  }

  /** An undisturbed exchange of a servable request under a standing lease reaches the write fence. */
  lemma Opens(x: Exchange, s: Sys, entry: ScopeEntry, routed: Routed, req: Request, sentinel: nat, t: Times)
    requires ExInv(x, s) && x.pc.Begin? && Orderly(s.gate, s.ledger, t) && Servable(s, entry, routed, req, sentinel, t)
    requires Backed(s.reg, entry, sentinel, t)
    ensures var (x', s') := Acts(x, s, Opening(entry, routed, req, sentinel, t));
            && ExInv(x', s') && x'.pc.Fenced? && Ready(x', s', t.finish, t.finish)
            && x'.tokens.handle.id == s.ledger.issued
  {
    hide ExInv, I.Inv, Act, L.CheckAt, L.Tick, L.Inv, LA.Authorizing, L.Authorizes, A.Stored;
    BeginInv(x, s);
    I.Parts(s);
    LA.AuthorizesAgain(s.reg, t.admit.check, t.write.check, entry.service, sentinel, entry.scope, entry.leaseId);
    Reserves(x, s, entry, routed, req, sentinel, t);
    var (x1, s1) := Act(x, s, AskReserve(entry, routed, req, t.reserve));
    Admits(x1, s1, entry, sentinel, req.deadline, t.admit);
    var (x2, s2) := Act(x1, s1, AskAdmit(sentinel, t.admit));
    Attaches(x2, s2, entry, sentinel, req.deadline);
    var (x3, s3) := Act(x2, s2, ChannelOk);
    var (x4, s4) := Act(x3, s3, Attach);
    Fences(x4, s4, entry, sentinel, req.deadline, t.write);
    FiveActs(x, s, Opening(entry, routed, req, sentinel, t));
  }

  lemma FiveActs(x: Exchange, s: Sys, c: seq<Choice>)
    requires |c| == 5
    ensures var (x1, s1) := Act(x, s, c[0]);
            var (x2, s2) := Act(x1, s1, c[1]);
            var (x3, s3) := Act(x2, s2, c[2]);
            var (x4, s4) := Act(x3, s3, c[3]);
            Acts(x, s, c) == Act(x4, s4, c[4])
  {
    hide Act;
    assert c == [c[0]] + ([c[1]] + [c[2], c[3], c[4]]);
    ActsFirst(x, s, c[0], [c[1]] + [c[2], c[3], c[4]]);
    var (x1, s1) := Act(x, s, c[0]);
    ActsFirst(x1, s1, c[1], [c[2], c[3], c[4]]);
    var (x2, s2) := Act(x1, s1, c[1]);
    Three(x2, s2, c[2], c[3], c[4]);
  }

  /** From any system within the joint invariant, an undisturbed exchange of a servable request under a
      standing lease calls send once and ends with the receipt of how it went; a response found fine
      reaches the client as it is. */
  lemma Served(s: Sys, unused: R.Token, entry: ScopeEntry, routed: Routed, req: Request, sentinel: nat, t: Times,
               e: Ending)
    requires I.Inv(s) && Orderly(s.gate, s.ledger, t) && Servable(s, entry, routed, req, sentinel, t)
    requires Backed(s.reg, entry, sentinel, t)
    ensures var closing := Going(e) + [AskFinish(t.finish), AskFinish(t.finish), AskRelease];
            var (x, s') := Acts(Fresh(unused), s, Opening(entry, routed, req, sentinel, t) + closing);
            x.sends == 1 && Ended(x, s', s.ledger.issued, Told(e))
  {
    hide I.Inv, Act, Acts, Orderly, Servable, Backed, Ready, Ended, Told, Going, Opening;
    var x0, opening := Fresh(unused), Opening(entry, routed, req, sentinel, t);
    var closing := Going(e) + [AskFinish(t.finish), AskFinish(t.finish), AskRelease];
    ActsSplit(x0, s, opening, closing);
    Opens(x0, s, entry, routed, req, sentinel, t);
    var (x1, s1) := Acts(x0, s, opening);
    FencedEnds(x1, s1, e, t.finish, t.finish);
  }
}
