/** Exactly when a quiescent verdict can be trusted, over every system a run can reach. */
module CloseoutTrust {
  import opened Text
  import opened Clock
  import L = Leases
  import R = Receipts
  import opened Gate
  import opened GateInvariant
  import opened Closeout

  /** The shortest time from an admission to the flight's deadline. */
  const SHORTEST: nat := RESPONSE_MARGIN + MIN_ADMISSION

  /** With these two readings every quiescent verdict of every reachable system is right. */
  ghost predicate Trusted(tick: nat, ledger: nat) {
    forall generation: nat, ops: seq<Op>, leaseId: nat, c: Clocks
      | c.tick == At(tick) && c.ledger == At(ledger)
          && CloseoutVerdict(Run(Start(generation), ops), leaseId, c).Quiescent? ::
      NoneOpen(CloseoutSys(Run(Start(generation), ops), c).0.gate, leaseId)
  }

  // --- A flight admitted at `at` with the shortest deadline, its lease revoked right away -------------

  function Same(now: nat): Clocks { Clocks(At(now), At(now), At(now), At(now), At(now)) }

  function TheGrant(at: nat): L.Grant { L.Grant(0, 0, 0, 0, 0, 0, at + L.LEASE, 1) }

  function Wanting(at: nat): L.Wanted { L.Wanted(0, 0, 0, 0, 0, at + L.LEASE) }

  function Reg(at: nat, records: map<nat, L.Record>, bindings: map<(nat, nat, nat), nat>, issued: nat): L.Registry {
    L.Registry(0, records, bindings, Some(0), at, false, false, at, issued)
  }

  function WithLease(at: nat, state: L.LeaseState, launch: Option<int>, retired: Option<int>): L.Registry {
    Reg(at, map[0 := L.Record(TheGrant(at), at, state, launch, retired)], map[(0, 0, 0) := 0], 2)
  }

  function TheEntry(at: nat): ScopeEntry { ScopeEntry(0, 0, 0, 0, 0, at + L.LEASE, at, 0) }

  function TheScopes(at: nat): map<nat, Scope> { map[0 := Scope(TheEntry(at), 1, SCOPE_OVERHEAD)] }

  function TheFlight(at: nat, phase: FlightPhase, admission: Option<nat>): Flight {
    Flight(1, R.Token(0, 0), 0, 0, 0, 1, false, at + SHORTEST, phase, false, admission, NoAbort)
  }

  function TheLedger(at: nat, phase: R.Phase): R.Ledger {
    R.Ledger(map[0 := R.Entry(R.Meta(0, 0, None, 0, 0, 0, 0), 0, at + SHORTEST, at, 0, phase)], at, false, 1)
  }

  function Installing(at: nat): Op { DoInstall(TheGrant(at), 0, Manifest(0, 0, 0, 0, 0), Same(at)) }

  function Reserving(at: nat): Op {
    DoReserve(TheEntry(at), Routed(0, 0, 0, true, false), Request(0, 0, at + SHORTEST, 0), Same(at))
  }

  /** Handshake, registration and activation; then the scope, the flight and its admission; then the revocation. */
  function Straddling(at: nat): seq<Op> {
    [Control(L.Handshake(At(at), 0, 0)), Control(L.Register(At(at), Wanting(at), 0, true)),
     Control(L.Activate(At(at), 0, 0, 0, at)), Installing(at), Reserving(at),
     DoAdmit(R.Token(0, 1), 1, Same(at)), Control(L.Revoke(At(at), 0, 0, 0))]
  }

  function Straddled(at: nat): Sys {
    Sys(Gate(TheScopes(at), map[0 := TheFlight(at, Admitted, Some(2))], Ready, false, at, 3),
        WithLease(at, L.Revoked, Some(at), Some(at)), TheLedger(at, R.Connecting))
  }

  // --- The run, step by step ------------------------------------------------------------------------------

  lemma Handshakes(at: nat)
    ensures L.Step(L.Fresh(0), L.Handshake(At(at), 0, 0)) == Reg(at, map[], map[], 0)
  {
    assert L.Settle(L.Fresh(0), at) == L.Fresh(0).(lastNow := at);
  }

  lemma Settled(at: nat, records: map<nat, L.Record>, bindings: map<(nat, nat, nat), nat>, issued: nat)
    requires forall id | id in records ::
            records[id].createdAt == at && (L.Live(records[id]) ==> at < L.Limit(records[id]))
    requires forall b | b in bindings :: bindings[b] in records
    ensures L.Settle(Reg(at, records, bindings, issued), at) == Reg(at, records, bindings, issued)
  {
    var l := Reg(at, records, bindings, issued);
    assert L.PrunedRecords(records, at) == records;
    assert L.PrunedBindings(l, at) == bindings;
    assert L.ExpireAll(records, at) == records;
  }

  lemma Registers(at: nat)
    ensures L.Step(Reg(at, map[], map[], 0), L.Register(At(at), Wanting(at), 0, true)) ==
            WithLease(at, L.Registered, None, None)
  {
    Settled(at, map[], map[], 0);
    assert L.LiveIds(map[]) == {};
  }

  lemma LeaseSettled(at: nat, state: L.LeaseState, launch: Option<int>, retired: Option<int>)
    requires launch.Some? ==> launch.value == at
    ensures L.Settle(WithLease(at, state, launch, retired), at) == WithLease(at, state, launch, retired)
    ensures L.Expire(WithLease(at, state, launch, retired).records[0], at) ==
            WithLease(at, state, launch, retired).records[0]
  {
    var l := WithLease(at, state, launch, retired);
    Settled(at, l.records, l.bindings, 2);
  }

  lemma Activates(at: nat)
    ensures L.Step(WithLease(at, L.Registered, None, None), L.Activate(At(at), 0, 0, 0, at)) ==
            WithLease(at, L.Active, Some(at), None)
  {
    hide L.Settle, L.Expire;
    LeaseSettled(at, L.Registered, None, None);
  }

  lemma Revokes(at: nat)
    ensures L.Step(WithLease(at, L.Active, Some(at), None), L.Revoke(At(at), 0, 0, 0)) ==
            WithLease(at, L.Revoked, Some(at), Some(at))
  {
    hide L.Settle, L.Expire;
    LeaseSettled(at, L.Active, Some(at), None);
  }

  lemma Checks(at: nat)
    ensures var reg := WithLease(at, L.Active, Some(at), None);
            && L.Tick(reg, At(at)) == (reg, L.Ok(at))
            && L.CheckAt(reg, 0, 1, 0, 0) == (reg, L.Verdict(Some(0), L.Authorized, at))
  {
    hide L.Settle, L.Expire;
    var reg := WithLease(at, L.Active, Some(at), None);
    LeaseSettled(at, L.Active, Some(at), None);
    assert L.Matches(reg.records[0], 0, 1);
    assert reg.records[0 := reg.records[0]] == reg.records;
  }

  lemma Installs(at: nat)
    ensures var reg := WithLease(at, L.Active, Some(at), None);
            Step(Sys(Gate(map[], map[], Ready, false, 0, 0), reg, R.EMPTY), Installing(at)) ==
                Sys(Gate(TheScopes(at), map[], Ready, false, at, 1), reg, R.EMPTY)
  {
    hide L.Tick, L.CheckAt;
    Checks(at);
    var g := Gate(map[], map[], Ready, false, 0, 0);
    assert SweepFlights(g.flights, at) == map[] && PruneScopes(g.scopes, at) == map[];
    assert Bytes(map[]) == 0;
  }

  lemma Reserves(at: nat)
    ensures var reg := WithLease(at, L.Active, Some(at), None);
            Step(Sys(Gate(TheScopes(at), map[], Ready, false, at, 1), reg, R.EMPTY), Reserving(at)) ==
                Sys(Gate(TheScopes(at), map[0 := TheFlight(at, Waiting, None)], Ready, false, at, 2), reg,
                   TheLedger(at, R.Reserved))
  {
    var g := Gate(TheScopes(at), map[], Ready, false, at, 1);
    assert SweepFlights(g.flights, at) == map[] && PruneScopes(g.scopes, at) == g.scopes;
    assert R.Pruned(R.Swept(map[], at), at) == map[];
    assert R.Charges(map[]) == 0;
  }

  lemma Advances(at: nat)
    ensures var g := Gate(TheScopes(at), map[0 := TheFlight(at, Waiting, None)], Ready, false, at, 2);
            Advance(g, At(at)) == (g, Some(at)) && ReadClock(g, At(at)) == (g, Some(at))
  {
    var g := Gate(TheScopes(at), map[0 := TheFlight(at, Waiting, None)], Ready, false, at, 2);
    assert SweepFlights(g.flights, at) == g.flights && PruneScopes(g.scopes, at) == g.scopes;
  }

  lemma Connects(at: nat)
    ensures R.BeginConnect(TheLedger(at, R.Reserved), At(at), R.Token(0, 0)) == (TheLedger(at, R.Connecting), R.Ok(()))
  {
    var l := TheLedger(at, R.Reserved);
    assert R.Pruned(R.Swept(l.entries, at), at) == l.entries;
    assert l.entries[0 := l.entries[0].(phase := R.Connecting)] == TheLedger(at, R.Connecting).entries;
  }

  lemma Admits(at: nat)
    ensures var reg := WithLease(at, L.Active, Some(at), None);
            Step(Sys(Gate(TheScopes(at), map[0 := TheFlight(at, Waiting, None)], Ready, false, at, 2), reg,
                     TheLedger(at, R.Reserved)),
                 DoAdmit(R.Token(0, 1), 1, Same(at))) == Straddled(at).(reg := reg)
  {
    hide L.Tick, L.CheckAt, Advance, ReadClock, R.BeginConnect, FinalizeAndDrop;
    Checks(at);
    Advances(at);
    Connects(at);
    var g := Gate(TheScopes(at), map[0 := TheFlight(at, Waiting, None)], Ready, false, at, 2);
    assert g.flights[0 := TheFlight(at, Admitted, Some(2))] == Straddled(at).gate.flights;
  }

  lemma Straddles(at: nat)
    ensures Run(Start(0), Straddling(at)) == Straddled(at)
  {
    hide L.Step, InstallScope, Reserve, Admit, Run;
    var ops := Straddling(at);
    Handshakes(at);
    Registers(at);
    Activates(at);
    Installs(at);
    Reserves(at);
    Admits(at);
    Revokes(at);
    RunStep(Start(0), ops);
    var s1 := Step(Start(0), ops[0]);
    RunStep(s1, ops[1..]);
    var s2 := Step(s1, ops[1]);
    RunStep(s2, ops[2..]);
    var s3 := Step(s2, ops[2]);
    RunStep(s3, ops[3..]);
    var s4 := Step(s3, ops[3]);
    RunStep(s4, ops[4..]);
    var s5 := Step(s4, ops[4]);
    RunStep(s5, ops[5..]);
    var s6 := Step(s5, ops[5]);
    RunStep(s6, ops[6..]);
    RunStep(Step(s6, ops[6]), ops[7..]);
  }

  lemma RunStep(s: Sys, ops: seq<Op>)
    ensures ops == [] ==> Run(s, ops) == s
    ensures ops != [] ==> Run(s, ops) == Run(Step(s, ops[0]), ops[1..])
  {
    hide Step;
  }

  // --- The wrong verdict ---------------------------------------------------------------------------------------

  /** The gate does not see the deadline yet, and the ledger already has. */
  lemma GateBefore(at: nat, tick: nat)
    requires at <= tick < at + SHORTEST
    ensures var (g, now) := Advance(Straddled(at).gate, At(tick));
            now.Some? && g.flights == Straddled(at).gate.flights && OverdueIds(g, 0) == {}
  {
    assert SweepFlights(Straddled(at).gate.flights, tick) == Straddled(at).gate.flights;
  }

  lemma LedgerAfter(at: nat, ledger: nat)
    requires at + SHORTEST <= ledger
    ensures var t := R.Tick(Straddled(at).ledger, At(ledger)).0; !t.held && InFlightIds(t, 0) == {}
  {
  }

  lemma LeaseRevoked(at: nat, tick: nat)
    requires at <= tick < at + SHORTEST
    ensures var t := L.Tick(Straddled(at).reg, At(tick)).0; !t.held && 0 in t.records && t.records[0].state.Revoked?
  {
  }

  lemma WrongVerdict(at: nat, tick: nat, ledger: nat)
    requires at <= tick < at + SHORTEST <= ledger
    ensures var s, c := Straddled(at), Same(tick).(ledger := At(ledger));
            CloseoutVerdict(s, 0, c).Quiescent? && !NoneOpen(CloseoutSys(s, c).0.gate, 0)
  {
    hide L.Tick, R.Tick, Advance, InFlightIds, OverdueIds;
    GateBefore(at, tick);
    LedgerAfter(at, ledger);
    LeaseRevoked(at, tick);
    assert Straddled(at).gate.flights[0].phase.Admitted?;
  }

  /** Over every reachable system a quiescent verdict can be trusted exactly when the gate reads its
      clock no earlier than the ledger does, which taking the ledger's snapshot first on one clock
      ensures, or when the ledger reads less than the shortest deadline there can be. */
  lemma TrustedExactly(tick: nat, ledger: nat)
    ensures Trusted(tick, ledger) <==> tick >= ledger || ledger < 2_000
  {
    hide Inv, CloseoutVerdict, CloseoutSys, Run;
    if tick >= ledger || ledger < SHORTEST {
      forall generation: nat, ops: seq<Op>, leaseId: nat, c: Clocks
        | c.tick == At(tick) && c.ledger == At(ledger)
            && CloseoutVerdict(Run(Start(generation), ops), leaseId, c).Quiescent?
        ensures NoneOpen(CloseoutSys(Run(Start(generation), ops), c).0.gate, leaseId)
      {
        StartInv(generation);
        RunSteps(Start(generation), ops);
        Sound(Run(Start(generation), ops), leaseId, c);
      }
    } else {
      var at := if tick + 1 >= SHORTEST then tick + 1 - SHORTEST else 0;
      Straddles(at);
      WrongVerdict(at, tick, ledger);
      assert CloseoutVerdict(Run(Start(0), Straddling(at)), 0, Same(tick).(ledger := At(ledger))).Quiescent?;
    }
  }

  lemma Sound(s: Sys, leaseId: nat, c: Clocks)
    requires Inv(s) && CloseoutVerdict(s, leaseId, c).Quiescent?
    requires c.tick.At? && c.ledger.At? && (c.tick.now >= c.ledger.now || c.ledger.now < SHORTEST)
    ensures NoneOpen(CloseoutSys(s, c).0.gate, leaseId)
  {
    hide Inv, CloseoutVerdict, CloseoutSys;
    var g := CloseoutSys(s, c).0.gate;
    forall id | id in g.flights && g.flights[id].leaseId == leaseId ensures g.flights[id].phase.Waiting? {
      QuiescentWaits(s, leaseId, c, id);
    }
  }
}
