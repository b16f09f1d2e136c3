/** A run in which a replaced control session holds the registry of the session that replaced it. */
module ControlWitness {
  import opened Text
  import opened Clock
  import L = Leases
  import R = Receipts
  import opened Gate
  import I = GateInvariant
  import T = CloseoutTrust
  import opened ControlFence

  /** After the flight's deadline, well before anyone's heartbeat is late. */
  const LATER: nat := 3_000

  function Took(reg: L.Registry, gate: Gate, ledger: R.Ledger, granted: set<nat>, watching: Option<Watch>): Control {
    Control(Sys(gate, reg, ledger), map[0 := Session(0, granted, watching)], Some(0), None, false)
  }

  /** The first session takes over an empty registry. */
  lemma FirstTakes()
    ensures var c := Start(0);
            Step(Step(c, Displace(0, 0, At(0))), Greet(At(0))) ==
                Took(T.Reg(0, map[], map[], 0), c.sys.gate, c.sys.ledger, {}, None)
  {
    assert L.Settle(L.Fresh(0), 0) == L.Fresh(0);
  }

  /** A command of the first session, given what the registry does with it. */
  lemma SendIs(reg: L.Registry, gate: Gate, ledger: R.Ledger, granted: set<nat>, command: Command)
    ensures var (reg', lease) := Calling(reg, 0, At(0), command);
            Step(Took(reg, gate, ledger, granted, None), Send(0, command, At(0))) ==
                Took(reg', gate, ledger, if lease.Some? then granted + {lease.value} else granted,
                    Watching(reg, 0, At(0), command))
  {
    hide Calling, Watching;
    var c := Took(reg, gate, ledger, granted, None);
    assert c.sessions[0 := Session(0, granted, None)] == c.sessions;
  }

  lemma Registering(gate: Gate, ledger: R.Ledger)
    ensures Step(Took(T.Reg(0, map[], map[], 0), gate, ledger, {}, None),
                 Send(0, Register(0, 0, 0, 0, L.LEASE, true), At(0))) ==
                     Took(T.WithLease(0, L.Registered, None, None), gate, ledger, {0}, None)
  {
    hide L.Tick, L.RegisterAt, Step;
    RegisterOk();
    SendIs(T.Reg(0, map[], map[], 0), gate, ledger, {}, Register(0, 0, 0, 0, L.LEASE, true));
    assert {} + {0} == {0};
  }

  lemma RegisterOk()
    ensures var reg := T.Reg(0, map[], map[], 0);
            && L.Tick(reg, At(0)) == (reg, L.Ok(0))
            && L.RegisterAt(reg, L.Wanted(0, 0, 0, 0, 0, L.LEASE), 0, true) ==
                (T.WithLease(0, L.Registered, None, None), L.Ok(T.TheGrant(0)))
  {
    T.Settled(0, map[], map[], 0);
    assert L.LiveIds(map[]) == {};
  }

  lemma Activating(gate: Gate, ledger: R.Ledger)
    ensures Step(Took(T.WithLease(0, L.Registered, None, None), gate, ledger, {0}, None),
                 Send(0, Activate(0, 0), At(0))) ==
                     Took(T.WithLease(0, L.Active, Some(0), None), gate, ledger, {0}, None)
  {
    hide L.Settle, L.Expire, Step;
    T.LeaseSettled(0, L.Registered, None, None);
    SendIs(T.WithLease(0, L.Registered, None, None), gate, ledger, {0}, Activate(0, 0));
  }

  lemma Revoking(gate: Gate, ledger: R.Ledger)
    ensures Step(Took(T.WithLease(0, L.Active, Some(0), None), gate, ledger, {0}, None), Send(0, Revoke(0), At(0))) ==
            Took(T.WithLease(0, L.Revoked, Some(0), Some(0)), gate, ledger, {0}, Some(Watch(0, true)))
  {
    hide L.Settle, L.Expire, Step;
    T.LeaseSettled(0, L.Active, Some(0), None);
    SendIs(T.WithLease(0, L.Active, Some(0), None), gate, ledger, {0}, Revoke(0));
  }

  /** The first session registers and activates a lease, a flight is admitted under it, and the
      lease is revoked; its closeout has still to be observed. */
  function FirstEvents(): seq<Event> {
    [Displace(0, 0, At(0)), Greet(At(0)), Send(0, Register(0, 0, 0, 0, L.LEASE, true), At(0)),
     Send(0, Activate(0, 0), At(0)),
     Install(0, T.TheGrant(0), Manifest(0, 0, 0, 0, 0), T.Same(0)), Other(T.Reserving(0)),
         Other(I.DoAdmit(R.Token(0, 1), 1, T.Same(0))),
     Send(0, Revoke(0), At(0))]
  }

  function First(): Control {
    var s := T.Straddled(0);
    Took(s.reg, s.gate, s.ledger, {0}, Some(Watch(0, true)))
  }

  lemma RunStep(c: Control, events: seq<Event>)
    ensures events == [] ==> Run(c, events) == c
    ensures events != [] ==> Run(c, events) == Run(Step(c, events[0]), events[1..])
  {
    hide Step;
  }

  lemma FlightAdmitted()
    ensures var c := Took(T.WithLease(0, L.Active, Some(0), None), Start(0).sys.gate, R.EMPTY, {0}, None);
            Step(Step(Step(c, FirstEvents()[4]), FirstEvents()[5]), FirstEvents()[6]) ==
                c.(sys := T.Straddled(0).(reg := T.WithLease(0, L.Active, Some(0), None)))
  {
    hide InstallScope, Reserve, Admit;
    T.Installs(0);
    T.Reserves(0);
    T.Admits(0);
  }

  lemma FirstRuns(rest: seq<Event>)
    ensures Run(Start(0), FirstEvents() + rest) == Run(First(), rest)
  {
    hide Run, Step;
    var events := FirstEvents() + rest;
    var c0 := Start(0);
    RunStep(c0, events);
    var c1 := Step(c0, events[0]);
    RunStep(c1, events[1..]);
    var c2 := Step(c1, events[1]);
    FirstTakes();
    RunStep(c2, events[2..]);
    Registering(c0.sys.gate, R.EMPTY);
    var c3 := Step(c2, events[2]);
    RunStep(c3, events[3..]);
    Activating(c0.sys.gate, R.EMPTY);
    var c4 := Step(c3, events[3]);
    RunStep(c4, events[4..]);
    var c5 := Step(c4, events[4]);
    RunStep(c5, events[5..]);
    var c6 := Step(c5, events[5]);
    RunStep(c6, events[6..]);
    var c7 := Step(c6, events[6]);
    FlightAdmitted();
    RunStep(c7, events[7..]);
    Revoking(T.Straddled(0).gate, T.Straddled(0).ledger);
    assert events[8..] == rest;
  }

  // --- The second session ---------------------------------------------------------------------------------

  lemma Disconnects()
    ensures var (u, ok) := Disconnecting(First().sys.reg, 0, At(LATER));
            ok && !u.held && u.generation == 0 && u.lastNow == LATER && u.boot.None?
  {
  }

  lemma Shakes(reg: L.Registry)
    requires !reg.held && reg.generation == 0 && reg.lastNow == LATER && reg.boot.None?
    ensures var (u, ok) := Handshaking(reg, 1, At(LATER)); ok && !u.held && u.lastNow == LATER && u.boot == Some(1)
  {
  }

  lemma SecondTakes()
    ensures var m := Step(Step(First(), Displace(1, 1, At(LATER))), Greet(At(LATER)));
            && m.owner == Some(1) && m.sys.reg.boot == Some(1) && !m.sys.reg.held && m.sys.reg.lastNow == LATER
            && m.sys.gate == T.Straddled(0).gate
            && m.sessions.Keys == {0, 1} && m.sessions[0] == First().sessions[0]
  {
    hide Disconnecting, Handshaking;
    Disconnects();
    Shakes(Disconnecting(First().sys.reg, 0, At(LATER)).0);
  }

  lemma FlightOverdue(s: Sys)
    requires s.gate == T.Straddled(0).gate
    ensures OverdueIds(CloseoutSys(s, T.Same(LATER)).0.gate, 0) != {}
  {
    hide L.Tick, R.Tick;
    assert 0 in OverdueIds(CloseoutSys(s, T.Same(LATER)).0.gate, 0);
  }

  lemma StillReads(reg: L.Registry)
    requires !reg.held && reg.lastNow == LATER
    ensures !L.Tick(reg, At(LATER)).0.held
  {
  }

  /** From the start: the second session owns an unheld registry, and the first one's late
      observation, refused because a flight is overdue, holds it. */
  lemma ReplacedHolds()
    ensures exists events: seq<Event>, e: Event ::
      var m := Run(Start(0), events);
      && e.Observe? && e.sid in m.sessions && m.owner.Some? && m.owner != Some(e.sid)
      && m.owner.value in m.sessions && m.sys.reg.boot == Some(m.sessions[m.owner.value].boot)
          && !m.sys.reg.held
      && HoldsFromBehind(m, e) && Step(m, e).sys.reg.held
  {
    hide Run, Refuses, CloseoutSys, L.Tick, OverdueIds, Displacing, Greeting;
    var rest := [Displace(1, 1, At(LATER)), Greet(At(LATER))];
    var events := FirstEvents() + rest;
    FirstRuns(rest);
    RunStep(First(), rest);
    RunStep(Step(First(), rest[0]), rest[1..]);
    var m := Step(Step(First(), rest[0]), rest[1]);
    RunStep(m, rest[2..]);
    assert m == Run(Start(0), events);
    SecondTakes();
    SecondBoot();
    var e := Observe(0, T.Same(LATER));
    FlightOverdue(m.sys);
    RefusesExactly(m.sys, Watch(0, true), T.Same(LATER));
    StillReads(m.sys.reg);
    assert HoldsFromBehind(m, e);
  }

  lemma SecondBoot()
    ensures var m := Step(Step(First(), Displace(1, 1, At(LATER))), Greet(At(LATER)));
            1 in m.sessions && m.sessions[1].boot == 1
  {
    hide Disconnecting, Handshaking;
    Disconnects();
  }
}
