/** When exactly a control session takes over, and what its commands then do. */
module ControlAnswers {
  import opened Text
  import opened Clock
  import L = Leases
  import R = Receipts
  import A = LeaseAnswers
  import opened Gate
  import I = GateInvariant
  import C = Closeout
  import opened ControlFence

  // --- The owner is the connected receiver -----------------------------------------------------------

  /** Unless the registry is held or ownership is just moving, the registry's receiver is the owner. */
  ghost predicate Connected(c: Control) {
    c.owner.Some? && c.owner.value in c.sessions && c.taking.None? && !c.sys.reg.held ==>
      c.sys.reg.boot == Some(c.sessions[c.owner.value].boot)
  }

  /** Same receiver, and held if it was. */
  predicate SameReceiver(a: L.Registry, b: L.Registry) { b.boot == a.boot && (a.held ==> b.held) }

  lemma TickSame(reg: L.Registry, clock: Reading)
    ensures SameReceiver(reg, L.Tick(reg, clock).0)
  {
  }

  lemma CheckSame(t: L.Registry, service: nat, sentinel: nat, generation: nat, scope: nat)
    ensures SameReceiver(t, L.CheckAt(t, service, sentinel, generation, scope).0)
  {
  }

  lemma CheckedSame(reg: L.Registry, clock: Reading, service: nat, sentinel: nat, generation: nat, scope: nat)
    ensures var t := L.Tick(reg, clock).0;
            SameReceiver(reg, t) && SameReceiver(reg, L.CheckAt(t, service, sentinel, generation, scope).0)
  {
    hide L.Tick, L.CheckAt;
    TickSame(reg, clock);
    CheckSame(L.Tick(reg, clock).0, service, sentinel, generation, scope);
  }

  lemma InstallSame(s: Sys, grant: L.Grant, generation: nat, m: Manifest, clocks: Clocks)
    ensures SameReceiver(s.reg, InstallScope(s, grant, generation, m, clocks).0.reg)
  {
    hide L.Tick, L.CheckAt, Advance, StoreScope, Verified;
    CheckedSame(s.reg, clocks.check, grant.service, grant.sentinel, generation, grant.scope);
    var t := L.Tick(s.reg, clocks.check).0;
    TickSame(L.CheckAt(t, grant.service, grant.sentinel, generation, grant.scope).0, clocks.after);
  }

  lemma LeaseCheckSame(s: Sys, f: Flight, sentinel: nat, c: Clocks)
    ensures SameReceiver(s.reg, CheckLease(s, f, sentinel, c).0.reg)
  {
    hide L.Tick, L.CheckAt, Advance;
    CheckedSame(s.reg, c.check, f.service, sentinel, s.reg.generation, f.scope);
  }

  lemma AdmitSame(s: Sys, handle: R.Token, sentinel: nat, c: Clocks)
    ensures SameReceiver(s.reg, Admit(s, handle, sentinel, c).0.reg)
  {
    hide CheckLease, Advance, R.BeginConnect, R.Finalize;
    if FindHandle(s.gate, handle) {
      C.FlightsStay(s.gate, c.tick);
      var g := Advance(s.gate, c.tick).0;
      LeaseCheckSame(s.(gate := g), g.flights[handle.id], sentinel, c);
    }
  }

  lemma WriteSame(s: Sys, token: R.Token, sentinel: nat, c: Clocks)
    ensures SameReceiver(s.reg, BeginWrite(s, token, sentinel, c).0.reg)
  {
    hide CheckLease, Advance, R.BeginDispatch, R.Finalize;
    if FindAdmission(s.gate, token) {
      C.FlightsStay(s.gate, c.tick);
      var g := Advance(s.gate, c.tick).0;
      LeaseCheckSame(s.(gate := g), g.flights[token.id], sentinel, c);
    }
  }

  lemma PrecheckSame(s: Sys, entry: ScopeEntry, sentinel: nat, clock: Reading)
    ensures SameReceiver(s.reg, Precheck(s, entry, sentinel, clock).0.reg)
  {
    hide L.Tick, L.CheckAt;
    CheckedSame(s.reg, clock, entry.service, sentinel, s.reg.generation, entry.scope);
  }

  /** No operation of the gate or the ledger changes the receiver. */
  lemma GateSame(s: Sys, op: I.Op)
    requires !op.Control?
    ensures SameReceiver(s.reg, I.Step(s, op).reg)
  {
    hide InstallScope, Precheck, Deny, Reserve, Admit, BeginWrite, Finish, CloseoutSys, Advance, L.Tick;
    match op
    case DoInstall(grant, generation, m, c) => InstallSame(s, grant, generation, m, c);
    case DoPrecheck(entry, sentinel, clock) => PrecheckSame(s, entry, sentinel, clock);
    case DoDeny(entry, routeId, req, reason, r, f) => C.DenyReg(s, entry, routeId, req, reason, r, f);
    case DoReserve(entry, routed, req, c) => C.ReserveReg(s, entry, routed, req, c);
    case DoAdmit(handle, sentinel, c) => AdmitSame(s, handle, sentinel, c);
    case DoBeginWrite(token, sentinel, c) => WriteSame(s, token, sentinel, c);
    case DoFinish(token, clock, state, reason, upstream) => C.FinishReg(s, token, clock, state, reason, upstream);
    case DoCloseout(_, c) => CloseoutSame(s, c);
    case DoNow(_) =>
    case DoResolve(_, _, _) =>
    case DoAttach(_) =>
    case DoRelease(_) =>
    case DoShutdown =>
    case DoClaim(_, _, _) =>
    case DoComplete(_, _, _, _) =>
  }

  lemma CloseoutSame(s: Sys, c: Clocks)
    ensures SameReceiver(s.reg, CloseoutSys(s, c).0.reg)
  {
    hide L.Tick, CloseoutSys;
    CloseoutReg(s, c);
    TickSame(s.reg, c.check);
  }

  lemma CallingSame(reg: L.Registry, boot: nat, clock: Reading, command: Command)
    ensures SameReceiver(reg, Calling(reg, boot, clock, command).0)
  {
    hide L.Tick, L.LiveIds, L.Expire;
    TickSame(reg, clock);
  }

  // --- Taking over ---------------------------------------------------------------------------------------

  /** A disconnection of the connected receiver succeeds exactly with a reading the registry takes; it leaves no
      receiver and no live lease. Otherwise the registry is held. */
  lemma DisconnectsExactly(reg: L.Registry, boot: nat, clock: Reading)
    requires L.Inv(reg) && (reg.held || reg.boot == Some(boot))
    ensures var (u, ok) := Disconnecting(reg, boot, clock);
            && (ok <==> A.Usable(reg, clock)) && (!ok ==> u.held)
            && (ok ==> u.boot.None? && !u.held && u.lastNow == clock.now && u.generation == reg.generation)
  {
    hide L.Inv, L.Tick;
    if A.Usable(reg, clock) {
      A.ContactExactly(reg, clock, boot, reg.generation);
      A.HeaderAfter(reg, clock);
      A.RecordAfter(reg, clock, 0);
    } else {
      A.Unusable(reg, clock);
    }
  }

  /** A handshake succeeds exactly with such a reading, and then this receiver is connected, heard from just
      now. */
  lemma GreetsExactly(reg: L.Registry, boot: nat, clock: Reading)
    requires L.Inv(reg)
    ensures var (u, ok) := Handshaking(reg, boot, clock);
            && (ok <==> A.Usable(reg, clock)) && (!ok ==> u.held)
            && (ok ==> u.boot == Some(boot) && u.lastHeartbeat == clock.now == u.lastNow && !u.stale && !u.held)
  {
    hide L.Inv, L.Tick;
    if A.Usable(reg, clock) {
      A.ContactExactly(reg, clock, boot, reg.generation);
      A.HeaderAfter(reg, clock);
      A.RecordAfter(reg, clock, 0);
    } else {
      A.Unusable(reg, clock);
    }
  }

  lemma DisplaceConnected(c: Control, sid: nat, boot: nat, clock: Reading)
    requires Inv(c) && Connected(c) && c.taking.None? && sid !in c.sessions
    ensures Connected(Displacing(c, sid, boot, clock))
  {
    hide I.Inv, Fenced, Issued, Taking, Disconnecting, L.Inv;
    I.Parts(c.sys);
    if c.owner.Some? { DisconnectsExactly(c.sys.reg, c.sessions[c.owner.value].boot, clock); }
  }

  lemma GreetConnected(c: Control, clock: Reading)
    requires Inv(c) && c.taking.Some? && c.taking.value in c.sessions
    ensures Connected(Greeting(c, clock))
  {
    hide I.Inv, Fenced, Issued, Taking, Handshaking, L.Inv;
    I.Parts(c.sys);
    GreetsExactly(c.sys.reg, c.sessions[c.taking.value].boot, clock);
  }

  lemma SendConnected(c: Control, sid: nat, command: Command, clock: Reading)
    requires Connected(c) && sid in c.sessions
    ensures Connected(Sending(c, sid, command, clock))
  {
    hide Calling, Watching;
    CallingSame(c.sys.reg, c.sessions[sid].boot, clock, command);
  }

  lemma ObserveConnected(c: Control, sid: nat, clocks: Clocks)
    requires Connected(c) && sid in c.sessions && c.sessions[sid].watching.Some?
    ensures Connected(Observing(c, sid, clocks))
  {
    hide Refuses, CloseoutSys;
    CloseoutSame(c.sys, clocks);
  }

  lemma SysConnected(c: Control, sys: Sys)
    requires Connected(c) && SameReceiver(c.sys.reg, sys.reg)
    ensures Connected(c.(sys := sys))
  {
  }

  lemma StepConnected(c: Control, e: Event)
    requires Inv(c) && Connected(c)
    ensures Connected(Step(c, e))
  {
    hide Inv, Connected, SameReceiver, Displacing, Greeting, Sending, Observing, Disconnecting, InstallScope, I.Step;
    match e
    case Displace(sid, boot, clock) =>
      if c.taking.None? && sid !in c.sessions { DisplaceConnected(c, sid, boot, clock); }
    case Greet(clock) =>
      if c.taking.Some? && c.taking.value in c.sessions { GreetConnected(c, clock); }
    case Send(sid, command, clock) =>
      if sid in c.sessions { SendConnected(c, sid, command, clock); }
    case Install(sid, grant, manifest, clocks) =>
      InstallSame(c.sys, grant, c.sys.reg.generation, manifest, clocks);
      SysConnected(c, InstallScope(c.sys, grant, c.sys.reg.generation, manifest, clocks).0);
    case Observe(sid, clocks) =>
      if sid in c.sessions && c.sessions[sid].watching.Some? { ObserveConnected(c, sid, clocks); }
    case Leave(sid, clock) =>
      if sid in c.sessions { Ownerless(c, Disconnecting(c.sys.reg, c.sessions[sid].boot, clock).0); }
    case Shutdown => HeldConnected(c);
    case Other(op) =>
      if !op.Control? {
        GateSame(c.sys, op);
        SysConnected(c, I.Step(c.sys, op));
      }
  }

  lemma Ownerless(c: Control, reg: L.Registry)
    ensures Connected(WithReg(c, reg).(owner := None))
  {
  }

  lemma HeldConnected(c: Control)
    ensures Connected(WithReg(c, c.sys.reg.(held := true)).(closed := true))
  {
  }

  lemma {:induction false} RunConnected(c: Control, events: seq<Event>)
    requires Inv(c) && Connected(c)
    ensures Inv(Run(c, events)) && Connected(Run(c, events))
    decreases |events|
  {
    hide Inv, Connected, Step;
    if events != [] {
      StepKeeps(c, events[0]);
      StepConnected(c, events[0]);
      RunConnected(Step(c, events[0]), events[1..]);
    }
  }

  lemma StartConnected(generation: nat)
    ensures Connected(Start(generation))
  {
  }

  /** In every interleaving from the start, a new session becomes the owner exactly when the registry takes both
      readings of the takeover: one to disconnect the previous owner, if there is one, and one to greet the new.
      It is then the connected receiver, heard from just now, and every lease granted to another session is
      gone. Otherwise the registry is held and the ownership stays where it was. */
  lemma TakesOverExactly(generation: nat, events: seq<Event>, sid: nat, boot: nat, first: Reading, second: Reading)
    requires var m := Run(Start(generation), events); !m.closed && m.taking.None? && sid !in m.sessions
    ensures var m := Run(Start(generation), events);
            var d := Step(m, Displace(sid, boot, first));
            var n := Step(d, Greet(second));
            var taken := (m.owner.Some? ==> A.Usable(m.sys.reg, first)) && A.Usable(d.sys.reg, second);
            && (n.owner == Some(sid) <==> taken)
            && (taken ==>
                  && n.sys.reg.boot == Some(boot) && n.sys.reg.lastHeartbeat == second.now && !n.sys.reg.held
                  && (m.owner.Some? ==> first.now <= second.now)
                  && forall other, id | other in n.sessions && other != sid && id in n.sessions[other].granted ::
                       C.Gone(n.sys.reg, id))
            && (!taken ==> n.sys.reg.held && n.owner == m.owner)
  {
    hide Inv, Run, Step, Connected, C.Gone, A.Usable;
    StartInv(generation);
    StartConnected(generation);
    RunConnected(Start(generation), events);
    var m := Run(Start(generation), events);
    TakesOverFrom(m, sid, boot, first, second);
  }

  lemma TakesOverFrom(m: Control, sid: nat, boot: nat, first: Reading, second: Reading)
    requires Inv(m) && Connected(m) && !m.closed && m.taking.None? && sid !in m.sessions
    ensures var d := Step(m, Displace(sid, boot, first));
            var n := Step(d, Greet(second));
            var taken := (m.owner.Some? ==> A.Usable(m.sys.reg, first)) && A.Usable(d.sys.reg, second);
            && (n.owner == Some(sid) <==> taken)
            && (taken ==>
                  && n.sys.reg.boot == Some(boot) && n.sys.reg.lastHeartbeat == second.now && !n.sys.reg.held
                  && (m.owner.Some? ==> first.now <= second.now)
                  && forall other, id | other in n.sessions && other != sid && id in n.sessions[other].granted ::
                       C.Gone(n.sys.reg, id))
            && (!taken ==> n.sys.reg.held && n.owner == m.owner)
  {
    hide I.Inv, L.Inv, L.Evolves, C.Gone, Issued, Taking, Disconnecting, Handshaking;
    var d := Step(m, Displace(sid, boot, first));
    var n := Step(d, Greet(second));
    assert m.owner.Some? ==> m.owner.value in m.sessions;
    I.Parts(m.sys);
    StepKeeps(m, Displace(sid, boot, first));
    I.Parts(d.sys);
    StepKeeps(d, Greet(second));
    if m.owner.Some? { DisconnectsExactly(m.sys.reg, m.sessions[m.owner.value].boot, first); }
    GreetsExactly(d.sys.reg, boot, second);
  }
}
