/** Control sessions competing for one registry: takeover, fences and releases, interleaved. */
module ControlFence {
  import opened Text
  import opened Clock
  import L = Leases
  import opened Gate
  import I = GateInvariant
  import C = Closeout

  /** A closeout about to be observed, after a revocation or on its own. */
  datatype Watch = Watch(leaseId: nat, afterRevoke: bool)

  /** A connection that has authenticated, with the leases it was granted and the closeout that its
      thread is about to observe. */
  datatype Session = Session(boot: nat, granted: set<nat>, watching: Option<Watch>)

  /** `taking` is the session that holds the lock between disconnecting the previous owner and
      shaking hands. */
  datatype Control = Control(sys: Sys, sessions: map<nat, Session>, owner: Option<nat>, taking: Option<nat>,
                             closed: bool)

  function Start(generation: nat): Control { Control(I.Start(generation), map[], None, None, false) }

  /** A registry call made by an owner; a failed disconnect or handshake holds the registry. */
  function Disconnecting(reg: L.Registry, boot: nat, clock: Reading): (L.Registry, bool) {
    var (t, now) := L.Tick(reg, clock);
    if now.Err? then (t.(held := true), false)
    else
      var (u, r) := L.DisconnectAt(t, boot, reg.generation);
      if r.Ok? then (u, true) else (u.(held := true), false)
  }

  function Handshaking(reg: L.Registry, boot: nat, clock: Reading): (L.Registry, bool) {
    var (t, now) := L.Tick(reg, clock);
    if now.Err? then (t.(held := true), false)
    else
      var (u, r) := L.HandshakeAt(t, boot, reg.generation);
      if r.Ok? then (u, true) else (u.(held := true), false)
  }

  /** The commands a session may send; the session's own boot is filled in. */
  datatype Command =
    | Heartbeat
    | Register(runId: nat, attemptId: nat, service: nat, scope: nat, expiresAt: int, fits: bool)
    | Activate(leaseId: nat, launch: int)
    | Revoke(leaseId: nat)
    | Closeout(leaseId: nat)

  /** The registry's part of a command; a closeout has none. */
  ghost function Calling(reg: L.Registry, boot: nat, clock: Reading, command: Command): (L.Registry, Option<nat>) {
    var (t, now) := L.Tick(reg, clock);
    if command.Closeout? then (reg, None)
    else if now.Err? then (t, None)
    else
      match command
      case Heartbeat => (L.HeartbeatAt(t, boot, reg.generation).0, None)
      case Register(run, attempt, service, scope, expires, fits) =>
        var (u, r) := L.RegisterAt(t, L.Wanted(run, attempt, boot, service, scope, expires), reg.generation, fits);
        (u, if r.Ok? then Some(r.value.leaseId) else None)
      case Activate(id, launch) => (L.ActivateAt(t, id, boot, reg.generation, launch).0, None)
      case Revoke(id) => (L.RevokeAt(t, id, boot, reg.generation).0, None)
  }

  /** The closeout that a command leaves to be observed, outside the lock. */
  function Watching(reg: L.Registry, boot: nat, clock: Reading, command: Command): Option<Watch> {
    match command
    case Closeout(id) => Some(Watch(id, false))
    case Revoke(id) =>
      var (t, now) := L.Tick(reg, clock);
      if now.Ok? && L.RevokeAt(t, id, boot, reg.generation).1.Ok? then Some(Watch(id, true)) else None
    case _ => None
  }

  /** The observation's own checks on what the gate reports. */
  predicate Coherent(view: LeaseView, state: CloseoutState, inFlight: nat, overdue: nat, afterRevoke: bool) {
    var live := view == Known(L.Registered) || view == Known(L.Active);
    && (state.Open? ==> live)
    && (live ==> state.Open? || state.Undecided?)
    && (view.Unknown? ==> state.Undecided?)
    && (state.Overdue? ==> overdue >= 1)
    && (state.Draining? ==> inFlight >= 1 && overdue == 0)
    && (state.Quiescent? ==> inFlight == 0 && overdue == 0)
    && (afterRevoke ==> view == Known(L.Revoked) || view.Pruned?)
  }

  /** An observation is refused, and the registry then held, when the report is incoherent, when a
      flight is overdue, or when nothing is known that should be. */
  ghost predicate Refuses(s: Sys, w: Watch, c: Clocks) {
    var s', state := CloseoutSys(s, c).0, CloseoutVerdict(s, w.leaseId, c);
    var view, overdue := ViewOf(s'.gate, s'.reg, w.leaseId), |OverdueIds(s'.gate, w.leaseId)|;
    || !Coherent(view, state, |InFlightIds(s'.ledger, w.leaseId)|, overdue, w.afterRevoke)
    || overdue > 0
    || (state.Undecided? && (w.afterRevoke || !view.Unknown?))
  }

  datatype Event =
    | Displace(sid: nat, boot: nat, clock: Reading)
    | Greet(clock: Reading)
    | Send(sid: nat, command: Command, clock: Reading)
    | Install(sid: nat, grant: L.Grant, manifest: Manifest, clocks: Clocks)
    | Observe(sid: nat, clocks: Clocks)
    | Leave(sid: nat, clock: Reading)
    | Shutdown
    | Other(op: I.Op)

  function WithReg(c: Control, reg: L.Registry): Control { c.(sys := c.sys.(reg := reg)) }

  function WithSession(c: Control, sid: nat, s: Session): Control { c.(sessions := c.sessions[sid := s]) }

  /** The previous owner is disconnected first; a failure leaves it the owner of a held registry. */
  function Displacing(c: Control, sid: nat, boot: nat, clock: Reading): Control {
    var c1 := WithSession(c, sid, Session(boot, {}, None));
    if c.owner.Some? && c.owner.value in c.sessions then
      var gone := Disconnecting(c.sys.reg, c.sessions[c.owner.value].boot, clock);
      WithReg(c1, gone.0).(taking := if gone.1 then Some(sid) else None)
    else c1.(taking := Some(sid))
  }

  /** Only a successful handshake moves the ownership. */
  function Greeting(c: Control, clock: Reading): Control
    requires c.taking.Some? && c.taking.value in c.sessions
  {
    var met := Handshaking(c.sys.reg, c.sessions[c.taking.value].boot, clock);
    WithReg(c, met.0).(owner := if met.1 then c.taking else c.owner, taking := None)
  }

  ghost function Sending(c: Control, sid: nat, command: Command, clock: Reading): Control
    requires sid in c.sessions
  {
    var s, reg := c.sessions[sid], c.sys.reg;
    var (reg', lease) := Calling(reg, s.boot, clock, command);
    var granted := if lease.Some? then s.granted + {lease.value} else s.granted;
    WithSession(WithReg(c, reg'), sid, Session(s.boot, granted, Watching(reg, s.boot, clock, command)))
  }

  ghost function Observing(c: Control, sid: nat, clocks: Clocks): Control
    requires sid in c.sessions && c.sessions[sid].watching.Some?
  {
    var s := c.sessions[sid];
    var sys := CloseoutSys(c.sys, clocks).0;
    var reg := if Refuses(c.sys, s.watching.value, clocks) then sys.reg.(held := true) else sys.reg;
    WithSession(c.(sys := sys.(reg := reg)), sid, s.(watching := None))
  }

  /** One step of some thread. Steps under the lock wait while a takeover is under way; the gate's
      own calls do not take the lock and may fall in between. */
  ghost function Step(c: Control, e: Event): Control {
    match e
    case Displace(sid, boot, clock) =>
      if c.closed || c.taking.Some? || sid in c.sessions then c else Displacing(c, sid, boot, clock)
    case Greet(clock) => if c.taking.None? || c.taking.value !in c.sessions then c else Greeting(c, clock)
    case Send(sid, command, clock) =>
      if c.closed || c.taking.Some? || c.owner != Some(sid) || sid !in c.sessions
          || c.sessions[sid].watching.Some? then c
      else Sending(c, sid, command, clock)
    case Install(sid, grant, manifest, clocks) =>
      if sid !in c.sessions || grant.leaseId !in c.sessions[sid].granted then c
      else c.(sys := InstallScope(c.sys, grant, c.sys.reg.generation, manifest, clocks).0)
    case Observe(sid, clocks) => if sid !in c.sessions || c.sessions[sid].watching.None? then c
        else Observing(c, sid, clocks)
    case Leave(sid, clock) =>
      if c.taking.Some? || c.owner != Some(sid) || sid !in c.sessions then c
      else WithReg(c, Disconnecting(c.sys.reg, c.sessions[sid].boot, clock).0).(owner := None)
    case Shutdown => if c.taking.Some? then c else WithReg(c, c.sys.reg.(held := true)).(closed := true)
    case Other(op) => if op.Control? then c else c.(sys := I.Step(c.sys, op))
  }

  ghost function Run(c: Control, events: seq<Event>): Control
    decreases |events|
  {
    if events == [] then c else Run(Step(c, events[0]), events[1..])
  }

  // --- The invariant ------------------------------------------------------------------------------

  /** Every lease granted to a session that is not the owner is gone for good. */
  ghost predicate Fenced(c: Control) {
    forall sid, id | sid in c.sessions && c.owner != Some(sid) && id in c.sessions[sid].granted :: C.Gone(c.sys.reg, id)
  }

  ghost predicate Issued(c: Control) {
    forall sid, id | sid in c.sessions && id in c.sessions[sid].granted :: id < c.sys.reg.issued
  }

  /** During a takeover everything the previous owner was granted is gone, and the new one has nothing yet. */
  ghost predicate Taking(c: Control) {
    c.taking.Some? ==>
      && c.taking.value in c.sessions && c.sessions[c.taking.value].granted == {}
      && (c.owner.Some? && c.owner.value in c.sessions ==> forall id | id in c.sessions[c.owner.value].granted ::
          C.Gone(c.sys.reg, id))
  }

  ghost predicate Inv(c: Control) {
    I.Inv(c.sys) && Fenced(c) && Issued(c) && Taking(c) && (c.owner.Some? ==> c.owner.value in c.sessions)
  }

  lemma StartInv(generation: nat)
    ensures Inv(Start(generation))
  {
    hide I.Inv;
    I.StartInv(generation);
  }

  lemma HeldEvolves(reg: L.Registry)
    requires L.Inv(reg)
    ensures L.Inv(reg.(held := true)) && L.Evolves(reg, reg.(held := true))
  {
    L.HoldSteps(reg);
  }

  /** After a disconnection, or a hold, no lease issued so far is left. */
  lemma DisconnectingGone(reg: L.Registry, boot: nat, clock: Reading)
    requires L.Inv(reg)
    ensures var (u, ok) := Disconnecting(reg, boot, clock);
            && L.Inv(u) && L.Evolves(reg, u) && forall id: nat | id < reg.issued :: C.Gone(u, id)
  {
    hide L.Inv, L.Evolves, L.Tick;
    L.TickSteps(reg, clock);
    var (t, now) := L.Tick(reg, clock);
    HeldEvolves(t);
    L.IdsOf(reg);
    L.EvolvesTransitive(reg, t, t.(held := true));
    if now.Ok? {
      L.DisconnectSteps(t, boot, reg.generation);
      var (u, r) := L.DisconnectAt(t, boot, reg.generation);
      HeldEvolves(u);
      L.EvolvesTransitive(reg, t, u);
      L.EvolvesTransitive(reg, u, u.(held := true));
      if r.Ok? {
        forall id: nat | id < reg.issued ensures C.Gone(u, id) { RevokedDead(t, boot, reg.generation, id); }
      }
    }
  }

  lemma RevokedDead(t: L.Registry, boot: nat, generation: nat, id: nat)
    requires L.DisconnectAt(t, boot, generation).1.Ok? && id < t.issued
    ensures L.Dead(L.DisconnectAt(t, boot, generation).0, id)
  {
  }

  lemma HandshakingForward(reg: L.Registry, boot: nat, clock: Reading)
    requires L.Inv(reg)
    ensures var (u, ok) := Handshaking(reg, boot, clock); L.Inv(u) && L.Evolves(reg, u)
  {
    hide L.Inv, L.Evolves, L.Tick, L.HandshakeAt;
    L.TickSteps(reg, clock);
    var (t, now) := L.Tick(reg, clock);
    HeldEvolves(t);
    L.IdsOf(reg);
    L.EvolvesTransitive(reg, t, t.(held := true));
    if now.Ok? {
      L.HandshakeSteps(t, boot, reg.generation);
      var u := L.HandshakeAt(t, boot, reg.generation).0;
      HeldEvolves(u);
      L.EvolvesTransitive(reg, t, u);
      L.EvolvesTransitive(reg, u, u.(held := true));
    }
  }

  lemma CallingForward(reg: L.Registry, boot: nat, clock: Reading, command: Command)
    requires L.Inv(reg)
    ensures var (u, lease) := Calling(reg, boot, clock, command);
            L.Inv(u) && L.Evolves(reg, u) && (lease.Some? ==> lease.value < u.issued)
  {
    hide L.Inv, L.Evolves, L.Tick, L.HeartbeatAt, L.RegisterAt, L.ActivateAt, L.RevokeAt;
    L.TickSteps(reg, clock);
    L.Same(reg);
    var (t, now) := L.Tick(reg, clock);
    L.IdsOf(reg);
    if now.Ok? {
      var (u, lease) := Calling(reg, boot, clock, command);
      match command {
        case Heartbeat => L.HeartbeatSteps(t, boot, reg.generation);
        case Register(run, attempt, service, scope, expires, fits) =>
          L.RegisterSteps(t, L.Wanted(run, attempt, boot, service, scope, expires), reg.generation, fits);
          GrantedIssued(t, L.Wanted(run, attempt, boot, service, scope, expires), reg.generation, fits);
        case Activate(id, launch) => L.ActivateSteps(t, id, boot, reg.generation, launch);
        case Revoke(id) => L.RevokeSteps(t, id, boot, reg.generation);
        case Closeout(_) => L.Same(reg);
      }
      if !command.Closeout? { L.EvolvesTransitive(reg, t, u); }
    }
  }

  lemma GrantedIssued(t: L.Registry, w: L.Wanted, generation: nat, fits: bool)
    requires L.Inv(t)
    ensures var (u, r) := L.RegisterAt(t, w, generation, fits); r.Ok? ==> r.value.leaseId < u.issued
  {
    hide L.Inv, L.LiveIds, L.Expire;
    L.IdsOf(t);
    var b := (w.runId, w.attemptId, w.service);
    if b in t.bindings && t.bindings[b] in t.records {
      L.RecordOf(t, t.bindings[b]);
      L.ExpireOk(t.bindings[b], t.records[t.bindings[b]], t);
    }
  }

  lemma GoneStays(c: Control, reg: L.Registry)
    requires L.Evolves(c.sys.reg, reg) && Fenced(c) && Issued(c) && Taking(c)
    ensures Fenced(WithReg(c, reg)) && Issued(WithReg(c, reg)) && Taking(WithReg(c, reg))
  {
    hide L.Evolves, C.Gone;
    I.IssuedGrows(c.sys.reg, reg);
    forall sid, id | sid in c.sessions && c.owner != Some(sid) && id in c.sessions[sid].granted ensures C.Gone(reg,
        id) {
      C.GoneForever(c.sys.reg, reg, id);
    }
    if c.taking.Some? && c.owner.Some? && c.owner.value in c.sessions {
      forall id | id in c.sessions[c.owner.value].granted ensures C.Gone(reg, id) { C.GoneForever(c.sys.reg, reg, id); }
    }
  }

  lemma RegInv(c: Control, reg: L.Registry)
    requires Inv(c) && L.Inv(reg) && L.Evolves(c.sys.reg, reg)
    ensures Inv(WithReg(c, reg))
  {
    hide I.Inv, L.Inv, L.Evolves, Fenced, Issued, Taking;
    I.IssuedGrows(c.sys.reg, reg);
    I.RegMoves(c.sys, reg);
    GoneStays(c, reg);
  }

  lemma NewSession(c: Control, sid: nat, boot: nat)
    requires Inv(c) && sid !in c.sessions
    ensures Inv(WithSession(c, sid, Session(boot, {}, None)))
  {
    hide I.Inv, C.Gone;
  }

  /** The owner leaves only when everything granted so far is gone. */
  lemma OwnerLeaves(c: Control)
    requires Inv(c) && c.taking.None? && forall id: nat | id < c.sys.reg.issued :: C.Gone(c.sys.reg, id)
    ensures Inv(c.(owner := None))
  {
    hide I.Inv, C.Gone;
  }

  /** So does it when another takes its place. */
  lemma OwnerGivesWay(c: Control, sid: nat)
    requires Inv(c) && c.taking.None? && sid in c.sessions && c.sessions[sid].granted == {}
    requires forall id: nat | id < c.sys.reg.issued :: C.Gone(c.sys.reg, id)
    ensures Inv(c.(taking := Some(sid)))
  {
    hide I.Inv, C.Gone;
  }

  /** A takeover moves the ownership, or leaves it where it was. */
  lemma OwnerMoves(c: Control, owner: Option<nat>)
    requires Inv(c) && c.taking.Some? && (owner == c.taking || owner == c.owner)
    ensures Inv(c.(owner := owner, taking := None))
  {
    hide I.Inv, C.Gone;
  }

  lemma SameIssued(reg: L.Registry, boot: nat, clock: Reading)
    ensures Disconnecting(reg, boot, clock).0.issued == reg.issued
  {
    hide L.RevokeAll;
  }

  lemma LeaveKeeps(c: Control, sid: nat, clock: Reading)
    requires Inv(c)
    ensures Inv(Step(c, Leave(sid, clock)))
  {
    hide I.Inv, L.Inv, L.Evolves, C.Gone, Fenced, Issued, Taking, Disconnecting;
    if c.taking.None? && c.owner == Some(sid) && sid in c.sessions {
      I.Parts(c.sys);
      DisconnectingGone(c.sys.reg, c.sessions[sid].boot, clock);
      SameIssued(c.sys.reg, c.sessions[sid].boot, clock);
      var reg := Disconnecting(c.sys.reg, c.sessions[sid].boot, clock).0;
      RegInv(c, reg);
      OwnerLeaves(WithReg(c, reg));
    }
  }

  lemma DisplaceKeeps(c: Control, sid: nat, boot: nat, clock: Reading)
    requires Inv(c) && sid !in c.sessions && c.taking.None?
    ensures Inv(Displacing(c, sid, boot, clock))
  {
    hide I.Inv, L.Inv, L.Evolves, C.Gone, Fenced, Issued, Taking, Disconnecting;
    I.Parts(c.sys);
    NewSession(c, sid, boot);
    var c1 := WithSession(c, sid, Session(boot, {}, None));
    if c.owner.Some? {
      var prev := c.sessions[c.owner.value].boot;
      DisconnectingGone(c.sys.reg, prev, clock);
      SameIssued(c.sys.reg, prev, clock);
      var gone := Disconnecting(c.sys.reg, prev, clock);
      RegInv(c1, gone.0);
      OwnerGivesWay(WithReg(c1, gone.0), sid);
      assert WithReg(c1, gone.0).(taking := None) == WithReg(c1, gone.0);
    } else {
      NothingToDisplace(c1, sid);
    }
  }

  lemma NothingToDisplace(c: Control, sid: nat)
    requires Inv(c) && c.owner.None? && sid in c.sessions && c.sessions[sid].granted == {}
    ensures Inv(c.(taking := Some(sid)))
  {
    hide I.Inv, C.Gone;
  }

  lemma GreetKeeps(c: Control, clock: Reading)
    requires Inv(c) && c.taking.Some? && c.taking.value in c.sessions
    ensures Inv(Greeting(c, clock))
  {
    hide I.Inv, L.Inv, L.Evolves, C.Gone, Fenced, Issued, Taking, Handshaking;
    I.Parts(c.sys);
    HandshakingForward(c.sys.reg, c.sessions[c.taking.value].boot, clock);
    var met := Handshaking(c.sys.reg, c.sessions[c.taking.value].boot, clock);
    RegInv(c, met.0);
    OwnerMoves(WithReg(c, met.0), if met.1 then c.taking else c.owner);
  }

  lemma SendKeeps(c: Control, sid: nat, command: Command, clock: Reading)
    requires Inv(c) && c.taking.None? && c.owner == Some(sid)
    ensures Inv(Sending(c, sid, command, clock))
  {
    hide I.Inv, L.Inv, L.Evolves, C.Gone, Fenced, Issued, Taking, Calling, Watching;
    I.Parts(c.sys);
    CallingForward(c.sys.reg, c.sessions[sid].boot, clock, command);
    var (reg, lease) := Calling(c.sys.reg, c.sessions[sid].boot, clock, command);
    RegInv(c, reg);
    OwnerGains(WithReg(c, reg), sid, lease, Watching(c.sys.reg, c.sessions[sid].boot, clock, command));
  }

  lemma OwnerGains(c: Control, sid: nat, lease: Option<nat>, watching: Option<Watch>)
    requires Inv(c) && c.taking.None? && c.owner == Some(sid) && (lease.Some? ==> lease.value < c.sys.reg.issued)
    ensures var s := c.sessions[sid];
            var granted := if lease.Some? then s.granted + {lease.value} else s.granted;
            Inv(WithSession(c, sid, Session(s.boot, granted, watching)))
  {
    hide I.Inv, C.Gone;
  }

  lemma ObserveKeeps(c: Control, sid: nat, clocks: Clocks)
    requires Inv(c) && sid in c.sessions && c.sessions[sid].watching.Some?
    ensures Inv(Observing(c, sid, clocks))
  {
    hide I.Inv, L.Inv, L.Evolves, C.Gone, Fenced, Issued, Taking, Refuses, CloseoutSys, L.Tick;
    I.Parts(c.sys);
    I.CloseoutSteps(c.sys, clocks);
    CloseoutReg(c.sys, clocks);
    var sys := CloseoutSys(c.sys, clocks).0;
    L.TickSteps(c.sys.reg, clocks.check);
    SysInv(c, sys);
    I.Parts(sys);
    HeldEvolves(sys.reg);
    var d := c.(sys := sys);
    RegInv(d, sys.reg.(held := true));
    assert WithReg(d, sys.reg) == d;
    var reg := if Refuses(c.sys, c.sessions[sid].watching.value, clocks) then sys.reg.(held := true) else sys.reg;
    Watched(WithReg(d, reg), sid);
  }

  lemma CloseoutReg(s: Sys, clocks: Clocks)
    ensures CloseoutSys(s, clocks).0.reg == L.Tick(s.reg, clocks.check).0
  {
    hide L.Tick, Advance;
  }

  lemma Watched(c: Control, sid: nat)
    requires Inv(c) && sid in c.sessions
    ensures Inv(WithSession(c, sid, c.sessions[sid].(watching := None)))
  {
    hide I.Inv, C.Gone;
  }

  /** Every step of every session and of everyone else keeps the fence. */
  lemma StepKeeps(c: Control, e: Event)
    requires Inv(c)
    ensures Inv(Step(c, e))
  {
    hide I.Inv, L.Inv, L.Evolves, C.Gone, Fenced, Issued, Taking, Displacing, Greeting, Sending, Observing,
        Disconnecting, InstallScope, I.Step;
    I.Parts(c.sys);
    match e
    case Displace(sid, boot, clock) =>
      if c.taking.None? && sid !in c.sessions { DisplaceKeeps(c, sid, boot, clock); }
    case Greet(clock) =>
      if c.taking.Some? && c.taking.value in c.sessions { GreetKeeps(c, clock); }
    case Send(sid, command, clock) =>
      if c.taking.None? && c.owner == Some(sid) { SendKeeps(c, sid, command, clock); }
    case Install(sid, grant, manifest, clocks) =>
      I.InstallSteps(c.sys, grant, c.sys.reg.generation, manifest, clocks);
      C.InstallReg(c.sys, grant, c.sys.reg.generation, manifest, clocks);
      SysInv(c, InstallScope(c.sys, grant, c.sys.reg.generation, manifest, clocks).0);
    case Observe(sid, clocks) =>
      if sid in c.sessions && c.sessions[sid].watching.Some? { ObserveKeeps(c, sid, clocks); }
    case Leave(sid, clock) => LeaveKeeps(c, sid, clock);
    case Shutdown =>
      HeldEvolves(c.sys.reg);
      RegInv(c, c.sys.reg.(held := true));
      Closing(WithReg(c, c.sys.reg.(held := true)));
    case Other(op) =>
      I.StepSteps(c.sys, op);
      C.StepReg(c.sys, op);
      SysInv(c, I.Step(c.sys, op));
  }

  lemma Closing(c: Control)
    requires Inv(c)
    ensures Inv(c.(closed := true))
  {
    hide I.Inv, C.Gone;
  }

  lemma SysInv(c: Control, sys: Sys)
    requires Inv(c) && I.Inv(sys) && L.Evolves(c.sys.reg, sys.reg)
    ensures Inv(c.(sys := sys))
  {
    hide I.Inv, L.Evolves, Fenced, Issued, Taking;
    GoneStays(c, sys.reg);
    SameFence(WithReg(c, sys.reg), c.(sys := sys));
  }

  lemma SameFence(a: Control, b: Control)
    requires Fenced(a) && Issued(a) && Taking(a)
    requires b.sys.reg == a.sys.reg && b.sessions == a.sessions && b.owner == a.owner && b.taking == a.taking
    ensures Fenced(b) && Issued(b) && Taking(b)
  {
  }

  lemma {:induction false} RunKeeps(c: Control, events: seq<Event>)
    requires Inv(c)
    ensures Inv(Run(c, events))
    decreases |events|
  {
    hide Inv, Step;
    if events != [] {
      StepKeeps(c, events[0]);
      RunKeeps(Step(c, events[0]), events[1..]);
    }
  }

  // --- What a replaced session can still do --------------------------------------------------------------

  /** No authority is gained: the receiver is unchanged and every record is as it was or retired. */
  ghost predicate NothingGained(a: L.Registry, b: L.Registry) {
    && b.boot == a.boot && b.lastHeartbeat == a.lastHeartbeat && b.issued == a.issued
        && b.records.Keys <= a.records.Keys
    && forall id | id in b.records :: b.records[id] == a.records[id] || !L.Live(b.records[id])
  }

  lemma TickGainsNothing(reg: L.Registry, clock: Reading)
    ensures NothingGained(reg, L.Tick(reg, clock).0)
  {
  }

  lemma CheckGainsNothing(t: L.Registry, service: nat, sentinel: nat, generation: nat, scope: nat)
    requires L.Inv(t)
    ensures NothingGained(t, L.CheckAt(t, service, sentinel, generation, scope).0)
  {
    hide L.Inv, L.FoundAt;
    forall id | id in t.records ensures L.FoundAt(t, id, scope).0 == t { L.FoundIdle(t, id, scope); }
  }

  lemma GainTransitive(a: L.Registry, b: L.Registry, c: L.Registry)
    requires NothingGained(a, b) && NothingGained(b, c)
    ensures NothingGained(a, c)
  {
  }

  lemma InstallGainsNothing(s: Sys, grant: L.Grant, generation: nat, m: Manifest, clocks: Clocks)
    requires L.Inv(s.reg)
    ensures NothingGained(s.reg, InstallScope(s, grant, generation, m, clocks).0.reg)
  {
    hide L.Inv, L.Evolves, L.Tick, L.CheckAt, Advance, StoreScope, Verified, L.Live;
    TickGainsNothing(s.reg, clocks.check);
    L.TickSteps(s.reg, clocks.check);
    var (t, now) := L.Tick(s.reg, clocks.check);
    if now.Ok? {
      CheckGainsNothing(t, grant.service, grant.sentinel, generation, grant.scope);
      var u := L.CheckAt(t, grant.service, grant.sentinel, generation, grant.scope).0;
      GainTransitive(s.reg, t, u);
      TickGainsNothing(u, clocks.after);
      GainTransitive(s.reg, u, L.Tick(u, clocks.after).0);
    }
  }

  /** A lease that is gone is never installed, and no scope appears for it. */
  lemma GoneNotInstalled(s: Sys, grant: L.Grant, m: Manifest, clocks: Clocks)
    requires I.Inv(s) && C.Gone(s.reg, grant.leaseId)
    ensures var (s', r) := InstallScope(s, grant, s.reg.generation, m, clocks);
            r.Raised? && (grant.leaseId in s'.gate.scopes ==> grant.leaseId in s.gate.scopes)
  {
    hide I.Inv, L.Inv, L.Evolves, L.Tick, L.CheckAt, Advance, StoreScope;
    I.Parts(s);
    I.RegCheckSteps(s.reg, clocks.check, grant.service, grant.sentinel, s.reg.generation, grant.scope);
    var (t, now) := L.Tick(s.reg, clocks.check);
    ScopesShrink(s.gate, clocks.tick);
    if now.Ok? { GoneUnverified(s.reg, clocks.check, grant); }
  }

  lemma ScopesShrink(g: Gate, clock: Reading)
    ensures Advance(g, clock).0.scopes.Keys <= g.scopes.Keys
  {
  }

  lemma GoneUnverified(reg: L.Registry, clock: Reading, grant: L.Grant)
    requires L.Inv(reg) && C.Gone(reg, grant.leaseId) && L.Tick(reg, clock).1.Ok?
    ensures !Verified(L.CheckAt(L.Tick(reg, clock).0, grant.service, grant.sentinel, reg.generation, grant.scope).1,
                      grant.leaseId)
  {
    hide L.Inv, L.Evolves, L.Tick, L.RevokeAll, L.Expire;
    L.TickSteps(reg, clock);
    var t := L.Tick(reg, clock).0;
    C.GoneForever(reg, t, grant.leaseId);
    forall id | id in t.records ensures L.Expire(t.records[id], t.lastNow) == t.records[id] {
      L.RecordOf(t, id);
      L.ExpireOk(id, t.records[id], t);
    }
  }

  lemma CheckIdle(t: L.Registry, service: nat, sentinel: nat, generation: nat, scope: nat)
    requires L.Inv(t)
    ensures L.CheckAt(t, service, sentinel, generation, scope).0 == t
  {
    hide L.Inv, L.FoundAt;
    forall id | id in t.records ensures L.FoundAt(t, id, scope).0 == t { L.FoundIdle(t, id, scope); }
    if t.lastNow - t.lastHeartbeat >= L.HEARTBEAT && t.boot.Some? { NothingLeft(t); }
  }

  lemma NothingLeft(t: L.Registry)
    requires L.Inv(t) && t.boot.Some? && t.lastNow - t.lastHeartbeat >= L.HEARTBEAT
    ensures L.RevokeAll(t.records, t.lastNow) == t.records
  {
    hide L.Inv;
    forall id | id in t.records ensures !L.Live(t.records[id]) { L.RecordOf(t, id); }
  }

  /** An installation for a lease that is gone only lets time pass in the registry. */
  lemma GoneInstallTicks(s: Sys, grant: L.Grant, m: Manifest, clocks: Clocks)
    requires I.Inv(s) && C.Gone(s.reg, grant.leaseId)
    ensures var reg := InstallScope(s, grant, s.reg.generation, m, clocks).0.reg;
            reg == s.reg || reg == L.Tick(s.reg, clocks.check).0
  {
    hide I.Inv, L.Inv, L.Evolves, L.Tick, L.CheckAt, Advance, StoreScope, C.Gone;
    I.Parts(s);
    L.TickSteps(s.reg, clocks.check);
    var (t, now) := L.Tick(s.reg, clocks.check);
    if now.Ok? {
      CheckIdle(t, grant.service, grant.sentinel, s.reg.generation, grant.scope);
      GoneUnverified(s.reg, clocks.check, grant);
    }
  }

  /** A session's step leaves the registry as time alone would: untouched, or as a reading leaves it. */
  predicate AsTimeLeaves(c: Control, e: Event, reg: L.Registry)
    requires e.Send? || e.Install? || e.Observe? || e.Leave?
    requires e.sid in c.sessions
  {
    match e
    case Install(_, _, _, clocks) => reg == c.sys.reg || reg == L.Tick(c.sys.reg, clocks.check).0
    case Observe(sid, clocks) => reg == if c.sessions[sid].watching.Some? then L.Tick(c.sys.reg, clocks.check).0
        else c.sys.reg
    case _ => reg == c.sys.reg
  }

  /** The one way a session that is not the owner can still touch the registry: the closeout it is
      about to observe is refused, while the registry is not held anyway. */
  ghost predicate HoldsFromBehind(c: Control, e: Event) {
    && e.Observe? && e.sid in c.sessions && c.sessions[e.sid].watching.Some?
    && Refuses(c.sys, c.sessions[e.sid].watching.value, e.clocks) && !L.Tick(c.sys.reg, e.clocks.check).0.held
  }

  /** Apart from the revocation's own condition, no report of the gate is ever incoherent. */
  lemma RefusesExactly(s: Sys, w: Watch, c: Clocks)
    ensures var s' := CloseoutSys(s, c).0;
            var view := ViewOf(s'.gate, s'.reg, w.leaseId);
            Refuses(s, w, c) <==>
              || OverdueIds(s'.gate, w.leaseId) != {}
              || (CloseoutVerdict(s, w.leaseId, c).Undecided? && (w.afterRevoke || !view.Unknown?))
              || (w.afterRevoke && view != Known(L.Revoked) && !view.Pruned?)
  {
    hide L.Tick, Advance, OverdueIds, InFlightIds;
  }

  /** In every interleaving from the start, whatever a session that is not the owner does: its
      commands and its leaving change nothing; its late installations never install a scope for a
      lease it was granted; the registry gains no authority from it; and the registry is left as
      time alone would leave it, except exactly when a refused observation holds it. */
  lemma ReplacedIsHarmless(generation: nat, events: seq<Event>, e: Event)
    requires e.Send? || e.Install? || e.Observe? || e.Leave?
    requires var m := Run(Start(generation), events); e.sid in m.sessions && m.owner != Some(e.sid)
    ensures var m := Run(Start(generation), events); var n := Step(m, e);
            && (e.Send? || e.Leave? ==> n == m)
            && NothingGained(m.sys.reg, n.sys.reg)
            && (e.Install? && e.grant.leaseId in m.sessions[e.sid].granted ==>
                  && InstallScope(m.sys, e.grant, m.sys.reg.generation, e.manifest, e.clocks).1.Raised?
                  && (e.grant.leaseId in n.sys.gate.scopes ==> e.grant.leaseId in m.sys.gate.scopes))
            && (AsTimeLeaves(m, e, n.sys.reg) <==> !HoldsFromBehind(m, e))
  {
    hide Inv, Run;
    StartInv(generation);
    RunKeeps(Start(generation), events);
    var m := Run(Start(generation), events);
    match e
    case Install(_, _, _, _) => ReplacedInstalls(m, e);
    case Observe(_, _) => ReplacedObserves(m, e);
    case _ => SelfGain(m.sys.reg);
  }

  lemma SelfGain(reg: L.Registry)
    ensures NothingGained(reg, reg)
  {
  }

  lemma ReplacedInstalls(m: Control, e: Event)
    requires Inv(m) && e.Install? && e.sid in m.sessions && m.owner != Some(e.sid)
    ensures var n := Step(m, e);
            && NothingGained(m.sys.reg, n.sys.reg) && AsTimeLeaves(m, e, n.sys.reg)
            && (e.grant.leaseId in m.sessions[e.sid].granted ==>
                  && InstallScope(m.sys, e.grant, m.sys.reg.generation, e.manifest, e.clocks).1.Raised?
                  && (e.grant.leaseId in n.sys.gate.scopes ==> e.grant.leaseId in m.sys.gate.scopes))
  {
    hide I.Inv, L.Inv, L.Evolves, C.Gone, InstallScope, L.Tick, NothingGained;
    I.Parts(m.sys);
    SelfGain(m.sys.reg);
    if e.grant.leaseId in m.sessions[e.sid].granted {
      InstallGainsNothing(m.sys, e.grant, m.sys.reg.generation, e.manifest, e.clocks);
      GoneNotInstalled(m.sys, e.grant, e.manifest, e.clocks);
      GoneInstallTicks(m.sys, e.grant, e.manifest, e.clocks);
    }
  }

  lemma ReplacedObserves(m: Control, e: Event)
    requires e.Observe? && e.sid in m.sessions
    ensures var n := Step(m, e);
            NothingGained(m.sys.reg, n.sys.reg) && (AsTimeLeaves(m, e, n.sys.reg) <==> !HoldsFromBehind(m, e))
  {
    hide Refuses, CloseoutSys, L.Tick;
    SelfGain(m.sys.reg);
    TickGainsNothing(m.sys.reg, e.clocks.check);
    CloseoutReg(m.sys, e.clocks);
  }
}
