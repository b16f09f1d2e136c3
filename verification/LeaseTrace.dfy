/** Histories of the lease registry: who was in contact, and since when each lease stands. */
module LeaseTrace {
  import opened Text
  import opened Clock
  import opened Leases

  /** A handshake or heartbeat of a receiver, or (with no boot) a disconnection. */
  datatype Contact = Contact(boot: Option<nat>, at: int)

  /** A registry with its contacts so far; `since` counts the contacts before each lease. */
  datatype Traced = Traced(reg: Registry, log: seq<Contact>, since: map<nat, nat>)

  /** The contact an operation makes when it succeeds after a good reading. */
  function ContactAt(t: Registry, op: Op): Option<Contact> {
    match op
    case Handshake(_, boot, generation) =>
      if HandshakeAt(t, boot, generation).1.Ok? then Some(Contact(Some(boot), t.lastNow)) else None
    case Heartbeat(_, boot, generation) =>
      if HeartbeatAt(t, boot, generation).1.Ok? then Some(Contact(Some(boot), t.lastNow)) else None
    case Disconnect(_, boot, generation) =>
      if DisconnectAt(t, boot, generation).1.Ok? then Some(Contact(None, t.lastNow)) else None
    case _ => None
  }

  function ContactOf(l: Registry, op: Op): Option<Contact> {
    if op.Hold? then None
    else
      var (t, now) := Tick(l, op.clock);
      if now.Ok? then ContactAt(t, op) else None
  }

  ghost function TStep(s: Traced, op: Op): Traced {
    var reg := Step(s.reg, op);
    var c := ContactOf(s.reg, op);
    Traced(reg, if c.Some? then s.log + [c.value] else s.log,
           if reg.issued > s.reg.issued then s.since[s.reg.issued := |s.log|] else s.since)
  }

  ghost function TRun(s: Traced, ops: seq<Op>): Traced
    decreases |ops|
  {
    if ops == [] then s else TRun(TStep(s, ops[0]), ops[1..])
  }

  /** From the last contact before contact number `from`, every contact is this boot's and
      follows the one before it within the heartbeat limit. */
  ghost predicate Unbroken(log: seq<Contact>, from: nat, boot: nat) {
    && 1 <= from <= |log|
    && (forall k | from - 1 <= k < |log| :: log[k].boot == Some(boot))
    && (forall k | from <= k < |log| :: log[k].at < log[k - 1].at + HEARTBEAT)
  }

  ghost predicate LastContact(l: Registry, log: seq<Contact>) {
    if log == [] then l.boot.None?
    else log[|log| - 1] == Contact(l.boot, l.lastHeartbeat) || (l.boot.None? && log[|log| - 1].boot.None?)
  }

  ghost predicate Steady(s: Traced) {
    && Inv(s.reg) && LastContact(s.reg, s.log)
    && forall id | id in s.reg.records && Live(s.reg.records[id]) ::
         id in s.since && Unbroken(s.log, s.since[id], s.reg.records[id].grant.boot)
  }

  lemma TickKeepsContact(l: Registry, clock: Reading)
    ensures var t := Tick(l, clock).0; t.boot == l.boot && t.lastHeartbeat == l.lastHeartbeat
  {
  }

  lemma ExtendUnbroken(log: seq<Contact>, from: nat, boot: nat, at: int)
    requires Unbroken(log, from, boot) && at < log[|log| - 1].at + HEARTBEAT
    ensures Unbroken(log + [Contact(Some(boot), at)], from, boot)
  {
  }

  /** What each operation does to the contact fields and to who is live. */
  lemma StepContact(t: Registry, op: Op)
    requires Inv(t)
    ensures var u, c := StepAt(t, op), ContactAt(t, op);
            && (c.None? ==> u.boot == t.boot && u.lastHeartbeat == t.lastHeartbeat)
            && (c.Some? ==>
                  u.issued == t.issued && c.value.boot == u.boot
                  && (u.boot.Some? ==> u.lastHeartbeat == c.value.at == t.lastNow))
            && (u.issued > t.issued ==> t.issued in u.records && t.boot == Some(u.records[t.issued].grant.boot))
            && (u.issued > t.issued ==> forall id | id in u.records && id != t.issued :: id in t.records)
  {
    hide Inv, RevokeAll, Expire, LiveIds;
  }

  lemma LiveBefore(a: Registry, b: Registry, id: nat)
    requires Evolves(a, b) && id in b.records && Live(b.records[id]) && id < a.issued
    ensures id in a.records && Live(a.records[id]) && a.records[id].grant == b.records[id].grant
  {
  }

  lemma StepAtSteady(s: Traced, t: Registry, op: Op)
    requires Steady(s) && Inv(t) && Evolves(s.reg, t) && t.issued == s.reg.issued
    requires t.boot == s.reg.boot && t.lastHeartbeat == s.reg.lastHeartbeat
    requires Late(t, t.lastNow) ==> t.stale || op.Hold?
    ensures var u, c := StepAt(t, op), ContactAt(t, op);
            Steady(Traced(u, if c.Some? then s.log + [c.value] else s.log,
                          if u.issued > t.issued then s.since[t.issued := |s.log|] else s.since))
  {
    hide Inv, Evolves, StepAt, ContactAt, Unbroken;
    StepAtSteps(t, op);
    StepContact(t, op);
    var u, c := StepAt(t, op), ContactAt(t, op);
    var log := if c.Some? then s.log + [c.value] else s.log;
    var since := if u.issued > t.issued then s.since[t.issued := |s.log|] else s.since;
    assert LastContact(u, log);
    IdsOf(u);
    forall id | id in u.records && Live(u.records[id])
      ensures id in since && Unbroken(log, since[id], u.records[id].grant.boot)
    {
      LiveContact(u, id);
      if id >= t.issued {
        NewId(t, u, op, id);
        assert since[id] == |s.log| && log == s.log;
        FromNow(s.log, u.records[id].grant.boot);
      } else {
        LiveBefore(t, u, id);
        LiveBefore(s.reg, t, id);
        LiveContact(t, id);
        if c.Some? { ExtendUnbroken(s.log, s.since[id], u.records[id].grant.boot, c.value.at); }
      }
    }
  }

  lemma NewId(t: Registry, u: Registry, op: Op, id: nat)
    requires Inv(t) && u == StepAt(t, op) && id in u.records && id >= t.issued
    ensures u.issued > t.issued && id == t.issued && ContactAt(t, op).None? && t.boot == Some(u.records[id].grant.boot)
  {
    hide Inv, StepAt, ContactAt;
    IdsOf(t);
    StepContact(t, op);
    if u.issued <= t.issued { OnlyKnown(t, op); }
  }

  lemma OnlyKnown(t: Registry, op: Op)
    requires StepAt(t, op).issued <= t.issued
    ensures StepAt(t, op).records.Keys <= t.records.Keys
  {
    hide Expire, LiveIds;
  }

  lemma LiveContact(t: Registry, id: nat)
    requires Inv(t) && id in t.records && Live(t.records[id])
    ensures t.boot == Some(t.records[id].grant.boot) && t.lastNow < t.lastHeartbeat + HEARTBEAT
  {
    hide Inv;
    RecordOf(t, id);
  }

  lemma FromNow(log: seq<Contact>, boot: nat)
    requires log != [] && log[|log| - 1].boot == Some(boot)
    ensures Unbroken(log, |log|, boot)
  {
  }

  lemma TStepSteady(s: Traced, op: Op)
    requires Steady(s)
    ensures Steady(TStep(s, op))
  {
    hide Inv, Evolves, Tick, StepAt, ContactAt, Unbroken;
    if op.Hold? {
      Same(s.reg);
      StepAtSteady(s, s.reg, op);
      HoldIdle(s.reg);
    } else {
      TickSteps(s.reg, op.clock);
      TickKeepsContact(s.reg, op.clock);
      var (t, now) := Tick(s.reg, op.clock);
      if now.Ok? {
        StepAtSteady(s, t, op);
      } else {
        StepAtSteady(s, t, Hold);
        HoldIdle(t);
      }
    }
  }

  lemma HoldIdle(l: Registry)
    ensures ContactAt(l, Hold) == None && (l.held ==> StepAt(l, Hold) == l)
  {
  }

  lemma {:induction false} TRunSteady(s: Traced, ops: seq<Op>)
    requires Steady(s)
    ensures Steady(TRun(s, ops))
    decreases |ops|
  {
    hide Steady, TStep;
    if ops != [] {
      TStepSteady(s, ops[0]);
      TRunSteady(TStep(s, ops[0]), ops[1..]);
    }
  }

  /** The trace follows the registry's own run. */
  lemma {:induction false} TRunFollows(s: Traced, ops: seq<Op>)
    ensures TRun(s, ops).reg == Run(s.reg, ops)
    decreases |ops|
  {
    hide Step;
    if ops != [] { TRunFollows(TStep(s, ops[0]), ops[1..]); }
  }

  /** Over every run from a fresh registry: when a check authorizes a lease at time `now`,
      the receiver that registered it has been the only one in contact since the last contact
      before its registration, with every gap, and the one up to `now`, below 15 seconds. */
  lemma AuthorizedMeansContact(generation: nat, ops: seq<Op>, clock: Reading, service: nat, sentinel: nat, scope: nat,
                               id: nat)
    requires Authorizes(Run(Fresh(generation), ops), clock, service, sentinel, generation, scope, id)
    ensures var s := TRun(Traced(Fresh(generation), [], map[]), ops);
            && s.reg == Run(Fresh(generation), ops) && id in s.reg.records && id in s.since
            && Unbroken(s.log, s.since[id], s.reg.records[id].grant.boot)
            && clock.At? && clock.now < s.log[|s.log| - 1].at + HEARTBEAT
  {
    hide Inv, Run, TRun, Tick, CheckAt;
    var start := Traced(Fresh(generation), [], map[]);
    FreshInv(generation);
    assert Steady(start);
    TRunSteady(start, ops);
    TRunFollows(start, ops);
    var s := TRun(start, ops);
    TickSteps(s.reg, clock);
    TickKeepsContact(s.reg, clock);
    var t := Tick(s.reg, clock).0;
    AuthorizedActive(t, service, sentinel, generation, scope);
    IdsOf(t);
    LiveContact(t, id);
    LiveBefore(s.reg, t, id);
    TickReads(s.reg, clock);
  }

  lemma TickReads(l: Registry, clock: Reading)
    ensures Tick(l, clock).1.Ok? ==> clock.At? && Tick(l, clock).0.lastNow == clock.now
  {
  }
}
