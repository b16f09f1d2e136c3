/** The lease registry as a value: one function per locked operation. */
module Leases {
  import opened Text
  import opened Clock
  import opened Counting

  const MAX_LIVE: nat := 256
  const MAX_RECORDS: nat := 1024
  const HEARTBEAT: nat := 15_000
  const LEASE: nat := 270_000
  const RETENTION: nat := 310_000

  datatype LeaseState = Registered | Active | Revoked | Expired

  datatype Grant = Grant(
    leaseId: nat, runId: nat, attemptId: nat, boot: nat, service: nat, scope: nat, expiresAt: int, sentinel: nat)

  datatype Record = Record(grant: Grant, createdAt: int, state: LeaseState, launchAt: Option<int>,
                           retiredAt: Option<int>)

  /** Generation, ids and sentinels are drawn from one counter, so they never repeat. */
  datatype Registry = Registry(
    generation: nat, records: map<nat, Record>, bindings: map<(nat, nat, nat), nat>,
    boot: Option<nat>, lastHeartbeat: int, stale: bool, held: bool, lastNow: int, issued: nat)

  datatype Error =
    | RegistryHeld | ClockInvalid | ClockRegressed | GenerationMismatch
    | ReceiverNotConnected | HeartbeatLate | ReceiverBootMismatch
    | InvalidExpiry | ReplayNotLive | BindingConflict | CapacityLive | CapacityTotal | CapacityMetadata
    | LeaseUnknown | InvalidLaunchTime | LeaseRevoked | LeaseExpired | LeaseActive

  datatype Outcome<+T> = Ok(value: T) | Err(error: Error)

  predicate Live(r: Record) { r.state.Registered? || r.state.Active? }

  function Binding(g: Grant): (nat, nat, nat) { (g.runId, g.attemptId, g.service) }

  function Min(a: int, b: int): int { if a <= b then a else b }

  /** The instant from which a record can no longer be live. */
  function Limit(r: Record): int {
    var l := Min(r.grant.expiresAt, r.createdAt + LEASE);
    if r.launchAt.Some? then Min(l, r.launchAt.value + LEASE) else l
  }

  function Retire(r: Record, state: LeaseState, now: int): Record {
    r.(state := state, retiredAt := Some(now))
  }

  function Expire(r: Record, now: int): Record {
    if Live(r) && now >= Limit(r) then Retire(r, Expired, now) else r
  }

  predicate Retained(r: Record, now: int) { now - r.createdAt < RETENTION }

  function PrunedRecords(records: map<nat, Record>, now: int): map<nat, Record> {
    map id | id in records && Retained(records[id], now) :: records[id]
  }

  function PrunedBindings(l: Registry, now: int): map<(nat, nat, nat), nat> {
    map b | b in l.bindings && l.bindings[b] in l.records && Retained(l.records[l.bindings[b]], now) :: l.bindings[b]
  }

  function Prune(l: Registry, now: int): Registry {
    l.(records := PrunedRecords(l.records, now), bindings := PrunedBindings(l, now))
  }

  function ExpireAll(records: map<nat, Record>, now: int): map<nat, Record> {
    map id | id in records :: Expire(records[id], now)
  }

  function RevokeAll(records: map<nat, Record>, now: int): map<nat, Record> {
    map id | id in records :: if Live(records[id]) then Retire(records[id], Revoked, now) else records[id]
  }

  predicate Late(l: Registry, now: int) { l.boot.Some? && now - l.lastHeartbeat >= HEARTBEAT }

  /** A good reading prunes, expires, and revokes everything once the heartbeat is late. */
  function Settle(l: Registry, now: int): Registry {
    var p := Prune(l.(lastNow := now), now);
    var e := p.(records := ExpireAll(p.records, now));
    if Late(e, now) then e.(records := RevokeAll(e.records, now), stale := true) else e
  }

  function Tick(l: Registry, clock: Reading): (Registry, Outcome<int>) {
    if clock.Fault? || clock.now < 0 then (l.(held := true), Err(ClockInvalid))
    else if clock.now < l.lastNow then (l.(held := true), Err(ClockRegressed))
    else if l.held then (l, Err(RegistryHeld))
    else (Settle(l, clock.now), Ok(clock.now))
  }

  // --- Operations after a good reading -------------------------------------------------------

  function HandshakeAt(t: Registry, boot: nat, generation: nat): (Registry, Outcome<()>) {
    if generation != t.generation then (t, Err(GenerationMismatch))
    else
      var records := if t.boot.Some? && t.boot.value != boot then RevokeAll(t.records, t.lastNow) else t.records;
      (t.(records := records, boot := Some(boot), lastHeartbeat := t.lastNow, stale := false), Ok(()))
  }

  function Receiver(t: Registry, boot: nat, needFresh: bool): Outcome<()> {
    if t.boot.None? then Err(ReceiverNotConnected)
    else if needFresh && t.stale then Err(HeartbeatLate)
    else if t.boot.value != boot then Err(ReceiverBootMismatch)
    else Ok(())
  }

  function HeartbeatAt(t: Registry, boot: nat, generation: nat): (Registry, Outcome<()>) {
    if generation != t.generation then (t, Err(GenerationMismatch))
    else
      var r := Receiver(t, boot, false);
      if r.Err? then (t, r) else (t.(lastHeartbeat := t.lastNow, stale := false), Ok(()))
  }

  function DisconnectAt(t: Registry, boot: nat, generation: nat): (Registry, Outcome<()>) {
    if generation != t.generation then (t, Err(GenerationMismatch))
    else
      var r := Receiver(t, boot, false);
      if r.Err? then (t, r)
      else (t.(records := RevokeAll(t.records, t.lastNow), boot := None, lastHeartbeat := 0, stale := false), Ok(()))
  }

  ghost function LiveIds(records: map<nat, Record>): set<nat> {
    set id | id in records && Live(records[id])
  }

  datatype Wanted = Wanted(runId: nat, attemptId: nat, boot: nat, service: nat, scope: nat, expiresAt: int)

  /** `fits` says whether the metadata of one more record stays within its byte budget. */
  ghost function RegisterAt(t: Registry, w: Wanted, generation: nat, fits: bool): (Registry, Outcome<Grant>) {
    if generation != t.generation then (t, Err(GenerationMismatch))
    else
      var r := Receiver(t, w.boot, true);
      if r.Err? then (t, Err(r.error))
      else if !(t.lastNow < w.expiresAt <= t.lastNow + LEASE) then (t, Err(InvalidExpiry))
      else if (w.runId, w.attemptId, w.service) in t.bindings then
        ReplayAt(t, t.bindings[(w.runId, w.attemptId, w.service)], w)
      else if |LiveIds(t.records)| >= MAX_LIVE then (t, Err(CapacityLive))
      else if |t.records| >= MAX_RECORDS then (t, Err(CapacityTotal))
      else if !fits then (t, Err(CapacityMetadata))
      else
        var g := Grant(t.issued, w.runId, w.attemptId, w.boot, w.service, w.scope, w.expiresAt, t.issued + 1);
        (t.(records := t.records[t.issued := Record(g, t.lastNow, Registered, None, None)],
            bindings := t.bindings[Binding(g) := t.issued], issued := t.issued + 2), Ok(g))
  }

  /** Registering a known binding again returns its grant or says why it cannot. */
  function ReplayAt(t: Registry, id: nat, w: Wanted): (Registry, Outcome<Grant>) {
    if id !in t.records then (t, Err(ReplayNotLive))
    else
      var r := Expire(t.records[id], t.lastNow);
      var u := t.(records := t.records[id := r]);
      if !Live(r) then (u, Err(ReplayNotLive))
      else if r.grant.boot != w.boot || r.grant.scope != w.scope || r.grant.expiresAt != w.expiresAt
          then (u, Err(BindingConflict))
      else (u, Ok(r.grant))
  }

  function ForControl(t: Registry, id: nat, boot: nat): Outcome<Record> {
    if id !in t.records then Err(LeaseUnknown)
    else if t.records[id].grant.boot != boot then Err(ReceiverBootMismatch)
    else Ok(t.records[id])
  }

  function Put(t: Registry, id: nat, r: Record): Registry { t.(records := t.records[id := r]) }

  function ActivateAt(t: Registry, id: nat, boot: nat, generation: nat, launch: int): (Registry, Outcome<()>) {
    if generation != t.generation then (t, Err(GenerationMismatch))
    else
      var ok := Receiver(t, boot, true);
      if ok.Err? then (t, Err(ok.error))
      else
        var found := ForControl(t, id, boot);
        if found.Err? then (t, Err(found.error))
        else if launch < found.value.createdAt || launch > t.lastNow then (t, Err(InvalidLaunchTime))
        else
          var r := Expire(found.value, t.lastNow);
          var u := Put(t, id, r);
          match r.state
          case Revoked => (u, Err(LeaseRevoked))
          case Expired => (u, Err(LeaseExpired))
          case Active => (u, if r.launchAt != Some(launch) then Err(LeaseActive) else Ok(()))
          case Registered =>
            if t.lastNow >= launch + LEASE then (Put(t, id, Retire(r, Expired, t.lastNow)), Err(LeaseExpired))
            else (Put(t, id, r.(launchAt := Some(launch), state := Active)), Ok(()))
  }

  function RevokeAt(t: Registry, id: nat, boot: nat, generation: nat): (Registry, Outcome<()>) {
    if generation != t.generation then (t, Err(GenerationMismatch))
    else
      var ok := Receiver(t, boot, false);
      if ok.Err? then (t, Err(ok.error))
      else
        var found := ForControl(t, id, boot);
        if found.Err? then (t, Err(found.error))
        else
          var r := Expire(found.value, t.lastNow);
          var u := Put(t, id, r);
          if r.state.Expired? then (u, Err(LeaseExpired))
          else if r.state.Revoked? then (u, Err(LeaseRevoked))
          else (Put(t, id, Retire(r, Revoked, t.lastNow)), Ok(()))
  }

  datatype CheckReason =
    OtherGeneration | Disconnected | BeatLate | NotActive(state: LeaseState) | ScopeMismatch
    | Authorized | SentinelUnknown

  datatype Verdict = Verdict(leaseId: Option<nat>, reason: CheckReason, at: int)

  predicate Matches(r: Record, service: nat, sentinel: nat) {
    r.grant.service == service && r.grant.sentinel == sentinel
  }

  ghost function CheckAt(t: Registry, service: nat, sentinel: nat, generation: nat, scope: nat): (Registry, Verdict) {
    if generation != t.generation then (t, Verdict(None, OtherGeneration, t.lastNow))
    else if t.boot.None? then (t, Verdict(None, Disconnected, t.lastNow))
    else if t.lastNow - t.lastHeartbeat >= HEARTBEAT then
      (t.(records := RevokeAll(t.records, t.lastNow)), Verdict(None, BeatLate, t.lastNow))
    else if exists id :: id in t.records && Matches(t.records[id], service, sentinel) then
      var id :| id in t.records && Matches(t.records[id], service, sentinel);
      FoundAt(t, id, scope)
    else (t, Verdict(None, SentinelUnknown, t.lastNow))
  }

  function FoundAt(t: Registry, id: nat, scope: nat): (Registry, Verdict)
    requires id in t.records
  {
    var r := Expire(t.records[id], t.lastNow);
    (Put(t, id, r), Verdict(Some(id),
       if !r.state.Active? then NotActive(r.state) else if r.grant.scope != scope then ScopeMismatch else Authorized,
           t.lastNow))
  }

  // --- What every registry satisfies ------------------------------------------------------------

  /** A live record belongs to the connected receiver, whose heartbeat is recent, and has
      not reached its limit. */
  ghost predicate RecordOk(id: nat, r: Record, l: Registry) {
    && r.grant.leaseId == id && r.grant.sentinel == id + 1 && id + 1 < l.issued
    && 0 <= r.createdAt <= l.lastNow < r.createdAt + RETENTION
    && r.createdAt < r.grant.expiresAt <= r.createdAt + LEASE
    && (r.launchAt.Some? ==> r.createdAt <= r.launchAt.value <= l.lastNow)
    && (r.state.Active? ==> r.launchAt.Some?)
    && (Live(r) <==> r.retiredAt.None?)
    && (r.retiredAt.Some? ==> r.createdAt <= r.retiredAt.value <= l.lastNow)
    && (Live(r) ==>
          l.lastNow < Limit(r) && l.boot == Some(r.grant.boot) && !l.stale
          && l.lastNow < l.lastHeartbeat + HEARTBEAT)
  }

  /** Bindings and records name each other. */
  ghost predicate BindingsOk(records: map<nat, Record>, bindings: map<(nat, nat, nat), nat>) {
    && (forall b | b in bindings :: bindings[b] in records && Binding(records[bindings[b]].grant) == b)
    && (forall id | id in records ::
          Binding(records[id].grant) in bindings && bindings[Binding(records[id].grant)] == id)
  }

  ghost predicate Inv(l: Registry) {
    && l.lastNow >= 0
    && (l.boot.Some? ==> 0 <= l.lastHeartbeat <= l.lastNow)
    && (forall id | id in l.records :: RecordOk(id, l.records[id], l))
    && BindingsOk(l.records, l.bindings)
    && |l.records| <= MAX_RECORDS && |LiveIds(l.records)| <= MAX_LIVE
  }

  // --- How records evolve ---------------------------------------------------------------------------

  ghost predicate RecordEvolves(r: Record, r': Record) {
    && r'.grant == r.grant && r'.createdAt == r.createdAt
    && (!Live(r) ==> r' == r)
    && (r.state.Active? && Live(r') ==> r' == r)
  }

  /** Later registries: time and holds only grow, ids never return, and a record that is no
      longer live never becomes live again. */
  ghost predicate Evolves(l: Registry, l': Registry) {
    && l'.generation == l.generation
    && l.lastNow <= l'.lastNow && l.issued <= l'.issued && (l.held ==> l'.held)
    && forall id | id in l'.records ::
         if id in l.records then RecordEvolves(l.records[id], l'.records[id]) else id >= l.issued
  }

  lemma IdsOf(l: Registry)
    requires Inv(l)
    ensures forall id | id in l.records :: id < l.issued
  {
    forall id | id in l.records ensures id < l.issued { assert RecordOk(id, l.records[id], l); }
  }

  lemma EvolvesTransitive(a: Registry, b: Registry, c: Registry)
    requires Evolves(a, b) && Evolves(b, c) && forall id | id in a.records :: id < a.issued
    ensures Evolves(a, c)
  {
  }

  lemma RecordOf(l: Registry, id: nat)
    requires Inv(l) && id in l.records
    ensures RecordOk(id, l.records[id], l)
  {
  }

  /** Rewriting records in place: each one evolves, none is added, grants stay. */
  lemma Rewrite(t: Registry, u: Registry)
    requires Inv(t) && u.generation == t.generation && u.issued == t.issued && t.lastNow <= u.lastNow
        && (t.held ==> u.held)
    requires u.boot.Some? ==> 0 <= u.lastHeartbeat <= u.lastNow
    requires u.records.Keys == t.records.Keys && u.bindings == t.bindings
    requires forall id | id in u.records ::
      RecordEvolves(t.records[id], u.records[id]) && RecordOk(id, u.records[id], u)
    ensures Inv(u) && Evolves(t, u)
  {
    hide RecordOk, Limit;
    assert LiveIds(u.records) <= LiveIds(t.records);
    SubsetSize(LiveIds(u.records), LiveIds(t.records));
    assert |u.records| == |u.records.Keys| && |t.records| == |t.records.Keys|;
  }

  lemma Same(t: Registry)
    requires Inv(t)
    ensures Evolves(t, t)
  {
  }

  /** One record replaced by a later form of itself. */
  lemma Update(t: Registry, id: nat, r: Record)
    requires Inv(t) && id in t.records && RecordEvolves(t.records[id], r) && RecordOk(id, r, t)
    ensures Inv(Put(t, id, r)) && Evolves(t, Put(t, id, r))
  {
    hide Limit, Live;
    var u := Put(t, id, r);
    assert u.records.Keys == t.records.Keys;
    forall k | k in u.records ensures RecordEvolves(t.records[k], u.records[k]) && RecordOk(k, u.records[k], u) {
      RecordOf(t, k);
    }
    Rewrite(t, u);
  }

  // --- Every step keeps the invariant ----------------------------------------------------------------

  lemma PruneSteps(l: Registry, now: int)
    requires Inv(l) && l.lastNow <= now
    ensures var p := Prune(l.(lastNow := now), now);
            && BindingsOk(p.records, p.bindings) && |p.records| <= MAX_RECORDS && |LiveIds(p.records)| <= MAX_LIVE
            && p.records.Keys <= l.records.Keys && forall id | id in p.records :: p.records[id] == l.records[id]
  {
    hide RecordOk;
    var p := Prune(l.(lastNow := now), now);
    SubsetSize(p.records.Keys, l.records.Keys);
    assert |p.records| == |p.records.Keys| && |l.records| == |l.records.Keys|;
    assert LiveIds(p.records) <= LiveIds(l.records);
    SubsetSize(LiveIds(p.records), LiveIds(l.records));
  }

  lemma SettleRecord(id: nat, r: Record, l: Registry, now: int)
    requires RecordOk(id, r, l) && l.lastNow <= now && Retained(r, now)
    ensures var e := Expire(r, now);
            && RecordEvolves(r, e)
            && (Live(e) ==> Live(r) && now < Limit(e) && l.boot == Some(r.grant.boot) && !l.stale)
            && (Late(l, now) ==>
                  var e' := if Live(e) then Retire(e, Revoked, now) else e;
                  RecordEvolves(r, e') && RecordOk(id, e', l.(lastNow := now, stale := true)))
            && (!Late(l, now) ==> RecordOk(id, e, l.(lastNow := now)))
  {
  }

  lemma SettleSteps(l: Registry, now: int)
    requires Inv(l) && l.lastNow <= now
    ensures var t := Settle(l, now);
            Inv(t) && Evolves(l, t) && t.issued == l.issued && t.lastNow == now && t.held == l.held
                && (Late(t, now) ==> t.stale)
  {
    hide RecordOk, RecordEvolves, Limit, Expire, BindingsOk, LiveIds;
    PruneSteps(l, now);
    var p, t := Prune(l.(lastNow := now), now), Settle(l, now);
    var header := if Late(l, now) then l.(lastNow := now, stale := true) else l.(lastNow := now);
    forall id | id in t.records ensures RecordEvolves(l.records[id], t.records[id]) && RecordOk(id, t.records[id], t) {
      RecordOf(l, id);
      SettleRecord(id, l.records[id], l, now);
      SameHeader(id, t.records[id], header, t);
    }
    SettleBounds(p, t);
  }

  lemma SameHeader(id: nat, r: Record, a: Registry, b: Registry)
    requires RecordOk(id, r, a) && a.issued == b.issued && a.lastNow == b.lastNow && a.boot == b.boot
        && a.stale == b.stale && a.lastHeartbeat == b.lastHeartbeat
    ensures RecordOk(id, r, b)
  {
  }

  lemma SettleBounds(p: Registry, t: Registry)
    requires BindingsOk(p.records, p.bindings) && |p.records| <= MAX_RECORDS && |LiveIds(p.records)| <= MAX_LIVE
    requires t.records.Keys == p.records.Keys && t.bindings == p.bindings
    requires forall id | id in t.records :: RecordEvolves(p.records[id], t.records[id])
    ensures BindingsOk(t.records, t.bindings) && |t.records| <= MAX_RECORDS && |LiveIds(t.records)| <= MAX_LIVE
  {
    hide Limit;
    assert LiveIds(t.records) <= LiveIds(p.records);
    SubsetSize(LiveIds(t.records), LiveIds(p.records));
    assert |t.records| == |t.records.Keys| && |p.records| == |p.records.Keys|;
  }

  lemma HoldSteps(l: Registry)
    requires Inv(l)
    ensures Inv(l.(held := true)) && Evolves(l, l.(held := true))
  {
    hide RecordOk;
    forall id | id in l.records ensures RecordOk(id, l.records[id], l.(held := true)) { SameHeader(id, l.records[id],
        l, l.(held := true)); }
  }

  lemma TickSteps(l: Registry, clock: Reading)
    requires Inv(l)
    ensures var (t, now) := Tick(l, clock);
            && Inv(t) && Evolves(l, t) && t.issued == l.issued
            && (now.Ok? ==> now.value == t.lastNow == clock.now && !t.held && (Late(t, t.lastNow) ==> t.stale))
            && (now.Err? ==> t.held)
  {
    hide Inv, Evolves, Settle;
    Same(l);
    if clock.At? && clock.now >= l.lastNow && clock.now >= 0 { SettleSteps(l, clock.now); }
    HoldSteps(l);
  }

  /** Pruning again at the last accepted reading changes nothing. */
  lemma PruneIdle(l: Registry)
    requires Inv(l)
    ensures Prune(l, l.lastNow) == l
  {
    forall id | id in l.records ensures Retained(l.records[id], l.lastNow) { RecordOf(l, id); }
  }

  lemma RevokeRecord(id: nat, r: Record, t: Registry, u: Registry)
    requires RecordOk(id, r, t) && u.issued == t.issued && u.lastNow == t.lastNow
    ensures var e := if Live(r) then Retire(r, Revoked, t.lastNow) else r;
            RecordEvolves(r, e) && RecordOk(id, e, u)
  {
  }

  lemma RevokeAllSteps(t: Registry, u: Registry)
    requires Inv(t) && u.records == RevokeAll(t.records, t.lastNow) && u.bindings == t.bindings
    requires u.generation == t.generation && u.issued == t.issued && u.lastNow == t.lastNow && u.held == t.held
    requires u.boot.Some? ==> 0 <= u.lastHeartbeat <= u.lastNow
    ensures Inv(u) && Evolves(t, u)
  {
    hide RecordOk, RecordEvolves, Limit;
    assert u.records.Keys == t.records.Keys;
    forall id | id in u.records ensures RecordEvolves(t.records[id], u.records[id]) && RecordOk(id, u.records[id], u) {
      RecordOf(t, id);
      RevokeRecord(id, t.records[id], t, u);
    }
    hide Inv, Evolves;
    Rewrite(t, u);
  }

  /** A fresh heartbeat from the connected receiver keeps every record as it is. */
  lemma BeatSteps(t: Registry)
    requires Inv(t) && t.boot.Some?
    ensures var u := t.(lastHeartbeat := t.lastNow, stale := false); Inv(u) && Evolves(t, u)
  {
    var u := t.(lastHeartbeat := t.lastNow, stale := false);
    forall id | id in u.records ensures RecordEvolves(t.records[id], u.records[id]) && RecordOk(id, u.records[id], u) {
      RecordOf(t, id);
    }
    hide RecordOk, RecordEvolves;
    Rewrite(t, u);
  }

  lemma NoneLive(t: Registry, id: nat)
    requires Inv(t) && t.boot.None? && id in t.records
    ensures !Live(t.records[id])
  {
    RecordOf(t, id);
  }

  lemma HandshakeSteps(t: Registry, boot: nat, generation: nat)
    requires Inv(t)
    ensures var u := HandshakeAt(t, boot, generation).0; Inv(u) && Evolves(t, u)
  {
    hide Inv, Evolves, RecordOk, RevokeAll;
    Same(t);
    var u := HandshakeAt(t, boot, generation).0;
    TimeOf(t);
    if generation == t.generation {
      if t.boot == Some(boot) {
        BeatSteps(t);
      } else if t.boot.None? {
        ConnectSteps(t, boot);
      } else {
        RevokeAllSteps(t, u);
      }
    }
  }

  lemma TimeOf(t: Registry)
    requires Inv(t)
    ensures t.lastNow >= 0 && (t.boot.Some? ==> 0 <= t.lastHeartbeat <= t.lastNow)
  {
  }

  lemma ConnectSteps(t: Registry, boot: nat)
    requires Inv(t) && t.boot.None?
    ensures var u := t.(boot := Some(boot), lastHeartbeat := t.lastNow, stale := false); Inv(u) && Evolves(t, u)
  {
    var u := t.(boot := Some(boot), lastHeartbeat := t.lastNow, stale := false);
    forall id | id in u.records ensures RecordEvolves(t.records[id], u.records[id]) && RecordOk(id, u.records[id], u) {
      RecordOf(t, id);
      NoneLive(t, id);
    }
    hide RecordOk, RecordEvolves;
    Rewrite(t, u);
  }

  lemma HeartbeatSteps(t: Registry, boot: nat, generation: nat)
    requires Inv(t)
    ensures var u := HeartbeatAt(t, boot, generation).0; Inv(u) && Evolves(t, u)
  {
    hide Inv, Evolves;
    Same(t);
    if t.boot.Some? { BeatSteps(t); }
  }

  lemma DisconnectSteps(t: Registry, boot: nat, generation: nat)
    requires Inv(t)
    ensures var u := DisconnectAt(t, boot, generation).0; Inv(u) && Evolves(t, u)
  {
    hide Inv, Evolves, RevokeAll;
    Same(t);
    var (u, r) := DisconnectAt(t, boot, generation);
    if r.Ok? { RevokeAllSteps(t, u); }
  }

  lemma ExpireOk(id: nat, r: Record, t: Registry)
    requires RecordOk(id, r, t)
    ensures Expire(r, t.lastNow) == r
  {
  }

  lemma NewRecord(t: Registry, g: Grant)
    requires Inv(t) && t.boot == Some(g.boot) && !t.stale && t.lastNow < t.lastHeartbeat + HEARTBEAT
    requires g.leaseId == t.issued && g.sentinel == t.issued + 1 && t.lastNow < g.expiresAt <= t.lastNow + LEASE
    requires Binding(g) !in t.bindings && |t.records| < MAX_RECORDS && |LiveIds(t.records)| < MAX_LIVE
    ensures var u := t.(records := t.records[t.issued := Record(g, t.lastNow, Registered, None, None)],
                        bindings := t.bindings[Binding(g) := t.issued], issued := t.issued + 2);
            Inv(u) && Evolves(t, u)
  {
    hide RecordOk, BindingsOk, RecordEvolves, Limit, LiveIds;
    var id, r := t.issued, Record(g, t.lastNow, Registered, None, None);
    var u := t.(records := t.records[id := r], bindings := t.bindings[Binding(g) := id], issued := id + 2);
    IdsOf(t);
    TimeOf(t);
    NewCounts(t.records, id, r);
    forall k | k in u.records ensures RecordOk(k, u.records[k], u) {
      if k == id { NewRecordOk(t, u, g); } else { RecordOf(t, k); MoreIssued(k, t.records[k], t, u); }
    }
    forall k | k in u.records && k in t.records ensures RecordEvolves(t.records[k], u.records[k]) {
      SelfEvolves(t.records[k]);
    }
    NewBinding(t, id, r);
  }

  lemma SelfEvolves(r: Record)
    ensures RecordEvolves(r, r)
  {
  }

  lemma NewRecordOk(t: Registry, u: Registry, g: Grant)
    requires t.boot == Some(g.boot) && !t.stale && t.lastNow < t.lastHeartbeat + HEARTBEAT && 0 <= t.lastNow
    requires g.leaseId == t.issued && g.sentinel == t.issued + 1 && t.lastNow < g.expiresAt <= t.lastNow + LEASE
    requires u.boot == t.boot && u.stale == t.stale && u.lastHeartbeat == t.lastHeartbeat && u.lastNow == t.lastNow
        && u.issued == t.issued + 2
    ensures RecordOk(t.issued, Record(g, t.lastNow, Registered, None, None), u)
  {
  }

  lemma MoreIssued(id: nat, r: Record, t: Registry, u: Registry)
    requires RecordOk(id, r, t)
    requires u.boot == t.boot && u.stale == t.stale && u.lastHeartbeat == t.lastHeartbeat && u.lastNow == t.lastNow
        && u.issued >= t.issued
    ensures RecordOk(id, r, u)
  {
  }

  lemma NewCounts(records: map<nat, Record>, id: nat, r: Record)
    requires id !in records && Live(r)
    ensures |records[id := r]| == |records| + 1 && |LiveIds(records[id := r])| == |LiveIds(records)| + 1
  {
    assert records[id := r].Keys == records.Keys + {id};
    assert |records[id := r]| == |records[id := r].Keys| && |records| == |records.Keys|;
    assert LiveIds(records[id := r]) == LiveIds(records) + {id};
  }

  lemma NewBinding(t: Registry, id: nat, r: Record)
    requires BindingsOk(t.records, t.bindings) && id !in t.records && Binding(r.grant) !in t.bindings
    ensures BindingsOk(t.records[id := r], t.bindings[Binding(r.grant) := id])
  {
  }

  lemma RegisterSteps(t: Registry, w: Wanted, generation: nat, fits: bool)
    requires Inv(t) && (Late(t, t.lastNow) ==> t.stale)
    ensures var u := RegisterAt(t, w, generation, fits).0; Inv(u) && Evolves(t, u)
  {
    hide Inv, Evolves, LiveIds, ReplayAt;
    Same(t);
    var b := (w.runId, w.attemptId, w.service);
    if b in t.bindings {
      ReplaySteps(t, t.bindings[b], w);
    } else if RegisterAt(t, w, generation, fits).1.Ok? {
      NewRecord(t, Grant(t.issued, w.runId, w.attemptId, w.boot, w.service, w.scope, w.expiresAt, t.issued + 1));
    }
  }

  lemma ReplaySteps(t: Registry, id: nat, w: Wanted)
    requires Inv(t)
    ensures var u := ReplayAt(t, id, w).0; Inv(u) && Evolves(t, u)
  {
    hide Inv, Evolves, Expire;
    Same(t);
    if id in t.records {
      RecordOf(t, id);
      ExpireOk(id, t.records[id], t);
      assert t.records[id := t.records[id]] == t.records;
    }
  }

  lemma ActivateOk(id: nat, r: Record, t: Registry, launch: int)
    requires RecordOk(id, r, t) && r.state.Registered? && r.createdAt <= launch <= t.lastNow
    ensures t.lastNow < launch + LEASE
    ensures var a := r.(launchAt := Some(launch), state := Active); RecordOk(id, a, t) && RecordEvolves(r, a)
  {
  }

  lemma ActivateSteps(t: Registry, id: nat, boot: nat, generation: nat, launch: int)
    requires Inv(t)
    ensures var u := ActivateAt(t, id, boot, generation, launch).0; Inv(u) && Evolves(t, u)
  {
    hide Inv, Evolves, Expire, RecordOk, RecordEvolves;
    Same(t);
    if id in t.records {
      var r := t.records[id];
      RecordOf(t, id);
      ExpireOk(id, r, t);
      assert t.records[id := r] == t.records;
      if r.state.Registered? && r.createdAt <= launch <= t.lastNow {
        ActivateOk(id, r, t, launch);
        Update(t, id, r.(launchAt := Some(launch), state := Active));
      }
    }
  }

  lemma RevokeSteps(t: Registry, id: nat, boot: nat, generation: nat)
    requires Inv(t)
    ensures var u := RevokeAt(t, id, boot, generation).0; Inv(u) && Evolves(t, u)
  {
    hide Inv, Evolves, Expire, RecordOk, RecordEvolves;
    Same(t);
    if id in t.records {
      var r := t.records[id];
      RecordOf(t, id);
      ExpireOk(id, r, t);
      assert t.records[id := r] == t.records;
      if Live(r) {
        RevokeRecord(id, r, t, t);
        Update(t, id, Retire(r, Revoked, t.lastNow));
      }
    }
  }

  lemma CheckSteps(t: Registry, service: nat, sentinel: nat, generation: nat, scope: nat)
    requires Inv(t)
    ensures var u := CheckAt(t, service, sentinel, generation, scope).0; Inv(u) && Evolves(t, u)
  {
    hide Inv, Evolves, Expire, RecordOk, RevokeAll, FoundAt;
    Same(t);
    TimeOf(t);
    RevokeAllSteps(t, t.(records := RevokeAll(t.records, t.lastNow)));
    forall id | id in t.records ensures FoundAt(t, id, scope).0 == t { FoundIdle(t, id, scope); }
  }

  lemma BindingsOf(t: Registry)
    requires Inv(t)
    ensures BindingsOk(t.records, t.bindings)
  {
  }

  /** Sentinels are unique, so the check's answer does not depend on the search order. */
  lemma MatchUnique(t: Registry, service: nat, sentinel: nat, generation: nat, scope: nat, id: nat)
    requires Inv(t) && id in t.records && Matches(t.records[id], service, sentinel)
    requires generation == t.generation && t.boot.Some? && t.lastNow - t.lastHeartbeat < HEARTBEAT
    ensures CheckAt(t, service, sentinel, generation, scope) == FoundAt(t, id, scope)
  {
    hide Inv, FoundAt, RevokeAll;
    forall k | k in t.records && Matches(t.records[k], service, sentinel) ensures k == id {
      RecordOf(t, k);
      RecordOf(t, id);
    }
  }

  lemma FoundIdle(t: Registry, id: nat, scope: nat)
    requires Inv(t) && id in t.records
    ensures FoundAt(t, id, scope).0 == t
  {
    hide Inv, Expire, RecordOk;
    RecordOf(t, id);
    ExpireOk(id, t.records[id], t);
    assert t.records[id := t.records[id]] == t.records;
  }

  // --- Runs --------------------------------------------------------------------------------------------

  /** Every call a registry can receive. */
  datatype Op =
    | Hold
    | Handshake(clock: Reading, boot: nat, generation: nat)
    | Heartbeat(clock: Reading, boot: nat, generation: nat)
    | Disconnect(clock: Reading, boot: nat, generation: nat)
    | Register(clock: Reading, wanted: Wanted, generation: nat, fits: bool)
    | Activate(clock: Reading, id: nat, boot: nat, generation: nat, launch: int)
    | Revoke(clock: Reading, id: nat, boot: nat, generation: nat)
    | Check(clock: Reading, service: nat, sentinel: nat, generation: nat, scope: nat)
    | Snapshot(clock: Reading)

  ghost function StepAt(t: Registry, op: Op): Registry {
    match op
    case Hold => t.(held := true)
    case Handshake(_, boot, generation) => HandshakeAt(t, boot, generation).0
    case Heartbeat(_, boot, generation) => HeartbeatAt(t, boot, generation).0
    case Disconnect(_, boot, generation) => DisconnectAt(t, boot, generation).0
    case Register(_, wanted, generation, fits) => RegisterAt(t, wanted, generation, fits).0
    case Activate(_, id, boot, generation, launch) => ActivateAt(t, id, boot, generation, launch).0
    case Revoke(_, id, boot, generation) => RevokeAt(t, id, boot, generation).0
    case Check(_, service, sentinel, generation, scope) => CheckAt(t, service, sentinel, generation, scope).0
    case Snapshot(_) => t
  }

  ghost function Step(l: Registry, op: Op): Registry {
    if op.Hold? then StepAt(l, op)
    else
      var (t, now) := Tick(l, op.clock);
      if now.Err? then t else StepAt(t, op)
  }

  ghost function Run(l: Registry, ops: seq<Op>): Registry
    decreases |ops|
  {
    if ops == [] then l else Run(Step(l, ops[0]), ops[1..])
  }

  lemma StepAtSteps(t: Registry, op: Op)
    requires Inv(t) && (Late(t, t.lastNow) ==> t.stale || op.Hold?)
    ensures Inv(StepAt(t, op)) && Evolves(t, StepAt(t, op))
  {
    hide Inv, Evolves, HandshakeAt, HeartbeatAt, DisconnectAt, RegisterAt, ActivateAt, RevokeAt, CheckAt;
    match op
    case Hold => HoldSteps(t);
    case Handshake(_, boot, generation) => HandshakeSteps(t, boot, generation);
    case Heartbeat(_, boot, generation) => HeartbeatSteps(t, boot, generation);
    case Disconnect(_, boot, generation) => DisconnectSteps(t, boot, generation);
    case Register(_, wanted, generation, fits) => RegisterSteps(t, wanted, generation, fits);
    case Activate(_, id, boot, generation, launch) => ActivateSteps(t, id, boot, generation, launch);
    case Revoke(_, id, boot, generation) => RevokeSteps(t, id, boot, generation);
    case Check(_, service, sentinel, generation, scope) => CheckSteps(t, service, sentinel, generation, scope);
    case Snapshot(_) => Same(t);
  }

  lemma StepSteps(l: Registry, op: Op)
    requires Inv(l)
    ensures Inv(Step(l, op)) && Evolves(l, Step(l, op))
  {
    hide Inv, Evolves, Tick, StepAt;
    if op.Hold? {
      StepAtSteps(l, op);
    } else {
      TickSteps(l, op.clock);
      IdsOf(l);
      var (t, now) := Tick(l, op.clock);
      if now.Ok? {
        StepAtSteps(t, op);
        EvolvesTransitive(l, t, StepAt(t, op));
      }
    }
  }

  /** Over every run the registry keeps its invariant and its records only move forward. */
  lemma {:induction false} RunSteps(l: Registry, ops: seq<Op>)
    requires Inv(l)
    ensures Inv(Run(l, ops)) && Evolves(l, Run(l, ops))
    decreases |ops|
  {
    hide Inv, Evolves, Step;
    if ops == [] {
      Same(l);
    } else {
      StepSteps(l, ops[0]);
      var m := Step(l, ops[0]);
      RunSteps(m, ops[1..]);
      IdsOf(l);
      EvolvesTransitive(l, m, Run(l, ops));
    }
  }

  function Fresh(generation: nat): Registry { Registry(generation, map[], map[], None, 0, false, false, 0, 0) }

  lemma FreshInv(generation: nat)
    ensures Inv(Fresh(generation))
  {
    assert LiveIds(map[]) == {};
  }

  // --- Revocation ------------------------------------------------------------------------------------------

  /** An issued lease that is no longer live: revoked, expired, or already forgotten. */
  ghost predicate Dead(l: Registry, id: nat) {
    id < l.issued && (id in l.records ==> !Live(l.records[id]))
  }

  /** The registry would authorize this lease on some request with this reading. */
  ghost predicate Authorizes(l: Registry, clock: Reading, service: nat, sentinel: nat, generation: nat, scope: nat,
                             id: nat) {
    var (t, now) := Tick(l, clock);
    now.Ok?
        && CheckAt(t, service, sentinel, generation, scope).1 == Verdict(Some(id), CheckReason.Authorized, t.lastNow)
  }

  lemma AuthorizedActive(t: Registry, service: nat, sentinel: nat, generation: nat, scope: nat)
    requires Inv(t)
    ensures var v := CheckAt(t, service, sentinel, generation, scope).1;
            v.reason.Authorized? ==>
              && v.leaseId.Some? && v.leaseId.value in t.records
              && var r := t.records[v.leaseId.value];
                 r.state.Active? && r.grant.service == service && r.grant.sentinel == sentinel && r.grant.scope == scope
                 && generation == t.generation
  {
    hide Inv, Expire, RecordOk, RevokeAll;
    forall id | id in t.records ensures Expire(t.records[id], t.lastNow) == t.records[id] {
      RecordOf(t, id);
      ExpireOk(id, t.records[id], t);
    }
  }

  lemma DeadForever(l: Registry, ops: seq<Op>, id: nat)
    requires Inv(l) && Dead(l, id)
    ensures Dead(Run(l, ops), id)
  {
    hide Inv, Run;
    RunSteps(l, ops);
  }

  /** Once a lease is not live, no later check in any run authorizes it. */
  lemma RevocationFence(l: Registry, ops: seq<Op>, clock: Reading, service: nat, sentinel: nat, generation: nat,
                        scope: nat, id: nat)
    requires Inv(l) && Dead(l, id)
    ensures !Authorizes(Run(l, ops), clock, service, sentinel, generation, scope, id)
  {
    hide Inv, Run, Tick, CheckAt;
    RunSteps(l, ops);
    var b := Run(l, ops);
    TickSteps(b, clock);
    AuthorizedActive(Tick(b, clock).0, service, sentinel, generation, scope);
  }

  lemma HeldForever(l: Registry, ops: seq<Op>, clock: Reading, service: nat, sentinel: nat, generation: nat,
                    scope: nat, id: nat)
    requires Inv(l) && l.held
    ensures Run(l, ops).held && !Authorizes(Run(l, ops), clock, service, sentinel, generation, scope, id)
  {
    hide Inv, Run, CheckAt, Settle;
    RunSteps(l, ops);
  }
}
