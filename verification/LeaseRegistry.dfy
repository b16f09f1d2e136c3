/** The lease registry as an object: records retired in place by loops over the table. */
module LeaseRegistry {
  import opened Text
  import opened Clock
  import L = Leases

  class Registry {
    const generation: nat
    var records: map<nat, L.Record>
    var bindings: map<(nat, nat, nat), nat>
    var boot: Option<nat>
    var lastHeartbeat: int
    var stale: bool
    var held: bool
    var lastNow: int
    var issued: nat

    function State(): L.Registry
      reads this
    {
      L.Registry(generation, records, bindings, boot, lastHeartbeat, stale, held, lastNow, issued)
    }

    ghost predicate Valid()
      reads this
    {
      L.Inv(State())
    }

    constructor (generation: nat)
      ensures Valid() && State() == L.Fresh(generation)
    {
      this.generation := generation;
      records, bindings, boot, lastHeartbeat, stale, held, lastNow, issued := map[], map[], None, 0, false, false, 0, 0;
      new;
      L.FreshInv(generation);
    }

    method Hold()
      requires Valid()
      modifies `held
      ensures Valid() && State() == L.Step(old(State()), L.Hold)
    {
      hide L.Inv, L.Evolves;
      L.HoldSteps(State());
      held := true;
    }

    method Prune(now: int)
      requires L.BindingsOk(records, bindings)
      modifies `records, `bindings
      ensures State() == L.Prune(old(State()), now)
    {
      var todo := records.Keys;
      while todo != {}
        invariant todo <= records.Keys <= old(records.Keys)
        invariant forall id | id in records :: records[id] == old(records)[id]
        invariant forall id | id in old(records) :: id in records <==> id in todo || L.Retained(old(records)[id], now)
        invariant bindings.Keys <= old(bindings.Keys)
        invariant forall b | b in bindings :: bindings[b] == old(bindings)[b]
        invariant forall b | b in old(bindings) :: b in bindings <==> old(bindings)[b] in records
        decreases |todo|
      {
        var id :| id in todo;
        var r := records[id];
        if now - r.createdAt >= L.RETENTION {
          records := records - {id};
          bindings := bindings - {L.Binding(r.grant)};
        }
        todo := todo - {id};
      }
      assert records == L.PrunedRecords(old(records), now);
      assert bindings == L.PrunedBindings(old(State()), now);
    }

    method ExpireAll(now: int)
      modifies `records
      ensures records == L.ExpireAll(old(records), now)
    {
      var todo := records.Keys;
      while todo != {}
        invariant todo <= records.Keys == old(records.Keys)
        invariant forall id | id in records ::
          records[id] == if id in todo then old(records)[id] else L.Expire(old(records)[id], now)
        decreases |todo|
      {
        var id :| id in todo;
        records := records[id := L.Expire(records[id], now)];
        todo := todo - {id};
      }
    }

    method RetireConnected(now: int)
      modifies `records
      ensures records == L.RevokeAll(old(records), now)
    {
      var todo := records.Keys;
      while todo != {}
        invariant todo <= records.Keys == old(records.Keys)
        invariant forall id | id in records ::
          records[id] == if id in todo || !L.Live(old(records)[id]) then old(records)[id]
                         else L.Retire(old(records)[id], L.Revoked, now)
        decreases |todo|
      {
        var id :| id in todo;
        if L.Live(records[id]) { records := records[id := L.Retire(records[id], L.Revoked, now)]; }
        todo := todo - {id};
      }
    }

    method Settle(now: int)
      requires Valid() && lastNow <= now
      modifies this
      ensures Valid() && State() == L.Settle(old(State()), now)
    {
      hide L.Inv, L.Evolves, L.PrunedRecords, L.PrunedBindings, L.ExpireAll, L.RevokeAll;
      L.SettleSteps(State(), now);
      assert L.BindingsOk(records, bindings) by { L.BindingsOf(State()); }
      lastNow := now;
      Prune(now);
      ExpireAll(now);
      if boot.Some? && now - lastHeartbeat >= L.HEARTBEAT {
        RetireConnected(now);
        stale := true;
      }
    }

    method Tick(clock: Reading) returns (r: L.Outcome<int>)
      requires Valid()
      modifies this
      ensures Valid() && (State(), r) == L.Tick(old(State()), clock)
      ensures r.Ok? ==> r.value == lastNow && (L.Late(State(), lastNow) ==> stale)
    {
      hide L.Inv, L.Evolves, L.Settle;
      L.TickSteps(State(), clock);
      if clock.Fault? || clock.now < 0 { held := true; return L.Err(L.ClockInvalid); }
      if clock.now < lastNow { held := true; return L.Err(L.ClockRegressed); }
      if held { return L.Err(L.RegistryHeld); }
      Settle(clock.now);
      return L.Ok(clock.now);
    }

    method Handshake(clock: Reading, peer: nat, gen: nat) returns (r: L.Outcome<()>)
      requires Valid()
      modifies this
      ensures Valid() && State() == L.Step(old(State()), L.Handshake(clock, peer, gen))
      ensures var (t, now) := L.Tick(old(State()), clock);
              r == if now.Err? then L.Err(now.error) else L.HandshakeAt(t, peer, gen).1
    {
      hide L.Inv, L.Evolves, L.Tick, L.RevokeAll;
      var now := Tick(clock);
      if now.Err? { return L.Err(now.error); }
      L.HandshakeSteps(State(), peer, gen);
      if gen != generation { return L.Err(L.GenerationMismatch); }
      if boot.Some? && boot.value != peer { RetireConnected(now.value); }
      boot, lastHeartbeat, stale := Some(peer), now.value, false;
      return L.Ok(());
    }

    method Heartbeat(clock: Reading, peer: nat, gen: nat) returns (r: L.Outcome<()>)
      requires Valid()
      modifies this
      ensures Valid() && State() == L.Step(old(State()), L.Heartbeat(clock, peer, gen))
      ensures var (t, now) := L.Tick(old(State()), clock);
              r == if now.Err? then L.Err(now.error) else L.HeartbeatAt(t, peer, gen).1
    {
      hide L.Inv, L.Evolves, L.Tick;
      var now := Tick(clock);
      if now.Err? { return L.Err(now.error); }
      L.HeartbeatSteps(State(), peer, gen);
      if gen != generation { return L.Err(L.GenerationMismatch); }
      r := L.Receiver(State(), peer, false);
      if r.Err? { return; }
      lastHeartbeat, stale := now.value, false;
    }

    method Disconnect(clock: Reading, peer: nat, gen: nat) returns (r: L.Outcome<()>)
      requires Valid()
      modifies this
      ensures Valid() && State() == L.Step(old(State()), L.Disconnect(clock, peer, gen))
      ensures var (t, now) := L.Tick(old(State()), clock);
              r == if now.Err? then L.Err(now.error) else L.DisconnectAt(t, peer, gen).1
    {
      hide L.Inv, L.Evolves, L.Tick, L.RevokeAll;
      var now := Tick(clock);
      if now.Err? { return L.Err(now.error); }
      L.DisconnectSteps(State(), peer, gen);
      if gen != generation { return L.Err(L.GenerationMismatch); }
      r := L.Receiver(State(), peer, false);
      if r.Err? { return; }
      RetireConnected(now.value);
      boot, lastHeartbeat, stale := None, 0, false;
    }

    method CountLive() returns (live: nat)
      ensures live == |L.LiveIds(records)|
    {
      var todo: set<nat> := records.Keys;
      live := 0;
      ghost var seen: set<nat> := {};
      while todo != {}
        invariant todo <= records.Keys
        invariant seen == set id | id in records && id !in todo && L.Live(records[id])
        invariant live == |seen|
        decreases |todo|
      {
        var id :| id in todo;
        if L.Live(records[id]) {
          live := live + 1;
          seen := seen + {id};
        }
        todo := todo - {id};
      }
      assert seen == L.LiveIds(records);
    }

    method Register(clock: Reading, w: L.Wanted, gen: nat, fits: bool) returns (r: L.Outcome<L.Grant>)
      requires Valid()
      modifies this
      ensures Valid() && State() == L.Step(old(State()), L.Register(clock, w, gen, fits))
      ensures var (t, now) := L.Tick(old(State()), clock);
              r == if now.Err? then L.Err(now.error) else L.RegisterAt(t, w, gen, fits).1
    {
      hide L.Inv, L.Evolves, L.Tick, L.LiveIds, L.Late, L.ReplayAt;
      var now := Tick(clock);
      if now.Err? { return L.Err(now.error); }
      ghost var t := State();
      L.RegisterSteps(t, w, gen, fits);
      if gen != generation { return L.Err(L.GenerationMismatch); }
      var ok := L.Receiver(State(), w.boot, true);
      if ok.Err? { return L.Err(ok.error); }
      if !(now.value < w.expiresAt <= now.value + L.LEASE) { return L.Err(L.InvalidExpiry); }
      var key := (w.runId, w.attemptId, w.service);
      if key in bindings {
        r := Replay(bindings[key], w);
        return;
      }
      var live := CountLive();
      if live >= L.MAX_LIVE { return L.Err(L.CapacityLive); }
      if |records| >= L.MAX_RECORDS { return L.Err(L.CapacityTotal); }
      if !fits { return L.Err(L.CapacityMetadata); }
      var g := L.Grant(issued, w.runId, w.attemptId, w.boot, w.service, w.scope, w.expiresAt, issued + 1);
      records := records[issued := L.Record(g, now.value, L.Registered, None, None)];
      bindings := bindings[L.Binding(g) := issued];
      issued := issued + 2;
      return L.Ok(g);
    }

    method Replay(id: nat, w: L.Wanted) returns (r: L.Outcome<L.Grant>)
      requires Valid()
      modifies `records
      ensures Valid() && (State(), r) == L.ReplayAt(old(State()), id, w)
    {
      hide L.Inv, L.Evolves, L.Expire;
      L.ReplaySteps(State(), id, w);
      if id !in records { return L.Err(L.ReplayNotLive); }
      var rec := L.Expire(records[id], lastNow);
      records := records[id := rec];
      if !L.Live(rec) { return L.Err(L.ReplayNotLive); }
      if rec.grant.boot != w.boot || rec.grant.scope != w.scope
          || rec.grant.expiresAt != w.expiresAt { return L.Err(L.BindingConflict); }
      return L.Ok(rec.grant);
    }

    method Activate(clock: Reading, id: nat, peer: nat, gen: nat, launch: int) returns (r: L.Outcome<()>)
      requires Valid()
      modifies this
      ensures Valid() && State() == L.Step(old(State()), L.Activate(clock, id, peer, gen, launch))
      ensures var (t, now) := L.Tick(old(State()), clock);
              r == if now.Err? then L.Err(now.error) else L.ActivateAt(t, id, peer, gen, launch).1
    {
      hide L.Inv, L.Evolves, L.Tick, L.Expire, L.Late;
      var now := Tick(clock);
      if now.Err? { return L.Err(now.error); }
      L.ActivateSteps(State(), id, peer, gen, launch);
      if gen != generation { return L.Err(L.GenerationMismatch); }
      r := L.Receiver(State(), peer, true);
      if r.Err? { return; }
      var found := L.ForControl(State(), id, peer);
      if found.Err? { return L.Err(found.error); }
      if launch < found.value.createdAt || launch > now.value { return L.Err(L.InvalidLaunchTime); }
      var rec := L.Expire(found.value, now.value);
      ghost var before := records;
      records := records[id := rec];
      match rec.state {
        case Revoked => return L.Err(L.LeaseRevoked);
        case Expired => return L.Err(L.LeaseExpired);
        case Active =>
          if rec.launchAt != Some(launch) { return L.Err(L.LeaseActive); }
          return L.Ok(());
        case Registered =>
          if now.value >= launch + L.LEASE {
            records := records[id := L.Retire(rec, L.Expired, now.value)];
            assert records == before[id := L.Retire(rec, L.Expired, now.value)];
            return L.Err(L.LeaseExpired);
          }
          records := records[id := rec.(launchAt := Some(launch), state := L.Active)];
          assert records == before[id := rec.(launchAt := Some(launch), state := L.Active)];
          return L.Ok(());
      }
    }

    method Revoke(clock: Reading, id: nat, peer: nat, gen: nat) returns (r: L.Outcome<()>)
      requires Valid()
      modifies this
      ensures Valid() && State() == L.Step(old(State()), L.Revoke(clock, id, peer, gen))
      ensures var (t, now) := L.Tick(old(State()), clock);
              r == if now.Err? then L.Err(now.error) else L.RevokeAt(t, id, peer, gen).1
    {
      hide L.Inv, L.Evolves, L.Tick, L.Expire, L.Late;
      var now := Tick(clock);
      if now.Err? { return L.Err(now.error); }
      L.RevokeSteps(State(), id, peer, gen);
      if gen != generation { return L.Err(L.GenerationMismatch); }
      r := L.Receiver(State(), peer, false);
      if r.Err? { return; }
      var found := L.ForControl(State(), id, peer);
      if found.Err? { return L.Err(found.error); }
      var rec := L.Expire(found.value, now.value);
      ghost var before := records;
      records := records[id := rec];
      if rec.state.Expired? { return L.Err(L.LeaseExpired); }
      if rec.state.Revoked? { return L.Err(L.LeaseRevoked); }
      records := records[id := L.Retire(rec, L.Revoked, now.value)];
      assert records == before[id := L.Retire(rec, L.Revoked, now.value)];
    }

    /** Stays readable while held; pruning again at the last reading changes nothing. */
    method Snapshot(clock: Reading)
      requires Valid()
      modifies this
      ensures Valid() && State() == L.Tick(old(State()), clock).0
    {
      hide L.Inv, L.Evolves, L.Tick, L.Prune;
      var now := Tick(clock);
      L.PruneIdle(State());
      assert L.BindingsOk(records, bindings) by { L.BindingsOf(State()); }
      Prune(lastNow);
    }

    /** The authorization check: a linear search whose order does not matter. */
    method Check(clock: Reading, service: nat, sentinel: nat, gen: nat, scope: nat) returns (r: L.Outcome<L.Verdict>)
      requires Valid()
      modifies this
      ensures Valid() && State() == L.Step(old(State()), L.Check(clock, service, sentinel, gen, scope))
      ensures var (t, now) := L.Tick(old(State()), clock);
              r == if now.Err? then L.Err(now.error) else L.Ok(L.CheckAt(t, service, sentinel, gen, scope).1)
    {
      hide L.Inv, L.Evolves, L.Tick, L.RevokeAll, L.Late, L.Matches, L.FoundAt;
      var now := Tick(clock);
      if now.Err? { return L.Err(now.error); }
      ghost var t := State();
      L.CheckSteps(t, service, sentinel, gen, scope);
      if gen != generation { return L.Ok(L.Verdict(None, L.OtherGeneration, now.value)); }
      if boot.None? { return L.Ok(L.Verdict(None, L.Disconnected, now.value)); }
      if now.value - lastHeartbeat >= L.HEARTBEAT {
        RetireConnected(now.value);
        return L.Ok(L.Verdict(None, L.BeatLate, now.value));
      }
      var todo := records.Keys;
      while todo != {}
        invariant todo <= records.Keys && State() == t
        invariant forall id | id in records && id !in todo :: !L.Matches(records[id], service, sentinel)
        decreases |todo|
      {
        var id :| id in todo;
        if L.Matches(records[id], service, sentinel) {
          L.MatchUnique(t, service, sentinel, gen, scope, id);
          L.FoundIdle(t, id, scope);
          var verdict := Decide(id, scope);
          return L.Ok(verdict);
        }
        todo := todo - {id};
      }
      return L.Ok(L.Verdict(None, L.SentinelUnknown, now.value));
    }

    method Decide(id: nat, scope: nat) returns (v: L.Verdict)
      requires id in records
      modifies `records
      ensures (State(), v) == L.FoundAt(old(State()), id, scope)
    {
      var rec := L.Expire(records[id], lastNow);
      records := records[id := rec];
      if !rec.state.Active? { return L.Verdict(Some(id), L.NotActive(rec.state), lastNow); }
      if rec.grant.scope != scope { return L.Verdict(Some(id), L.ScopeMismatch, lastNow); }
      return L.Verdict(Some(id), L.CheckReason.Authorized, lastNow);
    }
  }
}
