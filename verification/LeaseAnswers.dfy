/** When the registry says yes, and to what: each answer against the registry as the caller
    finds it, before the operation's own reading has settled it. */
module LeaseAnswers {
  import opened Text
  import opened Clock
  import opened Leases

  /** A reading the registry takes. */
  predicate Usable(l: Registry, clock: Reading) { clock.At? && l.lastNow <= clock.now && !l.held }

  /** The receiver is the connected one and was heard from less than 15 seconds ago. */
  predicate InContact(l: Registry, boot: nat, now: int) {
    l.boot == Some(boot) && !l.stale && now < l.lastHeartbeat + 15_000
  }

  /** A record not yet revoked and, at `now`, within its expiry and within 270 seconds of its
      registration and of its launch. */
  predicate Lasting(r: Record, now: int) {
    && (r.state.Registered? || r.state.Active?) && now < r.grant.expiresAt && now < r.createdAt + 270_000
    && (r.launchAt.Some? ==> now < r.launchAt.value + 270_000)
  }

  // --- What a reading leaves -------------------------------------------------------------------

  lemma RecordAfter(l: Registry, clock: Reading, id: nat)
    requires Inv(l) && Usable(l, clock)
    ensures var t := Tick(l, clock).0;
            && Tick(l, clock).1 == Ok(clock.now) && t.lastNow == clock.now && Inv(t)
            && (id in t.records <==> id in l.records && clock.now < l.records[id].createdAt + 310_000)
            && (id in t.records ==>
                  && t.records[id].grant == l.records[id].grant && t.records[id].createdAt == l.records[id].createdAt
                  && (Live(t.records[id]) <==> Lasting(l.records[id], clock.now)
                                               && clock.now < l.lastHeartbeat + 15_000)
                  && (Live(t.records[id]) ==> t.records[id] == l.records[id]))
  {
    hide Inv;
    TickSteps(l, clock);
    TimeOf(l);
    if id in l.records { RecordOf(l, id); }
  }

  lemma HeaderAfter(l: Registry, clock: Reading)
    requires Inv(l) && Usable(l, clock)
    ensures var t := Tick(l, clock).0;
            && t.generation == l.generation && t.boot == l.boot && t.issued == l.issued && t.held == l.held
            && t.lastHeartbeat == l.lastHeartbeat
            && (t.stale <==> l.stale || (l.boot.Some? && clock.now >= l.lastHeartbeat + 15_000))
  {
    hide Inv, PrunedRecords, PrunedBindings, ExpireAll, RevokeAll;
    TimeOf(l);
  }

  lemma Unusable(l: Registry, clock: Reading)
    requires Inv(l) && !Usable(l, clock)
    ensures Tick(l, clock).1.Err?
  {
    hide Inv, Settle;
    TimeOf(l);
  }

  // --- Checking -------------------------------------------------------------------------------

  /** The one record an authorization can name. */
  predicate Authorizing(l: Registry, now: int, service: nat, sentinel: nat, scope: nat, id: nat) {
    && id in l.records && l.records[id].state.Active? && Lasting(l.records[id], now)
    && l.records[id].grant.service == service && l.records[id].grant.sentinel == sentinel
    && l.records[id].grant.scope == scope
  }

  lemma FoundAuthorizes(t: Registry, service: nat, sentinel: nat, scope: nat, id: nat)
    requires Inv(t) && t.boot.Some? && t.lastNow < t.lastHeartbeat + 15_000
    ensures CheckAt(t, service, sentinel, t.generation, scope).1 == Verdict(Some(id), CheckReason.Authorized, t.lastNow)
            <==> id in t.records && t.records[id].state.Active? && Matches(t.records[id], service, sentinel)
                 && t.records[id].grant.scope == scope
  {
    hide Inv, Expire;
    forall k | k in t.records ensures FoundAt(t, k, scope).0 == t && Expire(t.records[k], t.lastNow) == t.records[k] {
      FoundIdle(t, k, scope);
      RecordOf(t, k);
      ExpireOk(k, t.records[k], t);
    }
    if id in t.records && Matches(t.records[id], service, sentinel) {
      MatchUnique(t, service, sentinel, t.generation, scope, id);
    }
  }

  /** A check authorizes a lease exactly when the reading is good, the generation is this one, the
      receiver is in contact, and the lease is active, unexpired and of this service, sentinel and
      scope. */
  lemma AuthorizesExactly(l: Registry, clock: Reading, service: nat, sentinel: nat, generation: nat, scope: nat,
                          id: nat)
    requires Inv(l)
    ensures Authorizes(l, clock, service, sentinel, generation, scope, id) <==>
            && Usable(l, clock) && generation == l.generation
            && l.boot.Some? && clock.now < l.lastHeartbeat + 15_000
            && Authorizing(l, clock.now, service, sentinel, scope, id)
  {
    hide Inv, Tick, CheckAt, Lasting;
    if Usable(l, clock) {
      var t := Tick(l, clock).0;
      RecordAfter(l, clock, id);
      HeaderAfter(l, clock);
      if generation == l.generation && t.boot.Some? && t.lastNow < t.lastHeartbeat + 15_000 {
        FoundAuthorizes(t, service, sentinel, scope, id);
        InActive(l, clock.now, id);
      } else {
        NoVerdict(t, service, sentinel, generation, scope);
      }
    } else {
      Unusable(l, clock);
    }
  }

  lemma InActive(l: Registry, now: int, id: nat)
    ensures id in l.records && Lasting(l.records[id], now) ==> now < l.records[id].createdAt + 310_000
  {
  }

  lemma NoVerdict(t: Registry, service: nat, sentinel: nat, generation: nat, scope: nat)
    requires generation != t.generation || t.boot.None? || t.lastNow >= t.lastHeartbeat + 15_000
    ensures CheckAt(t, service, sentinel, generation, scope).1.leaseId.None?
  {
  }

  /** An authorization changes nothing that a later one needs: the same lease is authorized again for as
      long as it lasts and the receiver's last contact is recent. */
  lemma AuthorizesAgain(l: Registry, clock: Reading, later: Reading, service: nat, sentinel: nat, scope: nat, id: nat)
    requires Inv(l) && Usable(l, clock) && later.At? && clock.now <= later.now
    requires l.boot.Some? && later.now < l.lastHeartbeat + 15_000
    requires Authorizing(l, later.now, service, sentinel, scope, id)
    ensures Authorizes(l, clock, service, sentinel, l.generation, scope, id)
    ensures var u := CheckAt(Tick(l, clock).0, service, sentinel, l.generation, scope).0;
            Inv(u) && u.generation == l.generation
            && Authorizes(u, later, service, sentinel, u.generation, scope, id)
  {
    hide Inv, Tick, CheckAt;
    AuthorizesExactly(l, clock, service, sentinel, l.generation, scope, id);
    RecordAfter(l, clock, id);
    HeaderAfter(l, clock);
    var t := Tick(l, clock).0;
    MatchUnique(t, service, sentinel, l.generation, scope, id);
    FoundIdle(t, id, scope);
    AuthorizesExactly(t, later, service, sentinel, t.generation, scope, id);
  }

  /** A check recognizes a lease, active or still only registered, exactly when it lasts under the
      receiver in contact; an active one must also have this scope. */
  lemma RecognizesExactly(l: Registry, clock: Reading, service: nat, sentinel: nat, generation: nat, scope: nat,
                          id: nat)
    requires Inv(l)
    ensures var (t, now) := Tick(l, clock);
            (now.Ok? && var v := CheckAt(t, service, sentinel, generation, scope).1;
                        v.leaseId == Some(id) && (v.reason.Authorized? || v.reason == NotActive(Registered))) <==>
            && Usable(l, clock) && generation == l.generation && l.boot.Some? && clock.now < l.lastHeartbeat + 15_000
            && id in l.records && Lasting(l.records[id], clock.now)
            && l.records[id].grant.service == service && l.records[id].grant.sentinel == sentinel
            && (l.records[id].state.Active? ==> l.records[id].grant.scope == scope)
  {
    hide Inv, Tick, CheckAt, Lasting;
    if Usable(l, clock) {
      var t := Tick(l, clock).0;
      RecordAfter(l, clock, id);
      HeaderAfter(l, clock);
      InActive(l, clock.now, id);
      if generation == l.generation && t.boot.Some? && t.lastNow < t.lastHeartbeat + 15_000 {
        FoundRecognizes(t, service, sentinel, scope, id);
      } else {
        NoVerdict(t, service, sentinel, generation, scope);
      }
    } else {
      Unusable(l, clock);
    }
  }

  lemma FoundRecognizes(t: Registry, service: nat, sentinel: nat, scope: nat, id: nat)
    requires Inv(t) && t.boot.Some? && t.lastNow < t.lastHeartbeat + 15_000
    ensures var v := CheckAt(t, service, sentinel, t.generation, scope).1;
            v.leaseId == Some(id) && (v.reason.Authorized? || v.reason == NotActive(Registered)) <==>
            id in t.records && Live(t.records[id]) && Matches(t.records[id], service, sentinel)
            && (t.records[id].state.Active? ==> t.records[id].grant.scope == scope)
  {
    hide Inv, Expire;
    forall k | k in t.records ensures Expire(t.records[k], t.lastNow) == t.records[k] {
      RecordOf(t, k);
      ExpireOk(k, t.records[k], t);
    }
    if id in t.records && Matches(t.records[id], service, sentinel) {
      MatchUnique(t, service, sentinel, t.generation, scope, id);
    }
  }

  // --- Registering ------------------------------------------------------------------------------

  /** Registration as the caller sees it: the reading, then the request. */
  ghost function Registering(l: Registry, clock: Reading, w: Wanted, generation: nat, fits: bool)
    : (Registry, Outcome<Grant>)
  {
    var (t, now) := Tick(l, clock);
    if now.Err? then (t, Err(now.error)) else RegisterAt(t, w, generation, fits)
  }

  /** The run, attempt and service were registered before and the record is still kept. */
  predicate Known(l: Registry, w: Wanted, now: int) {
    && (w.runId, w.attemptId, w.service) in l.bindings
    && l.bindings[(w.runId, w.attemptId, w.service)] in l.records
    && now < l.records[l.bindings[(w.runId, w.attemptId, w.service)]].createdAt + 310_000
  }

  predicate Granted(g: Grant, w: Wanted) {
    && g.runId == w.runId && g.attemptId == w.attemptId && g.boot == w.boot && g.service == w.service
    && g.scope == w.scope && g.expiresAt == w.expiresAt
  }

  lemma BindingsAfter(l: Registry, clock: Reading, b: (nat, nat, nat))
    requires Inv(l) && Usable(l, clock)
    ensures var t := Tick(l, clock).0;
            && (b in t.bindings <==> b in l.bindings && l.bindings[b] in l.records
                                     && clock.now < l.records[l.bindings[b]].createdAt + 310_000)
            && (b in t.bindings ==> t.bindings[b] == l.bindings[b])
  {
    hide Inv, ExpireAll, RevokeAll, PrunedRecords;
    TimeOf(l);
  }

  /** A known binding is answered from its record, which the answer leaves as it is. */
  lemma ReplayAnswers(t: Registry, id: nat, w: Wanted)
    requires Inv(t) && id in t.records
    ensures var (u, r) := ReplayAt(t, id, w);
            && u == t
            && (r.Ok? <==> Live(t.records[id]) && t.records[id].grant.boot == w.boot
                           && t.records[id].grant.scope == w.scope && t.records[id].grant.expiresAt == w.expiresAt)
            && (r.Ok? ==> r.value == t.records[id].grant)
  {
    hide Inv, Expire;
    RecordOf(t, id);
    ExpireOk(id, t.records[id], t);
    assert t.records[id := t.records[id]] == t.records;
  }

  /** A registration is answered with a grant exactly when the receiver in contact asks for an expiry
      within 270 seconds and either repeats a registration that still lasts, word for word, or finds
      room for a new one. The grant is what was asked for: the earlier one again, with nothing else
      changed, or a new one on record under the next id. */
  lemma RegisterExactly(l: Registry, clock: Reading, w: Wanted, generation: nat, fits: bool)
    requires Inv(l)
    ensures var (u, r) := Registering(l, clock, w, generation, fits);
            var t := Tick(l, clock).0;
            && (r.Ok? <==>
                  && Usable(l, clock) && generation == l.generation && InContact(l, w.boot, clock.now)
                  && clock.now < w.expiresAt <= clock.now + 270_000
                  && if Known(l, w, clock.now) then
                       var was := l.records[l.bindings[(w.runId, w.attemptId, w.service)]];
                       Lasting(was, clock.now) && Granted(was.grant, w)
                     else |LiveIds(t.records)| < 256 && |t.records| < 1024 && fits)
            && (r.Ok? ==>
                  && Granted(r.value, w)
                  && if Known(l, w, clock.now) then
                       u == t && r.value == l.records[l.bindings[(w.runId, w.attemptId, w.service)]].grant
                     else
                       && r.value.leaseId == l.issued && r.value.sentinel == l.issued + 1 && u.issued == l.issued + 2
                       && u.records == t.records[l.issued := Record(r.value, clock.now, Registered, None, None)])
  {
    hide Inv, Tick, ReplayAt, Lasting, LiveIds;
    if !Usable(l, clock) {
      Unusable(l, clock);
    } else {
      var t, b := Tick(l, clock).0, (w.runId, w.attemptId, w.service);
      HeaderAfter(l, clock);
      BindingsAfter(l, clock, b);
      RecordAfter(l, clock, if b in l.bindings then l.bindings[b] else 0);
      if b in t.bindings {
        BindingsOf(l);
        ReplayAnswers(t, t.bindings[b], w);
      }
    }
  }

  // --- Activating and revoking ---------------------------------------------------------------------

  ghost function Activating(l: Registry, clock: Reading, id: nat, boot: nat, generation: nat, launch: int)
    : (Registry, Outcome<()>)
  {
    var (t, now) := Tick(l, clock);
    if now.Err? then (t, Err(now.error)) else ActivateAt(t, id, boot, generation, launch)
  }

  /** The record a control command of this receiver can act on. */
  predicate Controlled(l: Registry, clock: Reading, id: nat, boot: nat, generation: nat) {
    && Usable(l, clock) && generation == l.generation && l.boot == Some(boot)
    && clock.now < l.lastHeartbeat + 15_000
    && id in l.records && l.records[id].grant.boot == boot && Lasting(l.records[id], clock.now)
  }

  lemma RecordLives(t: Registry, id: nat)
    requires Inv(t) && id in t.records
    ensures Expire(t.records[id], t.lastNow) == t.records[id] && Put(t, id, t.records[id]) == t
    ensures Live(t.records[id]) ==> !t.stale && t.boot == Some(t.records[id].grant.boot)
  {
    hide Inv;
    RecordOf(t, id);
    ExpireOk(id, t.records[id], t);
    assert t.records[id := t.records[id]] == t.records;
  }

  /** A lease is activated exactly when its receiver is in contact, it still lasts, and the launch lies
      between its registration and now, less than 270 seconds ago; a lease already active answers
      only to its own launch. */
  lemma ActivateExactly(l: Registry, clock: Reading, id: nat, boot: nat, generation: nat, launch: int)
    requires Inv(l)
    ensures var (u, r) := Activating(l, clock, id, boot, generation, launch);
            && (r.Ok? <==>
                  && Controlled(l, clock, id, boot, generation)
                  && l.records[id].createdAt <= launch <= clock.now < launch + 270_000
                  && (l.records[id].state.Active? ==> l.records[id].launchAt == Some(launch)))
            && (r.Ok? ==> u == Put(Tick(l, clock).0, id, l.records[id].(launchAt := Some(launch), state := Active)))
  {
    hide Inv, Tick, Expire;
    if !Usable(l, clock) {
      Unusable(l, clock);
    } else {
      var t := Tick(l, clock).0;
      HeaderAfter(l, clock);
      RecordAfter(l, clock, id);
      if id in t.records { RecordLives(t, id); }
    }
  }

  ghost function Revoking(l: Registry, clock: Reading, id: nat, boot: nat, generation: nat): (Registry, Outcome<()>) {
    var (t, now) := Tick(l, clock);
    if now.Err? then (t, Err(now.error)) else RevokeAt(t, id, boot, generation)
  }

  /** A lease is revoked exactly when its receiver is in contact and it still lasts. */
  lemma RevokeExactly(l: Registry, clock: Reading, id: nat, boot: nat, generation: nat)
    requires Inv(l)
    ensures var (u, r) := Revoking(l, clock, id, boot, generation);
            && (r.Ok? <==> Controlled(l, clock, id, boot, generation))
            && (r.Ok? ==>
                  u == Put(Tick(l, clock).0, id, l.records[id].(state := Revoked, retiredAt := Some(clock.now))))
  {
    hide Inv, Tick, Expire;
    if !Usable(l, clock) {
      Unusable(l, clock);
    } else {
      var t := Tick(l, clock).0;
      HeaderAfter(l, clock);
      RecordAfter(l, clock, id);
      if id in t.records { RecordLives(t, id); }
    }
  }

  // --- Contact -----------------------------------------------------------------------------------------

  /** Nothing that was live stays live, and nothing else is touched. */
  ghost predicate AllRetired(t: Registry, u: Registry, now: int) {
    && u.records.Keys == t.records.Keys
    && forall id | id in t.records ::
         u.records[id] == if t.records[id].state.Registered? || t.records[id].state.Active?
                          then t.records[id].(state := Revoked, retiredAt := Some(now)) else t.records[id]
  }

  /** Who may connect, keep contact and leave, and what becomes of the leases: a new receiver and a
      leaving one retire all of them, the connected one keeps them. */
  lemma ContactExactly(l: Registry, clock: Reading, boot: nat, generation: nat)
    requires Inv(l) && Usable(l, clock)
    ensures var t := Tick(l, clock).0;
            var (h, greeted) := HandshakeAt(t, boot, generation);
            var (b, beaten) := HeartbeatAt(t, boot, generation);
            var (d, left) := DisconnectAt(t, boot, generation);
            && (greeted.Ok? <==> generation == l.generation)
            && (greeted.Ok? ==>
                  && h.boot == Some(boot) && h.lastHeartbeat == clock.now && !h.stale
                  && if l.boot.Some? && l.boot.value != boot then AllRetired(t, h, clock.now)
                     else h.records == t.records)
            && (beaten.Ok? <==> generation == l.generation && l.boot == Some(boot))
            && (beaten.Ok? ==> b == t.(lastHeartbeat := clock.now, stale := false))
            && (left.Ok? <==> generation == l.generation && l.boot == Some(boot))
            && (left.Ok? ==> d.boot.None? && AllRetired(t, d, clock.now))
  {
    hide Inv, Tick;
    HeaderAfter(l, clock);
    RecordAfter(l, clock, 0);
  }
}
