/** The claim chain: every stage rests on the one before it, in one boot and inside one window. */
module JournalChain {
  import opened Text
  import opened Journal
  import R = Receipts

  /** Where the journal stands: last commit, boot, last reading, and every boot so far. */
  datatype Time = Time(head: nat, boot: Option<Id>, mono: int, seen: set<Id>)

  function TimeOf(core: Core): Time {
    Time(if core.head.Some? then core.head.value.commitSeq else 0, core.boot, core.lastMono, core.seenBoots)
  }

  /** Within a boot the reading never falls; a new boot is one that was never seen. */
  predicate Later(t: Time, u: Time) {
    && t.head < u.head && t.seen <= u.seen
    && u.boot.Some? && u.boot.value in u.seen
    && ((u.boot == t.boot && t.mono <= u.mono) || u.boot.value !in t.seen)
  }

  /** A claim made no later than now. Readings of other boots are not compared. */
  predicate By(t: Time, boot: Id, mono: int, committed: nat) {
    boot in t.seen && committed <= t.head && (t.boot == Some(boot) ==> mono <= t.mono)
  }

  // --- The stages -------------------------------------------------------------------------------

  predicate Attempted(t: Time, k: Id, initial: Intent) { initial.ids.intentId == k && initial.committed <= t.head }

  predicate Matched(t: Time, initials: map<Id, Intent>, k: Id, confirmed: Counterpart) {
    k in initials && initials[k].committed < confirmed.committed <= t.head
  }

  predicate Reserving(t: Time, initials: map<Id, Intent>, confirmed: map<Id, Counterpart>) {
    && (forall k | k in initials :: Attempted(t, k, initials[k]))
    && (forall k | k in confirmed :: Matched(t, initials, k, confirmed[k]))
  }

  /** A second attempt rests on the run hold of its job, and its confirmation on it. */
  predicate Reattempted(t: Time, runHolds: map<Id, RunHold>, k: Id, intent: Intent) {
    && intent.ids.intentId == k && intent.ids.jobId in runHolds
    && runHolds[intent.ids.jobId].admissionId == intent.ids.admissionId
    && runHolds[intent.ids.jobId].since < intent.committed <= t.head
  }

  predicate Reattempting(t: Time, runHolds: map<Id, RunHold>, intents: map<Id, Intent>, confirmed: map<Id,
                         Counterpart>) {
    && (forall j | j in runHolds :: runHolds[j].since <= t.head)
    && (forall k | k in intents :: Reattempted(t, runHolds, k, intents[k]))
    && (forall k | k in confirmed :: Matched(t, intents, k, confirmed[k]))
  }

  predicate Intending(t: Time, initials: map<Id, Intent>, confirmed: map<Id, Counterpart>, run: Option<RunIntent>) {
    run.Some? ==>
      var k := run.value.intent.ids.intentId;
      && k in initials && k in confirmed && initials[k] == run.value.intent
      && confirmed[k].committed < run.value.committed <= t.head && ServicesOk(run.value.services)
  }

  predicate Launching(t: Time, run: Option<RunIntent>, launch: Option<Launch>) {
    launch.Some? ==>
      var l := launch.value;
      && run.Some? && l.runIntentId == run.value.eventId && run.value.committed < l.committed
          && By(t, l.boot, l.origin, l.committed)
      && l.work == l.origin + WORK && l.flush == l.origin + FLUSH && l.hard == l.origin + HARD
      && GrantsOk(l.grants, run.value.services, l.origin)
  }

  predicate Attesting(t: Time, launch: Option<Launch>, attestation: Option<Attestation>) {
    attestation.Some? ==>
      var l, a := launch, attestation.value;
      && l.Some? && a.boot == l.value.boot && l.value.committed < a.committed && By(t, a.boot, a.observed, a.committed)
      && l.value.origin <= a.observed < l.value.work
  }

  predicate Releasing(t: Time, launch: Option<Launch>, attestation: Option<Attestation>,
                      release: Option<ReleaseIntent>) {
    release.Some? ==>
      var r := release.value;
      && launch.Some? && attestation.Some?
      && r.boot == attestation.value.boot && attestation.value.committed < r.committed
          && By(t, r.boot, r.intended, r.committed)
      && attestation.value.observed <= r.intended < launch.value.work
      && ActivationsOk(r.activated, launch.value.grants, attestation.value.observed, r.intended)
  }

  predicate Released(t: Time, release: Option<ReleaseIntent>, observation: Option<ReleaseObservation>) {
    observation.Some? ==>
      var o := observation.value;
      && release.Some? && o.boot == release.value.boot && release.value.committed < o.committed
          && By(t, o.boot, o.observed, o.committed)
      && release.value.intended <= o.observed
  }

  predicate InWindow(t: Time, launch: Option<Launch>, observation: Option<ReleaseObservation>, k: Id, e: Effect) {
    && launch.Some? && observation.Some? && e.operationId == k
    && e.boot == observation.value.boot && e.boot == launch.value.boot
    && observation.value.committed < e.committed && By(t, e.boot, e.observed, e.committed)
    && observation.value.observed <= e.observed < e.expires <= launch.value.work
    && RouteService(e.route) == e.service && GrantFor(launch.value.grants, e.service, e.grantId, e.scope, e.expires)
  }

  predicate Effecting(t: Time, launch: Option<Launch>, observation: Option<ReleaseObservation>, effects: map<Id,
                      Effect>) {
    forall k | k in effects :: InWindow(t, launch, observation, k, effects[k])
  }

  predicate Settled(t: Time, effects: map<Id, Effect>, k: Id, r: EffectReceipt) {
    k in effects && effects[k].committed < r.committed <= t.head && effects[k].observed <= r.observed
  }

  predicate Receiving(t: Time, effects: map<Id, Effect>, receipts: map<Id, EffectReceipt>) {
    forall k | k in receipts :: Settled(t, effects, k, receipts[k])
  }

  predicate RevokedBefore(actions: map<Id, Action>, grantId: Id, at: nat) {
    exists j | j in actions :: Revokes(actions[j], grantId) && actions[j].committed < at
  }

  predicate Revokes(a: Action, grantId: Id) { a.kind.RevokeGrant? && a.grant.Some? && a.grant.value.1 == grantId }

  /** A cleanup action is taken before the hard deadline, and a signal only after every grant
      of the launch has been revoked. */
  predicate Taken(t: Time, launch: Option<Launch>, actions: map<Id, Action>, k: Id, a: Action) {
    && launch.Some? && a.actionId == k && launch.value.committed < a.committed <= t.head
    && launch.value.origin <= a.observed < launch.value.hard
    && (!a.kind.RevokeGrant? ==> forall g | g in launch.value.grants :: RevokedBefore(actions, g.grantId, a.committed))
  }

  predicate Acting(t: Time, launch: Option<Launch>, actions: map<Id, Action>) {
    forall k | k in actions :: Taken(t, launch, actions, k, actions[k])
  }

  predicate Ended(t: Time, actions: map<Id, Action>, k: Id, r: ActionResult) {
    k in actions && actions[k].committed < r.committed <= t.head && actions[k].observed <= r.observed
  }

  predicate Ending(t: Time, actions: map<Id, Action>, results: map<Id, ActionResult>) {
    forall k | k in results :: Ended(t, actions, k, results[k])
  }

  predicate Assessing(t: Time, launch: Option<Launch>, process: Option<Observation>, terminal: Option<Observation>,
                      assessment: Option<Observation>) {
    && (process.Some? ==>
          launch.Some? && process.value.boot == launch.value.boot
          && launch.value.committed < process.value.committed <= t.head)
    && (terminal.Some? ==>
          process.Some? && terminal.value.boot == process.value.boot
          && process.value.committed < terminal.value.committed <= t.head)
    && (assessment.Some? ==>
          terminal.Some? && assessment.value.boot == terminal.value.boot
          && terminal.value.committed < assessment.value.committed <= t.head)
  }

  /** Read-backs are numbered from one, and follow the effect: in its own boot, or in a later one. */
  predicate ReadBackOk(t: Time, e: Effect, sameBoot: bool, i: nat, r: Reconciliation) {
    r.index == i + 1 && e.committed < r.committed <= t.head && (r.boot == e.boot <==> sameBoot)
  }

  predicate ReadBacks(t: Time, effects: map<Id, Effect>, sameBoot: bool, k: Id, rs: seq<Reconciliation>) {
    k in effects && |rs| <= MAX_RECONCILIATIONS && forall i | 0 <= i < |rs| ::
        ReadBackOk(t, effects[k], sameBoot, i, rs[i])
  }

  predicate Reconciling(t: Time, effects: map<Id, Effect>, sameBoot: bool, all: map<Id, seq<Reconciliation>>) {
    forall k | k in all :: ReadBacks(t, effects, sameBoot, k, all[k])
  }

  ghost predicate Chained(t: Time, c: Claims) {
    && Reserving(t, c.initials, c.initialConfirmations)
    && Reattempting(t, c.runHolds, c.intents, c.confirmations)
    && Intending(t, c.initials, c.initialConfirmations, c.runIntent)
    && Launching(t, c.runIntent, c.launch)
    && Attesting(t, c.launch, c.attestation)
    && Releasing(t, c.launch, c.attestation, c.releaseIntent)
    && Released(t, c.releaseIntent, c.releaseObservation)
    && Effecting(t, c.launch, c.releaseObservation, c.effects)
    && Receiving(t, c.effects, c.effectReceipts)
    && Acting(t, c.launch, c.actions)
    && Ending(t, c.actions, c.actionResults)
    && Assessing(t, c.launch, c.process, c.terminal, c.assessment)
    && Reconciling(t, c.effects, true, c.reconciliations)
    && Reconciling(t, c.effects, false, c.restartReconciliations)
  }

  // --- Time only moves on -------------------------------------------------------------------------

  lemma ReservingLater(t: Time, u: Time, initials: map<Id, Intent>, confirmed: map<Id, Counterpart>,
                       run: Option<RunIntent>)
    requires Later(t, u) && Reserving(t, initials, confirmed) && Intending(t, initials, confirmed, run)
    ensures Reserving(u, initials, confirmed) && Intending(u, initials, confirmed, run)
  {
    forall k | k in initials ensures Attempted(u, k, initials[k]) {
      assert Attempted(t, k, initials[k]);
    }
    forall k | k in confirmed ensures Matched(u, initials, k, confirmed[k]) {
      assert Matched(t, initials, k, confirmed[k]);
    }
  }

  lemma ReattemptingLater(t: Time, u: Time, runHolds: map<Id, RunHold>, intents: map<Id, Intent>, confirmed: map<Id,
                          Counterpart>)
    requires Later(t, u) && Reattempting(t, runHolds, intents, confirmed)
    ensures Reattempting(u, runHolds, intents, confirmed)
  {
    forall k | k in intents ensures Reattempted(u, runHolds, k, intents[k]) {
      assert Reattempted(t, runHolds, k, intents[k]);
    }
    forall k | k in confirmed ensures Matched(u, intents, k, confirmed[k]) {
      assert Matched(t, intents, k, confirmed[k]);
    }
  }

  lemma StagesLater(t: Time, u: Time, c: Claims)
    requires Later(t, u) && Launching(t, c.runIntent, c.launch) && Attesting(t, c.launch, c.attestation)
    requires Releasing(t, c.launch, c.attestation, c.releaseIntent)
    requires Released(t, c.releaseIntent, c.releaseObservation)
    requires Assessing(t, c.launch, c.process, c.terminal, c.assessment)
    ensures Launching(u, c.runIntent, c.launch) && Attesting(u, c.launch, c.attestation)
    ensures Releasing(u, c.launch, c.attestation, c.releaseIntent) && Released(u, c.releaseIntent, c.releaseObservation)
    ensures Assessing(u, c.launch, c.process, c.terminal, c.assessment)
  {
    hide GrantsOk, ActivationsOk;
  }

  lemma EffectsLater(t: Time, u: Time, c: Claims)
    requires Later(t, u) && Effecting(t, c.launch, c.releaseObservation, c.effects)
        && Receiving(t, c.effects, c.effectReceipts)
    ensures Effecting(u, c.launch, c.releaseObservation, c.effects) && Receiving(u, c.effects, c.effectReceipts)
  {
    hide GrantFor, RouteService;
    forall k | k in c.effects ensures InWindow(u, c.launch, c.releaseObservation, k, c.effects[k]) {
      assert InWindow(t, c.launch, c.releaseObservation, k, c.effects[k]);
    }
    forall k | k in c.effectReceipts ensures Settled(u, c.effects, k, c.effectReceipts[k]) {
      assert Settled(t, c.effects, k, c.effectReceipts[k]);
    }
  }

  lemma ActionsLater(t: Time, u: Time, c: Claims)
    requires Later(t, u) && Acting(t, c.launch, c.actions) && Ending(t, c.actions, c.actionResults)
    ensures Acting(u, c.launch, c.actions) && Ending(u, c.actions, c.actionResults)
  {
    hide RevokedBefore;
    forall k | k in c.actions ensures Taken(u, c.launch, c.actions, k, c.actions[k]) {
      assert Taken(t, c.launch, c.actions, k, c.actions[k]);
    }
    forall k | k in c.actionResults ensures Ended(u, c.actions, k, c.actionResults[k]) {
      assert Ended(t, c.actions, k, c.actionResults[k]);
    }
  }

  lemma ReadBacksLater(t: Time, u: Time, effects: map<Id, Effect>, sameBoot: bool, all: map<Id, seq<Reconciliation>>)
    requires Later(t, u) && Reconciling(t, effects, sameBoot, all)
    ensures Reconciling(u, effects, sameBoot, all)
  {
    forall k | k in all ensures ReadBacks(u, effects, sameBoot, k, all[k]) {
      assert ReadBacks(t, effects, sameBoot, k, all[k]);
      forall i | 0 <= i < |all[k]| ensures ReadBackOk(u, effects[k], sameBoot, i, all[k][i]) {
        assert ReadBackOk(t, effects[k], sameBoot, i, all[k][i]);
      }
    }
  }

  lemma ChainedLater(t: Time, u: Time, c: Claims)
    requires Later(t, u) && Chained(t, c)
    ensures Chained(u, c)
  {
    hide Reattempting, Reserving, Intending, Launching, Attesting, Releasing, Released, Effecting, Receiving, Acting,
        Ending, Assessing, Reconciling, Later;
    ReattemptingLater(t, u, c.runHolds, c.intents, c.confirmations);
    ReservingLater(t, u, c.initials, c.initialConfirmations, c.runIntent);
    StagesLater(t, u, c);
    EffectsLater(t, u, c);
    ActionsLater(t, u, c);
    ReadBacksLater(t, u, c.effects, true, c.reconciliations);
    ReadBacksLater(t, u, c.effects, false, c.restartReconciliations);
  }

  // --- Each claim rests on the chain before it ------------------------------------------------------

  /** A claim record is committed next, in the current boot, at its own reading. */
  predicate Now(t: Time, u: Time, r: Record) {
    Later(t, u) && t.boot == Some(r.stamp.boot) && u == Time(r.position.commitSeq, t.boot, r.stamp.mono, t.seen)
        && t.mono <= u.mono
  }

  lemma InitialKeeps(p: Projection, t: Time, u: Time, r: Record, x: Intent)
    requires Now(t, u, r) && Chained(t, p.claims) && InitialOk(p, x.ids) && x.committed == u.head
    ensures Chained(u, p.claims.(initials := p.claims.initials[x.ids.intentId := x]))
  {
    hide Reattempting, Launching, Attesting, Releasing, Released, Effecting, Receiving, Acting, Ending, Assessing,
        Reconciling, AllDifferent, FreshIds, Members;
    var c := p.claims;
    ChainedLater(t, u, c);
    var initials := c.initials[x.ids.intentId := x];
    forall k | k in initials ensures Attempted(u, k, initials[k]) {
      assert k == x.ids.intentId;
    }
    ConfirmedAttempted(t, c.initials, c.initialConfirmations);
  }

  lemma ConfirmedAttempted(t: Time, initials: map<Id, Intent>, confirmed: map<Id, Counterpart>)
    requires Reserving(t, initials, confirmed)
    ensures confirmed != map[] ==> initials != map[]
  {
    if confirmed != map[] {
      var k :| k in confirmed;
      assert Matched(t, initials, k, confirmed[k]);
    }
  }

  lemma ConfirmationKeeps(p: Projection, t: Time, u: Time, r: Record, x: Counterpart)
    requires Now(t, u, r) && Chained(t, p.claims) && InitialConfirmationOk(p, x.intentId, x.eventId, x.ledger)
        && x.committed == u.head
    ensures Chained(u, p.claims.(initialConfirmations := p.claims.initialConfirmations[x.intentId := x]))
  {
    hide Reattempting, Launching, Attesting, Releasing, Released, Effecting, Receiving, Acting, Ending, Assessing,
        Reconciling, ConfirmationShape, EventFree;
    var c := p.claims;
    ChainedLater(t, u, c);
    assert Attempted(t, x.intentId, c.initials[x.intentId]);
    var confirmed := c.initialConfirmations[x.intentId := x];
    forall k | k in confirmed ensures Matched(u, c.initials, k, confirmed[k]) {
      assert k in c.initialConfirmations ==> Matched(u, c.initials, k, c.initialConfirmations[k]);
    }
  }

  lemma RunIntentKeeps(p: Projection, t: Time, u: Time, r: Record, head: Head, intentId: Id, sequence: int,
                       digest: nat, x: RunIntent)
    requires Now(t, u, r) && Chained(t, p.claims)
    requires RunIntentOk(p, head, r.eventId, intentId, sequence, digest, x.services)
    requires x.intent == p.claims.initials[intentId] && x.committed == u.head
    ensures Chained(u, p.claims.(runIntent := Some(x)))
  {
    hide Reattempting, Attesting, Releasing, Released, Effecting, Receiving, Acting, Ending, Assessing, Reconciling,
        KnownIds, Members, ServicesOk;
    var c := p.claims;
    ChainedLater(t, u, c);
    assert Attempted(t, intentId, c.initials[intentId]);
    assert Matched(t, c.initials, intentId, c.initialConfirmations[intentId]);
  }

  /** Before the launch there is nothing further down. */
  lemma NothingBeforeLaunch(t: Time, c: Claims)
    requires Chained(t, c) && c.launch.None?
    ensures c.attestation.None? && c.releaseIntent.None? && c.effects == map[] && c.actions == map[]
    ensures c.process.None? && c.terminal.None? && c.assessment.None?
  {
    hide Reattempting, Reserving, Intending, Launching, Receiving, Ending, Reconciling, Released, GrantFor,
        RouteService, RevokedBefore, ActivationsOk;
    EffectsLaunched(t, c);
  }

  lemma EffectsLaunched(t: Time, c: Claims)
    requires Effecting(t, c.launch, c.releaseObservation, c.effects) && Acting(t, c.launch, c.actions)
    ensures c.effects != map[] || c.actions != map[] ==> c.launch.Some?
  {
    if c.effects != map[] {
      var k :| k in c.effects;
      assert InWindow(t, c.launch, c.releaseObservation, k, c.effects[k]);
    }
    if c.actions != map[] {
      var k :| k in c.actions;
      assert Taken(t, c.launch, c.actions, k, c.actions[k]);
    }
  }

  lemma LaunchKeeps(p: Projection, t: Time, u: Time, r: Record, x: Launch)
    requires Now(t, u, r) && Chained(t, p.claims) && LaunchOk(p, r.eventId, r.stamp, x.grants)
    requires x == Launch(r.eventId, p.claims.runIntent.value.eventId, r.stamp.boot, u.mono, u.mono + WORK,
                         u.mono + FLUSH, u.mono + HARD, x.grants, u.head)
    ensures Chained(u, p.claims.(launch := Some(x)))
  {
    hide Reattempting, Reserving, Released, Receiving, Ending, Reconciling, KnownIds, Members, GrantsOk, ServicesOk;
    var c := p.claims;
    ChainedLater(t, u, c);
    NothingBeforeLaunch(t, c);
  }

  lemma AttestationKeeps(p: Projection, t: Time, u: Time, r: Record)
    requires t == TimeOf(p.core) && Now(t, u, r) && Chained(t, p.claims) && AttestationOk(p, r.eventId, r.stamp)
    ensures Chained(u, p.claims.(attestation := Some(Attestation(r.eventId, r.stamp.boot, u.mono, u.head))))
  {
    hide Reattempting, Reserving, Intending, Released, Effecting, Receiving, Acting, Ending, Assessing, Reconciling,
        Unused, Members, GrantsOk, ActivationsOk;
    ChainedLater(t, u, p.claims);
  }

  lemma ReleaseIntentKeeps(p: Projection, t: Time, u: Time, r: Record, activated: seq<Activation>)
    requires t == TimeOf(p.core) && Now(t, u, r) && Chained(t, p.claims)
        && ReleaseIntentOk(p, r.eventId, r.stamp, activated)
    ensures Chained(u,
            p.claims.(releaseIntent := Some(ReleaseIntent(r.eventId, r.stamp.boot, u.mono, activated, u.head))))
  {
    hide Reattempting, Reserving, Intending, Effecting, Receiving, Acting, Ending, Assessing, Reconciling, Unused,
        Members, GrantsOk, ActivationsOk;
    ChainedLater(t, u, p.claims);
  }

  lemma ReleaseObservationKeeps(p: Projection, t: Time, u: Time, r: Record)
    requires t == TimeOf(p.core) && Now(t, u, r) && Chained(t, p.claims) && ReleaseObservationOk(p, r.eventId, r.stamp)
    ensures Chained(u,
            p.claims.(releaseObservation := Some(ReleaseObservation(r.eventId, r.stamp.boot, u.mono, u.head))))
  {
    hide Reattempting, Reserving, Intending, Launching, Attesting, Receiving, Acting, Ending, Assessing, Reconciling,
        Unused, ActivationsOk;
    var c := p.claims;
    ChainedLater(t, u, c);
    assert forall k | k in c.effects :: InWindow(t, c.launch, c.releaseObservation, k, c.effects[k]);
  }

  lemma EffectKeeps(p: Projection, t: Time, u: Time, r: Record, e: Effect)
    requires t == TimeOf(p.core) && Now(t, u, r) && Chained(t, p.claims) && e.eventId == r.eventId
    requires EffectOk(p, r.eventId, r.stamp, e.operationId, e.service, e.route, e.grantId, e.scope, e.flight,
                      e.receiptId, e.expires)
    requires e.boot == r.stamp.boot && e.observed == u.mono && e.committed == u.head
    ensures Chained(u, p.claims.(effects := p.claims.effects[e.operationId := e]))
  {
    hide Reattempting, Reserving, Intending, Launching, Attesting, Releasing, Effecting, Receiving, Acting, Ending,
        Assessing, Reconciling, Unused, Members, GrantFor, RouteService;
    var c := p.claims;
    ChainedLater(t, u, c);
    FreshOperation(p, e.operationId);
    assert InWindow(u, c.launch, c.releaseObservation, e.operationId, e);
    EffectAdded(u, c.launch, c.releaseObservation, c.effects, e);
    ReceiptsStand(u, c.effects, e, c.effectReceipts);
    ReadBacksStand(u, c.effects, e, true, c.reconciliations);
    ReadBacksStand(u, c.effects, e, false, c.restartReconciliations);
  }

  lemma FreshOperation(p: Projection, id: Id)
    requires Unused(p, id)
    ensures id !in p.claims.effects && id !in p.claims.actions
  {
    hide KnownIds, ChainIds;
  }

  lemma EffectAdded(u: Time, launch: Option<Launch>, observation: Option<ReleaseObservation>, effects: map<Id, Effect>,
                    e: Effect)
    requires Effecting(u, launch, observation, effects) && InWindow(u, launch, observation, e.operationId, e)
    ensures Effecting(u, launch, observation, effects[e.operationId := e])
  {
    hide InWindow;
  }

  lemma ReceiptsStand(u: Time, effects: map<Id, Effect>, e: Effect, receipts: map<Id, EffectReceipt>)
    requires Receiving(u, effects, receipts) && e.operationId !in effects
    ensures Receiving(u, effects[e.operationId := e], receipts)
  {
    forall k | k in receipts ensures Settled(u, effects[e.operationId := e], k, receipts[k]) {
      assert Settled(u, effects, k, receipts[k]);
    }
  }

  lemma ReadBacksStand(u: Time, effects: map<Id, Effect>, e: Effect, sameBoot: bool, all: map<Id, seq<Reconciliation>>)
    requires Reconciling(u, effects, sameBoot, all) && e.operationId !in effects
    ensures Reconciling(u, effects[e.operationId := e], sameBoot, all)
  {
    hide ReadBackOk;
    forall k | k in all ensures ReadBacks(u, effects[e.operationId := e], sameBoot, k, all[k]) {
      assert ReadBacks(u, effects, sameBoot, k, all[k]);
    }
  }

  lemma ReceiptKeeps(p: Projection, t: Time, u: Time, r: Record, x: EffectReceipt, state: R.DispatchState,
                     reason: R.Reason)
    requires Now(t, u, r) && Chained(t, p.claims)
    requires EffectReceiptOk(p, r.eventId, r.stamp, x.operationId, state, reason)
    requires x.observed == u.mono && x.committed == u.head
    ensures Chained(u, p.claims.(effectReceipts := p.claims.effectReceipts[x.operationId := x]))
  {
    hide Reattempting, Reserving, Intending, Launching, Attesting, Releasing, Released, Acting, Ending, Assessing,
        Reconciling, Unused, GrantFor, R.ClientFor;
    var c := p.claims;
    ChainedLater(t, u, c);
    assert InWindow(t, c.launch, c.releaseObservation, x.operationId, c.effects[x.operationId]);
    var receipts := c.effectReceipts[x.operationId := x];
    forall k | k in receipts ensures Settled(u, c.effects, k, receipts[k]) {
      assert k in c.effectReceipts ==> Settled(u, c.effects, k, c.effectReceipts[k]);
    }
  }

  lemma RevokedStands(actions: map<Id, Action>, x: Action, grantId: Id, at: nat)
    requires RevokedBefore(actions, grantId, at) && x.actionId !in actions
    ensures RevokedBefore(actions[x.actionId := x], grantId, at)
  {
    var j :| j in actions && Revokes(actions[j], grantId) && actions[j].committed < at;
    assert actions[x.actionId := x][j] == actions[j];
  }

  lemma TakenStands(u: Time, launch: Option<Launch>, actions: map<Id, Action>, x: Action, k: Id, a: Action)
    requires Taken(u, launch, actions, k, a) && x.actionId !in actions
    ensures Taken(u, launch, actions[x.actionId := x], k, a)
  {
    hide RevokedBefore;
    if !a.kind.RevokeGrant? {
      forall g | g in launch.value.grants ensures RevokedBefore(actions[x.actionId := x], g.grantId, a.committed) {
        RevokedStands(actions, x, g.grantId, a.committed);
      }
    }
  }

  /** What the guard calls revoked was revoked before now. */
  lemma RevokedEarlier(t: Time, c: Claims, grantId: Id, at: nat)
    requires Acting(t, c.launch, c.actions) && grantId in Revoked(c) && t.head < at
    ensures RevokedBefore(c.actions, grantId, at)
  {
    var k :| k in c.actions && c.actions[k].kind.RevokeGrant? && c.actions[k].grant.Some?
        && c.actions[k].grant.value.1 == grantId;
    assert Taken(t, c.launch, c.actions, k, c.actions[k]);
    assert Revokes(c.actions[k], grantId);
  }

  lemma ActionTaken(p: Projection, t: Time, u: Time, r: Record, x: Action)
    requires t == TimeOf(p.core) && Now(t, u, r) && Launching(t, p.claims.runIntent, p.claims.launch)
        && Acting(t, p.claims.launch, p.claims.actions)
    requires ActionOk(p, r.eventId, r.stamp, x.actionId, x.kind, x.grant) && x.observed == u.mono
        && x.committed == u.head
    ensures Taken(u, p.claims.launch, p.claims.actions, x.actionId, x)
  {
    hide Unused, RevokedBefore, Revoked, GrantsOk;
    var c := p.claims;
    if !x.kind.RevokeGrant? {
      forall g | g in c.launch.value.grants ensures RevokedBefore(c.actions, g.grantId, x.committed) {
        RevokedEarlier(t, c, g.grantId, x.committed);
      }
    }
  }

  lemma ActionKeeps(p: Projection, t: Time, u: Time, r: Record, x: Action)
    requires t == TimeOf(p.core) && Now(t, u, r) && Chained(t, p.claims)
    requires ActionOk(p, r.eventId, r.stamp, x.actionId, x.kind, x.grant) && x.observed == u.mono
        && x.committed == u.head
    ensures Chained(u, p.claims.(actions := p.claims.actions[x.actionId := x]))
  {
    hide Reattempting, Reserving, Intending, Launching, Attesting, Releasing, Released, Effecting, Receiving,
        Assessing, Reconciling, Unused, Taken, Revoked, ActionOk, Now;
    var c := p.claims;
    assert Later(t, u) by { NowLater(t, u, r); }
    ChainedLater(t, u, c);
    assert Unused(p, x.actionId) by { ActionUnused(p, r, x); }
    FreshOperation(p, x.actionId);
    ActionTaken(p, t, u, r, x);
    var actions := c.actions[x.actionId := x];
    forall k | k in actions ensures Taken(u, c.launch, actions, k, actions[k]) {
      TakenStands(u, c.launch, c.actions, x, k, actions[k]);
    }
    forall k | k in c.actionResults ensures Ended(u, actions, k, c.actionResults[k]) {
      assert Ended(u, c.actions, k, c.actionResults[k]);
    }
  }

  lemma NowLater(t: Time, u: Time, r: Record)
    requires Now(t, u, r)
    ensures Later(t, u)
  {
  }

  lemma ActionUnused(p: Projection, r: Record, x: Action)
    requires ActionOk(p, r.eventId, r.stamp, x.actionId, x.kind, x.grant)
    ensures Unused(p, x.actionId)
  {
    hide Unused, Revoked;
  }

  lemma ActionResultKeeps(p: Projection, t: Time, u: Time, r: Record, x: ActionResult, outcome: ActionOutcome)
    requires Now(t, u, r) && Chained(t, p.claims) && ActionResultOk(p, r.eventId, r.stamp, x.actionId, outcome)
    requires x.observed == u.mono && x.committed == u.head
    ensures Chained(u, p.claims.(actionResults := p.claims.actionResults[x.actionId := x]))
  {
    hide Reattempting, Reserving, Intending, Launching, Attesting, Releasing, Released, Effecting, Receiving,
        Assessing, Reconciling, Unused, RevokedBefore;
    var c := p.claims;
    ChainedLater(t, u, c);
    assert Taken(t, c.launch, c.actions, x.actionId, c.actions[x.actionId]);
    var results := c.actionResults[x.actionId := x];
    forall k | k in results ensures Ended(u, c.actions, k, results[k]) {
      assert k in c.actionResults ==> Ended(u, c.actions, k, c.actionResults[k]);
    }
  }

  lemma OutcomeKeeps(p: Projection, t: Time, u: Time, r: Record)
    requires t == TimeOf(p.core) && Now(t, u, r) && Chained(t, p.claims) && ExecutionBase(p, r.eventId, r.stamp)
    ensures var c, x := p.claims, Some(Observation(r.eventId, r.stamp.boot, u.mono, u.head));
            && (c.process.None? ==> Chained(u, c.(process := x)))
            && (c.process.Some? && c.terminal.None? ==> Chained(u, c.(terminal := x)))
            && (c.terminal.Some? && c.assessment.None? ==> Chained(u, c.(assessment := x)))
  {
    hide Reattempting, Reserving, Intending, Attesting, Releasing, Released, Effecting, Receiving, Acting, Ending,
        Reconciling, Unused, GrantsOk;
    ChainedLater(t, u, p.claims);
  }

  lemma ReadBackAdded(u: Time, effects: map<Id, Effect>, sameBoot: bool, all: map<Id, seq<Reconciliation>>,
                      x: Reconciliation)
    requires Reconciling(u, effects, sameBoot, all) && x.operationId in effects
        && |Earlier(all, x.operationId)| < MAX_RECONCILIATIONS
    requires ReadBackOk(u, effects[x.operationId], sameBoot, |Earlier(all, x.operationId)|, x)
    ensures Reconciling(u, effects, sameBoot, all[x.operationId := Earlier(all, x.operationId) + [x]])
  {
    hide ReadBackOk;
    var next := all[x.operationId := Earlier(all, x.operationId) + [x]];
    forall k | k in next ensures ReadBacks(u, effects, sameBoot, k, next[k]) {
      assert k in all ==> ReadBacks(u, effects, sameBoot, k, all[k]);
    }
  }

  lemma ReconciledKeeps(p: Projection, t: Time, u: Time, r: Record, x: Reconciliation, reported: Reported,
                        version: Option<nat>)
    requires Now(t, u, r) && Chained(t, p.claims)
    requires ReconciledOk(p, r.eventId, r.stamp, x.operationId, reported, version)
    requires x.boot == r.stamp.boot && x.index == |Earlier(p.claims.reconciliations, x.operationId)| + 1
        && x.committed == u.head
    ensures var c := p.claims;
            Chained(u, c.(reconciliations :=
                c.reconciliations[x.operationId := Earlier(c.reconciliations, x.operationId) + [x]]))
  {
    hide Reattempting, Reserving, Intending, Launching, Attesting, Releasing, Released, Receiving, Acting, Ending,
        Assessing, Reconciling, Unused, GrantFor;
    var c := p.claims;
    ChainedLater(t, u, c);
    assert InWindow(t, c.launch, c.releaseObservation, x.operationId, c.effects[x.operationId]);
    ReadBackAdded(u, c.effects, true, c.reconciliations, x);
  }

  lemma RestartReconciledKeeps(p: Projection, t: Time, u: Time, r: Record, x: Reconciliation, reported: Reported,
                               version: Option<nat>)
    requires Now(t, u, r) && Chained(t, p.claims)
    requires RestartReconciledOk(p, r.eventId, r.stamp, x.operationId, reported, version)
    requires x.boot == r.stamp.boot && x.index == |Earlier(p.claims.restartReconciliations, x.operationId)| + 1
        && x.committed == u.head
    ensures var c := p.claims;
            var readBacks := Earlier(c.restartReconciliations, x.operationId) + [x];
            Chained(u, c.(restartReconciliations := c.restartReconciliations[x.operationId := readBacks]))
  {
    hide Reattempting, Reserving, Intending, Launching, Attesting, Releasing, Released, Receiving, Acting, Ending,
        Assessing, Reconciling, Unused, GrantFor;
    var c := p.claims;
    ChainedLater(t, u, c);
    assert InWindow(t, c.launch, c.releaseObservation, x.operationId, c.effects[x.operationId]);
    ReadBackAdded(u, c.effects, false, c.restartReconciliations, x);
  }

  // --- Whole runs --------------------------------------------------------------------------------------

  lemma RunHoldKeeps(p: Projection, t: Time, u: Time, r: Record, job: Id, x: RunHold)
    requires Now(t, u, r) && Chained(t, p.claims) && job !in p.claims.runHolds && x.since == u.head
    ensures Chained(u, p.claims.(runHolds := p.claims.runHolds[job := x]))
  {
    hide Reserving, Intending, Launching, Attesting, Releasing, Released, Effecting, Receiving, Acting, Ending,
        Assessing, Reconciling;
    var c := p.claims;
    ChainedLater(t, u, c);
    var runHolds := c.runHolds[job := x];
    forall k | k in c.intents ensures Reattempted(u, runHolds, k, c.intents[k]) {
      assert Reattempted(u, c.runHolds, k, c.intents[k]);
    }
  }

  lemma NewIntent(p: Projection, t: Time, ids: Ids)
    requires Reattempting(t, p.claims.runHolds, p.claims.intents, p.claims.confirmations) && IntentOk(p, ids)
    ensures ids.intentId !in p.claims.intents
  {
    hide AllDifferent, Members;
    var c := p.claims;
    assert ids.intentId in FreshIds(ids);
    forall k | k in c.intents ensures k != ids.intentId { KeyIsFresh(t, c.runHolds, k, c.intents[k], ids); }
  }

  lemma KeyIsFresh(t: Time, runHolds: map<Id, RunHold>, k: Id, intent: Intent, ids: Ids)
    requires Reattempted(t, runHolds, k, intent) && FreshIds(ids) * FreshIds(intent.ids) == {}
    ensures k != ids.intentId
  {
    assert k in FreshIds(intent.ids) && k !in FreshIds(ids) * FreshIds(intent.ids);
  }

  lemma SecondIntentKeeps(p: Projection, t: Time, u: Time, r: Record, x: Intent)
    requires Now(t, u, r) && Chained(t, p.claims) && IntentOk(p, x.ids) && x.committed == u.head
    ensures Chained(u, p.claims.(intents := p.claims.intents[x.ids.intentId := x]))
  {
    hide Reserving, Intending, Launching, Attesting, Releasing, Released, Effecting, Receiving, Acting, Ending,
        Assessing, Reconciling,
         AllDifferent, Members;
    var c, id := p.claims, x.ids.intentId;
    ChainedLater(t, u, c);
    NewIntent(p, t, x.ids);
    var intents := c.intents[id := x];
    assert c.runHolds[x.ids.jobId].since <= t.head;
    forall k | k in intents ensures Reattempted(u, c.runHolds, k, intents[k]) {
      assert k in c.intents ==> Reattempted(u, c.runHolds, k, c.intents[k]);
    }
    forall k | k in c.confirmations ensures Matched(u, intents, k, c.confirmations[k]) {
      assert Matched(u, c.intents, k, c.confirmations[k]);
    }
  }

  lemma SecondConfirmationKeeps(p: Projection, t: Time, u: Time, r: Record, x: Counterpart)
    requires Now(t, u, r) && Chained(t, p.claims) && ConfirmationOk(p, x.intentId, x.eventId, x.ledger)
        && x.committed == u.head
    ensures Chained(u, p.claims.(confirmations := p.claims.confirmations[x.intentId := x]))
  {
    hide Reserving, Intending, Launching, Attesting, Releasing, Released, Effecting, Receiving, Acting, Ending,
        Assessing, Reconciling,
         ConfirmationShape, EventFree;
    var c := p.claims;
    ChainedLater(t, u, c);
    assert Reattempted(t, c.runHolds, x.intentId, c.intents[x.intentId]);
    var confirmed := c.confirmations[x.intentId := x];
    forall k | k in confirmed ensures Matched(u, c.intents, k, confirmed[k]) {
      assert k in c.confirmations ==> Matched(u, c.intents, k, c.confirmations[k]);
    }
  }

  lemma RunHoldFree(p: Projection, job: Id, admission: Id)
    requires RunHoldOk(p, job, admission)
    ensures job !in p.claims.runHolds
  {
    hide Members;
  }

  lemma ReservationKeeps(p: Projection, t: Time, u: Time, r: Record, head: Head)
    requires t == TimeOf(p.core) && Now(t, u, r) && Chained(t, p.claims) && Guard(p, head, r)
    requires r.content.RunHoldSet? || r.content.ReservationIntent? || r.content.Confirmation?
        || r.content.InitialIntent? || r.content.InitialConfirmation? || r.content.RunIntended?
    ensures Chained(u, AddClaim(p.claims, ClaimOf(p, head, r)))
  {
    hide Chained, Now, Later, RunHoldOk, IntentOk, InitialOk, ConfirmationOk, InitialConfirmationOk, RunIntentOk,
        LaunchOk, AttestationOk,
         ReleaseIntentOk, ReleaseObservationOk, EffectOk, EffectReceiptOk, ActionOk, ActionResultOk, ExecutionBase,
             ReconciledOk,
         RestartReconciledOk, Members, TimeOf;
    NowIs(t, u, r);
    match r.content
    case RunHoldSet(job, admission) => { RunHoldFree(p, job, admission); RunHoldKeeps(p, t, u, r, job,
        ClaimOf(p, head, r).runHold); }
    case ReservationIntent(_) => SecondIntentKeeps(p, t, u, r, ClaimOf(p, head, r).intent);
    case Confirmation(_, _) => SecondConfirmationKeeps(p, t, u, r, ClaimOf(p, head, r).confirmation);
    case InitialIntent(_) => InitialKeeps(p, t, u, r, ClaimOf(p, head, r).initial);
    case InitialConfirmation(_, _) => ConfirmationKeeps(p, t, u, r, ClaimOf(p, head, r).initialConfirmation);
    case RunIntended(id, sequence, digest, _) =>
      RunIntentKeeps(p, t, u, r, head, id, sequence, digest, ClaimOf(p, head, r).runIntent);
  }

  lemma StageKeeps(p: Projection, t: Time, u: Time, r: Record, head: Head)
    requires t == TimeOf(p.core) && Now(t, u, r) && Chained(t, p.claims) && Guard(p, head, r)
    requires r.content.LaunchClaimed? || r.content.Attested? || r.content.ReleaseIntended? || r.content.ReleaseObserved?
    ensures Chained(u, AddClaim(p.claims, ClaimOf(p, head, r)))
  {
    hide Chained, Now, Later, RunHoldOk, IntentOk, InitialOk, ConfirmationOk, InitialConfirmationOk, RunIntentOk,
        LaunchOk, AttestationOk,
         ReleaseIntentOk, ReleaseObservationOk, EffectOk, EffectReceiptOk, ActionOk, ActionResultOk, ExecutionBase,
             ReconciledOk,
         RestartReconciledOk, Members, TimeOf;
    NowIs(t, u, r);
    match r.content
    case LaunchClaimed(_, _, _) => LaunchKeeps(p, t, u, r, ClaimOf(p, head, r).launch);
    case Attested(_) => AttestationKeeps(p, t, u, r);
    case ReleaseIntended(activated) => ReleaseIntentKeeps(p, t, u, r, activated);
    case ReleaseObserved(_) => ReleaseObservationKeeps(p, t, u, r);
  }

  lemma OperationKeeps(p: Projection, t: Time, u: Time, r: Record, head: Head)
    requires t == TimeOf(p.core) && Now(t, u, r) && Chained(t, p.claims) && Guard(p, head, r)
    requires r.content.EffectIntended? || r.content.EffectReceived? || r.content.ActionIntended?
        || r.content.ActionEnded?
    ensures Chained(u, AddClaim(p.claims, ClaimOf(p, head, r)))
  {
    hide Chained, Now, Later, RunHoldOk, IntentOk, InitialOk, ConfirmationOk, InitialConfirmationOk, RunIntentOk,
        LaunchOk, AttestationOk,
         ReleaseIntentOk, ReleaseObservationOk, EffectOk, EffectReceiptOk, ActionOk, ActionResultOk, ExecutionBase,
             ReconciledOk,
         RestartReconciledOk, Members, TimeOf;
    NowIs(t, u, r);
    match r.content
    case EffectIntended(_, _, _, _, _, _, _, _, _, _) => EffectKeeps(p, t, u, r, ClaimOf(p, head, r).effect);
    case EffectReceived(_, state, reason, _) =>
      ReceiptKeeps(p, t, u, r, ClaimOf(p, head, r).effectReceipt, state, reason);
    case ActionIntended(_, _, _) => ActionKeeps(p, t, u, r, ClaimOf(p, head, r).action);
    case ActionEnded(_, outcome) => ActionResultKeeps(p, t, u, r, ClaimOf(p, head, r).actionResult, outcome);
  }

  lemma AftermathKeeps(p: Projection, t: Time, u: Time, r: Record, head: Head)
    requires t == TimeOf(p.core) && Now(t, u, r) && Chained(t, p.claims) && Guard(p, head, r)
    requires r.content.ProcessObserved? || r.content.TerminalObserved? || r.content.ExecutionAssessed?
        || r.content.Reconciled? || r.content.RestartReconciled?
    ensures Chained(u, AddClaim(p.claims, ClaimOf(p, head, r)))
  {
    hide Chained, Now, Later, RunHoldOk, IntentOk, InitialOk, ConfirmationOk, InitialConfirmationOk, RunIntentOk,
        LaunchOk, AttestationOk,
         ReleaseIntentOk, ReleaseObservationOk, EffectOk, EffectReceiptOk, ActionOk, ActionResultOk, ExecutionBase,
             ReconciledOk,
         RestartReconciledOk, Members, TimeOf;
    NowIs(t, u, r);
    match r.content
    case ProcessObserved(_, _) => OutcomeKeeps(p, t, u, r);
    case TerminalObserved(_) => OutcomeKeeps(p, t, u, r);
    case ExecutionAssessed => OutcomeKeeps(p, t, u, r);
    case Reconciled(_, reported, version) =>
      ReconciledKeeps(p, t, u, r, ClaimOf(p, head, r).reconciliation, reported, version);
    case RestartReconciled(_, reported, version) =>
      RestartReconciledKeeps(p, t, u, r, ClaimOf(p, head, r).restartReconciliation, reported, version);
  }

  lemma ClaimKeeps(p: Projection, t: Time, u: Time, r: Record, head: Head)
    requires t == TimeOf(p.core) && Now(t, u, r) && Chained(t, p.claims) && Guard(p, head, r)
    ensures Chained(u, AddClaim(p.claims, ClaimOf(p, head, r)))
  {
    hide Chained, Now, TimeOf, ClaimOf, AddClaim, RunHoldOk, IntentOk, InitialOk, ConfirmationOk,
        InitialConfirmationOk, RunIntentOk, LaunchOk,
         AttestationOk, ReleaseIntentOk, ReleaseObservationOk, EffectOk, EffectReceiptOk, ActionOk, ActionResultOk,
             ExecutionBase,
         ReconciledOk, RestartReconciledOk;
    var k := r.content;
    if k.RunHoldSet? || k.ReservationIntent? || k.Confirmation? || k.InitialIntent? || k.InitialConfirmation?
        || k.RunIntended? {
      ReservationKeeps(p, t, u, r, head);
    } else if k.LaunchClaimed? || k.Attested? || k.ReleaseIntended? || k.ReleaseObserved? {
      StageKeeps(p, t, u, r, head);
    } else if k.EffectIntended? || k.EffectReceived? || k.ActionIntended? || k.ActionEnded? {
      OperationKeeps(p, t, u, r, head);
    } else {
      AftermathKeeps(p, t, u, r, head);
    }
  }

  lemma NowIs(t: Time, u: Time, r: Record)
    requires Now(t, u, r)
    ensures Later(t, u) && u.head == r.position.commitSeq && u.mono == r.stamp.mono
  {
  }

  predicate CoreOk(core: Core) {
    && (core.head.None? ==> core.boot.None? && core.seenBoots == {})
    && (core.head.Some? ==>
          core.boot.Some? && core.boot.value in core.seenBoots
          && core.bootStart <= core.head.value.commitSeq)
  }

  /** Unless a restart is still held, every first attempt belongs to the current boot. */
  predicate ThisBoot(p: Projection) {
    RestartRecovery !in p.front.holds ==> forall k | k in p.claims.initials ::
        p.core.bootStart < p.claims.initials[k].committed
  }

  ghost predicate Whole(p: Projection) {
    && CoreOk(p.core) && Chained(TimeOf(p.core), p.claims) && ThisBoot(p)
    && (p.core.head.None? ==> p.claims.initials == map[])
  }

  /** A commit of one record: where it stands and what it may change. */
  lemma OneMoves(p: Projection, r: Record)
    requires CoreOk(p.core) && VerifyOne(p, r).Ok? && r.position.commitSeq == NextCommit(p.core)
    requires !Restarts(r.content) ==> p.core.boot == Some(r.stamp.boot) && p.core.lastMono <= r.stamp.mono
    ensures var d := VerifyOne(p, r).value;
            && d.head.commitSeq == NextCommit(p.core) && d.boot == r.stamp.boot && d.lastMono == r.stamp.mono
            && (d.newBoot <==> Restarts(r.content)) && (d.newBoot ==> d.boot !in p.core.seenBoots)
            && (d.change.Add? ==>
                  !d.newBoot && p.core.head.Some? && Guard(p, p.core.head.value, r)
                  && d.change.claim == ClaimOf(p, p.core.head.value, r))
            && (d.change.Clear? ==> p.claims.initials == map[])
            && (d.newBoot && p.core.head.Some? ==> d.change == Hold(RestartRecovery))
  {
    hide Guard, ClaimOf, Fits, KeyOf, BodyCap, LimitOf, ObservedOf;
  }

  lemma AdmissionMoves(p: Projection, a: Record, b: Record)
    requires a.content.Admission? && b.content.Dedupe? && VerifyAdmission(p, a, b).Ok?
    ensures var d := VerifyAdmission(p, a, b).value;
            d.head.commitSeq == b.position.commitSeq && d.boot == a.stamp.boot && d.lastMono == a.stamp.mono
                && !d.newBoot && d.change.Admit?
  {
    hide AdmissionOk, Decide, Updates;
  }

  lemma TimeMoves(core: Core, d: Delta)
    requires CoreOk(core) && d.head.commitSeq == NextCommit(core)
    requires if d.newBoot then d.boot !in core.seenBoots else core.boot == Some(d.boot) && core.lastMono <= d.lastMono
    ensures CoreOk(ApplyCore(core, d)) && ApplyCore(core, d).head.Some?
        && Later(TimeOf(core), TimeOf(ApplyCore(core, d)))
    ensures !d.newBoot ==> TimeOf(ApplyCore(core, d)) == Time(d.head.commitSeq, core.boot, d.lastMono, core.seenBoots)
  {
  }

  lemma InitialsAfter(c: Claims, claim: Claim, k: nat)
    ensures k in AddClaim(c, claim).initials ==>
              (k in c.initials && AddClaim(c, claim).initials[k] == c.initials[k])
              || (claim.AddInitial? && AddClaim(c, claim).initials[k] == claim.initial)
  {
  }

  lemma HoldsAfter(front: Front, d: Delta)
    ensures !d.change.Clear? && RestartRecovery in front.holds ==> RestartRecovery in ApplyFront(front, d).holds
    ensures d.change == Hold(RestartRecovery) ==> RestartRecovery in ApplyFront(front, d).holds
  {
  }

  lemma BootMoves(p: Projection, d: Delta)
    requires CoreOk(p.core) && ThisBoot(p) && d.head.commitSeq == NextCommit(p.core)
    requires d.newBoot && p.core.head.Some? ==> d.change == Hold(RestartRecovery)
    requires d.newBoot && p.core.head.None? ==> p.claims.initials == map[]
    requires d.change.Clear? ==> p.claims.initials == map[]
    requires d.change.Add? ==> !d.newBoot && p.core.head.Some?
    requires d.change.Add? && d.change.claim.AddInitial? ==> d.change.claim.initial.committed == d.head.commitSeq
    ensures ThisBoot(Apply(p, d))
  {
    hide AddClaim, ApplyFront;
    HoldsAfter(p.front, d);
    var q := Apply(p, d);
    if RestartRecovery !in q.front.holds {
      forall k | k in q.claims.initials
        ensures q.core.bootStart < q.claims.initials[k].committed
      {
        if d.change.Add? { InitialsAfter(p.claims, d.change.claim, k); }
      }
    }
  }

  lemma InitialCommitted(p: Projection, head: Head, r: Record)
    requires Guard(p, head, r)
    ensures ClaimOf(p, head, r).AddInitial? ==> ClaimOf(p, head, r).initial.committed == r.position.commitSeq
  {
    hide InitialOk, RunHoldOk, IntentOk, ConfirmationOk, InitialConfirmationOk, RunIntentOk, LaunchOk, AttestationOk,
        ReleaseIntentOk,
         ReleaseObservationOk, EffectOk, EffectReceiptOk, ActionOk, ActionResultOk, ExecutionBase, ReconciledOk,
             RestartReconciledOk, Members;
  }

  /** Every accepted commit keeps the chain whole. */
  lemma StepWhole(p: Projection, records: seq<Record>)
    requires Whole(p) && Accepts(p, records)
    ensures Whole(After(p, records))
  {
    hide Verify, VerifyOne, VerifyAdmission, Chained, ThisBoot, CoreOk, Later, TimeOf, ApplyCore, ApplyFront, AddClaim,
        Guard, ClaimOf;
    Decided(p, records);
    var r, d := records[0], Verify(p, records).value;
    if r.content.Admission? { AdmissionMoves(p, r, records[1]); } else { OneMoves(p, r); }
    TimeMoves(p.core, d);
    var t, u := TimeOf(p.core), TimeOf(ApplyCore(p.core, d));
    if d.change.Add? {
      InitialCommitted(p, p.core.head.value, r);
      assert Now(t, u, r) by { assert t.boot == p.core.boot && t.mono == p.core.lastMono
                              && t.seen == p.core.seenBoots by { TimeFields(p.core); } }
      ClaimKeeps(p, t, u, r, p.core.head.value);
    } else {
      ChainedLater(t, u, p.claims);
    }
    BootMoves(p, d);
  }

  lemma TimeFields(core: Core)
    ensures TimeOf(core).boot == core.boot && TimeOf(core).mono == core.lastMono && TimeOf(core).seen == core.seenBoots
  {
  }

  lemma {:induction false} RunWhole(p: Projection, commits: seq<seq<Record>>)
    requires Whole(p) && Accepted(p, commits)
    ensures Whole(Fold(p, commits))
    decreases |commits|
  {
    hide Accepts, After, Whole;
    if commits != [] {
      StepWhole(p, commits[0]);
      RunWhole(After(p, commits[0]), commits[1..]);
    }
  }

  lemma EmptyWhole()
    ensures Whole(EMPTY)
  {
  }

  /** In every reachable journal an effect has its whole chain behind it: commits strictly
      increasing, one boot, and readings in order up to an expiry no later than the work
      deadline and the grant's own expiry. */
  lemma EffectWindow(commits: seq<seq<Record>>, k: Id)
    requires Accepted(EMPTY, commits) && k in Fold(EMPTY, commits).claims.effects
    ensures var c := Fold(EMPTY, commits).claims;
            && c.runIntent.Some? && c.launch.Some? && c.attestation.Some? && c.releaseIntent.Some?
                && c.releaseObservation.Some?
            && var i, run, l, a, ri, ro, e :=
                 c.runIntent.value.intent.ids.intentId, c.runIntent.value, c.launch.value, c.attestation.value,
                     c.releaseIntent.value,
                 c.releaseObservation.value, c.effects[k];
               && i in c.initials && i in c.initialConfirmations
               && c.initials[i].committed < c.initialConfirmations[i].committed < run.committed < l.committed
                  < a.committed
                  < ri.committed < ro.committed < e.committed
               && l.boot == a.boot == ri.boot == ro.boot == e.boot
               && l.origin <= a.observed <= ri.intended <= ro.observed <= e.observed < e.expires <= l.work == l.origin
                   + 270_000_000
               && |ri.activated| == |l.grants| == |run.services|
               && (forall j | 0 <= j < |l.grants| ::
                     && l.grants[j].claim == run.services[j] && l.grants[j].expiry <= l.work
                     && a.observed <= ri.activated[j].at <= ri.intended && ri.activated[j].at < l.grants[j].expiry)
               && (exists j | 0 <= j < |l.grants| ::
                     && l.grants[j].claim.service == e.service == RouteService(e.route)
                         && l.grants[j].grantId == e.grantId
                     && l.grants[j].claim.scope == e.scope && e.expires <= l.grants[j].expiry)
  {
    hide Reattempting, Accepted, Fold, ServicesOk, RouteService, Receiving, Acting, Ending, Assessing, Reconciling;
    EmptyWhole();
    RunWhole(EMPTY, commits);
    var p := Fold(EMPTY, commits);
    var c, t := p.claims, TimeOf(p.core);
    assert InWindow(t, c.launch, c.releaseObservation, k, c.effects[k]);
    var i := c.runIntent.value.intent.ids.intentId;
    assert Matched(t, c.initials, i, c.initialConfirmations[i]);
  }

  /** A launch is accepted only in the boot in which its whole reservation was made. */
  lemma LaunchInOneBoot(commits: seq<seq<Record>>, records: seq<Record>)
    requires Accepted(EMPTY, commits) && Accepts(Fold(EMPTY, commits), records) && records[0].content.LaunchClaimed?
    ensures var p := Fold(EMPTY, commits);
            && p.claims.runIntent.Some?
            && var i := p.claims.runIntent.value.intent.ids.intentId;
               && i in p.claims.initials && i in p.claims.initialConfirmations
               && p.core.bootStart < p.claims.initials[i].committed < p.claims.initialConfirmations[i].committed
                  < p.claims.runIntent.value.committed < records[0].position.commitSeq
  {
    hide Reattempting, Accepted, Fold, Verify, ServicesOk, Launching, Attesting, Releasing, Released, Effecting,
        Receiving, Acting, Ending, Assessing, Reconciling,
         KnownIds, Members, GrantsOk, Fits;
    EmptyWhole();
    RunWhole(EMPTY, commits);
    var p := Fold(EMPTY, commits);
    Decided(p, records);
    assert LaunchOk(p, records[0].eventId, records[0].stamp, records[0].content.grants);
    var i := p.claims.runIntent.value.intent.ids.intentId;
    assert Matched(TimeOf(p.core), p.claims.initials, i, p.claims.initialConfirmations[i]);
  }

  /** In every reachable journal a second attempt follows the run hold of its job, and its
      confirmation follows the attempt. */
  lemma SecondAttemptOrder(commits: seq<seq<Record>>, k: Id)
    requires Accepted(EMPTY, commits) && k in Fold(EMPTY, commits).claims.intents
    ensures var c := Fold(EMPTY, commits).claims;
            && c.intents[k].ids.intentId == k && c.intents[k].ids.jobId in c.runHolds
            && c.runHolds[c.intents[k].ids.jobId].admissionId == c.intents[k].ids.admissionId
            && c.runHolds[c.intents[k].ids.jobId].since < c.intents[k].committed
            && (k in c.confirmations ==> c.intents[k].committed < c.confirmations[k].committed)
  {
    hide Accepted, Fold, Reserving, Intending, Launching, Attesting, Releasing, Released, Effecting, Receiving, Acting,
        Ending, Assessing,
         Reconciling;
    EmptyWhole();
    RunWhole(EMPTY, commits);
    var p := Fold(EMPTY, commits);
    var c, t := p.claims, TimeOf(p.core);
    assert Reattempted(t, c.runHolds, k, c.intents[k]);
    if k in c.confirmations { assert Matched(t, c.intents, k, c.confirmations[k]); }
  }
}
