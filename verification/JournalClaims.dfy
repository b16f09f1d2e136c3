/** Exactly which claims a reachable journal accepts, with everything left out that its own past already
    guarantees. */
module JournalClaims {
  import opened Text
  import opened Journal
  import C = JournalChain
  import O = JournalOrder
  import H = JournalHolds
  import W = JournalWitness
  import R = Receipts

  // --- Identities ----------------------------------------------------------------------------------

  predicate NoRepeat(ids: seq<Id>) { forall i, j | 0 <= i < |ids| && 0 <= j < |ids| && ids[i] == ids[j] :: i == j }

  predicate Names(i: Ids, id: Id) {
    || id == i.jobId || id == i.admissionId || id == i.intentId || id == i.attemptId || id == i.reservationId
    || id == i.runId || id == i.leaseId
  }

  predicate Cites(c: Counterpart, id: Id) { id == c.eventId || id == c.ledger.ledger || id == c.ledger.eventId }

  /** The id stands for the journal, a held job, an attempt or its ledger counterpart. */
  predicate Reserved(p: Projection, id: Id) {
    var c := p.claims;
    || p.core.uuid == Some(id)
    || (exists j | j in c.runHolds :: id == j || id == c.runHolds[j].admissionId)
    || (exists k | k in c.intents :: Names(c.intents[k].ids, id))
    || (exists k | k in c.initials :: Names(c.initials[k].ids, id))
    || (exists k | k in c.confirmations :: Cites(c.confirmations[k], id))
    || (exists k | k in c.initialConfirmations :: Cites(c.initialConfirmations[k], id))
  }

  lemma ReservedExactly(p: Projection, id: Id)
    ensures id in KnownIds(p) <==> Reserved(p, id)
  {
    hide IntentIds, ConfirmedIds;
    NamedExactly(p.claims.intents, id);
    NamedExactly(p.claims.initials, id);
    CitedExactly(p.claims.confirmations, id);
    CitedExactly(p.claims.initialConfirmations, id);
  }

  lemma NamedExactly(m: map<Id, Intent>, id: Id)
    ensures id in IntentIds(m) <==> exists k | k in m :: Names(m[k].ids, id)
  {
    forall k | k in m ensures id in IdSeq(m[k].ids) <==> Names(m[k].ids, id) { SevenIds(m[k].ids, id); }
  }

  lemma SevenIds(i: Ids, id: Id)
    ensures id in IdSeq(i) <==> Names(i, id)
  {
  }

  lemma CitedExactly(m: map<Id, Counterpart>, id: Id)
    ensures id in ConfirmedIds(m) <==> exists k | k in m :: Cites(m[k], id)
  {
  }

  predicate Marks(o: Option<Observation>, id: Id) { o.Some? && id == o.value.eventId }

  /** The id stands for a stage of the run, one of its service claims or one of its grants. */
  predicate Staged(c: Claims, id: Id) {
    || (c.runIntent.Some? && (id == c.runIntent.value.eventId
                              || exists s | s in c.runIntent.value.services :: id == s.leaseClaim))
    || (c.launch.Some? && (id == c.launch.value.eventId || exists g | g in c.launch.value.grants :: id == g.grantId))
    || (c.attestation.Some? && id == c.attestation.value.eventId)
    || (c.releaseIntent.Some? && id == c.releaseIntent.value.eventId)
    || (c.releaseObservation.Some? && id == c.releaseObservation.value.eventId)
    || Marks(c.process, id) || Marks(c.terminal, id) || Marks(c.assessment, id)
  }

  lemma StagedExactly(c: Claims, id: Id)
    ensures id in ChainIds(c) <==> Staged(c, id)
  {
  }

  predicate Read(m: map<Id, seq<Reconciliation>>, id: Id) { exists k, r | k in m && r in m[k] :: id == r.eventId }

  /** The id stands for an effect, a cleanup action, or what came of one. */
  predicate Done(c: Claims, id: Id) {
    || (exists k | k in c.effects :: id == k || id == c.effects[k].eventId)
    || (exists k | k in c.effectReceipts :: id == c.effectReceipts[k].eventId)
    || (exists k | k in c.actions :: id == k || id == c.actions[k].eventId)
    || (exists k | k in c.actionResults :: id == c.actionResults[k].eventId)
    || Read(c.reconciliations, id) || Read(c.restartReconciliations, id)
  }

  lemma DoneExactly(c: Claims, id: Id)
    ensures id in FamilyIds(c) <==> Done(c, id)
  {
  }

  /** Nothing on record has this id. */
  predicate New(p: Projection, id: Id) { !Reserved(p, id) && !Staged(p.claims, id) && !Done(p.claims, id) }

  lemma NewExactly(p: Projection, id: Id)
    ensures Unused(p, id) <==> New(p, id)
  {
    hide KnownIds, ChainIds, FamilyIds, Reserved, Staged, Done;
    ReservedExactly(p, id);
    StagedExactly(p.claims, id);
    DoneExactly(p.claims, id);
  }

  lemma RepeatExactly(ids: seq<Id>)
    ensures AllDifferent(ids) <==> NoRepeat(ids)
  {
  }

  // --- What a claim must meet ----------------------------------------------------------------------

  predicate Free(p: Projection) { p.front.holds == map[] && p.claims.runHolds == map[] }

  predicate Few(members: set<Fingerprint>) { 1 <= |members| <= 32 }

  /** The journal and the seven identities of an attempt, all different. */
  predicate Distinct(p: Projection, i: Ids) {
    p.core.uuid.Some? && NoRepeat([p.core.uuid.value, i.jobId, i.admissionId, i.intentId, i.attemptId, i.reservationId,
                                   i.runId, i.leaseId])
  }

  /** And those of its ledger counterpart. */
  predicate DistinctFrom(p: Projection, i: Ids, eventId: Id, l: LedgerRef) {
    p.core.uuid.Some? && NoRepeat([p.core.uuid.value, i.jobId, i.admissionId, i.intentId, i.attemptId, i.reservationId,
                                   i.runId, i.leaseId, eventId, l.ledger, l.eventId])
  }

  predicate Holdable(p: Projection, jobId: Id, admissionId: Id) {
    var c := p.claims;
    && jobId !in c.runHolds && (forall j | j in c.runHolds :: c.runHolds[j].admissionId != admissionId)
    && (forall k | k in c.initials ::
          (c.initials[k].ids.jobId == jobId) == (c.initials[k].ids.admissionId == admissionId))
    && Few(Members(p.front, admissionId)) && |c.runHolds| <= 1_023
  }

  /** A second attempt: for a held job whose fingerprints are still the ones it was held with. */
  predicate Reattemptable(p: Projection, i: Ids) {
    var c := p.claims;
    && c.initials == map[] && |c.intents| <= 255 && i.jobId in c.runHolds
    && c.runHolds[i.jobId].admissionId == i.admissionId
    && Members(p.front, i.admissionId) == c.runHolds[i.jobId].members != {} && Distinct(p, i)
    && (forall k | k in c.intents ::
          {i.intentId, i.attemptId, i.reservationId, i.runId, i.leaseId} !!
          {c.intents[k].ids.intentId, c.intents[k].ids.attemptId, c.intents[k].ids.reservationId,
           c.intents[k].ids.runId, c.intents[k].ids.leaseId})
  }

  /** A first attempt: the only one, with nothing held. Second attempts need no mention: there are none. */
  predicate Attemptable(p: Projection, i: Ids) {
    Free(p) && p.claims.initials == map[] && Few(Members(p.front, i.admissionId)) && Distinct(p, i)
  }

  predicate Reconfirmable(p: Projection, intentId: Id, eventId: Id, l: LedgerRef) {
    var c := p.claims;
    && intentId in c.intents && intentId !in c.confirmations && |c.confirmations| <= 255
    && DistinctFrom(p, c.intents[intentId].ids, eventId, l)
    && (forall k | k in c.confirmations ::
          && c.confirmations[k].ledger.eventId != l.eventId
          && (c.confirmations[k].ledger.ledger, c.confirmations[k].ledger.generation,
              c.confirmations[k].ledger.sequence) != (l.ledger, l.generation, l.sequence))
  }

  predicate Confirmable(p: Projection, intentId: Id, eventId: Id, l: LedgerRef) {
    var c := p.claims;
    intentId in c.initials && c.initialConfirmations == map[] && DistinctFrom(p, c.initials[intentId].ids, eventId, l)
  }

  predicate ServiceList(services: seq<ServiceClaim>) {
    || (|services| == 4 && services[0].service == Anthropic && services[1].service == Grafana
        && services[2].service == Jira && services[3].service == Kubernetes)
    || (|services| == 5 && services[0].service == Anthropic && services[1].service == Confluence
        && services[2].service == Grafana && services[3].service == Jira && services[4].service == Kubernetes)
  }

  predicate Runnable(p: Projection, eventId: Id, intentId: Id, sequence: int, digest: nat,
                     services: seq<ServiceClaim>) {
    var c := p.claims;
    && Free(p) && c.runIntent.None? && intentId in c.initials && intentId in c.initialConfirmations
    && Members(p.front, c.initials[intentId].ids.admissionId) == c.initials[intentId].members
    && c.initialConfirmations[intentId].ledger.sequence <= sequence <= 0x1F_FFFF_FFFF_FFFF
    && (sequence == c.initialConfirmations[intentId].ledger.sequence ==>
          digest == c.initialConfirmations[intentId].ledger.digest)
    && ServiceList(services) && services[0].leaseClaim == c.initials[intentId].ids.leaseId
    && !Reserved(p, eventId)
    && (forall i | 0 < i < |services| :: !Reserved(p, services[i].leaseClaim) && services[i].leaseClaim != eventId)
    && (forall i, j | 0 < i < j < |services| :: services[i].leaseClaim != services[j].leaseClaim)
  }

  predicate GrantList(grants: seq<Grant>, services: seq<ServiceClaim>, mono: int) {
    && |grants| == |services|
    && (forall i | 0 <= i < |grants| ::
          grants[i].claim == services[i] && mono < grants[i].expiry <= mono + 270_000_000)
    && (forall i, j | 0 <= i < j < |grants| :: grants[i].grantId != grants[j].grantId)
  }

  /** The run's reservation is still what it was, and nothing is held. */
  predicate Undisturbed(p: Projection) {
    && Free(p) && p.claims.runIntent.Some?
    && var i := p.claims.runIntent.value.intent; Members(p.front, i.ids.admissionId) == i.members
  }

  predicate Launchable(p: Projection, eventId: Id, stamp: Stamp, grants: seq<Grant>) {
    var c := p.claims;
    && Undisturbed(p) && c.launch.None? && stamp.mono <= 0x1F_FFFF_FFFF_FFFF - 300_000_000
    && !Reserved(p, eventId) && eventId != c.runIntent.value.eventId
    && (forall s | s in c.runIntent.value.services :: s.leaseClaim != eventId)
    && GrantList(grants, c.runIntent.value.services, stamp.mono)
  }

  /** Before the work deadline of a launch of this boot, undisturbed. */
  predicate Working(p: Projection, stamp: Stamp) {
    && Undisturbed(p) && p.claims.launch.Some? && p.claims.launch.value.boot == stamp.boot
    && stamp.mono < p.claims.launch.value.origin + 270_000_000
  }

  predicate Activated(activated: seq<Activation>, grants: seq<Grant>, from: int, upTo: int) {
    && |activated| == |grants|
    && (forall i | 0 <= i < |grants| ::
          && activated[i].service == grants[i].claim.service && activated[i].grantId == grants[i].grantId
          && from <= activated[i].at <= upTo && activated[i].at < grants[i].expiry)
  }

  predicate Releasable(p: Projection, eventId: Id, stamp: Stamp, activated: seq<Activation>) {
    var c := p.claims;
    && Working(p, stamp) && c.attestation.Some? && c.releaseIntent.None? && c.process.None? && c.actions == map[]
    && New(p, eventId) && Activated(activated, c.launch.value.grants, c.attestation.value.observed, stamp.mono)
  }

  predicate Observable(p: Projection, eventId: Id, stamp: Stamp) {
    var c := p.claims;
    && c.releaseIntent.Some? && c.releaseObservation.None? && c.releaseIntent.value.boot == stamp.boot
    && New(p, eventId) && stamp.mono <= 0x1F_FFFF_FFFF_FFFF
  }

  /** The service a route belongs to. */
  predicate Serves(service: Service, route: Route) {
    match service
    case Anthropic => route in {AnthropicMessages}
    case Confluence => route in {DraftCreate, DraftRead, DraftUpdate, ReferenceRead}
    case Grafana =>
      route in {ChangeQuery, TelemetryQuery, GrafanaHealth, LogsRange, MetricsInstant, MetricsRange, TraceGet,
                TracesSearch}
    case Jira =>
      route in {CommentAdd, CommentGet, CommentsList, IssueCreate, IssueGet, IssueUpdate, JiraSearch, JiraTransition}
    case Kubernetes => route in {PodEvents, PodList, PodStatus, ServiceEndpoints}
  }

  /** The grant of the service: its own id and scope, and not outlived. */
  predicate Granted(grants: seq<Grant>, service: Service, grantId: Id, scope: nat, expires: int) {
    exists i | 0 <= i < |grants| ::
      && grants[i].claim.service == service && grants[i].grantId == grantId && grants[i].claim.scope == scope
      && expires <= grants[i].expiry
  }

  predicate Effectable(p: Projection, eventId: Id, stamp: Stamp, operationId: Id, service: Service, route: Route,
                       grantId: Id, scope: nat, flight: Id, receiptId: Id, expires: int) {
    var c := p.claims;
    && Working(p, stamp) && c.releaseObservation.Some? && c.process.None? && c.actions == map[]
    && New(p, eventId) && New(p, operationId) && operationId != eventId
    && Serves(service, route) && Granted(c.launch.value.grants, service, grantId, scope, expires)
    && flight != receiptId
    && (forall k | k in c.effects :: c.effects[k].flight != flight && c.effects[k].receiptId != receiptId)
    && stamp.mono < expires <= c.launch.value.origin + 270_000_000 && |c.effects| <= 63
  }

  predicate Receivable(p: Projection, eventId: Id, stamp: Stamp, operationId: Id, state: R.DispatchState,
                       reason: R.Reason) {
    var c := p.claims;
    && operationId in c.effects && operationId !in c.effectReceipts && c.effects[operationId].boot == stamp.boot
    && New(p, eventId) && stamp.mono <= 0x1F_FFFF_FFFF_FFFF && R.ClientFor(state, reason).Some?
  }

  predicate RevokedBy(c: Claims, grantId: Id) {
    exists k | k in c.actions :: c.actions[k].kind.RevokeGrant? && c.actions[k].grant.Some?
                                 && c.actions[k].grant.value.1 == grantId
  }

  /** In the boot of the launch, which has not been left since. */
  predicate Launched(p: Projection, stamp: Stamp) {
    && p.claims.launch.Some? && p.claims.launch.value.boot == stamp.boot
    && p.core.bootStart <= p.claims.launch.value.committed
  }

  predicate Actionable(p: Projection, eventId: Id, stamp: Stamp, actionId: Id, kind: ActionKind,
                       grant: Option<(Service, Id)>) {
    var c := p.claims;
    && Launched(p, stamp) && stamp.mono < c.launch.value.origin + 300_000_000
    && New(p, eventId) && New(p, actionId) && eventId != actionId && |c.actions| <= |c.launch.value.grants| + 1
    && match kind
       case RevokeGrant =>
         && grant.Some? && O.IsGrant(c.launch.value, grant.value) && !RevokedBy(c, grant.value.1)
         && (forall k | k in c.actions :: c.actions[k].kind == RevokeGrant)
       case SignalInterrupt =>
         && grant.None? && c.attestation.Some? && (forall g | g in c.launch.value.grants :: RevokedBy(c, g.grantId))
         && (forall k | k in c.actions :: c.actions[k].kind == RevokeGrant)
       case SignalKill =>
         && grant.None? && c.attestation.Some? && (forall g | g in c.launch.value.grants :: RevokedBy(c, g.grantId))
         && (forall k | k in c.actions :: c.actions[k].kind != SignalKill)
  }

  /** A revocation is acknowledged, a signal requested; either may fail or stay unknown. */
  predicate Outcome(kind: ActionKind, outcome: ActionOutcome) {
    match outcome
    case Acknowledged => kind == RevokeGrant
    case Requested => kind != RevokeGrant
    case ActionFailed => true
    case ActionUnknown => true
  }

  predicate Endable(p: Projection, eventId: Id, stamp: Stamp, actionId: Id, outcome: ActionOutcome) {
    var c := p.claims;
    && actionId in c.actions && actionId !in c.actionResults && c.launch.Some? && c.launch.value.boot == stamp.boot
    && New(p, eventId) && c.actions[actionId].observed <= stamp.mono <= 0x1F_FFFF_FFFF_FFFF
    && Outcome(c.actions[actionId].kind, outcome)
  }

  predicate Following(p: Projection, eventId: Id, stamp: Stamp) {
    Launched(p, stamp) && New(p, eventId) && stamp.mono <= 0x1F_FFFF_FFFF_FFFF
  }

  /** A version is given exactly when something was found. */
  predicate Versioned(reported: Reported, version: Option<nat>) {
    version.Some? <==> reported == Confirmed || reported == Conflict
  }

  predicate ReadsBack(route: Route) { route in {IssueCreate, IssueUpdate, JiraTransition, CommentAdd} }

  predicate ReadBackable(p: Projection, eventId: Id, stamp: Stamp, operationId: Id, reported: Reported,
                         version: Option<nat>) {
    var c := p.claims;
    && operationId in c.effects && ReadsBack(c.effects[operationId].route)
    && c.effects[operationId].boot == stamp.boot && Following(p, eventId, stamp) && Versioned(reported, version)
    && (operationId in c.reconciliations ==> |c.reconciliations[operationId]| <= 3)
  }

  /** After a restart, while it is still held: for an effect of an earlier boot. */
  predicate ReadBackableLater(p: Projection, eventId: Id, stamp: Stamp, operationId: Id, reported: Reported,
                              version: Option<nat>) {
    var c := p.claims;
    && operationId in c.effects && ReadsBack(c.effects[operationId].route)
    && c.effects[operationId].boot != stamp.boot && c.effects[operationId].committed < p.core.bootStart
    && p.core.recovered.Some? && p.core.bootStart == p.core.recovered.value.commitSeq + 1
    && RestartRecovery in p.front.holds && New(p, eventId) && stamp.mono <= 0x1F_FFFF_FFFF_FFFF
    && Versioned(reported, version)
    && (operationId in c.restartReconciliations ==> |c.restartReconciliations[operationId]| <= 3)
  }

  ghost predicate Fitting(p: Projection, r: Record) {
    var c := p.claims;
    match r.content
    case RunHoldSet(job, admission) => Holdable(p, job, admission)
    case ReservationIntent(ids) => r.eventId == ids.intentId && Reattemptable(p, ids)
    case InitialIntent(ids) => r.eventId == ids.intentId && Attemptable(p, ids)
    case Confirmation(id, l) => Reconfirmable(p, id, r.eventId, l)
    case InitialConfirmation(id, l) => Confirmable(p, id, r.eventId, l)
    case RunIntended(id, sequence, digest, services) => Runnable(p, r.eventId, id, sequence, digest, services)
    case LaunchClaimed(_, _, grants) => Launchable(p, r.eventId, r.stamp, grants)
    case Attested(_) => Working(p, r.stamp) && c.attestation.None? && c.process.None? && New(p, r.eventId)
    case ReleaseIntended(activated) => Releasable(p, r.eventId, r.stamp, activated)
    case ReleaseObserved(_) => Observable(p, r.eventId, r.stamp)
    case EffectIntended(op, service, route, grantId, scope, flight, receipt, _, _, expires) =>
      Effectable(p, r.eventId, r.stamp, op, service, route, grantId, scope, flight, receipt, expires)
    case EffectReceived(op, state, reason, _) => Receivable(p, r.eventId, r.stamp, op, state, reason)
    case ActionIntended(action, kind, grant) => Actionable(p, r.eventId, r.stamp, action, kind, grant)
    case ActionEnded(action, outcome) => Endable(p, r.eventId, r.stamp, action, outcome)
    case ProcessObserved(failed, _) =>
      Following(p, r.eventId, r.stamp) && c.process.None? && (failed ==> c.attestation.None?)
    case TerminalObserved(_) => Following(p, r.eventId, r.stamp) && c.process.Some? && c.terminal.None?
    case ExecutionAssessed => Following(p, r.eventId, r.stamp) && c.terminal.Some? && c.assessment.None?
    case Reconciled(op, reported, version) => ReadBackable(p, r.eventId, r.stamp, op, reported, version)
    case RestartReconciled(op, reported, version) => ReadBackableLater(p, r.eventId, r.stamp, op, reported, version)
    case Genesis(_, _) => false
    case Restart(_, _) => false
    case Admission(_, _, _, _, _) => false
    case Dedupe(_, _, _, _, _, _, _, _) => false
    case CapacityHold(_, _, _, _) => false
    case IngressRefusal(_, _, _) => false
    case OperatorResume(_, _, _, _) => false
  }

  // --- What the past guarantees ---------------------------------------------------------------------

  ghost predicate Sane(p: Projection) { C.Whole(p) && O.Orderly(p.claims) && H.Apart(p.claims) }

  lemma Reaches(commits: seq<seq<Record>>)
    requires Accepted(EMPTY, commits)
    ensures Sane(Fold(EMPTY, commits))
  {
    hide Accepted, Fold, C.Whole, O.Orderly;
    C.EmptyWhole();
    C.RunWhole(EMPTY, commits);
    O.Reachable(commits);
    H.NeverBoth(EMPTY, commits);
  }

  // --- Attempts -------------------------------------------------------------------------------------

  lemma DistinctExactly(p: Projection, i: Ids)
    ensures Distinct(p, i) <==> p.core.uuid.Some? && AllDifferent([p.core.uuid.value] + IdSeq(i))
  {
    hide AllDifferent, NoRepeat;
    if p.core.uuid.Some? {
      var ids := [p.core.uuid.value, i.jobId, i.admissionId, i.intentId, i.attemptId, i.reservationId, i.runId,
                  i.leaseId];
      assert [p.core.uuid.value] + IdSeq(i) == ids;
      RepeatExactly(ids);
    }
  }

  lemma DistinctFromExactly(p: Projection, i: Ids, eventId: Id, l: LedgerRef)
    ensures DistinctFrom(p, i, eventId, l) <==>
            p.core.uuid.Some? && AllDifferent([p.core.uuid.value] + IdSeq(i) + [eventId, l.ledger, l.eventId])
  {
    hide AllDifferent, NoRepeat;
    if p.core.uuid.Some? {
      var ids := [p.core.uuid.value, i.jobId, i.admissionId, i.intentId, i.attemptId, i.reservationId, i.runId,
                  i.leaseId, eventId, l.ledger, l.eventId];
      assert [p.core.uuid.value] + IdSeq(i) + [eventId, l.ledger, l.eventId] == ids;
      RepeatExactly(ids);
    }
  }

  lemma HoldableExactly(p: Projection, jobId: Id, admissionId: Id)
    ensures RunHoldOk(p, jobId, admissionId) <==> Holdable(p, jobId, admissionId)
  {
    hide Members;
  }

  lemma ReattemptableExactly(p: Projection, i: Ids)
    ensures IntentOk(p, i) <==> Reattemptable(p, i)
  {
    hide Members, AllDifferent, Distinct;
    DistinctExactly(p, i);
    forall k | k in p.claims.intents
      ensures FreshIds(i) * FreshIds(p.claims.intents[k].ids) == {} <==>
              FreshIds(i) !! FreshIds(p.claims.intents[k].ids)
    {
      DisjointExactly(FreshIds(i), FreshIds(p.claims.intents[k].ids));
    }
  }

  lemma DisjointExactly(a: set<Id>, b: set<Id>)
    ensures a * b == {} <==> a !! b
  {
    assert forall x :: x in a * b <==> x in a && x in b;
  }

  lemma AttemptableExactly(p: Projection, i: Ids)
    requires H.Apart(p.claims)
    ensures InitialOk(p, i) <==> Attemptable(p, i)
  {
    hide Members, AllDifferent, Distinct, FreshIds;
    DistinctExactly(p, i);
  }

  lemma ReconfirmableExactly(p: Projection, intentId: Id, eventId: Id, l: LedgerRef)
    requires Sane(p)
    ensures ConfirmationOk(p, intentId, eventId, l) <==> Reconfirmable(p, intentId, eventId, l)
  {
    hide AllDifferent, DistinctFrom, O.Orderly, C.Chained, C.ThisBoot, C.CoreOk;
    if intentId in p.claims.intents {
      DistinctFromExactly(p, p.claims.intents[intentId].ids, eventId, l);
      NoFirst(p);
    }
  }

  /** Confirmations of first attempts need a first attempt. */
  lemma NoFirst(p: Projection)
    requires C.Whole(p)
    ensures p.claims.initials == map[] ==> p.claims.initialConfirmations == map[]
    ensures p.claims.intents == map[] ==> p.claims.confirmations == map[]
    ensures p.claims.initialConfirmations.Keys <= p.claims.initials.Keys
  {
    hide C.Intending, C.Launching, C.Attesting, C.Releasing, C.Released, C.Effecting, C.Receiving, C.Acting, C.Ending,
        C.Assessing, C.Reconciling, C.ThisBoot, C.CoreOk;
    var c, t := p.claims, C.TimeOf(p.core);
    forall k | k in c.initialConfirmations ensures k in c.initials {
      assert C.Matched(t, c.initials, k, c.initialConfirmations[k]);
    }
    forall k | k in c.confirmations ensures k in c.intents {
      assert C.Matched(t, c.intents, k, c.confirmations[k]);
    }
  }

  lemma ConfirmableExactly(p: Projection, intentId: Id, eventId: Id, l: LedgerRef)
    requires Sane(p)
    ensures InitialConfirmationOk(p, intentId, eventId, l) <==> Confirmable(p, intentId, eventId, l)
  {
    hide AllDifferent, DistinctFrom, C.Chained, C.ThisBoot, C.CoreOk, O.BeforeProcess, O.BeforeCleanup, O.Cleanup,
        O.Effects, O.Holdings, O.Attempts, O.Counterparts, O.Services;
    if intentId in p.claims.initials {
      var c := p.claims;
      DistinctFromExactly(p, c.initials[intentId].ids, eventId, l);
      NoFirst(p);
      OnlyOne(c.initials, intentId);
      assert c.intents == map[] && c.confirmations == map[];
      if intentId !in c.initialConfirmations { assert c.initialConfirmations.Keys == {}; }
    }
  }

  lemma OnlyOne<V>(m: map<Id, V>, k: Id)
    requires |m| <= 1 && k in m
    ensures m.Keys == {k}
  {
    assert |m.Keys| == |m|;
    assert m.Keys == {k} + (m.Keys - {k});
    assert |m.Keys - {k}| == |m.Keys| - 1;
  }

  // --- The run ----------------------------------------------------------------------------------------

  lemma ServicesExactly(services: seq<ServiceClaim>)
    ensures ServicesOk(services) <==> ServiceList(services)
  {
    var names := Journal.Names(services);
    assert |names| == |services| && forall i | 0 <= i < |services| :: names[i] == services[i].service;
  }

  lemma FirstConfirmed(p: Projection, intentId: Id)
    requires C.Whole(p) && p.core.head.Some? && intentId in p.claims.initialConfirmations
    ensures intentId in p.claims.initials
    ensures p.claims.initials[intentId].committed < p.claims.initialConfirmations[intentId].committed
    ensures p.claims.initialConfirmations[intentId].committed <= p.core.head.value.commitSeq
  {
    hide C.Reattempting, C.Intending, C.Launching, C.Attesting, C.Releasing, C.Released, C.Effecting, C.Receiving,
        C.Acting, C.Ending, C.Assessing, C.Reconciling, C.ThisBoot, C.CoreOk;
    var c := p.claims;
    assert C.Matched(C.TimeOf(p.core), c.initials, intentId, c.initialConfirmations[intentId]);
  }

  lemma RunnableExactly(p: Projection, eventId: Id, intentId: Id, sequence: int, digest: nat,
                        services: seq<ServiceClaim>)
    requires C.Whole(p) && p.core.head.Some?
    ensures RunIntentOk(p, p.core.head.value, eventId, intentId, sequence, digest, services) <==>
            Runnable(p, eventId, intentId, sequence, digest, services)
  {
    hide Members, KnownIds, Reserved, C.Whole, ServicesOk;
    ServicesExactly(services);
    ReservedExactly(p, eventId);
    forall i | 0 < i < |services|
      ensures services[i].leaseClaim in KnownIds(p) <==> Reserved(p, services[i].leaseClaim)
    {
      ReservedExactly(p, services[i].leaseClaim);
    }
    if intentId in p.claims.initialConfirmations { FirstConfirmed(p, intentId); }
  }

  /** What a run intent rests on. */
  lemma Intended(p: Projection)
    requires C.Whole(p) && p.core.head.Some? && p.claims.runIntent.Some?
    ensures var x, c := p.claims.runIntent.value, p.claims;
            && x.intent.ids.intentId in c.initials && c.initials[x.intent.ids.intentId] == x.intent
            && ServicesOk(x.services) && (Free(p) ==> p.core.bootStart <= x.committed)
  {
    hide C.Reattempting, C.Launching, C.Attesting, C.Releasing, C.Released, C.Effecting, C.Receiving, C.Acting,
        C.Ending, C.Assessing, C.Reconciling, C.CoreOk, ServicesOk;
    var c := p.claims;
    var k := c.runIntent.value.intent.ids.intentId;
    assert C.Matched(C.TimeOf(p.core), c.initials, k, c.initialConfirmations[k]);
  }

  lemma GrantsExactly(grants: seq<Grant>, services: seq<ServiceClaim>, mono: int)
    ensures GrantsOk(grants, services, mono) <==> GrantList(grants, services, mono)
  {
  }

  lemma LaunchableExactly(p: Projection, eventId: Id, stamp: Stamp, grants: seq<Grant>)
    requires C.Whole(p) && p.core.head.Some? && p.core.lastMono <= stamp.mono
    ensures LaunchOk(p, eventId, stamp, grants) <==> Launchable(p, eventId, stamp, grants)
  {
    hide Members, KnownIds, Reserved, C.Whole, GrantsOk, GrantList, ServicesOk;
    ReservedExactly(p, eventId);
    if p.claims.runIntent.Some? {
      Intended(p);
      GrantsExactly(grants, p.claims.runIntent.value.services, stamp.mono);
    }
  }

  /** What a launch rests on. */
  lemma Started(p: Projection)
    requires C.Whole(p) && p.core.head.Some? && p.claims.launch.Some?
    ensures var l, c := p.claims.launch.value, p.claims;
            && c.runIntent.Some? && l.runIntentId == c.runIntent.value.eventId
            && c.runIntent.value.committed < l.committed
            && l.work == l.origin + 270_000_000 && l.hard == l.origin + 300_000_000
            && GrantsOk(l.grants, c.runIntent.value.services, l.origin)
  {
    hide C.Reattempting, C.Reserving, C.Intending, C.Attesting, C.Releasing, C.Released, C.Effecting, C.Receiving,
        C.Acting, C.Ending, C.Assessing, C.Reconciling, C.CoreOk, C.ThisBoot, GrantsOk;
  }

  lemma WorkingExactly(p: Projection, stamp: Stamp)
    requires C.Whole(p) && p.core.head.Some? && p.core.boot == Some(stamp.boot) && p.core.lastMono <= stamp.mono
    ensures PreRelease(p, stamp) <==> Working(p, stamp)
  {
    hide Members, C.Whole, GrantsOk, ServicesOk;
    if p.claims.launch.Some? {
      Started(p);
      Intended(p);
    }
  }

  lemma ActivatedExactly(activated: seq<Activation>, grants: seq<Grant>, from: int, upTo: int)
    ensures ActivationsOk(activated, grants, from, upTo) <==> Activated(activated, grants, from, upTo)
  {
  }

  /** One boot from the launch to the observed release, each reading within the clock. */
  lemma OneBoot(p: Projection, stamp: Stamp)
    requires C.Whole(p) && p.core.head.Some? && p.core.boot == Some(stamp.boot) && p.core.lastMono <= stamp.mono
    ensures var c := p.claims;
            && (c.attestation.Some? ==> c.launch.Some? && c.attestation.value.boot == c.launch.value.boot)
            && (c.releaseIntent.Some? ==> c.attestation.Some? && c.releaseIntent.value.boot == c.attestation.value.boot)
            && (c.releaseObservation.Some? ==>
                  c.releaseIntent.Some? && c.releaseObservation.value.boot == c.releaseIntent.value.boot)
            && (c.releaseIntent.Some? && c.releaseIntent.value.boot == stamp.boot ==>
                  c.releaseIntent.value.intended <= stamp.mono)
            && (c.releaseObservation.Some? && c.releaseObservation.value.boot == stamp.boot ==>
                  c.releaseObservation.value.observed <= stamp.mono)
  {
    hide C.Reattempting, C.Reserving, C.Intending, C.Launching, C.Effecting, C.Receiving, C.Acting, C.Ending,
        C.Assessing, C.Reconciling, C.CoreOk, C.ThisBoot, ActivationsOk;
  }

  lemma ReleasableExactly(p: Projection, eventId: Id, stamp: Stamp, activated: seq<Activation>)
    requires C.Whole(p) && p.core.head.Some? && p.core.boot == Some(stamp.boot) && p.core.lastMono <= stamp.mono
    ensures ReleaseIntentOk(p, eventId, stamp, activated) <==> Releasable(p, eventId, stamp, activated)
  {
    hide PreRelease, Working, C.Whole, Unused, New, ActivationsOk, Activated;
    WorkingExactly(p, stamp);
    WorkingLaunched(p, stamp);
    NewExactly(p, eventId);
    OneBoot(p, stamp);
    if p.claims.attestation.Some? && p.claims.launch.Some? {
      ActivatedExactly(activated, p.claims.launch.value.grants, p.claims.attestation.value.observed, stamp.mono);
    }
  }

  lemma WorkingLaunched(p: Projection, stamp: Stamp)
    ensures Working(p, stamp) ==> p.claims.launch.Some? && p.claims.launch.value.boot == stamp.boot
  {
    hide Undisturbed;
  }

  lemma ObservableExactly(p: Projection, eventId: Id, stamp: Stamp)
    requires C.Whole(p) && p.core.head.Some? && p.core.boot == Some(stamp.boot) && p.core.lastMono <= stamp.mono
    ensures ReleaseObservationOk(p, eventId, stamp) <==> Observable(p, eventId, stamp)
  {
    hide C.Whole, Unused, New;
    NewExactly(p, eventId);
    OneBoot(p, stamp);
  }

  // --- Effects and cleanup -------------------------------------------------------------------------------

  lemma ServesExactly(service: Service, route: Route)
    ensures RouteService(route) == service <==> Serves(service, route)
  {
  }

  /** Services appear once, so the first grant of a service is its only one. */
  lemma GrantedExactly(grants: seq<Grant>, services: seq<ServiceClaim>, mono: int, service: Service, grantId: Id,
                       scope: nat, expires: int)
    requires GrantList(grants, services, mono) && ServiceList(services)
    ensures GrantFor(grants, service, grantId, scope, expires) <==> Granted(grants, service, grantId, scope, expires)
  {
    forall i, j | 0 <= i < j < |grants| ensures grants[i].claim.service != grants[j].claim.service {
      assert grants[i].claim == services[i] && grants[j].claim == services[j];
    }
  }

  lemma LaunchGrants(p: Projection)
    requires C.Whole(p) && p.core.head.Some? && p.claims.launch.Some?
    ensures p.claims.runIntent.Some? && ServiceList(p.claims.runIntent.value.services)
    ensures GrantList(p.claims.launch.value.grants, p.claims.runIntent.value.services, p.claims.launch.value.origin)
  {
    hide C.Whole, GrantsOk, GrantList, ServicesOk, ServiceList;
    Started(p);
    Intended(p);
    ServicesExactly(p.claims.runIntent.value.services);
    GrantsExactly(p.claims.launch.value.grants, p.claims.runIntent.value.services, p.claims.launch.value.origin);
  }

  lemma EffectableExactly(p: Projection, eventId: Id, stamp: Stamp, operationId: Id, service: Service, route: Route,
                          grantId: Id, scope: nat, flight: Id, receiptId: Id, expires: int)
    requires C.Whole(p) && p.core.head.Some? && p.core.boot == Some(stamp.boot) && p.core.lastMono <= stamp.mono
    ensures EffectOk(p, eventId, stamp, operationId, service, route, grantId, scope, flight, receiptId, expires) <==>
            Effectable(p, eventId, stamp, operationId, service, route, grantId, scope, flight, receiptId, expires)
  {
    hide PreRelease, Working, C.Whole, Unused, New, GrantFor, Granted, GrantList, ServiceList, RouteService, Serves;
    WorkingExactly(p, stamp);
    WorkingLaunched(p, stamp);
    NewExactly(p, eventId);
    NewExactly(p, operationId);
    OneBoot(p, stamp);
    ServesExactly(service, route);
    if p.claims.launch.Some? {
      Started(p);
      LaunchGrants(p);
      var l := p.claims.launch.value;
      GrantedExactly(l.grants, p.claims.runIntent.value.services, l.origin, service, grantId, scope, expires);
    }
  }

  lemma EffectThen(p: Projection, stamp: Stamp, k: Id)
    requires C.Whole(p) && p.core.head.Some? && p.core.boot == Some(stamp.boot) && p.core.lastMono <= stamp.mono
    requires k in p.claims.effects
    ensures p.claims.launch.Some? && p.claims.effects[k].boot == p.claims.launch.value.boot
    ensures p.claims.effects[k].boot == stamp.boot ==> p.claims.effects[k].observed <= stamp.mono
  {
    hide C.Reattempting, C.Reserving, C.Intending, C.Launching, C.Attesting, C.Releasing, C.Released, C.Receiving,
        C.Acting, C.Ending, C.Assessing, C.Reconciling, C.CoreOk, C.ThisBoot, GrantFor, RouteService;
    assert C.InWindow(C.TimeOf(p.core), p.claims.launch, p.claims.releaseObservation, k, p.claims.effects[k]);
  }

  lemma ReceivableExactly(p: Projection, eventId: Id, stamp: Stamp, operationId: Id, state: R.DispatchState,
                          reason: R.Reason)
    requires C.Whole(p) && p.core.head.Some? && p.core.boot == Some(stamp.boot) && p.core.lastMono <= stamp.mono
    ensures EffectReceiptOk(p, eventId, stamp, operationId, state, reason) <==>
            Receivable(p, eventId, stamp, operationId, state, reason)
  {
    hide C.Whole, Unused, New, R.ClientFor;
    NewExactly(p, eventId);
    if operationId in p.claims.effects { EffectThen(p, stamp, operationId); }
  }

  function GrantIds(grants: seq<Grant>): set<Id> { set g | g in grants :: g.grantId }

  lemma OneMoreGrant(grants: seq<Grant>, last: Grant)
    requires forall i | 0 <= i < |grants| :: grants[i].grantId != last.grantId
    ensures GrantIds(grants + [last]) == GrantIds(grants) + {last.grantId} && last.grantId !in GrantIds(grants)
  {
    assert forall g :: g in grants + [last] <==> g in grants || g == last;
    forall g | g in grants ensures g.grantId != last.grantId {
      var i :| 0 <= i < |grants| && grants[i] == g;
    }
  }

  lemma {:induction false} GrantCount(grants: seq<Grant>)
    requires forall i, j | 0 <= i < j < |grants| :: grants[i].grantId != grants[j].grantId
    ensures |GrantIds(grants)| == |grants|
  {
    if grants != [] {
      hide GrantIds;
      var n := |grants| - 1;
      GrantCount(grants[..n]);
      OneMoreGrant(grants[..n], grants[n]);
      assert grants == grants[..n] + [grants[n]];
    }
  }

  lemma RevokedExactly(c: Claims, id: Id)
    ensures id in Revoked(c) <==> RevokedBy(c, id)
  {
  }

  /** All grants are revoked exactly when as many are as were given. */
  lemma AllRevoked(p: Projection)
    requires Sane(p) && p.core.head.Some? && p.claims.launch.Some?
    ensures var c := p.claims;
            (forall g | g in c.launch.value.grants :: RevokedBy(c, g.grantId)) <==>
            && |Revoked(c)| == |c.launch.value.grants|
            && (forall g | g in c.launch.value.grants :: g.grantId in Revoked(c))
  {
    hide C.Whole, O.BeforeProcess, O.BeforeCleanup, O.Effects, O.Sizes, O.Holdings, O.Attempts, O.Counterparts,
        O.Services, O.InTurn, RevokedBy, Revoked;
    var c := p.claims;
    var grants := c.launch.value.grants;
    LaunchGrants(p);
    GrantCount(grants);
    forall g | g in grants ensures RevokedBy(c, g.grantId) <==> g.grantId in Revoked(c) {
      RevokedExactly(c, g.grantId);
    }
    if forall g | g in grants :: g.grantId in Revoked(c) {
      RevokedAreGrants(p);
      assert forall id | id in GrantIds(grants) :: id in Revoked(c);
      assert Revoked(c) == GrantIds(grants);
    }
  }

  lemma RevokedAreGrants(p: Projection)
    requires O.Orderly(p.claims) && p.claims.launch.Some?
    ensures Revoked(p.claims) <= GrantIds(p.claims.launch.value.grants)
  {
    hide O.BeforeProcess, O.BeforeCleanup, O.Effects, O.Sizes, O.Holdings, O.Attempts, O.Counterparts, O.Services,
        O.InTurn;
    var c := p.claims;
    forall k | k in c.actions && c.actions[k].kind.RevokeGrant? && c.actions[k].grant.Some?
      ensures c.actions[k].grant.value.1 in GrantIds(c.launch.value.grants)
    {
      assert O.WellAimed(c.launch, c.attestation, c.actions[k]);
    }
  }

  lemma ActionableExactly(p: Projection, eventId: Id, stamp: Stamp, actionId: Id, kind: ActionKind,
                          grant: Option<(Service, Id)>)
    requires Sane(p) && p.core.head.Some? && p.core.lastMono <= stamp.mono
    ensures ActionOk(p, eventId, stamp, actionId, kind, grant) <==>
            Actionable(p, eventId, stamp, actionId, kind, grant)
  {
    hide C.Whole, O.Orderly, H.Apart, Unused, New, Revoked, RevokedBy;
    NewExactly(p, eventId);
    NewExactly(p, actionId);
    if p.claims.launch.Some? {
      hide GrantsOk;
      Started(p);
      AllRevoked(p);
      if grant.Some? { RevokedExactly(p.claims, grant.value.1); }
    }
  }

  lemma OutcomeExactly(kind: ActionKind, outcome: ActionOutcome)
    ensures OutcomeOf(kind, outcome) <==> Outcome(kind, outcome)
  {
  }

  lemma EndableExactly(p: Projection, eventId: Id, stamp: Stamp, actionId: Id, outcome: ActionOutcome)
    requires p.core.lastMono <= stamp.mono
    ensures ActionResultOk(p, eventId, stamp, actionId, outcome) <==> Endable(p, eventId, stamp, actionId, outcome)
  {
    hide Unused, New, OutcomeOf, Outcome;
    NewExactly(p, eventId);
    if actionId in p.claims.actions { OutcomeExactly(p.claims.actions[actionId].kind, outcome); }
  }

  lemma FollowingExactly(p: Projection, eventId: Id, stamp: Stamp)
    requires p.core.lastMono <= stamp.mono
    ensures ExecutionBase(p, eventId, stamp) <==> Following(p, eventId, stamp)
  {
    hide Unused, New;
    NewExactly(p, eventId);
  }

  lemma ReadBackableExactly(p: Projection, eventId: Id, stamp: Stamp, operationId: Id, reported: Reported,
                            version: Option<nat>)
    requires C.Whole(p) && p.core.head.Some? && p.core.boot == Some(stamp.boot) && p.core.lastMono <= stamp.mono
    ensures ReconciledOk(p, eventId, stamp, operationId, reported, version) <==>
            ReadBackable(p, eventId, stamp, operationId, reported, version)
    ensures RestartReconciledOk(p, eventId, stamp, operationId, reported, version) <==>
            ReadBackableLater(p, eventId, stamp, operationId, reported, version)
  {
    hide C.Whole, Unused, New;
    NewExactly(p, eventId);
    if operationId in p.claims.effects { EffectThen(p, stamp, operationId); }
  }

  // --- All of them ----------------------------------------------------------------------------------------

  lemma AttemptExactly(p: Projection, head: Head, r: Record)
    requires Sane(p)
    requires r.content.RunHoldSet? || r.content.ReservationIntent? || r.content.InitialIntent?
        || r.content.Confirmation? || r.content.InitialConfirmation?
    ensures Guard(p, head, r) <==> Fitting(p, r)
  {
    hide C.Whole, O.Orderly, RunHoldOk, Holdable, IntentOk, Reattemptable, InitialOk, Attemptable, ConfirmationOk,
        Reconfirmable, InitialConfirmationOk, Confirmable;
    match r.content
    case RunHoldSet(job, admission) => HoldableExactly(p, job, admission);
    case ReservationIntent(ids) => ReattemptableExactly(p, ids);
    case InitialIntent(ids) => AttemptableExactly(p, ids);
    case Confirmation(id, l) => ReconfirmableExactly(p, id, r.eventId, l);
    case InitialConfirmation(id, l) => ConfirmableExactly(p, id, r.eventId, l);
  }

  lemma StageExactly(p: Projection, r: Record)
    requires Sane(p) && p.core.head.Some? && p.core.boot == Some(r.stamp.boot) && p.core.lastMono <= r.stamp.mono
    requires r.content.RunIntended? || r.content.LaunchClaimed? || r.content.Attested? || r.content.ReleaseIntended?
        || r.content.ReleaseObserved?
    ensures Guard(p, p.core.head.value, r) <==> Fitting(p, r)
  {
    hide C.Whole, O.Orderly, H.Apart, RunIntentOk, Runnable, LaunchOk, Launchable, PreRelease, Working, ReleaseIntentOk,
        Releasable, ReleaseObservationOk, Observable, Unused, New;
    match r.content
    case RunIntended(id, sequence, digest, services) =>
      RunnableExactly(p, r.eventId, id, sequence, digest, services);
    case LaunchClaimed(_, _, grants) => LaunchableExactly(p, r.eventId, r.stamp, grants);
    case Attested(_) =>
      WorkingExactly(p, r.stamp);
      NewExactly(p, r.eventId);
    case ReleaseIntended(activated) => ReleasableExactly(p, r.eventId, r.stamp, activated);
    case ReleaseObserved(_) => ObservableExactly(p, r.eventId, r.stamp);
  }

  lemma OperationExactly(p: Projection, r: Record)
    requires Sane(p) && p.core.head.Some? && p.core.boot == Some(r.stamp.boot) && p.core.lastMono <= r.stamp.mono
    requires r.content.EffectIntended? || r.content.EffectReceived? || r.content.ActionIntended?
        || r.content.ActionEnded? || r.content.Reconciled? || r.content.RestartReconciled?
    ensures Guard(p, p.core.head.value, r) <==> Fitting(p, r)
  {
    hide C.Whole, O.Orderly, H.Apart, EffectOk, Effectable, EffectReceiptOk, Receivable, ActionOk, Actionable,
        ActionResultOk, Endable, ReconciledOk, ReadBackable, RestartReconciledOk, ReadBackableLater;
    match r.content
    case EffectIntended(op, service, route, grantId, scope, flight, receipt, _, _, expires) =>
      EffectableExactly(p, r.eventId, r.stamp, op, service, route, grantId, scope, flight, receipt, expires);
    case EffectReceived(op, state, reason, _) => ReceivableExactly(p, r.eventId, r.stamp, op, state, reason);
    case ActionIntended(action, kind, grant) => ActionableExactly(p, r.eventId, r.stamp, action, kind, grant);
    case ActionEnded(action, outcome) => EndableExactly(p, r.eventId, r.stamp, action, outcome);
    case Reconciled(op, reported, version) => ReadBackableExactly(p, r.eventId, r.stamp, op, reported, version);
    case RestartReconciled(op, reported, version) => ReadBackableExactly(p, r.eventId, r.stamp, op, reported, version);
  }

  lemma Observed(p: Projection)
    requires C.Whole(p)
    ensures var c := p.claims;
            && (c.process.Some? ==> c.launch.Some? && c.process.value.boot == c.launch.value.boot)
            && (c.terminal.Some? ==> c.process.Some? && c.terminal.value.boot == c.process.value.boot)
  {
    hide C.Reattempting, C.Reserving, C.Intending, C.Launching, C.Attesting, C.Releasing, C.Released, C.Effecting,
        C.Receiving, C.Acting, C.Ending, C.Reconciling, C.CoreOk, C.ThisBoot;
  }

  lemma AftermathExactly(p: Projection, r: Record)
    requires Sane(p) && p.core.head.Some? && p.core.lastMono <= r.stamp.mono
    requires r.content.ProcessObserved? || r.content.TerminalObserved? || r.content.ExecutionAssessed?
    ensures Guard(p, p.core.head.value, r) <==> Fitting(p, r)
  {
    hide C.Whole, O.Orderly, H.Apart, ExecutionBase, Following;
    FollowingExactly(p, r.eventId, r.stamp);
    FollowsLaunch(p, r.eventId, r.stamp);
    Observed(p);
  }

  lemma FollowsLaunch(p: Projection, eventId: Id, stamp: Stamp)
    ensures Following(p, eventId, stamp) ==> p.claims.launch.Some? && p.claims.launch.value.boot == stamp.boot
  {
    hide New;
  }

  /** The guard of a claim, in the running boot and not before its clock, is met in a reachable journal
      exactly when the claim fits: the rest of what the code compares follows from the journal's past. */
  lemma GuardExactly(p: Projection, r: Record)
    requires Sane(p) && p.core.head.Some? && p.core.boot == Some(r.stamp.boot) && p.core.lastMono <= r.stamp.mono
    ensures Guard(p, p.core.head.value, r) <==> Fitting(p, r)
  {
    hide Sane, RunHoldOk, IntentOk, InitialOk, ConfirmationOk, InitialConfirmationOk, RunIntentOk, LaunchOk,
        AttestationOk, ReleaseIntentOk, ReleaseObservationOk, EffectOk, EffectReceiptOk, ActionOk, ActionResultOk,
        ExecutionBase, ReconciledOk, RestartReconciledOk, Holdable, Reattemptable, Attemptable, Reconfirmable,
        Confirmable, Runnable, Launchable, Working, Releasable, Observable, Effectable, Receivable, Actionable,
        Endable, Following, ReadBackable, ReadBackableLater, New;
    var k := r.content;
    if k.RunHoldSet? || k.ReservationIntent? || k.InitialIntent? || k.Confirmation? || k.InitialConfirmation? {
      AttemptExactly(p, p.core.head.value, r);
    } else if k.RunIntended? || k.LaunchClaimed? || k.Attested? || k.ReleaseIntended? || k.ReleaseObserved? {
      StageExactly(p, r);
    } else if k.EffectIntended? || k.EffectReceived? || k.ActionIntended? || k.ActionEnded? || k.Reconciled?
           || k.RestartReconciled? {
      OperationExactly(p, r);
    } else if k.ProcessObserved? || k.TerminalObserved? || k.ExecutionAssessed? {
      AftermathExactly(p, r);
    }
  }

  /** The size a record of a kind may have, where it has its own. */
  predicate Small(c: Content, size: nat) {
    && (c.RunHoldSet? || c.ReleaseObserved? || c.EffectReceived? ==> size <= 2_048)
    && (c.ActionEnded? || c.ExecutionAssessed? || c.Reconciled? ==> size <= 2_048)
    && (c.RestartReconciled? ==> size <= 3_072)
    && (c.RunIntended? || c.Attested? || c.ReleaseIntended? || c.EffectIntended? ==> size <= 4_096)
    && (c.ActionIntended? || c.ProcessObserved? || c.TerminalObserved? ==> size <= 4_096)
    && (c.LaunchClaimed? ==> size <= 6_144)
  }

  /** The steps that advance a run leave the reserve to the others. */
  function Room(p: Projection, c: Content): int {
    if c.InitialIntent? || c.RunIntended? || c.LaunchClaimed? || c.Attested? || c.ReleaseIntended? || c.EffectIntended?
    then p.core.bounds.ordinary else p.core.bounds.total
  }

  /** A record stands next: in number, chain, generation, boot and time. */
  predicate Next(p: Projection, r: Record) {
    && p.core.head.Some? && r.position.commitIndex == 0 && r.position.commitSize == 1
    && r.position.commitSeq == p.core.head.value.commitSeq + 1
    && r.position.eventSeq == p.core.head.value.eventSeq + 1
    && r.position.prev == p.core.head.value.digest && r.position.generation == GenerationOf(p.core)
    && p.core.boot == Some(r.stamp.boot) && p.core.lastMono <= r.stamp.mono
  }

  lemma SmallExactly(p: Projection, r: Record)
    requires W.IsClaim(r.content)
    ensures Small(r.content, r.bodyLen) <==> (BodyCap(r.content).Some? ==> r.bodyLen <= BodyCap(r.content).value)
    ensures Room(p, r.content) == if Ordinary(r.content) then p.core.bounds.ordinary else p.core.bounds.total
  {
  }

  /** Every reachable journal accepts a claim exactly when it stands next, fits, and there is room for it. */
  lemma AcceptedExactly(commits: seq<seq<Record>>, r: Record)
    requires Accepted(EMPTY, commits) && W.IsClaim(r.content)
    ensures var p := Fold(EMPTY, commits);
            Accepts(p, [r]) <==>
            && Next(p, r) && Fitting(p, r) && Small(r.content, r.bodyLen)
            && p.core.bytes + r.bodyLen + 384 <= Room(p, r.content)
  {
    hide Accepted, Fold, Accepts, Sane, Guard, Fitting, Small, Room, BodyCap, Ordinary;
    var p := Fold(EMPTY, commits);
    W.ClaimExactly(p, r);
    SmallExactly(p, r);
    Reaches(commits);
    if Next(p, r) { GuardExactly(p, r); }
  }
}
