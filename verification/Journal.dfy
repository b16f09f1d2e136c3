/** The recovery journal: its records, the projection they fold into, and the re-derivation that
    every commit must pass. */
module Journal {
  import opened Text
  import R = Receipts

  type Id = nat

  type Fingerprint = nat

  const OVERHEAD: nat := 384
  const MAX_SEQ: int := 0x1F_FFFF_FFFF_FFFF
  const MAX_REFUSALS: nat := 256
  const RESOLVED_RESERVE: nat := 64
  const MAX_RUN_HOLDS: nat := 1024
  const MAX_RESERVATION_CLAIMS: nat := 256
  const MAX_EFFECTS: nat := 64
  const MAX_RECONCILIATIONS: nat := 4
  const WORK: int := 270_000_000
  const FLUSH: int := 290_000_000
  const HARD: int := 300_000_000

  // --- Records --------------------------------------------------------------------------------

  datatype Bounds = Bounds(maxAdmissions: int, maxPending: int, ordinary: int, total: int)

  datatype Status = Firing | Resolved

  datatype Alert = Alert(status: Status, values: Option<nat>, startsAt: Option<nat>)

  /** The sanitized source of one admission: its group, its alerts, and how many were cut off. */
  datatype Source = Source(group: Id, alerts: map<Fingerprint, Alert>, truncated: Option<nat>, bodyDigest: nat)

  datatype Row = Row(status: Status, values: Option<nat>)

  /** A digest names exactly one record; records therefore carry their whole past. */
  datatype Digest = Zero | Of(record: Record)

  datatype Head = Head(generation: nat, commitSeq: nat, eventSeq: nat, digest: Digest)

  datatype Stamp = Stamp(boot: Id, wall: nat, mono: int)

  datatype Position = Position(generation: nat, eventSeq: nat, commitSeq: nat, commitIndex: nat, commitSize: nat,
                               prev: Digest)

  /** `bodyLen` is the length of the record's canonical body. */
  datatype Record = Record(eventId: Id, position: Position, stamp: Stamp, bodyLen: nat, content: Content)

  datatype HoldCode = AdmissionsFull | PendingFull | BytesFull | RestartRecovery

  datatype DedupeResult = Suppressed | PendingReduced | Fresh

  datatype Baseline = Baseline(admissionId: Id, key: map<Fingerprint, Row>, complete: bool)

  /** A refused request, without its body; `resolved` decides whether the reserve may be used. */
  datatype Summary = Summary(fields: nat, resolved: Option<int>, bodyDigest: nat)

  datatype RefusalKey = RefusalKey(fields: nat, resolved: Option<int>)

  datatype Ids = Ids(jobId: Id, admissionId: Id, intentId: Id, attemptId: Id, reservationId: Id, runId: Id, leaseId: Id)

  datatype LedgerRef = LedgerRef(ledger: Id, generation: nat, eventId: Id, sequence: int, digest: nat)

  datatype Service = Anthropic | Confluence | Grafana | Jira | Kubernetes

  datatype ServiceClaim = ServiceClaim(service: Service, leaseClaim: Id, scope: nat)

  datatype Grant = Grant(claim: ServiceClaim, grantId: Id, expiry: int)

  datatype Activation = Activation(service: Service, grantId: Id, digest: nat, at: int)

  datatype Route =
    | AnthropicMessages | DraftCreate | DraftRead | DraftUpdate | ReferenceRead
    | ChangeQuery | TelemetryQuery | GrafanaHealth | LogsRange | MetricsInstant | MetricsRange | TraceGet | TracesSearch
    | CommentAdd | CommentGet | CommentsList | IssueCreate | IssueGet | IssueUpdate | JiraSearch | JiraTransition
    | PodEvents | PodList | PodStatus | ServiceEndpoints

  datatype ReadBack = IssueReadBack | CommentReadBack

  datatype ActionKind = RevokeGrant | SignalInterrupt | SignalKill

  datatype ActionOutcome = Acknowledged | Requested | ActionFailed | ActionUnknown

  datatype Reported = Confirmed | Conflict | Absent | Unavailable

  /** What a record says. For the claim families only the inputs are kept: everything else in the
      record is recomputed from the projection and compared. */
  datatype Content =
    | Genesis(uuid: Id, bounds: Bounds)
    | Restart(previousBoot: Option<Id>, recovered: Option<Head>)
    | Admission(admissionId: Id, arrivalSeq: nat, held: bool, holds: set<HoldCode>, source: Source)
    | Dedupe(admissionId: Id, result: DedupeResult, group: Id, key: map<Fingerprint, Row>, before: Option<Baseline>,
             after: Baseline, superseded: map<Fingerprint, Id>, pendingAfter: int)
    | CapacityHold(code: HoldCode, limit: int, observed: int, requested: int)
    | IngressRefusal(summary: Summary, refusalKey: RefusalKey, refusalSeq: nat)
    | OperatorResume(hold: HoldCode, since: nat, inspected: Head, pending: map<Fingerprint, Pending>)
    | RunHoldSet(jobId: Id, admissionId: Id)
    | ReservationIntent(ids: Ids)
    | InitialIntent(ids: Ids)
    | Confirmation(intentId: Id, ledger: LedgerRef)
    | InitialConfirmation(intentId: Id, ledger: LedgerRef)
    | RunIntended(intentId: Id, headSequence: int, headDigest: nat, services: seq<ServiceClaim>)
    | LaunchClaimed(forwarder: Id, barrier: nat, grants: seq<Grant>)
    | Attested(seen: nat)
    | ReleaseIntended(activated: seq<Activation>)
    | ReleaseObserved(ack: nat)
    | EffectIntended(operationId: Id, service: Service, route: Route, grantId: Id, scope: nat, flight: Id,
                     receiptId: Id,
                     request: nat, target: nat, expires: int)
    | EffectReceived(operationId: Id, state: R.DispatchState, reason: R.Reason, digest: nat)
    | ActionIntended(actionId: Id, kind: ActionKind, grant: Option<(Service, Id)>)
    | ActionEnded(actionId: Id, outcome: ActionOutcome)
    | ProcessObserved(failedBeforeProcess: bool, facts: nat)
    | TerminalObserved(facts: nat)
    | ExecutionAssessed
    | Reconciled(operationId: Id, reported: Reported, version: Option<nat>)
    | RestartReconciled(operationId: Id, reported: Reported, version: Option<nat>)

  // --- The projection -----------------------------------------------------------------------------

  datatype Pending = Pending(admissionId: Id, arrivalSeq: nat, group: Id, status: Status, values: Option<nat>)

  datatype RunHold = RunHold(admissionId: Id, since: nat, members: set<Fingerprint>)

  datatype Intent = Intent(ids: Ids, members: set<Fingerprint>, committed: nat)

  datatype Counterpart = Counterpart(intentId: Id, eventId: Id, ledger: LedgerRef, committed: nat)

  datatype RunIntent = RunIntent(eventId: Id, intent: Intent, services: seq<ServiceClaim>, committed: nat)

  datatype Launch = Launch(eventId: Id, runIntentId: Id, boot: Id, origin: int, work: int, flush: int, hard: int,
                           grants: seq<Grant>, committed: nat)

  datatype Attestation = Attestation(eventId: Id, boot: Id, observed: int, committed: nat)

  datatype ReleaseIntent = ReleaseIntent(eventId: Id, boot: Id, intended: int, activated: seq<Activation>,
                                         committed: nat)

  datatype ReleaseObservation = ReleaseObservation(eventId: Id, boot: Id, observed: int, committed: nat)

  datatype Effect = Effect(eventId: Id, operationId: Id, boot: Id, service: Service, route: Route, grantId: Id,
                           scope: nat, flight: Id, receiptId: Id,
                           observed: int, expires: int, committed: nat)

  datatype EffectReceipt = EffectReceipt(eventId: Id, operationId: Id, observed: int, committed: nat)

  datatype Action = Action(eventId: Id, actionId: Id, kind: ActionKind, grant: Option<(Service, Id)>, observed: int,
                           committed: nat)

  datatype ActionResult = ActionResult(eventId: Id, actionId: Id, observed: int, committed: nat)

  datatype Observation = Observation(eventId: Id, boot: Id, observed: int, committed: nat)

  datatype Reconciliation = Reconciliation(eventId: Id, operationId: Id, boot: Id, index: nat, observed: int,
                                           committed: nat)

  /** Position, boot and size of the journal. */
  datatype Core = Core(
    uuid: Option<Id>, generation: nat, bounds: Bounds, head: Option<Head>, boot: Option<Id>, lastMono: int,
        seenBoots: set<Id>,
    bytes: int, bootStart: nat, recovered: Option<Head>)

  /** Admissions, holds and refusals. */
  datatype Front = Front(
    admissions: nat, lastArrival: nat, baselines: map<Id, Baseline>, pending: map<Fingerprint, Pending>,
        holds: map<HoldCode, nat>,
    refusalKeys: set<RefusalKey>, refusals: nat, unreserved: nat, resumes: nat)

  /** The append-only claim families. */
  datatype Claims = Claims(
    runHolds: map<Id, RunHold>, intents: map<Id, Intent>, confirmations: map<Id, Counterpart>,
    initials: map<Id, Intent>, initialConfirmations: map<Id, Counterpart>,
    runIntent: Option<RunIntent>, launch: Option<Launch>, attestation: Option<Attestation>,
    releaseIntent: Option<ReleaseIntent>, releaseObservation: Option<ReleaseObservation>,
    effects: map<Id, Effect>, effectReceipts: map<Id, EffectReceipt>,
    actions: map<Id, Action>, actionResults: map<Id, ActionResult>,
    process: Option<Observation>, terminal: Option<Observation>, assessment: Option<Observation>,
    reconciliations: map<Id, seq<Reconciliation>>, restartReconciliations: map<Id, seq<Reconciliation>>)

  datatype Projection = Projection(core: Core, front: Front, claims: Claims)

  datatype Claim =
    | AddRunHold(job: Id, runHold: RunHold)
    | AddIntent(intent: Intent)
    | AddInitial(initial: Intent)
    | AddConfirmation(confirmation: Counterpart)
    | AddInitialConfirmation(initialConfirmation: Counterpart)
    | AddRunIntent(runIntent: RunIntent)
    | AddLaunch(launch: Launch)
    | AddAttestation(attestation: Attestation)
    | AddReleaseIntent(releaseIntent: ReleaseIntent)
    | AddReleaseObservation(releaseObservation: ReleaseObservation)
    | AddEffect(effect: Effect)
    | AddEffectReceipt(effectReceipt: EffectReceipt)
    | AddAction(action: Action)
    | AddActionResult(actionResult: ActionResult)
    | AddProcess(process: Observation)
    | AddTerminal(terminal: Observation)
    | AddAssessment(assessment: Observation)
    | AddReconciliation(reconciliation: Reconciliation)
    | AddRestartReconciliation(restartReconciliation: Reconciliation)

  const NO_CLAIMS: Claims := Claims(map[], map[], map[], map[], map[], None, None, None, None, None, map[], map[],
                                    map[], map[], None, None, None, map[], map[])

  const EMPTY: Projection := Projection(
    Core(None, 0, Bounds(0, 0, 0, 0), None, None, 0, {}, 0, 0, None),
    Front(0, 0, map[], map[], map[], {}, 0, 0, 0),
    NO_CLAIMS)

  /** Whether any claim family has been entered. */
  predicate Outstanding(c: Claims) { c != NO_CLAIMS }

  // --- Admissions ------------------------------------------------------------------------------------

  /** The dedupe key is injective on the rows it covers. */
  function Rows(s: Source): map<Fingerprint, Row> {
    map fp | fp in s.alerts :: Row(s.alerts[fp].status, s.alerts[fp].values)
  }

  predicate Complete(s: Source) { s.truncated == Some(0) }

  datatype Decision = Decision(result: DedupeResult, before: Option<Baseline>, after: Baseline,
                               superseded: map<Fingerprint, Id>)

  function BaselineOf(f: Front, group: Id): Option<Baseline> {
    if group in f.baselines then Some(f.baselines[group]) else None
  }

  predicate Repeats(f: Front, s: Source) {
    Complete(s) && s.group in f.baselines && f.baselines[s.group].complete && f.baselines[s.group].key == Rows(s)
  }

  /** A complete source equal to its group's complete baseline is suppressed, taking back what
      another group has claimed since; anything else becomes the new baseline. */
  function Decide(f: Front, s: Source, admissionId: Id): Decision {
    if Repeats(f, s) then
      Decision(Suppressed, Some(f.baselines[s.group]), f.baselines[s.group],
               map fp | fp in s.alerts && fp in f.pending && f.pending[fp].group != s.group ::
                   f.pending[fp].admissionId)
    else
      var superseded := map fp | fp in s.alerts && fp in f.pending :: f.pending[fp].admissionId;
      Decision(if superseded != map[] then PendingReduced else Fresh, BaselineOf(f, s.group),
               Baseline(admissionId, Rows(s), Complete(s)), superseded)
  }

  function Updates(s: Source, d: Decision, admissionId: Id, arrivalSeq: nat): map<Fingerprint, Pending> {
    map fp | fp in s.alerts && (d.result.Suppressed? ==> fp in d.superseded) ::
      Pending(admissionId, arrivalSeq, s.group, s.alerts[fp].status, s.alerts[fp].values)
  }

  function NewPending(s: Source, d: Decision): int {
    if d.result.Suppressed? then 0 else |s.alerts| - |d.superseded|
  }

  // --- Ids and members ---------------------------------------------------------------------------------

  function Members(f: Front, admissionId: Id): set<Fingerprint> {
    set fp | fp in f.pending && f.pending[fp].admissionId == admissionId
  }

  function IdSeq(i: Ids): seq<Id> { [i.jobId, i.admissionId, i.intentId, i.attemptId, i.reservationId, i.runId,
                                     i.leaseId] }

  predicate AllDifferent(ids: seq<Id>) { forall i, j | 0 <= i < j < |ids| :: ids[i] != ids[j] }

  function IntentIds(m: map<Id, Intent>): set<Id> { set k, id | k in m && id in IdSeq(m[k].ids) :: id }

  function ConfirmedIds(m: map<Id, Counterpart>): set<Id> {
    (set k | k in m :: m[k].eventId) + (set k | k in m :: m[k].ledger.ledger) + (set k | k in m :: m[k].ledger.eventId)
  }

  /** Identities that no run event or service claim may reuse. */
  function KnownIds(p: Projection): set<Id> {
    var c := p.claims;
    (if p.core.uuid.Some? then {p.core.uuid.value} else {}) + c.runHolds.Keys
        + (set j | j in c.runHolds :: c.runHolds[j].admissionId)
    + IntentIds(c.intents) + IntentIds(c.initials) + ConfirmedIds(c.confirmations)
        + ConfirmedIds(c.initialConfirmations)
  }

  function EventOf(o: Option<Observation>): set<Id> { if o.Some? then {o.value.eventId} else {} }

  function ChainIds(c: Claims): set<Id> {
    (if c.runIntent.Some? then {c.runIntent.value.eventId} + set s | s in c.runIntent.value.services ::
     s.leaseClaim else {})
    + (if c.launch.Some? then {c.launch.value.eventId} + set g | g in c.launch.value.grants :: g.grantId else {})
    + (if c.attestation.Some? then {c.attestation.value.eventId} else {})
    + (if c.releaseIntent.Some? then {c.releaseIntent.value.eventId} else {})
    + (if c.releaseObservation.Some? then {c.releaseObservation.value.eventId} else {})
    + EventOf(c.process) + EventOf(c.terminal) + EventOf(c.assessment)
  }

  function FamilyIds(c: Claims): set<Id> {
    c.effects.Keys + (set k | k in c.effects :: c.effects[k].eventId) + (set k | k in c.effectReceipts ::
          c.effectReceipts[k].eventId)
    + c.actions.Keys + (set k | k in c.actions :: c.actions[k].eventId)
        + (set k | k in c.actionResults :: c.actionResults[k].eventId)
    + (set k, r | k in c.reconciliations && r in c.reconciliations[k] :: r.eventId)
    + (set k, r | k in c.restartReconciliations && r in c.restartReconciliations[k] :: r.eventId)
  }

  predicate Unused(p: Projection, id: Id) { id !in KnownIds(p) && id !in ChainIds(p.claims)
                                           && id !in FamilyIds(p.claims) }

  // --- Guards of the claim families -------------------------------------------------------------------------

  predicate Unheld(p: Projection) { p.front.holds == map[] && p.claims.runHolds == map[] }

  predicate RunHoldOk(p: Projection, jobId: Id, admissionId: Id) {
    var c := p.claims;
    && jobId !in c.runHolds && (forall j | j in c.runHolds :: c.runHolds[j].admissionId != admissionId)
    && (forall k | k in c.initials ::
          c.initials[k].ids.jobId == jobId <==> c.initials[k].ids.admissionId == admissionId)
    && 1 <= |Members(p.front, admissionId)| <= 32 && |c.runHolds| < MAX_RUN_HOLDS
  }

  function FreshIds(i: Ids): set<Id> { {i.intentId, i.attemptId, i.reservationId, i.runId, i.leaseId} }

  predicate IntentOk(p: Projection, i: Ids) {
    var c := p.claims;
    && c.initials == map[] && |c.intents| < MAX_RESERVATION_CLAIMS
    && i.jobId in c.runHolds && c.runHolds[i.jobId].admissionId == i.admissionId
    && Members(p.front, i.admissionId) != {} && c.runHolds[i.jobId].members == Members(p.front, i.admissionId)
    && p.core.uuid.Some? && AllDifferent([p.core.uuid.value] + IdSeq(i))
    && (forall k | k in c.intents :: FreshIds(i) * FreshIds(c.intents[k].ids) == {})
  }

  predicate InitialOk(p: Projection, i: Ids) {
    var c := p.claims;
    && Unheld(p) && c.initials == map[] && |c.intents| < MAX_RESERVATION_CLAIMS
    && 1 <= |Members(p.front, i.admissionId)| <= 32
    && p.core.uuid.Some? && AllDifferent([p.core.uuid.value] + IdSeq(i))
    && (forall k | k in c.intents :: c.intents[k].ids.admissionId != i.admissionId && c.intents[k].ids.jobId != i.jobId)
    && (forall k | k in c.intents ::
        (FreshIds(i) + {i.jobId}) * (FreshIds(c.intents[k].ids) + {c.intents[k].ids.jobId}) == {})
  }

  predicate LedgerFree(m: map<Id, Counterpart>, l: LedgerRef) {
    forall k | k in m :: m[k].ledger.eventId != l.eventId
                         && !(m[k].ledger.ledger == l.ledger && m[k].ledger.generation == l.generation
                              && m[k].ledger.sequence == l.sequence)
  }

  predicate EventFree(m: map<Id, Counterpart>, eventId: Id) { forall k | k in m :: m[k].eventId != eventId }

  predicate ConfirmationShape(p: Projection, i: Ids, eventId: Id, l: LedgerRef) {
    var c := p.claims;
    && |c.confirmations| + |c.initialConfirmations| < MAX_RESERVATION_CLAIMS
    && p.core.uuid.Some? && AllDifferent([p.core.uuid.value] + IdSeq(i) + [eventId, l.ledger, l.eventId])
    && LedgerFree(c.confirmations, l) && LedgerFree(c.initialConfirmations, l)
  }

  predicate ConfirmationOk(p: Projection, intentId: Id, eventId: Id, l: LedgerRef) {
    var c := p.claims;
    && intentId in c.intents && intentId !in c.confirmations && ConfirmationShape(p, c.intents[intentId].ids, eventId,
        l)
    && EventFree(c.initialConfirmations, eventId)
  }

  predicate InitialConfirmationOk(p: Projection, intentId: Id, eventId: Id, l: LedgerRef) {
    var c := p.claims;
    && intentId in c.initials && intentId !in c.initialConfirmations && intentId !in c.confirmations
    && ConfirmationShape(p, c.initials[intentId].ids, eventId, l)
    && EventFree(c.initialConfirmations, eventId) && EventFree(c.confirmations, eventId)
  }

  function Names(services: seq<ServiceClaim>): seq<Service> {
    seq(|services|, i requires 0 <= i < |services| => services[i].service)
  }

  /** The services of a run: all but one in order, with or without the optional one. */
  predicate ServicesOk(services: seq<ServiceClaim>) {
    Names(services) == [Anthropic, Grafana, Jira, Kubernetes]
        || Names(services) == [Anthropic, Confluence, Grafana, Jira, Kubernetes]
  }

  predicate RunIntentOk(p: Projection, head: Head, eventId: Id, intentId: Id, headSequence: int, headDigest: nat,
                        services: seq<ServiceClaim>) {
    var c := p.claims;
    && Unheld(p) && c.runIntent.None?
    && intentId in c.initials && intentId in c.initialConfirmations
    && c.initials[intentId].committed < c.initialConfirmations[intentId].committed <= head.commitSeq
    && c.initials[intentId].members == Members(p.front, c.initials[intentId].ids.admissionId)
    && c.initialConfirmations[intentId].ledger.sequence <= headSequence <= MAX_SEQ
    && (headSequence == c.initialConfirmations[intentId].ledger.sequence
        ==> headDigest == c.initialConfirmations[intentId].ledger.digest)
    && ServicesOk(services) && services[0].leaseClaim == c.initials[intentId].ids.leaseId
    && eventId !in KnownIds(p) && (forall i | 0 < i < |services| ::
          services[i].leaseClaim !in KnownIds(p) && services[i].leaseClaim != eventId)
    && (forall i, j | 0 < i < j < |services| :: services[i].leaseClaim != services[j].leaseClaim)
  }

  predicate GrantsOk(grants: seq<Grant>, services: seq<ServiceClaim>, mono: int) {
    && |grants| == |services|
    && (forall i | 0 <= i < |grants| :: grants[i].claim == services[i] && mono < grants[i].expiry <= mono + WORK)
    && (forall i, j | 0 <= i < j < |grants| :: grants[i].grantId != grants[j].grantId)
  }

  predicate LaunchOk(p: Projection, eventId: Id, stamp: Stamp, grants: seq<Grant>) {
    var c := p.claims;
    && Unheld(p) && c.runIntent.Some? && c.launch.None?
    && p.core.bootStart <= c.runIntent.value.committed && p.core.lastMono <= stamp.mono <= MAX_SEQ - HARD
    && c.runIntent.value.intent.ids.intentId in c.initials
    && c.initials[c.runIntent.value.intent.ids.intentId].ids.admissionId == c.runIntent.value.intent.ids.admissionId
    && c.initials[c.runIntent.value.intent.ids.intentId].members == c.runIntent.value.intent.members
    && c.runIntent.value.intent.members == Members(p.front, c.runIntent.value.intent.ids.admissionId)
    && eventId !in KnownIds(p) && eventId != c.runIntent.value.eventId
    && (forall i | 0 <= i < |c.runIntent.value.services| :: c.runIntent.value.services[i].leaseClaim != eventId)
    && GrantsOk(grants, c.runIntent.value.services, stamp.mono)
  }

  /** The conditions shared by everything between the launch and the last effect. */
  predicate PreRelease(p: Projection, stamp: Stamp) {
    var c := p.claims;
    && Unheld(p) && c.launch.Some? && c.runIntent.Some? && c.launch.value.runIntentId == c.runIntent.value.eventId
    && c.launch.value.boot == stamp.boot && p.core.boot == Some(stamp.boot)
    && p.core.bootStart <= c.launch.value.committed && p.core.lastMono <= stamp.mono < c.launch.value.work
    && c.runIntent.value.intent.members == Members(p.front, c.runIntent.value.intent.ids.admissionId)
  }

  predicate AttestationOk(p: Projection, eventId: Id, stamp: Stamp) {
    PreRelease(p, stamp) && p.claims.attestation.None? && p.claims.process.None? && Unused(p, eventId)
  }

  predicate ActivationsOk(activated: seq<Activation>, grants: seq<Grant>, from: int, upTo: int) {
    && |activated| == |grants|
    && forall i | 0 <= i < |activated| ::
         && activated[i].service == grants[i].claim.service && activated[i].grantId == grants[i].grantId
         && from <= activated[i].at <= upTo && activated[i].at < grants[i].expiry
  }

  predicate ReleaseIntentOk(p: Projection, eventId: Id, stamp: Stamp, activated: seq<Activation>) {
    var c := p.claims;
    && PreRelease(p, stamp) && c.attestation.Some? && c.releaseIntent.None? && c.process.None? && c.actions == map[]
    && Unused(p, eventId) && c.attestation.value.boot == stamp.boot
    && ActivationsOk(activated, c.launch.value.grants, c.attestation.value.observed, stamp.mono)
  }

  predicate ReleaseObservationOk(p: Projection, eventId: Id, stamp: Stamp) {
    var c := p.claims;
    && c.launch.Some? && c.releaseIntent.Some? && c.releaseObservation.None? && Unused(p, eventId)
    && c.releaseIntent.value.boot == stamp.boot
    && p.core.lastMono <= stamp.mono <= MAX_SEQ && c.releaseIntent.value.intended <= stamp.mono
  }

  function RouteService(r: Route): Service {
    match r
    case AnthropicMessages => Anthropic
    case DraftCreate => Confluence case DraftRead => Confluence case DraftUpdate => Confluence case ReferenceRead =>
        Confluence
    case ChangeQuery => Grafana case TelemetryQuery => Grafana case GrafanaHealth => Grafana case LogsRange => Grafana
    case MetricsInstant => Grafana case MetricsRange => Grafana case TraceGet => Grafana case TracesSearch => Grafana
    case CommentAdd => Jira case CommentGet => Jira case CommentsList => Jira case IssueCreate => Jira case IssueGet =>
        Jira
    case IssueUpdate => Jira case JiraSearch => Jira case JiraTransition => Jira
    case PodEvents => Kubernetes case PodList => Kubernetes case PodStatus => Kubernetes case ServiceEndpoints =>
        Kubernetes
  }

  function ReadBackOf(r: Route): Option<ReadBack> {
    match r
    case IssueCreate => Some(IssueReadBack)
    case IssueUpdate => Some(IssueReadBack)
    case JiraTransition => Some(IssueReadBack)
    case CommentAdd => Some(CommentReadBack)
    case _ => None
  }

  predicate GrantFor(grants: seq<Grant>, service: Service, grantId: Id, scope: nat, expires: int) {
    exists i | 0 <= i < |grants| ::
      && grants[i].claim.service == service && (forall j | 0 <= j < i :: grants[j].claim.service != service)
      && grants[i].grantId == grantId && grants[i].claim.scope == scope && expires <= grants[i].expiry
  }

  predicate EffectOk(p: Projection, eventId: Id, stamp: Stamp, operationId: Id, service: Service, route: Route,
                     grantId: Id, scope: nat,
                     flight: Id, receiptId: Id, expires: int) {
    var c := p.claims;
    && PreRelease(p, stamp) && c.releaseObservation.Some? && c.releaseObservation.value.boot == stamp.boot
    && c.process.None? && c.actions == map[] && c.releaseObservation.value.observed <= stamp.mono
    && Unused(p, eventId) && Unused(p, operationId) && operationId != eventId
    && RouteService(route) == service && GrantFor(c.launch.value.grants, service, grantId, scope, expires)
    && flight != receiptId && (forall k | k in c.effects ::
                                 c.effects[k].flight != flight && c.effects[k].receiptId != receiptId)
    && stamp.mono < expires <= c.launch.value.work && |c.effects| < MAX_EFFECTS
  }

  predicate EffectReceiptOk(p: Projection, eventId: Id, stamp: Stamp, operationId: Id, state: R.DispatchState,
                            reason: R.Reason) {
    var c := p.claims;
    && operationId in c.effects && operationId !in c.effectReceipts && Unused(p, eventId)
    && c.effects[operationId].boot == stamp.boot
    && p.core.lastMono <= stamp.mono <= MAX_SEQ && c.effects[operationId].observed <= stamp.mono
    && R.ClientFor(state, reason).Some?
  }

  function Revoked(c: Claims): set<Id> { set k | k in c.actions && c.actions[k].kind.RevokeGrant?
                                        && c.actions[k].grant.Some? :: c.actions[k].grant.value.1 }

  predicate ActionOk(p: Projection, eventId: Id, stamp: Stamp, actionId: Id, kind: ActionKind,
                     grant: Option<(Service, Id)>) {
    var c := p.claims;
    && c.launch.Some? && Unused(p, eventId) && Unused(p, actionId) && eventId != actionId
    && c.launch.value.boot == stamp.boot && p.core.bootStart <= c.launch.value.committed
    && p.core.lastMono <= stamp.mono < c.launch.value.hard
    && |c.actions| < |c.launch.value.grants| + 2
    && if kind.RevokeGrant? then
         && grant.Some? && (exists g | g in c.launch.value.grants ::
                              g.claim.service == grant.value.0 && g.grantId == grant.value.1)
         && grant.value.1 !in Revoked(c) && (forall k | k in c.actions :: c.actions[k].kind.RevokeGrant?)
       else
         && grant.None? && c.attestation.Some? && |Revoked(c)| == |c.launch.value.grants|
         && (forall g | g in c.launch.value.grants :: g.grantId in Revoked(c))
         && (forall k | k in c.actions :: c.actions[k].kind != kind)
         && (kind.SignalInterrupt? ==> forall k | k in c.actions :: !c.actions[k].kind.SignalKill?)
  }

  predicate OutcomeOf(kind: ActionKind, outcome: ActionOutcome) {
    outcome.ActionFailed? || outcome.ActionUnknown?
        || (if kind.RevokeGrant? then outcome.Acknowledged? else outcome.Requested?)
  }

  predicate ActionResultOk(p: Projection, eventId: Id, stamp: Stamp, actionId: Id, outcome: ActionOutcome) {
    var c := p.claims;
    && actionId in c.actions && c.launch.Some? && actionId !in c.actionResults && Unused(p, eventId)
    && c.launch.value.boot == stamp.boot
    && p.core.lastMono <= stamp.mono <= MAX_SEQ && c.actions[actionId].observed <= stamp.mono
    && OutcomeOf(c.actions[actionId].kind, outcome)
  }

  predicate ExecutionBase(p: Projection, eventId: Id, stamp: Stamp) {
    var c := p.claims;
    && c.launch.Some? && Unused(p, eventId) && c.launch.value.boot == stamp.boot
    && p.core.bootStart <= c.launch.value.committed && p.core.lastMono <= stamp.mono <= MAX_SEQ
  }

  predicate VersionOk(reported: Reported, version: Option<nat>) {
    if reported.Confirmed? || reported.Conflict? then version.Some? else version.None?
  }

  function Earlier(m: map<Id, seq<Reconciliation>>, id: Id): seq<Reconciliation> { if id in m then m[id] else [] }

  predicate ReconciledOk(p: Projection, eventId: Id, stamp: Stamp, operationId: Id, reported: Reported,
                         version: Option<nat>) {
    var c := p.claims;
    && operationId in c.effects && ReadBackOf(c.effects[operationId].route).Some? && c.launch.Some?
        && Unused(p, eventId)
    && c.launch.value.boot == stamp.boot && c.effects[operationId].boot == stamp.boot
    && p.core.bootStart <= c.launch.value.committed
    && p.core.lastMono <= stamp.mono <= MAX_SEQ && c.effects[operationId].observed <= stamp.mono
    && VersionOk(reported, version) && |Earlier(c.reconciliations, operationId)| < MAX_RECONCILIATIONS
  }

  predicate RestartReconciledOk(p: Projection, eventId: Id, stamp: Stamp, operationId: Id, reported: Reported,
                                version: Option<nat>) {
    var c := p.claims;
    && operationId in c.effects && ReadBackOf(c.effects[operationId].route).Some? && c.launch.Some?
        && Unused(p, eventId)
    && p.core.recovered.Some? && p.core.recovered.value.commitSeq + 1 == p.core.bootStart
    && RestartRecovery in p.front.holds && c.effects[operationId].boot != stamp.boot
    && p.core.lastMono <= stamp.mono <= MAX_SEQ && c.effects[operationId].committed < p.core.bootStart
    && VersionOk(reported, version) && |Earlier(c.restartReconciliations, operationId)| < MAX_RECONCILIATIONS
  }

  /** Every guard of a claim record against the projection it extends. */
  predicate Guard(p: Projection, head: Head, r: Record) {
    match r.content
    case RunHoldSet(job, admission) => RunHoldOk(p, job, admission)
    case ReservationIntent(ids) => r.eventId == ids.intentId && IntentOk(p, ids)
    case InitialIntent(ids) => r.eventId == ids.intentId && InitialOk(p, ids)
    case Confirmation(intentId, ledger) => ConfirmationOk(p, intentId, r.eventId, ledger)
    case InitialConfirmation(intentId, ledger) => InitialConfirmationOk(p, intentId, r.eventId, ledger)
    case RunIntended(intentId, seqno, digest, services) =>
      RunIntentOk(p, head, r.eventId, intentId, seqno, digest, services)
    case LaunchClaimed(_, _, grants) => LaunchOk(p, r.eventId, r.stamp, grants)
    case Attested(_) => AttestationOk(p, r.eventId, r.stamp)
    case ReleaseIntended(activated) => ReleaseIntentOk(p, r.eventId, r.stamp, activated)
    case ReleaseObserved(_) => ReleaseObservationOk(p, r.eventId, r.stamp)
    case EffectIntended(op, service, route, grantId, scope, flight, receipt, _, _, expires) =>
      EffectOk(p, r.eventId, r.stamp, op, service, route, grantId, scope, flight, receipt, expires)
    case EffectReceived(op, state, reason, _) => EffectReceiptOk(p, r.eventId, r.stamp, op, state, reason)
    case ActionIntended(action, kind, grant) => ActionOk(p, r.eventId, r.stamp, action, kind, grant)
    case ActionEnded(action, outcome) => ActionResultOk(p, r.eventId, r.stamp, action, outcome)
    case ProcessObserved(failed, _) =>
      ExecutionBase(p, r.eventId, r.stamp) && p.claims.process.None? && !(failed && p.claims.attestation.Some?)
    case TerminalObserved(_) =>
      ExecutionBase(p, r.eventId, r.stamp) && p.claims.process.Some? && p.claims.terminal.None?
          && p.claims.process.value.boot == r.stamp.boot
    case ExecutionAssessed =>
      && ExecutionBase(p, r.eventId, r.stamp) && p.claims.process.Some? && p.claims.terminal.Some?
          && p.claims.assessment.None?
      && p.claims.process.value.boot == r.stamp.boot && p.claims.terminal.value.boot == r.stamp.boot
    case Reconciled(op, reported, version) => ReconciledOk(p, r.eventId, r.stamp, op, reported, version)
    case RestartReconciled(op, reported, version) => RestartReconciledOk(p, r.eventId, r.stamp, op, reported, version)
    case _ => false
  }

  /** The claim a guarded record adds. */
  function ClaimOf(p: Projection, head: Head, r: Record): Claim
    requires Guard(p, head, r)
  {
    var c, at, boot, mono := p.claims, r.position.commitSeq, r.stamp.boot, r.stamp.mono;
    match r.content
    case RunHoldSet(job, admission) => AddRunHold(job, RunHold(admission, at, Members(p.front, admission)))
    case ReservationIntent(ids) => AddIntent(Intent(ids, {}, at))
    case InitialIntent(ids) => AddInitial(Intent(ids, Members(p.front, ids.admissionId), at))
    case Confirmation(id, l) => AddConfirmation(Counterpart(id, r.eventId, l, at))
    case InitialConfirmation(id, l) => AddInitialConfirmation(Counterpart(id, r.eventId, l, at))
    case RunIntended(id, _, _, services) => AddRunIntent(RunIntent(r.eventId, c.initials[id], services, at))
    case LaunchClaimed(_, _, grants) =>
      AddLaunch(Launch(r.eventId, c.runIntent.value.eventId, boot, mono, mono + WORK, mono + FLUSH, mono + HARD,
                       grants, at))
    case Attested(_) => AddAttestation(Attestation(r.eventId, boot, mono, at))
    case ReleaseIntended(activated) => AddReleaseIntent(ReleaseIntent(r.eventId, boot, mono, activated, at))
    case ReleaseObserved(_) => AddReleaseObservation(ReleaseObservation(r.eventId, boot, mono, at))
    case EffectIntended(op, service, route, grantId, scope, flight, receipt, _, _, expires) =>
      AddEffect(Effect(r.eventId, op, boot, service, route, grantId, scope, flight, receipt, mono, expires, at))
    case EffectReceived(op, _, _, _) => AddEffectReceipt(EffectReceipt(r.eventId, op, mono, at))
    case ActionIntended(action, kind, grant) => AddAction(Action(r.eventId, action, kind, grant, mono, at))
    case ActionEnded(action, _) => AddActionResult(ActionResult(r.eventId, action, mono, at))
    case ProcessObserved(_, _) => AddProcess(Observation(r.eventId, boot, mono, at))
    case TerminalObserved(_) => AddTerminal(Observation(r.eventId, boot, mono, at))
    case ExecutionAssessed => AddAssessment(Observation(r.eventId, boot, mono, at))
    case Reconciled(op, _, _) =>
      AddReconciliation(Reconciliation(r.eventId, op, boot, |Earlier(c.reconciliations, op)| + 1, mono, at))
    case RestartReconciled(op, _, _) =>
      var n := |Earlier(c.restartReconciliations, op)| + 1;
      AddRestartReconciliation(Reconciliation(r.eventId, op, boot, n, mono, at))
  }

  /** Claims are only ever added. */
  function AddClaim(c: Claims, claim: Claim): Claims {
    match claim
    case AddRunHold(job, x) => c.(runHolds := c.runHolds[job := x])
    case AddIntent(x) => c.(intents := c.intents[x.ids.intentId := x])
    case AddInitial(x) => c.(initials := c.initials[x.ids.intentId := x])
    case AddConfirmation(x) => c.(confirmations := c.confirmations[x.intentId := x])
    case AddInitialConfirmation(x) => c.(initialConfirmations := c.initialConfirmations[x.intentId := x])
    case AddRunIntent(x) => c.(runIntent := Some(x))
    case AddLaunch(x) => c.(launch := Some(x))
    case AddAttestation(x) => c.(attestation := Some(x))
    case AddReleaseIntent(x) => c.(releaseIntent := Some(x))
    case AddReleaseObservation(x) => c.(releaseObservation := Some(x))
    case AddEffect(x) => c.(effects := c.effects[x.operationId := x])
    case AddEffectReceipt(x) => c.(effectReceipts := c.effectReceipts[x.operationId := x])
    case AddAction(x) => c.(actions := c.actions[x.actionId := x])
    case AddActionResult(x) => c.(actionResults := c.actionResults[x.actionId := x])
    case AddProcess(x) => c.(process := Some(x))
    case AddTerminal(x) => c.(terminal := Some(x))
    case AddAssessment(x) => c.(assessment := Some(x))
    case AddReconciliation(x) =>
      c.(reconciliations := c.reconciliations[x.operationId := Earlier(c.reconciliations, x.operationId) + [x]])
    case AddRestartReconciliation(x) =>
      c.(restartReconciliations :=
          c.restartReconciliations[x.operationId := Earlier(c.restartReconciliations, x.operationId) + [x]])
  }

  /** The size limit of a record of this kind, where it has its own. */
  function BodyCap(c: Content): Option<nat> {
    match c
    case RunHoldSet(_, _) => Some(2048)
    case RunIntended(_, _, _, _) => Some(4096)
    case LaunchClaimed(_, _, _) => Some(6144)
    case Attested(_) => Some(4096)
    case ReleaseIntended(_) => Some(4096)
    case ReleaseObserved(_) => Some(2048)
    case EffectIntended(_, _, _, _, _, _, _, _, _, _) => Some(4096)
    case EffectReceived(_, _, _, _) => Some(2048)
    case ActionIntended(_, _, _) => Some(4096)
    case ActionEnded(_, _) => Some(2048)
    case ProcessObserved(_, _) => Some(4096)
    case TerminalObserved(_) => Some(4096)
    case ExecutionAssessed => Some(2048)
    case Reconciled(_, _, _) => Some(2048)
    case RestartReconciled(_, _, _) => Some(3072)
    case _ => None
  }

  /** Kinds charged to the ordinary region; everything else may use the whole journal. */
  predicate Ordinary(c: Content) {
    c.Admission? || c.Dedupe? || c.IngressRefusal? || c.InitialIntent? || c.RunIntended? || c.LaunchClaimed?
        || c.Attested?
    || c.ReleaseIntended? || c.EffectIntended?
  }

  function Charge(r: Record): int { r.bodyLen + OVERHEAD }

  predicate Fits(p: Projection, c: Content, charge: int) {
    p.core.bytes + charge <= if Ordinary(c) then p.core.bounds.ordinary else p.core.bounds.total
  }

  // --- Commits -----------------------------------------------------------------------------------------------

  datatype Error = Framing | Chain | Generation | Boot | Clock | Shape | Mismatch | TailIncomplete

  datatype Result<+T> = Ok(value: T) | Err(error: Error)

  /** At most one of these per commit. */
  datatype Change =
    | Nothing
    | Admit(group: Id, baseline: Baseline, updates: map<Fingerprint, Pending>)
    | Hold(code: HoldCode)
    | Refuse(key: RefusalKey, unreserved: bool)
    | Clear(hold: HoldCode)
    | Add(claim: Claim)

  /** Everything a verified commit changes. `opens` is set by the first commit only. */
  datatype Delta = Delta(head: Head, opens: Option<(Id, Bounds)>, boot: Id, newBoot: bool, lastMono: int, bytes: int,
                         admissions: nat, lastArrival: nat, change: Change)

  predicate Framed(records: seq<Record>) {
    && records != [] && |records| == records[0].position.commitSize
    && forall i | 0 <= i < |records| ::
         && records[i].position.commitSeq == records[0].position.commitSeq
         && records[i].position.commitSize == |records| && records[i].position.commitIndex == i
  }

  function HeadDigest(core: Core): Digest { if core.head.None? then Zero else core.head.value.digest }

  /** Consecutive numbers and digests from a given record on. */
  predicate Linked(records: seq<Record>, eventSeq: nat, prev: Digest)
    decreases |records|
  {
    records == [] ||
    (records[0].position.eventSeq == eventSeq && records[0].position.prev == prev
     && Linked(records[1..], eventSeq + 1, Of(records[0])))
  }

  function NextCommit(core: Core): nat { if core.head.None? then 1 else core.head.value.commitSeq + 1 }

  function NextEvent(core: Core): nat { if core.head.None? then 1 else core.head.value.eventSeq + 1 }

  function HeadAt(generation: nat, r: Record): Head {
    Head(generation, r.position.commitSeq, r.position.eventSeq, Of(r))
  }

  /** A commit that stays in its boot and admits nothing. */
  function Same(p: Projection, r: Record, change: Change): Delta {
    Delta(HeadAt(p.core.generation, r), None, r.stamp.boot, false, r.stamp.mono, p.core.bytes + Charge(r),
          p.front.admissions, p.front.lastArrival, change)
  }

  predicate BoundsOk(b: Bounds) {
    && 1 <= b.maxAdmissions <= 10_000 && 1 <= b.maxPending <= 1_024 && 1 <= b.ordinary <= 112 * 1_048_576
    && 1 <= b.total <= 128 * 1_048_576 && b.ordinary <= b.total
  }

  /** The first commit; its own size is not compared with the bounds it sets. */
  function VerifyGenesis(p: Projection, r: Record): Result<Delta>
    requires r.content.Genesis?
  {
    if p.core.uuid.Some? || p.core.head.Some? then Err(Boot)
    else if !BoundsOk(r.content.bounds) then Err(Mismatch)
    else
      Ok(Delta(HeadAt(r.position.generation, r), Some((r.content.uuid, r.content.bounds)), r.stamp.boot, true,
               r.stamp.mono, Charge(r), 0, 0, Nothing))
  }

  /** A new boot: recovered head checked, old leases gone, dispatch held. */
  function VerifyRestart(p: Projection, r: Record): Result<Delta>
    requires r.content.Restart?
  {
    if r.stamp.boot in p.core.seenBoots || r.content.previousBoot != p.core.boot then Err(Boot)
    else if p.core.head.None? || r.content.recovered != p.core.head || !Fits(p, r.content, Charge(r)) then Err(Mismatch)
    else
      Ok(Same(p, r, Hold(RestartRecovery)).(newBoot := true))
  }

  function LimitOf(p: Projection, code: HoldCode): int {
    match code
    case AdmissionsFull => p.core.bounds.maxAdmissions
    case PendingFull => p.core.bounds.maxPending
    case BytesFull => p.core.bounds.ordinary
    case RestartRecovery => 0
  }

  function ObservedOf(p: Projection, code: HoldCode): int {
    match code
    case AdmissionsFull => p.front.admissions
    case PendingFull => |p.front.pending|
    case BytesFull => p.core.bytes
    case RestartRecovery => 0
  }

  function VerifyCapacity(p: Projection, r: Record): Result<Delta>
    requires r.content.CapacityHold?
  {
    var c := r.content;
    if c.code.RestartRecovery? || c.code in p.front.holds || c.limit != LimitOf(p, c.code)
        || c.observed != ObservedOf(p, c.code)
       || c.observed + c.requested <= c.limit || !Fits(p, c, Charge(r)) then Err(Mismatch)
    else Ok(Same(p, r, Hold(c.code)))
  }

  function KeyOf(s: Summary): RefusalKey { RefusalKey(s.fields, s.resolved) }

  predicate Unreserved(s: Summary) { !(s.resolved.Some? && s.resolved.value > 0) }

  function VerifyRefusal(p: Projection, r: Record): Result<Delta>
    requires r.content.IngressRefusal?
  {
    var c, f := r.content, p.front;
    if c.refusalSeq != f.refusals + 1 || f.refusals + 1 > MAX_REFUSALS
       || (Unreserved(c.summary) && f.unreserved + 1 > MAX_REFUSALS - RESOLVED_RESERVE)
       || c.refusalKey != KeyOf(c.summary) || c.refusalKey in f.refusalKeys || !Fits(p, c, Charge(r)) then Err(Mismatch)
    else Ok(Same(p, r, Refuse(c.refusalKey, Unreserved(c.summary))))
  }

  /** A resume clears only the restart hold, only first after that restart, and only while no
      claim family has been entered. */
  function VerifyResume(p: Projection, r: Record): Result<Delta>
    requires r.content.OperatorResume?
  {
    var c, f := r.content, p.front;
    if !c.hold.RestartRecovery? || c.hold !in f.holds || Outstanding(p.claims) || c.since != f.holds[c.hold]
       || p.core.head.None? || p.core.head.value.commitSeq != p.core.bootStart || p.core.recovered != Some(c.inspected)
       || c.pending != f.pending || !Fits(p, c, Charge(r)) then Err(Mismatch)
    else Ok(Same(p, r, Clear(c.hold)))
  }

  function VerifyClaim(p: Projection, r: Record): Result<Delta> {
    if p.core.head.None? || (BodyCap(r.content).Some? && r.bodyLen > BodyCap(r.content).value)
       || !Guard(p, p.core.head.value, r) || !Fits(p, r.content, Charge(r)) then Err(Mismatch)
    else Ok(Same(p, r, Add(ClaimOf(p, p.core.head.value, r))))
  }

  /** An admission's room, and every recorded field that the journal computes itself. */
  predicate AdmissionOk(p: Projection, x: Content, y: Content, d: Decision, charge: int)
    requires x.Admission? && y.Dedupe?
  {
    var f := p.front;
    && f.admissions + 1 <= p.core.bounds.maxAdmissions
    && (d.result.Suppressed? || |f.pending| + NewPending(x.source, d) <= p.core.bounds.maxPending)
    && Fits(p, x, charge)
    && x.arrivalSeq == f.lastArrival + 1 && x.held == (f.holds != map[]) && x.holds == f.holds.Keys
    && y.result == d.result && y.group == x.source.group && y.key == Rows(x.source) && y.before == d.before
        && y.after == d.after
    && y.superseded == d.superseded && y.pendingAfter == |f.pending| + NewPending(x.source, d)
  }

  function AdmissionDelta(p: Projection, a: Record, b: Record, d: Decision): Delta
    requires a.content.Admission?
  {
    var x, arrival := a.content, p.front.lastArrival + 1;
    Delta(HeadAt(p.core.generation, b), None, a.stamp.boot, false, a.stamp.mono, p.core.bytes + Charge(a) + Charge(b),
          p.front.admissions + 1, arrival,
          Admit(x.source.group, d.after, Updates(x.source, d, x.admissionId, arrival)))
  }

  /** An admission and its dedupe decision, both recomputed. */
  function VerifyAdmission(p: Projection, a: Record, b: Record): Result<Delta>
    requires a.content.Admission? && b.content.Dedupe?
  {
    var x, y := a.content, b.content;
    var d := Decide(p.front, x.source, x.admissionId);
    if x.admissionId != a.eventId || y.admissionId != x.admissionId then Err(Shape)
    else if !AdmissionOk(p, x, y, d, Charge(a) + Charge(b)) then Err(Mismatch)
    else Ok(AdmissionDelta(p, a, b, d))
  }

  predicate SameStamp(records: seq<Record>) {
    forall i | 0 <= i < |records| :: records[i].stamp == records[0].stamp
  }

  predicate SameBoot(records: seq<Record>) {
    forall i | 0 <= i < |records| :: records[i].stamp.boot == records[0].stamp.boot
  }

  predicate InGeneration(records: seq<Record>, generation: nat) {
    forall i | 0 <= i < |records| :: records[i].position.generation == generation
  }

  function GenerationOf(core: Core): nat { if core.generation == 0 then 1 else core.generation }

  /** Every check a commit must pass against the projection it extends. */
  function Verify(p: Projection, records: seq<Record>): Result<Delta> {
    if !Framed(records) || records[0].position.commitSeq != NextCommit(p.core) then Err(Framing)
    else if !Linked(records, NextEvent(p.core), HeadDigest(p.core)) then Err(Chain)
    else if !InGeneration(records, GenerationOf(p.core)) then Err(Generation)
    else if !SameBoot(records) then Err(Boot)
    else if !SameStamp(records) then Err(Clock)
    else VerifyShape(p, records)
  }

  predicate Restarts(c: Content) { c.Genesis? || c.Restart? }

  function VerifyShape(p: Projection, records: seq<Record>): Result<Delta>
    requires records != []
  {
    var r := records[0];
    if |records| == 1 && Restarts(r.content) then VerifyOne(p, r)
    else if !(|records| == 2 && r.content.Admission? && records[1].content.Dedupe?)
            && !(|records| == 1 && !r.content.Admission? && !r.content.Dedupe?) then Err(Shape)
    else if p.core.boot != Some(r.stamp.boot) then Err(Boot)
    else if r.stamp.mono < p.core.lastMono then Err(Clock)
    else if |records| == 2 then VerifyAdmission(p, r, records[1])
    else VerifyOne(p, r)
  }

  /** A commit of one record. */
  function VerifyOne(p: Projection, r: Record): Result<Delta> {
    match r.content
    case Genesis(_, _) => VerifyGenesis(p, r)
    case Restart(_, _) => VerifyRestart(p, r)
    case CapacityHold(_, _, _, _) => VerifyCapacity(p, r)
    case IngressRefusal(_, _, _) => VerifyRefusal(p, r)
    case OperatorResume(_, _, _, _) => VerifyResume(p, r)
    case _ => VerifyClaim(p, r)
  }

  function ApplyCore(core: Core, d: Delta): Core {
    Core(if d.opens.Some? then Some(d.opens.value.0) else core.uuid,
         d.head.generation,
         if d.opens.Some? then d.opens.value.1 else core.bounds,
         Some(d.head),
         Some(d.boot),
         d.lastMono,
         if d.newBoot then core.seenBoots + {d.boot} else core.seenBoots,
         d.bytes,
         if d.newBoot then d.head.commitSeq else core.bootStart,
         if d.newBoot then core.head else core.recovered)
  }

  function ApplyFront(front: Front, d: Delta): Front {
    var f := front.(admissions := d.admissions, lastArrival := d.lastArrival);
    match d.change
    case Admit(group, baseline, updates) =>
      f.(baselines := f.baselines[group := baseline], pending := f.pending + updates)
    case Hold(code) => if code in f.holds then f else f.(holds := f.holds[code := d.head.commitSeq])
    case Refuse(key, unreserved) =>
      f.(refusalKeys := f.refusalKeys + {key}, refusals := f.refusals + 1,
         unreserved := f.unreserved + if unreserved then 1 else 0)
    case Clear(hold) => f.(holds := f.holds - {hold}, resumes := f.resumes + 1)
    case _ => f
  }

  function Apply(p: Projection, d: Delta): Projection {
    Projection(ApplyCore(p.core, d), ApplyFront(p.front, d), if d.change.Add? then AddClaim(p.claims, d.change.claim)
               else p.claims)
  }

  /** One accepted commit. */
  predicate Accepts(p: Projection, records: seq<Record>) { Verify(p, records).Ok? }

  function After(p: Projection, records: seq<Record>): Projection
    requires Accepts(p, records)
  {
    Apply(p, Verify(p, records).value)
  }

  /** A run of accepted commits. */
  ghost predicate Accepted(p: Projection, commits: seq<seq<Record>>)
    decreases |commits|
  {
    commits == [] || (Accepts(p, commits[0]) && Accepted(After(p, commits[0]), commits[1..]))
  }

  ghost function Fold(p: Projection, commits: seq<seq<Record>>): Projection
    requires Accepted(p, commits)
    decreases |commits|
  {
    if commits == [] then p else Fold(After(p, commits[0]), commits[1..])
  }

  /** Which check decided an accepted commit, and where the commit stands. */
  lemma Decided(p: Projection, records: seq<Record>)
    requires Accepts(p, records)
    ensures records != [] && records[0].position.commitSeq == NextCommit(p.core)
    ensures records[0].position.eventSeq == NextEvent(p.core) && records[0].position.prev == HeadDigest(p.core)
    ensures !records[0].content.Genesis? && !records[0].content.Restart? ==>
      p.core.boot == Some(records[0].stamp.boot) && p.core.lastMono <= records[0].stamp.mono
    ensures if records[0].content.Admission? then
              |records| == 2 && records[1].content.Dedupe?
                  && Verify(p, records) == VerifyAdmission(p, records[0], records[1])
              && records[1].stamp == records[0].stamp && records[1].position.commitSeq == NextCommit(p.core)
            else
              |records| == 1 && !records[0].content.Dedupe? && Verify(p, records) == VerifyOne(p, records[0])
  {
    hide Guard, ClaimOf, VerifyAdmission, VerifyGenesis, VerifyRestart, VerifyCapacity, VerifyRefusal, VerifyResume,
        VerifyClaim;
    assert Linked(records, NextEvent(p.core), HeadDigest(p.core));
  }
}
