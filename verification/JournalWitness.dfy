/** One journal that goes all the way: opened, admitted, reserved, launched, released, with an effect
    received and read back, then cleaned up, observed and assessed. Every claim family has a record
    that is accepted. */
module JournalWitness {
  import opened Text
  import opened Journal
  import opened JournalPlans
  import R = Receipts

  // --- Claims on an open journal --------------------------------------------------------------------

  predicate IsClaim(c: Content) {
    && !c.Genesis? && !c.Restart? && !c.Admission? && !c.Dedupe? && !c.CapacityHold? && !c.IngressRefusal?
    && !c.OperatorResume?
  }

  /** A claim record is accepted exactly when it stands next in number and chain, in the running boot and
      not before its clock, meets its guard, and fits its own size and its region; it then adds its
      claim and moves the head, the clock and the byte count, and nothing else. */
  lemma ClaimExactly(p: Projection, r: Record)
    requires IsClaim(r.content)
    ensures Accepts(p, [r]) <==>
            && p.core.head.Some? && r.position.commitIndex == 0 && r.position.commitSize == 1
            && r.position.commitSeq == p.core.head.value.commitSeq + 1
            && r.position.eventSeq == p.core.head.value.eventSeq + 1
            && r.position.prev == p.core.head.value.digest && r.position.generation == GenerationOf(p.core)
            && p.core.boot == Some(r.stamp.boot) && p.core.lastMono <= r.stamp.mono
            && Guard(p, p.core.head.value, r)
            && (BodyCap(r.content).Some? ==> r.bodyLen <= BodyCap(r.content).value)
            && p.core.bytes + r.bodyLen + 384 <=
               (if Ordinary(r.content) then p.core.bounds.ordinary else p.core.bounds.total)
    ensures Accepts(p, [r]) ==>
              After(p, [r]) ==
              Projection(p.core.(head := Some(HeadAt(p.core.generation, r)), boot := Some(r.stamp.boot),
                                 lastMono := r.stamp.mono, bytes := p.core.bytes + r.bodyLen + 384),
                         p.front, AddClaim(p.claims, ClaimOf(p, p.core.head.value, r)))
  {
    hide Guard, ClaimOf, BodyCap, Ordinary, AddClaim;
    assert Linked([r][1..], NextEvent(p.core) + 1, Of(r));
    assert Linked([r], NextEvent(p.core), HeadDigest(p.core)) <==>
           r.position.eventSeq == NextEvent(p.core) && r.position.prev == HeadDigest(p.core);
    if p.core.head.None? { Headless(p, r); }
  }

  lemma Headless(p: Projection, r: Record)
    requires IsClaim(r.content) && p.core.head.None?
    ensures !VerifyOne(p, r).Ok?
  {
    hide Guard, ClaimOf;
  }

  // --- A history and where it stands -------------------------------------------------------------------

  lemma {:induction false} OneMore(p: Projection, commits: seq<seq<Record>>, records: seq<Record>)
    requires Accepted(p, commits) && Accepts(Fold(p, commits), records)
    ensures Accepted(p, commits + [records]) && Fold(p, commits + [records]) == After(Fold(p, commits), records)
    decreases |commits|
  {
    hide Accepts, After;
    var all := commits + [records];
    if commits == [] {
      assert all[1..] == [];
      assert Accepted(After(p, records), []) && Fold(After(p, records), []) == After(p, records);
    } else {
      assert all[1..] == commits[1..] + [records];
      OneMore(After(p, commits[0]), commits[1..], records);
    }
  }

  const WIDE: Bounds := Bounds(10, 10, 100_000, 100_000)

  /** Journal 2 in boot 7, opened at its first commit: `n` commits so far. */
  ghost predicate Stands(p: Projection, front: Front, claims: Claims, n: nat, mono: int) {
    && p.front == front && p.claims == claims
    && p.core.uuid == Some(2) && p.core.generation == 1 && p.core.bounds == WIDE && p.core.boot == Some(7)
    && p.core.bootStart == 1 && p.core.recovered.None? && p.core.lastMono == mono
    && p.core.head.Some? && p.core.head.value.commitSeq == n && p.core.bytes <= 900 * n
  }

  ghost predicate Reached(commits: seq<seq<Record>>, front: Front, claims: Claims, n: nat, mono: int) {
    Accepted(EMPTY, commits) && Stands(Fold(EMPTY, commits), front, claims, n, mono)
  }

  /** A guarded claim extends the history. */
  lemma Claims(commits: seq<seq<Record>>, front: Front, claims: Claims, n: nat, mono: int, eventId: Id, at: int,
               content: Content, claim: Claim)
    returns (longer: seq<seq<Record>>)
    requires Reached(commits, front, claims, n, mono) && IsClaim(content) && mono <= at && n < 100
    requires var p := Fold(EMPTY, commits);
             var r := Single(p, eventId, Stamp(7, 0, at), 100, content);
             Guard(p, p.core.head.value, r) && ClaimOf(p, p.core.head.value, r) == claim
    ensures Reached(longer, front, AddClaim(claims, claim), n + 1, at)
  {
    hide Accepted, Fold, Accepts, After, Guard, ClaimOf, AddClaim, BodyCap;
    var p := Fold(EMPTY, commits);
    var r := Single(p, eventId, Stamp(7, 0, at), 100, content);
    Roomy(content);
    ClaimExactly(p, r);
    OneMore(EMPTY, commits, [r]);
    longer := commits + [[r]];
  }

  lemma Roomy(content: Content)
    ensures BodyCap(content).Some? ==> 100 <= BodyCap(content).value
  {
  }

  // --- Opening and admission -----------------------------------------------------------------------------

  function First(): Record { Record(1, Position(1, 1, 1, 0, 1, Zero), Stamp(7, 0, 0), 100, Genesis(2, WIDE)) }

  lemma OpenedNow() returns (commits: seq<seq<Record>>)
    ensures Reached(commits, EMPTY.front, NO_CLAIMS, 1, 0)
  {
    var records := [First()];
    assert Linked(records[1..], 2, Of(First()));
    assert Verify(EMPTY, records) == VerifyOne(EMPTY, First());
    commits := [records];
    assert commits[1..] == [];
    var p := After(EMPTY, records);
    assert Accepted(p, []) && Fold(p, []) == p;
  }

  const ALARM: Source := Source(5, map[1 := Alert(Firing, None, None)], Some(0), 0)

  const WAITING: Front :=
    Front(1, 1, map[5 := Baseline(10, map[1 := Row(Firing, None)], true)], map[1 := Pending(10, 1, 5, Firing, None)],
          map[], {}, 0, 0, 0)

  lemma AdmittedNow() returns (commits: seq<seq<Record>>)
    ensures Reached(commits, WAITING, NO_CLAIMS, 2, 0)
  {
    var before := OpenedNow();
    hide Accepted, Fold, Verify;
    var p := Fold(EMPTY, before);
    var records := AdmissionPair(p, ALARM, 10, 11, Stamp(7, 0, 0), (50, 50));
    AdmissionDecides(p);
    AdmissionPlanPasses(p, ALARM, 10, 11, Stamp(7, 0, 0), (50, 50));
    Decided(p, records);
    AdmissionApplies(p);
    OneMore(EMPTY, before, records);
    commits := before + [records];
  }

  lemma AdmissionDecides(p: Projection)
    requires Stands(p, EMPTY.front, NO_CLAIMS, 1, 0)
    ensures Decide(p.front, ALARM, 10) == Decision(Fresh, None, Baseline(10, map[1 := Row(Firing, None)], true), map[])
    ensures PlanAdmission(p, ALARM, 10, 11, Stamp(7, 0, 0), (50, 50)).Plan?
  {
    assert Rows(ALARM) == map[1 := Row(Firing, None)];
    assert p.front.pending == map[];
    assert |ALARM.alerts| == 1;
  }

  lemma AdmissionApplies(p: Projection)
    requires Stands(p, EMPTY.front, NO_CLAIMS, 1, 0)
    requires VerifyAdmission(p, AdmissionPair(p, ALARM, 10, 11, Stamp(7, 0, 0), (50, 50))[0],
                             AdmissionPair(p, ALARM, 10, 11, Stamp(7, 0, 0), (50, 50))[1]).Ok?
    ensures var records := AdmissionPair(p, ALARM, 10, 11, Stamp(7, 0, 0), (50, 50));
            Stands(Apply(p, VerifyAdmission(p, records[0], records[1]).value), WAITING, NO_CLAIMS, 2, 0)
  {
    AdmissionDecides(p);
    var d := Decide(p.front, ALARM, 10);
    assert Updates(ALARM, d, 10, 1) == map[1 := Pending(10, 1, 5, Firing, None)];
    assert map[] + Updates(ALARM, d, 10, 1) == map[1 := Pending(10, 1, 5, Firing, None)];
  }

  // --- Reservation and run --------------------------------------------------------------------------------

  const IDS: Ids := Ids(20, 10, 21, 22, 23, 24, 25)
  const ROW: LedgerRef := LedgerRef(31, 1, 32, 5, 99)
  const SERVICES: seq<ServiceClaim> :=
    [ServiceClaim(Anthropic, 25, 1), ServiceClaim(Grafana, 41, 2), ServiceClaim(Jira, 42, 3),
     ServiceClaim(Kubernetes, 43, 4)]
  const GRANTS: seq<Grant> :=
    [Grant(SERVICES[0], 51, 1_000_000), Grant(SERVICES[1], 52, 1_000_000), Grant(SERVICES[2], 53, 1_000_000),
     Grant(SERVICES[3], 54, 1_000_000)]

  const INITIAL: Intent := Intent(IDS, {1}, 3)
  const RUN: RunIntent := RunIntent(40, INITIAL, SERVICES, 5)
  const LAUNCH: Launch := Launch(50, 40, 7, 10, 270_000_010, 290_000_010, 300_000_010, GRANTS, 6)
  const ATTESTATION: Attestation := Attestation(60, 7, 11, 7)
  const ACTIVATED: seq<Activation> :=
    [Activation(Anthropic, 51, 0, 11), Activation(Grafana, 52, 0, 11), Activation(Jira, 53, 0, 11),
     Activation(Kubernetes, 54, 0, 11)]
  const RELEASE: ReleaseIntent := ReleaseIntent(61, 7, 12, ACTIVATED, 8)
  const SEEN: ReleaseObservation := ReleaseObservation(62, 7, 13, 9)
  const EFFECT: Effect := Effect(63, 64, 7, Jira, IssueCreate, 53, 3, 172, 173, 14, 500_000, 10)
  const RECEIPT: EffectReceipt := EffectReceipt(65, 64, 15, 11)
  const READING: Reconciliation := Reconciliation(66, 64, 7, 1, 16, 12)
  const REVOCATION: Action := Action(67, 68, RevokeGrant, Some((Jira, 53)), 17, 13)
  const PROCESS: Observation := Observation(70, 7, 19, 15)
  const TERMINAL: Observation := Observation(71, 7, 20, 16)

  const RESERVED: Claims := AddClaim(NO_CLAIMS, AddInitial(INITIAL))
  const CONFIRMED: Claims := AddClaim(RESERVED, AddInitialConfirmation(Counterpart(21, 30, ROW, 4)))
  const INTENDED: Claims := AddClaim(CONFIRMED, AddRunIntent(RUN))
  const LAUNCHED: Claims := AddClaim(INTENDED, AddLaunch(LAUNCH))
  const ATTESTED: Claims := AddClaim(LAUNCHED, AddAttestation(ATTESTATION))
  const RELEASING: Claims := AddClaim(ATTESTED, AddReleaseIntent(RELEASE))
  const RELEASED: Claims := AddClaim(RELEASING, AddReleaseObservation(SEEN))
  const ACTED: Claims := AddClaim(RELEASED, AddEffect(EFFECT))
  const RECEIVED: Claims := AddClaim(ACTED, AddEffectReceipt(RECEIPT))
  const READ_BACK: Claims := AddClaim(RECEIVED, AddReconciliation(READING))
  const REVOKED: Claims := AddClaim(READ_BACK, AddAction(REVOCATION))
  const ENDED: Claims := AddClaim(REVOKED, AddActionResult(ActionResult(69, 68, 18, 14)))
  const OBSERVED: Claims := AddClaim(ENDED, AddProcess(PROCESS))
  const TERMINATED: Claims := AddClaim(OBSERVED, AddTerminal(TERMINAL))
  const ASSESSED: Claims := AddClaim(TERMINATED, AddAssessment(Observation(72, 7, 21, 17)))

  lemma WaitingMembers()
    ensures Members(WAITING, 10) == {1}
  {
  }

  // --- Identities are handed out in rising order ------------------------------------------------------------

  predicate IdsUnder(i: Ids, b: Id) { forall id | id in IdSeq(i) :: id < b }

  predicate PairUnder(x: Counterpart, b: Id) { x.eventId < b && x.ledger.ledger < b && x.ledger.eventId < b }

  predicate RunUnder(run: Option<RunIntent>, launch: Option<Launch>, b: Id) {
    && (run.Some? ==> run.value.eventId < b && forall s | s in run.value.services :: s.leaseClaim < b)
    && (launch.Some? ==> launch.value.eventId < b && forall g | g in launch.value.grants :: g.grantId < b)
  }

  predicate EventUnder(o: Option<Observation>, b: Id) { o.Some? ==> o.value.eventId < b }

  predicate Reservations(c: Claims, b: Id) {
    && (forall j | j in c.runHolds :: j < b && c.runHolds[j].admissionId < b)
    && (forall k | k in c.intents :: IdsUnder(c.intents[k].ids, b))
    && (forall k | k in c.initials :: IdsUnder(c.initials[k].ids, b))
    && (forall k | k in c.confirmations :: PairUnder(c.confirmations[k], b))
    && (forall k | k in c.initialConfirmations :: PairUnder(c.initialConfirmations[k], b))
  }

  predicate Stages(c: Claims, b: Id) {
    && (c.attestation.Some? ==> c.attestation.value.eventId < b)
    && (c.releaseIntent.Some? ==> c.releaseIntent.value.eventId < b)
    && (c.releaseObservation.Some? ==> c.releaseObservation.value.eventId < b)
    && EventUnder(c.process, b) && EventUnder(c.terminal, b) && EventUnder(c.assessment, b)
  }

  predicate Families(c: Claims, b: Id) {
    && (forall k | k in c.effects :: k < b && c.effects[k].eventId < b)
    && (forall k | k in c.effectReceipts :: c.effectReceipts[k].eventId < b)
    && (forall k | k in c.actions :: k < b && c.actions[k].eventId < b)
    && (forall k | k in c.actionResults :: c.actionResults[k].eventId < b)
    && (forall k | k in c.reconciliations :: forall r | r in c.reconciliations[k] :: r.eventId < b)
    && (forall k | k in c.restartReconciliations :: forall r | r in c.restartReconciliations[k] :: r.eventId < b)
  }

  /** Every identity in use is below `b`. */
  predicate Under(c: Claims, b: Id) {
    Reservations(c, b) && RunUnder(c.runIntent, c.launch, b) && Stages(c, b) && Families(c, b)
  }

  lemma FreshId(p: Projection, b: Id, id: Id)
    requires p.core.uuid == Some(2) && Under(p.claims, b) && 2 < b <= id
    ensures Unused(p, id)
  {
    hide Under, IdsUnder, PairUnder, KnownIds, ChainIds, FamilyIds;
    KnownUnder(p, b);
    ChainUnder(p.claims, b);
    FamilyUnder(p.claims, b);
  }

  lemma KnownUnder(p: Projection, b: Id)
    requires p.core.uuid == Some(2) && Under(p.claims, b) && 2 < b
    ensures forall id | id in KnownIds(p) :: id < b
  {
    hide RunUnder, Stages, Families;
  }

  lemma ChainUnder(c: Claims, b: Id)
    requires Under(c, b)
    ensures forall id | id in ChainIds(c) :: id < b
  {
    hide Reservations, Families;
  }

  lemma FamilyUnder(c: Claims, b: Id)
    requires Under(c, b)
    ensures forall id | id in FamilyIds(c) :: id < b
  {
    hide Reservations, RunUnder, Stages;
  }

  /** The identities a claim after the launch brings. */
  predicate Brings(claim: Claim, m: Id) {
    match claim
    case AddAttestation(x) => x.eventId < m
    case AddReleaseIntent(x) => x.eventId < m
    case AddReleaseObservation(x) => x.eventId < m
    case AddEffect(x) => x.operationId < m && x.eventId < m
    case AddEffectReceipt(x) => x.eventId < m
    case AddAction(x) => x.actionId < m && x.eventId < m
    case AddActionResult(x) => x.eventId < m
    case AddProcess(x) => x.eventId < m
    case AddTerminal(x) => x.eventId < m
    case AddReconciliation(x) => x.eventId < m
    case _ => false
  }

  lemma UnderMore(c: Claims, b: Id, claim: Claim, m: Id)
    requires Under(c, b) && b <= m && Brings(claim, m)
    ensures Under(AddClaim(c, claim), m)
  {
    hide IdsUnder, PairUnder, RunUnder, Families, Stages;
    IdsRise(c, b, m);
    StagesMore(c, claim, m);
    FamiliesMore(c, claim, m);
  }

  lemma IdsRise(c: Claims, b: Id, m: Id)
    requires Under(c, b) && b <= m
    ensures Under(c, m)
  {
  }

  lemma StagesMore(c: Claims, claim: Claim, m: Id)
    requires Stages(c, m) && Brings(claim, m)
    ensures Stages(AddClaim(c, claim), m)
  {
  }

  lemma FamiliesMore(c: Claims, claim: Claim, m: Id)
    requires Families(c, m) && Brings(claim, m)
    ensures Families(AddClaim(c, claim), m)
  {
    hide Earlier;
    if claim.AddReconciliation? { ReadBacksMore(c, claim.reconciliation, m); }
  }

  lemma ReadBacksMore(c: Claims, x: Reconciliation, m: Id)
    requires Families(c, m) && x.eventId < m
    ensures forall r | r in Earlier(c.reconciliations, x.operationId) + [x] :: r.eventId < m
  {
  }

  /** Where the run stands: its launch, effects and their receipts, cleanup and end. */
  datatype Late = Late(effects: map<Id, Effect>, receipts: map<Id, EffectReceipt>,
                       readBacks: map<Id, seq<Reconciliation>>, actions: map<Id, Action>,
                       results: map<Id, ActionResult>, process: Option<Observation>, terminal: Option<Observation>,
                       assessment: Option<Observation>)

  predicate Launched(c: Claims) { c.launch == Some(LAUNCH) && c.runIntent == Some(RUN) && c.runHolds == map[] }

  function LateOf(c: Claims): Late {
    Late(c.effects, c.effectReceipts, c.reconciliations, c.actions, c.actionResults, c.process, c.terminal,
         c.assessment)
  }

  lemma PreReleased(p: Projection, at: int)
    requires Launched(p.claims) && p.front == WAITING && p.core.boot == Some(7) && p.core.bootStart == 1
    requires p.core.lastMono <= at < 270_000_010
    ensures PreRelease(p, Stamp(7, 0, at))
  {
    WaitingMembers();
  }

  lemma JiraGrant()
    ensures GrantFor(GRANTS, Jira, 53, 3, 500_000)
  {
    assert GRANTS[2].claim == ServiceClaim(Jira, 42, 3) && GRANTS[2].grantId == 53;
    assert GRANTS[0].claim.service == Anthropic && GRANTS[1].claim.service == Grafana;
  }

  // --- Each step is taken ---------------------------------------------------------------------------------

  lemma ReserveHolds(p: Projection)
    requires Stands(p, WAITING, NO_CLAIMS, 2, 0)
    ensures InitialOk(p, IDS)
  {
    WaitingMembers();
  }

  lemma ConfirmHolds(p: Projection)
    requires Stands(p, WAITING, RESERVED, 3, 1)
    ensures InitialConfirmationOk(p, 21, 30, ROW)
  {
  }

  lemma ConfirmedUnder()
    ensures Under(CONFIRMED, 40)
  {
  }

  lemma IntendHolds(p: Projection)
    requires Stands(p, WAITING, CONFIRMED, 4, 2)
    ensures RunIntentOk(p, p.core.head.value, 40, 21, 5, 99, SERVICES)
  {
    hide KnownIds, Members, Under;
    WaitingMembers();
    assert Names(SERVICES) == [Anthropic, Grafana, Jira, Kubernetes];
    ConfirmedUnder();
    KnownUnder(p, 40);
  }

  lemma IntendedUnder()
    ensures Under(INTENDED, 50)
  {
  }

  lemma LaunchHolds(p: Projection)
    requires Stands(p, WAITING, INTENDED, 5, 3)
    ensures LaunchOk(p, 50, Stamp(7, 0, 10), GRANTS)
  {
    hide KnownIds, Members, Under;
    WaitingMembers();
    IntendedUnder();
    KnownUnder(p, 50);
  }

  lemma LaunchedIs()
    ensures Under(LAUNCHED, 60)
    ensures Launched(LAUNCHED) && LateOf(LAUNCHED) == Late(map[], map[], map[], map[], map[], None, None, None)
    ensures LAUNCHED.attestation.None? && LAUNCHED.releaseIntent.None? && LAUNCHED.releaseObservation.None?
  {
  }

  lemma AttestHolds(p: Projection)
    requires Stands(p, WAITING, LAUNCHED, 6, 10)
    ensures AttestationOk(p, 60, Stamp(7, 0, 11))
  {
    hide Unused, Under, PreRelease, LAUNCHED;
    LaunchedIs();
    PreReleased(p, 11);
    FreshId(p, 60, 60);
  }

  lemma AttestedIs()
    ensures ATTESTED == AddClaim(LAUNCHED, AddAttestation(ATTESTATION)) && Under(ATTESTED, 61)
    ensures Launched(ATTESTED) && ATTESTED.attestation == Some(ATTESTATION) && ATTESTED.releaseIntent.None?
    ensures ATTESTED.releaseObservation.None?
    ensures LateOf(ATTESTED) == Late(map[], map[], map[], map[], map[], None, None, None)
  {
    hide Under, LAUNCHED;
    LaunchedIs();
    UnderMore(LAUNCHED, 60, AddAttestation(ATTESTATION), 61);
  }

  lemma ReleaseHolds(p: Projection)
    requires Stands(p, WAITING, ATTESTED, 7, 11)
    ensures ReleaseIntentOk(p, 61, Stamp(7, 0, 12), ACTIVATED)
  {
    hide Unused, Under, PreRelease, ATTESTED;
    AttestedIs();
    PreReleased(p, 12);
    FreshId(p, 61, 61);
  }

  lemma ReleasingIs()
    ensures RELEASING == AddClaim(ATTESTED, AddReleaseIntent(RELEASE)) && Under(RELEASING, 62)
    ensures Launched(RELEASING) && RELEASING.releaseIntent == Some(RELEASE) && RELEASING.releaseObservation.None?
    ensures LateOf(RELEASING) == Late(map[], map[], map[], map[], map[], None, None, None)
  {
    hide Under, ATTESTED;
    AttestedIs();
    UnderMore(ATTESTED, 61, AddReleaseIntent(RELEASE), 62);
  }

  lemma ObserveHolds(p: Projection)
    requires Stands(p, WAITING, RELEASING, 8, 12)
    ensures ReleaseObservationOk(p, 62, Stamp(7, 0, 13))
  {
    hide Unused, Under, RELEASING;
    ReleasingIs();
    FreshId(p, 62, 62);
  }

  lemma ReleasedIs()
    ensures RELEASED == AddClaim(RELEASING, AddReleaseObservation(SEEN)) && Under(RELEASED, 63)
    ensures Launched(RELEASED) && RELEASED.releaseObservation == Some(SEEN)
    ensures LateOf(RELEASED) == Late(map[], map[], map[], map[], map[], None, None, None)
  {
    hide Under, RELEASING;
    ReleasingIs();
    UnderMore(RELEASING, 62, AddReleaseObservation(SEEN), 63);
  }

  lemma ActHolds(p: Projection)
    requires Stands(p, WAITING, RELEASED, 9, 13)
    ensures EffectOk(p, 63, Stamp(7, 0, 14), 64, Jira, IssueCreate, 53, 3, 172, 173, 500_000)
  {
    hide Unused, Under, PreRelease, GrantFor, GRANTS, RELEASED;
    ReleasedIs();
    PreReleased(p, 14);
    JiraGrant();
    FreshId(p, 63, 63);
    FreshId(p, 63, 64);
  }

  lemma ActedIs()
    ensures ACTED == AddClaim(RELEASED, AddEffect(EFFECT)) && Under(ACTED, 65)
    ensures Launched(ACTED)
    ensures LateOf(ACTED) == Late(map[64 := EFFECT], map[], map[], map[], map[], None, None, None)
  {
    hide Under, RELEASED;
    ReleasedIs();
    UnderMore(RELEASED, 63, AddEffect(EFFECT), 65);
  }

  lemma ReceiveHolds(p: Projection)
    requires Stands(p, WAITING, ACTED, 10, 14)
    ensures EffectReceiptOk(p, 65, Stamp(7, 0, 15), 64, R.TransportConfirmed, R.Fine)
  {
    hide Unused, Under, ACTED;
    ActedIs();
    FreshId(p, 65, 65);
  }

  lemma ReceivedIs()
    ensures RECEIVED == AddClaim(ACTED, AddEffectReceipt(RECEIPT)) && Under(RECEIVED, 66)
    ensures Launched(RECEIVED)
    ensures LateOf(RECEIVED) == Late(map[64 := EFFECT], map[64 := RECEIPT], map[], map[], map[], None, None, None)
  {
    hide Under, ACTED;
    ActedIs();
    UnderMore(ACTED, 65, AddEffectReceipt(RECEIPT), 66);
  }

  lemma ReadBackHolds(p: Projection)
    requires Stands(p, WAITING, RECEIVED, 11, 15)
    ensures ReconciledOk(p, 66, Stamp(7, 0, 16), 64, Confirmed, Some(1))
  {
    hide Unused, Under, RECEIVED;
    ReceivedIs();
    FreshId(p, 66, 66);
  }

  lemma ReadBackIs()
    ensures READ_BACK == AddClaim(RECEIVED, AddReconciliation(READING)) && Under(READ_BACK, 67)
    ensures Launched(READ_BACK)
    ensures LateOf(READ_BACK) ==
            Late(map[64 := EFFECT], map[64 := RECEIPT], READ_BACK.reconciliations,
                 map[], map[], None, None, None)
  {
    hide Under, RECEIVED;
    ReceivedIs();
    UnderMore(RECEIVED, 66, AddReconciliation(READING), 67);
  }

  lemma RevokeHolds(p: Projection)
    requires Stands(p, WAITING, READ_BACK, 12, 16)
    ensures ActionOk(p, 67, Stamp(7, 0, 17), 68, RevokeGrant, Some((Jira, 53)))
  {
    hide Unused, Under, READ_BACK;
    ReadBackIs();
    assert GRANTS[2] in GRANTS;
    FreshId(p, 67, 67);
    FreshId(p, 67, 68);
  }

  lemma RevokedIs()
    ensures REVOKED == AddClaim(READ_BACK, AddAction(REVOCATION)) && Under(REVOKED, 69)
    ensures Launched(REVOKED)
    ensures LateOf(REVOKED) ==
            Late(map[64 := EFFECT], map[64 := RECEIPT], READ_BACK.reconciliations,
                 map[68 := REVOCATION], map[], None, None, None)
  {
    hide Under, READ_BACK;
    ReadBackIs();
    UnderMore(READ_BACK, 67, AddAction(REVOCATION), 69);
  }

  lemma EndHolds(p: Projection)
    requires Stands(p, WAITING, REVOKED, 13, 17)
    ensures ActionResultOk(p, 69, Stamp(7, 0, 18), 68, Acknowledged)
  {
    hide Unused, Under, REVOKED;
    RevokedIs();
    FreshId(p, 69, 69);
  }

  lemma EndedIs()
    ensures ENDED == AddClaim(REVOKED, AddActionResult(ActionResult(69, 68, 18, 14))) && Under(ENDED, 70)
    ensures Launched(ENDED)
    ensures LateOf(ENDED) ==
            Late(map[64 := EFFECT], map[64 := RECEIPT], READ_BACK.reconciliations,
                 map[68 := REVOCATION], ENDED.actionResults, None, None, None)
  {
    hide Under, REVOKED;
    RevokedIs();
    UnderMore(REVOKED, 69, AddActionResult(ActionResult(69, 68, 18, 14)), 70);
  }

  lemma ProcessHolds(p: Projection)
    requires Stands(p, WAITING, ENDED, 14, 18)
    ensures ExecutionBase(p, 70, Stamp(7, 0, 19))
  {
    hide Unused, Under, ENDED;
    EndedIs();
    FreshId(p, 70, 70);
  }

  lemma ObservedIs()
    ensures OBSERVED == AddClaim(ENDED, AddProcess(PROCESS)) && Under(OBSERVED, 71)
    ensures Launched(OBSERVED)
    ensures LateOf(OBSERVED) ==
            Late(map[64 := EFFECT], map[64 := RECEIPT], READ_BACK.reconciliations,
                 map[68 := REVOCATION], ENDED.actionResults, Some(PROCESS), None, None)
  {
    hide Under, ENDED;
    EndedIs();
    UnderMore(ENDED, 70, AddProcess(PROCESS), 71);
  }

  lemma TerminalHolds(p: Projection)
    requires Stands(p, WAITING, OBSERVED, 15, 19)
    ensures ExecutionBase(p, 71, Stamp(7, 0, 20))
  {
    hide Unused, Under, OBSERVED;
    ObservedIs();
    FreshId(p, 71, 71);
  }

  lemma TerminatedIs()
    ensures TERMINATED == AddClaim(OBSERVED, AddTerminal(TERMINAL)) && Under(TERMINATED, 72)
    ensures Launched(TERMINATED)
    ensures LateOf(TERMINATED) ==
            Late(map[64 := EFFECT], map[64 := RECEIPT], READ_BACK.reconciliations,
                 map[68 := REVOCATION], ENDED.actionResults, Some(PROCESS), Some(TERMINAL), None)
  {
    hide Under, OBSERVED;
    ObservedIs();
    UnderMore(OBSERVED, 71, AddTerminal(TERMINAL), 72);
  }

  lemma AssessHolds(p: Projection)
    requires Stands(p, WAITING, TERMINATED, 16, 20)
    ensures ExecutionBase(p, 72, Stamp(7, 0, 21))
  {
    hide Unused, Under, TERMINATED;
    TerminatedIs();
    FreshId(p, 72, 72);
  }

  lemma ReservedNow() returns (commits: seq<seq<Record>>)
    ensures Reached(commits, WAITING, CONFIRMED, 4, 2)
  {
    hide Accepted, Fold, Under,
        RunHoldOk, IntentOk, InitialOk, ConfirmationOk, InitialConfirmationOk, RunIntentOk, LaunchOk,
        AttestationOk, ReleaseIntentOk, ReleaseObservationOk, EffectOk, EffectReceiptOk, ActionOk, ActionResultOk,
        ExecutionBase, ReconciledOk, RestartReconciledOk;
    commits := AdmittedNow();
    WaitingMembers();
    ReserveHolds(Fold(EMPTY, commits));
    commits := Claims(commits, WAITING, NO_CLAIMS, 2, 0, 21, 1, InitialIntent(IDS), AddInitial(INITIAL));
    ConfirmHolds(Fold(EMPTY, commits));
    commits := Claims(commits, WAITING, RESERVED, 3, 1, 30, 2,
                      InitialConfirmation(21, ROW), AddInitialConfirmation(Counterpart(21, 30, ROW, 4)));
  }

  lemma LaunchedNow() returns (commits: seq<seq<Record>>)
    ensures Reached(commits, WAITING, LAUNCHED, 6, 10)
  {
    hide Accepted, Fold, Under,
        RunHoldOk, IntentOk, InitialOk, ConfirmationOk, InitialConfirmationOk, RunIntentOk, LaunchOk,
        AttestationOk, ReleaseIntentOk, ReleaseObservationOk, EffectOk, EffectReceiptOk, ActionOk, ActionResultOk,
        ExecutionBase, ReconciledOk, RestartReconciledOk;
    commits := ReservedNow();
    IntendHolds(Fold(EMPTY, commits));
    commits := Claims(commits, WAITING, CONFIRMED, 4, 2, 40, 3, RunIntended(21, 5, 99, SERVICES), AddRunIntent(RUN));
    LaunchHolds(Fold(EMPTY, commits));
    commits := Claims(commits, WAITING, INTENDED, 5, 3, 50, 10, LaunchClaimed(0, 0, GRANTS), AddLaunch(LAUNCH));
  }

  lemma ReleasedNow() returns (commits: seq<seq<Record>>)
    ensures Reached(commits, WAITING, RELEASED, 9, 13)
  {
    hide Accepted, Fold, AddClaim, Under,
        RunHoldOk, IntentOk, InitialOk, ConfirmationOk, InitialConfirmationOk, RunIntentOk, LaunchOk,
        AttestationOk, ReleaseIntentOk, ReleaseObservationOk, EffectOk, EffectReceiptOk, ActionOk, ActionResultOk,
        ExecutionBase, ReconciledOk, RestartReconciledOk,
        LAUNCHED, ATTESTED, RELEASING, RELEASED;
    commits := LaunchedNow();
    LaunchedIs();
    AttestedIs();
    ReleasingIs();
    ReleasedIs();
    AttestHolds(Fold(EMPTY, commits));
    commits := Claims(commits, WAITING, LAUNCHED, 6, 10, 60, 11, Attested(0), AddAttestation(ATTESTATION));
    ReleaseHolds(Fold(EMPTY, commits));
    commits := Claims(commits, WAITING, ATTESTED, 7, 11, 61, 12,
                      ReleaseIntended(ACTIVATED), AddReleaseIntent(RELEASE));
    ObserveHolds(Fold(EMPTY, commits));
    commits := Claims(commits, WAITING, RELEASING, 8, 12, 62, 13, ReleaseObserved(0), AddReleaseObservation(SEEN));
  }

  lemma EffectedNow() returns (commits: seq<seq<Record>>)
    ensures Reached(commits, WAITING, READ_BACK, 12, 16)
  {
    hide Accepted, Fold, AddClaim, Under,
        RunHoldOk, IntentOk, InitialOk, ConfirmationOk, InitialConfirmationOk, RunIntentOk, LaunchOk,
        AttestationOk, ReleaseIntentOk, ReleaseObservationOk, EffectOk, EffectReceiptOk, ActionOk, ActionResultOk,
        ExecutionBase, ReconciledOk, RestartReconciledOk,
        RELEASED, ACTED, RECEIVED, READ_BACK;
    commits := ReleasedNow();
    ReleasedIs();
    ActedIs();
    ReceivedIs();
    ReadBackIs();
    ActHolds(Fold(EMPTY, commits));
    commits := Claims(commits, WAITING, RELEASED, 9, 13, 63, 14,
                      EffectIntended(64, Jira, IssueCreate, 53, 3, 172, 173, 0, 0, 500_000), AddEffect(EFFECT));
    ReceiveHolds(Fold(EMPTY, commits));
    commits := Claims(commits, WAITING, ACTED, 10, 14, 65, 15,
                      EffectReceived(64, R.TransportConfirmed, R.Fine, 0), AddEffectReceipt(RECEIPT));
    ReadBackHolds(Fold(EMPTY, commits));
    commits := Claims(commits, WAITING, RECEIVED, 11, 15, 66, 16,
                      Reconciled(64, Confirmed, Some(1)), AddReconciliation(READING));
  }

  lemma CleanedUp() returns (commits: seq<seq<Record>>)
    ensures Reached(commits, WAITING, ENDED, 14, 18)
  {
    hide Accepted, Fold, AddClaim, Under,
        RunHoldOk, IntentOk, InitialOk, ConfirmationOk, InitialConfirmationOk, RunIntentOk, LaunchOk,
        AttestationOk, ReleaseIntentOk, ReleaseObservationOk, EffectOk, EffectReceiptOk, ActionOk, ActionResultOk,
        ExecutionBase, ReconciledOk, RestartReconciledOk,
        READ_BACK, REVOKED, ENDED;
    commits := EffectedNow();
    ReadBackIs();
    RevokedIs();
    EndedIs();
    RevokeHolds(Fold(EMPTY, commits));
    commits := Claims(commits, WAITING, READ_BACK, 12, 16, 67, 17,
                      ActionIntended(68, RevokeGrant, Some((Jira, 53))), AddAction(REVOCATION));
    EndHolds(Fold(EMPTY, commits));
    commits := Claims(commits, WAITING, REVOKED, 13, 17, 69, 18,
                      ActionEnded(68, Acknowledged), AddActionResult(ActionResult(69, 68, 18, 14)));
  }

  lemma AssessedNow() returns (commits: seq<seq<Record>>)
    ensures Reached(commits, WAITING, ASSESSED, 17, 21)
  {
    hide Accepted, Fold, AddClaim, Under,
        RunHoldOk, IntentOk, InitialOk, ConfirmationOk, InitialConfirmationOk, RunIntentOk, LaunchOk,
        AttestationOk, ReleaseIntentOk, ReleaseObservationOk, EffectOk, EffectReceiptOk, ActionOk, ActionResultOk,
        ExecutionBase, ReconciledOk, RestartReconciledOk,
        ENDED, OBSERVED, TERMINATED;
    commits := CleanedUp();
    EndedIs();
    ObservedIs();
    TerminatedIs();
    ProcessHolds(Fold(EMPTY, commits));
    commits := Claims(commits, WAITING, ENDED, 14, 18, 70, 19, ProcessObserved(false, 0), AddProcess(PROCESS));
    TerminalHolds(Fold(EMPTY, commits));
    commits := Claims(commits, WAITING, OBSERVED, 15, 19, 71, 20, TerminalObserved(0), AddTerminal(TERMINAL));
    AssessHolds(Fold(EMPTY, commits));
    commits := Claims(commits, WAITING, TERMINATED, 16, 20, 72, 21,
                      ExecutionAssessed, AddAssessment(Observation(72, 7, 21, 17)));
  }

  /** From the first commit on, every claim family is entered: there is a journal with an effect received
      and read back, a grant revoked, the process observed and the run assessed. */
  lemma GoesAllTheWay()
    ensures exists commits: seq<seq<Record>> ::
      && Accepted(EMPTY, commits)
      && var c := Fold(EMPTY, commits).claims;
         && c.effects != map[] && c.effectReceipts != map[] && c.reconciliations != map[] && c.actions != map[]
         && c.actionResults != map[] && c.process.Some? && c.terminal.Some? && c.assessment.Some?
  {
    hide Accepted, Fold, Under, TERMINATED, AddClaim;
    var commits := AssessedNow();
    TerminatedIs();
    ReadBackEntered();
    var c := Fold(EMPTY, commits).claims;
    AssessmentOnly(TERMINATED, Observation(72, 7, 21, 17));
    assert c == ASSESSED && 64 in c.effects && 64 in c.effectReceipts && 68 in c.actions;
  }

  lemma AssessmentOnly(c: Claims, x: Observation)
    ensures AddClaim(c, AddAssessment(x)) == c.(assessment := Some(x))
  {
  }

  lemma ReadBackEntered()
    ensures READ_BACK.reconciliations != map[] && ENDED.actionResults != map[]
  {
    hide RECEIVED, REVOKED;
    assert 64 in READ_BACK.reconciliations && 68 in ENDED.actionResults;
  }
}
