/** Claims are only ever added: whatever is on record stays on record as it is, and no identity is
    given out again. */
module JournalKeeps {
  import opened Text
  import opened Journal
  import JournalChain

  /** Every entry of one map is in the other, unchanged. */
  predicate Within<V(==)>(a: map<Id, V>, b: map<Id, V>) { forall k | k in a :: k in b && b[k] == a[k] }

  predicate Stays<V(==)>(a: Option<V>, b: Option<V>) { a.Some? ==> b == a }

  /** Every list of read-backs is continued. */
  predicate Continues(a: map<Id, seq<Reconciliation>>, b: map<Id, seq<Reconciliation>>) {
    forall k | k in a :: k in b && a[k] <= b[k]
  }

  predicate Reservations(a: Claims, b: Claims) {
    && Within(a.runHolds, b.runHolds) && Within(a.intents, b.intents) && Within(a.confirmations, b.confirmations)
    && Within(a.initials, b.initials) && Within(a.initialConfirmations, b.initialConfirmations)
    && Stays(a.runIntent, b.runIntent) && Stays(a.launch, b.launch)
  }

  predicate Stages(a: Claims, b: Claims) {
    && Stays(a.attestation, b.attestation) && Stays(a.releaseIntent, b.releaseIntent)
    && Stays(a.releaseObservation, b.releaseObservation)
    && Stays(a.process, b.process) && Stays(a.terminal, b.terminal) && Stays(a.assessment, b.assessment)
  }

  predicate Families(a: Claims, b: Claims) {
    && Within(a.effects, b.effects) && Within(a.effectReceipts, b.effectReceipts)
    && Within(a.actions, b.actions) && Within(a.actionResults, b.actionResults)
    && Continues(a.reconciliations, b.reconciliations)
    && Continues(a.restartReconciliations, b.restartReconciliations)
  }

  /** Nothing of `a` is changed or missing in `b`. */
  predicate Extends(a: Claims, b: Claims) { Reservations(a, b) && Stages(a, b) && Families(a, b) }

  lemma ExtendsSelf(a: Claims)
    ensures Extends(a, a)
  {
  }

  lemma ExtendsOn(a: Claims, b: Claims, c: Claims)
    requires Extends(a, b) && Extends(b, c)
    ensures Extends(a, c)
  {
    hide Reservations, Stages, Families;
    assert Reservations(a, c) by { ReservationsOn(a, b, c); }
    assert Stages(a, c) by { StagesOn(a, b, c); }
    assert Families(a, c) by { FamiliesOn(a, b, c); }
  }

  lemma ReservationsOn(a: Claims, b: Claims, c: Claims)
    requires Reservations(a, b) && Reservations(b, c)
    ensures Reservations(a, c)
  {
  }

  lemma StagesOn(a: Claims, b: Claims, c: Claims)
    requires Stages(a, b) && Stages(b, c)
    ensures Stages(a, c)
  {
  }

  lemma FamiliesOn(a: Claims, b: Claims, c: Claims)
    requires Families(a, b) && Families(b, c)
    ensures Families(a, c)
  {
  }

  // --- Every claim is a new one --------------------------------------------------------------------

  /** The place a claim takes is free. */
  predicate Free(c: Claims, claim: Claim) {
    match claim
    case AddRunHold(job, _) => job !in c.runHolds
    case AddIntent(x) => x.ids.intentId !in c.intents
    case AddInitial(x) => x.ids.intentId !in c.initials
    case AddConfirmation(x) => x.intentId !in c.confirmations
    case AddInitialConfirmation(x) => x.intentId !in c.initialConfirmations
    case AddRunIntent(_) => c.runIntent.None?
    case AddLaunch(_) => c.launch.None?
    case AddAttestation(_) => c.attestation.None?
    case AddReleaseIntent(_) => c.releaseIntent.None?
    case AddReleaseObservation(_) => c.releaseObservation.None?
    case AddEffect(x) => x.operationId !in c.effects
    case AddEffectReceipt(x) => x.operationId !in c.effectReceipts
    case AddAction(x) => x.actionId !in c.actions
    case AddActionResult(x) => x.actionId !in c.actionResults
    case AddProcess(_) => c.process.None?
    case AddTerminal(_) => c.terminal.None?
    case AddAssessment(_) => c.assessment.None?
    case AddReconciliation(_) => true
    case AddRestartReconciliation(_) => true
  }

  lemma FreeExtends(c: Claims, claim: Claim)
    requires Free(c, claim)
    ensures Extends(c, AddClaim(c, claim))
  {
    hide Reservations, Stages, Families;
    assert Reservations(c, AddClaim(c, claim)) by { FreeReservations(c, claim); }
    assert Stages(c, AddClaim(c, claim)) by { FreeStages(c, claim); }
    assert Families(c, AddClaim(c, claim)) by { FreeFamilies(c, claim); }
  }

  lemma WithinSelf<V>(m: map<Id, V>)
    ensures Within(m, m)
  {
  }

  lemma WithinMore<V>(m: map<Id, V>, k: Id, v: V)
    requires k !in m
    ensures Within(m, m[k := v])
  {
  }

  lemma ContinuesSelf(m: map<Id, seq<Reconciliation>>)
    ensures Continues(m, m)
  {
  }

  lemma ContinuesMore(m: map<Id, seq<Reconciliation>>, k: Id, r: Reconciliation)
    ensures Continues(m, m[k := Earlier(m, k) + [r]])
  {
  }

  lemma FreeReservations(c: Claims, claim: Claim)
    requires Free(c, claim)
    ensures Reservations(c, AddClaim(c, claim))
  {
    hide Within;
    WithinSelf(c.runHolds);
    WithinSelf(c.intents);
    WithinSelf(c.confirmations);
    WithinSelf(c.initials);
    WithinSelf(c.initialConfirmations);
    match claim
    case AddRunHold(job, x) => WithinMore(c.runHolds, job, x);
    case AddIntent(x) => WithinMore(c.intents, x.ids.intentId, x);
    case AddConfirmation(x) => WithinMore(c.confirmations, x.intentId, x);
    case AddInitial(x) => WithinMore(c.initials, x.ids.intentId, x);
    case AddInitialConfirmation(x) => WithinMore(c.initialConfirmations, x.intentId, x);
    case _ =>
  }

  lemma FreeStages(c: Claims, claim: Claim)
    requires Free(c, claim)
    ensures Stages(c, AddClaim(c, claim))
  {
    hide Within, Continues;
  }

  lemma FreeFamilies(c: Claims, claim: Claim)
    requires Free(c, claim)
    ensures Families(c, AddClaim(c, claim))
  {
    hide Within, Continues;
    WithinSelf(c.effects);
    WithinSelf(c.effectReceipts);
    WithinSelf(c.actions);
    WithinSelf(c.actionResults);
    ContinuesSelf(c.reconciliations);
    ContinuesSelf(c.restartReconciliations);
    match claim
    case AddEffect(x) => WithinMore(c.effects, x.operationId, x);
    case AddEffectReceipt(x) => WithinMore(c.effectReceipts, x.operationId, x);
    case AddAction(x) => WithinMore(c.actions, x.actionId, x);
    case AddActionResult(x) => WithinMore(c.actionResults, x.actionId, x);
    case AddReconciliation(x) => ContinuesMore(c.reconciliations, x.operationId, x);
    case AddRestartReconciliation(x) => ContinuesMore(c.restartReconciliations, x.operationId, x);
    case _ =>
  }

  lemma UnusedFree(p: Projection, id: Id)
    requires Unused(p, id)
    ensures id !in p.claims.effects && id !in p.claims.actions
  {
    hide KnownIds, ChainIds;
    assert p.claims.effects.Keys <= FamilyIds(p.claims) && p.claims.actions.Keys <= FamilyIds(p.claims);
  }

  lemma IntentFree(p: Projection, i: Ids)
    requires IntentOk(p, i)
    ensures i.intentId !in p.claims.intents || p.claims.intents[i.intentId].ids.intentId != i.intentId
  {
    hide Members, AllDifferent;
    if i.intentId in p.claims.intents {
      var other := p.claims.intents[i.intentId].ids;
      assert FreshIds(i) * FreshIds(other) == {};
      assert i.intentId in FreshIds(i) && other.intentId in FreshIds(other);
      assert other.intentId == i.intentId ==> i.intentId in FreshIds(i) * FreshIds(other);
    }
  }

  lemma ReservationFree(p: Projection, t: JournalChain.Time, head: Head, r: Record)
    requires Guard(p, head, r) && JournalChain.Chained(t, p.claims)
    requires r.content.RunHoldSet? || r.content.ReservationIntent? || r.content.InitialIntent?
        || r.content.Confirmation? || r.content.InitialConfirmation?
    ensures Free(p.claims, ClaimOf(p, head, r))
  {
    hide IntentOk, RunIntentOk, LaunchOk, AttestationOk, ReleaseIntentOk, ReleaseObservationOk, EffectOk,
        EffectReceiptOk, ActionOk, ActionResultOk, ExecutionBase, ReconciledOk, RestartReconciledOk,
        JournalChain.Chained, Members, AllDifferent, EventFree, LedgerFree, FreshIds, Unheld, ConfirmationShape;
    match r.content
    case ReservationIntent(ids) => { IntentFree(p, ids); IntentKeys(t, p.claims, ids.intentId); }
    case RunHoldSet(_, _) =>
    case InitialIntent(_) =>
    case Confirmation(_, _) =>
    case InitialConfirmation(_, _) =>
  }

  lemma StageFree(p: Projection, head: Head, r: Record)
    requires Guard(p, head, r)
    requires r.content.RunIntended? || r.content.LaunchClaimed? || r.content.Attested? || r.content.ReleaseIntended?
        || r.content.ReleaseObserved?
    ensures Free(p.claims, ClaimOf(p, head, r))
  {
    hide RunHoldOk, IntentOk, InitialOk, ConfirmationOk, InitialConfirmationOk, EffectOk, EffectReceiptOk, ActionOk,
        ActionResultOk, ExecutionBase, ReconciledOk, RestartReconciledOk, Members, Unused, PreRelease, ServicesOk,
        GrantsOk, KnownIds, ActivationsOk;
  }

  lemma OperationFree(p: Projection, head: Head, r: Record)
    requires Guard(p, head, r)
    requires r.content.EffectIntended? || r.content.EffectReceived? || r.content.ActionIntended?
        || r.content.ActionEnded?
    ensures Free(p.claims, ClaimOf(p, head, r))
  {
    hide RunHoldOk, IntentOk, InitialOk, ConfirmationOk, InitialConfirmationOk, RunIntentOk, LaunchOk, AttestationOk,
        ReleaseIntentOk, ReleaseObservationOk, ExecutionBase, ReconciledOk, RestartReconciledOk, Unused, PreRelease,
        GrantFor, RouteService, Revoked, Members, OutcomeOf;
    match r.content
    case EffectIntended(op, _, _, _, _, _, _, _, _, _) => UnusedFree(p, op);
    case ActionIntended(id, _, _) => UnusedFree(p, id);
    case EffectReceived(_, _, _, _) =>
    case ActionEnded(_, _) =>
  }

  lemma AftermathFree(p: Projection, head: Head, r: Record)
    requires Guard(p, head, r)
    requires r.content.ProcessObserved? || r.content.TerminalObserved? || r.content.ExecutionAssessed?
        || r.content.Reconciled? || r.content.RestartReconciled?
    ensures Free(p.claims, ClaimOf(p, head, r))
  {
    hide RunHoldOk, IntentOk, InitialOk, ConfirmationOk, InitialConfirmationOk, RunIntentOk, LaunchOk, AttestationOk,
        ReleaseIntentOk, ReleaseObservationOk, EffectOk, EffectReceiptOk, ActionOk, ActionResultOk, ExecutionBase,
        ReconciledOk, RestartReconciledOk, Members, Earlier;
  }

  lemma GuardFree(p: Projection, t: JournalChain.Time, head: Head, r: Record)
    requires Guard(p, head, r) && JournalChain.Chained(t, p.claims)
    ensures Free(p.claims, ClaimOf(p, head, r))
  {
    hide RunHoldOk, IntentOk, InitialOk, ConfirmationOk, InitialConfirmationOk, RunIntentOk, LaunchOk, AttestationOk,
        ReleaseIntentOk, ReleaseObservationOk, EffectOk, EffectReceiptOk, ActionOk, ActionResultOk, ExecutionBase,
        ReconciledOk, RestartReconciledOk, JournalChain.Chained, ClaimOf, Free;
    var k := r.content;
    if k.RunHoldSet? || k.ReservationIntent? || k.InitialIntent? || k.Confirmation? || k.InitialConfirmation? {
      ReservationFree(p, t, head, r);
    } else if k.RunIntended? || k.LaunchClaimed? || k.Attested? || k.ReleaseIntended? || k.ReleaseObserved? {
      StageFree(p, head, r);
    } else if k.EffectIntended? || k.EffectReceived? || k.ActionIntended? || k.ActionEnded? {
      OperationFree(p, head, r);
    } else {
      AftermathFree(p, head, r);
    }
  }

  lemma IntentKeys(t: JournalChain.Time, c: Claims, k: Id)
    requires JournalChain.Chained(t, c)
    ensures k in c.intents ==> c.intents[k].ids.intentId == k
  {
    hide JournalChain.Reserving, JournalChain.Intending, JournalChain.Launching, JournalChain.Attesting,
        JournalChain.Releasing, JournalChain.Released, JournalChain.Effecting, JournalChain.Receiving,
        JournalChain.Acting, JournalChain.Ending, JournalChain.Assessing, JournalChain.Reconciling;
    if k in c.intents { assert JournalChain.Reattempted(t, c.runHolds, k, c.intents[k]); }
  }

  // --- Over every run -------------------------------------------------------------------------------------

  lemma StepExtends(p: Projection, records: seq<Record>)
    requires JournalChain.Whole(p) && Accepts(p, records)
    ensures Extends(p.claims, After(p, records).claims)
  {
    hide Verify, VerifyOne, VerifyAdmission, JournalChain.Chained, JournalChain.ThisBoot, JournalChain.CoreOk,
        JournalChain.TimeOf, ApplyCore, ApplyFront, AddClaim, Guard, ClaimOf, Extends;
    Decided(p, records);
    var r, d := records[0], Verify(p, records).value;
    if r.content.Admission? { JournalChain.AdmissionMoves(p, r, records[1]); } else { JournalChain.OneMoves(p, r); }
    ExtendsSelf(p.claims);
    if d.change.Add? {
      GuardFree(p, JournalChain.TimeOf(p.core), p.core.head.value, r);
      FreeExtends(p.claims, d.change.claim);
    }
  }

  lemma {:induction false} RunExtends(p: Projection, commits: seq<seq<Record>>)
    requires JournalChain.Whole(p) && Accepted(p, commits)
    ensures Extends(p.claims, Fold(p, commits).claims)
    decreases |commits|
  {
    hide Accepts, After, JournalChain.Whole, Extends;
    if commits == [] {
      ExtendsSelf(p.claims);
    } else {
      JournalChain.StepWhole(p, commits[0]);
      StepExtends(p, commits[0]);
      RunExtends(After(p, commits[0]), commits[1..]);
      ExtendsOn(p.claims, After(p, commits[0]).claims, Fold(p, commits).claims);
    }
  }

  /** Over every continuation of every reachable journal, each claim stays on record as it was made. */
  lemma AppendOnly(commits: seq<seq<Record>>, more: seq<seq<Record>>)
    requires Accepted(EMPTY, commits) && Accepted(Fold(EMPTY, commits), more)
    ensures Extends(Fold(EMPTY, commits).claims, Fold(Fold(EMPTY, commits), more).claims)
  {
    hide Accepted, Fold, JournalChain.Whole, Extends;
    JournalChain.EmptyWhole();
    JournalChain.RunWhole(EMPTY, commits);
    RunExtends(Fold(EMPTY, commits), more);
  }

  // --- Identities ---------------------------------------------------------------------------------------------

  /** The claims of a run in progress, which each carry an identity of their own. */
  predicate InRun(c: Content) {
    || c.Attested? || c.ReleaseIntended? || c.ReleaseObserved? || c.EffectIntended? || c.EffectReceived?
    || c.ActionIntended? || c.ActionEnded? || c.ProcessObserved? || c.TerminalObserved? || c.ExecutionAssessed?
    || c.Reconciled? || c.RestartReconciled?
  }

  lemma InRunUnused(p: Projection, head: Head, r: Record)
    requires Guard(p, head, r) && InRun(r.content)
    ensures Unused(p, r.eventId)
  {
    hide Unused, PreRelease, GrantFor, RouteService, Revoked, Members, OutcomeOf, ActivationsOk, ReadBackOf, VersionOk,
        RunHoldOk, IntentOk, InitialOk, ConfirmationOk, InitialConfirmationOk, RunIntentOk, LaunchOk;
  }

  /** The identities claims of a run carry. */
  function RunIds(c: Claims): set<Id> { ChainIds(c) + FamilyIds(c) }

  lemma OptionIds(a: Claims, b: Claims)
    requires Extends(a, b)
    ensures ChainIds(a) <= ChainIds(b)
  {
    hide Families;
  }

  lemma MapIds(a: Claims, b: Claims)
    requires Families(a, b)
    ensures FamilyIds(a) <= FamilyIds(b)
  {
    ReadBackIds(a.reconciliations, b.reconciliations);
    ReadBackIds(a.restartReconciliations, b.restartReconciliations);
  }

  function IdsIn(m: map<Id, seq<Reconciliation>>): set<Id> { set k, r | k in m && r in m[k] :: r.eventId }

  lemma ReadBackIds(a: map<Id, seq<Reconciliation>>, b: map<Id, seq<Reconciliation>>)
    requires Continues(a, b)
    ensures IdsIn(a) <= IdsIn(b)
  {
    forall k, r | k in a && r in a[k] ensures k in b && r in b[k] {
      var i :| 0 <= i < |a[k]| && a[k][i] == r;
      assert b[k][i] == r;
    }
  }

  /** Where an event id goes when its claim is added. */
  lemma EventAdded(p: Projection, head: Head, r: Record)
    requires Guard(p, head, r) && InRun(r.content)
    ensures r.eventId in RunIds(AddClaim(p.claims, ClaimOf(p, head, r)))
  {
    hide RunHoldOk, IntentOk, InitialOk, ConfirmationOk, InitialConfirmationOk, RunIntentOk, LaunchOk, AttestationOk,
        ReleaseIntentOk, ReleaseObservationOk, EffectOk, EffectReceiptOk, ActionOk, ActionResultOk, ExecutionBase,
        ReconciledOk, RestartReconciledOk, Members, ChainIds, FamilyIds;
    match r.content
    case Attested(_) => StageAdded(p.claims, ClaimOf(p, head, r), r.eventId);
    case ReleaseIntended(_) => StageAdded(p.claims, ClaimOf(p, head, r), r.eventId);
    case ReleaseObserved(_) => StageAdded(p.claims, ClaimOf(p, head, r), r.eventId);
    case ProcessObserved(_, _) => StageAdded(p.claims, ClaimOf(p, head, r), r.eventId);
    case TerminalObserved(_) => StageAdded(p.claims, ClaimOf(p, head, r), r.eventId);
    case ExecutionAssessed => StageAdded(p.claims, ClaimOf(p, head, r), r.eventId);
    case EffectIntended(_, _, _, _, _, _, _, _, _, _) => FamilyAdded(p.claims, ClaimOf(p, head, r), r.eventId);
    case EffectReceived(_, _, _, _) => FamilyAdded(p.claims, ClaimOf(p, head, r), r.eventId);
    case ActionIntended(_, _, _) => FamilyAdded(p.claims, ClaimOf(p, head, r), r.eventId);
    case ActionEnded(_, _) => FamilyAdded(p.claims, ClaimOf(p, head, r), r.eventId);
    case Reconciled(_, _, _) => ReadBackAdded(p.claims, ClaimOf(p, head, r), r.eventId);
    case RestartReconciled(_, _, _) => ReadBackAdded(p.claims, ClaimOf(p, head, r), r.eventId);
  }

  lemma StageAdded(c: Claims, claim: Claim, id: Id)
    requires (claim.AddAttestation? && claim.attestation.eventId == id)
          || (claim.AddReleaseIntent? && claim.releaseIntent.eventId == id)
          || (claim.AddReleaseObservation? && claim.releaseObservation.eventId == id)
          || (claim.AddProcess? && claim.process.eventId == id) || (claim.AddTerminal? && claim.terminal.eventId == id)
          || (claim.AddAssessment? && claim.assessment.eventId == id)
    ensures id in ChainIds(AddClaim(c, claim))
  {
  }

  lemma FamilyAdded(c: Claims, claim: Claim, id: Id)
    requires (claim.AddEffect? && claim.effect.eventId == id)
          || (claim.AddEffectReceipt? && claim.effectReceipt.eventId == id)
          || (claim.AddAction? && claim.action.eventId == id)
          || (claim.AddActionResult? && claim.actionResult.eventId == id)
    ensures id in FamilyIds(AddClaim(c, claim))
  {
    var d := AddClaim(c, claim);
    if claim.AddEffect? { assert claim.effect.operationId in d.effects; }
    if claim.AddEffectReceipt? { assert claim.effectReceipt.operationId in d.effectReceipts; }
    if claim.AddAction? { assert claim.action.actionId in d.actions; }
    if claim.AddActionResult? { assert claim.actionResult.actionId in d.actionResults; }
  }

  lemma ReadBackAdded(c: Claims, claim: Claim, id: Id)
    requires (claim.AddReconciliation? && claim.reconciliation.eventId == id)
          || (claim.AddRestartReconciliation? && claim.restartReconciliation.eventId == id)
    ensures id in FamilyIds(AddClaim(c, claim))
  {
    var d := AddClaim(c, claim);
    if claim.AddReconciliation? {
      var x := claim.reconciliation;
      assert x.operationId in d.reconciliations && x in d.reconciliations[x.operationId];
      assert id in IdsIn(d.reconciliations);
    } else {
      var x := claim.restartReconciliation;
      assert x.operationId in d.restartReconciliations && x in d.restartReconciliations[x.operationId];
      assert id in IdsIn(d.restartReconciliations);
    }
  }

  lemma Claimed(p: Projection, records: seq<Record>)
    requires JournalChain.CoreOk(p.core) && Accepts(p, records) && InRun(records[0].content)
    ensures records != [] && Unused(p, records[0].eventId)
    ensures records[0].eventId in RunIds(After(p, records).claims)
  {
    hide Verify, JournalChain.CoreOk, ApplyCore, ApplyFront, AddClaim, Guard, ClaimOf, Unused, RunIds, Fits, BodyCap;
    Decided(p, records);
    var r := records[0];
    assert VerifyOne(p, r) == VerifyClaim(p, r);
    InRunUnused(p, p.core.head.value, r);
    EventAdded(p, p.core.head.value, r);
  }

  /** No two claims of a run, however far apart, carry the same event id. */
  lemma NoIdTwice(commits: seq<seq<Record>>, first: seq<Record>, more: seq<seq<Record>>, second: seq<Record>)
    requires Accepted(EMPTY, commits) && Accepts(Fold(EMPTY, commits), first) && InRun(first[0].content)
    requires Accepted(After(Fold(EMPTY, commits), first), more)
    requires Accepts(Fold(After(Fold(EMPTY, commits), first), more), second) && InRun(second[0].content)
    ensures first[0].eventId != second[0].eventId
  {
    hide Accepted, Fold, Accepts, After, Extends, Unused, RunIds, JournalChain.Whole;
    JournalChain.EmptyWhole();
    JournalChain.RunWhole(EMPTY, commits);
    var p := Fold(EMPTY, commits);
    var q := After(p, first);
    var e := Fold(q, more);
    WholeCore(p);
    Claimed(p, first);
    JournalChain.StepWhole(p, first);
    RunExtends(q, more);
    JournalChain.RunWhole(q, more);
    WholeCore(e);
    Claimed(e, second);
    Carried(q.claims, e, first[0].eventId);
  }

  lemma WholeCore(p: Projection)
    requires JournalChain.Whole(p)
    ensures JournalChain.CoreOk(p.core)
  {
    hide JournalChain.Chained, JournalChain.ThisBoot, JournalChain.CoreOk;
  }

  lemma Carried(c: Claims, p: Projection, id: Id)
    requires Extends(c, p.claims) && id in RunIds(c)
    ensures !Unused(p, id)
  {
    hide KnownIds, ChainIds, FamilyIds;
    OptionIds(c, p.claims);
    MapIds(c, p.claims);
  }
}
