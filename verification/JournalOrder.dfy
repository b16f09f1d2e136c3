/** What each claim closes the door to: effects end where cleanup or the process's end begins, cleanup
    goes in order, nothing is claimed twice, and every family stays within its size. */
module JournalOrder {
  import opened Text
  import opened Journal
  import opened JournalChain

  // --- The order ---------------------------------------------------------------------------------

  /** Everything that leads to effects, and every effect, comes before the process was observed. */
  predicate BeforeProcess(attestation: Option<Attestation>, release: Option<ReleaseIntent>, effects: map<Id, Effect>,
                          process: Option<Observation>) {
    process.Some? ==>
      && (attestation.Some? ==> attestation.value.committed < process.value.committed)
      && (release.Some? ==> release.value.committed < process.value.committed)
      && (forall k | k in effects :: effects[k].committed < process.value.committed)
  }

  /** The release and every effect come before any cleanup action. */
  predicate BeforeCleanup(release: Option<ReleaseIntent>, effects: map<Id, Effect>, actions: map<Id, Action>) {
    && (release.Some? ==> forall a | a in actions :: release.value.committed < actions[a].committed)
    && (forall k, a | k in effects && a in actions :: effects[k].committed < actions[a].committed)
  }

  predicate IsGrant(launch: Launch, grant: (Service, Id)) {
    exists g | g in launch.grants :: g.claim.service == grant.0 && g.grantId == grant.1
  }

  /** A revocation names a grant of the launch; a signal follows the attestation. */
  predicate WellAimed(launch: Option<Launch>, attestation: Option<Attestation>, a: Action) {
    if a.kind.RevokeGrant? then launch.Some? && a.grant.Some? && IsGrant(launch.value, a.grant.value)
    else a.grant.None? && attestation.Some? && attestation.value.committed < a.committed
  }

  /** Of two different actions: no grant is revoked twice, no signal sent twice, no revocation comes after
      a signal, and no interrupt after a kill. */
  predicate InTurn(a: Action, b: Action) {
    && (a.kind.RevokeGrant? && b.kind.RevokeGrant? ==>
          a.grant.Some? && b.grant.Some? && a.grant.value.1 != b.grant.value.1)
    && (!a.kind.RevokeGrant? ==> a.kind != b.kind)
    && (a.kind.RevokeGrant? && !b.kind.RevokeGrant? ==> a.committed < b.committed)
    && (a.kind.SignalInterrupt? && b.kind.SignalKill? ==> a.committed < b.committed)
  }

  predicate Cleanup(launch: Option<Launch>, attestation: Option<Attestation>, actions: map<Id, Action>) {
    && (forall k | k in actions :: WellAimed(launch, attestation, actions[k]))
    && (forall j, k | j in actions && k in actions && j != k :: InTurn(actions[j], actions[k]))
    && (actions != map[] ==> launch.Some? && |actions| <= |launch.value.grants| + 2)
  }

  /** No two effects share a flight or a receipt, and there are at most 64. */
  predicate Apart(e: Effect, f: Effect) { e.flight != f.flight && e.receiptId != f.receiptId }

  predicate Effects(effects: map<Id, Effect>) {
    && |effects| <= 64
    && (forall k | k in effects :: effects[k].flight != effects[k].receiptId)
    && (forall j, k | j in effects && k in effects && j != k :: Apart(effects[j], effects[k]))
  }

  /** One first attempt at most, and every family of reservation claims within its size. */
  predicate Sizes(initials: nat, intents: nat, second: nat, first: nat, runHolds: nat) {
    initials <= 1 && intents <= 256 && second + first <= 256 && runHolds <= 1_024
  }

  /** Two run holds are for different admissions. */
  predicate Holdings(runHolds: map<Id, RunHold>) {
    forall i, j | i in runHolds && j in runHolds && i != j :: runHolds[i].admissionId != runHolds[j].admissionId
  }

  /** Second attempts share no identity but their job. */
  predicate Attempts(intents: map<Id, Intent>) {
    forall j, k | j in intents && k in intents && j != k :: FreshIds(intents[j].ids) !! FreshIds(intents[k].ids)
  }

  /** The ledger counterparts of two confirmations are different events and different rows. */
  predicate OtherRow(a: Counterpart, b: Counterpart) {
    && a.ledger.eventId != b.ledger.eventId
    && !(a.ledger.ledger == b.ledger.ledger && a.ledger.generation == b.ledger.generation
         && a.ledger.sequence == b.ledger.sequence)
  }

  predicate Counterparts(second: map<Id, Counterpart>, first: map<Id, Counterpart>) {
    && (forall j, k | j in second && k in second && j != k :: OtherRow(second[j], second[k]))
    && (forall j, k | j in first && k in first && j != k :: OtherRow(first[j], first[k]))
    && (forall j, k | j in second && k in first :: OtherRow(second[j], first[k]))
  }

  /** The run's own services: each with a claim of its own, the first with the reservation's lease. */
  predicate Services(run: Option<RunIntent>) {
    run.Some? ==>
      && run.value.services != [] && run.value.services[0].leaseClaim == run.value.intent.ids.leaseId
      && forall i, j | 0 < i < j < |run.value.services| ::
           run.value.services[i].leaseClaim != run.value.services[j].leaseClaim
  }

  ghost predicate Orderly(c: Claims) {
    && BeforeProcess(c.attestation, c.releaseIntent, c.effects, c.process)
    && BeforeCleanup(c.releaseIntent, c.effects, c.actions)
    && Cleanup(c.launch, c.attestation, c.actions)
    && Effects(c.effects)
    && Sizes(|c.initials|, |c.intents|, |c.confirmations|, |c.initialConfirmations|, |c.runHolds|)
    && Holdings(c.runHolds) && Attempts(c.intents)
    && Counterparts(c.confirmations, c.initialConfirmations)
    && Services(c.runIntent)
  }

  // --- Every claim keeps it -----------------------------------------------------------------------

  /** Whatever is on record was committed by now. */
  predicate CommittedBy(c: Claims, at: nat) {
    && (c.attestation.Some? ==> c.attestation.value.committed <= at)
    && (c.releaseIntent.Some? ==> c.releaseIntent.value.committed <= at)
    && (forall k | k in c.effects :: c.effects[k].committed <= at)
    && (forall k | k in c.actions :: c.actions[k].committed <= at)
    && (c.actions != map[] ==> c.launch.Some?)
  }

  lemma ChainCommitted(t: Time, c: Claims)
    requires Chained(t, c)
    ensures CommittedBy(c, t.head)
  {
    hide Reattempting, Reserving, Intending, Launching, Released, Receiving, Ending, Assessing, Reconciling, GrantFor,
        RouteService, ActivationsOk, RevokedBefore;
    forall k | k in c.effects ensures c.effects[k].committed <= t.head {
      assert InWindow(t, c.launch, c.releaseObservation, k, c.effects[k]);
    }
    forall k | k in c.actions ensures c.actions[k].committed <= t.head && c.launch.Some? {
      assert Taken(t, c.launch, c.actions, k, c.actions[k]);
    }
    if c.actions != map[] { var k :| k in c.actions; }
  }

  lemma EffectOrdered(p: Projection, r: Record, x: Effect, at: nat)
    requires Orderly(p.claims) && CommittedBy(p.claims, at)
    requires EffectOk(p, r.eventId, r.stamp, x.operationId, x.service, x.route, x.grantId, x.scope, x.flight,
                      x.receiptId, x.expires)
    ensures Orderly(p.claims.(effects := p.claims.effects[x.operationId := x]))
  {
    hide Cleanup, Sizes, Holdings, Attempts, Counterparts, Services, Unused, PreRelease, GrantFor, RouteService;
    var c := p.claims;
    var effects := c.effects[x.operationId := x];
    assert |effects| <= |c.effects| + 1;
    forall j, k | j in effects && k in effects && j != k ensures Apart(effects[j], effects[k]) {
      if j in c.effects && k in c.effects && effects[j] == c.effects[j] && effects[k] == c.effects[k] {
        assert Apart(c.effects[j], c.effects[k]);
      }
    }
  }

  lemma ActionOrdered(p: Projection, r: Record, x: Action, at: nat)
    requires Orderly(p.claims) && CommittedBy(p.claims, at) && at < x.committed
    requires ActionOk(p, r.eventId, r.stamp, x.actionId, x.kind, x.grant)
    ensures Orderly(p.claims.(actions := p.claims.actions[x.actionId := x]))
  {
    hide BeforeProcess, Cleanup, Effects, Sizes, Holdings, Attempts, Counterparts, Services, ActionOk;
    CleanupGrows(p, r, x, at);
  }

  lemma CleanupGrows(p: Projection, r: Record, x: Action, at: nat)
    requires Cleanup(p.claims.launch, p.claims.attestation, p.claims.actions)
    requires CommittedBy(p.claims, at) && at < x.committed
    requires ActionOk(p, r.eventId, r.stamp, x.actionId, x.kind, x.grant)
    ensures Cleanup(p.claims.launch, p.claims.attestation, p.claims.actions[x.actionId := x])
  {
    hide ActionOk, InTurn, WellAimed, CommittedBy;
    var c := p.claims;
    var actions := c.actions[x.actionId := x];
    NewAction(p, r, x, at);
    forall j, k | j in actions && k in actions && j != k ensures InTurn(actions[j], actions[k]) {
      if j == x.actionId {
        NewInTurn(p, r, x, k, at);
      } else if k == x.actionId {
        NewInTurn(p, r, x, j, at);
      }
    }
    assert |actions| <= |c.actions| + 1;
  }

  lemma NewAction(p: Projection, r: Record, x: Action, at: nat)
    requires ActionOk(p, r.eventId, r.stamp, x.actionId, x.kind, x.grant)
    requires CommittedBy(p.claims, at) && at < x.committed
    ensures x.actionId !in p.claims.actions && p.claims.launch.Some?
    ensures |p.claims.actions| < |p.claims.launch.value.grants| + 2
    ensures WellAimed(p.claims.launch, p.claims.attestation, x)
  {
    hide Unused;
    UnusedAction(p, x.actionId);
  }

  lemma UnusedAction(p: Projection, id: Id)
    requires Unused(p, id)
    ensures id !in p.claims.actions && id !in p.claims.effects
  {
    hide KnownIds, ChainIds;
    assert p.claims.actions.Keys <= FamilyIds(p.claims) && p.claims.effects.Keys <= FamilyIds(p.claims);
  }

  lemma NewInTurn(p: Projection, r: Record, x: Action, k: Id, at: nat)
    requires ActionOk(p, r.eventId, r.stamp, x.actionId, x.kind, x.grant) && k in p.claims.actions
    requires CommittedBy(p.claims, at) && at < x.committed
    requires WellAimed(p.claims.launch, p.claims.attestation, p.claims.actions[k])
    ensures InTurn(x, p.claims.actions[k]) && InTurn(p.claims.actions[k], x)
  {
    hide Unused, IsGrant;
    var a := p.claims.actions[k];
    if a.kind.RevokeGrant? { assert a.grant.value.1 in Revoked(p.claims); }
  }

  lemma ProcessOrdered(p: Projection, x: Observation, at: nat)
    requires Orderly(p.claims) && CommittedBy(p.claims, at) && at < x.committed
    ensures Orderly(p.claims.(process := Some(x)))
  {
    hide BeforeCleanup, Cleanup, Effects, Sizes, Holdings, Attempts, Counterparts, Services;
  }

  lemma AttestationOrdered(p: Projection, r: Record, x: Attestation, at: nat)
    requires Orderly(p.claims) && AttestationOk(p, r.eventId, r.stamp)
    ensures Orderly(p.claims.(attestation := Some(x)))
  {
    hide BeforeCleanup, Effects, Sizes, Holdings, Attempts, Counterparts, Services, Unused, PreRelease, IsGrant, InTurn;
    var c := p.claims;
    forall k | k in c.actions ensures WellAimed(c.launch, Some(x), c.actions[k]) {
      assert WellAimed(c.launch, c.attestation, c.actions[k]);
    }
  }

  lemma ReleaseOrdered(p: Projection, r: Record, x: ReleaseIntent, activated: seq<Activation>)
    requires Orderly(p.claims) && ReleaseIntentOk(p, r.eventId, r.stamp, activated)
    ensures Orderly(p.claims.(releaseIntent := Some(x)))
  {
    hide Cleanup, Effects, Sizes, Holdings, Attempts, Counterparts, Services, Unused, PreRelease, ActivationsOk;
  }

  lemma LaunchOrdered(p: Projection, r: Record, x: Launch, at: nat)
    requires Orderly(p.claims) && CommittedBy(p.claims, at) && LaunchOk(p, r.eventId, r.stamp, x.grants)
    ensures Orderly(p.claims.(launch := Some(x)))
  {
    hide BeforeProcess, BeforeCleanup, Effects, Sizes, Holdings, Attempts, Counterparts, Services, GrantsOk, Members,
        KnownIds;
  }

  lemma RunIntentOrdered(p: Projection, head: Head, r: Record, x: RunIntent, intentId: Id, sequence: int, digest: nat)
    requires Orderly(p.claims) && RunIntentOk(p, head, r.eventId, intentId, sequence, digest, x.services)
    requires x.intent == p.claims.initials[intentId]
    ensures Orderly(p.claims.(runIntent := Some(x)))
  {
    hide BeforeProcess, BeforeCleanup, Cleanup, Effects, Sizes, Holdings, Attempts, Counterparts, Members, KnownIds;
    assert |x.services| == |Names(x.services)|;
  }

  lemma RunHoldOrdered(p: Projection, job: Id, x: RunHold)
    requires Orderly(p.claims) && RunHoldOk(p, job, x.admissionId)
    ensures Orderly(p.claims.(runHolds := p.claims.runHolds[job := x]))
  {
    hide BeforeProcess, BeforeCleanup, Cleanup, Effects, Attempts, Counterparts, Services, Members;
    assert |p.claims.runHolds[job := x]| <= |p.claims.runHolds| + 1;
  }

  lemma InitialOrdered(p: Projection, x: Intent)
    requires Orderly(p.claims) && InitialOk(p, x.ids)
    ensures Orderly(p.claims.(initials := p.claims.initials[x.ids.intentId := x]))
  {
    hide BeforeProcess, BeforeCleanup, Cleanup, Effects, Holdings, Attempts, Counterparts, Services, Members, FreshIds,
        AllDifferent;
    assert p.claims.initials[x.ids.intentId := x].Keys == {x.ids.intentId};
    assert |p.claims.initials[x.ids.intentId := x]| == |p.claims.initials[x.ids.intentId := x].Keys|;
  }

  lemma IntentOrdered(p: Projection, x: Intent)
    requires Orderly(p.claims) && IntentOk(p, x.ids)
    ensures Orderly(p.claims.(intents := p.claims.intents[x.ids.intentId := x]))
  {
    hide BeforeProcess, BeforeCleanup, Cleanup, Effects, Holdings, Counterparts, Services, Members, FreshIds,
        AllDifferent;
    var c := p.claims;
    var intents := c.intents[x.ids.intentId := x];
    assert |intents| <= |c.intents| + 1;
    forall j, k | j in intents && k in intents && j != k
      ensures FreshIds(intents[j].ids) !! FreshIds(intents[k].ids)
    {
      if j == x.ids.intentId {
        assert FreshIds(x.ids) * FreshIds(c.intents[k].ids) == {};
        Disjoint(FreshIds(x.ids), FreshIds(c.intents[k].ids));
      } else if k == x.ids.intentId {
        assert FreshIds(x.ids) * FreshIds(c.intents[j].ids) == {};
        Disjoint(FreshIds(x.ids), FreshIds(c.intents[j].ids));
      }
    }
  }

  lemma Disjoint(a: set<Id>, b: set<Id>)
    requires a * b == {}
    ensures a !! b && b !! a
  {
    assert forall x :: x in a * b <==> x in a && x in b;
  }

  lemma FirstOrdered(p: Projection, x: Counterpart)
    requires Orderly(p.claims) && InitialConfirmationOk(p, x.intentId, x.eventId, x.ledger)
    ensures Orderly(p.claims.(initialConfirmations := p.claims.initialConfirmations[x.intentId := x]))
  {
    hide BeforeProcess, BeforeCleanup, Cleanup, Effects, Holdings, Attempts, Services, AllDifferent, EventFree;
    assert |p.claims.initialConfirmations[x.intentId := x]| <= |p.claims.initialConfirmations| + 1;
  }

  lemma SecondOrdered(p: Projection, x: Counterpart)
    requires Orderly(p.claims) && ConfirmationOk(p, x.intentId, x.eventId, x.ledger)
    ensures Orderly(p.claims.(confirmations := p.claims.confirmations[x.intentId := x]))
  {
    hide BeforeProcess, BeforeCleanup, Cleanup, Effects, Holdings, Attempts, Services, AllDifferent, EventFree;
    assert |p.claims.confirmations[x.intentId := x]| <= |p.claims.confirmations| + 1;
  }

  lemma ClaimOrders(p: Projection, head: Head, r: Record, at: nat)
    requires Orderly(p.claims) && CommittedBy(p.claims, at) && at < r.position.commitSeq && Guard(p, head, r)
    ensures Orderly(AddClaim(p.claims, ClaimOf(p, head, r)))
  {
    hide Orderly, CommittedBy, RunHoldOk, IntentOk, InitialOk, ConfirmationOk, InitialConfirmationOk, RunIntentOk,
        LaunchOk, AttestationOk, ReleaseIntentOk, ReleaseObservationOk, EffectOk, EffectReceiptOk, ActionOk,
        ActionResultOk, ExecutionBase, ReconciledOk, RestartReconciledOk, Members;
    match r.content
    case RunHoldSet(job, _) => RunHoldOrdered(p, job, ClaimOf(p, head, r).runHold);
    case ReservationIntent(_) => IntentOrdered(p, ClaimOf(p, head, r).intent);
    case InitialIntent(_) => InitialOrdered(p, ClaimOf(p, head, r).initial);
    case Confirmation(_, _) => SecondOrdered(p, ClaimOf(p, head, r).confirmation);
    case InitialConfirmation(_, _) => FirstOrdered(p, ClaimOf(p, head, r).initialConfirmation);
    case RunIntended(id, sequence, digest, _) =>
      RunIntentOrdered(p, head, r, ClaimOf(p, head, r).runIntent, id, sequence, digest);
    case LaunchClaimed(_, _, _) => LaunchOrdered(p, r, ClaimOf(p, head, r).launch, at);
    case Attested(_) => AttestationOrdered(p, r, ClaimOf(p, head, r).attestation, at);
    case ReleaseIntended(activated) => ReleaseOrdered(p, r, ClaimOf(p, head, r).releaseIntent, activated);
    case EffectIntended(_, _, _, _, _, _, _, _, _, _) => EffectOrdered(p, r, ClaimOf(p, head, r).effect, at);
    case ActionIntended(_, _, _) => ActionOrdered(p, r, ClaimOf(p, head, r).action, at);
    case ProcessObserved(_, _) => ProcessOrdered(p, ClaimOf(p, head, r).process, at);
    case ReleaseObserved(_) => Untouched(p.claims, ClaimOf(p, head, r));
    case EffectReceived(_, _, _, _) => Untouched(p.claims, ClaimOf(p, head, r));
    case ActionEnded(_, _) => Untouched(p.claims, ClaimOf(p, head, r));
    case TerminalObserved(_) => Untouched(p.claims, ClaimOf(p, head, r));
    case ExecutionAssessed => Untouched(p.claims, ClaimOf(p, head, r));
    case Reconciled(_, _, _) => Untouched(p.claims, ClaimOf(p, head, r));
    case RestartReconciled(_, _, _) => Untouched(p.claims, ClaimOf(p, head, r));
  }

  lemma Untouched(c: Claims, claim: Claim)
    requires Orderly(c)
    requires claim.AddReleaseObservation? || claim.AddEffectReceipt? || claim.AddActionResult? || claim.AddTerminal?
        || claim.AddAssessment? || claim.AddReconciliation? || claim.AddRestartReconciliation?
    ensures Orderly(AddClaim(c, claim))
  {
    hide BeforeProcess, BeforeCleanup, Cleanup, Effects, Sizes, Holdings, Attempts, Counterparts, Services;
  }

  lemma StepOrders(p: Projection, records: seq<Record>)
    requires Whole(p) && Orderly(p.claims) && Accepts(p, records)
    ensures Orderly(After(p, records).claims)
  {
    hide Verify, VerifyOne, VerifyAdmission, Chained, ThisBoot, CoreOk, TimeOf, ApplyCore, ApplyFront, AddClaim, Guard,
        ClaimOf, Orderly;
    Decided(p, records);
    var r, d := records[0], Verify(p, records).value;
    if r.content.Admission? { AdmissionMoves(p, r, records[1]); } else { OneMoves(p, r); }
    if d.change.Add? {
      ChainCommitted(TimeOf(p.core), p.claims);
      HeadBefore(p.core, r);
      ClaimOrders(p, p.core.head.value, r, TimeOf(p.core).head);
    }
  }

  lemma HeadBefore(core: Core, r: Record)
    requires r.position.commitSeq == NextCommit(core)
    ensures TimeOf(core).head < r.position.commitSeq
  {
  }

  lemma {:induction false} RunOrders(p: Projection, commits: seq<seq<Record>>)
    requires Whole(p) && Orderly(p.claims) && Accepted(p, commits)
    ensures Orderly(Fold(p, commits).claims)
    decreases |commits|
  {
    hide Accepts, After, Whole, Orderly;
    if commits != [] {
      StepWhole(p, commits[0]);
      StepOrders(p, commits[0]);
      RunOrders(After(p, commits[0]), commits[1..]);
    }
  }

  lemma Reachable(commits: seq<seq<Record>>)
    requires Accepted(EMPTY, commits)
    ensures Orderly(Fold(EMPTY, commits).claims)
  {
    hide Accepted, Fold, Whole;
    EmptyWhole();
    RunOrders(EMPTY, commits);
  }

  /** In every reachable journal effects end where cleanup or the process's end begins: each effect, like
      the release that allowed it, was committed before every cleanup action and before the process was
      observed; and no attestation follows the process either. */
  lemma EffectsEnd(commits: seq<seq<Record>>)
    requires Accepted(EMPTY, commits)
    ensures var c := Fold(EMPTY, commits).claims;
            && (forall k, a | k in c.effects && a in c.actions :: c.effects[k].committed < c.actions[a].committed)
            && (forall k | k in c.effects && c.process.Some? :: c.effects[k].committed < c.process.value.committed)
            && (c.releaseIntent.Some? ==>
                  && (forall a | a in c.actions :: c.releaseIntent.value.committed < c.actions[a].committed)
                  && (c.process.Some? ==> c.releaseIntent.value.committed < c.process.value.committed))
            && (c.attestation.Some? && c.process.Some? ==>
                  c.attestation.value.committed < c.process.value.committed)
  {
    hide Accepted, Fold, Cleanup, Effects, Sizes, Holdings, Attempts, Counterparts, Services;
    Reachable(commits);
  }

  /** In every reachable journal cleanup goes in order: each revocation names a grant of the launch, none
      twice; each signal comes once, after the attestation and after all revocations, and an interrupt
      before a kill; and there are at most two more actions than grants. */
  lemma CleanupInOrder(commits: seq<seq<Record>>, j: Id, k: Id)
    requires Accepted(EMPTY, commits) && j in Fold(EMPTY, commits).claims.actions
    requires k in Fold(EMPTY, commits).claims.actions
    ensures var c := Fold(EMPTY, commits).claims;
            var a, b := c.actions[j], c.actions[k];
            && c.launch.Some? && |c.actions| <= |c.launch.value.grants| + 2
            && (a.kind.RevokeGrant? ==>
                  a.grant.Some? && exists g | g in c.launch.value.grants ::
                    g.claim.service == a.grant.value.0 && g.grantId == a.grant.value.1)
            && (!a.kind.RevokeGrant? ==>
                  a.grant.None? && c.attestation.Some? && c.attestation.value.committed < a.committed)
            && (a.kind.RevokeGrant? && b.kind.RevokeGrant? && j != k ==>
                  b.grant.Some? && a.grant.value.1 != b.grant.value.1)
            && (a.kind == b.kind && !a.kind.RevokeGrant? ==> j == k)
            && (a.kind.RevokeGrant? && !b.kind.RevokeGrant? ==> a.committed < b.committed)
            && (a.kind.SignalInterrupt? && b.kind.SignalKill? ==> a.committed < b.committed)
  {
    hide Accepted, Fold, BeforeProcess, BeforeCleanup, Effects, Sizes, Holdings, Attempts, Counterparts, Services;
    Reachable(commits);
    var c := Fold(EMPTY, commits).claims;
    assert WellAimed(c.launch, c.attestation, c.actions[j]);
    if j != k { assert InTurn(c.actions[j], c.actions[k]); }
  }

  /** In every reachable journal nothing is claimed twice and every family is within its size: one first
      attempt; run holds of different admissions; second attempts without a common identity; ledger
      counterparts that are different events in different rows; effects with flights and receipts of
      their own, 64 at most. */
  lemma ClaimedOnce(commits: seq<seq<Record>>)
    requires Accepted(EMPTY, commits)
    ensures var c := Fold(EMPTY, commits).claims;
            && |c.initials| <= 1 && |c.intents| <= 256 && |c.confirmations| + |c.initialConfirmations| <= 256
            && |c.runHolds| <= 1_024 && |c.effects| <= 64
            && Holdings(c.runHolds) && Attempts(c.intents) && Counterparts(c.confirmations, c.initialConfirmations)
            && Services(c.runIntent)
            && (forall j, k | j in c.effects && k in c.effects && j != k ::
                  c.effects[j].flight != c.effects[k].flight && c.effects[j].receiptId != c.effects[k].receiptId)
  {
    hide Accepted, Fold, BeforeProcess, BeforeCleanup, Cleanup, Holdings, Attempts, Counterparts, Services;
    Reachable(commits);
    var c := Fold(EMPTY, commits).claims;
    forall j, k | j in c.effects && k in c.effects && j != k
      ensures c.effects[j].flight != c.effects[k].flight && c.effects[j].receiptId != c.effects[k].receiptId
    {
      assert Apart(c.effects[j], c.effects[k]);
    }
  }

  /** Every step from the launch to the last effect is accepted only while no hold is set, in the boot and
      before the work deadline of the launch, and while exactly the fingerprints reserved for the run are
      still pending under its admission. */
  lemma RunsUndisturbed(commits: seq<seq<Record>>, records: seq<Record>)
    requires Accepted(EMPTY, commits) && Accepts(Fold(EMPTY, commits), records)
    requires var k := records[0].content;
             k.LaunchClaimed? || k.Attested? || k.ReleaseIntended? || k.EffectIntended?
    ensures var p := Fold(EMPTY, commits);
            && p.front.holds == map[] && p.claims.runHolds == map[] && p.claims.runIntent.Some?
            && (!records[0].content.LaunchClaimed? ==>
                  && p.claims.launch.Some? && p.claims.launch.value.boot == records[0].stamp.boot
                  && records[0].stamp.mono < p.claims.launch.value.origin + 270_000_000)
            && var i := p.claims.runIntent.value.intent;
               && i.ids.intentId in p.claims.initials && p.claims.initials[i.ids.intentId] == i
               && (forall fp :: fp in i.members <==>
                     fp in p.front.pending && p.front.pending[fp].admissionId == i.ids.admissionId)
  {
    hide Accepted, Fold, Verify, VerifyOne;
    EmptyWhole();
    RunWhole(EMPTY, commits);
    var p := Fold(EMPTY, commits);
    Decided(p, records);
    StepGuard(p, records[0]);
    Undisturbed(p, records[0]);
  }

  lemma StepGuard(p: Projection, r: Record)
    requires VerifyOne(p, r).Ok?
    ensures r.content.LaunchClaimed? || r.content.Attested? || r.content.ReleaseIntended? || r.content.EffectIntended?
        ==> p.core.head.Some? && Guard(p, p.core.head.value, r)
  {
    hide Guard, ClaimOf;
  }

  lemma Undisturbed(p: Projection, r: Record)
    requires Whole(p) && p.core.head.Some? && Guard(p, p.core.head.value, r)
    requires r.content.LaunchClaimed? || r.content.Attested? || r.content.ReleaseIntended? || r.content.EffectIntended?
    ensures Unheld(p) && p.claims.runIntent.Some?
    ensures var i := p.claims.runIntent.value.intent;
            && i.ids.intentId in p.claims.initials && p.claims.initials[i.ids.intentId] == i
            && i.members == Members(p.front, i.ids.admissionId)
    ensures !r.content.LaunchClaimed? ==>
              && p.claims.launch.Some? && p.claims.launch.value.boot == r.stamp.boot
              && r.stamp.mono < p.claims.launch.value.origin + 270_000_000
  {
    hide Reattempting, Reserving, Attesting, Releasing, Released, Effecting, Receiving, Acting, Ending, Assessing,
        Reconciling, Members, Unused, KnownIds, GrantsOk, GrantFor, ActivationsOk, RouteService, ServicesOk, CoreOk,
        ThisBoot;
  }
}
