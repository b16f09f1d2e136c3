/** Which holds are permanent, and what they keep out for good. */
module JournalHolds {
  import opened Text
  import opened Journal

  /** The steps that move a run towards an effect. */
  predicate Advancing(c: Content) {
    c.InitialIntent? || c.RunIntended? || c.LaunchClaimed? || c.Attested? || c.ReleaseIntended? || c.EffectIntended?
  }

  /** A capacity hold, a run hold, or a restart that found claims outstanding. */
  predicate Barred(p: Projection) {
    || AdmissionsFull in p.front.holds || PendingFull in p.front.holds || BytesFull in p.front.holds
    || p.claims.runHolds != map[]
    || (RestartRecovery in p.front.holds && Outstanding(p.claims))
  }

  lemma BarredIsHeld(p: Projection)
    requires Barred(p)
    ensures !Unheld(p)
  {
  }

  /** Every advancing step needs the journal free of holds. */
  lemma AdvancingNeedsUnheld(p: Projection, head: Head, r: Record)
    requires Guard(p, head, r) && Advancing(r.content)
    ensures Unheld(p)
  {
    hide KnownIds, ChainIds, FamilyIds, Unheld;
  }

  /** The claims held in maps. */
  lemma MapAdded(c: Claims, claim: Claim)
    ensures var d := AddClaim(c, claim);
            match claim
            case AddRunHold(job, _) => job in d.runHolds
            case AddIntent(x) => x.ids.intentId in d.intents
            case AddInitial(x) => x.ids.intentId in d.initials
            case AddConfirmation(x) => x.intentId in d.confirmations
            case AddInitialConfirmation(x) => x.intentId in d.initialConfirmations
            case AddEffect(x) => x.operationId in d.effects
            case AddEffectReceipt(x) => x.operationId in d.effectReceipts
            case AddAction(x) => x.actionId in d.actions
            case AddActionResult(x) => x.actionId in d.actionResults
            case AddReconciliation(x) => x.operationId in d.reconciliations
            case AddRestartReconciliation(x) => x.operationId in d.restartReconciliations
            case _ => true
  {
  }

  lemma KeepsRunHolds(c: Claims, claim: Claim)
    ensures c.runHolds != map[] ==> AddClaim(c, claim).runHolds != map[]
  {
    if claim.AddRunHold? {
      assert claim.job in AddClaim(c, claim).runHolds;
    }
  }

  lemma StaysOutstanding(c: Claims, claim: Claim)
    ensures Outstanding(AddClaim(c, claim))
    ensures c.runHolds != map[] ==> AddClaim(c, claim).runHolds != map[]
  {
    KeepsRunHolds(c, claim);
    MapAdded(c, claim);
  }

  /** What one record may change about the holds and the claims. */
  lemma OneHolds(p: Projection, r: Record)
    requires VerifyOne(p, r).Ok?
    ensures var c := VerifyOne(p, r).value.change;
            && (c.Clear? ==> c.hold == RestartRecovery && !Outstanding(p.claims))
            && (c.Add? ==>
                  p.core.head.Some? && Guard(p, p.core.head.value, r)
                  && c.claim == ClaimOf(p, p.core.head.value, r))
            && (r.content.Restart? ==> c == Hold(RestartRecovery))
            && (Advancing(r.content) ==> c.Add?)
            && !c.Admit?
  {
    hide Guard, ClaimOf, Fits, KeyOf, Outstanding;
  }

  lemma BarredChange(p: Projection, d: Delta)
    requires Barred(p) && (d.change.Clear? ==> d.change.hold == RestartRecovery && !Outstanding(p.claims))
    ensures Barred(Apply(p, d))
  {
    hide AddClaim, Outstanding;
    if d.change.Add? {
      StaysOutstanding(p.claims, d.change.claim);
    }
  }

  /** A barred journal stays barred and takes no advancing step. */
  lemma BarredStep(p: Projection, records: seq<Record>)
    requires Barred(p) && Accepts(p, records)
    ensures Barred(After(p, records)) && !Advancing(records[0].content)
  {
    hide Verify, VerifyOne, AdmissionOk, Decide, Updates, Barred, Unheld, Apply, Guard, Outstanding;
    Decided(p, records);
    if !records[0].content.Admission? {
      OneHolds(p, records[0]);
      BarredIsHeld(p);
      if Advancing(records[0].content) {
        AdvancingNeedsUnheld(p, p.core.head.value, records[0]);
      }
    }
    BarredChange(p, Verify(p, records).value);
  }

  /** Holds are permanent: no continuation of a barred journal ever advances a run. */
  lemma {:induction false} BarredForever(p: Projection, commits: seq<seq<Record>>)
    requires Barred(p) && Accepted(p, commits)
    ensures Barred(Fold(p, commits))
    ensures forall i | 0 <= i < |commits| :: commits[i] != [] && !Advancing(commits[i][0].content)
    decreases |commits|
  {
    hide Accepts, After, Barred, Advancing;
    if commits != [] {
      assert commits[0] != [] by { Decided(p, commits[0]); }
      BarredStep(p, commits[0]);
      BarredForever(After(p, commits[0]), commits[1..]);
    }
  }

  /** What bars a journal: any capacity hold, any run hold, and a restart over any claim. */
  lemma BarredBy(p: Projection, records: seq<Record>)
    requires Accepts(p, records)
    requires var c := records[0].content; c.CapacityHold? || c.RunHoldSet? || (c.Restart? && Outstanding(p.claims))
    ensures Barred(After(p, records))
  {
    hide Verify, Outstanding, RunHoldOk, Fits;
    Decided(p, records);
    var q := After(p, records);
    if records[0].content.RunHoldSet? {
      assert records[0].content.jobId in q.claims.runHolds;
    }
  }

  /** A restart over an untouched journal is not permanent: the resume that comes first reopens it. */
  lemma ResumeReopens(p: Projection, records: seq<Record>)
    requires Accepts(p, records) && records[0].content.OperatorResume? && p.front.holds.Keys == {RestartRecovery}
    ensures !Outstanding(p.claims) && Unheld(After(p, records))
  {
    hide Verify, Fits;
    Decided(p, records);
    var f := After(p, records).front;
    assert f.holds == p.front.holds - {RestartRecovery};
    assert f.holds.Keys == {};
  }

  /** Second attempts only ever follow a run hold, and never share a journal with a first attempt. */
  predicate Apart(c: Claims) {
    && (c.intents != map[] ==> c.runHolds != map[])
    && (c.intents == map[] || c.initials == map[])
  }

  lemma AttemptsAdded(c: Claims, claim: Claim)
    ensures !claim.AddIntent? ==> AddClaim(c, claim).intents == c.intents
    ensures !claim.AddInitial? ==> AddClaim(c, claim).initials == c.initials
  {
  }

  lemma AttemptsGuarded(p: Projection, head: Head, r: Record)
    requires Guard(p, head, r)
    ensures ClaimOf(p, head, r).AddIntent? ==> p.claims.initials == map[] && p.claims.runHolds != map[]
    ensures ClaimOf(p, head, r).AddInitial? ==> p.claims.runHolds == map[]
  {
    hide Members, RunHoldOk, ConfirmationOk, InitialConfirmationOk, AllDifferent, FreshIds, RunIntentOk, LaunchOk,
        AttestationOk, ReleaseIntentOk,
         ReleaseObservationOk, EffectOk, EffectReceiptOk, ActionOk, ActionResultOk, ExecutionBase, ReconciledOk,
             RestartReconciledOk;
  }

  lemma ClaimApart(p: Projection, head: Head, r: Record)
    requires Apart(p.claims) && Guard(p, head, r)
    ensures Apart(AddClaim(p.claims, ClaimOf(p, head, r)))
  {
    hide Guard, ClaimOf, AddClaim, Outstanding;
    var claim := ClaimOf(p, head, r);
    AttemptsGuarded(p, head, r);
    AttemptsAdded(p.claims, claim);
    StaysOutstanding(p.claims, claim);
  }

  lemma ApartStep(p: Projection, records: seq<Record>)
    requires Apart(p.claims) && Accepts(p, records)
    ensures Apart(After(p, records).claims)
  {
    hide Verify, VerifyOne, AdmissionOk, Decide, Updates, ApplyCore, ApplyFront, Guard, Outstanding, ClaimOf, AddClaim,
        Apart;
    Decided(p, records);
    if !records[0].content.Admission? {
      OneHolds(p, records[0]);
      if Verify(p, records).value.change.Add? {
        ClaimApart(p, p.core.head.value, records[0]);
      }
    }
  }

  lemma {:induction false} NeverBoth(p: Projection, commits: seq<seq<Record>>)
    requires Apart(p.claims) && Accepted(p, commits)
    ensures Apart(Fold(p, commits).claims)
    decreases |commits|
  {
    hide Accepts, After, Apart;
    if commits != [] {
      ApartStep(p, commits[0]);
      NeverBoth(After(p, commits[0]), commits[1..]);
    }
  }
}
