/** Planning a commit, and exactly when a plan passes verification on the projection it was made for. */
module JournalPlans {
  import opened Text
  import opened Journal

  /** A commit ready to append, or the bound that it would break. */
  datatype Planned =
    | Plan(records: seq<Record>, charge: int)
    | Refusal(code: HoldCode, limit: int, observed: int, requested: int)

  /** The position of the next commit's record `index` of `size`. */
  function NextPosition(core: Core, index: nat, size: nat, prev: Digest): Position
    requires core.head.Some?
  {
    Position(core.generation, core.head.value.eventSeq + 1 + index, core.head.value.commitSeq + 1, index, size, prev)
  }

  function Single(p: Projection, eventId: Id, stamp: Stamp, bodyLen: nat, content: Content): Record
    requires p.core.head.Some?
  {
    Record(eventId, NextPosition(p.core, 0, 1, p.core.head.value.digest), stamp, bodyLen, content)
  }

  function AdmissionPair(p: Projection, s: Source, admissionId: Id, dedupeId: Id, stamp: Stamp,
                         lens: (nat, nat)): seq<Record>
    requires p.core.head.Some?
  {
    var f := p.front;
    var d := Decide(f, s, admissionId);
    var a := Record(admissionId, NextPosition(p.core, 0, 2, p.core.head.value.digest), stamp, lens.0,
                    Admission(admissionId, f.lastArrival + 1, f.holds != map[], f.holds.Keys, s));
    var after := if d.result.Suppressed? then |f.pending| else |f.pending| + NewPending(s, d);
    var b := Record(dedupeId, NextPosition(p.core, 1, 2, Of(a)), stamp, lens.1,
                    Dedupe(admissionId, d.result, s.group, Rows(s), d.before, d.after, d.superseded, after));
    [a, b]
  }

  /** `lens` are the lengths of the two bodies. */
  function PlanAdmission(p: Projection, s: Source, admissionId: Id, dedupeId: Id, stamp: Stamp,
                         lens: (nat, nat)): Planned
    requires p.core.head.Some?
  {
    var f, b, d := p.front, p.core.bounds, Decide(p.front, s, admissionId);
    var charge := lens.0 + lens.1 + 2 * OVERHEAD;
    if f.admissions + 1 > b.maxAdmissions then Refusal(AdmissionsFull, b.maxAdmissions, f.admissions, 1)
    else if !d.result.Suppressed? && |f.pending| + NewPending(s, d) > b.maxPending
        then Refusal(PendingFull, b.maxPending, |f.pending|, NewPending(s, d))
    else if p.core.bytes + charge > b.ordinary then Refusal(BytesFull, b.ordinary, p.core.bytes, charge)
    else Plan(AdmissionPair(p, s, admissionId, dedupeId, stamp, lens), charge)
  }

  /** A hold already in force needs no second record. */
  function PlanCapacityHold(p: Projection, refusal: Planned, eventId: Id, stamp: Stamp, bodyLen: nat): Option<Planned>
    requires p.core.head.Some? && refusal.Refusal?
  {
    var charge := bodyLen + OVERHEAD;
    if refusal.code in p.front.holds then None
    else if p.core.bytes + charge > p.core.bounds.total then
        Some(Refusal(BytesFull, p.core.bounds.total, p.core.bytes, charge))
    else
      Some(Plan([Single(p, eventId, stamp, bodyLen,
          CapacityHold(refusal.code, refusal.limit, refusal.observed, refusal.requested))], charge))
  }

  datatype NotRecorded = Coalesced | Limit | NoRoom

  datatype PlannedRefusal = Recorded(records: seq<Record>, charge: int) | Unrecorded(why: NotRecorded)

  function PlanIngressRefusal(p: Projection, summary: Summary, eventId: Id, stamp: Stamp, bodyLen: nat): PlannedRefusal
    requires p.core.head.Some?
  {
    var f, key, charge := p.front, KeyOf(summary), bodyLen + OVERHEAD;
    if key in f.refusalKeys then Unrecorded(Coalesced)
    else if f.refusals + 1 > MAX_REFUSALS
        || (Unreserved(summary) && f.unreserved + 1 > MAX_REFUSALS - RESOLVED_RESERVE) then Unrecorded(Limit)
    else if p.core.bytes + charge > p.core.bounds.ordinary then Unrecorded(NoRoom)
    else Recorded([Single(p, eventId, stamp, bodyLen, IngressRefusal(summary, key, f.refusals + 1))], charge)
  }

  function PlanRestart(p: Projection, eventId: Id, stamp: Stamp, bodyLen: nat): Planned
    requires p.core.head.Some?
  {
    var charge := bodyLen + OVERHEAD;
    if p.core.bytes + charge > p.core.bounds.total then Refusal(BytesFull, p.core.bounds.total, p.core.bytes, charge)
    else Plan([Single(p, eventId, stamp, bodyLen, Restart(p.core.boot, p.core.head))], charge)
  }

  /** Outstanding claims are an error, `None` here; being first after the restart is not checked. */
  function PlanOperatorResume(p: Projection, eventId: Id, stamp: Stamp, bodyLen: nat): Option<Planned>
    requires p.core.head.Some? && RestartRecovery in p.front.holds && p.core.recovered.Some?
  {
    var charge := bodyLen + OVERHEAD;
    if Outstanding(p.claims) then None
    else if p.core.bytes + charge > p.core.bounds.total then
        Some(Refusal(BytesFull, p.core.bounds.total, p.core.bytes, charge))
    else
      Some(Plan([Single(p, eventId, stamp, bodyLen,
                        OperatorResume(RestartRecovery, p.front.holds[RestartRecovery], p.core.recovered.value,
                                       p.front.pending))], charge))
  }

  // --- When plans pass ---------------------------------------------------------------------------------

  /** The stamp belongs to the running boot and does not go back. */
  predicate Current(core: Core, stamp: Stamp) { core.boot == Some(stamp.boot) && core.lastMono <= stamp.mono }

  lemma SingleFramed(p: Projection, eventId: Id, stamp: Stamp, bodyLen: nat, content: Content)
    requires p.core.head.Some? && p.core.generation != 0
    ensures var r := Single(p, eventId, stamp, bodyLen, content);
            Verify(p, [r]) == VerifyShape(p, [r])
  {
    hide VerifyShape;
    var r := Single(p, eventId, stamp, bodyLen, content);
    assert Linked([r][1..], NextEvent(p.core) + 1, Of(r));
  }

  lemma PairFramed(p: Projection, a: Record, b: Record)
    requires p.core.head.Some? && p.core.generation != 0 && a.stamp == b.stamp
    requires a.position == NextPosition(p.core, 0, 2, p.core.head.value.digest)
        && b.position == NextPosition(p.core, 1, 2, Of(a))
    ensures Verify(p, [a, b]) == VerifyShape(p, [a, b])
  {
    hide VerifyShape;
    assert [a, b][1..] == [b];
    assert Linked([b][1..], NextEvent(p.core) + 2, Of(b));
    assert Linked([b], NextEvent(p.core) + 1, Of(a));
  }

  lemma PairShape(p: Projection, a: Record, b: Record)
    requires a.content.Admission? && b.content.Dedupe?
    ensures VerifyShape(p, [a, b]).Ok? <==> Current(p.core, a.stamp) && VerifyAdmission(p, a, b).Ok?
  {
    hide VerifyAdmission, VerifyOne;
  }

  lemma OneShape(p: Projection, r: Record)
    requires !r.content.Admission? && !r.content.Dedupe?
    ensures Restarts(r.content) ==> VerifyShape(p, [r]) == VerifyOne(p, r)
    ensures !Restarts(r.content) ==> (VerifyShape(p, [r]).Ok? <==> Current(p.core, r.stamp) && VerifyOne(p, r).Ok?)
  {
    hide VerifyAdmission, VerifyOne;
  }

  /** An admission plan passes exactly when its boot and clock are current. */
  lemma AdmissionPlanPasses(p: Projection, s: Source, admissionId: Id, dedupeId: Id, stamp: Stamp, lens: (nat, nat))
    requires p.core.head.Some? && p.core.generation != 0
    requires PlanAdmission(p, s, admissionId, dedupeId, stamp, lens).Plan?
    ensures Accepts(p, PlanAdmission(p, s, admissionId, dedupeId, stamp, lens).records) <==> Current(p.core, stamp)
  {
    hide Verify, VerifyShape, Decide, Rows;
    var records := AdmissionPair(p, s, admissionId, dedupeId, stamp, lens);
    PairFramed(p, records[0], records[1]);
    PairShape(p, records[0], records[1]);
    assert VerifyAdmission(p, records[0], records[1]).Ok?;
    assert records == [records[0], records[1]];
  }

  /** A refused admission yields a capacity hold that passes, unless that hold is in force already
      or not even the whole journal has room for its record. */
  lemma CapacityHoldPasses(p: Projection, s: Source, admissionId: Id, dedupeId: Id, stamp: Stamp, lens: (nat, nat),
                           eventId: Id, bodyLen: nat)
    requires p.core.head.Some? && p.core.generation != 0
    requires PlanAdmission(p, s, admissionId, dedupeId, stamp, lens).Refusal?
    ensures var refusal := PlanAdmission(p, s, admissionId, dedupeId, stamp, lens);
            var hold := PlanCapacityHold(p, refusal, eventId, stamp, bodyLen);
            && (hold.None? <==> refusal.code in p.front.holds)
            && (hold.Some? && hold.value.Plan? <==>
                  refusal.code !in p.front.holds
                  && p.core.bytes + bodyLen + 384 <= p.core.bounds.total)
            && (hold.Some? && hold.value.Plan? ==>
                  && (Accepts(p, hold.value.records) <==> Current(p.core, stamp))
                  && (Current(p.core, stamp) ==> refusal.code in After(p, hold.value.records).front.holds))
  {
    hide Verify, VerifyShape, Decide, AdmissionPair;
    var refusal := PlanAdmission(p, s, admissionId, dedupeId, stamp, lens);
    var content := CapacityHold(refusal.code, refusal.limit, refusal.observed, refusal.requested);
    var r := Single(p, eventId, stamp, bodyLen, content);
    SingleFramed(p, eventId, stamp, bodyLen, content);
    OneShape(p, r);
    if Accepts(p, [r]) {
      Decided(p, [r]);
    }
  }

  lemma IngressRefusalPasses(p: Projection, summary: Summary, eventId: Id, stamp: Stamp, bodyLen: nat)
    requires p.core.head.Some? && p.core.generation != 0
    ensures var plan := PlanIngressRefusal(p, summary, eventId, stamp, bodyLen);
            var r := Single(p, eventId, stamp, bodyLen, IngressRefusal(summary, KeyOf(summary), p.front.refusals + 1));
            && (plan.Recorded? ==> plan.records == [r])
            && (Accepts(p, [r]) <==> plan.Recorded? && Current(p.core, stamp))
  {
    hide Verify, VerifyShape, KeyOf, Unreserved;
    var content := IngressRefusal(summary, KeyOf(summary), p.front.refusals + 1);
    SingleFramed(p, eventId, stamp, bodyLen, content);
    OneShape(p, Single(p, eventId, stamp, bodyLen, content));
  }

  /** A restart plan passes exactly when its boot was never seen. */
  lemma RestartPlanPasses(p: Projection, eventId: Id, stamp: Stamp, bodyLen: nat)
    requires p.core.head.Some? && p.core.generation != 0 && PlanRestart(p, eventId, stamp, bodyLen).Plan?
    ensures Accepts(p, PlanRestart(p, eventId, stamp, bodyLen).records) <==> stamp.boot !in p.core.seenBoots
  {
    hide Verify, VerifyShape;
    var content := Restart(p.core.boot, p.core.head);
    SingleFramed(p, eventId, stamp, bodyLen, content);
    OneShape(p, Single(p, eventId, stamp, bodyLen, content));
  }

  /** Planning does not look at what has been committed since the restart; verification does.
      A resume plan passes exactly when nothing has. */
  lemma ResumePlanPasses(p: Projection, eventId: Id, stamp: Stamp, bodyLen: nat)
    requires p.core.head.Some? && p.core.generation != 0 && RestartRecovery in p.front.holds && p.core.recovered.Some?
    requires PlanOperatorResume(p, eventId, stamp, bodyLen).Some? && PlanOperatorResume(p, eventId, stamp,
        bodyLen).value.Plan?
    ensures Accepts(p, PlanOperatorResume(p, eventId, stamp, bodyLen).value.records) <==>
            Current(p.core, stamp) && p.core.head.value.commitSeq == p.core.bootStart
  {
    hide Verify, VerifyShape, Outstanding;
    var content := OperatorResume(RestartRecovery, p.front.holds[RestartRecovery], p.core.recovered.value,
                                  p.front.pending);
    SingleFramed(p, eventId, stamp, bodyLen, content);
    OneShape(p, Single(p, eventId, stamp, bodyLen, content));
  }

  // --- Reachable journals are in their first generation ------------------------------------------------------

  predicate FirstGeneration(core: Core) {
    if core.head.Some? then core.generation == 1
    else core.generation == 0 && core.boot.None?
  }

  lemma StepGeneration(p: Projection, records: seq<Record>)
    requires FirstGeneration(p.core) && Accepts(p, records)
    ensures FirstGeneration(After(p, records).core) && After(p, records).core.head.Some?
  {
    hide VerifyAdmission, Guard, ClaimOf, AddClaim, ApplyFront, VerifyClaim, VerifyRefusal, VerifyResume,
        VerifyCapacity, VerifyRestart, VerifyGenesis;
    Decided(p, records);
    assert records[0].position.generation == 1;
    if records[0].content.Admission? {
      AdmissionGeneration(p, records[0], records[1]);
    } else {
      OneGeneration(p, records[0]);
    }
  }

  lemma AdmissionGeneration(p: Projection, a: Record, b: Record)
    requires a.content.Admission? && b.content.Dedupe? && VerifyAdmission(p, a, b).Ok?
    ensures VerifyAdmission(p, a, b).value.head.generation == p.core.generation
  {
    hide AdmissionOk, Decide, Updates;
  }

  lemma OneGeneration(p: Projection, r: Record)
    requires VerifyOne(p, r).Ok?
    ensures r.content.Restart? ==> p.core.head.Some?
    ensures VerifyOne(p, r).value.head.generation == if r.content.Genesis? then r.position.generation
        else p.core.generation
  {
    hide Guard, ClaimOf;
  }

  lemma {:induction false} RunGeneration(p: Projection, commits: seq<seq<Record>>)
    requires FirstGeneration(p.core) && Accepted(p, commits)
    ensures FirstGeneration(Fold(p, commits).core)
    ensures p.core.head.Some? || commits != [] ==> Fold(p, commits).core.head.Some?
    decreases |commits|
  {
    hide Accepts, After, FirstGeneration;
    if commits != [] {
      StepGeneration(p, commits[0]);
      RunGeneration(After(p, commits[0]), commits[1..]);
    }
  }

  /** On every journal that has been opened, an admission is either planned, and then passes exactly
      when boot and clock are current, or refused, and then its capacity hold does. */
  lemma EveryAdmissionSettles(commits: seq<seq<Record>>, s: Source, admissionId: Id, dedupeId: Id, stamp: Stamp,
                              lens: (nat, nat), eventId: Id, bodyLen: nat)
    requires Accepted(EMPTY, commits) && commits != []
    ensures var p := Fold(EMPTY, commits);
            && p.core.head.Some?
            && var plan := PlanAdmission(p, s, admissionId, dedupeId, stamp, lens);
               if plan.Plan? then Accepts(p, plan.records) <==> Current(p.core, stamp)
               else
                 var hold := PlanCapacityHold(p, plan, eventId, stamp, bodyLen);
                 || hold.None? || hold.value.Refusal?
                 || (Accepts(p, hold.value.records) <==> Current(p.core, stamp))
  {
    hide Accepted, Fold, Accepts, After, PlanAdmission, PlanCapacityHold;
    RunGeneration(EMPTY, commits);
    var p := Fold(EMPTY, commits);
    if PlanAdmission(p, s, admissionId, dedupeId, stamp, lens).Plan? {
      AdmissionPlanPasses(p, s, admissionId, dedupeId, stamp, lens);
    } else {
      CapacityHoldPasses(p, s, admissionId, dedupeId, stamp, lens, eventId, bodyLen);
    }
  }

  // --- A resume planned too late ---------------------------------------------------------------------------

  const ROOMY: Bounds := Bounds(10, 10, 10_000, 10_000)

  function Opening(): Record { Record(1, Position(1, 1, 1, 0, 1, Zero), Stamp(7, 0, 0), 100, Genesis(2, ROOMY)) }

  function Opened(): Projection {
    EMPTY.(core := Core(Some(2), 1, ROOMY, Some(HeadAt(1, Opening())), Some(7), 0, {7}, 484, 1, None))
  }

  lemma Opens()
    ensures Accepts(EMPTY, [Opening()]) && After(EMPTY, [Opening()]) == Opened()
  {
    var records := [Opening()];
    assert Linked(records[1..], 2, Of(Opening()));
    assert Verify(EMPTY, records) == VerifyOne(EMPTY, Opening());
  }

  function Restarting(): Record { Single(Opened(), 3, Stamp(8, 0, 0), 100, Restart(Some(7), Opened().core.head)) }

  function Restarted(): Projection {
    var p := Opened();
    p.(core := p.core.(head := Some(HeadAt(1, Restarting())), boot := Some(8), seenBoots := {7, 8}, bytes := 968,
                       bootStart := 2, recovered := p.core.head),
       front := p.front.(holds := map[RestartRecovery := 2]))
  }

  lemma RestartsNow()
    ensures Accepts(Opened(), [Restarting()]) && After(Opened(), [Restarting()]) == Restarted()
  {
    hide Verify, VerifyShape;
    SingleFramed(Opened(), 3, Stamp(8, 0, 0), 100, Restart(Some(7), Opened().core.head));
    OneShape(Opened(), Restarting());
    assert Opened().core.seenBoots + {8} == {7, 8};
    assert EMPTY.front.holds[RestartRecovery := 2] == map[RestartRecovery := 2];
  }

  const REFUSED: Summary := Summary(0, None, 0)

  function Refusing(): Record { Single(Restarted(), 4, Stamp(8, 0, 0), 100,
                                       IngressRefusal(REFUSED, KeyOf(REFUSED), 1)) }

  /** What matters of the journal after the refusal. */
  lemma RefusesNow()
    ensures Accepts(Restarted(), [Refusing()])
    ensures var p := After(Restarted(), [Refusing()]);
            && p.core.head.Some? && p.core.head.value.commitSeq == 3 && p.core.generation == 1
                && p.core.boot == Some(8) && p.core.lastMono == 0
            && p.core.bootStart == 2 && p.core.recovered.Some? && p.core.bytes == 1452 && p.core.bounds == ROOMY
            && RestartRecovery in p.front.holds && p.claims == NO_CLAIMS
  {
    hide Verify, VerifyShape, VerifyRestart;
    IngressRefusalPasses(Restarted(), REFUSED, 4, Stamp(8, 0, 0), 100);
    Decided(Restarted(), [Refusing()]);
  }

  /** A refusal recorded right after a restart: a resume can still be planned, and is then refused. */
  lemma ResumePlannedTooLate()
    ensures exists commits: seq<seq<Record>>, eventId: Id, stamp: Stamp, bodyLen: nat ::
      && Accepted(EMPTY, commits)
      && var p := Fold(EMPTY, commits);
         && p.core.head.Some? && RestartRecovery in p.front.holds && p.core.recovered.Some?
             && Current(p.core, stamp)
         && var plan := PlanOperatorResume(p, eventId, stamp, bodyLen);
            plan.Some? && plan.value.Plan? && !Accepts(p, plan.value.records)
  {
    hide Accepts, After, Opened, Restarted, Opening, Restarting, Refusing;
    Opens();
    RestartsNow();
    RefusesNow();
    var commits := [[Opening()], [Restarting()], [Refusing()]];
    var p := After(Restarted(), [Refusing()]);
    assert commits[1..] == [[Restarting()], [Refusing()]] && commits[1..][1..] == [[Refusing()]]
        && commits[1..][1..][1..] == [];
    assert Accepted(p, []) && Fold(p, []) == p;
    assert Accepted(Restarted(), [[Refusing()]]) && Fold(Restarted(), [[Refusing()]]) == p;
    assert Accepted(Opened(), commits[1..]) && Fold(Opened(), commits[1..]) == p;
    assert Accepted(EMPTY, commits) && Fold(EMPTY, commits) == p;
    var stamp := Stamp(8, 0, 0);
    assert PlanOperatorResume(p, 5, stamp, 100).Some? && PlanOperatorResume(p, 5, stamp, 100).value.Plan?;
    ResumePlanPasses(p, 5, stamp, 100);
  }
}
