/** Exactly which commits open, restart, hold, refuse, resume and admit, and what each of them changes. */
module JournalCommits {
  import opened Text
  import opened Journal

  /** A record alone in its commit, next in number, chain and generation. */
  predicate Stands(core: Core, r: Record) {
    && r.position.commitIndex == 0 && r.position.commitSize == 1
    && if core.head.None? then
         r.position.commitSeq == 1 && r.position.eventSeq == 1 && r.position.prev == Zero
         && r.position.generation == (if core.generation == 0 then 1 else core.generation)
       else
         && r.position.commitSeq == core.head.value.commitSeq + 1
         && r.position.eventSeq == core.head.value.eventSeq + 1 && r.position.prev == core.head.value.digest
         && r.position.generation == (if core.generation == 0 then 1 else core.generation)
  }

  /** In the running boot and not before its clock. */
  predicate Current(core: Core, r: Record) { core.boot == Some(r.stamp.boot) && core.lastMono <= r.stamp.mono }

  /** Position, clock and size move on; nothing else of the core does. */
  function Moved(core: Core, r: Record): Core {
    core.(head := Some(Head(core.generation, r.position.commitSeq, r.position.eventSeq, Of(r))),
          boot := Some(r.stamp.boot), lastMono := r.stamp.mono, bytes := core.bytes + r.bodyLen + 384)
  }

  lemma Alone(p: Projection, r: Record)
    ensures Framed([r]) && r.position.commitSeq == NextCommit(p.core)
            && Linked([r], NextEvent(p.core), HeadDigest(p.core)) && InGeneration([r], GenerationOf(p.core)) <==>
            Stands(p.core, r)
    ensures SameBoot([r]) && SameStamp([r])
  {
    assert Linked([r][1..], NextEvent(p.core) + 1, Of(r));
    assert Linked([r], NextEvent(p.core), HeadDigest(p.core)) <==>
           r.position.eventSeq == NextEvent(p.core) && r.position.prev == HeadDigest(p.core);
  }

  lemma OneExactly(p: Projection, r: Record)
    requires !r.content.Admission? && !r.content.Dedupe?
    ensures Accepts(p, [r]) <==>
            Stands(p.core, r) && (Current(p.core, r) || r.content.Genesis? || r.content.Restart?) && VerifyOne(p, r).Ok?
    ensures Accepts(p, [r]) ==> Verify(p, [r]) == VerifyOne(p, r)
  {
    hide VerifyOne, Stands, Framed, Linked, InGeneration, SameBoot, SameStamp;
    Alone(p, r);
  }

  /** The first commit: on nothing at all, with bounds in range. */
  lemma GenesisExactly(p: Projection, r: Record)
    requires r.content.Genesis?
    ensures Accepts(p, [r]) <==>
            var b := r.content.bounds;
            && Stands(p.core, r) && p.core.uuid.None? && p.core.head.None?
            && 1 <= b.maxAdmissions <= 10_000 && 1 <= b.maxPending <= 1_024
            && 1 <= b.ordinary <= b.total && b.ordinary <= 117_440_512 && b.total <= 134_217_728
    ensures Accepts(p, [r]) ==>
              After(p, [r]) == Projection(
                Core(Some(r.content.uuid), r.position.generation, r.content.bounds,
                     Some(Head(r.position.generation, r.position.commitSeq, r.position.eventSeq, Of(r))),
                     Some(r.stamp.boot), r.stamp.mono, p.core.seenBoots + {r.stamp.boot}, r.bodyLen + 384,
                     r.position.commitSeq, None),
                p.front.(admissions := 0, lastArrival := 0), p.claims)
  {
    hide Verify, Stands;
    OneExactly(p, r);
  }

  /** A restart: in a boot never seen, naming the boot and the head it found; it takes over no reading, starts
      a new boot at its own commit, and holds dispatch until an operator resumes. */
  lemma RestartExactly(p: Projection, r: Record)
    requires r.content.Restart?
    ensures Accepts(p, [r]) <==>
            && Stands(p.core, r) && r.stamp.boot !in p.core.seenBoots && r.content.previousBoot == p.core.boot
            && p.core.head.Some? && r.content.recovered == p.core.head
            && p.core.bytes + r.bodyLen + 384 <= p.core.bounds.total
    ensures Accepts(p, [r]) ==>
              var since := if RestartRecovery in p.front.holds then p.front.holds[RestartRecovery]
                           else r.position.commitSeq;
              After(p, [r]) == Projection(
                Moved(p.core, r).(seenBoots := p.core.seenBoots + {r.stamp.boot}, bootStart := r.position.commitSeq,
                                  recovered := p.core.head),
                p.front.(holds := p.front.holds[RestartRecovery := since]), p.claims)
  {
    hide Verify, Stands;
    OneExactly(p, r);
    if RestartRecovery in p.front.holds {
      assert p.front.holds[RestartRecovery := p.front.holds[RestartRecovery]] == p.front.holds;
    }
  }

  /** What is counted against a limit, and the limit. */
  predicate Measured(p: Projection, code: HoldCode, limit: int, observed: int) {
    match code
    case AdmissionsFull => limit == p.core.bounds.maxAdmissions && observed == p.front.admissions
    case PendingFull => limit == p.core.bounds.maxPending && observed == |p.front.pending|
    case BytesFull => limit == p.core.bounds.ordinary && observed == p.core.bytes
    case RestartRecovery => false
  }

  /** A capacity hold: of a limit that what was asked for would pass, and not in force yet; it may use the
      whole journal. */
  lemma CapacityExactly(p: Projection, r: Record)
    requires r.content.CapacityHold?
    ensures Accepts(p, [r]) <==>
            var c := r.content;
            && Stands(p.core, r) && Current(p.core, r) && c.code !in p.front.holds
            && Measured(p, c.code, c.limit, c.observed) && c.observed + c.requested > c.limit
            && p.core.bytes + r.bodyLen + 384 <= p.core.bounds.total
    ensures Accepts(p, [r]) ==>
              After(p, [r]) == Projection(
                Moved(p.core, r), p.front.(holds := p.front.holds[r.content.code := r.position.commitSeq]), p.claims)
  {
    hide Verify, Stands;
    OneExactly(p, r);
  }

  /** A refusal: numbered next, under a key not refused before, at most 256 in all and at most 192 of those that
      resolve nothing. */
  lemma RefusalExactly(p: Projection, r: Record)
    requires r.content.IngressRefusal?
    ensures Accepts(p, [r]) <==>
            var c, f := r.content, p.front;
            && Stands(p.core, r) && Current(p.core, r) && c.refusalSeq == f.refusals + 1 <= 256
            && ((c.summary.resolved.Some? && c.summary.resolved.value > 0) || f.unreserved <= 191)
            && c.refusalKey == RefusalKey(c.summary.fields, c.summary.resolved) && c.refusalKey !in f.refusalKeys
            && p.core.bytes + r.bodyLen + 384 <= p.core.bounds.ordinary
    ensures Accepts(p, [r]) ==>
              var c, f := r.content, p.front;
              var more := if c.summary.resolved.Some? && c.summary.resolved.value > 0 then 0 else 1;
              After(p, [r]) == Projection(
                Moved(p.core, r),
                f.(refusalKeys := f.refusalKeys + {c.refusalKey}, refusals := f.refusals + 1,
                   unreserved := f.unreserved + more), p.claims)
  {
    hide Verify, Stands;
    OneExactly(p, r);
  }

  /** A resume: of the restart hold, first after that restart, by an operator who saw the head it recovered and
      everything pending, and with no claim ever made; only the hold goes. */
  lemma ResumeExactly(p: Projection, r: Record)
    requires r.content.OperatorResume?
    ensures Accepts(p, [r]) <==>
            var c, f := r.content, p.front;
            && Stands(p.core, r) && Current(p.core, r) && c.hold == RestartRecovery && RestartRecovery in f.holds
            && c.since == f.holds[RestartRecovery] && p.claims == NO_CLAIMS
            && p.core.head.Some? && p.core.head.value.commitSeq == p.core.bootStart
            && p.core.recovered == Some(c.inspected) && c.pending == f.pending
            && p.core.bytes + r.bodyLen + 384 <= p.core.bounds.total
    ensures Accepts(p, [r]) ==>
              After(p, [r]) == Projection(
                Moved(p.core, r), p.front.(holds := p.front.holds - {RestartRecovery}, resumes := p.front.resumes + 1),
                p.claims)
  {
    hide Verify, Stands;
    OneExactly(p, r);
  }

  // --- Admissions ---------------------------------------------------------------------------------------

  /** Two records of one commit and one stamp, next in number, chain and generation. */
  predicate StandTogether(core: Core, a: Record, b: Record) {
    && a.position.commitIndex == 0 && b.position.commitIndex == 1
    && a.position.commitSize == 2 && b.position.commitSize == 2 && a.stamp == b.stamp
    && a.position.commitSeq == b.position.commitSeq == NextCommit(core)
    && a.position.eventSeq == NextEvent(core) && b.position.eventSeq == NextEvent(core) + 1
    && a.position.prev == HeadDigest(core) && b.position.prev == Of(a)
    && a.position.generation == b.position.generation == GenerationOf(core)
  }

  lemma Together(p: Projection, a: Record, b: Record)
    ensures (&& Framed([a, b]) && a.position.commitSeq == NextCommit(p.core)
             && Linked([a, b], NextEvent(p.core), HeadDigest(p.core)) && InGeneration([a, b], GenerationOf(p.core))
             && SameBoot([a, b]) && SameStamp([a, b])) <==>
            StandTogether(p.core, a, b)
  {
    var both := [a, b];
    assert both[0] == a && both[1] == b && both[1..] == [b] && [b][1..] == [];
    assert Linked([b], NextEvent(p.core) + 1, Of(a)) <==>
           b.position.eventSeq == NextEvent(p.core) + 1 && b.position.prev == Of(a);
  }

  lemma BothExactly(p: Projection, a: Record, b: Record)
    requires a.content.Admission? && b.content.Dedupe?
    ensures Accepts(p, [a, b]) <==>
            StandTogether(p.core, a, b) && Current(p.core, a) && VerifyAdmission(p, a, b).Ok?
    ensures Accepts(p, [a, b]) ==> Verify(p, [a, b]) == VerifyAdmission(p, a, b)
  {
    hide VerifyAdmission, Framed, Linked, InGeneration, SameBoot, SameStamp, StandTogether;
    Together(p, a, b);
  }

  /** Within the three limits, and every recorded field what the journal itself computes; a suppressed admission
      may come when nothing more can be pending. */
  ghost predicate Admissible(p: Projection, a: Record, b: Record)
    requires a.content.Admission? && b.content.Dedupe?
  {
    var x, y, f := a.content, b.content, p.front;
    var d := Decide(f, x.source, x.admissionId);
    var after := |f.pending| + NewPending(x.source, d);
    && a.eventId == x.admissionId == y.admissionId && f.admissions < p.core.bounds.maxAdmissions
    && (d.result == Suppressed || after <= p.core.bounds.maxPending)
    && p.core.bytes + a.bodyLen + b.bodyLen + 768 <= p.core.bounds.ordinary
    && x.arrivalSeq == f.lastArrival + 1 && x.holds == f.holds.Keys && (x.held <==> f.holds != map[])
    && y == Dedupe(x.admissionId, d.result, x.source.group, Rows(x.source), d.before, d.after, d.superseded, after)
  }

  lemma AdmissibleExactly(p: Projection, a: Record, b: Record)
    requires a.content.Admission? && b.content.Dedupe?
    ensures VerifyAdmission(p, a, b).Ok? <==> Admissible(p, a, b)
  {
    hide Decide, NewPending, Rows, Updates;
  }

  /** An admission and its dedupe record are accepted exactly together, next and current, and admissible; they
      add one admission, its baseline and its updates, and nothing else. */
  lemma AdmissionExactly(p: Projection, a: Record, b: Record)
    requires a.content.Admission? && b.content.Dedupe?
    ensures Accepts(p, [a, b]) <==> StandTogether(p.core, a, b) && Current(p.core, a) && Admissible(p, a, b)
    ensures Accepts(p, [a, b]) ==>
              var x, f := a.content, p.front;
              var d := Decide(f, x.source, x.admissionId);
              After(p, [a, b]) == Projection(
                Moved(p.core, b).(bytes := p.core.bytes + a.bodyLen + b.bodyLen + 768),
                f.(admissions := f.admissions + 1, lastArrival := f.lastArrival + 1,
                   baselines := f.baselines[x.source.group := d.after],
                   pending := f.pending + Updates(x.source, d, x.admissionId, f.lastArrival + 1)), p.claims)
  {
    hide Verify, AdmissionOk, Decide, Updates, StandTogether, Admissible;
    BothExactly(p, a, b);
    AdmissibleExactly(p, a, b);
    SameTime(p, a, b);
  }

  lemma SameTime(p: Projection, a: Record, b: Record)
    ensures StandTogether(p.core, a, b) ==> a.stamp == b.stamp
  {
  }
}
