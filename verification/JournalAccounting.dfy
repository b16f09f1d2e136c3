/** What the journal counts is what it holds, and the counts stay in bounds. */
module JournalAccounting {
  import opened Text
  import opened Journal

  function Charges(records: seq<Record>): int
    decreases |records|
  {
    if records == [] then 0 else Charge(records[0]) + Charges(records[1..])
  }

  function TotalCharges(commits: seq<seq<Record>>): int
    decreases |commits|
  {
    if commits == [] then 0 else Charges(commits[0]) + TotalCharges(commits[1..])
  }

  predicate IsAdmission(records: seq<Record>) {
    |records| == 2 && records[0].content.Admission? && records[1].content.Dedupe?
  }

  predicate IsRefusal(records: seq<Record>) { |records| == 1 && records[0].content.IngressRefusal? }

  function CountAdmissions(commits: seq<seq<Record>>): nat
    decreases |commits|
  {
    if commits == [] then 0 else (if IsAdmission(commits[0]) then 1 else 0) + CountAdmissions(commits[1..])
  }

  function CountRefusals(commits: seq<seq<Record>>): nat
    decreases |commits|
  {
    if commits == [] then 0 else (if IsRefusal(commits[0]) then 1 else 0) + CountRefusals(commits[1..])
  }

  /** The pending count recorded by the last admission, or the given one if there is none. */
  function LastPendingCount(count: int, commits: seq<seq<Record>>): int
    decreases |commits|
  {
    if commits == [] then count
    else LastPendingCount(if IsAdmission(commits[0]) then commits[0][1].content.pendingAfter else count, commits[1..])
  }

  predicate Opened(p: Projection)
    requires p.core.head.Some?
  {
    && BoundsOk(p.core.bounds)
    && p.front.admissions == p.front.lastArrival <= p.core.bounds.maxAdmissions
    && |p.front.pending| <= p.core.bounds.maxPending
    && (p.core.head.value.commitSeq > 1 ==> p.core.bytes <= p.core.bounds.total)
  }

  predicate Untouched(p: Projection) {
    p.front.admissions == p.front.lastArrival == 0 && p.front.pending == map[] && p.front.refusals == 0
        && p.core.bytes == 0 && p.core.boot.None?
  }

  predicate RefusalsOk(f: Front) {
    |f.refusalKeys| == f.refusals <= MAX_REFUSALS && f.unreserved <= MAX_REFUSALS - RESOLVED_RESERVE
        && f.unreserved <= f.refusals
  }

  ghost predicate InBounds(p: Projection) {
    RefusalsOk(p.front) && if p.core.head.Some? then p.core.head.value.commitSeq >= 1 && Opened(p) else Untouched(p)
  }

  // --- Pending entries ---------------------------------------------------------------------------

  lemma UnionSize<T>(a: set<T>, b: set<T>, both: set<T>)
    requires both == a * b
    ensures |a + b| == |a| + |b| - |both|
  {
  }

  lemma MergedSize<K, V, W>(m: map<K, V>, u: map<K, V>, both: map<K, W>)
    requires both.Keys == m.Keys * u.Keys
    ensures |m + u| == |m| + |u| - |both|
  {
    UnionSize(m.Keys, u.Keys, both.Keys);
    assert (m + u).Keys == m.Keys + u.Keys;
  }

  lemma SameKeysSize<K, V, W>(m: map<K, V>, n: map<K, W>)
    requires m.Keys == n.Keys
    ensures |m| == |n|
  {
    assert |m.Keys| == |m| && |n.Keys| == |n|;
  }

  lemma SuppressedKeys(f: Front, s: Source, admissionId: Id, arrival: nat)
    requires Decide(f, s, admissionId).result.Suppressed?
    ensures (f.pending + Updates(s, Decide(f, s, admissionId), admissionId, arrival)).Keys == f.pending.Keys
  {
  }

  lemma AdmittedKeys(f: Front, s: Source, admissionId: Id, arrival: nat)
    requires !Decide(f, s, admissionId).result.Suppressed?
    ensures var d := Decide(f, s, admissionId);
            d.superseded.Keys == f.pending.Keys * s.alerts.Keys
                && Updates(s, d, admissionId, arrival).Keys == s.alerts.Keys
  {
  }

  /** The recorded count is the size of the new pending map, even when nothing new is added. */
  lemma PendingSize(f: Front, s: Source, admissionId: Id, arrival: nat)
    ensures var d := Decide(f, s, admissionId);
            |f.pending + Updates(s, d, admissionId, arrival)| == |f.pending| + NewPending(s, d)
  {
    hide Decide, Updates;
    var d := Decide(f, s, admissionId);
    var u := Updates(s, d, admissionId, arrival);
    if d.result.Suppressed? {
      SuppressedKeys(f, s, admissionId, arrival);
      SameKeysSize(f.pending + u, f.pending);
    } else {
      AdmittedKeys(f, s, admissionId, arrival);
      SameKeysSize(u, s.alerts);
      MergedSize(f.pending, u, d.superseded);
    }
  }

  // --- One commit ------------------------------------------------------------------------------------

  predicate Grows(p: Projection, q: Projection, charge: int) {
    q.core.head.Some? && q.core.head.value.commitSeq == NextCommit(p.core) && q.core.bytes == p.core.bytes + charge
  }

  predicate SameCounts(f: Front, g: Front) {
    g.admissions == f.admissions && g.lastArrival == f.lastArrival && g.pending == f.pending
  }

  predicate SameRefusals(f: Front, g: Front) {
    g.refusalKeys == f.refusalKeys && g.refusals == f.refusals && g.unreserved == f.unreserved
  }

  lemma AdmissionCounts(p: Projection, a: Record, b: Record)
    requires a.content.Admission? && b.content.Dedupe? && VerifyAdmission(p, a, b).Ok?
        && b.position.commitSeq == NextCommit(p.core)
    ensures var q := Apply(p, VerifyAdmission(p, a, b).value);
            && Grows(p, q, Charge(a) + Charge(b)) && q.core.bounds == p.core.bounds && SameRefusals(p.front, q.front)
            && q.core.bytes <= q.core.bounds.ordinary
            && q.front.admissions == p.front.admissions + 1 <= q.core.bounds.maxAdmissions
                && q.front.lastArrival == p.front.lastArrival + 1
            && |q.front.pending| == b.content.pendingAfter
            && (|p.front.pending| <= p.core.bounds.maxPending ==> |q.front.pending| <= p.core.bounds.maxPending)
  {
    hide Decide, Updates, Rows;
    var x := a.content;
    PendingSize(p.front, x.source, x.admissionId, p.front.lastArrival + 1);
  }

  lemma OneCounts(p: Projection, r: Record)
    requires VerifyOne(p, r).Ok? && r.position.commitSeq == NextCommit(p.core) && !r.content.Genesis?
    ensures var q := Apply(p, VerifyOne(p, r).value);
            && Grows(p, q, Charge(r)) && q.core.bounds == p.core.bounds && SameCounts(p.front, q.front)
            && (r.content.Restart? ==> p.core.head.Some?)
            && q.core.bytes <= if Ordinary(r.content) then q.core.bounds.ordinary else q.core.bounds.total
  {
    hide Guard, ClaimOf, AddClaim, KeyOf, BodyCap, LimitOf, ObservedOf, Ordinary;
  }

  lemma RefusalAdds(p: Projection, r: Record)
    requires r.content.IngressRefusal? && VerifyRefusal(p, r).Ok? && RefusalsOk(p.front)
    ensures var q := Apply(p, VerifyRefusal(p, r).value);
              RefusalsOk(q.front) && q.front.refusals == p.front.refusals + 1
  {
    hide KeyOf, Fits, Unreserved, ApplyCore;
    var key := r.content.refusalKey;
    assert key !in p.front.refusalKeys;
    assert |p.front.refusalKeys + {key}| == |p.front.refusalKeys| + 1;
  }

  lemma OthersRefuseNothing(p: Projection, r: Record)
    requires !r.content.IngressRefusal? && VerifyOne(p, r).Ok?
    ensures SameRefusals(p.front, Apply(p, VerifyOne(p, r).value).front)
  {
    hide Guard, ClaimOf, AddClaim, BodyCap, LimitOf, ObservedOf, Fits, ApplyCore;
  }

  lemma OneRefuses(p: Projection, r: Record)
    requires VerifyOne(p, r).Ok? && RefusalsOk(p.front)
    ensures var q := Apply(p, VerifyOne(p, r).value);
            && RefusalsOk(q.front)
            && q.front.refusals == p.front.refusals + (if r.content.IngressRefusal? then 1 else 0)
  {
    hide VerifyRefusal, VerifyClaim, Apply;
    if r.content.IngressRefusal? {
      RefusalAdds(p, r);
    } else {
      OthersRefuseNothing(p, r);
    }
  }

  lemma GenesisCounts(p: Projection, r: Record)
    requires r.content.Genesis? && VerifyOne(p, r).Ok? && r.position.commitSeq == NextCommit(p.core) && InBounds(p)
    ensures var q := Apply(p, VerifyOne(p, r).value);
            p.core.head.None? && Grows(p, q, Charge(r)) && SameCounts(p.front, q.front) && BoundsOk(q.core.bounds)
            && q.core.head.value.commitSeq == 1
  {
  }

  lemma ChargesOf(records: seq<Record>)
    ensures |records| == 1 ==> Charges(records) == Charge(records[0])
    ensures |records| == 2 ==> Charges(records) == Charge(records[0]) + Charge(records[1])
  {
    if |records| == 2 {
      assert records[1..][1..] == [];
    }
  }

  /** Every accepted commit adds exactly its charge, stays inside its region, and keeps every count. */
  lemma StepCounts(p: Projection, records: seq<Record>)
    requires InBounds(p) && Accepts(p, records)
    ensures var q := After(p, records);
            && InBounds(q) && q.core.bytes == p.core.bytes + Charges(records)
            && (!records[0].content.Genesis? ==> q.core.bounds == p.core.bounds && q.core.bytes <= q.core.bounds.total)
            && (Ordinary(records[0].content) ==> q.core.bytes <= q.core.bounds.ordinary)
            && q.front.admissions == p.front.admissions + (if IsAdmission(records) then 1 else 0)
            && q.front.refusals == p.front.refusals + (if IsRefusal(records) then 1 else 0)
            && |q.front.pending| == if IsAdmission(records) then records[1].content.pendingAfter else |p.front.pending|
  {
    hide Verify, VerifyOne, VerifyAdmission, Apply, Charges, Charge;
    Decided(p, records);
    ChargesOf(records);
    var r := records[0];
    if r.content.Admission? {
      AdmissionCounts(p, r, records[1]);
    } else {
      OneRefuses(p, r);
      if r.content.Genesis? {
        GenesisCounts(p, r);
      } else {
        OneCounts(p, r);
      }
    }
  }

  // --- Whole runs --------------------------------------------------------------------------------------

  lemma {:induction false} RunCounts(p: Projection, commits: seq<seq<Record>>)
    requires InBounds(p) && Accepted(p, commits)
    ensures var q := Fold(p, commits);
            && InBounds(q) && q.core.bytes == p.core.bytes + TotalCharges(commits)
            && q.front.admissions == p.front.admissions + CountAdmissions(commits)
            && q.front.refusals == p.front.refusals + CountRefusals(commits)
            && |q.front.pending| == LastPendingCount(|p.front.pending|, commits)
    decreases |commits|
  {
    hide Accepts, After, InBounds, Charges, IsAdmission, IsRefusal;
    if commits != [] {
      StepCounts(p, commits[0]);
      RunCounts(After(p, commits[0]), commits[1..]);
    }
  }

  /** The counters of every reachable journal, against the records it was built from. */
  lemma Accounted(commits: seq<seq<Record>>)
    requires Accepted(EMPTY, commits)
    ensures var q := Fold(EMPTY, commits);
            && q.core.bytes == TotalCharges(commits)
            && q.front.admissions == q.front.lastArrival == CountAdmissions(commits)
            && q.front.refusals == |q.front.refusalKeys| == CountRefusals(commits) <= 256 && q.front.unreserved <= 192
            && |q.front.pending| == LastPendingCount(0, commits)
            && (|commits| > 1 ==> q.core.bytes <= q.core.bounds.total)
            && (commits != [] ==>
                  q.front.admissions <= q.core.bounds.maxAdmissions
                  && |q.front.pending| <= q.core.bounds.maxPending)
  {
    hide Accepted, Fold, TotalCharges, CountAdmissions, CountRefusals, LastPendingCount;
    RunCounts(EMPTY, commits);
    Numbered(EMPTY, commits);
  }

  /** Commits are numbered by how many there are. */
  lemma {:induction false} Numbered(p: Projection, commits: seq<seq<Record>>)
    requires InBounds(p) && Accepted(p, commits)
    ensures NextCommit(Fold(p, commits).core) == NextCommit(p.core) + |commits|
    ensures p.core.head.Some? || commits != [] ==> Fold(p, commits).core.head.Some?
    decreases |commits|
  {
    hide Accepts, After, InBounds;
    if commits != [] {
      StepCounts(p, commits[0]);
      StepNumbers(p, commits[0]);
      Numbered(After(p, commits[0]), commits[1..]);
    }
  }

  lemma StepNumbers(p: Projection, records: seq<Record>)
    requires InBounds(p) && Accepts(p, records)
    ensures After(p, records).core.head.Some? && NextCommit(After(p, records).core) == NextCommit(p.core) + 1
  {
    hide Verify, VerifyOne, VerifyAdmission, Apply;
    Decided(p, records);
    if records[0].content.Admission? {
      AdmissionCounts(p, records[0], records[1]);
    } else if records[0].content.Genesis? {
      GenesisCounts(p, records[0]);
    } else {
      OneCounts(p, records[0]);
    }
  }

  /** The first commit is not compared with the bounds it sets: it is within them exactly when its
      own record is. */
  lemma GenesisExactly(p: Projection, records: seq<Record>)
    requires Accepts(p, records) && records[0].content.Genesis?
    ensures var q := After(p, records);
            q.core.bytes <= q.core.bounds.total <==> records[0].bodyLen + 384 <= records[0].content.bounds.total
  {
    hide Verify;
    Decided(p, records);
  }

  /** A first record of 500 bytes in a journal of 600. */
  lemma GenesisMayExceed()
    ensures exists r: Record ::
      Accepts(EMPTY, [r]) && After(EMPTY, [r]).core.bytes > After(EMPTY, [r]).core.bounds.total
  {
    var r := Record(1, Position(1, 1, 1, 0, 1, Zero), Stamp(7, 0, 0), 500, Genesis(2, Bounds(1, 1, 600, 600)));
    var records := [r];
    assert Linked(records[1..], 2, Of(r));
    assert Verify(EMPTY, records) == VerifyOne(EMPTY, r);
    assert Accepts(EMPTY, records);
  }

  /** A journal over its bounds, which only the first commit can produce, takes nothing more. */
  lemma NothingAfterExcess(p: Projection, records: seq<Record>)
    requires InBounds(p) && p.core.head.Some? && p.core.bytes > p.core.bounds.total
    ensures !Accepts(p, records)
  {
    hide InBounds, Verify, VerifyOne, After, Apply;
    if Accepts(p, records) {
      StepCounts(p, records);
      Decided(p, records);
      ChargesOf(records);
      NotGenesis(p, records[0]);
    }
  }

  lemma NotGenesis(p: Projection, r: Record)
    requires VerifyOne(p, r).Ok? && p.core.head.Some?
    ensures !r.content.Genesis?
  {
  }
}
