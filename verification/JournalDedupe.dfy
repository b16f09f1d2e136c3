/** Suppressing repeated alerts never changes what is pending. */
module JournalDedupe {
  import opened Text
  import opened Journal

  /** What a pending entry says about its alert, without the admission that brought it. */
  datatype Carried = Carried(group: Id, status: Status, values: Option<nat>)

  function View(pending: map<Fingerprint, Pending>): map<Fingerprint, Carried> {
    map fp | fp in pending :: Carried(pending[fp].group, pending[fp].status, pending[fp].values)
  }

  function CarriedBy(s: Source): map<Fingerprint, Carried> {
    map fp | fp in s.alerts :: Carried(s.group, s.alerts[fp].status, s.alerts[fp].values)
  }

  /** The sources a commit admits: one for an admission, none otherwise. */
  predicate Admits(records: seq<Record>) { records != [] && records[0].content.Admission? }

  /** The naive fold: every admission overwrites, nothing is ever suppressed. */
  function Naive(view: map<Fingerprint, Carried>, commits: seq<seq<Record>>): map<Fingerprint, Carried>
    decreases |commits|
  {
    if commits == [] then view
    else Naive(if Admits(commits[0]) then view + CarriedBy(commits[0][0].content.source) else view, commits[1..])
  }

  /** Everything a group's baseline covers is still pending, and agrees with the baseline
      unless another group has claimed it since. */
  predicate BaselinesPending(f: Front) {
    forall g, fp | g in f.baselines && fp in f.baselines[g].key :: Covers(f, g, fp)
  }

  predicate Covers(f: Front, g: Id, fp: Fingerprint)
    requires g in f.baselines && fp in f.baselines[g].key
  {
    fp in f.pending && (f.pending[fp].group == g ==>
                          Row(f.pending[fp].status,
                              f.pending[fp].values) == f.baselines[g].key[fp])
  }

  /** A suppressed admission brings nothing that is not already pending. */
  lemma SuppressedIsPending(f: Front, s: Source, admissionId: Id, fp: Fingerprint)
    requires BaselinesPending(f) && Decide(f, s, admissionId).result.Suppressed? && fp in s.alerts
    ensures fp in f.pending
    ensures f.pending[fp].group == s.group ==>
      f.pending[fp].status == s.alerts[fp].status
      && f.pending[fp].values == s.alerts[fp].values
  {
    assert fp in Rows(s) && f.baselines[s.group].key == Rows(s);
    assert Covers(f, s.group, fp);
  }

  /** One admission: the view changes exactly as if nothing had been suppressed. */
  lemma AdmitTransparent(f: Front, s: Source, admissionId: Id, arrival: nat)
    requires BaselinesPending(f)
    ensures View(f.pending + Updates(s, Decide(f, s, admissionId), admissionId, arrival)) == View(f.pending)
        + CarriedBy(s)
  {
    var d := Decide(f, s, admissionId);
    if d.result.Suppressed? {
      forall fp | fp in s.alerts
        ensures fp in f.pending
        ensures f.pending[fp].group == s.group ==>
          f.pending[fp].status == s.alerts[fp].status
          && f.pending[fp].values == s.alerts[fp].values
      {
        SuppressedIsPending(f, s, admissionId, fp);
      }
    }
  }

  lemma AdmitCovers(f: Front, s: Source, admissionId: Id, arrival: nat, g: Id, fp: Fingerprint)
    requires BaselinesPending(f)
    requires var d := Decide(f, s, admissionId); var b := f.baselines[s.group := d.after]; g in b && fp in b[g].key
    ensures var d := Decide(f, s, admissionId);
            Covers(f.(baselines := f.baselines[s.group := d.after], pending := f.pending
                      + Updates(s, d, admissionId, arrival)), g, fp)
  {
    var d := Decide(f, s, admissionId);
    if g == s.group {
      if d.result.Suppressed? {
        assert fp in Rows(s);
        SuppressedIsPending(f, s, admissionId, fp);
      }
    } else {
      assert Covers(f, g, fp);
    }
  }

  lemma AdmitKeeps(f: Front, s: Source, admissionId: Id, arrival: nat)
    requires BaselinesPending(f)
    ensures var d := Decide(f, s, admissionId);
            BaselinesPending(f.(baselines := f.baselines[s.group := d.after],
                                pending := f.pending + Updates(s, d, admissionId, arrival)))
  {
    hide Covers, Decide, Updates;
    var d := Decide(f, s, admissionId);
    var e := f.(baselines := f.baselines[s.group := d.after], pending := f.pending
                + Updates(s, d, admissionId, arrival));
    forall g, fp | g in e.baselines && fp in e.baselines[g].key
      ensures Covers(e, g, fp)
    {
      AdmitCovers(f, s, admissionId, arrival, g, fp);
    }
  }

  /** Only admissions touch what is pending. */
  lemma OthersLeave(p: Projection, records: seq<Record>)
    requires Accepts(p, records) && !Admits(records)
    ensures After(p, records).front.pending == p.front.pending && After(p, records).front.baselines == p.front.baselines
  {
    hide Verify, Guard, ClaimOf, Fits;
    Decided(p, records);
  }

  lemma AdmissionDoes(p: Projection, records: seq<Record>)
    requires Accepts(p, records) && Admits(records)
    ensures var s, id := records[0].content.source, records[0].content.admissionId;
            var d := Decide(p.front, s, id);
            && After(p, records).front.pending == p.front.pending + Updates(s, d, id, p.front.lastArrival + 1)
            && After(p, records).front.baselines == p.front.baselines[s.group := d.after]
  {
    hide Verify, VerifyOne, AdmissionOk, Decide, Updates;
    Decided(p, records);
  }

  lemma StepTransparent(p: Projection, records: seq<Record>)
    requires BaselinesPending(p.front) && Accepts(p, records)
    ensures BaselinesPending(After(p, records).front)
    ensures View(After(p, records).front.pending) ==
            if Admits(records) then View(p.front.pending) + CarriedBy(records[0].content.source)
            else View(p.front.pending)
  {
    hide Accepts, After, Decide, Updates, View, CarriedBy;
    if Admits(records) {
      var s, id := records[0].content.source, records[0].content.admissionId;
      AdmissionDoes(p, records);
      AdmitTransparent(p.front, s, id, p.front.lastArrival + 1);
      AdmitKeeps(p.front, s, id, p.front.lastArrival + 1);
      SameFront(p.front.(baselines := p.front.baselines[s.group := Decide(p.front, s, id).after],
                         pending := p.front.pending + Updates(s, Decide(p.front, s, id), id, p.front.lastArrival + 1)),
                             After(p, records).front);
    } else {
      OthersLeave(p, records);
      SameFront(p.front, After(p, records).front);
    }
  }

  lemma SameFront(f: Front, g: Front)
    requires BaselinesPending(f) && g.pending == f.pending && g.baselines == f.baselines
    ensures BaselinesPending(g)
  {
    forall h, fp | h in g.baselines && fp in g.baselines[h].key
      ensures Covers(g, h, fp)
    {
      assert Covers(f, h, fp);
    }
  }

  /** Over every accepted run, what is pending is what the naive fold says. */
  lemma {:induction false} Transparent(p: Projection, commits: seq<seq<Record>>)
    requires BaselinesPending(p.front) && Accepted(p, commits)
    ensures BaselinesPending(Fold(p, commits).front)
    ensures View(Fold(p, commits).front.pending) == Naive(View(p.front.pending), commits)
    decreases |commits|
  {
    hide Accepts, After, View, CarriedBy, BaselinesPending;
    if commits != [] {
      StepTransparent(p, commits[0]);
      Transparent(After(p, commits[0]), commits[1..]);
    }
  }

  predicate Carries(records: seq<Record>, fp: Fingerprint) { Admits(records) && fp in records[0].content.source.alerts }

  /** The naive fold is last-writer-wins. */
  lemma {:induction false} NaiveLatest(view: map<Fingerprint, Carried>, commits: seq<seq<Record>>, fp: Fingerprint,
                                       i: nat)
    requires i < |commits| && Carries(commits[i], fp) && forall j | i < j < |commits| :: !Carries(commits[j], fp)
    ensures fp in Naive(view, commits) && Naive(view, commits)[fp] == CarriedBy(commits[i][0].content.source)[fp]
    decreases |commits|
  {
    var next := if Admits(commits[0]) then view + CarriedBy(commits[0][0].content.source) else view;
    if i == 0 {
      NaiveUntouched(next, commits[1..], fp);
    } else {
      NaiveLatest(next, commits[1..], fp, i - 1);
    }
  }

  lemma {:induction false} NaiveUntouched(view: map<Fingerprint, Carried>, commits: seq<seq<Record>>, fp: Fingerprint)
    requires forall j | 0 <= j < |commits| :: !Carries(commits[j], fp)
    ensures fp in Naive(view, commits) <==> fp in view
    ensures fp in view ==> Naive(view, commits)[fp] == view[fp]
    decreases |commits|
  {
    if commits != [] {
      assert !Carries(commits[0], fp);
      NaiveUntouched(if Admits(commits[0]) then view + CarriedBy(commits[0][0].content.source) else view, commits[1..],
                     fp);
    }
  }

  /** After every accepted history a fingerprint is pending exactly when some admission carried
      it, with the group, status and values of the latest one that did. */
  lemma LatestAdmissionWins(commits: seq<seq<Record>>, fp: Fingerprint)
    requires Accepted(EMPTY, commits)
    ensures var pending := Fold(EMPTY, commits).front.pending;
            if exists i :: 0 <= i < |commits| && Carries(commits[i], fp) then
              exists i :: 0 <= i < |commits| && Carries(commits[i], fp)
                  && (forall j | i < j < |commits| :: !Carries(commits[j], fp))
                          && fp in pending && View(pending)[fp] == CarriedBy(commits[i][0].content.source)[fp]
            else fp !in pending
  {
    hide Accepted, Fold, Naive;
    Transparent(EMPTY, commits);
    var pending := Fold(EMPTY, commits).front.pending;
    assert View(EMPTY.front.pending) == map[];
    if exists i :: 0 <= i < |commits| && Carries(commits[i], fp) {
      var i := Latest(commits, fp);
      NaiveLatest(map[], commits, fp, i);
      assert fp in View(pending);
    } else {
      NaiveUntouched(map[], commits, fp);
      assert fp !in View(pending);
    }
  }

  ghost function Latest(commits: seq<seq<Record>>, fp: Fingerprint): (i: nat)
    requires exists i :: 0 <= i < |commits| && Carries(commits[i], fp)
    ensures i < |commits| && Carries(commits[i], fp) && forall j | i < j < |commits| :: !Carries(commits[j], fp)
    decreases |commits|
  {
    var n := |commits| - 1;
    if Carries(commits[n], fp) then n
    else
      assert exists i :: 0 <= i < n && Carries(commits[..n][i], fp) by {
        var i :| 0 <= i < |commits| && Carries(commits[i], fp);
        assert i < n && commits[..n][i] == commits[i];
      }
      var i := Latest(commits[..n], fp);
      assert commits[..n][i] == commits[i];
      assert forall j | i < j < n :: commits[..n][j] == commits[j];
      i
  }

  // --- What is suppressed ---------------------------------------------------------------------------------

  predicate OfGroup(records: seq<Record>, g: Id) { Admits(records) && records[0].content.source.group == g }

  /** The last admission of a group. */
  predicate LastOf(commits: seq<seq<Record>>, g: Id, i: nat) {
    i < |commits| && OfGroup(commits[i], g) && forall j | i < j < |commits| :: !OfGroup(commits[j], g)
  }

  /** The same fingerprints with the same status and values; when they started does not matter. */
  ghost predicate SameAlerts(a: Source, b: Source) {
    && (forall fp :: fp in a.alerts <==> fp in b.alerts)
    && (forall fp | fp in a.alerts && fp in b.alerts ::
          a.alerts[fp].status == b.alerts[fp].status && a.alerts[fp].values == b.alerts[fp].values)
  }

  lemma SameRows(a: Source, b: Source)
    ensures Rows(a) == Rows(b) <==> SameAlerts(a, b)
  {
    if Rows(a) == Rows(b) {
      assert forall fp :: fp in Rows(a) <==> fp in a.alerts;
      assert forall fp :: fp in Rows(b) <==> fp in b.alerts;
      forall fp | fp in a.alerts
        ensures a.alerts[fp].status == b.alerts[fp].status && a.alerts[fp].values == b.alerts[fp].values
      {
        assert Rows(a)[fp] == Rows(b)[fp];
      }
    }
  }

  function Seen(seen: map<Id, Source>, records: seq<Record>): map<Id, Source> {
    if Admits(records) then seen[records[0].content.source.group := records[0].content.source] else seen
  }

  /** The latest source of each group, suppressed or not. */
  function Sources(seen: map<Id, Source>, commits: seq<seq<Record>>): map<Id, Source>
    decreases |commits|
  {
    if commits == [] then seen
    else
      var next := Seen(seen, commits[0]);
      Sources(next, commits[1..])
  }

  /** A baseline says what the latest source of its group said. */
  ghost predicate BaselinesSay(f: Front, seen: map<Id, Source>) {
    && (forall g :: g in f.baselines <==> g in seen)
    && (forall g | g in f.baselines ::
          f.baselines[g].key == Rows(seen[g]) && (f.baselines[g].complete <==> seen[g].truncated == Some(0)))
  }

  lemma StepSays(p: Projection, records: seq<Record>, seen: map<Id, Source>)
    requires BaselinesSay(p.front, seen) && Accepts(p, records)
    ensures BaselinesSay(After(p, records).front, Seen(seen, records))
  {
    hide Accepts, After, Rows;
    if Admits(records) { AdmissionDoes(p, records); } else { OthersLeave(p, records); }
  }

  lemma {:induction false} RunSays(p: Projection, commits: seq<seq<Record>>, seen: map<Id, Source>)
    requires BaselinesSay(p.front, seen) && Accepted(p, commits)
    ensures BaselinesSay(Fold(p, commits).front, Sources(seen, commits))
    decreases |commits|
  {
    hide Accepts, After, BaselinesSay;
    if commits != [] {
      StepSays(p, commits[0], seen);
      var next := Seen(seen, commits[0]);
      RunSays(After(p, commits[0]), commits[1..], next);
    }
  }

  lemma {:induction false} SourcesLatest(seen: map<Id, Source>, commits: seq<seq<Record>>, g: Id, i: nat)
    requires LastOf(commits, g, i)
    ensures g in Sources(seen, commits) && Sources(seen, commits)[g] == commits[i][0].content.source
    decreases |commits|
  {
    var next := Seen(seen, commits[0]);
    var rest := commits[1..];
    assert forall j | 0 <= j < |rest| :: rest[j] == commits[j + 1];
    if i == 0 {
      SourcesUntouched(next, rest, g);
    } else {
      SourcesLatest(next, rest, g, i - 1);
    }
  }

  lemma {:induction false} SourcesUntouched(seen: map<Id, Source>, commits: seq<seq<Record>>, g: Id)
    requires forall j | 0 <= j < |commits| :: !OfGroup(commits[j], g)
    ensures g in Sources(seen, commits) <==> g in seen
    ensures g in seen ==> Sources(seen, commits)[g] == seen[g]
    decreases |commits|
  {
    if commits != [] {
      assert !OfGroup(commits[0], g);
      var rest := commits[1..];
      assert forall j | 0 <= j < |rest| :: rest[j] == commits[j + 1];
      SourcesUntouched(Seen(seen, commits[0]), rest, g);
    }
  }

  lemma {:induction false} SomeLast(commits: seq<seq<Record>>, g: Id, k: nat) returns (i: nat)
    requires k < |commits| && OfGroup(commits[k], g)
    ensures LastOf(commits, g, i)
    decreases |commits| - k
  {
    if j: nat :| k < j < |commits| && OfGroup(commits[j], g) {
      i := SomeLast(commits, g, j);
    } else {
      i := k;
    }
  }

  /** An admission repeats what its group said last: both complete, and the same alerts. */
  ghost predicate RepeatsLast(commits: seq<seq<Record>>, s: Source) {
    && s.truncated == Some(0)
    && exists i: nat :: LastOf(commits, s.group, i) && commits[i][0].content.source.truncated == Some(0)
                        && SameAlerts(commits[i][0].content.source, s)
  }

  lemma RepeatsSays(commits: seq<seq<Record>>, f: Front, s: Source)
    requires BaselinesSay(f, Sources(map[], commits))
    ensures Repeats(f, s) <==> RepeatsLast(commits, s)
  {
    hide Sources, Rows, SameAlerts;
    if k: nat :| k < |commits| && OfGroup(commits[k], s.group) {
      var i := SomeLast(commits, s.group, k);
      SourcesLatest(map[], commits, s.group, i);
      SameRows(commits[i][0].content.source, s);
      forall j: nat | LastOf(commits, s.group, j) ensures j == i { }
    } else {
      SourcesUntouched(map[], commits, s.group);
    }
  }

  lemma DecidedAs(p: Projection, records: seq<Record>)
    requires Accepts(p, records) && Admits(records)
    ensures |records| == 2 && records[1].content.Dedupe?
    ensures var x := records[0].content; records[1].content.result == Decide(p.front, x.source, x.admissionId).result
  {
    hide Verify, VerifyOne, Decide, Updates, NewPending;
    Decided(p, records);
  }

  /** In every accepted history an admission is suppressed exactly when it is complete and repeats the latest
      admission of its group, itself complete: the same fingerprints, each with the same status and values. Of
      the others, those are fresh that bring only fingerprints no admission has brought before. */
  lemma SuppressedExactly(commits: seq<seq<Record>>, records: seq<Record>)
    requires Accepted(EMPTY, commits) && Accepts(Fold(EMPTY, commits), records) && Admits(records)
    ensures |records| == 2 && records[1].content.Dedupe?
    ensures var s, result := records[0].content.source, records[1].content.result;
            && (result == Suppressed <==> RepeatsLast(commits, s))
            && (result == DedupeResult.Fresh <==>
                !RepeatsLast(commits, s)
                && forall fp, i: nat | fp in s.alerts && i < |commits| :: !Carries(commits[i], fp))
  {
    hide Accepted, Fold, Accepts, RepeatsLast, BaselinesSay, Repeats;
    var p, s := Fold(EMPTY, commits), records[0].content.source;
    NoneSay();
    RunSays(EMPTY, commits, map[]);
    RepeatsSays(commits, p.front, s);
    DecidedAs(p, records);
    forall fp ensures fp in p.front.pending <==> exists i :: 0 <= i < |commits| && Carries(commits[i], fp) {
      LatestAdmissionWins(commits, fp);
    }
    SupersededWhen(p.front, s, records[0].content.admissionId);
  }

  lemma NoneSay()
    ensures BaselinesSay(EMPTY.front, map[])
  {
  }

  lemma SupersededWhen(f: Front, s: Source, id: Id)
    ensures Decide(f, s, id).result == Suppressed <==> Repeats(f, s)
    ensures Decide(f, s, id).result == DedupeResult.Fresh <==>
            !Repeats(f, s) && forall fp | fp in s.alerts :: fp !in f.pending
  {
    hide Repeats, Rows;
    var superseded := map fp | fp in s.alerts && fp in f.pending :: f.pending[fp].admissionId;
    assert superseded == map[] <==> forall fp | fp in s.alerts :: fp !in f.pending by {
      if superseded == map[] {
        forall fp | fp in s.alerts ensures fp !in f.pending { assert fp !in superseded; }
      }
    }
  }
}
