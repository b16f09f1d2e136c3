/** Exactly when a reservation is proposed, said of the rows themselves: no running totals, no order of
    checks. */
module PolicyAnswers {
  import opened Text
  import opened AccountingPolicy

  // --- What a history must be ------------------------------------------------------------------------

  /** An exposure in force at an instant: a bound not yet out of date, or a settled cost within its own
      bound; at least `least`, and in range. */
  predicate Sound(e: Exposure, at: int, least: int) {
    match e
    case Bounded(upper, until) => least <= upper < MAX_MONEY && at < until
    case Settled(upper, actual) => least <= upper < MAX_MONEY && 0 <= actual <= upper
    case Doubtful => false
  }

  /** Two weeks are the same, or apart in key and in time. */
  predicate Agree(a: Week, b: Week) { if a.key == b.key then a == b else a.end <= b.start || b.end <= a.start }

  function RowIds(row: Attempt): seq<Id> { [row.attemptId, row.reservationId, row.runId, row.leaseId] }

  predicate NewIds(ids: seq<Id>, taken: set<Id>) {
    && (forall i, j | 0 <= i < j < |ids| :: ids[i] != ids[j])
    && (forall i | 0 <= i < |ids| :: ids[i] !in taken)
  }

  function Elements(ids: seq<Id>): set<Id> { set id | id in ids }

  function IdsOf(rows: seq<Attempt>): set<Id> { set i, id | 0 <= i < |rows| && id in RowIds(rows[i]) :: id }

  function CostIds(costs: seq<Cost>): set<Id> { set i | 0 <= i < |costs| :: costs[i].costId }

  /** The ids nobody may reuse from the start. */
  function BaseIds(s: Snapshot): set<Id> {
    {s.experimentId} + (set i | 0 <= i < |s.lifecycles| :: s.lifecycles[i].lifecycleId) + ProfileIds(s.profiles)
  }

  /** The lifecycle an attempt names exists, in this week and with this profile. */
  predicate Registered(lifecycles: seq<Lifecycle>, id: Id, profile: Profile, week: Week) {
    exists i | 0 <= i < |lifecycles| ::
      lifecycles[i].lifecycleId == id && lifecycles[i].profile == profile && lifecycles[i].week == week
  }

  /** An attempt says what its kind calls for: a diagnostic stands alone; an initial attempt names its
      lifecycle; a retry also its predecessor, with effects reconciled. */
  predicate Attributed(s: Snapshot, row: Attempt) {
    && row.profile in s.profiles
    && match row.kind
       case Diagnostic => row.lifecycleId.None? && row.predecessorId.None? && !row.effectsReconciled
       case Initial =>
         && row.lifecycleId.Some? && Registered(s.lifecycles, row.lifecycleId.value, row.profile, row.week)
         && row.predecessorId.None? && !row.effectsReconciled
       case Retry =>
         && row.lifecycleId.Some? && Registered(s.lifecycles, row.lifecycleId.value, row.profile, row.week)
         && row.predecessorId.Some? && row.effectsReconciled
  }

  /** A lifecycle agrees with those before it: its week with theirs, its own id, its own slot of the week. */
  predicate LifeOk(lifecycles: seq<Lifecycle>, profiles: seq<Profile>, now: Week, i: nat)
    requires i < |lifecycles|
  {
    var life := lifecycles[i];
    && Agree(life.week, now) && life.profile in profiles
    && (forall j | 0 <= j < i :: Agree(life.week, lifecycles[j].week))
    && (forall j | 0 <= j < i :: life.lifecycleId != lifecycles[j].lifecycleId)
    && (forall j | 0 <= j < i :: !(life.week.key == lifecycles[j].week.key && life.slot == lifecycles[j].slot))
  }

  /** The weeks known before attempt `i`. */
  function WeeksUpTo(s: Snapshot, now: Week, n: nat): seq<Week>
    requires n <= |s.attempts|
  {
    [now] + seq(|s.lifecycles|, i requires 0 <= i < |s.lifecycles| => s.lifecycles[i].week)
    + seq(n, i requires 0 <= i < n => s.attempts[i].week)
  }

  predicate InTime(rows: seq<Attempt>, at: int, i: nat)
    requires i < |rows|
  {
    && rows[i].reservedAt < at && (i > 0 ==> rows[i - 1].reservedAt < rows[i].reservedAt)
    && rows[i].week.start <= rows[i].reservedAt < rows[i].week.end
  }

  ghost predicate RowOk(s: Snapshot, now: Week, at: int, i: nat)
    requires i < |s.attempts|
  {
    var row := s.attempts[i];
    && InTime(s.attempts, at, i) && (forall w | w in WeeksUpTo(s, now, i) :: Agree(row.week, w))
    && NewIds(RowIds(row), BaseIds(s) + IdsOf(s.attempts[..i]))
    && Attributed(s, row) && Continues(s.attempts[..i], row) && Sound(row.exposure, at, 3_000_000)
  }

  predicate CostOk(s: Snapshot, at: int, i: nat)
    requires i < |s.costs|
  {
    && s.costs[i].costId !in BaseIds(s) + IdsOf(s.attempts) + CostIds(s.costs[..i])
    && Sound(s.costs[i].exposure, at, 0)
  }

  /** Every ceiling, over all rows and every group of them. */
  ghost predicate Affordable(rows: seq<Attempt>, costs: int) {
    && Spend(rows, All) + costs <= 49_999_999
    && (forall id :: Spend(rows, InLife(id)) <= 30_000_000 && Count(rows, InLife(id)) <= 10)
    && (forall k :: Spend(rows, InPool(k)) <= 30_000_000 && Count(rows, InPool(k)) <= 10)
  }

  ghost predicate Sized(s: Snapshot) {
    && 1 <= |s.profiles| <= 16 && Distinct(s.profiles)
    && |s.lifecycles| <= 512 && |s.attempts| <= 512 && |s.costs| <= 512
  }

  /** The whole condition: a complete history without a hold, in which every lifecycle, attempt and cost is
      in order, and one more attempt that is too and that every ceiling still covers. */
  ghost predicate Acceptable(weekFor: int -> Option<Week>, s: Snapshot, c: Candidate, at: int) {
    && weekFor(at).Some? && s.asOf == at && s.experimentId == c.experimentId && s.generation == c.generation
    && s.population.Complete? && s.holds == 0 && Sized(s)
    && var now := weekFor(at).value;
       var row := AsAttempt(c, now, at);
       && (forall i | 0 <= i < |s.lifecycles| :: LifeOk(s.lifecycles, s.profiles, now, i))
       && (forall i | 0 <= i < |s.attempts| :: RowOk(s, now, at, i))
       && (forall i | 0 <= i < |s.costs| :: CostOk(s, at, i))
       && NewIds(RowIds(row), BaseIds(s) + IdsOf(s.attempts) + CostIds(s.costs))
       && Attributed(s, row) && Continues(s.attempts, row) && Sound(c.exposure, at, 3_000_000) && c.exposure.Bounded?
       && Affordable(s.attempts + [row], CostTotal(s.costs))
  }

  // --- Money and ids ---------------------------------------------------------------------------------

  lemma AmountExactly(e: Exposure, at: int)
    ensures Amount(e, at, true).Ok? <==> Sound(e, at, 3_000_000)
    ensures Amount(e, at, false).Ok? <==> Sound(e, at, 0)
  {
  }

  lemma {:induction false} ClaimExactly(ids: set<Id>, claims: seq<Id>)
    ensures ClaimIds(ids, claims).Ok? <==> NewIds(claims, ids)
    ensures ClaimIds(ids, claims).Ok? ==> ClaimIds(ids, claims).value == ids + Elements(claims)
    decreases |claims|
  {
    if claims != [] {
      var rest := claims[1..];
      ClaimExactly(ids + {claims[0]}, rest);
      assert forall i | 0 <= i < |rest| :: rest[i] == claims[i + 1];
      assert Elements(claims) == {claims[0]} + Elements(rest);
      if NewIds(claims, ids) { assert NewIds(rest, ids + {claims[0]}); }
      if claims[0] !in ids && NewIds(rest, ids + {claims[0]}) { OneMoreId(claims, ids); }
    }
  }

  lemma OneMoreId(claims: seq<Id>, ids: set<Id>)
    requires claims != [] && claims[0] !in ids && NewIds(claims[1..], ids + {claims[0]})
    ensures NewIds(claims, ids)
  {
    forall i | 0 <= i < |claims| ensures claims[i] !in ids {
      if i > 0 { assert claims[1..][i - 1] == claims[i]; }
    }
    forall i, j | 0 <= i < j < |claims| ensures claims[i] != claims[j] {
      assert claims[1..][j - 1] == claims[j];
      if i > 0 { assert claims[1..][i - 1] == claims[i]; }
    }
  }

  // --- Weeks -----------------------------------------------------------------------------------------

  /** The map of weeks seen stands for their list. */
  ghost predicate Stands(known: map<int, Week>, weeks: seq<Week>) {
    && (forall w | w in weeks :: w.key in known && known[w.key] == w)
    && (forall k | k in known :: known[k] in weeks && known[k].key == k)
  }

  lemma FitsExactly(known: map<int, Week>, weeks: seq<Week>, week: Week)
    requires Stands(known, weeks)
    ensures Fits(known, week) <==> forall w | w in weeks :: Agree(week, w)
  {
    if Fits(known, week) {
      forall w | w in weeks ensures Agree(week, w) { assert known[w.key] == w; }
    }
  }

  lemma StandsMore(known: map<int, Week>, weeks: seq<Week>, week: Week)
    requires Stands(known, weeks) && forall w | w in weeks :: Agree(week, w)
    ensures Stands(known[week.key := week], weeks + [week])
  {
  }

  // --- Lifecycles --------------------------------------------------------------------------------------

  /** The map of lifecycles stands for their list. */
  ghost predicate Lists(lives: map<Id, Lifecycle>, lifecycles: seq<Lifecycle>) {
    && (forall l | l in lifecycles :: l.lifecycleId in lives && lives[l.lifecycleId] == l)
    && (forall id | id in lives :: lives[id] in lifecycles && lives[id].lifecycleId == id)
  }

  function LifeWeeks(lifecycles: seq<Lifecycle>, now: Week): seq<Week> {
    [now] + seq(|lifecycles|, i requires 0 <= i < |lifecycles| => lifecycles[i].week)
  }

  ghost predicate LivesOk(lifecycles: seq<Lifecycle>, profiles: seq<Profile>, now: Week) {
    forall i | 0 <= i < |lifecycles| :: LifeOk(lifecycles, profiles, now, i)
  }

  lemma {:induction false} ConfigureExactly(lifecycles: seq<Lifecycle>, profiles: seq<Profile>, now: Week)
    ensures Configure(lifecycles, profiles, now).Ok? <==> LivesOk(lifecycles, profiles, now)
    ensures Configure(lifecycles, profiles, now).Ok? ==>
              && Lists(Configure(lifecycles, profiles, now).value.0, lifecycles)
              && Stands(Configure(lifecycles, profiles, now).value.1, LifeWeeks(lifecycles, now))
  {
    if lifecycles != [] {
      ConfigureExactly(lifecycles[..|lifecycles| - 1], profiles, now);
      Shorter(lifecycles, profiles, now);
      if Configure(lifecycles[..|lifecycles| - 1], profiles, now).Ok? { LifeStep(lifecycles, profiles, now); }
    }
  }

  lemma Shorter(lifecycles: seq<Lifecycle>, profiles: seq<Profile>, now: Week)
    requires lifecycles != []
    ensures var n := |lifecycles| - 1;
            LivesOk(lifecycles, profiles, now) <==>
            LivesOk(lifecycles[..n], profiles, now) && LifeOk(lifecycles, profiles, now, n)
  {
    hide LifeOk;
    var n := |lifecycles| - 1;
    forall i | 0 <= i < n
      ensures LifeOk(lifecycles, profiles, now, i) <==> LifeOk(lifecycles[..n], profiles, now, i)
    {
      SameLife(lifecycles, profiles, now, i, n);
    }
  }

  lemma SameLife(lifecycles: seq<Lifecycle>, profiles: seq<Profile>, now: Week, i: nat, n: nat)
    requires i < n <= |lifecycles|
    ensures LifeOk(lifecycles, profiles, now, i) <==> LifeOk(lifecycles[..n], profiles, now, i)
  {
  }

  lemma LifeStep(lifecycles: seq<Lifecycle>, profiles: seq<Profile>, now: Week)
    requires lifecycles != [] && Configure(lifecycles[..|lifecycles| - 1], profiles, now).Ok?
    requires var (lives, known) := Configure(lifecycles[..|lifecycles| - 1], profiles, now).value;
             Lists(lives, lifecycles[..|lifecycles| - 1])
             && Stands(known, LifeWeeks(lifecycles[..|lifecycles| - 1], now))
    ensures Configure(lifecycles, profiles, now).Ok? <==> LifeOk(lifecycles, profiles, now, |lifecycles| - 1)
    ensures Configure(lifecycles, profiles, now).Ok? ==>
              && Lists(Configure(lifecycles, profiles, now).value.0, lifecycles)
              && Stands(Configure(lifecycles, profiles, now).value.1, LifeWeeks(lifecycles, now))
  {
    hide Stands, Fits, Lists, LifeWeeks, Agree;
    var n := |lifecycles| - 1;
    var before, life := lifecycles[..n], lifecycles[n];
    var (lives, known) := Configure(before, profiles, now).value;
    FitsExactly(known, LifeWeeks(before, now), life.week);
    LastWeeks(lifecycles, now);
    LastId(lifecycles, lives, life.lifecycleId);
    LastSlot(lifecycles, lives, life.week.key, life.slot);
    if Configure(lifecycles, profiles, now).Ok? {
      StandsMore(known, LifeWeeks(before, now), life.week);
      ListsMore(lifecycles, lives, now);
    }
  }

  lemma ListsMore(lifecycles: seq<Lifecycle>, lives: map<Id, Lifecycle>, now: Week)
    requires lifecycles != [] && Lists(lives, lifecycles[..|lifecycles| - 1])
    requires lifecycles[|lifecycles| - 1].lifecycleId !in lives
    ensures var life := lifecycles[|lifecycles| - 1];
            && Lists(lives[life.lifecycleId := life], lifecycles)
            && LifeWeeks(lifecycles, now) == LifeWeeks(lifecycles[..|lifecycles| - 1], now) + [life.week]
  {
    var before, life := lifecycles[..|lifecycles| - 1], lifecycles[|lifecycles| - 1];
    assert forall l :: l in lifecycles <==> l in before || l == life;
  }

  lemma LastWeeks(lifecycles: seq<Lifecycle>, now: Week)
    requires lifecycles != []
    ensures var n := |lifecycles| - 1;
            var week := lifecycles[n].week;
            (forall w | w in LifeWeeks(lifecycles[..n], now) :: Agree(week, w)) <==>
            Agree(week, now) && forall j | 0 <= j < n :: Agree(week, lifecycles[j].week)
  {
    hide Agree;
    var n := |lifecycles| - 1;
    var weeks := LifeWeeks(lifecycles[..n], now);
    assert weeks[0] == now && forall j | 0 <= j < n :: weeks[j + 1] == lifecycles[j].week;
  }

  lemma LastId(lifecycles: seq<Lifecycle>, lives: map<Id, Lifecycle>, id: Id)
    requires lifecycles != [] && Lists(lives, lifecycles[..|lifecycles| - 1])
    ensures var n := |lifecycles| - 1;
            id in lives <==> exists j | 0 <= j < n :: lifecycles[j].lifecycleId == id
  {
    var n := |lifecycles| - 1;
    var before := lifecycles[..n];
    if id in lives {
      var j :| 0 <= j < n && before[j] == lives[id];
      assert lifecycles[j].lifecycleId == id;
    }
    if j :| 0 <= j < n && lifecycles[j].lifecycleId == id { assert before[j] in before; }
  }

  lemma LastSlot(lifecycles: seq<Lifecycle>, lives: map<Id, Lifecycle>, key: int, slot: LifeSlot)
    requires lifecycles != [] && Lists(lives, lifecycles[..|lifecycles| - 1])
    ensures var n := |lifecycles| - 1;
            (exists id | id in lives :: lives[id].week.key == key && lives[id].slot == slot) <==>
            exists j | 0 <= j < n :: lifecycles[j].week.key == key && lifecycles[j].slot == slot
  {
    var n := |lifecycles| - 1;
    var before := lifecycles[..n];
    if id :| id in lives && lives[id].week.key == key && lives[id].slot == slot {
      var j :| 0 <= j < n && before[j] == lives[id];
      assert lifecycles[j].slot == slot;
    }
    if j :| 0 <= j < n && lifecycles[j].week.key == key && lifecycles[j].slot == slot {
      assert before[j] in before;
      assert lives[lifecycles[j].lifecycleId].slot == slot;
    }
  }

  // --- Attempts -------------------------------------------------------------------------------------------

  lemma AttributionExactly(s: Snapshot, lives: map<Id, Lifecycle>, row: Attempt)
    requires Lists(lives, s.lifecycles)
    ensures var bad := Attribution(row.profile, row.kind, row.lifecycleId, row.predecessorId, row.effectsReconciled,
                                   row.week, s.profiles, lives);
            bad.None? <==> Attributed(s, row)
  {
    if row.lifecycleId.Some? { RegisteredExactly(s.lifecycles, lives, row.lifecycleId.value, row.profile, row.week); }
  }

  lemma RegisteredExactly(lifecycles: seq<Lifecycle>, lives: map<Id, Lifecycle>, id: Id, profile: Profile, week: Week)
    requires Lists(lives, lifecycles)
    ensures Registered(lifecycles, id, profile, week) <==>
            id in lives && lives[id].profile == profile && lives[id].week == week
  {
    if id in lives && lives[id].profile == profile && lives[id].week == week {
      var i :| 0 <= i < |lifecycles| && lifecycles[i] == lives[id];
    }
  }

  lemma LineageExactly(s: Snapshot, a: Accounting, rows: seq<Attempt>, row: Attempt)
    requires Sums(a, rows) && Attributed(s, row)
    ensures Lineage(a.latest, row.kind, row.lifecycleId, row.predecessorId, row.profile).None? <==> Continues(rows, row)
  {
    hide Spend, Count, Latest, Registered, WeekTotal, LifeTotal, PoolTotal;
    if !row.kind.Diagnostic? { assert Belongs(InLife(row.lifecycleId.value), row); }
  }

  ghost predicate Positive(rows: seq<Attempt>) { forall i | 0 <= i < |rows| :: RowAmount(rows[i]) >= 0 }

  lemma {:induction false} PartOfAll(rows: seq<Attempt>, g: Group)
    requires Positive(rows)
    ensures 0 <= Spend(rows, g) <= Spend(rows, All)
  {
    if rows != [] {
      PartOfAll(rows[..|rows| - 1], g);
      PartOfAll(rows[..|rows| - 1], All);
    }
  }

  /** Adding overflows exactly when the grand total does. */
  lemma AddExactly(a: Accounting, rows: seq<Attempt>, row: Attempt)
    requires Sums(a, rows) && Positive(rows) && RowAmount(row) >= 0
    ensures Taken(a, row).Ok? <==> Spend(rows, All) + RowAmount(row) < MAX_MONEY
  {
    hide Spend, Count, Latest;
    PartOfAll(rows, InWeek(row.week.key));
    PartOfAll(rows, InPool(row.week.key));
    PartOfAll(rows, All);
    if row.lifecycleId.Some? { PartOfAll(rows, InLife(row.lifecycleId.value)); }
    assert WeekTotal(a, row.week.key) == Spend(rows, InWeek(row.week.key));
    assert PoolTotal(a, row.week.key).0 == Spend(rows, InPool(row.week.key));
  }

  /** The scratch state after the first `n` attempts. */
  ghost predicate After(a: Accounting, s: Snapshot, now: Week, n: nat)
    requires n <= |s.attempts|
  {
    && a.ids == BaseIds(s) + IdsOf(s.attempts[..n]) && Stands(a.known, WeeksUpTo(s, now, n))
    && a.previousAt == (if n == 0 then None else Some(s.attempts[n - 1].reservedAt))
    && Sums(a, s.attempts[..n]) && a.pools.Keys <= a.weeks.Keys && Positive(s.attempts[..n])
  }

  /** One attempt is counted exactly when it is in order and the grand total stays in range. */
  lemma RowExactly(s: Snapshot, lives: map<Id, Lifecycle>, a: Accounting, now: Week, at: int, n: nat)
    requires n < |s.attempts| && Lists(lives, s.lifecycles) && After(a, s, now, n)
    ensures CountRow(a, s.attempts[n], at, s.profiles, lives).Ok? <==>
            RowOk(s, now, at, n) && Spend(s.attempts[..n], All) + RowAmount(s.attempts[n]) < MAX_MONEY
  {
    hide Sums, Stands, Fits, ClaimIds, Attribution, Attributed, Lineage, Continues, Amount, Sound, Add, Remember,
        Spend, WeeksUpTo, BaseIds, IdsOf, NewIds, Positive, Lists;
    var row := s.attempts[n];
    FitsExactly(a.known, WeeksUpTo(s, now, n), row.week);
    ClaimExactly(a.ids, RowIds(row));
    AttributionExactly(s, lives, row);
    AmountExactly(row.exposure, at);
    if Attributed(s, row) { LineageExactly(s, a, s.attempts[..n], row); }
    if Sound(row.exposure, at, 3_000_000) {
      AmountIs(row, at);
      SoundPositive(row, at);
      RowAdds(s, a, row, n);
    }
  }

  lemma SoundPositive(row: Attempt, at: int)
    requires Sound(row.exposure, at, 3_000_000)
    ensures RowAmount(row) >= 0
  {
  }

  lemma RowAdds(s: Snapshot, a: Accounting, row: Attempt, n: nat)
    requires n <= |s.attempts| && Sums(a, s.attempts[..n]) && Positive(s.attempts[..n]) && RowAmount(row) >= 0
    ensures forall ids, known, previous ::
              Taken(a.(ids := ids, known := known, previousAt := previous), row).Ok? <==>
              Spend(s.attempts[..n], All) + RowAmount(row) < MAX_MONEY
  {
    hide Taken, Sums, Spend, Positive;
    forall ids, known, previous
      ensures Taken(a.(ids := ids, known := known, previousAt := previous), row).Ok? <==>
              Spend(s.attempts[..n], All) + RowAmount(row) < MAX_MONEY
    {
      var b := a.(ids := ids, known := known, previousAt := previous);
      SumsSame(a, b, s.attempts[..n]);
      AddExactly(b, s.attempts[..n], row);
    }
  }

  lemma SumsSame(a: Accounting, b: Accounting, rows: seq<Attempt>)
    requires Sums(a, rows) && b == a.(ids := b.ids, known := b.known, previousAt := b.previousAt)
    ensures Sums(b, rows)
  {
    hide Spend, Count, Latest, WeekTotal, LifeTotal, PoolTotal;
    SameTotals(a, b);
  }

  /** The scratch state moves on with an attempt that was counted. */
  lemma AfterStep(s: Snapshot, lives: map<Id, Lifecycle>, a: Accounting, now: Week, at: int, n: nat)
    requires n < |s.attempts| && Lists(lives, s.lifecycles) && After(a, s, now, n)
    requires CountRow(a, s.attempts[n], at, s.profiles, lives).Ok?
    ensures After(CountRow(a, s.attempts[n], at, s.profiles, lives).value, s, now, n + 1)
  {
    hide Sums, Stands, Fits, Attribution, Lineage, Amount, Spend, WeeksUpTo, BaseIds, Positive, Lists, ClaimIds,
        IdsOf;
    var row := s.attempts[n];
    var b := CountRow(a, row, at, s.profiles, lives).value;
    var rows := s.attempts[..n];
    assert s.attempts[..n + 1] == rows + [row];
    RowCounted(a, row, at, s.profiles, lives);
    SumsStep(a, b, rows, row);
    FitsExactly(a.known, WeeksUpTo(s, now, n), row.week);
    StandsMore(a.known, WeeksUpTo(s, now, n), row.week);
    WeeksStep(s, now, n);
    ClaimExactly(a.ids, RowIds(row));
    IdsStep(rows, row);
    AmountExactly(row.exposure, at);
    AmountIs(row, at);
    PositiveStep(rows, row, at);
    FieldsOf(a, row, at, s.profiles, lives);
  }

  lemma FieldsOf(a: Accounting, row: Attempt, at: int, profiles: seq<Profile>, lives: map<Id, Lifecycle>)
    requires CountRow(a, row, at, profiles, lives).Ok?
    ensures var b := CountRow(a, row, at, profiles, lives).value;
            && ClaimIds(a.ids, RowIds(row)) == Ok(b.ids) && b.known == a.known[row.week.key := row.week]
            && b.previousAt == Some(row.reservedAt) && Fits(a.known, row.week)
            && (a.pools.Keys <= a.weeks.Keys ==> b.pools.Keys <= b.weeks.Keys)
            && Sound(row.exposure, at, 3_000_000)
  {
    hide Fits, Attribution, Lineage, ClaimIds;
  }

  lemma WeeksStep(s: Snapshot, now: Week, n: nat)
    requires n < |s.attempts|
    ensures WeeksUpTo(s, now, n + 1) == WeeksUpTo(s, now, n) + [s.attempts[n].week]
  {
  }

  lemma IdsStep(rows: seq<Attempt>, row: Attempt)
    ensures IdsOf(rows + [row]) == IdsOf(rows) + Elements(RowIds(row))
  {
    var all := rows + [row];
    assert forall i | 0 <= i < |rows| :: all[i] == rows[i];
    assert all[|rows|] == row;
    forall id | id in IdsOf(rows) ensures id in IdsOf(all) {
      var i :| 0 <= i < |rows| && id in RowIds(rows[i]);
      assert id in RowIds(all[i]);
    }
  }

  lemma PositiveStep(rows: seq<Attempt>, row: Attempt, at: int)
    requires Positive(rows)
    ensures Sound(row.exposure, at, 3_000_000) ==> Positive(rows + [row])
  {
  }

  ghost predicate RowsOk(s: Snapshot, now: Week, at: int, n: nat)
    requires n <= |s.attempts|
  {
    forall i | 0 <= i < n :: RowOk(s, now, at, i)
  }

  /** Attempts are counted exactly when all are in order and the grand total stays in range. */
  lemma {:induction false} RowsExactly(s: Snapshot, lives: map<Id, Lifecycle>, start: Accounting, now: Week, at: int,
                                       n: nat)
    requires n <= |s.attempts| && Lists(lives, s.lifecycles) && After(start, s, now, 0)
    ensures var r := CountRows(start, s.attempts[..n], at, s.profiles, lives);
            && (r.Ok? <==> RowsOk(s, now, at, n) && Spend(s.attempts[..n], All) < MAX_MONEY)
            && (r.Ok? ==> After(r.value, s, now, n))
    decreases n
  {
    hide After, CountRow, RowOk, Lists;
    if n == 0 {
      assert s.attempts[..0] == [];
    } else {
      var before, row := s.attempts[..n - 1], s.attempts[n - 1];
      RowsExactly(s, lives, start, now, at, n - 1);
      assert s.attempts[..n] == before + [row] && s.attempts[..n][..n - 1] == before;
      SpendStep(before, row, All);
      var r := CountRows(start, before, at, s.profiles, lives);
      if r.Ok? {
        RowExactly(s, lives, r.value, now, at, n - 1);
        if CountRow(r.value, row, at, s.profiles, lives).Ok? { AfterStep(s, lives, r.value, now, at, n - 1); }
      }
      if RowOk(s, now, at, n - 1) { RowPositive(s, now, at, n - 1); }
    }
  }

  lemma RowPositive(s: Snapshot, now: Week, at: int, i: nat)
    requires i < |s.attempts| && RowOk(s, now, at, i)
    ensures RowAmount(s.attempts[i]) >= 0
  {
    hide NewIds, Attributed, Continues, WeeksUpTo, BaseIds, IdsOf;
  }

  // --- Costs -----------------------------------------------------------------------------------------------

  ghost predicate CostsOk(s: Snapshot, at: int, n: nat)
    requires n <= |s.costs|
  {
    forall i | 0 <= i < n :: CostOk(s, at, i)
  }

  /** One cost is counted exactly when it is in order and the grand total stays in range. */
  lemma CostExactly(s: Snapshot, a: Accounting, at: int, n: nat)
    requires n < |s.costs| && a.ids == BaseIds(s) + IdsOf(s.attempts) + CostIds(s.costs[..n])
    ensures var r := CountCost(a, s.costs[n], at);
            && (r.Ok? <==> CostOk(s, at, n) && a.experiment + CostTotal([s.costs[n]]) < MAX_MONEY)
            && (r.Ok? ==>
                  && r.value == a.(ids := a.ids + {s.costs[n].costId},
                                   experiment := a.experiment + CostTotal([s.costs[n]])))
            && (CostOk(s, at, n) ==> CostTotal([s.costs[n]]) >= 0)
  {
    hide BaseIds, IdsOf, CostIds;
    AmountExactly(s.costs[n].exposure, at);
  }

  lemma CostTotalStep(costs: seq<Cost>, cost: Cost)
    ensures CostTotal(costs + [cost]) == CostTotal(costs) + CostTotal([cost])
  {
    assert (costs + [cost])[..|costs|] == costs;
  }

  /** Costs are counted exactly when all are in order and the grand total stays in range. */
  lemma {:induction false} CostsExactly(s: Snapshot, a: Accounting, at: int, n: nat)
    requires n <= |s.costs| && a.ids == BaseIds(s) + IdsOf(s.attempts) && 0 <= a.experiment < MAX_MONEY
    ensures var r := CountCosts(a, s.costs[..n], at);
            && (r.Ok? <==> CostsOk(s, at, n) && a.experiment + CostTotal(s.costs[..n]) < MAX_MONEY)
            && (r.Ok? ==> CostsOver(a, r.value) && r.value.ids == a.ids + CostIds(s.costs[..n])
                          && r.value.experiment == a.experiment + CostTotal(s.costs[..n]))
            && (CostsOk(s, at, n) ==> CostTotal(s.costs[..n]) >= 0)
    decreases n
  {
    hide BaseIds, IdsOf, CountCost, CostOk, CostTotal;
    if n == 0 {
      assert s.costs[..0] == [];
      NoCosts();
    } else {
      hide CostIds;
      var before, cost := s.costs[..n - 1], s.costs[n - 1];
      CostsExactly(s, a, at, n - 1);
      assert s.costs[..n] == before + [cost] && s.costs[..n][..n - 1] == before;
      CostTotalStep(before, cost);
      CostIdsStep(before, cost);
      var r := CountCosts(a, before, at);
      if r.Ok? { CostExactly(s, r.value, at, n - 1); }
      if CostOk(s, at, n - 1) { CostPositive(s, at, n - 1); }
    }
  }

  lemma NoCosts()
    ensures CostTotal([]) == 0 && CostIds([]) == {}
  {
  }

  lemma CostPositive(s: Snapshot, at: int, i: nat)
    requires i < |s.costs| && CostOk(s, at, i)
    ensures CostTotal([s.costs[i]]) >= 0
  {
    hide BaseIds, IdsOf, CostIds;
  }

  lemma CostIdsStep(costs: seq<Cost>, cost: Cost)
    ensures CostIds(costs + [cost]) == CostIds(costs) + {cost.costId}
  {
    var all := costs + [cost];
    assert all[|costs|] == cost && forall i | 0 <= i < |costs| :: all[i] == costs[i];
    forall id | id in CostIds(costs) + {cost.costId} ensures id in CostIds(all) {
      if id == cost.costId {
        assert all[|costs|].costId == id;
      } else {
        var i :| 0 <= i < |costs| && costs[i].costId == id;
        assert all[i].costId == id;
      }
    }
  }

  // --- The history --------------------------------------------------------------------------------------

  function Start(s: Snapshot, lives: map<Id, Lifecycle>, known: map<int, Week>): Accounting {
    Accounting(0, map[], map[], map[], {s.experimentId} + lives.Keys + ProfileIds(s.profiles), map[], known, None)
  }

  lemma StartsAfter(s: Snapshot, lives: map<Id, Lifecycle>, known: map<int, Week>, now: Week)
    requires Lists(lives, s.lifecycles) && Stands(known, LifeWeeks(s.lifecycles, now))
    ensures After(Start(s, lives, known), s, now, 0)
  {
    hide Sums;
    NothingYet(Start(s, lives, known));
    assert s.attempts[..0] == [];
    assert WeeksUpTo(s, now, 0) == LifeWeeks(s.lifecycles, now);
    StartIds(s, lives);
  }

  lemma StartIds(s: Snapshot, lives: map<Id, Lifecycle>)
    requires Lists(lives, s.lifecycles)
    ensures {s.experimentId} + lives.Keys + ProfileIds(s.profiles) == BaseIds(s)
  {
    var ids := set i | 0 <= i < |s.lifecycles| :: s.lifecycles[i].lifecycleId;
    forall id ensures id in lives <==> id in ids {
      if id in lives {
        var i :| 0 <= i < |s.lifecycles| && s.lifecycles[i] == lives[id];
      }
      if id in ids {
        var i :| 0 <= i < |s.lifecycles| && s.lifecycles[i].lifecycleId == id;
        assert s.lifecycles[i] in s.lifecycles;
      }
    }
    assert lives.Keys == ids;
  }

  /** Attempts in order belong to lifecycles that are registered. */
  lemma {:induction false} NoStranger(s: Snapshot, now: Week, at: int, lives: map<Id, Lifecycle>, id: Id, n: nat)
    requires n <= |s.attempts| && Lists(lives, s.lifecycles) && RowsOk(s, now, at, n) && id !in lives
    ensures Spend(s.attempts[..n], InLife(id)) == 0 && Count(s.attempts[..n], InLife(id)) == 0
    decreases n
  {
    hide RowOk, Lists;
    if n > 0 {
      NoStranger(s, now, at, lives, id, n - 1);
      assert s.attempts[..n] == s.attempts[..n - 1] + [s.attempts[n - 1]];
      SpendStep(s.attempts[..n - 1], s.attempts[n - 1], InLife(id));
      RowKnown(s, now, at, lives, n - 1);
    }
  }

  lemma RowKnown(s: Snapshot, now: Week, at: int, lives: map<Id, Lifecycle>, i: nat)
    requires i < |s.attempts| && Lists(lives, s.lifecycles) && RowOk(s, now, at, i)
    ensures var row := s.attempts[i];
            row.kind.Diagnostic? || (row.lifecycleId.Some? && row.lifecycleId.value in lives)
  {
    hide NewIds, Continues, WeeksUpTo, BaseIds, IdsOf, InTime, Sound;
  }

  /** The ceilings a history is held to are those of every group of its attempts. */
  lemma WithinExactly(s: Snapshot, now: Week, at: int, lives: map<Id, Lifecycle>, a: Accounting, b: Accounting)
    requires Lists(lives, s.lifecycles) && RowsOk(s, now, at, |s.attempts|)
    requires Sums(a, s.attempts) && CostsOver(a, b) && a.pools.Keys <= a.weeks.Keys && Positive(s.attempts)
    requires b.experiment == a.experiment + CostTotal(s.costs)
    ensures HistoryWithin(b, lives) <==> Affordable(s.attempts, CostTotal(s.costs))
  {
    hide Spend, Count, Latest, RowsOk, Lists, Positive, CostTotal;
    var rows := s.attempts;
    assert rows[..|rows|] == rows;
    assert forall k :: WeekTotal(b, k) == WeekTotal(a, k) && PoolTotal(b, k) == PoolTotal(a, k);
    assert forall id :: LifeTotal(b, id) == LifeTotal(a, id);
    forall k ensures WeekTotal(b, k) <= b.experiment { PartOfAll(rows, InWeek(k)); }
    forall id | id !in lives ensures LifeTotal(a, Some(id)) == (0, 0) { NoStranger(s, now, at, lives, id, |rows|); }
    if HistoryWithin(b, lives) {
      forall k ensures PoolTotal(a, k).0 <= 30_000_000 && PoolTotal(a, k).1 <= 10 {
        if k in b.weeks { assert Limits(TotalsFor(b, k, None)).None?; }
      }
      forall id ensures LifeTotal(a, Some(id)).0 <= 30_000_000 && LifeTotal(a, Some(id)).1 <= 10 {
        if id in lives { assert Limits(TotalsFor(b, lives[id].week.key, Some(id))).None?; }
      }
    }
  }

  ghost predicate HistoryOk(s: Snapshot, now: Week, at: int) {
    && s.population.Complete? && s.holds == 0 && Sized(s) && LivesOk(s.lifecycles, s.profiles, now)
    && RowsOk(s, now, at, |s.attempts|) && CostsOk(s, at, |s.costs|) && Affordable(s.attempts, CostTotal(s.costs))
  }

  /** What is known of the totals of a history. */
  ghost predicate Tallied(s: Snapshot, b: Accounting, lives: map<Id, Lifecycle>) {
    && Lists(lives, s.lifecycles) && b.ids == BaseIds(s) + IdsOf(s.attempts) + CostIds(s.costs)
    && (exists a :: Sums(a, s.attempts) && CostsOver(a, b)) && Positive(s.attempts)
    && b.experiment == Spend(s.attempts, All) + CostTotal(s.costs) && CostTotal(s.costs) >= 0
  }

  /** The rows counted into one result: attempts, then costs, then the ceilings. */
  function Counting(s: Snapshot, at: int, lives: map<Id, Lifecycle>, known: map<int, Week>): Option<Accounting> {
    var rows := CountRows(Start(s, lives, known), s.attempts, at, s.profiles, lives);
    if rows.Err? then None
    else
      var costs := CountCosts(rows.value, s.costs, at);
      if costs.Err? || !HistoryWithin(costs.value, lives) then None else Some(costs.value)
  }

  lemma CountExactly(s: Snapshot, at: int, now: Week, lives: map<Id, Lifecycle>, known: map<int, Week>)
    requires Lists(lives, s.lifecycles) && Stands(known, LifeWeeks(s.lifecycles, now))
    ensures var r := Counting(s, at, lives, known);
            && (r.Some? <==> && RowsOk(s, now, at, |s.attempts|) && CostsOk(s, at, |s.costs|)
                             && Affordable(s.attempts, CostTotal(s.costs)))
            && (r.Some? ==> Tallied(s, r.value, lives))
  {
    hide CountRows, CountCosts, HistoryWithin, RowsOk, CostsOk, Lists, Stands, Sums, Positive, Spend, CostTotal,
        Start, BaseIds, IdsOf, CostIds, WeeksUpTo;
    var n, m := |s.attempts|, |s.costs|;
    assert s.attempts[..n] == s.attempts && s.costs[..m] == s.costs;
    StartsAfter(s, lives, known, now);
    RowsExactly(s, lives, Start(s, lives, known), now, at, n);
    var rows := CountRows(Start(s, lives, known), s.attempts, at, s.profiles, lives);
    if rows.Ok? {
      var a := rows.value;
      SumsAll(a, s.attempts);
      PartOfAll(s.attempts, All);
      CostsExactly(s, a, at, m);
      var costs := CountCosts(a, s.costs, at);
      if costs.Ok? {
        WithinExactly(s, now, at, lives, a, costs.value);
      }
    } else if CostsOk(s, at, m) {
      CostsPositive(s, at, m);
    }
  }

  lemma {:induction false} CostsPositive(s: Snapshot, at: int, n: nat)
    requires n <= |s.costs| && CostsOk(s, at, n)
    ensures CostTotal(s.costs[..n]) >= 0
    decreases n
  {
    hide CostOk;
    if n > 0 {
      CostsPositive(s, at, n - 1);
      assert s.costs[..n] == s.costs[..n - 1] + [s.costs[n - 1]];
      CostTotalStep(s.costs[..n - 1], s.costs[n - 1]);
      CostPositive(s, at, n - 1);
    }
  }

  /** A history is counted exactly when it is complete, unheld, in order and affordable. */
  lemma HistoryExactly(s: Snapshot, at: int, now: Week)
    ensures var h := History(s, at, now);
            && (h.Ok? <==> HistoryOk(s, now, at))
            && (h.Ok? ==> Tallied(s, h.value.0, h.value.1))
  {
    hide Configure, CountRows, CountCosts, HistoryWithin, LivesOk, RowsOk, CostsOk, Affordable, Distinct, Tallied,
        Lists, Stands, Spend, CostTotal, ProfileIds;
    ConfigureExactly(s.lifecycles, s.profiles, now);
    var set_up := Configure(s.lifecycles, s.profiles, now);
    if set_up.Ok? {
      var (lives, known) := set_up.value;
      CountExactly(s, at, now, lives, known);
      assert Start(s, lives, known) == Accounting(0, map[], map[], map[],
        {s.experimentId} + lives.Keys + ProfileIds(s.profiles), map[], known, None);
    }
  }

  // --- The candidate ----------------------------------------------------------------------------------------

  /** The totals of the groups an attempt belongs to, over the rows. */
  function TotalsOf(rows: seq<Attempt>, spent: int, row: Attempt): Totals {
    var key := row.week.key;
    if row.lifecycleId.None? then
      Totals(Spend(rows, InWeek(key)), spent, 0, Spend(rows, InPool(key)), 0, Count(rows, InPool(key)))
    else
      var life := InLife(row.lifecycleId.value);
      Totals(Spend(rows, InWeek(key)), spent, Spend(rows, life), Spend(rows, InPool(key)), Count(rows, life),
             Count(rows, InPool(key)))
  }

  predicate Placed(row: Attempt) { row.kind.Diagnostic? <==> row.lifecycleId.None? }

  lemma CandidateAdds(a: Accounting, b: Accounting, rows: seq<Attempt>, row: Attempt)
    requires Sums(a, rows) && CostsOver(a, b) && Positive(rows) && RowAmount(row) >= 0 && Placed(row)
    ensures var r := Add(b, row.kind, row.lifecycleId, row.week.key, RowAmount(row));
            && (r.Ok? <==> b.experiment + RowAmount(row) < MAX_MONEY)
            && (r.Ok? ==> TotalsFor(r.value, row.week.key, row.lifecycleId) ==
                          TotalsOf(rows + [row], b.experiment + RowAmount(row), row))
  {
    hide Spend, Count, Latest, Positive;
    var key := row.week.key;
    PartOfAll(rows, InWeek(key));
    PartOfAll(rows, InPool(key));
    SpendStep(rows, row, InWeek(key));
    SpendStep(rows, row, InPool(key));
    assert WeekTotal(b, key) == Spend(rows, InWeek(key));
    assert PoolTotal(b, key) == (Spend(rows, InPool(key)), Count(rows, InPool(key)));
    if row.lifecycleId.Some? {
      var id := row.lifecycleId.value;
      PartOfAll(rows, InLife(id));
      SpendStep(rows, row, InLife(id));
      assert LifeTotal(b, Some(id)) == LifeTotal(a, Some(id));
    }
  }

  /** With an affordable history, the ceilings that count are those of the groups the candidate joins. */
  lemma LimitsExactly(rows: seq<Attempt>, row: Attempt, costs: int)
    requires Affordable(rows, costs) && Positive(rows) && RowAmount(row) >= 0 && costs >= 0 && Placed(row)
    ensures var spent := Spend(rows, All) + costs + RowAmount(row);
            Limits(TotalsOf(rows + [row], spent, row)).None? <==> Affordable(rows + [row], costs)
  {
    hide Spend, Count;
    var all := rows + [row];
    PartOfAll(all, InWeek(row.week.key));
    forall g ensures Spend(all, g) == Spend(rows, g) + if Belongs(g, row) then RowAmount(row) else 0
      ensures Count(all, g) == Count(rows, g) + if Belongs(g, row) then 1 else 0
    {
      SpendStep(rows, row, g);
    }
    assert Belongs(All, row);
    if Limits(TotalsOf(all, Spend(rows, All) + costs + RowAmount(row), row)).None? {
      forall id ensures Spend(all, InLife(id)) <= 30_000_000 && Count(all, InLife(id)) <= 10 {
        assert Spend(rows, InLife(id)) <= 30_000_000 && Count(rows, InLife(id)) <= 10;
      }
      forall k ensures Spend(all, InPool(k)) <= 30_000_000 && Count(all, InPool(k)) <= 10 {
        assert Spend(rows, InPool(k)) <= 30_000_000 && Count(rows, InPool(k)) <= 10;
      }
    }
  }

  ghost predicate CandidateOk(s: Snapshot, c: Candidate, now: Week, at: int) {
    var row := AsAttempt(c, now, at);
    && NewIds(RowIds(row), BaseIds(s) + IdsOf(s.attempts) + CostIds(s.costs))
    && Attributed(s, row) && Continues(s.attempts, row) && Sound(c.exposure, at, 3_000_000) && c.exposure.Bounded?
    && Affordable(s.attempts + [row], CostTotal(s.costs))
  }

  /** A candidate is proposed exactly when it is one more attempt in order and every ceiling covers it. */
  lemma ProposeExactly(s: Snapshot, b: Accounting, lives: map<Id, Lifecycle>, c: Candidate, now: Week, at: int)
    requires Tallied(s, b, lives) && Affordable(s.attempts, CostTotal(s.costs))
    ensures var r := Propose(b, lives, s.profiles, c, now, at);
            var row := AsAttempt(c, now, at);
            var rows := s.attempts + [row];
            && (r.Ok? <==> CandidateOk(s, c, now, at))
            && (r.Ok? ==> r.value == Proposal(now, RowAmount(row),
                                              TotalsOf(rows, Spend(rows, All) + CostTotal(s.costs), row)))
  {
    hide Sums, ClaimIds, Attribution, Attributed, Lineage, Continues, Amount, Sound, Add, Spend, BaseIds, IdsOf,
        CostIds, NewIds, Positive, Lists, Limits, TotalsFor, TotalsOf, Affordable, CostTotal;
    var row := AsAttempt(c, now, at);
    var rows := s.attempts;
    var a :| Sums(a, rows) && CostsOver(a, b);
    ClaimExactly(b.ids, RowIds(row));
    AttributionExactly(s, lives, row);
    AmountExactly(row.exposure, at);
    if Attributed(s, row) {
      LineageExactly(s, a, rows, row);
      AttributedPlaced(s, row);
      if Sound(row.exposure, at, 3_000_000) {
        AmountIs(row, at);
        SoundPositive(row, at);
        CandidateAdds(a, b, rows, row);
        LimitsExactly(rows, row, CostTotal(s.costs));
        SpendStep(rows, row, All);
        if Affordable(rows + [row], CostTotal(s.costs)) { AffordableSmall(rows + [row], CostTotal(s.costs)); }
      }
    }
  }

  lemma AttributedPlaced(s: Snapshot, row: Attempt)
    requires Attributed(s, row)
    ensures Placed(row)
  {
  }

  lemma AffordableSmall(rows: seq<Attempt>, costs: int)
    requires Affordable(rows, costs)
    ensures Spend(rows, All) + costs < MAX_MONEY
  {
  }

  // --- The answer --------------------------------------------------------------------------------------------

  /** A reservation is proposed exactly when the rows and the candidate are acceptable, and then the proposal
      carries the candidate's own bound and the sums over the rows it joins. */
  lemma EvaluateExactly(weekFor: int -> Option<Week>, s: Snapshot, c: Candidate, at: int)
    ensures var r := Evaluate(weekFor, s, c, at);
            && (r.Ok? <==> Acceptable(weekFor, s, c, at))
            && (r.Ok? ==>
                  var row := AsAttempt(c, weekFor(at).value, at);
                  var rows := s.attempts + [row];
                  r.value == Proposal(weekFor(at).value, RowAmount(row),
                                      TotalsOf(rows, Spend(rows, All) + CostTotal(s.costs), row)))
  {
    hide History, Propose, LifeOk, RowOk, CostOk, NewIds, BaseIds, IdsOf, CostIds, Attributed, Continues, Sound,
        Affordable, CostTotal, Spend, TotalsOf, Sized, Tallied;
    if weekFor(at).Some? {
      var now := weekFor(at).value;
      HistoryExactly(s, at, now);
      var h := History(s, at, now);
      if h.Ok? { ProposeExactly(s, h.value.0, h.value.1, c, now, at); }
      if Acceptable(weekFor, s, c, at) { AffordedBefore(s, AsAttempt(c, now, at), at); }
    }
  }

  lemma AffordedBefore(s: Snapshot, row: Attempt, at: int)
    requires Affordable(s.attempts + [row], CostTotal(s.costs)) && Sound(row.exposure, at, 3_000_000)
    ensures Affordable(s.attempts, CostTotal(s.costs))
  {
    hide Spend, Count, CostTotal;
    var rows := s.attempts;
    forall g ensures Spend(rows, g) <= Spend(rows + [row], g) && Count(rows, g) <= Count(rows + [row], g) {
      SpendStep(rows, row, g);
    }
  }

  ghost predicate Fresh(e: Exposure, at: int) { e.Bounded? ==> at < e.validUntil }

  /** Nothing is proposed while any bound, recorded or asked for, is out of date. */
  lemma NothingStale(weekFor: int -> Option<Week>, s: Snapshot, c: Candidate, at: int)
    requires Evaluate(weekFor, s, c, at).Ok?
    ensures forall i | 0 <= i < |s.attempts| :: Fresh(s.attempts[i].exposure, at)
    ensures forall i | 0 <= i < |s.costs| :: Fresh(s.costs[i].exposure, at)
    ensures c.exposure.Bounded? && at < c.exposure.validUntil
  {
    hide Evaluate, LifeOk, NewIds, BaseIds, IdsOf, CostIds, Attributed, Continues, Affordable, CostTotal, Spend,
        TotalsOf, Sized, WeeksUpTo;
    EvaluateExactly(weekFor, s, c, at);
    forall i | 0 <= i < |s.attempts| ensures Fresh(s.attempts[i].exposure, at) {
      assert RowOk(s, weekFor(at).value, at, i);
    }
    forall i | 0 <= i < |s.costs| ensures Fresh(s.costs[i].exposure, at) { assert CostOk(s, at, i); }
  }
}
