/** The reservation policy: what one more attempt may cost, given a complete history. */
module AccountingPolicy {
  import opened Text

  type Id = nat

  /** A calendar week; whether its bounds are a real week is part of the record grammar. */
  datatype Week = Week(key: int, start: int, end: int)

  datatype Profile = Profile(model: Id, auth: Id, venue: Id)

  datatype Kind = Initial | Retry | Diagnostic

  datatype LifeSlot = Rehearsal1 | Rehearsal2 | Rehearsal3 | Presentation

  datatype Lifecycle = Lifecycle(lifecycleId: Id, slot: LifeSlot, week: Week, profile: Profile)

  /** What is known about a cost. */
  datatype Exposure = Bounded(upper: int, validUntil: int) | Settled(upper: int, actual: int) | Doubtful

  datatype Attempt = Attempt(
    attemptId: Id, reservationId: Id, runId: Id, leaseId: Id, reservedAt: int, week: Week, profile: Profile, kind: Kind,
    lifecycleId: Option<Id>, predecessorId: Option<Id>, effectsReconciled: bool, exposure: Exposure)

  datatype Cost = Cost(costId: Id, exposure: Exposure)

  datatype Population = Complete | UnknownPopulation

  datatype Snapshot = Snapshot(
    experimentId: Id, generation: nat, asOf: int, population: Population, profiles: seq<Profile>,
    lifecycles: seq<Lifecycle>, attempts: seq<Attempt>, costs: seq<Cost>, holds: nat)

  datatype Candidate = Candidate(
    experimentId: Id, generation: nat, attemptId: Id, reservationId: Id, runId: Id, leaseId: Id, profile: Profile,
        kind: Kind,
    lifecycleId: Option<Id>, predecessorId: Option<Id>, effectsReconciled: bool, exposure: Exposure)

  datatype Code =
    | InvalidTime | StaleSnapshot | IdentityConflict | HistoryLimit | PopulationUnknown | OnHold | ConfigurationConflict
    | InvalidWeek | LineageConflict | InvalidInput | ExposureUnknown | ExposureStale | InvalidMoney | AboveLiability
    | ArithmeticOverflow | HistoryBreach | WeeklyLimit | ExperimentLimit | LifecycleLimit | DiagnosticLimit
    | LifecycleAttemptLimit | DiagnosticAttemptLimit

  datatype Result<+T> = Ok(value: T) | Err(code: Code)

  const MAX_MONEY: int := 0x8000_0000_0000_0000
  const MIN_RESERVATION: int := 3_000_000
  const WEEKLY: int := 150_000_000
  const EXPERIMENT: int := 49_999_999
  const LIFECYCLE: int := 30_000_000
  const DIAGNOSTIC: int := 30_000_000
  const ATTEMPTS: int := 10

  // --- Money ------------------------------------------------------------------------------------

  /** The amount an exposure counts for at an instant. */
  function Amount(e: Exposure, at: int, model: bool): Result<int> {
    match e
    case Doubtful => Err(ExposureUnknown)
    case Bounded(upper, until) =>
      if upper < 0 then Err(InvalidMoney) else if upper >= MAX_MONEY then Err(ArithmeticOverflow)
      else if model && upper < MIN_RESERVATION then Err(InvalidMoney)
      else if until <= at then Err(ExposureStale)
      else Ok(upper)
    case Settled(upper, actual) =>
      if upper < 0 then Err(InvalidMoney) else if upper >= MAX_MONEY then Err(ArithmeticOverflow)
      else if model && upper < MIN_RESERVATION then Err(InvalidMoney)
      else if actual < 0 then Err(InvalidMoney) else if actual >= MAX_MONEY then Err(ArithmeticOverflow)
      else if actual > upper then Err(AboveLiability)
      else Ok(actual)
  }

  datatype Totals = Totals(week: int, experiment: int, lifecycle: int, diagnostic: int, lifecycleAttempts: int,
                           diagnosticAttempts: int)

  /** The first ceiling passed, if any. */
  function Limits(t: Totals): Option<Code> {
    if t.week > WEEKLY then Some(WeeklyLimit)
    else if t.experiment > EXPERIMENT then Some(ExperimentLimit)
    else if t.lifecycle > LIFECYCLE then Some(LifecycleLimit)
    else if t.diagnostic > DIAGNOSTIC then Some(DiagnosticLimit)
    else if t.lifecycleAttempts > ATTEMPTS then Some(LifecycleAttemptLimit)
    else if t.diagnosticAttempts > ATTEMPTS then Some(DiagnosticAttemptLimit)
    else None
  }

  // --- Scratch accounting -----------------------------------------------------------------------

  /** The last attempt seen of a lifecycle. */
  datatype Last = Last(attemptId: Id, kind: Kind, profile: Profile)

  datatype Accounting = Accounting(
    experiment: int, weeks: map<int, int>, lives: map<Id, (int, int)>, pools: map<int, (int, int)>,
    ids: set<Id>, latest: map<Id, Last>, known: map<int, Week>, previousAt: Option<int>)

  function WeekTotal(a: Accounting, key: int): int { if key in a.weeks then a.weeks[key] else 0 }

  function LifeTotal(a: Accounting, id: Option<Id>): (int, int) {
    if id.Some? && id.value in a.lives then a.lives[id.value] else (0, 0)
  }

  function PoolTotal(a: Accounting, key: int): (int, int) { if key in a.pools then a.pools[key] else (0, 0) }

  function TotalsFor(a: Accounting, key: int, id: Option<Id>): Totals {
    Totals(WeekTotal(a, key), a.experiment, LifeTotal(a, id).0, PoolTotal(a, key).0, LifeTotal(a, id).1,
           PoolTotal(a, key).1)
  }

  predicate Pooled(kind: Kind) { kind.Retry? || kind.Diagnostic? }

  /** One attempt's amount enters every total it belongs to. */
  function Add(a: Accounting, kind: Kind, life: Option<Id>, key: int, amount: int): Result<Accounting> {
    var week, spend, pool := WeekTotal(a, key) + amount, LifeTotal(a, life).0 + amount, PoolTotal(a, key).0 + amount;
    if a.experiment + amount >= MAX_MONEY || week >= MAX_MONEY then Err(ArithmeticOverflow)
    else if !kind.Diagnostic? && spend >= MAX_MONEY then Err(ArithmeticOverflow)
    else if Pooled(kind) && pool >= MAX_MONEY then Err(ArithmeticOverflow)
    else
      Ok(a.(experiment := a.experiment + amount, weeks := a.weeks[key := week],
            lives := if kind.Diagnostic? || life.None? then a.lives else a.lives[life.value :=
                (spend, LifeTotal(a, life).1 + 1)],
            pools := if Pooled(kind) then a.pools[key := (pool, PoolTotal(a, key).1 + 1)] else a.pools))
  }

  function ClaimIds(ids: set<Id>, claims: seq<Id>): Result<set<Id>>
    decreases |claims|
  {
    if claims == [] then Ok(ids)
    else if claims[0] in ids then Err(IdentityConflict)
    else ClaimIds(ids + {claims[0]}, claims[1..])
  }

  predicate Disjoint(a: Week, b: Week) { a.end <= b.start || a.start >= b.end }

  /** A week agrees with every known one: the same week, or apart from it. */
  predicate Fits(known: map<int, Week>, week: Week) {
    forall k | k in known :: if known[k].key == week.key then known[k] == week else Disjoint(week, known[k])
  }

  function Attribution(profile: Profile, kind: Kind, life: Option<Id>, predecessor: Option<Id>, reconciled: bool,
                       week: Week,
                       profiles: seq<Profile>, lives: map<Id, Lifecycle>): Option<Code> {
    if profile !in profiles then Some(ConfigurationConflict)
    else if kind.Diagnostic? then
      if life.None? && predecessor.None? && !reconciled then None else Some(LineageConflict)
    else if life.None? then Some(InvalidInput)
    else if life.value !in lives then Some(ConfigurationConflict)
    else if lives[life.value].profile != profile || lives[life.value].week != week then Some(ConfigurationConflict)
    else if kind.Initial? then
      if predecessor.None? && !reconciled then None else Some(LineageConflict)
    else if reconciled && predecessor.Some? then None else Some(LineageConflict)
  }

  /** A retry names the latest attempt of its lifecycle; nothing but retries follows a retry. */
  function Lineage(latest: map<Id, Last>, kind: Kind, life: Option<Id>, predecessor: Option<Id>,
                   profile: Profile): Option<Code> {
    if kind.Diagnostic? || life.None? then None
    else if kind.Retry? then
      if life.value in latest && predecessor == Some(latest[life.value].attemptId)
          && profile == latest[life.value].profile
      then None else Some(LineageConflict)
    else if life.value in latest && latest[life.value].kind.Retry? then Some(LineageConflict) else None
  }

  function Remember(a: Accounting, kind: Kind, life: Option<Id>, last: Last): Accounting {
    if kind.Diagnostic? || life.None? then a else a.(latest := a.latest[life.value := last])
  }

  /** One recorded attempt, with every check that history must still pass. */
  function CountRow(a: Accounting, row: Attempt, at: int, profiles: seq<Profile>, lives: map<Id,
                    Lifecycle>): Result<Accounting> {
    if !(row.reservedAt < at && (a.previousAt.Some? ==> a.previousAt.value < row.reservedAt)) then Err(LineageConflict)
    else if !Fits(a.known, row.week) then Err(InvalidWeek)
    else if !(row.week.start <= row.reservedAt < row.week.end) then Err(InvalidWeek)
    else
      var ids := ClaimIds(a.ids, [row.attemptId, row.reservationId, row.runId, row.leaseId]);
      if ids.Err? then Err(ids.code)
      else
        var bad := Attribution(row.profile, row.kind, row.lifecycleId, row.predecessorId, row.effectsReconciled,
                               row.week, profiles, lives);
        if bad.Some? then Err(bad.value)
        else
          var broken := Lineage(a.latest, row.kind, row.lifecycleId, row.predecessorId, row.profile);
          if broken.Some? then Err(broken.value)
          else
            var amount := Amount(row.exposure, at, true);
            if amount.Err? then Err(amount.code)
            else
              var b := a.(ids := ids.value, known := a.known[row.week.key := row.week],
                          previousAt := Some(row.reservedAt));
              Add(Remember(b, row.kind, row.lifecycleId, Last(row.attemptId, row.kind, row.profile)),
                  row.kind, row.lifecycleId, row.week.key, amount.value)
  }

  function CountRows(a: Accounting, rows: seq<Attempt>, at: int, profiles: seq<Profile>, lives: map<Id,
                     Lifecycle>): Result<Accounting> {
    if rows == [] then Ok(a)
    else
      var before := CountRows(a, rows[..|rows| - 1], at, profiles, lives);
      if before.Err? then before else CountRow(before.value, rows[|rows| - 1], at, profiles, lives)
  }

  function CountCost(a: Accounting, cost: Cost, at: int): Result<Accounting> {
    if cost.costId in a.ids then Err(IdentityConflict)
    else
      var amount := Amount(cost.exposure, at, false);
      if amount.Err? then Err(amount.code)
      else if a.experiment + amount.value >= MAX_MONEY then Err(ArithmeticOverflow)
      else Ok(a.(ids := a.ids + {cost.costId}, experiment := a.experiment + amount.value))
  }

  function CountCosts(a: Accounting, costs: seq<Cost>, at: int): Result<Accounting> {
    if costs == [] then Ok(a)
    else
      var before := CountCosts(a, costs[..|costs| - 1], at);
      if before.Err? then before else CountCost(before.value, costs[|costs| - 1], at)
  }

  /** The loops that build the scratch totals. */
  method TallyRows(a: Accounting, rows: seq<Attempt>, at: int, profiles: seq<Profile>, lives: map<Id,
                   Lifecycle>) returns (r: Result<Accounting>)
    ensures r == CountRows(a, rows, at, profiles, lives)
  {
    hide CountRow;
    r := Ok(a);
    for i := 0 to |rows|
      invariant r == CountRows(a, rows[..i], at, profiles, lives)
    {
      assert rows[..i + 1][..i] == rows[..i];
      if r.Err? {
        FailsLonger(a, rows, i, at, profiles, lives);
        return;
      }
      r := CountRow(r.value, rows[i], at, profiles, lives);
    }
    assert rows[..|rows|] == rows;
  }

  lemma {:induction false} FailsLonger(a: Accounting, rows: seq<Attempt>, i: nat, at: int, profiles: seq<Profile>,
                                       lives: map<Id, Lifecycle>)
    requires i <= |rows| && CountRows(a, rows[..i], at, profiles, lives).Err?
    ensures CountRows(a, rows, at, profiles, lives) == CountRows(a, rows[..i], at, profiles, lives)
    decreases |rows|
  {
    hide CountRow;
    if i == |rows| {
      assert rows[..i] == rows;
    } else {
      assert rows[..|rows| - 1][..i] == rows[..i];
      FailsLonger(a, rows[..|rows| - 1], i, at, profiles, lives);
    }
  }

  // --- Evaluation -----------------------------------------------------------------------------------

  /** Lifecycles by id, in order, with their weeks remembered. */
  function Configure(lifecycles: seq<Lifecycle>, profiles: seq<Profile>, current: Week): Result<(map<Id, Lifecycle>,
      map<int, Week>)> {
    if lifecycles == [] then Ok((map[], map[current.key := current]))
    else
      var before := Configure(lifecycles[..|lifecycles| - 1], profiles, current);
      if before.Err? then before
      else
        var (lives, known), life := before.value, lifecycles[|lifecycles| - 1];
        if !Fits(known, life.week) then Err(InvalidWeek)
        else if life.profile !in profiles then Err(ConfigurationConflict)
        else if life.lifecycleId in lives || (exists id | id in lives ::
              lives[id].week.key == life.week.key && lives[id].slot == life.slot)
        then Err(ConfigurationConflict)
        else Ok((lives[life.lifecycleId := life], known[life.week.key := life.week]))
  }

  predicate HistoryWithin(a: Accounting, lives: map<Id, Lifecycle>) {
    && a.experiment <= EXPERIMENT
    && (forall k | k in a.weeks :: Limits(TotalsFor(a, k, None)).None?)
    && (forall id | id in lives :: Limits(TotalsFor(a, lives[id].week.key, Some(id))).None?)
  }

  datatype Proposal = Proposal(week: Week, liability: int, totals: Totals)

  predicate Distinct(profiles: seq<Profile>) {
    forall i, j | 0 <= i < j < |profiles| :: profiles[i] != profiles[j]
  }

  function ProfileIds(profiles: seq<Profile>): set<Id> {
    (set p | p in profiles :: p.model) + (set p | p in profiles :: p.auth) + (set p | p in profiles :: p.venue)
  }

  /** The history alone: either the scratch totals, or why nothing can be reserved. A ceiling
      already breached by a week or a lifecycle is reported without saying which. */
  function History(s: Snapshot, at: int, current: Week): Result<(Accounting, map<Id, Lifecycle>)> {
    if |s.profiles| > 16 || |s.lifecycles| > 512 || |s.attempts| > 512 || |s.costs| > 512
        || s.holds > 32 then Err(HistoryLimit)
    else if !s.population.Complete? then Err(PopulationUnknown)
    else if s.holds > 0 then Err(OnHold)
    else if s.profiles == [] || !Distinct(s.profiles) then Err(ConfigurationConflict)
    else
      var set_up := Configure(s.lifecycles, s.profiles, current);
      if set_up.Err? then Err(set_up.code)
      else
        var (lives, known) := set_up.value;
        var start := Accounting(0, map[], map[], map[], {s.experimentId} + lives.Keys + ProfileIds(s.profiles), map[],
                                known, None);
        var rows := CountRows(start, s.attempts, at, s.profiles, lives);
        if rows.Err? then Err(rows.code)
        else
          var costs := CountCosts(rows.value, s.costs, at);
          if costs.Err? then Err(costs.code)
          else if !HistoryWithin(costs.value, lives) then
              Err(if costs.value.experiment > EXPERIMENT then ExperimentLimit else HistoryBreach)
          else Ok((costs.value, lives))
  }

  function Evaluate(weekFor: int -> Option<Week>, s: Snapshot, c: Candidate, at: int): Result<Proposal> {
    if weekFor(at).None? then Err(InvalidTime)
    else if s.asOf != at then Err(StaleSnapshot)
    else if s.experimentId != c.experimentId || s.generation != c.generation then Err(IdentityConflict)
    else
      var current := weekFor(at).value;
      var h := History(s, at, current);
      if h.Err? then Err(h.code) else Propose(h.value.0, h.value.1, s.profiles, c, current, at)
  }

  /** The candidate is judged like one more row, against every ceiling. */
  function Propose(a: Accounting, lives: map<Id, Lifecycle>, profiles: seq<Profile>, c: Candidate, current: Week,
                   at: int): Result<Proposal> {
    var ids := ClaimIds(a.ids, [c.attemptId, c.reservationId, c.runId, c.leaseId]);
    if ids.Err? then Err(ids.code)
    else
      var bad := Attribution(c.profile, c.kind, c.lifecycleId, c.predecessorId, c.effectsReconciled, current, profiles,
                             lives);
      if bad.Some? then Err(bad.value)
      else
        var broken := Lineage(a.latest, c.kind, c.lifecycleId, c.predecessorId, c.profile);
        if broken.Some? then Err(broken.value)
        else
          var upper := Amount(c.exposure, at, true);
          if upper.Err? then Err(upper.code)
          else if !c.exposure.Bounded? then Err(InvalidInput)
          else
            var b := Add(a, c.kind, c.lifecycleId, current.key, upper.value);
            if b.Err? then Err(b.code)
            else
              var totals := TotalsFor(b.value, current.key, c.lifecycleId);
              var over := Limits(totals);
              if over.Some? then Err(over.value) else Ok(Proposal(current, upper.value, totals))
  }

  // --- The totals are sums over the history ---------------------------------------------------------

  /** A group of attempts with a ceiling of its own. */
  datatype Group = All | InWeek(key: int) | InLife(id: Id) | InPool(key: int)

  predicate Belongs(g: Group, row: Attempt) {
    match g
    case All => true
    case InWeek(key) => row.week.key == key
    case InLife(id) => !row.kind.Diagnostic? && row.lifecycleId == Some(id)
    case InPool(key) => Pooled(row.kind) && row.week.key == key
  }

  function RowAmount(row: Attempt): int {
    match row.exposure
    case Bounded(upper, _) => upper
    case Settled(_, actual) => actual
    case Doubtful => 0
  }

  function Spend(rows: seq<Attempt>, g: Group): int {
    if rows == [] then 0
    else Spend(rows[..|rows| - 1], g) + if Belongs(g, rows[|rows| - 1]) then RowAmount(rows[|rows| - 1]) else 0
  }

  function Count(rows: seq<Attempt>, g: Group): nat {
    if rows == [] then 0
    else Count(rows[..|rows| - 1], g) + if Belongs(g, rows[|rows| - 1]) then 1 else 0
  }

  /** The last attempt of a lifecycle. */
  function Latest(rows: seq<Attempt>, id: Id): Option<Last> {
    if rows == [] then None
    else
      var row := rows[|rows| - 1];
      if Belongs(InLife(id), row) then Some(Last(row.attemptId, row.kind, row.profile))
          else Latest(rows[..|rows| - 1], id)
  }

  /** Scratch totals agree with the sums over the rows counted so far. */
  ghost predicate Sums(a: Accounting, rows: seq<Attempt>) {
    && a.experiment == Spend(rows, All)
    && (forall k :: WeekTotal(a, k) == Spend(rows, InWeek(k)))
    && (forall id :: LifeTotal(a, Some(id)) == (Spend(rows, InLife(id)), Count(rows, InLife(id))))
    && (forall k :: PoolTotal(a, k) == (Spend(rows, InPool(k)), Count(rows, InPool(k))))
    && (forall id :: if id in a.latest then Latest(rows, id) == Some(a.latest[id]) else Latest(rows, id).None?)
  }

  /** What counting one row does to every total. */
  ghost predicate Counted(a: Accounting, b: Accounting, row: Attempt) {
    && b.experiment == a.experiment + RowAmount(row)
    && (forall k :: WeekTotal(b, k) == WeekTotal(a, k) + if Belongs(InWeek(k), row) then RowAmount(row) else 0)
    && (forall id :: LifeTotal(b, Some(id)) ==
                       if Belongs(InLife(id), row) then
                           (LifeTotal(a, Some(id)).0 + RowAmount(row), LifeTotal(a, Some(id)).1 + 1)
                       else LifeTotal(a, Some(id)))
    && (forall k :: PoolTotal(b, k) ==
                      if Belongs(InPool(k), row) then (PoolTotal(a, k).0 + RowAmount(row), PoolTotal(a, k).1 + 1)
                          else PoolTotal(a, k))
    && (forall id ::
        if Belongs(InLife(id), row) then id in b.latest && b.latest[id] == Last(row.attemptId, row.kind, row.profile)
                     else (id in b.latest <==> id in a.latest) && (id in a.latest ==> b.latest[id] == a.latest[id]))
  }

  /** The accounting after one row has been remembered and added. */
  function Taken(a: Accounting, row: Attempt): Result<Accounting> {
    Add(Remember(a, row.kind, row.lifecycleId, Last(row.attemptId, row.kind, row.profile)), row.kind, row.lifecycleId,
        row.week.key, RowAmount(row))
  }

  lemma TakenAll(a: Accounting, row: Attempt)
    requires Taken(a, row).Ok?
    ensures Taken(a, row).value.experiment == a.experiment + RowAmount(row)
  {
  }

  lemma TakenWeek(a: Accounting, row: Attempt, k: int)
    requires Taken(a, row).Ok?
    ensures WeekTotal(Taken(a, row).value, k) == WeekTotal(a, k) + if Belongs(InWeek(k), row) then RowAmount(row) else 0
    ensures PoolTotal(Taken(a, row).value, k) ==
            if Belongs(InPool(k), row) then (PoolTotal(a, k).0 + RowAmount(row), PoolTotal(a, k).1 + 1)
                else PoolTotal(a, k)
  {
  }

  lemma TakenLife(a: Accounting, row: Attempt, id: Id)
    requires Taken(a, row).Ok? && (row.kind.Diagnostic? || row.lifecycleId.Some?)
    ensures LifeTotal(Taken(a, row).value, Some(id)) ==
            if Belongs(InLife(id), row) then (LifeTotal(a, Some(id)).0 + RowAmount(row), LifeTotal(a, Some(id)).1 + 1)
                else LifeTotal(a, Some(id))
    ensures var b := Taken(a, row).value;
            if Belongs(InLife(id), row) then
              id in b.latest && b.latest[id] == Last(row.attemptId, row.kind, row.profile)
            else (id in b.latest <==> id in a.latest) && (id in a.latest ==> b.latest[id] == a.latest[id])
  {
  }

  lemma AddCounts(a: Accounting, row: Attempt)
    requires (row.kind.Diagnostic? || row.lifecycleId.Some?) && Taken(a, row).Ok?
    ensures Counted(a, Taken(a, row).value, row)
  {
    hide Taken, WeekTotal, LifeTotal, PoolTotal, Belongs, RowAmount;
    var b := Taken(a, row).value;
    TakenAll(a, row);
    forall k
      ensures WeekTotal(b, k) == WeekTotal(a, k) + if Belongs(InWeek(k), row) then RowAmount(row) else 0
      ensures PoolTotal(b, k) == if Belongs(InPool(k), row) then
              (PoolTotal(a, k).0 + RowAmount(row), PoolTotal(a, k).1 + 1) else PoolTotal(a, k)
    {
      TakenWeek(a, row, k);
    }
    forall id
      ensures LifeTotal(b, Some(id)) ==
              if Belongs(InLife(id), row) then (LifeTotal(a, Some(id)).0 + RowAmount(row), LifeTotal(a, Some(id)).1 + 1)
                  else LifeTotal(a, Some(id))
      ensures if Belongs(InLife(id), row) then id in b.latest
                && b.latest[id] == Last(row.attemptId, row.kind, row.profile)
              else (id in b.latest <==> id in a.latest) && (id in a.latest ==> b.latest[id] == a.latest[id])
    {
      TakenLife(a, row, id);
    }
  }

  lemma SameTotals(a: Accounting, a': Accounting)
    requires a' == a.(ids := a'.ids, known := a'.known, previousAt := a'.previousAt)
    ensures forall k :: WeekTotal(a', k) == WeekTotal(a, k)
    ensures forall k :: PoolTotal(a', k) == PoolTotal(a, k)
    ensures forall id :: LifeTotal(a', id) == LifeTotal(a, id)
  {
  }

  lemma CountedUnder(a: Accounting, a': Accounting, b: Accounting, row: Attempt)
    requires Counted(a', b, row) && a' == a.(ids := a'.ids, known := a'.known, previousAt := a'.previousAt)
    ensures Counted(a, b, row)
  {
    hide WeekTotal, LifeTotal, PoolTotal, Belongs, RowAmount;
    SameTotals(a, a');
  }

  lemma RowCounted(a: Accounting, row: Attempt, at: int, profiles: seq<Profile>, lives: map<Id, Lifecycle>)
    requires CountRow(a, row, at, profiles, lives).Ok?
    ensures Counted(a, CountRow(a, row, at, profiles, lives).value, row)
  {
    hide Fits, ClaimIds, Counted, Add, Amount, Lineage, Remember;
    AmountIs(row, at);
    var ids := ClaimIds(a.ids, [row.attemptId, row.reservationId, row.runId, row.leaseId]).value;
    var b := a.(ids := ids, known := a.known[row.week.key := row.week], previousAt := Some(row.reservedAt));
    AddCounts(b, row);
    CountedUnder(a, b, CountRow(a, row, at, profiles, lives).value, row);
  }

  lemma SpendStep(rows: seq<Attempt>, row: Attempt, g: Group)
    ensures Spend(rows + [row], g) == Spend(rows, g) + if Belongs(g, row) then RowAmount(row) else 0
    ensures Count(rows + [row], g) == Count(rows, g) + if Belongs(g, row) then 1 else 0
  {
    assert (rows + [row])[..|rows + [row]| - 1] == rows;
  }

  lemma LatestStep(rows: seq<Attempt>, row: Attempt, id: Id)
    ensures Latest(rows + [row], id) == if Belongs(InLife(id), row) then Some(Last(row.attemptId, row.kind,
        row.profile)) else Latest(rows, id)
  {
    assert (rows + [row])[..|rows + [row]| - 1] == rows;
  }

  lemma SumsStep(a: Accounting, b: Accounting, rows: seq<Attempt>, row: Attempt)
    requires Sums(a, rows) && Counted(a, b, row)
    ensures Sums(b, rows + [row])
  {
    hide Spend, Count, Latest, WeekTotal, LifeTotal, PoolTotal;
    SpendStep(rows, row, All);
    forall k ensures WeekTotal(b, k) == Spend(rows + [row], InWeek(k)) { SpendStep(rows, row, InWeek(k)); }
    forall id ensures LifeTotal(b, Some(id)) ==
        (Spend(rows + [row], InLife(id)), Count(rows + [row], InLife(id))) { SpendStep(rows, row, InLife(id)); }
    forall k ensures PoolTotal(b, k) == (Spend(rows + [row], InPool(k)),
                                         Count(rows + [row], InPool(k))) { SpendStep(rows, row, InPool(k)); }
    forall id ensures if id in b.latest then Latest(rows + [row], id) == Some(b.latest[id])
        else Latest(rows + [row], id).None? {
      LatestStep(rows, row, id);
    }
  }

  lemma AmountIs(row: Attempt, at: int)
    ensures Amount(row.exposure, at, true).Ok? ==> Amount(row.exposure, at, true).value == RowAmount(row)
  {
  }

  lemma {:induction false} CountedSums(a: Accounting, rows: seq<Attempt>, at: int, profiles: seq<Profile>,
                                       lives: map<Id, Lifecycle>)
    requires Sums(a, []) && CountRows(a, rows, at, profiles, lives).Ok?
    ensures Sums(CountRows(a, rows, at, profiles, lives).value, rows)
  {
    hide CountRow, Sums, Counted;
    if rows != [] {
      var n := |rows| - 1;
      CountedSums(a, rows[..n], at, profiles, lives);
      var before := CountRows(a, rows[..n], at, profiles, lives).value;
      RowCounted(before, rows[n], at, profiles, lives);
      SumsStep(before, CountRow(before, rows[n], at, profiles, lives).value, rows[..n], rows[n]);
      assert rows[..n] + [rows[n]] == rows;
    }
  }

  /** Costs only add to the experiment total. */
  ghost predicate CostsOver(a: Accounting, b: Accounting) {
    b == a.(ids := b.ids, experiment := b.experiment) && a.experiment <= b.experiment
  }

  function CostTotal(costs: seq<Cost>): int {
    if costs == [] then 0
    else
      CostTotal(costs[..|costs| - 1]) + match costs[|costs| - 1].exposure
        case Bounded(upper, _) => upper
        case Settled(_, actual) => actual
        case Doubtful => 0
  }

  lemma {:induction false} CostsAdd(a: Accounting, costs: seq<Cost>, at: int)
    requires CountCosts(a, costs, at).Ok?
    ensures CostsOver(a, CountCosts(a, costs, at).value) && CountCosts(a, costs, at).value.experiment == a.experiment
        + CostTotal(costs)
  {
    if costs != [] { CostsAdd(a, costs[..|costs| - 1], at); }
  }

  /** The group totals a candidate would bring about, were it recorded as `row`. */
  ghost predicate Within(rows: seq<Attempt>, row: Attempt, spent: int) {
    && Spend(rows, All) <= spent && spent + RowAmount(row) <= EXPERIMENT
    && (forall id | Belongs(InLife(id), row) ::
          Spend(rows, InLife(id)) + RowAmount(row) <= LIFECYCLE && Count(rows, InLife(id)) + 1 <= ATTEMPTS)
    && (forall k | Belongs(InPool(k), row) ::
          Spend(rows, InPool(k)) + RowAmount(row) <= DIAGNOSTIC && Count(rows, InPool(k)) + 1 <= ATTEMPTS)
  }

  /** An attempt continues its lifecycle: the first is initial, a retry names the latest attempt
      with the same profile, and only a retry follows a retry. */
  ghost predicate Continues(rows: seq<Attempt>, row: Attempt) {
    forall id | Belongs(InLife(id), row) ::
      var last := Latest(rows, id);
      if row.kind.Retry? then last.Some? && row.predecessorId == Some(last.value.attemptId)
          && row.profile == last.value.profile
      else row.predecessorId.None? && (last.Some? ==> !last.value.kind.Retry?)
  }

  /** The attempt an accepted candidate becomes. */
  function AsAttempt(c: Candidate, week: Week, at: int): Attempt {
    Attempt(c.attemptId, c.reservationId, c.runId, c.leaseId, at, week, c.profile, c.kind, c.lifecycleId,
            c.predecessorId,
            c.effectsReconciled, c.exposure)
  }

  lemma ProposedWithin(a: Accounting, b: Accounting, rows: seq<Attempt>, lives: map<Id, Lifecycle>,
                       profiles: seq<Profile>, c: Candidate, current: Week, at: int)
    requires Sums(a, rows) && CostsOver(a, b) && Propose(b, lives, profiles, c, current, at).Ok?
    ensures var row := AsAttempt(c, current, at);
            && Within(rows, row, b.experiment) && Continues(rows, row)
            && RowAmount(row) >= MIN_RESERVATION && c.exposure.Bounded?
                && Propose(b, lives, profiles, c, current, at).value.liability == RowAmount(row)
            && Propose(b, lives, profiles, c, current, at).value.week == current
  {
    hide Spend, Count, Latest, ClaimIds;
    assert forall k :: PoolTotal(b, k) == PoolTotal(a, k);
    assert forall id :: LifeTotal(b, Some(id)) == LifeTotal(a, Some(id));
  }

  lemma NothingYet(a: Accounting)
    requires a.experiment == 0 && a.weeks == map[] && a.lives == map[] && a.pools == map[] && a.latest == map[]
    ensures Sums(a, [])
  {
  }

  /** An accepted reservation keeps every ceiling and continues its lifecycle. */
  lemma Accepted(weekFor: int -> Option<Week>, s: Snapshot, c: Candidate, at: int)
    requires Evaluate(weekFor, s, c, at).Ok?
    ensures weekFor(at).Some? && s.holds == 0 && s.population.Complete?
    ensures var row := AsAttempt(c, weekFor(at).value, at);
            && Within(s.attempts, row, Spend(s.attempts, All) + CostTotal(s.costs)) && Continues(s.attempts, row)
            && RowAmount(row) >= MIN_RESERVATION && c.exposure.Bounded?
            && Evaluate(weekFor, s, c, at).value.liability == RowAmount(row)
                && Evaluate(weekFor, s, c, at).value.week == weekFor(at).value
  {
    hide Configure, CountRows, CountCosts, HistoryWithin, ProfileIds, Distinct, Propose, Sums, Within, Continues,
        RowAmount, Spend, CostTotal;
    var current := weekFor(at).value;
    var (lives, known) := Configure(s.lifecycles, s.profiles, current).value;
    var start := Accounting(0, map[], map[], map[], {s.experimentId} + lives.Keys + ProfileIds(s.profiles), map[],
                            known, None);
    NothingYet(start);
    CountedSums(start, s.attempts, at, s.profiles, lives);
    var rows := CountRows(start, s.attempts, at, s.profiles, lives).value;
    CostsAdd(rows, s.costs, at);
    var all := CountCosts(rows, s.costs, at).value;
    ProposedWithin(rows, all, s.attempts, lives, s.profiles, c, current, at);
    SumsAll(rows, s.attempts);
    assert Within(s.attempts, AsAttempt(c, current, at), all.experiment);
  }

  lemma SumsAll(a: Accounting, rows: seq<Attempt>)
    requires Sums(a, rows)
    ensures a.experiment == Spend(rows, All)
  {
  }
}
