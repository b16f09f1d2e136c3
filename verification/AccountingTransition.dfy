/** The accounting ledger's events, their transition and their replay. */
module AccountingTransition {
  import opened Text
  import P = AccountingPolicy

  type Id = nat

  const MAX_EVENTS: nat := 8192

  datatype Actor = Receiver | Fixture

  datatype Origin = Origin(journal: Id, generation: nat)

  datatype Reservation = Reservation(
    origin: Origin, admissionId: Id, intentId: Id, intentDigest: nat, attemptId: Id, reservationId: Id, runId: Id,
        leaseId: Id,
    kind: P.Kind, lifecycleId: Option<Id>, predecessorId: Option<Id>, effectsReconciled: bool, profile: P.Profile,
        week: P.Week,
    reserved: int, liability: int, validUntil: int)

  datatype Body =
    | Genesis(population: P.Population)
    | JournalBound(origin: Origin)
    | ProfileConfigured(profile: P.Profile)
    | LifecycleRegistered(life: P.Lifecycle, origin: Origin)
    | NonModelCommitted(costId: Id, upper: int, validUntil: int)
    | ReservationCreated(r: Reservation)
    | HoldRecorded(holdId: Id, code: nat)

  /** A digest names exactly one event; events therefore carry their whole past. */
  datatype Digest = Zero | Of(event: Event)

  datatype Owner = Owner(ledger: Id, generation: nat, experiment: Id)

  datatype Event = Event(eventId: Id, owner: Owner, sequence: nat, previous: Digest, at: int, actor: Actor, body: Body)

  datatype LifecycleOrigin = LifecycleOrigin(lifecycle: P.Lifecycle, origin: Origin)

  datatype AttemptOrigin = AttemptOrigin(attempt: P.Attempt, origin: Origin, admissionId: Id, intentId: Id,
                                         intentDigest: nat)

  datatype Projection = Projection(
    owner: Owner, population: P.Population, events: seq<Event>, claimed: set<Id>, eventIds: set<Id>, lastAt: int,
    bindings: seq<Origin>, profiles: seq<P.Profile>, lifecycles: seq<LifecycleOrigin>, costs: seq<P.Cost>,
    attempts: seq<AttemptOrigin>, holds: seq<(Id, nat)>)

  datatype Code =
    | EventInvalid | StaleHead | HistoryUnavailable | IdentityConflict | EventConflict | HistoryLimit | ChainConflict
    | TimeConflict | OriginConflict | ConfigurationConflict | ExposureStale | InvalidWeek | InvalidTime
    | Refused(code: P.Code) | ReservationConflict | ProjectionConflict

  datatype Result<+T> = Ok(value: T) | Err(code: Code)

  // --- Events ----------------------------------------------------------------------------------

  /** The value bounds the event grammar checks; the rest of it is in the types. */
  predicate WellFormed(e: Event) {
    && e.sequence >= 1
    && match e.body
       case Genesis(population) => e.sequence == 1 && e.previous == Zero
           && (e.actor.Receiver? <==> population.UnknownPopulation?)
       case NonModelCommitted(_, upper, _) => 0 <= upper < P.MAX_MONEY
       case ReservationCreated(r) => r.reserved == P.MIN_RESERVATION && P.MIN_RESERVATION <= r.liability < P.MAX_MONEY
       case _ => true
  }

  function ProfileIds(p: P.Profile): seq<Id> { [p.model, p.auth, p.venue] }

  function Given(id: Option<Id>): seq<Id> { if id.Some? then [id.value] else [] }

  /** Every id a body mentions. */
  function BodyIds(b: Body): seq<Id> {
    match b
    case Genesis(_) => []
    case JournalBound(o) => [o.journal]
    case ProfileConfigured(p) => ProfileIds(p)
    case LifecycleRegistered(life, o) => [life.lifecycleId, o.journal] + ProfileIds(life.profile)
    case NonModelCommitted(id, _, _) => [id]
    case ReservationCreated(r) =>
      [r.origin.journal, r.admissionId, r.intentId, r.attemptId, r.reservationId, r.runId, r.leaseId]
      + ProfileIds(r.profile) + Given(r.lifecycleId) + Given(r.predecessorId)
    case HoldRecorded(id, _) => [id]
  }

  /** The ids an event claims for itself. */
  function Claims(e: Event): seq<Id> {
    if e.body.Genesis? then [e.owner.ledger, e.owner.experiment, e.eventId] else [e.eventId] + BodyIds(e.body)
  }

  function Elements(ids: seq<Id>): set<Id> { set id | id in ids }

  predicate Unique(ids: seq<Id>) { forall i, j | 0 <= i < j < |ids| :: ids[i] != ids[j] }

  /** Ids all different and none claimed before. */
  predicate Unclaimed(ids: seq<Id>, p: Projection) { Unique(ids) && forall id | id in ids :: id !in p.claimed }

  function Head(p: Projection): Digest { if p.events == [] then Zero else Of(p.events[|p.events| - 1]) }

  // --- Transitions by kind ---------------------------------------------------------------------------

  function Active(p: Projection): Option<Origin> {
    if p.bindings == [] then None else Some(p.bindings[|p.bindings| - 1])
  }

  function Bind(p: Projection, o: Origin): Result<Projection> {
    if o in p.bindings then Err(OriginConflict)
    else if exists b | b in p.bindings :: b.journal == o.journal && b.generation >= o.generation
        then Err(OriginConflict)
    else if o.journal in p.claimed && !(exists b | b in p.bindings :: b.journal == o.journal) then Err(IdentityConflict)
    else Ok(p.(bindings := p.bindings + [o]))
  }

  predicate RoleFree(p: Projection, id: Id, role: P.Profile -> Id) {
    id !in p.claimed || exists q | q in p.profiles :: role(q) == id
  }

  function ConfigureProfile(p: Projection, profile: P.Profile): Result<Projection> {
    if profile in p.profiles then Err(ConfigurationConflict)
    else if |p.profiles| >= 16 then Err(HistoryLimit)
    else if !Unique(ProfileIds(profile)) then Err(IdentityConflict)
    else if !(RoleFree(p, profile.model, (q: P.Profile) => q.model)
              && RoleFree(p, profile.auth, (q: P.Profile) => q.auth)
              && RoleFree(p, profile.venue, (q: P.Profile) => q.venue)) then Err(IdentityConflict)
    else Ok(p.(profiles := p.profiles + [profile]))
  }

  function RegisterLife(p: Projection, life: P.Lifecycle, o: Origin): Result<Projection> {
    if |p.lifecycles| >= 512 then Err(HistoryLimit)
    else if Some(o) != Active(p) then Err(OriginConflict)
    else if !Unclaimed([life.lifecycleId], p) then Err(IdentityConflict)
    else if life.profile !in p.profiles then Err(ConfigurationConflict)
    else if exists l | l in p.lifecycles ::
      l.lifecycle.week.key == life.week.key && l.lifecycle.slot == life.slot then Err(ConfigurationConflict)
    else Ok(p.(lifecycles := p.lifecycles + [LifecycleOrigin(life, o)]))
  }

  function CommitCost(p: Projection, id: Id, upper: int, until: int, at: int): Result<Projection> {
    if !Unclaimed([id], p) then Err(IdentityConflict)
    else if until <= at then Err(ExposureStale)
    else if |p.costs| >= 512 then Err(HistoryLimit)
    else Ok(p.(costs := p.costs + [P.Cost(id, P.Bounded(upper, until))]))
  }

  function Lifecycles(ls: seq<LifecycleOrigin>): seq<P.Lifecycle> {
    seq(|ls|, i requires 0 <= i < |ls| => ls[i].lifecycle)
  }

  function Attempts(xs: seq<AttemptOrigin>): seq<P.Attempt> {
    seq(|xs|, i requires 0 <= i < |xs| => xs[i].attempt)
  }

  function SnapshotOf(p: Projection, generation: nat, at: int): P.Snapshot {
    P.Snapshot(p.owner.experiment, generation, at, p.population, p.profiles, Lifecycles(p.lifecycles),
               Attempts(p.attempts), p.costs, |p.holds|)
  }

  function CandidateOf(p: Projection, r: Reservation): P.Candidate {
    P.Candidate(p.owner.experiment, r.origin.generation, r.attemptId, r.reservationId, r.runId, r.leaseId, r.profile,
                r.kind,
                r.lifecycleId, r.predecessorId, r.effectsReconciled, P.Bounded(r.liability, r.validUntil))
  }

  /** Identity and origin checks of a reservation, before the policy is asked. */
  function ReserveChecks(p: Projection, r: Reservation): Option<Code> {
    var ids := [r.intentId, r.attemptId, r.reservationId, r.runId, r.leaseId];
    if Some(r.origin) != Active(p) then Some(OriginConflict)
    else if r.lifecycleId.Some? && !(exists l | l in p.lifecycles ::
          l.lifecycle.lifecycleId == r.lifecycleId.value && l.origin == r.origin)
    then Some(OriginConflict)
    else if !Unclaimed(ids, p) then Some(IdentityConflict)
    else if (r.admissionId in p.claimed && !(exists x | x in p.attempts :: x.admissionId == r.admissionId))
        || r.admissionId in ids
    then Some(IdentityConflict)
    else if exists x | x in p.attempts ::
      x.admissionId == r.admissionId && x.origin != r.origin then Some(OriginConflict)
    else if |p.attempts| >= 512 then Some(HistoryLimit)
    else if exists x | x in p.attempts ::
      x.admissionId == r.admissionId && x.intentId == r.intentId then Some(IdentityConflict)
    else None
  }

  function Reserve(weekFor: int -> Option<P.Week>, p: Projection, r: Reservation, at: int): Result<Projection> {
    var bad := ReserveChecks(p, r);
    if bad.Some? then Err(bad.value)
    else if weekFor(at).None? then Err(InvalidTime)
    else if r.week != weekFor(at).value then Err(InvalidWeek)
    else
      var answer := P.Evaluate(weekFor, SnapshotOf(p, r.origin.generation, at), CandidateOf(p, r), at);
      if answer.Err? then Err(Refused(answer.code))
      else if answer.value.week != r.week || r.reserved != P.MIN_RESERVATION
          || answer.value.liability != r.liability then Err(ReservationConflict)
      else Ok(p.(attempts := p.attempts + [AttemptOrigin(P.AsAttempt(CandidateOf(p, r), r.week, at),
          r.origin, r.admissionId, r.intentId, r.intentDigest)]))
  }

  function RecordHold(p: Projection, id: Id, code: nat): Result<Projection> {
    if !Unclaimed([id], p) then Err(IdentityConflict)
    else if |p.holds| >= 32 then Err(HistoryLimit)
    else Ok(p.(holds := p.holds + [(id, code)]))
  }

  function Change(weekFor: int -> Option<P.Week>, p: Projection, b: Body, at: int): Result<Projection> {
    match b
    case Genesis(_) => Err(ChainConflict)
    case JournalBound(o) => Bind(p, o)
    case ProfileConfigured(profile) => ConfigureProfile(p, profile)
    case LifecycleRegistered(life, o) => RegisterLife(p, life, o)
    case NonModelCommitted(id, upper, until) => CommitCost(p, id, upper, until, at)
    case ReservationCreated(r) => Reserve(weekFor, p, r, at)
    case HoldRecorded(id, code) => RecordHold(p, id, code)
  }

  // --- The transition --------------------------------------------------------------------------------

  function Begin(e: Event): Result<Projection> {
    if !WellFormed(e) then Err(EventInvalid)
    else if !e.body.Genesis? || e.sequence != 1 || e.previous != Zero then Err(HistoryUnavailable)
    else if !Unique([e.owner.ledger, e.owner.experiment, e.eventId]) then Err(IdentityConflict)
    else Ok(Projection(e.owner, e.body.population, [e], {e.owner.ledger, e.owner.experiment, e.eventId}, {e.eventId},
                       e.at, [], [], [], [], [], []))
  }

  /** An event seen before is accepted again only as it was. */
  function Apply(weekFor: int -> Option<P.Week>, p: Projection, e: Event): Result<Projection> {
    if !WellFormed(e) then Err(EventInvalid)
    else if e.owner != p.owner then Err(IdentityConflict)
    else if e.eventId in p.eventIds then if e in p.events then Ok(p) else Err(EventConflict)
    else if |p.events| >= MAX_EVENTS then Err(HistoryLimit)
    else if e.eventId in p.claimed then Err(IdentityConflict)
    else if e.sequence != |p.events| + 1 || e.previous != Head(p) then Err(ChainConflict)
    else if e.at < p.lastAt then Err(TimeConflict)
    else if e.body.Genesis? then Err(ChainConflict)
    else if e.eventId in BodyIds(e.body) then Err(IdentityConflict)
    else
      var q := Change(weekFor, p, e.body, e.at);
      if q.Err? then q
      else Ok(q.value.(events := p.events + [e], lastAt := e.at, claimed := p.claimed + Elements(Claims(e)),
                       eventIds := p.eventIds + {e.eventId}))
  }

  /** The fold of a complete stream. */
  function Fold(weekFor: int -> Option<P.Week>, events: seq<Event>): Result<Projection>
    requires events != []
  {
    if |events| == 1 then Begin(events[0])
    else
      var before := Fold(weekFor, events[..|events| - 1]);
      if before.Err? then before
      else
        var after := Apply(weekFor, before.value, events[|events| - 1]);
        if after.Ok? && |after.value.events| != |events| then Err(ChainConflict) else after
  }

  function Replay(weekFor: int -> Option<P.Week>, events: seq<Event>): Result<Projection> {
    if events == [] then Err(HistoryUnavailable) else if |events| > MAX_EVENTS then Err(HistoryLimit)
        else Fold(weekFor, events)
  }

  method ReplayAll(weekFor: int -> Option<P.Week>, events: seq<Event>) returns (r: Result<Projection>)
    ensures r == Replay(weekFor, events)
  {
    hide Apply, Begin;
    if events == [] { return Err(HistoryUnavailable); }
    if |events| > MAX_EVENTS { return Err(HistoryLimit); }
    r := Begin(events[0]);
    assert events[..1] == [events[0]];
    for i := 1 to |events|
      invariant r == Fold(weekFor, events[..i])
    {
      assert events[..i + 1][..i] == events[..i];
      if r.Err? {
        FoldFails(weekFor, events, i);
        return;
      }
      r := Apply(weekFor, r.value, events[i]);
      if r.Ok? && |r.value.events| != i + 1 { r := Err(ChainConflict); }
    }
    assert events[..|events|] == events;
  }

  lemma {:induction false} FoldFails(weekFor: int -> Option<P.Week>, events: seq<Event>, i: nat)
    requires 1 <= i <= |events| && Fold(weekFor, events[..i]).Err?
    ensures Fold(weekFor, events) == Fold(weekFor, events[..i])
    decreases |events|
  {
    hide Apply, Begin;
    if i == |events| {
      assert events[..i] == events;
    } else {
      assert events[..|events| - 1][..i] == events[..i];
      FoldFails(weekFor, events[..|events| - 1], i);
    }
  }

  // --- Replay is faithful -------------------------------------------------------------------------------

  /** A prefix of a replayable history is replayable. */
  lemma {:induction false} PrefixReplays(weekFor: int -> Option<P.Week>, events: seq<Event>, i: nat)
    requires 1 <= i <= |events| && Fold(weekFor, events).Ok?
    ensures Fold(weekFor, events[..i]).Ok?
    decreases |events|
  {
    hide Apply, Begin;
    if i == |events| {
      assert events[..i] == events;
    } else {
      assert events[..|events| - 1][..i] == events[..i];
      PrefixReplays(weekFor, events[..|events| - 1], i);
    }
  }

  /** Numbered from one, each naming the one before it. */
  ghost predicate Chained(events: seq<Event>) {
    forall i: nat | i < |events| :: Link(events, i)
  }

  ghost predicate Link(events: seq<Event>, i: nat)
    requires i < |events|
  {
    events[i].sequence == i + 1 && events[i].previous == if i == 0 then Zero else Of(events[i - 1])
  }

  ghost predicate OwnedBy(events: seq<Event>, owner: Owner) {
    forall i | 0 <= i < |events| :: events[i].owner == owner && WellFormed(events[i])
  }

  /** Replay keeps the very events it was given, numbered, chained and of one owner. */
  lemma {:induction false} ReplayKeeps(weekFor: int -> Option<P.Week>, events: seq<Event>)
    requires events != [] && Fold(weekFor, events).Ok?
    ensures var p := Fold(weekFor, events).value;
            p.events == events && OwnedBy(events, p.owner) && Chained(events)
  {
    hide Apply, Begin, WellFormed;
    var n := |events| - 1;
    if n == 0 {
      BeginKeeps(events[0]);
      assert events == [events[0]];
    } else {
      var before := events[..n];
      ReplayKeeps(weekFor, before);
      var p := Fold(weekFor, before).value;
      ApplyKeeps(weekFor, p, events[n]);
      assert before + [events[n]] == events;
      Lengthen(before, events[n], p.owner);
    }
  }

  lemma BeginKeeps(e: Event)
    requires Begin(e).Ok?
    ensures Begin(e).value.events == [e] && Begin(e).value.owner == e.owner && WellFormed(e) && e.sequence == 1
        && e.previous == Zero
  {
  }

  lemma Lengthen(events: seq<Event>, e: Event, owner: Owner)
    requires events != [] && Chained(events) && OwnedBy(events, owner) && WellFormed(e)
    requires e.owner == owner && e.sequence == |events| + 1 && e.previous == Of(events[|events| - 1])
    ensures Chained(events + [e]) && OwnedBy(events + [e], owner)
  {
    hide WellFormed;
    var longer := events + [e];
    forall i: nat | i < |longer| ensures Link(longer, i) {
      assert i > 0 ==> longer[i - 1] == events[i - 1];
      if i < |events| { assert Link(events, i); }
    }
  }

  lemma ApplyKeeps(weekFor: int -> Option<P.Week>, p: Projection, e: Event)
    requires Apply(weekFor, p, e).Ok?
    ensures var q := Apply(weekFor, p, e).value;
            && q.owner == p.owner && e.owner == p.owner && WellFormed(e) && q.population == p.population
            && (q == p || (q.events == p.events + [e] && e.sequence == |p.events| + 1 && e.previous == Head(p)))
  {
    hide P.Evaluate, Unclaimed, RoleFree, ReserveChecks, BodyIds;
  }

  /** Appending to a replayed history and replaying the longer one agree. */
  lemma LiveEqualsReplay(weekFor: int -> Option<P.Week>, events: seq<Event>, e: Event)
    requires events != [] && Fold(weekFor, events).Ok?
    ensures var p := Fold(weekFor, events).value;
            var live := Apply(weekFor, p, e);
            if live.Ok? && live.value != p then Fold(weekFor, events + [e]) == live
                else Fold(weekFor, events + [e]).Err?
  {
    hide Apply, Begin;
    ReplayKeeps(weekFor, events);
    assert (events + [e])[..|events + [e]| - 1] == events;
    var p := Fold(weekFor, events).value;
    if Apply(weekFor, p, e).Ok? { ApplyKeeps(weekFor, p, e); }
  }
}
