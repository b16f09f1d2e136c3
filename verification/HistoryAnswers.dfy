/** The ledger read off its events: what a history projects to, and exactly when it replays. */
module HistoryAnswers {
  import opened Text
  import P = AccountingPolicy
  import A = PolicyAnswers
  import opened AccountingTransition

  // --- What the events say -------------------------------------------------------------------------

  function Bindings(events: seq<Event>): seq<Origin> {
    if events == [] then []
    else
      var e := events[|events| - 1];
      Bindings(events[..|events| - 1]) + if e.body.JournalBound? then [e.body.origin] else []
  }

  function Profiles(events: seq<Event>): seq<P.Profile> {
    if events == [] then []
    else
      var e := events[|events| - 1];
      Profiles(events[..|events| - 1]) + if e.body.ProfileConfigured? then [e.body.profile] else []
  }

  function Lives(events: seq<Event>): seq<LifecycleOrigin> {
    if events == [] then []
    else
      var e := events[|events| - 1];
      Lives(events[..|events| - 1])
      + if e.body.LifecycleRegistered? then [LifecycleOrigin(e.body.life, e.body.origin)] else []
  }

  function Costs(events: seq<Event>): seq<P.Cost> {
    if events == [] then []
    else
      var e := events[|events| - 1];
      Costs(events[..|events| - 1])
      + if e.body.NonModelCommitted? then [P.Cost(e.body.costId, P.Bounded(e.body.upper, e.body.validUntil))] else []
  }

  /** The attempt a reservation stands for. */
  function RowOf(r: Reservation, at: int): AttemptOrigin {
    AttemptOrigin(
      P.Attempt(r.attemptId, r.reservationId, r.runId, r.leaseId, at, r.week, r.profile, r.kind, r.lifecycleId,
                r.predecessorId, r.effectsReconciled, P.Bounded(r.liability, r.validUntil)),
      r.origin, r.admissionId, r.intentId, r.intentDigest)
  }

  function Rows(events: seq<Event>): seq<AttemptOrigin> {
    if events == [] then []
    else
      var e := events[|events| - 1];
      Rows(events[..|events| - 1]) + if e.body.ReservationCreated? then [RowOf(e.body.r, e.at)] else []
  }

  function Holds(events: seq<Event>): seq<(Id, nat)> {
    if events == [] then []
    else
      var e := events[|events| - 1];
      Holds(events[..|events| - 1]) + if e.body.HoldRecorded? then [(e.body.holdId, e.body.code)] else []
  }

  function Claimed(events: seq<Event>): set<Id> {
    if events == [] then {} else Claimed(events[..|events| - 1]) + Elements(Claims(events[|events| - 1]))
  }

  function EventIds(events: seq<Event>): set<Id> {
    if events == [] then {} else EventIds(events[..|events| - 1]) + {events[|events| - 1].eventId}
  }

  /** Everything the events say, kind by kind. */
  function Book(events: seq<Event>): Projection
    requires events != [] && events[0].body.Genesis?
  {
    Projection(events[0].owner, events[0].body.population, events, Claimed(events), EventIds(events),
               events[|events| - 1].at, Bindings(events), Profiles(events), Lives(events), Costs(events), Rows(events),
               Holds(events))
  }

  /** One more event in the book. */
  function Entered(p: Projection, e: Event): Projection {
    Projection(p.owner, p.population, p.events + [e], p.claimed + Elements(Claims(e)), p.eventIds + {e.eventId}, e.at,
               p.bindings + (if e.body.JournalBound? then [e.body.origin] else []),
               p.profiles + (if e.body.ProfileConfigured? then [e.body.profile] else []),
               p.lifecycles
               + (if e.body.LifecycleRegistered? then [LifecycleOrigin(e.body.life, e.body.origin)] else []),
               p.costs + (if e.body.NonModelCommitted?
                          then [P.Cost(e.body.costId, P.Bounded(e.body.upper, e.body.validUntil))] else []),
               p.attempts + (if e.body.ReservationCreated? then [RowOf(e.body.r, e.at)] else []),
               p.holds + (if e.body.HoldRecorded? then [(e.body.holdId, e.body.code)] else []))
  }

  lemma BookStep(events: seq<Event>, e: Event)
    requires events != [] && events[0].body.Genesis?
    ensures Book(events + [e]) == Entered(Book(events), e)
  {
    assert (events + [e])[..|events + [e]| - 1] == events;
  }

  // --- When an event follows -------------------------------------------------------------------------

  /** A genesis opens a history: its three ids differ, and only the receiver leaves the population unknown. */
  predicate Opens(e: Event) {
    && e.body.Genesis? && e.sequence == 1 && e.previous == Zero
    && (e.actor.Receiver? <==> e.body.population.UnknownPopulation?)
    && e.owner.ledger != e.owner.experiment && e.owner.ledger != e.eventId && e.owner.experiment != e.eventId
  }

  /** An id is new, or used before only in the same role. */
  predicate InRole(p: Projection, id: Id, role: P.Profile -> Id) {
    id in p.claimed ==> exists q | q in p.profiles :: role(q) == id
  }

  predicate ProfileFits(p: Projection, profile: P.Profile) {
    && profile !in p.profiles && |p.profiles| <= 15
    && profile.model != profile.auth && profile.model != profile.venue && profile.auth != profile.venue
    && InRole(p, profile.model, (q: P.Profile) => q.model) && InRole(p, profile.auth, (q: P.Profile) => q.auth)
    && InRole(p, profile.venue, (q: P.Profile) => q.venue)
  }

  predicate Current(p: Projection, o: Origin) { p.bindings != [] && o == p.bindings[|p.bindings| - 1] }

  predicate LifeFits(p: Projection, life: P.Lifecycle, o: Origin) {
    && |p.lifecycles| <= 511 && Current(p, o) && life.lifecycleId !in p.claimed && life.profile in p.profiles
    && (forall l | l in p.lifecycles :: l.lifecycle.week.key != life.week.key || l.lifecycle.slot != life.slot)
  }

  predicate Binds(p: Projection, o: Origin) {
    && (forall b | b in p.bindings && b.journal == o.journal :: b.generation < o.generation)
    && (o.journal in p.claimed ==> exists b | b in p.bindings :: b.journal == o.journal)
  }

  /** Who reserves: the current origin, for a lifecycle of its own, with ids nobody has used; an admission may
      come back, but only from the same origin and with another intent. */
  predicate Identified(p: Projection, r: Reservation) {
    var ids := [r.intentId, r.attemptId, r.reservationId, r.runId, r.leaseId];
    && Current(p, r.origin)
    && (r.lifecycleId.Some? ==>
          exists l | l in p.lifecycles :: l.lifecycle.lifecycleId == r.lifecycleId.value && l.origin == r.origin)
    && A.NewIds(ids, p.claimed) && r.admissionId !in ids
    && (r.admissionId in p.claimed ==> exists x | x in p.attempts :: x.admissionId == r.admissionId)
    && (forall x | x in p.attempts && x.admissionId == r.admissionId ::
          x.origin == r.origin && x.intentId != r.intentId)
    && |p.attempts| <= 511
  }

  /** What is reserved: the fixed amount, in the week of the instant, on terms the policy accepts. */
  ghost predicate Reservable(weekFor: int -> Option<P.Week>, p: Projection, r: Reservation, at: int) {
    && Identified(p, r) && weekFor(at) == Some(r.week) && r.reserved == 3_000_000
    && A.Acceptable(weekFor, SnapshotOf(p, r.origin.generation, at), CandidateOf(p, r), at)
  }

  ghost predicate BodyFits(weekFor: int -> Option<P.Week>, p: Projection, b: Body, at: int) {
    match b
    case Genesis(_) => false
    case JournalBound(o) => Binds(p, o)
    case ProfileConfigured(profile) => ProfileFits(p, profile)
    case LifecycleRegistered(life, o) => LifeFits(p, life, o)
    case NonModelCommitted(id, upper, until) =>
      id !in p.claimed && 0 <= upper < 0x8000_0000_0000_0000 && at < until && |p.costs| <= 511
    case ReservationCreated(r) => Reservable(weekFor, p, r, at)
    case HoldRecorded(id, _) => id !in p.claimed && |p.holds| <= 31
  }

  /** An event follows a history: next in its chain, not before it in time, under a new id, and fitting. */
  ghost predicate Follows(weekFor: int -> Option<P.Week>, p: Projection, e: Event) {
    && p.events != [] && e.owner == p.owner && e.sequence == |p.events| + 1
    && e.previous == Of(p.events[|p.events| - 1]) && e.at >= p.lastAt
    && e.eventId !in p.claimed && e.eventId !in BodyIds(e.body) && BodyFits(weekFor, p, e.body, e.at)
  }

  // --- Kinds ----------------------------------------------------------------------------------------------

  lemma BindExactly(p: Projection, o: Origin)
    ensures Bind(p, o).Ok? <==> Binds(p, o)
    ensures Bind(p, o).Ok? ==> Bind(p, o).value == p.(bindings := p.bindings + [o])
  {
  }

  lemma ProfileExactly(p: Projection, profile: P.Profile)
    ensures ConfigureProfile(p, profile).Ok? <==> ProfileFits(p, profile)
    ensures ConfigureProfile(p, profile).Ok? ==>
              ConfigureProfile(p, profile).value == p.(profiles := p.profiles + [profile])
  {
    hide InRole;
    ThreeUnique(profile);
    RoleExactly(p, profile.model, (q: P.Profile) => q.model);
    RoleExactly(p, profile.auth, (q: P.Profile) => q.auth);
    RoleExactly(p, profile.venue, (q: P.Profile) => q.venue);
  }

  lemma ThreeUnique(p: P.Profile)
    ensures Unique(ProfileIds(p)) <==> p.model != p.auth && p.model != p.venue && p.auth != p.venue
  {
    assert ProfileIds(p)[0] == p.model && ProfileIds(p)[1] == p.auth && ProfileIds(p)[2] == p.venue;
  }

  lemma RoleExactly(p: Projection, id: Id, role: P.Profile -> Id)
    ensures RoleFree(p, id, role) <==> InRole(p, id, role)
  {
  }

  lemma LifeExactly(p: Projection, life: P.Lifecycle, o: Origin)
    ensures RegisterLife(p, life, o).Ok? <==> LifeFits(p, life, o)
    ensures RegisterLife(p, life, o).Ok? ==>
              RegisterLife(p, life, o).value == p.(lifecycles := p.lifecycles + [LifecycleOrigin(life, o)])
  {
    OneUnclaimed(p, life.lifecycleId);
  }

  lemma OneUnclaimed(p: Projection, id: Id)
    ensures Unclaimed([id], p) <==> id !in p.claimed
  {
    assert id in [id];
  }

  lemma UnclaimedExactly(p: Projection, ids: seq<Id>)
    ensures Unclaimed(ids, p) <==> A.NewIds(ids, p.claimed)
  {
    if A.NewIds(ids, p.claimed) {
      forall id | id in ids ensures id !in p.claimed {
        var i :| 0 <= i < |ids| && ids[i] == id;
      }
    }
  }

  lemma ReserveExactly(weekFor: int -> Option<P.Week>, p: Projection, r: Reservation, at: int)
    ensures Reserve(weekFor, p, r, at).Ok? <==> Reservable(weekFor, p, r, at)
    ensures Reserve(weekFor, p, r, at).Ok? ==>
              Reserve(weekFor, p, r, at).value == p.(attempts := p.attempts + [RowOf(r, at)])
  {
    hide P.Evaluate, A.Acceptable, ReserveChecks, Identified, P.Spend, A.TotalsOf, P.CostTotal, SnapshotOf;
    IdentifiedExactly(p, r);
    A.EvaluateExactly(weekFor, SnapshotOf(p, r.origin.generation, at), CandidateOf(p, r), at);
  }

  lemma IdentifiedExactly(p: Projection, r: Reservation)
    ensures ReserveChecks(p, r).None? <==> Identified(p, r)
  {
    hide A.NewIds, Unclaimed;
    UnclaimedExactly(p, [r.intentId, r.attemptId, r.reservationId, r.runId, r.leaseId]);
  }

  /** Each kind of event is accepted exactly when it fits, and adds exactly its own row. */
  lemma ChangeExactly(weekFor: int -> Option<P.Week>, p: Projection, e: Event)
    requires !e.body.Genesis?
    ensures var r := Change(weekFor, p, e.body, e.at);
            && (r.Ok? && WellFormed(e) <==> BodyFits(weekFor, p, e.body, e.at) && e.sequence >= 1)
            && (r.Ok? ==>
                  r.value.(events := p.events + [e], lastAt := e.at, claimed := p.claimed + Elements(Claims(e)),
                           eventIds := p.eventIds + {e.eventId}) == Entered(p, e))
  {
    hide Bind, ConfigureProfile, RegisterLife, Reserve, Binds, ProfileFits, LifeFits, Claims, RowOf;
    match e.body
    case JournalBound(o) => BindExactly(p, o);
    case ProfileConfigured(profile) => ProfileExactly(p, profile);
    case LifecycleRegistered(life, o) => LifeExactly(p, life, o);
    case NonModelCommitted(id, _, _) => OneUnclaimed(p, id);
    case ReservationCreated(r) =>
      ReserveExactly(weekFor, p, r, e.at);
      if Reservable(weekFor, p, r, e.at) { LiabilityRange(weekFor, p, r, e.at); }
    case HoldRecorded(id, _) => OneUnclaimed(p, id);
  }

  lemma LiabilityRange(weekFor: int -> Option<P.Week>, p: Projection, r: Reservation, at: int)
    requires Reservable(weekFor, p, r, at)
    ensures 3_000_000 <= r.liability < P.MAX_MONEY && at < r.validUntil
  {
    hide A.LifeOk, A.RowOk, A.CostOk, A.NewIds, A.Attributed, P.Continues, A.Affordable, A.Sized, Identified;
  }

  // --- Histories ---------------------------------------------------------------------------------------------

  lemma BookOne(events: seq<Event>)
    requires |events| == 1 && events[0].body.Genesis?
    ensures var p, e := Book(events), events[0];
            && p.bindings == [] && p.profiles == [] && p.lifecycles == [] && p.costs == [] && p.attempts == []
            && p.holds == [] && p.claimed == Elements(Claims(e)) && p.eventIds == {e.eventId}
            && p.owner == e.owner && p.population == e.body.population && p.events == events && p.lastAt == e.at
  {
    hide Claims, Elements;
    assert events[..|events| - 1] == [];
    assert Bindings(events) == [] + [] && Profiles(events) == [] + [] && Lives(events) == [] + [];
    assert Costs(events) == [] + [] && Rows(events) == [] + [] && Holds(events) == [] + [];
    assert Claimed(events) == {} + Elements(Claims(events[0])) && EventIds(events) == {} + {events[0].eventId};
  }

  lemma OpensExactly(events: seq<Event>)
    requires |events| == 1
    ensures Begin(events[0]).Ok? <==> Opens(events[0])
    ensures Begin(events[0]).Ok? ==> Begin(events[0]).value == Book(events)
  {
    hide Book;
    var e := events[0];
    var ids := [e.owner.ledger, e.owner.experiment, e.eventId];
    assert ids[0] == e.owner.ledger && ids[1] == e.owner.experiment && ids[2] == e.eventId;
    if Opens(e) {
      BookOne(events);
      assert Elements(ids) == {e.owner.ledger, e.owner.experiment, e.eventId} && events == [e];
    }
  }

  /** An event joins a book exactly when it follows it. */
  lemma NextExactly(weekFor: int -> Option<P.Week>, p: Projection, e: Event)
    requires p.events != [] && p.eventIds <= p.claimed
    ensures var r := Apply(weekFor, p, e);
            && (r.Ok? && |r.value.events| == |p.events| + 1 <==> Follows(weekFor, p, e) && |p.events| <= 8191)
            && (r.Ok? && |r.value.events| == |p.events| + 1 ==> r.value == Entered(p, e))
  {
    hide Change, BodyFits, BodyIds, Claims, WellFormed, RowOf;
    if !e.body.Genesis? { ChangeExactly(weekFor, p, e); } else { NoSecondGenesis(weekFor, p, e); }
    if Follows(weekFor, p, e) { assert e.sequence >= 1; }
  }

  lemma NoSecondGenesis(weekFor: int -> Option<P.Week>, p: Projection, e: Event)
    requires e.body.Genesis?
    ensures !BodyFits(weekFor, p, e.body, e.at) && Change(weekFor, p, e.body, e.at).Err?
  {
  }

  lemma {:induction false} IdsClaimed(events: seq<Event>)
    ensures EventIds(events) <= Claimed(events)
  {
    if events != [] {
      IdsClaimed(events[..|events| - 1]);
      assert Claims(events[|events| - 1])[if events[|events| - 1].body.Genesis? then 2 else 0]
          == events[|events| - 1].eventId;
    }
  }

  ghost predicate Continuous(weekFor: int -> Option<P.Week>, events: seq<Event>)
    requires events != [] && events[0].body.Genesis?
  {
    forall i | 1 <= i < |events| :: Follows(weekFor, Book(events[..i]), events[i])
  }

  /** A history folds exactly when it opens and every event follows those before it; and what it folds to is
      what its events say. */
  lemma {:induction false} FoldExactly(weekFor: int -> Option<P.Week>, events: seq<Event>)
    requires events != []
    ensures var r := Fold(weekFor, events);
            && (r.Ok? <==> Opens(events[0]) && |events| <= 8192 && Continuous(weekFor, events))
            && (r.Ok? ==> r.value == Book(events))
  {
    hide Apply, Begin, Book, Follows;
    var n := |events| - 1;
    if n == 0 {
      OpensExactly(events);
    } else {
      var before, e := events[..n], events[n];
      FoldExactly(weekFor, before);
      assert before + [e] == events;
      if Opens(events[0]) {
        assert forall i | 1 <= i < n :: before[..i] == events[..i];
        if Fold(weekFor, before).Ok? {
          IdsClaimed(before);
          BookParts(before);
          NextExactly(weekFor, Book(before), e);
          BookStep(before, e);
        }
      }
    }
  }

  lemma BookParts(events: seq<Event>)
    requires events != [] && events[0].body.Genesis?
    ensures var p := Book(events);
            p.events == events && p.claimed == Claimed(events) && p.eventIds == EventIds(events)
  {
  }

  lemma ReplayExactly(weekFor: int -> Option<P.Week>, events: seq<Event>)
    ensures var r := Replay(weekFor, events);
            && (r.Ok? <==> 1 <= |events| <= 8192 && Opens(events[0]) && Continuous(weekFor, events))
            && (r.Ok? ==> r.value == Book(events))
  {
    hide Fold, Book, Follows;
    if events != [] { FoldExactly(weekFor, events); }
  }

  // --- Nothing out of date -----------------------------------------------------------------------------------

  /** Until when an event's bound is good. */
  function Until(b: Body): Option<int> {
    match b
    case NonModelCommitted(_, _, until) => Some(until)
    case ReservationCreated(r) => Some(r.validUntil)
    case _ => None
  }

  /** What a bound was recorded as, and where. */
  lemma {:induction false} RowIn(events: seq<Event>, i: nat)
    requires i < |events|
    ensures var e := events[i];
            && (e.body.ReservationCreated? ==> RowOf(e.body.r, e.at) in Rows(events))
            && (e.body.NonModelCommitted? ==>
                  P.Cost(e.body.costId, P.Bounded(e.body.upper, e.body.validUntil)) in Costs(events))
  {
    hide RowOf;
    if i < |events| - 1 {
      RowIn(events[..|events| - 1], i);
    }
  }

  /** In every replayable history, whenever a reservation is made, every bound recorded so far, and its own,
      is still good; and reservations are strictly apart in time. */
  lemma InForce(weekFor: int -> Option<P.Week>, events: seq<Event>, i: nat, j: nat)
    requires Replay(weekFor, events).Ok? && i <= j < |events| && events[j].body.ReservationCreated?
    ensures Until(events[i].body).Some? ==> events[j].at < Until(events[i].body).value
    ensures i < j && events[i].body.ReservationCreated? ==> events[i].at < events[j].at
  {
    hide Replay, Bindings, Profiles, Lives, Costs, Rows, Holds, Claimed, EventIds, A.Acceptable, Identified, RowOf;
    ReplayExactly(weekFor, events);
    var r, at := events[j].body.r, events[j].at;
    assert j > 0;
    var before := events[..j];
    var p := Book(before);
    assert Follows(weekFor, p, events[j]);
    LiabilityRange(weekFor, p, r, at);
    if i < j {
      RowIn(before, i);
      var s := SnapshotOf(p, r.origin.generation, at);
      if events[i].body.ReservationCreated? {
        var k :| 0 <= k < |p.attempts| && p.attempts[k] == RowOf(events[i].body.r, events[i].at);
        RowInForce(weekFor, s, CandidateOf(p, r), at, k);
        RowSays(events[i].body.r, events[i].at);
        assert s.attempts[k] == p.attempts[k].attempt;
      } else if events[i].body.NonModelCommitted? {
        var k :| 0 <= k < |p.costs|
          && p.costs[k] == P.Cost(events[i].body.costId, P.Bounded(events[i].body.upper, events[i].body.validUntil));
        CostInForce(weekFor, s, CandidateOf(p, r), at, k);
      }
    }
  }

  lemma RowSays(r: Reservation, at: int)
    ensures RowOf(r, at).attempt.reservedAt == at
    ensures RowOf(r, at).attempt.exposure == P.Bounded(r.liability, r.validUntil)
  {
  }

  lemma RowInForce(weekFor: int -> Option<P.Week>, s: P.Snapshot, c: P.Candidate, at: int, k: nat)
    requires A.Acceptable(weekFor, s, c, at) && k < |s.attempts|
    ensures A.Sound(s.attempts[k].exposure, at, 3_000_000) && s.attempts[k].reservedAt < at
  {
    hide A.LifeOk, A.NewIds, A.Attributed, P.Continues, A.Affordable, A.Sized, A.CostOk, A.Sound, A.WeeksUpTo,
        A.BaseIds, A.IdsOf;
    assert A.RowOk(s, weekFor(at).value, at, k);
  }

  lemma CostInForce(weekFor: int -> Option<P.Week>, s: P.Snapshot, c: P.Candidate, at: int, k: nat)
    requires A.Acceptable(weekFor, s, c, at) && k < |s.costs|
    ensures A.Sound(s.costs[k].exposure, at, 0)
  {
    hide A.LifeOk, A.NewIds, A.Attributed, P.Continues, A.Affordable, A.Sized, A.RowOk, A.Sound, A.BaseIds, A.IdsOf;
    assert A.CostOk(s, at, k);
  }
}
