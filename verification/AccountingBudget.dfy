/** What every replayable history has reserved. */
module AccountingBudget {
  import opened Text
  import P = AccountingPolicy
  import opened AccountingTransition

  /** Every group of attempts keeps its ceilings. */
  ghost predicate Affordable(rows: seq<P.Attempt>) {
    && P.Spend(rows, P.All) <= P.EXPERIMENT
    && (forall id :: P.Spend(rows, P.InLife(id)) <= P.LIFECYCLE && P.Count(rows, P.InLife(id)) <= P.ATTEMPTS)
    && (forall k :: P.Spend(rows, P.InPool(k)) <= P.DIAGNOSTIC && P.Count(rows, P.InPool(k)) <= P.ATTEMPTS)
  }

  /** Every attempt continues the ones before it. */
  ghost predicate Lineal(rows: seq<P.Attempt>) {
    forall i | 0 <= i < |rows| :: P.Continues(rows[..i], rows[i])
  }

  ghost predicate Reserved(rows: seq<P.Attempt>) {
    forall i | 0 <= i < |rows| :: P.RowAmount(rows[i]) >= P.MIN_RESERVATION
  }

  ghost predicate Sound(p: Projection) {
    var rows := Attempts(p.attempts);
    Affordable(rows) && Lineal(rows) && Reserved(rows)
  }

  lemma OneMore(rows: seq<P.Attempt>, row: P.Attempt, spent: int)
    requires Affordable(rows) && Lineal(rows) && Reserved(rows)
    requires P.Within(rows, row, spent) && P.Continues(rows, row) && P.RowAmount(row) >= P.MIN_RESERVATION
    ensures Affordable(rows + [row]) && Lineal(rows + [row]) && Reserved(rows + [row])
  {
    hide P.Spend, P.Count, P.RowAmount, P.Continues;
    P.SpendStep(rows, row, P.All);
    forall id ensures P.Spend(rows + [row], P.InLife(id)) <= P.LIFECYCLE
        && P.Count(rows + [row], P.InLife(id)) <= P.ATTEMPTS {
      P.SpendStep(rows, row, P.InLife(id));
    }
    forall k ensures P.Spend(rows + [row], P.InPool(k)) <= P.DIAGNOSTIC
        && P.Count(rows + [row], P.InPool(k)) <= P.ATTEMPTS {
      P.SpendStep(rows, row, P.InPool(k));
    }
    forall i | 0 <= i < |rows + [row]| ensures P.Continues((rows + [row])[..i], (rows + [row])[i]) {
      assert (rows + [row])[..i] == rows[..i];
      if i == |rows| { assert rows[..i] == rows; }
    }
  }

  lemma ReserveSound(weekFor: int -> Option<P.Week>, p: Projection, r: Reservation, at: int)
    requires Sound(p) && Reserve(weekFor, p, r, at).Ok?
    ensures Sound(Reserve(weekFor, p, r, at).value) && p.holds == []
  {
    hide P.Evaluate, P.Within, P.Continues, P.RowAmount, Affordable, Lineal, Reserved, ReserveChecks;
    var s, c := SnapshotOf(p, r.origin.generation, at), CandidateOf(p, r);
    P.Accepted(weekFor, s, c, at);
    var row := P.AsAttempt(c, weekFor(at).value, at);
    OneMore(Attempts(p.attempts), row, P.Spend(s.attempts, P.All) + P.CostTotal(s.costs));
    var q := Reserve(weekFor, p, r, at).value;
    assert Attempts(q.attempts) == Attempts(p.attempts) + [row];
  }

  lemma ApplySound(weekFor: int -> Option<P.Week>, p: Projection, e: Event)
    requires Sound(p) && Apply(weekFor, p, e).Ok?
    ensures var q := Apply(weekFor, p, e).value;
            && Sound(q) && |p.holds| <= |q.holds|
            && (q != p && e.body.ReservationCreated? ==> p.holds == [])
            && (q != p && e.body.HoldRecorded? ==> q.holds != [])
            && (q != p && !e.body.ReservationCreated? ==> q.attempts == p.attempts)
  {
    hide P.Evaluate, Affordable, Lineal, Reserved, Reserve, Unclaimed, RoleFree, BodyIds, WellFormed;
    match e.body
    case ReservationCreated(r) => if Reserve(weekFor, p, r, e.at).Ok? { ReserveSound(weekFor, p, r,
        e.at); ReserveHolds(weekFor, p, r, e.at); }
    case _ =>
  }

  lemma ReserveHolds(weekFor: int -> Option<P.Week>, p: Projection, r: Reservation, at: int)
    requires Reserve(weekFor, p, r, at).Ok?
    ensures Reserve(weekFor, p, r, at).value.holds == p.holds
  {
    hide P.Evaluate, ReserveChecks;
  }

  /** Nothing is reserved once a hold has been recorded. */
  ghost predicate HoldsStop(events: seq<Event>) {
    forall i, j | 0 <= i < j < |events| && events[i].body.HoldRecorded? :: !events[j].body.ReservationCreated?
  }

  ghost predicate HoldsSeen(events: seq<Event>, p: Projection) {
    forall i | 0 <= i < |events| && events[i].body.HoldRecorded? :: p.holds != []
  }

  lemma {:induction false} Budgeted(weekFor: int -> Option<P.Week>, events: seq<Event>)
    requires events != [] && Fold(weekFor, events).Ok?
    ensures var p := Fold(weekFor, events).value; Sound(p) && HoldsStop(events) && HoldsSeen(events, p)
  {
    hide Apply, Begin, Sound;
    var n := |events| - 1;
    if n == 0 {
      BeginSound(events[0]);
    } else {
      var before := events[..n];
      Budgeted(weekFor, before);
      var p := Fold(weekFor, before).value;
      ApplySound(weekFor, p, events[n]);
      ApplyKeeps(weekFor, p, events[n]);
      ReplayKeeps(weekFor, before);
      assert forall i | 0 <= i < n :: events[i] == before[i];
    }
  }

  lemma BeginSound(e: Event)
    requires Begin(e).Ok?
    ensures Sound(Begin(e).value) && e.body.Genesis?
  {
    assert Attempts([]) == [];
  }

  /** At most sixteen reservations fit under the experiment's ceiling. */
  lemma {:induction false} AtLeast(rows: seq<P.Attempt>)
    requires Reserved(rows)
    ensures P.Spend(rows, P.All) >= P.MIN_RESERVATION * |rows|
  {
    if rows != [] {
      var n := |rows| - 1;
      assert forall i | 0 <= i < n :: rows[..n][i] == rows[i];
      AtLeast(rows[..n]);
    }
  }

  /** Budget safety of every replayable history. */
  lemma BudgetSafety(weekFor: int -> Option<P.Week>, events: seq<Event>)
    requires Replay(weekFor, events).Ok?
    ensures var rows := Attempts(Replay(weekFor, events).value.attempts);
            && P.Spend(rows, P.All) <= 49_999_999 && |rows| <= 16
            && (forall id :: P.Spend(rows, P.InLife(id)) <= 30_000_000 && P.Count(rows, P.InLife(id)) <= 10)
            && (forall k :: P.Spend(rows, P.InPool(k)) <= 30_000_000 && P.Count(rows, P.InPool(k)) <= 10)
            && Lineal(rows) && HoldsStop(events)
  {
    hide Fold, P.Spend, P.Count, Lineal;
    Budgeted(weekFor, events);
    AtLeast(Attempts(Fold(weekFor, events).value.attempts));
  }

  /** A reservation is accepted only while everything committed so far, costs included, leaves
      room for it under the experiment's ceiling. */
  lemma ReservedWithCosts(weekFor: int -> Option<P.Week>, p: Projection, r: Reservation, at: int)
    requires Reserve(weekFor, p, r, at).Ok?
    ensures P.Spend(Attempts(p.attempts), P.All) + P.CostTotal(p.costs) + r.liability <= P.EXPERIMENT
  {
    hide P.Evaluate, P.Spend, P.Continues, P.CostTotal, ReserveChecks;
    P.Accepted(weekFor, SnapshotOf(p, r.origin.generation, at), CandidateOf(p, r), at);
  }

  // --- Costs and the ceiling -----------------------------------------------------------------------

  /** Everything committed: reservations and costs together. */
  ghost function Committed(p: Projection): int { P.Spend(Attempts(p.attempts), P.All) + P.CostTotal(p.costs) }

  lemma CostAdds(p: Projection, id: Id, upper: int, until: int, at: int)
    requires CommitCost(p, id, upper, until, at).Ok?
    ensures Committed(CommitCost(p, id, upper, until, at).value) == Committed(p) + upper
  {
    hide P.Spend;
    var more := p.costs + [P.Cost(id, P.Bounded(upper, until))];
    assert more[..|more| - 1] == p.costs;
  }

  lemma ReserveAdds(weekFor: int -> Option<P.Week>, p: Projection, r: Reservation, at: int)
    requires Reserve(weekFor, p, r, at).Ok?
    ensures Committed(Reserve(weekFor, p, r, at).value) == Committed(p) + r.liability <= P.EXPERIMENT
    ensures r.liability >= P.MIN_RESERVATION
  {
    hide P.Evaluate, P.Spend, P.Continues, P.CostTotal, ReserveChecks;
    P.Accepted(weekFor, SnapshotOf(p, r.origin.generation, at), CandidateOf(p, r), at);
    var row := P.AsAttempt(CandidateOf(p, r), r.week, at);
    var q := Reserve(weekFor, p, r, at).value;
    assert Attempts(q.attempts) == Attempts(p.attempts) + [row];
    P.SpendStep(Attempts(p.attempts), row, P.All);
  }

  /** Only reservations and costs commit anything, and neither gives anything back. */
  lemma ApplyAdds(weekFor: int -> Option<P.Week>, p: Projection, e: Event)
    requires Apply(weekFor, p, e).Ok?
    ensures var q := Apply(weekFor, p, e).value;
            && Committed(p) <= Committed(q)
            && (q != p && e.body.NonModelCommitted? ==> Committed(q) == Committed(p) + e.body.upper)
            && (q != p && e.body.ReservationCreated? ==> Committed(p) < Committed(q) <= P.EXPERIMENT)
            && (q == p || !(e.body.NonModelCommitted? || e.body.ReservationCreated?) ==> Committed(q) == Committed(p))
  {
    hide P.Evaluate, Reserve, CommitCost, Unclaimed, RoleFree, BodyIds, P.Spend, P.CostTotal;
    match e.body
    case ReservationCreated(r) => if Reserve(weekFor, p, r, e.at).Ok? { ReserveAdds(weekFor, p, r, e.at); }
    case NonModelCommitted(id, upper, until) =>
      if CommitCost(p, id, upper, until, e.at).Ok? { CostAdds(p, id, upper, until, e.at); }
    case _ =>
  }

  /** After an accepted event the ceiling still holds exactly when the event is no cost, or a cost
      that fits in what is left. */
  lemma CeilingKept(weekFor: int -> Option<P.Week>, p: Projection, e: Event)
    requires Committed(p) <= P.EXPERIMENT && Apply(weekFor, p, e).Ok? && e !in p.events
    ensures Committed(Apply(weekFor, p, e).value) <= P.EXPERIMENT <==>
      !e.body.NonModelCommitted? || Committed(p) + e.body.upper <= P.EXPERIMENT
  {
    hide P.Evaluate, Change, Committed, BodyIds;
    ApplyAdds(weekFor, p, e);
    assert Apply(weekFor, p, e).value.events == p.events + [e];
    assert |p.events + [e]| == |p.events| + 1;
  }

  /** Every cost fitted in what was left when it was committed. */
  ghost predicate CostsFit(weekFor: int -> Option<P.Week>, events: seq<Event>)
    requires events != [] && Fold(weekFor, events).Ok?
  {
    forall i | 0 < i < |events| && events[i].body.NonModelCommitted? :: CostFits(weekFor, events, i)
  }

  ghost predicate CostFits(weekFor: int -> Option<P.Week>, events: seq<Event>, i: nat)
    requires 0 < i < |events| && events[i].body.NonModelCommitted?
  {
    var before := Fold(weekFor, events[..i]);
    before.Ok? && Committed(before.value) + events[i].body.upper <= P.EXPERIMENT
  }

  lemma FitsEarlier(weekFor: int -> Option<P.Week>, events: seq<Event>, i: nat)
    requires 0 < i < |events| - 1 && events[i].body.NonModelCommitted?
    ensures CostFits(weekFor, events, i) <==> CostFits(weekFor, events[..|events| - 1], i)
  {
    hide Fold, Committed;
    assert events[..|events| - 1][..i] == events[..i];
  }

  /** What a replayable history has committed is within the ceiling exactly when every cost in it
      fitted in what was left at its turn. Nothing asks for that. */
  lemma {:induction false} WithinExactly(weekFor: int -> Option<P.Week>, events: seq<Event>)
    requires events != [] && Fold(weekFor, events).Ok?
    ensures Committed(Fold(weekFor, events).value) <= P.EXPERIMENT <==> CostsFit(weekFor, events)
  {
    hide Apply, Begin, Committed, CostFits;
    var n := |events| - 1;
    if n == 0 {
      NothingCommitted(events[0]);
    } else {
      var before := events[..n];
      WithinExactly(weekFor, before);
      var p := Fold(weekFor, before).value;
      ApplyAdds(weekFor, p, events[n]);
      NewEvent(weekFor, events);
      forall i | 0 < i < n && events[i].body.NonModelCommitted?
        ensures CostFits(weekFor, events, i) <==> CostFits(weekFor, before, i)
      {
        FitsEarlier(weekFor, events, i);
      }
      if events[n].body.NonModelCommitted? { LastFits(weekFor, events); }
    }
  }

  lemma LastFits(weekFor: int -> Option<P.Week>, events: seq<Event>)
    requires |events| > 1 && events[|events| - 1].body.NonModelCommitted? && Fold(weekFor, events[..|events| - 1]).Ok?
    ensures CostFits(weekFor, events, |events| - 1)
            <==>
                Committed(Fold(weekFor, events[..|events| - 1]).value) + events[|events| - 1].body.upper <= P.EXPERIMENT
  {
    hide Fold, Committed;
  }

  lemma NothingCommitted(e: Event)
    requires Begin(e).Ok?
    ensures Committed(Begin(e).value) == 0
  {
    assert Attempts([]) == [];
  }

  /** In a replayable history every event is a new one. */
  lemma NewEvent(weekFor: int -> Option<P.Week>, events: seq<Event>)
    requires |events| > 1 && Fold(weekFor, events).Ok?
    ensures Fold(weekFor, events).value != Fold(weekFor, events[..|events| - 1]).value
  {
    hide Apply, Begin;
    ReplayKeeps(weekFor, events);
    ReplayKeeps(weekFor, events[..|events| - 1]);
  }

  /** Once a history has committed more than the ceiling, no continuation of it reserves anything. */
  lemma {:induction false} OverForever(weekFor: int -> Option<P.Week>, events: seq<Event>, more: seq<Event>)
    requires events != [] && Fold(weekFor, events).Ok? && Committed(Fold(weekFor, events).value) > P.EXPERIMENT
    requires Fold(weekFor, events + more).Ok?
    ensures Committed(Fold(weekFor, events + more).value) > P.EXPERIMENT
    ensures forall j | 0 <= j < |more| :: !more[j].body.ReservationCreated?
    decreases |more|
  {
    hide Apply, Begin, Committed;
    if more == [] {
      assert events + more == events;
    } else {
      var n := |more| - 1;
      var all := events + more;
      assert all[..|all| - 1] == events + more[..n];
      OverForever(weekFor, events, more[..n]);
      var p := Fold(weekFor, events + more[..n]).value;
      ApplyAdds(weekFor, p, more[n]);
      NewEvent(weekFor, all);
    }
  }

  function OpenedAt(): Event { Event(3, Owner(1, 1, 2), 1, Zero, 0, Fixture, Genesis(P.Complete)) }

  function Spent(): Event { Event(4, Owner(1, 1, 2), 2, Of(OpenedAt()), 1, Receiver,
                                  NonModelCommitted(5, 50_000_000, 9)) }

  lemma SpentApplies(weekFor: int -> Option<P.Week>)
    ensures Begin(OpenedAt()).Ok?
    ensures var q := Apply(weekFor, Begin(OpenedAt()).value, Spent());
            q.Ok? && q.value.costs == [P.Cost(5, P.Bounded(50_000_000, 9))] && |q.value.events| == 2
  {
    hide P.Evaluate, Reserve;
  }

  lemma FoldTwo(weekFor: int -> Option<P.Week>, a: Event, b: Event)
    requires Begin(a).Ok? && Apply(weekFor, Begin(a).value, b).Ok?
    requires |Apply(weekFor, Begin(a).value, b).value.events| == 2
    ensures Fold(weekFor, [a, b]) == Apply(weekFor, Begin(a).value, b)
  {
    hide Apply, Begin;
    assert [a, b][..1] == [a];
    assert Fold(weekFor, [a]) == Begin(a);
  }

  /** A cost alone can take a replayable history over the ceiling. */
  lemma CostsUnchecked(weekFor: int -> Option<P.Week>)
    ensures exists events: seq<Event> ::
      events != [] && Replay(weekFor, events).Ok? && P.CostTotal(Replay(weekFor, events).value.costs) > P.EXPERIMENT
  {
    hide Apply, Begin, Fold;
    SpentApplies(weekFor);
    FoldTwo(weekFor, OpenedAt(), Spent());
    var events := [OpenedAt(), Spent()];
    var costs := Replay(weekFor, events).value.costs;
    assert costs[..0] == [];
    assert P.CostTotal(costs) == P.CostTotal([]) + 50_000_000;
  }

  /** A cost is accepted exactly when its id is new, it is not stale and there is a free row. */
  lemma CostAccepted(p: Projection, id: Id, upper: int, until: int, at: int)
    ensures CommitCost(p, id, upper, until, at).Ok? <==> id !in p.claimed && at < until && |p.costs| < 512
  {
    assert Unclaimed([id], p) <==> id !in p.claimed by { assert id in [id]; }
  }
}
