/** Archived segments of a history, the index derived from them, and their comparison with the
    active rows. */
module AccountingArchive {
  import opened Text
  import P = AccountingPolicy
  import opened AccountingTransition

  const MAX_SEGMENTS: nat := 256
  const MAX_ROWS: nat := 65_536

  datatype Error =
    | SegmentInvalid | PriorInvalid | OutOfSequence | OutOfChain | OtherOwner | BadEvent | ReplayInvalid | Capacity
    | IndexInvalid | HistoryConflict | ClaimConflict | IndexMismatch
    | OverlapInvalid | ActiveInvalid | Gap | HeadConflict | OverlapConflict | UnionInvalid

  datatype Outcome<+T> = Fine(value: T) | Bad(error: Error)

  // --- Segments ---------------------------------------------------------------------------------

  datatype Frame = Frame(sequence: nat, event: Event)

  /** A digest names exactly one segment, so a segment stands for its bytes. */
  datatype Segment = Segment(owner: Owner, first: nat, last: nat, start: Digest, end: Digest, frames: seq<Frame>)

  function LastDigest(events: seq<Event>): Digest { if events == [] then Zero else Of(events[|events| - 1]) }

  /** The events before a segment, provided the projection it is appended to is genuine. */
  function Prior(weekFor: int -> Option<P.Week>, prior: Option<Projection>): Outcome<seq<Event>> {
    if prior.None? then Fine([])
    else if Replay(weekFor, prior.value.events) != AccountingTransition.Ok(prior.value) then Bad(PriorInvalid)
    else Fine(prior.value.events)
  }

  /** The first frame that does not continue the chain, or the events of all of them. */
  function Unframe(frames: seq<Frame>, first: nat, before: Digest, owner: Owner): Outcome<seq<Event>>
    decreases |frames|
  {
    if frames == [] then Fine([])
    else
      var f := frames[0];
      if f.sequence != first then Bad(OutOfSequence)
      else if !WellFormed(f.event) then Bad(BadEvent)
      else if f.event.sequence != first then Bad(OutOfSequence)
      else if f.event.previous != before then Bad(OutOfChain)
      else if f.event.owner != owner then Bad(OtherOwner)
      else
        var rest := Unframe(frames[1..], first + 1, Of(f.event), owner);
        if rest.Bad? then rest else Fine([f.event] + rest.value)
  }

  function DecodeSegment(weekFor: int -> Option<P.Week>, s: Segment, prior: Option<Projection>): Outcome<Projection> {
    if !(1 <= s.first <= s.last <= MAX_EVENTS) || |s.frames| != s.last - s.first + 1 then Bad(SegmentInvalid)
    else
      var prefix := Prior(weekFor, prior);
      if prefix.Bad? then Bad(prefix.error)
      else if s.first != |prefix.value| + 1 then Bad(OutOfSequence)
      else if s.start != LastDigest(prefix.value) then Bad(OutOfChain)
      else
        var events := Unframe(s.frames, s.first, s.start, s.owner);
        if events.Bad? then Bad(events.error)
        else if s.end != LastDigest(prefix.value + events.value) then Bad(SegmentInvalid)
        else
          var p := Replay(weekFor, prefix.value + events.value);
          if p.Err? then Bad(ReplayInvalid) else if p.value.owner != s.owner then Bad(OtherOwner) else Fine(p.value)
  }

  /** The decoding loop over the frames. */
  method UnframeAll(frames: seq<Frame>, first: nat, before: Digest, owner: Owner) returns (r: Outcome<seq<Event>>)
    ensures r == Unframe(frames, first, before, owner)
  {
    var events: seq<Event>, predecessor := [], before;
    assert frames[0..] == frames;
    ghost var all := Unframe(frames, first, before, owner);
    if all.Fine? { assert [] + all.value == all.value; }
    for i := 0 to |frames|
      invariant |events| == i
      invariant predecessor == if i == 0 then before else Of(events[i - 1])
      invariant Unframe(frames, first, before, owner) ==
                var rest := Unframe(frames[i..], first + i, predecessor, owner);
                if rest.Bad? then rest else Fine(events + rest.value)
    {
      var f := frames[i];
      assert frames[i..][1..] == frames[i + 1..];
      if f.sequence != first + i { return Bad(OutOfSequence); }
      if !WellFormed(f.event) { return Bad(BadEvent); }
      if f.event.sequence != first + i { return Bad(OutOfSequence); }
      if f.event.previous != predecessor { return Bad(OutOfChain); }
      if f.event.owner != owner { return Bad(OtherOwner); }
      ghost var rest := Unframe(frames[i + 1..], first + i + 1, Of(f.event), owner);
      if rest.Fine? { assert events + ([f.event] + rest.value) == events + [f.event] + rest.value; }
      predecessor := Of(f.event);
      events := events + [f.event];
    }
    assert events + [] == events;
    return Fine(events);
  }

  function Frames(events: seq<Event>, first: nat): seq<Frame> {
    seq(|events|, i requires 0 <= i < |events| => Frame(first + i, events[i]))
  }

  /** `fits` says whether the encoded bytes stay within the segment's size. */
  function EncodeSegment(weekFor: int -> Option<P.Week>, events: seq<Event>, prior: Option<Projection>,
                         fits: bool): Outcome<(Segment, Projection)> {
    if events == [] || |events| > MAX_EVENTS then Bad(SegmentInvalid)
    else
      var prefix := Prior(weekFor, prior);
      if prefix.Bad? then Bad(prefix.error)
      else if |prefix.value| + |events| > MAX_EVENTS then Bad(SegmentInvalid)
      else if exists e | e in events :: !WellFormed(e) then Bad(BadEvent)
      else if !fits then Bad(Capacity)
      else
        var n := |prefix.value|;
        var s := Segment(events[0].owner, n + 1, n + |events|, LastDigest(prefix.value), LastDigest(events),
                         Frames(events, n + 1));
        var p := DecodeSegment(weekFor, s, prior);
        if p.Bad? then Bad(p.error) else Fine((s, p.value))
  }

  // --- Encoding a stretch of a replayable history ----------------------------------------------------

  lemma {:induction false} UnframeFrames(events: seq<Event>, lo: nat, hi: nat, owner: Owner)
    requires lo <= hi <= |events| && Chained(events) && OwnedBy(events, owner)
    ensures Unframe(Frames(events[lo..hi], lo + 1), lo + 1, LastDigest(events[..lo]), owner) == Fine(events[lo..hi])
    decreases hi - lo
  {
    hide WellFormed;
    var part := events[lo..hi];
    var frames := Frames(part, lo + 1);
    if lo == hi {
      assert part == [] && frames == [];
    } else {
      assert Link(events, lo);
      assert part[0] == events[lo] && part[1..] == events[lo + 1..hi];
      assert frames[1..] == Frames(events[lo + 1..hi], lo + 2);
      UnframeFrames(events, lo + 1, hi, owner);
      assert LastDigest(events[..lo + 1]) == Of(events[lo]);
      assert lo > 0 ==> events[..lo][lo - 1] == events[lo - 1];
      assert [part[0]] + part[1..] == part;
    }
  }

  /** The projection of the first `k` events, if any. */
  function PriorOf(weekFor: int -> Option<P.Week>, events: seq<Event>, k: nat): Option<Projection>
    requires k <= |events|
  {
    if k == 0 then None
    else
      var p := Replay(weekFor, events[..k]);
      if p.Ok? then Some(p.value) else None
  }

  lemma PriorGenuine(weekFor: int -> Option<P.Week>, events: seq<Event>, k: nat)
    requires k <= |events| && Replay(weekFor, events).Ok?
    ensures Prior(weekFor, PriorOf(weekFor, events, k)) == Fine(events[..k])
    ensures k > 0 ==> Replay(weekFor, events[..k]).Ok? && Replay(weekFor, events[..k]).value.owner == events[0].owner
  {
    hide Fold;
    if k > 0 {
      PrefixReplays(weekFor, events, k);
      ReplayKeeps(weekFor, events[..k]);
      assert events[..k][0] == events[0];
    }
  }

  lemma StretchFacts(weekFor: int -> Option<P.Week>, events: seq<Event>, lo: nat, hi: nat)
    requires lo < hi <= |events| && Replay(weekFor, events).Ok?
    ensures |events| <= MAX_EVENTS && events[lo].owner == events[0].owner
    ensures Unframe(Frames(events[lo..hi], lo + 1), lo + 1, LastDigest(events[..lo]), events[lo].owner) ==
            Fine(events[lo..hi])
    ensures forall e | e in events[lo..hi] :: WellFormed(e)
  {
    hide Fold, WellFormed, Replay;
    ReplayBounds(weekFor, events);
    ReplayKeeps(weekFor, events);
    UnframeFrames(events, lo, hi, Fold(weekFor, events).value.owner);
    var part := events[lo..hi];
    forall e | e in part ensures WellFormed(e) { var i :| 0 <= i < |part| && part[i] == e; assert e == events[lo + i]; }
  }

  lemma StretchDecodes(weekFor: int -> Option<P.Week>, events: seq<Event>, lo: nat, hi: nat)
    requires lo < hi <= |events| && Replay(weekFor, events).Ok?
    ensures var r := DecodeSegment(weekFor, StretchSegment(events, lo, hi), PriorOf(weekFor, events, lo));
            r.Fine? && Replay(weekFor, events[..hi]) == AccountingTransition.Ok(r.value)
  {
    hide Fold, WellFormed, Replay, Unframe, Frames, Prior, PriorOf;
    PriorGenuine(weekFor, events, lo);
    PriorGenuine(weekFor, events, hi);
    StretchFacts(weekFor, events, lo, hi);
    FramesLength(events[lo..hi], lo + 1);
    assert events[..lo] + events[lo..hi] == events[..hi];
  }

  lemma FramesLength(events: seq<Event>, first: nat)
    ensures |Frames(events, first)| == |events|
  {
  }

  /** A stretch of a replayable history always encodes, unless it is too big; decoding it again
      gives the projection of everything up to its end. */
  lemma StretchEncodes(weekFor: int -> Option<P.Week>, events: seq<Event>, lo: nat, hi: nat, fits: bool)
    requires lo < hi <= |events| && Replay(weekFor, events).Ok?
    ensures var r := EncodeSegment(weekFor, events[lo..hi], PriorOf(weekFor, events, lo), fits);
            if fits then r.Fine? && r.value.0 == StretchSegment(events, lo, hi)
                && Replay(weekFor, events[..hi]) == AccountingTransition.Ok(r.value.1)
            else r == Bad(Capacity)
  {
    hide Fold, WellFormed, Replay, Unframe, Frames, Prior, PriorOf, DecodeSegment;
    PriorGenuine(weekFor, events, lo);
    StretchFacts(weekFor, events, lo, hi);
    StretchDecodes(weekFor, events, lo, hi);
    var part := events[lo..hi];
    assert part[0] == events[lo] && part[|part| - 1] == events[..hi][hi - 1];
  }

  lemma ReplayBounds(weekFor: int -> Option<P.Week>, events: seq<Event>)
    requires Replay(weekFor, events).Ok?
    ensures events != [] && |events| <= MAX_EVENTS && Fold(weekFor, events) == Replay(weekFor, events)
  {
  }

  function StretchSegment(events: seq<Event>, lo: nat, hi: nat): Segment
    requires lo < hi <= |events|
  {
    Segment(events[lo].owner, lo + 1, hi, LastDigest(events[..lo]), LastDigest(events[..hi]),
            Frames(events[lo..hi], lo + 1))
  }

  // --- Verified segments -------------------------------------------------------------------------------

  /** Segments verified one after the other, each on the projection of those before it. */
  function Verified(weekFor: int -> Option<P.Week>, segments: seq<Segment>): Outcome<Option<Projection>> {
    if segments == [] then Fine(None)
    else
      var before := Verified(weekFor, segments[..|segments| - 1]);
      if before.Bad? then before
      else
        var p := DecodeSegment(weekFor, segments[|segments| - 1], before.value);
        if p.Bad? then Bad(SegmentInvalid) else Fine(Some(p.value))
  }

  /** Cut points that split the first `cuts.last` events into non-empty stretches. */
  ghost predicate Cuts(cuts: seq<nat>, n: nat) {
    && (forall i | 0 <= i < |cuts| :: 0 < cuts[i] <= n)
    && (forall i | 0 < i < |cuts| :: cuts[i - 1] < cuts[i])
  }

  ghost function Split(events: seq<Event>, cuts: seq<nat>): seq<Segment>
    requires Cuts(cuts, |events|)
  {
    if cuts == [] then []
    else
      var n := |cuts| - 1;
      CutsShorter(cuts, |events|);
      Split(events, cuts[..n]) + [StretchSegment(events, if n == 0 then 0 else cuts[n - 1], cuts[n])]
  }

  lemma CutsShorter(cuts: seq<nat>, n: nat)
    requires Cuts(cuts, n) && cuts != []
    ensures Cuts(cuts[..|cuts| - 1], n)
  {
  }

  lemma {:induction false} SplitVerifies(weekFor: int -> Option<P.Week>, events: seq<Event>, cuts: seq<nat>)
    requires Cuts(cuts, |events|) && Replay(weekFor, events).Ok?
    ensures Verified(weekFor, Split(events, cuts)) ==
            Fine(PriorOf(weekFor, events, if cuts == [] then 0 else cuts[|cuts| - 1]))
    ensures |Split(events, cuts)| == |cuts|
    decreases |cuts|
  {
    hide Replay, DecodeSegment, EncodeSegment, StretchSegment;
    if cuts != [] {
      var n := |cuts| - 1;
      CutsShorter(cuts, |events|);
      SplitVerifies(weekFor, events, cuts[..n]);
      var lo, hi := if n == 0 then 0 else cuts[n - 1], cuts[n];
      StretchDecodes(weekFor, events, lo, hi);
      var segments := Split(events, cuts);
      assert segments[..|segments| - 1] == Split(events, cuts[..n]);
      PriorGenuine(weekFor, events, hi);
    }
  }

  // --- The index ----------------------------------------------------------------------------------------

  datatype RowOwner = RowOwner(segment: Segment, sequence: nat, event: Event)

  /** Rows by key: one for every event id and one for every claimed id. */
  datatype Index = Index(owner: Owner, segments: seq<Segment>, events: map<Id, RowOwner>, claims: map<Id, RowOwner>)

  predicate Holds(s: Segment, sequence: nat) { s.first <= sequence <= s.last }

  /** Every sequence number some segment holds. */
  function Sequences(segments: seq<Segment>): set<nat> {
    if segments == [] then {}
    else
      var s := segments[|segments| - 1];
      Sequences(segments[..|segments| - 1]) + Range(s.first, s.last)
  }

  function Range(lo: nat, hi: nat): (r: set<nat>)
    ensures forall q: nat :: q in r <==> lo <= q <= hi
  {
    if lo > hi then {} else if hi == 0 then {0} else Range(lo, hi - 1) + {hi}
  }

  /** The segment that holds a sequence number; a later one would win. */
  function Holder(segments: seq<Segment>, sequence: nat): Option<Segment> {
    if segments == [] then None
    else if Holds(segments[|segments| - 1], sequence) then Some(segments[|segments| - 1])
    else Holder(segments[..|segments| - 1], sequence)
  }

  /** Claims not owned yet go to this owner; the others stay where they are. */
  function AddClaims(owners: map<Id, RowOwner>, claims: seq<Id>, o: RowOwner): map<Id, RowOwner> {
    if claims == [] then owners
    else
      var before := AddClaims(owners, claims[..|claims| - 1], o);
      var id := claims[|claims| - 1];
      if id in before then before else before[id := o]
  }

  function OwnerAt(segments: seq<Segment>, events: seq<Event>, i: nat): RowOwner
    requires i < |events|
  {
    var s := Holder(segments, i + 1);
    RowOwner(if s.Some? then s.value else Segment(events[i].owner, 0, 0, Zero, Zero, []), i + 1, events[i])
  }

  function Owners(segments: seq<Segment>, events: seq<Event>): map<Id, RowOwner> {
    OwnersUpTo(segments, events, |events|)
  }

  function OwnersUpTo(segments: seq<Segment>, events: seq<Event>, n: nat): map<Id, RowOwner>
    requires n <= |events|
  {
    if n == 0 then map[] else AddClaims(OwnersUpTo(segments, events, n - 1), Claims(events[n - 1]),
                                        OwnerAt(segments, events, n - 1))
  }

  function EventRows(segments: seq<Segment>, events: seq<Event>, n: nat): map<Id, RowOwner>
    requires n <= |events|
  {
    if n == 0 then map[]
        else EventRows(segments, events, n - 1)[events[n - 1].eventId := OwnerAt(segments, events, n - 1)]
  }

  /** `fits` says whether the encoded rows and index stay within their sizes. */
  function Build(weekFor: int -> Option<P.Week>, segments: seq<Segment>, fits: bool): Outcome<(Index, Projection)> {
    if segments == [] || |segments| > MAX_SEGMENTS then Bad(IndexInvalid)
    else
      var v := Verified(weekFor, segments);
      if v.Bad? || v.value.None? then Bad(SegmentInvalid)
      else
        var p := v.value.value;
        var owners, events := Owners(segments, p.events), EventRows(segments, p.events, |p.events|);
        if |Sequences(segments)| != |p.events| then Bad(HistoryConflict)
        else if owners.Keys != p.claimed then Bad(ClaimConflict)
        else if |p.events| + |owners| > MAX_ROWS || !fits then Bad(Capacity)
        else if |events| != |p.events| then Bad(ClaimConflict)
        else Fine((Index(p.owner, segments, events, owners), p))
  }

  /** The nested loops that derive the rows. */
  method BuildRows(segments: seq<Segment>, events: seq<Event>)
    returns (owners: map<Id, RowOwner>, rows: map<Id, RowOwner>)
    ensures owners == Owners(segments, events) && rows == EventRows(segments, events, |events|)
  {
    hide Claims, Holder;
    owners, rows := map[], map[];
    for i := 0 to |events|
      invariant owners == OwnersUpTo(segments, events, i) && rows == EventRows(segments, events, i)
    {
      var o := OwnerAt(segments, events, i);
      rows := rows[events[i].eventId := o];
      var claims := Claims(events[i]);
      ghost var before := owners;
      for j := 0 to |claims|
        invariant owners == AddClaims(before, claims[..j], o)
      {
        assert claims[..j + 1][..j] == claims[..j];
        if claims[j] !in owners { owners := owners[claims[j] := o]; }
      }
      assert claims[..|claims|] == claims;
    }
  }

  // --- Every claimed id belongs to its first claimer -----------------------------------------------------------

  lemma {:induction false} AddedClaims(owners: map<Id, RowOwner>, claims: seq<Id>, o: RowOwner)
    ensures AddClaims(owners, claims, o).Keys == owners.Keys + Elements(claims)
    ensures forall id | id in AddClaims(owners, claims, o) :: AddClaims(owners, claims, o)[id] == if id in owners
        then owners[id] else o
  {
    if claims != [] {
      AddedClaims(owners, claims[..|claims| - 1], o);
      assert claims == claims[..|claims| - 1] + [claims[|claims| - 1]];
    }
  }

  /** The ids claimed by the first `n` events. */
  ghost predicate ClaimedBefore(events: seq<Event>, n: nat, id: Id)
    requires n <= |events|
  {
    exists i | 0 <= i < n :: id in Claims(events[i])
  }

  /** The owner is the first of the events that claims the id. */
  ghost predicate FirstClaimer(segments: seq<Segment>, events: seq<Event>, n: nat, id: Id, o: RowOwner)
    requires n <= |events|
  {
    && 1 <= o.sequence <= n && o.event == events[o.sequence - 1] && o == OwnerAt(segments, events, o.sequence - 1)
    && id in Claims(o.event) && !ClaimedBefore(events, o.sequence - 1, id)
  }

  lemma ClaimsGrow(events: seq<Event>, n: nat, id: Id)
    requires 0 < n <= |events|
    ensures ClaimedBefore(events, n, id) <==> ClaimedBefore(events, n - 1, id) || id in Claims(events[n - 1])
  {
    hide Claims;
  }

  lemma {:induction false} OwnerIs(segments: seq<Segment>, events: seq<Event>, n: nat, id: Id)
    requires n <= |events|
    ensures id in OwnersUpTo(segments, events, n) <==> ClaimedBefore(events, n, id)
    ensures id in OwnersUpTo(segments, events, n) ==>
            FirstClaimer(segments, events, n, id, OwnersUpTo(segments, events, n)[id])
  {
    hide Claims, Holder, ClaimedBefore, AddClaims;
    if n == 0 {
      NoneBefore(events, id);
    } else {
      OwnerIs(segments, events, n - 1, id);
      ClaimsGrow(events, n, id);
      AddedClaims(OwnersUpTo(segments, events, n - 1), Claims(events[n - 1]), OwnerAt(segments, events, n - 1));
    }
  }

  lemma NoneBefore(events: seq<Event>, id: Id)
    ensures !ClaimedBefore(events, 0, id)
  {
  }

  lemma OwnersAre(segments: seq<Segment>, events: seq<Event>, n: nat)
    requires n <= |events|
    ensures forall id :: id in OwnersUpTo(segments, events, n) <==> ClaimedBefore(events, n, id)
    ensures forall id | id in OwnersUpTo(segments, events, n) ::
            FirstClaimer(segments, events, n, id, OwnersUpTo(segments, events, n)[id])
  {
    hide *;
    forall id
      ensures id in OwnersUpTo(segments, events, n) <==> ClaimedBefore(events, n, id)
      ensures id in OwnersUpTo(segments, events, n) ==>
              FirstClaimer(segments, events, n, id, OwnersUpTo(segments, events, n)[id])
    {
      OwnerIs(segments, events, n, id);
    }
  }

  /** A replayed history has claimed exactly the ids its events claim, each event id once. */
  lemma {:induction false} ClaimedIs(weekFor: int -> Option<P.Week>, events: seq<Event>)
    requires events != [] && Fold(weekFor, events).Ok?
    ensures var p := Fold(weekFor, events).value;
            && (forall id :: id in p.claimed <==> ClaimedBefore(events, |events|, id))
            && (forall id :: id in p.eventIds <==> exists i | 0 <= i < |events| :: events[i].eventId == id)
            && DistinctIds(events)
  {
    hide Apply, Begin, Claims;
    var n := |events| - 1;
    if n == 0 {
      BeginClaims(events[0]);
    } else {
      var before := events[..n];
      ClaimedIs(weekFor, before);
      var p := Fold(weekFor, before).value;
      ApplyClaims(weekFor, p, events[n]);
      ReplayKeeps(weekFor, before);
      forall id ensures ClaimedBefore(events, n + 1, id) <==> ClaimedBefore(before, n, id) || id in Claims(events[n]) {
        assert forall i | 0 <= i < n :: events[i] == before[i];
      }
      assert forall i | 0 <= i < n :: events[i] == before[i];
    }
  }

  lemma BeginClaims(e: Event)
    requires Begin(e).Ok?
    ensures Begin(e).value.claimed == Elements(Claims(e)) && Begin(e).value.eventIds == {e.eventId}
  {
  }

  lemma ApplyClaims(weekFor: int -> Option<P.Week>, p: Projection, e: Event)
    requires Apply(weekFor, p, e).Ok?
    ensures var q := Apply(weekFor, p, e).value;
            |q.events| == |p.events| + 1 ==>
              q.claimed == p.claimed + Elements(Claims(e)) && q.eventIds == p.eventIds + {e.eventId}
                  && e.eventId !in p.eventIds
  {
    hide P.Evaluate, Unclaimed, RoleFree, ReserveChecks, BodyIds, WellFormed, Claims;
  }

  // --- Building never finds a conflict ---------------------------------------------------------------------------

  lemma {:induction false} RangeSize(n: nat)
    ensures |Range(1, n)| == n
  {
    if n > 0 { RangeSize(n - 1); }
  }

  lemma {:induction false} UnframedLength(frames: seq<Frame>, first: nat, before: Digest, owner: Owner)
    requires Unframe(frames, first, before, owner).Fine?
    ensures |Unframe(frames, first, before, owner).value| == |frames|
    decreases |frames|
  {
    if frames != [] { UnframedLength(frames[1..], first + 1, Of(frames[0].event), owner); }
  }

  /** A decoded segment holds exactly the sequence numbers it adds. */
  lemma DecodedRange(weekFor: int -> Option<P.Week>, s: Segment, prior: Option<Projection>)
    requires DecodeSegment(weekFor, s, prior).Fine?
    ensures var p := DecodeSegment(weekFor, s, prior).value;
            && s.first == (if prior.None? then 0 else |prior.value.events|) + 1 && s.last == |p.events|
                && s.first <= s.last
            && p.events != [] && Replay(weekFor, p.events) == AccountingTransition.Ok(p)
  {
    hide Replay, Unframe;
    var prefix := Prior(weekFor, prior).value;
    var events := Unframe(s.frames, s.first, s.start, s.owner).value;
    UnframedLength(s.frames, s.first, s.start, s.owner);
    ReplayBounds(weekFor, prefix + events);
    ReplayKeeps(weekFor, prefix + events);
  }

  lemma {:induction false} VerifiedCovers(weekFor: int -> Option<P.Week>, segments: seq<Segment>)
    requires Verified(weekFor, segments).Fine?
    ensures var v := Verified(weekFor, segments).value;
            var n := if v.None? then 0 else |v.value.events|;
            && Sequences(segments) == Range(1, n) && (v.None? <==> segments == [])
            && (v.Some? ==> v.value.events != [] && Replay(weekFor, v.value.events) == AccountingTransition.Ok(v.value))
            && forall q: nat | 1 <= q <= n :: Holder(segments, q).Some? && Holds(Holder(segments, q).value, q)
  {
    hide DecodeSegment, Replay;
    if segments != [] {
      var before, s := segments[..|segments| - 1], segments[|segments| - 1];
      VerifiedCovers(weekFor, before);
      DecodedRange(weekFor, s, Verified(weekFor, before).value);
    }
  }

  ghost predicate DistinctIds(events: seq<Event>) {
    forall i, j | 0 <= i < j < |events| :: events[i].eventId != events[j].eventId
  }

  lemma {:induction false} EventRowKeys(segments: seq<Segment>, events: seq<Event>, n: nat, id: Id)
    requires n <= |events|
    ensures id in EventRows(segments, events, n) <==> exists i | 0 <= i < n :: events[i].eventId == id
  {
    hide OwnerAt;
    if n > 0 { EventRowKeys(segments, events, n - 1, id); }
  }

  lemma {:induction false} EventRowsAre(segments: seq<Segment>, events: seq<Event>, n: nat)
    requires n <= |events| && DistinctIds(events)
    ensures |EventRows(segments, events, n)| == n
    ensures forall i: nat | i < n :: events[i].eventId in EventRows(segments, events, n)
                                && EventRows(segments, events, n)[events[i].eventId] == OwnerAt(segments, events, i)
  {
    hide OwnerAt;
    if n > 0 {
      EventRowsAre(segments, events, n - 1);
      var before, id := EventRows(segments, events, n - 1), events[n - 1].eventId;
      EventRowKeys(segments, events, n - 1, id);
      OneRowMore(before, id, OwnerAt(segments, events, n - 1));
    }
  }

  lemma OneRowMore(rows: map<Id, RowOwner>, id: Id, o: RowOwner)
    requires id !in rows
    ensures |rows[id := o]| == |rows| + 1
  {
    assert rows[id := o].Keys == rows.Keys + {id};
    assert |rows[id := o]| == |rows[id := o].Keys| && |rows| == |rows.Keys|;
  }

  /** Deriving the index from verified segments never reports a conflict; it fails only on bad
      segments or on size. Every claimed id is owned by the first event that claims it, every
      event id by its event, and each owner's segment holds that event. */
  lemma IndexNeverConflicts(weekFor: int -> Option<P.Week>, segments: seq<Segment>, fits: bool)
    ensures var r := Build(weekFor, segments, fits);
            && (r.Bad? ==> r.error == IndexInvalid || r.error == SegmentInvalid || r.error == Capacity)
            && (r.Fine? ==>
                  var (index, p) := r.value;
                  && index.claims.Keys == p.claimed
                  && (forall id | id in index.claims ::
                        var o := index.claims[id];
                        && 1 <= o.sequence <= |p.events| && o.event == p.events[o.sequence - 1]
                            && Holds(o.segment, o.sequence)
                        && id in Claims(o.event) && !ClaimedBefore(p.events, o.sequence - 1, id))
                  && (forall i: nat | i < |p.events| ::
                        p.events[i].eventId in index.events && index.events[p.events[i].eventId].event == p.events[i]))
  {
    hide Verified, Sequences, Replay, Claims, Holder, Fold, OwnersUpTo, EventRows, ClaimedBefore;
    var v := Verified(weekFor, segments);
    if segments != [] && v.Fine? {
      VerifiedCovers(weekFor, segments);
      var p := v.value.value;
      RangeSize(|p.events|);
      ReplayBounds(weekFor, p.events);
      ClaimedIs(weekFor, p.events);
      OwnersAre(segments, p.events, |p.events|);
      assert Owners(segments, p.events).Keys == p.claimed;
      EventRowsAre(segments, p.events, |p.events|);
    }
  }

  /** An index is accepted exactly when it is the one its segments give. */
  function DecodeIndex(weekFor: int -> Option<P.Week>, index: Index, segments: seq<Segment>,
                       fits: bool): Outcome<Projection> {
    var built := Build(weekFor, segments, fits);
    if built.Bad? then Bad(built.error) else if built.value.0 != index then Bad(IndexMismatch) else Fine(built.value.1)
  }

  // --- The archive and the active rows ----------------------------------------------------------------------------

  datatype Overlap = Overlap(projection: Projection, archived: nat, active: nat, overlap: nat, suffix: nat)

  /** Active rows against the archived prefix: how many repeat it, and the rows after it. */
  function Sift(prefix: seq<Event>, active: seq<Event>, first: nat, owner: Owner): Outcome<(nat, seq<Event>)>
  {
    if active == [] then Fine((0, []))
    else
      var n := |active| - 1;
      var before := Sift(prefix, active[..n], first, owner);
      var e, sequence := active[n], first + n;
      if before.Bad? then before
      else if e.sequence != sequence then Bad(Gap)
      else if e.owner != owner then Bad(OtherOwner)
      else if 1 <= sequence <= |prefix| then
        if e != prefix[sequence - 1] then Bad(OverlapConflict) else Fine((before.value.0 + 1, before.value.1))
      else Fine((before.value.0, before.value.1 + [e]))
  }

  method SiftAll(prefix: seq<Event>, active: seq<Event>, first: nat, owner: Owner) returns (r: Outcome<(nat,
      seq<Event>)>)
    ensures r == Sift(prefix, active, first, owner)
  {
    var overlap: nat, suffix: seq<Event> := 0, [];
    for i := 0 to |active|
      invariant Sift(prefix, active[..i], first, owner) == Fine((overlap, suffix))
    {
      assert active[..i + 1][..i] == active[..i];
      var e, sequence := active[i], first + i;
      if e.sequence != sequence { SiftFails(prefix, active, i + 1, first, owner); return Bad(Gap); }
      if e.owner != owner { SiftFails(prefix, active, i + 1, first, owner); return Bad(OtherOwner); }
      if 1 <= sequence <= |prefix| {
        if e != prefix[sequence - 1] { SiftFails(prefix, active, i + 1, first, owner); return Bad(OverlapConflict); }
        overlap := overlap + 1;
      } else {
        suffix := suffix + [e];
      }
    }
    assert active[..|active|] == active;
    return Fine((overlap, suffix));
  }

  lemma {:induction false} SiftFails(prefix: seq<Event>, active: seq<Event>, i: nat, first: nat, owner: Owner)
    requires i <= |active| && Sift(prefix, active[..i], first, owner).Bad?
    ensures Sift(prefix, active, first, owner) == Sift(prefix, active[..i], first, owner)
    decreases |active|
  {
    if i == |active| {
      assert active[..i] == active;
    } else {
      assert active[..|active| - 1][..i] == active[..i];
      SiftFails(prefix, active[..|active| - 1], i, first, owner);
    }
  }

  function Compare(weekFor: int -> Option<P.Week>, segments: seq<Segment>, index: Index, active: seq<Event>,
                   head: (nat, Digest), fits: bool): Outcome<Overlap> {
    if active == [] || |active| > MAX_EVENTS || !(1 <= head.0 <= MAX_EVENTS) then Bad(OverlapInvalid)
    else
      var archive := DecodeIndex(weekFor, index, segments, fits);
      if archive.Bad? then Bad(IndexInvalid)
      else
        var p := archive.value;
        var prefix, first, last := p.events, active[0].sequence, active[|active| - 1];
        if exists e | e in active :: !WellFormed(e) then Bad(ActiveInvalid)
        else if !(first <= |prefix| + 1 && last.sequence >= |prefix|) then Bad(Gap)
        else if last.sequence != head.0 || Of(last) != head.1 then Bad(HeadConflict)
        else
          var sifted := Sift(prefix, active, first, p.owner);
          if sifted.Bad? then Bad(sifted.error)
          else
            var union := Replay(weekFor, prefix + sifted.value.1);
            if union.Err? then Bad(UnionInvalid)
            else if |union.value.events| != head.0 || Head(union.value) != head.1 then Bad(HeadConflict)
            else Fine(Overlap(union.value, |prefix|, |active|, sifted.value.0, |sifted.value.1|))
  }

  /** One more active row, in its place in the history. */
  lemma SiftOne(prefix: seq<Event>, active: seq<Event>, e: Event, first: nat, owner: Owner, overlap: nat,
                suffix: seq<Event>)
    requires Sift(prefix, active, first, owner) == Fine((overlap, suffix))
    requires first >= 1 && e.sequence == first + |active| && e.owner == owner
        && (e.sequence <= |prefix| ==> e == prefix[e.sequence - 1])
    ensures Sift(prefix, active + [e], first, owner) ==
            Fine(if e.sequence <= |prefix| then (overlap + 1, suffix) else (overlap, suffix + [e]))
  {
    assert (active + [e])[..|active|] == active;
  }

  lemma {:induction false} SiftHistory(events: seq<Event>, k: nat, f: nat, g: nat, owner: Owner)
    requires f <= k <= |events| && f <= g <= |events| && Chained(events) && OwnedBy(events, owner)
    ensures Sift(events[..k], events[f..g], f + 1, owner) ==
            Fine((if g <= k then g - f else k - f, if g <= k then [] else events[k..g]))
    decreases g
  {
    hide WellFormed, Sift, Chained, OwnedBy;
    if f == g {
      SiftNothing(events[..k], f + 1, owner);
      assert events[f..g] == [];
    } else {
      var e := events[g - 1];
      assert events[f..g - 1] + [e] == events[f..g];
      SiftHistory(events, k, f, g - 1, owner);
      InPlace(events, g - 1, owner);
      var suffix := if g - 1 <= k then [] else events[k..g - 1];
      SiftOne(events[..k], events[f..g - 1], e, f + 1, owner, if g - 1 <= k then g - 1 - f else k - f, suffix);
      if g > k { assert suffix + [e] == events[k..g]; }
    }
  }

  lemma SiftNothing(prefix: seq<Event>, first: nat, owner: Owner)
    ensures Sift(prefix, [], first, owner) == Fine((0, []))
  {
  }

  lemma InPlace(events: seq<Event>, i: nat, owner: Owner)
    requires i < |events| && Chained(events) && OwnedBy(events, owner)
    ensures events[i].sequence == i + 1 && events[i].owner == owner
  {
    assert Link(events, i);
  }

  lemma WindowFacts(weekFor: int -> Option<P.Week>, events: seq<Event>, f: nat)
    requires Replay(weekFor, events).Ok? && f < |events|
    ensures events != [] && |events| <= MAX_EVENTS && Fold(weekFor, events) == Replay(weekFor, events)
    ensures Chained(events) && OwnedBy(events, events[0].owner) && Replay(weekFor, events).value.events == events
    ensures Replay(weekFor, events).value.owner == events[0].owner
    ensures events[f].sequence == f + 1 && events[|events| - 1].sequence == |events|
    ensures forall e | e in events[f..] :: WellFormed(e)
  {
    hide Fold, WellFormed;
    ReplayBounds(weekFor, events);
    ReplayKeeps(weekFor, events);
    assert Link(events, f) && Link(events, |events| - 1);
    var part := events[f..];
    forall e | e in part ensures WellFormed(e) { var i :| 0 <= i < |part| && part[i] == e; assert e == events[f + i]; }
  }

  /** What the index of a split prefix stands for. */
  lemma SplitBuilds(weekFor: int -> Option<P.Week>, events: seq<Event>, cuts: seq<nat>, fits: bool)
    requires Replay(weekFor, events).Ok? && Cuts(cuts, |events|) && cuts != []
    ensures var r := Build(weekFor, Split(events, cuts), fits);
            if r.Bad? then r.error == Capacity || |cuts| > MAX_SEGMENTS
            else Replay(weekFor, events[..cuts[|cuts| - 1]]) == AccountingTransition.Ok(r.value.1)
  {
    hide Replay, Verified, Fold, Owners, EventRows, Sequences, Split;
    SplitVerifies(weekFor, events, cuts);
    IndexNeverConflicts(weekFor, Split(events, cuts), fits);
    PriorGenuine(weekFor, events, cuts[|cuts| - 1]);
  }

  /** Comparing a window with the projection of a prefix. */
  lemma WindowCompares(weekFor: int -> Option<P.Week>, events: seq<Event>, k: nat, f: nat, segments: seq<Segment>,
                       index: Index, p: Projection, fits: bool)
    requires Replay(weekFor, events).Ok? && f <= k <= |events| && 0 < k && f < |events|
    requires DecodeIndex(weekFor, index, segments, fits) == Fine(p)
    requires Replay(weekFor, events[..k]) == AccountingTransition.Ok(p)
    ensures Compare(weekFor, segments, index, events[f..], (|events|, Of(events[|events| - 1])), fits) ==
            Fine(Overlap(Replay(weekFor, events).value, k, |events| - f, k - f, |events| - k))
  {
    hide Replay, Fold, WellFormed, Sift, DecodeIndex;
    WindowFacts(weekFor, events, f);
    WindowFacts(weekFor, events[..k], 0);
    assert events[..k][0] == events[0];
    var active := events[f..];
    SiftHistory(events, k, f, |events|, events[0].owner);
    assert events[f..|events|] == active;
    assert active[0] == events[f] && active[|active| - 1] == events[|events| - 1];
    var suffix := if |events| <= k then [] else events[k..|events|];
    assert events[..k] + suffix == events;
  }

  /** The archive and the active rows agree with plain replay: for every replayable history, every
      split of a prefix into segments, and every window of active rows that starts no later than
      one past that prefix and runs to the end, the comparison either meets a size cap or returns
      the replay of the whole history, with every active row counted once. */
  lemma UnionEqualsReplay(weekFor: int -> Option<P.Week>, events: seq<Event>, cuts: seq<nat>, f: nat, fits: bool)
    requires Replay(weekFor, events).Ok? && Cuts(cuts, |events|) && cuts != [] && f <= cuts[|cuts| - 1] && f < |events|
    ensures var segments, k := Split(events, cuts), cuts[|cuts| - 1];
            var built := Build(weekFor, segments, fits);
            if built.Bad? then built.error == Capacity || |cuts| > MAX_SEGMENTS
            else
              Compare(weekFor, segments, built.value.0, events[f..], (|events|, Of(events[|events| - 1])), fits) ==
              Fine(Overlap(Replay(weekFor, events).value, k, |events| - f, k - f, |events| - k))
  {
    hide Replay, Build, Compare, Split;
    SplitBuilds(weekFor, events, cuts, fits);
    var built := Build(weekFor, Split(events, cuts), fits);
    if built.Fine? {
      WindowCompares(weekFor, events, cuts[|cuts| - 1], f, Split(events, cuts), built.value.0, built.value.1, fits);
    }
  }
}
