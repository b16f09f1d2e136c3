/** Exactly what the archive accepts: segments are accepted when they are the stretches of some replayable
    history, and the active rows when they are a window of one history that the archive begins. */
module ArchiveAnswers {
  import opened Text
  import P = AccountingPolicy
  import T = AccountingTransition
  import opened AccountingArchive

  // --- One segment ----------------------------------------------------------------------------------

  lemma {:induction false} FramedAsIs(frames: seq<Frame>, first: nat, before: T.Digest, owner: T.Owner)
    requires Unframe(frames, first, before, owner).Fine?
    ensures frames == Frames(Unframe(frames, first, before, owner).value, first)
    decreases |frames|
  {
    hide T.WellFormed;
    if frames != [] {
      FramedAsIs(frames[1..], first + 1, T.Of(frames[0].event), owner);
      var rest := Unframe(frames[1..], first + 1, T.Of(frames[0].event), owner).value;
      var all := Frames([frames[0].event] + rest, first);
      assert all[1..] == Frames(rest, first + 1);
      assert frames == [frames[0]] + frames[1..] && all == [all[0]] + all[1..];
    }
  }

  function Before(prior: Option<T.Projection>): seq<T.Event> { if prior.None? then [] else prior.value.events }

  /** A segment is what the events after its prior add to them. */
  ghost predicate Adds(weekFor: int -> Option<P.Week>, s: Segment, prior: Option<T.Projection>, events: seq<T.Event>) {
    var lo := |Before(prior)|;
    && T.Replay(weekFor, events).Ok? && lo < |events| && Before(prior) == events[..lo]
    && prior == PriorOf(weekFor, events, lo) && s == StretchSegment(events, lo, |events|)
  }

  lemma DecodedAdds(weekFor: int -> Option<P.Week>, s: Segment, prior: Option<T.Projection>)
    requires DecodeSegment(weekFor, s, prior).Fine?
    ensures var p := DecodeSegment(weekFor, s, prior).value;
            Adds(weekFor, s, prior, p.events) && T.Replay(weekFor, p.events) == T.Ok(p)
  {
    hide T.Fold, Unframe, Frames;
    var prefix := Prior(weekFor, prior).value;
    var events := Unframe(s.frames, s.first, s.start, s.owner).value;
    var p := DecodeSegment(weekFor, s, prior).value;
    var lo := |prefix|;
    assert prefix == Before(prior);
    FramedAsIs(s.frames, s.first, s.start, s.owner);
    UnframedLength(s.frames, s.first, s.start, s.owner);
    ReplayBounds(weekFor, prefix + events);
    T.ReplayKeeps(weekFor, prefix + events);
    assert p.events == prefix + events;
    assert p.events[..lo] == prefix && p.events[lo..] == events && p.events[..|p.events|] == p.events;
    assert p.events[lo].owner == p.owner;
  }

  /** A segment is accepted on its prior exactly when some replayable history goes on from that prior by just
      this segment; what it decodes to is that history's replay. */
  lemma DecodeExactly(weekFor: int -> Option<P.Week>, s: Segment, prior: Option<T.Projection>)
    ensures DecodeSegment(weekFor, s, prior).Fine? <==> exists events :: Adds(weekFor, s, prior, events)
    ensures forall events | Adds(weekFor, s, prior, events) ::
              DecodeSegment(weekFor, s, prior) == Fine(T.Replay(weekFor, events).value)
  {
    hide DecodeSegment, T.Replay, StretchSegment;
    if DecodeSegment(weekFor, s, prior).Fine? { DecodedAdds(weekFor, s, prior); }
    forall events | Adds(weekFor, s, prior, events)
      ensures DecodeSegment(weekFor, s, prior) == Fine(T.Replay(weekFor, events).value)
    {
      StretchDecodes(weekFor, events, |Before(prior)|, |events|);
      assert events[..|events|] == events;
    }
  }

  // --- Segments one after the other -------------------------------------------------------------------

  lemma StretchPrefix(events: seq<T.Event>, k: nat, lo: nat, hi: nat)
    requires lo < hi <= k <= |events|
    ensures StretchSegment(events[..k], lo, hi) == StretchSegment(events, lo, hi)
  {
    hide Frames, LastDigest;
    assert events[..k][..lo] == events[..lo] && events[..k][..hi] == events[..hi];
    assert events[..k][lo..hi] == events[lo..hi];
  }

  lemma CutsMore(cuts: seq<nat>, k: nat, n: nat)
    requires Cuts(cuts, k) && k <= n
    ensures Cuts(cuts, n)
  {
  }

  lemma {:induction false} SplitPrefix(events: seq<T.Event>, k: nat, cuts: seq<nat>)
    requires k <= |events| && Cuts(cuts, k)
    ensures Cuts(cuts, |events|) && Split(events[..k], cuts) == Split(events, cuts)
    decreases |cuts|
  {
    hide StretchSegment;
    CutsMore(cuts, k, |events|);
    if cuts != [] {
      var n := |cuts| - 1;
      CutsShorter(cuts, k);
      SplitPrefix(events, k, cuts[..n]);
      StretchPrefix(events, k, if n == 0 then 0 else cuts[n - 1], cuts[n]);
    }
  }

  /** The segments are the history, cut up. */
  ghost predicate CutFrom(weekFor: int -> Option<P.Week>, segments: seq<Segment>, events: seq<T.Event>,
                          cuts: seq<nat>) {
    && T.Replay(weekFor, events).Ok? && Cuts(cuts, |events|) && cuts != [] && cuts[|cuts| - 1] == |events|
    && segments == Split(events, cuts)
  }

  lemma {:induction false} VerifiedCut(weekFor: int -> Option<P.Week>, segments: seq<Segment>) returns (cuts: seq<nat>)
    requires segments != [] && Verified(weekFor, segments).Fine?
    ensures var v := Verified(weekFor, segments).value;
            && v.Some? && CutFrom(weekFor, segments, v.value.events, cuts)
            && T.Replay(weekFor, v.value.events) == T.Ok(v.value)
    decreases |segments|
  {
    hide DecodeSegment, T.Replay, StretchSegment, PriorOf;
    var n := |segments| - 1;
    var before, s := segments[..n], segments[n];
    var prior := Verified(weekFor, before).value;
    DecodedAdds(weekFor, s, prior);
    var p := Verified(weekFor, segments).value.value;
    var lo := |Before(prior)|;
    if n == 0 {
      cuts := [|p.events|];
      assert Split(p.events, cuts[..0]) == [];
    } else {
      var earlier := VerifiedCut(weekFor, before);
      SplitPrefix(p.events, lo, earlier);
      cuts := earlier + [|p.events|];
      assert cuts[..|earlier|] == earlier;
    }
    assert segments == before + [s];
  }

  /** Segments are accepted exactly when they are some replayable history cut up, and then they stand for its
      replay. */
  lemma VerifiedExactly(weekFor: int -> Option<P.Week>, segments: seq<Segment>)
    requires segments != []
    ensures Verified(weekFor, segments).Fine? <==> exists events, cuts :: CutFrom(weekFor, segments, events, cuts)
    ensures forall events, cuts | CutFrom(weekFor, segments, events, cuts) ::
              Verified(weekFor, segments) == Fine(Some(T.Replay(weekFor, events).value))
  {
    hide Verified, T.Replay, Split;
    if Verified(weekFor, segments).Fine? {
      var cuts := VerifiedCut(weekFor, segments);
      assert CutFrom(weekFor, segments, Verified(weekFor, segments).value.value.events, cuts);
    }
    forall events, cuts | CutFrom(weekFor, segments, events, cuts)
      ensures Verified(weekFor, segments) == Fine(Some(T.Replay(weekFor, events).value))
    {
      SplitVerifies(weekFor, events, cuts);
      assert events[..|events|] == events;
    }
  }

  /** Encoding succeeds exactly when the prior is genuine, the events go on from it and the bytes fit. */
  lemma EncodeExactly(weekFor: int -> Option<P.Week>, events: seq<T.Event>, prior: Option<T.Projection>, fits: bool)
    ensures var all := Before(prior) + events;
            var r := EncodeSegment(weekFor, events, prior, fits);
            && (r.Fine? <==> && fits && events != [] && T.Replay(weekFor, all).Ok?
                             && prior == PriorOf(weekFor, all, |Before(prior)|))
            && (r.Fine? ==> r.value == (StretchSegment(all, |Before(prior)|, |all|), T.Replay(weekFor, all).value))
  {
    hide DecodeSegment, T.Replay, T.WellFormed, StretchSegment, LastDigest, Frames;
    var lo, all := |Before(prior)|, Before(prior) + events;
    assert all[..lo] == Before(prior) && all[lo..|all|] == events && all[..|all|] == all;
    var r := EncodeSegment(weekFor, events, prior, fits);
    if r.Fine? {
      DecodedAdds(weekFor, r.value.0, prior);
      EncodedWhole(weekFor, events, prior, fits);
    }
    if fits && events != [] && T.Replay(weekFor, all).Ok? && prior == PriorOf(weekFor, all, lo) {
      StretchEncodes(weekFor, all, lo, |all|, fits);
    }
  }

  lemma EncodedWhole(weekFor: int -> Option<P.Week>, events: seq<T.Event>, prior: Option<T.Projection>, fits: bool)
    requires EncodeSegment(weekFor, events, prior, fits).Fine?
    ensures EncodeSegment(weekFor, events, prior, fits).value.1.events == Before(prior) + events
  {
    hide DecodeSegment, T.Replay, T.WellFormed, LastDigest;
    var (s, p) := EncodeSegment(weekFor, events, prior, fits).value;
    DecodedAdds(weekFor, s, prior);
    var lo := |Before(prior)|;
    assert forall i | 0 <= i < |events| :: s.frames[i].event == events[i];
    var added := p.events[lo..|p.events|];
    assert forall i | 0 <= i < |added| :: s.frames[i].event == added[i];
    assert |s.frames| == |added| == |events| && added == events;
    assert p.events == p.events[..lo] + added;
  }

  // --- The index --------------------------------------------------------------------------------------

  ghost predicate Roomy(p: T.Projection, fits: bool) { fits && |p.events| + |p.claimed| <= 65_536 }

  /** The index is built exactly from at most 256 segments of one history, when its rows fit. */
  lemma BuildExactly(weekFor: int -> Option<P.Week>, segments: seq<Segment>, fits: bool)
    ensures var r := Build(weekFor, segments, fits);
            var v := Verified(weekFor, segments);
            && (r.Fine? <==> 1 <= |segments| <= 256 && v.Fine? && v.value.Some? && Roomy(v.value.value, fits))
            && (r.Fine? ==> r.value.1 == v.value.value && r.value.0.segments == segments)
  {
    hide Verified, Sequences, T.Replay, T.Claims, Holder, T.Fold, OwnersUpTo, EventRows, ClaimedBefore;
    var v := Verified(weekFor, segments);
    if segments != [] && v.Fine? {
      VerifiedCovers(weekFor, segments);
      var p := v.value.value;
      RangeSize(|p.events|);
      ReplayBounds(weekFor, p.events);
      ClaimedIs(weekFor, p.events);
      OwnersAre(segments, p.events, |p.events|);
      var owners := Owners(segments, p.events);
      assert owners.Keys == p.claimed && |owners| == |owners.Keys|;
      EventRowsAre(segments, p.events, |p.events|);
    }
  }

  // --- The active rows -----------------------------------------------------------------------------------

  /** Rows are a window of the archived events and what follows them. */
  ghost predicate InWindow(prefix: seq<T.Event>, active: seq<T.Event>, first: nat, suffix: seq<T.Event>)
    requires 1 <= first <= |prefix| + 1
  {
    var lo, hi := first - 1, first - 1 + |active|;
    && |suffix| == (if hi <= |prefix| then 0 else hi - |prefix|)
    && active == (prefix + suffix)[lo..hi]
  }

  lemma WindowSame(prefix: seq<T.Event>, active: seq<T.Event>, e: T.Event, first: nat, suffix: seq<T.Event>)
    requires 1 <= first <= |prefix| + 1 && InWindow(prefix, active, first, suffix)
    requires first + |active| <= |prefix| && e == prefix[first + |active| - 1]
    ensures InWindow(prefix, active + [e], first, suffix)
  {
    assert prefix + suffix == prefix;
  }

  lemma WindowMore(prefix: seq<T.Event>, active: seq<T.Event>, e: T.Event, first: nat, suffix: seq<T.Event>)
    requires 1 <= first <= |prefix| + 1 && InWindow(prefix, active, first, suffix) && first + |active| > |prefix|
    ensures InWindow(prefix, active + [e], first, suffix + [e])
  {
    assert prefix + (suffix + [e]) == (prefix + suffix) + [e];
  }

  lemma {:induction false} SiftedWindow(prefix: seq<T.Event>, active: seq<T.Event>, first: nat, owner: T.Owner)
    requires 1 <= first <= |prefix| + 1 && Sift(prefix, active, first, owner).Fine?
    ensures InWindow(prefix, active, first, Sift(prefix, active, first, owner).value.1)
    ensures active != [] ==> active[|active| - 1].sequence == first - 1 + |active|
    decreases |active|
  {
    hide InWindow;
    if active == [] {
      NoWindow(prefix, first);
    } else {
      var n := |active| - 1;
      var before, e := active[..n], active[n];
      SiftedWindow(prefix, before, first, owner);
      assert active == before + [e];
      var suffix := Sift(prefix, before, first, owner).value.1;
      if first + n <= |prefix| {
        WindowSame(prefix, before, e, first, suffix);
      } else {
        WindowMore(prefix, before, e, first, suffix);
      }
    }
  }

  lemma NoWindow(prefix: seq<T.Event>, first: nat)
    requires 1 <= first <= |prefix| + 1
    ensures InWindow(prefix, [], first, [])
  {
    assert prefix + [] == prefix;
  }

  /** The archive and the active rows are parts of one history: the segments its beginning cut up, the rows its
      end, the head its last event. */
  ghost predicate Reunited(weekFor: int -> Option<P.Week>, segments: seq<Segment>, active: seq<T.Event>,
                           head: (nat, T.Digest), events: seq<T.Event>, k: nat, f: nat) {
    && T.Replay(weekFor, events).Ok? && 0 < k <= |events| && f <= k && f < |events|
    && (exists cuts :: CutFrom(weekFor, segments, events[..k], cuts))
    && active == events[f..] && head == (|events|, T.Of(events[|events| - 1]))
  }

  /** What a successful comparison has found. */
  ghost predicate Found(weekFor: int -> Option<P.Week>, p: T.Projection, active: seq<T.Event>, head: (nat, T.Digest)) {
    && active != [] && (forall e | e in active :: T.WellFormed(e))
    && active[0].sequence <= |p.events| + 1 && |p.events| <= active[|active| - 1].sequence
    && head == (active[|active| - 1].sequence, T.Of(active[|active| - 1]))
    && var sifted := Sift(p.events, active, active[0].sequence, p.owner);
       sifted.Fine? && T.Replay(weekFor, p.events + sifted.value.1).Ok?
  }

  lemma ComparedFound(weekFor: int -> Option<P.Week>, segments: seq<Segment>, index: Index, active: seq<T.Event>,
                      head: (nat, T.Digest), fits: bool)
    requires Compare(weekFor, segments, index, active, head, fits).Fine?
    ensures Build(weekFor, segments, fits).Fine? && Build(weekFor, segments, fits).value.0 == index
    ensures Found(weekFor, Build(weekFor, segments, fits).value.1, active, head)
  {
    hide Build, T.Replay, Sift, T.WellFormed;
  }

  lemma FoundReunites(weekFor: int -> Option<P.Week>, segments: seq<Segment>, active: seq<T.Event>,
                      head: (nat, T.Digest), fits: bool)
    returns (events: seq<T.Event>, k: nat, f: nat)
    requires Build(weekFor, segments, fits).Fine?
    requires Found(weekFor, Build(weekFor, segments, fits).value.1, active, head)
    ensures Reunited(weekFor, segments, active, head, events, k, f)
  {
    hide Build, T.Replay, Sift, CutFrom, T.WellFormed, T.Fold;
    var p := Build(weekFor, segments, fits).value.1;
    BuildExactly(weekFor, segments, fits);
    var cuts := VerifiedCut(weekFor, segments);
    var prefix, first := p.events, active[0].sequence;
    FirstNumbered(active);
    SiftedWindow(prefix, active, first, p.owner);
    var all := prefix + Sift(prefix, active, first, p.owner).value.1;
    CutNotEmpty(weekFor, segments, prefix, cuts);
    events, k, f := all, |prefix|, first - 1;
    assert all[..k] == prefix && active == all[f..] && all[|all| - 1] == active[|active| - 1];
  }

  lemma CutNotEmpty(weekFor: int -> Option<P.Week>, segments: seq<Segment>, events: seq<T.Event>, cuts: seq<nat>)
    requires CutFrom(weekFor, segments, events, cuts)
    ensures events != []
  {
    hide Split;
  }

  lemma FirstNumbered(active: seq<T.Event>)
    requires active != [] && forall e | e in active :: T.WellFormed(e)
    ensures active[0].sequence >= 1
  {
    assert active[0] in active;
  }

  /** The comparison succeeds exactly when the archive and the active rows are parts of one replayable history,
      the index is the one the segments give and its rows fit. */
  lemma CompareExactly(weekFor: int -> Option<P.Week>, segments: seq<Segment>, index: Index, active: seq<T.Event>,
                       head: (nat, T.Digest), fits: bool)
    ensures Compare(weekFor, segments, index, active, head, fits).Fine? <==>
            && Build(weekFor, segments, fits).Fine? && Build(weekFor, segments, fits).value.0 == index
            && exists events: seq<T.Event>, k: nat, f: nat ::
                 Reunited(weekFor, segments, active, head, events, k, f)
  {
    hide Build, T.Replay, Compare, Reunited, Found;
    var r, built := Compare(weekFor, segments, index, active, head, fits), Build(weekFor, segments, fits);
    if r.Fine? {
      ComparedFound(weekFor, segments, index, active, head, fits);
      var events, k, f := FoundReunites(weekFor, segments, active, head, fits);
    }
    if built.Fine? && built.value.0 == index {
      forall events: seq<T.Event>, k: nat, f: nat | Reunited(weekFor, segments, active, head, events, k, f)
        ensures r.Fine?
      {
        ReunitedCompares(weekFor, segments, index, active, head, fits, events, k, f);
      }
    }
  }

  /** It then returns that history's replay and the sizes of the parts. */
  lemma ReunitedCompares(weekFor: int -> Option<P.Week>, segments: seq<Segment>, index: Index, active: seq<T.Event>,
                         head: (nat, T.Digest), fits: bool, events: seq<T.Event>, k: nat, f: nat)
    requires Build(weekFor, segments, fits).Fine? && Build(weekFor, segments, fits).value.0 == index
    requires Reunited(weekFor, segments, active, head, events, k, f)
    ensures Compare(weekFor, segments, index, active, head, fits) ==
            Fine(Overlap(T.Replay(weekFor, events).value, k, |active|, k - f, |events| - k))
  {
    hide Build, T.Replay, Compare, Split;
    var cuts :| CutFrom(weekFor, segments, events[..k], cuts);
    SplitPrefix(events, k, cuts);
    UnionEqualsReplay(weekFor, events, cuts, f, fits);
  }
}
