/** The projection as the journal keeps it: one object, changed in place by verified commits. */
module JournalProjector {
  import opened Text
  import opened Journal
  import opened JournalReplay

  /** Whether the records frame one commit, by one pass over their positions. */
  method CheckFraming(records: seq<Record>) returns (ok: bool)
    ensures ok == Framed(records)
  {
    if records == [] { return false; }
    var first := records[0].position;
    if |records| != first.commitSize { return false; }
    for i := 0 to |records|
      invariant forall j | 0 <= j < i ::
        records[j].position.commitSeq == first.commitSeq && records[j].position.commitSize == |records|
            && records[j].position.commitIndex == j
    {
      var pos := records[i].position;
      if pos.commitSeq != first.commitSeq || pos.commitSize != |records| || pos.commitIndex != i { return false; }
    }
    ok := true;
  }

  /** Whether the records continue the digest chain, carrying the expected number and digest along. */
  method CheckChain(records: seq<Record>, eventSeq: nat, prev: Digest) returns (ok: bool)
    ensures ok == Linked(records, eventSeq, prev)
  {
    var expectedSeq, expectedPrev := eventSeq, prev;
    assert records[0..] == records;
    for i := 0 to |records|
      invariant Linked(records, eventSeq, prev) == Linked(records[i..], expectedSeq, expectedPrev)
    {
      assert records[i..][0] == records[i] && records[i..][1..] == records[i + 1..];
      var pos := records[i].position;
      if pos.eventSeq != expectedSeq || pos.prev != expectedPrev { return false; }
      expectedSeq, expectedPrev := expectedSeq + 1, Of(records[i]);
    }
    ok := true;
  }

  lemma MoveOne<K, V>(m: map<K, V>, todo: map<K, V>, k: K)
    requires k in todo
    ensures m[k := todo[k]] + (todo - {k}) == m + todo && (todo - {k}).Keys < todo.Keys
  {
    var left, right := m[k := todo[k]] + (todo - {k}), m + todo;
    assert left.Keys == right.Keys;
    assert forall j | j in left.Keys :: left[j] == right[j];
  }

  class Projector {
    var core: Core
    var front: Front
    var claims: Claims

    ghost function State(): Projection
      reads this
    {
      Projection(core, front, claims)
    }

    constructor ()
      ensures State() == EMPTY
    {
      core, front, claims := EMPTY.core, EMPTY.front, EMPTY.claims;
    }

    /** Every check of a commit, changing nothing. */
    method VerifyCommit(records: seq<Record>) returns (r: Result<Delta>)
      ensures r == Verify(State(), records)
    {
      hide VerifyShape, Framed, Linked, SameBoot, SameStamp, InGeneration;
      var framed := CheckFraming(records);
      if !framed { return Err(Framing); }
      FramedSome(records);
      if records[0].position.commitSeq != NextCommit(core) { return Err(Framing); }
      var linked := CheckChain(records, NextEvent(core), HeadDigest(core));
      if !linked { return Err(Chain); }
      if !InGeneration(records, GenerationOf(core)) { return Err(Generation); }
      if !SameBoot(records) { return Err(Boot); }
      if !SameStamp(records) { return Err(Clock); }
      r := VerifyShape(Projection(core, front, claims), records);
    }

    /** The pending entries of a delta, written one by one. */
    method WritePending(updates: map<Fingerprint, Pending>)
      modifies this`front
      ensures front == old(front).(pending := old(front).pending + updates)
    {
      var todo := updates;
      while todo != map[]
        invariant front == old(front).(pending := front.pending)
        invariant front.pending + todo == old(front).pending + updates
        decreases todo.Keys
      {
        var fp :| fp in todo;
        MoveOne(front.pending, todo, fp);
        front := front.(pending := front.pending[fp := todo[fp]]);
        todo := todo - {fp};
      }
      assert front.pending + todo == front.pending;
    }

    /** Applies a verified delta; nothing here can fail. */
    method ApplyDelta(d: Delta)
      modifies this
      ensures State() == Apply(old(State()), d)
    {
      hide AddClaim;
      if d.newBoot {
        core := core.(recovered := core.head, bootStart := d.head.commitSeq);
      }
      core := core.(head := Some(d.head), generation := d.head.generation);
      if d.opens.Some? {
        core := core.(uuid := Some(d.opens.value.0), bounds := d.opens.value.1);
      }
      core := core.(boot := Some(d.boot), lastMono := d.lastMono);
      if d.newBoot {
        core := core.(seenBoots := core.seenBoots + {d.boot});
      }
      core := core.(bytes := d.bytes);
      assert core == ApplyCore(old(core), d);
      front := front.(admissions := d.admissions, lastArrival := d.lastArrival);
      match d.change
      case Nothing =>
      case Admit(group, baseline, updates) =>
        front := front.(baselines := front.baselines[group := baseline]);
        WritePending(updates);
      case Hold(code) =>
        if code !in front.holds {
          front := front.(holds := front.holds[code := d.head.commitSeq]);
        }
      case Refuse(key, unreserved) =>
        front := front.(refusalKeys := front.refusalKeys + {key}, refusals := front.refusals + 1);
        if unreserved {
          front := front.(unreserved := front.unreserved + 1);
        }
      case Clear(hold) =>
        front := front.(holds := front.holds - {hold});
        front := front.(resumes := front.resumes + 1);
      case Add(claim) =>
        claims := AddClaim(claims, claim);
    }

    /** The live path: a commit that fails verification leaves no trace. */
    method Commit(records: seq<Record>) returns (error: Option<Error>)
      modifies this
      ensures error.None? <==> Accepts(old(State()), records)
      ensures error.None? ==> State() == After(old(State()), records)
      ensures error.Some? ==> State() == old(State()) && Verify(State(), records) == Err(error.value)
    {
      hide Verify, Apply;
      var r := VerifyCommit(records);
      if r.Err? { return Some(r.error); }
      ApplyDelta(r.value);
      error := None;
    }
  }

  /** One step of the replay. */
  lemma ReplayStep(p: Projection, here: seq<Record>)
    ensures here == [] ==> ReplayFrom(p, here) == Ok(p)
    ensures here != [] && FirstCommit(here).Err? ==> ReplayFrom(p, here) == Err(FirstCommit(here).error)
    ensures here != [] && FirstCommit(here).Ok? ==>
      var n := FirstCommit(here).value;
      ReplayFrom(p, here) == if Accepts(p, here[..n]) then ReplayFrom(After(p, here[..n]), here[n..])
          else Err(Verify(p, here[..n]).error)
  {
    hide Verify, Apply, FirstCommit;
  }

  /** Replays a record stream into a fresh projection, or reports the first fault. */
  method Replay(records: seq<Record>) returns (p: Projector, error: Option<Error>)
    ensures fresh(p)
    ensures error.None? ==> ReplayFrom(EMPTY, records) == Ok(p.State())
    ensures error.Some? ==> ReplayFrom(EMPTY, records) == Err(error.value)
  {
    hide ReplayFrom, Accepts, After, Verify;
    p := new Projector();
    var current, i := [], 0;
    assert records[0..] == records;
    while i < |records|
      invariant fresh(p)
      invariant |current| <= i <= |records|
      invariant current == records[i - |current|..i]
      invariant ReplayFrom(EMPTY, records) == ReplayFrom(p.State(), records[i - |current|..])
      invariant current != [] ==> Partial(records[i - |current|..], |current|)
    {
      var record, s := records[i], i - |current|;
      ghost var here := records[s..];
      assert here[|current|] == record && (current != [] ==> here[0] == current[0]);
      ReplayStep(p.State(), here);
      if current == [] {
        if record.position.commitIndex != 0 { return p, Some(Framing); }
      } else if record.position.commitSeq != current[0].position.commitSeq
                || record.position.commitSize != current[0].position.commitSize
                    || record.position.commitIndex != |current| {
        return p, Some(Framing);
      }
      current := current + [record];
      i := i + 1;
      assert current == here[..|current|] && Grow(here, |current|) == FirstCommit(here);
      if |current| == current[0].position.commitSize {
        assert here[|current|..] == records[i..];
        error := p.Commit(current);
        if error.Some? { return p, error; }
        current := [];
      }
    }
    ReplayStep(p.State(), records[i - |current|..]);
    if current != [] { return p, Some(TailIncomplete); }
    error := None;
  }
}
