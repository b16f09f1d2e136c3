/** Grouping the flat record stream into commits, and replaying it into a projection. */
module JournalReplay {
  import opened Text
  import opened Journal

  // --- Grouping, as functions ------------------------------------------------------------------------

  /** Whether the record at `n` continues the commit that starts the stream. */
  predicate Continues(records: seq<Record>, n: nat)
    requires 0 < n < |records|
  {
    var first, here := records[0].position, records[n].position;
    here.commitSeq == first.commitSeq && here.commitSize == first.commitSize && here.commitIndex == n
  }

  /** The size of the first commit, its first `n` records having been taken. */
  function Grow(records: seq<Record>, n: nat): Result<nat>
    requires 0 < n <= |records|
    decreases |records| - n
  {
    if n == records[0].position.commitSize then Ok(n)
    else if n == |records| then Err(TailIncomplete)
    else if !Continues(records, n) then Err(Framing)
    else Grow(records, n + 1)
  }

  function FirstCommit(records: seq<Record>): (r: Result<nat>)
    requires records != []
    ensures r.Ok? ==> 0 < r.value <= |records|
  {
    if records[0].position.commitIndex != 0 then Err(Framing)
    else
      GrowBound(records, 1);
      Grow(records, 1)
  }

  lemma {:induction false} GrowBound(records: seq<Record>, n: nat)
    requires 0 < n <= |records|
    ensures Grow(records, n).Ok? ==> n <= Grow(records, n).value <= |records|
    decreases |records| - n
  {
    if n < |records| {
      GrowBound(records, n + 1);
    }
  }

  function Prepend(groups: seq<seq<Record>>, rest: Result<seq<seq<Record>>>): Result<seq<seq<Record>>> {
    if rest.Ok? then Ok(groups + rest.value) else rest
  }

  function Groups(records: seq<Record>): Result<seq<seq<Record>>>
    decreases |records|
  {
    if records == [] then Ok([])
    else
      match FirstCommit(records)
      case Err(e) => Err(e)
      case Ok(n) => Prepend([records[..n]], Groups(records[n..]))
  }

  /** Commits are verified as soon as they are complete, so the first fault in stream order wins. */
  function ReplayFrom(p: Projection, records: seq<Record>): Result<Projection>
    decreases |records|
  {
    if records == [] then Ok(p)
    else
      match FirstCommit(records)
      case Err(e) => Err(e)
      case Ok(n) =>
        match Verify(p, records[..n])
        case Err(e) => Err(e)
        case Ok(d) => ReplayFrom(Apply(p, d), records[n..])
  }

  function Flatten(commits: seq<seq<Record>>): seq<Record>
    decreases |commits|
  {
    if commits == [] then [] else commits[0] + Flatten(commits[1..])
  }

  // --- Grouping inverts flattening ---------------------------------------------------------------------

  lemma {:induction false} GrowFramed(commit: seq<Record>, rest: seq<Record>, n: nat)
    requires Framed(commit) && 0 < n <= |commit|
    ensures Grow(commit + rest, n) == Ok(|commit|)
    decreases |commit| - n
  {
    if n < |commit| {
      assert (commit + rest)[n] == commit[n];
      GrowFramed(commit, rest, n + 1);
    }
  }

  lemma FirstFramed(commit: seq<Record>, rest: seq<Record>)
    requires Framed(commit)
    ensures FirstCommit(commit + rest) == Ok(|commit|)
  {
    GrowFramed(commit, rest, 1);
  }

  lemma {:induction false} GrowTakes(records: seq<Record>, n: nat)
    requires 0 < n <= |records| && Grow(records, n).Ok? && records[0].position.commitIndex == 0
    requires forall i | 0 < i < n :: Continues(records, i)
    ensures n <= Grow(records, n).value <= |records| && Framed(records[..Grow(records, n).value])
    decreases |records| - n
  {
    if n != records[0].position.commitSize {
      GrowTakes(records, n + 1);
    } else {
      assert forall i | 0 <= i < n :: records[..n][i] == records[i] && (i > 0 ==> Continues(records, i));
    }
  }

  /** Grouping undoes flattening, for any commits that are framed at all. */
  lemma {:induction false} GroupsFlatten(commits: seq<seq<Record>>)
    requires forall i | 0 <= i < |commits| :: Framed(commits[i])
    ensures Groups(Flatten(commits)) == Ok(commits)
    decreases |commits|
  {
    hide FirstCommit, Framed;
    if commits != [] {
      var c, rest := commits[0], Flatten(commits[1..]);
      FirstFramed(c, rest);
      assert c != [] by { FramedSome(c); }
      assert (c + rest)[..|c|] == c && (c + rest)[|c|..] == rest;
      GroupsFlatten(commits[1..]);
      assert [c] + commits[1..] == commits;
    }
  }

  lemma FramedSome(c: seq<Record>)
    requires Framed(c)
    ensures c != []
  {
  }

  /** And it only ever returns framed commits whose flattening is the stream. */
  lemma {:induction false} GroupsSound(records: seq<Record>)
    requires Groups(records).Ok?
    ensures Flatten(Groups(records).value) == records
    ensures forall i | 0 <= i < |Groups(records).value| :: Framed(Groups(records).value[i])
    decreases |records|
  {
    hide Framed;
    if records != [] {
      var n := FirstCommit(records).value;
      GrowTakes(records, 1);
      GroupsSound(records[n..]);
      var rest := Groups(records[n..]).value;
      assert Groups(records).value == [records[..n]] + rest;
      assert Groups(records).value[1..] == rest;
      assert records[..n] + records[n..] == records;
    }
  }

  // --- The live path is the replayed one ------------------------------------------------------------------

  lemma AcceptedFramed(p: Projection, records: seq<Record>)
    requires Accepts(p, records)
    ensures Framed(records)
  {
    hide Framed, VerifyShape;
  }

  /** Applying commits one by one gives exactly what replaying the flat stream gives. */
  lemma {:induction false} LiveIsReplay(p: Projection, commits: seq<seq<Record>>)
    requires Accepted(p, commits)
    ensures ReplayFrom(p, Flatten(commits)) == Ok(Fold(p, commits))
    ensures Groups(Flatten(commits)) == Ok(commits)
    decreases |commits|
  {
    hide FirstCommit, Framed, Verify, Apply;
    if commits != [] {
      var c, rest := commits[0], Flatten(commits[1..]);
      AcceptedFramed(p, c);
      FramedSome(c);
      FirstFramed(c, rest);
      assert (c + rest)[..|c|] == c && (c + rest)[|c|..] == rest;
      LiveIsReplay(After(p, c), commits[1..]);
      assert [c] + commits[1..] == commits;
    }
  }

  /** Whatever replays was once live: the stream groups into accepted commits. */
  lemma {:induction false} ReplayIsLive(p: Projection, records: seq<Record>)
    requires ReplayFrom(p, records).Ok?
    ensures Groups(records).Ok? && Flatten(Groups(records).value) == records
    ensures Accepted(p, Groups(records).value) && ReplayFrom(p, records) == Ok(Fold(p, Groups(records).value))
    decreases |records|
  {
    hide Framed, Verify, Apply, FirstCommit;
    if records != [] {
      var n := FirstCommit(records).value;
      var c := records[..n];
      var q := After(p, c);
      ReplayIsLive(q, records[n..]);
      var rest := Groups(records[n..]).value;
      assert Groups(records).value == [c] + rest;
      assert ([c] + rest)[1..] == rest;
      assert c + records[n..] == records;
    }
  }

  // --- The loops ---------------------------------------------------------------------------------------------

  /** Grouping as the source does it: one pass with the commit under construction. */
  method GroupCommits(records: seq<Record>) returns (r: Result<seq<seq<Record>>>)
    ensures r == Groups(records)
  {
    hide Groups;
    var groups, current, i := [], [], 0;
    assert records[0..] == records;
    PrependNothing(Groups(records));
    while i < |records|
      invariant |current| <= i <= |records|
      invariant current == records[i - |current|..i]
      invariant Groups(records) == Prepend(groups, Groups(records[i - |current|..]))
      invariant current != [] ==> Partial(records[i - |current|..], |current|)
    {
      var record, s := records[i], i - |current|;
      ghost var here := records[s..];
      assert here[|current|] == record && (current != [] ==> here[0] == current[0]);
      GroupsStep(here);
      if current == [] {
        if record.position.commitIndex != 0 { return Err(Framing); }
      } else if record.position.commitSeq != current[0].position.commitSeq
                || record.position.commitSize != current[0].position.commitSize
                    || record.position.commitIndex != |current| {
        return Err(Framing);
      }
      current := current + [record];
      i := i + 1;
      assert current == here[..|current|] && Grow(here, |current|) == FirstCommit(here);
      if |current| == current[0].position.commitSize {
        assert Groups(here) == Prepend([current], Groups(here[|current|..]));
        assert here[|current|..] == records[i..];
        PrependTwice(groups, current, Groups(records[i..]));
        groups, current := groups + [current], [];
      }
    }
    GroupsStep(records[i - |current|..]);
    if current != [] { return Err(TailIncomplete); }
    assert groups + [] == groups;
    r := Ok(groups);
  }

  /** Part of a commit has been taken and it is not complete. */
  predicate Partial(here: seq<Record>, n: nat) {
    0 < n <= |here| && FirstCommit(here) == Grow(here, n) && n != here[0].position.commitSize
  }

  lemma GroupsStep(here: seq<Record>)
    ensures here == [] ==> Groups(here) == Ok([])
    ensures here != [] && FirstCommit(here).Err? ==> Groups(here) == Err(FirstCommit(here).error)
    ensures here != [] && FirstCommit(here).Ok? ==>
      Groups(here) == Prepend([here[..FirstCommit(here).value]], Groups(here[FirstCommit(here).value..]))
  {
  }

  lemma PrependNothing(rest: Result<seq<seq<Record>>>)
    ensures Prepend([], rest) == rest
  {
    if rest.Ok? {
      assert [] + rest.value == rest.value;
    }
  }

  lemma PrependTwice(groups: seq<seq<Record>>, c: seq<Record>, rest: Result<seq<seq<Record>>>)
    ensures Prepend(groups, Prepend([c], rest)) == Prepend(groups + [c], rest)
  {
    if rest.Ok? {
      assert groups + ([c] + rest.value) == (groups + [c]) + rest.value;
    }
  }
}
