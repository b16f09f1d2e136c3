/** What the upstream channel does when nothing disturbs it, when exactly a transfer starts, and how soon an
    abort or a close ends it. */
module ChannelAnswers {
  import opened UpstreamChannel

  // --- When a transfer starts -----------------------------------------------------------------------

  /** Under every interleaving a send starts exactly on a channel still open, not aborted and not closed, and a
      receive exactly on one that has sent everything and is neither. */
  lemma StartsExactly(request: string, steps: seq<Step>)
    ensures var c := Run(Start(), request, steps);
            && (Next(c, request, EnterSend) != c <==> c.phase.Open? && !c.aborted && !c.closed)
            && (Next(c, request, EnterReceive) != c <==> c.phase.Sent? && !c.aborted && !c.closed)
  {
    hide Inv, Run, Next;
    StartInv(request);
    RunKeeps(Start(), request, steps);
    StartsFrom(Run(Start(), request, steps), request);
  }

  lemma StartsFrom(c: Channel, request: string)
    requires Inv(c, request)
    ensures Next(c, request, EnterSend) != c <==> c.phase.Open? && !c.aborted && !c.closed
    ensures Next(c, request, EnterReceive) != c <==> c.phase.Sent? && !c.aborted && !c.closed
  {
    hide Closes, Shuts, Wire, CloseIsLast;
  }

  // --- How soon it ends ---------------------------------------------------------------------------------

  /** Sending bytes or asking for some counts; shutting down and closing do not. */
  function Weight(call: Call): nat { if call.Write? || call.Receive? then 1 else 0 }

  /** Steps that may act on the socket. */
  predicate Loud(step: Step) {
    step.WriteChunk? || step.CallReceive? || step.DoAbort? || step.DoClose? || step.CloseTaken?
  }

  /** How often bytes were sent or asked for. */
  function Io(log: seq<Call>): nat {
    if log == [] then 0 else Io(log[..|log| - 1]) + Weight(log[|log| - 1])
  }

  lemma IoGrows(log: seq<Call>, call: Call)
    ensures Io(log + [call]) == Io(log) + Weight(call)
  {
    assert (log + [call])[..|log + [call]| - 1] == log;
  }

  /** The call that may already have been cleared. */
  function Begun(c: Channel): nat {
    if (c.io.Writing? && c.io.cleared) || c.io.Reading? then 1 else 0
  }

  /** A step that logs nothing clears nothing either, once aborted. */
  lemma QuietStep(c: Channel, request: string, step: Step)
    requires c.aborted && !Loud(step)
    ensures var d := Next(c, request, step); d.aborted && d.log == c.log && Begun(d) <= Begun(c)
  {
  }

  /** What a step logs, if anything. */
  function Logged(c: Channel, request: string, step: Step): seq<Call> {
    match step
    case WriteChunk(count) =>
      if c.io.Writing? && c.io.cleared && c.io.offset < |request| then
        var chunk := request[c.io.offset..Min(|request|, c.io.offset + MAX_CHUNK)];
        if 0 < count <= |chunk| then [Write(chunk[..count])] else []
      else []
    case CallReceive(_) => if c.io.Reading? then [Receive] else []
    case CloseTaken => if c.closers > 0 then [Close] else []
    case _ => []
  }

  lemma LoudStep(c: Channel, request: string, step: Step)
    requires c.aborted && Loud(step)
    ensures var d, calls := Next(c, request, step), Logged(c, request, step);
            && d.aborted && d.log == c.log + calls && |calls| <= 1
            && Begun(d) + (if calls == [] then 0 else Weight(calls[0])) <= Begun(c)
  {
    match step
    case WriteChunk(_) =>
    case CallReceive(_) =>
    case DoAbort =>
    case DoClose =>
    case CloseTaken =>
  }

  lemma AbortedStep(c: Channel, request: string, step: Step)
    requires c.aborted
    ensures var d := Next(c, request, step); d.aborted && Io(d.log) + Begun(d) <= Io(c.log) + Begun(c)
  {
    hide Io, Next, Begun, Weight, Logged;
    var d := Next(c, request, step);
    if Loud(step) {
      LoudStep(c, request, step);
      var calls := Logged(c, request, step);
      if calls != [] {
        assert calls == [calls[0]];
        IoGrows(c.log, calls[0]);
      } else {
        assert d.log == c.log;
      }
    } else {
      QuietStep(c, request, step);
    }
  }

  lemma {:induction false} AbortStopsOn(c: Channel, request: string, steps: seq<Step>)
    requires c.aborted
    ensures Run(c, request, steps).aborted
    ensures Io(Run(c, request, steps).log) + Begun(Run(c, request, steps)) <= Io(c.log) + Begun(c)
    decreases |steps|
  {
    hide Next, Io, Begun;
    if steps != [] {
      AbortedStep(c, request, steps[0]);
      AbortStopsOn(Next(c, request, steps[0]), request, steps[1..]);
    }
  }

  /** Once a channel is aborted or asked to close, no interleaving touches its socket for a transfer again,
      except for the one call that had been cleared before. */
  lemma AbortStops(c: Channel, request: string, steps: seq<Step>)
    requires c.aborted
    ensures Run(c, request, steps).aborted && Io(Run(c, request, steps).log) <= Io(c.log) + Begun(c)
  {
    hide Run, Io, Begun;
    AbortStopsOn(c, request, steps);
  }

  // --- Undisturbed ---------------------------------------------------------------------------------------

  /** What the socket accepts at each call: something, at most a chunk, and no more than is left. */
  ghost predicate Accepts(counts: seq<nat>, left: nat)
    decreases |counts|
  {
    if counts == [] then left == 0
    else 1 <= counts[0] <= 16_384 && counts[0] <= left && Accepts(counts[1..], left - counts[0])
  }

  /** One thread writing the request, then reading the response. */
  function Writes(counts: seq<nat>): seq<Step> {
    if counts == [] then [CheckStop, FinishSend, EnterReceive, CallReceive(true), FinishReceive]
    else [CheckStop, WriteChunk(counts[0])] + Writes(counts[1..])
  }

  ghost predicate AtWork(c: Channel, request: string) {
    && Inv(c, request) && c.io == Writing(c.accepted, false) && !c.aborted && !c.closePending
  }

  lemma {:induction false} WritesAll(c: Channel, request: string, counts: seq<nat>)
    requires AtWork(c, request) && Accepts(counts, |request| - c.accepted)
    ensures var d := Run(c, request, Writes(counts));
            d.phase.Received? && Wire(d.log) == request && !d.ioActive && !d.closed && !d.aborted
    decreases |counts|
  {
    hide Inv, Next;
    var steps := Writes(counts);
    if counts == [] {
      Ends(c, request);
    } else {
      var rest := Writes(counts[1..]);
      assert steps[0] == CheckStop && steps[1] == WriteChunk(counts[0]) && steps[1..][1..] == rest;
      OneChunk(c, request, counts[0]);
      var d := Next(Next(c, request, CheckStop), request, WriteChunk(counts[0]));
      assert Run(c, request, steps) == Run(Next(c, request, CheckStop), request, steps[1..]) == Run(d, request, rest);
      WritesAll(d, request, counts[1..]);
    }
  }

  lemma OneChunk(c: Channel, request: string, count: nat)
    requires AtWork(c, request) && 1 <= count <= 16_384 && count <= |request| - c.accepted
    ensures var d := Next(Next(c, request, CheckStop), request, WriteChunk(count));
            AtWork(d, request) && d.accepted == c.accepted + count
  {
    hide CloseIsLast, Closes, Shuts, Wire;
    NextKeeps(c, request, CheckStop);
    NextKeeps(Next(c, request, CheckStop), request, WriteChunk(count));
  }

  lemma Ends(c: Channel, request: string)
    requires AtWork(c, request) && c.accepted == |request|
    ensures var d := Run(c, request, Writes([]));
            d.phase.Received? && Wire(d.log) == request && !d.ioActive && !d.closed && !d.aborted
  {
    hide CloseIsLast, Closes, Shuts, Wire;
    var steps := [CheckStop, FinishSend, EnterReceive, CallReceive(true), FinishReceive];
    RunKeeps(c, request, steps);
    var d := Next(c, request, CheckStop);
    var e := Next(d, request, FinishSend);
    var f := Next(e, request, EnterReceive);
    var g := Next(f, request, CallReceive(true));
    var h := Next(g, request, FinishReceive);
    assert steps[1..] == [FinishSend, EnterReceive, CallReceive(true), FinishReceive];
    assert steps[1..][1..] == [EnterReceive, CallReceive(true), FinishReceive];
    assert steps[1..][1..][1..] == [CallReceive(true), FinishReceive];
    assert steps[1..][1..][1..][1..] == [FinishReceive];
    assert steps[1..][1..][1..][1..][1..] == [];
    FiveSteps(c, request, steps);
  }

  lemma FiveSteps(c: Channel, request: string, steps: seq<Step>)
    requires |steps| == 5
    ensures Run(c, request, steps) ==
            Next(Next(Next(Next(Next(c, request, steps[0]), request, steps[1]), request, steps[2]), request, steps[3]),
                 request, steps[4])
  {
    hide Next;
    var c1 := Next(c, request, steps[0]);
    var c2 := Next(c1, request, steps[1]);
    var c3 := Next(c2, request, steps[2]);
    var c4 := Next(c3, request, steps[3]);
    var c5 := Next(c4, request, steps[4]);
    assert Run(c4, request, steps[4..]) == c5 by { assert steps[4..][1..] == []; }
    assert Run(c3, request, steps[3..]) == c5 by { assert steps[3..][1..] == steps[4..]; }
    assert Run(c2, request, steps[2..]) == c5 by { assert steps[2..][1..] == steps[3..]; }
    assert Run(c1, request, steps[1..]) == c5 by { assert steps[1..][1..] == steps[2..]; }
  }

  /** A request written without disturbance, in whatever portions the socket takes it, is sent in full and its
      response received. */
  lemma Delivers(request: string, counts: seq<nat>)
    requires Accepts(counts, |request|)
    ensures var c := Run(Start(), request, [EnterSend] + Writes(counts));
            c.phase.Received? && Wire(c.log) == request && !c.ioActive && !c.closed && !c.aborted
  {
    hide Run;
    var c := Next(Start(), request, EnterSend);
    StartInv(request);
    NextKeeps(Start(), request, EnterSend);
    WritesAll(c, request, counts);
    FirstStep(request, Writes(counts));
  }

  lemma FirstStep(request: string, steps: seq<Step>)
    ensures Run(Start(), request, [EnterSend] + steps) == Run(Next(Start(), request, EnterSend), request, steps)
  {
    hide Next;
    assert ([EnterSend] + steps)[1..] == steps;
  }
}
