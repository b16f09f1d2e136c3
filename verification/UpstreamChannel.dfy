/** The upstream channel under concurrent send, receive, abort and close: every lock section
    and every socket call is one step, interleaved freely. */
module UpstreamChannel {
  datatype Phase = Open | Sending | Sent | Receiving | Received | Failed

  /** The thread that is inside a send or a receive, between its two lock sections. */
  datatype Io =
    | Idle
    | Writing(offset: nat, cleared: bool)
    | Wrote(offset: nat, ok: bool)
    | Reading
    | Read(ok: bool)

  /** The channel's fields, the busy thread, the threads about to close the socket they took,
      and what has happened to the socket itself. */
  datatype Channel = Channel(
    phase: Phase, aborted: bool, closed: bool, ioActive: bool, closePending: bool, hasSocket: bool, hasCredential: bool,
    accepted: nat, io: Io, closers: nat, log: seq<Call>)

  /** Calls on the socket, in order. */
  datatype Call = Write(bytes: string) | Receive | Shut | Close

  /** Steps of any number of threads; a step whose guard fails changes nothing. */
  datatype Step =
    | EnterSend
    | CheckStop
    | WriteChunk(count: int)
    | GiveUpWriting
    | FinishSend
    | EnterReceive
    | CallReceive(ok: bool)
    | FinishReceive
    | DoAbort
    | DoClose
    | CloseTaken

  const MAX_CHUNK: nat := 16384

  function Min(a: nat, b: nat): nat { if a <= b then a else b }

  function Start(): Channel {
    Channel(Open, false, false, false, false, true, true, 0, Idle, 0, [])
  }

  /** The last lock section of a send or a receive. */
  function Finish(c: Channel, phase: Phase): Channel {
    var d := c.(io := Idle, ioActive := false, phase := phase, hasCredential := false);
    if c.closePending && !c.closed then d.(closed := true, hasSocket := false,
                                           closers := if c.hasSocket then c.closers + 1 else c.closers)
    else d
  }

  /** Taking a step on the channel; `request` is the assembled request. */
  function Next(c: Channel, request: string, step: Step): Channel {
    match step
    case EnterSend =>
      if c.closed || c.aborted || c.phase != Open || !c.hasSocket || !c.hasCredential then c
      else c.(phase := Sending, ioActive := true, io := Writing(0, false))
    case CheckStop =>
      if !c.io.Writing? || c.io.cleared then c
      else if c.io.offset >= |request| then c.(io := Wrote(c.io.offset, true))
      else if c.aborted || c.closePending then c.(io := Wrote(c.io.offset, false))
      else c.(io := Writing(c.io.offset, true))
    case WriteChunk(count) =>
      if !c.io.Writing? || !c.io.cleared || c.io.offset >= |request| then c
      else
        var chunk := request[c.io.offset..Min(|request|, c.io.offset + MAX_CHUNK)];
        if !(0 < count <= |chunk|) then c.(io := Wrote(c.io.offset, false))
        else c.(io := Writing(c.io.offset + count, false), accepted := c.io.offset + count,
                log := c.log + [Write(chunk[..count])])
    case GiveUpWriting => if c.io.Writing? then c.(io := Wrote(c.io.offset, false)) else c
    case FinishSend => if c.io.Wrote? then Finish(c, if c.io.ok then Sent else Failed) else c
    case EnterReceive =>
      if c.closed || c.aborted || c.phase != Sent || !c.hasSocket then c
      else c.(phase := Receiving, ioActive := true, io := Reading)
    case CallReceive(ok) => if c.io.Reading? then c.(io := Read(ok), log := c.log + [Receive]) else c
    case FinishReceive => if c.io.Read? then Finish(c, if c.io.ok then Received else Failed) else c
    case DoAbort =>
      if c.closed || c.aborted then c
      else c.(aborted := true, hasCredential := false, log := if c.hasSocket then c.log + [Shut] else c.log)
    case DoClose =>
      if c.closed then c
      else if c.ioActive then
        c.(closePending := true, aborted := true, log := if !c.aborted && c.hasSocket then c.log + [Shut] else c.log)
      else c.(closed := true, hasSocket := false, hasCredential := false,
              closers := if c.hasSocket then c.closers + 1 else c.closers)
    case CloseTaken => if c.closers > 0 then c.(closers := c.closers - 1, log := c.log + [Close]) else c
  }

  function Run(c: Channel, request: string, steps: seq<Step>): Channel
    decreases |steps|
  {
    if steps == [] then c else Run(Next(c, request, steps[0]), request, steps[1..])
  }

  // --- What has happened to the socket -----------------------------------------------------------

  function Closes(log: seq<Call>): nat {
    if log == [] then 0 else Closes(log[..|log| - 1]) + if log[|log| - 1].Close? then 1 else 0
  }

  function Shuts(log: seq<Call>): nat {
    if log == [] then 0 else Shuts(log[..|log| - 1]) + if log[|log| - 1].Shut? then 1 else 0
  }

  /** All bytes the socket accepted, in order. */
  function Wire(log: seq<Call>): string {
    if log == [] then "" else Wire(log[..|log| - 1]) + if log[|log| - 1].Write? then log[|log| - 1].bytes else ""
  }

  /** Nothing follows a close. */
  ghost predicate CloseIsLast(log: seq<Call>) {
    forall k | 0 <= k < |log| && log[k].Close? :: k == |log| - 1
  }

  lemma Append(log: seq<Call>, call: Call)
    ensures Closes(log + [call]) == Closes(log) + if call.Close? then 1 else 0
    ensures Shuts(log + [call]) == Shuts(log) + if call.Shut? then 1 else 0
    ensures Wire(log + [call]) == Wire(log) + if call.Write? then call.bytes else ""
  {
    assert (log + [call])[..|log + [call]| - 1] == log;
  }

  lemma {:induction false} NoCloses(log: seq<Call>)
    requires Closes(log) == 0
    ensures forall k | 0 <= k < |log| :: !log[k].Close?
  {
    if log != [] {
      NoCloses(log[..|log| - 1]);
      assert forall k | 0 <= k < |log| - 1 :: log[k] == log[..|log| - 1][k];
    }
  }

  // --- The invariant ----------------------------------------------------------------------------------

  ghost predicate Inv(c: Channel, request: string) {
    && (c.ioActive <==> !c.io.Idle?)
    && (c.io.Writing? || c.io.Wrote? <==> c.phase.Sending?)
    && (c.io.Reading? || c.io.Read? <==> c.phase.Receiving?)
    && (c.hasSocket <==> !c.closed) && (c.ioActive ==> !c.closed)
    && (c.closePending && !c.closed ==> c.ioActive) && (c.closePending ==> c.aborted)
    && c.closers + Closes(c.log) == (if c.closed then 1 else 0)
    && Shuts(c.log) == (if c.aborted then 1 else 0)
    && CloseIsLast(c.log)
    && c.accepted <= |request| && Wire(c.log) == request[..c.accepted]
    && (c.io.Writing? ==> c.io.offset == c.accepted)
    && (c.io.Wrote? ==> c.io.offset == c.accepted && (c.io.ok ==> c.accepted == |request|))
    && (c.phase.Sent? || c.phase.Receiving? || c.phase.Received? ==> c.accepted == |request|)
    && (c.phase.Open? ==> c.accepted == 0)
    && (c.closed || (!c.phase.Open? && !c.phase.Sending?) ==> !c.hasCredential)
    && (c.aborted && !c.closePending ==> !c.hasCredential)
    && (c.phase.Open? && !c.closed && !c.aborted ==> c.hasCredential)
  }

  lemma StartInv(request: string)
    ensures Inv(Start(), request)
  {
  }

  lemma OpenSocketLog(c: Channel, request: string)
    requires Inv(c, request) && !c.closed
    ensures forall k | 0 <= k < |c.log| :: !c.log[k].Close?
  {
    NoCloses(c.log);
  }

  lemma FinishKeeps(c: Channel, request: string, phase: Phase)
    requires Inv(c, request) && c.ioActive && !phase.Open? && !phase.Sending? && !phase.Receiving?
    requires phase.Sent? || phase.Received? ==> c.accepted == |request|
    ensures Inv(Finish(c, phase), request)
  {
  }

  lemma WriteKeeps(c: Channel, request: string, count: int)
    requires Inv(c, request)
    ensures Inv(Next(c, request, WriteChunk(count)), request)
  {
    hide CloseIsLast, Closes, Shuts, Wire;
    if c.io.Writing? && c.io.cleared && c.io.offset < |request| {
      var chunk := request[c.io.offset..Min(|request|, c.io.offset + MAX_CHUNK)];
      if 0 < count <= |chunk| {
        Append(c.log, Write(chunk[..count]));
        Prefixes(request, c.io.offset, Min(|request|, c.io.offset + MAX_CHUNK), count);
        LogGrows(c, request, Write(chunk[..count]));
      }
    }
  }

  lemma Prefixes(s: string, a: nat, b: nat, n: nat)
    requires a <= b <= |s| && n <= b - a
    ensures s[..a] + s[a..b][..n] == s[..a + n]
  {
  }

  lemma LogGrows(c: Channel, request: string, call: Call)
    requires Inv(c, request) && !c.closed
    ensures CloseIsLast(c.log + [call])
  {
    OpenSocketLog(c, request);
  }

  lemma NextKeeps(c: Channel, request: string, step: Step)
    requires Inv(c, request)
    ensures Inv(Next(c, request, step), request)
  {
    hide CloseIsLast, Closes, Shuts, Wire;
    match step
    case WriteChunk(count) => WriteKeeps(c, request, count);
    case FinishSend => if c.io.Wrote? { FinishKeeps(c, request, if c.io.ok then Sent else Failed); }
    case FinishReceive => if c.io.Read? { FinishKeeps(c, request, if c.io.ok then Received else Failed); }
    case CallReceive(ok) =>
      Append(c.log, Receive);
      if !c.closed { LogGrows(c, request, Receive); }
      assert Wire(c.log) + "" == Wire(c.log);
    case DoAbort =>
      Append(c.log, Shut);
      if !c.closed { LogGrows(c, request, Shut); }
      assert Wire(c.log) + "" == Wire(c.log);
    case DoClose =>
      Append(c.log, Shut);
      if !c.closed { LogGrows(c, request, Shut); }
      assert Wire(c.log) + "" == Wire(c.log);
    case CloseTaken =>
      Append(c.log, Close);
      if c.closers > 0 { FirstClose(c.log); }
      assert Wire(c.log) + "" == Wire(c.log);
    case _ =>
  }

  lemma FirstClose(log: seq<Call>)
    requires Closes(log) == 0
    ensures CloseIsLast(log + [Close])
  {
    NoCloses(log);
  }

  lemma {:induction false} RunKeeps(c: Channel, request: string, steps: seq<Step>)
    requires Inv(c, request)
    ensures Inv(Run(c, request, steps), request)
    decreases |steps|
  {
    hide Inv, Next;
    if steps != [] {
      NextKeeps(c, request, steps[0]);
      RunKeeps(Next(c, request, steps[0]), request, steps[1..]);
    }
  }

  /** What is safe about a channel and its socket. */
  ghost predicate Safe(c: Channel, request: string) {
    && Closes(c.log) <= 1 && CloseIsLast(c.log) && Shuts(c.log) == (if c.aborted then 1 else 0)
    && (c.ioActive ==> Closes(c.log) == 0 && c.closers == 0)
    && (c.closed <==> Closes(c.log) + c.closers == 1) && (c.closePending && !c.ioActive ==> c.closed)
    && (c.closed || c.phase.Sent? || c.phase.Failed? || (c.aborted && !c.closePending) ==> !c.hasCredential)
    && c.accepted <= |request| && Wire(c.log) == request[..c.accepted]
    && (c.phase.Sent? || c.phase.Receiving? || c.phase.Received? ==> Wire(c.log) == request)
  }

  lemma InvSafe(c: Channel, request: string)
    requires Inv(c, request)
    ensures Safe(c, request)
  {
    hide Closes, Shuts, Wire, CloseIsLast;
    assert request[..|request|] == request;
  }

  /** Under every interleaving of any threads: the socket is closed at most once, nothing at all
      is done to it afterwards, it is shut down once exactly when the channel is aborted, it is not
      closed or about to be while a send or a receive is in progress, a close that waited is carried
      out with the end of that, the credential is gone once it is not needed, and what the socket
      accepted is a prefix of the request, the whole of it once the send has succeeded. */
  lemma SocketSafe(request: string, steps: seq<Step>)
    ensures Safe(Run(Start(), request, steps), request)
  {
    hide Inv, Safe, Run;
    StartInv(request);
    RunKeeps(Start(), request, steps);
    InvSafe(Run(Start(), request, steps), request);
  }

  // --- At most one send -----------------------------------------------------------------------------------

  /** How many of the steps start a send. */
  function SendsStarted(c: Channel, request: string, steps: seq<Step>): nat
    decreases |steps|
  {
    if steps == [] then 0
    else
      var d := Next(c, request, steps[0]);
      (if steps[0].EnterSend? && d != c then 1 else 0) + SendsStarted(d, request, steps[1..])
  }

  lemma NeverOpenAgain(c: Channel, request: string, step: Step)
    requires !c.phase.Open?
    ensures !Next(c, request, step).phase.Open? && (step.EnterSend? ==> Next(c, request, step) == c)
  {
    hide Wire, Closes, Shuts;
    if step.FinishSend? || step.FinishReceive? {
      var done := if step.FinishSend? then Sent else Received;
      FinishedNotOpen(c, if (c.io.Wrote? || c.io.Read?) && c.io.ok then done else Failed);
    } else if step.EnterSend? || step.EnterReceive? || step.DoAbort? || step.DoClose? || step.CloseTaken? {
      SignalsKeepPhase(c, request, step);
    } else {
      TransferKeepsPhase(c, request, step);
    }
  }

  lemma FinishedNotOpen(c: Channel, phase: Phase)
    requires !phase.Open?
    ensures !Finish(c, phase).phase.Open?
  {
  }

  lemma SignalsKeepPhase(c: Channel, request: string, step: Step)
    requires step.EnterSend? || step.EnterReceive? || step.DoAbort? || step.DoClose? || step.CloseTaken?
    requires !c.phase.Open?
    ensures !Next(c, request, step).phase.Open? && (step.EnterSend? ==> Next(c, request, step) == c)
  {
  }

  lemma TransferKeepsPhase(c: Channel, request: string, step: Step)
    requires step.CheckStop? || step.WriteChunk? || step.GiveUpWriting? || step.CallReceive?
    ensures Next(c, request, step).phase == c.phase
  {
  }

  lemma {:induction false} NoSecondSend(c: Channel, request: string, steps: seq<Step>)
    requires !c.phase.Open?
    ensures SendsStarted(c, request, steps) == 0
    decreases |steps|
  {
    hide Next;
    if steps != [] {
      NeverOpenAgain(c, request, steps[0]);
      NoSecondSend(Next(c, request, steps[0]), request, steps[1..]);
    }
  }

  /** Under every interleaving at most one send is ever started. */
  lemma {:induction false} OneSend(c: Channel, request: string, steps: seq<Step>)
    ensures SendsStarted(c, request, steps) <= 1
    decreases |steps|
  {
    if steps != [] {
      var d := Next(c, request, steps[0]);
      if steps[0].EnterSend? && d != c {
        NoSecondSend(d, request, steps[1..]);
      } else {
        OneSend(d, request, steps[1..]);
      }
    }
  }
}
