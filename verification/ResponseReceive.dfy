/** Bounded collection of one response from a byte stream that arrives in chunks.

    The peer's bytes are one string; a schedule says how many of the requested
    bytes each `recv` delivers, or that it fails (socket error, inactivity, an
    expired deadline or a clock fault, which all end the collection).
 */
module ResponseReceive {
  import opened Text
  import opened HttpResponse

  const HEADER_CHUNK: nat := 4096
  const BODY_CHUNK: nat := 65536

  datatype Recv = Chunk(len: nat) | Failed

  function Min(a: nat, b: nat): nat { if a < b then a else b }

  /** The bytes one read delivers; no byte at all ends the collection. */
  function Delivered(stream: string, pos: nat, schedule: seq<Recv>, turn: nat, amount: nat): (k: nat)
    requires pos <= |stream|
    ensures k <= amount && pos + k <= |stream|
  {
    if turn >= |schedule| || schedule[turn].Failed? then 0
    else Min(schedule[turn].len, Min(amount, |stream| - pos))
  }

  /** The message at the front of a stream, read with the whole stream in hand. */
  function Message(stream: string): Option<Response> {
    match HeadEnd(stream)
    case None => None
    case Some(end) =>
      match ParseHead(stream[..end])
      case None => None
      case Some(head) =>
        if end + head.bodyLength > |stream| then None
        else Some(Response(head.status, stream[end..end + head.bodyLength]))
  }

  function MessageEnd(stream: string): (n: nat)
    requires Message(stream).Some?
    ensures n <= |stream|
  {
    HeadEnd(stream).value + ParseHead(stream[..HeadEnd(stream).value]).value.bodyLength
  }

  /** A schedule that keeps delivering: no failure, at least a byte a turn, enough turns. */
  predicate Cooperative(stream: string, schedule: seq<Recv>) {
    |schedule| >= |stream| && forall i | 0 <= i < |schedule| :: schedule[i].Chunk? && schedule[i].len > 0
  }

  // --- Searching a growing prefix ------------------------------------------------

  lemma FindInPrefix(s: string, pat: string, from: nat, n: nat)
    requires from <= n <= |s|
    ensures Find(s[..n], pat, from) >= 0 ==> Find(s, pat, from) == Find(s[..n], pat, from)
    ensures 0 <= Find(s, pat, from) <= n - |pat| ==> Find(s[..n], pat, from) == Find(s, pat, from)
    ensures Find(s[..n], pat, from) < 0 && Find(s, pat, from) >= 0 ==> n < Find(s, pat, from) + |pat|
  {
    forall k | 0 <= k <= n - |pat| ensures OccursAt(s[..n], pat, k) == OccursAt(s, pat, k) {
      assert s[..n][k..k + |pat|] == s[k..k + |pat|];
    }
    var i, j := Find(s, pat, from), Find(s[..n], pat, from);
    assert j >= 0 ==> OccursAt(s[..n], pat, j);
    assert 0 <= i <= n - |pat| ==> OccursAt(s[..n], pat, i);
  }

  lemma OccursInPrefix(s: string, pat: string, k: nat, n: nat)
    requires n <= |s|
    ensures OccursAt(s[..n], pat, k) <==> OccursAt(s, pat, k) && k + |pat| <= n
  {
    if k + |pat| <= n {
      assert s[..n][k..k + |pat|] == s[k..k + |pat|];
    }
  }

  /** The head end seen in a prefix is the head end of the stream, once it is there. */
  lemma HeadEndInPrefix(s: string, n: nat)
    requires n <= |s|
    ensures HeadEnd(s[..n]).Some? ==> HeadEnd(s) == HeadEnd(s[..n])
    ensures HeadEnd(s).Some? && HeadEnd(s).value <= n ==> HeadEnd(s[..n]) == HeadEnd(s)
  {
    hide Find;
    FindInPrefix(s, CRLF, 0, n);
    var line := Find(s, CRLF, 0);
    if 0 <= line <= n - 2 {
      OccursInPrefix(s, CRLF, line + 2, n);
      FindInPrefix(s, BLANK, line + 2, n);
      BlankIsNotEmpty(s[..n], line + 2);
    }
  }

  /** A blank line found at a position implies the two-byte break found there. */
  lemma BlankIsNotEmpty(s: string, from: nat)
    requires from <= |s|
    ensures OccursAt(s, BLANK, from) ==> OccursAt(s, CRLF, from)
    ensures Find(s, BLANK, from) >= 0 ==> from + 4 <= |s|
  {
    if OccursAt(s, BLANK, from) {
      assert s[from..from + 2] == s[from..from + 4][..2] == CRLF;
    }
  }

  lemma HeadBounds(data: string)
    requires ParseHead(data).Some? && HeadEnd(data) == Some(|data|)
    ensures var line := Find(data, CRLF, 0);
            0 <= line && line + 2 <= MAX_STATUS_LINE && |data| - (line + 2) <= MAX_HEADERS
  {
    hide ParseStatus, FoldFields, ConnectionOk, Split, NoBareBreaks, BodyLength;
  }

  /** A complete message parses to exactly the response the stream determines. */
  lemma MessageParses(stream: string)
    requires Message(stream).Some?
    ensures ParseResponse(stream[..MessageEnd(stream)]) == Message(stream)
  {
    hide ParseHead, HeadEnd;
    var n := MessageEnd(stream);
    var end := HeadEnd(stream).value;
    HeadEndInPrefix(stream, n);
    assert stream[..n][..end] == stream[..end];
    assert stream[..n][end..] == stream[end..n];
    HeadShort(stream[..end]);
  }

  lemma HeadShort(data: string)
    requires ParseHead(data).Some?
    ensures |data| <= MAX_STATUS_LINE + MAX_HEADERS
  {
    hide ParseStatusLine, ParseFields, NoBareBreaks, BodyLength;
  }

  /** Limits of the head of a message, in terms of the whole stream. */
  lemma MessageHeadBounds(stream: string)
    requires Message(stream).Some?
    ensures HeadEnd(stream).Some?
    ensures var line := Find(stream, CRLF, 0);
            && 0 <= line && line + 2 <= MAX_STATUS_LINE
            && HeadEnd(stream).value - (line + 2) <= MAX_HEADERS
            && line + 4 <= HeadEnd(stream).value
  {
    hide ParseHead;
    var end := HeadEnd(stream).value;
    HeadEndInPrefix(stream, end);
    HeadBounds(stream[..end]);
    FindInPrefix(stream, CRLF, 0, end);
  }

  lemma LineInPrefix(stream: string, captured: string)
    requires captured <= stream
    ensures Find(captured, CRLF, 0) < 0 && Find(stream, CRLF, 0) >= 0 ==> |captured| < Find(stream, CRLF, 0) + 2
    ensures Find(captured, CRLF, 0) >= 0 ==> Find(stream, CRLF, 0) == Find(captured, CRLF, 0)
  {
    assert captured == stream[..|captured|];
    FindInPrefix(stream, CRLF, 0, |captured|);
  }

  /** The captured prefix shows the head: its end is the stream's. */
  lemma CapturedHead(stream: string, captured: string)
    requires captured <= stream
    requires var line := Find(captured, CRLF, 0);
             0 <= line && (OccursAt(captured, CRLF, line + 2) || Find(captured, BLANK, line + 2) >= 0)
    ensures var line := Find(captured, CRLF, 0);
            HeadEnd(stream) == Some(if OccursAt(captured, CRLF, line + 2) then line + 4
                                    else Find(captured, BLANK, line + 2) + 4)
  {
    assert captured == stream[..|captured|];
    HeadEndInPrefix(stream, |captured|);
  }

  /** The captured prefix does not show the head yet: more bytes precede its end. */
  lemma CapturedMore(stream: string, captured: string)
    requires captured <= stream
    requires var line := Find(captured, CRLF, 0);
             0 <= line && !OccursAt(captured, CRLF, line + 2) && Find(captured, BLANK, line + 2) < 0
    ensures HeadEnd(stream).Some? ==> |captured| < HeadEnd(stream).value
  {
    assert captured == stream[..|captured|];
    HeadEndInPrefix(stream, |captured|);
  }

  // --- Collection, as functions ---------------------------------------------------------

  /** Where a stage of the collection stands: what it found, the bytes and the reads taken. */
  datatype Stage = Stage(found: Option<nat>, pos: nat, turn: nat)

  /** Reads until the status line is complete; finds its length. */
  function LineFrom(stream: string, schedule: seq<Recv>, pos: nat, turn: nat): Stage
    requires pos <= |stream| && pos <= MAX_STATUS_LINE
    decreases |stream| - pos
  {
    var k := Delivered(stream, pos, schedule, turn, Min(HEADER_CHUNK, MAX_STATUS_LINE - pos + 1));
    if k == 0 then Stage(None, pos, turn)
    else
      var line := Find(stream[..pos + k], CRLF, 0);
      if line >= 0 then Stage(if line + 2 > MAX_STATUS_LINE then None else Some(line), pos + k, turn + 1)
      else if pos + k > MAX_STATUS_LINE then Stage(None, pos + k, turn + 1)
      else LineFrom(stream, schedule, pos + k, turn + 1)
  }

  /** Looks for the end of the head after a status line, reading on until it shows. */
  function HeadFrom(stream: string, schedule: seq<Recv>, line: nat, pos: nat, turn: nat): Stage
    requires line + 2 <= pos <= |stream|
    decreases |stream| - pos
  {
    var captured := stream[..pos];
    if OccursAt(captured, CRLF, line + 2) then Stage(Some(line + 4), pos, turn)
    else
      var blank := Find(captured, BLANK, line + 2);
      if blank >= 0 then Stage(if blank + 4 - (line + 2) > MAX_HEADERS then None else Some(blank + 4), pos, turn)
      else if pos - (line + 2) > MAX_HEADERS then Stage(None, pos, turn)
      else
        var k := Delivered(stream, pos, schedule, turn, Min(HEADER_CHUNK, MAX_HEADERS - (pos - (line + 2)) + 1));
        if k == 0 then Stage(None, pos, turn) else HeadFrom(stream, schedule, line, pos + k, turn + 1)
  }

  function Head(stream: string, schedule: seq<Recv>): Stage {
    var l := LineFrom(stream, schedule, 0, 0);
    LineStands(stream, schedule, 0, 0);
    if l.found.None? then l else HeadFrom(stream, schedule, l.found.value, l.pos, l.turn)
  }

  /** Reads the body; one byte too many ends the collection. */
  function BodyFrom(stream: string, schedule: seq<Recv>, end: nat, pos: nat, turn: nat): nat
    requires pos <= |stream|
    decreases |stream| - pos
  {
    if pos >= end then pos
    else
      var k := Delivered(stream, pos, schedule, turn, Min(BODY_CHUNK, end - pos + 1));
      if k == 0 then pos else BodyFrom(stream, schedule, end, pos + k, turn + 1)
  }

  /** How many bytes are taken, and what comes of them. */
  function Collect(stream: string, schedule: seq<Recv>): (Option<Response>, nat) {
    var h := Head(stream, schedule);
    HeadStands(stream, schedule);
    if h.found.None? then (None, h.pos)
    else
      match ParseHead(stream[..h.found.value])
      case None => (None, h.pos)
      case Some(head) =>
        var end := h.found.value + head.bodyLength;
        BodyStands(stream, schedule, end, h.pos, h.turn);
        var pos := BodyFrom(stream, schedule, end, h.pos, h.turn);
        (if pos == end then ParseResponse(stream[..pos]) else None, pos)
  }

  function Receive(stream: string, schedule: seq<Recv>): Option<Response> { Collect(stream, schedule).0 }

  // --- What the stages find ----------------------------------------------------------------

  lemma {:induction false} LineStands(stream: string, schedule: seq<Recv>, pos: nat, turn: nat)
    requires pos <= |stream| && pos <= MAX_STATUS_LINE && turn <= pos
    ensures var l := LineFrom(stream, schedule, pos, turn);
            && pos <= l.pos <= |stream| && l.turn <= l.pos
            && (l.found.Some? ==>
                  && l.found.value == Find(stream[..l.pos], CRLF, 0)
                  && l.found.value + 2 <= l.pos && l.found.value + 2 <= MAX_STATUS_LINE)
    decreases |stream| - pos
  {
    var k := Delivered(stream, pos, schedule, turn, Min(HEADER_CHUNK, MAX_STATUS_LINE - pos + 1));
    if k > 0 && Find(stream[..pos + k], CRLF, 0) < 0 && pos + k <= MAX_STATUS_LINE {
      LineStands(stream, schedule, pos + k, turn + 1);
    }
  }

  lemma {:induction false} HeadFromStands(stream: string, schedule: seq<Recv>, line: nat, pos: nat, turn: nat)
    requires line + 2 <= pos <= |stream| && turn <= pos && line == Find(stream[..pos], CRLF, 0)
    ensures var h := HeadFrom(stream, schedule, line, pos, turn);
            && pos <= h.pos <= |stream| && h.turn <= h.pos
            && (h.found.Some? ==> h.found == HeadEnd(stream) && h.found.value <= h.pos)
    decreases |stream| - pos
  {
    hide Find, HeadEnd, OccursAt;
    var captured := stream[..pos];
    if OccursAt(captured, CRLF, line + 2) || Find(captured, BLANK, line + 2) >= 0 {
      CapturedHead(stream, captured);
      Shown(captured, line);
    } else if pos - (line + 2) <= MAX_HEADERS {
      var k := Delivered(stream, pos, schedule, turn, Min(HEADER_CHUNK, MAX_HEADERS - (pos - (line + 2)) + 1));
      if k > 0 {
        assert captured <= stream[..pos + k];
        LineInPrefix(stream[..pos + k], captured);
        HeadFromStands(stream, schedule, line, pos + k, turn + 1);
      }
    }
  }

  lemma Shown(captured: string, line: nat)
    requires line + 2 <= |captured|
    ensures OccursAt(captured, CRLF, line + 2) ==> line + 4 <= |captured|
    ensures Find(captured, BLANK, line + 2) >= 0 ==> Find(captured, BLANK, line + 2) + 4 <= |captured|
  {
  }

  lemma HeadStands(stream: string, schedule: seq<Recv>)
    ensures var h := Head(stream, schedule);
            && h.pos <= |stream| && h.turn <= h.pos
            && (h.found.Some? ==> h.found == HeadEnd(stream) && h.found.value <= h.pos)
  {
    hide HeadEnd;
    LineStands(stream, schedule, 0, 0);
    var l := LineFrom(stream, schedule, 0, 0);
    if l.found.Some? {
      HeadFromStands(stream, schedule, l.found.value, l.pos, l.turn);
    }
  }

  lemma {:induction false} BodyStands(stream: string, schedule: seq<Recv>, end: nat, pos: nat, turn: nat)
    requires pos <= |stream|
    ensures pos <= BodyFrom(stream, schedule, end, pos, turn) <= |stream|
    decreases |stream| - pos
  {
    if pos < end {
      var k := Delivered(stream, pos, schedule, turn, Min(BODY_CHUNK, end - pos + 1));
      if k > 0 {
        BodyStands(stream, schedule, end, pos + k, turn + 1);
      }
    }
  }

  /** Success gives the one message of the stream, whatever the schedule. */
  lemma ReceivedIsMessage(stream: string, schedule: seq<Recv>)
    ensures var (r, pos) := Collect(stream, schedule);
            pos <= |stream| && (r.Some? ==>
                                  r == Message(stream) == ParseResponse(stream[..pos])
                                  && pos == MessageEnd(stream))
  {
    hide HeadEnd, ParseHead, Head, BodyFrom, ParseResponse;
    HeadStands(stream, schedule);
    var h := Head(stream, schedule);
    if h.found.Some? && ParseHead(stream[..h.found.value]).Some? {
      var end := h.found.value + ParseHead(stream[..h.found.value]).value.bodyLength;
      BodyStands(stream, schedule, end, h.pos, h.turn);
      if BodyFrom(stream, schedule, end, h.pos, h.turn) == end {
        assert Message(stream).Some? && MessageEnd(stream) == end;
        MessageParses(stream);
      }
    }
  }

  // --- Cooperative schedules ------------------------------------------------------------------

  lemma {:induction false} LineArrives(stream: string, schedule: seq<Recv>, pos: nat, turn: nat)
    requires Cooperative(stream, schedule) && Message(stream).Some?
    requires turn <= pos <= |stream| && pos <= MAX_STATUS_LINE && Find(stream[..pos], CRLF, 0) < 0
    ensures LineFrom(stream, schedule, pos, turn).found.Some?
    decreases |stream| - pos
  {
    hide Find, Message;
    MessageHeadBounds(stream);
    LineInPrefix(stream, stream[..pos]);
    var k := Delivered(stream, pos, schedule, turn, Min(HEADER_CHUNK, MAX_STATUS_LINE - pos + 1));
    LineInPrefix(stream, stream[..pos + k]);
    if Find(stream[..pos + k], CRLF, 0) < 0 {
      LineArrives(stream, schedule, pos + k, turn + 1);
    }
  }

  lemma {:induction false} HeadArrives(stream: string, schedule: seq<Recv>, line: nat, pos: nat, turn: nat)
    requires Cooperative(stream, schedule) && Message(stream).Some?
    requires line + 2 <= pos <= |stream| && turn <= pos && line == Find(stream[..pos], CRLF, 0)
    ensures HeadFrom(stream, schedule, line, pos, turn).found.Some?
    decreases |stream| - pos
  {
    hide Find, Message, HeadEnd, OccursAt;
    MessageHeadBounds(stream);
    var captured := stream[..pos];
    LineInPrefix(stream, captured);
    if OccursAt(captured, CRLF, line + 2) || Find(captured, BLANK, line + 2) >= 0 {
      CapturedHead(stream, captured);
    } else {
      CapturedMore(stream, captured);
      var k := Delivered(stream, pos, schedule, turn, Min(HEADER_CHUNK, MAX_HEADERS - (pos - (line + 2)) + 1));
      assert captured <= stream[..pos + k];
      LineInPrefix(stream[..pos + k], captured);
      HeadArrives(stream, schedule, line, pos + k, turn + 1);
    }
  }

  lemma {:induction false} BodyArrives(stream: string, schedule: seq<Recv>, end: nat, pos: nat, turn: nat)
    requires Cooperative(stream, schedule) && turn <= pos <= |stream| && end <= |stream|
    ensures BodyFrom(stream, schedule, end, pos, turn) >= end
    decreases |stream| - pos
  {
    if pos < end {
      var k := Delivered(stream, pos, schedule, turn, Min(BODY_CHUNK, end - pos + 1));
      BodyArrives(stream, schedule, end, pos + k, turn + 1);
    }
  }

  /** A cooperative schedule fails exactly by taking more than the message. */
  lemma FailsByExcess(stream: string, schedule: seq<Recv>)
    requires Cooperative(stream, schedule) && Message(stream).Some?
    ensures var (r, pos) := Collect(stream, schedule);
            r.Some? <==> pos <= MessageEnd(stream)
  {
    hide HeadEnd, ParseHead, LineFrom, HeadFrom, BodyFrom, ParseResponse, Find;
    EmptyHasNoLine(stream);
    LineArrives(stream, schedule, 0, 0);
    LineStands(stream, schedule, 0, 0);
    var l := LineFrom(stream, schedule, 0, 0);
    HeadArrives(stream, schedule, l.found.value, l.pos, l.turn);
    HeadStands(stream, schedule);
    var h := Head(stream, schedule);
    BodyArrives(stream, schedule, MessageEnd(stream), h.pos, h.turn);
    ReceivedIsMessage(stream, schedule);
    MessageParses(stream);
  }

  lemma EmptyHasNoLine(stream: string)
    ensures Find(stream[..0], CRLF, 0) < 0
  {
  }

  /** One look at the captured bytes, and what follows from it. */
  lemma HeadStep(stream: string, schedule: seq<Recv>, line: nat, pos: nat, turn: nat)
    requires line + 2 <= pos <= |stream|
    ensures var h, captured := HeadFrom(stream, schedule, line, pos, turn), stream[..pos];
            var blank := Find(captured, BLANK, line + 2);
            if OccursAt(captured, CRLF, line + 2) then h == Stage(Some(line + 4), pos, turn)
            else if blank >= 0 then
                h == Stage(if blank + 4 - (line + 2) > MAX_HEADERS then None else Some(blank + 4), pos, turn)
            else if pos - (line + 2) > MAX_HEADERS then h == Stage(None, pos, turn)
            else
              var k := Delivered(stream, pos, schedule, turn, Min(HEADER_CHUNK, MAX_HEADERS - (pos - (line + 2)) + 1));
              h == if k == 0 then Stage(None, pos, turn) else HeadFrom(stream, schedule, line, pos + k, turn + 1)
  {
    hide Find, OccursAt;
  }

  /** Under a cooperative schedule the head of a message always arrives. */
  lemma HeadComes(stream: string, schedule: seq<Recv>)
    requires Cooperative(stream, schedule) && Message(stream).Some?
    ensures Head(stream, schedule).found.Some?
  {
    hide Message, Cooperative, LineFrom, HeadFrom, Find;
    EmptyHasNoLine(stream);
    LineArrives(stream, schedule, 0, 0);
    LineStands(stream, schedule, 0, 0);
    var l := LineFrom(stream, schedule, 0, 0);
    HeadArrives(stream, schedule, l.found.value, l.pos, l.turn);
  }

  // --- Bytes behind the message ------------------------------------------------------------------

  /** A byte a turn, until the last byte of the message is due; `last` bytes from then on. */
  function Paced(stream: string, n: nat, last: nat): seq<Recv> {
    seq(|stream|, i requires 0 <= i < |stream| => Chunk(if i + 1 < n then 1 else last))
  }

  predicate OnPace(n: nat, last: nat, pos: nat, turn: nat) {
    (pos == turn && pos < n) || pos + 1 == n + last
  }

  /** One read on pace, when at least two bytes are asked for as the message ends. */
  lemma PacedRead(stream: string, n: nat, last: nat, pos: nat, turn: nat, amount: nat)
    requires 1 <= last <= 2 && pos < n && n + last <= |stream| + 1 && OnPace(n, last, pos, turn)
    requires amount >= 1 && (pos + 1 == n ==> amount >= 2)
    ensures var k := Delivered(stream, pos, Paced(stream, n, last), turn, amount);
              k > 0 && OnPace(n, last, pos + k, turn + 1)
  {
  }

  lemma LineBeforeEnd(stream: string)
    requires Message(stream).Some?
    ensures var line := Find(stream, CRLF, 0);
              0 <= line && line + 2 <= MAX_STATUS_LINE && line + 4 <= MessageEnd(stream)
  {
    hide Find, HeadEnd, ParseHead;
    MessageHeadBounds(stream);
  }

  lemma {:induction false} LinePaced(stream: string, n: nat, last: nat, pos: nat, turn: nat)
    requires 1 <= last <= 2 && Message(stream).Some? && n == MessageEnd(stream) && n + last <= |stream| + 1
    requires pos <= MAX_STATUS_LINE && pos < n && OnPace(n, last, pos, turn) && Find(stream[..pos], CRLF, 0) < 0
    ensures var l := LineFrom(stream, Paced(stream, n, last), pos, turn); OnPace(n, last, l.pos, l.turn)
    decreases |stream| - pos
  {
    hide Find, Paced, Delivered, Message, MessageEnd, HeadEnd, OnPace;
    LineBeforeEnd(stream);
    LineInPrefix(stream, stream[..pos]);
    var amount := Min(HEADER_CHUNK, MAX_STATUS_LINE - pos + 1);
    PacedRead(stream, n, last, pos, turn, amount);
    var k := Delivered(stream, pos, Paced(stream, n, last), turn, amount);
    LineInPrefix(stream, stream[..pos + k]);
    if Find(stream[..pos + k], CRLF, 0) < 0 && pos + k <= MAX_STATUS_LINE {
      LinePaced(stream, n, last, pos + k, turn + 1);
    }
  }

  lemma {:induction false} HeadPaced(stream: string, n: nat, last: nat, line: nat, pos: nat, turn: nat)
    requires 1 <= last <= 2 && Message(stream).Some? && n == MessageEnd(stream) && n + last <= |stream| + 1
    requires line + 2 <= pos <= |stream| && OnPace(n, last, pos, turn) && line == Find(stream[..pos], CRLF, 0)
    ensures var h := HeadFrom(stream, Paced(stream, n, last), line, pos, turn); OnPace(n, last, h.pos, h.turn)
    decreases |stream| - pos
  {
    hide Find, Paced, Delivered, OccursAt, HeadFrom;
    HeadStep(stream, Paced(stream, n, last), line, pos, turn);
    var captured := stream[..pos];
    if !OccursAt(captured, CRLF, line + 2) && Find(captured, BLANK, line + 2) < 0 && pos - (line + 2) <= MAX_HEADERS {
      MessageHeadBounds(stream);
      LineInPrefix(stream, captured);
      CapturedMore(stream, captured);
      var amount := Min(HEADER_CHUNK, MAX_HEADERS - (pos - (line + 2)) + 1);
      PacedRead(stream, n, last, pos, turn, amount);
      var k := Delivered(stream, pos, Paced(stream, n, last), turn, amount);
      assert captured <= stream[..pos + k];
      LineInPrefix(stream[..pos + k], captured);
      HeadPaced(stream, n, last, line, pos + k, turn + 1);
    }
  }

  lemma {:induction false} BodyPaced(stream: string, n: nat, last: nat, pos: nat, turn: nat)
    requires 1 <= last <= 2 && n + last <= |stream| + 1 && pos <= |stream| && OnPace(n, last, pos, turn)
    ensures BodyFrom(stream, Paced(stream, n, last), n, pos, turn) + 1 == n + last
    decreases |stream| - pos
  {
    hide Paced, Delivered;
    if pos < n {
      var amount := Min(BODY_CHUNK, n - pos + 1);
      PacedRead(stream, n, last, pos, turn, amount);
      BodyPaced(stream, n, last, pos + Delivered(stream, pos, Paced(stream, n, last), turn, amount), turn + 1);
    }
  }

  lemma PacedTakes(stream: string, last: nat)
    requires 1 <= last <= 2 && Message(stream).Some? && MessageEnd(stream) + last <= |stream| + 1
    ensures var schedule := Paced(stream, MessageEnd(stream), last);
            Cooperative(stream, schedule) && (Receive(stream, schedule).Some? <==> last == 1)
  {
    hide LineFrom, HeadFrom, BodyFrom, ParseHead, HeadEnd, Find, ParseResponse;
    var n := MessageEnd(stream);
    var schedule := Paced(stream, n, last);
    MessageHeadBounds(stream);
    EmptyHasNoLine(stream);
    LinePaced(stream, n, last, 0, 0);
    LineStands(stream, schedule, 0, 0);
    HeadComes(stream, schedule);
    HeadStands(stream, schedule);
    var l, h := LineFrom(stream, schedule, 0, 0), Head(stream, schedule);
    HeadPaced(stream, n, last, l.found.value, l.pos, l.turn);
    BodyPaced(stream, n, last, h.pos, h.turn);
    FailsByExcess(stream, schedule);
  }

  /** Success is independent of the chunks exactly when nothing follows the message: any byte
      behind it is enough for a schedule that fails. */
  lemma AlwaysReceived(stream: string)
    requires Message(stream).Some?
    ensures (forall schedule | Cooperative(stream, schedule) :: Receive(stream, schedule).Some?) <==>
            |stream| == MessageEnd(stream)
  {
    hide Message, MessageEnd, Cooperative, Collect, Paced;
    if |stream| == MessageEnd(stream) {
      forall schedule | Cooperative(stream, schedule) ensures Receive(stream, schedule).Some? {
        FailsByExcess(stream, schedule);
        ReceivedIsMessage(stream, schedule);
      }
    } else {
      PacedTakes(stream, 2);
    }
  }

  /** Some schedule always succeeds, so with bytes behind the message it depends on the chunks. */
  lemma SometimesReceived(stream: string)
    requires Message(stream).Some?
    ensures exists schedule | Cooperative(stream, schedule) :: Receive(stream, schedule) == Message(stream)
  {
    hide Message, MessageEnd, Cooperative, Collect, Paced;
    PacedTakes(stream, 1);
    ReceivedIsMessage(stream, Paced(stream, MessageEnd(stream), 1));
  }

  /** A printed response followed by anything is a stream with that response as its message. */
  lemma PrintedMessage(r: Response, rest: string)
    requires Serialize(r).Some?
    ensures var stream := Serialize(r).value + rest;
            Message(stream) == Some(r) && MessageEnd(stream) == |Serialize(r).value|
  {
    hide HeadEnd, ParseHead, Serialize;
    RoundTrip(r);
    var data := Serialize(r).value;
    var stream := data + rest;
    assert stream[..|data|] == data;
    HeadEndInPrefix(stream, |data|);
    var end := HeadEnd(data).value;
    assert stream[..end] == data[..end] && stream[end..|data|] == data[end..];
  }

  /** One byte behind an empty response: two cooperative schedules, one of which fails. */
  lemma ChunksDecide()
    ensures exists stream, good, bad ::
      && Message(stream).Some? && Cooperative(stream, good) && Cooperative(stream, bad)
      && Receive(stream, good).Some? && Receive(stream, bad).None?
  {
    hide Message, MessageEnd, Cooperative, Receive, Paced;
    var r := Response(204, "");
    PrintedMessage(r, "x");
    var stream := Serialize(r).value + "x";
    PacedTakes(stream, 1);
    PacedTakes(stream, 2);
    var good, bad := Paced(stream, MessageEnd(stream), 1), Paced(stream, MessageEnd(stream), 2);
    assert Receive(stream, good).Some? && Receive(stream, bad).None?;
  }

  // --- The loops ---------------------------------------------------------------------------------

  /** Collect until the status line is complete; `line` is its length, or negative on failure. */
  method CollectLine(stream: string, schedule: seq<Recv>) returns (line: int, captured: string, turn: nat)
    ensures captured <= stream && turn <= |captured|
    ensures line >= 0 ==> line == Find(captured, CRLF, 0) && line + 2 <= MAX_STATUS_LINE
    ensures var l := LineFrom(stream, schedule, 0, 0);
            |captured| == l.pos && turn == l.turn && (if line >= 0 then l.found == Some(line) else l.found.None?)
    ensures Cooperative(stream, schedule) && Message(stream).Some? ==> line >= 0
  {
    hide Find, Message, Cooperative;
    captured, turn, line := "", 0, -1;
    if Cooperative(stream, schedule) && Message(stream).Some? {
      EmptyHasNoLine(stream);
      LineArrives(stream, schedule, 0, 0);
    }
    LineStands(stream, schedule, 0, 0);
    while line < 0
      invariant captured <= stream && turn <= |captured|
      invariant line < 0 ==> |captured| <= MAX_STATUS_LINE
      invariant line < 0 ==> LineFrom(stream, schedule, 0, 0) == LineFrom(stream, schedule, |captured|, turn)
      invariant line >= 0 ==> line == Find(captured, CRLF, 0)
      invariant line >= 0 ==>
        LineFrom(stream, schedule, 0, 0) ==
            Stage(if line + 2 > MAX_STATUS_LINE then None else Some(line), |captured|, turn)
      decreases if line < 0 then 1 else 0, |stream| - |captured|
    {
      var k := Delivered(stream, |captured|, schedule, turn, Min(HEADER_CHUNK, MAX_STATUS_LINE - |captured| + 1));
      if k == 0 { return; }
      captured, turn := stream[..|captured| + k], turn + 1;
      line := Find(captured, CRLF, 0);
      if line < 0 && |captured| > MAX_STATUS_LINE { return; }
    }
    if line + 2 > MAX_STATUS_LINE { line := -1; }
  }

  /** Collect the status line and header region; `captured` may run past the head. */
  method CollectHead(stream: string, schedule: seq<Recv>)
    returns (headEnd: Option<nat>, captured: string, turn: nat)
    ensures captured <= stream && turn <= |captured| && Head(stream, schedule) == Stage(headEnd, |captured|, turn)
    ensures headEnd.Some? ==> HeadEnd(stream) == headEnd && headEnd.value <= |captured|
    ensures Cooperative(stream, schedule) && Message(stream).Some? ==> headEnd.Some?
  {
    hide Find, HeadEnd, HeadFrom, LineFrom, OccursAt, Message, Cooperative, Delivered;
    headEnd := None;
    var line;
    line, captured, turn := CollectLine(stream, schedule);
    HeadStands(stream, schedule);
    LineStands(stream, schedule, 0, 0);
    if Cooperative(stream, schedule) && Message(stream).Some? { HeadComes(stream, schedule); }
    if line < 0 { return; }
    assert captured == stream[..|captured|];
    HeadStep(stream, schedule, line, |captured|, turn);
    if OccursAt(captured, CRLF, line + 2) { return Some(line + 4), captured, turn; }
    var blank := Find(captured, BLANK, line + 2);
    while blank < 0
      invariant captured <= stream && 0 <= line && line + 2 <= |captured|
      invariant blank == Find(captured, BLANK, line + 2) && !OccursAt(captured, CRLF, line + 2)
      invariant Head(stream, schedule) == HeadFrom(stream, schedule, line, |captured|, turn)
      decreases if blank < 0 then 1 else 0, |stream| - |captured|
    {
      assert captured == stream[..|captured|];
      HeadStep(stream, schedule, line, |captured|, turn);
      var used := |captured| - (line + 2);
      if MAX_HEADERS - used < 0 { return; }
      var k := Delivered(stream, |captured|, schedule, turn, Min(HEADER_CHUNK, MAX_HEADERS - used + 1));
      if k == 0 { return; }
      captured, turn := stream[..|captured| + k], turn + 1;
      HeadStep(stream, schedule, line, |captured|, turn);
      if OccursAt(captured, CRLF, line + 2) { return Some(line + 4), captured, turn; }
      blank := Find(captured, BLANK, line + 2);
      if blank < 0 && |captured| - (line + 2) > MAX_HEADERS { return; }
    }
    assert captured == stream[..|captured|];
    HeadStep(stream, schedule, line, |captured|, turn);
    if blank + 4 - (line + 2) > MAX_HEADERS { return; }
    headEnd := Some(blank + 4);
  }

  /** Collect one response. On success it is the response the stream alone determines;
      under a cooperative schedule the collection fails exactly when a read ran past the
      end of the message, so a stream that is one exact message always succeeds.
   */
  method ReceiveResponse(stream: string, schedule: seq<Recv>) returns (r: Option<Response>, consumed: nat)
    ensures (r, consumed) == Collect(stream, schedule) && consumed <= |stream|
    ensures r.Some? ==> r == Message(stream) == ParseResponse(stream[..consumed]) && consumed == MessageEnd(stream)
    ensures Cooperative(stream, schedule) && Message(stream).Some? ==> (r.Some? <==> consumed <= MessageEnd(stream))
  {
    hide Find, HeadEnd, ParseHead, Message, ParseResponse, Cooperative, Head, MessageEnd;
    var headEnd, captured, turn := CollectHead(stream, schedule);
    r, consumed := None, |captured|;
    ReceivedIsMessage(stream, schedule);
    if Cooperative(stream, schedule) && Message(stream).Some? { FailsByExcess(stream, schedule); }
    if headEnd == None { return; }
    var head := ParseHead(captured[..headEnd.value]);
    assert captured[..headEnd.value] == stream[..headEnd.value];
    if head == None { return; }
    var end := headEnd.value + head.value.bodyLength;
    if consumed > end { return; }
    while consumed < end
      invariant consumed <= |stream| && consumed <= end
      invariant BodyFrom(stream, schedule, end, |captured|, Head(stream, schedule).turn) ==
              BodyFrom(stream, schedule, end, consumed, turn)
      decreases end - consumed
    {
      var k := Delivered(stream, consumed, schedule, turn, Min(BODY_CHUNK, end - consumed + 1));
      if k == 0 { return; }
      consumed, turn := consumed + k, turn + 1;
      if consumed > end { return; }
    }
    r := ParseResponse(stream[..consumed]);
  }
}
