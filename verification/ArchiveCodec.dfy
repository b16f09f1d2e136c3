/** Segments as values stand for their bytes, whatever codec the events come with. */
module ArchiveCodec {
  import opened Unicode
  import opened Text
  import P = AccountingPolicy
  import opened AccountingTransition
  import A = AccountingArchive
  import B = ArchiveBytes

  /** How events, digests and identities are written. */
  datatype Codec = Codec(body: Event -> seq<Byte>, digest: Digest -> seq<Byte>, identity: nat -> string,
                         hex: Digest -> string)

  /** The events of a segment are written within their bounds, with digests of their width. */
  ghost predicate Bounded(c: Codec, frames: seq<A.Frame>) {
    forall i | 0 <= i < |frames| :: 2 <= |c.body(frames[i].event)| <= B.MAX_BODY
        && |c.digest(Of(frames[i].event))| == 32
  }

  /** Nothing in two segments is written like something else in them. */
  ghost predicate Distinguishes(c: Codec, s: A.Segment, t: A.Segment) {
    && (forall i, j | 0 <= i < |s.frames| && 0 <= j < |t.frames| ::
          c.body(s.frames[i].event) == c.body(t.frames[j].event) ==> s.frames[i].event == t.frames[j].event)
    && (c.identity(s.owner.ledger) == c.identity(t.owner.ledger) ==> s.owner.ledger == t.owner.ledger)
    && (c.identity(s.owner.experiment) == c.identity(t.owner.experiment) ==> s.owner.experiment == t.owner.experiment)
    && (c.hex(s.start) == c.hex(t.start) ==> s.start == t.start) && (c.hex(s.end) == c.hex(t.end) ==> s.end == t.end)
  }

  function RawFrame(c: Codec, f: A.Frame): B.Frame { B.Frame(f.sequence, c.digest(Of(f.event)), c.body(f.event)) }

  function RawFrames(c: Codec, frames: seq<A.Frame>): seq<B.Frame> {
    seq(|frames|, i requires 0 <= i < |frames| => RawFrame(c, frames[i]))
  }

  function HeaderOf(c: Codec, s: A.Segment): B.Header {
    B.Header(c.identity(s.owner.ledger), s.owner.generation, c.identity(s.owner.experiment), s.first, s.last,
             |s.frames|,
             |B.Payload(RawFrames(c, s.frames))|, c.hex(s.start), c.hex(s.end))
  }

  function BytesOf(c: Codec, s: A.Segment): seq<Byte>
    requires B.HeaderText(HeaderOf(c, s)).Ok?
  {
    B.SegmentBytes(B.HeaderText(HeaderOf(c, s)).value, RawFrames(c, s.frames))
  }

  /** The header can be written within its bounds, and the whole segment within its own. */
  ghost predicate Fits(c: Codec, s: A.Segment) {
    var h := HeaderOf(c, s);
    && 1 <= h.generation < 0x8000_0000 && h.payload <= B.MAX_SEGMENT
    && B.HeaderText(h).Ok? && 1 <= |B.HeaderText(h).value| <= B.MAX_HEADER
    && |BytesOf(c, s)| <= B.MAX_SEGMENT
  }

  /** A segment that can be read back: numbered as its header says. */
  ghost predicate Sound(s: A.Segment) {
    && 1 <= s.first <= s.last <= B.MAX_EVENTS && |s.frames| == s.last - s.first + 1
    && forall i | 0 <= i < |s.frames| :: s.frames[i].sequence == s.first + i
  }

  lemma PayloadAtLeast(frames: seq<B.Frame>)
    requires frames != [] && |frames[0].digest| == 32 && |frames[0].body| >= 2
    ensures |B.Payload(frames)| >= B.MIN_PAYLOAD
  {
    B.PayloadFirst(frames);
  }

  lemma RawNumbered(c: Codec, s: A.Segment)
    requires Bounded(c, s.frames) && Sound(s)
    ensures B.Numbered(RawFrames(c, s.frames), s.first) && |RawFrames(c, s.frames)| == |s.frames|
    ensures |B.Payload(RawFrames(c, s.frames))| >= B.MIN_PAYLOAD
  {
    hide B.Payload;
    PayloadAtLeast(RawFrames(c, s.frames));
  }

  lemma FitsFitting(c: Codec, s: A.Segment)
    requires Bounded(c, s.frames) && Sound(s) && Fits(c, s)
    ensures B.Fitting(HeaderOf(c, s), RawFrames(c, s.frames))
  {
    hide Bounded, B.Payload, B.HeaderText, B.SegmentBytes, RawFrames;
    RawNumbered(c, s);
  }

  lemma SameFrames(c: Codec, s: A.Segment, t: A.Segment)
    requires Distinguishes(c, s, t) && RawFrames(c, s.frames) == RawFrames(c, t.frames)
    ensures s.frames == t.frames
  {
    var x, y := s.frames, t.frames;
    assert |x| == |RawFrames(c, x)| == |y|;
    forall i | 0 <= i < |x| ensures x[i] == y[i] {
      assert RawFrames(c, x)[i] == RawFrame(c, x[i]) && RawFrames(c, y)[i] == RawFrame(c, y[i]);
      assert c.body(x[i].event) == c.body(y[i].event);
    }
  }

  /** Two segments with the same bytes are the same segment. */
  lemma BytesDetermine(c: Codec, s: A.Segment, t: A.Segment)
    requires Bounded(c, s.frames) && Bounded(c, t.frames) && Distinguishes(c, s, t)
    requires Sound(s) && Sound(t) && Fits(c, s) && Fits(c, t) && BytesOf(c, s) == BytesOf(c, t)
    ensures s == t
  {
    hide B.Payload, B.HeaderText, B.SegmentBytes, RawFrames, B.ReadSegment, B.Fitting, Distinguishes, Bounded;
    FitsFitting(c, s);
    FitsFitting(c, t);
    B.SegmentReads(HeaderOf(c, s), RawFrames(c, s.frames));
    B.SegmentReads(HeaderOf(c, t), RawFrames(c, t.frames));
    SameFrames(c, s, t);
    SameHeader(c, s, t);
  }

  lemma SameHeader(c: Codec, s: A.Segment, t: A.Segment)
    requires Distinguishes(c, s, t) && HeaderOf(c, s) == HeaderOf(c, t)
    ensures s.owner == t.owner && s.first == t.first && s.last == t.last && s.start == t.start && s.end == t.end
  {
    hide B.Payload, RawFrames;
  }

  lemma StretchSound(weekFor: int -> Option<P.Week>, events: seq<Event>, lo: nat, hi: nat)
    requires lo < hi <= |events| && Replay(weekFor, events).Ok?
    ensures Sound(A.StretchSegment(events, lo, hi))
  {
    hide Replay;
    A.ReplayBounds(weekFor, events);
  }

  /** A stretch of a replayable history is encoded exactly when its bytes fit; and then those bytes
      read back as its header and frames, and it decodes to the replay of everything up to its end. */
  lemma StretchBytes(weekFor: int -> Option<P.Week>, c: Codec, events: seq<Event>, lo: nat, hi: nat)
    requires lo < hi <= |events| && Replay(weekFor, events).Ok? && Bounded(c, A.Frames(events[lo..hi], lo + 1))
    ensures var s := A.StretchSegment(events, lo, hi);
            var r := A.EncodeSegment(weekFor, events[lo..hi], A.PriorOf(weekFor, events, lo), Fits(c, s));
            if Fits(c, s) then
              && r.Fine? && r.value.0 == s && Replay(weekFor, events[..hi]) == Ok(r.value.1)
              && B.ReadSegment(BytesOf(c, s)) == B.Fine((HeaderOf(c, s), RawFrames(c, s.frames)))
            else r == A.Bad(A.Capacity)
  {
    hide Bounded, Fits, Sound, Replay, A.EncodeSegment, A.PriorOf, B.ReadSegment, B.Fitting, B.Payload, B.SegmentBytes,
        RawFrames;
    var s := A.StretchSegment(events, lo, hi);
    A.StretchEncodes(weekFor, events, lo, hi, Fits(c, s));
    if Fits(c, s) {
      StretchSound(weekFor, events, lo, hi);
      FitsFitting(c, s);
      FitsText(c, s);
      B.SegmentReads(HeaderOf(c, s), RawFrames(c, s.frames));
    }
  }

  lemma FitsText(c: Codec, s: A.Segment)
    requires Fits(c, s)
    ensures B.HeaderText(HeaderOf(c, s)).Ok?
  {
    hide B.HeaderText, B.Payload;
  }
}
