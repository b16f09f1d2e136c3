/** The bytes of an archive segment: a magic, a length-prefixed canonical header, and
    length-prefixed frames. Reading is the exact inverse of writing. */
module ArchiveBytes {
  import opened Text
  import opened Unicode
  import opened Json
  import CanonicalJson
  import CanonicalInjective

  const MAX_HEADER: nat := 4096
  const MAX_SEGMENT: nat := 160 * 1_048_576
  const MAX_EVENTS: nat := 8192
  const MAX_BODY: nat := 16_384
  const MIN_PAYLOAD: nat := 38

  /** The bytes that stand for `MAOIAR01`. */
  const MAGIC: seq<Byte> := [77, 65, 79, 73, 65, 82, 48, 49]

  // --- Big-endian numbers -------------------------------------------------------------------------

  function Pow(k: nat): nat { if k == 0 then 1 else 256 * Pow(k - 1) }

  function Big(k: nat, n: nat): (b: seq<Byte>)
    ensures |b| == k
  {
    if k == 0 then [] else Big(k - 1, n / 256) + [(n % 256) as Byte]
  }

  function BigValue(b: seq<Byte>): nat {
    if b == [] then 0 else 256 * BigValue(b[..|b| - 1]) + b[|b| - 1] as nat
  }

  lemma {:induction false} BigRoundTrip(k: nat, n: nat)
    requires n < Pow(k)
    ensures BigValue(Big(k, n)) == n
  {
    if k > 0 {
      BigRoundTrip(k - 1, n / 256);
      assert Big(k, n)[..k - 1] == Big(k - 1, n / 256);
    }
  }

  lemma {:induction false} BigOfValue(b: seq<Byte>)
    ensures Big(|b|, BigValue(b)) == b && BigValue(b) < Pow(|b|)
  {
    if b != [] {
      var front, last := b[..|b| - 1], b[|b| - 1];
      BigOfValue(front);
      assert (256 * BigValue(front) + last as nat) / 256 == BigValue(front);
      assert b == front + [last];
    }
  }

  lemma Powers()
    ensures Pow(4) == 0x1_0000_0000 && Pow(8) == 0x1_0000_0000_0000_0000
  {
    assert Pow(2) == 65_536;
    assert Pow(4) == 256 * (256 * Pow(2));
    assert Pow(6) == 256 * (256 * Pow(4));
    assert Pow(8) == 256 * (256 * Pow(6));
  }

  // --- Frames ------------------------------------------------------------------------------------------

  datatype Frame = Frame(sequence: nat, digest: seq<Byte>, body: seq<Byte>)

  datatype Error = Invalid | OutOfSequence

  datatype Outcome<+T> = Fine(value: T) | Bad(error: Error)

  predicate FrameOk(f: Frame) { |f.digest| == 32 && 2 <= |f.body| <= MAX_BODY && f.sequence <= MAX_EVENTS }

  /** Frames well formed and numbered from `first`. */
  ghost predicate Numbered(frames: seq<Frame>, first: nat) {
    forall i | 0 <= i < |frames| :: FrameOk(frames[i]) && frames[i].sequence == first + i
  }

  function FrameBytes(f: Frame): seq<Byte> { Big(8, f.sequence) + Big(4, |f.body|) + f.digest + f.body }

  function Payload(frames: seq<Frame>): seq<Byte> {
    if frames == [] then [] else Payload(frames[..|frames| - 1]) + FrameBytes(frames[|frames| - 1])
  }

  /** The encoding loop: the payload grows by one frame a turn. */
  method PackFrames(frames: seq<Frame>) returns (payload: seq<Byte>)
    ensures payload == Payload(frames)
  {
    payload := [];
    for i := 0 to |frames|
      invariant payload == Payload(frames[..i])
    {
      assert frames[..i + 1][..i] == frames[..i];
      payload := payload + Big(8, frames[i].sequence) + Big(4, |frames[i].body|);
      payload := payload + frames[i].digest;
      payload := payload + frames[i].body;
      Joined(Payload(frames[..i]), frames[i]);
    }
    assert frames[..|frames|] == frames;
  }

  lemma Joined(before: seq<Byte>, f: Frame)
    ensures before + Big(8, f.sequence) + Big(4, |f.body|) + f.digest + f.body == before + FrameBytes(f)
  {
  }

  /** The frame at a position, if its number is the expected one and its length is in bounds. */
  function ReadFrame(raw: seq<Byte>, pos: nat, sequence: nat): Outcome<Frame>
    requires pos <= |raw|
  {
    if |raw| - pos < 44 then Bad(Invalid)
    else
      var stored, length := BigValue(raw[pos..pos + 8]), BigValue(raw[pos + 8..pos + 12]);
      if stored != sequence then Bad(OutOfSequence)
      else if !(2 <= length <= MAX_BODY) || |raw| - pos < 44 + length then Bad(Invalid)
      else Fine(Frame(sequence, raw[pos + 12..pos + 44], raw[pos + 44..pos + 44 + length]))
  }

  /** `count` frames from a position to the very end. */
  function ReadFrames(raw: seq<Byte>, pos: nat, sequence: nat, count: nat): Outcome<seq<Frame>>
    requires pos <= |raw|
    decreases count
  {
    if count == 0 then if pos == |raw| then Fine([]) else Bad(Invalid)
    else
      match ReadFrame(raw, pos, sequence)
      case Bad(e) => Bad(e)
      case Fine(f) =>
        match ReadFrames(raw, pos + 44 + |f.body|, sequence + 1, count - 1)
        case Bad(e) => Bad(e)
        case Fine(rest) => Fine([f] + rest)
  }

  /** The decoding loop, with its advancing position. */
  method DecodeFrames(raw: seq<Byte>, start: nat, first: nat, count: nat) returns (r: Outcome<seq<Frame>>)
    requires start <= |raw|
    ensures r == ReadFrames(raw, start, first, count)
  {
    hide ReadFrame;
    var frames, pos: nat := [], start;
    Prefixed([], ReadFrames(raw, start, first, count));
    for i := 0 to count
      invariant pos <= |raw|
      invariant ReadFrames(raw, start, first, count) == Prepend(frames, ReadFrames(raw, pos, first + i, count - i))
    {
      var f := ReadFrame(raw, pos, first + i);
      if f.Bad? { return Bad(f.error); }
      FrameInside(raw, pos, first + i);
      var next := pos + 44 + |f.value.body|;
      PrependTwice(frames, f.value, ReadFrames(raw, next, first + i + 1, count - i - 1));
      frames, pos := frames + [f.value], next;
    }
    if pos != |raw| { return Bad(Invalid); }
    assert frames + [] == frames;
    r := Fine(frames);
  }

  function Prepend(frames: seq<Frame>, rest: Outcome<seq<Frame>>): Outcome<seq<Frame>> {
    if rest.Bad? then rest else Fine(frames + rest.value)
  }

  lemma Prefixed(frames: seq<Frame>, rest: Outcome<seq<Frame>>)
    ensures Prepend([], rest) == rest
  {
    if rest.Fine? { assert [] + rest.value == rest.value; }
  }

  lemma PrependTwice(frames: seq<Frame>, f: Frame, rest: Outcome<seq<Frame>>)
    ensures Prepend(frames, Prepend([f], rest)) == Prepend(frames + [f], rest)
  {
    if rest.Fine? { assert frames + ([f] + rest.value) == frames + [f] + rest.value; }
  }

  lemma FrameInside(raw: seq<Byte>, pos: nat, sequence: nat)
    requires pos <= |raw| && ReadFrame(raw, pos, sequence).Fine?
    ensures pos + 44 + |ReadFrame(raw, pos, sequence).value.body| <= |raw|
  {
  }

  // --- Frames read back ----------------------------------------------------------------------------------

  lemma Slices(before: seq<Byte>, a: seq<Byte>, b: seq<Byte>, c: seq<Byte>, d: seq<Byte>, after: seq<Byte>)
    ensures var raw, i := before + (a + b + c + d) + after, |before|;
            var j := i + |a|;
            var k := j + |b|;
            var l := k + |c|;
            && l + |d| <= |raw| && raw[i..j] == a && raw[j..k] == b && raw[k..l] == c && raw[l..l + |d|] == d
  {
  }

  lemma FrameReads(before: seq<Byte>, f: Frame, after: seq<Byte>)
    requires FrameOk(f)
    ensures ReadFrame(before + FrameBytes(f) + after, |before|, f.sequence) == Fine(f)
    ensures |FrameBytes(f)| == 44 + |f.body|
  {
    hide Big, BigValue, Pow;
    Powers();
    BigRoundTrip(8, f.sequence);
    BigRoundTrip(4, |f.body|);
    Slices(before, Big(8, f.sequence), Big(4, |f.body|), f.digest, f.body, after);
  }

  lemma Regroup(a: seq<Byte>, b: seq<Byte>, c: seq<Byte>)
    ensures a + b + c == a + (b + c)
  {
  }

  lemma PayloadLast(frames: seq<Frame>)
    requires frames != []
    ensures Payload(frames) == Payload(frames[..|frames| - 1]) + FrameBytes(frames[|frames| - 1])
  {
    hide FrameBytes;
  }

  lemma {:induction false} PayloadFirst(frames: seq<Frame>)
    requires frames != []
    ensures Payload(frames) == FrameBytes(frames[0]) + Payload(frames[1..])
  {
    hide FrameBytes, Payload;
    var n := |frames| - 1;
    PayloadLast(frames);
    if n == 0 {
      assert frames[..n] == [] && frames[1..] == [];
      PayloadEmpty();
    } else {
      var middle := frames[1..n];
      PayloadFirst(frames[..n]);
      PayloadLast(frames[1..]);
      assert frames[..n][1..] == middle && frames[1..][..n - 1] == middle;
      Regroup(FrameBytes(frames[0]), Payload(middle), FrameBytes(frames[n]));
    }
  }

  lemma PayloadEmpty()
    ensures Payload([]) == [] && forall b: seq<Byte> :: [] + b == b + [] == b
  {
  }

  lemma {:induction false} FramesRead(before: seq<Byte>, frames: seq<Frame>, first: nat)
    requires Numbered(frames, first)
    ensures ReadFrames(before + Payload(frames), |before|, first, |frames|) == Fine(frames)
    decreases |frames|
  {
    hide FrameBytes, ReadFrame, FrameOk;
    if frames == [] {
      assert before + Payload(frames) == before;
    } else {
      var f, rest := frames[0], frames[1..];
      assert FrameOk(f) && f.sequence == first;
      PayloadFirst(frames);
      FrameReads(before, f, Payload(rest));
      assert before + Payload(frames) == before + FrameBytes(f) + Payload(rest);
      FramesRead(before + FrameBytes(f), rest, first + 1);
      assert [f] + rest == frames;
    }
  }

  lemma FrameSound(raw: seq<Byte>, pos: nat, sequence: nat)
    requires pos <= |raw| && sequence <= MAX_EVENTS && ReadFrame(raw, pos, sequence).Fine?
    ensures var f := ReadFrame(raw, pos, sequence).value;
            FrameOk(f) && f.sequence == sequence && pos + 44 + |f.body| <= |raw|
                && raw[pos..pos + 44 + |f.body|] == FrameBytes(f)
  {
    var f := ReadFrame(raw, pos, sequence).value;
    BigOfValue(raw[pos..pos + 8]);
    BigOfValue(raw[pos + 8..pos + 12]);
    assert raw[pos..pos + 44 + |f.body|] ==
           raw[pos..pos + 8] + raw[pos + 8..pos + 12] + raw[pos + 12..pos + 44] + raw[pos + 44..pos + 44 + |f.body|];
  }

  /** Whatever reads as frames is exactly the bytes of those frames. */
  lemma {:induction false} FramesSound(raw: seq<Byte>, pos: nat, first: nat, count: nat)
    requires pos <= |raw| && first + count <= MAX_EVENTS + 1 && ReadFrames(raw, pos, first, count).Fine?
    ensures var frames := ReadFrames(raw, pos, first, count).value;
            |frames| == count && Numbered(frames, first) && raw[pos..] == Payload(frames)
    decreases count
  {
    hide FrameBytes, ReadFrame, FrameOk;
    var frames := ReadFrames(raw, pos, first, count).value;
    if count > 0 {
      FrameSound(raw, pos, first);
      var f := frames[0];
      var next := pos + 44 + |f.body|;
      FramesSound(raw, next, first + 1, count - 1);
      assert frames[1..] == ReadFrames(raw, next, first + 1, count - 1).value;
      PayloadFirst(frames);
      assert raw[pos..] == raw[pos..next] + raw[next..];
      assert forall i | 1 <= i < |frames| :: frames[i] == frames[1..][i - 1];
    }
  }

  // --- The header --------------------------------------------------------------------------------------------

  datatype Header = Header(
    ledger: string, generation: int, experiment: string, first: int, last: int, count: int, payload: int,
        start: string, end: string)

  function HeaderMembers(h: Header): seq<Member> {
    [Member("format", Str("accounting-archive-segment.v1")), Member("ledger_uuid", Str(h.ledger)),
     Member("ledger_generation", Int(h.generation)),
     Member("experiment_id", Str(h.experiment)), Member("first_sequence", Int(h.first)),
         Member("last_sequence", Int(h.last)),
     Member("event_count", Int(h.count)), Member("payload_bytes", Int(h.payload)),
         Member("start_previous_digest", Str(h.start)),
     Member("end_event_digest", Str(h.end))]
  }

  function HeaderText(h: Header): Result<seq<Byte>> { CanonicalJson.CanonicalBytes(Dict(HeaderMembers(h)), true) }

  /** No two of the names share both their length and their first letter. */
  function Mark(key: string): int { if key == "" then 0 else |key| * 1_000 + key[0] as int }

  lemma Marks(h: Header)
    ensures var m := HeaderMembers(h);
            && |m| == 10
            && Mark(m[0].key) == 6_102 && Mark(m[1].key) == 11_108 && Mark(m[2].key) == 17_108
                && Mark(m[3].key) == 13_101
            && Mark(m[4].key) == 14_102 && Mark(m[5].key) == 13_108 && Mark(m[6].key) == 11_101
                && Mark(m[7].key) == 13_112
            && Mark(m[8].key) == 21_115 && Mark(m[9].key) == 16_101
  {
  }

  lemma Leaves(h: Header)
    ensures forall i | 0 <= i < |HeaderMembers(h)| :: HeaderMembers(h)[i].value.Str? || HeaderMembers(h)[i].value.Int?
  {
  }

  lemma HeaderDistinct(h: Header)
    ensures DistinctKeys(HeaderMembers(h)) && WellFormed(Dict(HeaderMembers(h)))
  {
    hide HeaderMembers, Mark;
    Marks(h);
    Leaves(h);
    var m := HeaderMembers(h);
    forall i, j | 0 <= i < j < |m| ensures m[i].key != m[j].key {
      assert Mark(m[i].key) != Mark(m[j].key);
    }
  }

  lemma SameField(h: Header, g: Header, i: nat)
    requires i < 10 && HeaderText(h).Ok? && HeaderText(h) == HeaderText(g)
    ensures Meaning(HeaderMembers(h)[i].value) == Meaning(HeaderMembers(g)[i].value)
  {
    hide CanonicalJson.CanonicalBytes, HeaderMembers, Meaning;
    HeaderDistinct(h);
    HeaderDistinct(g);
    CanonicalInjective.EqualBytesEqualMeaning(Dict(HeaderMembers(h)), Dict(HeaderMembers(g)), true, true);
    SameMembers(h, g);
    TenMembers(h, g);
    MeaningOfKey(HeaderMembers(h), i);
    MeaningOfKey(HeaderMembers(g), i);
  }

  lemma SameMembers(h: Header, g: Header)
    requires Meaning(Dict(HeaderMembers(h))) == Meaning(Dict(HeaderMembers(g)))
    ensures MeaningMembers(HeaderMembers(h)) == MeaningMembers(HeaderMembers(g))
  {
    hide HeaderMembers, MeaningMembers;
  }

  lemma TenMembers(h: Header, g: Header)
    ensures |HeaderMembers(h)| == |HeaderMembers(g)| == 10
    ensures forall i | 0 <= i < 10 :: HeaderMembers(h)[i].key == HeaderMembers(g)[i].key
  {
  }

  lemma Fields(h: Header)
    ensures var m := HeaderMembers(h);
            && |m| == 10
            && Meaning(m[1].value) == TStr(h.ledger) && Meaning(m[2].value) == TInt(h.generation)
                && Meaning(m[3].value) == TStr(h.experiment)
            && Meaning(m[4].value) == TInt(h.first) && Meaning(m[5].value) == TInt(h.last)
                && Meaning(m[6].value) == TInt(h.count)
            && Meaning(m[7].value) == TInt(h.payload) && Meaning(m[8].value) == TStr(h.start)
                && Meaning(m[9].value) == TStr(h.end)
  {
  }

  /** The header's bytes determine the header. */
  lemma HeaderInjective(h: Header, g: Header)
    requires HeaderText(h).Ok? && HeaderText(h) == HeaderText(g)
    ensures h == g
  {
    hide HeaderText, HeaderMembers, Meaning;
    Fields(h);
    Fields(g);
    forall i: nat | i < 10 ensures Meaning(HeaderMembers(h)[i].value) == Meaning(HeaderMembers(g)[i].value) {
      SameField(h, g, i);
    }
    assert h.ledger == g.ledger && h.generation == g.generation && h.experiment == g.experiment;
  }

  predicate HeaderOk(h: Header) {
    && 1 <= h.generation < 0x8000_0000 && 1 <= h.first <= h.last <= MAX_EVENTS && h.count == h.last - h.first + 1
    && MIN_PAYLOAD <= h.payload <= MAX_SEGMENT
  }

  // --- The segment --------------------------------------------------------------------------------------------

  function SegmentBytes(text: seq<Byte>, frames: seq<Frame>): seq<Byte> {
    MAGIC + Big(4, |text|) + text + Payload(frames)
  }

  /** The header parsed from canonical bytes: the one whose bytes they are. */
  ghost function ReadHeader(text: seq<Byte>): Option<Header> {
    if exists h :: HeaderText(h) == Ok(text) then
      var h :| HeaderText(h) == Ok(text);
      Some(h)
    else None
  }

  ghost function ReadSegment(raw: seq<Byte>): Outcome<(Header, seq<Frame>)> {
    if !(13 <= |raw| <= MAX_SEGMENT) || raw[..8] != MAGIC then Bad(Invalid)
    else
      var n := BigValue(raw[8..12]);
      if !(1 <= n <= MAX_HEADER && 12 + n <= |raw|) then Bad(Invalid)
      else
        match ReadHeader(raw[12..12 + n])
        case None => Bad(Invalid)
        case Some(h) =>
          if !HeaderOk(h) || |raw| - (12 + n) != h.payload then Bad(Invalid)
          else
            match ReadFrames(raw, 12 + n, h.first, h.count)
            case Bad(e) => Bad(e)
            case Fine(frames) => Fine((h, frames))
  }

  /** What a segment's header and frames must be to one another. */
  ghost predicate Fitting(h: Header, frames: seq<Frame>) {
    && HeaderOk(h) && |frames| == h.count && Numbered(frames, h.first) && |Payload(frames)| == h.payload
    && HeaderText(h).Ok? && 1 <= |HeaderText(h).value| <= MAX_HEADER
    && |SegmentBytes(HeaderText(h).value, frames)| <= MAX_SEGMENT
  }

  lemma HeaderReads(h: Header)
    requires HeaderText(h).Ok?
    ensures ReadHeader(HeaderText(h).value) == Some(h)
  {
    hide HeaderText;
    var g := ReadHeader(HeaderText(h).value).value;
    HeaderInjective(h, g);
  }

  lemma Parts(text: seq<Byte>, frames: seq<Frame>)
    requires |text| <= MAX_HEADER
    ensures var raw := SegmentBytes(text, frames);
            && |raw| == 12 + |text| + |Payload(frames)| && raw[..8] == MAGIC && BigValue(raw[8..12]) == |text|
                && raw[12..12 + |text|] == text
            && raw == raw[..12 + |text|] + Payload(frames)
  {
    hide Payload;
    Powers();
    BigRoundTrip(4, |text|);
    var raw := SegmentBytes(text, frames);
    assert raw[8..12] == Big(4, |text|);
    assert raw[12..12 + |text|] == text;
    assert raw[12 + |text|..] == Payload(frames);
  }

  /** Reading the bytes of a segment gives its header and its frames back. */
  lemma SegmentReads(h: Header, frames: seq<Frame>)
    requires Fitting(h, frames)
    ensures ReadSegment(SegmentBytes(HeaderText(h).value, frames)) == Fine((h, frames))
  {
    hide Payload, HeaderText, ReadHeader, ReadFrames, BigValue, SegmentBytes, Numbered;
    var text := HeaderText(h).value;
    var raw := SegmentBytes(text, frames);
    Parts(text, frames);
    HeaderReads(h);
    FramesRead(raw[..12 + |text|], frames, h.first);
  }

  /** And whatever reads as a segment is exactly the bytes of the header and frames it gives. */
  lemma SegmentSound(raw: seq<Byte>)
    requires ReadSegment(raw).Fine?
    ensures var (h, frames) := ReadSegment(raw).value;
            Fitting(h, frames) && raw == SegmentBytes(HeaderText(h).value, frames)
  {
    hide Payload, HeaderText, ReadFrames, Numbered;
    var n := BigValue(raw[8..12]);
    var h := ReadHeader(raw[12..12 + n]).value;
    FramesSound(raw, 12 + n, h.first, h.count);
    BigOfValue(raw[8..12]);
    assert raw == raw[..8] + raw[8..12] + raw[12..12 + n] + raw[12 + n..];
  }
}
