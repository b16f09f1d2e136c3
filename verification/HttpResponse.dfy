/** The narrow HTTP/1.1 response codec: one complete status line, header region
    and declared body, parsed and printed.

    Every rejection of the codec is the one fixed error, modelled as `None`.
 */
module HttpResponse {
  import opened Text

  const CRLF := "\r\n"
  const BLANK := "\r\n\r\n"
  const MAX_STATUS_LINE: nat := 2048
  const MAX_HEADERS: nat := 16384
  const MAX_BODY: nat := 1048576
  const MAX_FIELDS: nat := 64
  const FORBIDDEN := {"transfer-encoding", "trailer", "content-encoding", "upgrade"}

  datatype Response = Response(status: int, body: string)

  datatype Head = Head(status: int, bodyLength: nat)

  // --- Lexical classes -------------------------------------------------------

  predicate ValidStatus(status: int) {
    200 <= status <= 299 || 400 <= status <= 599
  }

  predicate IsVisible(c: char) { ' ' <= c <= '~' }

  predicate IsTokenChar(c: char) {
    'a' <= c <= 'z' || 'A' <= c <= 'Z' || IsDigit(c) || c in "!#$%&'*+-.^_`|~"
  }

  predicate IsToken(s: string) { forall k | 0 <= k < |s| :: IsTokenChar(s[k]) }

  predicate IsFieldText(s: string) { forall k | 0 <= k < |s| :: s[k] == '\t' || IsVisible(s[k]) }

  predicate IsBlankChar(c: char) { c == ' ' || c == '\t' }

  function LowerChar(c: char): char {
    if 'A' <= c <= 'Z' then c + 32 as char else c
  }

  function Lower(s: string): string {
    seq(|s|, i requires 0 <= i < |s| => LowerChar(s[i]))
  }

  function Strip(s: string): string {
    if s == "" then s
    else if IsBlankChar(s[0]) then Strip(s[1..])
    else if IsBlankChar(s[|s| - 1]) then Strip(s[..|s| - 1])
    else s
  }

  function Split(s: string, sep: string): (parts: seq<string>)
    requires sep != ""
    ensures |parts| > 0
  {
    var i := Find(s, sep, 0);
    if i < 0 then [s] else [s[..i]] + Split(s[i + |sep|..], sep)
  }

  // --- Status line -----------------------------------------------------------

  function ParseStatus(line: string): Option<int> {
    var a := Find(line, " ", 0);
    if a < 0 then None
    else
      var b := Find(line, " ", a + 1);
      if b < 0 then None
      else
        var code, reason := line[a + 1..b], line[b + 1..];
        if line[..a] != "HTTP/1.1" || |code| != 3 || !AllDigits(code) then None
        else if reason == "" || reason[0] == ' ' || exists k | 0 <= k < |reason| :: !IsVisible(reason[k]) then None
        else if ValidStatus(DecimalValue(code)) then Some(DecimalValue(code))
        else None
  }

  function ParseStatusLine(data: string): (r: Option<(int, nat)>)
    ensures r.Some? ==> 2 <= r.value.1 <= |data| && ValidStatus(r.value.0)
  {
    var end := Find(data, CRLF, 0);
    if end < 0 || end + 2 > MAX_STATUS_LINE then None
    else
      match ParseStatus(data[..end])
      case None => None
      case Some(status) => Some((status, end + 2))
  }

  // --- Header region ---------------------------------------------------------

  function ParseField(line: string): Option<(string, string)> {
    var colon := Find(line, ":", 0);
    if colon <= 0 || IsBlankChar(line[colon - 1]) then None
    else
      var name, raw := line[..colon], line[colon + 1..];
      if !IsToken(name) || !IsFieldText(raw) then None
      else
        var lowered, value := Lower(name), Strip(raw);
        if '\t' in value && lowered != "connection" then None
        else Some((lowered, value))
  }

  /** The header map built line by line; a repeated or forbidden name rejects. */
  function FoldFields(lines: seq<string>, seen: map<string, string>): Option<map<string, string>> {
    if lines == [] then Some(seen)
    else
      match ParseField(lines[0])
      case None => None
      case Some((name, value)) =>
        if name in seen || name in FORBIDDEN then None
        else FoldFields(lines[1..], seen[name := value])
  }

  predicate ConnectionOk(fields: map<string, string>) {
    "connection" in fields ==>
      forall token | token in Split(fields["connection"], ",") ::
        var t := Strip(token);
        t != "" && IsToken(t) && Lower(t) !in {"content-length", "content-type"}
  }

  function ParseFields(data: string, start: nat): (r: Option<(map<string, string>, nat)>)
    requires start <= |data|
    ensures r.Some? ==> start + 2 <= r.value.1 <= |data|
  {
    if OccursAt(data, CRLF, start) then Some((map[], start + 2))
    else
      var end := Find(data, BLANK, start);
      if end < 0 || end + 4 - start > MAX_HEADERS then None
      else
        var lines := Split(data[start..end], CRLF);
        if |lines| > MAX_FIELDS then None
        else
          match FoldFields(lines, map[])
          case None => None
          case Some(fields) => if ConnectionOk(fields) then Some((fields, end + 4)) else None
  }

  /** The dictionary-filling loop over header lines, against `FoldFields`. */
  method CollectFields(lines: seq<string>) returns (r: Option<map<string, string>>)
    ensures r == FoldFields(lines, map[])
  {
    var seen: map<string, string> := map[];
    var i := 0;
    while i < |lines|
      invariant 0 <= i <= |lines|
      invariant FoldFields(lines, map[]) == FoldFields(lines[i..], seen)
    {
      assert lines[i..][1..] == lines[i + 1..];
      match ParseField(lines[i])
      case None => return None;
      case Some(field) =>
        if field.0 in seen || field.0 in FORBIDDEN {
          return None;
        }
        seen := seen[field.0 := field.1];
      i := i + 1;
    }
    return Some(seen);
  }

  // --- Declared length -------------------------------------------------------

  function BodyLength(status: int, fields: map<string, string>): (r: Option<nat>)
    ensures r.Some? ==> r.value <= MAX_BODY && (r.value == 0 <==> status in {204, 205})
  {
    if status == 204 then
      if "content-length" in fields || "content-type" in fields then None else Some(0)
    else if status == 205 then
      if "content-length" !in fields || fields["content-length"] != "0" || "content-type" in fields then None
      else Some(0)
    else if "content-length" !in fields || "content-type" !in fields then None
    else
      var length := fields["content-length"];
      if |length| > 7 || !CanonicalNumeral(length) || fields["content-type"] != "application/json" then None
      else if DecimalValue(length) > MAX_BODY || DecimalValue(length) == 0 then None
      else Some(DecimalValue(length))
  }

  /** No carriage return or line feed outside a CRLF pair. */
  predicate NoBareBreaks(s: string) {
    if s == "" then true
    else if |s| >= 2 && s[0] == '\r' && s[1] == '\n' then NoBareBreaks(s[2..])
    else s[0] != '\r' && s[0] != '\n' && NoBareBreaks(s[1..])
  }

  // --- Whole messages --------------------------------------------------------

  function ParseHead(data: string): (r: Option<Head>)
    ensures r.Some? ==> ValidStatus(r.value.status) && r.value.bodyLength <= MAX_BODY
    ensures r.Some? ==> (r.value.bodyLength == 0 <==> r.value.status in {204, 205})
  {
    if |data| > MAX_STATUS_LINE + MAX_HEADERS then None
    else
      match ParseStatusLine(data)
      case None => None
      case Some((status, start)) =>
        match ParseFields(data, start)
        case None => None
        case Some((fields, end)) =>
          if end != |data| || !NoBareBreaks(data) then None
          else
            match BodyLength(status, fields)
            case None => None
            case Some(length) => Some(Head(status, length))
  }

  /** Where the head of a complete message ends, or None while it is not there. */
  function HeadEnd(data: string): (r: Option<nat>)
    ensures r.Some? ==> r.value <= |data|
  {
    var line := Find(data, CRLF, 0);
    if line < 0 then None
    else if OccursAt(data, CRLF, line + 2) then Some(line + 4)
    else
      var blank := Find(data, BLANK, line + 2);
      if blank < 0 then None else Some(blank + 4)
  }

  function ParseResponse(data: string): Option<Response> {
    if |data| > MAX_STATUS_LINE + MAX_HEADERS + MAX_BODY then None
    else
      match HeadEnd(data)
      case None => None
      case Some(end) =>
        match ParseHead(data[..end])
        case None => None
        case Some(head) =>
          if |data| - end > MAX_BODY || |data| - end != head.bodyLength then None
          else Some(Response(head.status, data[end..]))
  }

  /** Exactly the responses the printer accepts. */
  predicate Serializable(r: Response) {
    ValidStatus(r.status) && |r.body| <= MAX_BODY && (r.body == "" <==> r.status in {204, 205})
  }

  function ReasonText(status: int): string {
    if status == 204 then "No Content" else if status == 205 then "Reset Content" else "Response"
  }

  function StatusText(status: int): string
    requires ValidStatus(status)
  {
    "HTTP/1.1 " + Decimal(status) + " " + ReasonText(status)
  }

  function Line(name: string, value: string): string { name + ":" + (" " + value) }

  function FieldLines(r: Response): seq<string> {
    if r.status == 204 then [Line("Connection", "close")]
    else if r.status == 205 then [Line("Content-Length", Decimal(0)), Line("Connection", "close")]
    else [Line("Content-Type", "application/json"), Line("Content-Length", Decimal(|r.body|)),
          Line("Connection", "close")]
  }

  function Join(lines: seq<string>): string {
    if lines == [] then "" else lines[0] + CRLF + Join(lines[1..])
  }

  function Serialize(r: Response): Option<string> {
    if Serializable(r) then Some(StatusText(r.status) + CRLF + Join(FieldLines(r)) + CRLF + r.body) else None
  }

  // --- Text made of lines ----------------------------------------------------

  ghost predicate LineText(s: string) { Free(s, '\r') && Free(s, '\n') }

  ghost predicate LinesText(lines: seq<string>) {
    forall k | 0 <= k < |lines| :: lines[k] != "" && LineText(lines[k])
  }

  lemma FindLineEnd(line: string, rest: string)
    requires LineText(line)
    ensures Find(line + CRLF + rest, CRLF, 0) == |line|
  {
    var s := line + CRLF + rest;
    assert OccursAt(s, CRLF, |line|);
    OccursChars(s, CRLF);
    forall k | 0 <= k && OccursAt(s, CRLF, k) ensures |line| <= k {
      assert s[k + 0] == CRLF[0];
    }
  }

  lemma FindNoLineEnd(line: string)
    requires LineText(line)
    ensures Find(line, CRLF, 0) == -1
  {
    OccursChars(line, CRLF);
    assert forall k | OccursAt(line, CRLF, k) :: line[k + 0] == CRLF[0];
  }

  lemma JoinSplit(lines: seq<string>)
    requires lines != []
    ensures Join(lines) == lines[0] + CRLF + Join(lines[1..])
    ensures |Join(lines)| >= |lines[0]| + 2
  {
  }

  lemma JoinNone()
    ensures Join([]) == ""
  {
  }

  /** Splitting the joined lines gives the lines back. */
  lemma {:induction false} SplitJoin(lines: seq<string>)
    requires lines != [] && LinesText(lines)
    ensures |Join(lines)| >= 2 && Split(Join(lines)[..|Join(lines)| - 2], CRLF) == lines
  {
    hide Join, LineText, Split, Find;
    var first, rest := lines[0], lines[1..];
    assert LineText(first) && LinesText(rest) && lines == [first] + rest;
    hide LinesText;
    JoinSplit(lines);
    if rest == [] {
      JoinNone();
      SplitLast(first);
    } else {
      JoinSplit(rest);
      SplitJoin(rest);
      SplitFirst(first, Join(rest));
    }
  }

  lemma SplitLast(line: string)
    requires LineText(line)
    ensures var text := line + CRLF + ""; Split(text[..|text| - 2], CRLF) == [line]
  {
    hide LineText, Find;
    var text := line + CRLF + "";
    assert text[..|text| - 2] == line;
    FindNoLineEnd(line);
  }

  lemma SplitFirst(line: string, rest: string)
    requires LineText(line) && |rest| >= 2
    ensures var text := line + CRLF + rest;
            Split(text[..|text| - 2], CRLF) == [line] + Split(rest[..|rest| - 2], CRLF)
  {
    hide LineText, Find;
    var text, tail := line + CRLF + rest, rest[..|rest| - 2];
    var cut := text[..|text| - 2];
    assert cut == line + CRLF + tail;
    FindLineEnd(line, tail);
    assert cut[|line| + 2..] == tail;
    assert cut[..|line|] == line;
  }

  /** Only the end of the first line can start a blank line before the second line. */
  lemma BlankAfterFirst(pre: string, first: string, rest: string)
    requires LineText(first)
    ensures forall k | |pre| <= k < |pre| + |first| + 2 && OccursAt(pre + first + CRLF + rest, BLANK, k) ::
      k == |pre| + |first| && rest != "" && rest[0] == '\r'
  {
    var s := pre + first + CRLF + rest;
    var edge := |pre| + |first|;
    OccursChars(s, BLANK);
    assert forall k | |pre| <= k < edge :: s[k] == first[k - |pre|];
    forall k | |pre| <= k < edge + 2 && OccursAt(s, BLANK, k) ensures k == edge && rest != "" && rest[0] == '\r' {
      assert s[k + 0] == BLANK[0] && s[k + 2] == BLANK[2];
    }
  }

  /** The blank line ending joined non-empty lines is the first one after them. */
  lemma {:induction false} FindBlank(pre: string, lines: seq<string>, rest: string)
    requires lines != [] && LinesText(lines)
    ensures |Join(lines)| >= 2
    ensures Find(pre + Join(lines) + CRLF + rest, BLANK, |pre|) == |pre| + |Join(lines)| - 2
    decreases |lines|
  {
    hide Find, Join;
    JoinSplit(lines);
    var first, more := lines[0], lines[1..];
    var s := pre + Join(lines) + CRLF + rest;
    var tail := Join(more) + CRLF + rest;
    assert s == pre + first + CRLF + tail;
    BlankAfterFirst(pre, first, tail);
    var edge := |pre| + |first|;
    if more == [] {
      JoinNone();
      assert tail == CRLF + rest;
      assert s[edge..edge + 4] == BLANK;
      assert OccursAt(s, BLANK, edge);
    } else {
      var pre' := pre + first + CRLF;
      FindBlank(pre', more, rest);
      assert s == pre' + Join(more) + CRLF + rest;
      JoinSplit(more);
      assert tail[0] == more[0][0];
    }
  }

  lemma {:induction false} NoBareBreaksLine(line: string, rest: string)
    requires LineText(line)
    ensures NoBareBreaks(line + CRLF + rest) == NoBareBreaks(rest)
  {
    var s := line + CRLF + rest;
    if line == "" {
      assert s[2..] == rest;
    } else {
      assert s[1..] == line[1..] + CRLF + rest;
      assert s[0] == line[0];
      NoBareBreaksLine(line[1..], rest);
    }
  }

  lemma {:induction false} NoBareBreaksLines(lines: seq<string>)
    requires LinesText(lines)
    ensures NoBareBreaks(Join(lines) + CRLF)
  {
    if lines == [] {
      assert CRLF[2..] == "";
      assert Join(lines) + CRLF == CRLF;
    } else {
      NoBareBreaksLines(lines[1..]);
      assert Join(lines) + CRLF == lines[0] + CRLF + (Join(lines[1..]) + CRLF);
      NoBareBreaksLine(lines[0], Join(lines[1..]) + CRLF);
    }
  }

  lemma NotBlankAt(status: string, lines: seq<string>, rest: string)
    requires lines != [] && LinesText(lines)
    ensures !OccursAt(status + CRLF + (Join(lines) + CRLF + rest), CRLF, |status| + 2)
  {
    var s := status + CRLF + (Join(lines) + CRLF + rest);
    var i := |status| + 2;
    JoinSplit(lines);
    assert s[i] == lines[0][0];
    OccursChars(s, CRLF);
    assert forall k | OccursAt(s, CRLF, k) :: s[k + 0] == CRLF[0];
  }

  lemma HeadEndOfLines(status: string, lines: seq<string>, body: string)
    requires LineText(status) && lines != [] && LinesText(lines)
    ensures HeadEnd(status + CRLF + (Join(lines) + CRLF + body)) == Some(|status| + |Join(lines)| + 4)
    ensures Find(status + CRLF + (Join(lines) + CRLF + body), BLANK, |status| + 2) == |status| + |Join(lines)|
  {
    hide Find, Join;
    FindLineEnd(status, Join(lines) + CRLF + body);
    NotBlankAt(status, lines, body);
    FindBlank(status + CRLF, lines, body);
    assert status + CRLF + (Join(lines) + CRLF + body) == status + CRLF + Join(lines) + CRLF + body;
  }

  lemma FieldsOfHead(status: string, lines: seq<string>, fields: map<string, string>)
    requires LineText(status)
    requires lines != [] && |lines| <= MAX_FIELDS && LinesText(lines) && |Join(lines)| + 2 <= MAX_HEADERS
    requires FoldFields(lines, map[]) == Some(fields) && ConnectionOk(fields)
    ensures ParseFields(status + CRLF + (Join(lines) + CRLF), |status| + 2) ==
            Some((fields, |status| + |Join(lines)| + 4))
  {
    hide FoldFields, ConnectionOk, Split, Find, Join;
    var head := status + CRLF + (Join(lines) + CRLF);
    assert head == status + CRLF + (Join(lines) + CRLF + "");
    NotBlankAt(status, lines, "");
    HeadEndOfLines(status, lines, "");
    SplitJoin(lines);
    assert head[|status| + 2..|status| + |Join(lines)|] == Join(lines)[..|Join(lines)| - 2];
  }

  lemma StatusOfHead(status: string, rest: string)
    requires LineText(status) && |status| + 2 <= MAX_STATUS_LINE
    requires ParseStatus(status).Some?
    ensures ParseStatusLine(status + CRLF + rest) == Some((ParseStatus(status).value, |status| + 2))
  {
    FindLineEnd(status, rest);
    assert (status + CRLF + rest)[..|status|] == status;
  }

  /** What a head built from a status line and header lines parses to. */
  lemma ParseHeadOfLines(status: string, lines: seq<string>, fields: map<string, string>)
    requires LineText(status) && |status| + 2 <= MAX_STATUS_LINE
    requires lines != [] && |lines| <= MAX_FIELDS && LinesText(lines) && |Join(lines)| + 2 <= MAX_HEADERS
    requires FoldFields(lines, map[]) == Some(fields) && ConnectionOk(fields)
    requires ParseStatus(status).Some?
    ensures ParseHead(status + CRLF + (Join(lines) + CRLF)) ==
            match BodyLength(ParseStatus(status).value, fields)
            case None => None
            case Some(n) => Some(Head(ParseStatus(status).value, n))
  {
    var tail := Join(lines) + CRLF;
    StatusOfHead(status, tail);
    FieldsOfHead(status, lines, fields);
    NoBareBreaksLines(lines);
    NoBareBreaksLine(status, tail);
  }

  // --- The printed lines parse -------------------------------------------------

  lemma ParseStatusOf(code: string, reason: string)
    requires |code| == 3 && AllDigits(code) && ValidStatus(DecimalValue(code))
    requires reason != "" && reason[0] != ' ' && forall k | 0 <= k < |reason| :: IsVisible(reason[k])
    ensures ParseStatus("HTTP/1.1 " + code + " " + reason) == Some(DecimalValue(code))
  {
    hide Find, DecimalValue;
    var version := "HTTP/1.1";
    var line := "HTTP/1.1 " + code + " " + reason;
    assert line == version + [' '] + (code + " " + reason);
    FindChar(version, ' ', code + " " + reason);
    assert OccursAt(line, " ", 12) by { assert line[12..13] == " "; }
    OccursChars(line, " ");
    assert forall k | 9 <= k < 12 :: line[k] == code[k - 9];
    assert Find(line, " ", 9) == 12 by {
      assert forall k | 9 <= k && OccursAt(line, " ", k) :: line[k + 0] == " "[0];
    }
    assert line[9..12] == code && line[13..] == reason && line[..8] == version;
  }

  ghost predicate PlainValue(value: string) {
    value != "" && !IsBlankChar(value[0]) && !IsBlankChar(value[|value| - 1])
    && forall k | 0 <= k < |value| :: IsVisible(value[k])
  }

  lemma StripOf(value: string)
    requires PlainValue(value)
    ensures Strip(" " + value) == value
  {
    assert (" " + value)[1..] == value;
  }

  lemma LineIsText(name: string, value: string)
    requires IsToken(name) && PlainValue(value)
    ensures LineText(Line(name, value))
  {
    hide Strip;
    var line := Line(name, value);
    forall k | 0 <= k < |line| ensures line[k] != '\r' && line[k] != '\n' {
      if k < |name| { assert line[k] == name[k]; }
      else if k >= |name| + 2 { assert line[k] == value[k - |name| - 2]; }
    }
  }

  lemma ParseFieldOf(name: string, value: string)
    requires name != "" && IsToken(name) && PlainValue(value)
    ensures ParseField(Line(name, value)) == Some((Lower(name), value))
    ensures LineText(Line(name, value))
  {
    hide Find, Strip, Lower;
    var raw := " " + value;
    var line := Line(name, value);
    assert line == name + [':'] + raw;
    FindChar(name, ':', raw);
    assert line[..|name|] == name && line[|name| + 1..] == raw;
    assert line[|name| - 1] == name[|name| - 1] && IsTokenChar(name[|name| - 1]);
    StripOf(value);
    LineIsText(name, value);
  }

  lemma LowerNames()
    ensures Lower("Connection") == "connection" && IsToken("Connection")
    ensures Lower("Content-Type") == "content-type" && IsToken("Content-Type")
    ensures Lower("Content-Length") == "content-length" && IsToken("Content-Length")
  {
  }

  lemma CloseToken(fields: map<string, string>)
    requires "connection" in fields && fields["connection"] == "close"
    ensures ConnectionOk(fields)
  {
    OccursChars("close", ",");
    assert Find("close", ",", 0) == -1 by {
      assert forall k | OccursAt("close", ",", k) :: "close"[k + 0] == ","[0];
    }
    assert Split("close", ",") == ["close"];
    assert Strip("close") == "close" && Lower("close") == "close";
  }

  lemma ConnectionField()
    ensures ParseField(Line("Connection", "close")) == Some(("connection", "close"))
    ensures LineText(Line("Connection", "close")) && 0 < |Line("Connection", "close")| <= 50
  {
    LowerNames();
    ParseFieldOf("Connection", "close");
  }

  lemma LengthField(n: nat)
    requires n <= MAX_BODY
    ensures |Decimal(n)| <= 7
    ensures ParseField(Line("Content-Length", Decimal(n))) == Some(("content-length", Decimal(n)))
    ensures LineText(Line("Content-Length", Decimal(n))) && 0 < |Line("Content-Length", Decimal(n))| <= 50
  {
    assert Pow10(7) == 10000000;
    DecimalLength(n, 7);
    LowerNames();
    ParseFieldOf("Content-Length", Decimal(n));
  }

  lemma TypeField()
    ensures ParseField(Line("Content-Type", "application/json")) == Some(("content-type", "application/json"))
    ensures LineText(Line("Content-Type", "application/json")) && 0 < |Line("Content-Type", "application/json")| <= 50
  {
    LowerNames();
    ParseFieldOf("Content-Type", "application/json");
  }

  lemma StatusNumeral(status: int)
    requires ValidStatus(status)
    ensures |Decimal(status)| == 3 && DecimalValue(Decimal(status)) == status
  {
    DecimalRoundTrip(status);
    assert Decimal(status / 100) == [DigitChar(status / 100)];
    assert Decimal(status / 10) == Decimal(status / 10 / 10) + [DigitChar(status / 10 % 10)];
  }

  function Fields(r: Response): map<string, string> {
    if r.status == 204 then map["connection" := "close"]
    else if r.status == 205 then map["content-length" := Decimal(0)]["connection" := "close"]
    else map["content-type" := "application/json"]["content-length" := Decimal(|r.body|)]["connection" := "close"]
  }

  lemma FoldStep(line: string, rest: seq<string>, seen: map<string, string>, name: string, value: string)
    requires ParseField(line) == Some((name, value)) && name !in seen && name !in FORBIDDEN
    ensures FoldFields([line] + rest, seen) == FoldFields(rest, seen[name := value])
  {
    assert ([line] + rest)[1..] == rest;
  }

  lemma FieldsOfLines(r: Response)
    requires Serializable(r)
    ensures FoldFields(FieldLines(r), map[]) == Some(Fields(r)) && ConnectionOk(Fields(r))
  {
    hide ParseField, Line, Decimal, ConnectionOk;
    CloseToken(Fields(r));
    ConnectionField();
    var close := Line("Connection", "close");
    if r.status == 204 {
      FoldStep(close, [], map[], "connection", "close");
    } else if r.status == 205 {
      LengthField(0);
      var length := Line("Content-Length", Decimal(0));
      FoldStep(length, [close], map[], "content-length", Decimal(0));
      FoldStep(close, [], map["content-length" := Decimal(0)], "connection", "close");
      assert FieldLines(r) == [length] + [close];
    } else {
      LengthField(|r.body|);
      TypeField();
      var kind := Line("Content-Type", "application/json");
      var length := Line("Content-Length", Decimal(|r.body|));
      var seen: map<string, string> := map["content-type" := "application/json"];
      FoldStep(kind, [length, close], map[], "content-type", "application/json");
      FoldStep(length, [close], seen, "content-length", Decimal(|r.body|));
      FoldStep(close, [], seen["content-length" := Decimal(|r.body|)], "connection", "close");
      assert FieldLines(r) == [kind] + [length, close];
    }
  }

  lemma FieldLinesText(r: Response)
    requires Serializable(r)
    ensures LinesText(FieldLines(r)) && 1 <= |FieldLines(r)| <= 3 && |Join(FieldLines(r))| <= 200
  {
    hide ParseField, Decimal, Join, LineText, Line;
    ConnectionField();
    LengthField(|r.body|);
    LengthField(0);
    TypeField();
    JoinShort(FieldLines(r), 50);
  }

  lemma {:induction false} JoinShort(lines: seq<string>, bound: nat)
    requires forall k | 0 <= k < |lines| :: |lines[k]| <= bound
    requires |lines| <= 3
    ensures |Join(lines)| <= |lines| * (bound + 2)
  {
    if lines != [] {
      JoinShort(lines[1..], bound);
    }
  }

  lemma ReasonVisible(status: int)
    ensures var reason := ReasonText(status);
            0 < |reason| <= 13 && reason[0] != ' ' && forall k | 0 <= k < |reason| :: IsVisible(reason[k])
  {
  }

  lemma VersionVisible()
    ensures |"HTTP/1.1 "| == 9 && forall k | 0 <= k < 9 :: IsVisible("HTTP/1.1 "[k])
  {
  }

  lemma StatusOfText(status: int)
    requires ValidStatus(status)
    ensures ParseStatus(StatusText(status)) == Some(status)
    ensures LineText(StatusText(status)) && |StatusText(status)| <= 30
  {
    hide ParseStatus, Decimal, ReasonText;
    StatusNumeral(status);
    ReasonVisible(status);
    VersionVisible();
    ParseStatusOf(Decimal(status), ReasonText(status));
    var text := StatusText(status);
    var version := "HTTP/1.1 ";
    assert forall k | 0 <= k < |text| :: IsVisible(text[k]);
  }

  /** Printing then parsing gives the response back, for every printable response. */
  lemma RoundTrip(r: Response)
    requires Serialize(r).Some?
    ensures ParseResponse(Serialize(r).value) == Some(r)
  {
    hide ParseHead, HeadEnd, ParseStatus, FoldFields, ConnectionOk, LineText, LinesText, Join, FieldLines, Fields,
        StatusText, BodyLength;
    var status, lines := StatusText(r.status), FieldLines(r);
    StatusOfText(r.status);
    FieldsOfLines(r);
    FieldLinesText(r);
    var head := status + CRLF + (Join(lines) + CRLF);
    var data := Serialize(r).value;
    assert data == status + CRLF + (Join(lines) + CRLF + r.body) == head + r.body;
    HeadEndOfLines(status, lines, r.body);
    ParseHeadOfLines(status, lines, Fields(r));
    LengthOfFields(r);
    assert data[..|head|] == head && data[|head|..] == r.body;
  }

  lemma LengthOfFields(r: Response)
    requires Serializable(r)
    ensures BodyLength(r.status, Fields(r)) == Some(|r.body|)
  {
    DecimalRoundTrip(|r.body|);
    LengthField(|r.body|);
  }

  /** The parser accepts only printable responses, and takes the body verbatim. */
  lemma ParseSound(data: string)
    requires ParseResponse(data).Some?
    ensures Serializable(ParseResponse(data).value)
    ensures HeadEnd(data).Some? && data[HeadEnd(data).value..] == ParseResponse(data).value.body
    ensures ParseResponse(Serialize(ParseResponse(data).value).value) == ParseResponse(data)
  {
    RoundTrip(ParseResponse(data).value);
  }
}
