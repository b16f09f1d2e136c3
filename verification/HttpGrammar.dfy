/** The response grammar: a byte string is parsed exactly when it is the text of a legal message, and then to
    that message's status and body. */
module HttpGrammar {
  import opened Text
  import opened HttpResponse

  // --- Messages --------------------------------------------------------------------------------------

  /** One header field as written: its value stands between optional blanks. */
  datatype Field = Field(name: string, before: string, value: string, after: string)

  datatype Message = Message(code: string, reason: string, fields: seq<Field>, body: string)

  predicate Blank(s: string) { forall k | 0 <= k < |s| :: s[k] == ' ' || s[k] == '\t' }

  predicate Trimmed(s: string) {
    s == "" || (s[0] != ' ' && s[0] != '\t' && s[|s| - 1] != ' ' && s[|s| - 1] != '\t')
  }

  /** A token, a colon, and text without controls; a tab inside the value only in a connection field. */
  predicate LegalField(f: Field) {
    && f.name != "" && IsToken(f.name) && Blank(f.before) && Blank(f.after) && Trimmed(f.value)
    && (forall k | 0 <= k < |f.value| :: f.value[k] == '\t' || ' ' <= f.value[k] <= '~')
    && ('\t' in f.value ==> Lower(f.name) == "connection")
  }

  function FieldText(f: Field): string { f.name + ":" + (f.before + f.value + f.after) }

  function Lines(fs: seq<Field>): seq<string> {
    seq(|fs|, i requires 0 <= i < |fs| => FieldText(fs[i]))
  }

  function StatusOf(m: Message): string { "HTTP/1.1 " + m.code + " " + m.reason }

  function Printed(m: Message): string { StatusOf(m) + CRLF + (Join(Lines(m.fields)) + CRLF + m.body) }

  predicate LegalStatus(code: string, reason: string) {
    && |code| == 3 && AllDigits(code)
    && (200 <= DecimalValue(code) <= 299 || 400 <= DecimalValue(code) <= 599)
    && reason != "" && reason[0] != ' ' && (forall k | 0 <= k < |reason| :: ' ' <= reason[k] <= '~')
  }

  predicate Named(fs: seq<Field>, name: string) { exists i | 0 <= i < |fs| :: Lower(fs[i].name) == name }

  predicate Says(fs: seq<Field>, name: string, value: string) {
    exists i | 0 <= i < |fs| :: Lower(fs[i].name) == name && fs[i].value == value
  }

  /** The part of a list between two commas. */
  predicate Item(s: string, i: nat, j: nat) {
    && i <= j <= |s| && (i == 0 || s[i - 1] == ',') && (j == |s| || s[j] == ',')
    && (forall k | i <= k < j :: s[k] != ',')
  }

  /** A list of tokens that names neither the length nor the type. */
  ghost predicate TokenList(s: string) {
    forall i: nat, j: nat | Item(s, i, j) ::
      var t := Strip(s[i..j]);
      t != "" && IsToken(t) && Lower(t) != "content-length" && Lower(t) != "content-type"
  }

  /** Names once each, none of the four the codec refuses, and a connection field that is a token list. */
  ghost predicate LegalFields(fs: seq<Field>) {
    && |fs| <= 64 && (forall i | 0 <= i < |fs| :: LegalField(fs[i]))
    && (forall i, j | 0 <= i < j < |fs| :: Lower(fs[i].name) != Lower(fs[j].name))
    && !Named(fs, "transfer-encoding") && !Named(fs, "trailer") && !Named(fs, "content-encoding")
    && !Named(fs, "upgrade")
    && (forall i | 0 <= i < |fs| && Lower(fs[i].name) == "connection" :: TokenList(fs[i].value))
    && (fs != [] ==> |Join(Lines(fs))| + 2 <= 16_384)
  }

  /** What the fields must say about the body. */
  predicate Declared(fs: seq<Field>, status: int, size: nat) {
    if status == 204 then size == 0 && !Named(fs, "content-length") && !Named(fs, "content-type")
    else if status == 205 then size == 0 && Says(fs, "content-length", "0") && !Named(fs, "content-type")
    else
      && 1 <= size <= 1_048_576 && Says(fs, "content-length", Decimal(size))
      && Says(fs, "content-type", "application/json")
  }

  ghost predicate Legal(m: Message) {
    && LegalStatus(m.code, m.reason) && |StatusOf(m)| + 2 <= 2_048 && LegalFields(m.fields)
    && Declared(m.fields, DecimalValue(m.code), |m.body|)
  }

  // --- Blanks ------------------------------------------------------------------------------------------

  lemma {:induction false} StripBlanks(before: string, value: string, after: string)
    requires Blank(before) && Blank(after) && Trimmed(value)
    ensures Strip(before + value + after) == value
    decreases |before| + |after|
  {
    var s := before + value + after;
    if before != "" {
      assert s[1..] == before[1..] + value + after && s[0] == before[0];
      StripBlanks(before[1..], value, after);
    } else if value == "" {
      if after != "" {
        assert s[1..] == "" + "" + after[1..] && s[0] == after[0];
        StripBlanks("", "", after[1..]);
      }
    } else if after != "" {
      var n := |after| - 1;
      assert s[..|s| - 1] == "" + value + after[..n] && s[0] == value[0] && s[|s| - 1] == after[n];
      StripBlanks("", value, after[..n]);
    }
  }

  lemma StripCases(s: string)
    requires s != ""
    ensures IsBlankChar(s[0]) ==> Strip(s) == Strip(s[1..])
    ensures !IsBlankChar(s[0]) && IsBlankChar(s[|s| - 1]) ==> Strip(s) == Strip(s[..|s| - 1])
    ensures !IsBlankChar(s[0]) && !IsBlankChar(s[|s| - 1]) ==> Strip(s) == s && Trimmed(s)
  {
  }

  lemma OneBlankMore(c: char, s: string)
    requires Blank(s) && IsBlankChar(c)
    ensures Blank([c] + s) && Blank(s + [c])
  {
  }

  lemma PutBefore(c: char, a: string, b: string, d: string)
    ensures [c] + (a + b + d) == ([c] + a) + b + d
  {
  }

  lemma PutAfter(c: char, a: string, b: string, d: string)
    ensures (a + b + d) + [c] == a + b + (d + [c])
  {
  }

  lemma {:induction false} StripParts(s: string) returns (before: string, after: string)
    ensures Blank(before) && Blank(after) && Trimmed(Strip(s)) && s == before + Strip(s) + after
    decreases |s|
  {
    if s == "" {
      before, after := "", "";
    } else {
      hide Strip, Trimmed, Blank;
      StripCases(s);
      NoBlanks();
      if IsBlankChar(s[0]) {
        var b, a := StripParts(s[1..]);
        before, after := [s[0]] + b, a;
        OneBlankMore(s[0], b);
        PutBefore(s[0], b, Strip(s[1..]), a);
        assert s == [s[0]] + s[1..];
      } else if IsBlankChar(s[|s| - 1]) {
        var b, a := StripParts(s[..|s| - 1]);
        before, after := b, a + [s[|s| - 1]];
        OneBlankMore(s[|s| - 1], a);
        PutAfter(s[|s| - 1], b, Strip(s[..|s| - 1]), a);
        assert s == s[..|s| - 1] + [s[|s| - 1]];
      } else {
        before, after := "", "";
        assert s == "" + s + "";
      }
    }
  }

  lemma NoBlanks()
    ensures Blank("")
  {
  }

  // --- One field -----------------------------------------------------------------------------------------

  lemma FieldParses(f: Field)
    requires LegalField(f)
    ensures ParseField(FieldText(f)) == Some((Lower(f.name), f.value))
    ensures FieldText(f) != "" && LineText(FieldText(f))
  {
    hide Find, Strip, Lower, IsFieldText, Blank, Trimmed, LineText;
    var raw := f.before + f.value + f.after;
    var line := FieldText(f);
    NameEnds(f.name, raw);
    assert line == f.name + ":" + raw;
    StripBlanks(f.before, f.value, f.after);
    RawText(f);
    FieldIsText(f.name, raw);
  }

  lemma NameEnds(name: string, raw: string)
    requires name != "" && IsToken(name)
    ensures var line := name + ":" + raw;
            && Find(line, ":", 0) == |name| && line[..|name|] == name && line[|name| + 1..] == raw
            && !IsBlankChar(line[|name| - 1])
  {
    hide Find;
    var line := name + ":" + raw;
    assert line == name + [':'] + raw;
    FindChar(name, ':', raw);
    assert line[|name| - 1] == name[|name| - 1] && IsTokenChar(name[|name| - 1]);
  }

  lemma FieldIsText(name: string, raw: string)
    requires IsToken(name) && IsFieldText(raw)
    ensures LineText(name + ":" + raw)
  {
    var line := name + ":" + raw;
    forall k | 0 <= k < |line| ensures line[k] != '\r' && line[k] != '\n' {
      if k < |name| { assert line[k] == name[k]; } else if k > |name| { assert line[k] == raw[k - |name| - 1]; }
    }
  }

  lemma RawText(f: Field)
    requires LegalField(f)
    ensures IsFieldText(f.before + f.value + f.after)
  {
    hide Lower;
    var raw := f.before + f.value + f.after;
    forall k | 0 <= k < |raw| ensures raw[k] == '\t' || IsVisible(raw[k]) {
      if k < |f.before| {
        assert raw[k] == f.before[k];
      } else if k < |f.before| + |f.value| {
        assert raw[k] == f.value[k - |f.before|];
      } else {
        assert raw[k] == f.after[k - |f.before| - |f.value|];
      }
    }
  }

  lemma FieldFound(line: string) returns (f: Field)
    requires ParseField(line).Some?
    ensures LegalField(f) && FieldText(f) == line && ParseField(line) == Some((Lower(f.name), f.value))
  {
    hide Lower, Strip;
    var colon := Find(line, ":", 0);
    var name, raw := line[..colon], line[colon + 1..];
    var before, after := StripParts(raw);
    var value := Strip(raw);
    f := Field(name, before, value, after);
    OccursChars(line, ":");
    assert line[colon + 0] == ":"[0];
    assert line == name + ":" + raw;
    forall k | 0 <= k < |value| ensures value[k] == '\t' || ' ' <= value[k] <= '~' {
      assert raw[|before| + k] == value[k];
    }
  }

  // --- The connection list ------------------------------------------------------------------------------

  ghost predicate GoodToken(part: string) {
    var t := Strip(part);
    t != "" && IsToken(t) && Lower(t) != "content-length" && Lower(t) != "content-type"
  }

  ghost predicate Tokens(parts: seq<string>) { forall k | 0 <= k < |parts| :: GoodToken(parts[k]) }

  lemma CommaAt(s: string, k: nat)
    requires k < |s|
    ensures s[k] == ',' <==> OccursAt(s, ",", k)
  {
    assert s[k..k + 1] == [s[k]];
  }

  ghost predicate Before(s: string, c: nat) { c <= |s| && forall k | 0 <= k < c :: s[k] != ',' }

  lemma FirstComma(s: string)
    ensures var c := Find(s, ",", 0);
            if c < 0 then Before(s, |s|) else c < |s| && s[c] == ',' && Before(s, c)
  {
    var c := Find(s, ",", 0);
    if 0 <= c { CommaAt(s, c); }
    forall k | 0 <= k < |s| && (c < 0 || k < c) ensures s[k] != ',' { CommaAt(s, k); }
  }

  /** Past the first comma, the items are those of the rest. */
  lemma ItemOfRest(s: string, c: nat, i: nat, j: nat)
    requires c < |s| && s[c] == ',' && Before(s, c) && Item(s, i, j)
    ensures i == 0 ==> j == c
    ensures i > 0 ==>
              c < i <= j && Item(s[c + 1..], i - c - 1, j - c - 1) && s[i..j] == s[c + 1..][i - c - 1..j - c - 1]
  {
    var rest := s[c + 1..];
    assert forall k | 0 <= k < |rest| :: rest[k] == s[c + 1 + k];
  }

  lemma ItemToRest(s: string, c: nat, i: nat, j: nat)
    requires c < |s| && s[c] == ',' && Before(s, c) && Item(s[c + 1..], i, j)
    ensures Item(s, i + c + 1, j + c + 1) && s[i + c + 1..j + c + 1] == s[c + 1..][i..j]
  {
    var rest := s[c + 1..];
    assert forall k | i + c + 1 <= k < j + c + 1 :: s[k] == rest[k - c - 1];
  }

  lemma {:induction false} ListExactly(s: string)
    ensures Tokens(Split(s, ",")) <==> TokenList(s)
    decreases |s|
  {
    hide GoodToken, TokenList, Tokens;
    var c := Find(s, ",", 0);
    FirstComma(s);
    if c < 0 {
      NoComma(s);
      TokensMore(s, []);
      assert Split(s, ",") == [s] + [];
      NoTokens();
    } else {
      var rest := s[c + 1..];
      ListExactly(rest);
      assert Split(s, ",") == [s[..c]] + Split(rest, ",") && s[0..c] == s[..c];
      TokensMore(s[..c], Split(rest, ","));
      ListMore(s, c);
    }
  }

  lemma NoTokens()
    ensures Tokens([])
  {
  }

  lemma TokensMore(first: string, parts: seq<string>)
    ensures Tokens([first] + parts) <==> GoodToken(first) && Tokens(parts)
  {
    hide GoodToken;
    var all := [first] + parts;
    assert all[0] == first && forall k | 0 <= k < |parts| :: all[k + 1] == parts[k];
  }

  lemma GoodItem(s: string, i: nat, j: nat)
    requires TokenList(s) && Item(s, i, j)
    ensures GoodToken(s[i..j])
  {
  }

  lemma GoodList(s: string)
    requires forall i: nat, j: nat | Item(s, i, j) :: GoodToken(s[i..j])
    ensures TokenList(s)
  {
    forall i: nat, j: nat | Item(s, i, j)
      ensures var t := Strip(s[i..j]);
              t != "" && IsToken(t) && Lower(t) != "content-length" && Lower(t) != "content-type"
    {
      assert GoodToken(s[i..j]);
    }
  }

  lemma ListMore(s: string, c: nat)
    requires c < |s| && s[c] == ',' && Before(s, c)
    ensures TokenList(s) <==> GoodToken(s[0..c]) && TokenList(s[c + 1..])
  {
    hide GoodToken, TokenList;
    var rest := s[c + 1..];
    if TokenList(s) {
      GoodItem(s, 0, c);
      forall i: nat, j: nat | Item(rest, i, j) ensures GoodToken(rest[i..j]) {
        ItemToRest(s, c, i, j);
        GoodItem(s, i + c + 1, j + c + 1);
      }
      GoodList(rest);
    }
    if GoodToken(s[0..c]) && TokenList(rest) {
      forall i: nat, j: nat | Item(s, i, j) ensures GoodToken(s[i..j]) {
        ItemOfRest(s, c, i, j);
        if i > 0 { GoodItem(rest, i - c - 1, j - c - 1); }
      }
      GoodList(s);
    }
  }

  lemma NoComma(s: string)
    requires Before(s, |s|)
    ensures TokenList(s) <==> GoodToken(s)
  {
    hide GoodToken, TokenList;
    assert Item(s, 0, |s|) && s[0..|s|] == s;
    if TokenList(s) { GoodItem(s, 0, |s|); }
    if GoodToken(s) {
      forall i: nat, j: nat | Item(s, i, j) ensures GoodToken(s[i..j]) {
        assert i == 0 && j == |s|;
      }
      GoodList(s);
    }
  }

  lemma ConnectionExactly(fields: map<string, string>)
    ensures ConnectionOk(fields) <==> ("connection" in fields ==> TokenList(fields["connection"]))
  {
    hide TokenList, Split, Strip, Lower;
    if "connection" in fields {
      var value := fields["connection"];
      ListExactly(value);
      var parts := Split(value, ",");
      assert (forall part | part in parts :: GoodToken(part)) <==> Tokens(parts);
    }
  }

  // --- All fields -----------------------------------------------------------------------------------------

  ghost predicate AllLegal(fs: seq<Field>) { forall i | 0 <= i < |fs| :: LegalField(fs[i]) }

  /** Names once each, not seen before and not refused. */
  ghost predicate Once(fs: seq<Field>, seen: set<string>) {
    && (forall i, j | 0 <= i < j < |fs| :: Lower(fs[i].name) != Lower(fs[j].name))
    && (forall i | 0 <= i < |fs| :: Lower(fs[i].name) !in seen && Lower(fs[i].name) !in FORBIDDEN)
  }

  /** The dictionary holds what the fields say, over what was seen before. */
  ghost predicate Holds(m: map<string, string>, fs: seq<Field>, seen: map<string, string>) {
    && (forall n :: n in m <==> n in seen || Named(fs, n)) && (forall n | n in seen :: m[n] == seen[n])
    && (forall i | 0 <= i < |fs| :: Lower(fs[i].name) in m && m[Lower(fs[i].name)] == fs[i].value)
  }

  lemma OnceMore(fs: seq<Field>, seen: set<string>)
    requires fs != []
    ensures var n := Lower(fs[0].name);
            Once(fs, seen) <==> n !in seen && n !in FORBIDDEN && Once(fs[1..], seen + {n})
  {
    hide Lower;
    var n, rest := Lower(fs[0].name), fs[1..];
    assert forall i | 0 <= i < |rest| :: rest[i] == fs[i + 1];
    if Once(fs, seen) {
      forall i | 0 <= i < |rest| ensures Lower(rest[i].name) !in seen + {n} && Lower(rest[i].name) !in FORBIDDEN {
        assert Lower(fs[0].name) != Lower(fs[i + 1].name);
      }
    }
    if n !in seen && n !in FORBIDDEN && Once(rest, seen + {n}) {
      forall i, j | 0 <= i < j < |fs| ensures Lower(fs[i].name) != Lower(fs[j].name) {
        assert Lower(rest[j - 1].name) !in seen + {n};
        if i > 0 { assert Lower(rest[i - 1].name) != Lower(rest[j - 1].name); }
      }
      forall i | 0 <= i < |fs| ensures Lower(fs[i].name) !in seen && Lower(fs[i].name) !in FORBIDDEN {
        if i > 0 { assert Lower(rest[i - 1].name) !in seen + {n}; }
      }
    }
  }

  lemma HoldsMore(m: map<string, string>, fs: seq<Field>, seen: map<string, string>)
    requires fs != [] && Lower(fs[0].name) !in seen
    requires Holds(m, fs[1..], seen[Lower(fs[0].name) := fs[0].value])
    ensures Holds(m, fs, seen)
  {
    hide Lower;
    var rest := fs[1..];
    assert forall i | 0 <= i < |rest| :: rest[i] == fs[i + 1];
    forall n ensures Named(fs, n) <==> n == Lower(fs[0].name) || Named(rest, n) {
      if Named(fs, n) {
        var i :| 0 <= i < |fs| && Lower(fs[i].name) == n;
        if i > 0 { assert rest[i - 1] == fs[i]; }
      }
    }
    forall i | 0 <= i < |fs| ensures Lower(fs[i].name) in m && m[Lower(fs[i].name)] == fs[i].value {
      if i > 0 { assert rest[i - 1] == fs[i]; }
    }
  }

  lemma {:induction false} FoldExactly(fs: seq<Field>, seen: map<string, string>)
    requires AllLegal(fs)
    ensures FoldFields(Lines(fs), seen).Some? <==> Once(fs, seen.Keys)
    ensures FoldFields(Lines(fs), seen).Some? ==> Holds(FoldFields(Lines(fs), seen).value, fs, seen)
    decreases |fs|
  {
    hide ParseField, Lower, Once, Holds;
    if fs == [] {
      NoFields(seen);
    } else {
      var n, v, rest := Lower(fs[0].name), fs[0].value, fs[1..];
      FieldParses(fs[0]);
      assert Lines(fs)[0] == FieldText(fs[0]) && Lines(fs)[1..] == Lines(rest);
      OnceMore(fs, seen.Keys);
      FoldExactly(rest, seen[n := v]);
      assert seen[n := v].Keys == seen.Keys + {n};
      if FoldFields(Lines(fs), seen).Some? { HoldsMore(FoldFields(Lines(fs), seen).value, fs, seen); }
    }
  }

  lemma NoFields(seen: map<string, string>)
    ensures Once([], seen.Keys) && Holds(seen, [], seen) && Lines([]) == []
  {
  }

  lemma {:induction false} FieldsFound(lines: seq<string>, seen: map<string, string>) returns (fs: seq<Field>)
    requires FoldFields(lines, seen).Some?
    ensures AllLegal(fs) && Lines(fs) == lines
    decreases |lines|
  {
    hide ParseField, LegalField, FieldText;
    if lines == [] {
      fs := [];
    } else {
      var f := FieldFound(lines[0]);
      var rest := FieldsFound(lines[1..], seen[Lower(f.name) := f.value]);
      fs := [f] + rest;
      assert lines == [lines[0]] + lines[1..];
      assert Lines(fs) == [FieldText(f)] + Lines(rest);
    }
  }

  lemma LinesAreText(fs: seq<Field>)
    requires AllLegal(fs)
    ensures LinesText(Lines(fs))
  {
    hide LineText, FieldText, LegalField;
    forall k | 0 <= k < |Lines(fs)| ensures Lines(fs)[k] != "" && LineText(Lines(fs)[k]) { FieldParses(fs[k]); }
  }

  // --- The declared body -------------------------------------------------------------------------------------

  lemma SaysExactly(m: map<string, string>, fs: seq<Field>, name: string, value: string)
    requires Holds(m, fs, map[])
    ensures Says(fs, name, value) <==> name in m && m[name] == value
  {
    hide Lower;
    if name in m {
      assert Named(fs, name);
      var i :| 0 <= i < |fs| && Lower(fs[i].name) == name;
    }
  }

  lemma NumeralExactly(s: string, n: nat)
    requires 1 <= n <= MAX_BODY
    ensures s == Decimal(n) <==> |s| <= 7 && CanonicalNumeral(s) && DecimalValue(s) == n
  {
    hide Decimal;
    assert Pow10(7) == 10000000;
    DecimalLength(n, 7);
    DecimalRoundTrip(n);
    if CanonicalNumeral(s) { DecimalOfValue(s); }
  }

  lemma DeclaredExactly(m: map<string, string>, fs: seq<Field>, status: int, n: nat)
    requires Holds(m, fs, map[])
    ensures BodyLength(status, m) == Some(n) <==> Declared(fs, status, n)
  {
    hide Holds, Says, Named, Decimal, DecimalValue, CanonicalNumeral;
    HeldNames(m, fs, "content-length");
    HeldNames(m, fs, "content-type");
    SaysExactly(m, fs, "content-length", "0");
    SaysExactly(m, fs, "content-type", "application/json");
    if 1 <= n <= MAX_BODY {
      SaysExactly(m, fs, "content-length", Decimal(n));
      if "content-length" in m { NumeralExactly(m["content-length"], n); }
    }
  }

  lemma HeldNames(m: map<string, string>, fs: seq<Field>, name: string)
    requires Holds(m, fs, map[])
    ensures Named(fs, name) <==> name in m
  {
  }

  /** The fields are legal exactly when the dictionary can be filled and its connection field is good. */
  lemma FieldsExactly(fs: seq<Field>)
    requires AllLegal(fs) && |fs| <= 64 && (fs != [] ==> |Join(Lines(fs))| + 2 <= 16_384)
    ensures LegalFields(fs) <==>
            FoldFields(Lines(fs), map[]).Some? && ConnectionOk(FoldFields(Lines(fs), map[]).value)
  {
    hide Lower, TokenList, Join, FieldText, LegalField, ConnectionOk;
    FoldExactly(fs, map[]);
    assert Once(fs, {}) <==>
           && (forall i, j | 0 <= i < j < |fs| :: Lower(fs[i].name) != Lower(fs[j].name))
           && !Named(fs, "transfer-encoding") && !Named(fs, "trailer") && !Named(fs, "content-encoding")
           && !Named(fs, "upgrade");
    if FoldFields(Lines(fs), map[]).Some? {
      var m := FoldFields(Lines(fs), map[]).value;
      ConnectionExactly(m);
      if "connection" in m {
        assert Named(fs, "connection");
      }
    }
  }

  // --- The head -----------------------------------------------------------------------------------------------

  lemma StatusParses(m: Message)
    requires LegalStatus(m.code, m.reason)
    ensures ParseStatus(StatusOf(m)) == Some(DecimalValue(m.code)) && LineText(StatusOf(m))
  {
    hide ParseStatus, DecimalValue;
    ParseStatusOf(m.code, m.reason);
    VersionVisible();
    var line := StatusOf(m);
    forall k | 0 <= k < |line| ensures line[k] != '\r' && line[k] != '\n' {
      if k < 9 {
        assert line[k] == "HTTP/1.1 "[k];
      } else if 9 <= k < 12 {
        assert line[k] == m.code[k - 9];
      } else if k > 12 {
        assert line[k] == m.reason[k - 13];
      }
    }
  }

  lemma StatusFound(line: string) returns (code: string, reason: string)
    requires ParseStatus(line).Some?
    ensures LegalStatus(code, reason) && line == "HTTP/1.1 " + code + " " + reason
    ensures ParseStatus(line) == Some(DecimalValue(code))
  {
    hide DecimalValue;
    var a := Find(line, " ", 0);
    var b := Find(line, " ", a + 1);
    code, reason := line[a + 1..b], line[b + 1..];
    assert line[a..a + 1] == " " && line[b..b + 1] == " ";
    assert line == line[..a] + line[a..a + 1] + line[a + 1..b] + line[b..b + 1] + line[b + 1..];
    assert "HTTP/1.1" + " " == "HTTP/1.1 ";
  }

  lemma Pieces(s: string, i: nat)
    requires OccursAt(s, CRLF, i)
    ensures i + 2 <= |s| && s == s[..i] + CRLF + s[i + 2..]
  {
    assert s[i..i + 2] == CRLF;
    assert s == s[..i] + s[i..i + 2] + s[i + 2..];
  }

  lemma JoinCons(first: string, rest: seq<string>)
    ensures Join([first] + rest) == first + CRLF + Join(rest)
  {
    assert ([first] + rest)[1..] == rest;
  }

  lemma Regroup(a: string, b: string, c: string)
    ensures a + CRLF + (b + c) == a + CRLF + b + c
  {
  }

  lemma {:induction false} JoinOfSplit(s: string)
    ensures Join(Split(s, CRLF)) == s + CRLF
    decreases |s|
  {
    hide Find, Join, OccursAt;
    var i := Find(s, CRLF, 0);
    if i < 0 {
      JoinCons(s, []);
      JoinNone();
      assert [s] + [] == [s];
    } else {
      Pieces(s, i);
      var first, rest := s[..i], s[i + 2..];
      JoinOfSplit(rest);
      JoinCons(first, Split(rest, CRLF));
      Regroup(first, rest, CRLF);
    }
  }

  /** A head without a single field. */
  lemma BareHead(status: string, body: string)
    requires LineText(status) && |status| + 2 <= MAX_STATUS_LINE && ParseStatus(status).Some?
    ensures HeadEnd(status + CRLF + ("" + CRLF + body)) == Some(|status| + 4)
    ensures ParseHead(status + CRLF + ("" + CRLF)) ==
            match BodyLength(ParseStatus(status).value, map[])
            case None => None
            case Some(n) => Some(Head(ParseStatus(status).value, n))
  {
    hide ParseStatus, LineText, NoBareBreaks, BodyLength;
    var data, head := status + CRLF + ("" + CRLF + body), status + CRLF + ("" + CRLF);
    FindLineEnd(status, "" + CRLF + body);
    assert data[|status| + 2..|status| + 4] == CRLF && head[|status| + 2..|status| + 4] == CRLF;
    StatusOfHead(status, "" + CRLF);
    NoBareBreaksLines([]);
    JoinNone();
    assert Join([]) + CRLF == "" + CRLF;
    NoBareBreaksLine(status, "" + CRLF);
  }

  lemma HeadParses(m: Message)
    requires Legal(m)
    ensures var head := StatusOf(m) + CRLF + (Join(Lines(m.fields)) + CRLF);
            && HeadEnd(head + m.body) == Some(|head|) && ParseHead(head) == Some(Head(DecimalValue(m.code), |m.body|))
  {
    hide LegalFields, StatusOf, Lines, LineText, LinesText, Join, ParseStatus, FoldFields, ConnectionOk, Declared,
        Holds, DecimalValue, ParseHead, HeadEnd, BodyLength, AllLegal;
    var status, lines := StatusOf(m), Lines(m.fields);
    var head := status + CRLF + (Join(lines) + CRLF);
    StatusParses(m);
    LegalParts(m.fields);
    FieldsExactly(m.fields);
    FoldExactly(m.fields, map[]);
    var fields := FoldFields(lines, map[]).value;
    DeclaredExactly(fields, m.fields, DecimalValue(m.code), |m.body|);
    assert head + m.body == status + CRLF + (Join(lines) + CRLF + m.body);
    if m.fields == [] {
      NoLines(fields);
      JoinNone();
      BareHead(status, m.body);
    } else {
      LinesAreText(m.fields);
      LinesCount(m.fields);
      HeadEndOfLines(status, lines, m.body);
      ParseHeadOfLines(status, lines, fields);
    }
  }

  lemma LinesCount(fs: seq<Field>)
    ensures |Lines(fs)| == |fs|
  {
  }

  lemma LegalParts(fs: seq<Field>)
    requires LegalFields(fs)
    ensures AllLegal(fs) && |fs| <= 64 && (fs != [] ==> |Join(Lines(fs))| + 2 <= 16_384)
  {
    hide LegalField, Lines, Join, TokenList, Lower;
  }

  lemma NoLines(fields: map<string, string>)
    requires FoldFields(Lines([]), map[]) == Some(fields)
    ensures fields == map[] && Lines([]) == []
  {
  }

  // --- Whole messages ------------------------------------------------------------------------------------------

  /** Every legal message is parsed, to its own status and body. */
  lemma MessageParses(m: Message)
    requires Legal(m)
    ensures ParseResponse(Printed(m)) == Some(Response(DecimalValue(m.code), m.body))
  {
    hide Legal, StatusOf, Lines, Join, ParseHead, HeadEnd, DecimalValue;
    var head := StatusOf(m) + CRLF + (Join(Lines(m.fields)) + CRLF);
    HeadParses(m);
    LegalSizes(m);
    var data := Printed(m);
    assert data == head + m.body && data[..|head|] == head && data[|head|..] == m.body;
  }

  lemma LegalSizes(m: Message)
    requires Legal(m)
    ensures |m.body| <= 1_048_576 && |StatusOf(m)| + 2 <= 2_048 && |Join(Lines(m.fields))| + 2 <= 16_384
  {
    hide LegalStatus, StatusOf, LegalField, TokenList, Lower, Decimal, DecimalValue, Says;
    if m.fields == [] {
      assert Lines(m.fields) == [];
      JoinNone();
    }
  }

  /** What a head that parses is made of. */
  lemma HeadFound(head: string) returns (m: Message, fields: map<string, string>)
    requires ParseHead(head).Some?
    ensures LegalStatus(m.code, m.reason) && |StatusOf(m)| + 2 <= 2_048 && LegalFields(m.fields)
    ensures head == StatusOf(m) + CRLF + (Join(Lines(m.fields)) + CRLF) && m.body == ""
    ensures Holds(fields, m.fields, map[]) && ParseHead(head).value.status == DecimalValue(m.code)
    ensures BodyLength(DecimalValue(m.code), fields) == Some(ParseHead(head).value.bodyLength)
  {
    hide LegalStatus, LegalFields, Lines, Join, ParseStatus, ParseFields, ConnectionOk, Holds, DecimalValue,
        BodyLength, NoBareBreaks, Find, OccursAt;
    var e := Find(head, CRLF, 0);
    var code, reason := StatusFound(head[..e]);
    Pieces(head, e);
    var fs: seq<Field>;
    fs, fields := RegionFound(head, e + 2);
    m := Message(code, reason, fs, "");
  }

  lemma NothingFound()
    ensures LegalFields([]) && Holds(map[], [], map[]) && Join(Lines([])) == ""
  {
    hide TokenList, Lower;
    assert Lines([]) == [];
    JoinNone();
  }

  lemma RegionFound(head: string, start: nat) returns (fs: seq<Field>, fields: map<string, string>)
    requires start <= |head| && ParseFields(head, start).Some? && ParseFields(head, start).value.1 == |head|
    ensures LegalFields(fs) && Holds(fields, fs, map[]) && head[start..] == Join(Lines(fs)) + CRLF
    ensures ParseFields(head, start).value.0 == fields
  {
    hide LegalFields, Lines, Join, FoldFields, ConnectionOk, Holds, AllLegal, Split, Find;
    if OccursAt(head, CRLF, start) {
      fs, fields := [], map[];
      NothingFound();
      assert head[start..start + 2] == head[start..];
    } else {
      var end := Find(head, BLANK, start);
      var region := head[start..end];
      var lines := Split(region, CRLF);
      fields := FoldFields(lines, map[]).value;
      fs := FieldsFound(lines, map[]);
      JoinOfSplit(region);
      LinesCount(fs);
      RegionEnds(head, start, end);
      FieldsExactly(fs);
      FoldExactly(fs, map[]);
    }
  }

  lemma RegionEnds(head: string, start: nat, end: nat)
    requires start <= end && OccursAt(head, BLANK, end) && end + 4 == |head|
    ensures head[start..] == head[start..end] + CRLF + CRLF
  {
    assert head[end..end + 4] == BLANK && BLANK == CRLF + CRLF;
    assert head[start..] == head[start..end] + head[end..end + 4];
  }

  /** Whatever is parsed is a legal message. */
  lemma MessageFound(data: string) returns (m: Message)
    requires ParseResponse(data).Some?
    ensures Legal(m) && Printed(m) == data
    ensures ParseResponse(data) == Some(Response(DecimalValue(m.code), m.body))
  {
    hide LegalFields, StatusOf, Lines, Join, ParseHead, HeadEnd, Holds, DecimalValue, BodyLength, Declared;
    var end := HeadEnd(data).value;
    var head := data[..end];
    var n, fields := HeadFound(head);
    m := n.(body := data[end..]);
    StatusSame(m, n);
    DeclaredExactly(fields, m.fields, DecimalValue(m.code), |m.body|);
    assert data == head + m.body;
    assert Printed(m) == StatusOf(m) + CRLF + (Join(Lines(m.fields)) + CRLF) + m.body;
  }

  lemma StatusSame(m: Message, n: Message)
    requires m.code == n.code && m.reason == n.reason
    ensures StatusOf(m) == StatusOf(n)
  {
  }

  /** A byte string is parsed to a response exactly when it is the text of a legal message with that status and
      that body. */
  lemma ParseExactly(data: string, r: Response)
    ensures ParseResponse(data) == Some(r) <==>
            exists m :: Legal(m) && Printed(m) == data && r == Response(DecimalValue(m.code), m.body)
  {
    hide LegalFields, Declared, StatusOf, Printed, ParseResponse, DecimalValue;
    if ParseResponse(data) == Some(r) { var m := MessageFound(data); }
    forall m | Legal(m) && Printed(m) == data && r == Response(DecimalValue(m.code), m.body)
      ensures ParseResponse(data) == Some(r)
    {
      MessageParses(m);
    }
  }

  // --- What is printed ---------------------------------------------------------------------------------------

  /** The message a response is printed as. */
  function Out(r: Response): Message
    requires r.status >= 0
  {
    var length := Field("Content-Length", " ", Decimal(|r.body|), "");
    var close := Field("Connection", " ", "close", "");
    if r.status == 204 then Message("204", "No Content", [close], "")
    else if r.status == 205 then Message("205", "Reset Content", [Field("Content-Length", " ", "0", ""), close], "")
    else
      var kind := Field("Content-Type", " ", "application/json", "");
      Message(Decimal(r.status), "Response", [kind, length, close], r.body)
  }

  /** A response is printed exactly when its status is a success or an error and its body has a size that goes
      with it; and then as that message. */
  lemma SerializeExactly(r: Response)
    ensures Serialize(r).Some? <==>
            && (200 <= r.status <= 299 || 400 <= r.status <= 599) && |r.body| <= 1_048_576
            && (r.body == "" <==> r.status == 204 || r.status == 205)
    ensures Serialize(r).Some? ==> Serialize(r).value == Printed(Out(r))
  {
    hide Decimal, Join;
    if Serializable(r) {
      var m := Out(r);
      ThreeDigits();
      SameLines(r);
      assert StatusOf(m) == StatusText(r.status);
      assert Printed(m) == StatusText(r.status) + CRLF + Join(FieldLines(r)) + CRLF + r.body;
    }
  }

  lemma SameLines(r: Response)
    requires Serializable(r)
    ensures Lines(Out(r).fields) == FieldLines(r)
  {
    hide Decimal;
    ThreeDigits();
    var fs, lines := Out(r).fields, FieldLines(r);
    forall k | 0 <= k < |fs| ensures FieldText(fs[k]) == lines[k] {
      NoTail(fs[k].name, fs[k].value);
    }
  }

  lemma NoTail(name: string, value: string)
    ensures FieldText(Field(name, " ", value, "")) == Line(name, value)
  {
    assert " " + value + "" == " " + value;
  }

  lemma ThreeDigits()
    ensures Decimal(204) == "204" && Decimal(205) == "205" && Decimal(0) == "0"
  {
    assert Decimal(20) == Decimal(2) + ['0'] && Decimal(204) == Decimal(20) + ['4'];
    assert Decimal(205) == Decimal(20) + ['5'];
  }
}
