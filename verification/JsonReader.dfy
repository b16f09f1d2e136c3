/** A reader of JSON texts after RFC 8259, sections 3 to 7, for texts without insignificant whitespace
    and numbers without fraction or exponent: what any other program understands of the bytes. The
    canonical encoding is what it reads back. */
module JsonReader {
  import opened Text
  import opened Unicode
  import opened Json
  import opened CanonicalJson
  import CI = CanonicalInjective
  import UR = UnicodeReader

  // --- Strings (section 7) ------------------------------------------------------------------------

  function HexValue(c: char): Option<nat> {
    if '0' <= c <= '9' then Some((c - '0') as nat)
    else if 'a' <= c <= 'f' then Some((c - 'a') as nat + 10)
    else if 'A' <= c <= 'F' then Some((c - 'A') as nat + 10)
    else None
  }

  /** Four hexadecimal digits as one UTF-16 code unit. */
  function ReadUnit(s: string): (r: Option<(nat, string)>)
    ensures r.Some? ==> r.value.0 < 0x10000 && |s| == |r.value.1| + 4
  {
    if |s| < 4 then None
    else
      var a, b, c, d := HexValue(s[0]), HexValue(s[1]), HexValue(s[2]), HexValue(s[3]);
      if a.None? || b.None? || c.None? || d.None? then None
      else Some((((a.value * 16 + b.value) * 16 + c.value) * 16 + d.value, s[4..]))
  }

  /** The character a two-character escape names. */
  function Named(c: char): Option<char> {
    match c
    case '"' => Some('"')
    case '\\' => Some('\\')
    case '/' => Some('/')
    case 'b' => Some(0x8 as char)
    case 'f' => Some(0xC as char)
    case 'n' => Some(0xA as char)
    case 'r' => Some(0xD as char)
    case 't' => Some(0x9 as char)
    case _ => None
  }

  /** The character after a backslash and a `u`; a surrogate stands only before its other half. */
  function ReadCode(s: string): (r: Option<(char, string)>)
    ensures r.Some? ==> |r.value.1| < |s|
  {
    match ReadUnit(s)
    case None => None
    case Some((n, rest)) =>
      if n < 0xD800 || 0xE000 <= n then Some((n as char, rest))
      else if n >= 0xDC00 || |rest| < 2 || rest[0] != '\\' || rest[1] != 'u' then None
      else
        match ReadUnit(rest[2..])
        case None => None
        case Some((m, after)) =>
          if 0xDC00 <= m < 0xE000 then Some(((0x10000 + (n - 0xD800) * 0x400 + (m - 0xDC00)) as char, after))
          else None
  }

  /** One character of a string's inside: escaped, or itself unless it is a control character. */
  function ReadChar(s: string): (r: Option<(char, string)>)
    ensures r.Some? ==> |r.value.1| < |s|
  {
    if s == "" || s[0] == '"' || s[0] < 0x20 as char then None
    else if s[0] != '\\' then Some((s[0], s[1..]))
    else if |s| < 2 then None
    else if s[1] == 'u' then ReadCode(s[2..])
    else
      match Named(s[1])
      case None => None
      case Some(c) => Some((c, s[2..]))
  }

  /** The inside of a string up to its closing quotation mark. */
  function ReadInside(s: string): (r: Option<(string, string)>)
    ensures r.Some? ==> |r.value.1| < |s|
    decreases |s|
  {
    if s == "" then None
    else if s[0] == '"' then Some(("", s[1..]))
    else
      match ReadChar(s)
      case None => None
      case Some((c, rest)) =>
        match ReadInside(rest)
        case None => None
        case Some((inside, after)) => Some(([c] + inside, after))
  }

  function ReadString(s: string): (r: Option<(string, string)>)
    ensures r.Some? ==> |r.value.1| < |s|
  {
    if s == "" || s[0] != '"' then None else ReadInside(s[1..])
  }

  // --- Numbers (section 6) ------------------------------------------------------------------------

  /** How many digits a text starts with. */
  function DigitCount(s: string): (n: nat)
    ensures n <= |s| && AllDigits(s[..n]) && (n < |s| ==> !IsDigit(s[n]))
  {
    if s == "" || !IsDigit(s[0]) then 0
    else
      var n := DigitCount(s[1..]);
      assert s[..n + 1] == [s[0]] + s[1..][..n];
      n + 1
  }

  /** An integer without leading zeros. */
  function ReadInt(s: string): (r: Option<(int, string)>)
    ensures r.Some? ==> |r.value.1| < |s|
  {
    var negative := s != "" && s[0] == '-';
    var body := if negative then s[1..] else s;
    var n := DigitCount(body);
    if n == 0 || (n > 1 && body[0] == '0') then None
    else
      var value: int := DecimalValue(body[..n]);
      Some((if negative then -value else value, body[n..]))
  }

  // --- Values (sections 3 to 5) ------------------------------------------------------------------------

  predicate Starts(s: string, word: string) { |word| <= |s| && s[..|word|] == word }

  function ReadValue(s: string): (r: Option<(Tree, string)>)
    ensures r.Some? ==> |r.value.1| < |s|
    decreases |s|, 1
  {
    if Starts(s, "null") then Some((TNull, s[4..]))
    else if Starts(s, "true") then Some((TBool(true), s[4..]))
    else if Starts(s, "false") then Some((TBool(false), s[5..]))
    else if s == "" then None
    else if s[0] == '"' then
      match ReadString(s)
      case None => None
      case Some((text, rest)) => Some((TStr(text), rest))
    else if s[0] == '[' then
      if |s| > 1 && s[1] == ']' then Some((TArray([]), s[2..]))
      else
        match ReadItems(s[1..])
        case None => None
        case Some((items, rest)) => Some((TArray(items), rest))
    else if s[0] == '{' then
      if |s| > 1 && s[1] == '}' then Some((TObject(map[]), s[2..]))
      else
        match ReadFields(s[1..])
        case None => None
        case Some((fields, rest)) => Some((TObject(fields), rest))
    else
      match ReadInt(s)
      case None => None
      case Some((n, rest)) => Some((TInt(n), rest))
  }

  /** Values separated by commas, up to the closing bracket. */
  function ReadItems(s: string): (r: Option<(seq<Tree>, string)>)
    ensures r.Some? ==> |r.value.1| < |s|
    decreases |s|, 2
  {
    match ReadValue(s)
    case None => None
    case Some((first, rest)) =>
      if rest == "" then None
      else if rest[0] == ']' then Some(([first], rest[1..]))
      else if rest[0] != ',' then None
      else
        match ReadItems(rest[1..])
        case None => None
        case Some((more, after)) => Some(([first] + more, after))
  }

  /** Named values separated by commas, up to the closing brace; a name that comes twice is refused. */
  function ReadFields(s: string): (r: Option<(map<string, Tree>, string)>)
    ensures r.Some? ==> |r.value.1| < |s|
    decreases |s|, 2
  {
    match ReadString(s)
    case None => None
    case Some((name, colon)) =>
      if colon == "" || colon[0] != ':' then None
      else
        match ReadValue(colon[1..])
        case None => None
        case Some((value, rest)) =>
          if rest == "" then None
          else if rest[0] == '}' then Some((map[name := value], rest[1..]))
          else if rest[0] != ',' then None
          else
            match ReadFields(rest[1..])
            case None => None
            case Some((more, after)) =>
              if name in more then None else Some((more[name := value], after))
  }

  /** A whole text. */
  function Read(s: string): Option<Tree> {
    match ReadValue(s)
    case None => None
    case Some((t, rest)) => if rest == "" then Some(t) else None
  }

  // --- What the encoding of a string reads as ------------------------------------------------------------

  lemma EscapeReads(c: char, s: string)
    ensures ReadChar(Escape(c) + s) == Some((c, s)) && (Escape(c) + s)[0] != '"'
  {
    var e := Escape(c);
    var x := e + s;
    assert x[0] == e[0] && (|e| >= 2 ==> x[1] == e[1]) && x[|e|..] == s;
    if |e| == 2 {
      assert x[2..] == s;
    } else if |e| == 6 {
      CodeReads(c, x, s);
    }
  }

  lemma CodeReads(c: char, x: string, s: string)
    requires |Escape(c)| == 6 && x == Escape(c) + s
    ensures ReadCode(x[2..]) == Some((c, s)) && x[1] == 'u'
  {
    var e := Escape(c);
    assert forall i | 0 <= i < 6 :: x[i] == e[i];
    assert x[2..][4..] == s;
    HexReads(c as nat / 16);
    HexReads(c as nat % 16);
  }

  lemma HexReads(d: nat)
    requires d < 16
    ensures HexValue(HexDigit(d)) == Some(d)
  {
  }

  lemma {:induction false} InsideReads(a: string, s: string)
    ensures ReadInside(EscapeAll(a) + "\"" + s) == Some((a, s))
  {
    hide Escape, ReadChar;
    var x := EscapeAll(a) + "\"" + s;
    if a == "" {
      assert x == "\"" + s;
    } else {
      var rest := EscapeAll(a[1..]) + "\"" + s;
      assert x == Escape(a[0]) + rest;
      EscapeReads(a[0], rest);
      InsideReads(a[1..], s);
      assert a == [a[0]] + a[1..];
    }
  }

  /** A quoted string reads as the string it quotes, whatever follows. */
  lemma QuoteReads(a: string, s: string)
    ensures ReadString(Quote(a) + s) == Some((a, s))
  {
    hide EscapeAll, ReadInside;
    assert (Quote(a) + s)[1..] == EscapeAll(a) + "\"" + s;
    InsideReads(a, s);
  }

  /** Escapes are as short as any that read the same: only the quotation mark, the backslash and
      controls are escaped, by a letter where there is one. */
  lemma EscapeShortest(c: char, e: string)
    requires ReadChar(e) == Some((c, ""))
    ensures |Escape(c)| <= |e|
  {
    if e[0] != '\\' {
      assert e == [c];
    }
  }

  // --- What the encoding of a value reads as --------------------------------------------------------------

  lemma DigitCountIs(x: string, s: string)
    requires AllDigits(x) && CI.Ends(s)
    ensures DigitCount(x + s) == |x|
  {
    CI.DigitsEnd(x, s);
    var n := DigitCount(x + s);
    assert forall k | 0 <= k < n :: IsDigit((x + s)[..n][k]) && (x + s)[..n][k] == (x + s)[k];
  }

  lemma DigitsRead(m: nat, s: string)
    requires CI.Ends(s)
    ensures var body := Text.Decimal(m) + s;
            var n := DigitCount(body);
            n > 0 && (n > 1 ==> body[0] != '0') && body[0] != '-' && DecimalValue(body[..n]) == m && body[n..] == s
  {
    hide DigitCount, Text.Decimal, DecimalValue;
    DigitCountIs(Text.Decimal(m), s);
    DecimalRoundTrip(m);
    assert (Text.Decimal(m) + s)[..|Text.Decimal(m)|] == Text.Decimal(m);
    assert IsDigit(Text.Decimal(m)[0]);
  }

  /** A number reads as itself up to a delimiter. */
  lemma IntReads(m: int, s: string)
    requires CI.Ends(s)
    ensures ReadInt(IntText(m) + s) == Some((m, s))
  {
    hide DigitCount, Text.Decimal, DecimalValue;
    if m < 0 {
      DigitsRead(-m, s);
      assert (IntText(m) + s)[1..] == Text.Decimal(-m) + s;
    } else {
      DigitsRead(m, s);
    }
  }

  lemma WordReads(t: Tree, s: string)
    requires t.TNull? || t.TBool?
    ensures ReadValue(TreeText(t) + s) == Some((t, s))
  {
    var x := TreeText(t) + s;
    assert x[..|TreeText(t)|] == TreeText(t) && x[|TreeText(t)|..] == s;
    assert x[0] == TreeText(t)[0];
  }

  /** No word starts where the first character is none of theirs. */
  lemma NoWord(s: string)
    requires s != "" && s[0] != 'n' && s[0] != 't' && s[0] != 'f'
    ensures !Starts(s, "null") && !Starts(s, "true") && !Starts(s, "false")
  {
    hide Starts;
    StartsFirst(s, "null");
    StartsFirst(s, "true");
    StartsFirst(s, "false");
  }

  lemma StartsFirst(s: string, word: string)
    requires word != ""
    ensures Starts(s, word) ==> s != "" && s[0] == word[0]
  {
    if Starts(s, word) { assert s[..|word|][0] == word[0]; }
  }

  lemma StrReads(a: string, s: string)
    ensures ReadValue(Quote(a) + s) == Some((TStr(a), s))
  {
    hide Starts, ReadString, EscapeAll;
    NoWord(Quote(a) + s);
    QuoteReads(a, s);
  }

  lemma NumberReads(m: int, s: string)
    requires CI.Ends(s)
    ensures ReadValue(IntText(m) + s) == Some((TInt(m), s))
  {
    hide Starts, ReadInt, Text.Decimal;
    var x := IntText(m) + s;
    assert x[0] == '-' || IsDigit(x[0]);
    NoWord(x);
    IntReads(m, s);
  }

  /** Every value the encoding can print reads back from its text, up to a delimiter. */
  lemma {:induction false} TreeReads(t: Tree, s: string)
    requires CI.Plain(t) && CI.Ends(s)
    ensures ReadValue(TreeText(t) + s) == Some((t, s))
    decreases t, 2, 0
  {
    hide TreeText, ItemsText, CI.Ends, IntText, Quote, CI.Plain, ReadValue, ReadItems;
    CI.NotPlain(t);
    CI.LeafText(t);
    match t
    case TInt(n) => NumberReads(n, s);
    case TStr(a) => StrReads(a, s);
    case TArray(items) =>
      CI.ArrayText(t, s);
      CI.PlainItems(t);
      CI.ItemsFirst(items, s);
      var inside := ItemsText(items) + "]" + s;
      ArrayStep(inside);
      if items != [] { ItemsRead(t, items, s); }
    case TObject(fields) => ObjectReads(t, s);
    case TNull => WordReads(t, s);
    case TBool(_) => WordReads(t, s);
    case TLexeme(_) =>
    case TOther =>
  }

  lemma ArrayStep(inside: string)
    requires inside != ""
    ensures ReadValue("[" + inside) ==
            if inside[0] == ']' then Some((TArray([]), inside[1..]))
            else match ReadItems(inside) case None => None case Some((items, rest)) => Some((TArray(items), rest))
  {
    hide Starts, ReadItems;
    var x := "[" + inside;
    NoWord(x);
    assert x[1] == inside[0] && x[1..] == inside && x[2..] == inside[1..];
  }

  lemma {:induction false} ItemsRead(whole: Tree, items: seq<Tree>, s: string)
    requires whole.TArray? && 0 < |items| <= |whole.items| && items == whole.items[|whole.items| - |items|..]
    requires forall i | 0 <= i < |items| :: CI.Plain(items[i])
    ensures ReadItems(ItemsText(items) + "]" + s) == Some((items, s))
    decreases whole, 1, |items|
  {
    hide TreeText, CI.Plain, ItemsText, CI.AfterItem, CI.Ends, ReadValue, ReadItems;
    CI.ItemsFirst(items, s);
    assert items[0] == whole.items[|whole.items| - |items|];
    var u := CI.AfterItem(items, s);
    TreeReads(items[0], u);
    CI.AfterItemSplit(items, s);
    ItemsStep(ItemsText(items) + "]" + s);
    if |items| > 1 {
      assert items[1..] == whole.items[|whole.items| - |items[1..]|..];
      ItemsRead(whole, items[1..], s);
      assert u[0] == ',' by { Comma(items, s); }
      assert items == [items[0]] + items[1..];
    } else {
      assert items == [items[0]];
    }
  }

  lemma Comma(items: seq<Tree>, s: string)
    requires |items| > 1
    ensures CI.AfterItem(items, s)[0] == ','
  {
    hide ItemsText;
  }

  lemma ItemsStep(s: string)
    ensures ReadItems(s) ==
            match ReadValue(s)
            case None => None
            case Some((first, rest)) =>
              if rest == "" then None
              else if rest[0] == ']' then Some(([first], rest[1..]))
              else if rest[0] != ',' then None
              else match ReadItems(rest[1..]) case None => None
                                              case Some((more, after)) => Some(([first] + more, after))
  {
    hide ReadValue;
  }

  lemma {:induction false} ObjectReads(t: Tree, s: string)
    requires t.TObject? && CI.Plain(t)
    ensures ReadValue(TreeText(t) + s) == Some((t, s))
    decreases t, 1, 0
  {
    hide FieldsText, KeysOf, ReadValue, ReadFields, CI.Plain, TreeText;
    var keys := KeysOf(t.fields.Keys);
    var inside := FieldsText(t, keys) + "}" + s;
    ObjectInside(t, s);
    CI.FieldsFirst(t, keys, s);
    ObjectStep(inside);
    if keys == [] {
      assert t.fields == map[] by { NoKeys(t.fields, keys); }
    } else {
      FieldsRead(t, keys, s);
      assert Only(t, keys) == t.fields by { AllKeys(t, keys); }
    }
  }

  lemma NoKeys(fields: map<string, Tree>, keys: seq<string>)
    requires keys == [] && forall k :: k in keys <==> k in fields.Keys
    ensures fields == map[]
  {
    assert forall k :: k !in fields.Keys;
  }

  /** The fields of an object under some of its keys. */
  ghost function Only(t: Tree, keys: seq<string>): map<string, Tree>
    requires t.TObject? && forall k | k in keys :: k in t.fields
  {
    map k | k in keys :: t.fields[k]
  }

  lemma AllKeys(t: Tree, keys: seq<string>)
    requires t.TObject? && forall k :: k in keys <==> k in t.fields.Keys
    ensures Only(t, keys) == t.fields
  {
    assert forall k :: k in t.fields <==> k in t.fields.Keys;
  }

  lemma ObjectInside(t: Tree, s: string)
    requires t.TObject?
    ensures TreeText(t) + s == "{" + (FieldsText(t, KeysOf(t.fields.Keys)) + "}" + s)
  {
    hide FieldsText, KeysOf;
    var inside := FieldsText(t, KeysOf(t.fields.Keys));
    CI.Regroup("{", inside, "}");
    CI.Regroup("{", inside + "}", s);
  }

  lemma ObjectStep(inside: string)
    requires inside != ""
    ensures ReadValue("{" + inside) ==
            if inside[0] == '}' then Some((TObject(map[]), inside[1..]))
            else match ReadFields(inside) case None => None case Some((fields, rest)) => Some((TObject(fields), rest))
  {
    hide Starts, ReadFields;
    var x := "{" + inside;
    NoWord(x);
    assert x[1] == inside[0] && x[1..] == inside && x[2..] == inside[1..];
  }

  lemma {:induction false} FieldsRead(t: Tree, keys: seq<string>, s: string)
    requires t.TObject? && CI.Plain(t) && keys != [] && SortedKeys(keys) && forall k | k in keys :: k in t.fields
    ensures ReadFields(FieldsText(t, keys) + "}" + s) == Some((Only(t, keys), s))
    decreases t, 0, |keys|
  {
    hide TreeText, CI.Plain, FieldsText, Quote, CI.AfterField, CI.Ends, ReadValue, ReadFields, ReadString, Only,
        SortedKeys;
    var u := CI.AfterField(t, keys, s);
    CI.FieldsFirst(t, keys, s);
    CI.FieldStep(t, keys, s);
    var p := TreeText(t.fields[keys[0]]) + u;
    QuoteReads(keys[0], ":" + p);
    assert (":" + p)[1..] == p;
    CI.PlainField(t, keys[0]);
    TreeReads(t.fields[keys[0]], u);
    CI.AfterFieldSplit(t, keys, s);
    FieldsStep(FieldsText(t, keys) + "}" + s);
    OnlyStep(t, keys);
    if |keys| > 1 {
      NextField(t, keys, s);
      FieldsRead(t, keys[1..], s);
    }
  }

  lemma NextField(t: Tree, keys: seq<string>, s: string)
    requires t.TObject? && |keys| > 1 && SortedKeys(keys) && forall k | k in keys :: k in t.fields
    ensures CI.AfterField(t, keys, s) != "" && CI.AfterField(t, keys, s)[0] == ',' && SortedKeys(keys[1..])
  {
    hide FieldsText, KeyLess;
  }

  lemma OnlyStep(t: Tree, keys: seq<string>)
    requires t.TObject? && keys != [] && SortedKeys(keys) && forall k | k in keys :: k in t.fields
    ensures keys[0] in t.fields && Only(t, keys) == Only(t, keys[1..])[keys[0] := t.fields[keys[0]]]
    ensures keys[0] !in Only(t, keys[1..]) && (|keys| == 1 ==> Only(t, keys[1..]) == map[])
  {
    hide KeyLess;
    assert keys[0] in keys;
    assert forall k :: k in keys <==> k == keys[0] || k in keys[1..];
    KeyTotal(keys[0], keys[0]);
    assert keys[0] !in keys[1..];
  }

  lemma FieldsStep(s: string)
    ensures ReadFields(s) ==
            match ReadString(s)
            case None => None
            case Some((name, colon)) =>
              if colon == "" || colon[0] != ':' then None
              else
                match ReadValue(colon[1..])
                case None => None
                case Some((value, rest)) =>
                  if rest == "" then None
                  else if rest[0] == '}' then Some((map[name := value], rest[1..]))
                  else if rest[0] != ',' then None
                  else
                    match ReadFields(rest[1..])
                    case None => None
                    case Some((more, after)) =>
                      if name in more then None else Some((more[name := value], after))
  {
    hide ReadValue, ReadString;
  }

  lemma TextReads(v: Value, ascii: bool)
    requires WellFormed(v) && Canon(v, 1, ascii).Ok?
    ensures Read(Canon(v, 1, ascii).value) == Some(Meaning(v))
  {
    hide Canon, Encodable, TreeText, Meaning, WellFormed, ReadValue;
    CanonEmits(v, 1, ascii);
    CI.EncodablePlain(Meaning(v), 1, ascii);
    TreeReads(Meaning(v), "");
    assert TreeText(Meaning(v)) + "" == TreeText(Meaning(v));
  }

  /** What a reader takes bytes for. */
  function ReadBytes(b: seq<Byte>): Option<Tree> {
    match UR.Decode(b)
    case None => None
    case Some(text) => Read(text)
  }

  /** Canonical bytes are UTF-8, and any reader of JSON takes them for what the value means. */
  lemma CanonicalReads(v: Value, ascii: bool)
    requires WellFormed(v) && CanonicalBytes(v, ascii).Ok?
    ensures ReadBytes(CanonicalBytes(v, ascii).value) == Some(Meaning(v))
  {
    hide Canon, Meaning, WellFormed, Read, UR.Decode, Utf8;
    TextReads(v, ascii);
    UR.Utf8Reads(Canon(v, 1, ascii).value);
  }
}
