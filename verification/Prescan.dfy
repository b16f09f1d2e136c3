/** The escape-aware depth scan that runs over the raw text before parsing. */
module Prescan {
  import opened Text
  import opened Unicode
  import opened Json
  import opened CanonicalJson
  import opened CanonicalInjective

  predicate Structural(c: char) {
    c == '"' || c == '\\' || c == '[' || c == ']' || c == '{' || c == '}'
  }

  predicate Opens(c: char) { c == '[' || c == '{' }

  predicate Closes(c: char) { c == ']' || c == '}' }

  /** Reading character by character, the depth never passes the limit. */
  ghost predicate ScanOk(text: string, depth: int, inString: bool)
    decreases |text|
  {
    if text == "" then true
    else if inString then
      if text[0] == '\\' then |text| == 1 || ScanOk(text[2..], depth, true)
      else ScanOk(text[1..], depth, text[0] != '"')
    else if text[0] == '"' then ScanOk(text[1..], depth, true)
    else if Opens(text[0]) then depth < MAX_DEPTH && ScanOk(text[1..], depth + 1, false)
    else if Closes(text[0]) then ScanOk(text[1..], depth - 1, false)
    else ScanOk(text[1..], depth, false)
  }

  lemma {:induction false} SkipPlain(text: string, n: nat, depth: int, inString: bool)
    requires n <= |text| && forall k | 0 <= k < n :: !Structural(text[k])
    ensures ScanOk(text, depth, inString) <==> ScanOk(text[n..], depth, inString)
  {
    if n == 0 {
      assert text[0..] == text;
    } else {
      SkipPlain(text[1..], n - 1, depth, inString);
      assert text[1..][n - 1..] == text[n..];
    }
  }

  method NextStructural(text: string, pos: nat) returns (at: nat)
    requires pos <= |text|
    ensures pos <= at <= |text|
    ensures forall k | pos <= k < at :: !Structural(text[k])
    ensures at < |text| ==> Structural(text[at])
  {
    at := pos;
    while at < |text| && !Structural(text[at])
      invariant pos <= at <= |text|
      invariant forall k | pos <= k < at :: !Structural(text[k])
    {
      at := at + 1;
    }
  }

  method PrescanDepth(text: string) returns (r: Result<()>)
    ensures r == if ScanOk(text, 0, false) then Ok(()) else Err(TooDeep)
  {
    var depth: int, inString, pos := 0, false, 0;
    assert text[0..] == text;
    while pos < |text|
      invariant 0 <= pos <= |text|
      invariant ScanOk(text, 0, false) <==> ScanOk(text[pos..], depth, inString)
    {
      var at := NextStructural(text, pos);
      ScanTo(text, pos, at, depth, inString);
      if at == |text| {
        return Ok(());
      }
      var c := text[at];
      ScanStep(text, at, depth, inString);
      pos := at + 1;
      if inString {
        if c == '\\' {
          pos := if pos < |text| then pos + 1 else pos;
        } else if c == '"' {
          inString := false;
        }
      } else if c == '"' {
        inString := true;
      } else if Opens(c) {
        depth := depth + 1;
        if depth > MAX_DEPTH {
          return Err(TooDeep);
        }
      } else if Closes(c) {
        depth := depth - 1;
      }
    }
    return Ok(());
  }

  lemma ScanTo(text: string, pos: nat, at: nat, depth: int, inString: bool)
    requires pos <= at <= |text| && forall k | pos <= k < at :: !Structural(text[k])
    ensures ScanOk(text[pos..], depth, inString) <==> ScanOk(text[at..], depth, inString)
  {
    SkipPlain(text[pos..], at - pos, depth, inString);
    assert text[pos..][at - pos..] == text[at..];
  }

  lemma ScanStep(text: string, at: nat, depth: int, inString: bool)
    requires at < |text|
    ensures text[at..][0] == text[at] && text[at..][1..] == text[at + 1..]
    ensures at + 1 < |text| ==> text[at..][2..] == text[at + 2..]
    ensures |text| - at == |text[at..]|
  {
  }

  // --- Canonical text ---------------------------------------------------------------

  lemma ScanEscape(c: char, rest: string, depth: int)
    ensures ScanOk(Escape(c) + rest, depth, true) <==> ScanOk(rest, depth, true)
  {
    var e, text := Escape(c), Escape(c) + rest;
    assert text[|e|..] == rest;
    if |e| == 1 {
      assert text[0] == c && c != '"' && c != '\\';
    } else {
      assert text[0] == '\\';
      SkipPlain(text[2..], |e| - 2, depth, true);
      assert text[2..][|e| - 2..] == rest;
    }
  }

  lemma {:induction false} ScanString(s: string, rest: string, depth: int)
    ensures ScanOk(EscapeAll(s) + "\"" + rest, depth, true) <==> ScanOk(rest, depth, false)
  {
    hide Escape;
    var text := EscapeAll(s) + "\"" + rest;
    if s == "" {
      assert text == "\"" + rest;
      assert text[1..] == rest;
    } else {
      var tail := EscapeAll(s[1..]) + "\"" + rest;
      assert text == Escape(s[0]) + tail;
      ScanEscape(s[0], tail, depth);
      ScanString(s[1..], rest, depth);
    }
  }

  lemma ScanQuote(s: string, rest: string, depth: int)
    ensures ScanOk(Quote(s) + rest, depth, false) <==> ScanOk(rest, depth, false)
  {
    hide EscapeAll;
    var text := Quote(s) + rest;
    assert text[1..] == EscapeAll(s) + "\"" + rest;
    ScanString(s, rest, depth);
  }

  /** The containers of `t` nest within the limit when `depth` are already open. */
  ghost predicate Fits(t: Tree, depth: int) {
    match t
    case TArray(items) => depth < MAX_DEPTH && forall i | 0 <= i < |items| :: Fits(items[i], depth + 1)
    case TObject(fields) => depth < MAX_DEPTH && forall k | k in fields :: Fits(fields[k], depth + 1)
    case _ => true
  }

  lemma {:induction false} EncodableFits(t: Tree, depth: nat, ascii: bool)
    requires Encodable(t, depth + 1, ascii)
    ensures Fits(t, depth)
  {
    hide CheckString;
    match t
    case TArray(items) =>
      forall i | 0 <= i < |items| ensures Fits(items[i], depth + 1) { EncodableFits(items[i], depth + 1, ascii); }
    case TObject(fields) =>
      forall k | k in fields ensures Fits(fields[k], depth + 1) { EncodableFits(fields[k], depth + 1, ascii); }
    case _ =>
  }

  lemma ScanWord(word: string, rest: string, depth: int)
    requires forall k | 0 <= k < |word| :: !Structural(word[k])
    ensures ScanOk(word + rest, depth, false) <==> ScanOk(rest, depth, false)
  {
    SkipPlain(word + rest, |word|, depth, false);
    assert (word + rest)[|word|..] == rest;
  }

  lemma IntPlain(n: int)
    ensures forall k | 0 <= k < |IntText(n)| :: !Structural(IntText(n)[k])
  {
    hide Text.Decimal;
    var digits := Text.Decimal(if n < 0 then -n else n);
    assert AllDigits(digits);
  }

  /** Scanning past a value's text succeeds exactly when the value fits, and then
      leaves the depth where it was. */
  lemma {:induction false} ScanTree(t: Tree, rest: string, depth: int)
    requires Plain(t)
    ensures ScanOk(TreeText(t) + rest, depth, false) <==> Fits(t, depth) && ScanOk(rest, depth, false)
    decreases t, 1, 0
  {
    match t
    case TNull => ScanWord("null", rest, depth);
    case TBool(b) => ScanWord(if b then "true" else "false", rest, depth);
    case TInt(n) =>
      IntPlain(n);
      ScanWord(IntText(n), rest, depth);
    case TStr(s) => ScanQuote(s, rest, depth);
    case TArray(items) => ScanArray(t, rest, depth);
    case TObject(fields) => ScanObject(t, rest, depth);
    case TLexeme(_) =>
    case TOther =>
  }

  lemma ScanOpen(open: string, inner: string, depth: int)
    requires open == "[" || open == "{"
    ensures ScanOk(open + inner, depth, false) <==> depth < MAX_DEPTH && ScanOk(inner, depth + 1, false)
  {
    assert (open + inner)[1..] == inner;
  }

  lemma {:induction false} ScanArray(t: Tree, rest: string, depth: int)
    requires Plain(t) && t.TArray?
    ensures ScanOk(TreeText(t) + rest, depth, false) <==> Fits(t, depth) && ScanOk(rest, depth, false)
    decreases t, 0, |t.items| + 1
  {
    PlainItems(t);
    hide ItemsText, ScanOk, Plain;
    Regroup("[", ItemsText(t.items), "]");
    Regroup("[", ItemsText(t.items) + "]", rest);
    ScanOpen("[", ItemsText(t.items) + "]" + rest, depth);
    ScanItems(t, t.items, rest, depth + 1);
  }

  lemma {:induction false} ScanObject(t: Tree, rest: string, depth: int)
    requires Plain(t) && t.TObject?
    ensures ScanOk(TreeText(t) + rest, depth, false) <==> Fits(t, depth) && ScanOk(rest, depth, false)
    decreases t, 0, |KeysOf(t.fields.Keys)| + 1
  {
    hide FieldsText, ScanOk, KeysOf, Plain;
    var keys := KeysOf(t.fields.Keys);
    Regroup("{", FieldsText(t, keys), "}");
    Regroup("{", FieldsText(t, keys) + "}", rest);
    ScanOpen("{", FieldsText(t, keys) + "}" + rest, depth);
    ScanFields(t, keys, rest, depth + 1);
    assert forall k :: k in keys <==> k in t.fields;
  }

  lemma {:induction false} ScanItems(whole: Tree, items: seq<Tree>, rest: string, depth: int)
    requires whole.TArray? && |items| <= |whole.items| && items == whole.items[|whole.items| - |items|..]
    requires forall i | 0 <= i < |items| :: Plain(items[i])
    ensures ScanOk(ItemsText(items) + "]" + rest, depth, false) <==>
            (forall i | 0 <= i < |items| :: Fits(items[i], depth)) && ScanOk(rest, depth - 1, false)
    decreases whole, 0, |items|
  {
    hide TreeText, Plain, Fits;
    if items == [] {
      ScanClose("]", rest, depth);
      assert ItemsText(items) + "]" + rest == "]" + rest;
    } else {
      assert items[0] == whole.items[|whole.items| - |items|];
      var after := AfterItem(items, rest);
      ItemStep(items, rest);
      ScanTree(items[0], after, depth);
      hide ItemsText;
      if |items| == 1 {
        ScanClose("]", rest, depth);
      } else {
        var tail := items[1..];
        assert tail == whole.items[|whole.items| - |tail|..];
        ScanItems(whole, tail, rest, depth);
        ScanWord(",", ItemsText(tail) + "]" + rest, depth);
        assert forall i | 0 < i < |items| :: items[i] == tail[i - 1];
        assert (forall i | 0 <= i < |items| :: Fits(items[i], depth)) <==>
               Fits(items[0], depth) && forall i | 0 <= i < |tail| :: Fits(tail[i], depth) by {
          assert forall i | 0 <= i < |tail| :: tail[i] == items[i + 1];
        }
      }
    }
  }

  lemma ScanClose(close: string, rest: string, depth: int)
    requires close == "]" || close == "}"
    ensures ScanOk(close + rest, depth, false) <==> ScanOk(rest, depth - 1, false)
  {
    assert (close + rest)[1..] == rest;
  }

  lemma {:induction false} ScanFields(t: Tree, keys: seq<string>, rest: string, depth: int)
    requires t.TObject? && Plain(t) && forall k | k in keys :: k in t.fields
    ensures ScanOk(FieldsText(t, keys) + "}" + rest, depth, false) <==>
            (forall k | k in keys :: Fits(t.fields[k], depth)) && ScanOk(rest, depth - 1, false)
    decreases t, 0, |keys|
  {
    if keys == [] {
      ScanClose("}", rest, depth);
      assert FieldsText(t, keys) + "}" + rest == "}" + rest;
    } else {
      assert keys[0] in keys;
      var after, value := AfterField(t, keys, rest), t.fields[keys[0]];
      FieldStep(t, keys, rest);
      assert Plain(value);
      hide TreeText, Plain, Fits, Quote, FieldsText;
      ScanQuote(keys[0], ":" + (TreeText(value) + after), depth);
      ScanWord(":", TreeText(value) + after, depth);
      ScanTree(value, after, depth);
      if |keys| == 1 {
        ScanClose("}", rest, depth);
      } else {
        var tail := keys[1..];
        ScanFields(t, tail, rest, depth);
        ScanWord(",", FieldsText(t, tail) + "}" + rest, depth);
        assert forall k :: k in keys <==> k == keys[0] || k in tail;
      }
    }
  }

  /** The scan accepts every canonical encoding. */
  lemma PrescanAcceptsCanonical(v: Value, ascii: bool)
    requires WellFormed(v) && CanonicalBytes(v, ascii).Ok?
    ensures CanonicalBytes(v, ascii).value == Utf8(TreeText(Meaning(v)))
    ensures ScanOk(TreeText(Meaning(v)), 0, false)
  {
    hide Canon, Encodable, TreeText, Meaning, WellFormed, Utf8, ScanOk, Fits;
    CanonEmits(v, 1, ascii);
    var t := Meaning(v);
    EncodablePlain(t, 1, ascii);
    EncodableFits(t, 0, ascii);
    ScanTree(t, "", 0);
    assert TreeText(t) + "" == TreeText(t);
    assert ScanOk("", 0, false) by { ScanNothing(); }
  }

  lemma ScanNothing()
    ensures ScanOk("", 0, false)
  {
  }
}
