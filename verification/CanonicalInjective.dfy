/** The canonical encoding is prefix-free up to a closing delimiter, hence injective. */
module CanonicalInjective {
  import opened Text
  import opened Unicode
  import opened Json
  import opened CanonicalJson

  // --- Strings -------------------------------------------------------------------

  /** Escapes are prefix-free, so an escaped text splits in one way only. */
  lemma EscapePrefixFree(c: char, d: char, s: string, t: string)
    requires Escape(c) + s == Escape(d) + t
    ensures c == d && s == t
  {
    var a, b := Escape(c) + s, Escape(d) + t;
    assert a[0] == Escape(c)[0] && b[0] == Escape(d)[0];
    assert |Escape(c)| >= 2 ==> a[1] == Escape(c)[1];
    assert |Escape(d)| >= 2 ==> b[1] == Escape(d)[1];
    assert |Escape(c)| == 6 ==> a[4] == Escape(c)[4] && a[5] == Escape(c)[5];
    assert |Escape(d)| == 6 ==> b[4] == Escape(d)[4] && b[5] == Escape(d)[5];
    assert c as int == d as int;
    assert s == a[|Escape(c)|..] && t == b[|Escape(d)|..];
  }

  /** A closing quote comes first exactly when nothing is escaped before it. */
  lemma EscapedFirst(a: string, s: string)
    ensures (EscapeAll(a) + "\"" + s)[0] == '"' <==> a == ""
    ensures a == "" ==> (EscapeAll(a) + "\"" + s)[1..] == s
  {
    hide Escape;
    if a == "" {
      assert EscapeAll(a) + "\"" + s == "\"" + s;
    }
  }

  lemma {:induction false} EscapeAllPrefixFree(a: string, b: string, s: string, t: string)
    requires EscapeAll(a) + "\"" + s == EscapeAll(b) + "\"" + t
    ensures a == b && s == t
  {
    hide Escape;
    var x, y := EscapeAll(a) + "\"" + s, EscapeAll(b) + "\"" + t;
    EscapedFirst(a, s);
    EscapedFirst(b, t);
    if a != "" {
      assert x == Escape(a[0]) + (EscapeAll(a[1..]) + "\"" + s);
      assert y == Escape(b[0]) + (EscapeAll(b[1..]) + "\"" + t);
      EscapePrefixFree(a[0], b[0], EscapeAll(a[1..]) + "\"" + s, EscapeAll(b[1..]) + "\"" + t);
      EscapeAllPrefixFree(a[1..], b[1..], s, t);
    }
  }

  lemma QuotePrefixFree(a: string, b: string, s: string, t: string)
    requires Quote(a) + s == Quote(b) + t
    ensures a == b && s == t
  {
    hide EscapeAll;
    assert (Quote(a) + s)[1..] == EscapeAll(a) + "\"" + s;
    assert (Quote(b) + t)[1..] == EscapeAll(b) + "\"" + t;
    EscapeAllPrefixFree(a, b, s, t);
  }

  // --- Numbers ---------------------------------------------------------------------

  /** What may follow a value inside a canonical document. */
  ghost predicate Ends(s: string) {
    s == "" || s[0] == ',' || s[0] == ']' || s[0] == '}'
  }

  lemma DigitsEnd(x: string, s: string)
    requires AllDigits(x) && Ends(s)
    ensures forall k | 0 <= k < |x| :: IsDigit((x + s)[k])
    ensures |x| < |x + s| ==> !IsDigit((x + s)[|x|])
    ensures (x + s)[..|x|] == x && (x + s)[|x|..] == s
  {
  }

  lemma DigitsSplit(x: string, y: string, s: string, t: string)
    requires AllDigits(x) && AllDigits(y) && Ends(s) && Ends(t) && x + s == y + t
    ensures x == y && s == t
  {
    hide AllDigits, Ends;
    DigitsEnd(x, s);
    DigitsEnd(y, t);
    assert |x| == |y|;
  }

  lemma SignOf(n: int, s: string)
    ensures IntText(n) != "" && ((IntText(n) + s)[0] == '-' <==> n < 0)
    ensures n < 0 ==> (IntText(n) + s)[1..] == Text.Decimal(-n) + s
  {
    hide Text.Decimal;
    if n < 0 {
      assert (IntText(n) + s)[1..] == Text.Decimal(-n) + s;
    } else {
      assert IsDigit(IntText(n)[0]);
    }
  }

  lemma IntPrefixFree(m: int, n: int, s: string, t: string)
    requires Ends(s) && Ends(t) && IntText(m) + s == IntText(n) + t
    ensures m == n && s == t
  {
    hide Text.Decimal, DecimalValue;
    SignOf(m, s);
    SignOf(n, t);
    if m < 0 {
      DecimalPrefixFree(-m, -n, s, t);
    } else {
      DecimalPrefixFree(m, n, s, t);
    }
  }

  lemma DecimalPrefixFree(m: nat, n: nat, s: string, t: string)
    requires Ends(s) && Ends(t) && Text.Decimal(m) + s == Text.Decimal(n) + t
    ensures m == n && s == t
  {
    hide Text.Decimal, DecimalValue, Ends;
    DigitsSplit(Text.Decimal(m), Text.Decimal(n), s, t);
    DecimalRoundTrip(m);
    DecimalRoundTrip(n);
  }

  // --- Values ----------------------------------------------------------------------

  /** A tree made only of what the encoder can emit. */
  ghost predicate Plain(t: Tree) {
    match t
    case TLexeme(_) => false
    case TOther => false
    case TArray(items) => forall i | 0 <= i < |items| :: Plain(items[i])
    case TObject(fields) => forall k | k in fields :: Plain(fields[k])
    case _ => true
  }

  lemma {:induction false} EncodablePlain(t: Tree, depth: nat, ascii: bool)
    requires Encodable(t, depth, ascii)
    ensures Plain(t)
  {
    match t
    case TArray(items) =>
      forall i | 0 <= i < |items| ensures Plain(items[i]) { EncodablePlain(items[i], depth + 1, ascii); }
    case TObject(fields) =>
      forall k | k in fields ensures Plain(fields[k]) { EncodablePlain(fields[k], depth + 1, ascii); }
    case _ =>
  }

  datatype Kind = KNull | KTrue | KFalse | KNumber | KString | KArray | KObject

  ghost function KindOf(t: Tree): Kind
    requires Plain(t)
  {
    match t
    case TNull => KNull
    case TBool(b) => if b then KTrue else KFalse
    case TInt(_) => KNumber
    case TStr(_) => KString
    case TArray(_) => KArray
    case TObject(_) => KObject
  }

  ghost function KindOfChar(c: char): Kind {
    if c == 'n' then KNull
    else if c == 't' then KTrue
    else if c == 'f' then KFalse
    else if c == '"' then KString
    else if c == '[' then KArray
    else if c == '{' then KObject
    else KNumber
  }

  /** The first character tells the kind of value and is no delimiter. */
  lemma FirstChar(t: Tree)
    requires Plain(t)
    ensures TreeText(t) != "" && KindOfChar(TreeText(t)[0]) == KindOf(t)
    ensures TreeText(t)[0] != ',' && TreeText(t)[0] != ']' && TreeText(t)[0] != '}'
  {
    hide EscapeAll, ItemsText, FieldsText, KeysOf, Text.Decimal;
    if t.TInt? {
      assert t.n >= 0 ==> IsDigit(IntText(t.n)[0]);
    }
  }

  lemma SameKind(a: Tree, b: Tree, s: string, t: string)
    requires Plain(a) && Plain(b) && TreeText(a) + s == TreeText(b) + t
    ensures KindOf(a) == KindOf(b)
  {
    hide TreeText, Plain, KindOf, KindOfChar;
    FirstChar(a);
    FirstChar(b);
    assert (TreeText(a) + s)[0] == TreeText(a)[0] && (TreeText(b) + t)[0] == TreeText(b)[0];
  }

  /** Two values of one kind that are null or a truth value are the same. */
  lemma ConstantPrefixFree(a: Tree, b: Tree, s: string, t: string)
    requires (a.TNull? && b.TNull?) || (a.TBool? && b.TBool? && a.b == b.b)
    requires TreeText(a) + s == TreeText(b) + t
    ensures a == b && s == t
  {
    assert a == b;
    assert (TreeText(a) + s)[|TreeText(a)|..] == s && (TreeText(b) + t)[|TreeText(a)|..] == t;
  }

  lemma LeafText(t: Tree)
    ensures t.TInt? ==> TreeText(t) == IntText(t.n)
    ensures t.TStr? ==> TreeText(t) == Quote(t.s)
  {
    hide IntText, Quote;
  }

  lemma ArrayText(t: Tree, s: string)
    requires t.TArray?
    ensures TreeText(t) + s == "[" + (ItemsText(t.items) + "]" + s)
  {
    hide ItemsText;
    Regroup("[", ItemsText(t.items), "]");
    Regroup("[", ItemsText(t.items) + "]", s);
  }

  lemma SameTail(x: string, y: string)
    requires "[" + x == "[" + y
    ensures x == y
  {
    assert ("[" + x)[1..] == x && ("[" + y)[1..] == y;
  }

  lemma {:induction false} TreePrefixFree(a: Tree, b: Tree, s: string, t: string)
    requires Plain(a) && Plain(b) && Ends(s) && Ends(t) && TreeText(a) + s == TreeText(b) + t
    ensures a == b && s == t
    decreases a, 2, 0
  {
    hide TreeText, ItemsText, Ends, IntText, Quote, Plain;
    NotPlain(a);
    NotPlain(b);
    SameKind(a, b, s, t);
    LeafText(a);
    LeafText(b);
    match a
    case TInt(n) => IntPrefixFree(a.n, b.n, s, t);
    case TStr(u) => QuotePrefixFree(a.s, b.s, s, t);
    case TArray(items) =>
      ArrayText(a, s);
      ArrayText(b, t);
      SameTail(ItemsText(a.items) + "]" + s, ItemsText(b.items) + "]" + t);
      PlainItems(a);
      PlainItems(b);
      ItemsPrefixFree(a, a.items, b.items, s, t);
    case TObject(fields) => ObjectPrefixFree(a, b, s, t);
    case TNull => ConstantPrefixFree(a, b, s, t);
    case TBool(u) => ConstantPrefixFree(a, b, s, t);
    case TLexeme(_) =>
    case TOther =>
  }

  lemma NotPlain(t: Tree)
    ensures Plain(t) ==> !t.TLexeme? && !t.TOther?
  {
  }

  lemma PlainItems(t: Tree)
    requires Plain(t) && t.TArray?
    ensures forall i | 0 <= i < |t.items| :: Plain(t.items[i])
  {
  }

  ghost function AfterItem(items: seq<Tree>, s: string): string
    requires items != []
  {
    if |items| == 1 then "]" + s else "," + (ItemsText(items[1..]) + "]" + s)
  }

  lemma AfterItemSplit(items: seq<Tree>, s: string)
    requires items != []
    ensures var u := AfterItem(items, s);
            u != "" && Ends(u) && (u[0] == ']' <==> |items| == 1)
            && u[1..] == if |items| == 1 then s else ItemsText(items[1..]) + "]" + s
  {
    hide ItemsText;
  }

  lemma Regroup(a: string, b: string, c: string)
    ensures a + b + c == a + (b + c)
  {
  }

  lemma ItemStep(items: seq<Tree>, s: string)
    requires items != []
    ensures ItemsText(items) + "]" + s == TreeText(items[0]) + AfterItem(items, s)
  {
    hide TreeText;
    var head := TreeText(items[0]);
    if |items| == 1 {
      Regroup(head, "]", s);
    } else {
      var tail := ItemsText(items[1..]);
      Regroup(head, ",", tail);
      Regroup(head, "," + tail, "]");
      Regroup(head, "," + tail + "]", s);
      Regroup(",", tail, "]");
      Regroup(",", tail + "]", s);
    }
  }

  lemma ItemsFirst(items: seq<Tree>, s: string)
    requires forall i | 0 <= i < |items| :: Plain(items[i])
    ensures (ItemsText(items) + "]" + s)[0] == ']' <==> items == []
    ensures items == [] ==> (ItemsText(items) + "]" + s)[1..] == s
    ensures items != [] ==> ItemsText(items) + "]" + s == TreeText(items[0]) + AfterItem(items, s)
    ensures items != [] ==> Ends(AfterItem(items, s))
  {
    hide TreeText, Plain;
    if items == [] {
      Regroup("", "]", s);
      assert "]" + s == "" + ("]" + s);
    } else {
      hide ItemsText;
      FirstChar(items[0]);
      ItemStep(items, s);
      AfterItemSplit(items, s);
      hide AfterItem, KindOf, KindOfChar, Ends;
    }
  }

  lemma {:induction false} ItemsPrefixFree(whole: Tree, a: seq<Tree>, b: seq<Tree>, s: string, t: string)
    requires whole.TArray? && |a| <= |whole.items| && a == whole.items[|whole.items| - |a|..]
    requires (forall i | 0 <= i < |a| :: Plain(a[i])) && (forall i | 0 <= i < |b| :: Plain(b[i]))
    requires ItemsText(a) + "]" + s == ItemsText(b) + "]" + t
    ensures a == b && s == t
    decreases whole, 1, |a|
  {
    hide TreeText, Plain, ItemsText, AfterItem, Ends;
    ItemsFirst(a, s);
    ItemsFirst(b, t);
    if a != [] {
      assert a[0] == whole.items[|whole.items| - |a|];
      var u, v := AfterItem(a, s), AfterItem(b, t);
      TreePrefixFree(a[0], b[0], u, v);
      AfterItemSplit(a, s);
      AfterItemSplit(b, t);
      if |a| > 1 {
        assert a[1..] == whole.items[|whole.items| - |a[1..]|..];
        ItemsPrefixFree(whole, a[1..], b[1..], s, t);
      }
    }
  }

  lemma {:induction false} ObjectPrefixFree(a: Tree, b: Tree, s: string, t: string)
    requires a.TObject? && b.TObject? && Plain(a) && Plain(b) && TreeText(a) + s == TreeText(b) + t
    ensures a == b && s == t
    decreases a, 1, 0
  {
    hide FieldsText, KeysOf;
    var ka, kb := KeysOf(a.fields.Keys), KeysOf(b.fields.Keys);
    var x, y := TreeText(a) + s, TreeText(b) + t;
    assert x[1..] == FieldsText(a, ka) + "}" + s && y[1..] == FieldsText(b, kb) + "}" + t;
    FieldsPrefixFree(a, ka, b, kb, s, t);
    forall k ensures k in a.fields <==> k in b.fields {
      assert k in ka <==> k in a.fields.Keys;
      assert k in kb <==> k in b.fields.Keys;
    }
    assert forall k | k in a.fields :: k in ka;
    assert a.fields == b.fields;
  }

  lemma PlainField(t: Tree, k: string)
    requires t.TObject? && Plain(t) && k in t.fields
    ensures Plain(t.fields[k])
  {
  }

  lemma ColonTail(p: string, q: string)
    requires ":" + p == ":" + q
    ensures p == q
  {
    assert (":" + p)[1..] == p && (":" + q)[1..] == q;
  }

  lemma {:induction false} FieldsPrefixFree(a: Tree, ka: seq<string>, b: Tree, kb: seq<string>, s: string, t: string)
    requires a.TObject? && b.TObject? && Plain(a) && Plain(b)
    requires (forall k | k in ka :: k in a.fields) && (forall k | k in kb :: k in b.fields)
    requires FieldsText(a, ka) + "}" + s == FieldsText(b, kb) + "}" + t
    ensures ka == kb && s == t && forall k | k in ka :: a.fields[k] == b.fields[k]
    decreases a, 0, |ka|
  {
    hide TreeText, Plain, FieldsText, Quote, AfterField, Ends;
    FieldsFirst(a, ka, s);
    FieldsFirst(b, kb, t);
    if ka != [] {
      var u, v := AfterField(a, ka, s), AfterField(b, kb, t);
      FieldStep(a, ka, s);
      FieldStep(b, kb, t);
      var p, q := TreeText(a.fields[ka[0]]) + u, TreeText(b.fields[kb[0]]) + v;
      PlainField(a, ka[0]);
      PlainField(b, kb[0]);
      QuotePrefixFree(ka[0], kb[0], ":" + p, ":" + q);
      ColonTail(p, q);
      TreePrefixFree(a.fields[ka[0]], b.fields[kb[0]], u, v);
      AfterFieldSplit(a, ka, s);
      AfterFieldSplit(b, kb, t);
      if |ka| > 1 {
        FieldsPrefixFree(a, ka[1..], b, kb[1..], s, t);
        assert ka == [ka[0]] + ka[1..] && kb == [kb[0]] + kb[1..];
      }
    }
  }

  ghost function AfterField(a: Tree, keys: seq<string>, s: string): string
    requires a.TObject? && keys != [] && forall k | k in keys :: k in a.fields
  {
    if |keys| == 1 then "}" + s else "," + (FieldsText(a, keys[1..]) + "}" + s)
  }

  lemma AfterFieldSplit(a: Tree, keys: seq<string>, s: string)
    requires a.TObject? && keys != [] && forall k | k in keys :: k in a.fields
    ensures var u := AfterField(a, keys, s);
            u != "" && Ends(u) && (u[0] == '}' <==> |keys| == 1)
            && u[1..] == if |keys| == 1 then s else FieldsText(a, keys[1..]) + "}" + s
  {
    hide FieldsText;
  }

  lemma FieldsFirst(a: Tree, keys: seq<string>, s: string)
    requires a.TObject? && forall k | k in keys :: k in a.fields
    ensures (FieldsText(a, keys) + "}" + s)[0] == '}' <==> keys == []
    ensures keys == [] ==> (FieldsText(a, keys) + "}" + s)[1..] == s
    ensures keys != [] ==> Ends(AfterField(a, keys, s))
  {
    hide TreeText, EscapeAll;
    if keys == [] {
      assert FieldsText(a, keys) + "}" + s == "}" + s;
    } else {
      assert keys[0] in keys;
    }
  }

  lemma FieldStep(a: Tree, keys: seq<string>, s: string)
    requires a.TObject? && keys != [] && forall k | k in keys :: k in a.fields
    ensures keys[0] in keys && keys[0] in a.fields
    ensures FieldsText(a, keys) + "}" + s ==
            Quote(keys[0]) + (":" + (TreeText(a.fields[keys[0]]) + AfterField(a, keys, s)))
  {
    hide TreeText, Quote;
    assert keys[0] in keys;
    var head, value := Quote(keys[0]), TreeText(a.fields[keys[0]]);
    FieldRest(head, value, if |keys| == 1 then "" else "," + FieldsText(a, keys[1..]), s);
    if |keys| == 1 {
      assert head + ":" + value + "" == head + ":" + value;
      assert "" + "}" + s == "}" + s;
    } else {
      var tail := FieldsText(a, keys[1..]);
      Regroup(head + ":" + value, ",", tail);
      Regroup(",", tail, "}");
      Regroup(",", tail + "}", s);
    }
  }

  lemma FieldRest(head: string, value: string, rest: string, s: string)
    ensures head + ":" + value + rest + "}" + s == head + (":" + (value + (rest + "}" + s)))
  {
    Regroup(head, ":", value);
    Regroup(head, ":" + value, rest);
    Regroup(head, ":" + value + rest, "}");
    Regroup(head, ":" + value + rest + "}", s);
    Regroup(":", value, rest);
    Regroup(":", value + rest, "}");
    Regroup(":", value + rest + "}", s);
    Regroup(value, rest, "}");
    Regroup(value, rest + "}", s);
  }

  /** Two accepted values with equal canonical bytes mean the same. */
  lemma EqualBytesEqualMeaning(v: Value, w: Value, ascii: bool, ascii': bool)
    requires WellFormed(v) && WellFormed(w)
    requires CanonicalBytes(v, ascii).Ok? && CanonicalBytes(v, ascii) == CanonicalBytes(w, ascii')
    ensures Meaning(v) == Meaning(w)
  {
    hide Canon, Encodable, TreeText, Meaning, WellFormed, Utf8;
    CanonEmits(v, 1, ascii);
    CanonEmits(w, 1, ascii');
    var a, b := TreeText(Meaning(v)), TreeText(Meaning(w));
    Utf8Injective(a, b);
    EncodablePlain(Meaning(v), 1, ascii);
    EncodablePlain(Meaning(w), 1, ascii');
    assert a + "" == b + "";
    TreePrefixFree(Meaning(v), Meaning(w), "", "");
  }
}
