/** The canonical encoding: integers only, keys in UTF-16 order, no spaces. */
module CanonicalJson {
  import opened Text
  import opened Unicode
  import opened Json

  // --- Strings -------------------------------------------------------------------

  function HexDigit(d: nat): char
    requires d < 16
  {
    if d < 10 then '0' + d as char else 'a' + (d - 10) as char
  }

  function Escape(c: char): (e: string)
    ensures e != "" && e[0] != '"'
  {
    if c == '"' then "\\\""
    else if c == '\\' then "\\\\"
    else if c == '\n' then "\\n"
    else if c == '\r' then "\\r"
    else if c == '\t' then "\\t"
    else if c == 8 as char then "\\b"
    else if c == 12 as char then "\\f"
    else if c < ' ' then ['\\', 'u', '0', '0', HexDigit(c as nat / 16), HexDigit(c as nat % 16)]
    else [c]
  }

  function EscapeAll(s: string): string {
    if s == "" then "" else Escape(s[0]) + EscapeAll(s[1..])
  }

  function Quote(s: string): string { "\"" + EscapeAll(s) + "\"" }

  function IntText(n: int): string { if n < 0 then "-" + Text.Decimal(-n) else Text.Decimal(n) }

  function JoinComma(parts: seq<string>): string {
    if parts == [] then ""
    else if |parts| == 1 then parts[0]
    else parts[0] + "," + JoinComma(parts[1..])
  }

  // --- Members in key order --------------------------------------------------------

  /** One encoded member: its key and the encoding of its value, or why that failed. */
  datatype Part = Part(key: string, text: Result<string>)

  ghost predicate Sorted(parts: seq<Part>) {
    forall i, j | 0 <= i < j < |parts| :: KeyLess(parts[i].key, parts[j].key)
  }

  ghost predicate Distinct(parts: seq<Part>) {
    forall i, j | 0 <= i < j < |parts| :: parts[i].key != parts[j].key
  }

  function Insert(p: Part, parts: seq<Part>): (r: seq<Part>)
    ensures |r| == |parts| + 1
    ensures forall x :: x in r <==> x == p || x in parts
  {
    if parts == [] then [p]
    else if !KeyLess(parts[0].key, p.key) then [p] + parts
    else [parts[0]] + Insert(p, parts[1..])
  }

  /** The stable sort of members by the UTF-16 form of their keys. */
  function Sort(parts: seq<Part>): (r: seq<Part>)
    ensures |r| == |parts|
    ensures forall x :: x in r <==> x in parts
  {
    if parts == [] then [] else Insert(parts[0], Sort(parts[1..]))
  }

  lemma {:induction false} InsertSorted(p: Part, parts: seq<Part>)
    requires Sorted(parts) && forall x | x in parts :: x.key != p.key
    ensures Sorted(Insert(p, parts))
  {
    if parts != [] {
      KeyTotal(p.key, parts[0].key);
      if KeyLess(p.key, parts[0].key) {
        forall i | 0 < i < |parts| ensures KeyLess(p.key, parts[i].key) {
          KeyTransitive(p.key, parts[0].key, parts[i].key);
        }
      } else {
        InsertSorted(p, parts[1..]);
        var r := Insert(p, parts[1..]);
        forall i | 0 <= i < |r| ensures KeyLess(parts[0].key, r[i].key) {
          assert r[i] in r;
        }
      }
    }
  }

  lemma {:induction false} SortSorted(parts: seq<Part>)
    requires Distinct(parts)
    ensures Sorted(Sort(parts))
  {
    if parts != [] {
      SortSorted(parts[1..]);
      assert forall x | x in parts[1..] :: exists j | 0 < j < |parts| :: parts[j] == x;
      InsertSorted(parts[0], Sort(parts[1..]));
    }
  }

  // --- The encoder -------------------------------------------------------------------

  function Canon(v: Value, depth: nat, ascii: bool): Result<string> {
    match v
    case Bool(b) => Ok(if b then "true" else "false")
    case Int(n) =>
      if n < -MAX_SAFE_INTEGER || n > MAX_SAFE_INTEGER then Err(BadNumber) else Ok(IntText(n))
    case Null => Ok("null")
    case Str(s) =>
      (match CheckString(s, ascii, MAX_STRING_BYTES)
       case Err(c) => Err(c)
       case Ok(_) => Ok(Quote(s)))
    case Dict(members) =>
      if depth > MAX_DEPTH then Err(TooDeep)
      else
        (match CheckKeys(members, ascii, MAX_STRING_BYTES)
         case Err(c) => Err(c)
         case Ok(_) => ObjectOf(Sort(CanonMembers(members, depth + 1, ascii))))
    case List(items) =>
      if depth > MAX_DEPTH then Err(TooDeep)
      else if |items| > MAX_ARRAY_ITEMS then Err(ArrayTooLong)
      else ArrayOf(CanonItems(items, depth + 1, ascii))
    case Tuple(items) =>
      if depth > MAX_DEPTH then Err(TooDeep)
      else if |items| > MAX_ARRAY_ITEMS then Err(ArrayTooLong)
      else ArrayOf(CanonItems(items, depth + 1, ascii))
    case Lexeme(_) => Err(BadType)
    case Other => Err(BadType)
  }

  function CanonItems(items: seq<Value>, depth: nat, ascii: bool): (r: seq<Result<string>>)
    ensures |r| == |items|
    ensures forall i | 0 <= i < |items| :: r[i] == Canon(items[i], depth, ascii)
  {
    if items == [] then [] else [Canon(items[0], depth, ascii)] + CanonItems(items[1..], depth, ascii)
  }

  function CanonMembers(members: seq<Member>, depth: nat, ascii: bool): (r: seq<Part>)
    ensures |r| == |members|
    ensures forall i | 0 <= i < |members| :: r[i] == Part(members[i].key, Canon(members[i].value, depth, ascii))
  {
    if members == [] then []
    else [Part(members[0].key, Canon(members[0].value, depth, ascii))] + CanonMembers(members[1..], depth, ascii)
  }

  /** The encodings in order, or the first failure. */
  function Collect(texts: seq<Result<string>>): Result<seq<string>> {
    if texts == [] then Ok([])
    else
      match texts[0]
      case Err(c) => Err(c)
      case Ok(text) =>
        match Collect(texts[1..])
        case Err(c) => Err(c)
        case Ok(rest) => Ok([text] + rest)
  }

  function ArrayOf(texts: seq<Result<string>>): Result<string> {
    match Collect(texts)
    case Err(c) => Err(c)
    case Ok(parts) => Ok("[" + JoinComma(parts) + "]")
  }

  function Named(parts: seq<Part>): (r: seq<Result<string>>)
    ensures |r| == |parts|
  {
    seq(|parts|, i requires 0 <= i < |parts| =>
      match parts[i].text
      case Err(c) => Err(c)
      case Ok(text) => Ok(Quote(parts[i].key) + ":" + text))
  }

  function ObjectOf(parts: seq<Part>): Result<string> {
    match Collect(Named(parts))
    case Err(c) => Err(c)
    case Ok(texts) => Ok("{" + JoinComma(texts) + "}")
  }

  /** The emitted bytes. */
  function CanonicalBytes(v: Value, ascii: bool): Result<seq<Byte>> {
    match Canon(v, 1, ascii)
    case Err(c) => Err(c)
    case Ok(text) => Ok(Utf8(text))
  }

  // --- The text of a meaning -----------------------------------------------------------

  ghost predicate SortedKeys(keys: seq<string>) {
    forall i, j | 0 <= i < j < |keys| :: KeyLess(keys[i], keys[j])
  }

  /** The keys of an object in canonical order. */
  ghost function KeysOf(s: set<string>): (r: seq<string>)
    ensures SortedKeys(r)
    ensures forall k :: k in r <==> k in s
    decreases |s|
  {
    if s == {} then []
    else
      LeastKey(s);
      var k :| Least(k, s);
      assert |s - {k}| < |s|;
      var rest := KeysOf(s - {k});
      assert forall j | 0 <= j < |rest| :: rest[j] in s - {k};
      [k] + rest
  }

  ghost predicate Least(k: string, s: set<string>) { k in s && forall j | j in s && j != k :: KeyLess(k, j) }

  lemma {:induction false} LeastKey(s: set<string>)
    requires s != {}
    ensures exists k :: Least(k, s)
    decreases |s|
  {
    hide Least;
    var k :| k in s;
    var rest := s - {k};
    if rest == {} {
      LeastAlone(k, s);
    } else {
      assert |rest| < |s|;
      LeastKey(rest);
      var m :| Least(m, rest);
      LeastGrows(k, m, s);
      KeyTotal(k, m);
    }
  }

  lemma LeastAlone(k: string, s: set<string>)
    requires k in s && s - {k} == {}
    ensures Least(k, s)
  {
    forall j | j in s ensures j == k { assert j !in s - {k}; }
  }

  lemma LeastGrows(k: string, m: string, s: set<string>)
    requires k in s && Least(m, s - {k})
    ensures m != k
    ensures KeyLess(k, m) ==> Least(k, s)
    ensures KeyLess(m, k) ==> Least(m, s)
  {
    hide KeyLess;
    var rest := s - {k};
    if KeyLess(k, m) {
      forall j | j in s && j != k ensures KeyLess(k, j) {
        assert j in rest;
        if j != m { KeyTransitive(k, m, j); }
      }
    }
    forall j | j in s && j != m ensures j == k || KeyLess(m, j) { assert j != k ==> j in rest; }
  }

  /** A sorted key sequence is determined by its keys. */
  lemma {:induction false} SortedKeysUnique(a: seq<string>, b: seq<string>)
    requires SortedKeys(a) && SortedKeys(b)
    requires forall k :: k in a <==> k in b
    ensures a == b
  {
    assert a == [] <==> b == [] by {
      assert a != [] ==> a[0] in b;
      assert b != [] ==> b[0] in a;
    }
    if a != [] {
      assert a[0] in b && b[0] in a;
      KeyTotal(a[0], b[0]);
      assert a[0] == b[0];
      forall k ensures k in a[1..] <==> k in b[1..] {
        KeyTotal(k, k);
        assert k in a <==> k == a[0] || k in a[1..];
        assert k in b <==> k == b[0] || k in b[1..];
        assert k in a[1..] ==> KeyLess(a[0], k);
        assert k in b[1..] ==> KeyLess(b[0], k);
      }
      SortedKeysUnique(a[1..], b[1..]);
    }
  }

  ghost function TreeText(t: Tree): string
    decreases t, 1, 0
  {
    match t
    case TNull => "null"
    case TBool(b) => if b then "true" else "false"
    case TInt(n) => IntText(n)
    case TLexeme(text) => text
    case TStr(s) => Quote(s)
    case TArray(items) => "[" + ItemsText(items) + "]"
    case TObject(fields) => "{" + FieldsText(t, KeysOf(fields.Keys)) + "}"
    case TOther => ""
  }

  ghost function ItemsText(items: seq<Tree>): string {
    if items == [] then ""
    else if |items| == 1 then TreeText(items[0])
    else TreeText(items[0]) + "," + ItemsText(items[1..])
  }

  ghost function FieldsText(t: Tree, keys: seq<string>): string
    requires t.TObject? && forall k | k in keys :: k in t.fields
    decreases t, 0, |keys|
  {
    if keys == [] then ""
    else
      var first := Quote(keys[0]) + ":" + TreeText(t.fields[keys[0]]);
      if |keys| == 1 then first else first + "," + FieldsText(t, keys[1..])
  }

  /** Which meanings the encoder accepts, whatever order their members were inserted in. */
  ghost predicate Encodable(t: Tree, depth: nat, ascii: bool) {
    match t
    case TNull => true
    case TBool(_) => true
    case TInt(n) => -MAX_SAFE_INTEGER <= n <= MAX_SAFE_INTEGER
    case TStr(s) => CheckString(s, ascii, MAX_STRING_BYTES).Ok?
    case TArray(items) =>
      depth <= MAX_DEPTH && |items| <= MAX_ARRAY_ITEMS
      && forall i | 0 <= i < |items| :: Encodable(items[i], depth + 1, ascii)
    case TObject(fields) =>
      depth <= MAX_DEPTH
      && forall k | k in fields :: CheckString(k, ascii, MAX_STRING_BYTES).Ok? && Encodable(fields[k], depth + 1, ascii)
    case TLexeme(_) => false
    case TOther => false
  }

  /** Collecting succeeds when every encoding does, and then keeps them all. */
  lemma {:induction false} CollectAll(texts: seq<Result<string>>)
    ensures Collect(texts).Ok? <==> forall i | 0 <= i < |texts| :: texts[i].Ok?
    ensures Collect(texts).Ok? ==> |Collect(texts).value| == |texts|
    ensures Collect(texts).Ok? ==> forall i | 0 <= i < |texts| :: Collect(texts).value[i] == texts[i].value
  {
    if texts != [] {
      CollectAll(texts[1..]);
      assert forall i | 0 < i < |texts| :: texts[i] == texts[1..][i - 1];
    }
  }

  /** The encoder accepts exactly the encodable meanings and emits their text. */
  ghost predicate Emits(v: Value, depth: nat, ascii: bool) {
    var r, t := Canon(v, depth, ascii), Meaning(v);
    (r.Ok? <==> Encodable(t, depth, ascii)) && (r.Ok? ==> r.value == TreeText(t))
  }

  lemma {:induction false} CanonEmits(v: Value, depth: nat, ascii: bool)
    requires WellFormed(v)
    ensures Emits(v, depth, ascii)
  {
    match v
    case List(items) =>
      forall i | 0 <= i < |items| ensures Emits(items[i], depth + 1, ascii) { CanonEmits(items[i], depth + 1, ascii); }
      EmitsArray(v, depth, ascii);
    case Tuple(items) =>
      forall i | 0 <= i < |items| ensures Emits(items[i], depth + 1, ascii) { CanonEmits(items[i], depth + 1, ascii); }
      EmitsArray(v, depth, ascii);
    case Dict(members) =>
      forall i | 0 <= i < |members| ensures Emits(members[i].value, depth + 1, ascii) {
        CanonEmits(members[i].value, depth + 1, ascii);
      }
      EmitsDict(members, depth, ascii);
    case _ =>
  }

  lemma {:induction false} JoinItems(texts: seq<string>, items: seq<Tree>)
    requires |texts| == |items| && forall i | 0 <= i < |items| :: texts[i] == TreeText(items[i])
    ensures JoinComma(texts) == ItemsText(items)
  {
    if |items| > 1 {
      hide TreeText;
      JoinItems(texts[1..], items[1..]);
    }
  }

  lemma EmitsArray(v: Value, depth: nat, ascii: bool)
    requires v.List? || v.Tuple?
    requires forall i | 0 <= i < |v.items| :: Emits(v.items[i], depth + 1, ascii)
    ensures Emits(v, depth, ascii)
  {
    var t := Meaning(v);
    var texts := CanonItems(v.items, depth + 1, ascii);
    CollectAll(texts);
    assert t == TArray(MeaningItems(v.items));
    EncodableArray(t.items, depth, ascii);
    assert forall i | 0 <= i < |v.items| :: texts[i].Ok? <==> Encodable(t.items[i], depth + 1, ascii);
    if Canon(v, depth, ascii).Ok? {
      JoinItems(Collect(texts).value, t.items);
    }
  }

  lemma EncodableArray(items: seq<Tree>, depth: nat, ascii: bool)
    ensures Encodable(TArray(items), depth, ascii) <==>
            depth <= MAX_DEPTH && |items| <= MAX_ARRAY_ITEMS
            && forall i | 0 <= i < |items| :: Encodable(items[i], depth + 1, ascii)
    ensures TreeText(TArray(items)) == "[" + ItemsText(items) + "]"
  {
  }

  // --- Objects -------------------------------------------------------------------------

  function KeysIn(parts: seq<Part>): (r: seq<string>)
    ensures |r| == |parts|
    ensures forall i | 0 <= i < |parts| :: r[i] == parts[i].key
  {
    seq(|parts|, i requires 0 <= i < |parts| => parts[i].key)
  }

  /** The part stands for its field: same outcome, same text. */
  ghost predicate Stands(p: Part, fields: map<string, Tree>, depth: nat, ascii: bool) {
    p.key in fields
    && (p.text.Ok? <==> Encodable(fields[p.key], depth, ascii))
    && (p.text.Ok? ==> p.text.value == TreeText(fields[p.key]))
  }

  ghost predicate Covers(parts: seq<Part>, fields: map<string, Tree>) {
    forall k | k in fields :: exists p :: p in parts && p.key == k
  }

  lemma {:induction false} JoinFields(texts: seq<string>, t: Tree, keys: seq<string>)
    requires t.TObject? && |texts| == |keys| && forall k | k in keys :: k in t.fields
    requires forall i | 0 <= i < |keys| :: texts[i] == Quote(keys[i]) + ":" + TreeText(t.fields[keys[i]])
    ensures JoinComma(texts) == FieldsText(t, keys)
  {
    if |keys| > 1 {
      hide TreeText, Quote;
      JoinFields(texts[1..], t, keys[1..]);
    }
  }

  lemma KeysOfParts(parts: seq<Part>, fields: map<string, Tree>)
    requires Sorted(parts) && (forall p | p in parts :: p.key in fields)
    requires Covers(parts, fields)
    ensures KeysIn(parts) == KeysOf(fields.Keys)
  {
    hide KeysOf;
    var keys := KeysIn(parts);
    forall k ensures k in keys <==> k in fields.Keys {
      if k in keys {
        var i :| 0 <= i < |keys| && keys[i] == k;
        assert parts[i] in parts;
      }
      if k in fields.Keys {
        var p :| p in parts && p.key == k;
        var i :| 0 <= i < |parts| && parts[i] == p;
        assert keys[i] == k;
      }
    }
    SortedKeysUnique(keys, KeysOf(fields.Keys));
  }

  /** Sorted parts that stand for the fields of an object encode that object. */
  lemma EmitsFields(parts: seq<Part>, fields: map<string, Tree>, depth: nat, ascii: bool)
    requires Sorted(parts) && (forall p | p in parts :: Stands(p, fields, depth, ascii))
    requires Covers(parts, fields)
    ensures ObjectOf(parts).Ok? <==> forall k | k in fields :: Encodable(fields[k], depth, ascii)
    ensures ObjectOf(parts).Ok? ==> ObjectOf(parts).value == TreeText(TObject(fields))
  {
    hide Encodable, KeysOf, Sorted, Collect, JoinComma, FieldsText, Quote;
    var t := TObject(fields);
    KeysOfParts(parts, fields);
    CollectAll(Named(parts));
    assert forall i | 0 <= i < |parts| :: parts[i] in parts;
    assert forall i | 0 <= i < |parts| :: Named(parts)[i].Ok? <==> Encodable(fields[parts[i].key], depth, ascii);
    forall k | k in fields && ObjectOf(parts).Ok? ensures Encodable(fields[k], depth, ascii) {
      var p :| p in parts && p.key == k;
    }
    if ObjectOf(parts).Ok? {
      JoinFields(Collect(Named(parts)).value, t, KeysIn(parts));
      ObjectText(fields);
    }
  }

  lemma ObjectText(fields: map<string, Tree>)
    ensures TreeText(TObject(fields)) == "{" + FieldsText(TObject(fields), KeysOf(fields.Keys)) + "}"
  {
    hide FieldsText, KeysOf;
  }

  lemma FieldsOfParts(members: seq<Member>, depth: nat, ascii: bool)
    requires DistinctKeys(members)
    requires forall i | 0 <= i < |members| :: Emits(members[i].value, depth, ascii)
    ensures var parts, fields := Sort(CanonMembers(members, depth, ascii)), MeaningMembers(members);
            && Sorted(parts) && (forall p | p in parts :: Stands(p, fields, depth, ascii))
            && Covers(parts, fields)
  {
    hide Canon, Meaning, MeaningMembers, Sort, Encodable, TreeText;
    var parts, fields := CanonMembers(members, depth, ascii), MeaningMembers(members);
    SortSorted(parts);
    forall p | p in parts ensures Stands(p, fields, depth, ascii) {
      var i :| 0 <= i < |parts| && parts[i] == p;
      MeaningOfKey(members, i);
      assert Emits(members[i].value, depth, ascii);
    }
    forall k | k in fields ensures exists p :: p in Sort(parts) && p.key == k {
      MeaningKeys(members, k);
      var m :| m in members && m.key == k;
      var i :| 0 <= i < |members| && members[i] == m;
      assert parts[i] in parts && parts[i].key == k;
    }
  }

  lemma EmitsParts(members: seq<Member>, depth: nat, ascii: bool)
    requires DistinctKeys(members)
    requires forall i | 0 <= i < |members| :: Emits(members[i].value, depth, ascii)
    ensures var o, fields := ObjectOf(Sort(CanonMembers(members, depth, ascii))), MeaningMembers(members);
            && (o.Ok? <==> forall k | k in fields :: Encodable(fields[k], depth, ascii))
            && (o.Ok? ==> o.value == TreeText(TObject(fields)))
  {
    hide *;
    FieldsOfParts(members, depth, ascii);
    EmitsFields(Sort(CanonMembers(members, depth, ascii)), MeaningMembers(members), depth, ascii);
  }

  lemma EmitsDict(members: seq<Member>, depth: nat, ascii: bool)
    requires DistinctKeys(members)
    requires forall i | 0 <= i < |members| :: Emits(members[i].value, depth + 1, ascii)
    ensures Emits(Dict(members), depth, ascii)
  {
    hide *;
    var fields := MeaningMembers(members);
    MeaningDict(members);
    EmitsParts(members, depth + 1, ascii);
    EncodableObject(fields, depth, ascii);
    DictUnfold(members, depth, ascii);
    KeysChecked(members, ascii);
    EmitsWhen(Dict(members), depth, ascii);
  }

  lemma MeaningDict(members: seq<Member>)
    ensures Meaning(Dict(members)) == TObject(MeaningMembers(members))
  {
    hide MeaningMembers;
  }

  lemma EmitsWhen(v: Value, depth: nat, ascii: bool)
    requires Canon(v, depth, ascii).Ok? <==> Encodable(Meaning(v), depth, ascii)
    requires Canon(v, depth, ascii).Ok? ==> Canon(v, depth, ascii).value == TreeText(Meaning(v))
    ensures Emits(v, depth, ascii)
  {
    hide Canon, Meaning, Encodable, TreeText;
  }

  lemma DictUnfold(members: seq<Member>, depth: nat, ascii: bool)
    ensures var r, o := Canon(Dict(members), depth, ascii), ObjectOf(Sort(CanonMembers(members, depth + 1, ascii)));
            && (r.Ok? <==> depth <= MAX_DEPTH && CheckKeys(members, ascii, MAX_STRING_BYTES).Ok? && o.Ok?)
            && (r.Ok? ==> r == o)
  {
    hide CheckKeys, ObjectOf, Sort, CanonMembers;
  }

  lemma KeysChecked(members: seq<Member>, ascii: bool)
    ensures CheckKeys(members, ascii, MAX_STRING_BYTES).Ok? <==>
            forall k | k in MeaningMembers(members) :: CheckString(k, ascii, MAX_STRING_BYTES).Ok?
  {
    hide CheckString, CheckKeys, MeaningMembers;
    CheckKeysAll(members, ascii, MAX_STRING_BYTES);
    forall k ensures k in MeaningMembers(members) <==> exists m :: m in members && m.key == k {
      MeaningKeys(members, k);
    }
    forall m | m in members ensures m.key in MeaningMembers(members) {
      MeaningKeys(members, m.key);
    }
  }

  lemma EncodableObject(fields: map<string, Tree>, depth: nat, ascii: bool)
    ensures Encodable(TObject(fields), depth, ascii) <==>
            depth <= MAX_DEPTH
            && (forall k | k in fields :: CheckString(k, ascii, MAX_STRING_BYTES).Ok?)
            && (forall k | k in fields :: Encodable(fields[k], depth + 1, ascii))
  {
    hide CheckString;
  }

  /** Insertion order and the list/tuple distinction never change the outcome or the bytes. */
  lemma SameMeaningSameBytes(v: Value, w: Value, ascii: bool)
    requires WellFormed(v) && WellFormed(w) && Meaning(v) == Meaning(w)
    ensures CanonicalBytes(v, ascii).Ok? <==> CanonicalBytes(w, ascii).Ok?
    ensures CanonicalBytes(v, ascii).Ok? ==> CanonicalBytes(v, ascii) == CanonicalBytes(w, ascii)
  {
    hide Canon, Encodable, TreeText, Meaning, WellFormed, Utf8;
    CanonEmits(v, 1, ascii);
    CanonEmits(w, 1, ascii);
  }
}
