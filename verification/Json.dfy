/** JSON values as the strict JSON policy sees them, with its limits and codes. */
module Json {
  import opened Unicode

  const MAX_DEPTH: nat := 16
  const MAX_ARRAY_ITEMS: nat := 256
  const MAX_STRING_BYTES: nat := 16384
  const MAX_SAFE_INTEGER: int := 0x1F_FFFF_FFFF_FFFF

  datatype Code = BadUnicode | StringTooLong | BadNumber | TooDeep | ArrayTooLong | BadType

  datatype Result<+T> = Ok(value: T) | Err(code: Code)

  /** A dictionary lists its members in insertion order. `Other` is any value of an
      unsupported type; `Lexeme` is a non-integer number kept as text. */
  datatype Value =
    | Null
    | Bool(b: bool)
    | Int(n: int)
    | Lexeme(text: string)
    | Str(s: string)
    | List(items: seq<Value>)
    | Tuple(items: seq<Value>)
    | Dict(members: seq<Member>)
    | Other

  datatype Member = Member(key: string, value: Value)

  function CheckString(s: string, ascii: bool, maxBytes: nat): Result<()> {
    if exists k | 0 <= k < |s| :: s[k] == '\0' then Err(BadUnicode)
    else if ascii && exists k | 0 <= k < |s| :: s[k] < ' ' || s[k] > '~' then Err(BadUnicode)
    else if |Utf8(s)| > maxBytes then Err(StringTooLong)
    else Ok(())
  }

  /** The first key, in insertion order, that the string policy rejects. */
  function CheckKeys(members: seq<Member>, ascii: bool, maxBytes: nat): Result<()> {
    if members == [] then Ok(())
    else
      match CheckString(members[0].key, ascii, maxBytes)
      case Err(c) => Err(c)
      case Ok(_) => CheckKeys(members[1..], ascii, maxBytes)
  }

  lemma {:induction false} CheckKeysAll(members: seq<Member>, ascii: bool, maxBytes: nat)
    ensures CheckKeys(members, ascii, maxBytes).Ok? <==>
            forall m | m in members :: CheckString(m.key, ascii, maxBytes).Ok?
  {
    if members != [] {
      hide CheckString;
      CheckKeysAll(members[1..], ascii, maxBytes);
      assert forall m :: m in members <==> m == members[0] || m in members[1..];
    }
  }

  ghost predicate DistinctKeys(members: seq<Member>) {
    forall i, j | 0 <= i < j < |members| :: members[i].key != members[j].key
  }

  /** Every dictionary inside has distinct keys, as a Python dict does. */
  ghost predicate WellFormed(v: Value) {
    match v
    case List(items) => forall i | 0 <= i < |items| :: WellFormed(items[i])
    case Tuple(items) => forall i | 0 <= i < |items| :: WellFormed(items[i])
    case Dict(members) =>
      DistinctKeys(members) && forall i | 0 <= i < |members| :: WellFormed(members[i].value)
    case _ => true
  }

  // --- Meaning -----------------------------------------------------------------

  /** What a value denotes: objects are unordered and lists equal tuples. */
  datatype Tree =
    | TNull
    | TBool(b: bool)
    | TInt(n: int)
    | TLexeme(text: string)
    | TStr(s: string)
    | TArray(items: seq<Tree>)
    | TObject(fields: map<string, Tree>)
    | TOther

  function Meaning(v: Value): Tree {
    match v
    case Null => TNull
    case Bool(b) => TBool(b)
    case Int(n) => TInt(n)
    case Lexeme(text) => TLexeme(text)
    case Str(s) => TStr(s)
    case List(items) => TArray(MeaningItems(items))
    case Tuple(items) => TArray(MeaningItems(items))
    case Dict(members) => TObject(MeaningMembers(members))
    case Other => TOther
  }

  function MeaningItems(items: seq<Value>): (r: seq<Tree>)
    ensures |r| == |items|
    ensures forall i | 0 <= i < |items| :: r[i] == Meaning(items[i])
  {
    if items == [] then [] else [Meaning(items[0])] + MeaningItems(items[1..])
  }

  function MeaningMembers(members: seq<Member>): map<string, Tree> {
    if members == [] then map[]
    else MeaningMembers(members[1..])[members[0].key := Meaning(members[0].value)]
  }

  lemma {:induction false} MeaningKeys(members: seq<Member>, k: string)
    ensures k in MeaningMembers(members) <==> exists m :: m in members && m.key == k
  {
    if members != [] {
      MeaningKeys(members[1..], k);
      assert members[0] in members;
      assert forall m :: m in members <==> m == members[0] || m in members[1..];
    }
  }

  lemma {:induction false} MeaningOfKey(members: seq<Member>, i: nat)
    requires DistinctKeys(members) && i < |members|
    ensures members[i].key in MeaningMembers(members)
    ensures MeaningMembers(members)[members[i].key] == Meaning(members[i].value)
  {
    if i > 0 {
      MeaningOfKey(members[1..], i - 1);
    }
  }
}
