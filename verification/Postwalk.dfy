/** The explicit-stack walk that checks and rebuilds a parsed document. */
module Postwalk {
  import opened Unicode
  import opened Json
  import opened CanonicalJson

  // --- The recursive rebuild ----------------------------------------------------------

  /** Every limit of the policy, checked from the outside in; lists become tuples. */
  function Rebuild(v: Value, depth: nat, ascii: bool, maxBytes: nat): Result<Value> {
    match v
    case Dict(members) =>
      if depth > MAX_DEPTH then Err(TooDeep)
      else
        var keys := CheckKeys(members, ascii, maxBytes);
        if keys.Err? then Err(keys.code)
        else
          var r := RebuildMembers(members, depth + 1, ascii, maxBytes);
          if r.Err? then Err(r.code) else Ok(Dict(r.value))
    case List(items) =>
      if depth > MAX_DEPTH then Err(TooDeep)
      else if |items| > MAX_ARRAY_ITEMS then Err(ArrayTooLong)
      else
        var r := RebuildItems(items, depth + 1, ascii, maxBytes);
        if r.Err? then Err(r.code) else Ok(Tuple(r.value))
    case Str(s) =>
      var r := CheckString(s, ascii, maxBytes);
      if r.Err? then Err(r.code) else Ok(v)
    case Null => Ok(v)
    case Bool(_) => Ok(v)
    case Int(_) => Ok(v)
    case Lexeme(_) => Ok(v)
    case Tuple(_) => Err(BadType)
    case Other => Err(BadType)
  }

  function RebuildItems(items: seq<Value>, depth: nat, ascii: bool, maxBytes: nat): Result<seq<Value>> {
    if items == [] then Ok([])
    else
      var head := Rebuild(items[0], depth, ascii, maxBytes);
      if head.Err? then Err(head.code)
      else
        var tail := RebuildItems(items[1..], depth, ascii, maxBytes);
        if tail.Err? then Err(tail.code) else Ok([head.value] + tail.value)
  }

  function RebuildMembers(members: seq<Member>, depth: nat, ascii: bool, maxBytes: nat): Result<seq<Member>> {
    if members == [] then Ok([])
    else
      var head := Rebuild(members[0].value, depth, ascii, maxBytes);
      if head.Err? then Err(head.code)
      else
        var tail := RebuildMembers(members[1..], depth, ascii, maxBytes);
        if tail.Err? then Err(tail.code) else Ok([Member(members[0].key, head.value)] + tail.value)
  }

  // --- The stack machine ----------------------------------------------------------------

  datatype Work = Visit(v: Value, depth: nat) | MakeDict(keys: seq<string>) | MakeTuple(count: nat)

  datatype Outcome = Done(results: seq<Value>) | Fail(code: Code) | Stuck

  function Zip(keys: seq<string>, values: seq<Value>): seq<Member>
    requires |keys| == |values|
  {
    seq(|keys|, i requires 0 <= i < |keys| => Member(keys[i], values[i]))
  }

  function Keys(members: seq<Member>): seq<string> {
    seq(|members|, i requires 0 <= i < |members| => members[i].key)
  }

  function Values(members: seq<Member>): seq<Value> {
    seq(|members|, i requires 0 <= i < |members| => members[i].value)
  }

  /** What running the whole work stack (its top last) over the results would give, if
      each visit were answered by the recursive rebuild. */
  ghost function Eval(work: seq<Work>, results: seq<Value>, ascii: bool, maxBytes: nat): Outcome
    decreases |work|
  {
    if work == [] then Done(results)
    else
      var rest := work[..|work| - 1];
      match work[|work| - 1]
      case Visit(v, depth) =>
        var r := Rebuild(v, depth, ascii, maxBytes);
        if r.Err? then Fail(r.code) else Eval(rest, results + [r.value], ascii, maxBytes)
      case MakeDict(keys) =>
        if |results| < |keys| then Stuck
        else
          var n := |results| - |keys|;
          Eval(rest, results[..n] + [Dict(Zip(keys, results[n..]))], ascii, maxBytes)
      case MakeTuple(count) =>
        if |results| < count then Stuck
        else
          var n := |results| - count;
          Eval(rest, results[..n] + [Tuple(results[n..])], ascii, maxBytes)
  }

  /** The values pushed so that the first of them is on top. */
  ghost function Visits(values: seq<Value>, depth: nat): seq<Work> {
    if values == [] then [] else Visits(values[1..], depth) + [Visit(values[0], depth)]
  }

  lemma {:induction false} EvalVisits(rest: seq<Work>, values: seq<Value>, depth: nat, results: seq<Value>,
                                      ascii: bool, maxBytes: nat)
    ensures Eval(rest + Visits(values, depth), results, ascii, maxBytes) ==
            var r := RebuildItems(values, depth, ascii, maxBytes);
            if r.Err? then Fail(r.code) else Eval(rest, results + r.value, ascii, maxBytes)
  {
    hide Rebuild;
    var work := rest + Visits(values, depth);
    if values == [] {
      assert work == rest && results + [] == results;
    } else {
      assert work[..|work| - 1] == rest + Visits(values[1..], depth);
      assert work[|work| - 1] == Visit(values[0], depth);
      var head := Rebuild(values[0], depth, ascii, maxBytes);
      if head.Ok? {
        EvalVisits(rest, values[1..], depth, results + [head.value], ascii, maxBytes);
        var tail := RebuildItems(values[1..], depth, ascii, maxBytes);
        if tail.Ok? {
          assert results + [head.value] + tail.value == results + ([head.value] + tail.value);
        }
      }
    }
  }

  lemma {:induction false} ItemsLength(items: seq<Value>, depth: nat, ascii: bool, maxBytes: nat)
    ensures var r := RebuildItems(items, depth, ascii, maxBytes); r.Ok? ==> |r.value| == |items|
  {
    if items != [] { ItemsLength(items[1..], depth, ascii, maxBytes); }
  }

  /** Rebuilding members is rebuilding their values and zipping the keys back on. */
  lemma {:induction false} MembersAsItems(members: seq<Member>, depth: nat, ascii: bool, maxBytes: nat)
    ensures var r, s := RebuildMembers(members, depth, ascii, maxBytes),
        RebuildItems(Values(members), depth, ascii, maxBytes);
            if s.Err? then r == Err(s.code)
            else |s.value| == |members| && r == Ok(Zip(Keys(members), s.value))
  {
    hide Rebuild;
    ItemsLength(Values(members), depth, ascii, maxBytes);
    if members == [] {
      assert Values(members) == [] && Zip(Keys(members), []) == [];
    } else {
      var tail := members[1..];
      MembersAsItems(tail, depth, ascii, maxBytes);
      assert Values(members)[1..] == Values(tail);
      var s := RebuildItems(Values(members), depth, ascii, maxBytes);
      if s.Ok? {
        assert Zip(Keys(members), s.value) == [Member(members[0].key, s.value[0])] + Zip(Keys(tail), s.value[1..]);
      }
    }
  }

  lemma ExpandList(rest: seq<Work>, items: seq<Value>, depth: nat, results: seq<Value>, ascii: bool, maxBytes: nat)
    requires depth <= MAX_DEPTH && |items| <= MAX_ARRAY_ITEMS
    ensures Eval(rest + [Visit(List(items), depth)], results, ascii, maxBytes) ==
            Eval(rest + [MakeTuple(|items|)] + Visits(items, depth + 1), results, ascii, maxBytes)
  {
    var work, made := rest + [Visit(List(items), depth)], rest + [MakeTuple(|items|)];
    assert work[..|work| - 1] == rest && made[..|made| - 1] == rest;
    EvalVisits(made, items, depth + 1, results, ascii, maxBytes);
    ItemsLength(items, depth + 1, ascii, maxBytes);
    hide RebuildItems;
    var r := RebuildItems(items, depth + 1, ascii, maxBytes);
    if r.Ok? {
      assert (results + r.value)[..|results|] == results && (results + r.value)[|results|..] == r.value;
    }
  }

  lemma ExpandDict(rest: seq<Work>, members: seq<Member>, depth: nat, results: seq<Value>, ascii: bool, maxBytes: nat)
    requires depth <= MAX_DEPTH && CheckKeys(members, ascii, maxBytes).Ok?
    ensures Eval(rest + [Visit(Dict(members), depth)], results, ascii, maxBytes) ==
            Eval(rest + [MakeDict(Keys(members))] + Visits(Values(members), depth + 1), results, ascii, maxBytes)
  {
    var work, made := rest + [Visit(Dict(members), depth)], rest + [MakeDict(Keys(members))];
    assert work[..|work| - 1] == rest && made[..|made| - 1] == rest;
    EvalVisits(made, Values(members), depth + 1, results, ascii, maxBytes);
    MembersAsItems(members, depth + 1, ascii, maxBytes);
    hide RebuildItems, RebuildMembers, CheckKeys;
    var r := RebuildItems(Values(members), depth + 1, ascii, maxBytes);
    if r.Ok? {
      assert (results + r.value)[..|results|] == results && (results + r.value)[|results|..] == r.value;
    }
  }

  // --- Termination ------------------------------------------------------------------------

  ghost function Weight(v: Value): nat {
    match v
    case List(items) => 2 + WeightItems(items)
    case Dict(members) => 2 + WeightMembers(members)
    case _ => 1
  }

  ghost function WeightItems(items: seq<Value>): nat {
    if items == [] then 0 else Weight(items[0]) + WeightItems(items[1..])
  }

  ghost function WeightMembers(members: seq<Member>): nat {
    if members == [] then 0 else Weight(members[0].value) + WeightMembers(members[1..])
  }

  lemma {:induction false} WeightValues(members: seq<Member>)
    ensures WeightMembers(members) == WeightItems(Values(members))
  {
    if members != [] {
      WeightValues(members[1..]);
      assert Values(members)[1..] == Values(members[1..]);
    }
  }

  ghost function Load(work: seq<Work>): nat
    decreases |work|
  {
    if work == [] then 0
    else
      var top := work[|work| - 1];
      (if top.Visit? then Weight(top.v) else 1) + Load(work[..|work| - 1])
  }

  lemma {:induction false} LoadVisits(rest: seq<Work>, values: seq<Value>, depth: nat)
    ensures Load(rest + Visits(values, depth)) == Load(rest) + WeightItems(values)
  {
    var work := rest + Visits(values, depth);
    if values == [] {
      assert work == rest;
    } else {
      hide Weight;
      assert work[..|work| - 1] == rest + Visits(values[1..], depth);
      LoadVisits(rest, values[1..], depth);
    }
  }

  // --- The loop ----------------------------------------------------------------------------

  ghost function Expected(root: Value, ascii: bool, maxBytes: nat): Outcome {
    var r := Rebuild(root, 1, ascii, maxBytes);
    if r.Err? then Fail(r.code) else Done([r.value])
  }

  /** Pushes the values in reverse, so that they are visited in order. */
  method PushReversed(work: seq<Work>, values: seq<Value>, depth: nat) returns (pushed: seq<Work>)
    ensures pushed == work + Visits(values, depth)
  {
    pushed := work;
    var i := |values|;
    assert values[i..] == [];
    while i > 0
      invariant 0 <= i <= |values|
      invariant pushed == work + Visits(values[i..], depth)
    {
      i := i - 1;
      assert values[i..][1..] == values[i + 1..];
      pushed := pushed + [Visit(values[i], depth)];
    }
    assert values[0..] == values;
  }

  /** Visiting an object: its keys are checked, then its values are pushed over the rebuilding step. */
  method VisitDict(rest: seq<Work>, members: seq<Member>, depth: nat, results: seq<Value>, ascii: bool, maxBytes: nat)
    returns (failed: Result<()>, work: seq<Work>)
    ensures failed.Err? ==> Rebuild(Dict(members), depth, ascii, maxBytes) == Err(failed.code)
    ensures failed.Ok? ==>
            Eval(work, results, ascii, maxBytes) == Eval(rest + [Visit(Dict(members), depth)], results, ascii, maxBytes)
    ensures failed.Ok? ==> Load(work) < Load(rest + [Visit(Dict(members), depth)])
  {
    hide Eval;
    failed, work := Ok(()), rest;
    ghost var before := rest + [Visit(Dict(members), depth)];
    assert before[..|before| - 1] == rest;
    if depth > MAX_DEPTH { failed := Err(TooDeep); return; }
    failed := CheckKeys(members, ascii, maxBytes);
    if failed.Err? { return; }
    ExpandDict(rest, members, depth, results, ascii, maxBytes);
    work := rest + [MakeDict(Keys(members))];
    assert work[..|work| - 1] == rest;
    LoadVisits(work, Values(members), depth + 1);
    WeightValues(members);
    work := PushReversed(work, Values(members), depth + 1);
  }

  method VisitList(rest: seq<Work>, items: seq<Value>, depth: nat, results: seq<Value>, ascii: bool, maxBytes: nat)
    returns (failed: Result<()>, work: seq<Work>)
    ensures failed.Err? ==> Rebuild(List(items), depth, ascii, maxBytes) == Err(failed.code)
    ensures failed.Ok? ==>
            Eval(work, results, ascii, maxBytes) == Eval(rest + [Visit(List(items), depth)], results, ascii, maxBytes)
    ensures failed.Ok? ==> Load(work) < Load(rest + [Visit(List(items), depth)])
  {
    hide Eval;
    failed, work := Ok(()), rest;
    ghost var before := rest + [Visit(List(items), depth)];
    assert before[..|before| - 1] == rest;
    if depth > MAX_DEPTH { failed := Err(TooDeep); return; }
    if |items| > MAX_ARRAY_ITEMS { failed := Err(ArrayTooLong); return; }
    ExpandList(rest, items, depth, results, ascii, maxBytes);
    work := rest + [MakeTuple(|items|)];
    assert work[..|work| - 1] == rest;
    LoadVisits(work, items, depth + 1);
    work := PushReversed(work, items, depth + 1);
  }

  /** One visit: fails, yields a result, or pushes the container's contents. */
  method VisitValue(rest: seq<Work>, v: Value, depth: nat, results: seq<Value>, ascii: bool, maxBytes: nat)
    returns (failed: Result<()>, work: seq<Work>, out: seq<Value>)
    ensures failed.Err? ==> Rebuild(v, depth, ascii, maxBytes) == Err(failed.code)
    ensures failed.Ok? ==> Eval(work, out, ascii, maxBytes) == Eval(rest + [Visit(v, depth)], results, ascii, maxBytes)
    ensures failed.Ok? ==> Load(work) < Load(rest + [Visit(v, depth)])
  {
    failed, work, out := Ok(()), rest, results;
    ghost var before := rest + [Visit(v, depth)];
    assert before[..|before| - 1] == rest;
    match v {
      case Dict(members) => failed, work := VisitDict(rest, members, depth, results, ascii, maxBytes);
      case List(items) => failed, work := VisitList(rest, items, depth, results, ascii, maxBytes);
      case Str(s) =>
        failed := CheckString(s, ascii, maxBytes);
        out := results + [v];
      case Tuple(_) => failed := Err(BadType);
      case Other => failed := Err(BadType);
      case _ => out := results + [v];
    }
  }

  /** The walk ends with exactly one result, the recursive rebuild of the root, and
      fails exactly when and how the recursion fails. */
  method Walk(root: Value, ascii: bool, maxBytes: nat) returns (r: Result<Value>)
    ensures r == Rebuild(root, 1, ascii, maxBytes)
  {
    var work, results := [Visit(root, 1)], [];
    assert work[..|work| - 1] == [] && results == [];
    assert Eval([Visit(root, 1)], [], ascii, maxBytes) == Expected(root, ascii, maxBytes) by {
      EvalRoot(root, ascii, maxBytes);
    }
    hide Rebuild, Expected;
    while work != []
      invariant Eval(work, results, ascii, maxBytes) == Expected(root, ascii, maxBytes)
      decreases Load(work)
    {
      NeverStuck(root, ascii, maxBytes);
      var top, rest := work[|work| - 1], work[..|work| - 1];
      assert work == rest + [top];
      match top {
        case Visit(v, depth) =>
          var failed, pushed, out := VisitValue(rest, v, depth, results, ascii, maxBytes);
          if failed.Err? {
            ExpectedFail(root, ascii, maxBytes);
            return Err(failed.code);
          }
          work, results := pushed, out;
        case MakeDict(keys) =>
          var n := |results| - |keys|;
          work, results := rest, results[..n] + [Dict(Zip(keys, results[n..]))];
        case MakeTuple(count) =>
          var n := |results| - count;
          work, results := rest, results[..n] + [Tuple(results[n..])];
      }
    }
    ExpectedDone(root, ascii, maxBytes);
    return Ok(results[0]);
  }

  lemma EvalRoot(root: Value, ascii: bool, maxBytes: nat)
    ensures Eval([Visit(root, 1)], [], ascii, maxBytes) == Expected(root, ascii, maxBytes)
  {
    hide Rebuild;
    var work := [Visit(root, 1)];
    assert work[..|work| - 1] == [];
    var r := Rebuild(root, 1, ascii, maxBytes);
    if r.Ok? {
      assert [] + [r.value] == [r.value];
    }
  }

  lemma NeverStuck(root: Value, ascii: bool, maxBytes: nat)
    ensures Expected(root, ascii, maxBytes) != Stuck
  {
    hide Rebuild;
  }

  lemma ExpectedFail(root: Value, ascii: bool, maxBytes: nat)
    ensures Expected(root, ascii, maxBytes).Fail? ==>
      Rebuild(root, 1, ascii,
              maxBytes) == Err(Expected(root, ascii, maxBytes).code)
  {
    hide Rebuild;
  }

  lemma ExpectedDone(root: Value, ascii: bool, maxBytes: nat)
    ensures Expected(root, ascii, maxBytes).Done? ==>
      var rs := Expected(root, ascii, maxBytes).results;
      |rs| == 1 && Rebuild(root, 1, ascii, maxBytes) == Ok(rs[0])
  {
    hide Rebuild;
  }

  // --- What the rebuild accepts --------------------------------------------------------------

  /** Parsed values never hold a tuple or a foreign object. */
  ghost predicate Acceptable(v: Value, depth: nat, ascii: bool, maxBytes: nat) {
    match v
    case Dict(members) =>
      depth <= MAX_DEPTH
      && forall i | 0 <= i < |members| ::
           CheckString(members[i].key, ascii, maxBytes).Ok? && Acceptable(members[i].value, depth + 1, ascii, maxBytes)
    case List(items) =>
      depth <= MAX_DEPTH && |items| <= MAX_ARRAY_ITEMS
      && forall i | 0 <= i < |items| :: Acceptable(items[i], depth + 1, ascii, maxBytes)
    case Str(s) => CheckString(s, ascii, maxBytes).Ok?
    case Tuple(_) => false
    case Other => false
    case _ => true
  }

  /** The rebuild accepts exactly the values within the policy, and what it returns
      means the same as its input. */
  lemma {:induction false} RebuildSound(v: Value, depth: nat, ascii: bool, maxBytes: nat)
    ensures var r := Rebuild(v, depth, ascii, maxBytes);
            (r.Ok? <==> Acceptable(v, depth, ascii, maxBytes)) && (r.Ok? ==> Meaning(r.value) == Meaning(v))
    decreases v, 1
  {
    hide CheckString;
    hide CheckKeys, RebuildMembers, RebuildItems, MeaningMembers, MeaningItems;
    match v
    case Dict(members) =>
      CheckKeysAll(members, ascii, maxBytes);
      MembersSound(members, depth + 1, ascii, maxBytes);
      assert (forall m | m in members :: CheckString(m.key, ascii, maxBytes).Ok?) <==>
             forall i | 0 <= i < |members| :: CheckString(members[i].key, ascii, maxBytes).Ok?;
    case List(items) => ItemsSound(items, depth + 1, ascii, maxBytes);
    case _ =>
  }

  lemma {:induction false} ItemsSound(items: seq<Value>, depth: nat, ascii: bool, maxBytes: nat)
    ensures var r := RebuildItems(items, depth, ascii, maxBytes);
            (r.Ok? <==> forall i | 0 <= i < |items| :: Acceptable(items[i], depth, ascii, maxBytes))
            && (r.Ok? ==> MeaningItems(r.value) == MeaningItems(items))
    decreases items, 0
  {
    if items != [] {
      RebuildSound(items[0], depth, ascii, maxBytes);
      hide Rebuild, Acceptable, Meaning;
      var tail := items[1..];
      ItemsSound(tail, depth, ascii, maxBytes);
      assert forall i | 0 <= i < |tail| :: tail[i] == items[i + 1];
      assert forall i | 0 < i < |items| :: items[i] == tail[i - 1];
      var r := RebuildItems(items, depth, ascii, maxBytes);
      if r.Ok? {
        assert r.value[1..] == RebuildItems(tail, depth, ascii, maxBytes).value;
      }
    }
  }

  lemma {:induction false} MembersSound(members: seq<Member>, depth: nat, ascii: bool, maxBytes: nat)
    ensures var r := RebuildMembers(members, depth, ascii, maxBytes);
            (r.Ok? <==> forall i | 0 <= i < |members| :: Acceptable(members[i].value, depth, ascii, maxBytes))
            && (r.Ok? ==> MeaningMembers(r.value) == MeaningMembers(members))
    decreases members, 0
  {
    if members != [] {
      RebuildSound(members[0].value, depth, ascii, maxBytes);
      hide Rebuild, Acceptable, Meaning;
      var tail := members[1..];
      MembersSound(tail, depth, ascii, maxBytes);
      assert forall i | 0 <= i < |tail| :: tail[i] == members[i + 1];
      assert forall i | 0 < i < |members| :: members[i] == tail[i - 1];
      var r := RebuildMembers(members, depth, ascii, maxBytes);
      if r.Ok? {
        assert r.value[1..] == RebuildMembers(tail, depth, ascii, maxBytes).value;
      }
    }
  }
}
