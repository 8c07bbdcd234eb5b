/** The filter parser as it runs: vectors filled in loops, the first refusal ending the parse (src/query.rs). */
module FilterParsers {
  import opened JsonValues
  import opened Results
  import opened Filters

  /** What remains to parse, after `done`. */
  function Onto<T>(done: seq<T>, rest: Parsed<seq<T>>): Parsed<seq<T>> {
    if rest.Ok? then Ok(done + rest.value) else rest
  }

  lemma OntoNothing<T>(rest: Parsed<seq<T>>, done: seq<T>)
    ensures Onto([], rest) == rest && Onto(done, Ok([])) == Ok(done)
  {
    if rest.Ok? { assert [] + rest.value == rest.value; }
    assert done + [] == done;
  }

  lemma PartsStep(value: Json, keys: seq<string>, i: nat, depth: nat, done: seq<Expr>)
    requires KeysIn(value, keys) && i < |keys|
    ensures var part := ParsePart(keys[i], value.members[keys[i]], depth);
      Onto(done, ParseParts(value, keys[i..], depth)) ==
      if part.Ok? then Onto(done + [part.value], ParseParts(value, keys[i + 1..], depth)) else Err(part.error)
  {
    hide ParsePart;
    assert keys[i..][1..] == keys[i + 1..];
    var rest := ParseParts(value, keys[i + 1..], depth);
    if rest.Ok? && ParsePart(keys[i], value.members[keys[i]], depth).Ok? {
      var part := ParsePart(keys[i], value.members[keys[i]], depth).value;
      assert done + ([part] + rest.value) == done + [part] + rest.value;
    }
  }

  lemma PartsEnds(value: Json, keys: seq<string>, depth: nat, done: seq<Expr>)
    requires KeysIn(value, keys)
    ensures ParseParts(value, keys, depth) == Onto([], ParseParts(value, keys[0..], depth))
    ensures Onto(done, ParseParts(value, keys[|keys|..], depth)) == Ok(done)
  {
    assert keys[0..] == keys;
    OntoNothing(ParseParts(value, keys, depth), done);
  }

  method Parts(value: Json, keys: seq<string>, depth: nat) returns (r: Parsed<seq<Expr>>)
    requires KeysIn(value, keys)
    ensures r == ParseParts(value, keys, depth)
    decreases value, 1
  {
    hide ParsePart, ParseParts, Onto;
    var parts := [];
    PartsEnds(value, keys, depth, parts);
    for i := 0 to |keys|
      invariant ParseParts(value, keys, depth) == Onto(parts, ParseParts(value, keys[i..], depth))
    {
      PartsStep(value, keys, i, depth, parts);
      var part :- Part(keys[i], value.members[keys[i]], depth);
      parts := parts + [part];
    }
    PartsEnds(value, keys, depth, parts);
    r := Ok(parts);
  }

  method Expression(value: Json, depth: nat) returns (r: Parsed<Expr>)
    ensures r == ParseExpr(value, depth)
    decreases value, 2
  {
    hide ParseParts, SortedKeys;
    if depth > MAX_FILTER_DEPTH { return Err(TooDeep); }
    if !value.Object? { return Err(Malformed("filter must be a JSON object")); }
    var parts :- Parts(value, SortedKeys(value.members.Keys), depth);
    r := Ok(All(parts));
  }

  method Part(key: string, operand: Json, depth: nat) returns (r: Parsed<Expr>)
    ensures r == ParsePart(key, operand, depth)
    decreases operand, 3
  {
    hide ParseBranches, ParseCondition;
    if IsBranch(key) {
      var parts :- Branches(operand, depth);
      r := Ok(if key == "$and" then All(parts) else if key == "$or" then Any(parts) else Nor(parts));
    } else if IsOperator(key) {
      r := Err(Malformed("unsupported document operator"));
    } else {
      var cond :- Conditions(operand, depth);
      r := Ok(Field(key, cond));
    }
  }

  lemma AllStep(items: seq<Json>, i: nat, depth: nat, done: seq<Expr>)
    requires i < |items|
    ensures var first := ParseExpr(items[i], depth);
      Onto(done, ParseAll(items[i..], depth)) ==
      if first.Ok? then Onto(done + [first.value], ParseAll(items[i + 1..], depth)) else Err(first.error)
  {
    hide ParseExpr;
    assert items[i..][1..] == items[i + 1..];
    var rest := ParseAll(items[i + 1..], depth);
    if rest.Ok? && ParseExpr(items[i], depth).Ok? {
      var first := ParseExpr(items[i], depth).value;
      assert done + ([first] + rest.value) == done + [first] + rest.value;
    }
  }

  lemma AllEnds(items: seq<Json>, depth: nat, done: seq<Expr>)
    ensures ParseAll(items, depth) == Onto([], ParseAll(items[0..], depth))
    ensures Onto(done, ParseAll(items[|items|..], depth)) == Ok(done)
  {
    assert items[0..] == items;
    OntoNothing(ParseAll(items, depth), done);
  }

  lemma BranchesAreAll(operand: Json, depth: nat)
    ensures ParseBranches(operand, depth) ==
      if !operand.Array? || operand.items == []
      then Err(Malformed("a branch operator requires a non-empty array of filters"))
      else ParseAll(operand.items, depth + 1)
  {
    hide ParseAll;
  }

  method Branches(operand: Json, depth: nat) returns (r: Parsed<seq<Expr>>)
    ensures r == ParseBranches(operand, depth)
    decreases operand, 2
  {
    BranchesAreAll(operand, depth);
    hide ParseExpr, ParseAll, ParseBranches, Onto;
    if !operand.Array? || operand.items == [] {
      return Err(Malformed("a branch operator requires a non-empty array of filters"));
    }
    var items, parts := operand.items, [];
    AllEnds(items, depth + 1, parts);
    for i := 0 to |items|
      invariant ParseAll(items, depth + 1) == Onto(parts, ParseAll(items[i..], depth + 1))
    {
      AllStep(items, i, depth + 1, parts);
      var part :- Expression(items[i], depth + 1);
      parts := parts + [part];
    }
    AllEnds(items, depth + 1, parts);
    r := Ok(parts);
  }

  lemma OpsStep(cond: Json, keys: seq<string>, i: nat, depth: nat, done: seq<Op>)
    requires KeysIn(cond, keys) && i < |keys|
    ensures var op := ParseOp(keys[i], cond.members[keys[i]], depth);
      Onto(done, ParseOps(cond, keys[i..], depth)) ==
      if op.Ok? then Onto(done + [op.value], ParseOps(cond, keys[i + 1..], depth)) else Err(op.error)
  {
    hide ParseOp;
    assert keys[i..][1..] == keys[i + 1..];
    var rest := ParseOps(cond, keys[i + 1..], depth);
    if rest.Ok? && ParseOp(keys[i], cond.members[keys[i]], depth).Ok? {
      var op := ParseOp(keys[i], cond.members[keys[i]], depth).value;
      assert done + ([op] + rest.value) == done + [op] + rest.value;
    }
  }

  lemma OpsEnds(cond: Json, keys: seq<string>, depth: nat, done: seq<Op>)
    requires KeysIn(cond, keys)
    ensures ParseOps(cond, keys, depth) == Onto([], ParseOps(cond, keys[0..], depth))
    ensures Onto(done, ParseOps(cond, keys[|keys|..], depth)) == Ok(done)
  {
    assert keys[0..] == keys;
    OntoNothing(ParseOps(cond, keys, depth), done);
  }

  method Operators(cond: Json, keys: seq<string>, depth: nat) returns (r: Parsed<seq<Op>>)
    requires KeysIn(cond, keys)
    ensures r == ParseOps(cond, keys, depth)
    decreases cond, 1
  {
    hide ParseOp, ParseOps, Onto;
    var parsed := [];
    OpsEnds(cond, keys, depth, parsed);
    for i := 0 to |keys|
      invariant ParseOps(cond, keys, depth) == Onto(parsed, ParseOps(cond, keys[i..], depth))
    {
      OpsStep(cond, keys, i, depth, parsed);
      var op :- Operator(keys[i], cond.members[keys[i]], depth);
      parsed := parsed + [op];
    }
    OpsEnds(cond, keys, depth, parsed);
    r := Ok(parsed);
  }

  method Conditions(cond: Json, depth: nat) returns (r: Parsed<Condition>)
    ensures r == ParseCondition(cond, depth)
    decreases cond, 2
  {
    hide ParseOps, SortedKeys;
    if depth > MAX_FILTER_DEPTH { return Err(TooDeep); }
    if !cond.Object? { return Ok(Condition([Eq(cond)])); }
    var keys := SortedKeys(cond.members.Keys);
    if NoOperators(keys) { return Ok(Condition([Eq(cond)])); }
    if !AllOperators(keys) { return Err(Malformed("a condition mixes operators with literal keys")); }
    var parsed :- Operators(cond, keys, depth);
    var agree := CheckRangeAgreement(parsed);
    r := if agree then Ok(Condition(parsed)) else Err(Malformed("range bounds mix types"));
  }

  method Operator(op: string, operand: Json, depth: nat) returns (r: Parsed<Op>)
    ensures r == ParseOp(op, operand, depth)
    decreases operand, 4
  {
    hide ParseElemMatch, ParseCondition, ParseFlat, IsOperatorObject;
    if op == "$elemMatch" {
      var pred :- ElementTest(operand, depth);
      r := Ok(ElemMatch(pred));
    } else if op == "$not" {
      if !IsOperatorObject(operand) { return Err(Malformed("`$not` requires an operator object")); }
      var inner :- Conditions(operand, depth + 1);
      r := Ok(Not(inner));
    } else {
      r := ParseFlat(op, operand);
    }
  }

  method ElementTest(operand: Json, depth: nat) returns (r: Parsed<ElemPredicate>)
    ensures r == ParseElemMatch(operand, depth)
    decreases operand, 3
  {
    hide ParseExpr, ParseCondition, SortedKeys;
    if !operand.Object? { return Err(Malformed("`$elemMatch` requires an object")); }
    if !NoOperators(SortedKeys(operand.members.Keys)) {
      var cond :- Conditions(operand, depth + 1);
      return Ok(Ops(cond));
    }
    var filter :- Expression(operand, depth + 1);
    r := Ok(Doc(filter));
  }

  /** Every pair of range bounds compares one kind of value. */
  method CheckRangeAgreement(ops: seq<Op>) returns (agree: bool)
    ensures agree == RangesAgree(ops, None)
    ensures agree <==> forall i, j :: 0 <= i < |ops| && 0 <= j < |ops| && IsRange(ops[i]) && IsRange(ops[j])
                         ==> KindOf(ops[i].bound) == KindOf(ops[j].bound)
  {
    AcceptedRangesAgree(ops, None);
    hide KindOf;
    var kind: Option<JsonKind> := None;
    for i := 0 to |ops|
      invariant RangesAgree(ops, None) == RangesAgree(ops[i..], kind)
    {
      assert ops[i..][1..] == ops[i + 1..];
      if IsRange(ops[i]) {
        var here := KindOf(ops[i].bound);
        if kind.Some? && kind.value != here { return false; }
        kind := Some(here);
      }
    }
    return true;
  }
}
