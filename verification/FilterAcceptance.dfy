/** Which filters are accepted: the documented shape of a filter, and the parser that accepts exactly that
    (src/query.rs, docs/documentation.md). */
module FilterAcceptance {
  import opened JsonValues
  import opened Results
  import opened Filters
  import opened FilterMeanings

  /** `n` more levels may open below this one. */
  predicate WellFormed(value: Json, n: int)
    decreases value, 2
  {
    n >= 0 && value.Object? && forall k :: k in value.members ==> WellPart(k, value.members[k], n)
  }

  predicate WellPart(key: string, operand: Json, n: int)
    decreases operand, 3
  {
    if IsBranch(key) then
      operand.Array? && operand.items != [] && forall i :: 0 <= i < |operand.items| ==>
        WellFormed(operand.items[i], n - 1)
    else !IsOperator(key) && WellCond(operand, n)
  }

  /** A literal, or operators alone whose range bounds are all of one kind. */
  predicate WellCond(cond: Json, n: int)
    decreases cond, 2
  {
    n >= 0 && (HoldsOperator(cond) ==>
                 (forall k :: k in cond.members ==> IsOperator(k) && WellOp(k, cond.members[k], n)) && OneKind(cond))
  }

  predicate IsRangeKey(key: string) {
    key == "$gt" || key == "$gte" || key == "$lt" || key == "$lte"
  }

  predicate OneKind(cond: Json)
    requires cond.Object?
  {
    forall j, k :: j in cond.members && k in cond.members && IsRangeKey(j) && IsRangeKey(k)
      ==> KindOf(cond.members[j]) == KindOf(cond.members[k])
  }

  predicate WellOp(op: string, operand: Json, n: int)
    decreases operand, 4
  {
    if op == "$not" then HoldsOperator(operand) && AllKeysOperators(operand) && WellCond(operand, n - 1)
    else if op == "$elemMatch" then WellElem(operand, n - 1)
    else WellFlat(op, operand)
  }

  predicate WellElem(operand: Json, n: int)
    decreases operand, 3
  {
    operand.Object? && if HoldsOperator(operand) then WellCond(operand, n) else WellFormed(operand, n)
  }

  predicate AllKeysOperators(operand: Json)
    requires operand.Object?
  {
    forall k :: k in operand.members ==> IsOperator(k)
  }

  predicate WellFlat(op: string, operand: Json) {
    if op == "$eq" || op == "$ne" then true
    else if op == "$in" || op == "$nin" || op == "$all" then operand.Array?
    else if IsRangeKey(op) then operand.Number? || operand.Text?
    else if op == "$exists" then operand.Bool?
    else if op == "$prefix" || op == "$suffix" || op == "$contains" then operand.Text?
    else if op == "$type" then WellTypes(operand)
    else
      op == "$size" && operand.Number? && operand.numeral.Integer? &&
      0 <= operand.numeral.i < 0x1_0000_0000_0000_0000
  }

  predicate WellTypes(operand: Json) {
    IsTypeName(operand) ||
    (operand.Array? && operand.items != [] && forall i :: 0 <= i < |operand.items| ==> IsTypeName(operand.items[i]))
  }

  predicate IsTypeName(v: Json) {
    v.Text? && (v.s == "null" || v.s == "bool" || v.s == "number" || v.s == "string" || v.s == "array"
      || v.s == "object")
  }

  ghost predicate EachWell(value: Json, keys: seq<string>, n: int)
    requires KeysIn(value, keys)
  {
    forall k :: k in keys ==> WellPart(k, value.members[k], n)
  }

  ghost predicate EachOpWell(cond: Json, keys: seq<string>, n: int)
    requires KeysIn(cond, keys)
  {
    forall k :: k in keys ==> WellOp(k, cond.members[k], n)
  }

  /** A filter is accepted if and only if it is well formed and nests no deeper than the ceiling. */
  lemma {:induction false} AcceptedIff(value: Json, depth: nat)
    ensures ParseExpr(value, depth).Ok? <==> WellFormed(value, MAX_FILTER_DEPTH - depth)
    decreases value, 2
  {
    if depth <= MAX_FILTER_DEPTH && value.Object? {
      hide ParseParts, SortedKeys, WellPart;
      PartsAccepted(value, SortedKeys(value.members.Keys), depth);
    }
  }

  lemma {:induction false} PartsAccepted(value: Json, keys: seq<string>, depth: nat)
    requires KeysIn(value, keys) && depth <= MAX_FILTER_DEPTH
    ensures ParseParts(value, keys, depth).Ok? <==> EachWell(value, keys, MAX_FILTER_DEPTH - depth)
    decreases value, 1, |keys|
  {
    hide ParsePart, WellPart;
    if keys != [] {
      PartAccepted(keys[0], value.members[keys[0]], depth);
      PartsAccepted(value, keys[1..], depth);
      assert keys == [keys[0]] + keys[1..];
    }
  }

  lemma {:induction false} PartAccepted(key: string, operand: Json, depth: nat)
    requires depth <= MAX_FILTER_DEPTH
    ensures ParsePart(key, operand, depth).Ok? <==> WellPart(key, operand, MAX_FILTER_DEPTH - depth)
    decreases operand, 3
  {
    hide ParseCondition, ParseBranches, WellCond, WellFormed;
    if IsBranch(key) {
      BranchAccepted(operand, depth);
    } else if !IsOperator(key) {
      ConditionAccepted(operand, depth);
    }
  }

  lemma {:induction false} BranchAccepted(operand: Json, depth: nat)
    ensures ParseBranches(operand, depth).Ok? <==>
      operand.Array? && operand.items != [] &&
      forall i :: 0 <= i < |operand.items| ==> WellFormed(operand.items[i], MAX_FILTER_DEPTH - depth - 1)
    decreases operand, 2
  {
    hide ParseAll, WellFormed;
    if operand.Array? && operand.items != [] { BranchesAccepted(operand.items, depth + 1); }
  }

  lemma {:induction false} BranchesAccepted(items: seq<Json>, depth: nat)
    ensures ParseAll(items, depth).Ok? <==> forall i :: 0 <= i < |items| ==>
      WellFormed(items[i], MAX_FILTER_DEPTH - depth)
    decreases items
  {
    hide ParseExpr, WellFormed;
    if items != [] {
      AcceptedIff(items[0], depth);
      BranchesAccepted(items[1..], depth);
      assert forall i :: 0 < i < |items| ==> items[i] == items[1..][i - 1];
      assert forall i :: 0 <= i < |items[1..]| ==> items[1..][i] == items[i + 1];
    }
  }

  lemma {:induction false} ConditionAccepted(cond: Json, depth: nat)
    ensures ParseCondition(cond, depth).Ok? <==> WellCond(cond, MAX_FILTER_DEPTH - depth)
    decreases cond, 2
  {
    hide ParseOps, WellOp, RangesAgree, SortedKeys, OneKind;
    if depth <= MAX_FILTER_DEPTH && cond.Object? {
      var keys := SortedKeys(cond.members.Keys);
      OperatorsAmong(cond);
      OperatorsAlone(cond);
      if AllOperators(keys) {
        OpsAccepted(cond, keys, depth);
        if ParseOps(cond, keys, depth).Ok? { BoundsAgree(cond, keys, depth); }
      }
    }
  }

  lemma OperatorsAlone(cond: Json)
    requires cond.Object?
    ensures AllOperators(SortedKeys(cond.members.Keys)) <==> AllKeysOperators(cond)
  {
    hide IsOperator;
    var keys := SortedKeys(cond.members.Keys);
    if AllOperators(keys) {
      forall k | k in cond.members
        ensures IsOperator(k)
      {
        assert k in keys;
      }
    }
    if AllKeysOperators(cond) {
      forall i | 0 <= i < |keys|
        ensures IsOperator(keys[i])
      {
        assert keys[i] in keys;
      }
    }
  }

  lemma {:induction false} OpsAccepted(cond: Json, keys: seq<string>, depth: nat)
    requires KeysIn(cond, keys) && depth <= MAX_FILTER_DEPTH
    ensures ParseOps(cond, keys, depth).Ok? <==> EachOpWell(cond, keys, MAX_FILTER_DEPTH - depth)
    decreases cond, 1, |keys|
  {
    hide ParseOp, WellOp;
    if keys != [] {
      OpAccepted(keys[0], cond.members[keys[0]], depth);
      OpsAccepted(cond, keys[1..], depth);
      assert keys == [keys[0]] + keys[1..];
    }
  }

  lemma {:induction false} OpAccepted(op: string, operand: Json, depth: nat)
    requires depth <= MAX_FILTER_DEPTH
    ensures ParseOp(op, operand, depth).Ok? <==> WellOp(op, operand, MAX_FILTER_DEPTH - depth)
    decreases operand, 4
  {
    hide ParseCondition, ParseElemMatch, ParseFlat, WellCond, WellElem, WellFlat, HoldsOperator, AllKeysOperators,
      IsOperatorObject;
    if op == "$not" {
      OperatorObjects(operand);
      if IsOperatorObject(operand) { ConditionAccepted(operand, depth + 1); }
    } else if op == "$elemMatch" {
      ElemAccepted(operand, depth);
    } else {
      FlatAccepted(op, operand);
    }
  }

  lemma OperatorObjects(operand: Json)
    ensures IsOperatorObject(operand) <==> HoldsOperator(operand) && AllKeysOperators(operand)
  {
    hide IsOperator;
    if operand.Object? {
      OperatorsAlone(operand);
      if operand.members != map[] && AllKeysOperators(operand) {
        assert operand.members.Keys != {};
        var k :| k in operand.members;
        assert IsOperator(k);
      }
    }
  }

  lemma {:induction false} ElemAccepted(operand: Json, depth: nat)
    requires depth <= MAX_FILTER_DEPTH
    ensures ParseElemMatch(operand, depth).Ok? <==> WellElem(operand, MAX_FILTER_DEPTH - depth - 1)
    decreases operand, 3
  {
    hide ParseCondition, ParseExpr, WellCond, WellFormed, HoldsOperator, NoOperators, SortedKeys;
    if operand.Object? {
      OperatorsAmong(operand);
      if NoOperators(SortedKeys(operand.members.Keys)) {
        AcceptedIff(operand, depth + 1);
      } else {
        ConditionAccepted(operand, depth + 1);
      }
    }
  }

  lemma FlatAccepted(op: string, operand: Json)
    requires op != "$not" && op != "$elemMatch"
    ensures ParseFlat(op, operand).Ok? <==> WellFlat(op, operand)
  {
    hide ParseTypes, WellTypes;
    TypesAccepted(operand);
  }

  lemma TypesAccepted(operand: Json)
    ensures ParseTypes(operand).Ok? <==> WellTypes(operand)
  {
    if operand.Array? && forall i :: 0 <= i < |operand.items| ==> operand.items[i].Text? {
      KindsAccepted(operand.items);
    }
  }

  lemma {:induction false} KindsAccepted(items: seq<Json>)
    requires forall i :: 0 <= i < |items| ==> items[i].Text?
    ensures ParseKinds(items).Ok? <==> forall i :: 0 <= i < |items| ==> IsTypeName(items[i])
  {
    if items != [] {
      KindsAccepted(items[1..]);
      assert forall i :: 0 < i < |items| ==> items[i] == items[1..][i - 1];
      assert forall i :: 0 <= i < |items[1..]| ==> items[1..][i] == items[i + 1];
    }
  }

  // ----- range bounds

  /** The parsed range operators carry the operands of the range keys. */
  lemma {:induction false} BoundsAre(cond: Json, keys: seq<string>, depth: nat)
    requires KeysIn(cond, keys) && ParseOps(cond, keys, depth).Ok?
    ensures var ops := ParseOps(cond, keys, depth).value;
      && |ops| == |keys|
      && forall i :: 0 <= i < |keys| ==>
           IsRange(ops[i]) == IsRangeKey(keys[i]) && (IsRange(ops[i]) ==> ops[i].bound == cond.members[keys[i]])
  {
    hide ParseOp, IsRange, IsRangeKey;
    if keys != [] {
      BoundsAre(cond, keys[1..], depth);
      BoundIs(keys[0], cond.members[keys[0]], depth);
      assert forall i :: 0 < i < |keys| ==> keys[i] == keys[1..][i - 1];
    }
  }

  lemma BoundIs(op: string, operand: Json, depth: nat)
    requires ParseOp(op, operand, depth).Ok?
    ensures var r := ParseOp(op, operand, depth).value;
      IsRange(r) == IsRangeKey(op) && (IsRange(r) ==> r.bound == operand)
  {
    hide ParseCondition, ParseElemMatch, ParseFlat;
    if op != "$elemMatch" && op != "$not" { FlatBoundIs(op, operand); }
  }

  lemma FlatBoundIs(op: string, operand: Json)
    requires ParseFlat(op, operand).Ok?
    ensures var r := ParseFlat(op, operand).value;
      IsRange(r) == IsRangeKey(op) && (IsRange(r) ==> r.bound == operand)
  {
    hide ParseTypes;
  }

  lemma BoundsAgree(cond: Json, keys: seq<string>, depth: nat)
    requires cond.Object? && keys == SortedKeys(cond.members.Keys) && ParseOps(cond, keys, depth).Ok?
    ensures RangesAgree(ParseOps(cond, keys, depth).value, None) <==> OneKind(cond)
  {
    hide ParseOps, SortedKeys, KindOf, IsRangeKey, RangesAgree;
    var ops := ParseOps(cond, keys, depth).value;
    BoundsAre(cond, keys, depth);
    AcceptedRangesAgree(ops, None);
    if RangesAgree(ops, None) {
      forall j, k | j in cond.members && k in cond.members && IsRangeKey(j) && IsRangeKey(k)
        ensures KindOf(cond.members[j]) == KindOf(cond.members[k])
      {
        assert j in keys && k in keys;
        var a :| 0 <= a < |keys| && keys[a] == j;
        var b :| 0 <= b < |keys| && keys[b] == k;
        assert KindOf(ops[a].bound) == KindOf(ops[b].bound);
      }
    }
    if OneKind(cond) {
      forall i, j | 0 <= i < |ops| && 0 <= j < |ops| && IsRange(ops[i]) && IsRange(ops[j])
        ensures KindOf(ops[i].bound) == KindOf(ops[j].bound)
      {
        assert keys[i] in keys && keys[j] in keys;
      }
    }
  }
}
