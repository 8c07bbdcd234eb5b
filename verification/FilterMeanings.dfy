/** What a filter document asks, read straight off its JSON, and the parser that keeps it: a query that is
    answered is the query that was asked (docs/getting_started.md). */
module FilterMeanings {
  import opened Orders
  import opened JsonValues
  import opened Results
  import opened Filters

  /** Everything named in one document is required together. */
  predicate MeansDoc(value: Json, doc: Json)
    decreases value, 2
  {
    value.Object? && forall k :: k in value.members ==> MeansPart(k, value.members[k], doc)
  }

  predicate MeansPart(key: string, operand: Json, doc: Json)
    decreases operand, 3
  {
    if key == "$and" then operand.Array? && forall i :: 0 <= i < |operand.items| ==> MeansDoc(operand.items[i], doc)
    else if key == "$or" then operand.Array? && exists i :: 0 <= i < |operand.items| && MeansDoc(operand.items[i], doc)
    else if key == "$nor" then
      operand.Array? && !exists i :: 0 <= i < |operand.items| && MeansDoc(operand.items[i], doc)
    else MeansCond(operand, Lookup(doc, Split(key, '.')))
  }

  /** A literal asks for exactly that value; an operator object for every operator in it. */
  predicate MeansCond(cond: Json, val: Option<Json>)
    decreases cond, 2
  {
    if HoldsOperator(cond) then forall k :: k in cond.members ==> MeansOp(k, cond.members[k], val)
    else val == Some(cond)
  }

  predicate HoldsOperator(cond: Json)
    ensures HoldsOperator(cond) ==> cond.Object?
  {
    cond.Object? && exists k :: k in cond.members && IsOperator(k)
  }

  /** Only existence and negation can be asked of a path that is not there. */
  predicate MeansOp(op: string, operand: Json, val: Option<Json>)
    decreases operand, 5
  {
    if op == "$exists" then val.Some? == (operand == Bool(true))
    else if op == "$not" then !MeansCond(operand, val)
    else val.Some? && if op == "$elemMatch" then MeansSome(operand, val.value) else MeansFlat(op, operand, val.value)
  }

  predicate MeansSome(operand: Json, v: Json)
    decreases operand, 4
  {
    v.Array? && exists i :: 0 <= i < |v.items| && MeansElem(operand, v.items[i])
  }

  predicate MeansElem(operand: Json, e: Json)
    decreases operand, 3
  {
    if HoldsOperator(operand) then MeansCond(operand, Some(e)) else MeansDoc(operand, e)
  }

  predicate MeansFlat(op: string, operand: Json, v: Json) {
    if op == "$eq" then v == operand
    else if op == "$ne" then v != operand
    else if op == "$in" then operand.Array? && v in operand.items
    else if op == "$nin" then operand.Array? && v !in operand.items
    else if op == "$gt" then KindOf(v) == KindOf(operand) && JsonCmp(v, operand) == Greater
    else if op == "$gte" then KindOf(v) == KindOf(operand) && JsonCmp(v, operand) != Less
    else if op == "$lt" then KindOf(v) == KindOf(operand) && JsonCmp(v, operand) == Less
    else if op == "$lte" then KindOf(v) == KindOf(operand) && JsonCmp(v, operand) != Greater
    else if op == "$type" then
      operand == Text(KindName(v)) || (operand.Array? && Text(KindName(v)) in operand.items)
    else if op == "$prefix" then v.Text? && operand.Text? && operand.s <= v.s
    else if op == "$suffix" then
      v.Text? && operand.Text? && |operand.s| <= |v.s| && v.s[|v.s| - |operand.s|..] == operand.s
    else if op == "$contains" then v.Text? && operand.Text? && exists i :: 0 <= i <= |v.s| && operand.s <= v.s[i..]
    else if op == "$all" then v.Array? && operand.Array? && forall w :: w in operand.items ==> w in v.items
    else if op == "$size" then v.Array? && operand.Number? && operand.numeral == Integer(|v.items|)
    else false
  }

  function KindName(v: Json): string {
    match v
    case Null => "null"
    case Bool(_) => "bool"
    case Number(_, _) => "number"
    case Text(_) => "string"
    case Array(_) => "array"
    case Object(_) => "object"
  }

  ghost predicate EachHolds(parts: seq<Expr>, doc: Json) {
    forall i :: 0 <= i < |parts| ==> Eval(parts[i], doc)
  }

  ghost predicate EachMeans(value: Json, keys: seq<string>, doc: Json)
    requires KeysIn(value, keys)
  {
    forall k :: k in keys ==> MeansPart(k, value.members[k], doc)
  }

  /** An accepted filter matches exactly the documents its text asks for. */
  lemma {:induction false} AcceptedIsAsked(value: Json, depth: nat, doc: Json)
    ensures var r := ParseExpr(value, depth); r.Ok? ==> (Eval(r.value, doc) <==> MeansDoc(value, doc))
    decreases value, 2
  {
    if depth <= MAX_FILTER_DEPTH && value.Object? {
      hide ParseParts, SortedKeys, MeansDoc, Eval, EachHolds, EachMeans;
      var keys := SortedKeys(value.members.Keys);
      PartsMean(value, keys, depth, doc);
      WholeMeans(value, doc);
      if ParseParts(value, keys, depth).Ok? {
        AllHold(ParseParts(value, keys, depth).value, doc);
      }
    }
  }

  lemma WholeMeans(value: Json, doc: Json)
    requires value.Object?
    ensures MeansDoc(value, doc) <==> EachMeans(value, SortedKeys(value.members.Keys), doc)
  {
    hide MeansPart, SortedKeys;
  }

  lemma AllHold(parts: seq<Expr>, doc: Json)
    ensures Eval(All(parts), doc) <==> EachHolds(parts, doc)
  {
    hide Matches;
  }

  lemma {:induction false} PartsMean(value: Json, keys: seq<string>, depth: nat, doc: Json)
    requires KeysIn(value, keys)
    ensures var r := ParseParts(value, keys, depth);
      r.Ok? ==> (EachHolds(r.value, doc) <==> EachMeans(value, keys, doc))
    decreases value, 1, |keys|
  {
    hide ParsePart, MeansPart, Eval;
    if keys != [] {
      PartMeans(keys[0], value.members[keys[0]], depth, doc);
      PartsMean(value, keys[1..], depth, doc);
      var rest := ParseParts(value, keys[1..], depth);
      if ParsePart(keys[0], value.members[keys[0]], depth).Ok? && rest.Ok? {
        var all := ParseParts(value, keys, depth).value;
        assert all == [all[0]] + rest.value && keys == [keys[0]] + keys[1..];
        assert forall i :: 0 <= i < |rest.value| ==> rest.value[i] == all[i + 1];
      }
    }
  }

  lemma {:induction false} PartMeans(key: string, operand: Json, depth: nat, doc: Json)
    ensures var r := ParsePart(key, operand, depth);
      r.Ok? ==> (Eval(r.value, doc) <==> MeansPart(key, operand, doc))
    decreases operand, 3
  {
    hide ParseCondition, ParseBranches, MeansDoc, MeansCond, Matches, Lookup, Split, SortedKeys;
    if IsBranch(key) {
      if ParseBranches(operand, depth).Ok? { BranchMeans(key, operand, depth, doc); }
    } else if !IsOperator(key) {
      CondMeans(operand, depth, Lookup(doc, Split(key, '.')));
    }
  }

  lemma {:induction false} BranchMeans(key: string, operand: Json, depth: nat, doc: Json)
    requires IsBranch(key) && ParseBranches(operand, depth).Ok?
    ensures var parts := ParseBranches(operand, depth).value;
      (if key == "$and" then Eval(All(parts), doc)
       else if key == "$or" then Eval(Any(parts), doc)
       else Eval(Nor(parts), doc))
      <==> MeansPart(key, operand, doc)
    decreases operand, 2
  {
    hide ParseAll, ParseExpr, MeansDoc, MeansCond, Matches, Lookup, Split, SortedKeys;
    BranchesMean(operand.items, depth + 1, doc);
  }

  lemma {:induction false} BranchesMean(items: seq<Json>, depth: nat, doc: Json)
    ensures var r := ParseAll(items, depth);
      r.Ok? ==> |r.value| == |items| && forall i :: 0 <= i < |items| ==>
        (Eval(r.value[i], doc) <==> MeansDoc(items[i], doc))
    decreases items
  {
    hide ParseExpr, MeansDoc, Eval;
    if items != [] {
      AcceptedIsAsked(items[0], depth, doc);
      BranchesMean(items[1..], depth, doc);
    }
  }

  lemma {:induction false} CondMeans(cond: Json, depth: nat, val: Option<Json>)
    ensures var r := ParseCondition(cond, depth); r.Ok? ==> (Matches(r.value, val) <==> MeansCond(cond, val))
    decreases cond, 2
  {
    hide ParseOps, MeansOp, RangesAgree, SortedKeys, OpMatches;
    LiteralMeans(cond, val);
    if depth <= MAX_FILTER_DEPTH && cond.Object? {
      var keys := SortedKeys(cond.members.Keys);
      OperatorsAmong(cond);
      if !NoOperators(keys) && AllOperators(keys) {
        OpsMean(cond, keys, depth, val);
      }
    }
  }

  lemma LiteralMeans(want: Json, val: Option<Json>)
    ensures Matches(Condition([Eq(want)]), val) <==> val == Some(want)
  {
    hide JsonCmp;
    assert PresentOpMatches(Eq(want), want);
    assert OpMatches(Eq(want), val) <==> val.Some? && PresentOpMatches(Eq(want), val.value);
    assert Condition([Eq(want)]).ops[0] == Eq(want);
  }

  lemma OperatorsAmong(cond: Json)
    requires cond.Object?
    ensures HoldsOperator(cond) <==> !NoOperators(SortedKeys(cond.members.Keys))
  {
    var keys := SortedKeys(cond.members.Keys);
    if HoldsOperator(cond) {
      var k :| k in cond.members && IsOperator(k);
      assert k in keys;
    }
    if !NoOperators(keys) {
      var i :| 0 <= i < |keys| && IsOperator(keys[i]);
      assert keys[i] in keys;
    }
  }

  lemma {:induction false} OpsMean(cond: Json, keys: seq<string>, depth: nat, val: Option<Json>)
    requires KeysIn(cond, keys)
    ensures var r := ParseOps(cond, keys, depth);
      r.Ok? ==> ((forall i :: 0 <= i < |r.value| ==> OpMatches(r.value[i], val)) <==>
                 forall k :: k in keys ==> MeansOp(k, cond.members[k], val))
    decreases cond, 1, |keys|
  {
    hide ParseOp, MeansOp, OpMatches;
    if keys != [] {
      OpMeans(keys[0], cond.members[keys[0]], depth, val);
      OpsMean(cond, keys[1..], depth, val);
      var rest := ParseOps(cond, keys[1..], depth);
      if ParseOp(keys[0], cond.members[keys[0]], depth).Ok? && rest.Ok? {
        var all := ParseOps(cond, keys, depth).value;
        assert all == [all[0]] + rest.value && keys == [keys[0]] + keys[1..];
        assert forall i :: 0 < i < |all| ==> all[i] == rest.value[i - 1];
        assert forall i :: 0 <= i < |rest.value| ==> rest.value[i] == all[i + 1];
      }
    }
  }

  lemma {:induction false} OpMeans(op: string, operand: Json, depth: nat, val: Option<Json>)
    ensures var r := ParseOp(op, operand, depth); r.Ok? ==> (OpMatches(r.value, val) <==> MeansOp(op, operand, val))
    decreases operand, 5
  {
    hide ParseCondition, ParseElemMatch, ParseFlat, MeansCond, MeansFlat, MeansSome, IsOperatorObject, Matches,
      PresentOpMatches;
    if op == "$not" {
      if IsOperatorObject(operand) { CondMeans(operand, depth + 1, val); }
    } else if op == "$elemMatch" {
      if val.Some? { SomeMeans(operand, depth, val.value); }
    } else {
      FlatMeans(op, operand, val);
    }
  }

  lemma {:induction false} SomeMeans(operand: Json, depth: nat, v: Json)
    ensures var r := ParseElemMatch(operand, depth);
      r.Ok? ==> (PresentOpMatches(ElemMatch(r.value), v) <==> MeansSome(operand, v))
    decreases operand, 4
  {
    hide ParseElemMatch, ElemMatches, MeansElem;
    var r := ParseElemMatch(operand, depth);
    if r.Ok? && v.Array? {
      forall i | 0 <= i < |v.items|
        ensures ElemMatches(r.value, v.items[i]) <==> MeansElem(operand, v.items[i])
      {
        ElemMeans(operand, depth, v.items[i]);
      }
    }
  }

  lemma {:induction false} ElemMeans(operand: Json, depth: nat, e: Json)
    ensures var r := ParseElemMatch(operand, depth); r.Ok? ==> (ElemMatches(r.value, e) <==> MeansElem(operand, e))
    decreases operand, 3
  {
    hide ParseCondition, ParseExpr, MeansCond, MeansDoc, HoldsOperator, NoOperators, SortedKeys, Eval, Matches;
    if operand.Object? {
      OperatorsAmong(operand);
      if NoOperators(SortedKeys(operand.members.Keys)) {
        AcceptedIsAsked(operand, depth + 1, e);
      } else {
        CondMeans(operand, depth + 1, Some(e));
      }
    }
  }

  predicate Compares(op: string) {
    op == "$gt" || op == "$gte" || op == "$lt" || op == "$lte"
  }

  predicate Shapes(op: string) {
    op == "$type" || op == "$prefix" || op == "$suffix" || op == "$contains" || op == "$all" || op == "$size"
  }

  lemma FlatMeans(op: string, operand: Json, val: Option<Json>)
    requires op != "$not" && op != "$elemMatch"
    ensures var r := ParseFlat(op, operand); r.Ok? ==> (OpMatches(r.value, val) <==> MeansOp(op, operand, val))
  {
    hide ParseFlat, MeansOp, OpMatches;
    if Compares(op) {
      ComparisonMeans(op, operand, val);
    } else if Shapes(op) {
      ShapeMeans(op, operand, val);
    } else {
      EqualityMeans(op, operand, val);
    }
  }

  lemma ComparisonMeans(op: string, operand: Json, val: Option<Json>)
    requires Compares(op)
    ensures var r := ParseFlat(op, operand); r.Ok? ==> (OpMatches(r.value, val) <==> MeansOp(op, operand, val))
  {
    hide JsonCmp, ParseTypes, MeansCond, MeansSome, ElemMatches, Matches;
  }

  lemma EqualityMeans(op: string, operand: Json, val: Option<Json>)
    requires op != "$not" && op != "$elemMatch" && !Compares(op) && !Shapes(op)
    ensures var r := ParseFlat(op, operand); r.Ok? ==> (OpMatches(r.value, val) <==> MeansOp(op, operand, val))
  {
    hide ParseTypes, JsonCmp, ElemMatches, Matches, MeansCond, MeansSome, KindOf, KindName, ParseKind;
  }

  lemma ShapeMeans(op: string, operand: Json, val: Option<Json>)
    requires Shapes(op)
    ensures var r := ParseFlat(op, operand); r.Ok? ==> (OpMatches(r.value, val) <==> MeansOp(op, operand, val))
  {
    hide ParseTypes, JsonCmp, ElemMatches, Matches, MeansCond, MeansSome, KindOf, KindName;
    if op == "$type" { TypesMean(operand, val); }
  }

  lemma TypesMean(operand: Json, val: Option<Json>)
    ensures var r := ParseTypes(operand);
      r.Ok? && val.Some? ==> (KindOf(val.value) in r.value <==> MeansFlat("$type", operand, val.value))
  {
    var r := ParseTypes(operand);
    if r.Ok? && val.Some? && operand.Array? {
      KindsMean(operand.items, val.value);
    }
  }

  lemma {:induction false} KindsMean(items: seq<Json>, v: Json)
    requires forall i :: 0 <= i < |items| ==> items[i].Text?
    ensures var r := ParseKinds(items); r.Ok? ==> (KindOf(v) in r.value <==> Text(KindName(v)) in items)
  {
    if items != [] {
      KindsMean(items[1..], v);
      var r := ParseKinds(items);
      if r.Ok? {
        assert r.value == [ParseKind(items[0].s).value] + ParseKinds(items[1..]).value;
        assert items == [items[0]] + items[1..];
      }
    }
  }

  /** The operators that speak of one another: what a negated one asks is what the other does not, a bound
      with its tie is the opposite bound denied, and a list of one is an equality. */
  lemma OperatorsRelate(operand: Json, v: Json, doc: Json)
    ensures MeansFlat("$ne", operand, v) <==> !MeansFlat("$eq", operand, v)
    ensures MeansFlat("$eq", operand, v) <==> MeansFlat("$in", Array([operand]), v)
    ensures operand.Array? ==> (MeansFlat("$nin", operand, v) <==> !MeansFlat("$in", operand, v))
    ensures MeansFlat("$gte", operand, v) <==> KindName(operand) == KindName(v) && !MeansFlat("$lt", operand, v)
    ensures MeansFlat("$lte", operand, v) <==> KindName(operand) == KindName(v) && !MeansFlat("$gt", operand, v)
  {
    hide JsonCmp;
  }

  lemma BranchesRelate(operand: Json, v: Json, doc: Json)
    ensures operand.Array? ==> (MeansPart("$nor", operand, doc) <==> !MeansPart("$or", operand, doc))
    ensures MeansPart("$and", Array([operand]), doc) <==> MeansDoc(operand, doc)
    ensures MeansPart("$or", Array([operand]), doc) <==> MeansDoc(operand, doc)
    ensures MeansOp("$exists", Bool(false), Some(v)) <==> !MeansOp("$exists", Bool(true), Some(v))
    ensures MeansOp("$exists", Bool(true), Some(v)) && MeansOp("$exists", Bool(false), None)
  {
    hide JsonCmp, MeansDoc, MeansFlat, MeansCond;
    assert [operand][0] == operand;
  }
}
