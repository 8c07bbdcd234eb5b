/** Filter expressions: evaluation, the depth-bounded parser and what an index may rely on (src/query.rs). */
module Filters {
  import opened Orders
  import opened JsonValues
  import opened Results

  const MAX_FILTER_DEPTH: int := 16

  datatype JsonKind = NullKind | BoolKind | NumberKind | StringKind | ArrayKind | ObjectKind

  datatype Op =
    | Eq(want: Json)
    | Ne(want: Json)
    | In(list: seq<Json>)
    | Nin(list: seq<Json>)
    | Gt(bound: Json)
    | Gte(bound: Json)
    | Lt(bound: Json)
    | Lte(bound: Json)
    | Exists(want': bool)
    | Type(kinds: seq<JsonKind>)
    | Prefix(text: string)
    | Suffix(text: string)
    | Contains(text: string)
    | Every(list: seq<Json>)
    | Size(n: nat)
    | ElemMatch(pred: ElemPredicate)
    | Not(inner: Condition)

  datatype ElemPredicate = Ops(cond: Condition) | Doc(filter: Expr)

  datatype Condition = Condition(ops: seq<Op>)

  datatype Expr =
    | All(parts: seq<Expr>)
    | Any(parts: seq<Expr>)
    | Nor(parts: seq<Expr>)
    | Field(path: string, cond: Condition)

  function KindOf(v: Json): JsonKind {
    match v
    case Null => NullKind
    case Bool(_) => BoolKind
    case Number(_, _) => NumberKind
    case Text(_) => StringKind
    case Array(_) => ArrayKind
    case Object(_) => ObjectKind
  }

  // ----- evaluation

  function SameTypeCmp(v: Json, operand: Json): Option<Ordering> {
    if KindOf(v) == KindOf(operand) then Some(JsonCmp(v, operand)) else None
  }

  predicate Matches(cond: Condition, val: Option<Json>)
    decreases cond
  {
    forall i :: 0 <= i < |cond.ops| ==> OpMatches(cond.ops[i], val)
  }

  predicate OpMatches(op: Op, val: Option<Json>)
    decreases op, 1
  {
    match op
    case Exists(want) => val.Some? == want
    case Not(inner) => !Matches(inner, val)
    case _ => val.Some? && PresentOpMatches(op, val.value)
  }

  predicate PresentOpMatches(op: Op, v: Json)
    requires !op.Exists? && !op.Not?
    decreases op, 0
  {
    match op
    case Eq(want) => v == want
    case Ne(want) => v != want
    case In(list) => v in list
    case Nin(list) => v !in list
    case Gt(b) => SameTypeCmp(v, b) == Some(Greater)
    case Gte(b) => SameTypeCmp(v, b) == Some(Greater) || SameTypeCmp(v, b) == Some(Equal)
    case Lt(b) => SameTypeCmp(v, b) == Some(Less)
    case Lte(b) => SameTypeCmp(v, b) == Some(Less) || SameTypeCmp(v, b) == Some(Equal)
    case Type(kinds) => KindOf(v) in kinds
    case Prefix(p) => v.Text? && p <= v.s
    case Suffix(p) => v.Text? && |p| <= |v.s| && v.s[|v.s| - |p|..] == p
    case Contains(p) => v.Text? && exists i :: 0 <= i <= |v.s| && p <= v.s[i..]
    case Every(want) => v.Array? && forall w :: w in want ==> w in v.items
    case Size(n) => v.Array? && |v.items| == n
    case ElemMatch(pred) => v.Array? && exists i :: 0 <= i < |v.items| && ElemMatches(pred, v.items[i])
  }

  predicate ElemMatches(pred: ElemPredicate, e: Json)
    decreases pred
  {
    match pred
    case Ops(cond) => Matches(cond, Some(e))
    case Doc(filter) => Eval(filter, e)
  }

  predicate Eval(expr: Expr, doc: Json)
    decreases expr
  {
    match expr
    case Field(path, cond) => Matches(cond, Lookup(doc, Split(path, '.')))
    case All(parts) => forall i :: 0 <= i < |parts| ==> Eval(parts[i], doc)
    case Any(parts) => exists i :: 0 <= i < |parts| && Eval(parts[i], doc)
    case Nor(parts) => !exists i :: 0 <= i < |parts| && Eval(parts[i], doc)
  }

  // ----- what an index may rely on

  datatype Conjunct = Conjunct(path: string, cond: Condition)

  function Conjuncts(expr: Expr): seq<Conjunct>
    decreases expr
  {
    match expr
    case Field(path, cond) => [Conjunct(path, cond)]
    case All(parts) => ConjunctsOf(parts)
    case Any(_) => []
    case Nor(_) => []
  }

  function ConjunctsOf(parts: seq<Expr>): seq<Conjunct>
    decreases parts
  {
    if parts == [] then [] else Conjuncts(parts[0]) + ConjunctsOf(parts[1..])
  }

  predicate Holds(c: Conjunct, doc: Json) {
    Matches(c.cond, Lookup(doc, Split(c.path, '.')))
  }

  /** Only conjunctions and conditions. */
  predicate Plain(expr: Expr)
    decreases expr
  {
    expr.Field? || (expr.All? && forall i :: 0 <= i < |expr.parts| ==> Plain(expr.parts[i]))
  }

  /** Every conjunct holds on every match, and where the filter is nothing but conjunctions they decide it. */
  lemma {:induction false} ConjunctsHold(expr: Expr, doc: Json)
    ensures Eval(expr, doc) ==> forall c :: c in Conjuncts(expr) ==> Holds(c, doc)
    ensures Plain(expr) && (forall c :: c in Conjuncts(expr) ==> Holds(c, doc)) ==> Eval(expr, doc)
    decreases expr
  {
    match expr
    case Field(path, cond) => assert Conjunct(path, cond) in Conjuncts(expr);
    case All(parts) => ConjunctsOfHold(parts, doc);
    case _ =>
  }

  lemma {:induction false} ConjunctsOfHold(parts: seq<Expr>, doc: Json)
    ensures (forall i :: 0 <= i < |parts| ==> Eval(parts[i], doc)) ==> forall c :: c in ConjunctsOf(parts) ==>
      Holds(c, doc)
    ensures (forall i :: 0 <= i < |parts| ==> Plain(parts[i]))
      && (forall c :: c in ConjunctsOf(parts) ==> Holds(c, doc))
      ==> forall i :: 0 <= i < |parts| ==> Eval(parts[i], doc)
    decreases parts
  {
    if parts != [] {
      ConjunctsHold(parts[0], doc);
      ConjunctsOfHold(parts[1..], doc);
      assert forall c :: c in Conjuncts(parts[0]) ==> c in ConjunctsOf(parts);
      assert forall c :: c in ConjunctsOf(parts[1..]) ==> c in ConjunctsOf(parts);
      assert forall i :: 0 < i < |parts| ==> parts[i] == parts[1..][i - 1];
    }
  }

  /** What `$and` alone reaches and is no condition: the disjunctions and negated ones. */
  function Others(expr: Expr): seq<Expr>
    decreases expr
  {
    match expr
    case Field(_, _) => []
    case All(parts) => OthersOf(parts)
    case _ => [expr]
  }

  function OthersOf(parts: seq<Expr>): seq<Expr>
    decreases parts
  {
    if parts == [] then [] else Others(parts[0]) + OthersOf(parts[1..])
  }

  /** The conjuncts and the disjunctions beside them decide the filter together. */
  lemma {:induction false} ConjunctsDecide(expr: Expr, doc: Json)
    ensures Eval(expr, doc) <==>
      (forall c :: c in Conjuncts(expr) ==> Holds(c, doc)) && forall o :: o in Others(expr) ==> Eval(o, doc)
    ensures forall o :: o in Others(expr) ==> o.Any? || o.Nor?
    decreases expr
  {
    match expr
    case Field(path, cond) => assert Conjunct(path, cond) in Conjuncts(expr);
    case All(parts) => PartsDecide(parts, doc);
    case _ => assert expr in Others(expr);
  }

  lemma {:induction false} PartsDecide(parts: seq<Expr>, doc: Json)
    ensures (forall i :: 0 <= i < |parts| ==> Eval(parts[i], doc)) <==>
      (forall c :: c in ConjunctsOf(parts) ==> Holds(c, doc)) && forall o :: o in OthersOf(parts) ==> Eval(o, doc)
    ensures forall o :: o in OthersOf(parts) ==> o.Any? || o.Nor?
    decreases parts
  {
    if parts != [] {
      hide Eval, Holds;
      ConjunctsDecide(parts[0], doc);
      PartsDecide(parts[1..], doc);
      assert forall c :: c in ConjunctsOf(parts) <==> c in Conjuncts(parts[0]) || c in ConjunctsOf(parts[1..]);
      assert forall o :: o in OthersOf(parts) <==> o in Others(parts[0]) || o in OthersOf(parts[1..]);
      FirstAndRest(parts, doc);
    }
  }

  lemma FirstAndRest(parts: seq<Expr>, doc: Json)
    requires parts != []
    ensures (forall i :: 0 <= i < |parts| ==> Eval(parts[i], doc)) <==>
      Eval(parts[0], doc) && forall i :: 0 <= i < |parts[1..]| ==> Eval(parts[1..][i], doc)
  {
    hide Eval;
    if Eval(parts[0], doc) && forall i :: 0 <= i < |parts[1..]| ==> Eval(parts[1..][i], doc) {
      forall i | 0 <= i < |parts|
        ensures Eval(parts[i], doc)
      {
        assert i > 0 ==> parts[i] == parts[1..][i - 1];
      }
    }
    if forall i :: 0 <= i < |parts| ==> Eval(parts[i], doc) {
      forall i | 0 <= i < |parts[1..]|
        ensures Eval(parts[1..][i], doc)
      {
        assert parts[1..][i] == parts[i + 1];
      }
    }
  }

  /** A plan that walks only the documents having `c.path` loses no match, unless `c` is made of
      existence tests and negations alone. */
  lemma IndexedPathIsPresent(expr: Expr, doc: Json, c: Conjunct)
    requires Eval(expr, doc) && c in Conjuncts(expr) && Lookup(doc, Split(c.path, '.')).None?
    ensures forall op :: op in c.cond.ops ==> op.Exists? || op.Not?
  {
    ConjunctsHold(expr, doc);
    assert Holds(c, doc);
    forall op | op in c.cond.ops
      ensures op.Exists? || op.Not?
    {
      var i :| 0 <= i < |c.cond.ops| && c.cond.ops[i] == op;
      assert OpMatches(c.cond.ops[i], None);
    }
  }

  // ----- parsing

  datatype ParseError = TooDeep | Malformed(why: string)

  type Parsed<+T> = Result<T, ParseError>

  predicate IsOperator(key: string) {
    key != [] && key[0] == '$'
  }

  /** An operator is a key that starts with a dollar sign. */
  lemma OperatorsAre(key: string)
    ensures IsOperator(key) <==> |key| > 0 && key[0] as int == 36
  {
  }

  /** Every key an operator. */
  predicate AllOperators(keys: seq<string>) {
    forall i :: 0 <= i < |keys| ==> IsOperator(keys[i])
  }

  predicate NoOperators(keys: seq<string>) {
    forall i :: 0 <= i < |keys| ==> !IsOperator(keys[i])
  }

  function ParseExpr(value: Json, depth: nat): Parsed<Expr>
    decreases value, 2
  {
    if depth > MAX_FILTER_DEPTH then Err(TooDeep)
    else if !value.Object? then Err(Malformed("filter must be a JSON object"))
    else
      var parts :- ParseParts(value, SortedKeys(value.members.Keys), depth);
      Ok(All(parts))
  }

  function ParseParts(value: Json, keys: seq<string>, depth: nat): Parsed<seq<Expr>>
    requires KeysIn(value, keys)
    decreases value, 1, |keys|
  {
    if keys == [] then Ok([])
    else
      var part :- ParsePart(keys[0], value.members[keys[0]], depth);
      var rest :- ParseParts(value, keys[1..], depth);
      Ok([part] + rest)
  }

  predicate KeysIn(value: Json, keys: seq<string>) {
    value.Object? && forall k :: k in keys ==> k in value.members
  }

  predicate IsBranch(key: string) {
    key == "$and" || key == "$or" || key == "$nor"
  }

  function ParsePart(key: string, operand: Json, depth: nat): Parsed<Expr>
    decreases operand, 3
  {
    if key == "$and" then (var bs :- ParseBranches(operand, depth); Ok(All(bs)))
    else if key == "$or" then (var bs :- ParseBranches(operand, depth); Ok(Any(bs)))
    else if key == "$nor" then (var bs :- ParseBranches(operand, depth); Ok(Nor(bs)))
    else if IsOperator(key) then Err(Malformed("unsupported document operator"))
    else (var cond :- ParseCondition(operand, depth); Ok(Field(key, cond)))
  }

  function ParseBranches(operand: Json, depth: nat): Parsed<seq<Expr>>
    decreases operand, 2
  {
    if operand.Array? && operand.items != [] then ParseAll(operand.items, depth + 1)
    else Err(Malformed("a branch operator requires a non-empty array of filters"))
  }

  function ParseAll(items: seq<Json>, depth: nat): Parsed<seq<Expr>>
    decreases items
  {
    if items == [] then Ok([])
    else
      var first :- ParseExpr(items[0], depth);
      var rest :- ParseAll(items[1..], depth);
      Ok([first] + rest)
  }

  function ParseCondition(cond: Json, depth: nat): Parsed<Condition>
    decreases cond, 2
  {
    if depth > MAX_FILTER_DEPTH then Err(TooDeep)
    else if !cond.Object? then Ok(Condition([Eq(cond)]))
    else
      var keys := SortedKeys(cond.members.Keys);
      if NoOperators(keys) then Ok(Condition([Eq(cond)]))
      else if !AllOperators(keys) then Err(Malformed("a condition mixes operators with literal keys"))
      else
        var ops :- ParseOps(cond, keys, depth);
        if RangesAgree(ops, None) then Ok(Condition(ops)) else Err(Malformed("range bounds mix types"))
  }

  function ParseOps(cond: Json, keys: seq<string>, depth: nat): Parsed<seq<Op>>
    requires KeysIn(cond, keys)
    decreases cond, 1, |keys|
  {
    if keys == [] then Ok([])
    else
      var op :- ParseOp(keys[0], cond.members[keys[0]], depth);
      var rest :- ParseOps(cond, keys[1..], depth);
      Ok([op] + rest)
  }

  function Listed(operand: Json): Parsed<seq<Json>> {
    if operand.Array? then Ok(operand.items) else Err(Malformed("requires an array"))
  }

  function Worded(operand: Json): Parsed<string> {
    if operand.Text? then Ok(operand.s) else Err(Malformed("requires a string"))
  }

  function Bounded(operand: Json): Parsed<Json> {
    if operand.Number? || operand.Text? then Ok(operand) else Err(Malformed("requires a number or a string"))
  }

  function ParseOp(op: string, operand: Json, depth: nat): Parsed<Op>
    decreases operand, 4
  {
    if op == "$elemMatch" then (var pred :- ParseElemMatch(operand, depth); Ok(ElemMatch(pred)))
    else if op == "$not" then
      if IsOperatorObject(operand) then (var c :- ParseCondition(operand, depth + 1); Ok(Not(c)))
      else Err(Malformed("`$not` requires an operator object"))
    else ParseFlat(op, operand)
  }

  predicate IsOperatorObject(operand: Json) {
    operand.Object? && operand.members != map[] && AllOperators(SortedKeys(operand.members.Keys))
  }

  /** The operators that hold no condition of their own. */
  function ParseFlat(op: string, operand: Json): Parsed<Op> {
    if op == "$eq" then Ok(Eq(operand))
    else if op == "$ne" then Ok(Ne(operand))
    else if op == "$in" then (var l :- Listed(operand); Ok(In(l)))
    else if op == "$nin" then (var l :- Listed(operand); Ok(Nin(l)))
    else if op == "$gt" then (var b :- Bounded(operand); Ok(Gt(b)))
    else if op == "$gte" then (var b :- Bounded(operand); Ok(Gte(b)))
    else if op == "$lt" then (var b :- Bounded(operand); Ok(Lt(b)))
    else if op == "$lte" then (var b :- Bounded(operand); Ok(Lte(b)))
    else if op == "$exists" then
      if operand.Bool? then Ok(Exists(operand.b)) else Err(Malformed("`$exists` requires a boolean"))
    else if op == "$type" then (var kinds :- ParseTypes(operand); Ok(Type(kinds)))
    else if op == "$prefix" then (var t :- Worded(operand); Ok(Prefix(t)))
    else if op == "$suffix" then (var t :- Worded(operand); Ok(Suffix(t)))
    else if op == "$contains" then (var t :- Worded(operand); Ok(Contains(t)))
    else if op == "$all" then (var l :- Listed(operand); Ok(Every(l)))
    else if op == "$size" then
      if operand.Number? && operand.numeral.Integer? && 0 <= operand.numeral.i < 0x1_0000_0000_0000_0000
      then Ok(Size(operand.numeral.i)) else Err(Malformed("`$size` requires a non-negative integer"))
    else Err(Malformed("unsupported operator"))
  }

  function ParseElemMatch(operand: Json, depth: nat): Parsed<ElemPredicate>
    decreases operand, 3
  {
    if !operand.Object? then Err(Malformed("`$elemMatch` requires an object"))
    else if !NoOperators(SortedKeys(operand.members.Keys)) then
      (var c :- ParseCondition(operand, depth + 1); Ok(Ops(c)))
    else (var f :- ParseExpr(operand, depth + 1); Ok(Doc(f)))
  }

  function ParseKind(name: string): Parsed<JsonKind> {
    if name == "null" then Ok(NullKind)
    else if name == "bool" then Ok(BoolKind)
    else if name == "number" then Ok(NumberKind)
    else if name == "string" then Ok(StringKind)
    else if name == "array" then Ok(ArrayKind)
    else if name == "object" then Ok(ObjectKind)
    else Err(Malformed("unknown type"))
  }

  function ParseTypes(operand: Json): Parsed<seq<JsonKind>> {
    match operand
    case Text(s) => (var k :- ParseKind(s); Ok([k]))
    case Array(items) =>
      if items == [] then Err(Malformed("`$type` names no type"))
      else if exists i :: 0 <= i < |items| && !items[i].Text? then Err(Malformed("`$type` requires type names"))
      else ParseKinds(items)
    case _ => Err(Malformed("`$type` requires a type name or an array of them"))
  }

  function ParseKinds(items: seq<Json>): Parsed<seq<JsonKind>>
    requires forall i :: 0 <= i < |items| ==> items[i].Text?
  {
    if items == [] then Ok([])
    else
      var k :- ParseKind(items[0].s);
      var rest :- ParseKinds(items[1..]);
      Ok([k] + rest)
  }

  predicate IsRange(op: Op) {
    op.Gt? || op.Gte? || op.Lt? || op.Lte?
  }

  /** All range bounds compare one kind. */
  predicate RangesAgree(ops: seq<Op>, kind: Option<JsonKind>) {
    if ops == [] then true
    else if !IsRange(ops[0]) then RangesAgree(ops[1..], kind)
    else
      var here := KindOf(ops[0].bound);
      (kind.None? || kind.value == here) && RangesAgree(ops[1..], Some(here))
  }

  // ----- how deep a parsed filter nests

  ghost predicate NestsDoc(e: Expr, n: int)
    decreases e, 1
  {
    e.All? && n >= 0 && forall i :: 0 <= i < |e.parts| ==> NestsPart(e.parts[i], n)
  }

  ghost predicate NestsPart(e: Expr, n: int)
    decreases e, 0
  {
    if e.Field? then NestsCond(e.cond, n) else forall i :: 0 <= i < |e.parts| ==> NestsDoc(e.parts[i], n - 1)
  }

  ghost predicate NestsCond(c: Condition, n: int)
    decreases c
  {
    n >= 0 && forall i :: 0 <= i < |c.ops| ==> NestsOp(c.ops[i], n)
  }

  ghost predicate NestsOp(op: Op, n: int)
    decreases op
  {
    match op
    case Not(inner) => NestsCond(inner, n - 1)
    case ElemMatch(pred) => NestsElem(pred, n - 1)
    case _ => true
  }

  ghost predicate NestsElem(pred: ElemPredicate, n: int)
    decreases pred
  {
    match pred
    case Ops(cond) => NestsCond(cond, n)
    case Doc(filter) => NestsDoc(filter, n)
  }

  // ----- how deep a filter document nests, before it is parsed

  ghost predicate SourceDoc(v: Json, n: int)
    decreases v, 2
  {
    n >= 0 && (v.Object? ==> forall k :: k in v.members ==> SourcePart(k, v.members[k], n))
  }

  ghost predicate SourcePart(key: string, operand: Json, n: int)
    decreases operand, 3
  {
    if IsBranch(key) then
      operand.Array? ==> forall i :: 0 <= i < |operand.items| ==> SourceDoc(operand.items[i], n - 1)
    else IsOperator(key) || SourceCond(operand, n)
  }

  ghost predicate SourceCond(cond: Json, n: int)
    decreases cond, 2
  {
    n >= 0 && (cond.Object? && AllOperators(SortedKeys(cond.members.Keys)) ==>
                 forall k :: k in cond.members ==> SourceOp(k, cond.members[k], n))
  }

  ghost predicate SourceOp(op: string, operand: Json, n: int)
    decreases operand, 4
  {
    if op == "$not" then IsOperatorObject(operand) ==> SourceCond(operand, n - 1)
    else if op == "$elemMatch" then SourceElem(operand, n - 1)
    else true
  }

  ghost predicate SourceElem(operand: Json, n: int)
    decreases operand, 3
  {
    operand.Object? ==>
      if NoOperators(SortedKeys(operand.members.Keys)) then SourceDoc(operand, n) else SourceCond(operand, n)
  }

  /** Accepted filters nest no deeper than the ceiling, and a filter refused for its depth does. */
  lemma {:induction false} DepthIsTheCeiling(value: Json, depth: nat)
    ensures var r := ParseExpr(value, depth); var left := MAX_FILTER_DEPTH - depth;
      && (r.Ok? ==> NestsDoc(r.value, left) && SourceDoc(value, left))
      && (r == Err(TooDeep) ==> !SourceDoc(value, left))
    decreases value, 2
  {
    if depth <= MAX_FILTER_DEPTH && value.Object? {
      PartsDepth(value, SortedKeys(value.members.Keys), depth);
    }
  }

  lemma {:induction false} PartsDepth(value: Json, keys: seq<string>, depth: nat)
    requires KeysIn(value, keys) && depth <= MAX_FILTER_DEPTH
    ensures var r := ParseParts(value, keys, depth); var left := MAX_FILTER_DEPTH - depth;
      && (r.Ok? ==> (forall i :: 0 <= i < |r.value| ==> NestsPart(r.value[i], left))
                    && forall k :: k in keys ==> SourcePart(k, value.members[k], left))
      && (r == Err(TooDeep) ==> exists k :: k in keys && !SourcePart(k, value.members[k], left))
    decreases value, 1, |keys|
  {
    if keys != [] {
      PartDepth(keys[0], value.members[keys[0]], depth);
      PartsDepth(value, keys[1..], depth);
    }
  }

  lemma {:induction false} BranchesDepth(operand: Json, depth: nat)
    requires depth <= MAX_FILTER_DEPTH
    ensures var r := ParseBranches(operand, depth); var left := MAX_FILTER_DEPTH - depth;
      && (r.Ok? ==> operand.Array? && (forall i :: 0 <= i < |r.value| ==> NestsDoc(r.value[i], left - 1))
                    && forall i :: 0 <= i < |operand.items| ==> SourceDoc(operand.items[i], left - 1))
      && (r == Err(TooDeep) ==> operand.Array? && exists i ::
        0 <= i < |operand.items| && !SourceDoc(operand.items[i], left - 1))
    decreases operand, 2
  {
    hide ParseAll, ParseExpr, SourceDoc, NestsDoc;
    if operand.Array? && operand.items != [] { AllDepth(operand.items, depth + 1); }
  }

  lemma {:induction false} PartDepth(key: string, operand: Json, depth: nat)
    requires depth <= MAX_FILTER_DEPTH
    ensures var r := ParsePart(key, operand, depth); var left := MAX_FILTER_DEPTH - depth;
      && (r.Ok? ==> NestsPart(r.value, left) && SourcePart(key, operand, left))
      && (r == Err(TooDeep) ==> !SourcePart(key, operand, left))
    decreases operand, 3
  {
    hide ParseBranches, ParseCondition, SourceDoc, NestsDoc, SourceCond, NestsCond;
    if IsBranch(key) {
      BranchesDepth(operand, depth);
    } else if !IsOperator(key) {
      ConditionDepth(operand, depth);
    }
  }

  lemma {:induction false} AllDepth(items: seq<Json>, depth: nat)
    ensures var r := ParseAll(items, depth); var left := MAX_FILTER_DEPTH - depth;
      && (r.Ok? ==> (forall i :: 0 <= i < |r.value| ==> NestsDoc(r.value[i], left))
                    && forall i :: 0 <= i < |items| ==> SourceDoc(items[i], left))
      && (r == Err(TooDeep) ==> exists i :: 0 <= i < |items| && !SourceDoc(items[i], left))
    decreases items
  {
    hide ParseExpr, SourceDoc, NestsDoc;
    if items != [] {
      var left, rest := MAX_FILTER_DEPTH - depth, items[1..];
      DepthIsTheCeiling(items[0], depth);
      AllDepth(rest, depth);
      if i :| 0 <= i < |rest| && !SourceDoc(rest[i], left) {
        assert !SourceDoc(items[i + 1], left);
      }
      assert forall i :: 0 < i < |items| ==> items[i] == rest[i - 1];
    }
  }

  lemma {:induction false} ConditionDepth(cond: Json, depth: nat)
    ensures var r := ParseCondition(cond, depth); var left := MAX_FILTER_DEPTH - depth;
      && (r.Ok? ==> NestsCond(r.value, left) && SourceCond(cond, left))
      && (r == Err(TooDeep) ==> !SourceCond(cond, left))
    decreases cond, 2
  {
    hide ParseOps, ParseOp, RangesAgree, SourceOp;
    if depth <= MAX_FILTER_DEPTH && cond.Object? {
      var keys := SortedKeys(cond.members.Keys);
      if NoOperators(keys) {
        if keys != [] { assert !IsOperator(keys[0]); }
        assert keys == [] ==> cond.members.Keys == {};
      } else if AllOperators(keys) {
        OpsDepth(cond, keys, depth);
      }
    }
  }

  lemma {:induction false} OpsDepth(cond: Json, keys: seq<string>, depth: nat)
    requires KeysIn(cond, keys) && depth <= MAX_FILTER_DEPTH
    ensures var r := ParseOps(cond, keys, depth); var left := MAX_FILTER_DEPTH - depth;
      && (r.Ok? ==> (forall i :: 0 <= i < |r.value| ==> NestsOp(r.value[i], left))
                    && forall k :: k in keys ==> SourceOp(k, cond.members[k], left))
      && (r == Err(TooDeep) ==> exists k :: k in keys && !SourceOp(k, cond.members[k], left))
    decreases cond, 1, |keys|
  {
    if keys != [] {
      OpDepth(keys[0], cond.members[keys[0]], depth);
      OpsDepth(cond, keys[1..], depth);
    }
  }

  lemma {:induction false} OpDepth(op: string, operand: Json, depth: nat)
    requires depth <= MAX_FILTER_DEPTH
    ensures var r := ParseOp(op, operand, depth); var left := MAX_FILTER_DEPTH - depth;
      && (r.Ok? ==> NestsOp(r.value, left) && SourceOp(op, operand, left))
      && (r == Err(TooDeep) ==> !SourceOp(op, operand, left))
    decreases operand, 4
  {
    hide ParseCondition, ParseElemMatch, ParseFlat, SourceElem, SourceCond, NestsCond, NestsElem, IsOperatorObject;
    if op == "$not" {
      if IsOperatorObject(operand) { ConditionDepth(operand, depth + 1); }
    } else if op == "$elemMatch" {
      ElemMatchDepth(operand, depth);
    } else {
      FlatIsShallow(op, operand);
    }
  }

  lemma {:induction false} ElemMatchDepth(operand: Json, depth: nat)
    requires depth <= MAX_FILTER_DEPTH
    ensures var r := ParseElemMatch(operand, depth); var left := MAX_FILTER_DEPTH - depth;
      && (r.Ok? ==> NestsElem(r.value, left - 1) && SourceElem(operand, left - 1))
      && (r == Err(TooDeep) ==> !SourceElem(operand, left - 1))
    decreases operand, 3
  {
    hide ParseCondition, ParseExpr, SourceDoc, NestsDoc, SourceCond, NestsCond, NoOperators, SortedKeys;
    if operand.Object? {
      if NoOperators(SortedKeys(operand.members.Keys)) {
        DepthIsTheCeiling(operand, depth + 1);
      } else {
        ConditionDepth(operand, depth + 1);
      }
    }
  }

  lemma {:induction false} KindsAreNotDeep(items: seq<Json>)
    requires forall i :: 0 <= i < |items| ==> items[i].Text?
    ensures ParseKinds(items) != Err(TooDeep)
  {
    if items != [] { KindsAreNotDeep(items[1..]); }
  }

  lemma TypesAreNotDeep(operand: Json)
    ensures ParseTypes(operand) != Err(TooDeep)
  {
    if operand.Array? && forall i :: 0 <= i < |operand.items| ==> operand.items[i].Text? {
      KindsAreNotDeep(operand.items);
    }
  }

  lemma FlatIsShallow(op: string, operand: Json)
    ensures var r := ParseFlat(op, operand); r != Err(TooDeep) && (r.Ok? ==> !r.value.Not? && !r.value.ElemMatch?)
  {
    hide ParseTypes;
    TypesAreNotDeep(operand);
  }

  /** Every range bound of an accepted condition compares one kind of value. */
  lemma {:induction false} AcceptedRangesAgree(ops: seq<Op>, kind: Option<JsonKind>)
    ensures RangesAgree(ops, kind) <==>
      && (forall i :: 0 <= i < |ops| && IsRange(ops[i]) && kind.Some? ==> KindOf(ops[i].bound) == kind.value)
      && forall i, j :: 0 <= i < |ops| && 0 <= j < |ops| && IsRange(ops[i]) && IsRange(ops[j])
           ==> KindOf(ops[i].bound) == KindOf(ops[j].bound)
  {
    if ops != [] {
      assert forall i :: 0 < i < |ops| ==> ops[i] == ops[1..][i - 1];
      assert forall i :: 0 <= i < |ops[1..]| ==> ops[1..][i] == ops[i + 1];
      AcceptedRangesAgree(ops[1..], if IsRange(ops[0]) then Some(KindOf(ops[0].bound)) else kind);
    }
  }
}
