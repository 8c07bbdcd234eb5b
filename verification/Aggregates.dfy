/** Shard-local aggregation and the router's merge of partials (src/aggregate.rs). */
module Aggregates {
  import opened Orders
  import opened JsonValues
  import opened JsonOrder
  import opened Sorting
  import opened Rows

  const MAX_AGGREGATE_GROUPS: nat := 10_000

  datatype MetricKind = Count | Sum | Avg | Min | Max

  datatype MetricSpec = MetricSpec(name: string, kind: MetricKind, field: Option<string>)

  datatype AggregateSpec = AggregateSpec(group: seq<string>, metrics: seq<MetricSpec>)

  datatype MetricValue = MetricValue(
    count: nat, sum: Option<real>, avg: Option<real>, min: Option<Json>, max: Option<Json>)

  const NOTHING := MetricValue(0, None, None, None, None)

  /** Stands for the canonical text of a group key, which is one-to-one with the key. */
  type GroupKey = Option<Json>

  datatype Bucket = Bucket(count: nat, metrics: seq<MetricValue>)

  datatype Group = Group(count: nat, metrics: map<string, MetricValue>)

  datatype AggregateResult =
    AggregateResult(groups: map<GroupKey, Group>, matched: nat, scanned: nat, partial: bool)

  function OrZero(s: Option<real>): real {
    if s.Some? then s.value else 0.0
  }

  /** The average a metric's totals give, for a metric that keeps one. */
  function Mean(v: MetricValue): Option<real> {
    if v.count > 0 then Some(OrZero(v.sum) / v.count as real) else None
  }

  /** The held value unless the other one wins against it: `Less` keeps a minimum, `Greater` a maximum. */
  function Pick(wins: Ordering, held: Option<Json>, v: Json): Json {
    if held.None? || JsonCmp(v, held.value) == wins then v else held.value
  }

  function Absorb(held: MetricValue, other: MetricValue): MetricValue {
    var merged := MetricValue(
      held.count + other.count,
      if other.sum.Some? then Some(OrZero(held.sum) + other.sum.value) else held.sum,
      held.avg,
      if other.min.Some? then Some(Pick(Less, held.min, other.min.value)) else held.min,
      if other.max.Some? then Some(Pick(Greater, held.max, other.max.value)) else held.max);
    if held.avg.Some? || other.avg.Some? then merged.(avg := Mean(merged)) else merged
  }

  function Accumulate(spec: MetricSpec, held: MetricValue, doc: Json): MetricValue {
    if spec.field.None? then held.(count := held.count + 1)
    else
      match Lookup(doc, Split(spec.field.value, '.'))
      case None => held
      case Some(value) =>
        var seen := held.(count := held.count + 1);
        match spec.kind
        case Sum =>
          if value.Number? then seen.(sum := Some(OrZero(held.sum) + value.approx)) else held
        case Avg =>
          if value.Number? then seen.(sum := Some(OrZero(held.sum) + value.approx), avg := Some(0.0)) else held
        case Min => seen.(min := Some(Pick(Less, held.min, value)))
        case Max => seen.(max := Some(Pick(Greater, held.max, value)))
        case Count => seen
  }

  function Finished(v: MetricValue): MetricValue {
    if v.avg.Some? then v.(avg := Mean(v)) else v
  }

  function GroupMembers(doc: Json, fields: seq<string>): map<string, Json> {
    if fields == [] then map[]
    else
      var last := fields[|fields| - 1];
      var before := GroupMembers(doc, fields[..|fields| - 1]);
      match Lookup(doc, Split(last, '.'))
      case None => before
      case Some(v) => before[last := v]
  }

  function GroupKeyOf(doc: Json, fields: seq<string>): GroupKey {
    if fields == [] then None else Some(Object(GroupMembers(doc, fields)))
  }

  // ----- what an aggregation means, independently of how it is accumulated

  /** One metric over a list of documents, oldest first. */
  function MetricOver(spec: MetricSpec, docs: seq<Json>): MetricValue {
    if docs == [] then NOTHING
    else Accumulate(spec, MetricOver(spec, docs[..|docs| - 1]), docs[|docs| - 1])
  }

  function InGroup(fields: seq<string>, g: GroupKey): Json -> bool {
    (doc: Json) => GroupKeyOf(doc, fields) == g
  }

  function GroupKeys(fields: seq<string>, docs: seq<Json>): set<GroupKey> {
    set d | d in docs :: GroupKeyOf(d, fields)
  }

  ghost function BucketOver(spec: AggregateSpec, docs: seq<Json>): Bucket {
    Bucket(|docs|, seq(|spec.metrics|, i requires 0 <= i < |spec.metrics| => MetricOver(spec.metrics[i], docs)))
  }

  ghost function DocsOf(spec: AggregateSpec, g: GroupKey, docs: seq<Json>): seq<Json> {
    Filter(InGroup(spec.group, g), docs)
  }

  /** One bucket for every key the documents have, over exactly the documents with that key. */
  ghost predicate AreBuckets(spec: AggregateSpec, docs: seq<Json>, buckets: map<GroupKey, Bucket>) {
    && buckets.Keys == GroupKeys(spec.group, docs)
    && forall g :: g in buckets ==> buckets[g] == BucketOver(spec, DocsOf(spec, g, docs))
  }

  /** Finished metrics by label; a repeated label keeps its last metric. */
  ghost function Labelled(specs: seq<MetricSpec>, docs: seq<Json>): map<string, MetricValue> {
    if specs == [] then map[]
    else
      var last := specs[|specs| - 1];
      Labelled(specs[..|specs| - 1], docs)[last.name := Finished(MetricOver(last, docs))]
  }

  ghost function GroupOver(spec: AggregateSpec, docs: seq<Json>): Group {
    Group(|docs|, Labelled(spec.metrics, docs))
  }

  /** The published groups of one aggregation over `docs`: this fixes the whole map. */
  ghost predicate AreGroups(spec: AggregateSpec, docs: seq<Json>, groups: map<GroupKey, Group>) {
    && groups.Keys == GroupKeys(spec.group, docs)
    && forall g :: g in groups ==> groups[g] == GroupOver(spec, DocsOf(spec, g, docs))
  }

  // ----- which documents share a group

  function Under(doc: Json, field: string): Option<Json> {
    Lookup(doc, Split(field, '.'))
  }

  /** Under every group field the two documents have the same value, or both have none. */
  ghost predicate Agree(d: Json, e: Json, fields: seq<string>) {
    forall f :: f in fields ==> Under(d, f) == Under(e, f)
  }

  /** None without group fields; else an object of exactly those the document has, each with its value. */
  ghost predicate IsKeyOf(g: GroupKey, doc: Json, fields: seq<string>) {
    if fields == [] then g.None?
    else
      && g.Some? && g.value.Object?
      && (forall f :: f in g.value.members <==> f in fields && Under(doc, f).Some?)
      && forall f :: f in g.value.members ==> Under(doc, f) == Some(g.value.members[f])
  }

  lemma {:induction false} MembersAre(doc: Json, fields: seq<string>)
    ensures var m := GroupMembers(doc, fields);
      && (forall f :: f in m <==> f in fields && Under(doc, f).Some?)
      && forall f :: f in m ==> Under(doc, f) == Some(m[f])
  {
    hide Lookup, Split;
    if fields != [] {
      var n := |fields| - 1;
      MembersAre(doc, fields[..n]);
      assert fields == fields[..n] + [fields[n]];
    }
  }

  lemma OneKeyIs(doc: Json, fields: seq<string>, g: GroupKey)
    ensures IsKeyOf(g, doc, fields) <==> g == GroupKeyOf(doc, fields)
  {
    hide Under;
    MembersAre(doc, fields);
    if IsKeyOf(g, doc, fields) && fields != [] { assert g.value.members == GroupMembers(doc, fields); }
  }

  /** A document has one key, and documents share it if and only if they agree under every group field,
      absence included. */
  lemma KeysAgreeIff(d: Json, e: Json, fields: seq<string>, g: GroupKey)
    ensures IsKeyOf(g, d, fields) <==> g == GroupKeyOf(d, fields)
    ensures GroupKeyOf(d, fields) == GroupKeyOf(e, fields) <==> Agree(d, e, fields)
  {
    hide Under, IsKeyOf;
    OneKeyIs(d, fields, g);
    MembersAre(d, fields);
    MembersAre(e, fields);
    var m, n := GroupMembers(d, fields), GroupMembers(e, fields);
    if Agree(d, e, fields) { assert m == n; }
    if m == n {
      forall f | f in fields
        ensures Under(d, f) == Under(e, f)
      {
        assert f in m <==> f in n;
      }
    }
  }

  function Agreeing(d: Json, fields: seq<string>): Json -> bool {
    (e: Json) => forall f :: f in fields ==> Under(e, f) == Under(d, f)
  }

  /** What the groups of an aggregation are: one for each way documents can agree, under their key, counting
      and measuring exactly the documents that do. */
  lemma GroupsMean(spec: AggregateSpec, docs: seq<Json>, groups: map<GroupKey, Group>, d: Json)
    requires AreGroups(spec, docs, groups)
    ensures forall g :: g in groups ==> exists e :: e in docs && IsKeyOf(g, e, spec.group)
    ensures d in docs ==>
      var mine := Filter(Agreeing(d, spec.group), docs);
      exists g :: g in groups && IsKeyOf(g, d, spec.group) && groups[g].count == |mine|
        && (forall l :: l in groups[g].metrics <==> Names(spec.metrics, l))
        && forall l :: Names(spec.metrics, l) ==>
             groups[g].metrics[l] == Finished(MetricOver(LastNamed(spec.metrics, l), mine))
  {
    hide Under, MetricOver, Finished, Names, IsKeyOf, GroupMembers, GroupKeyOf, LastNamed, Labelled;
    forall g | g in groups
      ensures exists e :: e in docs && IsKeyOf(g, e, spec.group)
    {
      var e :| e in docs && GroupKeyOf(e, spec.group) == g;
      KeysAgreeIff(e, e, spec.group, g);
    }
    if d in docs {
      var g := GroupKeyOf(d, spec.group);
      var mine := Filter(Agreeing(d, spec.group), docs);
      KeysAgreeIff(d, d, spec.group, g);
      AgreeingShare(spec.group, d, docs);
      LabelsAre(spec.metrics, mine);
      assert g in groups && groups[g] == GroupOver(spec, mine);
    }
  }

  lemma {:induction false} AgreeingShare(fields: seq<string>, d: Json, docs: seq<Json>)
    ensures Filter(Agreeing(d, fields), docs) == Filter(InGroup(fields, GroupKeyOf(d, fields)), docs)
  {
    hide Under, GroupKeyOf;
    if docs != [] {
      AgreeingShare(fields, d, docs[1..]);
      KeysAgreeIff(docs[0], d, fields, None);
    }
  }

  // ----- absorbing one partial metric into another is aggregating the documents behind both

  lemma PickChains(wins: Ordering, held: Option<Json>, y: Json, v: Json)
    requires wins != Equal
    ensures Pick(wins, held, Pick(wins, Some(y), v)) == Pick(wins, Some(Pick(wins, held, y)), v)
  {
    if held.Some? {
      JsonCmpChains(v, y, held.value);
      JsonCmpReverses(y, held.value);
      JsonCmpReverses(v, y);
      JsonCmpReverses(v, held.value);
    }
  }

  /** Folding one more document into the right-hand partial is folding it into the merge. */
  lemma AbsorbThenAccumulate(spec: MetricSpec, x: MetricValue, y: MetricValue, doc: Json)
    requires (x.avg.Some? ==> x.avg == Mean(x)) && (y.avg.Some? ==> y.count > 0)
    ensures Absorb(x, Finished(Accumulate(spec, y, doc))) == Finished(Accumulate(spec, Absorb(x, Finished(y)), doc))
  {
    var found := Value(spec, doc);
    if spec.field.None? || found.None? {
    } else {
      match spec.kind
      case Count =>
      case Sum =>
        var sum := OrZero(y.sum) + (if found.value.Number? then found.value.approx else 0.0);
        assert OrZero(x.sum) + sum == (OrZero(x.sum) + OrZero(y.sum)) + sum - OrZero(y.sum);
      case Avg =>
      case Min => if y.min.Some? { PickChains(Less, x.min, y.min.value, found.value); }
      case Max => if y.max.Some? { PickChains(Greater, x.max, y.max.value, found.value); }
    }
  }

  lemma {:induction false} AverageHasCount(spec: MetricSpec, docs: seq<Json>)
    ensures var v := MetricOver(spec, docs); v.avg.Some? ==> v.count > 0
  {
    if docs != [] { AverageHasCount(spec, docs[..|docs| - 1]); }
  }

  lemma FinishAfterAccumulate(spec: MetricSpec, v: MetricValue, doc: Json)
    requires v.avg.Some? ==> v.count > 0
    ensures Finished(Accumulate(spec, Finished(v), doc)) == Finished(Accumulate(spec, v, doc))
  {
  }

  lemma {:induction false} MetricsMerge(spec: MetricSpec, a: seq<Json>, b: seq<Json>)
    ensures Absorb(Finished(MetricOver(spec, a)), Finished(MetricOver(spec, b))) == Finished(MetricOver(spec, a + b))
    decreases |b|
  {
    AverageHasCount(spec, a);
    AverageHasCount(spec, b);
    if b == [] {
      assert a + b == a;
    } else {
      var before, doc := b[..|b| - 1], b[|b| - 1];
      MetricsMerge(spec, a, before);
      AverageHasCount(spec, before);
      AverageHasCount(spec, a + before);
      AbsorbThenAccumulate(spec, Finished(MetricOver(spec, a)), MetricOver(spec, before), doc);
      assert (a + b)[..|a + b| - 1] == a + before;
      FinishAfterAccumulate(spec, MetricOver(spec, a + before), doc);
    }
  }

  // ----- what a metric reports, in terms of the documents alone

  function Value(spec: MetricSpec, doc: Json): Option<Json> {
    if spec.field.None? then None else Lookup(doc, Split(spec.field.value, '.'))
  }

  function Usable(spec: MetricSpec): Json -> bool {
    (doc: Json) =>
      spec.field.None? ||
      match Value(spec, doc)
      case None => false
      case Some(v) => (spec.kind.Sum? || spec.kind.Avg?) ==> v.Number?
  }

  function Total(spec: MetricSpec, docs: seq<Json>): real {
    if docs == [] then 0.0
    else Total(spec, docs[..|docs| - 1]) +
         match Value(spec, docs[|docs| - 1]) case Some(Number(_, x)) => x case _ => 0.0
  }

  /** `m` is the value of some document, none has one that wins against it, and no earlier one ties it. */
  ghost predicate IsFirstExtreme(spec: MetricSpec, wins: Ordering, docs: seq<Json>, m: Json) {
    exists i :: ExtremeAt(spec, wins, docs, m, i)
  }

  ghost predicate ExtremeAt(spec: MetricSpec, wins: Ordering, docs: seq<Json>, m: Json, i: int) {
    && 0 <= i < |docs| && Value(spec, docs[i]) == Some(m)
    && (forall j :: 0 <= j < |docs| && Value(spec, docs[j]).Some? ==> JsonCmp(Value(spec, docs[j]).value, m) != wins)
    && (forall j :: 0 <= j < i && Value(spec, docs[j]).Some? ==>
      JsonCmp(Value(spec, docs[j]).value, m) == wins.Reverse())
  }

  lemma {:induction false} TotalsAre(spec: MetricSpec, docs: seq<Json>)
    requires spec.field.Some?
    ensures var v, n := MetricOver(spec, docs), |Filter(Usable(spec), docs)|;
      && v.count == n
      && ((spec.kind.Sum? || spec.kind.Avg?) ==> v.sum == if n > 0 then Some(Total(spec, docs)) else None)
      && ((spec.kind.Sum? || spec.kind.Avg?) && n == 0 ==> Total(spec, docs) == 0.0)
      && (v.avg.Some? <==> spec.kind.Avg? && n > 0)
  {
    if docs != [] {
      var before, doc := docs[..|docs| - 1], docs[|docs| - 1];
      TotalsAre(spec, before);
      OneMoreUsable(spec, before, doc);
      hide Filter;
      assert docs == before + [doc];
    }
  }

  lemma OneMoreUsable(spec: MetricSpec, before: seq<Json>, doc: Json)
    ensures |Filter(Usable(spec), before + [doc])| ==
      |Filter(Usable(spec), before)| + if Usable(spec)(doc) then 1 else 0
  {
    FilterAppends(Usable(spec), before, [doc]);
    assert Filter(Usable(spec), [doc]) == if Usable(spec)(doc) then [doc] else [];
  }

  /** A metric can use a document that has its field, for a sum or an average with a number there; and the total
      adds up those numbers. */
  lemma {:induction false} TotalsAdd(spec: MetricSpec, docs: seq<Json>, more: seq<Json>, doc: Json)
    requires spec.field.Some?
    ensures Usable(spec)(doc) <==>
      var found := Lookup(doc, Split(spec.field.value, '.'));
      found.Some? && (spec.kind.Sum? || spec.kind.Avg? ==> found.value.Number?)
    ensures Total(spec, docs + more) == Total(spec, docs) + Total(spec, more)
    ensures Total(spec, [doc]) ==
      match Lookup(doc, Split(spec.field.value, '.')) case Some(Number(_, x)) => x case _ => 0.0
  {
    assert [doc][..0] == [];
    if more == [] {
      assert docs + more == docs;
    } else {
      TotalsAdd(spec, docs, more[..|more| - 1], doc);
      assert (docs + more)[..|docs + more| - 1] == docs + more[..|more| - 1];
    }
  }

  /** Counts count the documents a metric can use, sums add their numbers, and an average is the sum
      over the count. */
  lemma {:induction false} TotalsMean(spec: MetricSpec, docs: seq<Json>)
    requires spec.field.Some?
    ensures var v, n := Finished(MetricOver(spec, docs)), |Filter(Usable(spec), docs)|;
      && v.count == n
      && ((spec.kind.Sum? || spec.kind.Avg?) ==> v.sum == if n > 0 then Some(Total(spec, docs)) else None)
      && v.avg == if spec.kind.Avg? && n > 0 then Some(Total(spec, docs) / n as real) else None
  {
    TotalsAre(spec, docs);
  }

  lemma {:induction false} KeepsItsKind(spec: MetricSpec, docs: seq<Json>)
    ensures var v := MetricOver(spec, docs);
      && (spec.field.None? ==> v == MetricValue(|docs|, None, None, None, None))
      && (v.sum.Some? ==> spec.kind.Sum? || spec.kind.Avg?) && (v.avg.Some? ==> spec.kind.Avg?)
      && (v.min.Some? ==> spec.kind.Min?) && (v.max.Some? ==> spec.kind.Max?)
  {
    if docs != [] {
      hide Lookup, Split;
      KeepsItsKind(spec, docs[..|docs| - 1]);
    }
  }

  /** A metric reports only what its kind asks for, and one without a field counts the documents. */
  lemma OnlyItsKind(spec: MetricSpec, docs: seq<Json>)
    ensures var v := Finished(MetricOver(spec, docs));
      && (spec.field.None? ==> v == MetricValue(|docs|, None, None, None, None))
      && (v.sum.Some? ==> spec.kind.Sum? || spec.kind.Avg?) && (v.avg.Some? ==> spec.kind.Avg?)
      && (v.min.Some? ==> spec.kind.Min?) && (v.max.Some? ==> spec.kind.Max?)
  {
    hide MetricOver;
    KeepsItsKind(spec, docs);
  }

  function Wins(kind: MetricKind): Ordering {
    if kind.Min? then Less else Greater
  }

  function Extreme(kind: MetricKind, v: MetricValue): Option<Json> {
    if kind.Min? then v.min else v.max
  }

  /** A minimum or maximum is the value of the first document none other beats, or absent with no value. */
  lemma {:induction false} ExtremesAre(spec: MetricSpec, docs: seq<Json>)
    requires spec.field.Some? && (spec.kind.Min? || spec.kind.Max?)
    ensures var m := Extreme(spec.kind, MetricOver(spec, docs));
            if m.None? then forall j :: 0 <= j < |docs| ==> Value(spec, docs[j]).None?
            else IsFirstExtreme(spec, Wins(spec.kind), docs, m.value)
  {
    if docs != [] {
      var before, doc := docs[..|docs| - 1], docs[|docs| - 1];
      ExtremesAre(spec, before);
      assert docs == before + [doc];
      var held := Extreme(spec.kind, MetricOver(spec, before));
      if held.Some? || Value(spec, doc).Some? { ExtremeExtends(spec, before, doc, held); }
    }
  }

  lemma ExtremeExtends(spec: MetricSpec, before: seq<Json>, doc: Json, held: Option<Json>)
    requires spec.field.Some?
    requires if held.None? then forall j :: 0 <= j < |before| ==> Value(spec, before[j]).None?
             else IsFirstExtreme(spec, Wins(spec.kind), before, held.value)
    requires held.Some? || Value(spec, doc).Some?
    ensures var m := if Value(spec, doc).Some? then Pick(Wins(spec.kind), held, Value(spec, doc).value) else held.value;
            IsFirstExtreme(spec, Wins(spec.kind), before + [doc], m)
  {
    var here, docs, wins := Value(spec, doc), before + [doc], Wins(spec.kind);
    if here.Some? { JsonCmpReverses(here.value, here.value); }
    if held.None? {
      assert ExtremeAt(spec, wins, docs, here.value, |before|);
    } else {
      var m := held.value;
      var i :| ExtremeAt(spec, wins, before, m, i);
      if here.Some? && JsonCmp(here.value, m) == wins {
        forall j | 0 <= j < |before| && Value(spec, before[j]).Some?
          ensures JsonCmp(Value(spec, before[j]).value, here.value) == wins.Reverse()
        {
          var w := Value(spec, before[j]).value;
          JsonCmpReverses(here.value, m);
          JsonCmpReverses(here.value, w);
          JsonCmpChains(w, m, here.value);
        }
        assert ExtremeAt(spec, wins, docs, here.value, |before|);
      } else {
        assert ExtremeAt(spec, wins, docs, m, i);
      }
    }
  }

  // ----- one shard

  class Aggregator {
    const spec: AggregateSpec
    var buckets: map<GroupKey, Bucket>
    var matched: nat
    /** The documents folded in so far. */
    ghost var docs: seq<Json>

    ghost predicate Valid()
      reads this
    {
      && matched == |docs|
      && AreBuckets(spec, docs, buckets)
      && |GroupKeys(spec.group, docs)| <= MAX_AGGREGATE_GROUPS
    }

    constructor (spec: AggregateSpec)
      ensures Valid() && docs == [] && this.spec == spec
    {
      this.spec := spec;
      buckets, matched, docs := map[], 0, [];
      new;
      assert GroupKeys(spec.group, []) == {};
    }

    /** Refuses exactly when the document would open one group too many. */
    method Add(doc: Json) returns (ok: bool)
      requires Valid()
      modifies this
      ensures ok <==> |GroupKeys(spec.group, old(docs) + [doc])| <= MAX_AGGREGATE_GROUPS
      ensures ok ==> Valid() && docs == old(docs) + [doc]
      ensures !ok ==> buckets == old(buckets)
    {
      hide GroupKeyOf, GroupKeys, Accumulate, AreBuckets;
      matched := matched + 1;
      var key := GroupKeyOf(doc, spec.group);
      RoomFor(spec, docs, buckets, doc);
      if key !in buckets {
        if |buckets| >= MAX_AGGREGATE_GROUPS {
          return false;
        }
        buckets := buckets[key := Unused(|spec.metrics|)];
      }
      var bucket := buckets[key];
      ghost var before := old(buckets);
      var metrics := AccumulateAll(spec.metrics, bucket.metrics, doc);
      BucketsGrow(spec, docs, before, doc, metrics);
      buckets := buckets[key := Bucket(bucket.count + 1, metrics)];
      assert buckets == before[key := Bucket(bucket.count + 1, metrics)];
      docs := docs + [doc];
      return true;
    }

    method Finish(scanned: nat, partial: bool) returns (r: AggregateResult)
      requires Valid()
      ensures AreGroups(spec, docs, r.groups)
      ensures r.matched == |docs| && r.scanned == scanned && r.partial == partial
    {
      hide GroupKeys, GroupOver, BucketOver, DocsOf, Labelled;
      var groups: map<GroupKey, Group> := map[];
      var todo := buckets.Keys;
      while todo != {}
        invariant todo <= buckets.Keys && groups.Keys == buckets.Keys - todo
        invariant forall g :: g in groups ==> groups[g] == GroupOver(spec, DocsOf(spec, g, docs))
        decreases |todo|
      {
        var g :| g in todo;
        var group := FinishGroup(spec, buckets[g], DocsOf(spec, g, docs));
        groups := groups[g := group];
        todo := todo - {g};
      }
      return AggregateResult(groups, matched, scanned, partial);
    }
  }

  function Unused(n: nat): (b: Bucket)
    ensures b.count == 0 && |b.metrics| == n && forall i :: 0 <= i < n ==> b.metrics[i] == NOTHING
  {
    Bucket(0, seq(n, _ => NOTHING))
  }

  /** The bucket a document lands in, opened if its key is new. */
  function Opened(spec: AggregateSpec, buckets: map<GroupKey, Bucket>, key: GroupKey): Bucket {
    if key in buckets then buckets[key] else Unused(|spec.metrics|)
  }

  method AccumulateAll(specs: seq<MetricSpec>, held: seq<MetricValue>, doc: Json) returns (metrics: seq<MetricValue>)
    requires |held| == |specs|
    ensures |metrics| == |specs|
    ensures forall j :: 0 <= j < |metrics| ==> metrics[j] == Accumulate(specs[j], held[j], doc)
  {
    metrics := held;
    for i := 0 to |specs|
      invariant |metrics| == |specs|
      invariant forall j :: 0 <= j < i ==> metrics[j] == Accumulate(specs[j], held[j], doc)
      invariant forall j :: i <= j < |metrics| ==> metrics[j] == held[j]
    {
      metrics := metrics[i := Accumulate(specs[i], metrics[i], doc)];
    }
  }

  method FinishGroup(spec: AggregateSpec, bucket: Bucket, ghost docs: seq<Json>) returns (group: Group)
    requires bucket == BucketOver(spec, docs)
    ensures group == GroupOver(spec, docs)
  {
    hide Finished, MetricOver;
    var metrics: map<string, MetricValue> := map[];
    for i := 0 to |spec.metrics|
      invariant metrics == Labelled(spec.metrics[..i], docs)
    {
      assert spec.metrics[..i + 1][..i] == spec.metrics[..i];
      metrics := metrics[spec.metrics[i].name := Finished(bucket.metrics[i])];
    }
    assert spec.metrics[..|spec.metrics|] == spec.metrics;
    return Group(bucket.count, metrics);
  }

  lemma KeysGrow(fields: seq<string>, docs: seq<Json>, doc: Json)
    ensures GroupKeys(fields, docs + [doc]) == GroupKeys(fields, docs) + {GroupKeyOf(doc, fields)}
  {
    var all := docs + [doc];
    forall g | g in GroupKeys(fields, docs)
      ensures g in GroupKeys(fields, all)
    {
      var d :| d in docs && GroupKeyOf(d, fields) == g;
      assert d in all;
    }
    assert doc in all;
  }

  lemma {:induction false} NoKeyNoDocs(fields: seq<string>, g: GroupKey, docs: seq<Json>)
    requires g !in GroupKeys(fields, docs)
    ensures Filter(InGroup(fields, g), docs) == []
  {
    if docs != [] {
      assert docs[0] in docs;
      assert forall d :: d in docs[1..] ==> d in docs;
      NoKeyNoDocs(fields, g, docs[1..]);
    }
  }

  lemma RoomFor(spec: AggregateSpec, docs: seq<Json>, buckets: map<GroupKey, Bucket>, doc: Json)
    requires AreBuckets(spec, docs, buckets)
    ensures var key := GroupKeyOf(doc, spec.group);
      && |buckets| == |GroupKeys(spec.group, docs)|
      && |GroupKeys(spec.group, docs + [doc])| == |buckets| + (if key in buckets then 0 else 1)
      && |Opened(spec, buckets, key).metrics| == |spec.metrics|
  {
    hide GroupKeyOf, GroupKeys, InGroup, DocsOf, MetricOver;
    var key := GroupKeyOf(doc, spec.group);
    KeysGrow(spec.group, docs, doc);
    if key in buckets { assert buckets.Keys + {key} == buckets.Keys; }
  }

  lemma BucketsGrow(
    spec: AggregateSpec, docs: seq<Json>, buckets: map<GroupKey, Bucket>, doc: Json, metrics: seq<MetricValue>)
    requires AreBuckets(spec, docs, buckets)
    requires var b := Opened(spec, buckets, GroupKeyOf(doc, spec.group));
      && |metrics| == |spec.metrics| == |b.metrics|
      && forall j :: 0 <= j < |metrics| ==> metrics[j] == Accumulate(spec.metrics[j], b.metrics[j], doc)
    ensures var key := GroupKeyOf(doc, spec.group);
      AreBuckets(spec, docs + [doc], buckets[key := Bucket(Opened(spec, buckets, key).count + 1, metrics)])
  {
    hide GroupKeyOf, GroupKeys, Accumulate, InGroup;
    var key := GroupKeyOf(doc, spec.group);
    var mine := DocsOf(spec, key, docs);
    var grown := buckets[key := Bucket(Opened(spec, buckets, key).count + 1, metrics)];
    KeysGrow(spec.group, docs, doc);
    if key !in buckets { NoKeyNoDocs(spec.group, key, docs); }
    BucketGrows(spec, mine, Opened(spec, buckets, key), doc, metrics);
    forall g | g in grown
      ensures grown[g] == BucketOver(spec, DocsOf(spec, g, docs + [doc]))
    {
      DocsGrow(spec, g, docs, doc);
    }
  }

  lemma BucketGrows(spec: AggregateSpec, docs: seq<Json>, b: Bucket, doc: Json, metrics: seq<MetricValue>)
    requires b.count == |docs| && |b.metrics| == |metrics| == |spec.metrics|
    requires forall i :: 0 <= i < |metrics| ==> b.metrics[i] == MetricOver(spec.metrics[i], docs)
    requires forall i :: 0 <= i < |metrics| ==> metrics[i] == Accumulate(spec.metrics[i], b.metrics[i], doc)
    ensures Bucket(b.count + 1, metrics) == BucketOver(spec, docs + [doc])
  {
    assert (docs + [doc])[..|docs|] == docs;
  }

  lemma DocsGrow(spec: AggregateSpec, g: GroupKey, docs: seq<Json>, doc: Json)
    ensures DocsOf(spec, g, docs + [doc])
      == if g == GroupKeyOf(doc, spec.group) then DocsOf(spec, g, docs) + [doc] else DocsOf(spec, g, docs)
  {
    FilterAppends(InGroup(spec.group, g), docs, [doc]);
  }

  // ----- the router

  function HeldOr(held: map<string, MetricValue>, l: string): MetricValue {
    if l in held then held[l] else NOTHING
  }

  ghost predicate MetricsAbsorbed(
    held: map<string, MetricValue>, more: map<string, MetricValue>, r: map<string, MetricValue>) {
    && r.Keys == held.Keys + more.Keys
    && forall l :: l in r ==> r[l] == if l in more then Absorb(HeldOr(held, l), more[l]) else held[l]
  }

  /** `r` has each side's own groups, and one group for each key they share. */
  ghost predicate GroupsAbsorbed(held: map<GroupKey, Group>, more: map<GroupKey, Group>, r: map<GroupKey, Group>) {
    && r.Keys == held.Keys + more.Keys
    && (forall g :: g in r && g !in held ==> r[g] == more[g])
    && (forall g :: g in r && g !in more ==> r[g] == held[g])
    && (forall g :: g in held && g in more ==> GroupAbsorbed(held[g], more[g], r[g]))
  }

  ghost predicate GroupAbsorbed(held: Group, more: Group, r: Group) {
    r.count == held.count + more.count && MetricsAbsorbed(held.metrics, more.metrics, r.metrics)
  }

  method AbsorbMetrics(
    held: map<string, MetricValue>, more: map<string, MetricValue>) returns (r: map<string, MetricValue>)
    ensures MetricsAbsorbed(held, more, r)
  {
    hide Absorb;
    r := held;
    var todo := more.Keys;
    while todo != {}
      invariant todo <= more.Keys
      invariant forall l :: l in r <==> l in held || (l in more && l !in todo)
      invariant forall l :: l in r ==>
        r[l] == if l in more && l !in todo then Absorb(HeldOr(held, l), more[l]) else held[l]
      decreases |todo|
    {
      var l :| l in todo;
      assert HeldOr(r, l) == HeldOr(held, l);
      r := r[l := Absorb(HeldOr(r, l), more[l])];
      todo := todo - {l};
    }
  }

  method AbsorbGroup(held: Group, more: Group) returns (r: Group)
    ensures GroupAbsorbed(held, more, r)
  {
    hide MetricsAbsorbed;
    var metrics := AbsorbMetrics(held.metrics, more.metrics);
    return Group(held.count + more.count, metrics);
  }

  /** `buckets` is `held` with the groups of `more` absorbed, except those still to do. */
  ghost predicate Absorbing(
    held: map<GroupKey, Group>, more: map<GroupKey, Group>, todo: set<GroupKey>, buckets: map<GroupKey, Group>) {
    && todo <= more.Keys
    && (forall g :: g in buckets <==> g in held || (g in more && g !in todo))
    && (forall g :: g in held && (g !in more || g in todo) ==> buckets[g] == held[g])
    && (forall g :: g in more && g !in todo && g !in held ==> buckets[g] == more[g])
    && (forall g :: g in more && g !in todo && g in held ==> GroupAbsorbed(held[g], more[g], buckets[g]))
  }

  lemma AbsorbStep(
    held: map<GroupKey, Group>, more: map<GroupKey, Group>, todo: set<GroupKey>, buckets: map<GroupKey, Group>,
    g: GroupKey, r: Group)
    requires Absorbing(held, more, todo, buckets) && g in todo
    requires if g in buckets then GroupAbsorbed(buckets[g], more[g], r) else r == more[g]
    ensures Absorbing(held, more, todo - {g}, buckets[g := r])
  {
  }

  function KeysTogether(held: map<GroupKey, Group>, more: map<GroupKey, Group>): nat {
    |held.Keys + more.Keys|
  }

  lemma AbsorbDone(held: map<GroupKey, Group>, more: map<GroupKey, Group>, buckets: map<GroupKey, Group>)
    requires Absorbing(held, more, {}, buckets)
    ensures |buckets| == KeysTogether(held, more) && GroupsAbsorbed(held, more, buckets)
  {
    assert buckets.Keys == held.Keys + more.Keys;
  }

  lemma AbsorbRefused(
    held: map<GroupKey, Group>, more: map<GroupKey, Group>, todo: set<GroupKey>, buckets: map<GroupKey, Group>,
    g: GroupKey)
    requires Absorbing(held, more, todo, buckets) && g in todo && g !in buckets
    ensures KeysTogether(held, more) > |buckets|
  {
    SubsetIsSmaller(buckets.Keys + {g}, held.Keys + more.Keys);
  }

  /** One part's groups into the table, refused when they would be one too many. */
  method AbsorbPart(held: map<GroupKey, Group>, more: map<GroupKey, Group>) returns (r: Option<map<GroupKey, Group>>)
    requires |held| <= MAX_AGGREGATE_GROUPS
    ensures r.None? <==> KeysTogether(held, more) > MAX_AGGREGATE_GROUPS
    ensures r.Some? ==> GroupsAbsorbed(held, more, r.value) && |r.value| <= MAX_AGGREGATE_GROUPS
  {
    var buckets := held;
    var todo := more.Keys;
    assert Absorbing(held, more, todo, buckets);
    hide Absorbing, GroupAbsorbed, GroupsAbsorbed, KeysTogether;
    while todo != {}
      invariant Absorbing(held, more, todo, buckets) && |buckets| <= MAX_AGGREGATE_GROUPS
      invariant todo <= more.Keys
      decreases |todo|
    {
      var g :| g in todo;
      var group := more[g];
      if g in buckets {
        group := AbsorbGroup(buckets[g], group);
      } else if |buckets| >= MAX_AGGREGATE_GROUPS {
        AbsorbRefused(held, more, todo, buckets, g);
        return None;
      }
      AbsorbStep(held, more, todo, buckets, g, group);
      buckets := buckets[g := group];
      todo := todo - {g};
    }
    AbsorbDone(held, more, buckets);
    return Some(buckets);
  }

  lemma {:induction false} SubsetIsSmaller<T>(a: set<T>, b: set<T>)
    requires a <= b
    ensures |a| <= |b|
  {
    if a != {} {
      var x :| x in a;
      SubsetIsSmaller(a - {x}, b - {x});
    }
  }

  // ----- merging partials is aggregating everything

  lemma {:induction false} LabelledMerge(
    specs: seq<MetricSpec>, a: seq<Json>, b: seq<Json>, r: map<string, MetricValue>)
    requires MetricsAbsorbed(Labelled(specs, a), Labelled(specs, b), r)
    ensures r == Labelled(specs, a + b)
  {
    LabelsAre(specs, a);
    LabelsAre(specs, b);
    LabelsAre(specs, a + b);
    forall l | l in r
      ensures r[l] == Labelled(specs, a + b)[l]
    {
      MetricsMerge(LastNamed(specs, l), a, b);
    }
  }

  predicate Names(specs: seq<MetricSpec>, l: string) {
    exists i :: 0 <= i < |specs| && specs[i].name == l
  }

  function LastNamed(specs: seq<MetricSpec>, l: string): MetricSpec
    requires Names(specs, l)
  {
    if specs[|specs| - 1].name == l then specs[|specs| - 1] else LastNamed(specs[..|specs| - 1], l)
  }

  lemma {:induction false} LabelsAre(specs: seq<MetricSpec>, docs: seq<Json>)
    ensures forall l :: l in Labelled(specs, docs) <==> Names(specs, l)
    ensures forall l :: Names(specs, l) ==> Labelled(specs, docs)[l] == Finished(MetricOver(LastNamed(specs, l), docs))
  {
    if specs != [] {
      var n := |specs| - 1;
      LabelsAre(specs[..n], docs);
      forall l
        ensures Names(specs, l) <==> specs[n].name == l || Names(specs[..n], l)
      {
        if i :| 0 <= i < n && specs[i].name == l { assert specs[..n][i].name == l; }
        if i :| 0 <= i < n && specs[..n][i].name == l { assert specs[i].name == l; }
      }
    }
  }

  /** Merging the finished partials of two document lists is finishing their concatenation. */
  lemma GroupsMerge(spec: AggregateSpec, a: seq<Json>, b: seq<Json>,
                    x: map<GroupKey, Group>, y: map<GroupKey, Group>, r: map<GroupKey, Group>)
    requires AreGroups(spec, a, x) && AreGroups(spec, b, y) && GroupsAbsorbed(x, y, r)
    ensures AreGroups(spec, a + b, r)
  {
    KeysOfBoth(spec.group, a, b);
    forall g | g in r
      ensures r[g] == GroupOver(spec, DocsOf(spec, g, a + b))
    {
      var inA, inB := DocsOf(spec, g, a), DocsOf(spec, g, b);
      FilterAppends(InGroup(spec.group, g), a, b);
      if g !in x {
        NoKeyNoDocs(spec.group, g, a);
        assert inA + inB == inB;
      } else if g !in y {
        NoKeyNoDocs(spec.group, g, b);
        assert inA + inB == inA;
      } else {
        LabelledMerge(spec.metrics, inA, inB, r[g].metrics);
      }
    }
  }

  lemma KeysOfBoth(fields: seq<string>, a: seq<Json>, b: seq<Json>)
    ensures GroupKeys(fields, a + b) == GroupKeys(fields, a) + GroupKeys(fields, b)
  {
    forall g | g in GroupKeys(fields, a) + GroupKeys(fields, b)
      ensures g in GroupKeys(fields, a + b)
    {
      var d :| (d in a || d in b) && GroupKeyOf(d, fields) == g;
      assert d in a + b;
    }
  }

  function TotalMatched(parts: seq<AggregateResult>): nat {
    if parts == [] then 0 else TotalMatched(parts[..|parts| - 1]) + parts[|parts| - 1].matched
  }

  function TotalScanned(parts: seq<AggregateResult>): nat {
    if parts == [] then 0 else TotalScanned(parts[..|parts| - 1]) + parts[|parts| - 1].scanned
  }

  function AnyPartial(parts: seq<AggregateResult>): bool {
    parts != [] && (AnyPartial(parts[..|parts| - 1]) || parts[|parts| - 1].partial)
  }

  /** Totals are sums over the parts, and one partial part makes the whole partial. */
  lemma {:induction false} PartsAddUp(parts: seq<AggregateResult>, more: seq<AggregateResult>, part: AggregateResult)
    ensures TotalMatched(parts + more) == TotalMatched(parts) + TotalMatched(more)
      && TotalMatched([part]) == part.matched
    ensures TotalScanned(parts + more) == TotalScanned(parts) + TotalScanned(more)
      && TotalScanned([part]) == part.scanned
    ensures AnyPartial(parts) <==> exists i :: 0 <= i < |parts| && parts[i].partial
  {
    assert [part][..0] == [];
    if more != [] {
      PartsAddUp(parts, more[..|more| - 1], part);
      assert (parts + more)[..|parts + more| - 1] == parts + more[..|more| - 1];
    } else {
      assert parts + more == parts;
      AnyIsSome(parts);
    }
  }

  lemma {:induction false} AnyIsSome(parts: seq<AggregateResult>)
    ensures AnyPartial(parts) <==> exists i :: 0 <= i < |parts| && parts[i].partial
  {
    if parts != [] { AnyIsSome(parts[..|parts| - 1]); }
  }

  lemma PartsNext(parts: seq<AggregateResult>, i: nat)
    requires i < |parts|
    ensures TotalMatched(parts[..i + 1]) == TotalMatched(parts[..i]) + parts[i].matched
    ensures TotalScanned(parts[..i + 1]) == TotalScanned(parts[..i]) + parts[i].scanned
    ensures AnyPartial(parts[..i + 1]) == (AnyPartial(parts[..i]) || parts[i].partial)
  {
    assert parts[..i + 1][..i] == parts[..i];
  }

  /** The first `i` parts are merged into `acc`. */
  ghost predicate Merging(
    spec: AggregateSpec, lists: seq<seq<Json>>, parts: seq<AggregateResult>, i: nat, acc: AggregateResult) {
    && i <= |parts| == |lists|
    && AreGroups(spec, Flatten(lists[..i]), acc.groups)
    && acc.matched == TotalMatched(parts[..i])
    && acc.scanned == TotalScanned(parts[..i])
    && acc.partial == AnyPartial(parts[..i])
  }

  lemma MergeStarts(spec: AggregateSpec, lists: seq<seq<Json>>, parts: seq<AggregateResult>)
    requires |parts| == |lists|
    ensures Merging(spec, lists, parts, 0, AggregateResult(map[], 0, 0, false))
  {
    assert GroupKeys(spec.group, []) == {};
    assert lists[..0] == [] && parts[..0] == [];
  }

  lemma MergeGoesOn(
    spec: AggregateSpec, lists: seq<seq<Json>>, parts: seq<AggregateResult>, i: nat, acc: AggregateResult,
    absorbed: map<GroupKey, Group>)
    requires i < |parts| && Merging(spec, lists, parts, i, acc)
    requires AreGroups(spec, lists[i], parts[i].groups) && GroupsAbsorbed(acc.groups, parts[i].groups, absorbed)
    ensures Merging(spec, lists, parts, i + 1, AggregateResult(absorbed,
      acc.matched + parts[i].matched, acc.scanned + parts[i].scanned, acc.partial || parts[i].partial))
  {
    PartsNext(parts, i);
    FlattenNext(lists, i);
    GroupsMerge(spec, Flatten(lists[..i]), lists[i], acc.groups, parts[i].groups, absorbed);
  }

  lemma MergeRefused(
    spec: AggregateSpec, lists: seq<seq<Json>>, parts: seq<AggregateResult>, i: nat, acc: AggregateResult)
    requires i < |parts| && Merging(spec, lists, parts, i, acc)
    requires AreGroups(spec, lists[i], parts[i].groups)
    ensures |GroupKeys(spec.group, Flatten(lists))| >= KeysTogether(acc.groups, parts[i].groups)
  {
    FlattenNext(lists, i);
    KeysOfBoth(spec.group, Flatten(lists[..i]), lists[i]);
    FirstListsHaveFewerKeys(spec.group, lists, i + 1);
  }

  lemma MergeEnds(spec: AggregateSpec, lists: seq<seq<Json>>, parts: seq<AggregateResult>, acc: AggregateResult)
    requires Merging(spec, lists, parts, |parts|, acc)
    ensures IsMerge(spec, lists, parts, acc)
  {
    assert parts[..|parts|] == parts && lists[..|lists|] == lists;
  }

  /** `r` is what one aggregation over all the lists publishes. */
  ghost predicate IsMerge(spec: AggregateSpec, lists: seq<seq<Json>>, parts: seq<AggregateResult>, r: AggregateResult) {
    && AreGroups(spec, Flatten(lists), r.groups)
    && |r.groups| == |GroupKeys(spec.group, Flatten(lists))|
    && r.matched == TotalMatched(parts) && r.scanned == TotalScanned(parts) && r.partial == AnyPartial(parts)
  }

  ghost predicate ArePartials(spec: AggregateSpec, lists: seq<seq<Json>>, parts: seq<AggregateResult>) {
    |parts| == |lists| && forall i :: 0 <= i < |lists| ==> AreGroups(spec, lists[i], parts[i].groups)
  }

  /** Merging the finished partials of document lists is one aggregation over their concatenation, and
      the merge refuses exactly when that aggregation would. */
  method Merge(parts: seq<AggregateResult>, ghost spec: AggregateSpec, ghost lists: seq<seq<Json>>)
    returns (r: Option<AggregateResult>)
    requires ArePartials(spec, lists, parts)
    ensures r.None? <==> |GroupKeys(spec.group, Flatten(lists))| > MAX_AGGREGATE_GROUPS
    ensures r.Some? ==> IsMerge(spec, lists, parts, r.value)
  {
    hide Merging, AreGroups, GroupsAbsorbed, KeysTogether, GroupKeys, Flatten, TotalMatched, TotalScanned, AnyPartial;
    var buckets: map<GroupKey, Group> := map[];
    var matched: nat, scanned: nat, partial := 0, 0, false;
    MergeStarts(spec, lists, parts);
    for i := 0 to |parts|
      invariant Merging(spec, lists, parts, i, AggregateResult(buckets, matched, scanned, partial))
      invariant |buckets| <= MAX_AGGREGATE_GROUPS
    {
      var part := parts[i];
      ghost var acc := AggregateResult(buckets, matched, scanned, partial);
      var absorbed := AbsorbPart(buckets, part.groups);
      if absorbed.None? {
        MergeRefused(spec, lists, parts, i, acc);
        return None;
      }
      MergeGoesOn(spec, lists, parts, i, acc, absorbed.value);
      buckets := absorbed.value;
      matched, scanned, partial := matched + part.matched, scanned + part.scanned, partial || part.partial;
    }
    MergeEnds(spec, lists, parts, AggregateResult(buckets, matched, scanned, partial));
    return Some(AggregateResult(buckets, matched, scanned, partial));
  }

  lemma FlattenNext(lists: seq<seq<Json>>, i: nat)
    requires i < |lists|
    ensures Flatten(lists[..i + 1]) == Flatten(lists[..i]) + lists[i]
  {
    FlattenSplits(lists[..i + 1], i);
    assert lists[..i + 1][..i] == lists[..i] && lists[..i + 1][i + 1..] == [];
  }

  lemma {:induction false} FirstListsHaveFewerKeys(fields: seq<string>, lists: seq<seq<Json>>, n: nat)
    requires n <= |lists|
    ensures |GroupKeys(fields, Flatten(lists[..n]))| <= |GroupKeys(fields, Flatten(lists))|
    decreases |lists| - n
  {
    hide GroupKeys, Flatten;
    if n == |lists| {
      assert lists[..n] == lists;
    } else {
      FirstListsHaveFewerKeys(fields, lists, n + 1);
      FlattenNext(lists, n);
      KeysOfBoth(fields, Flatten(lists[..n]), lists[n]);
      SubsetIsSmaller(GroupKeys(fields, Flatten(lists[..n])), GroupKeys(fields, Flatten(lists[..n + 1])));
    }
  }

  method AggregateShard(spec: AggregateSpec, docs: seq<Json>) returns (r: Option<AggregateResult>)
    ensures r.None? <==> |GroupKeys(spec.group, docs)| > MAX_AGGREGATE_GROUPS
    ensures r.Some? ==> AreGroups(spec, docs, r.value.groups) && r.value.matched == |docs|
  {
    hide GroupKeys, GroupOver, DocsOf, BucketOver;
    var agg := new Aggregator(spec);
    for i := 0 to |docs|
      invariant agg.Valid() && agg.docs == docs[..i] && agg.spec == spec && fresh(agg)
    {
      assert docs[..i + 1] == docs[..i] + [docs[i]];
      var ok := agg.Add(docs[i]);
      if !ok {
        assert docs == docs[..i + 1] + docs[i + 1..];
        KeysOfBoth(spec.group, docs[..i + 1], docs[i + 1..]);
        SubsetIsSmaller(GroupKeys(spec.group, docs[..i + 1]), GroupKeys(spec.group, docs));
        return None;
      }
    }
    assert docs[..|docs|] == docs;
    var result := agg.Finish(|docs|, false);
    return Some(result);
  }

  /** The same groups, counts, sums, averages, extremes and refusal, however the documents are spread
      over shards. */
  method ShardedAggregate(spec: AggregateSpec, shards: seq<seq<Json>>) returns (r: Option<AggregateResult>)
    ensures r.None? <==> |GroupKeys(spec.group, Flatten(shards))| > MAX_AGGREGATE_GROUPS
    ensures r.Some? ==> AreGroups(spec, Flatten(shards), r.value.groups) && r.value.matched == |Flatten(shards)|
  {
    hide GroupKeys, Flatten, AreGroups, TotalMatched, ArePartials, TotalScanned, AnyPartial;
    var parts: seq<AggregateResult> := [];
    NoPartials(spec, shards);
    for i := 0 to |shards|
      invariant ArePartials(spec, shards[..i], parts) && TotalMatched(parts) == |Flatten(shards[..i])|
    {
      var part := AggregateShard(spec, shards[i]);
      if part.None? {
        GroupsOfShard(spec.group, shards, i);
        return None;
      }
      OnePartialMore(spec, shards, i, parts, part.value);
      parts := parts + [part.value];
    }
    assert shards[..|shards|] == shards;
    r := Merge(parts, spec, shards);
  }

  lemma NoPartials(spec: AggregateSpec, shards: seq<seq<Json>>)
    ensures ArePartials(spec, shards[..0], []) && TotalMatched([]) == |Flatten(shards[..0])|
  {
  }

  lemma OnePartialMore(
    spec: AggregateSpec, shards: seq<seq<Json>>, i: nat, parts: seq<AggregateResult>, part: AggregateResult)
    requires i < |shards| && ArePartials(spec, shards[..i], parts) && TotalMatched(parts) == |Flatten(shards[..i])|
    requires AreGroups(spec, shards[i], part.groups) && part.matched == |shards[i]|
    ensures ArePartials(spec, shards[..i + 1], parts + [part])
    ensures TotalMatched(parts + [part]) == |Flatten(shards[..i + 1])|
  {
    FlattenNext(shards, i);
    assert (parts + [part])[..i] == parts;
  }

  lemma GroupsOfShard(fields: seq<string>, shards: seq<seq<Json>>, i: nat)
    requires i < |shards|
    ensures |GroupKeys(fields, shards[i])| <= |GroupKeys(fields, Flatten(shards))|
  {
    FlattenSplits(shards, i);
    var pre, post := Flatten(shards[..i]), Flatten(shards[i + 1..]);
    KeysOfBoth(fields, pre + shards[i], post);
    KeysOfBoth(fields, pre, shards[i]);
    SubsetIsSmaller(GroupKeys(fields, shards[i]), GroupKeys(fields, Flatten(shards)));
  }
}
