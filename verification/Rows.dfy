/** Sorted rows: the multi-key order, the resume cursor and the k-way merge (src/query.rs). */
module Rows {
  import opened Orders
  import opened JsonValues
  import opened JsonOrder
  import opened Sorting

  datatype SortKey = SortKey(field: string, desc: bool)

  type SortOrder = seq<SortKey>

  datatype Row = Row(key: string, value: Json)

  /** `value` is the spelling a cursor carried before sorts could name several keys. */
  datatype Cursor = Cursor(values: seq<Json>, value: Option<Json>, key: string) {
    function Positions(): seq<Json> {
      if value.Some? && values == [] then [value.value] else values
    }
  }

  function KeyValue(doc: Json, k: SortKey): Json {
    var found := Lookup(doc, Split(k.field, '.'));
    if found.Some? then found.value else Null
  }

  function SortPosition(doc: Json, order: SortOrder): (p: seq<Json>)
    ensures |p| == |order|
  {
    if order == [] then [] else [KeyValue(doc, order[0])] + SortPosition(doc, order[1..])
  }

  function Directed(k: SortKey, o: Ordering): Ordering {
    if k.desc then o.Reverse() else o
  }

  /** A position shorter than the order stops the comparison early and leaves it to the key. */
  function ComparePositions(a: seq<Json>, aKey: string, b: seq<Json>, bKey: string, order: SortOrder): Ordering
    decreases |order|
  {
    if order == [] || a == [] || b == [] then CompareText(aKey, bKey)
    else Directed(order[0], JsonCmp(a[0], b[0])).Then(ComparePositions(a[1..], aKey, b[1..], bKey, order[1..]))
  }

  function CompareRows(a: Row, b: Row, order: SortOrder): Ordering
    decreases |order|
  {
    if order == [] then CompareText(a.key, b.key)
    else
      Directed(order[0], JsonCmp(KeyValue(a.value, order[0]), KeyValue(b.value, order[0])))
        .Then(CompareRows(a, b, order[1..]))
  }

  function RowLeq(order: SortOrder): (Row, Row) -> bool {
    (a: Row, b: Row) => CompareRows(a, b, order) != Greater
  }

  function IsAfter(row: Row, cursor: Cursor, order: SortOrder): bool {
    ComparePositions(SortPosition(row.value, order), row.key, cursor.Positions(), cursor.key, order) == Greater
  }

  function CursorAt(row: Row, order: SortOrder): Cursor {
    Cursor(SortPosition(row.value, order), None, row.key)
  }

  lemma {:induction false} CompareRowsReverses(a: Row, b: Row, order: SortOrder)
    ensures CompareRows(a, b, order) == CompareRows(b, a, order).Reverse()
    ensures CompareRows(a, b, order) == Equal ==> a.key == b.key
  {
    if order == [] {
      CompareTextLaws(a.key, b.key);
    } else {
      JsonCmpReverses(KeyValue(a.value, order[0]), KeyValue(b.value, order[0]));
      CompareRowsReverses(a, b, order[1..]);
    }
  }

  lemma {:induction false} CompareRowsChains(a: Row, b: Row, c: Row, order: SortOrder)
    ensures Chained(CompareRows(a, b, order), CompareRows(b, c, order), CompareRows(a, c, order))
  {
    if order == [] {
      CompareTextChains(a.key, b.key, c.key);
    } else {
      var k := order[0];
      JsonCmpChains(KeyValue(a.value, k), KeyValue(b.value, k), KeyValue(c.value, k));
      CompareRowsChains(a, b, c, order[1..]);
    }
  }

  /** One global order on rows, whatever their documents hold; only rows of one key can tie. */
  lemma RowOrderIsTotal(order: SortOrder)
    ensures TotalPreorder(RowLeq(order))
    ensures forall a: Row, b: Row :: RowLeq(order)(a, b) && RowLeq(order)(b, a) ==> a.key == b.key
  {
    var leq := RowLeq(order);
    forall a: Row, b: Row
      ensures (leq(a, b) || leq(b, a)) && (leq(a, b) && leq(b, a) ==> a.key == b.key)
    {
      CompareRowsReverses(a, b, order);
    }
    forall a: Row, b: Row, c: Row | leq(a, b) && leq(b, c)
      ensures leq(a, c)
    {
      CompareRowsChains(a, b, c, order);
    }
  }

  /** What a row sorts by: under each key the value its path leads to, or null where it leads nowhere. */
  ghost predicate SortsBy(row: Row, order: SortOrder, values: seq<Json>) {
    |values| == |order| && forall i :: 0 <= i < |order| ==>
      var found := Lookup(row.value, Split(order[i].field, '.'));
      found == Some(values[i]) || (found.None? && values[i].Null?)
  }

  ghost predicate TieBelow(xs: seq<Json>, ys: seq<Json>, i: nat) {
    i <= |xs| && i <= |ys| && forall j :: 0 <= j < i ==> JsonCmp(xs[j], ys[j]) == Equal
  }

  lemma {:induction false} PositionSorts(row: Row, order: SortOrder, values: seq<Json>)
    ensures SortsBy(row, order, values) <==> values == SortPosition(row.value, order)
  {
    var p := SortPosition(row.value, order);
    if order != [] {
      PositionSorts(row, order[1..], p[1..]);
      forall i | 0 < i < |order|
        ensures var found := Lookup(row.value, Split(order[i].field, '.'));
          found == Some(p[i]) || (found.None? && p[i].Null?)
      {
        assert order[1..][i - 1] == order[i] && p[1..][i - 1] == p[i];
      }
    }
  }

  /** A later key decides where every earlier one ties, turned round if it is descending, and the document
      key decides where they all do; a missing field sorts as null. */
  lemma {:induction false} FirstDifferingKeyDecides(
    a: Row, b: Row, order: SortOrder, xs: seq<Json>, ys: seq<Json>, i: nat)
    requires SortsBy(a, order, xs) && SortsBy(b, order, ys) && i <= |order| && TieBelow(xs, ys, i)
    ensures i == |order| ==> CompareRows(a, b, order) == CompareText(a.key, b.key)
    ensures i < |order| ==>
      var o := JsonCmp(xs[i], ys[i]);
      o != Equal ==> CompareRows(a, b, order) == if order[i].desc then o.Reverse() else o
  {
    hide SortsBy;
    PositionSorts(a, order, xs);
    PositionSorts(b, order, ys);
    PositionsCompareAsRows(a, b, order);
    FirstPositionDecides(xs, a.key, ys, b.key, order, i);
  }

  lemma {:induction false} FirstPositionDecides(
    xs: seq<Json>, xKey: string, ys: seq<Json>, yKey: string, order: SortOrder, i: nat)
    requires |ys| <= |xs| == |order| && i <= |ys| && TieBelow(xs, ys, i)
    ensures i == |ys| ==> ComparePositions(xs, xKey, ys, yKey, order) == CompareText(xKey, yKey)
    ensures i < |ys| ==>
      var o := JsonCmp(xs[i], ys[i]);
      o != Equal ==> ComparePositions(xs, xKey, ys, yKey, order) == if order[i].desc then o.Reverse() else o
  {
    hide JsonCmp;
    if i > 0 {
      assert forall j :: 0 <= j < i - 1 ==> xs[1..][j] == xs[j + 1] && ys[1..][j] == ys[j + 1];
      FirstPositionDecides(xs[1..], xKey, ys[1..], yKey, order[1..], i - 1);
    }
  }

  /** The sort puts `a` before `b`: the first key that tells them apart says so, or with none the document
      keys do. */
  ghost predicate ComesBefore(a: Row, b: Row, order: SortOrder) {
    exists xs, ys, i :: DecidesAt(a, b, order, xs, ys, i)
  }

  ghost predicate DecidesAt(a: Row, b: Row, order: SortOrder, xs: seq<Json>, ys: seq<Json>, i: nat) {
    && SortsBy(a, order, xs) && SortsBy(b, order, ys) && i <= |order| && TieBelow(xs, ys, i)
    && if i < |order| then JsonCmp(xs[i], ys[i]) == (if order[i].desc then Greater else Less)
       else CompareText(a.key, b.key) == Less
  }

  lemma {:induction false} FirstApart(xs: seq<Json>, ys: seq<Json>, n: nat) returns (i: nat)
    requires n <= |xs| && n <= |ys|
    ensures i <= n && TieBelow(xs, ys, i) && (i < n ==> JsonCmp(xs[i], ys[i]) != Equal)
  {
    hide JsonCmp;
    i := 0;
    while i < n && JsonCmp(xs[i], ys[i]) == Equal
      invariant i <= n && TieBelow(xs, ys, i)
    {
      i := i + 1;
    }
  }

  lemma RowsComeBeforeIff(a: Row, b: Row, order: SortOrder)
    ensures ComesBefore(a, b, order) <==> CompareRows(a, b, order) == Less
  {
    hide SortsBy, TieBelow, JsonCmp;
    var xs, ys := SortPosition(a.value, order), SortPosition(b.value, order);
    PositionSorts(a, order, xs);
    PositionSorts(b, order, ys);
    var i := FirstApart(xs, ys, |order|);
    FirstDifferingKeyDecides(a, b, order, xs, ys, i);
    if CompareRows(a, b, order) == Less { assert DecidesAt(a, b, order, xs, ys, i); }
    if us, vs, j :| DecidesAt(a, b, order, us, vs, j) {
      FirstDifferingKeyDecides(a, b, order, us, vs, j);
    }
  }

  /** No row comes before one that stands ahead of it. */
  ghost predicate InTurn(rows: seq<Row>, order: SortOrder) {
    forall i, j :: 0 <= i < j < |rows| ==> !ComesBefore(rows[j], rows[i], order)
  }

  lemma SortedIsInTurn(rows: seq<Row>, order: SortOrder)
    ensures Sorted(RowLeq(order), rows) <==> InTurn(rows, order)
  {
    hide ComesBefore, CompareRows;
    forall i, j | 0 <= i < j < |rows|
      ensures RowLeq(order)(rows[i], rows[j]) <==> !ComesBefore(rows[j], rows[i], order)
    {
      RowsComeBeforeIff(rows[j], rows[i], order);
      CompareRowsReverses(rows[i], rows[j], order);
    }
  }

  lemma TopInTurn(order: SortOrder, rows: seq<Row>, n: nat)
    ensures InTurn(Take(Sort(RowLeq(order), rows), n), order)
  {
    hide ComesBefore, CompareRows;
    RowOrderIsTotal(order);
    SortIsSorted(RowLeq(order), rows);
    SortedIsInTurn(Take(Sort(RowLeq(order), rows), n), order);
  }

  /** Under the first key the earlier row's value is never the later, nor in a descending sort the smaller. */
  lemma FirstKeyInOrder(a: Row, b: Row, order: SortOrder, xs: seq<Json>, ys: seq<Json>)
    requires order != [] && ComesBefore(a, b, order) && SortsBy(a, order, xs) && SortsBy(b, order, ys)
    ensures JsonCmp(xs[0], ys[0]) != if order[0].desc then Less else Greater
  {
    hide SortsBy, JsonCmp;
    var us, vs, i :| DecidesAt(a, b, order, us, vs, i);
    PositionSorts(a, order, xs);
    PositionSorts(b, order, ys);
    PositionSorts(a, order, us);
    PositionSorts(b, order, vs);
  }

  /** A cursor admits a row that its recorded values put before the row; one with fewer values than the sort has
      keys leaves the rest to the document key, and one value may stand in the older spelling. */
  lemma CursorAdmitsBy(row: Row, cursor: Cursor, order: SortOrder, xs: seq<Json>, i: nat)
    requires SortsBy(row, order, xs)
    requires var at := if cursor.values == [] && cursor.value.Some? then [cursor.value.value] else cursor.values;
      |at| <= |order| && i <= |at| && TieBelow(xs, at, i)
    ensures var at := if cursor.values == [] && cursor.value.Some? then [cursor.value.value] else cursor.values;
      && (i == |at| ==> (IsAfter(row, cursor, order) <==> CompareText(row.key, cursor.key) == Greater))
      && (i < |at| && JsonCmp(xs[i], at[i]) != Equal ==>
            (IsAfter(row, cursor, order) <==> JsonCmp(xs[i], at[i]) == if order[i].desc then Less else Greater))
  {
    hide SortsBy, JsonCmp, ComparePositions;
    PositionSorts(row, order, xs);
    FirstPositionDecides(xs, row.key, cursor.Positions(), cursor.key, order, i);
  }

  /** A cursor built from a row admits exactly the rows the sort puts after that row. */
  lemma {:induction false} CursorAdmitsLaterRows(row: Row, at: Row, order: SortOrder)
    ensures IsAfter(row, CursorAt(at, order), order) <==> CompareRows(row, at, order) == Greater
  {
    PositionsCompareAsRows(row, at, order);
  }

  lemma {:induction false} PositionsCompareAsRows(a: Row, b: Row, order: SortOrder)
    ensures ComparePositions(SortPosition(a.value, order), a.key, SortPosition(b.value, order), b.key, order)
            == CompareRows(a, b, order)
  {
    if order != [] {
      PositionsCompareAsRows(a, b, order[1..]);
    }
  }

  function Flatten<T>(lists: seq<seq<T>>): seq<T> {
    if lists == [] then [] else lists[0] + Flatten(lists[1..])
  }

  lemma {:induction false} FlattenSplits<T>(lists: seq<seq<T>>, b: nat)
    requires b < |lists|
    ensures Flatten(lists) == Flatten(lists[..b]) + lists[b] + Flatten(lists[b + 1..])
  {
    if b > 0 {
      FlattenSplits(lists[1..], b - 1);
      assert lists[..b][1..] == lists[1..][..b - 1];
      assert lists[1..][b..] == lists[b + 1..];
    }
  }

  lemma {:induction false} FlattenHolds<T>(lists: seq<seq<T>>, x: T)
    requires x in Flatten(lists)
    ensures exists i :: 0 <= i < |lists| && x in lists[i]
  {
    if x in lists[0] {
    } else {
      FlattenHolds(lists[1..], x);
      var i :| 0 <= i < |lists[1..]| && x in lists[1..][i];
      assert x in lists[i + 1];
    }
  }

  /** What a merge has yet to emit. */
  ghost function Unread(lists: seq<seq<Row>>, heads: seq<nat>): (r: seq<seq<Row>>)
    requires Within(lists, heads)
    ensures |r| == |lists| && forall i :: 0 <= i < |lists| ==> r[i] == lists[i][heads[i]..]
  {
    seq(|lists|, i requires 0 <= i < |lists| => lists[i][heads[i]..])
  }

  /** The least head, earliest list first among ties, is what sorting all that is left puts first. */
  lemma {:induction false} MergeStep(rest: seq<seq<Row>>, b: nat, order: SortOrder)
    requires b < |rest| && rest[b] != []
    requires forall i :: 0 <= i < |rest| ==> Sorted(RowLeq(order), rest[i])
    requires forall i :: 0 <= i < |rest| && rest[i] != [] ==> RowLeq(order)(rest[b][0], rest[i][0])
    requires forall i :: 0 <= i < b && rest[i] != [] ==> !RowLeq(order)(rest[i][0], rest[b][0])
    ensures Sort(RowLeq(order), Flatten(rest))
            == [rest[b][0]] + Sort(RowLeq(order), Flatten(rest[b := rest[b][1..]]))
  {
    hide Sort, Flatten, RowLeq, Sorted;
    var leq, head := RowLeq(order), rest[b][0];
    RowOrderIsTotal(order);
    var pre, post := Flatten(rest[..b]), Flatten(rest[b + 1..]);
    FlattenSplits(rest, b);
    var next := rest[b := rest[b][1..]];
    FlattenSplits(next, b);
    assert next[..b] == rest[..b] && next[b + 1..] == rest[b + 1..];
    var all := pre + rest[b] + post;
    var k := |pre|;
    assert all[k] == head;
    assert Without(all, k) == pre + rest[b][1..] + post;
    forall j | 0 <= j < |all|
      ensures leq(head, all[j]) && (j < k ==> !leq(all[j], head))
    {
      HeadLeads(rest, b, order, all[j]);
      if j < k { EarlierListsTrail(rest, b, order, all[j]); }
    }
    SortSelects(leq, all, k);
  }

  lemma {:induction false} HeadLeads(rest: seq<seq<Row>>, b: nat, order: SortOrder, x: Row)
    requires b < |rest| && rest[b] != [] && x in Flatten(rest) && TotalPreorder(RowLeq(order))
    requires forall i :: 0 <= i < |rest| ==> Sorted(RowLeq(order), rest[i])
    requires forall i :: 0 <= i < |rest| && rest[i] != [] ==> RowLeq(order)(rest[b][0], rest[i][0])
    ensures RowLeq(order)(rest[b][0], x)
  {
    FlattenHolds(rest, x);
    var i :| 0 <= i < |rest| && x in rest[i];
    var j :| 0 <= j < |rest[i]| && rest[i][j] == x;
    assert j > 0 ==> RowLeq(order)(rest[i][0], x);
  }

  lemma {:induction false} EarlierListsTrail(rest: seq<seq<Row>>, b: nat, order: SortOrder, x: Row)
    requires b < |rest| && rest[b] != [] && x in Flatten(rest[..b]) && TotalPreorder(RowLeq(order))
    requires forall i :: 0 <= i < |rest| ==> Sorted(RowLeq(order), rest[i])
    requires forall i :: 0 <= i < b && rest[i] != [] ==> !RowLeq(order)(rest[i][0], rest[b][0])
    ensures !RowLeq(order)(x, rest[b][0])
  {
    FlattenHolds(rest[..b], x);
    var i :| 0 <= i < |rest[..b]| && x in rest[..b][i];
    var j :| 0 <= j < |rest[i]| && rest[i][j] == x;
    assert j > 0 ==> RowLeq(order)(rest[i][0], x);
  }

  ghost predicate Within(lists: seq<seq<Row>>, heads: seq<nat>) {
    |heads| == |lists| && forall i :: 0 <= i < |lists| ==> heads[i] <= |lists[i]|
  }

  /** `b` is the least unread head, earliest list first among ties. */
  ghost predicate IsBest(lists: seq<seq<Row>>, order: SortOrder, heads: seq<nat>, b: nat)
    requires Within(lists, heads)
  {
    && b < |lists| && heads[b] < |lists[b]|
    && (forall i :: 0 <= i < |lists| && heads[i] < |lists[i]|
          ==> RowLeq(order)(lists[b][heads[b]], lists[i][heads[i]]))
    && (forall i :: 0 <= i < b && heads[i] < |lists[i]|
          ==> !RowLeq(order)(lists[i][heads[i]], lists[b][heads[b]]))
  }

  ghost function Rest(lists: seq<seq<Row>>, order: SortOrder, heads: seq<nat>): seq<Row>
    requires Within(lists, heads)
  {
    Sort(RowLeq(order), Flatten(Unread(lists, heads)))
  }

  lemma Emit(lists: seq<seq<Row>>, order: SortOrder, heads: seq<nat>, b: nat)
    requires forall i :: 0 <= i < |lists| ==> Sorted(RowLeq(order), lists[i])
    requires Within(lists, heads) && IsBest(lists, order, heads, b)
    ensures Within(lists, heads[b := heads[b] + 1])
    ensures Rest(lists, order, heads) == [lists[b][heads[b]]] + Rest(lists, order, heads[b := heads[b] + 1])
  {
    var rest := Unread(lists, heads);
    MergeStep(rest, b, order);
    assert Unread(lists, heads[b := heads[b] + 1]) == rest[b := rest[b][1..]];
  }

  lemma Drained(lists: seq<seq<Row>>, order: SortOrder, heads: seq<nat>)
    requires Within(lists, heads) && forall i :: 0 <= i < |lists| ==> heads[i] == |lists[i]|
    ensures Rest(lists, order, heads) == []
  {
    var rest := Unread(lists, heads);
    if Flatten(rest) != [] { FlattenHolds(rest, Flatten(rest)[0]); }
  }

  /** What is emitted, followed by what is unread in order, is everything in order. */
  ghost predicate Merged(lists: seq<seq<Row>>, order: SortOrder, heads: seq<nat>, out: seq<Row>) {
    Within(lists, heads) && out + Rest(lists, order, heads) == Sort(RowLeq(order), Flatten(lists))
  }

  lemma NoneMerged(lists: seq<seq<Row>>, order: SortOrder, heads: seq<nat>)
    requires |heads| == |lists| && forall i :: 0 <= i < |heads| ==> heads[i] == 0
    ensures Merged(lists, order, heads, [])
  {
    hide Sort, Flatten, RowLeq;
    assert Unread(lists, heads) == lists;
    assert [] + Rest(lists, order, heads) == Rest(lists, order, heads);
  }

  lemma OneMerged(lists: seq<seq<Row>>, order: SortOrder, heads: seq<nat>, out: seq<Row>, b: nat)
    requires forall i :: 0 <= i < |lists| ==> Sorted(RowLeq(order), lists[i])
    requires Merged(lists, order, heads, out) && Within(lists, heads) && IsBest(lists, order, heads, b)
    ensures Merged(lists, order, heads[b := heads[b] + 1], out + [lists[b][heads[b]]])
  {
    hide Rest, Sort, Flatten, RowLeq, Sorted;
    Emit(lists, order, heads, b);
    var later := Rest(lists, order, heads[b := heads[b] + 1]);
    assert out + ([lists[b][heads[b]]] + later) == (out + [lists[b][heads[b]]]) + later;
  }

  lemma {:induction false} AllMerged(lists: seq<seq<Row>>, order: SortOrder, heads: seq<nat>, out: seq<Row>, limit: nat)
    requires Merged(lists, order, heads, out) && |out| <= limit
    requires |out| == limit || forall i :: 0 <= i < |lists| ==> heads[i] == |lists[i]|
    ensures out == Take(Sort(RowLeq(order), Flatten(lists)), limit)
  {
    hide Rest, Sort, Flatten, RowLeq;
    var all := Sort(RowLeq(order), Flatten(lists));
    assert out == all[..|out|];
    if |out| < limit {
      Drained(lists, order, heads);
      assert out + [] == out;
    }
  }

  /** Merging sorted lists is the first `limit` rows of sorting everything they hold. */
  method KwayMerge(lists: seq<seq<Row>>, order: SortOrder, limit: nat) returns (out: seq<Row>)
    requires forall i :: 0 <= i < |lists| ==> Sorted(RowLeq(order), lists[i])
    ensures out == Take(Sort(RowLeq(order), Flatten(lists)), limit)
    ensures InTurn(out, order)
  {
    hide Merged, IsBest, Take, Sorted, InTurn;
    var heads := new nat[|lists|](_ => 0);
    out := [];
    NoneMerged(lists, order, heads[..]);
    while |out| < limit
      invariant |out| <= limit
      invariant Within(lists, heads[..]) && Merged(lists, order, heads[..], out)
      decreases limit - |out|
    {
      ghost var hs := heads[..];
      var best := BestHead(lists, order, heads);
      match best {
        case None => break;
        case Some(i) =>
          BestIsUnread(lists, order, hs, i);
          OneMerged(lists, order, hs, out, i);
          out := out + [lists[i][heads[i]]];
          heads[i] := heads[i] + 1;
          assert heads[..] == hs[i := hs[i] + 1];
      }
    }
    AllMerged(lists, order, heads[..], out, limit);
    TopInTurn(order, Flatten(lists), limit);
  }

  lemma BestIsUnread(lists: seq<seq<Row>>, order: SortOrder, heads: seq<nat>, b: nat)
    requires Within(lists, heads) && IsBest(lists, order, heads, b)
    ensures b < |lists| && heads[b] < |lists[b]| && Within(lists, heads[b := heads[b] + 1])
  {
  }

  /** The choice after looking at the first `n` lists. */
  ghost predicate BestAmong(lists: seq<seq<Row>>, order: SortOrder, heads: seq<nat>, n: nat, best: Option<nat>)
    requires Within(lists, heads) && n <= |lists|
  {
    match best
    case None => forall j :: 0 <= j < n ==> heads[j] == |lists[j]|
    case Some(b) =>
      && b < n && heads[b] < |lists[b]|
      && (forall j :: 0 <= j < n && heads[j] < |lists[j]| ==> RowLeq(order)(lists[b][heads[b]], lists[j][heads[j]]))
      && (forall j :: 0 <= j < b && heads[j] < |lists[j]| ==> !RowLeq(order)(lists[j][heads[j]], lists[b][heads[b]]))
  }

  lemma {:induction false} BestGrows(lists: seq<seq<Row>>, order: SortOrder, heads: seq<nat>, i: nat, best: Option<nat>)
    requires Within(lists, heads) && i < |lists| && BestAmong(lists, order, heads, i, best)
    ensures heads[i] == |lists[i]| ==> BestAmong(lists, order, heads, i + 1, best)
    ensures heads[i] < |lists[i]| && best.None? ==> BestAmong(lists, order, heads, i + 1, Some(i))
    ensures heads[i] < |lists[i]| && best.Some? ==> BestAmong(lists, order, heads, i + 1,
      if CompareRows(lists[i][heads[i]], lists[best.value][heads[best.value]], order) == Less then Some(i) else best)
  {
    hide CompareRows;
    if heads[i] < |lists[i]| {
      var x := lists[i][heads[i]];
      CompareRowsReverses(x, x, order);
      if best.Some? {
        var b := lists[best.value][heads[best.value]];
        CompareRowsReverses(x, b, order);
        forall j | 0 <= j < i && heads[j] < |lists[j]|
          ensures CompareRows(x, b, order) == Less ==> !RowLeq(order)(lists[j][heads[j]], x)
          ensures CompareRows(x, b, order) == Less ==> RowLeq(order)(x, lists[j][heads[j]])
        {
          CompareRowsChains(x, b, lists[j][heads[j]], order);
          CompareRowsReverses(x, lists[j][heads[j]], order);
        }
      }
    }
  }

  method BestHead(lists: seq<seq<Row>>, order: SortOrder, heads: array<nat>) returns (best: Option<nat>)
    requires Within(lists, heads[..])
    ensures best.None? ==> forall i :: 0 <= i < |lists| ==> heads[i] == |lists[i]|
    ensures best.Some? ==> IsBest(lists, order, heads[..], best.value)
  {
    hide CompareRows, RowLeq;
    best := None;
    for i := 0 to |lists|
      invariant BestAmong(lists, order, heads[..], i, best)
    {
      BestGrows(lists, order, heads[..], i, best);
      if heads[i] < |lists[i]| {
        match best {
          case None => best := Some(i);
          case Some(b) =>
            if CompareRows(lists[i][heads[i]], lists[b][heads[b]], order) == Less {
              best := Some(i);
            }
        }
      }
    }
  }
}
