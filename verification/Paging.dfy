/** Sorted pages: what one shard answers, what the router merges, and a whole crawl by cursor
    (src/storage/collection.rs, src/cluster/router.rs, src/api/docs.rs). */
module Paging {
  import opened Orders
  import opened JsonValues
  import opened Sorting
  import opened Rows

  const MAX_QUERY_LIMIT: nat := 10_000

  datatype Page = Page(rows: seq<Row>, more: bool)

  datatype Answer = Answer(rows: seq<Row>, next: Option<Cursor>)

  function Wanted(accept: Row -> bool, order: SortOrder, after: Option<Cursor>): Row -> bool {
    (x: Row) => accept(x) && (after.None? || IsAfter(x, after.value, order))
  }

  /** The first `n` of a sort of two parts need only the first `n` of each part's own sort. */
  lemma TopOfConcat(leq: (Row, Row) -> bool, a: seq<Row>, b: seq<Row>, n: nat)
    requires TotalPreorder(leq)
    ensures Take(Sort(leq, a + b), n) == Take(Sort(leq, Take(Sort(leq, a), n) + Take(Sort(leq, b), n)), n)
  {
    var sa, sb := Sort(leq, a), Sort(leq, b);
    var ta := Take(sa, n);
    SortIsSorted(leq, a);
    SortIsSorted(leq, b);
    assert Sort(leq, a + b) == Sort(leq, sa + b) by {
      SortAbsorbsHead(leq, a, b);
    }
    assert Sort(leq, ta + b) == Sort(leq, ta + sb) by {
      SortAbsorbsSort(leq, ta, b, []);
      assert ta + sb + [] == ta + sb && ta + b + [] == ta + b;
    }
    assert Take(Sort(leq, sa + b), n) == Take(Sort(leq, ta + b), n) by {
      TopNeedsOnlyTop(leq, [], sa, b, n);
      assert [] + sa + b == sa + b && [] + ta + b == ta + b;
    }
    assert Take(Sort(leq, ta + sb), n) == Take(Sort(leq, ta + Take(sb, n)), n) by {
      TopNeedsOnlyTop(leq, ta, sb, [], n);
      assert ta + sb + [] == ta + sb && ta + Take(sb, n) + [] == ta + Take(sb, n);
    }
  }

  /** Sorting and cutting early loses nothing a later cut at the same length would keep. */
  lemma CutIsIdempotent(leq: (Row, Row) -> bool, s: seq<Row>, n: nat)
    requires TotalPreorder(leq)
    ensures Take(Sort(leq, Take(Sort(leq, s), n)), n) == Take(Sort(leq, s), n)
  {
    SortIsSorted(leq, s);
    SortOfSorted(leq, Take(Sort(leq, s), n));
  }

  ghost function Top(order: SortOrder, s: seq<Row>, n: nat): seq<Row> {
    Take(Sort(RowLeq(order), s), n)
  }

  /** A buffer with the right top still has it after one more row, cut or not. */
  lemma PushKeepsTop(order: SortOrder, rows: seq<Row>, seen: seq<Row>, x: Row, n: nat)
    requires Top(order, rows, n) == Top(order, seen, n)
    ensures Top(order, rows + [x], n) == Top(order, seen + [x], n)
    ensures Top(order, Top(order, rows + [x], n), n) == Top(order, seen + [x], n)
  {
    RowOrderIsTotal(order);
    TopOfConcat(RowLeq(order), rows, [x], n);
    TopOfConcat(RowLeq(order), seen, [x], n);
    CutIsIdempotent(RowLeq(order), rows + [x], n);
  }

  lemma FilterSnoc(keep: Row -> bool, docs: seq<Row>, i: nat)
    requires i < |docs|
    ensures Filter(keep, docs[..i + 1]) == Filter(keep, docs[..i]) + if keep(docs[i]) then [docs[i]] else []
  {
    assert docs[..i + 1] == docs[..i] + [docs[i]];
    FilterAppends(keep, docs[..i], [docs[i]]);
  }

  /** One shard's page: a bounded buffer that is sorted and cut whenever it fills. */
  method SortedPage(docs: seq<Row>, accept: Row -> bool, order: SortOrder, after: Option<Cursor>,
                    limit: nat, budget: nat) returns (page: Option<Page>)
    ensures page.None? <==> |docs| > budget
    ensures page.Some? ==>
      var wanted := Filter(Wanted(accept, order, after), docs);
      var keep := if limit < MAX_QUERY_LIMIT then limit else MAX_QUERY_LIMIT;
      page.value == Page(Take(Sort(RowLeq(order), wanted), keep), |wanted| > keep) && InTurn(page.value.rows, order)
  {
    hide InTurn;
    var keep := if limit < MAX_QUERY_LIMIT then limit else MAX_QUERY_LIMIT;
    var spill := if 2 * keep > 1 then 2 * keep else 1;
    var rows: seq<Row> := [];
    var matched := 0;
    ghost var want := Wanted(accept, order, after);
    ghost var seen: seq<Row> := [];
    for i := 0 to |docs|
      invariant i <= budget
      invariant seen == Filter(want, docs[..i]) && matched == |seen|
      invariant Top(order, rows, keep) == Top(order, seen, keep)
    {
      if i >= budget { return None; }
      FilterSnoc(want, docs, i);
      if accept(docs[i]) && (after.None? || IsAfter(docs[i], after.value, order)) {
        PushKeepsTop(order, rows, seen, docs[i], keep);
        matched := matched + 1;
        rows := rows + [docs[i]];
        seen := seen + [docs[i]];
        if |rows| >= spill {
          rows := Take(Sort(RowLeq(order), rows), keep);
        }
      }
    }
    assert docs[..|docs|] == docs;
    TopInTurn(order, rows, keep);
    return Some(Page(Take(Sort(RowLeq(order), rows), keep), matched > keep));
  }

  lemma FlattenAppends(lists: seq<seq<Row>>, last: seq<Row>)
    ensures Flatten(lists + [last]) == Flatten(lists) + last
  {
    FlattenSplits(lists + [last], |lists|);
    assert (lists + [last])[..|lists|] == lists;
    assert (lists + [last])[|lists| + 1..] == [];
  }

  /** The shards heard so far: their lists have the top of what they want, and lose rows only when one
      of them says so. */
  ghost predicate Heard(order: SortOrder, lists: seq<seq<Row>>, seen: seq<Row>, more: bool, n: nat) {
    && (forall j :: 0 <= j < |lists| ==> Sorted(RowLeq(order), lists[j]))
    && Top(order, Flatten(lists), n) == Top(order, seen, n)
    && if more then |seen| > n else |Flatten(lists)| == |seen|
  }

  /** A shard answers with the top of what it wants, so the merge has the top of everything wanted. */
  lemma HearOneMore(order: SortOrder, lists: seq<seq<Row>>, seen: seq<Row>, more: bool, wanted: seq<Row>, n: nat)
    requires Heard(order, lists, seen, more, n)
    ensures Heard(order, lists + [Top(order, wanted, n)], seen + wanted, more || |wanted| > n, n)
    ensures |Flatten(lists + [Top(order, wanted, n)])| == |Flatten(lists)| + |Top(order, wanted, n)|
  {
    var cut := Top(order, wanted, n);
    FlattenAppends(lists, cut);
    TopGrows(order, Flatten(lists), seen, wanted, n);
    assert Sorted(RowLeq(order), cut) by {
      RowOrderIsTotal(order);
      SortIsSorted(RowLeq(order), wanted);
    }
  }

  lemma TopGrows(order: SortOrder, rows: seq<Row>, seen: seq<Row>, wanted: seq<Row>, n: nat)
    requires Top(order, rows, n) == Top(order, seen, n)
    ensures Top(order, rows + Top(order, wanted, n), n) == Top(order, seen + wanted, n)
  {
    RowOrderIsTotal(order);
    TopOfConcat(RowLeq(order), rows, Top(order, wanted, n), n);
    TopOfConcat(RowLeq(order), seen, wanted, n);
    CutIsIdempotent(RowLeq(order), wanted, n);
  }

  lemma FilterNextShard(keep: Row -> bool, shards: seq<seq<Row>>, i: nat)
    requires i < |shards|
    ensures Filter(keep, Flatten(shards[..i + 1])) == Filter(keep, Flatten(shards[..i])) + Filter(keep, shards[i])
  {
    assert shards[..i + 1] == shards[..i] + [shards[i]];
    FlattenAppends(shards[..i], shards[i]);
    FilterAppends(keep, Flatten(shards[..i]), shards[i]);
  }

  lemma NothingHeard(order: SortOrder, keep: Row -> bool, shards: seq<seq<Row>>, n: nat)
    ensures Heard(order, [], [], false, n) && Filter(keep, Flatten(shards[..0])) == [] && |Flatten<Row>([])| == 0
  {
  }

  lemma AllHeard(order: SortOrder, lists: seq<seq<Row>>, seen: seq<Row>, more: bool, n: nat)
    requires Heard(order, lists, seen, more, n)
    ensures forall j :: 0 <= j < |lists| ==> Sorted(RowLeq(order), lists[j])
    ensures Take(Sort(RowLeq(order), Flatten(lists)), n) == Take(Sort(RowLeq(order), seen), n)
    ensures if more then |seen| > n else |Flatten(lists)| == |seen|
  {
  }

  ghost predicate WithinBudget(shards: seq<seq<Row>>, n: nat, budget: nat)
    requires n <= |shards|
  {
    forall j :: 0 <= j < n ==> |shards[j]| <= budget
  }

  /** The router's sorted page is the first `limit` rows, in the one global order, of everything wanted
      on any shard, and it names a next cursor exactly when rows are left. */
  method RouterPage(shards: seq<seq<Row>>, accept: Row -> bool, order: SortOrder, after: Option<Cursor>,
                    limit: nat, budget: nat) returns (r: Option<Answer>)
    requires 1 <= limit <= MAX_QUERY_LIMIT
    ensures r.None? <==> exists i :: 0 <= i < |shards| && |shards[i]| > budget
    ensures r.Some? ==>
      var wanted := Filter(Wanted(accept, order, after), Flatten(shards));
      && r.value.rows == Take(Sort(RowLeq(order), wanted), limit)
      && (r.value.next.Some? <==> |wanted| > limit)
      && (r.value.next.Some? ==> r.value.next.value == CursorAt(r.value.rows[limit - 1], order))
      && InTurn(r.value.rows, order)
  {
    hide Heard, Flatten, Sort;
    ghost var want := Wanted(accept, order, after);
    var lists: seq<seq<Row>> := [];
    var received := 0;
    var shardHasMore := false;
    ghost var seen: seq<Row> := [];
    NothingHeard(order, want, shards, limit);
    for i := 0 to |shards|
      invariant WithinBudget(shards, i, budget)
      invariant seen == Filter(want, Flatten(shards[..i]))
      invariant Heard(order, lists, seen, shardHasMore, limit) && received == |Flatten(lists)|
    {
      var page := SortedPage(shards[i], accept, order, after, limit, budget);
      if page.None? { return None; }
      assert WithinBudget(shards, i + 1, budget);
      HearOneMore(order, lists, seen, shardHasMore, Filter(want, shards[i]), limit);
      FilterNextShard(want, shards, i);
      seen := seen + Filter(want, shards[i]);
      shardHasMore := shardHasMore || page.value.more;
      received := received + |page.value.rows|;
      lists := lists + [page.value.rows];
    }
    assert shards[..|shards|] == shards;
    AllHeard(order, lists, seen, shardHasMore, limit);
    var merged := KwayMerge(lists, order, limit);
    var next := None;
    if |merged| > 0 && (shardHasMore || received > |merged|) {
      next := Some(CursorAt(merged[|merged| - 1], order));
    }
    return Some(Answer(merged, next));
  }

  ghost predicate DistinctKeys(rows: seq<Row>) {
    forall i, j :: 0 <= i < j < |rows| ==> rows[i].key != rows[j].key
  }

  lemma {:induction false} InsertKeepsDistinct(leq: (Row, Row) -> bool, x: Row, s: seq<Row>)
    requires DistinctKeys(s) && forall y :: y in s ==> y.key != x.key
    ensures DistinctKeys(Insert(leq, x, s))
  {
    if s != [] && !leq(x, s[0]) {
      InsertKeepsDistinct(leq, x, s[1..]);
      InsertPermutes(leq, x, s[1..]);
      SameElements(Insert(leq, x, s[1..]), [x] + s[1..]);
      forall y | y in Insert(leq, x, s[1..])
        ensures y.key != s[0].key
      {
        assert y in [x] + s[1..];
      }
    }
  }

  lemma {:induction false} SortKeepsDistinct(leq: (Row, Row) -> bool, s: seq<Row>)
    requires DistinctKeys(s)
    ensures DistinctKeys(Sort(leq, s))
  {
    if s != [] {
      SortKeepsDistinct(leq, s[1..]);
      SortPermutes(leq, s[1..]);
      InsertKeepsDistinct(leq, s[0], Sort(leq, s[1..]));
    }
  }

  lemma {:induction false} FilterKeepsDistinct(keep: Row -> bool, s: seq<Row>)
    requires DistinctKeys(s)
    ensures DistinctKeys(Filter(keep, s)) && forall x :: x in Filter(keep, s) ==> x in s
  {
    if s != [] {
      FilterKeepsDistinct(keep, s[1..]);
      var rest := Filter(keep, s[1..]);
      forall i | 0 <= i < |rest|
        ensures rest[i].key != s[0].key
      {
        assert rest[i] in s[1..];
      }
    }
  }

  lemma {:induction false} FilterSuffix(keep: Row -> bool, s: seq<Row>, k: nat)
    requires k <= |s|
    requires forall j :: 0 <= j < k ==> !keep(s[j])
    requires forall j :: k <= j < |s| ==> keep(s[j])
    ensures Filter(keep, s) == s[k..]
  {
    if s != [] {
      FilterSuffix(keep, s[1..], if k == 0 then 0 else k - 1);
    }
  }

  lemma {:induction false} FilterTwice(a: Row -> bool, b: Row -> bool, both: Row -> bool, s: seq<Row>)
    requires forall x :: both(x) == (a(x) && b(x))
    ensures Filter(both, s) == Filter(b, Filter(a, s))
  {
    if s != [] { FilterTwice(a, b, both, s[1..]); }
  }

  /** Resuming after the `k`-th row of the whole order wants exactly the rows from there on. */
  lemma ResumeWantsTheRest(rows: seq<Row>, accept: Row -> bool, order: SortOrder, k: nat)
    requires DistinctKeys(rows)
    requires 0 < k <= |Filter(accept, rows)|
    ensures var all := Sort(RowLeq(order), Filter(accept, rows));
            var wanted := Filter(Wanted(accept, order, Some(CursorAt(all[k - 1], order))), rows);
            Sort(RowLeq(order), wanted) == all[k..]
  {
    var leq, accepted := RowLeq(order), Filter(accept, rows);
    var all := Sort(leq, accepted);
    var at := CursorAt(all[k - 1], order);
    var later := (x: Row) => IsAfter(x, at, order);
    RowOrderIsTotal(order);
    SortIsSorted(leq, accepted);
    FilterKeepsDistinct(accept, rows);
    SortKeepsDistinct(leq, accepted);
    forall j | 0 <= j < |all|
      ensures later(all[j]) <==> j >= k
    {
      CursorAdmitsLaterRows(all[j], all[k - 1], order);
      CompareRowsReverses(all[j], all[k - 1], order);
      assert j < k - 1 ==> leq(all[j], all[k - 1]);
      assert k - 1 < j ==> leq(all[k - 1], all[j]);
    }
    FilterSuffix(later, all, k);
    FilterSort(leq, later, accepted);
    FilterTwice(accept, later, Wanted(accept, order, Some(at)), rows);
  }

  /** The pages so far are full and hold the first `k` rows of the whole order. */
  ghost predicate Crawled(all: seq<Row>, pages: seq<seq<Row>>, k: nat, limit: nat) {
    k <= |all| && Flatten(pages) == all[..k] && forall i :: 0 <= i < |pages| ==> |pages[i]| == limit
  }

  lemma LastPage(all: seq<Row>, pages: seq<seq<Row>>, k: nat, limit: nat, rows: seq<Row>)
    requires Crawled(all, pages, k, limit) && rows == Take(all[k..], limit) && |all[k..]| <= limit
    ensures Flatten(pages + [rows]) == all
    ensures forall i :: 0 <= i < |pages + [rows]| - 1 ==> |(pages + [rows])[i]| == limit
  {
    hide Flatten;
    FlattenAppends(pages, rows);
    assert all[..k] + all[k..] == all;
  }

  lemma FullPage(all: seq<Row>, pages: seq<seq<Row>>, k: nat, limit: nat, rows: seq<Row>)
    requires Crawled(all, pages, k, limit) && rows == Take(all[k..], limit) && |all[k..]| > limit > 0
    ensures Crawled(all, pages + [rows], k + limit, limit) && rows[limit - 1] == all[k + limit - 1]
  {
    hide Flatten;
    FlattenAppends(pages, rows);
    assert all[..k] + all[k..][..limit] == all[..k + limit];
  }

  lemma NothingCrawled(shards: seq<seq<Row>>, accept: Row -> bool, order: SortOrder, limit: nat)
    ensures var all := Sort(RowLeq(order), Filter(accept, Flatten(shards)));
      && Crawled(all, [], 0, limit) && all[0..] == all
      && Sort(RowLeq(order), Filter(Wanted(accept, order, None), Flatten(shards))) == all
  {
    FilterTwice(accept, _ => true, Wanted(accept, order, None), Flatten(shards));
    FilterAll(Filter(accept, Flatten(shards)));
  }

  /** The whole order has every accepted row once, each before those behind it. */
  lemma WholeOrder(rows: seq<Row>, accept: Row -> bool, order: SortOrder)
    requires DistinctKeys(rows)
    ensures var all := Sort(RowLeq(order), Filter(accept, rows));
      && (forall x :: x in all <==> x in rows && accept(x))
      && forall i, j :: 0 <= i < j < |all| ==> all[i].key != all[j].key && ComesBefore(all[i], all[j], order)
  {
    hide ComesBefore, CompareRows;
    var accepted := Filter(accept, rows);
    var all := Sort(RowLeq(order), accepted);
    RowOrderIsTotal(order);
    SortIsSorted(RowLeq(order), accepted);
    SortPermutes(RowLeq(order), accepted);
    FilterKeepsDistinct(accept, rows);
    SortKeepsDistinct(RowLeq(order), accepted);
    FilterHasRows(accept, rows);
    forall i, j | 0 <= i < j < |all|
      ensures ComesBefore(all[i], all[j], order)
    {
      RowsComeBeforeIff(all[i], all[j], order);
      CompareRowsReverses(all[i], all[j], order);
      assert RowLeq(order)(all[i], all[j]);
    }
  }

  lemma {:induction false} FilterHasRows(keep: Row -> bool, s: seq<Row>)
    ensures forall x :: x in Filter(keep, s) <==> x in s && keep(x)
  {
    if s != [] { FilterHasRows(keep, s[1..]); }
  }

  /** Following the cursor to the end visits every accepted row exactly once, in the one global order,
      and always gets there. */
  method Crawl(shards: seq<seq<Row>>, accept: Row -> bool, order: SortOrder, limit: nat, budget: nat)
    returns (r: Option<seq<seq<Row>>>)
    requires 1 <= limit <= MAX_QUERY_LIMIT
    requires DistinctKeys(Flatten(shards))
    ensures r.None? <==> exists i :: 0 <= i < |shards| && |shards[i]| > budget
    ensures r.Some? ==> Flatten(r.value) == Sort(RowLeq(order), Filter(accept, Flatten(shards)))
    ensures r.Some? ==> forall i :: 0 <= i < |r.value| - 1 ==> |r.value[i]| == limit
    ensures r.Some? ==>
      var all := Flatten(r.value);
      && (forall x :: x in all <==> x in Flatten(shards) && accept(x))
      && forall i, j :: 0 <= i < j < |all| ==> all[i].key != all[j].key && ComesBefore(all[i], all[j], order)
  {
    hide Sort, Filter, Wanted, RowLeq, DistinctKeys, Flatten, Crawled, Take, ComesBefore;
    WholeOrder(Flatten(shards), accept, order);
    var pages: seq<seq<Row>> := [];
    var after: Option<Cursor> := None;
    ghost var all := Sort(RowLeq(order), Filter(accept, Flatten(shards)));
    ghost var k := 0;
    NothingCrawled(shards, accept, order, limit);
    while true
      invariant k <= |all| && Crawled(all, pages, k, limit)
      invariant Sort(RowLeq(order), Filter(Wanted(accept, order, after), Flatten(shards))) == all[k..]
      decreases |all| - k
    {
      var answer := RouterPage(shards, accept, order, after, limit, budget);
      if answer.None? { return None; }
      if answer.value.next.None? {
        LastPage(all, pages, k, limit, answer.value.rows);
        return Some(pages + [answer.value.rows]);
      }
      FullPage(all, pages, k, limit, answer.value.rows);
      pages := pages + [answer.value.rows];
      k := k + limit;
      ResumeWantsTheRest(Flatten(shards), accept, order, k);
      after := answer.value.next;
    }
  }

  lemma {:induction false} FilterAll(s: seq<Row>)
    ensures Filter(_ => true, s) == s
  {
    if s != [] { FilterAll(s[1..]); }
  }
}
