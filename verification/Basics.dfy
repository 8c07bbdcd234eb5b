/** Three-way comparison, as the sort, merge and tie-break code uses it. */
module Orders {
  datatype Ordering = Less | Equal | Greater {
    function Reverse(): Ordering {
      match this
      case Less => Greater
      case Equal => Equal
      case Greater => Less
    }

    /** The other comparison decides only where this one ties. */
    function Then(next: Ordering): Ordering {
      if Equal? then next else this
    }
  }

  /** What transitivity demands of `ac` once `ab` and `bc` are known. */
  predicate Chained(ab: Ordering, bc: Ordering, ac: Ordering) {
    && (ab.Equal? ==> ac == bc)
    && (bc.Equal? ==> ac == ab)
    && (ab == bc ==> ac == ab)
  }

  function CompareInt(a: int, b: int): Ordering {
    if a < b then Less else if a == b then Equal else Greater
  }

  function CompareReal(a: real, b: real): Ordering {
    if a < b then Less else if a == b then Equal else Greater
  }

  /** Lexicographic, by character; a proper prefix sorts first. */
  function CompareText(a: string, b: string): Ordering {
    if a == [] && b == [] then Equal
    else if a == [] then Less
    else if b == [] then Greater
    else CompareInt(a[0] as int, b[0] as int).Then(CompareText(a[1..], b[1..]))
  }

  /** The first differing character decides, the smaller one first, and a proper prefix comes first. */
  lemma {:induction false} FirstDifferenceDecides(a: string, b: string, i: nat)
    requires i <= |a| && i <= |b| && a[..i] == b[..i]
    ensures i < |a| && i < |b| && a[i] < b[i] ==> CompareText(a, b) == Less
    ensures i < |a| && i < |b| && a[i] > b[i] ==> CompareText(a, b) == Greater
    ensures i == |a| < |b| ==> CompareText(a, b) == Less
    ensures i == |b| < |a| ==> CompareText(a, b) == Greater
    ensures i == |a| == |b| ==> CompareText(a, b) == Equal
  {
    if i > 0 {
      assert a[0] == a[..i][0] == b[..i][0] == b[0];
      assert a[1..][..i - 1] == a[..i][1..] && b[1..][..i - 1] == b[..i][1..];
      FirstDifferenceDecides(a[1..], b[1..], i - 1);
    }
  }

  lemma {:induction false} CompareTextLaws(a: string, b: string)
    ensures CompareText(a, b) == CompareText(b, a).Reverse()
    ensures CompareText(a, b) == Equal <==> a == b
  {
    if a != [] && b != [] {
      CompareTextLaws(a[1..], b[1..]);
      assert a == [a[0]] + a[1..] && b == [b[0]] + b[1..];
    }
  }

  lemma {:induction false} CompareTextChains(a: string, b: string, c: string)
    ensures Chained(CompareText(a, b), CompareText(b, c), CompareText(a, c))
  {
    if a != [] && b != [] && c != [] {
      CompareTextChains(a[1..], b[1..], c[1..]);
    }
  }
}

/** A value or the reason there is none. */
module Results {
  datatype Result<+T, +E> = Ok(value: T) | Err(error: E) {
    predicate IsFailure() {
      Err?
    }

    function PropagateFailure<U>(): Result<U, E>
      requires Err?
    {
      Err(error)
    }

    function Extract(): T
      requires Ok?
    {
      value
    }
  }
}

/** Sums over the values of a map. */
module Sums {
  ghost function SumBy<K(!new), V>(m: map<K, V>, f: V -> nat): nat
    decreases |m|
  {
    if m == map[] then 0
    else
      var k :| k in m;
      f(m[k]) + SumBy(m - {k}, f)
  }

  /** The sum does not depend on which entry is taken first. */
  lemma {:induction false} SumPeels<K(!new), V>(m: map<K, V>, f: V -> nat, k: K)
    requires k in m
    ensures SumBy(m, f) == f(m[k]) + SumBy(m - {k}, f)
    decreases |m|
  {
    var j :| j in m && SumBy(m, f) == f(m[j]) + SumBy(m - {j}, f);
    if j != k {
      SumPeels(m - {j}, f, k);
      SumPeels(m - {k}, f, j);
      assert m - {j} - {k} == m - {k} - {j};
    }
  }

  lemma SumPuts<K(!new), V>(m: map<K, V>, f: V -> nat, k: K, v: V)
    ensures SumBy(m[k := v], f) == SumBy(m, f) - (if k in m then f(m[k]) else 0) + f(v)
  {
    SumPeels(m[k := v], f, k);
    if k in m {
      SumPeels(m, f, k);
      assert m[k := v] - {k} == m - {k};
    } else {
      assert m[k := v] - {k} == m;
    }
  }

  /** A positive sum has a positive entry. */
  lemma {:induction false} SumHasEntry<K(!new), V>(m: map<K, V>, f: V -> nat)
    requires SumBy(m, f) > 0
    ensures exists k :: k in m && f(m[k]) > 0
    decreases |m|
  {
    var k :| k in m && SumBy(m, f) == f(m[k]) + SumBy(m - {k}, f);
    if f(m[k]) == 0 {
      SumHasEntry(m - {k}, f);
      var j :| j in m - {k} && f((m - {k})[j]) > 0;
      assert j in m && f(m[j]) > 0;
    }
  }
}

/** Stable sorting as `sort_by` promises it, and the laws the merge and paging proofs rest on. */
module Sorting {
  ghost predicate Total<T(!new)>(leq: (T, T) -> bool) {
    forall x, y :: leq(x, y) || leq(y, x)
  }

  ghost predicate Transitive<T(!new)>(leq: (T, T) -> bool) {
    forall x, y, z :: leq(x, y) && leq(y, z) ==> leq(x, z)
  }

  ghost predicate TotalPreorder<T(!new)>(leq: (T, T) -> bool) {
    Total(leq) && Transitive(leq)
  }

  ghost predicate Sorted<T>(leq: (T, T) -> bool, s: seq<T>) {
    forall i, j :: 0 <= i < j < |s| ==> leq(s[i], s[j])
  }

  /** No two different elements of `s` tie. */
  ghost predicate Antisymmetric<T>(leq: (T, T) -> bool, s: seq<T>) {
    forall x, y :: x in s && y in s && leq(x, y) && leq(y, x) ==> x == y
  }

  /** Ahead of everything it does not exceed, so an earlier element stays ahead of its ties. */
  function Insert<T>(leq: (T, T) -> bool, x: T, s: seq<T>): (r: seq<T>)
    ensures |r| == |s| + 1
  {
    if s == [] || leq(x, s[0]) then [x] + s else [s[0]] + Insert(leq, x, s[1..])
  }

  function Sort<T>(leq: (T, T) -> bool, s: seq<T>): (r: seq<T>)
    ensures |r| == |s|
  {
    if s == [] then [] else Insert(leq, s[0], Sort(leq, s[1..]))
  }

  function Take<T>(s: seq<T>, n: nat): seq<T> {
    if n < |s| then s[..n] else s
  }

  function Without<T>(s: seq<T>, k: nat): seq<T>
    requires k < |s|
  {
    s[..k] + s[k + 1..]
  }

  lemma {:induction false} InsertPermutes<T>(leq: (T, T) -> bool, x: T, s: seq<T>)
    ensures multiset(Insert(leq, x, s)) == multiset{x} + multiset(s)
  {
    if s != [] && !leq(x, s[0]) {
      InsertPermutes(leq, x, s[1..]);
      assert s == [s[0]] + s[1..];
    }
  }

  lemma {:induction false} SortPermutes<T(!new)>(leq: (T, T) -> bool, s: seq<T>)
    ensures multiset(Sort(leq, s)) == multiset(s)
    ensures forall x :: x in Sort(leq, s) <==> x in s
  {
    if s != [] {
      SortPermutes(leq, s[1..]);
      InsertPermutes(leq, s[0], Sort(leq, s[1..]));
      assert s == [s[0]] + s[1..];
    }
    SameElements(Sort(leq, s), s);
  }

  lemma SameElements<T(!new)>(a: seq<T>, b: seq<T>)
    requires multiset(a) == multiset(b)
    ensures forall x :: x in a <==> x in b
  {
    forall x
      ensures x in a <==> x in b
    {
      assert x in a <==> x in multiset(a);
      assert x in b <==> x in multiset(b);
    }
  }

  lemma {:induction false} InsertIsSorted<T(!new)>(leq: (T, T) -> bool, x: T, s: seq<T>)
    requires TotalPreorder(leq) && Sorted(leq, s)
    ensures Sorted(leq, Insert(leq, x, s))
  {
    if s != [] && !leq(x, s[0]) {
      InsertIsSorted(leq, x, s[1..]);
      var rest := Insert(leq, x, s[1..]);
      InsertPermutes(leq, x, s[1..]);
      SameElements(rest, [x] + s[1..]);
      forall j | 0 <= j < |rest|
        ensures leq(s[0], rest[j])
      {
        assert rest[j] in [x] + s[1..];
      }
    }
  }

  lemma {:induction false} SortIsSorted<T(!new)>(leq: (T, T) -> bool, s: seq<T>)
    requires TotalPreorder(leq)
    ensures Sorted(leq, Sort(leq, s))
  {
    if s != [] {
      SortIsSorted(leq, s[1..]);
      InsertIsSorted(leq, s[0], Sort(leq, s[1..]));
    }
  }

  /** A sorted arrangement is unique where nothing ties. */
  lemma {:induction false} SortedIsUnique<T(!new)>(leq: (T, T) -> bool, a: seq<T>, b: seq<T>)
    requires TotalPreorder(leq) && Antisymmetric(leq, a)
    requires Sorted(leq, a) && Sorted(leq, b) && multiset(a) == multiset(b)
    ensures a == b
  {
    SameElements(a, b);
    if a == [] {
      assert |multiset(b)| == 0;
    } else {
      assert a[0] in b && b[0] in a;
      assert leq(a[0], b[0]) && leq(b[0], a[0]);
      TailsMatch(a, b);
      SortedIsUnique(leq, a[1..], b[1..]);
      assert a == [a[0]] + a[1..] && b == [b[0]] + b[1..];
    }
  }

  lemma TailsMatch<T>(a: seq<T>, b: seq<T>)
    requires a != [] && b != [] && a[0] == b[0] && multiset(a) == multiset(b)
    ensures multiset(a[1..]) == multiset(b[1..])
  {
    assert a == [a[0]] + a[1..] && b == [b[0]] + b[1..];
    assert multiset(a[1..]) == multiset(a) - multiset{a[0]};
    assert multiset(b[1..]) == multiset(b) - multiset{a[0]};
  }

  ghost predicate IsFirstLeast<T>(leq: (T, T) -> bool, s: seq<T>, k: nat) {
    && k < |s|
    && (forall j :: 0 <= j < |s| ==> leq(s[k], s[j]))
    && (forall j :: 0 <= j < k ==> !leq(s[j], s[k]))
  }

  lemma SortLeads<T(!new)>(leq: (T, T) -> bool, x: T, s: seq<T>)
    requires forall y :: y in s ==> leq(x, y)
    ensures Insert(leq, x, Sort(leq, s)) == [x] + Sort(leq, s)
  {
    SortPermutes(leq, s);
    var sorted := Sort(leq, s);
    assert sorted != [] ==> sorted[0] in sorted;
  }

  /** The first least element comes out first; the rest sorts as it would alone. */
  lemma {:induction false} SortSelects<T(!new)>(leq: (T, T) -> bool, s: seq<T>, k: nat)
    requires IsFirstLeast(leq, s, k)
    ensures Sort(leq, s) == [s[k]] + Sort(leq, Without(s, k))
  {
    var x, rest := s[0], s[1..];
    if k == 0 {
      assert Without(s, 0) == rest;
      SortLeads(leq, x, rest);
    } else {
      var left := Without(rest, k - 1);
      SortSelects(leq, rest, k - 1);
      assert Without(s, k)[0] == x && Without(s, k)[1..] == left;
      assert Sort(leq, Without(s, k)) == Insert(leq, x, Sort(leq, left));
      InsertPast(leq, x, s[k], Sort(leq, left));
    }
  }

  lemma InsertPast<T>(leq: (T, T) -> bool, x: T, y: T, s: seq<T>)
    requires !leq(x, y)
    ensures Insert(leq, x, [y] + s) == [y] + Insert(leq, x, s)
  {
    assert ([y] + s)[1..] == s;
  }

  /** A non-empty sequence has a first least element. */
  lemma FirstLeast<T(!new)>(leq: (T, T) -> bool, s: seq<T>) returns (k: nat)
    requires TotalPreorder(leq) && s != []
    ensures IsFirstLeast(leq, s, k)
  {
    k := 0;
    var i := 1;
    while i < |s|
      invariant 1 <= i <= |s| && k < i
      invariant forall j :: 0 <= j < i ==> leq(s[k], s[j])
      invariant forall j :: 0 <= j < k ==> !leq(s[j], s[k])
    {
      if !leq(s[k], s[i]) { k := i; }
      i := i + 1;
    }
  }

  lemma {:induction false} InsertsCommute<T(!new)>(leq: (T, T) -> bool, x: T, y: T, s: seq<T>)
    requires TotalPreorder(leq) && !leq(x, y)
    ensures Insert(leq, x, Insert(leq, y, s)) == Insert(leq, y, Insert(leq, x, s))
  {
    if s != [] {
      InsertsCommute(leq, x, y, s[1..]);
    }
  }

  lemma {:induction false} InsertThenSort<T(!new)>(leq: (T, T) -> bool, x: T, a: seq<T>, q: seq<T>)
    requires TotalPreorder(leq)
    ensures Sort(leq, Insert(leq, x, a) + q) == Insert(leq, x, Sort(leq, a + q))
  {
    var inserted := Insert(leq, x, a) + q;
    if a == [] || leq(x, a[0]) {
      assert inserted == [x] + (a + q);
    } else {
      assert inserted == [a[0]] + (Insert(leq, x, a[1..]) + q);
      assert a + q == [a[0]] + (a[1..] + q);
      InsertThenSort(leq, x, a[1..], q);
      InsertsCommute(leq, x, a[0], Sort(leq, a[1..] + q));
    }
  }

  lemma {:induction false} SortUnderPrefix<T>(leq: (T, T) -> bool, p: seq<T>, a: seq<T>, b: seq<T>)
    requires Sort(leq, a) == Sort(leq, b)
    ensures Sort(leq, p + a) == Sort(leq, p + b)
  {
    if p == [] {
      assert p + a == a && p + b == b;
    } else {
      SortUnderPrefix(leq, p[1..], a, b);
      assert (p + a)[1..] == p[1..] + a && (p + b)[1..] == p[1..] + b;
    }
  }

  lemma {:induction false} SortAbsorbsHead<T(!new)>(leq: (T, T) -> bool, a: seq<T>, q: seq<T>)
    requires TotalPreorder(leq)
    ensures Sort(leq, Sort(leq, a) + q) == Sort(leq, a + q)
  {
    if a != [] {
      InsertThenSort(leq, a[0], Sort(leq, a[1..]), q);
      SortAbsorbsHead(leq, a[1..], q);
      assert (a + q)[1..] == a[1..] + q;
    }
  }

  /** Sorting part of the input beforehand changes nothing. */
  lemma SortAbsorbsSort<T(!new)>(leq: (T, T) -> bool, p: seq<T>, a: seq<T>, q: seq<T>)
    requires TotalPreorder(leq)
    ensures Sort(leq, p + Sort(leq, a) + q) == Sort(leq, p + a + q)
  {
    SortAbsorbsHead(leq, a, q);
    SortUnderPrefix(leq, p, Sort(leq, a) + q, a + q);
    assert p + Sort(leq, a) + q == p + (Sort(leq, a) + q);
    assert p + a + q == p + (a + q);
  }

  lemma {:induction false} SortOfSorted<T(!new)>(leq: (T, T) -> bool, s: seq<T>)
    requires TotalPreorder(leq) && Sorted(leq, s)
    ensures Sort(leq, s) == s
  {
    if s != [] {
      SortOfSorted(leq, s[1..]);
    }
  }

  /** Where index `k` of `p + a[..n] + q` sits in `p + a + q`. */
  function Uncut(p: nat, a: nat, n: nat, k: nat): nat
    requires n <= a
  {
    if k < p + n then k else k + a - n
  }

  lemma CutKeepsFirstLeast<T(!new)>(leq: (T, T) -> bool, p: seq<T>, a: seq<T>, q: seq<T>, n: nat, k: nat)
    requires TotalPreorder(leq) && Sorted(leq, a) && 0 < n < |a|
    requires IsFirstLeast(leq, p + a[..n] + q, k)
    ensures IsFirstLeast(leq, p + a + q, Uncut(|p|, |a|, n, k))
    ensures (p + a + q)[Uncut(|p|, |a|, n, k)] == (p + a[..n] + q)[k]
  {
    var whole, cut, at := p + a + q, p + a[..n] + q, Uncut(|p|, |a|, n, k);
    assert cut[|p| + n - 1] == a[n - 1];
    forall j | 0 <= j < |whole|
      ensures leq(cut[k], whole[j]) && (j < at ==> !leq(whole[j], cut[k]))
    {
      if j < |p| + n {
        assert whole[j] == cut[j];
      } else if j < |p| + |a| {
        assert whole[j] == a[j - |p|];
        assert leq(a[n - 1], whole[j]);
      } else {
        assert whole[j] == cut[j - |a| + n];
      }
    }
  }

  /** Dropping one element of three pieces in a row drops it from its own piece. */
  lemma WithoutOfPieces<T>(p: seq<T>, a: seq<T>, q: seq<T>, k: nat)
    requires k < |p| + |a| + |q|
    ensures k < |p| ==> Without(p + a + q, k) == Without(p, k) + a + q
    ensures |p| <= k < |p| + |a| ==> Without(p + a + q, k) == p + Without(a, k - |p|) + q
    ensures |p| + |a| <= k ==> Without(p + a + q, k) == p + a + Without(q, k - |p| - |a|)
  {
    var s := p + a + q;
    if k < |p| {
      assert s[..k] == p[..k] && s[k + 1..] == p[k + 1..] + a + q;
      assert p[..k] + (p[k + 1..] + a + q) == p[..k] + p[k + 1..] + a + q;
    } else if k < |p| + |a| {
      var i := k - |p|;
      assert s[..k] == p + a[..i] && s[k + 1..] == a[i + 1..] + q;
      assert (p + a[..i]) + (a[i + 1..] + q) == p + (a[..i] + a[i + 1..]) + q;
    } else {
      var i := k - |p| - |a|;
      assert s[..k] == p + a + q[..i] && s[k + 1..] == q[i + 1..];
      assert (p + a + q[..i]) + q[i + 1..] == p + a + (q[..i] + q[i + 1..]);
    }
  }

  lemma CutWithout<T>(p: seq<T>, a: seq<T>, q: seq<T>, n: nat, k: nat) returns (p': seq<T>, a': seq<T>, q': seq<T>)
    requires 0 < n < |a| && k < |p| + n + |q|
    ensures Without(p + a + q, Uncut(|p|, |a|, n, k)) == p' + a' + q'
    ensures a' == a || (|p| <= k < |p| + n && a' == Without(a, k - |p|))
    ensures a' == a ==> Without(p + a[..n] + q, k) == p' + a[..n] + q'
    ensures a' != a ==> Without(p + a[..n] + q, k) == p' + a'[..n - 1] + q'
  {
    p', a', q' := p, a, q;
    WithoutOfPieces(p, a, q, Uncut(|p|, |a|, n, k));
    WithoutOfPieces(p, a[..n], q, k);
    if k < |p| {
      p' := Without(p, k);
    } else if k < |p| + n {
      var i := k - |p|;
      a' := Without(a, i);
      assert Without(a[..n], i) == a'[..n - 1];
      assert |a'| != |a|;
    } else {
      q' := Without(q, k - |p| - n);
    }
  }

  lemma WithoutIsSorted<T>(leq: (T, T) -> bool, s: seq<T>, k: nat)
    requires Sorted(leq, s) && k < |s|
    ensures Sorted(leq, Without(s, k))
  {
  }

  lemma CutIsSorted<T>(leq: (T, T) -> bool, s: seq<T>, n: nat)
    requires Sorted(leq, s) && n <= |s|
    ensures Sorted(leq, s[..n])
  {
  }

  lemma {:induction false} TopNeedsOnlyTop<T(!new)>(leq: (T, T) -> bool, p: seq<T>, a: seq<T>, q: seq<T>, n: nat)
    requires TotalPreorder(leq) && Sorted(leq, a)
    ensures Take(Sort(leq, p + a + q), n) == Take(Sort(leq, p + Take(a, n) + q), n)
    decreases n, 1
  {
    if n == 0 || |a| <= n { return; }
    hide Sort, IsFirstLeast, Sorted, TotalPreorder, Without;
    var whole, cut := p + a + q, p + a[..n] + q;
    var k := FirstLeast(leq, cut);
    assert k < |cut| by { FirstIsWithin(leq, cut, k); }
    var at := Uncut(|p|, |a|, n, k);
    CutKeepsFirstLeast(leq, p, a, q, n, k);
    SortSelects(leq, cut, k);
    SortSelects(leq, whole, at);
    TopOfTheOthers(leq, p, a, q, n, k);
    TakeCons(cut[k], Sort(leq, Without(whole, at)), Sort(leq, Without(cut, k)), n);
  }

  lemma FirstIsWithin<T>(leq: (T, T) -> bool, s: seq<T>, k: nat)
    requires IsFirstLeast(leq, s, k)
    ensures k < |s|
  {
  }

  lemma {:induction false} TopOfTheOthers<T(!new)>(leq: (T, T) -> bool, p: seq<T>, a: seq<T>, q: seq<T>, n: nat, k: nat)
    requires TotalPreorder(leq) && Sorted(leq, a) && 0 < n < |a| && k < |p| + n + |q|
    ensures Take(Sort(leq, Without(p + a + q, Uncut(|p|, |a|, n, k))), n - 1)
            == Take(Sort(leq, Without(p + a[..n] + q, k)), n - 1)
    decreases n, 0
  {
    hide Sort, Sorted, TotalPreorder;
    var p', a', q' := CutWithout(p, a, q, n, k);
    if a' == a {
      TopNeedsOnlyTop(leq, p', a, q', n - 1);
      CutIsSorted(leq, a, n);
      TopNeedsOnlyTop(leq, p', a[..n], q', n - 1);
      assert a[..n][..n - 1] == a[..n - 1];
    } else {
      WithoutIsSorted(leq, a, k - |p|);
      TopNeedsOnlyTop(leq, p', a', q', n - 1);
    }
  }

  lemma TakeCons<T>(x: T, a: seq<T>, b: seq<T>, n: nat)
    requires 0 < n && Take(a, n - 1) == Take(b, n - 1)
    ensures Take([x] + a, n) == Take([x] + b, n)
  {
    assert Take([x] + a, n) == [x] + Take(a, n - 1);
    assert Take([x] + b, n) == [x] + Take(b, n - 1);
  }

  /** Keeps the elements `keep` accepts, in order. */
  function Filter<T>(keep: T -> bool, s: seq<T>): seq<T> {
    if s == [] then []
    else if keep(s[0]) then [s[0]] + Filter(keep, s[1..])
    else Filter(keep, s[1..])
  }

  lemma {:induction false} FilterAppends<T>(keep: T -> bool, a: seq<T>, b: seq<T>)
    ensures Filter(keep, a + b) == Filter(keep, a) + Filter(keep, b)
  {
    if a == [] {
      assert a + b == b;
    } else {
      assert a + b == [a[0]] + (a[1..] + b);
      FilterAppends(keep, a[1..], b);
    }
  }

  lemma {:induction false} FilterInsert<T(!new)>(leq: (T, T) -> bool, keep: T -> bool, x: T, s: seq<T>)
    requires TotalPreorder(leq) && Sorted(leq, s)
    ensures Filter(keep, Insert(leq, x, s)) == if keep(x) then Insert(leq, x, Filter(keep, s)) else Filter(keep, s)
  {
    if s == [] || leq(x, s[0]) {
      assert Insert(leq, x, s)[1..] == s;
      if keep(x) { InsertBelowAll(leq, x, s, keep); }
    } else {
      FilterInsert(leq, keep, x, s[1..]);
      assert Insert(leq, x, s)[1..] == Insert(leq, x, s[1..]);
    }
  }

  lemma {:induction false} InsertBelowAll<T(!new)>(leq: (T, T) -> bool, x: T, s: seq<T>, keep: T -> bool)
    requires forall i :: 0 <= i < |s| ==> leq(x, s[i])
    ensures Insert(leq, x, Filter(keep, s)) == [x] + Filter(keep, s)
  {
    if s != [] && !keep(s[0]) {
      InsertBelowAll(leq, x, s[1..], keep);
    }
  }

  /** Filtering and stable sorting commute. */
  lemma {:induction false} FilterSort<T(!new)>(leq: (T, T) -> bool, keep: T -> bool, s: seq<T>)
    requires TotalPreorder(leq)
    ensures Filter(keep, Sort(leq, s)) == Sort(leq, Filter(keep, s))
  {
    if s != [] {
      FilterSort(leq, keep, s[1..]);
      SortIsSorted(leq, s[1..]);
      FilterInsert(leq, keep, s[0], Sort(leq, s[1..]));
    }
  }
}
