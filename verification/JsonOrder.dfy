/** `json_cmp` is one total preorder over every JSON value, and ties exactly the values that differ
    in nothing but how a number was written. */
module JsonOrder {
  import opened Orders
  import opened JsonValues

  lemma {:induction false} JsonCmpReverses(a: Json, b: Json)
    ensures JsonCmp(a, b) == JsonCmp(b, a).Reverse()
    decreases a
  {
    match (a, b)
    case (Text(x), Text(y)) => CompareTextLaws(x, y);
    case (Array(x), Array(y)) => CmpItemsReverses(x, y);
    case (Object(x), Object(y)) => CmpMembersReverses(a, SortedKeys(x.Keys), b, SortedKeys(y.Keys));
    case _ =>
  }

  lemma {:induction false} CmpItemsReverses(x: seq<Json>, y: seq<Json>)
    ensures CmpItems(x, y) == CmpItems(y, x).Reverse()
    decreases x
  {
    if x != [] && y != [] {
      JsonCmpReverses(x[0], y[0]);
      CmpItemsReverses(x[1..], y[1..]);
    }
  }

  lemma {:induction false} CmpMembersReverses(a: Json, ka: seq<string>, b: Json, kb: seq<string>)
    requires KeysOf(a, ka) && KeysOf(b, kb)
    ensures CmpMembers(a, ka, b, kb) == CmpMembers(b, kb, a, ka).Reverse()
    decreases a, |ka|
  {
    if ka != [] && kb != [] {
      CompareTextLaws(ka[0], kb[0]);
      JsonCmpReverses(a.members[ka[0]], b.members[kb[0]]);
      CmpMembersReverses(a, ka[1..], b, kb[1..]);
    }
  }

  lemma {:induction false} JsonCmpChains(a: Json, b: Json, c: Json)
    ensures Chained(JsonCmp(a, b), JsonCmp(b, c), JsonCmp(a, c))
    decreases a
  {
    match (a, b, c)
    case (Text(x), Text(y), Text(z)) => CompareTextChains(x, y, z);
    case (Array(x), Array(y), Array(z)) => CmpItemsChains(x, y, z);
    case (Object(x), Object(y), Object(z)) =>
      CmpMembersChains(a, SortedKeys(x.Keys), b, SortedKeys(y.Keys), c, SortedKeys(z.Keys));
    case _ =>
  }

  lemma {:induction false} CmpItemsChains(x: seq<Json>, y: seq<Json>, z: seq<Json>)
    ensures Chained(CmpItems(x, y), CmpItems(y, z), CmpItems(x, z))
    decreases x
  {
    if x != [] && y != [] && z != [] {
      JsonCmpChains(x[0], y[0], z[0]);
      CmpItemsChains(x[1..], y[1..], z[1..]);
    }
  }

  lemma {:induction false} CmpMembersChains(
    a: Json, ka: seq<string>, b: Json, kb: seq<string>, c: Json, kc: seq<string>)
    requires KeysOf(a, ka) && KeysOf(b, kb) && KeysOf(c, kc)
    ensures Chained(CmpMembers(a, ka, b, kb), CmpMembers(b, kb, c, kc), CmpMembers(a, ka, c, kc))
    decreases a, |ka|
  {
    if ka != [] && kb != [] && kc != [] {
      CompareTextChains(ka[0], kb[0], kc[0]);
      CompareTextLaws(ka[0], kb[0]);
      CompareTextLaws(kb[0], kc[0]);
      JsonCmpChains(a.members[ka[0]], b.members[kb[0]], c.members[kc[0]]);
      CmpMembersChains(a, ka[1..], b, kb[1..], c, kc[1..]);
    }
  }

  /** Equal in shape, keys and text, and in every number's `f64`. */
  ghost predicate Alike(a: Json, b: Json)
    decreases a
  {
    match (a, b)
    case (Number(_, x), Number(_, y)) => x == y
    case (Array(x), Array(y)) => |x| == |y| && forall i :: 0 <= i < |x| ==> Alike(x[i], y[i])
    case (Object(x), Object(y)) => x.Keys == y.Keys && forall k :: k in x ==> Alike(x[k], y[k])
    case _ => a == b
  }

  /** Two values tie exactly when they are alike, so the order is total up to numbers of one `f64`. */
  lemma {:induction false} JsonCmpTies(a: Json, b: Json)
    ensures JsonCmp(a, b) == Equal <==> Alike(a, b)
    decreases a
  {
    match (a, b)
    case (Text(x), Text(y)) => CompareTextLaws(x, y);
    case (Array(x), Array(y)) => CmpItemsTies(x, y);
    case (Object(x), Object(y)) =>
      var kx, ky := SortedKeys(x.Keys), SortedKeys(y.Keys);
      CmpMembersTies(a, kx, b, ky);
      if kx == ky {
        assert forall k :: k in x.Keys <==> k in kx;
        assert forall k :: k in y.Keys <==> k in ky;
        assert x.Keys == y.Keys;
      }
    case _ =>
  }

  lemma {:induction false} CmpItemsTies(x: seq<Json>, y: seq<Json>)
    ensures CmpItems(x, y) == Equal <==> |x| == |y| && forall i :: 0 <= i < |x| ==> Alike(x[i], y[i])
    decreases x
  {
    if x != [] && y != [] {
      JsonCmpTies(x[0], y[0]);
      CmpItemsTies(x[1..], y[1..]);
      if |x| == |y| && CmpItems(x, y) == Equal {
        forall i | 0 <= i < |x|
          ensures Alike(x[i], y[i])
        {
          assert i > 0 ==> x[i] == x[1..][i - 1] && y[i] == y[1..][i - 1];
        }
      }
    }
  }

  lemma {:induction false} CmpMembersTies(a: Json, ka: seq<string>, b: Json, kb: seq<string>)
    requires KeysOf(a, ka) && KeysOf(b, kb)
    ensures CmpMembers(a, ka, b, kb) == Equal
      <==> ka == kb && forall k :: k in ka ==> Alike(a.members[k], b.members[k])
    decreases a, |ka|
  {
    hide JsonCmp, CompareText, Alike;
    if ka != [] && kb != [] {
      CompareTextLaws(ka[0], kb[0]);
      JsonCmpTies(a.members[ka[0]], b.members[kb[0]]);
      CmpMembersTies(a, ka[1..], b, kb[1..]);
      assert ka == [ka[0]] + ka[1..] && kb == [kb[0]] + kb[1..];
    }
  }

  /** 2^53, up to which `f64` holds every integer; from there to twice that it holds the even ones. */
  const EXACT: int := 0x20_0000_0000_0000

  /** The integer an integer is read as: the nearest `f64`, and of two the one with the even significand. */
  function Nearest(i: int): int
    requires 0 <= i <= 2 * EXACT
  {
    if i <= EXACT then i else if i % 4 == 1 then i - 1 else if i % 4 == 3 then i + 1 else i
  }

  function Whole(i: int): Json
    requires 0 <= i <= 2 * EXACT
  {
    Number(Integer(i), Nearest(i) as real)
  }

  lemma NearestTiesIff(i: int, j: int, a: int, b: int)
    requires 0 <= i < j <= 2 * EXACT && 0 <= i - 4 * a < 4 && 0 <= j - 4 * b < 4
    ensures Nearest(i) <= Nearest(j)
    ensures Nearest(i) == Nearest(j) <==> i >= EXACT && ((i == 4 * a && j == i + 1) || (i == 4 * a + 3 && j <= i + 2))
  {
    QuarterOf(i, a);
    QuarterOf(j, b);
  }

  lemma {:induction false} QuarterOf(i: int, a: int)
    requires 0 <= i - 4 * a < 4
    ensures i % 4 == i - 4 * a
  {
  }

  lemma WholesCompare(i: int, j: int)
    requires 0 <= i <= 2 * EXACT && 0 <= j <= 2 * EXACT
    ensures JsonCmp(Whole(i), Whole(j)) == CompareInt(Nearest(i), Nearest(j))
  {
    hide Nearest;
    assert (Nearest(i) as real < Nearest(j) as real) == (Nearest(i) < Nearest(j));
  }

  /** Integers up to 2^53 compare exactly, and from there on two tie if and only if they are next to one
      multiple of four or on it. */
  lemma IntegersTieIff(i: int, j: int)
    requires 0 <= i < j <= 2 * EXACT
    ensures JsonCmp(Whole(i), Whole(j)) == Equal
            <==> i >= EXACT && ((i % 4 == 0 && j == i + 1) || (i % 4 == 3 && j <= i + 2))
    ensures JsonCmp(Whole(i), Whole(j)) != Greater
  {
    hide JsonCmp, Whole, Nearest;
    WholesCompare(i, j);
    NearestTiesIff(i, j, i / 4, j / 4);
    QuarterOf(i, i / 4);
  }

  /** The order the tests describe has no ties between unequal values. It does have them: 2^53 and 2^53 + 1. */
  lemma UnequalNumbersTie()
    ensures Whole(EXACT) != Whole(EXACT + 1) && JsonCmp(Whole(EXACT), Whole(EXACT + 1)) == Equal
  {
    hide JsonCmp;
    IntegersTieIff(EXACT, EXACT + 1);
  }

  /** Below each other by kind: null, booleans, numbers, strings, arrays, objects. */
  lemma KindsInTurn(b: bool, numeral: Numeral, approx: real, s: string, items: seq<Json>, members: map<string, Json>)
    ensures JsonCmp(Null, Bool(b)) == JsonCmp(Bool(false), Bool(true)) == Less
    ensures JsonCmp(Bool(b), Number(numeral, approx)) == JsonCmp(Number(numeral, approx), Text(s)) == Less
    ensures JsonCmp(Text(s), Array(items)) == JsonCmp(Array(items), Object(members)) == Less
  {
  }

  /** Arrays by their first differing element, a shorter one first. */
  lemma ArraysByElement(x: seq<Json>, y: seq<Json>, i: nat)
    requires i <= |x| && i <= |y| && forall j :: 0 <= j < i ==> JsonCmp(x[j], y[j]) == Equal
    ensures i < |x| && i < |y| && JsonCmp(x[i], y[i]) != Equal ==> JsonCmp(Array(x), Array(y)) == JsonCmp(x[i], y[i])
    ensures i == |x| < |y| ==> JsonCmp(Array(x), Array(y)) == Less
    ensures i == |y| < |x| ==> JsonCmp(Array(x), Array(y)) == Greater
  {
    ItemsByElement(x, y, i);
  }

  lemma {:induction false} ItemsByElement(x: seq<Json>, y: seq<Json>, i: nat)
    requires i <= |x| && i <= |y| && forall j :: 0 <= j < i ==> JsonCmp(x[j], y[j]) == Equal
    ensures i < |x| && i < |y| && JsonCmp(x[i], y[i]) != Equal ==> CmpItems(x, y) == JsonCmp(x[i], y[i])
    ensures i == |x| || i == |y| ==> CmpItems(x, y) == CompareInt(|x|, |y|)
  {
    hide JsonCmp;
    if i > 0 {
      assert forall j :: 0 <= j < i - 1 ==> x[1..][j] == x[j + 1] && y[1..][j] == y[j + 1];
      ItemsByElement(x[1..], y[1..], i - 1);
    }
  }

  /** Numbers by the `f64` they are read as, text by its characters. */
  lemma ScalarsCompare(m: Numeral, x: real, n: Numeral, y: real, s: string, t: string, i: nat)
    requires i <= |s| && i <= |t| && s[..i] == t[..i]
    ensures JsonCmp(Number(m, x), Number(n, y)) == if x < y then Less else if x > y then Greater else Equal
    ensures (i < |s| && i < |t| && s[i] < t[i]) || i == |s| < |t| ==> JsonCmp(Text(s), Text(t)) == Less
    ensures (i < |s| && i < |t| && s[i] > t[i]) || i == |t| < |s| ==> JsonCmp(Text(s), Text(t)) == Greater
  {
    FirstDifferenceDecides(s, t, i);
  }

  /** `ks` lists these keys in ascending order. */
  ghost predicate InOrder(keys: set<string>, ks: seq<string>) {
    (forall k :: k in ks <==> k in keys) && forall i, j :: 0 <= i < j < |ks| ==> CompareText(ks[i], ks[j]) == Less
  }

  lemma SortedKeysAreInOrder(keys: set<string>)
    ensures InOrder(keys, SortedKeys(keys))
  {
    var ks := SortedKeys(keys);
    forall i, j | 0 <= i < j < |ks|
      ensures CompareText(ks[i], ks[j]) == Less
    {
      CompareTextLaws(ks[i], ks[j]);
    }
  }

  lemma {:induction false} OneOrder(keys: set<string>, a: seq<string>, b: seq<string>)
    requires InOrder(keys, a) && InOrder(keys, b)
    ensures a == b
    decreases |a|
  {
    assert a != [] ==> a[0] in b;
    assert b != [] ==> b[0] in a;
    if a != [] && b != [] {
      FirstIsFirst(keys, a, b);
      LessOne(keys, a);
      LessOne(keys, b);
      OneOrder(keys - {a[0]}, a[1..], b[1..]);
      assert a == [a[0]] + a[1..] && b == [b[0]] + b[1..];
    }
  }

  lemma FirstIsFirst(keys: set<string>, a: seq<string>, b: seq<string>)
    requires InOrder(keys, a) && InOrder(keys, b) && a != [] && b != []
    ensures a[0] == b[0]
  {
    assert a[0] in b && b[0] in a;
    var i :| 0 <= i < |b| && b[i] == a[0];
    var j :| 0 <= j < |a| && a[j] == b[0];
    CompareTextLaws(a[0], b[0]);
    assert i > 0 ==> CompareText(b[0], b[i]) == Less;
    assert j > 0 ==> CompareText(a[0], a[j]) == Less;
  }

  lemma LessOne(keys: set<string>, a: seq<string>)
    requires InOrder(keys, a) && a != []
    ensures InOrder(keys - {a[0]}, a[1..])
  {
    CompareTextLaws(a[0], a[0]);
    forall k
      ensures k in a[1..] <==> k in keys - {a[0]}
    {
      if k in a[1..] {
        var i :| 0 <= i < |a[1..]| && a[1..][i] == k;
        assert CompareText(a[0], a[i + 1]) == Less;
      }
      if k in keys - {a[0]} {
        var i :| 0 <= i < |a| && a[i] == k;
        assert a[1..][i - 1] == k;
      }
    }
  }

  /** Objects entry by entry in key order: the first that differs decides, by its key and then by its value,
      and with none the one with fewer entries comes first. */
  lemma ObjectsByEntry(x: map<string, Json>, kx: seq<string>, y: map<string, Json>, ky: seq<string>, i: nat)
    requires InOrder(x.Keys, kx) && InOrder(y.Keys, ky) && i <= |kx| && i <= |ky|
    requires forall j :: 0 <= j < i ==> kx[j] == ky[j] && JsonCmp(x[kx[j]], y[ky[j]]) == Equal
    ensures var o := JsonCmp(Object(x), Object(y));
      && (i < |kx| && i < |ky| && kx[i] != ky[i] ==> o == CompareText(kx[i], ky[i]))
      && (i < |kx| && i < |ky| && kx[i] == ky[i] && JsonCmp(x[kx[i]], y[ky[i]]) != Equal ==>
            o == JsonCmp(x[kx[i]], y[ky[i]]))
      && (i == |kx| < |ky| ==> o == Less) && (i == |ky| < |kx| ==> o == Greater)
  {
    hide InOrder, JsonCmp, CmpMembers, CompareText, SortedKeys;
    SortedKeysAreInOrder(x.Keys);
    SortedKeysAreInOrder(y.Keys);
    OneOrder(x.Keys, kx, SortedKeys(x.Keys));
    OneOrder(y.Keys, ky, SortedKeys(y.Keys));
    ObjectsCompare(x, y);
    EntriesDecide(Object(x), kx, Object(y), ky, i);
  }

  lemma ObjectsCompare(x: map<string, Json>, y: map<string, Json>)
    ensures JsonCmp(Object(x), Object(y)) ==
      CmpMembers(Object(x), SortedKeys(x.Keys), Object(y), SortedKeys(y.Keys))
  {
    hide SortedKeys, CompareText;
  }

  lemma {:induction false} EntriesDecide(a: Json, ka: seq<string>, b: Json, kb: seq<string>, i: nat)
    requires KeysOf(a, ka) && KeysOf(b, kb) && i <= |ka| && i <= |kb|
    requires forall j :: 0 <= j < i ==> ka[j] == kb[j] && JsonCmp(a.members[ka[j]], b.members[kb[j]]) == Equal
    ensures var o := CmpMembers(a, ka, b, kb);
      && (i < |ka| && i < |kb| && ka[i] != kb[i] ==> o == CompareText(ka[i], kb[i]))
      && (i < |ka| && i < |kb| && ka[i] == kb[i] && JsonCmp(a.members[ka[i]], b.members[kb[i]]) != Equal ==>
            o == JsonCmp(a.members[ka[i]], b.members[kb[i]]))
      && (i == |ka| < |kb| ==> o == Less) && (i == |kb| < |ka| ==> o == Greater)
    decreases i
  {
    hide JsonCmp;
    if ka != [] && kb != [] { CompareTextLaws(ka[0], kb[0]); }
    if i > 0 {
      assert forall j :: 0 <= j < i - 1 ==> ka[1..][j] == ka[j + 1] && kb[1..][j] == kb[j + 1];
      EntriesDecide(a, ka[1..], b, kb[1..], i - 1);
    }
  }
}
