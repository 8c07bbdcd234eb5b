/** Two nodes that know the same members, in whatever order and spelling, agree on every owner. */
module RingAgreement {
  import opened Orders
  import opened Sorting
  import opened Endpoints
  import opened HashRings

  /** A token as every node sees it: its position and the identity it belongs to. */
  datatype Point = Point(at: Hash, key: string)

  function PointLeq(): (Point, Point) -> bool {
    (a: Point, b: Point) => ComparePoints(a.at, a.key, b.at, b.key) != Greater
  }

  function PointOf(shards: seq<Shard>, t: Token): Point {
    Point(t.at, NodeKey(UrlAt(shards, t.shard)))
  }

  function PointsOf(shards: seq<Shard>, tokens: seq<Token>): (ps: seq<Point>)
    ensures |ps| == |tokens| && forall i :: 0 <= i < |ps| ==> ps[i] == PointOf(shards, tokens[i])
  {
    if tokens == [] then [] else [PointOf(shards, tokens[0])] + PointsOf(shards, tokens[1..])
  }

  function Keys(shards: seq<Shard>): (ks: seq<string>)
    ensures |ks| == |shards| && forall i :: 0 <= i < |ks| ==> ks[i] == NodeKey(shards[i].url)
  {
    if shards == [] then [] else [NodeKey(shards[0].url)] + Keys(shards[1..])
  }

  lemma PointLeqIsTotal()
    ensures TotalPreorder(PointLeq())
    ensures forall x: Point, y: Point :: PointLeq()(x, y) && PointLeq()(y, x) ==> x == y
  {
    var leq := PointLeq();
    forall x: Point, y: Point, z: Point
      ensures (leq(x, y) || leq(y, x)) && (leq(x, y) && leq(y, z) ==> leq(x, z)) && (leq(x, y) && leq(y, x) ==> x == y)
    {
      ComparePointsLaws(x.at, x.key, y.at, y.key, z.at, z.key);
    }
  }

  lemma {:induction false} InsertPoints(shards: seq<Shard>, t: Token, s: seq<Token>)
    ensures PointsOf(shards, Insert(TokenLeq(shards), t, s)) ==
      Insert(PointLeq(), PointOf(shards, t), PointsOf(shards, s))
  {
    if s != [] && !TokenLeq(shards)(t, s[0]) {
      InsertPoints(shards, t, s[1..]);
      assert PointsOf(shards, s)[1..] == PointsOf(shards, s[1..]);
    }
  }

  lemma {:induction false} SortPoints(shards: seq<Shard>, s: seq<Token>)
    ensures PointsOf(shards, Sort(TokenLeq(shards), s)) == Sort(PointLeq(), PointsOf(shards, s))
  {
    if s != [] {
      SortPoints(shards, s[1..]);
      InsertPoints(shards, s[0], Sort(TokenLeq(shards), s[1..]));
      assert PointsOf(shards, s)[1..] == PointsOf(shards, s[1..]);
    }
  }

  function KeyPoints(token: TokenFn, key: string, vnodes: nat): seq<Point> {
    if vnodes == 0 then [] else KeyPoints(token, key, vnodes - 1) + [Point(token(key, vnodes - 1), key)]
  }

  function AllPoints(token: TokenFn, vnodes: nat, keys: seq<string>): seq<Point> {
    if keys == [] then []
    else AllPoints(token, vnodes, keys[..|keys| - 1]) + KeyPoints(token, keys[|keys| - 1], vnodes)
  }

  lemma {:induction false} PointsAppend(shards: seq<Shard>, a: seq<Token>, b: seq<Token>)
    ensures PointsOf(shards, a + b) == PointsOf(shards, a) + PointsOf(shards, b)
  {
  }

  lemma {:induction false} PointsOfShard(token: TokenFn, shards: seq<Shard>, s: nat, vnodes: nat)
    requires s < |shards|
    ensures PointsOf(shards, ShardTokens(token, shards[s].url, s, vnodes)) ==
      KeyPoints(token, NodeKey(shards[s].url), vnodes)
  {
    if vnodes > 0 {
      PointsOfShard(token, shards, s, vnodes - 1);
      PointsAppend(shards, ShardTokens(token, shards[s].url, s, vnodes - 1),
                   [Token(token(NodeKey(shards[s].url), vnodes - 1), s)]);
    }
  }

  lemma {:induction false} PointsOfAll(token: TokenFn, vnodes: nat, shards: seq<Shard>, n: nat)
    requires n <= |shards|
    ensures PointsOf(shards, AllTokens(token, vnodes, shards, n)) == AllPoints(token, vnodes, Keys(shards)[..n])
  {
    hide NodeKey, PointsOf, ShardTokens, KeyPoints;
    assert PointsOf(shards, []) == [];
    if n > 0 {
      PointsOfAll(token, vnodes, shards, n - 1);
      PointsOfShard(token, shards, n - 1, vnodes);
      PointsAppend(shards, AllTokens(token, vnodes, shards, n - 1),
        ShardTokens(token, shards[n - 1].url, n - 1, vnodes));
      assert Keys(shards)[..n][..n - 1] == Keys(shards)[..n - 1];
    }
  }

  ghost function OneBag(token: TokenFn, vnodes: nat, key: string): multiset<Point> {
    multiset(KeyPoints(token, key, vnodes))
  }

  ghost function Bag(token: TokenFn, vnodes: nat, keys: seq<string>): multiset<Point> {
    if keys == [] then multiset{}
    else Bag(token, vnodes, keys[..|keys| - 1]) + OneBag(token, vnodes, keys[|keys| - 1])
  }

  lemma {:induction false} BagOfAll(token: TokenFn, vnodes: nat, keys: seq<string>)
    ensures multiset(AllPoints(token, vnodes, keys)) == Bag(token, vnodes, keys)
  {
    if keys != [] { BagOfAll(token, vnodes, keys[..|keys| - 1]); }
  }

  lemma {:induction false} TakeOut(token: TokenFn, vnodes: nat, keys: seq<string>, k: nat)
    requires k < |keys|
    ensures Bag(token, vnodes, keys) == Bag(token, vnodes, Without(keys, k)) + OneBag(token, vnodes, keys[k])
  {
    hide OneBag;
    var n := |keys| - 1;
    if k == n {
      assert Without(keys, k) == keys[..n];
    } else {
      TakeOut(token, vnodes, keys[..n], k);
      var left := Without(keys, k);
      assert left[..n - 1] == Without(keys[..n], k) && left[n - 1] == keys[n];
    }
  }

  lemma RemoveOne(a: seq<string>, b: seq<string>) returns (k: nat)
    requires a != [] && multiset(a) == multiset(b)
    ensures k < |b| && b[k] == a[|a| - 1] && multiset(a[..|a| - 1]) == multiset(Without(b, k))
  {
    var n := |a| - 1;
    SameElements(a, b);
    assert a[n] in b;
    k :| 0 <= k < |b| && b[k] == a[n];
    BagWithout(a, n);
    BagWithout(b, k);
    assert Without(a, n) == a[..n];
  }

  lemma BagWithout(s: seq<string>, k: nat)
    requires k < |s|
    ensures multiset(Without(s, k)) == multiset(s) - multiset{s[k]}
  {
    assert s == s[..k] + [s[k]] + s[k + 1..];
    assert multiset(s) == multiset(Without(s, k)) + multiset{s[k]};
  }

  /** The points depend on which keys are listed, not on their order. */
  lemma {:induction false} OrderDoesNotMatter(token: TokenFn, vnodes: nat, a: seq<string>, b: seq<string>)
    requires multiset(a) == multiset(b)
    ensures Bag(token, vnodes, a) == Bag(token, vnodes, b)
    decreases |a|
  {
    if a == [] {
      assert |multiset(b)| == |multiset(a)| == 0;
    } else {
      var k := RemoveOne(a, b);
      OrderDoesNotMatter(token, vnodes, a[..|a| - 1], Without(b, k));
      TakeOut(token, vnodes, b, k);
    }
  }

  lemma {:induction false} SearchSeesPositions(a: seq<Token>, b: seq<Token>, hash: Hash, lo: nat, hi: nat)
    requires |a| == |b| && lo <= hi <= |a|
    requires forall i :: 0 <= i < |a| ==> a[i].at == b[i].at
    ensures Search(a, hash, lo, hi) == Search(b, hash, lo, hi)
    decreases hi - lo
  {
    if lo < hi {
      var mid := (lo + hi) / 2;
      SearchSeesPositions(a, b, hash, mid + 1, hi);
      SearchSeesPositions(a, b, hash, lo, mid);
    }
  }

  lemma {:induction false} BuiltPoints(token: TokenFn, vnodes: nat, shards: seq<Shard>)
    ensures PointsOf(shards, Built(token, vnodes, shards).tokens) ==
      Sort(PointLeq(), AllPoints(token, vnodes, Keys(shards)))
  {
    PointsOfAll(token, vnodes, shards, |shards|);
    assert Keys(shards)[..|shards|] == Keys(shards);
    SortPoints(shards, AllTokens(token, vnodes, shards, |shards|));
  }

  /** Every hash has one owner identity, whatever order and spelling the members came in, token
      collisions included. */
  lemma SameMembersSameOwners(token: TokenFn, vnodes: nat, a: seq<Shard>, b: seq<Shard>, hash: Hash)
    requires multiset(Keys(a)) == multiset(Keys(b))
    ensures NodeKey(OwnerUrl(Built(token, vnodes, a), hash)) == NodeKey(OwnerUrl(Built(token, vnodes, b), hash))
  {
    var ra, rb := Built(token, vnodes, a), Built(token, vnodes, b);
    var leq, pa, pb := PointLeq(), AllPoints(token, vnodes, Keys(a)), AllPoints(token, vnodes, Keys(b));
    BuiltPoints(token, vnodes, a);
    BuiltPoints(token, vnodes, b);
    OrderDoesNotMatter(token, vnodes, Keys(a), Keys(b));
    BagOfAll(token, vnodes, Keys(a));
    BagOfAll(token, vnodes, Keys(b));
    PointLeqIsTotal();
    SortIsSorted(leq, pa);
    SortIsSorted(leq, pb);
    SortPermutes(leq, pa);
    SortPermutes(leq, pb);
    SortedIsUnique(leq, Sort(leq, pa), Sort(leq, pb));
    assert PointsOf(a, ra.tokens) == PointsOf(b, rb.tokens);
    SamePointsSameOwner(ra, rb, hash);
  }

  lemma SamePointsSameOwner(a: BuiltRing, b: BuiltRing, hash: Hash)
    requires PointsOf(a.shards, a.tokens) == PointsOf(b.shards, b.tokens)
    ensures NodeKey(OwnerUrl(a, hash)) == NodeKey(OwnerUrl(b, hash))
  {
    forall i | 0 <= i < |a.tokens|
      ensures PointOf(a.shards, a.tokens[i]) == PointOf(b.shards, b.tokens[i])
    {
      assert PointsOf(a.shards, a.tokens)[i] == PointsOf(b.shards, b.tokens)[i];
    }
    SearchSeesPositions(a.tokens, b.tokens, hash, 0, |a.tokens|);
    if a.tokens != [] {
      var i := OwnerIndex(a, hash);
      assert PointOf(a.shards, a.tokens[i]) == PointOf(b.shards, b.tokens[i]);
    }
  }

  /** `b` lists the members of `a` in another order, their URLs spelled any way that names the same host. */
  ghost predicate Respelled(a: seq<Shard>, b: seq<Shard>, place: seq<nat>) {
    && |a| == |b| == |place|
    && (forall i :: 0 <= i < |place| ==> place[i] < |b|)
    && (forall i, j :: 0 <= i < j < |place| ==> place[i] != place[j])
    && forall i :: 0 <= i < |a| ==>
         exists x, y :: Spells(a[i].url, x) && Spells(b[place[i]].url, y) && SameLetters(x, y)
  }

  lemma {:induction false} Rearranged(a: seq<string>, b: seq<string>, place: seq<nat>)
    requires |a| == |b| == |place|
    requires forall i :: 0 <= i < |a| ==> place[i] < |b| && b[place[i]] == a[i]
    requires forall i, j :: 0 <= i < j < |place| ==> place[i] != place[j]
    ensures multiset(a) == multiset(b)
  {
    if a != [] {
      var n := |a| - 1;
      var k := place[n];
      var others := seq(n, i requires 0 <= i < n => if place[i] < k then place[i] else place[i] - 1);
      Rearranged(a[..n], Without(b, k), others);
      BagWithout(b, k);
      assert a == a[..n] + [a[n]];
    }
  }

  /** So nodes that list the same members in any order, their hosts in any letter case and behind any scheme,
      path or query, agree on the node that owns every hash. */
  lemma RespelledMembersSameOwners(
    token: TokenFn, vnodes: nat, a: seq<Shard>, b: seq<Shard>, place: seq<nat>, hash: Hash, x: string, y: string)
    requires Respelled(a, b, place)
    requires Spells(OwnerUrl(Built(token, vnodes, a), hash), x) && Spells(OwnerUrl(Built(token, vnodes, b), hash), y)
    ensures SameLetters(x, y)
  {
    hide NodeKey, Spells, SameLetters, Built, OwnerUrl;
    forall i | 0 <= i < |a|
      ensures Keys(b)[place[i]] == Keys(a)[i]
    {
      var u, w :| Spells(a[i].url, u) && Spells(b[place[i]].url, w) && SameLetters(u, w);
      SpellingsOfOneNode(a[i].url, u, b[place[i]].url, w);
    }
    Rearranged(Keys(a), Keys(b), place);
    SameMembersSameOwners(token, vnodes, a, b, hash);
    SpellingsOfOneNode(OwnerUrl(Built(token, vnodes, a), hash), x, OwnerUrl(Built(token, vnodes, b), hash), y);
  }
}
