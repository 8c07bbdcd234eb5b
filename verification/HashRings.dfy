/** The consistent-hash token ring (src/ring.rs). */
module HashRings {
  import opened Orders
  import opened Sorting
  import opened Endpoints

  const RING: int := 0x1_0000_0000_0000_0000

  type Hash = x: int | 0 <= x < RING

  /** The hash of a node key and a virtual-node index: any function at all. */
  type TokenFn = (string, nat) -> Hash

  datatype Shard = Shard(url: string, replicas: seq<string>)

  /** A position on the ring and the index of the shard it belongs to. */
  datatype Token = Token(at: Hash, shard: nat)

  datatype BuiltRing = BuiltRing(tokens: seq<Token>, shards: seq<Shard>)

  function UrlAt(shards: seq<Shard>, i: nat): string {
    if i < |shards| then shards[i].url else ""
  }

  function ShardTokens(token: TokenFn, url: string, shard: nat, vnodes: nat): seq<Token> {
    if vnodes == 0 then []
    else ShardTokens(token, url, shard, vnodes - 1) + [Token(token(NodeKey(url), vnodes - 1), shard)]
  }

  /** Every token of the first `n` shards, in the order they are laid out. */
  function AllTokens(token: TokenFn, vnodes: nat, shards: seq<Shard>, n: nat): seq<Token>
    requires n <= |shards|
  {
    if n == 0 then []
    else AllTokens(token, vnodes, shards, n - 1) + ShardTokens(token, shards[n - 1].url, n - 1, vnodes)
  }

  /** By position, and by endpoint where two tokens collide. */
  function ComparePoints(a: Hash, aKey: string, b: Hash, bKey: string): Ordering {
    CompareInt(a, b).Then(CompareText(aKey, bKey))
  }

  function TokenLeq(shards: seq<Shard>): (Token, Token) -> bool {
    (a: Token, b: Token) =>
      ComparePoints(a.at, NodeKey(UrlAt(shards, a.shard)), b.at, NodeKey(UrlAt(shards, b.shard))) != Greater
  }

  function Built(token: TokenFn, vnodes: nat, shards: seq<Shard>): BuiltRing {
    BuiltRing(Sort(TokenLeq(shards), AllTokens(token, vnodes, shards, |shards|)), shards)
  }

  method Build(token: TokenFn, vnodes: nat, shards: seq<Shard>) returns (ring: BuiltRing)
    ensures ring == Built(token, vnodes, shards)
  {
    var tokens: seq<Token> := [];
    for index := 0 to |shards|
      invariant tokens == AllTokens(token, vnodes, shards, index)
    {
      ghost var before := tokens;
      for v := 0 to vnodes
        invariant tokens == before + ShardTokens(token, shards[index].url, index, v)
      {
        tokens := tokens + [Token(token(NodeKey(shards[index].url), v), index)];
      }
    }
    return BuiltRing(Sort(TokenLeq(shards), tokens), shards);
  }

  datatype SearchResult = Found(i: nat) | Missing(i: nat)

  /** The library's binary search, on the positions alone. */
  function Search(tokens: seq<Token>, hash: Hash, lo: nat, hi: nat): (r: SearchResult)
    requires lo <= hi <= |tokens|
    ensures r.Found? ==> lo <= r.i < hi
    ensures r.Missing? ==> lo <= r.i <= hi
    decreases hi - lo
  {
    if lo == hi then Missing(lo)
    else
      var mid := (lo + hi) / 2;
      if tokens[mid].at == hash then Found(mid)
      else if tokens[mid].at < hash then Search(tokens, hash, mid + 1, hi)
      else Search(tokens, hash, lo, mid)
  }

  /** Index of the first token clockwise, wrapping at the top. */
  function OwnerIndex(ring: BuiltRing, hash: Hash): (i: nat)
    requires ring.tokens != []
    ensures i < |ring.tokens|
  {
    match Search(ring.tokens, hash, 0, |ring.tokens|)
    case Found(i) => i
    case Missing(i) => if i < |ring.tokens| then i else 0
  }

  function OwnerUrl(ring: BuiltRing, hash: Hash): string {
    if ring.tokens == [] then "" else UrlAt(ring.shards, ring.tokens[OwnerIndex(ring, hash)].shard)
  }

  // ----- ownership is the nearest token clockwise

  ghost predicate Ascending(tokens: seq<Token>) {
    forall i, j :: 0 <= i < j < |tokens| ==> tokens[i].at <= tokens[j].at
  }

  /** How far on from one hash the other lies. */
  function Clockwise(from: Hash, to: Hash): (d: int)
    ensures 0 <= d < RING && (from + d == to || from + d == to + RING)
  {
    if from <= to then to - from else to - from + RING
  }

  ghost predicate AllBelow(tokens: seq<Token>, n: nat, hash: Hash) {
    n <= |tokens| && forall j :: 0 <= j < n ==> tokens[j].at < hash
  }

  ghost predicate AllAbove(tokens: seq<Token>, n: nat, hash: Hash) {
    n <= |tokens| && forall j :: n <= j < |tokens| ==> tokens[j].at > hash
  }

  lemma AroundMiddle(tokens: seq<Token>, mid: nat, hash: Hash)
    requires Ascending(tokens) && mid < |tokens|
    ensures tokens[mid].at < hash ==> AllBelow(tokens, mid + 1, hash)
    ensures tokens[mid].at > hash ==> AllAbove(tokens, mid, hash)
  {
  }

  lemma {:induction false} SearchIsRight(tokens: seq<Token>, hash: Hash, lo: nat, hi: nat)
    requires lo <= hi && Ascending(tokens) && AllBelow(tokens, lo, hash) && AllAbove(tokens, hi, hash)
    ensures var r := Search(tokens, hash, lo, hi);
      && (r.Found? ==> tokens[r.i].at == hash)
      && (r.Missing? ==> AllBelow(tokens, r.i, hash) && AllAbove(tokens, r.i, hash))
    decreases hi - lo
  {
    hide Ascending;
    if lo < hi {
      var mid := (lo + hi) / 2;
      AroundMiddle(tokens, mid, hash);
      if tokens[mid].at < hash {
        SearchIsRight(tokens, hash, mid + 1, hi);
      } else if tokens[mid].at > hash {
        SearchIsRight(tokens, hash, lo, mid);
      }
    }
  }

  /** No token is nearer, going clockwise, than the owner's. */
  lemma OwnerIsNearest(ring: BuiltRing, hash: Hash)
    requires ring.tokens != [] && Ascending(ring.tokens)
    ensures forall j :: 0 <= j < |ring.tokens| ==>
      Clockwise(hash, ring.tokens[OwnerIndex(ring, hash)].at) <= Clockwise(hash, ring.tokens[j].at)
  {
    SearchIsRight(ring.tokens, hash, 0, |ring.tokens|);
  }

  ghost predicate HasPoint(ring: BuiltRing, at: Hash, url: string) {
    exists i :: 0 <= i < |ring.tokens| && ring.tokens[i].at == at && UrlAt(ring.shards, ring.tokens[i].shard) == url
  }

  /** Nearer going clockwise, or at the same place and no later by endpoint. */
  predicate Before(hash: Hash, at: Hash, url: string, other: Hash, otherUrl: string) {
    || Clockwise(hash, at) < Clockwise(hash, other)
    || (at == other && CompareText(NodeKey(url), NodeKey(otherUrl)) != Greater)
  }

  ghost predicate FirstPoint(ring: BuiltRing, hash: Hash, at: Hash, url: string) {
    HasPoint(ring, at, url) && forall t, u :: HasPoint(ring, t, u) ==> Before(hash, at, url, t, u)
  }

  /** No two shards have a token at the hash itself, where the search may land on either. */
  ghost predicate UndisputedAt(ring: BuiltRing, hash: Hash) {
    forall u, w :: HasPoint(ring, hash, u) && HasPoint(ring, hash, w) ==> u == w
  }

  /** No endpoint is listed twice, however spelled. */
  ghost predicate OneUrlPerKey(ring: BuiltRing) {
    forall t, u, s, w :: HasPoint(ring, t, u) && HasPoint(ring, s, w) && NodeKey(u) == NodeKey(w) ==> u == w
  }

  ghost predicate Ordered(ring: BuiltRing) {
    forall i, j :: 0 <= i < j < |ring.tokens| ==> TokenLeq(ring.shards)(ring.tokens[i], ring.tokens[j])
  }

  lemma OrderedAscends(ring: BuiltRing)
    requires Ordered(ring)
    ensures Ascending(ring.tokens)
  {
    forall i, j | 0 <= i < j < |ring.tokens|
      ensures ring.tokens[i].at <= ring.tokens[j].at
    {
      assert TokenLeq(ring.shards)(ring.tokens[i], ring.tokens[j]);
    }
  }

  /** Past the hash, the owner comes first of the tokens at its place. */
  lemma OwnerLeadsItsPlace(ring: BuiltRing, hash: Hash, j: nat)
    requires ring.tokens != [] && Ascending(ring.tokens) && j < |ring.tokens|
    requires var at := ring.tokens[OwnerIndex(ring, hash)].at; at != hash && ring.tokens[j].at == at
    ensures OwnerIndex(ring, hash) <= j
  {
    SearchIsRight(ring.tokens, hash, 0, |ring.tokens|);
  }

  /** Tokens may collide: ties go by endpoint, and away from the hash itself the search keeps to that. */
  lemma OwnerIsFirst(ring: BuiltRing, hash: Hash)
    requires ring.tokens != [] && Ordered(ring) && UndisputedAt(ring, hash)
    ensures FirstPoint(ring, hash, ring.tokens[OwnerIndex(ring, hash)].at, OwnerUrl(ring, hash))
  {
    hide NodeKey, Ordered;
    OrderedAscends(ring);
    OwnerIsNearest(ring, hash);
    var o := OwnerIndex(ring, hash);
    var at, url := ring.tokens[o].at, OwnerUrl(ring, hash);
    assert HasPoint(ring, at, url);
    forall t, u | HasPoint(ring, t, u)
      ensures Before(hash, at, url, t, u)
    {
      var j :| 0 <= j < |ring.tokens| && ring.tokens[j].at == t && UrlAt(ring.shards, ring.tokens[j].shard) == u;
      CompareTextLaws(NodeKey(url), NodeKey(u));
      if t == at && at != hash {
        OwnerLeadsItsPlace(ring, hash, j);
        if o < j { EarlierIsLeast(ring, o, j); }
      }
    }
  }

  lemma EarlierIsLeast(ring: BuiltRing, i: nat, j: nat)
    requires Ordered(ring) && i < j < |ring.tokens| && ring.tokens[i].at == ring.tokens[j].at
    ensures var key := (k: nat) => NodeKey(UrlAt(ring.shards, k));
      CompareText(key(ring.tokens[i].shard), key(ring.tokens[j].shard)) != Greater
  {
    assert TokenLeq(ring.shards)(ring.tokens[i], ring.tokens[j]);
  }

  /** And so the first point decides the owner. */
  lemma OwnerOfFirst(ring: BuiltRing, hash: Hash, at: Hash, url: string)
    requires Ordered(ring) && UndisputedAt(ring, hash) && OneUrlPerKey(ring) && FirstPoint(ring, hash, at, url)
    ensures OwnerUrl(ring, hash) == url
  {
    hide NodeKey, Ordered;
    OwnerIsFirst(ring, hash);
    CompareTextLaws(NodeKey(url), NodeKey(OwnerUrl(ring, hash)));
  }

  // ----- what a built ring holds

  lemma ComparePointsLaws(a: Hash, aKey: string, b: Hash, bKey: string, c: Hash, cKey: string)
    ensures ComparePoints(a, aKey, b, bKey) == ComparePoints(b, bKey, a, aKey).Reverse()
    ensures ComparePoints(a, aKey, b, bKey) == Equal ==> a == b && aKey == bKey
    ensures Chained(ComparePoints(a, aKey, b, bKey), ComparePoints(b, bKey, c, cKey), ComparePoints(a, aKey, c, cKey))
  {
    CompareTextLaws(aKey, bKey);
    CompareTextChains(aKey, bKey, cKey);
  }

  lemma TokenLeqIsTotal(shards: seq<Shard>)
    ensures TotalPreorder(TokenLeq(shards))
  {
    var leq := TokenLeq(shards);
    forall x: Token, y: Token, z: Token
      ensures (leq(x, y) || leq(y, x)) && (leq(x, y) && leq(y, z) ==> leq(x, z))
    {
      var k := (t: Token) => NodeKey(UrlAt(shards, t.shard));
      ComparePointsLaws(x.at, k(x), y.at, k(y), z.at, k(z));
    }
  }

  lemma BuiltIsOrdered(token: TokenFn, vnodes: nat, shards: seq<Shard>)
    ensures Ordered(Built(token, vnodes, shards))
  {
    TokenLeqIsTotal(shards);
    SortIsSorted(TokenLeq(shards), AllTokens(token, vnodes, shards, |shards|));
  }

  ghost predicate Lists(shards: seq<Shard>, url: string) {
    exists i :: 0 <= i < |shards| && shards[i].url == url
  }

  lemma {:induction false} ShardTokensAre(token: TokenFn, url: string, shard: nat, vnodes: nat, t: Token)
    ensures t in ShardTokens(token, url, shard, vnodes)
      <==> t.shard == shard && exists v :: 0 <= v < vnodes && t.at == token(NodeKey(url), v)
  {
    if vnodes > 0 {
      ShardTokensAre(token, url, shard, vnodes - 1, t);
      if v :| 0 <= v < vnodes && t.at == token(NodeKey(url), v) {
        assert v < vnodes - 1 || v == vnodes - 1;
      }
    }
  }

  lemma {:induction false} AllTokensAre(token: TokenFn, vnodes: nat, shards: seq<Shard>, n: nat, t: Token)
    requires n <= |shards|
    ensures t in AllTokens(token, vnodes, shards, n)
      <==> t.shard < n && exists v :: 0 <= v < vnodes && t.at == token(NodeKey(shards[t.shard].url), v)
  {
    hide NodeKey, ShardTokens;
    if n > 0 {
      AllTokensAre(token, vnodes, shards, n - 1, t);
      ShardTokensAre(token, shards[n - 1].url, n - 1, vnodes, t);
    }
  }

  /** A built ring has a point for each listed shard and virtual node, and no others. */
  lemma PointsOfBuilt(token: TokenFn, vnodes: nat, shards: seq<Shard>, at: Hash, url: string)
    ensures HasPoint(Built(token, vnodes, shards), at, url)
      <==> Lists(shards, url) && exists v :: 0 <= v < vnodes && at == token(NodeKey(url), v)
  {
    hide NodeKey, AllTokens, Sort;
    var ring, all := Built(token, vnodes, shards), AllTokens(token, vnodes, shards, |shards|);
    SortPermutes(TokenLeq(shards), all);
    if i :| 0 <= i < |ring.tokens| && ring.tokens[i].at == at && UrlAt(shards, ring.tokens[i].shard) == url {
      assert ring.tokens[i] in all;
      AllTokensAre(token, vnodes, shards, |shards|, ring.tokens[i]);
    }
    if s, v :| 0 <= s < |shards| && shards[s].url == url && 0 <= v < vnodes && at == token(NodeKey(url), v) {
      var t := Token(at, s);
      AllTokensAre(token, vnodes, shards, |shards|, t);
      assert t in ring.tokens;
    }
  }

  // ----- adding or removing a shard moves only its own share

  /** `more` is `fewer` with one shard added, wherever it is listed. Read forwards this is an addition and
      backwards a removal: a hash moves exactly when a token of that shard comes before every token of the
      owner it had, and every hash that shard does not hold keeps its owner. Tokens may collide. */
  lemma OneShardMovesOnlyItsShare(
    token: TokenFn, vnodes: nat, fewer: seq<Shard>, more: seq<Shard>, url: string, hash: Hash)
    requires forall u :: Lists(more, u) <==> Lists(fewer, u) || u == url
    requires forall u, w :: Lists(more, u) && Lists(more, w) && NodeKey(u) == NodeKey(w) ==> u == w
    requires !Lists(fewer, url) && vnodes > 0 && fewer != []
    requires UndisputedAt(Built(token, vnodes, more), hash)
    ensures var before := OwnerUrl(Built(token, vnodes, fewer), hash);
      var after := OwnerUrl(Built(token, vnodes, more), hash);
      && (after != url ==> after == before)
      && (after == url <==> exists v :: 0 <= v < vnodes && forall w :: 0 <= w < vnodes ==>
           Before(hash, token(NodeKey(url), v), url, token(NodeKey(before), w), before))
  {
    hide NodeKey;
    var f, m := Built(token, vnodes, fewer), Built(token, vnodes, more);
    BuiltIsOrdered(token, vnodes, fewer);
    BuiltIsOrdered(token, vnodes, more);
    PointsOfMore(token, vnodes, fewer, more, url);
    PointsAreKeyed(token, vnodes, more);
    var before := OwnerUrl(f, hash);
    assert f.tokens != [] by { FirstShardHasTokens(token, vnodes, fewer); }
    OwnerIsFirst(f, hash);
    OwnersPoints(token, vnodes, fewer, f.tokens[OwnerIndex(f, hash)].at, before);
    MovesOnlyToNew(token, vnodes, f, m, url, hash);
    MovesWhenFirst(token, vnodes, f, m, url, hash);
  }

  lemma PointsAreKeyed(token: TokenFn, vnodes: nat, shards: seq<Shard>)
    requires forall u, w :: Lists(shards, u) && Lists(shards, w) && NodeKey(u) == NodeKey(w) ==> u == w
    ensures OneUrlPerKey(Built(token, vnodes, shards))
  {
    hide NodeKey;
    var ring := Built(token, vnodes, shards);
    forall t, u | HasPoint(ring, t, u)
      ensures Lists(shards, u)
    {
      PointsOfBuilt(token, vnodes, shards, t, u);
    }
  }

  ghost predicate IsVnode(token: TokenFn, vnodes: nat, url: string, at: Hash) {
    exists v :: 0 <= v < vnodes && at == token(NodeKey(url), v)
  }

  /** `m` has the points of `f` and those of one more shard. */
  ghost predicate Adds(token: TokenFn, vnodes: nat, f: BuiltRing, m: BuiltRing, url: string) {
    && (forall t, u :: HasPoint(m, t, u) <==> HasPoint(f, t, u) || (u == url && IsVnode(token, vnodes, url, t)))
    && (forall t, u :: HasPoint(f, t, u) ==> u != url)
  }

  lemma PointsOfMore(token: TokenFn, vnodes: nat, fewer: seq<Shard>, more: seq<Shard>, url: string)
    requires forall u :: Lists(more, u) <==> Lists(fewer, u) || u == url
    requires !Lists(fewer, url)
    ensures Adds(token, vnodes, Built(token, vnodes, fewer), Built(token, vnodes, more), url)
  {
    var f, m := Built(token, vnodes, fewer), Built(token, vnodes, more);
    forall t, u
      ensures HasPoint(m, t, u) <==> HasPoint(f, t, u) || (u == url && IsVnode(token, vnodes, url, t))
      ensures HasPoint(f, t, u) ==> u != url
    {
      PointsOfBuilt(token, vnodes, fewer, t, u);
      PointsOfBuilt(token, vnodes, more, t, u);
    }
  }

  lemma FirstShardHasTokens(token: TokenFn, vnodes: nat, shards: seq<Shard>)
    requires shards != [] && vnodes > 0
    ensures Built(token, vnodes, shards).tokens != []
  {
    var t := Token(token(NodeKey(shards[0].url), 0), 0);
    AllTokensAre(token, vnodes, shards, |shards|, t);
    assert AllTokens(token, vnodes, shards, |shards|) != [];
  }

  lemma OwnersPoints(token: TokenFn, vnodes: nat, shards: seq<Shard>, at: Hash, url: string)
    requires HasPoint(Built(token, vnodes, shards), at, url)
    ensures forall t :: HasPoint(Built(token, vnodes, shards), t, url) <==> IsVnode(token, vnodes, url, t)
  {
    PointsOfBuilt(token, vnodes, shards, at, url);
    forall t
      ensures HasPoint(Built(token, vnodes, shards), t, url) <==> IsVnode(token, vnodes, url, t)
    {
      PointsOfBuilt(token, vnodes, shards, t, url);
    }
  }

  lemma MovesOnlyToNew(token: TokenFn, vnodes: nat, f: BuiltRing, m: BuiltRing, url: string, hash: Hash)
    requires Ordered(f) && Ordered(m) && UndisputedAt(m, hash) && OneUrlPerKey(m)
    requires Adds(token, vnodes, f, m, url) && f.tokens != []
    ensures m.tokens != [] && OneUrlPerKey(f) && UndisputedAt(f, hash)
    ensures OwnerUrl(m, hash) != url ==> OwnerUrl(m, hash) == OwnerUrl(f, hash)
  {
    hide NodeKey, Ordered;
    assert HasPoint(f, f.tokens[0].at, UrlAt(f.shards, f.tokens[0].shard));
    assert m.tokens != [];
    OwnerIsFirst(m, hash);
    if OwnerUrl(m, hash) != url {
      OwnerOfFirst(f, hash, m.tokens[OwnerIndex(m, hash)].at, OwnerUrl(m, hash));
    }
  }

  lemma MovesWhenFirst(token: TokenFn, vnodes: nat, f: BuiltRing, m: BuiltRing, url: string, hash: Hash)
    requires Ordered(f) && Ordered(m) && UndisputedAt(m, hash) && OneUrlPerKey(m)
    requires Adds(token, vnodes, f, m, url) && f.tokens != []
    requires forall t :: HasPoint(f, t, OwnerUrl(f, hash)) <==> IsVnode(token, vnodes, OwnerUrl(f, hash), t)
    ensures var before := OwnerUrl(f, hash);
      OwnerUrl(m, hash) == url <==> exists v :: 0 <= v < vnodes && forall w :: 0 <= w < vnodes ==>
        Before(hash, token(NodeKey(url), v), url, token(NodeKey(before), w), before)
  {
    hide NodeKey, Ordered, Before;
    var before := OwnerUrl(f, hash);
    MovesOnlyToNew(token, vnodes, f, m, url, hash);
    OwnerIsFirst(m, hash);
    var now := m.tokens[OwnerIndex(m, hash)].at;
    if OwnerUrl(m, hash) == url {
      var v :| 0 <= v < vnodes && now == token(NodeKey(url), v);
      forall w | 0 <= w < vnodes
        ensures Before(hash, token(NodeKey(url), v), url, token(NodeKey(before), w), before)
      {
        assert IsVnode(token, vnodes, before, token(NodeKey(before), w));
        assert HasPoint(m, token(NodeKey(before), w), before);
      }
    } else {
      assert HasPoint(f, now, before);
      var w :| 0 <= w < vnodes && now == token(NodeKey(before), w);
      forall v | 0 <= v < vnodes
        ensures !Before(hash, token(NodeKey(url), v), url, token(NodeKey(before), w), before)
      {
        assert IsVnode(token, vnodes, url, token(NodeKey(url), v));
        assert HasPoint(m, token(NodeKey(url), v), url) && HasPoint(m, now, before);
        OnlyOneIsBefore(hash, token(NodeKey(url), v), url, now, before);
      }
    }
  }

  lemma OnlyOneIsBefore(hash: Hash, at: Hash, url: string, other: Hash, otherUrl: string)
    requires Before(hash, other, otherUrl, at, url) && NodeKey(url) != NodeKey(otherUrl)
    ensures !Before(hash, at, url, other, otherUrl)
  {
    CompareTextLaws(NodeKey(url), NodeKey(otherUrl));
  }
}
