/** The cache of built rings, keyed by topology version (src/state.rs), and the order that decides which
    view a node adopts (src/cluster/metadata.rs). */
module RingCaches {
  import opened JsonValues
  import opened Orders
  import opened Endpoints
  import opened HashRings

  datatype HashRing = HashRing(vnodes: nat, shards: seq<Shard>)

  datatype View = View(version: nat, updatedBy: string, seeded: bool, ring: Option<HashRing>, target: Option<HashRing>)

  datatype Layout = Layout(ring: Option<BuiltRing>, target: Option<BuiltRing>)

  datatype Cache = Cache(version: nat, layout: Layout)

  function BuildOptional(token: TokenFn, r: Option<HashRing>): Option<BuiltRing> {
    if r.None? then None else Some(Built(token, r.value.vnodes, r.value.shards))
  }

  /** What a view means, rebuilt from nothing. */
  function Rebuilt(token: TokenFn, view: View): Layout {
    Layout(BuildOptional(token, view.ring), BuildOptional(token, view.target))
  }

  /** The ring of these members: none without them, else in token order with exactly their virtual nodes. */
  ghost predicate LaysOut(token: TokenFn, built: Option<BuiltRing>, r: Option<HashRing>) {
    && (built.Some? <==> r.Some?)
    && (built.Some? ==>
          && Ordered(built.value)
          && forall at, url :: HasPoint(built.value, at, url) <==>
               Lists(r.value.shards, url) && exists v :: 0 <= v < r.value.vnodes && at == token(NodeKey(url), v))
  }

  /** A layout answers for the ring in force and for the one being moved to, each from its own members. */
  lemma LayoutIsOfView(token: TokenFn, view: View)
    ensures LaysOut(token, Rebuilt(token, view).ring, view.ring)
    ensures LaysOut(token, Rebuilt(token, view).target, view.target)
  {
    LaidOut(token, view.ring);
    LaidOut(token, view.target);
  }

  lemma LaidOut(token: TokenFn, r: Option<HashRing>)
    ensures LaysOut(token, BuildOptional(token, r), r)
  {
    hide Built, Ordered, HasPoint, NodeKey;
    if r.Some? {
      BuiltIsOrdered(token, r.value.vnodes, r.value.shards);
      forall at, url
        ensures HasPoint(Built(token, r.value.vnodes, r.value.shards), at, url) <==>
          Lists(r.value.shards, url) && exists v :: 0 <= v < r.value.vnodes && at == token(NodeKey(url), v)
      {
        PointsOfBuilt(token, r.value.vnodes, r.value.shards, at, url);
      }
    }
  }

  const FRESH := Cache(0, Layout(None, None))

  function Installed(cache: Cache, view: View, built: Layout): Cache {
    if cache.version <= view.version then Cache(view.version, built) else cache
  }

  class RingCache {
    var version: nat
    var layout: Layout

    ghost function State(): Cache
      reads this
    {
      Cache(version, layout)
    }

    constructor ()
      ensures State() == FRESH
    {
      version, layout := 0, Layout(None, None);
    }

    /** The first lock: an answer if the version matches. */
    method Find(view: View) returns (found: Option<Layout>)
      ensures found == if State().version == view.version then Some(State().layout) else None
    {
      return if version == view.version then Some(layout) else None;
    }

    /** The second lock, after building outside it: a newer version that landed meanwhile stays. */
    method Install(view: View, built: Layout)
      modifies this
      ensures State() == Installed(old(State()), view, built)
      ensures version == if old(version) > view.version then old(version) else view.version
      ensures layout == if old(version) > view.version then old(layout) else built
    {
      if version <= view.version {
        version, layout := view.version, built;
      }
    }

    method RingsFor(token: TokenFn, view: View) returns (answer: Layout)
      modifies this
      ensures answer == if old(version) == view.version then old(layout) else Rebuilt(token, view)
      ensures State() == if old(version) == view.version then old(State())
        else Installed(old(State()), view, Rebuilt(token, view))
    {
      var found := Find(view);
      if found.Some? { return found.value; }
      answer := Rebuilt(token, view);
      Install(view, answer);
    }
  }

  /** Lookups by any number of callers interleave at the two locks: `Ask` takes the first, `Finish` the second. */
  datatype Step = Ask(view: View) | Finish(view: View)

  function After(token: TokenFn, steps: seq<Step>): Cache {
    if steps == [] then FRESH
    else
      var before, step := After(token, steps[..|steps| - 1]), steps[|steps| - 1];
      if step.Ask? then before else Installed(before, step.view, Rebuilt(token, step.view))
  }

  /** Every answer out of the cache is what rebuilding the caller's view would give. */
  ghost predicate AgreesWithRebuilding(token: TokenFn, steps: seq<Step>) {
    forall i :: 0 <= i < |steps| && steps[i].Ask? && After(token, steps[..i]).version == steps[i].view.version
      ==> After(token, steps[..i]).layout == Rebuilt(token, steps[i].view)
  }

  /** A run asks only about these views, and a caller installs only what it built after its own lookup missed. */
  ghost predicate RunOver(token: TokenFn, views: set<View>, steps: seq<Step>) {
    forall i :: 0 <= i < |steps| ==>
      steps[i].view in views && (steps[i].Finish? ==> Missed(token, steps[..i], steps[i].view))
  }

  ghost predicate Missed(token: TokenFn, steps: seq<Step>, view: View) {
    exists j :: 0 <= j < |steps| && steps[j] == Ask(view) && After(token, steps[..j]).version != view.version
  }

  /** A version names one layout, and version zero none. */
  ghost predicate VersionsNameLayouts(token: TokenFn, views: set<View>) {
    && (forall a: View, b: View :: a in views && b in views && a.version == b.version ==>
      Rebuilt(token, a) == Rebuilt(token, b))
    && (forall a: View :: a in views && a.version == 0 ==> Rebuilt(token, a) == Layout(None, None))
  }

  lemma PrefixIsARun(token: TokenFn, views: set<View>, steps: seq<Step>, n: nat)
    requires RunOver(token, views, steps) && n <= |steps|
    ensures RunOver(token, views, steps[..n])
  {
    forall i | 0 <= i < n
      ensures steps[..n][..i] == steps[..i]
    {
    }
  }

  lemma {:induction false} CacheHoldsAView(token: TokenFn, views: set<View>, steps: seq<Step>)
    requires RunOver(token, views, steps)
    ensures After(token, steps) == FRESH ||
      exists v :: v in views && After(token, steps) == Cache(v.version, Rebuilt(token, v))
  {
    if steps != [] {
      PrefixIsARun(token, views, steps, |steps| - 1);
      CacheHoldsAView(token, views, steps[..|steps| - 1]);
      assert steps[|steps| - 1].view in views;
    }
  }

  lemma OneAnswer(token: TokenFn, views: set<View>, steps: seq<Step>, i: nat)
    requires VersionsNameLayouts(token, views) && RunOver(token, views, steps) && i < |steps| && steps[i].Ask?
    requires After(token, steps[..i]).version == steps[i].view.version
    ensures After(token, steps[..i]).layout == Rebuilt(token, steps[i].view)
  {
    PrefixIsARun(token, views, steps, i);
    assert steps[i].view in views;
    CacheHoldsAView(token, views, steps[..i]);
  }

  /** Two callers one after the other: the first misses and installs, the second looks up. */
  function OneThenOther(a: View, b: View): seq<Step> {
    [Ask(a), Finish(a), Ask(b)]
  }

  lemma OneThenOtherServes(token: TokenFn, a: View, b: View)
    requires a.version == b.version != 0
    ensures RunOver(token, {a, b}, OneThenOther(a, b))
    ensures After(token, OneThenOther(a, b)[..2]) == Cache(a.version, Rebuilt(token, a))
    ensures AgreesWithRebuilding(token, OneThenOther(a, b)) ==> Rebuilt(token, a) == Rebuilt(token, b)
  {
    var steps := OneThenOther(a, b);
    assert steps[..0] == [] && steps[..1] == [Ask(a)] && [Ask(a)][..0] == [];
    assert steps[..2] == [Ask(a), Finish(a)] && [Ask(a), Finish(a)][..1] == [Ask(a)] && [Ask(a), Finish(a)][..0] == [];
    assert After(token, []) == FRESH && After(token, [Ask(a)]) == FRESH;
    assert Missed(token, steps[..1], a) by {
      assert steps[..1][0] == Ask(a);
    }
    assert steps[2].Ask?;
  }

  lemma FirstAnswerIsFresh(token: TokenFn, a: View)
    ensures RunOver(token, {a}, [Ask(a)])
    ensures a.version == 0 && AgreesWithRebuilding(token, [Ask(a)]) ==> Rebuilt(token, a) == Layout(None, None)
  {
    assert [Ask(a)][..0] == [] && [Ask(a)][0].Ask?;
  }

  lemma FewerViews(token: TokenFn, few: set<View>, views: set<View>, steps: seq<Step>)
    requires few <= views && RunOver(token, few, steps)
    ensures RunOver(token, views, steps)
  {
  }

  ghost predicate RightOverEveryRun(token: TokenFn, views: set<View>) {
    forall steps: seq<Step> :: RunOver(token, views, steps) ==> AgreesWithRebuilding(token, steps)
  }

  /** The cache agrees with rebuilding in every interleaving exactly when no two of the views asked about
      share a version and differ in layout. */
  lemma CacheIsRightIff(token: TokenFn, views: set<View>)
    ensures RightOverEveryRun(token, views) <==> VersionsNameLayouts(token, views)
  {
    if VersionsNameLayouts(token, views) {
      forall steps: seq<Step> | RunOver(token, views, steps)
        ensures AgreesWithRebuilding(token, steps)
      {
        forall i | 0 <= i < |steps| && steps[i].Ask? && After(token, steps[..i]).version == steps[i].view.version
          ensures After(token, steps[..i]).layout == Rebuilt(token, steps[i].view)
        {
          OneAnswer(token, views, steps, i);
        }
      }
    }
    if RightOverEveryRun(token, views) {
      RightMeansNamed(token, views);
    }
  }

  lemma RightMeansNamed(token: TokenFn, views: set<View>)
    requires RightOverEveryRun(token, views)
    ensures VersionsNameLayouts(token, views)
  {
    forall a: View | a in views && a.version == 0
      ensures Rebuilt(token, a) == Layout(None, None)
    {
      FirstAnswerIsFresh(token, a);
      FewerViews(token, {a}, views, [Ask(a)]);
    }
    forall a: View, b: View | a in views && b in views && a.version == b.version
      ensures Rebuilt(token, a) == Rebuilt(token, b)
    {
      if a.version != 0 {
        OneThenOtherServes(token, a, b);
        FewerViews(token, {a, b}, views, OneThenOther(a, b));
      }
    }
  }

  /** Which of two views a node keeps: the higher version, then the greater author; a seed never wins. */
  predicate Supersedes(a: View, b: View) {
    if a.seeded then false
    else if b.seeded then a.version >= b.version
    else a.version > b.version || (a.version == b.version && CompareText(a.updatedBy, b.updatedBy) == Greater)
  }

  function Adopt(current: View, incoming: View): View {
    if Supersedes(incoming, current) then incoming else current
  }

  /** A published view takes the place of any of a lower version, of a seed's of the same version, and of another
      author's of the same version if its author is the greater; a seed takes nobody's. */
  lemma AdoptedIff(current: View, incoming: View)
    requires current != incoming
    ensures Adopt(current, incoming) == incoming <==>
      && !incoming.seeded
      && (|| incoming.version > current.version
          || (incoming.version == current.version
              && (current.seeded || CompareText(current.updatedBy, incoming.updatedBy) == Less)))
    ensures Adopt(current, incoming) == incoming || Adopt(current, incoming) == current
  {
    CompareTextLaws(current.updatedBy, incoming.updatedBy);
  }

  /** What a node holds after these views came in. */
  function Survivor(start: View, views: seq<View>): View {
    if views == [] then start else Adopt(Survivor(start, views[..|views| - 1]), views[|views| - 1])
  }

  /** It is one of those it was offered, and no published one of them is newer, nor as new by a greater author. */
  lemma {:induction false} SurvivorIsNewest(start: View, views: seq<View>)
    ensures var kept := Survivor(start, views);
      && (kept == start || kept in views) && kept.version >= start.version
      && (kept.seeded ==> kept == start)
      && forall v :: v in views && !v.seeded ==>
           && v.version <= kept.version
           && (v.version == kept.version ==> !kept.seeded && CompareText(v.updatedBy, kept.updatedBy) != Greater)
  {
    if views != [] {
      var before, last := views[..|views| - 1], views[|views| - 1];
      SurvivorIsNewest(start, before);
      var held := Survivor(start, before);
      CompareTextLaws(last.updatedBy, held.updatedBy);
      CompareTextLaws(last.updatedBy, last.updatedBy);
      assert views == before + [last];
      forall v | v in before
        ensures Chained(CompareText(v.updatedBy, held.updatedBy), CompareText(held.updatedBy, last.updatedBy),
                        CompareText(v.updatedBy, last.updatedBy))
      {
        CompareTextChains(v.updatedBy, held.updatedBy, last.updatedBy);
      }
    }
  }

  /** Arrival order does not decide which of two published views survives. */
  lemma AdoptionConverges(start: View, a: View, b: View)
    requires !a.seeded && !b.seeded && Supersedes(a, start) && Supersedes(b, start)
    requires (a.version, a.updatedBy) != (b.version, b.updatedBy)
    ensures Adopt(Adopt(start, a), b) == Adopt(Adopt(start, b), a)
  {
    CompareTextLaws(a.updatedBy, b.updatedBy);
  }

  /** Two authors may publish one version, and every node then adopts the greater author's view; but a node
      that laid out the lesser one first goes on answering from it whenever the two layouts differ. */
  lemma TieBreakLeavesAStaleRing(token: TokenFn, a: View, b: View)
    requires !a.seeded && !b.seeded && a.version == b.version > 0 && CompareText(b.updatedBy, a.updatedBy) == Greater
    ensures Adopt(a, b) == b
    ensures RunOver(token, {a, b}, OneThenOther(a, b))
    ensures AgreesWithRebuilding(token, OneThenOther(a, b)) <==> Rebuilt(token, a) == Rebuilt(token, b)
  {
    OneThenOtherServes(token, a, b);
    if Rebuilt(token, a) == Rebuilt(token, b) {
      CacheIsRightIff(token, {a, b});
      assert VersionsNameLayouts(token, {a, b});
    }
  }
}
