/** Projection and merge patch (src/json.rs). */
module Documents {
  import opened JsonValues

  // ----- projection

  function SetPath(m: map<string, Json>, parts: seq<string>, val: Json): map<string, Json>
    decreases |parts|
  {
    if parts == [] then m
    else if |parts| == 1 then m[parts[0] := val]
    else
      var entry := if parts[0] in m && m[parts[0]].Object? then m[parts[0]].members else map[];
      m[parts[0] := Object(SetPath(entry, parts[1..], val))]
  }

  /** `a` has nothing `doc` does not have in the same place. */
  ghost predicate Sub(a: Json, doc: Json)
    decreases a
  {
    a == doc || (a.Object? && forall k :: k in a.members ==>
      doc.Object? && k in doc.members && Sub(a.members[k], doc.members[k]))
  }

  lemma {:induction false} SubLooksUp(a: Json, doc: Json, q: seq<string>)
    requires Sub(a, doc) && Lookup(doc, q).None?
    ensures Lookup(a, q).None?
    decreases |q|
  {
    if a != doc && q != [] && a.Object? && q[0] in a.members {
      SubLooksUp(a.members[q[0]], doc.members[q[0]], q[1..]);
    }
  }

  /** Setting a path to what it already holds changes nothing. */
  lemma {:induction false} SetSame(m: map<string, Json>, parts: seq<string>, v: Json)
    requires parts != [] && Lookup(Object(m), parts) == Some(v)
    ensures SetPath(m, parts, v) == m
    decreases |parts|
  {
    if |parts| > 1 {
      assert m[parts[0]].Object?;
      SetSame(m[parts[0]].members, parts[1..], v);
    }
  }

  lemma {:induction false} SetStaysSub(m: map<string, Json>, doc: Json, parts: seq<string>, v: Json)
    requires Sub(Object(m), doc) && parts != [] && Lookup(doc, parts) == Some(v)
    ensures Sub(Object(SetPath(m, parts, v)), doc)
    ensures Lookup(Object(SetPath(m, parts, v)), parts) == Some(v)
    decreases |parts|
  {
    var k := parts[0];
    if |parts| > 1 {
      var entry := if k in m && m[k].Object? then m[k].members else map[];
      assert doc.members[k].Object?;
      SetStaysSub(entry, doc.members[k], parts[1..], v);
    }
  }

  /** A field already taken over survives taking over another, whichever overlaps which. */
  lemma {:induction false} SetKeepsField(m: map<string, Json>, doc: Json, parts: seq<string>, v: Json, q: seq<string>)
    requires Sub(Object(m), doc) && parts != [] && Lookup(doc, parts) == Some(v)
    requires q != [] && Lookup(Object(m), q) == Lookup(doc, q) && Lookup(doc, q).Some?
    ensures Lookup(Object(SetPath(m, parts, v)), q) == Lookup(doc, q)
    decreases |parts|
  {
    var k := parts[0];
    if q[0] == k && |parts| > 1 {
      assert doc.members[k].Object?;
      if |q| == 1 {
        assert m[k] == doc.members[k];
        SetSame(m[k].members, parts[1..], v);
      } else {
        assert m[k].Object?;
        SetKeepsField(m[k].members, doc.members[k], parts[1..], v, q[1..]);
      }
    }
  }

  /** The projection and the document answer every requested path alike, absence included, whatever the
      paths' order, overlap and repetition. */
  method Project(doc: Json, fields: seq<string>) returns (r: Json)
    ensures fields == [] ==> r == doc
    ensures forall i :: 0 <= i < |fields| ==> Lookup(r, Split(fields[i], '.')) == Lookup(doc, Split(fields[i], '.'))
    ensures forall q :: Lookup(doc, q).None? ==> Lookup(r, q).None?
    ensures Sub(r, doc)
  {
    if fields == [] { return doc; }
    var out: map<string, Json> := map[];
    for i := 0 to |fields|
      invariant Sub(Object(out), doc)
      invariant forall j :: 0 <= j < i && Lookup(doc, Split(fields[j], '.')).Some? ==>
        Lookup(Object(out), Split(fields[j], '.')) == Lookup(doc, Split(fields[j], '.'))
    {
      var parts := Split(fields[i], '.');
      var v := GetPathValue(doc, fields[i]);
      if v.Some? {
        TakeField(out, doc, fields, i, v.value);
        out := SetPath(out, parts, v.value);
      }
    }
    r := Object(out);
    forall q | Lookup(doc, q).None?
      ensures Lookup(r, q).None?
    {
      SubLooksUp(r, doc, q);
    }
  }

  lemma TakeField(out: map<string, Json>, doc: Json, fields: seq<string>, i: nat, v: Json)
    requires Sub(Object(out), doc) && i < |fields| && Lookup(doc, Split(fields[i], '.')) == Some(v)
    requires forall j :: 0 <= j < i && Lookup(doc, Split(fields[j], '.')).Some? ==>
      Lookup(Object(out), Split(fields[j], '.')) == Lookup(doc, Split(fields[j], '.'))
    ensures var next := SetPath(out, Split(fields[i], '.'), v);
      && Sub(Object(next), doc)
      && forall j :: 0 <= j <= i && Lookup(doc, Split(fields[j], '.')).Some? ==>
           Lookup(Object(next), Split(fields[j], '.')) == Lookup(doc, Split(fields[j], '.'))
  {
    var parts := Split(fields[i], '.');
    SetStaysSub(out, doc, parts, v);
    forall j | 0 <= j < i && Lookup(doc, Split(fields[j], '.')).Some?
      ensures Lookup(Object(SetPath(out, parts, v)), Split(fields[j], '.')) == Lookup(doc, Split(fields[j], '.'))
    {
      SetKeepsField(out, doc, parts, v, Split(fields[j], '.'));
    }
  }

  // ----- merge patch

  function Base(target: Json): map<string, Json> {
    if target.Object? then target.members else map[]
  }

  function OrNull(m: map<string, Json>, k: string): Json {
    if k in m then m[k] else Null
  }

  /** Section 2 of RFC 7396, member by member: a null drops the member, any other value is merged into
      what the target has there, and what the patch does not name stays. */
  function Merged(target: Json, patch: Json): Json
    decreases patch
  {
    if !patch.Object? then patch
    else
      var base := Base(target);
      Object(map k | k in base.Keys + patch.members.Keys && (k in patch.members ==> !patch.members[k].Null?) ::
        if k in patch.members then Merged(OrNull(base, k), patch.members[k]) else base[k])
  }

  /** `m` is the base with the keys in `done` patched. */
  ghost predicate Patched(base: map<string, Json>, p: map<string, Json>, done: seq<string>, m: map<string, Json>) {
    && (forall k :: k in m <==> if k in done && k in p then !p[k].Null? else k in base)
    && (forall k :: k in m ==> m[k] == if k in done && k in p then Merged(OrNull(base, k), p[k]) else base[k])
  }

  lemma PatchNone(base: map<string, Json>, p: map<string, Json>)
    ensures Patched(base, p, [], base)
  {
  }

  lemma PatchOne(base: map<string, Json>, p: map<string, Json>, done: seq<string>, m: map<string, Json>, k: string)
    requires Patched(base, p, done, m) && k in p && k !in done
    ensures OrNull(m, k) == OrNull(base, k)
    ensures p[k].Null? ==> Patched(base, p, done + [k], m - {k})
    ensures !p[k].Null? ==> Patched(base, p, done + [k], m[k := Merged(OrNull(base, k), p[k])])
  {
    hide Merged;
  }

  lemma PatchAll(target: Json, patch: Json, done: seq<string>, m: map<string, Json>)
    requires patch.Object? && Patched(Base(target), patch.members, done, m)
    requires forall k :: k in patch.members ==> k in done
    ensures Merged(target, patch) == Object(m)
  {
    assert m == Merged(target, patch).members;
  }

  /** Anything but an object replaces the target, and an object makes one of it. */
  lemma NotAnObject(target: Json, patch: Json)
    ensures !patch.Object? ==> Merged(target, patch) == patch
    ensures patch.Object? ==> Merged(target, patch).Object?
  {
  }

  method MergePatch(target: Json, patch: Json) returns (r: Json)
    ensures r == Merged(target, patch)
    decreases patch
  {
    NotAnObject(target, patch);
    hide Merged, Patched;
    match patch
    case Object(p) =>
      var base := Base(target);
      var keys := SortedKeys(p.Keys);
      var m := base;
      PatchNone(base, p);
      for i := 0 to |keys|
        invariant Patched(base, p, keys[..i], m)
      {
        var k := keys[i];
        assert k in p.Keys && keys[..i + 1] == keys[..i] + [k];
        PatchOne(base, p, keys[..i], m, k);
        if p[k].Null? {
          m := m - {k};
        } else {
          var merged := MergePatch(OrNull(m, k), p[k]);
          m := m[k := merged];
        }
      }
      assert keys[..|keys|] == keys;
      PatchAll(target, patch, keys, m);
      return Object(m);
    case _ => return patch;
  }

  /** Applying one patch twice is applying it once. */
  lemma {:induction false} MergedTwice(target: Json, patch: Json)
    ensures Merged(Merged(target, patch), patch) == Merged(target, patch)
    decreases patch
  {
    if patch.Object? {
      var p, once := patch.members, Merged(target, patch).members;
      forall k | k in p && !p[k].Null?
        ensures Merged(OrNull(once, k), p[k]) == once[k]
      {
        MergedTwice(OrNull(Base(target), k), p[k]);
      }
      var twice := Merged(Object(once), patch).members;
      assert twice.Keys == once.Keys;
      assert forall k :: k in once ==> twice[k] == once[k];
      assert twice == once;
    }
  }

  /** Whether the patch says anything about the place `q` names. */
  predicate Touches(patch: Json, q: seq<string>)
    decreases |q|
  {
    q == [] || !patch.Object? || (q[0] in patch.members && Touches(patch.members[q[0]], q[1..]))
  }

  /** What the patch does not touch, at any depth, it leaves as it was. */
  lemma {:induction false} UntouchedStays(target: Json, patch: Json, q: seq<string>)
    requires !Touches(patch, q)
    ensures Lookup(Merged(target, patch), q) == Lookup(target, q)
    decreases |q|
  {
    var k, p := q[0], patch.members;
    if k in p {
      UntouchedStays(OrNull(Base(target), k), p[k], q[1..]);
    }
  }

  /** What the patch names it sets: a null removes the place, anything else is merged into what was there. */
  lemma {:induction false} TouchedIsMerged(target: Json, patch: Json, q: seq<string>, v: Json)
    requires q != [] && Lookup(patch, q) == Some(v)
    ensures Lookup(Merged(target, patch), q)
      == if v.Null? then None else Some(Merged(match Lookup(target, q) case Some(w) => w case None => Null, v))
    decreases |q|
  {
    var k, p := q[0], patch.members;
    if |q| > 1 {
      assert p[k].Object?;
      TouchedIsMerged(OrNull(Base(target), k), p[k], q[1..], v);
    }
  }
}
