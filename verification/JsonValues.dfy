/** JSON documents, dotted-path lookup and the cross-type order (src/json.rs). */
module JsonValues {
  import opened Orders

  datatype Option<+T> = None | Some(value: T)

  /** Integers and decimals are held apart: 1 and 1.0 are different values. A decimal is kept as the `f64` it
      is read as, whatever digits it was written with. */
  datatype Numeral = Integer(i: int) | Decimal(r: real)

  /** A number keeps whether it is an integer or a decimal beside the `f64` it is read as: equality sees the
      first, ordering only the second. Objects are sorted maps, so their text order does not exist here. */
  datatype Json =
    | Null
    | Bool(b: bool)
    | Number(numeral: Numeral, approx: real)
    | Text(s: string)
    | Array(items: seq<Json>)
    | Object(members: map<string, Json>)

  /** `str::split`: always at least one part. */
  function Split(text: string, sep: char): (parts: seq<string>)
    ensures parts != []
  {
    if text == [] then [""]
    else if text[0] == sep then [""] + Split(text[1..], sep)
    else
      var rest := Split(text[1..], sep);
      [[text[0]] + rest[0]] + rest[1..]
  }

  /** `parts` with the separator between each two. */
  function Joined(parts: seq<string>, sep: char): string {
    if parts == [] then ""
    else if |parts| == 1 then parts[0]
    else parts[0] + [sep] + Joined(parts[1..], sep)
  }

  /** Splitting gives the one list of parts, none holding the separator, that joins back to the text. */
  lemma {:induction false} SplitIff(text: string, sep: char, parts: seq<string>)
    ensures parts == Split(text, sep) <==>
      parts != [] && (forall p :: p in parts ==> sep !in p) && Joined(parts, sep) == text
  {
    SplitJoins(text, sep);
    if parts != [] && (forall p :: p in parts ==> sep !in p) && Joined(parts, sep) == text {
      SplitOfJoined(parts, sep);
    }
  }

  lemma {:induction false} SplitJoins(text: string, sep: char)
    ensures Joined(Split(text, sep), sep) == text && forall p :: p in Split(text, sep) ==> sep !in p
  {
    hide Joined;
    JoinedAlone("", sep);
    if text != [] {
      var rest := Split(text[1..], sep);
      SplitJoins(text[1..], sep);
      assert text == [text[0]] + text[1..];
      assert rest[0] in rest;
      if text[0] == sep { JoinedBehind(rest, sep); } else { JoinedLonger(text[0], rest, sep); }
    }
  }

  lemma JoinedAlone(part: string, sep: char)
    ensures Joined([part], sep) == part
  {
  }

  lemma JoinedBehind(rest: seq<string>, sep: char)
    requires rest != []
    ensures Joined([""] + rest, sep) == [sep] + Joined(rest, sep)
  {
    assert ([""] + rest)[1..] == rest;
  }

  lemma JoinedLonger(c: char, rest: seq<string>, sep: char)
    requires rest != []
    ensures Joined([[c] + rest[0]] + rest[1..], sep) == [c] + Joined(rest, sep)
  {
    assert ([[c] + rest[0]] + rest[1..])[1..] == rest[1..];
  }

  lemma {:induction false} SplitOfJoined(parts: seq<string>, sep: char)
    requires parts != [] && forall p :: p in parts ==> sep !in p
    ensures Split(Joined(parts, sep), sep) == parts
    decreases |parts|, |parts[0]|
  {
    var text := Joined(parts, sep);
    assert parts[0] in parts;
    if parts[0] == "" {
      if |parts| > 1 {
        assert text == [sep] + Joined(parts[1..], sep);
        assert forall p :: p in parts[1..] ==> p in parts;
        SplitOfJoined(parts[1..], sep);
        assert text[1..] == Joined(parts[1..], sep);
      }
      assert parts == [""] + parts[1..];
    } else {
      var c, shorter := parts[0][0], parts[0 := parts[0][1..]];
      assert c in parts[0];
      assert shorter[1..] == parts[1..];
      assert text == [c] + Joined(shorter, sep);
      forall p | p in shorter
        ensures sep !in p
      {
        assert p == parts[0][1..] || p in parts[1..];
      }
      SplitOfJoined(shorter, sep);
      assert text[1..] == Joined(shorter, sep);
      assert [c] + shorter[0] == parts[0];
      assert [[c] + shorter[0]] + shorter[1..] == parts;
    }
  }

  function Member(doc: Json, name: string): Option<Json> {
    if doc.Object? && name in doc.members then Some(doc.members[name]) else None
  }

  function Lookup(doc: Json, parts: seq<string>): Option<Json>
    decreases |parts|
  {
    if parts == [] then Some(doc)
    else match Member(doc, parts[0])
      case None => None
      case Some(v) => Lookup(v, parts[1..])
  }

  /** `steps` leads from the document through one object after another, taking the named member of each. */
  ghost predicate Leads(doc: Json, parts: seq<string>, steps: seq<Json>) {
    && |steps| == |parts| + 1 && steps[0] == doc
    && forall i :: 0 <= i < |parts| ==>
         steps[i].Object? && parts[i] in steps[i].members && steps[i + 1] == steps[i].members[parts[i]]
  }

  /** A path finds what it leads to, and nothing where it leads nowhere. */
  lemma {:induction false} LookupLeads(doc: Json, parts: seq<string>, v: Json)
    ensures Lookup(doc, parts) == Some(v) <==> exists steps :: Leads(doc, parts, steps) && steps[|parts|] == v
  {
    if parts == [] {
      assert Leads(doc, parts, [doc]);
    } else {
      if Lookup(doc, parts) == Some(v) {
        var next := doc.members[parts[0]];
        LookupLeads(next, parts[1..], v);
        var steps :| Leads(next, parts[1..], steps) && steps[|parts| - 1] == v;
        LeadsFurther(doc, parts, steps);
      }
      if steps :| Leads(doc, parts, steps) && steps[|parts|] == v {
        LookupLeads(steps[1], parts[1..], v);
        assert Leads(steps[1], parts[1..], steps[1..]);
      }
    }
  }

  lemma LeadsFurther(doc: Json, parts: seq<string>, steps: seq<Json>)
    requires parts != [] && doc.Object? && parts[0] in doc.members
    requires Leads(doc.members[parts[0]], parts[1..], steps)
    ensures Leads(doc, parts, [doc] + steps)
  {
    forall i | 0 < i < |parts|
      ensures ([doc] + steps)[i].Object? && parts[i] in ([doc] + steps)[i].members
      ensures ([doc] + steps)[i + 1] == ([doc] + steps)[i].members[parts[i]]
    {
      assert parts[1..][i - 1] == parts[i];
    }
  }

  method GetPathValue(doc: Json, path: string) returns (r: Option<Json>)
    ensures r == Lookup(doc, Split(path, '.'))
  {
    var parts := Split(path, '.');
    var cur := doc;
    for i := 0 to |parts|
      invariant Lookup(doc, parts) == Lookup(cur, parts[i..])
    {
      match Member(cur, parts[i]) {
        case None => return None;
        case Some(v) => cur := v;
      }
    }
    return Some(cur);
  }

  function TypeRank(v: Json): nat {
    match v
    case Null => 0
    case Bool(_) => 1
    case Number(_, _) => 2
    case Text(_) => 3
    case Array(_) => 4
    case Object(_) => 5
  }

  predicate IsMinKey(keys: set<string>, k: string) {
    k in keys && forall j :: j in keys ==> CompareText(k, j) != Greater
  }

  lemma {:induction false} MinKeyExists(keys: set<string>)
    requires keys != {}
    ensures exists k :: IsMinKey(keys, k)
    decreases |keys|
  {
    var x :| x in keys;
    var rest := keys - {x};
    if rest == {} {
      assert keys == {x};
      CompareTextLaws(x, x);
      assert IsMinKey(keys, x);
    } else {
      MinKeyExists(rest);
      var y :| IsMinKey(rest, y);
      CompareTextLaws(x, y);
      CompareTextLaws(x, x);
      var k := if CompareText(y, x) == Greater then x else y;
      forall j | j in keys
        ensures CompareText(k, j) != Greater
      {
        CompareTextChains(x, y, j);
      }
      assert IsMinKey(keys, k);
    }
  }

  lemma MinKeyIsUnique(keys: set<string>, a: string, b: string)
    requires IsMinKey(keys, a) && IsMinKey(keys, b)
    ensures a == b
  {
    CompareTextLaws(a, b);
  }

  /** A `BTreeMap` iterates its keys in ascending order. */
  function SortedKeys(keys: set<string>): (ks: seq<string>)
    ensures forall k :: k in ks <==> k in keys
    ensures |ks| == |keys|
    ensures forall i, j :: 0 <= i < j < |ks| ==> ks[i] != ks[j]
    ensures forall i, j :: 0 <= i < j < |ks| ==> CompareText(ks[i], ks[j]) != Greater
    decreases |keys|
  {
    if keys == {} then []
    else
      MinKeyExists(keys);
      assert forall a, b :: IsMinKey(keys, a) && IsMinKey(keys, b) ==> a == b by {
        forall a, b | IsMinKey(keys, a) && IsMinKey(keys, b)
          ensures a == b
        {
          MinKeyIsUnique(keys, a, b);
        }
      }
      var k :| k in keys && IsMinKey(keys, k);
      [k] + SortedKeys(keys - {k})
  }

  function JsonCmp(a: Json, b: Json): Ordering
    decreases a
  {
    match (a, b)
    case (Null, Null) => Equal
    case (Bool(x), Bool(y)) => CompareInt(if x then 1 else 0, if y then 1 else 0)
    case (Number(_, x), Number(_, y)) => CompareReal(x, y)
    case (Text(x), Text(y)) => CompareText(x, y)
    case (Array(x), Array(y)) => CmpItems(x, y)
    case (Object(x), Object(y)) => CmpMembers(a, SortedKeys(x.Keys), b, SortedKeys(y.Keys))
    case _ => CompareInt(TypeRank(a), TypeRank(b))
  }

  function CmpItems(x: seq<Json>, y: seq<Json>): Ordering
    decreases x
  {
    if x == [] || y == [] then CompareInt(|x|, |y|)
    else JsonCmp(x[0], y[0]).Then(CmpItems(x[1..], y[1..]))
  }

  ghost predicate KeysOf(a: Json, ka: seq<string>) {
    a.Object? && forall k :: k in ka ==> k in a.members
  }

  /** The entries of `a` and `b` under the keys still to come, pairwise. */
  function CmpMembers(a: Json, ka: seq<string>, b: Json, kb: seq<string>): Ordering
    requires KeysOf(a, ka) && KeysOf(b, kb)
    decreases a, |ka|
  {
    if ka == [] || kb == [] then CompareInt(|ka|, |kb|)
    else
      CompareText(ka[0], kb[0])
        .Then(JsonCmp(a.members[ka[0]], b.members[kb[0]]))
        .Then(CmpMembers(a, ka[1..], b, kb[1..]))
  }
}
