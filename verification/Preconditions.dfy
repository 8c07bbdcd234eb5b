/** Conditional writes (src/api/precondition.rs): when `If-Match` and `If-None-Match` let one through. */
module Preconditions {
  import opened JsonValues
  import opened Results
  import opened EntityTags

  /** The frame that last wrote a key. */
  datatype Version = Version(term: nat, lsn: nat)

  datatype Preconditions = Preconditions(ifMatch: Option<Tags>, ifNoneMatch: Option<Tags>)

  function Decimal(n: nat): (text: string)
    ensures text != []
  {
    var last := ['0' + (n % 10) as char];
    if n < 10 then last else Decimal(n / 10) + last
  }

  function Etag(v: Version): string {
    Quoted(Decimal(v.term) + "." + Decimal(v.lsn))
  }

  /** The entity tag without its quotes. */
  function Bare(v: Version): string {
    Etag(v)[1..|Etag(v)| - 1]
  }

  predicate Holds(p: Preconditions, current: Option<Version>) {
    if p.ifMatch.Some? && !Matched(p.ifMatch.value, current, false) then false
    else !(p.ifNoneMatch.Some? && Matched(p.ifNoneMatch.value, current, true))
  }

  predicate Matched(tags: Tags, current: Option<Version>, weakly: bool) {
    if current.None? then false
    else match tags
      case Any => true
      case List(list) => exists i :: 0 <= i < |list| && (weakly || !list[i].weak) && list[i].text == Bare(current.value)
  }

  // ----- what RFC 9110 decides

  predicate StronglyEqual(a: EntityTag, b: EntityTag) {
    !a.weak && !b.weak && a.text == b.text
  }

  predicate WeaklyEqual(a: EntityTag, b: EntityTag) {
    a.text == b.text
  }

  /** The stored document's own tag, which is strong. */
  function Stored(v: Version): EntityTag {
    EntityTag(false, Decimal(v.term) + "." + Decimal(v.lsn))
  }

  /** Section 13.1.1: true on "*" if there is a representation, on a list if one tag matches it strongly. */
  predicate IfMatchIsTrue(tags: Tags, current: Option<Version>) {
    match tags
    case Any => current.Some?
    case List(list) => current.Some? && exists t :: t in list && StronglyEqual(t, Stored(current.value))
  }

  /** Section 13.1.2: false on "*" if there is a representation, on a list if one tag matches it weakly. */
  predicate IfNoneMatchIsTrue(tags: Tags, current: Option<Version>) {
    match tags
    case Any => current.None?
    case List(list) => current.None? || forall t :: t in list ==> !WeaklyEqual(t, Stored(current.value))
  }

  lemma BareIsStored(v: Version)
    ensures Bare(v) == Stored(v).text
  {
  }

  /** Section 13.2.2: a write goes through when every condition it carries is true, If-Match asked first. */
  lemma HoldsAsDecided(p: Preconditions, current: Option<Version>)
    ensures Holds(p, current) <==>
      && (p.ifMatch.Some? ==> IfMatchIsTrue(p.ifMatch.value, current))
      && (p.ifNoneMatch.Some? ==> IfNoneMatchIsTrue(p.ifNoneMatch.value, current))
  {
    hide Matched, IfMatchIsTrue, IfNoneMatchIsTrue;
    if p.ifMatch.Some? { MatchedAsDecided(p.ifMatch.value, current); }
    if p.ifNoneMatch.Some? { MatchedAsDecided(p.ifNoneMatch.value, current); }
  }

  lemma MatchedAsDecided(tags: Tags, current: Option<Version>)
    ensures Matched(tags, current, false) <==> IfMatchIsTrue(tags, current)
    ensures Matched(tags, current, true) <==> !IfNoneMatchIsTrue(tags, current)
  {
    hide Bare, Stored;
    if current.Some? && tags.List? {
      BareIsStored(current.value);
      StoredIsStrong(current.value);
      assert forall i :: 0 <= i < |tags.tags| ==> tags.tags[i] in tags.tags;
    }
  }

  lemma StoredIsStrong(v: Version)
    ensures !Stored(v).weak
  {
  }

  // ----- a version and its tag

  predicate OnlyDigits(text: string) {
    forall i :: 0 <= i < |text| ==> '0' <= text[i] <= '9'
  }

  function Read(text: string): nat
    requires OnlyDigits(text)
  {
    if text == [] then 0 else 10 * Read(text[..|text| - 1]) + (text[|text| - 1] as int - '0' as int)
  }

  lemma {:induction false} DecimalIsRead(n: nat)
    ensures OnlyDigits(Decimal(n)) && Read(Decimal(n)) == n
  {
    var text := Decimal(n);
    if n < 10 {
      assert text[..|text| - 1] == [];
    } else {
      DecimalIsRead(n / 10);
      assert text[..|text| - 1] == Decimal(n / 10);
    }
  }

  lemma {:induction false} NoLeadingZero(n: nat)
    ensures Decimal(n)[0] == '0' ==> Decimal(n) == "0"
  {
    if n >= 10 {
      NoLeadingZero(n / 10);
      DecimalIsRead(n / 10);
    }
  }

  /** A tag is the term and the position in decimal, with a point between them and quotes around. */
  lemma EtagIsTermAndPosition(v: Version)
    ensures exists term, lsn ::
      && OnlyDigits(term) && Read(term) == v.term && OnlyDigits(lsn) && Read(lsn) == v.lsn
      && (term != [] && term[0] == '0' ==> term == "0") && (lsn != [] && lsn[0] == '0' ==> lsn == "0")
      && Etag(v) == "\"" + term + "." + lsn + "\"" && Bare(v) == Stored(v).text == term + "." + lsn
  {
    DecimalIsRead(v.term);
    DecimalIsRead(v.lsn);
    NoLeadingZero(v.term);
    NoLeadingZero(v.lsn);
    BareIsStored(v);
    var term, lsn := Decimal(v.term), Decimal(v.lsn);
    assert Etag(v) == "\"" + term + "." + lsn + "\"";
  }

  /** Two versions never share a tag, so equal tags mean the same write. */
  lemma EtagsAreDistinct(a: Version, b: Version)
    requires Bare(a) == Bare(b)
    ensures a == b
  {
    hide Decimal;
    BareIsStored(a);
    BareIsStored(b);
    DecimalIsRead(a.term); DecimalIsRead(a.lsn);
    DecimalIsRead(b.term); DecimalIsRead(b.lsn);
    SplitsOnce(Decimal(a.term), Decimal(a.lsn), Decimal(b.term), Decimal(b.lsn));
  }

  lemma SplitsOnce(a: string, x: string, b: string, y: string)
    requires OnlyDigits(a) && OnlyDigits(b) && a + "." + x == b + "." + y
    ensures a == b && x == y
  {
    PositionAfter(a, '.', x);
    PositionAfter(b, '.', y);
    assert a + "." + x == a + (['.'] + x) && b + "." + y == b + (['.'] + y);
    assert a == (a + "." + x)[..|a|] && b == (b + "." + y)[..|b|];
    assert x == (a + "." + x)[|a| + 1..] && y == (b + "." + y)[|b| + 1..];
  }

  function VersionTags(vs: seq<Version>): seq<EntityTag> {
    seq(|vs|, i requires 0 <= i < |vs| => EntityTag(false, Bare(vs[i])))
  }

  lemma VersionTagsAreValid(vs: seq<Version>)
    ensures ValidTags(VersionTags(vs))
  {
    hide Bare, Decimal;
    forall i | 0 <= i < |vs|
      ensures OnlyEtagc(Bare(vs[i]))
    {
      BareIsStored(vs[i]);
      DecimalIsRead(vs[i].term);
      DecimalIsRead(vs[i].lsn);
    }
  }

  lemma NamesAVersion(vs: seq<Version>, v: Version, weakly: bool)
    ensures Matched(List(VersionTags(vs)), Some(v), weakly) <==> v in vs
  {
    hide Bare;
    var list := VersionTags(vs);
    if v in vs {
      var i :| 0 <= i < |vs| && vs[i] == v;
      assert list[i].text == Bare(v) && !list[i].weak;
    }
    if Matched(List(list), Some(v), weakly) {
      var i :| 0 <= i < |list| && list[i].text == Bare(v);
      EtagsAreDistinct(vs[i], v);
    }
  }

  // ----- the header, which may span lines

  /** A line that is not visible ASCII cannot be read at all. */
  function HeaderTags(lines: seq<Option<string>>): Result<Option<Tags>, TagError> {
    if lines == [] then Ok(None)
    else
      var joined :- Joined("", lines);
      var tags :- ParsedTags(joined);
      Ok(Some(tags))
  }

  function Joined(joined: string, lines: seq<Option<string>>): Result<string, TagError>
    decreases |lines|
  {
    if lines == [] then Ok(joined)
    else if lines[0].None? then Err(NotVisible)
    else Joined((if joined == [] then [] else joined + ",") + lines[0].value, lines[1..])
  }

  method ParseHeader(lines: seq<Option<string>>) returns (r: Result<Option<Tags>, TagError>)
    ensures r == HeaderTags(lines)
  {
    if lines == [] { return Ok(None); }
    var joined := "";
    assert lines[0..] == lines;
    for i := 0 to |lines|
      invariant Joined("", lines) == Joined(joined, lines[i..])
    {
      assert lines[i..][1..] == lines[i + 1..];
      if lines[i].None? { return Err(NotVisible); }
      joined := (if joined == [] then [] else joined + ",") + lines[i].value;
    }
    var tags :- ParseTags(joined);
    r := Ok(Some(tags));
  }

  lemma SpellsOneAcross(a: string, before: string, tag: EntityTag, after: string, rest: string, b: string)
    requires SpellsOne(a, before, tag, after, rest)
    ensures SpellsOne(a + "," + b, before, tag, after, rest + "," + b)
  {
    hide TagText;
    var tail := "," + b;
    assert rest + "," + b == rest + tail && a + "," + b == a + tail;
    assert a + tail == before + (TagText(tag) + (after + (rest + tail)));
  }

  /** A list cut at a comma reads as its two halves. */
  lemma {:induction false} SpellsAcross(a: string, first: seq<EntityTag>, b: string, second: seq<EntityTag>)
    requires Spells(a, first) && Spells(b, second)
    ensures Spells(a + "," + b, first + second)
    decreases |first|
  {
    hide TagText, SpellsOne;
    if first == [] {
      SpellsAfterSkipped(a + ",", b, second);
      assert [] + second == second;
    } else {
      var before, after, rest :| SpellsOne(a, before, first[0], after, rest) && Spells(rest, first[1..]);
      SpellsAcross(rest, first[1..], b, second);
      var more := rest + "," + b;
      SpellsOneAcross(a, before, first[0], after, rest, b);
      assert SpellsOne(a + "," + b, before, (first + second)[0], after, more);
      assert (first + second)[1..] == first[1..] + second;
    }
  }

  function Concat(lists: seq<seq<EntityTag>>): seq<EntityTag> {
    if lists == [] then [] else lists[0] + Concat(lists[1..])
  }

  ghost predicate EachSpells(lines: seq<Option<string>>, lists: seq<seq<EntityTag>>) {
    |lines| == |lists| && forall i :: 0 <= i < |lines| ==> lines[i].Some? && Spells(lines[i].value, lists[i])
  }

  lemma {:induction false} JoinedSpells(
    joined: string, done: seq<EntityTag>, lines: seq<Option<string>>, lists: seq<seq<EntityTag>>)
    requires Spells(joined, done) && EachSpells(lines, lists)
    ensures Joined(joined, lines).Ok? && Spells(Joined(joined, lines).value, done + Concat(lists))
    decreases |lines|
  {
    hide TagText, SpellsOne;
    if lines == [] {
      assert done + [] == done;
    } else {
      var line := lines[0].value;
      if joined == [] {
        EmptySpellsNothing(done);
        assert [] + line == line && [] + lists[0] == lists[0];
      } else {
        SpellsAcross(joined, done, line, lists[0]);
      }
      JoinedSpells((if joined == [] then [] else joined + ",") + line, done + lists[0], lines[1..], lists[1..]);
      assert done + lists[0] + Concat(lists[1..]) == done + Concat(lists);
    }
  }

  lemma EmptySpellsNothing(done: seq<EntityTag>)
    requires Spells("", done)
    ensures done == []
  {
    if done != [] { SpelledHoldsQuote("", done); }
  }

  /** Repeated header lines are one list. */
  lemma LinesAreOneList(lines: seq<Option<string>>, lists: seq<seq<EntityTag>>)
    requires EachSpells(lines, lists) && Concat(lists) != []
    ensures HeaderTags(lines) == Ok(Some(List(Concat(lists))))
  {
    hide Spells, Parsed;
    assert Spells("", []) by { NothingSpelled(); }
    JoinedSpells("", [], lines, lists);
    assert [] + Concat(lists) == Concat(lists);
    var text := Joined("", lines).value;
    ParsesWhatIsSpelled(text, Concat(lists));
    SpelledHoldsQuote(text, Concat(lists));
    TrimKeepsQuote(text);
  }

  /** No line is no condition, and one line that cannot be read refuses the header. */
  lemma HeaderAnswers(lines: seq<Option<string>>)
    ensures HeaderTags(lines) == Ok(None) <==> lines == []
    ensures (exists i :: 0 <= i < |lines| && lines[i].None?) ==> HeaderTags(lines) == Err(NotVisible)
  {
    hide ParsedTags;
    UnreadableLine("", lines);
  }

  lemma {:induction false} UnreadableLine(joined: string, lines: seq<Option<string>>)
    ensures (exists i :: 0 <= i < |lines| && lines[i].None?) ==> Joined(joined, lines) == Err(NotVisible)
    decreases |lines|
  {
    if lines != [] && lines[0].Some? {
      UnreadableLine((if joined == [] then [] else joined + ",") + lines[0].value, lines[1..]);
      assert forall i :: 0 < i < |lines| ==> lines[i] == lines[1..][i - 1];
    }
  }

  lemma NothingSpelled()
    ensures Spells("", [])
  {
  }

  lemma SpelledHoldsQuote(text: string, tags: seq<EntityTag>)
    requires tags != [] && Spells(text, tags)
    ensures '"' in text
  {
    var before, after, rest :| SpellsOne(text, before, tags[0], after, rest);
    var tag := TagText(tags[0]);
    assert tag[|tag| - 1] == '"';
    assert text[|before| + |tag| - 1] == '"';
  }

  // ----- what a client gets

  /** Listing versions in `If-Match` lets the write through exactly when the document stands at one of
      them, and in `If-None-Match` exactly when it does not. */
  lemma ComparesAndSwaps(vs: seq<Version>, separator: string, current: Option<Version>)
    requires vs != [] && Separates(separator)
    ensures var r := HeaderTags([Some(Rendered(VersionTags(vs), separator))]);
      && r.Ok?
      && (Holds(Preconditions(r.value, None), current) <==> current.Some? && current.value in vs)
      && (Holds(Preconditions(None, r.value), current) <==> current.None? || current.value !in vs)
  {
    hide Matched, ParsedTags, Rendered, Separates, VersionTags;
    VersionTagsAreValid(vs);
    assert |VersionTags(vs)| == |vs| by { SameLength(vs); }
    RoundTrip(VersionTags(vs), separator);
    OneLine(Rendered(VersionTags(vs), separator));
    if current.Some? {
      NamesAVersion(vs, current.value, false);
      NamesAVersion(vs, current.value, true);
    } else {
      NothingMatches(List(VersionTags(vs)));
    }
  }

  lemma SameLength(vs: seq<Version>)
    ensures |VersionTags(vs)| == |vs|
  {
  }

  lemma NothingMatches(tags: Tags)
    ensures !Matched(tags, None, false) && !Matched(tags, None, true)
  {
  }

  lemma OneLine(line: string)
    ensures HeaderTags([Some(line)]) == match ParsedTags(line) case Ok(tags) => Ok(Some(tags)) case Err(e) => Err(e)
  {
    hide ParsedTags;
    assert [] + line == line;
    assert Joined("", [Some(line)]) == Joined(line, []);
  }

  /** A lone star asks only whether there is a document: `If-None-Match: *` creates and never replaces. */
  lemma StarAsksForAny(current: Option<Version>)
    ensures HeaderTags([Some("*")]) == Ok(Some(Any))
    ensures Holds(Preconditions(Some(Any), None), current) <==> current.Some?
    ensures Holds(Preconditions(None, Some(Any)), current) <==> current.None?
  {
    OneLine("*");
    assert "*"[0] == '*';
  }

  /** A weak tag never lets an `If-Match` write through, and in `If-None-Match` stops one exactly when its text
      is the document's. */
  lemma WeakTagsOnlyPrevent(text: string, current: Option<Version>)
    requires OnlyEtagc(text)
    ensures var r := HeaderTags([Some("W/" + Quoted(text))]);
      && r.Ok?
      && !Holds(Preconditions(r.value, None), current)
      && (Holds(Preconditions(None, r.value), current) <==> current.None? || text != Bare(current.value))
  {
    hide ParsedTags, Rendered, Bare;
    var tags := [EntityTag(true, text)];
    assert Rendered(tags, ",") == "W/" + Quoted(text) by { OneRendered(tags[0]); }
    RoundTrip(tags, ",");
    OneLine("W/" + Quoted(text));
    assert tags[0] == EntityTag(true, text);
  }

  lemma OneRendered(tag: EntityTag)
    ensures Rendered([tag], ",") == TagText(tag)
  {
    assert TagText(tag) + "" == TagText(tag);
  }
}
