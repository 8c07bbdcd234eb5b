/** Entity-tag lists as `If-Match` and `If-None-Match` carry them (src/api/precondition.rs). */
module EntityTags {
  import opened JsonValues
  import opened Results

  datatype EntityTag = EntityTag(weak: bool, text: string)

  datatype Tags = Any | List(tags: seq<EntityTag>)

  datatype TagError = NotVisible | ExpectedQuote | Unterminated | OutsideEtagc | NotSeparated | NoTag

  datatype Taken = Taken(tag: EntityTag, rest: string)

  predicate IsBlank(c: char) {
    c == ' ' || c == '\t'
  }

  predicate IsSkipped(c: char) {
    IsBlank(c) || c == ','
  }

  /** 0x21 and 0x23 to 0x7e: everything visible but the double quote. */
  predicate IsEtagc(c: char) {
    c as int == 0x21 || 0x23 <= c as int <= 0x7e
  }

  /** The character classes, by code: what a tag may hold, what separates tags, and what is trimmed. */
  lemma ClassesAre(c: char)
    ensures IsEtagc(c) <==> 33 <= c as int <= 126 && c as int != 34
    ensures IsBlank(c) <==> c as int == 32 || c as int == 9
    ensures IsSkipped(c) <==> c as int == 32 || c as int == 9 || c as int == 44
    ensures IsSpace(c) <==> c as int == 32 || 9 <= c as int <= 13
  {
  }

  predicate OnlyEtagc(text: string) {
    forall i :: 0 <= i < |text| ==> IsEtagc(text[i])
  }

  predicate OnlySkipped(text: string) {
    forall i :: 0 <= i < |text| ==> IsSkipped(text[i])
  }

  predicate OnlyBlank(text: string) {
    forall i :: 0 <= i < |text| ==> IsBlank(text[i])
  }

  // ----- the grammar

  function Quoted(text: string): string {
    "\"" + (text + "\"")
  }

  function TagText(tag: EntityTag): string {
    if tag.weak then "W/" + Quoted(tag.text) else Quoted(tag.text)
  }

  predicate EndsHere(rest: string) {
    rest == [] || rest[0] == ','
  }

  /** Commas and blanks, then a tag, then blanks up to a comma or the end, and so on; empty elements are
      skipped, as section 5.6.1.2 of RFC 9110 asks of a recipient. */
  ghost predicate Spells(text: string, tags: seq<EntityTag>)
    decreases |tags|
  {
    if tags == [] then OnlySkipped(text)
    else exists before, after, rest :: SpellsOne(text, before, tags[0], after, rest) && Spells(rest, tags[1..])
  }

  ghost predicate SpellsOne(text: string, before: string, tag: EntityTag, after: string, rest: string) {
    && text == before + (TagText(tag) + (after + rest))
    && OnlySkipped(before) && OnlyEtagc(tag.text) && OnlyBlank(after) && EndsHere(rest)
  }

  // ----- the parser

  function DropSkipped(text: string): (t: string)
    ensures |t| <= |text|
  {
    if text != [] && IsSkipped(text[0]) then DropSkipped(text[1..]) else text
  }

  function DropBlank(text: string): (t: string)
    ensures |t| <= |text|
  {
    if text != [] && IsBlank(text[0]) then DropBlank(text[1..]) else text
  }

  function Position(text: string, c: char): (at: Option<nat>)
    ensures at.Some? ==> at.value < |text|
  {
    if text == [] then None
    else if text[0] == c then Some(0)
    else match Position(text[1..], c)
      case None => None
      case Some(n) => Some(n + 1)
  }

  /** One tag at the front, and what follows it once the blanks are gone. */
  function TakeTag(text: string): (r: Result<Taken, TagError>)
    ensures r.Ok? ==> |r.value.rest| < |text|
  {
    if "W/" <= text then TakeQuoted(true, text[2..]) else TakeQuoted(false, text)
  }

  function TakeQuoted(weak: bool, t: string): (r: Result<Taken, TagError>)
    ensures r.Ok? ==> |r.value.rest| < |t|
  {
    if t == [] || t[0] != '"' then Err(ExpectedQuote)
    else match Position(t[1..], '"')
      case None => Err(Unterminated)
      case Some(n) => TakeText(weak, t[1..][..n], t[1..][n + 1..])
  }

  function TakeText(weak: bool, text: string, tail: string): (r: Result<Taken, TagError>)
    ensures r.Ok? ==> |r.value.rest| <= |tail|
  {
    if !OnlyEtagc(text) then Err(OutsideEtagc)
    else
      var rest := DropBlank(tail);
      if !EndsHere(rest) then Err(NotSeparated) else Ok(Taken(EntityTag(weak, text), rest))
  }

  function Parsed(text: string): Result<seq<EntityTag>, TagError>
    decreases |text|
  {
    var t := DropSkipped(text);
    if t == [] then Ok([])
    else
      var first :- TakeTag(t);
      var rest :- Parsed(first.rest);
      Ok([first.tag] + rest)
  }

  /** `char::is_whitespace`, as far as a header value can hold it. */
  predicate IsSpace(c: char) {
    c == ' ' || 9 <= c as int <= 13
  }

  function Trim(text: string): string {
    if text == [] then []
    else if IsSpace(text[0]) then Trim(text[1..])
    else if IsSpace(text[|text| - 1]) then Trim(text[..|text| - 1])
    else text
  }

  predicate OnlySpace(text: string) {
    forall i :: 0 <= i < |text| ==> IsSpace(text[i])
  }

  /** Trimming takes the space off both ends and no more. */
  lemma {:induction false} TrimIff(text: string, core: string)
    ensures Trim(text) == core <==>
      && (exists a, b :: OnlySpace(a) && OnlySpace(b) && text == a + core + b)
      && (core != [] ==> !IsSpace(core[0]) && !IsSpace(core[|core| - 1]))
    decreases |text|
  {
    var front, back := TrimKeeps(text);
    if a, b :| OnlySpace(a) && OnlySpace(b) && text == a + core + b {
      if core != [] ==> !IsSpace(core[0]) && !IsSpace(core[|core| - 1]) { TrimsTo(text, a, core, b); }
    }
  }

  lemma TrimTurns(text: string)
    ensures text != [] && IsSpace(text[0]) ==> Trim(text) == Trim(text[1..])
    ensures text != [] && !IsSpace(text[0]) && IsSpace(text[|text| - 1]) ==> Trim(text) == Trim(text[..|text| - 1])
    ensures text == [] || (!IsSpace(text[0]) && !IsSpace(text[|text| - 1])) ==> Trim(text) == text
  {
    hide IsSpace;
  }

  lemma {:induction false} TrimKeeps(text: string) returns (a: string, b: string)
    ensures OnlySpace(a) && OnlySpace(b) && text == a + Trim(text) + b
    ensures var core := Trim(text); core != [] ==> !IsSpace(core[0]) && !IsSpace(core[|core| - 1])
    decreases |text|
  {
    hide IsSpace, Trim;
    TrimTurns(text);
    a, b := [], [];
    if text != [] && IsSpace(text[0]) {
      a, b := TrimKeeps(text[1..]);
      a := [text[0]] + a;
      assert text == [text[0]] + text[1..];
    } else if text != [] && IsSpace(text[|text| - 1]) {
      a, b := TrimKeeps(text[..|text| - 1]);
      b := b + [text[|text| - 1]];
      assert text == text[..|text| - 1] + [text[|text| - 1]];
    }
  }

  lemma {:induction false} TrimsTo(text: string, a: string, core: string, b: string)
    requires OnlySpace(a) && OnlySpace(b) && text == a + core + b
    requires core != [] ==> !IsSpace(core[0]) && !IsSpace(core[|core| - 1])
    ensures Trim(text) == core
    decreases |text|
  {
    hide IsSpace;
    if a != [] {
      assert text[0] == a[0] && text[1..] == a[1..] + core + b;
      TrimsTo(text[1..], a[1..], core, b);
    } else if core == [] && b != [] {
      assert text[0] == b[0] && text[1..] == [] + core + b[1..];
      TrimsTo(text[1..], [], core, b[1..]);
    } else if b != [] {
      var n := |b| - 1;
      assert text[0] == core[0] && text[|text| - 1] == b[n];
      assert text[..|text| - 1] == [] + core + b[..n];
      TrimsTo(text[..|text| - 1], [], core, b[..n]);
    } else {
      assert text == core;
    }
  }

  /** A star alone, space aside, stands for any. */
  lemma StarIffAlone(text: string)
    ensures ParsedTags(text) == Ok(Any) <==> exists a, b :: OnlySpace(a) && OnlySpace(b) && text == a + "*" + b
  {
    hide Parsed, Trim;
    TrimIff(text, "*");
    assert !IsSpace("*"[0]);
  }

  function ParsedTags(text: string): Result<Tags, TagError> {
    if Trim(text) == "*" then Ok(Any)
    else
      var tags :- Parsed(text);
      if tags == [] then Err(NoTag) else Ok(List(tags))
  }

  function Onto(done: seq<EntityTag>, rest: Result<seq<EntityTag>, TagError>): Result<seq<EntityTag>, TagError> {
    if rest.Ok? then Ok(done + rest.value) else rest
  }

  method SkipFrom(text: string, start: nat) returns (i: nat)
    requires start <= |text|
    ensures start <= i <= |text| && text[i..] == DropSkipped(text[start..])
  {
    i := start;
    while i < |text| && IsSkipped(text[i])
      invariant start <= i <= |text| && DropSkipped(text[i..]) == DropSkipped(text[start..])
    {
      assert text[i..][1..] == text[i + 1..];
      i := i + 1;
    }
  }

  method BlanksFrom(text: string, start: nat) returns (i: nat)
    requires start <= |text|
    ensures start <= i <= |text| && text[i..] == DropBlank(text[start..])
  {
    i := start;
    while i < |text| && IsBlank(text[i])
      invariant start <= i <= |text| && DropBlank(text[i..]) == DropBlank(text[start..])
    {
      assert text[i..][1..] == text[i + 1..];
      i := i + 1;
    }
  }

  /** One turn of the loop, from a position that holds no separator. */
  method TagFrom(text: string, start: nat) returns (r: Result<EntityTag, TagError>, i: nat)
    requires start < |text|
    ensures r.Ok? ==> start < i <= |text| && TakeTag(text[start..]) == Ok(Taken(r.value, text[i..]))
    ensures r.Err? ==> TakeTag(text[start..]) == Err(r.error)
  {
    hide DropBlank, TakeQuoted, OnlyEtagc;
    i := start;
    var weak := "W/" <= text[i..];
    if weak {
      i := i + 2;
      assert text[start..][2..] == text[i..];
    }
    r, i := QuotedFrom(text, weak, i);
  }

  method QuotedFrom(text: string, weak: bool, start: nat) returns (r: Result<EntityTag, TagError>, i: nat)
    requires start <= |text|
    ensures r.Ok? ==> start < i <= |text| && TakeQuoted(weak, text[start..]) == Ok(Taken(r.value, text[i..]))
    ensures r.Err? ==> TakeQuoted(weak, text[start..]) == Err(r.error)
  {
    hide DropBlank, Position, OnlyEtagc;
    i := start;
    if i >= |text| || text[i] != '"' { return Err(ExpectedQuote), i; }
    var from := i + 1;
    assert text[start..][1..] == text[from..];
    var end := Position(text[from..], '"');
    if end.None? { return Err(Unterminated), i; }
    var n := end.value;
    assert text[from..][..n] == text[from..from + n] && text[from..][n + 1..] == text[from + n + 1..];
    if !OnlyEtagc(text[from..from + n]) { return Err(OutsideEtagc), i; }
    i := BlanksFrom(text, from + n + 1);
    if i < |text| && text[i] != ',' { return Err(NotSeparated), i; }
    r := Ok(EntityTag(weak, text[from..from + n]));
  }

  lemma ParsedStep(text: string, done: seq<EntityTag>, t: string)
    requires t == DropSkipped(text) && t != []
    ensures Onto(done, Parsed(text)) ==
      if TakeTag(t).Ok? then Onto(done + [TakeTag(t).value.tag], Parsed(TakeTag(t).value.rest))
        else Err(TakeTag(t).error)
  {
    hide TakeTag, DropSkipped;
    if TakeTag(t).Ok? && Parsed(TakeTag(t).value.rest).Ok? {
      var first, rest := TakeTag(t).value, Parsed(TakeTag(t).value.rest).value;
      assert done + ([first.tag] + rest) == done + [first.tag] + rest;
    }
  }

  lemma OntoEnds(text: string, done: seq<EntityTag>)
    ensures Onto([], Parsed(text)) == Parsed(text)
    ensures DropSkipped(text) == [] ==> Onto(done, Parsed(text)) == Ok(done)
  {
    hide TakeTag;
    if Parsed(text).Ok? { assert [] + Parsed(text).value == Parsed(text).value; }
    assert done + [] == done;
  }

  method ParseTags(text: string) returns (r: Result<Tags, TagError>)
    ensures r == ParsedTags(text)
  {
    if Trim(text) == "*" { return Ok(Any); }
    hide Parsed, TakeTag, DropSkipped, Onto;
    var tags: seq<EntityTag> := [];
    var i := 0;
    assert text[0..] == text;
    OntoEnds(text, tags);
    while true
      invariant i <= |text|
      invariant Parsed(text) == Onto(tags, Parsed(text[i..]))
      decreases |text| - i
    {
      var at := SkipFrom(text, i);
      OntoEnds(text[i..], tags);
      if at == |text| { break; }
      ParsedStep(text[i..], tags, text[at..]);
      var tag, next := TagFrom(text, at);
      if tag.Err? { return Err(tag.error); }
      tags := tags + [tag.value];
      i := next;
    }
    r := if tags == [] then Err(NoTag) else Ok(List(tags));
  }

  // ----- the parser reads exactly the grammar

  lemma {:induction false} SkipsPrefix(a: string, text: string)
    requires OnlySkipped(a)
    ensures DropSkipped(a + text) == DropSkipped(text)
  {
    if a == [] {
      assert a + text == text;
    } else {
      assert (a + text)[1..] == a[1..] + text;
      SkipsPrefix(a[1..], text);
    }
  }

  lemma {:induction false} BlanksPrefix(a: string, text: string)
    requires OnlyBlank(a)
    ensures DropBlank(a + text) == DropBlank(text)
  {
    if a == [] {
      assert a + text == text;
    } else {
      assert (a + text)[1..] == a[1..] + text;
      BlanksPrefix(a[1..], text);
    }
  }

  lemma {:induction false} DropsSkipped(text: string) returns (before: string)
    ensures text == before + DropSkipped(text) && OnlySkipped(before)
  {
    if text != [] && IsSkipped(text[0]) {
      before := DropsSkipped(text[1..]);
      before := [text[0]] + before;
    } else {
      before := "";
    }
  }

  lemma {:induction false} DropsBlank(text: string) returns (before: string)
    ensures text == before + DropBlank(text) && OnlyBlank(before)
  {
    if text != [] && IsBlank(text[0]) {
      before := DropsBlank(text[1..]);
      before := [text[0]] + before;
    } else {
      before := "";
    }
  }

  lemma {:induction false} PositionIsThere(text: string, c: char)
    requires Position(text, c).Some?
    ensures var n := Position(text, c).value; text == text[..n] + ([c] + text[n + 1..])
  {
    if text[0] != c {
      PositionIsThere(text[1..], c);
      var n := Position(text, c).value;
      assert text[1..][n - 1] == c;
    }
  }

  lemma {:induction false} PositionAfter(text: string, c: char, rest: string)
    requires c !in text
    ensures Position(text + ([c] + rest), c) == Some(|text|)
  {
    if text == [] {
      assert text + ([c] + rest) == [c] + rest;
    } else {
      assert (text + ([c] + rest))[1..] == text[1..] + ([c] + rest);
      PositionAfter(text[1..], c, rest);
    }
  }

  lemma TakesItsTag(tag: EntityTag, after: string, rest: string)
    requires OnlyEtagc(tag.text) && OnlyBlank(after) && EndsHere(rest)
    ensures TakeTag(TagText(tag) + (after + rest)) == Ok(Taken(tag, rest))
  {
    hide TakeQuoted, OnlyEtagc;
    var quoted := Quoted(tag.text) + (after + rest);
    TakesItsText(tag.weak, tag.text, after, rest);
    if tag.weak {
      assert TagText(tag) + (after + rest) == "W/" + quoted;
      assert ("W/" + quoted)[2..] == quoted;
    } else {
      assert TagText(tag) + (after + rest) == quoted;
      assert quoted[0] == '"';
    }
  }

  lemma TakesItsText(weak: bool, text: string, after: string, rest: string)
    requires OnlyEtagc(text) && OnlyBlank(after) && EndsHere(rest)
    ensures TakeQuoted(weak, Quoted(text) + (after + rest)) == Ok(Taken(EntityTag(weak, text), rest))
  {
    hide Position, DropBlank;
    var t := Quoted(text) + (after + rest);
    assert t[1..] == text + (['"'] + (after + rest));
    PositionAfter(text, '"', after + rest);
    assert t[1..][..|text|] == text && t[1..][|text| + 1..] == after + rest;
    BlanksPrefix(after, rest);
    NothingDropped(rest);
  }

  lemma NothingDropped(rest: string)
    requires EndsHere(rest)
    ensures DropBlank(rest) == rest
  {
  }

  lemma TakenIsSpelled(t: string) returns (after: string)
    requires TakeTag(t).Ok?
    ensures SpellsOne(t, "", TakeTag(t).value.tag, after, TakeTag(t).value.rest)
  {
    hide TakeQuoted, Quoted, OnlyEtagc, OnlyBlank, EndsHere;
    if "W/" <= t {
      after := TextIsSpelled(true, t[2..]);
      WeakText(t, TakeTag(t).value, after);
    } else {
      after := TextIsSpelled(false, t);
      assert t == "" + t;
    }
  }

  lemma WeakText(t: string, taken: Taken, after: string)
    requires "W/" <= t && taken.tag.weak && t[2..] == Quoted(taken.tag.text) + (after + taken.rest)
    ensures t == "" + (TagText(taken.tag) + (after + taken.rest))
  {
    hide Quoted;
    assert t == "W/" + t[2..];
    assert ("W/" + Quoted(taken.tag.text)) + (after + taken.rest) ==
      "W/" + (Quoted(taken.tag.text) + (after + taken.rest));
  }

  lemma TextIsSpelled(weak: bool, t: string) returns (after: string)
    requires TakeQuoted(weak, t).Ok?
    ensures var taken := TakeQuoted(weak, t).value;
      && t == Quoted(taken.tag.text) + (after + taken.rest)
      && taken.tag.weak == weak && OnlyEtagc(taken.tag.text) && OnlyBlank(after) && EndsHere(taken.rest)
  {
    hide Position, DropBlank, OnlyEtagc;
    var n := Position(t[1..], '"').value;
    PositionIsThere(t[1..], '"');
    after := DropsBlank(t[1..][n + 1..]);
    assert t == ['"'] + t[1..];
  }

  /** The parser answers with some tags exactly when the text spells them. */
  lemma {:induction false} ParsesWhatIsSpelled(text: string, tags: seq<EntityTag>)
    ensures Parsed(text) == Ok(tags) <==> Spells(text, tags)
    decreases |text|, 1
  {
    if Parsed(text) == Ok(tags) { ParsedIsSpelled(text, tags); }
    if Spells(text, tags) { SpelledIsParsed(text, tags); }
  }

  lemma {:induction false} SpelledIsParsed(text: string, tags: seq<EntityTag>)
    requires Spells(text, tags)
    ensures Parsed(text) == Ok(tags)
    decreases |tags|
  {
    hide TakeTag, DropSkipped, TagText;
    if tags == [] {
      SkipsPrefix(text, "");
      assert text + "" == text;
      OntoEnds("", []);
      Unskipped("");
    } else {
      var before, after, rest :| SpellsOne(text, before, tags[0], after, rest) && Spells(rest, tags[1..]);
      var t := TagText(tags[0]) + (after + rest);
      SkipsPrefix(before, t);
      TagIsNotSkipped(tags[0]);
      Unskipped(t);
      TakesItsTag(tags[0], after, rest);
      SpelledIsParsed(rest, tags[1..]);
      assert tags == [tags[0]] + tags[1..];
    }
  }

  lemma TagIsNotSkipped(tag: EntityTag)
    ensures TagText(tag) != [] && !IsSkipped(TagText(tag)[0])
  {
  }

  lemma Unskipped(t: string)
    requires t == [] || !IsSkipped(t[0])
    ensures DropSkipped(t) == t
  {
  }

  lemma {:induction false} ParsedIsSpelled(text: string, tags: seq<EntityTag>)
    requires Parsed(text) == Ok(tags)
    ensures Spells(text, tags)
    decreases |text|
  {
    hide TakeTag, DropSkipped, TagText, SpellsOne;
    var t := DropSkipped(text);
    var before := DropsSkipped(text);
    if t == [] {
      assert before == text;
    } else {
      var first := TakeTag(t).value;
      var after := TakenIsSpelled(t);
      ParsedIsSpelled(first.rest, Parsed(first.rest).value);
      assert tags[1..] == Parsed(first.rest).value;
      MoreBefore(before, t, first.tag, after, first.rest);
      assert SpellsOne(text, before, tags[0], after, first.rest);
    }
  }

  lemma MoreBefore(before: string, t: string, tag: EntityTag, after: string, rest: string)
    requires OnlySkipped(before) && SpellsOne(t, "", tag, after, rest)
    ensures SpellsOne(before + t, before, tag, after, rest)
  {
    assert t == TagText(tag) + (after + rest);
  }

  // ----- rendering

  /** The tags, one after another, with this between them. */
  function Rendered(tags: seq<EntityTag>, separator: string): string {
    if tags == [] then "" else TagText(tags[0]) + if |tags| == 1 then "" else separator + Rendered(tags[1..], separator)
  }

  predicate ValidTags(tags: seq<EntityTag>) {
    forall i :: 0 <= i < |tags| ==> OnlyEtagc(tags[i].text)
  }

  /** A comma, with any blanks before it and any blanks and commas after. */
  predicate Separates(separator: string) {
    var tail := DropBlank(separator);
    tail != [] && tail[0] == ',' && OnlySkipped(tail)
  }

  lemma {:induction false} SpellsAfterSkipped(separator: string, text: string, tags: seq<EntityTag>)
    requires OnlySkipped(separator) && Spells(text, tags)
    ensures Spells(separator + text, tags)
  {
    hide TagText;
    if tags != [] {
      var before, after, rest :| SpellsOne(text, before, tags[0], after, rest) && Spells(rest, tags[1..]);
      assert separator + text == (separator + before) + (TagText(tags[0]) + (after + rest));
      assert SpellsOne(separator + text, separator + before, tags[0], after, rest);
    }
  }

  lemma {:induction false} RenderedIsSpelled(tags: seq<EntityTag>, separator: string)
    requires tags != [] && ValidTags(tags) && Separates(separator)
    ensures Spells(Rendered(tags, separator), tags)
  {
    hide TagText, SpellsOne, Separates;
    var text := Rendered(tags, separator);
    if |tags| == 1 {
      SpellsLast(tags[0]);
      assert Spells("", tags[1..]);
      assert SpellsOne(text, "", tags[0], "", "");
    } else {
      var more := Rendered(tags[1..], separator);
      RenderedIsSpelled(tags[1..], separator);
      var blanks := DropsBlank(separator);
      var rest := DropBlank(separator) + more;
      SpellsNext(tags[0], separator, blanks, more);
      SpellsAfterSkipped(DropBlank(separator), more, tags[1..]);
      assert SpellsOne(text, "", tags[0], blanks, rest);
    }
  }

  lemma SpellsLast(tag: EntityTag)
    requires OnlyEtagc(tag.text)
    ensures SpellsOne(TagText(tag) + "", "", tag, "", "")
  {
    hide TagText;
    assert TagText(tag) + "" == "" + (TagText(tag) + ("" + ""));
  }

  lemma SpellsNext(tag: EntityTag, separator: string, blanks: string, more: string)
    requires OnlyEtagc(tag.text) && Separates(separator) && separator == blanks + DropBlank(separator)
      && OnlyBlank(blanks)
    ensures OnlySkipped(DropBlank(separator))
    ensures SpellsOne(TagText(tag) + (separator + more), "", tag, blanks, DropBlank(separator) + more)
  {
    hide TagText, DropBlank;
    var tail := DropBlank(separator);
    assert separator + more == blanks + (tail + more);
    assert TagText(tag) + (separator + more) == "" + (TagText(tag) + (blanks + (tail + more)));
  }

  lemma {:induction false} TrimKeepsQuote(text: string)
    requires '"' in text
    ensures '"' in Trim(text)
  {
    if IsSpace(text[0]) {
      assert text == [text[0]] + text[1..];
      TrimKeepsQuote(text[1..]);
    } else if IsSpace(text[|text| - 1]) {
      assert text == text[..|text| - 1] + [text[|text| - 1]];
      TrimKeepsQuote(text[..|text| - 1]);
    }
  }

  /** Rendering any non-empty list of valid tags and parsing it gives the list back, commas inside the
      quotes included, whatever the commas and blanks between the tags. */
  lemma {:induction false} RoundTrip(tags: seq<EntityTag>, separator: string)
    requires tags != [] && ValidTags(tags) && Separates(separator)
    ensures ParsedTags(Rendered(tags, separator)) == Ok(List(tags))
  {
    hide Rendered, Parsed, Spells, Trim;
    var text := Rendered(tags, separator);
    RenderedIsSpelled(tags, separator);
    ParsesWhatIsSpelled(text, tags);
    RenderedHoldsQuote(tags, separator);
    TrimKeepsQuote(text);
  }

  lemma RenderedHoldsQuote(tags: seq<EntityTag>, separator: string)
    requires tags != []
    ensures '"' in Rendered(tags, separator)
  {
    var first := TagText(tags[0]);
    assert first[|first| - 1] == '"' && Rendered(tags, separator)[|first| - 1] == '"';
  }
}
