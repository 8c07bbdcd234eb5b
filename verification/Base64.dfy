/** Base64 in its two alphabets (src/util.rs), against sections 4 and 5 of RFC 4648. A run of sextets or of
    bytes is read as one number, most significant first, so that encoding says "the same bits". */
module Base64 {
  import opened JsonValues
  import opened Results
  import opened Alphabets

  /** How many values fit in so many spare bits. */
  function Width(bits: nat): (w: nat)
    requires bits in {0, 2, 4, 6}
    ensures w > 0
  {
    if bits == 0 then 1 else if bits == 2 then 4 else if bits == 4 then 16 else 64
  }

  function Spelling(alphabet: Alphabet, vs: seq<Sextet>): string {
    seq(|vs|, i requires 0 <= i < |vs| => Chars(alphabet)[vs[i]])
  }

  /** Padding characters after an input of this length. */
  function Pads(n: nat): nat
    ensures Pads(n) <= 2
  {
    if n % 3 == 0 then 0 else 3 - n % 3
  }

  function Padding(n: nat): string {
    seq(n, _ => '=')
  }

  /** The input's bits, zeros to the next sextet, then padding to a whole group of four. */
  ghost predicate IsEncoding(alphabet: Alphabet, input: seq<Byte>, text: string, vs: seq<Sextet>) {
    var p := Pads(|input|);
    && text == Spelling(alphabet, vs) + Padding(p)
    && 6 * |vs| == 8 * |input| + 2 * p
    && Sextets(vs) == Octets(input) * Width(2 * p)
  }

  ghost predicate Encodes(alphabet: Alphabet, input: seq<Byte>, text: string) {
    exists vs :: IsEncoding(alphabet, input, text, vs)
  }

  function TrimEnd(text: string): (t: string)
    ensures t <= text && (t != [] ==> t[|t| - 1] != '=')
    ensures forall i :: |t| <= i < |text| ==> text[i] == '='
  {
    if text != [] && text[|text| - 1] == '=' then TrimEnd(text[..|text| - 1]) else text
  }

  predicate Valid(text: string) {
    forall i :: 0 <= i < |text| ==> Value(text[i]).Some?
  }

  function Values(text: string): seq<Sextet>
    requires Valid(text)
  {
    seq(|text|, i requires 0 <= i < |text| => Value(text[i]).value)
  }

  /** The first character outside both alphabets refuses the text; otherwise its sextets' bits, cut into
      whole bytes, with fewer than eight left over. */
  ghost predicate Decodes(text: string, r: Result<seq<Byte>, char>) {
    var t := TrimEnd(text);
    if Valid(t) then
      && r.Ok? && 6 * |t| - 8 * |r.value| in {0, 2, 4, 6}
      && Octets(r.value) == Sextets(Values(t)) / Width(6 * |t| - 8 * |r.value|)
    else
      exists i :: 0 <= i < |t| && Valid(t[..i]) && Value(t[i]).None? && r == Err(t[i])
  }

  lemma DivisionUndoes(q: nat, bits: nat, r: nat)
    requires bits in {0, 2, 4, 6} && r < Width(bits)
    ensures (q * Width(bits) + r) / Width(bits) == q
  {
  }

  lemma SpellingIsRead(alphabet: Alphabet, vs: seq<Sextet>)
    ensures |Spelling(alphabet, vs)| == |vs| && '=' !in Spelling(alphabet, vs)
    ensures Valid(Spelling(alphabet, vs)) && Values(Spelling(alphabet, vs)) == vs
  {
    hide Chars, Value;
    forall i | 0 <= i < |vs|
      ensures Spelling(alphabet, vs)[i] != '=' && Value(Spelling(alphabet, vs)[i]) == Some(vs[i])
    {
      CharHasItsValue(alphabet, vs[i]);
    }
  }

  lemma TrimmedEncoding(spelling: string, p: nat)
    requires '=' !in spelling
    ensures TrimEnd(spelling + Padding(p)) == spelling
  {
    var text := spelling + Padding(p);
    if p == 0 {
      assert text == spelling;
      assert spelling != [] ==> spelling[|spelling| - 1] in spelling;
    } else {
      assert text[..|text| - 1] == spelling + Padding(p - 1);
      TrimmedEncoding(spelling, p - 1);
    }
  }

  /** Decoding undoes encoding, for every byte string in either alphabet. */
  lemma {:induction false} RoundTrip(alphabet: Alphabet, input: seq<Byte>, text: string, r: Result<seq<Byte>, char>)
    requires Encodes(alphabet, input, text) && Decodes(text, r)
    ensures r == Ok(input)
  {
    hide Spelling, Padding, Octets, Sextets, TrimEnd, Valid, Values;
    var vs :| IsEncoding(alphabet, input, text, vs);
    var spelling, p := Spelling(alphabet, vs), Pads(|input|);
    SpellingIsRead(alphabet, vs);
    TrimmedEncoding(spelling, p);
    assert |r.value| == |input|;
    DivisionUndoes(Octets(input), 2 * p, 0);
    OctetsAreUnique(r.value, input);
  }

  /** One text encodes an input, and it has a whole number of groups of four. */
  lemma EncodingIsUnique(alphabet: Alphabet, input: seq<Byte>, text: string, other: string)
    requires Encodes(alphabet, input, text) && Encodes(alphabet, input, other)
    ensures text == other && |text| == (|input| + 2) / 3 * 4
  {
    var vs :| IsEncoding(alphabet, input, text, vs);
    var ws :| IsEncoding(alphabet, input, other, ws);
    SextetsAreUnique(vs, ws);
  }

  /** Decoding has one answer. */
  lemma DecodingIsUnique(text: string, r: Result<seq<Byte>, char>, other: Result<seq<Byte>, char>)
    requires Decodes(text, r) && Decodes(text, other)
    ensures r == other
  {
    var t := TrimEnd(text);
    if Valid(t) {
      assert |r.value| == |other.value|;
      OctetsAreUnique(r.value, other.value);
    } else {
      var i :| 0 <= i < |t| && Valid(t[..i]) && Value(t[i]).None? && r == Err(t[i]);
      var j :| 0 <= j < |t| && Valid(t[..j]) && Value(t[j]).None? && other == Err(t[j]);
      ValidUpTo(t, i);
      ValidUpTo(t, j);
    }
  }

  lemma ValidUpTo(t: string, n: nat)
    requires n <= |t| && Valid(t[..n])
    ensures forall k :: 0 <= k < n ==> Value(t[k]).Some?
  {
    forall k | 0 <= k < n
      ensures Value(t[k]).Some?
    {
      assert t[..n][k] == t[k];
    }
  }

  // ----- the encoding loop

  function Digit(d: Word, shift: nat): Sextet
    requires shift in {0, 6, 12, 18}
  {
    d / (if shift == 0 then 1 else if shift == 6 then 64 else if shift == 12 then 4096 else 262144) % 64
  }

  lemma DigitsOf(d: Word)
    requires d < 0x100_0000
    ensures d == Digit(d, 18) * 262144 + Digit(d, 12) * 4096 + Digit(d, 6) * 64 + Digit(d, 0)
  {
    var q := d / 64;
    assert d == q * 64 + d % 64 && d / 4096 == q / 64 && d / 262144 == q / 64 / 64;
    assert q == q / 64 * 64 + q % 64;
  }

  /** Up to three bytes in one word, zeros for those that are missing. */
  function Combined(chunk: seq<Byte>): (d: Word)
    requires 1 <= |chunk| <= 3
    ensures d < 0x100_0000
  {
    chunk[0] as int * 65536 + (if |chunk| > 1 then chunk[1] as int else 0) * 256 + (if |chunk| > 2 then chunk[2] else 0)
  }

  lemma ThreeMore(alphabet: Alphabet, head: seq<Byte>, text: string, vs: seq<Sextet>, chunk: seq<Byte>, ds: seq<Sextet>)
    requires |head| % 3 == 0 && IsEncoding(alphabet, head, text, vs) && |chunk| == 3 && |ds| == 4
    requires Combined(chunk) == ds[0] as int * 262144 + ds[1] as int * 4096 + ds[2] as int * 64 + ds[3]
    ensures IsEncoding(alphabet, head + chunk, text + Spelling(alphabet, ds), vs + ds)
  {
    hide Sextets, Octets, Chars;
    OctetsPush(head, chunk[0]); OctetsPush(head + chunk[..1], chunk[1]); OctetsPush(head + chunk[..2], chunk[2]);
    assert head + chunk[..2] == head + chunk[..1] + [chunk[1]] && head + chunk[..1] == head + [chunk[0]];
    assert head + chunk == head + chunk[..2] + [chunk[2]];
    SextetsPush(vs, ds[0]); SextetsPush(vs + ds[..1], ds[1]);
    SextetsPush(vs + ds[..2], ds[2]); SextetsPush(vs + ds[..3], ds[3]);
    assert vs + ds[..1] == vs + [ds[0]] && vs + ds[..2] == vs + ds[..1] + [ds[1]];
    assert vs + ds[..3] == vs + ds[..2] + [ds[2]] && vs + ds == vs + ds[..3] + [ds[3]];
  }

  lemma TwoMore(alphabet: Alphabet, head: seq<Byte>, text: string, vs: seq<Sextet>, chunk: seq<Byte>, ds: seq<Sextet>)
    requires |head| % 3 == 0 && IsEncoding(alphabet, head, text, vs) && |chunk| == 2 && |ds| == 3
    requires Combined(chunk) == ds[0] as int * 262144 + ds[1] as int * 4096 + ds[2] as int * 64
    ensures IsEncoding(alphabet, head + chunk, text + Spelling(alphabet, ds) + "=", vs + ds)
  {
    hide Sextets, Octets, Chars;
    OctetsPush(head, chunk[0]); OctetsPush(head + chunk[..1], chunk[1]);
    assert head + chunk[..1] == head + [chunk[0]] && head + chunk == head + chunk[..1] + [chunk[1]];
    SextetsPush(vs, ds[0]); SextetsPush(vs + ds[..1], ds[1]); SextetsPush(vs + ds[..2], ds[2]);
    assert vs + ds[..1] == vs + [ds[0]] && vs + ds[..2] == vs + ds[..1] + [ds[1]];
    assert vs + ds == vs + ds[..2] + [ds[2]];
  }

  lemma OneMore(alphabet: Alphabet, head: seq<Byte>, text: string, vs: seq<Sextet>, chunk: seq<Byte>, ds: seq<Sextet>)
    requires |head| % 3 == 0 && IsEncoding(alphabet, head, text, vs) && |chunk| == 1 && |ds| == 2
    requires Combined(chunk) == ds[0] as int * 262144 + ds[1] as int * 4096
    ensures IsEncoding(alphabet, head + chunk, text + Spelling(alphabet, ds) + "==", vs + ds)
  {
    hide Sextets, Octets, Chars;
    OctetsPush(head, chunk[0]);
    assert head + chunk == head + [chunk[0]];
    SextetsPush(vs, ds[0]); SextetsPush(vs + ds[..1], ds[1]);
    assert vs + ds[..1] == vs + [ds[0]] && vs + ds == vs + ds[..1] + [ds[1]];
  }

  lemma {:induction false} ChunkMore(
    alphabet: Alphabet, head: seq<Byte>, text: string, vs: seq<Sextet>, chunk: seq<Byte>)
    returns (ds: seq<Sextet>)
    requires |head| % 3 == 0 && IsEncoding(alphabet, head, text, vs) && 1 <= |chunk| <= 3
    ensures IsEncoding(alphabet, head + chunk, text + Group(alphabet, Combined(chunk), |chunk|), vs + ds)
  {
    hide IsEncoding, Digit, Chars, Combined;
    var d := Combined(chunk);
    DigitsOf(d);
    SpareDigits(chunk);
    var four := [Digit(d, 18), Digit(d, 12), Digit(d, 6), Digit(d, 0)];
    ds := four[..|chunk| + 1];
    if |chunk| == 3 {
      ThreeMore(alphabet, head, text, vs, chunk, ds);
      assert Spelling(alphabet, ds) == Group(alphabet, d, 3);
    } else if |chunk| == 2 {
      TwoMore(alphabet, head, text, vs, chunk, ds);
      assert text + Spelling(alphabet, ds) + "=" == text + Group(alphabet, d, 2);
    } else {
      OneMore(alphabet, head, text, vs, chunk, ds);
      assert text + Spelling(alphabet, ds) + "==" == text + Group(alphabet, d, 1);
    }
  }

  lemma SpareDigits(chunk: seq<Byte>)
    requires 1 <= |chunk| <= 3
    ensures |chunk| < 3 ==> Digit(Combined(chunk), 0) == 0
    ensures |chunk| < 2 ==> Digit(Combined(chunk), 6) == 0
  {
    var d := Combined(chunk);
    if |chunk| == 2 {
      assert d == (chunk[0] as int * 256 + chunk[1]) * 4 * 64;
    } else if |chunk| == 1 {
      assert d == chunk[0] as int * 1024 * 64 && d / 64 == chunk[0] as int * 16 * 64;
    }
  }

  /** The four characters of a chunk of one, two or three bytes. */
  function Group(alphabet: Alphabet, d: Word, n: nat): string {
    var chars := Chars(alphabet);
    [chars[Digit(d, 18)], chars[Digit(d, 12)],
     if n > 1 then chars[Digit(d, 6)] else '=', if n > 2 then chars[Digit(d, 0)] else '=']
  }

  method EncodeWith(input: seq<Byte>, alphabet: Alphabet) returns (text: string)
    ensures Encodes(alphabet, input, text)
  {
    hide IsEncoding, Digit, Chars;
    var chars := Chars(alphabet);
    text := [];
    ghost var vs: seq<Sextet> := [];
    EncodesNothing(alphabet);
    var i := 0;
    while i < |input|
      invariant i <= |input| && (i % 3 == 0 || i == |input|)
      invariant IsEncoding(alphabet, input[..i], text, vs)
    {
      var chunk := input[i..if i + 3 <= |input| then i + 3 else |input|];
      var b0: Word := chunk[0];
      var b1: Word := if |chunk| > 1 then chunk[1] else 0;
      var b2: Word := if |chunk| > 2 then chunk[2] else 0;
      var d: Word := b0 * 65536 + b1 * 256 + b2;
      assert d == Combined(chunk);
      ghost var ds := ChunkMore(alphabet, input[..i], text, vs, chunk);
      assert input[..i] + chunk == input[..i + |chunk|];
      vs := vs + ds;
      ghost var before := text;
      text := text + [chars[Digit(d, 18)]];
      text := text + [chars[Digit(d, 12)]];
      text := text + [if |chunk| > 1 then chars[Digit(d, 6)] else '='];
      text := text + [if |chunk| > 2 then chars[Digit(d, 0)] else '='];
      assert text == before + Group(alphabet, d, |chunk|);
      i := i + |chunk|;
    }
    assert input[..i] == input;
  }

  lemma EncodesNothing(alphabet: Alphabet)
    ensures IsEncoding(alphabet, [], [], [])
  {
  }

  // ----- the decoding loop

  /** `x >> bits`. */
  function Shifted(x: Word, bits: Word): Word
    requires bits in {0, 2, 4, 6}
  {
    if bits == 0 then x else if bits == 2 then x / 4 else if bits == 4 then x / 16 else x / 64
  }

  /** `x & ((1 << bits) - 1)`. */
  function Masked(x: Word, bits: Word): Word
    requires bits in {0, 2, 4, 6}
  {
    if bits == 0 then 0 else if bits == 2 then x % 4 else if bits == 4 then x % 16 else x % 64
  }

  /** After some characters: the bytes cut so far and the bits not yet cut. */
  ghost predicate Decoded(t: string, bytes: seq<Byte>, bits: Word, buf: Word) {
    && Valid(t) && bits in {0, 2, 4, 6} && 6 * |t| == 8 * |bytes| + bits && buf < Width(bits)
    && Sextets(Values(t)) == Octets(bytes) * Width(bits) + buf
  }

  lemma ValuesPush(t: string, c: char)
    requires Valid(t) && Value(c).Some?
    ensures Valid(t + [c]) && Values(t + [c]) == Values(t) + [Value(c).value]
    ensures Sextets(Values(t + [c])) == 64 * Sextets(Values(t)) + Value(c).value
  {
    SextetsPush(Values(t), Value(c).value);
  }

  lemma KeepsBits(t: string, bytes: seq<Byte>, buf: Word, c: char)
    requires Decoded(t, bytes, 0, buf) && Value(c).Some?
    ensures Decoded(t + [c], bytes, 6, buf * 64 + Value(c).value)
  {
    ValuesPush(t, c);
  }

  lemma CutsByte(t: string, bytes: seq<Byte>, bits: Word, buf: Word, c: char)
    requires Decoded(t, bytes, bits, buf) && bits != 0 && Value(c).Some?
    ensures var wide := buf * 64 + Value(c).value;
      && wide < 0x1000 && Shifted(wide, bits - 2) < 256
      && Decoded(t + [c], bytes + [Shifted(wide, bits - 2)], bits - 2, Masked(wide, bits - 2))
  {
    hide Sextets, Octets, Value, Values;
    ValuesPush(t, c);
    var wide := buf * 64 + Value(c).value;
    var high, low := Shifted(wide, bits - 2), Masked(wide, bits - 2);
    assert wide == high * Width(bits - 2) + low;
    OctetsPush(bytes, high);
    assert Sextets(Values(t + [c])) == 64 * (Octets(bytes) * Width(bits)) + wide;
  }

  method Decode(text: string) returns (r: Result<seq<Byte>, char>)
    ensures Decodes(text, r)
  {
    var t := TrimEnd(text);
    var bytes: seq<Byte> := [];
    var buf: Word, bits: Word := 0, 0;
    hide Decoded, Sextets, Octets, Value, Valid, TrimEnd, Decodes, Values, Shifted, Masked;
    NothingDecoded();
    for i := 0 to |t|
      invariant Decoded(t[..i], bytes, bits, buf)
    {
      DecodedBounds(t[..i], bytes, bits, buf);
      if Value(t[i]).None? {
        Refused(text, i);
        return Err(t[i]);
      }
      assert t[..i + 1] == t[..i] + [t[i]];
      if bits == 0 { KeepsBits(t[..i], bytes, buf, t[i]); } else { CutsByte(t[..i], bytes, bits, buf, t[i]); }
      buf := buf * 64 + Value(t[i]).value;
      bits := bits + 6;
      if bits >= 8 {
        bits := bits - 8;
        bytes := bytes + [Shifted(buf, bits)];
        buf := Masked(buf, bits);
      }
    }
    assert t[..|t|] == t;
    EndDecodes(text, bytes, bits, buf);
    r := Ok(bytes);
  }

  lemma Refused(text: string, i: nat)
    requires i < |TrimEnd(text)| && Valid(TrimEnd(text)[..i]) && Value(TrimEnd(text)[i]).None?
    ensures Decodes(text, Err(TrimEnd(text)[i]))
  {
  }

  lemma NothingDecoded()
    ensures Decoded([], [], 0, 0)
  {
  }

  lemma DecodedBounds(t: string, bytes: seq<Byte>, bits: Word, buf: Word)
    requires Decoded(t, bytes, bits, buf)
    ensures Valid(t) && bits in {0, 2, 4, 6} && buf < 64
  {
  }

  lemma EndDecodes(text: string, bytes: seq<Byte>, bits: Word, buf: Word)
    requires Decoded(TrimEnd(text), bytes, bits, buf)
    ensures Decodes(text, Ok(bytes))
  {
    DivisionUndoes(Octets(bytes), bits, buf);
  }
}

/** The two alphabets, and runs of sextets and of bytes read as numbers. */
module Alphabets {
  import opened JsonValues

  type Byte = x: int | 0 <= x < 256
  type Sextet = x: int | 0 <= x < 64

  /** `u32`: every assignment to the accumulator is shown to stay inside it. */
  type Word = x: int | 0 <= x < 0x1_0000_0000

  datatype Alphabet = Standard | UrlSafe

  const UPPER: string := "ABCDEFGHIJKLMNOPQRSTUVWXYZ"
  const LOWER: string := "abcdefghijklmnopqrstuvwxyz"
  const DIGITS: string := "0123456789"

  const STANDARD: string := UPPER + LOWER + DIGITS + "+/"
  const URL_SAFE: string := UPPER + LOWER + DIGITS + "-_"

  function Chars(alphabet: Alphabet): (chars: string)
    ensures |chars| == 64
  {
    if alphabet.Standard? then STANDARD else URL_SAFE
  }

  function Value(c: char): Option<Sextet> {
    if 'A' <= c <= 'Z' then Some(c as int - 'A' as int)
    else if 'a' <= c <= 'z' then Some(c as int - 'a' as int + 26)
    else if '0' <= c <= '9' then Some(c as int - '0' as int + 52)
    else if c == '+' || c == '-' then Some(62)
    else if c == '/' || c == '_' then Some(63)
    else None
  }

  lemma CapitalHasItsPlace(i: nat)
    requires i < 26
    ensures UPPER[i] as int == 'A' as int + i
  {
  }

  lemma LetterHasItsPlace(i: nat)
    requires i < 26
    ensures LOWER[i] as int == 'a' as int + i
  {
  }

  lemma JoinedAt(u: string, l: string, d: string, x: string, i: nat)
    requires |u| == |l| == 26 && |d| == 10 && |x| == 2 && i < 64
    ensures (u + l + d + x)[i] ==
      if i < 26 then u[i] else if i < 52 then l[i - 26] else if i < 62 then d[i - 52] else x[i - 62]
  {
  }

  lemma DigitHasItsPlace(i: nat)
    requires i < 10
    ensures DIGITS[i] as int == '0' as int + i
  {
  }

  lemma PlaceOf(alphabet: Alphabet, v: Sextet)
    ensures var c := Chars(alphabet)[v];
      if v < 26 then c as int == 'A' as int + v
      else if v < 52 then c as int == 'a' as int + v - 26
      else if v < 62 then c as int == '0' as int + v - 52
      else c in (if v == 62 then "+-" else "/_")
  {
    JoinedAt(UPPER, LOWER, DIGITS, if alphabet.Standard? then "+/" else "-_", v);
    if v < 26 { CapitalHasItsPlace(v); }
    else if v < 52 { LetterHasItsPlace(v - 26); }
    else if v < 62 { DigitHasItsPlace(v - 52); }
  }

  /** Section 4 and section 5 of RFC 4648: the alphabets differ in their last two characters alone. */
  lemma AlphabetIs(alphabet: Alphabet, v: Sextet)
    ensures var c := Chars(alphabet)[v];
      if v < 26 then c as int == 65 + v
      else if v < 52 then c as int == 97 + v - 26
      else if v < 62 then c as int == 48 + v - 52
      else if v == 62 then c as int == if alphabet.Standard? then 43 else 45
      else c as int == if alphabet.Standard? then 47 else 95
  {
    JoinedAt(UPPER, LOWER, DIGITS, if alphabet.Standard? then "+/" else "-_", v);
    PlaceOf(alphabet, v);
  }

  /** A character stands for a sextet if and only if one of the alphabets has it there. */
  lemma ValueIff(c: char, v: Sextet)
    ensures Value(c) == Some(v) <==> c == Chars(Standard)[v] || c == Chars(UrlSafe)[v]
  {
    hide Chars;
    AlphabetIs(Standard, v);
    AlphabetIs(UrlSafe, v);
  }

  lemma CharHasItsValue(alphabet: Alphabet, v: Sextet)
    ensures Value(Chars(alphabet)[v]) == Some(v) && Chars(alphabet)[v] != '='
  {
    hide Chars;
    PlaceOf(alphabet, v);
  }

  function Sextets(vs: seq<Sextet>): nat {
    if vs == [] then 0 else 64 * Sextets(vs[..|vs| - 1]) + vs[|vs| - 1]
  }

  function Octets(bytes: seq<Byte>): nat {
    if bytes == [] then 0 else 256 * Octets(bytes[..|bytes| - 1]) + bytes[|bytes| - 1]
  }

  lemma {:induction false} OctetsAreUnique(a: seq<Byte>, b: seq<Byte>)
    requires |a| == |b| && Octets(a) == Octets(b)
    ensures a == b
  {
    if a != [] {
      OctetsAreUnique(a[..|a| - 1], b[..|b| - 1]);
      assert a == a[..|a| - 1] + [a[|a| - 1]] && b == b[..|b| - 1] + [b[|b| - 1]];
    }
  }

  lemma {:induction false} SextetsAreUnique(a: seq<Sextet>, b: seq<Sextet>)
    requires |a| == |b| && Sextets(a) == Sextets(b)
    ensures a == b
  {
    if a != [] {
      SextetsAreUnique(a[..|a| - 1], b[..|b| - 1]);
      assert a == a[..|a| - 1] + [a[|a| - 1]] && b == b[..|b| - 1] + [b[|b| - 1]];
    }
  }

  lemma OctetsPush(bytes: seq<Byte>, b: Byte)
    ensures Octets(bytes + [b]) == 256 * Octets(bytes) + b
  {
    assert (bytes + [b])[..|bytes|] == bytes;
  }

  lemma SextetsPush(vs: seq<Sextet>, v: Sextet)
    ensures Sextets(vs + [v]) == 64 * Sextets(vs) + v
  {
    assert (vs + [v])[..|vs|] == vs;
  }
}
