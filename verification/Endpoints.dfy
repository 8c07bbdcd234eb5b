/** Node identity: the endpoint of a URL, compared, keyed and ordered without case (src/util.rs). */
module Endpoints {
  import opened Orders

  /** What follows the first "//", or the whole text without one. */
  function AfterScheme(url: string): string {
    if |url| >= 2 && url[0] == '/' && url[1] == '/' then url[2..]
    else if url == [] then []
    else
      var rest := AfterScheme(url[1..]);
      if HasScheme(url[1..]) then rest else url
  }

  predicate HasScheme(url: string) {
    |url| >= 2 && ((url[0] == '/' && url[1] == '/') || HasScheme(url[1..]))
  }

  /** Up to the first path, query or fragment mark. */
  function Authority(text: string): string {
    if text == [] || text[0] in "/?#" then [] else [text[0]] + Authority(text[1..])
  }

  function EndpointOf(url: string): string {
    Authority(AfterScheme(url))
  }

  function LowerChar(c: char): char {
    if 'A' <= c <= 'Z' then ((c as int) + 32) as char else c
  }

  function Lower(text: string): (r: string)
    ensures |r| == |text| && forall i :: 0 <= i < |text| ==> r[i] == LowerChar(text[i])
  {
    if text == [] then [] else [LowerChar(text[0])] + Lower(text[1..])
  }

  function NodeKey(url: string): string {
    Lower(EndpointOf(url))
  }

  /** Equal length and equal characters, ignoring ASCII case. */
  predicate SameEndpoint(a: string, b: string) {
    var x, y := EndpointOf(a), EndpointOf(b);
    |x| == |y| && forall i :: 0 <= i < |x| ==> LowerChar(x[i]) == LowerChar(y[i])
  }

  /** The order of node keys, found without building them. */
  method CmpEndpoint(a: string, b: string) returns (o: Ordering)
    ensures o == CompareText(NodeKey(a), NodeKey(b))
  {
    var x, y := EndpointOf(a), EndpointOf(b);
    ghost var kx, ky := NodeKey(a), NodeKey(b);
    var n := if |x| < |y| then |x| else |y|;
    for i := 0 to n
      invariant CompareText(kx, ky) == CompareText(kx[i..], ky[i..])
    {
      var c := CompareInt(LowerChar(x[i]) as int, LowerChar(y[i]) as int);
      if c != Equal { return c; }
    }
    return CompareInt(|x|, |y|);
  }

  /** One node is one key: sameness, key equality and a tie in the order are the same question. */
  lemma IdentityIsOneQuestion(a: string, b: string)
    ensures SameEndpoint(a, b) <==> NodeKey(a) == NodeKey(b)
    ensures SameEndpoint(a, b) <==> CompareText(NodeKey(a), NodeKey(b)) == Equal
  {
    CompareTextLaws(NodeKey(a), NodeKey(b));
    if SameEndpoint(a, b) {
      assert forall i :: 0 <= i < |NodeKey(a)| ==> NodeKey(a)[i] == NodeKey(b)[i];
    }
    if NodeKey(a) == NodeKey(b) {
      var x, y := EndpointOf(a), EndpointOf(b);
      forall i | 0 <= i < |x|
        ensures LowerChar(x[i]) == LowerChar(y[i])
      {
        assert NodeKey(a)[i] == NodeKey(b)[i];
      }
    }
  }

  // ----- what a spelling says

  /** One character, or the two cases of one ASCII letter, which stand 32 apart. */
  predicate SameLetter(c: char, d: char) {
    || c == d
    || ('A' <= c <= 'Z' && d as int == c as int + 32)
    || ('A' <= d <= 'Z' && c as int == d as int + 32)
  }

  predicate SameLetters(x: string, y: string) {
    |x| == |y| && forall i :: 0 <= i < |x| ==> SameLetter(x[i], y[i])
  }

  lemma LowerTiesIff(c: char, d: char)
    ensures LowerChar(c) == LowerChar(d) <==> SameLetter(c, d)
    ensures SameLetter(LowerChar(c), c) && !('A' <= LowerChar(c) <= 'Z')
  {
  }

  lemma LowersTieIff(x: string, y: string)
    ensures Lower(x) == Lower(y) <==> SameLetters(x, y)
  {
    hide LowerChar, SameLetter;
    forall i | 0 <= i < |x| && i < |y|
      ensures Lower(x)[i] == Lower(y)[i] <==> SameLetter(x[i], y[i])
    {
      LowerTiesIff(x[i], y[i]);
    }
    if |x| == |y| && SameLetters(x, y) { assert Lower(x) == Lower(y); }
  }

  predicate MarkAt(url: string, n: nat) {
    n + 1 < |url| && url[n] == '/' && url[n + 1] == '/'
  }

  /** No "//" begins among the first `n` characters. */
  predicate Unmarked(url: string, n: nat) {
    forall i: nat :: i < n ==> !MarkAt(url, i)
  }

  /** The URL names the host: behind its first "//", or at its start if it has none, and up to the first path,
      query or fragment mark. */
  ghost predicate Spells(url: string, host: string) {
    && (forall i :: 0 <= i < |host| ==> host[i] !in "/?#")
    && exists scheme, tail :: SpelledBy(url, scheme, host, tail)
  }

  predicate SpelledBy(url: string, scheme: string, host: string, tail: string) {
    && (tail == [] || tail[0] in "/?#")
    && ((url == scheme + "//" + host + tail && Unmarked(url, |scheme|))
        || (scheme == [] && url == host + tail && Unmarked(url, |url|)))
  }

  lemma {:induction false} AuthorityStops(host: string, tail: string)
    requires forall i :: 0 <= i < |host| ==> host[i] !in "/?#"
    requires tail == [] || tail[0] in "/?#"
    ensures Authority(host + tail) == host
  {
    if host == [] {
      assert host + tail == tail;
    } else {
      assert (host + tail)[1..] == host[1..] + tail;
      AuthorityStops(host[1..], tail);
    }
  }

  lemma UnmarkedAfter(url: string, n: nat)
    requires n > 0 && url != [] && Unmarked(url, n)
    ensures !MarkAt(url, 0) && Unmarked(url[1..], n - 1)
  {
    forall i: nat | i < n - 1
      ensures !MarkAt(url[1..], i)
    {
      assert !MarkAt(url, i + 1);
    }
  }

  lemma {:induction false} SchemeIsCut(url: string, n: nat)
    requires MarkAt(url, n) && Unmarked(url, n)
    ensures HasScheme(url) && AfterScheme(url) == url[n + 2..]
  {
    if n > 0 {
      UnmarkedAfter(url, n);
      SchemeIsCut(url[1..], n - 1);
      assert url[1..][n + 1..] == url[n + 2..];
    }
  }

  lemma {:induction false} NoScheme(url: string)
    requires Unmarked(url, |url|)
    ensures !HasScheme(url) && AfterScheme(url) == url
  {
    if url != [] {
      UnmarkedAfter(url, |url|);
      NoScheme(url[1..]);
    }
  }

  lemma {:induction false} FirstMark(url: string) returns (n: nat)
    ensures Unmarked(url, n) && (MarkAt(url, n) || n == |url|)
  {
    if url == [] || MarkAt(url, 0) {
      n := 0;
    } else {
      n := FirstMark(url[1..]);
      forall i: nat | i < n + 1
        ensures !MarkAt(url, i)
      {
        assert i > 0 ==> !MarkAt(url[1..], i - 1);
      }
      n := n + 1;
    }
  }

  lemma {:induction false} AuthorityIsPrefix(text: string)
    ensures var host := Authority(text);
      && |host| <= |text| && text == host + text[|host|..]
      && (forall i :: 0 <= i < |host| ==> host[i] !in "/?#")
      && (|host| < |text| ==> text[|host|] in "/?#")
  {
    if text != [] && text[0] !in "/?#" {
      AuthorityIsPrefix(text[1..]);
      assert text == [text[0]] + text[1..];
    }
  }

  lemma EndpointIsSpelled(url: string)
    ensures Spells(url, EndpointOf(url))
  {
    hide Authority, AfterScheme, Unmarked, HasScheme;
    var n := FirstMark(url);
    var host := EndpointOf(url);
    if MarkAt(url, n) {
      SchemeIsCut(url, n);
      AuthorityIsPrefix(url[n + 2..]);
      var tail := url[n + 2..][|host|..];
      assert url == url[..n] + "//" + host + tail;
      assert SpelledBy(url, url[..n], host, tail);
    } else {
      NoScheme(url);
      AuthorityIsPrefix(url);
      assert SpelledBy(url, [], host, url[|host|..]);
    }
  }

  /** Every URL names one host. */
  lemma SpelledIsEndpoint(url: string, host: string)
    ensures Spells(url, host) <==> host == EndpointOf(url)
  {
    hide Authority, AfterScheme, Unmarked, HasScheme;
    EndpointIsSpelled(url);
    if Spells(url, host) {
      var scheme, tail :| SpelledBy(url, scheme, host, tail);
      AuthorityStops(host, tail);
      if scheme == [] && url == host + tail && Unmarked(url, |url|) {
        NoScheme(url);
      } else {
        assert MarkAt(url, |scheme|);
        SchemeIsCut(url, |scheme|);
        assert url[|scheme| + 2..] == host + tail;
      }
    }
  }

  /** Two URLs are one node if and only if the hosts they name differ in the case of ASCII letters alone:
      schemes, paths, queries and fragments never make a second node, and nothing else makes two nodes one. */
  lemma SpellingsOfOneNode(a: string, x: string, b: string, y: string)
    requires Spells(a, x) && Spells(b, y)
    ensures NodeKey(a) == NodeKey(b) <==> SameLetters(x, y)
    ensures SameEndpoint(a, b) <==> SameLetters(x, y)
  {
    hide EndpointOf, Spells, Lower, SameLetters, SameEndpoint;
    SpelledIsEndpoint(a, x);
    SpelledIsEndpoint(b, y);
    LowersTieIff(x, y);
    IdentityIsOneQuestion(a, b);
  }

  /** A key is the host in lower case. */
  lemma KeyIsLowerCase(url: string, host: string)
    requires Spells(url, host)
    ensures SameLetters(NodeKey(url), host)
    ensures forall i :: 0 <= i < |NodeKey(url)| ==> !('A' <= NodeKey(url)[i] <= 'Z')
  {
    hide EndpointOf, Spells;
    SpelledIsEndpoint(url, host);
    forall i | 0 <= i < |host|
      ensures SameLetter(LowerChar(host[i]), host[i]) && !('A' <= LowerChar(host[i]) <= 'Z')
    {
      LowerTiesIff(host[i], host[i]);
    }
  }
}
