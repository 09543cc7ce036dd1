/** `sscanf(buffer, "%s %s", method, path)`: the first two white-space separated words of a request. */
module RequestLine {
  import opened Wrappers
  import opened Octets

  predicate AllSpace(s: seq<byte>) {
    forall i :: 0 <= i < |s| ==> IsSpace(s[i])
  }

  /** What `%s` stores: at least one octet, none of them white space. */
  predicate IsWord(s: seq<byte>) {
    s != [] && forall i :: 0 <= i < |s| ==> !IsSpace(s[i])
  }

  /** How many white-space octets `s` starts with. */
  function SpaceRun(s: seq<byte>): (k: nat)
    ensures k <= |s|
    ensures forall i :: 0 <= i < k ==> IsSpace(s[i])
    ensures k < |s| ==> !IsSpace(s[k])
  {
    if s == [] || !IsSpace(s[0]) then 0 else 1 + SpaceRun(s[1..])
  }

  /** How many non-white-space octets `s` starts with. */
  function WordRun(s: seq<byte>): (k: nat)
    ensures k <= |s|
    ensures forall i :: 0 <= i < k ==> !IsSpace(s[i])
    ensures k < |s| ==> IsSpace(s[k])
  {
    if s == [] || IsSpace(s[0]) then 0 else 1 + WordRun(s[1..])
  }

  /**
   * One `%s` conversion: skip white space, then take the longest run of other octets. None when
   * only white space is left (the conversion fails and stores nothing).
   */
  function ScanWord(s: seq<byte>): (r: Option<(seq<byte>, seq<byte>)>)
    ensures r.None? <==> AllSpace(s)
    ensures r.Some? ==> IsWord(r.value.0) && (r.value.1 == [] || IsSpace(r.value.1[0]))
    ensures r.Some? ==> var k := |s| - |r.value.0| - |r.value.1|;
      k >= 0 && AllSpace(s[..k]) && s[k..] == r.value.0 + r.value.1
  {
    var k := SpaceRun(s);
    var t := s[k..];
    if t == [] then
      assert s[..k] == s;
      None
    else
      var w := WordRun(t);
      assert s == s[..k] + t[..w] + t[w..];
      assert !IsSpace(s[k]);
      Some((t[..w], t[w..]))
  }

  /**
   * The two words `sscanf` stores: the method and the request target (section 3 of RFC 9112),
   * each absent when the input ran out before it.
   */
  datatype Words = Words(verb: Option<seq<byte>>, target: Option<seq<byte>>)

  function ScanRequestLine(text: seq<byte>): (r: Words)
    ensures r.verb.None? ==> r.target.None?
    ensures r.verb.Some? ==> IsWord(r.verb.value)
    ensures r.target.Some? ==> IsWord(r.target.value)
  {
    match ScanWord(text)
    case None => Words(None, None)
    case Some((verb, rest)) =>
      match ScanWord(rest)
      case None => Words(Some(verb), None)
      case Some((target, _)) => Words(Some(verb), Some(target))
  }

  /** `%s` reads back a word that stands between white space. */
  lemma ScanWordOf(lead: seq<byte>, word: seq<byte>, rest: seq<byte>)
    requires AllSpace(lead) && IsWord(word) && (rest == [] || IsSpace(rest[0]))
    ensures ScanWord(lead + word + rest) == Some((word, rest))
  {
    var s := lead + word + rest;
    var k := SpaceRun(s);
    assert s[|lead|] == word[0];
    assert forall i :: 0 <= i < |lead| ==> s[i] == lead[i];
    assert k == |lead|;
    var t := s[k..];
    assert t == word + rest;
    var w := WordRun(t);
    assert forall i :: 0 <= i < |word| ==> t[i] == word[i];
    assert |word| < |t| ==> t[|word|] == rest[0];
    assert w == |word|;
    assert t[..w] == word && t[w..] == rest;
  }

  /**
   * A request line laid out as white space, a first word, white space, a second word, and
   * then either nothing or more white space.
   */
  predicate Spaced(lead: seq<byte>, verb: seq<byte>, sep: seq<byte>, target: seq<byte>, rest: seq<byte>) {
    AllSpace(lead) && IsWord(verb) && sep != [] && AllSpace(sep) && IsWord(target) && (rest == [] || IsSpace(rest[0]))
  }

  /**
   * A request line `METHOD SP PATH ...` (section 3 of RFC 9112) yields its method and its path;
   * whatever follows the second word, the protocol version and the headers, is ignored.
   */
  lemma ScanRequestLineOf(lead: seq<byte>, verb: seq<byte>, sep: seq<byte>, target: seq<byte>, rest: seq<byte>)
    requires Spaced(lead, verb, sep, target, rest)
    ensures ScanRequestLine(lead + verb + sep + target + rest) == Words(Some(verb), Some(target))
  {
    assert lead + verb + sep + target + rest == lead + verb + (sep + target + rest);
    ScanWordOf(lead, verb, sep + target + rest);
    ScanWordOf(sep, target, rest);
  }
}
