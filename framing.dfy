/**
 * The response `send_response` puts on the wire: a status line in the form of section 4 of
 * RFC 9112, `Content-Type`, `Content-Length` (section 8.6 of RFC 9110) and `Connection: close`
 * (section 7.6.1 of RFC 9110), a blank line, then the body.
 */
module Framing {
  import opened Wrappers
  import opened Octets
  import opened Numerals

  const StatusPrefix := Ascii("HTTP/1.1 ")
  const TypePrefix := Ascii("\r\nContent-Type: ")
  const LengthPrefix := Ascii("\r\nContent-Length: ")
  const Trailer := Ascii("\r\nConnection: close\r\n\r\n")

  /** The text `snprintf` formats into the header buffer. */
  function HeaderBlock(status: seq<byte>, contentType: seq<byte>, bodyLength: nat): seq<byte> {
    StatusPrefix + status + TypePrefix + contentType + LengthPrefix + Decimal(bodyLength) + Trailer
  }

  /** Everything one response puts on the connection: the header block, then the body. */
  function Frame(status: seq<byte>, contentType: seq<byte>, body: seq<byte>): (r: seq<byte>)
    ensures HeaderBlock(status, contentType, |body|) <= r
    ensures r[|HeaderBlock(status, contentType, |body|)|..] == body
  {
    HeaderBlock(status, contentType, |body|) + body
  }

  lemma HeaderLength(status: seq<byte>, contentType: seq<byte>, bodyLength: nat)
    ensures |HeaderBlock(status, contentType, bodyLength)| == 66 + |status| + |contentType| + |Decimal(bodyLength)|
  {
  }

  /** A response as a client reads it back. */
  datatype Message = Message(status: seq<byte>, contentType: seq<byte>, body: seq<byte>)

  /** Where the first CR is, or the length when there is none. */
  function FirstCR(s: seq<byte>): (k: nat)
    ensures k <= |s| && CR !in s[..k]
    ensures k < |s| ==> s[k] == CR
  {
    if s == [] || s[0] == CR then 0 else 1 + FirstCR(s[1..])
  }

  /** A field ends at the CR before its successor's CRLF. */
  lemma {:induction false} FirstCRAfter(field: seq<byte>, rest: seq<byte>)
    requires CR !in field && rest != [] && rest[0] == CR
    ensures FirstCR(field + rest) == |field|
  {
    if field != [] {
      assert (field + rest)[1..] == field[1..] + rest;
      FirstCRAfter(field[1..], rest);
    }
  }

  /** What follows `lit` at the start of `s`, if `s` starts with it. */
  function After(lit: seq<byte>, s: seq<byte>): (r: Option<seq<byte>>)
    ensures r.Some? <==> lit <= s
    ensures r.Some? ==> s == lit + r.value
  {
    if lit <= s then Some(s[|lit|..]) else None
  }

  /**
   * Reads a response the way a client does: the status line, the two headers up to their CR,
   * the fixed trailer, and then exactly as many body octets as `Content-Length` announces.
   */
  function ParseMessage(bytes: seq<byte>): Option<Message> {
    match After(StatusPrefix, bytes)
    case None => None
    case Some(rest) => ParseType(rest[..FirstCR(rest)], rest[FirstCR(rest)..])
  }

  function ParseType(status: seq<byte>, s: seq<byte>): Option<Message> {
    match After(TypePrefix, s)
    case None => None
    case Some(rest) => ParseLength(status, rest[..FirstCR(rest)], rest[FirstCR(rest)..])
  }

  function ParseLength(status: seq<byte>, contentType: seq<byte>, s: seq<byte>): Option<Message> {
    match After(LengthPrefix, s)
    case None => None
    case Some(rest) => ParseBody(status, contentType, rest[..FirstCR(rest)], rest[FirstCR(rest)..])
  }

  function ParseBody(status: seq<byte>, contentType: seq<byte>, digits: seq<byte>, s: seq<byte>): Option<Message> {
    if digits == [] || !AllDigits(digits) then None
    else
      match After(Trailer, s)
      case None => None
      case Some(body) => if |body| == DecimalValue(digits) then Some(Message(status, contentType, body)) else None
  }

  /** One field of the header block and the rest of the block after it. */
  lemma ReadField(lit: seq<byte>, field: seq<byte>, rest: seq<byte>)
    requires CR !in field && rest != [] && rest[0] == CR
    ensures After(lit, lit + (field + rest)) == Some(field + rest)
    ensures (field + rest)[..FirstCR(field + rest)] == field
    ensures (field + rest)[FirstCR(field + rest)..] == rest
  {
    assert (lit + (field + rest))[|lit|..] == field + rest;
    FirstCRAfter(field, rest);
  }

  lemma LiteralsStartWithCR()
    ensures TypePrefix[0] == CR && LengthPrefix[0] == CR && Trailer[0] == CR
  {
  }

  /** Eight pieces concatenated from the left are the same octets grouped from the right. */
  lemma Regroup(a: seq<byte>, b: seq<byte>, c: seq<byte>, d: seq<byte>, e: seq<byte>, f: seq<byte>, g: seq<byte>, h: seq<byte>)
    ensures a + b + c + d + e + f + g + h == a + (b + (c + (d + (e + (f + (g + h))))))
  {
  }

  /** The length field and the trailer let a client take exactly the body. */
  lemma BodyReadsBack(status: seq<byte>, contentType: seq<byte>, body: seq<byte>)
    ensures ParseBody(status, contentType, Decimal(|body|), Trailer + body) == Some(Message(status, contentType, body))
  {
    DecimalRoundTrip(|body|);
    assert (Trailer + body)[|Trailer|..] == body;
  }

  /** The length line, read up to its CR, announces the body that follows the trailer. */
  lemma LengthReadsBack(status: seq<byte>, contentType: seq<byte>, body: seq<byte>)
    ensures ParseLength(status, contentType, LengthPrefix + (Decimal(|body|) + (Trailer + body)))
      == Some(Message(status, contentType, body))
  {
    var digits := Decimal(|body|);
    assert CR !in digits by {
      assert forall i :: 0 <= i < |digits| ==> IsDigit(digits[i]);
    }
    LiteralsStartWithCR();
    ReadField(LengthPrefix, digits, Trailer + body);
    BodyReadsBack(status, contentType, body);
  }

  /** The type line, read up to its CR, is followed by the length line. */
  lemma TypeReadsBack(status: seq<byte>, contentType: seq<byte>, body: seq<byte>)
    requires CR !in contentType
    ensures ParseType(status, TypePrefix + (contentType + (LengthPrefix + (Decimal(|body|) + (Trailer + body)))))
      == Some(Message(status, contentType, body))
  {
    LiteralsStartWithCR();
    ReadField(TypePrefix, contentType, LengthPrefix + (Decimal(|body|) + (Trailer + body)));
    LengthReadsBack(status, contentType, body);
  }

  /**
   * A client reading what `send_response` wrote gets back the status, the type and the body:
   * the announced Content-Length is the number of octets that follow the header.
   */
  lemma {:induction false} FrameRoundTrip(status: seq<byte>, contentType: seq<byte>, body: seq<byte>)
    requires CR !in status && CR !in contentType
    ensures ParseMessage(Frame(status, contentType, body)) == Some(Message(status, contentType, body))
  {
    var r2 := contentType + (LengthPrefix + (Decimal(|body|) + (Trailer + body)));
    Regroup(StatusPrefix, status, TypePrefix, contentType, LengthPrefix, Decimal(|body|), Trailer, body);
    TypeReadsBack(status, contentType, body);
    LiteralsStartWithCR();
    ReadField(StatusPrefix, status, TypePrefix + r2);
  }

}
