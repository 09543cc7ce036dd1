/** Octets and the C string conventions of the C server. */
module Octets {

  /** One octet: a C `char` in a buffer, or one byte on the socket. */
  type byte = b: int | 0 <= b < 256

  const NUL: byte := 0
  const CR: byte := 13
  const DOT: byte := 46

  /** The octets of a text written in ASCII (every literal of both servers is). */
  function Ascii(s: string): (r: seq<byte>)
    ensures |r| == |s|
  {
    seq(|s|, i requires 0 <= i < |s| => (s[i] as int) % 256)
  }

  /** What a C string function sees of a buffer: every octet before the first NUL. */
  function CString(s: seq<byte>): (r: seq<byte>)
    ensures r <= s
    ensures NUL !in r
    ensures |r| < |s| ==> s[|r|] == NUL
  {
    if s == [] || s[0] == NUL then [] else [s[0]] + CString(s[1..])
  }

  /** A terminator ends the C string: nothing after it is seen. */
  lemma {:induction false} CStringTerminated(a: seq<byte>, b: seq<byte>)
    requires b != [] && b[0] == NUL
    ensures CString(a + b) == CString(a)
  {
    if a != [] {
      assert (a + b)[1..] == a[1..] + b;
      if a[0] != NUL {
        CStringTerminated(a[1..], b);
      }
    }
  }

  /** `isspace` in the C locale: space, tab, newline, vertical tab, form feed, carriage return. */
  predicate IsSpace(b: byte) {
    b == 32 || 9 <= b <= 13
  }

  /** `snprintf` into a buffer of `capacity` octets keeps at most `capacity - 1` of them. */
  function Truncate(s: seq<byte>, capacity: nat): (r: seq<byte>)
    requires capacity > 0
    ensures r <= s
    ensures |r| == if |s| < capacity then |s| else capacity - 1
  {
    if |s| < capacity then s else s[..capacity - 1]
  }
}
