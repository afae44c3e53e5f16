/** The bytes of a \u escape, against readers of UTF-8 and of hexadecimal digits that know nothing of the decoder. */
module DotjsonUtf8 {
  import opened Collections
  import opened DotjsonTable
  import opened DotjsonGrammar

  // ---- section 3 of RFC 3629 ----------------------------------------------------------------------

  /** How many bytes the high bits of the first one announce, and the bits it holds. */
  function Lead(b: Byte): Option<(nat, nat)> {
    var x := b as int;
    if x < 0x80 then Some((1, x))
    else if 0xc0 <= x < 0xe0 then Some((2, x - 0xc0))
    else if 0xe0 <= x < 0xf0 then Some((3, x - 0xe0))
    else if 0xf0 <= x < 0xf8 then Some((4, x - 0xf0))
    else None
  }

  /** The n continuation bytes from p on, each with six more bits, after u. */
  function Tail(s: Bytes, p: nat, n: nat, u: nat): Option<nat>
    decreases n
  {
    if n == 0 then Some(u)
    else if p < |s| && 0x80 <= s[p] as int <= 0xbf then Tail(s, p + 1, n - 1, 64 * u + (s[p] as int - 0x80))
    else None
  }

  /** The first character of a text and the number of its bytes. */
  function ReadUtf8(s: Bytes): Option<(nat, nat)> {
    if s == [] then None
    else match Lead(s[0])
      case None => None
      case Some((n, bits)) => match Tail(s, 1, n - 1, bits) case None => None case Some(u) => Some((u, n))
  }

  /** What an escape is decoded to reads back as its code point, whatever stands behind it, and in no fewer bytes. */
  lemma Utf8Reads(u: nat, rest: Bytes)
    requires u <= 0xffff
    ensures ReadUtf8(Utf8(u) + rest) == Some((u, |Utf8(u)|))
    ensures |Utf8(u)| == if u < 0x80 then 1 else if u < 0x800 then 2 else 3
  {
    var b := Utf8(u);
    var s := b + rest;
    assert forall i :: 0 <= i < |b| ==> s[i] == b[i];
    if u > 0x7f {
      var v := u / 64;
      assert u == 64 * v + u % 64;
      if u > 0x7ff {
        assert v == 64 * (v / 64) + v % 64 && v / 64 == u / 4096;
        assert Tail(s, 3, 0, u) == Some(u);
        assert Tail(s, 2, 1, v) == Tail(s, 3, 0, 64 * v + (s[2] as int - 0x80));
        assert Tail(s, 1, 2, v / 64) == Tail(s, 2, 1, 64 * (v / 64) + (s[1] as int - 0x80));
      } else {
        assert Tail(s, 1, 1, v) == Tail(s, 2, 0, 64 * v + (s[1] as int - 0x80));
      }
    }
  }

  // ---- section 4 of RFC 3629 ----------------------------------------------------------------------

  predicate InTail(b: Byte) {
    0x80 <= b as int <= 0xbf
  }

  /** One character of at most three bytes by the grammar of that section. */
  predicate Rfc3629(s: Bytes) {
    || (|s| == 1 && s[0] as int <= 0x7f)
    || (|s| == 2 && 0xc2 <= s[0] as int <= 0xdf && InTail(s[1]))
    || (|s| == 3 && s[0] as int == 0xe0 && 0xa0 <= s[1] as int <= 0xbf && InTail(s[2]))
    || (|s| == 3 && 0xe1 <= s[0] as int <= 0xec && InTail(s[1]) && InTail(s[2]))
    || (|s| == 3 && s[0] as int == 0xed && 0x80 <= s[1] as int <= 0x9f && InTail(s[2]))
    || (|s| == 3 && 0xee <= s[0] as int <= 0xef && InTail(s[1]) && InTail(s[2]))
  }

  /** The bytes are standard UTF-8 except for a surrogate, which is encoded on its own. */
  lemma SurrogatesExactly(u: nat)
    requires u <= 0xffff
    ensures Rfc3629(Utf8(u)) <==> !(0xd800 <= u <= 0xdfff)
  {
    if u > 0x7ff {
      var v, w := u / 64, u / 4096;
      assert u == 64 * v + u % 64 && v == 64 * w + v % 64;
    }
  }

  // ---- hexadecimal digits -------------------------------------------------------------------------

  const LOWER: Bytes := ['0', '1', '2', '3', '4', '5', '6', '7', '8', '9', 'a', 'b', 'c', 'd', 'e', 'f']
  const UPPER: Bytes := ['0', '1', '2', '3', '4', '5', '6', '7', '8', '9', 'A', 'B', 'C', 'D', 'E', 'F']

  /** A digit has the value of its place in the usual order, in either case, and nothing else is one. */
  lemma HexExactly(c: Byte, d: nat)
    ensures Hex(c) == Some(d) <==> d < 16 && (LOWER[d] == c || UPPER[d] == c)
  {
  }
}
