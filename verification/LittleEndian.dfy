/** Bytes and 32-bit words in little-endian order. */
module LittleEndian {
  type Byte = x: int | 0 <= x < 256
  type Word = x: int | 0 <= x < 0x1_0000_0000

  /** A 32-bit word, low byte first. */
  function PutWord(x: Word): (r: seq<Byte>)
    ensures |r| == 4
  {
    [x % 256, x / 256 % 256, x / 256 / 256 % 256, x / 256 / 256 / 256]
  }

  function GetWord(b: seq<Byte>): (r: Word)
    requires |b| == 4
    ensures PutWord(r) == b
  {
    var y2: int := b[2] + 256 * b[3] as int;
    var y1: int := b[1] + 256 * y2;
    var y0: int := b[0] + 256 * y1;
    assert y0 % 256 == b[0] && y0 / 256 == y1;
    assert y1 % 256 == b[1] && y1 / 256 == y2;
    assert y2 % 256 == b[2] && y2 / 256 == b[3];
    y0
  }

  lemma WordRoundTrip(x: Word)
    ensures GetWord(PutWord(x)) == x
  {
  }

  /** Four bytes from i on, each with the value of its place. */
  function ByPlace(b: seq<Byte>, i: nat): int
    requires i + 4 <= |b|
  {
    b[i] as int + 0x100 * b[i + 1] as int + 0x1_0000 * b[i + 2] as int + 0x100_0000 * b[i + 3] as int
  }

  /** The low byte comes first. */
  lemma WordBytes(x: Word)
    ensures ByPlace(PutWord(x), 0) == x
  {
    var y1 := x / 256;
    var y2 := y1 / 256;
    assert x == 256 * y1 + x % 256 && y1 == 256 * y2 + y1 % 256 && y2 == 256 * (y2 / 256) + y2 % 256;
  }

  lemma PlacesAt(b: seq<Byte>, i: nat, w: seq<Byte>)
    requires i + 4 <= |b| && |w| == 4 && b[i..i + 4] == w
    ensures ByPlace(b, i) == ByPlace(w, 0)
  {
    assert b[i..i + 4][0] == b[i] && b[i..i + 4][1] == b[i + 1] && b[i..i + 4][2] == b[i + 2] &&
      b[i..i + 4][3] == b[i + 3];
  }
}
