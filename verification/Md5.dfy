/** MD5 streaming against the padded message of sections 3.1 and 3.2 of RFC 1321. */
module Md5 {
  import opened Collections
  import opened LittleEndian

  /** The four chaining words. */
  datatype Chain = Chain(a: Word, b: Word, c: Word, d: Word)

  const INIT := Chain(0x67452301, 0xefcdab89, 0x98badcfe, 0x10325476)

  /** Section 3.4, the 64 rounds over one block of 64 bytes, is any function. */
  type Compress = (Chain, seq<Byte>) -> Chain

  // ---- the standard -----------------------------------------------------------------------------

  /** The blocks of m, one after another; a last part shorter than a block is not used. */
  ghost function Fold(f: Compress, c: Chain, m: seq<Byte>): Chain
    decreases |m|
  {
    if |m| < 64 then c else Fold(f, f(c, m[..64]), m[64..])
  }

  function Zeros(n: nat): (r: seq<Byte>)
    ensures |r| == n
  {
    seq(n, _ => 0)
  }

  /** A one bit, zero bits up to 56 bytes modulo 64, and the length in bits as 64 bits, low word first. */
  function Padding(n: nat): (r: seq<Byte>)
    ensures (n + |r|) % 64 == 0
  {
    PadLength(n);
    var bits := 8 * n % 0x1_0000_0000_0000_0000;
    [0x80] + Zeros((55 - n) % 64) + PutWord(bits % 0x1_0000_0000) + PutWord(bits / 0x1_0000_0000)
  }

  lemma PadLength(n: nat)
    ensures (n + (1 + (55 - n) % 64 + 8)) % 64 == 0
  {
    var q := (55 - n) / 64;
    assert n + (55 - n) % 64 == 55 - 64 * q;
  }

  function Output(c: Chain): seq<Byte> {
    PutWord(c.a) + PutWord(c.b) + PutWord(c.c) + PutWord(c.d)
  }

  ghost function Sum(f: Compress, m: seq<Byte>): seq<Byte> {
    Output(Fold(f, INIT, m + Padding(|m|)))
  }

  /** The initial chain as section 3.3 writes it, low-order bytes first. */
  lemma InitialBytes()
    ensures Output(INIT) == [0x01, 0x23, 0x45, 0x67, 0x89, 0xab, 0xcd, 0xef,
                             0xfe, 0xdc, 0xba, 0x98, 0x76, 0x54, 0x32, 0x10]
  {
    var a, b, c, d := PutWord(INIT.a), PutWord(INIT.b), PutWord(INIT.c), PutWord(INIT.d);
    assert a == [0x01, 0x23, 0x45, 0x67] && b == [0x89, 0xab, 0xcd, 0xef];
    assert c == [0xfe, 0xdc, 0xba, 0x98] && d == [0x76, 0x54, 0x32, 0x10];
    hide PutWord;
  }

  /** Section 3.5: the four words in their order, each with its low byte first. */
  lemma OutputPlaces(c: Chain)
    ensures var r := Output(c);
      |r| == 16 && ByPlace(r, 0) == c.a && ByPlace(r, 4) == c.b && ByPlace(r, 8) == c.c && ByPlace(r, 12) == c.d
  {
    var r := Output(c);
    WordBytes(c.a);
    WordBytes(c.b);
    WordBytes(c.c);
    WordBytes(c.d);
    hide PutWord;
    PlacesAt(r, 0, PutWord(c.a));
    PlacesAt(r, 4, PutWord(c.b));
    PlacesAt(r, 8, PutWord(c.c));
    PlacesAt(r, 12, PutWord(c.d));
  }

  /** Sections 3.1 and 3.2: a one bit, no more zeros than needed, and the bit length by its places. */
  lemma PaddingPlaces(n: nat)
    ensures var r := Padding(n);
      && 9 <= |r| <= 72 && (n + |r|) % 64 == 0 && r[0] == 0x80 && (forall i :: 0 < i < |r| - 8 ==> r[i] == 0)
      && ByPlace(r, |r| - 8) + 0x1_0000_0000 * ByPlace(r, |r| - 4) == 8 * n % 0x1_0000_0000_0000_0000
  {
    var bits := 8 * n % 0x1_0000_0000_0000_0000;
    var r, low, high := Padding(n), bits % 0x1_0000_0000, bits / 0x1_0000_0000;
    WordBytes(low);
    WordBytes(high);
    hide PutWord;
    var k := |r| - 8;
    PlacesAt(r, k, PutWord(low));
    PlacesAt(r, k + 4, PutWord(high));
  }

  lemma {:induction false} FoldConcat(f: Compress, c: Chain, a: seq<Byte>, b: seq<Byte>)
    requires |a| % 64 == 0
    ensures Fold(f, c, a + b) == Fold(f, Fold(f, c, a), b)
    decreases |a|
  {
    if |a| == 0 {
      assert a + b == b;
    } else {
      assert (a + b)[..64] == a[..64] && (a + b)[64..] == a[64..] + b;
      FoldConcat(f, f(c, a[..64]), a[64..], b);
    }
  }

  lemma FoldBlock(f: Compress, c: Chain, m: seq<Byte>)
    requires |m| == 64
    ensures Fold(f, c, m) == f(c, m)
  {
    assert m[..64] == m && m[64..] == [];
  }

  // ---- the two-word counter -----------------------------------------------------------------------

  function Count(lo: Word, hi: Word): nat {
    hi * 0x1_0000_0000 + lo
  }

  /** The two words are n modulo 2^64. */
  predicate Counts(lo: Word, hi: Word, n: nat) {
    Count(lo, hi) == n % 0x1_0000_0000_0000_0000
  }

  lemma CountAdds(lo: Word, hi: Word, n: Word, lo2: Word, hi2: Word)
    requires lo2 == (lo + n) % 0x1_0000_0000
    requires hi2 == if 0xffff_ffff - lo < n then (hi + 1) % 0x1_0000_0000 else hi
    ensures Count(lo2, hi2) == (Count(lo, hi) + n) % 0x1_0000_0000_0000_0000
  {
  }

  /** The two words that Final appends are the length in bits. */
  lemma BitCount(lo: Word, hi: Word, n: nat)
    requires Count(lo, hi) == n % 0x1_0000_0000_0000_0000
    ensures var bits := 8 * n % 0x1_0000_0000_0000_0000;
      && bits % 0x1_0000_0000 == 8 * lo % 0x1_0000_0000
      && bits / 0x1_0000_0000 == 8 * hi % 0x1_0000_0000 + lo / 0x2000_0000
  {
    var q := n / 0x1_0000_0000_0000_0000;
    var a, b := lo / 0x2000_0000, lo % 0x2000_0000;
    var top, h := 8 * hi / 0x1_0000_0000, 8 * hi % 0x1_0000_0000;
    LowWord(lo, a, b);
    HighWord(hi, top, h);
    Combine(n, q, lo, hi, a, b, top, h);
  }

  lemma LowWord(lo: Word, a: int, b: int)
    requires a == lo / 0x2000_0000 && b == lo % 0x2000_0000
    ensures 8 * lo == a * 0x1_0000_0000 + 8 * b && 0 <= a < 8 && 0 <= 8 * b < 0x1_0000_0000
    ensures 8 * lo % 0x1_0000_0000 == 8 * b
  {
  }

  lemma HighWord(hi: Word, top: int, h: int)
    requires top == 8 * hi / 0x1_0000_0000 && h == 8 * hi % 0x1_0000_0000
    ensures 8 * hi == top * 0x1_0000_0000 + h && 0 <= h <= 0xffff_fff8
  {
    var b := hi % 0x2000_0000;
    assert 8 * hi == hi / 0x2000_0000 * 0x1_0000_0000 + 8 * b;
  }

  lemma Combine(n: nat, q: int, lo: Word, hi: Word, a: int, b: int, top: int, h: int)
    requires n == q * 0x1_0000_0000_0000_0000 + Count(lo, hi)
    requires 8 * lo == a * 0x1_0000_0000 + 8 * b && 0 <= a < 8 && 0 <= 8 * b < 0x1_0000_0000
    requires 8 * hi == top * 0x1_0000_0000 + h && 0 <= h <= 0xffff_fff8
    ensures var bits := 8 * n % 0x1_0000_0000_0000_0000; bits % 0x1_0000_0000 == 8 * b && bits / 0x1_0000_0000 == h + a
  {
    var r := (h + a) * 0x1_0000_0000 + 8 * b;
    assert 8 * n == (8 * q + top) * 0x1_0000_0000_0000_0000 + r;
    Remainder(8 * n, 8 * q + top, r);
    hide Count;
    assert r % 0x1_0000_0000 == 8 * b && r / 0x1_0000_0000 == h + a;
  }

  lemma Remainder(x: int, q: int, r: int)
    requires x == q * 0x1_0000_0000_0000_0000 + r && 0 <= r < 0x1_0000_0000_0000_0000
    ensures x % 0x1_0000_0000_0000_0000 == r
  {
  }

  // ---- the streaming object -----------------------------------------------------------------------

  class MD5p {
    const compress: Compress
    var chain: Chain
    var lo: Word
    var hi: Word
    /** History: the bytes of all blocks so far. */
    ghost var fed: seq<Byte>

    /** The chain is that of the blocks so far, and the counter their length modulo 2^64. */
    ghost predicate Valid()
      reads this
    {
      |fed| % 64 == 0 && chain == Fold(compress, INIT, fed) && Counts(lo, hi, |fed|)
    }

    constructor (compress: Compress)
      ensures Valid() && fed == [] && this.compress == compress
    {
      this.compress, chain, lo, hi, fed := compress, INIT, 0, 0, [];
    }

    method AddLength(n: Word)
      modifies this`lo, this`hi
      ensures Count(lo, hi) == (Count(old(lo), old(hi)) + n) % 0x1_0000_0000_0000_0000
    {
      var carry := 0xffff_ffff - lo < n;
      CountAdds(lo, hi, n, (lo + n) % 0x1_0000_0000, if carry then (hi + 1) % 0x1_0000_0000 else hi);
      if carry { hi := (hi + 1) % 0x1_0000_0000; }
      lo := (lo + n) % 0x1_0000_0000;
    }

    /** One block: the chain moves on and 64 is counted; what held of the blocks before holds of all. */
    method Update(m: seq<Byte>)
      requires |m| == 64
      modifies this
      ensures chain == compress(old(chain), m) && fed == old(fed) + m
      ensures Count(lo, hi) == (Count(old(lo), old(hi)) + 64) % 0x1_0000_0000_0000_0000
      ensures old(Valid()) ==> Valid()
    {
      BlockFolds(compress, fed, chain, m);
      hide Fold, Count, Counts;
      ghost var lo0, hi0 := lo, hi;
      chain := compress(chain, m);
      AddLength(64);
      CountsGrow(lo0, hi0, |fed|, 64, lo, hi);
      fed := fed + m;
    }

    /** What Final copies and writes behind it: at most two blocks. */
    method Pad(tail: seq<Byte>, ghost n: nat) returns (padding: array<Byte>, l: nat, end: nat)
      requires n % 64 == |tail| % 64 && Counts(lo, hi, n)
      ensures l == |tail| % 64 && end == (if l >= 56 then 128 else 64)
      ensures fresh(padding) && padding.Length == 128 && padding[..end] == Kept(tail) + Padding(n)
    {
      LowBits(lo, hi, n);
      l := lo % 64;
      hide PutWord, Padding, Counts, High, Zeros;
      padding := new Byte[128];
      CopyTail(padding, tail, l);
      assert padding[..l] == Kept(tail);
      end := PadBehind(padding, l, n, Kept(tail));
    }

    /** The one bit, the zeros and the length. */
    method PadBehind(padding: array<Byte>, l: nat, ghost n: nat, ghost kept: seq<Byte>) returns (end: nat)
      requires padding.Length == 128 && |kept| == l < 64 && padding[..l] == kept && n % 64 == l && Counts(lo, hi, n)
      modifies padding
      ensures end == (if l >= 56 then 128 else 64) && padding[..end] == kept + Padding(n)
    {
      hide PutWord, Padding, Counts, High, Zeros;
      Tail(kept, n, lo, hi, (if l >= 56 then 119 else 55) - l);
      var p := l;
      var k := (if l >= 56 then 120 else 56) - l;
      padding[p] := 0x80;
      assert padding[..p + 1] == kept + [0x80];
      PutZeros(padding, p + 1, k - 1);
      p := p + k;
      end := p + 8;
      PutLength(padding, p);
      assert padding[..end] == padding[..p] + padding[p..p + 4] + padding[p + 4..end];
    }

    method CopyTail(padding: array<Byte>, tail: seq<Byte>, l: nat)
      requires l <= |tail| && l <= padding.Length
      modifies padding
      ensures padding[..l] == tail[..l]
    {
      var p := 0;
      while p < l
        invariant p <= l && padding[..p] == tail[..p]
      {
        padding[p] := tail[p];
        p := p + 1;
      }
    }

    /** The zeros, counted down. */
    method PutZeros(padding: array<Byte>, start: nat, n: nat)
      requires start + n <= padding.Length
      modifies padding
      ensures padding[..start + n] == old(padding[..start]) + Zeros(n)
    {
      var p, k := start, n;
      while k > 0
        invariant 0 <= k <= n && p == start + (n - k) && padding[..p] == old(padding[..start]) + Zeros(n - k)
      {
        padding[p] := 0;
        p := p + 1;
        k := k - 1;
      }
    }

    /** The two words at the end. */
    method PutLength(padding: array<Byte>, p: nat)
      requires p + 8 <= padding.Length
      modifies padding
      ensures padding[..p] == old(padding[..p])
      ensures padding[p..p + 4] == PutWord(8 * lo % 0x1_0000_0000)
      ensures padding[p + 4..p + 8] == PutWord(High(lo, hi))
    {
      var w := PutWord(8 * lo % 0x1_0000_0000) + PutWord(High(lo, hi));
      forall i | 0 <= i < 8 { padding[p + i] := w[i]; }
    }

    /** Of a tail of a block or more only the first bytes are used; GetSum leaves less than a block. */
    method Final(tail: seq<Byte>)
      requires Valid() && |tail| < 0x1_0000_0000
      modifies this
      ensures fed == old(fed) + Kept(tail) + Padding(|old(fed)| + |tail|)
      ensures chain == Fold(compress, INIT, old(fed) + Kept(tail) + Padding(|old(fed)| + |tail|))
    {
      ghost var before, n, lo0, hi0 := fed, |fed| + |tail|, lo, hi;
      hide Fold, Padding, Count, Kept, Counts;
      assert |fed| % 64 == 0 && chain == Fold(compress, INIT, fed) && Counts(lo, hi, |fed|);
      hide Valid;
      TailLength(|fed|, |tail|);
      AddLength(|tail|);
      CountsGrow(lo0, hi0, |fed|, |tail|, lo, hi);
      var padding, l, end := Pad(tail, n);
      UpdatePadding(padding, l, end);
      Assoc(before, Kept(tail), Padding(n));
    }

    /** One block of padding, or two. */
    method UpdatePadding(padding: array<Byte>, l: nat, end: nat)
      requires padding.Length == 128 && end == if l >= 56 then 128 else 64
      requires |fed| % 64 == 0 && chain == Fold(compress, INIT, fed)
      modifies this
      ensures fed == old(fed) + padding[..end] && chain == Fold(compress, INIT, fed)
    {
      hide Fold, Count, Valid;
      ghost var before, m := fed, padding[..end];
      TwoBlocks(compress, before, chain, m);
      assert padding[..64] == m[..64];
      Update(padding[..64]);
      if l >= 56 {
        assert padding[64..128] == m[64..];
        Update(padding[64..128]);
      }
      Whole(before, m, fed);
    }
  }

  /** The bytes of a tail that Final copies: as many as the counter is past a block boundary. */
  function Kept(tail: seq<Byte>): seq<Byte> {
    tail[..|tail| % 64]
  }

  // ---- when Final is right ------------------------------------------------------------------------

  /** A compression function that counts blocks. */
  const COUNTING: Compress := (c: Chain, m: seq<Byte>) => c.(a := (c.a + 1) % 0x1_0000_0000)

  lemma {:induction false} CountsBlocks(c: Chain, m: seq<Byte>)
    ensures Fold(COUNTING, c, m).a == (c.a + |m| / 64) % 0x1_0000_0000
    decreases |m|
  {
    if |m| >= 64 {
      CountsBlocks(COUNTING(c, m[..64]), m[64..]);
      CountsMore(c.a, (|m| - 64) / 64);
    }
  }

  lemma CountsMore(a: Word, n: nat)
    ensures ((a + 1) % 0x1_0000_0000 + n) % 0x1_0000_0000 == (a + (n + 1)) % 0x1_0000_0000
  {
  }

  /** What Final leaves is right for every compression function if and only if the tail is less than a block. */
  lemma FinalIsRight(fed: seq<Byte>, tail: seq<Byte>)
    requires |fed| % 64 == 0 && |tail| < 0x1_0000_0000
    ensures var pad := Padding(|fed| + |tail|);
      (forall f: Compress :: Fold(f, INIT, fed + Kept(tail) + pad) == Fold(f, INIT, fed + tail + pad)) <==> |tail| < 64
  {
    var pad := Padding(|fed| + |tail|);
    hide Padding;
    if |tail| < 64 {
      assert Kept(tail) == tail;
    } else {
      var a, b := fed + Kept(tail) + pad, fed + tail + pad;
      CountsBlocks(INIT, a);
      CountsBlocks(INIT, b);
      hide Fold;
      BlocksDiffer(|a| / 64, |b| / 64, |tail| / 64);
      assert Fold(COUNTING, INIT, a) != Fold(COUNTING, INIT, b);
    }
  }

  lemma BlocksDiffer(a: nat, b: nat, d: nat)
    requires b == a + d && 0 < d < 0x1_0000_0000
    ensures (INIT.a + a) % 0x1_0000_0000 != (INIT.a + b) % 0x1_0000_0000
  {
  }

  lemma Whole(before: seq<Byte>, m: seq<Byte>, fed: seq<Byte>)
    requires |m| >= 64 && (fed == before + m[..64] + m[64..] || (fed == before + m[..64] && |m| == 64))
    ensures fed == before + m
  {
    assert m == m[..64] + m[64..];
  }

  lemma LowBits(lo: Word, hi: Word, n: nat)
    requires Counts(lo, hi, n)
    ensures lo % 64 == n % 64
  {
  }

  lemma CountsGrow(lo: Word, hi: Word, x: nat, n: Word, lo2: Word, hi2: Word)
    requires Count(lo2, hi2) == (Count(lo, hi) + n) % 0x1_0000_0000_0000_0000
    ensures Counts(lo, hi, x) ==> Counts(lo2, hi2, x + n)
  {
    hide Count;
  }

  lemma TailLength(x: nat, n: nat)
    requires x % 64 == 0
    ensures (x + n) % 64 == n % 64
  {
    assert x + n == 64 * (x / 64 + n / 64) + n % 64;
  }

  lemma BlockFolds(f: Compress, fed: seq<Byte>, c: Chain, m: seq<Byte>)
    requires |m| == 64
    ensures |fed| % 64 == 0 && c == Fold(f, INIT, fed) ==> f(c, m) == Fold(f, INIT, fed + m) && |fed + m| % 64 == 0
  {
    if |fed| % 64 == 0 && c == Fold(f, INIT, fed) {
      FoldConcat(f, INIT, fed, m);
      FoldBlock(f, c, m);
    }
  }

  lemma TwoBlocks(f: Compress, fed: seq<Byte>, c: Chain, m: seq<Byte>)
    requires |fed| % 64 == 0 && c == Fold(f, INIT, fed) && (|m| == 64 || |m| == 128)
    ensures |m| == 64 ==> m[..64] == m && Fold(f, INIT, fed + m) == f(c, m[..64])
    ensures |m| == 128 ==> Fold(f, INIT, fed + m) == f(f(c, m[..64]), m[64..])
  {
    FoldConcat(f, INIT, fed, m);
    FoldBlock(f, c, m[..64]);
    assert m == m[..64] + m[64..];
    FoldConcat(f, c, m[..64], m[64..]);
    if |m| == 128 { FoldBlock(f, f(c, m[..64]), m[64..]); }
  }

  /** `_length[1] << 3 | _length[0] >> 29`: the shifted parts share no bit. */
  function High(lo: Word, hi: Word): Word {
    HighFits(lo, hi);
    8 * hi % 0x1_0000_0000 + lo / 0x2000_0000
  }

  lemma HighFits(lo: Word, hi: Word)
    ensures 8 * hi % 0x1_0000_0000 + lo / 0x2000_0000 < 0x1_0000_0000
  {
    HighWord(hi, 8 * hi / 0x1_0000_0000, 8 * hi % 0x1_0000_0000);
  }

  lemma Tail(tail: seq<Byte>, n: nat, lo: Word, hi: Word, z: nat)
    requires |tail| < 64 && n % 64 == |tail| && Counts(lo, hi, n)
    requires z == (if |tail| >= 56 then 119 else 55) - |tail|
    ensures tail + [0x80] + Zeros(z) + PutWord(8 * lo % 0x1_0000_0000) + PutWord(High(lo, hi)) == tail + Padding(n)
  {
    BitCount(lo, hi, n);
    ZeroCount(n, |tail|, z);
    hide PutWord, Count;
  }

  lemma ZeroCount(n: nat, t: nat, z: nat)
    requires n % 64 == t && z == (if t >= 56 then 119 else 55) - t
    ensures (55 - n) % 64 == z
  {
    var q := n / 64;
    assert 55 - n == -64 * q + (55 - t);
  }

  /** GetSum: whole blocks, then the rest. */
  method GetSum(compress: Compress, message: seq<Byte>) returns (result: seq<Byte>)
    requires |message| < 0x1_0000_0000 - 64
    ensures result == Sum(compress, message)
  {
    hide Fold, Padding, Count, Output, MD5p.Valid;
    var md5 := new MD5p(compress);
    var p: nat := 0;
    while Next(p) <= |message|
      invariant p <= |message| && md5.Valid() && md5.fed == message[..p] && md5.compress == compress && fresh(md5)
      decreases |message| - p
    {
      assert Next(p) == p + 64;
      md5.Update(message[p..p + 64]);
      assert message[..p + 64] == message[..p] + message[p..p + 64];
      p := Next(p);
    }
    assert p + 64 > |message|;
    md5.Final(message[p..]);
    assert Kept(message[p..]) == message[p..];
    assert message[..p] + message[p..] == message;
    result := Output(md5.chain);
  }

  /** p + 64 in an unsigned int. */
  function Next(p: nat): nat {
    (p + 64) % 0x1_0000_0000
  }

  function Position(k: nat): nat {
    if k == 0 then 0 else Next(Position(k - 1))
  }

  /** For longer messages the position wraps and the loop's test never fails. */
  lemma {:induction false} LongMessageNeverEnds(length: nat, k: nat)
    requires length >= 0x1_0000_0000 - 64
    ensures Next(Position(k)) <= length && Position(k) % 64 == 0
  {
    hide Next;
    NextBlock(Position(k));
    if k > 0 {
      LongMessageNeverEnds(length, k - 1);
      NextBlock(Position(k - 1));
    }
  }

  lemma NextBlock(p: nat)
    ensures p % 64 == 0 ==> Next(p) % 64 == 0 && Next(p) <= 0x1_0000_0000 - 64
  {
  }
}
