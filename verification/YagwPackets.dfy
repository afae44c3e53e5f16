/** The gateway's packet format, its appending writer and its resumable reader. */
module YagwPackets {
  import opened LittleEndian

  const HEADER_LEN: nat := 12
  const MAX_BODY: nat := 1024

  datatype Packet = Packet(cmd: Word, seqno: Word, body: seq<Byte>)

  // ---- the format -------------------------------------------------------------------------------

  /** What write_packet appends; the length field is the low 32 bits of the body's length. */
  function Encode(p: Packet): (r: seq<Byte>)
    ensures |r| == HEADER_LEN + |p.body|
  {
    PutWord(|p.body| % 0x1_0000_0000) + PutWord(p.cmd) + PutWord(p.seqno) + p.body
  }

  function EncodeAll(ps: seq<Packet>): seq<Byte> {
    if ps == [] then [] else Encode(ps[0]) + EncodeAll(ps[1..])
  }

  /** The body length a header announces. */
  function Announced(b: seq<Byte>): nat
    requires |b| >= HEADER_LEN
  {
    GetWord(b[..4])
  }

  predicate Complete(b: seq<Byte>) {
    |b| >= HEADER_LEN && Announced(b) < MAX_BODY && |b| == HEADER_LEN + Announced(b)
  }

  /** The packet that a complete run of bytes spells. */
  function Decode(b: seq<Byte>): Packet
    requires Complete(b)
  {
    Packet(GetWord(b[4..8]), GetWord(b[8..12]), b[12..])
  }

  lemma DecodeEncoded(p: Packet)
    requires |p.body| < 1024
    ensures Complete(Encode(p)) && Decode(Encode(p)) == p
  {
    var b := Encode(p);
    assert b[..4] == PutWord(|p.body|) && b[4..8] == PutWord(p.cmd) && b[8..12] == PutWord(p.seqno) &&
      b[12..] == p.body;
    WordRoundTrip(|p.body|);
    WordRoundTrip(p.cmd);
    WordRoundTrip(p.seqno);
  }

  /** And back: every complete run of bytes is what the writer makes of the packet it spells. */
  lemma EncodeDecoded(b: seq<Byte>)
    requires Complete(b)
    ensures Encode(Decode(b)) == b && |Decode(b).body| < MAX_BODY
  {
    hide PutWord, GetWord;
    var p := Decode(b);
    assert PutWord(|p.body| % 0x1_0000_0000) == b[..4] && PutWord(p.cmd) == b[4..8] && PutWord(p.seqno) == b[8..12];
    FourParts(b);
  }

  lemma FourParts(b: seq<Byte>)
    requires |b| >= 12
    ensures b[..4] + b[4..8] + b[8..12] + b[12..] == b
  {
  }

  /** The layout: length, command and number in four bytes each, the low byte first, and the body behind them. */
  lemma Layout(p: Packet)
    requires |p.body| < 0x1_0000_0000
    ensures var b := Encode(p);
      && |b| == 12 + |p.body| && b[12..] == p.body
      && ByPlace(b, 0) == |p.body| && ByPlace(b, 4) == p.cmd && ByPlace(b, 8) == p.seqno
  {
    var b := Encode(p);
    var l, c, q := PutWord(|p.body|), PutWord(p.cmd), PutWord(p.seqno);
    WordBytes(|p.body|);
    WordBytes(p.cmd);
    WordBytes(p.seqno);
    hide PutWord;
    PlacesAt(b, 0, l);
    PlacesAt(b, 4, c);
    PlacesAt(b, 8, q);
  }

  // ---- the writer -------------------------------------------------------------------------------

  /**
   * A Go slice is an array and a length; the capacity is the array's. The packet is appended in
   * place when it fits, and otherwise in a new array that starts with the same bytes.
   */
  method WritePacket(buf: array<Byte>, len: nat, cmd: Word, seqno: Word, body: seq<Byte>)
    returns (out: array<Byte>, outLen: nat)
    requires len <= buf.Length
    modifies buf
    ensures outLen == len + HEADER_LEN + |body| <= out.Length
    ensures out[..outLen] == old(buf[..len]) + Encode(Packet(cmd, seqno, body))
    ensures buf[..len] == old(buf[..len])
    ensures if outLen <= buf.Length then out == buf
      else fresh(out) && buf[..] == old(buf[..]) && out.Length == buf.Length + HEADER_LEN + |body|
    ensures forall i :: outLen <= i < buf.Length ==> buf[i] == old(buf[i])
  {
    hide Encode;
    var addition := HEADER_LEN + |body|;
    outLen := len + addition;
    if outLen > buf.Length {
      out := new Byte[buf.Length + addition];
      forall i | 0 <= i < len { out[i] := buf[i]; }
    } else {
      out := buf;
    }
    assert out[..len] == old(buf[..len]);
    PutPacket(out, len, Packet(cmd, seqno, body));
    assert out[..outLen] == out[..len] + out[len..outLen];
  }

  /** Header and body, written where they go. */
  method PutPacket(a: array<Byte>, at: nat, p: Packet)
    requires at + HEADER_LEN + |p.body| <= a.Length
    modifies a
    ensures a[at..at + HEADER_LEN + |p.body|] == Encode(p)
    ensures forall i :: 0 <= i < a.Length && !(at <= i < at + HEADER_LEN + |p.body|) ==> a[i] == old(a[i])
  {
    hide PutWord;
    PutAt(a, at, |p.body| % 0x1_0000_0000);
    PutAt(a, at + 4, p.cmd);
    assert a[at..at + 8] == PutWord(|p.body| % 0x1_0000_0000) + PutWord(p.cmd);
    PutAt(a, at + 8, p.seqno);
    ghost var head := a[at..at + 12];
    assert head == a[at..at + 8] + a[at + 8..at + 12];
    PutBody(a, at + HEADER_LEN, p.body);
    assert a[at..at + 12] == head;
    Joined(a[..], at, at + 12, at + HEADER_LEN + |p.body|);
  }

  lemma Joined(s: seq<Byte>, i: nat, j: nat, k: nat)
    requires i <= j <= k <= |s|
    ensures s[i..k] == s[i..j] + s[j..k]
  {
  }

  /** copy into the rest of the slice. */
  method PutBody(a: array<Byte>, at: nat, body: seq<Byte>)
    requires at + |body| <= a.Length
    modifies a
    ensures a[at..at + |body|] == body
    ensures forall i :: 0 <= i < a.Length && !(at <= i < at + |body|) ==> a[i] == old(a[i])
  {
    forall i | 0 <= i < |body| { a[at + i] := body[i]; }
  }

  /** binary.LittleEndian.PutUint32 at an offset. */
  method PutAt(a: array<Byte>, at: nat, x: Word)
    requires at + 4 <= a.Length
    modifies a
    ensures a[at..at + 4] == PutWord(x)
    ensures forall i :: 0 <= i < a.Length && !(at <= i < at + 4) ==> a[i] == old(a[i])
  {
    a[at], a[at + 1], a[at + 2], a[at + 3] := x % 256, x / 256 % 256, x / 256 / 256 % 256, x / 256 / 256 / 256;
  }

  // ---- the connection ---------------------------------------------------------------------------

  /** What the next read finds: data, of which it returns at most so many bytes, nothing yet, the end, a failure. */
  datatype Outcome = Data(most: nat) | NotYet | Closed | Broken

  datatype Errno = Success | EAGAIN | Other

  /** The answer of the reader. */
  datatype Status = Done(ready: bool) | Eof | UnexpectedEof | BadLength | Failed

  /** What a read answers: data while there is some, the end only then, and EAGAIN when the script has run out. */
  ghost predicate Says(script: seq<Outcome>, stream: seq<Byte>, n: nat, err: Errno) {
    if script == [] then n == 0 && err == EAGAIN
    else
      match script[0]
      case Data(_) => if stream == [] then n == 0 && err == EAGAIN else n > 0 && err == Success
      case NotYet => n == 0 && err == EAGAIN
      case Closed => n == 0 && err == if stream == [] then Success else EAGAIN
      case Broken => n == 0 && err == Other
  }

  predicate AllData(script: seq<Outcome>) {
    forall i :: 0 <= i < |script| ==> script[i].Data?
  }

  /** Every outcome but the last gave data, of which no more than read bytes came. */
  ghost predicate DataThen(taken: seq<Outcome>, read: nat, last: Outcome) {
    taken != [] && AllData(taken[..|taken| - 1]) && |taken| - 1 <= read && taken[|taken| - 1] == last
  }

  /** Which outcomes a call of the reader used up, by its answer; read is the number of bytes it got. */
  ghost predicate UsedUp(taken: seq<Outcome>, left: seq<Outcome>, stream: seq<Byte>, st: Status, read: nat) {
    match st
    case Done(true) => AllData(taken) && |taken| <= read
    case Done(false) =>
      || (left == [] && AllData(taken) && |taken| <= read)
      || DataThen(taken, read, NotYet)
      || (stream == [] && exists most :: DataThen(taken, read, Data(most)))
      || (stream != [] && DataThen(taken, read, Closed))
    case BadLength => taken != [] && AllData(taken) && |taken| <= read
    case Eof => DataThen(taken, read, Closed)
    case UnexpectedEof => DataThen(taken, read, Closed)
    case Failed => DataThen(taken, read, Broken)
  }

  /** A non-blocking socket: the bytes still to be delivered, and what happens at each read. */
  class Conn {
    var stream: seq<Byte>
    var script: seq<Outcome>

    constructor (stream: seq<Byte>, script: seq<Outcome>)
      ensures this.stream == stream && this.script == script
    {
      this.stream, this.script := stream, script;
    }

    /** read(2) into a[lo..hi]. */
    method Read(a: array<Byte>, lo: nat, hi: nat) returns (n: nat, err: Errno)
      requires lo < hi <= a.Length
      modifies this, a
      ensures n <= hi - lo && n <= |old(stream)| && stream == old(stream)[n..]
      ensures a[lo..lo + n] == old(stream)[..n]
      ensures forall i :: 0 <= i < a.Length && !(lo <= i < lo + n) ==> a[i] == old(a[i])
      ensures Says(old(script), old(stream), n, err)
      ensures script == if old(script) == [] then [] else old(script)[1..]
    {
      n, err := 0, EAGAIN;
      if script != [] {
        match script[0] {
          case Data(most) =>
            if stream != [] {
              n := if most < 1 then 1 else most;
              n := if n > hi - lo then hi - lo else n;
              n := if n > |stream| then |stream| else n;
              err := Success;
            }
          case NotYet =>
          case Closed =>
            if stream == [] { err := Success; }
          case Broken => err := Other;
        }
        forall i | 0 <= i < n { a[lo + i] := stream[i]; }
        stream, script := stream[n..], script[1..];
      }
    }
  }

  // ---- the reader -------------------------------------------------------------------------------

  class PacketReader {
    var n: nat
    var total: nat
    const header: array<Byte>
    const body: array<Byte>

    /** The bytes of the current packet that have been read. */
    ghost function Partial(): seq<Byte>
      requires header.Length == HEADER_LEN && body.Length == MAX_BODY && n <= HEADER_LEN + MAX_BODY
      reads this, header, body
    {
      if n <= HEADER_LEN then header[..n] else header[..] + body[..n - HEADER_LEN]
    }

    /** total is set exactly when the header is in and announces a body that fits. */
    ghost predicate Valid()
      reads this, header, body
    {
      && header != body && header.Length == HEADER_LEN && body.Length == MAX_BODY
      && n <= HEADER_LEN + MAX_BODY
      && if n >= HEADER_LEN && Announced(header[..]) < MAX_BODY
         then total == HEADER_LEN + Announced(header[..]) && n <= total
         else n <= HEADER_LEN && total == 0
    }

    constructor ()
      ensures Valid() && Partial() == [] && fresh(header) && fresh(body)
    {
      n, total := 0, 0;
      header := new Byte[HEADER_LEN](i => 0);
      body := new Byte[MAX_BODY](i => 0);
    }

    method Reset()
      requires Valid()
      modifies this
      ensures Valid() && Partial() == []
    {
      n, total := 0, 0;
    }

    /** The current packet's command and sequence number. */
    method GetHeader() returns (cmd: Word, seqno: Word)
      requires Valid() && Complete(Partial())
      ensures cmd == Decode(Partial()).cmd && seqno == Decode(Partial()).seqno
    {
      assert Partial()[4..8] == header[4..8] && Partial()[8..12] == header[8..12];
      cmd, seqno := GetWord(header[4..8]), GetWord(header[8..12]);
    }

    method GetBody() returns (b: seq<Byte>)
      requires Valid() && Complete(Partial())
      ensures b == Decode(Partial()).body
    {
      assert Partial()[..4] == header[..4] == header[..][..4];
      b := body[..total - HEADER_LEN];
    }

    /** One read into the header: bytes move from the stream to the packet. */
    method ReadHeader(fd: Conn) returns (k: nat, err: Errno)
      requires Valid() && n < HEADER_LEN
      modifies this, header, fd
      ensures n == old(n) + k <= HEADER_LEN && total == 0 && (k > 0 ==> err == Success)
      ensures header[..n] + fd.stream == old(Partial() + fd.stream)
      ensures header[..old(n)] == old(Partial())
      ensures Says(old(fd.script), old(fd.stream), k, err) && (k == 0 ==> fd.stream == old(fd.stream))
      ensures fd.script == if old(fd.script) == [] then [] else old(fd.script)[1..]
    {
      hide GetWord, PutWord, Announced, Says;
      ghost var s, bytes := fd.stream, header[..n];
      k, err := fd.Read(header, n, HEADER_LEN);
      n := n + k;
      Moved([], bytes, header[..], s, k);
    }

    /** The header is in: the end of the packet, unless the announced body does not fit. */
    method SetTotal() returns (fits: bool)
      requires header != body && header.Length == HEADER_LEN == n && body.Length == MAX_BODY && total == 0
      modifies this`total
      ensures Valid() && Partial() == header[..n] && (!fits ==> Announced(Partial()) >= MAX_BODY)
      ensures fits ==> Announced(Partial()) < MAX_BODY && total == HEADER_LEN + Announced(Partial())
    {
      assert header[..] == header[..n] && header[..][..4] == header[..4];
      var bodylen := GetWord(header[..4]);
      fits := bodylen < MAX_BODY;
      if fits { total := HEADER_LEN + bodylen; }
    }

    /** One read into the body, never past its announced end. */
    method ReadBody(fd: Conn) returns (k: nat, err: Errno)
      requires Valid() && HEADER_LEN <= n < total
      modifies this, body, fd
      ensures Valid() && total == old(total) && n == old(n) + k && (k > 0 ==> err == Success)
      ensures Partial() + fd.stream == old(Partial() + fd.stream)
      ensures Says(old(fd.script), old(fd.stream), k, err) && (k == 0 ==> fd.stream == old(fd.stream))
      ensures fd.script == if old(fd.script) == [] then [] else old(fd.script)[1..]
    {
      hide GetWord, PutWord, Announced, Says;
      ghost var s := fd.stream;
      ghost var m, was, bytes := n, Partial(), body[..n - HEADER_LEN];
      assert was == header[..] + bytes;
      k, err := fd.Read(body, n - HEADER_LEN, total - HEADER_LEN);
      n := n + k;
      Moved(header[..], bytes, body[..], s, k);
    }

    /** k bytes of s now stand behind the ones that were there. */
    static lemma Moved(h: seq<Byte>, bytes: seq<Byte>, b: seq<Byte>, s: seq<Byte>, k: nat)
      requires |bytes| + k <= |b| && k <= |s| && b[..|bytes|] == bytes && b[|bytes|..|bytes| + k] == s[..k]
      ensures h + b[..|bytes| + k] + s[k..] == h + bytes + s && b[..|bytes| + k] + s[k..] == bytes + s
    {
      assert b[..|bytes| + k] == bytes + s[..k];
      assert s == s[..k] + s[k..];
    }

    /** The header is in and announced too much; only Reset helps. */
    ghost predicate Stuck()
      reads this
    {
      n == HEADER_LEN && total == 0
    }

    /** Reads on until the header is in and checked; stop tells that the call ends with st. */
    method FillHeader(fd: Conn) returns (stop: bool, st: Status, ghost used: nat)
      requires Valid() && n < HEADER_LEN
      modifies this, header, body, fd
      ensures Valid() && n >= old(n)
      ensures Partial() + fd.stream == old(Partial() + fd.stream)
      ensures used <= |old(fd.script)| && fd.script == old(fd.script)[used..]
      ensures !stop ==> n == HEADER_LEN && total >= HEADER_LEN && SoFar(old(fd.script), used, fd.script, n - old(n))
      ensures stop ==> UsedUp(old(fd.script)[..used], fd.script, fd.stream, st, n - old(n))
      ensures stop ==> (n < HEADER_LEN && st != Done(true)) || st == BadLength
      ensures stop && st == BadLength ==> n == HEADER_LEN && Announced(Partial()) >= 1024
      ensures stop && st == Eof ==> Partial() == [] && fd.stream == []
      ensures stop && st == UnexpectedEof ==> Partial() != [] && fd.stream == []
    {
      hide GetWord, PutWord, Announced, Says, UsedUp;
      used, stop, st := 0, true, Done(false);
      while n < HEADER_LEN
        invariant Valid() && old(n) <= n <= HEADER_LEN && (n < HEADER_LEN || total >= HEADER_LEN)
        invariant Partial() + fd.stream == old(Partial() + fd.stream)
        invariant SoFar(old(fd.script), used, fd.script, n - old(n))
        decreases HEADER_LEN - n
      {
        ghost var was := fd.stream;
        var k, err := ReadHeader(fd);
        used := OneRead(old(fd.script), used, was, k, err, n - old(n));
        if err != Success {
          st := if err == EAGAIN then Done(false) else Failed;
          return;
        }
        if k == 0 {
          st := if n == 0 then Eof else UnexpectedEof;
          return;
        }
        if n == HEADER_LEN {
          var fits := SetTotal();
          if !fits {
            st := BadLength;
            return;
          }
          break;
        }
      }
      stop := false;
    }

    /** Reads on until the body is in. */
    method FillBody(fd: Conn, ghost script: seq<Outcome>, ghost first: nat, ghost m: nat)
      returns (st: Status, ghost used: nat)
      requires Valid() && HEADER_LEN <= n && total >= HEADER_LEN && m <= n && SoFar(script, first, fd.script, n - m)
      modifies this, body, fd
      ensures Valid() && n >= old(n)
      ensures Partial() + fd.stream == old(Partial() + fd.stream)
      ensures st.Done? ==> (st.ready <==> Complete(Partial()))
      ensures st.Done? || ((st == Failed || st == UnexpectedEof) && !Complete(Partial()))
      ensures st == UnexpectedEof ==> fd.stream == []
      ensures used <= |script| && fd.script == script[used..]
      ensures UsedUp(script[..used], fd.script, fd.stream, st, n - m)
    {
      hide GetWord, PutWord, Announced, Says, UsedUp;
      used := first;
      while n < total
        invariant Valid() && n >= old(n) && n >= HEADER_LEN && total >= HEADER_LEN
        invariant Partial() + fd.stream == old(Partial() + fd.stream)
        invariant SoFar(script, used, fd.script, n - m)
        decreases total - n
      {
        ghost var was := fd.stream;
        var k, err := ReadBody(fd);
        used := OneRead(script, used, was, k, err, n - m);
        if err != Success {
          if err == EAGAIN { break; }
          CompleteIff();
          return Failed, used;
        }
        if k == 0 {
          CompleteIff();
          return UnexpectedEof, used;
        }
      }
      CompleteIff();
      st := Done(n == total);
      if n == total {
        AllUsed(script, used, fd.script, fd.stream, n - m);
      }
    }

    /**
     * Bytes only move from the stream to the current packet; the answer says whether it is complete.
     * Valid bounds what is held by the packet's own end, so nothing past it is ever read. The call reads on until
     * the packet is complete or a read gives no data.
     */
    method ReadFrom(fd: Conn) returns (st: Status, ghost used: nat)
      requires Valid()
      modifies this, header, body, fd
      ensures Valid() && n >= old(n)
      ensures Partial() + fd.stream == old(Partial() + fd.stream)
      ensures st.Done? ==> (st.ready <==> Complete(Partial()))
      ensures st == BadLength ==> old(n) < HEADER_LEN == n && Announced(Partial()) >= 1024
      ensures st == Eof ==> Partial() == [] && fd.stream == []
      ensures st == UnexpectedEof ==> Partial() != [] && !Complete(Partial()) && fd.stream == []
      ensures st == Failed ==> !Complete(Partial())
      ensures used <= |old(fd.script)| && fd.script == old(fd.script)[used..]
      ensures if old(Stuck()) then st == Done(false) && used == 0 && n == old(n)
        else UsedUp(old(fd.script)[..used], fd.script, fd.stream, st, n - old(n))
    {
      hide GetWord, PutWord, Announced, UsedUp;
      ghost var script, m := fd.script, n;
      used := 0;
      if n < HEADER_LEN {
        var stop: bool;
        stop, st, used := FillHeader(fd);
        if stop { return; }
      } else if total == 0 {
        CompleteIff();
        return Done(false), 0;
      }
      st, used := FillBody(fd, script, used, m);
    }

    /** Before each read of a call: only data so far. */
    static ghost predicate SoFar(script: seq<Outcome>, used: nat, left: seq<Outcome>, read: int) {
      used <= |script| && left == script[used..] && AllData(script[..used]) && used <= read
    }

    /** After one more read. */
    static lemma OneRead(script: seq<Outcome>, used: nat, was: seq<Byte>, k: nat, err: Errno, read: nat)
      returns (now: nat)
      requires used <= |script| && SoFar(script, used, script[used..], read - k)
      requires Says(script[used..], was, k, err)
      ensures now == (if used == |script| then used else used + 1)
      ensures k > 0 ==> err == Success && SoFar(script, now, script[now..], read)
      ensures k > 0 ==> forall stream :: UsedUp(script[..now], script[now..], stream, BadLength, read)
      ensures err == EAGAIN ==> UsedUp(script[..now], script[now..], was, Done(false), read)
      ensures err == Other ==> UsedUp(script[..now], script[now..], was, Failed, read)
      ensures err == Success && k == 0 ==> was == [] && UsedUp(script[..now], script[now..], was, Eof, read)
      ensures err == Success && k == 0 ==> UsedUp(script[..now], script[now..], was, UnexpectedEof, read)
    {
      now := if used == |script| then used else used + 1;
      var taken := script[..now];
      if used < |script| {
        assert taken[..|taken| - 1] == script[..used] && taken[used] == script[used];
        assert AllData(script[..used]) && script[used].Data? ==> AllData(taken);
        if err == EAGAIN && script[used].Data? {
          assert DataThen(taken, read, Data(script[used].most));
        }
      } else {
        assert taken == script[..used];
      }
    }

    static lemma AllUsed(script: seq<Outcome>, used: nat, left: seq<Outcome>, stream: seq<Byte>, read: nat)
      requires SoFar(script, used, left, read)
      ensures UsedUp(script[..used], left, stream, Done(true), read)
    {
    }

    lemma CompleteIff()
      requires Valid() && n >= HEADER_LEN
      ensures Complete(Partial()) <==> n == total
    {
      if n >= HEADER_LEN {
        assert Partial()[..4] == header[..][..4];
      }
    }
  }
}
