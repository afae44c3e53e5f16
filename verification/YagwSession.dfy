/** A whole conversation: packets written one after another, read back over any split of the bytes. */
module YagwSession {
  import opened LittleEndian
  import opened YagwPackets

  predicate Sendable(ps: seq<Packet>) {
    forall i :: 0 <= i < |ps| ==> |ps[i].body| < 1024
  }

  lemma {:induction false} EncodeAllAppend(ps: seq<Packet>, p: Packet)
    ensures EncodeAll(ps + [p]) == EncodeAll(ps) + Encode(p)
  {
    if ps == [] {
      assert [p][1..] == [] && ps + [p] == [p];
    } else {
      assert (ps + [p])[1..] == ps[1..] + [p];
      EncodeAllAppend(ps[1..], p);
    }
  }

  /** A buffer that starts with capacity cap and takes every packet in turn. */
  method WriteAll(cap: nat, ps: seq<Packet>) returns (buf: array<Byte>, len: nat)
    ensures len <= buf.Length && buf[..len] == EncodeAll(ps)
  {
    buf := new Byte[cap];
    len := 0;
    for i := 0 to |ps|
      invariant fresh(buf) && len <= buf.Length && buf[..len] == EncodeAll(ps[..i])
    {
      buf, len := WritePacket(buf, len, ps[i].cmd, ps[i].seqno, ps[i].body);
      assert ps[..i + 1] == ps[..i] + [ps[i]];
      EncodeAllAppend(ps[..i], ps[i]);
    }
    assert ps[..|ps|] == ps;
  }

  /** Bytes held that reach no further than the packet's own end, as the reader keeps them. */
  predicate WithinPacket(b: seq<Byte>) {
    |b| > HEADER_LEN ==> Announced(b) < MAX_BODY && |b| <= HEADER_LEN + Announced(b)
  }

  /** Held bytes followed by the stream spell the packets; then what is held belongs to the first one. */
  lemma HeldIsFirst(held: seq<Byte>, rest: seq<Byte>, ps: seq<Packet>)
    requires Sendable(ps) && WithinPacket(held) && held + rest == EncodeAll(ps) && held != []
    ensures ps != [] && |held| <= |Encode(ps[0])|
    ensures held == Encode(ps[0])[..|held|]
    ensures |held| >= HEADER_LEN ==> Announced(held) == |ps[0].body|
    ensures Complete(held) <==> held == Encode(ps[0])
    ensures rest == [] ==> Complete(held)
  {
    assert ps != [];
    var b := Encode(ps[0]);
    DecodeEncoded(ps[0]);
    var all := EncodeAll(ps);
    assert all == b + EncodeAll(ps[1..]);
    if |held| >= HEADER_LEN {
      assert held[..4] == all[..4] == b[..4];
      assert Announced(held) == Announced(b) == |ps[0].body|;
    }
    assert held == all[..|held|] == b[..|held|];
  }

  /** The same, from the reader's own state. */
  lemma ReaderWithin(r: PacketReader)
    requires r.Valid()
    ensures WithinPacket(r.Partial())
  {
    if r.n > HEADER_LEN {
      assert r.Partial()[..4] == r.header[..][..4];
    }
  }

  // ---- what a script offers -----------------------------------------------------------------------

  function Datas(script: seq<Outcome>): nat {
    if script == [] then 0 else (if script[0].Data? then 1 else 0) + Datas(script[1..])
  }

  function Pauses(script: seq<Outcome>): nat {
    if script == [] then 0 else (if script[0].NotYet? then 1 else 0) + Pauses(script[1..])
  }

  /** Only data and pauses. */
  predicate Steady(script: seq<Outcome>) {
    forall i :: 0 <= i < |script| ==> script[i].Data? || script[i].NotYet?
  }

  lemma {:induction false} OffersCat(a: seq<Outcome>, b: seq<Outcome>)
    ensures Datas(a + b) == Datas(a) + Datas(b) && Pauses(a + b) == Pauses(a) + Pauses(b)
    decreases |a|
  {
    if a == [] {
      assert a + b == b;
    } else {
      OffersCat(a[1..], b);
      assert (a + b)[1..] == a[1..] + b;
    }
  }

  lemma {:induction false} OffersData(a: seq<Outcome>)
    requires AllData(a)
    ensures Datas(a) == |a| && Pauses(a) == 0
    decreases |a|
  {
    if a != [] {
      OffersData(a[1..]);
    }
  }

  /** Data for every byte left, and a call for every packet left and every pause. */
  ghost predicate Plenty(script: seq<Outcome>, stream: seq<Byte>, packets: nat, calls: nat) {
    Steady(script) && Datas(script) >= |stream| && packets + Pauses(script) <= calls
  }

  /** What is left of a script behind a part that gave only data, and behind one that ended in a pause. */
  lemma DataSpent(script: seq<Outcome>, used: nat)
    requires used <= |script| && AllData(script[..used])
    ensures Datas(script) == used + Datas(script[used..]) && Pauses(script) == Pauses(script[used..])
  {
    assert script == script[..used] + script[used..];
    OffersCat(script[..used], script[used..]);
    OffersData(script[..used]);
  }

  lemma PauseSpent(script: seq<Outcome>, used: nat, read: nat)
    requires used <= |script| && DataThen(script[..used], read, NotYet)
    ensures used - 1 <= read
    ensures Datas(script) == used - 1 + Datas(script[used..]) && Pauses(script) == 1 + Pauses(script[used..])
  {
    var k := used - 1;
    assert script[..used][..k] == script[..k] && script[..used][k] == script[k];
    DataSpent(script, k);
    assert script[k..][0] == script[k] && script[k..][1..] == script[used..];
  }

  /** With only data and pauses there is no other end. */
  lemma NoOtherEnd(script: seq<Outcome>, used: nat, read: nat, last: Outcome)
    requires Steady(script) && used <= |script| && DataThen(script[..used], read, last)
    ensures last.Data? || last.NotYet?
  {
    assert script[..used][used - 1] == script[used - 1];
  }

  /** A call that uses up part of the script returns a packet or spends a pause. */
  lemma PlentyLeft(script: seq<Outcome>, used: nat, was: seq<Byte>, stream: seq<Byte>, st: Status, read: nat,
      packets: nat, calls: nat)
    requires Plenty(script, was, packets, calls) && used <= |script| && |was| == |stream| + read && packets > 0
    requires calls > 0 && UsedUp(script[..used], script[used..], stream, st, read)
    requires st.Done? && !st.ready ==> stream != []
    ensures st.Done? || st == BadLength
    ensures st.Done? ==> Plenty(script[used..], stream, if st.ready then packets - 1 else packets, calls - 1)
  {
    var taken := script[..used];
    hide Datas, Pauses;
    assert Steady(script[used..]);
    if st.Done? && st.ready {
      DataSpent(script, used);
    } else if st.Done? && DataThen(taken, read, NotYet) {
      PauseSpent(script, used, read);
    } else if st.Done? && script[used..] == [] && AllData(taken) && |taken| <= read {
      DataSpent(script, used);
      NoDatas();
    } else if st.Done? || st == Eof || st == UnexpectedEof {
      NoOtherEnd(script, used, read, Closed);
    } else if st == Failed {
      NoOtherEnd(script, used, read, Broken);
    }
  }

  lemma NoDatas()
    ensures Datas([]) == 0
  {
  }

  /** Some packet is left, so some of its bytes are still to come. */
  lemma MoreToCome(r: PacketReader, stream: seq<Byte>, rest: seq<Packet>)
    requires r.Valid() && Sendable(rest) && r.Partial() + stream == EncodeAll(rest) && !Complete(r.Partial())
    ensures rest != [] ==> stream != []
  {
    ReaderWithin(r);
    if r.Partial() != [] { HeldIsFirst(r.Partial(), stream, rest); }
  }

  /**
   * However the bytes are split and however often the reader is called in vain, it returns exactly
   * the packets written, in order, and holds nothing of the packet after the current one. When the
   * bytes are used up, every packet has been returned; an end of file comes only then. If the reads give data for
   * every byte, with pauses in between, a call for each packet and each pause returns them all.
   */
  method ReadAll(r: PacketReader, fd: Conn, calls: nat, ghost sent: seq<Packet>)
    returns (got: seq<Packet>, last: Status)
    requires r.Valid() && r.Partial() == [] && fd.stream == EncodeAll(sent) && Sendable(sent)
    modifies r, r.header, r.body, fd
    ensures r.Valid() && |got| <= |sent| && got == sent[..|got|]
    ensures r.Partial() + fd.stream == EncodeAll(sent[|got|..])
    ensures |got| < |sent| ==> |r.Partial()| < |Encode(sent[|got|])|
    ensures fd.stream == [] ==> got == sent
    ensures last.Done? || last == Failed || (last == Eof && got == sent)
    ensures Plenty(old(fd.script), EncodeAll(sent), |sent|, calls) ==> got == sent
  {
    ghost var enough := Plenty(fd.script, fd.stream, |sent|, calls);
    NothingHeld();
    hide GetWord, PutWord, Encode, EncodeAll, Decode, Announced, WithinPacket, Plenty, UsedUp, Complete, Sendable;
    got, last := [], Done(false);
    for i := 0 to calls
      invariant r.Valid() && |got| <= |sent| && got == sent[..|got|]
      invariant r.Partial() + fd.stream == EncodeAll(sent[|got|..])
      invariant last.Done? && !Complete(r.Partial())
      invariant enough && |got| < |sent| ==> Plenty(fd.script, fd.stream, |sent| - |got|, calls - i)
    {
      ghost var rest := sent[|got|..];
      Remaining(sent, got);
      var p: seq<Packet>;
      last, p := OneCall(r, fd, rest, calls - i, enough && rest != []);
      if !last.Done? { break; }
      Onward(sent, got, p);
      got := got + p;
    }
    Remaining(sent, got);
    Ending(r, fd, sent[|got|..]);
    NoneLeft(fd.script, fd.stream, |sent| - |got|);
  }

  lemma Remaining(sent: seq<Packet>, got: seq<Packet>)
    requires Sendable(sent) && |got| <= |sent|
    ensures Sendable(sent[|got|..])
  {
  }

  lemma Onward(sent: seq<Packet>, got: seq<Packet>, p: seq<Packet>)
    requires |got| + |p| <= |sent| && got == sent[..|got|] && p == sent[|got|..][..|p|]
    ensures got + p == sent[..|got + p|] && sent[|got + p|..] == sent[|got|..][|p|..]
  {
  }

  /** One call of the reader; p is the packet it completes, or none. */
  method OneCall(r: PacketReader, fd: Conn, ghost rest: seq<Packet>, ghost calls: nat, ghost enough: bool)
    returns (st: Status, p: seq<Packet>)
    requires r.Valid() && r.Partial() + fd.stream == EncodeAll(rest) && Sendable(rest) && !Complete(r.Partial())
    requires enough ==> rest != [] && calls > 0 && Plenty(fd.script, fd.stream, |rest|, calls)
    modifies r, r.header, r.body, fd
    ensures r.Valid() && |p| <= |rest| && |p| <= 1 && p == rest[..|p|]
    ensures r.Partial() + fd.stream == EncodeAll(rest[|p|..])
    ensures !Complete(r.Partial()) && (st.Done? || st == Failed || (st == Eof && rest == []))
    ensures !st.Done? ==> p == []
    ensures enough ==> st.Done? && Plenty(fd.script, fd.stream, |rest| - |p|, calls - 1)
  {
    hide GetWord, PutWord, Encode, EncodeAll, Decode, Announced, WithinPacket, Plenty, UsedUp;
    ghost var before, was, script := r.Partial(), fd.stream, fd.script;
    NotStuck(r, fd.stream, rest);
    ghost var used;
    st, used := r.ReadFrom(fd);
    StatusOk(r, fd, rest, st);
    if enough {
      MoreLeft(r, fd.stream, rest, st);
      Taken(before, was, r.Partial(), fd.stream);
      PlentyLeft(script, used, was, fd.stream, st, |r.Partial()| - |before|, |rest|, calls);
    }
    p := [];
    if st.Done? && st.ready {
      ghost var held := r.Partial();
      var packet := TakePacket(r);
      TakeFirst(held, fd.stream, rest, packet);
      p := [packet];
      NothingHeld();
    }
    assert rest[0..] == rest;
  }

  lemma NothingHeld()
    ensures !Complete([])
  {
  }

  lemma NotStuck(r: PacketReader, stream: seq<Byte>, rest: seq<Packet>)
    requires r.Valid() && Sendable(rest) && r.Partial() + stream == EncodeAll(rest)
    ensures !r.Stuck()
  {
    if r.n == HEADER_LEN {
      ReaderWithin(r);
      HeldIsFirst(r.Partial(), stream, rest);
      assert r.Partial()[..4] == r.header[..][..4];
    }
  }

  lemma MoreLeft(r: PacketReader, stream: seq<Byte>, rest: seq<Packet>, st: Status)
    requires r.Valid() && Sendable(rest) && r.Partial() + stream == EncodeAll(rest) && rest != []
    requires st.Done? ==> (st.ready <==> Complete(r.Partial()))
    ensures st.Done? && !st.ready ==> stream != []
  {
    if st.Done? && !st.ready { MoreToCome(r, stream, rest); }
  }

  lemma Taken(before: seq<Byte>, was: seq<Byte>, held: seq<Byte>, stream: seq<Byte>)
    requires held + stream == before + was && |held| >= |before|
    ensures |was| == |stream| + (|held| - |before|)
  {
    assert |held + stream| == |before + was|;
  }

  lemma NoneLeft(script: seq<Outcome>, stream: seq<Byte>, packets: nat)
    ensures Plenty(script, stream, packets, 0) ==> packets == 0
  {
  }

  /** The packet that is complete; the reader starts on the next one. */
  method TakePacket(r: PacketReader) returns (p: Packet)
    requires r.Valid() && Complete(r.Partial())
    modifies r
    ensures p == Decode(old(r.Partial())) && r.Valid() && r.Partial() == []
  {
    hide GetWord, Announced;
    var cmd, seqno := r.GetHeader();
    var body := r.GetBody();
    p := Packet(cmd, seqno, body);
    r.Reset();
  }

  /** Between calls: no complete packet is held, so an empty stream means that none is left. */
  lemma Ending(r: PacketReader, fd: Conn, rest: seq<Packet>)
    requires r.Valid() && Sendable(rest) && r.Partial() + fd.stream == EncodeAll(rest) && !Complete(r.Partial())
    ensures rest != [] ==> |r.Partial()| < |Encode(rest[0])|
    ensures fd.stream == [] ==> rest == []
  {
    ReaderWithin(r);
    if r.Partial() != [] { HeldIsFirst(r.Partial(), fd.stream, rest); }
  }

  lemma StatusOk(r: PacketReader, fd: Conn, rest: seq<Packet>, st: Status)
    requires r.Valid() && Sendable(rest) && r.Partial() + fd.stream == EncodeAll(rest)
    requires st == BadLength ==> r.n == HEADER_LEN && Announced(r.Partial()) >= 1024
    requires st == Eof ==> r.Partial() == [] && fd.stream == []
    requires st == UnexpectedEof ==> r.Partial() != [] && !Complete(r.Partial()) && fd.stream == []
    ensures st != BadLength && st != UnexpectedEof && (st == Eof ==> rest == [])
  {
    ReaderWithin(r);
    if r.Partial() != [] { HeldIsFirst(r.Partial(), fd.stream, rest); }
  }

  lemma TakeFirst(held: seq<Byte>, stream: seq<Byte>, rest: seq<Packet>, p: Packet)
    requires Sendable(rest) && Complete(held) && held + stream == EncodeAll(rest) && p == Decode(held)
    ensures rest != [] && rest[0] == p && stream == EncodeAll(rest[1..])
  {
    HeldIsFirst(held, stream, rest);
    DecodeEncoded(rest[0]);
    assert stream == (held + stream)[|held|..];
  }
}
