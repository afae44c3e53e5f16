/** The decoder's open-addressing object, as a sequence of slots: what it holds and how it is searched. */
module DotjsonTable {
  import opened Collections
  import opened DotjsonBits

  /** A char of the C program: one byte. */
  type Byte = c: char | c as int < 256
  type Bytes = seq<Byte>

  /** What the C library sees of a string: the part before the first NUL. */
  function CStr(s: Bytes): Bytes {
    if s == [] || s[0] == '\0' then [] else [s[0]] + CStr(s[1..])
  }

  /** char is signed; the sum is an unsigned int. */
  function Mix(h: nat, c: Byte): (r: nat)
    ensures r < 0x1_0000_0000
  {
    (h * 1313 + (if c as int < 128 then c as int else c as int - 256)) % 0x1_0000_0000
  }

  function HashFrom(h: nat, s: Bytes): nat
    decreases s
  {
    if s == [] || s[0] == '\0' then h else HashFrom(Mix(h, s[0]), s[1..])
  }

  function Hash(s: Bytes): nat { HashFrom(1313, s) }

  /** Keys that compare equal hash alike: the hash, too, stops at the first NUL. */
  lemma {:induction false} HashOfCStr(h: nat, s: Bytes)
    ensures HashFrom(h, CStr(s)) == HashFrom(h, s)
    decreases s
  {
    if s != [] && s[0] != '\0' {
      assert CStr(s)[1..] == CStr(s[1..]);
      HashOfCStr(Mix(h, s[0]), s[1..]);
    }
  }

  // ---- the hash as a number -----------------------------------------------------------------------

  function Power(n: nat): nat {
    if n == 0 then 1 else 1313 * Power(n - 1)
  }

  /** The bytes as digits to base 1313, the first one highest; bytes from 128 on count as negative. */
  function Numeral(s: Bytes): int {
    if s == [] then 0 else ((s[0] as int + 128) % 256 - 128) * Power(|s| - 1) + Numeral(s[1..])
  }

  lemma SameRest(a: int, b: int, q: int)
    requires a == b + 0x1_0000_0000 * q
    ensures a % 0x1_0000_0000 == b % 0x1_0000_0000
  {
  }

  /** One byte more: reducing early changes nothing modulo 2^32. */
  lemma MixRest(h: nat, c: Byte, p: nat, rest: int)
    ensures (Mix(h, c) * p + rest) % 0x1_0000_0000 ==
      (h * (1313 * p) + (((c as int + 128) % 256 - 128) * p + rest)) % 0x1_0000_0000
  {
    var v := (c as int + 128) % 256 - 128;
    assert v == if c as int < 128 then c as int else c as int - 256;
    var x: int := h * 1313 + v;
    var q := x / 0x1_0000_0000;
    var r: int := Mix(h, c);
    assert x == r + 0x1_0000_0000 * q;
    hide Mix;
    assert x * p == r * p + 0x1_0000_0000 * (q * p);
    assert x * p == h * (1313 * p) + v * p;
    SameRest(h * (1313 * p) + (v * p + rest), r * p + rest, q * p);
  }

  lemma {:induction false} HashFromIs(h: nat, s: Bytes)
    requires h < 0x1_0000_0000 && '\0' !in s
    ensures HashFrom(h, s) == (h * Power(|s|) + Numeral(s)) % 0x1_0000_0000
    decreases s
  {
    if s != [] {
      var p, rest := Power(|s| - 1), Numeral(s[1..]);
      assert Power(|s|) == 1313 * p && Numeral(s) == ((s[0] as int + 128) % 256 - 128) * p + rest;
      assert HashFrom(h, s) == HashFrom(Mix(h, s[0]), s[1..]);
      HashFromIs(Mix(h, s[0]), s[1..]);
      hide HashFrom, Power, Numeral, Mix;
      MixRest(h, s[0], p, rest);
    }
  }

  lemma {:induction false} CStrNoNul(s: Bytes)
    ensures '\0' !in CStr(s)
    decreases s
  {
    if s != [] && s[0] != '\0' {
      CStrNoNul(s[1..]);
    }
  }

  /** The hash is one number modulo 2^32: a leading 1313, then the bytes up to the first NUL. */
  lemma HashExactly(s: Bytes)
    ensures Hash(s) == (Power(|CStr(s)| + 1) + Numeral(CStr(s))) % 0x1_0000_0000
  {
    CStrNoNul(s);
    HashOfCStr(1313, s);
    HashFromIs(1313, CStr(s));
  }

  datatype Entry<+V> = Entry(keyhash: nat, key: Bytes, val: V)

  type Table<+V> = seq<Option<Entry<V>>>

  function Slot(h: nat, i: nat, cap: nat): (r: nat)
    requires cap > 0
    ensures r < cap
  {
    (h + i) % cap
  }

  /** Every slot is some probe of every hash. */
  lemma ProbesReachAll(h: nat, cap: nat, j: nat) returns (i: nat)
    requires j < cap
    ensures i < cap && Slot(h, i, cap) == j
  {
    var q, r := h / cap, h % cap;
    assert h == cap * q + r;
    if j >= r {
      i := j - r;
      ModUnique(h + i, cap, q, j);
    } else {
      i := j + cap - r;
      assert cap * (q + 1) == cap * q + cap;
      ModUnique(h + i, cap, q + 1, j);
    }
  }

  // ---- contents ---------------------------------------------------------------------------------

  ghost function InSlot<V>(s: Option<Entry<V>>): multiset<Entry<V>> {
    match s case None => multiset{} case Some(e) => multiset{e}
  }

  ghost function Contents<V>(t: Table<V>): multiset<Entry<V>> {
    if t == [] then multiset{}
    else Contents(t[..|t| - 1]) + InSlot(t[|t| - 1])
  }

  function Occupied<V>(t: Table<V>): (r: nat)
    ensures r <= |t|
  {
    if t == [] then 0 else Occupied(t[..|t| - 1]) + if t[|t| - 1].Some? then 1 else 0
  }

  lemma {:induction false} OccupiedIsSize<V>(t: Table<V>)
    ensures |Contents(t)| == Occupied(t)
  {
    if t != [] { OccupiedIsSize(t[..|t| - 1]); }
  }

  lemma {:induction false} InContents<V>(t: Table<V>, e: Entry<V>)
    ensures e in Contents(t) <==> exists j :: 0 <= j < |t| && t[j] == Some(e)
  {
    if t != [] {
      var u := t[..|t| - 1];
      InContents(u, e);
      assert forall j :: 0 <= j < |u| ==> t[j] == u[j];
    }
  }

  lemma {:induction false} ContentsUpdate<V>(t: Table<V>, j: nat, e: Entry<V>)
    requires j < |t| && t[j] == None
    ensures Contents(t[j := Some(e)]) == Contents(t) + multiset{e}
    ensures Occupied(t[j := Some(e)]) == Occupied(t) + 1
    decreases |t|
  {
    hide *;
    var n := |t| - 1;
    var u := t[j := Some(e)];
    LastSlot(t);
    LastSlot(u);
    if j < n {
      ContentsUpdate(t[..n], j, e);
      assert u[..n] == t[..n][j := Some(e)];
      AddEither(Contents(t[..n]), InSlot(t[n]), e);
    } else {
      assert u[..n] == t[..n];
      EmptySlot(t[n], e);
    }
  }

  lemma EmptySlot<V>(s: Option<Entry<V>>, e: Entry<V>)
    requires s == None
    ensures InSlot(s) == multiset{} && InSlot(Some(e)) == multiset{e}
  {
  }

  lemma LastSlot<V>(t: Table<V>)
    requires |t| > 0
    ensures var n := |t| - 1;
      && Contents(t) == Contents(t[..n]) + InSlot(t[n])
      && Occupied(t) == Occupied(t[..n]) + if t[n].Some? then 1 else 0
  {
  }

  lemma AddEither<T>(a: multiset<T>, b: multiset<T>, e: T)
    ensures a + multiset{e} + b == a + b + multiset{e}
  {
  }

  lemma {:induction false} FreeSlot<V>(t: Table<V>) returns (j: nat)
    requires Occupied(t) < |t|
    ensures j < |t| && t[j] == None
  {
    if t[|t| - 1] == None { j := |t| - 1; } else { j := FreeSlot(t[..|t| - 1]); }
  }

  // ---- probing ----------------------------------------------------------------------------------

  /** The first d probes from h meet no free slot. */
  ghost predicate Crowded<V>(t: Table<V>, h: nat, d: nat)
    requires |t| > 0
  {
    forall i :: 0 <= i < d ==> t[Slot(h, i, |t|)].Some?
  }

  /** An entry stands where a search for its key arrives before any free slot. */
  ghost predicate Reached<V>(t: Table<V>, h: nat, j: nat)
    requires |t| > 0
  {
    exists d: nat :: d < |t| && Slot(h, d, |t|) == j && Crowded(t, h, d)
  }

  ghost predicate Chained<V>(t: Table<V>) {
    forall j :: 0 <= j < |t| && t[j].Some? ==>
      t[j].value.keyhash == Hash(t[j].value.key) && Reached(t, t[j].value.keyhash, j)
  }

  /** The first free slot from probe i on, or the capacity. */
  function FirstFree<V>(t: Table<V>, h: nat, i: nat): nat
    requires |t| > 0 && i <= |t|
    decreases |t| - i
  {
    if i == |t| then |t|
    else if t[Slot(h, i, |t|)].None? then Slot(h, i, |t|)
    else FirstFree(t, h, i + 1)
  }

  /** While there is room the search succeeds, at a free slot with a crowded chain before it. */
  lemma {:induction false} FirstFreeFinds<V>(t: Table<V>, h: nat, i: nat)
    requires |t| > 0 && i <= |t| && Crowded(t, h, i) && Occupied(t) < |t|
    ensures var j := FirstFree(t, h, i); j < |t| && t[j] == None && Reached(t, h, j)
    decreases |t| - i
  {
    var j := FreeSlot(t);
    var d := ProbesReachAll(h, |t|, j);
    assert d >= i;
    if i < |t| && t[Slot(h, i, |t|)].Some? {
      FirstFreeFinds(t, h, i + 1);
    }
  }

  lemma SlotIs(h: nat, i: nat, cap: nat)
    requires cap > 0
    ensures Slot(h, i, cap) == (h % cap + i) % cap
  {
    var q, r := h / cap, h % cap;
    var p, j := (r + i) / cap, (r + i) % cap;
    assert cap * (q + p) == cap * q + cap * p;
    ModUnique(h + i, cap, q + p, j);
  }

  lemma Wraps(x: nat, cap: nat)
    requires x < 2 * cap
    ensures x % cap == if x < cap then x else x - cap
  {
    ModUnique(x, cap, if x < cap then 0 else 1, if x < cap then x else x - cap);
  }

  /** The slot found is the first free one, going up from the hash modulo the capacity and round at the end. */
  lemma FirstFreePlace<V>(t: Table<V>, h: nat)
    requires Occupied(t) < |t|
    ensures var b, j := h % |t|, FirstFree(t, h, 0);
      && j < |t| && t[j].None?
      && forall k :: 0 <= k < |t| && (if b <= j then b <= k < j else b <= k || k < j) ==> t[k].Some?
  {
    FirstFreeFinds(t, h, 0);
    var b, j := h % |t|, FirstFree(t, h, 0);
    var d: nat :| d < |t| && Slot(h, d, |t|) == j && Crowded(t, h, d);
    SlotIs(h, d, |t|);
    Wraps(b + d, |t|);
    hide Slot, FirstFree, Occupied;
    forall k | 0 <= k < |t| && (if b <= j then b <= k < j else b <= k || k < j) ensures t[k].Some? {
      var i := if b <= k then k - b else k + |t| - b;
      SlotIs(h, i, |t|);
      Wraps(b + i, |t|);
      assert i < d && Slot(h, i, |t|) == k;
    }
  }

  function Put<V>(t: Table<V>, e: Entry<V>): (r: Table<V>)
    requires Occupied(t) < |t|
    ensures |r| == |t|
  {
    var j := FirstFree(t, e.keyhash, 0);
    if j < |t| then t[j := Some(e)] else t
  }

  lemma PutKeeps<V>(t: Table<V>, e: Entry<V>)
    requires Occupied(t) < |t| && Chained(t) && e.keyhash == Hash(e.key)
    ensures Chained(Put(t, e)) && Contents(Put(t, e)) == Contents(t) + multiset{e}
    ensures Occupied(Put(t, e)) == Occupied(t) + 1
  {
    var j := FirstFree(t, e.keyhash, 0);
    FirstFreeFinds(t, e.keyhash, 0);
    ContentsUpdate(t, j, e);
    var u := t[j := Some(e)];
    forall k | 0 <= k < |u| && u[k].Some?
      ensures u[k].value.keyhash == Hash(u[k].value.key) && Reached(u, u[k].value.keyhash, k)
    {
      StillReached(t, j, e, u[k].value.keyhash, k);
    }
  }

  /** Filling a free slot breaks no chain. */
  lemma StillReached<V>(t: Table<V>, j: nat, e: Entry<V>, h: nat, k: nat)
    requires j < |t| && t[j] == None && k < |t| && Reached(t, h, k)
    ensures Reached(t[j := Some(e)], h, k)
  {
    var u := t[j := Some(e)];
    var d: nat :| d < |t| && Slot(h, d, |t|) == k && Crowded(t, h, d);
    assert Crowded(u, h, d);
  }

  // ---- searching --------------------------------------------------------------------------------

  predicate Matches<V>(s: Option<Entry<V>>, key: Bytes) {
    s.Some? && CStr(s.value.key) == CStr(key)
  }

  /** Where the search for key stops: its slot, or the capacity at a free slot or after a full round. */
  function Find<V>(t: Table<V>, key: Bytes, i: nat): nat
    requires |t| > 0 && i <= |t|
    decreases |t| - i
  {
    if i == |t| then |t|
    else
      var j := Slot(Hash(key), i, |t|);
      if t[j].None? then |t|
      else if t[j].value.keyhash == Hash(key) && CStr(t[j].value.key) == CStr(key) then j
      else Find(t, key, i + 1)
  }

  /** In a table with whole chains the search finds an entry with the key exactly when there is one. */
  lemma {:induction false} FindFinds<V>(t: Table<V>, key: Bytes, i: nat)
    requires |t| > 0 && i <= |t| && Chained(t)
    requires Crowded(t, Hash(key), i) && forall d :: 0 <= d < i ==> !Matches(t[Slot(Hash(key), d, |t|)], key)
    ensures Find(t, key, i) <= |t|
    ensures Find(t, key, i) < |t| ==> Matches(t[Find(t, key, i)], key)
    ensures Find(t, key, i) == |t| ==> forall j :: 0 <= j < |t| ==> !Matches(t[j], key)
    decreases |t| - i
  {
    if i == |t| || t[Slot(Hash(key), i, |t|)].None? {
      forall j | 0 <= j < |t| ensures !Matches(t[j], key) {
        if Matches(t[j], key) {
          var d := MatchIsReached(t, key, j);
        }
      }
    } else {
      var s := t[Slot(Hash(key), i, |t|)];
      if Matches(s, key) {
        SameKeySameHash(s.value.key, key);
      } else {
        FindFinds(t, key, i + 1);
      }
    }
  }

  lemma SameKeySameHash(a: Bytes, b: Bytes)
    requires CStr(a) == CStr(b)
    ensures Hash(a) == Hash(b)
  {
    HashOfCStr(1313, a);
    HashOfCStr(1313, b);
  }

  lemma MatchIsReached<V>(t: Table<V>, key: Bytes, j: nat) returns (d: nat)
    requires Chained(t) && j < |t| && Matches(t[j], key)
    ensures d < |t| && Slot(Hash(key), d, |t|) == j && Crowded(t, Hash(key), d)
  {
    SameKeySameHash(t[j].value.key, key);
    d :| d < |t| && Slot(Hash(key), d, |t|) == j && Crowded(t, Hash(key), d);
  }

  // ---- growing and adding -----------------------------------------------------------------------

  function Blank<V>(cap: nat): (t: Table<V>)
    ensures |t| == cap
  {
    seq(cap, _ => None)
  }

  lemma {:induction false} BlankIsEmpty<V>(cap: nat)
    ensures Contents<V>(Blank(cap)) == multiset{} && Occupied<V>(Blank(cap)) == 0 && Chained<V>(Blank(cap))
  {
    if cap > 0 {
      BlankIsEmpty<V>(cap - 1);
      assert Blank<V>(cap)[..cap - 1] == Blank<V>(cap - 1);
    }
  }

  /** The first n slots of t, put one after another into a blank table. */
  function Rehash<V>(t: Table<V>, n: nat, cap: nat): (r: Table<V>)
    requires n <= |t| && n < cap
    ensures |r| == cap
  {
    if n == 0 then Blank(cap)
    else
      var to := Rehash(t, n - 1, cap);
      match t[n - 1]
      case None => to
      case Some(e) => if Occupied(to) < cap then Put(to, e) else to
  }

  /** Moving entries to a larger table loses none of them. */
  lemma {:induction false} RehashKeeps<V>(t: Table<V>, n: nat, cap: nat)
    requires Chained(t) && n <= |t| && n < cap
    ensures Chained(Rehash(t, n, cap)) && Contents(Rehash(t, n, cap)) == Contents(t[..n])
    ensures Occupied(Rehash(t, n, cap)) <= n
  {
    if n == 0 {
      BlankIsEmpty<V>(cap);
    } else {
      RehashKeeps(t, n - 1, cap);
      assert t[..n][..n - 1] == t[..n - 1];
      if t[n - 1].Some? { PutKeeps(Rehash(t, n - 1, cap), t[n - 1].value); }
    }
  }

  /** The table with room for one more; no object yet is the empty sequence. */
  function Grown<V>(t: Table<V>): (r: Table<V>)
  {
    if t == [] then Blank(1) else if Occupied(t) == |t| then Rehash(t, |t|, 2 * |t|) else t
  }

  lemma GrownKeeps<V>(t: Table<V>)
    requires Chained(t)
    ensures Chained(Grown(t)) && Contents(Grown(t)) == Contents(t)
    ensures Occupied(Grown(t)) == Occupied(t) < |Grown(t)|
  {
    if t == [] {
      BlankIsEmpty<V>(1);
    } else if Occupied(t) == |t| {
      RehashKeeps(t, |t|, 2 * |t|);
      assert t[..|t|] == t;
    }
    OccupiedIsSize(t);
    OccupiedIsSize(Grown(t));
  }

  function Add<V>(t: Table<V>, e: Entry<V>): Table<V>
  {
    if Occupied(Grown(t)) < |Grown(t)| then Put(Grown(t), e) else t
  }

  /** Whole chains, and a capacity that is the least power of two that holds the entries. */
  ghost predicate Sound<V>(t: Table<V>) {
    Chained(t) && (t != [] ==> LeastPower(if Occupied(t) == 0 then 1 else Occupied(t), |t|))
  }

  lemma AddKeeps<V>(t: Table<V>, e: Entry<V>)
    requires Sound(t) && e.keyhash == Hash(e.key)
    ensures Sound(Add(t, e)) && Contents(Add(t, e)) == Contents(t) + multiset{e}
    ensures Add(t, e) != [] && Occupied(Add(t, e)) == Occupied(t) + 1
  {
    hide Chained, Contents, Occupied, Put, Grown, LeastPower;
    GrownKeeps(t);
    PutKeeps(Grown(t), e);
    GrownSize(t);
    CapGrows(Occupied(t), |t|, |Grown(t)|);
  }

  lemma GrownSize<V>(t: Table<V>)
    ensures |Grown(t)| == if t == [] then 1 else if Occupied(t) == |t| then 2 * |t| else |t|
  {
    hide Occupied, Rehash;
  }

  /** One more entry: the least power of two for n becomes that for n + 1. */
  lemma CapGrows(n: nat, cap: nat, g: nat)
    requires n <= cap && (cap > 0 ==> LeastPower(if n == 0 then 1 else n, cap))
    requires g == if cap == 0 then 1 else if n == cap then 2 * cap else cap
    ensures LeastPower(n + 1, g)
  {
    if cap == 0 {
      assert 1 == Pow2(0);
    } else {
      var k: nat :| cap == Pow2(k) && (k > 0 ==> Pow2(k - 1) < if n == 0 then 1 else n);
      Doubles(k);
      hide Pow2;
      if n == cap {
        assert g == Pow2(k + 1) && Pow2(k + 1 - 1) < n + 1;
      } else {
        assert g == Pow2(k) && (k > 0 ==> Pow2(k - 1) < n + 1);
      }
    }
  }

  /** A whole object: entries added one after another, from none. */
  function AddAll<V>(es: seq<Entry<V>>): Table<V> {
    if es == [] then [] else Add(AddAll(es[..|es| - 1]), es[|es| - 1])
  }

  ghost predicate Hashed<V>(es: seq<Entry<V>>) {
    forall i :: 0 <= i < |es| ==> es[i].keyhash == Hash(es[i].key)
  }

  /** However many are added, with growth, every entry is there once and the chains are whole. */
  lemma {:induction false} AddAllHolds<V>(es: seq<Entry<V>>)
    requires Hashed(es)
    ensures Sound(AddAll(es)) && Contents(AddAll(es)) == multiset(es) && Occupied(AddAll(es)) == |es|
    ensures es != [] ==> AddAll(es) != []
  {
    if es == [] {
      NoneHolds<V>();
    } else {
      hide *;
      var n := |es| - 1;
      AddAllStep(es);
      AddAllHolds(es[..n]);
      AddKeeps(AddAll(es[..n]), es[n]);
    }
  }

  lemma AddAllStep<V>(es: seq<Entry<V>>)
    requires es != [] && Hashed(es)
    ensures var n := |es| - 1;
      && Hashed(es[..n]) && es[n].keyhash == Hash(es[n].key)
      && AddAll(es) == Add(AddAll(es[..n]), es[n]) && multiset(es) == multiset(es[..n]) + multiset{es[n]}
  {
    hide Add, Hash;
    MultisetLast(es);
  }

  lemma NoneHolds<V>()
    ensures Sound<V>([]) && Contents<V>([]) == multiset{} && Occupied<V>([]) == 0
  {
  }

  /** dotjson_object_get. */
  function Get<V>(t: Table<V>, key: Bytes): Option<V>
    requires t != []
  {
    var j := Find(t, key, 0);
    if j < |t| && t[j].Some? then Some(t[j].value.val) else None
  }

  /** What a lookup returns belongs to an entry with that key; it returns nothing only if there is none. */
  lemma GetSound<V>(t: Table<V>, key: Bytes)
    requires t != [] && Chained(t)
    ensures Get(t, key).Some? ==> exists e :: e in Contents(t) && CStr(e.key) == CStr(key) && e.val == Get(t, key).value
    ensures Get(t, key).None? ==> forall e :: e in Contents(t) ==> CStr(e.key) != CStr(key)
  {
    FindFinds(t, key, 0);
    var j := Find(t, key, 0);
    if j < |t| {
      InContents(t, t[j].value);
    } else {
      forall e | e in Contents(t) ensures CStr(e.key) != CStr(key) {
        InContents(t, e);
        var k :| 0 <= k < |t| && t[k] == Some(e);
        assert !Matches(t[k], key);
      }
    }
  }

  ghost predicate DistinctKeys<V>(es: seq<Entry<V>>) {
    forall i, j :: 0 <= i < j < |es| ==> CStr(es[i].key) != CStr(es[j].key)
  }

  /** The object refines a map: with distinct keys a lookup gives exactly the value inserted, or nothing. */
  lemma GetIsExact<V>(es: seq<Entry<V>>, key: Bytes)
    requires es != [] && Hashed(es) && DistinctKeys(es)
    ensures forall i :: 0 <= i < |es| && CStr(es[i].key) == CStr(key) ==> Get(AddAll(es), key) == Some(es[i].val)
    ensures (forall i :: 0 <= i < |es| ==> CStr(es[i].key) != CStr(key)) ==> Get(AddAll(es), key) == None
  {
    var t := AddAll(es);
    AddAllHolds(es);
    GetSound(t, key);
    hide Get, AddAll, Contents, CStr, Sound;
    assert forall e :: e in Contents(t) <==> e in es;
    if Get(t, key).Some? {
      var e :| e in Contents(t) && CStr(e.key) == CStr(key) && e.val == Get(t, key).value;
      assert e in es;
    }
  }
}
