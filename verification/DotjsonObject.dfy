/** The object as the program updates it: hashed slots in an array that is replaced when it is full. */
module DotjsonObject {
  import opened Collections
  import opened DotjsonBits
  import opened DotjsonTable

  method HashOf(s: Bytes) returns (h: nat)
    ensures h == Hash(s)
  {
    h := 1313;
    var p := 0;
    while p < |s| && s[p] != '\0'
      invariant p <= |s| && HashFrom(h, s[p..]) == Hash(s)
    {
      h := Mix(h, s[p]);
      p := p + 1;
    }
  }

  /** The probe that masking computes. */
  function Masked(h: nat, i: nat, cap: nat): nat
    requires cap > 0
  {
    And(h + i, cap - 1)
  }

  ghost predicate IsPower(cap: nat) {
    exists k: nat :: cap == Pow2(k)
  }

  lemma MaskedIsSlot(h: nat, i: nat, cap: nat)
    requires cap > 0 && IsPower(cap)
    ensures Masked(h, i, cap) == Slot(h, i, cap)
  {
    var k: nat :| cap == Pow2(k);
    MaskIsMod(h + i, k);
  }

  class Object<V> {
    var cap: nat
    var len: nat
    var entries: array<Option<Entry<V>>>

    ghost predicate Valid()
      reads this, entries
    {
      entries.Length == cap > 0 && len == Occupied(entries[..]) && Sound(entries[..])
    }

    constructor Blank(cap: nat)
      requires cap > 0
      ensures fresh(entries) && this.cap == cap && len == 0 && entries[..] == DotjsonTable.Blank(cap)
    {
      this.cap, len := cap, 0;
      entries := new Option<Entry<V>>[cap](_ => None);
      new;
      assert entries[..] == DotjsonTable.Blank(cap);
    }

    /** object_find: the slot that holds the key, or the capacity. */
    method Find(key: Bytes) returns (r: nat)
      requires entries.Length == cap > 0 && IsPower(cap)
      ensures r == DotjsonTable.Find(entries[..], key, 0)
    {
      var h := HashOf(key);
      ghost var t := entries[..];
      var i := 0;
      while i < cap
        invariant i <= cap && DotjsonTable.Find(t, key, i) == DotjsonTable.Find(t, key, 0)
      {
        MaskedIsSlot(h, i, cap);
        var j := Masked(h, i, cap);
        if entries[j].None? { break; }
        if entries[j].value.keyhash == h && CStr(entries[j].value.key) == CStr(key) {
          return j;
        }
        i := i + 1;
      }
      return cap;
    }

    /** object_slot: the first free slot for the key, or the capacity. */
    method SlotFor(key: Bytes) returns (r: nat)
      requires entries.Length == cap > 0 && IsPower(cap)
      ensures r == FirstFree(entries[..], Hash(key), 0)
    {
      var h := HashOf(key);
      ghost var t := entries[..];
      var i := 0;
      while i < cap
        invariant i <= cap && FirstFree(t, h, i) == FirstFree(t, h, 0)
      {
        MaskedIsSlot(h, i, cap);
        var j := Masked(h, i, cap);
        if entries[j].None? { return j; }
        i := i + 1;
      }
      return cap;
    }

    /** An entry goes into its free slot. */
    method Put(e: Entry<V>)
      requires entries.Length == cap && IsPower(cap) && Occupied(entries[..]) < cap && Chained(entries[..])
      requires e.keyhash == Hash(e.key)
      modifies this`len, entries
      ensures entries[..] == DotjsonTable.Put(old(entries[..]), e) && len == old(len) + 1
    {
      ghost var t := entries[..];
      var j := SlotFor(e.key);
      assert j < cap by {
        hide Occupied, Chained, FirstFree;
        assert Crowded(t, e.keyhash, 0);
        FirstFreeFinds(t, e.keyhash, 0);
      }
      entries[j] := Some(e);
      assert entries[..] == t[j := Some(e)];
      len := len + 1;
    }

    /** dotjson_object_get. */
    method Get(key: Bytes) returns (v: Option<V>)
      requires Valid()
      ensures v == DotjsonTable.Get(entries[..], key)
    {
      CapIsPower();
      assert entries[..] != [];
      FindFinds(entries[..], key, 0);
      var i := Find(key);
      v := if i < cap && entries[i].Some? then Some(entries[i].value.val) else None;
    }

    lemma CapIsPower()
      requires Valid()
      ensures IsPower(cap)
    {
      var n := if len == 0 then 1 else len;
      assert LeastPower(n, cap);
      var k: nat :| cap == Pow2(k) && n <= cap && (k > 0 ==> Pow2(k - 1) < n);
    }
  }

  ghost function TableOf<V>(o: Object?<V>): Table<V>
    reads o, if o == null then {} else {o.entries}
  {
    if o == null then [] else o.entries[..]
  }

  /** A full power of two needs the next one; one with room stays as it is. */
  lemma NextPower(cap: nat, len: nat, r: nat)
    requires IsPower(cap) && len <= cap && LeastPower(len + 1, r)
    ensures len < cap ==> r <= cap
    ensures len == cap ==> r == 2 * cap
  {
    hide Pow2;
    var k: nat :| cap == Pow2(k);
    var m: nat :| r == Pow2(m) && len + 1 <= r && (m > 0 ==> Pow2(m - 1) < len + 1);
    PowerGap(k, m, len);
  }

  lemma PowerGap(k: nat, m: nat, len: nat)
    requires len <= Pow2(k) && len + 1 <= Pow2(m) && (m > 0 ==> Pow2(m - 1) < len + 1)
    ensures len < Pow2(k) ==> Pow2(m) <= Pow2(k)
    ensures len == Pow2(k) ==> Pow2(m) == 2 * Pow2(k)
  {
    hide Pow2;
    if m <= k {
      Pow2Monotone(m, k);
    } else {
      Doubles(m - 1);
      Pow2Monotone(k, m - 1);
    }
  }

  /** object_grow: only the first len slots are moved, which is all of them when the object is full. */
  method Grow<V>(from: Object?<V>) returns (to: Object<V>)
    requires from != null ==> from.Valid() && from.len < Pow2(32)
    ensures TableOf(to) == Grown(TableOf(from)) && to.cap == to.entries.Length && to.len == Occupied(TableOf(to))
    ensures to == from || (fresh(to) && fresh(to.entries))
  {
    hide Occupied, Rehash, Chained, Contents, LeastPower, Pow2, IsPower, Sound, Dense;
    var cap := 1;
    if from != null {
      from.CapIsPower();
      SmallIsDense(from.len);
      SmallFits(from.len);
      cap := MinBucket(from.len + 1);
      NextPower(from.cap, from.len, cap);
      if from.cap >= cap {
        return from;
      }
    }
    to := new Object<V>.Blank(cap);
    BlankIsEmpty<V>(cap);
    if from != null {
      MoveAll(from, to);
    }
  }

  lemma MoveStarts<V>(from: Object<V>, to: Object<V>)
    requires from.Valid() && from.len == from.cap && to.cap == 2 * from.cap && to.entries[..] == Blank(to.cap)
    ensures var t := from.entries[..];
      Chained(t) && |t| == from.cap > 0 && IsPower(to.cap) && Rehash(t, 0, to.cap) == Blank(to.cap) &&
        Occupied(to.entries[..]) == 0
  {
    from.CapIsPower();
    TwiceIsPower(from.cap);
    BlankIsEmpty<V>(to.cap);
    hide Occupied, Chained, Contents, Rehash, IsPower, Pow2, LeastPower, Blank;
    RehashNone(from.entries[..], to.cap);
  }

  method MoveAll<V>(from: Object<V>, to: Object<V>)
    requires from.Valid() && from.len == from.cap && to != from && to.entries != from.entries
    requires to.cap == to.entries.Length == 2 * from.cap && to.entries[..] == Blank(to.cap) && to.len == 0
    modifies to`len, to.entries
    ensures to.entries[..] == Rehash(from.entries[..], from.cap, to.cap) && to.len == Occupied(to.entries[..])
  {
    hide *;
    ghost var t := from.entries[..];
    MoveStarts(from, to);
    for i := 0 to from.len
      invariant from.entries[..] == t
      invariant to.entries[..] == Rehash(t, i, to.cap) && to.len == Occupied(to.entries[..])
    {
      MoveOne(from, to, i, t);
    }
  }

  method MoveOne<V>(from: Object<V>, to: Object<V>, i: nat, ghost t: Table<V>)
    requires to != from && to.entries != from.entries && from.entries[..] == t && Chained(t) && i < |t|
    requires i < to.cap - 1
    requires to.cap == to.entries.Length && IsPower(to.cap)
    requires to.entries[..] == Rehash(t, i, to.cap) && to.len == Occupied(to.entries[..])
    modifies to`len, to.entries
    ensures to.entries[..] == Rehash(t, i + 1, to.cap) && to.len == Occupied(to.entries[..])
  {
    RehashStep(t, i, to.cap);
    hide Occupied, Chained, Contents, Rehash, IsPower, DotjsonTable.Put;
    if from.entries[i].Some? {
      to.Put(from.entries[i].value);
    }
  }

  lemma RehashNone<V>(t: Table<V>, cap: nat)
    requires cap > 0
    ensures Rehash(t, 0, cap) == Blank(cap)
  {
  }

  lemma RehashStep<V>(t: Table<V>, i: nat, cap: nat)
    requires Chained(t) && i < |t| && i + 1 < cap
    ensures var to := Rehash(t, i, cap);
      && Occupied(to) < cap && Chained(to)
      && (t[i].None? ==> Rehash(t, i + 1, cap) == to)
      && (t[i].Some? ==>
        t[i].value.keyhash == Hash(t[i].value.key) && Rehash(t, i + 1, cap) == DotjsonTable.Put(to, t[i].value)
                         && Occupied(Rehash(t, i + 1, cap)) == Occupied(to) + 1)
  {
    RehashKeeps(t, i, cap);
    hide Occupied, Contents, DotjsonTable.Put;
    if t[i].Some? { PutKeeps(Rehash(t, i, cap), t[i].value); }
  }

  lemma TwiceIsPower(cap: nat)
    requires IsPower(cap)
    ensures IsPower(2 * cap)
  {
    var k: nat :| cap == Pow2(k);
    assert 2 * cap == Pow2(k + 1);
  }

  lemma RoomIsPower(n: nat, cap: nat)
    requires n > 0 && LeastPower(n, cap)
    ensures IsPower(cap)
  {
  }

  /** The object of an empty pair of braces. */
  method GrowNone<V>() returns (to: Object<V>)
    ensures to.Valid() && TableOf(to) == Blank(1) && fresh(to) && fresh(to.entries) && to.len == 0
  {
    to := Grow(null);
    BlankIsEmpty<V>(1);
    assert Pow2(0) == 1;
  }

  /** How the decoder adds an entry, whether there is an object yet or not. */
  method Insert<V>(from: Object?<V>, e: Entry<V>) returns (o: Object<V>)
    requires from != null ==> from.Valid() && from.len < Pow2(32)
    requires e.keyhash == Hash(e.key)
    modifies from, if from == null then {} else {from.entries}
    ensures o.Valid() && TableOf(o) == Add(old(TableOf(from)), e)
    ensures o.len == (if from == null then 0 else old(from.len)) + 1
    ensures (o == from || fresh(o)) && (fresh(o.entries) || (from != null && o.entries == old(from.entries)))
  {
    hide Occupied, Sound, LeastPower, Grown, Add, Hash, Pow2;
    ghost var t := TableOf(from);
    AddFacts(t, e);
    if from == null || from.len == from.cap {
      o := Grow(from);
    } else {
      o := from;
    }
    o.Put(e);
  }

  /** What adding an entry to a sound table rests on. */
  lemma AddFacts<V>(t: Table<V>, e: Entry<V>)
    requires (t == [] || Sound(t)) && e.keyhash == Hash(e.key)
    ensures var g := Grown(t);
      && (t != [] && Occupied(t) < |t| ==> g == t) && g != [] && IsPower(|g|) && Chained(g)
      && Occupied(g) == Occupied(t) < |g| && Add(t, e) == DotjsonTable.Put(g, e)
      && Sound(Add(t, e)) && Occupied(Add(t, e)) == Occupied(t) + 1
    ensures t == [] ==> Occupied(t) == 0
  {
    NoneHolds<V>();
    GrownKeeps(t);
    AddKeeps(t, e);
    assert |Add(t, e)| == |Grown(t)|;
    hide Occupied, Chained, Contents, LeastPower, Rehash, DotjsonTable.Put;
    RoomIsPower(Occupied(Add(t, e)), |Grown(t)|);
  }
}
