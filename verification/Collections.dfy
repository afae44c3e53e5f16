/** Small facts about sequences and their elements. */
module Collections {

  ghost function Elems<N>(s: seq<N>): (r: set<N>)
    ensures (forall x :: x in r ==> x in s) && (forall x :: x in s ==> x in r)
  {
    set x | x in s
  }

  datatype Option<+T> = None | Some(value: T)

  /** A permutation of a repetition-free list is repetition-free. */
  lemma Permuted<T>(s: seq<T>, t: seq<T>)
    requires multiset(s) == multiset(t) && forall i, j :: 0 <= i < j < |s| ==> s[i] != s[j]
    ensures forall i, j :: 0 <= i < j < |t| ==> t[i] != t[j]
  {
    forall i, j | 0 <= i < j < |t| ensures t[i] != t[j] {
      if t[i] == t[j] {
        assert t == t[..i] + [t[i]] + t[i + 1..j] + [t[j]] + t[j + 1..];
        assert multiset(t)[t[i]] >= 2;
        NoRepeats(s, t[i]);
      }
    }
  }

  lemma {:induction false} NoRepeats<T>(s: seq<T>, x: T)
    requires forall i, j :: 0 <= i < j < |s| ==> s[i] != s[j]
    ensures multiset(s)[x] <= 1
  {
    if s != [] {
      var t := s[..|s| - 1];
      NoRepeats(t, x);
      assert s == t + [s[|s| - 1]];
      if x == s[|s| - 1] {
        assert x !in t;
        assert multiset(t)[x] == 0;
      }
    }
  }

  lemma MultisetLast<T>(s: seq<T>)
    requires s != []
    ensures multiset(s) == multiset(s[..|s| - 1]) + multiset{s[|s| - 1]}
  {
    assert s == s[..|s| - 1] + [s[|s| - 1]];
  }

  lemma Assoc<T>(a: seq<T>, b: seq<T>, c: seq<T>)
    ensures a + (b + c) == a + b + c
  {
  }

  lemma NoneRight<T>(a: seq<T>)
    ensures a + [] == a
  {
  }

  lemma FirstAndRest<T>(a: seq<T>, k: nat)
    requires k < |a|
    ensures a[k..] == [a[k]] + a[k + 1..]
  {
  }

  lemma NoneLeft<T>(a: seq<T>)
    ensures [] + a == a
  {
  }
}
