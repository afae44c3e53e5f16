/** Regular expressions and the words they denote. */
module RegexLanguage {

  /** The characters the matcher has table columns for. */
  type Letter = c: char | c as int < 128 witness 'a'

  datatype Re = Chr(c: Letter) | Cat(a: Re, b: Re) | Alt(a: Re, b: Re) | Star(a: Re)

  ghost predicate In(re: Re, w: string)
    decreases re, |w|
  {
    match re
    case Chr(c) => w == [c]
    case Cat(a, b) => exists i :: 0 <= i <= |w| && In(a, w[..i]) && In(b, w[i..])
    case Alt(a, b) => In(a, w) || In(b, w)
    case Star(a) => w == [] || exists i :: 0 < i <= |w| && In(a, w[..i]) && In(Star(a), w[i..])
  }

  lemma InCat(a: Re, b: Re, u: string, v: string)
    requires In(a, u) && In(b, v)
    ensures In(Cat(a, b), u + v)
  {
    assert (u + v)[..|u|] == u && (u + v)[|u|..] == v;
  }

  lemma CatParts(a: Re, b: Re, w: string) returns (u: string, v: string)
    requires In(Cat(a, b), w)
    ensures w == u + v && In(a, u) && In(b, v)
  {
    var i :| 0 <= i <= |w| && In(a, w[..i]) && In(b, w[i..]);
    u, v := w[..i], w[i..];
  }

  lemma InStar(a: Re, u: string, v: string)
    requires In(a, u) && In(Star(a), v)
    ensures In(Star(a), u + v)
  {
    assert (u + v)[..|u|] == u && (u + v)[|u|..] == v;
    if u == [] {
      assert u + v == v;
    }
  }

  /** w begins some word of re. */
  ghost predicate Viable(re: Re, w: string) {
    exists x: string :: In(re, w + x)
  }

  /** What the matcher is reading: it starts over at the first character that no word of re continues with. */
  ghost function Reading(re: Re, s: string): (v: string)
    ensures |v| <= |s| && s[|s| - |v|..] == v
  {
    if s == [] then []
    else
      var v := Reading(re, s[..|s| - 1]) + [s[|s| - 1]];
      if Viable(re, v) then v else []
  }

  /** The matcher's verdict: it never starts over inside a word, and the empty string never matches. */
  ghost predicate Matches(re: Re, s: string) {
    Reading(re, s) != [] && In(re, Reading(re, s))
  }

  lemma {:induction false} ReadsPrefix(re: Re, s: string, n: nat)
    requires In(re, s) && n <= |s|
    ensures Reading(re, s[..n]) == s[..n]
  {
    hide *;
    if n == 0 {
      EmptyReading(re, s);
    } else {
      ReadsPrefix(re, s, n - 1);
      PrefixViable(re, s, n);
      LastOf(s, n);
      ReadsOneMore(re, s[..n - 1], s[n - 1]);
    }
  }

  lemma EmptyReading(re: Re, s: string)
    ensures Reading(re, s[..0]) == s[..0]
  {
  }

  lemma LastOf(s: string, n: nat)
    requires 0 < n <= |s|
    ensures s[..n] == s[..n - 1] + [s[n - 1]]
  {
  }

  lemma ReadsOneMore(re: Re, p: string, c: char)
    requires Reading(re, p) == p && Viable(re, p + [c])
    ensures Reading(re, p + [c]) == p + [c]
  {
    hide Viable;
    assert (p + [c])[..|p|] == p;
  }

  lemma PrefixViable(re: Re, s: string, n: nat)
    requires In(re, s) && n <= |s|
    ensures Viable(re, s[..n])
  {
    hide In;
    assert s[..n] + s[n..] == s;
  }

  /** Every non-empty word of the language matches. */
  lemma WordMatches(re: Re, s: string)
    requires In(re, s) && s != []
    ensures Matches(re, s)
  {
    hide Reading, In;
    ReadsPrefix(re, s, |s|);
    assert s[..|s|] == s;
  }

  /** Every string that matches ends in a non-empty word of the language. */
  lemma MatchEndsInWord(re: Re, s: string)
    requires Matches(re, s)
    ensures exists n :: 0 <= n < |s| && In(re, s[n..])
  {
    var n := |s| - |Reading(re, s)|;
    assert s[n..] == Reading(re, s);
  }

  lemma ReadsNext(re: Re, s: string, c: char)
    ensures Reading(re, s + [c]) == if Viable(re, Reading(re, s) + [c]) then Reading(re, s) + [c] else []
  {
    hide Viable;
    assert (s + [c])[..|s|] == s;
  }

  lemma OnlyItself(c: Letter, d: char)
    ensures Viable(Chr(c), [d]) <==> d == c
  {
    if d == c {
      assert In(Chr(c), [d] + []);
    }
    forall x: string | In(Chr(c), [d] + x) ensures d == c {
      assert ([d] + x)[0] == d;
    }
  }

  /** After a character that starts no word, the matcher reads from the start. */
  lemma StartsOver(c: Letter, d: char)
    requires d != c
    ensures Reading(Chr(c), [d] + [c]) == [c]
  {
    assert Reading(Chr(c), []) == [] && [] + [d] == [d] && [] + [c] == [c];
    hide Viable, Reading;
    OnlyItself(c, d);
    ReadsNext(Chr(c), [], d);
    OnlyItself(c, c);
    ReadsNext(Chr(c), [d], c);
  }

  lemma OverIsMatch(c: Letter, d: char)
    requires d != c
    ensures Matches(Chr(c), [d] + [c]) && !In(Chr(c), [d] + [c])
  {
    StartsOver(c, d);
    hide Reading;
    assert |[d] + [c]| == 2;
  }

  lemma EmptyIsWord(re: Re)
    ensures In(Star(re), []) && !Matches(Star(re), [])
  {
    assert Reading(Star(re), []) == [];
  }

  /** Matching is not membership: a non-word matches once the matcher has started over. */
  lemma MatchIsNotMembership()
    ensures Matches(Chr('a'), "ba") && !In(Chr('a'), "ba")
    ensures In(Star(Chr('a')), "") && !Matches(Star(Chr('a')), "")
  {
    assert "ba" == ['b'] + ['a'];
    hide *;
    OverIsMatch('a', 'b');
    EmptyIsWord(Chr('a'));
  }
}
