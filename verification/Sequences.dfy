/** What holds of sequences of anything. */
module Sequences {
  function Elements<T(==)>(s: seq<T>): set<T> {
    set x | x in s
  }

  lemma Associates<T>(a: seq<T>, b: seq<T>, c: seq<T>)
    ensures a + (b + c) == (a + b) + c
  {
  }

  lemma WithoutNothing<T>(a: seq<T>)
    ensures [] + a == a
  {
  }

  lemma CutAt<T>(s: seq<T>, j: nat)
    requires j < |s|
    ensures s == s[..j] + ([s[j]] + s[j + 1..])
  {
  }

  lemma HeadAndTail<T>(a: seq<T>, b: seq<T>)
    requires a != []
    ensures a + b != [] && (a + b)[0] == a[0] && (a + b)[1..] == a[1..] + b
  {
  }

  lemma MembersOf<T>(s: seq<T>)
    requires s != []
    ensures forall x :: x in s <==> x == s[0] || x in s[1..]
  {
    assert s == [s[0]] + s[1..];
  }

  lemma SameHead<T>(s: seq<T>, x: T, rest: seq<T>)
    requires s != []
    ensures [x] + rest == s <==> x == s[0] && rest == s[1..]
  {
    assert s == [s[0]] + s[1..];
    assert ([x] + rest)[1..] == rest;
  }

  lemma AtMostOne<T>(a: seq<T>, b: seq<T>)
    requires |a| <= 1
    ensures if a == [] then a + b == b else a == [(a + b)[0]] && (a + b)[1..] == b
  {
  }
}
