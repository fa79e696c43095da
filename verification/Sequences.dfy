// Sequences: the first occurrence of an element (bytes.IndexByte, strings.Index)
// and concatenation.
module Sequences {

  predicate IsFirst<T(==)>(s: seq<T>, c: T, j: int) {
    0 <= j < |s| && s[j] == c && forall i :: 0 <= i < j ==> s[i] != c
  }

  // The first position of c, or -1.
  function IndexOf<T(==)>(s: seq<T>, c: T): (j: int)
    ensures j == -1 || IsFirst(s, c, j)
    ensures j == -1 <==> c !in s
  {
    if c in s then
      FirstExists(s, c);
      var j :| IsFirst(s, c, j);
      j
    else -1
  }

  lemma FirstExists<T>(s: seq<T>, c: T)
    requires c in s
    ensures exists j :: IsFirst(s, c, j)
  {
    if s[0] == c {
      assert IsFirst(s, c, 0);
    } else {
      FirstExists(s[1..], c);
      var k :| IsFirst(s[1..], c, k);
      assert IsFirst(s, c, k + 1);
    }
  }

  // IndexOf is determined by its contract.
  lemma IndexIs<T>(s: seq<T>, c: T, j: nat)
    requires IsFirst(s, c, j)
    ensures IndexOf(s, c) == j
  {
    assert s[j] in s;
  }

  // Cut s at its first c.
  lemma SplitAt<T>(s: seq<T>, c: T) returns (a: seq<T>, rest: seq<T>)
    requires c in s
    ensures s == a + [c] + rest && c !in a
  {
    var j := IndexOf(s, c);
    a, rest := s[..j], s[j + 1..];
  }

  lemma Assoc<T>(a: seq<T>, b: seq<T>, c: seq<T>)
    ensures (a + b) + c == a + (b + c)
  {
  }

  function Concat<T>(ss: seq<seq<T>>): seq<T> {
    if ss == [] then [] else ss[0] + Concat(ss[1..])
  }

  lemma ConcatCons<T>(h: seq<T>, t: seq<seq<T>>)
    ensures Concat([h] + t) == h + Concat(t)
  {
    assert ([h] + t)[1..] == t;
  }

  lemma {:induction false} ConcatAppend<T>(a: seq<seq<T>>, b: seq<seq<T>>)
    ensures Concat(a + b) == Concat(a) + Concat(b)
  {
    if a == [] {
      assert a + b == b;
    } else {
      ConcatAppend(a[1..], b);
      ConcatCons(a[0], a[1..] + b);
      assert a + b == [a[0]] + (a[1..] + b);
      Assoc(a[0], Concat(a[1..]), Concat(b));
    }
  }
}
