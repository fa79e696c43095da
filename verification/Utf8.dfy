// Valid UTF-8 as defined by the grammar in section 4 of RFC 3629, and the
// backward scan that cuts a buffer without splitting a character.
module Utf8 {
  import opened Bytes

  predicate Tail(c: byte) {
    0x80 <= c <= 0xBF
  }

  // The number of bytes of the character at the head of s, or 0 if there is none.
  function CharLen(s: seq<byte>): (n: nat)
    ensures n <= 4 && n <= |s|
  {
    if s == [] then 0
    else if s[0] <= 0x7F then 1
    else if 0xC2 <= s[0] <= 0xDF && |s| >= 2 && Tail(s[1]) then 2
    else if 0xE0 <= s[0] <= 0xEF && |s| >= 3 && Tail(s[1]) && Tail(s[2])
            && (s[0] == 0xE0 ==> 0xA0 <= s[1])
            && (s[0] == 0xED ==> s[1] <= 0x9F) then 3
    else if 0xF0 <= s[0] <= 0xF4 && |s| >= 4 && Tail(s[1]) && Tail(s[2]) && Tail(s[3])
            && (s[0] == 0xF0 ==> 0x90 <= s[1])
            && (s[0] == 0xF4 ==> s[1] <= 0x8F) then 4
    else 0
  }

  predicate Valid(s: seq<byte>)
    decreases |s|
  {
    s == [] || (CharLen(s) > 0 && Valid(s[CharLen(s)..]))
  }

  // The masks of trimUTF8: c&0xe0 == 0xc0, c&0xf0 == 0xe0, c&0xf8 == 0xf0.
  function LeadLen(c: byte): nat {
    if 0xC0 <= c <= 0xDF then 2
    else if 0xE0 <= c <= 0xEF then 3
    else if 0xF0 <= c <= 0xF7 then 4
    else 1
  }

  // What the scan returns once it has stepped back over i - 1 tail bytes.
  function TrimFrom(b: seq<byte>, i: nat): (t: nat)
    requires 1 <= i <= 4
    ensures |b| - 3 <= t <= |b|
    decreases 4 - i
  {
    if i == 4 || i > |b| then |b|
    else if Tail(b[|b| - i]) then TrimFrom(b, i + 1)
    else if i < LeadLen(b[|b| - i]) then |b| - i
    else |b|
  }

  function Trim(b: seq<byte>): (t: nat)
    ensures |b| - 3 <= t <= |b|
  {
    TrimFrom(b, 1)
  }

  // trimUTF8, as the loop it is.
  method TrimUTF8(b: seq<byte>) returns (t: nat)
    ensures t == Trim(b)
  {
    var i := 1;
    while i < 4 && i <= |b|
      invariant 1 <= i <= 4 && i <= |b| + 1
      invariant TrimFrom(b, i) == Trim(b)
    {
      var c := b[|b| - i];
      if !(0x80 <= c <= 0xBF) {
        if 0xC0 <= c <= 0xDF {
          if i < 2 { return |b| - i; }
        } else if 0xE0 <= c <= 0xEF {
          if i < 3 { return |b| - i; }
        } else if 0xF0 <= c <= 0xF7 {
          if i < 4 { return |b| - i; }
        }
        break;
      }
      i := i + 1;
    }
    return |b|;
  }

  // ------------------------------------------------------------------ lemmas

  // A character that ends inside p is seen whatever follows p.
  lemma CharLenLocal(p: seq<byte>, r: seq<byte>)
    ensures CharLen(p) > 0 ==> CharLen(p + r) == CharLen(p)
    ensures 0 < CharLen(p + r) <= |p| ==> CharLen(p) == CharLen(p + r)
  {
  }

  lemma {:induction false} ValidConcat(a: seq<byte>, b: seq<byte>)
    requires Valid(a)
    ensures Valid(a + b) <==> Valid(b)
    decreases |a|
  {
    if a == [] {
      assert a + b == b;
    } else {
      var n := CharLen(a);
      CharLenLocal(a, b);
      assert (a + b)[n..] == a[n..] + b;
      ValidConcat(a[n..], b);
    }
  }

  ghost predicate CutsBetweenCharacters(p: seq<byte>, t: nat, r: seq<byte>) {
    t <= |p| && Valid(p[..t]) && Valid(p[t..] + r)
  }

  // Cutting a valid stream where Trim says leaves both sides whole.
  lemma {:induction false} TrimKeepsCharacters(p: seq<byte>, r: seq<byte>)
    requires Valid(p + r)
    ensures CutsBetweenCharacters(p, Trim(p), r)
    decreases |p|
  {
    if p == [] {
      assert p[0..] + r == p + r;
    } else if CharLen(p + r) <= |p| {
      var n := CharLen(p + r);
      CharLenLocal(p, r);
      assert (p + r)[n..] == p[n..] + r;
      TrimKeepsCharacters(p[n..], r);
      TrimOfSuffix(p, n);
      SkipCharacter(p, n, Trim(p[n..]), r);
    } else {
      InsideCharacter(p, r);
      assert p[0..] + r == p + r;
    }
  }

  lemma SkipCharacter(p: seq<byte>, n: nat, t: nat, r: seq<byte>)
    requires n == CharLen(p) > 0 && CutsBetweenCharacters(p[n..], t, r)
    ensures CutsBetweenCharacters(p, n + t, r)
  {
    PrependCharacter(p, n, p[n..][..t]);
    assert p[..n + t] == p[..n] + p[n..][..t];
    assert p[n + t..] == p[n..][t..];
  }

  lemma PrependCharacter(p: seq<byte>, n: nat, rest: seq<byte>)
    requires n == CharLen(p) > 0 && Valid(rest)
    ensures Valid(p[..n] + rest)
  {
    assert p[..n] + p[n..] == p;
    CharLenLocal(p[..n], p[n..]);
    assert p[..n][n..] == [];
    ValidConcat(p[..n], rest);
  }

  // When p is a proper part of the first character, everything is held back.
  lemma InsideCharacter(p: seq<byte>, r: seq<byte>)
    requires 0 < |p| < CharLen(p + r)
    ensures Trim(p) == 0
  {
    var s := p + r;
    assert s[0] == p[0];
    forall i | 1 <= i < |p|
      ensures Tail(p[i])
    {
      assert s[i] == p[i];
    }
    if |p| == 2 {
      assert TrimFrom(p, 2) == 0;
    } else if |p| == 3 {
      assert TrimFrom(p, 3) == 0;
      assert TrimFrom(p, 2) == 0;
    }
  }

  // Dropping a whole first character shifts the cut and nothing else.
  lemma TrimOfSuffix(p: seq<byte>, n: nat)
    requires n == CharLen(p) > 0
    ensures Trim(p) == n + Trim(p[n..])
  {
    var q := p[n..];
    assert forall i | 0 <= i < |q| :: q[i] == p[n + i];
    assert TrimFrom(p, 4) == n + TrimFrom(q, 4);
    assert TrimFrom(p, 3) == n + TrimFrom(q, 3);
    assert TrimFrom(p, 2) == n + TrimFrom(q, 2);
  }

  // Only the beginning of a character is held back, never a whole one.
  lemma {:induction false} TrimHoldsLittle(p: seq<byte>, r: seq<byte>)
    requires Valid(p + r)
    ensures CharLen(p[Trim(p)..]) == 0
    decreases |p|
  {
    if p != [] && CharLen(p + r) <= |p| {
      var n := CharLen(p + r);
      CharLenLocal(p, r);
      assert (p + r)[n..] == p[n..] + r;
      TrimHoldsLittle(p[n..], r);
      TrimOfSuffix(p, n);
      SliceTwice(p, n, Trim(p[n..]));
    } else if p != [] {
      InsideCharacter(p, r);
      assert p[0..] == p;
      CharLenLocal(p, r);
    }
  }

  lemma SliceTwice(p: seq<byte>, n: nat, t: nat)
    requires n <= |p| && t <= |p| - n
    ensures p[n..][t..] == p[n + t..]
  {
  }

  // A full buffer always hands something on, whatever bytes it holds, exactly
  // when its capacity is at least utf8.UTFMax.
  lemma FullBufferShrinksIff(cap: nat)
    requires cap > 0
    ensures (forall b: seq<byte> :: |b| == cap ==> Trim(b) > 0) <==> cap >= 4
  {
    if cap < 4 {
      var b: seq<byte> := [0xF0, 0x80, 0x80][..cap];
      assert TrimFrom(b, cap) == 0;
      assert Trim(b) == 0;
    }
  }

  // An ASCII byte is a boundary of any valid stream it occurs in.
  lemma {:induction false} AsciiIsBoundary(a: seq<byte>, c: byte, b: seq<byte>)
    requires c <= 0x7F && Valid(a + [c] + b)
    ensures Valid(a + [c]) && Valid(b)
    decreases |a|
  {
    var s := a + [c] + b;
    var n := CharLen(s);
    if a == [] {
      assert s[1..] == b;
    } else {
      assert s[|a|] == c;
      assert s[n..] == a[n..] + [c] + b;
      AsciiIsBoundary(a[n..], c, b);
      assert (a + [c])[n..] == a[n..] + [c];
      CharLenLocal(a + [c], b);
      assert (a + [c]) + b == s;
    }
  }
}
