// The lineBuffer of test2json: a fixed-capacity buffer that turns writes into
// calls on whole lines and, for lines that do not fit, on fragments.
module LineBuffers {
  import opened Bytes
  import opened Sequences
  import Utf8

  // A callback made by the buffer. The callbacks of a lineBuffer never touch
  // the buffer that calls them, so a write may be described by their sequence.
  datatype Call = Line(x: seq<byte>) | Part(x: seq<byte>)

  // The value of a lineBuffer between rounds: the bytes held and the mid flag.
  datatype Buf = Buf(pending: seq<byte>, mid: bool)

  datatype Step = Step(buf: Buf, calls: seq<Call>)

  // cap is the capacity of the buffer. lower tells whether the first rune of a
  // byte string is a lower-case letter (utf8.DecodeRune, then unicode.IsLower).
  datatype Params = Params(cap: nat, lower: seq<byte> -> bool)

  const EMPTY := Buf([], false)

  // "Benchmark"
  const BENCHMARK: seq<byte> := [0x42, 0x65, 0x6E, 0x63, 0x68, 0x6D, 0x61, 0x72, 0x6B]

  predicate IsBenchmarkName(p: Params, b: seq<byte>) {
    HasPrefix(b, BENCHMARK) && (|b| == |BENCHMARK| || !p.lower(b[|BENCHMARK|..]))
  }

  // The start of a line up to its first tab is a benchmark name.
  predicate IsBenchmarkLine(p: Params, b: seq<byte>) {
    var t := IndexOf(b, TAB);
    t >= 0 && IsBenchmarkName(p, TrimRightSpaces(b[..t]))
  }

  // ------------------------------------------- the rounds of write, on values

  // The call made when a line ends.
  function Finished(x: seq<byte>, mid: bool): Call {
    if mid then Part(x) else Line(x)
  }

  // The inner loop of write over the bytes b.
  function Scan(p: Params, b: seq<byte>, mid: bool): (s: Step)
    decreases |b|
  {
    var j := IndexOf(b, NL);
    if j >= 0 then
      Prepend([Finished(b[..j + 1], mid)], Scan(p, b[j + 1..], false))
    else if !mid && IsBenchmarkLine(p, b) then
      var t := IndexOf(b, TAB);
      Step(Buf(b[t + 1..], true), [Part(b[..t + 1])])
    else
      Step(Buf(b, mid), [])
  }

  // The three ways a scan can go.
  lemma ScanOfLine(p: Params, a: seq<byte>, rest: seq<byte>, mid: bool)
    requires NL !in a
    ensures Scan(p, a + [NL] + rest, mid) == Prepend([Finished(a + [NL], mid)], Scan(p, rest, false))
  {
    var b := a + [NL] + rest;
    IndexIs(b, NL, |a|);
    assert b[..|a| + 1] == a + [NL] && b[|a| + 1..] == rest;
  }

  lemma ScanOfBenchmark(p: Params, a: seq<byte>, rest: seq<byte>)
    requires NL !in a && NL !in rest && TAB !in a && IsBenchmarkLine(p, a + [TAB] + rest)
    ensures Scan(p, a + [TAB] + rest, false) == Step(Buf(rest, true), [Part(a + [TAB])])
  {
    var b := a + [TAB] + rest;
    IndexIs(b, TAB, |a|);
    assert b[..|a| + 1] == a + [TAB] && b[|a| + 1..] == rest;
    assert NL !in b;
  }

  lemma ScanOfFragment(p: Params, b: seq<byte>, mid: bool)
    requires NL !in b && (mid || !IsBenchmarkLine(p, b))
    ensures Scan(p, b, mid) == Step(Buf(b, mid), [])
  {
  }

  lemma ScanOfNothing(p: Params, mid: bool)
    ensures Scan(p, [], mid) == Step(Buf([], mid), [])
  {
  }

  lemma SplitAtTab(p: Params, b: seq<byte>) returns (a: seq<byte>, rest: seq<byte>)
    requires IsBenchmarkLine(p, b)
    ensures b == a + [TAB] + rest && TAB !in a
  {
    a, rest := SplitAt(b, TAB);
  }

  lemma ScanShape(p: Params, b: seq<byte>, mid: bool)
    ensures Scan(p, b, mid).calls == [] ==> Scan(p, b, mid).buf == Buf(b, mid) && NL !in b
    ensures Scan(p, b, mid).calls != [] ==> |Scan(p, b, mid).buf.pending| < |b|
    decreases |b|
  {
    hide Scan, IsBenchmarkLine;
    if NL in b {
      var a, rest := SplitAt(b, NL);
      ScanOfLine(p, a, rest, mid);
      ScanShape(p, rest, false);
    } else if !mid && IsBenchmarkLine(p, b) {
      var a, rest := SplitAtTab(p, b);
      ScanOfBenchmark(p, a, rest);
    } else {
      ScanOfFragment(p, b, mid);
    }
  }

  // One round of write: what fits has been copied behind the pending bytes.
  function Round(p: Params, buf: Buf, chunk: seq<byte>): (s: Step)
    requires p.cap >= 4 && |buf.pending| + |chunk| <= p.cap
    ensures |s.buf.pending| < p.cap
  {
    var b := buf.pending + chunk;
    var s := Scan(p, b, buf.mid);
    ScanShape(p, b, buf.mid);
    if s.calls == [] && |b| == p.cap then
      var t := Utf8.Trim(b);
      Step(Buf(b[t..], true), [Part(b[..t])])
    else s
  }

  function Fits(p: Params, buf: Buf, w: seq<byte>): (m: nat)
    requires |buf.pending| < p.cap
    ensures m <= |w| && |buf.pending| + m <= p.cap
    ensures w != [] ==> m > 0
  {
    if |w| <= p.cap - |buf.pending| then |w| else p.cap - |buf.pending|
  }

  // A whole write.
  function WriteTo(p: Params, buf: Buf, w: seq<byte>): (s: Step)
    requires p.cap >= 4 && |buf.pending| < p.cap
    ensures |s.buf.pending| < p.cap
    decreases |w|
  {
    if w == [] then Step(buf, [])
    else
      var m := Fits(p, buf, w);
      var r := Round(p, buf, w[..m]);
      Prepend(r.calls, WriteTo(p, r.buf, w[m..]))
  }

  function WriteAll(p: Params, buf: Buf, ws: seq<seq<byte>>): (s: Step)
    requires p.cap >= 4 && |buf.pending| < p.cap
    ensures |s.buf.pending| < p.cap
    decreases |ws|
  {
    if ws == [] then Step(buf, [])
    else
      var r := WriteTo(p, buf, ws[0]);
      Prepend(r.calls, WriteAll(p, r.buf, ws[1..]))
  }

  function FlushOut(buf: Buf): Step {
    if buf.pending == [] then Step(buf, []) else Step(Buf([], buf.mid), [Part(buf.pending)])
  }

  function Prepend(calls: seq<Call>, s: Step): Step {
    Step(s.buf, calls + s.calls)
  }

  lemma PrependTwice(a: seq<Call>, b: seq<Call>, s: Step)
    ensures Prepend(a, Prepend(b, s)) == Prepend(a + b, s)
  {
    assert a + (b + s.calls) == (a + b) + s.calls;
  }

  // What is left to scan after the first line of b has been handed on.
  lemma ScanLine(p: Params, whole: Step, calls: seq<Call>, b: seq<byte>, mid: bool, j: nat)
    requires IndexOf(b, NL) == j && whole == Prepend(calls, Scan(p, b, mid))
    ensures whole == Prepend(calls + [Finished(b[..j + 1], mid)], Scan(p, b[j + 1..], false))
  {
    PrependTwice(calls, [Finished(b[..j + 1], mid)], Scan(p, b[j + 1..], false));
  }

  // The inner loop of write: i is the cursor into the buffer b, left is b[i..].
  method ProcessLines(p: Params, b: seq<byte>, midBefore: bool)
    returns (i: nat, mid: bool, calls: seq<Call>)
    ensures i <= |b| && (i == 0) == (calls == [])
    ensures Scan(p, b, midBefore) == Step(Buf(b[i..], mid), calls)
  {
    hide Scan, IsBenchmarkLine;
    i, mid, calls := 0, midBefore, [];
    ghost var whole := Scan(p, b, midBefore);
    var left := b;
    while i < |b|
      invariant i <= |b| && (i == 0) == (calls == [])
      invariant left == b[i..]
      invariant whole == Prepend(calls, Scan(p, left, mid))
    {
      var j := IndexOf(left, NL);
      if j < 0 {
        var k, made;
        k, mid, made := HoldFragment(p, left, mid);
        assert left[k..] == b[i + k..];
        i, calls := i + k, calls + made;
        return;
      }
      ScanLine(p, whole, calls, left, mid, j);
      if mid {
        calls := calls + [Part(left[..j + 1])];
        mid := false;
      } else {
        calls := calls + [Line(left[..j + 1])];
      }
      i, left := i + j + 1, left[j + 1..];
    }
    ScanOfNothing(p, mid);
  }

  // What the inner loop does where no line ends: a benchmark name is passed on
  // at once, anything else waits.
  method HoldFragment(p: Params, left: seq<byte>, midBefore: bool)
    returns (k: nat, mid: bool, calls: seq<Call>)
    requires IndexOf(left, NL) < 0
    ensures k <= |left| && (k == 0) == (calls == [])
    ensures Scan(p, left, midBefore) == Step(Buf(left[k..], mid), calls)
  {
    k, mid, calls := 0, midBefore, [];
    if !mid {
      var t := IndexOf(left, TAB);
      if t >= 0 {
        if IsBenchmarkName(p, TrimRightSpaces(left[..t])) {
          k, mid, calls := t + 1, true, [Part(left[..t + 1])];
        }
      }
    }
  }

  // --------------------------------------------------------------- the object

  class LineBuffer {
    const lower: seq<byte> -> bool
    var b: array<byte>
    var len: nat
    var mid: bool

    ghost predicate Valid()
      reads this
    {
      b.Length >= 4 && len < b.Length
    }

    ghost function P(): Params
      reads this
    {
      Params(b.Length, lower)
    }

    ghost function Contents(): (buf: Buf)
      requires Valid()
      reads this, b
      ensures |buf.pending| < b.Length
    {
      Buf(b[..len], mid)
    }

    constructor (capacity: nat, lower: seq<byte> -> bool)
      requires capacity >= 4
      ensures Valid() && fresh(b) && P() == Params(capacity, lower) && Contents() == EMPTY
    {
      this.lower := lower;
      b := new byte[capacity];
      len, mid := 0, false;
    }

    method Write(w: seq<byte>) returns (calls: seq<Call>)
      requires Valid()
      modifies this, b
      ensures Valid() && b == old(b)
      ensures Step(Contents(), calls) == WriteTo(P(), old(Contents()), w)
    {
      var rest := w;
      calls := [];
      while |rest| > 0
        invariant Valid() && b == old(b)
        invariant WriteTo(P(), old(Contents()), w) == Prepend(calls, WriteTo(P(), Contents(), rest))
      {
        var m, made := WriteRound(rest);
        rest := rest[m..];
        PrependTwice(calls, made, WriteTo(P(), Contents(), rest));
        calls := calls + made;
      }
    }

    // The body of the outer loop of write; m bytes of w are taken.
    method WriteRound(w: seq<byte>) returns (m: nat, calls: seq<Call>)
      requires Valid() && w != []
      modifies this, b
      ensures Valid() && b == old(b)
      ensures m == Fits(P(), old(Contents()), w)
      ensures Step(Contents(), calls) == Round(P(), old(Contents()), w[..m])
    {
      m := Fill(w);
      ghost var all := b[..len];
      var i;
      i, mid, calls := ProcessLines(Params(b.Length, lower), b[..len], mid);
      assert b[i..len] == all[i..];
      if i == 0 && len == b.Length {
        var t := Utf8.TrimUTF8(b[..len]);
        calls := [Part(b[..t])];
        assert b[..t] == all[..t] && b[t..len] == all[t..];
        Slide(t);
        mid := true;
      }
      if i > 0 {
        Slide(i);
      }
    }

    // copy(l.b[len(l.b):cap(l.b)], b) followed by the reslice.
    method Fill(w: seq<byte>) returns (m: nat)
      requires Valid()
      modifies this`len, b
      ensures m == Fits(P(), old(Contents()), w)
      ensures len == old(len) + m <= b.Length && b[..len] == old(b[..len]) + w[..m]
    {
      m := if |w| <= b.Length - len then |w| else b.Length - len;
      forall k | 0 <= k < m {
        b[len + k] := w[k];
      }
      len := len + m;
    }

    // copy(l.b, l.b[i:]) followed by the reslice.
    method Slide(i: nat)
      requires i <= len <= b.Length
      modifies this`len, b
      ensures len == old(len) - i
      ensures b[..len] == old(b[i..len])
    {
      forall k | 0 <= k < len - i {
        b[k] := b[k + i];
      }
      len := len - i;
    }

    method Flush() returns (calls: seq<Call>)
      requires Valid()
      modifies this`len
      ensures Valid() && b == old(b)
      ensures Step(Contents(), calls) == FlushOut(old(Contents()))
    {
      calls := [];
      if len > 0 {
        calls := [Part(b[..len])];
        len := 0;
      }
    }
  }
}
