// What every write to a lineBuffer keeps, for any input: the bytes, the shape
// of the call sequence, and the boundaries of UTF-8 characters.
module LineLaws {
  import opened Bytes
  import opened Sequences
  import opened LineBuffers
  import Utf8

  function Flat(calls: seq<Call>): seq<byte> {
    if calls == [] then [] else calls[0].x + Flat(calls[1..])
  }

  predicate EndsLine(x: seq<byte>) {
    x != [] && x[|x| - 1] == NL
  }

  // The calls alternate properly: a Line is a whole line and only comes when no
  // line is in progress, a Part leaves a line in progress unless it ends one.
  ghost predicate Trace(mid: bool, calls: seq<Call>, after: bool)
    decreases |calls|
  {
    if calls == [] then mid == after
    else match calls[0]
      case Line(x) => !mid && EndsLine(x) && NL !in x[..|x| - 1] && Trace(false, calls[1..], after)
      case Part(x) => x != [] && Trace(!EndsLine(x), calls[1..], after)
  }

  ghost predicate AllValid(calls: seq<Call>) {
    forall i :: 0 <= i < |calls| ==> Utf8.Valid(calls[i].x)
  }

  // The bytes in and the bytes out are the same bytes.
  ghost predicate Conserved(before: seq<byte>, s: Step) {
    Flat(s.calls) + s.buf.pending == before
  }

  lemma {:induction false} FlatAppend(a: seq<Call>, b: seq<Call>)
    ensures Flat(a + b) == Flat(a) + Flat(b)
  {
    if a == [] {
      assert a + b == b;
    } else {
      FlatAppend(a[1..], b);
      FlatCons(a[0], a[1..] + b);
      assert a + b == [a[0]] + (a[1..] + b);
      Assoc(a[0].x, Flat(a[1..]), Flat(b));
    }
  }

  lemma FlatCons(c: Call, t: seq<Call>)
    ensures Flat([c] + t) == c.x + Flat(t)
  {
    assert ([c] + t)[1..] == t;
  }

  lemma {:induction false} TraceAppend(mid: bool, a: seq<Call>, m: bool, b: seq<Call>, after: bool)
    requires Trace(mid, a, m) && Trace(m, b, after)
    ensures Trace(mid, a + b, after)
    decreases |a|
  {
    if a == [] {
      assert a + b == b;
    } else {
      assert (a + b)[0] == a[0] && (a + b)[1..] == a[1..] + b;
      match a[0]
      case Line(x) => TraceAppend(false, a[1..], m, b, after);
      case Part(x) => TraceAppend(!EndsLine(x), a[1..], m, b, after);
    }
  }

  lemma ConservedThen(before: seq<byte>, r: Step, w: seq<byte>, s: Step)
    requires Conserved(before, r) && Conserved(r.buf.pending + w, s)
    ensures Conserved(before + w, Prepend(r.calls, s))
  {
    FlatAppend(r.calls, s.calls);
    calc {
      Flat(r.calls + s.calls) + s.buf.pending;
      Flat(r.calls) + (Flat(s.calls) + s.buf.pending);
      Flat(r.calls) + (r.buf.pending + w);
      (Flat(r.calls) + r.buf.pending) + w;
      before + w;
    }
  }

  // ------------------------------------------------------------- conservation

  lemma {:induction false} ScanConserves(p: Params, b: seq<byte>, mid: bool)
    ensures Conserved(b, Scan(p, b, mid))
    decreases |b|
  {
    hide Scan, IsBenchmarkLine;
    if NL in b {
      var a, rest := SplitAt(b, NL);
      ScanConserves(p, rest, false);
      ScanOfLine(p, a, rest, mid);
      CutConserves(a + [NL], Finished(a + [NL], mid), rest, Scan(p, rest, false));
    } else if !mid && IsBenchmarkLine(p, b) {
      var a, rest := SplitAtTab(p, b);
      ScanOfBenchmark(p, a, rest);
      CutConserves(a + [TAB], Part(a + [TAB]), rest, Step(Buf(rest, true), []));
      assert [Part(a + [TAB])] + [] == [Part(a + [TAB])];
    } else {
      ScanOfFragment(p, b, mid);
    }
  }

  // Handing on x and treating rest conservatively conserves x + rest.
  lemma CutConserves(x: seq<byte>, c: Call, rest: seq<byte>, s: Step)
    requires c.x == x && Conserved(rest, s)
    ensures Conserved(x + rest, Prepend([c], s))
  {
    assert ([c] + s.calls)[1..] == s.calls;
    assert x + Flat(s.calls) + s.buf.pending == x + (Flat(s.calls) + s.buf.pending);
  }

  lemma RoundConserves(p: Params, buf: Buf, chunk: seq<byte>)
    requires p.cap >= 4 && |buf.pending| + |chunk| <= p.cap
    ensures Conserved(buf.pending + chunk, Round(p, buf, chunk))
  {
    hide Scan, Utf8.Trim;
    var b := buf.pending + chunk;
    ScanConserves(p, b, buf.mid);
    var t := Utf8.Trim(b);
    CutConserves(b[..t], Part(b[..t]), b[t..], Step(Buf(b[t..], true), []));
    assert b[..t] + b[t..] == b && [Part(b[..t])] + [] == [Part(b[..t])];
  }

  // Nothing a write is given is lost, added or reordered.
  lemma {:induction false} WriteConserves(p: Params, buf: Buf, w: seq<byte>)
    requires p.cap >= 4 && |buf.pending| < p.cap
    ensures Conserved(buf.pending + w, WriteTo(p, buf, w))
    decreases |w|
  {
    if w == [] {
      assert [] + buf.pending == buf.pending + w;
    } else {
      var m := Fits(p, buf, w);
      var chunk, rest := w[..m], w[m..];
      RoundConserves(p, buf, chunk);
      var r := Round(p, buf, chunk);
      WriteConserves(p, r.buf, rest);
      assert buf.pending + w == (buf.pending + chunk) + rest;
      ConservedThen(buf.pending + chunk, r, rest, WriteTo(p, r.buf, rest));
    }
  }

  // ------------------------------------------------------ shape of the calls

  ghost predicate TraceOf(mid: bool, s: Step) {
    Trace(mid, s.calls, s.buf.mid)
  }

  lemma {:induction false} ScanTrace(p: Params, b: seq<byte>, mid: bool)
    ensures TraceOf(mid, Scan(p, b, mid))
    ensures EndsLine(b) ==> Scan(p, b, mid).buf == EMPTY && Scan(p, b, mid).calls != []
    decreases |b|
  {
    hide Scan, IsBenchmarkLine, Trace;
    if NL in b {
      var a, rest := SplitAt(b, NL);
      ScanTrace(p, rest, false);
      ScanOfLine(p, a, rest, mid);
      ScanOfNothing(p, false);
      var c := Finished(a + [NL], mid);
      assert c.x[..|c.x| - 1] == a;
      TraceOfOne(c, mid);
      TraceAppend(mid, [c], false, Scan(p, rest, false).calls, Scan(p, rest, false).buf.mid);
    } else if !mid && IsBenchmarkLine(p, b) {
      var a, rest := SplitAtTab(p, b);
      ScanOfBenchmark(p, a, rest);
      TraceOfOne(Part(a + [TAB]), mid);
    } else {
      ScanOfFragment(p, b, mid);
      TraceOfNone(mid);
    }
  }

  lemma TraceOfNone(mid: bool)
    ensures Trace(mid, [], mid)
  {
  }

  lemma TraceOfOne(c: Call, mid: bool)
    requires c.x != [] && (c.Line? ==> !mid && EndsLine(c.x) && NL !in c.x[..|c.x| - 1])
    ensures Trace(mid, [c], !EndsLine(c.x))
  {
    assert [c][1..] == [];
  }

  lemma RoundTrace(p: Params, buf: Buf, chunk: seq<byte>)
    requires p.cap >= 4 && |buf.pending| + |chunk| <= p.cap
    ensures TraceOf(buf.mid, Round(p, buf, chunk))
    ensures EndsLine(chunk) ==> Round(p, buf, chunk).buf == EMPTY
  {
    hide Scan, IsBenchmarkLine, Utf8.Trim, Trace;
    var b := buf.pending + chunk;
    ScanTrace(p, b, buf.mid);
    ScanShape(p, b, buf.mid);
    var t := Utf8.Trim(b);
    if Scan(p, b, buf.mid).calls == [] && |b| == p.cap {
      assert NL !in b;
      TraceOfOne(Part(b[..t]), buf.mid);
    }
  }

  // The calls of a write are a proper trace, and a write that ends a line
  // leaves nothing behind.
  lemma {:induction false} WriteTrace(p: Params, buf: Buf, w: seq<byte>)
    requires p.cap >= 4 && |buf.pending| < p.cap
    ensures TraceOf(buf.mid, WriteTo(p, buf, w))
    ensures EndsLine(w) ==> WriteTo(p, buf, w).buf == EMPTY
    decreases |w|
  {
    hide Round, Trace;
    TraceOfNone(buf.mid);
    if w != [] {
      var m := Fits(p, buf, w);
      var chunk, rest := w[..m], w[m..];
      RoundTrace(p, buf, chunk);
      var r := Round(p, buf, chunk);
      WriteTrace(p, r.buf, rest);
      TraceAppend(buf.mid, r.calls, r.buf.mid, WriteTo(p, r.buf, rest).calls, WriteTo(p, r.buf, rest).buf.mid);
      if rest == [] {
        assert chunk == w;
      }
    }
  }

  // ------------------------------------------------------------------- UTF-8

  ghost predicate Whole(s: Step, future: seq<byte>) {
    AllValid(s.calls) && Utf8.Valid(s.buf.pending + future)
  }

  lemma {:induction false} ScanKeepsUtf8(p: Params, b: seq<byte>, mid: bool, future: seq<byte>)
    requires Utf8.Valid(b + future)
    ensures Whole(Scan(p, b, mid), future)
    decreases |b|
  {
    hide Utf8.Valid, Utf8.CharLen, Scan, IsBenchmarkLine;
    if NL in b {
      var a, rest := SplitAt(b, NL);
      assert b + future == a + [NL] + (rest + future);
      Utf8.AsciiIsBoundary(a, NL, rest + future);
      ScanKeepsUtf8(p, rest, false, future);
      ScanOfLine(p, a, rest, mid);
    } else if !mid && IsBenchmarkLine(p, b) {
      var a, rest := SplitAtTab(p, b);
      assert b + future == a + [TAB] + (rest + future);
      Utf8.AsciiIsBoundary(a, TAB, rest + future);
      ScanOfBenchmark(p, a, rest);
    } else {
      ScanOfFragment(p, b, mid);
    }
  }

  // If the stream is valid, so is every slice handed on, and what is held back
  // is valid together with what is still to come.
  lemma {:induction false} WriteKeepsUtf8(p: Params, buf: Buf, w: seq<byte>, future: seq<byte>)
    requires p.cap >= 4 && |buf.pending| < p.cap
    requires Utf8.Valid(buf.pending + w + future)
    ensures Whole(WriteTo(p, buf, w), future)
    decreases |w|
  {
    hide Utf8.Valid, Utf8.CharLen, Scan, Utf8.Trim;
    if w == [] {
      assert buf.pending + w == buf.pending;
    } else {
      var m := Fits(p, buf, w);
      var chunk, rest := w[..m], w[m..];
      assert buf.pending + w + future == buf.pending + chunk + (rest + future);
      ScanKeepsUtf8(p, buf.pending + chunk, buf.mid, rest + future);
      Utf8.TrimKeepsCharacters(buf.pending + chunk, rest + future);
      var r := Round(p, buf, chunk);
      assert r.buf.pending + (rest + future) == r.buf.pending + rest + future;
      WriteKeepsUtf8(p, r.buf, rest, future);
    }
  }
}
