// The calls of a lineBuffer as a function of the byte stream alone, and exactly
// when the way the stream was cut into writes cannot be seen.
module Tokenizer {
  import opened Bytes
  import opened Sequences
  import opened LineBuffers
  import opened LineLaws
  import Utf8

  // The reference: one byte at a time, no buffer management.
  function Token(p: Params, buf: Buf, c: byte): Step {
    var x := buf.pending + [c];
    if c == NL then Step(EMPTY, [Finished(x, buf.mid)])
    else if !buf.mid && IsBenchmarkLine(p, x) then Step(Buf([], true), [Part(x)])
    else if |x| >= p.cap then
      var t := Utf8.Trim(x);
      Step(Buf(x[t..], true), [Part(x[..t])])
    else Step(Buf(x, buf.mid), [])
  }

  function Feed(p: Params, buf: Buf, s: seq<byte>): Step
    decreases |s|
  {
    if s == [] then Step(buf, [])
    else
      var r := Token(p, buf, s[0]);
      Prepend(r.calls, Feed(p, r.buf, s[1..]))
  }

  // What holds of a buffer between writes.
  ghost predicate Settled(p: Params, buf: Buf) {
    p.cap >= 4 && |buf.pending| < p.cap && NL !in buf.pending
    && (buf.mid || !IsBenchmarkLine(p, buf.pending))
  }

  lemma EmptyIsSettled(p: Params)
    requires p.cap >= 4
    ensures Settled(p, EMPTY)
  {
  }

  // No line that ends within s and fits the buffer is a benchmark line.
  predicate NoShortBenchmark(p: Params, buf: Buf, s: seq<byte>)
    decreases |s|
  {
    var j := IndexOf(s, NL);
    j < 0
    || ((buf.mid || |buf.pending| + j + 1 > p.cap || !IsBenchmarkLine(p, buf.pending + s[..j]))
        && NoShortBenchmark(p, EMPTY, s[j + 1..]))
  }

  // ------------------------------------------------------------- small facts

  lemma BenchmarkLineGrows(p: Params, x: seq<byte>, y: seq<byte>)
    ensures TAB in x ==> IsBenchmarkLine(p, x + y) == IsBenchmarkLine(p, x)
    ensures IsBenchmarkLine(p, x) ==> TAB in x
  {
    if TAB in x {
      var t := IndexOf(x, TAB);
      IndexIs(x + y, TAB, t);
      assert (x + y)[..t] == x[..t];
    }
  }

  lemma {:induction false} FeedConcat(p: Params, buf: Buf, a: seq<byte>, b: seq<byte>)
    ensures Feed(p, buf, a + b) == Prepend(Feed(p, buf, a).calls, Feed(p, Feed(p, buf, a).buf, b))
    decreases |a|
  {
    if a == [] {
      assert a + b == b;
    } else {
      var r := Token(p, buf, a[0]);
      assert (a + b)[1..] == a[1..] + b;
      FeedConcat(p, r.buf, a[1..], b);
      PrependTwice(r.calls, Feed(p, r.buf, a[1..]).calls, Feed(p, Feed(p, buf, a).buf, b));
    }
  }

  lemma FeedOne(p: Params, buf: Buf, c: byte)
    ensures Feed(p, buf, [c]) == Token(p, buf, c)
  {
    var r := Token(p, buf, c);
    assert Feed(p, r.buf, []) == Step(r.buf, []);
  }

  lemma FeedThen(p: Params, buf: Buf, a: seq<byte>, c: byte, b: seq<byte>)
    requires Feed(p, buf, a) == Step(Buf(buf.pending + a, buf.mid), [])
    ensures Feed(p, buf, a + [c] + b) ==
      var r := Token(p, Buf(buf.pending + a, buf.mid), c);
      Prepend(r.calls, Feed(p, r.buf, b))
  {
    hide Token, Feed;
    FeedConcat(p, buf, a + [c], b);
    FeedConcat(p, buf, a, [c]);
    FeedOne(p, Buf(buf.pending + a, buf.mid), c);
  }

  // Bytes that end no line, make no benchmark name and leave room just wait.
  lemma {:induction false} FeedQuiet(p: Params, buf: Buf, a: seq<byte>)
    requires Settled(p, buf) && NL !in a && |buf.pending| + |a| < p.cap
    requires buf.mid || !IsBenchmarkLine(p, buf.pending + a)
    ensures Feed(p, buf, a) == Step(Buf(buf.pending + a, buf.mid), [])
    decreases |a|
  {
    if a == [] {
      assert buf.pending + a == buf.pending;
    } else {
      var x := buf.pending + [a[0]];
      assert buf.pending + a == x + a[1..];
      BenchmarkLineGrows(p, x, a[1..]);
      FeedQuiet(p, Buf(x, buf.mid), a[1..]);
    }
  }

  // ------------------------------------------------- a round is its own bytes

  lemma {:induction false} RoundIsFeed(p: Params, buf: Buf, chunk: seq<byte>)
    requires Settled(p, buf) && |buf.pending| + |chunk| <= p.cap
    requires NoShortBenchmark(p, buf, chunk)
    ensures Round(p, buf, chunk) == Feed(p, buf, chunk)
    decreases |chunk|
  {
    if NL in chunk {
      var a, rest := SplitAt(chunk, NL);
      FirstLineOf(p, buf, a, rest);
      RoundWithLine(p, buf, a, rest);
      RoundIsFeed(p, EMPTY, rest);
    } else if !buf.mid && IsBenchmarkLine(p, buf.pending + chunk) {
      BenchmarkLineGrows(p, buf.pending, chunk);
      var a, rest := SplitAt(chunk, TAB);
      RoundWithBenchmark(p, buf, a, rest);
    } else {
      RoundWithFragment(p, buf, chunk);
    }
  }

  lemma NoLine(p: Params, buf: Buf, s: seq<byte>)
    requires NL !in s
    ensures NoShortBenchmark(p, buf, s)
  {
  }

  lemma FirstLineOf(p: Params, buf: Buf, a: seq<byte>, rest: seq<byte>)
    requires NL !in a
    ensures NoShortBenchmark(p, buf, a + [NL] + rest) <==>
      && (buf.mid || |buf.pending| + |a| + 1 > p.cap || !IsBenchmarkLine(p, buf.pending + a))
      && NoShortBenchmark(p, EMPTY, rest)
  {
    var s := a + [NL] + rest;
    IndexIs(s, NL, |a|);
    assert s[..|a|] == a && s[|a| + 1..] == rest;
  }

  lemma RoundWithLine(p: Params, buf: Buf, a: seq<byte>, rest: seq<byte>)
    requires Settled(p, buf) && NL !in a && |buf.pending| + |a| + 1 + |rest| <= p.cap
    requires buf.mid || !IsBenchmarkLine(p, buf.pending + a)
    ensures var line := [Finished(buf.pending + a + [NL], buf.mid)];
      && Round(p, buf, a + [NL] + rest) == Prepend(line, Round(p, EMPTY, rest))
      && Feed(p, buf, a + [NL] + rest) == Prepend(line, Feed(p, EMPTY, rest))
  {
    hide Round, IsBenchmarkLine, Feed;
    RoundOfLine(p, buf, a, rest);
    FeedQuiet(p, buf, a);
    FeedThen(p, buf, a, NL, rest);
  }

  lemma RoundOfLine(p: Params, buf: Buf, a: seq<byte>, rest: seq<byte>)
    requires Settled(p, buf) && NL !in a && |buf.pending| + |a| + 1 + |rest| <= p.cap
    ensures Round(p, buf, a + [NL] + rest) ==
      Prepend([Finished(buf.pending + a + [NL], buf.mid)], Round(p, EMPTY, rest))
  {
    hide Scan, IsBenchmarkLine, Utf8.Trim;
    var head := buf.pending + a;
    assert buf.pending + (a + [NL] + rest) == head + [NL] + rest;
    assert NL !in head;
    ScanOfLine(p, head, rest, buf.mid);
    assert [] + rest == rest;
    ScanShape(p, rest, false);
  }

  lemma RoundWithBenchmark(p: Params, buf: Buf, a: seq<byte>, rest: seq<byte>)
    requires Settled(p, buf) && |buf.pending| + |a| + 1 + |rest| <= p.cap
    requires NL !in a && NL !in rest && TAB !in buf.pending && TAB !in a && !buf.mid
    requires IsBenchmarkLine(p, buf.pending + (a + [TAB] + rest))
    ensures Round(p, buf, a + [TAB] + rest) == Feed(p, buf, a + [TAB] + rest)
  {
    hide Scan, IsBenchmarkLine, Feed;
    var head := buf.pending + a;
    assert buf.pending + (a + [TAB] + rest) == head + [TAB] + rest;
    ScanOfBenchmark(p, head, rest);
    BenchmarkLineGrows(p, head + [TAB], rest);
    FeedBenchmark(p, buf, a, rest);
  }

  lemma FeedBenchmark(p: Params, buf: Buf, a: seq<byte>, rest: seq<byte>)
    requires Settled(p, buf) && |buf.pending| + |a| + 1 + |rest| <= p.cap
    requires NL !in a && NL !in rest && TAB !in buf.pending && TAB !in a && !buf.mid
    requires IsBenchmarkLine(p, buf.pending + a + [TAB])
    ensures Feed(p, buf, a + [TAB] + rest) == Step(Buf(rest, true), [Part(buf.pending + a + [TAB])])
  {
    hide Feed, IsBenchmarkLine;
    BenchmarkLineGrows(p, buf.pending + a, []);
    FeedQuiet(p, buf, a);
    FeedThen(p, buf, a, TAB, rest);
    FeedQuiet(p, Buf([], true), rest);
    assert [] + rest == rest;
  }

  lemma RoundWithFragment(p: Params, buf: Buf, chunk: seq<byte>)
    requires Settled(p, buf) && |buf.pending| + |chunk| <= p.cap && NL !in chunk
    requires buf.mid || !IsBenchmarkLine(p, buf.pending + chunk)
    ensures Round(p, buf, chunk) == Feed(p, buf, chunk)
  {
    hide Scan, IsBenchmarkLine, Feed, Utf8.Trim;
    ScanOfFragment(p, buf.pending + chunk, buf.mid);
    if |buf.pending| + |chunk| < p.cap {
      FeedQuiet(p, buf, chunk);
    } else {
      var a, c := chunk[..|chunk| - 1], chunk[|chunk| - 1];
      assert chunk == a + [c] && c in chunk;
      assert buf.pending + chunk == buf.pending + a + [c];
      BenchmarkLineGrows(p, buf.pending + a, [c]);
      FeedQuiet(p, buf, a);
      FeedConcat(p, buf, a, [c]);
      FeedOne(p, Buf(buf.pending + a, buf.mid), c);
    }
  }

  // ------------------------------------------------------ whole write streams

  lemma SettledAfterToken(p: Params, buf: Buf, c: byte)
    requires Settled(p, buf)
    ensures Settled(p, Token(p, buf, c).buf)
  {
    var x := buf.pending + [c];
    BenchmarkLineGrows(p, [], []);
    assert forall i | 0 <= i < |x| - 1 :: x[i] in buf.pending;
  }

  lemma {:induction false} SettledAfterFeed(p: Params, buf: Buf, s: seq<byte>)
    requires Settled(p, buf)
    ensures Settled(p, Feed(p, buf, s).buf)
    decreases |s|
  {
    if s != [] {
      SettledAfterToken(p, buf, s[0]);
      SettledAfterFeed(p, Token(p, buf, s[0]).buf, s[1..]);
    }
  }

  // The capacity that counts as short may be another one, of q.
  lemma QuietAfterToken(p: Params, q: Params, buf: Buf, c: byte, s: seq<byte>)
    requires Settled(p, buf) && NoShortBenchmark(q, buf, [c] + s)
    ensures NoShortBenchmark(q, Token(p, buf, c).buf, s)
  {
    hide IsBenchmarkLine, NoShortBenchmark, Utf8.Trim;
    if c == NL {
      assert [] + [NL] + s == [c] + s;
      FirstLineOf(q, buf, [], s);
    } else if NL in s {
      var a, rest := SplitAt(s, NL);
      assert [c] + s == ([c] + a) + [NL] + rest;
      FirstLineOf(q, buf, [c] + a, rest);
      FirstLineOf(q, Token(p, buf, c).buf, a, rest);
      assert buf.pending + ([c] + a) == (buf.pending + [c]) + a;
    } else {
      NoLine(q, Token(p, buf, c).buf, s);
    }
  }

  lemma {:induction false} QuietAfterFeed(p: Params, q: Params, buf: Buf, a: seq<byte>, b: seq<byte>)
    requires Settled(p, buf) && NoShortBenchmark(q, buf, a + b)
    ensures NoShortBenchmark(q, Feed(p, buf, a).buf, b)
    decreases |a|
  {
    if a == [] {
      assert a + b == b;
    } else {
      assert a + b == [a[0]] + (a[1..] + b);
      QuietAfterToken(p, q, buf, a[0], a[1..] + b);
      SettledAfterToken(p, buf, a[0]);
      QuietAfterFeed(p, q, Token(p, buf, a[0]).buf, a[1..], b);
    }
  }

  lemma {:induction false} QuietPrefix(p: Params, buf: Buf, a: seq<byte>, b: seq<byte>)
    requires NoShortBenchmark(p, buf, a + b)
    ensures NoShortBenchmark(p, buf, a)
    decreases |a|
  {
    if NL in a {
      var x, rest := SplitAt(a, NL);
      assert a + b == x + [NL] + (rest + b);
      FirstLineOf(p, buf, x, rest + b);
      FirstLineOf(p, buf, x, rest);
      QuietPrefix(p, EMPTY, rest, b);
    }
  }

  lemma {:induction false} WriteIsFeed(p: Params, buf: Buf, w: seq<byte>)
    requires Settled(p, buf) && NoShortBenchmark(p, buf, w)
    ensures WriteTo(p, buf, w) == Feed(p, buf, w)
    decreases |w|
  {
    if w != [] {
      var m := Fits(p, buf, w);
      var chunk, rest := w[..m], w[m..];
      assert w == chunk + rest;
      QuietPrefix(p, buf, chunk, rest);
      QuietAfterFeed(p, p, buf, chunk, rest);
      RoundIsFeed(p, buf, chunk);
      SettledAfterFeed(p, buf, chunk);
      FeedConcat(p, buf, chunk, rest);
      WriteIsFeed(p, Feed(p, buf, chunk).buf, rest);
    }
  }

  // However the stream is cut, the calls are those of the tokenizer.
  lemma {:induction false} WritesAreFeed(p: Params, buf: Buf, ws: seq<seq<byte>>)
    requires Settled(p, buf) && NoShortBenchmark(p, buf, Concat(ws))
    ensures WriteAll(p, buf, ws) == Feed(p, buf, Concat(ws))
    decreases |ws|
  {
    if ws != [] {
      QuietPrefix(p, buf, ws[0], Concat(ws[1..]));
      QuietAfterFeed(p, p, buf, ws[0], Concat(ws[1..]));
      WriteIsFeed(p, buf, ws[0]);
      SettledAfterFeed(p, buf, ws[0]);
      FeedConcat(p, buf, ws[0], Concat(ws[1..]));
      WritesAreFeed(p, Feed(p, buf, ws[0]).buf, ws[1..]);
    }
  }

  // -------------------------------------- exactly when the cuts cannot be seen

  // Every way to cut s into writes gives the same calls and the same rest.
  ghost predicate CutsInvisible(p: Params, s: seq<byte>)
    requires p.cap >= 4
  {
    forall ws, vs :: Concat(ws) == s && Concat(vs) == s ==> WriteAll(p, EMPTY, ws) == WriteAll(p, EMPTY, vs)
  }

  // A short benchmark line, and where it stands in s.
  lemma {:induction false} FindShortBenchmark(p: Params, s: seq<byte>)
    returns (a: seq<byte>, line: seq<byte>, rest: seq<byte>)
    requires !NoShortBenchmark(p, EMPTY, s)
    ensures s == a + (line + [NL] + rest) && (a == [] || EndsLine(a))
    ensures NL !in line && |line| + 1 <= p.cap && IsBenchmarkLine(p, line)
    decreases |s|
  {
    hide IsBenchmarkLine;
    assert NL in s by {
      assert IndexOf(s, NL) >= 0;
    }
    var l, r := SplitAt(s, NL);
    FirstLineOf(p, EMPTY, l, r);
    hide NoShortBenchmark;
    assert [] + l == l;
    if |l| + 1 <= p.cap && IsBenchmarkLine(p, l) {
      a, line, rest := [], l, r;
      assert [] + s == s;
    } else {
      a, line, rest := FindShortBenchmark(p, r);
      Assoc(l + [NL], a, line + [NL] + rest);
      a := l + [NL] + a;
    }
  }

  lemma WriteInOneRound(p: Params, w: seq<byte>)
    requires p.cap >= 4 && 0 < |w| <= p.cap
    ensures WriteTo(p, EMPTY, w) == Round(p, EMPTY, w)
  {
    var r := Round(p, EMPTY, w);
    assert Fits(p, EMPTY, w) == |w| && w[..|w|] == w && w[|w|..] == [];
    assert WriteTo(p, r.buf, []) == Step(r.buf, []);
  }

  // Written on its own a line is a Line; a benchmark line cut behind its tab starts
  // with a Part.
  lemma WriteWholeLine(p: Params, line: seq<byte>)
    requires p.cap >= 4 && NL !in line && |line| + 1 <= p.cap
    ensures WriteTo(p, EMPTY, line + [NL]).calls == [Line(line + [NL])]
  {
    hide Scan, WriteTo;
    WriteInOneRound(p, line + [NL]);
    assert line + [NL] + [] == line + [NL] && [] + (line + [NL]) == line + [NL];
    ScanOfLine(p, line, [], false);
    ScanOfNothing(p, false);
  }

  lemma WriteBenchmarkName(p: Params, a: seq<byte>)
    requires p.cap >= 4 && NL !in a && TAB !in a && |a| + 1 <= p.cap && IsBenchmarkLine(p, a + [TAB])
    ensures WriteTo(p, EMPTY, a + [TAB]).calls == [Part(a + [TAB])]
  {
    hide Scan, WriteTo, IsBenchmarkLine;
    var head := a + [TAB];
    WriteInOneRound(p, head);
    assert head + [] == head && [] + head == head;
    ScanOfBenchmark(p, a, []);
  }

  lemma FirstCallAfter(p: Params, a: seq<byte>, w: seq<byte>, rest: seq<byte>, c: Call)
    requires p.cap >= 4 && (a == [] || EndsLine(a)) && WriteTo(p, EMPTY, w).calls == [c]
    ensures var calls := WriteTo(p, EMPTY, a).calls;
      |WriteAll(p, EMPTY, [a, w, rest]).calls| > |calls|
      && WriteAll(p, EMPTY, [a, w, rest]).calls[|calls|] == c
  {
    hide WriteTo;
    WriteTrace(p, EMPTY, a);
    WriteNothing(p);
    var r := WriteTo(p, EMPTY, w);
    assert [a, w, rest][1..] == [w, rest] && [w, rest][1..] == [rest];
    var s := WriteAll(p, r.buf, [rest]);
    assert WriteAll(p, EMPTY, [w, rest]) == Prepend([c], s);
  }

  lemma WriteNothing(p: Params)
    requires p.cap >= 4
    ensures WriteTo(p, EMPTY, []).buf == EMPTY
  {
  }

  lemma ConcatThree(a: seq<byte>, b: seq<byte>, c: seq<byte>)
    ensures Concat([a, b, c]) == a + b + c
  {
    assert [a, b, c][1..] == [b, c] && [b, c][1..] == [c] && [c][1..] == [];
    assert Concat([c]) == c + [] == c;
    assert Concat([b, c]) == b + c;
  }

  // The cuts are invisible for exactly the streams without a short benchmark line.
  lemma CutsInvisibleIff(p: Params, s: seq<byte>)
    requires p.cap >= 4
    ensures CutsInvisible(p, s) <==> NoShortBenchmark(p, EMPTY, s)
  {
    hide WriteAll, WriteTo, NoShortBenchmark, Concat, IsBenchmarkLine, Feed;
    if NoShortBenchmark(p, EMPTY, s) {
      EmptyIsSettled(p);
      forall ws, vs | Concat(ws) == s && Concat(vs) == s
        ensures WriteAll(p, EMPTY, ws) == WriteAll(p, EMPTY, vs)
      {
        WritesAreFeed(p, EMPTY, ws);
        WritesAreFeed(p, EMPTY, vs);
      }
    } else {
      var a, line, rest := FindShortBenchmark(p, s);
      var name, tail := SplitAtTab(p, line);
      var head := name + [TAB];
      WriteWholeLine(p, line);
      BenchmarkLineGrows(p, head, tail);
      WriteBenchmarkName(p, name);
      var ws, vs := [a, line + [NL], rest], [a, head, tail + [NL] + rest];
      ConcatThree(a, line + [NL], rest);
      ConcatThree(a, head, tail + [NL] + rest);
      assert a + (line + [NL]) + rest == a + (line + [NL] + rest);
      assert a + head + (tail + [NL] + rest) == a + (head + tail + [NL] + rest);
      assert Concat(ws) == s && Concat(vs) == s;
      FirstCallAfter(p, a, line + [NL], rest, Line(line + [NL]));
      FirstCallAfter(p, a, head, tail + [NL] + rest, Part(head));
    }
  }
}
