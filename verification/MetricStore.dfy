// StorePrometheusMetricsWithBuffer: rows are gathered into INSERT statements
// that fit a byte cap. A row is the SQL text of one metric.
module MetricStore {
  import opened Sequences

  datatype Result = Success | Cancelled | InsertFailed | TooBig(index: nat)

  // What the context and the queryer do: whether the context is cancelled when
  // row i is reached, and whether the n-th insert succeeds.
  datatype Env = Env(cancelled: nat -> bool, insertOk: nat -> bool)

  const VALUES := "VALUES "

  function FormatInsert(table: string, query: string): string {
    "INSERT INTO " + table + " " + query
  }

  function Join(rows: seq<string>): string {
    if rows == [] then ""
    else if |rows| == 1 then rows[0]
    else Join(rows[..|rows| - 1]) + "," + rows[|rows| - 1]
  }

  // The text of the query buffer when it holds these rows.
  function Body(rows: seq<string>): string {
    VALUES + Join(rows)
  }

  predicate Fits(cap: int, rows: seq<string>) {
    |Body(rows)| <= cap
  }

  lemma BodyGrows(rows: seq<string>, row: string)
    ensures rows == [] ==> Body(rows + [row]) == VALUES + row
    ensures rows != [] ==> Body(rows + [row]) == Body(rows) + ("," + row)
  {
    var all := rows + [row];
    assert all[..|all| - 1] == rows;
  }

  // ------------------------------------------------------ the loop, on values

  datatype Outcome = Outcome(batches: seq<seq<string>>, result: Result)

  // The loop from row i on, with cur in the buffer and n inserts made.
  function Greedy(env: Env, cap: int, rows: seq<string>, i: nat, cur: seq<string>, n: nat): Outcome
    requires i <= |rows|
    decreases |rows| - i
  {
    if i == |rows| then Outcome([], Success)
    else if env.cancelled(i) then Outcome([], Cancelled)
    else
      var flush := cur != [] && !Fits(cap, cur + [rows[i]]);
      if flush && !env.insertOk(n) then Outcome([], InsertFailed)
      else
        var done := if flush then [cur] else [];
        var next := (if flush then [] else cur) + [rows[i]];
        if !Fits(cap, next) then Outcome(done, TooBig(i))
        else if i < |rows| - 1 then
          var o := Greedy(env, cap, rows, i + 1, next, n + |done|);
          Outcome(done + o.batches, o.result)
        else if env.insertOk(n + |done|) then Outcome(done + [next], Success)
        else Outcome(done, InsertFailed)
  }

  function Statements(table: string, batches: seq<seq<string>>): seq<string> {
    if batches == [] then [] else [FormatInsert(table, Body(batches[0]))] + Statements(table, batches[1..])
  }

  lemma StatementsCons(table: string, h: seq<string>, t: seq<seq<string>>)
    ensures Statements(table, [h] + t) == [FormatInsert(table, Body(h))] + Statements(table, t)
  {
    assert ([h] + t)[1..] == t;
  }

  lemma {:induction false} StatementsAppend(table: string, a: seq<seq<string>>, b: seq<seq<string>>)
    ensures Statements(table, a + b) == Statements(table, a) + Statements(table, b)
  {
    if a == [] {
      assert a + b == b;
    } else {
      hide Body, FormatInsert;
      StatementsAppend(table, a[1..], b);
      StatementsCons(table, a[0], a[1..] + b);
      assert a + b == [a[0]] + (a[1..] + b);
      Assoc([FormatInsert(table, Body(a[0]))], Statements(table, a[1..]), Statements(table, b));
    }
  }

  // stmts are the statements that Presto executed, in order.
  method StoreMetrics(env: Env, capacity: int, table: string, rows: seq<string>)
    returns (stmts: seq<string>, result: Result)
    ensures
      var o := Greedy(env, capacity - |FormatInsert(table, "")|, rows, 0, [], 0);
      stmts == Statements(table, o.batches) && result == o.result
  {
    hide Body, FormatInsert, Statements, Greedy, After;
    var queryCap := capacity - |FormatInsert(table, "")|;
    var queryBuf, metricsInBuffer := "", false;
    ghost var cur: seq<string>, made: seq<seq<string>> := [], [];
    ghost var whole := Greedy(env, queryCap, rows, 0, [], 0);
    stmts := [];
    StatementsOfNone(table);
    GreedyAtStart(env, queryCap, rows);
    var i := 0;
    while i < |rows|
      invariant i <= |rows| && metricsInBuffer == (cur != []) && (i == |rows| ==> whole == Outcome(made, Success))
      invariant queryBuf == (if cur == [] then "" else Body(cur))
      invariant stmts == Statements(table, made) && |stmts| == |made|
      invariant i < |rows| ==> whole == After(made, Greedy(env, queryCap, rows, i, cur, |stmts|))
    {
      if env.cancelled(i) {
        GreedyCancelled(env, queryCap, rows, i, cur, |stmts|, made);
        return stmts, Cancelled;
      }
      var row := rows[i];
      BodyGrows(cur, row);
      BodyGrows([], row);
      assert [] + [row] == [row];
      GreedyStep(env, queryCap, rows, i, cur, |stmts|, made, whole);
      if metricsInBuffer {
        if |"," + row| + |queryBuf| > queryCap {
          if !env.insertOk(|stmts|) {
            return stmts, InsertFailed;
          }
          StatementsOfOne(table, made, cur);
          stmts := stmts + [FormatInsert(table, queryBuf)];
          made := made + [cur];
          queryBuf, cur := "", [];
          metricsInBuffer := false;
        }
      }
      var toWrite := if !metricsInBuffer then VALUES + row else "," + row;
      if |toWrite| + |queryBuf| > queryCap {
        return stmts, TooBig(i);
      }
      queryBuf := queryBuf + toWrite;
      cur := cur + [row];
      metricsInBuffer := true;
      if i == |rows| - 1 {
        if !env.insertOk(|stmts|) {
          return stmts, InsertFailed;
        }
        assert queryBuf == Body(cur);
        StatementsOfOne(table, made, cur);
        stmts := stmts + [FormatInsert(table, queryBuf)];
        made := made + [cur];
        queryBuf := "";
        return stmts, Success;
      }
      i := i + 1;
    }
    result := Success;
  }

  function After(made: seq<seq<string>>, o: Outcome): Outcome {
    Outcome(made + o.batches, o.result)
  }

  lemma GreedyCancelled(env: Env, cap: int, rows: seq<string>, i: nat, cur: seq<string>, n: nat,
                        made: seq<seq<string>>)
    requires i < |rows| && env.cancelled(i)
    ensures After(made, Greedy(env, cap, rows, i, cur, n)) == Outcome(made, Cancelled)
  {
    assert made + [] == made;
  }

  lemma GreedyAtStart(env: Env, cap: int, rows: seq<string>)
    ensures var whole := Greedy(env, cap, rows, 0, [], 0);
      whole == After([], whole) && (rows == [] ==> whole == Outcome([], Success))
  {
    var whole := Greedy(env, cap, rows, 0, [], 0);
    assert [] + whole.batches == whole.batches;
  }

  lemma StatementsOfNone(table: string)
    ensures Statements(table, []) == []
  {
  }

  lemma StatementsOfOne(table: string, made: seq<seq<string>>, batch: seq<string>)
    ensures Statements(table, made + [batch]) == Statements(table, made) + [FormatInsert(table, Body(batch))]
  {
    hide Body, FormatInsert;
    StatementsAppend(table, made, [batch]);
    assert [batch][1..] == [];
    assert Statements(table, [batch]) == [FormatInsert(table, Body(batch))];
  }

  // One turn of the loop, seen from the whole.
  lemma GreedyStep(env: Env, cap: int, rows: seq<string>, i: nat, cur: seq<string>, n: nat,
                   made: seq<seq<string>>, whole: Outcome)
    requires i < |rows| && !env.cancelled(i) && whole == After(made, Greedy(env, cap, rows, i, cur, n))
    ensures
      var flush := cur != [] && !Fits(cap, cur + [rows[i]]);
      var done := if flush then made + [cur] else made;
      var next := (if flush then [] else cur) + [rows[i]];
      var m := if flush then n + 1 else n;
      if flush && !env.insertOk(n) then whole == Outcome(made, InsertFailed)
      else if !Fits(cap, next) then whole == Outcome(done, TooBig(i))
      else if i < |rows| - 1 then whole == After(done, Greedy(env, cap, rows, i + 1, next, m))
      else if env.insertOk(m) then whole == Outcome(done + [next], Success)
      else whole == Outcome(done, InsertFailed)
  {
    hide Fits;
    var flush := cur != [] && !Fits(cap, cur + [rows[i]]);
    var next := (if flush then [] else cur) + [rows[i]];
    assert made + [] == made;
    if i < |rows| - 1 {
      var o := Greedy(env, cap, rows, i + 1, next, if flush then n + 1 else n);
      if flush {
        assert (made + [cur]) + o.batches == made + ([cur] + o.batches);
      } else {
        assert [] + o.batches == o.batches;
      }
    } else if flush {
      assert (made + [cur]) + [next] == made + ([cur] + [next]);
    } else {
      assert [] + [next] == [next];
    }
  }

  // ----------------------------------------------------- what it all amounts to

  ghost predicate AllFit(cap: int, bs: seq<seq<string>>) {
    forall k :: 0 <= k < |bs| ==> Fits(cap, bs[k])
  }

  ghost predicate FitsAlone(cap: int, row: string) {
    Fits(cap, [row])
  }

  // The bytes of the rows and of the commas between them.
  function JoinLen(rows: seq<string>): nat {
    if rows == [] then 0
    else |rows[0]| + (if |rows| == 1 then 0 else 1 + JoinLen(rows[1..]))
  }

  lemma {:induction false} JoinLenSnoc(rows: seq<string>, row: string)
    ensures JoinLen(rows + [row]) == (if rows == [] then |row| else JoinLen(rows) + 1 + |row|)
  {
    if rows != [] {
      JoinLenSnoc(rows[1..], row);
      assert (rows + [row])[1..] == rows[1..] + [row];
    }
  }

  lemma {:induction false} JoinLength(rows: seq<string>)
    ensures |Join(rows)| == JoinLen(rows)
    decreases |rows|
  {
    if |rows| > 1 {
      var n := |rows| - 1;
      JoinLength(rows[..n]);
      JoinLenSnoc(rows[..n], rows[n]);
      assert rows[..n] + [rows[n]] == rows;
    }
  }

  lemma {:induction false} JoinLenParts(a: seq<string>, b: seq<string>)
    ensures JoinLen(a) <= JoinLen(a + b) && JoinLen(b) <= JoinLen(a + b)
    decreases |a|
  {
    if a == [] {
      assert a + b == b;
    } else {
      JoinLenParts(a[1..], b);
      assert (a + b)[1..] == a[1..] + b;
      if a[1..] + b == [] {
        assert b == [];
      }
    }
  }

  // Parts of a batch that fits also fit.
  lemma FitsParts(cap: int, a: seq<string>, b: seq<string>)
    requires Fits(cap, a + b)
    ensures Fits(cap, a) && Fits(cap, b)
  {
    hide Join, JoinLen;
    JoinLength(a);
    JoinLength(b);
    JoinLength(a + b);
    JoinLenParts(a, b);
  }

  // What the outcome of the loop from (cur, rows[i..]) promises.
  ghost predicate Sound(env: Env, cap: int, rows: seq<string>, i: nat, cur: seq<string>, o: Outcome)
    requires i <= |rows|
  {
    && AllFit(cap, o.batches)
    && (o.result.Success? ==> Concat(o.batches) == cur + rows[i..]
                              && forall k :: i <= k < |rows| ==> FitsAlone(cap, rows[k]))
    && Concat(o.batches) <= cur + rows[i..]
    && (o.result.TooBig? ==>
          var k := o.result.index;
          && i <= k < |rows| && !FitsAlone(cap, rows[k]) && Concat(o.batches) == cur + rows[i..k]
          && forall j :: i <= j < k ==> FitsAlone(cap, rows[j]))
    && (o.result.Cancelled? ==> exists k :: i <= k < |rows| && env.cancelled(k))
    && (o.result.InsertFailed? ==> exists n :: !env.insertOk(n))
  }

  lemma {:induction false} GreedySound(env: Env, cap: int, rows: seq<string>, i: nat, cur: seq<string>, n: nat)
    requires i < |rows| && (cur != [] ==> Fits(cap, cur))
    ensures Sound(env, cap, rows, i, cur, Greedy(env, cap, rows, i, cur, n))
    decreases |rows| - i
  {
    hide Fits;
    var o := Greedy(env, cap, rows, i, cur, n);
    assert rows[i..][0] == rows[i];
    if !env.cancelled(i) {
      var flush := cur != [] && !Fits(cap, cur + [rows[i]]);
      if !flush || env.insertOk(n) {
        var kept := if flush then [] else cur;
        var done := if flush then [cur] else [];
        var next := kept + [rows[i]];
        assert Concat(done) + kept == cur by {
          assert [cur][1..] == [];
        }
        if !Fits(cap, next) {
          NotEvenAlone(cap, cur, rows[i]);
          assert rows[i..i] == [] && cur + [] == cur;
        } else {
          FitsParts(cap, kept, [rows[i]]);
          if i < |rows| - 1 {
            var p := Greedy(env, cap, rows, i + 1, next, n + |done|);
            GreedySound(env, cap, rows, i + 1, next, n + |done|);
            SoundStep(env, cap, rows, i, cur, done, kept, p);
          } else {
            SoundLast(env, cap, rows, i, cur, done, kept);
            assert o == Outcome(done + [next], Success) || o == Outcome(done, InsertFailed);
          }
        }
      }
    }
  }

  // If a row does not fit a fresh buffer it did not fit behind cur either.
  lemma NotEvenAlone(cap: int, cur: seq<string>, row: string)
    requires !Fits(cap, (if cur != [] && !Fits(cap, cur + [row]) then [] else cur) + [row])
    ensures !Fits(cap, [row]) && (cur != [] ==> !Fits(cap, cur + [row]))
  {
    assert [] + [row] == [row];
  }

  lemma SoundStep(env: Env, cap: int, rows: seq<string>, i: nat, cur: seq<string>, done: seq<seq<string>>,
                  kept: seq<string>, p: Outcome)
    requires i + 1 < |rows| && Concat(done) + kept == cur && AllFit(cap, done) && FitsAlone(cap, rows[i])
    requires Sound(env, cap, rows, i + 1, kept + [rows[i]], p)
    ensures Sound(env, cap, rows, i, cur, Outcome(done + p.batches, p.result))
  {
    hide Fits, Concat;
    ConcatAppend(done, p.batches);
    var d, e := Concat(done), Concat(p.batches);
    assert cur + rows[i..] == d + ((kept + [rows[i]]) + rows[i + 1..]) by {
      assert rows[i..] == [rows[i]] + rows[i + 1..];
    }
    if p.result.TooBig? {
      var k := p.result.index;
      assert rows[i..k] == [rows[i]] + rows[i + 1..k];
      assert cur + rows[i..k] == d + ((kept + [rows[i]]) + rows[i + 1..k]);
    }
  }

  lemma SoundLast(env: Env, cap: int, rows: seq<string>, i: nat, cur: seq<string>, done: seq<seq<string>>,
                  kept: seq<string>)
    requires i == |rows| - 1 && Concat(done) + kept == cur && AllFit(cap, done)
    requires Fits(cap, kept + [rows[i]]) && FitsAlone(cap, rows[i])
    ensures Sound(env, cap, rows, i, cur, Outcome(done + [kept + [rows[i]]], Success))
    ensures (exists n :: !env.insertOk(n)) ==> Sound(env, cap, rows, i, cur, Outcome(done, InsertFailed))
  {
    hide Fits;
    var next := kept + [rows[i]];
    ConcatAppend(done, [next]);
    assert [next][1..] == [] && Concat([next]) == next;
    assert rows[i..] == [rows[i]];
    assert cur + rows[i..] == Concat(done) + next;
  }

  lemma {:induction false} StatementLengths(table: string, cap: int, bs: seq<seq<string>>, k: nat)
    requires AllFit(cap, bs) && k < |bs|
    ensures |Statements(table, bs)| == |bs|
    ensures |Statements(table, bs)[k]| <= cap + |FormatInsert(table, "")|
    decreases |bs|
  {
    hide Body;
    if |bs| > 1 {
      StatementLengths(table, cap, bs[1..], if k == 0 then 0 else k - 1);
    } else {
      assert Statements(table, bs[1..]) == [];
    }
  }

  // The promises of a store. Every executed statement fits the buffer; what was
  // inserted is a prefix of the rows, all of them on success; a row that is too
  // big stops the store with exactly the rows before it inserted, and it is the
  // first row that does not fit a statement of its own.
  lemma StoreOutcome(env: Env, capacity: int, table: string, rows: seq<string>)
    ensures
      var cap := capacity - |FormatInsert(table, "")|;
      var o := Greedy(env, cap, rows, 0, [], 0);
      && (forall k :: 0 <= k < |Statements(table, o.batches)| ==> |Statements(table, o.batches)[k]| <= capacity)
      && Concat(o.batches) <= rows
      && (o.result.Success? ==> Concat(o.batches) == rows)
      && (o.result.TooBig? ==> o.result.index < |rows| && !FitsAlone(cap, rows[o.result.index])
                               && Concat(o.batches) == rows[..o.result.index]
                               && forall j :: 0 <= j < o.result.index ==> FitsAlone(cap, rows[j]))
      && ((forall i :: !env.cancelled(i)) && (forall n :: env.insertOk(n)) ==>
            (o.result.Success? <==> forall j :: 0 <= j < |rows| ==> FitsAlone(cap, rows[j])))
  {
    hide Fits, FormatInsert, Statements;
    var cap := capacity - |FormatInsert(table, "")|;
    var o := Greedy(env, cap, rows, 0, [], 0);
    if rows == [] {
      StatementsOfNone(table);
    } else {
      GreedySound(env, cap, rows, 0, [], 0);
      assert [] + rows[0..] == rows;
      if o.result.TooBig? {
        assert [] + rows[0..o.result.index] == rows[..o.result.index];
      }
      if o.batches == [] {
        StatementsOfNone(table);
      } else {
        StatementLengths(table, cap, o.batches, 0);
        forall k | 0 <= k < |o.batches|
          ensures |Statements(table, o.batches)[k]| <= capacity
        {
          StatementLengths(table, cap, o.batches, k);
        }
      }
    }
  }

  // --------------------------------------------------- the greedy is optimal

  // A split of the rows into consecutive batches that fit.
  ghost predicate Splits(cap: int, rows: seq<string>, bs: seq<seq<string>>) {
    Concat(bs) == rows && AllFit(cap, bs)
  }

  // Dropping rows from the front of a split leaves a split that is no longer.
  lemma {:induction false} DropRows(cap: int, a: seq<string>, b: seq<string>, bs: seq<seq<string>>)
    returns (cs: seq<seq<string>>)
    requires Splits(cap, a + b, bs)
    ensures Splits(cap, b, cs) && |cs| <= |bs|
    decreases |bs|
  {
    hide Fits;
    if a == [] {
      cs := bs;
      assert a + b == b;
    } else if |bs[0]| <= |a| {
      var h, t := bs[0], a[|bs[0]|..];
      assert a == h + t by {
        assert (a + b)[..|h|] == h;
      }
      assert (a + b)[|h|..] == t + b;
      cs := DropRows(cap, t, b, bs[1..]);
    } else {
      var t := bs[0][|a|..];
      assert bs[0] == a + t by {
        assert (a + b)[..|a|] == a;
      }
      assert (a + b)[|a|..] == t + Concat(bs[1..]);
      FitsParts(cap, a, t);
      cs := [t] + bs[1..];
      assert cs[1..] == bs[1..];
    }
  }

  // Every split of the same rows has at least as many batches.
  ghost predicate Minimal(cap: int, rows: seq<string>, count: nat) {
    forall bs :: Splits(cap, rows, bs) ==> count <= |bs|
  }

  // When cur is full before row, no split puts more than cur into its first batch.
  lemma FullBatchFirst(cap: int, cur: seq<string>, row: string, rest: seq<string>, count: nat)
    requires cur != [] && !Fits(cap, cur + [row]) && Minimal(cap, [row] + rest, count)
    ensures Minimal(cap, cur + [row] + rest, count + 1)
  {
    hide Fits;
    forall bs | Splits(cap, cur + [row] + rest, bs)
      ensures count + 1 <= |bs|
    {
      var all := cur + [row] + rest;
      var h := bs[0];
      if |h| > |cur| {
        assert h == all[..|h|];
        var t := h[|cur| + 1..];
        assert h == (cur + [row]) + t by {
          assert all[..|cur| + 1] == cur + [row];
        }
        FitsParts(cap, cur + [row], t);
        assert false;
      }
      var t := cur[|h|..];
      assert cur == h + t by {
        assert all[..|h|] == h;
      }
      assert Concat(bs[1..]) == t + ([row] + rest) by {
        assert all[|h|..] == t + ([row] + rest);
      }
      var cs := DropRows(cap, t, [row] + rest, bs[1..]);
    }
  }

  lemma OneBatchAtLeast(cap: int, rows: seq<string>)
    requires rows != []
    ensures Minimal(cap, rows, 1)
  {
  }

  lemma {:induction false} GreedyOptimal(env: Env, cap: int, rows: seq<string>, i: nat, cur: seq<string>, n: nat)
    requires i < |rows| && Greedy(env, cap, rows, i, cur, n).result.Success?
    ensures Minimal(cap, cur + rows[i..], |Greedy(env, cap, rows, i, cur, n).batches|)
    decreases |rows| - i
  {
    hide Fits, Minimal;
    var flush := cur != [] && !Fits(cap, cur + [rows[i]]);
    var done := if flush then [cur] else [];
    var next := (if flush then [] else cur) + [rows[i]];
    var rest := rows[i + 1..];
    assert rows[i..] == [rows[i]] + rest;
    if i < |rows| - 1 {
      GreedyOptimal(env, cap, rows, i + 1, next, n + |done|);
    } else {
      OneBatchAtLeast(cap, next + rest);
    }
    if flush {
      var count := if i < |rows| - 1 then |Greedy(env, cap, rows, i + 1, next, n + 1).batches| else 1;
      assert next + rest == [rows[i]] + rest;
      FullBatchFirst(cap, cur, rows[i], rest, count);
      assert cur + [rows[i]] + rest == cur + rows[i..];
    } else {
      assert next + rest == cur + rows[i..];
    }
  }

  // A store that succeeds uses as few INSERT statements as any division of the
  // rows into consecutive statements that fit.
  lemma FewestInserts(env: Env, cap: int, rows: seq<string>)
    requires Greedy(env, cap, rows, 0, [], 0).result.Success?
    ensures Minimal(cap, rows, |Greedy(env, cap, rows, 0, [], 0).batches|)
  {
    hide Fits;
    if rows != [] {
      GreedyOptimal(env, cap, rows, 0, [], 0);
      assert [] + rows[0..] == rows;
    }
  }
}
