// The text of the INSERT statements, and why a store stops where it does.
module InsertText {
  import opened Sequences
  import opened MetricStore

  // The rows with a comma between any two.
  function Listed(rows: seq<string>): string {
    if rows == [] then "" else if |rows| == 1 then rows[0] else rows[0] + "," + Listed(rows[1..])
  }

  lemma {:induction false} ListedSnoc(rows: seq<string>, row: string)
    requires rows != []
    ensures Listed(rows + [row]) == Listed(rows) + "," + row
    decreases |rows|
  {
    var all := rows + [row];
    if |rows| == 1 {
      assert all[1..] == [row];
    } else {
      assert all[1..] == rows[1..] + [row];
      ListedSnoc(rows[1..], row);
      Assoc(rows[0] + ",", Listed(rows[1..]), "," + row);
    }
  }

  lemma {:induction false} JoinIsListed(rows: seq<string>)
    ensures Join(rows) == Listed(rows)
    decreases |rows|
  {
    if |rows| > 1 {
      var n := |rows| - 1;
      JoinIsListed(rows[..n]);
      assert rows == rows[..n] + [rows[n]];
      ListedSnoc(rows[..n], rows[n]);
    }
  }

  // Each statement inserts its batch of rows into the table.
  lemma {:induction false} StatementText(table: string, batches: seq<seq<string>>, k: nat)
    requires k < |batches|
    ensures |Statements(table, batches)| == |batches|
    ensures Statements(table, batches)[k] == "INSERT INTO " + table + " " + ("VALUES " + Listed(batches[k]))
    decreases |batches|
  {
    hide Listed;
    JoinIsListed(batches[0]);
    if k > 0 {
      StatementText(table, batches[1..], k - 1);
    } else if |batches| > 1 {
      StatementText(table, batches[1..], 0);
    }
  }

  // ------------------------------------------------------------- why it stops

  // From row i on with n inserts made: the inserts made succeeded; a failed one
  // is the next; nothing was cancelled before the row at which the loop stopped.
  ghost predicate Explained(env: Env, rows: seq<string>, i: nat, n: nat, o: Outcome) {
    && (forall m :: n <= m < n + |o.batches| ==> env.insertOk(m))
    && match o.result
       case Success => forall k :: i <= k < |rows| ==> !env.cancelled(k)
       case InsertFailed => !env.insertOk(n + |o.batches|)
       case TooBig(k) => forall j :: i <= j <= k ==> !env.cancelled(j)
       case Cancelled => exists k :: i <= k < |rows| && env.cancelled(k) && forall j :: i <= j < k ==> !env.cancelled(j)
  }

  lemma {:induction false} GreedyExplained(env: Env, cap: int, rows: seq<string>, i: nat, cur: seq<string>, n: nat)
    requires i <= |rows|
    ensures Explained(env, rows, i, n, Greedy(env, cap, rows, i, cur, n))
    decreases |rows| - i
  {
    hide Fits;
    if i < |rows| && !env.cancelled(i) {
      var flush := cur != [] && !Fits(cap, cur + [rows[i]]);
      if !flush || env.insertOk(n) {
        var next := (if flush then [] else cur) + [rows[i]];
        if Fits(cap, next) && i < |rows| - 1 {
          GreedyExplained(env, cap, rows, i + 1, next, if flush then n + 1 else n);
        }
      }
    }
  }

  // The result of a store tells why it stopped: every statement made succeeded,
  // a failed insert is the one after them, and the context was cancelled at the
  // row it stopped at and not before.
  lemma StoreExplained(env: Env, capacity: int, table: string, rows: seq<string>)
    ensures Explained(env, rows, 0, 0, Greedy(env, capacity - |FormatInsert(table, "")|, rows, 0, [], 0))
    ensures rows == [] ==>
      Greedy(env, capacity - |FormatInsert(table, "")|, rows, 0, [], 0) == Outcome([], Success)
  {
    GreedyExplained(env, capacity - |FormatInsert(table, "")|, rows, 0, [], 0);
  }
}
