// When reconciling makes the table what the spec asks for.
module PartitionLaws {
  import opened Partitions

  // The set IDs tell the partitions of ps apart.
  ghost predicate Distinct(cols: seq<string>, ps: seq<Partition>) {
    forall p, q :: p in ps && q in ps && SetId(cols, p) == SetId(cols, q) ==> KeyOf(cols, p) == KeyOf(cols, q)
  }

  // No partition value contains a dash.
  ghost predicate NoDashes(cols: seq<string>, ps: seq<Partition>) {
    forall p, i :: p in ps && 0 <= i < |cols| ==> '-' !in KeyOf(cols, p)[i]
  }

  // A key has the values of the spec in the order of the columns, and nothing for
  // a column that the spec does not name.
  lemma KeyHolds(before: seq<string>, col: string, after: seq<string>, p: Partition)
    ensures var k := KeyOf(before + [col] + after, p)[|before|];
      (col in p.spec ==> k == p.spec[col]) && (col !in p.spec ==> k == "")
  {
    var cols := before + [col] + after;
    assert cols[|before|] == col;
  }

  // The location listed last for a key is the one desired for it.
  lemma {:induction false} DesiredIsLast(cols: seq<string>, a: seq<Partition>, p: Partition, b: seq<Partition>)
    requires forall q :: q in b ==> KeyOf(cols, q) != KeyOf(cols, p)
    ensures KeyOf(cols, p) in Desired(cols, a + [p] + b) && Desired(cols, a + [p] + b)[KeyOf(cols, p)] == p.location
    decreases |b|
  {
    hide KeyOf, Desired, Keys;
    if b == [] {
      assert a + [p] + b == a + [p];
      KeysAppend(cols, a, p);
    } else {
      var c, q := b[..|b| - 1], b[|b| - 1];
      assert q in b && forall x :: x in c ==> x in b;
      assert a + [p] + b == (a + [p] + c) + [q];
      DesiredIsLast(cols, a, p, c);
      KeysAppend(cols, a + [p] + c, q);
    }
  }

  // Each partition Hive has is recorded, or already is what it should be.
  ghost predicate Ready(cols: seq<string>, h: Hive, status: seq<Partition>, desired: seq<Partition>) {
    var want := Desired(cols, desired);
    forall k :: k in h ==> k in Keys(cols, status) || (k in want && h[k] == want[k])
  }

  // ------------------------------------------------------- IDs tell keys apart

  lemma {:induction false} JoinInjective(a: Key, b: Key)
    requires |a| == |b| && Join(a) == Join(b)
    requires forall i :: 0 <= i < |a| ==> '-' !in a[i] && '-' !in b[i]
    ensures a == b
    decreases |a|
  {
    if |a| > 1 {
      var s, n, m := Join(a), |a[0]|, |b[0]|;
      assert s[n] == '-' && s[m] == '-' && s[..n] == a[0] && s[..m] == b[0];
      assert forall i | 0 <= i < n :: s[i] in a[0];
      assert forall i | 0 <= i < m :: s[i] in b[0];
      assert s[n + 1..] == Join(a[1..]) && s[m + 1..] == Join(b[1..]);
      JoinInjective(a[1..], b[1..]);
      assert a == [a[0]] + a[1..] && b == [b[0]] + b[1..];
    }
  }

  lemma NoDashesDistinct(cols: seq<string>, ps: seq<Partition>)
    requires NoDashes(cols, ps)
    ensures Distinct(cols, ps)
  {
    hide Join;
    forall p, q | p in ps && q in ps && SetId(cols, p) == SetId(cols, q)
      ensures KeyOf(cols, p) == KeyOf(cols, q)
    {
      JoinInjective(KeyOf(cols, p), KeyOf(cols, q));
    }
  }

  // With one column, such as a date, the ID is the value, dashes or not.
  lemma OneColumnDistinct(cols: seq<string>, ps: seq<Partition>)
    requires |cols| == 1
    ensures Distinct(cols, ps)
  {
    hide KeyOf;
    forall p, q | p in ps && q in ps && SetId(cols, p) == SetId(cols, q)
      ensures KeyOf(cols, p) == KeyOf(cols, q)
    {
      var a, b := KeyOf(cols, p), KeyOf(cols, q);
      assert a == [a[0]] && b == [b[0]];
    }
  }

  // ------------------------------------------- what a reconcile drops and adds

  lemma DropsAreRecorded(cols: seq<string>, status: seq<Partition>, desired: seq<Partition>)
    requires Distinct(cols, status + desired)
    ensures AllDrops(cols, status, desired) == Keys(cols, status)
  {
    hide KeyOf, Join;
    var all := status + desired;
    var lookup := Lookup(cols, all);
    IdsConcat(cols, status, desired);
    forall p | p in status
      ensures SetId(cols, p) in lookup && KeyOf(cols, lookup[SetId(cols, p)]) == KeyOf(cols, p)
    {
      assert p in all && lookup[SetId(cols, p)] in all;
    }
  }

  // Desired agrees with the lookup by ID where the IDs tell the keys apart.
  lemma {:induction false} DesiredByLookup(cols: seq<string>, desired: seq<Partition>, k: Key)
    requires Distinct(cols, desired) && k in Keys(cols, desired)
    ensures Join(k) in Lookup(cols, desired)
    ensures KeyOf(cols, Lookup(cols, desired)[Join(k)]) == k
    ensures Desired(cols, desired)[k] == Lookup(cols, desired)[Join(k)].location
    decreases |desired|
  {
    hide KeyOf, Join, Lookup, Desired, Ids;
    var n := |desired| - 1;
    var rest, p := desired[..n], desired[n];
    assert desired == rest + [p];
    assert forall q :: q in rest ==> q in desired;
    assert p in desired;
    KeysAppend(cols, rest, p);
    IdsAppend(cols, rest, p);
    if k != KeyOf(cols, p) {
      DesiredByLookup(cols, rest, k);
      var q :| q in rest && KeyOf(cols, q) == k;
      assert SetId(cols, q) != SetId(cols, p);
    }
  }

  lemma AddsAreDesired(cols: seq<string>, status: seq<Partition>, desired: seq<Partition>)
    requires Distinct(cols, status + desired)
    ensures AllAdds(cols, status, desired) == Desired(cols, desired)
  {
    hide KeyOf, Join, Lookup, Desired;
    assert forall p :: p in desired ==> p in status + desired;
    var a, b := AllAdds(cols, status, desired), Desired(cols, desired);
    forall k | k in b
      ensures k in a && a[k] == b[k]
    {
      DesiredByLookup(cols, desired, k);
      LookupPrefersDesired(cols, status, desired, Join(k));
    }
  }

  // ------------------------------------------------------------------ theorems

  // A full reconcile makes the table exactly the desired one, with the locations
  // listed last, if and only if every partition Hive had was recorded or already
  // as desired.
  lemma ConvergesIff(cols: seq<string>, h: Hive, status: seq<Partition>, desired: seq<Partition>)
    requires Distinct(cols, status + desired)
    ensures Applied(h, AllDrops(cols, status, desired), AllAdds(cols, status, desired)) == Desired(cols, desired)
            <==> Ready(cols, h, status, desired)
  {
    DropsAreRecorded(cols, status, desired);
    AddsAreDesired(cols, status, desired);
    hide Keys, Desired, AllDrops, AllAdds, Applied;
    AppliedIff(h, Keys(cols, status), Desired(cols, desired));
  }

  lemma AppliedIff(h: Hive, d: set<Key>, want: Hive)
    ensures Applied(h, d, want) == want <==> forall k :: k in h ==> k in d || (k in want && h[k] == want[k])
  {
    var t := Applied(h, d, want);
    if t == want {
      forall k | k in h && k !in d
        ensures k in want && h[k] == want[k]
      {
        assert k in t && t[k] == h[k];
      }
    } else if forall k :: k in h ==> k in d || (k in want && h[k] == want[k]) {
      assert t.Keys == want.Keys;
      assert forall k :: k in want ==> t[k] == want[k];
    }
  }

  // Wherever an attempt stops, a rerun with the same spec can still converge.
  lemma AttemptKeepsReady(cols: seq<string>, h: Hive, status: seq<Partition>, desired: seq<Partition>,
                          dropped: set<Key>, added: Hive, ok: bool)
    requires Distinct(cols, status + desired) && Ready(cols, h, status, desired)
    requires Attempted(cols, status, desired, dropped, added, ok)
    ensures Ready(cols, Applied(h, dropped, added), status, desired)
    ensures ok ==> Applied(h, dropped, added) == Desired(cols, desired)
  {
    AddsAreDesired(cols, status, desired);
    ConvergesIff(cols, h, status, desired);
    hide Keys, Desired, AllDrops, AllAdds;
    var want := Desired(cols, desired);
    forall k | k in added
      ensures k in want && added[k] == want[k]
    {
      assert (k, added[k]) in added.Items;
    }
  }

  // After a success every partition is recorded, so any next spec can be reached.
  lemma SuccessReadyForAnything(cols: seq<string>, desired: seq<Partition>, next: seq<Partition>)
    ensures Ready(cols, Desired(cols, desired), desired, next)
  {
  }

  // An attempt, as it shows on the outside.
  datatype Attempt = Attempt(dropped: set<Key>, added: Hive, ok: bool)

  // A sequence of attempts with one spec, each from where the last one stopped.
  ghost predicate Attempts(cols: seq<string>, h: Hive, status: seq<Partition>, desired: seq<Partition>,
                           ats: seq<Attempt>)
    decreases |ats|
  {
    ats == []
    || (Attempted(cols, status, desired, ats[0].dropped, ats[0].added, ats[0].ok)
        && Attempts(cols, Applied(h, ats[0].dropped, ats[0].added), if ats[0].ok then desired else status, desired,
                    ats[1..]))
  }

  function Final(h: Hive, ats: seq<Attempt>): Hive
    decreases |ats|
  {
    if ats == [] then h else Final(Applied(h, ats[0].dropped, ats[0].added), ats[1..])
  }

  // However often attempts with a spec fail, and wherever, the table is exactly
  // the desired one whenever the last attempt succeeded.
  lemma {:induction false} RerunsConverge(cols: seq<string>, h: Hive, status: seq<Partition>, desired: seq<Partition>,
                                          ats: seq<Attempt>)
    requires Distinct(cols, status + desired) && Ready(cols, h, status, desired)
    requires Attempts(cols, h, status, desired, ats) && ats != []
    ensures ats[|ats| - 1].ok ==> Final(h, ats) == Desired(cols, desired)
    decreases |ats|
  {
    hide Distinct, Ready, Desired, Attempted, Applied;
    var a := ats[0];
    AttemptKeepsReady(cols, h, status, desired, a.dropped, a.added, a.ok);
    var h' := Applied(h, a.dropped, a.added);
    if |ats| > 1 {
      if a.ok {
        SuccessReadyForAnything(cols, desired, desired);
        DistinctTwice(cols, status, desired);
        RerunsConverge(cols, h', desired, desired, ats[1..]);
      } else {
        RerunsConverge(cols, h', status, desired, ats[1..]);
      }
    } else {
      assert Final(h', ats[1..]) == h';
    }
  }

  lemma DistinctTwice(cols: seq<string>, status: seq<Partition>, desired: seq<Partition>)
    requires Distinct(cols, status + desired)
    ensures Distinct(cols, desired + desired)
  {
    hide KeyOf, SetId;
    assert forall p :: p in desired + desired ==> p in status + desired;
  }

  // A partition that was added before a failure and that the next spec does not
  // list is never dropped.
  lemma Leak(cols: seq<string>, h: Hive, status: seq<Partition>, desired: seq<Partition>, k: Key)
    requires Distinct(cols, status + desired)
    requires k in h && k !in Keys(cols, status) && k !in Keys(cols, desired)
    ensures k in Applied(h, AllDrops(cols, status, desired), AllAdds(cols, status, desired))
  {
    DropsAreRecorded(cols, status, desired);
  }

  // ------------------------------------------------------------- clashing IDs

  // Of two partitions that share an ID only one is added.
  lemma OneOfTwo(cols: seq<string>, desired: seq<Partition>, p: Partition, q: Partition)
    requires p in desired && q in desired
    requires SetId(cols, p) == SetId(cols, q) && KeyOf(cols, p) != KeyOf(cols, q)
    ensures AllAdds(cols, [], desired) != Desired(cols, desired)
  {
    hide KeyOf, Lookup, Desired;
    assert [] + desired == desired;
    var a := AllAdds(cols, [], desired);
    assert KeyOf(cols, p) in Desired(cols, desired) && KeyOf(cols, q) in Desired(cols, desired);
    assert KeyOf(cols, p) !in a || KeyOf(cols, q) !in a;
  }

  // From an empty table the result is the desired one exactly when the IDs tell
  // the desired partitions apart.
  lemma FreshTableIff(cols: seq<string>, desired: seq<Partition>)
    ensures Applied(map[], AllDrops(cols, [], desired), AllAdds(cols, [], desired)) == Desired(cols, desired)
            <==> Distinct(cols, desired)
  {
    AppliedToNothing(AllDrops(cols, [], desired), AllAdds(cols, [], desired));
    hide KeyOf, Join, Desired, AllAdds, AllDrops, Applied;
    assert [] + desired == desired;
    if Distinct(cols, desired) {
      AddsAreDesired(cols, [], desired);
    } else {
      var p, q :| p in desired && q in desired && SetId(cols, p) == SetId(cols, q) && KeyOf(cols, p) != KeyOf(cols, q);
      OneOfTwo(cols, desired, p, q);
    }
  }

  lemma AppliedToNothing(d: set<Key>, a: Hive)
    ensures Applied(map[], d, a) == a
  {
  }

  // Values with dashes can clash.
  lemma DashesClash()
    ensures var cols := ["a", "b"];
      var p := Partition(map["a" := "x-y", "b" := "z"], "");
      var q := Partition(map["a" := "x", "b" := "y-z"], "");
      !Distinct(cols, [p, q])
  {
    var cols := ["a", "b"];
    var p := Partition(map["a" := "x-y", "b" := "z"], "");
    var q := Partition(map["a" := "x", "b" := "y-z"], "");
    assert p in [p, q] && q in [p, q];
    assert KeyOf(cols, p) == ["x-y", "z"] && KeyOf(cols, q) == ["x", "y-z"];
    assert ["x-y", "z"][1..] == ["z"] && ["x", "y-z"][1..] == ["y-z"];
    assert Join(["x-y", "z"]) == "x-y" + "-" + "z" == "x-y-z";
    assert Join(["x", "y-z"]) == "x" + "-" + "y-z" == "x-y-z";
    assert ["x-y", "z"][0] != ["x", "y-z"][0];
  }
}
