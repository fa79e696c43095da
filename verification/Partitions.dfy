// Reconciling the partitions of a Hive table: diff the recorded partitions with
// the desired ones, drop, add, record. Hive identifies a partition by its values
// for the partition columns.
module Partitions {

  type Key = seq<string>

  datatype Partition = Partition(spec: map<string, string>, location: string)

  // The partitions Hive has, with their locations.
  type Hive = map<Key, string>

  function KeyOf(cols: seq<string>, p: Partition): (k: Key)
    ensures |k| == |cols|
  {
    seq(|cols|, i requires 0 <= i < |cols| => if cols[i] in p.spec then p.spec[cols[i]] else "")
  }

  // strings.Join(vals, "-")
  function Join(vals: Key): string {
    if vals == [] then "" else if |vals| == 1 then vals[0] else vals[0] + "-" + Join(vals[1..])
  }

  function SetId(cols: seq<string>, p: Partition): string {
    Join(KeyOf(cols, p))
  }

  function Ids(cols: seq<string>, ps: seq<Partition>): set<string> {
    set p | p in ps :: SetId(cols, p)
  }

  function Keys(cols: seq<string>, ps: seq<Partition>): set<Key> {
    set p | p in ps :: KeyOf(cols, p)
  }

  // The lookup from a set ID to the last partition that has it.
  function Lookup(cols: seq<string>, ps: seq<Partition>): (m: map<string, Partition>)
    ensures m.Keys == Ids(cols, ps)
    ensures forall id :: id in m ==> m[id] in ps && SetId(cols, m[id]) == id
  {
    if ps == [] then map[]
    else
      var n := |ps| - 1;
      assert ps == ps[..n] + [ps[n]];
      Lookup(cols, ps[..n])[SetId(cols, ps[n]) := ps[n]]
  }

  // The location last listed for each key: what the table should look like.
  function Desired(cols: seq<string>, ps: seq<Partition>): (m: Hive)
    ensures m.Keys == Keys(cols, ps)
  {
    if ps == [] then map[]
    else
      var n := |ps| - 1;
      assert ps == ps[..n] + [ps[n]];
      Desired(cols, ps[..n])[KeyOf(cols, ps[n]) := ps[n].location]
  }

  // ------------------------------------------------------------ the reconciler

  // ps lists the partition looked up for each of the IDs once, in some order.
  ghost predicate Lists(cols: seq<string>, lookup: map<string, Partition>, ids: set<string>, ps: seq<Partition>) {
    && ids <= lookup.Keys && |ps| == |ids|
    && (forall i :: 0 <= i < |ps| ==> SetId(cols, ps[i]) in ids && ps[i] == lookup[SetId(cols, ps[i])])
    && (forall id :: id in ids ==> lookup[id] in ps)
  }

  // The unsorted list of a set of IDs.
  method ListPartitions(cols: seq<string>, lookup: map<string, Partition>, ids: set<string>)
    returns (ps: seq<Partition>)
    requires ids <= lookup.Keys && forall id :: id in lookup ==> SetId(cols, lookup[id]) == id
    ensures Lists(cols, lookup, ids, ps)
  {
    hide SetId;
    ps := [];
    var left := ids;
    ghost var done: set<string> := {};
    while left != {}
      invariant done !! left && done + left == ids && |ps| == |done|
      invariant forall i :: 0 <= i < |ps| ==> SetId(cols, ps[i]) in ids && ps[i] == lookup[SetId(cols, ps[i])]
      invariant forall id :: id in done ==> lookup[id] in ps
      decreases left
    {
      var id :| id in left;
      ps := ps + [lookup[id]];
      left, done := left - {id}, done + {id};
    }
  }

  // One of the loops that index partitions by their ID.
  method Index(cols: seq<string>, ps: seq<Partition>, before: map<string, Partition>, ghost base: seq<Partition>)
    returns (ids: set<string>, lookup: map<string, Partition>)
    requires before == Lookup(cols, base)
    ensures ids == Ids(cols, ps) && lookup == Lookup(cols, base + ps)
  {
    hide SetId, Lookup, Ids;
    ids, lookup := {}, before;
    ghost var seen: seq<Partition> := [];
    IdsOfNone(cols);
    assert base + [] == base;
    for i := 0 to |ps|
      invariant seen == ps[..i] && lookup == Lookup(cols, base + seen) && ids == Ids(cols, seen)
    {
      IdsAppend(cols, seen, ps[i]);
      IdsAppend(cols, base + seen, ps[i]);
      assert base + (seen + [ps[i]]) == (base + seen) + [ps[i]];
      lookup := lookup[SetId(cols, ps[i]) := ps[i]];
      ids := ids + {SetId(cols, ps[i])};
      seen := seen + [ps[i]];
    }
    assert seen == ps;
  }

  lemma IdsOfNone(cols: seq<string>)
    ensures Ids(cols, []) == {} && Lookup(cols, []) == map[]
  {
  }

  method GetPartitionChanges(cols: seq<string>, current: seq<Partition>, desired: seq<Partition>)
    returns (toRemove: seq<Partition>, toAdd: seq<Partition>, toUpdate: seq<Partition>)
    ensures
      var lookup := Lookup(cols, current + desired);
      var was, wanted := Ids(cols, current), Ids(cols, desired);
      && Lists(cols, lookup, was - wanted, toRemove)
      && Lists(cols, lookup, wanted - was, toAdd)
      && Lists(cols, lookup, was * wanted, toUpdate)
  {
    hide SetId, Lists, Lookup, Ids;
    IdsOfNone(cols);
    IdsConcat(cols, current, desired);
    var currSet, lookup := Index(cols, current, map[], []);
    assert [] + current == current;
    var desiredSet;
    desiredSet, lookup := Index(cols, desired, lookup, current);
    toRemove := ListPartitions(cols, lookup, currSet - desiredSet);
    toAdd := ListPartitions(cols, lookup, desiredSet - currSet);
    toUpdate := ListPartitions(cols, lookup, currSet * desiredSet);
  }

  lemma IdsAppend(cols: seq<string>, ps: seq<Partition>, p: Partition)
    ensures Ids(cols, ps + [p]) == Ids(cols, ps) + {SetId(cols, p)}
    ensures Lookup(cols, ps + [p]) == Lookup(cols, ps)[SetId(cols, p) := p]
  {
    hide SetId;
    var all := ps + [p];
    assert all[..|all| - 1] == ps && all[|all| - 1] == p;
    assert p in all;
    assert forall q :: q in ps ==> q in all;
  }

  lemma IdsConcat(cols: seq<string>, a: seq<Partition>, b: seq<Partition>)
    ensures Ids(cols, a + b) == Ids(cols, a) + Ids(cols, b)
  {
    hide SetId;
    assert forall p :: p in a + b <==> p in a || p in b;
  }

  // What dropping the keys d and then adding the entries a, where they do not
  // exist yet, makes of a table.
  function Applied(h: Hive, d: set<Key>, a: Hive): Hive {
    map k | k in (h.Keys - d) + a.Keys :: if k in h && k !in d then h[k] else a[k]
  }

  // Everything a full reconcile drops and adds.
  ghost function AllDrops(cols: seq<string>, current: seq<Partition>, desired: seq<Partition>): set<Key> {
    var lookup := Lookup(cols, current + desired);
    IdsConcat(cols, current, desired);
    set id | id in Ids(cols, current) :: KeyOf(cols, lookup[id])
  }

  ghost function AllAdds(cols: seq<string>, current: seq<Partition>, desired: seq<Partition>): Hive {
    var lookup := Lookup(cols, current + desired);
    IdsConcat(cols, current, desired);
    map k | k in Keys(cols, desired) && Join(k) in lookup && KeyOf(cols, lookup[Join(k)]) == k ::
      lookup[Join(k)].location
  }

  // The table with its recorded partitions, and Hive itself.
  class HiveTable {
    const cols: seq<string>
    var status: seq<Partition>
    var hive: Hive

    constructor (cols: seq<string>, status: seq<Partition>, hive: Hive)
      ensures this.cols == cols && this.status == status && this.hive == hive
    {
      this.cols, this.status, this.hive := cols, status, hive;
    }

    // ALTER TABLE … DROP IF EXISTS PARTITION
    method DropPartition(p: Partition)
      modifies this`hive
      ensures hive == old(hive) - {KeyOf(cols, p)}
    {
      hive := hive - {KeyOf(cols, p)};
    }

    // ALTER TABLE … ADD IF NOT EXISTS PARTITION
    method AddPartition(p: Partition)
      modifies this`hive
      ensures hive == if KeyOf(cols, p) in old(hive) then old(hive) else old(hive)[KeyOf(cols, p) := p.location]
    {
      if KeyOf(cols, p) !in hive {
        hive := hive[KeyOf(cols, p) := p.location];
      }
    }

    // The loop of drops; the n-th one succeeds if stmtOk(n).
    method DropAll(ps: seq<Partition>, stmtOk: nat -> bool) returns (ok: bool, ghost dropped: set<Key>)
      modifies this`hive
      ensures dropped <= Keys(cols, ps) && (ok ==> dropped == Keys(cols, ps))
      ensures hive == Applied(old(hive), dropped, map[])
    {
      hide KeyOf, Keys;
      dropped, ok := {}, false;
      AppliedNothing(hive);
      ghost var done: seq<Partition> := [];
      KeysOfNone(cols);
      for n := 0 to |ps|
        invariant done == ps[..n] && dropped == Keys(cols, done) && hive == Applied(old(hive), dropped, map[])
      {
        KeysPrefix(cols, ps, n);
        if !stmtOk(n) {
          return;
        }
        KeysAppend(cols, done, ps[n]);
        AppliedOneLess(old(hive), dropped, KeyOf(cols, ps[n]));
        DropPartition(ps[n]);
        dropped := dropped + {KeyOf(cols, ps[n])};
        done := done + [ps[n]];
      }
      assert done == ps;
      ok := true;
    }

    // The loop of adds, on a table from which the keys d of before are gone.
    method AddAll(ps: seq<Partition>, stmtOk: nat -> bool, ghost lookup: map<string, Partition>, ghost before: Hive,
                  ghost d: set<Key>)
      returns (ok: bool, ghost added: Hive)
      requires Listed(cols, lookup, ps) && hive == Applied(before, d, map[])
      modifies this`hive
      ensures added.Items <= Desired(cols, ps).Items && (ok ==> added == Desired(cols, ps))
      ensures hive == Applied(before, d, added)
    {
      hide KeyOf, Desired, Listed, Applied;
      added, ok := map[], false;
      ghost var done: seq<Partition> := [];
      DesiredOfNone(cols);
      for n := 0 to |ps|
        invariant done == ps[..n] && added == Desired(cols, done) && hive == Applied(before, d, added)
      {
        AddsPrefix(cols, lookup, ps, n);
        if !stmtOk(n) {
          return;
        }
        assert ps[..n + 1] == done + [ps[n]];
        AppliedOneMore(before, d, added, KeyOf(cols, ps[n]), ps[n].location);
        AddPartition(ps[n]);
        added := added[KeyOf(cols, ps[n]) := ps[n].location];
        done := done + [ps[n]];
      }
      assert done == ps;
      ok := true;
    }

    // The drops, adds and status update of handleHiveTable. The n-th statement
    // succeeds if dropOk(n) or addOk(n), the update if writeOk. The ghost results
    // say how far it got.
    method Reconcile(desired: seq<Partition>, dropOk: nat -> bool, addOk: nat -> bool, writeOk: bool)
      returns (ok: bool, ghost dropped: set<Key>, ghost added: Hive)
      modifies this
      ensures Attempted(cols, old(status), desired, dropped, added, ok)
      ensures hive == Applied(old(hive), dropped, added)
      ensures status == if ok then desired else old(status)
    {
      hide SetId, Lists, Lookup, Listed, Applied, AllDrops, AllAdds;
      ghost var current, before := status, hive;
      var toRemove, toAdd, toUpdate := GetPartitionChanges(cols, status, desired);
      DropsAre(cols, current, desired, toRemove, toUpdate);
      AddsAre(cols, current, desired, toAdd, toUpdate);
      added := map[];
      ok, dropped := DropAll(toRemove + toUpdate, dropOk);
      if !ok {
        return;
      }
      ok, added := AddAll(toAdd + toUpdate, addOk, Lookup(cols, current + desired), before, dropped);
      if ok {
        ok := writeOk;
        if writeOk {
          status := desired;
        }
      }
    }
  }

  // How far an attempt to reconcile got: some drops, then some adds, all of both
  // if it succeeded.
  ghost predicate Attempted(cols: seq<string>, status: seq<Partition>, desired: seq<Partition>,
                            dropped: set<Key>, added: Hive, ok: bool) {
    && dropped <= AllDrops(cols, status, desired)
    && added.Items <= AllAdds(cols, status, desired).Items
    && (ok ==> dropped == AllDrops(cols, status, desired) && added == AllAdds(cols, status, desired))
  }

  lemma KeysOfNone(cols: seq<string>)
    ensures Keys(cols, []) == {}
  {
  }

  lemma DesiredOfNone(cols: seq<string>)
    ensures Desired(cols, []) == map[]
  {
  }

  lemma AppliedOneLess(h: Hive, d: set<Key>, k: Key)
    ensures Applied(h, d, map[]) - {k} == Applied(h, d + {k}, map[])
  {
  }

  lemma AppliedNothing(h: Hive)
    ensures Applied(h, {}, map[]) == h
  {
  }

  lemma KeysAppend(cols: seq<string>, ps: seq<Partition>, p: Partition)
    ensures Keys(cols, ps + [p]) == Keys(cols, ps) + {KeyOf(cols, p)}
    ensures Desired(cols, ps + [p]) == Desired(cols, ps)[KeyOf(cols, p) := p.location]
  {
    hide KeyOf;
    var all := ps + [p];
    assert all[..|all| - 1] == ps && all[|all| - 1] == p;
    assert p in all;
    assert forall q :: q in ps ==> q in all;
  }

  lemma KeysPrefix(cols: seq<string>, ps: seq<Partition>, n: nat)
    requires n <= |ps|
    ensures Keys(cols, ps[..n]) <= Keys(cols, ps)
  {
    hide KeyOf;
    assert forall p :: p in ps[..n] ==> p in ps;
  }

  // Every entry is the one looked up for its ID.
  ghost predicate Listed(cols: seq<string>, lookup: map<string, Partition>, ps: seq<Partition>) {
    forall i :: 0 <= i < |ps| ==> SetId(cols, ps[i]) in lookup && ps[i] == lookup[SetId(cols, ps[i])]
  }

  // Among listed entries the order does not matter: the key tells the entry.
  lemma {:induction false} DesiredOfListed(cols: seq<string>, lookup: map<string, Partition>, ps: seq<Partition>,
                                           k: Key)
    requires Listed(cols, lookup, ps) && k in Keys(cols, ps)
    ensures Join(k) in lookup && KeyOf(cols, lookup[Join(k)]) == k
    ensures Desired(cols, ps)[k] == lookup[Join(k)].location
    decreases |ps|
  {
    hide KeyOf, Join;
    var n := |ps| - 1;
    assert ps == ps[..n] + [ps[n]];
    KeysAppend(cols, ps[..n], ps[n]);
    if k != KeyOf(cols, ps[n]) {
      DesiredOfListed(cols, lookup, ps[..n], k);
    }
  }

  lemma AddsPrefix(cols: seq<string>, lookup: map<string, Partition>, ps: seq<Partition>, n: nat)
    requires Listed(cols, lookup, ps) && n < |ps|
    ensures Desired(cols, ps[..n]).Items <= Desired(cols, ps).Items
    ensures Desired(cols, ps[..n + 1]) == Desired(cols, ps[..n])[KeyOf(cols, ps[n]) := ps[n].location]
    ensures KeyOf(cols, ps[n]) in Desired(cols, ps[..n]) ==>
      Desired(cols, ps[..n])[KeyOf(cols, ps[n])] == ps[n].location
  {
    hide KeyOf, Join, Desired, Keys;
    assert ps[..n + 1] == ps[..n] + [ps[n]];
    KeysAppend(cols, ps[..n], ps[n]);
    KeysPrefix(cols, ps, n);
    var a, b := Desired(cols, ps[..n]), Desired(cols, ps);
    forall k | k in a
      ensures k in b && a[k] == b[k]
    {
      DesiredOfListed(cols, lookup, ps[..n], k);
      DesiredOfListed(cols, lookup, ps, k);
    }
    var k := KeyOf(cols, ps[n]);
    if k in a {
      DesiredOfListed(cols, lookup, ps[..n], k);
    }
  }

  lemma AppliedOneMore(h: Hive, d: set<Key>, a: Hive, k: Key, location: string)
    requires k in a ==> a[k] == location
    ensures Applied(h, d, a[k := location]) ==
      (if k in Applied(h, d, a) then Applied(h, d, a) else Applied(h, d, a)[k := location])
  {
  }

  lemma ListsBoth(cols: seq<string>, lookup: map<string, Partition>, a: set<string>, b: set<string>,
                  ps: seq<Partition>, qs: seq<Partition>)
    requires Lists(cols, lookup, a, ps) && Lists(cols, lookup, b, qs)
    ensures Listed(cols, lookup, ps + qs)
    ensures forall id :: id in a + b ==> id in lookup && lookup[id] in ps + qs
    ensures forall p :: p in ps + qs ==> SetId(cols, p) in a + b && p == lookup[SetId(cols, p)]
  {
    hide SetId;
  }

  lemma DropsAre(cols: seq<string>, current: seq<Partition>, desired: seq<Partition>, toRemove: seq<Partition>,
                 toUpdate: seq<Partition>)
    requires var lookup := Lookup(cols, current + desired);
      var was, wanted := Ids(cols, current), Ids(cols, desired);
      Lists(cols, lookup, was - wanted, toRemove) && Lists(cols, lookup, was * wanted, toUpdate)
    ensures Keys(cols, toRemove + toUpdate) == AllDrops(cols, current, desired)
  {
    hide SetId, KeyOf, Lists;
    var lookup := Lookup(cols, current + desired);
    var was, wanted := Ids(cols, current), Ids(cols, desired);
    ListsBoth(cols, lookup, was - wanted, was * wanted, toRemove, toUpdate);
    assert (was - wanted) + (was * wanted) == was;
    IdsConcat(cols, current, desired);
    forall k | k in AllDrops(cols, current, desired)
      ensures k in Keys(cols, toRemove + toUpdate)
    {
      var id :| id in was && KeyOf(cols, lookup[id]) == k;
      assert lookup[id] in toRemove + toUpdate;
    }
  }

  // A desired ID is looked up in the desired partitions.
  lemma {:induction false} LookupPrefersDesired(cols: seq<string>, current: seq<Partition>, desired: seq<Partition>,
                                                id: string)
    requires id in Ids(cols, desired)
    ensures var lookup := Lookup(cols, current + desired);
      id in lookup && lookup[id] in desired && lookup[id] == Lookup(cols, desired)[id]
    decreases |desired|
  {
    hide SetId;
    var n := |desired| - 1;
    var rest, p := desired[..n], desired[n];
    assert desired == rest + [p] && current + desired == (current + rest) + [p];
    IdsAppend(cols, current + rest, p);
    IdsAppend(cols, rest, p);
    if id != SetId(cols, p) {
      LookupPrefersDesired(cols, current, rest, id);
      assert forall q :: q in rest ==> q in desired;
    } else {
      assert p in desired;
    }
  }

  // The partitions to add and to update are those looked up for the desired IDs.
  ghost predicate Looked(cols: seq<string>, current: seq<Partition>, desired: seq<Partition>, ps: seq<Partition>) {
    var lookup := Lookup(cols, current + desired);
    && Listed(cols, lookup, ps)
    && (forall id :: id in Ids(cols, desired) ==> id in lookup && lookup[id] in ps)
    && (forall p :: p in ps ==> SetId(cols, p) in Ids(cols, desired) && p == lookup[SetId(cols, p)])
  }

  lemma AddsAreLooked(cols: seq<string>, current: seq<Partition>, desired: seq<Partition>, toAdd: seq<Partition>,
                      toUpdate: seq<Partition>)
    requires var lookup := Lookup(cols, current + desired);
      var was, wanted := Ids(cols, current), Ids(cols, desired);
      Lists(cols, lookup, wanted - was, toAdd) && Lists(cols, lookup, was * wanted, toUpdate)
    ensures Looked(cols, current, desired, toAdd + toUpdate)
  {
    hide SetId, Lists, Lookup, Ids, Listed;
    var was, wanted := Ids(cols, current), Ids(cols, desired);
    ListsBoth(cols, Lookup(cols, current + desired), wanted - was, was * wanted, toAdd, toUpdate);
    assert (wanted - was) + (was * wanted) == wanted;
  }

  lemma IdOfKey(cols: seq<string>, ps: seq<Partition>, k: Key)
    requires k in Keys(cols, ps)
    ensures Join(k) in Ids(cols, ps)
  {
    hide KeyOf, Join;
    var p :| p in ps && KeyOf(cols, p) == k;
    assert SetId(cols, p) == Join(k);
  }

  lemma KeyOfMember(cols: seq<string>, ps: seq<Partition>, p: Partition)
    requires p in ps
    ensures KeyOf(cols, p) in Keys(cols, ps)
  {
  }

  lemma AllAddsAt(cols: seq<string>, current: seq<Partition>, desired: seq<Partition>, k: Key)
    ensures var lookup := Lookup(cols, current + desired);
      var b := AllAdds(cols, current, desired);
      && (k in b <==> k in Keys(cols, desired) && Join(k) in lookup && KeyOf(cols, lookup[Join(k)]) == k)
      && (k in b ==> b[k] == lookup[Join(k)].location)
  {
    hide KeyOf, Join, Lookup, Keys;
  }

  // Whatever is to be added is among the adds of a full reconcile.
  lemma AddedIsPlanned(cols: seq<string>, current: seq<Partition>, desired: seq<Partition>, ps: seq<Partition>, k: Key)
    requires Looked(cols, current, desired, ps) && k in Keys(cols, ps)
    ensures k in AllAdds(cols, current, desired)
    ensures Desired(cols, ps)[k] == AllAdds(cols, current, desired)[k]
  {
    hide Lookup, Ids, Keys, Desired, AllAdds, KeyOf, Join;
    var lookup := Lookup(cols, current + desired);
    DesiredOfListed(cols, lookup, ps, k);
    IdOfKey(cols, ps, k);
    LookedId(cols, current, desired, ps, Join(k));
    LookupPrefersDesired(cols, current, desired, Join(k));
    KeyOfMember(cols, desired, lookup[Join(k)]);
    AllAddsAt(cols, current, desired, k);
  }

  lemma LookedId(cols: seq<string>, current: seq<Partition>, desired: seq<Partition>, ps: seq<Partition>, id: string)
    requires Looked(cols, current, desired, ps) && id in Ids(cols, ps)
    ensures id in Ids(cols, desired)
  {
    hide SetId, Lookup, Listed;
  }

  // The adds of a full reconcile are all among those to be added.
  lemma PlannedIsAdded(cols: seq<string>, current: seq<Partition>, desired: seq<Partition>, ps: seq<Partition>, k: Key)
    requires Looked(cols, current, desired, ps) && k in AllAdds(cols, current, desired)
    ensures k in Keys(cols, ps)
  {
    hide Lookup, Ids, Keys, AllAdds, KeyOf, Join, Listed;
    AllAddsAt(cols, current, desired, k);
    IdOfKey(cols, desired, k);
    KeyOfMember(cols, ps, Lookup(cols, current + desired)[Join(k)]);
  }

  lemma AddsAre(cols: seq<string>, current: seq<Partition>, desired: seq<Partition>, toAdd: seq<Partition>,
                toUpdate: seq<Partition>)
    requires var lookup := Lookup(cols, current + desired);
      var was, wanted := Ids(cols, current), Ids(cols, desired);
      Lists(cols, lookup, wanted - was, toAdd) && Lists(cols, lookup, was * wanted, toUpdate)
    ensures Desired(cols, toAdd + toUpdate) == AllAdds(cols, current, desired)
    ensures Listed(cols, Lookup(cols, current + desired), toAdd + toUpdate)
  {
    hide Lists, Lookup, Ids, Keys, Listed, Desired, AllAdds;
    AddsAreLooked(cols, current, desired, toAdd, toUpdate);
    var ps := toAdd + toUpdate;
    var a, b := Desired(cols, ps), AllAdds(cols, current, desired);
    forall k | k in a
      ensures k in b && a[k] == b[k]
    {
      AddedIsPlanned(cols, current, desired, ps, k);
    }
    forall k | k in b
      ensures k in a
    {
      PlannedIsAdded(cols, current, desired, ps, k);
    }
  }
}
