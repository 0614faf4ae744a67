/** Grouping by a key in first-seen order, as `grouped.setdefault(key, []).append(item)` builds it,
    and cutting a list into batches with Python slices. */
module Grouping {
  datatype Group<T> = Group(key: int, items: seq<T>)

  /** The items with key `k`, in their order. */
  function WithKey<T>(items: seq<T>, key: T -> int, k: int): seq<T> {
    if items == [] then []
    else
      var x := items[|items| - 1];
      WithKey(items[..|items| - 1], key, k) + if key(x) == k then [x] else []
  }

  /** The keys in the order in which they first occur. */
  function FirstKeys<T>(items: seq<T>, key: T -> int): seq<int> {
    if items == [] then []
    else
      var ks := FirstKeys(items[..|items| - 1], key);
      var k := key(items[|items| - 1]);
      if k in ks then ks else ks + [k]
  }

  function Grouped<T>(items: seq<T>, key: T -> int): seq<Group<T>> {
    var ks := FirstKeys(items, key);
    seq(|ks|, a requires 0 <= a < |ks| => Group(ks[a], WithKey(items, key, ks[a])))
  }

  /** A Python dict, with its insertion order kept beside it. */
  method GroupBy<T>(items: seq<T>, key: T -> int) returns (groups: seq<Group<T>>)
    ensures groups == Grouped(items, key)
  {
    var keys: seq<int> := [];
    var lists: map<int, seq<T>> := map[];
    for i := 0 to |items|
      invariant keys == FirstKeys(items[..i], key)
      invariant lists.Keys == set k | k in keys
      invariant forall k | k in lists :: lists[k] == WithKey(items[..i], key, k)
    {
      assert items[..i + 1][..i] == items[..i];
      var k := key(items[i]);
      if k !in lists {
        WithKeyAbsent(items[..i], key, k);
        keys := keys + [k];
        lists := lists[k := []];
      }
      lists := lists[k := lists[k] + [items[i]]];
    }
    assert items[..|items|] == items;
    assert forall a | 0 <= a < |keys| :: keys[a] in lists.Keys;
    groups := seq(|keys|, a requires 0 <= a < |keys| && keys[a] in lists => Group(keys[a], lists[keys[a]]));
  }

  /** A group is cut out of the list item by item: those with its key, in their order. */
  lemma {:induction false} WithKeyAppend<T>(a: seq<T>, b: seq<T>, key: T -> int, k: int)
    ensures WithKey(a + b, key, k) == WithKey(a, key, k) + WithKey(b, key, k)
  {
    if b == [] {
      assert a + b == a;
    } else {
      var init, x := b[..|b| - 1], b[|b| - 1];
      var own := if key(x) == k then [x] else [];
      WithKeyAppend(a, init, key, k);
      assert (a + b)[..|a + b| - 1] == a + init;
      assert WithKey(a + b, key, k) == WithKey(a + init, key, k) + own;
      assert WithKey(b, key, k) == WithKey(init, key, k) + own;
    }
  }

  lemma WithKeyOne<T>(x: T, key: T -> int, k: int)
    ensures WithKey([x], key, k) == if key(x) == k then [x] else []
  {
    assert [x][..0] == [];
  }

  /** The groups come in the order in which their keys first occur: more items only add groups behind. */
  lemma {:induction false} FirstKeysOfPrefix<T>(a: seq<T>, b: seq<T>, key: T -> int)
    ensures FirstKeys(a, key) <= FirstKeys(a + b, key)
  {
    if b == [] {
      assert a + b == a;
    } else {
      FirstKeysOfPrefix(a, b[..|b| - 1], key);
      assert (a + b)[..|a + b| - 1] == a + b[..|b| - 1];
    }
  }

  /** No group is empty. */
  lemma {:induction false} FirstKeysOccur<T>(items: seq<T>, key: T -> int, k: int)
    requires k in FirstKeys(items, key)
    ensures WithKey(items, key, k) != []
  {
    if k in FirstKeys(items[..|items| - 1], key) {
      FirstKeysOccur(items[..|items| - 1], key, k);
    }
  }

  lemma {:induction false} FirstKeysDistinct<T>(items: seq<T>, key: T -> int)
    ensures forall a, b | 0 <= a < b < |FirstKeys(items, key)| :: FirstKeys(items, key)[a] != FirstKeys(items, key)[b]
  {
    if items != [] {
      FirstKeysDistinct(items[..|items| - 1], key);
    }
  }

  lemma {:induction false} FirstKeysComplete<T>(items: seq<T>, key: T -> int)
    ensures forall x | x in items :: key(x) in FirstKeys(items, key)
  {
    if items != [] {
      var init, last := items[..|items| - 1], items[|items| - 1];
      FirstKeysComplete(init, key);
      assert items == init + [last];
    }
  }

  lemma {:induction false} WithKeyAbsent<T>(items: seq<T>, key: T -> int, k: int)
    requires k !in FirstKeys(items, key)
    ensures WithKey(items, key, k) == []
  {
    if items != [] {
      WithKeyAbsent(items[..|items| - 1], key, k);
    }
  }

  lemma {:induction false} WithKeyMember<T>(items: seq<T>, key: T -> int, k: int)
    ensures forall x :: x in WithKey(items, key, k) <==> x in items && key(x) == k
  {
    if items != [] {
      var init, last := items[..|items| - 1], items[|items| - 1];
      assert items == init + [last];
      WithKeyMember(init, key, k);
    }
  }

  /** The groups of the keys `ks`, one after the other. */
  function Gathered<T>(items: seq<T>, key: T -> int, ks: seq<int>): seq<T> {
    if ks == [] then [] else WithKey(items, key, ks[0]) + Gathered(items, key, ks[1..])
  }

  function Flatten<T>(groups: seq<Group<T>>): seq<T> {
    if groups == [] then [] else groups[0].items + Flatten(groups[1..])
  }

  /** How many items the first `d` groups hold. */
  function CountBefore<T>(groups: seq<Group<T>>, d: nat): nat
    requires d <= |groups|
  {
    if d == 0 then 0 else CountBefore(groups, d - 1) + |groups[d - 1].items|
  }

  lemma {:induction false} CountBeforeRest<T>(groups: seq<Group<T>>, d: nat)
    requires 1 <= d <= |groups|
    ensures CountBefore(groups, d) == |groups[0].items| + CountBefore(groups[1..], d - 1)
  {
    if d > 1 {
      CountBeforeRest(groups, d - 1);
    }
  }

  lemma {:induction false} CountBeforeAll<T>(groups: seq<Group<T>>)
    ensures CountBefore(groups, |groups|) == |Flatten(groups)|
  {
    if groups != [] {
      CountBeforeRest(groups, |groups|);
      CountBeforeAll(groups[1..]);
    }
  }

  /** Where the items of a group are found. */
  lemma {:induction false} FlattenHolds<T>(groups: seq<Group<T>>, d: nat)
    requires d < |groups|
    ensures CountBefore(groups, d) + |groups[d].items| <= |Flatten(groups)|
    ensures groups[d].items <= Flatten(groups)[CountBefore(groups, d)..]
  {
    if d > 0 {
      var first, rest := groups[0].items, Flatten(groups[1..]);
      CountBeforeRest(groups, d);
      FlattenHolds(groups[1..], d - 1);
      assert (first + rest)[|first| + CountBefore(groups[1..], d - 1)..] == rest[CountBefore(groups[1..], d - 1)..];
    }
  }

  lemma {:induction false} FlattenGathered<T>(items: seq<T>, key: T -> int, ks: seq<int>, groups: seq<Group<T>>)
    requires |groups| == |ks|
    requires forall a | 0 <= a < |ks| :: groups[a] == Group(ks[a], WithKey(items, key, ks[a]))
    ensures Flatten(groups) == Gathered(items, key, ks)
  {
    if ks != [] {
      FlattenGathered(items, key, ks[1..], groups[1..]);
    }
  }

  lemma FlattenGrouped<T>(items: seq<T>, key: T -> int)
    ensures Flatten(Grouped(items, key)) == Gathered(items, key, FirstKeys(items, key))
  {
    var groups := Grouped(items, key);
    FlattenGathered(items, key, FirstKeys(items, key), groups);
    assert Flatten(groups) == Gathered(items, key, FirstKeys(items, key));
  }

  lemma {:induction false} GatheredWithout<T>(items: seq<T>, key: T -> int, ks: seq<int>, x: T)
    requires key(x) !in ks
    ensures Gathered(items + [x], key, ks) == Gathered(items, key, ks)
  {
    if ks != [] {
      assert (items + [x])[..|items|] == items;
      GatheredWithout(items, key, ks[1..], x);
    }
  }

  lemma {:induction false} GatheredSplit<T>(items: seq<T>, key: T -> int, ks: seq<int>, k: int)
    ensures Gathered(items, key, ks + [k]) == Gathered(items, key, ks) + WithKey(items, key, k)
  {
    if ks == [] {
      assert ks + [k] == [k];
    } else {
      assert (ks + [k])[1..] == ks[1..] + [k];
      GatheredSplit(items, key, ks[1..], k);
    }
  }

  lemma {:induction false} GatheredWith<T>(items: seq<T>, key: T -> int, ks: seq<int>, x: T)
    requires forall a, b | 0 <= a < b < |ks| :: ks[a] != ks[b]
    requires key(x) in ks
    ensures multiset(Gathered(items + [x], key, ks)) == multiset(Gathered(items, key, ks)) + multiset{x}
  {
    assert (items + [x])[..|items|] == items;
    assert ks == [ks[0]] + ks[1..];
    if ks[0] == key(x) {
      GatheredWithout(items, key, ks[1..], x);
    } else {
      GatheredWith(items, key, ks[1..], x);
    }
  }

  /** Grouping loses nothing and duplicates nothing. */
  lemma GroupsPartition<T>(items: seq<T>, key: T -> int)
    ensures multiset(Flatten(Grouped(items, key))) == multiset(items)
  {
    FlattenGrouped(items, key);
    GatheredPartition(items, key);
  }

  lemma {:induction false} GatheredPartition<T>(items: seq<T>, key: T -> int)
    ensures multiset(Gathered(items, key, FirstKeys(items, key))) == multiset(items)
  {
    if items != [] {
      var init, last := items[..|items| - 1], items[|items| - 1];
      assert items == init + [last];
      GatheredPartition(init, key);
      GatheredNext(init, last, key);
    }
  }

  lemma GatheredNext<T>(init: seq<T>, last: T, key: T -> int)
    ensures multiset(Gathered(init + [last], key, FirstKeys(init + [last], key)))
         == multiset(Gathered(init, key, FirstKeys(init, key))) + multiset{last}
  {
    var k, ks := key(last), FirstKeys(init, key);
    assert (init + [last])[..|init|] == init;
    FirstKeysDistinct(init, key);
    if k in ks {
      GatheredWith(init, key, ks, last);
    } else {
      GatheredSplit(init + [last], key, ks, k);
      GatheredWithout(init, key, ks, last);
      WithKeyAbsent(init, key, k);
    }
  }

  // ---- Sorted input ----

  ghost predicate SortedByKey<T>(items: seq<T>, key: T -> int) {
    forall a, b | 0 <= a <= b < |items| :: key(items[a]) <= key(items[b])
  }

  lemma {:induction false} SortedLastKey<T>(items: seq<T>, key: T -> int)
    requires SortedByKey(items, key) && items != []
    ensures var ks := FirstKeys(items, key);
      ks != [] && ks[|ks| - 1] == key(items[|items| - 1]) && forall a | 0 <= a < |ks| :: ks[a] <= ks[|ks| - 1]
  {
    var init, last := items[..|items| - 1], items[|items| - 1];
    if init != [] {
      SortedLastKey(init, key);
      var ks := FirstKeys(init, key);
      assert key(init[|init| - 1]) <= key(last);
      if key(last) in ks {
        var a :| 0 <= a < |ks| && ks[a] == key(last);
      }
    }
  }

  /** Rows that come sorted by the key keep their order through the grouping. */
  lemma {:induction false} SortedGroupsKeepOrder<T>(items: seq<T>, key: T -> int)
    requires SortedByKey(items, key)
    ensures Flatten(Grouped(items, key)) == items
  {
    FlattenGrouped(items, key);
    SortedGathered(items, key);
  }

  lemma {:induction false} SortedGathered<T>(items: seq<T>, key: T -> int)
    requires SortedByKey(items, key)
    ensures Gathered(items, key, FirstKeys(items, key)) == items
  {
    if items != [] {
      var init, last := items[..|items| - 1], items[|items| - 1];
      var k, ks := key(last), FirstKeys(init, key);
      assert items == init + [last] && items[..|init|] == init;
      SortedGathered(init, key);
      if k in ks {
        GatheredLastGroup(init, last, key);
      } else {
        GatheredSplit(items, key, ks, k);
        GatheredWithout(init, key, ks, last);
        WithKeyAbsent(init, key, k);
      }
    }
  }

  /** Splits the groups before the last one off. */
  lemma GatheredFront<T>(items: seq<T>, key: T -> int, ks: seq<int>)
    requires ks != []
    ensures Gathered(items, key, ks) == Gathered(items, key, ks[..|ks| - 1]) + WithKey(items, key, ks[|ks| - 1])
  {
    assert ks == ks[..|ks| - 1] + [ks[|ks| - 1]];
    GatheredSplit(items, key, ks[..|ks| - 1], ks[|ks| - 1]);
  }

  lemma WithKeyLast<T>(init: seq<T>, last: T, key: T -> int)
    ensures WithKey(init + [last], key, key(last)) == WithKey(init, key, key(last)) + [last]
  {
    assert (init + [last])[..|init|] == init;
  }

  lemma LastKeyIsLast<T>(init: seq<T>, last: T, key: T -> int)
    requires SortedByKey(init + [last], key) && key(last) in FirstKeys(init, key)
    ensures var ks := FirstKeys(init, key); ks[|ks| - 1] == key(last) && key(last) !in ks[..|ks| - 1]
  {
    var items := init + [last];
    assert items[..|init|] == init;
    FirstKeysDistinct(init, key);
    SortedLastKey(items, key);
  }

  lemma GatheredLastGroup<T>(init: seq<T>, last: T, key: T -> int)
    requires SortedByKey(init + [last], key) && key(last) in FirstKeys(init, key)
    ensures Gathered(init + [last], key, FirstKeys(init, key)) == Gathered(init, key, FirstKeys(init, key)) + [last]
  {
    var ks := FirstKeys(init, key);
    LastKeyIsLast(init, last, key);
    GatheredFront(init, key, ks);
    GatheredFront(init + [last], key, ks);
    GatheredWithout(init, key, ks[..|ks| - 1], last);
    WithKeyLast(init, last, key);
  }

  // ---- Batches ----

  /** `[items[i : i + size] for i in range(start, len(items), size)]`. */
  function ChunksFrom<T>(items: seq<T>, size: int, start: nat): seq<seq<T>>
    requires size >= 1
    decreases |items| - start
  {
    if start >= |items| then []
    else
      var stop := if start + size <= |items| then start + size else |items|;
      [items[start..stop]] + ChunksFrom(items, size, start + size)
  }

  function Chunked<T>(items: seq<T>, size: int): seq<seq<T>>
    requires size >= 1
  {
    ChunksFrom(items, size, 0)
  }

  function Concat<T>(parts: seq<seq<T>>): seq<T> {
    if parts == [] then [] else parts[0] + Concat(parts[1..])
  }

  lemma {:induction false} ChunksFromCover<T>(items: seq<T>, size: int, start: nat)
    requires size >= 1
    ensures Concat(ChunksFrom(items, size, start)) == items[if start <= |items| then start else |items|..]
    ensures forall c | 0 <= c < |ChunksFrom(items, size, start)| :: 0 < |ChunksFrom(items, size, start)[c]| <= size
    decreases |items| - start
  {
    if start < |items| {
      var stop := if start + size <= |items| then start + size else |items|;
      ChunksFromCover(items, size, start + size);
      assert items[start..] == items[start..stop] + items[stop..];
      assert ChunksFrom(items, size, start)[1..] == ChunksFrom(items, size, start + size);
    }
  }

  /** The batches are non-empty, no longer than asked for, and make up the list again. */
  lemma ChunksCover<T>(items: seq<T>, size: int)
    requires size >= 1
    ensures Concat(Chunked(items, size)) == items
    ensures forall c | 0 <= c < |Chunked(items, size)| :: 0 < |Chunked(items, size)[c]| <= size
  {
    ChunksFromCover(items, size, 0);
    assert items[0..] == items;
  }

  /** All batches but the last are as long as asked for. */
  lemma {:induction false} ChunksAreFull<T>(items: seq<T>, size: int, start: nat, c: nat)
    requires size >= 1 && c < |ChunksFrom(items, size, start)|
    ensures var chunks := ChunksFrom(items, size, start);
      |chunks[c]| == size || (c == |chunks| - 1 && |chunks[c]| < size)
    decreases c
  {
    if c > 0 {
      assert ChunksFrom(items, size, start)[c] == ChunksFrom(items, size, start + size)[c - 1];
      ChunksAreFull(items, size, start + size, c - 1);
    }
  }

  /** How many items the first `b` batches hold. */
  function SizeOf<T>(batches: seq<seq<T>>, b: nat): nat
    requires b <= |batches|
  {
    if b == 0 then 0 else SizeOf(batches, b - 1) + |batches[b - 1]|
  }

  lemma {:induction false} SizeOfGrows<T>(batches: seq<seq<T>>, a: nat, b: nat)
    requires a <= b <= |batches|
    ensures SizeOf(batches, a) <= SizeOf(batches, b)
  {
    if a < b {
      SizeOfGrows(batches, a, b - 1);
    }
  }

  lemma {:induction false} SizeOfRest<T>(batches: seq<seq<T>>, b: nat)
    requires 1 <= b <= |batches|
    ensures SizeOf(batches, b) == |batches[0]| + SizeOf(batches[1..], b - 1)
  {
    if b > 1 {
      SizeOfRest(batches, b - 1);
    }
  }

  lemma {:induction false} SizeOfAll<T>(batches: seq<seq<T>>)
    ensures SizeOf(batches, |batches|) == |Concat(batches)|
  {
    if batches != [] {
      SizeOfRest(batches, |batches|);
      SizeOfAll(batches[1..]);
    }
  }

  lemma {:induction false} SizeOfSegment<T>(all: seq<seq<T>>, first: nat, part: seq<seq<T>>, b: nat)
    requires first <= |all| && part <= all[first..] && b <= |part|
    ensures first + b <= |all| && SizeOf(all, first + b) == SizeOf(all, first) + SizeOf(part, b)
  {
    if b > 0 {
      SizeOfSegment(all, first, part, b - 1);
      assert all[first..][b - 1] == part[b - 1];
    }
  }

  /** The batch that holds the item at `n`. */
  lemma {:induction false} BatchHolding<T>(batches: seq<seq<T>>, n: nat, k: nat) returns (b: nat)
    requires k <= |batches| && n < SizeOf(batches, k)
    ensures 1 <= b <= k && SizeOf(batches, b - 1) <= n < SizeOf(batches, b)
  {
    if SizeOf(batches, k - 1) <= n {
      b := k;
    } else {
      b := BatchHolding(batches, n, k - 1);
    }
  }

  // ---- The batches of all groups ----

  /** The batches of the first `d` groups in turn: no batch spans two groups. */
  function BatchesBefore<T>(groups: seq<Group<T>>, size: int, d: nat): seq<seq<T>>
    requires size >= 1 && d <= |groups|
  {
    if d == 0 then [] else BatchesBefore(groups, size, d - 1) + Chunked(groups[d - 1].items, size)
  }

  function Batches<T>(groups: seq<Group<T>>, size: int): seq<seq<T>>
    requires size >= 1
  {
    BatchesBefore(groups, size, |groups|)
  }

  lemma {:induction false} SizeOfPrefix<T>(part: seq<seq<T>>, all: seq<seq<T>>, b: nat)
    requires part <= all && b <= |part|
    ensures SizeOf(all, b) == SizeOf(part, b)
  {
    if b > 0 {
      SizeOfPrefix(part, all, b - 1);
    }
  }

  lemma SizeOfTogether<T>(a: seq<seq<T>>, b: seq<seq<T>>)
    ensures SizeOf(a + b, |a + b|) == SizeOf(a, |a|) + SizeOf(b, |b|)
  {
    SizeOfPrefix(a, a + b, |a|);
    SizeOfSegment(a + b, |a|, b, |b|);
  }

  /** They hold the items of these groups. */
  lemma {:induction false} BatchesHold<T>(groups: seq<Group<T>>, size: int, d: nat)
    requires size >= 1 && d <= |groups|
    ensures SizeOf(BatchesBefore(groups, size, d), |BatchesBefore(groups, size, d)|) == CountBefore(groups, d)
  {
    if d > 0 {
      var part := Chunked(groups[d - 1].items, size);
      BatchesHold(groups, size, d - 1);
      SizeOfTogether(BatchesBefore(groups, size, d - 1), part);
      SizeOfAll(part);
      ChunksCover(groups[d - 1].items, size);
    }
  }

  lemma {:induction false} BatchesExtend<T>(groups: seq<Group<T>>, size: int, d: nat, e: nat)
    requires size >= 1 && d <= e <= |groups|
    ensures BatchesBefore(groups, size, d) <= BatchesBefore(groups, size, e)
  {
    if d < e {
      BatchesExtend(groups, size, d, e - 1);
    }
  }

  lemma PartAfter<T>(before: seq<T>, part: seq<T>, all: seq<T>)
    requires before + part <= all
    ensures |before| <= |all| && part <= all[|before|..]
  {
    assert all[..|before + part|] == before + part;
  }

  /** The batches of group `d` as a segment of all batches. */
  lemma SegmentOfGroup<T>(groups: seq<Group<T>>, size: int, d: nat) returns (all: seq<seq<T>>, part: seq<seq<T>>, first: nat)
    requires size >= 1 && d < |groups|
    ensures all == Batches(groups, size) && part == Chunked(groups[d].items, size) && first == |BatchesBefore(groups, size, d)|
    ensures first <= |all| && part <= all[first..] && SizeOf(all, first) == CountBefore(groups, d)
  {
    var before := BatchesBefore(groups, size, d);
    all, part, first := Batches(groups, size), Chunked(groups[d].items, size), |before|;
    BatchesExtend(groups, size, d + 1, |groups|);
    PartAfter(before, part, all);
    BatchesHold(groups, size, d);
    SizeOfPrefix(before, all, first);
  }

  // ---- The leading batches within a bound ----

  /** How many batches, of which the first `b` are within the bound, can be taken in turn within it. */
  function Fitting<T>(batches: seq<seq<T>>, bound: nat, b: nat): (k: nat)
    requires b <= |batches| && SizeOf(batches, b) <= bound
    ensures b <= k <= |batches| && SizeOf(batches, k) <= bound
    ensures k < |batches| ==> SizeOf(batches, k + 1) > bound
    decreases |batches| - b
  {
    if b < |batches| && SizeOf(batches, b + 1) <= bound then Fitting(batches, bound, b + 1) else b
  }

  /** The items of the longest run of leading batches within the bound. */
  function Within<T>(batches: seq<seq<T>>, bound: nat): nat {
    SizeOf(batches, Fitting(batches, bound, 0))
  }

  lemma WithinIsMost<T>(batches: seq<seq<T>>, bound: nat, b: nat)
    requires b <= |batches| && SizeOf(batches, b) <= bound
    ensures SizeOf(batches, b) <= Within(batches, bound) <= bound
  {
    var k := Fitting(batches, bound, 0);
    if b <= k {
      SizeOfGrows(batches, b, k);
    } else {
      SizeOfGrows(batches, k + 1, b);
    }
  }
}
