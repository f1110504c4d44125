/**
The batch lookup of the Engram CPU benchmark (`grouped` in `bench.cpp`): owned indices are
sorted by lock stripe, every stripe is searched once, and the misses fall back to serve.
*/
module GroupedLookup {
  import opened Prelude
  import opened EngramTable
  import opened PackedLayout
  import opened RowCache
  import opened RowStore

  // ---------------------------------------------------------- counting sort

  /** How many of the first n entries have key k. */
  function CountKey(keys: seq<Option<nat>>, k: nat, n: nat): nat
    requires n <= |keys|
  {
    if n == 0 then 0 else CountKey(keys, k, n - 1) + if keys[n - 1] == Some(k) then 1 else 0
  }

  /** Where the segment of key k starts. */
  function Start(keys: seq<Option<nat>>, k: nat): nat {
    if k == 0 then 0 else Start(keys, k - 1) + CountKey(keys, k - 1, |keys|)
  }

  /** The place of entry i: behind all smaller keys and all earlier entries of its key. */
  function Place(keys: seq<Option<nat>>, i: nat): nat
    requires i < |keys| && keys[i].Some?
  {
    Start(keys, keys[i].value) + CountKey(keys, keys[i].value, i)
  }

  lemma {:induction false} CountMonotone(keys: seq<Option<nat>>, k: nat, a: nat, b: nat)
    requires a <= b <= |keys|
    ensures CountKey(keys, k, a) <= CountKey(keys, k, b)
    ensures a < b && keys[a] == Some(k) ==> CountKey(keys, k, a) < CountKey(keys, k, b)
  {
    if a < b {
      CountMonotone(keys, k, a, b - 1);
    }
  }

  lemma {:induction false} StartMonotone(keys: seq<Option<nat>>, a: nat, b: nat)
    requires a <= b
    ensures Start(keys, a) <= Start(keys, b)
  {
    if a < b {
      StartMonotone(keys, a, b - 1);
    }
  }

  lemma PlaceInSegment(keys: seq<Option<nat>>, i: nat)
    requires i < |keys| && keys[i].Some?
    ensures Start(keys, keys[i].value) <= Place(keys, i) < Start(keys, keys[i].value + 1)
  {
    CountMonotone(keys, keys[i].value, i, |keys|);
  }

  /** No two entries share a place. */
  lemma PlacesDiffer(keys: seq<Option<nat>>, i: nat, j: nat)
    requires i < |keys| && j < |keys| && keys[i].Some? && keys[j].Some?
    ensures i != j ==> Place(keys, i) != Place(keys, j)
  {
    var a, b := keys[i].value, keys[j].value;
    PlaceInSegment(keys, i);
    PlaceInSegment(keys, j);
    if a == b {
      CountMonotone(keys, a, if i < j then i else j, if i < j then j else i);
    } else if a < b {
      StartMonotone(keys, a + 1, b);
    } else {
      StartMonotone(keys, b + 1, a);
    }
  }

  /** Every place of a segment is taken by an entry of that key. */
  lemma {:induction false} PlaceTaken(keys: seq<Option<nat>>, k: nat, j: nat) returns (i: nat)
    requires Start(keys, k) <= j < Start(keys, k + 1)
    ensures i < |keys| && keys[i] == Some(k) && Place(keys, i) == j
  {
    i := NthEntry(keys, k, j - Start(keys, k), |keys|);
  }

  lemma {:induction false} NthEntry(keys: seq<Option<nat>>, k: nat, m: nat, n: nat) returns (i: nat)
    requires n <= |keys| && m < CountKey(keys, k, n)
    ensures i < n && keys[i] == Some(k) && CountKey(keys, k, i) == m
  {
    if m == CountKey(keys, k, n - 1) && keys[n - 1] == Some(k) {
      i := n - 1;
    } else {
      i := NthEntry(keys, k, m, n - 1);
    }
  }

  /** The number of entries that have a key at all. */
  function CountSome(keys: seq<Option<nat>>, n: nat): nat
    requires n <= |keys|
  {
    if n == 0 then 0 else CountSome(keys, n - 1) + if keys[n - 1].Some? then 1 else 0
  }

  /** Entries of the first n with a key below k. */
  function CountBelow(keys: seq<Option<nat>>, k: nat, n: nat): nat
    requires n <= |keys|
  {
    if k == 0 then 0 else CountBelow(keys, k - 1, n) + CountKey(keys, k - 1, n)
  }

  lemma {:induction false} StartIsCountBelow(keys: seq<Option<nat>>, k: nat)
    ensures Start(keys, k) == CountBelow(keys, k, |keys|)
  {
    if k > 0 {
      StartIsCountBelow(keys, k - 1);
    }
  }

  lemma {:induction false} CountBelowStep(keys: seq<Option<nat>>, k: nat, n: nat)
    requires 0 < n <= |keys|
    ensures CountBelow(keys, k, n) == CountBelow(keys, k, n - 1)
      + if keys[n - 1].Some? && keys[n - 1].value < k then 1 else 0
  {
    if k > 0 {
      CountBelowStep(keys, k - 1, n);
    }
  }

  lemma {:induction false} CountBelowAll(keys: seq<Option<nat>>, k: nat, n: nat)
    requires n <= |keys| && (forall i :: 0 <= i < n && keys[i].Some? ==> keys[i].value < k)
    ensures CountBelow(keys, k, n) == CountSome(keys, n)
  {
    if n == 0 {
      CountBelowZero(keys, k);
    } else {
      CountBelowAll(keys, k, n - 1);
      CountBelowStep(keys, k, n);
    }
  }

  lemma {:induction false} CountBelowZero(keys: seq<Option<nat>>, k: nat)
    ensures CountBelow(keys, k, 0) == 0
  {
    if k > 0 {
      CountBelowZero(keys, k - 1);
    }
  }

  /** The segments of keys below k hold every entry once. */
  lemma StartOfAll(keys: seq<Option<nat>>, k: nat)
    requires forall i :: 0 <= i < |keys| && keys[i].Some? ==> keys[i].value < k
    ensures Start(keys, k) == CountSome(keys, |keys|)
  {
    StartIsCountBelow(keys, k);
    CountBelowAll(keys, k, |keys|);
  }

  /** `for i in 1..257: offsets[i] += offsets[i - 1]` turns counts into segment starts. */
  method PrefixSums(offsets: array<nat>, ghost keys: seq<Option<nat>>)
    requires offsets.Length > 0 && offsets[0] == 0
    requires forall k :: 1 <= k < offsets.Length ==> offsets[k] == CountKey(keys, k - 1, |keys|)
    modifies offsets
    ensures forall k :: 0 <= k < offsets.Length ==> offsets[k] == Start(keys, k)
  {
    ghost var counts := offsets[..];
    for i := 1 to offsets.Length
      invariant forall k :: 0 <= k < offsets.Length ==> offsets[k] == if k < i then Start(keys, k) else counts[k]
    {
      assert Start(keys, i) == offsets[i - 1] + counts[i];
      offsets[i] := offsets[i] + offsets[i - 1];
    }
  }

  /** The write cursor of every key after the first i entries. */
  ghost predicate Cursors(keys: seq<Option<nat>>, next: seq<nat>, i: nat)
    requires i <= |keys|
  {
    forall k :: 0 <= k < |next| ==> next[k] == Start(keys, k) + CountKey(keys, k, i)
  }

  /** The first i entries are at their places. */
  ghost predicate Placed(keys: seq<Option<nat>>, indices: seq<nat>, i: nat)
    requires i <= |keys|
  {
    forall j :: 0 <= j < i && keys[j].Some? ==> Place(keys, j) < |indices| && indices[Place(keys, j)] == j
  }

  lemma PlacedNext(keys: seq<Option<nat>>, indices: seq<nat>, i: nat)
    requires i < |keys| && keys[i].Some? && Placed(keys, indices, i) && Place(keys, i) < |indices|
    ensures Placed(keys, indices[Place(keys, i) := i], i + 1)
  {
    forall j | 0 <= j < i && keys[j].Some? ensures Place(keys, j) != Place(keys, i) {
      PlacesDiffer(keys, j, i);
    }
  }

  /** The scatter pass: every entry with a key goes to its place, and only there. */
  method Scatter(keys: seq<Option<nat>>, next: array<nat>, indices: array<nat>)
    requires next != indices && Start(keys, next.Length) <= indices.Length
    requires forall i :: 0 <= i < |keys| && keys[i].Some? ==> keys[i].value < next.Length
    requires Cursors(keys, next[..], 0)
    modifies next, indices
    ensures Placed(keys, indices[..], |keys|)
  {
    for i := 0 to |keys|
      invariant Cursors(keys, next[..], i) && Placed(keys, indices[..], i)
    {
      if keys[i].Some? {
        var key := keys[i].value;
        ghost var before := indices[..];
        assert next[..][key] == Place(keys, i);
        PlaceInSegment(keys, i);
        StartMonotone(keys, key + 1, next.Length);
        indices[next[key]] := i;
        PlacedNext(keys, before, i);
        assert indices[..] == before[Place(keys, i) := i];
        next[key] := next[key] + 1;
      }
    }
  }

  // --------------------------------------------------------- grouped lookup

  /** The lock stripe of every owned index. */
  function StripeKeys(ids: seq<int>, lo: nat, hi: nat, sets: nat): (r: seq<Option<nat>>)
    requires sets > 0
    ensures |r| == |ids|
    ensures forall i :: 0 <= i < |ids| ==>
      r[i] == if Owned(lo, hi, ids[i]) then Some(Stripe(ids[i], sets)) else None
  {
    seq(|ids|, i requires 0 <= i < |ids| =>
      if Owned(lo, hi, ids[i]) then Some(Stripe(ids[i], sets)) else None)
  }

  /** Exactly the owned indices have a stripe. */
  predicate KeysOfOwned(ids: seq<int>, lo: nat, hi: nat, keys: seq<Option<nat>>) {
    && |keys| == |ids|
    && forall i :: 0 <= i < |ids| ==>
      (keys[i].Some? <==> Owned(lo, hi, ids[i])) && (keys[i].Some? ==> keys[i].value < 256)
  }

  lemma {:induction false} CountSomeOwned(ids: seq<int>, lo: nat, hi: nat, sets: nat, n: nat)
    requires sets > 0 && n <= |ids|
    ensures CountSome(StripeKeys(ids, lo, hi, sets), n) == CountOwned(lo, hi, ids[..n])
  {
    if n > 0 {
      CountSomeOwned(ids, lo, hi, sets, n - 1);
      assert ids[..n][..n - 1] == ids[..n - 1];
    }
  }

  /** After i entries: how many of each key, one place further on. */
  ghost predicate Counted(keys: seq<Option<nat>>, offsets: seq<nat>, i: nat)
    requires i <= |keys|
  {
    |offsets| > 0 && offsets[0] == 0 && forall k :: 1 <= k < |offsets| ==> offsets[k] == CountKey(keys, k - 1, i)
  }

  lemma CountedNext(keys: seq<Option<nat>>, offsets: seq<nat>, i: nat)
    requires i < |keys| && Counted(keys, offsets, i) && (keys[i].Some? ==> keys[i].value + 1 < |offsets|)
    ensures if keys[i].Some? then
              var k := keys[i].value + 1;
              Counted(keys, offsets[k := offsets[k] + 1], i + 1)
            else Counted(keys, offsets, i + 1)
  {
  }

  /** The first pass: zero what is not owned, count the owned indices of every stripe. */
  method Classify(s: Store, ids: seq<int>, weights: array<seq<Byte>>, scales: array<seq<Byte>>, offsets: array<nat>)
    returns (keys: seq<Option<nat>>, bad: bool)
    requires s.Valid() && s.Buffers(ids, weights, scales) && s.sets > 0
    requires offsets.Length == 257 && (forall k :: 0 <= k < 257 ==> offsets[k] == 0)
    requires offsets as object !in {s.keys as object, s.cache as object, s.victim as object,
                                    weights as object, scales as object}
    modifies weights, scales, offsets
    ensures s.Valid()
    ensures bad <==> exists i :: 0 <= i < |ids| && ids[i] >= s.table.rows
    ensures !bad ==> keys == StripeKeys(ids, s.rowLo, s.rowHi, s.sets)
    ensures !bad ==> forall i :: 0 <= i < |ids| && !Owned(s.rowLo, s.rowHi, ids[i]) ==>
      Delivers(s.table, s.rowLo, s.rowHi, ids[i], weights[i], scales[i])
    ensures !bad ==> offsets[0] == 0 && forall k :: 1 <= k < 257 ==> offsets[k] == CountKey(keys, k - 1, |keys|)
  {
    keys := [];
    ghost var all := StripeKeys(ids, s.rowLo, s.rowHi, s.sets);
    for i := 0 to |ids|
      invariant s.Valid() && keys == all[..i]
      invariant forall j :: 0 <= j < i ==> ids[j] < s.table.rows
      invariant forall j :: 0 <= j < i && !Owned(s.rowLo, s.rowHi, ids[j]) ==>
        Delivers(s.table, s.rowLo, s.rowHi, ids[j], weights[j], scales[j])
      invariant Counted(all, offsets[..], i)
    {
      CountedNext(all, offsets[..], i);
      var id := ids[i];
      if id >= s.table.rows {
        return keys, true;
      }
      if Owned(s.rowLo, s.rowHi, id) {
        var key := Stripe(id, s.sets);
        ghost var before := offsets[..];
        offsets[key + 1] := offsets[key + 1] + 1;
        assert offsets[..] == before[key + 1 := before[key + 1] + 1];
        keys := keys + [Some(key)];
      } else {
        weights[i], scales[i] := Zeros(256), Zeros(8);
        keys := keys + [None];
      }
    }
    bad := false;
  }

  /** An id has been looked at: its output is right, or it waits among the misses. */
  predicate Settled(table: Table, lo: nat, hi: nat, id: int, weight: seq<Byte>, scale: seq<Byte>, waits: bool)
    requires table.Valid() && lo <= hi <= table.rows
  {
    waits || Delivers(table, lo, hi, id, weight, scale)
  }

  /** One position of one stripe segment: copy a hit, or remember a miss. */
  method SearchOne(s: Store, ids: seq<int>, weights: array<seq<Byte>>, scales: array<seq<Byte>>, i: nat)
    returns (hit: bool)
    requires s.Valid() && s.Buffers(ids, weights, scales) && s.sets > 0
    requires i < |ids| && Owned(s.rowLo, s.rowHi, ids[i])
    modifies weights, scales
    ensures s.Valid()
    ensures hit ==> Delivers(s.table, s.rowLo, s.rowHi, ids[i], weights[i], scales[i])
    ensures forall k :: 0 <= k < |ids| && (k != i || !hit) ==>
      weights[k] == old(weights[k]) && scales[k] == old(scales[k])
  {
    var id := ids[i];
    var base := id % s.sets * s.ways;
    var way := s.FindWay(id);
    hit := way < s.ways;
    LookupAt(s.View(), id, way);
    if hit {
      HitIsExact(s.View(), s.table, id);
      var row := s.cache[base + way];
      weights[i], scales[i] := row[..256], row[256..];
    }
  }

  /** direct: one probe per owned id, and serve for everything that is not found. */
  method Direct(s: Store, ids: seq<int>, weights: array<seq<Byte>>, scales: array<seq<Byte>>)
    returns (r: Option<Abort>)
    requires s.Valid() && s.Buffers(ids, weights, scales)
    modifies s`hits, s`misses, s`deviceReads, s`ioBytes, s`log, s.keys, s.cache, s.victim, weights, scales
    ensures s.Valid()
    ensures r == None ==> forall i :: 0 <= i < |ids| ==>
      Delivers(s.table, s.rowLo, s.rowHi, ids[i], weights[i], scales[i])
    ensures r == None ==> s.hits + s.misses == old(s.hits + s.misses) + CountOwned(s.rowLo, s.rowHi, ids)
    ensures r == Some(BadRow) ==> exists i :: 0 <= i < |ids| && ids[i] >= s.table.rows
    ensures old(s.log) <= s.log && (r == Some(ShortRead) <==> s.SomeShort(old(s.log), s.log))
    ensures r == None || r == Some(BadRow) || r == Some(ShortRead)
  {
    for i := 0 to |ids|
      invariant s.Valid()
      invariant old(s.log) <= s.log && !s.SomeShort(old(s.log), s.log)
      invariant forall k :: 0 <= k < i ==> Delivers(s.table, s.rowLo, s.rowHi, ids[k], weights[k], scales[k])
      invariant s.hits + s.misses == old(s.hits + s.misses) + CountOwned(s.rowLo, s.rowHi, ids[..i])
    {
      assert ids[..i + 1][..i] == ids[..i];
      var found := false;
      if s.sets > 0 && Owned(s.rowLo, s.rowHi, ids[i]) {
        found := SearchOne(s, ids, weights, scales, i);
      }
      if found {
        s.hits := s.hits + 1;
      } else {
        ghost var before := s.log;
        r := s.ServeOne(ids, weights, scales, i);
        s.MoreReads(old(s.log), before, s.log);
        if r.Some? {
          return;
        }
      }
    }
    assert ids[..|ids|] == ids;
    r := None;
  }

  /** All indices of the first stripes have been looked at. */
  predicate AllSettled(table: Table, lo: nat, hi: nat, ids: seq<int>, keys: seq<Option<nat>>, stripes: nat,
    w: seq<seq<Byte>>, c: seq<seq<Byte>>, misses: seq<nat>)
    requires table.Valid() && lo <= hi <= table.rows && |keys| == |ids| && |w| >= |ids| && |c| >= |ids|
  {
    forall i :: 0 <= i < |ids| && keys[i].Some? && keys[i].value < stripes ==>
      Settled(table, lo, hi, ids[i], w[i], c[i], i in misses)
  }

  /** Looking at one more stripe, which leaves the outputs of all others alone. */
  lemma OneMoreStripe(table: Table, lo: nat, hi: nat, ids: seq<int>, keys: seq<Option<nat>>, stripe: nat,
        w: seq<seq<Byte>>, c: seq<seq<Byte>>, misses: seq<nat>,
        w': seq<seq<Byte>>, c': seq<seq<Byte>>, late: seq<nat>)
    requires table.Valid() && lo <= hi <= table.rows && |keys| == |ids|
    requires |w'| == |w| >= |ids| && |c'| == |c| >= |ids|
    requires AllSettled(table, lo, hi, ids, keys, stripe, w, c, misses)
    requires forall i :: 0 <= i < |ids| && keys[i] == Some(stripe) ==>
      Settled(table, lo, hi, ids[i], w'[i], c'[i], i in late)
    requires forall i :: 0 <= i < |ids| && keys[i] != Some(stripe) ==> w'[i] == w[i] && c'[i] == c[i]
    ensures AllSettled(table, lo, hi, ids, keys, stripe + 1, w', c', misses + late)
  {
  }

  /** The search over all stripes, one lock acquisition each. */
  method Search(s: Store, ids: seq<int>, weights: array<seq<Byte>>, scales: array<seq<Byte>>,
        ghost keys: seq<Option<nat>>, offsets: array<nat>, indices: array<nat>)
    returns (found: nat, misses: seq<nat>)
    requires s.Valid() && s.Buffers(ids, weights, scales) && s.sets > 0
    requires KeysOfOwned(ids, s.rowLo, s.rowHi, keys)
    requires offsets.Length == 257 && (forall k :: 0 <= k < 257 ==> offsets[k] == Start(keys, k))
    requires indices.Length == |ids| && Placed(keys, indices[..], |keys|)
    requires weights as object !in {offsets as object, indices as object}
    requires scales as object !in {offsets as object, indices as object}
    modifies weights, scales
    ensures s.Valid()
    ensures found + |misses| == Start(keys, 256)
    ensures forall k :: 0 <= k < |misses| ==> misses[k] < |ids| && Owned(s.rowLo, s.rowHi, ids[misses[k]])
    ensures forall i :: 0 <= i < |ids| && Owned(s.rowLo, s.rowHi, ids[i]) ==>
      Settled(s.table, s.rowLo, s.rowHi, ids[i], weights[i], scales[i], i in misses)
    ensures forall i :: 0 <= i < |ids| && !Owned(s.rowLo, s.rowHi, ids[i]) ==>
      weights[i] == old(weights[i]) && scales[i] == old(scales[i])
  {
    found, misses := 0, [];
    for stripe := 0 to 256
      invariant s.Valid() && found + |misses| == Start(keys, stripe)
      invariant forall k :: 0 <= k < |misses| ==> misses[k] < |ids| && Owned(s.rowLo, s.rowHi, ids[misses[k]])
      invariant AllSettled(s.table, s.rowLo, s.rowHi, ids, keys, stripe, weights[..], scales[..], misses)
      invariant forall i :: 0 <= i < |ids| && !Owned(s.rowLo, s.rowHi, ids[i]) ==>
        weights[i] == old(weights[i]) && scales[i] == old(scales[i])
    {
      ghost var w, c := weights[..], scales[..];
      var more, late := SearchStripe(s, ids, weights, scales, keys, offsets, indices, stripe);
      OneMoreStripe(s.table, s.rowLo, s.rowHi, ids, keys, stripe, w, c, misses, weights[..], scales[..], late);
      found, misses := found + more, misses + late;
    }
  }

  method SearchStripe(s: Store, ids: seq<int>, weights: array<seq<Byte>>, scales: array<seq<Byte>>,
        ghost keys: seq<Option<nat>>, offsets: array<nat>, indices: array<nat>, stripe: nat)
    returns (found: nat, misses: seq<nat>)
    requires s.Valid() && s.Buffers(ids, weights, scales) && s.sets > 0
    requires KeysOfOwned(ids, s.rowLo, s.rowHi, keys)
    requires offsets.Length == 257 && (forall k :: 0 <= k < 257 ==> offsets[k] == Start(keys, k)) && stripe < 256
    requires indices.Length == |ids| && Placed(keys, indices[..], |keys|)
    requires weights as object !in {offsets as object, indices as object}
    requires scales as object !in {offsets as object, indices as object}
    modifies weights, scales
    ensures s.Valid()
    ensures found + |misses| == CountKey(keys, stripe, |keys|)
    ensures forall k :: 0 <= k < |misses| ==> misses[k] < |ids| && keys[misses[k]] == Some(stripe)
    ensures forall i :: 0 <= i < |ids| && keys[i] == Some(stripe) ==>
      Settled(s.table, s.rowLo, s.rowHi, ids[i], weights[i], scales[i], i in misses)
    ensures forall i :: 0 <= i < |ids| && keys[i] != Some(stripe) ==>
      weights[i] == old(weights[i]) && scales[i] == old(scales[i])
  {
    found, misses := 0, [];
    var j := offsets[stripe];
    while j < offsets[stripe + 1]
      invariant s.Valid() && offsets[stripe] <= j <= offsets[stripe + 1]
      invariant found + |misses| == j - offsets[stripe]
      invariant forall k :: 0 <= k < |misses| ==> misses[k] < |ids| && keys[misses[k]] == Some(stripe)
      invariant forall i :: 0 <= i < |ids| && keys[i] == Some(stripe) && Place(keys, i) < j ==>
        Settled(s.table, s.rowLo, s.rowHi, ids[i], weights[i], scales[i], i in misses)
      invariant forall i :: 0 <= i < |ids| && keys[i] != Some(stripe) ==>
        weights[i] == old(weights[i]) && scales[i] == old(scales[i])
    {
      ghost var entry := PlaceTaken(keys, stripe, j);
      assert indices[..][j] == entry;
      var i := indices[j];
      var hit := SearchOne(s, ids, weights, scales, i);
      if hit {
        found := found + 1;
      } else {
        misses := misses + [i];
      }
      forall k | 0 <= k < |ids| && keys[k] == Some(stripe) && Place(keys, k) == j ensures k == i {
        PlacesDiffer(keys, k, i);
      }
      j := j + 1;
    }
    forall i | 0 <= i < |ids| && keys[i] == Some(stripe) ensures Place(keys, i) < j {
      PlaceInSegment(keys, i);
    }
  }

  /** The fallback: every miss goes through serve, which probes again before it reads. */
  method ServeMisses(s: Store, ids: seq<int>, weights: array<seq<Byte>>, scales: array<seq<Byte>>, misses: seq<nat>)
    returns (r: Option<Abort>)
    requires s.Valid() && s.Buffers(ids, weights, scales)
    requires forall k :: 0 <= k < |misses| ==> misses[k] < |ids| && Owned(s.rowLo, s.rowHi, ids[misses[k]])
    requires forall i :: 0 <= i < |ids| ==>
      Settled(s.table, s.rowLo, s.rowHi, ids[i], weights[i], scales[i], i in misses)
    modifies s`hits, s`misses, s`deviceReads, s`ioBytes, s`log, s.keys, s.cache, s.victim, weights, scales
    ensures s.Valid()
    ensures r == None ==> forall i :: 0 <= i < |ids| ==>
      Delivers(s.table, s.rowLo, s.rowHi, ids[i], weights[i], scales[i])
    ensures r == None ==> s.hits + s.misses == old(s.hits + s.misses) + |misses|
    ensures r == None || r == Some(ShortRead)
    ensures old(s.log) <= s.log && (r == Some(ShortRead) <==> s.SomeShort(old(s.log), s.log))
  {
    for m := 0 to |misses|
      invariant s.Valid()
      invariant old(s.log) <= s.log && !s.SomeShort(old(s.log), s.log)
      invariant s.hits + s.misses == old(s.hits + s.misses) + m
      invariant forall i :: 0 <= i < |ids| ==>
        Settled(s.table, s.rowLo, s.rowHi, ids[i], weights[i], scales[i], i in misses[m..])
    {
      var i := misses[m];
      ghost var before := s.log;
      r := s.ServeOne(ids, weights, scales, i);
      s.MoreReads(old(s.log), before, s.log);
      if r.Some? {
        return;
      }
      assert misses[m..] == [i] + misses[m + 1..];
    }
    r := None;
  }

  /**
  The grouped lookup delivers exactly what the sequential loop delivers, for any batch and
  any valid cache, and counts every owned index once.
  */
  method Grouped(s: Store, ids: seq<int>, weights: array<seq<Byte>>, scales: array<seq<Byte>>)
    returns (r: Option<Abort>)
    requires s.Valid() && s.Buffers(ids, weights, scales)
    modifies s`hits, s`misses, s`deviceReads, s`ioBytes, s`log, s.keys, s.cache, s.victim, weights, scales
    ensures s.Valid()
    ensures r == None ==> forall i :: 0 <= i < |ids| ==>
      Delivers(s.table, s.rowLo, s.rowHi, ids[i], weights[i], scales[i])
    ensures r == None ==> s.hits + s.misses == old(s.hits + s.misses) + CountOwned(s.rowLo, s.rowHi, ids)
    ensures r == Some(BatchCap) <==> s.sets > 0 && |ids| > 32768
    ensures r == Some(BadRow) ==> exists i :: 0 <= i < |ids| && ids[i] >= s.table.rows
    ensures r == None ==> forall i :: 0 <= i < |ids| ==> ids[i] < s.table.rows
    ensures old(s.log) <= s.log && (r == Some(ShortRead) <==> s.SomeShort(old(s.log), s.log))
    ensures r != None ==> r.value in {BatchCap, BadRow, ShortRead}
  {
    if s.sets == 0 {
      r := s.Serve(ids, weights, scales, 0, |ids|);
      assert ids[0..|ids|] == ids;
      return;
    }
    if |ids| > 32768 {
      return Some(BatchCap);
    }
    r := SortAndSearch(s, ids, weights, scales);
  }

  /** The passes of grouped when there is a cache: classify, sort, search, and serve the misses. */
  method SortAndSearch(s: Store, ids: seq<int>, weights: array<seq<Byte>>, scales: array<seq<Byte>>)
    returns (r: Option<Abort>)
    requires s.Valid() && s.Buffers(ids, weights, scales) && s.sets > 0
    modifies s`hits, s`misses, s`deviceReads, s`ioBytes, s`log, s.keys, s.cache, s.victim, weights, scales
    ensures s.Valid()
    ensures r == None ==> forall i :: 0 <= i < |ids| ==>
      Delivers(s.table, s.rowLo, s.rowHi, ids[i], weights[i], scales[i])
    ensures r == None ==> s.hits + s.misses == old(s.hits + s.misses) + CountOwned(s.rowLo, s.rowHi, ids)
    ensures r != Some(BatchCap)
    ensures r == Some(BadRow) ==> exists i :: 0 <= i < |ids| && ids[i] >= s.table.rows
    ensures r == None ==> forall i :: 0 <= i < |ids| ==> ids[i] < s.table.rows
    ensures old(s.log) <= s.log && (r == Some(ShortRead) <==> s.SomeShort(old(s.log), s.log))
    ensures r != None ==> r.value in {BatchCap, BadRow, ShortRead}
  {
    var offsets := new nat[257](_ => 0);
    var keys, bad := Classify(s, ids, weights, scales, offsets);
    if bad {
      return Some(BadRow);
    }
    var indices := SortByStripe(keys, offsets);
    SegmentsHoldOwned(ids, s.rowLo, s.rowHi, s.sets);
    var found, misses := Search(s, ids, weights, scales, keys, offsets, indices);
    s.hits := s.hits + found;
    r := ServeMisses(s, ids, weights, scales, misses);
  }

  /** From stripe counts to segment starts, and every owned index into its segment. */
  method SortByStripe(keys: seq<Option<nat>>, offsets: array<nat>) returns (indices: array<nat>)
    requires offsets.Length == 257 && offsets[0] == 0
    requires forall k :: 1 <= k < 257 ==> offsets[k] == CountKey(keys, k - 1, |keys|)
    requires forall i :: 0 <= i < |keys| && keys[i].Some? ==> keys[i].value < 256
    modifies offsets
    ensures forall k :: 0 <= k < 257 ==> offsets[k] == Start(keys, k)
    ensures fresh(indices) && indices.Length == |keys| && Placed(keys, indices[..], |keys|)
  {
    PrefixSums(offsets, keys);
    var next := new nat[256](k requires 0 <= k < 256 reads offsets => if k < offsets.Length then offsets[k] else 0);
    indices := new nat[|keys|](_ => 0);
    StartOfAll(keys, 256);
    CountSomeBound(keys, |keys|);
    Scatter(keys, next, indices);
  }

  /** The segment that a position below the last start belongs to. */
  lemma {:induction false} SegmentOf(keys: seq<Option<nat>>, n: nat, p: nat) returns (k: nat)
    requires p < Start(keys, n)
    ensures k < n && Start(keys, k) <= p < Start(keys, k + 1)
  {
    if p < Start(keys, n - 1) {
      k := SegmentOf(keys, n - 1, p);
    } else {
      k := n - 1;
    }
  }

  /** Index i is owned, and p is its place in the segment of its stripe. */
  predicate HeldAt(ids: seq<int>, lo: nat, hi: nat, sets: nat, i: nat, p: nat)
    requires sets > 0
  {
    var keys := StripeKeys(ids, lo, hi, sets);
    && i < |ids| && Owned(lo, hi, ids[i]) && Place(keys, i) == p
    && Start(keys, Stripe(ids[i], sets)) <= p < Start(keys, Stripe(ids[i], sets) + 1)
  }

  /** Some owned index has its place at p. */
  ghost predicate Filled(ids: seq<int>, lo: nat, hi: nat, sets: nat, p: nat)
    requires sets > 0
  {
    exists i: nat :: HeldAt(ids, lo, hi, sets, i, p)
  }

  /** The 256 segments are as long as there are owned ids; each position holds exactly one of them. */
  lemma SegmentsHoldOwned(ids: seq<int>, lo: nat, hi: nat, sets: nat)
    requires sets > 0
    ensures Start(StripeKeys(ids, lo, hi, sets), 256) == CountOwned(lo, hi, ids)
    ensures forall p: nat :: p < CountOwned(lo, hi, ids) ==> Filled(ids, lo, hi, sets, p)
    ensures forall p: nat, i: nat, j: nat ::
      HeldAt(ids, lo, hi, sets, i, p) && HeldAt(ids, lo, hi, sets, j, p) ==> i == j
    ensures forall i: nat :: i < |ids| && Owned(lo, hi, ids[i]) ==>
      exists p: nat :: p < CountOwned(lo, hi, ids) && HeldAt(ids, lo, hi, sets, i, p)
  {
    var keys := StripeKeys(ids, lo, hi, sets);
    StartOfAll(keys, 256);
    CountSomeOwned(ids, lo, hi, sets, |ids|);
    assert ids[..|ids|] == ids;
    forall p: nat | p < CountOwned(lo, hi, ids) ensures Filled(ids, lo, hi, sets, p) {
      var k := SegmentOf(keys, 256, p);
      var i := PlaceTaken(keys, k, p);
      assert HeldAt(ids, lo, hi, sets, i, p);
    }
    forall p: nat, i: nat, j: nat | HeldAt(ids, lo, hi, sets, i, p) && HeldAt(ids, lo, hi, sets, j, p) ensures i == j {
      PlacesDiffer(keys, i, j);
    }
    forall i: nat | i < |ids| && Owned(lo, hi, ids[i])
      ensures exists p: nat :: p < CountOwned(lo, hi, ids) && HeldAt(ids, lo, hi, sets, i, p) {
      PlaceInSegment(keys, i);
      StartMonotone(keys, Stripe(ids[i], sets) + 1, 256);
      assert HeldAt(ids, lo, hi, sets, i, Place(keys, i));
    }
  }

  lemma {:induction false} CountSomeBound(keys: seq<Option<nat>>, n: nat)
    requires n <= |keys|
    ensures CountSome(keys, n) <= n
  {
    if n > 0 {
      CountSomeBound(keys, n - 1);
    }
  }
}
