/**
The vocabulary row store as an object (`Store::run` and `Store::row`): a direct-mapped
cache in front of aligned reads, with sticky failure bits. That the helper threads read
every queued row exactly once, in some order, is proved in module VocabPool.
*/
module VocabStore {
  import opened Prelude

  /** 10240 bytes: one BF16 vocabulary row. */
  type Cell = r: seq<Byte> | |r| == 10240 witness seq(10240, _ => 0)

  /** The sticky failure bits: 2 for a changed file, 4 for a failed read. */
  datatype Failure = Failure(changed: bool, io: bool) {
    predicate Any() {
      changed || io
    }

    function Status(): (status: nat)
      ensures status == 0 <==> !Any()
    {
      (if changed then 2 else 0) + (if io then 4 else 0)
    }
  }

  const NO_FAILURE := Failure(false, false)

  /** The status of a lookup on a store that has failed before. */
  const POISONED: nat := 8

  function ZeroCell(): Cell {
    seq(10240, _ => 0)
  }

  /** One aligned read: the file as it is at that moment, and how much the device returns. */
  datatype DeviceRead = DeviceRead(file: seq<Byte>, got: int)

  /** Start of the aligned request, distance of the row from it, and bytes requested. */
  function Aligned(position: nat): nat {
    position / 4096 * 4096
  }

  function RequestedBytes(position: nat): nat {
    (position % 4096 + 10240 + 4095) / 4096 * 4096
  }

  /** Every aligned request covers its row and fits the 16 KiB buffer of a thread. */
  lemma RequestFitsBuffer(position: nat)
    ensures Aligned(position) + position % 4096 == position
    ensures position % 4096 + 10240 <= RequestedBytes(position) <= 16384
    ensures Aligned(position) % 4096 == 0 && RequestedBytes(position) % 4096 == 0
    ensures RequestedBytes(position) < position % 4096 + 10240 + 4096
  {
  }

  /** An owned id whose slot holds another row, or nothing. */
  predicate Missing(lo: nat, hi: nat, tags: seq<int>, id: int)
    requires |tags| == 4096
  {
    lo <= id < hi && tags[id % 4096] != id
  }

  /** The indices of the missing ids among the first n of a batch. */
  function Queue(ids: seq<int>, lo: nat, hi: nat, tags: seq<int>, n: nat): (order: seq<nat>)
    requires n <= |ids| && |tags| == 4096
    ensures forall k :: 0 <= k < |order| ==> order[k] < n && Missing(lo, hi, tags, ids[order[k]])
  {
    if n == 0 then []
    else if Missing(lo, hi, tags, ids[n - 1]) then Queue(ids, lo, hi, tags, n - 1) + [n - 1]
    else Queue(ids, lo, hi, tags, n - 1)
  }

  lemma {:induction false} QueueMembers(ids: seq<int>, lo: nat, hi: nat, tags: seq<int>, n: nat, i: nat)
    requires n <= |ids| && |tags| == 4096
    ensures i in Queue(ids, lo, hi, tags, n) <==> i < n && Missing(lo, hi, tags, ids[i])
  {
    if n > 0 {
      QueueMembers(ids, lo, hi, tags, n - 1, i);
    }
  }

  /** The tags after the slots of the queued ids have been overwritten, in queue order. */
  function Retagged(tags: seq<int>, ids: seq<int>, order: seq<nat>): (r: seq<int>)
    requires |tags| == 4096 && forall k :: 0 <= k < |order| ==> order[k] < |ids|
    ensures |r| == 4096
  {
    if order == [] then tags
    else
      var id := ids[order[|order| - 1]];
      Retagged(tags, ids, order[..|order| - 1])[id % 4096 := id]
  }

  /** The cache after the slots of the queued ids have been overwritten, in queue order. */
  function Recached(cache: seq<Cell>, ids: seq<int>, order: seq<nat>, output: seq<Cell>): (r: seq<Cell>)
    requires |cache| == 4096 && |output| == |ids| && forall k :: 0 <= k < |order| ==> order[k] < |ids|
    ensures |r| == 4096
  {
    if order == [] then cache
    else
      var i := order[|order| - 1];
      Recached(cache, ids, order[..|order| - 1], output)[ids[i] % 4096 := output[i]]
  }

  /** The k-th queue entry is the last one whose id belongs to a slot. */
  predicate LastFor(ids: seq<int>, order: seq<nat>, slot: nat, k: nat)
    requires forall j :: 0 <= j < |order| ==> order[j] < |ids|
  {
    k < |order| && ids[order[k]] % 4096 == slot && forall j :: k < j < |order| ==> ids[order[j]] % 4096 != slot
  }

  /** No queue entry's id belongs to a slot. */
  predicate Unused(ids: seq<int>, order: seq<nat>, slot: nat)
    requires forall j :: 0 <= j < |order| ==> order[j] < |ids|
  {
    forall j :: 0 <= j < |order| ==> ids[order[j]] % 4096 != slot
  }

  /** Every slot is left with the last queued row that belongs to it, or as it was. */
  ghost predicate SlotsLeft(ids: seq<int>, order: seq<nat>, output: seq<Cell>, tags: seq<int>, cache: seq<Cell>,
                            newTags: seq<int>, newCache: seq<Cell>)
    requires |tags| == |cache| == |newTags| == |newCache| == 4096 && |output| == |ids|
    requires forall k :: 0 <= k < |order| ==> order[k] < |ids|
  {
    && (forall slot: nat, k: nat :: slot < 4096 && LastFor(ids, order, slot, k) ==>
          newTags[slot] == ids[order[k]] && newCache[slot] == output[order[k]])
    && (forall slot: nat :: slot < 4096 && Unused(ids, order, slot) ==>
          newTags[slot] == tags[slot] && newCache[slot] == cache[slot])
  }

  lemma {:induction false} RefilledSlots(ids: seq<int>, order: seq<nat>, output: seq<Cell>, tags: seq<int>,
                                         cache: seq<Cell>)
    requires |cache| == |tags| == 4096 && |output| == |ids|
    requires forall k :: 0 <= k < |order| ==> order[k] < |ids|
    ensures SlotsLeft(ids, order, output, tags, cache,
                      Retagged(tags, ids, order), Recached(cache, ids, order, output))
  {
    if order != [] {
      var n := |order| - 1;
      RefilledSlots(ids, order[..n], output, tags, cache);
      forall slot: nat, k: nat | slot < 4096 && LastFor(ids, order, slot, k)
        ensures Retagged(tags, ids, order)[slot] == ids[order[k]]
        ensures Recached(cache, ids, order, output)[slot] == output[order[k]]
      {
        assert k < n ==> ids[order[n]] % 4096 != slot && LastFor(ids, order[..n], slot, k);
      }
      forall slot: nat | slot < 4096 && Unused(ids, order, slot)
        ensures Retagged(tags, ids, order)[slot] == tags[slot]
        ensures Recached(cache, ids, order, output)[slot] == cache[slot]
      {
        assert ids[order[n]] % 4096 != slot && Unused(ids, order[..n], slot);
      }
    }
  }

  /** Queue entries come in the order of the batch. */
  lemma {:induction false} QueueIncreases(ids: seq<int>, lo: nat, hi: nat, tags: seq<int>, n: nat, a: nat, b: nat)
    requires n <= |ids| && |tags| == 4096 && a < b < |Queue(ids, lo, hi, tags, n)|
    ensures Queue(ids, lo, hi, tags, n)[a] < Queue(ids, lo, hi, tags, n)[b]
  {
    if b < |Queue(ids, lo, hi, tags, n - 1)| {
      QueueIncreases(ids, lo, hi, tags, n - 1, a, b);
    }
  }

  /** The j-th id is read and takes the slot of the i-th, which is cached or read before it. */
  predicate TakesSlot(ids: seq<int>, lo: nat, hi: nat, tags: seq<int>, i: nat, j: nat)
    requires |tags| == 4096 && i < |ids| && j < |ids|
  {
    && Missing(lo, hi, tags, ids[j]) && ids[j] % 4096 == ids[i] % 4096 && ids[j] != ids[i]
    && (j > i || !Missing(lo, hi, tags, ids[i]))
  }

  lemma {:induction false} LastEntry(ids: seq<int>, order: seq<nat>, slot: nat, n: nat) returns (k: nat)
    requires n <= |order| && forall j :: 0 <= j < |order| ==> order[j] < |ids|
    requires !Unused(ids, order, slot) && forall j :: n <= j < |order| ==> ids[order[j]] % 4096 != slot
    ensures LastFor(ids, order, slot, k)
  {
    assert n > 0;
    if ids[order[n - 1]] % 4096 == slot {
      k := n - 1;
    } else {
      k := LastEntry(ids, order, slot, n - 1);
    }
  }

  /** The last entry of a missing id's slot is its own, or comes behind it. */
  lemma LastIsNotBefore(ids: seq<int>, lo: nat, hi: nat, tags: seq<int>, i: nat, k: nat)
    requires |tags| == 4096 && i < |ids| && Missing(lo, hi, tags, ids[i])
    requires LastFor(ids, Queue(ids, lo, hi, tags, |ids|), ids[i] % 4096, k)
    ensures Queue(ids, lo, hi, tags, |ids|)[k] >= i
  {
    var order := Queue(ids, lo, hi, tags, |ids|);
    QueueMembers(ids, lo, hi, tags, |ids|, i);
    var m :| 0 <= m < |order| && order[m] == i;
    if m < k {
      QueueIncreases(ids, lo, hi, tags, |ids|, m, k);
    }
  }

  /**
  The next lookup finds an owned id of this batch in the cache, unless another row has taken
  its slot.
  */
  lemma NextRunHits(ids: seq<int>, lo: nat, hi: nat, output: seq<Cell>, tags: seq<int>, cache: seq<Cell>,
                    newTags: seq<int>, newCache: seq<Cell>, i: nat)
    requires |tags| == |cache| == |newTags| == |newCache| == 4096 && |output| == |ids| && i < |ids|
    requires SlotsLeft(ids, Queue(ids, lo, hi, tags, |ids|), output, tags, cache, newTags, newCache)
    requires lo <= ids[i] < hi && forall j: nat :: j < |ids| ==> !TakesSlot(ids, lo, hi, tags, i, j)
    ensures !Missing(lo, hi, newTags, ids[i])
  {
    var order, slot := Queue(ids, lo, hi, tags, |ids|), ids[i] % 4096;
    if Unused(ids, order, slot) {
      UnusedIsCached(ids, lo, hi, tags, i);
    } else {
      var k := LastEntry(ids, order, slot, |order|);
      LastIsOwn(ids, lo, hi, tags, i, k);
    }
  }

  lemma UnusedIsCached(ids: seq<int>, lo: nat, hi: nat, tags: seq<int>, i: nat)
    requires |tags| == 4096 && i < |ids| && Unused(ids, Queue(ids, lo, hi, tags, |ids|), ids[i] % 4096)
    ensures !Missing(lo, hi, tags, ids[i])
  {
    QueueMembers(ids, lo, hi, tags, |ids|, i);
  }

  lemma LastIsOwn(ids: seq<int>, lo: nat, hi: nat, tags: seq<int>, i: nat, k: nat)
    requires |tags| == 4096 && i < |ids| && forall j: nat :: j < |ids| ==> !TakesSlot(ids, lo, hi, tags, i, j)
    requires LastFor(ids, Queue(ids, lo, hi, tags, |ids|), ids[i] % 4096, k)
    ensures ids[Queue(ids, lo, hi, tags, |ids|)[k]] == ids[i]
  {
    if Missing(lo, hi, tags, ids[i]) {
      LastIsNotBefore(ids, lo, hi, tags, i, k);
    }
    assert !TakesSlot(ids, lo, hi, tags, i, Queue(ids, lo, hi, tags, |ids|)[k]);
  }

  class Store {
    const file: seq<Byte>
    const offset: nat
    const lo: nat
    const hi: nat
    var cache: array<Cell>
    var tags: array<int>
    var failure: Failure
    var hits: nat
    var misses: nat

    /** ds41_vocab_row_open for a file that holds the whole table; each rank owns one half. */
    constructor (file: seq<Byte>, offset: nat, rank: nat)
      requires offset + 129280 * 10240 <= |file| && rank <= 1
      ensures Valid() && !failure.Any() && this.file == file && this.offset == offset
      ensures lo == rank * 64640 && hi == lo + 64640
      ensures fresh(cache) && fresh(tags)
    {
      this.file, this.offset := file, offset;
      lo, hi := rank * 64640, rank * 64640 + 64640;
      cache := new Cell[4096](_ => ZeroCell());
      tags := new int[4096](_ => -1);
      failure, hits, misses := NO_FAILURE, 0, 0;
    }

    predicate Sized() {
      lo <= hi <= 129280 && offset + 129280 * 10240 <= |file|
    }

    /** The bytes of row id in the file the store was opened on. */
    function FileRow(id: nat): Cell
      requires Sized() && id < 129280
    {
      file[offset + id * 10240..offset + id * 10240 + 10240]
    }

    predicate Shaped()
      reads this
    {
      Sized() && cache.Length == 4096 && tags.Length == 4096
    }

    /** A tagged slot belongs to an owned row and holds its bytes. */
    ghost predicate Valid()
      reads this, cache, tags
    {
      && Shaped()
      && forall slot :: 0 <= slot < 4096 && tags[slot] != -1 ==>
           Owned(tags[slot]) && tags[slot] % 4096 == slot && cache[slot] == FileRow(tags[slot])
    }

    predicate Owned(id: int) {
      lo <= id < hi
    }

    /** What a successful lookup delivers for one id. */
    function Wanted(id: int): Cell
      requires Sized()
    {
      if Owned(id) then FileRow(id) else ZeroCell()
    }

    function WantedAll(ids: seq<int>): (r: seq<Cell>)
      requires Sized()
      ensures |r| == |ids| && forall i :: 0 <= i < |ids| ==> r[i] == Wanted(ids[i])
    {
      seq<Cell>(|ids|, i requires 0 <= i < |ids| => Wanted(ids[i]))
    }

    /** A device never returns more than was asked for, or than the file has. */
    predicate PossibleRead(device: DeviceRead, id: nat) {
      && device.got <= RequestedBytes(offset + id * 10240)
      && Aligned(offset + id * 10240) + device.got <= |device.file|
    }

    /** The bytes a read finds where the row lies: the row, if the file has not changed there. */
    function Found(device: DeviceRead, id: nat): Cell {
      var position := offset + id * 10240;
      if position + 10240 <= |device.file| then device.file[position..position + 10240] else ZeroCell()
    }

    /** What a lookup without failures delivers, given the tags before it. */
    function Delivered(ids: seq<int>, before: seq<int>, devices: seq<DeviceRead>): (r: seq<Cell>)
      requires Sized() && |before| == 4096 && |devices| == |ids|
      ensures |r| == |ids| && forall i :: 0 <= i < |ids| ==>
        r[i] == if Missing(lo, hi, before, ids[i]) then Found(devices[i], ids[i]) else Wanted(ids[i])
    {
      seq<Cell>(|ids|, i requires 0 <= i < |ids| =>
        if Missing(lo, hi, before, ids[i]) then Found(devices[i], ids[i]) else Wanted(ids[i]))
    }

    /** Every row that has to be read is found as it was when the store was opened. */
    predicate Trusted(ids: seq<int>, before: seq<int>, devices: seq<DeviceRead>)
      requires Sized() && |before| == 4096 && |devices| == |ids|
    {
      forall i :: 0 <= i < |ids| && Missing(lo, hi, before, ids[i]) ==> Found(devices[i], ids[i]) == FileRow(ids[i])
    }

    /** In terms of the file: the id's own row for an id of this rank, zeros for any other. */
    lemma WantedBytes(ids: seq<int>, output: seq<Cell>)
      requires Sized() && |output| == |ids|
      ensures output == WantedAll(ids) <==>
        forall i, k :: 0 <= i < |ids| && 0 <= k < 10240 ==>
          output[i][k] == if lo <= ids[i] < hi then file[offset + ids[i] * 10240 + k] else 0
    {
      var wanted := WantedAll(ids);
      forall i | 0 <= i < |ids|
        ensures forall k :: 0 <= k < 10240 ==>
          wanted[i][k] == if lo <= ids[i] < hi then file[offset + ids[i] * 10240 + k] else 0
      {
        assert wanted[i] == Wanted(ids[i]);
      }
      if forall i, k :: 0 <= i < |ids| && 0 <= k < 10240 ==>
           output[i][k] == if lo <= ids[i] < hi then file[offset + ids[i] * 10240 + k] else 0 {
        forall i | 0 <= i < |ids| ensures output[i] == wanted[i] {
          forall k | 0 <= k < 10240 ensures output[i][k] == wanted[i][k] {
          }
        }
      }
    }

    /** Trusted reads deliver exactly what is wanted, and only they do. */
    lemma TrustedDelivers(ids: seq<int>, before: seq<int>, devices: seq<DeviceRead>)
      requires Sized() && |before| == 4096 && |devices| == |ids|
      ensures Delivered(ids, before, devices) == WantedAll(ids) <==> Trusted(ids, before, devices)
    {
      var a, b := Delivered(ids, before, devices), WantedAll(ids);
      if a == b {
        forall i | 0 <= i < |ids| && Missing(lo, hi, before, ids[i])
          ensures Found(devices[i], ids[i]) == FileRow(ids[i]) {
          assert a[i] == b[i];
        }
      }
    }

    /** A read reaches the end of the row. */
    predicate FullRead(device: DeviceRead, id: nat) {
      device.got >= (offset + id * 10240) % 4096 + 10240
    }

    predicate AllFullIn(ids: seq<int>, order: seq<nat>, devices: seq<DeviceRead>)
      requires |devices| == |ids|
    {
      forall i :: i in order ==> i < |ids| && Owned(ids[i]) && FullRead(devices[i], ids[i])
    }

    lemma SameFull(ids: seq<int>, a: seq<nat>, b: seq<nat>, devices: seq<DeviceRead>)
      requires |devices| == |ids| && multiset(a) == multiset(b)
      ensures AllFullIn(ids, a, devices) <==> AllFullIn(ids, b, devices)
    {
      forall i ensures i in a <==> i in b {
        assert i in multiset(a) <==> i in multiset(b);
      }
    }

    lemma OneMoreFull(ids: seq<int>, order: seq<nat>, i: nat, devices: seq<DeviceRead>)
      requires |devices| == |ids| && i < |ids| && Owned(ids[i])
      ensures AllFullIn(ids, order + [i], devices) <==> AllFullIn(ids, order, devices) && FullRead(devices[i], ids[i])
    {
      assert forall j :: j in order + [i] <==> j in order || j == i;
    }

    /** All reads that a lookup has to make are full. */
    predicate AllFull(ids: seq<int>, before: seq<int>, devices: seq<DeviceRead>)
      requires |before| == 4096 && |devices| == |ids|
    {
      forall i :: 0 <= i < |ids| && Missing(lo, hi, before, ids[i]) ==> FullRead(devices[i], ids[i])
    }

    /** row: the aligned read of one queued row. */
    method Row(id: nat, device: DeviceRead) returns (data: Option<Cell>)
      requires Sized() && Owned(id)
      requires PossibleRead(device, id)
      modifies this`failure
      ensures data.Some? ==> failure == old(failure) && data.value == Found(device, id)
      ensures data.None? ==> failure == old(failure).(io := true)
      ensures data.Some? <==> device.got >= (offset + id * 10240) % 4096 + 10240
    {
      var position := offset + id * 10240;
      RequestFitsBuffer(position);
      var inside := position % 4096;
      if device.got < 0 || device.got < inside + 10240 {
        failure := failure.(io := true);
        return None;
      }
      var base := Aligned(position);
      var scratch := device.file[base..base + device.got];
      SliceOfSlice(device.file, base, device.got, inside, 10240);
      return Some(scratch[inside..inside + 10240]);
    }

    /** One id of the first pass: a cached row is copied, a missing one is to be queued. */
    method Probe(id: int, output: array<Cell>, i: nat) returns (missing: bool)
      requires Valid() && i < output.Length && output[i] == ZeroCell()
      requires output as object !in {cache as object, tags as object}
      modifies this`hits, this`misses, output
      ensures Valid()
      ensures missing <==> Missing(lo, hi, tags[..], id)
      ensures !missing ==> output[i] == Wanted(id)
      ensures forall k :: 0 <= k < output.Length && k != i ==> output[k] == old(output[k])
      ensures hits + misses == old(hits + misses) + (if Owned(id) then 1 else 0)
      ensures misses == old(misses) + (if missing then 1 else 0)
    {
      missing := false;
      if Owned(id) {
        var slot := id % 4096;
        if tags[slot] == id {
          output[i] := cache[slot];
          hits := hits + 1;
        } else {
          misses := misses + 1;
          missing := true;
        }
      }
    }

    /** The first pass of run: cached rows are served, every other owned row is queued. */
    method ServeCached(ids: seq<int>, output: array<Cell>) returns (order: seq<nat>)
      requires Valid() && output.Length == |ids|
      requires output as object !in {cache as object, tags as object}
      requires forall i :: 0 <= i < |ids| ==> output[i] == ZeroCell()
      modifies this`hits, this`misses, output
      ensures Valid()
      ensures hits + misses == old(hits + misses) + CountOwned(lo, hi, ids)
      ensures misses == old(misses) + |order|
      ensures order == Queue(ids, lo, hi, tags[..], |ids|)
      ensures forall i :: 0 <= i < |ids| && !Missing(lo, hi, tags[..], ids[i]) ==> output[i] == Wanted(ids[i])
    {
      order := [];
      ghost var wanted, tagged := WantedAll(ids), tags[..];
      for i := 0 to |ids|
        invariant Valid() && tags[..] == tagged && misses == old(misses) + |order|
        invariant hits + misses == old(hits + misses) + CountOwned(lo, hi, ids[..i])
        invariant order == Queue(ids, lo, hi, tagged, i)
        invariant forall k :: 0 <= k < i && !Missing(lo, hi, tagged, ids[k]) ==> output[k] == wanted[k]
        invariant forall k :: i <= k < |ids| ==> output[k] == ZeroCell()
      {
        assert ids[..i + 1][..i] == ids[..i] && wanted[i] == Wanted(ids[i]);
        var missing := Probe(ids[i], output, i);
        if missing {
          order := order + [i];
        }
      }
      assert ids[..|ids|] == ids;
    }

    /** A queued index is owned, and its read is one the device can perform. */
    predicate Queued(ids: seq<int>, devices: seq<DeviceRead>, i: nat)
      requires |ids| == |devices|
    {
      i < |ids| && Owned(ids[i]) && PossibleRead(devices[i], ids[i])
    }

    /** The turn of one queue entry. After a failure a thread may or may not still read. */
    method ReadOne(ids: seq<int>, devices: seq<DeviceRead>, output: array<Cell>, i: nat)
      requires Valid() && !failure.changed && output.Length == |ids| == |devices|
      requires output as object !in {cache as object, tags as object} && Queued(ids, devices, i)
      modifies this`failure, output
      ensures Valid() && !failure.changed && (old(failure.Any()) ==> failure.Any())
      ensures forall k :: 0 <= k < |ids| && k != i ==> output[k] == old(output[k])
      ensures !failure.Any() ==> output[i] == Found(devices[i], ids[i])
      ensures failure.Any() <==> old(failure.Any()) || !FullRead(devices[i], ids[i])
    {
      var late: bool := *;
      if !failure.Any() || late {
        var data := Row(ids[i], devices[i]);
        if data.Some? {
          output[i] := data.value;
        }
      }
    }

    /**
    The drain of all threads together: every queue entry is processed, in some order.
    */
    method ReadQueued(ids: seq<int>, order: seq<nat>, output: array<Cell>, devices: seq<DeviceRead>)
      requires Valid() && output.Length == |ids| == |devices| && !failure.Any()
      requires output as object !in {cache as object, tags as object}
      requires forall i :: i in order ==> Queued(ids, devices, i)
      modifies this`failure, output
      ensures Valid()
      ensures !failure.changed
      ensures forall i :: 0 <= i < |ids| && i !in order ==> output[i] == old(output[i])
      ensures !failure.Any() ==> forall i :: 0 <= i < |ids| && i in order && Owned(ids[i]) ==>
        output[i] == Found(devices[i], ids[i])
      ensures !failure.Any() <==> AllFullIn(ids, order, devices)
    {
      var turns: seq<nat> :| multiset(turns) == multiset(order);
      ghost var found := seq<Cell>(|ids|, i requires 0 <= i < |ids| =>
        if Owned(ids[i]) then Found(devices[i], ids[i]) else ZeroCell());
      for m := 0 to |turns|
        invariant Valid() && !failure.changed
        invariant forall i :: 0 <= i < |ids| && i !in order ==> output[i] == old(output[i])
        invariant !failure.Any() ==> forall i :: 0 <= i < |ids| && i in turns[..m] ==> output[i] == found[i]
        invariant !failure.Any() <==> AllFullIn(ids, turns[..m], devices)
      {
        var i := turns[m];
        assert i in multiset(turns) && i in order;
        assert turns[..m + 1] == turns[..m] + [i];
        OneMoreFull(ids, turns[..m], i, devices);
        ReadOne(ids, devices, output, i);
      }
      assert turns[..|turns|] == turns;
      SameFull(ids, turns, order, devices);
      forall i | 0 <= i < |ids| && i in order && Owned(ids[i]) && !failure.Any()
        ensures output[i] == Found(devices[i], ids[i]) {
        assert i in multiset(turns);
      }
    }

    /** The last pass of run: freshly read rows replace whatever their slots held. */
    method FillCache(ids: seq<int>, order: seq<nat>, output: array<Cell>)
      requires Valid() && output.Length == |ids|
      requires output as object !in {cache as object, tags as object} && cache as object != tags as object
      requires forall k :: 0 <= k < |order| ==> order[k] < |ids| && Owned(ids[order[k]])
      modifies cache, tags
      ensures output[..] == WantedAll(ids) ==> Valid()
      ensures tags[..] == Retagged(old(tags[..]), ids, order)
      ensures cache[..] == Recached(old(cache[..]), ids, order, output[..])
      ensures SlotsLeft(ids, order, output[..], old(tags[..]), old(cache[..]), tags[..], cache[..])
    {
      ghost var cells := output[..];
      for m := 0 to |order|
        invariant output[..] == cells
        invariant cells == WantedAll(ids) ==> Valid()
        invariant tags[..] == Retagged(old(tags[..]), ids, order[..m])
        invariant cache[..] == Recached(old(cache[..]), ids, order[..m], cells)
      {
        var i := order[m];
        var slot := ids[i] % 4096;
        assert order[..m + 1][..m] == order[..m];
        assert output[i] == cells[i];
        cache[slot] := output[i];
        tags[slot] := ids[i];
      }
      assert order[..|order|] == order;
      RefilledSlots(ids, order, cells, old(tags[..]), old(cache[..]));
    }

    /** The lookup proper: cached rows, then the reads of everything queued. */
    method Lookup(ids: seq<int>, output: array<Cell>, devices: seq<DeviceRead>) returns (order: seq<nat>)
      requires Valid() && output.Length == |ids| == |devices| && !failure.Any()
      requires output as object !in {cache as object, tags as object}
      requires forall i :: 0 <= i < |ids| ==> output[i] == ZeroCell()
      requires forall i :: 0 <= i < |ids| && Owned(ids[i]) ==> PossibleRead(devices[i], ids[i])
      modifies this`failure, this`hits, this`misses, output
      ensures Valid()
      ensures order == Queue(ids, lo, hi, tags[..], |ids|)
      ensures !failure.changed
      ensures hits + misses == old(hits + misses) + CountOwned(lo, hi, ids)
      ensures !failure.Any() ==> output[..] == Delivered(ids, tags[..], devices)
      ensures !failure.Any() <==> AllFull(ids, tags[..], devices)
    {
      order := ServeCached(ids, output);
      forall i: nat ensures i in order <==> i < |ids| && Missing(lo, hi, tags[..], ids[i]) {
        QueueMembers(ids, lo, hi, tags[..], |ids|, i);
      }
      ReadQueued(ids, order, output, devices);
    }

    /**
    run. `before` and `after` are the outcomes of the two file-identity checks; devices[i]
    is the read made for ids[i], if one is made. A lookup that succeeds is right, and leaves
    the cache right, when its reads were trusted: the two checks are there to make sure of that.
    */
    method Run(ids: seq<int>, output: array<Cell>, before: bool, after: bool, devices: seq<DeviceRead>)
      returns (status: nat)
      requires Valid() && output.Length == |ids| == |devices| <= 256
      requires output as object !in {cache as object, tags as object} && cache as object != tags as object
      requires forall i :: 0 <= i < |ids| && Owned(ids[i]) ==> PossibleRead(devices[i], ids[i])
      modifies this`failure, this`hits, this`misses, output, cache, tags
      ensures status == 0 ==> !failure.Any() && output[..] == Delivered(ids, old(tags[..]), devices)
      ensures status == 0 ==> (output[..] == WantedAll(ids) <==> Trusted(ids, old(tags[..]), devices))
      ensures status == 0 && Trusted(ids, old(tags[..]), devices) ==> Valid()
      ensures status == 0 ==> tags[..] == Retagged(old(tags[..]), ids, Queue(ids, lo, hi, old(tags[..]), |ids|))
      ensures status == 0 ==>
        cache[..] == Recached(old(cache[..]), ids, Queue(ids, lo, hi, old(tags[..]), |ids|), output[..])
      ensures status == 0 ==> SlotsLeft(ids, Queue(ids, lo, hi, old(tags[..]), |ids|), output[..],
                                        old(tags[..]), old(cache[..]), tags[..], cache[..])
      ensures !old(failure).Any() && before ==>
        status == (if after then 0 else 2) + (if AllFull(ids, old(tags[..]), devices) then 0 else 4)
      ensures !old(failure).Any() && !before ==> status == 2
      ensures status != 0 ==> Valid() && failure.Any() && tags[..] == old(tags[..]) && cache[..] == old(cache[..])
      ensures old(failure).Any() ==> status == POISONED && failure == old(failure)
      ensures old(failure).Any() ==> forall i :: 0 <= i < |ids| ==> output[i] == ZeroCell()
      ensures !before || !after ==> status != 0
      ensures !old(failure).Any() && before ==> hits + misses == old(hits + misses) + CountOwned(lo, hi, ids)
    {
      forall i | 0 <= i < |ids| {
        output[i] := ZeroCell();
      }
      if failure.Any() {
        return POISONED;
      }
      if !before {
        failure := Failure(true, false);
        return failure.Status();
      }
      var order := Lookup(ids, output, devices);
      if !after {
        failure := failure.(changed := true);
      }
      status := failure.Status();
      if status == 0 {
        assert tags[..] == old(tags[..]) && cache[..] == old(cache[..]);
        TrustedDelivers(ids, tags[..], devices);
        FillCache(ids, order, output);
      }
    }
  }
}
