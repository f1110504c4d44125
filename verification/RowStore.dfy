/**
The Engram row store as an object (`Store`, `read_from`, `fetch_row`, `serve`,
`row_store_range`, `row_store_attach_packed`). Methods run under the store's locks; how
concurrent fetches interleave is the subject of module RowCache.
*/
module RowStore {
  import opened Prelude
  import opened EngramTable
  import opened PackedLayout
  import opened RowCache

  /** The conditions under which the program aborts the process. */
  datatype Abort = ShortRead | BadRow | BadRange | PinnedRange | BatchCap

  /** An attached packed shard and the range it was attached for. */
  datatype Packed = Packed(file: seq<Byte>, pages: bool, lo: nat, hi: nat)

  /** The n-th read of a store's device: `length` bytes of a file at `offset`. */
  datatype DeviceRead = DeviceRead(n: nat, file: seq<Byte>, offset: nat, length: nat)

  /** What a lookup must deliver for one id, or None when it must abort. */
  function Wanted(table: Table, lo: nat, hi: nat, id: int): Option<Image>
    requires table.Valid() && lo <= hi <= table.rows
  {
    if id < 0 then Some(Zeros(264))
    else if id >= table.rows then None
    else if id < lo || id >= hi then Some(Zeros(264))
    else Some(table.Row(id))
  }

  /** The two output cells of an id hold what the table delivers for it. */
  predicate Delivers(table: Table, lo: nat, hi: nat, id: int, weight: seq<Byte>, scale: seq<Byte>)
    requires table.Valid() && lo <= hi <= table.rows
  {
    var wanted := Wanted(table, lo, hi, id);
    wanted.Some? && weight == wanted.value[..256] && scale == wanted.value[256..]
  }

  /** In terms of the file: the weight and scale of the id's own row, or zeros for an id of another store. */
  lemma DeliversBytes(table: Table, lo: nat, hi: nat, id: int, weight: seq<Byte>, scale: seq<Byte>)
    requires table.Valid() && lo <= hi <= table.rows
    ensures Delivers(table, lo, hi, id, weight, scale) <==>
      && id < table.rows && |weight| == 256 && |scale| == 8
      && (forall k :: 0 <= k < 256 ==>
            weight[k] == if lo <= id < hi then table.file[table.weightOffset + id * 256 + k] else 0)
      && (forall k :: 0 <= k < 8 ==>
            scale[k] == if lo <= id < hi then table.file[table.scaleOffset + id * 8 + k] else 0)
  {
    if id < table.rows {
      var w := if lo <= id < hi then table.Weight(id) else Zeros(256);
      var c := if lo <= id < hi then table.Scale(id) else Zeros(8);
      assert Wanted(table, lo, hi, id).value == w + c;
      assert (w + c)[..256] == w && (w + c)[256..] == c;
      assert Delivers(table, lo, hi, id, weight, scale) <==> weight == w && scale == c;
    }
  }

  class Store {
    const table: Table
    const resident: bool
    const sets: nat
    const ways: nat
    /** What the device returns for its n-th read, as far as the request and the file go. */
    const device: nat -> int
    var rowLo: nat
    var rowHi: nat
    var keys: array<nat>
    var cache: array<Image>
    var victim: array<nat>
    var packed: Option<Packed>
    var scales: Option<seq<Byte>>
    var hits: nat
    var misses: nat
    var deviceReads: nat
    var ioBytes: nat
    /** All device reads so far; the last one may be one that aborted. */
    ghost var log: seq<DeviceRead>

    /** How many bytes a read gets, negative for an error. */
    function Got(read: DeviceRead): int {
      Least(device(read.n), Least(Requested(read.offset, read.length), |read.file| - read.offset / 4096 * 4096))
    }

    /** The read does not reach the end of what is wanted. */
    predicate Short(read: DeviceRead) {
      read.offset / 4096 * 4096 + Got(read) < read.offset + read.length
    }

    /** One of the reads behind the first ones of a log is short. */
    ghost predicate SomeShort(before: seq<DeviceRead>, after: seq<DeviceRead>) {
      exists k :: |before| <= k < |after| && Short(after[k])
    }

    /** The reads that a miss makes, unless one of them is short. */
    function MissReads(packed: Option<Packed>, pinned: bool, lo: nat, n: nat, id: nat): seq<DeviceRead>
      requires lo <= id
    {
      if packed.Some? then [DeviceRead(n, packed.value.file, 4096 + Position(id - lo, packed.value.pages), 264)]
      else if resident then []
      else
        [DeviceRead(n, table.file, table.weightOffset + id * 256, 256)] +
        if pinned then [] else [DeviceRead(n + 1, table.file, table.scaleOffset + id * 8, 8)]
    }

    ghost function View(): Cache
      reads this, keys, cache, victim
    {
      Cache(sets, ways, keys[..], cache[..], victim[..])
    }

    /** Every miss can be answered from the packed shard, if one is attached. */
    ghost predicate ShardValid()
      requires table.Valid()
      reads this
    {
      packed.Some? ==> ShardHolds(packed.value.file, packed.value.pages, rowLo, rowHi, table)
    }

    /** Pinned scales are those of the owned rows. */
    ghost predicate ScalesValid()
      requires table.Valid() && rowLo <= rowHi <= table.rows
      reads this
    {
      scales.Some? ==> scales.value == OwnedScales(rowLo, rowHi)
    }

    /** The scale rows [lo, hi) as they lie in the checkpoint. */
    function OwnedScales(lo: nat, hi: nat): (r: seq<Byte>)
      requires table.Valid() && lo <= hi <= table.rows
      ensures |r| == (hi - lo) * 8
    {
      table.file[table.scaleOffset + lo * 8..table.scaleOffset + hi * 8]
    }

    ghost predicate Valid()
      reads this, keys, cache, victim
    {
      && table.Valid() && rowLo <= rowHi <= table.rows
      && keys != victim
      && View().Valid(table)
      && ScalesValid() && ShardValid()
    }

    /** row_store_open: all rows are owned, nothing is cached, nothing is attached. */
    constructor (table: Table, budget: nat, waysSetting: nat, ram: bool, device: nat -> int)
      requires table.Valid()
      ensures Valid() && this.table == table && rowLo == 0 && rowHi == table.rows && packed == None && scales == None
      ensures resident == ram && (ram ==> sets == 0)
      ensures ways == if waysSetting < 1 then 1 else if waysSetting > 16 then 16 else waysSetting
      ensures sets == SetsFor(if ram then 0 else budget, ways)
      ensures keys.Length * 272 + sets <= budget
      ensures fresh(keys) && fresh(cache) && fresh(victim)
      ensures hits == 0 && misses == 0 && deviceReads == 0 && ioBytes == 0 && log == []
      ensures this.device == device
    {
      var w := if waysSetting < 1 then 1 else if waysSetting > 16 then 16 else waysSetting;
      var n := SetsFor(if ram then 0 else budget, w);
      CacheFitsBudget(if ram then 0 else budget, w);
      this.table, resident, sets, ways := table, ram, n, w;
      rowLo, rowHi, packed, scales := 0, table.rows, None, None;
      keys := new nat[n * w](_ => 0);
      cache := new Image[n * w](_ => Zeros(264));
      victim := new nat[n](_ => 0);
      this.device := device;
      hits, misses, deviceReads, ioBytes, log := 0, 0, 0, 0, [];
    }

    /**
    read_from: a page-aligned request into a two-page buffer. The read aborts exactly when
    what the device returns does not reach the wanted bytes. Reading outside a mapping is not
    checked by the program.
    */
    method ReadFrom(file: seq<Byte>, mapped: bool, offset: nat, length: nat) returns (r: Result<seq<Byte>, Abort>)
      requires 0 < length <= 264 && (mapped ==> offset + length <= |file|)
      modifies this`deviceReads, this`ioBytes, this`log
      ensures r.Ok? ==> offset + length <= |file| && r.value == file[offset..offset + length]
      ensures r.Err? ==> r.error == ShortRead
      ensures mapped ==> r.Ok? && log == old(log)
      ensures mapped ==> deviceReads == old(deviceReads) && ioBytes == old(ioBytes)
      ensures !mapped ==> log == old(log) + [DeviceRead(old(deviceReads), file, offset, length)]
      ensures !mapped ==> (r.Ok? <==> Got(log[|log| - 1]) >= offset % 4096 + length)
      ensures r.Err? <==> SomeShort(old(log), log)
      ensures !mapped && r.Ok? ==>
        deviceReads == old(deviceReads) + 1 && ioBytes == old(ioBytes) + Requested(offset, length)
    {
      if mapped {
        return Ok(file[offset..offset + length]);
      }
      var delta := offset % 4096;
      var base := offset - delta;
      var requested := Requested(offset, length);
      assert requested <= 8192 && base == offset / 4096 * 4096;
      ghost var read := DeviceRead(deviceReads, file, offset, length);
      OneRead(log, read);
      ShortIff(read);
      log := log + [read];
      var got := Least(device(deviceReads), Least(requested, |file| - base));
      if got < delta + length {
        return Err(ShortRead);
      }
      var page := file[base..base + got];
      SliceOfSlice(file, base, got, delta, length);
      deviceReads, ioBytes := deviceReads + 1, ioBytes + requested;
      return Ok(page[delta..delta + length]);
    }

    /** A read is short exactly when fewer bytes come than lie before the end of what is wanted. */
    lemma ShortIff(read: DeviceRead)
      ensures Short(read) <==> Got(read) < read.offset % 4096 + read.length
    {
      assert read.offset == read.offset / 4096 * 4096 + read.offset % 4096;
    }

    /** A device that returns all that was asked for makes no read short that lies in its file. */
    lemma CompleteIsNotShort(read: DeviceRead)
      requires device(read.n) >= Requested(read.offset, read.length) && read.offset + read.length <= |read.file|
      ensures !Short(read)
    {
      RequestIsTight(read.offset, read.length);
    }

    /** The scan over the ways of one set. */
    method FindWay(id: nat) returns (way: nat)
      requires Valid() && sets > 0
      ensures way == FindKey(View().Bucket(id), id + 1)
    {
      ghost var bucket := View().Bucket(id);
      var base := id % sets * ways;
      assert base == View().Base(id);
      way := 0;
      while way < ways
        invariant way <= ways
        invariant forall k :: 0 <= k < way ==> bucket[k] != id + 1
      {
        assert bucket[way] == keys[base + way];
        if keys[base + way] == id + 1 {
          FirstMatch(bucket, id + 1, way);
          return;
        }
        way := way + 1;
      }
      FirstMatch(bucket, id + 1, ways);
    }

    /** The critical section of a probe. */
    method Probe(id: nat) returns (row: Option<Image>)
      requires Valid()
      modifies this`hits
      ensures Valid()
      ensures row == View().Lookup(id)
      ensures hits == old(hits) + if row.Some? then 1 else 0
    {
      row := None;
      ghost var c := View();
      if sets > 0 {
        var way := FindWay(id);
        var base := id % sets * ways;
        LookupAt(c, id, way);
        if way < ways {
          row := Some(cache[base + way]);
          hits := hits + 1;
        }
      }
    }

    /** The critical section of a fill. */
    method Insert(id: nat, row: Image)
      requires Valid() && id < table.rows && row == table.Row(id) && sets > 0
      modifies keys, cache, victim
      ensures Valid()
      ensures View() == old(View()).Fill(id, row)
    {
      ghost var c := View();
      var set_ := id % sets;
      var base := set_ * ways;
      assert base == c.Base(id);
      var w := victim[set_] % ways;
      victim[set_] := (victim[set_] + 1) % ways;
      cache[base + w] := row;
      keys[base + w] := id + 1;
      assert View() == c.Fill(id, row);
      FillKeepsValid(c, table, id);
    }

    lemma PinnedScale(id: nat)
      requires table.Valid() && rowLo <= id < rowHi <= table.rows && ScalesValid() && scales.Some?
      ensures var at := (id - rowLo) * 8;
        at + 8 <= |scales.value| && scales.value[at..at + 8] == table.Scale(id)
    {
      SliceOfSlice(table.file, table.scaleOffset + rowLo * 8, (rowHi - rowLo) * 8, (id - rowLo) * 8, 8);
    }

    lemma OneRead(before: seq<DeviceRead>, read: DeviceRead)
      ensures SomeShort(before, before + [read]) <==> Short(read)
    {
      assert (before + [read])[|before|] == read;
    }

    lemma MoreReads(before: seq<DeviceRead>, then_: seq<DeviceRead>, after: seq<DeviceRead>)
      requires before <= then_ <= after
      ensures SomeShort(before, after) <==> SomeShort(before, then_) || SomeShort(then_, after)
    {
      if k :| |before| <= k < |then_| && Short(then_[k]) {
        assert Short(after[k]);
      }
      if k :| |before| <= k < |after| && Short(after[k]) {
        assert k < |then_| ==> Short(then_[k]);
      }
    }

    /** A miss answered from the packed shard. */
    method ReadPacked(id: nat) returns (r: Result<Image, Abort>)
      requires Valid() && rowLo <= id < rowHi && packed.Some?
      modifies this`deviceReads, this`ioBytes, this`log
      ensures Valid()
      ensures r.Ok? ==> r.value == table.Row(id) && deviceReads == old(deviceReads) + 1
      ensures r.Ok? && packed.value.pages ==> ioBytes == old(ioBytes) + 4096
      ensures r.Err? ==> r.error == ShortRead
      ensures log == old(log) + MissReads(packed, scales.Some?, rowLo, old(deviceReads), id)
      ensures r.Err? <==> SomeShort(old(log), log)
    {
      var relative := id - rowLo;
      var position := Position(relative, packed.value.pages);
      assert ShardRow(packed.value.file, packed.value.pages, rowLo, id, table);
      if packed.value.pages {
        PagedRowStaysInPage(relative);
      }
      var row := ReadFrom(packed.value.file, false, 4096 + position, 264);
      return row;
    }

    /** A miss answered from the checkpoint: one read with pinned scales, two without. */
    method ReadCheckpoint(id: nat) returns (r: Result<Image, Abort>)
      requires Valid() && rowLo <= id < rowHi
      requires packed == None
      modifies this`deviceReads, this`ioBytes, this`log
      ensures Valid()
      ensures r.Ok? ==> r.value == table.Row(id)
      ensures r.Ok? && !resident ==> deviceReads == old(deviceReads) + if scales.Some? then 1 else 2
      ensures r.Err? ==> r.error == ShortRead
      ensures old(log) <= log <= old(log) + MissReads(packed, scales.Some?, rowLo, old(deviceReads), id)
      ensures r.Ok? ==> log == old(log) + MissReads(packed, scales.Some?, rowLo, old(deviceReads), id)
      ensures r.Err? <==> SomeShort(old(log), log)
    {
      var weight := ReadWeight(id);
      if weight.Err? {
        return Err(weight.error);
      }
      if scales.Some? {
        var at := (id - rowLo) * 8;
        PinnedScale(id);
        return Ok(weight.value + scales.value[at..at + 8]);
      }
      ghost var first := log;
      r := ReadScale(id, weight.value);
      MoreReads(old(log), first, log);
    }

    /** The first read of a miss from the checkpoint. */
    method ReadWeight(id: nat) returns (r: Result<seq<Byte>, Abort>)
      requires Valid() && id < table.rows
      modifies this`deviceReads, this`ioBytes, this`log
      ensures Valid()
      ensures r.Ok? ==> r.value == table.Weight(id) && deviceReads == old(deviceReads) + if resident then 0 else 1
      ensures r.Err? ==> r.error == ShortRead
      ensures log == old(log) +
        if resident then [] else [DeviceRead(old(deviceReads), table.file, table.weightOffset + id * 256, 256)]
      ensures r.Err? <==> SomeShort(old(log), log)
    {
      r := ReadFrom(table.file, resident, table.weightOffset + id * 256, 256);
    }

    /** The second read of a miss from the checkpoint. */
    method ReadScale(id: nat, weight: seq<Byte>) returns (r: Result<Image, Abort>)
      requires Valid() && id < table.rows && weight == table.Weight(id)
      modifies this`deviceReads, this`ioBytes, this`log
      ensures Valid()
      ensures r.Ok? ==> r.value == table.Row(id) && deviceReads == old(deviceReads) + if resident then 0 else 1
      ensures r.Err? ==> r.error == ShortRead
      ensures log == old(log) +
        if resident then [] else [DeviceRead(old(deviceReads), table.file, table.scaleOffset + id * 8, 8)]
      ensures r.Err? <==> SomeShort(old(log), log)
    {
      var scale := ReadFrom(table.file, resident, table.scaleOffset + id * 8, 8);
      if scale.Err? {
        return Err(scale.error);
      }
      return Ok(weight + scale.value);
    }

    /** The source read of a miss, outside any lock. */
    method ReadRow(id: nat) returns (r: Result<Image, Abort>)
      requires Valid() && rowLo <= id < rowHi
      modifies this`deviceReads, this`ioBytes, this`log
      ensures Valid()
      ensures r.Ok? ==> r.value == table.Row(id)
      ensures old(log) <= log <= old(log) + MissReads(packed, scales.Some?, rowLo, old(deviceReads), id)
      ensures r.Ok? ==> log == old(log) + MissReads(packed, scales.Some?, rowLo, old(deviceReads), id)
      ensures r.Err? <==> SomeShort(old(log), log)
      ensures r.Ok? && (packed.Some? || !resident) ==>
        deviceReads == old(deviceReads) + if packed.Some? || scales.Some? then 1 else 2
      ensures r.Ok? && packed.Some? && packed.value.pages ==> ioBytes == old(ioBytes) + 4096
      ensures r.Err? ==> r.error == ShortRead
    {
      if packed.Some? {
        r := ReadPacked(id);
      } else {
        r := ReadCheckpoint(id);
      }
    }

    /** fetch_row: probe, read on a miss, count, fill. */
    method FetchRow(id: nat) returns (r: Result<Image, Abort>)
      requires Valid() && rowLo <= id < rowHi
      modifies this`hits, this`misses, this`deviceReads, this`ioBytes, this`log, keys, cache, victim
      ensures Valid()
      ensures r.Ok? ==> r.value == table.Row(id)
      ensures old(log) <= log && (r.Err? <==> SomeShort(old(log), log))
      ensures old(View()).Lookup(id).Some? ==> r.Ok? && log == old(log)
      ensures old(View()).Lookup(id) == None && r.Ok? ==>
        log == old(log) + MissReads(packed, scales.Some?, rowLo, old(deviceReads), id)
      ensures r.Ok? ==> hits == old(hits) + if old(View()).Lookup(id).Some? then 1 else 0
      ensures r.Ok? ==> misses == old(misses) + if old(View()).Lookup(id).Some? then 0 else 1
      ensures r.Ok? && sets > 0 ==> View().Lookup(id) == Some(table.Row(id))
      ensures r.Ok? && packed.Some? && packed.value.pages ==>
        ioBytes - old(ioBytes) == 4096 * (misses - old(misses))
      ensures r.Err? ==> r.error == ShortRead && hits + misses == old(hits + misses)
    {
      var hit := Probe(id);
      if hit.Some? {
        HitIsExact(View(), table, id);
        return Ok(hit.value);
      }
      r := Miss(id);
    }

    /** The part of fetch_row behind a missed probe. */
    method Miss(id: nat) returns (r: Result<Image, Abort>)
      requires Valid() && rowLo <= id < rowHi
      modifies this`misses, this`deviceReads, this`ioBytes, this`log, keys, cache, victim
      ensures Valid()
      ensures r.Ok? ==> r.value == table.Row(id) && misses == old(misses) + 1
      ensures r.Err? ==> r.error == ShortRead && misses == old(misses)
      ensures r.Ok? && sets > 0 ==> View().Lookup(id) == Some(table.Row(id))
      ensures r.Ok? && packed.Some? && packed.value.pages ==> ioBytes == old(ioBytes) + 4096
      ensures old(log) <= log && (r.Err? <==> SomeShort(old(log), log))
      ensures r.Ok? ==> log == old(log) + MissReads(packed, scales.Some?, rowLo, old(deviceReads), id)
    {
      r := ReadRow(id);
      if r.Err? {
        return r;
      }
      misses := misses + 1;
      if sets > 0 {
        FillKeepsValid(View(), table, id);
        Insert(id, r.value);
      }
    }

    /** Output buffers that belong to the caller, one 256-byte and one 8-byte cell per id. */
    predicate Buffers(ids: seq<int>, weights: array<seq<Byte>>, scales: array<seq<Byte>>)
      reads this
    {
      && weights.Length >= |ids| && scales.Length >= |ids| && weights != scales
      && weights as object !in {keys as object, cache as object, victim as object}
      && scales as object !in {keys as object, cache as object, victim as object}
    }

    /** The body of the serve loop for one id. */
    method ServeOne(ids: seq<int>, weights: array<seq<Byte>>, scales: array<seq<Byte>>, i: nat)
      returns (r: Option<Abort>)
      requires Valid() && Buffers(ids, weights, scales) && i < |ids|
      modifies this`hits, this`misses, this`deviceReads, this`ioBytes, this`log, keys, cache, victim, weights, scales
      ensures Valid()
      ensures r == None ==> Delivers(table, rowLo, rowHi, ids[i], weights[i], scales[i])
      ensures r == None ==> hits + misses == old(hits + misses) + (if Owned(rowLo, rowHi, ids[i]) then 1 else 0)
      ensures forall k :: 0 <= k < |ids| && k != i ==>
        weights[k] == old(weights[k]) && scales[k] == old(scales[k])
      ensures r == Some(BadRow) <==> ids[i] >= table.rows
      ensures old(log) <= log && (r == Some(ShortRead) <==> SomeShort(old(log), log))
      ensures r == None || r == Some(BadRow) || r == Some(ShortRead)
    {
      var id := ids[i];
      if id < 0 {
        weights[i], scales[i] := Zeros(256), Zeros(8);
      } else if id >= table.rows {
        return Some(BadRow);
      } else if id < rowLo || id >= rowHi {
        weights[i], scales[i] := Zeros(256), Zeros(8);
      } else {
        var row := FetchRow(id);
        if row.Err? {
          return Some(row.error);
        }
        weights[i], scales[i] := row.value[..256], row.value[256..];
      }
      return None;
    }

    /** serve: the loop over the ids [begin, end) of one ticket, or of the whole work. */
    method Serve(ids: seq<int>, weights: array<seq<Byte>>, scales: array<seq<Byte>>, begin: nat, end: nat)
      returns (r: Option<Abort>)
      requires Valid() && Buffers(ids, weights, scales) && begin <= end <= |ids|
      modifies this`hits, this`misses, this`deviceReads, this`ioBytes, this`log, keys, cache, victim, weights, scales
      ensures Valid()
      ensures r == None ==> forall i :: begin <= i < end ==>
        Delivers(table, rowLo, rowHi, ids[i], weights[i], scales[i])
      ensures r == None ==> hits + misses == old(hits + misses) + CountOwned(rowLo, rowHi, ids[begin..end])
      ensures forall i :: 0 <= i < |ids| && !(begin <= i < end) ==>
        weights[i] == old(weights[i]) && scales[i] == old(scales[i])
      ensures r == None ==> forall i :: begin <= i < end ==> ids[i] < table.rows
      ensures r == Some(BadRow) ==> exists i :: begin <= i < end && ids[i] >= table.rows
      ensures old(log) <= log && (r == Some(ShortRead) <==> SomeShort(old(log), log))
      ensures r == None || r == Some(BadRow) || r == Some(ShortRead)
    {
      var i := begin;
      while i < end
        invariant begin <= i <= end && Valid()
        invariant forall k :: begin <= k < i ==> Delivers(table, rowLo, rowHi, ids[k], weights[k], scales[k])
        invariant hits + misses == old(hits + misses) + CountOwned(rowLo, rowHi, ids[begin..i])
        invariant forall k :: 0 <= k < |ids| && !(begin <= k < i) ==>
          weights[k] == old(weights[k]) && scales[k] == old(scales[k])
        invariant forall k :: begin <= k < i ==> ids[k] < table.rows
        invariant old(log) <= log && !SomeShort(old(log), log)
      {
        ghost var before := log;
        r := ServeOne(ids, weights, scales, i);
        MoreReads(old(log), before, log);
        if r.Some? {
          return;
        }
        CountOwnedNext(rowLo, rowHi, ids, begin, i);
        i := i + 1;
      }
      return None;
    }

    /**
    pin_scales: the scale rows of the owned range are copied span by span. The n-th read may
    fail or return any part of what was asked for; only memory or a read that returns nothing
    can keep a range from being pinned.
    */
    method PinScales(memory: bool, answers: nat -> int) returns (out: Option<seq<Byte>>)
      requires table.Valid() && rowLo <= rowHi <= table.rows
      ensures out.Some? ==> out.value == OwnedScales(rowLo, rowHi) && rowLo < rowHi && memory
      ensures rowLo < rowHi && memory && (resident || forall n: nat :: answers(n) > 0) ==> out.Some?
    {
      if rowLo == rowHi || !memory {
        return None;
      }
      var start, end := table.scaleOffset + rowLo * 8, table.scaleOffset + rowHi * 8;
      if resident {
        return Some(table.file[start..end]);
      }
      out := CopySpans(start, end, answers);
    }

    /** What one read has returned, as far as it lies in the range. */
    method CopyPart(start: nat, end: nat, before: seq<Byte>, offset: nat, got: nat) returns (pinned: seq<Byte>)
      requires start <= end <= |table.file| && Copied(table.file, start, end, before, PartOf(start, offset, end))
      ensures Copied(table.file, start, end, pinned, PartOf(start, offset + got, end))
    {
      pinned := before;
      var lo, hi := PartOf(start, offset, end), PartOf(start, offset + got, end);
      if hi > lo {
        CopySpan(table.file, start, before, lo, hi);
        pinned := before[..lo - start] + table.file[lo..hi] + before[hi - start..];
      }
    }

    /** The loop of the copy. */
    method CopySpans(start: nat, end: nat, answers: nat -> int) returns (out: Option<seq<Byte>>)
      requires start <= end <= |table.file|
      ensures out.Some? ==> out.value == table.file[start..end]
      ensures (forall n: nat :: answers(n) > 0) ==> out.Some?
    {
      var pinned, offset, n := Zeros(end - start), start - start % 4096, 0;
      while offset < end
        invariant Copied(table.file, start, end, pinned, PartOf(start, offset, end))
        decreases end - offset
      {
        SomethingIsWanted(end - offset);
        var want := PartOf(0, (end - offset + 4095) / 4096 * 4096, 8388608);
        var got := Least(answers(n), Least(want, |table.file| - offset));
        if got <= 0 {
          return None;
        }
        pinned := CopyPart(start, end, pinned, offset, got);
        offset, n := offset + got, n + 1;
      }
      return Some(pinned);
    }

    /**
    row_store_range: pinned scales must not be moved under; without them the range is moved
    unconditionally, and then the scales of the new range are pinned if that is wanted and
    nothing fails. The store stays valid exactly when an attached shard holds the rows of the
    new range.
    */
    method SetRange(lo: nat, hi: nat, pin: bool, memory: bool, answers: nat -> int) returns (r: Option<Abort>)
      requires Valid()
      modifies this`rowLo, this`rowHi, this`scales
      ensures r == Some(BadRange) <==> lo > hi || hi > table.rows
      ensures r == Some(PinnedRange) <==>
        lo <= hi <= table.rows && old(scales).Some? && (lo != old(rowLo) || hi != old(rowHi))
      ensures r.Some? ==> r.value in {BadRange, PinnedRange} && Valid()
      ensures r.Some? ==> rowLo == old(rowLo) && rowHi == old(rowHi) && scales == old(scales)
      ensures r == None ==> rowLo == lo && rowHi == hi && ScalesValid()
      ensures r == None && (old(scales).Some? || !pin || lo == hi) ==> scales == old(scales)
      ensures r == None && old(scales) == None && pin && lo < hi ==>
        memory && (resident || forall n: nat :: answers(n) > 0) ==> scales.Some?
      ensures r == None ==>
        (Valid() <==> (packed.Some? ==> ShardHolds(packed.value.file, packed.value.pages, lo, hi, table)))
    {
      if lo > hi || hi > table.rows {
        return Some(BadRange);
      }
      if scales.Some? && (lo != rowLo || hi != rowHi) {
        return Some(PinnedRange);
      }
      rowLo, rowHi := lo, hi;
      if scales.None? && hi > lo && pin {
        scales := PinScales(memory, answers);
      }
      return None;
    }

    /**
    row_store_attach_packed. Headers and sizes are checked, contents are not: the store
    stays valid exactly when a shard that is attached holds the rows of the range.
    */
    method AttachPacked(shard: Option<seq<Byte>>, layer: nat) returns (r: AttachResult)
      requires Valid()
      modifies this`packed
      ensures r == Attach(shard, layer, rowLo, rowHi, table.rows, old(packed).Some?)
      ensures packed == if r.Attached? then Some(Packed(shard.value, r.pages, rowLo, rowHi)) else old(packed)
      ensures Valid() <==> (r.Attached? ==> ShardHolds(shard.value, r.pages, rowLo, rowHi, table))
    {
      r := Attach(shard, layer, rowLo, rowHi, table.rows, packed.Some?);
      if r.Attached? {
        packed := Some(Packed(shard.value, r.pages, rowLo, rowHi));
      }
    }
  }

  /** The copy of [start, end) is done up to a position. */
  predicate Copied(file: seq<Byte>, start: nat, end: nat, pinned: seq<Byte>, to: nat)
    requires start <= to <= end <= |file|
  {
    |pinned| == end - start && pinned[..to - start] == file[start..to]
  }

  lemma SomethingIsWanted(rest: nat)
    requires rest > 0
    ensures PartOf(0, (rest + 4095) / 4096 * 4096, 8388608) > 0
  {
    DivisionBounds(rest + 4095, 4096);
  }

  /** A span copied behind the part that is done extends that part. */
  lemma CopySpan(file: seq<Byte>, start: nat, pinned: seq<Byte>, lo: nat, hi: nat)
    requires start <= lo <= hi <= start + |pinned| && hi <= |file|
    requires pinned[..lo - start] == file[start..lo]
    ensures var next := pinned[..lo - start] + file[lo..hi] + pinned[hi - start..];
      |next| == |pinned| && next[..hi - start] == file[start..hi]
  {
  }

  /** x, but not below lo and not above hi. */
  function PartOf(lo: nat, x: nat, hi: nat): (r: nat)
    requires lo <= hi
    ensures lo <= r <= hi
  {
    if x < lo then lo else if x > hi then hi else x
  }

  lemma CountOwnedNext(lo: nat, hi: nat, ids: seq<int>, begin: nat, i: nat)
    requires begin <= i < |ids|
    ensures CountOwned(lo, hi, ids[begin..i + 1])
         == CountOwned(lo, hi, ids[begin..i]) + if Owned(lo, hi, ids[i]) then 1 else 0
  {
    assert ids[begin..i + 1][..i - begin] == ids[begin..i];
  }

  function Least(x: int, y: int): int {
    if x <= y then x else y
  }

  /** The bytes requested from the device: whole pages around [offset, offset + length). */
  function Requested(offset: nat, length: nat): nat {
    (offset % 4096 + length + 4095) / 4096 * 4096
  }

  /** A request is the fewest whole pages that reach the end of what is wanted. */
  lemma RequestIsTight(offset: nat, length: nat)
    ensures Requested(offset, length) % 4096 == 0
    ensures offset / 4096 * 4096 + Requested(offset, length) >= offset + length
    ensures offset / 4096 * 4096 + Requested(offset, length) < offset + length + 4096
  {
    assert offset == offset / 4096 * 4096 + offset % 4096;
    DivisionBounds(offset % 4096 + length + 4095, 4096);
  }

  lemma {:induction false} FirstMatch(bucket: seq<nat>, key: nat, w: nat)
    requires w <= |bucket| && (forall k :: 0 <= k < w ==> bucket[k] != key)
    requires w < |bucket| ==> bucket[w] == key
    ensures FindKey(bucket, key) == w
  {
    var way := FindKey(bucket, key);
    assert way < |bucket| ==> bucket[way] == key;
  }

  /**
  What an attached shard serves when the range starts at lo2 instead of lo: for every id the
  row as far behind lo as the id is behind lo2. Up to the length of the attached range all
  rows are right exactly when the table repeats itself at that distance.
  */
  lemma MovedRangeServesOtherRows(shard: seq<Byte>, pages: bool, lo: nat, hi: nat, table: Table, lo2: nat, hi2: nat)
    requires table.Valid() && ShardHolds(shard, pages, lo, hi, table)
    requires lo2 <= hi2 <= table.rows && hi2 - lo2 <= hi - lo
    ensures ShardHolds(shard, pages, lo2, hi2, table) <==>
      forall id :: lo2 <= id < hi2 ==> table.Row(id) == table.Row(lo + (id - lo2))
  {
    forall id | lo2 <= id < hi2
      ensures ShardRow(shard, pages, lo2, id, table) <==> table.Row(id) == table.Row(lo + (id - lo2)) {
      assert ShardRow(shard, pages, lo, lo + (id - lo2), table);
    }
    assert ShardHolds(shard, pages, lo2, hi2, table) <==>
      forall id :: lo2 <= id < hi2 ==> ShardRow(shard, pages, lo2, id, table);
    if forall id :: lo2 <= id < hi2 ==> table.Row(id) == table.Row(lo + (id - lo2)) {
      forall id | lo2 <= id < hi2 ensures ShardRow(shard, pages, lo2, id, table) {
        assert table.Row(id) == table.Row(lo + (id - lo2));
      }
    }
  }

  /** The row a written shard yields for the n-th row of a range, or None if the read aborts. */
  function ShardYields(table: Table, layer: nat, lo: nat, hi: nat, layout: Layout, n: nat): Option<Image>
    requires table.Valid() && lo <= hi <= table.rows
  {
    if n < hi - lo then Some(table.Row(lo + n))
    else if 4096 + Position(n, layout.Page15?) + 264 <= |Shard(table, layer, lo, hi, layout)| then Some(Zeros(264))
    else None
  }

  lemma YieldsAt(table: Table, layer: nat, lo: nat, hi: nat, layout: Layout, n: nat)
    requires table.Valid() && lo <= hi <= table.rows
    ensures FoundAt(Shard(table, layer, lo, hi, layout), layout.Page15?, n)
         == ShardYields(table, layer, lo, hi, layout, n)
  {
    if n < hi - lo {
      ShardFoundAt(table, layer, lo, hi, layout, n);
    } else {
      ShardPastEnd(table, layer, lo, hi, layout, n);
    }
  }

  lemma YieldsRow(table: Table, layer: nat, lo: nat, hi: nat, layout: Layout, lo2: nat, id: nat)
    requires table.Valid() && lo <= hi <= table.rows && lo2 <= id < table.rows
    ensures ShardRow(Shard(table, layer, lo, hi, layout), layout.Page15?, lo2, id, table) <==>
            ShardYields(table, layer, lo, hi, layout, id - lo2) == Some(table.Row(id))
  {
    YieldsAt(table, layer, lo, hi, layout, id - lo2);
  }

  /** For a written shard and any new range: behind the attached rows it yields zeros, then nothing. */
  lemma AnyRangeOfWrittenShard(table: Table, layer: nat, lo: nat, hi: nat, layout: Layout, lo2: nat, hi2: nat)
    requires table.Valid() && lo <= hi <= table.rows && lo2 <= hi2 <= table.rows
    ensures ShardHolds(Shard(table, layer, lo, hi, layout), layout.Page15?, lo2, hi2, table) <==>
      forall id :: lo2 <= id < hi2 ==> ShardYields(table, layer, lo, hi, layout, id - lo2) == Some(table.Row(id))
  {
    var shard := Shard(table, layer, lo, hi, layout);
    forall id | lo2 <= id < hi2
      ensures ShardRow(shard, layout.Page15?, lo2, id, table) <==>
              ShardYields(table, layer, lo, hi, layout, id - lo2) == Some(table.Row(id))
    {
      YieldsRow(table, layer, lo, hi, layout, lo2, id);
    }
  }

  predicate DifferentRows(table: Table, a: nat, b: nat)
    requires table.Valid() && a < table.rows && b < table.rows
  {
    table.Row(a) != table.Row(b)
  }

  predicate NonzeroRow(table: Table, a: nat)
    requires table.Valid() && a < table.rows
  {
    table.Row(a) != Zeros(264)
  }

  /** No two rows are equal, and none is zero. */
  ghost predicate DistinctRows(table: Table)
    requires table.Valid()
  {
    && (forall a: nat, b: nat :: a < table.rows && b < table.rows && a != b ==> DifferentRows(table, a, b))
    && forall a: nat :: a < table.rows ==> NonzeroRow(table, a)
  }

  lemma YieldsOwnRow(table: Table, layer: nat, lo: nat, hi: nat, layout: Layout, n: nat, id: nat)
    requires table.Valid() && DistinctRows(table) && lo <= hi <= table.rows && id < table.rows
    ensures ShardYields(table, layer, lo, hi, layout, n) == Some(table.Row(id)) <==> n < hi - lo && id == lo + n
  {
    assert NonzeroRow(table, id);
    if n < hi - lo && lo + n != id {
      assert DifferentRows(table, lo + n, id);
    }
  }

  /**
  The guard that is missing: for a table of different rows a written shard is right for a
  range if and only if the range is empty, or starts where the attached one does and does
  not go further.
  */
  lemma ShardRightIff(table: Table, layer: nat, lo: nat, hi: nat, layout: Layout, lo2: nat, hi2: nat)
    requires table.Valid() && DistinctRows(table) && lo <= hi <= table.rows && lo2 <= hi2 <= table.rows
    ensures ShardHolds(Shard(table, layer, lo, hi, layout), layout.Page15?, lo2, hi2, table) <==>
            lo2 == hi2 || (lo2 == lo && hi2 <= hi)
  {
    var shard := Shard(table, layer, lo, hi, layout);
    forall id | lo2 <= id < hi2
      ensures ShardRow(shard, layout.Page15?, lo2, id, table) <==> lo2 == lo && id < hi
    {
      RightRowIff(table, layer, lo, hi, layout, lo2, id);
    }
    if lo2 < hi2 && ShardHolds(shard, layout.Page15?, lo2, hi2, table) {
      assert ShardRow(shard, layout.Page15?, lo2, hi2 - 1, table);
    }
  }

  lemma RightRowIff(table: Table, layer: nat, lo: nat, hi: nat, layout: Layout, lo2: nat, id: nat)
    requires table.Valid() && DistinctRows(table) && lo <= hi <= table.rows && lo2 <= id < table.rows
    ensures ShardRow(Shard(table, layer, lo, hi, layout), layout.Page15?, lo2, id, table) <==> lo2 == lo && id < hi
  {
    YieldsAt(table, layer, lo, hi, layout, id - lo2);
    YieldsOwnRow(table, layer, lo, hi, layout, id - lo2, id);
  }

  /** A table of two rows that differ: all weights 0, all weights 1. */
  const TWO_ROWS := Table(seq(256, _ => 0) + seq(256, _ => 1) + seq(16, _ => 0), 2, 0, 512)

  /** One move that breaks a written shard: the second row is then served as the first. */
  lemma MoveBreaksShard(layer: nat, layout: Layout)
    ensures TWO_ROWS.Valid()
    ensures var shard := Shard(TWO_ROWS, layer, 0, 1, layout);
      && ShardHolds(shard, layout.Page15?, 0, 1, TWO_ROWS)
      && !ShardHolds(shard, layout.Page15?, 1, 2, TWO_ROWS)
  {
    ShardIsExact(TWO_ROWS, layer, 0, 1, layout);
    AnyRangeOfWrittenShard(TWO_ROWS, layer, 0, 1, layout, 1, 2);
    assert TWO_ROWS.Row(0)[0] == 0 && TWO_ROWS.Row(1)[0] == 1;
  }
}
