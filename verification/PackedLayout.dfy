/**
Writing a packed shard (`packing.py`: header_bytes, packed_offset, pack) and deciding
whether to attach one (`row_store_attach_packed`).
*/
module PackedLayout {
  import opened Prelude
  import opened EngramTable

  datatype Layout = Dense | Page15

  const MAGIC_DENSE: nat := 0x31344e4531565344
  const MAGIC_PAGE15: nat := 0x3247504531345344
  const U64: nat := 0x1_0000_0000_0000_0000

  // ------------------------------------------------------------- the header

  /** Little-endian bytes of v, `width` of them. */
  function LittleEndian(v: nat, width: nat): (r: seq<Byte>)
    ensures |r| == width
    decreases width, v
  {
    if width == 0 then [] else [v % 256] + LittleEndian(v / 256, width - 1)
  }

  function FromLittleEndian(bytes: seq<Byte>): nat {
    if bytes == [] then 0 else bytes[0] + 256 * FromLittleEndian(bytes[1..])
  }

  function Pow256(width: nat): nat {
    if width == 0 then 1 else 256 * Pow256(width - 1)
  }

  lemma {:induction false} LittleEndianRoundTrip(v: nat, width: nat)
    requires v < Pow256(width)
    ensures FromLittleEndian(LittleEndian(v, width)) == v
  {
    if width > 0 {
      LittleEndianRoundTrip(v / 256, width - 1);
      assert LittleEndian(v, width)[1..] == LittleEndian(v / 256, width - 1);
    }
  }

  /** struct.pack('<8Q', ...): eight 64-bit words, one after the other. */
  function Words(values: seq<nat>): (r: seq<Byte>)
    ensures |r| == 8 * |values|
  {
    if values == [] then [] else LittleEndian(values[0], 8) + Words(values[1..])
  }

  /** The k-th 64-bit word of a header. */
  function Word(header: seq<Byte>, k: nat): nat
    requires 8 * k + 8 <= |header|
  {
    FromLittleEndian(header[8 * k..8 * k + 8])
  }

  lemma {:induction false} WordsAt(values: seq<nat>, k: nat)
    requires k < |values|
    ensures Words(values)[8 * k..8 * k + 8] == LittleEndian(values[k], 8)
  {
    var rest := Words(values[1..]);
    assert Words(values) == LittleEndian(values[0], 8) + rest;
    if k > 0 {
      WordsAt(values[1..], k - 1);
      assert Words(values) == LittleEndian(values[0], 8) + rest + [];
      SliceMiddle(LittleEndian(values[0], 8), rest, [], 8 * (k - 1), 8);
    }
  }

  function Magic(layout: Layout): nat {
    if layout.Dense? then MAGIC_DENSE else MAGIC_PAGE15
  }

  function HeaderWords(layer: nat, rows: nat, lo: nat, hi: nat, layout: Layout): seq<nat> {
    [Magic(layout), layer, lo, hi, rows, 264,
     if layout.Page15? then 15 else 0, if layout.Page15? then 4096 else 0]
  }

  function Zeros(n: nat): (r: seq<Byte>)
    ensures |r| == n
  {
    seq(n, _ => 0)
  }

  /** header_bytes for a range that passed its check. */
  function Header(layer: nat, rows: nat, lo: nat, hi: nat, layout: Layout): (r: seq<Byte>)
    ensures |r| == 4096
  {
    Words(HeaderWords(layer, rows, lo, hi, layout)) + Zeros(4096 - 64)
  }

  lemma HeaderWordAt(layer: nat, rows: nat, lo: nat, hi: nat, layout: Layout, k: nat)
    requires k < 8 && layer < U64 && rows < U64 && lo < U64 && hi < U64
    ensures Word(Header(layer, rows, lo, hi, layout), k) == HeaderWords(layer, rows, lo, hi, layout)[k]
    ensures HeaderWords(layer, rows, lo, hi, layout) ==
            if layout.Page15? then [0x3247504531345344, layer, lo, hi, rows, 264, 15, 4096]
            else [0x31344e4531565344, layer, lo, hi, rows, 264, 0, 0]
  {
    var values := HeaderWords(layer, rows, lo, hi, layout);
    WordsAt(values, k);
    assert Header(layer, rows, lo, hi, layout)[8 * k..8 * k + 8] == Words(values)[8 * k..8 * k + 8];
    assert Pow256(8) == U64 by {
      assert Pow256(4) == 0x1_0000_0000;
    }
    LittleEndianRoundTrip(values[k], 8);
  }

  // --------------------------------------------------------------- the body

  /** Consecutive rows with nothing between them. */
  function DenseRows(rows: seq<Image>): (r: seq<Byte>)
    ensures |r| == |rows| * 264
  {
    if rows == [] then [] else rows[0] + DenseRows(rows[1..])
  }

  /** How many of `count` rows go into the first page. */
  function FirstPage(count: nat): (n: nat)
    ensures n <= count && n <= 15
    ensures count > 0 ==> n > 0
  {
    if count < 15 then count else 15
  }

  /** The number of pages that hold `count` rows. */
  function Pages(count: nat): nat {
    if count == 0 then 0 else 1 + Pages(count - FirstPage(count))
  }

  lemma {:induction false} PagesRoundUp(count: nat)
    ensures Pages(count) == (count + 14) / 15
  {
    if count > 0 {
      PagesRoundUp(count - FirstPage(count));
    }
  }

  /** Up to fifteen rows, zero-filled to one page. */
  function Page(rows: seq<Image>): (r: seq<Byte>)
    requires |rows| <= 15
    ensures |r| == 4096
  {
    DenseRows(rows) + Zeros(4096 - |rows| * 264)
  }

  /** Whole pages, each filled before the next. */
  function PagedRows(rows: seq<Image>): (r: seq<Byte>)
    ensures |r| == Pages(|rows|) * 4096
  {
    if rows == [] then []
    else
      var n := FirstPage(|rows|);
      Page(rows[..n]) + PagedRows(rows[n..])
  }

  function Body(rows: seq<Image>, layout: Layout): seq<Byte> {
    if layout.Dense? then DenseRows(rows) else PagedRows(rows)
  }

  lemma {:induction false} DenseAppend(a: seq<Image>, b: seq<Image>)
    ensures DenseRows(a + b) == DenseRows(a) + DenseRows(b)
  {
    if a == [] {
      assert a + b == b;
    } else {
      assert (a + b)[1..] == a[1..] + b;
      DenseAppend(a[1..], b);
    }
  }

  /** Chunks that end on a page boundary concatenate to the layout of the whole range. */
  lemma {:induction false} PagedAppend(a: seq<Image>, b: seq<Image>)
    requires |a| % 15 == 0
    ensures PagedRows(a + b) == PagedRows(a) + PagedRows(b)
  {
    if a == [] {
      assert a + b == b;
    } else {
      var n := FirstPage(|a|);
      assert (a + b)[..n] == a[..n] && (a + b)[n..] == a[n..] + b;
      PagedAppend(a[n..], b);
    }
  }

  lemma BodyAppend(a: seq<Image>, b: seq<Image>, layout: Layout)
    requires |a| % 15 == 0
    ensures Body(a + b, layout) == Body(a, layout) + Body(b, layout)
  {
    DenseAppend(a, b);
    PagedAppend(a, b);
  }

  lemma {:induction false} DenseRowAt(rows: seq<Image>, i: nat)
    requires i < |rows|
    ensures DenseRows(rows)[i * 264..i * 264 + 264] == rows[i]
  {
    if i > 0 {
      DenseRowAt(rows[1..], i - 1);
      SliceMiddle(rows[0], DenseRows(rows[1..]), [], (i - 1) * 264, 264);
      assert DenseRows(rows) == rows[0] + DenseRows(rows[1..]) + [];
    }
  }

  lemma {:induction false} PagedRowAt(rows: seq<Image>, i: nat)
    requires i < |rows|
    ensures PagedPosition(i) + 264 <= Pages(|rows|) * 4096
    ensures PagedRows(rows)[PagedPosition(i)..PagedPosition(i) + 264] == rows[i]
  {
    var n := FirstPage(|rows|);
    var page, rest := Page(rows[..n]), PagedRows(rows[n..]);
    assert PagedRows(rows) == page + rest;
    if i < n {
      DenseRowAt(rows[..n], i);
      SliceMiddle([], DenseRows(rows[..n]), Zeros(4096 - n * 264), i * 264, 264);
      assert page == [] + DenseRows(rows[..n]) + Zeros(4096 - n * 264);
    } else {
      PagedRowAt(rows[n..], i - n);
      SliceMiddle(page, rest, [], PagedPosition(i - n), 264);
      assert page + rest + [] == page + rest;
    }
  }

  /** Position in the paged layout, page by page. */
  function PagedPosition(i: nat): nat {
    if i < 15 then i * 264 else 4096 + PagedPosition(i - 15)
  }

  lemma {:induction false} PagedPositionClosed(i: nat)
    ensures PagedPosition(i) == Position(i, true)
  {
    if i >= 15 {
      PagedPositionClosed(i - 15);
    }
  }

  lemma BodyRowAt(rows: seq<Image>, i: nat, layout: Layout)
    requires i < |rows|
    ensures var at := Position(i, layout.Page15?);
      at + 264 <= |Body(rows, layout)| && Body(rows, layout)[at..at + 264] == rows[i]
  {
    if layout.Dense? {
      DenseRowAt(rows, i);
    } else {
      PagedRowAt(rows, i);
      PagedPositionClosed(i);
    }
  }

  /** Behind the last row a page holds zeros only. */
  lemma {:induction false} PagedPastEnd(rows: seq<Image>, i: nat)
    requires |rows| <= i && PagedPosition(i) + 264 <= Pages(|rows|) * 4096
    ensures PagedRows(rows)[PagedPosition(i)..PagedPosition(i) + 264] == Zeros(264)
  {
    var n := FirstPage(|rows|);
    var page, rest := Page(rows[..n]), PagedRows(rows[n..]);
    if i < 15 {
      SliceMiddle(DenseRows(rows[..n]), Zeros(4096 - n * 264), rest, i * 264 - n * 264, 264);
    } else {
      PagedPastEnd(rows[n..], i - n);
      SliceMiddle(page, rest, [], PagedPosition(i - n), 264);
      assert page + rest + [] == page + rest;
    }
  }

  // ---------------------------------------------------------------- writing

  datatype PackError = BadShape | BadChunk

  /** The size rank packing reserves for one shard before writing it. */
  function PredictedBytes(lo: nat, hi: nat, layout: Layout): nat
    requires lo <= hi
  {
    4096 + (if layout.Page15? then (hi - lo + 15 - 1) / 15 * 4096
                    else ((hi - lo) * 264 + 4096 - 1) / 4096 * 4096)
  }

  /** Zero padding up to the next page boundary. */
  function PadToPage(image: seq<Byte>): (r: seq<Byte>)
    ensures image <= r && |r| == (|image| + 4095) / 4096 * 4096
  {
    RoundUpToPage(|image|);
    image + Zeros((4096 - |image| % 4096) % 4096)
  }

  lemma RoundUpToPage(n: nat)
    ensures n + (4096 - n % 4096) % 4096 == (n + 4095) / 4096 * 4096
  {
    var pages := n / 4096;
    assert n == pages * 4096 + n % 4096;
  }

  /** The complete contents of a shard. */
  function Shard(table: Table, layer: nat, lo: nat, hi: nat, layout: Layout): seq<Byte>
    requires table.Valid() && lo <= hi <= table.rows
  {
    PadToPage(Header(layer, table.rows, lo, hi, layout) + Body(table.Range(lo, hi), layout))
  }

  method Pack(table: Table, layer: nat, lo: nat, hi: nat, layout: Layout, chunkRows: nat)
    returns (r: Result<seq<Byte>, PackError>)
    requires table.Valid() && layer < U64
    ensures r == Err(BadShape) <==> !(lo < hi <= table.rows)
    ensures lo < hi <= table.rows ==>
      (r == Err(BadChunk) <==> !(15 <= chunkRows <= 65520 && chunkRows % 15 == 0))
    ensures r.Ok? ==> lo < hi <= table.rows && r.value == Shard(table, layer, lo, hi, layout)
  {
    if !(lo < hi <= table.rows) {
      return Err(BadShape);
    }
    if !(15 <= chunkRows <= 65520) || chunkRows % 15 != 0 {
      return Err(BadChunk);
    }
    var out := WriteRows(Header(layer, table.rows, lo, hi, layout), table, lo, hi, layout, chunkRows);
    PadCases(out);
    if |out| % 4096 != 0 {
      out := out + Zeros(4096 - |out| % 4096);
    }
    return Ok(out);
  }

  /** Row j of the bytes read for a chunk. */
  function RawRow(weights: seq<Byte>, scales: seq<Byte>, j: nat): Image
    requires (j + 1) * 256 <= |weights| && (j + 1) * 8 <= |scales|
  {
    weights[j * 256..j * 256 + 256] + scales[j * 8..j * 8 + 8]
  }

  /** The rows [first, first + n) of a chunk. */
  function RawRows(weights: seq<Byte>, scales: seq<Byte>, first: nat, n: nat): (r: seq<Image>)
    requires (first + n) * 256 <= |weights| && (first + n) * 8 <= |scales|
    ensures |r| == n && forall k :: 0 <= k < n ==> r[k] == RawRow(weights, scales, first + k)
  {
    seq<Image>(n, k requires 0 <= k < n => RawRow(weights, scales, first + k))
  }

  lemma RawRowsAppend(weights: seq<Byte>, scales: seq<Byte>, first: nat, n: nat, m: nat)
    requires (first + n + m) * 256 <= |weights| && (first + n + m) * 8 <= |scales|
    ensures RawRows(weights, scales, first, n + m) ==
            RawRows(weights, scales, first, n) + RawRows(weights, scales, first + n, m)
  {
  }

  /** Bytes written over part of a page. */
  method CopyInto(page: array<Byte>, at: nat, data: seq<Byte>)
    requires at + |data| <= page.Length
    modifies page
    ensures page[..] == old(page[..at]) + data + old(page[at + |data|..])
  {
    for c := 0 to |data|
      invariant forall k :: 0 <= k < c ==> page[at + k] == data[k]
      invariant forall k :: 0 <= k < page.Length && !(at <= k < at + c) ==> page[k] == old(page[k])
    {
      page[at + c] := data[c];
    }
  }

  /** One slot of a page: 256 bytes of weight, then 8 of scale. */
  method FillSlot(page: array<Byte>, at: nat, weight: seq<Byte>, scale: seq<Byte>)
    requires at + 264 <= page.Length && |weight| == 256 && |scale| == 8
    modifies page
    ensures page[..] == old(page[..at]) + (weight + scale) + old(page[at + 264..])
  {
    CopyInto(page, at, weight);
    ghost var half := page[..];
    CopyInto(page, at + 256, scale);
    assert half[..at + 256] == old(page[..at]) + weight && half[at + 264..] == old(page[at + 264..]);
  }

  /** One zeroed page with up to fifteen rows of the chunk in its slots. */
  method FillPage(weights: seq<Byte>, scales: seq<Byte>, first: nat, n: nat) returns (page: seq<Byte>)
    requires n <= 15 && (first + n) * 256 <= |weights| && (first + n) * 8 <= |scales|
    ensures page == Page(RawRows(weights, scales, first, n))
  {
    var grid := new Byte[4096](_ => 0);
    for slot := 0 to n
      invariant grid[..] == DenseRows(RawRows(weights, scales, first, slot)) + Zeros(4096 - slot * 264)
    {
      var j := first + slot;
      FillSlot(grid, slot * 264, weights[j * 256..j * 256 + 256], scales[j * 8..j * 8 + 8]);
      DenseNext(RawRows(weights, scales, first, slot), RawRow(weights, scales, j));
      RawRowsAppend(weights, scales, first, slot, 1);
      assert RawRows(weights, scales, j, 1) == [RawRow(weights, scales, j)];
    }
    page := grid[..];
  }

  lemma DenseNext(rows: seq<Image>, row: Image)
    ensures DenseRows(rows + [row]) == DenseRows(rows) + row
  {
    DenseAppend(rows, [row]);
    assert DenseRows([row]) == row + DenseRows([row][1..]) == row;
  }

  /** A chunk in the dense layout: rows side by side. */
  method ChunkDense(weights: seq<Byte>, scales: seq<Byte>, count: nat) returns (out: seq<Byte>)
    requires |weights| == count * 256 && |scales| == count * 8
    ensures out == DenseRows(RawRows(weights, scales, 0, count))
  {
    out := [];
    for j := 0 to count
      invariant out == DenseRows(RawRows(weights, scales, 0, j))
    {
      ghost var row := RawRow(weights, scales, j);
      DenseNext(RawRows(weights, scales, 0, j), row);
      assert RawRows(weights, scales, 0, j + 1) == RawRows(weights, scales, 0, j) + [row];
      out := out + (weights[j * 256..j * 256 + 256] + scales[j * 8..j * 8 + 8]);
    }
  }

  /** A chunk in the page15 layout: full pages, then a page for the rest. */
  method ChunkPaged(weights: seq<Byte>, scales: seq<Byte>, count: nat) returns (out: seq<Byte>)
    requires |weights| == count * 256 && |scales| == count * 8
    ensures out == PagedRows(RawRows(weights, scales, 0, count))
  {
    out := [];
    var full, tail := count / 15, count % 15;
    for p := 0 to full
      invariant out == PagedRows(RawRows(weights, scales, 0, p * 15))
    {
      var page := FillPage(weights, scales, p * 15, 15);
      PageNext(weights, scales, p * 15, 15);
      out := out + page;
    }
    if tail > 0 {
      var page := FillPage(weights, scales, full * 15, tail);
      PageNext(weights, scales, full * 15, tail);
      out := out + page;
    }
  }

  /** The bytes written for one chunk. */
  method Chunk(weights: seq<Byte>, scales: seq<Byte>, count: nat, layout: Layout) returns (out: seq<Byte>)
    requires |weights| == count * 256 && |scales| == count * 8
    ensures out == Body(RawRows(weights, scales, 0, count), layout)
  {
    if layout.Dense? {
      out := ChunkDense(weights, scales, count);
    } else {
      out := ChunkPaged(weights, scales, count);
    }
  }

  lemma PageNext(weights: seq<Byte>, scales: seq<Byte>, first: nat, n: nat)
    requires first % 15 == 0 && 0 < n <= 15
    requires (first + n) * 256 <= |weights| && (first + n) * 8 <= |scales|
    ensures PagedRows(RawRows(weights, scales, 0, first + n)) ==
            PagedRows(RawRows(weights, scales, 0, first)) + Page(RawRows(weights, scales, first, n))
  {
    RawRowsAppend(weights, scales, 0, first, n);
    PagedNext(RawRows(weights, scales, 0, first), RawRows(weights, scales, first, n));
  }

  lemma PagedNext(before: seq<Image>, rows: seq<Image>)
    requires |before| % 15 == 0 && 0 < |rows| <= 15
    ensures PagedRows(before + rows) == PagedRows(before) + Page(rows)
  {
    var n := |rows|;
    PagedAppend(before, rows);
    assert rows[..n] == rows && rows[n..] == [];
  }

  lemma RawRowIsTable(table: Table, first: nat, count: nat, k: nat)
    requires table.Valid() && first + count <= table.rows && k < count
    ensures var w, s := table.weightOffset + first * 256, table.scaleOffset + first * 8;
      RawRow(table.file[w..w + count * 256], table.file[s..s + count * 8], k) == table.Row(first + k)
  {
    RawWeightIsTable(table, first, count, k);
    RawScaleIsTable(table, first, count, k);
  }

  lemma RawWeightIsTable(table: Table, first: nat, count: nat, k: nat)
    requires table.Valid() && first + count <= table.rows && k < count
    ensures var w := table.weightOffset + first * 256;
      table.file[w..w + count * 256][k * 256..k * 256 + 256] == table.Weight(first + k)
  {
    SliceOfSlice(table.file, table.weightOffset + first * 256, count * 256, k * 256, 256);
  }

  lemma RawScaleIsTable(table: Table, first: nat, count: nat, k: nat)
    requires table.Valid() && first + count <= table.rows && k < count
    ensures var s := table.scaleOffset + first * 8;
      table.file[s..s + count * 8][k * 8..k * 8 + 8] == table.Scale(first + k)
  {
    SliceOfSlice(table.file, table.scaleOffset + first * 8, count * 8, k * 8, 8);
  }

  /** The bytes read for a chunk are the table's rows. */
  lemma RawRowsAreTable(table: Table, first: nat, count: nat)
    requires table.Valid() && first + count <= table.rows
    ensures var w, s := table.weightOffset + first * 256, table.scaleOffset + first * 8;
      RawRows(table.file[w..w + count * 256], table.file[s..s + count * 8], 0, count) ==
      table.Range(first, first + count)
  {
    var w, s := table.weightOffset + first * 256, table.scaleOffset + first * 8;
    var rows := RawRows(table.file[w..w + count * 256], table.file[s..s + count * 8], 0, count);
    forall k | 0 <= k < count ensures rows[k] == table.Row(first + k) {
      RawRowIsTable(table, first, count, k);
    }
  }

  /** One chunk: the weights and scales of its rows are read and laid out. */
  method ReadChunk(table: Table, first: nat, count: nat, layout: Layout) returns (chunk: seq<Byte>)
    requires table.Valid() && first + count <= table.rows
    ensures chunk == Body(table.Range(first, first + count), layout)
  {
    RawRowsAreTable(table, first, count);
    var w, s := table.weightOffset + first * 256, table.scaleOffset + first * 8;
    chunk := Chunk(table.file[w..w + count * 256], table.file[s..s + count * 8], count, layout);
  }

  /** The chunk loop: rows are appended a chunk at a time behind the header. */
  method WriteRows(header: seq<Byte>, table: Table, lo: nat, hi: nat, layout: Layout, chunkRows: nat)
    returns (out: seq<Byte>)
    requires table.Valid() && lo <= hi <= table.rows
    requires chunkRows > 0 && chunkRows % 15 == 0
    ensures out == header + Body(table.Range(lo, hi), layout)
  {
    out := header;
    var first := lo;
    while first < hi
      invariant lo <= first <= hi
      invariant OnBoundary(lo, first, hi)
      invariant out == header + Body(table.Range(lo, first), layout)
    {
      var count := if chunkRows < hi - first then chunkRows else hi - first;
      var next := first + count;
      var chunk := ReadChunk(table, first, count, layout);
      assert OnBoundary(lo, first, next);
      NextChunk(header, table, lo, first, next, layout, out, chunk);
      out := out + chunk;
      NextBoundary(lo, first, count, hi, chunkRows);
      first := next;
    }
  }

  /** Only the last chunk may end inside a page. */
  predicate OnBoundary(lo: nat, first: nat, hi: nat) {
    first < hi ==> (first - lo) % 15 == 0
  }

  lemma NextBoundary(lo: nat, first: nat, count: nat, hi: nat, chunkRows: nat)
    requires lo <= first < hi && OnBoundary(lo, first, hi) && chunkRows % 15 == 0
    requires count == if chunkRows < hi - first then chunkRows else hi - first
    ensures OnBoundary(lo, first + count, hi)
  {
  }

  lemma RangeAppend(table: Table, lo: nat, mid: nat, hi: nat)
    requires table.Valid() && lo <= mid <= hi <= table.rows
    ensures table.Range(lo, hi) == table.Range(lo, mid) + table.Range(mid, hi)
  {
  }

  lemma NextChunk(header: seq<Byte>, table: Table, lo: nat, mid: nat, hi: nat, layout: Layout,
        out: seq<Byte>, chunk: seq<Byte>)
    requires table.Valid() && lo <= mid < hi <= table.rows && OnBoundary(lo, mid, hi)
    requires out == header + Body(table.Range(lo, mid), layout) && chunk == Body(table.Range(mid, hi), layout)
    ensures out + chunk == header + Body(table.Range(lo, hi), layout)
  {
    RangeAppend(table, lo, mid, hi);
    BodyBehind(header, table.Range(lo, mid), table.Range(mid, hi), table.Range(lo, hi), layout);
  }

  lemma BodyBehind(header: seq<Byte>, a: seq<Image>, b: seq<Image>, both: seq<Image>, layout: Layout)
    requires |a| % 15 == 0 && both == a + b
    ensures header + Body(a, layout) + Body(b, layout) == header + Body(both, layout)
  {
    BodyAppend(a, b, layout);
  }

  lemma PadCases(image: seq<Byte>)
    ensures PadToPage(image) ==
      if |image| % 4096 != 0 then image + Zeros(4096 - |image| % 4096) else image
  {
  }

  lemma ImageLength(header: seq<Byte>, rows: seq<Image>, layout: Layout)
    requires |header| == 4096
    ensures |PadToPage(header + Body(rows, layout))| == PredictedBytes(0, |rows|, layout)
  {
    BodyLength(rows, layout);
    HeaderAndPages(|Body(rows, layout)|);
    if layout.Page15? {
      WholePages((|rows| + 14) / 15);
    }
  }

  lemma BodyLength(rows: seq<Image>, layout: Layout)
    ensures |Body(rows, layout)| == if layout.Dense? then |rows| * 264 else (|rows| + 14) / 15 * 4096
  {
    PagesRoundUp(|rows|);
  }

  lemma HeaderAndPages(n: nat)
    ensures (4096 + n + 4095) / 4096 * 4096 == 4096 + (n + 4095) / 4096 * 4096
  {
  }

  lemma WholePages(n: nat)
    ensures (n * 4096 + 4095) / 4096 * 4096 == n * 4096
  {
  }

  lemma ShardLength(table: Table, layer: nat, lo: nat, hi: nat, layout: Layout)
    requires table.Valid() && lo <= hi <= table.rows
    ensures |Shard(table, layer, lo, hi, layout)| == PredictedBytes(lo, hi, layout)
  {
    ImageLength(Header(layer, table.rows, lo, hi, layout), table.Range(lo, hi), layout);
  }

  lemma ImageRowAt(header: seq<Byte>, rows: seq<Image>, layout: Layout, i: nat)
    requires |header| == 4096 && i < |rows|
    ensures FoundAt(PadToPage(header + Body(rows, layout)), layout.Page15?, i) == Some(rows[i])
  {
    var body, image := Body(rows, layout), PadToPage(header + Body(rows, layout));
    var padding := image[|header + body|..];
    BodyRowAt(rows, i, layout);
    SliceMiddle(header, body, padding, Position(i, layout.Page15?), 264);
    assert image == header + body + padding;
  }

  /** What a reader finds behind the last row, as far as the file goes: zeros. */
  lemma ImagePastEnd(header: seq<Byte>, rows: seq<Image>, layout: Layout, i: nat)
    requires |header| == 4096 && |rows| <= i
    ensures var found := FoundAt(PadToPage(header + Body(rows, layout)), layout.Page15?, i);
      found.Some? ==> found == Some(Zeros(264))
  {
    if FoundAt(PadToPage(header + Body(rows, layout)), layout.Page15?, i).Some? {
      if layout.Dense? {
        DensePastEnd(header + DenseRows(rows), PadToPage(header + DenseRows(rows)), 4096 + i * 264);
      } else {
        PagesPastEnd(header, rows, i);
      }
    }
  }

  lemma DensePastEnd(written: seq<Byte>, image: seq<Byte>, at: nat)
    requires image == PadToPage(written) && |written| <= at && at + 264 <= |image|
    ensures image[at..at + 264] == Zeros(264)
  {
  }

  lemma PagesPastEnd(header: seq<Byte>, rows: seq<Image>, i: nat)
    requires |header| == 4096 && |rows| <= i
    requires 4096 + Position(i, true) + 264 <= |PadToPage(header + PagedRows(rows))|
    ensures FoundAt(PadToPage(header + PagedRows(rows)), true, i) == Some(Zeros(264))
  {
    var pages := PagedRows(rows);
    WholePages(1 + Pages(|rows|));
    assert PadToPage(header + pages) == header + pages + [];
    PagedPositionClosed(i);
    PagedPastEnd(rows, i);
    SliceMiddle(header, pages, [], PagedPosition(i), 264);
  }

  lemma ShardFoundAt(table: Table, layer: nat, lo: nat, hi: nat, layout: Layout, n: nat)
    requires table.Valid() && lo + n < hi <= table.rows
    ensures FoundAt(Shard(table, layer, lo, hi, layout), layout.Page15?, n) == Some(table.Row(lo + n))
  {
    var rows := table.Range(lo, hi);
    ImageRowAt(Header(layer, table.rows, lo, hi, layout), rows, layout, n);
    assert rows[n] == table.Row(lo + n);
  }

  lemma ShardRowAt(table: Table, layer: nat, lo: nat, hi: nat, layout: Layout, id: nat)
    requires table.Valid() && lo <= id < hi <= table.rows
    ensures ShardRow(Shard(table, layer, lo, hi, layout), layout.Page15?, lo, id, table)
  {
    ShardFoundAt(table, layer, lo, hi, layout, id - lo);
  }

  /** The written shard has the predicted size, and every row of the range at its position. */
  lemma ShardIsExact(table: Table, layer: nat, lo: nat, hi: nat, layout: Layout)
    requires table.Valid() && lo <= hi <= table.rows
    ensures |Shard(table, layer, lo, hi, layout)| == PredictedBytes(lo, hi, layout)
    ensures ShardHolds(Shard(table, layer, lo, hi, layout), layout.Page15?, lo, hi, table)
  {
    var shard := Shard(table, layer, lo, hi, layout);
    forall id | lo <= id < hi ensures ShardRow(shard, layout.Page15?, lo, id, table) {
      ShardRowAt(table, layer, lo, hi, layout, id);
    }
    ShardLength(table, layer, lo, hi, layout);
  }

  /** What a reader finds behind the last row of a written shard, as far as the file goes: zeros. */
  lemma ShardPastEnd(table: Table, layer: nat, lo: nat, hi: nat, layout: Layout, relative: nat)
    requires table.Valid() && lo <= hi <= table.rows && hi - lo <= relative
    ensures var found := FoundAt(Shard(table, layer, lo, hi, layout), layout.Page15?, relative);
      found.Some? ==> found == Some(Zeros(264))
  {
    ImagePastEnd(Header(layer, table.rows, lo, hi, layout), table.Range(lo, hi), layout, relative);
  }

  // -------------------------------------------------------------- attaching

  datatype AttachResult =
    | Missing                 // no file: fall back to the checkpoint
    | Ignored                 // belongs to another layer, rank or table
    | Attached(pages: bool)
    | NoHeader
    | BadGeometry
    | Truncated
    | AlreadyAttached

  /** row_store_attach_packed for a store of this layer, range and table size. */
  function Attach(shard: Option<seq<Byte>>, layer: nat, lo: nat, hi: nat, rows: nat, attached: bool): AttachResult
    requires lo <= hi
  {
    if shard.None? then Missing
    else if |shard.value| < 4096 then NoHeader
    else
      var header := shard.value[..4096];
      var pages := Word(header, 0) == MAGIC_PAGE15;
      if pages && (Word(header, 6) != 15 || Word(header, 7) != 4096) then BadGeometry
      else if (Word(header, 0) != MAGIC_DENSE && !pages) || Word(header, 1) != layer || Word(header, 2) != lo
           || Word(header, 3) != hi || Word(header, 4) != rows || Word(header, 5) != 264 then Ignored
      else if |shard.value| < 4096 + (if pages
           then (hi - lo + 15 - 1) / 15 * 4096
           else (hi - lo) * 264) then Truncated
      else if attached then AlreadyAttached
      else Attached(pages)
  }

  /**
  What the writer produces, the reader attaches, with the layout it was written in, if and
  only if layer, range and table size are the ones it was written for.
  */
  lemma WrittenShardAttaches(table: Table, layer: nat, lo: nat, hi: nat, layout: Layout,
        layer': nat, lo': nat, hi': nat, rows': nat)
    requires table.Valid() && lo <= hi <= table.rows < U64 && layer < U64 && lo' <= hi'
    ensures var r := Attach(Some(Shard(table, layer, lo, hi, layout)), layer', lo', hi', rows', false);
      if layer' == layer && lo' == lo && hi' == hi && rows' == table.rows
      then r == Attached(layout.Page15?) else r == Ignored
  {
    var shard := Shard(table, layer, lo, hi, layout);
    assert shard[..4096] == Header(layer, table.rows, lo, hi, layout);
    ShardIsExact(table, layer, lo, hi, layout);
    HeaderWordAt(layer, table.rows, lo, hi, layout, 0);
    HeaderWordAt(layer, table.rows, lo, hi, layout, 1);
    HeaderWordAt(layer, table.rows, lo, hi, layout, 2);
    HeaderWordAt(layer, table.rows, lo, hi, layout, 3);
    HeaderWordAt(layer, table.rows, lo, hi, layout, 4);
    HeaderWordAt(layer, table.rows, lo, hi, layout, 5);
    HeaderWordAt(layer, table.rows, lo, hi, layout, 6);
    HeaderWordAt(layer, table.rows, lo, hi, layout, 7);
  }

  /** A shard that attaches, cut after n bytes. */
  lemma AttachCut(shard: seq<Byte>, n: nat, layer: nat, lo: nat, hi: nat, rows: nat, attached: bool, pages: bool)
    requires lo <= hi && n <= |shard| && Attach(Some(shard), layer, lo, hi, rows, false) == Attached(pages)
    ensures Attach(Some(shard[..n]), layer, lo, hi, rows, attached) ==
      if n < 4096 then NoHeader
      else if n < 4096 + (if pages then (hi - lo + 14) / 15 * 4096 else (hi - lo) * 264) then Truncated
      else if attached then AlreadyAttached
      else Attached(pages)
  {
    if n >= 4096 {
      assert shard[..n][..4096] == shard[..4096];
    }
  }

  /**
  A beginning of a written shard is refused unless it holds all the rows: without its header, or as
  truncated. Only the zeros that pad a dense shard to a page may be missing.
  */
  lemma CutShardIsRefused(table: Table, layer: nat, lo: nat, hi: nat, layout: Layout, n: nat, attached: bool)
    requires table.Valid() && lo <= hi <= table.rows < U64 && layer < U64
    requires n <= |Shard(table, layer, lo, hi, layout)|
    ensures Attach(Some(Shard(table, layer, lo, hi, layout)[..n]), layer, lo, hi, table.rows, attached) ==
      if n < 4096 then NoHeader
      else if n < 4096 + (if layout.Page15? then (hi - lo + 14) / 15 * 4096 else (hi - lo) * 264) then Truncated
      else if attached then AlreadyAttached
      else Attached(layout.Page15?)
  {
    WrittenShardAttaches(table, layer, lo, hi, layout, layer, lo, hi, table.rows);
    AttachCut(Shard(table, layer, lo, hi, layout), n, layer, lo, hi, table.rows, attached, layout.Page15?);
  }
}
