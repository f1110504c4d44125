/**
The immutable Engram table and the address arithmetic shared by the packed-file writer
and the row store that reads it. A row is 264 bytes, 256 of weight and 8 of scale; a page is
4096 bytes and holds 15 rows; a packed file starts with a header of one page.
*/
module EngramTable {
  import opened Prelude

  /** Weight and scale of one row, adjacent. */
  type Image = r: seq<Byte> | |r| == 264 witness seq(264, _ => 0)

  /** A checkpoint file holding `rows` weight rows and, elsewhere, `rows` scale rows. */
  datatype Table = Table(file: seq<Byte>, rows: nat, weightOffset: nat, scaleOffset: nat) {

    /** Both row arrays lie inside the file. */
    predicate Valid() {
      && weightOffset + rows * 256 <= |file|
      && scaleOffset + rows * 8 <= |file|
    }

    /** The test made when a table is opened, in unsigned arithmetic, accepts just the valid tables. */
    lemma ExtentTest()
      ensures Valid() <==>
        && weightOffset <= |file| && scaleOffset <= |file|
        && rows <= (|file| - weightOffset) / 256
        && rows <= (|file| - scaleOffset) / 8
    {
    }

    function Weight(id: nat): (r: seq<Byte>)
      requires Valid() && id < rows
      ensures |r| == 256
    {
      file[weightOffset + id * 256..weightOffset + id * 256 + 256]
    }

    function Scale(id: nat): (r: seq<Byte>)
      requires Valid() && id < rows
      ensures |r| == 8
    {
      file[scaleOffset + id * 8..scaleOffset + id * 8 + 8]
    }

    /** The rows [lo, hi), in order. */
    function Range(lo: nat, hi: nat): (r: seq<Image>)
      requires Valid() && lo <= hi <= rows
      ensures |r| == hi - lo
      ensures forall i :: 0 <= i < |r| ==> r[i] == Row(lo + i)
    {
      seq<Image>(hi - lo, i requires 0 <= i < hi - lo => Row(lo + i))
    }

    /** The 264 bytes of one row: weight, then scale. */
    function Row(id: nat): Image
      requires Valid() && id < rows
    {
      Weight(id) + Scale(id)
    }
  }

  /** Byte position of a row in a packed file, after the header, by row number in the range. */
  function Position(relative: nat, pages: bool): nat {
    if pages then relative / 15 * 4096 + relative % 15 * 264
    else relative * 264
  }

  /** A packed file that serves every row of [lo, hi) of the table at its position. */
  ghost predicate ShardHolds(shard: seq<Byte>, pages: bool, lo: nat, hi: nat, table: Table)
    requires table.Valid()
  {
    && lo <= hi <= table.rows
    && forall id :: lo <= id < hi ==> ShardRow(shard, pages, lo, id, table)
  }

  /** The bytes at the position of a relative row, if the file reaches that far. */
  function FoundAt(shard: seq<Byte>, pages: bool, n: nat): Option<seq<Byte>> {
    var at := 4096 + Position(n, pages);
    if at + 264 <= |shard| then Some(shard[at..at + 264]) else None
  }

  predicate ShardRow(shard: seq<Byte>, pages: bool, lo: nat, id: nat, table: Table)
    requires table.Valid() && lo <= id < table.rows
  {
    FoundAt(shard, pages, id - lo) == Some(table.Row(id))
  }

  /** In the paged layout a row never crosses a page, so one page-sized request covers it. */
  lemma PagedRowStaysInPage(relative: nat)
    ensures (4096 + Position(relative, true)) % 4096 + 264 <= 4096
    ensures (4096 + Position(relative, true)) % 4096 == relative % 15 * 264
  {
    WithinPage(1 + relative / 15, relative % 15 * 264);
  }

  lemma WithinPage(page: nat, inside: nat)
    requires inside < 4096
    ensures (page * 4096 + inside) % 4096 == inside
  {
  }

  /** The dense layout has no such guarantee: exactly these rows cross a page, 32 of every 512. */
  lemma DenseRowCrossesPage(relative: nat)
    ensures (4096 + Position(relative, false)) % 4096 + 264 > 4096 <==> relative * 33 % 512 > 479
  {
    var x := relative * 33;
    assert 4096 + Position(relative, false) == (1 + x / 512) * 4096 + 8 * (x % 512);
    WithinPage(1 + x / 512, 8 * (x % 512));
  }
}
