/**
The wire payload of one slab: how the attention kernels address it, which of the two
layouts a result has, and what a rank reads back from the exchanged buffers.
*/
module PayloadLayout {

  /** 512 output channels followed by the normalizer. */
  type Vector = v: seq<real> | |v| == 513 witness seq(513, _ => 0.0)

  /** The position of one token and head among the vectors of a payload. */
  function Cell(headMajor: bool, rows: nat, token: nat, head: nat): nat {
    if headMajor then head * rows + token else token * 32 + head
  }

  lemma CellBounds(headMajor: bool, rows: nat, token: nat, head: nat)
    requires token < rows && head < 32
    ensures Cell(headMajor, rows, token, head) < rows * 32
  {
    if headMajor {
      assert head * rows + token < head * rows + rows == (head + 1) * rows <= 32 * rows;
    }
  }

  /** Different tokens or heads have different places, in either layout. */
  lemma CellInjective(headMajor: bool, rows: nat, t: nat, h: nat, t': nat, h': nat)
    requires t < rows && t' < rows && h < 32 && h' < 32
    requires Cell(headMajor, rows, t, h) == Cell(headMajor, rows, t', h')
    ensures t == t' && h == h'
  {
    if headMajor && h != h' {
      LaterHead(rows, t, h, t', h');
      LaterHead(rows, t', h', t, h);
    }
  }

  lemma LaterHead(rows: nat, t: nat, h: nat, t': nat, h': nat)
    requires t < rows
    ensures h < h' ==> h * rows + t < h' * rows + t'
  {
    if h < h' {
      assert h * rows + rows == (h + 1) * rows <= h' * rows;
    }
  }

  // ----- Strided views -----

  /** A view of a storage: strides in elements and an offset. */
  datatype View = View(token: nat, head: nat, offset: nat)

  /** The element of a view at a token, head and channel; channels are adjacent. */
  function Address(v: View, token: nat, head: nat, channel: nat): nat {
    token * v.token + head * v.head + channel + v.offset
  }

  /** allocate_outputs: the views of the outputs and of the normalizers. */
  function AllocateOutputs(rows: nat, heads: nat, splitK: nat): (View, View) {
    if splitK == 1 && rows >= 32 && heads == 32 then (View(513, rows * 513, 0), View(513, rows * 513, 512))
    else (View(heads * 513, 513, 0), View(heads * 513, 513, 512))
  }

  datatype Packed = InPlace(headMajor: bool) | Copied

  /** pack_result for an output and its normalizers in one storage; a copy is token-major. */
  function PackResult(rows: nat, output: View, lse: View): Packed {
    if rows >= 32 && output == View(513, rows * 513, 0) && lse == View(513, rows * 513, 512) then InPlace(true)
    else if output == View(32 * 513, 513, 0) && lse == View(32 * 513, 513, 512) then InPlace(false)
    else Copied
  }

  /** A result packed in place lies where its layout says: channels, then the normalizer. */
  lemma PackedInPlace(rows: nat, output: View, lse: View, token: nat, head: nat, channel: nat)
    requires PackResult(rows, output, lse).InPlace? && token < rows && head < 32 && channel < 512
    ensures var at := Cell(PackResult(rows, output, lse).headMajor, rows, token, head) * 513;
      Address(output, token, head, channel) == at + channel && Address(lse, token, head, 0) == at + 512
  {
    if PackResult(rows, output, lse).headMajor {
      assert (head * rows + token) * 513 == token * 513 + head * (rows * 513);
    }
  }

  /** The split chosen for a slab. */
  function SplitK(rows: nat): nat {
    if rows <= 2 then 8 else if rows <= 8 then 2 else 1
  }

  /** What allocate_outputs provides is never copied, and its layout depends on the row count alone. */
  lemma AllocatedIsPacked(rows: nat)
    ensures var views := AllocateOutputs(rows, 32, SplitK(rows));
      PackResult(rows, views.0, views.1) == InPlace(rows >= 32)
  {
  }

  // ----- Writing and reading a payload -----

  /** The vector at a cell. */
  function At(buffer: seq<real>, cell: nat): Vector
    requires (cell + 1) * 513 <= |buffer|
  {
    buffer[cell * 513..cell * 513 + 513]
  }

  /** A payload holds, for every token and head, the vector computed for it. */
  ghost predicate Holds(payload: seq<real>, headMajor: bool, rows: nat, value: (nat, nat) -> Vector) {
    && |payload| == rows * 32 * 513
    && forall token: nat, head: nat :: token < rows && head < 32 ==>
         HoldsAt(payload, headMajor, rows, token, head, value(token, head))
  }

  predicate HoldsAt(payload: seq<real>, headMajor: bool, rows: nat, token: nat, head: nat, v: Vector) {
    var cell := Cell(headMajor, rows, token, head);
    (cell + 1) * 513 <= |payload| && At(payload, cell) == v
  }

  /** One program of the kernel: the stores of one token and head. */
  method StoreVector(buffer: array<real>, cell: nat, v: Vector)
    requires (cell + 1) * 513 <= buffer.Length
    modifies buffer
    ensures At(buffer[..], cell) == v
    ensures forall k :: 0 <= k < buffer.Length && !(cell * 513 <= k < cell * 513 + 513) ==> buffer[k] == old(buffer[k])
  {
    var base := cell * 513;
    for c := 0 to 513
      invariant forall k :: 0 <= k < c ==> buffer[base + k] == v[k]
      invariant forall k :: 0 <= k < buffer.Length && !(base <= k < base + 513) ==> buffer[k] == old(buffer[k])
    {
      buffer[base + c] := v[c];
    }
    assert buffer[..][base..base + 513] == v;
  }

  lemma OtherCellKept(before: seq<real>, after: seq<real>, cell: nat, other: nat)
    requires |before| == |after| && cell != other && (other + 1) * 513 <= |before|
    requires forall k :: 0 <= k < |before| && !(cell * 513 <= k < cell * 513 + 513) ==> after[k] == before[k]
    ensures At(after, other) == At(before, other)
  {
    assert other * 513 + 513 <= cell * 513 || cell * 513 + 513 <= other * 513;
    forall k | 0 <= k < 513 ensures At(after, other)[k] == At(before, other)[k] {
      assert At(after, other)[k] == after[other * 513 + k];
      assert At(before, other)[k] == before[other * 513 + k];
    }
  }

  /** The store of one program leaves the vectors of all others alone. */
  method StoreProgram(buffer: array<real>, headMajor: bool, rows: nat, token: nat, head: nat, v: Vector)
    requires buffer.Length == rows * 32 * 513 && token < rows && head < 32
    modifies buffer
    ensures HoldsAt(buffer[..], headMajor, rows, token, head, v)
    ensures forall t: nat, h: nat, w: Vector :: t < rows && h < 32 && (t != token || h != head) ==>
      HoldsAt(old(buffer[..]), headMajor, rows, t, h, w) ==> HoldsAt(buffer[..], headMajor, rows, t, h, w)
  {
    var cell := Cell(headMajor, rows, token, head);
    CellBounds(headMajor, rows, token, head);
    assert (cell + 1) * 513 <= rows * 32 * 513;
    StoreVector(buffer, cell, v);
    forall t: nat, h: nat |
      t < rows && h < 32 && (t != token || h != head) && (Cell(headMajor, rows, t, h) + 1) * 513 <= buffer.Length
      ensures At(buffer[..], Cell(headMajor, rows, t, h)) == At(old(buffer[..]), Cell(headMajor, rows, t, h)) {
      if Cell(headMajor, rows, t, h) == cell {
        CellInjective(headMajor, rows, t, h, token, head);
      }
      OtherCellKept(old(buffer[..]), buffer[..], cell, Cell(headMajor, rows, t, h));
    }
  }

  /** All programs of a launch: every vector ends up in its place. */
  method StorePayload(headMajor: bool, rows: nat, value: (nat, nat) -> Vector) returns (buffer: array<real>)
    ensures Holds(buffer[..], headMajor, rows, value) && fresh(buffer)
  {
    buffer := new real[rows * 32 * 513](_ => 0.0);
    for token := 0 to rows
      invariant forall t: nat, h: nat :: t < token && h < 32 ==>
        HoldsAt(buffer[..], headMajor, rows, t, h, value(t, h))
    {
      for head := 0 to 32
        invariant forall t: nat, h: nat :: t < token && h < 32 ==>
          HoldsAt(buffer[..], headMajor, rows, t, h, value(t, h))
        invariant forall h: nat :: h < head ==> HoldsAt(buffer[..], headMajor, rows, token, h, value(token, h))
      {
        StoreProgram(buffer, headMajor, rows, token, head, value(token, head));
      }
    }
  }

  /** Where _merge finds the peer's vector in the gathered buffer. */
  function Remote(headMajor: bool, rank: nat, rows: nat, token: nat, head: nat): nat
    requires rank <= 1
  {
    if headMajor then ((1 - rank) * 32 * rows + head * rows + token) * 513
    else ((1 - rank) * rows * 32 + (token * 32 + head)) * 513
  }

  /** Each rank reads exactly the vector that its peer wrote for that token and head. */
  lemma PeerIsRead(headMajor: bool, rank: nat, rows: nat, payloads: seq<seq<real>>, value: (nat, nat) -> Vector,
                   token: nat, head: nat)
    requires rank <= 1 && |payloads| == 2 && |payloads[0]| == |payloads[1]| == rows * 32 * 513
    requires Holds(payloads[1 - rank], headMajor, rows, value) && token < rows && head < 32
    ensures var gathered, at := payloads[0] + payloads[1], Remote(headMajor, rank, rows, token, head);
      at + 513 <= |gathered| && gathered[at..at + 513] == value(token, head)
  {
    var n, cell := rows * 32 * 513, Cell(headMajor, rows, token, head);
    CellBounds(headMajor, rows, token, head);
    assert HoldsAt(payloads[1 - rank], headMajor, rows, token, head, value(token, head));
    assert Remote(headMajor, rank, rows, token, head) == (1 - rank) * n + cell * 513;
    if rank == 0 {
      assert (payloads[0] + payloads[1])[n + cell * 513..n + cell * 513 + 513] == At(payloads[1], cell);
    } else {
      assert (payloads[0] + payloads[1])[cell * 513..cell * 513 + 513] == At(payloads[0], cell);
    }
  }
}
