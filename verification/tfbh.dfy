/** The TFBH serialiser (`toolset/common/tfbh.hpp`): the stride of each
    vertex view slot, and `Builder`, which grows a byte buffer holding a
    root record and appends arrays to it. An `Array` record is a 32-bit
    item count followed by a 32-bit offset to its items, counted from the
    offset field itself; `SetArray` fills such a record in the buffer and
    appends the zeroed items at the end. A `BuilderItem` is the position
    of a record in the buffer, so it stays valid when the buffer grows.

    The self-relative pointer type (`es::PointerX86`) is not part of this
    model: its stored offset is read here as an unsigned 32-bit field. */
module Tfbh {
  import opened Bytes
  import opened Outcomes
  import opened Bits

  // Vertex view slots (`TFBH::VtViewSlot`).
  const Float3: nat := 0
  const Float2: nat := 1
  const Short2: nat := 2
  const Short4: nat := 3
  const Byte4: nat := 4
  const IndexShort: nat := 5
  const IndexInt: nat := 6
  const NumSlots: nat := 7

  /** `GetStride`: the bytes one vertex takes in the view of each vertex
      slot; the index slots and anything else get 0. */
  function Stride(slot: nat): (r: nat)
  {
    if slot == Byte4 || slot == Short2 then 4
    else if slot == Float2 || slot == Short4 then 8
    else if slot == Float3 then 12
    else 0
  }

  /** The number of components of a vertex slot's element. */
  function Components(slot: nat): nat {
    if slot == Float3 then 3
    else if slot == Float2 || slot == Short2 then 2
    else if slot == Short4 || slot == Byte4 then 4
    else 0
  }

  /** The size in bytes of one component: a float, a short or a byte. */
  function ComponentSize(slot: nat): nat {
    if slot == Float3 || slot == Float2 then 4
    else if slot == Short2 || slot == Short4 then 2
    else 1
  }

  /** The stride is the element size the slot's name spells (components
      times component size), and it is nonzero exactly for the five vertex
      slots. */
  lemma StrideMeaning(slot: nat)
    ensures Stride(slot) == Components(slot) * ComponentSize(slot)
    ensures Stride(slot) > 0 <==> slot < IndexShort
    ensures Stride(slot) in {0, 4, 8, 12}
  {
  }

  // Record sizes and field offsets of the TFBH layout.
  /** `sizeof(Header)`: id, version, bufferSize and the `streams` array. */
  const HeaderSize: nat := 20
  /** Where `Header::streams` starts. */
  const StreamsField: nat := 12
  /** `sizeof(Stream)`: two arrays and seven views. */
  const StreamSize: nat := 72
  /** Where `Stream::vertices` starts. */
  const VerticesField: nat := 8
  /** `sizeof(VertexBlock)`: two vectors, a count and the `attributes` array. */
  const VertexBlockSize: nat := 36
  /** Where `VertexBlock::attributes` starts. */
  const AttributesField: nat := 28
  /** `sizeof(VtAttr)`, padded to 4 bytes. */
  const VtAttrSize: nat := 8
  /** `sizeof(VtIndex)`, padded to 4 bytes. */
  const VtIndexSize: nat := 12
  /** `sizeof(Array<A>)`: the count and the offset. */
  const ArraySize: nat := 8

  /** `n` zero bytes: what `std::string::resize` appends. */
  function Zeros(n: nat): (z: seq<byte>)
    ensures |z| == n && forall i :: 0 <= i < n ==> z[i] == 0
  {
    seq(n, _ => 0)
  }

  /** The bytes of a value-initialised `Header`: the TFBH id, version 1,
      and zero for the buffer size and the empty `streams` array. */
  function HeaderImage(): (e: seq<byte>)
    ensures |e| == HeaderSize
  {
    FourCC('T', 'F', 'B', 'H') + WriteLE(1, 4) + Zeros(12)
  }

  /** An `Array` record as it reads in the buffer: its item count and the
      position its items start at. */
  datatype ArrayView = ArrayView(numItems: nat, items: nat)

  /** The `Array` record at `at` of `buf`. */
  function ArrayAt(buf: seq<byte>, at: nat): ArrayView
    requires at + ArraySize <= |buf|
  {
    ArrayView(U(buf, at, 4), at + 4 + U(buf, at + 4, 4))
  }

  /** The buffer after `SetArray` for the record at `at` with `numItems`
      items of `size` bytes: the count (a `uint32`) and the offset from the
      offset field to the old end are stored in the record, then the items
      are appended as zero bytes. */
  function WithArray(buf: seq<byte>, at: nat, size: nat, numItems: nat): (r: seq<byte>)
    requires at + ArraySize <= |buf|
    ensures |r| == |buf| + size * numItems
  {
    Put(Put(buf, at, 4, numItems % Word32), at + 4, 4, (|buf| - (at + 4)) % Word32) + Zeros(size * numItems)
  }

  /** After `SetArray` the record holds the count, truncated to 32 bits,
      and, when the old end lies within 2^32 bytes of the offset field, its
      items start exactly at the old end of the buffer. */
  lemma ArrayStored(buf: seq<byte>, at: nat, size: nat, numItems: nat)
    requires at + ArraySize <= |buf|
    ensures ArrayAt(WithArray(buf, at, size, numItems), at).numItems == numItems % Word32
    ensures |buf| - (at + 4) < Word32 ==> ArrayAt(WithArray(buf, at, size, numItems), at).items == |buf|
  {
    var s1 := Put(buf, at, 4, numItems % Word32);
    var rel := (|buf| - (at + 4)) % Word32;
    var s2 := Put(s1, at + 4, 4, rel);
    var r := WithArray(buf, at, size, numItems);
    Pow256Word();
    PutRead(buf, at, 4, numItems % Word32);
    PutRead(s1, at + 4, 4, rel);
    assert r[..|buf|] == s2;
    assert U(r, at, 4) == U(s2, at, 4) by {
      assert r[at..at + 4] == s2[at..at + 4];
    }
    assert U(s2, at, 4) == U(s1, at, 4) by {
      assert s2[at..at + 4] == s1[at..at + 4];
    }
    assert U(r, at + 4, 4) == rel by {
      assert r[at + 4..at + 8] == s2[at + 4..at + 8];
    }
    if |buf| - (at + 4) < Word32 {
      DivUnique(|buf| - (at + 4), Word32, 0, |buf| - (at + 4));
    }
  }

  /** `SetArray` changes no byte before the old end other than the
      record's own eight, and the appended items are all zero. */
  lemma ArrayFrame(buf: seq<byte>, at: nat, size: nat, numItems: nat)
    requires at + ArraySize <= |buf|
    ensures forall i :: 0 <= i < |buf| && !(at <= i < at + ArraySize) ==> WithArray(buf, at, size, numItems)[i] == buf[i]
    ensures forall i :: |buf| <= i < |buf| + size * numItems ==> WithArray(buf, at, size, numItems)[i] == 0
  {
    var s1 := Put(buf, at, 4, numItems % Word32);
    var s2 := Put(s1, at + 4, 4, (|buf| - (at + 4)) % Word32);
    Pow256Word();
    PutRead(buf, at, 4, numItems % Word32);
    PutRead(s1, at + 4, 4, (|buf| - (at + 4)) % Word32);
    assert WithArray(buf, at, size, numItems) == s2 + Zeros(size * numItems);
  }

  /** A `uint32` is below 256^4. */
  lemma Pow256Word()
    ensures Pow256(4) == Word32
  {
  }

  /** A record that `SetArray` does not write to reads the same after the
      buffer grew: why a `BuilderItem`, which keeps a position rather than
      an address, stays valid. */
  lemma ItemStable(buf: seq<byte>, at: nat, size: nat, numItems: nat, item: nat)
    requires at + ArraySize <= |buf| && item + ArraySize <= |buf|
    requires item + ArraySize <= at || at + ArraySize <= item
    ensures ArrayAt(WithArray(buf, at, size, numItems), item) == ArrayAt(buf, item)
  {
    ArrayFrame(buf, at, size, numItems);
    var r := WithArray(buf, at, size, numItems);
    assert r[item..item + 4] == buf[item..item + 4];
    assert r[item + 4..item + 8] == buf[item + 4..item + 8];
  }

  /** A `BuilderItem`: the position of a record in the builder's buffer. */
  datatype Item = Item(offset: nat)

  /** `BuilderItem::operator->` as written: control reaches the end of the
      function without a `return`, so no pointer comes back. */
  function ArrowAsWritten(item: Item): Option<nat>
  {
    None
  }

  /** `BuilderItem::operator->` as intended, like `Get`: the position of
      the record. */
  function Arrow(item: Item): Option<nat>
  {
    Some(item.offset)
  }

  /** `TFBH::Builder`: the buffer under construction. */
  class Builder {
    /** `buffer`, the bytes built so far; the root record `C` comes first. */
    var buffer: seq<byte>

    /** `Builder<Header>()`: the buffer is resized to the size of the root
        record, which is then value-initialised, so it holds exactly the
        20 bytes of `HeaderImage`. */
    constructor ()
      ensures buffer == HeaderImage()
    {
      buffer := Zeros(HeaderSize);
      buffer := HeaderImage();
    }

    /** `BuilderItem::Get`: the `Array` record an item refers to, read in
        the current buffer. */
    function Get(item: Item): (v: Result<ArrayView>)
      reads this
      ensures v.Ok? <==> item.offset + ArraySize <= |buffer|
      ensures v.Ok? ==> v.value == ArrayAt(buffer, item.offset)
    {
      if item.offset + ArraySize <= |buffer| then Ok(ArrayAt(buffer, item.offset)) else Err(OutOfBounds)
    }

    /** `Builder::SetArray` for the `Array` record at `at` of the buffer,
        with `numItems` items of `size` bytes. A record outside the buffer
        is refused and nothing changes. */
    method SetArray(at: nat, size: nat, numItems: nat) returns (r: Result<Item>)
      modifies this
      ensures r.Ok? <==> at + ArraySize <= old(|buffer|)
      ensures r.Ok? ==> r.value == Item(at) && buffer == WithArray(old(buffer), at, size, numItems)
      ensures r.Err? ==> r.error == OutOfBounds && buffer == old(buffer)
    {
      if at + ArraySize > |buffer| {
        return Err(OutOfBounds);
      }
      var dataBegin := |buffer|;
      buffer := Put(buffer, at, 4, numItems % Word32);
      buffer := Put(buffer, at + 4, 4, (dataBegin - (at + 4)) % Word32);
      buffer := buffer + Zeros(size * numItems);
      return Ok(Item(at));
    }
  }

  /** Through the intended `operator->` an item reaches, in every buffer
      that holds its record, the same record `Get` reads; the written one
      reaches no record at all. */
  lemma ArrowDiffers(b: Builder, item: Item)
    requires item.offset + ArraySize <= |b.buffer|
    ensures ArrowAsWritten(item).None?
    ensures Arrow(item).Some? && Arrow(item).value + ArraySize <= |b.buffer|
    ensures b.Get(item).Ok? && ArrayAt(b.buffer, Arrow(item).value) == b.Get(item).value
  {
  }

  /** The intended `operator->` keeps reaching its record while the
      buffer grows: after `SetArray` on another record, the position it
      gives still lies in the buffer and reads the record it read before. */
  lemma ArrowReaches(buf: seq<byte>, at: nat, size: nat, numItems: nat, item: Item)
    requires at + ArraySize <= |buf| && item.offset + ArraySize <= |buf|
    requires item.offset + ArraySize <= at || at + ArraySize <= item.offset
    ensures Arrow(item).Some?
    ensures Arrow(item).value + ArraySize <= |WithArray(buf, at, size, numItems)|
    ensures ArrayAt(WithArray(buf, at, size, numItems), Arrow(item).value) == ArrayAt(buf, item.offset)
  {
    ItemStable(buf, at, size, numItems, item.offset);
  }

  /** A fresh header builder holds the TFBH id and version 1, and after
      `SetArray` of `n` streams on its `streams` field the header counts
      them and the streams start right after the 20-byte header. */
  lemma HeaderStreams(n: nat)
    requires n < Word32
    ensures U(HeaderImage(), 0, 4) == ReadLE(FourCC('T', 'F', 'B', 'H'))
    ensures U(HeaderImage(), 4, 4) == 1
    ensures ArrayAt(WithArray(HeaderImage(), StreamsField, StreamSize, n), StreamsField) == ArrayView(n, HeaderSize)
    ensures |WithArray(HeaderImage(), StreamsField, StreamSize, n)| == HeaderSize + StreamSize * n
  {
    var e := HeaderImage();
    assert e[0..4] == FourCC('T', 'F', 'B', 'H');
    assert e[4..8] == WriteLE(1, 4);
    ReadWriteLE(1, 4);
    ArrayStored(e, StreamsField, StreamSize, n);
    DivUnique(n, Word32, 0, n);
  }
}
