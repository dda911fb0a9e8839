/**
 * The MMIO side of libocxl that works on values: the descriptor of a mapped
 * window, the bounds check guarding every access, the validation of a map
 * request, and the 32/64-bit accessors with their endian conversions. The
 * registry of windows an AFU context owns lives in Context.Afu.
 */
module Mmio {
  import opened Base
  import opened Bytes

  /** ocxl_mmio_type */
  datatype MmioType = GlobalMmio | PerPasidMmio

  /** ocxl_endian: how the AFU lays out the data it exposes. */
  datatype Endian = BigEndian | LittleEndian | HostEndian

  /**
   * One slot of an AFU's MMIO table. `start` is the mapped address, 0 (NULL)
   * once the window is unmapped; `length` is the mapped size in bytes.
   */
  datatype MmioArea = MmioArea(start: u64, length: u64, kind: MmioType)
  {
    predicate Mapped() { start != 0 }
  }

  /** The slot after ocxl_mmio_unmap: the address is cleared, the rest kept. */
  function Unmapped(a: MmioArea): (r: MmioArea)
    ensures !r.Mapped() && r.length == a.length && r.kind == a.kind
    ensures !a.Mapped() ==> r == a
  {
    a.(start := 0)
  }

  /** ocxl_mmio_get_info: the address and size of a window that is still mapped. */
  function GetInfo(a: MmioArea): (r: Result<(u64, u64)>)
    ensures r.Fail? <==> !a.Mapped()
    ensures r.Fail? ==> r.err == InvalidArgs
    ensures r.Ok? ==> r.value.0 == a.start && r.value.1 == a.length
  {
    if a.start == 0 then Fail(InvalidArgs) else Ok((a.start, a.length))
  }

  // ---------------------------------------------------------------------
  // The bounds check. `area` is None for a NULL handle.

  predicate IsMapped(area: Option<MmioArea>)
  {
    area.Some? && area.value.Mapped()
  }

  /**
   * mmio_check as written: the limit length - (size - 1) is computed in
   * size_t and compared, as an off_t, with the signed offset.
   */
  function MmioCheckAsWritten(area: Option<MmioArea>, offset: i64, size: nat): Err
    requires 1 <= size <= 8
  {
    if !IsMapped(area) then InvalidArgs
    else if offset >= AsSigned64(WrapU64(area.value.length - (size - 1))) then OutOfBounds
    else OK
  }

  /** Whatever the window's length, an access the check accepts at a non-negative offset ends inside the window. */
  lemma MmioCheckAsWrittenSound(area: Option<MmioArea>, offset: i64, size: nat)
    requires 1 <= size <= 8
    ensures IsMapped(area) && offset >= 0 && MmioCheckAsWritten(area, offset, size) == OK ==>
      offset + size <= area.value.length
    ensures IsMapped(area) && offset >= 0 && area.value.length < TWO_63 ==>
      (MmioCheckAsWritten(area, offset, size) == OK <==> offset + size <= area.value.length)
  {
    if IsMapped(area) && offset >= 0 {
      var len := area.value.length;
      if len >= size - 1 {
        assert WrapU64(len - (size - 1)) == len - (size - 1);
      } else {
        assert WrapU64(len - (size - 1)) == len - (size - 1) + TWO_64;
      }
    }
  }

  /** A negative offset passes the check as written: a 4-byte access 4 bytes before an 8-byte window. */
  lemma MmioCheckAcceptsNegativeOffset()
    ensures MmioCheckAsWritten(Some(MmioArea(0x1000, 8, GlobalMmio)), -4, 4) == OK
  {
    assert WrapU64(8 - 3) == 5;
  }

  /**
   * The check the accessors of this model use: as written, with negative
   * offsets rejected as out of bounds too.
   */
  function MmioCheck(area: Option<MmioArea>, offset: i64, size: nat): (r: Err)
    requires 1 <= size <= 8
    ensures r == OK || r == InvalidArgs || r == OutOfBounds
    ensures r == InvalidArgs <==> !IsMapped(area)
    ensures r == OK ==> 0 <= offset && offset + size <= area.value.length
    ensures IsMapped(area) && area.value.length < TWO_63 ==>
      (r == OK <==> 0 <= offset && offset + size <= area.value.length)
  {
    if IsMapped(area) && offset < 0 then OutOfBounds
    else
      MmioCheckAsWrittenSound(area, offset, size);
      MmioCheckAsWritten(area, offset, size)
  }

  // ---------------------------------------------------------------------
  // Map requests (ocxl_mmio_map_advanced)

  /** The size to map as written: a zero size means "to the end", computed in size_t. */
  function MapSizeAsWritten(size: u64, offset: i64, length: u64): u64
  {
    if size == 0 then WrapU64(length - offset) else size
  }

  /** The bounds test as written: offset + size, in size_t, must not pass the area's length. */
  predicate MapFitsAsWritten(size: u64, offset: i64, length: u64)
  {
    WrapU64(WrapU64(offset) + MapSizeAsWritten(size, offset, length)) <= length
  }

  /**
   * A "map to the end" request starting one byte past the end of the area
   * passes the test as written, with a size of 2^64 - 1 bytes.
   */
  lemma MapPastEndAccepted(length: u64)
    requires length < TWO_63 - 1
    ensures MapSizeAsWritten(0, length + 1, length) == TWO_64 - 1
    ensures MapFitsAsWritten(0, length + 1, length)
  {
    assert WrapU64(length - (length + 1)) == TWO_64 - 1;
    assert WrapU64(length + 1 + (TWO_64 - 1)) == length;
  }

  /**
   * The validation of a map request this model uses: the window
   * [offset, offset + size) must lie inside the area, a zero size standing
   * for "up to the end of the area". Failures are NO_MEM, as in the source.
   */
  function MapRequest(size: u64, offset: i64, length: u64): (r: Result<u64>)
    ensures r.Ok? <==> 0 <= offset <= length && (size == 0 || offset + size <= length)
    ensures r.Ok? ==> offset + r.value <= length
    ensures r.Ok? ==> r.value == (if size == 0 then length - offset else size)
    ensures r.Fail? ==> r.err == NoMem
  {
    if offset < 0 || offset > length then Fail(NoMem)
    else
      var s := if size == 0 then length - offset else size;
      if offset + s > length then Fail(NoMem) else Ok(s)
  }

  /** Inside the area and without size_t overflow, the test as written and the validation agree. */
  lemma MapRequestAgreesAsWritten(size: u64, offset: i64, length: u64)
    requires 0 <= offset <= length && offset + size < TWO_64
    ensures MapFitsAsWritten(size, offset, length) <==> MapRequest(size, offset, length).Ok?
    ensures MapRequest(size, offset, length).Ok? ==>
      MapRequest(size, offset, length).value == MapSizeAsWritten(size, offset, length)
  {
    assert WrapU64(offset) == offset;
    if size == 0 {
      assert MapSizeAsWritten(size, offset, length) == length - offset;
    }
  }

  // ---------------------------------------------------------------------
  // Accessors

  /** The bytes the AFU sees for `v` in byte order `e`, lowest address first. */
  function EndianBytes32(v: bv32, e: Endian, h: ByteOrder): (r: seq<bv8>)
    ensures |r| == 4
  {
    match e
    case BigEndian => BeBytes32(v)
    case LittleEndian => LeBytes32(v)
    case HostEndian => Store32(v, h)
  }

  function EndianBytes64(v: bv64, e: Endian, h: ByteOrder): (r: seq<bv8>)
    ensures |r| == 8
  {
    match e
    case BigEndian => BeBytes64(v)
    case LittleEndian => LeBytes64(v)
    case HostEndian => Store64(v, h)
  }

  /** The conversion applied between the caller's value and the native access (htobe32 / le32toh / none). */
  function Convert32(v: bv32, e: Endian, h: ByteOrder): bv32
  {
    match e
    case BigEndian => BigConv32(v, h)
    case LittleEndian => LittleConv32(v, h)
    case HostEndian => v
  }

  function Convert64(v: bv64, e: Endian, h: ByteOrder): bv64
  {
    match e
    case BigEndian => BigConv64(v, h)
    case LittleEndian => LittleConv64(v, h)
    case HostEndian => v
  }

  /** Converting then storing natively lays out the value in the requested byte order. */
  lemma ConvertLayout32(v: bv32, e: Endian, h: ByteOrder)
    ensures Store32(Convert32(v, e, h), h) == EndianBytes32(v, e, h)
  {
    SwapLayout32(v);
  }

  lemma ConvertLayout64(v: bv64, e: Endian, h: ByteOrder)
    ensures Store64(Convert64(v, e, h), h) == EndianBytes64(v, e, h)
  {
    SwapLayout64(v);
  }

  lemma SplitJoin32(b0: bv8, b1: bv8, b2: bv8, b3: bv8)
    ensures LeBytes32(Join32(b0, b1, b2, b3)) == [b0, b1, b2, b3]
    ensures BeBytes32(Join32(b3, b2, b1, b0)) == [b0, b1, b2, b3]
  {
  }

  lemma SplitJoin64(b0: bv8, b1: bv8, b2: bv8, b3: bv8, b4: bv8, b5: bv8, b6: bv8, b7: bv8)
    ensures LeBytes64(Join64(b0, b1, b2, b3, b4, b5, b6, b7)) == [b0, b1, b2, b3, b4, b5, b6, b7]
    ensures BeBytes64(Join64(b7, b6, b5, b4, b3, b2, b1, b0)) == [b0, b1, b2, b3, b4, b5, b6, b7]
  {
  }

  /** A native store of a native load writes the same bytes back. */
  lemma StoreLoad32(b: seq<bv8>, h: ByteOrder)
    requires |b| == 4
    ensures Store32(Load32(b, h), h) == b
  {
    SplitJoin32(b[0], b[1], b[2], b[3]);
  }

  lemma StoreLoad64(b: seq<bv8>, h: ByteOrder)
    requires |b| == 8
    ensures Store64(Load64(b, h), h) == b
  {
    SplitJoin64(b[0], b[1], b[2], b[3], b[4], b[5], b[6], b[7]);
  }

  lemma ConvertInvolution32(v: bv32, e: Endian, h: ByteOrder)
    ensures Convert32(Convert32(v, e, h), e, h) == v
  {
    SwapSwap32(v);
  }

  lemma ConvertInvolution64(v: bv64, e: Endian, h: ByteOrder)
    ensures Convert64(Convert64(v, e, h), e, h) == v
  {
    SwapSwap64(v);
  }

  /** Different values have different layouts in every byte order. */
  lemma EndianBytesInjective32(v: bv32, w: bv32, e: Endian, h: ByteOrder)
    requires EndianBytes32(v, e, h) == EndianBytes32(w, e, h)
    ensures v == w
  {
    ConvertLayout32(v, e, h);
    ConvertLayout32(w, e, h);
    LoadStore32(Convert32(v, e, h), h);
    LoadStore32(Convert32(w, e, h), h);
    ConvertInvolution32(v, e, h);
    ConvertInvolution32(w, e, h);
  }

  lemma EndianBytesInjective64(v: bv64, w: bv64, e: Endian, h: ByteOrder)
    requires EndianBytes64(v, e, h) == EndianBytes64(w, e, h)
    ensures v == w
  {
    ConvertLayout64(v, e, h);
    ConvertLayout64(w, e, h);
    LoadStore64(Convert64(v, e, h), h);
    LoadStore64(Convert64(w, e, h), h);
    ConvertInvolution64(v, e, h);
    ConvertInvolution64(w, e, h);
  }

  /** The memory of a window after `b` is written at `offset`; nothing else changes. */
  function Splice(mem: seq<bv8>, offset: nat, b: seq<bv8>): (r: seq<bv8>)
    requires offset + |b| <= |mem|
    ensures |r| == |mem|
    ensures r[offset..offset + |b|] == b
    ensures forall i :: 0 <= i < |mem| && !(offset <= i < offset + |b|) ==> r[i] == mem[i]
  {
    mem[..offset] + b + mem[offset + |b|..]
  }

  /** Memory of a mapped window, as seen by the process: one byte per offset. */
  predicate WindowMemory(area: Option<MmioArea>, mem: seq<bv8>)
  {
    IsMapped(area) ==> |mem| == area.value.length
  }

  /**
   * ocxl_mmio_read32: after the bounds check, a native 32-bit load converted
   * from byte order `e`. The value read is the one whose layout in byte
   * order `e` is the four bytes at `offset`.
   */
  function Read32(area: Option<MmioArea>, mem: seq<bv8>, offset: i64, e: Endian, h: ByteOrder): (r: Result<bv32>)
    requires WindowMemory(area, mem)
    ensures r.Fail? <==> MmioCheck(area, offset, 4) != OK
    ensures r.Fail? ==> r.err == MmioCheck(area, offset, 4)
    ensures r.Ok? ==> 0 <= offset && offset + 4 <= |mem| && EndianBytes32(r.value, e, h) == mem[offset..offset + 4]
  {
    var rc := MmioCheck(area, offset, 4);
    if rc != OK then Fail(rc)
    else
      var b := mem[offset..offset + 4];
      var v := Convert32(Load32(b, h), e, h);
      assert EndianBytes32(v, e, h) == b by {
        ConvertInvolution32(Load32(b, h), e, h);
        ConvertLayout32(v, e, h);
        StoreLoad32(b, h);
      }
      Ok(v)
  }

  /** ocxl_mmio_read64, as Read32 for 8 bytes. */
  function Read64(area: Option<MmioArea>, mem: seq<bv8>, offset: i64, e: Endian, h: ByteOrder): (r: Result<bv64>)
    requires WindowMemory(area, mem)
    ensures r.Fail? <==> MmioCheck(area, offset, 8) != OK
    ensures r.Fail? ==> r.err == MmioCheck(area, offset, 8)
    ensures r.Ok? ==> 0 <= offset && offset + 8 <= |mem| && EndianBytes64(r.value, e, h) == mem[offset..offset + 8]
  {
    var rc := MmioCheck(area, offset, 8);
    if rc != OK then Fail(rc)
    else
      var b := mem[offset..offset + 8];
      var v := Convert64(Load64(b, h), e, h);
      assert EndianBytes64(v, e, h) == b by {
        ConvertInvolution64(Load64(b, h), e, h);
        ConvertLayout64(v, e, h);
        StoreLoad64(b, h);
      }
      Ok(v)
  }

  /**
   * ocxl_mmio_write32: the value is converted to byte order `e`, then stored
   * natively after the bounds check; a refused access changes nothing.
   */
  method Write32(mem: array<bv8>, area: Option<MmioArea>, offset: i64, e: Endian, h: ByteOrder, value: bv32)
    returns (rc: Err)
    requires WindowMemory(area, mem[..])
    modifies mem
    ensures rc == MmioCheck(area, offset, 4)
    ensures rc == OK ==> mem[..] == Splice(old(mem[..]), offset, EndianBytes32(value, e, h))
    ensures rc != OK ==> mem[..] == old(mem[..])
  {
    var native := Convert32(value, e, h);
    rc := MmioCheck(area, offset, 4);
    if rc != OK {
      return;
    }
    var b := Store32(native, h);
    ConvertLayout32(value, e, h);
    for k := 0 to 4
      invariant forall i :: 0 <= i < mem.Length && !(offset <= i < offset + k) ==> mem[i] == old(mem[i])
      invariant forall i :: 0 <= i < k ==> mem[offset + i] == b[i]
    {
      mem[offset + k] := b[k];
    }
    assert mem[..] == Splice(old(mem[..]), offset, b);
  }

  /** ocxl_mmio_write64, as Write32 for 8 bytes. */
  method Write64(mem: array<bv8>, area: Option<MmioArea>, offset: i64, e: Endian, h: ByteOrder, value: bv64)
    returns (rc: Err)
    requires WindowMemory(area, mem[..])
    modifies mem
    ensures rc == MmioCheck(area, offset, 8)
    ensures rc == OK ==> mem[..] == Splice(old(mem[..]), offset, EndianBytes64(value, e, h))
    ensures rc != OK ==> mem[..] == old(mem[..])
  {
    var native := Convert64(value, e, h);
    rc := MmioCheck(area, offset, 8);
    if rc != OK {
      return;
    }
    var b := Store64(native, h);
    ConvertLayout64(value, e, h);
    for k := 0 to 8
      invariant forall i :: 0 <= i < mem.Length && !(offset <= i < offset + k) ==> mem[i] == old(mem[i])
      invariant forall i :: 0 <= i < k ==> mem[offset + i] == b[i]
    {
      mem[offset + k] := b[k];
    }
    assert mem[..] == Splice(old(mem[..]), offset, b);
  }

  // ---------------------------------------------------------------------
  // Properties of the accessors

  /** A 32-bit read at the offset of a successful 32-bit write, in the same byte order, returns the value written. */
  lemma ReadAfterWrite32(area: Option<MmioArea>, mem: seq<bv8>, offset: i64, e: Endian, h: ByteOrder, v: bv32)
    requires WindowMemory(area, mem) && MmioCheck(area, offset, 4) == OK
    ensures WindowMemory(area, Splice(mem, offset, EndianBytes32(v, e, h)))
    ensures Read32(area, Splice(mem, offset, EndianBytes32(v, e, h)), offset, e, h) == Ok(v)
  {
    var m := Splice(mem, offset, EndianBytes32(v, e, h));
    var r := Read32(area, m, offset, e, h);
    EndianBytesInjective32(r.value, v, e, h);
  }

  lemma ReadAfterWrite64(area: Option<MmioArea>, mem: seq<bv8>, offset: i64, e: Endian, h: ByteOrder, v: bv64)
    requires WindowMemory(area, mem) && MmioCheck(area, offset, 8) == OK
    ensures WindowMemory(area, Splice(mem, offset, EndianBytes64(v, e, h)))
    ensures Read64(area, Splice(mem, offset, EndianBytes64(v, e, h)), offset, e, h) == Ok(v)
  {
    var m := Splice(mem, offset, EndianBytes64(v, e, h));
    var r := Read64(area, m, offset, e, h);
    EndianBytesInjective64(r.value, v, e, h);
  }

  /** A write leaves every read that does not overlap it unchanged. */
  lemma ReadBesideWrite32(area: Option<MmioArea>, mem: seq<bv8>, offset: i64, other: i64, e: Endian, f: Endian, h: ByteOrder, v: bv32)
    requires WindowMemory(area, mem) && MmioCheck(area, offset, 4) == OK
    requires other + 4 <= offset || offset + 4 <= other
    ensures WindowMemory(area, Splice(mem, offset, EndianBytes32(v, e, h)))
    ensures Read32(area, Splice(mem, offset, EndianBytes32(v, e, h)), other, f, h) == Read32(area, mem, other, f, h)
  {
    var m := Splice(mem, offset, EndianBytes32(v, e, h));
    if MmioCheck(area, other, 4) == OK {
      assert m[other..other + 4] == mem[other..other + 4];
    }
  }

  /** A 64-bit write leaves every 64-bit read that does not overlap it unchanged. */
  lemma ReadBesideWrite64(area: Option<MmioArea>, mem: seq<bv8>, offset: i64, other: i64, e: Endian, f: Endian, h: ByteOrder, v: bv64)
    requires WindowMemory(area, mem) && MmioCheck(area, offset, 8) == OK
    requires other + 8 <= offset || offset + 8 <= other
    ensures WindowMemory(area, Splice(mem, offset, EndianBytes64(v, e, h)))
    ensures Read64(area, Splice(mem, offset, EndianBytes64(v, e, h)), other, f, h) == Read64(area, mem, other, f, h)
  {
    var m := Splice(mem, offset, EndianBytes64(v, e, h));
    if MmioCheck(area, other, 8) == OK {
      assert m[other..other + 8] == mem[other..other + 8];
    }
  }

  /** The value 4 written big-endian and little-endian: the two layouts differ on every host. */
  lemma BigAndLittleDiffer(h: ByteOrder)
    ensures EndianBytes32(4, BigEndian, h) == [0, 0, 0, 4]
    ensures EndianBytes32(4, LittleEndian, h) == [4, 0, 0, 0]
    ensures EndianBytes64(4, BigEndian, h) == [0, 0, 0, 0, 0, 0, 0, 4]
    ensures EndianBytes64(4, LittleEndian, h) == [4, 0, 0, 0, 0, 0, 0, 0]
  {
  }

  /** Host byte order is big-endian on a big-endian host and little-endian on a little-endian one. */
  lemma HostIsNative32(v: bv32)
    ensures EndianBytes32(v, HostEndian, BigHost) == EndianBytes32(v, BigEndian, BigHost)
    ensures EndianBytes32(v, HostEndian, LittleHost) == EndianBytes32(v, LittleEndian, LittleHost)
  {
  }

  /** Once a window is unmapped, every access to it is refused with INVALID_ARGS. */
  lemma UnmappedRefused(a: MmioArea, offset: i64, size: nat)
    requires 1 <= size <= 8
    ensures MmioCheck(Some(Unmapped(a)), offset, size) == InvalidArgs
    ensures MmioCheck(None, offset, size) == InvalidArgs
  {
  }
}
