/**
 * Byte layouts of 16-, 32- and 64-bit values and the host/endian conversions
 * of <endian.h> (htobe32, le64toh, ...), parameterised by the byte order of
 * the host the library runs on (ppc64 is big-endian, ppc64le and x86_64
 * little-endian).
 */
module Bytes {

  /** Byte order of the CPU running the library. */
  datatype ByteOrder = BigHost | LittleHost

  // ---------------------------------------------------------------------
  // Little- and big-endian byte strings (lowest address first)

  function LeBytes16(x: bv16): (r: seq<bv8>)
    ensures |r| == 2
  {
    [(x & 0xff) as bv8, ((x >> 8) & 0xff) as bv8]
  }

  function BeBytes16(x: bv16): (r: seq<bv8>)
    ensures |r| == 2
  {
    [((x >> 8) & 0xff) as bv8, (x & 0xff) as bv8]
  }

  /** The value whose little-endian bytes are b0 (lowest) .. b1. */
  function Join16(b0: bv8, b1: bv8): bv16
  {
    (b0 as bv16) | ((b1 as bv16) << 8)
  }

  function LeValue16(b: seq<bv8>): bv16
    requires |b| == 2
  {
    Join16(b[0], b[1])
  }

  function BeValue16(b: seq<bv8>): bv16
    requires |b| == 2
  {
    Join16(b[1], b[0])
  }

  function LeBytes32(x: bv32): (r: seq<bv8>)
    ensures |r| == 4
  {
    [(x & 0xff) as bv8, ((x >> 8) & 0xff) as bv8,
     ((x >> 16) & 0xff) as bv8, ((x >> 24) & 0xff) as bv8]
  }

  function BeBytes32(x: bv32): (r: seq<bv8>)
    ensures |r| == 4
  {
    [((x >> 24) & 0xff) as bv8, ((x >> 16) & 0xff) as bv8,
     ((x >> 8) & 0xff) as bv8, (x & 0xff) as bv8]
  }

  function Join32(b0: bv8, b1: bv8, b2: bv8, b3: bv8): bv32
  {
    (b0 as bv32) | ((b1 as bv32) << 8) | ((b2 as bv32) << 16) | ((b3 as bv32) << 24)
  }

  function LeValue32(b: seq<bv8>): bv32
    requires |b| == 4
  {
    Join32(b[0], b[1], b[2], b[3])
  }

  function BeValue32(b: seq<bv8>): bv32
    requires |b| == 4
  {
    Join32(b[3], b[2], b[1], b[0])
  }

  function LeBytes64(x: bv64): (r: seq<bv8>)
    ensures |r| == 8
  {
    [(x & 0xff) as bv8, ((x >> 8) & 0xff) as bv8,
     ((x >> 16) & 0xff) as bv8, ((x >> 24) & 0xff) as bv8,
     ((x >> 32) & 0xff) as bv8, ((x >> 40) & 0xff) as bv8,
     ((x >> 48) & 0xff) as bv8, ((x >> 56) & 0xff) as bv8]
  }

  function BeBytes64(x: bv64): (r: seq<bv8>)
    ensures |r| == 8
  {
    [((x >> 56) & 0xff) as bv8, ((x >> 48) & 0xff) as bv8,
     ((x >> 40) & 0xff) as bv8, ((x >> 32) & 0xff) as bv8,
     ((x >> 24) & 0xff) as bv8, ((x >> 16) & 0xff) as bv8,
     ((x >> 8) & 0xff) as bv8, (x & 0xff) as bv8]
  }

  function Join64(b0: bv8, b1: bv8, b2: bv8, b3: bv8, b4: bv8, b5: bv8, b6: bv8, b7: bv8): bv64
  {
    (b0 as bv64) | ((b1 as bv64) << 8) | ((b2 as bv64) << 16) | ((b3 as bv64) << 24)
    | ((b4 as bv64) << 32) | ((b5 as bv64) << 40) | ((b6 as bv64) << 48) | ((b7 as bv64) << 56)
  }

  function LeValue64(b: seq<bv8>): bv64
    requires |b| == 8
  {
    Join64(b[0], b[1], b[2], b[3], b[4], b[5], b[6], b[7])
  }

  function BeValue64(b: seq<bv8>): bv64
    requires |b| == 8
  {
    Join64(b[7], b[6], b[5], b[4], b[3], b[2], b[1], b[0])
  }

  // ---------------------------------------------------------------------
  // Native loads and stores: what a plain C pointer access does

  /** Bytes written to memory by a native store of `x` on a host of order `h`. */
  function Store16(x: bv16, h: ByteOrder): (r: seq<bv8>)
    ensures |r| == 2
  {
    if h == LittleHost then LeBytes16(x) else BeBytes16(x)
  }

  /** Value produced by a native load of the bytes `b` on a host of order `h`. */
  function Load16(b: seq<bv8>, h: ByteOrder): bv16
    requires |b| == 2
  {
    if h == LittleHost then LeValue16(b) else BeValue16(b)
  }

  function Store32(x: bv32, h: ByteOrder): (r: seq<bv8>)
    ensures |r| == 4
  {
    if h == LittleHost then LeBytes32(x) else BeBytes32(x)
  }

  function Load32(b: seq<bv8>, h: ByteOrder): bv32
    requires |b| == 4
  {
    if h == LittleHost then LeValue32(b) else BeValue32(b)
  }

  function Store64(x: bv64, h: ByteOrder): (r: seq<bv8>)
    ensures |r| == 8
  {
    if h == LittleHost then LeBytes64(x) else BeBytes64(x)
  }

  function Load64(b: seq<bv8>, h: ByteOrder): bv64
    requires |b| == 8
  {
    if h == LittleHost then LeValue64(b) else BeValue64(b)
  }

  // ---------------------------------------------------------------------
  // Byte swaps and the <endian.h> conversions

  function Swap32(x: bv32): bv32
  {
    ((x & 0xff) << 24) | ((x & 0xff00) << 8) | ((x >> 8) & 0xff00) | (x >> 24)
  }

  function Swap64(x: bv64): bv64
  {
    ((x & 0xff) << 56) | ((x & 0xff00) << 40) | ((x & 0xff_0000) << 24) | ((x & 0xff00_0000) << 8)
    | ((x >> 8) & 0xff00_0000) | ((x >> 24) & 0xff_0000) | ((x >> 40) & 0xff00) | (x >> 56)
  }

  /** htobe32 and be32toh: identity on a big-endian host, a byte swap otherwise. */
  function BigConv32(x: bv32, h: ByteOrder): bv32 { if h == BigHost then x else Swap32(x) }
  /** htole32 and le32toh: identity on a little-endian host, a byte swap otherwise. */
  function LittleConv32(x: bv32, h: ByteOrder): bv32 { if h == LittleHost then x else Swap32(x) }
  /** htobe64 and be64toh. */
  function BigConv64(x: bv64, h: ByteOrder): bv64 { if h == BigHost then x else Swap64(x) }
  /** htole64 and le64toh. */
  function LittleConv64(x: bv64, h: ByteOrder): bv64 { if h == LittleHost then x else Swap64(x) }

  // ---------------------------------------------------------------------
  // Properties

  /** Re-joining the bytes a value splits into gives the value back. */
  lemma JoinSplit16(x: bv16)
    ensures Join16((x & 0xff) as bv8, ((x >> 8) & 0xff) as bv8) == x
  {
  }

  lemma JoinSplit32(x: bv32)
    ensures Join32((x & 0xff) as bv8, ((x >> 8) & 0xff) as bv8,
                   ((x >> 16) & 0xff) as bv8, ((x >> 24) & 0xff) as bv8) == x
  {
  }

  lemma JoinSplit64(x: bv64)
    ensures Join64((x & 0xff) as bv8, ((x >> 8) & 0xff) as bv8,
                   ((x >> 16) & 0xff) as bv8, ((x >> 24) & 0xff) as bv8,
                   ((x >> 32) & 0xff) as bv8, ((x >> 40) & 0xff) as bv8,
                   ((x >> 48) & 0xff) as bv8, ((x >> 56) & 0xff) as bv8) == x
  {
  }

  /** A native load reads back what a native store wrote, on either host. */
  lemma LoadStore16(x: bv16, h: ByteOrder)
    ensures Load16(Store16(x, h), h) == x
  {
    JoinSplit16(x);
  }

  lemma LoadStore32(x: bv32, h: ByteOrder)
    ensures Load32(Store32(x, h), h) == x
  {
    JoinSplit32(x);
  }

  lemma LoadStore64(x: bv64, h: ByteOrder)
    ensures Load64(Store64(x, h), h) == x
  {
    JoinSplit64(x);
  }

  lemma SwapSwap32(x: bv32)
    ensures Swap32(Swap32(x)) == x
  {
  }

  lemma SwapSwap64(x: bv64)
    ensures Swap64(Swap64(x)) == x
  {
  }

  /** Storing a byte-swapped value little-endian lays out the big-endian bytes. */
  lemma SwapLayout32(x: bv32)
    ensures LeBytes32(Swap32(x)) == BeBytes32(x)
    ensures BeBytes32(Swap32(x)) == LeBytes32(x)
  {
  }

  lemma SwapLayout64(x: bv64)
    ensures LeBytes64(Swap64(x)) == BeBytes64(x)
    ensures BeBytes64(Swap64(x)) == LeBytes64(x)
  {
  }
}
