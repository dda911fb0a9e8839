/**
 * grow_buffer: the doubling growth of the per-AFU MMIO and IRQ tables, whose
 * capacity is kept in a uint16_t field.
 */
module GrowBuffer {
  import opened Base

  /** Capacity requested from realloc: double the current one, or the initial one for an empty table. */
  function NextCapacity(capacity: u16, initial: nat): (r: nat)
    ensures capacity > 0 ==> r == 2 * capacity
    ensures capacity == 0 ==> r == initial
  {
    if capacity > 0 then 2 * capacity else initial
  }

  // ---------------------------------------------------------------------
  // The capacity field as written: the size_t result is stored into a uint16_t.

  function GrowCountAsWritten(capacity: u16, initial: u16): u16
  {
    NextCapacity(capacity, initial) % TWO_16
  }

  /** Doubling a table of 32768 slots stores 0 as its new capacity although 65536 slots were allocated. */
  lemma GrowCountTruncates(initial: u16)
    ensures NextCapacity(0x8000, initial) == 0x1_0000
    ensures GrowCountAsWritten(0x8000, initial) == 0
  {
  }

  // ---------------------------------------------------------------------
  // The clearing of the new region as written: memset is given an element
  // count where a byte count is needed.

  function Zeros(n: nat): (r: seq<bv8>)
    ensures |r| == n && forall i :: 0 <= i < n ==> r[i] == 0
  {
    if n == 0 then [] else Zeros(n - 1) + [0]
  }

  /**
   * The bytes of a table grown from `capacity` to `newCapacity` elements of
   * `size` bytes, when realloc left the bytes `spare` after the old data:
   * memset clears only the first `newCapacity - capacity` of them.
   */
  function ClearedAsWritten(data: seq<bv8>, spare: seq<bv8>, capacity: nat, newCapacity: nat, size: nat): (r: seq<bv8>)
    requires capacity <= newCapacity && 1 <= size
    requires |data| == capacity * size && |spare| == (newCapacity - capacity) * size
    ensures |r| == newCapacity * size
    ensures r[..|data|] == data
    // memset clears one byte per new element ...
    ensures forall i :: |data| <= i < |data| + (newCapacity - capacity) ==> r[i] == 0
    // ... and the rest of the new elements keeps what realloc left there
    ensures newCapacity - capacity <= |spare|
    ensures r[|data| + (newCapacity - capacity)..] == spare[newCapacity - capacity..]
  {
    assert newCapacity - capacity <= |spare| by {
      assert (newCapacity - capacity) * 1 <= (newCapacity - capacity) * size;
    }
    data + Zeros(newCapacity - capacity) + spare[newCapacity - capacity..]
  }

  /** The clearing the table needs: every byte of every new element is zero. */
  function ClearedIntended(data: seq<bv8>, capacity: nat, newCapacity: nat, size: nat): (r: seq<bv8>)
    requires capacity <= newCapacity
    requires |data| == capacity * size
    ensures |r| == newCapacity * size
    ensures r[..|data|] == data
    ensures forall i :: |data| <= i < |r| ==> r[i] == 0
  {
    data + Zeros((newCapacity - capacity) * size)
  }

  /**
   * Growing an empty table of 24-byte elements to 4 slots clears 4 bytes:
   * when realloc returns non-zero memory, the first new element keeps a
   * non-zero byte, which the intended clearing would have zeroed.
   */
  lemma ClearingTooShort(spare: seq<bv8>)
    requires |spare| == 96 && spare[4] != 0
    ensures ClearedAsWritten([], spare, 0, 4, 24)[4] != 0
    ensures ClearedIntended([], 0, 4, 24)[4] == 0
  {
    var r := ClearedAsWritten([], spare, 0, 4, 24);
    assert r == Zeros(4) + spare[4..];
    assert r[4] == spare[4];
  }

  // ---------------------------------------------------------------------
  // grow_buffer as the rest of the model uses it

  /**
   * Grow a table whose slots are `buffer` (`|buffer|` is the capacity field).
   * realloc's outcome is `allocOk`. New slots hold `blank`, the cleared
   * element. A growth whose capacity does not fit the uint16_t field fails
   * with NO_MEM instead of wrapping, like a failed realloc.
   */
  method Grow<T>(buffer: seq<T>, initial: u16, allocOk: bool, blank: T)
    returns (rc: Err, grown: seq<T>)
    requires |buffer| < TWO_16 && initial > 0
    ensures rc == OK || rc == NoMem
    ensures rc == OK <==> allocOk && NextCapacity(|buffer|, initial) < TWO_16
    ensures rc == OK ==>
      && |grown| == NextCapacity(|buffer|, initial)
      && |buffer| < |grown| < TWO_16
      && grown[..|buffer|] == buffer
      && forall i :: |buffer| <= i < |grown| ==> grown[i] == blank
    ensures rc != OK ==> grown == buffer
  {
    var newCapacity := NextCapacity(|buffer|, initial);
    if !allocOk || newCapacity >= TWO_16 {
      return NoMem, buffer;
    }
    grown := buffer + seq(newCapacity - |buffer|, _ => blank);
    rc := OK;
  }
}
