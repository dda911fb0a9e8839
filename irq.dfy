/**
 * The IRQ and event side of libocxl that works on values: one IRQ table slot,
 * its allocation and teardown sequences, the decoding of one kernel event
 * record (read_afu_event), and the events an event check reports for the
 * sources epoll found ready. The IRQ table itself lives in Context.Afu.
 */
module Irq {
  import opened Base
  import opened Bytes

  /** mmap's failure value, (void *)-1. */
  const MAP_FAILED: u64 := 0xFFFF_FFFF_FFFF_FFFF

  const UINT16_MAX: u16 := 0xFFFF

  /**
   * One IRQ table slot (struct ocxl_irq): the kernel's offset for the IRQ
   * page, the eventfd it signals, the IRQ number, the mapped trigger page
   * (also the IRQ's handle) and the client's info pointer; 0 is NULL.
   */
  datatype IrqSlot = IrqSlot(irqOffset: u64, eventfd: int, irqNumber: u16, addr: u64, info: u64)

  /** One system call made while tearing an IRQ down. */
  datatype Teardown = UnmapPage(addr: u64) | FreeKernelIrq(offset: u64) | CloseFd(fd: int)

  // ---------------------------------------------------------------------
  // irq_dealloc

  /** The slot after irq_dealloc: nothing held, the IRQ number kept. */
  function Released(s: IrqSlot): (r: IrqSlot)
    ensures r.addr == 0 && r.irqOffset == 0 && r.eventfd == -1 && r.info == 0
    ensures r.irqNumber == s.irqNumber
  {
    s.(addr := 0, irqOffset := 0, eventfd := -1, info := 0)
  }

  /**
   * The calls irq_dealloc makes, in order: unmap the page if one is mapped,
   * free the kernel IRQ if one is allocated, close the eventfd if one is open.
   */
  function TeardownCalls(s: IrqSlot): (r: seq<Teardown>)
    ensures UnmapPage(s.addr) in r <==> s.addr != 0
    ensures FreeKernelIrq(s.irqOffset) in r <==> s.irqOffset != 0
    ensures CloseFd(s.eventfd) in r <==> s.eventfd >= 0
    ensures forall c :: c in r ==> c == UnmapPage(s.addr) || c == FreeKernelIrq(s.irqOffset) || c == CloseFd(s.eventfd)
  {
    (if s.addr != 0 then [UnmapPage(s.addr)] else [])
    + (if s.irqOffset != 0 then [FreeKernelIrq(s.irqOffset)] else [])
    + (if s.eventfd >= 0 then [CloseFd(s.eventfd)] else [])
  }

  /** Tearing down a released slot makes no call and changes nothing. */
  lemma DeallocIdempotent(s: IrqSlot)
    ensures TeardownCalls(Released(s)) == []
    ensures Released(Released(s)) == Released(s)
  {
  }

  // ---------------------------------------------------------------------
  // irq_allocate

  /**
   * What the system calls of irq_allocate return: the eventfd (negative on
   * failure), the kernel IRQ offset (None when the ALLOC ioctl fails),
   * whether the SET_FD ioctl succeeds, mmap's result (MAP_FAILED on failure)
   * and whether registering the eventfd with epoll succeeds.
   */
  datatype AllocOutcome = AllocOutcome(eventfd: int, kernelOffset: Option<u64>, setFdOk: bool, mapped: u64, epollOk: bool)

  /** The result of irq_allocate: the code, the slot, and the teardown calls made on failure. */
  datatype Allocation = Allocation(rc: Err, slot: IrqSlot, calls: seq<Teardown>)

  /** irq_allocate failing on a partly built slot: irq_dealloc, then INTERNAL_ERROR. */
  function Abandon(s: IrqSlot): Allocation
  {
    Allocation(InternalError, Released(s), TeardownCalls(s))
  }

  /** irq_allocate as written: a failed mmap leaves MAP_FAILED in the slot before the teardown. */
  function AllocateAsWritten(info: u64, o: AllocOutcome): Allocation
  {
    var s0 := IrqSlot(0, -1, UINT16_MAX, 0, info);
    if o.eventfd < 0 then Abandon(s0)
    else
      var s1 := s0.(eventfd := o.eventfd);
      if o.kernelOffset.None? then Abandon(s1)
      else
        var s2 := s1.(irqOffset := o.kernelOffset.value);
        if !o.setFdOk then Abandon(s2)
        else
          var s3 := s2.(addr := o.mapped);
          if o.mapped == MAP_FAILED || !o.epollOk then Abandon(s3)
          else Allocation(OK, s3, [])
  }

  /** When mmap fails, the teardown as written calls munmap on MAP_FAILED. */
  lemma AllocateUnmapsMapFailed(info: u64, fd: nat, offset: u64)
    ensures UnmapPage(MAP_FAILED) in AllocateAsWritten(info, AllocOutcome(fd, Some(offset), true, MAP_FAILED, true)).calls
  {
  }

  /**
   * irq_allocate as this model uses it: each step acquires one resource and
   * a failing step releases exactly the resources acquired before it; a
   * failed mmap acquires nothing.
   */
  function Allocate(info: u64, o: AllocOutcome): (a: Allocation)
    ensures a.rc == OK || a.rc == InternalError
    ensures a.rc == OK <==> o.eventfd >= 0 && o.kernelOffset.Some? && o.setFdOk && o.mapped != MAP_FAILED && o.epollOk
    ensures a.rc == OK ==>
      a.slot == IrqSlot(o.kernelOffset.value, o.eventfd, UINT16_MAX, o.mapped, info) && a.calls == []
    ensures a.rc != OK ==> a.slot == Released(a.slot) && a.slot.irqNumber == UINT16_MAX
    // every call releases something an earlier step acquired ...
    ensures forall c :: c in a.calls ==>
      || (c.UnmapPage? && c.addr == o.mapped && c.addr != MAP_FAILED)
      || (c.FreeKernelIrq? && o.kernelOffset == Some(c.offset))
      || (c.CloseFd? && c.fd == o.eventfd)
    // ... and everything acquired before the failing step is released
    ensures a.rc != OK && o.eventfd >= 0 ==> CloseFd(o.eventfd) in a.calls
    ensures a.rc != OK && o.eventfd >= 0 && o.kernelOffset.Some? && o.kernelOffset.value != 0 ==>
      FreeKernelIrq(o.kernelOffset.value) in a.calls
    ensures a.rc != OK && o.eventfd >= 0 && o.kernelOffset.Some? && o.setFdOk && o.mapped != MAP_FAILED && o.mapped != 0 ==>
      UnmapPage(o.mapped) in a.calls
  {
    var s0 := IrqSlot(0, -1, UINT16_MAX, 0, info);
    if o.eventfd < 0 then Abandon(s0)
    else
      var s1 := s0.(eventfd := o.eventfd);
      if o.kernelOffset.None? then Abandon(s1)
      else
        var s2 := s1.(irqOffset := o.kernelOffset.value);
        if !o.setFdOk || o.mapped == MAP_FAILED then Abandon(s2)
        else
          var s3 := s2.(addr := o.mapped);
          if !o.epollOk then Abandon(s3)
          else Allocation(OK, s3, [])
  }

  /** Apart from the mmap failure, the allocation as written and the one used here agree. */
  lemma AllocateAgreesAsWritten(info: u64, o: AllocOutcome)
    requires o.mapped != MAP_FAILED
    ensures Allocate(info, o) == AllocateAsWritten(info, o)
  {
  }

  // ---------------------------------------------------------------------
  // ocxl_irq_get_handle / ocxl_irq_get_fd range test

  /** The range test as written: only numbers above the IRQ count are refused. */
  predicate IrqNumberAdmittedAsWritten(irq: u64, irqCount: u16)
  {
    !(irq > irqCount)
  }

  /** The number one past the last allocated IRQ is admitted, so the slot behind the table is read. */
  lemma IrqNumberOnePastEndAdmitted(irqCount: u16)
    ensures IrqNumberAdmittedAsWritten(irqCount, irqCount)
  {
  }

  /** The range test this model uses: an IRQ number names one of the allocated IRQs. */
  predicate IrqNumberAdmitted(irq: u64, irqCount: u16)
  {
    irq < irqCount
  }

  // ---------------------------------------------------------------------
  // Events

  /** ocxl_event: an IRQ trigger, or a translation fault reported by the kernel (dsisr on ppc64 only). */
  datatype Event =
    | IrqEvent(irq: u16, handle: u64, info: u64, count: bv64)
    | TranslationFault(addr: bv64, dsisr: Option<bv64>, count: bv64)

  /** ocxl_event_action */
  datatype Action = ActionSuccess | ActionFail | ActionNone | ActionIgnore

  /** What one read of the AFU descriptor produces: the buffer malloc fails, read fails, or the bytes read. */
  datatype DeviceRead = BufferAllocFailed | ReadFailed(wouldBlock: bool) | ReadBytes(data: seq<bv8>)

  /** The result of read_afu_event: the action, the event on SUCCESS, and the "last event" indication. */
  datatype EventRead = EventRead(action: Action, event: Option<Event>, last: bool)

  const EVENT_HEADER_SIZE: nat := 8
  const FAULT_BODY_SIZE: nat := 24
  const XSL_FAULT_ERROR: bv16 := 0
  const FLAG_LAST: bv16 := 1

  function Failed(): EventRead { EventRead(ActionFail, None, false) }

  /**
   * read_afu_event for the event API version `version` on a host of byte
   * order `h`. The kernel record is a header (u16 type, u16 flags, u32
   * reserved) followed, for an XSL fault, by addr, dsisr and count (u64 each),
   * all in host byte order.
   */
  function ReadAfuEvent(version: u16, read: DeviceRead, h: ByteOrder, ppc64: bool): (r: EventRead)
    ensures version != 0 ==> r == Failed()
    ensures r.action == ActionSuccess <==> r.event.Some?
    ensures r.event.Some? ==> r.event.value.TranslationFault? && (r.event.value.dsisr.Some? <==> ppc64)
    ensures r.action == ActionNone <==> version == 0 && read == ReadFailed(true)
    ensures r.action == ActionNone ==> r.last
    ensures r.action == ActionFail ==> r == Failed()
    ensures r.action == ActionSuccess ==> read.ReadBytes? && |read.data| == EVENT_HEADER_SIZE + FAULT_BODY_SIZE
    ensures read.ReadBytes? && |read.data| < EVENT_HEADER_SIZE ==> r == Failed()
  {
    if version != 0 then Failed()
    else
      match read
      case BufferAllocFailed => Failed()
      case ReadFailed(wouldBlock) => if wouldBlock then EventRead(ActionNone, None, true) else Failed()
      case ReadBytes(d) =>
        if |d| < EVENT_HEADER_SIZE then Failed()
        else
          var kind := Load16(d[0..2], h);
          var last := Load16(d[2..4], h) & FLAG_LAST != 0;
          if kind > XSL_FAULT_ERROR then EventRead(ActionIgnore, None, last)
          else if |d| != EVENT_HEADER_SIZE + FAULT_BODY_SIZE then Failed()
          else
            var fault := TranslationFault(Load64(d[8..16], h), if ppc64 then Some(Load64(d[16..24], h)) else None, Load64(d[24..32], h));
            EventRead(ActionSuccess, Some(fault), last)
  }

  /** The bytes of a kernel event record: header in host order, then the body. */
  function KernelRecord(kind: bv16, flags: bv16, body: seq<bv8>, h: ByteOrder): (r: seq<bv8>)
    ensures |r| == EVENT_HEADER_SIZE + |body|
  {
    Store16(kind, h) + Store16(flags, h) + [0, 0, 0, 0] + body
  }

  /** The body of an XSL fault record. */
  function FaultBody(addr: bv64, dsisr: bv64, count: bv64, h: ByteOrder): (r: seq<bv8>)
    ensures |r| == FAULT_BODY_SIZE
  {
    Store64(addr, h) + Store64(dsisr, h) + Store64(count, h)
  }

  /** The header fields of a record read back as written. */
  lemma RecordHeader(kind: bv16, flags: bv16, body: seq<bv8>, h: ByteOrder)
    ensures Load16(KernelRecord(kind, flags, body, h)[0..2], h) == kind
    ensures Load16(KernelRecord(kind, flags, body, h)[2..4], h) == flags
  {
    var d := KernelRecord(kind, flags, body, h);
    assert d[0..2] == Store16(kind, h);
    assert d[2..4] == Store16(flags, h);
    LoadStore16(kind, h);
    LoadStore16(flags, h);
  }

  /** The body fields of an XSL fault record read back as written. */
  lemma RecordBody(flags: bv16, addr: bv64, dsisr: bv64, count: bv64, h: ByteOrder)
    ensures var d := KernelRecord(XSL_FAULT_ERROR, flags, FaultBody(addr, dsisr, count, h), h);
      Load64(d[8..16], h) == addr && Load64(d[16..24], h) == dsisr && Load64(d[24..32], h) == count
  {
    var d := KernelRecord(XSL_FAULT_ERROR, flags, FaultBody(addr, dsisr, count, h), h);
    assert d[8..16] == Store64(addr, h);
    assert d[16..24] == Store64(dsisr, h);
    assert d[24..32] == Store64(count, h);
    LoadStore64(addr, h);
    LoadStore64(dsisr, h);
    LoadStore64(count, h);
  }

  /** A well-formed XSL fault record decodes to the fault it describes, with "last" taken from the flags. */
  lemma ReadFaultRecord(flags: bv16, addr: bv64, dsisr: bv64, count: bv64, h: ByteOrder, ppc64: bool)
    ensures ReadAfuEvent(0, ReadBytes(KernelRecord(XSL_FAULT_ERROR, flags, FaultBody(addr, dsisr, count, h), h)), h, ppc64)
         == EventRead(ActionSuccess, Some(TranslationFault(addr, if ppc64 then Some(dsisr) else None, count)), flags & FLAG_LAST != 0)
  {
    RecordHeader(XSL_FAULT_ERROR, flags, FaultBody(addr, dsisr, count, h), h);
    RecordBody(flags, addr, dsisr, count, h);
  }

  /** A record of a type newer than the API version knows is skipped, whatever its length, with "last" from its flags. */
  lemma ReadUnknownRecord(kind: bv16, flags: bv16, body: seq<bv8>, h: ByteOrder, ppc64: bool)
    requires kind > XSL_FAULT_ERROR
    ensures ReadAfuEvent(0, ReadBytes(KernelRecord(kind, flags, body, h)), h, ppc64)
         == EventRead(ActionIgnore, None, flags & FLAG_LAST != 0)
  {
    RecordHeader(kind, flags, body, h);
  }

  /** An XSL fault record of the wrong length is a failure. */
  lemma ReadTruncatedFault(flags: bv16, body: seq<bv8>, h: ByteOrder, ppc64: bool)
    requires |body| != FAULT_BODY_SIZE
    ensures ReadAfuEvent(0, ReadBytes(KernelRecord(XSL_FAULT_ERROR, flags, body, h)), h, ppc64) == Failed()
  {
    RecordHeader(XSL_FAULT_ERROR, flags, body, h);
  }

  // ---------------------------------------------------------------------
  // Event check: the events reported for the sources epoll found ready

  /** The read of an IRQ's eventfd: failed, short, or the 8-byte trigger count. */
  datatype IrqRead = IrqReadFailed | IrqReadShort | IrqCount(count: bv64)

  /**
   * One ready epoll source: the AFU descriptor, with the results its
   * successive reads would give, or the IRQ in table slot `irq` with the
   * result of reading its eventfd.
   */
  datatype Ready = DeviceReady(pending: seq<DeviceRead>) | IrqReady(irq: nat, read: IrqRead)

  /** read_afu_event applied to each read of a device source. */
  function DecodeAll(pending: seq<DeviceRead>, version: u16, h: ByteOrder, ppc64: bool): (r: seq<EventRead>)
    ensures |r| == |pending|
    ensures forall j :: 0 <= j < |pending| ==> r[j] == ReadAfuEvent(version, pending[j], h, ppc64)
  {
    seq(|pending|, j requires 0 <= j < |pending| => ReadAfuEvent(version, pending[j], h, ppc64))
  }

  /** Past the reads given for a device source, the kernel queue is empty: the read would block. */
  const QueueEmpty: EventRead := EventRead(ActionNone, None, true)

  function NextResult(results: seq<EventRead>): EventRead
  {
    if results == [] then QueueEmpty else results[0]
  }

  /** The shape every read_afu_event result has. */
  predicate WellFormed(e: EventRead)
  {
    (e.action == ActionSuccess <==> e.event.Some?) && (e.action == ActionNone ==> e.last)
  }

  predicate AllWellFormed(results: seq<EventRead>)
  {
    forall j :: 0 <= j < |results| ==> WellFormed(results[j])
  }

  /**
   * Drain the AFU descriptor, given the successive read_afu_event results,
   * appending the faults read to `acc`: keep reading while results are
   * SUCCESS or IGNORE and the kernel has not flagged the last pending event;
   * None on FAIL. When `bounded`, reading also stops once `acc` holds `cap`
   * events.
   */
  function Drain(results: seq<EventRead>, acc: seq<Event>, cap: nat, bounded: bool): (r: Option<seq<Event>>)
    requires AllWellFormed(results)
    decreases |results|
    ensures r.Some? ==> |r.value| >= |acc| && r.value[..|acc|] == acc
    ensures r.Some? && bounded && |acc| <= cap ==> |r.value| <= cap
  {
    if bounded && |acc| >= cap then Some(acc)
    else
      var e := NextResult(results);
      match e.action
      case ActionFail => None
      case ActionNone => Some(acc)
      case ActionSuccess =>
        var acc' := acc + [e.event.value];
        if e.last || results == [] then Some(acc') else Drain(results[1..], acc', cap, bounded)
      case ActionIgnore =>
        if e.last || results == [] then Some(acc) else Drain(results[1..], acc, cap, bounded)
  }

  lemma DecodedWellFormed(pending: seq<DeviceRead>, version: u16, h: ByteOrder, ppc64: bool)
    ensures AllWellFormed(DecodeAll(pending, version, h, ppc64))
  {
  }

  predicate SourcesInTable(ready: seq<Ready>, irqs: seq<IrqSlot>)
  {
    forall k :: 0 <= k < |ready| && ready[k].IrqReady? ==> ready[k].irq < |irqs|
  }

  /** The event reported for a triggered IRQ. */
  function IrqEventOf(s: IrqSlot, count: bv64): Event
  {
    IrqEvent(s.irqNumber, s.addr, s.info, count)
  }

  /**
   * The events reported for the ready sources, appended to `acc`, or None
   * when a device read fails (the call then returns -1). IRQ sources whose
   * eventfd read fails or is short are skipped. When `bounded`, nothing is
   * added once `acc` holds `cap` events.
   */
  function Collect(ready: seq<Ready>, irqs: seq<IrqSlot>, acc: seq<Event>, cap: nat, bounded: bool,
                   version: u16, h: ByteOrder, ppc64: bool): (r: Option<seq<Event>>)
    requires SourcesInTable(ready, irqs)
    decreases |ready|
    ensures r.Some? ==> |r.value| >= |acc| && r.value[..|acc|] == acc
    ensures r.Some? && bounded && |acc| <= cap ==> |r.value| <= cap
  {
    if ready == [] then Some(acc)
    else
      match ready[0]
      case DeviceReady(pending) =>
        DecodedWellFormed(pending, version, h, ppc64);
        var d := Drain(DecodeAll(pending, version, h, ppc64), acc, cap, bounded);
        if d.None? then None else Collect(ready[1..], irqs, d.value, cap, bounded, version, h, ppc64)
      case IrqReady(i, read) =>
        if read.IrqCount? && !(bounded && |acc| >= cap) then
          Collect(ready[1..], irqs, acc + [IrqEventOf(irqs[i], read.count)], cap, bounded, version, h, ppc64)
        else
          Collect(ready[1..], irqs, acc, cap, bounded, version, h, ppc64)
  }

  /** Drain as written and drain bounded by `cap` agree whenever the former stays within `cap`. */
  lemma {:induction false} DrainBoundedAgrees(results: seq<EventRead>, acc: seq<Event>, cap: nat)
    requires AllWellFormed(results)
    requires Drain(results, acc, cap, false).Some? && |Drain(results, acc, cap, false).value| <= cap
    ensures Drain(results, acc, cap, true) == Drain(results, acc, cap, false)
    decreases |results|
  {
    var e := NextResult(results);
    if |acc| >= cap {
      // nothing more was added as written, so both stop with `acc`
      var r := Drain(results, acc, cap, false).value;
      assert r == r[..|acc|] == acc;
    } else if e.action == ActionSuccess && !(e.last || results == []) {
      DrainBoundedAgrees(results[1..], acc + [e.event.value], cap);
    } else if e.action == ActionIgnore && !(e.last || results == []) {
      DrainBoundedAgrees(results[1..], acc, cap);
    }
  }

  /** The event check as written and the bounded one agree whenever the former reports at most `cap` events. */
  lemma {:induction false} CollectBoundedAgrees(ready: seq<Ready>, irqs: seq<IrqSlot>, acc: seq<Event>, cap: nat,
                                                version: u16, h: ByteOrder, ppc64: bool)
    requires SourcesInTable(ready, irqs)
    requires Collect(ready, irqs, acc, cap, false, version, h, ppc64).Some?
    requires |Collect(ready, irqs, acc, cap, false, version, h, ppc64).value| <= cap
    ensures Collect(ready, irqs, acc, cap, true, version, h, ppc64) == Collect(ready, irqs, acc, cap, false, version, h, ppc64)
    decreases |ready|
  {
    if ready != [] {
      assert SourcesInTable(ready[1..], irqs);
      match ready[0]
      case DeviceReady(pending) =>
        DecodedWellFormed(pending, version, h, ppc64);
        var results := DecodeAll(pending, version, h, ppc64);
        var d := Drain(results, acc, cap, false);
        var rest := Collect(ready[1..], irqs, d.value, cap, false, version, h, ppc64);
        assert |d.value| <= |rest.value|;
        DrainBoundedAgrees(results, acc, cap);
        CollectBoundedAgrees(ready[1..], irqs, d.value, cap, version, h, ppc64);
      case IrqReady(i, read) =>
        if read.IrqCount? {
          var acc' := acc + [IrqEventOf(irqs[i], read.count)];
          var rest := Collect(ready[1..], irqs, acc', cap, false, version, h, ppc64);
          assert |acc'| <= |rest.value|;
          CollectBoundedAgrees(ready[1..], irqs, acc', cap, version, h, ppc64);
        } else {
          CollectBoundedAgrees(ready[1..], irqs, acc, cap, version, h, ppc64);
        }
    }
  }

  // A reference description of the drain: where reading stops and what is kept.

  /** A result after which the drain reads no further: FAIL, NONE, or a record flagged last. */
  predicate StopsDrain(e: EventRead)
  {
    e.action == ActionFail || e.action == ActionNone || e.last
  }

  /** The index of the result at which the drain stops, |results| when the given results run out first. */
  function DrainStop(results: seq<EventRead>): (k: nat)
    ensures k <= |results|
    ensures forall j :: 0 <= j < k ==> !StopsDrain(results[j])
    ensures k < |results| ==> StopsDrain(results[k])
  {
    if results == [] || StopsDrain(results[0]) then 0 else 1 + DrainStop(results[1..])
  }

  /** The drain stops on a FAIL. */
  predicate DrainFails(results: seq<EventRead>)
  {
    DrainStop(results) < |results| && results[DrainStop(results)].action == ActionFail
  }

  /** The results the drain consumes, the one it stops at included. */
  function Drained(results: seq<EventRead>): (r: seq<EventRead>)
    ensures r <= results
  {
    var k := DrainStop(results);
    if k < |results| then results[..k + 1] else results
  }

  /** The events of the SUCCESS results, in order. */
  function Successes(results: seq<EventRead>): (r: seq<Event>)
    requires AllWellFormed(results)
    ensures |r| == SuccessCount(results)
  {
    if results == [] then []
    else (if results[0].action == ActionSuccess then [results[0].event.value] else []) + Successes(results[1..])
  }

  /** The number of SUCCESS results. */
  function SuccessCount(results: seq<EventRead>): nat
  {
    if results == [] then 0 else (if results[0].action == ActionSuccess then 1 else 0) + SuccessCount(results[1..])
  }

  /** The event one SUCCESS result adds; nothing for the other actions. */
  function Kept(e: EventRead): seq<Event>
    requires WellFormed(e)
  {
    if e.action == ActionSuccess then [e.event.value] else []
  }

  /** The reference drain: None on a FAIL, otherwise `acc` followed by the events of the SUCCESS results consumed. */
  function DrainReference(results: seq<EventRead>, acc: seq<Event>): Option<seq<Event>>
    requires AllWellFormed(results)
  {
    if DrainFails(results) then None else Some(acc + Successes(Drained(results)))
  }

  lemma DrainAtStop(results: seq<EventRead>, acc: seq<Event>, cap: nat)
    requires AllWellFormed(results)
    requires results == [] || StopsDrain(results[0])
    ensures Drain(results, acc, cap, false) == DrainReference(results, acc)
  {
    assert DrainStop(results) == 0;
    if results == [] {
      assert Drained(results) == [];
      assert acc + [] == acc;
    } else {
      var e := results[0];
      assert NextResult(results) == e;
      assert Drained(results) == [e];
      assert [e][1..] == [];
      assert Successes([e]) == Kept(e) + Successes([]);
      assert acc + (Kept(e) + []) == acc + Kept(e);
      if e.action != ActionSuccess {
        assert acc + Kept(e) == acc;
      }
    }
  }

  lemma DrainStep(results: seq<EventRead>, acc: seq<Event>, cap: nat)
    requires AllWellFormed(results)
    requires results != [] && !StopsDrain(results[0])
    ensures AllWellFormed(results[1..])
    ensures Drain(results, acc, cap, false) == Drain(results[1..], acc + Kept(results[0]), cap, false)
  {
    assert NextResult(results) == results[0];
    if results[0].action != ActionSuccess {
      assert acc + Kept(results[0]) == acc;
    }
  }

  lemma DrainedStep(results: seq<EventRead>)
    requires results != [] && !StopsDrain(results[0])
    ensures DrainFails(results) == DrainFails(results[1..])
    ensures Drained(results) == [results[0]] + Drained(results[1..])
  {
    var rest := results[1..];
    assert DrainStop(results) == 1 + DrainStop(rest);
    if DrainStop(rest) < |rest| {
      assert results[DrainStop(results)] == rest[DrainStop(rest)];
      assert results[..DrainStop(results) + 1] == [results[0]] + rest[..DrainStop(rest) + 1];
    } else {
      assert results == [results[0]] + rest;
    }
  }

  lemma DrainedWellFormed(results: seq<EventRead>)
    requires AllWellFormed(results)
    ensures AllWellFormed(Drained(results))
  {
    var d := Drained(results);
    forall j | 0 <= j < |d| ensures WellFormed(d[j]) {
      assert d[j] == results[j];
    }
  }

  lemma SuccessesCons(e: EventRead, rest: seq<EventRead>)
    requires WellFormed(e) && AllWellFormed(rest)
    ensures AllWellFormed([e] + rest)
    ensures Successes([e] + rest) == Kept(e) + Successes(rest)
  {
    assert ([e] + rest)[1..] == rest;
  }

  lemma SuccessesDrainedStep(results: seq<EventRead>)
    requires AllWellFormed(results)
    requires results != [] && !StopsDrain(results[0])
    ensures AllWellFormed(results[1..])
    ensures Successes(Drained(results)) == Kept(results[0]) + Successes(Drained(results[1..]))
  {
    DrainedStep(results);
    DrainedWellFormed(results[1..]);
    SuccessesCons(results[0], Drained(results[1..]));
  }

  lemma DrainReferenceStep(results: seq<EventRead>, acc: seq<Event>)
    requires AllWellFormed(results)
    requires results != [] && !StopsDrain(results[0])
    ensures AllWellFormed(results[1..])
    ensures DrainReference(results, acc) == DrainReference(results[1..], acc + Kept(results[0]))
  {
    DrainedStep(results);
    SuccessesDrainedStep(results);
    var here := Kept(results[0]);
    var tail := Successes(Drained(results[1..]));
    assert acc + here + tail == acc + (here + tail);
  }

  /**
   * The drain as written (no capacity): None exactly when a FAIL is reached
   * before a NONE or a record flagged last; otherwise `acc` followed by the
   * event of each SUCCESS result consumed, in order.
   */
  lemma {:induction false} DrainUnbounded(results: seq<EventRead>, acc: seq<Event>, cap: nat)
    requires AllWellFormed(results)
    ensures Drain(results, acc, cap, false) ==
      if DrainFails(results) then None else Some(acc + Successes(Drained(results)))
    decreases |results|
  {
    if results == [] || StopsDrain(results[0]) {
      DrainAtStop(results, acc, cap);
    } else {
      DrainStep(results, acc, cap);
      DrainReferenceStep(results, acc);
      DrainUnbounded(results[1..], acc + Kept(results[0]), cap);
    }
  }

  /** What one ready source contributes to the events reported, or None when its read fails. */
  function SourceEvents(r: Ready, irqs: seq<IrqSlot>, version: u16, h: ByteOrder, ppc64: bool): Option<seq<Event>>
    requires r.IrqReady? ==> r.irq < |irqs|
  {
    match r
    case DeviceReady(pending) =>
      var results := DecodeAll(pending, version, h, ppc64);
      DecodedWellFormed(pending, version, h, ppc64);
      if DrainFails(results) then None else Some(Successes(Drained(results)))
    case IrqReady(i, read) =>
      Some(if read.IrqCount? then [IrqEventOf(irqs[i], read.count)] else [])
  }

  /** Some ready device source reaches a FAIL. */
  predicate SomeSourceFails(ready: seq<Ready>, irqs: seq<IrqSlot>, version: u16, h: ByteOrder, ppc64: bool)
    requires SourcesInTable(ready, irqs)
  {
    exists k :: 0 <= k < |ready| && SourceEvents(ready[k], irqs, version, h, ppc64).None?
  }

  /** The contributions of the ready sources, in order, when none fails. */
  function Reported(ready: seq<Ready>, irqs: seq<IrqSlot>, version: u16, h: ByteOrder, ppc64: bool): seq<Event>
    requires SourcesInTable(ready, irqs)
  {
    if ready == [] then []
    else
      var s := SourceEvents(ready[0], irqs, version, h, ppc64);
      (if s.Some? then s.value else []) + Reported(ready[1..], irqs, version, h, ppc64)
  }

  /** The SUCCESS results the device sources drain plus the IRQ sources whose eventfd read gives a count. */
  function ReportedCount(ready: seq<Ready>, version: u16, h: ByteOrder, ppc64: bool): nat
  {
    if ready == [] then 0
    else
      var here := match ready[0]
        case DeviceReady(pending) => SuccessCount(Drained(DecodeAll(pending, version, h, ppc64)))
        case IrqReady(_, read) => if read.IrqCount? then 1 else 0;
      here + ReportedCount(ready[1..], version, h, ppc64)
  }

  /** The sources after the first are still in the table, and some source fails iff the first does or a later one does. */
  lemma SourcesCons(ready: seq<Ready>, irqs: seq<IrqSlot>, version: u16, h: ByteOrder, ppc64: bool)
    requires ready != [] && SourcesInTable(ready, irqs)
    ensures SourcesInTable(ready[1..], irqs)
    ensures SomeSourceFails(ready, irqs, version, h, ppc64) <==>
      SourceEvents(ready[0], irqs, version, h, ppc64).None? || SomeSourceFails(ready[1..], irqs, version, h, ppc64)
  {
    var rest := ready[1..];
    forall k | 0 <= k < |rest| && rest[k].IrqReady? ensures rest[k].irq < |irqs| {
      assert rest[k] == ready[k + 1];
    }
    if SomeSourceFails(rest, irqs, version, h, ppc64) {
      var k :| 0 <= k < |rest| && SourceEvents(rest[k], irqs, version, h, ppc64).None?;
      assert rest[k] == ready[k + 1];
    }
    if SomeSourceFails(ready, irqs, version, h, ppc64) {
      var k :| 0 <= k < |ready| && SourceEvents(ready[k], irqs, version, h, ppc64).None?;
      if k > 0 { assert ready[k] == rest[k - 1]; }
    }
  }

  /** The event check's first step: the first source's contribution, or None when it fails. */
  lemma CollectStep(ready: seq<Ready>, irqs: seq<IrqSlot>, acc: seq<Event>, cap: nat,
                    version: u16, h: ByteOrder, ppc64: bool)
    requires ready != [] && SourcesInTable(ready, irqs)
    ensures SourcesInTable(ready[1..], irqs)
    ensures var s := SourceEvents(ready[0], irqs, version, h, ppc64);
      Collect(ready, irqs, acc, cap, false, version, h, ppc64) ==
        if s.None? then None else Collect(ready[1..], irqs, acc + s.value, cap, false, version, h, ppc64)
  {
    SourcesCons(ready, irqs, version, h, ppc64);
    match ready[0]
    case DeviceReady(pending) =>
      DecodedWellFormed(pending, version, h, ppc64);
      DrainUnbounded(DecodeAll(pending, version, h, ppc64), acc, cap);
    case IrqReady(i, read) =>
      assert acc + [] == acc;
  }

  /** The reference event check: None when some source fails, otherwise `acc` followed by every source's contribution. */
  function CollectReference(ready: seq<Ready>, irqs: seq<IrqSlot>, acc: seq<Event>, version: u16, h: ByteOrder, ppc64: bool): Option<seq<Event>>
    requires SourcesInTable(ready, irqs)
  {
    if SomeSourceFails(ready, irqs, version, h, ppc64) then None else Some(acc + Reported(ready, irqs, version, h, ppc64))
  }

  lemma CollectReferenceStep(ready: seq<Ready>, irqs: seq<IrqSlot>, acc: seq<Event>, version: u16, h: ByteOrder, ppc64: bool)
    requires ready != [] && SourcesInTable(ready, irqs)
    ensures SourcesInTable(ready[1..], irqs)
    ensures var s := SourceEvents(ready[0], irqs, version, h, ppc64);
      CollectReference(ready, irqs, acc, version, h, ppc64) ==
        if s.None? then None else CollectReference(ready[1..], irqs, acc + s.value, version, h, ppc64)
  {
    var rest := ready[1..];
    var s := SourceEvents(ready[0], irqs, version, h, ppc64);
    SourcesCons(ready, irqs, version, h, ppc64);
    if s.Some? {
      var tail := Reported(rest, irqs, version, h, ppc64);
      assert Reported(ready, irqs, version, h, ppc64) == s.value + tail;
      assert acc + s.value + tail == acc + (s.value + tail);
    }
  }

  /**
   * The event check as written (no capacity): -1 exactly when some device
   * source reaches a FAIL; otherwise `acc` followed by each source's
   * contribution, in the order epoll gave the sources.
   */
  lemma {:induction false} CollectUnbounded(ready: seq<Ready>, irqs: seq<IrqSlot>, acc: seq<Event>, cap: nat,
                                            version: u16, h: ByteOrder, ppc64: bool)
    requires SourcesInTable(ready, irqs)
    ensures Collect(ready, irqs, acc, cap, false, version, h, ppc64) ==
      if SomeSourceFails(ready, irqs, version, h, ppc64) then None
      else Some(acc + Reported(ready, irqs, version, h, ppc64))
    decreases |ready|
  {
    if ready == [] {
      assert acc + [] == acc;
    } else {
      var s := SourceEvents(ready[0], irqs, version, h, ppc64);
      CollectStep(ready, irqs, acc, cap, version, h, ppc64);
      CollectReferenceStep(ready, irqs, acc, version, h, ppc64);
      if s.Some? {
        CollectUnbounded(ready[1..], irqs, acc + s.value, cap, version, h, ppc64);
      }
    }
  }

  /** The events reported are as many as the SUCCESS results drained plus the IRQ reads that gave a count. */
  lemma {:induction false} ReportedLength(ready: seq<Ready>, irqs: seq<IrqSlot>, version: u16, h: ByteOrder, ppc64: bool)
    requires SourcesInTable(ready, irqs)
    requires !SomeSourceFails(ready, irqs, version, h, ppc64)
    ensures |Reported(ready, irqs, version, h, ppc64)| == ReportedCount(ready, version, h, ppc64)
    decreases |ready|
  {
    if ready != [] {
      var rest := ready[1..];
      assert SourceEvents(ready[0], irqs, version, h, ppc64).Some?;
      assert SourcesInTable(rest, irqs) by {
        forall k | 0 <= k < |rest| && rest[k].IrqReady? ensures rest[k].irq < |irqs| {
          assert rest[k] == ready[k + 1];
        }
      }
      assert !SomeSourceFails(rest, irqs, version, h, ppc64) by {
        forall k | 0 <= k < |rest| ensures SourceEvents(rest[k], irqs, version, h, ppc64).Some? {
          assert rest[k] == ready[k + 1];
        }
      }
      ReportedLength(rest, irqs, version, h, ppc64);
    }
  }

  /**
   * The event check as written, when no device read fails, reports as many
   * events as the SUCCESS results drained plus the IRQ reads that gave a count.
   */
  lemma CollectCount(ready: seq<Ready>, irqs: seq<IrqSlot>, cap: nat, version: u16, h: ByteOrder, ppc64: bool)
    requires SourcesInTable(ready, irqs)
    ensures var r := Collect(ready, irqs, [], cap, false, version, h, ppc64);
      r.Some? ==> |r.value| == ReportedCount(ready, version, h, ppc64)
  {
    CollectUnbounded(ready, irqs, [], cap, version, h, ppc64);
    if !SomeSourceFails(ready, irqs, version, h, ppc64) {
      ReportedLength(ready, irqs, version, h, ppc64);
    }
  }

  /** An IRQ source whose eventfd read fails or is short adds nothing, bounded or not. */
  lemma CollectSkipsBadIrqRead(i: nat, read: IrqRead, rest: seq<Ready>, irqs: seq<IrqSlot>, acc: seq<Event>, cap: nat,
                               bounded: bool, version: u16, h: ByteOrder, ppc64: bool)
    requires i < |irqs| && !read.IrqCount? && SourcesInTable(rest, irqs)
    ensures SourcesInTable([IrqReady(i, read)] + rest, irqs)
    ensures Collect([IrqReady(i, read)] + rest, irqs, acc, cap, bounded, version, h, ppc64)
         == Collect(rest, irqs, acc, cap, bounded, version, h, ppc64)
  {
    var ready := [IrqReady(i, read)] + rest;
    assert ready[1..] == rest;
    forall k | 0 <= k < |ready| && ready[k].IrqReady? ensures ready[k].irq < |irqs| {
      if k > 0 { assert ready[k] == rest[k - 1]; }
    }
  }

  /**
   * The device drain as written ignores the caller's capacity: with room
   * for one event, two pending faults (the first not flagged last) are both
   * stored, the second past the end of the caller's array.
   */
  lemma DrainOverflowsCapacity(h: ByteOrder, ppc64: bool)
    ensures
      var first := ReadBytes(KernelRecord(XSL_FAULT_ERROR, 0, FaultBody(0x1000, 0, 1, h), h));
      var second := ReadBytes(KernelRecord(XSL_FAULT_ERROR, FLAG_LAST, FaultBody(0x2000, 0, 1, h), h));
      var asWritten := Collect([DeviceReady([first, second])], [], [], 1, false, 0, h, ppc64);
      asWritten.Some? && |asWritten.value| == 2
  {
    var first := ReadBytes(KernelRecord(XSL_FAULT_ERROR, 0, FaultBody(0x1000, 0, 1, h), h));
    var second := ReadBytes(KernelRecord(XSL_FAULT_ERROR, FLAG_LAST, FaultBody(0x2000, 0, 1, h), h));
    ReadFaultRecord(0, 0x1000, 0, 1, h, ppc64);
    ReadFaultRecord(FLAG_LAST, 0x2000, 0, 1, h, ppc64);
    var results := DecodeAll([first, second], 0, h, ppc64);
    DecodedWellFormed([first, second], 0, h, ppc64);
    assert results[0].action == ActionSuccess && !results[0].last;
    assert results[1].action == ActionSuccess && results[1].last;
    assert results[1..] == [results[1]];
    var d1 := Drain(results[1..], [results[0].event.value], 1, false);
    assert NextResult(results[1..]) == results[1];
    assert d1 == Some([results[0].event.value] + [results[1].event.value]);
    assert NextResult(results) == results[0];
    assert [] + [results[0].event.value] == [results[0].event.value];
    assert Drain(results, [], 1, false) == d1;
  }

  /**
   * The fault the library's read_afu_event test forces: one XSL fault at
   * 0xfeeddeadbeeff00d, dsisr 0x123456789abcdef0 and count 16, flagged
   * last, is reported as one translation fault (with its dsisr on ppc64).
   */
  lemma DrainSingleFault(h: ByteOrder, ppc64: bool)
    ensures
      var rec := ReadBytes(KernelRecord(XSL_FAULT_ERROR, FLAG_LAST, FaultBody(0xfeeddeadbeeff00d, 0x123456789abcdef0, 16, h), h));
      Collect([DeviceReady([rec])], [], [], 1, true, 0, h, ppc64)
        == Some([TranslationFault(0xfeeddeadbeeff00d, if ppc64 then Some(0x123456789abcdef0) else None, 16)])
  {
    ReadFaultRecord(FLAG_LAST, 0xfeeddeadbeeff00d, 0x123456789abcdef0, 16, h, ppc64);
  }
}
