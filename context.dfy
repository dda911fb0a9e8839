/**
 * One AFU context (struct ocxl_afu) and the operations that update it in
 * place: initialisation, metadata, open, attach, close, the MMIO window
 * registry, the IRQ table and the event check. File descriptors, mmap
 * results and every other system call result are parameters; handles are
 * table indices.
 */
module Context {
  import opened Base
  import opened Diagnostics
  import opened GrowBuffer
  import opened Mmio
  import opened Irq
  import Names

  const INITIAL_MMIO_COUNT: u16 := 4
  const INITIAL_IRQ_COUNT: u16 := 64
  const UINT32_MAX: u32 := 0xFFFF_FFFF

  /** The file under the sysfs directory that gives the global MMIO area. */
  const GLOBAL_MMIO_FILE: string := "/global_mmio_area"

  /** What the GET_METADATA ioctl reports about an opened context. */
  datatype Metadata = Metadata(versionMajor: u8, versionMinor: u8, perPasidMmioSize: u64, globalMmioSize: u64, pasid: u32)

  /**
   * The system call results afu_open sees: the AFU device descriptor
   * (negative on failure, `noSpace` when errno is ENOSPC), the global MMIO
   * descriptor, the epoll descriptor, whether adding the device to epoll
   * succeeds, and the metadata (None when the ioctl fails).
   */
  datatype OpenOutcome = OpenOutcome(deviceFd: int, noSpace: bool, globalMmioFd: int, epollFd: int,
                                     epollAddOk: bool, metadata: Option<Metadata>)

  /** A system call made while tearing a context down. */
  datatype Call = MunmapWindow(start: u64, length: u64) | IrqCall(t: Teardown) | CloseCall(fd: int)

  /** The content of a table slot nobody has written yet. */
  const BlankMmio: MmioArea := MmioArea(0, 0, GlobalMmio)
  const BlankIrq: IrqSlot := IrqSlot(0, -1, UINT16_MAX, 0, 0)

  /** The global MMIO path "<sysfs path>/global_mmio_area" fits snprintf's PATH_MAX + 1 buffer. */
  predicate GlobalMmioPathFits(sysfsPath: string)
  {
    |sysfsPath| + |GLOBAL_MMIO_FILE| < Names.PATH_MAX + 1
  }

  /** Every step of afu_open after the state check succeeds. */
  predicate OpenSucceeds(o: OpenOutcome, sysfsPath: string)
  {
    o.deviceFd >= 0 && GlobalMmioPathFits(sysfsPath) && o.globalMmioFd >= 0 && o.epollFd >= 0
    && o.epollAddOk && o.metadata.Some?
  }

  // ---------------------------------------------------------------------
  // The MMIO table

  /** The lowest slot among the first `n` whose window is unmapped. */
  function FirstFree(mmios: seq<MmioArea>, n: nat): (r: Option<nat>)
    requires n <= |mmios|
    ensures r.Some? ==> r.value < n && !mmios[r.value].Mapped()
    ensures r.Some? ==> forall i :: 0 <= i < r.value ==> mmios[i].Mapped()
    ensures r.None? <==> forall i :: 0 <= i < n ==> mmios[i].Mapped()
  {
    if n == 0 then None
    else
      var r := FirstFree(mmios, n - 1);
      if r.Some? then r
      else if !mmios[n - 1].Mapped() then Some(n - 1)
      else None
  }

  /** The table after the first `n` windows are unmapped. */
  function UnmappedPrefix(mmios: seq<MmioArea>, n: nat): (r: seq<MmioArea>)
    ensures |r| == |mmios|
    ensures forall i :: 0 <= i < |r| ==> r[i] == if i < n then Unmapped(mmios[i]) else mmios[i]
  {
    seq(|mmios|, i requires 0 <= i < |mmios| => if i < n then Unmapped(mmios[i]) else mmios[i])
  }

  /** The munmap calls made when unmapping the first `n` slots, in table order. */
  function UnmapCalls(mmios: seq<MmioArea>, n: nat): seq<Call>
    requires n <= |mmios|
  {
    if n == 0 then []
    else
      var last := if mmios[n - 1].Mapped() then [MunmapWindow(mmios[n - 1].start, mmios[n - 1].length)] else [];
      UnmapCalls(mmios, n - 1) + last
  }

  /** Every mapped slot is unmapped once, and only mapped slots are. */
  lemma {:induction false} UnmapCallsExact(mmios: seq<MmioArea>, n: nat, c: Call)
    requires n <= |mmios|
    ensures c in UnmapCalls(mmios, n) <==>
      exists i :: 0 <= i < n && mmios[i].Mapped() && c == MunmapWindow(mmios[i].start, mmios[i].length)
  {
    if n > 0 {
      UnmapCallsExact(mmios, n - 1, c);
      if c in UnmapCalls(mmios, n) && c !in UnmapCalls(mmios, n - 1) {
        assert mmios[n - 1].Mapped() && c == MunmapWindow(mmios[n - 1].start, mmios[n - 1].length);
      }
    }
  }

  /** The irq_dealloc calls made for the first `n` IRQs, in table order. */
  function ReleaseCalls(irqs: seq<IrqSlot>, n: nat): seq<Call>
    requires n <= |irqs|
  {
    if n == 0 then [] else ReleaseCalls(irqs, n - 1) + Lift(TeardownCalls(irqs[n - 1]))
  }

  function Lift(ts: seq<Teardown>): (r: seq<Call>)
    ensures |r| == |ts| && forall i :: 0 <= i < |ts| ==> r[i] == IrqCall(ts[i])
  {
    seq(|ts|, i requires 0 <= i < |ts| => IrqCall(ts[i]))
  }

  /** Each IRQ's eventfd is closed by the teardown iff it was open. */
  lemma {:induction false} ReleaseClosesEventfds(irqs: seq<IrqSlot>, n: nat, k: nat)
    requires k < n <= |irqs|
    ensures irqs[k].eventfd >= 0 ==> IrqCall(CloseFd(irqs[k].eventfd)) in ReleaseCalls(irqs, n)
  {
    if irqs[k].eventfd >= 0 {
      if k < n - 1 {
        ReleaseClosesEventfds(irqs, n - 1, k);
      } else {
        var ts := TeardownCalls(irqs[k]);
        var j :| 0 <= j < |ts| && ts[j] == CloseFd(irqs[k].eventfd);
        assert Lift(ts)[j] == IrqCall(CloseFd(irqs[k].eventfd));
      }
    }
  }

  /** One AFU context. */
  class Afu {
    var name: string              // identifier.afu_name
    var index: u8                 // identifier.afu_index
    var devicePath: Option<string>
    var sysfsPath: Option<string>
    var versionMajor: u8
    var versionMinor: u8
    var fd: int
    var epollFd: int
    var epollEventCount: nat      // capacity of the epoll scratch buffer
    var globalMmioFd: int
    var globalMmioLength: u64
    var perPasidMmioLength: u64
    var pageSize: u64
    var irqs: seq<IrqSlot>        // |irqs| is irq_max_count
    var irqCount: nat
    var mmios: seq<MmioArea>      // |mmios| is mmio_max_count
    var mmioCount: nat
    var pasid: u32
    var verboseErrors: bool
    var errorHandler: Handler
    var tracing: bool
    var attached: bool
    var ppc64Amr: u64

    /** The table invariants: counts within capacities that fit a uint16_t, IRQ i numbered i. */
    predicate Valid()
      reads this
    {
      && irqCount <= |irqs| < TWO_16
      && mmioCount <= |mmios| < TWO_16
      && forall i :: 0 <= i < irqCount ==> irqs[i].irqNumber as int == i
    }

    predicate IsOpen()
      reads this
    {
      fd >= 0
    }

    /** The per-AFU message settings errmsg consults. */
    function Messages(): AfuMessages
      reads this
    {
      AfuMessages(verboseErrors, errorHandler)
    }

    /** afu_init: a closed context with empty tables, taking the process-wide message defaults. */
    constructor (lib: Library, pageSize: u64)
      ensures Valid() && !IsOpen()
      ensures name == [] && devicePath == None && sysfsPath == None
      ensures versionMajor == 0 && versionMinor == 0
      ensures fd == -1 && epollFd == -1 && globalMmioFd == -1 && epollEventCount == 0
      ensures globalMmioLength == 0 && perPasidMmioLength == 0 && this.pageSize == pageSize
      ensures irqs == [] && irqCount == 0 && mmios == [] && mmioCount == 0
      ensures pasid == UINT32_MAX && !attached && ppc64Amr == 0
      ensures verboseErrors == lib.verboseErrorsAll && tracing == lib.tracingAll
      ensures errorHandler == DefaultHandler
    {
      name := [];
      index := 0;
      devicePath := None;
      sysfsPath := None;
      versionMajor := 0;
      versionMinor := 0;
      fd := -1;
      epollFd := -1;
      epollEventCount := 0;
      globalMmioFd := -1;
      globalMmioLength := 0;
      perPasidMmioLength := 0;
      this.pageSize := pageSize;
      irqs := [];
      irqCount := 0;
      mmios := [];
      mmioCount := 0;
      pasid := UINT32_MAX;
      verboseErrors := lib.verboseErrorsAll;
      errorHandler := DefaultHandler;
      tracing := lib.tracingAll;
      attached := false;
      ppc64Amr := 0;
    }

    /** ocxl_afu_enable_messages: both switches of this context are replaced. */
    method EnableMessages(sources: set<MessageSource>)
      modifies this`verboseErrors, this`tracing
      ensures verboseErrors <==> Errors in sources
      ensures tracing <==> Tracing in sources
    {
      verboseErrors := Errors in sources;
      tracing := Tracing in sources;
    }

    /** ocxl_afu_set_error_message_handler */
    method SetErrorMessageHandler(handler: Handler)
      modifies this`errorHandler
      ensures errorHandler == handler
    {
      errorHandler := handler;
    }

    /** ocxl_afu_set_ppc64_amr: the value is kept for the next attach. */
    method SetPpc64Amr(amr: u64) returns (rc: Err)
      modifies this`ppc64Amr
      ensures rc == OK && ppc64Amr == amr
    {
      ppc64Amr := amr;
      rc := OK;
    }

    // -------------------------------------------------------------------
    // Metadata and open

    /**
     * The naming half of populate_metadata, once the directory scan has
     * found the device entry `entry` (None when no entry matches): the AFU
     * name and index come from the entry's name, then the device and sysfs
     * paths are allocated (`devicePathAllocOk`, `sysfsPathAllocOk`) and built.
     */
    method PopulateMetadata(entry: Option<string>, devDir: string, sysDir: string,
                            devicePathAllocOk: bool, sysfsPathAllocOk: bool) returns (found: bool)
      modifies this`name, this`index, this`devicePath, this`sysfsPath
      ensures found <==>
        entry.Some? && Names.ParseDeviceName(entry.value).Some? && devicePathAllocOk && sysfsPathAllocOk
      ensures entry.None? || Names.ParseDeviceName(entry.value).None? ==> unchanged(this)
      ensures entry.Some? && Names.ParseDeviceName(entry.value).Some? ==>
        && (name, index) == Names.ParseDeviceName(entry.value).value
        // a failed malloc leaves NULL in the path it was for; a later path is not touched
        && devicePath == (if devicePathAllocOk then Some(Names.JoinPath(devDir, entry.value)) else None)
        && sysfsPath == (if !devicePathAllocOk then old(sysfsPath)
                         else if sysfsPathAllocOk then Some(Names.JoinPath(sysDir, entry.value))
                         else None)
    {
      if entry.None? {
        return false;
      }
      var parsed := Names.ParseDeviceName(entry.value);
      if parsed.None? {
        return false;
      }
      name, index := parsed.value.0, parsed.value.1;
      if !devicePathAllocOk {
        devicePath := None;
        return false;
      }
      devicePath := Some(Names.JoinPath(devDir, entry.value));
      if !sysfsPathAllocOk {
        sysfsPath := None;
        return false;
      }
      sysfsPath := Some(Names.JoinPath(sysDir, entry.value));
      found := true;
    }

    /**
     * get_afu_by_path: allocate a context (`allocOk`), stat the path
     * (`statOk`) and populate its metadata from the matching device entry.
     */
    static method GetAfuByPath(lib: Library, pageSize: u64, allocOk: bool, statOk: bool, entry: Option<string>,
                               devDir: string, sysDir: string, devicePathAllocOk: bool, sysfsPathAllocOk: bool)
      returns (rc: Err, afu: Afu?)
      ensures rc == OK || rc == NoMem || rc == NoDev
      ensures rc == NoMem <==> !allocOk
      ensures rc == OK <==> allocOk && statOk && entry.Some? && Names.ParseDeviceName(entry.value).Some?
                            && devicePathAllocOk && sysfsPathAllocOk
      ensures rc != OK ==> afu == null
      ensures rc == OK ==>
        && afu != null && fresh(afu) && afu.Valid() && afu.fd == -1
        && afu.epollFd == -1 && afu.globalMmioFd == -1
        && afu.mmios == [] && afu.mmioCount == 0 && afu.irqs == [] && afu.irqCount == 0
        && (afu.name, afu.index) == Names.ParseDeviceName(entry.value).value
        && afu.devicePath == Some(Names.JoinPath(devDir, entry.value))
        && afu.sysfsPath == Some(Names.JoinPath(sysDir, entry.value))
    {
      afu := null;
      if !allocOk {
        return NoMem, null;
      }
      var a := new Afu(lib, pageSize);
      if !statOk {
        return NoDev, null;
      }
      var found := a.PopulateMetadata(entry, devDir, sysDir, devicePathAllocOk, sysfsPathAllocOk);
      if !found {
        return NoDev, null;
      }
      return OK, a;
    }

    /**
     * afu_open: open the device, the global MMIO area and an epoll instance
     * watching the device, then read the metadata. A step that fails leaves
     * the descriptors opened so far in place for close to release.
     */
    method Open(o: OpenOutcome) returns (rc: Err)
      requires sysfsPath.Some?
      modifies this`fd, this`globalMmioFd, this`epollFd, this`versionMajor, this`versionMinor,
               this`perPasidMmioLength, this`globalMmioLength, this`pasid
      ensures old(fd) != -1 ==> rc == AlreadyDone && unchanged(this)
      ensures old(fd) == -1 && o.deviceFd < 0 ==>
        rc == (if o.noSpace then NoMoreContexts else NoDev) && unchanged(this)
      ensures old(fd) == -1 && o.deviceFd >= 0 ==> fd == o.deviceFd && (rc == OK || rc == NoDev)
      ensures rc == OK <==> old(fd) == -1 && OpenSucceeds(o, sysfsPath.value)
      ensures old(fd) == -1 && o.deviceFd >= 0 ==>
        globalMmioFd == (if GlobalMmioPathFits(sysfsPath.value) && o.globalMmioFd >= 0 then o.globalMmioFd
                         else old(globalMmioFd))
      ensures old(fd) == -1 && o.deviceFd >= 0 ==>
        epollFd == (if GlobalMmioPathFits(sysfsPath.value) && o.globalMmioFd >= 0 && o.epollFd >= 0 then o.epollFd
                    else old(epollFd))
      ensures rc != OK ==>
        && versionMajor == old(versionMajor) && versionMinor == old(versionMinor)
        && perPasidMmioLength == old(perPasidMmioLength) && globalMmioLength == old(globalMmioLength)
        && pasid == old(pasid)
      ensures rc == OK ==>
        && epollFd == o.epollFd
        && versionMajor == o.metadata.value.versionMajor && versionMinor == o.metadata.value.versionMinor
        && perPasidMmioLength == o.metadata.value.perPasidMmioSize
        && globalMmioLength == o.metadata.value.globalMmioSize
        && pasid == o.metadata.value.pasid
    {
      if fd != -1 {
        return AlreadyDone;
      }
      if o.deviceFd < 0 {
        return if o.noSpace then NoMoreContexts else NoDev;
      }
      fd := o.deviceFd;
      // global_mmio_open
      if !GlobalMmioPathFits(sysfsPath.value) || o.globalMmioFd < 0 {
        return NoDev;
      }
      globalMmioFd := o.globalMmioFd;
      if o.epollFd < 0 {
        return NoDev;
      }
      epollFd := o.epollFd;
      if !o.epollAddOk || o.metadata.None? {
        return NoDev;
      }
      var m := o.metadata.value;
      versionMajor := m.versionMajor;
      versionMinor := m.versionMinor;
      perPasidMmioLength := m.perPasidMmioSize;
      globalMmioLength := m.globalMmioSize;
      pasid := m.pasid;
      rc := OK;
    }

    /**
     * The calls ocxl_afu_close makes on a context whose afu_open failed after
     * opening the device: the global MMIO descriptor (-1 when it was not
     * opened, which close still passes to close), the epoll descriptor (-1
     * likewise), then the device.
     */
    static function FailedOpenCleanup(o: OpenOutcome, sysfsPath: string): seq<Call>
    {
      var global := if GlobalMmioPathFits(sysfsPath) && o.globalMmioFd >= 0 then o.globalMmioFd else -1;
      var epoll := if GlobalMmioPathFits(sysfsPath) && o.globalMmioFd >= 0 && o.epollFd >= 0 then o.epollFd else -1;
      (if global != 0 then [CloseCall(global)] else []) + [CloseCall(epoll), CloseCall(o.deviceFd)]
    }

    /**
     * ocxl_afu_open_from_dev: look the device up, then open a context on
     * it; a context that fails to open is closed again and not returned.
     */
    static method OpenFromDev(lib: Library, pageSize: u64, allocOk: bool, statOk: bool, entry: Option<string>,
                              devDir: string, sysDir: string, devicePathAllocOk: bool, sysfsPathAllocOk: bool,
                              o: OpenOutcome)
      returns (rc: Err, afu: Afu?, cleanup: seq<Call>)
      ensures var found := allocOk && statOk && entry.Some? && Names.ParseDeviceName(entry.value).Some?
                           && devicePathAllocOk && sysfsPathAllocOk;
        && (!allocOk ==> rc == NoMem)
        && (allocOk && !found ==> rc == NoDev)
        && (rc == OK <==> found && OpenSucceeds(o, Names.JoinPath(sysDir, entry.value)))
        && (found && o.deviceFd < 0 ==> rc == (if o.noSpace then NoMoreContexts else NoDev))
        && (found && o.deviceFd >= 0 && rc != OK ==> rc == NoDev)
      ensures rc != OK ==> afu == null
      ensures rc == OK ==> afu != null && fresh(afu) && afu.Valid() && afu.IsOpen() && afu.fd == o.deviceFd
      // a context whose device was opened but whose open failed is closed again
      ensures cleanup == if rc != OK && allocOk && statOk && entry.Some? && Names.ParseDeviceName(entry.value).Some?
                               && devicePathAllocOk && sysfsPathAllocOk && o.deviceFd >= 0
                         then FailedOpenCleanup(o, Names.JoinPath(sysDir, entry.value))
                         else []
    {
      rc, afu := GetAfuByPath(lib, pageSize, allocOk, statOk, entry, devDir, sysDir,
                              devicePathAllocOk, sysfsPathAllocOk);
      cleanup := [];
      if rc != OK {
        return rc, null, [];
      }
      var a := afu;
      rc := a.Open(o);
      if rc != OK {
        // what close finds: empty tables and the descriptors the failed open left
        ghost var global, epoll := a.globalMmioFd, a.epollFd;
        assert a.mmios == [] && a.mmioCount == 0 && a.irqs == [] && a.irqCount == 0;
        var _, calls := a.Close();
        if o.deviceFd >= 0 {
          assert calls == (if global != 0 then [CloseCall(global)] else []) + [CloseCall(epoll), CloseCall(o.deviceFd)];
        }
        return rc, null, calls;
      }
    }

    /** ocxl_afu_attach: the ATTACH ioctl's result is `ioctlOk`. */
    method Attach(ioctlOk: bool) returns (rc: Err)
      modifies this`attached
      ensures fd == -1 ==> rc == NoContext && attached == old(attached)
      ensures fd != -1 && !ioctlOk ==> rc == InternalError && attached == old(attached)
      ensures fd != -1 && ioctlOk ==> rc == OK && attached
    {
      if fd == -1 {
        return NoContext;
      }
      if !ioctlOk {
        return InternalError;
      }
      attached := true;
      rc := OK;
    }

    /** The MMIO half of close: every registered window is unmapped, in slot order. */
    method UnmapAll() returns (calls: seq<Call>)
      requires mmioCount <= |mmios|
      modifies this`mmios
      ensures mmios == UnmappedPrefix(old(mmios), mmioCount)
      ensures calls == UnmapCalls(old(mmios), mmioCount)
    {
      calls := [];
      var i := 0;
      while i < mmioCount
        invariant 0 <= i <= mmioCount && |mmios| == |old(mmios)|
        invariant forall k :: 0 <= k < |mmios| ==> mmios[k] == if k < i then Unmapped(old(mmios)[k]) else old(mmios)[k]
        invariant calls == UnmapCalls(old(mmios), i)
      {
        var call := UnmapMmio(i);
        if call.Some? {
          calls := calls + [call.value];
        }
        i := i + 1;
      }
    }

    /** The IRQ half of close: every allocated IRQ is released in order, then the table is freed. */
    method ReleaseIrqs() returns (calls: seq<Call>)
      requires Valid()
      modifies this`irqs, this`irqCount
      ensures irqs == [] && irqCount == 0
      ensures calls == ReleaseCalls(old(irqs), old(irqCount))
    {
      calls := [];
      if |irqs| > 0 {
        var k := 0;
        while k < irqCount
          invariant 0 <= k <= irqCount
          invariant calls == ReleaseCalls(irqs, k)
        {
          calls := calls + Lift(TeardownCalls(irqs[k]));
          k := k + 1;
        }
        irqs := [];
        irqCount := 0;
      }
    }

    /**
     * The state close leaves and the system calls it makes: every window
     * unmapped and every IRQ released in table order, the tables' IRQ half
     * dropped, every descriptor closed and the context detached.
     */
    twostate predicate ClosedAfter(calls: seq<Call>)
      reads this
      requires old(mmioCount <= |mmios| && irqCount <= |irqs|)
    {
        && !IsOpen() && fd == -1 && epollFd == -1 && !attached
        && devicePath == None && sysfsPath == None
        && irqs == [] && irqCount == 0 && epollEventCount == 0
        && mmioCount == old(mmioCount) && mmios == UnmappedPrefix(old(mmios), old(mmioCount))
        && globalMmioFd == (if old(globalMmioFd) != 0 then -1 else 0)
        && calls == UnmapCalls(old(mmios), old(mmioCount))
                    + (if old(globalMmioFd) != 0 then [CloseCall(old(globalMmioFd))] else [])
                    + ReleaseCalls(old(irqs), old(irqCount))
                    + [CloseCall(old(epollFd)), CloseCall(old(fd))]
    }

    /**
     * ocxl_afu_close: unmap every registered window, close the global MMIO
     * descriptor, release every IRQ and drop the IRQ table, then close the
     * epoll and device descriptors. `calls` lists the system calls made, in
     * order. The MMIO count is kept.
     */
    method Close() returns (rc: Err, calls: seq<Call>)
      requires Valid()
      modifies this`mmios, this`globalMmioFd, this`irqs, this`irqCount, this`epollEventCount,
               this`epollFd, this`fd, this`attached, this`devicePath, this`sysfsPath
      ensures Valid()
      ensures old(fd) < 0 ==> rc == AlreadyDone && calls == [] && unchanged(this)
      ensures old(fd) >= 0 ==> rc == OK && ClosedAfter(calls)
    {
      if fd < 0 {
        return AlreadyDone, [];
      }
      calls := Shutdown();
      rc := OK;
    }

    /** The part of close that runs on an open context: release what the context holds, then its descriptors. */
    method Shutdown() returns (calls: seq<Call>)
      requires Valid() && fd >= 0
      modifies this`mmios, this`globalMmioFd, this`irqs, this`irqCount, this`epollEventCount,
               this`epollFd, this`fd, this`attached, this`devicePath, this`sysfsPath
      ensures Valid()
      ensures ClosedAfter(calls)
    {
      calls := ReleaseAll();
      var closes := CloseDescriptors();
      calls := calls + closes;
    }

    /** The end of close: the epoll and device descriptors are closed and the context forgets its paths. */
    method CloseDescriptors() returns (calls: seq<Call>)
      modifies this`epollEventCount, this`epollFd, this`fd, this`attached, this`devicePath, this`sysfsPath
      ensures calls == [CloseCall(old(epollFd)), CloseCall(old(fd))]
      ensures epollEventCount == 0 && epollFd == -1 && fd == -1 && !attached
      ensures devicePath == None && sysfsPath == None
    {
      calls := [CloseCall(epollFd), CloseCall(fd)];
      epollEventCount, epollFd, fd := 0, -1, -1;
      attached, devicePath, sysfsPath := false, None, None;
    }

    /** The windows, the global MMIO descriptor and the IRQs, in that order. */
    method ReleaseAll() returns (calls: seq<Call>)
      requires Valid()
      modifies this`mmios, this`globalMmioFd, this`irqs, this`irqCount
      ensures mmios == UnmappedPrefix(old(mmios), mmioCount) && irqs == [] && irqCount == 0
      ensures globalMmioFd == (if old(globalMmioFd) != 0 then -1 else 0)
      ensures calls == UnmapCalls(old(mmios), mmioCount)
                       + (if old(globalMmioFd) != 0 then [CloseCall(old(globalMmioFd))] else [])
                       + ReleaseCalls(old(irqs), old(irqCount))
    {
      var globalClose := if globalMmioFd != 0 then [CloseCall(globalMmioFd)] else [];
      var unmapped := UnmapAll();
      globalMmioFd := if globalMmioFd != 0 then -1 else 0;
      var released := ReleaseIrqs();
      calls := unmapped + globalClose + released;
    }


    // -------------------------------------------------------------------
    // MMIO windows

    /** The length of an MMIO area (ocxl_mmio_size). */
    function MmioSize(kind: MmioType): u64
      reads this
    {
      match kind
      case GlobalMmio => globalMmioLength
      case PerPasidMmio => perPasidMmioLength
    }

    /** The descriptor to mmap an MMIO area from (ocxl_mmio_get_fd). */
    function MmioGetFd(kind: MmioType): int
      reads this
    {
      match kind
      case GlobalMmio => globalMmioFd
      case PerPasidMmio => fd
    }

    /**
     * The checks ocxl_mmio_map_advanced and the area-specific map functions
     * make before calling mmap: the size to map, or the error returned.
     */
    function MapCheck(kind: MmioType, size: u64, flags: u64, offset: i64): (r: Result<u64>)
      reads this
      // the bounds test of ocxl_mmio_map_advanced comes first
      ensures MapRequest(size, offset, MmioSize(kind)).Fail? ==> r == Fail(NoMem)
      // then global_mmio_map: an area of 0 bytes, then the flags
      ensures MapRequest(size, offset, MmioSize(kind)).Ok? && kind == GlobalMmio && globalMmioLength == 0 ==>
        r == Fail(NoMem)
      ensures MapRequest(size, offset, MmioSize(kind)).Ok? && kind == GlobalMmio && globalMmioLength > 0 && flags != 0 ==>
        r == Fail(InvalidArgs)
      // or mmio_map: the flags, then an unopened or unattached context
      ensures MapRequest(size, offset, MmioSize(kind)).Ok? && kind == PerPasidMmio && flags != 0 ==>
        r == Fail(InvalidArgs)
      ensures MapRequest(size, offset, MmioSize(kind)).Ok? && kind == PerPasidMmio && flags == 0 && (fd < 0 || !attached) ==>
        r == Fail(NoContext)
      // a request that passes every check is granted the validated size
      ensures r.Ok? <==> MapRequest(size, offset, MmioSize(kind)).Ok? && MapAllowed(kind, flags)
      ensures MapRequest(size, offset, MmioSize(kind)).Ok? && MapAllowed(kind, flags) ==>
        r == MapRequest(size, offset, MmioSize(kind))
    {
      var request := MapRequest(size, offset, MmioSize(kind));
      if request.Fail? then Fail(NoMem)
      else match kind
        case GlobalMmio =>
          if globalMmioLength == 0 then Fail(NoMem)
          else if flags != 0 then Fail(InvalidArgs)
          else request
        case PerPasidMmio =>
          if flags != 0 then Fail(InvalidArgs)
          else if fd < 0 || !attached then Fail(NoContext)
          else request
    }

    /** The checks of global_mmio_map and mmio_map that do not depend on the request's bounds. */
    predicate MapAllowed(kind: MmioType, flags: u64)
      reads this
    {
      && flags == 0
      && (kind == GlobalMmio ==> globalMmioLength > 0)
      && (kind == PerPasidMmio ==> fd >= 0 && attached)
    }

    /** The slot register_mmio fills without growing the table, if any. */
    function Placement(): Option<nat>
      reads this
      requires mmioCount <= |mmios|
    {
      var free := FirstFree(mmios, mmioCount);
      if free.Some? then free else if mmioCount < |mmios| then Some(mmioCount) else None
    }

    /** The result of registering `area`: the table and count afterwards, as register_mmio leaves them. */
    twostate predicate RegisteredAs(area: MmioArea, growOk: bool, rc: Err, handle: nat)
      reads this
      requires old(mmioCount <= |mmios| < TWO_16)
    {
      var free := FirstFree(old(mmios), old(mmioCount));
      var growFails := old(Placement()).None?
        && !(growOk && NextCapacity(|old(mmios)|, INITIAL_MMIO_COUNT) < TWO_16);
      && (rc == OK || rc == NoMem)
      && (rc == NoMem <==> growFails)
      && (rc == NoMem ==> mmios == old(mmios) && mmioCount == old(mmioCount))
      && (rc == OK ==>
           && handle == (if free.Some? then free.value else old(mmioCount))
           && mmioCount == (if free.Some? then old(mmioCount) else old(mmioCount) + 1)
           && handle < mmioCount <= |mmios| && |old(mmios)| <= |mmios| && mmios[handle] == area
           && (forall i :: 0 <= i < |old(mmios)| && i != handle ==> mmios[i] == old(mmios)[i])
           && (|mmios| == |old(mmios)|
               || (old(Placement()).None? && |mmios| == NextCapacity(|old(mmios)|, INITIAL_MMIO_COUNT))))
    }

    /**
     * register_mmio: store a newly mapped window in the first unmapped slot,
     * or append it, growing the table when it is full.
     */
    method RegisterMmio(area: MmioArea, growOk: bool) returns (rc: Err, handle: nat)
      requires Valid()
      modifies this`mmios, this`mmioCount
      ensures Valid()
      ensures RegisteredAs(area, growOk, rc, handle)
    {
      var available := -1;
      var i := 0;
      while i < mmioCount
        invariant 0 <= i <= mmioCount
        invariant forall k :: 0 <= k < i ==> mmios[k].Mapped()
      {
        if !mmios[i].Mapped() {
          available := i;
          break;
        }
        i := i + 1;
      }
      if available == -1 {
        if mmioCount == |mmios| {
          var grown;
          rc, grown := Grow(mmios, INITIAL_MMIO_COUNT, growOk, BlankMmio);
          if rc != OK {
            return rc, 0;
          }
          mmios := grown;
        }
        available := mmioCount;
        mmioCount := mmioCount + 1;
      }
      mmios := mmios[available := area];
      return OK, available;
    }

    /**
     * ocxl_mmio_map_advanced: check the request, mmap it (`mapped` is mmap's
     * result) and register the window; a mapping that cannot be registered
     * is unmapped again (`undo`).
     */
    method MapAdvanced(kind: MmioType, size: u64, flags: u64, offset: i64, mapped: u64, growOk: bool)
      returns (rc: Err, handle: nat, undo: Option<Call>)
      requires Valid()
      modifies this`mmios, this`mmioCount
      ensures Valid()
      ensures old(MapCheck(kind, size, flags, offset)).Fail? ==>
        rc == old(MapCheck(kind, size, flags, offset)).err && unchanged(this)
      ensures old(MapCheck(kind, size, flags, offset)).Ok? && mapped == MAP_FAILED ==>
        rc == NoMem && unchanged(this)
      ensures old(MapCheck(kind, size, flags, offset)).Ok? && mapped != MAP_FAILED ==>
        RegisteredAs(MmioArea(mapped, old(MapCheck(kind, size, flags, offset)).value, kind), growOk, rc, handle)
      ensures undo == if old(MapCheck(kind, size, flags, offset)).Ok? && mapped != MAP_FAILED && rc != OK
                      then Some(MunmapWindow(mapped, old(MapCheck(kind, size, flags, offset)).value))
                      else None
    {
      undo := None;
      var check := MapCheck(kind, size, flags, offset);
      if check.Fail? {
        return check.err, 0, None;
      }
      if mapped == MAP_FAILED {
        return NoMem, 0, None;
      }
      rc, handle := RegisterMmio(MmioArea(mapped, check.value, kind), growOk);
      if rc != OK {
        undo := Some(MunmapWindow(mapped, check.value));
      }
    }

    /** ocxl_mmio_map: the whole area, read-write. */
    method Map(kind: MmioType, mapped: u64, growOk: bool) returns (rc: Err, handle: nat, undo: Option<Call>)
      requires Valid()
      modifies this`mmios, this`mmioCount
      ensures Valid()
      ensures old(MapCheck(kind, 0, 0, 0)).Fail? ==> rc == old(MapCheck(kind, 0, 0, 0)).err && unchanged(this)
      ensures old(MapCheck(kind, 0, 0, 0)).Ok? && mapped == MAP_FAILED ==> rc == NoMem && unchanged(this)
      ensures old(MapCheck(kind, 0, 0, 0)).Ok? && mapped != MAP_FAILED ==>
        RegisteredAs(MmioArea(mapped, old(MmioSize(kind)), kind), growOk, rc, handle)
      ensures undo.Some? ==> undo == Some(MunmapWindow(mapped, old(MmioSize(kind))))
      // the whole area always passes the bounds test: only the area's own checks can refuse it
      ensures old(MapAllowed(kind, 0)) ==> old(MapCheck(kind, 0, 0, 0)) == Ok(old(MmioSize(kind)))
      ensures !old(MapAllowed(kind, 0)) ==> rc != OK && unchanged(this)
    {
      rc, handle, undo := MapAdvanced(kind, 0, 0, 0, mapped, growOk);
    }

    /**
     * ocxl_mmio_unmap on the window in slot `handle`: munmap it when it is
     * still mapped, then mark it unmapped; length and type are kept.
     */
    method UnmapMmio(handle: nat) returns (call: Option<Call>)
      requires handle < |mmios|
      modifies this`mmios
      ensures mmios == old(mmios)[handle := Unmapped(old(mmios)[handle])]
      ensures call == if old(mmios)[handle].Mapped()
                      then Some(MunmapWindow(old(mmios)[handle].start, old(mmios)[handle].length))
                      else None
    {
      if !mmios[handle].Mapped() {
        return None;
      }
      call := Some(MunmapWindow(mmios[handle].start, mmios[handle].length));
      mmios := mmios[handle := Unmapped(mmios[handle])];
    }

    // -------------------------------------------------------------------
    // IRQs

    /** ocxl_irq_get_handle: the trigger address of an allocated IRQ, 0 for any other number. */
    function IrqGetHandle(irq: u64): (r: u64)
      reads this
      requires Valid()
      ensures !IrqNumberAdmitted(irq, irqCount as u16) ==> r == 0
      ensures IrqNumberAdmitted(irq, irqCount as u16) ==> r == irqs[irq].addr
    {
      if IrqNumberAdmitted(irq, irqCount as u16) then irqs[irq].addr else 0
    }

    /** ocxl_irq_get_fd: the eventfd of an allocated IRQ, -1 for any other number. */
    function IrqGetFd(irq: u64): (r: int)
      reads this
      requires Valid()
      ensures !IrqNumberAdmitted(irq, irqCount as u16) ==> r == -1
      ensures IrqNumberAdmitted(irq, irqCount as u16) ==> r == irqs[irq].eventfd
    {
      if IrqNumberAdmitted(irq, irqCount as u16) then irqs[irq].eventfd else -1
    }

    /**
     * ocxl_irq_alloc: make room in the IRQ table, allocate the IRQ in the
     * next slot and number it with the count of IRQs allocated before it.
     */
    method IrqAlloc(info: u64, growOk: bool, o: AllocOutcome) returns (rc: Err, irq: nat, calls: seq<Teardown>)
      requires Valid()
      modifies this`irqs, this`irqCount
      ensures Valid()
      ensures var growFails := old(irqCount) == |old(irqs)|
                && !(growOk && NextCapacity(|old(irqs)|, INITIAL_IRQ_COUNT) < TWO_16);
        && (growFails ==> rc == NoMem && irqs == old(irqs) && irqCount == old(irqCount) && calls == [])
        && (!growFails ==> rc == Allocate(info, o).rc && calls == Allocate(info, o).calls)
        // the table grows only when it is full, and then to the next capacity
        && (old(irqCount) < |old(irqs)| ==> |irqs| == |old(irqs)|)
        && (!growFails && old(irqCount) == |old(irqs)| ==> |irqs| == NextCapacity(|old(irqs)|, INITIAL_IRQ_COUNT))
      ensures rc != OK ==> irqCount == old(irqCount) && irqs[..irqCount] == old(irqs)[..irqCount]
      ensures rc == OK ==>
        && irq == old(irqCount) && irqCount == old(irqCount) + 1
        && irqs[..irq] == old(irqs)[..irq]
        && irqs[irq] == Allocate(info, o).slot.(irqNumber := irq as u16)
        && IrqGetHandle(irq as u64) == o.mapped && IrqGetFd(irq as u64) == o.eventfd
    {
      irq := 0;
      if irqCount == |irqs| {
        var grown;
        rc, grown := Grow(irqs, INITIAL_IRQ_COUNT, growOk, BlankIrq);
        if rc != OK {
          return rc, 0, [];
        }
        irqs := grown;
      }
      var a := Allocate(info, o);
      irqs := irqs[irqCount := a.slot];
      rc, calls := a.rc, a.calls;
      if rc != OK {
        return;
      }
      irqs := irqs[irqCount := irqs[irqCount].(irqNumber := irqCount as u16)];
      irq := irqCount;
      irqCount := irqCount + 1;
    }

    // -------------------------------------------------------------------
    // Event check

    /**
     * The read loop on the AFU descriptor: store each fault read into
     * `events` from `start` on, until the kernel flags the last event, the
     * queue is empty, a read fails (`ok` false), or the caller's `cap`
     * slots are full.
     */
    static method DrainDevice(events: array<Event>, start: nat, cap: nat, pending: seq<DeviceRead>,
                              version: u16, h: Bytes.ByteOrder, ppc64: bool)
      returns (ok: bool, triggered: nat)
      requires start <= cap <= events.Length
      modifies events
      ensures triggered <= cap
      ensures (DecodedWellFormed(pending, version, h, ppc64);
               var d := Drain(DecodeAll(pending, version, h, ppc64), old(events[..start]), cap, true);
               (ok <==> d.Some?) && (ok ==> events[..triggered] == d.value))
    {
      var results := DecodeAll(pending, version, h, ppc64);
      DecodedWellFormed(pending, version, h, ppc64);
      ghost var initial := events[..start];
      triggered := start;
      var j := 0;
      while true
        invariant start <= triggered <= cap && 0 <= j <= |results|
        invariant Drain(results, initial, cap, true) == Drain(results[j..], events[..triggered], cap, true)
        decreases |results| - j
      {
        if triggered >= cap {
          return true, triggered;
        }
        var e := NextResult(results[j..]);
        if e.action == ActionFail {
          return false, triggered;
        }
        if e.action == ActionNone {
          return true, triggered;
        }
        if e.action == ActionSuccess {
          ghost var before := events[..triggered];
          events[triggered] := e.event.value;
          assert events[..triggered + 1] == before + [e.event.value];
          triggered := triggered + 1;
        }
        if e.last || j == |results| {
          return true, triggered;
        }
        assert results[j..][1..] == results[j + 1..];
        j := j + 1;
      }
    }


    /**
     * The loop over the ready sources of ocxl_afu_event_check_versioned:
     * store the events of each source into `events`, at most `cap` of them.
     */
    static method ReportEvents(events: array<Event>, ready: seq<Ready>, table: seq<IrqSlot>, cap: nat,
                               version: u16, h: Bytes.ByteOrder, ppc64: bool) returns (n: int)
      requires cap <= events.Length
      requires SourcesInTable(ready, table)
      modifies events
      ensures n <= cap
      ensures var c := Collect(ready, table, [], cap, true, version, h, ppc64);
        (n == -1 <==> c.None?) && (c.Some? ==> n == |c.value| && events[..n] == c.value)
    {
      var triggered := 0;
      var k := 0;
      assert ready[0..] == ready;
      while k < |ready|
        invariant 0 <= k <= |ready| && 0 <= triggered <= cap
        invariant SourcesInTable(ready[k..], table)
        invariant Collect(ready, table, [], cap, true, version, h, ppc64)
               == Collect(ready[k..], table, events[..triggered], cap, true, version, h, ppc64)
        modifies events
      {
        assert ready[k..][0] == ready[k] && ready[k..][1..] == ready[k + 1..];
        match ready[k] {
          case DeviceReady(pending) =>
          var ok;
          ok, triggered := DrainDevice(events, triggered, cap, pending, version, h, ppc64);
          if !ok {
            return -1;
          }
          case IrqReady(i, read) =>
            if read.IrqCount? && triggered < cap {
              ghost var before := events[..triggered];
              events[triggered] := IrqEventOf(table[i], read.count);
              assert events[..triggered + 1] == before + [IrqEventOf(table[i], read.count)];
              triggered := triggered + 1;
            }
        }
        k := k + 1;
      }
      assert ready[k..] == [];
      return triggered;
    }

    /**
     * ocxl_afu_event_check_versioned with room for `eventCount` events:
     * replace the epoll scratch buffer when it is too small (`scratchOk` is
     * the allocation's result), wait (`wait` is None when epoll_wait fails,
     * else the ready sources), then report the events of every ready source.
     * Returns the number of events stored, or -1.
     */
    method EventCheck(events: array<Event>, eventCount: u16, version: u16, h: Bytes.ByteOrder, ppc64: bool,
                      scratchOk: bool, wait: Option<seq<Ready>>) returns (n: int)
      requires Valid()
      requires eventCount as int <= events.Length
      requires wait.Some? ==> |wait.value| <= eventCount as int && SourcesInTable(wait.value, irqs[..irqCount])
      modifies this`epollEventCount, events
      ensures n <= eventCount as int
      ensures eventCount as int > old(epollEventCount) ==> epollEventCount == (if scratchOk then eventCount as int else 0)
      ensures eventCount as int <= old(epollEventCount) ==> epollEventCount == old(epollEventCount)
      ensures eventCount as int > old(epollEventCount) && !scratchOk ==> n == -1
      ensures eventCount as int <= old(epollEventCount) || scratchOk ==>
        && (wait.None? ==> n == -1)
        && (wait.Some? ==>
             var c := Collect(wait.value, irqs[..irqCount], [], eventCount as int, true, version, h, ppc64);
             (n == -1 <==> c.None?) && (c.Some? ==> n == |c.value| && events[..n] == c.value))
    {
      if eventCount as int > epollEventCount {
        epollEventCount := 0;
        if !scratchOk {
          return -1;
        }
        epollEventCount := eventCount as int;
      }
      if wait.None? {
        return -1;
      }
      n := ReportEvents(events, wait.value, irqs[..irqCount], eventCount as int, version, h, ppc64);
    }
  }
}
