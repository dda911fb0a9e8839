# libocxl, modelled in Dafny

libocxl is the userspace library through which a Linux process drives an
OpenCAPI accelerator function unit (AFU). A process opens an AFU context from
its character device. It attaches the context to its own address space, maps
the AFU's global and per-PASID MMIO areas and reads and writes 32- and 64-bit
registers in a chosen byte order. It allocates AFU interrupts backed by
eventfds and collects interrupt and translation-fault events through epoll.
The memcpy sample and test programs are clients of this API: they
share a ring of work elements with the AFU and wait for its completion
interrupt.

This project models that core:

- `Base`: the error codes, the Result and Option wrappers, and the C integer widths.
- `Bytes`: byte layouts and the `<endian.h>` conversions, for a host of either byte order.
- `Diagnostics`: the process-wide message state (`libocxl_init`, `ocxl_enable_messages`,
  the global error handler, `errmsg`) and `ocxl_err_to_string`.
- `GrowBuffer`: `grow_buffer`, the doubling growth of the MMIO and IRQ tables.
- `Mmio`: the MMIO window descriptor, `mmio_check`, the map-request validation and the
  32/64-bit accessors over a window's bytes.
- `Irq`: the IRQ slot, `irq_allocate`/`irq_dealloc`, `ocxl_irq_get_handle`/`get_fd`,
  `read_afu_event`, and the events an event check reports.
- `Names`: device-name parsing in `populate_metadata`, the device and sysfs paths, and
  the glob pattern and candidate choice of `ocxl_afu_open_specific`.
- `Context`: `Context.Afu`, the AFU context (`struct ocxl_afu`) as a class whose methods
  update it in place: init, metadata, open, attach, close, MMIO registration, map and
  unmap, IRQ allocation and the event check.
- `Memcpy`: the memcpy clients' work-element queue (`memcpy3_init_weq`, `memcpy3_add_we`)
  and their WED and command packing, `fill_buffer`, `wait_for_irq`, and the test's
  option rules.

System call results are parameters of the operations that make the calls: file
descriptors, mmap results, ioctl and epoll outcomes, realloc success, and the bytes
the kernel returns on a read. The system calls that close, munmap or free are
returned as lists of calls, in the order they are made. Handles are table indices.

## Model

| member | source | states |
|---|---|---|
| `Bytes.LoadStore32` | src/mmio.c:480-496 | a native 32-bit load returns what a native store wrote, on a big- or little-endian host |
| `Bytes.LoadStore64` | src/mmio.c:516-532 | the same round trip for 64-bit native accesses |
| `Bytes.SwapSwap32` | src/mmio.c:630-653 | the 32-bit byte swap behind htobe32/le32toh undoes itself |
| `Bytes.SwapSwap64` | src/mmio.c:674-697 | the 64-bit byte swap undoes itself |
| `Bytes.SwapLayout32` | src/mmio.c:718-733 | a byte-swapped value stored little-endian has the big-endian layout, and the other way round |
| `Bytes.SwapLayout64` | src/mmio.c:753-768 | the same for 64-bit values |
| `GrowBuffer.NextCapacity` | src/internal.c:197 | a non-empty table doubles, and an empty one gets the initial capacity |
| `GrowBuffer.GrowCountTruncates` | src/internal.c:197-209 | doubling 32768 slots allocates 65536 but stores 0 in the uint16_t capacity |
| `GrowBuffer.ClearedAsWritten` | src/internal.c:206 | the grown bytes keep the old data, zero exactly `new_count - count` bytes after it, and leave the rest of the reallocated memory as it was; the result has the new capacity's length |
| `GrowBuffer.ClearedIntended` | src/internal.c:195-212 | the intended growth keeps the old data and zeroes every byte of every new element |
| `GrowBuffer.ClearingTooShort` | src/internal.c:206 | with non-zero reallocated memory, growing 0 to 4 slots of 24 bytes leaves byte 4 non-zero, which the intended clearing zeroes |
| `GrowBuffer.Grow` | src/internal.c:195-212 | success iff realloc succeeds and the capacity fits 16 bits; then the old slots are kept and every new slot is blank; on failure nothing changes and the code is NO_MEM |
| `Diagnostics.FlagEnabledValues` | src/internal.c:69 | an environment flag is on exactly for "1" and for "yes" in any letter case |
| `Diagnostics.Truncate` | src/internal.c:139-140 | the handler's text is a prefix of the message of at most 254 characters, and the message itself when it fits |
| `Diagnostics.Library.constructor` | src/internal.c:33-47 | at start-up every switch is off, the default handler is installed, and no sysfs override is set |
| `Diagnostics.Library.Init` | src/internal.c:58-92 | the first call sets each switch from its variable and the sysfs path from LIBOCXL_SYSPATH, and reports whether the banner prints; later calls change nothing |
| `Diagnostics.Library.EnableMessages` | src/setup.c:69-73 | each global switch is on iff its source is requested, whatever it was before |
| `Diagnostics.Library.SetErrorMessageHandler` | src/setup.c:89-92 | the global handler becomes the one given |
| `Diagnostics.Library.Errmsg` | src/internal.c:130-157 | a message is delivered iff the relevant verbose flag (the AFU's, or the global one without an AFU) is set, to that handler, with the code and the truncated text |
| `Diagnostics.ErrToString` | src/setup.c:99-129 | exactly NO_DEV and INVALID_ARGS fall to "Unknown error"; OK and INTERNAL_ERROR have their own texts |
| `Diagnostics.ErrToStringDistinct` | src/setup.c:99-129 | two codes with the same text are equal, unless the text is "Unknown error" |
| `Mmio.Unmapped` | src/mmio.c:336-344 | an unmapped window is no longer mapped and keeps its length and type; unmapping it twice changes nothing |
| `Mmio.GetInfo` | src/mmio.c:411-423 | the address and size of a mapped window; INVALID_ARGS exactly for an unmapped one |
| `Mmio.MmioCheckAsWrittenSound` | src/mmio.c:437-460 | at a non-negative offset, an access the check as written accepts ends inside the window, and every access that fits is accepted |
| `Mmio.MmioCheckAcceptsNegativeOffset` | src/mmio.c:451 | the check as written accepts a 4-byte access at offset -4 of an 8-byte window |
| `Mmio.MmioCheck` | src/mmio.c:437-460 | INVALID_ARGS iff the window is unmapped; OK only for an access inside it, and for every access inside it |
| `Mmio.MapPastEndAccepted` | src/mmio.c:268-298 | a map-to-the-end request one byte past the area's end computes a size of 2^64-1 and passes the bounds test as written |
| `Mmio.MapRequest` | src/mmio.c:263-304 | success iff the window lies inside the area; the size is the one asked for, or the rest of the area for size 0; failure is NO_MEM |
| `Mmio.MapRequestAgreesAsWritten` | src/mmio.c:268-298 | inside the area and without size_t overflow, the test as written and the validation agree, and so do the sizes |
| `Mmio.ConvertLayout32` | src/mmio.c:718-733 | converting then storing natively lays out the value in the requested byte order, on either host |
| `Mmio.ConvertLayout64` | src/mmio.c:753-768 | the same for 64-bit values |
| `Mmio.StoreLoad32` | src/mmio.c:480-496 | a native store of a native load writes the same four bytes back |
| `Mmio.StoreLoad64` | src/mmio.c:516-532 | the same for eight bytes |
| `Mmio.ConvertInvolution32` | src/mmio.c:630-653 | the read and the write conversion of a byte order undo each other |
| `Mmio.ConvertInvolution64` | src/mmio.c:674-697 | the same for 64-bit values |
| `Mmio.EndianBytesInjective32` | src/mmio.c:718-733 | different values have different layouts in every byte order |
| `Mmio.EndianBytesInjective64` | src/mmio.c:753-768 | the same for 64-bit values |
| `Mmio.Splice` | src/mmio.c:554-572 | a write changes exactly the written bytes |
| `Mmio.Read32` | src/mmio.c:630-653 | fails with mmio_check's code iff the check refuses, otherwise returns the value whose layout in the requested order is the four bytes at the offset |
| `Mmio.Read64` | src/mmio.c:674-697 | the same for eight bytes |
| `Mmio.Write32` | src/mmio.c:718-733 | returns mmio_check's code; on OK the four bytes at the offset become the value's layout and nothing else changes; otherwise memory is untouched |
| `Mmio.Write64` | src/mmio.c:753-768 | the same for eight bytes |
| `Mmio.ReadAfterWrite32` | src/mmio.c:630-733 | a read after a successful write at the same offset and byte order returns the value written |
| `Mmio.ReadAfterWrite64` | src/mmio.c:674-768 | the same for 64-bit accesses |
| `Mmio.ReadBesideWrite32` | src/mmio.c:630-733 | a write leaves every non-overlapping read unchanged |
| `Mmio.ReadBesideWrite64` | src/mmio.c:674-768 | a 64-bit write leaves every non-overlapping 64-bit read unchanged |
| `Mmio.BigAndLittleDiffer` | src/mmio.c:630-768 | the value 4 is laid out as 00 00 00 04 big-endian and 04 00 00 00 little-endian, on every host |
| `Mmio.HostIsNative32` | src/mmio.c:630-653 | host order is big-endian on a big-endian host and little-endian on a little-endian one |
| `Mmio.UnmappedRefused` | src/mmio.c:437-460 | every access to an unmapped window or a NULL handle fails with INVALID_ARGS |
| `Irq.Released` | src/irq.c:42-66 | a released slot holds nothing (no page, kernel IRQ, eventfd or info) and keeps its IRQ number |
| `Irq.TeardownCalls` | src/irq.c:42-66 | irq_dealloc unmaps the page iff one is mapped, frees the kernel IRQ iff one is allocated, closes the eventfd iff it is open, and makes no other call |
| `Irq.DeallocIdempotent` | src/irq.c:42-66 | tearing down a released slot makes no call and releasing it again changes nothing |
| `Irq.AllocateUnmapsMapFailed` | src/irq.c:126-131 | when mmap fails, the teardown as written calls munmap on MAP_FAILED |
| `Irq.Allocate` | src/irq.c:92-147 | success iff every step succeeds; on failure the slot is released, its number is 65535, and exactly the resources acquired before the failing step are released |
| `Irq.AllocateAgreesAsWritten` | src/irq.c:92-147 | apart from an mmap failure, the allocation as written and the corrected one are the same |
| `Irq.IrqNumberOnePastEndAdmitted` | src/irq.c:204 | the range test as written admits the number one past the last allocated IRQ |
| `Irq.ReadAfuEvent` | src/irq.c:314-391 | any version other than 0 fails; an event is produced exactly on SUCCESS and is a translation fault that carries a dsisr only on ppc64; NONE exactly when the read finds the queue empty, and NONE is last; a short header fails |
| `Irq.RecordHeader` | src/irq.c:359-363 | the type and flags of a kernel record read back as written |
| `Irq.RecordBody` | src/irq.c:264-279 | the address, dsisr and count of a fault record read back as written |
| `Irq.ReadFaultRecord` | src/irq.c:368-390 | a well-formed XSL fault record decodes to that fault, with "last" taken from the flags |
| `Irq.ReadUnknownRecord` | src/irq.c:361-366 | a record of a newer type is ignored whatever its length, with "last" from its flags |
| `Irq.ReadTruncatedFault` | src/irq.c:369-377 | an XSL fault record of the wrong length is a failure |
| `Irq.DecodeAll` | src/irq.c:455-471 | each device read is decoded by read_afu_event, in order |
| `Irq.Drain` | src/irq.c:455-471 | the drain only appends events, and when bounded it never passes the capacity |
| `Irq.Collect` | src/irq.c:418-499 | the event check only appends events, and when bounded it never passes the caller's capacity |
| `Irq.DrainBoundedAgrees` | src/irq.c:455-471 | whenever the drain as written stays within the capacity, the bounded drain gives the same events |
| `Irq.CollectBoundedAgrees` | src/irq.c:418-499 | whenever the event check as written reports at most the capacity, the bounded check reports the same events |
| `Irq.DrainStop` | src/irq.c:455-471 | the drain reads on past SUCCESS and IGNORE records not flagged last, and stops at the first FAIL, NONE or last record |
| `Irq.DrainUnbounded` | src/irq.c:455-471 | the drain as written returns -1 exactly when it reaches a FAIL before a NONE or a last record; otherwise it appends the event of each SUCCESS record it consumed, in order |
| `Irq.CollectUnbounded` | src/irq.c:418-499 | the event check as written returns -1 exactly when some device source reaches a FAIL; otherwise it reports each source's events in epoll order: a device's SUCCESS events, one event per IRQ whose read gave a count, nothing for a failed or short IRQ read |
| `Irq.ReportedLength` | src/irq.c:455-487 | the events reported are as many as the SUCCESS records drained plus the IRQ reads that gave a count |
| `Irq.CollectCount` | src/irq.c:418-499 | when no device read fails, the event check as written returns the number of SUCCESS records drained plus the number of good IRQ reads |
| `Irq.CollectSkipsBadIrqRead` | src/irq.c:475-482 | an IRQ source whose eventfd read fails or is short adds no event, with or without the capacity bound |
| `Irq.DrainOverflowsCapacity` | src/irq.c:456-465 | with room for one event and two pending faults, the drain as written stores two events |
| `Irq.DrainSingleFault` | unittests/unittests.c:847-859 | the forced fault at 0xfeeddeadbeeff00d with count 16, flagged last, is reported as that one translation fault |
| `Names.DigitRun` | src/afu.c:362-369 | the digit run is empty exactly when the text does not start with a digit |
| `Names.ScanNumber` | src/afu.c:362-369 | a number is read iff the text starts with a digit, and what follows is a proper suffix |
| `Names.DigitRunOfDigits` | src/afu.c:362-369 | a number's digits followed by a non-digit form a run of exactly that length |
| `Names.ScanDigits` | src/afu.c:362-369 | sscanf reads back the value of a digit string and leaves the rest |
| `Names.ScanNumberStep` | src/afu.c:362 | a conversion reads one number, then the rest of the format goes on |
| `Names.ParsePhysicalFunction` | src/afu.c:362-369 | an index is found iff all five fields convert, and it is the fifth field mod 256 |
| `Names.FirstDot` | src/afu.c:347 | the position of the first '.', or None when there is none |
| `Names.FirstDotAfter` | src/afu.c:347-357 | in "name.rest" with no '.' in name, the first '.' follows the name |
| `Names.ParseDeviceNameWith` | src/afu.c:347-372 | an entry parses iff it has a '.' within AFU_NAME_MAX characters and what follows the first '.' parses as a physical function; the name is the text before that '.', and the index is the physical function's |
| `Names.ScanPciName` | src/afu.c:362-369 | the five fields of a physical-function name read back, each in its own base |
| `Names.ParseDeviceNameRoundTrip` | src/afu.c:347-372 | every device name built from a valid AFU name and fields parses back to that name and index (mod 256) |
| `Names.ParseTestEntry` | unittests/unittests.c:279-292 | the unit test's entry IBM,Dummy.0001:00:00.1.0 parses to AFU "IBM,Dummy", index 0, both as written and corrected |
| `Names.HexBusRefusedAsWritten` | src/afu.c:362 | a device on PCI bus 0a is refused by the decimal parse as written and accepted by the hexadecimal one |
| `Names.DecimalScanStopsAtHexBus` | src/afu.c:362 | read in decimal, bus "0a" stops the conversions after two fields |
| `Names.JoinPath` | src/afu.c:374-388 | a path is the directory, '/', then the entry |
| `Names.NatString` | src/afu.c:587-596 | %d writes a non-empty string of decimal digits |
| `Names.NatStringValue` | src/afu.c:587-596 | the digits %d writes read back to the number |
| `Names.Bounded` | src/afu.c:587-596 | snprintf keeps a prefix shorter than PATH_MAX, and the whole text when it fits |
| `Names.GlobPatternIndex` | src/afu.c:587-596 | a pattern that fits ends with the index in decimal after the last '.', or with ".*" for any index |
| `Names.OpenSpecific` | src/afu.c:598-633 | a glob failure maps to NO_MEM, NO_DEV or INTERNAL_ERROR; otherwise the first candidate that is not out of contexts decides the result; NO_MORE_CONTEXTS when every candidate is out of contexts, and INTERNAL_ERROR for an empty match list |
| `Context.FirstFree` | src/mmio.c:59-66 | the lowest unmapped slot among those in use, and None exactly when all of them are mapped |
| `Context.UnmappedPrefix` | src/afu.c:718-720 | the first n windows are unmapped and the rest kept |
| `Context.UnmapCallsExact` | src/afu.c:718-720 | close munmaps exactly the mapped windows, each once |
| `Context.Lift` | src/afu.c:727-731 | IRQ teardown calls become context calls, one for one |
| `Context.ReleaseClosesEventfds` | src/afu.c:727-731 | close closes the eventfd of every IRQ that had one open |
| `Context.Afu.constructor` | src/afu.c:222-267 | a new context is closed, has empty tables, no PASID and no paths, and takes the process-wide verbose and tracing defaults |
| `Context.Afu.EnableMessages` | src/afu.c:161-167 | each switch of the context is on iff its source is requested |
| `Context.Afu.SetErrorMessageHandler` | src/afu.c:187-193 | the context's handler becomes the one given |
| `Context.Afu.SetPpc64Amr` | src/afu.c:789-796 | the AMR is kept for the next attach, and the call succeeds |
| `Context.Afu.PopulateMetadata` | src/afu.c:327-391 | found iff an entry matches, its name parses and both paths are allocated; then the name, index and both paths are set from it; a path whose allocation fails is left NULL; an entry that does not parse changes nothing |
| `Context.Afu.GetAfuByPath` | src/afu.c:499-531 | NO_MEM iff allocation fails, OK iff the path exists and its entry parses, else NO_DEV; a returned context is fresh, valid and not open |
| `Context.Afu.Open` | src/afu.c:421-487 | an open context gives ALREADY_DONE and is unchanged; otherwise OK iff every step succeeds; each descriptor opened (device, global MMIO, epoll) is kept for close, and the others keep their values; on failure the version, MMIO sizes and PASID are unchanged |
| `Context.Afu.OpenFromDev` | src/afu.c:544-563 | a context is returned only when lookup and open both succeed, and it is then open on the device descriptor; a context whose open fails after the device was opened is closed again, with the close calls of its global MMIO, epoll and device descriptors |
| `Context.Afu.Attach` | src/afu.c:670-695 | NO_CONTEXT on a closed context and INTERNAL_ERROR when the ioctl fails, both leaving it detached as before; otherwise attached |
| `Context.Afu.UnmapAll` | src/afu.c:718-720 | every registered window is unmapped, and the munmap calls are those of the mapped windows in slot order |
| `Context.Afu.ReleaseIrqs` | src/afu.c:727-736 | every allocated IRQ is torn down in order, then the table is empty |
| `Context.Afu.Close` | src/afu.c:710-763 | a closed context gives ALREADY_DONE and is unchanged; otherwise every window is unmapped, every IRQ released and every descriptor closed, in that order, and the context is closed and detached |
| `Context.Afu.Shutdown` | src/afu.c:718-758 | the state and calls close leaves on an open context |
| `Context.Afu.CloseDescriptors` | src/afu.c:738-758 | the epoll and device descriptors are closed, in that order, and the context forgets them and its paths |
| `Context.Afu.ReleaseAll` | src/afu.c:718-736 | windows unmapped, the global MMIO descriptor closed, then the IRQs released |
| `Context.Afu.MapCheck` | src/mmio.c:144-240 | a request outside the area is NO_MEM; inside it, a zero-length global area is NO_MEM, non-zero flags are INVALID_ARGS, and per-PASID MMIO on a context that is not open and attached is NO_CONTEXT; a request passes iff every test passes, and then gives the validated size |
| `Context.Afu.RegisterMmio` | src/mmio.c:55-90 | the window goes in the lowest free slot, or is appended with the table grown when full; a failed growth changes nothing |
| `Context.Afu.MapAdvanced` | src/mmio.c:263-304 | a refused request or a failed mmap changes nothing; otherwise the window is registered, and unmapped again if registration fails |
| `Context.Afu.Map` | src/mmio.c:324-327 | map_advanced for the whole area with no flags: a permitted request asks for exactly the area's length; a refused one fails and changes nothing |
| `Context.Afu.UnmapMmio` | src/mmio.c:336-344 | only that slot becomes unmapped, and munmap is called iff it was mapped |
| `Context.Afu.IrqGetHandle` | src/irq.c:200-209 | the trigger address of an allocated IRQ, and 0 for any other number |
| `Context.Afu.IrqGetFd` | src/irq.c:221-230 | the eventfd of an allocated IRQ, and -1 for any other number |
| `Context.Afu.IrqAlloc` | src/irq.c:165-188 | a full table that cannot grow gives NO_MEM unchanged; the table grows only when full, and then to the next capacity; otherwise irq_allocate's result; on success the new IRQ is numbered with the old count, earlier IRQs are kept, and its handle and fd are the page and eventfd |
| `Context.Afu.DrainDevice` | src/irq.c:455-471 | the events stored are those of the bounded drain, never past the caller's capacity |
| `Context.Afu.ReportEvents` | src/irq.c:453-494 | the events stored are those the bounded event check reports, at most the capacity |
| `Context.Afu.EventCheck` | src/irq.c:418-499 | the scratch buffer grows to the caller's count or fails with -1; otherwise the result is -1 or the events of the ready sources, never more than the caller's count |
| `Memcpy.QueueLength` | samples/memcpy/memcpy.c:103-106 | the number of whole 32-byte work elements that fit the queue |
| `Memcpy.Stored` | samples/memcpy/memcpy.c:126-133 | the stored element is the caller's except for the wrap bit, which takes the queue's phase |
| `Memcpy.Advance` | samples/memcpy/memcpy.c:134-138 | the cursor moves on one slot and wraps to the first slot, flipping the phase, exactly after the last |
| `Memcpy.AdvanceNSplit` | samples/memcpy/memcpy.c:134-138 | a+b additions are a additions followed by b more |
| `Memcpy.AdvanceWithinLap` | samples/memcpy/memcpy.c:134-138 | additions that stay within the lap move forward and keep the phase |
| `Memcpy.FullLap` | samples/memcpy/memcpy.c:134-138 | after as many additions as the ring has slots, the cursor is back in place with the phase flipped |
| `Memcpy.WorkQueue.constructor` | samples/memcpy/memcpy.c:108-116 | a zeroed ring of whole elements, filled from its first slot in phase 0 |
| `Memcpy.WorkQueue.AddWe` | samples/memcpy/memcpy.c:122-141 | only the current slot changes, to the stored element, and the cursor advances |
| `Memcpy.MemcpyWed` | samples/memcpy/memcpy.c:45-47 | the WED holds the queue's page address and the low 12 bits of the depth |
| `Memcpy.WedRoundTrip` | samples/memcpy/memcpy.c:45-47 | a page-aligned queue and a depth below 4096 are both recovered from the WED |
| `Memcpy.MemcpyWeCmd` | samples/memcpy/memcpy.c:49-51 | bit 0 is the valid bit, bits 2-7 the command, and the wrap bit is clear |
| `Memcpy.StoredCommand` | samples/memcpy/memcpy.c:49-53 | a packed command in the ring keeps its valid bit and command, and takes the ring's phase |
| `Memcpy.FillBuffer` | samples/memcpy/memcpy.c:303-309 | byte i of the buffer becomes i mod 256, and bytes past the size are untouched |
| `Memcpy.WaitOutcome` | samples/memcpy/memcpy.c:208-253 | the result is 0, 0x04 alone, or keeps every issue found so far; without a timeout no timeout bit is added |
| `Memcpy.EndIndex` | samples/memcpy/memcpy.c:219-250 | the wait goes on past every check that is neither a failure, an empty check nor the completion IRQ, and ends at the first that is |
| `Memcpy.WaitOutcomeFrom` | samples/memcpy/memcpy.c:208-253 | from issues already found, the wait gives 0x04 when it ends at a failed check, 0 at the completion IRQ, and otherwise those issues plus the error-IRQ and fault bits of the checks before the end, plus 0x08 when a timeout is set |
| `Memcpy.WaitOutcomeIsReport` | samples/memcpy/memcpy.c:208-253 | wait_for_irq's result is that report, starting from no issues |
| `Memcpy.WaitReportCases` | samples/memcpy/memcpy.c:219-250 | a wait that ends at the completion IRQ gives 0; at a failed check, exactly 0x04; a fault seen sets 0x02 unless the result is 0 or 0x04; a wait that runs out of checks or finds none pending sets 0x08 iff a timeout is set |
| `Memcpy.ErrorIrqReported` | samples/memcpy/memcpy.c:239-242 | an error IRQ before the completion IRQ sets bit 0x01 unless a later check fails or completes |
| `Memcpy.WaitForIrq` | samples/memcpy/memcpy.c:208-253 | the loop returns the issues the sequence of event checks gives |
| `Memcpy.DefaultTimeout` | afutests/memcpy/ocxl_memcpy.c:732-736 | one second per five processes, with C's truncating division, and at least ten |
| `Memcpy.ResolveOptions` | afutests/memcpy/ocxl_memcpy.c:732-751 | refused iff -i is given with -w or -A with -r; otherwise only a missing timeout is filled in, with the default |

## Left out

- System calls are not modelled; their results are parameters. These are
  open, ioctl, mmap/munmap, eventfd, epoll, read, stat, realloc and malloc.
  The calls that release resources are returned as lists.
- The directory scan of `populate_metadata` and the sysfs reads of `afu_open` are not modelled.
  The matching entry and the values read are parameters. DEVICE_PATH and SYS_PATH are parameters too.
- The initial table sizes come from a header that is not part of this model. They are constants: 4 MMIO windows and 64 IRQs.
- Mutexes, tracing output, `free`, and the `prot` argument of the map calls are not modelled.
- `errmsg` is modelled on its own (`Diagnostics.Library.Errmsg`). The operations do not thread the messages they would emit.
- `libocxl_init` is not called from inside the open calls. `Diagnostics.Library.Init` models it on its own.
- Handles are table indices, not pointers. The caller's event array is an `array<Event>`.
- The epoll timeout and the time spent waiting are not modelled. `wait_for_irq` gets the results of its event checks as a sequence.
- The `sscanf` rules for leading white space and signs are not modelled. Only digit runs are modelled.
- The default branch for an unknown MMIO type is not modelled: the type is a two-value datatype.
- The three reserved bytes of a work element are not modelled.
- `memcpy3_init_weq` writes past the buffer when the queue is smaller than one 32-byte element. The model requires at least one element.
- `restart_afu_if_stopped`, the memcpy programs' MMIO sequences, `global_setup` and the usage exit are not modelled.
- The exit for an unexpected argument is not modelled either.
- The content of slots added by `grow_buffer` is a blank element, not zeroed bytes. The byte-level clearing is modelled separately (`GrowBuffer.ClearedIntended`).
- `ocxl_mmio_size` and `ocxl_mmio_get_fd` are `Context.Afu.MmioSize` and `Context.Afu.MmioGetFd`. They read a field and state nothing of their own.
- A map request outside the area fails with NO_MEM, as the code returns (src/mmio.c:283-296).
- Context.Afu.EventCheck: the device drain is bounded by the caller's capacity, unlike the code as written (see Findings).
- Context.Afu.IrqGetHandle: refuses the IRQ number one past the last allocated one, unlike the code as written (see Findings).
- GrowBuffer.Grow: a capacity that does not fit 16 bits is refused with NO_MEM instead of wrapping (see Findings).
- Names.ParseDeviceName: domain, bus and device are read in hexadecimal, unlike the code as written (see Findings).
- Mmio.MmioCheck: refuses negative offsets as out of bounds, unlike the code as written (src/mmio.c:451, see Findings).
- Mmio.Read32: uses the corrected bounds check, so a negative offset is refused (src/mmio.c:451).
- Mmio.Read64: uses the corrected bounds check, so a negative offset is refused (src/mmio.c:451).
- Mmio.Write32: uses the corrected bounds check, so a negative offset is refused (src/mmio.c:451).
- Mmio.Write64: uses the corrected bounds check, so a negative offset is refused (src/mmio.c:451).
- Mmio.MapRequest: refuses three requests that the size_t test as written accepts (src/mmio.c:268-298, see Findings): a window that starts past the area, a negative offset, and a non-zero size whose `offset + size` wraps back into the area (src/mmio.c:283-292).
- Context.Afu.MapCheck: validates with the corrected map request (src/mmio.c:268-298).
- Context.Afu.MapAdvanced: validates with the corrected map request (src/mmio.c:268-298).
- Context.Afu.Map: validates with the corrected map request (src/mmio.c:268-298).
- Irq.Allocate: a failed mmap does not lead to a munmap of MAP_FAILED, unlike the code as written (src/irq.c:126-131, see Findings).
- Context.Afu.IrqAlloc: uses the corrected allocation, with no munmap of MAP_FAILED (src/irq.c:126-131).
- IrqAlloc: grows the table through the corrected `GrowBuffer.Grow`, so a full table of 32768 IRQs is refused with NO_MEM instead of wrapping the uint16_t capacity to 0 (src/internal.c:197-209).
- RegisterMmio: grows the table through the corrected `GrowBuffer.Grow`, so a full table of 32768 windows is refused with NO_MEM instead of wrapping the uint16_t capacity to 0 (src/internal.c:197-209).
- PopulateMetadata: parses domain, bus and device in hexadecimal through `Names.ParseDeviceName`, so an entry such as IBM,Dummy.0000:0a:00.1.0, which the decimal `%hu`/`%hhu` conversions as written refuse (src/afu.c:362), is found.
- GetAfuByPath: inherits the hexadecimal parse of PopulateMetadata, so it finds a device on bus 0a where the code as written returns NO_DEV (src/afu.c:362).
- OpenFromDev: inherits the hexadecimal parse of PopulateMetadata, so it opens a device on bus 0a where the code as written returns NO_DEV (src/afu.c:362).
- DrainDevice: stops storing faults once the caller's `event_count` slots are full, while the loop as written (src/irq.c:456-465) never tests the capacity.
- Context.Afu.IrqGetFd: refuses the IRQ number one past the last allocated one, like IrqGetHandle; the code as written has the same off-by-one at src/irq.c:225.
- Irq.Collect: when bounded, IRQ events are dropped too once the caller's array is full; the IRQ branch as written (src/irq.c:483-487) has no capacity test.
- Context.Afu.ReportEvents: uses the bounded check, so IRQ events past the caller's capacity are dropped, which the IRQ branch as written (src/irq.c:483-487) does not test.

## Findings

| source | as written | input that shows it | evidently intended | confidence | as-written member | corrected member |
|---|---|---|---|---|---|---|
| src/mmio.c:451 | the bounds check compares the signed offset only against the upper limit | offset -4, size 4, window of 8 bytes: accepted | negative offsets refused as out of bounds | high, not executed | `Mmio.MmioCheckAcceptsNegativeOffset` | `Mmio.MmioCheck` |
| src/mmio.c:268-298 | a zero size becomes `length - offset` in size_t, and `offset + size` wraps back to `length` | size 0, offset length+1: size 2^64-1, accepted | refused, because the window starts past the area | high, not executed | `Mmio.MapPastEndAccepted` | `Mmio.MapRequest` |
| src/irq.c:204 | get_handle and get_fd refuse only `irq > irq_count` | irq == irq_count reads the slot after the last allocated IRQ | `irq >= irq_count` refused | high, not executed | `Irq.IrqNumberOnePastEndAdmitted` | `Context.Afu.IrqGetHandle` |
| src/irq.c:456-465 | the device drain loop never compares the events stored with `event_count` | event_count 1, two pending faults, the first not flagged last: two events stored | stop when the caller's array is full | medium, not executed | `Irq.DrainOverflowsCapacity` | `Context.Afu.DrainDevice` |
| src/irq.c:126-131 | a failed mmap leaves MAP_FAILED in `irq->addr`, and the teardown then munmaps it | mmap fails after eventfd, ALLOC and SET_FD succeed | no munmap of MAP_FAILED | medium, not executed | `Irq.AllocateUnmapsMapFailed` | `Irq.Allocate` |
| src/internal.c:197-209 | the doubled capacity is stored in a uint16_t | a table of 32768 slots grows to 65536 slots; the capacity is stored as 0 | refuse, or keep a wider count | medium, not executed | `GrowBuffer.GrowCountTruncates` | `GrowBuffer.Grow` |
| src/internal.c:206 | memset clears `new_count - count` bytes, not that many elements | 24-byte elements, 0 to 4 slots: 4 of 96 bytes cleared | clear `(new_count - count) * size` bytes | high, not executed | `GrowBuffer.ClearingTooShort` | `GrowBuffer.ClearedIntended` |
| src/afu.c:362 | domain, bus and device are read with %hu/%hhu, which is decimal | IBM,Dummy.0000:0a:00.1.0 converts two fields and is refused | read them in hexadecimal, as the kernel writes them | medium, not executed | `Names.HexBusRefusedAsWritten` | `Names.ParseDeviceNameRoundTrip` |
