/**
 * The memcpy AFU clients: the work-element queue they share with the AFU
 * (a ring of 32-byte elements whose wrap bit tells the AFU which lap an
 * element belongs to), the WED and command packing, the source buffer
 * pattern, the IRQ wait and the test's option rules.
 */
module Memcpy {
  import opened Base
  import opened Irq

  /** sizeof(struct memcpy_work_element), a packed structure. */
  const WORK_ELEMENT_SIZE: nat := 32

  const CMD_VALID: bv8 := 0x01
  const CMD_WRAP: bv8 := 0x02

  const CMD_COPY: bv8 := 0
  const CMD_IRQ: bv8 := 1
  const CMD_STOP: bv8 := 2
  const CMD_WAKE_HOST_THREAD: bv8 := 3
  const CMD_INCREMENT: bv8 := 4
  const CMD_ATOMIC: bv8 := 5
  const CMD_TRANSLATE_TOUCH: bv8 := 6

  const CACHELINE_SIZE: nat := 128
  const QUEUE_SIZE: nat := 4095 * CACHELINE_SIZE

  /** One work element; the three reserved bytes are not modelled. */
  datatype WorkElement = WorkElement(cmd: bv8, status: bv8, length: u16, cmdExtra: bv8,
                                     atomicOp: u64, src: u64, dst: u64)

  const ZeroElement: WorkElement := WorkElement(0, 0, 0, 0, 0, 0, 0)

  /** memcpy3_queue_length: how many whole work elements fit in `queueSize` bytes. */
  function QueueLength(queueSize: nat): (n: nat)
    ensures n * WORK_ELEMENT_SIZE <= queueSize < (n + 1) * WORK_ELEMENT_SIZE
  {
    queueSize / WORK_ELEMENT_SIZE
  }

  /** The element memcpy3_add_we stores: the caller's, with its wrap bit replaced by the queue's phase. */
  function Stored(we: WorkElement, wrap: bv8): (r: WorkElement)
    ensures r.(cmd := we.cmd) == we
    ensures wrap & !CMD_WRAP == 0 ==> r.cmd & !CMD_WRAP == we.cmd & !CMD_WRAP && r.cmd & CMD_WRAP == wrap
  {
    we.(cmd := (we.cmd & !CMD_WRAP) | wrap)
  }

  /** Where the next element goes and the phase it is stored with. */
  datatype Cursor = Cursor(next: nat, wrap: bv8)

  /** The cursor after one addition to a ring whose last slot is `last`. */
  function Advance(c: Cursor, last: nat): (r: Cursor)
    requires c.next <= last
    ensures r.next <= last
    ensures r.next == 0 <==> c.next == last
    ensures r.wrap == if c.next == last then c.wrap ^ CMD_WRAP else c.wrap
  {
    if c.next + 1 > last then Cursor(0, c.wrap ^ CMD_WRAP) else Cursor(c.next + 1, c.wrap)
  }

  /** The cursor after `k` additions. */
  function AdvanceN(c: Cursor, last: nat, k: nat): (r: Cursor)
    requires c.next <= last
    ensures r.next <= last
  {
    if k == 0 then c else Advance(AdvanceN(c, last, k - 1), last)
  }

  /** `a + b` additions are `a` additions followed by `b` more. */
  lemma {:induction false} AdvanceNSplit(c: Cursor, last: nat, a: nat, b: nat)
    requires c.next <= last
    ensures AdvanceN(c, last, a + b) == AdvanceN(AdvanceN(c, last, a), last, b)
  {
    if b > 0 {
      AdvanceNSplit(c, last, a, b - 1);
    }
  }

  /** Additions that do not pass the last slot move the cursor forward and keep the phase. */
  lemma {:induction false} AdvanceWithinLap(c: Cursor, last: nat, k: nat)
    requires c.next + k <= last
    ensures AdvanceN(c, last, k) == Cursor(c.next + k, c.wrap)
  {
    if k > 0 {
      AdvanceWithinLap(c, last, k - 1);
    }
  }

  /**
   * A full lap: after as many additions as the ring has slots, the cursor
   * is back where it started and the phase is flipped, so the AFU can tell
   * the new elements from the ones of the previous lap.
   */
  lemma FullLap(c: Cursor, last: nat)
    requires c.next <= last
    ensures AdvanceN(c, last, last + 1) == Cursor(c.next, c.wrap ^ CMD_WRAP)
  {
    var toLast := last - c.next;
    AdvanceWithinLap(c, last, toLast);
    assert AdvanceN(c, last, toLast + 1) == Cursor(0, c.wrap ^ CMD_WRAP);
    AdvanceWithinLap(Cursor(0, c.wrap ^ CMD_WRAP), last, c.next);
    AdvanceNSplit(c, last, toLast + 1, c.next);
  }

  /** struct memcpy_weq: the ring, the next slot to fill, the last slot and the current phase. */
  class WorkQueue {
    var queue: array<WorkElement>
    var next: nat
    var last: nat
    var wrap: bv8
    var count: int

    predicate Valid()
      reads this
    {
      queue.Length == last + 1 && next <= last && (wrap == 0 || wrap == CMD_WRAP)
    }

    function Position(): Cursor
      reads this
    {
      Cursor(next, wrap)
    }

    /** memcpy3_init_weq: a zeroed ring of QueueLength(queueSize) elements, filled from its start in phase 0. */
    constructor (queueSize: nat)
      requires queueSize >= WORK_ELEMENT_SIZE
      ensures Valid() && fresh(queue)
      ensures queue.Length == QueueLength(queueSize)
      ensures forall i :: 0 <= i < queue.Length ==> queue[i] == ZeroElement
      ensures next == 0 && last == QueueLength(queueSize) - 1 && wrap == 0 && count == 0
    {
      queue := new WorkElement[QueueLength(queueSize)](_ => ZeroElement);
      next := 0;
      last := QueueLength(queueSize) - 1;
      wrap := 0;
      count := 0;
    }

    /**
     * memcpy3_add_we: store the element in the next slot with the current
     * phase, advance, and at the end of the ring restart from its first
     * slot in the other phase. Returns the slot written.
     */
    method AddWe(we: WorkElement) returns (slot: nat)
      requires Valid()
      modifies this`next, this`wrap, queue
      ensures Valid()
      ensures slot == old(next) && slot < queue.Length
      ensures queue[..] == old(queue[..])[slot := Stored(we, old(wrap))]
      ensures Position() == Advance(old(Position()), last)
    {
      slot := next;
      queue[slot] := Stored(we, wrap);
      next := next + 1;
      if next > last {
        wrap := wrap ^ CMD_WRAP;
        next := 0;
      }
    }
  }

  // ---------------------------------------------------------------------
  // Register and command packing

  const PAGE_MASK: bv64 := 0xffff_ffff_ffff_f000

  /** MEMCPY_WED: the queue's page address with the queue depth in the low 12 bits. */
  function MemcpyWed(queue: bv64, depth: bv64): (w: bv64)
    ensures w & PAGE_MASK == queue & PAGE_MASK
    ensures w & 0xfff == depth & 0xfff
  {
    (queue & PAGE_MASK) | (depth & 0xfff)
  }

  /** A page-aligned queue and a depth below 4096 are both recovered from the WED. */
  lemma WedRoundTrip(queue: bv64, depth: bv64)
    requires queue & 0xfff == 0 && depth < 0x1000
    ensures MemcpyWed(queue, depth) & PAGE_MASK == queue
    ensures MemcpyWed(queue, depth) & 0xfff == depth
  {
  }

  /** MEMCPY_WE_CMD: the valid bit in bit 0, the command in bits 2..7, the wrap bit clear. */
  function MemcpyWeCmd(valid: bv8, cmd: bv8): (r: bv8)
    ensures r & CMD_VALID == valid & 1
    ensures r & CMD_WRAP == 0
    ensures r >> 2 == cmd & 0x3f
  {
    (valid & 1) | ((cmd & 0x3f) << 2)
  }

  /** A packed command stored in the ring keeps its valid bit and command and takes the ring's phase. */
  lemma StoredCommand(we: WorkElement, valid: bv8, cmd: bv8, wrap: bv8)
    requires we.cmd == MemcpyWeCmd(valid, cmd) && (wrap == 0 || wrap == CMD_WRAP)
    ensures Stored(we, wrap).cmd & CMD_VALID == valid & 1
    ensures Stored(we, wrap).cmd & CMD_WRAP == wrap
    ensures Stored(we, wrap).cmd >> 2 == cmd & 0x3f
  {
  }

  // ---------------------------------------------------------------------
  // Source buffer

  /** fill_buffer: byte i of the buffer is the low byte of i. */
  method FillBuffer(buf: array<bv8>, size: nat)
    requires size <= buf.Length
    modifies buf
    ensures forall i :: 0 <= i < size ==> buf[i] == (i % 0x100) as bv8
    ensures forall i :: size <= i < buf.Length ==> buf[i] == old(buf[i])
  {
    var i := 0;
    while i < size
      invariant 0 <= i <= size
      invariant forall k :: 0 <= k < i ==> buf[k] == (k % 0x100) as bv8
      invariant forall k :: size <= k < buf.Length ==> buf[k] == old(buf[k])
    {
      buf[i] := (i % 0x100) as bv8;
      i := i + 1;
    }
  }

  // ---------------------------------------------------------------------
  // Waiting for the completion IRQ

  const ISSUE_AFU_ERROR: bv8 := 0x01
  const ISSUE_TRANSLATION_FAULT: bv8 := 0x02
  const ISSUE_ACCESS_ERROR: bv8 := 0x04
  const ISSUE_TIMEOUT: bv8 := 0x08

  /** What one ocxl_afu_event_check call for a single event returns. */
  datatype CheckResult = CheckFailed | NoEvent | OneEvent(e: Event)

  /**
   * The issues wait_for_irq reports when its event checks return `checks`
   * in turn (every later check returns no event), having found `ret` so far.
   */
  function WaitOutcome(checks: seq<CheckResult>, timeout: int, irqEa: u64, errEa: u64, ret: bv8): (r: bv8)
    decreases |checks|
    ensures r == 0 || r == ISSUE_ACCESS_ERROR || r & ret == ret
    ensures timeout == 0 && ret & ISSUE_TIMEOUT == 0 ==> r & ISSUE_TIMEOUT == 0
  {
    if checks == [] then
      if timeout != 0 then ret | ISSUE_TIMEOUT else ret
    else
      match checks[0]
      case CheckFailed => ISSUE_ACCESS_ERROR
      case NoEvent => if timeout != 0 then ret | ISSUE_TIMEOUT else ret
      case OneEvent(e) =>
        match e
        case IrqEvent(_, handle, _, _) =>
          if irqEa != 0 && handle == irqEa then 0
          else WaitOutcome(checks[1..], timeout, irqEa, errEa, if handle == errEa then ret | ISSUE_AFU_ERROR else ret)
        case TranslationFault(_, _, _) =>
          WaitOutcome(checks[1..], timeout, irqEa, errEa, ret | ISSUE_TRANSLATION_FAULT)
  }

  /** An error IRQ seen before the completion IRQ is reported, unless a later check fails. */
  lemma ErrorIrqReported(checks: seq<CheckResult>, timeout: int, irqEa: u64, errEa: u64, irq: u16, info: u64, count: bv64)
    requires checks != [] && checks[0] == OneEvent(IrqEvent(irq, errEa, info, count))
    requires irqEa == 0 || errEa != irqEa
    ensures var r := WaitOutcome(checks, timeout, irqEa, errEa, 0);
      r == 0 || r == ISSUE_ACCESS_ERROR || r & ISSUE_AFU_ERROR == ISSUE_AFU_ERROR
  {
  }

  // A reference description of the wait: where it ends and what it saw before.

  /** The completion IRQ: an IRQ event whose handle is the (non-NULL) completion address. */
  predicate IsCompletion(c: CheckResult, irqEa: u64)
  {
    c.OneEvent? && c.e.IrqEvent? && irqEa != 0 && c.e.handle == irqEa
  }

  /** A check after which wait_for_irq stops checking: a failure, no pending event, or the completion IRQ. */
  predicate EndsWait(c: CheckResult, irqEa: u64)
  {
    c.CheckFailed? || c.NoEvent? || IsCompletion(c, irqEa)
  }

  /** The index of the check that ends the wait, |checks| when the given checks run out first. */
  function EndIndex(checks: seq<CheckResult>, irqEa: u64): (k: nat)
    ensures k <= |checks|
    ensures forall j :: 0 <= j < k ==> !EndsWait(checks[j], irqEa)
    ensures k < |checks| ==> EndsWait(checks[k], irqEa)
  {
    if checks == [] || EndsWait(checks[0], irqEa) then 0 else 1 + EndIndex(checks[1..], irqEa)
  }

  /** Some check among the first k reports the error IRQ. */
  predicate SawErrorIrq(checks: seq<CheckResult>, k: nat, errEa: u64)
    requires k <= |checks|
  {
    exists j :: 0 <= j < k && checks[j].OneEvent? && checks[j].e.IrqEvent? && checks[j].e.handle == errEa
  }

  /** Some check among the first k reports a translation fault. */
  predicate SawFault(checks: seq<CheckResult>, k: nat)
    requires k <= |checks|
  {
    exists j :: 0 <= j < k && checks[j].OneEvent? && checks[j].e.TranslationFault?
  }

  /**
   * What wait_for_irq reports: 0x04 alone when the check that ends the wait
   * fails, 0 when it is the completion IRQ, and otherwise an error IRQ
   * (0x01) and a translation fault (0x02) seen before the end, and 0x08 when
   * a timeout was set.
   */
  function WaitReport(checks: seq<CheckResult>, timeout: int, irqEa: u64, errEa: u64): bv8
  {
    var k := EndIndex(checks, irqEa);
    if k < |checks| && checks[k].CheckFailed? then ISSUE_ACCESS_ERROR
    else if k < |checks| && IsCompletion(checks[k], irqEa) then 0
    else SeenIssues(checks, k, errEa) | (if timeout != 0 then ISSUE_TIMEOUT else 0)
  }

  /** The issue bits of the checks before the end, as WaitReport collects them. */
  function SeenIssues(checks: seq<CheckResult>, k: nat, errEa: u64): bv8
    requires k <= |checks|
  {
    (if SawErrorIrq(checks, k, errEa) then ISSUE_AFU_ERROR else 0) | (if SawFault(checks, k) then ISSUE_TRANSLATION_FAULT else 0)
  }

  /** Dropping a first check that does not end the wait: it contributes its own bit, the rest contribute theirs. */
  lemma SeenIssuesStep(checks: seq<CheckResult>, k: nat, errEa: u64)
    requires 1 <= k <= |checks|
    ensures SawErrorIrq(checks, k, errEa) <==>
      (checks[0].OneEvent? && checks[0].e.IrqEvent? && checks[0].e.handle == errEa) || SawErrorIrq(checks[1..], k - 1, errEa)
    ensures SawFault(checks, k) <==>
      (checks[0].OneEvent? && checks[0].e.TranslationFault?) || SawFault(checks[1..], k - 1)
  {
    if SawErrorIrq(checks, k, errEa) {
      var j :| 0 <= j < k && checks[j].OneEvent? && checks[j].e.IrqEvent? && checks[j].e.handle == errEa;
      if j > 0 { assert checks[1..][j - 1] == checks[j]; }
    }
    if SawErrorIrq(checks[1..], k - 1, errEa) {
      var j :| 0 <= j < k - 1 && checks[1..][j].OneEvent? && checks[1..][j].e.IrqEvent? && checks[1..][j].e.handle == errEa;
      assert checks[j + 1] == checks[1..][j];
    }
    if SawFault(checks, k) {
      var j :| 0 <= j < k && checks[j].OneEvent? && checks[j].e.TranslationFault?;
      if j > 0 { assert checks[1..][j - 1] == checks[j]; }
    }
    if SawFault(checks[1..], k - 1) {
      var j :| 0 <= j < k - 1 && checks[1..][j].OneEvent? && checks[1..][j].e.TranslationFault?;
      assert checks[j + 1] == checks[1..][j];
    }
  }

  /** The issue bit one check that does not end the wait contributes. */
  function CheckIssue(c: CheckResult, errEa: u64): bv8
  {
    if c.OneEvent? && c.e.IrqEvent? && c.e.handle == errEa then ISSUE_AFU_ERROR
    else if c.OneEvent? && c.e.TranslationFault? then ISSUE_TRANSLATION_FAULT
    else 0
  }

  lemma SeenIssuesCons(checks: seq<CheckResult>, k: nat, errEa: u64)
    requires 1 <= k <= |checks|
    ensures SeenIssues(checks, k, errEa) == CheckIssue(checks[0], errEa) | SeenIssues(checks[1..], k - 1, errEa)
  {
    SeenIssuesStep(checks, k, errEa);
  }

  lemma OrRegroup(ret: bv8, bit: bv8, seen: bv8, t: bv8)
    ensures ret | (bit | seen) | t == (ret | bit) | seen | t
  {
  }

  /** One check that does not end the wait adds its issue bit and the wait goes on. */
  lemma WaitOutcomeStep(checks: seq<CheckResult>, timeout: int, irqEa: u64, errEa: u64, ret: bv8)
    requires checks != [] && !EndsWait(checks[0], irqEa)
    ensures WaitOutcome(checks, timeout, irqEa, errEa, ret) == WaitOutcome(checks[1..], timeout, irqEa, errEa, ret | CheckIssue(checks[0], errEa))
  {
    if CheckIssue(checks[0], errEa) == 0 {
      assert ret | 0 == ret;
    }
  }

  /** The reference report from an intermediate state `ret`: `ret` is kept unless the wait ends in 0 or 0x04. */
  function ReportFrom(checks: seq<CheckResult>, timeout: int, irqEa: u64, errEa: u64, ret: bv8): bv8
  {
    var k := EndIndex(checks, irqEa);
    if k < |checks| && checks[k].CheckFailed? then ISSUE_ACCESS_ERROR
    else if k < |checks| && IsCompletion(checks[k], irqEa) then 0
    else ret | SeenIssues(checks, k, errEa) | (if timeout != 0 then ISSUE_TIMEOUT else 0)
  }

  /** A wait that ends at its first check, or has no checks left. */
  lemma WaitOutcomeAtEnd(checks: seq<CheckResult>, timeout: int, irqEa: u64, errEa: u64, ret: bv8)
    requires checks == [] || EndsWait(checks[0], irqEa)
    ensures WaitOutcome(checks, timeout, irqEa, errEa, ret) == ReportFrom(checks, timeout, irqEa, errEa, ret)
  {
    assert EndIndex(checks, irqEa) == 0;
    assert !SawErrorIrq(checks, 0, errEa) && !SawFault(checks, 0);
    assert SeenIssues(checks, 0, errEa) == 0;
    assert ret | 0 == ret;
  }

  /** A check that does not end the wait: the reference report moves its bit into `ret`. */
  lemma ReportFromStep(checks: seq<CheckResult>, timeout: int, irqEa: u64, errEa: u64, ret: bv8)
    requires checks != [] && !EndsWait(checks[0], irqEa)
    ensures ReportFrom(checks, timeout, irqEa, errEa, ret) == ReportFrom(checks[1..], timeout, irqEa, errEa, ret | CheckIssue(checks[0], errEa))
  {
    var rest := checks[1..];
    var k := EndIndex(checks, irqEa);
    var k' := EndIndex(rest, irqEa);
    assert k == 1 + k';
    if k' < |rest| {
      assert checks[k] == rest[k'];
    }
    if !(k < |checks| && (checks[k].CheckFailed? || IsCompletion(checks[k], irqEa))) {
      var t: bv8 := if timeout != 0 then ISSUE_TIMEOUT else 0;
      SeenIssuesCons(checks, k, errEa);
      OrRegroup(ret, CheckIssue(checks[0], errEa), SeenIssues(rest, k', errEa), t);
    }
  }

  /** WaitOutcome from an intermediate state `ret` is the reference report from it. */
  lemma {:induction false} WaitOutcomeFrom(checks: seq<CheckResult>, timeout: int, irqEa: u64, errEa: u64, ret: bv8)
    ensures WaitOutcome(checks, timeout, irqEa, errEa, ret) == ReportFrom(checks, timeout, irqEa, errEa, ret)
    decreases |checks|
  {
    if checks == [] || EndsWait(checks[0], irqEa) {
      WaitOutcomeAtEnd(checks, timeout, irqEa, errEa, ret);
    } else {
      var ret' := ret | CheckIssue(checks[0], errEa);
      WaitOutcomeStep(checks, timeout, irqEa, errEa, ret);
      WaitOutcomeFrom(checks[1..], timeout, irqEa, errEa, ret');
      ReportFromStep(checks, timeout, irqEa, errEa, ret);
    }
  }

  /** wait_for_irq's result is the reference report. */
  lemma WaitOutcomeIsReport(checks: seq<CheckResult>, timeout: int, irqEa: u64, errEa: u64)
    ensures WaitOutcome(checks, timeout, irqEa, errEa, 0) == WaitReport(checks, timeout, irqEa, errEa)
  {
    WaitOutcomeFrom(checks, timeout, irqEa, errEa, 0);
  }

  /**
   * The report's cases: 0 when the wait ends at the completion IRQ, 0x04
   * alone when it ends at a failed check, and otherwise a fault seen sets
   * 0x02, and with a timeout set running out of events sets 0x08.
   */
  lemma WaitReportCases(checks: seq<CheckResult>, timeout: int, irqEa: u64, errEa: u64)
    ensures var k := EndIndex(checks, irqEa);
      var r := WaitOutcome(checks, timeout, irqEa, errEa, 0);
      && (k < |checks| && IsCompletion(checks[k], irqEa) ==> r == 0)
      && (k < |checks| && checks[k].CheckFailed? ==> r == ISSUE_ACCESS_ERROR)
      && (SawFault(checks, k) && r != 0 && r != ISSUE_ACCESS_ERROR ==> r & ISSUE_TRANSLATION_FAULT != 0)
      && ((k == |checks| || checks[k].NoEvent?) ==> (r & ISSUE_TIMEOUT != 0 <==> timeout != 0))
  {
    WaitOutcomeIsReport(checks, timeout, irqEa, errEa);
  }

  /**
   * wait_for_irq: check for one event at a time until the completion IRQ
   * arrives (0), a check fails (0x04 alone), or no event is pending; the
   * error IRQ, translation faults and a timeout add their bits.
   */
  method WaitForIrq(timeout: int, irqEa: u64, errEa: u64, checks: seq<CheckResult>) returns (r: bv8)
    ensures r == WaitOutcome(checks, timeout, irqEa, errEa, 0)
  {
    var ret: bv8 := 0;
    var k := 0;
    while true
      invariant 0 <= k <= |checks|
      invariant WaitOutcome(checks, timeout, irqEa, errEa, 0) == WaitOutcome(checks[k..], timeout, irqEa, errEa, ret)
      decreases |checks| - k
    {
      var check := if k < |checks| then checks[k] else NoEvent;
      if check.CheckFailed? {
        return ISSUE_ACCESS_ERROR;
      }
      if check.NoEvent? {
        if timeout != 0 {
          ret := ret | ISSUE_TIMEOUT;
        }
        break;
      }
      match check.e {
        case IrqEvent(_, handle, _, _) =>
          if irqEa != 0 && handle == irqEa {
            return 0;
          } else if handle == errEa {
            ret := ret | ISSUE_AFU_ERROR;
          }
        case TranslationFault(_, _, _) =>
          ret := ret | ISSUE_TRANSLATION_FAULT;
      }
      assert checks[k..][1..] == checks[k + 1..];
      k := k + 1;
    }
    return ret;
  }

  // ---------------------------------------------------------------------
  // Test options

  /** The options of the memcpy test that interact; a completion timeout of -1 means none was given. */
  datatype Options = Options(irq: bool, wakeHostThread: bool, atomicCas: bool, reallocate: bool,
                             completionTimeout: int)

  /** The default completion timeout: one second per five processes, at least ten. */
  function DefaultTimeout(processes: int): (t: int)
    ensures t >= 10
    ensures processes < 50 ==> t == 10
    ensures processes >= 50 ==> t * 5 <= processes < t * 5 + 5
  {
    var t := TruncDiv(processes, 5);
    if t < 10 then 10 else t
  }

  /**
   * The option processing after getopt: fill in the default timeout, then
   * refuse -i with -w and -A with -r (the program prints its usage and exits).
   */
  function ResolveOptions(o: Options, processes: int): (r: Option<Options>)
    ensures r.Some? <==> !(o.wakeHostThread && o.irq) && !(o.atomicCas && o.reallocate)
    ensures r.Some? ==> r.value.(completionTimeout := o.completionTimeout) == o
    ensures r.Some? ==>
      r.value.completionTimeout == if o.completionTimeout == -1 then DefaultTimeout(processes) else o.completionTimeout
  {
    var timed := if o.completionTimeout == -1 then o.(completionTimeout := DefaultTimeout(processes)) else o;
    if timed.wakeHostThread && timed.irq then None
    else if timed.atomicCas && timed.reallocate then None
    else Some(timed)
  }
}
