/**
 * The string side of opening an AFU: splitting a device entry name
 * "<afu name>.<domain>:<bus>:<device>.<function>.<afu index>" into the AFU
 * name and index, building the device and sysfs paths, building the glob
 * pattern that selects candidate devices, and choosing among the candidates.
 */
module Names {
  import opened Base

  const AFU_NAME_MAX: nat := 24
  const PATH_MAX: nat := 4096

  // ---------------------------------------------------------------------
  // Numbers as sscanf reads them

  predicate IsDigit(c: char, base: nat)
  {
    ('0' <= c <= '9' && (c as int - '0' as int) < base)
    || (base == 16 && ('a' <= c <= 'f' || 'A' <= c <= 'F'))
  }

  /** The value of a digit; 0 for a character that is not one. */
  function DigitValue(c: char, base: nat): (v: nat)
    ensures IsDigit(c, base) ==> v < base
  {
    if '0' <= c <= '9' then c as int - '0' as int
    else if IsDigit(c, base) && 'a' <= c <= 'f' then c as int - 'a' as int + 10
    else if IsDigit(c, base) then c as int - 'A' as int + 10
    else 0
  }

  predicate AllDigits(s: string, base: nat)
  {
    forall i :: 0 <= i < |s| ==> IsDigit(s[i], base)
  }

  /** The value of a string of digits, most significant first. */
  function DigitsValue(s: string, base: nat): nat
  {
    if s == [] then 0 else DigitsValue(s[..|s| - 1], base) * base + DigitValue(s[|s| - 1], base)
  }

  /** The length of the run of digits at the start of `s`. */
  function DigitRun(s: string, base: nat): (n: nat)
    ensures n <= |s|
    ensures n == 0 <==> (s == [] || !IsDigit(s[0], base))
  {
    if s == [] || !IsDigit(s[0], base) then 0 else 1 + DigitRun(s[1..], base)
  }

  /**
   * One unsigned conversion of sscanf: the longest run of digits at the
   * start of `s`, its value, and what follows; None when there is no digit.
   */
  function ScanNumber(s: string, base: nat): (r: Option<(nat, string)>)
    ensures r.None? <==> (s == [] || !IsDigit(s[0], base))
    ensures r.Some? ==> |r.value.1| < |s| && r.value.1 == s[|s| - |r.value.1|..]
  {
    var n := DigitRun(s, base);
    if n == 0 then None else Some((DigitsValue(s[..n], base), s[n..]))
  }

  /** `s` is the first digits of `s + rest` when `rest` does not continue the number. */
  lemma {:induction false} DigitRunOfDigits(s: string, rest: string, base: nat)
    requires AllDigits(s, base)
    requires rest == [] || !IsDigit(rest[0], base)
    ensures DigitRun(s + rest, base) == |s|
    decreases |s|
  {
    if s != [] {
      assert (s + rest)[1..] == s[1..] + rest;
      DigitRunOfDigits(s[1..], rest, base);
    } else {
      assert s + rest == rest;
    }
  }

  lemma ScanDigits(s: string, rest: string, base: nat)
    requires s != [] && AllDigits(s, base)
    requires rest == [] || !IsDigit(rest[0], base)
    ensures ScanNumber(s + rest, base) == Some((DigitsValue(s, base), rest))
  {
    DigitRunOfDigits(s, rest, base);
    assert (s + rest)[..|s|] == s;
    assert (s + rest)[|s|..] == rest;
  }

  // ---------------------------------------------------------------------
  // The physical function and AFU index of a device name

  /**
   * A scanf format: unsigned conversions in a base and literal characters,
   * in order.
   */
  datatype Format = Done | Conv(base: nat, next: Format) | Lit(c: char, next: Format)

  /**
   * The values sscanf stores for format `fmt` on input `s`: one per
   * conversion, up to the first directive that fails to match.
   */
  function Scan(s: string, fmt: Format): seq<nat>
  {
    match fmt
    case Done => []
    case Lit(c, next) =>
      if s != [] && s[0] == c then Scan(s[1..], next) else []
    case Conv(base, next) =>
      var n := ScanNumber(s, base);
      if n.None? then [] else [n.value.0] + Scan(n.value.1, next)
  }

  lemma ScanNumberStep(digits: string, rest: string, base: nat, fmt: Format)
    requires digits != [] && AllDigits(digits, base)
    requires rest == [] || !IsDigit(rest[0], base)
    ensures Scan(digits + rest, Conv(base, fmt)) == [DigitsValue(digits, base)] + Scan(rest, fmt)
  {
    ScanDigits(digits, rest, base);
  }

  lemma ScanLiteralStep(c: char, rest: string, fmt: Format)
    ensures Scan([c] + rest, Lit(c, fmt)) == Scan(rest, fmt)
  {
    assert ([c] + rest)[1..] == rest;
  }

  /** "%hu:%hhu:%hhu.%hhu.%hhu" with the first three conversions in base `pciBase`. */
  function PciFormat(pciBase: nat): Format
  {
    Conv(pciBase, Lit(':', Conv(pciBase, Lit(':', Conv(pciBase,
      Lit('.', Conv(10, Lit('.', Conv(10, Done)))))))))
  }

  /**
   * The AFU index of "<domain>:<bus>:<device>.<function>.<index>", kept in a
   * uint8_t, or None when sscanf converts fewer than five fields.
   * Characters after the index are ignored.
   */
  function ParsePhysicalFunction(s: string, pciBase: nat): (r: Option<u8>)
    ensures r.Some? <==> |Scan(s, PciFormat(pciBase))| == 5
    ensures r.Some? ==> r.value == Scan(s, PciFormat(pciBase))[4] % TWO_8
  {
    var values := Scan(s, PciFormat(pciBase));
    if |values| != 5 then None else Some(values[4] % TWO_8)
  }

  /** The position of the first '.' in `s`, as strchr finds it. */
  function FirstDot(s: string): (r: Option<nat>)
    ensures r.Some? ==> r.value < |s| && s[r.value] == '.' && '.' !in s[..r.value]
    ensures r.None? ==> '.' !in s
  {
    if s == [] then None
    else if s[0] == '.' then Some(0)
    else
      var r := FirstDot(s[1..]);
      if r.None? then None
      else
        assert s[..r.value + 1] == [s[0]] + s[1..][..r.value];
        Some(r.value + 1)
  }

  lemma {:induction false} FirstDotAfter(name: string, rest: string)
    requires '.' !in name
    ensures FirstDot(name + "." + rest) == Some(|name|)
    decreases |name|
  {
    if name != [] {
      assert (name + "." + rest)[1..] == name[1..] + "." + rest;
      FirstDotAfter(name[1..], rest);
    }
  }

  /**
   * The AFU name and index of a device entry name: the name is what comes
   * before the first '.', at most AFU_NAME_MAX characters, and what follows
   * must parse as a physical function and index.
   */
  function ParseDeviceNameWith(entry: string, pciBase: nat): (r: Option<(string, u8)>)
    ensures r.Some? ==> |r.value.0| <= AFU_NAME_MAX && '.' !in r.value.0
    ensures r.Some? ==> |r.value.0| < |entry| && r.value.0 == entry[..|r.value.0|] && entry[|r.value.0|] == '.'
    ensures r.Some? <==> FirstDot(entry).Some? && FirstDot(entry).value <= AFU_NAME_MAX
                         && ParsePhysicalFunction(entry[FirstDot(entry).value + 1..], pciBase).Some?
    ensures r.Some? ==> r.value.1 == ParsePhysicalFunction(entry[FirstDot(entry).value + 1..], pciBase).value
  {
    var dot := FirstDot(entry);
    if dot.None? || dot.value > AFU_NAME_MAX then None
    else
      var index := ParsePhysicalFunction(entry[dot.value + 1..], pciBase);
      if index.None? then None else Some((entry[..dot.value], index.value))
  }

  /** populate_metadata as written: every PCI field is read in decimal (%hu, %hhu). */
  function ParseDeviceNameAsWritten(entry: string): Option<(string, u8)>
  {
    ParseDeviceNameWith(entry, 10)
  }

  /**
   * The parse this model uses: domain, bus and device are hexadecimal, as
   * the kernel names PCI functions ("%04x:%02x:%02x.%d").
   */
  function ParseDeviceName(entry: string): Option<(string, u8)>
  {
    ParseDeviceNameWith(entry, 16)
  }

  /** The physical-function part of a device name, from its fields. */
  function PciName(domain: string, bus: string, device: string, fn: string, index: string): string
  {
    domain + ([':'] + (bus + ([':'] + (device + (['.'] + (fn + (['.'] + index)))))))
  }

  /** A device name as the kernel builds it, from its parts. */
  function DeviceName(name: string, domain: string, bus: string, device: string, fn: string, index: string): string
  {
    name + "." + PciName(domain, bus, device, fn, index)
  }

  /** The format after the device number: ".%hhu.%hhu". */
  function FunctionFormat(): Format
  {
    Lit('.', Conv(10, Lit('.', Conv(10, Done))))
  }

  lemma ScanFunctionPart(fn: string, index: string)
    requires fn != [] && index != [] && AllDigits(fn, 10) && AllDigits(index, 10)
    ensures Scan(['.'] + (fn + (['.'] + index)), FunctionFormat()) == [DigitsValue(fn, 10), DigitsValue(index, 10)]
  {
    ScanNumberStep(index, [], 10, Done);
    assert index + [] == index;
    ScanLiteralStep('.', index, Conv(10, Done));
    ScanNumberStep(fn, ['.'] + index, 10, Lit('.', Conv(10, Done)));
    ScanLiteralStep('.', fn + (['.'] + index), Conv(10, Lit('.', Conv(10, Done))));
  }

  lemma ScanDevicePart(device: string, tail: string, pciBase: nat, values: seq<nat>)
    requires device != [] && AllDigits(device, pciBase)
    requires tail != [] && !IsDigit(tail[0], pciBase)
    requires Scan(tail, FunctionFormat()) == values
    ensures Scan([':'] + (device + tail), Lit(':', Conv(pciBase, FunctionFormat()))) == [DigitsValue(device, pciBase)] + values
  {
    ScanNumberStep(device, tail, pciBase, FunctionFormat());
    ScanLiteralStep(':', device + tail, Conv(pciBase, FunctionFormat()));
  }

  lemma ScanBusPart(bus: string, tail: string, pciBase: nat, values: seq<nat>)
    requires bus != [] && AllDigits(bus, pciBase)
    requires tail != [] && !IsDigit(tail[0], pciBase)
    requires Scan(tail, Lit(':', Conv(pciBase, FunctionFormat()))) == values
    ensures Scan([':'] + (bus + tail), PciFormat(pciBase).next) == [DigitsValue(bus, pciBase)] + values
  {
    ScanNumberStep(bus, tail, pciBase, Lit(':', Conv(pciBase, FunctionFormat())));
    ScanLiteralStep(':', bus + tail, PciFormat(pciBase).next.next);
  }

  /** The fields of a physical-function name read back, each in its own base. */
  lemma ScanPciName(domain: string, bus: string, device: string, fn: string, index: string, pciBase: nat)
    requires domain != [] && bus != [] && device != [] && fn != [] && index != []
    requires AllDigits(domain, pciBase) && AllDigits(bus, pciBase) && AllDigits(device, pciBase)
    requires AllDigits(fn, 10) && AllDigits(index, 10)
    requires !IsDigit(':', pciBase) && !IsDigit('.', pciBase)
    ensures var r := Scan(PciName(domain, bus, device, fn, index), PciFormat(pciBase));
      && |r| == 5
      && r[0] == DigitsValue(domain, pciBase) && r[1] == DigitsValue(bus, pciBase)
      && r[2] == DigitsValue(device, pciBase)
      && r[3] == DigitsValue(fn, 10) && r[4] == DigitsValue(index, 10)
  {
    var t5 := ['.'] + (fn + (['.'] + index));
    var t3 := [':'] + (device + t5);
    var t1 := [':'] + (bus + t3);
    var v5 := [DigitsValue(fn, 10), DigitsValue(index, 10)];
    ScanFunctionPart(fn, index);
    var v3 := [DigitsValue(device, pciBase)] + v5;
    ScanDevicePart(device, t5, pciBase, v5);
    var v1 := [DigitsValue(bus, pciBase)] + v3;
    ScanBusPart(bus, t3, pciBase, v3);
    ScanNumberStep(domain, t1, pciBase, PciFormat(pciBase).next);
    assert PciName(domain, bus, device, fn, index) == domain + t1;
  }

  /**
   * Every device name built from an AFU name of at most AFU_NAME_MAX
   * characters without '.', domain, bus and device digits in the base the
   * parse reads them in, and decimal function and index, parses back to that
   * AFU name and index (mod 256).
   */
  lemma ParseDeviceNameRoundTrip(name: string, domain: string, bus: string, device: string, fn: string, index: string, pciBase: nat)
    requires pciBase == 10 || pciBase == 16
    requires '.' !in name && |name| <= AFU_NAME_MAX
    requires domain != [] && bus != [] && device != [] && fn != [] && index != []
    requires AllDigits(domain, pciBase) && AllDigits(bus, pciBase) && AllDigits(device, pciBase)
    requires AllDigits(fn, 10) && AllDigits(index, 10)
    ensures ParseDeviceNameWith(DeviceName(name, domain, bus, device, fn, index), pciBase)
         == Some((name, DigitsValue(index, 10) % TWO_8))
  {
    var pf := PciName(domain, bus, device, fn, index);
    var entry := DeviceName(name, domain, bus, device, fn, index);
    FirstDotAfter(name, pf);
    assert entry[|name| + 1..] == pf;
    assert entry[..|name|] == name;
    ScanPciName(domain, bus, device, fn, index, pciBase);
  }

  /** The entry used by the library's own metadata test parses to AFU "IBM,Dummy", index 0, either way. */
  lemma ParseTestEntry()
    ensures ParseDeviceName(DeviceName("IBM,Dummy", "0001", "00", "00", "1", "0")) == Some(("IBM,Dummy", 0))
    ensures ParseDeviceNameAsWritten(DeviceName("IBM,Dummy", "0001", "00", "00", "1", "0")) == Some(("IBM,Dummy", 0))
  {
    assert AllDigits("0001", 10) && AllDigits("00", 10) && AllDigits("1", 10) && AllDigits("0", 10);
    assert DigitsValue("0", 10) == 0;
    ParseDeviceNameRoundTrip("IBM,Dummy", "0001", "00", "00", "1", "0", 16);
    ParseDeviceNameRoundTrip("IBM,Dummy", "0001", "00", "00", "1", "0", 10);
  }

  /**
   * A device on PCI bus 0x0a: the decimal parse as written stops at the 'a',
   * converts two fields only and refuses the name, which the hexadecimal
   * parse accepts.
   */
  lemma HexBusRefusedAsWritten()
    ensures ParseDeviceNameAsWritten(DeviceName("IBM,Dummy", "0000", "0a", "00", "1", "0")) == None
    ensures ParseDeviceName(DeviceName("IBM,Dummy", "0000", "0a", "00", "1", "0")) == Some(("IBM,Dummy", 0))
  {
    assert AllDigits("0a", 16) && AllDigits("0000", 16) && AllDigits("00", 16);
    assert DigitsValue("0", 10) == 0;
    ParseDeviceNameRoundTrip("IBM,Dummy", "0000", "0a", "00", "1", "0", 16);
    var pf := PciName("0000", "0a", "00", "1", "0");
    FirstDotAfter("IBM,Dummy", pf);
    assert DeviceName("IBM,Dummy", "0000", "0a", "00", "1", "0")[10..] == pf;
    DecimalScanStopsAtHexBus();
  }

  /** Read in decimal, bus "0a" ends the conversions after the domain and the '0'. */
  lemma DecimalScanStopsAtHexBus()
    ensures |Scan(PciName("0000", "0a", "00", "1", "0"), PciFormat(10))| == 2
  {
    var tail := "a" + ([':'] + ("00" + (['.'] + ("1" + (['.'] + "0")))));
    assert PciName("0000", "0a", "00", "1", "0") == "0000" + ([':'] + ("0" + tail));
    var g := PciFormat(10).next;
    ScanNumberStep("0000", [':'] + ("0" + tail), 10, g);
    ScanLiteralStep(':', "0" + tail, g.next);
    ScanNumberStep("0", tail, 10, g.next.next);
    assert Scan(tail, g.next.next.next) == [];
  }

  // ---------------------------------------------------------------------
  // Paths

  /** "<dir>/<entry>", as populate_metadata formats the device and sysfs paths. */
  function JoinPath(dir: string, entry: string): (r: string)
    ensures |r| == |dir| + 1 + |entry|
    ensures r[..|dir|] == dir && r[|dir|] == '/' && r[|dir| + 1..] == entry
  {
    dir + "/" + entry
  }

  /** The decimal digits of a natural number, as printf's %d writes them. */
  function NatString(n: nat): (s: string)
    ensures s != [] && AllDigits(s, 10)
    decreases n
  {
    var d := ['0' + (n % 10) as char];
    if n < 10 then d else NatString(n / 10) + d
  }

  /** %d of a signed number. */
  function DecimalString(n: int): string
  {
    if n < 0 then "-" + NatString(-n) else NatString(n)
  }

  lemma {:induction false} NatStringValue(n: nat)
    ensures DigitsValue(NatString(n), 10) == n
    decreases n
  {
    var s := NatString(n);
    if n >= 10 {
      NatStringValue(n / 10);
      assert s[..|s| - 1] == NatString(n / 10);
    }
  }

  /** The glob pattern's text after snprintf into a PATH_MAX buffer. */
  function Bounded(s: string): (r: string)
    ensures |r| < PATH_MAX && |r| <= |s| && r == s[..|r|]
    ensures |s| < PATH_MAX ==> r == s
  {
    if |s| < PATH_MAX then s else s[..PATH_MAX - 1]
  }

  /**
   * The glob pattern of ocxl_afu_open_specific:
   * "<dev dir>/<name>.<physical function or *>.<index or *>", -1 standing
   * for any index.
   */
  function GlobPattern(devDir: string, name: string, physicalFunction: Option<string>, afuIndex: int): string
    requires -0x8000 <= afuIndex < 0x8000
  {
    var pf := if physicalFunction.Some? then physicalFunction.value else "*";
    var index := if afuIndex == -1 then "*" else DecimalString(afuIndex);
    Bounded(devDir + "/" + name + "." + pf + "." + index)
  }

  /**
   * A pattern for a specific index that fits the buffer ends with that index
   * in decimal, after the last '.', so it reads back to the index; the
   * wildcard index gives a trailing ".*".
   */
  lemma GlobPatternIndex(devDir: string, name: string, physicalFunction: Option<string>, afuIndex: int)
    requires -1 <= afuIndex < 0x8000
    requires |devDir| + |name| + 8 + (if physicalFunction.Some? then |physicalFunction.value| else 1) < PATH_MAX
    ensures var p := GlobPattern(devDir, name, physicalFunction, afuIndex);
      afuIndex == -1 ==> p[|p| - 2..] == ".*"
    ensures var p := GlobPattern(devDir, name, physicalFunction, afuIndex);
      afuIndex >= 0 ==> exists k :: 0 <= k < |p| && p[k] == '.' && ScanNumber(p[k + 1..], 10) == Some((afuIndex, ""))
  {
    var pf := if physicalFunction.Some? then physicalFunction.value else "*";
    var head := devDir + "/" + name + "." + pf;
    if afuIndex >= 0 {
      var digits := NatString(afuIndex);
      assert |digits| <= 5 by { NatStringLength(afuIndex); }
      var p := head + "." + digits;
      assert GlobPattern(devDir, name, physicalFunction, afuIndex) == p;
      assert p[|head|] == '.';
      assert p[|head| + 1..] == digits + "";
      ScanDigits(digits, "", 10);
      NatStringValue(afuIndex);
    } else {
      var p := head + ".*";
      assert GlobPattern(devDir, name, physicalFunction, afuIndex) == p;
    }
  }

  lemma {:induction false} NatStringLength(n: nat)
    requires n < 0x8000
    ensures |NatString(n)| <= 5
  {
    if n >= 10 { NatStringShort(n / 10, 4); }
  }

  lemma {:induction false} NatStringShort(n: nat, k: nat)
    requires n < Pow10(k) && k >= 1
    ensures |NatString(n)| <= k
    decreases k
  {
    if n >= 10 {
      assert k >= 2;
      NatStringShort(n / 10, k - 1);
    }
  }

  function Pow10(k: nat): nat
  {
    if k == 0 then 1 else 10 * Pow10(k - 1)
  }

  // ---------------------------------------------------------------------
  // Choosing among the candidates

  /** What glob returns: the matching paths, or one of its failures. */
  datatype GlobResult = GlobMatches(paths: seq<string>) | GlobNoSpace | GlobNoMatch | GlobFailed

  /**
   * ocxl_afu_open_specific after globbing: try the candidates in order,
   * where `outcomes[k]` is what opening candidate k returns. A candidate out
   * of contexts is skipped; any other outcome ends the search. `chosen` is
   * the candidate that ended it, -1 when none did.
   */
  method OpenSpecific(g: GlobResult, outcomes: seq<Err>) returns (rc: Err, chosen: int)
    requires g.GlobMatches? ==> |outcomes| == |g.paths|
    ensures g == GlobNoSpace ==> rc == NoMem && chosen == -1
    ensures g == GlobNoMatch ==> rc == NoDev && chosen == -1
    ensures g == GlobFailed ==> rc == InternalError && chosen == -1
    ensures g.GlobMatches? && chosen >= 0 ==>
      && chosen < |outcomes|
      && rc == outcomes[chosen] != NoMoreContexts
      && forall k :: 0 <= k < chosen ==> outcomes[k] == NoMoreContexts
    ensures g.GlobMatches? && chosen < 0 ==>
      && chosen == -1
      && (forall k :: 0 <= k < |outcomes| ==> outcomes[k] == NoMoreContexts)
      && rc == (if outcomes == [] then InternalError else NoMoreContexts)
  {
    rc := InternalError;
    chosen := -1;
    match g
    case GlobNoSpace => rc := NoMem;
    case GlobNoMatch => rc := NoDev;
    case GlobFailed =>
    case GlobMatches(paths) =>
      var dev := 0;
      while dev < |paths|
        invariant 0 <= dev <= |paths|
        invariant forall k :: 0 <= k < dev ==> outcomes[k] == NoMoreContexts
        invariant rc == (if dev == 0 then InternalError else NoMoreContexts)
      {
        rc := outcomes[dev];
        if rc != NoMoreContexts {
          chosen := dev;
          return;
        }
        dev := dev + 1;
      }
  }
}
