/** The partition initializer: the two routines that prepare a raw disk by a fixed,
    ordered sequence of disk control requests on one handle, the values they build
    (the create-disk record, the one-partition MBR layout, the grow record and the
    extend-volume sector count), and the I/O control codes they issue, checked
    against the CTL_CODE bit composition of winioctl.h.

    The device side is an oracle: `RawDevices` knows which paths open, what each
    disk answers to the partition and geometry queries, and which control requests
    fail (by their position in the trace of events). Every open, control request and
    close is appended to the trace, so the contracts of the two routines are stated
    over that trace. */
module DiskIO {
  import opened Common

  // ------------------------------------------------------------ control codes

  const FileDeviceDisk: bv32 := 0x07
  const FileDeviceFileSystem: bv32 := 0x09
  const MethodBuffered: bv32 := 0
  /** FileAccess.Read, FileAccess.ReadWrite, and the "any access" 0 of the enum. */
  const AccessAny: bv32 := 0
  const AccessRead: bv32 := 1
  const AccessReadWrite: bv32 := 3

  /** The CTL_CODE composition as the control-code enum writes it:
      device in bits 16-31, access in bits 14-15, function in bits 2-13,
      transfer method in bits 0-1. */
  function CtlCode(device: bv32, fn: bv32, transfer: bv32, access: bv32): bv32 {
    (device << 16) | (fn << 2) | transfer | (access << 14)
  }

  function DeviceOf(code: bv32): bv32 { code >> 16 }
  function AccessOf(code: bv32): bv32 { (code >> 14) & 3 }
  function FunctionOf(code: bv32): bv32 { (code >> 2) & 0xFFF }
  function TransferOf(code: bv32): bv32 { code & 3 }

  /** The four fields can be read back from a composed code when each fits its width. */
  lemma CtlCodeFields(device: bv32, fn: bv32, transfer: bv32, access: bv32)
    requires device < 0x1_0000 && fn < 0x1000 && transfer < 4 && access < 4
    ensures DeviceOf(CtlCode(device, fn, transfer, access)) == device
    ensures FunctionOf(CtlCode(device, fn, transfer, access)) == fn
    ensures TransferOf(CtlCode(device, fn, transfer, access)) == transfer
    ensures AccessOf(CtlCode(device, fn, transfer, access)) == access
  {
  }

  /** The enum members the two routines use. */
  const DiskGetPartitionInfo: bv32 := CtlCode(FileDeviceDisk, 0x0001, MethodBuffered, AccessRead)
  const DiskGetPartitionInfoEx: bv32 := CtlCode(FileDeviceDisk, 0x0012, MethodBuffered, AccessAny)
  const DiskUpdateDriveSize: bv32 := CtlCode(FileDeviceDisk, 0x0032, MethodBuffered, AccessReadWrite)
  const DiskGrowPartition: bv32 := CtlCode(FileDeviceDisk, 0x0034, MethodBuffered, AccessReadWrite)
  const DiskGetDriveLayoutEx: bv32 := CtlCode(FileDeviceDisk, 0x0014, MethodBuffered, AccessAny)
  const DiskSetDriveLayoutEx: bv32 := CtlCode(FileDeviceDisk, 0x0015, MethodBuffered, AccessReadWrite)
  const DiskCreateDisk: bv32 := CtlCode(FileDeviceDisk, 0x0016, MethodBuffered, AccessReadWrite)
  const FsctlExtendVolume: bv32 := CtlCode(FileDeviceFileSystem, 60, MethodBuffered, AccessAny)

  /** The hand-written hexadecimal constants. */
  const IoctlDiskCreateDisk: bv32 := 0x7C058
  const IoctlDiskGetPartitionInfo: bv32 := 0x74004
  const IoctlDiskUpdateProperties: bv32 := 0x70140
  const IoctlDiskGrowPartition: bv32 := 0x7C0D0
  const IoctlDiskGetDriveLayoutEx: bv32 := 0x70050
  const IoctlDiskSetDriveLayoutEx: bv32 := 0x7C054

  /** Each hexadecimal constant is the composition of its enum counterpart, and
      IOCTL_DISK_UPDATE_PROPERTIES (which has none) is function 0x50 of the disk
      device with any access. */
  lemma IoctlConstantsAreCtlCodes()
    ensures IoctlDiskCreateDisk == DiskCreateDisk
    ensures IoctlDiskSetDriveLayoutEx == DiskSetDriveLayoutEx
    ensures IoctlDiskGetPartitionInfo == DiskGetPartitionInfo
    ensures IoctlDiskGrowPartition == DiskGrowPartition
    ensures IoctlDiskGetDriveLayoutEx == DiskGetDriveLayoutEx
    ensures IoctlDiskUpdateProperties == CtlCode(FileDeviceDisk, 0x0050, MethodBuffered, AccessAny)
  {
  }

  // ------------------------------------------------------------ request records

  datatype PartitionStyle = Mbr | Gpt | Raw

  /** PARTITION_TYPE.PARTITION_IFS. */
  const PartitionIfs: byte := 0x07
  /** Where the single partition of an initialized disk starts. */
  const FirstPartitionOffset: int64 := 65536

  /** CREATE_DISK with its MBR part. */
  datatype CreateDiskInfo = CreateDiskInfo(style: PartitionStyle, signature: int32)

  /** PARTITION_INFORMATION_MBR. */
  datatype MbrPartitionInfo = MbrPartitionInfo(
    partitionType: byte,
    bootIndicator: bool,
    recognizedPartition: bool,
    hiddenSectors: int32)

  /** PARTITION_INFORMATION_EX. */
  datatype PartitionEntry = PartitionEntry(
    style: PartitionStyle,
    startingOffset: int64,
    partitionLength: int64,
    partitionNumber: int32,
    rewritePartition: bool,
    mbr: MbrPartitionInfo)

  /** DRIVE_LAYOUT_INFORMATION_EX with room for one partition entry. */
  datatype DriveLayout = DriveLayout(
    style: PartitionStyle,
    partitionCount: int32,
    signature: int32,
    partition1: PartitionEntry)

  /** A zero-initialized layout record, as `new` yields it. */
  const EmptyLayout: DriveLayout :=
    DriveLayout(Mbr, 0, 0, PartitionEntry(Mbr, 0, 0, 0, false, MbrPartitionInfo(0, false, false, 0)))

  /** DISK_GROW_PARTITION. */
  datatype GrowRequest = GrowRequest(partitionNumber: int32, bytesToGrow: int64)

  /** The payload of one control request. */
  datatype Request =
    | CreateDisk(create: CreateDiskInfo)
    | UpdateProperties
    | GetPartitionInfo
    | SetDriveLayoutEx(layout: DriveLayout)
    | GrowPartition(grow: GrowRequest)
    | UpdateDriveSize
    | GetPartitionInfoEx
    | ExtendVolume(sectors: int64)

  /** One event on a raw device: an open that yields a valid or an invalid handle,
      a control request with its code, or the close of the handle. */
  datatype IoEvent =
    | Opened(path: string)
    | OpenFailed(openPath: string)
    | Control(code: bv32, request: Request)
    | Closed(closedPath: string)

  /** What one disk answers: the length and number of the partition the handle
      addresses (GET_PARTITION_INFO), the sector size (the geometry query), and the
      partition length after growing (GET_PARTITION_INFO_EX). */
  datatype DiskAnswers = DiskAnswers(
    partitionLength: int64,
    partitionNumber: uint32,
    bytesPerSector: uint64,
    partitionLengthEx: int64)

  // ------------------------------------------------------------ pure parts

  /** BitConverter.ToInt32(bytes, 0): little-endian, two's complement. */
  function SignatureValue(bytes: seq<byte>): int32
    requires |bytes| == 4
  {
    WrapInt32(bytes[0] as int + 0x100 * bytes[1] as int + 0x1_0000 * bytes[2] as int
              + 0x100_0000 * bytes[3] as int)
  }

  /** BitConverter.GetBytes(int): the inverse encoding. */
  function SignatureBytes(n: int32): (bytes: seq<byte>)
    ensures |bytes| == 4
  {
    var u := if n < 0 then n as int + TwoTo32 else n as int;
    var u1 := u / 0x100;
    var u2 := u1 / 0x100;
    var u3 := u2 / 0x100;
    [(u % 0x100) as byte, (u1 % 0x100) as byte, (u2 % 0x100) as byte, u3 as byte]
  }

  /** Division by 256 of a number written as `low + 256 * high`. */
  lemma DivMod256(u: int, low: int, high: int)
    requires 0 <= low < 0x100 && u == low + 0x100 * high
    ensures u % 0x100 == low && u / 0x100 == high
  {
  }

  /** Decoding an encoded signature gives the number back. */
  lemma SignatureValueOfBytes(n: int32)
    ensures SignatureValue(SignatureBytes(n)) == n
  {
    var u := if n < 0 then n as int + TwoTo32 else n as int;
    var u1 := u / 0x100;
    var u2 := u1 / 0x100;
    var u3 := u2 / 0x100;
    var b := SignatureBytes(n);
    assert u == u % 0x100 + 0x100 * u1;
    assert u1 == u1 % 0x100 + 0x100 * u2;
    assert u2 == u2 % 0x100 + 0x100 * u3;
    assert b[0] as int + 0x100 * b[1] as int + 0x1_0000 * b[2] as int + 0x100_0000 * b[3] as int == u;
  }

  /** Encoding a decoded signature gives the four bytes back; so two different
      4-byte signatures never give the same disk signature. */
  lemma SignatureBytesOfValue(bytes: seq<byte>)
    requires |bytes| == 4
    ensures SignatureBytes(SignatureValue(bytes)) == bytes
  {
    var b0, b1, b2, b3 := bytes[0] as int, bytes[1] as int, bytes[2] as int, bytes[3] as int;
    var u := b0 + 0x100 * b1 + 0x1_0000 * b2 + 0x100_0000 * b3;
    assert 0 <= u < TwoTo32;
    assert u % TwoTo32 == u;
    var v := SignatureValue(bytes);
    assert (if v < 0 then v as int + TwoTo32 else v as int) == u;
    DivMod256(u, b0, b1 + 0x100 * b2 + 0x1_0000 * b3);
    DivMod256(b1 + 0x100 * b2 + 0x1_0000 * b3, b1, b2 + 0x100 * b3);
    DivMod256(b2 + 0x100 * b3, b2, b3);
    var r := SignatureBytes(v);
    assert r[0] == bytes[0] && r[1] == bytes[1] && r[2] == bytes[2] && r[3] == bytes[3];
  }

  /** The layout InitializeDisk writes, for the reported partition length and the
      disk signature, built as the routine builds it. */
  function SinglePartitionLayout(reportedLength: int64, signature: int32): DriveLayout {
    DriveLayout(Mbr, 1, signature,
      PartitionEntry(Mbr, FirstPartitionOffset,
        WrapInt64(reportedLength as int - FirstPartitionOffset as int), 1, true,
        MbrPartitionInfo(PartitionIfs, true, true, 0)))
  }

  /** The layout has exactly one partition, number 1, starting at 65536, of type
      IFS, bootable, recognized, rewritten, with no hidden sectors; it covers the
      rest of the reported length, which is exact when that length is at least
      65536. */
  lemma LayoutHasOnePartition(reportedLength: int64, signature: int32)
    ensures var l := SinglePartitionLayout(reportedLength, signature);
      l.style == Mbr && l.partitionCount == 1 && l.signature == signature &&
      l.partition1.style == Mbr && l.partition1.partitionNumber == 1 &&
      l.partition1.startingOffset == 65536 &&
      l.partition1.rewritePartition && l.partition1.mbr.partitionType == 0x07 &&
      l.partition1.mbr.bootIndicator && l.partition1.mbr.recognizedPartition &&
      l.partition1.mbr.hiddenSectors == 0 &&
      (reportedLength >= 65536 ==>
         0 <= l.partition1.partitionLength &&
         l.partition1.startingOffset as int + l.partition1.partitionLength as int == reportedLength as int)
  {
  }

  /** The requests InitializeDisk issues when none fails, in order. */
  function InitPlan(signature: int32, reportedLength: int64): seq<IoEvent> {
    [Control(IoctlDiskCreateDisk, CreateDisk(CreateDiskInfo(Mbr, signature))),
     Control(IoctlDiskUpdateProperties, UpdateProperties),
     Control(IoctlDiskGetPartitionInfo, GetPartitionInfo),
     Control(IoctlDiskSetDriveLayoutEx, SetDriveLayoutEx(SinglePartitionLayout(reportedLength, signature))),
     Control(IoctlDiskUpdateProperties, UpdateProperties)]
  }

  /** The grow record UpdateDiskPartition sends: the requested growth plus the
      current length (unchecked `long` addition), and the current partition
      number (unchecked cast of `uint` to `int`). */
  function GrowFor(growSize: int64, a: DiskAnswers): GrowRequest {
    GrowRequest(WrapInt32(a.partitionNumber as int), WrapInt64(growSize as int + a.partitionLength as int))
  }

  /** The grow record carries the current partition number and `growSize + length`
      unchanged whenever those fit their fields. */
  lemma GrowCarriesCurrentPartition(growSize: int64, a: DiskAnswers)
    ensures a.partitionNumber as int <= MaxInt32 ==>
      GrowFor(growSize, a).partitionNumber as int == a.partitionNumber as int
    ensures MinInt64 <= growSize as int + a.partitionLength as int <= MaxInt64 ==>
      GrowFor(growSize, a).bytesToGrow as int == growSize as int + a.partitionLength as int
  {
  }

  /** The extend-volume argument: the grown partition's length over the sector size
      (cast from `ulong` to `long`), as truncating `long` division, which throws
      on a zero divisor and on the one quotient that does not fit. */
  function SectorCount(lengthEx: int64, bytesPerSector: uint64): (r: Result<int64>)
    ensures r.Err? <==> WrapInt64(bytesPerSector as int) == 0 ||
                        (lengthEx as int == MinInt64 && WrapInt64(bytesPerSector as int) == -1)
    ensures WrapInt64(bytesPerSector as int) == 0 ==> r == Err(DivideByZero)
    ensures WrapInt64(bytesPerSector as int) == -1 && lengthEx as int == MinInt64 ==> r == Err(Overflow)
  {
    var d := WrapInt64(bytesPerSector as int);
    if d == 0 then Err(DivideByZero)
    else if lengthEx as int == MinInt64 && d == -1 then Err(Overflow)
    else
      var q := TruncDiv(lengthEx as int, d as int);
      assert MinInt64 <= q <= MaxInt64 by { TruncDivInRange(lengthEx as int, d as int); }
      Ok(q as int64)
  }

  /** A truncating quotient of 64-bit operands fits 64 bits, but for MinInt64 / -1. */
  lemma TruncDivInRange(a: int, b: int)
    requires MinInt64 <= a <= MaxInt64 && MinInt64 <= b <= MaxInt64 && b != 0
    requires !(a == MinInt64 && b == -1)
    ensures MinInt64 <= TruncDiv(a, b) <= MaxInt64
  {
    var na: nat := if a < 0 then -a else a;
    var nb: nat := if b < 0 then -b else b;
    var nq := na / nb;
    assert TruncDiv(a, b) == if (a < 0) == (b < 0) then nq else -nq;
    QuotientBound(na, nb);
    assert nq <= MaxInt64 || (nq == na && nb == 1);
  }

  /** A quotient of naturals is at most the dividend, and at most half of it for a
      divisor of two or more. */
  lemma QuotientBound(a: nat, b: nat)
    requires b >= 1
    ensures a / b <= a
    ensures b >= 2 ==> 2 * (a / b) <= a
    ensures b == 1 ==> a / b == a
  {
    var q := a / b;
    assert b * q + a % b == a;
    assert b * q == (b - 1) * q + q;
    assert (b - 1) * q >= 0;
    if b >= 2 {
      assert b * q == (b - 2) * q + 2 * q;
      assert (b - 2) * q >= 0;
    }
  }

  /** With a positive sector size the sector count is the length divided, rounded
      toward zero: `count * size` never exceeds a non-negative length and is
      within one sector of it. */
  lemma SectorCountIsQuotient(lengthEx: int64, bytesPerSector: uint64)
    requires 0 < bytesPerSector as int <= MaxInt64 && 0 <= lengthEx
    ensures SectorCount(lengthEx, bytesPerSector).Ok?
    ensures var n := SectorCount(lengthEx, bytesPerSector).value as int;
      0 <= n * bytesPerSector as int <= lengthEx as int < (n + 1) * bytesPerSector as int
  {
    var d := bytesPerSector as int;
    var l := lengthEx as int;
    assert WrapInt64(d) as int == d;
    var n := TruncDiv(l, d);
    assert SectorCount(lengthEx, bytesPerSector).value as int == n;
    assert 0 <= l - d * n < d;
    NonNegativeQuotient(l, d);
    assert (n + 1) * d == n * d + d;
  }

  lemma NonNegativeQuotient(a: int, b: int)
    requires a >= 0 && b > 0
    ensures TruncDiv(a, b) >= 0 && TruncDiv(a, b) * b >= 0
  {
    var q: nat := a / b;
    assert TruncDiv(a, b) == q;
    MulNonNegative(q, b);
  }

  lemma MulNonNegative(x: nat, y: nat)
    ensures x * y >= 0
  {
  }

  /** The requests UpdateDiskPartition issues before the sector count is taken. */
  function GrowPlan(growSize: int64, a: DiskAnswers): seq<IoEvent> {
    [Control(IoctlDiskGetPartitionInfo, GetPartitionInfo),
     Control(IoctlDiskGrowPartition, GrowPartition(GrowFor(growSize, a))),
     Control(IoctlDiskUpdateProperties, UpdateProperties),
     Control(DiskUpdateDriveSize, UpdateDriveSize),
     Control(DiskGetPartitionInfoEx, GetPartitionInfoEx)]
  }

  /** The number of consecutive trace positions from `base` (at most `n`) whose
      control request succeeds: the first failing position is `base + k`, unless
      k == n. */
  function PassingPrefix(base: nat, n: nat, failing: set<nat>): (k: nat)
    ensures k <= n
    ensures forall p :: base <= p < base + k ==> p !in failing
    ensures k < n ==> base + k in failing
    decreases n
  {
    if n == 0 || base in failing then 0 else 1 + PassingPrefix(base + 1, n - 1, failing)
  }

  /** The prefix length is determined by those two facts. */
  lemma PassingPrefixIs(base: nat, n: nat, failing: set<nat>, j: nat)
    requires j <= n
    requires forall p :: base <= p < base + j ==> p !in failing
    requires j < n ==> base + j in failing
    ensures PassingPrefix(base, n, failing) == j
  {
  }

  /** When requests `base .. base + j - 1` succeed and request `base + j` fails,
      the plan stops after its request `j`. */
  lemma StopsAt(plan: seq<IoEvent>, base: nat, failing: set<nat>, j: nat)
    requires j < |plan|
    requires forall p :: base <= p < base + j ==> p !in failing
    requires base + j in failing
    ensures Issued(plan, base, failing) == plan[..j + 1]
    ensures !AllPass(|plan|, base, failing)
  {
    PassingPrefixIs(base, |plan|, failing, j);
  }

  /** When every request succeeds, the whole plan is issued. */
  lemma RunsThrough(plan: seq<IoEvent>, base: nat, failing: set<nat>)
    requires forall p :: base <= p < base + |plan| ==> p !in failing
    ensures Issued(plan, base, failing) == plan
    ensures AllPass(|plan|, base, failing)
  {
    PassingPrefixIs(base, |plan|, failing, |plan|);
  }

  /** The requests a plan of controls actually issues starting at trace position
      `base`: all of them, or those up to and including the first that fails.
      No request after a failing one is issued, and nothing is undone. */
  function Issued(plan: seq<IoEvent>, base: nat, failing: set<nat>): (r: seq<IoEvent>)
    ensures r <= plan
    ensures |r| < |plan| ==> base + |r| - 1 in failing
  {
    var k := PassingPrefix(base, |plan|, failing);
    if k < |plan| then plan[..k + 1] else plan
  }

  /** Whether every request of the plan succeeds. */
  predicate AllPass(n: nat, base: nat, failing: set<nat>) {
    PassingPrefix(base, n, failing) == n
  }

  class RawDevices {
    /** The disks, by device path; a path not present gives an invalid handle. */
    const disks: map<string, DiskAnswers>
    /** The trace positions whose control request fails. */
    const failing: set<nat>
    /** Every event issued, in order. */
    var trace: seq<IoEvent>

    constructor (disks: map<string, DiskAnswers>, failing: set<nat>)
      ensures this.disks == disks && this.failing == failing && trace == []
    {
      this.disks := disks;
      this.failing := failing;
      trace := [];
    }

    /** DeviceIoControl on the open handle: records the request and answers
        whether it succeeded. */
    method Issue(code: bv32, request: Request) returns (ok: bool)
      modifies this`trace
      ensures trace == old(trace) + [Control(code, request)]
      ensures ok <==> |old(trace)| !in failing
    {
      ok := |trace| !in failing;
      trace := trace + [Control(code, request)];
    }

    /** Writes a fresh MBR with the given 4-byte signature and one IFS partition
        covering the disk from offset 65536, then refreshes the cached properties.
        The handle is closed on every exit once it was opened. */
    method InitializeDisk(path: string, signature: seq<byte>) returns (r: Outcome)
      requires |signature| == 4
      modifies this`trace
      ensures path !in disks ==> r == Fail(Win32Error) && trace == old(trace) + [OpenFailed(path)]
      ensures path in disks ==>
        var plan := InitPlan(SignatureValue(signature), disks[path].partitionLength);
        var base := |old(trace)| + 1;
        trace == old(trace) + [Opened(path)] + Issued(plan, base, failing) + [Closed(path)] &&
        r == (if AllPass(|plan|, base, failing) then Pass else Fail(Win32Error))
    {
      if path !in disks {
        trace := trace + [OpenFailed(path)];
        return Fail(Win32Error);
      }
      ghost var t0 := trace;
      trace := trace + [Opened(path)];
      ghost var base := |trace|;
      var answers := disks[path];
      ghost var plan := InitPlan(SignatureValue(signature), answers.partitionLength);
      assert trace == t0 + [Opened(path)] + plan[..0];

      var cd := CreateDiskInfo(Mbr, SignatureValue(signature));
      var ok := Step(t0, path, plan, base, 0, IoctlDiskCreateDisk, CreateDisk(cd));
      if !ok {
        return Fail(Win32Error);
      }
      ok := Step(t0, path, plan, base, 1, IoctlDiskUpdateProperties, UpdateProperties);
      if !ok {
        return Fail(Win32Error);
      }
      ok := Step(t0, path, plan, base, 2, IoctlDiskGetPartitionInfo, GetPartitionInfo);
      if !ok {
        return Fail(Win32Error);
      }
      var dli := BuildLayout(answers.partitionLength, SignatureValue(signature));
      ok := Step(t0, path, plan, base, 3, IoctlDiskSetDriveLayoutEx, SetDriveLayoutEx(dli));
      if !ok {
        return Fail(Win32Error);
      }
      ok := Step(t0, path, plan, base, 4, IoctlDiskUpdateProperties, UpdateProperties);
      if !ok {
        return Fail(Win32Error);
      }
      RunsThrough(plan, base, failing);
      assert plan[..5] == plan;
      trace := trace + [Closed(path)];
      r := Pass;
    }

    /** The layout InitializeDisk fills in field by field: one MBR partition of
        type IFS from offset 65536 to the end of the disk, bootable, with the
        signature. */
    static method BuildLayout(reportedLength: int64, signature: int32) returns (dli: DriveLayout)
      ensures dli == SinglePartitionLayout(reportedLength, signature)
    {
      dli := EmptyLayout;
      dli := dli.(style := Mbr, partitionCount := 1,
                  partition1 := dli.partition1.(style := Mbr, startingOffset := FirstPartitionOffset,
                                                rewritePartition := true));
      dli := dli.(partition1 := dli.partition1.(partitionLength :=
                  WrapInt64(reportedLength as int - dli.partition1.startingOffset as int)));
      dli := dli.(partition1 := dli.partition1.(partitionNumber := 1));
      dli := dli.(partition1 := dli.partition1.(rewritePartition := true));
      dli := dli.(partition1 := dli.partition1.(mbr := dli.partition1.mbr.(partitionType := PartitionIfs)));
      dli := dli.(partition1 := dli.partition1.(mbr := dli.partition1.mbr.(bootIndicator := true)));
      dli := dli.(partition1 := dli.partition1.(mbr := dli.partition1.mbr.(recognizedPartition := true)));
      dli := dli.(partition1 := dli.partition1.(mbr := dli.partition1.mbr.(hiddenSectors := 0)));
      dli := dli.(signature := signature);
    }

    /** Issues request `j` of a plan begun at trace position `base`; when it fails
        the handle is closed, which ends the operation's trace. */
    method Step(ghost t0: seq<IoEvent>, path: string, ghost plan: seq<IoEvent>, ghost base: nat, j: nat,
                code: bv32, request: Request) returns (ok: bool)
      requires j < |plan| && plan[j] == Control(code, request) && base == |t0| + 1
      requires trace == t0 + [Opened(path)] + plan[..j]
      requires forall p :: base <= p < base + j ==> p !in failing
      modifies this`trace
      ensures ok ==> trace == t0 + [Opened(path)] + plan[..j + 1] &&
                     forall p :: base <= p < base + j + 1 ==> p !in failing
      ensures !ok ==> trace == t0 + [Opened(path)] + Issued(plan, base, failing) + [Closed(path)] &&
                      !AllPass(|plan|, base, failing)
    {
      ok := Issue(code, request);
      assert plan[..j + 1] == plan[..j] + [plan[j]];
      if !ok {
        StopsAt(plan, base, failing, j);
        trace := trace + [Closed(path)];
      }
    }

    /** Grows the partition the handle addresses by `growSize` bytes and extends
        its file system to the new length, counted in sectors. */
    method UpdateDiskPartition(path: string, growSize: int64) returns (r: Outcome)
      modifies this`trace
      ensures path !in disks ==> r == Fail(Win32Error) && trace == old(trace) + [OpenFailed(path)]
      ensures path in disks ==>
        var a := disks[path];
        var plan := GrowPlan(growSize, a);
        var base := |old(trace)| + 1;
        var sectors := SectorCount(a.partitionLengthEx, a.bytesPerSector);
        if !AllPass(|plan|, base, failing) then
          trace == old(trace) + [Opened(path)] + Issued(plan, base, failing) + [Closed(path)] &&
          r == Fail(Win32Error)
        else if sectors.Err? then
          trace == old(trace) + [Opened(path)] + plan + [Closed(path)] &&
          r == Fail(sectors.error)
        else
          trace == old(trace) + [Opened(path)] + plan +
                   [Control(FsctlExtendVolume, ExtendVolume(sectors.value)), Closed(path)] &&
          r == (if base + |plan| in failing then Fail(Win32Error) else Pass)
    {
      if path !in disks {
        trace := trace + [OpenFailed(path)];
        return Fail(Win32Error);
      }
      ghost var t0 := trace;
      trace := trace + [Opened(path)];
      ghost var base := |trace|;
      var answers := disks[path];
      ghost var plan := GrowPlan(growSize, answers);
      assert trace == t0 + [Opened(path)] + plan[..0];

      var ok := Step(t0, path, plan, base, 0, IoctlDiskGetPartitionInfo, GetPartitionInfo);
      if !ok {
        return Fail(Win32Error);
      }
      var pi := answers;
      var grow := GrowRequest(0, 0);
      grow := grow.(bytesToGrow := WrapInt64(growSize as int + pi.partitionLength as int));
      grow := grow.(partitionNumber := WrapInt32(pi.partitionNumber as int));
      ok := Step(t0, path, plan, base, 1, IoctlDiskGrowPartition, GrowPartition(grow));
      if !ok {
        return Fail(Win32Error);
      }
      ok := Step(t0, path, plan, base, 2, IoctlDiskUpdateProperties, UpdateProperties);
      if !ok {
        return Fail(Win32Error);
      }
      ok := Step(t0, path, plan, base, 3, DiskUpdateDriveSize, UpdateDriveSize);
      if !ok {
        return Fail(Win32Error);
      }
      ok := Step(t0, path, plan, base, 4, DiskGetPartitionInfoEx, GetPartitionInfoEx);
      if !ok {
        return Fail(Win32Error);
      }
      RunsThrough(plan, base, failing);
      assert plan[..5] == plan;

      var divisor := WrapInt64(answers.bytesPerSector as int);
      if divisor == 0 {
        trace := trace + [Closed(path)];
        return Fail(DivideByZero);
      }
      if answers.partitionLengthEx as int == MinInt64 && divisor == -1 {
        trace := trace + [Closed(path)];
        return Fail(Overflow);
      }
      var length := SectorCount(answers.partitionLengthEx, answers.bytesPerSector).value;
      ok := Issue(FsctlExtendVolume, ExtendVolume(length));
      trace := trace + [Closed(path)];
      r := if ok then Pass else Fail(Win32Error);
    }
  }

  /** InitializeDisk on an openable disk on which no request fails issues exactly
      CreateDisk, UpdateProperties, GetPartitionInfo, SetDriveLayoutEx and
      UpdateProperties, and passes the same signature to the first and the fourth. */
  lemma InitPlanOrder(signature: int32, reportedLength: int64)
    ensures var p := InitPlan(signature, reportedLength);
      |p| == 5 &&
      p[0].request == CreateDisk(CreateDiskInfo(Mbr, signature)) &&
      p[1].request == UpdateProperties && p[2].request == GetPartitionInfo &&
      p[3].request.SetDriveLayoutEx? && p[3].request.layout.signature == signature &&
      p[3].request.layout == SinglePartitionLayout(reportedLength, signature) &&
      p[4].request == UpdateProperties
  {
  }

  /** Whatever fails, the requests issued are a prefix of the plan that ends at the
      first failing request: every earlier request succeeded, and when the
      operation succeeds every request was issued. */
  lemma {:induction false} IssuedStopsAtFirstFailure(plan: seq<IoEvent>, base: nat, failing: set<nat>)
    ensures var r := Issued(plan, base, failing);
      r <= plan &&
      (AllPass(|plan|, base, failing) <==> r == plan && forall p :: base <= p < base + |plan| ==> p !in failing) &&
      (!AllPass(|plan|, base, failing) ==>
         |r| >= 1 && base + |r| - 1 in failing &&
         forall p :: base <= p < base + |r| - 1 ==> p !in failing)
  {
    var k := PassingPrefix(base, |plan|, failing);
    if k < |plan| {
      assert base + k in failing;
    }
  }
}
