/** Guest RAM as `VM::initRAM` leaves it, and the contract a booting guest relies on.

The image is a list of writes at fixed addresses.  The source checks none of the sizes, so
`InitRam` asks only that every write stays inside RAM, and the lemmas say exactly which sizes keep
the writes from running into each other.  Files are byte sequences; a read of a whole file
succeeds, a read past the end fails.
*/
module GuestRam {
  import opened Addresses
  import opened Bytes
  import opened BootProtocol
  import MpTables
  import Paging

  const SECT_SIZE := 512
  const SETUP_HEADER_END := SETUP_HEADER_ADDR + HEADER_SIZE

  datatype Config = Config(
    vcpuNum: int, cmdline: seq<byte>, kernel: seq<byte>, initramfs: seq<byte>, is64BitBoot: bool)

  /** `initRAM` returned 0, returned 1, or hit `assert(!vm_conf.is_64bit_boot)`. */
  datatype Result = Success | Failure | Aborted

  /** The registers `Vcpu::InitRegs` sets, and the rest. */
  datatype Regs = Regs(rip: nat, rsi: nat, rflags: nat, others: seq<nat>)

  const RF_INIT := 2

  // ----- the inputs, as a reader of the boot protocol sees them -----

  /** `setup_sects` of a kernel file: byte 0x1f1, 0 meaning 4. */
  function FileSetupSects(kernel: seq<byte>): nat
    requires 0x1f1 < |kernel|
  {
    if kernel[0x1f1] == 0 then 4 else kernel[0x1f1]
  }

  /** The protected-mode kernel: the file behind its boot sector and setup sectors. */
  function Payload(kernel: seq<byte>): Option<seq<byte>>
    requires 0x1f1 < |kernel|
  {
    var offset := (FileSetupSects(kernel) + 1) * 512;
    if offset <= |kernel| then Some(kernel[offset..]) else None
  }

  /** A kernel file with a whole setup header and the four characters "HdrS" where the protocol wants them. */
  predicate HasHeader(kernel: seq<byte>) {
    0x26c <= |kernel| && kernel[0x202..0x206] == ['H' as int, 'd' as int, 'r' as int, 'S' as int]
  }

  /** A kernel file with a header and all its setup sectors, for a 32-bit boot. */
  predicate Loadable(c: Config) {
    HasHeader(c.kernel) && Payload(c.kernel).Some? && !c.is64BitBoot
  }

  /** Nothing to be written reaches past the end of RAM. */
  predicate Fits(c: Config, ramSize: nat) {
    && INITRAMFS_ADDR + |c.initramfs| <= ramSize
    && COMMANDLINE_ADDR + |c.cmdline| + 1 <= ramSize
    && (Loadable(c) ==> HIGHMEM_BASE + |Payload(c.kernel).value| <= ramSize)
  }

  /** The sizes at which no part can disturb another.  The command line's NUL may fall on the first byte of the
      EBDA, which is 0 as well. */
  predicate Apart(c: Config) {
    && |c.cmdline| <= EBDA_START - COMMANDLINE_ADDR
    && (Loadable(c) && c.initramfs != [] ==> HIGHMEM_BASE + |Payload(c.kernel).value| <= INITRAMFS_ADDR)
  }

  // ----- the writes -----

  function KernelHeader(kernel: seq<byte>): Header
    requires SETUP_HEADER_END <= |kernel|
  {
    kernel[SETUP_HEADER_ADDR..SETUP_HEADER_END]
  }

  predicate HeaderUsable(kernel: seq<byte>) {
    SETUP_HEADER_END <= |kernel| && IsValid(KernelHeader(kernel))
  }

  /** `(setup_sects + 1) * SECT_SIZE`, with 0 already replaced by 4. */
  function LoadOffset(kernel: seq<byte>): nat
    requires SETUP_HEADER_END <= |kernel|
  {
    (Get(WithSetupSects(KernelHeader(kernel)), SETUP_SECTS) + 1) * SECT_SIZE
  }

  function ResultOf(c: Config): Result {
    if !HeaderUsable(c.kernel) then Failure
    else if c.is64BitBoot then Aborted
    else if |c.kernel| < LoadOffset(c.kernel) then Failure
    else Success
  }

  function BootMap(ramSize: nat): (es: seq<E820Entry>)
    ensures |es| == E820_MAP_MAX
  {
    BootEntries(ramSize) + seq(E820_MAP_MAX - 4, _ => BLANK_ENTRY)
  }

  function EbdaRegion(c: Config): Region { Region(EBDA_START, MpTables.EbdaBytes(c.vcpuNum)) }
  function RamdiskRegion(c: Config): Region { Region(INITRAMFS_ADDR, c.initramfs) }
  function CmdlineRegion(c: Config): Region { Region(COMMANDLINE_ADDR, c.cmdline + [0]) }

  function BootParamsRegion(c: Config, ramSize: nat): Region
    requires HeaderUsable(c.kernel)
  {
    Region(BOOT_PARAMS_ADDR,
      BootParamsBytes(4, FinishedHeader(KernelHeader(c.kernel), |c.initramfs|), BootMap(ramSize)))
  }

  function KernelRegion(c: Config): Region
    requires ResultOf(c) == Success
  {
    Region(HIGHMEM_BASE, c.kernel[LoadOffset(c.kernel)..])
  }

  /** What is written before the kernel's header is looked at. */
  function FirstWrites(c: Config): seq<Region> {
    [EbdaRegion(c)] + [RamdiskRegion(c)] + [CmdlineRegion(c)]
  }

  /** The writes `initRAM` makes before it returns, in its order. */
  function Writes(c: Config, ramSize: nat): seq<Region> {
    if !HeaderUsable(c.kernel) then FirstWrites(c)
    else if ResultOf(c) == Success then FirstWrites(c) + [BootParamsRegion(c, ramSize)] + [KernelRegion(c)]
    else FirstWrites(c) + [BootParamsRegion(c, ramSize)]
  }

  lemma Positions(a: Region, b: Region, c: Region, d: Region, e: Region)
    ensures var ws := [a] + [b] + [c]; |ws| == 3 && ws[0] == a && ws[1] == b && ws[2] == c
    ensures var ws := [a] + [b] + [c] + [d]; |ws| == 4 && ws[0] == a && ws[1] == b && ws[2] == c && ws[3] == d
    ensures var ws := [a] + [b] + [c] + [d] + [e];
      |ws| == 5 && ws[0] == a && ws[1] == b && ws[2] == c && ws[3] == d && ws[4] == e
  {
  }

  lemma WriteOrder(c: Config, ramSize: nat)
    ensures var ws := Writes(c, ramSize);
      && |ws| == (if ResultOf(c) == Success then 5 else if HeaderUsable(c.kernel) then 4 else 3)
      && ws[0] == EbdaRegion(c) && ws[1] == RamdiskRegion(c) && ws[2] == CmdlineRegion(c)
      && (HeaderUsable(c.kernel) ==> ws[3] == BootParamsRegion(c, ramSize))
      && (ResultOf(c) == Success ==> ws[4] == KernelRegion(c))
  {
    var params := if HeaderUsable(c.kernel) then BootParamsRegion(c, ramSize) else Region(0, []);
    var kernel := if ResultOf(c) == Success then KernelRegion(c) else Region(0, []);
    Positions(EbdaRegion(c), RamdiskRegion(c), CmdlineRegion(c), params, kernel);
  }

  // ----- initRAM -----

  method WriteRegion(ram: array<byte>, r: Region, ghost m0: seq<byte>, ghost done: seq<Region>)
    requires r.End() <= ram.Length == |m0| && AllFit(done, |m0|) && ram[..] == ApplyAll(m0, done)
    modifies ram
    ensures AllFit(done + [r], |m0|) && ram[..] == ApplyAll(m0, done + [r])
  {
    ApplyOneMore(m0, done, r);
    CopyInto(ram, r.addr, r.bytes);
  }

  method FillMap(bp: BootParams, ramSize: nat)
    requires bp.Valid() && bp.e820Entries == 0 && forall i :: 0 <= i < E820_MAP_MAX ==> bp.e820map[i] == BLANK_ENTRY
    modifies bp`e820Entries, bp.e820map
    ensures bp.Valid() && bp.e820Entries == 4 && bp.e820map[..] == BootMap(ramSize)
  {
    bp.AddE820Entry(REALMODE_IVT_START, EBDA_START - REALMODE_IVT_START, E820_TYPE_RAM);
    bp.AddE820Entry(EBDA_START, VGARAM_START - EBDA_START, E820_TYPE_RESERVED);
    bp.AddE820Entry(MBBIOS_START, MBBIOS_SIZE, E820_TYPE_RESERVED);
    bp.AddE820Entry(HIGHMEM_BASE, (ramSize - HIGHMEM_BASE) % TWO_TO_THE_64, E820_TYPE_RAM);
  }

  /** One `bp.header.<field> = v` of the seven. */
  method Assign(bp: BootParams, f: Field, v: nat, ghost h: Header, ghost all: seq<Assignment>, ghost i: nat)
    requires i < |all| && all[i] == Assignment(f, v) && bp.header == SetAll(h, all[..i])
    modifies bp`header
    ensures bp.header == SetAll(h, all[..i + 1])
  {
    assert all[..i + 1][..i] == all[..i];
    bp.SetField(f, v);
  }

  method AssignModes(bp: BootParams, ghost h: Header, ghost all: seq<Assignment>)
    requires |all| >= 3 && bp.header == h
    requires all[0] == Assignment(VID_MODE, BOOT_HDR_VID_MODE_NML)
    requires all[1] == Assignment(TYPE_OF_LOADER, BOOT_HDR_BLT_UNDEFINED)
    requires all[2] == Assignment(LOADFLAGS, BOOT_HDR_LOADFLAGS)
    modifies bp`header
    ensures bp.header == SetAll(h, all[..3])
  {
    assert all[..0] == [];
    Assign(bp, VID_MODE, BOOT_HDR_VID_MODE_NML, h, all, 0);
    Assign(bp, TYPE_OF_LOADER, BOOT_HDR_BLT_UNDEFINED, h, all, 1);
    Assign(bp, LOADFLAGS, BOOT_HDR_LOADFLAGS, h, all, 2);
  }

  method AssignRamdisk(bp: BootParams, ramdiskSize: nat, ghost h: Header, ghost all: seq<Assignment>)
    requires |all| == 7 && bp.header == SetAll(h, all[..3])
    requires all[3] == Assignment(RAMDISK_IMAGE, INITRAMFS_ADDR)
    requires all[4] == Assignment(RAMDISK_SIZE, ramdiskSize % 0x1_0000_0000)
    modifies bp`header
    ensures bp.header == SetAll(h, all[..5])
  {
    Assign(bp, RAMDISK_IMAGE, INITRAMFS_ADDR, h, all, 3);
    Assign(bp, RAMDISK_SIZE, ramdiskSize % 0x1_0000_0000, h, all, 4);
  }

  method AssignPointers(bp: BootParams, ghost h: Header, ghost all: seq<Assignment>)
    requires |all| == 7 && bp.header == SetAll(h, all[..5])
    requires all[5] == Assignment(HEAP_END_PTR, BOOT_PARAMS_ADDR - BOOT_HDR_HEAPEND_OFFSET)
    requires all[6] == Assignment(CMD_LINE_PTR, COMMANDLINE_ADDR)
    modifies bp`header
    ensures bp.header == SetAll(h, all)
  {
    Assign(bp, HEAP_END_PTR, BOOT_PARAMS_ADDR - BOOT_HDR_HEAPEND_OFFSET, h, all, 5);
    Assign(bp, CMD_LINE_PTR, COMMANDLINE_ADDR, h, all, 6);
    assert all[..7] == all;
  }

  method FinishHeader(bp: BootParams, ramdiskSize: nat)
    modifies bp`header
    ensures bp.header == SetAll(old(bp.header), LoaderAssignments(ramdiskSize))
  {
    ghost var h, all := bp.header, LoaderAssignments(ramdiskSize);
    AssignModes(bp, h, all);
    AssignRamdisk(bp, ramdiskSize, h, all);
    AssignPointers(bp, h, all);
  }

  method BuildBootParams(c: Config, ramSize: nat) returns (bp: BootParams)
    requires HeaderUsable(c.kernel)
    ensures fresh(bp) && fresh(bp.e820map) && bp.Valid()
    ensures bp.header == FinishedHeader(KernelHeader(c.kernel), |c.initramfs|)
    ensures bp.Contents() == BootParamsRegion(c, ramSize).bytes
  {
    bp := new BootParams();
    bp.LoadHeader(KernelHeader(c.kernel));
    var _ := bp.CheckSetupSects();
    FillMap(bp, ramSize);
    FinishHeader(bp, |c.initramfs|);
  }

  method WriteFirst(ram: array<byte>, c: Config)
    requires c.vcpuNum <= MpTables.MP_MAX_VCPU_NUM
    requires EbdaRegion(c).End() <= ram.Length && RamdiskRegion(c).End() <= ram.Length
    requires CmdlineRegion(c).End() <= ram.Length
    modifies ram
    ensures AllFit(FirstWrites(c), ram.Length) && ram[..] == ApplyAll(old(ram[..]), FirstWrites(c))
  {
    ghost var m0 := ram[..];
    var ebda := MpTables.GenEbda(c.vcpuNum);
    WriteRegion(ram, Region(EBDA_START, ebda), m0, []);
    assert [] + [EbdaRegion(c)] == [EbdaRegion(c)];
    WriteRegion(ram, RamdiskRegion(c), m0, [EbdaRegion(c)]);
    WriteCmdline(ram, c, m0, [EbdaRegion(c)] + [RamdiskRegion(c)]);
  }

  lemma FitParts(a: Region, b: Region, c: Region, d: Region, e: Region, size: nat)
    ensures var fits := a.End() <= size && b.End() <= size && c.End() <= size;
      && (AllFit([a] + [b] + [c], size) <==> fits)
      && (AllFit([a] + [b] + [c] + [d], size) <==> fits && d.End() <= size)
      && (AllFit([a] + [b] + [c] + [d] + [e], size) <==> fits && d.End() <= size && e.End() <= size)
  {
    Positions(a, b, c, d, e);
    var three, four, five := [a] + [b] + [c], [a] + [b] + [c] + [d], [a] + [b] + [c] + [d] + [e];
    assert AllFit(three, size) ==> three[0].End() <= size && three[1].End() <= size && three[2].End() <= size;
    assert AllFit(four, size) <==> AllFit(three, size) && four[3].End() <= size;
    assert AllFit(five, size) <==> AllFit(four, size) && five[4].End() <= size;
  }

  lemma WritesFit(c: Config, ramSize: nat)
    ensures AllFit(Writes(c, ramSize), ramSize)
       <==> EbdaRegion(c).End() <= ramSize && RamdiskRegion(c).End() <= ramSize && CmdlineRegion(c).End() <= ramSize
            && (HeaderUsable(c.kernel) ==> BootParamsRegion(c, ramSize).End() <= ramSize)
            && (ResultOf(c) == Success ==> KernelRegion(c).End() <= ramSize)
  {
    var params := if HeaderUsable(c.kernel) then BootParamsRegion(c, ramSize) else Region(0, []);
    var kernel := if ResultOf(c) == Success then KernelRegion(c) else Region(0, []);
    FitParts(EbdaRegion(c), RamdiskRegion(c), CmdlineRegion(c), params, kernel, ramSize);
  }

  lemma LoadableSucceeds(c: Config)
    ensures ResultOf(c) == Success <==> Loadable(c)
    ensures Loadable(c) ==> KernelRegion(c) == Region(HIGHMEM_BASE, Payload(c.kernel).value)
  {
    ResultExplained(c);
    if SETUP_HEADER_END <= |c.kernel| {
      FileFields(c.kernel);
    }
  }

  /** `Fits` is exactly what it takes for every write to stay in RAM. */
  lemma FitsExactly(c: Config, ramSize: nat)
    ensures Fits(c, ramSize) <==> AllFit(Writes(c, ramSize), ramSize)
  {
    LoadableSucceeds(c);
    WritesFit(c, ramSize);
  }

  /** `VM::initRAM`.  The only demands are the source's own: the processor array holds 32, and no write
      leaves the mapping. */
  method InitRam(ram: array<byte>, c: Config) returns (result: Result)
    requires c.vcpuNum <= MpTables.MP_MAX_VCPU_NUM && Fits(c, ram.Length)
    modifies ram
    ensures AllFit(Writes(c, ram.Length), ram.Length)
    ensures ram[..] == ApplyAll(old(ram[..]), Writes(c, ram.Length))
    ensures result == if !HasHeader(c.kernel) then Failure else if c.is64BitBoot then Aborted
      else if Loadable(c) then Success else Failure
  {
    ghost var m0 := ram[..];
    ResultExplained(c);
    FitsExactly(c, ram.Length);
    WritesFit(c, ram.Length);
    WriteFirst(ram, c);
    if |c.kernel| < SETUP_HEADER_END {
      return Failure;
    }
    if !IsValid(KernelHeader(c.kernel)) {
      return Failure;
    }
    result := WriteRest(ram, c, m0);
  }

  /** From `boot_params bp` on, once the header has been found valid. */
  method WriteRest(ram: array<byte>, c: Config, ghost m0: seq<byte>) returns (result: Result)
    requires HeaderUsable(c.kernel) && ram.Length == |m0|
    requires AllFit(FirstWrites(c), |m0|) && ram[..] == ApplyAll(m0, FirstWrites(c))
    requires BootParamsRegion(c, |m0|).End() <= |m0| && (ResultOf(c) == Success ==> KernelRegion(c).End() <= |m0|)
    modifies ram
    ensures AllFit(Writes(c, |m0|), |m0|) && ram[..] == ApplyAll(m0, Writes(c, |m0|))
    ensures result == ResultOf(c)
  {
    var bp := BuildBootParams(c, ram.Length);
    WriteRegion(ram, Region(BOOT_PARAMS_ADDR, bp.Contents()), m0, FirstWrites(c));
    if c.is64BitBoot {
      return Aborted;
    }
    SetupSectsKept(c);
    result := LoadKernel(ram, c, Get(bp.header, SETUP_SECTS), m0);
  }

  /** `setupSects` is the finished header's; the payload follows that many sectors and the boot sector. */
  method LoadKernel(ram: array<byte>, c: Config, setupSects: nat, ghost m0: seq<byte>) returns (result: Result)
    requires HeaderUsable(c.kernel) && !c.is64BitBoot && (setupSects + 1) * SECT_SIZE == LoadOffset(c.kernel)
    requires |m0| == ram.Length && AllFit(FirstWrites(c) + [BootParamsRegion(c, |m0|)], |m0|)
    requires ram[..] == ApplyAll(m0, FirstWrites(c) + [BootParamsRegion(c, |m0|)])
    requires ResultOf(c) == Success ==> KernelRegion(c).End() <= |m0|
    modifies ram
    ensures AllFit(Writes(c, |m0|), |m0|) && ram[..] == ApplyAll(m0, Writes(c, |m0|))
    ensures result == ResultOf(c)
  {
    var offset := (setupSects + 1) * SECT_SIZE;
    if |c.kernel| < offset {
      return Failure;
    }
    WriteRegion(ram, Region(HIGHMEM_BASE, c.kernel[offset..]), m0, FirstWrites(c) + [BootParamsRegion(c, |m0|)]);
    result := Success;
  }

  /** The command line, then its terminating NUL. */
  method WriteCmdline(ram: array<byte>, c: Config, ghost m0: seq<byte>, ghost done: seq<Region>)
    requires CmdlineRegion(c).End() <= ram.Length == |m0|
    requires AllFit(done, |m0|) && ram[..] == ApplyAll(m0, done)
    modifies ram
    ensures AllFit(done + [CmdlineRegion(c)], |m0|) && ram[..] == ApplyAll(m0, done + [CmdlineRegion(c)])
  {
    ApplyOneMore(m0, done, CmdlineRegion(c));
    CopyInto(ram, COMMANDLINE_ADDR, c.cmdline);
    ram[COMMANDLINE_ADDR + |c.cmdline|] := 0;
    assert ram[..] == Overwrite(ApplyAll(m0, done), COMMANDLINE_ADDR, c.cmdline + [0]);
  }

  lemma SetupSectsKept(c: Config)
    requires HeaderUsable(c.kernel)
    ensures Get(FinishedHeader(KernelHeader(c.kernel), |c.initramfs|), SETUP_SECTS)
         == Get(WithSetupSects(KernelHeader(c.kernel)), SETUP_SECTS)
  {
    FinishedFields(KernelHeader(c.kernel), |c.initramfs|, SETUP_SECTS);
    SetupSectsField(KernelHeader(c.kernel), SETUP_SECTS);
  }

  // ----- what a booting guest reads -----

  predicate NulFree(s: seq<byte>) {
    forall i :: 0 <= i < |s| ==> s[i] != 0
  }

  /** The NUL-terminated string at `a`. */
  function ReadString(m: seq<byte>, a: nat): Option<seq<byte>>
    decreases |m| - a
  {
    if a >= |m| then None
    else if m[a] == 0 then Some([])
    else match ReadString(m, a + 1) case None => None case Some(rest) => Some([m[a]] + rest)
  }

  function ReadEntry(m: seq<byte>, a: nat): E820Entry
    requires a + 20 <= |m|
  {
    E820Entry(Load(m, a, 8), Load(m, a + 8, 8), Load(m, a + 16, 4))
  }

  function ReadEntries(m: seq<byte>, a: nat, count: nat): Option<seq<E820Entry>>
    decreases count
  {
    if count == 0 then Some([])
    else if a + 20 > |m| then None
    else
      match ReadEntries(m, a + 20, count - 1)
      case None => None
      case Some(rest) => Some([ReadEntry(m, a)] + rest)
  }

  /** What the 32-bit boot protocol lets a kernel learn from the `boot_params` that RSI points to. */
  datatype View = View(
    cmdline: Option<seq<byte>>, ramdisk: Option<seq<byte>>, e820: Option<seq<E820Entry>>, setupSects: nat)

  function ReadRamdisk(m: seq<byte>, image: nat, size: nat): Option<seq<byte>> {
    if image + size <= |m| then Some(m[image..image + size]) else None
  }

  function ReadView(m: seq<byte>, rsi: nat): Option<View> {
    if rsi + BOOT_PARAMS_SIZE > |m| then None
    else Some(View(
      ReadString(m, Load(m, rsi + 0x228, 4)),
      ReadRamdisk(m, Load(m, rsi + 0x218, 4), Load(m, rsi + 0x21c, 4)),
      ReadEntries(m, rsi + 0x2d0, m[rsi + 0x1e8]),
      m[rsi + 0x1f1]))
  }

  // ----- when the parts of the image hold together -----

  lemma Separate(r: Region, s: Region)
    requires r.End() <= s.addr || s.End() <= r.addr || r.bytes == [] || s.bytes == []
    ensures Agree(r, s) && Agree(s, r)
  {
  }

  /** The only two parts that can share a byte. */
  lemma NulOnPadding(ebda: Region, cmdline: Region)
    requires ebda.addr == EBDA_START && ebda.bytes != [] && ebda.bytes[0] == 0
    requires cmdline.bytes != [] && cmdline.End() <= EBDA_START + 1 && cmdline.bytes[|cmdline.bytes| - 1] == 0
    ensures Agree(ebda, cmdline)
  {
  }

  lemma RegionsAgree(ebda: Region, ramdisk: Region, cmdline: Region, params: Region, kernel: Region)
    requires ebda.addr == EBDA_START && ebda.bytes != [] && ebda.End() <= VGARAM_START && ebda.bytes[0] == 0
    requires ramdisk.addr == INITRAMFS_ADDR
    requires cmdline.addr == COMMANDLINE_ADDR && cmdline.bytes != [] && cmdline.bytes[|cmdline.bytes| - 1] == 0
    requires cmdline.End() <= EBDA_START + 1
    requires params.addr == BOOT_PARAMS_ADDR && params.End() <= COMMANDLINE_ADDR
    requires kernel.addr == HIGHMEM_BASE && (kernel.End() <= INITRAMFS_ADDR || ramdisk.bytes == [])
    ensures AllAgree([ebda] + [ramdisk] + [cmdline])
    ensures AllAgree([ebda] + [ramdisk] + [cmdline] + [params])
    ensures AllAgree([ebda] + [ramdisk] + [cmdline] + [params] + [kernel])
  {
    NulOnPadding(ebda, cmdline);
    Separate(ebda, ramdisk);
    Separate(ramdisk, cmdline);
    Separate(ebda, params);
    Separate(ramdisk, params);
    Separate(cmdline, params);
    Separate(ebda, kernel);
    Separate(ramdisk, kernel);
    Separate(cmdline, kernel);
    Separate(params, kernel);
  }

  lemma ApartAgrees(c: Config, ramSize: nat)
    requires Apart(c)
    ensures AllAgree(Writes(c, ramSize))
  {
    LoadableSucceeds(c);
    var params := if HeaderUsable(c.kernel) then BootParamsRegion(c, ramSize) else Region(BOOT_PARAMS_ADDR, []);
    var kernel := if ResultOf(c) == Success then KernelRegion(c) else Region(HIGHMEM_BASE, []);
    RegionsAgree(EbdaRegion(c), RamdiskRegion(c), CmdlineRegion(c), params, kernel);
  }

  /** Every part of the image is in memory, whole. */
  ghost predicate Survives(m0: seq<byte>, c: Config) {
    var ws := Writes(c, |m0|);
    AllFit(ws, |m0|) && AllPresent(ApplyAll(m0, ws), ws)
  }

  function WithFiles(c: Config, cmdline: seq<byte>, initramfs: seq<byte>): Config {
    c.(cmdline := cmdline, initramfs := initramfs)
  }

  lemma Clash(rs: seq<Region>, j: nat, k: nat, i: nat)
    requires j < k < |rs| && rs[j].Covers(i) && rs[k].Covers(i)
    requires rs[j].bytes[i - rs[j].addr] != rs[k].bytes[i - rs[k].addr]
    ensures !AllAgree(rs)
  {
    assert !Agree(rs[j], rs[k]);
  }

  function Filler(n: nat): (bs: seq<byte>)
    ensures |bs| == n && NulFree(bs)
  {
    seq(n, _ => 'A' as int)
  }

  /** No write of the image disturbs another, whichever way `initRAM` ends. */
  lemma ImageSurvives(m0: seq<byte>, c: Config)
    requires Fits(c, |m0|) && Apart(c)
    ensures Survives(m0, c)
  {
    FitsExactly(c, |m0|);
    ApartAgrees(c, |m0|);
    SurviveIffAgree(m0, Writes(c, |m0|));
  }

  /** `initRAM` checks no size.  With a given kernel and given lengths, the image is whole for every command line
      and initramfs exactly when the lengths are `Apart`. */
  lemma SurvivesIffApart(m0: seq<byte>, c: Config)
    requires Fits(c, |m0|)
    ensures Apart(c) <==> forall cmdline: seq<byte>, initramfs: seq<byte> ::
      |cmdline| == |c.cmdline| && |initramfs| == |c.initramfs| ==> Survives(m0, WithFiles(c, cmdline, initramfs))
  {
    if Apart(c) {
      forall cmdline: seq<byte>, initramfs: seq<byte> | |cmdline| == |c.cmdline| && |initramfs| == |c.initramfs|
        ensures Survives(m0, WithFiles(c, cmdline, initramfs))
      {
        ImageSurvives(m0, WithFiles(c, cmdline, initramfs));
      }
    } else {
      var cmdline, initramfs := Overrun(c, |m0|);
      FitsExactly(WithFiles(c, cmdline, initramfs), |m0|);
      SurviveIffAgree(m0, Writes(WithFiles(c, cmdline, initramfs), |m0|));
    }
  }

  /** Files of the same lengths that do run into each other. */
  lemma Overrun(c: Config, ramSize: nat) returns (cmdline: seq<byte>, initramfs: seq<byte>)
    requires !Apart(c)
    ensures |cmdline| == |c.cmdline| && |initramfs| == |c.initramfs|
    ensures !AllAgree(Writes(WithFiles(c, cmdline, initramfs), ramSize))
  {
    cmdline, initramfs := c.cmdline, c.initramfs;
    if |c.cmdline| > EBDA_START - COMMANDLINE_ADDR {
      cmdline := Filler(|c.cmdline|);
      CmdlineOverruns(WithFiles(c, cmdline, initramfs), ramSize);
    } else {
      var differs: byte := if Payload(c.kernel).value[INITRAMFS_ADDR - HIGHMEM_BASE] == 0 then 1 else 0;
      initramfs := initramfs[0 := differs];
      KernelOverruns(WithFiles(c, cmdline, initramfs), ramSize);
    }
  }

  lemma CmdlineClashes(ws: seq<Region>, cmdline: seq<byte>)
    requires |ws| >= 3 && ws[0].addr == EBDA_START && ws[0].bytes != [] && ws[0].bytes[0] == 0
    requires ws[2] == Region(COMMANDLINE_ADDR, cmdline + [0])
    requires |cmdline| > EBDA_START - COMMANDLINE_ADDR && NulFree(cmdline)
    ensures !AllAgree(ws)
  {
    Clash(ws, 0, 2, EBDA_START);
  }

  lemma KernelClashes(ws: seq<Region>)
    requires |ws| == 5 && ws[1].addr == INITRAMFS_ADDR && ws[1].bytes != []
    requires ws[4].addr == HIGHMEM_BASE && ws[4].End() > INITRAMFS_ADDR
    requires ws[1].bytes[0] != ws[4].bytes[INITRAMFS_ADDR - HIGHMEM_BASE]
    ensures !AllAgree(ws)
  {
    Clash(ws, 1, 4, INITRAMFS_ADDR);
  }

  lemma CmdlineOverruns(c: Config, ramSize: nat)
    requires |c.cmdline| > EBDA_START - COMMANDLINE_ADDR && NulFree(c.cmdline)
    ensures !AllAgree(Writes(c, ramSize))
  {
    WriteOrder(c, ramSize);
    CmdlineClashes(Writes(c, ramSize), c.cmdline);
  }

  lemma KernelOverruns(c: Config, ramSize: nat)
    requires Loadable(c) && c.initramfs != [] && HIGHMEM_BASE + |Payload(c.kernel).value| > INITRAMFS_ADDR
    requires c.initramfs[0] != Payload(c.kernel).value[INITRAMFS_ADDR - HIGHMEM_BASE]
    ensures !AllAgree(Writes(c, ramSize))
  {
    LoadableSucceeds(c);
    WriteOrder(c, ramSize);
    KernelClashes(Writes(c, ramSize));
  }

  // ----- what the reader makes of each part -----

  lemma {:induction false} StringReads(m: seq<byte>, a: nat, s: seq<byte>)
    requires a + |s| + 1 <= |m| && m[a..a + |s| + 1] == s + [0]
    requires forall i :: 0 <= i < |s| ==> s[i] != 0
    ensures ReadString(m, a) == Some(s)
    decreases |s|
  {
    var whole := s + [0];
    assert m[a..a + |s| + 1][0] == whole[0] == m[a];
    if s != [] {
      SliceOfSlice(m, a, whole, 1, |s|);
      assert whole[1..1 + |s|] == s[1..] + [0];
      StringReads(m, a + 1, s[1..]);
      assert s == [s[0]] + s[1..];
    }
  }

  predicate EntryInRange(e: E820Entry) {
    e.addr < TWO_TO_THE_64 && e.size < TWO_TO_THE_64 && e.kind < 0x1_0000_0000
  }

  lemma EntryReads(m: seq<byte>, a: nat, e: E820Entry)
    requires a + 20 <= |m| && m[a..a + 20] == EntryBytes(e) && EntryInRange(e)
    ensures ReadEntry(m, a) == e
  {
    ConcatParts(LE(8, e.addr), LE(8, e.size), LE(4, e.kind));
    SliceOfSlice(m, a, EntryBytes(e), 0, 8);
    SliceOfSlice(m, a, EntryBytes(e), 8, 8);
    SliceOfSlice(m, a, EntryBytes(e), 16, 4);
    Pow256Values();
    DecodeEncode(8, e.addr);
    DecodeEncode(8, e.size);
    DecodeEncode(4, e.kind);
  }

  lemma ReadOneEntry(m: seq<byte>, a: nat, count: nat, rest: seq<E820Entry>)
    requires a + 20 <= |m| && ReadEntries(m, a + 20, count) == Some(rest)
    ensures ReadEntries(m, a, count + 1) == Some([ReadEntry(m, a)] + rest)
  {
  }

  lemma {:induction false} EntriesRead(m: seq<byte>, a: nat, es: seq<E820Entry>, count: nat)
    requires count <= |es| && a + 20 * |es| <= |m| && m[a..a + 20 * |es|] == MapBytes(es)
    requires forall i :: 0 <= i < |es| ==> EntryInRange(es[i])
    ensures ReadEntries(m, a, count) == Some(es[..count])
    decreases count
  {
    if count > 0 {
      SliceOfSlice(m, a, MapBytes(es), 0, 20);
      SliceOfSlice(m, a, MapBytes(es), 20, 20 * |es[1..]|);
      EntryReads(m, a, es[0]);
      EntriesRead(m, a + 20, es[1..], count - 1);
      ReadOneEntry(m, a, count - 1, es[1..][..count - 1]);
      assert es[..count] == [es[0]] + es[1..][..count - 1];
    }
  }

  lemma ParamsRead(m: seq<byte>, a: nat, entries: byte, h: Header, es: seq<E820Entry>)
    requires |es| == E820_MAP_MAX && a + BOOT_PARAMS_SIZE <= |m|
    requires m[a..a + BOOT_PARAMS_SIZE] == BootParamsBytes(entries, h, es)
    ensures m[a + 0x1e8] == entries
    ensures m[a + SETUP_HEADER_ADDR..a + SETUP_HEADER_ADDR + HEADER_SIZE] == h
    ensures m[a + 0x2d0..a + 0x2d0 + 20 * E820_MAP_MAX] == MapBytes(es)
  {
    var bs := BootParamsBytes(entries, h, es);
    var front := Zeros(0x1e8) + [entries] + Zeros(8);
    var gap := Zeros(0x290 - 0x1f1 - HEADER_SIZE) + Zeros(64);
    ConcatParts(front, h, gap + MapBytes(es));
    ConcatParts(front + h, gap, MapBytes(es));
    assert bs == front + h + gap + MapBytes(es);
    SliceOfSlice(m, a, bs, 0x1e8, 1);
    assert bs[0x1e8] == front[0x1e8] == entries;
    assert m[a + 0x1e8] == m[a..a + BOOT_PARAMS_SIZE][0x1e8];
    SliceOfSlice(m, a, bs, SETUP_HEADER_ADDR, HEADER_SIZE);
    SliceOfSlice(m, a, bs, 0x2d0, 20 * E820_MAP_MAX);
  }

  /** The guest reads header field `f` at the protocol's offset, `at` bytes into the structure or the file. */
  lemma FieldReads(m: seq<byte>, a: nat, h: Header, f: nat, at: nat, width: nat)
    requires f < HEADER_FIELDS && at == SETUP_HEADER_ADDR + At(f) && width == Width(f)
    requires a + SETUP_HEADER_END <= |m| && m[a + SETUP_HEADER_ADDR..a + SETUP_HEADER_END] == h
    ensures a + at + width <= |m| && Load(m, a + at, width) == Get(h, f)
  {
    FieldFits(f);
    LoadInside(m, a + SETUP_HEADER_ADDR, h, At(f), width);
  }

  /** The three pointers and `setup_sects`, read at the offsets the boot protocol gives them. */
  lemma PointersRead(m: seq<byte>, rsi: nat, h: Header)
    requires rsi + SETUP_HEADER_END <= |m| && m[rsi + SETUP_HEADER_ADDR..rsi + SETUP_HEADER_END] == h
    ensures Load(m, rsi + 0x228, 4) == Get(h, CMD_LINE_PTR) && Load(m, rsi + 0x218, 4) == Get(h, RAMDISK_IMAGE)
    ensures Load(m, rsi + 0x21c, 4) == Get(h, RAMDISK_SIZE) && m[rsi + 0x1f1] == Get(h, SETUP_SECTS)
  {
    HeaderOffsets(CMD_LINE_PTR);
    HeaderOffsets(RAMDISK_IMAGE);
    HeaderOffsets(RAMDISK_SIZE);
    HeaderOffsets(SETUP_SECTS);
    FieldReads(m, rsi, h, CMD_LINE_PTR, 0x228, 4);
    FieldReads(m, rsi, h, RAMDISK_IMAGE, 0x218, 4);
    FieldReads(m, rsi, h, RAMDISK_SIZE, 0x21c, 4);
    FieldReads(m, rsi, h, SETUP_SECTS, 0x1f1, 1);
    OneByte(m, rsi + 0x1f1);
  }

  lemma FinishedPointers(h: Header, ramdiskSize: nat)
    ensures var finished := FinishedHeader(h, ramdiskSize);
      && Get(finished, CMD_LINE_PTR) == COMMANDLINE_ADDR && Get(finished, RAMDISK_IMAGE) == INITRAMFS_ADDR
      && Get(finished, RAMDISK_SIZE) == ramdiskSize % 0x1_0000_0000
      && Get(finished, SETUP_SECTS) == FinishedField(h, ramdiskSize, SETUP_SECTS)
  {
    FinishedFields(h, ramdiskSize, CMD_LINE_PTR);
    FinishedFields(h, ramdiskSize, RAMDISK_IMAGE);
    FinishedFields(h, ramdiskSize, RAMDISK_SIZE);
    FinishedFields(h, ramdiskSize, SETUP_SECTS);
  }

  lemma OneByte(m: seq<byte>, a: nat)
    requires a < |m|
    ensures Load(m, a, 1) == m[a]
  {
    assert m[a..a + 1] == [m[a]];
    assert FromLE([m[a]]) == m[a] + 256 * FromLE([m[a]][1..]);
  }

  lemma ParamsView(m: seq<byte>, rsi: nat, h: Header, es: seq<E820Entry>, ramdiskSize: nat)
    requires |es| == E820_MAP_MAX && rsi + BOOT_PARAMS_SIZE <= |m|
    requires m[rsi..rsi + BOOT_PARAMS_SIZE] == BootParamsBytes(4, FinishedHeader(h, ramdiskSize), es)
    requires forall i :: 0 <= i < |es| ==> EntryInRange(es[i])
    ensures ReadView(m, rsi) == Some(View(
      ReadString(m, COMMANDLINE_ADDR),
      ReadRamdisk(m, INITRAMFS_ADDR, ramdiskSize % 0x1_0000_0000),
      Some(es[..4]),
      FinishedField(h, ramdiskSize, SETUP_SECTS)))
  {
    ParamsRead(m, rsi, 4, FinishedHeader(h, ramdiskSize), es);
    assert rsi + SETUP_HEADER_ADDR + HEADER_SIZE == rsi + 0x26c;
    PointersRead(m, rsi, FinishedHeader(h, ramdiskSize));
    FinishedPointers(h, ramdiskSize);
    assert 20 * |es| == 20 * E820_MAP_MAX;
    EntriesRead(m, rsi + 0x2d0, es, 4);
    ViewParts(m, rsi, ramdiskSize % 0x1_0000_0000, es[..4]);
  }

  lemma ViewParts(m: seq<byte>, rsi: nat, size: nat, es: seq<E820Entry>)
    requires rsi + BOOT_PARAMS_SIZE <= |m|
    requires Load(m, rsi + 0x228, 4) == COMMANDLINE_ADDR && Load(m, rsi + 0x218, 4) == INITRAMFS_ADDR
    requires Load(m, rsi + 0x21c, 4) == size && ReadEntries(m, rsi + 0x2d0, m[rsi + 0x1e8]) == Some(es)
    ensures ReadView(m, rsi) == Some(View(
      ReadString(m, COMMANDLINE_ADDR), ReadRamdisk(m, INITRAMFS_ADDR, size), Some(es), m[rsi + 0x1f1]))
  {
  }

  lemma PartsPresent(m: seq<byte>, c: Config, ramSize: nat)
    requires AllPresent(m, Writes(c, ramSize))
    ensures Present(m, EbdaRegion(c)) && Present(m, RamdiskRegion(c)) && Present(m, CmdlineRegion(c))
    ensures HeaderUsable(c.kernel) ==> Present(m, BootParamsRegion(c, ramSize))
    ensures ResultOf(c) == Success ==> Present(m, KernelRegion(c))
  {
    WriteOrder(c, ramSize);
  }

  lemma BootMapInRange(ramSize: nat)
    ensures forall i :: 0 <= i < E820_MAP_MAX ==> EntryInRange(BootMap(ramSize)[i])
    ensures BootMap(ramSize)[..4] == BootEntries(ramSize)
  {
  }

  lemma RamdiskReads(m: seq<byte>, ramdisk: seq<byte>)
    requires |ramdisk| < 0x1_0000_0000 && Present(m, Region(INITRAMFS_ADDR, ramdisk))
    ensures ReadRamdisk(m, INITRAMFS_ADDR, |ramdisk| % 0x1_0000_0000) == Some(ramdisk)
  {
  }

  lemma CmdlineReads(m: seq<byte>, cmdline: seq<byte>)
    requires NulFree(cmdline) && Present(m, Region(COMMANDLINE_ADDR, cmdline + [0]))
    ensures ReadString(m, COMMANDLINE_ADDR) == Some(cmdline)
  {
    var r := Region(COMMANDLINE_ADDR, cmdline + [0]);
    assert r.End() == COMMANDLINE_ADDR + |cmdline| + 1;
    StringReads(m, COMMANDLINE_ADDR, cmdline);
  }

  lemma ViewFrom(m: seq<byte>, rsi: nat, cmdline: seq<byte>, ramdisk: seq<byte>, h: Header, es: seq<E820Entry>)
    requires |es| == E820_MAP_MAX && forall i :: 0 <= i < |es| ==> EntryInRange(es[i])
    requires NulFree(cmdline) && |ramdisk| < 0x1_0000_0000
    requires Present(m, Region(rsi, BootParamsBytes(4, FinishedHeader(h, |ramdisk|), es)))
    requires Present(m, Region(COMMANDLINE_ADDR, cmdline + [0])) && Present(m, Region(INITRAMFS_ADDR, ramdisk))
    ensures ReadView(m, rsi)
         == Some(View(Some(cmdline), Some(ramdisk), Some(es[..4]), FinishedField(h, |ramdisk|, SETUP_SECTS)))
  {
    var r := Region(rsi, BootParamsBytes(4, FinishedHeader(h, |ramdisk|), es));
    assert r.End() == rsi + BOOT_PARAMS_SIZE;
    ParamsView(m, rsi, h, es, |ramdisk|);
    CmdlineReads(m, cmdline);
    RamdiskReads(m, ramdisk);
  }

  lemma FileFields(kernel: seq<byte>)
    requires SETUP_HEADER_END <= |kernel|
    ensures Get(KernelHeader(kernel), SETUP_SECTS) == kernel[0x1f1]
    ensures Get(KernelHeader(kernel), HEADER_MAGIC) == Load(kernel, 0x202, 4)
    ensures FinishedField(KernelHeader(kernel), 0, SETUP_SECTS) == FileSetupSects(kernel)
    ensures LoadOffset(kernel) == (FileSetupSects(kernel) + 1) * 512
  {
    HeaderOffsets(SETUP_SECTS);
    HeaderOffsets(HEADER_MAGIC);
    FieldReads(kernel, 0, KernelHeader(kernel), SETUP_SECTS, 0x1f1, 1);
    FieldReads(kernel, 0, KernelHeader(kernel), HEADER_MAGIC, 0x202, 4);
    OneByte(kernel, 0x1f1);
    SetupSectsField(KernelHeader(kernel), SETUP_SECTS);
  }

  lemma MagicBytes()
    ensures LE(4, BOOT_HDR_MAGIC) == ['H' as int, 'd' as int, 'r' as int, 'S' as int]
  {
    assert LE(1, 0x53) == [0x53] && LE(2, 0x5372) == [0x72, 0x53] && LE(3, 0x5372_64) == [0x64, 0x72, 0x53];
  }

  /** The test of `is_valid` passes exactly on the signature's four characters. */
  lemma ValidIffHdrS(kernel: seq<byte>)
    requires SETUP_HEADER_END <= |kernel|
    ensures IsValid(KernelHeader(kernel))
       <==> kernel[0x202..0x206] == ['H' as int, 'd' as int, 'r' as int, 'S' as int]
  {
    FileFields(kernel);
    MagicBytes();
    Pow256Values();
    var signature := kernel[0x202..0x202 + 4];
    EncodeDecode(signature);
    DecodeEncode(4, BOOT_HDR_MAGIC);
  }

  /** `initRAM` succeeds exactly for a loadable kernel; the assertion on the boot mode comes before the setup
      sectors are looked at. */
  lemma ResultExplained(c: Config)
    ensures HeaderUsable(c.kernel) <==> HasHeader(c.kernel)
    ensures ResultOf(c) == Success <==> Loadable(c)
    ensures ResultOf(c) == Aborted <==> HasHeader(c.kernel) && c.is64BitBoot
  {
    if SETUP_HEADER_END <= |c.kernel| {
      ValidIffHdrS(c.kernel);
      FileFields(c.kernel);
    }
  }

  /** Header field `f` as a guest reads it from `boot_params` at `rsi`, by the protocol's offsets alone. */
  function GuestField(m: seq<byte>, rsi: nat, f: nat): nat
    requires f < 39 && rsi + 0x26c <= |m|
  {
    OffsetInRange(f);
    Load(m, rsi + PublishedOffset(f), PublishedOffset(f + 1) - PublishedOffset(f))
  }

  lemma OffsetInRange(f: nat)
    requires f < 39
    ensures 0x1f1 <= PublishedOffset(f) < PublishedOffset(f + 1) <= 0x26c
  {
  }

  /** What the header must say, field by field: the loader's seven values, a `setup_sects` that is never 0, and for
      the rest what the kernel file says. */
  function ExpectedField(kernel: seq<byte>, ramdiskSize: nat, f: nat): nat
    requires f < 39 && 0x26c <= |kernel|
  {
    var at := PublishedOffset(f);
    if at == 0x1fa then 0xffff
    else if at == 0x210 then 0xff
    else if at == 0x211 then 0xc1
    else if at == 0x218 then 0xf00_0000
    else if at == 0x21c then ramdiskSize % 0x1_0000_0000
    else if at == 0x224 then 0xfe00
    else if at == 0x228 then 0x2_0000
    else if at == 0x1f1 then FileSetupSects(kernel)
    else GuestField(kernel, 0, f)
  }

  ghost predicate HeaderSays(m: seq<byte>, rsi: nat, kernel: seq<byte>, ramdiskSize: nat)
    requires 0x26c <= |kernel|
  {
    rsi + 0x26c <= |m| &&
    forall f: nat :: f < 39 ==> GuestField(m, rsi, f) == ExpectedField(kernel, ramdiskSize, f)
  }

  /** All of `boot_params` but the entry count, the header and the four map entries is 0. */
  predicate RestIsZero(params: seq<byte>) {
    forall i :: 0 <= i < |params| && i != 0x1e8 && !(0x1f1 <= i < 0x26c) && !(0x2d0 <= i < 0x320) ==> params[i] == 0
  }

  /** What a guest finds that follows the pointers of the `boot_params` at `rsi`. */
  ghost predicate ParamsContract(m: seq<byte>, rsi: nat, c: Config, ramSize: nat)
    requires 0x26c <= |c.kernel|
  {
    && ReadView(m, rsi)
       == Some(View(Some(c.cmdline), Some(c.initramfs), Some(BootEntries(ramSize)), FileSetupSects(c.kernel)))
    && HeaderSays(m, rsi, c.kernel, |c.initramfs|)
    && rsi + 0xcd0 <= |m| && RestIsZero(m[rsi..rsi + 0xcd0])
  }

  /** What a guest entered with registers `entry` finds: its parameters at RSI, its code at RIP. */
  ghost predicate BootContract(m: seq<byte>, entry: Regs, c: Config, ramSize: nat)
    requires 0x26c <= |c.kernel|
  {
    && ParamsContract(m, entry.rsi, c, ramSize)
    && Payload(c.kernel).Some? && Present(m, Region(entry.rip, Payload(c.kernel).value))
  }

  predicate Entered(regs: Regs) {
    regs.rip == 0x10_0000 && regs.rsi == 0x1_0000
  }

  lemma GuestFieldIs(m: seq<byte>, rsi: nat, h: Header, f: nat)
    requires f < 39 && rsi + SETUP_HEADER_END <= |m|
    requires m[rsi + SETUP_HEADER_ADDR..rsi + SETUP_HEADER_END] == h
    ensures GuestField(m, rsi, f) == Get(h, f)
  {
    HeaderOffsets(f);
    NextOffset(f);
    FieldReads(m, rsi, h, f, PublishedOffset(f), Width(f));
  }

  lemma FieldHandedOver(m: seq<byte>, rsi: nat, kernel: seq<byte>, ramdiskSize: nat, f: nat)
    requires f < 39 && SETUP_HEADER_END <= |kernel| && rsi + SETUP_HEADER_END <= |m|
    requires m[rsi + SETUP_HEADER_ADDR..rsi + SETUP_HEADER_END] == FinishedHeader(KernelHeader(kernel), ramdiskSize)
    ensures GuestField(m, rsi, f) == ExpectedField(kernel, ramdiskSize, f)
  {
    GuestFieldIs(m, rsi, FinishedHeader(KernelHeader(kernel), ramdiskSize), f);
    GuestFieldIs(kernel, 0, KernelHeader(kernel), f);
    FinishedFields(KernelHeader(kernel), ramdiskSize, f);
    OffsetsIdentify(f);
    FileFields(kernel);
  }

  lemma HeaderHandedOver(m: seq<byte>, rsi: nat, kernel: seq<byte>, ramdiskSize: nat)
    requires SETUP_HEADER_END <= |kernel| && rsi + SETUP_HEADER_END <= |m|
    requires m[rsi + SETUP_HEADER_ADDR..rsi + SETUP_HEADER_END] == FinishedHeader(KernelHeader(kernel), ramdiskSize)
    ensures HeaderSays(m, rsi, kernel, ramdiskSize)
  {
    forall f: nat | f < 39 ensures GuestField(m, rsi, f) == ExpectedField(kernel, ramdiskSize, f) {
      FieldHandedOver(m, rsi, kernel, ramdiskSize, f);
    }
  }

  predicate ZeroFrom(bytes: seq<byte>, n: nat) {
    forall i :: n <= i < |bytes| ==> bytes[i] == 0
  }

  lemma BlankTail(ramSize: nat)
    ensures ZeroFrom(MapBytes(BootMap(ramSize)), 80)
  {
    var es := BootMap(ramSize);
    var bytes := MapBytes(es);
    MapBytesFrom(es, 4);
    BlankMap(es[4..]);
    forall i | 80 <= i < |bytes| ensures bytes[i] == 0 {
      assert bytes[80..][i - 80] == bytes[i];
    }
  }

  lemma ParamsOtherwiseZero(entries: byte, h: Header, map128: seq<E820Entry>)
    requires |map128| == E820_MAP_MAX
    requires ZeroFrom(MapBytes(map128), 80)
    ensures RestIsZero(BootParamsBytes(entries, h, map128))
  {
    var front, entriesBytes := Zeros(0x1e8) + [entries] + Zeros(8), MapBytes(map128);
    var gap := Zeros(0x290 - 0x1f1 - HEADER_SIZE) + Zeros(64);
    var bs := BootParamsBytes(entries, h, map128);
    assert bs == front + h + gap + entriesBytes;
    assert |front| == 0x1f1 && |gap| == 100;
    assert forall k :: 0 <= k < |front| && k != 0x1e8 ==> front[k] == 0;
    assert forall k :: 0 <= k < |gap| ==> gap[k] == 0;
    ZeroAround(front, h, gap, entriesBytes);
  }

  lemma ZeroAround(front: seq<byte>, h: Header, gap: seq<byte>, entriesBytes: seq<byte>)
    requires |front| == 0x1f1 && |gap| == 100
    requires forall k :: 0 <= k < |front| && k != 0x1e8 ==> front[k] == 0
    requires forall k :: 0 <= k < |gap| ==> gap[k] == 0
    requires ZeroFrom(entriesBytes, 80)
    ensures RestIsZero(front + h + gap + entriesBytes)
  {
    var bs := front + h + gap + entriesBytes;
    forall i | 0 <= i < |bs| && i != 0x1e8 && !(0x1f1 <= i < 0x26c) && !(0x2d0 <= i < 0x320) ensures bs[i] == 0 {
      if i < 0x1f1 {
        assert bs[i] == front[i];
      } else if i < 0x2d0 {
        assert bs[i] == gap[i - 0x26c];
      } else {
        assert bs[i] == entriesBytes[i - 0x2d0];
      }
    }
  }

  /** Header and padding, wherever the finished structure lies. */
  lemma HeaderAndRest(m: seq<byte>, rsi: nat, kernel: seq<byte>, ramdiskSize: nat, ramSize: nat)
    requires SETUP_HEADER_END <= |kernel|
    requires var h := FinishedHeader(KernelHeader(kernel), ramdiskSize);
      Present(m, Region(rsi, BootParamsBytes(4, h, BootMap(ramSize))))
    ensures HeaderSays(m, rsi, kernel, ramdiskSize)
    ensures rsi + 0xcd0 <= |m| && RestIsZero(m[rsi..rsi + 0xcd0])
  {
    var h := FinishedHeader(KernelHeader(kernel), ramdiskSize);
    var r := Region(rsi, BootParamsBytes(4, h, BootMap(ramSize)));
    assert r.End() == rsi + BOOT_PARAMS_SIZE;
    ParamsRead(m, rsi, 4, h, BootMap(ramSize));
    HeaderHandedOver(m, rsi, kernel, ramdiskSize);
    BlankTail(ramSize);
    ParamsOtherwiseZero(4, h, BootMap(ramSize));
  }

  lemma ParamsMeetContract(m: seq<byte>, c: Config, ramSize: nat)
    requires HeaderUsable(c.kernel)
    requires Present(m, BootParamsRegion(c, ramSize)) && Present(m, CmdlineRegion(c)) && Present(m, RamdiskRegion(c))
    requires NulFree(c.cmdline) && |c.initramfs| < 0x1_0000_0000
    ensures ParamsContract(m, BOOT_PARAMS_ADDR, c, ramSize)
  {
    BootMapInRange(ramSize);
    ViewFrom(m, BOOT_PARAMS_ADDR, c.cmdline, c.initramfs, KernelHeader(c.kernel), BootMap(ramSize));
    SetupSectsShown(c.kernel, |c.initramfs|);
    HeaderAndRest(m, BOOT_PARAMS_ADDR, c.kernel, |c.initramfs|, ramSize);
  }

  lemma SetupSectsShown(kernel: seq<byte>, ramdiskSize: nat)
    requires SETUP_HEADER_END <= |kernel|
    ensures FinishedField(KernelHeader(kernel), ramdiskSize, SETUP_SECTS) == FileSetupSects(kernel)
  {
    FileFields(kernel);
    OffsetsIdentify(SETUP_SECTS);
  }

  lemma {:induction false} ReadsNulFree(m: seq<byte>, a: nat)
    ensures ReadString(m, a).Some? ==> NulFree(ReadString(m, a).value)
    decreases |m| - a
  {
    if a < |m| && m[a] != 0 {
      ReadsNulFree(m, a + 1);
    }
  }

  /** No memory at all lets a guest read back a command line with a NUL in it, or 4 GiB of initramfs. */
  lemma ContractLimits(m: seq<byte>, rsi: nat, c: Config, ramSize: nat)
    requires 0x26c <= |c.kernel| && ParamsContract(m, rsi, c, ramSize)
    ensures NulFree(c.cmdline) && |c.initramfs| < 0x1_0000_0000
  {
    ReadsNulFree(m, Load(m, rsi + 0x228, 4));
    EncodeDecode(m[rsi + 0x21c..rsi + 0x21c + 4]);
    Pow256Values();
  }

  lemma ParamsExactly(m: seq<byte>, c: Config, ramSize: nat)
    requires HasHeader(c.kernel) && AllPresent(m, Writes(c, ramSize))
    ensures ParamsContract(m, 0x1_0000, c, ramSize) <==> NulFree(c.cmdline) && |c.initramfs| < 0x1_0000_0000
  {
    ResultExplained(c);
    if NulFree(c.cmdline) && |c.initramfs| < 0x1_0000_0000 {
      PartsPresent(m, c, ramSize);
      ParamsMeetContract(m, c, ramSize);
    }
    if ParamsContract(m, 0x1_0000, c, ramSize) {
      ContractLimits(m, 0x1_0000, c, ramSize);
    }
  }

  lemma ContractExactly(m: seq<byte>, entry: Regs, c: Config, ramSize: nat)
    requires Entered(entry) && Loadable(c) && AllPresent(m, Writes(c, ramSize))
    ensures BootContract(m, entry, c, ramSize) <==> NulFree(c.cmdline) && |c.initramfs| < 0x1_0000_0000
  {
    LoadableSucceeds(c);
    PartsPresent(m, c, ramSize);
    ParamsExactly(m, c, ramSize);
  }

  /** However `initRAM` ends, what it was to write by then is there: the MP tables, the initramfs and the command line
      always, and once the kernel's header was found good the `boot_params` too. */
  lemma LoadedSoFar(m0: seq<byte>, c: Config)
    requires Fits(c, |m0|) && Apart(c)
    requires 0 <= c.vcpuNum <= MpTables.MP_MAX_VCPU_NUM
    ensures AllFit(Writes(c, |m0|), |m0|)
    ensures var m := ApplyAll(m0, Writes(c, |m0|));
      && MpTables.Describes(m, 0x9_fc00, c.vcpuNum)
      && m[0xf00_0000..0xf00_0000 + |c.initramfs|] == c.initramfs
      && (NulFree(c.cmdline) ==> ReadString(m, 0x2_0000) == Some(c.cmdline))
      && (HasHeader(c.kernel) ==>
            (ParamsContract(m, 0x1_0000, c, |m0|) <==> NulFree(c.cmdline) && |c.initramfs| < 0x1_0000_0000))
  {
    ImageSurvives(m0, c);
    var m := ApplyAll(m0, Writes(c, |m0|));
    PartsPresent(m, c, |m0|);
    EbdaReads(m, c);
    assert RamdiskRegion(c).End() == 0xf00_0000 + |c.initramfs|;
    if NulFree(c.cmdline) {
      CmdlineReads(m, c.cmdline);
    }
    if HasHeader(c.kernel) {
      ParamsExactly(m, c, |m0|);
    }
  }

  lemma Uncovered(m0: seq<byte>, ws: seq<Region>, i: nat)
    requires AllFit(ws, |m0|) && i < |m0| && 3 <= |ws| <= 5
    requires !ws[0].Covers(i) && !ws[1].Covers(i) && !ws[2].Covers(i)
    requires |ws| >= 4 ==> !ws[3].Covers(i)
    requires |ws| >= 5 ==> !ws[4].Covers(i)
    ensures ApplyAll(m0, ws)[i] == m0[i]
  {
    forall k | 0 <= k < |ws| ensures !ws[k].Covers(i) {
      assert k == 0 || k == 1 || k == 2 || k == 3 || k == 4;
    }
    UncoveredUnchanged(m0, ws, i);
  }

  /** However `initRAM` ends, and whatever the sizes, it touches nothing else. */
  lemma NothingElse(m0: seq<byte>, c: Config, i: nat)
    requires Fits(c, |m0|) && i < |m0|
    requires !(0x9_fc00 <= i < 0x9_fc00 + 748) && !(0xf00_0000 <= i < 0xf00_0000 + |c.initramfs|)
    requires !(0x2_0000 <= i < 0x2_0000 + |c.cmdline| + 1)
    requires HasHeader(c.kernel) ==> !(0x1_0000 <= i < 0x1_0cd0)
    requires Loadable(c) ==> !(0x10_0000 <= i < 0x10_0000 + |Payload(c.kernel).value|)
    ensures AllFit(Writes(c, |m0|), |m0|) && ApplyAll(m0, Writes(c, |m0|))[i] == m0[i]
  {
    FitsExactly(c, |m0|);
    LoadableSucceeds(c);
    ResultExplained(c);
    WriteOrder(c, |m0|);
    Uncovered(m0, Writes(c, |m0|), i);
  }

  /** The loader contract: after a successful `initRAM`, following the header's pointers from RSI gives back the
      exact command line, initramfs, e820 map and kernel payload if and only if the command line has no NUL and
      the initramfs length fits its 32-bit field; the MP tables read back as requested. */
  lemma LoaderContract(m0: seq<byte>, entry: Regs, c: Config)
    requires Entered(entry)
    requires Fits(c, |m0|) && Apart(c) && Loadable(c)
    requires 0 <= c.vcpuNum <= MpTables.MP_MAX_VCPU_NUM
    ensures AllFit(Writes(c, |m0|), |m0|)
    ensures var m := ApplyAll(m0, Writes(c, |m0|));
      && (BootContract(m, entry, c, |m0|) <==> NulFree(c.cmdline) && |c.initramfs| < 0x1_0000_0000)
      && MpTables.Describes(m, 0x9_fc00, c.vcpuNum)
  {
    ImageSurvives(m0, c);
    var m := ApplyAll(m0, Writes(c, |m0|));
    PartsPresent(m, c, |m0|);
    ContractExactly(m, entry, c, |m0|);
    EbdaReads(m, c);
  }

  lemma OverwritePresent(m: seq<byte>, r: Region)
    requires Present(m, r)
    ensures Overwrite(m, r.addr, r.bytes) == m
  {
    var n := |r.bytes|;
    assert m == m[..r.addr] + m[r.addr..r.addr + n] + m[r.addr + n..];
  }

  lemma EbdaReads(m: seq<byte>, c: Config)
    requires 0 <= c.vcpuNum <= MpTables.MP_MAX_VCPU_NUM && Present(m, EbdaRegion(c))
    ensures MpTables.Describes(m, 0x9_fc00, c.vcpuNum)
  {
    assert EbdaRegion(c).End() == EBDA_START + MpTables.EBDA_SIZE;
    OverwritePresent(m, EbdaRegion(c));
    MpTables.RoundTrip(m, c.vcpuNum);
  }

  /** The image does not depend on the order of the writes, and touches nothing else. */
  lemma ImageIsItsRegions(m0: seq<byte>, c: Config, order: seq<Region>, i: nat)
    requires Fits(c, |m0|) && Apart(c) && i < |m0|
    requires forall r :: r in Writes(c, |m0|) <==> r in order
    ensures AllFit(Writes(c, |m0|), |m0|) && AllFit(order, |m0|)
    ensures ApplyAll(m0, order) == ApplyAll(m0, Writes(c, |m0|))
    ensures (forall r :: r in order ==> !r.Covers(i)) ==> ApplyAll(m0, order)[i] == m0[i]
  {
    FitsExactly(c, |m0|);
    ApartAgrees(c, |m0|);
    OrderIrrelevant(m0, Writes(c, |m0|), order);
    if forall r :: r in order ==> !r.Covers(i) {
      UncoveredUnchanged(m0, order, i);
    }
  }

  // ----- preparing a guest -----

  /** How many vCPUs come before the first whose register ioctls fail. */
  function SetUp(ok: seq<bool>): (n: nat)
    ensures n <= |ok| && (forall i :: 0 <= i < n ==> ok[i]) && (n < |ok| ==> !ok[n])
  {
    if ok == [] || !ok[0] then 0 else 1 + SetUp(ok[1..])
  }

  /** `VM::initVcpuRegs`; `ok[i]` says whether the ioctls of `InitRegs` succeed for vCPU `i`. */
  method InitVcpuRegs(vcpus: array<Regs>, ok: seq<bool>) returns (r: int)
    requires |ok| == vcpus.Length
    modifies vcpus
    ensures forall i :: 0 <= i < vcpus.Length ==>
      vcpus[i] ==
        if i < SetUp(ok) then old(vcpus[i]).(rip := 0x10_0000, rsi := 0x1_0000, rflags := 2)
        else old(vcpus[i])
    ensures r == if SetUp(ok) == vcpus.Length then 0 else 1
  {
    for i := 0 to vcpus.Length
      invariant i <= SetUp(ok)
      invariant forall k :: 0 <= k < vcpus.Length ==>
        vcpus[k] ==
          if k < i then old(vcpus[k]).(rip := HIGHMEM_BASE, rsi := BOOT_PARAMS_ADDR, rflags := RF_INIT)
          else old(vcpus[k])
    {
      if !ok[i] {
        return 1;
      }
      vcpus[i] := vcpus[i].(rip := HIGHMEM_BASE);
      vcpus[i] := vcpus[i].(rsi := BOOT_PARAMS_ADDR);
      vcpus[i] := vcpus[i].(rflags := RF_INIT);
    }
    r := 0;
  }

  /** The loader contract for every vCPU, with its exact condition. */
  ghost predicate AllStart(m: seq<byte>, entries: seq<Regs>, c: Config) {
    0x26c <= |c.kernel| && forall i :: 0 <= i < |entries| ==>
      (BootContract(m, entries[i], c, |m|) <==> NulFree(c.cmdline) && |c.initramfs| < 0x1_0000_0000)
  }

  lemma EveryEntry(m0: seq<byte>, m: seq<byte>, entries: seq<Regs>, c: Config)
    requires forall i :: 0 <= i < |entries| ==> Entered(entries[i])
    requires Fits(c, |m0|) && Apart(c) && Loadable(c)
    requires AllFit(Writes(c, |m0|), |m0|) && m == ApplyAll(m0, Writes(c, |m0|))
    ensures AllStart(m, entries, c)
  {
    ImageSurvives(m0, c);
    forall i | 0 <= i < |entries|
      ensures BootContract(m, entries[i], c, |m|) <==> NulFree(c.cmdline) && |c.initramfs| < 0x1_0000_0000
    {
      ContractExactly(m, entries[i], c, |m|);
    }
  }

  /** What `main` does before `Boot`: `initMachine` sets the registers and asserts 32-bit boot, then `initRAM`.
      `initMachine` only looks for negative results, so a register failure does not stop it; on success exactly the
      vCPUs before the first failure were set up, and they start under the loader contract. */
  method PrepareGuest(ram: array<byte>, vcpus: array<Regs>, c: Config, ok: seq<bool>) returns (result: Result)
    requires vcpus.Length == c.vcpuNum <= MpTables.MP_MAX_VCPU_NUM && |ok| == vcpus.Length && Fits(c, ram.Length)
    modifies ram, vcpus
    ensures result == if c.is64BitBoot then Aborted else if Loadable(c) then Success else Failure
    ensures c.is64BitBoot ==> ram[..] == old(ram[..])
    ensures result == Success && Apart(c) ==> AllStart(ram[..], vcpus[..SetUp(ok)], c)
    ensures forall i :: SetUp(ok) <= i < vcpus.Length ==> vcpus[i] == old(vcpus[i])
  {
    ghost var m0 := ram[..];
    var _ := InitVcpuRegs(vcpus, ok);
    ghost var entries := vcpus[..SetUp(ok)];
    assert forall i :: 0 <= i < |entries| ==> Entered(entries[i]);
    if c.is64BitBoot {
      return Aborted;
    }
    result := InitRam(ram, c);
    assert vcpus[..SetUp(ok)] == entries;
    ResultExplained(c);
    if result == Success && Apart(c) {
      EveryEntry(m0, ram[..], entries, c);
    }
  }

  // ----- the image with a page table -----

  /** What `createPageTable(BOOT_PAGETABLE_BASE)` writes. */
  function TableRegion(): Region {
    Region(BOOT_PAGETABLE_BASE, Paging.TableBytes(BOOT_PAGETABLE_BASE))
  }

  lemma AgreesWithAll(rs: seq<Region>, r: Region)
    requires AllAgree(rs) && forall j :: 0 <= j < |rs| ==> rs[j].End() <= r.addr || r.End() <= rs[j].addr
    ensures AllAgree(rs + [r])
  {
    forall j | 0 <= j < |rs| ensures Agree(rs[j], r) {
      Separate(rs[j], r);
    }
  }

  lemma TableIsApart(ws: seq<Region>, table: Region)
    requires |ws| == 5 && table.addr == BOOT_PAGETABLE_BASE && table.End() <= EBDA_START
    requires ws[0].addr == EBDA_START && ws[1].addr == INITRAMFS_ADDR && ws[4].addr == HIGHMEM_BASE
    requires ws[2].End() <= BOOT_PAGETABLE_BASE && ws[3].End() <= BOOT_PAGETABLE_BASE
    requires AllAgree(ws)
    ensures AllAgree(ws + [table])
  {
    AgreesWithAll(ws, table);
  }

  /** With a command line that ends below the page table, the table agrees with every other part. */
  lemma TableAgrees(c: Config, ramSize: nat)
    requires Apart(c) && Loadable(c) && |c.cmdline| < BOOT_PAGETABLE_BASE - COMMANDLINE_ADDR
    ensures AllAgree(Writes(c, ramSize) + [TableRegion()])
  {
    ApartAgrees(c, ramSize);
    LoadableSucceeds(c);
    WriteOrder(c, ramSize);
    TableIsApart(Writes(c, ramSize), TableRegion());
  }

  /** Were the 64-bit path open, the page table `createPageTable` adds would leave the rest of the image alone:
      whatever the order of the writes, the loader contract and the MP tables hold, and with the CR3 that
      `InitSregs` loads the first 4 GiB are mapped onto themselves. */
  lemma ImageWithPageTable(m0: seq<byte>, entry: Regs, c: Config, order: seq<Region>, physSize: nat)
    requires Entered(entry)
    requires Fits(c, |m0|) && Apart(c) && Loadable(c)
    requires |c.cmdline| < BOOT_PAGETABLE_BASE - COMMANDLINE_ADDR
    requires NulFree(c.cmdline) && |c.initramfs| < 0x1_0000_0000
    requires 0 <= c.vcpuNum <= MpTables.MP_MAX_VCPU_NUM
    requires forall r :: r in order <==> r in Writes(c, |m0|) || r == TableRegion()
    requires |m0| <= physSize && Paging.TWO_TO_THE_32 <= physSize <= Paging.TWO_TO_THE_52
    ensures AllFit(Writes(c, |m0|), |m0|) && AllFit(order, |m0|)
    ensures ApplyAll(m0, order) == Paging.WithTable(ApplyAll(m0, Writes(c, |m0|)), 0x3_0000)
    ensures var m := ApplyAll(m0, order);
      && BootContract(m, entry, c, |m0|)
      && MpTables.Describes(m, 0x9_fc00, c.vcpuNum)
      && Paging.MapsFirst4GiB(m, 0x3_0000, physSize)
  {
    FitsExactly(c, |m0|);
    TableAgrees(c, |m0|);
    AnyTimeWrite(m0, Writes(c, |m0|), TableRegion(), order);
    var m := ApplyAll(m0, order);
    PartsPresent(m, c, |m0|);
    ContractExactly(m, entry, c, |m0|);
    EbdaReads(m, c);
    Paging.IdentityMapIffAligned(|m0|, BOOT_PAGETABLE_BASE, physSize);
  }
}
