/** The packed structures of the Linux boot protocol in include/boot.hpp and the e820 map.

Field offsets are not written down: they are summed from the declared field widths, and
`HeaderOffsets` checks them against the protocol's published offsets, which are all that a
guest's reader knows.
*/
module BootProtocol {
  import opened Addresses
  import opened Bytes
  import MpTables
  import Paging

  const SETUP_HEADER_ADDR := 0x1f1
  const BOOT_HDR_MAGIC := 0x5372_6448  // 'S' 'r' 'd' 'H', last character lowest
  const BOOT_HDR_VID_MODE_NML := 0xffff
  const BOOT_HDR_BLT_UNDEFINED := 0xff
  const BOOT_HDR_LOADFLAGS := 0xc1  // LF_HIGH, LF_KEEP_SGMT and LF_HEAP
  const BOOT_HDR_HEAPEND_OFFSET := 0x200

  const E820_TYPE_RAM := 1
  const E820_TYPE_RESERVED := 2
  const E820_MAP_MAX := 128

  // ----- packed layouts -----

  /** The width of each field of `setup_header`, in order. */
  function Width(f: nat): (w: nat)
    ensures 1 <= w <= 8
  {
    match f
    case 0 => 1  // setup_sects
    case 1 => 2  // root_flags
    case 2 => 4  // sys_size
    case 3 => 2  // ram_size
    case 4 => 2  // vid_mode
    case 5 => 2  // root_dev
    case 6 => 2  // boot_flag
    case 7 => 2  // jump
    case 8 => 4  // header
    case 9 => 2  // version
    case 10 => 4  // realmode_swtch
    case 11 => 2  // start_sys_seg
    case 12 => 2  // kernel_version
    case 13 => 1  // type_of_loader
    case 14 => 1  // loadflags
    case 15 => 2  // setup_move_size
    case 16 => 4  // code32_start
    case 17 => 4  // ramdisk_image
    case 18 => 4  // ramdisk_size
    case 19 => 4  // bootsect_kludge
    case 20 => 2  // heap_end_ptr
    case 21 => 1  // ext_loader_ver
    case 22 => 1  // ext_loader_type
    case 23 => 4  // cmd_line_ptr
    case 24 => 4  // initrd_addr_max
    case 25 => 4  // kernel_alignment
    case 26 => 1  // relocatable_kernel
    case 27 => 1  // min_alignment
    case 28 => 2  // xloadflags
    case 29 => 4  // cmdline_size
    case 30 => 4  // hardware_subarch
    case 31 => 8  // hardware_subarch_data
    case 32 => 4  // payload_offset
    case 33 => 4  // payload_length
    case 34 => 8  // setup_data
    case 35 => 8  // pref_address
    case 36 => 4  // init_size
    case 37 => 4  // handover_offset
    case _ => 4  // kernel_info_offset
  }

  const SETUP_SECTS := 0
  const VID_MODE := 4
  const HEADER_MAGIC := 8
  const TYPE_OF_LOADER := 13
  const LOADFLAGS := 14
  const RAMDISK_IMAGE := 17
  const RAMDISK_SIZE := 18
  const HEAP_END_PTR := 20
  const CMD_LINE_PTR := 23
  const HEADER_FIELDS := 39
  const HEADER_SIZE := 123

  type Header = h: seq<byte> | |h| == HEADER_SIZE witness Zeros(HEADER_SIZE)

  /** The offset of field `f`: the widths before it. */
  function At(f: nat): nat {
    if f == 0 then 0 else At(f - 1) + Width(f - 1)
  }

  lemma {:induction false} FieldsDoNotOverlap(i: nat, j: nat)
    requires i < j
    ensures At(i) + Width(i) <= At(j)
  {
    if i + 1 < j {
      FieldsDoNotOverlap(i, j - 1);
    }
  }

  /** Where the boot protocol publishes each field, counted from the start of `boot_params`, and where the header
      ends. */
  function PublishedOffset(f: nat): nat {
    match f
    case 0 => 0x1f1
    case 1 => 0x1f2
    case 2 => 0x1f4
    case 3 => 0x1f8
    case 4 => 0x1fa
    case 5 => 0x1fc
    case 6 => 0x1fe
    case 7 => 0x200
    case 8 => 0x202
    case 9 => 0x206
    case 10 => 0x208
    case 11 => 0x20c
    case 12 => 0x20e
    case 13 => 0x210
    case 14 => 0x211
    case 15 => 0x212
    case 16 => 0x214
    case 17 => 0x218
    case 18 => 0x21c
    case 19 => 0x220
    case 20 => 0x224
    case 21 => 0x226
    case 22 => 0x227
    case 23 => 0x228
    case 24 => 0x22c
    case 25 => 0x230
    case 26 => 0x234
    case 27 => 0x235
    case 28 => 0x236
    case 29 => 0x238
    case 30 => 0x23c
    case 31 => 0x240
    case 32 => 0x248
    case 33 => 0x24c
    case 34 => 0x250
    case 35 => 0x258
    case 36 => 0x260
    case 37 => 0x264
    case 38 => 0x268
    case _ => 0x26c
  }

  lemma NextOffset(f: nat)
    requires f < HEADER_FIELDS
    ensures PublishedOffset(f + 1) == PublishedOffset(f) + Width(f) <= SETUP_HEADER_ADDR + HEADER_SIZE
  {
  }

  /** The packed fields are at their published offsets, and the header ends where the protocol says. */
  lemma {:induction false} HeaderOffsets(f: nat)
    requires f <= HEADER_FIELDS
    ensures SETUP_HEADER_ADDR + At(f) == PublishedOffset(f)
  {
    if f > 0 {
      var g := f - 1;
      HeaderOffsets(g);
      NextOffset(g);
      assert At(f) == At(g) + Width(g);
    }
  }

  lemma FieldFits(f: nat)
    requires f < HEADER_FIELDS
    ensures At(f) + Width(f) <= HEADER_SIZE
  {
    HeaderOffsets(f);
    NextOffset(f);
  }

  function Get(h: Header, f: nat): nat
    requires f < HEADER_FIELDS
  {
    FieldFits(f);
    Load(h, At(f), Width(f))
  }

  function Set(h: Header, f: nat, v: nat): Header
    requires f < HEADER_FIELDS
  {
    FieldFits(f);
    Overwrite(h, At(f), LE(Width(f), v))
  }

  lemma GetAfterSet(h: Header, f: nat, v: nat, g: nat)
    requires f < HEADER_FIELDS && g < HEADER_FIELDS && v < Pow256(Width(f))
    ensures Get(Set(h, f, v), g) == if g == f then v else Get(h, g)
  {
    FieldFits(f);
    FieldFits(g);
    if g == f {
      DecodeEncode(Width(f), v);
    } else {
      if g < f { FieldsDoNotOverlap(g, f); } else { FieldsDoNotOverlap(f, g); }
      LoadElsewhere(h, At(f), LE(Width(f), v), At(g), Width(g));
    }
  }

  // ----- the e820 map -----

  datatype E820Entry = E820Entry(addr: nat, size: nat, kind: nat)

  const BLANK_ENTRY := E820Entry(0, 0, 0)

  function EntryBytes(e: E820Entry): (bs: seq<byte>)
    ensures |bs| == 20
  {
    LE(8, e.addr) + LE(8, e.size) + LE(4, e.kind)
  }

  function MapBytes(es: seq<E820Entry>): (bs: seq<byte>)
    ensures |bs| == 20 * |es|
  {
    if es == [] then [] else EntryBytes(es[0]) + MapBytes(es[1..])
  }

  lemma {:induction false} MapBytesFrom(es: seq<E820Entry>, n: nat)
    requires n <= |es|
    ensures MapBytes(es)[20 * n..] == MapBytes(es[n..])
  {
    if n > 0 {
      MapBytesFrom(es[1..], n - 1);
      assert es[1..][n - 1..] == es[n..];
      assert MapBytes(es)[20 * n..] == MapBytes(es[1..])[20 * (n - 1)..];
    } else {
      assert es[0..] == es;
    }
  }

  lemma {:induction false} BlankMap(es: seq<E820Entry>)
    requires forall i :: 0 <= i < |es| ==> es[i] == BLANK_ENTRY
    ensures MapBytes(es) == Zeros(20 * |es|)
  {
    if es != [] {
      EncodeZero(8);
      EncodeZero(4);
      BlankMap(es[1..]);
    }
  }

  /** What `initRAM` appends; the last size is a `uint64_t` difference. */
  function BootEntries(ramSize: nat): seq<E820Entry> {
    [ E820Entry(REALMODE_IVT_START, EBDA_START - REALMODE_IVT_START, E820_TYPE_RAM),
      E820Entry(EBDA_START, VGARAM_START - EBDA_START, E820_TYPE_RESERVED),
      E820Entry(MBBIOS_START, MBBIOS_SIZE, E820_TYPE_RESERVED),
      E820Entry(HIGHMEM_BASE, (ramSize - HIGHMEM_BASE) % TWO_TO_THE_64, E820_TYPE_RAM) ]
  }

  predicate Covers(e: E820Entry, a: nat) { e.addr <= a < e.addr + e.size }

  predicate Inside(e: E820Entry, start: nat, size: nat) {
    e.addr <= start && start + size <= e.addr + e.size
  }

  /** Sorted, disjoint, free of 64-bit wrap, RAM only where the memory slot is; every region of the boot
      image lies in an entry of its kind. */
  lemma MapWellFormed(ramSize: nat, cmdline: nat, kernel: nat, ramdisk: nat)
    requires INITRAMFS_ADDR <= ramSize <= TSS_BASE
    requires COMMANDLINE_ADDR + cmdline <= EBDA_START
    requires HIGHMEM_BASE + kernel <= INITRAMFS_ADDR && INITRAMFS_ADDR + ramdisk <= ramSize
    ensures var es := BootEntries(ramSize);
      && (forall i :: 0 <= i < 3 ==> es[i].addr + es[i].size <= es[i + 1].addr)
      && (forall i :: 0 <= i < 4 ==> es[i].addr + es[i].size < TWO_TO_THE_64)
      && (forall i :: 0 <= i < 4 && es[i].kind == E820_TYPE_RAM ==> es[i].addr + es[i].size <= ramSize)
      && es[0].kind == E820_TYPE_RAM && es[3].kind == E820_TYPE_RAM
      && Inside(es[0], BOOT_PARAMS_ADDR, BOOT_PARAMS_SIZE) && Inside(es[0], COMMANDLINE_ADDR, cmdline)
      && Inside(es[0], BOOT_PAGETABLE_BASE, Paging.BOOT_PAGETABLE_SIZE)
      && es[1].kind == E820_TYPE_RESERVED && Inside(es[1], EBDA_START, MpTables.EBDA_SIZE)
      && Inside(es[3], HIGHMEM_BASE, kernel) && Inside(es[3], INITRAMFS_ADDR, ramdisk)
  {
  }

  predicate Listed(es: seq<E820Entry>, kind: nat, a: nat) {
    exists i :: 0 <= i < |es| && es[i].kind == kind && Covers(es[i], a)
  }

  /** The map, address by address, in the protocol's types: 1 is RAM, 2 reserved.  What it leaves out of guest RAM is
      exactly the video hole and the BIOS area's last byte, because `MBBIOS_SIZE` is one short of 64 KiB. */
  lemma MapClassifies(ramSize: nat, a: nat)
    requires HIGHMEM_BASE <= ramSize < TWO_TO_THE_64
    ensures var es := BootEntries(ramSize);
      && (Listed(es, 1, a) <==> a < 0x9_fc00 || 0x10_0000 <= a < ramSize)
      && (Listed(es, 2, a) <==> 0x9_fc00 <= a < 0xa_0000 || 0xf_0000 <= a < 0xf_ffff)
  {
    var es := BootEntries(ramSize);
    assert Covers(es[0], a) <==> a < EBDA_START;
    assert Covers(es[1], a) <==> EBDA_START <= a < VGARAM_START;
    assert Covers(es[2], a) <==> MBBIOS_START <= a < HIGHMEM_BASE - 1;
    assert Covers(es[3], a) <==> HIGHMEM_BASE <= a < ramSize;
  }

  // ----- boot_params -----

  const BOOT_PARAMS_SIZE := 0xcd0

  /** The structure in memory order; everything not named is zero. */
  function BootParamsBytes(entries: byte, header: Header, map128: seq<E820Entry>): (bs: seq<byte>)
    requires |map128| == E820_MAP_MAX
    ensures |bs| == BOOT_PARAMS_SIZE
  {
    (Zeros(0x1e8) + [entries] + Zeros(8))
    + header
    + (Zeros(0x290 - 0x1f1 - HEADER_SIZE) + Zeros(64) + MapBytes(map128))
  }

  class BootParams {
    var e820Entries: byte
    var header: Header
    const e820map: array<E820Entry>

    ghost predicate Valid()
      reads this, e820map
    {
      e820map.Length == E820_MAP_MAX
    }

    function Contents(): seq<byte>
      requires e820map.Length == E820_MAP_MAX
      reads this, e820map
    {
      BootParamsBytes(e820Entries, header, e820map[..])
    }

    constructor ()
      ensures Valid() && fresh(e820map)
      ensures e820Entries == 0 && header == Zeros(HEADER_SIZE)
      ensures forall i :: 0 <= i < E820_MAP_MAX ==> e820map[i] == BLANK_ENTRY
    {
      e820Entries := 0;
      header := Zeros(HEADER_SIZE);
      e820map := new E820Entry[E820_MAP_MAX](_ => BLANK_ENTRY);
    }

    /** `kernel.read(&bp.header, sizeof(bp.header))`. */
    method LoadHeader(h: Header)
      modifies `header
      ensures header == h
    {
      header := h;
    }

    method SetField(f: nat, v: nat)
      requires f < HEADER_FIELDS
      modifies `header
      ensures header == Set(old(header), f, v)
    {
      header := Set(header, f, v);
    }

    /** `setup_header::check_setup_sects`: 0 means 4. */
    method CheckSetupSects() returns (changed: bool)
      modifies `header
      ensures header == WithSetupSects(old(header))
      ensures changed <==> Get(old(header), SETUP_SECTS) == 0
    {
      changed := Get(header, SETUP_SECTS) == 0;
      if changed {
        header := Set(header, SETUP_SECTS, 4);
      }
    }

    method AddE820Entry(addr: nat, size: nat, kind: nat)
      requires Valid() && e820Entries < E820_MAP_MAX
      modifies `e820Entries, e820map
      ensures Valid() && e820Entries == old(e820Entries) + 1
      ensures e820map[..] == old(e820map[..])[old(e820Entries) as nat := E820Entry(addr, size, kind)]
    {
      e820map[e820Entries] := E820Entry(addr, size, kind);
      e820Entries := e820Entries + 1;
    }
  }

  predicate IsValid(h: Header) { Get(h, HEADER_MAGIC) == BOOT_HDR_MAGIC }

  function WithSetupSects(h: Header): Header {
    if Get(h, SETUP_SECTS) == 0 then Set(h, SETUP_SECTS, 4) else h
  }

  type Field = f: nat | f < HEADER_FIELDS

  datatype Assignment = Assignment(f: Field, v: nat) {
    predicate Fits() { v < Pow256(Width(f)) }
  }

  predicate AssignmentsFit(assignments: seq<Assignment>) {
    forall i :: 0 <= i < |assignments| ==> assignments[i].Fits()
  }

  function SetAll(h: Header, assignments: seq<Assignment>): Header {
    if assignments == [] then h
    else
      var last := assignments[|assignments| - 1];
      Set(SetAll(h, assignments[..|assignments| - 1]), last.f, last.v)
  }

  /** The value a list of assignments leaves in field `f`. */
  function LastAssigned(assignments: seq<Assignment>, f: nat, initial: nat): nat {
    if assignments == [] then initial
    else
      var last := assignments[|assignments| - 1];
      if last.f == f then last.v else LastAssigned(assignments[..|assignments| - 1], f, initial)
  }

  lemma {:induction false} GetAfterSetAll(h: Header, assignments: seq<Assignment>, f: nat)
    requires AssignmentsFit(assignments) && f < HEADER_FIELDS
    ensures Get(SetAll(h, assignments), f) == LastAssigned(assignments, f, Get(h, f))
  {
    if assignments != [] {
      var earlier, last := assignments[..|assignments| - 1], assignments[|assignments| - 1];
      GetAfterSetAll(h, earlier, f);
      GetAfterSet(SetAll(h, earlier), last.f, last.v, f);
    }
  }

  /** What `initRAM` writes over the header it read, whatever the header is. */
  function LoaderAssignments(ramdiskSize: nat): seq<Assignment> {
    [ Assignment(VID_MODE, BOOT_HDR_VID_MODE_NML),
      Assignment(TYPE_OF_LOADER, BOOT_HDR_BLT_UNDEFINED),
      Assignment(LOADFLAGS, BOOT_HDR_LOADFLAGS),
      Assignment(RAMDISK_IMAGE, INITRAMFS_ADDR),
      Assignment(RAMDISK_SIZE, ramdiskSize % 0x1_0000_0000),
      Assignment(HEAP_END_PTR, BOOT_PARAMS_ADDR - BOOT_HDR_HEAPEND_OFFSET),
      Assignment(CMD_LINE_PTR, COMMANDLINE_ADDR) ]
  }

  lemma LoaderAssignmentsFit(ramdiskSize: nat)
    ensures AssignmentsFit(LoaderAssignments(ramdiskSize))
  {
    Pow256Values();
  }

  /** The header `initRAM` hands to the kernel, from the one in the kernel's file. */
  function FinishedHeader(h: Header, ramdiskSize: nat): Header {
    SetAll(WithSetupSects(h), LoaderAssignments(ramdiskSize))
  }

  /** The header handed over, by published offset: seven fields are the loader's, `setup_sects` is never 0, and the
      rest is the kernel's own. */
  function FinishedField(h: Header, ramdiskSize: nat, f: nat): nat
    requires f < HEADER_FIELDS
  {
    var at := PublishedOffset(f);
    if at == 0x1fa then 0xffff  // vid_mode: normal
    else if at == 0x210 then 0xff  // type_of_loader: undefined
    else if at == 0x211 then 0xc1  // loadflags: LOADED_HIGH, KEEP_SEGMENTS, CAN_USE_HEAP
    else if at == 0x218 then 0xf00_0000  // ramdisk_image
    else if at == 0x21c then ramdiskSize % 0x1_0000_0000  // ramdisk_size
    else if at == 0x224 then 0xfe00  // heap_end_ptr
    else if at == 0x228 then 0x2_0000  // cmd_line_ptr
    else if at == 0x1f1 && Get(h, f) == 0 then 4  // setup_sects
    else Get(h, f)
  }

  lemma OffsetsIdentify(f: nat)
    requires f < HEADER_FIELDS
    ensures f == SETUP_SECTS <==> PublishedOffset(f) == 0x1f1
    ensures f == VID_MODE <==> PublishedOffset(f) == 0x1fa
    ensures f == TYPE_OF_LOADER <==> PublishedOffset(f) == 0x210
    ensures f == LOADFLAGS <==> PublishedOffset(f) == 0x211
    ensures f == RAMDISK_IMAGE <==> PublishedOffset(f) == 0x218
    ensures f == RAMDISK_SIZE <==> PublishedOffset(f) == 0x21c
    ensures f == HEAP_END_PTR <==> PublishedOffset(f) == 0x224
    ensures f == CMD_LINE_PTR <==> PublishedOffset(f) == 0x228
  {
  }

  lemma LastAssignedStep(assignments: seq<Assignment>, n: nat, f: nat, initial: nat)
    requires 0 < n <= |assignments|
    ensures LastAssigned(assignments[..n], f, initial)
         == if assignments[n - 1].f == f then assignments[n - 1].v else LastAssigned(assignments[..n - 1], f, initial)
  {
    assert assignments[..n][..n - 1] == assignments[..n - 1];
  }

  lemma LoaderValue(ramdiskSize: nat, f: nat, initial: nat)
    ensures LastAssigned(LoaderAssignments(ramdiskSize), f, initial) ==
      if f == VID_MODE then BOOT_HDR_VID_MODE_NML
      else if f == TYPE_OF_LOADER then BOOT_HDR_BLT_UNDEFINED
      else if f == LOADFLAGS then BOOT_HDR_LOADFLAGS
      else if f == RAMDISK_IMAGE then INITRAMFS_ADDR
      else if f == RAMDISK_SIZE then ramdiskSize % 0x1_0000_0000
      else if f == HEAP_END_PTR then BOOT_PARAMS_ADDR - BOOT_HDR_HEAPEND_OFFSET
      else if f == CMD_LINE_PTR then COMMANDLINE_ADDR
      else initial
  {
    var all := LoaderAssignments(ramdiskSize);
    LastAssignedStep(all, 7, f, initial);
    LastAssignedStep(all, 6, f, initial);
    LastAssignedStep(all, 5, f, initial);
    LastAssignedStep(all, 4, f, initial);
    LastAssignedStep(all, 3, f, initial);
    LastAssignedStep(all, 2, f, initial);
    LastAssignedStep(all, 1, f, initial);
    assert all[..7] == all;
  }

  /** The loader's fields have its values, `setup_sects` is never 0, and every other field is the kernel's own. */
  lemma FinishedFields(h: Header, ramdiskSize: nat, f: nat)
    requires f < HEADER_FIELDS
    ensures Get(FinishedHeader(h, ramdiskSize), f) == FinishedField(h, ramdiskSize, f)
  {
    LoaderAssignmentsFit(ramdiskSize);
    OffsetsIdentify(f);
    SetupSectsField(h, f);
    GetAfterSetAll(WithSetupSects(h), LoaderAssignments(ramdiskSize), f);
    LoaderValue(ramdiskSize, f, Get(WithSetupSects(h), f));
  }

  lemma SetupSectsField(h: Header, f: nat)
    requires f < HEADER_FIELDS
    ensures Get(WithSetupSects(h), f) == if f == SETUP_SECTS && Get(h, f) == 0 then 4 else Get(h, f)
  {
    Pow256Values();
    GetAfterSet(h, SETUP_SECTS, 4, f);
  }
}
