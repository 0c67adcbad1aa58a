/** The boot page table of `VM::createPageTable` and an independent 4-level page walk.

`Walk` follows section 4.5 of volume 3A of the Intel 64 and IA-32 Architectures Software
Developer's Manual, with CR4.PAE, EFER.LME and CR0.PG set and EFER.NXE clear, which is how
`Vcpu::InitSregs` sets them.  It shares nothing with the writer but the memory.
*/
module Paging {
  import opened Bytes

  const PAGE_FLAG_P := 1
  const PAGE_FLAG_RW := 2
  const PAGE_FLAG_PCD := 0x10
  const PAGE_FLAG_PS := 0x80
  const PAGE_FLAG_G := 0x100

  const PAGE_SIZE_4KB := 0x1000
  const PAGE_SIZE_2MB := 0x20_0000
  const BOOT_PAGETABLE_SIZE := 0x6000
  const BOOT_PDPTE_NUM := 4
  const BOOT_PDE_NUM := 2048

  const TWO_TO_THE_32 := 0x1_0000_0000
  const TWO_TO_THE_48 := 0x1_0000_0000_0000
  const TWO_TO_THE_52 := 0x10_0000_0000_0000

  /** `uint64_t` addition. */
  function Add64(a: nat, b: nat): nat {
    (a + b) % TWO_TO_THE_64
  }

  // ----- what the processor does -----

  datatype Fault = NotPresent | ReservedBitSet | OutsideRam

  /** What an entry holds beside its address: the attribute bits below it, and bits 63:52. */
  datatype Bits = Bits(low: nat, high: nat)

  /** `path` lists the entries used, from the PML4 down. */
  datatype Translation =
    | Refused(fault: Fault)
    | Page(physical: nat, pageSize: nat, writable: bool, user: bool, path: seq<Bits>)

  predicate IsPresent(e: nat) { e % 2 == 1 }
  predicate IsWritable(e: nat) { e / 2 % 2 == 1 }
  predicate IsUser(e: nat) { e / 4 % 2 == 1 }
  predicate HasPageSize(e: nat) { e / 0x80 % 2 == 1 }

  /** Bits 51:12, 51:21 and 51:30 of an entry, in place. */
  function Frame4KB(e: nat): nat { e / 0x1000 % 0x100_0000_0000 * 0x1000 }
  function Frame2MB(e: nat): nat { e / 0x20_0000 % 0x8000_0000 * 0x20_0000 }
  function Frame1GB(e: nat): nat { e / 0x4000_0000 % 0x40_0000 * 0x4000_0000 }

  /** The bits of an entry whose address starts at bit 12, or that maps a large page and has the PAT bit there. */
  function TableBits(e: nat): Bits { Bits(e % 0x1000, e / TWO_TO_THE_52) }
  function LargePageBits(e: nat): Bits { Bits(e % 0x2000, e / TWO_TO_THE_52) }

  /** A bit of 51:MAXPHYADDR, or bit 63 while EFER.NXE is clear; `physSize` is 2^MAXPHYADDR. */
  predicate ReservedHigh(e: nat, physSize: nat) {
    e % TWO_TO_THE_52 >= physSize || e / 0x8000_0000_0000_0000 % 2 == 1
  }

  function Entry(m: seq<byte>, table: nat, index: nat): Option<nat> {
    var a := table + 8 * index;
    if a + 8 <= |m| then Some(Load(m, a, 8)) else None
  }

  function Walk(m: seq<byte>, cr3: nat, physSize: nat, v: nat): Translation {
    match Entry(m, Frame4KB(cr3), v / 0x80_0000_0000 % 512)
    case None => Refused(OutsideRam)
    case Some(e) =>
      if !IsPresent(e) then Refused(NotPresent)
      else if ReservedHigh(e, physSize) || HasPageSize(e) then Refused(ReservedBitSet)
      else WalkDirectoryPointer(m, Frame4KB(e), physSize, v, IsWritable(e), IsUser(e), [TableBits(e)])
  }

  function WalkDirectoryPointer(
      m: seq<byte>, table: nat, physSize: nat, v: nat, w: bool, u: bool, path: seq<Bits>): Translation
  {
    match Entry(m, table, v / 0x4000_0000 % 512)
    case None => Refused(OutsideRam)
    case Some(e) =>
      if !IsPresent(e) then Refused(NotPresent)
      else if ReservedHigh(e, physSize) then Refused(ReservedBitSet)
      else if HasPageSize(e) then
        if e / 0x2000 % 0x2_0000 != 0 then Refused(ReservedBitSet)  // bits 29:13
        else
          Page(Frame1GB(e) + v % 0x4000_0000, 0x4000_0000, w && IsWritable(e), u && IsUser(e),
            path + [LargePageBits(e)])
      else WalkDirectory(m, Frame4KB(e), physSize, v, w && IsWritable(e), u && IsUser(e), path + [TableBits(e)])
  }

  function WalkDirectory(
      m: seq<byte>, table: nat, physSize: nat, v: nat, w: bool, u: bool, path: seq<Bits>): Translation
  {
    match Entry(m, table, v / 0x20_0000 % 512)
    case None => Refused(OutsideRam)
    case Some(e) =>
      if !IsPresent(e) then Refused(NotPresent)
      else if ReservedHigh(e, physSize) then Refused(ReservedBitSet)
      else if HasPageSize(e) then
        if e / 0x2000 % 0x100 != 0 then Refused(ReservedBitSet)  // bits 20:13
        else Page(Frame2MB(e) + v % 0x20_0000, 0x20_0000, w && IsWritable(e), u && IsUser(e), path + [LargePageBits(e)])
      else WalkTable(m, Frame4KB(e), physSize, v, w && IsWritable(e), u && IsUser(e), path + [TableBits(e)])
  }

  function WalkTable(
      m: seq<byte>, table: nat, physSize: nat, v: nat, w: bool, u: bool, path: seq<Bits>): Translation
  {
    match Entry(m, table, v / 0x1000 % 512)
    case None => Refused(OutsideRam)
    case Some(e) =>
      if !IsPresent(e) then Refused(NotPresent)
      else if ReservedHigh(e, physSize) then Refused(ReservedBitSet)
      else Page(Frame4KB(e) + v % 0x1000, 0x1000, w && IsWritable(e), u && IsUser(e), path + [TableBits(e)])
  }

  // ----- what createPageTable writes -----

  /** The 64-bit word number `k` of the six pages. */
  function TableWord(base: nat, k: nat): nat {
    if k == 0 then base + PAGE_SIZE_4KB + PAGE_FLAG_PCD + PAGE_FLAG_RW + PAGE_FLAG_P
    else if 512 <= k < 512 + BOOT_PDPTE_NUM then
      base + (k - 512 + 2) * PAGE_SIZE_4KB + PAGE_FLAG_PCD + PAGE_FLAG_RW + PAGE_FLAG_P
    else if 1024 <= k < 1024 + BOOT_PDE_NUM then
      (k - 1024) * PAGE_SIZE_2MB + PAGE_FLAG_G + PAGE_FLAG_PS + PAGE_FLAG_RW + PAGE_FLAG_P
    else 0
  }

  /** Every byte of the six pages, and every byte around them, when the first `w` words are written. */
  ghost predicate Filled(m: seq<byte>, m0: seq<byte>, base: nat, w: nat) {
    && |m| == |m0|
    && base + BOOT_PAGETABLE_SIZE <= |m|
    && (forall t :: 0 <= t < |m| && !(base <= t < base + BOOT_PAGETABLE_SIZE) ==> m[t] == m0[t])
    && (forall t :: base <= t < base + BOOT_PAGETABLE_SIZE ==>
          m[t] == if (t - base) / 8 < w then LE(8, TableWord(base, (t - base) / 8))[(t - base) % 8] else 0)
  }

  lemma FillWord(m: seq<byte>, m0: seq<byte>, base: nat, w: nat)
    requires Filled(m, m0, base, w) && w < 3072
    ensures Filled(Overwrite(m, base + 8 * w, LE(8, TableWord(base, w))), m0, base, w + 1)
  {
  }

  lemma {:induction false} FillGap(m: seq<byte>, m0: seq<byte>, base: nat, w: nat, w': nat)
    requires Filled(m, m0, base, w) && w <= w'
    requires forall k :: w <= k < w' ==> TableWord(base, k) == 0
    ensures Filled(m, m0, base, w')
  {
    EncodeZero(8);
  }

  /** The six pages of `createPageTable(base)`, byte by byte. */
  function TableBytes(base: nat): (bs: seq<byte>)
    ensures |bs| == BOOT_PAGETABLE_SIZE
  {
    seq(BOOT_PAGETABLE_SIZE, i requires 0 <= i < BOOT_PAGETABLE_SIZE => LE(8, TableWord(base, i / 8))[i % 8])
  }

  /** Memory `m0` after `createPageTable(base)`. */
  function WithTable(m0: seq<byte>, base: nat): seq<byte>
    requires base + BOOT_PAGETABLE_SIZE <= |m0|
  {
    Overwrite(m0, base, TableBytes(base))
  }

  lemma FilledIsWithTable(m: seq<byte>, m0: seq<byte>, base: nat)
    requires Filled(m, m0, base, 3072)
    ensures m == WithTable(m0, base)
  {
  }

  /** `*(table + index) = e`, for word `w` of the six pages. */
  method StoreEntry(ram: array<byte>, ghost m0: seq<byte>, base: nat, w: nat, e: nat)
    requires Filled(ram[..], m0, base, w) && w < 3072 && e == TableWord(base, w)
    modifies ram
    ensures Filled(ram[..], m0, base, w + 1)
  {
    FillWord(ram[..], m0, base, w);
    CopyInto(ram, base + 8 * w, LE(8, e));
  }

  /** The running `pdpte` and `pde` are 64-bit and are shown not to wrap. */
  method CreatePageTable(ram: array<byte>, base: nat)
    requires base + BOOT_PAGETABLE_SIZE <= ram.Length < TWO_TO_THE_64
    modifies ram
    ensures ram[..] == WithTable(old(ram[..]), base)
  {
    ghost var m0 := ram[..];
    var pdpteStart := base + PAGE_SIZE_4KB;

    ZeroFill(ram, base, BOOT_PAGETABLE_SIZE);

    var pml4e := PAGE_FLAG_PCD + PAGE_FLAG_RW + PAGE_FLAG_P;
    pml4e := Add64(pml4e, base + PAGE_SIZE_4KB);
    StoreEntry(ram, m0, base, 0, pml4e);
    FillGap(ram[..], m0, base, 1, 512);

    var pdpte := PAGE_FLAG_PCD + PAGE_FLAG_RW + PAGE_FLAG_P;
    pdpte := Add64(pdpte, pdpteStart);
    for i := 0 to BOOT_PDPTE_NUM
      invariant pdpte == base + (i + 1) * PAGE_SIZE_4KB + PAGE_FLAG_PCD + PAGE_FLAG_RW + PAGE_FLAG_P
      invariant Filled(ram[..], m0, base, 512 + i)
    {
      pdpte := Add64(pdpte, PAGE_SIZE_4KB);
      StoreEntry(ram, m0, base, 512 + i, pdpte);
    }
    FillGap(ram[..], m0, base, 516, 1024);

    var pde := PAGE_FLAG_G + PAGE_FLAG_PS + PAGE_FLAG_RW + PAGE_FLAG_P;
    for i := 0 to BOOT_PDE_NUM
      invariant pde == i * PAGE_SIZE_2MB + PAGE_FLAG_G + PAGE_FLAG_PS + PAGE_FLAG_RW + PAGE_FLAG_P
      invariant Filled(ram[..], m0, base, 1024 + i)
    {
      StoreEntry(ram, m0, base, 1024 + i, pde);
      pde := Add64(pde, PAGE_SIZE_2MB);
    }
    FilledIsWithTable(ram[..], m0, base);
  }

  // ----- the identity map -----

  ghost predicate TableAt(m: seq<byte>, base: nat) {
    base + BOOT_PAGETABLE_SIZE <= |m| && m[base..base + BOOT_PAGETABLE_SIZE] == TableBytes(base)
  }

  lemma WordBytes(base: nat, k: nat)
    requires k < 3072
    ensures TableBytes(base)[8 * k..8 * k + 8] == LE(8, TableWord(base, k))
  {
    var bytes, word := TableBytes(base)[8 * k..8 * k + 8], LE(8, TableWord(base, k));
    forall j | 0 <= j < 8 ensures bytes[j] == word[j] {
      assert (8 * k + j) / 8 == k && (8 * k + j) % 8 == j;
    }
  }

  /** Reading word `k` back from the bytes. */
  lemma ReadWord(m: seq<byte>, base: nat, k: nat)
    requires TableAt(m, base) && k < 3072 && |m| < TWO_TO_THE_64
    ensures Load(m, base + 8 * k, 8) == TableWord(base, k)
  {
    SliceOfSlice(m, base, TableBytes(base), 8 * k, 8);
    WordBytes(base, k);
    Pow256Values();
    DecodeEncode(8, TableWord(base, k));
  }

  /** Entry `index` of page `page` of the six. */
  lemma EntryRead(m: seq<byte>, base: nat, page: nat, index: nat)
    requires TableAt(m, base) && page < 6 && index < 512 && |m| < TWO_TO_THE_64
    ensures Entry(m, base + page * PAGE_SIZE_4KB, index) == Some(TableWord(base, 512 * page + index))
  {
    ReadWord(m, base, 512 * page + index);
    assert base + page * PAGE_SIZE_4KB + 8 * index == base + 8 * (512 * page + index);
  }

  lemma PresentBit(q: nat, flags: nat)
    ensures IsPresent(0x1000 * q + flags) == IsPresent(flags)
  {
  }

  lemma WritableBit(q: nat, flags: nat)
    ensures IsWritable(0x1000 * q + flags) == IsWritable(flags)
  {
    assert (0x1000 * q + flags) / 2 == 0x800 * q + flags / 2;
  }

  lemma UserBit(q: nat, flags: nat)
    ensures IsUser(0x1000 * q + flags) == IsUser(flags)
  {
    assert (0x1000 * q + flags) / 4 == 0x400 * q + flags / 4;
  }

  lemma PageSizeBit(q: nat, flags: nat)
    ensures HasPageSize(0x1000 * q + flags) == HasPageSize(flags)
  {
    assert (0x1000 * q + flags) / 0x80 == 0x20 * q + flags / 0x80;
  }

  /** Flags below bit 12 are read off the low part of a page-aligned address plus flags. */
  lemma LowBits(address: nat, flags: nat)
    requires address % 0x1000 == 0 && flags < 0x1000
    ensures var e := address + flags;
      && IsPresent(e) == IsPresent(flags) && IsWritable(e) == IsWritable(flags)
      && IsUser(e) == IsUser(flags) && HasPageSize(e) == HasPageSize(flags)
  {
    var q := address / 0x1000;
    PresentBit(q, flags);
    WritableBit(q, flags);
    UserBit(q, flags);
    PageSizeBit(q, flags);
  }

  /** The 2 MiB page number `n` of the first 4 GiB, as a directory entry. */
  lemma PageEntryFields(n: nat, physSize: nat)
    requires n < BOOT_PDE_NUM && TWO_TO_THE_32 <= physSize
    ensures var e := n * PAGE_SIZE_2MB + PAGE_FLAG_G + PAGE_FLAG_PS + PAGE_FLAG_RW + PAGE_FLAG_P;
      && Frame2MB(e) == n * PAGE_SIZE_2MB && IsPresent(e) && IsWritable(e) && !IsUser(e) && HasPageSize(e)
      && e / 0x2000 % 0x100 == 0 && !ReservedHigh(e, physSize) && LargePageBits(e) == Bits(0x183, 0)
  {
    var flags := PAGE_FLAG_G + PAGE_FLAG_PS + PAGE_FLAG_RW + PAGE_FLAG_P;
    var e := n * PAGE_SIZE_2MB + flags;
    LowBits(n * PAGE_SIZE_2MB, flags);
    assert e / 0x20_0000 == n;
    assert e / 0x2000 == n * 0x100;
    assert e < TWO_TO_THE_32;
  }

  /** A walk's indices below 4 GiB. */
  lemma Indices(v: nat)
    requires v < TWO_TO_THE_32
    ensures v / 0x20_0000 == 512 * (v / 0x4000_0000) + v / 0x20_0000 % 512 < BOOT_PDE_NUM
    ensures v / 0x20_0000 * PAGE_SIZE_2MB + v % 0x20_0000 == v
  {
  }

  /** Directory number `i`, entry `j` is word `512*i + j` of the directory pages, and maps that 2 MiB page. */
  lemma DirectoryMaps(m: seq<byte>, base: nat, physSize: nat, v: nat, path: seq<Bits>)
    requires TableAt(m, base) && |m| <= physSize
    requires TWO_TO_THE_32 <= physSize <= TWO_TO_THE_52
    requires v < TWO_TO_THE_32
    ensures WalkDirectory(m, base + (v / 0x4000_0000 + 2) * PAGE_SIZE_4KB, physSize, v, true, false, path)
         == Page(v, PAGE_SIZE_2MB, true, false, path + [Bits(0x183, 0)])
  {
    var n, i, j := v / 0x20_0000, v / 0x4000_0000, v / 0x20_0000 % 512;
    Indices(v);
    EntryRead(m, base, i + 2, j);
    assert 512 * (i + 2) + j == 1024 + n;
    PageEntryFields(n, physSize);
  }

  /** An entry made of a table's address and the three flags reads back as that address and those flags. */
  lemma TableEntryFields(table: nat, physSize: nat)
    requires table % PAGE_SIZE_4KB == 0 && table + PAGE_SIZE_4KB <= physSize <= TWO_TO_THE_52
    ensures var e := table + PAGE_FLAG_PCD + PAGE_FLAG_RW + PAGE_FLAG_P;
      && Frame4KB(e) == table && IsPresent(e) && IsWritable(e) && !IsUser(e) && !HasPageSize(e)
      && !ReservedHigh(e, physSize) && TableBits(e) == Bits(0x13, 0)
  {
    var flags := PAGE_FLAG_PCD + PAGE_FLAG_RW + PAGE_FLAG_P;
    LowBits(table, flags);
    assert (table + flags) / 0x1000 == table / 0x1000;
  }

  lemma FrameBelow(base: nat)
    requires base < TWO_TO_THE_52
    ensures Frame4KB(base) == base - base % PAGE_SIZE_4KB
  {
  }

  lemma TopIndex(v: nat)
    requires v < TWO_TO_THE_48
    ensures v / 0x80_0000_0000 < 512 && v / 0x80_0000_0000 % 512 == v / 0x80_0000_0000
    ensures v / 0x80_0000_0000 == 0 <==> v < 0x80_0000_0000
  {
  }

  lemma TopMiss(m: seq<byte>, cr3: nat, physSize: nat, v: nat, e: nat)
    requires Entry(m, Frame4KB(cr3), v / 0x80_0000_0000 % 512) == Some(e) && !IsPresent(e)
    ensures Walk(m, cr3, physSize, v) == Refused(NotPresent)
  {
  }

  lemma TopStep(m: seq<byte>, cr3: nat, physSize: nat, v: nat, next: nat)
    requires next % PAGE_SIZE_4KB == 0 && next + PAGE_SIZE_4KB <= physSize <= TWO_TO_THE_52
    requires Entry(m, Frame4KB(cr3), v / 0x80_0000_0000 % 512)
          == Some(next + PAGE_FLAG_PCD + PAGE_FLAG_RW + PAGE_FLAG_P)
    ensures Walk(m, cr3, physSize, v) == WalkDirectoryPointer(m, next, physSize, v, true, false, [Bits(0x13, 0)])
  {
    TableEntryFields(next, physSize);
  }

  lemma PointerStep(m: seq<byte>, table: nat, physSize: nat, v: nat, next: nat, path: seq<Bits>)
    requires next % PAGE_SIZE_4KB == 0 && next + PAGE_SIZE_4KB <= physSize <= TWO_TO_THE_52
    requires Entry(m, table, v / 0x4000_0000 % 512) == Some(next + PAGE_FLAG_PCD + PAGE_FLAG_RW + PAGE_FLAG_P)
    ensures WalkDirectoryPointer(m, table, physSize, v, true, false, path)
         == WalkDirectory(m, next, physSize, v, true, false, path + [Bits(0x13, 0)])
  {
    TableEntryFields(next, physSize);
  }

  /** Address `v` on itself: a writable supervisor page of 2 MiB.  The two table entries are P, R/W and PCD, the page
      is P, R/W, PS and G; nothing else is set. */
  function IdentityPage(v: nat): Translation {
    Page(v, 0x20_0000, true, false, [Bits(0x13, 0), Bits(0x13, 0), Bits(0x183, 0)])
  }

  lemma PointerMiss(m: seq<byte>, table: nat, physSize: nat, v: nat, e: nat, path: seq<Bits>)
    requires Entry(m, table, v / 0x4000_0000 % 512) == Some(e) && !IsPresent(e)
    ensures WalkDirectoryPointer(m, table, physSize, v, true, false, path) == Refused(NotPresent)
  {
  }

  lemma PointerIndex(v: nat)
    requires v < 0x80_0000_0000
    ensures v / 0x4000_0000 % 512 == v / 0x4000_0000 < 512
    ensures v / 0x4000_0000 < 4 <==> v < 0x1_0000_0000
  {
  }

  lemma PointerMaps(m: seq<byte>, base: nat, physSize: nat, v: nat)
    requires TableAt(m, base) && |m| <= physSize
    requires TWO_TO_THE_32 <= physSize <= TWO_TO_THE_52
    requires base % PAGE_SIZE_4KB == 0
    requires v < 0x80_0000_0000
    ensures WalkDirectoryPointer(m, base + PAGE_SIZE_4KB, physSize, v, true, false, [Bits(0x13, 0)])
         == if v < 0x1_0000_0000 then IdentityPage(v) else Refused(NotPresent)
  {
    var i, top := v / 0x4000_0000, [Bits(0x13, 0)];
    PointerIndex(v);
    EntryRead(m, base, 1, i);
    if i < 4 {
      PointerStep(m, base + PAGE_SIZE_4KB, physSize, v, base + (i + 2) * PAGE_SIZE_4KB, top);
      DirectoryMaps(m, base, physSize, v, top + [Bits(0x13, 0)]);
    } else {
      PointerMiss(m, base + PAGE_SIZE_4KB, physSize, v, 0, top);
    }
  }

  /** From any memory that holds the six pages, CR3 = `base` maps exactly 0-4 GiB onto itself:
      supervisor, writable, in 2 MiB pages; every other 48-bit address is not present. */
  lemma IdentityMap(m: seq<byte>, base: nat, physSize: nat, v: nat)
    requires TableAt(m, base) && |m| <= physSize
    requires TWO_TO_THE_32 <= physSize <= TWO_TO_THE_52
    requires base % PAGE_SIZE_4KB == 0
    requires v < TWO_TO_THE_48
    ensures Walk(m, base, physSize, v)
         == if v < 0x1_0000_0000 then IdentityPage(v) else Refused(NotPresent)
  {
    FrameBelow(base);
    TopIndex(v);
    EntryRead(m, base, 0, v / 0x80_0000_0000);
    if v < 0x80_0000_0000 {
      TopStep(m, base, physSize, v, base + PAGE_SIZE_4KB);
      PointerMaps(m, base, physSize, v);
    } else {
      TopMiss(m, base, physSize, v, 0);
    }
  }

  ghost predicate MapsFirst4GiB(m: seq<byte>, cr3: nat, physSize: nat) {
    forall v :: 0 <= v < TWO_TO_THE_48 ==>
      Walk(m, cr3, physSize, v)
      == if v < 0x1_0000_0000 then IdentityPage(v) else Refused(NotPresent)
  }

  /** The source's guard on the base (`assert(~PL4_ADDR_MASK && ...)`) uses the logical `&&`, so it accepts
      every base.  The table works whatever RAM held before exactly when the base is page-aligned. */
  lemma IdentityMapIffAligned(ramSize: nat, base: nat, physSize: nat)
    requires base + BOOT_PAGETABLE_SIZE <= ramSize <= physSize
    requires TWO_TO_THE_32 <= physSize <= TWO_TO_THE_52
    ensures base % PAGE_SIZE_4KB == 0
       <==> forall m0: seq<byte> :: |m0| == ramSize ==> MapsFirst4GiB(WithTable(m0, base), base, physSize)
  {
    if base % PAGE_SIZE_4KB == 0 {
      forall m0: seq<byte>, v | |m0| == ramSize && 0 <= v < TWO_TO_THE_48
        ensures Walk(WithTable(m0, base), base, physSize, v)
             == if v < 0x1_0000_0000 then IdentityPage(v) else Refused(NotPresent)
      {
        IdentityMap(WithTable(m0, base), base, physSize, v);
      }
    } else {
      MisalignedFaults(ramSize, base, physSize);
      var m0 := Zeros(ramSize);
      assert Walk(WithTable(m0, base), base, physSize, 0) == Refused(NotPresent);
    }
  }

  /** With a misaligned base in zeroed RAM the processor reads its PML4 below the one written. */
  lemma MisalignedFaults(ramSize: nat, base: nat, physSize: nat)
    requires base + BOOT_PAGETABLE_SIZE <= ramSize <= physSize <= TWO_TO_THE_52
    requires base % PAGE_SIZE_4KB != 0
    ensures Walk(WithTable(Zeros(ramSize), base), base, physSize, 0) == Refused(NotPresent)
  {
    FrameBelow(base);
    var table := base - base % PAGE_SIZE_4KB;
    var m := Overwrite(Zeros(ramSize), base, TableBytes(base));
    assert m[table] == 0;
    EvenWord(m, table);
    TopMiss(m, base, physSize, 0, Load(m, table, 8));
  }

  lemma EvenWord(m: seq<byte>, a: nat)
    requires a + 8 <= |m| && m[a] == 0
    ensures Load(m, a, 8) % 2 == 0
  {
    var bs := m[a..a + 8];
    assert FromLE(bs) == 256 * FromLE(bs[1..]);
  }
}
