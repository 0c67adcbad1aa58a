/** The MP tables of `gen_ebda` and an independent reader for them.

The writer follows src/boot.cpp and the packed structures of include/boot.hpp.  The reader
follows sections 4.1, 4.2 and 4.3.1 of the MultiProcessor Specification, version 1.4, and
knows nothing of the writer's structures: it searches, follows the physical pointer, checks
both checksums and walks the entries by their type.
*/
module MpTables {
  import opened Addresses
  import opened Bytes

  const EBDA_PADDING_SIZE := 48
  const EBDA_SIZE := EBDA_PADDING_SIZE + 16 + 44 + 20 * MP_MAX_VCPU_NUM

  const MP_MAX_VCPU_NUM := 32
  const MPFPS_INTEL_SIGNATURE := 0x5f50_4d5f  // '_' 'M' 'P' '_', first character lowest
  const MPCTABLE_INTEL_SIGNATURE := 0x504d_4350  // 'P' 'C' 'M' 'P'
  const MPCTABLE_OEM_ID := 0x5453_4554_4749_4d4c  // "LMIGTEST"
  const MP_SPEC_REV_1_4: byte := 4
  const MPCTE_ENTRY_TYPE_PROC: byte := 0
  const MPCTE_PROC_APIC_VER: byte := 0x14
  const MPCTE_PROC_CPUFLAGS_EN: bv8 := 1
  const MPCTE_PROC_CPUFLAGS_BP: bv8 := 2
  const MPCTE_PROC_CPUSIGNATURE := 0x0600_0000
  const MPCTE_PROC_FEATFLAGS_FPU_APIC := 0x201

  // ----- checksums -----

  function Total(bs: seq<byte>): nat {
    if bs == [] then 0 else Total(bs[..|bs| - 1]) + bs[|bs| - 1]
  }

  /** The byte sum, as a `uint8_t` accumulator leaves it. */
  function Sum(bs: seq<byte>): byte {
    Total(bs) % 256
  }

  method CalcChecksum(bs: seq<byte>) returns (checksum: byte)
    ensures checksum == Sum(bs)
  {
    checksum := 0;
    for i := 0 to |bs|
      invariant checksum == Sum(bs[..i])
    {
      assert bs[..i + 1][..i] == bs[..i];
      checksum := (checksum + bs[i]) % 256;
    }
    assert bs[..|bs|] == bs;
  }

  /** `(sum ^ 0xFF) + 0x1` on a `uint8_t`; `ComplementIsXor` justifies the first step. */
  function GenChecksum(sum: byte): byte {
    (255 - sum + 1) % 256
  }

  lemma ComplementIsXor(w: bv8)
    ensures (w ^ 0xFF) as int == 255 - w as int
  {
  }

  predicate IsChecksumValid(bs: seq<byte>) {
    Sum(bs) == 0
  }

  lemma {:induction false} TotalUpdate(bs: seq<byte>, k: nat, b: byte)
    requires k < |bs|
    ensures Total(bs[k := b]) == Total(bs) + b - bs[k]
  {
    var n := |bs| - 1;
    if k == n {
      assert bs[k := b][..n] == bs[..n];
    } else {
      assert bs[k := b][..n] == bs[..n][k := b];
      TotalUpdate(bs[..n], k, b);
    }
  }

  lemma ZeroSum(total: nat, b: byte)
    ensures (total + b) % 256 == 0 <==> b == GenChecksum(total % 256)
  {
  }

  /** Over a structure whose checksum slot is 0, the generated value is the one value that validates. */
  lemma ChecksumExact(bs: seq<byte>, slot: nat, b: byte)
    requires slot < |bs| && bs[slot] == 0
    ensures IsChecksumValid(bs[slot := b]) <==> b == GenChecksum(Sum(bs))
  {
    TotalUpdate(bs, slot, b);
    ZeroSum(Total(bs), b);
  }

  lemma StaleSlot(total: nat, o: byte)
    requires o <= total
    ensures (total + GenChecksum(total % 256) - o) % 256 == 0 <==> o == 0
  {
    var g := GenChecksum(total % 256);
    ZeroSum(total, g);
    assert (total + g) % 256 == 0;
  }

  lemma {:induction false} TotalBounds(bs: seq<byte>, slot: nat)
    requires slot < |bs|
    ensures bs[slot] <= Total(bs)
  {
    if slot < |bs| - 1 {
      TotalBounds(bs[..|bs| - 1], slot);
    }
  }

  /** Generating over a stale slot fails: the slot has to be 0 first. */
  lemma ChecksumNeedsClearSlot(bs: seq<byte>, slot: nat, b: byte)
    requires slot < |bs| && b == GenChecksum(Sum(bs))
    ensures IsChecksumValid(bs[slot := b]) <==> bs[slot] == 0
  {
    TotalUpdate(bs, slot, b);
    TotalBounds(bs, slot);
    StaleSlot(Total(bs), bs[slot]);
  }

  // ----- the structures and gen_ebda -----

  datatype FloatingPointer = FloatingPointer(
    signature: nat, physAddr: nat, length: byte, specRev: byte, checksum: byte)

  function FloatingPointerBytes(f: FloatingPointer): (bs: seq<byte>)
    ensures |bs| == 16
  {
    LE(4, f.signature) + LE(4, f.physAddr) + ([f.length, f.specRev, f.checksum] + Zeros(5))
  }

  /** `mpfps` as its member initialisers leave it, with the pointer filled in. */
  function BlankFloatingPointer(): FloatingPointer {
    FloatingPointer(MPFPS_INTEL_SIGNATURE, EBDA_START + 0x40, 1, MP_SPEC_REV_1_4, 0)
  }

  datatype ProcessorEntry = ProcessorEntry(
    entryType: byte, localApicId: byte, localApicVer: byte, cpuFlags: bv8, cpuSig: nat, featFlags: nat)

  const BLANK_ENTRY := ProcessorEntry(0, 0, 0, 0, 0, 0)

  function EntryBytes(e: ProcessorEntry): (bs: seq<byte>)
    ensures |bs| == 20
  {
    [e.entryType, e.localApicId, e.localApicVer, e.cpuFlags as int] + LE(4, e.cpuSig) + (LE(4, e.featFlags) + Zeros(8))
  }

  function EntriesBytes(es: seq<ProcessorEntry>): (bs: seq<byte>)
    ensures |bs| == 20 * |es|
  {
    if es == [] then [] else EntryBytes(es[0]) + EntriesBytes(es[1..])
  }

  datatype TableHeader = TableHeader(
    signature: nat, length: nat, specRev: byte, checksum: byte, oemId: nat, entryCount: nat, localApic: nat)

  /** The header of `mpctable` as its member initialisers leave it. */
  function BlankHeader(): TableHeader {
    TableHeader(MPCTABLE_INTEL_SIGNATURE, 44 + 20 * MP_MAX_VCPU_NUM, MP_SPEC_REV_1_4, 0,
      MPCTABLE_OEM_ID, MP_MAX_VCPU_NUM, APIC_BASE)
  }

  function IdentityBytes(h: TableHeader): (bs: seq<byte>)
    ensures |bs| == 8
  {
    LE(4, h.signature) + LE(2, h.length) + [h.specRev, h.checksum]
  }

  function VendorBytes(h: TableHeader): (bs: seq<byte>)
    ensures |bs| == 26
  {
    LE(8, h.oemId) + Zeros(12) + Zeros(6)
  }

  function ContentsBytes(h: TableHeader): (bs: seq<byte>)
    ensures |bs| == 10
  {
    LE(2, h.entryCount) + LE(4, h.localApic) + Zeros(4)
  }

  /** `mpctable`: a 44-byte header, then the entries. */
  function TableBytes(h: TableHeader, entries: seq<ProcessorEntry>): (bs: seq<byte>)
    ensures |bs| == 44 + 20 * |entries|
  {
    IdentityBytes(h) + VendorBytes(h) + ContentsBytes(h) + EntriesBytes(entries)
  }

  /** Entry `i` after `processor_entry_init`, given what it held before. */
  function InitializedEntry(i: nat, was: ProcessorEntry): ProcessorEntry {
    ProcessorEntry(
      MPCTE_ENTRY_TYPE_PROC, i % 256, MPCTE_PROC_APIC_VER,
      was.cpuFlags | MPCTE_PROC_CPUFLAGS_EN | (if i == 0 then MPCTE_PROC_CPUFLAGS_BP else 0),
      MPCTE_PROC_CPUSIGNATURE, MPCTE_PROC_FEATFLAGS_FPU_APIC)
  }

  method ProcessorEntryInit(entries: array<ProcessorEntry>, vcpuNum: int)
    requires vcpuNum <= entries.Length
    modifies entries
    ensures forall i :: 0 <= i < entries.Length ==>
      entries[i] == if i < vcpuNum then InitializedEntry(i, old(entries[i])) else old(entries[i])
  {
    var i := 0;
    while i < vcpuNum
      invariant 0 <= i <= entries.Length
      invariant vcpuNum >= 0 ==> i <= vcpuNum
      invariant vcpuNum < 0 ==> i == 0
      invariant forall k :: 0 <= k < entries.Length ==>
        entries[k] == if k < i then InitializedEntry(k, old(entries[k])) else old(entries[k])
    {
      entries[i] := entries[i].(entryType := MPCTE_ENTRY_TYPE_PROC);
      entries[i] := entries[i].(localApicId := i % 256);
      entries[i] := entries[i].(localApicVer := MPCTE_PROC_APIC_VER);
      entries[i] := entries[i].(cpuFlags := entries[i].cpuFlags | MPCTE_PROC_CPUFLAGS_EN);
      entries[i] := entries[i].(cpuFlags := entries[i].cpuFlags | if i == 0 then MPCTE_PROC_CPUFLAGS_BP else 0);
      entries[i] := entries[i].(cpuSig := MPCTE_PROC_CPUSIGNATURE);
      entries[i] := entries[i].(featFlags := MPCTE_PROC_FEATFLAGS_FPU_APIC);
      i := i + 1;
    }
  }

  /** All 32 slots are described; those past `vcpuNum` stay blank, hence disabled. */
  function Entries(vcpuNum: int): (es: seq<ProcessorEntry>)
    ensures |es| == MP_MAX_VCPU_NUM
  {
    seq(MP_MAX_VCPU_NUM, i requires 0 <= i =>
      if i < vcpuNum then InitializedEntry(i, BLANK_ENTRY) else BLANK_ENTRY)
  }

  /** A structure with its generated checksum in place. */
  function SealedPointer(f: FloatingPointer): FloatingPointer {
    f.(checksum := GenChecksum(Sum(FloatingPointerBytes(f))))
  }

  function SealedHeader(h: TableHeader, entries: seq<ProcessorEntry>): TableHeader {
    h.(checksum := GenChecksum(Sum(TableBytes(h, entries))))
  }

  /** The 748 bytes that `gen_ebda(vcpuNum)` returns. */
  function EbdaBytes(vcpuNum: int): (bs: seq<byte>)
    ensures |bs| == EBDA_SIZE
  {
    var entries := Entries(vcpuNum);
    Zeros(EBDA_PADDING_SIZE)
    + FloatingPointerBytes(SealedPointer(BlankFloatingPointer()))
    + TableBytes(SealedHeader(BlankHeader(), entries), entries)
  }

  method GenEbda(vcpuNum: int) returns (bs: seq<byte>)
    requires vcpuNum <= MP_MAX_VCPU_NUM
    ensures bs == EbdaBytes(vcpuNum)
  {
    var fps := FloatingPointer(MPFPS_INTEL_SIGNATURE, 0, 1, MP_SPEC_REV_1_4, 0);
    fps := fps.(physAddr := EBDA_START + 0x40);
    var sum := CalcChecksum(FloatingPointerBytes(fps));
    fps := fps.(checksum := GenChecksum(sum));

    var header := BlankHeader();
    var entries := new ProcessorEntry[MP_MAX_VCPU_NUM](_ => BLANK_ENTRY);
    ProcessorEntryInit(entries, vcpuNum);
    assert entries[..] == Entries(vcpuNum);
    sum := CalcChecksum(TableBytes(header, entries[..]));
    header := header.(checksum := GenChecksum(sum));
    bs := Zeros(EBDA_PADDING_SIZE) + FloatingPointerBytes(fps) + TableBytes(header, entries[..]);
  }

  // ----- the reader -----

  datatype Processor = Processor(
    apicId: byte, apicVer: byte, enabled: bool, bootstrap: bool, otherFlags: byte, signature: nat, features: nat,
    reserved: seq<byte>)

  datatype Walked = Walked(processors: seq<Processor>, end: nat)

  datatype MpConfig = MpConfig(table: nat, length: nat, localApic: nat, walked: Walked)

  /** All bytes added up, wrapping. */
  function ByteSum(bs: seq<byte>): byte {
    if bs == [] then 0 else (bs[0] + ByteSum(bs[1..])) % 256
  }

  lemma {:induction false} TotalFront(bs: seq<byte>)
    requires bs != []
    ensures Total(bs) == bs[0] + Total(bs[1..])
  {
    var n := |bs| - 1;
    if n > 0 {
      TotalFront(bs[..n]);
      assert bs[..n][1..] == bs[1..][..n - 1];
    }
  }

  /** The reader's sum is the writer's. */
  lemma {:induction false} SumsAgree(bs: seq<byte>)
    ensures ByteSum(bs) == Sum(bs)
  {
    if bs != [] {
      TotalFront(bs);
      SumsAgree(bs[1..]);
    }
  }

  /** The floating pointer structure at `a`: signature, length in paragraphs, checksum. */
  predicate FloatingPointerAt(m: seq<byte>, a: nat) {
    && a + 16 <= |m|
    && m[a] == '_' as int && m[a + 1] == 'M' as int && m[a + 2] == 'P' as int && m[a + 3] == '_' as int
    && var length: nat := 16 * (m[a + 8] as nat);
    && a + length <= |m|
    && ByteSum(m[a..a + length]) == 0
  }

  /** The first paragraph of `[a, limit)` that holds a floating pointer structure. */
  function FindFloatingPointer(m: seq<byte>, a: nat, limit: nat): Option<nat>
    decreases |m| - a
  {
    if a + 16 > limit || a + 16 > |m| then None
    else if FloatingPointerAt(m, a) then Some(a)
    else FindFloatingPointer(m, a + 16, limit)
  }

  /** `count` entries from `a` on, none reaching past `limit`: type 0 is a 20-byte processor, types 1-4 take 8 bytes. */
  function WalkEntries(m: seq<byte>, a: nat, limit: nat, count: nat): Option<Walked>
    requires limit <= |m|
    decreases count
  {
    if count == 0 then Some(Walked([], a))
    else if a >= limit then None
    else if m[a] == 0 then
      if a + 20 > limit then None
      else
        match WalkEntries(m, a + 20, limit, count - 1)
        case None => None
        case Some(rest) => Some(Walked([ReadProcessor(m, a)] + rest.processors, rest.end))
    else if m[a] <= 4 then WalkEntries(m, a + 8, limit, count - 1)
    else None
  }

  function ReadProcessor(m: seq<byte>, a: nat): Processor
    requires a + 20 <= |m|
  {
    var flags := m[a + 3];
    Processor(m[a + 1], m[a + 2], flags % 2 == 1, flags / 2 % 2 == 1, flags / 4, Load(m, a + 4, 4), Load(m, a + 8, 4),
      m[a + 12..a + 20])
  }

  function ReadTable(m: seq<byte>, p: nat): Option<MpConfig> {
    if p + 44 > |m| then None
    else if m[p..p + 4] != ['P' as int, 'C' as int, 'M' as int, 'P' as int] then None
    else
      var length := Load(m, p + 4, 2);
      if length < 44 || p + length > |m| || ByteSum(m[p..p + length]) != 0 then None
      else
        match WalkEntries(m, p + 44, p + length, Load(m, p + 34, 2))
        case None => None
        case Some(walked) => Some(MpConfig(p, length, Load(m, p + 36, 4), walked))
  }

  /** Search the first kilobyte of the EBDA, then follow the pointer. */
  function ReadMpConfig(m: seq<byte>, ebda: nat): Option<MpConfig> {
    match FindFloatingPointer(m, ebda, ebda + 1024)
    case None => None
    case Some(a) =>
      if FloatingPointerAt(m, a) && m[a + 11] == 0 then ReadTable(m, Load(m, a + 4, 4)) else None
  }

  function Enabled(ps: seq<Processor>): seq<Processor> {
    if ps == [] then []
    else (if ps[0].enabled then [ps[0]] else []) + Enabled(ps[1..])
  }

  // ----- the round trip -----

  /** What `gen_ebda(vcpuNum)` was asked to describe: enabled processors with an APIC of version 0x14, the fixed
      signature, and an FPU and APIC on chip. */
  function RequestedProcessors(vcpuNum: nat): seq<Processor>
    requires vcpuNum <= MP_MAX_VCPU_NUM
  {
    seq(vcpuNum, i requires 0 <= i < vcpuNum =>
      Processor(i, 0x14, true, i == 0, 0, 0x0600_0000, 0x201, Zeros(8)))
  }

  lemma SignatureBytes()
    ensures LE(4, MPFPS_INTEL_SIGNATURE) == ['_' as int, 'M' as int, 'P' as int, '_' as int]
    ensures LE(4, MPCTABLE_INTEL_SIGNATURE) == ['P' as int, 'C' as int, 'M' as int, 'P' as int]
  {
    assert LE(1, 0x5f) == [0x5f] && LE(2, 0x5f50) == [0x50, 0x5f] && LE(3, 0x5f50_4d) == [0x4d, 0x50, 0x5f];
    assert LE(1, 0x50) == [0x50] && LE(2, 0x504d) == [0x4d, 0x50] && LE(3, 0x504d_43) == [0x43, 0x4d, 0x50];
  }

  lemma UpdateInFront(a: seq<byte>, a': seq<byte>, rest: seq<byte>, slot: nat, b: byte)
    requires slot < |a| && a' == a[slot := b]
    ensures a' + rest == (a + rest)[slot := b]
  {
  }

  lemma PointerSums(f: FloatingPointer)
    requires f.checksum == 0
    ensures ByteSum(FloatingPointerBytes(SealedPointer(f))) == 0
  {
    var blank := FloatingPointerBytes(f);
    var sealed := SealedPointer(f);
    var checksum := sealed.checksum;
    assert FloatingPointerBytes(sealed) == blank[10 := checksum];
    ChecksumExact(blank, 10, checksum);
    SumsAgree(FloatingPointerBytes(sealed));
  }

  lemma PointerFields(m: seq<byte>, a: nat, f: FloatingPointer)
    requires a + 16 <= |m| && m[a..a + 16] == FloatingPointerBytes(f)
    requires f.physAddr < Pow256(4)
    ensures m[a..a + 4] == LE(4, f.signature) && Load(m, a + 4, 4) == f.physAddr
    ensures m[a + 8] == f.length && m[a + 11] == 0
  {
    var bs := FloatingPointerBytes(f);
    ConcatParts(LE(4, f.signature), LE(4, f.physAddr), [f.length, f.specRev, f.checksum] + Zeros(5));
    SliceOfSlice(m, a, bs, 0, 4);
    SliceOfSlice(m, a, bs, 4, 4);
    assert m[a + 8] == m[a..a + 16][8] && m[a + 11] == m[a..a + 16][11];
    DecodeEncode(4, f.physAddr);
  }

  lemma FloatingPointerReads(m: seq<byte>, a: nat)
    requires a + 16 <= |m| && m[a..a + 16] == FloatingPointerBytes(SealedPointer(BlankFloatingPointer()))
    ensures FloatingPointerAt(m, a) && m[a + 11] == 0 && Load(m, a + 4, 4) == EBDA_START + 0x40
  {
    Pow256Values();
    PointerFields(m, a, SealedPointer(BlankFloatingPointer()));
    PointerSums(BlankFloatingPointer());
    SignatureBytes();
    var signature := m[a..a + 4];
    assert m[a] == signature[0] && m[a + 1] == signature[1] && m[a + 2] == signature[2] && m[a + 3] == signature[3];
  }

  // ----- reading the entries back -----

  predicate EntryInRange(e: ProcessorEntry) {
    e.entryType == MPCTE_ENTRY_TYPE_PROC && e.cpuSig < Pow256(4) && e.featFlags < Pow256(4)
  }

  function Decoded(e: ProcessorEntry): Processor {
    var flags := e.cpuFlags as int;
    Processor(e.localApicId, e.localApicVer, flags % 2 == 1, flags / 2 % 2 == 1, flags / 4, e.cpuSig, e.featFlags,
      Zeros(8))
  }

  function AllDecoded(es: seq<ProcessorEntry>): (ps: seq<Processor>)
    ensures |ps| == |es| && forall i :: 0 <= i < |es| ==> ps[i] == Decoded(es[i])
  {
    seq(|es|, i requires 0 <= i < |es| => Decoded(es[i]))
  }

  lemma EntryReads(m: seq<byte>, a: nat, e: ProcessorEntry)
    requires a + 20 <= |m| && m[a..a + 20] == EntryBytes(e) && EntryInRange(e)
    ensures m[a] == 0 && ReadProcessor(m, a) == Decoded(e)
  {
    var bytes := [e.entryType, e.localApicId, e.localApicVer, e.cpuFlags as int];
    ConcatParts(bytes, LE(4, e.cpuSig), LE(4, e.featFlags) + Zeros(8));
    ConcatParts(bytes + LE(4, e.cpuSig), LE(4, e.featFlags), Zeros(8));
    assert EntryBytes(e) == bytes + LE(4, e.cpuSig) + LE(4, e.featFlags) + Zeros(8);
    SliceOfSlice(m, a, EntryBytes(e), 0, 4);
    SliceOfSlice(m, a, EntryBytes(e), 4, 4);
    SliceOfSlice(m, a, EntryBytes(e), 8, 4);
    SliceOfSlice(m, a, EntryBytes(e), 12, 8);
    assert EntryBytes(e)[12..20] == Zeros(8);
    var front := m[a..a + 4];
    assert front[0] == m[a] && front[1] == m[a + 1] && front[2] == m[a + 2] && front[3] == m[a + 3];
    DecodeEncode(4, e.cpuSig);
    DecodeEncode(4, e.featFlags);
  }

  lemma EntriesSplit(m: seq<byte>, a: nat, es: seq<ProcessorEntry>)
    requires es != [] && a + 20 * |es| <= |m| && m[a..a + 20 * |es|] == EntriesBytes(es)
    ensures m[a..a + 20] == EntryBytes(es[0]) && m[a + 20..a + 20 + 20 * |es[1..]|] == EntriesBytes(es[1..])
  {
    var bs := EntriesBytes(es);
    SliceOfSlice(m, a, bs, 0, 20);
    SliceOfSlice(m, a, bs, 20, 20 * |es[1..]|);
  }

  lemma WalkOneProcessor(m: seq<byte>, a: nat, limit: nat, count: nat, rest: Walked)
    requires a + 20 <= limit <= |m| && m[a] == 0
    requires WalkEntries(m, a + 20, limit, count) == Some(rest)
    ensures WalkEntries(m, a, limit, count + 1) == Some(Walked([ReadProcessor(m, a)] + rest.processors, rest.end))
  {
  }

  lemma DecodedFront(es: seq<ProcessorEntry>)
    requires es != []
    ensures AllDecoded(es) == [Decoded(es[0])] + AllDecoded(es[1..])
  {
  }

  lemma {:induction false} EntriesRead(m: seq<byte>, a: nat, limit: nat, es: seq<ProcessorEntry>)
    requires a + 20 * |es| <= limit <= |m| && m[a..a + 20 * |es|] == EntriesBytes(es)
    requires forall i :: 0 <= i < |es| ==> EntryInRange(es[i])
    ensures WalkEntries(m, a, limit, |es|) == Some(Walked(AllDecoded(es), a + 20 * |es|))
    decreases |es|
  {
    if es != [] {
      var rest := es[1..];
      EntriesSplit(m, a, es);
      EntryReads(m, a, es[0]);
      EntriesRead(m, a + 20, limit, rest);
      WalkOneProcessor(m, a, limit, |rest|, Walked(AllDecoded(rest), a + 20 + 20 * |rest|));
      DecodedFront(es);
    }
  }

  lemma FlagBits()
    ensures (0 | MPCTE_PROC_CPUFLAGS_EN | MPCTE_PROC_CPUFLAGS_BP) as int == 3
    ensures (0 | MPCTE_PROC_CPUFLAGS_EN | 0) as int == 1
  {
  }

  lemma EntriesInRange(vcpuNum: int)
    ensures forall i :: 0 <= i < MP_MAX_VCPU_NUM ==> EntryInRange(Entries(vcpuNum)[i])
  {
    Pow256Values();
  }

  lemma EntryDecodes(vcpuNum: nat, k: nat)
    requires vcpuNum <= MP_MAX_VCPU_NUM && k < MP_MAX_VCPU_NUM
    ensures Decoded(Entries(vcpuNum)[k]) ==
      if k < vcpuNum then RequestedProcessors(vcpuNum)[k] else Processor(0, 0, false, false, 0, 0, 0, Zeros(8))
  {
    FlagBits();
    assert Entries(vcpuNum)[k] == if k < vcpuNum then InitializedEntry(k, BLANK_ENTRY) else BLANK_ENTRY;
  }

  lemma {:induction false} EnabledAreRequested(vcpuNum: nat, k: nat)
    requires vcpuNum <= MP_MAX_VCPU_NUM && k <= MP_MAX_VCPU_NUM
    ensures Enabled(AllDecoded(Entries(vcpuNum))[k..])
         == if k < vcpuNum then RequestedProcessors(vcpuNum)[k..] else []
    decreases MP_MAX_VCPU_NUM - k
  {
    if k < MP_MAX_VCPU_NUM {
      EnabledAreRequested(vcpuNum, k + 1);
      EntryDecodes(vcpuNum, k);
      var ps := AllDecoded(Entries(vcpuNum));
      assert ps[k..][1..] == ps[k + 1..];
      if k < vcpuNum {
        assert RequestedProcessors(vcpuNum)[k..] == [ps[k]] + RequestedProcessors(vcpuNum)[k + 1..];
      }
    }
  }

  // ----- reading the table back -----

  lemma FourParts(identity: seq<byte>, vendor: seq<byte>, contents: seq<byte>, entries: seq<byte>)
    requires |identity| == 8 && |vendor| == 26 && |contents| == 10 && |entries| == 640
    ensures var bs := identity + vendor + contents + entries;
      && |bs| == 684
      && bs[0..4] == identity[0..4] && bs[4..6] == identity[4..6]
      && bs[34..36] == contents[0..2] && bs[36..40] == contents[2..6]
      && bs[44..684] == entries
      && bs[6] == identity[6] && bs[8..34] == vendor && bs[40..44] == contents[6..10]
  {
  }

  lemma TableSlices(h: TableHeader, entries: seq<ProcessorEntry>)
    requires |entries| == MP_MAX_VCPU_NUM
    ensures var bs := TableBytes(h, entries);
      && bs[0..4] == LE(4, h.signature) && bs[4..6] == LE(2, h.length)
      && bs[34..36] == LE(2, h.entryCount) && bs[36..40] == LE(4, h.localApic) && bs[44..684] == EntriesBytes(entries)
  {
    FourParts(IdentityBytes(h), VendorBytes(h), ContentsBytes(h), EntriesBytes(entries));
    ConcatParts(LE(4, h.signature), LE(2, h.length), [h.specRev, h.checksum]);
    ConcatParts(LE(2, h.entryCount), LE(4, h.localApic), Zeros(4));
  }

  lemma TableHeaderReads(m: seq<byte>, p: nat, h: TableHeader, entries: seq<ProcessorEntry>)
    requires |entries| == MP_MAX_VCPU_NUM && p + 684 <= |m| && m[p..p + 684] == TableBytes(h, entries)
    requires h.length < Pow256(2) && h.entryCount < Pow256(2) && h.localApic < Pow256(4)
    ensures m[p..p + 4] == LE(4, h.signature)
    ensures Load(m, p + 4, 2) == h.length && Load(m, p + 34, 2) == h.entryCount && Load(m, p + 36, 4) == h.localApic
    ensures m[p + 44..p + 684] == EntriesBytes(entries)
  {
    var bs := TableBytes(h, entries);
    TableSlices(h, entries);
    SliceOfSlice(m, p, bs, 0, 4);
    SliceOfSlice(m, p, bs, 4, 2);
    SliceOfSlice(m, p, bs, 34, 2);
    SliceOfSlice(m, p, bs, 36, 4);
    SliceOfSlice(m, p, bs, 44, 640);
    DecodeEncode(2, h.length);
    DecodeEncode(2, h.entryCount);
    DecodeEncode(4, h.localApic);
  }

  lemma TableChecksumSlot(h: TableHeader, checksum: byte, entries: seq<ProcessorEntry>)
    ensures TableBytes(h, entries)[7] == h.checksum
    ensures TableBytes(h.(checksum := checksum), entries) == TableBytes(h, entries)[7 := checksum]
  {
    var h' := h.(checksum := checksum);
    var before, after := IdentityBytes(h), IdentityBytes(h');
    assert before[7] == h.checksum && after == before[7 := checksum];
    UpdateInFront(before, after, VendorBytes(h), 7, checksum);
    UpdateInFront(before + VendorBytes(h), after + VendorBytes(h), ContentsBytes(h), 7, checksum);
    UpdateInFront(before + VendorBytes(h) + ContentsBytes(h), after + VendorBytes(h) + ContentsBytes(h),
      EntriesBytes(entries), 7, checksum);
  }

  lemma TableSumsToZero(h: TableHeader, entries: seq<ProcessorEntry>)
    requires h.checksum == 0
    ensures ByteSum(TableBytes(SealedHeader(h, entries), entries)) == 0
  {
    var checksum := SealedHeader(h, entries).checksum;
    TableChecksumSlot(h, checksum, entries);
    ChecksumExact(TableBytes(h, entries), 7, checksum);
    SumsAgree(TableBytes(SealedHeader(h, entries), entries));
  }

  lemma TableReads(m: seq<byte>, p: nat, entries: seq<ProcessorEntry>)
    requires |entries| == MP_MAX_VCPU_NUM && p + 684 <= |m|
    requires m[p..p + 684] == TableBytes(SealedHeader(BlankHeader(), entries), entries)
    requires forall i :: 0 <= i < |entries| ==> EntryInRange(entries[i])
    ensures ReadTable(m, p) == Some(MpConfig(p, 684, APIC_BASE, Walked(AllDecoded(entries), p + 684)))
  {
    Pow256Values();
    SignatureBytes();
    TableHeaderReads(m, p, SealedHeader(BlankHeader(), entries), entries);
    TableSumsToZero(BlankHeader(), entries);
    EntriesRead(m, p + 44, p + 684, entries);
  }

  /** The rest of the table's header: revision, OEM, no product, no OEM table, no extended entries. */
  lemma TableRest(m: seq<byte>, p: nat, h: TableHeader, entries: seq<ProcessorEntry>)
    requires |entries| == MP_MAX_VCPU_NUM && p + 684 <= |m| && m[p..p + 684] == TableBytes(h, entries)
    ensures m[p + 6] == h.specRev && m[p + 8..p + 16] == LE(8, h.oemId)
    ensures m[p + 16..p + 34] == Zeros(18) && m[p + 40..p + 44] == Zeros(4)
  {
    var bs := TableBytes(h, entries);
    FourParts(IdentityBytes(h), VendorBytes(h), ContentsBytes(h), EntriesBytes(entries));
    SliceOfSlice(m, p, bs, 8, 26);
    SliceOfSlice(m, p, bs, 40, 4);
    SliceOfSlice(m, p + 8, VendorBytes(h), 0, 8);
    SliceOfSlice(m, p + 8, VendorBytes(h), 8, 18);
    assert VendorBytes(h)[8..26] == Zeros(18);
    assert ContentsBytes(h)[6..10] == Zeros(4);
    assert m[p + 6] == m[p..p + 684][6];
  }

  lemma OemBytes()
    ensures LE(8, MPCTABLE_OEM_ID)
         == ['L' as int, 'M' as int, 'I' as int, 'G' as int, 'T' as int, 'E' as int, 'S' as int, 'T' as int]
  {
    assert LE(1, 0x54) == [0x54] && LE(2, 0x5453) == [0x53, 0x54] && LE(3, 0x5453_45) == [0x45, 0x53, 0x54];
    assert LE(4, 0x5453_4554) == [0x54, 0x45, 0x53, 0x54];
    assert LE(5, 0x5453_4554_47) == [0x47, 0x54, 0x45, 0x53, 0x54];
    assert LE(6, 0x5453_4554_4749) == [0x49, 0x47, 0x54, 0x45, 0x53, 0x54];
    assert LE(7, 0x5453_4554_4749_4d) == [0x4d, 0x49, 0x47, 0x54, 0x45, 0x53, 0x54];
  }

  /** The fields that the walk does not need: revision 1.4 in both structures, no default configuration and no other
      feature, OEM "LMIGTEST", no product name, no OEM table and no extended entries. */
  predicate FixedFields(m: seq<byte>, a: nat, p: nat) {
    && a + 16 <= |m| && p + 44 <= |m|
    && m[a + 9] == 4 && m[a + 11..a + 16] == Zeros(5)
    && m[p + 6] == 4
    && m[p + 8..p + 16]
       == ['L' as int, 'M' as int, 'I' as int, 'G' as int, 'T' as int, 'E' as int, 'S' as int, 'T' as int]
    && m[p + 16..p + 34] == Zeros(18) && m[p + 40..p + 44] == Zeros(4)
  }

  lemma FixedFieldsRead(m: seq<byte>, ebda: nat, vcpuNum: int)
    requires ebda + EBDA_SIZE <= |m| && m[ebda..ebda + EBDA_SIZE] == EbdaBytes(vcpuNum)
    ensures FixedFields(m, ebda + 48, ebda + 64)
  {
    var f := SealedPointer(BlankFloatingPointer());
    EbdaSections(m, ebda, vcpuNum);
    PointerRest(m, ebda + 48, f);
    TableRest(m, ebda + 64, SealedHeader(BlankHeader(), Entries(vcpuNum)), Entries(vcpuNum));
    OemBytes();
  }

  lemma PointerRest(m: seq<byte>, a: nat, f: FloatingPointer)
    requires a + 16 <= |m| && m[a..a + 16] == FloatingPointerBytes(f)
    ensures m[a + 9] == f.specRev && m[a + 11..a + 16] == Zeros(5)
  {
    var bs := FloatingPointerBytes(f);
    SliceOfSlice(m, a, bs, 11, 5);
    assert bs[11..16] == Zeros(5);
    assert m[a + 9] == m[a..a + 16][9];
  }

  /** The search skips the padding and stops at the structure behind it. */
  lemma SearchFinds(m: seq<byte>, a: nat)
    requires a + 64 <= |m| && m[a..a + EBDA_PADDING_SIZE] == Zeros(EBDA_PADDING_SIZE) && FloatingPointerAt(m, a + 48)
    ensures FindFloatingPointer(m, a, a + 1024) == Some(a + 48)
  {
    var padding := m[a..a + EBDA_PADDING_SIZE];
    assert m[a] == padding[0] && m[a + 16] == padding[16] && m[a + 32] == padding[32];
    assert FindFloatingPointer(m, a + 48, a + 1024) == Some(a + 48);
    assert FindFloatingPointer(m, a + 32, a + 1024) == Some(a + 48);
    assert FindFloatingPointer(m, a + 16, a + 1024) == Some(a + 48);
  }

  /** The three parts of the image, in guest memory. */
  lemma EbdaSections(m: seq<byte>, ebda: nat, vcpuNum: int)
    requires ebda + EBDA_SIZE <= |m| && m[ebda..ebda + EBDA_SIZE] == EbdaBytes(vcpuNum)
    ensures m[ebda..ebda + 48] == Zeros(EBDA_PADDING_SIZE)
    ensures m[ebda + 48..ebda + 64] == FloatingPointerBytes(SealedPointer(BlankFloatingPointer()))
    ensures var entries := Entries(vcpuNum);
      m[ebda + 64..ebda + 748] == TableBytes(SealedHeader(BlankHeader(), entries), entries)
  {
    var bs, entries := EbdaBytes(vcpuNum), Entries(vcpuNum);
    ConcatParts(Zeros(EBDA_PADDING_SIZE), FloatingPointerBytes(SealedPointer(BlankFloatingPointer())),
      TableBytes(SealedHeader(BlankHeader(), entries), entries));
    SliceOfSlice(m, ebda, bs, 0, 48);
    SliceOfSlice(m, ebda, bs, 48, 16);
    SliceOfSlice(m, ebda, bs, 64, 684);
  }

  lemma ReadThrough(m: seq<byte>, ebda: nat, a: nat, c: MpConfig)
    requires FindFloatingPointer(m, ebda, ebda + 1024) == Some(a)
    requires FloatingPointerAt(m, a) && m[a + 11] == 0 && ReadTable(m, Load(m, a + 4, 4)) == Some(c)
    ensures ReadMpConfig(m, ebda) == Some(c)
  {
  }

  lemma ConfigReads(m: seq<byte>, ebda: nat, vcpuNum: nat)
    requires ebda == EBDA_START
    requires ebda + EBDA_SIZE <= |m| && m[ebda..ebda + EBDA_SIZE] == EbdaBytes(vcpuNum)
    ensures ReadMpConfig(m, ebda) == Some(MpConfig(
      ebda + 64, 684, APIC_BASE, Walked(AllDecoded(Entries(vcpuNum)), ebda + 64 + 684)))
  {
    var entries := Entries(vcpuNum);
    EbdaSections(m, ebda, vcpuNum);
    FloatingPointerReads(m, ebda + 48);
    SearchFinds(m, ebda);
    EntriesInRange(vcpuNum);
    TableReads(m, ebda + 64, entries);
    ReadThrough(m, ebda, ebda + 48, MpConfig(
      ebda + 64, 684, APIC_BASE, Walked(AllDecoded(entries), ebda + 64 + 684)));
  }

  /** A reader of the EBDA at `ebda` finds a floating pointer behind the padding, a table whose entries take exactly
      its `length` bytes, all fixed fields as they should be, and as enabled processors exactly the requested ones:
      APIC ids 0, 1, ... in order, only id 0 the bootstrap processor. */
  predicate Describes(m: seq<byte>, ebda: nat, vcpuNum: nat)
    requires vcpuNum <= MP_MAX_VCPU_NUM
  {
    var c := ReadMpConfig(m, ebda);
    && FindFloatingPointer(m, ebda, ebda + 1024) == Some(ebda + 48) && FixedFields(m, ebda + 48, ebda + 64)
    && c.Some? && c.value.table == ebda + 64 && c.value.localApic == 0xfee0_0000
    && c.value.walked.end == c.value.table + c.value.length
    && |c.value.walked.processors| == MP_MAX_VCPU_NUM
    && Enabled(c.value.walked.processors) == RequestedProcessors(vcpuNum)
  }

  lemma DescribedAt(m: seq<byte>, ebda: nat, vcpuNum: nat)
    requires vcpuNum <= MP_MAX_VCPU_NUM && ebda == EBDA_START
    requires ebda + EBDA_SIZE <= |m| && m[ebda..ebda + EBDA_SIZE] == EbdaBytes(vcpuNum)
    ensures Describes(m, ebda, vcpuNum)
  {
    FixedFieldsRead(m, ebda, vcpuNum);
    EbdaSections(m, ebda, vcpuNum);
    FloatingPointerReads(m, ebda + 48);
    SearchFinds(m, ebda);
    ConfigReads(m, ebda, vcpuNum);
    EnabledAreRequested(vcpuNum, 0);
    assert AllDecoded(Entries(vcpuNum))[0..] == AllDecoded(Entries(vcpuNum));
    assert RequestedProcessors(vcpuNum)[0..] == RequestedProcessors(vcpuNum);
  }

  /** Once `gen_ebda(vcpuNum)` is copied to 0x9fc00, whatever else memory holds, the specification's reader finds there
      what was asked for. */
  lemma RoundTrip(m: seq<byte>, vcpuNum: nat)
    requires vcpuNum <= MP_MAX_VCPU_NUM && 0x9_fc00 + 748 <= |m|
    ensures Describes(Overwrite(m, 0x9_fc00, EbdaBytes(vcpuNum)), 0x9_fc00, vcpuNum)
  {
    DescribedAt(Overwrite(m, EBDA_START, EbdaBytes(vcpuNum)), EBDA_START, vcpuNum);
  }
}
