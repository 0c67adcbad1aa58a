/** Bytes, little-endian words and guest memory as a sequence of bytes.

Packed structures reach guest RAM byte by byte, so every reader and writer in this project
works on `seq<byte>`.  `ApplyAll` gives a list of memory writes its meaning, and the lemmas
about it say when every write survives and when their order does not matter.
*/
module Bytes {

  type byte = x: int | 0 <= x < 256

  const TWO_TO_THE_64 := 0x1_0000_0000_0000_0000

  datatype Option<+T> = None | Some(value: T)

  /** The source tests registers with `&`, masks them with `&` and combines disjoint bits with `|`; on bytes as
      numbers that is the arithmetic used throughout this project. */
  lemma MaskTests(w: bv8)
    ensures (w & 0x01 != 0) == (w as int % 2 == 1)
    ensures (w & 0x02 != 0) == (w as int / 2 % 2 == 1)
  {
  }

  lemma Mask4Test(w: bv8)
    ensures (w & 0x04 != 0) == (w as int / 4 % 2 == 1)
  {
  }

  lemma Mask8Test(w: bv8)
    ensures (w & 0x08 != 0) == (w as int / 8 % 2 == 1)
  {
  }

  lemma HighMaskTests(w: bv8)
    ensures (w & 0x10 != 0) == (w as int / 0x10 % 2 == 1)
    ensures (w & 0x80 != 0) == (w as int / 0x80 % 2 == 1)
  {
  }

  lemma MaskRemainders(w: bv8)
    ensures (w & 0x0F) as int == w as int % 0x10
    ensures (w & 0x7F) as int == w as int % 0x80
  {
  }

  lemma DisjointBits(v: bv8, w: bv8)
    requires v & w == 0
    ensures v | w == v + w && v as int + w as int < 256
    ensures (v | w) as int == v as int + w as int
  {
  }

  // ----- little-endian words -----

  function Pow256(n: nat): (p: nat)
    ensures p > 0
  {
    if n == 0 then 1 else 256 * Pow256(n - 1)
  }

  /** The `n` bytes of `v`, least significant first. */
  function LE(n: nat, v: nat): (bs: seq<byte>)
    ensures |bs| == n
  {
    if n == 0 then [] else [v % 256] + LE(n - 1, v / 256)
  }

  function FromLE(bs: seq<byte>): nat
  {
    if bs == [] then 0 else bs[0] + 256 * FromLE(bs[1..])
  }

  lemma {:induction false} DecodeEncode(n: nat, v: nat)
    requires v < Pow256(n)
    ensures FromLE(LE(n, v)) == v
  {
    if n != 0 {
      DecodeEncode(n - 1, v / 256);
      assert LE(n, v)[1..] == LE(n - 1, v / 256);
    }
  }

  lemma {:induction false} EncodeDecode(bs: seq<byte>)
    ensures FromLE(bs) < Pow256(|bs|)
    ensures LE(|bs|, FromLE(bs)) == bs
  {
    if bs != [] {
      EncodeDecode(bs[1..]);
      assert FromLE(bs) / 256 == FromLE(bs[1..]);
    }
  }

  lemma Pow256Values()
    ensures Pow256(1) == 0x100 && Pow256(2) == 0x1_0000
    ensures Pow256(4) == 0x1_0000_0000 && Pow256(8) == 0x1_0000_0000_0000_0000
  {
    assert Pow256(3) == 0x100_0000;
    assert Pow256(4) == 0x1_0000_0000;
    assert Pow256(5) == 0x100_0000_0000;
    assert Pow256(6) == 0x1_0000_0000_0000;
    assert Pow256(7) == 0x100_0000_0000_0000;
  }

  function Zeros(n: nat): (bs: seq<byte>)
    ensures |bs| == n && forall i :: 0 <= i < n ==> bs[i] == 0
  {
    seq(n, _ => 0)
  }

  lemma {:induction false} EncodeZero(n: nat)
    ensures LE(n, 0) == Zeros(n)
  {
    if n != 0 {
      EncodeZero(n - 1);
    }
  }

  // ----- memory -----

  /** The `n`-byte little-endian word at address `a`. */
  function Load(m: seq<byte>, a: nat, n: nat): nat
    requires a + n <= |m|
  {
    FromLE(m[a..a + n])
  }

  function Overwrite(m: seq<byte>, a: nat, bs: seq<byte>): (m': seq<byte>)
    requires a + |bs| <= |m|
    ensures |m'| == |m|
    ensures forall i :: 0 <= i < |m| ==> m'[i] == if a <= i < a + |bs| then bs[i - a] else m[i]
    ensures m'[a..a + |bs|] == bs
  {
    m[..a] + bs + m[a + |bs|..]
  }

  lemma LoadElsewhere(m: seq<byte>, a: nat, bs: seq<byte>, b: nat, n: nat)
    requires a + |bs| <= |m| && b + n <= |m|
    requires b + n <= a || a + |bs| <= b
    ensures Load(Overwrite(m, a, bs), b, n) == Load(m, b, n)
  {
    assert Overwrite(m, a, bs)[b..b + n] == m[b..b + n];
  }

  /** Slicing a slice: `whole` sits at `a`, `part` sits at `off` inside it. */
  lemma SliceOfSlice(m: seq<byte>, a: nat, whole: seq<byte>, off: nat, n: nat)
    requires a + |whole| <= |m| && m[a..a + |whole|] == whole
    requires off + n <= |whole|
    ensures m[a + off..a + off + n] == whole[off..off + n]
  {
    var left, right := m[a + off..a + off + n], whole[off..off + n];
    assert |left| == |right|;
    forall i | 0 <= i < n ensures left[i] == right[i] {
      assert m[a..a + |whole|][off + i] == m[a + off + i];
    }
  }

  lemma LoadInside(m: seq<byte>, a: nat, whole: seq<byte>, off: nat, n: nat)
    requires a + |whole| <= |m| && m[a..a + |whole|] == whole
    requires off + n <= |whole|
    ensures Load(m, a + off, n) == Load(whole, off, n)
  {
    SliceOfSlice(m, a, whole, off, n);
  }

  /** The parts of a concatenation, sliced out again. */
  lemma ConcatParts(a: seq<byte>, b: seq<byte>, c: seq<byte>)
    ensures (a + b + c)[..|a|] == a
    ensures (a + b + c)[|a|..|a| + |b|] == b
    ensures (a + b + c)[|a| + |b|..] == c
  {
  }

  // ----- lists of writes -----

  datatype Region = Region(addr: nat, bytes: seq<byte>) {
    function End(): nat { addr + |bytes| }

    predicate Covers(i: int) { addr <= i < End() }
  }

  predicate AllFit(rs: seq<Region>, size: nat) {
    forall j :: 0 <= j < |rs| ==> rs[j].End() <= size
  }

  /** The two writes want the same byte wherever both write. */
  ghost predicate Agree(r: Region, s: Region) {
    forall i :: r.Covers(i) && s.Covers(i) ==> r.bytes[i - r.addr] == s.bytes[i - s.addr]
  }

  ghost predicate AllAgree(rs: seq<Region>) {
    forall j, k :: 0 <= j < k < |rs| ==> Agree(rs[j], rs[k])
  }

  predicate Present(m: seq<byte>, r: Region) {
    r.End() <= |m| && m[r.addr..r.End()] == r.bytes
  }

  ghost predicate AllPresent(m: seq<byte>, rs: seq<Region>) {
    forall k :: 0 <= k < |rs| ==> Present(m, rs[k])
  }

  /** The memory after the writes of `rs`, first to last. */
  function ApplyAll(m: seq<byte>, rs: seq<Region>): (m': seq<byte>)
    requires AllFit(rs, |m|)
    ensures |m'| == |m|
  {
    if rs == [] then m
    else
      var last := rs[|rs| - 1];
      Overwrite(ApplyAll(m, rs[..|rs| - 1]), last.addr, last.bytes)
  }

  lemma ApplyOneMore(m: seq<byte>, rs: seq<Region>, r: Region)
    requires AllFit(rs, |m|) && r.End() <= |m|
    ensures AllFit(rs + [r], |m|)
    ensures ApplyAll(m, rs + [r]) == Overwrite(ApplyAll(m, rs), r.addr, r.bytes)
  {
    assert (rs + [r])[..|rs|] == rs;
  }

  lemma LastWrite(m: seq<byte>, rs: seq<Region>, i: nat)
    requires rs != [] && AllFit(rs, |m|) && i < |m|
    ensures var last := rs[|rs| - 1];
      ApplyAll(m, rs)[i] == if last.Covers(i) then last.bytes[i - last.addr] else ApplyAll(m, rs[..|rs| - 1])[i]
  {
  }

  /** Byte `i` holds `b` because write `j` put it there, or because none did (`j` is -1) and it held `was`. */
  predicate ComesFrom(rs: seq<Region>, i: nat, j: int, was: byte, b: byte) {
    if 0 <= j < |rs| then rs[j].Covers(i) && b == rs[j].bytes[i - rs[j].addr]
    else j == -1 && b == was && forall k :: 0 <= k < |rs| ==> !rs[k].Covers(i)
  }

  lemma ComesFromEarlier(rs: seq<Region>, i: nat, j: int, was: byte, b: byte)
    requires rs != [] && !rs[|rs| - 1].Covers(i) && ComesFrom(rs[..|rs| - 1], i, j, was, b)
    ensures ComesFrom(rs, i, j, was, b)
  {
    var earlier := rs[..|rs| - 1];
    assert forall k :: 0 <= k < |earlier| ==> earlier[k] == rs[k];
  }

  /** Every byte of the result comes from some write that covers it, or from before. */
  lemma {:induction false} ByteProvenance(m: seq<byte>, rs: seq<Region>, i: nat) returns (j: int)
    requires AllFit(rs, |m|) && i < |m|
    ensures ComesFrom(rs, i, j, m[i], ApplyAll(m, rs)[i])
  {
    if rs == [] {
      j := -1;
    } else {
      LastWrite(m, rs, i);
      if rs[|rs| - 1].Covers(i) {
        j := |rs| - 1;
      } else {
        j := ByteProvenance(m, rs[..|rs| - 1], i);
        ComesFromEarlier(rs, i, j, m[i], ApplyAll(m, rs)[i]);
      }
    }
  }

  lemma AgreeingByte(rs: seq<Region>, k: nat, i: nat, j: int, was: byte, b: byte)
    requires AllAgree(rs) && k < |rs| && rs[k].Covers(i) && ComesFrom(rs, i, j, was, b)
    ensures b == rs[k].bytes[i - rs[k].addr]
  {
    if 0 <= j < k {
      assert Agree(rs[j], rs[k]);
    } else if k < j {
      assert Agree(rs[k], rs[j]);
    }
  }

  predicate HasBytes(m: seq<byte>, r: Region) {
    forall i :: 0 <= i < |m| && r.Covers(i) ==> m[i] == r.bytes[i - r.addr]
  }

  lemma PresentByBytes(m: seq<byte>, r: Region)
    requires r.End() <= |m| && HasBytes(m, r)
    ensures Present(m, r)
  {
    forall i | 0 <= i < |r.bytes| ensures m[r.addr..r.End()][i] == r.bytes[i] {
      assert r.Covers(r.addr + i);
    }
  }

  lemma SurvivingByte(m: seq<byte>, rs: seq<Region>, k: nat, i: nat)
    requires AllFit(rs, |m|) && AllAgree(rs) && k < |rs| && i < |m| && rs[k].Covers(i)
    ensures ApplyAll(m, rs)[i] == rs[k].bytes[i - rs[k].addr]
  {
    var j := ByteProvenance(m, rs, i);
    AgreeingByte(rs, k, i, j, m[i], ApplyAll(m, rs)[i]);
  }

  lemma SurvivingBytes(m: seq<byte>, rs: seq<Region>, k: nat)
    requires AllFit(rs, |m|) && AllAgree(rs) && k < |rs|
    ensures HasBytes(ApplyAll(m, rs), rs[k])
  {
    forall i | 0 <= i < |m| && rs[k].Covers(i) ensures ApplyAll(m, rs)[i] == rs[k].bytes[i - rs[k].addr] {
      SurvivingByte(m, rs, k, i);
    }
  }

  /** A write survives all the others when it agrees with each of them. */
  lemma RegionSurvives(m: seq<byte>, rs: seq<Region>, k: nat)
    requires AllFit(rs, |m|) && AllAgree(rs) && k < |rs|
    ensures Present(ApplyAll(m, rs), rs[k])
  {
    SurvivingBytes(m, rs, k);
    PresentByBytes(ApplyAll(m, rs), rs[k]);
  }

  lemma PresentByte(m: seq<byte>, r: Region, i: nat)
    requires Present(m, r) && r.Covers(i)
    ensures m[i] == r.bytes[i - r.addr]
  {
    assert m[i] == m[r.addr..r.End()][i - r.addr];
  }

  /** Every write of a list reads back afterwards exactly when no two of them disagree. */
  lemma SurviveIffAgree(m: seq<byte>, rs: seq<Region>)
    requires AllFit(rs, |m|)
    ensures AllPresent(ApplyAll(m, rs), rs) <==> AllAgree(rs)
  {
    if AllAgree(rs) {
      forall k | 0 <= k < |rs| ensures Present(ApplyAll(m, rs), rs[k]) {
        RegionSurvives(m, rs, k);
      }
    }
    if AllPresent(ApplyAll(m, rs), rs) {
      forall j, k, i | 0 <= j < k < |rs| && rs[j].Covers(i) && rs[k].Covers(i)
        ensures rs[j].bytes[i - rs[j].addr] == rs[k].bytes[i - rs[k].addr]
      {
        PresentByte(ApplyAll(m, rs), rs[j], i);
        PresentByte(ApplyAll(m, rs), rs[k], i);
      }
    }
  }

  /** Bytes that no write covers keep their value. */
  lemma {:induction false} UncoveredUnchanged(m: seq<byte>, rs: seq<Region>, i: nat)
    requires AllFit(rs, |m|) && i < |m|
    requires forall k :: 0 <= k < |rs| ==> !rs[k].Covers(i)
    ensures ApplyAll(m, rs)[i] == m[i]
  {
    var j := ByteProvenance(m, rs, i);
  }

  lemma SameByte(m: seq<byte>, rs: seq<Region>, rs': seq<Region>, i: nat)
    requires AllFit(rs, |m|) && AllAgree(rs) && AllFit(rs', |m|) && i < |m|
    requires forall r :: r in rs <==> r in rs'
    ensures ApplyAll(m, rs')[i] == ApplyAll(m, rs)[i]
  {
    var j' := ByteProvenance(m, rs', i);
    if j' >= 0 {
      assert rs'[j'] in rs;
      var k :| 0 <= k < |rs| && rs[k] == rs'[j'];
      RegionSurvives(m, rs, k);
      PresentByte(ApplyAll(m, rs), rs[k], i);
    } else {
      forall k | 0 <= k < |rs| ensures !rs[k].Covers(i) {
        assert rs[k] in rs';
      }
      UncoveredUnchanged(m, rs, i);
    }
  }

  /** The same writes in any order (or repeated) leave the same memory, when they agree. */
  lemma OrderIrrelevant(m: seq<byte>, rs: seq<Region>, rs': seq<Region>)
    requires AllFit(rs, |m|) && AllAgree(rs)
    requires forall r :: r in rs <==> r in rs'
    ensures AllFit(rs', |m|)
    ensures ApplyAll(m, rs') == ApplyAll(m, rs)
  {
    forall j | 0 <= j < |rs'| ensures rs'[j].End() <= |m| {
      assert rs'[j] in rs;
    }
    forall i | 0 <= i < |m| ensures ApplyAll(m, rs')[i] == ApplyAll(m, rs)[i] {
      SameByte(m, rs, rs', i);
    }
  }

  /** One more write that agrees with a list can be made at any point of it. */
  lemma AnyTimeWrite(m: seq<byte>, rs: seq<Region>, r: Region, order: seq<Region>)
    requires AllFit(rs, |m|) && r.End() <= |m| && AllAgree(rs + [r])
    requires forall s :: s in order <==> s in rs || s == r
    ensures AllFit(order, |m|)
    ensures ApplyAll(m, order) == Overwrite(ApplyAll(m, rs), r.addr, r.bytes)
    ensures AllPresent(ApplyAll(m, order), rs)
  {
    ApplyOneMore(m, rs, r);
    OrderIrrelevant(m, rs + [r], order);
    forall k | 0 <= k < |rs| ensures Present(ApplyAll(m, order), rs[k]) {
      assert (rs + [r])[k] == rs[k];
      RegionSurvives(m, rs + [r], k);
    }
  }

  // ----- the copies the source makes into guest RAM -----

  /** `std::copy_n` and `ifstream::read`: `bs` lands at `ram[a..]`, nothing else changes. */
  method CopyInto(ram: array<byte>, a: nat, bs: seq<byte>)
    requires a + |bs| <= ram.Length
    modifies ram
    ensures ram[..] == Overwrite(old(ram[..]), a, bs)
  {
    for i := 0 to |bs|
      invariant forall k :: 0 <= k < ram.Length ==>
        ram[k] == if a <= k < a + i then bs[k - a] else old(ram[k])
    {
      ram[a + i] := bs[i];
    }
  }

  /** `std::memset(ram + a, 0, n)`. */
  method ZeroFill(ram: array<byte>, a: nat, n: nat)
    requires a + n <= ram.Length
    modifies ram
    ensures ram[..] == Overwrite(old(ram[..]), a, Zeros(n))
  {
    for i := 0 to n
      invariant forall k :: 0 <= k < ram.Length ==>
        ram[k] == if a <= k < a + i then 0 else old(ram[k])
    {
      ram[a + i] := 0;
    }
  }
}
