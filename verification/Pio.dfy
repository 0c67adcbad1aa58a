/** The port handler table of `VM`: overlapping range registrations, the last one wins.

`Owner` says what a list of registrations means; `Register` and `InitTable` fill the table the
way src/vm.cpp does, a port at a time, and are proved to arrive at that meaning.
*/
module Pio {
  import opened Bytes

  const PIO_PORT_NUM := 0xFFFF

  datatype Direction = DirIn | DirOut

  datatype Device = Post | CmosDevice | Com1Device

  datatype Handler =
    | Unexpected
    | Nothing
    | ResetGenerator
    | DeviceRead(device: Device)
    | DeviceWrite(device: Device)

  datatype Registration = Registration(start: nat, end: nat, input: Handler, output: Handler) {
    predicate Contains(port: int) { start <= port < end }

    function For(direction: Direction): Handler { if direction.DirIn? then input else output }
  }

  type Table = array2<Handler>

  function Column(direction: Direction): nat { if direction.DirIn? then 0 else 1 }

  predicate Shaped(table: Table) {
    table.Length0 == PIO_PORT_NUM && table.Length1 == 2
  }

  /** `VM::registerPIOHandler`; both bounds are `uint16_t`, so the loop cannot leave the table. */
  method Register(table: Table, r: Registration)
    requires Shaped(table) && r.end <= PIO_PORT_NUM
    modifies table
    ensures forall port, d :: 0 <= port < PIO_PORT_NUM ==>
      table[port, Column(d)] == if r.Contains(port) then r.For(d) else old(table[port, Column(d)])
  {
    var i := r.start;
    while i < r.end
      invariant r.start <= i && (i <= r.end || i == r.start)
      invariant forall port, c :: 0 <= port < PIO_PORT_NUM && 0 <= c < 2 ==>
        table[port, c] == if r.start <= port < i then (if c == 0 then r.input else r.output) else old(table[port, c])
    {
      table[i, 0] := r.input;
      table[i, 1] := r.output;
      i := i + 1;
    }
  }

  // ----- what a list of registrations means -----

  /** The last registration that contains the port decides. */
  function Owner(rs: seq<Registration>, port: nat, direction: Direction): Option<Handler> {
    if rs == [] then None
    else
      var last := rs[|rs| - 1];
      if last.Contains(port) then Some(last.For(direction)) else Owner(rs[..|rs| - 1], port, direction)
  }

  ghost predicate Refines(table: Table, rs: seq<Registration>)
    reads table
  {
    Shaped(table) && forall port, d :: 0 <= port < PIO_PORT_NUM ==> Owner(rs, port, d) == Some(table[port, Column(d)])
  }

  lemma OwnerOfMore(rs: seq<Registration>, r: Registration, port: nat, d: Direction)
    ensures Owner(rs + [r], port, d) == if r.Contains(port) then Some(r.For(d)) else Owner(rs, port, d)
  {
    assert (rs + [r])[..|rs|] == rs;
  }

  method RegisterMore(table: Table, r: Registration, ghost rs: seq<Registration>)
    requires Refines(table, rs) && r.end <= PIO_PORT_NUM
    modifies table
    ensures Refines(table, rs + [r])
  {
    Register(table, r);
    forall port, d | 0 <= port < PIO_PORT_NUM ensures Owner(rs + [r], port, d) == Some(table[port, Column(d)]) {
      OwnerOfMore(rs, r, port, d);
    }
  }

  lemma {:induction false} OwnerOfConcat(rs: seq<Registration>, more: seq<Registration>, port: nat, d: Direction)
    ensures Owner(rs + more, port, d)
         == if Owner(more, port, d).Some? then Owner(more, port, d) else Owner(rs, port, d)
  {
    if more == [] {
      assert rs + more == rs;
    } else {
      assert (rs + more)[..|rs + more| - 1] == rs + more[..|more| - 1];
      OwnerOfConcat(rs, more[..|more| - 1], port, d);
    }
  }

  /** Registrations of disjoint ranges commute, wherever they stand in the list. */
  lemma DisjointCommute(before: seq<Registration>, a: Registration, b: Registration, after: seq<Registration>,
      port: nat, d: Direction)
    requires a.end <= b.start || b.end <= a.start
    ensures Owner(before + [a, b] + after, port, d) == Owner(before + [b, a] + after, port, d)
  {
    OwnerOfConcat(before + [a, b], after, port, d);
    OwnerOfConcat(before + [b, a], after, port, d);
    OwnerOfMore(before + [a], b, port, d);
    OwnerOfMore(before, a, port, d);
    OwnerOfMore(before + [b], a, port, d);
    OwnerOfMore(before, b, port, d);
    assert before + [a, b] == before + [a] + [b] && before + [b, a] == before + [b] + [a];
  }

  // ----- initPIOHandler -----

  function PortOf(device: Device): nat {
    match device
    case Post => 0x80
    case CmosDevice => 0x70
    case Com1Device => 0x3F8
  }

  function SizeOf(device: Device): byte {
    match device
    case Post => 0xA0
    case CmosDevice => 0x02
    case Com1Device => 0x08
  }

  /** `e->port + e->size`, passed as a `uint16_t`. */
  function DeviceRange(device: Device): Registration {
    Registration(PortOf(device), (PortOf(device) + SizeOf(device)) % 0x1_0000, DeviceRead(device), DeviceWrite(device))
  }

  function DeviceRanges(devices: seq<Device>): (rs: seq<Registration>)
    ensures |rs| == |devices| && forall i :: 0 <= i < |rs| ==> rs[i] == DeviceRange(devices[i])
  {
    seq(|devices|, i requires 0 <= i < |devices| => DeviceRange(devices[i]))
  }

  function Quiet(start: nat, end: nat): Registration { Registration(start, end, Nothing, Nothing) }

  /** The registrations `initPIOHandler` makes before it comes to the devices, in its order. */
  const FIXED_RANGES: seq<Registration> := [
    Registration(0, PIO_PORT_NUM, Unexpected, Unexpected),
    Quiet(0xED, 0xEE),        // alternate delay port
    Quiet(0x2E8, 0x2F0),      // COM4
    Quiet(0x2F8, 0x300),      // COM2
    Quiet(0x3B0, 0x3BC),      // VGA
    Quiet(0x3C0, 0x3E0),      // VGA
    Quiet(0x3E8, 0x3F0),      // COM3
    Quiet(0xCFA, 0xCFC),
    Registration(0xCF9, 0xCFA, Unexpected, ResetGenerator),
    Quiet(0xCF8, 0xCF9),      // PCI configuration address
    Quiet(0xCFE, 0xCFF),
    Quiet(0xCFC, 0xCFD),      // PCI configuration data
    Quiet(0xC000, 0xD000),    // PCI configuration mechanism 2
    Quiet(0x60, 0x70)]        // PS/2

  method InitTable(table: Table, devices: seq<Device>)
    requires Shaped(table)
    modifies table
    ensures Refines(table, FIXED_RANGES + DeviceRanges(devices))
  {
    var everything := FIXED_RANGES[0];
    Register(table, everything);
    forall port, d | 0 <= port < PIO_PORT_NUM ensures Owner([everything], port, d) == Some(table[port, Column(d)]) {
      OwnerOfMore([], everything, port, d);
      assert [] + [everything] == [everything];
    }
    var n := 1;
    while n < |FIXED_RANGES|
      invariant 1 <= n <= |FIXED_RANGES|
      invariant Refines(table, FIXED_RANGES[..n])
    {
      assert FIXED_RANGES[..n] + [FIXED_RANGES[n]] == FIXED_RANGES[..n + 1];
      RegisterMore(table, FIXED_RANGES[n], FIXED_RANGES[..n]);
      n := n + 1;
    }
    assert FIXED_RANGES[..n] == FIXED_RANGES + DeviceRanges(devices)[..0];
    ghost var rs := DeviceRanges(devices);
    for i := 0 to |devices|
      invariant Refines(table, FIXED_RANGES + rs[..i])
    {
      RegisterMore(table, DeviceRange(devices[i]), FIXED_RANGES + rs[..i]);
      assert FIXED_RANGES + rs[..i] + [DeviceRange(devices[i])] == FIXED_RANGES + rs[..i + 1];
    }
    assert rs[..|devices|] == rs;
  }

  // ----- who answers each port -----

  /** The address map a guest sees, stated outright. */
  function PortMap(port: nat, d: Direction): Handler {
    if 0x70 <= port < 0x72 then DeviceHandler(CmosDevice, d)
    else if 0x80 <= port < 0x120 then DeviceHandler(Post, d)
    else if 0x3F8 <= port < 0x400 then DeviceHandler(Com1Device, d)
    else if port == 0xCF9 then if d.DirOut? then ResetGenerator else Unexpected
    else if 0x60 <= port < 0x70 || 0x2E8 <= port < 0x2F0 || 0x2F8 <= port < 0x300
         || 0x3B0 <= port < 0x3BC || 0x3C0 <= port < 0x3E0 || 0x3E8 <= port < 0x3F0
         || port == 0xCF8 || 0xCFA <= port < 0xCFD || port == 0xCFE || 0xC000 <= port < 0xD000 then Nothing
    else Unexpected
  }

  function DeviceHandler(device: Device, d: Direction): Handler {
    if d.DirIn? then DeviceRead(device) else DeviceWrite(device)
  }

  predicate AllDevices(devices: seq<Device>) {
    Post in devices && CmosDevice in devices && Com1Device in devices
  }

  lemma {:induction false} DeviceOwner(devices: seq<Device>, port: nat, d: Direction)
    ensures var owner := Owner(DeviceRanges(devices), port, d);
      && (owner.None? <==> forall device :: device in devices ==> !DeviceRange(device).Contains(port))
      && (owner.Some? ==>
            exists device ::
              device in devices && DeviceRange(device).Contains(port) && owner == Some(DeviceHandler(device, d)))
  {
    if devices != [] {
      var n := |devices| - 1;
      DeviceOwner(devices[..n], port, d);
      assert DeviceRanges(devices)[..n] == DeviceRanges(devices[..n]);
      assert devices == devices[..n] + [devices[n]];
    }
  }

  /** Whatever the order (or repetition) of `iodev`, each port below 0xFFFF has the owner the map says. */
  lemma PortMapHolds(devices: seq<Device>, port: nat, d: Direction)
    requires AllDevices(devices) && port < PIO_PORT_NUM
    ensures Owner(FIXED_RANGES + DeviceRanges(devices), port, d) == Some(PortMap(port, d))
  {
    OwnerOfConcat(FIXED_RANGES, DeviceRanges(devices), port, d);
    DeviceOwner(devices, port, d);
    assert DeviceRange(CmosDevice).Contains(port) <==> 0x70 <= port < 0x72;
    assert DeviceRange(Post).Contains(port) <==> 0x80 <= port < 0x120;
    assert DeviceRange(Com1Device).Contains(port) <==> 0x3F8 <= port < 0x400;
    FixedOwner(port, d);
  }

  /** The fixed part of the map, under the devices. */
  function FixedMap(port: nat, d: Direction): Handler {
    if port == 0xCF9 then if d.DirOut? then ResetGenerator else Unexpected
    else if 0x60 <= port < 0x70 || port == 0xED || 0x2E8 <= port < 0x2F0 || 0x2F8 <= port < 0x300
         || 0x3B0 <= port < 0x3BC || 0x3C0 <= port < 0x3E0 || 0x3E8 <= port < 0x3F0
         || port == 0xCF8 || 0xCFA <= port < 0xCFD || port == 0xCFE || 0xC000 <= port < 0xD000 then Nothing
    else Unexpected
  }

  lemma FixedOwner(port: nat, d: Direction)
    requires port < PIO_PORT_NUM
    ensures Owner(FIXED_RANGES, port, d) == Some(FixedMap(port, d))
  {
    var rs := FIXED_RANGES;
    OwnerOfPrefix(rs, 14, port, d);
    OwnerOfPrefix(rs, 13, port, d);
    OwnerOfPrefix(rs, 12, port, d);
    OwnerOfPrefix(rs, 11, port, d);
    OwnerOfPrefix(rs, 10, port, d);
    OwnerOfPrefix(rs, 9, port, d);
    OwnerOfPrefix(rs, 8, port, d);
    OwnerOfPrefix(rs, 7, port, d);
    OwnerOfPrefix(rs, 6, port, d);
    OwnerOfPrefix(rs, 5, port, d);
    OwnerOfPrefix(rs, 4, port, d);
    OwnerOfPrefix(rs, 3, port, d);
    OwnerOfPrefix(rs, 2, port, d);
    OwnerOfPrefix(rs, 1, port, d);
    assert rs[..14] == rs;
  }

  lemma OwnerOfPrefix(rs: seq<Registration>, n: nat, port: nat, d: Direction)
    requires 0 < n <= |rs|
    ensures Owner(rs[..n], port, d)
         == if rs[n - 1].Contains(port) then Some(rs[n - 1].For(d)) else Owner(rs[..n - 1], port, d)
  {
    assert rs[..n][..n - 1] == rs[..n - 1];
  }
}
