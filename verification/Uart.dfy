/** COM1 as one thread sees it: the register file of src/com1.cpp.

`ReadPort`, `WritePort` and `ReceiveByte` give each access its meaning on a value; the class `COM1`
does the same accesses in place and is proved against them.  The laws below are about
access histories of any length and read the history, not the registers.
*/
module Uart {
  import opened Bytes

  const COM1_IRQ := 4

  const PORT_THR_RBR_DLL := 0x3F8
  const PORT_IER_DLH := 0x3F9
  const PORT_IIR_FCR := 0x3FA
  const PORT_LCR := 0x3FB
  const PORT_MCR := 0x3FC
  const PORT_LSR := 0x3FD
  const PORT_MSR := 0x3FE
  const PORT_SR := 0x3FF

  const DLL_9600: byte := 0x0C
  const DLH_9600: byte := 0x00
  const LSR_TEMT: byte := 0x40
  const LSR_THRE: byte := 0x20
  const LSR_DATA_READY: byte := 0x01
  const IIR_NO_INT_PEND: byte := 0x01
  const IIR_THR_EMPTY: byte := 0x02
  const IIR_DATA_AVL: byte := 0x04
  const IIR_FIFO_16550A: byte := 0xC0
  const MSR_CTS: byte := 0x10
  const MSR_DSR: byte := 0x20
  const MSR_RI: byte := 0x40
  const MSR_DCD: byte := 0x80

  // ----- the host side -----

  /** What the host calls made during one access return: 0, or the errno they fail with. */
  datatype HostReply = HostReply(writeErrno: int, lowErrno: int, highErrno: int)

  const ALL_SUCCEED := HostReply(0, 0, 0)

  datatype Effect = Stdout(b: byte) | IrqLine(irq: nat, level: bool)

  /** `VM::flapIRQLine`: low, then high, giving up at the first failure. */
  function Flap(irq: nat, host: HostReply): seq<Effect> {
    if host.lowErrno != 0 then []
    else if host.highErrno != 0 then [IrqLine(irq, false)]
    else [IrqLine(irq, false), IrqLine(irq, true)]
  }

  function FlapCode(host: HostReply): int {
    if host.lowErrno != 0 then -host.lowErrno else -host.highErrno
  }

  /** The levels line `irq` takes while the effects happen, `start` first. */
  function Levels(effects: seq<Effect>, irq: nat, start: bool): (levels: seq<bool>)
    ensures |levels| >= 1 && levels[0] == start
  {
    if effects == [] then [start]
    else
      match effects[0]
      case Stdout(_) => Levels(effects[1..], irq, start)
      case IrqLine(line, level) =>
        if line == irq then [start] + Levels(effects[1..], irq, level) else Levels(effects[1..], irq, start)
  }

  function Rises(levels: seq<bool>): nat {
    if |levels| < 2 then 0 else (if !levels[0] && levels[1] then 1 else 0) + Rises(levels[1..])
  }

  /** A pulse on the wire, from either level.  One that succeeds drives the line low, then makes its one rise; one that
      fails half way leaves the line low without a rise; one that fails at once does nothing.  Other lines stay. */
  lemma FlapPulses(irq: nat, other: nat, host: HostReply, start: bool)
    requires other != irq
    ensures var levels := Levels(Flap(irq, host), irq, start);
      if host.lowErrno != 0 then levels == [start] && Flap(irq, host) == []
      else if host.highErrno != 0 then levels == [start, false] && Rises(levels) == 0
      else levels == [start, false, true] && Rises(levels) == 1
    ensures Levels(Flap(irq, host), other, start) == [start]
  {
    var effects := Flap(irq, host);
    if host.lowErrno == 0 && host.highErrno != 0 {
      assert effects[1..] == [];
      assert [start, false][1..] == [false];
    } else if host.lowErrno == 0 {
      assert effects[1..] == [IrqLine(irq, true)] && effects[1..][1..] == [];
      assert Levels(effects[1..], irq, false) == [false] + [true];
      assert Levels(effects[1..], other, start) == [start];
      assert [start] + [false, true] == [start, false, true];
      assert [start, false, true][1..] == [false, true] && [false, true][1..] == [true];
    }
  }

  /** The part of `VM` and of the process that a device calls: what it did so far. */
  class Vm {
    var effects: seq<Effect>

    constructor ()
      ensures effects == []
    {
      effects := [];
    }

    method Write(b: byte, errno: int) returns (r: int)
      modifies this
      ensures effects == if errno == 0 then old(effects) + [Stdout(b)] else old(effects)
      ensures r == if errno == 0 then 1 else -1
    {
      if errno != 0 {
        return -1;
      }
      effects := effects + [Stdout(b)];
      r := 1;
    }

    method IrqLine(irq: nat, level: bool, errno: int) returns (r: int)
      modifies this
      ensures effects == if errno == 0 then old(effects) + [Effect.IrqLine(irq, level)] else old(effects)
      ensures r == -errno
    {
      if errno != 0 {
        return -errno;
      }
      effects := effects + [Effect.IrqLine(irq, level)];
      r := 0;
    }

    method FlapIrqLine(irq: nat, host: HostReply) returns (r: int)
      modifies this
      ensures effects == old(effects) + Flap(irq, host)
      ensures r == if host.lowErrno != 0 then -host.lowErrno else -host.highErrno
    {
      r := IrqLine(irq, false, host.lowErrno);
      if r != 0 {
        return r;
      }
      r := IrqLine(irq, true, host.highErrno);
      if r != 0 {
        return r;
      }
      r := 0;
    }
  }

  // ----- accesses on values -----

  datatype Registers = Registers(
    thr: byte, rbr: byte, dll: byte, ier: byte, dlh: byte, iir: byte, fcr: byte,
    lcr: byte, mcr: byte, lsr: byte, msr: byte, sr: byte)

  datatype State = State(regs: Registers, rx: seq<byte>)

  /** Every register 0, nothing received. */
  function PowerOn(): State {
    State(Registers(0, 0, 0, 0, 0, 0, 0, 0, 0, 0, 0, 0), [])
  }

  datatype ReadOutcome = ReadOutcome(state: State, reply: byte, code: int)
  datatype WriteOutcome = WriteOutcome(state: State, effects: seq<Effect>, code: int)

  // Bit tests and masks, in the arithmetic form that `MaskTests`, `Mask4Test`, `Mask8Test`, `HighMaskTests`,
  // `MaskRemainders` and `DisjointBits` justify.
  predicate DlabSet(lcr: byte) { lcr / 0x80 % 2 == 1 }
  predicate LoopSet(mcr: byte) { mcr / 0x10 % 2 == 1 }
  predicate RxEnabled(ier: byte) { ier % 2 == 1 }
  predicate TxEnabled(ier: byte) { ier / 2 % 2 == 1 }
  predicate FifoEnabled(fcr: byte) { fcr % 2 == 1 }
  function WritableEnables(data: byte): byte { data % 0x10 }

  /** The masks of the source, bit for bit. */
  lemma RegisterBits(w: bv8)
    ensures DlabSet(w as int) == (w & 0x80 != 0)
    ensures LoopSet(w as int) == (w & 0x10 != 0)
    ensures RxEnabled(w as int) == (w & 0x01 != 0)
    ensures TxEnabled(w as int) == (w & 0x02 != 0)
    ensures FifoEnabled(w as int) == (w & 0x01 != 0)
    ensures WritableEnables(w as int) == (w & 0x0F) as int
  {
    MaskTests(w);
    HighMaskTests(w);
    MaskRemainders(w);
  }

  function IirReply(ier: byte, fcr: byte, rxPending: bool): byte {
    var source :=
      if RxEnabled(ier) && rxPending then IIR_DATA_AVL
      else if TxEnabled(ier) then IIR_THR_EMPTY
      else IIR_NO_INT_PEND;
    if FifoEnabled(fcr) then IIR_FIFO_16550A + source else source
  }

  function LsrReply(rxPending: bool): byte {
    if rxPending then LSR_TEMT + LSR_THRE + LSR_DATA_READY else LSR_TEMT + LSR_THRE
  }

  /** `value` if bit `weight` of `b` is set. */
  function Mirror(b: byte, weight: nat, value: nat): nat
    requires weight > 0
  {
    if b / weight % 2 == 1 then value else 0
  }

  /** Looped back, DTR, RTS, OUT1 and OUT2 come back as DSR, CTS, RI and DCD. */
  function MsrReply(mcr: byte): byte {
    if LoopSet(mcr) then
      Mirror(mcr, 1, MSR_DSR) + Mirror(mcr, 2, MSR_CTS) + Mirror(mcr, 4, MSR_RI) + Mirror(mcr, 8, MSR_DCD)
    else MSR_CTS + MSR_DSR + MSR_DCD
  }

  /** `COM1::Read`; an unknown port leaves the caller's byte alone. */
  function ReadPort(s: State, port: nat, data: byte): ReadOutcome {
    if port == PORT_THR_RBR_DLL then
      if DlabSet(s.regs.lcr) then ReadOutcome(s, DLL_9600, 0)
      else if s.rx == [] then ReadOutcome(s, 0, 0)
      else ReadOutcome(s.(rx := s.rx[1..]), s.rx[0], 0)
    else if port == PORT_IER_DLH then ReadOutcome(s, if DlabSet(s.regs.lcr) then DLH_9600 else s.regs.ier, 0)
    else if port == PORT_IIR_FCR then ReadOutcome(s, IirReply(s.regs.ier, s.regs.fcr, s.rx != []), 0)
    else if port == PORT_LCR then ReadOutcome(s, s.regs.lcr, 0)
    else if port == PORT_MCR then ReadOutcome(s, s.regs.mcr, 0)
    else if port == PORT_LSR then ReadOutcome(s, LsrReply(s.rx != []), 0)
    else if port == PORT_MSR then ReadOutcome(s, MsrReply(s.regs.mcr), 0)
    else if port == PORT_SR then ReadOutcome(s, s.regs.sr, 0)
    else ReadOutcome(s, data, 1)
  }

  /** `COM1::Write`. */
  function WritePort(s: State, port: nat, data: byte, host: HostReply): WriteOutcome {
    if port == PORT_THR_RBR_DLL then
      if DlabSet(s.regs.lcr) then WriteOutcome(s.(regs := s.regs.(dll := data)), [], 0)
      else if LoopSet(s.regs.mcr) then WriteOutcome(s.(rx := s.rx + [data]), [], 0)
      else if host.writeErrno != 0 then WriteOutcome(s, [], -host.writeErrno)
      else if TxEnabled(s.regs.ier) then WriteOutcome(s, [Stdout(data)] + Flap(COM1_IRQ, host), FlapCode(host))
      else WriteOutcome(s, [Stdout(data)], 0)
    else if port == PORT_IER_DLH then
      if DlabSet(s.regs.lcr) then WriteOutcome(s.(regs := s.regs.(dlh := data)), [], 0)
      else
        var ier := WritableEnables(data);
        if TxEnabled(ier) || (RxEnabled(ier) && s.rx != []) then
          WriteOutcome(s.(regs := s.regs.(ier := ier)), Flap(COM1_IRQ, host), FlapCode(host))
        else WriteOutcome(s.(regs := s.regs.(ier := ier)), [], 0)
    else if port == PORT_IIR_FCR then WriteOutcome(s.(regs := s.regs.(fcr := data)), [], 0)
    else if port == PORT_LCR then WriteOutcome(s.(regs := s.regs.(lcr := data)), [], 0)
    else if port == PORT_MCR then WriteOutcome(s.(regs := s.regs.(mcr := data)), [], 0)
    else if port == PORT_LSR || port == PORT_MSR then WriteOutcome(s, [], 0)
    else if port == PORT_SR then WriteOutcome(s.(regs := s.regs.(sr := data)), [], 0)
    else WriteOutcome(s, [], 1)
  }

  /** One turn of `readerLoop` that got a byte. */
  function ReceiveByte(s: State, c: byte, host: HostReply): WriteOutcome {
    WriteOutcome(s.(rx := s.rx + [c]), if RxEnabled(s.regs.ier) then Flap(COM1_IRQ, host) else [], 0)
  }

  // ----- the device, in place -----

  class COM1 {
    const vm: Vm
    var thr: byte
    var rbr: byte
    var dll: byte
    var ier: byte
    var dlh: byte
    var iir: byte
    var fcr: byte
    var lcr: byte
    var mcr: byte
    var lsr: byte
    var msr: byte
    var sr: byte
    var rxBuf: seq<byte>

    function Contents(): State
      reads this
    {
      State(Registers(thr, rbr, dll, ier, dlh, iir, fcr, lcr, mcr, lsr, msr, sr), rxBuf)
    }

    constructor (vm: Vm)
      ensures this.vm == vm
      ensures Contents() == PowerOn()
    {
      this.vm := vm;
      thr, rbr, dll, ier, dlh, iir := 0, 0, 0, 0, 0, 0;
      fcr, lcr, mcr, lsr, msr, sr := 0, 0, 0, 0, 0, 0;
      rxBuf := [];
    }

    method Read(port: nat, data: byte) returns (code: int, reply: byte)
      modifies this
      ensures var o := ReadPort(old(Contents()), port, data);
        Contents() == o.state && reply == o.reply && code == o.code
    {
      reply := data;
      if port == PORT_THR_RBR_DLL {
        if !DlabSet(lcr) {
          if rxBuf != [] {
            reply := rxBuf[0];
            rxBuf := rxBuf[1..];
          } else {
            reply := 0;
          }
        } else {
          reply := DLL_9600;
        }
      } else if port == PORT_IER_DLH {
        reply := if !DlabSet(lcr) then ier else DLH_9600;
      } else if port == PORT_IIR_FCR {
        var rxPending := rxBuf != [];
        if RxEnabled(ier) && rxPending {
          reply := IIR_DATA_AVL;
        } else if TxEnabled(ier) {
          reply := IIR_THR_EMPTY;
        } else {
          reply := IIR_NO_INT_PEND;
        }
        if FifoEnabled(fcr) {
          reply := IIR_FIFO_16550A + reply;
        }
      } else if port == PORT_LCR {
        reply := lcr;
      } else if port == PORT_MCR {
        reply := mcr;
      } else if port == PORT_LSR {
        reply := LSR_TEMT + LSR_THRE;
        if rxBuf != [] {
          reply := reply + LSR_DATA_READY;
        }
      } else if port == PORT_MSR {
        if LoopSet(mcr) {
          reply := Mirror(mcr, 1, MSR_DSR);
          reply := reply + Mirror(mcr, 2, MSR_CTS);
          reply := reply + Mirror(mcr, 4, MSR_RI);
          reply := reply + Mirror(mcr, 8, MSR_DCD);
        } else {
          reply := MSR_CTS + MSR_DSR + MSR_DCD;
        }
      } else if port == PORT_SR {
        reply := sr;
      } else {
        return 1, reply;
      }
      code := 0;
    }

    method Write(port: nat, data: byte, host: HostReply) returns (code: int)
      modifies this, vm
      ensures var o := WritePort(old(Contents()), port, data, host);
        Contents() == o.state && vm.effects == old(vm.effects) + o.effects && code == o.code
    {
      if port == PORT_THR_RBR_DLL {
        if !DlabSet(lcr) {
          if LoopSet(mcr) {
            rxBuf := rxBuf + [data];
          } else {
            var r := vm.Write(data, host.writeErrno);
            if r == -1 {
              return -host.writeErrno;
            }
            if TxEnabled(ier) {
              r := vm.FlapIrqLine(COM1_IRQ, host);
              if r != 0 {
                return r;
              }
            }
          }
        } else {
          dll := data;
        }
      } else if port == PORT_IER_DLH {
        if !DlabSet(lcr) {
          ier := WritableEnables(data);
          var rxPending := rxBuf != [];
          var shouldRaise := TxEnabled(ier) || (RxEnabled(ier) && rxPending);
          if shouldRaise {
            var r := vm.FlapIrqLine(COM1_IRQ, host);
            if r != 0 {
              return r;
            }
          }
        } else {
          dlh := data;
        }
      } else if port == PORT_IIR_FCR {
        fcr := data;
      } else if port == PORT_LCR {
        lcr := data;
      } else if port == PORT_MCR {
        mcr := data;
      } else if port == PORT_LSR || port == PORT_MSR {
      } else if port == PORT_SR {
        sr := data;
      } else {
        return 1;
      }
      code := 0;
    }

    /** The body of `readerLoop` for one byte. */
    method Receive(c: byte, host: HostReply)
      modifies this, vm
      ensures var o := ReceiveByte(old(Contents()), c, host);
        Contents() == o.state && vm.effects == old(vm.effects) + o.effects
    {
      rxBuf := rxBuf + [c];
      if RxEnabled(ier) {
        var _ := vm.FlapIrqLine(COM1_IRQ, host);
      }
    }
  }

  // ----- histories -----

  datatype Access =
    | In(port: nat, data: byte)
    | Out(port: nat, data: byte, host: HostReply)
    | Stdin(c: byte, host: HostReply)

  datatype Observed = Observed(reply: byte, effects: seq<Effect>, code: int)

  datatype Result = Result(state: State, observed: seq<Observed>)

  function Step(s: State, a: Access): (State, Observed) {
    match a
    case In(port, data) =>
      var o := ReadPort(s, port, data);
      (o.state, Observed(o.reply, [], o.code))
    case Out(port, data, host) =>
      var o := WritePort(s, port, data, host);
      (o.state, Observed(data, o.effects, o.code))
    case Stdin(c, host) =>
      var o := ReceiveByte(s, c, host);
      (o.state, Observed(c, o.effects, o.code))
  }

  function Run(s: State, history: seq<Access>): (r: Result)
    ensures |r.observed| == |history|
  {
    if history == [] then Result(s, [])
    else
      var before := Run(s, history[..|history| - 1]);
      var (state, observed) := Step(before.state, history[|history| - 1]);
      Result(state, before.observed + [observed])
  }

  /** The last byte the guest wrote to `port`, or `initial`. */
  function LastOut(history: seq<Access>, port: nat, initial: byte): byte {
    if history == [] then initial
    else
      var a := history[|history| - 1];
      if a.Out? && a.port == port then a.data else LastOut(history[..|history| - 1], port, initial)
  }

  /** The interrupt enables a history leaves: the last write to port 0x3F9 made with DLAB clear. */
  function LastEnables(history: seq<Access>, s: State): byte {
    if history == [] then s.regs.ier
    else
      var a, earlier := history[|history| - 1], history[..|history| - 1];
      if a.Out? && a.port == 0x3F9 && !DlabSet(LastOut(earlier, 0x3FB, s.regs.lcr)) then
        a.data % 0x10
      else LastEnables(earlier, s)
  }

  /** Does `a`, coming after `earlier`, put a byte in the transmitter? */
  predicate Transmits(earlier: seq<Access>, a: Access, s: State) {
    a.Out? && a.port == 0x3F8 && !DlabSet(LastOut(earlier, 0x3FB, s.regs.lcr))
  }

  predicate Looped(earlier: seq<Access>, s: State) {
    LoopSet(LastOut(earlier, 0x3FC, s.regs.mcr))
  }

  /** The bytes a history transmits to the host: those written with loopback off whose `write` succeeded. */
  function Sent(history: seq<Access>, s: State): seq<byte> {
    if history == [] then []
    else
      var a, earlier := history[|history| - 1], history[..|history| - 1];
      Sent(earlier, s)
      + if Transmits(earlier, a, s) && !Looped(earlier, s) && a.host.writeErrno == 0 then [a.data] else []
  }

  /** The bytes a history puts in the receive queue: stdin, and transmissions while looped back. */
  function Received(history: seq<Access>, s: State): seq<byte> {
    if history == [] then []
    else
      var a, earlier := history[|history| - 1], history[..|history| - 1];
      Received(earlier, s)
      + if a.Stdin? then [a.c]
        else if Transmits(earlier, a, s) && Looped(earlier, s) then [a.data]
        else []
  }

  /** The bytes a history takes out again: replies at 0x3F8 with DLAB clear, as long as some byte is left. */
  function Taken(history: seq<Access>, s: State): (taken: seq<byte>)
  {
    if history == [] then []
    else
      var a, earlier := history[|history| - 1], history[..|history| - 1];
      Taken(earlier, s)
      + if a.In? && a.port == 0x3F8 && !DlabSet(LastOut(earlier, 0x3FB, s.regs.lcr))
           && |Taken(earlier, s)| < |s.rx| + |Received(earlier, s)| then
          [Run(s, history).observed[|history| - 1].reply]
        else []
  }

  /** Everything a run did to the host, in order. */
  function EffectsOf(observed: seq<Observed>): seq<Effect> {
    if observed == [] then []
    else EffectsOf(observed[..|observed| - 1]) + observed[|observed| - 1].effects
  }

  /** The bytes that reach stdout. */
  function Stdouts(effects: seq<Effect>): seq<byte> {
    if effects == [] then []
    else
      var last := effects[|effects| - 1];
      Stdouts(effects[..|effects| - 1]) + if last.Stdout? then [last.b] else []
  }

  lemma {:induction false} StdoutsOfConcat(first: seq<Effect>, second: seq<Effect>)
    ensures Stdouts(first + second) == Stdouts(first) + Stdouts(second)
  {
    if second == [] {
      assert first + second == first;
    } else {
      StdoutsOfConcat(first, second[..|second| - 1]);
      assert (first + second)[..|first + second| - 1] == first + second[..|second| - 1];
    }
  }

  lemma FlapIsSilent(irq: nat, host: HostReply)
    ensures Stdouts(Flap(irq, host)) == []
  {
    var low, high := [IrqLine(irq, false)], [IrqLine(irq, true)];
    assert low[..0] == [] && high[..0] == [];
    StdoutsOfConcat(low, high);
    assert low + high == [IrqLine(irq, false), IrqLine(irq, true)];
  }

  lemma RunLast(s: State, history: seq<Access>)
    requires history != []
    ensures var earlier, a := history[..|history| - 1], history[|history| - 1];
      var before := Run(s, earlier);
      && Run(s, history).state == Step(before.state, a).0
      && Run(s, history).observed == before.observed + [Step(before.state, a).1]
  {
  }

  lemma RunMore(s: State, history: seq<Access>, a: Access)
    ensures var before := Run(s, history);
      Run(s, history + [a]) == Result(Step(before.state, a).0, before.observed + [Step(before.state, a).1])
  {
    assert (history + [a])[..|history|] == history;
  }

  /** The last byte the guest wrote to `port` with DLAB set, or `initial`. */
  function LastDivisor(history: seq<Access>, port: nat, s: State, initial: byte): byte {
    if history == [] then initial
    else
      var a, earlier := history[|history| - 1], history[..|history| - 1];
      if a.Out? && a.port == port && DlabSet(LastOut(earlier, 0x3FB, s.regs.lcr)) then a.data
      else LastDivisor(earlier, port, s, initial)
  }

  lemma ReadKeepsRegisters(s: State, port: nat, data: byte)
    ensures ReadPort(s, port, data).state.regs == s.regs
  {
  }

  lemma WriteLatches(s: State, port: nat, data: byte, host: HostReply)
    ensures var t := WritePort(s, port, data, host).state.regs;
      && t.lcr == (if port == PORT_LCR then data else s.regs.lcr)
      && t.mcr == (if port == PORT_MCR then data else s.regs.mcr)
      && t.fcr == (if port == PORT_IIR_FCR then data else s.regs.fcr)
      && t.sr == (if port == PORT_SR then data else s.regs.sr)
  {
  }

  lemma WriteEnables(s: State, port: nat, data: byte, host: HostReply)
    ensures WritePort(s, port, data, host).state.regs.ier ==
      if port == PORT_IER_DLH && !DlabSet(s.regs.lcr) then WritableEnables(data) else s.regs.ier
  {
  }

  lemma StepLatches(s: State, a: Access)
    ensures var t := Step(s, a).0.regs;
      && t.lcr == (if a.Out? && a.port == PORT_LCR then a.data else s.regs.lcr)
      && t.mcr == (if a.Out? && a.port == PORT_MCR then a.data else s.regs.mcr)
      && t.fcr == (if a.Out? && a.port == PORT_IIR_FCR then a.data else s.regs.fcr)
      && t.sr == (if a.Out? && a.port == PORT_SR then a.data else s.regs.sr)
      && t.ier ==
          (if a.Out? && a.port == PORT_IER_DLH && !DlabSet(s.regs.lcr) then WritableEnables(a.data) else s.regs.ier)
  {
    match a
    case In(port, data) => ReadKeepsRegisters(s, port, data);
    case Out(port, data, host) =>
      WriteLatches(s, port, data, host);
      WriteEnables(s, port, data, host);
    case Stdin(c, host) =>
  }

  lemma {:induction false} RegistersFollowHistory(s: State, history: seq<Access>)
    ensures var final := Run(s, history).state;
      && final.regs.lcr == LastOut(history, PORT_LCR, s.regs.lcr)
      && final.regs.mcr == LastOut(history, PORT_MCR, s.regs.mcr)
      && final.regs.fcr == LastOut(history, PORT_IIR_FCR, s.regs.fcr)
      && final.regs.sr == LastOut(history, PORT_SR, s.regs.sr)
      && final.regs.ier == LastEnables(history, s)
  {
    if history != [] {
      var earlier := history[..|history| - 1];
      RegistersFollowHistory(s, earlier);
      RunLast(s, history);
      StepLatches(Run(s, earlier).state, history[|history| - 1]);
    }
  }

  lemma StepDead(s: State, a: Access)
    ensures var t := Step(s, a).0.regs;
      && t.thr == s.regs.thr && t.rbr == s.regs.rbr && t.iir == s.regs.iir && t.lsr == s.regs.lsr && t.msr == s.regs.msr
      && t.dll == (if a.Out? && a.port == 0x3F8 && DlabSet(s.regs.lcr) then a.data else s.regs.dll)
      && t.dlh == (if a.Out? && a.port == 0x3F9 && DlabSet(s.regs.lcr) then a.data else s.regs.dlh)
  {
    if a.In? {
      ReadKeepsRegisters(s, a.port, a.data);
    }
  }

  /** The rest of the register file: the divisor latches hold what was last written with DLAB set, and THR, RBR, IIR,
      LSR and MSR are never stored to. */
  lemma {:induction false} DeadRegisters(s: State, history: seq<Access>)
    ensures var t := Run(s, history).state.regs;
      && t.thr == s.regs.thr && t.rbr == s.regs.rbr && t.iir == s.regs.iir && t.lsr == s.regs.lsr && t.msr == s.regs.msr
      && t.dll == LastDivisor(history, 0x3F8, s, s.regs.dll) && t.dlh == LastDivisor(history, 0x3F9, s, s.regs.dlh)
  {
    if history != [] {
      var earlier := history[..|history| - 1];
      DeadRegisters(s, earlier);
      RegistersFollowHistory(s, earlier);
      RunLast(s, history);
      StepDead(Run(s, earlier).state, history[|history| - 1]);
    }
  }

  /** One access puts its byte on stdout exactly when it is a successful transmission. */
  lemma StepStdout(s: State, a: Access)
    ensures Stdouts(Step(s, a).1.effects) ==
      if a.Out? && a.port == PORT_THR_RBR_DLL && !DlabSet(s.regs.lcr) && !LoopSet(s.regs.mcr) && a.host.writeErrno == 0
      then [a.data] else []
  {
    if !a.In? {
      FlapIsSilent(COM1_IRQ, a.host);
    }
    if a.Out? {
      StdoutsOfConcat([Stdout(a.data)], Flap(COM1_IRQ, a.host));
      assert [Stdout(a.data)][..0] == [];
    }
  }

  /** stdout is exactly the transmitted bytes, in order. */
  lemma {:induction false} OutputPartition(s: State, history: seq<Access>)
    ensures Stdouts(EffectsOf(Run(s, history).observed)) == Sent(history, s)
  {
    if history != [] {
      var earlier, a := history[..|history| - 1], history[|history| - 1];
      var before := Run(s, earlier);
      OutputPartition(s, earlier);
      RegistersFollowHistory(s, earlier);
      RunLast(s, history);
      StepStdout(before.state, a);
      assert Run(s, history).observed[..|history| - 1] == before.observed;
      StdoutsOfConcat(EffectsOf(before.observed), Step(before.state, a).1.effects);
    }
  }

  lemma StepQueue(s: State, a: Access)
    ensures Step(s, a).0.rx ==
      if a.Stdin? then s.rx + [a.c]
      else if a.Out? && a.port == PORT_THR_RBR_DLL && !DlabSet(s.regs.lcr) && LoopSet(s.regs.mcr) then s.rx + [a.data]
      else if a.In? && a.port == PORT_THR_RBR_DLL && !DlabSet(s.regs.lcr) && s.rx != [] then s.rx[1..]
      else s.rx
    ensures a.In? && a.port == PORT_THR_RBR_DLL && !DlabSet(s.regs.lcr) ==>
      Step(s, a).1.reply == if s.rx != [] then s.rx[0] else 0
  {
  }

  /** Appending to both sides, or moving the head of the queue across. */
  lemma QueuePush(initial: seq<byte>, received: seq<byte>, taken: seq<byte>, rx: seq<byte>, c: byte)
    requires initial + received == taken + rx
    ensures initial + (received + [c]) == taken + (rx + [c])
  {
    assert initial + (received + [c]) == (initial + received) + [c];
    assert taken + (rx + [c]) == (taken + rx) + [c];
  }

  lemma QueuePop(initial: seq<byte>, received: seq<byte>, taken: seq<byte>, rx: seq<byte>)
    requires initial + received == taken + rx
    ensures |taken| < |initial| + |received| <==> rx != []
    ensures rx != [] ==> initial + received == (taken + [rx[0]]) + rx[1..]
  {
    assert |initial + received| == |taken + rx|;
    if rx != [] {
      assert taken + rx == (taken + [rx[0]]) + rx[1..];
    }
  }

  /** The receive queue neither loses, invents nor reorders a byte. */
  lemma {:induction false} QueueConservation(s: State, history: seq<Access>)
    ensures s.rx + Received(history, s) == Taken(history, s) + Run(s, history).state.rx
  {
    if history != [] {
      var earlier, a := history[..|history| - 1], history[|history| - 1];
      var before := Run(s, earlier).state;
      QueueConservation(s, earlier);
      RegistersFollowHistory(s, earlier);
      RunLast(s, history);
      StepQueue(before, a);
      var received, taken := Received(earlier, s), Taken(earlier, s);
      QueuePop(s.rx, received, taken, before.rx);
      if a.Stdin? {
        QueuePush(s.rx, received, taken, before.rx, a.c);
      } else if a.Out? {
        QueuePush(s.rx, received, taken, before.rx, a.data);
        assert taken + [] == taken && received + [] == received;
      } else {
        assert taken + [] == taken && received + [] == received;
      }
    }
  }

  /** A byte sent while the THR-empty interrupt is enabled is followed by its own low-high pulse,
      a looped byte makes no noise, and a failing host call decides the return code. */
  lemma TransmitEffects(s: State, earlier: seq<Access>, a: Access)
    requires Transmits(earlier, a, s)
    ensures var o := Run(s, earlier + [a]).observed[|earlier|];
      if Looped(earlier, s) then o.effects == [] && o.code == 0
      else if a.host.writeErrno != 0 then o.effects == [] && o.code == -a.host.writeErrno
      else if TxEnabled(LastEnables(earlier, s)) then
        && o.effects == [Stdout(a.data)] + Flap(4, a.host)
        && o.code == if a.host.lowErrno != 0 then -a.host.lowErrno else -a.host.highErrno
      else o.effects == [Stdout(a.data)] && o.code == 0
  {
    RegistersFollowHistory(s, earlier);
    assert (earlier + [a])[..|earlier|] == earlier;
  }

  lemma LastObserved(s: State, earlier: seq<Access>, a: Access)
    ensures Run(s, earlier + [a]).observed[|earlier|] == Step(Run(s, earlier).state, a).1
  {
    assert (earlier + [a])[..|earlier|] == earlier;
  }

  predicate Waiting(s: State, earlier: seq<Access>) {
    |Taken(earlier, s)| < |s.rx| + |Received(earlier, s)|
  }

  lemma WaitingIsQueued(s: State, earlier: seq<Access>)
    ensures Waiting(s, earlier) <==> Run(s, earlier).state.rx != []
  {
    QueueConservation(s, earlier);
    QueuePop(s.rx, Received(earlier, s), Taken(earlier, s), Run(s, earlier).state.rx);
  }

  lemma StoreEnables(s: State, data: byte, host: HostReply)
    requires !DlabSet(s.regs.lcr)
    ensures var o := WritePort(s, 0x3F9, data, host);
      if data / 2 % 2 == 1 || (data % 2 == 1 && s.rx != []) then
        o.effects == Flap(4, host) && o.code == FlapCode(host)
      else o.effects == [] && o.code == 0
  {
    assert WritableEnables(data) % 2 == data % 2 && WritableEnables(data) / 2 % 2 == data / 2 % 2;
  }

  /** Storing IER with DLAB clear pulses the line exactly when the new value enables the THR-empty interrupt, or
      enables the receive interrupt while a received byte is still to be taken. */
  lemma EnableEffects(s: State, earlier: seq<Access>, data: byte, host: HostReply)
    requires !DlabSet(LastOut(earlier, 0x3FB, s.regs.lcr))
    ensures var o := Run(s, earlier + [Out(0x3F9, data, host)]).observed[|earlier|];
      if data / 2 % 2 == 1 || (data % 2 == 1 && Waiting(s, earlier)) then
        && o.effects == Flap(4, host)
        && o.code == if host.lowErrno != 0 then -host.lowErrno else -host.highErrno
      else o.effects == [] && o.code == 0
  {
    LastObserved(s, earlier, Out(0x3F9, data, host));
    RegistersFollowHistory(s, earlier);
    WaitingIsQueued(s, earlier);
    StoreEnables(Run(s, earlier).state, data, host);
  }

  /** A byte from stdin pulses the line exactly when the receive interrupt is enabled. */
  lemma ArrivalEffects(s: State, earlier: seq<Access>, c: byte, host: HostReply)
    ensures var o := Run(s, earlier + [Stdin(c, host)]).observed[|earlier|];
      o.effects == if RxEnabled(LastEnables(earlier, s)) then Flap(4, host) else []
  {
    RegistersFollowHistory(s, earlier);
    LastObserved(s, earlier, Stdin(c, host));
  }

  /** Nothing else reaches the host, and only ports outside 0x3F8-0x3FF are refused, which like a write leave
      the guest's byte alone. */
  lemma QuietOtherwise(s: State, earlier: seq<Access>, a: Access)
    requires !a.Stdin? && !Transmits(earlier, a, s)
    requires a.Out? && a.port == 0x3F9 ==> DlabSet(LastOut(earlier, 0x3FB, s.regs.lcr))
    ensures var o := Run(s, earlier + [a]).observed[|earlier|];
      && o.effects == [] && o.code == (if 0x3F8 <= a.port < 0x400 then 0 else 1)
      && (a.Out? || o.code != 0 ==> o.reply == a.data)
  {
    RegistersFollowHistory(s, earlier);
    LastObserved(s, earlier, a);
  }

  /** LCR, MCR and SR read back as last written, and with DLAB clear so do the four interrupt enables. */
  lemma RegistersReadBack(s: State, earlier: seq<Access>, port: nat, data: byte)
    requires port == 0x3FB || port == 0x3FC || port == 0x3FF || port == 0x3F9
    requires port == 0x3F9 ==> !DlabSet(LastOut(earlier, 0x3FB, s.regs.lcr))
    ensures var reply := Run(s, earlier + [In(port, data)]).observed[|earlier|].reply;
      reply == if port == 0x3FB then LastOut(earlier, port, s.regs.lcr)
        else if port == 0x3FC then LastOut(earlier, port, s.regs.mcr)
        else if port == 0x3FF then LastOut(earlier, port, s.regs.sr)
        else LastEnables(earlier, s)
  {
    RegistersFollowHistory(s, earlier);
    LastObserved(s, earlier, In(port, data));
  }

  /** Divisor writes are accepted and forgotten: with DLAB set the guest always reads 12, that is 115200/9600. */
  lemma DivisorIsFixed(s: State, earlier: seq<Access>, data: byte)
    requires DlabSet(LastOut(earlier, 0x3FB, s.regs.lcr))
    ensures Run(s, earlier + [In(0x3F8, data)]).observed[|earlier|].reply == 0x0C
    ensures Run(s, earlier + [In(0x3F9, data)]).observed[|earlier|].reply == 0x00
    ensures 115200 / (0x0C + 0x100 * 0x00) == 9600
  {
    RegistersFollowHistory(s, earlier);
    var low, high := earlier + [In(0x3F8, data)], earlier + [In(0x3F9, data)];
    assert low[..|earlier|] == earlier && high[..|earlier|] == earlier;
  }

  /** What the interrupt identification register means: the highest-priority enabled source, FIFO bits on top. */
  lemma IirPriority(s: State, data: byte)
    ensures var reply := ReadPort(s, 0x3FA, data).reply;
      && (reply % 0x10 == 4 <==> RxEnabled(s.regs.ier) && s.rx != [])
      && (reply % 0x10 == 2 <==> TxEnabled(s.regs.ier) && !(RxEnabled(s.regs.ier) && s.rx != []))
      && (reply % 0x10 == 1 <==> !TxEnabled(s.regs.ier) && !(RxEnabled(s.regs.ier) && s.rx != []))
      && reply / 0x10 % 4 == 0
      && reply / 0x40 == if FifoEnabled(s.regs.fcr) then 3 else 0
  {
  }

  /** The transmitter always looks empty and no error bit is ever set. */
  lemma LineMeaning(s: State, data: byte)
    ensures var line := ReadPort(s, 0x3FD, data).reply;
      && line / 0x20 == 3 && line / 2 % 0x10 == 0 && (line % 2 == 1 <==> s.rx != [])
  {
  }

  lemma FourBits(cts: bool, dsr: bool, ri: bool, dcd: bool)
    ensures var v := (if dsr then 0x20 else 0) + (if cts then 0x10 else 0) + (if ri then 0x40 else 0)
        + if dcd then 0x80 else 0;
      && v % 0x10 == 0 && (v / 0x10 % 2 == 1 <==> cts) && (v / 0x20 % 2 == 1 <==> dsr)
      && (v / 0x40 % 2 == 1 <==> ri) && (v / 0x80 % 2 == 1 <==> dcd)
  {
  }

  /** CTS, DSR and DCD, or with loopback on the modem controls RTS, DTR, OUT1 and OUT2 one for one. */
  lemma ModemMeaning(s: State, data: byte)
    ensures var modem, looped, mcr := ReadPort(s, 0x3FE, data).reply, LoopSet(s.regs.mcr), s.regs.mcr;
      && modem % 0x10 == 0
      && (modem / 0x10 % 2 == 1 <==> !looped || mcr / 2 % 2 == 1)
      && (modem / 0x20 % 2 == 1 <==> !looped || mcr % 2 == 1)
      && (modem / 0x40 % 2 == 1 <==> looped && mcr / 4 % 2 == 1)
      && (modem / 0x80 % 2 == 1 <==> !looped || mcr / 8 % 2 == 1)
  {
    var mcr := s.regs.mcr;
    if LoopSet(mcr) {
      FourBits(mcr / 2 % 2 == 1, mcr / 1 % 2 == 1, mcr / 4 % 2 == 1, mcr / 8 % 2 == 1);
    } else {
      FourBits(true, true, false, true);
    }
  }

  /** At any point of any history IIR names received data before THR empty before nothing, from the enables last
      stored and the bytes not yet taken; its FIFO bits follow the last FCR write. */
  lemma IirFollowsHistory(s: State, earlier: seq<Access>, data: byte)
    ensures var reply := Run(s, earlier + [In(0x3FA, data)]).observed[|earlier|].reply;
      var ier := LastEnables(earlier, s);
      && reply % 0x40 ==
          (if RxEnabled(ier) && Waiting(s, earlier) then 4
           else if TxEnabled(ier) then 2
           else 1)
      && reply / 0x40 == if FifoEnabled(LastOut(earlier, 0x3FA, s.regs.fcr)) then 3 else 0
  {
    LastObserved(s, earlier, In(0x3FA, data));
    RegistersFollowHistory(s, earlier);
    WaitingIsQueued(s, earlier);
    IirPriority(Run(s, earlier).state, data);
  }

  /** At any point of any history LSR shows Data Ready exactly while a received byte is not yet taken, and MSR the
      fixed peer or the modem controls last written. */
  lemma StatusFollowsHistory(s: State, earlier: seq<Access>, data: byte)
    ensures var line := Run(s, earlier + [In(0x3FD, data)]).observed[|earlier|].reply;
      line / 0x20 == 3 && line / 2 % 0x10 == 0 && (line % 2 == 1 <==> Waiting(s, earlier))
    ensures var modem := Run(s, earlier + [In(0x3FE, data)]).observed[|earlier|].reply;
      var mcr := LastOut(earlier, 0x3FC, s.regs.mcr);
      && modem % 0x10 == 0
      && (modem / 0x10 % 2 == 1 <==> !LoopSet(mcr) || mcr / 2 % 2 == 1)
      && (modem / 0x20 % 2 == 1 <==> !LoopSet(mcr) || mcr % 2 == 1)
      && (modem / 0x40 % 2 == 1 <==> LoopSet(mcr) && mcr / 4 % 2 == 1)
      && (modem / 0x80 % 2 == 1 <==> !LoopSet(mcr) || mcr / 8 % 2 == 1)
  {
    LastObserved(s, earlier, In(0x3FD, data));
    LastObserved(s, earlier, In(0x3FE, data));
    RegistersFollowHistory(s, earlier);
    WaitingIsQueued(s, earlier);
    LineMeaning(Run(s, earlier).state, data);
    ModemMeaning(Run(s, earlier).state, data);
  }

  // ----- the observational quotient -----

  /** Agreement on everything an access can ever reveal. */
  predicate SameCore(s: State, t: State) {
    && s.regs.ier == t.regs.ier && s.regs.fcr == t.regs.fcr && s.regs.lcr == t.regs.lcr && s.regs.mcr == t.regs.mcr
    && s.regs.sr == t.regs.sr && s.rx == t.rx
  }

  lemma CoreRead(s: State, t: State, port: nat, data: byte)
    requires SameCore(s, t)
    ensures var o, p := ReadPort(s, port, data), ReadPort(t, port, data);
      o.reply == p.reply && o.code == p.code && SameCore(o.state, p.state)
  {
    ReadKeepsRegisters(s, port, data);
    ReadKeepsRegisters(t, port, data);
  }

  lemma CoreWrite(s: State, t: State, port: nat, data: byte, host: HostReply)
    requires SameCore(s, t)
    ensures var o, p := WritePort(s, port, data, host), WritePort(t, port, data, host);
      o.effects == p.effects && o.code == p.code && SameCore(o.state, p.state)
  {
  }

  lemma CoreStep(s: State, t: State, a: Access)
    requires SameCore(s, t)
    ensures Step(s, a).1 == Step(t, a).1 && SameCore(Step(s, a).0, Step(t, a).0)
  {
    match a
    case In(port, data) => CoreRead(s, t, port, data);
    case Out(port, data, host) => CoreWrite(s, t, port, data, host);
    case Stdin(c, host) =>
  }

  /** THR, RBR, DLL, DLH, IIR, LSR and MSR as stored can never be told apart from outside. */
  lemma {:induction false} CoreDeterminesBehaviour(s: State, t: State, history: seq<Access>)
    requires SameCore(s, t)
    ensures Run(s, history).observed == Run(t, history).observed
    ensures SameCore(Run(s, history).state, Run(t, history).state)
  {
    if history != [] {
      var earlier := history[..|history| - 1];
      CoreDeterminesBehaviour(s, t, earlier);
      RunLast(s, history);
      RunLast(t, history);
      CoreStep(Run(s, earlier).state, Run(t, earlier).state, history[|history| - 1]);
    }
  }
}
