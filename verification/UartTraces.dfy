/** What the host and the guest see of the steps: the register file again, step by step, and the log's meaning.

A trace lists what stdout and the IRQ line look like after every step that changes them.  Alone, a thread's steps
leave the trace of the effects that the sequential access has.  Over every schedule the log's bytes are the bytes
that came from stdin, that were looped back, and that the guest got.
*/
module UartTraces {
  import opened Bytes
  import Uart
  import opened UartThreads

  // ----- traces -----

  datatype HostView = HostView(stdout: seq<byte>, line: bool)

  function View(sh: Shared): HostView { HostView(sh.stdout, sh.line) }

  function Seen(before: Shared, after: Shared): seq<HostView> {
    if View(after) == View(before) then [] else [View(after)]
  }

  function EffectTrace(sh: Shared, effects: seq<Uart.Effect>): seq<HostView>
    decreases |effects|
  {
    if effects == [] then []
    else
      var next := PerformOne(sh, effects[0]);
      Seen(sh, next) + EffectTrace(next, effects[1..])
  }

  function SoloTrace(sh: Shared, pc: Pc): seq<HostView>
    decreases Rank(pc)
  {
    if pc.Idle? then []
    else
      var (sh', pc') := ThreadStep(sh, pc);
      Seen(sh, sh') + SoloTrace(sh', pc')
  }

  function ScheduleTrace(s: System, schedule: seq<Action>): seq<HostView>
    decreases |schedule|
  {
    if schedule == [] then []
    else
      var next := Step(s, schedule[0]);
      Seen(s.shared, next.shared) + ScheduleTrace(next, schedule[1..])
  }

  // ----- one thread alone -----

  /** Effects only touch what the host sees. */
  lemma {:induction false} TraceOfView(sh: Shared, sh': Shared, effects: seq<Uart.Effect>)
    requires View(sh) == View(sh')
    ensures EffectTrace(sh, effects) == EffectTrace(sh', effects)
    decreases |effects|
  {
    if effects != [] {
      TraceOfView(PerformOne(sh, effects[0]), PerformOne(sh', effects[0]), effects[1..]);
    }
  }

  lemma NextTrace(sh: Shared, pc: Pc)
    requires !pc.Idle?
    ensures var (sh', pc') := ThreadStep(sh, pc); SoloTrace(sh, pc) == Seen(sh, sh') + SoloTrace(sh', pc')
  {
  }

  lemma QuietNext(sh: Shared, pc: Pc)
    requires !pc.Idle? && View(ThreadStep(sh, pc).0) == View(sh)
    ensures var (sh', pc') := ThreadStep(sh, pc); SoloTrace(sh, pc) == SoloTrace(sh', pc')
  {
    NextTrace(sh, pc);
  }

  lemma FlapTrace(sh: Shared)
    ensures SoloTrace(sh, LineLow) == EffectTrace(sh, Uart.Flap(4, Uart.ALL_SUCCEED))
  {
    var low, effects := sh.(line := false), Uart.Flap(4, Uart.ALL_SUCCEED);
    NextTrace(sh, LineLow);
    NextTrace(low, LineHigh);
    assert effects[1..] == [Uart.IrqLine(4, true)] && effects[1..][1..] == [];
    assert EffectTrace(low, effects[1..]) == Seen(low, low.(line := true)) + EffectTrace(low.(line := true), []);
  }

  lemma FlapViews(sh: Shared)
    ensures var low := sh.(line := false);
      EffectTrace(sh, Uart.Flap(4, Uart.ALL_SUCCEED)) == Seen(sh, low) + Seen(low, low.(line := true))
  {
    var low := sh.(line := false);
    FlapTrace(sh);
    NextTrace(sh, LineLow);
    NextTrace(low, LineHigh);
    assert SoloTrace(low.(line := true), DONE) == [];
  }

  lemma LoopedTrace(sh: Shared, data: byte)
    requires Uart.LoopSet(sh.device.regs.mcr)
    ensures SoloTrace(sh, ThrCheckLoop(data)) == []
  {
    QuietNext(sh, ThrCheckLoop(data));
    QuietNext(sh, ThrPush(data));
  }

  lemma SentTrace(sh: Shared, data: byte)
    requires !Uart.LoopSet(sh.device.regs.mcr)
    ensures SoloTrace(sh, ThrCheckLoop(data)) == EffectTrace(sh,
      if Uart.TxEnabled(sh.device.regs.ier) then [Uart.Stdout(data)] + Uart.Flap(4, Uart.ALL_SUCCEED)
      else [Uart.Stdout(data)])
  {
    var sent, flap := sh.(stdout := sh.stdout + [data]), Uart.Flap(4, Uart.ALL_SUCCEED);
    QuietNext(sh, ThrCheckLoop(data));
    NextTrace(sh, ThrSend(data));
    QuietNext(sent, ThrCheckTx);
    if Uart.TxEnabled(sh.device.regs.ier) {
      FlapTrace(sent);
      assert ([Uart.Stdout(data)] + flap)[1..] == flap;
    } else {
      assert [Uart.Stdout(data)][1..] == [];
    }
  }

  lemma TransmitTrace(sh: Shared, data: byte)
    requires !Uart.DlabSet(sh.device.regs.lcr)
    ensures SoloTrace(sh, WriteAt(0x3F8, data))
         == EffectTrace(sh, Uart.WritePort(sh.device, 0x3F8, data, Uart.ALL_SUCCEED).effects)
  {
    QuietNext(sh, WriteAt(0x3F8, data));
    if Uart.LoopSet(sh.device.regs.mcr) {
      LoopedTrace(sh, data);
    } else {
      SentTrace(sh, data);
    }
  }

  /** The IER store from its second step on. */
  lemma StoredTrace(sh: Shared)
    ensures SoloTrace(sh, IerSnapshot) == EffectTrace(sh,
      if Uart.TxEnabled(sh.device.regs.ier) || (Uart.RxEnabled(sh.device.regs.ier) && sh.device.rx != [])
      then Uart.Flap(4, Uart.ALL_SUCCEED) else [])
  {
    var pending := sh.device.rx != [];
    QuietNext(sh, IerSnapshot);
    TestedTrace(sh, pending);
    FlapTrace(sh);
  }

  lemma TestedTrace(sh: Shared, pending: bool)
    ensures SoloTrace(sh, IerTestTx(pending)) ==
      if Uart.TxEnabled(sh.device.regs.ier) || (Uart.RxEnabled(sh.device.regs.ier) && pending)
      then SoloTrace(sh, LineLow) else []
  {
    QuietNext(sh, IerTestTx(pending));
    if Uart.TxEnabled(sh.device.regs.ier) {
      assert ThreadStep(sh, IerTestTx(pending)) == (sh, LineLow);
    } else {
      assert ThreadStep(sh, IerTestTx(pending)) == (sh, IerTestRx(pending));
      RxTestedTrace(sh, pending);
    }
  }

  lemma RxTestedTrace(sh: Shared, pending: bool)
    ensures SoloTrace(sh, IerTestRx(pending)) ==
      if Uart.RxEnabled(sh.device.regs.ier) && pending then SoloTrace(sh, LineLow) else []
  {
    QuietNext(sh, IerTestRx(pending));
    assert SoloTrace(sh, DONE) == [];
  }

  lemma EnableTrace(sh: Shared, data: byte)
    requires !Uart.DlabSet(sh.device.regs.lcr)
    ensures SoloTrace(sh, WriteAt(0x3F9, data))
         == EffectTrace(sh, Uart.WritePort(sh.device, 0x3F9, data, Uart.ALL_SUCCEED).effects)
  {
    var stored := sh.(device := sh.device.(regs := sh.device.regs.(ier := Uart.WritableEnables(data))));
    QuietNext(sh, WriteAt(0x3F9, data));
    QuietNext(sh, IerStore(data));
    StoredTrace(stored);
    TraceOfView(sh, stored, Uart.WritePort(sh.device, 0x3F9, data, Uart.ALL_SUCCEED).effects);
  }

  lemma QuietWrite(sh: Shared, port: nat, data: byte)
    requires 0x3F8 <= port < 0x400 && (port == 0x3F8 || port == 0x3F9 ==> Uart.DlabSet(sh.device.regs.lcr))
    ensures SoloTrace(sh, WriteAt(port, data)) == []
    ensures Uart.WritePort(sh.device, port, data, Uart.ALL_SUCCEED).effects == []
  {
    QuietNext(sh, WriteAt(port, data));
  }

  /** A write's steps, run alone, show the host what the effects of `COM1::Write` show it, change by change. */
  lemma WriteTrace(sh: Shared, port: nat, data: byte)
    requires 0x3F8 <= port < 0x400
    ensures SoloTrace(sh, WriteAt(port, data))
         == EffectTrace(sh, Uart.WritePort(sh.device, port, data, Uart.ALL_SUCCEED).effects)
  {
    if port == 0x3F8 && !Uart.DlabSet(sh.device.regs.lcr) {
      TransmitTrace(sh, data);
    } else if port == 0x3F9 && !Uart.DlabSet(sh.device.regs.lcr) {
      EnableTrace(sh, data);
    } else {
      QuietWrite(sh, port, data);
    }
  }

  predicate Reading(pc: Pc) {
    pc.Idle? || pc.ReadAt? || pc.PopQueue? || pc.LoadEnables? || pc.IirTestRx? || pc.IirTestTx? || pc.IirFifo?
  }

  /** A read's steps show the host nothing. */
  lemma {:induction false} ReadTrace(sh: Shared, pc: Pc)
    requires Reading(pc)
    ensures SoloTrace(sh, pc) == []
    decreases Rank(pc)
  {
    if !pc.Idle? {
      QuietNext(sh, pc);
      ReadTrace(ThreadStep(sh, pc).0, ThreadStep(sh, pc).1);
    }
  }

  lemma TraceFront(s: System, action: Action, rest: seq<Action>)
    ensures ScheduleTrace(s, [action] + rest)
         == Seen(s.shared, Step(s, action).shared) + ScheduleTrace(Step(s, action), rest)
  {
    assert ([action] + rest)[1..] == rest;
  }

  /** Scheduling one vCPU alone leaves the trace of its own steps. */
  lemma {:induction false} TraceInSystem(s: System, t: nat, n: nat)
    requires t < |s.vcpus| && Rank(s.vcpus[t]) <= n
    ensures ScheduleTrace(s, Times(n, Advance(t))) == SoloTrace(s.shared, s.vcpus[t])
    decreases n
  {
    if n > 0 {
      var next := AdvanceVcpu(s, t);
      SoloStep(s, t);
      TraceInSystem(next, t, n - 1);
      TimesFront(n, Advance(t));
      TraceFront(s, Advance(t), Times(n - 1, Advance(t)));
      if !s.vcpus[t].Idle? {
        NextTrace(s.shared, s.vcpus[t]);
      }
    }
  }

  lemma BegunTrace(s: System, t: nat, request: Request, n: nat)
    requires t < |s.vcpus| && s.vcpus[t].Idle? && Rank(Begin(request)) <= n
    ensures ScheduleTrace(s, [Start(t, request)] + Times(n, Advance(t))) == SoloTrace(s.shared, Begin(request))
  {
    TraceFront(s, Start(t, request), Times(n, Advance(t)));
    TraceInSystem(Step(s, Start(t, request)), t, n);
  }

  /** A whole write by vCPU `t`, nobody else scheduled: state, reply-less end, and the host's view change by change. */
  lemma WriteInSystem(s: System, t: nat, port: nat, data: byte)
    requires t < |s.vcpus| && s.vcpus[t].Idle? && 0x3F8 <= port < 0x400
    ensures var schedule := [Start(t, Store(port, data))] + Times(7, Advance(t));
      var o := Uart.WritePort(s.shared.device, port, data, Uart.ALL_SUCCEED);
      && OnlyMoved(s, Exec(s, schedule), t, Perform(s.shared.(device := o.state), o.effects), DONE)
      && ScheduleTrace(s, schedule) == EffectTrace(s.shared, o.effects)
  {
    StartThenSolo(s, t, Store(port, data), 7);
    SoloWrite(s.shared, port, data);
    BegunTrace(s, t, Store(port, data), 7);
    WriteTrace(s.shared, port, data);
  }

  /** A whole read by vCPU `t`: the state and the reply of `COM1::Read`, and nothing for the host. */
  lemma ReadInSystem(s: System, t: nat, port: nat, data: byte)
    requires t < |s.vcpus| && s.vcpus[t].Idle? && 0x3F8 <= port < 0x400
    ensures var schedule := [Start(t, Load(port))] + Times(4, Advance(t));
      var o := Uart.ReadPort(s.shared.device, port, data);
      && OnlyMoved(s, Exec(s, schedule), t, s.shared.(device := o.state), Idle(Replied(port, o.reply)))
      && ScheduleTrace(s, schedule) == []
  {
    StartThenSolo(s, t, Load(port), 4);
    SoloRead(s.shared, port, data);
    BegunTrace(s, t, Load(port), 4);
    ReadTrace(s.shared, ReadAt(port));
  }

  // ----- the reader alone -----

  function ReaderSchedule(c: byte): seq<Action> {
    [StdinByte(c)] + Times(4, AdvanceReader)
  }

  lemma ReaderSteps(s: System, n: nat)
    requires n > 0
    ensures var next := AdvanceReaderThread(s);
      && Exec(s, Times(n, AdvanceReader)) == Exec(next, Times(n - 1, AdvanceReader))
      && ScheduleTrace(s, Times(n, AdvanceReader))
         == Seen(s.shared, next.shared) + ScheduleTrace(next, Times(n - 1, AdvanceReader))
  {
    TimesFront(n, AdvanceReader);
    ExecFront(s, AdvanceReader, Times(n - 1, AdvanceReader));
    TraceFront(s, AdvanceReader, Times(n - 1, AdvanceReader));
  }

  lemma {:induction false} ReaderRests(s: System, n: nat)
    requires s.reader.Waiting?
    ensures Exec(s, Times(n, AdvanceReader)) == s && ScheduleTrace(s, Times(n, AdvanceReader)) == []
  {
    if n > 0 {
      ReaderSteps(s, n);
      ReaderRests(s, n - 1);
    }
  }

  lemma ReaderFlaps(s: System)
    requires s.reader.ReaderLow?
    ensures var s' := Exec(s, Times(2, AdvanceReader));
      && s'.shared == s.shared.(line := true) && s'.vcpus == s.vcpus && s'.reader.Waiting?
      && ScheduleTrace(s, Times(2, AdvanceReader)) == EffectTrace(s.shared, Uart.Flap(4, Uart.ALL_SUCCEED))
  {
    var low := AdvanceReaderThread(s);
    var high := AdvanceReaderThread(low);
    ReaderSteps(s, 2);
    ReaderSteps(low, 1);
    ReaderRests(high, 0);
    FlapViews(s.shared);
  }

  lemma ReaderChecks(s: System)
    requires s.reader.CheckEnables?
    ensures var effects := if Uart.RxEnabled(s.shared.device.regs.ier) then Uart.Flap(4, Uart.ALL_SUCCEED) else [];
      var s' := Exec(s, Times(3, AdvanceReader));
      && s'.shared == Perform(s.shared, effects) && s'.vcpus == s.vcpus && s'.reader.Waiting?
      && ScheduleTrace(s, Times(3, AdvanceReader)) == EffectTrace(s.shared, effects)
  {
    var checked := AdvanceReaderThread(s);
    ReaderSteps(s, 3);
    if Uart.RxEnabled(s.shared.device.regs.ier) {
      ReaderFlaps(checked);
      PerformFlap(s.shared, []);
      assert [] + Uart.Flap(4, Uart.ALL_SUCCEED) == Uart.Flap(4, Uart.ALL_SUCCEED);
    } else {
      ReaderRests(checked, 2);
    }
  }

  lemma ReaderPushes(s: System)
    requires s.reader.Got?
    ensures var o := Uart.ReceiveByte(s.shared.device, s.reader.c, Uart.ALL_SUCCEED);
      var s' := Exec(s, Times(4, AdvanceReader));
      && s'.shared == Perform(s.shared.(device := o.state), o.effects)
      && s'.vcpus == s.vcpus && s'.reader.Waiting?
      && ScheduleTrace(s, Times(4, AdvanceReader)) == EffectTrace(s.shared, o.effects)
  {
    var pushed := AdvanceReaderThread(s);
    ReaderSteps(s, 4);
    ReaderChecks(pushed);
    TraceOfView(s.shared, pushed.shared, Uart.ReceiveByte(s.shared.device, s.reader.c, Uart.ALL_SUCCEED).effects);
  }

  /** The reader run alone on one byte from stdin ends waiting again, with the queue, the device and, change by change,
      the host as `readerLoop` leaves them: the byte itself queued, a pulse exactly when IER bit 0 is set. */
  lemma ReaderAlone(s: System, c: byte)
    requires s.reader.Waiting?
    ensures var o := Uart.ReceiveByte(s.shared.device, c, Uart.ALL_SUCCEED); var s' := Exec(s, ReaderSchedule(c));
      && s'.shared == Perform(s.shared.(device := o.state), o.effects)
      && s'.shared.device.rx == s.shared.device.rx + [c] && s'.shared.device.regs == s.shared.device.regs
      && s'.vcpus == s.vcpus && s'.reader.Waiting?
      && ScheduleTrace(s, ReaderSchedule(c)) == EffectTrace(s.shared, o.effects)
  {
    var got := s.(reader := Got(c));
    assert Step(s, StdinByte(c)) == got;
    ExecFront(s, StdinByte(c), Times(4, AdvanceReader));
    TraceFront(s, StdinByte(c), Times(4, AdvanceReader));
    ReaderPushes(got);
    DeviceKept(got.shared.(device := Uart.ReceiveByte(s.shared.device, c, Uart.ALL_SUCCEED).state),
      Uart.ReceiveByte(s.shared.device, c, Uart.ALL_SUCCEED).effects);
  }

  lemma {:induction false} DeviceKept(sh: Shared, effects: seq<Uart.Effect>)
    ensures Perform(sh, effects).device == sh.device
  {
    if effects != [] {
      DeviceKept(sh, effects[..|effects| - 1]);
    }
  }

  // ----- what the log means, over every schedule -----

  /** The bytes of stdin that the reader took: those that came while it was waiting. */
  function StdinTaken(s0: System, schedule: seq<Action>): seq<byte> {
    if schedule == [] then []
    else
      var earlier, a := schedule[..|schedule| - 1], schedule[|schedule| - 1];
      StdinTaken(s0, earlier) + if a.StdinByte? && Exec(s0, earlier).reader.Waiting? then [a.c] else []
  }

  /** The bytes that loopback turned around: those of the THR writes that took that branch. */
  function LoopedIn(s0: System, schedule: seq<Action>): seq<byte> {
    if schedule == [] then []
    else
      var earlier, a := schedule[..|schedule| - 1], schedule[|schedule| - 1];
      var s := Exec(s0, earlier);
      LoopedIn(s0, earlier)
      + if a.Advance? && a.t < |s.vcpus| && s.vcpus[a.t].ThrPush? then [s.vcpus[a.t].data] else []
  }

  /** What the guest got from the receive buffer register. */
  function GuestGot(s0: System, schedule: seq<Action>): seq<byte> {
    if schedule == [] then []
    else
      var earlier, a := schedule[..|schedule| - 1], schedule[|schedule| - 1];
      var s := Exec(s0, earlier);
      GuestGot(s0, earlier)
      + if a.Advance? && a.t < |s.vcpus| && s.vcpus[a.t].PopQueue? then
          match Step(s, a).vcpus[a.t] case Idle(Replied(0x3F8, reply)) => [reply] case _ => []
        else []
  }

  function PushedFrom(pushed: seq<Pushed>, stdin: bool): seq<byte> {
    if pushed == [] then []
    else
      var last := pushed[|pushed| - 1];
      PushedFrom(pushed[..|pushed| - 1], stdin) + if last.fromStdin == stdin then [last.c] else []
  }

  lemma PushedMore(pushed: seq<Pushed>, p: Pushed, stdin: bool)
    ensures PushedFrom(pushed + [p], stdin) == PushedFrom(pushed, stdin) + if p.fromStdin == stdin then [p.c] else []
  {
    assert (pushed + [p])[..|pushed|] == pushed;
  }

  /** The byte the reader has read and not yet pushed. */
  function Held(s: System): seq<byte> {
    if s.reader.Got? then [s.reader.c] else []
  }

  lemma ReaderPush(s: System)
    requires s.reader.Got?
    ensures var s' := AdvanceReaderThread(s);
      s'.log.pushed == s.log.pushed + [Pushed(s.reader.c, true)] && s'.reader.CheckEnables?
  {
  }

  lemma VcpuPush(s: System, t: nat)
    requires t < |s.vcpus| && s.vcpus[t].ThrPush?
    ensures var s' := AdvanceVcpu(s, t);
      s'.log.pushed == s.log.pushed + [Pushed(s.vcpus[t].data, false)] && s'.reader == s.reader
  {
  }

  predicate Pushes(s: System, a: Action) {
    (a.AdvanceReader? && s.reader.Got?) || (a.Advance? && a.t < |s.vcpus| && s.vcpus[a.t].ThrPush?)
  }

  lemma NoPush(s: System, a: Action)
    requires !Pushes(s, a)
    ensures Step(s, a).log.pushed == s.log.pushed
    ensures Held(Step(s, a)) == Held(s) + if a.StdinByte? && s.reader.Waiting? then [a.c] else []
  {
  }

  lemma StdinStep(s: System, a: Action)
    ensures PushedFrom(Step(s, a).log.pushed, true) + Held(Step(s, a))
         == PushedFrom(s.log.pushed, true) + Held(s) + if a.StdinByte? && s.reader.Waiting? then [a.c] else []
  {
    if a.AdvanceReader? && s.reader.Got? {
      ReaderPush(s);
      PushedMore(s.log.pushed, Pushed(s.reader.c, true), true);
    } else if Pushes(s, a) {
      VcpuPush(s, a.t);
      PushedMore(s.log.pushed, Pushed(s.vcpus[a.t].data, false), true);
    } else {
      NoPush(s, a);
    }
  }

  /** Under every interleaving the stdin bytes pushed are, in order, the bytes that came while the reader was
      waiting, but for the one it may still hold. */
  lemma {:induction false} StdinInOrder(s0: System, schedule: seq<Action>)
    requires Initial(s0)
    ensures var s := Exec(s0, schedule);
      PushedFrom(s.log.pushed, true) + Held(s) == StdinTaken(s0, schedule)
  {
    if schedule != [] {
      StdinInOrder(s0, schedule[..|schedule| - 1]);
      StdinStep(Exec(s0, schedule[..|schedule| - 1]), schedule[|schedule| - 1]);
    }
  }

  lemma LoopStep(s: System, a: Action)
    ensures PushedFrom(Step(s, a).log.pushed, false) == PushedFrom(s.log.pushed, false)
      + if a.Advance? && a.t < |s.vcpus| && s.vcpus[a.t].ThrPush? then [s.vcpus[a.t].data] else []
  {
    if a.AdvanceReader? && s.reader.Got? {
      ReaderPush(s);
      PushedMore(s.log.pushed, Pushed(s.reader.c, true), false);
    } else if Pushes(s, a) {
      VcpuPush(s, a.t);
      PushedMore(s.log.pushed, Pushed(s.vcpus[a.t].data, false), false);
    } else {
      NoPush(s, a);
    }
  }

  /** All other pushed bytes are, in order, those that loopback turned around. */
  lemma {:induction false} LoopbackInOrder(s0: System, schedule: seq<Action>)
    requires Initial(s0)
    ensures PushedFrom(Exec(s0, schedule).log.pushed, false) == LoopedIn(s0, schedule)
  {
    if schedule != [] {
      LoopbackInOrder(s0, schedule[..|schedule| - 1]);
      LoopStep(Exec(s0, schedule[..|schedule| - 1]), schedule[|schedule| - 1]);
    }
  }

  lemma ReplyStep(s: System, t: nat)
    requires t < |s.vcpus| && s.vcpus[t].PopQueue?
    ensures var s' := AdvanceVcpu(s, t);
      match s'.vcpus[t]
      case Idle(Replied(0x3F8, reply)) => s'.log.rbrReplies == s.log.rbrReplies + [reply]
      case _ => false
  {
  }

  lemma OtherStep(s: System, a: Action)
    requires !(a.Advance? && a.t < |s.vcpus| && s.vcpus[a.t].PopQueue?)
    ensures Step(s, a).log.rbrReplies == s.log.rbrReplies
  {
  }

  /** The replies in the log are the replies the guest got. */
  lemma {:induction false} RepliesAreLogged(s0: System, schedule: seq<Action>)
    requires Initial(s0)
    ensures Exec(s0, schedule).log.rbrReplies == GuestGot(s0, schedule)
  {
    if schedule != [] {
      var s, a := Exec(s0, schedule[..|schedule| - 1]), schedule[|schedule| - 1];
      RepliesAreLogged(s0, schedule[..|schedule| - 1]);
      if a.Advance? && a.t < |s.vcpus| && s.vcpus[a.t].PopQueue? {
        ReplyStep(s, a.t);
      } else {
        OtherStep(s, a);
      }
    }
  }

  lemma StoppedStep(s: System, a: Action)
    requires s.reader.Stopped?
    ensures Step(s, a).reader.Stopped?
  {
  }

  lemma TakenMore(s0: System, schedule: seq<Action>, a: Action)
    ensures Exec(s0, schedule + [a]) == Step(Exec(s0, schedule), a)
    ensures StdinTaken(s0, schedule + [a])
         == StdinTaken(s0, schedule) + if a.StdinByte? && Exec(s0, schedule).reader.Waiting? then [a.c] else []
  {
    assert (schedule + [a])[..|schedule|] == schedule;
  }

  /** After the end of stdin has been seen the reader stays stopped and takes nothing more. */
  lemma {:induction false} EndIsFinal(s0: System, before: seq<Action>, after: seq<Action>)
    requires Exec(s0, before).reader.Waiting?
    ensures var schedule := before + [StdinEnd] + after;
      Exec(s0, schedule).reader.Stopped? && StdinTaken(s0, schedule) == StdinTaken(s0, before)
  {
    if after == [] {
      TakenMore(s0, before, StdinEnd);
      assert before + [StdinEnd] + after == before + [StdinEnd];
    } else {
      var earlier, last := before + [StdinEnd] + after[..|after| - 1], after[|after| - 1];
      EndIsFinal(s0, before, after[..|after| - 1]);
      TakenMore(s0, earlier, last);
      StoppedStep(Exec(s0, earlier), last);
      assert before + [StdinEnd] + after == earlier + [last];
    }
  }

  /** End to end: a polling driver gets a prefix of the bytes that came in, stdin and loopback, in push order. */
  lemma PollingDriverGets(s0: System, driver: nat, schedule: seq<Action>)
    requires Initial(s0) && Polling(s0, driver, schedule)
    ensures var s := Exec(s0, schedule);
      && BytesOf(s.log.pushed) == GuestGot(s0, schedule) + s.shared.device.rx
      && PushedFrom(s.log.pushed, true) + Held(s) == StdinTaken(s0, schedule)
      && PushedFrom(s.log.pushed, false) == LoopedIn(s0, schedule)
  {
    PollingDriverReadsStream(s0, driver, schedule);
    RepliesAreLogged(s0, schedule);
    StdinInOrder(s0, schedule);
    LoopbackInOrder(s0, schedule);
  }
}
