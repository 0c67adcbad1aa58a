/** COM1 under concurrency: the stdin reader thread and any number of vCPU threads.

Every access of src/com1.cpp is cut at each touch of shared state: a register load or store, a
block under `rx_mutex`, a `write` to stdout, and each of the two ioctls of `flapIRQLine`.  A
schedule is any sequence of actions; an action that is not enabled changes nothing, so every
interleaving is a schedule.  `Log` only watches: no step reads it.

Assumed throughout: `KVM_IRQ_LINE` and `write` succeed.
*/
module UartThreads {
  import opened Bytes
  import opened Uart

  // ----- one vCPU thread inside COM1::Read or COM1::Write -----

  datatype Request = Load(port: nat) | Store(port: nat, data: byte)

  datatype Last = Nothing | Replied(port: nat, reply: byte)

  datatype Pc =
    | Idle(last: Last)
    | ReadAt(port: nat)
    | PopQueue
    | LoadEnables
    | IirTestRx(pending: bool)
    | IirTestTx
    | IirFifo(source: byte)
    | WriteAt(port: nat, data: byte)
    | ThrCheckLoop(data: byte)
    | ThrPush(data: byte)
    | ThrSend(data: byte)
    | ThrCheckTx
    | IerStore(data: byte)
    | IerSnapshot
    | IerTestTx(pending: bool)
    | IerTestRx(pending: bool)
    | LineLow
    | LineHigh

  datatype Shared = Shared(device: State, line: bool, stdout: seq<byte>)

  function Begin(request: Request): Pc {
    match request
    case Load(port) => ReadAt(port)
    case Store(port, data) => WriteAt(port, data)
  }

  function Reply(port: nat, reply: byte): Pc { Idle(Replied(port, reply)) }

  const DONE := Idle(Nothing)

  /** The first step of `COM1::Read`. */
  function ReadStep(d: State, port: nat): Pc {
    if port == PORT_THR_RBR_DLL then if DlabSet(d.regs.lcr) then Reply(port, DLL_9600) else PopQueue
    else if port == PORT_IER_DLH then if DlabSet(d.regs.lcr) then Reply(port, DLH_9600) else LoadEnables
    else if port == PORT_IIR_FCR then IirTestRx(d.rx != [])
    else if port == PORT_LCR then Reply(port, d.regs.lcr)
    else if port == PORT_MCR then Reply(port, d.regs.mcr)
    else if port == PORT_LSR then Reply(port, LsrReply(d.rx != []))
    else if port == PORT_MSR then Reply(port, MsrReply(d.regs.mcr))
    else if port == PORT_SR then Reply(port, d.regs.sr)
    else DONE
  }

  /** The first step of `COM1::Write`. */
  function WriteStep(d: State, port: nat, data: byte): (State, Pc) {
    if port == PORT_THR_RBR_DLL then
      if DlabSet(d.regs.lcr) then (d.(regs := d.regs.(dll := data)), DONE) else (d, ThrCheckLoop(data))
    else if port == PORT_IER_DLH then
      if DlabSet(d.regs.lcr) then (d.(regs := d.regs.(dlh := data)), DONE) else (d, IerStore(data))
    else if port == PORT_IIR_FCR then (d.(regs := d.regs.(fcr := data)), DONE)
    else if port == PORT_LCR then (d.(regs := d.regs.(lcr := data)), DONE)
    else if port == PORT_MCR then (d.(regs := d.regs.(mcr := data)), DONE)
    else if port == PORT_SR then (d.(regs := d.regs.(sr := data)), DONE)
    else (d, DONE)
  }

  function ThreadStep(sh: Shared, pc: Pc): (Shared, Pc) {
    var d := sh.device;
    match pc
    case Idle(_) => (sh, pc)
    case ReadAt(port) => (sh, ReadStep(d, port))
    case PopQueue =>
      if d.rx == [] then (sh, Reply(PORT_THR_RBR_DLL, 0))
      else (sh.(device := d.(rx := d.rx[1..])), Reply(PORT_THR_RBR_DLL, d.rx[0]))
    case LoadEnables => (sh, Reply(PORT_IER_DLH, d.regs.ier))
    case IirTestRx(pending) => (sh, if RxEnabled(d.regs.ier) && pending then IirFifo(IIR_DATA_AVL) else IirTestTx)
    case IirTestTx => (sh, IirFifo(if TxEnabled(d.regs.ier) then IIR_THR_EMPTY else IIR_NO_INT_PEND))
    case IirFifo(source) =>
      (sh, Reply(PORT_IIR_FCR, if FifoEnabled(d.regs.fcr) then (IIR_FIFO_16550A + source) % 256 else source))
    case WriteAt(port, data) =>
      var (d', pc') := WriteStep(d, port, data);
      (sh.(device := d'), pc')
    case ThrCheckLoop(data) => (sh, if LoopSet(d.regs.mcr) then ThrPush(data) else ThrSend(data))
    case ThrPush(data) => (sh.(device := d.(rx := d.rx + [data])), DONE)
    case ThrSend(data) => (sh.(stdout := sh.stdout + [data]), ThrCheckTx)
    case ThrCheckTx => (sh, if TxEnabled(d.regs.ier) then LineLow else DONE)
    case IerStore(data) => (sh.(device := d.(regs := d.regs.(ier := WritableEnables(data)))), IerSnapshot)
    case IerSnapshot => (sh, IerTestTx(d.rx != []))
    case IerTestTx(pending) => (sh, if TxEnabled(d.regs.ier) then LineLow else IerTestRx(pending))
    case IerTestRx(pending) => (sh, if RxEnabled(d.regs.ier) && pending then LineLow else DONE)
    case LineLow => (sh.(line := false), LineHigh)
    case LineHigh => (sh.(line := true), DONE)
  }

  // ----- the system -----

  datatype ReaderPc = Waiting | Got(c: byte) | CheckEnables | ReaderLow | ReaderHigh | Stopped

  datatype Pushed = Pushed(c: byte, fromStdin: bool)

  /** The transmitter's history: all bytes sent, how many preceded the last rising edge, and for each vCPU how many
      its last send or IER store answers for. */
  datatype TxLog = TxLog(sent: seq<byte>, announced: nat, marks: seq<nat>)

  /** History: all pushes, all pops, all RBR replies, how many pushes preceded the last rising edge, how many
      preceded each vCPU's last IER store, which vCPU stored IER last, the reader's last push, any flap yet. */
  datatype Log = Log(
    pushed: seq<Pushed>, popped: seq<byte>, rbrReplies: seq<byte>,
    announced: nat, storedAt: seq<nat>, storer: nat, current: nat, flapped: bool, tx: TxLog)

  datatype System = System(shared: Shared, vcpus: seq<Pc>, reader: ReaderPc, log: Log)

  datatype Action =
    | Start(t: nat, request: Request)
    | Advance(t: nat)
    | StdinByte(c: byte)
    | StdinEnd
    | AdvanceReader

  function VcpuLog(s: System, t: nat, sh': Shared): Log
    requires t < |s.vcpus|
  {
    var pc, rx, log := s.vcpus[t], s.shared.device.rx, s.log;
    log.(
      pushed := if pc.ThrPush? then log.pushed + [Pushed(pc.data, false)] else log.pushed,
      popped := if pc.PopQueue? && rx != [] then log.popped + [rx[0]] else log.popped,
      rbrReplies := if pc.PopQueue? then log.rbrReplies + [if rx != [] then rx[0] else 0] else log.rbrReplies,
      announced := if !s.shared.line && sh'.line then |log.pushed| else log.announced,
      storedAt := if pc.IerStore? && t < |log.storedAt| then log.storedAt[t := |log.pushed|] else log.storedAt,
      storer := if pc.IerStore? then t else log.storer,
      flapped := log.flapped || pc.LineLow?,
      tx := VcpuTxLog(log.tx, pc, t, !s.shared.line && sh'.line))
  }

  function VcpuTxLog(tx: TxLog, pc: Pc, t: nat, rises: bool): TxLog {
    TxLog(
      if pc.ThrSend? then tx.sent + [pc.data] else tx.sent,
      if rises then |tx.sent| else tx.announced,
      if t >= |tx.marks| then tx.marks
      else if pc.ThrSend? then tx.marks[t := |tx.sent| + 1]
      else if pc.IerStore? then tx.marks[t := |tx.sent|]
      else tx.marks)
  }

  function AdvanceVcpu(s: System, t: nat): System
    requires t < |s.vcpus|
  {
    var (sh', pc') := ThreadStep(s.shared, s.vcpus[t]);
    System(sh', s.vcpus[t := pc'], s.reader, VcpuLog(s, t, sh'))
  }

  function AdvanceReaderThread(s: System): System {
    var sh, d, log := s.shared, s.shared.device, s.log;
    match s.reader
    case Waiting => s
    case Stopped => s
    case Got(c) =>
      s.(shared := sh.(device := d.(rx := d.rx + [c])),
         reader := CheckEnables,
         log := log.(pushed := log.pushed + [Pushed(c, true)], current := |log.pushed|))
    case CheckEnables => s.(reader := if RxEnabled(d.regs.ier) then ReaderLow else Waiting)
    case ReaderLow => s.(shared := sh.(line := false), reader := ReaderHigh, log := log.(flapped := true))
    case ReaderHigh =>
      s.(shared := sh.(line := true), reader := Waiting,
         log := log.(
           announced := if !sh.line then |log.pushed| else log.announced,
           tx := log.tx.(announced := if !sh.line then |log.tx.sent| else log.tx.announced)))
  }

  function Step(s: System, action: Action): System {
    match action
    case Start(t, request) =>
      if t < |s.vcpus| && s.vcpus[t].Idle? then s.(vcpus := s.vcpus[t := Begin(request)]) else s
    case Advance(t) => if t < |s.vcpus| then AdvanceVcpu(s, t) else s
    case StdinByte(c) => if s.reader.Waiting? then s.(reader := Got(c)) else s
    case StdinEnd => if s.reader.Waiting? then s.(reader := Stopped) else s
    case AdvanceReader => AdvanceReaderThread(s)
  }

  function Exec(s: System, schedule: seq<Action>): System {
    if schedule == [] then s
    else Step(Exec(s, schedule[..|schedule| - 1]), schedule[|schedule| - 1])
  }

  predicate AllIdle(s: System) {
    && (s.reader.Waiting? || s.reader.Stopped?)
    && forall t :: 0 <= t < |s.vcpus| ==> s.vcpus[t].Idle?
  }

  /** Any registers, any line level, any number of vCPUs; the queue starts empty. */
  predicate Initial(s: System) {
    && AllIdle(s)
    && (forall t :: 0 <= t < |s.vcpus| ==> s.vcpus[t] == DONE)
    && s.shared.device.rx == []
    && s.log == Log([], [], [], 0, Zeros(|s.vcpus|), 0, 0, false, TxLog([], 0, Zeros(|s.vcpus|)))
  }

  // ----- the inductive invariant -----

  function BytesOf(pushed: seq<Pushed>): (bs: seq<byte>)
    ensures |bs| == |pushed| && forall i :: 0 <= i < |bs| ==> bs[i] == pushed[i].c
  {
    seq(|pushed|, i requires 0 <= i < |pushed| => pushed[i].c)
  }

  predicate Conserved(s: System) {
    BytesOf(s.log.pushed) == s.log.popped + s.shared.device.rx
  }

  predicate ReaderBusy(s: System) {
    s.reader.CheckEnables? || s.reader.ReaderLow? || s.reader.ReaderHigh?
  }

  predicate InRange(s: System) {
    && |s.log.storedAt| == |s.vcpus|
    && s.log.announced <= |s.log.pushed|
    && (forall t :: 0 <= t < |s.vcpus| ==> s.log.storedAt[t] <= |s.log.pushed|)
    && (ReaderBusy(s) ==> s.log.current < |s.log.pushed|)
  }

  /** Between the two ioctls of a flap the line is low, or has risen since. */
  predicate FlapsHold(s: System) {
    && (forall t :: 0 <= t < |s.vcpus| && t < |s.log.storedAt| && s.vcpus[t].LineHigh? ==>
          !s.shared.line || s.log.storedAt[t] <= s.log.announced)
    && (s.reader.ReaderHigh? ==> !s.shared.line || s.log.current < s.log.announced)
  }

  /** A byte from stdin that is still queued although no rising edge followed its push. */
  predicate Unannounced(s: System, k: int) {
    && |s.log.popped| <= k < |s.log.pushed|
    && s.log.pushed[k].fromStdin
    && s.log.announced <= k
  }

  predicate ReaderOwes(s: System, k: int) {
    ReaderBusy(s) && s.log.current == k
  }

  predicate Owing(pc: Pc) {
    pc.IerSnapshot? || (pc.IerTestTx? && pc.pending) || (pc.IerTestRx? && pc.pending) || pc.LineLow? || pc.LineHigh?
  }

  /** The vCPU that wrote IER last did so after the push, and is on its way to a flap. */
  predicate StorerOwes(s: System, k: int) {
    && s.log.storer < |s.vcpus| && s.log.storer < |s.log.storedAt|
    && k < s.log.storedAt[s.log.storer]
    && Owing(s.vcpus[s.log.storer])
  }

  predicate Accounted(s: System, k: int) {
    ReaderOwes(s, k) || !RxEnabled(s.shared.device.regs.ier) || StorerOwes(s, k)
  }

  ghost predicate AllAccounted(s: System) {
    forall k :: Unannounced(s, k) ==> Accounted(s, k)
  }

  predicate LowIsTransient(s: System) {
    s.log.flapped && !s.shared.line ==>
      s.reader.ReaderHigh? || exists t :: 0 <= t < |s.vcpus| && s.vcpus[t].LineHigh?
  }

  ghost predicate Inv(s: System) {
    Conserved(s) && InRange(s) && FlapsHold(s) && AllAccounted(s) && LowIsTransient(s)
  }

  lemma BytesOfMore(pushed: seq<Pushed>, p: Pushed)
    ensures BytesOf(pushed + [p]) == BytesOf(pushed) + [p.c]
  {
  }

  /** A queue that grew at its end, gave up its head, or stayed. */
  lemma QueueStep(pushed: seq<byte>, popped: seq<byte>, rx: seq<byte>, c: byte)
    requires pushed == popped + rx
    ensures pushed + [c] == popped + (rx + [c])
    ensures rx != [] ==> pushed == (popped + [rx[0]]) + rx[1..]
  {
  }

  lemma ConservedStep(s: System, action: Action)
    requires Conserved(s)
    ensures Conserved(Step(s, action))
  {
    var s', pushed, rx := Step(s, action), s.log.pushed, s.shared.device.rx;
    if |s'.log.pushed| > |pushed| {
      var p := s'.log.pushed[|pushed|];
      BytesOfMore(pushed, p);
      QueueStep(BytesOf(pushed), s.log.popped, rx, p.c);
    } else {
      QueueStep(BytesOf(pushed), s.log.popped, rx, 0);
    }
  }

  lemma InRangeStep(s: System, action: Action)
    requires InRange(s)
    ensures InRange(Step(s, action))
  {
  }

  lemma FlapsHoldStep(s: System, action: Action)
    requires InRange(s) && FlapsHold(s)
    ensures FlapsHold(Step(s, action))
  {
  }

  lemma LowIsTransientStep(s: System, action: Action)
    requires LowIsTransient(s)
    ensures LowIsTransient(Step(s, action))
  {
    var s' := Step(s, action);
    if s'.log.flapped && !s'.shared.line && !s'.reader.ReaderHigh? {
      if action.Advance? && action.t < |s.vcpus| && s.vcpus[action.t].LineLow? {
        assert s'.vcpus[action.t].LineHigh?;
      } else {
        var t :| 0 <= t < |s.vcpus| && s.vcpus[t].LineHigh?;
        assert s'.vcpus[t].LineHigh?;
      }
    }
  }

  /** A queued byte is in the queue: the snapshot of `rx_buf` cannot miss it. */
  lemma UnannouncedIsQueued(s: System, k: int)
    requires Conserved(s) && Unannounced(s, k)
    ensures s.shared.device.rx != []
  {
    assert |BytesOf(s.log.pushed)| == |s.log.popped + s.shared.device.rx|;
  }

  lemma VcpuKeepsAccount(s: System, t: nat, k: int)
    requires Inv(s) && t < |s.vcpus| && Unannounced(AdvanceVcpu(s, t), k)
    ensures Accounted(AdvanceVcpu(s, t), k)
  {
    var s', pc := AdvanceVcpu(s, t), s.vcpus[t];
    if k < |s.log.pushed| {
      assert Unannounced(s, k);
      UnannouncedIsQueued(s, k);
      if pc.IerStore? {
        assert StorerOwes(s', k);
      } else if StorerOwes(s, k) && t == s.log.storer && RxEnabled(s.shared.device.regs.ier) && !ReaderOwes(s, k) {
        assert StorerOwes(s', k);
      }
    }
  }

  lemma ReaderKeepsAccount(s: System, k: int)
    requires Inv(s) && Unannounced(AdvanceReaderThread(s), k)
    ensures Accounted(AdvanceReaderThread(s), k)
  {
    if k < |s.log.pushed| {
      assert Unannounced(s, k);
    }
  }

  lemma AllAccountedStep(s: System, action: Action)
    requires Inv(s)
    ensures AllAccounted(Step(s, action))
  {
    var s' := Step(s, action);
    forall k | Unannounced(s', k) ensures Accounted(s', k) {
      match action
      case Advance(t) =>
        if t < |s.vcpus| {
          VcpuKeepsAccount(s, t, k);
        } else {
          assert Unannounced(s, k);
        }
      case AdvanceReader => ReaderKeepsAccount(s, k);
      case Start(t, request) => assert Unannounced(s, k);
      case StdinByte(c) => assert Unannounced(s, k);
      case StdinEnd => assert Unannounced(s, k);
    }
  }

  lemma {:induction false} InvHolds(s0: System, schedule: seq<Action>)
    requires Initial(s0)
    ensures Inv(Exec(s0, schedule))
  {
    if schedule == [] {
      assert BytesOf(s0.log.pushed) == s0.log.popped + s0.shared.device.rx;
    } else {
      var s, action := Exec(s0, schedule[..|schedule| - 1]), schedule[|schedule| - 1];
      InvHolds(s0, schedule[..|schedule| - 1]);
      ConservedStep(s, action);
      InRangeStep(s, action);
      FlapsHoldStep(s, action);
      LowIsTransientStep(s, action);
      AllAccountedStep(s, action);
    }
  }

  // ----- what holds over every schedule -----

  /** Action number `m` of the schedule takes IRQ 4 from low to high. */
  predicate RisesAt(s0: System, schedule: seq<Action>, m: nat)
    requires m < |schedule|
  {
    !Exec(s0, schedule[..m]).shared.line && Exec(s0, schedule[..m + 1]).shared.line
  }

  /** `announced` really counts the pushes before some rising edge. */
  lemma {:induction false} AnnouncedMeansRisen(s0: System, schedule: seq<Action>, k: nat) returns (m: nat)
    requires Initial(s0) && k < Exec(s0, schedule).log.announced
    ensures m < |schedule| && RisesAt(s0, schedule, m)
    ensures k < |Exec(s0, schedule[..m]).log.pushed|
  {
    assert schedule != [];
    var n := |schedule| - 1;
    var s, s' := Exec(s0, schedule[..n]), Exec(s0, schedule);
    assert schedule[..n + 1] == schedule;
    if s'.log.announced == s.log.announced {
      m := AnnouncedMeansRisen(s0, schedule[..n], k);
      assert schedule[..n][..m] == schedule[..m] && schedule[..n][..m + 1] == schedule[..m + 1];
    } else {
      m := n;
    }
  }

  /** No receive interrupt is lost: when every thread is idle and the receive interrupt is enabled, each byte
      from stdin that still waits in `rx_buf` was followed, after its push, by a rising edge on IRQ 4. */
  lemma NoLostInterrupt(s0: System, schedule: seq<Action>, k: nat) returns (m: nat)
    requires Initial(s0)
    requires var s := Exec(s0, schedule);
      && AllIdle(s) && RxEnabled(s.shared.device.regs.ier)
      && |s.log.popped| <= k < |s.log.pushed| && s.log.pushed[k].fromStdin
    ensures m < |schedule| && RisesAt(s0, schedule, m)
    ensures k < |Exec(s0, schedule[..m]).log.pushed|
  {
    InvHolds(s0, schedule);
    assert !Unannounced(Exec(s0, schedule), k);
    m := AnnouncedMeansRisen(s0, schedule, k);
  }

  /** `rx_buf` is a queue under every interleaving: pushes are pops followed by what is queued. */
  lemma NothingLostOrInvented(s0: System, schedule: seq<Action>)
    requires Initial(s0)
    ensures var s := Exec(s0, schedule);
      BytesOf(s.log.pushed) == s.log.popped + s.shared.device.rx
  {
    InvHolds(s0, schedule);
  }

  lemma {:induction false} RisesBetween(s0: System, schedule: seq<Action>, i: nat, j: nat) returns (m: nat)
    requires i < j <= |schedule|
    requires !Exec(s0, schedule[..i]).shared.line && Exec(s0, schedule[..j]).shared.line
    ensures i <= m < j && RisesAt(s0, schedule, m)
    decreases j - i
  {
    if Exec(s0, schedule[..j - 1]).shared.line {
      m := RisesBetween(s0, schedule, i, j - 1);
    } else {
      m := j - 1;
    }
  }

  lemma ExecNext(s0: System, schedule: seq<Action>, i: nat)
    requires i < |schedule|
    ensures Exec(s0, schedule[..i + 1]) == Step(Exec(s0, schedule[..i]), schedule[i])
  {
    assert schedule[..i + 1][..i] == schedule[..i];
  }

  /** Is action `i` the lowering (raising) ioctl of a flap of thread `t`?  `None` is the reader. */
  predicate Lowers(s0: System, schedule: seq<Action>, i: nat, t: Option<nat>)
    requires i < |schedule|
  {
    var s := Exec(s0, schedule[..i]);
    match t
    case None => schedule[i].AdvanceReader? && s.reader.ReaderLow?
    case Some(t) => schedule[i] == Advance(t) && t < |s.vcpus| && s.vcpus[t].LineLow?
  }

  predicate Raises(s0: System, schedule: seq<Action>, i: nat, t: Option<nat>)
    requires i < |schedule|
  {
    var s := Exec(s0, schedule[..i]);
    match t
    case None => schedule[i].AdvanceReader? && s.reader.ReaderHigh?
    case Some(t) => schedule[i] == Advance(t) && t < |s.vcpus| && s.vcpus[t].LineHigh?
  }

  lemma LowersLine(s0: System, schedule: seq<Action>, i: nat, t: Option<nat>)
    requires i < |schedule| && Lowers(s0, schedule, i, t)
    ensures !Exec(s0, schedule[..i + 1]).shared.line
  {
    var s := Exec(s0, schedule[..i]);
    ExecNext(s0, schedule, i);
    assert t.Some? ==> Step(s, schedule[i]) == AdvanceVcpu(s, t.value);
    assert t.None? ==> Step(s, schedule[i]) == AdvanceReaderThread(s);
  }

  lemma RaisesLine(s0: System, schedule: seq<Action>, i: nat, t: Option<nat>)
    requires i < |schedule| && Raises(s0, schedule, i, t)
    ensures Exec(s0, schedule[..i + 1]).shared.line
  {
    var s := Exec(s0, schedule[..i]);
    ExecNext(s0, schedule, i);
    assert t.Some? ==> Step(s, schedule[i]) == AdvanceVcpu(s, t.value);
    assert t.None? ==> Step(s, schedule[i]) == AdvanceReaderThread(s);
  }

  /** However flaps overlap, each one sees the line rise between its own two ioctls, the second included. */
  lemma EveryFlapRises(s0: System, schedule: seq<Action>, t: Option<nat>, i: nat, j: nat) returns (m: nat)
    requires i < j < |schedule| && Lowers(s0, schedule, i, t) && Raises(s0, schedule, j, t)
    ensures i < m <= j && RisesAt(s0, schedule, m)
  {
    LowersLine(s0, schedule, i, t);
    RaisesLine(s0, schedule, j, t);
    m := RisesBetween(s0, schedule, i + 1, j + 1);
  }

  /** Once some flap has run, an idle system leaves the line high. */
  lemma IdleLineIsHigh(s0: System, schedule: seq<Action>)
    requires Initial(s0) && AllIdle(Exec(s0, schedule)) && Exec(s0, schedule).log.flapped
    ensures Exec(s0, schedule).shared.line
  {
    InvHolds(s0, schedule);
  }

  // ----- the polling driver -----

  predicate SawDataReady(pc: Pc) {
    pc.Idle? && pc.last.Replied? && pc.last.port == PORT_LSR && pc.last.reply % 2 == 1
  }

  /** Only vCPU `driver` reads port 0x3F8, and only right after a Line Status reply with Data Ready set. */
  predicate PollsFirst(s: System, driver: nat, action: Action) {
    action.Start? && action.request == Load(PORT_THR_RBR_DLL) && action.t < |s.vcpus| && s.vcpus[action.t].Idle? ==>
      action.t == driver && SawDataReady(s.vcpus[driver])
  }

  predicate Polling(s0: System, driver: nat, schedule: seq<Action>) {
    forall m :: 0 <= m < |schedule| ==> PollsFirst(Exec(s0, schedule[..m]), driver, schedule[m])
  }

  predicate Draining(pc: Pc) {
    pc.PopQueue? || (pc.ReadAt? && pc.port == PORT_THR_RBR_DLL)
  }

  predicate PollingInv(s: System, driver: nat) {
    && s.log.rbrReplies == s.log.popped
    && (forall t :: 0 <= t < |s.vcpus| && t != driver ==> !Draining(s.vcpus[t]))
    && (driver < |s.vcpus| && (Draining(s.vcpus[driver]) || SawDataReady(s.vcpus[driver])) ==>
          s.shared.device.rx != [])
  }

  lemma PollingStep(s: System, driver: nat, action: Action)
    requires PollingInv(s, driver) && PollsFirst(s, driver, action)
    ensures PollingInv(Step(s, action), driver)
  {
  }

  /** A Data Ready bit seen by the driver stays true until the driver itself pops, so every RBR read of a
      polling driver returns the next byte in push order: a prefix of the pushes, never a made-up zero. */
  lemma {:induction false} PollingDriverReadsStream(s0: System, driver: nat, schedule: seq<Action>)
    requires Initial(s0) && Polling(s0, driver, schedule)
    ensures var s := Exec(s0, schedule);
      && PollingInv(s, driver)
      && BytesOf(s.log.pushed) == s.log.rbrReplies + s.shared.device.rx
  {
    NothingLostOrInvented(s0, schedule);
    if schedule != [] {
      var earlier := schedule[..|schedule| - 1];
      forall m | 0 <= m < |earlier| ensures PollsFirst(Exec(s0, earlier[..m]), driver, earlier[m]) {
        assert earlier[..m] == schedule[..m];
      }
      PollingDriverReadsStream(s0, driver, earlier);
      PollingStep(Exec(s0, earlier), driver, schedule[|schedule| - 1]);
    }
  }

  // ----- run alone, the steps are the register file -----

  function Rank(pc: Pc): nat {
    match pc
    case Idle(_) => 0
    case ReadAt(_) => 4
    case PopQueue => 1
    case LoadEnables => 1
    case IirTestRx(_) => 3
    case IirTestTx => 2
    case IirFifo(_) => 1
    case WriteAt(_, _) => 7
    case ThrCheckLoop(_) => 5
    case ThrPush(_) => 1
    case ThrSend(_) => 4
    case ThrCheckTx => 3
    case IerStore(_) => 6
    case IerSnapshot => 5
    case IerTestTx(_) => 4
    case IerTestRx(_) => 3
    case LineLow => 2
    case LineHigh => 1
  }

  /** One thread running to completion with nobody in between. */
  function Solo(sh: Shared, pc: Pc): (Shared, Pc)
    decreases Rank(pc)
  {
    if pc.Idle? then (sh, pc)
    else
      var (sh', pc') := ThreadStep(sh, pc);
      Solo(sh', pc')
  }

  function PerformOne(sh: Shared, effect: Effect): Shared {
    match effect
    case Stdout(b) => sh.(stdout := sh.stdout + [b])
    case IrqLine(_, level) => sh.(line := level)
  }

  /** What a sequence of effects does to the host side. */
  function Perform(sh: Shared, effects: seq<Effect>): Shared {
    if effects == [] then sh
    else PerformOne(Perform(sh, effects[..|effects| - 1]), effects[|effects| - 1])
  }

  lemma PerformMore(sh: Shared, effects: seq<Effect>, last: Effect)
    ensures Perform(sh, effects + [last]) == PerformOne(Perform(sh, effects), last)
  {
    assert (effects + [last])[..|effects|] == effects;
  }

  lemma PerformFlap(sh: Shared, effects: seq<Effect>)
    ensures Perform(sh, effects + Flap(COM1_IRQ, ALL_SUCCEED)) == Perform(sh, effects).(line := true)
  {
    var low, high := IrqLine(COM1_IRQ, false), IrqLine(COM1_IRQ, true);
    PerformMore(sh, effects, low);
    PerformMore(sh, effects + [low], high);
    assert effects + Flap(COM1_IRQ, ALL_SUCCEED) == effects + [low] + [high];
  }

  lemma PerformSend(sh: Shared, b: byte)
    ensures Perform(sh, [Stdout(b)]) == sh.(stdout := sh.stdout + [b])
  {
    PerformMore(sh, [], Stdout(b));
    assert [] + [Stdout(b)] == [Stdout(b)];
  }

  /** The steps of a read, run alone, are `COM1::Read`. */
  lemma SoloRead(sh: Shared, port: nat, data: byte)
    requires PORT_THR_RBR_DLL <= port <= PORT_SR
    ensures var o := ReadPort(sh.device, port, data);
      Solo(sh, ReadAt(port)) == (sh.(device := o.state), Reply(port, o.reply))
  {
    if port == PORT_IIR_FCR {
      SoloIir(sh);
    }
  }

  lemma SoloIir(sh: Shared)
    ensures Solo(sh, ReadAt(PORT_IIR_FCR)) ==
      (sh, Reply(PORT_IIR_FCR, IirReply(sh.device.regs.ier, sh.device.regs.fcr, sh.device.rx != [])))
  {
    var pending := sh.device.rx != [];
    assert Solo(sh, IirFifo(IIR_DATA_AVL)) == ThreadStep(sh, IirFifo(IIR_DATA_AVL));
    assert Solo(sh, IirTestTx) == Solo(sh, ThreadStep(sh, IirTestTx).1);
    assert Solo(sh, IirTestRx(pending)) == Solo(sh, ThreadStep(sh, IirTestRx(pending)).1);
  }

  lemma SoloFlap(sh: Shared)
    ensures Solo(sh, LineLow) == (sh.(line := true), DONE)
  {
    assert Solo(sh.(line := false), LineHigh) == (sh.(line := true), DONE);
  }

  lemma SoloNext(sh: Shared, pc: Pc)
    requires !pc.Idle?
    ensures var (sh', pc') := ThreadStep(sh, pc); Solo(sh, pc) == Solo(sh', pc')
  {
  }

  lemma SoloLooped(sh: Shared, data: byte)
    requires !DlabSet(sh.device.regs.lcr) && LoopSet(sh.device.regs.mcr)
    ensures Solo(sh, WriteAt(PORT_THR_RBR_DLL, data))
         == (sh.(device := sh.device.(rx := sh.device.rx + [data])), DONE)
  {
    SoloNext(sh, WriteAt(PORT_THR_RBR_DLL, data));
    SoloNext(sh, ThrCheckLoop(data));
    SoloNext(sh, ThrPush(data));
  }

  lemma SoloSent(sh: Shared, data: byte)
    requires !DlabSet(sh.device.regs.lcr) && !LoopSet(sh.device.regs.mcr)
    ensures Solo(sh, WriteAt(PORT_THR_RBR_DLL, data))
         == (sh.(stdout := sh.stdout + [data], line := sh.line || TxEnabled(sh.device.regs.ier)), DONE)
  {
    var sent := sh.(stdout := sh.stdout + [data]);
    SoloNext(sh, WriteAt(PORT_THR_RBR_DLL, data));
    SoloNext(sh, ThrCheckLoop(data));
    SoloNext(sh, ThrSend(data));
    SoloNext(sent, ThrCheckTx);
    SoloFlap(sent);
  }

  lemma SoloTransmit(sh: Shared, data: byte)
    requires !DlabSet(sh.device.regs.lcr)
    ensures var o := WritePort(sh.device, PORT_THR_RBR_DLL, data, ALL_SUCCEED);
      Solo(sh, WriteAt(PORT_THR_RBR_DLL, data)) == (Perform(sh.(device := o.state), o.effects), DONE)
  {
    if LoopSet(sh.device.regs.mcr) {
      SoloLooped(sh, data);
    } else {
      SoloSent(sh, data);
      PerformSend(sh, data);
      PerformFlap(sh, [Stdout(data)]);
    }
  }

  lemma SoloEnabled(sh: Shared, data: byte)
    requires !DlabSet(sh.device.regs.lcr)
    ensures var ier := WritableEnables(data);
      var stored := sh.(device := sh.device.(regs := sh.device.regs.(ier := ier)));
      Solo(sh, WriteAt(PORT_IER_DLH, data))
      == (if TxEnabled(ier) || (RxEnabled(ier) && sh.device.rx != []) then stored.(line := true) else stored, DONE)
  {
    var pending := sh.device.rx != [];
    var stored := sh.(device := sh.device.(regs := sh.device.regs.(ier := WritableEnables(data))));
    SoloNext(sh, WriteAt(PORT_IER_DLH, data));
    SoloNext(sh, IerStore(data));
    SoloNext(stored, IerSnapshot);
    SoloNext(stored, IerTestTx(pending));
    SoloNext(stored, IerTestRx(pending));
    SoloFlap(stored);
  }

  lemma SoloEnable(sh: Shared, data: byte)
    requires !DlabSet(sh.device.regs.lcr)
    ensures var o := WritePort(sh.device, PORT_IER_DLH, data, ALL_SUCCEED);
      Solo(sh, WriteAt(PORT_IER_DLH, data)) == (Perform(sh.(device := o.state), o.effects), DONE)
  {
    var stored := sh.(device := WritePort(sh.device, PORT_IER_DLH, data, ALL_SUCCEED).state);
    SoloEnabled(sh, data);
    PerformFlap(stored, []);
    assert [] + Flap(COM1_IRQ, ALL_SUCCEED) == Flap(COM1_IRQ, ALL_SUCCEED);
  }

  /** The steps of a write, run alone, are `COM1::Write`. */
  lemma SoloWrite(sh: Shared, port: nat, data: byte)
    requires PORT_THR_RBR_DLL <= port <= PORT_SR
    ensures var o := WritePort(sh.device, port, data, ALL_SUCCEED);
      Solo(sh, WriteAt(port, data)) == (Perform(sh.(device := o.state), o.effects), DONE)
  {
    if port == PORT_THR_RBR_DLL && !DlabSet(sh.device.regs.lcr) {
      SoloTransmit(sh, data);
    } else if port == PORT_IER_DLH && !DlabSet(sh.device.regs.lcr) {
      SoloEnable(sh, data);
    }
  }

  function Times(n: nat, action: Action): seq<Action> {
    seq(n, _ => action)
  }

  lemma ExecFront(s: System, action: Action, rest: seq<Action>)
    ensures Exec(s, [action] + rest) == Exec(Step(s, action), rest)
  {
    assert [action][..0] == [];
    ExecConcat(s, [action], rest);
  }

  /** From `s` to `s'` only vCPU `t` moved, to `pc`, and left the shared state as `sh`. */
  predicate OnlyMoved(s: System, s': System, t: nat, sh: Shared, pc: Pc)
    requires t < |s.vcpus|
  {
    s'.shared == sh && s'.vcpus == s.vcpus[t := pc] && s'.reader == s.reader
  }

  lemma MovedOn(s: System, mid: System, s': System, t: nat, sh: Shared, pc: Pc)
    requires t < |s.vcpus| == |mid.vcpus| && mid.vcpus == s.vcpus[t := mid.vcpus[t]] && mid.reader == s.reader
    requires OnlyMoved(mid, s', t, sh, pc)
    ensures OnlyMoved(s, s', t, sh, pc)
  {
    assert s.vcpus[t := mid.vcpus[t]][t := pc] == s.vcpus[t := pc];
  }

  lemma TimesFront(n: nat, action: Action)
    requires n > 0
    ensures Times(n, action) == [action] + Times(n - 1, action)
  {
  }

  lemma AdvanceFront(s: System, t: nat, n: nat)
    requires t < |s.vcpus| && n > 0
    ensures Exec(s, Times(n, Advance(t))) == Exec(AdvanceVcpu(s, t), Times(n - 1, Advance(t)))
  {
    TimesFront(n, Advance(t));
    ExecFront(s, Advance(t), Times(n - 1, Advance(t)));
  }

  /** In the system, too: if only vCPU `t` is scheduled, its access has the effect of `Solo`. */
  lemma {:induction false} SoloInSystem(s: System, t: nat, n: nat)
    requires t < |s.vcpus| && Rank(s.vcpus[t]) <= n
    ensures var end := Solo(s.shared, s.vcpus[t]);
      OnlyMoved(s, Exec(s, Times(n, Advance(t))), t, end.0, end.1)
    decreases n
  {
    var end := Solo(s.shared, s.vcpus[t]);
    if n == 0 {
      assert Times(0, Advance(t)) == [] && s.vcpus[t := s.vcpus[t]] == s.vcpus;
    } else {
      var next := AdvanceVcpu(s, t);
      SoloStep(s, t);
      SoloInSystem(next, t, n - 1);
      AdvanceFront(s, t, n);
      MovedOn(s, next, Exec(next, Times(n - 1, Advance(t))), t, end.0, end.1);
    }
  }

  lemma SoloStep(s: System, t: nat)
    requires t < |s.vcpus|
    ensures var next := AdvanceVcpu(s, t);
      && Solo(next.shared, next.vcpus[t]) == Solo(s.shared, s.vcpus[t])
      && next.reader == s.reader && next.vcpus == s.vcpus[t := next.vcpus[t]]
      && (Rank(s.vcpus[t]) > 0 ==> Rank(next.vcpus[t]) < Rank(s.vcpus[t]))
      && (Rank(s.vcpus[t]) == 0 ==> next.vcpus[t] == s.vcpus[t])
  {
  }

  lemma ExecMore(s: System, schedule: seq<Action>, action: Action)
    ensures Exec(s, schedule + [action]) == Step(Exec(s, schedule), action)
  {
    assert (schedule + [action])[..|schedule|] == schedule;
  }

  lemma {:induction false} ExecConcat(s: System, first: seq<Action>, second: seq<Action>)
    ensures Exec(s, first + second) == Exec(Exec(s, first), second)
  {
    if second == [] {
      assert first + second == first;
    } else {
      var init, last := second[..|second| - 1], second[|second| - 1];
      ExecConcat(s, first, init);
      ExecMore(s, first + init, last);
      ExecMore(Exec(s, first), init, last);
      assert init + [last] == second && first + second == (first + init) + [last];
    }
  }

  lemma StartThenSolo(s: System, t: nat, request: Request, n: nat)
    requires t < |s.vcpus| && s.vcpus[t].Idle? && Rank(Begin(request)) <= n
    ensures var end := Solo(s.shared, Begin(request));
      OnlyMoved(s, Exec(s, [Start(t, request)] + Times(n, Advance(t))), t, end.0, end.1)
  {
    var begun, end := s.(vcpus := s.vcpus[t := Begin(request)]), Solo(s.shared, Begin(request));
    ExecFront(s, Start(t, request), Times(n, Advance(t)));
    SoloInSystem(begun, t, n);
    MovedOn(s, begun, Exec(begun, Times(n, Advance(t))), t, end.0, end.1);
  }

  /** One whole write by vCPU `t`, nobody else scheduled. */
  lemma WriteAlone(s: System, t: nat, port: nat, data: byte) returns (schedule: seq<Action>)
    requires t < |s.vcpus| && s.vcpus[t].Idle? && PORT_THR_RBR_DLL <= port <= PORT_SR
    ensures var o := WritePort(s.shared.device, port, data, ALL_SUCCEED);
      OnlyMoved(s, Exec(s, schedule), t, Perform(s.shared.(device := o.state), o.effects), DONE)
  {
    schedule := [Start(t, Store(port, data))] + Times(7, Advance(t));
    StartThenSolo(s, t, Store(port, data), 7);
    SoloWrite(s.shared, port, data);
  }

  /** The same, for a write that only touches the device. */
  lemma QuietWriteAlone(s: System, t: nat, port: nat, data: byte) returns (schedule: seq<Action>)
    requires t < |s.vcpus| && s.vcpus[t].Idle? && PORT_THR_RBR_DLL <= port <= PORT_SR
    requires WritePort(s.shared.device, port, data, ALL_SUCCEED).effects == []
    ensures var s' := Exec(s, schedule);
      && s'.shared == s.shared.(device := WritePort(s.shared.device, port, data, ALL_SUCCEED).state)
      && s'.vcpus == s.vcpus[t := DONE] && s'.reader == s.reader
  {
    schedule := WriteAlone(s, t, port, data);
  }

  /** The no-lost-interrupt law is about stdin for a reason: a looped-back byte is queued without a flap, so
      with the receive interrupt enabled a system can come to rest with the byte waiting and no flap ever made. */
  lemma LoopbackIsSilent(s0: System, t: nat, c: byte) returns (schedule: seq<Action>)
    requires Initial(s0) && t < |s0.vcpus| && !s0.shared.line && !DlabSet(s0.shared.device.regs.lcr)
    ensures var s := Exec(s0, schedule);
      && AllIdle(s) && RxEnabled(s.shared.device.regs.ier) && s.shared.device.rx == [c]
      && !s.shared.line && !s.log.flapped
  {
    var enable := QuietWriteAlone(s0, t, PORT_IER_DLH, 0x01);
    var s1 := Exec(s0, enable);
    assert s1.shared.device.regs == s0.shared.device.regs.(ier := 0x01);
    var loop := QuietWriteAlone(s1, t, PORT_MCR, 0x10);
    var s2 := Exec(s1, loop);
    assert s2.shared.device.regs == s1.shared.device.regs.(mcr := 0x10);
    var send := QuietWriteAlone(s2, t, PORT_THR_RBR_DLL, c);
    schedule := enable + loop + send;
    ExecConcat(s0, enable, loop);
    ExecConcat(s0, enable + loop, send);
    InvHolds(s0, schedule);
  }
}
