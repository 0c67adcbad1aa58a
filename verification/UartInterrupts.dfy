/** What announces what: exactly when a queued byte is followed by an interrupt, and the transmitter's side.

`NoLostInterrupt` says that stdin bytes are always announced.  Here the answer is exact for every byte, looped
ones included, and the THR-empty interrupt gets its own law.
*/
module UartInterrupts {
  import opened Bytes
  import Uart
  import opened UartThreads

  // ----- falls and rises of the line -----

  predicate Raising(s: System, t: Option<nat>) {
    match t
    case None => s.reader.ReaderHigh?
    case Some(t) => t < |s.vcpus| && s.vcpus[t].LineHigh?
  }

  /** A thread that is about to raise the line has lowered it. */
  ghost predicate RaisersFlapped(s: System) {
    forall t :: Raising(s, t) ==> s.log.flapped
  }

  lemma RaisersFlappedStep(s: System, action: Action)
    requires RaisersFlapped(s)
    ensures RaisersFlapped(Step(s, action))
  {
    var s' := Step(s, action);
    forall t | Raising(s', t) ensures s'.log.flapped {
      assert Raising(s, t) ==> s.log.flapped;
    }
  }

  lemma {:induction false} RaisersFlappedAlways(s0: System, schedule: seq<Action>)
    requires Initial(s0)
    ensures RaisersFlapped(Exec(s0, schedule))
  {
    if schedule != [] {
      RaisersFlappedAlways(s0, schedule[..|schedule| - 1]);
      RaisersFlappedStep(Exec(s0, schedule[..|schedule| - 1]), schedule[|schedule| - 1]);
    }
  }

  /** Who is about to take the step that changes the line. */
  function Mover(action: Action): Option<nat> {
    if action.Advance? then Some(action.t) else None
  }

  lemma RiseIsRaising(s: System, action: Action)
    requires !s.shared.line && Step(s, action).shared.line
    ensures Raising(s, Mover(action))
  {
  }

  predicate LineFell(before: System, after: System) {
    (before.shared.line && !after.shared.line) || (!before.log.flapped && after.log.flapped)
  }

  predicate Lowering(s: System, t: Option<nat>) {
    match t
    case None => s.reader.ReaderLow?
    case Some(t) => t < |s.vcpus| && s.vcpus[t].LineLow?
  }

  lemma FallStep(s: System, action: Action)
    requires LineFell(s, Step(s, action))
    ensures (action.Advance? || action.AdvanceReader?) && Lowering(s, Mover(action))
  {
  }

  lemma FallIsLowering(s0: System, schedule: seq<Action>, i: nat)
    requires i < |schedule| && LineFell(Exec(s0, schedule[..i]), Exec(s0, schedule[..i + 1]))
    ensures Lowers(s0, schedule, i, Mover(schedule[i]))
  {
    ExecNext(s0, schedule, i);
    FallStep(Exec(s0, schedule[..i]), schedule[i]);
  }

  ghost predicate LowersFrom(s0: System, schedule: seq<Action>, p: nat) {
    exists i: nat, t: Option<nat> :: p <= i < |schedule| && Lowers(s0, schedule, i, t)
  }

  ghost predicate RisesFrom(s0: System, schedule: seq<Action>, p: nat) {
    exists m: nat :: p <= m < |schedule| && RisesAt(s0, schedule, m)
  }

  /** Between a high line and a low one, or no flap yet and some flap, some thread lowers the line. */
  lemma {:induction false} LowersBetween(s0: System, schedule: seq<Action>, i: nat, j: nat)
    requires i <= j <= |schedule| && LineFell(Exec(s0, schedule[..i]), Exec(s0, schedule[..j]))
    ensures LowersFrom(s0, schedule, i)
    decreases j - i
  {
    if LineFell(Exec(s0, schedule[..i]), Exec(s0, schedule[..j - 1])) {
      LowersBetween(s0, schedule, i, j - 1);
    } else {
      FallIsLowering(s0, schedule, j - 1);
    }
  }

  predicate Grew(before: System, after: System) {
    (before.log.flapped ==> after.log.flapped) && |before.log.pushed| <= |after.log.pushed|
  }

  lemma GrewStep(s: System, action: Action)
    ensures Grew(s, Step(s, action))
  {
  }

  lemma {:induction false} HistoryGrows(s0: System, schedule: seq<Action>, i: nat, j: nat)
    requires i <= j <= |schedule|
    ensures Grew(Exec(s0, schedule[..i]), Exec(s0, schedule[..j]))
    decreases j - i
  {
    if i < j {
      HistoryGrows(s0, schedule, i, j - 1);
      ExecNext(s0, schedule, j - 1);
      GrewStep(Exec(s0, schedule[..j - 1]), schedule[j - 1]);
    }
  }

  /** Some flap is between its two ioctls, so the line is low and bound to rise. */
  predicate RiseDue(s: System) {
    s.log.flapped && !s.shared.line
  }

  lemma RiseDueIff(s0: System, schedule: seq<Action>)
    requires Initial(s0)
    ensures var s := Exec(s0, schedule); RiseDue(s) <==> !s.shared.line && exists t :: Raising(s, t)
  {
    var s := Exec(s0, schedule);
    RaisersFlappedAlways(s0, schedule);
    InvHolds(s0, schedule);
    if RiseDue(s) {
      if s.reader.ReaderHigh? {
        assert Raising(s, None);
      } else {
        var t :| 0 <= t < |s.vcpus| && s.vcpus[t].LineHigh?;
        assert Raising(s, Some(t));
      }
    }
  }

  lemma LowersMakesDue(s0: System, schedule: seq<Action>, i: nat, t: Option<nat>)
    requires i < |schedule| && Lowers(s0, schedule, i, t)
    ensures RiseDue(Exec(s0, schedule[..i + 1]))
  {
    ExecNext(s0, schedule, i);
    LowersLine(s0, schedule, i, t);
  }

  lemma DueRises(s0: System, schedule: seq<Action>, p: nat)
    requires Initial(s0) && AllIdle(Exec(s0, schedule)) && p <= |schedule|
    requires RiseDue(Exec(s0, schedule[..p]))
    ensures RisesFrom(s0, schedule, p)
  {
    assert schedule[..|schedule|] == schedule;
    HistoryGrows(s0, schedule, p, |schedule|);
    IdleLineIsHigh(s0, schedule);
    var m := RisesBetween(s0, schedule, p, |schedule|);
  }

  /** In a run that ends idle, the line rises from some point on if and only if some flap still has its lowering
      ioctl to make there, or is between its two ioctls. */
  lemma RisesFromIff(s0: System, schedule: seq<Action>, p: nat)
    requires Initial(s0) && AllIdle(Exec(s0, schedule)) && p <= |schedule|
    ensures RisesFrom(s0, schedule, p) <==> LowersFrom(s0, schedule, p) || RiseDue(Exec(s0, schedule[..p]))
  {
    if LowersFrom(s0, schedule, p) {
      var i: nat, t: Option<nat> :| p <= i < |schedule| && Lowers(s0, schedule, i, t);
      LowersMakesDue(s0, schedule, i, t);
      DueRises(s0, schedule, i + 1);
    }
    if RiseDue(Exec(s0, schedule[..p])) {
      DueRises(s0, schedule, p);
    } else if RisesFrom(s0, schedule, p) {
      var m: nat :| p <= m < |schedule| && RisesAt(s0, schedule, m);
      RaisersFlappedAlways(s0, schedule[..m]);
      ExecNext(s0, schedule, m);
      RiseIsRaising(Exec(s0, schedule[..m]), schedule[m]);
      LowersBetween(s0, schedule, p, m);
    }
  }

  // ----- every queued byte -----

  /** Action `p` pushes byte number `k`. */
  predicate PushesAt(s0: System, schedule: seq<Action>, p: nat, k: nat)
    requires p < |schedule|
  {
    PushCount(s0, schedule, p) == k && PushCount(s0, schedule, p + 1) == k + 1
  }

  /** How many bytes the first `i` actions push. */
  function PushCount(s0: System, schedule: seq<Action>, i: nat): nat
    requires i <= |schedule|
  {
    |Exec(s0, schedule[..i]).log.pushed|
  }

  lemma PushCountNext(s0: System, schedule: seq<Action>, i: nat)
    requires i < |schedule|
    ensures PushCount(s0, schedule, i + 1) <= PushCount(s0, schedule, i) + 1
  {
    ExecNext(s0, schedule, i);
  }

  /** The line rises after byte `k` was pushed. */
  ghost predicate Announced(s0: System, schedule: seq<Action>, k: nat) {
    exists m: nat :: m < |schedule| && RisesAt(s0, schedule, m) && k < |Exec(s0, schedule[..m]).log.pushed|
  }

  lemma NoneAtStart(s0: System, schedule: seq<Action>)
    ensures PushCount(s0, schedule, 0) == |s0.log.pushed|
  {
    assert schedule[..0] == [];
  }

  lemma {:induction false} PushPoint(s0: System, schedule: seq<Action>, k: nat, j: nat) returns (p: nat)
    requires s0.log.pushed == [] && j <= |schedule| && k < PushCount(s0, schedule, j)
    ensures p < j && PushesAt(s0, schedule, p, k)
    decreases j
  {
    NoneAtStart(s0, schedule);
    p := j - 1;
    if k < PushCount(s0, schedule, p) {
      p := PushPoint(s0, schedule, k, p);
    } else {
      PushCountNext(s0, schedule, p);
    }
  }

  /** Exactly when a byte is announced, from stdin or looped back, popped or still queued: in a run that ends idle,
      if and only if at the point just after its push some flap still has its lowering ioctl to make or is between
      its two ioctls. */
  lemma AnnouncedIff(s0: System, schedule: seq<Action>, k: nat) returns (p: nat)
    requires Initial(s0) && AllIdle(Exec(s0, schedule)) && k < |Exec(s0, schedule).log.pushed|
    ensures p < |schedule| && PushesAt(s0, schedule, p, k)
    ensures Announced(s0, schedule, k)
       <==> LowersFrom(s0, schedule, p + 1) || RiseDue(Exec(s0, schedule[..p + 1]))
  {
    assert schedule[..|schedule|] == schedule;
    p := PushPoint(s0, schedule, k, |schedule|);
    RisesFromIff(s0, schedule, p + 1);
    if Announced(s0, schedule, k) {
      var m: nat :| m < |schedule| && RisesAt(s0, schedule, m) && k < |Exec(s0, schedule[..m]).log.pushed|;
      if m <= p {
        HistoryGrows(s0, schedule, m, p);
      }
    }
    if RisesFrom(s0, schedule, p + 1) {
      var m: nat :| p + 1 <= m < |schedule| && RisesAt(s0, schedule, m);
      HistoryGrows(s0, schedule, p + 1, m);
    }
  }

  // ----- guests that never loop back -----

  /** The loopback branch of a THR write: the test meets MCR with the loop bit set. */
  predicate TakesLoop(s: System, action: Action) {
    action.Advance? && action.t < |s.vcpus| && s.vcpus[action.t].ThrCheckLoop? && Uart.LoopSet(s.shared.device.regs.mcr)
  }

  predicate NeverLoops(s0: System, schedule: seq<Action>) {
    forall i :: 0 <= i < |schedule| ==> !TakesLoop(Exec(s0, schedule[..i]), schedule[i])
  }

  predicate OnlyStdin(s: System) {
    && (forall t :: 0 <= t < |s.vcpus| ==> !s.vcpus[t].ThrPush?)
    && (forall k :: 0 <= k < |s.log.pushed| ==> s.log.pushed[k].fromStdin)
  }

  lemma OnlyStdinStep(s: System, action: Action)
    requires OnlyStdin(s) && !TakesLoop(s, action)
    ensures OnlyStdin(Step(s, action))
  {
  }

  lemma {:induction false} OnlyStdinAlways(s0: System, schedule: seq<Action>)
    requires Initial(s0) && NeverLoops(s0, schedule)
    ensures OnlyStdin(Exec(s0, schedule))
  {
    if schedule != [] {
      var n := |schedule| - 1;
      forall i | 0 <= i < n ensures !TakesLoop(Exec(s0, schedule[..n][..i]), schedule[..n][i]) {
        assert schedule[..n][..i] == schedule[..i];
      }
      OnlyStdinAlways(s0, schedule[..n]);
      OnlyStdinStep(Exec(s0, schedule[..n]), schedule[n]);
    }
  }

  /** While no THR write meets the loop bit, no byte at all is lost: at rest with the receive interrupt enabled, every
      queued byte was followed by a rising edge. */
  lemma NoLossWithoutLoopback(s0: System, schedule: seq<Action>, k: nat)
    requires Initial(s0) && NeverLoops(s0, schedule)
    requires var s := Exec(s0, schedule);
      AllIdle(s) && Uart.RxEnabled(s.shared.device.regs.ier) && |s.log.popped| <= k < |s.log.pushed|
    ensures Announced(s0, schedule, k)
  {
    OnlyStdinAlways(s0, schedule);
    var m := NoLostInterrupt(s0, schedule, k);
  }

  // ----- the transmitter -----

  predicate TxInRange(s: System) {
    var tx := s.log.tx;
    && |tx.marks| == |s.vcpus| && tx.announced <= |tx.sent|
    && forall t :: 0 <= t < |tx.marks| ==> tx.marks[t] <= |tx.sent|
  }

  /** A vCPU between its two ioctls: the line is low, or has risen since. */
  predicate TxFlapsHold(s: System) {
    forall t :: 0 <= t < |s.vcpus| && t < |s.log.tx.marks| && s.vcpus[t].LineHigh? ==>
      !s.shared.line || s.log.tx.marks[t] <= s.log.tx.announced
  }

  predicate TxOwing(pc: Pc) {
    pc.ThrCheckTx? || pc.IerSnapshot? || pc.IerTestTx? || pc.LineLow? || pc.LineHigh?
  }

  /** vCPU `t` sent byte `k` or stored IER after it was sent, and is on its way to a flap. */
  predicate TxOwes(s: System, t: nat, k: nat) {
    t < |s.vcpus| && t < |s.log.tx.marks| && k < s.log.tx.marks[t] && TxOwing(s.vcpus[t])
  }

  predicate TxUnannounced(s: System, k: nat) {
    s.log.tx.announced <= k < |s.log.tx.sent|
  }

  ghost predicate TxAccounted(s: System, k: nat) {
    !Uart.TxEnabled(s.shared.device.regs.ier) || exists t: nat :: TxOwes(s, t, k)
  }

  ghost predicate TxInv(s: System) {
    TxInRange(s) && TxFlapsHold(s) && forall k: nat :: TxUnannounced(s, k) ==> TxAccounted(s, k)
  }

  lemma TxBoundsStep(s: System, action: Action)
    requires TxInRange(s) && TxFlapsHold(s)
    ensures TxInRange(Step(s, action)) && TxFlapsHold(Step(s, action))
  {
  }

  /** The debt for byte `k` outlives any step of a vCPU, or passes to the one that moved. */
  lemma TxVcpuKeepsAccount(s: System, t: nat, k: nat)
    requires TxInv(s) && t < |s.vcpus| && TxUnannounced(AdvanceVcpu(s, t), k)
    ensures TxAccounted(AdvanceVcpu(s, t), k)
  {
    var s', pc := AdvanceVcpu(s, t), s.vcpus[t];
    if pc.ThrSend? || pc.IerStore? {
      if k < |s.log.tx.sent| || pc.ThrSend? {
        assert TxOwes(s', t, k);
      }
    } else if Uart.TxEnabled(s'.shared.device.regs.ier) {
      assert TxUnannounced(s, k);
      var u: nat :| TxOwes(s, u, k);
      assert TxOwes(s', u, k);
    }
  }

  lemma TxOtherKeepsAccount(s: System, action: Action, k: nat)
    requires TxInv(s) && !(action.Advance? && action.t < |s.vcpus|) && TxUnannounced(Step(s, action), k)
    ensures TxAccounted(Step(s, action), k)
  {
    var s' := Step(s, action);
    assert TxUnannounced(s, k);
    if Uart.TxEnabled(s'.shared.device.regs.ier) {
      var u: nat :| TxOwes(s, u, k);
      assert TxOwes(s', u, k);
    }
  }

  lemma {:induction false} TxInvHolds(s0: System, schedule: seq<Action>)
    requires Initial(s0)
    ensures TxInv(Exec(s0, schedule))
  {
    if schedule != [] {
      var s, action := Exec(s0, schedule[..|schedule| - 1]), schedule[|schedule| - 1];
      TxInvHolds(s0, schedule[..|schedule| - 1]);
      TxBoundsStep(s, action);
      forall k: nat | TxUnannounced(Step(s, action), k) ensures TxAccounted(Step(s, action), k) {
        if action.Advance? && action.t < |s.vcpus| {
          TxVcpuKeepsAccount(s, action.t, k);
        } else {
          TxOtherKeepsAccount(s, action, k);
        }
      }
    }
  }

  lemma TxAnnouncedStep(s: System, action: Action)
    ensures var s' := Step(s, action);
      s'.log.tx.announced != s.log.tx.announced ==>
        !s.shared.line && s'.shared.line && s'.log.tx.announced == |s.log.tx.sent|
  {
  }

  lemma RisesEarlier(s0: System, schedule: seq<Action>, n: nat, m: nat)
    requires m < n <= |schedule| && RisesAt(s0, schedule[..n], m)
    ensures RisesAt(s0, schedule, m) && Exec(s0, schedule[..n][..m]) == Exec(s0, schedule[..m])
  {
    assert schedule[..n][..m] == schedule[..m] && schedule[..n][..m + 1] == schedule[..m + 1];
  }

  lemma {:induction false} TxAnnouncedMeansRisen(s0: System, schedule: seq<Action>, k: nat) returns (m: nat)
    requires Initial(s0) && k < Exec(s0, schedule).log.tx.announced
    ensures m < |schedule| && RisesAt(s0, schedule, m)
    ensures k < |Exec(s0, schedule[..m]).log.tx.sent|
  {
    var n := |schedule| - 1;
    TxAnnouncedStep(Exec(s0, schedule[..n]), schedule[n]);
    if k < Exec(s0, schedule[..n]).log.tx.announced {
      m := TxAnnouncedMeansRisen(s0, schedule[..n], k);
      RisesEarlier(s0, schedule, n, m);
    } else {
      m := n;
      assert schedule[..n + 1] == schedule;
    }
  }

  /** No transmit interrupt is lost: when every thread is idle and the THR-empty interrupt is enabled, each byte sent
      to stdout was followed, after it was sent, by a rising edge on IRQ 4, so the guest is told to go on. */
  lemma NoLostTransmitInterrupt(s0: System, schedule: seq<Action>, k: nat) returns (m: nat)
    requires Initial(s0)
    requires var s := Exec(s0, schedule);
      AllIdle(s) && Uart.TxEnabled(s.shared.device.regs.ier) && k < |s.log.tx.sent|
    ensures m < |schedule| && RisesAt(s0, schedule, m)
    ensures k < |Exec(s0, schedule[..m]).log.tx.sent|
  {
    TxInvHolds(s0, schedule);
    assert !TxUnannounced(Exec(s0, schedule), k);
    m := TxAnnouncedMeansRisen(s0, schedule, k);
  }

  lemma StdoutStep(s: System, action: Action, before: seq<byte>)
    requires s.shared.stdout == before + s.log.tx.sent
    ensures Step(s, action).shared.stdout == before + Step(s, action).log.tx.sent
  {
    if action.Advance? && action.t < |s.vcpus| && s.vcpus[action.t].ThrSend? {
      var data := s.vcpus[action.t].data;
      assert before + (s.log.tx.sent + [data]) == (before + s.log.tx.sent) + [data];
    }
  }

  /** Under every interleaving stdout grows by exactly the bytes sent, in the order of the sends. */
  lemma {:induction false} StdoutIsSent(s0: System, schedule: seq<Action>)
    requires Initial(s0)
    ensures var s := Exec(s0, schedule); s.shared.stdout == s0.shared.stdout + s.log.tx.sent
  {
    if schedule != [] {
      var n := |schedule| - 1;
      StdoutIsSent(s0, schedule[..n]);
      StdoutStep(Exec(s0, schedule[..n]), schedule[n], s0.shared.stdout);
    }
  }
}
