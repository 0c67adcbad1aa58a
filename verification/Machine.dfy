/** VM exits, dispatched: `Vcpu::RunOnce` and `RunLoop` over the port table and the devices behind it.

A `Record` is what a run leaves behind: the devices, every handler call made and what it
returned.  The isolation theorem reads each device's whole behaviour off its own calls.
*/
module Machine {
  import opened Bytes
  import Cmos
  import Pio
  import Uart

  datatype Devices = Devices(cmos: Cmos.State, com1: Uart.State) {
    predicate Valid() { cmos.Valid() }
  }

  /** What the host contributes to one call: the time of day and the results of its system calls. */
  datatype Env = Env(now: Cmos.Time, host: Uart.HostReply)

  datatype Call =
    | Access(port: nat, direction: Pio.Direction, size: nat, buffer: byte, env: Env)
    | StdinByte(c: byte, host: Uart.HostReply)

  datatype Outcome = Outcome(devices: Devices, reply: byte, effects: seq<Uart.Effect>, code: int)

  /** One call of the handler that the port map gives, or one byte taken by the reader thread. */
  function Perform(d: Devices, call: Call): (o: Outcome)
    requires d.Valid()
    ensures o.devices.Valid()
  {
    match call
    case StdinByte(c, host) =>
      var o := Uart.ReceiveByte(d.com1, c, host);
      Outcome(d.(com1 := o.state), c, o.effects, 0)
    case Access(port, direction, size, buffer, env) =>
      match Pio.PortMap(port, direction)
      case Unexpected => Outcome(d, buffer, [], 1)
      case Nothing => Outcome(d, buffer, [], 0)
      case ResetGenerator => Outcome(d, buffer, [], 1)
      case DeviceRead(Post) => Outcome(d, buffer, [], 0)
      case DeviceWrite(Post) => Outcome(d, buffer, [], 0)
      case DeviceRead(CmosDevice) =>
        var o := Cmos.ReadPort(d.cmos, port, buffer, size, env.now);
        Outcome(d.(cmos := o.state), o.reply, [], o.code)
      case DeviceWrite(CmosDevice) =>
        var o := Cmos.WritePort(d.cmos, port, buffer, size);
        Outcome(d.(cmos := o.state), buffer, [], o.code)
      case DeviceRead(Com1Device) =>
        var o := Uart.ReadPort(d.com1, port, buffer);
        Outcome(d.(com1 := o.state), o.reply, [], o.code)
      case DeviceWrite(Com1Device) =>
        var o := Uart.WritePort(d.com1, port, buffer, env.host);
        Outcome(d.(com1 := o.state), buffer, o.effects, o.code)
  }

  datatype Record = Record(
    devices: Devices, calls: seq<Call>, outcomes: seq<Outcome>, effects: seq<Uart.Effect>, buffer: byte,
    running: bool) {

    predicate Valid() { devices.Valid() }

    /** The record after one more call. */
    function Then(call: Call): (r: Record)
      requires Valid()
      ensures r.Valid()
    {
      var o := Perform(devices, call);
      Record(o.devices, calls + [call], outcomes + [o], effects + o.effects, o.reply, o.code == 0)
    }
  }

  /** `KVM_RUN` came back: an I/O exit, one `Env` for each of its `count` repetitions, or another reason. */
  datatype Exit =
    | Io(port: nat, direction: Pio.Direction, size: nat, buffer: byte, envs: seq<Env>)
    | ExitUnknown
    | ExitIntr
    | ExitDebug
    | ExitHlt
    | ExitMmio
    | ExitOther

  /** The repetitions of an I/O exit: the same buffer each time, until a handler objects. */
  function Repeat(r: Record, port: nat, direction: Pio.Direction, size: nat, envs: seq<Env>): (r': Record)
    requires r.Valid()
    ensures r'.Valid()
    decreases |envs|
  {
    if envs == [] || !r.running then r
    else Repeat(r.Then(Access(port, direction, size, r.buffer, envs[0])), port, direction, size, envs[1..])
  }

  function RunExit(r: Record, exit: Exit): (r': Record)
    requires r.Valid() && r.running
    ensures r'.Valid()
  {
    match exit
    case Io(port, direction, size, buffer, envs) => Repeat(r.(buffer := buffer), port, direction, size, envs)
    case ExitUnknown => r
    case ExitIntr => r
    case _ => r.(running := false)
  }

  // ----- the vCPU, in place -----

  class Vcpu {
    const table: Pio.Table
    const cmos: Cmos.CMOS
    const com1: Uart.COM1

    function Contents(): Devices
      reads cmos, cmos.data, com1
    {
      Devices(cmos.Contents(), com1.Contents())
    }

    ghost predicate Valid()
      reads table, cmos, cmos.data
    {
      && cmos.Valid()
      && Pio.Shaped(table)
      && forall port, d :: 0 <= port < Pio.PIO_PORT_NUM ==> table[port, Pio.Column(d)] == Pio.PortMap(port, d)
    }

    /** `initMachine`: the devices in their order, then `initPIOHandler`. */
    constructor (cmosIndex: byte)
      requires cmosIndex < Cmos.MEM_SIZE
      ensures Valid() && fresh(table) && fresh(cmos) && fresh(cmos.data) && fresh(com1) && fresh(com1.vm)
      ensures Contents() == Devices(Cmos.State(cmosIndex, Zeros(Cmos.MEM_SIZE)), Uart.PowerOn())
      ensures com1.vm.effects == []
    {
      var t := new Pio.Handler[Pio.PIO_PORT_NUM, 2]((_, _) => Pio.Nothing);
      var devices := [Pio.Post, Pio.CmosDevice, Pio.Com1Device];
      Pio.InitTable(t, devices);
      forall port, d | 0 <= port < Pio.PIO_PORT_NUM ensures t[port, Pio.Column(d)] == Pio.PortMap(port, d) {
        Pio.PortMapHolds(devices, port, d);
      }
      table := t;
      cmos := new Cmos.CMOS(cmosIndex);
      var vm := new Uart.Vm();
      com1 := new Uart.COM1(vm);
    }

    method CallHandler(port: nat, direction: Pio.Direction, size: nat, buffer: byte, env: Env)
      returns (code: int, reply: byte)
      requires Valid() && port < Pio.PIO_PORT_NUM
      modifies cmos, cmos.data, com1, com1.vm
      ensures Valid()
      ensures var o := Perform(old(Contents()), Access(port, direction, size, buffer, env));
        && Contents() == o.devices && reply == o.reply && code == o.code
        && com1.vm.effects == old(com1.vm.effects) + o.effects
    {
      reply := buffer;
      match table[port, Pio.Column(direction)] {
        case Unexpected => code := 1;
        case Nothing => code := 0;
        case ResetGenerator => code := 1;
        case DeviceRead(device) =>
          match device {
            case Post => code := 0;
            case CmosDevice => code, reply := cmos.Read(port, buffer, size, env.now);
            case Com1Device => code, reply := com1.Read(port, buffer);
          }
        case DeviceWrite(device) =>
          match device {
            case Post => code := 0;
            case CmosDevice => code := cmos.Write(port, buffer, size);
            case Com1Device => code := com1.Write(port, buffer, env.host);
          }
      }
    }

    /** 0 to go on, 1 to stop; `ghost r` is the record so far. */
    method RunOnce(exit: Exit, ghost r: Record) returns (code: int, buffer: byte)
      requires Valid() && r.Valid() && r.running && r.devices == Contents() && r.effects == com1.vm.effects
      requires exit.Io? ==> exit.port < Pio.PIO_PORT_NUM
      modifies cmos, cmos.data, com1, com1.vm
      ensures Valid()
      ensures var r' := RunExit(r, exit);
        && r'.devices == Contents() && r'.effects == com1.vm.effects
        && (code == 0 <==> r'.running) && (exit.Io? ==> buffer == r'.buffer)
    {
      buffer := 0;
      match exit {
        case Io(port, direction, size, data, envs) =>
          buffer := data;
          ghost var now := r.(buffer := data);
          for i := 0 to |envs|
            invariant Valid() && now.Valid() && now.running
            invariant now.devices == Contents() && now.effects == com1.vm.effects && now.buffer == buffer
            invariant Repeat(now, port, direction, size, envs[i..]) == RunExit(r, exit)
          {
            var c;
            c, buffer := CallHandler(port, direction, size, buffer, envs[i]);
            assert envs[i..][1..] == envs[i + 1..];
            now := now.Then(Access(port, direction, size, now.buffer, envs[i]));
            if c != 0 {
              return 1, buffer;
            }
          }
          code := 0;
        case ExitUnknown => code := 0;
        case ExitIntr => code := 0;
        case _ => code := 1;
      }
    }

    /** `while (true) { if (RunOnce()) ... }` over the exits that come. */
    method RunLoop(exits: seq<Exit>, ghost r: Record) returns (taken: nat)
      requires Valid() && r.Valid() && r.running && r.devices == Contents() && r.effects == com1.vm.effects
      requires forall e :: e in exits && e.Io? ==> e.port < Pio.PIO_PORT_NUM
      modifies cmos, cmos.data, com1, com1.vm
      ensures Valid() && taken <= |exits|
      ensures var r' := Run(r, Guests(exits));
        && r'.devices == Contents() && r'.effects == com1.vm.effects
        && (taken < |exits| <==> !r'.running)
      ensures Run(r, Guests(exits[..taken])).running
      ensures taken < |exits| ==> !Run(r, Guests(exits[..taken + 1])).running
    {
      ghost var now := r;
      taken := 0;
      assert Guests(exits[..0]) == [];
      while taken < |exits|
        invariant taken <= |exits| && Valid() && now.Valid() && now.running
        invariant now.devices == Contents() && now.effects == com1.vm.effects
        invariant Run(now, Guests(exits)[taken..]) == Run(r, Guests(exits))
        invariant Run(r, Guests(exits[..taken])) == now
      {
        assert exits[taken] in exits;
        var code, _ := RunOnce(exits[taken], now);
        assert Guests(exits)[taken..][1..] == Guests(exits)[taken + 1..];
        RunOneMore(r, exits, taken);
        now := RunExit(now, exits[taken]);
        if code != 0 {
          return;
        }
        taken := taken + 1;
      }
    }
  }

  // ----- whole runs -----

  datatype Event = Guest(exit: Exit) | Stdin(c: byte, host: Uart.HostReply)

  function Guests(exits: seq<Exit>): (events: seq<Event>)
    ensures |events| == |exits| && forall i :: 0 <= i < |exits| ==> events[i] == Guest(exits[i])
  {
    seq(|exits|, i requires 0 <= i < |exits| => Guest(exits[i]))
  }

  function RunEvent(r: Record, event: Event): (r': Record)
    requires r.Valid() && r.running
    ensures r'.Valid()
  {
    match event
    case Guest(exit) => RunExit(r, exit)
    case Stdin(c, host) => r.Then(StdinByte(c, host))
  }

  /** Events in order until the machine stops. */
  function Run(r: Record, events: seq<Event>): (r': Record)
    requires r.Valid()
    ensures r'.Valid()
    decreases |events|
  {
    if events == [] || !r.running then r else Run(RunEvent(r, events[0]), events[1..])
  }

  lemma {:induction false} RunOneMoreEvent(r: Record, events: seq<Event>, event: Event)
    requires r.Valid()
    ensures var before := Run(r, events);
      Run(r, events + [event]) == if before.running then RunEvent(before, event) else before
    decreases |events|
  {
    if events == [] {
      assert ([event])[1..] == [];
    } else {
      assert (events + [event])[1..] == events[1..] + [event];
      if r.running {
        RunOneMoreEvent(RunEvent(r, events[0]), events[1..], event);
      }
    }
  }

  lemma GuestsPrefix(exits: seq<Exit>, n: nat)
    requires n < |exits|
    ensures Guests(exits[..n + 1]) == Guests(exits[..n]) + [Guest(exits[n])]
  {
  }

  lemma RunOneMore(r: Record, exits: seq<Exit>, n: nat)
    requires r.Valid() && n < |exits| && Run(r, Guests(exits[..n])).running
    ensures Run(r, Guests(exits[..n + 1])) == RunExit(Run(r, Guests(exits[..n])), exits[n])
  {
    GuestsPrefix(exits, n);
    RunOneMoreEvent(r, Guests(exits[..n]), Guest(exits[n]));
  }

  function Fresh(d: Devices): Record { Record(d, [], [], [], 0, true) }

  // ----- the calls of a run are the ones asked for -----

  /** What an event asks for: a handler call or a turn of the reader thread, but for the contents of the buffer. */
  datatype Request =
    | PortAccess(port: nat, direction: Pio.Direction, size: nat, env: Env)
    | ReaderTurn(c: byte, host: Uart.HostReply)

  /** An I/O exit asks for one access a repetition, a stdin byte for one turn, other exits for nothing. */
  function Requests(event: Event): seq<Request> {
    match event
    case Stdin(c, host) => [ReaderTurn(c, host)]
    case Guest(Io(port, direction, size, _, envs)) =>
      seq(|envs|, i requires 0 <= i < |envs| => PortAccess(port, direction, size, envs[i]))
    case Guest(_) => []
  }

  function AllRequests(events: seq<Event>): seq<Request> {
    if events == [] then [] else AllRequests(events[..|events| - 1]) + Requests(events[|events| - 1])
  }

  function RequestOf(call: Call): Request {
    match call
    case Access(port, direction, size, _, env) => PortAccess(port, direction, size, env)
    case StdinByte(c, host) => ReaderTurn(c, host)
  }

  function RequestsOf(calls: seq<Call>): (requests: seq<Request>)
    ensures |requests| == |calls| && forall i :: 0 <= i < |calls| ==> requests[i] == RequestOf(calls[i])
  {
    seq(|calls|, i requires 0 <= i < |calls| => RequestOf(calls[i]))
  }

  predicate Continues(event: Event) {
    event.Stdin? || event.exit.Io? || event.exit.ExitUnknown? || event.exit.ExitIntr?
  }

  /** `r'` is `r` after some more calls: the earlier ones stay, and only the very last call may have failed. */
  predicate Extends(r: Record, r': Record) {
    && |r.calls| == |r.outcomes| && |r'.calls| == |r'.outcomes|
    && r.calls <= r'.calls && r.outcomes <= r'.outcomes
    && (forall i :: |r.outcomes| <= i < |r'.outcomes| - 1 ==> r'.outcomes[i].code == 0)
  }

  predicate LastFailed(r: Record) {
    r.outcomes != [] && r.outcomes[|r.outcomes| - 1].code != 0
  }

  /** The buffer of the last of the calls behind number `n`, `initial` if there is none. */
  function BufferAfter(r: Record, n: nat, initial: byte): byte {
    if n < |r.outcomes| then r.outcomes[|r.outcomes| - 1].reply else initial
  }

  /** `r'` is `r` after the repetitions of an I/O exit: the accesses asked for, in order, each on what the one before
      left in the buffer; all of them, unless one failed and ended it. */
  predicate Repeated(
      r: Record, r': Record, port: nat, direction: Pio.Direction, size: nat, buffer: byte, envs: seq<Env>)
    requires |r.calls| == |r.outcomes| && |r'.calls| == |r'.outcomes|
  {
    var n := |r.calls|;
    && Extends(r, r') && |r'.calls| <= n + |envs|
    && (forall i :: n <= i < |r'.calls| ==>
          r'.calls[i] ==
            Access(port, direction, size, if i == n then buffer else r'.outcomes[i - 1].reply, envs[i - n]))
    && r'.buffer == BufferAfter(r', n, buffer)
    && (if r'.running then |r'.calls| == n + |envs| && (n < |r'.calls| ==> !LastFailed(r'))
        else n < |r'.calls| && LastFailed(r'))
  }

  lemma RepeatedStop(r: Record, port: nat, direction: Pio.Direction, size: nat, env: Env, envs: seq<Env>)
    requires r.Valid() && r.running && |r.calls| == |r.outcomes| && envs != [] && env == envs[0]
    requires !r.Then(Access(port, direction, size, r.buffer, env)).running
    ensures Repeated(r, r.Then(Access(port, direction, size, r.buffer, env)), port, direction, size, r.buffer, envs)
  {
  }

  lemma RepeatedMore(
      r: Record, next: Record, r': Record, port: nat, direction: Pio.Direction, size: nat, envs: seq<Env>)
    requires r.Valid() && |r.calls| == |r.outcomes| && envs != []
    requires next == r.Then(Access(port, direction, size, r.buffer, envs[0])) && next.running
    requires |r'.calls| == |r'.outcomes| && Repeated(next, r', port, direction, size, next.buffer, envs[1..])
    ensures Repeated(r, r', port, direction, size, r.buffer, envs)
  {
    var n := |r.calls|;
    assert r'.calls[n] == next.calls[n] && r'.outcomes[n] == next.outcomes[n];
    forall i | n <= i < |r'.calls|
      ensures r'.calls[i] ==
        Access(port, direction, size, if i == n then r.buffer else r'.outcomes[i - 1].reply, envs[i - n])
    {
      if i > n {
        assert envs[1..][i - n - 1] == envs[i - n];
      }
    }
  }

  lemma {:induction false} RepeatIsRepeated(
      r: Record, port: nat, direction: Pio.Direction, size: nat, envs: seq<Env>)
    requires r.Valid() && r.running && |r.calls| == |r.outcomes|
    ensures var r' := Repeat(r, port, direction, size, envs);
      |r'.calls| == |r'.outcomes| && Repeated(r, r', port, direction, size, r.buffer, envs)
    decreases |envs|
  {
    if envs != [] {
      var next := r.Then(Access(port, direction, size, r.buffer, envs[0]));
      if next.running {
        RepeatIsRepeated(next, port, direction, size, envs[1..]);
        RepeatedMore(r, next, Repeat(next, port, direction, size, envs[1..]), port, direction, size, envs);
      } else {
        RepeatedStop(r, port, direction, size, envs[0], envs);
      }
    }
  }

  /** One event of a run that is still going: the calls it asks for, in order, until one fails. */
  predicate EventDone(r: Record, r': Record, event: Event)
    requires |r.calls| == |r.outcomes| && |r'.calls| == |r'.outcomes|
  {
    && Extends(r, r')
    && RequestsOf(r'.calls[|r.calls|..]) <= Requests(event)
    && (r'.running ==> Continues(event) && RequestsOf(r'.calls[|r.calls|..]) == Requests(event))
    && (!r'.running ==> (|r.calls| < |r'.calls| && LastFailed(r')) || (!Continues(event) && r'.calls == r.calls))
    && (r'.running && |r.calls| < |r'.calls| ==> !LastFailed(r'))
  }

  lemma RepeatedIsDone(r: Record, r': Record, exit: Exit)
    requires exit.Io? && |r.calls| == |r.outcomes| && |r'.calls| == |r'.outcomes|
    requires Repeated(r, r', exit.port, exit.direction, exit.size, exit.buffer, exit.envs)
    ensures EventDone(r, r', Guest(exit))
  {
    var done, asked := RequestsOf(r'.calls[|r.calls|..]), Requests(Guest(exit));
    forall i | 0 <= i < |done| ensures i < |asked| && done[i] == asked[i] {
      assert r'.calls[|r.calls|..][i] == r'.calls[|r.calls| + i];
    }
    assert done == asked[..|done|];
  }

  lemma EventIsDone(r: Record, event: Event)
    requires r.Valid() && r.running && |r.calls| == |r.outcomes|
    ensures var r' := RunEvent(r, event); |r'.calls| == |r'.outcomes| && EventDone(r, r', event)
  {
    var r' := RunEvent(r, event);
    match event {
      case Stdin(c, host) =>
        assert r'.calls[|r.calls|..] == [StdinByte(c, host)];
        assert RequestsOf(r'.calls[|r.calls|..]) == [ReaderTurn(c, host)];
      case Guest(exit) =>
        if exit.Io? {
          var from := r.(buffer := exit.buffer);
          RepeatIsRepeated(from, exit.port, exit.direction, exit.size, exit.envs);
          RepeatedIsDone(r, r', exit);
        } else {
          assert r'.calls[|r.calls|..] == [];
        }
    }
  }

  /** Event `n` asked the run to stop, and everything asked for before it had been done. */
  predicate StoppedByExit(r: Record, events: seq<Event>, n: nat) {
    n < |events| && !Continues(events[n]) && RequestsOf(r.calls) == AllRequests(events[..n]) && !LastFailed(r)
  }

  /** The calls of a run, against what its events ask for. */
  ghost predicate CallsMatch(r: Record, events: seq<Event>) {
    && |r.calls| == |r.outcomes|
    && RequestsOf(r.calls) <= AllRequests(events)
    && (forall i :: 0 <= i < |r.outcomes| - 1 ==> r.outcomes[i].code == 0)
    && (r.running ==> RequestsOf(r.calls) == AllRequests(events) && !LastFailed(r))
    && (!r.running ==> LastFailed(r) || exists n: nat :: StoppedByExit(r, events, n))
  }

  lemma RequestsOfMore(earlier: seq<Call>, calls: seq<Call>)
    requires earlier <= calls
    ensures RequestsOf(calls) == RequestsOf(earlier) + RequestsOf(calls[|earlier|..])
  {
    assert calls == earlier + calls[|earlier|..];
  }

  lemma AllRequestsMore(events: seq<Event>, event: Event)
    ensures AllRequests(events + [event]) == AllRequests(events) + Requests(event)
  {
    assert (events + [event])[..|events|] == events;
  }

  lemma NoLaterFailure(r: Record, r': Record)
    requires Extends(r, r') && !LastFailed(r) && forall i :: 0 <= i < |r.outcomes| - 1 ==> r.outcomes[i].code == 0
    ensures forall i :: 0 <= i < |r'.outcomes| - 1 ==> r'.outcomes[i].code == 0
    ensures r'.outcomes == r.outcomes ==> !LastFailed(r')
  {
    assert forall i :: 0 <= i < |r.outcomes| ==> r'.outcomes[i] == r.outcomes[i];
  }

  lemma MatchMore(r: Record, r': Record, events: seq<Event>, event: Event)
    requires CallsMatch(r, events) && r.running && |r'.calls| == |r'.outcomes| && EventDone(r, r', event)
    ensures CallsMatch(r', events + [event])
  {
    RequestsOfMore(r.calls, r'.calls);
    AllRequestsMore(events, event);
    NoLaterFailure(r, r');
    if !r'.running && !LastFailed(r') {
      assert (events + [event])[..|events|] == events;
      assert StoppedByExit(r', events + [event], |events|);
    }
  }

  lemma MatchStopped(r: Record, events: seq<Event>, event: Event)
    requires CallsMatch(r, events) && !r.running
    ensures CallsMatch(r, events + [event])
  {
    var all := events + [event];
    assert all[..|events|] == events;
    if !LastFailed(r) {
      var n: nat :| StoppedByExit(r, events, n);
      assert all[..n] == events[..n];
      assert StoppedByExit(r, all, n);
    }
  }

  /** Over any run the calls made are, in order, the ones its events ask for: all of them while the run goes on.  When
      it has stopped they end with the one call that failed, or with the last one asked for before the exit that
      stopped it. */
  lemma {:induction false} CallsAreAskedFor(d: Devices, events: seq<Event>)
    requires d.Valid()
    ensures CallsMatch(Run(Fresh(d), events), events)
  {
    if events != [] {
      var n := |events| - 1;
      var before := Run(Fresh(d), events[..n]);
      CallsAreAskedFor(d, events[..n]);
      RunOneMoreEvent(Fresh(d), events[..n], events[n]);
      assert events == events[..n] + [events[n]];
      if before.running {
        EventIsDone(before, events[n]);
        MatchMore(before, RunEvent(before, events[n]), events[..n], events[n]);
      } else {
        MatchStopped(before, events[..n], events[n]);
      }
    }
  }

  lemma AllRequestsGrow(events: seq<Event>, n: nat)
    requires n < |events|
    ensures AllRequests(events[..n + 1]) == AllRequests(events[..n]) + Requests(events[n])
  {
    assert events[..n + 1][..n] == events[..n];
  }

  lemma {:induction false} CallsGrow(d: Devices, events: seq<Event>, n: nat)
    requires d.Valid() && n <= |events|
    ensures var before, r := Run(Fresh(d), events[..n]), Run(Fresh(d), events);
      before.calls <= r.calls && before.outcomes <= r.outcomes && (!before.running ==> r == before)
    decreases |events| - n
  {
    if n == |events| {
      assert events[..n] == events;
    } else {
      var before := Run(Fresh(d), events[..n]);
      CallsAreAskedFor(d, events[..n]);
      RunOneMoreEvent(Fresh(d), events[..n], events[n]);
      assert events[..n] + [events[n]] == events[..n + 1];
      if before.running {
        EventIsDone(before, events[n]);
      }
      CallsGrow(d, events, n + 1);
    }
  }

  /** Repetition `i` of the I/O exit `n` finds in the buffer what the guest put there, and from the second on what the
      repetition before left. */
  lemma BufferPassesOn(d: Devices, events: seq<Event>, n: nat, i: nat)
    requires d.Valid() && n < |events| && events[n].Guest? && events[n].exit.Io? && i < |events[n].exit.envs|
    requires |AllRequests(events[..n])| + i < |Run(Fresh(d), events).calls|
    ensures var r, at := Run(Fresh(d), events), |AllRequests(events[..n])| + i;
      && |r.outcomes| == |r.calls| && r.calls[at].Access?
      && r.calls[at].buffer == if i == 0 then events[n].exit.buffer else r.outcomes[at - 1].reply
  {
    var exit := events[n].exit;
    var before, r := Run(Fresh(d), events[..n]), Run(Fresh(d), events);
    CallsAreAskedFor(d, events);
    CallsAreAskedFor(d, events[..n]);
    CallsGrow(d, events, n);
    if before.running {
      RunOneMoreEvent(Fresh(d), events[..n], events[n]);
      assert events[..n] + [events[n]] == events[..n + 1];
      RepeatIsRepeated(before.(buffer := exit.buffer), exit.port, exit.direction, exit.size, exit.envs);
      CallsGrow(d, events, n + 1);
      assert |before.calls| == |AllRequests(events[..n])|;
    }
  }

  /** What an I/O exit hands back to the guest: the last reply, or the guest's own byte when nothing was called. */
  lemma BufferHandedBack(d: Devices, events: seq<Event>, exit: Exit)
    requires d.Valid() && Run(Fresh(d), events).running && exit.Io?
    ensures var n, r := |Run(Fresh(d), events).calls|, Run(Fresh(d), events + [Guest(exit)]);
      && |r.outcomes| == |r.calls|
      && r.buffer == if n < |r.outcomes| then r.outcomes[|r.outcomes| - 1].reply else exit.buffer
  {
    var before := Run(Fresh(d), events);
    CallsAreAskedFor(d, events);
    RunOneMoreEvent(Fresh(d), events, Guest(exit));
    RepeatIsRepeated(before.(buffer := exit.buffer), exit.port, exit.direction, exit.size, exit.envs);
  }

  // ----- each device sees only its own calls -----

  function ToCmos(call: Call): Option<Cmos.Access> {
    if call.StdinByte? || !(0x70 <= call.port < 0x72) then None
    else if call.direction.DirIn? then Some(Cmos.In(call.port, call.buffer, call.size, call.env.now))
    else Some(Cmos.Out(call.port, call.buffer, call.size))
  }

  function ToCom1(call: Call): Option<Uart.Access> {
    if call.StdinByte? then Some(Uart.Stdin(call.c, call.host))
    else if !(0x3F8 <= call.port < 0x400) then None
    else if call.direction.DirIn? then Some(Uart.In(call.port, call.buffer))
    else Some(Uart.Out(call.port, call.buffer, call.env.host))
  }

  function CmosCalls(calls: seq<Call>): seq<Cmos.Access> {
    if calls == [] then []
    else
      CmosCalls(calls[..|calls| - 1])
      + match ToCmos(calls[|calls| - 1]) case Some(a) => [a] case None => []
  }

  function Com1Calls(calls: seq<Call>): seq<Uart.Access> {
    if calls == [] then []
    else
      Com1Calls(calls[..|calls| - 1])
      + match ToCom1(calls[|calls| - 1]) case Some(a) => [a] case None => []
  }

  /** What the handler calls to the CMOS returned, in order; likewise for COM1. */
  function CmosReplies(calls: seq<Call>, outcomes: seq<Outcome>): seq<byte>
    requires |calls| == |outcomes|
  {
    if calls == [] then []
    else
      CmosReplies(calls[..|calls| - 1], outcomes[..|calls| - 1])
      + if ToCmos(calls[|calls| - 1]).Some? then [outcomes[|calls| - 1].reply] else []
  }

  function Com1Observed(calls: seq<Call>, outcomes: seq<Outcome>): seq<Uart.Observed>
    requires |calls| == |outcomes|
  {
    if calls == [] then []
    else
      var o := outcomes[|calls| - 1];
      Com1Observed(calls[..|calls| - 1], outcomes[..|calls| - 1])
      + if ToCom1(calls[|calls| - 1]).Some? then [Uart.Observed(o.reply, o.effects, o.code)] else []
  }

  /** Which calls stop a vCPU while the host's calls succeed: port accesses nobody claims, a write to the reset
      generator, and CMOS accesses of more than a byte. */
  predicate Stops(call: Call) {
    call.Access? &&
    var handler := Pio.PortMap(call.port, call.direction);
    handler == Pio.Unexpected || handler == Pio.ResetGenerator || (0x70 <= call.port < 0x72 && call.size != 1)
  }

  predicate HostSucceeds(call: Call) {
    call.StdinByte? || call.env.host == Uart.ALL_SUCCEED
  }

  /** Every code but those of failing host calls is explained by `Stops`. */
  predicate CodesExplained(calls: seq<Call>, outcomes: seq<Outcome>)
    requires |calls| == |outcomes|
  {
    forall i :: 0 <= i < |calls| && HostSucceeds(calls[i]) ==> (outcomes[i].code != 0 <==> Stops(calls[i]))
  }

  /** Writes, and accesses outside the devices, leave the buffer as it was. */
  predicate BuffersKept(calls: seq<Call>, outcomes: seq<Outcome>)
    requires |calls| == |outcomes|
  {
    forall i :: 0 <= i < |calls| && LeavesBuffer(calls[i]) ==> outcomes[i].reply == calls[i].buffer
  }

  predicate LeavesBuffer(call: Call) {
    call.Access? && (call.direction.DirOut? || (ToCmos(call).None? && ToCom1(call).None?))
  }

  ghost predicate CmosIsolated(d: Devices, r: Record)
    requires d.Valid() && |r.calls| == |r.outcomes|
  {
    var alone := Cmos.Run(d.cmos, CmosCalls(r.calls));
    r.devices.cmos == alone.state && CmosReplies(r.calls, r.outcomes) == alone.replies
  }

  predicate Com1Isolated(d: Devices, r: Record)
    requires |r.calls| == |r.outcomes|
  {
    var alone := Uart.Run(d.com1, Com1Calls(r.calls));
    r.devices.com1 == alone.state && Com1Observed(r.calls, r.outcomes) == alone.observed
  }

  predicate EffectsAreCom1s(r: Record)
    requires |r.calls| == |r.outcomes|
  {
    r.effects == Uart.EffectsOf(Com1Observed(r.calls, r.outcomes))
  }

  /** The record of a run that began with devices `d`: each device did what it would have done alone, everything the
      host saw is COM1's doing, the calls that failed are the ones that had to, and nothing but a device read changes
      the buffer. */
  ghost predicate Isolated(d: Devices, r: Record)
    requires d.Valid()
  {
    && |r.calls| == |r.outcomes|
    && CmosIsolated(d, r) && Com1Isolated(d, r)
    && EffectsAreCom1s(r) && CodesExplained(r.calls, r.outcomes) && BuffersKept(r.calls, r.outcomes)
  }

  lemma CmosUntouched(d: Devices, call: Call)
    requires d.Valid() && ToCmos(call).None?
    ensures Perform(d, call).devices.cmos == d.cmos
  {
  }

  lemma Com1Untouched(d: Devices, call: Call)
    requires d.Valid() && ToCom1(call).None?
    ensures Perform(d, call).devices.com1 == d.com1 && Perform(d, call).effects == []
  {
  }

  lemma CmosGrows(d: Devices, r: Record, call: Call)
    requires d.Valid() && r.Valid() && |r.calls| == |r.outcomes| && CmosIsolated(d, r)
    ensures CmosIsolated(d, r.Then(call))
  {
    var r' := r.Then(call);
    var n := |r.calls|;
    assert r'.calls[..n] == r.calls && r'.outcomes[..n] == r.outcomes;
    if ToCmos(call).None? {
      CmosUntouched(r.devices, call);
      assert CmosCalls(r'.calls) == CmosCalls(r.calls);
      assert CmosReplies(r'.calls, r'.outcomes) == CmosReplies(r.calls, r.outcomes);
    } else {
      var a := ToCmos(call).value;
      assert CmosCalls(r'.calls) == CmosCalls(r.calls) + [a];
      assert (CmosCalls(r.calls) + [a])[..|CmosCalls(r.calls)|] == CmosCalls(r.calls);
    }
  }

  /** A call to COM1 is the access alone. */
  lemma PerformIsStep(d: Devices, call: Call, a: Uart.Access)
    requires d.Valid() && ToCom1(call) == Some(a)
    ensures var o, alone := Perform(d, call), Uart.Step(d.com1, a);
      o.devices.com1 == alone.0 && Uart.Observed(o.reply, o.effects, o.code) == alone.1
  {
  }

  lemma Com1CallsMore(calls: seq<Call>, outcomes: seq<Outcome>, call: Call, o: Outcome)
    requires |calls| == |outcomes|
    ensures var more, outcomesMore := Com1Calls(calls + [call]), Com1Observed(calls + [call], outcomes + [o]);
      match ToCom1(call)
      case None => more == Com1Calls(calls) && outcomesMore == Com1Observed(calls, outcomes)
      case Some(a) =>
        && more == Com1Calls(calls) + [a]
        && outcomesMore == Com1Observed(calls, outcomes) + [Uart.Observed(o.reply, o.effects, o.code)]
  {
    assert (calls + [call])[..|calls|] == calls && (outcomes + [o])[..|outcomes|] == outcomes;
    assert Com1Calls(calls) + [] == Com1Calls(calls);
    assert Com1Observed(calls, outcomes) + [] == Com1Observed(calls, outcomes);
  }

  lemma Com1Grows(d: Devices, r: Record, call: Call)
    requires d.Valid() && r.Valid() && |r.calls| == |r.outcomes| && Com1Isolated(d, r)
    ensures Com1Isolated(d, r.Then(call))
  {
    Com1CallsMore(r.calls, r.outcomes, call, Perform(r.devices, call));
    match ToCom1(call) {
      case None => Com1Untouched(r.devices, call);
      case Some(a) =>
        PerformIsStep(r.devices, call, a);
        Uart.RunMore(d.com1, Com1Calls(r.calls), a);
    }
  }

  lemma EffectsGrow(r: Record, call: Call)
    requires r.Valid() && |r.calls| == |r.outcomes| && EffectsAreCom1s(r)
    ensures EffectsAreCom1s(r.Then(call))
  {
    var o, before := Perform(r.devices, call), Com1Observed(r.calls, r.outcomes);
    Com1CallsMore(r.calls, r.outcomes, call, o);
    if ToCom1(call).None? {
      Com1Untouched(r.devices, call);
    } else {
      var last := Uart.Observed(o.reply, o.effects, o.code);
      assert (before + [last])[..|before|] == before;
    }
  }

  /** Outside the devices the buffer is left alone, too. */
  lemma WhatStops(d: Devices, call: Call)
    requires d.Valid() && HostSucceeds(call)
    ensures var o := Perform(d, call);
      && (o.code != 0 <==> Stops(call))
      && (ToCmos(call).None? && ToCom1(call).None? ==> o == Outcome(d, call.buffer, [], o.code))
  {
  }

  lemma KeepsBuffer(d: Devices, call: Call)
    requires d.Valid() && LeavesBuffer(call)
    ensures Perform(d, call).reply == call.buffer
  {
  }

  lemma BuffersGrow(calls: seq<Call>, outcomes: seq<Outcome>, call: Call, o: Outcome)
    requires |calls| == |outcomes| && BuffersKept(calls, outcomes)
    requires LeavesBuffer(call) ==> o.reply == call.buffer
    ensures BuffersKept(calls + [call], outcomes + [o])
  {
  }

  lemma CodesGrow(calls: seq<Call>, outcomes: seq<Outcome>, call: Call, o: Outcome)
    requires |calls| == |outcomes| && CodesExplained(calls, outcomes)
    requires HostSucceeds(call) ==> (o.code != 0 <==> Stops(call))
    ensures CodesExplained(calls + [call], outcomes + [o])
  {
  }

  lemma CallKeepsIsolation(d: Devices, r: Record, call: Call)
    requires d.Valid() && r.Valid() && Isolated(d, r)
    ensures Isolated(d, r.Then(call))
  {
    CmosGrows(d, r, call);
    Com1Grows(d, r, call);
    EffectsGrow(r, call);
    if HostSucceeds(call) {
      WhatStops(r.devices, call);
    }
    if LeavesBuffer(call) {
      KeepsBuffer(r.devices, call);
    }
    CodesGrow(r.calls, r.outcomes, call, Perform(r.devices, call));
    BuffersGrow(r.calls, r.outcomes, call, Perform(r.devices, call));
  }

  lemma {:induction false} RepeatKeepsIsolation(
      d: Devices, r: Record, port: nat, direction: Pio.Direction, size: nat, envs: seq<Env>)
    requires d.Valid() && r.Valid() && Isolated(d, r)
    ensures Isolated(d, Repeat(r, port, direction, size, envs))
    decreases |envs|
  {
    if envs != [] && r.running {
      var call := Access(port, direction, size, r.buffer, envs[0]);
      CallKeepsIsolation(d, r, call);
      RepeatKeepsIsolation(d, r.Then(call), port, direction, size, envs[1..]);
    }
  }

  lemma {:induction false} RunKeepsIsolation(d: Devices, r: Record, events: seq<Event>)
    requires d.Valid() && r.Valid() && Isolated(d, r)
    ensures Isolated(d, Run(r, events))
    decreases |events|
  {
    if events != [] && r.running {
      match events[0] {
        case Guest(exit) =>
          if exit.Io? {
            RepeatKeepsIsolation(d, r.(buffer := exit.buffer), exit.port, exit.direction, exit.size, exit.envs);
          }
        case Stdin(c, host) => CallKeepsIsolation(d, r, StdinByte(c, host));
      }
      RunKeepsIsolation(d, RunEvent(r, events[0]), events[1..]);
    }
  }

  /** Over any run of exits and stdin bytes, the CMOS ends in the state, and gave the replies, of its own
      accesses alone; likewise COM1 with its stdin bytes. */
  lemma DevicesAreIsolated(d: Devices, events: seq<Event>)
    requires d.Valid()
    ensures Isolated(d, Run(Fresh(d), events))
  {
    RunKeepsIsolation(d, Fresh(d), events);
  }

  /** Two runs that make the same CMOS calls cannot be told apart through the CMOS, whatever else happens. */
  lemma CmosNonInterference(d: Devices, e: Devices, events: seq<Event>, others: seq<Event>)
    requires d.Valid() && e.Valid() && d.cmos == e.cmos
    requires CmosCalls(Run(Fresh(d), events).calls) == CmosCalls(Run(Fresh(e), others).calls)
    ensures var r, q := Run(Fresh(d), events), Run(Fresh(e), others);
      && r.devices.cmos == q.devices.cmos
      && |r.calls| == |r.outcomes| && |q.calls| == |q.outcomes|
      && CmosReplies(r.calls, r.outcomes) == CmosReplies(q.calls, q.outcomes)
  {
    DevicesAreIsolated(d, events);
    DevicesAreIsolated(e, others);
  }

  /** So the laws of one device hold in the whole machine: the bytes the machine puts on stdout over a run are the
      transmissions among COM1's own calls, and a CMOS cell holds the last byte stored by the CMOS's own calls. */
  lemma WholeRunLaws(d: Devices, cmosIndex: byte, events: seq<Event>, register: byte)
    requires cmosIndex < Cmos.MEM_SIZE && d.cmos == Cmos.State(cmosIndex, Zeros(Cmos.MEM_SIZE))
    requires register < Cmos.MEM_SIZE
    ensures var r := Run(Fresh(d), events);
      && Uart.Stdouts(r.effects) == Uart.Sent(Com1Calls(r.calls), d.com1)
      && r.devices.cmos.data[register] == Cmos.LastStored(CmosCalls(r.calls), cmosIndex, register)
  {
    var r := Run(Fresh(d), events);
    DevicesAreIsolated(d, events);
    Uart.OutputPartition(d.com1, Com1Calls(r.calls));
    Cmos.StoreFollowsHistory(cmosIndex, CmosCalls(r.calls));
  }

  // ----- when a run goes on -----

  predicate AllReturnedZero(r: Record) {
    forall i :: 0 <= i < |r.outcomes| ==> r.outcomes[i].code == 0
  }

  lemma {:induction false} RepeatRunning(r: Record, port: nat, direction: Pio.Direction, size: nat, envs: seq<Env>)
    requires r.Valid() && (r.running <==> AllReturnedZero(r))
    ensures var r' := Repeat(r, port, direction, size, envs); r'.running <==> AllReturnedZero(r')
    decreases |envs|
  {
    if envs != [] && r.running {
      var next := r.Then(Access(port, direction, size, r.buffer, envs[0]));
      assert next.outcomes[|r.outcomes|].code == 0 <==> next.running;
      RepeatRunning(next, port, direction, size, envs[1..]);
    }
  }

  lemma {:induction false} RunRunning(r: Record, events: seq<Event>)
    requires r.Valid() && r.running && AllReturnedZero(r)
    ensures var r' := Run(r, events);
      r'.running <==> AllReturnedZero(r') && forall i :: 0 <= i < |events| ==> Continues(events[i])
    decreases |events|
  {
    if events != [] {
      var next := RunEvent(r, events[0]);
      match events[0] {
        case Guest(exit) =>
          if exit.Io? {
            RepeatRunning(r.(buffer := exit.buffer), exit.port, exit.direction, exit.size, exit.envs);
          }
        case Stdin(c, host) =>
      }
      if next.running {
        RunRunning(next, events[1..]);
        assert forall i :: 0 <= i < |events[1..]| ==> events[1..][i] == events[i + 1];
      }
    }
  }

  /** A run goes on exactly as long as every handler call returned 0 and no exit asked to stop. */
  lemma RunsWhileZero(d: Devices, events: seq<Event>)
    requires d.Valid()
    ensures var r := Run(Fresh(d), events);
      r.running <==> AllReturnedZero(r) && forall i :: 0 <= i < |events| ==> Continues(events[i])
  {
    RunRunning(Fresh(d), events);
  }

  /** A run goes on exactly when every call its events ask for was made, none failed, and no exit asked to stop. */
  lemma RunsOnIffAllDone(d: Devices, events: seq<Event>)
    requires d.Valid()
    ensures var r := Run(Fresh(d), events);
      r.running <==>
        && RequestsOf(r.calls) == AllRequests(events) && !LastFailed(r)
        && forall i :: 0 <= i < |events| ==> Continues(events[i])
  {
    CallsAreAskedFor(d, events);
    RunsWhileZero(d, events);
  }

  /** All calls made is not enough: a halt asks for none, and stops the run. */
  lemma HaltStops(d: Devices)
    requires d.Valid()
    ensures var r := Run(Fresh(d), [Guest(ExitHlt)]);
      !r.running && RequestsOf(r.calls) == AllRequests([Guest(ExitHlt)]) == []
  {
    var halt := [Guest(ExitHlt)];
    assert halt[..0] == [] && AllRequests(halt[..0]) == [];
    assert Run(Fresh(d), halt) == Run(RunEvent(Fresh(d), halt[0]), halt[1..]);
  }

  predicate EventSucceeds(event: Event) {
    match event
    case Stdin(_, _) => true
    case Guest(exit) =>
      exit.Io? ==> forall i :: 0 <= i < |exit.envs| ==> exit.envs[i].host == Uart.ALL_SUCCEED
  }

  predicate AllHostCallsSucceed(r: Record) {
    forall i :: 0 <= i < |r.calls| ==> HostSucceeds(r.calls[i])
  }

  lemma {:induction false} RepeatSucceeds(r: Record, port: nat, direction: Pio.Direction, size: nat, envs: seq<Env>)
    requires r.Valid() && AllHostCallsSucceed(r)
    requires forall i :: 0 <= i < |envs| ==> envs[i].host == Uart.ALL_SUCCEED
    ensures AllHostCallsSucceed(Repeat(r, port, direction, size, envs))
    decreases |envs|
  {
    if envs != [] && r.running {
      RepeatSucceeds(r.Then(Access(port, direction, size, r.buffer, envs[0])), port, direction, size, envs[1..]);
    }
  }

  lemma {:induction false} RunSucceeds(r: Record, events: seq<Event>)
    requires r.Valid() && AllHostCallsSucceed(r)
    requires forall i :: 0 <= i < |events| ==> EventSucceeds(events[i])
    ensures AllHostCallsSucceed(Run(r, events))
    decreases |events|
  {
    if events != [] && r.running {
      match events[0] {
        case Guest(exit) =>
          if exit.Io? {
            RepeatSucceeds(r.(buffer := exit.buffer), exit.port, exit.direction, exit.size, exit.envs);
          }
        case Stdin(c, host) =>
      }
      RunSucceeds(RunEvent(r, events[0]), events[1..]);
    }
  }

  /** While the host's calls succeed, a run goes on exactly until the guest halts or traps, or makes an access that
      stops it: to a port nobody claims, to the reset generator, or to the CMOS with more than a byte. */
  lemma RunsUntilStopped(d: Devices, events: seq<Event>)
    requires d.Valid() && forall i :: 0 <= i < |events| ==> EventSucceeds(events[i])
    ensures var r := Run(Fresh(d), events);
      r.running <==>
        && (forall i :: 0 <= i < |r.calls| ==> !Stops(r.calls[i]))
        && (forall i :: 0 <= i < |events| ==> Continues(events[i]))
  {
    var r := Run(Fresh(d), events);
    RunsWhileZero(d, events);
    DevicesAreIsolated(d, events);
    RunSucceeds(Fresh(d), events);
    assert forall i :: 0 <= i < |r.calls| ==> (r.outcomes[i].code != 0 <==> Stops(r.calls[i]));
  }
}
