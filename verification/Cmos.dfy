/** The CMOS index/data pair of src/cmos.cpp and the store a guest sees through it. */
module Cmos {
  import opened Bytes

  const PORT_INDEX := 0x70
  const PORT_DATA := 0x71
  const MEM_SIZE := 128

  const REG_SEC := 0x00
  const REG_MIN := 0x02
  const REG_HOUR := 0x04
  const REG_WEEKD := 0x06
  const REG_MDAY := 0x07
  const REG_MONTH := 0x08
  const REG_YEAR := 0x09
  const REG_STAT_A := 0x0A
  const REG_STAT_B := 0x0B
  const REG_STAT_C := 0x0C
  const REG_STAT_D: byte := 0x0D
  const REG_SHUTDOWN := 0x0F
  const REG_CENTURY := 0x32

  /** `struct tm`, as `localtime_r` fills it in; month and week day go out unshifted. */
  datatype Time = Time(sec: int, min: int, hour: int, wday: int, mday: int, mon: int, year: int)

  function BinToBcd(bin: byte): byte {
    if bin > 99 then 1 else bin / 10 * 16 + bin % 10
  }

  /** Remainder and quotient as C++ rounds them, toward zero. */
  function Rem(a: int, b: int): int
    requires b > 0
  {
    if a >= 0 then a % b else -(-a % b)
  }

  function Quot(a: int, b: int): int
    requires b > 0
  {
    if a >= 0 then a / b else -(-a / b)
  }

  function Bcd(value: int): byte { BinToBcd(value % 256) }

  /** The registers the device answers itself. */
  function Computed(index: byte, now: Time): Option<byte> {
    if index == REG_SEC then Some(Bcd(now.sec))
    else if index == REG_MIN then Some(Bcd(now.min))
    else if index == REG_HOUR then Some(Bcd(now.hour))
    else if index == REG_WEEKD then Some(Bcd(now.wday))
    else if index == REG_MDAY then Some(Bcd(now.mday))
    else if index == REG_MONTH then Some(Bcd(now.mon))
    else if index == REG_YEAR then Some(Bcd(Rem(now.year, 100)))
    else if index == REG_STAT_A then Some(0x26)
    else if index == REG_STAT_B then Some(0x02)
    else if index == REG_STAT_C then Some(0)
    else if index == REG_STAT_D then Some(0x80)
    else if index == REG_CENTURY then Some(Bcd(Quot(now.year + 1900, 100)))
    else None
  }

  /** The registers that are plain cells: all but the clock's, the century's and the four status registers. */
  predicate StorageBacked(index: byte) {
    && index != 0x00 && index != 0x02 && index != 0x04 && index != 0x06 && index != 0x07 && index != 0x08
    && index != 0x09 && index != 0x0A && index != 0x0B && index != 0x0C && index != 0x0D && index != 0x32
  }

  datatype State = State(index: byte, data: seq<byte>) {
    predicate Valid() { index < MEM_SIZE && |data| == MEM_SIZE }
  }

  datatype ReadOutcome = ReadOutcome(state: State, reply: byte, code: int)
  datatype WriteOutcome = WriteOutcome(state: State, code: int)

  /** `CMOS::Read`. */
  function ReadPort(s: State, port: nat, buffer: byte, size: nat, now: Time): (o: ReadOutcome)
    requires s.Valid()
    ensures o.state.Valid() && o.state.data == s.data
  {
    if size != 1 then ReadOutcome(s, buffer, 1)
    else if port == PORT_INDEX then ReadOutcome(s, s.index, 0)
    else if port == PORT_DATA then
      ReadOutcome(s.(index := REG_STAT_D),
        match Computed(s.index, now) case Some(v) => v case None => s.data[s.index], 0)
    else ReadOutcome(s, buffer, 1)
  }

  /** `CMOS::Write`. */
  function WritePort(s: State, port: nat, buffer: byte, size: nat): (o: WriteOutcome)
    requires s.Valid()
    ensures o.state.Valid()
  {
    if size != 1 then WriteOutcome(s, 1)
    else if port == PORT_INDEX then WriteOutcome(s.(index := buffer % 0x80), 0)
    else if port == PORT_DATA then
      if s.index == REG_SHUTDOWN && buffer == 0 then WriteOutcome(s.(index := REG_STAT_D), 0)
      else WriteOutcome(State(REG_STAT_D, s.data[s.index as nat := buffer]), 0)
    else WriteOutcome(s, 1)
  }

  // ----- the device, in place -----

  class CMOS {
    var index: byte
    const data: array<byte>

    ghost predicate Valid()
      reads this, data
    {
      data.Length == MEM_SIZE && index < MEM_SIZE
    }

    function Contents(): State
      reads this, data
    {
      State(index, data[..])
    }

    /** `index` has no initialiser in the source; `initial` is whatever it starts as. */
    constructor (initial: byte)
      requires initial < MEM_SIZE
      ensures Valid() && fresh(data) && Contents() == State(initial, Zeros(MEM_SIZE))
    {
      index := initial;
      data := new byte[MEM_SIZE](_ => 0);
    }

    method Read(port: nat, buffer: byte, size: nat, now: Time) returns (code: int, reply: byte)
      requires Valid()
      modifies this
      ensures Valid()
      ensures var o := ReadPort(old(Contents()), port, buffer, size, now);
        Contents() == o.state && reply == o.reply && code == o.code
    {
      if size != 1 {
        return 1, buffer;
      }
      if port == PORT_INDEX {
        reply := index;
      } else if port == PORT_DATA {
        match Computed(index, now) {
          case Some(v) => reply := v;
          case None => reply := data[index];
        }
        index := REG_STAT_D;
      } else {
        return 1, buffer;
      }
      code := 0;
    }

    method Write(port: nat, buffer: byte, size: nat) returns (code: int)
      requires Valid()
      modifies this, data
      ensures Valid()
      ensures var o := WritePort(old(Contents()), port, buffer, size);
        Contents() == o.state && code == o.code
    {
      if size != 1 {
        return 1;
      }
      if port == PORT_INDEX {
        index := buffer % 0x80;
      } else if port == PORT_DATA {
        if index == REG_SHUTDOWN && buffer == 0 {
          index := REG_STAT_D;
          return 0;
        }
        data[index] := buffer;
        index := REG_STAT_D;
      } else {
        return 1;
      }
      code := 0;
    }
  }

  // ----- histories -----

  datatype Access =
    | In(port: nat, buffer: byte, size: nat, now: Time)
    | Out(port: nat, buffer: byte, size: nat)

  datatype Result = Result(state: State, replies: seq<byte>, codes: seq<int>)

  function Run(s: State, history: seq<Access>): (r: Result)
    requires s.Valid()
    ensures r.state.Valid() && |r.replies| == |r.codes| == |history|
  {
    if history == [] then Result(s, [], [])
    else
      var before := Run(s, history[..|history| - 1]);
      match history[|history| - 1]
      case In(port, buffer, size, now) =>
        var o := ReadPort(before.state, port, buffer, size, now);
        Result(o.state, before.replies + [o.reply], before.codes + [o.code])
      case Out(port, buffer, size) =>
        var o := WritePort(before.state, port, buffer, size);
        Result(o.state, before.replies + [buffer], before.codes + [o.code])
  }

  /** The register a history leaves selected: the last one the guest chose since the last data access,
      0x0D after a data access, and the power-on one before any of either. */
  function Selected(history: seq<Access>, initial: byte): (index: byte)
    requires initial < MEM_SIZE
    ensures index < MEM_SIZE
  {
    if history == [] then initial
    else
      var a, earlier := history[|history| - 1], history[..|history| - 1];
      if a.size == 1 && a.port == 0x71 then 0x0D
      else if a.size == 1 && a.Out? && a.port == 0x70 then a.buffer % 0x80
      else Selected(earlier, initial)
  }

  /** The last byte written to `register` while it was selected, 0 if none; the shutdown register 0x0F ignores 0. */
  function LastStored(history: seq<Access>, initial: byte, register: byte): byte
    requires initial < MEM_SIZE
  {
    if history == [] then 0
    else
      var a, earlier := history[|history| - 1], history[..|history| - 1];
      if a.Out? && a.size == 1 && a.port == 0x71 && Selected(earlier, initial) == register
         && !(register == 0x0F && a.buffer == 0)
      then a.buffer
      else LastStored(earlier, initial, register)
  }

  lemma {:induction false} StoreFollowsHistory(initial: byte, history: seq<Access>)
    requires initial < MEM_SIZE
    ensures var s := Run(State(initial, Zeros(MEM_SIZE)), history).state;
      && s.index == Selected(history, initial)
      && forall r: byte :: r < MEM_SIZE ==> s.data[r] == LastStored(history, initial, r)
  {
    if history != [] {
      var earlier := history[..|history| - 1];
      StoreFollowsHistory(initial, earlier);
    }
  }

  /** Exactly byte accesses to the two ports are served; a refused one changes nothing, the caller's byte
      included, and no write changes that byte.  Port 0x70 reads as the selected register. */
  lemma AccessOutcome(initial: byte, history: seq<Access>, a: Access)
    requires initial < MEM_SIZE
    ensures var s0 := State(initial, Zeros(MEM_SIZE)); var before, r := Run(s0, history), Run(s0, history + [a]);
      && (r.codes[|history|] == 0 <==> a.size == 1 && (a.port == 0x70 || a.port == 0x71))
      && (r.codes[|history|] != 0 ==> r.state == before.state && r.replies[|history|] == a.buffer)
      && (a.Out? ==> r.replies[|history|] == a.buffer)
      && (a.In? && a.size == 1 && a.port == 0x70 ==> r.replies[|history|] == Selected(history, initial))
  {
    StoreFollowsHistory(initial, history);
    assert (history + [a])[..|history|] == history;
  }

  function SelectThenRead(register: byte, buffer: byte, now: Time): seq<Access> {
    [Out(0x70, register, 1), In(0x71, buffer, 1, now)]
  }

  lemma {:induction false} RunConcat(s: State, first: seq<Access>, second: seq<Access>)
    requires s.Valid()
    ensures var a := Run(s, first); var b := Run(a.state, second);
      Run(s, first + second) == Result(b.state, a.replies + b.replies, a.codes + b.codes)
  {
    if second == [] {
      assert first + second == first;
    } else {
      RunConcat(s, first, second[..|second| - 1]);
      assert (first + second)[..|first + second| - 1] == first + second[..|second| - 1];
    }
  }

  lemma ReadsSelected(s: State, register: byte, buffer: byte, now: Time)
    requires s.Valid() && register < MEM_SIZE
    ensures Run(s, SelectThenRead(register, buffer, now)).replies[1] ==
      match Computed(register, now) case Some(v) => v case None => s.data[register]
  {
    var both := SelectThenRead(register, buffer, now);
    assert both[..1][..0] == [];
    assert Run(s, both[..1]).state == s.(index := register);
  }

  lemma ComputedOrStored(register: byte, now: Time)
    ensures Computed(register, now).None? <==> StorageBacked(register)
  {
  }

  /** What a guest gets that selects `register` and reads it, after `history`. */
  function ReplyFrom(initial: byte, history: seq<Access>, register: byte, buffer: byte, now: Time): byte
    requires initial < MEM_SIZE
  {
    Run(State(initial, Zeros(MEM_SIZE)), history + SelectThenRead(register, buffer, now)).replies[|history| + 1]
  }

  lemma ReplyIs(initial: byte, history: seq<Access>, register: byte, buffer: byte, now: Time)
    requires initial < MEM_SIZE && register < MEM_SIZE
    ensures ReplyFrom(initial, history, register, buffer, now) ==
      match Computed(register, now) case Some(v) => v case None => LastStored(history, initial, register)
  {
    var s0 := State(initial, Zeros(MEM_SIZE));
    StoreFollowsHistory(initial, history);
    RunConcat(s0, history, SelectThenRead(register, buffer, now));
    ReadsSelected(Run(s0, history).state, register, buffer, now);
  }

  /** After any history, selecting a storage-backed register and reading it gives the last byte the guest stored
      there; for any other register what was stored makes no difference. */
  lemma ReadsLastStored(
      initial: byte, history: seq<Access>, other: seq<Access>, register: byte, buffer: byte, now: Time)
    requires initial < MEM_SIZE && register < MEM_SIZE
    ensures
      if StorageBacked(register) then
        ReplyFrom(initial, history, register, buffer, now) == LastStored(history, initial, register)
      else ReplyFrom(initial, history, register, buffer, now) == ReplyFrom(initial, other, register, buffer, now)
  {
    ReplyIs(initial, history, register, buffer, now);
    ReplyIs(initial, other, register, buffer, now);
    ComputedOrStored(register, now);
  }

  /** The status registers, bit by bit.  0x0A: no update in progress, divider 2, rate 6.  0x0B: 24-hour mode, and
      neither SET, an interrupt enable, the square wave, binary mode nor daylight saving.  0x0C: no interrupt.
      0x0D: valid RAM and time, nothing else. */
  lemma StatusReads(initial: byte, history: seq<Access>, buffer: byte, now: Time)
    requires initial < MEM_SIZE
    ensures var a := ReplyFrom(initial, history, 0x0A, buffer, now);
      a / 0x80 == 0 && a / 0x10 % 8 == 2 && a % 0x10 == 6
    ensures var b := ReplyFrom(initial, history, 0x0B, buffer, now);
      b / 0x10 == 0 && b / 8 % 2 == 0 && b / 4 % 2 == 0 && b / 2 % 2 == 1 && b % 2 == 0
    ensures ReplyFrom(initial, history, 0x0C, buffer, now) == 0
    ensures var d := ReplyFrom(initial, history, 0x0D, buffer, now);
      d / 0x80 == 1 && d % 0x80 == 0
  {
    ReplyIs(initial, history, 0x0A, buffer, now);
    ReplyIs(initial, history, 0x0B, buffer, now);
    ReplyIs(initial, history, 0x0C, buffer, now);
    ReplyIs(initial, history, 0x0D, buffer, now);
  }

  // ----- the clock -----

  /** How a guest decodes a register in BCD mode. */
  function FromBcd(b: byte): nat { b / 16 * 10 + b % 16 }

  predicate IsBcd(b: byte) { b / 16 <= 9 && b % 16 <= 9 }

  /** A clock register decodes to `value`, from two decimal digits, exactly when that has at most two. */
  predicate Shows(reply: byte, value: int) {
    if 0 <= value <= 99 then IsBcd(reply) && FromBcd(reply) == value else FromBcd(reply) != value
  }

  lemma Nibbles(tens: int, units: int)
    requires 0 <= tens <= 9 && 0 <= units <= 9
    ensures (tens * 16 + units) / 16 == tens && (tens * 16 + units) % 16 == units
    ensures (tens * 10 + units) / 10 == tens && (tens * 10 + units) % 10 == units
  {
  }

  lemma TwoDigits(tens: int, units: int)
    requires 0 <= tens <= 9 && 0 <= units <= 9
    ensures var bcd := BinToBcd(tens * 10 + units);
      bcd == tens * 16 + units && IsBcd(bcd) && FromBcd(bcd) == tens * 10 + units
  {
    Nibbles(tens, units);
  }

  /** A clock register never holds anything but two decimal digits: the value's, or 1 when it does not fit. */
  lemma BcdDigits(value: int)
    ensures IsBcd(Bcd(value))
    ensures FromBcd(Bcd(value)) == if value % 256 <= 99 then value % 256 else 1
  {
    var bin := value % 256;
    if bin <= 99 {
      TwoDigits(bin / 10, bin % 10);
    }
  }

  lemma DigitsShow(reply: byte, value: int)
    requires IsBcd(reply) && FromBcd(reply) == if value % 256 <= 99 then value % 256 else 1
    ensures Shows(reply, value)
  {
  }

  lemma BcdReadsBack(value: int)
    ensures Shows(Bcd(value), value)
  {
    BcdDigits(value);
    DigitsShow(Bcd(value), value);
  }

  lemma ClockReads(initial: byte, history: seq<Access>, register: byte, value: int, buffer: byte, now: Time)
    requires initial < MEM_SIZE && register < MEM_SIZE && Computed(register, now) == Some(Bcd(value))
    ensures Shows(ReplyFrom(initial, history, register, buffer, now), value)
  {
    ReplyIs(initial, history, register, buffer, now);
    BcdReadsBack(value);
  }

  /** After any history each clock register shows the host's value exactly when that has at most two digits, as
      `localtime_r` promises.  Month and week day count from 0, as in `struct tm`. */
  lemma TimeReadsBack(initial: byte, history: seq<Access>, buffer: byte, now: Time)
    requires initial < MEM_SIZE
    ensures Shows(ReplyFrom(initial, history, 0x00, buffer, now), now.sec)
    ensures Shows(ReplyFrom(initial, history, 0x02, buffer, now), now.min)
    ensures Shows(ReplyFrom(initial, history, 0x04, buffer, now), now.hour)
    ensures Shows(ReplyFrom(initial, history, 0x06, buffer, now), now.wday)
    ensures Shows(ReplyFrom(initial, history, 0x07, buffer, now), now.mday)
    ensures Shows(ReplyFrom(initial, history, 0x08, buffer, now), now.mon)
  {
    ClockReads(initial, history, 0x00, now.sec, buffer, now);
    ClockReads(initial, history, 0x02, now.min, buffer, now);
    ClockReads(initial, history, 0x04, now.hour, buffer, now);
    ClockReads(initial, history, 0x06, now.wday, buffer, now);
    ClockReads(initial, history, 0x07, now.mday, buffer, now);
    ClockReads(initial, history, 0x08, now.mon, buffer, now);
  }

  /** Truncating division of `100 * q + d`. */
  lemma Centuries(q: int, d: int)
    requires 0 <= d < 100
    ensures Rem(100 * q + d, 100) == if q >= 0 || d == 0 then d else d - 100
    ensures q >= 0 ==> Quot(100 * q + d, 100) == q
  {
    assert (100 * q + d) % 100 == d && (100 * q + d) / 100 == q;
    if q < 0 && d > 0 {
      assert -(100 * q + d) == 100 * (-q - 1) + (100 - d);
    } else if q < 0 {
      assert -(100 * q + d) == 100 * -q;
    }
  }

  /** What the year register decodes to: the last two digits from 1900 on; before, 0 for a full century and
      otherwise the 1 that stands for a value out of range. */
  lemma YearDigits(q: int, d: int)
    requires 0 <= d < 100
    ensures FromBcd(Bcd(Rem(100 * q + d, 100))) == if q >= 0 || d == 0 then d else 1
  {
    Centuries(q, d);
    if q >= 0 || d == 0 {
      BcdReadsBack(d);
    } else {
      assert (d - 100) % 256 == d + 156;
    }
  }

  lemma YearArithmetic(q: int, d: int, century: nat, year: nat)
    requires 0 <= d < 100 && century <= 99 && year == (if q >= 0 || d == 0 then d else 1)
    requires 0 <= q + 19 <= 99 ==> century == q + 19
    ensures century * 100 + year == 100 * q + d + 1900 <==> -19 <= q < 81 && (q >= 0 || d <= 1)
  {
  }

  lemma CenturyDigits(q: int, d: int)
    requires 0 <= d < 100
    ensures 0 <= FromBcd(Bcd(Quot(100 * q + d + 1900, 100))) <= 99
    ensures 0 <= q + 19 <= 99 ==> FromBcd(Bcd(Quot(100 * q + d + 1900, 100))) == q + 19
  {
    BcdDigits(Quot(100 * q + d + 1900, 100));
    if 0 <= q + 19 <= 99 {
      assert 100 * q + d + 1900 == 100 * (q + 19) + d;
      Centuries(q + 19, d);
    }
  }

  lemma CenturyAndYear(q: int, d: int)
    requires 0 <= d < 100
    ensures var year := 100 * q + d;
      FromBcd(Bcd(Quot(year + 1900, 100))) * 100 + FromBcd(Bcd(Rem(year, 100))) == year + 1900
      <==> -19 <= q < 81 && (q >= 0 || d <= 1)
  {
    CenturyDigits(q, d);
    YearDigits(q, d);
    YearArithmetic(q, d, FromBcd(Bcd(Quot(100 * q + d + 1900, 100))), FromBcd(Bcd(Rem(100 * q + d, 100))));
  }

  lemma YearShown(year: int)
    ensures FromBcd(Bcd(Quot(year + 1900, 100))) * 100 + FromBcd(Bcd(Rem(year, 100))) == year + 1900
       <==> 0 <= year < 8100 || (-1900 <= year < 0 && (year % 100 == 0 || year % 100 == 1))
  {
    var q, d := year / 100, year % 100;
    assert year == 100 * q + d;
    CenturyAndYear(q, d);
  }

  /** After any history the century and year registers hold decimal digits that together decode to the year exactly
      for 1900 to 9999, and before that for the years 0 to 1899 that end in 00 or 01. */
  lemma YearReadsBack(initial: byte, history: seq<Access>, buffer: byte, now: Time)
    requires initial < MEM_SIZE
    ensures var century := ReplyFrom(initial, history, 0x32, buffer, now);
      var year := ReplyFrom(initial, history, 0x09, buffer, now);
      && IsBcd(century) && IsBcd(year)
      && (FromBcd(century) * 100 + FromBcd(year) == now.year + 1900
          <==> 0 <= now.year < 8100 || (-1900 <= now.year < 0 && (now.year % 100 == 0 || now.year % 100 == 1)))
  {
    ReplyIs(initial, history, 0x32, buffer, now);
    ReplyIs(initial, history, 0x09, buffer, now);
    BcdDigits(Quot(now.year + 1900, 100));
    BcdDigits(Rem(now.year, 100));
    YearShown(now.year);
  }

  // ----- what a guest cannot see -----

  /** The same device as far as any guest can tell: cells behind computed registers may differ. */
  predicate Indistinguishable(s: State, t: State)
    requires s.Valid() && t.Valid()
  {
    s.index == t.index && forall r: byte :: r < MEM_SIZE && StorageBacked(r) ==> s.data[r] == t.data[r]
  }

  /** Bytes stored without selecting first land behind register 0x0D, and no access run ever shows them. */
  lemma {:induction false} HiddenCells(s: State, t: State, history: seq<Access>)
    requires s.Valid() && t.Valid() && Indistinguishable(s, t)
    ensures Run(s, history).replies == Run(t, history).replies && Run(s, history).codes == Run(t, history).codes
    ensures Indistinguishable(Run(s, history).state, Run(t, history).state)
  {
    if history != [] {
      HiddenCells(s, t, history[..|history| - 1]);
      var a := history[|history| - 1];
      var s', t' := Run(s, history[..|history| - 1]).state, Run(t, history[..|history| - 1]).state;
      if a.In? {
        ComputedOrStored(s'.index, a.now);
      }
    }
  }

  lemma UnselectedWriteIsHidden(s: State, first: Access, buffer: byte, later: seq<Access>)
    requires s.Valid() && first.size == 1 && first.port == 0x71
    ensures var before := Run(s, [first]).state; var after := Run(s, [first, Out(0x71, buffer, 1)]).state;
      Run(before, later).replies == Run(after, later).replies
  {
    var both := [first, Out(0x71, buffer, 1)];
    assert both[..1] == [first];
    var before := Run(s, [first]).state;
    assert before.index == REG_STAT_D;
    HiddenCells(before, Run(s, both).state, later);
  }
}
