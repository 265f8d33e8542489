/**
  The remote-GPIO command protocol of the USBtoSerial firmware, as values.

  One poll of the main loop receives at most one byte and, for a byte,
  classifies it, acts on the selected pin or on the selection, and answers
  through the virtual serial port when its IN endpoint is ready. This module
  gives that step as a function on a `Machine` (selection, I/O registers,
  trace of observable events) and proves what the protocol promises about
  one step and about a run of many. The class in `CommandLoop` performs the
  same step in place and is proved equal to `Step`.
 */
module Protocol {
  import opened Bits
  import opened PinTable

  type Byte = b: int | 0 <= b < 0x100

  /** Pulse widths in milliseconds of 't'/'T' and of 'u'/'U'. */
  const ShortPulseMs: nat := 100
  const LongPulseMs: nat := 1000

  /** The operation bytes (every command byte that is not a selector). */
  const Operations: set<int> :=
    {'H' as int, 'L' as int, 't' as int, 'T' as int, 'u' as int, 'U' as int, '?' as int}

  /** A received byte, classified. */
  datatype Command =
    | Select(pin: PinRef)             // a selector: choose the pin later operations act on
    | Drive(high: bool)               // 'H' or 'L'
    | Pulse(first: bool, ms: nat)     // drive `first`, wait `ms`, drive `!first`
    | Help                            // '?'
    | Unknown                         // any other byte

  /** The `switch (chr)` of the main loop: selectors first, then the operations. */
  function Classify(chr: int): (cmd: Command)
    ensures cmd.Select? <==> IsSelector(chr)
    ensures cmd.Select? ==> Lookup(chr) == Some(cmd.pin)
    ensures cmd.Unknown? <==> !IsSelector(chr) && chr !in Operations
    ensures cmd.Drive? || cmd.Pulse? || cmd.Help? ==> chr in Operations
  {
    match Lookup(chr)
    case Some(p) => Select(p)
    case None =>
      if chr == 'H' as int then Drive(true)
      else if chr == 'L' as int then Drive(false)
      else if chr == 't' as int then Pulse(false, ShortPulseMs)
      else if chr == 'T' as int then Pulse(true, ShortPulseMs)
      else if chr == 'u' as int then Pulse(false, LongPulseMs)
      else if chr == 'U' as int then Pulse(true, LongPulseMs)
      else if chr == '?' as int then Help
      else Unknown
  }

  /** What an outside observer sees, in order. */
  datatype Event =
    | Store(addr: nat, value: bv8)    // a write of `value` to I/O register `addr`
    | Delay(ms: nat)                  // a blocking `Delay_MS(ms)`
    | SendByte(b: Byte)               // one byte sent to the host
    | SendHelp                        // the whole help text sent to the host

  /** The interpreter's state: the selected pin, the I/O registers and the trace so far. */
  datatype Machine = Machine(sel: PinRef, io: seq<bv8>, trace: seq<Event>) {
    /**
      The register file has all 64 I/O registers, the port is 0 or a port data
      register and the bit index is below 8, so `BIT(pin)` fits and `port`
      addresses a register. That the selection is moreover the default or a
      table pin is `Reachable`, kept by `StepKeepsReachable`.
     */
    predicate Valid() {
      |io| == IoSize && sel.bit < 8 && (sel.port == 0 || sel.port in Ports)
    }
  }

  /** The state when the loop is entered: `port = 0, pin = 0`, nothing sent yet. */
  function Initial(io: seq<bv8>): (m: Machine)
    requires |io| == IoSize
    ensures m.Valid() && m.sel == PinRef(0, 0) && m.io == io && m.trace == []
  {
    Machine(PinRef(0, 0), io, [])
  }

  /** One read-modify-write of the selected pin. */
  function WritePin(io: seq<bv8>, p: PinRef, high: bool): (r: seq<bv8>)
    requires p.port < |io| && p.bit < 8
    ensures |r| == |io|
    ensures forall a :: 0 <= a < |io| && a != p.port ==> r[a] == io[a]
  {
    io[p.port := WriteBit(io[p.port], p.bit, high)]
  }

  /** The echo: one byte if the IN endpoint is ready, otherwise nothing. */
  function Echo(b: Byte, ready: bool): (r: seq<Event>)
    ensures r != [] <==> ready
    ensures forall i :: 0 <= i < |r| ==> r[i] == SendByte(b)
    ensures |r| <= 1
  {
    if ready then [SendByte(b)] else []
  }

  /** One poll of the main loop; `chr < 0` means no byte was received. */
  function Step(m: Machine, chr: int, ready: bool): (r: Machine)
    requires m.Valid() && chr < 0x100
    ensures r.Valid()
  {
    if chr < 0 then m
    else
      var p := m.sel.port;
      match Classify(chr)
      case Select(q) =>
        Machine(q, m.io, m.trace + Echo(chr, ready))
      case Drive(high) =>
        var io1 := WritePin(m.io, m.sel, high);
        m.(io := io1, trace := m.trace + [Store(p, io1[p])] + Echo(chr, ready))
      case Pulse(first, ms) =>
        var io1 := WritePin(m.io, m.sel, first);
        var io2 := WritePin(io1, m.sel, !first);
        m.(io := io2, trace := m.trace + [Store(p, io1[p]), Delay(ms), Store(p, io2[p])] + Echo(chr, ready))
      case Help =>
        m.(trace := m.trace + if ready then [SendHelp] else [])
      case Unknown =>
        m.(trace := m.trace + Echo('?' as int, ready))
  }

  // ---------------------------------------------------------------------
  // One step

  /** A poll without a byte changes nothing: no selection, no register, no event. */
  lemma NoByteStep(m: Machine, chr: int, ready: bool)
    requires m.Valid() && chr < 0
    ensures Step(m, chr, ready) == m
  {
  }

  /** A selector sets the selection to its table entry, touches no register and is echoed. */
  lemma SelectorStep(m: Machine, chr: int, ready: bool)
    requires m.Valid() && chr < 0x100 && IsSelector(chr)
    ensures Lookup(chr).Some?
    ensures Step(m, chr, ready).sel == Lookup(chr).value
    ensures Step(m, chr, ready).io == m.io
    ensures Step(m, chr, ready).trace == m.trace + Echo(chr, ready)
  {
  }

  /**
    'H' sets and 'L' clears exactly bit `pin` of register `port`: every other
    bit of that register, every other register and the selection stay as they
    were; the write is recorded and the byte is echoed.
   */
  lemma DriveStep(m: Machine, high: bool, ready: bool)
    requires m.Valid()
    ensures var chr := if high then 'H' as int else 'L' as int;
      var r := Step(m, chr, ready);
      && r.sel == m.sel
      && TestBit(r.io[m.sel.port], m.sel.bit) == high
      && (forall i :: 0 <= i < 8 && i != m.sel.bit ==>
            (TestBit(r.io[m.sel.port], i) <==> TestBit(m.io[m.sel.port], i)))
      && (forall a :: 0 <= a < IoSize && a != m.sel.port ==> r.io[a] == m.io[a])
      && r.trace == m.trace + [Store(m.sel.port, r.io[m.sel.port])] + Echo(chr, ready)
  {
    WriteBitEffect(m.io[m.sel.port], m.sel.bit, high);
  }

  /** The level a pulse byte drives first, and how long it waits. */
  function PulseShape(chr: int): (s: (bool, nat))
    requires chr in {'t' as int, 'T' as int, 'u' as int, 'U' as int}
    ensures s.0 <==> chr in {'T' as int, 'U' as int}
    ensures s.1 == (if chr in {'t' as int, 'T' as int} then ShortPulseMs else LongPulseMs)
  {
    if chr == 't' as int then (false, ShortPulseMs)
    else if chr == 'T' as int then (true, ShortPulseMs)
    else if chr == 'u' as int then (false, LongPulseMs)
    else (true, LongPulseMs)
  }

  /**
    A pulse writes its first level, waits, then writes the opposite level, and
    echoes. Whatever the pin's prior level, the registers end as after 'H' (for
    't' and 'u') or as after 'L' (for 'T' and 'U'), and the selection is kept.
   */
  lemma PulseStep(m: Machine, chr: int, ready: bool)
    requires m.Valid() && chr in {'t' as int, 'T' as int, 'u' as int, 'U' as int}
    ensures var (first, ms) := PulseShape(chr);
      var r := Step(m, chr, ready);
      var p := m.sel.port;
      var v := m.io[p];
      && r.sel == m.sel
      && r.io == Step(m, if first then 'L' as int else 'H' as int, ready).io
      && r.trace == m.trace
           + [Store(p, WriteBit(v, m.sel.bit, first)), Delay(ms), Store(p, r.io[p])]
           + Echo(chr, ready)
  {
    var (first, ms) := PulseShape(chr);
    LastWriteWins(m.io[m.sel.port], m.sel.bit, first, !first);
  }

  /** Operation bytes never change the selection. */
  lemma OperationKeepsSelection(m: Machine, chr: int, ready: bool)
    requires m.Valid() && chr < 0x100 && !IsSelector(chr)
    ensures Step(m, chr, ready).sel == m.sel
  {
  }

  /** A byte outside the protocol changes no register and no selection and is answered with '?'. */
  lemma UnknownStep(m: Machine, chr: int, ready: bool)
    requires m.Valid() && 0 <= chr < 0x100 && !IsSelector(chr) && chr !in Operations
    ensures Step(m, chr, ready) == m.(trace := m.trace + Echo('?' as int, ready))
  {
  }

  /** '?' sends the help text when the endpoint is ready and nothing otherwise; it is never echoed. */
  lemma HelpStep(m: Machine, ready: bool)
    requires m.Valid()
    ensures Step(m, '?' as int, ready) == m.(trace := m.trace + if ready then [SendHelp] else [])
  {
  }

  /**
    Whether the IN endpoint is ready changes nothing but the reply: the
    selection, the registers and the register writes and delays are the same.
   */
  lemma ReadinessOnlyAffectsOutput(m: Machine, chr: int)
    requires m.Valid() && chr < 0x100
    ensures var busy := Step(m, chr, false);
      Step(m, chr, true) == busy.(trace := busy.trace + Reply(chr, true))
  {
    if chr >= 0 {
      match Classify(chr)
      case Select(_) =>
      case Drive(_) =>
      case Pulse(_, _) =>
      case Help =>
      case Unknown =>
    }
  }

  // ---------------------------------------------------------------------
  // What the host sees, and what the pins see

  /** The part of a trace sent to the host. */
  function Transmitted(t: seq<Event>): seq<Event>
  {
    if t == [] then []
    else Transmitted(t[..|t| - 1]) + if t[|t| - 1].SendByte? || t[|t| - 1].SendHelp? then [t[|t| - 1]] else []
  }

  /** `Transmitted` is a filter: it keeps only sends, and keeps a trace of sends whole. */
  lemma {:induction false} TransmittedOnlySends(t: seq<Event>)
    ensures |Transmitted(t)| <= |t|
    ensures forall i :: 0 <= i < |Transmitted(t)| ==> Transmitted(t)[i].SendByte? || Transmitted(t)[i].SendHelp?
    ensures (forall i :: 0 <= i < |t| ==> t[i].SendByte? || t[i].SendHelp?) ==> Transmitted(t) == t
    decreases |t|
  {
    if t != [] {
      var init := t[..|t| - 1];
      TransmittedOnlySends(init);
      if forall i :: 0 <= i < |t| ==> t[i].SendByte? || t[i].SendHelp? {
        assert forall i :: 0 <= i < |init| ==> init[i] == t[i];
        assert init + [t[|t| - 1]] == t;
      }
    }
  }

  lemma {:induction false} TransmittedAppend(a: seq<Event>, b: seq<Event>)
    ensures Transmitted(a + b) == Transmitted(a) + Transmitted(b)
    decreases |b|
  {
    if b == [] {
      assert a + b == a;
    } else {
      var b' := b[..|b| - 1];
      assert (a + b)[..|a + b| - 1] == a + b';
      TransmittedAppend(a, b');
    }
  }

  /** Register writes and delays send nothing to the host. */
  lemma {:induction false} NothingTransmitted(t: seq<Event>)
    requires forall i :: 0 <= i < |t| ==> t[i].Store? || t[i].Delay?
    ensures Transmitted(t) == []
    decreases |t|
  {
    if t != [] {
      NothingTransmitted(t[..|t| - 1]);
    }
  }

  /** The echo value: the byte itself for a command byte, '?' for any other. */
  function EchoValue(chr: Byte): (r: Byte)
    ensures r == chr <==> IsSelector(chr) || chr in Operations
    ensures r != chr ==> r == '?' as int
  {
    if IsSelector(chr) || chr in Operations then chr else '?' as int
  }

  /**
    The response to one poll, from the echo rule alone: nothing without a byte
    or with the endpoint busy, the help text for '?', else one echo byte.
   */
  function Reply(chr: int, ready: bool): (r: seq<Event>)
    requires chr < 0x100
    ensures |r| <= 1
    ensures r != [] <==> 0 <= chr && ready
  {
    if chr < 0 || !ready then []
    else if chr == '?' as int then [SendHelp]
    else [SendByte(EchoValue(chr))]
  }

  /** One step appends register writes and delays, then exactly its reply. */
  lemma StepSplit(m: Machine, chr: int, ready: bool) returns (hw: seq<Event>)
    requires m.Valid() && chr < 0x100
    ensures Step(m, chr, ready).trace == m.trace + hw + Reply(chr, ready)
    ensures forall i :: 0 <= i < |hw| ==> hw[i].Store? || hw[i].Delay?
    ensures chr < 0 ==> hw == []
  {
    var r := Step(m, chr, ready);
    hw := [];
    if chr >= 0 {
      var p := m.sel.port;
      match Classify(chr)
      case Select(_) =>
        assert r.trace == m.trace + hw + Echo(chr, ready);
      case Drive(high) =>
        hw := [Store(p, r.io[p])];
      case Pulse(first, ms) =>
        hw := [Store(p, WritePin(m.io, m.sel, first)[p]), Delay(ms), Store(p, r.io[p])];
      case Help =>
        assert r.trace == m.trace + hw + Reply(chr, ready);
      case Unknown =>
        assert r.trace == m.trace + hw + Echo('?' as int, ready);
    } else {
      assert r.trace == m.trace + hw;
    }
  }

  /** Each poll sends exactly its reply to the host. */
  lemma StepTransmits(m: Machine, chr: int, ready: bool)
    requires m.Valid() && chr < 0x100
    ensures Transmitted(Step(m, chr, ready).trace) == Transmitted(m.trace) + Reply(chr, ready)
  {
    var hw := StepSplit(m, chr, ready);
    var reply := Reply(chr, ready);
    TransmittedAppend(m.trace + hw, reply);
    TransmittedAppend(m.trace, hw);
    NothingTransmitted(hw);
    if reply != [] {
      assert reply == [reply[0]];
      assert Transmitted(reply) == Transmitted([]) + [reply[0]];
    }
  }

  // ---------------------------------------------------------------------
  // Runs of the main loop

  /** One iteration's inputs: the received value and whether the IN endpoint is ready. */
  datatype Poll = Poll(chr: int, inReady: bool)

  /** `CDC_Device_ReceiveByte` yields a byte or a negative value. */
  predicate Received(ps: seq<Poll>) {
    forall i :: 0 <= i < |ps| ==> ps[i].chr < 0x100
  }

  /** The state after polling `ps` in order. */
  function Run(m: Machine, ps: seq<Poll>): (r: Machine)
    requires m.Valid() && Received(ps)
    ensures r.Valid()
    decreases |ps|
  {
    if ps == [] then m
    else
      var last := ps[|ps| - 1];
      Step(Run(m, ps[..|ps| - 1]), last.chr, last.inReady)
  }

  /** The replies to `ps`, concatenated. */
  function Replies(ps: seq<Poll>): seq<Event>
    requires Received(ps)
  {
    if ps == [] then []
    else Replies(ps[..|ps| - 1]) + Reply(ps[|ps| - 1].chr, ps[|ps| - 1].inReady)
  }

  /** The host receives exactly the replies of the polls, in order. */
  lemma {:induction false} RunTransmits(m: Machine, ps: seq<Poll>)
    requires m.Valid() && Received(ps)
    ensures Transmitted(Run(m, ps).trace) == Transmitted(m.trace) + Replies(ps)
    decreases |ps|
  {
    if ps != [] {
      var init := ps[..|ps| - 1];
      var last := ps[|ps| - 1];
      var before := Run(m, init);
      var reply := Reply(last.chr, last.inReady);
      RunTransmits(m, init);
      StepTransmits(before, last.chr, last.inReady);
      calc {
        Transmitted(Run(m, ps).trace);
        Transmitted(Step(before, last.chr, last.inReady).trace);
        Transmitted(before.trace) + reply;
        (Transmitted(m.trace) + Replies(init)) + reply;
        Transmitted(m.trace) + (Replies(init) + reply);
        Transmitted(m.trace) + Replies(ps);
      }
    }
  }

  /** Every poll keeps the selection the power-on default or a pin of the table. */
  lemma StepKeepsReachable(m: Machine, chr: int, ready: bool)
    requires m.Valid() && chr < 0x100 && Reachable(m.sel)
    ensures Reachable(Step(m, chr, ready).sel)
  {
    if chr >= 0 && IsSelector(chr) {
      LookupIdentifierInverse(chr, Lookup(chr).value);
    }
  }

  /** Every run keeps the selection the power-on default or a pin of the table. */
  lemma {:induction false} RunKeepsReachable(m: Machine, ps: seq<Poll>)
    requires m.Valid() && Received(ps) && Reachable(m.sel)
    ensures Reachable(Run(m, ps).sel)
    decreases |ps|
  {
    if ps != [] {
      var init := ps[..|ps| - 1];
      var last := ps[|ps| - 1];
      RunKeepsReachable(m, init);
      StepKeepsReachable(Run(m, init), last.chr, last.inReady);
    }
  }

  /** From entering the loop on, the selection is always (0, 0) or a pin of the table. */
  lemma SelectionAlwaysReachable(io: seq<bv8>, ps: seq<Poll>)
    requires |io| == IoSize && Received(ps)
    ensures Reachable(Run(Initial(io), ps).sel)
  {
    RunKeepsReachable(Initial(io), ps);
  }

  /** Without a selector byte the selection never changes. */
  lemma {:induction false} SelectionPersists(m: Machine, ps: seq<Poll>)
    requires m.Valid() && Received(ps)
    requires forall i :: 0 <= i < |ps| ==> !IsSelector(ps[i].chr)
    ensures Run(m, ps).sel == m.sel
    decreases |ps|
  {
    if ps != [] {
      var init := ps[..|ps| - 1];
      var last := ps[|ps| - 1];
      SelectionPersists(m, init);
      OperationKeepsSelection(Run(m, init), last.chr, last.inReady);
    }
  }

  /**
    Without a selector byte, a run acts on the selected pin only: every other
    register and every other bit of the selected register keep their value.
   */
  lemma {:induction false} RunTouchesOnlySelectedPin(m: Machine, ps: seq<Poll>)
    requires m.Valid() && Received(ps)
    requires forall i :: 0 <= i < |ps| ==> !IsSelector(ps[i].chr)
    ensures forall a :: 0 <= a < IoSize && a != m.sel.port ==> Run(m, ps).io[a] == m.io[a]
    ensures forall i :: 0 <= i < 8 && i != m.sel.bit ==>
              (TestBit(Run(m, ps).io[m.sel.port], i) <==> TestBit(m.io[m.sel.port], i))
    decreases |ps|
  {
    if ps != [] {
      var init := ps[..|ps| - 1];
      var last := ps[|ps| - 1];
      RunTouchesOnlySelectedPin(m, init);
      SelectionPersists(m, init);
      StepTouchesOnlySelectedPin(Run(m, init), last.chr, last.inReady);
    }
  }

  /** One step acts on the selected pin only, and on nothing for a selector byte. */
  lemma StepTouchesOnlySelectedPin(m: Machine, chr: int, ready: bool)
    requires m.Valid() && chr < 0x100
    ensures forall a :: 0 <= a < IoSize && a != m.sel.port ==> Step(m, chr, ready).io[a] == m.io[a]
    ensures forall i :: 0 <= i < 8 && i != m.sel.bit ==>
              (TestBit(Step(m, chr, ready).io[m.sel.port], i) <==> TestBit(m.io[m.sel.port], i))
  {
    var p := m.sel.port;
    var v := m.io[p];
    if chr >= 0 {
      match Classify(chr)
      case Drive(high) =>
        WriteBitEffect(v, m.sel.bit, high);
      case Pulse(first, _) =>
        WriteBitEffect(v, m.sel.bit, first);
        WriteBitEffect(WriteBit(v, m.sel.bit, first), m.sel.bit, !first);
      case _ =>
    }
  }

  // ---------------------------------------------------------------------
  // Scenarios

  /** 'H' twice: the pin is high after each, the second write changes nothing, two echoes are sent. */
  lemma DriveHighTwice(m: Machine)
    requires m.Valid()
    ensures var once := Step(m, 'H' as int, true);
      var twice := Step(once, 'H' as int, true);
      && TestBit(once.io[m.sel.port], m.sel.bit)
      && twice.io == once.io
      && Transmitted(twice.trace) == Transmitted(m.trace) + [SendByte('H' as int), SendByte('H' as int)]
  {
    var once := Step(m, 'H' as int, true);
    assert Classify('H' as int) == Drive(true);
    DriveStep(m, true, true);
    DriveHighAgain(once);
    StepTransmits(m, 'H' as int, true);
    StepTransmits(once, 'H' as int, true);
  }

  /** 'H' on a pin that is already high leaves the registers and the selection as they are. */
  lemma DriveHighAgain(m: Machine)
    requires m.Valid() && TestBit(m.io[m.sel.port], m.sel.bit)
    ensures Step(m, 'H' as int, true).io == m.io
    ensures Step(m, 'H' as int, true).sel == m.sel
  {
    assert Classify('H' as int) == Drive(true);
    var p := m.sel.port;
    WriteSameLevel(m.io[p], m.sel.bit, true);
    assert m.io[p := m.io[p]] == m.io;
  }

  /** Before any selector, 'H' drives bit 0 of I/O register 0. */
  lemma DefaultSelectionDrive(io: seq<bv8>, ready: bool)
    requires |io| == IoSize
    ensures TestBit(Step(Initial(io), 'H' as int, ready).io[0], 0)
  {
    DriveStep(Initial(io), true, ready);
  }

  /**
    "3" then "T" with the endpoint always ready: PD2 is driven high, 100 ms
    pass, PD2 is driven low; the host receives '3' then 'T'.
   */
  lemma SelectThenPulse(io: seq<bv8>)
    requires |io| == IoSize
    ensures var r := Run(Initial(io), [Poll('3' as int, true), Poll('T' as int, true)]);
      var high := SetBit(io[PORTD], 2);
      && r.sel == PinRef(PORTD, 2)
      && r.trace == [SendByte('3' as int), Store(PORTD, high), Delay(100), Store(PORTD, ClearBit(high, 2)), SendByte('T' as int)]
      && !TestBit(r.io[PORTD], 2)
  {
    var ps := [Poll('3' as int, true), Poll('T' as int, true)];
    assert ps[..1] == [Poll('3' as int, true)];
    assert ps[..1][..0] == [];
    var m1 := Step(Initial(io), '3' as int, true);
    assert m1 == Machine(PinRef(PORTD, 2), io, [SendByte('3' as int)]);
    assert Run(Initial(io), ps[..1]) == m1;
    assert Run(Initial(io), ps) == Step(m1, 'T' as int, true);
    PulseStep(m1, 'T' as int, true);
    WriteBitEffect(SetBit(io[PORTD], 2), 2, false);
  }
}
