/**
  The command loop of `main` in the USBtoSerial firmware, in place.

  `port` and `pin` are the loop's selection variables, `io` is the I/O
  register file the firmware writes through `_SFR_IO8`, and `trace`
  records what leaves the device: register writes, delays and bytes or
  text sent to the host. Each method is proved to do what the matching
  function of `Protocol` describes.
 */
module CommandLoop {
  import opened Bits
  import opened PinTable
  import opened Protocol

  /**
    The GPIO statements of `SetupHardware`, run on the register file before
    the loop starts.
   */
  method SetupGpio(io: array<bv8>)
    requires io.Length == IoSize
    modifies io
    ensures io[..] == GpioInit(old(io[..]))
  {
    io[PORTB] := 0;
    io[PORTC] := io[PORTC] & !(Bit(6) | Bit(7));
    io[PORTD] := io[PORTD] & 0;
    io[PORTE] := io[PORTE] & !Bit(6);
    io[PORTF] := io[PORTF] & (Bit(2) | Bit(3));
  }

  class Interpreter {
    var port: nat
    var pin: nat
    const io: array<bv8>
    var trace: seq<Event>

    /** The port is 0 or a port data register and the bit index is below 8, so every register access is in range. */
    ghost predicate Valid()
      reads this
    {
      io.Length == IoSize && pin < 8 && (port == 0 || port in Ports)
    }

    /** The interpreter's state as a value. */
    ghost function View(): (m: Machine)
      reads this, io
      requires Valid()
      ensures m.Valid()
    {
      Machine(PinRef(port, pin), io[..], trace)
    }

    /** Entering `main`: `port = 0, pin = 0` on the given register file. */
    constructor (io: array<bv8>)
      requires io.Length == IoSize
      ensures Valid() && this.io == io
      ensures View() == Initial(io[..])
    {
      this.io := io;
      port, pin := 0, 0;
      trace := [];
    }

    /** `_SFR_IO8(port) |= BIT(pin)` or `_SFR_IO8(port) &= ~BIT(pin)`. */
    method DrivePin(high: bool)
      requires Valid()
      modifies io, this`trace
      ensures Valid()
      ensures io[..] == WritePin(old(io[..]), PinRef(port, pin), high)
      ensures trace == old(trace) + [Store(port, io[port])]
    {
      if high {
        io[port] := SetBit(io[port], pin);
      } else {
        io[port] := ClearBit(io[port], pin);
      }
      trace := trace + [Store(port, io[port])];
    }

    /** `Delay_MS(ms)`: only its place in the trace is modelled. */
    method DelayMs(ms: nat)
      modifies this`trace
      ensures trace == old(trace) + [Delay(ms)]
    {
      trace := trace + [Delay(ms)];
    }

    /** A two-phase pulse: drive `first`, `Delay_MS(ms)`, drive `!first`. */
    method PulsePin(first: bool, ms: nat)
      requires Valid()
      modifies io, this`trace
      ensures Valid()
      ensures io[..] == WritePin(WritePin(old(io[..]), PinRef(port, pin), first), PinRef(port, pin), !first)
      ensures trace == old(trace)
        + [Store(port, WritePin(old(io[..]), PinRef(port, pin), first)[port]), Delay(ms), Store(port, io[port])]
    {
      DrivePin(first);
      DelayMs(ms);
      DrivePin(!first);
    }

    /** One iteration of the `for (;;)` loop: `chr` is what was received, `inReady` the endpoint's state. */
    method Step(chr: int, inReady: bool)
      requires Valid() && chr < 0x100
      modifies this, io
      ensures Valid()
      ensures View() == Protocol.Step(old(View()), chr, inReady)
    {
      if chr >= 0 {
        var echo: Byte := chr;
        var entry := Lookup(chr);
        if entry.Some? {
          port, pin := entry.value.port, entry.value.bit;
          assert Classify(chr) == Select(entry.value);
        } else if chr == 'H' as int {
          DrivePin(true);
          assert Classify(chr) == Drive(true);
        } else if chr == 'L' as int {
          DrivePin(false);
          assert Classify(chr) == Drive(false);
        } else if chr == 't' as int {
          PulsePin(false, ShortPulseMs);
          assert Classify(chr) == Pulse(false, ShortPulseMs);
        } else if chr == 'T' as int {
          PulsePin(true, ShortPulseMs);
          assert Classify(chr) == Pulse(true, ShortPulseMs);
        } else if chr == 'u' as int {
          PulsePin(false, LongPulseMs);
          assert Classify(chr) == Pulse(false, LongPulseMs);
        } else if chr == 'U' as int {
          PulsePin(true, LongPulseMs);
          assert Classify(chr) == Pulse(true, LongPulseMs);
        } else if chr == '?' as int {
          if inReady {
            trace := trace + [SendHelp];
          }
          assert Classify(chr) == Help;
          return;
        } else {
          echo := '?' as int;
          assert Classify(chr) == Unknown;
        }
        if inReady {
          trace := trace + [SendByte(echo)];
        }
      }
    }

    /** A bounded stretch of the endless loop: one `Step` per poll, in order. */
    method Serve(polls: seq<Poll>)
      requires Valid() && Received(polls)
      modifies this, io
      ensures Valid()
      ensures View() == Run(old(View()), polls)
    {
      var i := 0;
      while i < |polls|
        invariant 0 <= i <= |polls| && Valid()
        invariant View() == Run(old(View()), polls[..i])
      {
        Step(polls[i].chr, polls[i].inReady);
        assert polls[..i + 1][..i] == polls[..i];
        i := i + 1;
      }
      assert polls[..i] == polls;
    }
  }
}
