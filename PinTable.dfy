/**
  The Arduino Micro pin table of the USBtoSerial remote-GPIO firmware.

  A selector byte ('0'..'9', 'a'..'o') names one physical pin: an I/O
  register address (one of the five PORTx data registers of the
  ATmega32U4) and a bit index within it. The help text printed by the
  firmware draws the same table the other way round, from pin to
  identifier; both directions are given here and proved to agree.
 */
module PinTable {
  import opened Bits

  datatype Option<T> = None | Some(value: T)

  /** I/O-space addresses of the port data registers, as used with `_SFR_IO8`. */
  const PORTB: nat := 0x05
  const PORTC: nat := 0x08
  const PORTD: nat := 0x0b
  const PORTE: nat := 0x0e
  const PORTF: nat := 0x11

  const Ports: set<nat> := {PORTB, PORTC, PORTD, PORTE, PORTF}

  /** Number of registers reachable through `_SFR_IO8` (the AVR I/O space). */
  const IoSize: nat := 0x40

  /** A physical pin: register address and bit index. */
  datatype PinRef = PinRef(port: nat, bit: nat)

  /** The byte values that select a pin. */
  predicate IsSelector(chr: int) {
    ('0' as int <= chr <= '9' as int) || ('a' as int <= chr <= 'o' as int)
  }

  /** The `ARDUINO_MICRO_PINMUX` cases of the command switch. */
  function Lookup(chr: int): (r: Option<PinRef>)
    ensures r.Some? <==> IsSelector(chr)
    ensures r.Some? ==> r.value.port in Ports && r.value.bit < 8
  {
    if chr == '0' as int then Some(PinRef(PORTB, 2))
    else if chr == '1' as int then Some(PinRef(PORTB, 0))
    else if chr == '2' as int then Some(PinRef(PORTD, 3))
    else if chr == '3' as int then Some(PinRef(PORTD, 2))
    else if chr == '4' as int then Some(PinRef(PORTD, 1))
    else if chr == '5' as int then Some(PinRef(PORTD, 0))
    else if chr == '6' as int then Some(PinRef(PORTD, 4))
    else if chr == '7' as int then Some(PinRef(PORTC, 6))
    else if chr == '8' as int then Some(PinRef(PORTD, 7))
    else if chr == '9' as int then Some(PinRef(PORTE, 6))
    else if chr == 'a' as int then Some(PinRef(PORTB, 4))
    else if chr == 'b' as int then Some(PinRef(PORTB, 5))
    else if chr == 'c' as int then Some(PinRef(PORTB, 6))
    else if chr == 'd' as int then Some(PinRef(PORTB, 7))
    else if chr == 'e' as int then Some(PinRef(PORTD, 6))
    else if chr == 'f' as int then Some(PinRef(PORTB, 1))
    else if chr == 'g' as int then Some(PinRef(PORTB, 3))
    else if chr == 'h' as int then Some(PinRef(PORTF, 0))
    else if chr == 'i' as int then Some(PinRef(PORTF, 1))
    else if chr == 'j' as int then Some(PinRef(PORTF, 4))
    else if chr == 'k' as int then Some(PinRef(PORTF, 5))
    else if chr == 'l' as int then Some(PinRef(PORTF, 6))
    else if chr == 'm' as int then Some(PinRef(PORTF, 7))
    else if chr == 'n' as int then Some(PinRef(PORTC, 7))
    else if chr == 'o' as int then Some(PinRef(PORTD, 5))
    else None
  }

  /**
    The pin diagram of the help text read from pin to identifier: the
    identifier that selects pin `p`, if any. Written port by port, independently
    of `Lookup`.
   */
  function Identifier(p: PinRef): Option<int> {
    if p.port == PORTB then
      if p.bit == 0 then Some('1' as int)
      else if p.bit == 1 then Some('f' as int)
      else if p.bit == 2 then Some('0' as int)
      else if p.bit == 3 then Some('g' as int)
      else if p.bit == 4 then Some('a' as int)
      else if p.bit == 5 then Some('b' as int)
      else if p.bit == 6 then Some('c' as int)
      else if p.bit == 7 then Some('d' as int)
      else None
    else if p.port == PORTC then
      if p.bit == 6 then Some('7' as int)
      else if p.bit == 7 then Some('n' as int)
      else None
    else if p.port == PORTD then
      if p.bit == 0 then Some('5' as int)
      else if p.bit == 1 then Some('4' as int)
      else if p.bit == 2 then Some('3' as int)
      else if p.bit == 3 then Some('2' as int)
      else if p.bit == 4 then Some('6' as int)
      else if p.bit == 5 then Some('o' as int)
      else if p.bit == 6 then Some('e' as int)
      else if p.bit == 7 then Some('8' as int)
      else None
    else if p.port == PORTE then
      if p.bit == 6 then Some('9' as int) else None
    else if p.port == PORTF then
      if p.bit == 0 then Some('h' as int)
      else if p.bit == 1 then Some('i' as int)
      else if p.bit == 4 then Some('j' as int)
      else if p.bit == 5 then Some('k' as int)
      else if p.bit == 6 then Some('l' as int)
      else if p.bit == 7 then Some('m' as int)
      else None
    else None
  }

  /** The table and the diagram agree in both directions. */
  lemma LookupIdentifierInverse(chr: int, p: PinRef)
    ensures Lookup(chr) == Some(p) <==> Identifier(p) == Some(chr)
  {
  }

  /** No two selectors name the same physical pin. */
  lemma LookupInjective(c1: int, c2: int)
    requires Lookup(c1).Some? && Lookup(c1) == Lookup(c2)
    ensures c1 == c2
  {
    LookupIdentifierInverse(c1, Lookup(c1).value);
    LookupIdentifierInverse(c2, Lookup(c1).value);
  }

  /** The power-on selection `port = 0, pin = 0` is not a pin of the table. */
  lemma DefaultIsNoTablePin(chr: int)
    ensures Lookup(chr) != Some(PinRef(0, 0))
  {
  }

  /** A selection the loop can hold: the power-on default (0, 0) or a pin of the table. */
  predicate Reachable(s: PinRef) {
    s == PinRef(0, 0) || Identifier(s).Some?
  }

  /** A reachable selection addresses the default register or a port data register, with a bit index below 8. */
  lemma ReachableInRange(s: PinRef)
    requires Reachable(s)
    ensures s.bit < 8 && (s.port == 0 || s.port in Ports)
  {
  }

  /**
    The GPIO part of `SetupHardware`: the data registers of the table's pins
    are brought low, one statement per port.
   */
  function GpioInit(io: seq<bv8>): (r: seq<bv8>)
    requires |io| == IoSize
    ensures |r| == IoSize
  {
    io[PORTB := 0]
      [PORTC := io[PORTC] & !(Bit(6) | Bit(7))]
      [PORTD := io[PORTD] & 0]
      [PORTE := io[PORTE] & !Bit(6)]
      [PORTF := io[PORTF] & (Bit(2) | Bit(3))]
  }

  /**
    After the GPIO initialisation a port bit reads high exactly when it read
    high before and no selector names it: every selectable pin starts low and
    the pins outside the table keep their level.
   */
  lemma GpioInitClearsExactlyTablePins(io: seq<bv8>, p: PinRef)
    requires |io| == IoSize && p.port in Ports && p.bit < 8
    ensures TestBit(GpioInit(io)[p.port], p.bit) <==> Identifier(p).None? && TestBit(io[p.port], p.bit)
  {
  }

  /** The GPIO initialisation writes only the five port data registers. */
  lemma GpioInitTouchesOnlyPorts(io: seq<bv8>, a: nat)
    requires |io| == IoSize && a < IoSize && a !in Ports
    ensures GpioInit(io)[a] == io[a]
  {
  }
}
