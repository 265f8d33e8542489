# USBtoSerial remote GPIO: command interpreter

This project models the command interpreter in the main loop of the LUFA
`USBtoSerial` project as adapted for the Arduino Micro. The firmware makes a
USB virtual serial port into a one-pin remote GPIO. The host sends single
bytes:

- a selector (`'0'`..`'9'`, `'a'`..`'o'`) chooses a pin (a port data register and a bit in it);
- `'H'` and `'L'` drive the selected pin high or low by read-modify-write on that register;
- `'t'`, `'T'`, `'u'` and `'U'` pulse it: one level, a blocking delay of 100 or 1000 ms, the other level;
- `'?'` sends the help text;
- any other byte is answered with `'?'`.

Every byte except `'?'` gets one reply byte when the IN endpoint is ready:
the byte itself, or `'?'` for an unknown byte. When the endpoint is not
ready, the reply or help text is dropped silently.

Modules:

- `Bits` (Bits.dfy): `BIT(n)`, `|= BIT(n)` and `&= ~BIT(n)` on `bv8` registers, and what each write does to each of the eight bits.
- `PinTable` (PinTable.dfy): the port addresses, the selector table `Lookup`, and the help text's pin diagram read back as `Identifier`. The two are proved to be inverse. It also holds the GPIO masks of `SetupHardware` as `GpioInit`.
- `Protocol` (Protocol.dfy): the command classification, the trace of observable events (`Store` for a register write, `Delay`, `SendByte`, `SendHelp`), and one loop iteration `Step` as a function on a `Machine`. A `Machine` holds the selection, the 64 I/O registers and the trace. `Run` gives a finite run of polls. The module also holds the lemmas about one step and about runs.
- `CommandLoop` (CommandLoop.dfy): the imperative form. The class `Interpreter` has the fields `port`, `pin`, the register file `io` (an `array<bv8>`) and `trace`. Its `Step` performs one iteration in place and is proved equal to `Protocol.Step`. `Serve` loops over a finite sequence of polls and is proved equal to `Protocol.Run`. `SetupGpio` performs the GPIO initialisation in place and is proved equal to `GpioInit`.

Inputs from outside the core are parameters. The value returned by
`CDC_Device_ReceiveByte` is an `int` `chr`: negative means no byte was
received, otherwise it is a byte. The result of `Endpoint_IsINReady` is a
`bool` `inReady`.

The selection starts at `port = 0, pin = 0`. Address 0 is none of the five port data
registers, and no selector maps to it (`PinTable.DefaultIsNoTablePin`). So an
`'H'` sent before any selector sets bit 0 of I/O register 0 in the model
(`Protocol.DefaultSelectionDrive`). The model keeps this behaviour as written.

## Model

| member | source | states |
|---|---|---|
| `PinTable.Lookup` | Projects/USBtoSerial/USBtoSerial.c:142-168 | A byte has an entry exactly when it is `'0'`..`'9'` or `'a'`..`'o'`. Every entry's port is one of 0x05/0x08/0x0b/0x0e/0x11 and its bit index is below 8, so `BIT(pin)` fits in the register. |
| `PinTable.LookupIdentifierInverse` | Projects/USBtoSerial/USBtoSerial.c:142-168 | The switch's table and the pin diagram of the help text (lines 90-110), written independently, agree in both directions. |
| `PinTable.LookupInjective` | Projects/USBtoSerial/USBtoSerial.c:142-168 | No two selectors name the same physical pin. |
| `PinTable.ReachableInRange` | Projects/USBtoSerial/USBtoSerial.c:128-168 | A selection that is (0, 0) or a table pin has port 0 or a port data register, and a bit index below 8. |
| `PinTable.DefaultIsNoTablePin` | Projects/USBtoSerial/USBtoSerial.c:128 | The initial selection (0, 0) is not the entry of any selector. |
| `PinTable.GpioInit` | Projects/USBtoSerial/USBtoSerial.c:228-232 | The five GPIO statements of `SetupHardware` as a function on the register file. Its own contract says only that the register file keeps its size. Its meaning is carried by `GpioInitClearsExactlyTablePins` and `GpioInitTouchesOnlyPorts`. |
| `PinTable.GpioInitClearsExactlyTablePins` | Projects/USBtoSerial/USBtoSerial.c:227-232 | After the GPIO initialisation, a bit of a port register is high exactly when no selector names it and it was high before. Every selectable pin starts low; PF2 and PF3 keep their level. |
| `PinTable.GpioInitTouchesOnlyPorts` | Projects/USBtoSerial/USBtoSerial.c:228-232 | The initialisation changes no register other than the five port data registers. |
| `Bits.BitIsShift` | Projects/USBtoSerial/USBtoSerial.c:82 | The mask used by the model is `1 << n` for every bit index below 8. |
| `Bits.BitIsOneHot` | Projects/USBtoSerial/USBtoSerial.c:82 | `BIT(n)` has bit `n` set and no other bit. |
| `Bits.SetBit` | Projects/USBtoSerial/USBtoSerial.c:171 | `v \| BIT(n)` has bit `n` set and every other bit as in `v`. |
| `Bits.ClearBit` | Projects/USBtoSerial/USBtoSerial.c:174 | `v & ~BIT(n)` has bit `n` clear and every other bit as in `v`. |
| `Bits.WriteBitEffect` | Projects/USBtoSerial/USBtoSerial.c:171-174 | `\|= BIT(pin)` makes bit `pin` 1 and `&= ~BIT(pin)` makes it 0. The other seven bits are unchanged. |
| `Bits.LastWriteWins` | Projects/USBtoSerial/USBtoSerial.c:176-195 | Two writes to the same bit leave the register as the second write alone would. |
| `Bits.WriteSameLevel` | Projects/USBtoSerial/USBtoSerial.c:171 | Writing the level a bit already has leaves the register unchanged. |
| `Protocol.Classify` | Projects/USBtoSerial/USBtoSerial.c:141-203 | Selectors take priority and carry their table entry. A byte is Unknown exactly when it is neither a selector nor one of `H L t T u U ?`. |
| `Protocol.Initial` | Projects/USBtoSerial/USBtoSerial.c:128 | The loop starts with selection (0, 0), the given registers and an empty trace. |
| `Protocol.WritePin` | Projects/USBtoSerial/USBtoSerial.c:171-174 | One read-modify-write of `_SFR_IO8(port)`: no other register changes. What happens to the bits of the written register is stated by `Bits.WriteBitEffect`, since the written value is `WriteBit` of the old one. |
| `Protocol.Echo` | Projects/USBtoSerial/USBtoSerial.c:206-207 | The echo is one `SendByte` of the given byte when the endpoint is ready and nothing when it is busy. |
| `Protocol.EchoValue` | Projects/USBtoSerial/USBtoSerial.c:200-207 | The echoed value equals the received byte exactly when that byte is a selector or an operation; otherwise it is `'?'`. |
| `Protocol.Step` | Projects/USBtoSerial/USBtoSerial.c:140-207 | One iteration keeps the invariant that the port is 0 or a port data register and the bit index is below 8. That the selection stays the default or a table pin is `StepKeepsReachable`. |
| `Protocol.NoByteStep` | Projects/USBtoSerial/USBtoSerial.c:137-140 | A poll without a received byte (`chr < 0`) leaves the whole state unchanged: selection, registers and trace. |
| `Protocol.SelectorStep` | Projects/USBtoSerial/USBtoSerial.c:142-168 | A selector sets the selection to its table entry, leaves every register unchanged, and echoes the same byte when ready. |
| `Protocol.DriveStep` | Projects/USBtoSerial/USBtoSerial.c:170-175 | `'H'` sets and `'L'` clears exactly bit `pin` of register `port`. The other bits, the other registers and the selection are unchanged. One register write is recorded, followed by the echo. |
| `Protocol.PulseStep` | Projects/USBtoSerial/USBtoSerial.c:176-195 | `t`/`u` write low, delay 100/1000 ms, write high. `T`/`U` write high, delay, write low. The final registers equal those after `'H'` (for `t`, `u`) or after `'L'` (for `T`, `U`), whatever the prior level. The selection is kept. |
| `Protocol.OperationKeepsSelection` | Projects/USBtoSerial/USBtoSerial.c:170-203 | Every byte that is not a selector leaves `port` and `pin` unchanged. |
| `Protocol.UnknownStep` | Projects/USBtoSerial/USBtoSerial.c:200-207 | A byte outside the protocol changes no register and no selection. Its only effect is a `'?'` echo when ready. |
| `Protocol.HelpStep` | Projects/USBtoSerial/USBtoSerial.c:196-199 | `'?'` appends the help text when ready and nothing otherwise. It never appends an echo byte. |
| `Protocol.ReadinessOnlyAffectsOutput` | Projects/USBtoSerial/USBtoSerial.c:196-207 | With the endpoint ready, a step ends exactly as with it busy, plus the reply appended to the trace. Readiness never changes the selection, the registers or the writes and delays. |
| `Protocol.StepSplit` | Projects/USBtoSerial/USBtoSerial.c:140-207 | One iteration appends register writes and delays, then exactly its reply. Without a received byte it appends no write and no delay. |
| `Protocol.Reply` | Projects/USBtoSerial/USBtoSerial.c:196-207 | The reply to one poll is non-empty exactly when a byte was received and the endpoint is ready. It is at most one event. |
| `Protocol.TransmittedOnlySends` | Projects/USBtoSerial/USBtoSerial.c:196-207 | The host-visible part of a trace holds only sent bytes and help texts, is no longer than the trace, and is the whole trace when the trace holds only sends. |
| `Protocol.StepTransmits` | Projects/USBtoSerial/USBtoSerial.c:196-207 | What one iteration sends to the host is exactly its reply: nothing without a byte or when the endpoint is busy; the help text for `'?'`; otherwise one byte, the received byte or `'?'` for an unknown one. |
| `Protocol.Run` | Projects/USBtoSerial/USBtoSerial.c:135-212 | A run of polls keeps the invariant that the port is 0 or a port data register and the bit index is below 8. That the selection stays the default or a table pin is `RunKeepsReachable`. |
| `Protocol.StepKeepsReachable` | Projects/USBtoSerial/USBtoSerial.c:128-168 | If the selection is (0, 0) or a pin of the table, it still is after one iteration: `port` and `pin` are written only by the initialisation and by the selector cases. |
| `Protocol.RunKeepsReachable` | Projects/USBtoSerial/USBtoSerial.c:128-212 | The same over any run of polls. |
| `Protocol.SelectionAlwaysReachable` | Projects/USBtoSerial/USBtoSerial.c:128-212 | From entering the loop, after any run of polls the selection is (0, 0) or a pin of the table. |
| `Protocol.RunTransmits` | Projects/USBtoSerial/USBtoSerial.c:135-212 | Over a run, the host receives exactly the replies of the polls, in order. |
| `Protocol.SelectionPersists` | Projects/USBtoSerial/USBtoSerial.c:170-203 | With no selector byte in a run, the selection never changes. |
| `Protocol.StepTouchesOnlySelectedPin` | Projects/USBtoSerial/USBtoSerial.c:142-203 | One iteration changes no register other than the selected one, and no other bit of the selected one. |
| `Protocol.RunTouchesOnlySelectedPin` | Projects/USBtoSerial/USBtoSerial.c:170-195 | With no selector byte in a run, no register other than the selected one changes, and no other bit of the selected one. |
| `Protocol.DriveHighTwice` | Projects/USBtoSerial/USBtoSerial.c:170-172 | Two `'H'` bytes leave the pin high after each. The second changes nothing, and two echo bytes are sent. |
| `Protocol.DriveHighAgain` | Projects/USBtoSerial/USBtoSerial.c:170-172 | `'H'` on a pin that is already high changes no register and not the selection. |
| `Protocol.DefaultSelectionDrive` | Projects/USBtoSerial/USBtoSerial.c:128 | Before any selector, `'H'` drives bit 0 of I/O register 0. |
| `Protocol.SelectThenPulse` | Projects/USBtoSerial/USBtoSerial.c:145 | `"3T"` with the endpoint ready selects PD2, sets it, waits 100 ms and clears it. The host receives `'3'` then `'T'`. |
| `CommandLoop.SetupGpio` | Projects/USBtoSerial/USBtoSerial.c:227-232 | The five GPIO statements, in place, leave the register file equal to `GpioInit` of the old one. |
| `CommandLoop.Interpreter.constructor` | Projects/USBtoSerial/USBtoSerial.c:128 | The loop's state starts as `Protocol.Initial` of the register file. |
| `CommandLoop.Interpreter.DrivePin` | Projects/USBtoSerial/USBtoSerial.c:171-174 | One read-modify-write of the selected register, recorded in the trace. |
| `CommandLoop.Interpreter.DelayMs` | Projects/USBtoSerial/USBtoSerial.c:178 | `Delay_MS` appends one delay event with its duration. |
| `CommandLoop.Interpreter.PulsePin` | Projects/USBtoSerial/USBtoSerial.c:176-195 | Write, delay, opposite write, in that order. |
| `CommandLoop.Interpreter.Step` | Projects/USBtoSerial/USBtoSerial.c:137-207 | The in-place switch, helper calls and echo leave the state equal to `Protocol.Step` of the old state. |
| `CommandLoop.Interpreter.Serve` | Projects/USBtoSerial/USBtoSerial.c:135-212 | Looping `Step` over a finite sequence of polls gives `Protocol.Run` of the old state. |

## Left out

- The CDC class configuration (lines 43-67) is not modelled. `CDC_Device_ReceiveByte`, `Endpoint_IsINReady`, `CDC_Device_SendByte` and `CDC_Device_SendString` are foreign library calls. The model takes the received value and the readiness as inputs and records each send as a trace event.
- `CDC_Device_USBTask` and `USB_USBTask` (lines 210-211) are transport housekeeping and are not modelled. The `continue` after the help text (line 199) also skips them on a `'?'` poll; since they are not modelled, this does not show in the model.
- The USB event handlers and the empty USART ISR (lines 238-276) contain no protocol logic and are not modelled.
- The watchdog, the clock prescaler and `USB_Init` in `SetupHardware` (lines 218-225, 235) are not modelled. They have no effect that can be checked in this model.
- The help text (lines 84-121) is one opaque `SendHelp` event. Its characters are not modelled. Its pin diagram is modelled separately, as `PinTable.Identifier`.
- Real time is not modelled. `Delay_MS` is a `Delay(ms)` event, so the order of a pulse can be stated but not its duration on the wire.
- The endless `for (;;)` loop is modelled only over finite prefixes, by `Run` and `Serve`.
- I/O registers are modelled as plain byte storage. The hardware meaning of reserved or special locations is not captured. For example, I/O address 0x00, which the default selection writes, is reserved on the ATmega32U4 and is not a latch.
- Interrupts are not modelled. Neither is the atomicity of the read-modify-write: a write is one read of the register followed by one store.
- `Protocol.Step` and `CommandLoop.Interpreter.Step` require `chr < 0x100`. `CDC_Device_ReceiveByte` returns a negative value or one byte, so larger values never reach the switch.
