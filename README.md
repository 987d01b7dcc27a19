# Remote-driven robot controller — verified model

This project models the control core of a small remotely driven vehicle
(`robot/robot.c`, a PIC18 firmware). The controller receives single-byte
commands over a serial link, turns them into one of five fixed patterns on
the four motor lines of port A, and stops the motors when no command has
restarted its deadline timer for a full timer period.

The model has four modules:

- `Common` (common.dfy): the 8-bit `Byte` and an `Option` type.
- `Motors` (motors.dfy): the closed set of motions {Stop, Forward, Backward,
  TurnLeft, TurnRight} and the pattern each writes (0x00, 0x0A, 0x05, 0x06,
  0x09), with a decoding function as its inverse.
- `Control` (control.dfy): the whole controller as one sequential state
  machine over `State(port, rxMode, armed, count)`. An event is either a
  received byte (`Feed`) or a timer tick (`Tick`); each event is atomic, and
  the interrupt is modelled as a tick event interleaved with the bytes. `Run`
  plays a finite sequence of events and records every pattern written to the
  port. The invariant `Valid` says that the port always holds one of the five
  patterns, that the session flag is 0 or 1, and that the motors are never
  driven while the timer is disarmed.
- `Board` (robot.dfy): class `Robot`, whose fields are the registers and the
  session flag that the firmware overwrites in place. Its methods mirror the
  firmware's routines and the dispatch loop. `Restart`, `Expire`, `Tick`,
  `Feed` and `Dispatch` are proved equal to the matching `Control` function.
  `Drive`, the motor routines, sets the port to the motion's pattern and
  changes nothing else. A ghost field `log` records the actuator writes.

The timer is modelled as the firmware uses it: `timer_restart` zeroes the
16-bit count and arms the timer, the count goes up by one per tick, and the
tick past 0xFFFF wraps it to 0 and raises the interrupt. The interrupt
routine disarms the timer and then writes Stop. The deadline is therefore
0x10000 ticks after the last restart. A restart always sets the count to 0,
so restarts do not accumulate. After the interrupt the timer stays stopped
until the next command byte.

Ending a session with `'\r'` does not stop the motors. Only the deadline
timer stops them.

## Model

| member | source | states |
|---|---|---|
| Motors.Pattern | robot/robot.c:25-55 | Each motion writes one of the five listed patterns, within the four low lines. The pattern is 0 exactly for Stop, and no pattern drives both lines of one motor. |
| Motors.MotionOf | robot/robot.c:25-55 | Decodes a port value. It gives a motion exactly for the five patterns, and that motion's pattern is the value decoded. |
| Motors.PatternRoundTrip | robot/robot.c:25-55 | Decoding the pattern of a motion gives back that motion, so the five patterns are distinct. |
| Motors.IsPatternExactly | robot/robot.c:25-55 | The listed set of five values is exactly the set of values the motor routines write. |
| Control.Init | robot/robot.c:114-130 | At start the session flag is 0 (idle), the port holds Stop, the timer is not armed and its count is 0, and the invariant holds. |
| Control.CommandMotion | robot/robot.c:136-152 | Inside a session, exactly the bytes 0x30-0x33 select a motion, and never Stop. |
| Control.CommandByte | robot/robot.c:136-152 | Each non-Stop motion has a command byte that selects it again. That byte is neither the start nor the end delimiter. |
| Control.Restart | robot/robot.c:71-96 | A restart arms the timer with count 0 whatever its prior state, and leaves the port and session alone. |
| Control.Expire | robot/robot.c:105-109 | The interrupt disarms the timer and leaves the port holding Stop. The session is untouched. |
| Control.Feed | robot/robot.c:132-162 | Keeps the invariant. A motion is written if and only if the session is active and the byte is 0x30-0x33; the write is the byte's motion, and the timer restarts. When nothing is written, the port and timer are unchanged. The session flag changes if and only if ':' arrives while idle (to 1) or '\r' arrives while active (to 0). |
| Control.Tick | robot/robot.c:58-60 | Keeps the invariant. A disarmed timer changes nothing. An armed timer counts up by one. The tick at count 0xFFFF fires once: it writes Stop and disarms. |
| Control.Step | robot/robot.c:132-164 | One atomic event of the loop keeps the invariant. A Stop write comes only from a timer tick, and a motion write only from a received byte. |
| Control.Run | robot/robot.c:132-164 | The loop over a finite sequence of events makes at most one write per event. Its other properties are the lemmas `RunValid`, `PortIsLastWrite`, `NoMotionOutsideSession`, `ArmedOnlyByCommand` and `SilenceStops`. |
| Control.RunValid | robot/robot.c:132-164 | Over any interleaving of bytes and ticks, the port stays one of the five patterns, the session flag stays 0 or 1, and the motors are never driven with the timer disarmed. |
| Control.PortIsLastWrite | robot/robot.c:132-164 | After any run the port holds the pattern of the last motion written, or its initial value if nothing was written. |
| Control.NoMotionOutsideSession | robot/robot.c:156-160 | Starting idle, a stream without ':' never writes a motion other than Stop and leaves the session idle. |
| Control.ArmedOnlyByCommand | robot/robot.c:130-152 | From a disarmed state, the timer is armed at the end of a run only if some motion other than Stop was written, that is, only if a command byte arrived inside a session. |
| Control.NeverArmedWithoutSession | robot/robot.c:114-160 | From start-up, a stream without ':' leaves the timer unarmed and the motors stopped. |
| Control.RunAppend | robot/robot.c:132-164 | Running two event sequences in turn is running their concatenation. |
| Control.RestartIdempotent | robot/robot.c:71-96 | Two restarts leave the same state as one, and the result does not depend on the earlier timer state. |
| Control.DisarmedTicksInert | robot/robot.c:105-107 | Once disarmed, any number of ticks write nothing and change nothing until the next restart. |
| Control.TicksBeforeDeadline | robot/robot.c:58-60 | Before overflow, ticks of an armed timer only advance the count. |
| Control.SilenceStops | robot/robot.c:105-109 | Any silence that reaches the overflow writes Stop exactly once and leaves the timer disarmed, however long it lasts. |
| Control.MotionEndsAfterSilence | robot/robot.c:58-69 | Whenever the motors are driven, 0x10000 ticks without a byte bring them to Stop with a single write. |
| Control.ForwardThenSilence | robot/robot.c:136-154 | The bytes ':' '0' '\r' write Forward once and end idle with the timer armed. A full deadline of silence afterwards adds exactly one Stop. |
| Control.CommandAfterClose | robot/robot.c:153-160 | The bytes ':' '0' '\r' '0' write Forward only once. |
| Control.CommandBeforeOpen | robot/robot.c:156-160 | The bytes '2' ':' '3' write only TurnRight, and leave the session active with the timer armed at 0. |
| Board.Robot.constructor | robot/robot.c:114-130 | The fields start equal to the initial state, and the one write so far is Stop. |
| Board.Robot.Drive | robot/robot.c:25-55 | The port takes the pattern of the motion, the write is logged, and nothing else changes. |
| Board.Robot.Restart | robot/robot.c:71-96 | The new state is `Control.Restart` of the old one, and nothing is written. |
| Board.Robot.Expire | robot/robot.c:105-109 | The new state is `Control.Expire` of the old one, with exactly one Stop write. |
| Board.Robot.Tick | robot/robot.c:58-60 | The new state and the writes are those of `Control.Tick`. |
| Board.Robot.Feed | robot/robot.c:133-162 | The new state and the writes are those of `Control.Feed`, by the same switch on the session flag and the byte. |
| Board.Robot.Dispatch | robot/robot.c:132-164 | After any finite sequence of events, the fields and the write log are those of `Control.Run`, and the invariant is preserved. |

## Left out

- Configuration fuses and the high-priority interrupt vector (robot/robot.c:5-20): device bring-up. The vector only jumps to the interrupt routine, which is modelled as `Expire`.
- Clock, pin-direction, ADC and UART set-up (`OSCCON`, `TRISA`, `TRISC`, `ADCON1`, `SPBRG`, `RCSTA`, `TXSTA`): one-time register writes with no behaviour to state.
- The bit layout of `T0CON` and `INTCON`. Only "timer and interrupt enabled" versus "disabled" is modelled, as `armed`. TMR0 may run freely before the first restart, but its interrupt is disabled then, and the restart zeroes the count and clears the flag. So a disarmed timer is modelled as not counting.
- The duration of a tick and the sender's 100 ms period: physical timing. The timer counts abstract ticks. The comment at robot/robot.c:58-69 gives 500 kHz and 131.072 ms per deadline. The register values give 125 kHz instead: OSCCON=0x72 selects 8 MHz, T0CON=0x83 runs TMR0 from the instruction clock (8 MHz / 4) with a 1:16 prescaler, and the 0x10000-tick deadline lasts about 524 ms.
- Polling `PIR1bits.RCIF` and reading `RCREG`: serial I/O. A received byte is an event in the input sequence, and a poll that finds no byte does nothing.
- True preemption: the interrupt routine is an atomic event between two whole loop iterations. Races inside an instruction sequence are not modelled.
- The loop never ends in the firmware. `Board.Robot.Dispatch` and `Control.Run` cover any finite prefix of its events.
- The received byte is a plain `char`, which may be signed. Bytes 0x80-0xFF would then be negative, but they match no case either way. The model uses the unsigned value 0..255.
