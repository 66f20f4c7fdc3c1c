# Button-controlled blinking: the control state machine

This is a model of the control logic of a bare-metal ESP32 program. A push button on GPIO0
raises a falling-edge interrupt. The handler acknowledges the interrupt and sets a shared
pending-press flag. The main loop runs forever. On each iteration it reads and clears the flag
inside a critical section. If the flag was set, it recomputes the blink delay and prints the
new value. Then it waits `delay` ms, drives the LED on GPIO4 high, waits `delay` ms again, and
drives the LED low.

The model has two modules:

- `BlinkDelay` (`blink_delay.dfy`) holds the delay policy as a pure function `NextDelay` on
  a 32-bit unsigned newtype. A delay of 50 or less wraps to 400; any larger delay drops by 50.
  The module proves three things about it:
  - the valid range (50..400, a multiple of 50) is preserved;
  - the subtraction never underflows, because the newtype's range is checked;
  - closed-form cycle: after n presses from 400 the delay is `400 - 50 * (n mod 8)`, and the
    cycle has length exactly 8.
- `ButtonBlink` (`button_blink.dfy`) holds the flag protocol:
  - The shared state is `State(flag, delay, led)`.
  - The handler and one loop iteration are the functions `OnInterrupt` and `OnIterate`.
  - Any interleaving is a schedule of `Press` (the handler runs) and `Tick` (one loop
    iteration). `Run`, `RunOutput` and `Observed` give the state, the emitted side effects, and
    the number of iterations that found the flag set.
  - The class `Board` holds the fields the program mutates: the flag, the delay, the LED level
    and whether the button line is installed. It also has a ghost trace of side effects
    (`Print`, `Wait`, `SetHigh`, `SetLow`).
  - The methods `Interrupt`, `Iterate` and `Drive` are proved against the functions above.

## Model

| member | source | states |
|---|---|---|
| `BlinkDelay.NextDelay` | main.rs:71-78 | a press never yields delay 0; the new delay is either lower than the old one or exactly 400; a delay in 50..400 that is a multiple of 50 stays so |
| `BlinkDelay.NextDelayWraps` | main.rs:71-74 | a press seen at delay <= 50 sets the delay to exactly 400, not 0 and not an underflowed value |
| `BlinkDelay.NextDelayStepsDown` | main.rs:75-78 | a press seen at delay > 50 lowers it by exactly 50 |
| `BlinkDelay.CycleIndex` | main.rs:71-78 | every valid delay is 400 - 50*i for a unique cycle position i in 0..7 |
| `BlinkDelay.CyclePointIsValid` | main.rs:71-78 | each of the eight values 400 - 50*i (i < 8) is a valid delay at position i, so the valid delays are exactly the cycle |
| `BlinkDelay.NextDelayAdvancesIndex` | main.rs:71-78 | on valid delays a press moves one place along the cycle, from position 7 (50) back to 0 (400) |
| `BlinkDelay.AdvanceClosedForm` | main.rs:71-78 | from any valid delay, n presses stay valid and move n places (mod 8) along the cycle |
| `BlinkDelay.AdvanceFromMax` | main.rs:56-78 | starting from the initial 400, the delay after n presses is 400 - 50*(n mod 8) |
| `BlinkDelay.ReturnsExactlyEveryEight` | main.rs:71-78 | from a valid delay, n presses give back the same delay if and only if n is a multiple of 8: eight presses return to the start, and no shorter run does |
| `ButtonBlink.InterruptOnlyRaisesFlag` | main.rs:21-34 | the handler sets the flag and changes neither the delay nor the LED |
| `ButtonBlink.IdleIteration` | main.rs:64-87 | an iteration that finds the flag clear keeps the delay and the flag, prints nothing and blinks at the current delay |
| `ButtonBlink.PressedIteration` | main.rs:64-87 | an iteration that finds the flag set clears it, applies exactly one delay step, prints the new delay, then blinks at the new delay |
| `ButtonBlink.PressesCoalesce` | main.rs:32 | any k >= 1 handler runs leave the same state as a single run: the flag is a boolean, not a counter |
| `ButtonBlink.PressesEmitNothing` | main.rs:21-34 | handler runs alone produce no output |
| `ButtonBlink.CoalescedPressesStepOnce` | main.rs:61-81 | k >= 1 presses before an iteration give the same state and output as one press: exactly one delay step |
| `ButtonBlink.RunKeepsInv` | main.rs:61-87 | from an iteration boundary with a valid delay and the LED low, every schedule of presses and iterations keeps the delay valid and the LED low |
| `ButtonBlink.RunDelayIsAdvance` | main.rs:61-81 | after any schedule the delay is the start delay advanced once per iteration that found the flag set |
| `ButtonBlink.RunFromInit` | main.rs:56-87 | from the start state (flag clear, delay 400, LED low), after any schedule the delay is 400 - 50*(n mod 8) for n observed presses, and the LED is low |
| `ButtonBlink.OnePrintPerObservedPress` | main.rs:64-82 | the number of diagnostic lines printed equals the number of iterations that found the flag set |
| `ButtonBlink.NoPressBlinksAtMax` | main.rs:56-87 | with no press, n iterations keep the start state and emit n blink cycles of 400 ms high and 400 ms low and no diagnostic |
| `ButtonBlink.FirstPressScenario` | main.rs:56-87 | one press from the start state gives delay 350 and output: print 350, wait 350, high, wait 350, low |
| `ButtonBlink.Board.constructor` | main.rs:19-59 | start-up leaves the flag clear, the button line installed, the delay 400 and the LED low, with only the initial drive-low in the trace |
| `ButtonBlink.Board.Interrupt` | main.rs:21-34 | needs the button line installed; sets the flag and leaves the delay and LED alone |
| `ButtonBlink.Board.Iterate` | main.rs:61-87 | one loop iteration matches `OnIterate` and appends its output to the trace; afterwards the flag is clear and the LED low; the valid-delay invariant is kept |
| `ButtonBlink.Board.Drive` | main.rs:61-87 | running the loop with the handler firing wherever the schedule places a press gives `Run` and `RunOutput` of the schedule, and keeps the invariant |

## Left out

- Peripheral initialisation (main.rs:39-53) is not modelled: `esp_hal::init`, `Io::new`,
  handler registration, `Input`/`Output` construction and `listen(Event::FallingEdge)` are
  hardware-abstraction calls whose code is not part of this model. The constructor only records
  their effect on the modelled state. The program enables falling-edge events (line 49) one line
  before it installs the button into the shared slot (line 50). The model does not capture
  that window, because the constructor installs the line atomically.
- The `critical_section::with` sections and the `Mutex`/`RefCell`/`Cell` wrappers
  (main.rs:15, 19, 25, 50, 64) are modelled as atomic method calls. An interleaving is the order
  of `Interrupt` and `Iterate` calls, or a `Press`/`Tick` schedule. True preemption is not
  modelled.
- `clear_interrupt()` on the button line (main.rs:29) is a hardware register write and is not
  modelled. What remains of it is the requirement that the line is installed (`pinInstalled`).
  The `unwrap()` panic on an empty slot is excluded by that precondition.
- `delay.delay_millis` (main.rs:83, 85) and `println!` (main.rs:80) are recorded as `Wait(ms)`
  and `Print(delay)` events in a ghost trace. Real time and console output are not modelled.
- The non-terminating `loop` (main.rs:61) is modelled as one `Iterate` step, plus `Drive`,
  which runs any finite schedule. Lemmas cover schedules of any length.
