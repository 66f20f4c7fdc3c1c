/** The interrupt-driven control loop: the falling-edge handler raises a pending-press
    flag, and each iteration of the main loop reads and clears that flag, applies one
    delay step when it was set, reports the new delay, and blinks the LED once at the
    current delay. The critical sections that serialise the handler and the loop are
    modelled as atomic method calls, so an interleaving is a schedule of handler runs
    (Press) and loop iterations (Tick). */
module ButtonBlink {
  import opened BlinkDelay

  /** Logic level of the LED output line. */
  datatype Level = Low | High

  /** Observable side effects of the loop, in the order they happen. */
  datatype Event =
    | Print(delay: uint32)  // the diagnostic line reporting a new delay
    | Wait(ms: uint32)      // a blocking wait of ms milliseconds
    | SetHigh
    | SetLow

  /** The state shared by the handler and the loop. */
  datatype State = State(flag: bool, delay: uint32, led: Level)

  /** One event the environment can produce between two atomic steps. */
  datatype Input =
    | Press  // a falling edge: the handler runs to completion
    | Tick   // one full iteration of the main loop

  /** State when the loop is first entered: flag clear, delay 400, LED driven low. */
  const INIT: State := State(false, MAX_DELAY, Low)

  /** What holds at every iteration boundary. */
  predicate Inv(s: State) {
    ValidDelay(s.delay) && s.led == Low
  }

  /** The handler: raise the flag, touch nothing else. */
  function OnInterrupt(s: State): State {
    s.(flag := true)
  }

  /** One loop iteration: consume the flag, step the delay if it was set, end with the LED low. */
  function OnIterate(s: State): State {
    State(false, if s.flag then NextDelay(s.delay) else s.delay, Low)
  }

  /** The LED half of an iteration: wait, drive high, wait, drive low. */
  function BlinkCycle(ms: uint32): seq<Event> {
    [Wait(ms), SetHigh, Wait(ms), SetLow]
  }

  /** Everything one iteration emits: the report of the new delay only when the flag was
      set, then one blink at the delay in force after the update. */
  function IterationOutput(s: State): seq<Event> {
    var d := OnIterate(s).delay;
    (if s.flag then [Print(d)] else []) + BlinkCycle(d)
  }

  function Apply(s: State, x: Input): State {
    match x
    case Press => OnInterrupt(s)
    case Tick => OnIterate(s)
  }

  /** The state after a schedule of handler runs and loop iterations. */
  function Run(s: State, xs: seq<Input>): State
    decreases |xs|
  {
    if xs == [] then s else Apply(Run(s, xs[..|xs| - 1]), xs[|xs| - 1])
  }

  /** Everything emitted while running a schedule. */
  function RunOutput(s: State, xs: seq<Input>): seq<Event>
    decreases |xs|
  {
    if xs == [] then []
    else
      var before := Run(s, xs[..|xs| - 1]);
      RunOutput(s, xs[..|xs| - 1]) + (if xs[|xs| - 1] == Tick then IterationOutput(before) else [])
  }

  /** Number of iterations in a schedule that found the flag set. */
  function Observed(s: State, xs: seq<Input>): nat
    decreases |xs|
  {
    if xs == [] then 0
    else
      var before := Run(s, xs[..|xs| - 1]);
      Observed(s, xs[..|xs| - 1]) + (if xs[|xs| - 1] == Tick && before.flag then 1 else 0)
  }

  /** Number of diagnostic lines in a trace. */
  function Prints(t: seq<Event>): nat
    decreases |t|
  {
    if t == [] then 0 else (if t[0].Print? then 1 else 0) + Prints(t[1..])
  }

  function Presses(k: nat): (r: seq<Input>)
    ensures |r| == k && forall i :: 0 <= i < k ==> r[i] == Press
  {
    seq(k, _ => Press)
  }

  function Ticks(k: nat): (r: seq<Input>)
    ensures |r| == k && forall i :: 0 <= i < k ==> r[i] == Tick
  {
    seq(k, _ => Tick)
  }

  function Repeat(t: seq<Event>, n: nat): seq<Event>
    decreases n
  {
    if n == 0 then [] else Repeat(t, n - 1) + t
  }

  /** An iteration that finds the flag clear changes neither the delay nor the flag, and
      reports nothing: it only blinks at the current delay. */
  lemma IdleIteration(s: State)
    requires !s.flag
    ensures OnIterate(s).delay == s.delay && !OnIterate(s).flag
    ensures IterationOutput(s) == BlinkCycle(s.delay)
  {
  }

  /** An iteration that finds the flag set clears it, applies exactly one delay step and
      reports the new delay before blinking at it. */
  lemma PressedIteration(s: State)
    requires s.flag
    ensures !OnIterate(s).flag && OnIterate(s).delay == NextDelay(s.delay)
    ensures IterationOutput(s) == [Print(NextDelay(s.delay))] + BlinkCycle(NextDelay(s.delay))
  {
  }

  /** The handler raises the flag and changes neither the delay nor the LED. */
  lemma InterruptOnlyRaisesFlag(s: State)
    ensures OnInterrupt(s).flag
    ensures OnInterrupt(s).delay == s.delay && OnInterrupt(s).led == s.led
  {
  }

  lemma {:induction false} RunAppend(s: State, xs: seq<Input>, x: Input)
    ensures Run(s, xs + [x]) == Apply(Run(s, xs), x)
    ensures RunOutput(s, xs + [x]) == RunOutput(s, xs) + (if x == Tick then IterationOutput(Run(s, xs)) else [])
    ensures Observed(s, xs + [x]) == Observed(s, xs) + (if x == Tick && Run(s, xs).flag then 1 else 0)
  {
    assert (xs + [x])[..|xs + [x]| - 1] == xs;
  }

  lemma AppendAssoc<T>(a: seq<T>, b: seq<T>, c: seq<T>)
    ensures a + b + c == a + (b + c)
  {
  }

  /** Running one more input of a schedule: the form the loop in Board.Drive uses. */
  lemma RunStep(s: State, xs: seq<Input>, i: nat)
    requires i < |xs|
    ensures Run(s, xs[..i + 1]) == Apply(Run(s, xs[..i]), xs[i])
    ensures RunOutput(s, xs[..i + 1])
         == RunOutput(s, xs[..i]) + (if xs[i] == Tick then IterationOutput(Run(s, xs[..i])) else [])
  {
    assert xs[..i + 1] == xs[..i] + [xs[i]];
    RunAppend(s, xs[..i], xs[i]);
  }

  /** Any k >= 1 handler runs leave the same state as exactly one: the flag is a boolean,
      not a counter. */
  lemma {:induction false} PressesCoalesce(s: State, k: nat)
    requires 1 <= k
    ensures Run(s, Presses(k)) == OnInterrupt(s)
  {
    assert Presses(k)[..k - 1] == Presses(k - 1);
    if k > 1 {
      PressesCoalesce(s, k - 1);
    }
  }

  /** Any k >= 1 presses before one iteration give the same state and the same output as
      a single press: exactly one delay step and one report. */
  lemma CoalescedPressesStepOnce(s: State, k: nat)
    requires 1 <= k
    ensures Run(s, Presses(k) + [Tick]) == Run(s, [Press, Tick])
    ensures RunOutput(s, Presses(k) + [Tick]) == RunOutput(s, [Press, Tick])
    ensures Run(s, Presses(k) + [Tick]).delay == NextDelay(s.delay)
  {
    PressesCoalesce(s, k);
    PressesCoalesce(s, 1);
    RunAppend(s, Presses(k), Tick);
    RunAppend(s, Presses(1), Tick);
    assert Presses(1) == [Press];
    assert RunOutput(s, Presses(k)) == [] by {
      PressesEmitNothing(s, k);
    }
  }

  /** Handler runs alone emit nothing. */
  lemma {:induction false} PressesEmitNothing(s: State, k: nat)
    ensures RunOutput(s, Presses(k)) == []
  {
    if k > 0 {
      assert Presses(k)[..k - 1] == Presses(k - 1);
      PressesEmitNothing(s, k - 1);
    }
  }

  /** From any iteration boundary, every schedule keeps the delay in 50..400 as a multiple
      of 50 and leaves the LED low. */
  lemma {:induction false} RunKeepsInv(s: State, xs: seq<Input>)
    requires Inv(s)
    ensures Inv(Run(s, xs))
  {
    if xs != [] {
      RunKeepsInv(s, xs[..|xs| - 1]);
    }
  }

  /** The delay after a schedule is the initial delay advanced once per iteration that
      found the flag set. */
  lemma {:induction false} RunDelayIsAdvance(s: State, xs: seq<Input>)
    ensures Run(s, xs).delay == Advance(s.delay, Observed(s, xs))
  {
    if xs != [] {
      RunDelayIsAdvance(s, xs[..|xs| - 1]);
    }
  }

  /** From the start state, after any schedule the delay is 400 - 50 * (n mod 8), n being the
      number of presses the loop observed, and the invariant holds. */
  lemma RunFromInit(xs: seq<Input>)
    ensures Inv(Run(INIT, xs))
    ensures Run(INIT, xs).delay as int == MAX_DELAY as int - STEP as int * (Observed(INIT, xs) % CYCLE_LENGTH)
  {
    RunKeepsInv(INIT, xs);
    RunDelayIsAdvance(INIT, xs);
    AdvanceFromMax(Observed(INIT, xs));
  }

  lemma {:induction false} PrintsAppend(a: seq<Event>, b: seq<Event>)
    ensures Prints(a + b) == Prints(a) + Prints(b)
    decreases |a|
  {
    if a == [] {
      assert a + b == b;
    } else {
      assert (a + b)[1..] == a[1..] + b;
      PrintsAppend(a[1..], b);
    }
  }

  lemma {:induction false} NoPrints(t: seq<Event>)
    requires forall i :: 0 <= i < |t| ==> !t[i].Print?
    ensures Prints(t) == 0
    decreases |t|
  {
    if t != [] {
      NoPrints(t[1..]);
    }
  }

  /** A diagnostic is emitted exactly once per press the loop observes, never otherwise. */
  lemma {:induction false} OnePrintPerObservedPress(s: State, xs: seq<Input>)
    ensures Prints(RunOutput(s, xs)) == Observed(s, xs)
  {
    if xs != [] {
      var init, x := xs[..|xs| - 1], xs[|xs| - 1];
      OnePrintPerObservedPress(s, init);
      var before := Run(s, init);
      var added := if x == Tick then IterationOutput(before) else [];
      PrintsAppend(RunOutput(s, init), added);
      if x == Tick {
        var d := OnIterate(before).delay;
        PrintsAppend(if before.flag then [Print(d)] else [], BlinkCycle(d));
        NoPrints(BlinkCycle(d));
        assert Prints([Print(d)]) == 1 by {
          assert [Print(d)][1..] == [];
        }
      }
    }
  }

  /** With no press, the loop keeps its start state and blinks at 400 ms forever without
      reporting anything. */
  lemma {:induction false} NoPressBlinksAtMax(n: nat)
    ensures Run(INIT, Ticks(n)) == INIT
    ensures RunOutput(INIT, Ticks(n)) == Repeat(BlinkCycle(MAX_DELAY), n)
  {
    if n > 0 {
      assert Ticks(n)[..n - 1] == Ticks(n - 1);
      NoPressBlinksAtMax(n - 1);
    }
  }

  /** One press from the start state: the loop reports 350 and blinks at 350 ms. */
  lemma FirstPressScenario()
    ensures Run(INIT, [Press, Tick]) == State(false, 350, Low)
    ensures RunOutput(INIT, [Press, Tick]) == [Print(350), Wait(350), SetHigh, Wait(350), SetLow]
  {
    assert [Press] == [] + [Press];
    RunAppend(INIT, [], Press);
    var pressed := Run(INIT, [Press]);
    assert pressed == State(true, MAX_DELAY, Low);
    assert [Press, Tick] == [Press] + [Tick];
    RunAppend(INIT, [Press], Tick);
    assert RunOutput(INIT, [Press]) == [];
    assert OnIterate(pressed) == State(false, 350, Low);
  }

  /** The board: the shared flag, the loop-owned delay and LED line, whether the button
      line has been handed to the handler, and the trace of side effects so far. */
  class Board {
    var flag: bool
    var delay: uint32
    var led: Level
    var pinInstalled: bool
    ghost var trace: seq<Event>

    function Snapshot(): State
      reads this
    {
      State(flag, delay, led)
    }

    ghost predicate Valid()
      reads this
    {
      pinInstalled && Inv(Snapshot())
    }

    /** Start-up: flag clear, button line installed for the handler, LED line created high,
        delay 400, then the LED driven low before the loop is entered. */
    constructor ()
      ensures Valid() && Snapshot() == INIT
      ensures trace == [SetLow]
    {
      flag := false;
      pinInstalled := true;
      led := High;
      delay := MAX_DELAY;
      led := Low;
      trace := [SetLow];
    }

    /** The falling-edge handler. The button line must already be installed; once it is,
        the handler only raises the flag. */
    method Interrupt()
      requires pinInstalled
      modifies this`flag
      ensures Snapshot() == OnInterrupt(old(Snapshot()))
      ensures flag && delay == old(delay) && led == old(led)
      ensures old(Valid()) ==> Valid()
    {
      flag := true;
    }

    /** One iteration of the main loop. */
    method Iterate()
      modifies this`flag, this`delay, this`led, this`trace
      ensures Snapshot() == OnIterate(old(Snapshot()))
      ensures trace == old(trace) + IterationOutput(old(Snapshot()))
      ensures !flag && led == Low
      ensures delay == if old(flag) then NextDelay(old(delay)) else old(delay)
      ensures old(Valid()) ==> Valid()
    {
      if flag {
        flag := false;
        delay := NextDelay(delay);
        trace := trace + [Print(delay)];
      }
      trace := trace + [Wait(delay)];
      led := High;
      trace := trace + [SetHigh];
      trace := trace + [Wait(delay)];
      led := Low;
      trace := trace + [SetLow];
    }

    /** The main loop run for a finite schedule of iterations, with the handler firing
        wherever the schedule places a press. */
    method Drive(schedule: seq<Input>)
      requires pinInstalled
      modifies this`flag, this`delay, this`led, this`trace
      ensures Snapshot() == Run(old(Snapshot()), schedule)
      ensures trace == old(trace) + RunOutput(old(Snapshot()), schedule)
      ensures old(Valid()) ==> Valid()
    {
      ghost var s0 := Snapshot();
      ghost var t0 := trace;
      var i := 0;
      while i < |schedule|
        invariant 0 <= i <= |schedule|
        invariant Snapshot() == Run(s0, schedule[..i])
        invariant trace == t0 + RunOutput(s0, schedule[..i])
      {
        var x := schedule[i];
        ghost var done := schedule[..i];
        RunStep(s0, schedule, i);
        if x == Press {
          Interrupt();
          assert RunOutput(s0, schedule[..i + 1]) == RunOutput(s0, done) + [];
          assert RunOutput(s0, done) + [] == RunOutput(s0, done);
        } else {
          ghost var emitted := IterationOutput(Snapshot());
          Iterate();
          AppendAssoc(t0, RunOutput(s0, done), emitted);
        }
        i := i + 1;
      }
      assert schedule[..|schedule|] == schedule;
      if old(Valid()) {
        RunKeepsInv(s0, schedule);
      }
    }
  }
}
