/** The blink-delay policy applied each time the main loop observes a button press:
    a delay at or below the minimum wraps to the maximum, any other delay drops by
    one step. The delay is a Rust `u32`, so it is modelled by a 32-bit newtype whose
    subtraction Dafny checks for underflow. */
module BlinkDelay {

  /** Rust's `u32`: arithmetic outside this range would be an overflow. */
  newtype uint32 = x: int | 0 <= x < 0x1_0000_0000

  /** The delay the loop starts with and wraps back to (milliseconds). */
  const MAX_DELAY: uint32 := 400
  /** At or below this delay the next press wraps to MAX_DELAY. */
  const MIN_DELAY: uint32 := 50
  /** The amount a press takes off the delay. */
  const STEP: uint32 := 50
  /** Number of distinct delays in the cycle 400, 350, ..., 50. */
  const CYCLE_LENGTH: nat := 8

  /** The delays the loop can hold: 50..400 in steps of 50. */
  predicate ValidDelay(d: uint32) {
    MIN_DELAY <= d <= MAX_DELAY && d % STEP == 0
  }

  /** One press: wrap to the maximum at or below the minimum, otherwise one step down.
      The subtraction only runs when d > MIN_DELAY, so it can never underflow. */
  function NextDelay(d: uint32): (r: uint32)
    ensures 0 < r
    ensures r < d || r == MAX_DELAY
    ensures ValidDelay(d) ==> ValidDelay(r)
  {
    if d <= MIN_DELAY then MAX_DELAY else d - STEP
  }

  /** A press observed at or below the minimum sets the delay to exactly the maximum. */
  lemma NextDelayWraps(d: uint32)
    requires d <= MIN_DELAY
    ensures NextDelay(d) == MAX_DELAY && NextDelay(d) != 0
  {
  }

  /** A press observed above the minimum lowers the delay by exactly one step. */
  lemma NextDelayStepsDown(d: uint32)
    requires MIN_DELAY < d
    ensures NextDelay(d) as int == d as int - STEP as int
  {
  }

  /** The delay after n presses starting from d. */
  function Advance(d: uint32, n: nat): uint32
    decreases n
  {
    if n == 0 then d else NextDelay(Advance(d, n - 1))
  }

  /** Position of a valid delay in the cycle: 400 is 0, 350 is 1, ..., 50 is 7. */
  function CycleIndex(d: uint32): (i: nat)
    requires ValidDelay(d)
    ensures i < CYCLE_LENGTH
    ensures d as int == MAX_DELAY as int - STEP as int * i
  {
    (MAX_DELAY as int - d as int) / STEP as int
  }

  /** The valid delays are exactly the eight points of the cycle. */
  lemma CyclePointIsValid(i: nat)
    requires i < CYCLE_LENGTH
    ensures 0 <= MAX_DELAY as int - STEP as int * i < 0x1_0000_0000
    ensures ValidDelay((MAX_DELAY as int - STEP as int * i) as uint32)
    ensures CycleIndex((MAX_DELAY as int - STEP as int * i) as uint32) == i
  {
  }

  /** On valid delays one press moves one place along the cycle, wrapping after 7. */
  lemma NextDelayAdvancesIndex(d: uint32)
    requires ValidDelay(d)
    ensures CycleIndex(NextDelay(d)) == (CycleIndex(d) + 1) % CYCLE_LENGTH
  {
  }

  /** Closed form: from a valid delay, n presses stay valid and move n places along the cycle. */
  lemma {:induction false} AdvanceClosedForm(d: uint32, n: nat)
    requires ValidDelay(d)
    ensures ValidDelay(Advance(d, n))
    ensures CycleIndex(Advance(d, n)) == (CycleIndex(d) + n) % CYCLE_LENGTH
  {
    if n > 0 {
      var prev := Advance(d, n - 1);
      AdvanceClosedForm(d, n - 1);
      NextDelayAdvancesIndex(prev);
      CycleSucc(CycleIndex(d) + n - 1);
      assert Advance(d, n) == NextDelay(prev);
    }
  }

  lemma CycleSucc(k: nat)
    ensures (k % CYCLE_LENGTH + 1) % CYCLE_LENGTH == (k + 1) % CYCLE_LENGTH
  {
  }

  /** Starting from 400, the delay after n presses is 400 - 50 * (n mod 8). */
  lemma AdvanceFromMax(n: nat)
    ensures Advance(MAX_DELAY, n) as int == MAX_DELAY as int - STEP as int * (n % CYCLE_LENGTH)
  {
    AdvanceClosedForm(MAX_DELAY, n);
  }

  /** From a valid delay, n presses return to the same delay exactly when n is a
      multiple of eight: the cycle has length 8 and no shorter period. */
  lemma ReturnsExactlyEveryEight(d: uint32, n: nat)
    requires ValidDelay(d)
    ensures Advance(d, n) == d <==> n % CYCLE_LENGTH == 0
  {
    AdvanceClosedForm(d, n);
    var i := CycleIndex(d);
    CycleShift(i, n);
    if Advance(d, n) == d {
      assert CycleIndex(Advance(d, n)) == i;
    }
  }

  lemma CycleShift(i: nat, n: nat)
    requires i < CYCLE_LENGTH
    ensures (i + n) % CYCLE_LENGTH == i <==> n % CYCLE_LENGTH == 0
  {
    var q, r := n / CYCLE_LENGTH, n % CYCLE_LENGTH;
    assert i + n == CYCLE_LENGTH * q + (i + r);
  }
}
