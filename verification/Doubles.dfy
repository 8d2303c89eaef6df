/** The range of IEEE 754 doubles on integers: where `float(i)` raises OverflowError. */
module Doubles {
  import opened Schema
  import opened Evaluator
  import opened Solo

  const TWO_TO_128 := 0x1_0000_0000_0000_0000_0000_0000_0000_0000
  const TWO_TO_256 := TWO_TO_128 * TWO_TO_128
  const TWO_TO_1024 := TWO_TO_256 * TWO_TO_256 * TWO_TO_256 * TWO_TO_256
  const TWO_TO_970 := TWO_TO_256 * TWO_TO_256 * TWO_TO_256 * TWO_TO_128 * 0x4_0000_0000_0000_0000_00

  /** Half a unit above the greatest double: from here on integers round out of range. */
  const LIMIT := TWO_TO_1024 - TWO_TO_970

  /** `toDouble` overflows where rounding to binary64 does. */
  ghost predicate DoubleRange(lib: Lib) {
    forall i :: lib.toDouble(i).Some? <==> -LIMIT < i < LIMIT
  }

  /** The limit lies 2^-54 of 2^1024 below it: binary64 has 53 significant bits, and a half rounds up. */
  lemma LimitIsHalfAUnitDown()
    ensures 0x40_0000_0000_0000 * (TWO_TO_1024 - LIMIT) == TWO_TO_1024
  {
  }

  lemma TwoTo1024IsHuge(lib: Lib)
    requires DoubleRange(lib)
    ensures Huge(lib, Int(TWO_TO_1024))
  {
  }

  const AMOUNT_OVER_500 := Condition("amount", Gt, One(Int(500)), NumberType)

  /** A concrete request: one accepted policy on an amount over 500, and the amount 2^1024. */
  lemma TwoTo1024Overflows(lib: Lib)
    requires DoubleRange(lib)
    ensures ValidBundle(SoloBundle(AMOUNT_OVER_500))
    ensures Evaluate(lib, map["amount" := Value(Int(TWO_TO_1024))], SoloBundle(AMOUNT_OVER_500), "w") == Overflow
  {
    hide DoubleRange, Evaluate, ValidBundle;
    var n := TWO_TO_1024;
    TwoTo1024IsHuge(lib);
    assert Snake("amount");
    SoloValid(AMOUNT_OVER_500);
    SoloOverflows(lib, AMOUNT_OVER_500, map["amount" := Value(Int(n))], Int(n));
  }
}
