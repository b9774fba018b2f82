/** Integer helpers shared by the day 1 and day 2 models. */
module Arith {

  /** Python's `abs` on an integer. */
  function Abs(x: int): (r: nat)
    ensures r == x || r == -x
    ensures x >= 0 ==> r == x
  {
    if x < 0 then -x else x
  }
}
