/** The minutes-and-seconds arithmetic both results pages and the countdown share:
    `Math.floor(seconds / 60)` and `seconds % 60` with JavaScript's operators. */
module Clock {

  /** JavaScript's `%`: the remainder takes the sign of the dividend. */
  function JsRemainder(a: int, b: int): (r: int)
    requires b > 0
    ensures a >= 0 ==> 0 <= r < b && r == a % b
    ensures a < 0 ==> -b < r <= 0 && r == -JsRemainder(-a, b)
    decreases if a < 0 then 1 else 0
  {
    if a >= 0 then a % b else -((-a) % b)
  }

  /** Whole minutes (rounded down) and the remaining seconds of a number of seconds. */
  function SplitMinutes(seconds: int): (r: (int, int))
    ensures seconds >= 0 ==> r.0 >= 0 && 0 <= r.1 < 60 && r.0 * 60 + r.1 == seconds
    ensures seconds < 0 ==> r.0 < 0 && -60 < r.1 <= 0
  {
    (seconds / 60, JsRemainder(seconds, 60))
  }

  /** For a negative number of seconds the two parts disagree in rounding direction, so they no
      longer add back up: -1 second is shown as -1 minute and -1 second. */
  lemma NegativeSecondsDoNotAddUp()
    ensures SplitMinutes(-1) == (-1, -1)
    ensures SplitMinutes(-1).0 * 60 + SplitMinutes(-1).1 != -1
  {
  }
}
