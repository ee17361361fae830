/** Numeric query parameters: `Math.min(Math.max(Number(x ?? 10) || 10, 1), hi)`. */
module Params {

  /** What `Number(...)` makes of a query parameter: absent, an integer, or
      NaN. */
  datatype NumArg = Absent | Numeric(n: int) | NotANumber

  function Min(a: int, b: int): int { if a <= b then a else b }
  function Max(a: int, b: int): int { if a >= b then a else b }

  /** The clamp both handlers apply: a missing, zero or non-numeric value
      falls back to 10 (`|| 10`), then the value is forced into [1, hi]. */
  function ClampCount(arg: NumArg, hi: int): (r: int)
    requires hi >= 1
    ensures 1 <= r <= hi
    ensures arg.Numeric? && 1 <= arg.n <= hi ==> r == arg.n
    ensures !(arg.Numeric? && arg.n != 0) && hi >= 10 ==> r == 10
    ensures arg.Numeric? && arg.n < 0 ==> r == 1
    ensures arg.Numeric? && arg.n > hi ==> r == hi
  {
    var v := if arg.Numeric? && arg.n != 0 then arg.n else 10;
    Min(Max(v, 1), hi)
  }

  /** `maxResults` of the hardened video search: always in [1, 25]. */
  function MaxResults(arg: NumArg): (r: int)
    ensures 1 <= r <= 25
    ensures arg == Absent || arg == NotANumber || arg == Numeric(0) ==> r == 10
    ensures arg.Numeric? && 1 <= arg.n <= 25 ==> r == arg.n
    ensures arg.Numeric? && arg.n > 25 ==> r == 25
    ensures arg.Numeric? && arg.n < 0 ==> r == 1
  {
    ClampCount(arg, 25)
  }

  /** `limit` of the subreddit search: always in [1, 50]. */
  function RedditLimit(arg: NumArg): (r: int)
    ensures 1 <= r <= 50
    ensures arg == Absent || arg == NotANumber || arg == Numeric(0) ==> r == 10
    ensures arg.Numeric? && 1 <= arg.n <= 50 ==> r == arg.n
    ensures arg.Numeric? && arg.n > 50 ==> r == 50
    ensures arg.Numeric? && arg.n < 0 ==> r == 1
  {
    ClampCount(arg, 50)
  }
}
