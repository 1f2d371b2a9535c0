/** Python list indexing and integer floor division, as the scripts rely on them. */
module PySeq {
  import opened Results

  /** `s[i]` on a Python list: negative indices count from the end, anything else raises IndexError. */
  function Index<T>(s: seq<T>, i: int): Option<T>
  {
    if 0 <= i < |s| then Some(s[i])
    else if -|s| <= i < 0 then Some(s[|s| + i])
    else None
  }

  /** Python's `a // b`, which rounds toward negative infinity. */
  function FloorDiv(a: int, b: int): (r: int)
    requires b != 0
    ensures b > 0 ==> r * b <= a < r * b + b
    ensures b < 0 ==> r * b >= a > r * b + b
  {
    // Dafny's division is Euclidean; for a positive divisor that is the floor,
    // and floor(a / b) == floor(-a / -b).
    if b > 0 then a / b else (-a) / (-b)
  }
}
