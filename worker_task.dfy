/** What the two array-job workers (bin/run-plink.py, bin/run-bolt.py) share: the array index
    of the task, the entry of a catalog list it selects, the configuration scalars they
    format, and the ways a worker stops with an exception. */
module WorkerTask {
  import opened Results
  import opened PyStr
  import PySeq

  /** Why a worker stops: `KeyError` (no `PBS_ARRAY_INDEX`), `ValueError` (not an integer),
      `IndexError` (no list entry at that index, or no `;` in the covariate setting) and
      `TypeError` (a non-string concatenated to a string). */
  datatype WorkerError =
    | MissingArrayIndex
    | InvalidArrayIndex(text: string)
    | IndexOutOfRange(index: int)
    | MissingQuantitativeGroup(cov: string)
    | NotAString(setting: string)

  /** A scalar configuration value: text, or a number together with Python's `str()` of it. */
  datatype Scalar = Text(text: string) | Numeral(repr: string)

  /** `str(v)`. */
  function Str(v: Scalar): string
  {
    match v
    case Text(s) => s
    case Numeral(r) => r
  }

  /** The task's array index: a fixed value in debug mode, otherwise
      `int(os.environ['PBS_ARRAY_INDEX'])`; `env` is that variable, if set. */
  function ArrayIndex(debugMode: bool, debugIndex: int, env: Option<string>): Result<int, WorkerError>
  {
    if debugMode then Ok(debugIndex)
    else
      match env
      case None => Err(MissingArrayIndex)
      case Some(text) =>
        match ParseInt(text)
        case None => Err(InvalidArrayIndex(text))
        case Some(i) => Ok(i)
  }

  /** `xs[arrayIndex - 1]` on a Python list. */
  function Select<T>(xs: seq<T>, arrayIndex: int): Result<T, WorkerError>
  {
    match PySeq.Index(xs, arrayIndex - 1)
    case Some(x) => Ok(x)
    case None => Err(IndexOutOfRange(arrayIndex - 1))
  }

  /** Array indices 1..|xs| select the entries in order; 0 and the negative indices down to
      1-|xs| wrap round to the end of the list; every other index raises. */
  lemma SelectRange<T>(xs: seq<T>, arrayIndex: int)
    ensures Select(xs, arrayIndex).Ok? <==> 1 - |xs| <= arrayIndex <= |xs|
    ensures 1 <= arrayIndex <= |xs| ==> Select(xs, arrayIndex) == Ok(xs[arrayIndex - 1])
    ensures 1 - |xs| <= arrayIndex <= 0 ==> Select(xs, arrayIndex) == Ok(xs[|xs| + arrayIndex - 1])
  {
  }

  /** The scheduler sets `PBS_ARRAY_INDEX` to the decimal text of the task number, which the
      worker reads back unchanged. */
  lemma ArrayIndexFromScheduler(debugIndex: int, t: nat)
    ensures ArrayIndex(false, debugIndex, Some(NatToString(t))) == Ok(t)
  {
    ParseNatToString(t);
  }

  /** Without the variable, or with text that is not an integer, the worker stops. */
  lemma ArrayIndexErrors(debugIndex: int, env: Option<string>)
    ensures ArrayIndex(false, debugIndex, env).Err? <==> env.None? || ParseInt(env.value).None?
  {
  }
}
