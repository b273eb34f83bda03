/** The JavaScript value conventions the orchestration code relies on: optional
    values, thrown exceptions, numbers that may be NaN or undefined, typed-array
    views whose backing buffer can be detached, and the ToUint32 conversion. */
module Js {

  datatype Option<+T> = None | Some(value: T)

  /** The exceptions the modelled code can throw (or reject a promise with). */
  datatype Exception =
    | InvalidCharacterError   // btoa / atob on a malformed argument
    | SyntaxError             // JSON.parse on malformed text
    | TypeError               // property access on undefined, BigInt mixed with undefined
    | OperationError          // GPUBuffer.mapAsync rejected
    | QuotaExceededError      // localStorage.setItem over quota

  datatype Result<+T> = Ok(value: T) | Err(error: Exception)

  /** A JavaScript value read out of a typed array or computed from one:
      a number (float precision idealised as an exact rational), NaN, or undefined. */
  datatype Val = Num(x: real) | NaN | Undefined

  /** `a / d` for a non-zero numeric literal `d`: undefined and NaN both become NaN. */
  function Divide(a: Val, d: real): (r: Val)
    requires d != 0.0
    ensures r.Num? <==> a.Num?
    ensures a.Num? ==> r.x * d == a.x
    ensures !a.Num? ==> r == NaN
  {
    match a
    case Num(x) => Num(x / d)
    case _ => NaN
  }

  /** A typed-array view (Uint32Array, BigUint64Array) over a mapped range.
      `unmap` detaches the range, after which every index reads as undefined. */
  datatype View = View(elems: seq<int>, detached: bool)

  /** Indexing a view: undefined once detached or past the end. */
  function At(v: View, i: nat): Val
  {
    if v.detached || i >= |v.elems| then Undefined else Num(v.elems[i] as real)
  }

  function Detach(v: View): (r: View)
    ensures forall i: nat :: At(r, i) == Undefined
  {
    View(v.elems, true)
  }

  type Byte = x: int | 0 <= x < 256

  const TWO_32: int := 0x1_0000_0000

  /** ECMAScript ToUint32 on an integral number: reduction modulo 2^32. */
  function ToUint32(n: int): (r: nat)
    ensures r < TWO_32
    ensures (r - n) % TWO_32 == 0
    ensures 0 <= n < TWO_32 ==> r == n
  {
    n % TWO_32
  }
}
