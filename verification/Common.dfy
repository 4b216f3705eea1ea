/** Machine words and a few notions that several parts of the model share. */
module Common {
  /** How many values a 32-bit word has. */
  const WORDS: nat := 0x1_0000_0000

  type Word = w: nat | w < 0x1_0000_0000

  datatype Option<T> = None | Some(value: T)

  function Pow2(n: nat): (r: nat)
    ensures r > 0
  {
    if n == 0 then 1 else 2 * Pow2(n - 1)
  }

  function Max(a: int, b: int): int { if a > b then a else b }

  /** No element occurs twice. */
  predicate Distinct<T(==)>(q: seq<T>) {
    forall i, j :: 0 <= i < j < |q| ==> q[i] != q[j]
  }
}
