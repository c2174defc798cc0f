/** Credit is counted in quanta of 512 bytes on the wire and in bytes inside the sender. */
module Quanta {
  import opened Cyclic

  const PULL_QUANTUM: int := 512

  /** The first pull number: both ends start counting here, so that targets do not go below zero. */
  const INIT_PULL: nat := 10000000

  /** An arithmetic shift right by nine bits. */
  function QuantizeFloor(bytes: int): int {
    bytes / PULL_QUANTUM
  }

  function QuantizeCeil(bytes: int): int {
    TruncDiv(bytes + PULL_QUANTUM - 1, PULL_QUANTUM)
  }

  function Unquantize(quanta: int): int {
    quanta * PULL_QUANTUM
  }

  /** Rounding down never grants too much, and what it withholds is less than one quantum. */
  lemma FloorIsGreatest(bytes: int, q: int)
    ensures q <= QuantizeFloor(bytes) <==> Unquantize(q) <= bytes
  {
  }

  /** `c` is the least number of quanta that covers `bytes`. */
  ghost predicate IsCeiling(bytes: int, c: int) {
    Unquantize(c) >= bytes && Unquantize(c - 1) < bytes
  }

  /** Rounding up is exact for every byte count above -512. Below that the division truncates the
      wrong way, and the result is exact only when nothing is rounded. */
  lemma CeilIsLeastIff(bytes: int)
    ensures IsCeiling(bytes, QuantizeCeil(bytes)) <==> (bytes > -PULL_QUANTUM || (bytes - 1) % PULL_QUANTUM == 0)
  {
    if bytes <= -PULL_QUANTUM {
      var m := -(bytes + PULL_QUANTUM - 1);
      assert m == PULL_QUANTUM * (m / PULL_QUANTUM) + m % PULL_QUANTUM;
    }
  }

  lemma CeilPositive(bytes: int)
    requires bytes > 0
    ensures QuantizeCeil(bytes) > 0
  {
  }

  lemma UnquantizeExact(q: int)
    ensures QuantizeFloor(Unquantize(q)) == q
    ensures q >= 0 ==> QuantizeCeil(Unquantize(q)) == q
  {
  }
}
