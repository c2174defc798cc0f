/** Unsigned machine words as numbers: single bits, and the word that a list of bits spells. */
module Bits {

  function Pow2(n: nat): (p: nat)
    ensures p >= 1
  {
    if n == 0 then 1 else 2 * Pow2(n - 1)
  }

  /** Bit `i` of `n`, the lowest being bit 0. */
  predicate Bit(n: nat, i: nat) {
    if i == 0 then n % 2 == 1 else Bit(n / 2, i - 1)
  }

  /** The word whose bit `i` is `bs[i]`. */
  function Word(bs: seq<bool>): nat {
    if bs == [] then 0 else (if bs[0] then 1 else 0) + 2 * Word(bs[1..])
  }

  lemma {:induction false} WordBit(bs: seq<bool>, i: nat)
    ensures Bit(Word(bs), i) <==> i < |bs| && bs[i]
    decreases i, |bs|
  {
    if bs == [] {
      ZeroBit(i);
    } else if i > 0 {
      WordBit(bs[1..], i - 1);
    }
  }

  lemma ZeroBit(i: nat)
    ensures !Bit(0, i)
  {
  }

  /** Appending a bit sets the next higher one. */
  lemma {:induction false} WordSnoc(bs: seq<bool>, b: bool)
    ensures Word(bs + [b]) == Word(bs) + (if b then Pow2(|bs|) else 0)
  {
    if bs == [] {
      assert [b][1..] == [];
    } else {
      assert (bs + [b])[1..] == bs[1..] + [b];
      WordSnoc(bs[1..], b);
    }
  }

  lemma {:induction false} Pow2Add(a: nat, b: nat)
    ensures Pow2(a) * Pow2(b) == Pow2(a + b)
  {
    if a > 0 {
      Pow2Add(a - 1, b);
      assert Pow2(a) * Pow2(b) == 2 * (Pow2(a - 1) * Pow2(b));
    }
  }

  /** A word that holds `bs` in its top bits, shifted right by one and given a new top bit. */
  lemma ShiftIn(bs: seq<bool>, b: bool, width: nat)
    requires |bs| < width
    ensures (Word(bs) * Pow2(width - |bs|)) / 2 + (if b then Pow2(width - 1) else 0)
            == Word(bs + [b]) * Pow2(width - |bs| - 1)
  {
    var r := width - |bs| - 1;
    WordSnoc(bs, b);
    Pow2Add(|bs|, r);
    HalveAndAdd(Word(bs), Pow2(r), if b then Pow2(|bs|) else 0);
  }

  lemma HalveAndAdd(w: nat, m: nat, top: nat)
    ensures (w * (2 * m)) / 2 + top * m == (w + top) * m
  {
    assert w * (2 * m) == 2 * (w * m);
    assert (w + top) * m == w * m + top * m;
  }

  lemma ShiftInFirst(b: bool, width: nat)
    requires width > 0
    ensures (if b then Pow2(width - 1) else 0) == Word([b]) * Pow2(width - 1)
  {
    assert [b][1..] == [];
  }
}
