/** 64-bit words as naturals, with the bitwise operators the bit set uses. */
module Words {

  const WORD_BITS: nat := 64

  function Pow2(k: nat): (p: nat)
    ensures p >= 1
  {
    if k == 0 then 1 else 2 * Pow2(k - 1)
  }

  type Word = w: nat | w < 0x1_0000_0000_0000_0000

  predicate Bit(w: nat, j: nat) {
    if j == 0 then w % 2 == 1 else Bit(w / 2, j - 1)
  }

  function Join(half: nat, low: bool): nat {
    2 * half + if low then 1 else 0
  }

  function Or(a: nat, b: nat): nat {
    if a == 0 then b else Join(Or(a / 2, b / 2), a % 2 == 1 || b % 2 == 1)
  }

  function AndNot(a: nat, b: nat): nat {
    if a == 0 then 0 else Join(AndNot(a / 2, b / 2), a % 2 == 1 && b % 2 == 0)
  }

  function Xor(a: nat, b: nat): nat
    decreases a + b
  {
    if a == 0 then b else if b == 0 then a else Join(Xor(a / 2, b / 2), a % 2 != b % 2)
  }

  /** Bit j is the only one set in 1 << j. */
  lemma {:induction false} BitOfPow2(k: nat, j: nat)
    ensures Bit(Pow2(k), j) <==> j == k
  {
    if k == 0 {
      if j > 0 { NoBits(j - 1); }
    } else if j > 0 {
      BitOfPow2(k - 1, j - 1);
    }
  }

  lemma {:induction false} NoBits(j: nat)
    ensures !Bit(0, j)
  {
    if j > 0 { NoBits(j - 1); }
  }

  lemma {:induction false} BitOfOr(a: nat, b: nat, j: nat)
    ensures Bit(Or(a, b), j) <==> Bit(a, j) || Bit(b, j)
  {
    if a == 0 {
      NoBits(j);
    } else if j > 0 {
      BitOfOr(a / 2, b / 2, j - 1);
    }
  }

  lemma {:induction false} BitOfAndNot(a: nat, b: nat, j: nat)
    ensures Bit(AndNot(a, b), j) <==> Bit(a, j) && !Bit(b, j)
  {
    if a == 0 {
      NoBits(j);
    } else if j > 0 {
      BitOfAndNot(a / 2, b / 2, j - 1);
    }
  }

  lemma {:induction false} BitOfXor(a: nat, b: nat, j: nat)
    ensures Bit(Xor(a, b), j) <==> Bit(a, j) != Bit(b, j)
    decreases a + b
  {
    if a == 0 || b == 0 {
      NoBits(j);
    } else if j > 0 {
      BitOfXor(a / 2, b / 2, j - 1);
    }
  }

  lemma {:induction false} StaysBelow(a: nat, b: nat, k: nat)
    requires a < Pow2(k) && b < Pow2(k)
    ensures Or(a, b) < Pow2(k) && AndNot(a, b) < Pow2(k) && Xor(a, b) < Pow2(k)
  {
    if k > 0 {
      StaysBelow(a / 2, b / 2, k - 1);
    }
  }

  lemma Pow2Of64()
    ensures Pow2(64) == 0x1_0000_0000_0000_0000
  {
    assert Pow2(8) == 256;
    assert Pow2(16) == 256 * 256 by { Pow2Sum(8, 8); }
    assert Pow2(32) == 0x1_0000 * 0x1_0000 by { Pow2Sum(16, 16); }
    assert Pow2(64) == 0x1_0000_0000 * 0x1_0000_0000 by { Pow2Sum(32, 32); }
  }

  lemma {:induction false} Pow2Sum(i: nat, j: nat)
    ensures Pow2(i + j) == Pow2(i) * Pow2(j)
  {
    if j > 0 { Pow2Sum(i, j - 1); }
  }

  lemma {:induction false} Pow2Monotone(i: nat, j: nat)
    requires i <= j
    ensures Pow2(i) <= Pow2(j)
  {
    if i < j { Pow2Monotone(i, j - 1); }
  }

  /** Numbers below 2^k are determined by their bits below k. */
  lemma {:induction false} Extensional(v: nat, w: nat, k: nat)
    requires v < Pow2(k) && w < Pow2(k)
    requires forall j: nat | j < k :: Bit(v, j) == Bit(w, j)
    ensures v == w
  {
    if k > 0 {
      assert Bit(v, 0) == Bit(w, 0);
      forall j: nat | j < k - 1 ensures Bit(v / 2, j) == Bit(w / 2, j) {
        assert Bit(v, j + 1) == Bit(w, j + 1);
      }
      Extensional(v / 2, w / 2, k - 1);
    }
  }

  /** w | (1 << j) */
  function WithBit(w: Word, j: nat): Word
    requires j < WORD_BITS
  {
    OpsStayWords(w, j);
    Or(w, Pow2(j))
  }

  /** w &^ (1 << j) */
  function WithoutBit(w: Word, j: nat): Word
    requires j < WORD_BITS
  {
    OpsStayWords(w, j);
    AndNot(w, Pow2(j))
  }

  /** Setting bit j, or clearing it, changes bit j and no other bit. */
  lemma {:induction false} BitsOfOps(w: Word, j: nat, i: nat)
    requires j < WORD_BITS
    ensures Bit(WithBit(w, j), i) <==> i == j || Bit(w, i)
    ensures Bit(WithoutBit(w, j), i) <==> i != j && Bit(w, i)
  {
    BitOfOr(w, Pow2(j), i);
    BitOfAndNot(w, Pow2(j), i);
    BitOfPow2(j, i);
  }

  lemma {:induction false} OpsStayWords(w: Word, j: nat)
    requires j < WORD_BITS
    ensures Or(w, Pow2(j)) < 0x1_0000_0000_0000_0000
    ensures AndNot(w, Pow2(j)) < 0x1_0000_0000_0000_0000
  {
    Pow2Of64();
    Pow2Monotone(j, 63);
    assert Pow2(63) < Pow2(64);
    StaysBelow(w, Pow2(j), 64);
  }

  function XorWord(a: Word, b: Word): (r: Word) {
    Pow2Of64();
    StaysBelow(a, b, 64);
    Xor(a, b)
  }

  lemma WordExtensional(v: Word, w: Word)
    requires forall j: nat | j < WORD_BITS :: Bit(v, j) == Bit(w, j)
    ensures v == w
  {
    Pow2Of64();
    Extensional(v, w, 64);
  }

  // ---- counting ----

  /** The number of one bits of w below k. */
  function OnesBelow(w: Word, k: nat): nat {
    if k == 0 then 0 else OnesBelow(w, k - 1) + (if Bit(w, k - 1) then 1 else 0)
  }

  ghost function BitsBelow(w: Word, base: nat, k: nat): set<nat> {
    set p: nat {:trigger Bit(w, p - base)} | base <= p < base + k && Bit(w, p - base)
  }

  lemma {:induction false} OnesBelowCounts(w: Word, base: nat, k: nat)
    ensures OnesBelow(w, k) == |BitsBelow(w, base, k)|
  {
    if k > 0 {
      OnesBelowCounts(w, base, k - 1);
      var rest := BitsBelow(w, base, k - 1);
      assert BitsBelow(w, base, k) == if Bit(w, k - 1) then rest + {base + k - 1} else rest;
    } else {
      assert BitsBelow(w, base, 0) == {};
    }
  }
}
