/** Natural numbers as strings of bits. */
module Bits {
  predicate Bit(w: nat, k: nat) {
    if k == 0 then w % 2 == 1 else Bit(w / 2, k - 1)
  }

  function TrailingZeros(w: nat): (k: nat)
    requires w > 0
  {
    if w % 2 == 1 then 0 else 1 + TrailingZeros(w / 2)
  }

  /** `w & (w - 1)`. */
  function ClearLowest(w: nat): (r: nat)
    requires w > 0
    ensures r < w
  {
    if w % 2 == 1 then w - 1 else 2 * ClearLowest(w / 2)
  }

  function Power(k: nat): (p: nat)
    ensures p > 0
  {
    if k == 0 then 1 else 2 * Power(k - 1)
  }

  lemma {:induction false} NoBits(k: nat)
    ensures !Bit(0, k)
  {
    if k > 0 {
      NoBits(k - 1);
    }
  }

  lemma {:induction false} HighBitsClear(w: nat, width: nat, k: nat)
    requires w < Power(width) && k >= width
    ensures !Bit(w, k)
  {
    if width == 0 {
      NoBits(k);
    } else {
      HighBitsClear(w / 2, width - 1, k - 1);
    }
  }

  lemma {:induction false} LowestBit(w: nat, k: nat)
    requires w > 0
    ensures k < TrailingZeros(w) ==> !Bit(w, k)
    ensures k == TrailingZeros(w) ==> Bit(w, k)
    ensures Bit(ClearLowest(w), k) <==> Bit(w, k) && k != TrailingZeros(w)
  {
    if w % 2 == 1 {
      if k > 0 {
        assert (w - 1) / 2 == w / 2;
      }
    } else if k > 0 {
      LowestBit(w / 2, k - 1);
      assert 2 * ClearLowest(w / 2) / 2 == ClearLowest(w / 2);
    }
  }

  lemma Twice(x: nat, y: nat)
    ensures 2 * (x * y) == 2 * x * y
  {
  }

  lemma {:induction false} PowerAdd(a: nat, b: nat)
    ensures Power(a + b) == Power(a) * Power(b)
  {
    if a > 0 {
      PowerAdd(a - 1, b);
      Twice(Power(a - 1), Power(b));
    }
  }

  function And(a: nat, b: nat): nat {
    if a == 0 || b == 0 then 0 else 2 * And(a / 2, b / 2) + (a % 2) * (b % 2)
  }

  function Or(a: nat, b: nat): nat
    decreases a + b
  {
    if a == 0 then b else if b == 0 then a
    else 2 * Or(a / 2, b / 2) + (if a % 2 == 1 || b % 2 == 1 then 1 else 0)
  }

  /** Bits that do not overlap add up. */
  lemma {:induction false} OrShifted(high: nat, low: nat, k: nat)
    requires low < Power(k)
    ensures Or(high * Power(k), low) == high * Power(k) + low
  {
    var shifted := high * Power(k);
    if k > 0 && shifted != 0 && low != 0 {
      assert shifted == 2 * (high * Power(k - 1));
      OrShifted(high, low / 2, k - 1);
    }
  }

  lemma {:induction false} OrSymmetric(a: nat, b: nat)
    ensures Or(a, b) == Or(b, a)
    decreases a + b
  {
    if a != 0 && b != 0 {
      OrSymmetric(a / 2, b / 2);
    }
  }

  function ShiftRight(a: nat, k: nat): nat {
    if k == 0 then a else ShiftRight(a / 2, k - 1)
  }

  /** `k` ones. */
  function Ones(k: nat): nat {
    if k == 0 then 0 else 2 * Ones(k - 1) + 1
  }

  predicate IsPowerOfTwo(n: nat) {
    n == 1 || (n > 1 && n % 2 == 0 && IsPowerOfTwo(n / 2))
  }

  function Width(n: nat): nat {
    if n == 0 then 0 else 1 + Width(n / 2)
  }

  lemma {:induction false} BitShifted(a: nat, k: nat, j: nat)
    ensures Bit(ShiftRight(a, k), j) == Bit(a, k + j)
  {
    if k > 0 {
      BitShifted(a / 2, k - 1, j);
    }
  }

  lemma {:induction false} BitAnd(a: nat, b: nat, j: nat)
    ensures Bit(And(a, b), j) <==> Bit(a, j) && Bit(b, j)
  {
    if a == 0 || b == 0 {
      NoBits(j);
    } else {
      var half := And(a / 2, b / 2);
      assert And(a, b) == 2 * half + (a % 2) * (b % 2) && (a % 2) * (b % 2) <= 1;
      if j > 0 {
        BitAnd(a / 2, b / 2, j - 1);
        assert And(a, b) / 2 == half;
      }
    }
  }

  lemma {:induction false} AndAtMost(a: nat, b: nat)
    ensures And(a, b) <= b
  {
    if a != 0 && b != 0 {
      AndAtMost(a / 2, b / 2);
      assert (a % 2) * (b % 2) <= b % 2;
    }
  }

  lemma {:induction false} ShiftAnd(a: nat, b: nat, k: nat)
    ensures ShiftRight(And(a, b), k) == And(ShiftRight(a, k), ShiftRight(b, k))
  {
    if k > 0 {
      ShiftAnd(a / 2, b / 2, k - 1);
      AndHalf(a, b);
    }
  }

  lemma AndHalf(a: nat, b: nat)
    ensures And(a, b) / 2 == And(a / 2, b / 2)
  {
    if a != 0 && b != 0 {
      assert (a % 2) * (b % 2) <= 1;
    }
  }

  /** One less than a power of two is all ones. */
  lemma {:induction false} PowerLessOne(m: nat)
    requires IsPowerOfTwo(m + 1)
    ensures m == Ones(Width(m)) && (m > 0 ==> m % 2 == 1)
  {
    if m > 0 {
      assert (m + 1) / 2 == m / 2 + 1;
      PowerLessOne(m / 2);
    }
  }

  lemma {:induction false} OnesBits(k: nat, j: nat)
    ensures Bit(Ones(k), j) <==> j < k
  {
    if k == 0 {
      NoBits(j);
    } else if j > 0 {
      OnesBits(k - 1, j - 1);
    }
  }

  lemma {:induction false} OddPart(w: nat)
    requires w > 0
    ensures ShiftRight(w, TrailingZeros(w)) % 2 == 1
  {
    if w % 2 == 0 {
      OddPart(w / 2);
    }
  }

  lemma {:induction false} OnesThenPower(k: nat)
    ensures IsPowerOfTwo(Ones(k) + 1)
  {
    if k > 0 {
      OnesThenPower(k - 1);
      assert (Ones(k) + 1) / 2 == Ones(k - 1) + 1;
    }
  }

  lemma {:induction false} SameBits(a: nat, b: nat)
    requires forall j: nat :: Bit(a, j) == Bit(b, j)
    ensures a == b
    decreases a + b
  {
    if a + b > 0 {
      forall j: nat ensures Bit(a / 2, j) == Bit(b / 2, j) {
        assert Bit(a, j + 1) == Bit(b, j + 1);
      }
      SameBits(a / 2, b / 2);
      assert Bit(a, 0) == Bit(b, 0);
    }
  }

  lemma {:induction false} ShiftShrinks(a: nat, k: nat)
    ensures ShiftRight(a, k) <= a
  {
    if k > 0 {
      ShiftShrinks(a / 2, k - 1);
    }
  }
}
