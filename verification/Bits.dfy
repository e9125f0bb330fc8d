/** Unsigned words as naturals: powers of two, shifts, single bits and bitwise AND. */
module Bits {
  function Pow2(n: nat): (p: nat)
    ensures p > 0
  {
    if n == 0 then 1 else 2 * Pow2(n - 1)
  }

  function Shr(x: nat, k: nat): nat {
    if k == 0 then x else Shr(x / 2, k - 1)
  }

  function Shl(x: nat, k: nat): (y: nat)
    ensures x > 0 ==> y > 0
  {
    if k == 0 then x else 2 * Shl(x, k - 1)
  }

  function Bit(x: nat, i: nat): nat {
    Shr(x, i) % 2
  }

  function And(x: nat, y: nat): (a: nat)
    ensures a <= x && a <= y
  {
    if x == 0 || y == 0 then 0 else 2 * And(x / 2, y / 2) + (if x % 2 == 1 && y % 2 == 1 then 1 else 0)
  }

  /** The lowest `n` bits. */
  function Low(x: nat, n: nat): nat {
    if n == 0 then 0 else 2 * Low(x / 2, n - 1) + x % 2
  }

  lemma {:induction false} AndLow(x: nat, n: nat)
    ensures And(x, Pow2(n) - 1) == Low(x, n)
  {
    if n > 0 {
      AndLow(x / 2, n - 1);
      assert (Pow2(n) - 1) / 2 == Pow2(n - 1) - 1;
      if x == 0 {
        assert And(0, Pow2(n - 1) - 1) == 0;
      }
    }
  }

  /** AND with `n` ones followed by `k` zeros keeps bits `k` to `n + k - 1` where they are. */
  lemma {:induction false} AndShifted(x: nat, n: nat, k: nat)
    ensures And(x, Shl(Pow2(n) - 1, k)) == Shl(Low(Shr(x, k), n), k)
  {
    if k == 0 {
      AndLow(x, n);
    } else {
      AndShifted(x / 2, n, k - 1);
      AndOfDouble(x, Shl(Pow2(n) - 1, k - 1));
    }
  }

  lemma {:induction false} ShlOfOne(k: nat)
    ensures Shl(1, k) == Pow2(k)
  {
    if k > 0 {
      ShlOfOne(k - 1);
    }
  }

  lemma ShlIsSmall(x: nat, n: nat, k: nat)
    requires x < Pow2(n)
    ensures Shl(x, k) < Pow2(n + k)
  {
    if k > 0 {
      ShlIsSmall(x, n, k - 1);
    }
  }

  lemma {:induction false} ShlIsInjective(x: nat, y: nat, k: nat)
    ensures Shl(x, k) == Shl(y, k) <==> x == y
  {
    if k > 0 {
      ShlIsInjective(x, y, k - 1);
    }
  }

  /** Shifting left and then right gives the word back. */
  lemma {:induction false} ShrOfShl(x: nat, k: nat)
    ensures Shr(Shl(x, k), k) == x
  {
    if k > 0 {
      ShrOfShl(x, k - 1);
    }
  }

  lemma {:induction false} AndOfDouble(x: nat, y: nat)
    ensures And(x, 2 * y) == 2 * And(x / 2, y)
  {
  }

  lemma {:induction false} LowOfSmall(x: nat, n: nat)
    requires x < Pow2(n)
    ensures Low(x, n) == x
  {
    if n > 0 {
      LowOfSmall(x / 2, n - 1);
    }
  }

  lemma ShrIsSmall(x: nat, n: nat, k: nat)
    requires x < Pow2(n + k)
    ensures Shr(x, k) < Pow2(n)
  {
    if k > 0 {
      ShrIsSmall(x / 2, n, k - 1);
    }
  }

  lemma {:induction false} ShrAgain(x: nat, j: nat, k: nat)
    ensures Shr(Shr(x, j), k) == Shr(x, j + k)
  {
    if j > 0 {
      ShrAgain(x / 2, j - 1, k);
    }
  }

  /** Words are equal when all their bits are. */
  lemma {:induction false} SameBits(x: nat, y: nat, n: nat)
    requires x < Pow2(n) && y < Pow2(n)
    requires forall i :: 0 <= i < n ==> Bit(x, i) == Bit(y, i)
    ensures x == y
  {
    if n > 0 {
      forall i | 0 <= i < n - 1
        ensures Bit(x / 2, i) == Bit(y / 2, i)
      {
        assert Bit(x, i + 1) == Bit(y, i + 1);
      }
      SameBits(x / 2, y / 2, n - 1);
      assert Bit(x, 0) == Bit(y, 0);
    }
  }

  /** The bits above position `k` agree exactly when the shifted words do. */
  lemma SameHighBits(x: nat, y: nat, n: nat, k: nat)
    requires x < Pow2(n + k) && y < Pow2(n + k)
    ensures Shr(x, k) == Shr(y, k) <==> forall i :: k <= i < n + k ==> Bit(x, i) == Bit(y, i)
  {
    forall i | k <= i < n + k
      ensures Bit(Shr(x, k), i - k) == Bit(x, i) && Bit(Shr(y, k), i - k) == Bit(y, i)
    {
      ShrAgain(x, k, i - k);
      ShrAgain(y, k, i - k);
    }
    if forall i :: k <= i < n + k ==> Bit(x, i) == Bit(y, i) {
      ShrIsSmall(x, n, k);
      ShrIsSmall(y, n, k);
      forall i | 0 <= i < n
        ensures Bit(Shr(x, k), i) == Bit(Shr(y, k), i)
      {
        assert Bit(x, i + k) == Bit(y, i + k);
      }
      SameBits(Shr(x, k), Shr(y, k), n);
    }
  }
}
