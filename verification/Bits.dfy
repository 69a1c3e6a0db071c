/**
 Words of 64 bits as numbers: shifts, or, exclusive or, and the signed reading of a word, as the
 codec of spikes/data-model/spike.rs uses them.
 */
module Bits {
  import opened Basics
  import opened Tokens

  const I63: int := 0x8000_0000_0000_0000

  function One(b: bool): nat {
    if b then 1 else 0
  }

  function Or(x: nat, y: nat): nat
    decreases x + y
  {
    if x == 0 && y == 0 then 0
    else 2 * Or(x / 2, y / 2) + One(x % 2 == 1 || y % 2 == 1)
  }

  function Xor(x: nat, y: nat): nat
    decreases x + y
  {
    if x == 0 && y == 0 then 0
    else 2 * Xor(x / 2, y / 2) + One(x % 2 != y % 2)
  }

  /** `x << sh`: a release build takes the shift modulo 64, and the bits that leave are lost. */
  function Shl(x: nat, sh: nat): nat {
    x * Pow2(sh % 64) % U64
  }

  /** The word of a signed number, and the signed number of a word. */
  function Word(x: int): nat {
    x % U64
  }

  function Signed(w: nat): int {
    if w < I63 then w else w - U64
  }

  // ---- or adds what does not overlap

  lemma {:induction false} OrNothing(y: nat)
    ensures Or(0, y) == y
  {
    if y == 0 {
    } else {
      OrNothing(y / 2);
    }
  }

  lemma Halves(q: nat, n: nat)
    requires n > 0
    ensures q * Pow2(n) / 2 == q * Pow2(n - 1) && q * Pow2(n) % 2 == 0
  {
    var h := q * Pow2(n - 1);
    assert q * Pow2(n) == q * (2 * Pow2(n - 1)) == 2 * h;
  }

  lemma {:induction false} OrAdds(x: nat, q: nat, n: nat)
    requires x < Pow2(n)
    ensures Or(x, q * Pow2(n)) == x + q * Pow2(n)
    decreases n
  {
    if n == 0 {
      OrNothing(q);
    } else {
      Halves(q, n);
      OrAdds(x / 2, q, n - 1);
      OrStep(x, q * Pow2(n), q * Pow2(n - 1));
    }
  }

  lemma OrStep(x: nat, y: nat, h: nat)
    requires y == 2 * h && Or(x / 2, h) == x / 2 + h
    ensures Or(x, y) == x + y
  {
    assert y / 2 == h && y % 2 == 0;
  }

  /** A shift that loses nothing multiplies. */
  lemma ShlMultiplies(x: nat, sh: nat)
    requires sh < 64 && x * Pow2(sh) < U64
    ensures Shl(x, sh) == x * Pow2(sh)
  {
    hide Pow2;
    assert sh % 64 == sh;
  }

  lemma {:induction false} PowersAdd(m: nat, n: nat)
    ensures Pow2(m + n) == Pow2(m) * Pow2(n)
  {
    if n == 0 {
    } else {
      PowersAdd(m, n - 1);
      assert Pow2(m + n) == 2 * (Pow2(m) * Pow2(n - 1)) == Pow2(m) * (2 * Pow2(n - 1));
    }
  }

  lemma {:induction false} PowersRise(m: nat, n: nat)
    requires m <= n
    ensures Pow2(m) <= Pow2(n)
    decreases n
  {
    if m == n {
    } else {
      PowersRise(m, n - 1);
    }
  }

  lemma ByteSize()
    ensures Pow2(8) == 256
  {
  }

  lemma WordSize()
    ensures Pow2(64) == U64
  {
    hide Pow2;
    ByteSize();
    PowersAdd(8, 8);
    PowersAdd(16, 16);
    PowersAdd(32, 32);
  }

  // ---- exclusive or with all ones takes the complement

  lemma {:induction false} XorNothing(x: nat)
    ensures Xor(x, 0) == x
  {
    if x == 0 {
    } else {
      XorNothing(x / 2);
    }
  }

  lemma {:induction false} XorOnes(x: nat, n: nat)
    requires x < Pow2(n)
    ensures Xor(x, Pow2(n) - 1) == Pow2(n) - 1 - x
    decreases n
  {
    if n == 0 {
    } else {
      var ones := Pow2(n - 1) - 1;
      XorOnes(x / 2, n - 1);
      assert Pow2(n) - 1 == 2 * ones + 1;
      assert (2 * ones + 1) / 2 == ones && (2 * ones + 1) % 2 == 1;
    }
  }

  /** Exclusive or with a sign, which is no ones or all ones. */
  lemma XorSign(x: nat, negative: bool)
    requires x < U64
    ensures Xor(x, Word(if negative then -1 else 0)) == if negative then U64 - 1 - x else x
  {
    WordSize();
    if negative {
      XorOnes(x, 64);
    } else {
      XorNothing(x);
    }
  }
}
