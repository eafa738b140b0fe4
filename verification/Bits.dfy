/** Bits of an unsigned number, by its binary digits. */
module Bits {
  /** m & (1u << s) is not 0 */
  predicate Bit(m: nat, s: nat) {
    if s == 0 then m % 2 == 1 else Bit(m / 2, s - 1)
  }

  /** m | (1u << s) */
  function SetBit(m: nat, s: nat): nat {
    if s == 0 then m - m % 2 + 1 else 2 * SetBit(m / 2, s - 1) + m % 2
  }

  /** m & ~(1u << s) */
  function ClearBit(m: nat, s: nat): (r: nat)
    ensures r <= m
  {
    if s == 0 then m - m % 2 else 2 * ClearBit(m / 2, s - 1) + m % 2
  }

  lemma {:induction false} ClearBitClears(m: nat, s: nat, t: nat)
    ensures Bit(ClearBit(m, s), t) <==> Bit(m, t) && s != t
  {
    if s > 0 && t > 0 {
      ClearBitClears(m / 2, s - 1, t - 1);
    }
  }

  function Pow2(s: nat): (p: nat)
    ensures p > 0
  {
    if s == 0 then 1 else 2 * Pow2(s - 1)
  }

  lemma {:induction false} ClearBitIs(m: nat, s: nat)
    ensures ClearBit(m, s) == if Bit(m, s) then m - Pow2(s) else m
  {
    if s > 0 {
      ClearBitIs(m / 2, s - 1);
    }
  }

  lemma {:induction false} BitAt(m: nat, s: nat)
    ensures Bit(m, s) <==> m / Pow2(s) % 2 == 1
  {
    if s > 0 {
      BitAt(m / 2, s - 1);
      HalfFirst(m, Pow2(s - 1));
    }
  }

  lemma HalfFirst(m: nat, p: nat)
    requires p > 0
    ensures m / 2 / p == m / (2 * p)
  {
    var q, r := m / 2 / p, m / 2 % p;
    assert m == 2 * (p * q + r) + m % 2 == (2 * p) * q + (2 * r + m % 2);
    assert 0 <= 2 * r + m % 2 < 2 * p;
    QuotientIs(m, 2 * p, q, 2 * r + m % 2);
  }

  lemma QuotientIs(m: nat, d: nat, q: nat, r: nat)
    requires r < d && m == d * q + r
    ensures m / d == q
  {
    assert m == d * (m / d) + m % d;
    Spaced(d, m / d, q);
    Spaced(d, q, m / d);
  }

  lemma Spaced(d: nat, a: int, b: int)
    ensures a < b ==> d * a + d <= d * b
  {
    assert a < b ==> d * (b - a - 1) >= 0;
    assert d * b == d * a + d + d * (b - a - 1);
  }

  lemma {:induction false} SetBitSets(m: nat, s: nat, t: nat)
    ensures Bit(SetBit(m, s), t) <==> Bit(m, t) || s == t
  {
    if s > 0 && t > 0 {
      SetBitSets(m / 2, s - 1, t - 1);
    }
  }

  lemma {:induction false} ZeroHasNoBit(s: nat)
    ensures !Bit(0, s)
  {
    if s > 0 {
      ZeroHasNoBit(s - 1);
    }
  }

  /** The mask m stands for the set: bit s is set exactly when s is a member. */
  ghost predicate Represents(m: nat, members: set<nat>) {
    forall s: nat :: Bit(m, s) <==> s in members
  }

  lemma {:induction false} EmptyMask()
    ensures Represents(0, {})
  {
    forall s: nat ensures !Bit(0, s) {
      ZeroHasNoBit(s);
    }
  }

  lemma {:induction false} MaskAdd(m: nat, members: set<nat>, s: nat)
    requires Represents(m, members)
    ensures Represents(SetBit(m, s), members + {s})
  {
    forall t: nat ensures Bit(SetBit(m, s), t) <==> t in members + {s} {
      SetBitSets(m, s, t);
    }
  }
}
