/**
 * What happens to a 64-bit request id on its way to the server and back.
 *
 * The client writes the id as an integer.  The server decodes it into an
 * `interface{}`, that is, into a float64: the nearest number of at most 53
 * significant bits, ties to even (IEEE 754-2019, section 4.3.1).  It echoes that
 * number, the client decodes it into a float64 again and converts it to uint64.
 */
module Correlation {
  import opened Basics
  import opened RequestTable

  const P52: nat := 0x10_0000_0000_0000
  const P53: nat := 0x20_0000_0000_0000

  /** How many low bits of `n` do not fit in 53. */
  function Exp(n: nat): nat {
    if n < P53 then 0 else 1 + Exp(n / 2)
  }

  /** The significand to keep when `rem` of a unit of `p` is left over. */
  function ToEven(q: nat, rem: nat, p: nat): nat {
    if 2 * rem < p || (2 * rem == p && q % 2 == 0) then q else q + 1
  }

  /** The nearer multiple of `p`, the even one in the middle. */
  function ScaledRound(n: nat, p: nat): nat
    requires p > 0
  {
    ToEven(n / p, n % p, p) * p
  }

  /** The float64 an integer literal decodes to. */
  function Round(n: nat): nat {
    ScaledRound(n, Pow2(Exp(n)))
  }

  predicate IsScaled(x: nat, m: nat, e: nat) {
    x == m * Pow2(e)
  }

  /** The natural numbers float64 holds exactly, exponent range aside. */
  ghost predicate Representable(x: nat) {
    exists m: nat, e: nat :: m < P53 && IsScaled(x, m, e)
  }

  function Distance(a: int, b: int): nat {
    if a < b then b - a else a - b
  }

  /** `id` as the server holds it, and as it comes back. */
  function Echoed(id: nat): nat {
    Round(Round(id))
  }

  // ----- Powers of two

  lemma {:induction false} ExpBounds(n: nat)
    ensures n < P53 * Pow2(Exp(n))
    ensures Exp(n) > 0 ==> P52 * Pow2(Exp(n)) <= n
  {
    if n >= P53 {
      ExpBounds(n / 2);
    }
  }

  lemma Distribute(a: nat, b: nat, p: nat)
    ensures (a + b) * p == a * p + b * p
  {
  }

  lemma {:induction false} Pow2Grows(a: nat, b: nat)
    requires a <= b
    ensures Pow2(a) <= Pow2(b) && Pow2(b) == Pow2(b - a) * Pow2(a)
    decreases b - a
  {
    if a < b {
      Pow2Grows(a, b - 1);
      Distribute(Pow2(b - 1 - a), Pow2(b - 1 - a), Pow2(a));
    }
  }

  lemma MulLess(a: nat, b: nat, p: nat)
    requires a < b
    ensures a * p + p <= b * p
  {
    Distribute(a, b - a, p);
    Distribute(1, b - a - 1, p);
  }

  lemma MulOrder(a: nat, b: nat, p: nat)
    requires p > 0
    ensures a * p <= b * p <==> a <= b
  {
    if a < b { MulLess(a, b, p); }
    if b < a { MulLess(b, a, p); }
  }

  lemma QuotientBounds(n: nat, p: nat, c: nat)
    requires p > 0
    ensures n == (n / p) * p + n % p && 0 <= n % p < p
    ensures c * p <= n <==> c <= n / p
  {
    Distribute(n / p, 1, p);
    MulOrder(n / p + 1, c, p);
    MulOrder(c, n / p, p);
  }

  lemma MultipleNotBetween(c: nat, q: nat, p: nat)
    requires p > 0
    ensures c * p <= q * p || c * p >= q * p + p
  {
    MulOrder(c, q, p);
    MulOrder(q + 1, c, p);
    Distribute(q, 1, p);
  }

  /** A number with a smaller unit than 2^k has fewer than 53 bits above it. */
  lemma SmallScaled(m: nat, e: nat, k: nat)
    requires m < P53 && e < k
    ensures m * Pow2(e) <= P52 * Pow2(k)
  {
    Pow2Grows(e, k - 1);
    MulOrder(m, P53, Pow2(e));
    assert P53 * Pow2(e) <= P53 * Pow2(k - 1) == P52 * Pow2(k);
  }

  lemma Associate(a: nat, b: nat, c: nat)
    ensures a * (b * c) == (a * b) * c
  {
  }

  lemma LargeScaled(m: nat, e: nat, k: nat)
    requires k <= e
    ensures m * Pow2(e) == (m * Pow2(e - k)) * Pow2(k)
  {
    Pow2Grows(k, e);
    Associate(m, Pow2(e - k), Pow2(k));
  }

  /** No representable number lies strictly between two neighbouring multiples of the spacing. */
  lemma NothingBetween(n: nat, y: nat)
    requires Representable(y)
    ensures var p := Pow2(Exp(n)); y <= (n / p) * p || y >= (n / p) * p + p
  {
    hide Pow2, Exp;
    var k := Exp(n);
    var p, q := Pow2(k), n / Pow2(k);
    var m: nat, e: nat :| m < P53 && IsScaled(y, m, e);
    if e < k {
      ExpBounds(n);
      QuotientBounds(n, p, P52);
      SmallScaled(m, e, k);
      MulOrder(P52, q, p);
    } else {
      LargeScaled(m, e, k);
      MultipleNotBetween(m * Pow2(e - k), q, p);
    }
  }

  // ----- Rounding

  /** The result is representable, and no representable number is nearer. */
  lemma RoundIsNearest(n: nat, y: nat)
    ensures Representable(Round(n))
    ensures Representable(y) ==> Distance(n, Round(n)) <= Distance(n, y)
  {
    var k := Exp(n);
    var p, q := Pow2(k), n / Pow2(k);
    ExpBounds(n);
    QuotientBounds(n, p, P53);
    Distribute(q, 1, p);
    if Round(n) == q * p {
      assert IsScaled(Round(n), q, k);
    } else if q + 1 < P53 {
      assert IsScaled(Round(n), q + 1, k);
    } else {
      assert q + 1 == 2 * P52;
      assert Pow2(k + 1) == 2 * p;
      assert (q + 1) * p == P52 * Pow2(k + 1);
      assert IsScaled(Round(n), P52, k + 1);
    }
    if Representable(y) {
      NothingBetween(n, y);
    }
  }

  lemma Tie(q: nat, rem: nat, p: nat)
    requires 2 * rem == p
    ensures ToEven(q, rem, p) % 2 == 0
    ensures Distance(q * p + rem, ToEven(q, rem, p) * p) == rem
  {
    Distribute(q, 1, p);
  }

  /** Of two representable numbers equally near, the one with the even significand is taken. */
  lemma TiesToEven(n: nat)
    requires 2 * (n % Pow2(Exp(n))) == Pow2(Exp(n))
    ensures exists q: nat :: q % 2 == 0 && IsScaled(Round(n), q, Exp(n))
    ensures Distance(n, Round(n)) == n % Pow2(Exp(n))
  {
    var p := Pow2(Exp(n));
    QuotientBounds(n, p, 0);
    Tie(n / p, n % p, p);
    assert IsScaled(Round(n), ToEven(n / p, n % p, p), Exp(n));
  }

  /** Rounding changes nothing exactly when the low bits that do not fit are zero. */
  lemma ExactIff(n: nat)
    ensures Round(n) == n <==> n % Pow2(Exp(n)) == 0
    ensures Round(n) == n <==> Representable(n)
  {
    var p := Pow2(Exp(n));
    QuotientBounds(n, p, 0);
    Distribute(n / p, 1, p);
    RoundIsNearest(n, n);
  }

  lemma RoundIdempotent(n: nat)
    ensures Echoed(n) == Round(n)
  {
    RoundIsNearest(n, 0);
    ExactIff(Round(n));
  }

  lemma RoundMonotone(m: nat, n: nat)
    requires m <= n
    ensures Round(m) <= Round(n)
  {
    RoundIsNearest(m, Round(n));
    RoundIsNearest(n, Round(m));
  }

  /** Ids up to 2^53 survive; the first two to become one are 2^53 and 2^53 + 1. */
  lemma FirstCollision(m: nat, n: nat)
    ensures n <= P53 ==> Round(n) == n
    ensures m < n && Round(m) == Round(n) ==> n >= P53 + 1
    ensures Round(P53) == Round(P53 + 1)
  {
    assert Pow2(0) == 1 && Pow2(1) == 2 * Pow2(0);
    assert Exp(P53) == 1 && Exp(P53 + 1) == 1;
  }

  lemma {:induction false} ExpUnique(n: nat, k: nat)
    requires k > 0 && P52 * Pow2(k) <= n < P53 * Pow2(k)
    ensures Exp(n) == k
  {
    if k > 1 {
      ExpUnique(n / 2, k - 1);
    } else {
      assert Pow2(1) == 2 * Pow2(0);
      assert n / 2 < P53;
    }
  }

  lemma Pow2At11()
    ensures Pow2(11) == 0x800
  {
    assert Pow2(4) == 16;
    assert Pow2(8) == 256;
  }

  /** The echoed id is a uint64 unless the id is one of the last 2^10. */
  lemma FitsUint64(id: nat)
    requires id < ID_SPACE
    ensures Echoed(id) < ID_SPACE <==> id < ID_SPACE - 0x400
  {
    RoundIdempotent(id);
    var tie := ID_SPACE - 0x400;
    Pow2At11();
    ExpUnique(tie, 11);
    assert tie == (P53 - 1) * 0x800 + 0x400;
    QuotientBounds(tie, 0x800, P53 - 1);
    assert Round(tie) == ID_SPACE;
    if id < tie {
      assert IsScaled(ID_SPACE - 0x800, P53 - 1, 11);
      RoundIsNearest(id, ID_SPACE - 0x800);
    } else {
      RoundMonotone(tie, id);
    }
  }

  // ----- The round trip of a request

  /**
   * A reply echoing the id of `r` makes the client look up what `uint64` makes of the echo, and it finds `r` itself
   * exactly when that is the id.  Below the last 2^10 ids, whose echo is out of range, this is exactly when the id
   * fits in 53 significant bits; otherwise the client finds another request or none.
   */
  lemma ReplyFindsItsRequest(t: Table, r: nat, converted: nat)
    requires Exact(t) && r in t.list && (Echoed(IdOf(r)) < ID_SPACE ==> converted == Echoed(IdOf(r)))
    ensures Remove(t, converted).1 == Some(r) <==> converted == IdOf(r)
    ensures IdOf(r) < ID_SPACE - 0x400 ==>
      (Remove(t, converted).1 == Some(r) <==> IdOf(r) % Pow2(Exp(IdOf(r))) == 0)
    ensures IdOf(r) <= P53 ==> Remove(t, converted).1 == Some(r)
  {
    hide Round, Exp, Pow2;
    FitsUint64(IdOf(r));
    RoundIdempotent(IdOf(r));
    ExactIff(IdOf(r));
    FirstCollision(0, IdOf(r));
  }
}
