/** Divisibility and the gcd loop (`gcd`, `crates/vissue-core/src/consensus.rs`). */
module Divisors {
  function Times(k: int, d: int): int {
    k * d
  }

  ghost predicate Divides(d: int, a: int) {
    exists k :: a == Times(k, d)
  }

  lemma DividesZero(d: int)
    ensures Divides(d, 0)
  {
    assert 0 == Times(0, d);
  }

  lemma DividesItself(d: int)
    ensures Divides(d, d) && Divides(d, -d)
  {
    assert d == Times(1, d) && -d == Times(-1, d);
  }

  lemma DividesSum(d: int, a: int, b: int)
    requires Divides(d, a) && Divides(d, b)
    ensures Divides(d, a + b) && Divides(d, a - b)
  {
    var k :| a == Times(k, d);
    var l :| b == Times(l, d);
    assert a + b == Times(k + l, d) && a - b == Times(k - l, d);
  }

  lemma DividesMultiple(d: int, a: int, q: int)
    requires Divides(d, a)
    ensures Divides(d, q * a)
  {
    var k :| a == Times(k, d);
    MultipleOfMultiple(q, k, d);
    assert q * a == Times(q * k, d);
  }

  lemma MultipleOfMultiple(q: int, k: int, d: int)
    ensures q * (k * d) == (q * k) * d
  {
  }

  lemma ZeroDividesZero(a: int)
    requires Divides(0, a)
    ensures a == 0
  {
  }

  function AbsInt(a: int): nat {
    if a < 0 then -a else a
  }

  ghost predicate GreatestDivisor(g: int, a: int, b: int) {
    && Divides(g, a) && Divides(g, b)
    && forall d :: Divides(d, a) && Divides(d, b) ==> Divides(d, g)
  }

  lemma SameDivisors(a: int, b: int)
    requires a == b || a == -b
    ensures forall d :: Divides(d, a) <==> Divides(d, b)
  {
    forall d ensures Divides(d, a) <==> Divides(d, b) {
      if Divides(d, a) { DividesMultiple(d, a, -1); }
      if Divides(d, b) { DividesMultiple(d, b, -1); }
    }
  }

  lemma RemainderDivisors(a: nat, b: nat)
    requires b > 0
    ensures forall d :: Divides(d, a) && Divides(d, b) <==> Divides(d, b) && Divides(d, a % b)
  {
    forall d ensures Divides(d, a) && Divides(d, b) <==> Divides(d, b) && Divides(d, a % b) {
      if Divides(d, b) {
        DividesMultiple(d, b, a / b);
        if Divides(d, a) { DividesSum(d, a, a / b * b); }
        if Divides(d, a % b) { DividesSum(d, a % b, a / b * b); }
      }
    }
  }

  method Gcd(x: int, y: int) returns (g: nat)
    ensures GreatestDivisor(g, x, y)
  {
    hide Divides;
    var a: nat, b: nat := AbsInt(x), AbsInt(y);
    SameDivisors(a, x);
    SameDivisors(b, y);
    while b != 0
      invariant forall d :: Divides(d, a) && Divides(d, b) <==> Divides(d, x) && Divides(d, y)
    {
      RemainderDivisors(a, b);
      a, b := b, a % b;
    }
    DividesItself(a);
    DividesZero(a);
    forall d | Divides(d, a) ensures Divides(d, x) && Divides(d, y) {
      DividesZero(d);
    }
    forall d | Divides(d, x) && Divides(d, y) ensures Divides(d, a) {}
    g := a;
  }
}
