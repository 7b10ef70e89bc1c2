/** Small definitions and facts that several modules share. */
module Basics {

  datatype Option<T> = None | Some(value: T)

  /** The sequence without its `k`-th element. */
  function Without<T>(s: seq<T>, k: nat): seq<T>
    requires k < |s|
  {
    s[..k] + s[k + 1..]
  }

  lemma Assoc<T>(x: seq<T>, y: seq<T>, z: seq<T>)
    ensures (x + y) + z == x + (y + z)
  {
  }

  lemma MulMono(a: nat, b: nat, c: nat)
    requires a <= b
    ensures a * c <= b * c
  {
  }

  // ----- quotients and remainders -----

  lemma MulNext(a: nat, b: nat, d: nat)
    requires a < b
    ensures a * d + d <= b * d
  {
    assert b * d == a * d + (b - a) * d;
    assert (b - a) * d == d + (b - a - 1) * d;
  }

  lemma SameQuotient(d: nat, q: nat, r: nat, q': nat, r': nat)
    requires r < d && r' < d && q * d + r == q' * d + r'
    ensures q == q' && r == r'
  {
    if q < q' {
      MulNext(q, q', d);
    } else if q' < q {
      MulNext(q', q, d);
    }
  }

  lemma Euclid(n: nat, d: nat)
    requires d > 0
    ensures (n / d) * d + n % d == n && n % d < d
  {
  }

  lemma Quotient(n: nat, d: nat, q: nat, r: nat)
    requires d > 0 && r < d && n == q * d + r
    ensures n / d == q && n % d == r
  {
    Euclid(n, d);
    SameQuotient(d, q, r, n / d, n % d);
  }

  lemma MulAdd(a: nat, b: nat, d: nat)
    ensures (a + b) * d == a * d + b * d
  {
  }

  lemma SmallMod(a: nat, m: nat)
    requires a < m
    ensures a % m == a
  {
    Quotient(a, m, 0, a);
  }
}
