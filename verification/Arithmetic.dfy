/** The few facts about products and quotients the solver does not find by itself. */
module Arithmetic {

  lemma {:induction false} MulMono(a: nat, b: nat, c: nat)
    requires a <= b
    ensures a * c <= b * c
    decreases b
  {
    if a < b {
      MulMono(a, b - 1, c);
      assert b * c == (b - 1) * c + c;
    }
  }

  lemma Distribute(a: nat, b: nat, c: nat)
    ensures (a + b) * c == a * c + b * c
  {
  }

  lemma LessOne(n: nat, c: nat)
    requires n > 0
    ensures n * c == (n - 1) * c + c && (n - 1) * c >= 0
  {
  }

  /** Index `q * c + r` of a table of `n` rows of `c`. */
  lemma RowIndex(n: nat, c: nat, q: nat, r: nat)
    requires q < n && r < c
    ensures 0 <= q * c <= q * c + r < n * c
  {
    MulMono(q + 1, n, c);
    assert (q + 1) * c == q * c + c;
  }

  lemma Euclid(n: nat, c: nat)
    requires c > 0
    ensures n == n / c * c + n % c && 0 <= n % c < c && 0 <= n / c * c <= n
  {
  }

  /** Quotient and remainder are determined by what they satisfy. */
  lemma UniqueQuotient(n: nat, c: nat, q: nat, r: nat)
    requires r < c && n == q * c + r
    ensures n / c == q && n % c == r
  {
    Euclid(n, c);
    WholeMultiples(q, n / c, r, c);
    WholeMultiples(n / c, q, n % c, c);
  }

  lemma WholeMultiples(q: nat, q': nat, r: nat, c: nat)
    requires r < c && q' * c <= q * c + r
    ensures q' <= q
  {
    if q < q' {
      assert (q + 1) * c == q * c + c;
      MulMono(q + 1, q', c);
    }
  }

  lemma QuotientAtLeast(n: nat, c: nat, q: nat)
    requires c > 0 && q * c <= n
    ensures q <= n / c
  {
    Euclid(n, c);
    WholeMultiples(n / c, q, n % c, c);
  }
}
