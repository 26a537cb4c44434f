// Facts about products and remainders that more than one module needs.
module Arithmetic {

  lemma Spread(a: int, b: int, c: int)
    ensures (a + b) * c == a * c + b * c
  {
  }

  lemma SameRemainder(x: int, q: int, g: nat, r: nat)
    requires 0 < g && x == q * g + r && r < g
    ensures x % g == r
  {
    var d := x / g - q;
    assert x == (x / g) * g + x % g;
    assert d * g == r - x % g by { Spread(x / g, -q, g); }
    if d > 0 {
      Times(d - 1, g);
      Spread(d - 1, 1, g);
    } else if d < 0 {
      Times(-d - 1, g);
      Spread(-d - 1, 1, g);
    }
  }

  lemma Times(a: nat, b: nat)
    ensures a * b >= 0
  {
  }
}
