/**
 Facts about sets, sequences and division that several parts need.
 */
module Collections {
  lemma {:induction false} SubsetSize<T>(a: set<T>, b: set<T>)
    requires a <= b
    ensures |a| <= |b|
  {
    if a != {} {
      var x :| x in a;
      SubsetSize(a - {x}, b - {x});
    }
  }

  // `f` is in hand at first; `a` and then `b` come in, `p` and then `q` go out; `g` and then `h` are left.
  lemma Handover<X>(f: seq<X>, a: seq<X>, b: seq<X>, p: seq<X>, g: seq<X>, q: seq<X>, h: seq<X>)
    requires f + a == p + g && g + b == q + h
    ensures f + (a + b) == (p + q) + h
  {
    assert f + (a + b) == (f + a) + b;
    assert (p + g) + b == p + (g + b);
    assert p + (q + h) == (p + q) + h;
  }

  lemma {:induction false} UniqueDivision(x: int, d: nat, q: int, r: nat)
    requires x == q * d + r && r < d
    ensures x / d == q && x % d == r
  {
    var p, s := x / d, x % d;
    assert (p - q) * d == r - s;
    assert p - q >= 1 ==> (p - q) * d >= d;
    assert p - q <= -1 ==> (p - q) * d <= 0 - d;
  }
}
