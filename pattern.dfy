/** pattern.js: the stripe pattern, alternating between two colours along x. */
module Patterns {
  import opened Tuples

  /** `Stripe(c1, c2)`: the first colour is `a`, the second `b`. */
  datatype Stripe = Stripe(a: Tuple, b: Tuple)

  /** JavaScript's `%` on integers: the remainder takes the sign of the dividend. */
  function JsRem(n: int, d: int): (r: int)
    requires d != 0
    ensures n >= 0 ==> 0 <= r < (if d > 0 then d else -d)
    ensures n < 0 ==> -(if d > 0 then d else -d) < r <= 0
  {
    if n >= 0 then n % d else -((-n) % d)
  }

  /** A JavaScript remainder by 2 is 0 exactly for the even numbers, negative ones too. */
  lemma JsRemByTwo(n: int)
    ensures (JsRem(n, 2) == 0) <==> (n % 2 == 0)
  {
  }

  /** `stripeAt(s, p)`: `a` when `Math.floor(p.x) % 2 === 0`, else `b`. */
  function StripeAt(s: Stripe, p: Tuple): (c: Tuple)
    ensures c == s.a || c == s.b
    ensures p.x.Floor % 2 == 0 ==> c == s.a
    ensures p.x.Floor % 2 != 0 ==> c == s.b
  {
    JsRemByTwo(p.x.Floor);
    if JsRem(p.x.Floor, 2) == 0 then s.a else s.b
  }

  /** The colour is `a` exactly on the stripes [2k, 2k + 1), for negative k too, and `b`
      on the others. */
  lemma StripeAtParity(s: Stripe, p: Tuple)
    ensures p.x.Floor % 2 == 0 ==> StripeAt(s, p) == s.a
    ensures p.x.Floor % 2 != 0 ==> StripeAt(s, p) == s.b
    ensures (exists k: int :: (2 * k) as real <= p.x < (2 * k + 1) as real) ==> StripeAt(s, p) == s.a
  {
    JsRemByTwo(p.x.Floor);
    if k: int :| (2 * k) as real <= p.x < (2 * k + 1) as real {
      assert p.x.Floor == 2 * k;
    }
  }

  /** The colour depends on x alone. */
  lemma StripeIgnoresYZ(s: Stripe, p: Tuple, y: real, z: real)
    ensures StripeAt(s, p.(y := y, z := z)) == StripeAt(s, p)
  {
  }

  /** Moving two units along x gives the same colour. */
  lemma StripePeriodTwo(s: Stripe, p: Tuple)
    ensures StripeAt(s, p.(x := p.x + 2.0)) == StripeAt(s, p)
  {
    var f := p.x.Floor;
    JsRemByTwo(f);
    JsRemByTwo(f + 2);
    assert f as real <= p.x < f as real + 1.0;
    assert (p.x + 2.0).Floor == f + 2;
    assert (f + 2) % 2 == f % 2;
  }

  /** The examples: white at x = 0 and 0.9, black at 1, -0.1 and -1, white again at -1.1,
      for the stripe of white and black. */
  lemma StripeExamples(a: Tuple, b: Tuple)
    ensures Stripe(a, b).a == a && Stripe(a, b).b == b
    ensures StripeAt(Stripe(a, b), Point(0.0, 0.0, 0.0)) == a
    ensures StripeAt(Stripe(a, b), Point(0.9, 0.0, 0.0)) == a
    ensures StripeAt(Stripe(a, b), Point(1.0, 0.0, 0.0)) == b
    ensures StripeAt(Stripe(a, b), Point(-0.1, 0.0, 0.0)) == b
    ensures StripeAt(Stripe(a, b), Point(-1.0, 0.0, 0.0)) == b
    ensures StripeAt(Stripe(a, b), Point(-1.1, 0.0, 0.0)) == a
  {
    assert (0.9).Floor == 0;
    assert (-0.1).Floor == -1;
    assert (-1.1).Floor == -2;
  }
}
