/** Integer division rounded up, and the few facts about quotients that the limiter and the scheduler need. */
module Arithmetic {

  function CeilDiv(a: int, b: int): int
    requires b > 0
  {
    (a + b - 1) / b
  }

  lemma MulMonotone(a: int, b: int, w: int)
    requires a <= b && w >= 0
    ensures a * w <= b * w
  {
  }

  lemma QuotientUnique(x: int, q: int, r: int, w: int)
    requires w > 0 && x == q * w + r && 0 <= r < w
    ensures x / w == q
  {
    if x / w < q {
      MulMonotone(x / w + 1, q, w);
    } else if q < x / w {
      MulMonotone(q + 1, x / w, w);
    }
  }

  lemma DivShift(a: int, m: int, w: int)
    requires w > 0
    ensures (m * w + a) / w == m + a / w
  {
    var q := a / w;
    assert m * w + a == (m + q) * w + a % w;
    QuotientUnique(m * w + a, m + q, a % w, w);
  }

  lemma FloorMonotone(a: int, c: int, b: int)
    requires b > 0 && a <= c
    ensures a / b <= c / b
  {
    if c / b + 1 <= a / b {
      MulMonotone(c / b + 1, a / b, b);
    }
  }

  lemma CeilMonotone(a: int, c: int, b: int)
    requires b > 0 && a <= c
    ensures CeilDiv(a, b) <= CeilDiv(c, b)
  {
    FloorMonotone(a + b - 1, c + b - 1, b);
  }

  lemma NegatedFloor(x: int, w: int)
    requires w > 0
    ensures (w - 1 - x) / w == -(x / w)
  {
    QuotientUnique(w - 1 - x, -(x / w), w - 1 - x % w, w);
  }

  /** Taking b things at a time, n things take one round more than n - b of them. */
  lemma {:induction false} CeilStep(n: nat, b: int)
    requires b > 0
    ensures CeilDiv(n, b) >= 0 && (CeilDiv(n, b) == 0 <==> n == 0)
    ensures CeilDiv(n, b) == if n == 0 then 0 else if n <= b then 1 else CeilDiv(n - b, b) + 1
    decreases n
  {
    if n == 0 {
      QuotientUnique(b - 1, 0, b - 1, b);
    } else if n <= b {
      QuotientUnique(n + b - 1, 1, n - 1, b);
    } else {
      DivShift(n - 1, 1, b);
      CeilStep(n - b, b);
    }
  }
}
