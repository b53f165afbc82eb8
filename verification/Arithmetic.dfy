/** Division and remainder facts that the solver does not find by itself. */
module Arithmetic {

  function Min(a: nat, b: nat): nat { if a <= b then a else b }

  function Max(a: nat, b: nat): nat { if a >= b then a else b }

  lemma ScaledBounds(a: int, t: int)
    requires a > 0
    ensures t >= 1 ==> a * t >= a
    ensures t <= -1 ==> a * t <= -a
  {
    if t >= 1 {
      assert a * t == a + a * (t - 1);
    } else if t <= -1 {
      assert a * t == -a + a * (t + 1);
    }
  }

  lemma MultipleMod(q: nat, a: nat)
    requires a > 0
    ensures (a * q) % a == 0
  {
    var d, m := (a * q) / a, (a * q) % a;
    assert a * q == a * d + m && 0 <= m < a;
    assert a * (q - d) == m;
    ScaledBounds(a, q - d);
  }

  lemma MultipleDiv(q: nat, a: nat)
    requires a > 0
    ensures (a * q) / a == q
  {
    var d, m := (a * q) / a, (a * q) % a;
    assert a * q == a * d + m && 0 <= m < a;
    assert a * (q - d) == m;
    ScaledBounds(a, q - d);
  }

  lemma InSlot(q: nat, a: nat, r: nat)
    requires r < a
    ensures (q * a + r) / a == q
  {
    var d, m := (q * a + r) / a, (q * a + r) % a;
    assert q * a + r == a * d + m && 0 <= m < a;
    assert a * (q - d) == m - r;
    ScaledBounds(a, q - d);
  }

  lemma {:induction false} SumOfMultiples(x: nat, y: nat, a: nat)
    requires a > 0 && x % a == 0 && y % a == 0
    ensures (x + y) % a == 0
  {
    var p, q := x / a, y / a;
    assert x == a * p && y == a * q;
    assert x + y == a * (p + q);
    MultipleMod(p + q, a);
  }

  lemma Monotone(a: nat, b: nat, h: nat)
    requires a <= b
    ensures a * h <= b * h
  {
    assert b * h == a * h + (b - a) * h;
  }

  lemma SlotBelow(b: nat, size: nat, o: nat, max: nat)
    requires b < max && o < size
    ensures b * size + o < max * size
  {
    assert (b + 1) * size <= max * size by {
      Monotone(b + 1, max, size);
    }
  }

  lemma SlotsDiffer(b: nat, o: nat, b': nat, o': nat, size: nat)
    requires o < size && o' < size && (b != b' || o != o')
    ensures b * size + o != b' * size + o'
  {
    if b < b' {
      SlotBelow(b, size, o, b');
    } else if b' < b {
      SlotBelow(b', size, o', b);
    }
  }

  /** Row t of a buffer of n rows of h floats lies inside it. */
  lemma RowInBuffer(t: nat, n: nat, h: nat)
    requires t < n
    ensures t * h + h <= n * h
  {
    Monotone(t + 1, n, h);
    assert (t + 1) * h == t * h + h;
  }
}
