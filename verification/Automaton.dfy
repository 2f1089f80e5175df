/** The position automaton that the resampler documents: it emits while the
    position is negative and reads otherwise. Arithmetic is exact. */
module Automaton {

  /** Samples read and samples emitted. */
  datatype Counts = Counts(used: nat, made: nat)

  function Plus(a: Counts, b: Counts): Counts {
    Counts(a.used + b.used, a.made + b.made)
  }

  /** The documented loop, for n samples of input and space for m of output. */
  function Steps(position: real, step: real, n: nat, m: nat): (k: Counts)
    ensures k.used <= n && k.made <= m
    decreases n + m
  {
    if m == 0 then Counts(0, 0)
    else if position < 0.0 then Plus(Counts(0, 1), Steps(position + step, step, n, m - 1))
    else if n > 0 then Plus(Counts(1, 0), Steps(position - 1.0, step, n - 1, m))
    else Counts(0, 0)
  }

  /** The position k outputs later. */
  function After(pos: real, step: real, k: nat): real
    decreases k
  {
    if k == 0 then pos else After(pos + step, step, k - 1)
  }

  lemma {:induction false} AfterClosedForm(pos: real, step: real, k: nat)
    ensures After(pos, step, k) == pos + k as real * step
    decreases k
  {
    if k > 0 {
      AfterClosedForm(pos + step, step, k - 1);
      assert (k - 1) as real * step == k as real * step - step;
    }
  }

  lemma {:induction false} AfterMonotone(pos: real, step: real, k: nat)
    requires step > 0.0
    ensures pos <= After(pos, step, k)
    decreases k
  {
    if k > 0 {
      AfterMonotone(pos + step, step, k - 1);
    }
  }

  lemma {:induction false} AfterTwice(pos: real, step: real, j: nat, k: nat)
    ensures After(After(pos, step, j), step, k) == After(pos, step, j + k)
    decreases j
  {
    if j > 0 {
      AfterTwice(pos + step, step, j - 1, k);
    }
  }

  lemma {:induction false} AfterShift(pos: real, step: real, k: nat, d: real)
    ensures After(pos - d, step, k) == After(pos, step, k) - d
    decreases k
  {
    if k > 0 {
      AfterShift(pos + step, step, k - 1, d);
      assert pos - d + step == pos + step - d;
    }
  }

  lemma AfterLast(pos: real, step: real, k: nat)
    ensures After(pos, step, k + 1) == After(pos, step, k) + step
  {
    AfterTwice(pos, step, k, 1);
  }

  /** Where a run of the automaton ends. */
  function Final(position: real, step: real, k: Counts): real {
    After(position, step, k.made) - k.used as real
  }

  lemma FinalStep(position: real, step: real, k: Counts)
    ensures Final(position, step, Plus(Counts(0, 1), k)) == Final(position + step, step, k)
    ensures Final(position, step, Plus(Counts(1, 0), k)) == Final(position - 1.0, step, k)
    ensures Final(position, step, Counts(0, 0)) == position
  {
    AfterShift(position, step, k.made, 1.0);
  }

  /** Every emission happens at a negative position, and a run stops only when
      it has no space, or nothing to read at a position that is not negative. */
  lemma {:induction false} EmitsWhenNegative(position: real, step: real, n: nat, m: nat, j: nat)
    requires step > 0.0 && j < Steps(position, step, n, m).made
    ensures After(position, step, j) < Steps(position, step, n, m).used as real
    decreases n + m
  {
    AfterShift(position, step, j, 1.0);
    if position < 0.0 {
      if j > 0 {
        EmitsWhenNegative(position + step, step, n, m - 1, j - 1);
      }
    } else {
      EmitsWhenNegative(position - 1.0, step, n - 1, m, j);
    }
  }

  lemma {:induction false} StopsWhenDone(position: real, step: real, n: nat, m: nat)
    ensures var k := Steps(position, step, n, m);
            k.made == m || (k.used == n && Final(position, step, k) >= 0.0)
    decreases n + m
  {
    if m > 0 && position < 0.0 {
      var k := Steps(position + step, step, n, m - 1);
      StopsWhenDone(position + step, step, n, m - 1);
      FinalStep(position, step, k);
      assert Steps(position, step, n, m) == Plus(Counts(0, 1), k);
    } else if m > 0 && n > 0 {
      var k := Steps(position - 1.0, step, n - 1, m);
      StopsWhenDone(position - 1.0, step, n - 1, m);
      FinalStep(position, step, k);
      assert Steps(position, step, n, m) == Plus(Counts(1, 0), k);
    }
  }

  /** The position stays between -1 and any bound that the step does not exceed. */
  lemma {:induction false} PositionStaysNearZero(position: real, step: real, n: nat, m: nat, bound: real)
    requires 0.0 < step <= bound && -1.0 <= position < bound
    ensures -1.0 <= Final(position, step, Steps(position, step, n, m)) < bound
    decreases n + m
  {
    if m > 0 && position < 0.0 {
      var k := Steps(position + step, step, n, m - 1);
      PositionStaysNearZero(position + step, step, n, m - 1, bound);
      FinalStep(position, step, k);
      assert Steps(position, step, n, m) == Plus(Counts(0, 1), k);
    } else if m > 0 && n > 0 {
      var k := Steps(position - 1.0, step, n - 1, m);
      PositionStaysNearZero(position - 1.0, step, n - 1, m, bound);
      FinalStep(position, step, k);
      assert Steps(position, step, n, m) == Plus(Counts(1, 0), k);
    }
  }

  /* ---------- Following a run step by step ---------- */

  /** After some steps that led to position p, a run is those and the rest. */
  predicate At(start: real, step: real, n: nat, m: nat, k: Counts, p: real) {
    && k.used <= n && k.made <= m
    && Steps(start, step, n, m) == Plus(k, Steps(p, step, n - k.used, m - k.made))
  }

  lemma AtEmits(start: real, step: real, n: nat, m: nat, k: Counts, p: real)
    requires At(start, step, n, m, k, p) && k.made < m && p < 0.0
    ensures At(start, step, n, m, Counts(k.used, k.made + 1), p + step)
  {
  }

  lemma AtReads(start: real, step: real, n: nat, m: nat, k: Counts, p: real)
    requires At(start, step, n, m, k, p) && k.made < m && k.used < n && p >= 0.0
    ensures At(start, step, n, m, Counts(k.used + 1, k.made), p - 1.0)
  {
  }

  lemma AtEnds(start: real, step: real, n: nat, m: nat, k: Counts, p: real)
    requires At(start, step, n, m, k, p)
    requires k.made == m || (k.used == n && p >= 0.0)
    ensures Steps(start, step, n, m) == k
  {
  }

  /* ---------- Cutting a run in two ---------- */

  /** A run, then another with what the first left over. */
  function InTwo(position: real, step: real, a: nat, b: nat, m: nat, n: nat): Counts {
    var first := Steps(position, step, a, m);
    Plus(first, Steps(Final(position, step, first), step, a - first.used + b, n))
  }

  lemma InTwoEmits(position: real, step: real, a: nat, b: nat, m: nat, n: nat)
    requires m > 0 && position < 0.0
    ensures InTwo(position, step, a, b, m, n) == Plus(Counts(0, 1), InTwo(position + step, step, a, b, m - 1, n))
  {
    var k := Steps(position + step, step, a, m - 1);
    var first := Plus(Counts(0, 1), k);
    assert Steps(position, step, a, m) == first;
    assert Final(position, step, first) == Final(position + step, step, k) by {
      FinalStep(position, step, k);
    }
  }

  lemma InTwoReads(position: real, step: real, a: nat, b: nat, m: nat, n: nat)
    requires m > 0 && position >= 0.0 && a > 0
    ensures InTwo(position, step, a, b, m, n) == Plus(Counts(1, 0), InTwo(position - 1.0, step, a - 1, b, m, n))
  {
    var k := Steps(position - 1.0, step, a - 1, m);
    var first := Plus(Counts(1, 0), k);
    assert Steps(position, step, a, m) == first;
    assert Final(position, step, first) == Final(position - 1.0, step, k) by {
      FinalStep(position, step, k);
    }
  }

  lemma {:induction false} SplitSteps(position: real, step: real, a: nat, b: nat, m: nat, n: nat)
    requires n > 0
    ensures Steps(position, step, a + b, Steps(position, step, a, m).made + n) == InTwo(position, step, a, b, m, n)
    decreases a + m
  {
    var total := Steps(position, step, a, m).made + n;
    if m > 0 && position < 0.0 {
      SplitSteps(position + step, step, a, b, m - 1, n);
      InTwoEmits(position, step, a, b, m, n);
      assert total - 1 == Steps(position + step, step, a, m - 1).made + n;
      assert Steps(position, step, a + b, total) == Plus(Counts(0, 1), Steps(position + step, step, a + b, total - 1));
    } else if m > 0 && a > 0 {
      SplitSteps(position - 1.0, step, a - 1, b, m, n);
      InTwoReads(position, step, a, b, m, n);
      assert total == Steps(position - 1.0, step, a - 1, m).made + n;
      assert Steps(position, step, a + b, total) == Plus(Counts(1, 0), Steps(position - 1.0, step, a - 1 + b, total));
    }
  }

  /* ---------- Exact counts ---------- */

  function Ceil(x: real): int {
    -((-x).Floor)
  }

  /** The input that m outputs need. */
  function Needed(position: real, step: real, m: nat): nat {
    if m == 0 || After(position, step, m - 1) < 0.0 then 0 else After(position, step, m - 1).Floor + 1
  }

  /** The output that n samples of input allow. */
  function Produced(position: real, step: real, n: nat): nat
    requires step > 0.0
  {
    OutputsWithin(n as real - position, step)
  }

  /** The number of multiples of the step, from 0, below a distance. */
  function OutputsWithin(distance: real, step: real): nat
    requires step > 0.0
    decreases if distance <= 0.0 then 0 else Ceil(distance / step)
  {
    if distance <= 0.0 then 0
    else
      QuotientStep(distance, step);
      1 + OutputsWithin(distance - step, step)
  }

  lemma {:induction false} OutputsWithinClosedForm(distance: real, step: real)
    requires step > 0.0
    ensures distance > 0.0 ==> OutputsWithin(distance, step) == Ceil(distance / step)
    decreases if distance <= 0.0 then 0 else Ceil(distance / step)
  {
    if distance > 0.0 {
      QuotientStep(distance, step);
      OutputsWithinClosedForm(distance - step, step);
    }
  }

  lemma QuotientStep(x: real, y: real)
    requires y > 0.0 && x > 0.0
    ensures (x - y) / y == x / y - 1.0
    ensures x <= y ==> 0.0 < x / y <= 1.0
    ensures 0.0 < x / y
  {
    var q := x / y;
    assert q * y == x;
    DivideProduct(q - 1.0, y, x - y);
    if q > 1.0 {
      assert (q - 1.0) * y > 0.0;
    }
  }

  lemma DivideProduct(q: real, y: real, z: real)
    requires y > 0.0 && z == q * y
    ensures z / y == q
  {
    assert (z / y) * y == z;
    CancelFactor(z / y, q, y);
  }

  lemma CancelFactor(a: real, b: real, y: real)
    requires y > 0.0 && a * y == b * y
    ensures a == b
  {
    assert (a - b) * y == 0.0;
  }

  lemma ProducedStep(position: real, step: real, n: nat)
    requires step > 0.0
    ensures position < 0.0 ==> Produced(position, step, n) == 1 + Produced(position + step, step, n)
    ensures position >= 0.0 && n > 0 ==> Produced(position, step, n) == Produced(position - 1.0, step, n - 1)
    ensures position >= 0.0 && n == 0 ==> Produced(position, step, n) == 0
  {
    assert n as real - (position + step) == n as real - position - step;
    assert n > 0 ==> (n - 1) as real - (position - 1.0) == n as real - position;
  }

  lemma NeededStep(position: real, step: real, m: nat)
    requires step > 0.0 && m > 0
    ensures position < 0.0 ==> Needed(position, step, m) == Needed(position + step, step, m - 1)
    ensures position >= 0.0 ==> Needed(position, step, m) == 1 + Needed(position - 1.0, step, m)
  {
    AfterShift(position, step, m - 1, 1.0);
    AfterMonotone(position, step, m - 1);
  }

  /** The two counts agree on whether n samples are enough for m. */
  lemma {:induction false} CountsAgree(position: real, step: real, n: nat, m: nat)
    requires step > 0.0
    ensures Needed(position, step, m) <= n <==> m <= Produced(position, step, n)
    decreases n + m
  {
    if m > 0 {
      ProducedStep(position, step, n);
      NeededStep(position, step, m);
      if position < 0.0 {
        CountsAgree(position + step, step, n, m - 1);
      } else if n > 0 {
        CountsAgree(position - 1.0, step, n - 1, m);
      }
    }
  }

  function Min(a: nat, b: nat): nat {
    if a <= b then a else b
  }

  /** A run makes as much as the input allows and the space holds. */
  lemma {:induction false} ExactOutput(position: real, step: real, n: nat, m: nat)
    requires step > 0.0
    ensures Steps(position, step, n, m).made == Min(m, Produced(position, step, n))
    decreases n + m
  {
    var made := Steps(position, step, n, m).made;
    if m > 0 && position < 0.0 {
      ExactOutput(position + step, step, n, m - 1);
      assert made == 1 + Steps(position + step, step, n, m - 1).made;
      ProducedStep(position, step, n);
    } else if m > 0 && n > 0 {
      ExactOutput(position - 1.0, step, n - 1, m);
      assert made == Steps(position - 1.0, step, n - 1, m).made;
      ProducedStep(position, step, n);
    } else {
      assert made == 0;
    }
  }

  /** It reads just what that needs, and all of the input when space is left. */
  lemma {:induction false} ExactInput(position: real, step: real, n: nat, m: nat)
    requires step > 0.0
    ensures Steps(position, step, n, m).used == Min(n, Needed(position, step, m))
    decreases n + m
  {
    if m > 0 {
      NeededStep(position, step, m);
      if position < 0.0 {
        ExactInput(position + step, step, n, m - 1);
        assert Steps(position, step, n, m).used == Steps(position + step, step, n, m - 1).used;
      } else if n > 0 {
        ExactInput(position - 1.0, step, n - 1, m);
        assert Steps(position, step, n, m).used == 1 + Steps(position - 1.0, step, n - 1, m).used;
      }
    }
  }

  /** From a fresh start: n samples in give ceil(n * ratio) out, and m samples
      out need floor((m - 1) / ratio) + 1 in. */
  lemma CountsFromReset(ratio: real, n: nat, m: nat)
    requires ratio > 0.0
    ensures Produced(0.0, 1.0 / ratio, n) == Ceil(n as real * ratio)
    ensures m > 0 ==> Needed(0.0, 1.0 / ratio, m) == ((m - 1) as real / ratio).Floor + 1
  {
    var x := n as real;
    OutputsWithinClosedForm(x, 1.0 / ratio);
    assert x / (1.0 / ratio) == x * ratio by {
      assert 1.0 / ratio * ratio == 1.0;
      Undo(x, 1.0 / ratio, ratio);
    }
    if m > 0 {
      var y := (m - 1) as real;
      assert y * (1.0 / ratio) == y / ratio by {
        assert y / ratio * ratio == y;
        Undo(y / ratio, 1.0, 1.0);
      }
      AfterMonotone(0.0, 1.0 / ratio, m - 1);
      AfterClosedForm(0.0, 1.0 / ratio, m - 1);
    }
  }

  lemma Undo(x: real, s: real, r: real)
    requires s > 0.0 && s * r == 1.0
    ensures x / s == x * r
  {
    assert x / s * s == x;
    assert (x * r) * s == x * (s * r);
  }
}
