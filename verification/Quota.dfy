/** The transfer quota: how many masked positions a step settles (diffusion/local_step.py:133-135). */
module Quota {
  import opened Arith

  /** `-(-remaining // steps_remaining)`, with Python's floor division by a positive number. */
  function Share(remaining: nat, stepsRemaining: nat): int
    requires stepsRemaining >= 1
  {
    var r: int := remaining;
    -((-r) / stepsRemaining)
  }

  /** The share is the ceiling of the quotient: the least k with k * s >= r. */
  lemma ShareIsCeiling(r: nat, s: nat)
    requires s >= 1
    ensures (Share(r, s) - 1) * s < r <= Share(r, s) * s
  {
    var n: int := r;
    var a := -n;
    var q := a / s;
    assert a == q * s + a % s && 0 <= a % s < s;
    assert (-q) * s == -(q * s);
    assert (-q - 1) * s == (-q) * s - s;
  }

  lemma CeilingUnique(r: int, s: int, a: int, b: int)
    requires s >= 1
    requires (a - 1) * s < r <= a * s && (b - 1) * s < r <= b * s
    ensures a == b
  {
    if a < b {
      MulMono(a, b - 1, s);
    } else if b < a {
      MulMono(b, a - 1, s);
    }
  }

  lemma ShareOf(whole: nat, s: nat, extra: nat, r: nat)
    requires s >= 1 && extra <= s && r == whole * s + extra
    ensures Share(r, s) == whole + if extra > 0 then 1 else 0
  {
    hide Share;
    ShareIsCeiling(r, s);
    var k: int := whole + if extra > 0 then 1 else 0;
    assert (whole + 1) * s == whole * s + s;
    assert (whole - 1) * s == whole * s - s;
    CeilingUnique(r, s, Share(r, s), k);
  }

  /** A share is never more than what is left, covers it within the steps left, and takes it all on
      the last step. */
  lemma ShareBounds(r: nat, s: nat)
    requires s >= 1
    ensures 0 <= Share(r, s) <= r
    ensures s == 1 ==> Share(r, s) == r
    ensures r > 0 ==> Share(r, s) >= 1
  {
    hide Share;
    ShareIsCeiling(r, s);
    var k := Share(r, s);
    if k < 0 {
      MulMono(k, -1, s);
    } else if k > r {
      MulMono(r, k - 1, s);
      MulMono(1, s, r);
    }
  }

  /** What is left of `total` masks after i of `steps` steps that each settle their share. */
  ghost function Left(total: nat, steps: nat, i: nat): nat
    requires i <= steps
  {
    if i == 0 then total else
      var before := Left(total, steps, i - 1);
      ShareBounds(before, steps - (i - 1));
      before - Share(before, steps - (i - 1))
  }

  ghost function Planned(whole: nat, extra: nat, steps: nat, i: nat): nat
    requires i <= steps
  {
    whole * (steps - i) + if extra > i then extra - i else 0
  }

  lemma PlannedShare(whole: nat, extra: nat, steps: nat, i: nat)
    requires extra < steps && i < steps
    ensures Share(Planned(whole, extra, steps, i), steps - i) == whole + if i < extra then 1 else 0
    ensures Planned(whole, extra, steps, i + 1)
            == Planned(whole, extra, steps, i) - Share(Planned(whole, extra, steps, i), steps - i)
  {
    hide Share;
    ShareOf(whole, steps - i, if extra > i then extra - i else 0, Planned(whole, extra, steps, i));
    var n: int := steps - i;
    assert whole * (n - 1) == whole * n - whole;
  }

  /** The whole schedule in closed form: with total == whole * steps + extra, the first `extra` steps
      settle one more than the others do, and nothing is left at the end. */
  lemma {:induction false} Schedule(total: nat, steps: nat, whole: nat, extra: nat, i: nat)
    requires extra < steps && i <= steps && total == whole * steps + extra
    ensures Left(total, steps, i) == whole * (steps - i) + if extra > i then extra - i else 0
    ensures i < steps ==> Share(Left(total, steps, i), steps - i) == whole + if i < extra then 1 else 0
    ensures i == steps ==> Left(total, steps, i) == 0
  {
    hide Share;
    if i > 0 {
      Schedule(total, steps, whole, extra, i - 1);
      PlannedShare(whole, extra, steps, i - 1);
    }
    if i < steps {
      PlannedShare(whole, extra, steps, i);
    }
  }

  lemma ShareShrinks(r: nat, r': nat, s: nat)
    requires s >= 1 && r' <= r - Share(r, s)
    ensures r' * s <= r * (s - 1)
  {
    hide Share;
    var k := Share(r, s);
    ShareIsCeiling(r, s);
    MulMono(r', r - k, s);
    assert (r - k) * s == r * s - k * s;
    assert r * (s - 1) == r * s - r;
  }

  lemma ScaleDown(r: nat, r': nat, s: nat, steps: nat, total: nat)
    requires s >= 1 && r' * s <= r * (s - 1) && r * steps <= total * s
    ensures r' * steps <= total * (s - 1)
  {
    var a: int, b: int := r' * steps, total * (s - 1);
    MulMono(r' * s, r * (s - 1), steps);
    MulMono(r * steps, total * s, s - 1);
    assert a * s == (r' * s) * steps;
    assert (r * (s - 1)) * steps == (r * steps) * (s - 1);
    assert (total * s) * (s - 1) == b * s;
    if a > b {
      MulMono(b + 1, a, s);
    }
  }

  /** When other participants may settle masks too, so that every step leaves at most what its share
      would, the remaining masks stay below the straight line from the start to zero. */
  lemma {:induction false} BelowTheLine(left: seq<nat>, steps: nat, i: nat)
    requires steps >= 1 && |left| == steps + 1 && i <= steps
    requires forall j {:trigger left[j]} :: 0 <= j < steps ==> left[j + 1] <= left[j] - Share(left[j], steps - j)
    ensures left[i] * steps <= left[0] * (steps - i)
  {
    hide Share;
    if i > 0 {
      BelowTheLine(left, steps, i - 1);
      var s: nat := steps - (i - 1);
      assert left[(i - 1) + 1] <= left[i - 1] - Share(left[i - 1], s);
      ShareShrinks(left[i - 1], left[i], s);
      ScaleDown(left[i - 1], left[i], s, steps, left[0]);
    }
  }
}
