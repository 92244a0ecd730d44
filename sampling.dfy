/**
  The sampling gate of `put` (lib/client.rb:131, 137). The random draw
  `Random.new.rand(1..100)` is a parameter `draw` in 1..100; `draw * 0.01` is
  compared with `sample_rate / 100`.
*/
module Sampling {

  /**
    The gate as written. `sample_rate / 100` is Ruby Integer division, so the
    right-hand side is a whole number q (floor division, which Dafny's `/`
    agrees with for the positive divisor 100), and `draw * 0.01 <= q` holds
    exactly when `draw <= 100 * q` (100 * 0.01 is exactly 1.0 in IEEE doubles).
  */
  predicate KeptAsWritten(draw: int, rate: int)
  {
    draw <= (rate / 100) * 100
  }

  /** The gate as evidently intended: keep with probability rate percent. */
  predicate Kept(draw: int, rate: int)
  {
    draw <= rate
  }

  /** The draws in 1..100 that keep a metric at the given rate. */
  function KeepingDraws(rate: int): set<int>
  {
    set d | 1 <= d <= 100 && Kept(d, rate)
  }

  function KeepingDrawsAsWritten(rate: int): set<int>
  {
    set d | 1 <= d <= 100 && KeptAsWritten(d, rate)
  }

  /** The draws 1..n. */
  function UpTo(n: int): (r: set<int>)
    ensures forall d :: d in r <==> 1 <= d <= n
  {
    if n <= 0 then {} else UpTo(n - 1) + {n}
  }

  lemma {:induction false} UpToSize(n: nat)
    ensures |UpTo(n)| == n
  {
    if n > 0 {
      UpToSize(n - 1);
      assert n !in UpTo(n - 1);
    }
  }

  /** Exactly `rate` of the 100 equally likely draws keep the metric: a `rate` percent chance. */
  lemma KeepingDrawsCount(rate: int)
    requires 0 <= rate <= 100
    ensures |KeepingDraws(rate)| == rate
  {
    assert KeepingDraws(rate) == UpTo(rate);
    UpToSize(rate);
  }

  /**
    As written, every rate below 100 keeps nothing and 100 keeps everything:
    no rate between the two extremes samples.
  */
  lemma KeepingDrawsAsWrittenCount(rate: int)
    requires 0 <= rate <= 100
    ensures |KeepingDrawsAsWritten(rate)| == if rate == 100 then 100 else 0
  {
    if rate == 100 {
      assert KeepingDrawsAsWritten(rate) == UpTo(100);
      UpToSize(100);
    } else {
      assert rate / 100 == 0;
      assert KeepingDrawsAsWritten(rate) == {};
    }
  }

  /** The input that shows the difference: at rate 50 the draw 1 (a 1% draw) is dropped as written. */
  lemma HalfRateDropsAsWritten()
    ensures !KeptAsWritten(1, 50) && Kept(1, 50)
  {
  }

  /** Both gates agree on the two rates the tests exercise: 0 drops every draw and 100 keeps every draw. */
  lemma GatesAgreeAtExtremes(draw: int)
    requires 1 <= draw <= 100
    ensures !Kept(draw, 0) && !KeptAsWritten(draw, 0)
    ensures Kept(draw, 100) && KeptAsWritten(draw, 100)
  {
  }
}
