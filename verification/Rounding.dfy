/** round(x, 2) in exact arithmetic: percentages are kept as whole hundredths of a per cent. */
module Rounding {

  /** num/den rounded to the nearest integer, ties to the even one. */
  function RoundHalfEven(num: nat, den: nat): nat
    requires den > 0
  {
    var q, r := num / den, num % den;
    if 2 * r < den || (2 * r == den && q % 2 == 0) then q else q + 1
  }

  /** k is a nearest integer to num/den, and the even one of two. */
  predicate IsNearest(k: nat, num: nat, den: nat) {
    && -(den as int) <= 2 * (k * den - num) <= den
    && (2 * (k * den - num) == den || 2 * (num - k * den) == den ==> k % 2 == 0)
  }

  lemma {:induction false} AtLeastOnce(x: nat, den: nat)
    requires x > 0
    ensures x * den >= den
    decreases x
  {
    if x > 1 {
      AtLeastOnce(x - 1, den);
      assert x * den == (x - 1) * den + den;
    }
  }

  lemma Scaled(a: nat, b: nat, den: nat)
    requires a < b
    ensures a * den + den <= b * den
  {
    AtLeastOnce(b - a, den);
    assert (b - a) * den == b * den - a * den;
  }

  lemma RoundIsNearest(num: nat, den: nat)
    requires den > 0
    ensures IsNearest(RoundHalfEven(num, den), num, den)
  {
    var q := num / den;
    assert num == q * den + num % den;
    assert (q + 1) * den == q * den + den;
  }

  /** Nearest-with-ties-to-even determines the result. */
  lemma NearestIsUnique(j: nat, k: nat, num: nat, den: nat)
    requires den > 0 && IsNearest(j, num, den) && IsNearest(k, num, den)
    ensures j == k
  {
    if j < k {
      NearestNotBelow(j, k, num, den);
    } else if k < j {
      NearestNotBelow(k, j, num, den);
    }
  }

  lemma NearestNotBelow(j: nat, k: nat, num: nat, den: nat)
    requires den > 0 && IsNearest(j, num, den) && IsNearest(k, num, den)
    ensures !(j < k)
  {
    if j < k {
      assert (j + 1) * den == j * den + den;
      Scaled(j, k, den);   // so both are exactly half way, and j and k are even
      if k > j + 1 {
        Scaled(j + 1, k, den);
      }
    }
  }

  /** Rounding preserves order. */
  lemma RoundIsMonotone(a: nat, b: nat, den: nat)
    requires den > 0 && a <= b
    ensures RoundHalfEven(a, den) <= RoundHalfEven(b, den)
  {
    var j, k := RoundHalfEven(b, den), RoundHalfEven(a, den);
    RoundIsNearest(a, den);
    RoundIsNearest(b, den);
    if j < k {
      Scaled(j, k, den);
      NearestIsUnique(j, k, a, den);
    }
  }

  /** votes/total as a percentage in hundredths; an empty total gives 0. */
  function Percent(votes: nat, total: nat): nat {
    if total > 0 then RoundHalfEven(votes * 10000, total) else 0
  }

  lemma PercentIsMonotone(a: nat, b: nat, total: nat)
    requires a <= b
    ensures Percent(a, total) <= Percent(b, total)
  {
    if total > 0 {
      RoundIsMonotone(a * 10000, b * 10000, total);
    }
  }

  lemma PercentAtMostHundred(votes: nat, total: nat)
    requires votes <= total
    ensures Percent(votes, total) <= 10000
  {
    if total > 0 {
      PercentIsMonotone(votes, total, total);
      RoundIsNearest(total * 10000, total);
      assert 10000 * total == total * 10000;
      NearestIsUnique(10000, RoundHalfEven(total * 10000, total), total * 10000, total);
    }
  }

  function Sum(s: seq<nat>): nat {
    if s == [] then 0 else s[0] + Sum(s[1..])
  }

  function Percents(counts: seq<nat>, total: nat): (p: seq<nat>)
    ensures |p| == |counts|
  {
    if counts == [] then [] else [Percent(counts[0], total)] + Percents(counts[1..], total)
  }

  lemma OneError(votes: nat, total: nat)
    requires total > 0
    ensures -(total as int) <= 2 * (total * Percent(votes, total) - 10000 * votes) <= total
  {
    RoundIsNearest(votes * 10000, total);
  }

  lemma AddErrors(total: nat, p: nat, c: nat, ps: nat, cs: nat, n: nat)
    requires -(total as int) <= 2 * (total * p - 10000 * c) <= total
    requires -(n * total as int) <= 2 * (total * ps - 10000 * cs) <= n * total
    ensures -((n + 1) * total as int) <= 2 * (total * (p + ps) - 10000 * (c + cs)) <= (n + 1) * total
  {
    assert total * (p + ps) == total * p + total * ps;
    assert (n + 1) * total == n * total + total;
  }

  /** Rounding errors add up to at most half a hundredth per candidate. */
  lemma {:induction false} RoundingErrors(counts: seq<nat>, total: nat)
    requires total > 0
    ensures -(|counts| * total as int) <= 2 * (total * Sum(Percents(counts, total)) - 10000 * Sum(counts)) <= |counts| * total
  {
    if counts == [] {
      assert Sum(Percents(counts, total)) == 0;
    } else {
      var rest := counts[1..];
      RoundingErrors(rest, total);
      OneError(counts[0], total);
      assert Percents(counts, total)[1..] == Percents(rest, total);
      AddErrors(total, Percent(counts[0], total), counts[0], Sum(Percents(rest, total)), Sum(rest), |rest|);
    }
  }

  /** If all votes are for the listed candidates, n rounded percentages add up to 100 within 0.005 n. */
  lemma PercentagesSumToHundred(counts: seq<nat>, total: nat)
    requires total > 0 && Sum(counts) == total
    ensures -(|counts| as int) <= 2 * (Sum(Percents(counts, total)) - 10000) <= |counts|
  {
    RoundingErrors(counts, total);
    PerTotal(Sum(Percents(counts, total)), |counts|, total);
  }

  lemma PerTotal(p: nat, n: nat, total: nat)
    requires total > 0 && -(n * total as int) <= 2 * (total * p - 10000 * total) <= n * total
    ensures -(n as int) <= 2 * (p - 10000) <= n
  {
    assert total * (2 * (p - 10000)) == 2 * (total * p - 10000 * total);
    Cancel(2 * (p - 10000), n, total);
  }

  lemma Cancel(x: int, n: nat, total: nat)
    requires total > 0 && -(n * total as int) <= total * x <= n * total
    ensures -(n as int) <= x <= n
  {
    assert x * total == total * x && -x * total == -(total * x);
    if x > n {
      Scaled(n, x, total);
    } else if -x > n {
      Scaled(n, -x, total);
    }
  }

  /** The bound is not slack: three equal candidates show 33.33 three times. */
  lemma ThirdsLoseOneHundredth()
    ensures Percents([1, 1, 1], 3) == [3333, 3333, 3333] && Sum(Percents([1, 1, 1], 3)) == 9999
  {
    assert Percents([1], 3) == [3333];
    assert Percents([1, 1], 3) == [3333, 3333];
  }
}
