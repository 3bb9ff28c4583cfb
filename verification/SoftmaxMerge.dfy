/** The column warps of a row merge their results; the whole row is softmax attention. */
module SoftmaxMerge {
  import opened ExtendedReals
  import opened Softmax

  /** All columns of a row, by warp and lane. */
  type Row = seq<seq<seq<Col>>>

  function SumRow(row: Row, g: Col -> real): real {
    if row == [] then 0.0 else SumRow(row[..|row| - 1], g) + SumLanes(row[|row| - 1], g)
  }

  function Flatten<T>(xs: seq<seq<T>>): seq<T> {
    if xs == [] then [] else Flatten(xs[..|xs| - 1]) + xs[|xs| - 1]
  }

  /** All columns of a row, one after the other. */
  function Columns(row: Row): seq<Col> {
    Flatten(Flatten(row))
  }

  lemma {:induction false} FlattenConcat<T>(a: seq<seq<T>>, b: seq<seq<T>>)
    ensures Flatten(a + b) == Flatten(a) + Flatten(b)
  {
    if b == [] {
      assert a + b == a;
    } else {
      FlattenConcat(a, b[..|b| - 1]);
      assert (a + b)[..|a + b| - 1] == a + b[..|b| - 1];
    }
  }

  lemma {:induction false} SumLanesFlat(lanes: seq<seq<Col>>, g: Col -> real)
    ensures SumLanes(lanes, g) == Sum(Flatten(lanes), g)
  {
    if lanes != [] {
      var n := |lanes| - 1;
      SumLanesFlat(lanes[..n], g);
      SumConcat(Flatten(lanes[..n]), lanes[n], g);
    }
  }

  lemma {:induction false} SumRowFlat(row: Row, g: Col -> real)
    ensures SumRow(row, g) == Sum(Columns(row), g)
  {
    if row != [] {
      var n := |row| - 1;
      SumRowFlat(row[..n], g);
      SumLanesFlat(row[n], g);
      FlattenConcat(Flatten(row[..n]), row[n]);
      SumConcat(Columns(row[..n]), Flatten(row[n]), g);
    }
  }

  /** exp2 of a scaled score; a hidden column weighs nothing. */
  function Plain(f: real -> real, scale: real, c: Col): real {
    if c.score.NegInf? then 0.0 else f(Gap(c.score.r, 0.0, scale))
  }

  function PlainWeights(f: real -> real, scale: real): Col -> real {
    c => Plain(f, scale, c)
  }

  function PlainValues(f: real -> real, scale: real, d: nat): Col -> real {
    c => Plain(f, scale, c) * Value(c, d)
  }

  /** Softmax attention of a row of columns, straight from its definition. */
  ghost predicate IsAttention(f: real -> real, scale: real, cols: seq<Col>, d: nat, x: real) {
    && Sum(cols, PlainWeights(f, scale)) > 0.0
    && x * Sum(cols, PlainWeights(f, scale)) == Sum(cols, PlainValues(f, scale, d))
  }

  // ---- positivity ----

  lemma {:induction false} SumNonNegative(cs: seq<Col>, g: Col -> real)
    requires forall c | c in cs :: g(c) >= 0.0
    ensures Sum(cs, g) >= 0.0
    ensures forall c | c in cs :: g(c) <= Sum(cs, g)
  {
    if cs != [] { SumNonNegative(cs[..|cs| - 1], g); }
  }

  lemma PlainPositive(f: real -> real, scale: real, cols: seq<Col>)
    requires IsExp2(f) && exists c :: c in cols && c.score.Fin?
    ensures Sum(cols, PlainWeights(f, scale)) > 0.0
  {
    var g := PlainWeights(f, scale);
    forall c | c in cols ensures g(c) >= 0.0 && (c.score.Fin? ==> g(c) > 0.0) {
      if c.score.Fin? { assert ExpLaw(f, Gap(c.score.r, 0.0, scale), 0.0); }
    }
    SumNonNegative(cols, g);
  }

  // ---- the reference score cancels ----

  lemma ShiftWeight(f: real -> real, scale: real, m: real, c: Col, d: nat)
    requires IsExp2(f)
    ensures Weight(f, scale, Fin(m), c) == Plain(f, scale, c) * f(Gap(0.0, m, scale))
    ensures WeightedValues(f, scale, Fin(m), d)(c) == PlainValues(f, scale, d)(c) * f(Gap(0.0, m, scale))
  {
    if c.score.Fin? {
      assert ExpLaw(f, Gap(c.score.r, 0.0, scale), Gap(0.0, m, scale));
      assert Gap(c.score.r, m, scale) == Gap(c.score.r, 0.0, scale) + Gap(0.0, m, scale);
    }
    Reorder(Plain(f, scale, c), f(Gap(0.0, m, scale)), Value(c, d));
  }

  lemma ShiftTerms(f: real -> real, scale: real, m: real, cols: seq<Col>, d: nat, k: real)
    requires IsExp2(f) && k == f(Gap(0.0, m, scale))
    ensures Scaled(cols, PlainWeights(f, scale), Weights(f, scale, Fin(m)), k)
    ensures Scaled(cols, PlainValues(f, scale, d), WeightedValues(f, scale, Fin(m), d), k)
  {
    forall c | c in cols
      ensures Weights(f, scale, Fin(m))(c) == PlainWeights(f, scale)(c) * k
      ensures WeightedValues(f, scale, Fin(m), d)(c) == PlainValues(f, scale, d)(c) * k
    {
      ShiftWeight(f, scale, m, c, d);
    }
  }

  lemma ShiftSums(f: real -> real, scale: real, m: real, cols: seq<Col>, d: nat, k: real)
    requires IsExp2(f) && k == f(Gap(0.0, m, scale))
    ensures Sum(cols, Weights(f, scale, Fin(m))) == Sum(cols, PlainWeights(f, scale)) * k
    ensures Sum(cols, WeightedValues(f, scale, Fin(m), d)) == Sum(cols, PlainValues(f, scale, d)) * k
  {
    ShiftTerms(f, scale, m, cols, d, k);
    SumScale(cols, PlainWeights(f, scale), Weights(f, scale, Fin(m)), k);
    SumScale(cols, PlainValues(f, scale, d), WeightedValues(f, scale, Fin(m), d), k);
  }

  function Times(x: real, y: real): real { x * y }

  lemma Cancel(num: real, den: real, k: real, x: real, gnum: real, gden: real)
    requires k > 0.0 && gnum == num * k && gden == den * k && den > 0.0 && Times(x, gden) == gnum
    ensures gden > 0.0 && x * den == num
  {
    assert (x * den - num) * k == 0.0;
  }

  /** A quotient taken relative to any finite reference score is softmax attention. */
  lemma RelativeIsAttention(f: real -> real, scale: real, m: real, cols: seq<Col>, d: nat, x: real,
                            den: real, num: real)
    requires IsExp2(f) && exists c :: c in cols && c.score.Fin?
    requires den == Sum(cols, Weights(f, scale, Fin(m))) && num == Sum(cols, WeightedValues(f, scale, Fin(m), d))
    requires Times(x, den) == num
    ensures IsAttention(f, scale, cols, d, x)
  {
    var k := f(Gap(0.0, m, scale));
    assert ExpLaw(f, Gap(0.0, m, scale), 0.0);
    PlainPositive(f, scale, cols);
    ShiftSums(f, scale, m, cols, d, k);
    Cancel(Sum(cols, PlainValues(f, scale, d)), Sum(cols, PlainWeights(f, scale)), k, x, num, den);
  }

  lemma GlobalSumPositive(f: real -> real, scale: real, m: real, cols: seq<Col>)
    requires IsExp2(f) && exists c :: c in cols && c.score.Fin?
    ensures Sum(cols, Weights(f, scale, Fin(m))) > 0.0
  {
    var k := f(Gap(0.0, m, scale));
    assert ExpLaw(f, Gap(0.0, m, scale), 0.0);
    PlainPositive(f, scale, cols);
    ShiftSums(f, scale, m, cols, 0, k);
  }

  // ---- the statistics the warps exchange ----

  function MaxOf(maxs: seq<Ext>): Ext {
    if maxs == [] then NegInf else Max(MaxOf(maxs[..|maxs| - 1]), maxs[|maxs| - 1])
  }

  /** The global maximum is not below any warp's, and is one of them. */
  lemma {:induction false} MaxOfBounds(maxs: seq<Ext>)
    ensures forall n | 0 <= n < |maxs| :: Le(maxs[n], MaxOf(maxs))
    ensures MaxOf(maxs).Fin? ==> MaxOf(maxs) in maxs
  {
    if maxs != [] {
      var n := |maxs| - 1;
      MaxOfBounds(maxs[..n]);
      forall i | 0 <= i < n ensures Le(maxs[i], MaxOf(maxs)) {
        assert maxs[..n][i] == maxs[i];
        LeTransitive(maxs[i], MaxOf(maxs[..n]), MaxOf(maxs));
      }
    }
  }

  /** Sum of the warps' row sums, each corrected to the reference score m. */
  function StatSum(f: real -> real, scale: real, m: Ext, maxs: seq<Ext>, sums: seq<real>): real
    requires |maxs| == |sums|
  {
    if maxs == [] then 0.0 else
    var n := |maxs| - 1;
    StatSum(f, scale, m, maxs[..n], sums[..n]) + sums[n] * ExpScale(f, scale, maxs[n], m)
  }

  method GlobalSum(f: real -> real, scale: real, m: Ext, maxs: seq<Ext>, sums: seq<real>) returns (globalSum: real)
    requires |maxs| == |sums|
    ensures globalSum == StatSum(f, scale, m, maxs, sums)
  {
    globalSum := 0.0;
    for n := 0 to |maxs|
      invariant globalSum == StatSum(f, scale, m, maxs[..n], sums[..n])
    {
      assert maxs[..n + 1][..n] == maxs[..n] && sums[..n + 1][..n] == sums[..n];
      globalSum := globalSum + sums[n] * ExpScale(f, scale, maxs[n], m);
    }
    assert maxs[..|maxs|] == maxs && sums[..|sums|] == sums;
  }

  /** normalize_stats for the warp `own`: from everybody's maximum and sum, the factor its
      output is multiplied with. */
  method NormalizeStats(f: real -> real, scale: real, maxs: seq<Ext>, sums: seq<real>, own: nat, out: array<real>)
    returns (ghost factor: real)
    requires |maxs| == |sums| && own < |maxs| && MaxOf(maxs).Fin?
    modifies out
    ensures forall d | 0 <= d < out.Length :: out[d] == old(out[d]) * factor
    ensures var total := StatSum(f, scale, MaxOf(maxs), maxs, sums);
            if total == 0.0 then factor == 1.0 else factor * total == ExpScale(f, scale, maxs[own], MaxOf(maxs))
  {
    var globalMax := NegInf;
    for n := 0 to |maxs|
      invariant globalMax == MaxOf(maxs[..n])
    {
      assert maxs[..n + 1][..n] == maxs[..n];
      globalMax := Max(globalMax, maxs[n]);
    }
    assert maxs[..|maxs|] == maxs;
    var globalSum := GlobalSum(f, scale, globalMax, maxs, sums);
    var partialScale := ExpScale(f, scale, maxs[own], globalMax);
    var invSum := if globalSum == 0.0 then 1.0 else partialScale / globalSum;
    factor := invSum;
    ScaleAll(out, invSum);
  }

  /** The same with a single column warp: divide by its own sum. */
  method NormalizeSingle(sum: real, out: array<real>) returns (ghost factor: real)
    modifies out
    ensures forall d | 0 <= d < out.Length :: out[d] == old(out[d]) * factor
    ensures if sum == 0.0 then factor == 1.0 else factor * sum == 1.0
  {
    var invSum := if sum == 0.0 then 1.0 else 1.0 / sum;
    factor := invSum;
    ScaleAll(out, invSum);
  }

  // ---- the merge is attention ----

  /** Sum of the products of corresponding entries. */
  function Dot(xs: seq<real>, ys: seq<real>): real
    requires |xs| == |ys|
  {
    if xs == [] then 0.0 else
    var n := |xs| - 1;
    Dot(xs[..n], ys[..n]) + xs[n] * ys[n]
  }

  function Corrections(f: real -> real, scale: real, m: Ext, maxs: seq<Ext>): (r: seq<real>)
    ensures |r| == |maxs|
  {
    seq(|maxs|, n requires 0 <= n < |maxs| => ExpScale(f, scale, maxs[n], m))
  }

  lemma {:induction false} StatSumIsDot(f: real -> real, scale: real, m: Ext, maxs: seq<Ext>, sums: seq<real>)
    requires |maxs| == |sums|
    ensures StatSum(f, scale, m, maxs, sums) == Dot(sums, Corrections(f, scale, m, maxs))
  {
    if maxs != [] {
      var n := |maxs| - 1;
      StatSumIsDot(f, scale, m, maxs[..n], sums[..n]);
      assert Corrections(f, scale, m, maxs)[..n] == Corrections(f, scale, m, maxs[..n]);
    }
  }

  /** Corresponding entries multiply to the rows' sums of g. */
  ghost predicate ProductsAre(xs: seq<real>, ys: seq<real>, row: Row, g: Col -> real) {
    && |xs| == |ys| == |row|
    && forall n | 0 <= n < |xs| :: Times(xs[n], ys[n]) == SumLanes(row[n], g)
  }

  lemma {:induction false} DotIsSumRow(xs: seq<real>, ys: seq<real>, row: Row, g: Col -> real)
    requires ProductsAre(xs, ys, row, g)
    ensures Dot(xs, ys) == SumRow(row, g)
  {
    if xs != [] {
      var n := |xs| - 1;
      assert Times(xs[n], ys[n]) == SumLanes(row[n], g);
      DotIsSumRow(xs[..n], ys[..n], row[..n], g);
    }
  }

  ghost predicate TimesEach(factors: seq<real>, t: real, corrections: seq<real>) {
    |factors| == |corrections| && forall n | 0 <= n < |factors| :: Times(factors[n], t) == corrections[n]
  }

  /** If each factor times t is its correction, the sum of the scaled outputs times t is the
      sum of the corrected outputs. */
  lemma {:induction false} FactorOut(outs: seq<real>, factors: seq<real>, corrections: seq<real>, t: real)
    requires |outs| == |factors| && TimesEach(factors, t, corrections)
    ensures Times(Dot(outs, factors), t) == Dot(outs, corrections)
  {
    if outs != [] {
      var n := |outs| - 1;
      FactorOut(outs[..n], factors[..n], corrections[..n], t);
      FactorTerm(Dot(outs[..n], factors[..n]), outs[n], factors[n], t);
    }
  }

  lemma FactorTerm(x: real, o: real, p: real, t: real)
    ensures (x + o * p) * t == x * t + o * (p * t)
  {
  }

  /** What each warp knows about its own columns. */
  ghost predicate WarpStats(f: real -> real, scale: real, lanes: seq<seq<Col>>, m: Ext, sum: real, out: real, d: nat) {
    && IsMax(m, lanes)
    && sum == SumLanes(lanes, Weights(f, scale, m))
    && out == SumLanes(lanes, WeightedValues(f, scale, m, d))
  }

  /** Corrected to the global maximum, a warp's sums are relative to it. */
  lemma CorrectedStats(f: real -> real, scale: real, lanes: seq<seq<Col>>, m: Ext, sum: real, out: real, d: nat,
                       top: Ext, a: real)
    requires IsExp2(f) && WarpStats(f, scale, lanes, m, sum, out, d)
    requires Le(m, top) && a == ExpScale(f, scale, m, top)
    ensures Times(sum, a) == SumLanes(lanes, Weights(f, scale, top))
    ensures Times(out, a) == SumLanes(lanes, WeightedValues(f, scale, top, d))
  {
    CorrectedValues(f, scale, m, top, lanes, d, a, WeightedValues(f, scale, m, d), WeightedValues(f, scale, top, d));
    CorrectedWeights(f, scale, m, top, lanes, a, Weights(f, scale, m), Weights(f, scale, top));
  }

  lemma CorrectedWeights(f: real -> real, scale: real, prev: Ext, m: Ext, lanes: seq<seq<Col>>, a: real,
                         g: Col -> real, h: Col -> real)
    requires IsExp2(f) && (m.NegInf? ==> prev.NegInf?)
    requires forall l | 0 <= l < |lanes| :: AtMost(prev, lanes[l])
    requires a == ExpScale(f, scale, prev, m)
    requires g == Weights(f, scale, prev) && h == Weights(f, scale, m)
    ensures SumLanes(lanes, h) == SumLanes(lanes, g) * a
  {
    forall l | 0 <= l < |lanes| ensures Scaled(lanes[l], g, h, a) {
      forall c | c in lanes[l] ensures h(c) == g(c) * a {
        Reweigh(f, scale, prev, m, c);
      }
    }
    SumLanesScale(lanes, g, h, a);
  }

  /** Row sum and weighted values relative to the global maximum, from the warps' statistics. */
  lemma MergedSums(f: real -> real, scale: real, row: Row, maxs: seq<Ext>, sums: seq<real>, outs: seq<real>,
                   corrections: seq<real>, top: Ext, d: nat)
    requires IsExp2(f) && |row| == |maxs| == |sums| == |outs|
    requires forall n | 0 <= n < |row| :: WarpStats(f, scale, row[n], maxs[n], sums[n], outs[n], d)
    requires top == MaxOf(maxs) && corrections == Corrections(f, scale, top, maxs)
    ensures Dot(sums, corrections) == SumRow(row, Weights(f, scale, top))
    ensures Dot(outs, corrections) == SumRow(row, WeightedValues(f, scale, top, d))
  {
    CorrectedAll(f, scale, row, maxs, sums, outs, corrections, top, d);
    DotIsSumRow(sums, corrections, row, Weights(f, scale, top));
    DotIsSumRow(outs, corrections, row, WeightedValues(f, scale, top, d));
  }

  lemma CorrectedAll(f: real -> real, scale: real, row: Row, maxs: seq<Ext>, sums: seq<real>, outs: seq<real>,
                     corrections: seq<real>, top: Ext, d: nat)
    requires IsExp2(f) && |row| == |maxs| == |sums| == |outs|
    requires forall n | 0 <= n < |row| :: WarpStats(f, scale, row[n], maxs[n], sums[n], outs[n], d)
    requires top == MaxOf(maxs) && corrections == Corrections(f, scale, top, maxs)
    ensures ProductsAre(sums, corrections, row, Weights(f, scale, top))
    ensures ProductsAre(outs, corrections, row, WeightedValues(f, scale, top, d))
  {
    MaxOfBounds(maxs);
    forall n | 0 <= n < |row|
      ensures Times(sums[n], corrections[n]) == SumLanes(row[n], Weights(f, scale, top))
      ensures Times(outs[n], corrections[n]) == SumLanes(row[n], WeightedValues(f, scale, top, d))
    {
      CorrectedStats(f, scale, row[n], maxs[n], sums[n], outs[n], d, top, corrections[n]);
    }
  }

  lemma RowIsAttention(f: real -> real, scale: real, row: Row, m: real, cols: seq<Col>, d: nat, x: real,
                       den: real, num: real)
    requires IsExp2(f) && multiset(cols) == multiset(Columns(row)) && exists c :: c in cols && c.score.Fin?
    requires den == SumRow(row, Weights(f, scale, Fin(m))) && num == SumRow(row, WeightedValues(f, scale, Fin(m), d))
    requires Times(x, den) == num
    ensures IsAttention(f, scale, cols, d, x)
  {
    RowColumns(row, cols, Weights(f, scale, Fin(m)));
    RowColumns(row, cols, WeightedValues(f, scale, Fin(m), d));
    RelativeIsAttention(f, scale, m, cols, d, x, den, num);
  }

  lemma RowColumns(row: Row, cols: seq<Col>, g: Col -> real)
    requires multiset(cols) == multiset(Columns(row))
    ensures SumRow(row, g) == Sum(cols, g)
  {
    SumRowFlat(row, g);
    SumPermuted(cols, Columns(row), g);
  }

  lemma RowSumPositive(f: real -> real, scale: real, row: Row, m: real, cols: seq<Col>)
    requires IsExp2(f) && multiset(cols) == multiset(Columns(row)) && exists c :: c in cols && c.score.Fin?
    ensures SumRow(row, Weights(f, scale, Fin(m))) > 0.0
  {
    RowColumns(row, cols, Weights(f, scale, Fin(m)));
    GlobalSumPositive(f, scale, m, cols);
  }

  /** Each factor is its warp's correction divided by the global sum. */
  ghost predicate Factors(f: real -> real, scale: real, maxs: seq<Ext>, factors: seq<real>, total: real, top: Ext) {
    && |factors| <= |maxs|
    && (total != 0.0 ==> forall n | 0 <= n < |factors| :: Times(factors[n], total) == ExpScale(f, scale, maxs[n], top))
  }

  lemma FactorsAreCorrections(f: real -> real, scale: real, maxs: seq<Ext>, factors: seq<real>, total: real, top: Ext)
    requires |maxs| == |factors| && total != 0.0 && Factors(f, scale, maxs, factors, total, top)
    ensures TimesEach(factors, total, Corrections(f, scale, top, maxs))
  {
  }

  /** The merged output times the global sum is the sum of weighted values. */
  lemma MergedQuotient(f: real -> real, scale: real, maxs: seq<Ext>, outs: seq<real>, factors: seq<real>,
                       corrections: seq<real>, top: Ext, total: real, x: real, num: real)
    requires |maxs| == |outs| == |factors| && corrections == Corrections(f, scale, top, maxs)
    requires total != 0.0 && Factors(f, scale, maxs, factors, total, top)
    requires x == Dot(outs, factors) && num == Dot(outs, corrections)
    ensures Times(x, total) == num
  {
    FactorsAreCorrections(f, scale, maxs, factors, total, top);
    FactorOut(outs, factors, corrections, total);
  }

  /** The merge over any number of warps is softmax attention over all columns, in whatever
      order these are listed. */
  lemma MergeIsAttention(f: real -> real, scale: real, row: Row, maxs: seq<Ext>, sums: seq<real>, outs: seq<real>,
                         factors: seq<real>, cols: seq<Col>, d: nat, total: real, top: Ext, x: real)
    requires IsExp2(f) && |row| == |maxs| == |sums| == |outs| == |factors|
    requires forall n | 0 <= n < |row| :: WarpStats(f, scale, row[n], maxs[n], sums[n], outs[n], d)
    requires top == MaxOf(maxs) && top.Fin? && total == StatSum(f, scale, top, maxs, sums)
    requires Factors(f, scale, maxs, factors, total, top)
    requires multiset(cols) == multiset(Columns(row)) && exists c :: c in cols && c.score.Fin?
    requires x == Dot(outs, factors)
    ensures IsAttention(f, scale, cols, d, x)
  {
    var corrections := Corrections(f, scale, top, maxs);
    var num := Dot(outs, corrections);
    MergedSums(f, scale, row, maxs, sums, outs, corrections, top, d);
    StatSumIsDot(f, scale, top, maxs, sums);
    RowSumPositive(f, scale, row, top.r, cols);
    MergedQuotient(f, scale, maxs, outs, factors, corrections, top, total, x, num);
    RowIsAttention(f, scale, row, top.r, cols, d, x, total, num);
  }
}
