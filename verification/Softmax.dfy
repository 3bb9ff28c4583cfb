/** Online softmax over the blocks of one row, per column warp, and the merge of the warps.
    Arithmetic is over the reals; exp2 is any positive function turning sums into products. */
module Softmax {
  import opened Butterfly
  import opened ExtendedReals

  ghost predicate ExpLaw(f: real -> real, x: real, y: real) {
    f(x) > 0.0 && f(x + y) == f(x) * f(y)
  }

  ghost predicate IsExp2(f: real -> real) {
    forall x, y :: ExpLaw(f, x, y)
  }

  lemma ExpZero(f: real -> real)
    requires IsExp2(f)
    ensures f(0.0) == 1.0
  {
    OneAt(f, 0.0);
  }

  lemma OneAt(f: real -> real, x: real)
    requires IsExp2(f) && x + x == x
    ensures f(x) == 1.0
  {
    assert ExpLaw(f, x, x);
    Idempotent(f(x), f(x + x));
  }

  lemma Idempotent(x: real, y: real)
    requires x > 0.0 && y == x * x && y == x
    ensures x == 1.0
  {
    assert (x - 1.0) * x == 0.0;
  }

  /** A key column: its score for the row at hand and its row of V. */
  datatype Col = Col(score: Ext, v: seq<real>)

  function Value(c: Col, d: nat): real { if d < |c.v| then c.v[d] else 0.0 }

  // ---- sums over columns ----

  function Sum(cs: seq<Col>, g: Col -> real): real {
    if cs == [] then 0.0 else Sum(cs[..|cs| - 1], g) + g(cs[|cs| - 1])
  }

  lemma {:induction false} SumConcat(a: seq<Col>, b: seq<Col>, g: Col -> real)
    ensures Sum(a + b, g) == Sum(a, g) + Sum(b, g)
  {
    if b == [] {
      assert a + b == a;
    } else {
      SumConcat(a, b[..|b| - 1], g);
      assert (a + b)[..|a + b| - 1] == a + b[..|b| - 1];
    }
  }

  ghost predicate Scaled(cs: seq<Col>, g: Col -> real, h: Col -> real, a: real) {
    forall c | c in cs :: h(c) == g(c) * a
  }

  lemma ScaledStep(x: real, y: real, p: real, q: real, z: real, r: real, a: real)
    requires p == x * a && q == y * a && z == x + y && r == p + q
    ensures r == z * a
  {
  }

  /** Scaling every term scales the sum. */
  lemma {:induction false} SumScale(cs: seq<Col>, g: Col -> real, h: Col -> real, a: real)
    requires Scaled(cs, g, h, a)
    ensures Sum(cs, h) == Sum(cs, g) * a
  {
    if cs != [] {
      var n := |cs| - 1;
      SumScale(cs[..n], g, h, a);
      ScaledStep(Sum(cs[..n], g), g(cs[n]), Sum(cs[..n], h), h(cs[n]), Sum(cs, g), Sum(cs, h), a);
    }
  }

  function Without(b: seq<Col>, i: nat): seq<Col>
    requires i < |b|
  {
    b[..i] + b[i + 1..]
  }

  lemma Removed(b: seq<Col>, i: nat)
    requires i < |b|
    ensures multiset(Without(b, i)) == multiset(b) - multiset{b[i]}
  {
    assert b == b[..i] + [b[i]] + b[i + 1..];
  }

  lemma SumWithout(b: seq<Col>, i: nat, g: Col -> real)
    requires i < |b|
    ensures Sum(b, g) == Sum(Without(b, i), g) + g(b[i])
  {
    var front, back := b[..i + 1], b[i + 1..];
    assert front[..i] == b[..i];
    assert b == front + back;
    SumConcat(front, back, g);
    SumConcat(b[..i], back, g);
  }

  /** The sum does not depend on the order of the columns. */
  lemma {:induction false} SumPermuted(a: seq<Col>, b: seq<Col>, g: Col -> real)
    requires multiset(a) == multiset(b)
    ensures Sum(a, g) == Sum(b, g)
  {
    if a == [] {
      assert |multiset(b)| == 0;
    } else {
      var n := |a| - 1;
      assert Without(a, n) == a[..n];
      SumWithout(a, n, g);
      assert a[n] in multiset(b);
      var i :| 0 <= i < |b| && b[i] == a[n];
      SumWithout(b, i, g);
      Removed(a, n);
      Removed(b, i);
      SumPermuted(a[..n], Without(b, i), g);
    }
  }

  /** Columns by lane: a sum over all lanes. */
  function SumLanes(lanes: seq<seq<Col>>, g: Col -> real): real {
    if lanes == [] then 0.0 else SumLanes(lanes[..|lanes| - 1], g) + Sum(lanes[|lanes| - 1], g)
  }

  lemma {:induction false} NoColumns(lanes: seq<seq<Col>>, g: Col -> real)
    requires forall l | 0 <= l < |lanes| :: lanes[l] == []
    ensures SumLanes(lanes, g) == 0.0
  {
    if lanes != [] { NoColumns(lanes[..|lanes| - 1], g); }
  }

  function Append(a: seq<seq<Col>>, b: seq<seq<Col>>): (r: seq<seq<Col>>)
    requires |a| == |b|
    ensures |r| == |a|
  {
    seq(|a|, l requires 0 <= l < |a| => a[l] + b[l])
  }

  lemma {:induction false} SumLanesAppend(a: seq<seq<Col>>, b: seq<seq<Col>>, g: Col -> real)
    requires |a| == |b|
    ensures SumLanes(Append(a, b), g) == SumLanes(a, g) + SumLanes(b, g)
  {
    if a != [] {
      var n := |a| - 1;
      SumLanesAppend(a[..n], b[..n], g);
      assert Append(a, b)[..n] == Append(a[..n], b[..n]);
      SumConcat(a[n], b[n], g);
    }
  }

  ghost predicate AllScaled(lanes: seq<seq<Col>>, g: Col -> real, h: Col -> real, a: real) {
    forall l | 0 <= l < |lanes| :: Scaled(lanes[l], g, h, a)
  }

  lemma {:induction false} SumLanesScale(lanes: seq<seq<Col>>, g: Col -> real, h: Col -> real, a: real)
    requires AllScaled(lanes, g, h, a)
    ensures SumLanes(lanes, h) == SumLanes(lanes, g) * a
  {
    if lanes != [] {
      var n := |lanes| - 1;
      AllScaledFront(lanes, g, h, a);
      SumLanesScale(lanes[..n], g, h, a);
      SumScale(lanes[n], g, h, a);
      ScaledStep(SumLanes(lanes[..n], g), Sum(lanes[n], g), SumLanes(lanes[..n], h), Sum(lanes[n], h),
                 SumLanes(lanes, g), SumLanes(lanes, h), a);
    }
  }

  lemma AllScaledFront(lanes: seq<seq<Col>>, g: Col -> real, h: Col -> real, a: real)
    requires AllScaled(lanes, g, h, a) && lanes != []
    ensures AllScaled(lanes[..|lanes| - 1], g, h, a) && Scaled(lanes[|lanes| - 1], g, h, a)
  {
  }

  // ---- weights ----

  /** Distance of two scores, in units of the exponent. */
  function Gap(a: real, b: real, scale: real): real { (a - b) * scale }

  /** Weight of a column relative to the reference score m. */
  function Weight(f: real -> real, scale: real, m: Ext, c: Col): real {
    if c.score.NegInf? || m.NegInf? then 0.0 else f(Gap(c.score.r, m.r, scale))
  }

  function Weights(f: real -> real, scale: real, m: Ext): Col -> real {
    c => Weight(f, scale, m, c)
  }

  function WeightedValues(f: real -> real, scale: real, m: Ext, d: nat): Col -> real {
    c => Weight(f, scale, m, c) * Value(c, d)
  }

  /** The factor by which the code corrects what was accumulated relative to `prev`. */
  function ExpScale(f: real -> real, scale: real, prev: Ext, m: Ext): real {
    if m.NegInf? then 1.0 else if prev.NegInf? then 0.0 else f(Gap(prev.r, m.r, scale))
  }

  lemma Reweigh(f: real -> real, scale: real, prev: Ext, m: Ext, c: Col)
    requires IsExp2(f)
    requires prev.NegInf? ==> c.score.NegInf?
    requires m.NegInf? ==> prev.NegInf?
    ensures Weight(f, scale, m, c) == Weight(f, scale, prev, c) * ExpScale(f, scale, prev, m)
  {
    if m.Fin? && prev.Fin? && c.score.Fin? {
      var x, y := Gap(c.score.r, prev.r, scale), Gap(prev.r, m.r, scale);
      assert Gap(c.score.r, m.r, scale) == x + y;
      assert ExpLaw(f, x, y);
    }
  }

  lemma ReweighValue(f: real -> real, scale: real, prev: Ext, m: Ext, c: Col, d: nat)
    requires IsExp2(f)
    requires prev.NegInf? ==> c.score.NegInf?
    requires m.NegInf? ==> prev.NegInf?
    ensures WeightedValues(f, scale, m, d)(c) == WeightedValues(f, scale, prev, d)(c) * ExpScale(f, scale, prev, m)
  {
    Reweigh(f, scale, prev, m, c);
    Reorder(Weight(f, scale, prev, c), ExpScale(f, scale, prev, m), Value(c, d));
  }

  lemma Reorder(a: real, b: real, c: real)
    ensures a * b * c == a * c * b
  {
  }

  /** No score is above m. */
  ghost predicate AtMost(m: Ext, cs: seq<Col>) {
    forall c | c in cs && c.score.Fin? :: m.Fin? && c.score.r <= m.r
  }

  ghost predicate Attained(m: Ext, cs: seq<Col>) {
    exists c :: c in cs && c.score == m
  }

  /** m is the largest score in the lanes; minus infinity if none is finite. */
  ghost predicate IsMax(m: Ext, lanes: seq<seq<Col>>) {
    && (forall l | 0 <= l < |lanes| :: AtMost(m, lanes[l]))
    && (m.Fin? ==> exists l :: 0 <= l < |lanes| && Attained(m, lanes[l]))
  }

  lemma MaxLaws(a: Ext, b: Ext, c: Ext)
    ensures Max(a, b) == Max(b, a) && Max(Max(a, b), c) == Max(a, Max(b, c))
  {
  }

  lemma MaxAssocComm()
    ensures AssocComm(Max)
  {
    forall a, b, c ensures Lawful(Max, a, b, c) { MaxLaws(a, b, c); }
  }

  lemma {:induction false} FoldMax(ys: seq<Ext>) returns (i: nat)
    requires ys != []
    ensures forall j | 0 <= j < |ys| :: Le(ys[j], Fold(Max, ys))
    ensures i < |ys| && Fold(Max, ys) == ys[i]
  {
    var n := |ys| - 1;
    i := n;
    if n > 0 {
      var k := FoldMax(ys[..n]);
      if Fold(Max, ys) != ys[n] { i := k; }
      forall j | 0 <= j < n ensures Le(ys[j], Fold(Max, ys)) {
        assert ys[j] == ys[..n][j];
        LeTransitive(ys[j], Fold(Max, ys[..n]), Fold(Max, ys));
      }
    }
  }

  lemma MoreAtMost(m: Ext, a: Ext, b: Ext, seen: seq<Col>, block: seq<Col>)
    requires AtMost(a, seen) && AtMost(b, block) && Le(a, m) && Le(b, m)
    ensures AtMost(m, seen + block)
  {
  }

  lemma TailAtMost(m: Ext, seen: seq<Col>, block: seq<Col>)
    requires AtMost(m, seen + block)
    ensures AtMost(m, block)
  {
    assert forall c | c in block :: c in seen + block;
  }

  lemma BlockAtMost(m: Ext, seen: seq<seq<Col>>, block: seq<seq<Col>>)
    requires |seen| == |block| && IsMax(m, Append(seen, block))
    ensures forall l | 0 <= l < |block| :: AtMost(m, block[l])
  {
    forall l | 0 <= l < |block| ensures AtMost(m, block[l]) {
      assert AtMost(m, Append(seen, block)[l]);
      TailAtMost(m, seen[l], block[l]);
    }
  }

  lemma StillAttained(m: Ext, seen: seq<Col>, block: seq<Col>)
    requires Attained(m, seen) || Attained(m, block)
    ensures Attained(m, seen + block)
  {
    var c :| (c in seen || c in block) && c.score == m;
    assert c in seen + block;
  }

  /** The largest of the lanes' own maxima, each started from the previous row maximum. */
  lemma NewMax(prev: Ext, seen: seq<seq<Col>>, block: seq<seq<Col>>, laneMax: seq<Ext>)
    requires |seen| == |block| == |laneMax| && 0 < |seen| && IsMax(prev, seen)
    requires forall l | 0 <= l < |block| :: Le(prev, laneMax[l]) && AtMost(laneMax[l], block[l])
    requires forall l | 0 <= l < |block| :: laneMax[l] == prev || Attained(laneMax[l], block[l])
    ensures IsMax(Fold(Max, laneMax), Append(seen, block))
    ensures Fold(Max, laneMax).NegInf? ==> prev.NegInf?
  {
    var i := FoldMax(laneMax);
    var m, all := Fold(Max, laneMax), Append(seen, block);
    forall l | 0 <= l < |all| ensures AtMost(m, all[l]) {
      LeTransitive(prev, laneMax[l], m);
      MoreAtMost(m, prev, laneMax[l], seen[l], block[l]);
    }
    if m.Fin? {
      var l := i;
      if m == prev { l :| 0 <= l < |seen| && Attained(m, seen[l]); }
      StillAttained(m, seen[l], block[l]);
      assert Attained(m, all[l]);
    }
  }

  // ---- what the maximum is for ----

  ghost predicate Increasing(f: real -> real) {
    forall x, y | x <= y :: f(x) <= f(y)
  }

  /** Relative to a score that is not exceeded, no weight is above one. */
  lemma WeightAtMostOne(f: real -> real, scale: real, m: Ext, cs: seq<Col>, c: Col)
    requires IsExp2(f) && Increasing(f) && scale > 0.0 && AtMost(m, cs) && c in cs
    ensures 0.0 <= Weight(f, scale, m, c) <= 1.0
  {
    if c.score.Fin? {
      ExpZero(f);
      assert ExpLaw(f, Gap(c.score.r, m.r, scale), 0.0);
      NotPositive(c.score.r - m.r, scale);
      assert f(Gap(c.score.r, m.r, scale)) <= f(0.0);
    }
  }

  lemma NotPositive(x: real, scale: real)
    requires x <= 0.0 && scale > 0.0
    ensures x * scale <= 0.0
  {
  }

  /** Nor is any correction. */
  lemma CorrectionAtMostOne(f: real -> real, scale: real, prev: Ext, m: Ext)
    requires IsExp2(f) && Increasing(f) && scale > 0.0 && Le(prev, m)
    ensures 0.0 <= ExpScale(f, scale, prev, m) <= 1.0
  {
    if prev.Fin? {
      ExpZero(f);
      assert ExpLaw(f, Gap(prev.r, m.r, scale), 0.0);
      NotPositive(prev.r - m.r, scale);
      assert f(Gap(prev.r, m.r, scale)) <= f(0.0);
    }
  }

  /** No weight in the tile is above one. */
  lemma WeightsAtMostOne(score: array2<Ext>, f: real -> real, scale: real, m: Ext, block: seq<seq<Col>>)
    requires IsExp2(f) && Increasing(f) && scale > 0.0 && WeightsOf(score, f, scale, m, block)
    requires forall l | 0 <= l < LANES :: AtMost(m, block[l])
    ensures forall l, j | 0 <= l < LANES && 0 <= j < score.Length1 :: score[l, j].Fin? && 0.0 <= score[l, j].r <= 1.0
  {
    forall l, j | 0 <= l < LANES && 0 <= j < score.Length1
      ensures score[l, j].Fin? && 0.0 <= score[l, j].r <= 1.0
    {
      WeightAtMostOne(f, scale, m, block[l], block[l][j]);
    }
  }

  // ---- corrections ----

  /** A lane's earlier sum, corrected, is its sum relative to the new maximum. */
  lemma Corrected(f: real -> real, scale: real, prev: Ext, m: Ext, cs: seq<Col>, a: real,
                  g: Col -> real, h: Col -> real)
    requires IsExp2(f) && AtMost(prev, cs) && (m.NegInf? ==> prev.NegInf?)
    requires a == ExpScale(f, scale, prev, m) && g == Weights(f, scale, prev) && h == Weights(f, scale, m)
    ensures Sum(cs, h) == Sum(cs, g) * a
  {
    forall c | c in cs ensures h(c) == g(c) * a {
      Reweigh(f, scale, prev, m, c);
    }
    SumScale(cs, g, h, a);
  }

  lemma CorrectedTerms(f: real -> real, scale: real, prev: Ext, m: Ext, cs: seq<Col>, d: nat)
    requires IsExp2(f) && AtMost(prev, cs) && (m.NegInf? ==> prev.NegInf?)
    ensures Scaled(cs, WeightedValues(f, scale, prev, d), WeightedValues(f, scale, m, d), ExpScale(f, scale, prev, m))
  {
    forall c | c in cs
      ensures WeightedValues(f, scale, m, d)(c)
              == WeightedValues(f, scale, prev, d)(c) * ExpScale(f, scale, prev, m)
    {
      ReweighValue(f, scale, prev, m, c, d);
    }
  }

  lemma AllTermsCorrected(f: real -> real, scale: real, prev: Ext, m: Ext, lanes: seq<seq<Col>>, d: nat)
    requires IsExp2(f) && (m.NegInf? ==> prev.NegInf?)
    requires forall l | 0 <= l < |lanes| :: AtMost(prev, lanes[l])
    ensures AllScaled(lanes, WeightedValues(f, scale, prev, d), WeightedValues(f, scale, m, d),
                      ExpScale(f, scale, prev, m))
  {
    forall l | 0 <= l < |lanes|
      ensures Scaled(lanes[l], WeightedValues(f, scale, prev, d), WeightedValues(f, scale, m, d),
                     ExpScale(f, scale, prev, m))
    {
      CorrectedTerms(f, scale, prev, m, lanes[l], d);
    }
  }

  lemma CorrectedValues(f: real -> real, scale: real, prev: Ext, m: Ext, lanes: seq<seq<Col>>, d: nat, a: real,
                        g: Col -> real, h: Col -> real)
    requires IsExp2(f) && (m.NegInf? ==> prev.NegInf?)
    requires forall l | 0 <= l < |lanes| :: AtMost(prev, lanes[l])
    requires a == ExpScale(f, scale, prev, m)
    requires g == WeightedValues(f, scale, prev, d) && h == WeightedValues(f, scale, m, d)
    ensures SumLanes(lanes, h) == SumLanes(lanes, g) * a
  {
    AllTermsCorrected(f, scale, prev, m, lanes, d);
    SumLanesScale(lanes, g, h, a);
  }

  const LANES: nat := 4

  /** What the four threads of a quad hold for one row of a warp's score tile: the row
      maximum, each lane's own sum, and the row of the output accumulator. */
  class WarpRow {
    var rowMax: Ext
    const sums: array<real>
    const out: array<real>

    ghost predicate Valid()
      reads this
    {
      sums.Length == LANES && sums != out
    }

    /** The state after the columns `seen`, lane by lane. */
    ghost predicate Holds(f: real -> real, scale: real, seen: seq<seq<Col>>)
      reads this, sums, out
    {
      && Valid() && |seen| == LANES && IsMax(rowMax, seen)
      && (forall l | 0 <= l < LANES :: sums[l] == Sum(seen[l], Weights(f, scale, rowMax)))
      && (forall d | 0 <= d < out.Length :: out[d] == SumLanes(seen, WeightedValues(f, scale, rowMax, d)))
    }

    constructor (headDim: nat, ghost f: real -> real, ghost scale: real)
      ensures Holds(f, scale, [[], [], [], []]) && out.Length == headDim && fresh(sums) && fresh(out)
    {
      rowMax := NegInf;
      sums := new real[LANES](_ => 0.0);
      out := new real[headDim](_ => 0.0);
      new;
      ghost var seen: seq<seq<Col>> := [[], [], [], []];
      forall d | 0 <= d < out.Length ensures out[d] == SumLanes(seen, WeightedValues(f, scale, rowMax, d)) {
        NoColumns(seen, WeightedValues(f, scale, rowMax, d));
      }
    }

    /** reduce_max: every lane takes the maximum over its own scores, then the quad combines. */
    method ReduceMax(score: array2<Ext>, ghost seen: seq<seq<Col>>, ghost block: seq<seq<Col>>)
      requires |seen| == LANES && IsMax(rowMax, seen) && ScoresOf(score, block)
      modifies this`rowMax
      ensures IsMax(rowMax, Append(seen, block))
      ensures rowMax.NegInf? ==> old(rowMax).NegInf?
    {
      var prev := rowMax;
      var laneMax := new Ext[LANES];
      for l := 0 to LANES
        invariant forall i | 0 <= i < l :: Le(prev, laneMax[i]) && AtMost(laneMax[i], block[i])
        invariant forall i | 0 <= i < l :: laneMax[i] == prev || Attained(laneMax[i], block[i])
      {
        laneMax[l] := LaneMax(prev, score, l, block);
      }
      NewMax(prev, seen, block, laneMax[..]);
      ghost var own := laneMax[..];
      MaxAssocComm();
      assert PowerOfTwo(2);
      WarpReduce(laneMax, LANES, Max);
      assert GroupFold(Max, own, LANES, 0) == Fold(Max, own) by { assert own[0..4] == own; }
      rowMax := laneMax[0];
    }

    /** softmax_rescale: find the new maximum, correct what was accumulated, turn the scores
        into weights and add them to the lanes' sums. */
    method SoftmaxRescale(f: real -> real, scale: real, score: array2<Ext>,
                          ghost seen: seq<seq<Col>>, ghost block: seq<seq<Col>>)
      requires IsExp2(f) && Holds(f, scale, seen) && ScoresOf(score, block)
      modifies this`rowMax, sums, out, score
      ensures Valid() && IsMax(rowMax, Append(seen, block))
      ensures forall l | 0 <= l < LANES :: sums[l] == Sum(Append(seen, block)[l], Weights(f, scale, rowMax))
      ensures forall d | 0 <= d < out.Length :: out[d] == SumLanes(seen, WeightedValues(f, scale, rowMax, d))
      ensures WeightsOf(score, f, scale, rowMax, block)
      ensures Increasing(f) && scale > 0.0 ==>
                forall l, j | 0 <= l < LANES && 0 <= j < score.Length1 ::
                  score[l, j].Fin? && 0.0 <= score[l, j].r <= 1.0
    {
      var prev := rowMax;
      ReduceMax(score, seen, block);
      CorrectSums(sums, f, scale, prev, rowMax, seen);
      CorrectOut(out, f, scale, prev, rowMax, seen);
      BlockAtMost(rowMax, seen, block);
      ToWeights(f, scale, score, rowMax, block);
      AddWeights(sums, score, f, scale, rowMax, seen, block);
      if Increasing(f) && scale > 0.0 { WeightsAtMostOne(score, f, scale, rowMax, block); }
    }

    /** The PV product of the block is added to the output accumulator. */
    method AccumulatePV(score: array2<Ext>, block: seq<seq<Col>>,
                        ghost f: real -> real, ghost scale: real, ghost seen: seq<seq<Col>>)
      requires Valid() && |seen| == LANES && WeightsOf(score, f, scale, rowMax, block)
      requires IsMax(rowMax, Append(seen, block))
      requires forall l | 0 <= l < LANES :: sums[l] == Sum(Append(seen, block)[l], Weights(f, scale, rowMax))
      requires forall d | 0 <= d < out.Length :: out[d] == SumLanes(seen, WeightedValues(f, scale, rowMax, d))
      modifies out
      ensures Holds(f, scale, Append(seen, block))
    {
      AddProducts(out, score, block, f, scale, rowMax, seen);
    }
  }

  method AddProducts(out: array<real>, score: array2<Ext>, block: seq<seq<Col>>,
                     ghost f: real -> real, ghost scale: real, ghost m: Ext, ghost seen: seq<seq<Col>>)
    requires |seen| == LANES && WeightsOf(score, f, scale, m, block)
    requires forall d | 0 <= d < out.Length :: out[d] == SumLanes(seen, WeightedValues(f, scale, m, d))
    modifies out
    ensures forall d | 0 <= d < out.Length :: out[d] == SumLanes(Append(seen, block), WeightedValues(f, scale, m, d))
  {
    for d := 0 to out.Length
      invariant forall e | 0 <= e < d :: out[e] == SumLanes(Append(seen, block), WeightedValues(f, scale, m, e))
      invariant forall e | d <= e < out.Length :: out[e] == SumLanes(seen, WeightedValues(f, scale, m, e))
    {
      var x := BlockProduct(score, block, d, f, scale, m);
      SumLanesAppend(seen, block, WeightedValues(f, scale, m, d));
      out[d] := out[d] + x;
    }
  }

  method ScaleAll(a: array<real>, x: real)
    modifies a
    ensures forall i | 0 <= i < a.Length :: a[i] == old(a[i]) * x
  {
    for i := 0 to a.Length
      invariant forall j | 0 <= j < i :: a[j] == old(a[j]) * x
      invariant forall j | i <= j < a.Length :: a[j] == old(a[j])
    {
      a[i] := a[i] * x;
    }
  }

  lemma CorrectedSum(f: real -> real, scale: real, prev: Ext, m: Ext, seen: seq<seq<Col>>,
                     l: nat, x: real, y: real, a: real)
    requires IsExp2(f) && (m.NegInf? ==> prev.NegInf?) && IsMax(prev, seen) && l < |seen|
    requires a == ExpScale(f, scale, prev, m) && x == Sum(seen[l], Weights(f, scale, prev)) && y == x * a
    ensures y == Sum(seen[l], Weights(f, scale, m))
  {
    Corrected(f, scale, prev, m, seen[l], a, Weights(f, scale, prev), Weights(f, scale, m));
  }

  lemma CorrectedEntry(f: real -> real, scale: real, prev: Ext, m: Ext, seen: seq<seq<Col>>,
                       d: nat, x: real, y: real, a: real)
    requires IsExp2(f) && (m.NegInf? ==> prev.NegInf?) && IsMax(prev, seen)
    requires a == ExpScale(f, scale, prev, m) && x == SumLanes(seen, WeightedValues(f, scale, prev, d)) && y == x * a
    ensures y == SumLanes(seen, WeightedValues(f, scale, m, d))
  {
    CorrectedValues(f, scale, prev, m, seen, d, a, WeightedValues(f, scale, prev, d), WeightedValues(f, scale, m, d));
  }

  /** What was accumulated relative to the old maximum becomes relative to the new one. */
  method CorrectSums(sums: array<real>, f: real -> real, scale: real, prev: Ext, m: Ext, ghost seen: seq<seq<Col>>)
    requires IsExp2(f) && sums.Length == |seen| && (m.NegInf? ==> prev.NegInf?) && IsMax(prev, seen)
    requires forall l | 0 <= l < |seen| :: sums[l] == Sum(seen[l], Weights(f, scale, prev))
    modifies sums
    ensures forall l | 0 <= l < |seen| :: sums[l] == Sum(seen[l], Weights(f, scale, m))
  {
    var expScale := ExpScale(f, scale, prev, m);
    ScaleAll(sums, expScale);
    forall l | 0 <= l < |seen| ensures sums[l] == Sum(seen[l], Weights(f, scale, m)) {
      CorrectedSum(f, scale, prev, m, seen, l, old(sums[l]), sums[l], expScale);
    }
  }

  method CorrectOut(out: array<real>, f: real -> real, scale: real, prev: Ext, m: Ext, ghost seen: seq<seq<Col>>)
    requires IsExp2(f) && (m.NegInf? ==> prev.NegInf?) && IsMax(prev, seen)
    requires forall d | 0 <= d < out.Length :: out[d] == SumLanes(seen, WeightedValues(f, scale, prev, d))
    modifies out
    ensures forall d | 0 <= d < out.Length :: out[d] == SumLanes(seen, WeightedValues(f, scale, m, d))
  {
    var expScale := ExpScale(f, scale, prev, m);
    ScaleAll(out, expScale);
    forall d | 0 <= d < out.Length ensures out[d] == SumLanes(seen, WeightedValues(f, scale, m, d)) {
      CorrectedEntry(f, scale, prev, m, seen, d, old(out[d]), out[d], expScale);
    }
  }

  /** score[l, j] is the weight of the block's column j of lane l, relative to m. */
  ghost predicate WeightsOf(score: array2<Ext>, f: real -> real, scale: real, m: Ext, block: seq<seq<Col>>)
    reads score
  {
    && score.Length0 == LANES == |block|
    && (forall l | 0 <= l < LANES :: |block[l]| == score.Length1)
    && (forall l, j | 0 <= l < LANES && 0 <= j < score.Length1 ::
          score[l, j] == Fin(Weight(f, scale, m, block[l][j])))
  }

  /** exp2f(score * scale - max * scale), where minus infinity gives zero. */
  method ToWeights(f: real -> real, scale: real, score: array2<Ext>, m: Ext, ghost block: seq<seq<Col>>)
    requires ScoresOf(score, block)
    requires m.NegInf? ==> forall l | 0 <= l < LANES :: AtMost(m, block[l])
    modifies score
    ensures WeightsOf(score, f, scale, m, block)
  {
    var maxScale := if m.NegInf? then 0.0 else m.r * scale;
    for l := 0 to LANES
      invariant forall i, j | 0 <= i < l && 0 <= j < score.Length1 ::
                  score[i, j] == Fin(Weight(f, scale, m, block[i][j]))
      invariant forall i, j | l <= i < LANES && 0 <= j < score.Length1 :: score[i, j] == block[i][j].score
    {
      for j := 0 to score.Length1
        invariant forall i, c | 0 <= i < l && 0 <= c < score.Length1 ::
                    score[i, c] == Fin(Weight(f, scale, m, block[i][c]))
        invariant forall i, c | l < i < LANES && 0 <= c < score.Length1 :: score[i, c] == block[i][c].score
        invariant forall c | 0 <= c < j :: score[l, c] == Fin(Weight(f, scale, m, block[l][c]))
        invariant forall c | j <= c < score.Length1 :: score[l, c] == block[l][c].score
      {
        assert block[l][j] in block[l];
        var x := score[l, j];
        if x.Fin? && m.Fin? { assert x.r * scale - maxScale == Gap(x.r, m.r, scale); }
        score[l, j] := Fin(if x.NegInf? then 0.0 else f(x.r * scale - maxScale));
      }
    }
  }

  /** batch_reduce with plus: each lane adds its own weights to its sum. */
  method AddWeights(sums: array<real>, score: array2<Ext>, ghost f: real -> real, ghost scale: real, ghost m: Ext,
                    ghost seen: seq<seq<Col>>, ghost block: seq<seq<Col>>)
    requires sums.Length == LANES == |seen| && WeightsOf(score, f, scale, m, block)
    requires forall l | 0 <= l < LANES :: sums[l] == Sum(seen[l], Weights(f, scale, m))
    modifies sums
    ensures forall l | 0 <= l < LANES :: sums[l] == Sum(Append(seen, block)[l], Weights(f, scale, m))
  {
    for l := 0 to LANES
      invariant forall i | 0 <= i < l :: sums[i] == Sum(seen[i] + block[i], Weights(f, scale, m))
      invariant forall i | l <= i < LANES :: sums[i] == Sum(seen[i], Weights(f, scale, m))
    {
      sums[l] := AddLane(sums[l], score, l, f, scale, m, seen[l], block);
    }
  }

  /** reduce: one lane's sum takes in the lane's weights. */
  method AddLane(init: real, score: array2<Ext>, l: nat, ghost f: real -> real, ghost scale: real, ghost m: Ext,
                 ghost seen: seq<Col>, ghost block: seq<seq<Col>>) returns (sum: real)
    requires WeightsOf(score, f, scale, m, block) && l < LANES && init == Sum(seen, Weights(f, scale, m))
    ensures sum == Sum(seen + block[l], Weights(f, scale, m))
  {
    ghost var g := Weights(f, scale, m);
    sum := init;
    assert seen + block[l][..0] == seen;
    for j := 0 to score.Length1
      invariant sum == Sum(seen + block[l][..j], g)
    {
      assert (seen + block[l][..j + 1])[..|seen| + j] == seen + block[l][..j];
      sum := sum + score[l, j].r;
    }
    assert block[l][..score.Length1] == block[l];
  }

  /** One entry of the block's PV product, summed over all lanes. */
  method BlockProduct(score: array2<Ext>, block: seq<seq<Col>>, d: nat,
                      ghost f: real -> real, ghost scale: real, ghost m: Ext) returns (x: real)
    requires WeightsOf(score, f, scale, m, block)
    ensures x == SumLanes(block, WeightedValues(f, scale, m, d))
  {
    ghost var g := WeightedValues(f, scale, m, d);
    x := 0.0;
    for l := 0 to LANES
      invariant x == SumLanes(block[..l], g)
    {
      var y := 0.0;
      for j := 0 to score.Length1
        invariant y == Sum(block[l][..j], g)
      {
        assert block[l][..j + 1][..j] == block[l][..j];
        y := y + score[l, j].r * Value(block[l][j], d);
      }
      assert block[l][..score.Length1] == block[l];
      assert block[..l + 1][..l] == block[..l];
      x := x + y;
    }
    assert block[..LANES] == block;
  }

  /** score[l, j] is the score of the block's column j of lane l. */
  ghost predicate ScoresOf(score: array2<Ext>, block: seq<seq<Col>>)
    reads score
  {
    && score.Length0 == LANES == |block|
    && (forall l | 0 <= l < LANES :: |block[l]| == score.Length1)
    && (forall l, j | 0 <= l < LANES && 0 <= j < score.Length1 :: score[l, j] == block[l][j].score)
  }

  /** batch_reduce with max over one lane's scores. */
  method LaneMax(init: Ext, score: array2<Ext>, l: nat, ghost block: seq<seq<Col>>) returns (m: Ext)
    requires ScoresOf(score, block) && l < LANES
    ensures Le(init, m) && AtMost(m, block[l])
    ensures m == init || Attained(m, block[l])
  {
    m := init;
    for j := 0 to score.Length1
      invariant Le(init, m)
      invariant forall i | 0 <= i < j :: Le(block[l][i].score, m)
      invariant m == init || Attained(m, block[l])
    {
      assert block[l][j] in block[l];
      m := Max(m, score[l, j]);
    }
  }
}
