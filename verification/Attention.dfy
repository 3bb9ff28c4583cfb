/** One output row of the kernel from start to end: every column warp runs its blocks, the
    warps exchange maxima and sums, normalize, and warp 0 adds up the partial outputs. */
module Attention {
  import opened Butterfly
  import opened ExtendedReals
  import opened Softmax
  import opened SoftmaxMerge

  /** The score columns of one block, by lane of the quad. */
  type Block = b: seq<seq<Col>> | |b| == LANES && forall l | 0 <= l < LANES :: |b[l]| == |b[0]| witness [[], [], [], []]

  /** All columns of a warp's blocks, by lane. */
  function SeenOf(blocks: seq<Block>): (r: seq<seq<Col>>)
    ensures |r| == LANES
  {
    if blocks == [] then [[], [], [], []] else Append(SeenOf(blocks[..|blocks| - 1]), blocks[|blocks| - 1])
  }

  function RowOf(warps: seq<seq<Block>>): (r: Row)
    ensures |r| == |warps|
  {
    seq(|warps|, n requires 0 <= n < |warps| => SeenOf(warps[n]))
  }

  /** The score tile of one row, as the QK product leaves it. */
  method LoadScores(block: Block) returns (score: array2<Ext>)
    ensures fresh(score) && ScoresOf(score, block)
  {
    score := new Ext[LANES, |block[0]|]((l, j) requires 0 <= l < LANES && 0 <= j < |block[0]| => block[l][j].score);
  }

  /** The consumer's loop over the blocks of a tile, for one row of one column warp. */
  method RunWarp(f: real -> real, scale: real, blocks: seq<Block>, headDim: nat) returns (w: WarpRow)
    requires IsExp2(f)
    ensures fresh(w) && fresh(w.sums) && fresh(w.out) && w.out.Length == headDim
    ensures w.Holds(f, scale, SeenOf(blocks))
  {
    w := new WarpRow(headDim, f, scale);
    for i := 0 to |blocks|
      invariant fresh(w) && fresh(w.sums) && fresh(w.out) && w.out.Length == headDim
      invariant w.Holds(f, scale, SeenOf(blocks[..i]))
    {
      ghost var seen := SeenOf(blocks[..i]);
      assert blocks[..i + 1][..i] == blocks[..i];
      var score := LoadScores(blocks[i]);
      w.SoftmaxRescale(f, scale, score, seen, blocks[i]);
      w.AccumulatePV(score, blocks[i], f, scale, seen);
    }
    assert blocks[..|blocks|] == blocks;
  }

  // ---- the sum over the quad ----

  function Plus(x: real, y: real): real { x + y }

  lemma PlusLaws()
    ensures AssocComm(Plus)
  {
    forall a, b, c ensures Lawful(Plus, a, b, c) {}
  }

  lemma {:induction false} FoldPlus(sums: seq<real>, seen: seq<seq<Col>>, g: Col -> real)
    requires |sums| == |seen| && seen != [] && forall l | 0 <= l < |seen| :: sums[l] == Sum(seen[l], g)
    ensures Fold(Plus, sums) == SumLanes(seen, g)
  {
    var n := |seen| - 1;
    if n == 0 {
      assert SumLanes(seen[..0], g) == 0.0;
    } else {
      FoldPlus(sums[..n], seen[..n], g);
    }
  }

  /** The deferred sum over the four lanes. */
  method QuadSum(sums: array<real>, ghost seen: seq<seq<Col>>, ghost g: Col -> real) returns (x: real)
    requires sums.Length == LANES == |seen| && forall l | 0 <= l < LANES :: sums[l] == Sum(seen[l], g)
    modifies sums
    ensures x == SumLanes(seen, g)
  {
    ghost var own := sums[..];
    PlusLaws();
    assert PowerOfTwo(2);
    WarpReduce(sums, LANES, Plus);
    assert GroupFold(Plus, own, LANES, 0) == Fold(Plus, own) by { assert own[0..4] == own; }
    FoldPlus(own, seen, g);
    x := sums[0];
  }

  // ---- before the merge ----

  /** The output rows of the warps: separate arrays of equal length. */
  ghost predicate Separate(outs: seq<array<real>>, headDim: nat) {
    && (forall n | 0 <= n < |outs| :: outs[n].Length == headDim)
    && (forall n, k | 0 <= n < k < |outs| :: outs[n] != outs[k])
  }

  /** The rows as values. */
  ghost predicate Hold(outs: seq<array<real>>, parts: seq<seq<real>>)
    reads outs
  {
    |outs| == |parts| && forall n | 0 <= n < |outs| :: outs[n][..] == parts[n]
  }

  /** What the warps know about their own columns, entry by entry. */
  ghost predicate AllStats(f: real -> real, scale: real, row: Row, maxs: seq<Ext>, sums: seq<real>,
                           parts: seq<seq<real>>, headDim: nat) {
    && |row| == |maxs| == |sums| == |parts|
    && (forall n | 0 <= n < |row| :: |parts[n]| == headDim)
    && (forall n, d | 0 <= n < |row| && 0 <= d < headDim ::
          WarpStats(f, scale, row[n], maxs[n], sums[n], parts[n][d], d))
  }

  /** One warp from its blocks to its statistics and its output row. */
  method WarpPartial(f: real -> real, scale: real, blocks: seq<Block>, headDim: nat)
    returns (m: Ext, sum: real, out: array<real>)
    requires IsExp2(f)
    ensures fresh(out) && out.Length == headDim
    ensures forall d | 0 <= d < headDim :: WarpStats(f, scale, SeenOf(blocks), m, sum, out[d], d)
  {
    var w := RunWarp(f, scale, blocks, headDim);
    m, out := w.rowMax, w.out;
    sum := QuadSum(w.sums, SeenOf(blocks), Weights(f, scale, w.rowMax));
  }

  method RunWarps(f: real -> real, scale: real, warps: seq<seq<Block>>, headDim: nat)
    returns (maxs: seq<Ext>, sums: seq<real>, outs: seq<array<real>>, ghost parts: seq<seq<real>>)
    requires IsExp2(f)
    ensures Separate(outs, headDim) && Hold(outs, parts) && forall n | 0 <= n < |outs| :: fresh(outs[n])
    ensures AllStats(f, scale, RowOf(warps), maxs, sums, parts, headDim)
  {
    maxs, sums, outs, parts := [], [], [], [];
    for n := 0 to |warps|
      invariant |maxs| == |sums| == n && Separate(outs, headDim) && Hold(outs, parts)
      invariant forall i | 0 <= i < |outs| :: fresh(outs[i])
      invariant AllStats(f, scale, RowOf(warps)[..n], maxs, sums, parts, headDim)
    {
      var m, sum, out := WarpPartial(f, scale, warps[n], headDim);
      MoreStats(f, scale, RowOf(warps), n, maxs, sums, parts, headDim, m, sum, out[..]);
      maxs, sums, outs, parts := maxs + [m], sums + [sum], outs + [out], parts + [out[..]];
    }
    assert RowOf(warps)[..|warps|] == RowOf(warps);
  }

  lemma MoreStats(f: real -> real, scale: real, row: Row, n: nat, maxs: seq<Ext>, sums: seq<real>,
                  parts: seq<seq<real>>,
                  headDim: nat, m: Ext, sum: real, part: seq<real>)
    requires n < |row| && AllStats(f, scale, row[..n], maxs, sums, parts, headDim) && |part| == headDim
    requires forall d | 0 <= d < headDim :: WarpStats(f, scale, row[n], m, sum, part[d], d)
    ensures AllStats(f, scale, row[..n + 1], maxs + [m], sums + [sum], parts + [part], headDim)
  {
    assert row[..n + 1] == row[..n] + [row[n]];
  }

  // ---- the merge ----

  /** With one warp the correction to the global maximum is one. */
  lemma SelfScale(f: real -> real, scale: real, m: Ext)
    requires IsExp2(f)
    ensures ExpScale(f, scale, m, m) == 1.0
  {
    if m.Fin? {
      assert Gap(m.r, m.r, scale) == 0.0;
      ExpZero(f);
    }
  }

  function Scale(part: seq<real>, factor: real): (r: seq<real>)
    ensures |r| == |part|
  {
    seq(|part|, d requires 0 <= d < |part| => Times(part[d], factor))
  }

  lemma IsScaled(before: seq<real>, after: seq<real>, factor: real)
    requires |before| == |after| && forall d | 0 <= d < |before| :: after[d] == before[d] * factor
    ensures after == Scale(before, factor)
  {
    assert forall d | 0 <= d < |before| :: after[d] == Times(before[d], factor);
  }

  /** normalize_stats, with many or with one column warp. */
  method NormalizeOwn(f: real -> real, scale: real, maxs: seq<Ext>, sums: seq<real>, own: nat, out: array<real>)
    returns (ghost factor: real)
    requires IsExp2(f) && |maxs| == |sums| && own < |maxs| && MaxOf(maxs).Fin?
    modifies out
    ensures out[..] == Scale(old(out[..]), factor)
    ensures var total := StatSum(f, scale, MaxOf(maxs), maxs, sums);
            total != 0.0 ==> Times(factor, total) == ExpScale(f, scale, maxs[own], MaxOf(maxs))
  {
    ghost var before := out[..];
    if |maxs| > 1 {
      factor := NormalizeStats(f, scale, maxs, sums, own, out);
    } else {
      assert MaxOf(maxs) == maxs[0];
      SelfScale(f, scale, maxs[0]);
      assert StatSum(f, scale, maxs[0], maxs, sums) == sums[0];
      factor := NormalizeSingle(sums[0], out);
    }
    IsScaled(before, out[..], factor);
  }

  /** The warps' rows times their factors. */
  ghost predicate ScaledRows(raws: seq<seq<real>>, factors: seq<real>, parts: seq<seq<real>>) {
    |raws| == |factors| == |parts| && forall n | 0 <= n < |raws| :: parts[n] == Scale(raws[n], factors[n])
  }

  method NormalizeAll(f: real -> real, scale: real, maxs: seq<Ext>, sums: seq<real>, outs: seq<array<real>>,
                      headDim: nat, ghost raws: seq<seq<real>>, ghost total: real, ghost top: Ext)
    returns (ghost factors: seq<real>, ghost parts: seq<seq<real>>)
    requires IsExp2(f) && |maxs| == |sums| == |outs| && Separate(outs, headDim) && Hold(outs, raws)
    requires top == MaxOf(maxs) && top.Fin? && total == StatSum(f, scale, top, maxs, sums)
    modifies outs
    ensures Factors(f, scale, maxs, factors, total, top)
    ensures Hold(outs, parts) && ScaledRows(raws, factors, parts)
  {
    factors, parts := [], [];
    for n := 0 to |outs|
      invariant |factors| == |parts| == n && Factors(f, scale, maxs, factors, total, top)
      invariant forall i | 0 <= i < n :: outs[i][..] == parts[i] == Scale(raws[i], factors[i])
      invariant forall i | n <= i < |outs| :: outs[i][..] == raws[i]
    {
      ghost var factor := NormalizeOwn(f, scale, maxs, sums, n, outs[n]);
      MoreFactors(f, scale, maxs, factors, total, top, factor);
      factors, parts := factors + [factor], parts + [outs[n][..]];
    }
  }

  lemma MoreFactors(f: real -> real, scale: real, maxs: seq<Ext>, factors: seq<real>, total: real, top: Ext, x: real)
    requires Factors(f, scale, maxs, factors, total, top) && |factors| < |maxs|
    requires total != 0.0 ==> Times(x, total) == ExpScale(f, scale, maxs[|factors|], top)
    ensures Factors(f, scale, maxs, factors + [x], total, top)
  {
  }

  function Total(xs: seq<real>): real {
    if xs == [] then 0.0 else Total(xs[..|xs| - 1]) + xs[|xs| - 1]
  }

  /** Entry d of every row. */
  function Entries(parts: seq<seq<real>>, headDim: nat, d: nat): (r: seq<real>)
    requires d < headDim && forall n | 0 <= n < |parts| :: |parts[n]| == headDim
    ensures |r| == |parts|
  {
    seq(|parts|, n requires 0 <= n < |parts| => parts[n][d])
  }

  method AddRow(o: array<real>, partial: array<real>)
    requires o != partial && o.Length == partial.Length
    modifies o
    ensures forall d | 0 <= d < o.Length :: o[d] == old(o[d]) + partial[d]
  {
    for e := 0 to o.Length
      invariant forall d | 0 <= d < e :: o[d] == old(o[d]) + partial[d]
      invariant forall d | e <= d < o.Length :: o[d] == old(o[d])
    {
      o[e] := o[e] + partial[e];
    }
  }

  /** The sum of the first n rows. */
  ghost predicate Summed(o: seq<real>, parts: seq<seq<real>>, n: nat) {
    && n <= |parts|
    && (forall i | 0 <= i < |parts| :: |parts[i]| == |o|)
    && (forall d | 0 <= d < |o| :: o[d] == Total(Entries(parts, |o|, d)[..n]))
  }

  lemma FirstRow(parts: seq<seq<real>>)
    requires parts != [] && forall i | 0 <= i < |parts| :: |parts[i]| == |parts[0]|
    ensures Summed(parts[0], parts, 1)
  {
    forall d: nat | d < |parts[0]| ensures parts[0][d] == Total(Entries(parts, |parts[0]|, d)[..1]) {
      FirstEntry(Entries(parts, |parts[0]|, d));
    }
  }

  lemma NextRow(o: seq<real>, after: seq<real>, parts: seq<seq<real>>, n: nat)
    requires Summed(o, parts, n) && n < |parts| && |after| == |o|
    requires forall d | 0 <= d < |o| :: after[d] == o[d] + parts[n][d]
    ensures Summed(after, parts, n + 1)
  {
    forall d: nat | d < |o| ensures after[d] == Total(Entries(parts, |o|, d)[..n + 1]) {
      var xs := Entries(parts, |o|, d);
      assert xs[..n + 1][..n] == xs[..n];
    }
  }

  /** reduce_o_warps_n: warp 0 adds the partial rows of the other warps to its own. */
  method ReduceO(outs: seq<array<real>>, headDim: nat, ghost parts: seq<seq<real>>)
    requires outs != [] && Separate(outs, headDim) && Hold(outs, parts)
    modifies outs[0]
    ensures Summed(outs[0][..], parts, |parts|)
  {
    FirstRow(parts);
    for n := 1 to |outs|
      invariant forall i | 1 <= i < |outs| :: outs[i][..] == parts[i]
      invariant Summed(outs[0][..], parts, n)
    {
      ghost var o := outs[0][..];
      AddRow(outs[0], outs[n]);
      assert forall d | 0 <= d < headDim :: outs[n][d] == parts[n][d];
      NextRow(o, outs[0][..], parts, n);
    }
  }

  lemma FirstEntry(xs: seq<real>)
    requires xs != []
    ensures Total(xs[..1]) == xs[0]
  {
    assert xs[..1][..0] == [];
  }

  lemma {:induction false} TotalIsDot(xs: seq<real>, raw: seq<real>, factors: seq<real>)
    requires |xs| == |raw| == |factors| && forall n | 0 <= n < |xs| :: xs[n] == raw[n] * factors[n]
    ensures Total(xs) == Dot(raw, factors)
  {
    if xs != [] {
      var n := |xs| - 1;
      TotalIsDot(xs[..n], raw[..n], factors[..n]);
    }
  }

  lemma {:induction false} InFlatten<T>(xs: seq<seq<T>>, c: T) returns (n: nat)
    requires c in Flatten(xs)
    ensures n < |xs| && c in xs[n]
  {
    n := |xs| - 1;
    if c !in xs[n] { n := InFlatten(xs[..n], c); }
  }

  /** One finite score makes the global maximum finite. */
  lemma FiniteMax(row: Row, maxs: seq<Ext>, cols: seq<Col>)
    requires |row| == |maxs| && forall n | 0 <= n < |row| :: IsMax(maxs[n], row[n])
    requires multiset(cols) == multiset(Columns(row)) && exists c :: c in cols && c.score.Fin?
    ensures MaxOf(maxs).Fin?
  {
    var c :| c in cols && c.score.Fin?;
    assert c in multiset(Columns(row));
    var i := InFlatten(Flatten(row), c);
    var lane := Flatten(row)[i];
    var n := InFlatten(row, lane);
    var l :| 0 <= l < |row[n]| && row[n][l] == lane;
    assert AtMost(maxs[n], row[n][l]);
    MaxOfBounds(maxs);
  }

  lemma EntriesScaled(raws: seq<seq<real>>, factors: seq<real>, parts: seq<seq<real>>, headDim: nat, d: nat)
    requires ScaledRows(raws, factors, parts) && d < headDim
    requires forall n | 0 <= n < |raws| :: |raws[n]| == |parts[n]| == headDim
    ensures Total(Entries(parts, headDim, d)) == Dot(Entries(raws, headDim, d), factors)
  {
    TotalIsDot(Entries(parts, headDim, d), Entries(raws, headDim, d), factors);
  }

  lemma MergedEntry(f: real -> real, scale: real, row: Row, maxs: seq<Ext>, sums: seq<real>, raws: seq<seq<real>>,
                    factors: seq<real>, cols: seq<Col>, headDim: nat, d: nat, total: real, top: Ext, x: real)
    requires IsExp2(f) && AllStats(f, scale, row, maxs, sums, raws, headDim) && |factors| == |row| && d < headDim
    requires top == MaxOf(maxs) && top.Fin? && total == StatSum(f, scale, top, maxs, sums)
    requires Factors(f, scale, maxs, factors, total, top)
    requires multiset(cols) == multiset(Columns(row)) && exists c :: c in cols && c.score.Fin?
    requires x == Dot(Entries(raws, headDim, d), factors)
    ensures IsAttention(f, scale, cols, d, x)
  {
    MergeIsAttention(f, scale, row, maxs, sums, Entries(raws, headDim, d), factors, cols, d, total, top, x);
  }

  lemma MergedRow(f: real -> real, scale: real, row: Row, maxs: seq<Ext>, sums: seq<real>, raws: seq<seq<real>>,
                  factors: seq<real>, parts: seq<seq<real>>, cols: seq<Col>, headDim: nat,
                  total: real, top: Ext, o: seq<real>)
    requires IsExp2(f) && AllStats(f, scale, row, maxs, sums, raws, headDim)
    requires top == MaxOf(maxs) && top.Fin? && total == StatSum(f, scale, top, maxs, sums)
    requires Factors(f, scale, maxs, factors, total, top) && ScaledRows(raws, factors, parts)
    requires multiset(cols) == multiset(Columns(row)) && exists c :: c in cols && c.score.Fin?
    requires |o| == headDim && Summed(o, parts, |parts|)
    ensures forall d | 0 <= d < headDim :: IsAttention(f, scale, cols, d, o[d])
  {
    forall d: nat | d < headDim ensures IsAttention(f, scale, cols, d, o[d]) {
      EntriesScaled(raws, factors, parts, headDim, d);
      assert Entries(parts, headDim, d)[..|parts|] == Entries(parts, headDim, d);
      MergedEntry(f, scale, row, maxs, sums, raws, factors, cols, headDim, d, total, top, o[d]);
    }
  }

  lemma MaximaOf(f: real -> real, scale: real, row: Row, maxs: seq<Ext>, sums: seq<real>,
                 raws: seq<seq<real>>, headDim: nat)
    requires AllStats(f, scale, row, maxs, sums, raws, headDim) && 0 < headDim
    ensures forall n | 0 <= n < |row| :: IsMax(maxs[n], row[n])
  {
    forall n | 0 <= n < |row| ensures IsMax(maxs[n], row[n]) {
      assert WarpStats(f, scale, row[n], maxs[n], sums[n], raws[n][0], 0);
    }
  }

  /** One row of the attention output: for any number of warps and blocks and any placement of
      the columns among warps, blocks and lanes, the result is softmax attention. */
  method AttentionRow(f: real -> real, scale: real, warps: seq<seq<Block>>, headDim: nat, ghost cols: seq<Col>)
    returns (o: array<real>)
    requires IsExp2(f) && warps != [] && 0 < headDim
    requires multiset(cols) == multiset(Columns(RowOf(warps))) && exists c :: c in cols && c.score.Fin?
    ensures o.Length == headDim && forall d | 0 <= d < headDim :: IsAttention(f, scale, cols, d, o[d])
  {
    var maxs, sums, outs, raws := RunWarps(f, scale, warps, headDim);
    ghost var row := RowOf(warps);
    MaximaOf(f, scale, row, maxs, sums, raws, headDim);
    FiniteMax(row, maxs, cols);
    ghost var top := MaxOf(maxs);
    ghost var total := StatSum(f, scale, top, maxs, sums);
    ghost var factors, parts := NormalizeAll(f, scale, maxs, sums, outs, headDim, raws, total, top);
    ReduceO(outs, headDim, parts);
    o := outs[0];
    MergedRow(f, scale, row, maxs, sums, raws, factors, parts, cols, headDim, total, top, o[..]);
    assert forall d | 0 <= d < headDim :: o[..][d] == o[d];
  }
}
