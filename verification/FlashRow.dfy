/** One query row of the kernel, with the columns placed as the MMA fragments place them and
    the causal mask applied: softmax attention over exactly the visible keys. */
module FlashRow {
  import opened Tiles
  import opened ExtendedReals
  import opened Softmax
  import opened SoftmaxMerge
  import opened Attention
  import opened Causal
  import Fragments

  /** xs in k pieces of n elements. */
  function Chunks<T>(xs: seq<T>, n: nat, k: nat): (r: seq<seq<T>>)
    requires |xs| == k * n
    ensures |r| == k && forall i | 0 <= i < k :: |r[i]| == n
  {
    if k == 0 then [] else
    MulDist(k - 1, 1, n);
    Chunks(xs[..(k - 1) * n], n, k - 1) + [xs[(k - 1) * n..]]
  }

  lemma {:induction false} ChunksFlat<T>(xs: seq<T>, n: nat, k: nat)
    requires |xs| == k * n
    ensures Flatten(Chunks(xs, n, k)) == xs
  {
    if k > 0 {
      MulDist(k - 1, 1, n);
      ChunksFlat(xs[..(k - 1) * n], n, k - 1);
    }
  }

  lemma {:induction false} ChunkAt<T>(xs: seq<T>, n: nat, k: nat, i: nat, j: nat, at: nat)
    requires |xs| == k * n && i < k && j < n && at == i * n + j
    ensures at < |xs| && Chunks(xs, n, k)[i][j] == xs[at]
  {
    MulDist(k - 1, 1, n);
    MulLe(i, k - 1, n);
    if i < k - 1 { ChunkAt(xs[..(k - 1) * n], n, k - 1, i, j, at); }
  }

  lemma {:induction false} ChunkElements<T>(xs: seq<T>, n: nat, k: nat)
    requires |xs| == k * n
    ensures forall i, j | 0 <= i < k && 0 <= j < n :: Chunks(xs, n, k)[i][j] in xs
  {
    if k > 0 {
      MulDist(k - 1, 1, n);
      ChunkElements(xs[..(k - 1) * n], n, k - 1);
    }
  }

  /** The eight columns of one fragment, two for each lane of a quad. */
  function Deal(xs: seq<Col>): (r: seq<seq<Col>>)
    requires |xs| == 8
    ensures |r| == LANES
  {
    [xs[..2], xs[2..4], xs[4..6], xs[6..]]
  }

  /** What the lanes hold of consecutive fragments. */
  function Quad(frags: seq<seq<Col>>): (r: Block)
    requires forall i | 0 <= i < |frags| :: |frags[i]| == 8
    ensures forall l | 0 <= l < LANES :: |r[l]| == 2 * |frags|
  {
    if frags == [] then [[], [], [], []] else
    Append(Quad(frags[..|frags| - 1]), Deal(frags[|frags| - 1]))
  }

  lemma {:induction false} QuadAt(frags: seq<seq<Col>>, l: nat, c: nat)
    requires forall i | 0 <= i < |frags| :: |frags[i]| == 8
    requires l < LANES && c < 2 * |frags|
    ensures Quad(frags)[l][c] == frags[c / 2][l * 2 + c % 2]
  {
    var n := |frags| - 1;
    if c < 2 * n { QuadAt(frags[..n], l, c); }
  }

  /** The columns by block and, within a block, by warp. */
  type Shares = seq<seq<seq<Col>>>

  ghost predicate Even(shares: Shares, warpsN: nat, n1s: nat) {
    && (forall i | 0 <= i < |shares| :: |shares[i]| == warpsN)
    && (forall i, n | 0 <= i < |shares| && 0 <= n < warpsN :: |shares[i][n]| == n1s * 8)
  }

  function Share(cols: seq<Col>, blocks: nat, warpsN: nat, n1s: nat): (r: Shares)
    requires |cols| == blocks * warpsN * (n1s * 8)
    ensures Even(r, warpsN, n1s) && |r| == blocks
  {
    ChunkElements(Chunks(cols, n1s * 8, blocks * warpsN), warpsN, blocks);
    Chunks(Chunks(cols, n1s * 8, blocks * warpsN), warpsN, blocks)
  }

  lemma ShareAt(cols: seq<Col>, blocks: nat, warpsN: nat, n1s: nat, i: nat, n: nat, j: nat, len: nat, at: nat)
    requires len == n1s * 8 && |cols| == blocks * warpsN * len && i < blocks && n < warpsN && j < len
    requires at == i * (warpsN * len) + n * len + j
    ensures at < |cols| && Share(cols, blocks, warpsN, n1s)[i][n][j] == cols[at]
  {
    var piece := i * warpsN + n;
    MulDist(i * warpsN, n, len);
    MulAssoc(i, warpsN, len);
    ChunkAt(Chunks(cols, len, blocks * warpsN), warpsN, blocks, i, n, piece);
    ChunkAt(cols, len, blocks * warpsN, piece, j, at);
  }

  /** Warp n's blocks. */
  function WarpBlocks(shares: Shares, warpsN: nat, n1s: nat, n: nat): (r: seq<Block>)
    requires Even(shares, warpsN, n1s) && n < warpsN
    ensures |r| == |shares|
  {
    seq(|shares|, i requires 0 <= i < |shares| => Quad(Chunks(shares[i][n], 8, n1s)))
  }

  /** The columns of a row among warps, blocks and lanes. */
  function Placement(shares: Shares, warpsN: nat, n1s: nat): (r: seq<seq<Block>>)
    requires Even(shares, warpsN, n1s)
    ensures |r| == warpsN
  {
    seq(warpsN, n requires 0 <= n < warpsN => WarpBlocks(shares, warpsN, n1s, n))
  }

  /** The column that lane l of warp n holds in register column c of block i. */
  function HeldColumn(shares: Shares, warpsN: nat, n1s: nat, n: nat, i: nat, l: nat, c: nat): Col
    requires Even(shares, warpsN, n1s) && n < warpsN && i < |shares| && l < LANES && c < 2 * n1s
  {
    assert Placement(shares, warpsN, n1s)[n][i] == Quad(Chunks(shares[i][n], 8, n1s));
    Placement(shares, warpsN, n1s)[n][i][l][c]
  }

  /** Register column c of thread (wid, lane) in block i is the column that the fragment map
      and the mask assign to it. */
  lemma PlacedAsFragment(g: Fragments.Grid, cols: seq<Col>, blocks: nat, i: nat, n: nat, wid: nat, lane: nat, r: nat,
                         c: nat, len: nat, col: nat)
    requires g.Ok() && n == wid / g.warpsM < g.warpsN && c < 2 * g.n1s && i < blocks
    requires len == g.n1s * 8 && |cols| == blocks * g.warpsN * len
    requires col == i * (g.warpsN * len) + Fragments.Col(g, Fragments.Register(wid, lane, r, c))
    ensures col < |cols|
    ensures HeldColumn(Share(cols, blocks, g.warpsN, g.n1s), g.warpsN, g.n1s, n, i, lane % 4, c) == cols[col]
  {
    Fragments.MaskCoordinates(g, Fragments.Register(wid, lane, r, c));
    PlacedAt(cols, blocks, g.warpsN, g.n1s, n, i, lane % 4, c, len, col);
  }

  lemma PlacedAt(cols: seq<Col>, blocks: nat, warpsN: nat, n1s: nat, n: nat, i: nat, l: nat, c: nat, len: nat, col: nat)
    requires len == n1s * 8 && |cols| == blocks * warpsN * len && n < warpsN && i < blocks && l < LANES && c < 2 * n1s
    requires col == i * (warpsN * len) + n * len + l * 2 + c / 2 * 8 + c % 2
    ensures col < |cols| && HeldColumn(Share(cols, blocks, warpsN, n1s), warpsN, n1s, n, i, l, c) == cols[col]
  {
    var shares, j := Share(cols, blocks, warpsN, n1s), c / 2 * 8 + (l * 2 + c % 2);
    ShareAt(cols, blocks, warpsN, n1s, i, n, j, len, col);
    QuadAt(Chunks(shares[i][n], 8, n1s), l, c);
    ChunkAt(shares[i][n], 8, n1s, c / 2, l * 2 + c % 2, j);
  }

  // ---- every visited column is placed exactly once ----

  ghost function Bag(row: seq<seq<Col>>): multiset<Col> { multiset(Flatten(row)) }

  lemma FourLanes(a: seq<seq<Col>>)
    requires |a| == LANES
    ensures Flatten(a) == a[0] + a[1] + a[2] + a[3]
  {
    assert a[..3][..2] == a[..2] && a[..2][..1] == a[..1] && a[..1][..0] == [];
    assert Flatten(a[..1]) == a[0];
    assert Flatten(a[..2]) == a[0] + a[1];
    assert Flatten(a[..3]) == a[0] + a[1] + a[2];
  }

  lemma BagAppend(a: seq<seq<Col>>, b: seq<seq<Col>>)
    requires |a| == |b| == LANES
    ensures Bag(Append(a, b)) == Bag(a) + Bag(b)
  {
    FourLanes(a);
    FourLanes(b);
    FourLanes(Append(a, b));
  }

  lemma DealBag(xs: seq<Col>)
    requires |xs| == 8
    ensures Bag(Deal(xs)) == multiset(xs)
  {
    FourLanes(Deal(xs));
    assert xs == xs[..2] + xs[2..4] + xs[4..6] + xs[6..];
  }

  lemma {:induction false} QuadBag(frags: seq<seq<Col>>)
    requires forall i | 0 <= i < |frags| :: |frags[i]| == 8
    ensures Bag(Quad(frags)) == multiset(Flatten(frags))
  {
    if frags == [] {
      FourLanes([[], [], [], []]);
    } else {
      var n := |frags| - 1;
      QuadBag(frags[..n]);
      BagAppend(Quad(frags[..n]), Deal(frags[n]));
      DealBag(frags[n]);
    }
  }

  /** What the first k warps hold. */
  ghost function WarpsBag(shares: Shares, warpsN: nat, n1s: nat, k: nat): multiset<Col>
    requires Even(shares, warpsN, n1s) && k <= warpsN
  {
    if k == 0 then multiset{} else
    WarpsBag(shares, warpsN, n1s, k - 1) + Bag(SeenOf(WarpBlocks(shares, warpsN, n1s, k - 1)))
  }

  /** The last block adds to warp n its share. */
  lemma WarpMore(shares: Shares, warpsN: nat, n1s: nat, n: nat)
    requires Even(shares, warpsN, n1s) && n < warpsN && shares != []
    ensures Bag(SeenOf(WarpBlocks(shares, warpsN, n1s, n)))
            == Bag(SeenOf(WarpBlocks(shares[..|shares| - 1], warpsN, n1s, n))) + multiset(shares[|shares| - 1][n])
  {
    var last := |shares| - 1;
    var all, before := WarpBlocks(shares, warpsN, n1s, n), WarpBlocks(shares[..last], warpsN, n1s, n);
    assert all[..last] == before;
    BagAppend(SeenOf(before), all[last]);
    QuadBag(Chunks(shares[last][n], 8, n1s));
    ChunksFlat(shares[last][n], 8, n1s);
  }

  lemma LongerBag(p: seq<seq<Col>>, k: nat)
    requires 0 < k <= |p|
    ensures multiset(Flatten(p[..k])) == multiset(Flatten(p[..k - 1])) + multiset(p[k - 1])
  {
    assert p[..k][..k - 1] == p[..k - 1];
  }

  /** The last block adds, over the first k warps, its first k shares. */
  lemma {:induction false} BlockBag(shares: Shares, warpsN: nat, n1s: nat, k: nat)
    requires Even(shares, warpsN, n1s) && k <= warpsN && shares != []
    ensures WarpsBag(shares, warpsN, n1s, k)
            == WarpsBag(shares[..|shares| - 1], warpsN, n1s, k) + multiset(Flatten(shares[|shares| - 1][..k]))
  {
    if k > 0 {
      var p := shares[|shares| - 1];
      BlockBag(shares, warpsN, n1s, k - 1);
      WarpMore(shares, warpsN, n1s, k - 1);
      LongerBag(p, k);
    }
  }

  lemma {:induction false} NothingYet(warpsN: nat, n1s: nat, k: nat)
    requires k <= warpsN
    ensures WarpsBag([], warpsN, n1s, k) == multiset{}
  {
    if k > 0 {
      NothingYet(warpsN, n1s, k - 1);
      FourLanes([[], [], [], []]);
    }
  }

  lemma {:induction false} AllWarpsBag(shares: Shares, warpsN: nat, n1s: nat)
    requires Even(shares, warpsN, n1s)
    ensures WarpsBag(shares, warpsN, n1s, warpsN) == multiset(Flatten(Flatten(shares)))
  {
    if shares == [] {
      NothingYet(warpsN, n1s, warpsN);
    } else {
      var last := |shares| - 1;
      AllWarpsBag(shares[..last], warpsN, n1s);
      BlockBag(shares, warpsN, n1s, warpsN);
      assert shares[last][..warpsN] == shares[last];
      FlattenConcat(Flatten(shares[..last]), shares[last]);
    }
  }

  lemma MoreColumns(row: Row, lanes: seq<seq<Col>>)
    ensures multiset(Columns(row + [lanes])) == multiset(Columns(row)) + Bag(lanes)
  {
    assert (row + [lanes])[..|row|] == row;
    FlattenConcat(Flatten(row), lanes);
  }

  /** What all warps of a row hold. */
  ghost function RowBag(row: Row): multiset<Col> {
    if row == [] then multiset{} else RowBag(row[..|row| - 1]) + Bag(row[|row| - 1])
  }

  lemma {:induction false} RowBagColumns(row: Row)
    ensures RowBag(row) == multiset(Columns(row))
  {
    if row != [] {
      var n := |row| - 1;
      RowBagColumns(row[..n]);
      assert row == row[..n] + [row[n]];
      MoreColumns(row[..n], row[n]);
    }
  }

  lemma {:induction false} RowBagWarps(row: Row, shares: Shares, warpsN: nat, n1s: nat)
    requires Even(shares, warpsN, n1s) && |row| <= warpsN
    requires forall n | 0 <= n < |row| :: row[n] == SeenOf(WarpBlocks(shares, warpsN, n1s, n))
    ensures RowBag(row) == WarpsBag(shares, warpsN, n1s, |row|)
  {
    if row != [] { RowBagWarps(row[..|row| - 1], shares, warpsN, n1s); }
  }

  /** The warps and lanes together hold each visited column exactly once. */
  lemma PlacedOnce(cols: seq<Col>, blocks: nat, warpsN: nat, n1s: nat)
    requires |cols| == blocks * warpsN * (n1s * 8)
    ensures multiset(Columns(RowOf(Placement(Share(cols, blocks, warpsN, n1s), warpsN, n1s)))) == multiset(cols)
  {
    var shares := Share(cols, blocks, warpsN, n1s);
    var row := RowOf(Placement(shares, warpsN, n1s));
    RowBagColumns(row);
    RowBagWarps(row, shares, warpsN, n1s);
    AllWarpsBag(shares, warpsN, n1s);
    ChunksFlat(Chunks(cols, n1s * 8, blocks * warpsN), warpsN, blocks);
    ChunksFlat(cols, n1s * 8, blocks * warpsN);
  }

  // ---- hidden columns ----

  lemma {:induction false} HiddenSum(cols: seq<Col>, g: Col -> real)
    requires forall c | c in cols :: g(c) == 0.0
    ensures Sum(cols, g) == 0.0
  {
    if cols != [] { HiddenSum(cols[..|cols| - 1], g); }
  }

  lemma AttentionByParts(f: real -> real, scale: real, cols: seq<Col>, d: nat, x: real, den: real, num: real)
    requires den == Sum(cols, PlainWeights(f, scale)) && num == Sum(cols, PlainValues(f, scale, d))
    ensures IsAttention(f, scale, cols, d, x) <==> den > 0.0 && Times(x, den) == num
  {
  }

  /** Hidden columns do not change the attention of a row. */
  lemma HiddenIgnored(f: real -> real, scale: real, cols: seq<Col>, hidden: seq<Col>, d: nat, x: real)
    requires forall c | c in hidden :: c.score.NegInf?
    ensures IsAttention(f, scale, cols + hidden, d, x) <==> IsAttention(f, scale, cols, d, x)
  {
    SumConcat(cols, hidden, PlainWeights(f, scale));
    SumConcat(cols, hidden, PlainValues(f, scale, d));
    HiddenSum(hidden, PlainWeights(f, scale));
    HiddenSum(hidden, PlainValues(f, scale, d));
    var den, num := Sum(cols, PlainWeights(f, scale)), Sum(cols, PlainValues(f, scale, d));
    AttentionByParts(f, scale, cols, d, x, den, num);
    AttentionByParts(f, scale, cols + hidden, d, x, den, num);
  }

  // ---- the reference ----

  /** A key with its row of V. */
  datatype Key = Key(k: seq<real>, v: seq<real>)

  /** Query and keys of one head: vectors of the same length. */
  ghost predicate Shaped(query: seq<real>, keys: seq<Key>) {
    forall j | 0 <= j < |keys| :: |keys[j].k| == |keys[j].v| == |query|
  }

  /** Product of the first n elements of two vectors. */
  function Product(q: seq<real>, k: seq<real>, n: nat): real
    requires n <= |q| && n <= |k|
  {
    if n == 0 then 0.0 else Product(q, k, n - 1) + q[n - 1] * k[n - 1]
  }

  /** exp2 of the scaled product of the query and one key. */
  function KeyMass(f: real -> real, scale: real, query: seq<real>, key: Key): real
    requires |key.k| == |query|
  {
    f(Times(Product(query, key.k, |query|), scale))
  }

  /** Sum of exp2 of the scaled products. */
  ghost function Mass(f: real -> real, scale: real, query: seq<real>, keys: seq<Key>): real
    requires Shaped(query, keys)
  {
    if keys == [] then 0.0 else
    var n := |keys| - 1;
    Mass(f, scale, query, keys[..n]) + KeyMass(f, scale, query, keys[n])
  }

  /** The same, each term times element d of the key's row of V. */
  ghost function ValueMass(f: real -> real, scale: real, query: seq<real>, keys: seq<Key>, d: nat): real
    requires Shaped(query, keys) && d < |query|
  {
    if keys == [] then 0.0 else
    var n := |keys| - 1;
    ValueMass(f, scale, query, keys[..n], d) + KeyMass(f, scale, query, keys[n]) * keys[n].v[d]
  }

  /** Element d of softmax(scale * query * K) * V. */
  ghost predicate IsSoftmaxRow(f: real -> real, scale: real, query: seq<real>, keys: seq<Key>, d: nat, x: real)
    requires Shaped(query, keys) && d < |query|
  {
    && Mass(f, scale, query, keys) > 0.0
    && x * Mass(f, scale, query, keys) == ValueMass(f, scale, query, keys, d)
  }

  // ---- the product of a query and a key ----

  function Unit(n: nat, i: nat): (u: seq<real>)
    ensures |u| == n
  {
    seq(n, j => if j == i then 1.0 else 0.0)
  }

  /** The product with a unit vector selects an element. */
  lemma {:induction false} UnitProduct(size: nat, i: nat, k: seq<real>, n: nat)
    requires n <= size && n <= |k| && i < |k|
    ensures Product(Unit(size, i), k, n) == if i < n then k[i] else 0.0
  {
    if n > 0 { UnitProduct(size, i, k, n - 1); }
  }

  function Combine(a: real, p: seq<real>, q: seq<real>): (r: seq<real>)
    requires |p| == |q|
    ensures |r| == |p|
  {
    seq(|p|, i requires 0 <= i < |p| => ScaledPlus(a, p[i], q[i]))
  }

  function ScaledPlus(a: real, x: real, y: real): real { a * x + y }

  /** The product is linear in the query. */
  lemma {:induction false} ProductLinear(a: real, p: seq<real>, q: seq<real>, k: seq<real>, n: nat)
    requires |p| == |q| && n <= |p| && n <= |k|
    ensures Product(Combine(a, p, q), k, n) == ScaledPlus(a, Product(p, k, n), Product(q, k, n))
  {
    if n > 0 {
      ProductLinear(a, p, q, k, n - 1);
      LinearStep(a, Product(p, k, n - 1), Product(q, k, n - 1), p[n - 1], q[n - 1], k[n - 1]);
    }
  }

  lemma LinearStep(a: real, x: real, y: real, p: real, q: real, k: real)
    ensures ScaledPlus(a, x, y) + ScaledPlus(a, p, q) * k == ScaledPlus(a, x + p * k, y + q * k)
  {
  }

  const K_STEP: nat := 16 // elements of one MMA step

  /** gemm_flash for one query and one key: the products of all k-steps, step by step. */
  method QKProduct(q: seq<real>, k: seq<real>) returns (s: real)
    requires |q| == |k| && |q| % K_STEP == 0
    ensures s == Product(q, k, |q|)
  {
    s := 0.0;
    for step := 0 to |q| / K_STEP
      invariant s == Product(q, k, step * K_STEP)
    {
      for i := 0 to K_STEP
        invariant s == Product(q, k, step * K_STEP + i)
      {
        s := s + q[step * K_STEP + i] * k[step * K_STEP + i];
      }
    }
  }

  // ---- keys and columns ----

  function Score(query: seq<real>, key: Key): real
    requires |key.k| == |query|
  {
    Product(query, key.k, |query|)
  }

  function KeyCol(query: seq<real>, key: Key): Col
    requires |key.k| == |query|
  {
    Col(Fin(Score(query, key)), key.v)
  }

  function KeyCols(query: seq<real>, keys: seq<Key>): (cols: seq<Col>)
    requires forall j | 0 <= j < |keys| :: |keys[j].k| == |keys[j].v| == |query|
    ensures |cols| == |keys|
  {
    seq(|keys|, j requires 0 <= j < |keys| => KeyCol(query, keys[j]))
  }

  /** Attention over the keys' columns is the reference. */
  lemma {:induction false} ColumnSums(f: real -> real, scale: real, query: seq<real>, keys: seq<Key>, d: nat)
    requires Shaped(query, keys) && d < |query|
    ensures Sum(KeyCols(query, keys), PlainWeights(f, scale)) == Mass(f, scale, query, keys)
    ensures Sum(KeyCols(query, keys), PlainValues(f, scale, d)) == ValueMass(f, scale, query, keys, d)
  {
    if keys != [] {
      var n := |keys| - 1;
      ColumnSums(f, scale, query, keys[..n], d);
      assert KeyCols(query, keys)[..n] == KeyCols(query, keys[..n]);
      ColumnTerm(f, scale, query, keys[n], d);
    }
  }

  lemma ColumnTerm(f: real -> real, scale: real, query: seq<real>, key: Key, d: nat)
    requires |key.k| == |key.v| == |query| && d < |query|
    ensures PlainWeights(f, scale)(KeyCol(query, key)) == KeyMass(f, scale, query, key)
    ensures PlainValues(f, scale, d)(KeyCol(query, key)) == KeyMass(f, scale, query, key) * key.v[d]
  {
    assert Gap(Score(query, key), 0.0, scale) == Times(Product(query, key.k, |query|), scale);
  }

  lemma RowByParts(f: real -> real, scale: real, query: seq<real>, keys: seq<Key>, d: nat, x: real,
                   den: real, num: real)
    requires Shaped(query, keys) && d < |query|
    requires den == Mass(f, scale, query, keys) && num == ValueMass(f, scale, query, keys, d)
    ensures IsSoftmaxRow(f, scale, query, keys, d, x) <==> den > 0.0 && Times(x, den) == num
  {
  }

  lemma AttentionIsSoftmaxRow(f: real -> real, scale: real, query: seq<real>, keys: seq<Key>, d: nat, x: real)
    requires Shaped(query, keys) && d < |query|
    ensures IsAttention(f, scale, KeyCols(query, keys), d, x) <==> IsSoftmaxRow(f, scale, query, keys, d, x)
  {
    ColumnSums(f, scale, query, keys, d);
    var den, num := Mass(f, scale, query, keys), ValueMass(f, scale, query, keys, d);
    AttentionByParts(f, scale, KeyCols(query, keys), d, x, den, num);
    RowByParts(f, scale, query, keys, d, x, den, num);
  }

  // ---- one query row ----

  function ZeroKey(headDim: nat): (key: Key)
    ensures |key.k| == |key.v| == headDim
  {
    Key(seq(headDim, _ => 0.0), seq(headDim, _ => 0.0))
  }

  /** The loads fill what lies beyond the sequence with zeros. */
  function KeyAt(keys: seq<Key>, headDim: nat, j: nat): Key {
    if j < |keys| then keys[j] else ZeroKey(headDim)
  }

  /** The keys a query row may attend to: all, or those up to its own place. */
  function VisibleKeys(causal: bool, row: nat, keys: seq<Key>): seq<Key>
    requires row < |keys|
  {
    if causal then keys[..row + 1] else keys
  }

  /** Keys that the last block holds beyond the sequence. */
  function Padding(seqLen: nat, blockN: nat): nat
    requires 0 < blockN
  {
    var n := CeilDiv(seqLen, blockN) * blockN;
    if seqLen <= n then n - seqLen else 0
  }

  lemma PaddingFills(seqLen: nat, blockN: nat)
    requires 0 < blockN
    ensures seqLen + Padding(seqLen, blockN) == CeilDiv(seqLen, blockN) * blockN
    ensures Padding(seqLen, blockN) == 0 <==> seqLen % blockN == 0
  {
    var q, r := seqLen / blockN, seqLen % blockN;
    DivMod(seqLen, blockN);
    if r == 0 {
      DivUnique(q, blockN, blockN - 1);
    } else {
      MulDist(q, 1, blockN);
      DivUnique(q + 1, blockN, r - 1);
    }
  }

  /** The keys the kernel takes the softmax over. */
  function UsedKeys(causal: bool, row: nat, keys: seq<Key>, headDim: nat, blockN: nat): seq<Key>
    requires row < |keys| && 0 < blockN
  {
    VisibleKeys(causal, row, keys)
    + if causal then [] else seq(Padding(|keys|, blockN), _ => ZeroKey(headDim))
  }

  /** Column j as the kernel sees it in tile qBlock: masked where it masks. */
  function SeenCol(causal: bool, qBlock: nat, row: nat, query: seq<real>, keys: seq<Key>, j: nat,
                   blockM: nat, blockN: nat): Col
    requires 0 < blockN && forall i | 0 <= i < |keys| :: |keys[i].k| == |keys[i].v| == |query|
  {
    var key := KeyAt(keys, |query|, j);
    if causal && Masked(qBlock, j / blockN, row, j, blockM, blockN) then Col(NegInf, key.v) else KeyCol(query, key)
  }

  function SeenCols(causal: bool, qBlock: nat, row: nat, query: seq<real>, keys: seq<Key>, n: nat,
                    blockM: nat, blockN: nat): (r: seq<Col>)
    requires 0 < blockN && forall i | 0 <= i < |keys| :: |keys[i].k| == |keys[i].v| == |query|
    ensures |r| == n
  {
    seq(n, j requires 0 <= j < n => SeenCol(causal, qBlock, row, query, keys, j, blockM, blockN))
  }

  /** With a causal mask, what the kernel sees beyond the visible columns is hidden, whether or
      not the sequence ends inside a block. */
  lemma SeenCausal(qBlock: nat, row: nat, query: seq<real>, keys: seq<Key>, n: nat, blockM: nat, blockN: nat)
    returns (hidden: seq<Col>)
    requires Shaped(query, keys)
    requires 0 < blockM && 0 < blockN && qBlock * blockM <= row < (qBlock + 1) * blockM && row < |keys|
    requires n == KBlocks(true, qBlock, blockM, blockN, |keys|) * blockN
    ensures SeenCols(true, qBlock, row, query, keys, n, blockM, blockN) == KeyCols(query, keys[..row + 1]) + hidden
    ensures forall c | c in hidden :: c.score.NegInf?
  {
    var all, visible := SeenCols(true, qBlock, row, query, keys, n, blockM, blockN), KeyCols(query, keys[..row + 1]);
    Diagonal(qBlock, row, row, blockM, blockN, |keys|);
    hidden := all[|visible|..];
    forall j: nat | j < n
      ensures j <= row ==> all[j] == visible[j]
      ensures row < j ==> all[j].score.NegInf?
    {
      Diagonal(qBlock, row, j, blockM, blockN, |keys|);
    }
  }

  /** Without one, it sees all keys and the padding. */
  lemma SeenPlain(qBlock: nat, row: nat, query: seq<real>, keys: seq<Key>, n: nat, blockM: nat, blockN: nat)
    requires Shaped(query, keys) && 0 < blockN && row < |keys| && n == CeilDiv(|keys|, blockN) * blockN
    ensures Shaped(query, UsedKeys(false, row, keys, |query|, blockN))
    ensures SeenCols(false, qBlock, row, query, keys, n, blockM, blockN)
            == KeyCols(query, UsedKeys(false, row, keys, |query|, blockN))
  {
    var all := SeenCols(false, qBlock, row, query, keys, n, blockM, blockN);
    var used := UsedKeys(false, row, keys, |query|, blockN);
    PaddingFills(|keys|, blockN);
    forall j: nat | j < n ensures all[j] == KeyCols(query, used)[j] {
      assert used[j] == KeyAt(keys, |query|, j);
    }
  }

  /** A column is visited unmasked exactly if it is not beyond the row. */
  lemma Diagonal(qBlock: nat, row: nat, col: nat, blockM: nat, blockN: nat, seqLen: nat)
    requires 0 < blockM && 0 < blockN && qBlock * blockM <= row < (qBlock + 1) * blockM
    ensures var n := KBlocks(true, qBlock, blockM, blockN, seqLen) * blockN;
            (col < n && !Masked(qBlock, col / blockN, row, col, blockM, blockN)) <==> col <= row
  {
    var i, k := col / blockN, KBlocks(true, qBlock, blockM, blockN, seqLen);
    DivMod(col, blockN);
    MulDist(i, 1, blockN);
    BlocksAndDiagonal(qBlock, i, row, col, blockM, blockN, seqLen);
    if i < k { MulLe(i + 1, k, blockN); } else { MulLe(k, i, blockN); }
  }

  lemma UsedShaped(causal: bool, row: nat, query: seq<real>, keys: seq<Key>, blockN: nat)
    requires Shaped(query, keys) && row < |keys| && 0 < blockN
    ensures Shaped(query, UsedKeys(causal, row, keys, |query|, blockN))
    ensures Shaped(query, VisibleKeys(causal, row, keys))
    ensures causal ==> UsedKeys(causal, row, keys, |query|, blockN) == VisibleKeys(causal, row, keys)
  {
  }

  /** Attention over what the kernel sees is the reference over the keys it uses. */
  lemma SeenAttention(f: real -> real, scale: real, causal: bool, qBlock: nat, row: nat, query: seq<real>,
                      keys: seq<Key>, n: nat, blockM: nat, blockN: nat, d: nat, x: real)
    requires Shaped(query, keys) && d < |query|
    requires 0 < blockM && 0 < blockN && qBlock * blockM <= row < (qBlock + 1) * blockM && row < |keys|
    requires n == KBlocks(causal, qBlock, blockM, blockN, |keys|) * blockN
    requires IsAttention(f, scale, SeenCols(causal, qBlock, row, query, keys, n, blockM, blockN), d, x)
    ensures Shaped(query, UsedKeys(causal, row, keys, |query|, blockN))
    ensures IsSoftmaxRow(f, scale, query, UsedKeys(causal, row, keys, |query|, blockN), d, x)
  {
    UsedShaped(causal, row, query, keys, blockN);
    var used := UsedKeys(causal, row, keys, |query|, blockN);
    if causal {
      var hidden := SeenCausal(qBlock, row, query, keys, n, blockM, blockN);
      HiddenIgnored(f, scale, KeyCols(query, used), hidden, d, x);
    } else {
      SeenPlain(qBlock, row, query, keys, n, blockM, blockN);
    }
    AttentionIsSoftmaxRow(f, scale, query, used, d, x);
  }

  /** One visible column makes the row sum positive. */
  lemma SeenFinite(causal: bool, qBlock: nat, row: nat, query: seq<real>, keys: seq<Key>, n: nat,
                   blockM: nat, blockN: nat)
    requires Shaped(query, keys)
    requires 0 < blockM && 0 < blockN && qBlock * blockM <= row < (qBlock + 1) * blockM && row < |keys|
    requires n == KBlocks(causal, qBlock, blockM, blockN, |keys|) * blockN
    ensures exists c :: c in SeenCols(causal, qBlock, row, query, keys, n, blockM, blockN) && c.score.Fin?
  {
    var all := SeenCols(causal, qBlock, row, query, keys, n, blockM, blockN);
    if causal { Diagonal(qBlock, row, row, blockM, blockN, |keys|); } else { PaddingFills(|keys|, blockN); }
    assert all[row].score.Fin? && all[row] in all;
  }

  /** The QK products of a row with the first n columns, masked. */
  method SeeColumns(causal: bool, qBlock: nat, row: nat, query: seq<real>, keys: seq<Key>, n: nat,
                    blockM: nat, blockN: nat) returns (cols: seq<Col>)
    requires 0 < blockN && |query| % K_STEP == 0 && Shaped(query, keys)
    ensures cols == SeenCols(causal, qBlock, row, query, keys, n, blockM, blockN)
  {
    cols := [];
    for j := 0 to n
      invariant cols == SeenCols(causal, qBlock, row, query, keys, j, blockM, blockN)
    {
      var key := KeyAt(keys, |query|, j);
      var s := QKProduct(query, key.k);
      var score := Fin(s);
      if causal && NeedsMask(qBlock, j / blockN, blockM, blockN) {
        if row < j { score := NegInf; }
      }
      cols := cols + [Col(score, key.v)];
    }
  }

  lemma NoPadding(causal: bool, row: nat, keys: seq<Key>, headDim: nat, blockN: nat)
    requires row < |keys| && 0 < blockN && (causal || |keys| % blockN == 0)
    ensures UsedKeys(causal, row, keys, headDim, blockN) == VisibleKeys(causal, row, keys)
  {
    PaddingFills(|keys|, blockN);
  }

  /** One query row through the whole kernel, for a sequence of any length: softmax attention
      over the visible keys, and without a causal mask over the padding as well. */
  method Forward(f: real -> real, scale: real, causal: bool, qBlock: nat, row: nat, query: seq<real>, keys: seq<Key>,
                 blockM: nat, blockN: nat, warpsN: nat, n1s: nat) returns (o: array<real>)
    requires IsExp2(f) && 0 < |query| && |query| % K_STEP == 0 && Shaped(query, keys)
    requires 0 < blockM && 0 < blockN == warpsN * (n1s * 8)
    requires qBlock * blockM <= row < (qBlock + 1) * blockM && row < |keys|
    ensures o.Length == |query|
    ensures Shaped(query, UsedKeys(causal, row, keys, |query|, blockN)) && Shaped(query, VisibleKeys(causal, row, keys))
    ensures forall d | 0 <= d < |query| ::
              IsSoftmaxRow(f, scale, query, UsedKeys(causal, row, keys, |query|, blockN), d, o[d])
    ensures causal || |keys| % blockN == 0 ==>
              forall d | 0 <= d < |query| :: IsSoftmaxRow(f, scale, query, VisibleKeys(causal, row, keys), d, o[d])
  {
    var blocks := KBlocks(causal, qBlock, blockM, blockN, |keys|);
    var cols := SeeColumns(causal, qBlock, row, query, keys, blocks * blockN, blockM, blockN);
    assert 0 < warpsN;
    MulAssoc(blocks, warpsN, n1s * 8);
    PlacedOnce(cols, blocks, warpsN, n1s);
    SeenFinite(causal, qBlock, row, query, keys, blocks * blockN, blockM, blockN);
    o := AttentionRow(f, scale, Placement(Share(cols, blocks, warpsN, n1s), warpsN, n1s), |query|, cols);
    UsedShaped(causal, row, query, keys, blockN);
    forall d: nat | d < |query|
      ensures IsSoftmaxRow(f, scale, query, UsedKeys(causal, row, keys, |query|, blockN), d, o[d])
    {
      SeenAttention(f, scale, causal, qBlock, row, query, keys, blocks * blockN, blockM, blockN, d, o[d]);
    }
    if causal || |keys| % blockN == 0 { NoPadding(causal, row, keys, |query|, blockN); }
  }

  // ---- the mask, register by register ----

  /** After the mask, the register that held the product of its query row and its key holds the
      score of the column the kernel sees there. */
  lemma RegisterHoldsSeen(g: Fragments.Grid, wid: nat, lane: nat, qBlock: nat, i: nat, blockM: nat, blockN: nat,
                          r: nat, c: nat, query: seq<real>, keys: seq<Key>, row: nat, col: nat)
    requires g.Ok() && 0 < blockM && 0 < blockN && Shaped(query, keys)
    requires row == qBlock * blockM + Fragments.Row(g, Fragments.Register(wid, lane, r, c))
    requires col == i * blockN + Fragments.Col(g, Fragments.Register(wid, lane, r, c))
    requires Fragments.Col(g, Fragments.Register(wid, lane, r, c)) < blockN
    ensures Fragments.MaskedScore(g, wid, lane, qBlock, i, blockM, blockN, r, c,
                                  Fin(Score(query, KeyAt(keys, |query|, col))))
            == SeenCol(true, qBlock, row, query, keys, col, blockM, blockN).score
  {
    DivUnique(i, blockN, Fragments.Col(g, Fragments.Register(wid, lane, r, c)));
  }

  // ---- sequence lengths ----

  /** Whatever the query and the keys, the kernel's result is attention over the true keys. */
  ghost predicate AlwaysRight(f: real -> real, scale: real, causal: bool, row: nat, seqLen: nat, blockN: nat,
                              headDim: nat)
    requires row < seqLen && 0 < blockN
  {
    forall query: seq<real>, keys: seq<Key>, d: nat, x | |query| == headDim && |keys| == seqLen && d < headDim
        && Shaped(query, keys) && UsedIsRow(f, scale, causal, row, query, keys, blockN, d, x) ::
      VisibleIsRow(f, scale, causal, row, query, keys, d, x)
  }

  ghost predicate UsedIsRow(f: real -> real, scale: real, causal: bool, row: nat, query: seq<real>, keys: seq<Key>,
                            blockN: nat, d: nat, x: real)
    requires row < |keys| && 0 < blockN && d < |query| && Shaped(query, keys)
  {
    UsedShaped(causal, row, query, keys, blockN);
    IsSoftmaxRow(f, scale, query, UsedKeys(causal, row, keys, |query|, blockN), d, x)
  }

  ghost predicate VisibleIsRow(f: real -> real, scale: real, causal: bool, row: nat, query: seq<real>, keys: seq<Key>,
                               d: nat, x: real)
    requires row < |keys| && d < |query| && Shaped(query, keys)
  {
    UsedShaped(causal, row, query, keys, 1);
    IsSoftmaxRow(f, scale, query, VisibleKeys(causal, row, keys), d, x)
  }

  lemma {:induction false} ZeroProduct(q: seq<real>, headDim: nat, n: nat)
    requires n <= |q| && n <= headDim
    ensures Product(q, ZeroKey(headDim).k, n) == 0.0
  {
    if n > 0 { ZeroProduct(q, headDim, n - 1); }
  }

  /** Each zero key adds one to the mass and nothing to the values. */
  lemma {:induction false} PaddedMass(f: real -> real, scale: real, query: seq<real>, keys: seq<Key>, n: nat, d: nat)
    requires IsExp2(f) && Shaped(query, keys) && d < |query|
    ensures Shaped(query, keys + seq(n, _ => ZeroKey(|query|)))
    ensures Mass(f, scale, query, keys + seq(n, _ => ZeroKey(|query|))) == Mass(f, scale, query, keys) + n as real
    ensures ValueMass(f, scale, query, keys + seq(n, _ => ZeroKey(|query|)), d) == ValueMass(f, scale, query, keys, d)
  {
    var padded := keys + seq(n, _ => ZeroKey(|query|));
    if n == 0 {
      assert padded == keys;
    } else {
      PaddedMass(f, scale, query, keys, n - 1, d);
      assert padded[..|padded| - 1] == keys + seq(n - 1, _ => ZeroKey(|query|));
      ZeroTerm(f, scale, query);
      OneMore(n, Mass(f, scale, query, keys), Mass(f, scale, query, padded[..|padded| - 1]),
              Mass(f, scale, query, padded));
    }
  }

  lemma ZeroTerm(f: real -> real, scale: real, query: seq<real>)
    requires IsExp2(f)
    ensures KeyMass(f, scale, query, ZeroKey(|query|)) == 1.0
  {
    ZeroProduct(query, |query|, |query|);
    ExpZero(f);
  }

  lemma OneMore(n: nat, base: real, x: real, y: real)
    requires 0 < n && x == base + (n - 1) as real && y == x + 1.0
    ensures y == base + n as real
  {
  }

  lemma KeyMassPositive(f: real -> real, scale: real, query: seq<real>, key: Key)
    requires IsExp2(f) && |key.k| == |query|
    ensures KeyMass(f, scale, query, key) > 0.0
  {
    assert ExpLaw(f, Times(Product(query, key.k, |query|), scale), 0.0);
  }

  /** Keys of which each has the value one show the padding. */
  lemma {:induction false} OnesMass(f: real -> real, scale: real, query: seq<real>, keys: seq<Key>, d: nat)
    requires IsExp2(f) && Shaped(query, keys) && d < |query| && forall j | 0 <= j < |keys| :: keys[j].v[d] == 1.0
    ensures ValueMass(f, scale, query, keys, d) == Mass(f, scale, query, keys)
    ensures keys != [] ==> Mass(f, scale, query, keys) > 0.0
    ensures Mass(f, scale, query, keys) >= 0.0
  {
    if keys != [] {
      var n := |keys| - 1;
      OnesMass(f, scale, query, keys[..n], d);
      KeyMassPositive(f, scale, query, keys[n]);
    }
  }

  lemma Quotient(den: real, n: real) returns (x: real)
    requires den > 0.0 && n >= 0.0
    ensures x != 0.0 && Times(x, den + n) == den
  {
    x := den / (den + n);
  }

  lemma Undiluted(x: real, den: real, n: real)
    requires x != 0.0 && Times(x, den + n) == den && Times(x, den) == den
    ensures n == 0.0
  {
    assert x * (den + n) == x * den + x * n;
  }

  lemma PaddingShows(f: real -> real, scale: real, row: nat, seqLen: nat, blockN: nat, headDim: nat)
    requires IsExp2(f) && row < seqLen && 0 < blockN && 0 < headDim
    requires AlwaysRight(f, scale, false, row, seqLen, blockN, headDim)
    ensures seqLen % blockN == 0
  {
    var query := seq(headDim, _ => 0.0);
    var keys := seq(seqLen, _ => Key(seq(headDim, _ => 0.0), seq(headDim, _ => 1.0)));
    var n := Padding(seqLen, blockN);
    var den := Mass(f, scale, query, keys);
    OnesMass(f, scale, query, keys, 0);
    PaddedMass(f, scale, query, keys, n, 0);
    var x := Quotient(den, n as real);
    RowByParts(f, scale, query, UsedKeys(false, row, keys, headDim, blockN), 0, x, den + n as real, den);
    assert UsedIsRow(f, scale, false, row, query, keys, blockN, 0, x);
    assert VisibleIsRow(f, scale, false, row, query, keys, 0, x);
    RowByParts(f, scale, query, keys, 0, x, den, den);
    Undiluted(x, den, n as real);
    PaddingFills(seqLen, blockN);
  }

  /** The kernel is right on all queries and keys of a length exactly if it masks, or the
      length is a multiple of the key block. */
  lemma RaggedIff(f: real -> real, scale: real, causal: bool, row: nat, seqLen: nat, blockN: nat, headDim: nat)
    requires IsExp2(f) && row < seqLen && 0 < blockN && 0 < headDim
    ensures AlwaysRight(f, scale, causal, row, seqLen, blockN, headDim) <==> causal || seqLen % blockN == 0
  {
    if causal || seqLen % blockN == 0 {
      forall keys: seq<Key> | |keys| == seqLen
        ensures UsedKeys(causal, row, keys, headDim, blockN) == VisibleKeys(causal, row, keys)
      {
        NoPadding(causal, row, keys, headDim, blockN);
      }
    } else if AlwaysRight(f, scale, causal, row, seqLen, blockN, headDim) {
      PaddingShows(f, scale, row, seqLen, blockN, headDim);
    }
  }
}
