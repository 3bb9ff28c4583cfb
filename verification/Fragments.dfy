/** Which thread holds which element of a score tile (PTX ISA, "Matrix Fragments for
    mma.m16n8k16 with floating point type"), and the reuse of scores as the PV operand. */
module Fragments {
  import opened Tiles
  import opened ExtendedReals
  import opened Causal

  /** A tile of warpsM x warpsN warps; each warp holds m1s fragments of 16 rows and n1s
      fragments of 8 columns. Consecutive row fragments of a warp are adjacent (blocked)
      or lie warpsM fragments apart (strided). */
  datatype Grid = Grid(warpsM: nat, warpsN: nat, m1s: nat, n1s: nat, strided: bool) {
    predicate Ok() { 0 < warpsM && 0 < warpsN && 0 < m1s && 0 < n1s }
    function Rows(): nat { 16 * if strided then m1s * warpsM else warpsM * m1s }
    function Cols(): nat { 8 * (warpsN * n1s) }
  }

  /** One accumulator register of one thread. */
  datatype Element = Element(wid: nat, lane: nat, m0: nat, m1: nat, n0: nat, n1: nat)

  predicate InGrid(g: Grid, e: Element) {
    && e.wid < g.warpsM * g.warpsN && e.lane < 32
    && e.m0 < 2 && e.m1 < g.m1s && e.n0 < 2 && e.n1 < g.n1s
  }

  /** The 16-row fragment, counted from the top of the tile, and the 8-column fragment. */
  function RowFragment(g: Grid, e: Element): nat
    requires g.Ok()
  {
    if g.strided then e.m1 * g.warpsM + e.wid % g.warpsM else e.wid % g.warpsM * g.m1s + e.m1
  }

  function ColFragment(g: Grid, e: Element): nat
    requires g.Ok()
  {
    e.wid / g.warpsM * g.n1s + e.n1
  }

  function Row(g: Grid, e: Element): nat
    requires g.Ok()
  {
    16 * RowFragment(g, e) + e.m0 * 8 + e.lane / 4
  }

  function Col(g: Grid, e: Element): nat
    requires g.Ok()
  {
    8 * ColFragment(g, e) + e.lane % 4 * 2 + e.n0
  }

  /** Row and column as causal_mask computes them: the warp's offset, plus the fragment's
      stride, plus the place in the fragment. */
  lemma MaskCoordinates(g: Grid, e: Element)
    requires g.Ok()
    ensures var warpM := e.wid % g.warpsM;
            Row(g, e) == (if g.strided then warpM * 16 + e.m1 * (16 * g.warpsM)
                          else warpM * (16 * g.m1s) + e.m1 * 16) + e.lane / 4 + e.m0 * 8
    ensures Col(g, e) == e.wid / g.warpsM * (8 * g.n1s) + e.lane % 4 * 2 + e.n1 * 8 + e.n0
  {
    var warpM := e.wid % g.warpsM;
    assert e.m1 * (16 * g.warpsM) == 16 * (e.m1 * g.warpsM);
    assert warpM * (16 * g.m1s) == 16 * (warpM * g.m1s);
  }

  /** The register that holds the score at (row, col). */
  function Owner(g: Grid, row: nat, col: nat): Element
    requires g.Ok()
  {
    var (rf, cf) := (row / 16, col / 8);
    var warpM := if g.strided then rf % g.warpsM else rf / g.m1s;
    MulLe(0, cf / g.n1s, g.warpsM);
    Element(cf / g.n1s * g.warpsM + warpM,
            row % 8 * 4 + col % 8 / 2,
            row % 16 / 8,
            if g.strided then rf / g.warpsM else rf % g.m1s,
            col % 2,
            cf % g.n1s)
  }

  /** Digits of a two-digit number. */
  lemma TwoDigits(hi: nat, h: nat, lo: nat, m: nat)
    requires hi < h && lo < m
    ensures hi * m + lo < h * m && (hi * m + lo) / m == hi && (hi * m + lo) % m == lo
  {
    DivUnique(hi, m, lo);
    MulLe(hi + 1, h, m);
  }

  lemma DigitsOf(x: nat, h: nat, m: nat)
    requires x < h * m && 0 < m
    ensures x / m < h && x % m < m && x / m * m + x % m == x
  {
    if h <= x / m { MulLe(h, x / m, m); }
  }

  /** Place inside a 16 x 8 fragment. */
  lemma PlaceInFragment(rf: nat, cf: nat, m0: nat, n0: nat, lane: nat)
    requires m0 < 2 && n0 < 2 && lane < 32
    ensures var (row, col) := (16 * rf + m0 * 8 + lane / 4, 8 * cf + lane % 4 * 2 + n0);
            && row / 16 == rf && col / 8 == cf && row % 16 / 8 == m0 && col % 2 == n0
            && row % 8 * 4 + col % 8 / 2 == lane
  {
    var g, c := lane / 4, lane % 4;
    DivUnique(rf, 16, m0 * 8 + g);
    DivUnique(2 * rf + m0, 8, g);
    DivUnique(cf, 8, c * 2 + n0);
    DivUnique(4 * cf + c, 2, n0);
  }

  lemma ModMod(x: nat, m: nat, n: nat)
    requires 0 < n && 0 < m && m % n == 0
    ensures x % m % n == x % n
  {
    var h := m / n;
    assert m == h * n && x == x / m * m + x % m;
    MulAssoc(x / m, h, n);
    ModShift(x % m, x / m * h, n);
  }

  lemma PlaceFromDigits(row: nat, col: nat)
    ensures row == 16 * (row / 16) + row % 16 / 8 * 8 + row % 8
    ensures col == 8 * (col / 8) + col % 8 / 2 * 2 + col % 2
    ensures var lane := row % 8 * 4 + col % 8 / 2; lane < 32 && lane / 4 == row % 8 && lane % 4 == col % 8 / 2
  {
    var (r, c) := (row % 16, col % 8);
    ModMod(row, 16, 8);
    ModMod(col, 8, 2);
    assert r == r / 8 * 8 + r % 8 && c == c / 2 * 2 + c % 2;
    DivUnique(r % 8, 4, c / 2);
  }

  /** The threads' registers and the elements of the tile correspond one to one: every
      register lies in the tile and is found again from its place. */
  lemma EachElementOnce(g: Grid, e: Element)
    requires g.Ok() && InGrid(g, e)
    ensures Row(g, e) < g.Rows() && Col(g, e) < g.Cols()
    ensures Owner(g, Row(g, e), Col(g, e)) == e
  {
    var warpM, warpN := e.wid % g.warpsM, e.wid / g.warpsM;
    DigitsOf(e.wid, g.warpsN, g.warpsM);
    if g.strided {
      TwoDigits(e.m1, g.m1s, warpM, g.warpsM);
    } else {
      TwoDigits(warpM, g.warpsM, e.m1, g.m1s);
    }
    TwoDigits(warpN, g.warpsN, e.n1, g.n1s);
    PlaceInFragment(RowFragment(g, e), ColFragment(g, e), e.m0, e.n0, e.lane);
  }

  /** And every element of the tile is held by a register. */
  lemma EachPlaceOwned(g: Grid, row: nat, col: nat)
    requires g.Ok() && row < g.Rows() && col < g.Cols()
    ensures InGrid(g, Owner(g, row, col))
    ensures Row(g, Owner(g, row, col)) == row && Col(g, Owner(g, row, col)) == col
  {
    var (rf, cf) := (row / 16, col / 8);
    PlaceFromDigits(row, col);
    DigitsOf(cf, g.warpsN, g.n1s);
    if g.strided {
      DigitsOf(rf, g.m1s, g.warpsM);
    } else {
      DigitsOf(rf, g.warpsM, g.m1s);
    }
    TwoDigits(cf / g.n1s, g.warpsN, if g.strided then rf % g.warpsM else rf / g.m1s, g.warpsM);
  }

  // ---- scores become the A operand of P * V ----

  /** Register (i0, i1, i2) of A fragment (m, kk) of a thread. */
  datatype OperandA = OperandA(wid: nat, lane: nat, i0: nat, i1: nat, i2: nat, m: nat, kk: nat)

  predicate InOperand(g: Grid, a: OperandA) {
    && a.wid < g.warpsM * g.warpsN && a.lane < 32
    && a.i0 < 2 && a.i1 < 2 && a.i2 < 2 && a.m < g.m1s && 2 * a.kk + 1 < g.n1s
  }

  /** Convert_Areg: the accumulator's column fragments are taken in pairs; the register
      names the same score, no data moves. */
  function ConvertAreg(a: OperandA): Element {
    Element(a.wid, a.lane, a.i1, a.m, a.i0, 2 * a.kk + a.i2)
  }

  /** Row of the PV operand: the PV tile is not permuted along M, so a warp's fragments lie
      warpsM apart. */
  function OperandRow(g: Grid, a: OperandA): nat
    requires g.Ok()
  {
    16 * (a.m * g.warpsM + a.wid % g.warpsM) + a.i1 * 8 + a.lane / 4
  }

  /** Key of the PV operand: each warp of the K mode owns n1s / 2 consecutive fragments of
      16 keys. */
  function OperandKey(g: Grid, a: OperandA): nat
    requires g.Ok()
  {
    16 * (a.wid / g.warpsM * (g.n1s / 2) + a.kk) + a.i2 * 8 + a.lane % 4 * 2 + a.i0
  }

  /** Each register holds the score of exactly the key that its place in the PV operand
      stands for, in both variants and for any number of column warps. */
  lemma KeysAgree(g: Grid, a: OperandA)
    requires g.Ok() && g.n1s % 2 == 0 && InOperand(g, a)
    ensures Col(g, ConvertAreg(a)) == OperandKey(g, a)
    ensures InGrid(g, ConvertAreg(a))
  {
    var warpN, h := a.wid / g.warpsM, g.n1s / 2;
    assert warpN * g.n1s == 2 * (warpN * h) by { assert g.n1s == 2 * h; }
  }

  lemma RowsAgree(g: Grid, a: OperandA)
    requires g.Ok() && InOperand(g, a) && (g.strided || g.m1s == 1 || g.warpsM == 1)
    ensures Row(g, ConvertAreg(a)) == OperandRow(g, a)
  {
    if !g.strided && g.m1s > 1 {
      assert a.wid % 1 == 0;
    }
  }

  /** The first register of warp 1, for which the rows differ. */
  const STRAY: OperandA := OperandA(1, 0, 0, 0, 0, 0, 0)

  lemma RowsDiffer(g: Grid)
    requires g.Ok() && g.n1s % 2 == 0 && !g.strided && g.m1s > 1 && g.warpsM > 1
    ensures InOperand(g, STRAY)
    ensures Row(g, ConvertAreg(STRAY)) != OperandRow(g, STRAY)
  {
    MulLe(1, g.warpsN, g.warpsM);
    DivUnique(0, g.warpsM, 1);
  }

  ghost predicate AllRowsAgree(g: Grid)
    requires g.Ok()
  {
    forall a | InOperand(g, a) :: Row(g, ConvertAreg(a)) == OperandRow(g, a)
  }

  /** Rows agree for all registers in the strided variant, and in the blocked one exactly
      when each warp holds one row fragment or there is one row of warps. */
  lemma RowsAgreeIff(g: Grid)
    requires g.Ok() && g.n1s % 2 == 0
    ensures AllRowsAgree(g) <==> g.strided || g.m1s == 1 || g.warpsM == 1
  {
    if !g.strided && g.m1s > 1 && g.warpsM > 1 {
      RowsDiffer(g);
    } else {
      forall a | InOperand(g, a) ensures Row(g, ConvertAreg(a)) == OperandRow(g, a) {
        RowsAgree(g, a);
      }
    }
  }

  // ---- which row of warps works on a row of the tile ----

  /** The row of warps that holds a row of the QK tile. */
  function QKWarp(g: Grid, row: nat): nat
    requires g.Ok()
  {
    if g.strided then row / 16 % g.warpsM else row / 16 / g.m1s
  }

  /** The row of warps that holds a row of the PV tile, which is not permuted. */
  function PVWarp(g: Grid, row: nat): nat
    requires g.Ok()
  {
    row / 16 % g.warpsM
  }

  lemma QKWarpOf(g: Grid, e: Element)
    requires g.Ok() && InGrid(g, e)
    ensures QKWarp(g, Row(g, e)) == e.wid % g.warpsM
  {
    PlaceInFragment(RowFragment(g, e), 0, e.m0, 0, e.lane);
    if g.strided {
      TwoDigits(e.m1, g.m1s, e.wid % g.warpsM, g.warpsM);
    } else {
      TwoDigits(e.wid % g.warpsM, g.warpsM, e.m1, g.m1s);
    }
  }

  lemma PVWarpOf(g: Grid, a: OperandA)
    requires g.Ok() && InOperand(g, a)
    ensures PVWarp(g, OperandRow(g, a)) == a.wid % g.warpsM
  {
    PlaceInFragment(a.m * g.warpsM + a.wid % g.warpsM, 0, a.i1, 0, a.lane);
    TwoDigits(a.m, g.m1s, a.wid % g.warpsM, g.warpsM);
  }

  lemma WarpsInGrid(g: Grid, row: nat)
    requires g.Ok() && row < g.Rows()
    ensures QKWarp(g, row) < g.warpsM && PVWarp(g, row) < g.warpsM
  {
    if !g.strided { DigitsOf(row / 16, g.warpsM, g.m1s); }
  }

  predicate SameWarp(g: Grid, row: nat)
    requires g.Ok()
  {
    QKWarp(g, row) == PVWarp(g, row)
  }

  /** Every row of the tile is read and written by the same warps exactly where score rows and
      PV rows agree. */
  lemma RowWarpsIff(g: Grid)
    requires g.Ok()
    ensures (forall row: nat | row < g.Rows() :: SameWarp(g, row))
            <==> g.strided || g.m1s == 1 || g.warpsM == 1
  {
    if !g.strided && g.m1s > 1 && g.warpsM > 1 {
      MulLe(2, g.m1s, g.warpsM);
      DivUnique(0, g.m1s, 1);
      DivUnique(0, g.warpsM, 1);
      assert 16 < g.Rows() && !SameWarp(g, 16);
    } else {
      forall row: nat | row < g.Rows() ensures SameWarp(g, row) {
        WarpsInGrid(g, row);
        if g.m1s == 1 && g.warpsM > 1 { DivUnique(0, g.warpsM, row / 16); }
      }
    }
  }

  // ---- the causal mask, on one thread's registers ----

  /** Register row m1 * 2 + m0 and column n1 * 2 + n0 of a thread's score fragment. */
  function Register(wid: nat, lane: nat, r: nat, c: nat): Element {
    Element(wid, lane, r % 2, r / 2, c % 2, c / 2)
  }

  /** What the mask leaves in a register of tile qBlock and block i. */
  function MaskedScore(g: Grid, wid: nat, lane: nat, qBlock: nat, i: nat, blockM: nat, blockN: nat,
                       r: nat, c: nat, score: Ext): Ext
    requires g.Ok()
  {
    var e := Register(wid, lane, r, c);
    if Masked(qBlock, i, qBlock * blockM + Row(g, e), i * blockN + Col(g, e), blockM, blockN) then NegInf else score
  }

  /** One register row of causal_mask: the query row is rowIdx. */
  method MaskRow(g: Grid, wid: nat, lane: nat, tensor: array2<Ext>, colBase: nat, r: nat, rowIdx: nat, colOffset: nat)
    requires g.Ok() && r < tensor.Length0 && tensor.Length1 == 2 * g.n1s
    requires colOffset == colBase + wid / g.warpsM * (8 * g.n1s) + lane % 4 * 2
    modifies tensor
    ensures forall i, c | 0 <= i < tensor.Length0 && 0 <= c < tensor.Length1 ::
              tensor[i, c] == if i == r && rowIdx < colBase + Col(g, Register(wid, lane, r, c)) then NegInf
                              else old(tensor[i, c])
  {
    for c := 0 to tensor.Length1
      invariant forall i, d | 0 <= i < tensor.Length0 && 0 <= d < tensor.Length1 ::
                  tensor[i, d] == if i == r && d < c && rowIdx < colBase + Col(g, Register(wid, lane, r, d)) then NegInf
                                  else old(tensor[i, d])
    {
      var n1, n0 := c / 2, c % 2;
      var colIdx := colOffset + n1 * 8 + n0;
      MaskCoordinates(g, Register(wid, lane, r, c));
      if rowIdx < colIdx {
        tensor[r, c] := NegInf;
      }
    }
  }

  /** The register's key lies beyond its query. */
  predicate Beyond(g: Grid, wid: nat, lane: nat, rowBase: nat, colBase: nat, r: nat, c: nat)
    requires g.Ok()
  {
    rowBase + Row(g, Register(wid, lane, r, c)) < colBase + Col(g, Register(wid, lane, r, c))
  }

  /** The first row of a thread's registers. */
  function RowOffset(g: Grid, wid: nat, lane: nat, rowBase: nat): nat
    requires g.Ok()
  {
    MulLe(0, wid % g.warpsM, 16 * g.m1s);
    rowBase + (if g.strided then wid % g.warpsM * 16 else wid % g.warpsM * (16 * g.m1s)) + lane / 4
  }

  /** Row of a register as causal_mask computes it. */
  lemma RowIndex(g: Grid, wid: nat, lane: nat, rowBase: nat, r: nat, c: nat, rowIdx: nat)
    requires g.Ok()
    requires rowIdx == rowBase + (if g.strided then wid % g.warpsM * 16 else wid % g.warpsM * (16 * g.m1s)) + lane / 4
                       + r / 2 * (if g.strided then 16 * g.warpsM else 16) + r % 2 * 8
    ensures rowIdx == rowBase + Row(g, Register(wid, lane, r, c))
  {
    MaskCoordinates(g, Register(wid, lane, r, c));
  }

  lemma RowBeyond(g: Grid, wid: nat, lane: nat, rowBase: nat, colBase: nat, r: nat,
                  rowOffset: nat, rowStride: nat, rowIdx: nat)
    requires g.Ok()
    requires rowOffset == RowOffset(g, wid, lane, rowBase) && rowStride == if g.strided then 16 * g.warpsM else 16
    requires rowIdx == rowOffset + r / 2 * rowStride + r % 2 * 8
    ensures forall c: nat :: Beyond(g, wid, lane, rowBase, colBase, r, c)
                             <==> rowIdx < colBase + Col(g, Register(wid, lane, r, c))
  {
    forall c: nat
      ensures Beyond(g, wid, lane, rowBase, colBase, r, c) <==> rowIdx < colBase + Col(g, Register(wid, lane, r, c))
    {
      RowIndex(g, wid, lane, rowBase, r, c, rowIdx);
    }
  }

  /** Register row r of causal_mask. */
  method MaskRegisterRow(g: Grid, wid: nat, lane: nat, tensor: array2<Ext>, rowBase: nat, colBase: nat, r: nat)
    requires g.Ok() && r < tensor.Length0 && tensor.Length1 == 2 * g.n1s
    modifies tensor
    ensures forall m, c | 0 <= m < tensor.Length0 && 0 <= c < tensor.Length1 ::
              tensor[m, c] == if m == r && Beyond(g, wid, lane, rowBase, colBase, r, c) then NegInf
                              else old(tensor[m, c])
  {
    var rowOffset := RowOffset(g, wid, lane, rowBase);
    var colOffset := colBase + wid / g.warpsM * (8 * g.n1s) + lane % 4 * 2;
    var rowStride := if g.strided then 16 * g.warpsM else 16;
    var m1, m0 := r / 2, r % 2;
    var rowIdx := rowOffset + m1 * rowStride + m0 * 8;
    RowBeyond(g, wid, lane, rowBase, colBase, r, rowOffset, rowStride, rowIdx);
    MaskRow(g, wid, lane, tensor, colBase, r, rowIdx, colOffset);
  }

  /** causal_mask of thread (wid, lane), with the tile's first row and the block's first column. */
  method CausalMask(g: Grid, wid: nat, lane: nat, tensor: array2<Ext>, rowBase: nat, colBase: nat)
    requires g.Ok() && wid < g.warpsM * g.warpsN && lane < 32
    requires tensor.Length0 == 2 * g.m1s && tensor.Length1 == 2 * g.n1s
    modifies tensor
    ensures forall r, c | 0 <= r < tensor.Length0 && 0 <= c < tensor.Length1 ::
              tensor[r, c] == if Beyond(g, wid, lane, rowBase, colBase, r, c) then NegInf else old(tensor[r, c])
  {
    for r := 0 to tensor.Length0
      invariant forall m, c | 0 <= m < tensor.Length0 && 0 <= c < tensor.Length1 ::
                  tensor[m, c] == if m < r && Beyond(g, wid, lane, rowBase, colBase, m, c) then NegInf
                                  else old(tensor[m, c])
    {
      MaskRegisterRow(g, wid, lane, tensor, rowBase, colBase, r);
    }
  }

  /** The consumer's masking step: exactly the scores that Masked names become minus infinity. */
  method MaskBlock(g: Grid, wid: nat, lane: nat, tensor: array2<Ext>, qBlock: nat, i: nat, blockM: nat, blockN: nat)
    requires g.Ok() && wid < g.warpsM * g.warpsN && lane < 32
    requires tensor.Length0 == 2 * g.m1s && tensor.Length1 == 2 * g.n1s
    modifies tensor
    ensures forall r, c | 0 <= r < tensor.Length0 && 0 <= c < tensor.Length1 ::
              tensor[r, c] == MaskedScore(g, wid, lane, qBlock, i, blockM, blockN, r, c, old(tensor[r, c]))
  {
    if (i + 1) * blockN > qBlock * blockM {
      CausalMask(g, wid, lane, tensor, qBlock * blockM, i * blockN);
    }
  }
}
