/** Which K blocks a causal Q tile visits and which of them it masks. */
module Causal {
  import opened Tiles

  /** Blocks of K and V that tile qBlock visits. */
  function KBlocks(causal: bool, qBlock: nat, blockM: nat, blockN: nat, seqLen: nat): nat
    requires 0 < blockN
  {
    if causal then CeilDiv((qBlock + 1) * blockM, blockN) else CeilDiv(seqLen, blockN)
  }

  /** Whether the mask is applied to block i of tile qBlock at all. */
  predicate NeedsMask(qBlock: nat, i: nat, blockM: nat, blockN: nat) {
    (i + 1) * blockN > qBlock * blockM
  }

  predicate Masked(qBlock: nat, i: nat, row: nat, col: nat, blockM: nat, blockN: nat) {
    NeedsMask(qBlock, i, blockM, blockN) && row < col
  }

  lemma BelowCeilDiv(i: nat, x: nat, d: nat)
    requires 0 < d
    ensures i < CeilDiv(x, d) <==> i * d < x
  {
    var c := CeilDiv(x, d);
    assert c * d <= x + d - 1 < c * d + d by {
      assert x + d - 1 == c * d + (x + d - 1) % d;
    }
    if i < c { MulLe(i + 1, c, d); }
    if c <= i { MulLe(c, i, d); }
    MulDist(i, 1, d);
  }

  /** A skipped block lies wholly above the diagonal, a block without mask wholly on or
      below it; the pairs that are visited and not masked are those with col <= row. */
  lemma BlocksAndDiagonal(qBlock: nat, i: nat, row: nat, col: nat, blockM: nat, blockN: nat, seqLen: nat)
    requires 0 < blockM && 0 < blockN
    requires qBlock * blockM <= row < (qBlock + 1) * blockM && i * blockN <= col < (i + 1) * blockN
    ensures KBlocks(true, qBlock, blockM, blockN, seqLen) <= i ==> row < col
    ensures !NeedsMask(qBlock, i, blockM, blockN) ==> col <= row
    ensures i < KBlocks(true, qBlock, blockM, blockN, seqLen) && !Masked(qBlock, i, row, col, blockM, blockN)
            <==> col <= row
  {
    BelowCeilDiv(i, (qBlock + 1) * blockM, blockN);
  }

  /** Row and column of tile qBlock and block i. */
  predicate InBlock(qBlock: nat, i: nat, row: nat, col: nat, blockM: nat, blockN: nat) {
    qBlock * blockM <= row < (qBlock + 1) * blockM && i * blockN <= col < (i + 1) * blockN
  }

  /** A causal tile visits exactly the blocks in which some row sees some column, and a plain
      tile those that hold a column of the sequence. */
  lemma VisitedIff(qBlock: nat, i: nat, blockM: nat, blockN: nat, seqLen: nat)
    requires 0 < blockM && 0 < blockN
    ensures i < KBlocks(true, qBlock, blockM, blockN, seqLen) <==>
            exists row: nat, col: nat :: InBlock(qBlock, i, row, col, blockM, blockN) && col <= row
    ensures i < KBlocks(false, qBlock, blockM, blockN, seqLen) <==> i * blockN < seqLen
  {
    BelowCeilDiv(i, (qBlock + 1) * blockM, blockN);
    BelowCeilDiv(i, seqLen, blockN);
    MulDist(qBlock, 1, blockM);
    MulDist(i, 1, blockN);
    if i * blockN < (qBlock + 1) * blockM {
      assert InBlock(qBlock, i, (qBlock + 1) * blockM - 1, i * blockN, blockM, blockN);
    }
  }

  /** With even tile sizes, the mask is applied exactly to the blocks in which it hides something. */
  lemma MaskNeededIff(qBlock: nat, i: nat, blockM: nat, blockN: nat)
    requires 0 < blockM && 0 < blockN && blockM % 2 == 0 && blockN % 2 == 0
    ensures NeedsMask(qBlock, i, blockM, blockN) <==>
            exists row: nat, col: nat :: InBlock(qBlock, i, row, col, blockM, blockN) && row < col
  {
    MulDist(qBlock, 1, blockM);
    MulDist(i, 1, blockN);
    EvenProduct(qBlock, blockM);
    EvenProduct(i + 1, blockN);
    if NeedsMask(qBlock, i, blockM, blockN) {
      assert InBlock(qBlock, i, qBlock * blockM, (i + 1) * blockN - 1, blockM, blockN);
    }
  }

  lemma EvenProduct(a: nat, b: nat)
    requires b % 2 == 0
    ensures a * b % 2 == 0
  {
    assert a * b == a * (b / 2) * 2;
  }

  lemma CeilDivMonotone(x: nat, y: nat, d: nat)
    requires 0 < d && x <= y
    ensures CeilDiv(x, d) <= CeilDiv(y, d)
  {
    var c := CeilDiv(x, d);
    if 0 < c {
      BelowCeilDiv(c - 1, x, d);
      BelowCeilDiv(c - 1, y, d);
    }
  }

  /** Every tile visits at least block 0, which shows column 0 to every row. */
  lemma BlockCounts(causal: bool, qBlock: nat, blockM: nat, blockN: nat, seqLen: nat)
    requires 0 < blockM && 0 < blockN && 0 < seqLen
    ensures 1 <= KBlocks(causal, qBlock, blockM, blockN, seqLen)
    ensures forall row :: !Masked(qBlock, 0, row, 0, blockM, blockN)
  {
    BelowCeilDiv(0, (qBlock + 1) * blockM, blockN);
    BelowCeilDiv(0, seqLen, blockN);
    MulLe(1, qBlock + 1, blockM);
  }

  ghost predicate TileFits(qBlock: nat, blockM: nat, blockN: nat, seqLen: nat)
    requires 0 < blockN
  {
    KBlocks(true, qBlock, blockM, blockN, seqLen) <= CeilDiv(seqLen, blockN)
  }

  /** No causal tile visits a block beyond the sequence, if and only if the rows, rounded up to
      whole Q tiles, need no more K blocks than the sequence has. */
  lemma BlocksFitIff(blockM: nat, blockN: nat, seqLen: nat)
    requires 0 < blockM && 0 < blockN && 0 < seqLen
    ensures (forall qBlock: nat | qBlock < CeilDiv(seqLen, blockM) :: TileFits(qBlock, blockM, blockN, seqLen))
            <==> CeilDiv(CeilDiv(seqLen, blockM) * blockM, blockN) <= CeilDiv(seqLen, blockN)
  {
    var tiles := CeilDiv(seqLen, blockM);
    BelowCeilDiv(0, seqLen, blockM);
    if CeilDiv(tiles * blockM, blockN) <= CeilDiv(seqLen, blockN) {
      forall qBlock: nat | qBlock < tiles ensures TileFits(qBlock, blockM, blockN, seqLen) {
        MulLe(qBlock + 1, tiles, blockM);
        CeilDivMonotone((qBlock + 1) * blockM, tiles * blockM, blockN);
      }
    } else {
      assert !TileFits(tiles - 1, blockM, blockN, seqLen);
    }
  }

  /** That is so for every length that is a multiple of the Q tile. */
  lemma WholeTilesFit(blockM: nat, blockN: nat, seqLen: nat)
    requires 0 < blockM && 0 < blockN && seqLen % blockM == 0
    ensures CeilDiv(CeilDiv(seqLen, blockM) * blockM, blockN) <= CeilDiv(seqLen, blockN)
  {
    DivMod(seqLen, blockM);
    DivUnique(seqLen / blockM, blockM, blockM - 1);
  }
}
