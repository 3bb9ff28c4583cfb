/** Shared-memory budgets: what the configuration generators compute, and what the kernels'
    storage structs take. */
module Smem {
  import opened Tiles
  import opened Overlay
  import opened Fragments
  import opened Butterfly

  const ELEMENT_BYTES: nat := 2

  /** align_up as the generators write it. */
  function AlignUpFormula(value: nat, alignment: nat): nat
    requires 0 < alignment
  {
    (value + alignment - 1) / alignment * alignment
  }

  predicate IsAligned(value: nat, alignment: nat, r: nat)
    requires 0 < alignment
  {
    value <= r < value + alignment && r % alignment == 0
  }

  lemma FormulaAligns(value: nat, alignment: nat)
    requires 0 < alignment
    ensures IsAligned(value, alignment, AlignUpFormula(value, alignment))
  {
    var q := (value + alignment - 1) / alignment;
    assert value + alignment - 1 == q * alignment + (value + alignment - 1) % alignment;
    DivUnique(q, alignment, 0);
  }

  /** The least multiple of the alignment that is not below the value. */
  ghost function AlignUp(value: nat, alignment: nat): (r: nat)
    requires 0 < alignment
    ensures IsAligned(value, alignment, r)
  {
    FormulaAligns(value, alignment);
    var r: nat :| IsAligned(value, alignment, r);
    r
  }

  lemma AlignUpIsFormula(value: nat, alignment: nat)
    requires 0 < alignment
    ensures AlignUp(value, alignment) == AlignUpFormula(value, alignment)
  {
    FormulaAligns(value, alignment);
    SameMultiple(AlignUp(value, alignment), AlignUpFormula(value, alignment), value, alignment);
  }

  /** The only multiple of the alignment in reach. */
  lemma AlignUnique(value: nat, alignment: nat, r: nat)
    requires 0 < alignment && value <= r < value + alignment && r % alignment == 0
    ensures AlignUp(value, alignment) == r
  {
    SameMultiple(AlignUp(value, alignment), r, value, alignment);
  }

  lemma SameMultiple(a: nat, b: nat, value: nat, alignment: nat)
    requires 0 < alignment && a % alignment == 0 == b % alignment
    requires value <= a < value + alignment && value <= b < value + alignment
    ensures a == b
  {
    var x, y := a / alignment, b / alignment;
    if x < y { MulLe(x + 1, y, alignment); MulDist(x, 1, alignment); }
    if y < x { MulLe(y + 1, x, alignment); MulDist(y, 1, alignment); }
  }

  lemma AlignMonotone(a: nat, b: nat, alignment: nat)
    requires 0 < alignment && a <= b
    ensures AlignUp(a, alignment) <= AlignUp(b, alignment)
  {
    if AlignUp(b, alignment) < a + alignment { AlignUnique(a, alignment, AlignUp(b, alignment)); }
  }

  // ---- struct layout: members in order, each at its alignment, the whole padded ----

  datatype Member = Member(size: nat, align: nat)

  ghost function Offset(ms: seq<Member>): nat
    requires forall m | m in ms :: 0 < m.align
  {
    if ms == [] then 0 else
    var last := ms[|ms| - 1];
    AlignUp(Offset(ms[..|ms| - 1]), last.align) + last.size
  }

  ghost function StructSize(ms: seq<Member>, align: nat): nat
    requires 0 < align && forall m | m in ms :: 0 < m.align
  {
    AlignUp(Offset(ms), align)
  }

  /** PipelineStorage: two barrier arrays, each 16-byte aligned. */
  ghost function PipelineStorageSize(stages: nat): nat {
    StructSize([Member(stages * 8, 16), Member(stages * 8, 16)], 16)
  }

  /** An aligned array of `bytes` bytes is padded to its own alignment. */
  ghost function AlignedArray(bytes: nat, align: nat): Member {
    Member(AlignUp(bytes, 16), align)
  }

  /** Storage of v3_mMnNkN: the overlay, two statistics arrays, the two pipelines. */
  ghost function FlashStorage(elements: nat, stats: nat, stages: nat): seq<Member> {
    [AlignedArray(elements * ELEMENT_BYTES, 128), AlignedArray(stats * 4, 128), AlignedArray(stats * 4, 128),
     Member(PipelineStorageSize(stages), 16), Member(PipelineStorageSize(1), 16)]
  }

  // ---- the generators' arithmetic ----

  ghost function PipelineStorageBytes(stage: nat): nat {
    AlignUp(AlignUp(stage * 8, 16) + stage * 8, 16)
  }

  function RowStatsSlots(blockM: nat, warpsN: nat): nat {
    if warpsN > 1 then warpsN * (blockM / 16) * 16 else 1
  }

  /** Every warp's statistics of every row have a place of their own. */
  lemma StatsFit(blockM: nat, warpsN: nat, warpN: nat, row: nat, otherN: nat, other: nat)
    requires 1 < warpsN && blockM % 16 == 0 && warpN < warpsN && row < blockM && otherN < warpsN && other < blockM
    ensures warpN * blockM + row < RowStatsSlots(blockM, warpsN) == warpsN * blockM
    ensures warpN * blockM + row == otherN * blockM + other ==> warpN == otherN && row == other
  {
    DivMod(blockM, 16);
    MulAssoc(warpsN, blockM / 16, 16);
    TwoDigits(warpN, warpsN, row, blockM);
    TwoDigits(otherN, warpsN, other, blockM);
  }

  /** The overlay's elements as smem_bytes counts them. */
  method OverlayElements(qSize: nat, kSize: nat, warpsN: nat) returns (qkvoSize: nat)
    ensures qkvoSize == Layout(qSize, kSize, warpsN).QKVOSize()
  {
    var vSize := kSize;
    var qkSize := kSize + if qSize >= kSize then qSize else kSize;
    var qkvSize := qkSize + vSize;
    var oSlots := if warpsN > 2 then warpsN - 1 else 1;
    var oSize := oSlots * qSize;
    assert oSlots == Layout(qSize, kSize, warpsN).OSlots();
    qkvoSize := if qkvSize >= oSize then qkvSize else oSize;
  }

  /** The running offset of smem_bytes. */
  method RunningOffset(elements: nat, rowStatsSlots: nat, stage: nat) returns (bytes: nat)
    ensures bytes == FlashBytes(elements, rowStatsSlots, stage)
  {
    var offset := AlignTo(0, 128);
    AlignUnique(0, 128, 0);
    offset := offset + elements * ELEMENT_BYTES;
    offset := AlignTo(offset, 128);
    offset := offset + rowStatsSlots * 4;
    offset := AlignTo(offset, 128);
    offset := offset + rowStatsSlots * 4;
    offset := AlignTo(offset, 16);
    var pipeline := AlignTo(stage * 8, 16);
    pipeline := AlignTo(pipeline + stage * 8, 16);
    offset := offset + pipeline;
    offset := AlignTo(offset, 16);
    offset := offset + pipeline;
    bytes := AlignTo(offset, 128);
  }

  method AlignTo(value: nat, alignment: nat) returns (r: nat)
    requires 0 < alignment
    ensures r == AlignUp(value, alignment)
  {
    AlignUpIsFormula(value, alignment);
    r := AlignUpFormula(value, alignment);
  }

  /** smem_bytes of v3_mMnNkN. */
  method FlashSmemBytes(headDim: nat, blockM: nat, blockN: nat, warpsN: nat, stage: nat) returns (bytes: nat)
    ensures bytes == FlashBytes(Layout(blockM * headDim, blockN * headDim, warpsN).QKVOSize(),
                                RowStatsSlots(blockM, warpsN), stage)
  {
    var elements := OverlayElements(blockM * headDim, blockN * headDim, warpsN);
    bytes := RunningOffset(elements, RowStatsSlots(blockM, warpsN), stage);
  }

  ghost function FlashBytes(elements: nat, stats: nat, stage: nat): nat {
    var arrays := AlignUp(AlignUp(elements * ELEMENT_BYTES, 128) + stats * 4, 128) + stats * 4;
    AlignUp(AlignUp(AlignUp(arrays, 16) + PipelineStorageBytes(stage), 16) + PipelineStorageBytes(stage), 128)
  }

  lemma PipelineSizes(stage: nat)
    requires 0 < stage
    ensures PipelineStorageSize(stage) == PipelineStorageBytes(stage)
    ensures PipelineStorageBytes(1) <= PipelineStorageBytes(stage)
    ensures PipelineStorageBytes(1) == PipelineStorageBytes(2) == 32
  {
    TwoMembers(Member(stage * 8, 16), Member(stage * 8, 16));
    AlignMonotone(8, stage * 8, 16);
    AlignMonotone(24, AlignUp(stage * 8, 16) + stage * 8, 16);
    AlignUnique(8, 16, 16);
    AlignUnique(24, 16, 32);
    AlignUnique(16, 16, 16);
    AlignUnique(32, 16, 32);
  }

  lemma MoreMembers(ms: seq<Member>, m: Member)
    requires 0 < m.align && forall x | x in ms :: 0 < x.align
    ensures forall x | x in ms + [m] :: 0 < x.align
    ensures Offset(ms + [m]) == AlignUp(Offset(ms), m.align) + m.size
  {
    assert (ms + [m])[..|ms|] == ms;
  }

  lemma OneMember(a: Member)
    requires 0 < a.align
    ensures Offset([a]) == a.size
  {
    assert [a][..0] == [];
    AlignUnique(0, a.align, 0);
  }

  lemma TwoMembers(a: Member, b: Member)
    requires 0 < a.align && 0 < b.align
    ensures Offset([a, b]) == AlignUp(a.size, b.align) + b.size
  {
    OneMember(a);
    MoreMembers([a], b);
    assert [a] + [b] == [a, b];
  }

  lemma Multiples(a: nat, b: nat, m: nat)
    requires 0 < m && a % m == 0 && b % m == 0
    ensures (a + b) % m == 0
  {
    assert b == b / m * m;
    ModShift(a, b / m, m);
  }

  lemma Of128(a: nat)
    requires a % 128 == 0
    ensures a % 16 == 0
  {
    assert a == a / 128 * 8 * 16;
    DivUnique(a / 128 * 8, 16, 0);
  }

  /** A multiple of 16 less than 16 above a value is not above any other multiple that is not
      below the value. */
  lemma AlignLeast(value: nat, a: nat, r: nat)
    requires a % 16 == 0 && r % 16 == 0 && a < value + 16 && value <= r
    ensures a <= r
  {
    assert a == a / 16 * 16 && r == r / 16 * 16;
  }

  /** No multiple of 16 lies between a value and the next multiple of 16 or 128 but the padded
      value. */
  lemma PaddedBelow(base: nat, bytes: nat, r: nat)
    requires base % 16 == 0 && r % 16 == 0 && base + bytes <= r
    ensures base + AlignUp(bytes, 16) <= r
  {
    Multiples(base, AlignUp(bytes, 16), 16);
    AlignLeast(base + bytes, base + AlignUp(bytes, 16), r);
  }

  /** Padding an array to 16 bytes changes nothing when the next member is aligned to 16 or
      128 bytes. */
  lemma PaddedAnyway(base: nat, bytes: nat, next: nat)
    requires base % 16 == 0 && (next == 16 || next == 128)
    ensures AlignUp(base + AlignUp(bytes, 16), next) == AlignUp(base + bytes, next)
  {
    var r := AlignUp(base + bytes, next);
    if next == 128 { Of128(r); }
    PaddedBelow(base, bytes, r);
    AlignUnique(base + AlignUp(bytes, 16), next, r);
  }

  lemma ThreeMembers(a: Member, b: Member, c: Member)
    requires 0 < a.align && 0 < b.align && 0 < c.align
    ensures Offset([a, b, c]) == AlignUp(AlignUp(a.size, b.align) + b.size, c.align) + c.size
  {
    TwoMembers(a, b);
    MoreMembers([a, b], c);
    assert [a, b] + [c] == [a, b, c];
  }

  lemma FiveMembers(a: Member, b: Member, c: Member, d: Member, e: Member, third: nat)
    requires 0 < a.align && 0 < b.align && 0 < c.align && 0 < d.align && 0 < e.align
    requires third == Offset([a, b, c])
    ensures Offset([a, b, c, d, e]) == AlignUp(AlignUp(third, d.align) + d.size, e.align) + e.size
  {
    MoreMembers([a, b, c], d);
    MoreMembers([a, b, c, d], e);
    assert [a, b, c] + [d] == [a, b, c, d];
    assert [a, b, c, d] + [e] == [a, b, c, d, e];
  }

  /** Where the statistics end: a and b are where the two statistics arrays begin. */
  lemma ArraysEnd(x: Member, y: Member, bytes: nat, stats: nat, a: nat, b: nat)
    requires x == AlignedArray(bytes, 128) && y == AlignedArray(stats, 128)
    requires a == AlignUp(bytes, 128) && b == AlignUp(a + stats, 128)
    ensures Offset([x, y, y]) == b + AlignUp(stats, 16)
  {
    ThreeMembers(x, y, y);
    PaddedAnyway(0, bytes, 128);
    Of128(a);
    PaddedAnyway(a, stats, 128);
  }

  /** Where the second pipeline begins. */
  lemma PipelinesEnd(b: nat, stats: nat, third: nat, p: nat, c: nat)
    requires b % 128 == 0 && third == b + AlignUp(stats, 16) && c == AlignUp(AlignUp(b + stats, 16) + p, 16)
    ensures AlignUp(AlignUp(third, 16) + p, 16) == c
  {
    Of128(b);
    PaddedAnyway(b, stats, 16);
  }

  lemma StorageEnd(x: Member, y: Member, z: Member, v: Member, bytes: nat, stats: nat, b: nat, c: nat)
    requires x == AlignedArray(bytes, 128) && y == AlignedArray(stats, 128) && z.align == 16 && v == Member(32, 16)
    requires b == AlignUp(AlignUp(bytes, 128) + stats, 128) && c == AlignUp(AlignUp(b + stats, 16) + z.size, 16)
    ensures StructSize([x, y, y, z, v], 128) == AlignUp(c + 32, 128)
  {
    var third := b + AlignUp(stats, 16);
    ArraysEnd(x, y, bytes, stats, AlignUp(bytes, 128), b);
    PipelinesEnd(b, stats, third, z.size, c);
    FiveMembers(x, y, y, z, v, third);
    assert Offset([x, y, y, z, v]) == c + 32;
  }

  lemma StorageSize(elements: nat, stats: nat, stage: nat, bytes: nat, b: nat, c: nat)
    requires 0 < stage && bytes == elements * ELEMENT_BYTES
    requires b == AlignUp(AlignUp(bytes, 128) + stats * 4, 128)
    requires c == AlignUp(AlignUp(b + stats * 4, 16) + PipelineStorageSize(stage), 16)
    ensures StructSize(FlashStorage(elements, stats, stage), 128) == AlignUp(c + 32, 128)
  {
    var x, y := AlignedArray(bytes, 128), AlignedArray(stats * 4, 128);
    PipelineSizes(1);
    StorageEnd(x, y, Member(PipelineStorageSize(stage), 16), Member(32, 16), bytes, stats * 4, b, c);
  }

  /** smem_bytes of v3_mMnNkN never falls below the padded struct, and at stage 2 it is its
      exact size. */
  lemma FlashBytesBound(elements: nat, stats: nat, stage: nat)
    requires 0 < stage
    ensures StructSize(FlashStorage(elements, stats, stage), 128) <= FlashBytes(elements, stats, stage)
    ensures stage == 2 ==> StructSize(FlashStorage(elements, stats, stage), 128) == FlashBytes(elements, stats, stage)
  {
    var b := AlignUp(AlignUp(elements * ELEMENT_BYTES, 128) + stats * 4, 128);
    var c := AlignUp(AlignUp(b + stats * 4, 16) + PipelineStorageSize(stage), 16);
    StorageSize(elements, stats, stage, elements * ELEMENT_BYTES, b, c);
    CountedSize(elements, stats, stage, elements * ELEMENT_BYTES, b, c);
    PipelineSizes(stage);
    AlignMonotone(c + 32, c + PipelineStorageBytes(stage), 128);
  }

  lemma CountedSize(elements: nat, stats: nat, stage: nat, bytes: nat, b: nat, c: nat)
    requires 0 < stage && bytes == elements * ELEMENT_BYTES
    requires b == AlignUp(AlignUp(bytes, 128) + stats * 4, 128)
    requires c == AlignUp(AlignUp(b + stats * 4, 16) + PipelineStorageSize(stage), 16)
    ensures FlashBytes(elements, stats, stage) == AlignUp(c + PipelineStorageBytes(stage), 128)
  {
    PipelineSizes(stage);
  }

  // ---- v3_mMn1k1 ----

  /** Storage of v3_mMn1k1: the overlay with one output slot and the two pipelines. */
  ghost function FlashStorageOne(l: Layout, stages: nat): seq<Member> {
    [AlignedArray(l.QKVOSize() * ELEMENT_BYTES, 128), Member(PipelineStorageSize(stages), 16),
     Member(PipelineStorageSize(1), 16)]
  }

  ghost function FlashBytesOne(l: Layout, stage: nat): nat {
    AlignUp(AlignUp(AlignUp(l.QKVOSize() * ELEMENT_BYTES, 16) + PipelineStorageBytes(stage), 16)
            + PipelineStorageBytes(1), 128)
  }

  /** smem_bytes of v3_mMn1k1 is the exact size of its struct. */
  lemma FlashBytesOneExact(l: Layout, stage: nat)
    requires 0 < stage
    ensures StructSize(FlashStorageOne(l, stage), 128) == FlashBytesOne(l, stage)
  {
    var ms := FlashStorageOne(l, stage);
    ThreeMembers(ms[0], ms[1], ms[2]);
    PipelineSizes(stage);
    PipelineSizes(1);
    PaddedAnyway(0, l.QKVOSize() * ELEMENT_BYTES, 16);
  }

  // ---- GEMM ----

  datatype GemmConfig = GemmConfig(bm: int, bn: int, bk: int, stage: int, cwg: int, warpsM: int, warpsN: int, bsw: int)

  function GemmBytes(c: GemmConfig): int {
    c.stage * (c.bm * c.bk + c.bn * c.bk) * ELEMENT_BYTES + c.bm * c.bn * ELEMENT_BYTES + 2 * c.stage * 8
  }

  predicate GemmValid(c: GemmConfig, maxSmem: int) {
    && c.bm > 0 && c.bn > 0 && c.bk > 0
    && c.stage in {2, 3} && c.cwg > 0
    && c.warpsM > 0 && c.warpsN > 0 && c.bsw > 0
    && c.bm % 32 == 0 && c.bn % 64 == 0 && c.bk % 64 == 0
    && c.warpsM * c.warpsN == 4 * c.cwg
    && c.bm % c.warpsM == 0 && c.bn % c.warpsN == 0
    && 0 < 16 * c.warpsM && 0 < 8 * c.warpsN
    && c.bm % (16 * c.warpsM) == 0 && c.bn % (8 * c.warpsN) == 0
    && (4 * c.cwg + 4) * 32 <= 1024
    && c.bm * c.bn <= 16384
    && c.bm * c.bn / (4 * c.cwg * 32) <= 64
    && GemmBytes(c) <= maxSmem
  }

  /** SharedStorage: A, B and C at 128 bytes, then the two barrier arrays at 8. */
  function GemmStorage(c: GemmConfig): seq<Member>
    requires c.bm > 0 && c.bn > 0 && c.bk > 0 && c.stage > 0
  {
    [Member(c.stage * (c.bm * c.bk) * ELEMENT_BYTES, 128), Member(c.stage * (c.bn * c.bk) * ELEMENT_BYTES, 128),
     Member(c.bm * c.bn * ELEMENT_BYTES, 128), Member(c.stage * 8, 8), Member(c.stage * 8, 8)]
  }

  lemma Product128(a: nat, b: nat, n: nat)
    requires a % 32 == 0 && b % 64 == 0
    ensures n * (a * b) * ELEMENT_BYTES % 128 == 0
  {
    var x, y := a / 32, b / 64;
    assert a == 32 * x && b == 64 * y;
    assert a * b == 2048 * (x * y);
    assert n * (a * b) == 2048 * (n * (x * y));
  }

  lemma AlreadyAligned(value: nat, alignment: nat)
    requires 0 < alignment && value % alignment == 0
    ensures AlignUp(value, alignment) == value
  {
    AlignUnique(value, alignment, value);
  }

  /** smem_bytes of GEMM is the struct without its final padding. */
  lemma GemmOffset(c: GemmConfig)
    requires c.bm > 0 && c.bn > 0 && c.bk > 0 && c.stage > 0
    requires c.bm % 32 == 0 && c.bn % 64 == 0 && c.bk % 64 == 0
    ensures Offset(GemmStorage(c)) == GemmBytes(c)
  {
    var ms := GemmStorage(c);
    Product128(c.bm, c.bk, c.stage);
    Product128(c.bn, c.bk, c.stage);
    Product128(c.bm, c.bn, 1);
    BytesSum(c);
    UnpaddedOffset(ms, ms[0].size, ms[1].size, ms[2].size, c.stage);
  }

  lemma UnpaddedOffset(ms: seq<Member>, a: nat, b: nat, c: nat, stage: nat)
    requires ms == [Member(a, 128), Member(b, 128), Member(c, 128), Member(stage * 8, 8), Member(stage * 8, 8)]
    requires a % 128 == 0 && b % 128 == 0 && c % 128 == 0
    ensures forall m | m in ms :: 0 < m.align
    ensures Offset(ms) == a + b + c + stage * 8 + stage * 8
  {
    var v := Member(stage * 8, 8);
    UnpaddedArrays(Member(a, 128), Member(b, 128), Member(c, 128));
    Barriers8(a, b, c, stage);
    AlreadyAligned(a + b + c, 8);
    AlreadyAligned(a + b + c + stage * 8, 8);
    FiveMembers(Member(a, 128), Member(b, 128), Member(c, 128), v, v, a + b + c);
  }

  lemma Barriers8(a: nat, b: nat, c: nat, stage: nat)
    requires a % 128 == 0 && b % 128 == 0 && c % 128 == 0
    ensures (a + b + c) % 8 == 0 && (a + b + c + stage * 8) % 8 == 0
  {
    Multiples(a, b, 128);
    Multiples(a + b, c, 128);
    var n := (a + b + c) / 128 * 16;
    assert a + b + c == n * 8;
    DivUnique(n, 8, 0);
    DivUnique(n + stage, 8, 0);
  }

  lemma UnpaddedArrays(x: Member, y: Member, z: Member)
    requires x.align == y.align == z.align == 128 && x.size % 128 == 0 && y.size % 128 == 0
    ensures Offset([x, y, z]) == x.size + y.size + z.size
  {
    AlreadyAligned(x.size, 128);
    Multiples(x.size, y.size, 128);
    AlreadyAligned(x.size + y.size, 128);
    ThreeMembers(x, y, z);
  }

  lemma BytesSum(c: GemmConfig)
    ensures GemmBytes(c) == c.stage * (c.bm * c.bk) * ELEMENT_BYTES + c.stage * (c.bn * c.bk) * ELEMENT_BYTES
                            + c.bm * c.bn * ELEMENT_BYTES + c.stage * 8 + c.stage * 8
  {
    assert c.stage * (c.bm * c.bk + c.bn * c.bk) == c.stage * (c.bm * c.bk) + c.stage * (c.bn * c.bk);
  }

  /** The padded struct fits a limit if and only if smem_bytes fits the limit rounded down to
      a multiple of 128. */
  lemma GemmFitsIff(c: GemmConfig, limit: nat)
    requires c.bm > 0 && c.bn > 0 && c.bk > 0 && c.stage > 0
    requires c.bm % 32 == 0 && c.bn % 64 == 0 && c.bk % 64 == 0
    ensures StructSize(GemmStorage(c), 128) <= limit <==> GemmBytes(c) <= limit - limit % 128
  {
    GemmOffset(c);
    AlignedFits(GemmBytes(c), limit, limit - limit % 128);
  }

  lemma AlignedFits(value: nat, limit: nat, floor: nat)
    requires floor == limit - limit % 128
    ensures AlignUp(value, 128) <= limit <==> value <= floor
  {
    DivMod(limit, 128);
    DivUnique(limit / 128, 128, 0);
    AlreadyAligned(floor, 128);
    if value <= floor { AlignMonotone(value, floor, 128); }
    DivMod(AlignUp(value, 128), 128);
  }

  /** The filter decides rightly about a configuration if and only if smem_bytes does not lie
      between the limit rounded down and the limit. */
  lemma GemmFilterIff(c: GemmConfig, limit: nat)
    requires c.bm > 0 && c.bn > 0 && c.bk > 0 && c.stage > 0
    requires c.bm % 32 == 0 && c.bn % 64 == 0 && c.bk % 64 == 0
    ensures (GemmBytes(c) <= limit <==> StructSize(GemmStorage(c), 128) <= limit)
            <==> !(limit - limit % 128 < GemmBytes(c) <= limit)
  {
    GemmFitsIff(c, limit);
  }

  /** The barriers' bytes are what lies beyond a multiple of 128. */
  lemma GemmRemainder(c: GemmConfig)
    requires c.bm > 0 && c.bn > 0 && c.bk > 0 && 0 < c.stage < 8
    requires c.bm % 32 == 0 && c.bn % 64 == 0 && c.bk % 64 == 0
    ensures GemmBytes(c) % 128 == 16 * c.stage
  {
    Product128(c.bm, c.bk, c.stage);
    Product128(c.bn, c.bk, c.stage);
    Product128(c.bm, c.bn, 1);
    BytesSum(c);
    var a, b := c.stage * (c.bm * c.bk) * ELEMENT_BYTES, c.stage * (c.bn * c.bk) * ELEMENT_BYTES;
    var d := c.bm * c.bn * ELEMENT_BYTES;
    Multiples(a, b, 128);
    Multiples(a + b, d, 128);
    DivMod(a + b + d, 128);
    DivUnique((a + b + d) / 128, 128, 16 * c.stage);
  }

  /** So it is exact for all configurations whenever the limit is not that far beyond a multiple
      of 128, in particular for whole kibibytes. */
  lemma GemmFilterExact(c: GemmConfig, limit: nat)
    requires c.bm > 0 && c.bn > 0 && c.bk > 0 && 0 < c.stage < 8
    requires c.bm % 32 == 0 && c.bn % 64 == 0 && c.bk % 64 == 0 && limit % 128 < 16 * c.stage
    ensures GemmBytes(c) <= limit <==> StructSize(GemmStorage(c), 128) <= limit
  {
    GemmRemainder(c);
    NotBetween(GemmBytes(c), limit);
    GemmFilterIff(c, limit);
  }

  lemma NotBetween(bytes: nat, limit: nat)
    requires limit % 128 < bytes % 128
    ensures !(limit - limit % 128 < bytes <= limit)
  {
  }

  lemma GemmFilterKiB(c: GemmConfig, maxKb: nat)
    requires c.bm > 0 && c.bn > 0 && c.bk > 0 && c.stage > 0
    requires c.bm % 32 == 0 && c.bn % 64 == 0 && c.bk % 64 == 0
    ensures GemmBytes(c) <= maxKb * 1024 <==> StructSize(GemmStorage(c), 128) <= maxKb * 1024
  {
    DivUnique(maxKb * 8, 128, 0);
    GemmFilterIff(c, maxKb * 1024);
  }

  /** Against other limits an accepted configuration can be too large. */
  lemma GemmFilterBytes()
    ensures var c := GemmConfig(64, 64, 64, 2, 2, 2, 4, 4);
            GemmValid(c, 40992) && StructSize(GemmStorage(c), 128) > 40992
  {
    var c := GemmConfig(64, 64, 64, 2, 2, 2, 4, 4);
    assert GemmBytes(c) == 40992 == 320 * 128 + 32;
    GemmFitsIff(c, 40992);
  }

  // ---- what acceptance guarantees ----

  /** is_pow2 as the generator writes it, n & (n - 1) == 0, on binary digits. */
  function And(a: nat, b: nat): nat {
    if a == 0 || b == 0 then 0 else (if a % 2 == 1 && b % 2 == 1 then 1 else 0) + 2 * And(a / 2, b / 2)
  }

  lemma {:induction false} AndSelf(a: nat)
    ensures And(a, a) == a
  {
    if a > 0 { AndSelf(a / 2); }
  }

  /** The bit trick recognises exactly the powers of two. */
  lemma {:induction false} PowerOfTwoByBits(n: nat)
    requires 0 < n
    ensures And(n, n - 1) == 0 <==> PowerOfTwo(n)
  {
    if n % 2 == 1 {
      AndSelf(n / 2);
      assert (n - 1) / 2 == n / 2;
      if n > 1 { assert n / 2 > 0; assert And(n, n - 1) == 2 * And(n / 2, n / 2); }
    } else {
      PowerOfTwoByBits(n / 2);
      assert (n - 1) / 2 == n / 2 - 1;
    }
  }

  ghost predicate LegalShape(bm: nat, bn: nat, cwg: nat, warpsM: nat, warpsN: nat) {
    && 0 < warpsM && 0 < warpsN && warpsM * warpsN == 4 * cwg && PowerOfTwo(warpsN)
    && 0 < 16 * warpsM && 0 < 8 * warpsN
    && bm % (16 * warpsM) == 0 && bn % (8 * warpsN) == 0
  }

  lemma DividesFactor(b: nat, w: nat, n: nat)
    requires 0 < w && 0 < n && 0 < n * w && b % (n * w) == 0
    ensures b % w == 0
  {
    var q := b / (n * w);
    assert b == q * (n * w);
    MulAssoc(q, n, w);
    DivUnique(q * n, w, 0);
  }

  /** With warps_m fixed, at most the quotient is legal, and the generator's tests decide it. */
  lemma ShapeTests(bm: nat, bn: nat, cwg: nat, warpsM: nat, warpsN: nat)
    requires 0 < warpsM && 0 < warpsN && warpsM * warpsN == 4 * cwg
    ensures 0 < 16 * warpsM && 0 < 8 * warpsN
    ensures LegalShape(bm, bn, cwg, warpsM, warpsN) <==>
            (bm % warpsM == 0 && bn % warpsN == 0 && And(warpsN, warpsN - 1) == 0
             && bm % (16 * warpsM) == 0 && bn % (8 * warpsN) == 0)
  {
    PowerOfTwoByBits(warpsN);
    Redundant(bm, warpsM, 16);
    Redundant(bn, warpsN, 8);
  }

  lemma Redundant(b: nat, w: nat, n: nat)
    requires 0 < w && 0 < n
    ensures 0 < n * w && (b % (n * w) == 0 ==> b % w == 0)
  {
    MulLe(1, n, w);
    if b % (n * w) == 0 { DividesFactor(b, w, n); }
  }

  lemma OnlyQuotient(bm: nat, bn: nat, cwg: nat, warpsM: nat, warpsN: nat)
    requires LegalShape(bm, bn, cwg, warpsM, warpsN)
    ensures 4 * cwg % warpsM == 0 && warpsN == 4 * cwg / warpsM && warpsM <= 4 * cwg
  {
    DivUnique(warpsN, warpsM, 0);
    MulLe(1, warpsN, warpsM);
  }

  /** The shape with warps_m rows of warps, if there is one. */
  method ShapeFor(bm: nat, bn: nat, cwg: nat, warpsM: nat) returns (shape: seq<(nat, nat)>)
    requires 0 < warpsM <= 4 * cwg
    ensures shape == [] || (|shape| == 1 && shape[0].0 == warpsM && LegalShape(bm, bn, cwg, warpsM, shape[0].1))
    ensures forall wn: nat :: LegalShape(bm, bn, cwg, warpsM, wn) ==> (warpsM, wn) in shape
  {
    forall wn: nat | LegalShape(bm, bn, cwg, warpsM, wn)
      ensures 4 * cwg % warpsM == 0 && wn == 4 * cwg / warpsM
    {
      OnlyQuotient(bm, bn, cwg, warpsM, wn);
    }
    if 4 * cwg % warpsM != 0 { return []; }
    var warpsN := 4 * cwg / warpsM;
    assert warpsM * warpsN == 4 * cwg;
    ShapeTests(bm, bn, cwg, warpsM, warpsN);
    if bm % warpsM != 0 || bn % warpsN != 0 || And(warpsN, warpsN - 1) != 0
       || bm % (16 * warpsM) != 0 || bn % (8 * warpsN) != 0 { return []; }
    shape := [(warpsM, warpsN)];
  }

  /** legal_warp_shapes yields every legal shape and nothing else, in order of warps_m. */
  method LegalWarpShapes(bm: nat, bn: nat, cwg: nat) returns (shapes: seq<(nat, nat)>)
    ensures forall wm: nat, wn: nat :: LegalShape(bm, bn, cwg, wm, wn) ==> (wm, wn) in shapes
    ensures forall i | 0 <= i < |shapes| :: LegalShape(bm, bn, cwg, shapes[i].0, shapes[i].1)
    ensures forall i, j | 0 <= i < j < |shapes| :: shapes[i].0 < shapes[j].0
  {
    shapes := [];
    for warpsM := 1 to 4 * cwg + 1
      invariant forall wm: nat, wn: nat :: wm < warpsM && LegalShape(bm, bn, cwg, wm, wn) ==> (wm, wn) in shapes
      invariant forall i | 0 <= i < |shapes| ::
                  LegalShape(bm, bn, cwg, shapes[i].0, shapes[i].1) && shapes[i].0 < warpsM
      invariant forall i, j | 0 <= i < j < |shapes| :: shapes[i].0 < shapes[j].0
    {
      var shape := ShapeFor(bm, bn, cwg, warpsM);
      shapes := shapes + shape;
    }
    forall wm: nat, wn: nat | LegalShape(bm, bn, cwg, wm, wn) ensures wm <= 4 * cwg {
      OnlyQuotient(bm, bn, cwg, wm, wn);
    }
  }

  /** An accepted GEMM configuration fits a limit of whole kibibytes, and its warps tile the block:
      by the fragment map every element belongs to one register, and each thread has as many
      accumulators as the generator counts. */
  lemma GemmValidSound(c: GemmConfig, maxKb: nat) returns (g: Grid)
    requires GemmValid(c, maxKb * 1024)
    ensures StructSize(GemmStorage(c), 128) <= maxKb * 1024
    ensures c.stage in {2, 3} && c.bm % 32 == 0 && c.bn % 64 == 0 && c.bk % 64 == 0 && (4 * c.cwg + 4) * 32 <= 1024
    ensures g.warpsM == c.warpsM && g.warpsN == c.warpsN && !g.strided
    ensures g.Ok() && g.Rows() == c.bm && g.Cols() == c.bn
    ensures 4 * (g.m1s * g.n1s) == c.bm * c.bn / (4 * c.cwg * 32) <= 64
  {
    GemmFilterKiB(c, maxKb);
    g := WarpGrid(c.bm, c.bn, c.warpsM, c.warpsN, c.cwg);
  }

  lemma WarpGrid(bm: nat, bn: nat, warpsM: nat, warpsN: nat, cwg: nat) returns (g: Grid)
    requires 0 < bm && 0 < bn && 0 < warpsM && 0 < warpsN && 0 < cwg && warpsM * warpsN == 4 * cwg
    requires bm % (16 * warpsM) == 0 && bn % (8 * warpsN) == 0
    ensures g.warpsM == warpsM && g.warpsN == warpsN && !g.strided
    ensures g.Ok() && g.Rows() == bm && g.Cols() == bn
    ensures 4 * (g.m1s * g.n1s) == bm * bn / (4 * cwg * 32)
  {
    var m1s := Exactly(bm, 16 * warpsM);
    var n1s := Exactly(bn, 8 * warpsN);
    g := Grid(warpsM, warpsN, m1s, n1s, false);
    GridRows(m1s, warpsM);
    GridCols(n1s, warpsN);
    GridArea(m1s, n1s, warpsM, warpsN, bm, bn, warpsM * warpsN);
    DivUnique(4 * (m1s * n1s), 4 * cwg * 32, 0);
  }

  lemma GridRows(m: nat, warps: nat)
    ensures m * (16 * warps) == 16 * (warps * m)
  {
  }

  lemma GridCols(n: nat, warps: nat)
    ensures n * (8 * warps) == 8 * (warps * n)
  {
  }

  lemma Exactly(x: nat, d: nat) returns (q: nat)
    requires 0 < x && 0 < d && x % d == 0
    ensures x == q * d && 0 < q
  {
    q := x / d;
    DivMod(x, d);
    assert q * d > 0;
  }

  lemma GridArea(m: nat, n: nat, wm: nat, wn: nat, bm: nat, bn: nat, warps: nat)
    requires bm == 16 * (wm * m) && bn == 8 * (wn * n) && warps == wm * wn
    ensures bm * bn == 4 * (m * n) * (warps * 32)
  {
    assert wm * m * (wn * n) == wm * wn * (m * n);
  }

  datatype FlashConfig =
    FlashConfig(headDim: int, blockM: int, blockN: int, warpsM: int, warpsN: int, stage: int)

  ghost predicate FlashValid(c: FlashConfig, maxSmem: int) {
    && c.headDim > 0 && c.blockM > 0 && c.blockN > 0 && c.warpsM > 0 && c.warpsN > 0 && c.stage > 0
    && c.blockM / 16 * (c.blockN / 16) > 4
    && 4 < c.warpsM * c.warpsN <= 8
    && c.headDim % 32 == 0 && c.stage == 2
    && c.blockM == c.warpsM * 16
    && c.blockN % (c.warpsN * 16) == 0
    && (4 + c.warpsM * c.warpsN) * 32 <= 1024
    && FlashBytes(Layout(c.blockM * c.headDim, c.blockN * c.headDim, c.warpsN).QKVOSize(),
                  RowStatsSlots(c.blockM, c.warpsN), c.stage) <= maxSmem
  }

  /** An accepted configuration fits into the limit. */
  lemma FlashValidFits(c: FlashConfig, l: Layout, maxSmem: int)
    requires FlashValid(c, maxSmem) && l == Layout(c.blockM * c.headDim, c.blockN * c.headDim, c.warpsN)
    ensures l.Ok()
    ensures StructSize(FlashStorage(l.QKVOSize(), RowStatsSlots(c.blockM, c.warpsN), c.stage), 128) <= maxSmem
  {
    MulLe(1, c.blockM, c.headDim);
    MulLe(1, c.blockN, c.headDim);
    FlashBytesBound(l.QKVOSize(), RowStatsSlots(c.blockM, c.warpsN), c.stage);
  }

  /** It satisfies the kernel's assertion on the tile shape, and scores and PV operand agree
      on all rows of the tile. */
  lemma FlashValidRows(c: FlashConfig, maxSmem: int) returns (g: Grid)
    requires FlashValid(c, maxSmem)
    ensures c.headDim % 32 == 0 && c.stage == 2 && (c.warpsM * c.warpsN + 4) * 32 <= 1024
    ensures 0 < 16 * c.warpsM && 0 < 16 * c.warpsN && c.blockM % (16 * c.warpsM) == 0 && c.blockN % (16 * c.warpsN) == 0
    ensures g.warpsM == c.warpsM && g.warpsN == c.warpsN && !g.strided
    ensures g.Ok() && g.n1s % 2 == 0 && g.Rows() == c.blockM && g.Cols() == c.blockN && AllRowsAgree(g)
  {
    g := GridOf(c.blockM, c.blockN, c.warpsM, c.warpsN);
  }

  lemma GridOf(blockM: nat, blockN: nat, warpsM: nat, warpsN: nat) returns (g: Grid)
    requires 0 < blockN && 0 < warpsM && 0 < warpsN && blockM == warpsM * 16 && blockN % (warpsN * 16) == 0
    ensures 0 < 16 * warpsM && 0 < 16 * warpsN && blockM % (16 * warpsM) == 0 && blockN % (16 * warpsN) == 0
    ensures g.warpsM == warpsM && g.warpsN == warpsN && !g.strided
    ensures g.Ok() && g.n1s % 2 == 0 && g.Rows() == blockM && g.Cols() == blockN && AllRowsAgree(g)
  {
    DivUnique(1, 16 * warpsM, 0);
    var w := Sixteens(blockN, warpsN);
    g := Grid(warpsM, warpsN, 1, 2 * w, false);
    RowsAgreeIff(g);
  }

  lemma Sixteens(blockN: nat, warpsN: nat) returns (w: nat)
    requires 0 < blockN && 0 < warpsN && blockN % (warpsN * 16) == 0
    ensures 0 < w && 8 * (warpsN * (2 * w)) == blockN && blockN % (16 * warpsN) == 0
  {
    var n := warpsN * 16;
    w := blockN / n;
    assert blockN == w * n;
    assert w != 0;
    MulAssoc(w, warpsN, 16);
    assert w * warpsN == warpsN * w;
    MulAssoc(warpsN, 2, w);
  }

  // ---- registers ----

  /** get_consumer_registers */
  function GetConsumerRegisters(warps: nat, producerReg: nat): nat
    requires 0 < warps && producerReg <= 512
  {
    var raw := (64 * 1024 - 128 * producerReg) / (warps * 32) / 8 * 8;
    if raw > 256 then 256 else raw
  }

  /** Producer and consumer warps together stay within the register file, and more
      registers for the consumers would not fit or not be allowed. */
  lemma RegistersFit(warps: nat, producerReg: nat)
    requires 0 < warps && producerReg <= 512
    ensures var r := GetConsumerRegisters(warps, producerReg);
            && r % 8 == 0 && r <= 256
            && r * (warps * 32) + 128 * producerReg <= 64 * 1024
            && (r < 256 ==> (r + 8) * (warps * 32) + 128 * producerReg > 64 * 1024)
  {
    var free, n := 64 * 1024 - 128 * producerReg, warps * 32;
    var q := free / n;
    assert free == q * n + free % n;
    var r := GetConsumerRegisters(warps, producerReg);
    MulLe(r, q, n);
    if r < 256 {
      assert r == q / 8 * 8 && q + 1 <= r + 8;
      MulLe(q + 1, r + 8, n);
      MulDist(q, 1, n);
    }
  }
}
