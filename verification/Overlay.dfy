/** How FlashAttention lays Q, K, V and O over one shared-memory array. */
module Overlay {
  import opened Machine
  import opened Tiles

  /** Elements of a Q (and O) tile and of a K (and V) tile, and the column warps. */
  datatype Layout = Layout(q: nat, k: nat, warpsN: nat) {
    predicate Ok() { 0 < q && 0 < k && 0 < warpsN }

    function OSlots(): nat { if warpsN > 1 then warpsN - 1 else 1 }
    function QKSize(): nat { k + if q >= k then q else k }
    function KStride(): nat { if q <= k then k else q }
    function QKVSize(): nat { QKSize() + k }
    function OSize(): nat { OSlots() * q }
    function QKVOSize(): nat { if QKVSize() >= OSize() then QKVSize() else OSize() }
  }

  datatype Region = Region(start: nat, len: nat) {
    predicate Overlaps(other: Region) {
      start < other.start + other.len && other.start < start + len
    }
    predicate Inside(size: nat) { start + len <= size }
  }

  /** The bytes an operand uses when it travels through slot `slot` of its ring. */
  function RegionOf(l: Layout, operand: Operand, slot: nat): Region {
    match operand
    case OperandQ => Region(l.k * slot, l.q)
    case OperandV => Region(l.QKSize(), l.k)
    case _ => Region(l.KStride() * slot, l.k)
  }

  function ORegion(l: Layout, idx: nat): Region {
    Region(idx * l.q, l.q)
  }

  /** The two slots of the Q/K ring do not overlap unless both hold a Q, and neither
      overlaps V; everything lies in the array. */
  lemma SlotsApart(l: Layout, a: Operand, b: Operand)
    requires l.Ok() && a in {OperandQ, OperandK} && b in {OperandQ, OperandK}
    ensures RegionOf(l, a, 0).Overlaps(RegionOf(l, b, 1)) ==> a == OperandQ && b == OperandQ
    ensures !RegionOf(l, a, 0).Overlaps(RegionOf(l, OperandV, 0))
    ensures !RegionOf(l, b, 1).Overlaps(RegionOf(l, OperandV, 0))
    ensures RegionOf(l, a, 0).Inside(l.QKVOSize()) && RegionOf(l, b, 1).Inside(l.QKVOSize())
    ensures RegionOf(l, OperandV, 0).Inside(l.QKVOSize())
  {
  }

  /** Two Q tiles in the two slots overlap exactly when Q is larger than K. */
  lemma QSlotsOverlap(l: Layout)
    requires l.Ok()
    ensures RegionOf(l, OperandQ, 0).Overlaps(RegionOf(l, OperandQ, 1)) <==> l.k < l.q
  {
  }

  /** The output slots lie in the array and are pairwise apart. */
  lemma OSlotsApart(l: Layout, a: nat, b: nat)
    requires l.Ok() && a < b < l.OSlots()
    ensures !ORegion(l, a).Overlaps(ORegion(l, b))
    ensures ORegion(l, a).Inside(l.QKVOSize()) && ORegion(l, b).Inside(l.QKVOSize())
  {
    MulLe(a + 1, b, l.q);
    MulLe(b + 1, l.OSlots(), l.q);
    MulDist(a, 1, l.q);
    MulDist(b, 1, l.q);
  }

  /** What the single output slot overlaps: Q and K in slot 0, Q in slot 1 if Q is the
      larger tile, and never K in slot 1 or V. */
  lemma OutputOverlap(l: Layout)
    requires l.Ok()
    ensures ORegion(l, 0).Overlaps(RegionOf(l, OperandQ, 0))
    ensures ORegion(l, 0).Overlaps(RegionOf(l, OperandK, 0))
    ensures ORegion(l, 0).Overlaps(RegionOf(l, OperandQ, 1)) <==> l.k < l.q
    ensures !ORegion(l, 0).Overlaps(RegionOf(l, OperandK, 1))
    ensures !ORegion(l, 0).Overlaps(RegionOf(l, OperandV, 0))
  {
  }
}
