/** One slot of a ring with its two barriers, seen apart from the rest of the kernel. */
module Lanes {
  import opened Barriers

  /** The bytes of a slot: the item last copied into it, how many of its bytes have not
      landed, and how many bytes the copy engine currently has on the way. */
  datatype Slot = Slot(item: nat, missing: nat, inflight: nat)

  datatype Lane = Lane(full: Mbar, empty: Mbar, slot: Slot) {

    function Expect(bytes: nat): Lane {
      this.(full := full.ArriveExpectTx(bytes))
    }

    /** The producer starts a copy of n of the `left` bytes it has not issued yet. */
    function Issue(item: nat, left: nat, n: nat): Lane {
      this.(slot := Slot(item, left + slot.inflight, slot.inflight + n))
    }

    function Land(n: nat): Lane
      requires n <= slot.inflight
    {
      this.(full := full.CompleteTx(n),
            slot := slot.(missing := if n <= slot.missing then slot.missing - n else 0,
                          inflight := slot.inflight - n))
    }

    function Release(): Lane {
      this.(empty := empty.Arrive())
    }
  }

  function NewLane(consumers: nat): Lane {
    Lane(NewBarrier(1), NewBarrier(consumers), Slot(0, 0, 0))
  }

  /** Where the producer stands with respect to this slot. */
  datatype Grant = Closed | Granted | Open(left: nat)

  /** What the threads have done to this slot: fills the producer has finished issuing,
      its current grant, how often each consumer has released it, and who reads it now. */
  datatype View = View(puts: nat, grant: Grant, takes: seq<nat>, reading: seq<bool>) {
    function Left(): nat { if grant.Open? then grant.left else 0 }
    function Begun(): nat { puts + if grant.Open? then 1 else 0 }
    function Held(t: nat): nat
      requires t < |takes| == |reading|
    { takes[t] + if reading[t] then 1 else 0 }
  }

  ghost predicate Filled(l: Lane, v: View) {
    && l.full.done == v.Begun()
    && l.full.pending == 1 && l.full.tx == 0
    && l.slot.missing == 0 && l.slot.inflight == 0
    && v.Left() == 0
  }

  ghost predicate Filling(l: Lane, v: View) {
    && l.full.done + 1 == v.Begun()
    && l.full.pending == 0
    && 0 < l.full.tx == v.Left() + l.slot.inflight
    && (l.slot.missing == l.full.tx || (l.slot.missing == 0 && l.slot.inflight == 0))
  }

  ghost predicate LaneInv(l: Lane, v: View) {
    && l.full.expected == 1 && l.full.bit == l.full.done % 2
    && (Filled(l, v) || Filling(l, v))
    && Rounds(l.empty, v.takes)
    && |v.reading| == |v.takes|
    && v.Begun() <= l.empty.done + 1
    && (!v.grant.Closed? ==> v.puts <= l.empty.done)
    && forall t | 0 <= t < |v.takes| :: v.Held(t) <= l.full.done
  }

  /** The producer's parity test on the empty barrier is exact: the barrier's completed
      phases are the awaited round or one less, so the bit tells them apart. */
  lemma ProducerParityExact(l: Lane, v: View, phase: Bit)
    requires LaneInv(l, v) && v.grant.Closed? && phase == (v.puts + 1) % 2
    ensures v.puts <= l.empty.done + 1 && l.empty.done <= v.puts
    ensures l.empty.Passed(phase) <==> l.empty.done == v.puts
    ensures l.empty.done == v.puts <==> forall t | 0 <= t < |v.takes| :: v.puts <= v.takes[t]
  {
    var t := SomeoneBehind(l.empty, v.takes);
    assert v.Held(t) <= l.full.done;
  }

  /** The consumer's parity test on the full barrier is exact in the same way. */
  lemma ConsumerParityExact(l: Lane, v: View, t: nat, phase: Bit)
    requires LaneInv(l, v) && t < |v.takes| && !v.reading[t] && phase == v.takes[t] % 2
    ensures v.takes[t] <= l.full.done <= v.takes[t] + 1
    ensures l.full.Passed(phase) <==> l.full.done == v.takes[t] + 1
  {
    assert v.Held(t) <= l.full.done;
  }

  /** While a consumer reads, its slot is completely landed, nothing is being copied into
      it, the producer holds no grant on it, and the reader has not arrived in the open
      phase of the empty barrier. */
  lemma ReaderAlone(l: Lane, v: View, t: nat)
    requires LaneInv(l, v) && t < |v.takes| && v.reading[t]
    ensures l.full.done == v.takes[t] + 1 == v.Begun()
    ensures l.slot.missing == 0 && l.slot.inflight == 0
    ensures v.grant.Closed? || v.grant == Open(0)
    ensures l.empty.done == v.takes[t] && l.empty.pending > 0
  {
    assert v.Held(t) <= l.full.done;
  }

  lemma GrantKeeps(l: Lane, v: View, phase: Bit)
    requires LaneInv(l, v) && v.grant.Closed? && phase == (v.puts + 1) % 2
    requires l.empty.Passed(phase)
    ensures LaneInv(l, v.(grant := Granted))
  {
    ProducerParityExact(l, v, phase);
    var w := v.(grant := Granted);
    assert forall t | 0 <= t < |v.takes| :: w.Held(t) == v.Held(t);
  }

  lemma ExpectKeeps(l: Lane, v: View, bytes: nat)
    requires LaneInv(l, v) && v.grant.Granted? && 0 < bytes
    ensures LaneInv(l.Expect(bytes), v.(grant := Open(bytes)))
  {
    var w := v.(grant := Open(bytes));
    var u := SomeoneBehind(l.empty, v.takes);
    assert v.Held(u) <= l.full.done;
    assert forall t | 0 <= t < |v.takes| :: w.Held(t) == v.Held(t);
  }

  lemma IssueKeeps(l: Lane, v: View, item: nat, n: nat)
    requires LaneInv(l, v) && v.grant.Open? && 0 < n <= v.grant.left
    ensures LaneInv(l.Issue(item, v.grant.left, n), v.(grant := Open(v.grant.left - n)))
    ensures Filling(l, v)
    ensures l.Issue(item, v.grant.left, n).slot.missing > 0
  {
    var w := v.(grant := Open(v.grant.left - n));
    assert forall t | 0 <= t < |v.takes| :: w.Held(t) == v.Held(t);
  }

  lemma PutKeeps(l: Lane, v: View)
    requires LaneInv(l, v) && v.grant == Open(0)
    ensures LaneInv(l, v.(grant := Closed, puts := v.puts + 1))
  {
    var w := v.(grant := Closed, puts := v.puts + 1);
    assert forall t | 0 <= t < |v.takes| :: w.Held(t) == v.Held(t);
  }

  /** Landed bytes leave the full barrier's account right, whether or not they are the last. */
  lemma LandAccount(l: Lane, v: View, n: nat)
    requires l.full.expected == 1 && l.full.bit == l.full.done % 2 && (Filled(l, v) || Filling(l, v))
    requires 0 < n <= l.slot.inflight
    ensures Filling(l, v) && n <= l.slot.missing == l.full.tx
    ensures var after := l.Land(n);
            && (if n == l.full.tx then Filled(after, v) else Filling(after, v))
            && after.full.expected == 1 && after.full.bit == after.full.done % 2
            && after.full.done == l.full.done + if after.slot.missing == 0 then 1 else 0
  {
  }

  lemma LandKeeps(l: Lane, v: View, n: nat)
    requires LaneInv(l, v) && 0 < n <= l.slot.inflight
    ensures n <= l.slot.missing && Filling(l, v)
    ensures LaneInv(l.Land(n), v)
    ensures l.Land(n).full.done == l.full.done + if l.Land(n).slot.missing == 0 then 1 else 0
  {
    LandAccount(l, v, n);
    assert l.Land(n).empty == l.empty;
    assert forall t | 0 <= t < |v.takes| :: v.Held(t) <= l.full.done <= l.Land(n).full.done;
  }

  lemma WaitKeeps(l: Lane, v: View, t: nat, phase: Bit)
    requires LaneInv(l, v) && t < |v.takes| && !v.reading[t] && phase == v.takes[t] % 2
    requires l.full.Passed(phase)
    ensures LaneInv(l, v.(reading := v.reading[t := true]))
  {
    ConsumerParityExact(l, v, t, phase);
    var w := v.(reading := v.reading[t := true]);
    forall u | 0 <= u < |v.takes| ensures w.Held(u) <= l.full.done {
      assert v.Held(u) <= l.full.done;
    }
  }

  lemma ReleaseKeeps(l: Lane, v: View, t: nat)
    requires LaneInv(l, v) && t < |v.takes| && v.reading[t]
    ensures LaneInv(l.Release(), v.(takes := v.takes[t := v.takes[t] + 1], reading := v.reading[t := false]))
  {
    ReaderAlone(l, v, t);
    ArriveKeepsRounds(l.empty, v.takes, t);
    var w := v.(takes := v.takes[t := v.takes[t] + 1], reading := v.reading[t := false]);
    forall u | 0 <= u < |v.takes| ensures w.Held(u) <= l.full.done {
      assert v.Held(u) <= l.full.done;
    }
  }
}
