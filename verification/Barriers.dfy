/** Hardware barriers and the pipeline position that walks over them. */
module Barriers {

  type Bit = n: nat | n < 2

  /** A shared-memory barrier (PTX ISA, "mbarrier"): an arrival count, a transaction
      count, and the parity of the phase that is still open. `done` counts completed
      phases; the hardware has no such counter and no step below tests it. */
  datatype Mbar = Mbar(expected: nat, pending: nat, tx: int, bit: Bit, done: nat) {

    /** A parity wait passes when the phase of that parity is not the open one. */
    predicate Passed(parity: Bit) {
      bit != parity
    }

    /** The phase completes as soon as both counts are zero. */
    function Settle(): Mbar {
      if pending == 0 && tx == 0 then Mbar(expected, expected, 0, 1 - bit, done + 1) else this
    }

    function Arrive(): Mbar {
      if pending == 0 then this else this.(pending := pending - 1).Settle()
    }

    function ArriveExpectTx(bytes: nat): Mbar {
      this.(tx := tx + bytes).Arrive()
    }

    function CompleteTx(bytes: nat): Mbar {
      this.(tx := tx - bytes).Settle()
    }
  }

  function NewBarrier(expected: nat): Mbar {
    Mbar(expected, expected, 0, 0, 0)
  }

  /** Position of a producer or consumer in a ring of `stages` slots. */
  datatype PipelineState = PipelineState(index: nat, phase: Bit, count: nat) {
    function Next(stages: nat): PipelineState {
      if index + 1 == stages then PipelineState(0, 1 - phase, count + 1)
      else PipelineState(index + 1, phase, count + 1)
    }
  }

  /** The participants that have not arrived in round `round`. */
  ghost function Behind(arrivals: seq<nat>, round: nat): set<nat> {
    set t: nat | t < |arrivals| && arrivals[t] == round
  }

  /** A barrier used by a fixed group, each member arriving once per phase:
      `arrivals[t]` is how often member t has arrived in the whole run. */
  ghost predicate Rounds(b: Mbar, arrivals: seq<nat>) {
    && b.expected == |arrivals|
    && b.tx == 0
    && b.bit == b.done % 2
    && 0 < b.pending == |Behind(arrivals, b.done)|
    && forall t | 0 <= t < |arrivals| :: b.done <= arrivals[t] <= b.done + 1
  }

  lemma FullGroup(n: nat, s: set<nat>)
    requires forall t: nat :: t in s <==> t < n
    ensures |s| == n
  {
    if n == 0 {
      assert s == {};
    } else {
      FullGroup(n - 1, s - {n - 1});
    }
  }

  lemma NewBarrierRounds(n: nat, arrivals: seq<nat>)
    requires 0 < n == |arrivals| && forall t | 0 <= t < n :: arrivals[t] == 0
    ensures Rounds(NewBarrier(n), arrivals)
  {
    FullGroup(n, Behind(arrivals, 0));
  }

  /** An arrival of a member that has not yet arrived keeps the account right,
      whether or not it completes the phase. */
  lemma ArriveKeepsRounds(b: Mbar, arrivals: seq<nat>, t: nat)
    requires Rounds(b, arrivals) && t < |arrivals| && arrivals[t] == b.done
    ensures Rounds(b.Arrive(), arrivals[t := arrivals[t] + 1])
    ensures b.Arrive().done == if b.pending == 1 then b.done + 1 else b.done
  {
    var after := arrivals[t := arrivals[t] + 1];
    assert Behind(after, b.done) == Behind(arrivals, b.done) - {t};
    assert |Behind(after, b.done)| == b.pending - 1;
    if b.pending == 1 {
      assert Behind(after, b.done) == {};
      assert forall u | 0 <= u < |after| :: after[u] != b.done ==> after[u] == b.done + 1;
      forall u | 0 <= u < |after| ensures after[u] == b.done + 1 {
        assert u !in Behind(after, b.done);
      }
      FullGroup(|after|, Behind(after, b.done + 1));
    }
  }

  /** The open phase always waits for somebody. */
  lemma SomeoneBehind(b: Mbar, arrivals: seq<nat>) returns (t: nat)
    requires Rounds(b, arrivals)
    ensures t < |arrivals| && arrivals[t] == b.done
  {
    assert Behind(arrivals, b.done) != {};
    t :| t in Behind(arrivals, b.done);
  }
}
