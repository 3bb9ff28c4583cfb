/** One column warp: no barrier separates the last reads of Q and K from the writes of O.
    This module proves exactly when that is harmless. */
module OutputRace {
  import opened Machine
  import opened Invariant
  import opened Safety
  import opened Liveness
  import opened Overlay
  import opened Tiles
  import opened FlashProtocol
  import Fragments

  // ---- warps ----

  /** A step that the lanes of a warp can make together: no lane has done less than the one
      that steps, as the loads, products and shuffles between the steps need all lanes. */
  ghost predicate WarpStep(k: Launch, s: State, m: Move)
    requires Shaped(k, s)
  {
    m.Go? && m.t < k.consumers ==>
      forall v | 0 <= v < k.consumers && v / WARP == m.t / WARP :: !Slower(s.threads[v], s.threads[m.t])
  }

  ghost predicate WarpNext(k: Launch, s: State, s': State) {
    Shaped(k, s) && exists m :: Enabled(k, s, m) && WarpStep(k, s, m) && s' == Apply(k, s, m)
  }

  ghost predicate IsWarpRun(k: Launch, run: seq<State>) {
    && IsRun(k, run)
    && forall i | 0 <= i < |run| - 1 :: WarpNext(k, run[i], run[i + 1])
  }

  ghost predicate WarpReachable(k: Launch, s: State) {
    exists run :: IsWarpRun(k, run) && run[|run| - 1] == s
  }

  lemma WarpReachableReachable(k: Launch, s: State)
    requires WarpReachable(k, s)
    ensures Reachable(k, s)
  {
    var run :| IsWarpRun(k, run) && run[|run| - 1] == s;
    assert IsRun(k, run);
  }

  // ---- what the warps read and write ----

  /** The warp that reads element e of a Q tile, and the warp that writes element e of an
      output tile. Both tiles have the same layout. */
  datatype Owners = Owners(q: nat -> nat, o: nat -> nat)

  /** Every element belongs to a warp of the launch. */
  ghost predicate Owned(k: Launch, l: Layout, a: Owners) {
    forall e: nat | e < l.q :: a.q(e) * WARP < k.consumers && a.o(e) * WARP < k.consumers
  }

  ghost predicate OwnersAgree(l: Layout, a: Owners) {
    forall e: nat | e < l.q :: a.q(e) == a.o(e)
  }

  /** A warp reads its own rows of Q, but all of K and V. */
  predicate ReadsPlace(l: Layout, a: Owners, operand: Operand, slot: nat, warp: nat, x: nat) {
    var region := RegionOf(l, operand, slot);
    region.start <= x < region.start + region.len && (operand == OperandQ ==> a.q(x - region.start) == warp)
  }

  /** It writes its own rows of the output. */
  predicate WritesPlace(l: Layout, a: Owners, warp: nat, x: nat) {
    x < l.q && a.o(x) == warp
  }

  /** Thread t has begun to write the output tile at event w, and element x of it, which the
      warp of thread u has yet to finish reading as part of the item of event p. */
  ghost predicate Clash(k: Launch, l: Layout, a: Owners, s: State, w: nat, t: nat, u: nat, p: nat, x: nat) {
    && t < k.consumers <= |s.threads| && u < k.consumers && t / WARP != u / WARP
    && (s.threads[t].pos > w || (s.threads[t].pos == w && s.threads[t].stage.Busy?))
    && s.threads[u].pos <= p < w && p < |k.script| && k.script[p].Xfer? && k.script[p].ring < |k.stages|
    && WritesPlace(l, a, t / WARP, x)
    && ReadsPlace(l, a, k.script[p].operand, k.CursorAt(k.script[p].ring, p).index, u / WARP, x)
  }

  ghost predicate CanClash(k: Launch, l: Layout, a: Owners, w: nat) {
    exists s, t: nat, u: nat, p: nat, x: nat :: WarpReachable(k, s) && Clash(k, l, a, s, w, t, u, p, x)
  }

  /** The last K of the tile written at event w is in slot 1. */
  ghost predicate LastKInOne(k: Launch, w: nat)
    requires 3 <= w <= |k.script| && |k.stages| == 2
  {
    k.CursorAt(QK_RING, w - 2).index == 1
  }

  /** And it is not the only one. */
  ghost predicate SeveralBlocks(k: Launch, w: nat)
    requires 3 <= w <= |k.script|
  {
    k.script[w - 3].Xfer? && k.script[w - 3].operand == OperandV
  }

  // ---- how far behind a reader can be ----

  /** When a consumer has taken the last V block of a tile, every other consumer has released
      every earlier V block: the items it has yet to release are the last K, the last V and,
      in a tile with one block, Q. */
  lemma ReaderNear(k: Launch, s: State, w: nat, t: nat, u: nat, p: nat)
    requires Inv(k, s) && Shape(k.script, false) && k.stages == [2, 1] && OutputAt(k.script, w, false)
    requires t < k.consumers && u < k.consumers && w <= s.threads[t].pos
    requires s.threads[u].pos <= p < w && k.script[p].Xfer?
    ensures w - 3 <= p
    ensures p == w - 3 ==> k.script[w - 3].operand == OperandQ
  {
    assert EventShape(k.script, w - 1, false) && EventShape(k.script, w - 3, false);
    if k.script[w - 3].operand == OperandV {
      Lag(k, s, t, u, V_RING, 0, w - 1, w - 3);
    } else if w > 3 {
      Separation(k, s, BLOCK, w - 4, t, u);
    }
  }

  /** What is left to read lies apart from what other warps write. */
  lemma NearApart(k: Launch, l: Layout, a: Owners, w: nat, p: nat, t: nat, u: nat, x: nat)
    requires Shape(k.script, false) && k.stages == [2, 1] && OutputAt(k.script, w, false) && l.Ok()
    requires w - 3 <= p < w && (p == w - 3 ==> k.script[w - 3].operand == OperandQ)
    requires LastKInOne(k, w) && (SeveralBlocks(k, w) || OwnersAgree(l, a))
    requires WritesPlace(l, a, t, x) && t != u
    ensures k.script[p].Xfer? && k.script[p].ring < 2
    ensures !ReadsPlace(l, a, k.script[p].operand, k.CursorAt(k.script[p].ring, p).index, u, x)
  {
    assert EventShape(k.script, w - 1, false) && EventShape(k.script, w - 2, false);
    assert EventShape(k.script, w - 3, false);
  }

  /** If the last K is in slot 1, and warps that read a row of a lone block's Q are those that
      write it, then the output write is safe, however the threads interleave. */
  lemma ClearIsSafe(k: Launch, tiles: seq<nat>, l: Layout, a: Owners, bytes: Bytes, s: State,
                    w: nat, t: nat, u: nat, p: nat, x: nat)
    requires IsFlash(k, tiles, l, bytes) && l.warpsN == 1 && OutputAt(k.script, w, false)
    requires LastKInOne(k, w) && (SeveralBlocks(k, w) || OwnersAgree(l, a)) && Reachable(k, s)
    ensures !Clash(k, l, a, s, w, t, u, p, x)
  {
    ReachableInv(k, s);
    FlashShape(k, tiles, l, bytes);
    if Clash(k, l, a, s, w, t, u, p, x) {
      ReaderNear(k, s, w, t, u, p);
      NearApart(k, l, a, w, p, t / WARP, u / WARP, x);
    }
  }

  // ---- otherwise a run with a clash exists ----

  /** The event at which slow readers are in the way of the output write at w. */
  ghost function Obstacle(k: Launch, w: nat): nat
    requires 3 <= w <= |k.script| && |k.stages| == 2
  {
    if LastKInOne(k, w) then w - 3 else w - 2
  }

  /** The obstacle travels in slot 0: it is the last K, or the Q of a lone block. */
  lemma ObstacleInZero(k: Launch, w: nat)
    requires Shape(k.script, false) && k.stages == [2, 1]
    requires OutputAt(k.script, w, false) && !(LastKInOne(k, w) && SeveralBlocks(k, w))
    ensures var p := Obstacle(k, w);
            && k.Uses(QK_RING, p) && k.CursorAt(QK_RING, p).index == 0
            && k.script[p].operand == if LastKInOne(k, w) then OperandQ else OperandK
  {
    assert EventShape(k.script, w - 2, false) && EventShape(k.script, w - 3, false);
    var c := k.CursorAt(QK_RING, w - 3);
    assert k.Uses(QK_RING, w - 3) ==>
        k.CursorAt(QK_RING, w - 2) == if c.index + 1 == 2 then Cursor(c.lap + 1, 0) else Cursor(c.lap, c.index + 1);
  }

  /** Consumers reading at the obstacle hold up nobody before the output write. */
  lemma ObstacleHoldsNobody(k: Launch, w: nat, m: nat)
    requires Shape(k.script, false) && k.stages == [2, 1] && OutputAt(k.script, w, false)
    requires !(LastKInOne(k, w) && SeveralBlocks(k, w)) && Obstacle(k, w) <= m <= w
    ensures NotHolding(k, Obstacle(k, w), m)
  {
    assert EventShape(k.script, w - 1, false) && EventShape(k.script, w - 2, false);
    assert EventShape(k.script, w - 3, false);
    var p := Obstacle(k, w);
    if k.script[m].Xfer? {
      var r := k.script[m].ring;
      var j := k.CursorAt(r, m).index;
      assert forall i | p <= i < m :: !k.Faces(r, j, i) by {
        if m == w - 1 { assert r == V_RING; }
      }
      LapsFlat(k, r, j, p, m);
    }
  }

  ghost predicate Waiting(s: State, t: nat, p: nat) {
    t < |s.threads| && s.threads[t].pos == p && s.threads[t].stage.Busy?
  }

  /** The lanes of warp b that read at event p. */
  ghost function Still(k: Launch, s: State, b: nat, p: nat): set<nat> {
    set v: nat | v < k.consumers && v / WARP == b && Waiting(s, v, p)
  }

  ghost predicate AllWaiting(k: Launch, s: State, b: nat, p: nat) {
    forall v | 0 <= v < k.consumers && v / WARP == b :: Waiting(s, v, p)
  }

  /** The clash: thread t writes at w, all of warp b reads at p. */
  ghost predicate Met(k: Launch, s: State, w: nat, t: nat, p: nat, b: nat) {
    Waiting(s, t, w) && AllWaiting(k, s, b, p)
  }

  ghost predicate NotPast(th: Thread, p: nat) {
    th.pos < p || (th.pos == p && (th.stage.Ready? || th.stage.Busy?))
  }

  /** On the way to it: thread t has not passed the write, warp b not the obstacle. */
  ghost predicate Before(k: Launch, s: State, w: nat, t: nat, p: nat, b: nat) {
    && t < k.consumers <= |s.threads| && t / WARP != b
    && s.threads[t].pos <= w
    && forall v | 0 <= v < k.consumers && v / WARP == b :: NotPast(s.threads[v], p)
  }

  /** What the proof of a clash at w needs to know of the kernel. */
  ghost predicate Scene(k: Launch, w: nat, p: nat) {
    && Shape(k.script, false) && k.stages == [2, 1] && OutputAt(k.script, w, false)
    && !(LastKInOne(k, w) && SeveralBlocks(k, w)) && p == Obstacle(k, w)
    && k.script[p].Xfer?
  }

  /** A step towards the clash that its warp can make and that moves no thread out of its
      place. */
  lemma Approach(k: Launch, s: State, w: nat, t: nat, p: nat, b: nat) returns (m: Move)
    requires Inv(k, s) && Shaped(k, s) && Scene(k, w, p)
    requires Before(k, s, w, t, p, b) && !Met(k, s, w, t, p, b)
    ensures Enabled(k, s, m) && WarpStep(k, s, m)
    ensures m.Go? ==> !(m.t == t && Waiting(s, t, w)) && m.t !in Still(k, s, b, p)
  {
    var still := Still(k, s, b, p);
    var x := Slowest(s.threads, still, t);
    assert !Slower(s.threads[t], s.threads[x]);
    if Waiting(s, t, w) {
      var v: nat :| v < k.consumers && v / WARP == b && !Waiting(s, v, p);
      assert NotPast(s.threads[v], p) && !Slower(s.threads[v], s.threads[x]);
      assert s.threads[x].pos < w;
    }
    if s.threads[x].pos >= p { ObstacleHoldsNobody(k, w, s.threads[x].pos); }
    m := Serve(k, s, x, still);
    if m.Go? && m.t < k.consumers { LanesTogether(k, s, w, t, p, b, x, m.t); }
  }

  lemma LanesTogether(k: Launch, s: State, w: nat, t: nat, p: nat, b: nat, x: nat, y: nat)
    requires Shaped(k, s) && Before(k, s, w, t, p, b) && x < |s.threads| && y < k.consumers
    requires x !in Still(k, s, b, p) && y !in Still(k, s, b, p)
    requires forall v | 0 <= v < |s.threads| && v !in Still(k, s, b, p) :: !Slower(s.threads[v], s.threads[x])
    requires y == x || (s.threads[y].stage.Ready? && s.threads[y].pos == s.threads[x].pos)
    ensures forall v | 0 <= v < k.consumers && v / WARP == y / WARP :: !Slower(s.threads[v], s.threads[y])
  {
    forall v | 0 <= v < k.consumers && v / WARP == y / WARP ensures !Slower(s.threads[v], s.threads[y]) {
      if v in Still(k, s, b, p) { assert NotPast(s.threads[y], p) && !Waiting(s, y, p); }
    }
  }

  lemma ApproachKeeps(k: Launch, s: State, m: Move, w: nat, t: nat, p: nat, b: nat)
    requires Inv(k, s) && Shaped(k, s) && Enabled(k, s, m)
    requires w < |k.script| && p < |k.script| && k.script[p].Xfer? && k.script[w].Work? && Before(k, s, w, t, p, b)
    requires m.Go? ==> !(m.t == t && Waiting(s, t, w)) && m.t !in Still(k, s, b, p)
    ensures Before(k, Apply(k, s, m), w, t, p, b)
  {
    var s' := Apply(k, s, m);
    StaysBefore(k, s, m, t, w);
    forall v | 0 <= v < k.consumers && v / WARP == b ensures NotPast(s'.threads[v], p) {
      assert NotPast(s.threads[v], p);
      StaysBefore(k, s, m, v, p);
    }
  }

  /** A thread that is not past an item or an access, and is not moved on from it, is not past
      it after any step. */
  lemma StaysBefore(k: Launch, s: State, m: Move, v: nat, p: nat)
    requires Inv(k, s) && Shaped(k, s) && Enabled(k, s, m) && v < k.consumers && p < |k.script|
    requires k.script[p].Xfer? || k.script[p].Work?
    requires s.threads[v].pos <= p && !(m.Go? && m.t == v && Waiting(s, v, p))
    ensures v < |Apply(k, s, m).threads| && Apply(k, s, m).threads[v].pos <= p
    ensures NotPast(Apply(k, s, m).threads[v], p)
  {
    assert ThreadOk(k, v, s.threads[v]);
    if !(m.Go? && m.t == v) { OthersStay(k, s, m, v); }
  }

  lemma AppendRun(k: Launch, run: seq<State>, s': State)
    requires IsWarpRun(k, run) && WarpNext(k, run[|run| - 1], s')
    ensures IsWarpRun(k, run + [s'])
  {
    var longer := run + [s'];
    assert longer[..|run|] == run;
    assert Next(k, run[|run| - 1], s');
    ExtendRun(k, longer);
    forall i | 0 <= i < |longer| - 1 ensures WarpNext(k, longer[i], longer[i + 1]) {
      if i < |run| - 1 { assert WarpNext(k, run[i], run[i + 1]); }
    }
  }

  /** From before the clash, some run of whole warps leads to it. */
  lemma {:induction false} ReachClash(k: Launch, run: seq<State>, w: nat, t: nat, p: nat, b: nat, left: Remaining)
    returns (run': seq<State>)
    requires IsWarpRun(k, run) && Scene(k, w, p)
    requires Before(k, run[|run| - 1], w, t, p, b) && Measured(k, run[|run| - 1], left)
    ensures IsWarpRun(k, run') && Met(k, run'[|run'| - 1], w, t, p, b)
    decreases left.work, left.unissued, left.inflight
  {
    var s := run[|run| - 1];
    if Met(k, s, w, t, p, b) {
      run' := run;
    } else {
      var s', left' := ApproachNext(k, s, w, t, p, b, left);
      AppendRun(k, run, s');
      run' := ReachClash(k, run + [s'], w, t, p, b, left');
    }
  }

  lemma ApproachNext(k: Launch, s: State, w: nat, t: nat, p: nat, b: nat, left: Remaining)
    returns (s': State, left': Remaining)
    requires Scene(k, w, p)
    requires Before(k, s, w, t, p, b) && Measured(k, s, left) && !Met(k, s, w, t, p, b)
    ensures WarpNext(k, s, s') && Before(k, s', w, t, p, b) && Measured(k, s', left')
    ensures || left'.work < left.work
            || (left'.work == left.work
                && (left'.unissued < left.unissued
                    || (left'.unissued == left.unissued && left'.inflight < left.inflight)))
  {
    InvShaped(k, s);
    var m := Approach(k, s, w, t, p, b);
    ApproachKeeps(k, s, m, w, t, p, b);
    s' := Apply(k, s, m);
    assert Next(k, s, s');
    left' := NextDecreases(k, s, s', left);
  }

  /** A run of whole warps from the start to a state in which thread t writes the output while
      all lanes of warp b read the obstacle. */
  lemma MeetingState(k: Launch, w: nat, t: nat, p: nat, b: nat) returns (s: State)
    requires Scene(k, w, p) && t < k.consumers && t / WARP != b
    ensures WarpReachable(k, s) && Inv(k, s) && Met(k, s, w, t, p, b)
  {
    InitInv(k);
    var start := Init(k);
    assert IsWarpRun(k, [start]);
    assert Before(k, start, w, t, p, b);
    var run := ReachClash(k, [start], w, t, p, b,
                          Remaining(ThreadsWork(k, start), Unissued(k, start), InFlight(start)));
    s := run[|run| - 1];
    assert WarpReachable(k, s);
    WarpReachableReachable(k, s);
    ReachableInv(k, s);
  }

  /** Element x is written by one warp and read at the obstacle by another. */
  lemma ClashAt(k: Launch, l: Layout, a: Owners, w: nat, t: nat, p: nat, u: nat, x: nat)
    requires Scene(k, w, p) && t * WARP < k.consumers && u * WARP < k.consumers && t != u
    requires WritesPlace(l, a, t, x) && ReadsPlace(l, a, k.script[p].operand, 0, u, x)
    ensures CanClash(k, l, a, w)
  {
    DivUnique(t, WARP, 0);
    DivUnique(u, WARP, 0);
    var s := MeetingState(k, w, t * WARP, p, u);
    MetIsClash(k, l, a, s, w, t * WARP, p, u * WARP, x);
  }

  lemma MetIsClash(k: Launch, l: Layout, a: Owners, s: State, w: nat, t: nat, p: nat, u: nat, x: nat)
    requires Scene(k, w, p) && Inv(k, s) && Met(k, s, w, t, p, u / WARP)
    requires t < k.consumers && u < k.consumers && t / WARP != u / WARP
    requires WritesPlace(l, a, t / WARP, x) && ReadsPlace(l, a, k.script[p].operand, 0, u / WARP, x)
    ensures Clash(k, l, a, s, w, t, u, p, x)
  {
    ObstacleInZero(k, w);
    assert Waiting(s, u, p);
  }

  /** If the last K is in slot 0, the warp that writes the first output element meets a warp
      that still reads K. */
  lemma KClash(k: Launch, l: Layout, a: Owners, w: nat, p: nat)
    requires Scene(k, w, p) && !LastKInOne(k, w) && l.Ok() && Owned(k, l, a) && WARP < k.consumers
    ensures CanClash(k, l, a, w)
  {
    ObstacleInZero(k, w);
    var t := a.o(0);
    ClashAt(k, l, a, w, t, p, if t == 0 then 1 else 0, 0);
  }

  /** If the readers of a lone block's Q in slot 0 are not the writers, some of them meet. */
  lemma QClash(k: Launch, l: Layout, a: Owners, w: nat, p: nat)
    requires Scene(k, w, p) && LastKInOne(k, w) && Owned(k, l, a) && !OwnersAgree(l, a)
    ensures CanClash(k, l, a, w)
  {
    ObstacleInZero(k, w);
    var e: nat :| e < l.q && a.q(e) != a.o(e);
    ClashAt(k, l, a, w, a.o(e), p, a.q(e), e);
  }

  /** With a single warp there is nobody to clash with. */
  lemma OneWarpIsSafe(k: Launch, l: Layout, a: Owners, w: nat)
    requires k.consumers <= WARP
    ensures !CanClash(k, l, a, w)
  {
  }

  /** Exactly when the single-column-warp output write is free of clashes: with one warp, or
      when the last K of the tile is in slot 1 and, should it be the only K, the warps that
      read the rows of Q are those that write them. */
  lemma OutputSafeIff(k: Launch, tiles: seq<nat>, l: Layout, a: Owners, bytes: Bytes, w: nat)
    requires IsFlash(k, tiles, l, bytes) && l.warpsN == 1 && OutputAt(k.script, w, false) && Owned(k, l, a)
    ensures !CanClash(k, l, a, w) <==>
            k.consumers <= WARP || (LastKInOne(k, w) && (SeveralBlocks(k, w) || OwnersAgree(l, a)))
  {
    FlashShape(k, tiles, l, bytes);
    if k.consumers <= WARP {
      OneWarpIsSafe(k, l, a, w);
    } else if LastKInOne(k, w) && (SeveralBlocks(k, w) || OwnersAgree(l, a)) {
      forall s, t: nat, u: nat, p: nat, x: nat | WarpReachable(k, s) ensures !Clash(k, l, a, s, w, t, u, p, x) {
        WarpReachableReachable(k, s);
        ClearIsSafe(k, tiles, l, a, bytes, s, w, t, u, p, x);
      }
    } else {
      UnclearClashes(k, l, a, w);
    }
  }

  lemma UnclearClashes(k: Launch, l: Layout, a: Owners, w: nat)
    requires Shape(k.script, false) && k.stages == [2, 1] && OutputAt(k.script, w, false) && l.Ok()
    requires Owned(k, l, a) && WARP < k.consumers
    requires !(LastKInOne(k, w) && (SeveralBlocks(k, w) || OwnersAgree(l, a)))
    ensures CanClash(k, l, a, w)
  {
    ObstacleInZero(k, w);
    var p := Obstacle(k, w);
    if LastKInOne(k, w) { QClash(k, l, a, w, p); } else { KClash(k, l, a, w, p); }
  }

  // ---- the condition in terms of the block counts ----

  /** Items the Q/K ring has carried for these tiles: one Q and all K blocks of each. */
  function QKItems(tiles: seq<nat>): nat {
    if tiles == [] then 0 else QKItems(tiles[..|tiles| - 1]) + 1 + tiles[|tiles| - 1]
  }

  /** The event at which tile i is written. */
  function OutputEvent(tiles: seq<nat>, i: nat, bytes: Bytes): nat
    requires i < |tiles|
  {
    |Script(tiles[..i], false, bytes)| + 1 + 2 * tiles[i]
  }

  lemma {:induction false} ScriptPrefix(tiles: seq<nat>, i: nat, bytes: Bytes)
    requires i < |tiles|
    ensures Script(tiles[..i], false, bytes) + TileEvents(tiles[i], false, bytes) <= Script(tiles, false, bytes)
  {
    var n := |tiles| - 1;
    if i < n {
      ScriptPrefix(tiles[..n], i, bytes);
      assert tiles[..n][..i] == tiles[..i];
    }
  }

  function Count(s: seq<Event>, r: nat): nat {
    if s == [] then 0 else Count(s[..|s| - 1], r) + if s[|s| - 1].Xfer? && s[|s| - 1].ring == r then 1 else 0
  }

  lemma {:induction false} CountConcat(a: seq<Event>, b: seq<Event>, r: nat)
    ensures Count(a + b, r) == Count(a, r) + Count(b, r)
  {
    if b == [] {
      assert a + b == a;
    } else {
      CountConcat(a, b[..|b| - 1], r);
      assert (a + b)[..|a + b| - 1] == a + b[..|b| - 1];
    }
  }

  lemma {:induction false} CursorCounts(k: Launch, r: nat, p: nat)
    requires r < |k.stages| && k.stages[r] == 2 && p <= |k.script|
    ensures k.CursorAt(r, p).index == Count(k.script[..p], r) % 2
  {
    if p > 0 {
      CursorCounts(k, r, p - 1);
      assert k.script[..p][..p - 1] == k.script[..p - 1];
    }
  }

  lemma {:induction false} BlocksCount(n: nat, bytes: Bytes)
    ensures Count(Blocks(n, bytes), QK_RING) == n
  {
    if n > 0 {
      BlocksCount(n - 1, bytes);
      CountConcat(Blocks(n - 1, bytes), [Xfer(OperandK, QK_RING, bytes.k), Xfer(OperandV, V_RING, bytes.k)], QK_RING);
      CountPair(bytes);
    }
  }

  lemma CountPair(bytes: Bytes)
    ensures Count([Xfer(OperandK, QK_RING, bytes.k), Xfer(OperandV, V_RING, bytes.k)], QK_RING) == 1
    ensures Count([Xfer(OperandQ, QK_RING, bytes.q)], QK_RING) == 1
  {
    CountConcat([Xfer(OperandK, QK_RING, bytes.k)], [Xfer(OperandV, V_RING, bytes.k)], QK_RING);
  }

  lemma {:induction false} NoneCounted(s: seq<Event>, r: nat)
    requires forall e | e in s :: !e.Xfer?
    ensures Count(s, r) == 0
  {
    if s != [] { NoneCounted(s[..|s| - 1], r); }
  }

  lemma {:induction false} ScriptCount(tiles: seq<nat>, bytes: Bytes)
    ensures Count(Script(tiles, false, bytes), QK_RING) == QKItems(tiles)
  {
    if tiles != [] {
      var n := |tiles| - 1;
      ScriptCount(tiles[..n], bytes);
      CountConcat(Script(tiles[..n], false, bytes), TileEvents(tiles[n], false, bytes), QK_RING);
      CountConcat([Xfer(OperandQ, QK_RING, bytes.q)] + Blocks(tiles[n], bytes), Epilogue(false), QK_RING);
      CountConcat([Xfer(OperandQ, QK_RING, bytes.q)], Blocks(tiles[n], bytes), QK_RING);
      CountPair(bytes);
      BlocksCount(tiles[n], bytes);
      NoneCounted(Epilogue(false), QK_RING);
    }
  }

  lemma Within(s: seq<Event>, a: seq<Event>, b: seq<Event>, c: seq<Event>, p: nat)
    requires a + b <= s && c <= b
    ensures s[..|a| + |c|] == a + c
    ensures p < |b| ==> s[|a| + p] == b[p]
    ensures OutputAt(b, p, false) ==> OutputAt(s, |a| + p, false)
  {
    assert forall i | 0 <= i < |b| :: s[|a| + i] == (a + b)[|a| + i] == b[i];
  }

  lemma OutputPlace(k: Launch, tiles: seq<nat>, l: Layout, bytes: Bytes, i: nat)
    requires IsFlash(k, tiles, l, bytes) && l.warpsN == 1 && i < |tiles|
    ensures Script(tiles[..i], false, bytes) + TileEvents(tiles[i], false, bytes) <= k.script
    ensures OutputAt(k.script, OutputEvent(tiles, i, bytes), false)
  {
    ScriptPrefix(tiles, i, bytes);
    TileOutput(tiles[i], false, bytes);
    Within(k.script, Script(tiles[..i], false, bytes), TileEvents(tiles[i], false, bytes), [], 1 + 2 * tiles[i]);
  }

  lemma OutputNeighbour(k: Launch, tiles: seq<nat>, l: Layout, bytes: Bytes, i: nat)
    requires IsFlash(k, tiles, l, bytes) && l.warpsN == 1 && i < |tiles|
    requires OutputEvent(tiles, i, bytes) < |k.script|
    ensures var e := k.script[OutputEvent(tiles, i, bytes) - 3];
            e.Xfer? && e.operand == if tiles[i] == 1 then OperandQ else OperandV
  {
    var n, a, b := tiles[i], Script(tiles[..i], false, bytes), TileEvents(tiles[i], false, bytes);
    OutputPlace(k, tiles, l, bytes, i);
    TileEvent(n, false, bytes, 0);
    TileEvent(n, false, bytes, 2 * n - 2);
    Within(k.script, a, b, [], 2 * n - 2);
  }

  lemma ItemsBeforeLastK(tiles: seq<nat>, n: nat, bytes: Bytes)
    requires 1 <= n
    ensures |[Xfer(OperandQ, QK_RING, bytes.q)] + Blocks(n - 1, bytes)| == 2 * n - 1
    ensures [Xfer(OperandQ, QK_RING, bytes.q)] + Blocks(n - 1, bytes) <= TileEvents(n, false, bytes)
    ensures Count(Script(tiles, false, bytes) + ([Xfer(OperandQ, QK_RING, bytes.q)] + Blocks(n - 1, bytes)), QK_RING)
            == QKItems(tiles) + n
  {
    CountConcat(Script(tiles, false, bytes), [Xfer(OperandQ, QK_RING, bytes.q)] + Blocks(n - 1, bytes), QK_RING);
    LoadsBeforeLastK(n, bytes);
    ScriptCount(tiles, bytes);
  }

  lemma LoadsBeforeLastK(n: nat, bytes: Bytes)
    requires 1 <= n
    ensures var loads := [Xfer(OperandQ, QK_RING, bytes.q)] + Blocks(n - 1, bytes);
            Count(loads, QK_RING) == n && |loads| == 2 * n - 1 && loads <= TileEvents(n, false, bytes)
  {
    CountConcat([Xfer(OperandQ, QK_RING, bytes.q)], Blocks(n - 1, bytes), QK_RING);
    CountPair(bytes);
    BlocksCount(n - 1, bytes);
    BlocksShape(n - 1, bytes);
  }

  lemma BeforeLastK(s: seq<Event>, tiles: seq<nat>, i: nat, bytes: Bytes)
    requires i < |tiles| && 1 <= tiles[i] && 2 <= OutputEvent(tiles, i, bytes) <= |s|
    requires Script(tiles[..i], false, bytes) + TileEvents(tiles[i], false, bytes) <= s
    ensures Count(s[..OutputEvent(tiles, i, bytes) - 2], QK_RING) == QKItems(tiles[..i]) + tiles[i]
  {
    var c := [Xfer(OperandQ, QK_RING, bytes.q)] + Blocks(tiles[i] - 1, bytes);
    ItemsBeforeLastK(tiles[..i], tiles[i], bytes);
    Within(s, Script(tiles[..i], false, bytes), TileEvents(tiles[i], false, bytes), c, 0);
  }

  /** Where tile i is written, and in which slot its last K block travels. */
  lemma LastKSlot(k: Launch, tiles: seq<nat>, l: Layout, bytes: Bytes, i: nat)
    requires IsFlash(k, tiles, l, bytes) && l.warpsN == 1 && i < |tiles|
    requires 2 <= OutputEvent(tiles, i, bytes) <= |k.script|
    ensures k.CursorAt(QK_RING, OutputEvent(tiles, i, bytes) - 2).index == (QKItems(tiles[..i]) + tiles[i]) % 2
  {
    var p := OutputEvent(tiles, i, bytes) - 2;
    OutputPlace(k, tiles, l, bytes, i);
    BeforeLastK(k.script, tiles, i, bytes);
    CursorCounts(k, QK_RING, p);
  }

  /** The last K block of tile i travels in slot 1, and if it is the only one, Q's readers are
      O's writers. */
  ghost predicate TileClear(tiles: seq<nat>, l: Layout, a: Owners, i: nat)
    requires i < |tiles|
  {
    (QKItems(tiles[..i]) + tiles[i]) % 2 == 1 && (2 <= tiles[i] || OwnersAgree(l, a))
  }

  /** Tile i of a block with one column warp writes its output safely in every run if and
      only if there is one warp, or its last K block travels in slot 1, which the block counts
      so far decide, and, should it be the only one, Q's readers are O's writers. */
  lemma TileSafeIff(k: Launch, tiles: seq<nat>, l: Layout, a: Owners, bytes: Bytes, i: nat)
    requires IsFlash(k, tiles, l, bytes) && l.warpsN == 1 && i < |tiles| && Owned(k, l, a)
    ensures !CanClash(k, l, a, OutputEvent(tiles, i, bytes)) <==> k.consumers <= WARP || TileClear(tiles, l, a, i)
  {
    OutputPlace(k, tiles, l, bytes, i);
    OutputNeighbour(k, tiles, l, bytes, i);
    LastKSlot(k, tiles, l, bytes, i);
    OutputSafeIff(k, tiles, l, a, bytes, OutputEvent(tiles, i, bytes));
  }

  lemma {:induction false} UniformItems(tiles: seq<nat>, n: nat)
    requires forall i | 0 <= i < |tiles| :: tiles[i] == n
    ensures QKItems(tiles) == |tiles| * (n + 1)
  {
    if tiles != [] {
      UniformItems(tiles[..|tiles| - 1], n);
      MulDist(|tiles| - 1, 1, n + 1);
    }
  }

  lemma OddTileClear(tiles: seq<nat>, l: Layout, a: Owners, n: nat, i: nat)
    requires i < |tiles| && OwnersAgree(l, a) && n % 2 == 1 && forall j | 0 <= j < |tiles| :: tiles[j] == n
    ensures TileClear(tiles, l, a, i)
  {
    OddTile(tiles, n, i);
  }

  lemma FirstTileClear(tiles: seq<nat>, l: Layout, a: Owners)
    requires tiles != [] && OwnersAgree(l, a)
    ensures TileClear(tiles, l, a, 0) <==> tiles[0] % 2 == 1
  {
    assert QKItems(tiles[..0]) == 0;
  }

  /** If all tiles have n K blocks, as without a causal mask, and several warps each read the
      rows they write, all outputs are safe exactly if n is odd; otherwise already the first
      tile's is not. */
  lemma UniformSafeIff(k: Launch, tiles: seq<nat>, l: Layout, a: Owners, bytes: Bytes, n: nat)
    requires IsFlash(k, tiles, l, bytes) && l.warpsN == 1 && tiles != [] && Owned(k, l, a) && OwnersAgree(l, a)
    requires WARP < k.consumers && forall i | 0 <= i < |tiles| :: tiles[i] == n
    ensures (forall i | 0 <= i < |tiles| :: !CanClash(k, l, a, OutputEvent(tiles, i, bytes))) <==> n % 2 == 1
  {
    FirstTileClear(tiles, l, a);
    TileSafeIff(k, tiles, l, a, bytes, 0);
    if n % 2 == 1 {
      forall i | 0 <= i < |tiles| ensures !CanClash(k, l, a, OutputEvent(tiles, i, bytes)) {
        OddTileClear(tiles, l, a, n, i);
        TileSafeIff(k, tiles, l, a, bytes, i);
      }
    }
  }

  lemma OddTile(tiles: seq<nat>, n: nat, i: nat)
    requires n % 2 == 1 && i < |tiles| && forall j | 0 <= j < |tiles| :: tiles[j] == n
    ensures (QKItems(tiles[..i]) + n) % 2 == 1
  {
    UniformItems(tiles[..i], n);
    EvenSum(i, n, QKItems(tiles[..i]));
  }

  lemma EvenSum(i: nat, n: nat, items: nat)
    requires n % 2 == 1 && items == i * (n + 1)
    ensures (items + n) % 2 == 1
  {
    EvenProduct(i, n + 1);
  }

  lemma EvenProduct(i: nat, n: nat)
    requires n % 2 == 0
    ensures i * n % 2 == 0
  {
    assert i * n == i * (n / 2) * 2;
  }

  // ---- the warps of the kernels ----

  /** rowOf gives the row of each element of a Q or output tile; every row has elements. */
  ghost predicate IsTileLayout(l: Layout, g: Fragments.Grid, rowOf: nat -> nat)
    requires g.Ok()
  {
    && (forall e: nat | e < l.q :: rowOf(e) < g.Rows())
    && (forall row: nat | row < g.Rows() :: HasRow(l, rowOf, row))
  }

  ghost predicate HasRow(l: Layout, rowOf: nat -> nat, row: nat) {
    exists e: nat :: e < l.q && rowOf(e) == row
  }

  /** Q is read by the warps of the QK product, the output written by those of the PV product. */
  function OwnersOf(g: Fragments.Grid, rowOf: nat -> nat): Owners
    requires g.Ok()
  {
    Owners(e => Fragments.QKWarp(g, rowOf(e)), e => Fragments.PVWarp(g, rowOf(e)))
  }

  lemma OwnersInLaunch(k: Launch, l: Layout, g: Fragments.Grid, rowOf: nat -> nat)
    requires g.Ok() && IsTileLayout(l, g, rowOf) && k.consumers == g.warpsM * WARP
    ensures Owned(k, l, OwnersOf(g, rowOf))
  {
    forall e: nat | e < l.q
      ensures OwnersOf(g, rowOf).q(e) * WARP < k.consumers && OwnersOf(g, rowOf).o(e) * WARP < k.consumers
    {
      Fragments.WarpsInGrid(g, rowOf(e));
    }
  }

  lemma OwnersAgreeIff(l: Layout, g: Fragments.Grid, rowOf: nat -> nat)
    requires g.Ok() && IsTileLayout(l, g, rowOf)
    ensures OwnersAgree(l, OwnersOf(g, rowOf)) <==> g.strided || g.m1s == 1 || g.warpsM == 1
  {
    Fragments.RowWarpsIff(g);
    var a := OwnersOf(g, rowOf);
    if OwnersAgree(l, a) {
      forall row: nat | row < g.Rows() ensures Fragments.SameWarp(g, row) {
        assert HasRow(l, rowOf, row);
        var e: nat :| e < l.q && rowOf(e) == row;
        assert a.q(e) == a.o(e);
      }
    } else {
      var e: nat :| e < l.q && a.q(e) != a.o(e);
      assert !Fragments.SameWarp(g, rowOf(e));
    }
  }

  /** Tile i of a launch with warpsM warps, blocked or strided: safe in every run if and only
      if there is one warp, or its last K block travels in slot 1 and it has several K blocks
      or warps whose rows agree, as in every generated configuration and in v3_mMn1k1. */
  lemma LaunchTileSafeIff(k: Launch, tiles: seq<nat>, l: Layout, g: Fragments.Grid, rowOf: nat -> nat,
                          bytes: Bytes, i: nat)
    requires IsFlash(k, tiles, l, bytes) && l.warpsN == 1 && i < |tiles|
    requires g.Ok() && IsTileLayout(l, g, rowOf) && k.consumers == g.warpsM * WARP
    ensures !CanClash(k, l, OwnersOf(g, rowOf), OutputEvent(tiles, i, bytes)) <==>
            || g.warpsM == 1
            || ((QKItems(tiles[..i]) + tiles[i]) % 2 == 1 && (2 <= tiles[i] || g.strided || g.m1s == 1))
  {
    OwnersInLaunch(k, l, g, rowOf);
    TileSafeIff(k, tiles, l, OwnersOf(g, rowOf), bytes, i);
    OwnersAgreeIff(l, g, rowOf);
    ClearWhen(tiles, l, OwnersOf(g, rowOf), i, g.strided || g.m1s == 1 || g.warpsM == 1);
  }

  lemma ClearWhen(tiles: seq<nat>, l: Layout, a: Owners, i: nat, agree: bool)
    requires i < |tiles| && (OwnersAgree(l, a) <==> agree)
    ensures TileClear(tiles, l, a, i) <==> (QKItems(tiles[..i]) + tiles[i]) % 2 == 1 && (2 <= tiles[i] || agree)
  {
  }
}
