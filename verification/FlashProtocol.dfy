/** The script of one FlashAttention thread block and the safety of its shared memory. */
module FlashProtocol {
  import opened Machine
  import opened Overlay

  const QK_RING: nat := 0
  const V_RING: nat := 1

  datatype Bytes = Bytes(q: nat, k: nat)

  function Blocks(n: nat, bytes: Bytes): seq<Event> {
    if n == 0 then [] else
    Blocks(n - 1, bytes) + [Xfer(OperandK, QK_RING, bytes.k), Xfer(OperandV, V_RING, bytes.k)]
  }

  /** normalize_stats and O_store, then the bulk store and the block-wide rendezvous. With
      several column warps the statistics and the partial outputs are exchanged first. */
  function Epilogue(multi: bool): seq<Event> {
    (if multi then [Work(SaveStats), Sync(EPILOGUE), Work(SavePartial), Sync(EPILOGUE)] else [])
    + [Work(WriteOutput), Sync(EPILOGUE), StoreIssue, StoreWait, Sync(BLOCK)]
  }

  function TileEvents(blocks: nat, multi: bool, bytes: Bytes): seq<Event> {
    [Xfer(OperandQ, QK_RING, bytes.q)] + Blocks(blocks, bytes) + Epilogue(multi)
  }

  /** tiles[i] is the number of K/V blocks of the i-th tile. */
  function Script(tiles: seq<nat>, multi: bool, bytes: Bytes): seq<Event> {
    if tiles == [] then [] else
    Script(tiles[..|tiles| - 1], multi, bytes) + TileEvents(tiles[|tiles| - 1], multi, bytes)
  }

  ghost predicate IsFlash(k: Launch, tiles: seq<nat>, l: Layout, bytes: Bytes) {
    && k.script == Script(tiles, l.warpsN > 1, bytes)
    && k.stages == [2, 1] && l.Ok()
    && forall i | 0 <= i < |tiles| :: 1 <= tiles[i]
  }

  // ---- local structure of the script ----

  ghost predicate XferShape(s: seq<Event>, p: nat)
    requires p < |s| && s[p].Xfer?
  {
    match s[p].operand
    case OperandQ => s[p].ring == QK_RING && p + 1 < |s| && s[p + 1].Xfer? && s[p + 1].operand == OperandK
                     && s[p + 1].ring == QK_RING && (p == 0 || s[p - 1] == Sync(BLOCK))
    case OperandK => s[p].ring == QK_RING
    case OperandV => s[p].ring == V_RING
    case OperandAB => false
  }

  /** p is the event at which the consumers write the output tile. */
  ghost predicate OutputAt(s: seq<Event>, p: nat, multi: bool) {
    && p + 4 < |s| && s[p] == Work(WriteOutput)
    && s[p + 1] == Sync(EPILOGUE) && s[p + 2].StoreIssue? && s[p + 3].StoreWait? && s[p + 4] == Sync(BLOCK)
    && if multi then
         && 4 <= p && s[p - 4] == Work(SaveStats) && s[p - 3] == Sync(EPILOGUE)
         && s[p - 2] == Work(SavePartial) && s[p - 1] == Sync(EPILOGUE)
       else
         && 3 <= p && s[p - 1].Xfer? && s[p - 1].operand == OperandV
         && s[p - 2].Xfer? && s[p - 2].operand == OperandK
         && s[p - 3].Xfer? && s[p - 3].operand in {OperandQ, OperandV}
  }

  ghost predicate EventShape(s: seq<Event>, p: nat, multi: bool)
    requires p < |s|
  {
    match s[p]
    case Xfer(_, _, _) => XferShape(s, p)
    case Work(WriteOutput) => OutputAt(s, p, multi)
    case Work(SavePartial) => multi && OutputAt(s, p + 2, multi)
    case Work(SaveStats) => multi && OutputAt(s, p + 4, multi)
    case StoreIssue => 2 <= p && OutputAt(s, p - 2, multi)
    case _ => true
  }

  ghost predicate Shape(s: seq<Event>, multi: bool) {
    && (forall p | 0 <= p < |s| :: EventShape(s, p, multi))
    && (s != [] ==> s[|s| - 1] == Sync(BLOCK))
  }

  lemma OutputConcat(a: seq<Event>, b: seq<Event>, multi: bool, p: nat)
    ensures OutputAt(a, p, multi) ==> OutputAt(a + b, p, multi)
    ensures OutputAt(b, p, multi) ==> OutputAt(a + b, |a| + p, multi)
  {
  }

  lemma EventLeft(a: seq<Event>, b: seq<Event>, multi: bool, p: nat)
    requires p < |a| && EventShape(a, p, multi)
    ensures EventShape(a + b, p, multi)
  {
    OutputConcat(a, b, multi, p);
    OutputConcat(a, b, multi, p + 2);
    OutputConcat(a, b, multi, p + 4);
    if 2 <= p { OutputConcat(a, b, multi, p - 2); }
  }

  lemma EventRight(a: seq<Event>, b: seq<Event>, multi: bool, i: nat)
    requires i < |b| && EventShape(b, i, multi) && (a != [] ==> a[|a| - 1] == Sync(BLOCK))
    ensures EventShape(a + b, |a| + i, multi)
  {
    OutputConcat(a, b, multi, i);
    OutputConcat(a, b, multi, i + 2);
    OutputConcat(a, b, multi, i + 4);
    if 2 <= i { OutputConcat(a, b, multi, i - 2); }
  }

  lemma EventConcat(a: seq<Event>, b: seq<Event>, multi: bool, p: nat)
    requires p < |a| + |b| && Shape(a, multi) && Shape(b, multi)
    ensures EventShape(a + b, p, multi)
  {
    if p < |a| { EventLeft(a, b, multi, p); } else { EventRight(a, b, multi, p - |a|); }
  }

  /** K and V alternate. */
  lemma {:induction false} BlocksShape(n: nat, bytes: Bytes)
    ensures |Blocks(n, bytes)| == 2 * n
    ensures forall i: nat | i < 2 * n :: Blocks(n, bytes)[i] ==
              if i % 2 == 0 then Xfer(OperandK, QK_RING, bytes.k) else Xfer(OperandV, V_RING, bytes.k)
  {
    if n > 0 { BlocksShape(n - 1, bytes); }
  }

  /** The events of a tile, by index. */
  lemma TileEvent(blocks: nat, multi: bool, bytes: Bytes, p: nat)
    requires 1 <= blocks && p < |TileEvents(blocks, multi, bytes)|
    ensures |TileEvents(blocks, multi, bytes)| == 1 + 2 * blocks + |Epilogue(multi)|
    ensures TileEvents(blocks, multi, bytes)[p] ==
            if p == 0 then Xfer(OperandQ, QK_RING, bytes.q)
            else if p >= 1 + 2 * blocks then Epilogue(multi)[p - 1 - 2 * blocks]
            else if p % 2 == 1 then Xfer(OperandK, QK_RING, bytes.k) else Xfer(OperandV, V_RING, bytes.k)
  {
    BlocksShape(blocks, bytes);
  }

  lemma TileOutput(blocks: nat, multi: bool, bytes: Bytes)
    requires 1 <= blocks
    ensures |TileEvents(blocks, multi, bytes)| == 1 + 2 * blocks + |Epilogue(multi)|
    ensures OutputAt(TileEvents(blocks, multi, bytes), 1 + 2 * blocks + if multi then 4 else 0, multi)
  {
    BlocksShape(blocks, bytes);
    var s, n := TileEvents(blocks, multi, bytes), 1 + 2 * blocks;
    var w := n + if multi then 4 else 0;
    forall p | n <= p < |s| ensures s[p] == Epilogue(multi)[p - n] {
      TileEvent(blocks, multi, bytes, p);
    }
    if !multi {
      TileEvent(blocks, multi, bytes, w - 1);
      TileEvent(blocks, multi, bytes, w - 2);
      TileEvent(blocks, multi, bytes, w - 3);
    }
  }

  lemma TileEventShape(blocks: nat, multi: bool, bytes: Bytes, p: nat)
    requires 1 <= blocks && p < |TileEvents(blocks, multi, bytes)|
    ensures EventShape(TileEvents(blocks, multi, bytes), p, multi)
  {
    TileOutput(blocks, multi, bytes);
    TileEvent(blocks, multi, bytes, p);
    if p == 0 { TileEvent(blocks, multi, bytes, 1); }
  }

  lemma TileShape(blocks: nat, multi: bool, bytes: Bytes)
    requires 1 <= blocks
    ensures Shape(TileEvents(blocks, multi, bytes), multi)
  {
    forall p | 0 <= p < |TileEvents(blocks, multi, bytes)|
      ensures EventShape(TileEvents(blocks, multi, bytes), p, multi)
    {
      TileEventShape(blocks, multi, bytes, p);
    }
    TileEvent(blocks, multi, bytes, |TileEvents(blocks, multi, bytes)| - 1);
  }

  lemma {:induction false} ScriptShape(tiles: seq<nat>, multi: bool, bytes: Bytes)
    requires forall i | 0 <= i < |tiles| :: 1 <= tiles[i]
    ensures Shape(Script(tiles, multi, bytes), multi)
  {
    if tiles != [] {
      var n := |tiles| - 1;
      ScriptShape(tiles[..n], multi, bytes);
      TileShape(tiles[n], multi, bytes);
      var a, b := Script(tiles[..n], multi, bytes), TileEvents(tiles[n], multi, bytes);
      forall p | 0 <= p < |a + b| ensures EventShape(a + b, p, multi) {
        EventConcat(a, b, multi, p);
      }
    }
  }

  lemma FlashShape(k: Launch, tiles: seq<nat>, l: Layout, bytes: Bytes)
    requires IsFlash(k, tiles, l, bytes)
    ensures Shape(k.script, l.warpsN > 1)
  {
    ScriptShape(tiles, l.warpsN > 1, bytes);
  }
}
