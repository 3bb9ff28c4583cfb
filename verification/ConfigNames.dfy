/** Names of FlashAttention configurations, and the list the generator builds from names. */
module ConfigNames {
  import opened Smem

  datatype Option<T> = None | Some(value: T)

  predicate IsDigit(c: char) { '0' <= c <= '9' }

  function Digits(n: nat): (s: string)
    ensures s != "" && forall i | 0 <= i < |s| :: IsDigit(s[i])
  {
    if n < 10 then ['0' + n as char] else Digits(n / 10) + ['0' + (n % 10) as char]
  }

  function Number(s: string): nat
    requires forall i | 0 <= i < |s| :: IsDigit(s[i])
  {
    if s == "" then 0 else
    assert IsDigit(s[|s| - 1]);
    10 * Number(s[..|s| - 1]) + (s[|s| - 1] as nat - '0' as nat)
  }

  lemma {:induction false} NumberOfDigits(n: nat)
    ensures Number(Digits(n)) == n
  {
    if n >= 10 {
      NumberOfDigits(n / 10);
      assert Digits(n)[..|Digits(n)| - 1] == Digits(n / 10);
    } else {
      assert Digits(n)[..0] == "";
    }
  }

  /** Length of the longest prefix of digits. */
  function DigitCount(s: string): (n: nat)
    ensures n <= |s| && forall i | 0 <= i < n :: IsDigit(s[i])
  {
    if s == "" || !IsDigit(s[0]) then 0 else 1 + DigitCount(s[1..])
  }

  lemma {:induction false} CountDigits(a: string, rest: string)
    requires forall i | 0 <= i < |a| :: IsDigit(a[i])
    requires rest == "" || !IsDigit(rest[0])
    ensures DigitCount(a + rest) == |a|
  {
    if a != "" {
      CountDigits(a[1..], rest);
      assert (a + rest)[1..] == a[1..] + rest;
    }
  }

  /** A literal prefix and a number; the rest of the text remains. */
  function Field(prefix: string, s: string): Option<(nat, string)> {
    if !(prefix <= s) then None else
    var tail := s[|prefix|..];
    var n := DigitCount(tail);
    if n == 0 then None else Some((Number(tail[..n]), tail[n..]))
  }

  lemma FieldRoundTrip(prefix: string, n: nat, rest: string)
    requires rest == "" || !IsDigit(rest[0])
    ensures Field(prefix, prefix + Digits(n) + rest) == Some((n, rest))
  {
    var s := prefix + Digits(n) + rest;
    var tail := Digits(n) + rest;
    assert s[|prefix|..] == tail;
    CountDigits(Digits(n), rest);
    assert tail[..|Digits(n)|] == Digits(n);
    NumberOfDigits(n);
  }

  const PREFIXES: seq<string> := ["hd", "_bm", "_bn", "_wm", "_wn", "_s"]

  /** The fields of a name, one after the other. */
  function Format(prefixes: seq<string>, values: seq<nat>): string
    requires |prefixes| == |values|
  {
    if values == [] then "" else prefixes[0] + Digits(values[0]) + Format(prefixes[1..], values[1..])
  }

  /** Matching a name; the pattern's end also matches before a final newline. */
  function Scan(prefixes: seq<string>, s: string): Option<seq<nat>> {
    if prefixes == [] then if s == "" || s == "\n" then Some([]) else None
    else match Field(prefixes[0], s)
      case None => None
      case Some((n, rest)) =>
        match Scan(prefixes[1..], rest)
        case None => None
        case Some(values) => Some([n] + values)
  }

  /** Scanning a name gives its numbers back. */
  lemma {:induction false} ScanFormat(prefixes: seq<string>, values: seq<nat>)
    requires |prefixes| == |values|
    requires forall i | 0 <= i < |prefixes| :: prefixes[i] != "" && !IsDigit(prefixes[i][0])
    ensures Scan(prefixes, Format(prefixes, values)) == Some(values)
  {
    if values != [] {
      ScanFormat(prefixes[1..], values[1..]);
      var rest := Format(prefixes[1..], values[1..]);
      if |values| > 1 { assert rest[0] == prefixes[1][0]; }
      FieldRoundTrip(prefixes[0], values[0], rest);
      assert [values[0]] + values[1..] == values;
    }
  }

  predicate Nameable(c: FlashConfig) {
    0 <= c.headDim && 0 <= c.blockM && 0 <= c.blockN && 0 <= c.warpsM && 0 <= c.warpsN && 0 <= c.stage
  }

  function ConfigName(c: FlashConfig): string
    requires Nameable(c)
  {
    Format(PREFIXES, [c.headDim, c.blockM, c.blockN, c.warpsM, c.warpsN, c.stage])
  }

  function ParseName(name: string): Option<FlashConfig> {
    match Scan(PREFIXES, name)
    case None => None
    case Some(v) => if |v| == 6 then Some(FlashConfig(v[0], v[1], v[2], v[3], v[4], v[5])) else None
  }

  /** Parsing the name of a configuration gives the configuration back. */
  lemma ParseConfigName(c: FlashConfig)
    requires Nameable(c)
    ensures ParseName(ConfigName(c)) == Some(c)
  {
    ScanFormat(PREFIXES, [c.headDim, c.blockM, c.blockN, c.warpsM, c.warpsN, c.stage]);
  }

  lemma FormatFirst(p: string, ps: seq<string>, v: nat, vs: seq<nat>)
    requires |ps| == |vs|
    ensures Format([p] + ps, [v] + vs) == p + Digits(v) + Format(ps, vs)
  {
    assert ([p] + ps)[1..] == ps && ([v] + vs)[1..] == vs;
  }

  /** A name spelled out, as in hd64_bm64_bn64_wm4_wn2_s2. */
  lemma NameSpelled(a: nat, b: nat, c: nat, d: nat, e: nat, f: nat)
    ensures ConfigName(FlashConfig(a, b, c, d, e, f)) ==
            "hd" + Digits(a) + ("_bm" + Digits(b) + ("_bn" + Digits(c)
            + ("_wm" + Digits(d) + ("_wn" + Digits(e) + ("_s" + Digits(f) + "")))))
  {
    FormatFirst("_s", [], f, []);
    FormatFirst("_wn", ["_s"], e, [f]);
    FormatFirst("_wm", ["_wn", "_s"], d, [e, f]);
    FormatFirst("_bn", ["_wm", "_wn", "_s"], c, [d, e, f]);
    FormatFirst("_bm", ["_bn", "_wm", "_wn", "_s"], b, [c, d, e, f]);
    FormatFirst("hd", ["_bm", "_bn", "_wm", "_wn", "_s"], a, [b, c, d, e, f]);
    assert ["_s"] + [] == ["_s"] && [f] + [] == [f];
    assert ["_wn"] + ["_s"] == ["_wn", "_s"] && [e] + [f] == [e, f];
    assert ["_wm"] + ["_wn", "_s"] == ["_wm", "_wn", "_s"] && [d] + [e, f] == [d, e, f];
    assert ["_bn"] + ["_wm", "_wn", "_s"] == ["_bn", "_wm", "_wn", "_s"] && [c] + [d, e, f] == [c, d, e, f];
    assert ["_bm"] + ["_bn", "_wm", "_wn", "_s"] == ["_bm", "_bn", "_wm", "_wn", "_s"];
    assert [b] + [c, d, e, f] == [b, c, d, e, f];
    assert ["hd"] + ["_bm", "_bn", "_wm", "_wn", "_s"] == PREFIXES && [a] + [b, c, d, e, f] == [a, b, c, d, e, f];
  }

  /** Names whose configurations are listed: fails if a name is malformed or names an invalid
      configuration, otherwise lists exactly the named configurations, each once. */
  method NamedConfigs(names: seq<string>, maxSmem: nat) returns (configs: Option<seq<FlashConfig>>)
    ensures configs.None? <==> exists i :: 0 <= i < |names| && !Accepted(names[i], maxSmem)
    ensures configs.Some? ==> forall i | 0 <= i < |names| :: ParseName(names[i]).value in configs.value
    ensures configs.Some? ==> forall c | c in configs.value :: FlashValid(c, maxSmem) && Named(names, c)
    ensures configs.Some? ==> Distinct(configs.value)
  {
    var list: seq<FlashConfig> := [];
    for i := 0 to |names|
      invariant forall j | 0 <= j < i :: Accepted(names[j], maxSmem) && ParseName(names[j]).value in list
      invariant forall c | c in list :: FlashValid(c, maxSmem) && Named(names, c)
      invariant Distinct(list)
    {
      var c := ParseName(names[i]);
      if c.None? { return None; }
      var valid := IsValidConfig(c.value, maxSmem);
      if !valid { return None; }
      list := AppendUnique(list, c.value);
    }
    configs := Some(list);
  }

  ghost predicate Named(names: seq<string>, c: FlashConfig) {
    exists i :: 0 <= i < |names| && ParseName(names[i]) == Some(c)
  }

  ghost predicate Distinct<T(!new)>(list: seq<T>) {
    forall i, j | 0 <= i < j < |list| :: list[i] != list[j]
  }

  ghost predicate Accepted(name: string, maxSmem: nat) {
    ParseName(name).Some? && FlashValid(ParseName(name).value, maxSmem)
  }

  /** append_unique_config compares names; that is as good as comparing configurations. */
  method AppendUnique(list: seq<FlashConfig>, c: FlashConfig) returns (r: seq<FlashConfig>)
    requires Nameable(c) && forall x | x in list :: Nameable(x)
    ensures r == if c in list then list else list + [c]
  {
    r := list;
    var found := false;
    for i := 0 to |list|
      invariant found <==> c in list[..i]
    {
      ParseConfigName(c);
      ParseConfigName(list[i]);
      if ConfigName(list[i]) == ConfigName(c) { found := true; }
    }
    if !found { r := list + [c]; }
  }

  method IsValidConfig(c: FlashConfig, maxSmem: nat) returns (ok: bool)
    ensures ok <==> FlashValid(c, maxSmem)
  {
    ok := c.headDim > 0 && c.blockM > 0 && c.blockN > 0 && c.warpsM > 0 && c.warpsN > 0 && c.stage > 0
          && c.blockM / 16 * (c.blockN / 16) > 4
          && 4 < c.warpsM * c.warpsN <= 8
          && c.headDim % 32 == 0 && c.stage == 2
          && c.blockM == c.warpsM * 16
          && c.blockN % (c.warpsN * 16) == 0
          && (4 + c.warpsM * c.warpsN) * 32 <= 1024;
    if ok {
      var bytes := FlashSmemBytes(c.headDim, c.blockM, c.blockN, c.warpsN, c.stage);
      ok := bytes <= maxSmem;
    }
  }

  // ---- the default list ----

  lemma DistinctConcat<T(!new)>(a: seq<T>, b: seq<T>)
    requires Distinct(a) && Distinct(b) && forall x | x in a :: x !in b
    ensures Distinct(a + b)
  {
    forall i, j | 0 <= i < j < |a + b| ensures (a + b)[i] != (a + b)[j] {
      if i < |a| <= j { assert a[i] !in b; }
    }
  }

  const HEAD_DIMS: seq<nat> := [64, 128]
  const BLOCK_MS: seq<nat> := [32, 64, 128]
  const WARP_RANGE: seq<nat> := [16, 32, 64]

  function BlockNs(headDim: nat): seq<nat> {
    if headDim == 64 then [32, 64, 128] else [32, 64]
  }

  /** The warp counts that split a block into warps of one of the ranges. */
  ghost predicate Splits(block: nat, warps: nat) {
    exists r :: r in WARP_RANGE && block % r == 0 && warps == block / r && warps > 0
  }

  /** The quotients of `block` by the ranges that divide it. */
  method WarpCounts(block: nat) returns (counts: seq<nat>)
    ensures forall w: nat :: w in counts <==> Splits(block, w)
    ensures Distinct(counts)
  {
    counts := [];
    for i := 0 to |WARP_RANGE|
      invariant forall w: nat :: w in counts <==>
                  exists a :: 0 <= a < i && block % WARP_RANGE[a] == 0 && w == block / WARP_RANGE[a] && w > 0
      invariant Distinct(counts)
    {
      var r := WARP_RANGE[i];
      if block % r == 0 && block / r > 0 && block / r !in counts { counts := counts + [block / r]; }
    }
    forall w: nat ensures w in counts <==> Splits(block, w) {
      if Splits(block, w) {
        var r :| r in WARP_RANGE && block % r == 0 && w == block / r && w > 0;
        var a :| 0 <= a < |WARP_RANGE| && WARP_RANGE[a] == r;
      }
      if w in counts {
        var a :| 0 <= a < |WARP_RANGE| && block % WARP_RANGE[a] == 0 && w == block / WARP_RANGE[a] && w > 0;
        assert WARP_RANGE[a] in WARP_RANGE;
      }
    }
  }

  ghost predicate IsShape(blockM: nat, blockN: nat, shape: (nat, nat)) {
    Splits(blockM, shape.0) && Splits(blockN, shape.1)
  }

  /** warp_shapes: every pair of warp counts, once. */
  method WarpShapes(blockM: nat, blockN: nat) returns (shapes: seq<(nat, nat)>)
    ensures forall s :: s in shapes <==> IsShape(blockM, blockN, s)
    ensures Distinct(shapes)
  {
    var ms := WarpCounts(blockM);
    var ns := WarpCounts(blockN);
    shapes := [];
    for i := 0 to |ms|
      invariant forall s :: s in shapes <==> s.0 in ms[..i] && s.1 in ns
      invariant Distinct(shapes)
    {
      ghost var before := shapes;
      for j := 0 to |ns|
        invariant forall s :: s in shapes <==> s in before || (s.0 == ms[i] && s.1 in ns[..j])
        invariant Distinct(shapes)
      {
        assert ms[i] !in ms[..i] && ns[j] !in ns[..j];
        shapes := shapes + [(ms[i], ns[j])];
      }
    }
    assert ms[..|ms|] == ms;
  }

  /** Which configurations the tables list for a head dimension and a block shape. */
  ghost predicate Offered(c: FlashConfig, headDim: nat, blockM: nat, blockN: nat) {
    && c.headDim == headDim && c.blockM == blockM && c.blockN == blockN && c.stage == 2
    && 0 <= c.warpsM && 0 <= c.warpsN && IsShape(blockM, blockN, (c.warpsM, c.warpsN))
  }

  method BlockConfigs(headDim: nat, blockM: nat, blockN: nat, maxSmem: nat) returns (configs: seq<FlashConfig>)
    ensures forall c :: c in configs <==> Offered(c, headDim, blockM, blockN) && FlashValid(c, maxSmem)
    ensures Distinct(configs)
  {
    var shapes := WarpShapes(blockM, blockN);
    configs := [];
    for i := 0 to |shapes|
      invariant forall c :: c in configs <==>
                  Offered(c, headDim, blockM, blockN) && FlashValid(c, maxSmem) && (c.warpsM, c.warpsN) in shapes[..i]
      invariant Distinct(configs)
    {
      var c := FlashConfig(headDim, blockM, blockN, shapes[i].0, shapes[i].1, 2);
      assert shapes[i] !in shapes[..i];
      var valid := IsValidConfig(c, maxSmem);
      if valid { configs := configs + [c]; }
    }
    assert shapes[..|shapes|] == shapes;
  }

  ghost predicate Listed(c: FlashConfig) {
    exists h, m, n :: h in HEAD_DIMS && m in BLOCK_MS && n in BlockNs(h) && Offered(c, h, m, n)
  }

  /** The block shapes of a head dimension. */
  method HeadConfigs(headDim: nat, maxSmem: nat) returns (configs: seq<FlashConfig>)
    ensures forall c :: c in configs <==>
              (exists m, n :: m in BLOCK_MS && n in BlockNs(headDim) && Offered(c, headDim, m, n))
              && FlashValid(c, maxSmem)
    ensures Distinct(configs)
  {
    configs := [];
    var ms, ns := BLOCK_MS, BlockNs(headDim);
    for i := 0 to |ms|
      invariant forall c :: c in configs <==>
                  (exists m, n :: m in ms[..i] && n in ns && Offered(c, headDim, m, n)) && FlashValid(c, maxSmem)
      invariant Distinct(configs)
    {
      ghost var before := configs;
      for j := 0 to |ns|
        invariant forall c :: c in configs <==>
                    || c in before
                    || ((exists n :: n in ns[..j] && Offered(c, headDim, ms[i], n)) && FlashValid(c, maxSmem))
        invariant Distinct(configs)
      {
        var more := BlockConfigs(headDim, ms[i], ns[j], maxSmem);
        assert ms[i] !in ms[..i] && ns[j] !in ns[..j];
        DistinctConcat(configs, more);
        configs := configs + more;
      }
    }
    assert ms[..|ms|] == ms;
  }

  /** default_configs: exactly the valid configurations of the tables, each once. */
  method DefaultConfigs(maxSmem: nat) returns (configs: seq<FlashConfig>)
    ensures forall c :: c in configs <==> Listed(c) && FlashValid(c, maxSmem)
    ensures Distinct(configs)
  {
    var first := HeadConfigs(HEAD_DIMS[0], maxSmem);
    var second := HeadConfigs(HEAD_DIMS[1], maxSmem);
    DistinctConcat(first, second);
    configs := first + second;
  }

  /** generate_configs: the named configurations, or all defaults if there are no names. */
  method GenerateConfigs(maxSmemKb: nat, names: seq<string>) returns (configs: Option<seq<FlashConfig>>)
    ensures configs.None? <==> exists i :: 0 <= i < |names| && !Accepted(names[i], maxSmemKb * 1024)
    ensures configs.Some? ==> Distinct(configs.value)
    ensures configs.Some? ==> forall c ::
              c in configs.value <==>
              FlashValid(c, maxSmemKb * 1024) && if names == [] then Listed(c) else Named(names, c)
  {
    if names == [] {
      var all := DefaultConfigs(maxSmemKb * 1024);
      configs := Some(all);
    } else {
      configs := NamedConfigs(names, maxSmemKb * 1024);
    }
  }
}
