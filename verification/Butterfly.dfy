/** Warp reductions by XOR shuffles. */
module Butterfly {
  import opened Tiles

  ghost predicate Lawful<T>(op: (T, T) -> T, a: T, b: T, c: T) {
    op(a, b) == op(b, a) && op(op(a, b), c) == op(a, op(b, c))
  }

  /** op is associative and commutative. */
  ghost predicate AssocComm<T(!new)>(op: (T, T) -> T) {
    forall a, b, c :: Lawful(op, a, b, c)
  }

  /** Left-to-right reduction. */
  function Fold<T>(op: (T, T) -> T, ys: seq<T>): T
    requires ys != []
  {
    var n := |ys| - 1;
    if n == 0 then ys[0] else op(Fold(op, ys[..n]), ys[n])
  }

  function Evens<T>(ys: seq<T>): seq<T> {
    seq((|ys| + 1) / 2, t requires 0 <= t < (|ys| + 1) / 2 => ys[2 * t])
  }

  function Odds<T>(ys: seq<T>): seq<T> {
    seq(|ys| / 2, t requires 0 <= t < |ys| / 2 => ys[2 * t + 1])
  }

  lemma FoldMore<T>(op: (T, T) -> T, ys: seq<T>, y: T)
    requires ys != []
    ensures Fold(op, ys + [y]) == op(Fold(op, ys), y)
  {
    assert (ys + [y])[..|ys|] == ys;
  }

  /** Two more values: one more even, one more odd. */
  lemma MorePlaces<T>(ys: seq<T>, c: T, d: T)
    requires |ys| % 2 == 0
    ensures Evens(ys + [c, d]) == Evens(ys) + [c] && Odds(ys + [c, d]) == Odds(ys) + [d]
  {
  }

  /** Reducing the even and the odd places separately gives the whole reduction. */
  lemma {:induction false} Interleave<T(!new)>(op: (T, T) -> T, ys: seq<T>)
    requires AssocComm(op) && ys != [] && |ys| % 2 == 0
    ensures Fold(op, ys) == op(Fold(op, Evens(ys)), Fold(op, Odds(ys)))
  {
    var n := |ys| - 2;
    var c, d, front := ys[n], ys[n + 1], ys[..n];
    assert ys == front + [c, d] == front + [c] + [d];
    MorePlaces(front, c, d);
    FoldMore(op, front + [c], d);
    if n > 0 {
      Interleave(op, front);
      FoldMore(op, front, c);
      FoldMore(op, Evens(front), c);
      FoldMore(op, Odds(front), d);
      Regroup(op, Fold(op, Evens(front)), Fold(op, Odds(front)), c, d);
    }
  }

  lemma Regroup<T(!new)>(op: (T, T) -> T, a: T, b: T, c: T, d: T)
    requires AssocComm(op)
    ensures op(op(op(a, b), c), d) == op(op(a, c), op(b, d))
  {
    assert Lawful(op, op(a, b), c, d) && Lawful(op, a, b, c) && Lawful(op, b, c, d);
    assert Lawful(op, a, c, b) && Lawful(op, op(a, c), b, d);
  }

  /** n values of xs from place `start`, `stride` places apart. */
  function Strided<T>(xs: seq<T>, start: nat, stride: nat, n: nat): (ys: seq<T>)
    requires 0 < n ==> start + (n - 1) * stride < |xs|
    ensures |ys| == n
  {
    seq(n, t requires 0 <= t < n =>
      assert start + t * stride < |xs| by { MulLe(t, n - 1, stride); }
      xs[start + t * stride])
  }

  lemma SplitStrided<T>(xs: seq<T>, start: nat, m: nat, n: nat)
    requires 0 < n && start + (2 * n - 1) * m < |xs|
    ensures start + (n - 1) * (2 * m) < |xs| && start + m + (n - 1) * (2 * m) < |xs|
    ensures Evens(Strided(xs, start, m, 2 * n)) == Strided(xs, start, 2 * m, n)
    ensures Odds(Strided(xs, start, m, 2 * n)) == Strided(xs, start + m, 2 * m, n)
  {
    TwiceStride(n - 1, m);
    var ys := Strided(xs, start, m, 2 * n);
    var es, os := Strided(xs, start, 2 * m, n), Strided(xs, start + m, 2 * m, n);
    forall t: nat | t < n ensures Evens(ys)[t] == es[t] && Odds(ys)[t] == os[t] {
      TwiceStride(t, m);
    }
  }

  lemma TwiceStride(t: nat, m: nat)
    ensures 2 * t * m == t * (2 * m) && (2 * t + 1) * m == m + t * (2 * m)
  {
    MulAssoc(t, 2, m);
    MulDist(2 * t, 1, m);
  }

  /** The lane that __shfl_xor pairs with lane i for a power-of-two mask: that bit of i
      flipped. */
  function Partner(i: nat, mask: nat): nat
    requires 0 < mask
  {
    if i / mask % 2 == 0 then i + mask else if mask <= i then i - mask else 0
  }

  ghost predicate PowerOfTwo(n: nat) {
    if n <= 1 then n == 1 else n % 2 == 0 && PowerOfTwo(n / 2)
  }

  /** The lanes of the group of `num` lanes of lane i that agree with i modulo m. */
  function Class<T>(xs: seq<T>, num: nat, m: nat, i: nat): (ys: seq<T>)
    requires 0 < m && 0 < num && num % m == 0 && |xs| % num == 0 && i < |xs|
    ensures 0 < |ys| == num / m
  {
    InGroup(|xs|, num, m, i);
    Strided(xs, i - i % num + i % m, m, num / m)
  }

  lemma InGroup(len: nat, num: nat, m: nat, i: nat)
    requires 0 < m && 0 < num && num % m == 0 && len % num == 0 && i < len
    ensures 0 < num / m && i % num <= i && i - i % num + i % m + (num / m - 1) * m < len
    ensures i - i % num + num <= len
  {
    assert num == num / m * m;
    MulDist(num / m - 1, 1, m);
    GroupFits(len, num, i);
  }

  lemma GroupFits(len: nat, num: nat, i: nat)
    requires 0 < num && len % num == 0 && i < len
    ensures i % num <= i && i - i % num + num <= len
  {
    var g, n := i / num, len / num;
    assert i == g * num + i % num && len == n * num;
    if n <= g { MulLe(n, g, num); }
    MulLe(g + 1, n, num);
    MulDist(g, 1, num);
  }

  /** What lane i holds once values of lanes equal modulo m have been combined. */
  function Partial<T>(op: (T, T) -> T, xs: seq<T>, num: nat, m: nat, i: nat): T
    requires 0 < m && 0 < num && num % m == 0 && |xs| % num == 0 && i < |xs|
  {
    Fold(op, Class(xs, num, m, i))
  }

  ghost predicate PlacesOf(m: nat, i: nat, p: nat)
    requires 0 < m
  {
    if i / m % 2 == 0 then i % (2 * m) == i % m && p % (2 * m) == i % m + m && p == i + m && i % (2 * m) < m
    else m <= i && i % (2 * m) == i % m + m && p % (2 * m) == i % m && p == i - m && m <= i % (2 * m)
  }

  lemma LowHalf(m: nat, i: nat, q: nat, c: nat)
    requires i == q * (2 * m) + c && c < m
    ensures PlacesOf(m, i, Partner(i, m))
  {
    Halves(m, i, q, c, 2 * q, c);
    Rest(q, 2 * m, c + m, i + m);
  }

  lemma HighHalf(m: nat, i: nat, q: nat, c: nat)
    requires i == q * (2 * m) + c && m <= c < 2 * m
    ensures PlacesOf(m, i, Partner(i, m))
  {
    MulLe(0, q, 2 * m);
    Halves(m, i, q, c, 2 * q + 1, c - m);
    Rest(q, 2 * m, c - m, i - m);
  }

  lemma Rest(q: nat, d: nat, c: nat, x: nat)
    requires c < d && x == q * d + c
    ensures x % d == c
  {
    DivUnique(q, d, c);
  }

  /** Place i as a multiple of 2m and of m. */
  lemma Halves(m: nat, i: nat, q: nat, c: nat, p: nat, b: nat)
    requires i == q * (2 * m) + c && c < 2 * m && b < m
    requires (p == 2 * q && b == c) || (p == 2 * q + 1 && b + m == c)
    ensures i / m == p && i % m == b && i % (2 * m) == c && i / m % 2 == p % 2
  {
    TwiceStride(q, m);
    DivUnique(p, m, b);
    DivUnique(q, 2 * m, c);
  }

  lemma Parts(i: nat, d: nat) returns (q: nat, c: nat)
    requires 0 < d
    ensures i == q * d + c && c < d
  {
    q, c := i / d, i % d;
  }

  /** Where lane i and its partner stand modulo m and modulo 2m. */
  lemma PartnerPlaces(m: nat, i: nat)
    requires 0 < m
    ensures PlacesOf(m, i, Partner(i, m))
  {
    var q, c := Parts(i, 2 * m);
    if c < m { LowHalf(m, i, q, c); } else { HighHalf(m, i, q, c); }
  }

  lemma PartnerPlace(m: nat, i: nat)
    requires 0 < m
    ensures i / m % 2 == 1 ==> m <= i
    ensures i % (2 * m) < m <==> i / m % 2 == 0
    ensures var p := Partner(i, m);
            if i / m % 2 == 0 then i % (2 * m) == i % m && p % (2 * m) == i % m + m && p == i + m
            else i % (2 * m) == i % m + m && p % (2 * m) == i % m && p == i - m
  {
    PartnerPlaces(m, i);
  }

  /** Moving inside a block of size b does not leave the group. */
  lemma SameGroup(i: nat, p: nat, b: nat, num: nat)
    requires 0 < b && 0 < num && num % b == 0 && i / b == p / b
    ensures i / num == p / num
  {
    var h := num / b;
    assert num == h * b;
    GroupOfBlock(i, b, h);
    GroupOfBlock(p, b, h);
  }

  lemma TwoLevels(x: nat, y: nat, z: nat, b: nat, h: nat, i: nat)
    requires y < h && z < b && i == (x * h + y) * b + z
    ensures 0 < h * b && i / (h * b) == x
  {
    MulDist(x * h, y, b);
    MulAssoc(x, h, b);
    MulLe(y + 1, h, b);
    MulDist(y, 1, b);
    DivUnique(x, h * b, y * b + z);
  }

  lemma GroupOfBlock(i: nat, b: nat, h: nat)
    requires 0 < b && 0 < h && 0 < h * b
    ensures i / (h * b) == i / b / h
  {
    var q, z := Parts(i, b);
    DivUnique(q, b, z);
    var x, y := Parts(q, h);
    DivUnique(x, h, y);
    TwoLevels(x, y, z, b, h, i);
  }

  lemma PartnerInBlock(m: nat, i: nat)
    requires 0 < m
    ensures i / (2 * m) == Partner(i, m) / (2 * m)
  {
    PartnerPlace(m, i);
    var q, p := i / (2 * m), Partner(i, m);
    assert i == q * (2 * m) + i % (2 * m);
    DivUnique(q, 2 * m, p - q * (2 * m));
  }

  lemma PartnerInGroup(len: nat, num: nat, m: nat, i: nat)
    requires 0 < m && 0 < num && num % (2 * m) == 0 && len % num == 0 && i < len
    ensures Partner(i, m) < len && Partner(i, m) - Partner(i, m) % num == i - i % num
  {
    PartnerInBlock(m, i);
    SameGroup(i, Partner(i, m), 2 * m, num);
    GroupFits(len, num, i);
    SameBase(i, Partner(i, m), num);
  }

  lemma SameBase(i: nat, p: nat, num: nat)
    requires 0 < num && i / num == p / num
    ensures i - i % num == p - p % num && p < i - i % num + num
  {
  }

  /** The class of lane i modulo m is split by the classes of lane i and its partner
      modulo 2m. */
  lemma HalfClasses<T>(xs: seq<T>, num: nat, m: nat, i: nat)
    requires 0 < m && 0 < num && num % (2 * m) == 0 && num % m == 0 && |xs| % num == 0 && i < |xs|
    ensures Partner(i, m) < |xs|
    ensures var ys, own, other := Class(xs, num, m, i), Class(xs, num, 2 * m, i), Class(xs, num, 2 * m, Partner(i, m));
            && |ys| % 2 == 0
            && if i / m % 2 == 0 then Evens(ys) == own && Odds(ys) == other else Evens(ys) == other && Odds(ys) == own
  {
    PartnerPlace(m, i);
    PartnerInGroup(|xs|, num, m, i);
    InGroup(|xs|, num, m, i);
    InGroup(|xs|, num, 2 * m, i);
    HalfCount(num, m);
    SplitStrided(xs, i - i % num + i % m, m, num / (2 * m));
  }

  /** One shuffle step combines the two half classes. */
  lemma ShuffleStep<T(!new)>(op: (T, T) -> T, xs: seq<T>, num: nat, m: nat, i: nat)
    requires AssocComm(op) && 0 < m && 0 < num && num % (2 * m) == 0 && num % m == 0
    requires |xs| % num == 0 && i < |xs|
    ensures i / m % 2 == 1 ==> m <= i
    ensures Partner(i, m) < |xs|
    ensures op(Partial(op, xs, num, 2 * m, i), Partial(op, xs, num, 2 * m, Partner(i, m)))
            == Partial(op, xs, num, m, i)
  {
    PartnerPlace(m, i);
    HalfClasses(xs, num, m, i);
    Interleave(op, Class(xs, num, m, i));
    var a, b := Partial(op, xs, num, 2 * m, i), Partial(op, xs, num, 2 * m, Partner(i, m));
    assert Lawful(op, a, b, a);
  }

  lemma HalfCount(num: nat, m: nat)
    requires 0 < m && num % (2 * m) == 0
    ensures num / m == 2 * (num / (2 * m))
  {
    var n, rest := Parts(num, 2 * m);
    DivUnique(n, 2 * m, rest);
    TwiceStride(n, m);
    DivUnique(2 * n, m, 0);
  }

  lemma PowerHalves(num: nat, m: nat)
    requires PowerOfTwo(num) && PowerOfTwo(m) && num % m == 0 && 1 < m
    ensures PowerOfTwo(m / 2) && 2 * (m / 2) == m && num % (m / 2) == 0
  {
    var n, rest := Parts(num, m);
    DivUnique(n, m, rest);
    var h := m / 2;
    HalvesDivide(num, n, h);
  }

  lemma HalvesDivide(num: nat, n: nat, h: nat)
    requires num == n * (2 * h) && 0 < h
    ensures num % h == 0
  {
    TwiceStride(n, h);
    DivUnique(2 * n, h, 0);
  }

  /** What a reduction over groups of `num` lanes leaves in lane i. */
  function GroupFold<T>(op: (T, T) -> T, xs: seq<T>, num: nat, i: nat): T
    requires 0 < num && |xs| % num == 0 && i < |xs|
  {
    InGroup(|xs|, num, num, i);
    Fold(op, xs[i - i % num..i - i % num + num])
  }

  lemma WholeClass<T>(op: (T, T) -> T, xs: seq<T>, num: nat, i: nat)
    requires 0 < num && |xs| % num == 0 && i < |xs| && num % 1 == 0 && num % num == 0
    ensures Partial(op, xs, num, 1, i) == GroupFold(op, xs, num, i)
    ensures Partial(op, xs, num, num, i) == xs[i]
  {
    InGroup(|xs|, num, 1, i);
    InGroup(|xs|, num, num, i);
    assert Class(xs, num, 1, i) == xs[i - i % num..i - i % num + num];
    DivUnique(1, num, 0);
    assert Class(xs, num, num, i) == [xs[i]];
  }

  /** warp_reduce_max and warp_reduce_sum: in every halving step each lane combines its
      value with its partner's. All lanes of a group end with the reduction of the group. */
  method WarpReduce<T(!new)>(data: array<T>, num: nat, op: (T, T) -> T)
    requires PowerOfTwo(num) && data.Length % num == 0 && AssocComm(op)
    modifies data
    ensures forall i | 0 <= i < data.Length :: data[i] == GroupFold(op, old(data[..]), num, i)
  {
    ghost var xs := data[..];
    ghost var m: nat := num;
    var mask := num / 2;
    forall i | 0 <= i < data.Length ensures data[i] == Partial(op, xs, num, num, i) {
      WholeClass(op, xs, num, i);
    }
    while mask > 0
      invariant PowerOfTwo(m) && num % m == 0 && mask == m / 2
      invariant forall i | 0 <= i < data.Length :: data[i] == Partial(op, xs, num, m, i)
    {
      PowerHalves(num, m);
      forall i | 0 <= i < data.Length
        ensures i / mask % 2 == 1 ==> mask <= i
        ensures Partner(i, mask) < data.Length
        ensures op(data[i], data[Partner(i, mask)]) == Partial(op, xs, num, mask, i)
      {
        ShuffleStep(op, xs, num, mask, i);
      }
      forall i | 0 <= i < data.Length {
        data[i] := op(data[i], data[Partner(i, mask)]);
      }
      m := mask;
      mask := mask / 2;
    }
    forall i | 0 <= i < data.Length ensures data[i] == GroupFold(op, xs, num, i) {
      WholeClass(op, xs, num, i);
    }
  }
}
