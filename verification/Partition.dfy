/** The partition of a symbol.  The Go worker wraps to 32 bits after every step;
    the Node code adds exactly and wraps only at the bitwise operators.  Both
    give the same partition to every sequence of UTF-16 units that neither
    refuses as blank, and they do not refuse quite the same ones. */
module Partition {
  import opened Types

  type Unit = u: int | 0 <= u < 0x1_0000

  const TWO32: int := 0x1_0000_0000
  const TWO31: int := 0x8000_0000

  predicate IsInt32(x: int) {
    -TWO31 <= x < TWO31
  }

  // ------------------------------------------------------- 32-bit arithmetic

  /** The low 32 bits, as a natural number. */
  function Low(x: int): (r: nat)
    ensures r < TWO32
  {
    x % TWO32
  }

  /** Truncation to a signed 32-bit integer. */
  function ToInt32(x: int): (r: int)
    ensures IsInt32(r)
  {
    var r := Low(x);
    if r < TWO31 then r else r - TWO32
  }

  lemma LowOfInt32(x: int)
    ensures Low(ToInt32(x)) == Low(x)
    ensures IsInt32(x) ==> ToInt32(x) == x
  {
  }

  /** Adding a multiple of two to the 32 does not change the low bits. */
  lemma LowPeriodic(x: int, k: int)
    ensures Low(x + k * TWO32) == Low(x)
  {
    var q := x / TWO32;
    assert x + k * TWO32 == (q + k) * TWO32 + Low(x);
    LowIs(x + k * TWO32, q + k, Low(x));
  }

  lemma LowIs(x: int, q: int, r: nat)
    requires x == q * TWO32 + r && r < TWO32
    ensures Low(x) == r
  {
    var q' := x / TWO32;
    assert x == q' * TWO32 + x % TWO32;
    assert (q - q') * TWO32 == x % TWO32 - r;
    assert -1 < q - q' < 1;
  }

  lemma SameLow(x: int, y: int)
    requires Low(x) == Low(y)
    ensures exists k :: x == y + k * TWO32
  {
    var k := x / TWO32 - y / TWO32;
    assert x == y + k * TWO32;
  }

  /** Wrapping a summand early makes no difference to the low bits of the sum. */
  lemma LowOfSum(x: int, y: int)
    ensures Low(ToInt32(x) + y) == Low(x + y)
  {
    LowOfInt32(x);
    SameLow(ToInt32(x), x);
    var k :| ToInt32(x) == x + k * TWO32;
    LowPeriodic(x + y, k);
    assert ToInt32(x) + y == x + y + k * TWO32;
  }

  // --------------------------------------------------------------------- xor

  function Pow2(k: nat): nat {
    if k == 0 then 1 else 2 * Pow2(k - 1)
  }

  function Xor(a: nat, b: nat): nat
    decreases a + b
  {
    if a == 0 then b else if b == 0 then a
    else 2 * Xor(a / 2, b / 2) + (if a % 2 == b % 2 then 0 else 1)
  }

  predicate Bit(n: nat, i: nat) {
    if i == 0 then n % 2 == 1 else Bit(n / 2, i - 1)
  }

  /** Bit by bit, `Xor` is exclusive or. */
  lemma {:induction false} XorBits(a: nat, b: nat, i: nat)
    ensures Bit(Xor(a, b), i) <==> Bit(a, i) != Bit(b, i)
    decreases a + b
  {
    ZeroHasNoBits(i);
    if a != 0 && b != 0 && i > 0 {
      assert Xor(a, b) / 2 == Xor(a / 2, b / 2);
      XorBits(a / 2, b / 2, i - 1);
    }
  }

  lemma {:induction false} ZeroHasNoBits(i: nat)
    ensures !Bit(0, i)
  {
    if i > 0 {
      ZeroHasNoBits(i - 1);
    }
  }

  lemma {:induction false} XorBound(a: nat, b: nat, k: nat)
    requires a < Pow2(k) && b < Pow2(k)
    ensures Xor(a, b) < Pow2(k)
    decreases k
  {
    if a != 0 && b != 0 {
      XorBound(a / 2, b / 2, k - 1);
    }
  }

  lemma Pow2Of32()
    ensures Pow2(32) == TWO32
  {
    assert Pow2(8) == 256;
    assert Pow2(16) == 65536 by {
      assert Pow2(12) == 4096;
    }
    assert Pow2(24) == 0x100_0000 by {
      assert Pow2(20) == 0x10_0000;
    }
    assert Pow2(28) == 0x1000_0000;
  }

  /** The bitwise operator on signed 32-bit integers. */
  function Xor32(x: int, y: int): (r: int)
    ensures IsInt32(r)
  {
    ToInt32(Xor(Low(x), Low(y)))
  }

  /** Truncation loses nothing of an exclusive or, so this is exclusive or bit by bit. */
  lemma Xor32Bits(x: int, y: int, i: nat)
    ensures Low(Xor32(x, y)) == Xor(Low(x), Low(y))
    ensures Bit(Low(Xor32(x, y)), i) <==> Bit(Low(x), i) != Bit(Low(y), i)
  {
    Pow2Of32();
    XorBound(Low(x), Low(y), 32);
    LowOfInt32(Xor(Low(x), Low(y)));
    LowSmall(Xor(Low(x), Low(y)));
    XorBits(Low(x), Low(y), i);
  }

  lemma LowSmall(n: nat)
    requires n < TWO32
    ensures Low(n) == n
  {
  }

  lemma {:induction false} XorCancels(a: nat, b: nat)
    ensures Xor(Xor(a, b), a) == b
    decreases a + b
  {
    if a + b > 0 {
      var x := Xor(a, b);
      XorCancels(a / 2, b / 2);
      XorHalf(a, b);
      XorHalf(x, a);
      HalvesDetermine(Xor(x, a), b);
    }
  }

  /** The low bits of an exclusive or come from the low bits of its arguments. */
  lemma {:induction false} XorMod(a: nat, b: nat, k: nat)
    ensures Pow2(k) > 0
    ensures Xor(a, b) % Pow2(k) == Xor(a % Pow2(k), b % Pow2(k))
    decreases k
  {
    Pow2Positive(k);
    if k > 0 {
      XorMod(a / 2, b / 2, k - 1);
      ModHalf(a, k);
      ModHalf(b, k);
      ModHalf(Xor(a, b), k);
      XorHalf(a, b);
      XorHalf(a % Pow2(k), b % Pow2(k));
      HalvesDetermine(Xor(a, b) % Pow2(k), Xor(a % Pow2(k), b % Pow2(k)));
    }
  }

  lemma {:induction false} Pow2Positive(k: nat)
    ensures Pow2(k) > 0
  {
    if k > 0 {
      Pow2Positive(k - 1);
    }
  }

  lemma XorHalf(a: nat, b: nat)
    ensures Xor(a, b) / 2 == Xor(a / 2, b / 2)
    ensures Xor(a, b) % 2 == if a % 2 == b % 2 then 0 else 1
  {
  }

  lemma HalvesDetermine(x: nat, y: nat)
    requires x / 2 == y / 2 && x % 2 == y % 2
    ensures x == y
  {
  }

  lemma ModHalf(a: nat, k: nat)
    requires k > 0 && Pow2(k - 1) > 0
    ensures (a % Pow2(k)) % 2 == a % 2 && (a % Pow2(k)) / 2 == (a / 2) % Pow2(k - 1)
  {
    ModDouble(a, Pow2(k - 1));
  }

  lemma ModDouble(a: nat, m: nat)
    requires m > 0
    ensures (a % (2 * m)) % 2 == a % 2 && (a % (2 * m)) / 2 == (a / 2) % m
  {
    var q, r := (a / 2) / m, (a / 2) % m;
    var c := q * m;
    assert a / 2 == c + r;
    assert q * (2 * m) == 2 * c;
    DivUnique(a, 2 * m, q, 2 * r + a % 2);
  }

  lemma DivUnique(a: nat, d: nat, q: nat, r: nat)
    requires d > 0 && a == q * d + r && r < d
    ensures a % d == r
  {
    var q', r' := a / d, a % d;
    assert a == q' * d + r';
    assert (q - q') * d == r' - r;
    NoMultipleBetween(q - q', d);
  }

  lemma NoMultipleBetween(k: int, d: int)
    requires d > 0 && 0 - d < k * d < d
    ensures k == 0
  {
    if k > 0 {
      AtLeastOne(k, d);
    } else if k < 0 {
      AtLeastOne(-k, d);
    }
  }

  lemma AtLeastOne(k: int, d: int)
    requires k >= 1 && d > 0
    ensures k * d >= d
  {
    assert (k - 1) * d >= 0;
  }

  // ------------------------------------------------------------- the two hashes

  /** One step of the Go worker: every operation wraps. */
  function GoStep(hash: int, u: Unit): (r: int)
    ensures IsInt32(r)
  {
    Xor32(ToInt32(ToInt32(hash * 32) + hash), u)
  }

  /** One step of the Node code: the shift and the xor truncate, the addition is exact. */
  function NodeStep(hash: int, u: Unit): (r: int)
    ensures IsInt32(r)
  {
    Xor32(ToInt32(ToInt32(hash) * 32) + hash, u)
  }

  lemma StepsAgree(hash: int, u: Unit)
    requires IsInt32(hash)
    ensures GoStep(hash, u) == NodeStep(hash, u)
  {
    LowOfInt32(hash);
    LowOfInt32(ToInt32(hash * 32) + hash);
  }

  /** The hash of a symbol: fold over its units, from 5381. */
  function Hash(s: seq<Unit>): (h: int)
    ensures IsInt32(h)
  {
    if s == [] then 5381 else GoStep(Hash(s[..|s| - 1]), s[|s| - 1])
  }

  /** The hash without any truncation, over unbounded numbers. */
  function Exact(s: seq<Unit>): nat {
    if s == [] then 5381 else Xor(33 * Exact(s[..|s| - 1]), s[|s| - 1])
  }

  /** All the wrapping computes is the low 32 bits of the exact hash. */
  lemma {:induction false} HashIsLowOfExact(s: seq<Unit>)
    ensures Low(Hash(s)) == Exact(s) % TWO32
  {
    hide Xor, Xor32, ToInt32, Pow2;
    if s != [] {
      var t, u := s[..|s| - 1], s[|s| - 1];
      var h, e := Hash(t), Exact(t);
      HashIsLowOfExact(t);
      Xor32Bits(ToInt32(ToInt32(h * 32) + h), u, 0);
      LowOfInt32(ToInt32(h * 32) + h);
      LowOfSum(h * 32, h);
      LowOfProduct(h, e, 33);
      LowSmall(u);
      Pow2Of32();
      XorMod(33 * e, u, 32);
    } else {
      LowSmall(5381);
    }
  }

  lemma LowOfProduct(x: int, y: int, f: int)
    requires Low(x) == Low(y)
    ensures Low(f * x) == Low(f * y)
  {
    SameLow(x, y);
    var k :| x == y + k * TWO32;
    assert f * x == f * y + (f * k) * TWO32;
    LowPeriodic(f * y, f * k);
  }

  lemma HashSnoc(s: seq<Unit>, u: Unit)
    ensures Hash(s + [u]) == Xor32(ToInt32(ToInt32(Hash(s) * 32) + Hash(s)), u)
  {
    hide ToInt32, Xor32;
    assert (s + [u])[..|s|] == s;
  }

  lemma XorInjective(a: nat, b: nat, c: nat)
    requires Xor(a, b) == Xor(a, c)
    ensures b == c
  {
    hide Xor;
    XorCancels(a, b);
    XorCancels(a, c);
  }

  lemma Xor32Injective(x: int, u: Unit, v: Unit)
    requires Xor32(x, u) == Xor32(x, v)
    ensures u == v
  {
    hide Xor, Xor32, Low;
    Xor32Bits(x, u, 0);
    Xor32Bits(x, v, 0);
    XorInjective(Low(x), Low(u), Low(v));
    LowSmall(u);
    LowSmall(v);
  }

  /** Symbols that differ in their last unit only have different hashes. */
  lemma LastUnitMatters(s: seq<Unit>, u: Unit, v: Unit)
    requires Hash(s + [u]) == Hash(s + [v])
    ensures u == v
  {
    hide Hash, ToInt32, Xor32;
    HashSnoc(s, u);
    HashSnoc(s, v);
    Xor32Injective(ToInt32(ToInt32(Hash(s) * 32) + Hash(s)), u, v);
  }

  function Abs(x: int): nat {
    if x < 0 then -x else x
  }

  predicate BlankToGo(s: seq<Unit>) {
    forall i :: 0 <= i < |s| ==> GoSpace(s[i])
  }

  predicate BlankToNode(s: seq<Unit>) {
    forall i :: 0 <= i < |s| ==> NodeSpace(s[i])
  }

  /** The partition of a symbol to the worker, or why there is none. */
  function PartitionOf(s: seq<Unit>, count: int): Result<nat, Error> {
    if BlankToGo(s) then Err(EmptySymbol)
    else if count < 1 then Err(BadQuantity)
    else Ok(Abs(Hash(s)) % count)
  }

  /** The partition of a symbol to the Node code, which looks at the count first. */
  function NodePartitionOf(s: seq<Unit>, count: int): Result<nat, Error> {
    if count < 1 then Err(BadQuantity)
    else if BlankToNode(s) then Err(EmptySymbol)
    else Ok(Abs(Hash(s)) % count)
  }

  /** Both engines say the same of a symbol exactly if it is not white space with a character that only one of them
      trims; the worker looks at the symbol before it looks at the count. */
  lemma PartitionsAgreeIff(s: seq<Unit>, count: int)
    ensures PartitionOf(s, count) == NodePartitionOf(s, count)
            <==> if count < 1 then !BlankToGo(s)
                 else !(BlankToGo(s) && 0x85 in s) && !(BlankToNode(s) && 0xFEFF in s)
  {
  }

  /** The partition is what is left of the size of the hash, and the hash is the signed number with the low 32 bits of
      the exact one. */
  lemma PartitionIsResidue(s: seq<Unit>, count: int)
    requires count >= 1 && !BlankToGo(s)
    ensures var id := PartitionOf(s, count).value;
            && 0 <= id < count
            && (Hash(s) >= 0 ==> (Hash(s) - id) % count == 0)
            && (Hash(s) < 0 ==> (Hash(s) + id) % count == 0)
            && -TWO31 <= Hash(s) < TWO31 && (Hash(s) - Exact(s)) % TWO32 == 0
  {
    hide Hash, Exact, BlankToGo;
    var h, e := Hash(s), Exact(s);
    var n := Abs(h);
    Multiple(n - n % count, n / count, count);
    if h < 0 {
      Multiple(h + n % count, -(n / count), count);
    }
    HashIsLowOfExact(s);
    Multiple(h - e, h / TWO32 - e / TWO32, TWO32);
  }

  lemma Multiple(x: int, k: int, d: int)
    requires d > 0 && x == k * d
    ensures x % d == 0
  {
    var q, r := x / d, x % d;
    assert (k - q) * d == r;
    NoMultipleBetween(k - q, d);
  }

  /** The worker's hash. */
  method GoId(s: seq<Unit>, count: int) returns (r: Result<nat, Error>)
    ensures r == PartitionOf(s, count)
    ensures r.Ok? ==> 0 <= r.value < count
  {
    hide Xor32, ToInt32, BlankToGo;
    if BlankToGo(s) {
      return Err(EmptySymbol);
    }
    if count < 1 {
      return Err(BadQuantity);
    }
    var hash := 5381;
    for i := 0 to |s|
      invariant hash == Hash(s[..i])
    {
      assert s[..i + 1][..i] == s[..i];
      hash := ToInt32(ToInt32(hash * 32) + hash);
      hash := Xor32(hash, s[i]);
    }
    assert s[..|s|] == s;
    var value := hash;
    if value < 0 {
      value := -value;
    }
    return Ok(value % count);
  }

  /** The hash of the Node code, whose exact intermediate sums stay far below 2 to the 53. */
  method NodeHash(s: seq<Unit>) returns (r: Result<nat, Error>)
    ensures r == if BlankToNode(s) then Err(EmptySymbol) else Ok(Abs(Hash(s)))
  {
    if BlankToNode(s) {
      return Err(EmptySymbol);
    }
    var hash := 5381;
    for i := 0 to |s|
      invariant hash == Hash(s[..i])
    {
      assert s[..i + 1][..i] == s[..i];
      StepsAgree(hash, s[i]);
      var sum := ToInt32(ToInt32(hash) * 32) + hash;
      assert -TWO32 <= sum < TWO32;
      hash := Xor32(sum, s[i]);
    }
    assert s[..|s|] == s;
    return Ok(if hash < 0 then -hash else hash);
  }

  /** The partition as the Node code computes it. */
  method NodeId(s: seq<Unit>, count: int) returns (r: Result<nat, Error>)
    ensures r == NodePartitionOf(s, count)
    ensures r.Ok? ==> 0 <= r.value < count
  {
    if count < 1 {
      return Err(BadQuantity);
    }
    var h := NodeHash(s);
    if h.Err? {
      return Err(h.error);
    }
    return Ok(h.value % count);
  }
}
