/** CIDR expansion by a byte-wise carry loop, and the block of addresses it enumerates. */
module Cidr {

  function Pow2(n: nat): (r: nat)
    ensures r >= 1
  {
    if n == 0 then 1 else 2 * Pow2(n - 1)
  }

  lemma {:induction false} Pow2Adds(a: nat, b: nat)
    ensures Pow2(a + b) == Pow2(a) * Pow2(b)
  {
    if a == 0 {
    } else {
      Pow2Adds(a - 1, b);
      assert Pow2(a + b) == 2 * Pow2(a - 1 + b);
      assert 2 * (Pow2(a - 1) * Pow2(b)) == (2 * Pow2(a - 1)) * Pow2(b);
    }
  }

  lemma Pow2OfByte()
    ensures Pow2(8) == 256
  {
    assert Pow2(4) == 16;
    Pow2Adds(4, 4);
  }

  // ---------------------------------------------------------------- arithmetic

  lemma MulMono(a: int, b: int, c: int)
    requires a <= b && c >= 0
    ensures a * c <= b * c
  {
    assert (b - a) * c >= 0;
    assert (b - a) * c == b * c - a * c;
  }

  lemma MulGap(a: int, b: int, c: int)
    requires a < b && c >= 0
    ensures a * c + c <= b * c
  {
    MulMono(a + 1, b, c);
    assert (a + 1) * c == a * c + c;
  }

  lemma QuotientIsUnique(d: int, q: int, r: int, q': int, r': int)
    requires 0 <= r < d && 0 <= r' < d && q * d + r == q' * d + r'
    ensures q == q' && r == r'
  {
    if q < q' {
      MulGap(q, q', d);
    } else if q' < q {
      MulGap(q', q, d);
    }
  }

  lemma Division(n: int, d: int)
    requires d > 0
    ensures n == (n / d) * d + n % d && 0 <= n % d < d
  {
    assert n == d * (n / d) + n % d;
  }

  lemma RemainderOf(n: int, d: int, q: int, r: int)
    requires d > 0 && n == q * d + r && 0 <= r < d
    ensures n % d == r && n / d == q
  {
    Division(n, d);
    QuotientIsUnique(d, q, r, n / d, n % d);
  }

  predicate IsBytes(b: seq<int>) {
    forall i | 0 <= i < |b| :: 0 <= b[i] < 256
  }

  /** The number a big-endian byte string denotes. */
  function Val(b: seq<int>): int {
    if b == [] then 0 else 256 * Val(b[..|b| - 1]) + b[|b| - 1]
  }

  lemma {:induction false} ValBounds(b: seq<int>)
    requires IsBytes(b)
    ensures 0 <= Val(b) < Pow2(8 * |b|)
  {
    if b != [] {
      ValBounds(b[..|b| - 1]);
      Pow2OfByte();
      Pow2Adds(8, 8 * (|b| - 1));
    }
  }

  lemma {:induction false} ValIsInjective(a: seq<int>, b: seq<int>)
    requires IsBytes(a) && IsBytes(b) && |a| == |b|
    ensures Val(a) == Val(b) <==> a == b
  {
    if a != [] {
      var n := |a| - 1;
      ValIsInjective(a[..n], b[..n]);
      assert a == a[..n] + [a[n]] && b == b[..n] + [b[n]];
      if Val(a) == Val(b) {
        QuotientIsUnique(256, Val(a[..n]), a[n], Val(b[..n]), b[n]);
      }
    }
  }

  // ---------------------------------------------------------------- increment

  /** The carry: drop trailing 255s to zero and add one to the byte before them. */
  function Increment(b: seq<int>): seq<int> {
    if b == [] then []
    else if b[|b| - 1] == 255 then Increment(b[..|b| - 1]) + [0]
    else b[..|b| - 1] + [b[|b| - 1] + 1]
  }

  lemma CarryArithmetic(f: int, x: int, m: int)
    requires 0 <= x < 256 && m > 0 && 0 <= f < m
    ensures (256 * f + x + 1) % (256 * m)
         == (if x == 255 then 256 * ((f + 1) % m) else 256 * f + x + 1)
  {
    var n, d := 256 * f + x + 1, 256 * m;
    if x == 255 && f + 1 == m {
      RemainderOf(n, d, 1, 0);
      RemainderOf(m, m, 1, 0);
    } else {
      RemainderOf(n, d, 0, n);
      if x == 255 {
        RemainderOf(f + 1, m, 0, f + 1);
      }
    }
  }

  /** Adding one modulo the width, so the all-ones address wraps to zero. */
  lemma {:induction false} IncrementAddsOne(b: seq<int>)
    requires IsBytes(b)
    ensures IsBytes(Increment(b)) && |Increment(b)| == |b|
    ensures Val(Increment(b)) == (Val(b) + 1) % Pow2(8 * |b|)
  {
    if b != [] {
      var front, x := b[..|b| - 1], b[|b| - 1];
      IncrementAddsOne(front);
      ValBounds(front);
      Pow2OfByte();
      Pow2Adds(8, 8 * (|b| - 1));
      CarryArithmetic(Val(front), x, Pow2(8 * |front|));
      var r := Increment(b);
      assert r[..|r| - 1] == if x == 255 then Increment(front) else front;
    }
  }

  lemma {:induction false} CarrySplits(b: seq<int>, j: nat)
    requires j <= |b| && forall i | j <= i < |b| :: b[i] == 255
    ensures Increment(b) == Increment(b[..j]) + seq(|b| - j, _ => 0)
  {
    if j < |b| {
      var front := b[..|b| - 1];
      CarrySplits(front, j);
      assert front[..j] == b[..j];
      assert seq(|b| - j, _ => 0) == seq(|front| - j, _ => 0) + [0];
    } else {
      assert b[..j] == b;
    }
  }

  /** The state in which the carry loop stops is the incremented address. */
  lemma CarryStopsAt(b: seq<int>, r: seq<int>, j: int)
    requires IsBytes(b) && |r| == |b| && -1 <= j < |b|
    requires forall i | 0 <= i < j :: r[i] == b[i]
    requires j >= 0 ==> b[j] < 255 && r[j] == b[j] + 1
    requires forall i | j < i < |b| :: r[i] == 0 && b[i] == 255
    ensures r == Increment(b)
  {
    CarrySplits(b, j + 1);
    ZerosAfter(r, j + 1);
    if j >= 0 {
      assert r[..j + 1][..j] == b[..j + 1][..j];
      StopsInside(b[..j + 1], r[..j + 1]);
    } else {
      assert r[..0] == Increment(b[..0]);
    }
  }

  lemma ZerosAfter(r: seq<int>, n: nat)
    requires n <= |r| && forall i | n <= i < |r| :: r[i] == 0
    ensures r == r[..n] + seq(|r| - n, _ => 0)
  {
  }

  lemma StopsInside(b: seq<int>, r: seq<int>)
    requires b != [] && |r| == |b| && r[..|b| - 1] == b[..|b| - 1]
    requires b[|b| - 1] < 255 && r[|b| - 1] == b[|b| - 1] + 1
    ensures r == Increment(b)
  {
    assert r == r[..|b| - 1] + [r[|b| - 1]];
  }

  /** `incIP`, in place on the address bytes. */
  method IncIP(ip: array<int>)
    requires IsBytes(ip[..])
    modifies ip
    ensures ip[..] == Increment(old(ip[..]))
  {
    ghost var b := ip[..];
    var j := ip.Length - 1;
    while j >= 0
      invariant -1 <= j < ip.Length
      invariant forall i | 0 <= i <= j :: ip[i] == b[i]
      invariant forall i | j < i < ip.Length :: ip[i] == 0 && b[i] == 255
    {
      ip[j] := (ip[j] + 1) % 256;
      if ip[j] > 0 {
        CarryStopsAt(b, ip[..], j);
        return;
      }
      j := j - 1;
    }
    CarryStopsAt(b, ip[..], -1);
  }

  // ---------------------------------------------------------------- masks and blocks

  /** How many bits of byte `i` belong to the prefix. */
  function PrefixBits(prefix: nat, i: nat): nat {
    if prefix <= 8 * i then 0 else if prefix >= 8 * i + 8 then 8 else prefix - 8 * i
  }

  /** `x & mask` for a mask of `bits` leading ones. */
  function MaskByte(x: int, bits: nat): int
    requires bits <= 8
  {
    x - x % Pow2(8 - bits)
  }

  function Mask(b: seq<int>, prefix: nat): (r: seq<int>)
    ensures |r| == |b|
  {
    seq(|b|, i requires 0 <= i < |b| => MaskByte(b[i], PrefixBits(prefix, i)))
  }

  /** `IPNet.Contains`: masked bytes agree. */
  predicate Contains(net: seq<int>, prefix: nat, ip: seq<int>) {
    |net| == |ip| && Mask(net, prefix) == Mask(ip, prefix)
  }

  lemma MaskIsBytes(b: seq<int>, prefix: nat)
    requires IsBytes(b)
    ensures IsBytes(Mask(b, prefix))
  {
    forall i | 0 <= i < |b| ensures 0 <= Mask(b, prefix)[i] < 256 {
      SmallRemainder(b[i], Pow2(8 - PrefixBits(prefix, i)));
    }
  }

  lemma SmallRemainder(x: int, d: int)
    requires x >= 0 && d > 0
    ensures 0 <= x - x % d <= x
  {
  }

  lemma ScaledRemainder(f: int, x: int, m: int)
    requires 0 <= x < 256 && m > 0
    ensures (256 * f + x) % (256 * m) == 256 * (f % m) + x
  {
    Division(f, m);
    var q, r := f / m, f % m;
    assert q * (256 * m) == 256 * (q * m);
    RemainderOf(256 * f + x, 256 * m, q, 256 * r + x);
  }

  lemma DivisorRemainder(f: int, x: int, d: int, e: int)
    requires d > 0 && d * e == 256
    ensures (256 * f + x) % d == x % d
  {
    Division(x, d);
    var q, r := x / d, x % d;
    assert (e * f + q) * d == (d * e) * f + q * d;
    RemainderOf(256 * f + x, d, e * f + q, r);
  }

  lemma MaskFront(b: seq<int>, prefix: nat)
    requires b != []
    ensures Mask(b, prefix)[..|b| - 1] == Mask(b[..|b| - 1], prefix)
  {
  }

  lemma ByteArithmetic(f: int, x: int, k: nat)
    requires 0 <= x < 256 && k >= 8
    ensures 256 * f + x - (256 * f + x) % Pow2(k) == 256 * (f - f % Pow2(k - 8))
  {
    Pow2OfByte();
    Pow2Adds(8, k - 8);
    ScaledRemainder(f, x, Pow2(k - 8));
  }

  lemma LastByteCleared(b: seq<int>, prefix: nat)
    requires b != [] && IsBytes(b) && prefix <= 8 * (|b| - 1)
    ensures Mask(b, prefix)[|b| - 1] == 0
  {
    Pow2OfByte();
    RemainderOf(b[|b| - 1], 256, 0, b[|b| - 1]);
  }

  lemma MaskValueHigh(b: seq<int>, prefix: nat)
    requires b != [] && IsBytes(b) && prefix <= 8 * (|b| - 1)
    requires var front := b[..|b| - 1];
      Val(Mask(front, prefix)) == Val(front) - Val(front) % Pow2(8 * |front| - prefix)
    ensures Val(Mask(b, prefix)) == Val(b) - Val(b) % Pow2(8 * |b| - prefix)
  {
    var n, k, masked := |b| - 1, 8 * |b| - prefix, Mask(b, prefix);
    ByteArithmetic(Val(b[..n]), b[n], k);
    assert Val(masked) == 256 * Val(Mask(b[..n], prefix)) by {
      MaskFront(b, prefix);
      LastByteCleared(b, prefix);
      assert Val(masked) == 256 * Val(masked[..n]) + masked[n];
    }
    assert Val(b) == 256 * Val(b[..n]) + b[n];
  }

  lemma MaskValueLow(b: seq<int>, prefix: nat)
    requires b != [] && IsBytes(b) && 8 * (|b| - 1) < prefix <= 8 * |b|
    ensures Val(Mask(b, prefix)) == Val(b) - Val(b) % Pow2(8 * |b| - prefix)
  {
    var front, x, k := b[..|b| - 1], b[|b| - 1], 8 * |b| - prefix;
    Pow2OfByte();
    MaskFront(b, prefix);
    FullMask(front, prefix);
    Pow2Adds(k, 8 - k);
    DivisorRemainder(Val(front), x, Pow2(k), Pow2(8 - k));
    assert Mask(b, prefix)[|b| - 1] == x - x % Pow2(k);
  }

  /** Masking clears the host bits: the network number of the block. */
  lemma {:induction false} MaskValue(b: seq<int>, prefix: nat)
    requires IsBytes(b) && prefix <= 8 * |b|
    ensures Val(Mask(b, prefix)) == Val(b) - Val(b) % Pow2(8 * |b| - prefix)
  {
    if b != [] {
      if prefix <= 8 * (|b| - 1) {
        MaskValue(b[..|b| - 1], prefix);
        MaskValueHigh(b, prefix);
      } else {
        MaskValueLow(b, prefix);
      }
    }
  }

  lemma FullMask(b: seq<int>, prefix: nat)
    requires prefix >= 8 * |b|
    ensures Mask(b, prefix) == b
  {
    assert Pow2(0) == 1;
  }

  lemma SameBlock(a: int, b: int, size: int)
    requires size > 0
    ensures a - a % size == b - b % size <==> a / size == b / size
  {
    Division(a, size);
    Division(b, size);
    if (a / size) * size == (b / size) * size {
      QuotientIsUnique(size, a / size, 0, b / size, 0);
    }
  }

  /** Two addresses lie in the same block exactly when they agree above the host bits. */
  lemma ContainsIsBlock(net: seq<int>, prefix: nat, ip: seq<int>)
    requires IsBytes(net) && IsBytes(ip) && |net| == |ip| && prefix <= 8 * |net|
    ensures Contains(net, prefix, ip)
       <==> Val(net) / Pow2(8 * |net| - prefix) == Val(ip) / Pow2(8 * |net| - prefix)
  {
    MaskIsBytes(net, prefix);
    MaskIsBytes(ip, prefix);
    MaskValue(net, prefix);
    MaskValue(ip, prefix);
    ValIsInjective(Mask(net, prefix), Mask(ip, prefix));
    SameBlock(Val(net), Val(ip), Pow2(8 * |net| - prefix));
  }

  function BlockSize(n: nat, prefix: nat): nat
    requires prefix <= 8 * n
  {
    Pow2(8 * n - prefix)
  }

  /** The value of the loop's address after `i` increments from the network address. */
  function After(net: seq<int>, prefix: nat, i: nat): int
    requires prefix <= 8 * |net|
  {
    (Val(net) - Val(net) % BlockSize(|net|, prefix) + i) % Pow2(8 * |net|)
  }

  lemma BlocksFit(v: int, size: nat, count: nat)
    requires size > 0 && 0 <= v < count * size
    ensures 0 <= v / size < count && (v / size) * size + size <= count * size
  {
    Division(v, size);
    var q := v / size;
    if q >= count {
      MulMono(count, q, size);
    }
    MulMono(q + 1, count, size);
    assert (q + 1) * size == q * size + size;
  }

  /** `q` blocks of `size` below, `i` further: the quotient on a clock of `count * size`. */
  lemma ClockQuotient(q: nat, size: nat, count: nat, i: nat)
    requires size > 0 && q < count && i <= size && q * size + size <= count * size
    ensures var a := (q * size + i) % (count * size);
      && (i < size ==> a == q * size + i && a / size == q)
      && (i == size && count > 1 ==> a / size != q)
  {
    var width := count * size;
    if q * size + i < width {
      RemainderOf(q * size + i, width, 0, q * size + i);
      if i < size {
        RemainderOf(q * size + i, size, q, i);
      } else {
        assert (q + 1) * size == q * size + size;
        RemainderOf(q * size + i, size, q + 1, 0);
      }
    } else {
      RemainderOf(q * size + i, width, 1, 0);
      RemainderOf(0, size, 0, 0);
      assert (q + 1) * size == count * size;
      QuotientIsUnique(size, q + 1, 0, count, 0);
    }
  }

  /** Inside the block for exactly its size; one step later outside, wrapping past the all-ones address
      included. Only the /0 block has no outside. */
  lemma LeavesBlock(net: seq<int>, prefix: nat, i: nat)
    requires IsBytes(net) && 1 <= prefix <= 8 * |net| && i <= BlockSize(|net|, prefix)
    ensures var size := BlockSize(|net|, prefix);
      && (After(net, prefix, i) / size == Val(net) / size <==> i < size)
      && (i < size ==> After(net, prefix, i) == Val(net) - Val(net) % size + i)
  {
    var size, count := BlockSize(|net|, prefix), Pow2(prefix);
    ValBounds(net);
    Pow2Adds(prefix, 8 * |net| - prefix);
    BlocksFit(Val(net), size, count);
    Division(Val(net), size);
    ClockQuotient(Val(net) / size, size, count, i);
    assert count == 2 * Pow2(prefix - 1);
  }

  // ---------------------------------------------------------------- expansion

  /** `block` lists consecutive addresses of `n` bytes from `first` on. */
  ghost predicate Consecutive(block: seq<seq<int>>, n: nat, first: int) {
    forall i | 0 <= i < |block| :: IsBytes(block[i]) && |block[i]| == n && Val(block[i]) == first + i
  }

  /** The addresses to scan: the block without its two ends when it has more than two. */
  ghost predicate IsExpansion(block: seq<seq<int>>, addr: seq<int>, prefix: nat)
    requires prefix <= 8 * |addr|
  {
    var size := BlockSize(|addr|, prefix);
    var network := Val(addr) - Val(addr) % size;
    if size > 2 then |block| == size - 2 && Consecutive(block, |addr|, network + 1)
    else |block| == size && Consecutive(block, |addr|, network)
  }

  lemma ExpansionIsUnique(a: seq<seq<int>>, b: seq<seq<int>>, addr: seq<int>, prefix: nat)
    requires prefix <= 8 * |addr| && IsExpansion(a, addr, prefix) && IsExpansion(b, addr, prefix)
    ensures a == b
  {
    forall i | 0 <= i < |a| ensures a[i] == b[i] {
      ValIsInjective(a[i], b[i]);
    }
  }

  lemma NextRemainder(n: int, width: int)
    requires width > 0
    ensures (n + 1) % width == (n % width + 1) % width
  {
    Division(n, width);
    var q, r := n / width, n % width;
    if r + 1 < width {
      RemainderOf(n + 1, width, q, r + 1);
      RemainderOf(r + 1, width, 0, r + 1);
    } else {
      assert (q + 1) * width == q * width + width;
      RemainderOf(n + 1, width, q + 1, 0);
      RemainderOf(r + 1, width, 1, 0);
    }
  }

  /** The loop's address after `i` rounds of the increment. */
  function Iterated(b: seq<int>, i: nat): seq<int> {
    if i == 0 then b else Increment(Iterated(b, i - 1))
  }

  lemma {:induction false} IteratedValue(net: seq<int>, prefix: nat, i: nat)
    requires IsBytes(net) && prefix <= 8 * |net|
    ensures var ip := Iterated(Mask(net, prefix), i);
      IsBytes(ip) && |ip| == |net| && Val(ip) == After(net, prefix, i)
  {
    if i == 0 {
      MaskIsBytes(net, prefix);
      MaskValue(net, prefix);
      ValBounds(Mask(net, prefix));
      RemainderOf(Val(Mask(net, prefix)), Pow2(8 * |net|), 0, Val(Mask(net, prefix)));
    } else {
      IteratedValue(net, prefix, i - 1);
      IncrementAddsOne(Iterated(Mask(net, prefix), i - 1));
      NextRemainder(Val(net) - Val(net) % BlockSize(|net|, prefix) + i - 1, Pow2(8 * |net|));
    }
  }

  /** The guard of the loop after `i` rounds, by value. */
  lemma GuardAfter(net: seq<int>, prefix: nat, i: nat)
    requires IsBytes(net) && prefix <= 8 * |net|
    ensures Contains(net, prefix, Iterated(Mask(net, prefix), i))
       <==> Val(net) / BlockSize(|net|, prefix) == After(net, prefix, i) / BlockSize(|net|, prefix)
  {
    IteratedValue(net, prefix, i);
    ContainsIsBlock(net, prefix, Iterated(Mask(net, prefix), i));
  }

  lemma WholeSpaceNeverEnds(net: seq<int>, i: nat)
    requires IsBytes(net)
    ensures Contains(net, 0, Iterated(Mask(net, 0), i))
  {
    var size, a := BlockSize(|net|, 0), After(net, 0, i);
    GuardAfter(net, 0, i);
    ValBounds(net);
    RemainderOf(Val(net), size, 0, Val(net));
    Division(Val(net) - Val(net) % size + i, size);
    RemainderOf(a, size, 0, a);
  }

  /** The guard of the loop, evaluated on the incremented bytes, ever fails exactly when the prefix is at least one:
      a /0 block never ends. */
  lemma LoopEndsUnlessPrefixIsZero(net: seq<int>, prefix: nat)
    requires IsBytes(net) && prefix <= 8 * |net|
    ensures (exists i: nat :: !Contains(net, prefix, Iterated(Mask(net, prefix), i))) <==> prefix >= 1
  {
    if prefix >= 1 {
      var size := BlockSize(|net|, prefix);
      LeavesBlock(net, prefix, size);
      GuardAfter(net, prefix, size);
    } else {
      forall i: nat ensures Contains(net, prefix, Iterated(Mask(net, prefix), i)) {
        WholeSpaceNeverEnds(net, i);
      }
    }
  }

  /** The `n` big-endian bytes of a number. */
  function ToBytes(v: nat, n: nat): (b: seq<int>)
    ensures IsBytes(b) && |b| == n
  {
    if n == 0 then [] else ToBytes(v / 256, n - 1) + [v % 256]
  }

  lemma {:induction false} ToBytesValue(v: nat, n: nat)
    requires v < Pow2(8 * n)
    ensures Val(ToBytes(v, n)) == v
  {
    if n > 0 {
      Pow2OfByte();
      Pow2Adds(8, 8 * (n - 1));
      BlocksFit(v, 256, Pow2(8 * (n - 1)));
      ToBytesValue(v / 256, n - 1);
      Division(v, 256);
    }
  }

  /** The address list as a function of the block. */
  function Expansion(addr: seq<int>, prefix: nat): (block: seq<seq<int>>)
    requires IsBytes(addr) && prefix <= 8 * |addr|
  {
    var size := BlockSize(|addr|, prefix);
    ValBounds(addr);
    SmallRemainder(Val(addr), size);
    var network: nat := Val(addr) - Val(addr) % size;
    if size > 2 then seq(size - 2, i requires 0 <= i => ToBytes(network + 1 + i, |addr|))
    else seq(size, i requires 0 <= i => ToBytes(network + i, |addr|))
  }

  /** The numbers with the quotient of `v` are those of its range. */
  lemma QuotientByRange(v: int, a: int, size: int)
    requires size > 0
    ensures v / size == a / size <==> v - v % size <= a < v - v % size + size
  {
    Division(v, size);
    Division(a, size);
    if v - v % size <= a < v - v % size + size {
      QuotientIsUnique(size, v / size, a - (v - v % size), a / size, a % size);
    }
  }

  /** A masked address is a multiple of the block size, at most one block size below the address. */
  lemma MaskFloor(b: seq<int>, prefix: nat) returns (q: int)
    requires IsBytes(b) && prefix <= 8 * |b|
    ensures IsBytes(Mask(b, prefix)) && Val(Mask(b, prefix)) == q * BlockSize(|b|, prefix)
    ensures Val(Mask(b, prefix)) <= Val(b) < Val(Mask(b, prefix)) + BlockSize(|b|, prefix)
  {
    MaskIsBytes(b, prefix);
    MaskValue(b, prefix);
    Division(Val(b), BlockSize(|b|, prefix));
    q := Val(b) / BlockSize(|b|, prefix);
  }

  /** A block is a range of addresses, from the masked address on. */
  lemma ContainsIsRange(net: seq<int>, prefix: nat, ip: seq<int>)
    requires IsBytes(net) && IsBytes(ip) && |net| == |ip| && prefix <= 8 * |net|
    ensures Contains(net, prefix, ip)
       <==> Val(Mask(net, prefix)) <= Val(ip) < Val(Mask(net, prefix)) + BlockSize(|net|, prefix)
  {
    var p := MaskFloor(net, prefix);
    var q := MaskFloor(ip, prefix);
    var first, floor, size := Val(Mask(net, prefix)), Val(Mask(ip, prefix)), BlockSize(|net|, prefix);
    ValIsInjective(Mask(net, prefix), Mask(ip, prefix));
    if first <= Val(ip) < first + size {
      QuotientIsUnique(size, p, Val(ip) - first, q, Val(ip) - floor);
    }
  }

  lemma BlockIsInRange(addr: seq<int>, prefix: nat)
    requires IsBytes(addr) && prefix <= 8 * |addr|
    ensures var size := BlockSize(|addr|, prefix);
      0 <= Val(addr) - Val(addr) % size && Val(addr) - Val(addr) % size + size <= Pow2(8 * |addr|)
  {
    var size := BlockSize(|addr|, prefix);
    ValBounds(addr);
    Pow2Adds(prefix, 8 * |addr| - prefix);
    BlocksFit(Val(addr), size, Pow2(prefix));
    Division(Val(addr), size);
    SmallRemainder(Val(addr), size);
  }

  lemma ExpansionListsBlock(addr: seq<int>, prefix: nat)
    requires IsBytes(addr) && prefix <= 8 * |addr|
    ensures IsExpansion(Expansion(addr, prefix), addr, prefix)
  {
    BlockIsInRange(addr, prefix);
    var network: nat := Val(addr) - Val(addr) % BlockSize(|addr|, prefix);
    var block := Expansion(addr, prefix);
    var skipped := if BlockSize(|addr|, prefix) > 2 then 1 else 0;
    forall i | 0 <= i < |block|
      ensures IsBytes(block[i]) && |block[i]| == |addr| && Val(block[i]) == network + skipped + i
    {
      ToBytesValue(network + skipped + i, |addr|);
    }
  }

  /** The state of the loop after |ips| rounds. */
  ghost predicate Expanding(addr: seq<int>, prefix: nat, ips: seq<seq<int>>, ip: seq<int>)
    requires IsBytes(addr) && 1 <= prefix <= 8 * |addr|
  {
    var size := BlockSize(|addr|, prefix);
    && IsBytes(ip) && |ip| == |addr|
    && |ips| <= size && Val(ip) == After(addr, prefix, |ips|)
    && (Contains(addr, prefix, ip) <==> |ips| < size)
    && Consecutive(ips, |addr|, Val(addr) - Val(addr) % size)
  }

  lemma ExpandingStarts(addr: seq<int>, prefix: nat)
    requires IsBytes(addr) && 1 <= prefix <= 8 * |addr|
    ensures Expanding(addr, prefix, [], Mask(addr, prefix))
  {
    var masked := Mask(addr, prefix);
    MaskIsBytes(addr, prefix);
    MaskValue(addr, prefix);
    ValBounds(masked);
    RemainderOf(Val(masked), Pow2(8 * |addr|), 0, Val(masked));
    ContainsIsBlock(addr, prefix, masked);
    LeavesBlock(addr, prefix, 0);
  }

  lemma ExpandingAdvances(addr: seq<int>, prefix: nat, ips: seq<seq<int>>, ip: seq<int>)
    requires IsBytes(addr) && 1 <= prefix <= 8 * |addr|
    requires Expanding(addr, prefix, ips, ip) && Contains(addr, prefix, ip)
    ensures Expanding(addr, prefix, ips + [ip], Increment(ip))
  {
    LeavesBlock(addr, prefix, |ips|);
    IncrementAddsOne(ip);
    NextRemainder(Val(addr) - Val(addr) % BlockSize(|addr|, prefix) + |ips|, Pow2(8 * |addr|));
    ContainsIsBlock(addr, prefix, Increment(ip));
    LeavesBlock(addr, prefix, |ips| + 1);
  }

  /** `expandCIDR`. With prefix 0 the source's loop does not end, so it is no call of this method. */
  method ExpandCIDR(addr: seq<int>, prefix: nat) returns (ips: seq<seq<int>>)
    requires IsBytes(addr) && 1 <= prefix <= 8 * |addr|
    ensures IsExpansion(ips, addr, prefix) && ips == Expansion(addr, prefix)
  {
    var masked := Mask(addr, prefix);
    var ip := new int[|addr|](i requires 0 <= i < |addr| => masked[i]);
    assert ip[..] == masked;
    ExpandingStarts(addr, prefix);
    ips := [];
    while Contains(addr, prefix, ip[..])
      invariant Expanding(addr, prefix, ips, ip[..])
      decreases BlockSize(|addr|, prefix) - |ips|
    {
      ExpandingAdvances(addr, prefix, ips, ip[..]);
      ips := ips + [ip[..]];
      IncIP(ip);
    }
    if |ips| > 2 {
      ips := ips[1..|ips| - 1];
    }
    ExpansionListsBlock(addr, prefix);
    ExpansionIsUnique(ips, Expansion(addr, prefix), addr, prefix);
  }
}
