/** Addresses and prefixes as the server's library has them, and the rewriting of
    IPv4-mapped prefixes (section 2.5.5.2 of RFC 4291). */
module NetAddresses {

  function Pow2(n: nat): nat {
    if n == 0 then 1 else 2 * Pow2(n - 1)
  }

  lemma {:induction false} Pow2Positive(n: nat)
    ensures Pow2(n) >= 1
  {
    if n > 0 {
      Pow2Positive(n - 1);
    }
  }

  lemma {:induction false} Pow2Sum(a: nat, b: nat)
    ensures Pow2(a + b) == Pow2(a) * Pow2(b)
  {
    if a > 0 {
      Pow2Sum(a - 1, b);
      assert Pow2(a + b) == 2 * (Pow2(a - 1) * Pow2(b));
    }
  }

  const BITS4: nat := 32
  const BITS6: nat := 128

  /** An IPv4 address, or an IPv6 address with its zone ("" for none), as numbers. */
  datatype Addr = V4(bits: nat) | V6(bits: nat, zone: string)

  function BitLen(a: Addr): nat {
    if a.V4? then BITS4 else BITS6
  }

  predicate ValidAddr(a: Addr) {
    a.bits < Pow2(BitLen(a))
  }

  /** ::ffff:0:0, the start of the mapped block. */
  function MappedBase(): nat {
    0xffff * Pow2(BITS4)
  }

  predicate Is4In6(a: Addr) {
    a.V6? && MappedBase() <= a.bits < MappedBase() + Pow2(BITS4)
  }

  function Unmap(a: Addr): Addr {
    if Is4In6(a) then V4(a.bits - MappedBase()) else a
  }

  /** The IPv6 form of an IPv4 address. */
  function Mapped(a: Addr): Addr
    requires a.V4?
  {
    V6(MappedBase() + a.bits, "")
  }

  datatype Prefix = Prefix(addr: Addr, len: nat)

  predicate ValidPrefix(p: Prefix) {
    ValidAddr(p.addr) && p.len <= BitLen(p.addr) && (p.addr.V6? ==> p.addr.zone == "")
  }

  /** How far a prefix's host part reaches. */
  function HostSize(p: Prefix): nat
    requires ValidPrefix(p)
    ensures HostSize(p) >= 1
  {
    Pow2Positive(BitLen(p.addr) - p.len);
    Pow2(BitLen(p.addr) - p.len)
  }

  /** Same family, no zone, and the same leading bits. */
  predicate Contains(p: Prefix, a: Addr)
    requires ValidPrefix(p)
  {
    && a.V4? == p.addr.V4?
    && (a.V6? ==> a.zone == "")
    && a.bits / HostSize(p) == p.addr.bits / HostSize(p)
  }

  /** The largest multiple of `h` up to `x`. */
  function Multiple(x: nat, h: nat): nat
    requires h >= 1
  {
    x / h * h
  }

  function WithBits(a: Addr, bits: nat): Addr {
    a.(bits := bits)
  }

  /** The prefix with its host bits cleared. */
  function Masked(p: Prefix): Prefix
    requires ValidPrefix(p)
  {
    Prefix(WithBits(p.addr, Multiple(p.addr.bits, HostSize(p))), p.len)
  }

  function UnmapPrefix(p: Prefix): Prefix {
    if !Is4In6(p.addr) || p.len < 96 then p else Prefix(Unmap(p.addr), p.len - 96)
  }

  /** PrefixFrom drops a zone. */
  function Single(a: Addr): Prefix {
    Prefix(if a.V6? then V6(a.bits, "") else a, BitLen(a))
  }

  lemma ClearedBits(x: nat, h: nat)
    requires h >= 1
    ensures x / h * h <= x && x / h * h / h == x / h
  {
    assert x == x / h * h + x % h;
    Quotient(x / h, h);
  }

  lemma Quotient(q: nat, h: nat)
    requires h >= 1
    ensures q * h / h == q
  {
    Division(q * h, h, q, 0);
  }

  lemma Division(x: nat, h: nat, q: nat, r: nat)
    requires h >= 1 && x == q * h + r && r < h
    ensures x / h == q
  {
    var d: int, e: int := x / h, q;
    Spread(d - e, h);
    assert x == x / h * h + x % h;
    assert (d - e) * h == r - x % h;
  }

  /** Multiples of `h` other than zero are at least `h` away from zero. */
  lemma Spread(d: int, h: int)
    requires h >= 1
    ensures d >= 1 ==> d * h >= h
    ensures d <= -1 ==> d * h <= -h
  {
  }

  /** Masking a prefix preserves the set it stands for. */
  lemma MaskingPreservesSet(p: Prefix, a: Addr)
    requires ValidPrefix(p)
    ensures ValidPrefix(Masked(p)) && Masked(p).len == p.len
    ensures Contains(Masked(p), a) <==> Contains(p, a)
  {
    ClearedBits(p.addr.bits, HostSize(p));
  }

  lemma ShiftedQuotient(base: nat, x: nat, h: nat, k: nat)
    requires h >= 1 && base == k * h
    ensures (base + x) / h == k + x / h
  {
    assert x == x / h * h + x % h;
    assert (k + x / h) * h == k * h + x / h * h;
    Division(base + x, h, k + x / h, x % h);
  }

  /** A mapped prefix ::ffff:x/n with n at least 96 means x/(n - 96): an IPv4 address lies in
      the rewritten prefix exactly when its mapped form lies in the original one. */
  lemma UnmapPreservesMeaning(p: Prefix, a: Addr)
    requires ValidPrefix(p) && Is4In6(p.addr) && p.len >= 96 && a.V4? && ValidAddr(a)
    ensures ValidPrefix(UnmapPrefix(p)) && UnmapPrefix(p).addr.V4? && UnmapPrefix(p).len == p.len - 96
    ensures Contains(UnmapPrefix(p), a) <==> Contains(p, Mapped(a))
  {
    hide Pow2;
    var q := UnmapPrefix(p);
    var h := HostSize(p);
    assert BITS6 - p.len == BITS4 - q.len;
    Pow2Sum(q.len, BITS4 - q.len);
    var k := 0xffff * Pow2(q.len);
    assert MappedBase() == k * h;
    ShiftedQuotient(MappedBase(), a.bits, h, k);
    ShiftedQuotient(MappedBase(), q.addr.bits, h, k);
    assert p.addr.bits == MappedBase() + q.addr.bits;
  }

  /** A single address is in its own prefix and nothing else of its family is. */
  lemma SingleIsExact(a: Addr, b: Addr)
    requires ValidAddr(a) && (a.V6? ==> a.zone == "")
    ensures ValidPrefix(Single(a)) && (Contains(Single(a), b) <==> b == a)
  {
    assert Pow2(0) == 1;
  }

  // ----- what a prefix and the unmapped form mean ------------------------------------------------

  /** Bit `i` of an address, counted from the left. */
  function Bit(a: Addr, i: nat): nat
    requires i < BitLen(a)
  {
    Pow2Positive(BitLen(a) - 1 - i);
    a.bits / Pow2(BitLen(a) - 1 - i) % 2
  }

  lemma Halving(x: nat, h: nat)
    requires h >= 1
    ensures x / (2 * h) == x / h / 2
  {
    var q, r := x / h, x % h;
    assert x == q * h + r;
    assert q == q / 2 * 2 + q % 2;
    assert q * h == q / 2 * (2 * h) + q % 2 * h;
    Below(q % 2, h, r);
    Division(x, 2 * h, q / 2, q % 2 * h + r);
  }

  lemma Below(b: nat, h: nat, r: nat)
    requires b <= 1 && r < h
    ensures 0 <= b * h + r < 2 * h
  {
  }

  lemma TooSmall(x: nat, h: nat)
    requires x < h
    ensures x / h == 0
  {
    Division(x, h, 0, x);
  }

  /** Two numbers of one width have the same quotient by a power of two exactly when they have the
      same leading bits. */
  lemma {:induction false} QuotientsAreLeadingBits(a: Addr, b: Addr, n: nat)
    requires ValidAddr(a) && ValidAddr(b) && a.V4? == b.V4? && n <= BitLen(a)
    ensures Pow2(BitLen(a) - n) >= 1
    ensures a.bits / Pow2(BitLen(a) - n) == b.bits / Pow2(BitLen(a) - n) <==>
            forall i :: 0 <= i < n ==> Bit(a, i) == Bit(b, i)
  {
    hide Pow2;
    var h := BitLen(a) - n;
    Pow2Positive(h);
    if n == 0 {
      TooSmall(a.bits, Pow2(h));
      TooSmall(b.bits, Pow2(h));
    } else {
      QuotientsAreLeadingBits(a, b, n - 1);
      Pow2Next(h);
      Halving(a.bits, Pow2(h));
      Halving(b.bits, Pow2(h));
      assert Bit(a, n - 1) == a.bits / Pow2(h) % 2 && Bit(b, n - 1) == b.bits / Pow2(h) % 2;
    }
  }

  lemma Pow2Next(n: nat)
    ensures Pow2(n + 1) == 2 * Pow2(n)
  {
  }

  /** A prefix contains the addresses of its family, without a zone, that agree with it on as many
      leading bits as its length says. */
  lemma ContainsMeansLeadingBits(p: Prefix, a: Addr)
    requires ValidPrefix(p) && ValidAddr(a)
    ensures Contains(p, a) <==>
            && a.V4? == p.addr.V4? && (a.V6? ==> a.zone == "")
            && forall i :: 0 <= i < p.len ==> Bit(a, i) == Bit(p.addr, i)
  {
    hide Pow2, Bit;
    if a.V4? == p.addr.V4? {
      QuotientsAreLeadingBits(a, p.addr, p.len);
    }
  }

  /** An address and its IPv4-mapped form are one, whatever the zone says; every other IPv6 address
      and every IPv4 one is left as it is. */
  lemma UnmapMeaning(a: Addr)
    requires ValidAddr(a)
    ensures ValidAddr(Unmap(a))
    ensures forall b :: ValidAddr(b) && b.V4? && a.V6? && a.bits == Mapped(b).bits ==> Unmap(a) == b
    ensures (forall b :: ValidAddr(b) && b.V4? && a.V6? ==> a.bits != Mapped(b).bits) ==> Unmap(a) == a
  {
    hide Pow2;
    if Is4In6(a) {
      assert ValidAddr(V4(a.bits - MappedBase())) && Mapped(V4(a.bits - MappedBase())).bits == a.bits;
    }
  }

  /** The whole of a family is one prefix only: the one of no bits. */
  ghost predicate Covers(p: Prefix, v4: bool)
    requires ValidPrefix(p)
  {
    forall a :: ValidAddr(a) && a.V4? == v4 && (a.V6? ==> a.zone == "") ==> Contains(p, a)
  }

  function Zero(v4: bool): Addr {
    if v4 then V4(0) else V6(0, "")
  }

  /** The address whose first bit alone is set. */
  function Top(v4: bool): Addr {
    if v4 then V4(Pow2(31)) else V6(Pow2(127), "")
  }

  lemma {:induction false} Pow2Grows(a: nat, b: nat)
    requires a <= b
    ensures Pow2(a) <= Pow2(b)
  {
    if a < b {
      Pow2Grows(a, b - 1);
    }
  }

  lemma CoversIffNoBits(p: Prefix, v4: bool)
    requires ValidPrefix(p)
    ensures Covers(p, v4) <==> p.len == 0 && p.addr.V4? == v4
  {
    hide Pow2;
    Pow2Positive(31);
    Pow2Positive(127);
    Pow2Next(31);
    Pow2Next(127);
    Pow2Positive(BitLen(Zero(v4)));
    assert ValidAddr(Zero(v4)) && ValidAddr(Top(v4));
    if p.addr.V4? != v4 {
      assert !Contains(p, Zero(v4));
    } else if p.len == 0 {
      forall a | ValidAddr(a) && a.V4? == v4 && (a.V6? ==> a.zone == "") ensures Contains(p, a) {
        TooSmall(a.bits, Pow2(BitLen(a)));
        TooSmall(p.addr.bits, Pow2(BitLen(a)));
      }
    } else {
      Pow2Grows(BitLen(p.addr) - p.len, BitLen(p.addr) - 1);
      FarApart(HostSize(p), Top(v4).bits);
      assert !(Contains(p, Zero(v4)) && Contains(p, Top(v4)));
    }
  }

  lemma FarApart(h: nat, x: nat)
    requires 1 <= h <= x
    ensures 0 / h == 0 && x / h >= 1
  {
    TooSmall(0, h);
    assert x == x / h * h + x % h;
    assert 0 * h == 0;
  }
}
