/** IPv4 prefixes: masking, containment and overlap, bit by bit. */
module Prefixes {
  import opened Base

  type Addr = x: int | 0 <= x < 0x1_0000_0000

  /** What parsing the text of a prefix yields; only the IPv4 case is ever usable. */
  datatype Cidr = Malformed(text: string) | Ip6(text: string) | Ip4(addr: Addr, bits: nat)

  /** The number without its lowest `low` bits. */
  function Top(x: nat, low: nat): nat {
    if low == 0 then x else Top(x / 2, low - 1)
  }

  predicate LowBitsZero(x: nat, low: nat) {
    low == 0 || (x % 2 == 0 && LowBitsZero(x / 2, low - 1))
  }

  predicate IsIp4(p: Cidr) {
    p.Ip4? && p.bits <= 32
  }

  /** The prefix equals itself with the bits past its length cleared. */
  predicate Canonical(p: Cidr)
    requires IsIp4(p)
  {
    LowBitsZero(p.addr, 32 - p.bits)
  }

  predicate Contains(p: Cidr, x: Addr) {
    IsIp4(p) && Top(p.addr, 32 - p.bits) == Top(x, 32 - p.bits)
  }

  /** Two prefixes are compared at the length of the shorter one. */
  predicate Overlaps(p: Cidr, q: Cidr) {
    && IsIp4(p) && IsIp4(q)
    && var low := 32 - if p.bits < q.bits then p.bits else q.bits;
       Top(p.addr, low) == Top(q.addr, low)
  }

  lemma {:induction false} TopTwice(x: nat, m: nat, n: nat)
    ensures Top(Top(x, m), n) == Top(x, m + n)
  {
    if m > 0 {
      TopTwice(x / 2, m - 1, n);
    }
  }

  /** Addresses equal at a longer prefix are equal at every shorter one. */
  lemma CoarserAgrees(x: Addr, y: Addr, low: nat, more: nat)
    requires low <= more
    requires Top(x, low) == Top(y, low)
    ensures Top(x, more) == Top(y, more)
  {
  }

  /** The length comparison decides whether two prefixes share an address. */
  lemma OverlapsExactly(p: Cidr, q: Cidr)
    requires IsIp4(p) && IsIp4(q)
    ensures Overlaps(p, q) <==> exists x: Addr :: Contains(p, x) && Contains(q, x)
  {
    if Overlaps(p, q) {
      var x := if p.bits < q.bits then q.addr else p.addr;
      assert Contains(p, x) && Contains(q, x);
    }
    if x: Addr :| Contains(p, x) && Contains(q, x) {
      if p.bits < q.bits {
        CoarserAgrees(q.addr, x, 32 - q.bits, 32 - p.bits);
      } else {
        CoarserAgrees(p.addr, x, 32 - p.bits, 32 - q.bits);
      }
    }
  }

  lemma {:induction false} BlockRange(start: nat, x: nat, low: nat)
    requires LowBitsZero(start, low)
    ensures Top(start, low) == Top(x, low) <==> start <= x < start + Pow2(low)
  {
    if low > 0 {
      BlockRange(start / 2, x / 2, low - 1);
    }
  }

  /** A canonical prefix contains exactly the addresses from its own one to the end of its block. */
  lemma CanonicalRange(p: Cidr, x: Addr)
    requires IsIp4(p) && Canonical(p)
    ensures Contains(p, x) <==> p.addr <= x < p.addr + Pow2(32 - p.bits)
  {
    BlockRange(p.addr, x, 32 - p.bits);
  }
}
