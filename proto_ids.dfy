/**
 * Integer encodings of the RPC layer: a `PeerId` is two `u32` halves of a
 * `u64`, a `Nonce` two `u64` halves of a `u128`.
 */
module ProtoIds {
  import opened Wrappers

  const TwoTo32: int := 0x1_0000_0000
  const TwoTo64: int := 0x1_0000_0000_0000_0000

  newtype U32 = x: int | 0 <= x < 0x1_0000_0000
  newtype U64 = x: int | 0 <= x < 0x1_0000_0000_0000_0000
  newtype U128 = x: int | 0 <= x < 0x1_0000_0000_0000_0000_0000_0000_0000_0000

  datatype PeerId = PeerId(ownerId: U32, id: U32)

  /** `PeerId::from_u64`: the owner is the high 32 bits and the id the low 32 bits. */
  function PeerIdFromU64(peerId: U64): (p: PeerId)
    ensures p.ownerId as int * TwoTo32 + p.id as int == peerId as int
  {
    PeerId((peerId as int / TwoTo32) as U32, (peerId as int % TwoTo32) as U32)
  }

  /** `PeerId::as_u64`: `(owner_id << 32) | id`; the halves do not overlap. */
  function AsU64(p: PeerId): (x: U64)
    ensures x as int / TwoTo32 == p.ownerId as int
    ensures x as int % TwoTo32 == p.id as int
  {
    var x := p.ownerId as int * TwoTo32 + p.id as int;
    SplitUnique(x, p.ownerId as int, p.id as int, TwoTo32);
    x as U64
  }

  /** `hi * base + lo` with `lo < base` has quotient `hi` and remainder `lo`. */
  lemma SplitUnique(x: int, hi: int, lo: int, base: int)
    requires base > 0 && 0 <= lo < base && 0 <= hi
    requires x == hi * base + lo
    ensures x / base == hi && x % base == lo
  {
    var q, r := x / base, x % base;
    assert (hi - q) * base == r - lo;
    if hi - q >= 1 {
      assert false;
    } else if hi - q <= -1 {
      assert false;
    }
  }

  /** Round trip from the id, including halves equal to `u32::MAX`. */
  lemma PeerIdRoundTrip(p: PeerId)
    ensures PeerIdFromU64(AsU64(p)) == p
  {
  }

  /** Round trip from the integer. */
  lemma U64RoundTrip(x: U64)
    ensures AsU64(PeerIdFromU64(x)) == x
  {
  }

  /** The four cases Zed's `PeerId` conversion test asserts. */
  lemma PeerIdRoundTripCases()
    ensures PeerIdFromU64(AsU64(PeerId(10, 3))) == PeerId(10, 3)
    ensures PeerIdFromU64(AsU64(PeerId(0xFFFF_FFFF, 3))) == PeerId(0xFFFF_FFFF, 3)
    ensures PeerIdFromU64(AsU64(PeerId(10, 0xFFFF_FFFF))) == PeerId(10, 0xFFFF_FFFF)
    ensures PeerIdFromU64(AsU64(PeerId(0xFFFF_FFFF, 0xFFFF_FFFF))) == PeerId(0xFFFF_FFFF, 0xFFFF_FFFF)
  {
    PeerIdRoundTrip(PeerId(10, 3));
    PeerIdRoundTrip(PeerId(0xFFFF_FFFF, 3));
    PeerIdRoundTrip(PeerId(10, 0xFFFF_FFFF));
    PeerIdRoundTrip(PeerId(0xFFFF_FFFF, 0xFFFF_FFFF));
  }

  /** `Ord for PeerId`: owner first, then id. */
  function Cmp(a: PeerId, b: PeerId): (r: Ordering)
    ensures r == Equal <==> a == b
    ensures r == Less <==> a.ownerId < b.ownerId || (a.ownerId == b.ownerId && a.id < b.id)
  {
    CmpInt(a.ownerId as int, b.ownerId as int).Then(CmpInt(a.id as int, b.id as int))
  }

  /** The ordering agrees with the numeric order of the packed `u64`. */
  lemma CmpMatchesU64(a: PeerId, b: PeerId)
    ensures Cmp(a, b) == CmpInt(AsU64(a) as int, AsU64(b) as int)
  {
    var x, y := a.ownerId as int, b.ownerId as int;
    var u, v := a.id as int, b.id as int;
    if x < y {
      assert x * TwoTo32 + u < (x + 1) * TwoTo32 <= y * TwoTo32 + v;
    } else if y < x {
      assert y * TwoTo32 + v < (y + 1) * TwoTo32 <= x * TwoTo32 + u;
    }
  }

  /** The ordering is total and consistent with equality. */
  lemma CmpIsTotalOrder(a: PeerId, b: PeerId, c: PeerId)
    ensures Cmp(a, b) == Equal <==> a == b
    ensures Cmp(a, b) == Cmp(b, a).Reverse()
    ensures Cmp(a, b) == Less && Cmp(b, c) == Less ==> Cmp(a, c) == Less
  {
    CmpMatchesU64(a, b);
    CmpMatchesU64(b, a);
    CmpMatchesU64(b, c);
    CmpMatchesU64(a, c);
    if AsU64(a) == AsU64(b) {
      PeerIdRoundTrip(a);
      PeerIdRoundTrip(b);
    }
  }

  datatype Nonce = Nonce(upperHalf: U64, lowerHalf: U64)

  /** `From<u128> for Nonce`: high and low 64 bits. */
  function NonceFromU128(nonce: U128): (n: Nonce)
    ensures n.upperHalf as int * TwoTo64 + n.lowerHalf as int == nonce as int
  {
    Nonce((nonce as int / TwoTo64) as U64, (nonce as int % TwoTo64) as U64)
  }

  /** `From<Nonce> for u128`: `(upper << 64) | lower`. */
  function NonceToU128(n: Nonce): (x: U128)
    ensures x as int / TwoTo64 == n.upperHalf as int
    ensures x as int % TwoTo64 == n.lowerHalf as int
  {
    var x := n.upperHalf as int * TwoTo64 + n.lowerHalf as int;
    SplitUnique(x, n.upperHalf as int, n.lowerHalf as int, TwoTo64);
    x as U128
  }

  lemma NonceRoundTrip(x: U128)
    ensures NonceToU128(NonceFromU128(x)) == x
  {
  }

  lemma NonceHalvesRoundTrip(n: Nonce)
    ensures NonceFromU128(NonceToU128(n)) == n
  {
  }
}
