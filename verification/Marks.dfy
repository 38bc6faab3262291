/**
 The conntrack mark.  The upper 24 bits carry an epoch and a zone pair; the low
 byte belongs to other users of the mark and survives every mutation.  The
 fields do not overlap, so the shifts and masks of the source are written as
 products, quotients and remainders: `x << 8` is `256 * x`, `x & 0xffffff00` is
 `x - x % 256`, and an or of disjoint fields is a sum.
 */
module Marks {

  const LOW: nat := 256
  const MAX_EPOCH: nat := 4095
  const MAX_SLOT: nat := 63

  datatype CacheMark = CacheMark(epoch: nat, source: nat, destination: nat)

  predicate SlotInRange(slot: nat) {
    1 <= slot <= MAX_SLOT
  }

  predicate EpochInRange(epoch: nat) {
    1 <= epoch <= MAX_EPOCH
  }

  predicate Packable(m: CacheMark) {
    EpochInRange(m.epoch) && SlotInRange(m.source) && SlotInRange(m.destination)
  }

  /** `PackCacheMark`; the value beside an error is zero. */
  function Pack(m: CacheMark): nat {
    if Packable(m) then m.epoch * 0x100000 + m.source * 0x4000 + m.destination * 0x100 else 0
  }

  /** The bits of a mark that the cache owns. */
  function Owned(mark: nat): nat {
    mark - mark % LOW
  }

  /** `UnpackCacheMark`; the flag says that all three fields are set. */
  function Unpack(mark: nat): (CacheMark, bool) {
    var m := CacheMark(mark / 0x100000 % 0x1000, mark / 0x4000 % 0x40, mark / 0x100 % 0x40);
    (m, m.epoch != 0 && m.source != 0 && m.destination != 0)
  }

  /** `SetCacheMark` */
  function Set(existing: nat, m: CacheMark): nat {
    if Packable(m) then existing % LOW + Pack(m) else existing
  }

  /** `ClearCacheMark` */
  function Clear(existing: nat, owns: bool): nat {
    if owns then existing % LOW else existing
  }

  /** `CacheHit` */
  predicate Hit(existing: nat, expected: CacheMark, owns: bool) {
    owns && Packable(expected) && Owned(existing) == Pack(expected)
  }

  /** Packing loses nothing, whatever the low byte is. */
  lemma UnpackPack(m: CacheMark, low: nat)
    requires Packable(m) && low < LOW
    ensures Unpack(Pack(m) + low) == (m, true)
    ensures Owned(Pack(m) + low) == Pack(m) && (Pack(m) + low) % LOW == low
    ensures Pack(m) + low < 0x1_0000_0000
  {
    var upper := m.epoch * 0x1000 + m.source * 0x40 + m.destination;
    assert Pack(m) == upper * 0x100;
    LowByte(upper, low);
    UpperFields(m, upper);
    assert (upper * 0x100 + low) / 0x4000 == upper / 0x40 && (upper * 0x100 + low) / 0x100000 == upper / 0x1000;
  }

  lemma LowByte(upper: nat, low: nat)
    requires low < LOW
    ensures (upper * 0x100 + low) / 0x100 == upper && (upper * 0x100 + low) % 0x100 == low
  {
  }

  lemma UpperFields(m: CacheMark, upper: nat)
    requires Packable(m) && upper == m.epoch * 0x1000 + m.source * 0x40 + m.destination
    ensures upper / 0x1000 == m.epoch && upper / 0x40 == m.epoch * 0x40 + m.source && upper % 0x40 == m.destination
  {
  }

  /** Two in-range marks with one encoding are one mark. */
  lemma PackInjective(m: CacheMark, n: CacheMark)
    requires Packable(m) && Packable(n) && Pack(m) == Pack(n)
    ensures m == n
  {
    UnpackPack(m, 0);
    UnpackPack(n, 0);
  }

  /** Exactly the marks out of range are encoded as the unmarked value. */
  lemma PackNonzero(m: CacheMark)
    ensures Pack(m) == 0 <==> !Packable(m)
  {
  }

  /** A set mark hits exactly itself and keeps the low byte. */
  lemma SetHits(existing: nat, m: CacheMark, n: CacheMark)
    requires Packable(m)
    ensures Hit(Set(existing, m), n, true) <==> m == n
    ensures Set(existing, m) % LOW == existing % LOW
  {
    UnpackPack(m, existing % LOW);
    if Packable(n) && Pack(m) == Pack(n) { PackInjective(m, n); }
  }

  /** A cleared mark hits nothing and keeps the low byte. */
  lemma ClearMisses(existing: nat, n: CacheMark)
    ensures !Hit(Clear(existing, true), n, true)
    ensures Clear(existing, true) % LOW == existing % LOW
  {
    PackNonzero(n);
  }

  /** A hit is read back as the mark it expected. */
  lemma HitUnpacks(existing: nat, m: CacheMark)
    requires Hit(existing, m, true)
    ensures Unpack(existing) == (m, true)
  {
    UnpackPack(m, existing % LOW);
    assert existing == Pack(m) + existing % LOW;
  }

  /** On 32-bit marks, being read back as an in-range mark is the same as hitting it. */
  lemma UnpacksHit(existing: nat, m: CacheMark)
    requires existing < 0x1_0000_0000 && Unpack(existing) == (m, true)
    ensures Hit(existing, m, true)
  {
    var upper := existing / 0x100;
    assert existing / 0x4000 == upper / 0x40 && existing / 0x100000 == upper / 0x1000;
  }
}
