/** The lease ledger and motherbrain registration of the access point
    (crates/pete-brainstem/src/network_registry.rs).  Each function is one atomic
    step here; status notifications are left out. */
module NetworkRegistry {
  import opened Machine
  import opened WrappingTime

  const LEASES := 8

  // ---------------------------------------------------------------- identity hashes

  const FNV_OFFSET: u32 := 0x811c_9dc5
  const FNV_PRIME := 0x0100_0193

  /** Exclusive or with a byte touches only the low eight bits. */
  function XorLow(hash: u32, b: byte): u32 {
    hash - hash % 0x100 + (((hash % 0x100) as bv8) ^ (b as bv8)) as int
  }

  /** The wrapping multiplication. */
  function Multiplied(hash: u32): u32 { (hash * FNV_PRIME) % TWO_TO_THE_32 }

  /** One round of the 32-bit FNV-1a hash. */
  function HashByte(hash: u32, b: byte): u32 { Multiplied(XorLow(hash, b)) }

  function HashFrom(hash: u32, bytes: seq<byte>): u32 {
    if bytes == [] then hash else HashByte(HashFrom(hash, bytes[..|bytes| - 1]), bytes[|bytes| - 1])
  }

  /** Zero marks an empty slot, so no identity hashes to it. */
  function NonZero(hash: u32): (h: u32)
    ensures h != 0
  {
    if hash == 0 then 1 else hash
  }

  /** The lower-case hexadecimal text of a byte. */
  function HexDigit(v: int): byte
    requires 0 <= v < 16
  {
    if v < 10 then 0x30 + v else 0x61 + (v - 10)
  }

  function High(b: byte): int { b as int / 0x10 }

  function Low(b: byte): int { b as int % 0x10 }

  function HexText(bytes: seq<byte>): seq<byte> {
    if bytes == [] then []
    else HexText(bytes[..|bytes| - 1]) + [HexDigit(High(bytes[|bytes| - 1])), HexDigit(Low(bytes[|bytes| - 1]))]
  }

  method IdentityHash(identity: seq<byte>) returns (id: u32)
    ensures id == NonZero(HashFrom(FNV_OFFSET, identity)) && id != 0
  {
    var hash := FNV_OFFSET;
    for i := 0 to |identity|
      invariant hash == HashFrom(FNV_OFFSET, identity[..i])
    {
      assert identity[..i + 1][..i] == identity[..i];
      hash := XorLow(hash, identity[i]);
      hash := (hash * FNV_PRIME) % TWO_TO_THE_32;
    }
    assert identity[..|identity|] == identity;
    id := NonZero(hash);
  }

  /** The hash of a DHCP identity is the identity hash of its hexadecimal text, so
      a host may register under the text form of its lease identity. */
  method DhcpIdentityHash(identity: seq<byte>) returns (id: u32)
    ensures id == NonZero(HashFrom(FNV_OFFSET, HexText(identity))) && id != 0
  {
    var hash := FNV_OFFSET;
    for i := 0 to |identity|
      invariant hash == HashFrom(FNV_OFFSET, HexText(identity[..i]))
    {
      var high, low := HexDigit(High(identity[i])), HexDigit(Low(identity[i]));
      assert identity[..i + 1][..i] == identity[..i];
      TwoMore(FNV_OFFSET, HexText(identity[..i]), high, low);
      hash := HashByte(hash, high);
      hash := HashByte(hash, low);
    }
    assert identity[..|identity|] == identity;
    id := NonZero(hash);
  }

  lemma TwoMore(hash: u32, text: seq<byte>, a: byte, b: byte)
    ensures HashFrom(hash, text + [a, b]) == HashByte(HashByte(HashFrom(hash, text), a), b)
  {
    assert (text + [a, b])[..|text| + 1] == text + [a];
    assert (text + [a])[..|text|] == text;
  }

  lemma {:induction false} HexTextLength(a: seq<byte>)
    ensures |HexText(a)| == 2 * |a|
  {
    if a == [] {
    } else {
      HexTextLength(a[..|a| - 1]);
    }
  }

  /** The text form tells identities apart. */
  lemma {:induction false} HexTextIsInjective(a: seq<byte>, b: seq<byte>)
    requires HexText(a) == HexText(b)
    ensures a == b
  {
    HexTextLength(a);
    HexTextLength(b);
    if a == [] {
    } else {
      var s, t, p, q := a[..|a| - 1], b[..|b| - 1], a[|a| - 1], b[|b| - 1];
      HexTextLength(s);
      HexTextLength(t);
      var text := HexText(a);
      assert text[..2 * |s|] == HexText(s) && text[..2 * |t|] == HexText(t);
      HexTextIsInjective(s, t);
      assert text[2 * |s|] == HexDigit(High(p)) == HexDigit(High(q));
      assert text[2 * |s| + 1] == HexDigit(Low(p)) == HexDigit(Low(q));
      assert High(p) == High(q) && Low(p) == Low(q);
      assert a == s + [p] && b == t + [q];
    }
  }

  lemma Xored()
    ensures XorLow(0x811c_9dc5, 0x61) == 0x811c_9da4
  {
    var x: bv8, y: bv8 := 0xc5, 0x61;
    assert x ^ y == 0xa4;
    assert (0xc5 as int) as bv8 == x;
  }

  lemma Prime()
    ensures Multiplied(0x811c_9da4) == 0xe40c_292c
  {
  }

  lemma OneByte(hash: u32, text: seq<byte>)
    requires |text| == 1
    ensures HashFrom(hash, text) == Multiplied(XorLow(hash, text[0]))
  {
    assert text[..0] == [];
  }

  /** The published hash of "a" is 0xe40c292c: from the offset basis, by an exclusive
      or and a multiplication with the prime. */
  lemma KnownHash(text: seq<byte>)
    requires text == [0x61]
    ensures HashFrom(FNV_OFFSET, []) == 0x811c_9dc5 && XorLow(0x811c_9dc5, 0x61) == 0x811c_9da4
    ensures HashFrom(FNV_OFFSET, text) == Multiplied(XorLow(FNV_OFFSET, text[0]))
    ensures Multiplied(0x811c_9da4) == 0xe40c_292c
  {
    Xored();
    OneByte(FNV_OFFSET, text);
    Prime();
  }

  /** The text form of two bytes. */
  lemma KnownText()
    ensures HexText([0x0f, 0xa9]) == [0x30, 0x66, 0x61, 0x39]
  {
    assert [0x0f, 0xa9][..1] == [0x0f] && [0x0f][..0] == [];
  }

  // ---------------------------------------------------------------- the lease ledger

  datatype Entry = Entry(id: u32, ip: u32, expiryMs: u32)

  function Position(ids: seq<u32>, id: u32, i: nat): (k: nat)
    requires i <= |ids|
    ensures i <= k <= |ids| && (k < |ids| ==> ids[k] == id)
    ensures forall j :: i <= j < k ==> ids[j] != id
    decreases |ids| - i
  {
    if i == |ids| || ids[i] == id then i else Position(ids, id, i + 1)
  }

  /** The id's own slot, else an empty one, else the slot its value names. */
  function SlotFor(ids: seq<u32>, id: u32): (k: nat)
    requires |ids| == LEASES
    ensures k < 8
    ensures id in ids ==> ids[k] == id && id !in ids[..k]
    ensures id !in ids && 0 in ids ==> ids[k] == 0 && 0 !in ids[..k]
    ensures id !in ids && 0 !in ids ==> k == id % 8
  {
    if Position(ids, id, 0) < LEASES then Position(ids, id, 0)
    else if Position(ids, 0, 0) < LEASES then Position(ids, 0, 0)
    else id % LEASES
  }

  predicate Unique(ids: seq<u32>) {
    forall i, j :: 0 <= i < j < |ids| && ids[i] != 0 ==> ids[i] != ids[j]
  }

  lemma RecordKeepsUnique(ids: seq<u32>, id: u32)
    requires |ids| == LEASES && Unique(ids) && id != 0
    ensures Unique(ids[SlotFor(ids, id) := id])
    ensures Position(ids[SlotFor(ids, id) := id], id, 0) == SlotFor(ids, id)
  {
    var k := SlotFor(ids, id);
    assert forall i :: 0 <= i < LEASES && ids[i] == id ==> i == k;
    var ids' := ids[k := id];
    var p := Position(ids', id, 0);
    assert ids'[k] == id;
    assert p < LEASES && ids'[p] == id;
  }

  /** A record pushes another lease out exactly when the ledger is full of others
      and the lease sits in the slot the new id's value names. */
  lemma EvictedIff(ids: seq<u32>, id: u32, other: u32)
    requires |ids| == LEASES && Unique(ids) && id != 0 && other != 0 && other != id && other in ids
    ensures other !in ids[SlotFor(ids, id) := id]
       <==> id !in ids && 0 !in ids && ids[id % 8] == other
  {
    var k := SlotFor(ids, id);
    var ids' := ids[k := id];
    var p := Position(ids, other, 0);
    assert ids[p] == other;
    if other in ids' {
      var j :| 0 <= j < LEASES && ids'[j] == other;
      assert j != k && ids[j] == other;
    }
    if p != k {
      assert ids'[p] == other;
    }
  }

  function IpWord(ip: seq<byte>): u32
    requires |ip| == 4
  {
    Word(ip[0], ip[1]) * 0x1_0000 + Word(ip[2], ip[3])
  }

  function IpBytes(w: u32): (ip: seq<byte>)
    ensures |ip| == 4
  {
    var high, low := w / 0x1_0000, w % 0x1_0000;
    [high / 0x100, high % 0x100, low / 0x100, low % 0x100]
  }

  lemma IpRoundTrip(ip: seq<byte>)
    requires |ip| == 4
    ensures IpBytes(IpWord(ip)) == ip
  {
    assert IpWord(ip) / 0x1_0000 == Word(ip[0], ip[1]) && IpWord(ip) % 0x1_0000 == Word(ip[2], ip[3]);
  }

  // ---------------------------------------------------------------- registration

  datatype Registration = Registration(ip: u32, leaseId: u32, deviceHash: u32, bootHash: u32, expiryMs: u32)

  const UNREGISTERED := Registration(0, 0, 0, 0, 0)

  /** The generation reported for a stored counter. */
  function Reported(generation: u32): u32 { if generation == 0 then 1 else generation }

  /** `seconds` whole seconds are asked for and covered by the lease. */
  predicate Covered(seconds: int, requested: int, remainingMs: int) {
    1 <= seconds <= requested && seconds * 1000 <= remainingMs
  }

  /** The granted time to live: the most seconds that are asked for and covered, or
      one when there are none. */
  function Ttl(requested: u32, remainingMs: u32): (ttl: u32)
    ensures forall n :: Covered(n, requested, remainingMs) ==> n <= ttl
    ensures Covered(ttl, requested, remainingMs) || (ttl == 1 && (requested == 0 || remainingMs < 1000))
  {
    var whole := remainingMs / 1000;
    var least := if requested <= whole then requested else whole;
    if least >= 1 then least else 1
  }

  function ResolveAt(r: Registration, now: u32): Option<u32> {
    if r.ip == 0 || TimeReached(now, r.expiryMs) then None else Some(r.ip)
  }

  /** A registration for `requested` seconds, made at `now` on a lease with `leftMs`
      left, resolves from then on for exactly the time asked for, if the lease covers
      it; else for the whole seconds the lease has left; else for one second.  That
      is so at all times up to 2^31 - 2 milliseconds after `now`. */
  lemma RegistrationWindow(r: Registration, now: u32, leftMs: int, requested: u32, d: int)
    requires r.ip != 0 && 1 <= leftMs <= 0x8000_0001 && 0 <= d <= 0x7fff_fffe
    requires r.expiryMs == After(now, Ttl(requested, Remaining(now, After(now, leftMs))) * 1000)
    ensures ResolveAt(r, After(now, d)) in {None, Some(r.ip)}
    ensures requested >= 1 && requested * 1000 <= leftMs ==>
              (ResolveAt(r, After(now, d)) == Some(r.ip) <==> d < requested * 1000)
    ensures requested * 1000 > leftMs >= 1000 ==>
              (ResolveAt(r, After(now, d)) == Some(r.ip) <==> d < leftMs - leftMs % 1000)
    ensures requested == 0 || leftMs < 1000 ==>
              (ResolveAt(r, After(now, d)) == Some(r.ip) <==> d < 1000)
  {
    RemainingOf(now, leftMs);
    var ttl := Ttl(requested, leftMs);
    if requested >= 1 && leftMs >= 1000 {
      var most := if requested * 1000 <= leftMs then requested else leftMs / 1000;
      assert Covered(most, requested, leftMs);
    }
    DeadlineWindow(now, ttl * 1000, d);
  }

  /** So it outlives the lease it rests on by at most 999 ms, and its life is
      computed without overflow; left alone, it seems alive again 2^31 - 1 ms after
      its end, until the counter comes round. */
  lemma RegistrationOverhang(r: Registration, now: u32, leftMs: int, requested: u32, d: int)
    requires r.ip != 0 && 1 <= leftMs <= 0x8000_0001 && 0 <= d < TWO_TO_THE_32
    requires r.expiryMs == After(now, Ttl(requested, leftMs) * 1000)
    ensures var lifeMs := Ttl(requested, leftMs) * 1000;
            && 1000 <= lifeMs <= leftMs + 999 && lifeMs < TWO_TO_THE_32
            && (ResolveAt(r, After(now, d)) == Some(r.ip) <==> d < lifeMs || d >= lifeMs + 0x7fff_ffff)
  {
    DeadlineWindow(now, Ttl(requested, leftMs) * 1000, d);
  }

  /** The wrapping difference to a deadline is the time it was set ahead. */
  lemma RemainingOf(now: u32, ms: int)
    requires 0 <= ms < TWO_TO_THE_32
    ensures Remaining(now, After(now, ms)) == ms
  {
    var q := (now + ms) / TWO_TO_THE_32;
    assert After(now, ms) - now == ms - q * TWO_TO_THE_32;
    Wrap(ms, -q);
  }

  /** A deadline not yet reached is between 1 and 2^31 + 1 milliseconds away. */
  lemma RemainingBound(now: u32, deadline: u32)
    requires !TimeReached(now, deadline)
    ensures 1 <= Remaining(now, deadline) <= 0x8000_0001
  {
    if now >= deadline {
      Wrap(deadline - now, 1);
      assert now != deadline ==> Remaining(now, deadline) == deadline - now + TWO_TO_THE_32;
    } else {
      Wrap(now - deadline, 1);
    }
  }

  /** A changed registration is reported under a different generation than the one
      before exactly unless the stored counter has just wrapped to zero. */
  lemma GenerationChangesIff(generation: u32)
    ensures Reported((generation + 1) % TWO_TO_THE_32) != Reported(generation) <==> generation != 0
  {
  }

  class Registry {
    const leaseId: array<u32>
    const leaseIp: array<u32>
    const leaseExpiryMs: array<u32>
    var motherbrain: Registration
    var generation: u32

    ghost predicate Valid()
      reads this, leaseId
    {
      && leaseId.Length == leaseIp.Length == leaseExpiryMs.Length == LEASES
      && leaseId != leaseIp && leaseId != leaseExpiryMs && leaseIp != leaseExpiryMs
      && Unique(leaseId[..])
    }

    constructor ()
      ensures Valid() && fresh(leaseId) && fresh(leaseIp) && fresh(leaseExpiryMs)
      ensures motherbrain == UNREGISTERED && generation == 0
    {
      leaseId := new u32[LEASES](_ => 0);
      leaseIp := new u32[LEASES](_ => 0);
      leaseExpiryMs := new u32[LEASES](_ => 0);
      motherbrain := UNREGISTERED;
      generation := 0;
    }

    /** Where the entry of `id` is filed, or the number of slots. */
    method Find(id: u32) returns (slot: nat)
      requires Valid()
      ensures slot == Position(leaseId[..], id, 0)
    {
      slot := 0;
      while slot < LEASES && leaseId[slot] != id
        invariant 0 <= slot <= LEASES
        invariant Position(leaseId[..], id, 0) == Position(leaseId[..], id, slot)
      {
        slot := slot + 1;
      }
    }

    method RecordLeaseHash(id: u32, ip: seq<byte>, expiryMs: u32)
      requires Valid() && |ip| == 4 && id != 0
      modifies leaseId, leaseIp, leaseExpiryMs
      ensures Valid()
      ensures var k := SlotFor(old(leaseId[..]), id);
              && leaseId[..] == old(leaseId[..])[k := id]
              && leaseIp[..] == old(leaseIp[..])[k := IpWord(ip)]
              && leaseExpiryMs[..] == old(leaseExpiryMs[..])[k := expiryMs]
    {
      RecordKeepsUnique(leaseId[..], id);
      var slot := Find(id);
      if slot == LEASES {
        slot := Find(0);
        if slot == LEASES {
          slot := id % LEASES;
        }
      }
      leaseIp[slot] := IpWord(ip);
      leaseExpiryMs[slot] := expiryMs;
      leaseId[slot] := id;
    }

    method RecordLease(identity: seq<byte>, ip: seq<byte>, expiryMs: u32)
      requires Valid() && |ip| == 4
      modifies leaseId, leaseIp, leaseExpiryMs
      ensures Valid()
      ensures var k := SlotFor(old(leaseId[..]), NonZero(HashFrom(FNV_OFFSET, HexText(identity))));
              && leaseId[..] == old(leaseId[..])[k := NonZero(HashFrom(FNV_OFFSET, HexText(identity)))]
              && leaseIp[..] == old(leaseIp[..])[k := IpWord(ip)]
              && leaseExpiryMs[..] == old(leaseExpiryMs[..])[k := expiryMs]
    {
      var id := DhcpIdentityHash(identity);
      RecordLeaseHash(id, ip, expiryMs);
    }

    /** Whether `id` holds a lease of `ip` that has not run out, as recorded. */
    ghost predicate Leases(id: u32, ip: u32, now: u32)
      reads this, leaseId, leaseIp, leaseExpiryMs
      requires Valid()
    {
      exists k :: 0 <= k < LEASES && leaseId[k] == id && leaseIp[k] == ip && !TimeReached(now, leaseExpiryMs[k])
    }

    ghost function LeaseExpiry(id: u32): u32
      reads this, leaseId, leaseIp, leaseExpiryMs
      requires Valid() && Position(leaseId[..], id, 0) < LEASES
    {
      leaseExpiryMs[Position(leaseId[..], id, 0)]
    }

    /** Registration succeeds exactly for the holder of a live lease of that very
        address, and only then changes anything. */
    method RegisterMotherbrain(identity: seq<byte>, ip: seq<byte>, deviceHash: u32, bootHash: u32,
                               requestedTtl: u32, now: u32)
      returns (granted: Option<(u32, u32)>)
      requires Valid() && |ip| == 4
      modifies this
      ensures Valid()
      ensures var id := NonZero(HashFrom(FNV_OFFSET, identity));
              && (granted.Some? <==> Leases(id, IpWord(ip), now))
              && (granted.None? ==> motherbrain == old(motherbrain) && generation == old(generation))
              && (granted.Some? ==>
                   var ttl := Ttl(requestedTtl, Remaining(now, LeaseExpiry(id)));
                   var same := && old(motherbrain)
                                  == Registration(IpWord(ip), id, deviceHash, bootHash, old(motherbrain).expiryMs)
                               && !TimeReached(now, old(motherbrain).expiryMs);
                   && motherbrain == Registration(IpWord(ip), id, deviceHash, bootHash, After(now, ttl * 1000))
                   && generation == (if same then old(generation) else After(old(generation), 1))
                   && granted.value == (ttl, Reported(generation)))
    {
      var id := IdentityHash(identity);
      var slot := Find(id);
      if slot == LEASES {
        return None;
      }
      if leaseIp[slot] != IpWord(ip) {
        return None;
      }
      var leaseExpiry := leaseExpiryMs[slot];
      if TimeReached(now, leaseExpiry) {
        return None;
      }
      RemainingBound(now, leaseExpiry);
      var ttl := Ttl(requestedTtl, Remaining(now, leaseExpiry));
      var sameRegistration :=
        && motherbrain.ip == IpWord(ip)
        && motherbrain.leaseId == id
        && motherbrain.deviceHash == deviceHash
        && motherbrain.bootHash == bootHash
        && !TimeReached(now, motherbrain.expiryMs);
      if !sameRegistration {
        generation := (generation + 1) % TWO_TO_THE_32;
      }
      var lifeMs: u32 := ttl * 1000;
      motherbrain := Registration(IpWord(ip), id, deviceHash, bootHash, After(now, lifeMs));
      return Some((ttl, Reported(generation)));
    }

    method ResolveMotherbrain(now: u32) returns (ip: Option<seq<byte>>)
      requires Valid()
      ensures ip == match ResolveAt(motherbrain, now) case None => None case Some(w) => Some(IpBytes(w))
    {
      if motherbrain.ip == 0 || TimeReached(now, motherbrain.expiryMs) {
        return None;
      }
      return Some(IpBytes(motherbrain.ip));
    }

    method LeaseIdentityIsMotherbrain(identity: seq<byte>) returns (yes: bool)
      requires Valid()
      ensures yes <==> motherbrain.leaseId == NonZero(HashFrom(FNV_OFFSET, HexText(identity)))
    {
      var id := DhcpIdentityHash(identity);
      yes := motherbrain.leaseId != 0 && motherbrain.leaseId == id;
    }

    method ClearRegistration()
      modifies this
      ensures motherbrain == UNREGISTERED && generation == old(generation)
    {
      motherbrain := UNREGISTERED;
    }
  }
}
