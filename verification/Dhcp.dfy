/** The eight-slot DHCP lease pool of the access point
    (crates/pete-brainstem/src/dhcp.rs); sections 4.3.1, 4.3.2 and 4.3.4 of
    RFC 2131.  Whether a client is the registered motherbrain is decided by the
    network registry and arrives here as a flag. */
module Dhcp {
  import opened Machine

  const POOL_SIZE := 8
  const FIRST_HOST := 2
  const LEASE_SECONDS := 3600
  const OFFER_HOLD_SECONDS := 30
  const MAX_U64 := TWO_TO_THE_64 - 1
  const MAX_IDENTIFIER := 32

  const DISCOVER := 1
  const REQUEST := 3
  const RELEASE := 7

  // ---------------------------------------------------------------- clients

  datatype Client = Client(hardware: seq<byte>, identifier: seq<byte>, hostname: seq<byte>) {
    /** The client identifier, or the hardware address when there is none. */
    function Identity(): seq<byte> { if identifier == [] then hardware else identifier }

    function WithMetadata(id: seq<byte>, name: seq<byte>): Client {
      this.(identifier := id[..if |id| <= MAX_IDENTIFIER then |id| else MAX_IDENTIFIER],
            hostname := name[..if |name| <= MAX_IDENTIFIER then |name| else MAX_IDENTIFIER])
    }
  }

  /** Identifiers are told apart by their first 32 bytes only, a shorter one as a
      whole; without one the hardware address counts. */
  lemma LongIdentifiersCollideIff(c: Client, c': Client, id: seq<byte>, id': seq<byte>, name: seq<byte>)
    requires |id| >= 32 && |id'| >= 32
    ensures c.WithMetadata(id, name).Identity() == c'.WithMetadata(id', name).Identity() <==> id[..32] == id'[..32]
    ensures forall n :: 1 <= n <= 32 ==> c.WithMetadata(id[..n], name).Identity() == id[..n]
    ensures c.WithMetadata([], name).Identity() == c.hardware
  {
    assert id[..32] != [] && id'[..32] != [];
  }

  // ---------------------------------------------------------------- the pool

  datatype Lease = Lease(client: Client, ip: seq<byte>, expiresAtMs: u64)

  datatype Grant = Grant(messageType: int, ip: seq<byte>)

  type Slots = s: seq<Option<Lease>> | |s| == POOL_SIZE witness [None, None, None, None, None, None, None, None]

  const NO_LEASES: Slots := [None, None, None, None, None, None, None, None]

  function Ip(slot: nat): seq<byte>
    requires slot < POOL_SIZE
  {
    [192, 168, 4, FIRST_HOST + slot]
  }

  function HeldFor(messageType: int): nat { if messageType == DISCOVER then OFFER_HOLD_SECONDS else LEASE_SECONDS }

  /** `now.saturating_add(seconds * 1000)`. */
  function HoldUntil(now: u64, seconds: nat): u64 {
    if now + seconds * 1000 <= MAX_U64 then now + seconds * 1000 else MAX_U64
  }

  predicate Expired(slot: Option<Lease>, now: int) { slot.Some? && now >= slot.value.expiresAtMs }

  predicate HeldBy(slot: Option<Lease>, identity: seq<byte>) {
    slot.Some? && slot.value.client.Identity() == identity
  }

  function Cleared(slots: Slots, now: int): Slots {
    seq(POOL_SIZE, i requires 0 <= i < POOL_SIZE => if Expired(slots[i], now) then None else slots[i])
  }

  /** The first slot from `i` on held under an identity, or the pool size. */
  function Holder(slots: Slots, identity: seq<byte>, i: nat): (k: nat)
    requires i <= POOL_SIZE
    ensures i <= k <= POOL_SIZE
    ensures k < POOL_SIZE ==> HeldBy(slots[k], identity)
    ensures forall j :: i <= j < k ==> !HeldBy(slots[j], identity)
    decreases POOL_SIZE - i
  {
    if i == POOL_SIZE || HeldBy(slots[i], identity) then i else Holder(slots, identity, i + 1)
  }

  function Free(slots: Slots, i: nat): (k: nat)
    requires i <= POOL_SIZE
    ensures i <= k <= POOL_SIZE
    ensures k < POOL_SIZE ==> slots[k] == None
    ensures forall j :: i <= j < k ==> slots[j].Some?
    decreases POOL_SIZE - i
  {
    if i == POOL_SIZE || slots[i] == None then i else Free(slots, i + 1)
  }

  /** The registered motherbrain prefers the first address. */
  function NewSlot(slots: Slots, motherbrain: bool): nat {
    if motherbrain && slots[0] == None then 0 else Free(slots, 0)
  }

  function Reserved(slots: Slots, client: Client, now: u64, seconds: nat, motherbrain: bool)
    : (Slots, Option<seq<byte>>)
  {
    var k := Holder(slots, client.Identity(), 0);
    if k < POOL_SIZE then
      (slots[k := Some(slots[k].value.(expiresAtMs := HoldUntil(now, seconds)))], Some(slots[k].value.ip))
    else
      var n := NewSlot(slots, motherbrain);
      if n == POOL_SIZE then (slots, None)
      else (slots[n := Some(Lease(client, Ip(n), HoldUntil(now, seconds)))], Some(Ip(n)))
  }

  function Released(slots: Slots, client: Client): Slots {
    var k := Holder(slots, client.Identity(), 0);
    if k < POOL_SIZE then slots[k := None] else slots
  }

  datatype Event = Event(now: u64, messageType: int, client: Client, motherbrain: bool)

  predicate Asks(e: Event) { e.messageType == DISCOVER || e.messageType == REQUEST }

  function Granted(slots: Slots, e: Event): (Slots, Option<Grant>) {
    var live := Cleared(slots, e.now);
    if Asks(e) then
      var (slots', ip) := Reserved(live, e.client, e.now, HeldFor(e.messageType), e.motherbrain);
      (slots', if ip.Some? then Some(Grant(if e.messageType == DISCOVER then 2 else 5, ip.value)) else None)
    else if e.messageType == RELEASE then (Released(live, e.client), None)
    else (live, None)
  }

  class DhcpLeaseState {
    const active: array<Option<Lease>>

    ghost predicate Valid()
      reads this
    {
      active.Length == POOL_SIZE
    }

    ghost function Contents(): Slots
      reads this, active
      requires Valid()
    {
      active[..]
    }

    constructor ()
      ensures Valid() && fresh(active) && Contents() == NO_LEASES
    {
      active := new Option<Lease>[POOL_SIZE](_ => None);
    }

    method ClearExpired(now: u64)
      requires Valid()
      modifies active
      ensures Contents() == Cleared(old(Contents()), now)
    {
      for i := 0 to POOL_SIZE
        invariant forall j :: 0 <= j < i ==> active[j] == Cleared(old(Contents()), now)[j]
        invariant forall j :: i <= j < POOL_SIZE ==> active[j] == old(active[j])
      {
        if active[i].Some? && now >= active[i].value.expiresAtMs {
          active[i] := None;
        }
      }
    }

    method Reserve(client: Client, now: u64, seconds: nat, motherbrain: bool) returns (ip: Option<seq<byte>>)
      requires Valid()
      modifies active
      ensures (Contents(), ip) == Reserved(old(Contents()), client, now, seconds, motherbrain)
    {
      ghost var slots := Contents();
      var expiresAtMs := HoldUntil(now, seconds);
      for i := 0 to POOL_SIZE
        invariant Contents() == slots && Holder(slots, client.Identity(), 0) == Holder(slots, client.Identity(), i)
      {
        if HeldBy(active[i], client.Identity()) {
          active[i] := Some(active[i].value.(expiresAtMs := expiresAtMs));
          return Some(active[i].value.ip);
        }
      }
      var slot := 0;
      if !(motherbrain && active[0] == None) {
        while slot < POOL_SIZE && active[slot] != None
          invariant 0 <= slot <= POOL_SIZE && Free(slots, 0) == Free(slots, slot)
        {
          slot := slot + 1;
        }
        if slot == POOL_SIZE {
          return None;
        }
      }
      active[slot] := Some(Lease(client, Ip(slot), expiresAtMs));
      return Some(Ip(slot));
    }

    method Release(client: Client)
      requires Valid()
      modifies active
      ensures Contents() == Released(old(Contents()), client)
    {
      ghost var slots := Contents();
      for i := 0 to POOL_SIZE
        invariant Contents() == slots && Holder(slots, client.Identity(), 0) == Holder(slots, client.Identity(), i)
      {
        if HeldBy(active[i], client.Identity()) {
          active[i] := None;
          return;
        }
      }
    }

    method GrantFor(e: Event) returns (grant: Option<Grant>)
      requires Valid()
      modifies active
      ensures (Contents(), grant) == Granted(old(Contents()), e)
    {
      ClearExpired(e.now);
      if e.messageType == DISCOVER {
        var ip := Reserve(e.client, e.now, OFFER_HOLD_SECONDS, e.motherbrain);
        return if ip.Some? then Some(Grant(2, ip.value)) else None;
      } else if e.messageType == REQUEST {
        var ip := Reserve(e.client, e.now, LEASE_SECONDS, e.motherbrain);
        return if ip.Some? then Some(Grant(5, ip.value)) else None;
      } else if e.messageType == RELEASE {
        Release(e.client);
        return None;
      }
      return None;
    }
  }

  // ---------------------------------------------------------------- what every event keeps

  /** Slot i only ever holds address 192.168.4.(2+i), and no identity holds two. */
  predicate Pool(slots: Slots) {
    && (forall i :: 0 <= i < 8 && slots[i].Some? ==> slots[i].value.ip == [192, 168, 4, 2 + i])
    && (forall i, j :: 0 <= i < j < POOL_SIZE && slots[i].Some? && slots[j].Some? ==>
          slots[i].value.client.Identity() != slots[j].value.client.Identity())
  }

  lemma AddressesDiffer(i: nat, j: nat)
    requires i < POOL_SIZE && j < POOL_SIZE && Ip(i) == Ip(j)
    ensures i == j
  {
    assert Ip(i)[3] == Ip(j)[3];
  }

  lemma EventKeepsPool(slots: Slots, e: Event)
    requires Pool(slots)
    ensures Pool(Granted(slots, e).0)
  {
    var live := Cleared(slots, e.now);
    assert Pool(live);
    if Asks(e) {
      ReserveKeepsPool(live, e.client, e.now, HeldFor(e.messageType), e.motherbrain);
    }
  }

  lemma ReserveKeepsPool(slots: Slots, client: Client, now: u64, seconds: nat, motherbrain: bool)
    requires Pool(slots)
    ensures Pool(Reserved(slots, client, now, seconds, motherbrain).0)
  {
    var k, n := Holder(slots, client.Identity(), 0), NewSlot(slots, motherbrain);
    if k < POOL_SIZE {
      RenewKeepsPool(slots, k, HoldUntil(now, seconds));
    } else if n < POOL_SIZE {
      NewKeepsPool(slots, n, Lease(client, Ip(n), HoldUntil(now, seconds)));
    }
  }

  lemma RenewKeepsPool(slots: Slots, k: nat, until: u64)
    requires Pool(slots) && k < POOL_SIZE && slots[k].Some?
    ensures Pool(slots[k := Some(slots[k].value.(expiresAtMs := until))])
  {
  }

  lemma NewKeepsPool(slots: Slots, n: nat, lease: Lease)
    requires Pool(slots) && n < POOL_SIZE && lease.ip == Ip(n)
    requires forall i :: 0 <= i < POOL_SIZE ==> !HeldBy(slots[i], lease.client.Identity())
    ensures Pool(slots[n := Some(lease)])
  {
    var slots' := slots[n := Some(lease)];
    forall i, j | 0 <= i < j < POOL_SIZE && slots'[i].Some? && slots'[j].Some?
      ensures slots'[i].value.client.Identity() != slots'[j].value.client.Identity()
    {
      assert !HeldBy(slots[i], lease.client.Identity()) && !HeldBy(slots[j], lease.client.Identity());
    }
  }

  /** DISCOVER and REQUEST are refused exactly when every slot is held, not yet
      expired, by some other client. */
  lemma RefusedIff(slots: Slots, e: Event)
    requires Pool(slots) && e.messageType in {1, 3}
    ensures Granted(slots, e).1 == None
       <==> forall i :: 0 <= i < 8 ==>
              slots[i].Some? && e.now < slots[i].value.expiresAtMs && !HeldBy(slots[i], e.client.Identity())
  {
    var live := Cleared(slots, e.now);
    var k, f := Holder(live, e.client.Identity(), 0), Free(live, 0);
    assert forall i :: 0 <= i < POOL_SIZE ==> (live[i].Some? <==> slots[i].Some? && e.now < slots[i].value.expiresAtMs);
  }

  /** The end of the hold a grant gives: 30 s for an offer, an hour for a lease,
      or the last instant of the clock. */
  function HoldEnd(e: Event): int {
    var until := e.now + if e.messageType == 1 then 30_000 else 3_600_000;
    if until < TWO_TO_THE_64 then until else TWO_TO_THE_64 - 1
  }

  lemma HoldsUntil(e: Event)
    requires Asks(e)
    ensures HoldUntil(e.now, HeldFor(e.messageType)) == HoldEnd(e)
  {
  }

  /** Only a DISCOVER (1) or a REQUEST (3) is granted anything, by an OFFER (2) or
      an ACK (5), and the slot it names is then held for that client. */
  lemma GrantHolds(slots: Slots, e: Event, k: nat)
    requires Pool(slots) && k < 8
    requires Granted(slots, e).1.Some? && Granted(slots, e).1.value.ip == [192, 168, 4, 2 + k]
    ensures (e.messageType, Granted(slots, e).1.value.messageType) in {(1, 2), (3, 5)}
    ensures HeldBy(Granted(slots, e).0[k], e.client.Identity())
    ensures Granted(slots, e).0[k].value.expiresAtMs == HoldEnd(e)
  {
    var live := Cleared(slots, e.now);
    var h, n := Holder(live, e.client.Identity(), 0), NewSlot(live, e.motherbrain);
    HoldsUntil(e);
    AddressesDiffer(k, if h < POOL_SIZE then h else n);
  }

  lemma ReservedForNewcomer(slots: Slots, client: Client, now: u64, seconds: nat, motherbrain: bool, k: nat)
    requires k < 8 && Holder(slots, client.Identity(), 0) == POOL_SIZE
    ensures Reserved(slots, client, now, seconds, motherbrain).1 == Some([192, 168, 4, 2 + k])
       <==> slots[k] == None && forall i :: 0 <= i < k ==> slots[i].Some?
  {
    var n := NewSlot(slots, motherbrain);
    assert n == Free(slots, 0);
    if n < POOL_SIZE && Ip(n) == Ip(k) {
      AddressesDiffer(n, k);
    }
  }

  /** A client without a lease gets the lowest free address; the registered
      motherbrain gets the first address whenever that is free, which is the same
      rule. */
  lemma NewcomerGetsLowestFree(slots: Slots, e: Event, k: nat)
    requires Pool(slots) && k < 8 && e.messageType in {1, 3}
    requires forall i :: 0 <= i < 8 && HeldBy(slots[i], e.client.Identity()) ==> e.now >= slots[i].value.expiresAtMs
    ensures Granted(slots, e).1.Some? && Granted(slots, e).1.value.ip == [192, 168, 4, 2 + k]
       <==> && (slots[k] == None || e.now >= slots[k].value.expiresAtMs)
            && forall i :: 0 <= i < k ==> slots[i].Some? && e.now < slots[i].value.expiresAtMs
  {
    var live := Cleared(slots, e.now);
    assert Holder(live, e.client.Identity(), 0) == POOL_SIZE;
    ReservedForNewcomer(live, e.client, e.now, HeldFor(e.messageType), e.motherbrain, k);
    assert forall i :: 0 <= i < POOL_SIZE ==> (live[i] == None <==> slots[i] == None || Expired(slots[i], e.now));
  }

  /** While a hold runs, its client gets the same address, nobody else gets it,
      and only the client itself can change it. */
  lemma HoldSurvives(slots: Slots, e: Event, k: nat, identity: seq<byte>)
    requires Pool(slots) && k < 8 && HeldBy(slots[k], identity) && e.now < slots[k].value.expiresAtMs
    ensures var (slots', grant) := Granted(slots, e);
            && (e.client.Identity() != identity || e.messageType !in {1, 3, 7} ==>
                  slots'[k] == slots[k] && (grant.Some? ==> grant.value.ip != [192, 168, 4, 2 + k]))
            && (e.client.Identity() == identity && e.messageType in {1, 3} ==>
                  && grant == Some(Grant(if e.messageType == 1 then 2 else 5, [192, 168, 4, 2 + k]))
                  && slots'[k] == Some(slots[k].value.(expiresAtMs := HoldEnd(e))))
            && (e.client.Identity() == identity && e.messageType == 7 ==> slots'[k] == None && grant == None)
  {
    if Asks(e) {
      HoldsUntil(e);
    }
    var live := Cleared(slots, e.now);
    assert live[k] == slots[k] && Pool(live);
    var h, n := Holder(live, e.client.Identity(), 0), NewSlot(live, e.motherbrain);
    if e.client.Identity() == identity {
      assert h == k;
    } else {
      assert h != k && n != k;
      if Asks(e) && Granted(slots, e).1.Some? && Granted(slots, e).1.value.ip == Ip(k) {
        AddressesDiffer(k, if h < POOL_SIZE then h else n);
      }
    }
  }

  // ---------------------------------------------------------------- runs

  predicate Serves(slots: Slots, e: Event, slots': Slots, grant: Option<Grant>) {
    Granted(slots, e) == (slots', grant)
  }

  ghost predicate IsRun(states: seq<Slots>, grants: seq<Option<Grant>>, events: seq<Event>) {
    && |states| == |events| + 1 && |grants| == |events|
    && states[0] == NO_LEASES
    && (forall i {:trigger Serves(states[i], events[i], states[i + 1], grants[i])} ::
          0 <= i < |events| ==> Serves(states[i], events[i], states[i + 1], grants[i]))
    && (forall i, j :: 0 <= i < j < |events| ==> events[i].now <= events[j].now)
  }

  lemma {:induction false} RunKeepsPool(states: seq<Slots>, grants: seq<Option<Grant>>, events: seq<Event>, n: nat)
    requires IsRun(states, grants, events) && n <= |events|
    ensures Pool(states[n])
  {
    if n == 0 {
    } else {
      var m := n - 1;
      RunKeepsPool(states, grants, events, m);
      assert Serves(states[m], events[m], states[m + 1], grants[m]);
      EventKeepsPool(states[m], events[m]);
    }
  }

  /** In every run an address granted is one of 192.168.4.2 to 192.168.4.9, never
      that of the access point itself, and only a DISCOVER or REQUEST gets one. */
  lemma AddressesGranted(states: seq<Slots>, grants: seq<Option<Grant>>, events: seq<Event>, i: nat)
    requires IsRun(states, grants, events) && i < |events| && grants[i].Some?
    ensures var ip := grants[i].value.ip; |ip| == 4 && ip[..3] == [192, 168, 4] && 2 <= ip[3] <= 9
    ensures (events[i].messageType, grants[i].value.messageType) in {(1, 2), (3, 5)}
  {
    RunKeepsPool(states, grants, events, i);
    assert Serves(states[i], events[i], states[i + 1], grants[i]);
    var k := GrantedSlot(states[i], events[i]);
    GrantHolds(states[i], events[i], k);
  }

  /** The client neither asks again nor releases in the events strictly between. */
  predicate Quiet(events: seq<Event>, i: int, j: int, identity: seq<byte>)
    requires 0 <= i < j <= |events|
  {
    forall m :: i < m < j ==>
      events[m].client.Identity() != identity || events[m].messageType !in {1, 3, 7}
  }

  /** The slot is held for the identity until then. */
  predicate HeldUntil(slot: Option<Lease>, identity: seq<byte>, until: int) {
    HeldBy(slot, identity) && slot.value.expiresAtMs == until
  }

  lemma HoldBegins(states: seq<Slots>, grants: seq<Option<Grant>>, events: seq<Event>, i: nat, k: nat)
    requires IsRun(states, grants, events) && i < |events| && k < 8
    requires grants[i].Some? && grants[i].value.ip == [192, 168, 4, 2 + k]
    ensures HeldUntil(states[i + 1][k], events[i].client.Identity(), HoldEnd(events[i]))
  {
    RunKeepsPool(states, grants, events, i);
    assert Serves(states[i], events[i], states[i + 1], grants[i]);
    GrantHolds(states[i], events[i], k);
  }

  lemma HoldGoesOn(states: seq<Slots>, grants: seq<Option<Grant>>, events: seq<Event>, m: nat, k: nat,
                   identity: seq<byte>, until: int)
    requires IsRun(states, grants, events) && m < |events| && k < 8
    requires HeldUntil(states[m][k], identity, until) && events[m].now < until
    requires events[m].client.Identity() != identity || events[m].messageType !in {1, 3, 7}
    ensures HeldUntil(states[m + 1][k], identity, until)
  {
    RunKeepsPool(states, grants, events, m);
    assert Serves(states[m], events[m], states[m + 1], grants[m]);
    HoldSurvives(states[m], events[m], k, identity);
  }

  lemma {:induction false} HoldLasts(states: seq<Slots>, grants: seq<Option<Grant>>, events: seq<Event>, i: nat,
                                     j: nat, k: nat)
    requires IsRun(states, grants, events) && i < j <= |events| && k < 8
    requires grants[i].Some? && grants[i].value.ip == [192, 168, 4, 2 + k]
    requires Quiet(events, i, j, events[i].client.Identity())
    requires j == i + 1 || events[j - 1].now < HoldEnd(events[i])
    ensures HeldUntil(states[j][k], events[i].client.Identity(), HoldEnd(events[i]))
  {
    var m := j - 1;
    if m == i {
      HoldBegins(states, grants, events, i, k);
    } else {
      HoldLasts(states, grants, events, i, m, k);
      HoldGoesOn(states, grants, events, m, k, events[i].client.Identity(), HoldEnd(events[i]));
    }
  }

  /** In every run: within the hold of its own last grant a client that asks again
      gets the same address, and until then nobody else is granted it. */
  lemma AddressIsHeld(states: seq<Slots>, grants: seq<Option<Grant>>, events: seq<Event>, i: nat, j: nat)
    requires IsRun(states, grants, events) && i < j < |events|
    requires grants[i].Some?
    requires Quiet(events, i, j, events[i].client.Identity())
    requires events[j].now < HoldEnd(events[i])
    ensures if events[j].client.Identity() == events[i].client.Identity() && events[j].messageType in {1, 3}
            then grants[j].Some? && grants[j].value.ip == grants[i].value.ip
            else grants[j].Some? ==> grants[j].value.ip != grants[i].value.ip
  {
    RunKeepsPool(states, grants, events, i);
    RunKeepsPool(states, grants, events, j);
    assert Serves(states[i], events[i], states[i + 1], grants[i]);
    assert Serves(states[j], events[j], states[j + 1], grants[j]);
    var k := GrantedSlot(states[i], events[i]);
    HoldLasts(states, grants, events, i, j, k);
    HoldSurvives(states[j], events[j], k, events[i].client.Identity());
  }

  lemma GrantedSlot(slots: Slots, e: Event) returns (k: nat)
    requires Pool(slots) && Granted(slots, e).1.Some?
    ensures k < 8 && Granted(slots, e).1.value.ip == [192, 168, 4, 2 + k]
  {
    var live := Cleared(slots, e.now);
    var h := Holder(live, e.client.Identity(), 0);
    k := if h < POOL_SIZE then h else NewSlot(live, e.motherbrain);
  }

  // ---------------------------------------------------------------- the hour is not guaranteed

  /** A client that repeats DISCOVER while holding a lease keeps it to its end
      exactly when the end is no more than 30 s away; otherwise the hold shrinks. */
  lemma DiscoverKeepsHoldIff(slots: Slots, e: Event, k: nat)
    requires Pool(slots) && k < 8 && HeldBy(slots[k], e.client.Identity())
    requires e.now < slots[k].value.expiresAtMs && e.messageType == 1
    ensures Granted(slots, e).0[k].Some?
    ensures Granted(slots, e).0[k].value.expiresAtMs >= slots[k].value.expiresAtMs
       <==> e.now + 30_000 >= slots[k].value.expiresAtMs
  {
    HoldSurvives(slots, e, k, e.client.Identity());
  }

  /** So a one-hour lease can be given away 31 s after it was acknowledged. */
  lemma HourLost(a: Client, b: Client, s1: Slots, s2: Slots)
    requires a.Identity() != b.Identity()
    requires s1 == Granted(NO_LEASES, Event(0, 3, a, false)).0
    requires s2 == Granted(s1, Event(1000, 1, a, false)).0
    ensures Granted(NO_LEASES, Event(0, 3, a, false)).1 == Some(Grant(5, [192, 168, 4, 2]))
    ensures Granted(s2, Event(31000, 1, b, false)).1 == Some(Grant(2, [192, 168, 4, 2]))
  {
    assert Cleared(NO_LEASES, 0) == NO_LEASES && Cleared(NO_LEASES, 31000) == NO_LEASES;
    assert s1 == NO_LEASES[0 := Some(Lease(a, Ip(0), 3600000))];
    assert Cleared(s1, 1000) == s1;
    assert s2 == NO_LEASES[0 := Some(Lease(a, Ip(0), 31000))];
    assert Cleared(s2, 31000) == NO_LEASES;
  }
}
