/** The in-place ICMP echo responder (crates/pete-brainstem/src/icmp.rs):
    which frames it answers, and what the answer is, byte for byte. */
module Icmp {
  import opened Checksum
  import opened Machine
  import opened RateLimit

  const AP_IP: seq<byte> := [192, 168, 4, 1]
  const ETHERNET_HEADER := 14
  const IPV4_HEADER := 20
  const ICMP_HEADER := 8
  const REPLY_ICMP := ETHERNET_HEADER + IPV4_HEADER
  const MAX_FRAME := 1280

  datatype Disposition = NotIcmp | Reply(len: nat) | RateLimited | Dropped

  // ---------------------------------------------------------------- requests

  /** An Ethernet frame carrying IPv4 carrying ICMP, by its first 34 bytes. */
  predicate IsIcmp(f: seq<byte>) {
    && |f| >= ETHERNET_HEADER + IPV4_HEADER
    && f[12..14] == [0x08, 0x00]
    && f[14] / 0x10 == 4
    && f[23] == 1
  }

  /** The declared IPv4 header and datagram lengths, in bytes. */
  function HeaderLen(f: seq<byte>): int
    requires IsIcmp(f)
  {
    var low: int := f[14];
    (low % 0x10) * 4
  }

  function TotalLen(f: seq<byte>): int
    requires IsIcmp(f)
  {
    Word(f[16], f[17])
  }

  function IcmpStart(f: seq<byte>): int
    requires IsIcmp(f)
  {
    ETHERNET_HEADER + HeaderLen(f)
  }

  function IcmpEnd(f: seq<byte>): int
    requires IsIcmp(f)
  {
    ETHERNET_HEADER + TotalLen(f)
  }

  predicate LengthsAgree(f: seq<byte>)
    requires IsIcmp(f)
  {
    && |f| <= MAX_FRAME
    && IPV4_HEADER <= HeaderLen(f)
    && HeaderLen(f) + ICMP_HEADER <= TotalLen(f) <= |f| - ETHERNET_HEADER
  }

  /** A frame the responder may answer: lengths consistent, both checksums good,
      sent to the access point by a unicast host, not a fragment, type echo. */
  predicate IsEchoRequest(f: seq<byte>) {
    && IsIcmp(f)
    && LengthsAgree(f)
    && Sum(f[ETHERNET_HEADER..IcmpStart(f)]) == 0
    && f[30..34] == AP_IP
    && f[26..30] != [0, 0, 0, 0]
    && f[26] < 224
    && Word(f[20], f[21]) % 0x4000 == 0
    && Sum(f[IcmpStart(f)..IcmpEnd(f)]) == 0
    && f[IcmpStart(f)] == 8
    && f[IcmpStart(f) + 1] == 0
  }

  /** The frames taken for ICMP, and those of them that are answered, offset by
      offset: at most 1280 bytes, a header of 20 to 60 bytes and a datagram of at
      least 8 more within the frame, both checksums zero, to 192.168.4.1, from a host
      below 224.0.0.0 other than 0.0.0.0, neither more-fragments nor an offset, and
      an echo request of code 0. */
  lemma EchoRequestIff(f: seq<byte>)
    ensures IsIcmp(f) <==> |f| >= 34 && f[12] == 8 && f[13] == 0 && 0x40 <= f[14] <= 0x4f && f[23] == 1
    ensures IsEchoRequest(f)
       <==> && 42 <= |f| <= 1280 && f[12] == 8 && f[13] == 0 && 0x45 <= f[14] <= 0x4f && f[23] == 1
            && var header, total := (f[14] as int - 0x40) * 4, f[16] as int * 0x100 + f[17] as int;
               && header + 8 <= total <= |f| - 14
               && Sum(f[14..14 + header]) == 0 && Sum(f[14 + header..14 + total]) == 0
               && f[26] < 224 && !(f[26] == f[27] == f[28] == f[29] == 0)
               && f[30] == 192 && f[31] == 168 && f[32] == 4 && f[33] == 1
               && f[20] % 0x40 == 0 && f[21] == 0
               && f[14 + header] == 8 && f[14 + header + 1] == 0
  {
    if |f| >= 34 {
      assert f[12..14] == [f[12], f[13]];
      assert f[26..30] == [f[26], f[27], f[28], f[29]];
      assert f[30..34] == [f[30], f[31], f[32], f[33]];
      MaskSplits(f[20], f[21]);
    }
  }

  /** The fragment mask leaves the two upper flag bits of the first byte. */
  lemma MaskSplits(high: int, low: int)
    requires 0 <= high < 0x100 && 0 <= low < 0x100
    ensures Word(high, low) % 0x4000 == 0 <==> high % 0x40 == 0 && low == 0
  {
    var flags, offset := high / 0x40, 0x100 * (high % 0x40) + low;
    assert flags in {0, 1, 2, 3} && high == 0x40 * flags + high % 0x40;
    assert Word(high, low) == 0x4000 * flags + offset && 0 <= offset < 0x4000;
    assert Word(high, low) % 0x4000 == offset;
  }

  /** So every stamped echo request without options, of any identifier, sequence
      number and payload up to 1238 bytes, is answered. */
  lemma PingIsAnswered(f: seq<byte>)
    requires 42 <= |f| <= 1280 && f[12] == 8 && f[13] == 0 && f[14] == 0x45 && f[23] == 1
    requires f[16] as int * 0x100 + f[17] as int == |f| - 14 && f[20] == f[21] == 0
    requires 0 < f[26] < 224 && f[30] == 192 && f[31] == 168 && f[32] == 4 && f[33] == 1
    requires f[34] == 8 && f[35] == 0 && Stamped(f[14..34], 10) && Stamped(f[34..], 2)
    ensures IsEchoRequest(f)
  {
    StampVerifies(f[14..34], 10);
    StampVerifies(f[34..], 2);
    assert f[34..|f|] == f[34..];
    EchoRequestIff(f);
  }

  // ---------------------------------------------------------------- replies

  /** `len` bytes of `r` from `at` are those of `s` from `from`. */
  predicate Copies(r: seq<byte>, at: int, s: seq<byte>, from: int, len: int)
    requires 0 <= at && at + len <= |r| && 0 <= from && from + len <= |s|
  {
    forall i :: at <= i < at + len ==> r[i] == s[i - at + from]
  }

  lemma CopiesAreEqual(r: seq<byte>, at: int, s: seq<byte>, from: int, len: int)
    requires 0 <= at && at + len <= |r| && 0 <= from && from + len <= |s| && 0 <= len
    requires Copies(r, at, s, from, len)
    ensures r[at..at + len] == s[from..from + len]
  {
  }

  /** The first 34 bytes of `r` answer those of `q`: hardware addresses swapped,
      and a fresh 20-byte IPv4 header without options, from the access point to
      the host that asked, declaring `len` bytes behind it. */
  predicate HeaderFields(q: seq<byte>, r: seq<byte>, len: int)
    requires |q| >= REPLY_ICMP && |r| >= REPLY_ICMP
  {
    && Copies(r, 0, q, 6, 6)
    && Copies(r, 6, q, 0, 6)
    && Copies(r, 12, q, 12, 2)
    && r[14] == 0x45 && r[15] == 0
    && Word(r[16], r[17]) == IPV4_HEADER + len
    && r[18] == r[19] == r[20] == r[21] == 0
    && r[22] == 64 && r[23] == 1
    && Copies(r, 26, AP_IP, 0, 4)
    && Copies(r, 30, q, 26, 4)
  }

  predicate HeaderAnswers(q: seq<byte>, r: seq<byte>, len: int)
    requires |q| >= REPLY_ICMP && |r| >= REPLY_ICMP
  {
    HeaderFields(q, r, len) && Stamped(r[ETHERNET_HEADER..REPLY_ICMP], 10)
  }

  /** The bytes of `r` behind the header are an echo reply to the ICMP message at
      `[start, end)` of `q`: type and code zero, the same identifier, sequence
      number and payload, stamped; what lies behind the message is untouched. */
  predicate MessageAnswers(q: seq<byte>, r: seq<byte>, start: int, end: int)
    requires REPLY_ICMP <= start && start + ICMP_HEADER <= end <= |q| == |r|
  {
    var n := REPLY_ICMP + (end - start);
    && r[34] == 0 && r[35] == 0
    && Copies(r, 38, q, start + 4, n - 38)
    && Stamped(r[REPLY_ICMP..n], 2)
    && Copies(r, n, q, n, |q| - n)
  }

  /** `r` answers the request `q` in its first `n` bytes. */
  predicate IsReplyTo(q: seq<byte>, r: seq<byte>, n: int)
    requires IsEchoRequest(q)
  {
    && n == REPLY_ICMP + (TotalLen(q) - HeaderLen(q)) <= |q| == |r|
    && HeaderAnswers(q, r, TotalLen(q) - HeaderLen(q))
    && MessageAnswers(q, r, IcmpStart(q), IcmpEnd(q))
  }

  /** Both checksums of a reply verify, whatever the length and payload. */
  lemma ReplyVerifies(q: seq<byte>, r: seq<byte>, n: int)
    requires IsEchoRequest(q) && IsReplyTo(q, r, n)
    ensures Sum(r[ETHERNET_HEADER..REPLY_ICMP]) == 0
    ensures Sum(r[REPLY_ICMP..n]) == 0
  {
    StampVerifies(r[ETHERNET_HEADER..REPLY_ICMP], 10);
    StampVerifies(r[REPLY_ICMP..n], 2);
  }

  /** A reply goes from 192.168.4.1 back to the host and hardware address that
      asked, unfragmented, 64 hops at most, and is no longer than the request. */
  lemma ReplyGoesBack(q: seq<byte>, r: seq<byte>, n: int)
    requires IsEchoRequest(q) && IsReplyTo(q, r, n)
    ensures r[0..6] == q[6..12] && r[6..12] == q[0..6] && r[12..14] == [8, 0]
    ensures r[14] == 0x45 && r[16] as int * 0x100 + r[17] as int == n - 14
    ensures r[20] == r[21] == 0 && r[22] == 64 && r[23] == 1
    ensures r[26..30] == [192, 168, 4, 1] && r[30..34] == q[26..30]
    ensures r[34] == r[35] == 0
    ensures n == 34 + (q[16] as int * 0x100 + q[17] as int) - (q[14] as int - 0x40) * 4 <= |q|
  {
    EchoRequestIff(q);
    CopiesAreEqual(r, 0, q, 6, 6);
    CopiesAreEqual(r, 6, q, 0, 6);
    CopiesAreEqual(r, 12, q, 12, 2);
    CopiesAreEqual(r, 26, AP_IP, 0, 4);
    CopiesAreEqual(r, 30, q, 26, 4);
    assert AP_IP[0..4] == [192, 168, 4, 1];
  }

  /** Identifier, sequence number and payload come back byte for byte. */
  lemma ReplyEchoes(q: seq<byte>, r: seq<byte>, n: int)
    requires IsEchoRequest(q) && IsReplyTo(q, r, n)
    ensures r[38..40] == q[IcmpStart(q) + 4..IcmpStart(q) + 6]
    ensures r[40..42] == q[IcmpStart(q) + 6..IcmpStart(q) + 8]
    ensures r[42..n] == q[IcmpStart(q) + 8..IcmpEnd(q)]
  {
    CopiesAreEqual(r, 38, q, IcmpStart(q) + 4, 2);
    CopiesAreEqual(r, 40, q, IcmpStart(q) + 6, 2);
    CopiesAreEqual(r, 42, q, IcmpStart(q) + 8, n - 42);
  }

  /** The reply's ICMP checksum is the request's plus 0x0800, modulo 65535: the
      type field went from 8 to 0 and nothing else changed. */
  lemma ReplyChecksumShift(q: seq<byte>, r: seq<byte>, n: int)
    requires IsEchoRequest(q) && IsReplyTo(q, r, n)
    ensures Word(r[36], r[37]) % 0xffff
         == (Word(q[IcmpStart(q) + 2], q[IcmpStart(q) + 3]) + 0x0800) % 0xffff
  {
    ReplyVerifies(q, r, n);
    var asked, answered := q[IcmpStart(q)..IcmpEnd(q)], r[REPLY_ICMP..n];
    VerifiesIff(asked);
    VerifiesIff(answered);
    assert asked[4..] == answered[4..] by {
      CopiesAreEqual(r, 38, q, IcmpStart(q) + 4, n - 38);
      assert asked[4..] == q[IcmpStart(q) + 4..IcmpEnd(q)];
      assert answered[4..] == r[38..n];
    }
    assert asked[2..][2..] == asked[4..] && answered[2..][2..] == answered[4..];
    var body := WordSum(asked[4..]);
    var c, c' := Word(asked[2], asked[3]), Word(answered[2], answered[3]);
    assert WordSum(asked) == 0x0800 + c + body;
    assert WordSum(answered) == c' + body;
    SameResidue(c', c + 0x0800, body);
  }

  lemma SameResidue(x: int, y: int, z: int)
    requires (x + z) % 0xffff == 0 && (y + z) % 0xffff == 0
    ensures x % 0xffff == y % 0xffff
  {
    var a, b := (x + z) / 0xffff, (y + z) / 0xffff;
    assert x == y + 0xffff * (a - b);
    AddMultiple(y, a - b);
  }

  /** A reply delivered back to the responder, whole or with any part of the
      buffer behind it, is recognised as ICMP and dropped: echo cannot loop. */
  lemma ReplyIsDropped(q: seq<byte>, r: seq<byte>, n: int, m: int)
    requires IsEchoRequest(q) && IsReplyTo(q, r, n) && n <= m <= |r|
    ensures IsIcmp(r[..m]) && !IsEchoRequest(r[..m])
  {
    var f := r[..m];
    assert f[12] == q[12] && f[13] == q[13];
    assert q[12..14] == [q[12], q[13]] && f[12..14] == [f[12], f[13]];
    assert HeaderLen(f) == 20;
  }

  // ---------------------------------------------------------------- in place

  /** `copy_from_slice` into a window of the frame. */
  method Store(frame: array<byte>, at: nat, bytes: seq<byte>)
    requires at + |bytes| <= frame.Length
    modifies frame
    ensures forall i :: 0 <= i < frame.Length ==>
              frame[i] == if at <= i < at + |bytes| then bytes[i - at] else old(frame[i])
  {
    forall i | 0 <= i < |bytes| {
      frame[at + i] := bytes[i];
    }
  }

  /** `fill` of a window of the frame with zero. */
  method Clear(frame: array<byte>, from: nat, to: nat)
    requires from <= to <= frame.Length
    modifies frame
    ensures forall i :: 0 <= i < frame.Length ==> frame[i] == if from <= i < to then 0 else old(frame[i])
  {
    forall i | from <= i < to {
      frame[i] := 0;
    }
  }

  /** `copy_within`: the bytes arrive as they were, even when the windows overlap. */
  method CopyWithin(frame: array<byte>, from: nat, to: nat, dest: nat)
    requires from <= to <= frame.Length && dest + (to - from) <= frame.Length
    modifies frame
    ensures forall i :: 0 <= i < frame.Length ==>
              frame[i] == if dest <= i < dest + (to - from) then old(frame[from + i - dest]) else old(frame[i])
  {
    forall i | 0 <= i < to - from {
      frame[dest + i] := frame[from + i];
    }
  }

  function BigEndian(w: int): (b: seq<byte>)
    requires 0 <= w <= 0xffff
    ensures |b| == 2 && Word(b[0], b[1]) == w
  {
    [w / 0x100, w % 0x100]
  }

  /** The checksum of a window, computed over its zeroed field and written there. */
  method StampWindow(frame: array<byte>, from: nat, to: nat, at: nat)
    requires from + at + 1 < to <= frame.Length && to - from <= MAX_FRAME
    requires frame[from + at] == 0 && frame[from + at + 1] == 0
    modifies frame
    ensures Stamped(frame[from..to], at)
    ensures forall i :: 0 <= i < frame.Length && i != from + at && i != from + at + 1 ==> frame[i] == old(frame[i])
  {
    ghost var unstamped := frame[from..to];
    var checksum := Ipv4Checksum(frame, from, to);
    Store(frame, from + at, BigEndian(checksum));
    WrittenChecksumStamps(unstamped, frame[from..to], at);
  }

  lemma WrittenChecksumStamps(unstamped: seq<byte>, s: seq<byte>, at: nat)
    requires at + 1 < |s| == |unstamped| && unstamped[at] == unstamped[at + 1] == 0
    requires forall i :: 0 <= i < |s| && i != at && i != at + 1 ==> s[i] == unstamped[i]
    requires Word(s[at], s[at + 1]) == Sum(unstamped)
    ensures Stamped(s, at)
  {
    assert s[at := 0][at + 1 := 0] == unstamped;
  }

  method SwapHardwareAddresses(frame: array<byte>)
    requires frame.Length >= 12
    modifies frame
    ensures Copies(frame[..], 0, old(frame[..]), 6, 6) && Copies(frame[..], 6, old(frame[..]), 0, 6)
    ensures Copies(frame[..], 12, old(frame[..]), 12, frame.Length - 12)
  {
    var sourceMac, destinationMac := frame[0..6], frame[6..12];
    Store(frame, 0, destinationMac);
    Store(frame, 6, sourceMac);
  }

  /** The header half of the rewrite, up to its checksum. */
  method WriteHeader(frame: array<byte>, icmpLen: nat)
    requires frame.Length >= REPLY_ICMP && IPV4_HEADER + icmpLen <= 0xffff
    modifies frame
    ensures HeaderFields(old(frame[..]), frame[..], icmpLen)
    ensures frame[24] == 0 && frame[25] == 0
    ensures Copies(frame[..], REPLY_ICMP, old(frame[..]), REPLY_ICMP, frame.Length - REPLY_ICMP)
  {
    var sourceIp := frame[26..30];
    SwapHardwareAddresses(frame);
    Clear(frame, ETHERNET_HEADER, REPLY_ICMP);
    frame[ETHERNET_HEADER] := 0x45;
    Store(frame, 16, BigEndian(IPV4_HEADER + icmpLen));
    frame[22] := 64;
    frame[23] := 1;
    Store(frame, 26, AP_IP);
    Store(frame, 30, sourceIp);
  }

  method RewriteHeader(frame: array<byte>, icmpLen: nat)
    requires frame.Length >= REPLY_ICMP && IPV4_HEADER + icmpLen <= 0xffff
    modifies frame
    ensures HeaderAnswers(old(frame[..]), frame[..], icmpLen)
    ensures Copies(frame[..], REPLY_ICMP, old(frame[..]), REPLY_ICMP, frame.Length - REPLY_ICMP)
  {
    WriteHeader(frame, icmpLen);
    StampWindow(frame, ETHERNET_HEADER, REPLY_ICMP, 10);
  }

  /** The message moved up against the shorter header and made an unstamped reply. */
  method MoveMessage(frame: array<byte>, icmpStart: nat, icmpEnd: nat)
    requires REPLY_ICMP <= icmpStart && icmpStart + ICMP_HEADER <= icmpEnd <= frame.Length
    modifies frame
    ensures forall i :: 34 <= i < 38 ==> frame[i] == 0
    ensures forall i :: 38 <= i < REPLY_ICMP + (icmpEnd - icmpStart) ==>
              frame[i] == old(frame[i + icmpStart - REPLY_ICMP])
    ensures forall i :: 0 <= i < 34 || REPLY_ICMP + (icmpEnd - icmpStart) <= i < frame.Length ==>
              frame[i] == old(frame[i])
  {
    CopyWithin(frame, icmpStart + 4, icmpEnd, REPLY_ICMP + 4);
    frame[REPLY_ICMP] := 0;
    frame[REPLY_ICMP + 1] := 0;
    Clear(frame, REPLY_ICMP + 2, REPLY_ICMP + 4);
  }

  /** The message half of the rewrite. */
  method RewriteMessage(frame: array<byte>, icmpStart: nat, icmpEnd: nat) returns (n: nat)
    requires REPLY_ICMP <= icmpStart && icmpStart + ICMP_HEADER <= icmpEnd <= frame.Length <= MAX_FRAME
    modifies frame
    ensures n == REPLY_ICMP + (icmpEnd - icmpStart)
    ensures MessageAnswers(old(frame[..]), frame[..], icmpStart, icmpEnd)
    ensures Copies(frame[..], 0, old(frame[..]), 0, REPLY_ICMP)
  {
    MoveMessage(frame, icmpStart, icmpEnd);
    n := REPLY_ICMP + (icmpEnd - icmpStart);
    StampWindow(frame, REPLY_ICMP, n, 2);
  }

  /** The halves do not disturb each other: moving the message never reaches back
      into the header, and the header was written before any of it had moved. */
  lemma HeaderSurvives(q: seq<byte>, mid: seq<byte>, r: seq<byte>, len: int)
    requires |q| == |mid| == |r| >= REPLY_ICMP
    requires HeaderAnswers(q, mid, len) && Copies(r, 0, mid, 0, REPLY_ICMP)
    ensures HeaderAnswers(q, r, len)
  {
    CopiesAreEqual(r, ETHERNET_HEADER, mid, ETHERNET_HEADER, IPV4_HEADER);
  }

  lemma MessageWasIntact(q: seq<byte>, mid: seq<byte>, r: seq<byte>, start: int, end: int)
    requires REPLY_ICMP <= start && start + ICMP_HEADER <= end <= |q| == |mid| == |r|
    requires Copies(mid, REPLY_ICMP, q, REPLY_ICMP, |q| - REPLY_ICMP)
    requires MessageAnswers(mid, r, start, end)
    ensures MessageAnswers(q, r, start, end)
  {
  }

  /** The whole rewrite of an accepted request into its reply. */
  method Answer(frame: array<byte>, icmpStart: nat, icmpEnd: nat) returns (n: nat)
    requires IsEchoRequest(frame[..]) && icmpStart == IcmpStart(frame[..]) && icmpEnd == IcmpEnd(frame[..])
    modifies frame
    ensures IsReplyTo(old(frame[..]), frame[..], n)
  {
    ghost var q := frame[..];
    RewriteHeader(frame, icmpEnd - icmpStart);
    ghost var mid := frame[..];
    n := RewriteMessage(frame, icmpStart, icmpEnd);
    HeaderSurvives(q, mid, frame[..], icmpEnd - icmpStart);
    MessageWasIntact(q, mid, frame[..], icmpStart, icmpEnd);
  }

  method ProcessEchoFrame(frame: array<byte>, nowMs: u64, limiter: IcmpRateLimit) returns (d: Disposition)
    requires limiter.Valid()
    modifies frame, limiter
    ensures limiter.Valid()
    ensures d == NotIcmp <==> !IsIcmp(old(frame[..]))
    ensures d == Dropped <==> IsIcmp(old(frame[..])) && !IsEchoRequest(old(frame[..]))
    ensures if IsEchoRequest(old(frame[..]))
            then (limiter.State(), d.Reply?) == Decide(old(limiter.State()), nowMs)
            else limiter.State() == old(limiter.State())
    ensures d.Reply? ==> IsReplyTo(old(frame[..]), frame[..], d.len)
    ensures !d.Reply? ==> frame[..] == old(frame[..])
  {
    ghost var q := frame[..];
    if frame.Length < ETHERNET_HEADER || frame[12] != 0x08 || frame[13] != 0x00 {
      return NotIcmp;
    }
    if frame.Length - ETHERNET_HEADER < IPV4_HEADER || frame[14] / 0x10 != 4 || frame[23] != 1 {
      return NotIcmp;
    }
    if frame.Length > MAX_FRAME {
      return Dropped;
    }
    var versionAndLength: int := frame[14];
    var headerLen := (versionAndLength % 0x10) * 4;
    if headerLen < IPV4_HEADER || headerLen > frame.Length - ETHERNET_HEADER {
      return Dropped;
    }
    var totalLen := Word(frame[16], frame[17]);
    if totalLen < headerLen + ICMP_HEADER || totalLen > frame.Length - ETHERNET_HEADER {
      return Dropped;
    }
    var headerSum := Ipv4Checksum(frame, ETHERNET_HEADER, ETHERNET_HEADER + headerLen);
    if headerSum != 0 {
      return Dropped;
    }
    if frame[30..34] != AP_IP || frame[26..30] == [0, 0, 0, 0] || frame[26] >= 224 {
      return Dropped;
    }
    if Word(frame[20], frame[21]) % 0x4000 != 0 {
      return Dropped;
    }
    var icmpEnd, icmpStart := ETHERNET_HEADER + totalLen, ETHERNET_HEADER + headerLen;
    var icmpSum := Ipv4Checksum(frame, icmpStart, icmpEnd);
    if icmpSum != 0 || frame[icmpStart] != 8 || frame[icmpStart + 1] != 0 {
      return Dropped;
    }
    assert IsEchoRequest(q);
    var allowed := limiter.Allow(nowMs);
    if !allowed {
      return RateLimited;
    }
    var n := Answer(frame, icmpStart, icmpEnd);
    return Reply(n);
  }
}
