/** The 16-bit one's-complement checksum of section 1 of RFC 1071, as the echo
    responder computes it (crates/pete-brainstem/src/icmp.rs). */
module Checksum {
  import opened Machine

  /** The sum of the big-endian 16-bit words, an odd last byte padded with zero. */
  function WordSum(s: seq<byte>): nat {
    if |s| == 0 then 0
    else if |s| == 1 then Word(s[0], 0)
    else Word(s[0], s[1]) + WordSum(s[2..])
  }

  /** End-around carry until the value fits 16 bits. */
  function Fold(n: nat): nat {
    if n < 0x1_0000 then n else Fold(n % 0x1_0000 + n / 0x1_0000)
  }

  function Sum(s: seq<byte>): (c: int) { 0xffff - Fold(WordSum(s)) }

  /** Folding is reduction modulo 65535, with 65535 and not 0 standing for the
      nonzero multiples. */
  lemma {:induction false} FoldIsResidue(n: nat)
    ensures 0 <= Fold(n) <= 0xffff
    ensures Fold(n) % 0xffff == n % 0xffff
    ensures Fold(n) == 0 <==> n == 0
  {
    if n < 0x1_0000 {
    } else {
      var m := n % 0x1_0000 + n / 0x1_0000;
      assert n == m + 0xffff * (n / 0x1_0000);
      FoldIsResidue(m);
      AddMultiple(m, n / 0x1_0000);
    }
  }

  lemma AddMultiple(m: int, q: int)
    ensures (m + 0xffff * q) % 0xffff == m % 0xffff
  {
    var d := m / 0xffff;
    assert m + 0xffff * q == 0xffff * (d + q) + m % 0xffff;
  }

  lemma {:induction false} WordSumBound(s: seq<byte>)
    ensures WordSum(s) <= 0xffff * ((|s| + 1) / 2)
  {
    if |s| < 2 {
    } else {
      WordSumBound(s[2..]);
    }
  }

  /** A message verifies exactly when its word sum is a positive multiple of 65535. */
  lemma VerifiesIff(s: seq<byte>)
    ensures Sum(s) == 0 <==> WordSum(s) > 0 && WordSum(s) % 0xffff == 0
  {
    FoldIsResidue(WordSum(s));
  }

  lemma {:induction false} WordSumUpdate(s: seq<byte>, at: nat, hi: byte, lo: byte)
    requires at % 2 == 0 && at + 1 < |s|
    ensures WordSum(s[at := hi][at + 1 := lo])
         == WordSum(s) - Word(s[at], s[at + 1]) + Word(hi, lo)
  {
    var t := s[at := hi][at + 1 := lo];
    if at == 0 {
      assert t[2..] == s[2..];
    } else {
      WordSumUpdate(s[2..], at - 2, hi, lo);
      assert t[2..] == s[2..][at - 2 := hi][at - 1 := lo];
    }
  }

  /** `s` carries at offset `at` the checksum of itself with that field zeroed. */
  predicate Stamped(s: seq<byte>, at: nat)
    requires at + 1 < |s|
  {
    Word(s[at], s[at + 1]) == Sum(s[at := 0][at + 1 := 0])
  }

  /** Re-running the checksum over a stamped message gives 0: for every length,
      odd ones included, and also when everything but the field is zero. */
  lemma StampVerifies(s: seq<byte>, at: nat)
    requires at % 2 == 0 && at + 1 < |s| && Stamped(s, at)
    ensures Sum(s) == 0
  {
    var z: seq<byte> := s[at := 0][at + 1 := 0];
    assert s == z[at := s[at]][at + 1 := s[at + 1]];
    WordSumUpdate(z, at, s[at], s[at + 1]);
    FoldIsResidue(WordSum(z));
    var n := WordSum(z);
    assert WordSum(s) == n + 0xffff - Fold(n);
    assert (n + 0xffff - Fold(n)) % 0xffff == 0 by {
      var a, b := n / 0xffff, Fold(n) / 0xffff;
      assert n - Fold(n) == 0xffff * (a - b);
      AddMultiple(0, a - b + 1);
    }
    VerifiesIff(s);
  }

  /** The loop of the source over a slice of the frame.  The 32-bit accumulator
      cannot overflow for any slice of at most 131074 bytes. */
  method Ipv4Checksum(frame: array<byte>, from: nat, to: nat) returns (checksum: int)
    requires from <= to <= frame.Length && to - from <= 131074
    ensures checksum == Sum(frame[from..to])
    ensures 0 <= checksum <= 0xffff
  {
    ghost var bytes := frame[from..to];
    WordSumBound(bytes);
    var sum: u32 := 0;
    var i := from;
    while i + 1 < to
      invariant from <= i <= to && (i - from) % 2 == 0
      invariant sum + WordSum(frame[i..to]) == WordSum(bytes)
    {
      assert frame[i..to][2..] == frame[i + 2..to];
      sum := sum + Word(frame[i], frame[i + 1]);
      i := i + 2;
    }
    if i < to {
      sum := sum + Word(frame[i], 0);
    }
    while sum / 0x1_0000 != 0
      invariant Fold(sum) == Fold(WordSum(bytes))
      decreases sum
    {
      sum := sum % 0x1_0000 + sum / 0x1_0000;
    }
    FoldIsResidue(WordSum(bytes));
    checksum := 0xffff - sum;
  }
}
