/** The compact line decoder of the cockpit handshake
    (crates/pete-cockpit/src/handshake.rs).  Lines are kept as bytes. */
module LineDecoder {
  import opened Machine

  const CR: byte := 0x0d
  const LF: byte := 0x0a

  datatype Result = Lines(lines: seq<seq<byte>>) | NotUtf8 | FrameTooLarge(max: nat)

  // ---------------------------------------------------------------- UTF-8

  predicate Within(b: byte, low: int, high: int) { low <= b <= high }

  predicate Continues(b: byte) { Within(b, 0x80, 0xbf) }

  /** Well-formed UTF-8: shortest forms only, no surrogates, at most U+10FFFF. */
  predicate ValidUtf8(s: seq<byte>) {
    if s == [] then true
    else if s[0] < 0x80 then ValidUtf8(s[1..])
    else if Within(s[0], 0xc2, 0xdf) then |s| >= 2 && Continues(s[1]) && ValidUtf8(s[2..])
    else if Within(s[0], 0xe0, 0xef) then
      && |s| >= 3 && Continues(s[2])
      && (if s[0] == 0xe0 then Within(s[1], 0xa0, 0xbf)
          else if s[0] == 0xed then Within(s[1], 0x80, 0x9f)
          else Continues(s[1]))
      && ValidUtf8(s[3..])
    else if Within(s[0], 0xf0, 0xf4) then
      && |s| >= 4 && Continues(s[2]) && Continues(s[3])
      && (if s[0] == 0xf0 then Within(s[1], 0x90, 0xbf)
          else if s[0] == 0xf4 then Within(s[1], 0x80, 0x8f)
          else Continues(s[1]))
      && ValidUtf8(s[4..])
    else false
  }

  /** A Unicode scalar value, and its encoding by section 3 of RFC 3629. */
  type Scalar = c: int | 0 <= c < 0xd800 || 0xe000 <= c < 0x11_0000

  function Encoded(c: Scalar): (s: seq<byte>)
    ensures |s| > 0
  {
    if c < 0x80 then [c]
    else if c < 0x800 then [0xc0 + c / 0x40, 0x80 + c % 0x40]
    else if c < 0x1_0000 then [0xe0 + c / 0x1000, 0x80 + c / 0x40 % 0x40, 0x80 + c % 0x40]
    else [0xf0 + c / 0x4_0000, 0x80 + c / 0x1000 % 0x40, 0x80 + c / 0x40 % 0x40, 0x80 + c % 0x40]
  }

  function Text(cs: seq<Scalar>): seq<byte> {
    if cs == [] then [] else Encoded(cs[0]) + Text(cs[1..])
  }

  lemma EncodedFirst(c: Scalar, rest: seq<byte>)
    ensures ValidUtf8(Encoded(c) + rest) == ValidUtf8(rest)
  {
    var s, n := Encoded(c) + rest, |Encoded(c)|;
    assert s[n..] == rest;
    if 0x800 <= c < 0x1_0000 {
      assert c / 0x1000 == 0 ==> c / 0x40 % 0x40 >= 0x20;
      assert c / 0x1000 == 13 ==> c / 0x40 % 0x40 < 0x20;
    } else if c >= 0x1_0000 {
      assert c / 0x4_0000 == 0 ==> c / 0x1000 % 0x40 >= 0x10;
      assert c / 0x4_0000 == 4 ==> c / 0x1000 % 0x40 < 0x10;
    }
  }

  lemma {:induction false} TextIsValid(cs: seq<Scalar>)
    ensures ValidUtf8(Text(cs))
  {
    if cs == [] {
    } else {
      TextIsValid(cs[1..]);
      EncodedFirst(cs[0], Text(cs[1..]));
    }
  }

  /** How many bytes the first character takes. */
  function Length(first: byte): int {
    if first < 0x80 then 1 else if first < 0xe0 then 2 else if first < 0xf0 then 3 else 4
  }

  /** Two, three or four bytes, put together again. */
  lemma TwoBytes(a: byte, b: byte) returns (c: Scalar)
    requires 0xc2 <= a <= 0xdf && Continues(b)
    ensures Encoded(c) == [a, b]
  {
    c := (a - 0xc0) * 0x40 + (b - 0x80);
  }

  lemma ThreeBytes(a: byte, b: byte, d: byte) returns (c: Scalar)
    requires 0xe0 <= a <= 0xef && Continues(b) && Continues(d)
    requires (a == 0xe0 ==> b >= 0xa0) && (a == 0xed ==> b <= 0x9f)
    ensures Encoded(c) == [a, b, d]
  {
    c := (a - 0xe0) * 0x1000 + (b - 0x80) * 0x40 + (d - 0x80);
    assert c / 0x40 == (a - 0xe0) * 0x40 + (b - 0x80);
  }

  lemma FourBytes(a: byte, b: byte, d: byte, e: byte) returns (c: Scalar)
    requires 0xf0 <= a <= 0xf4 && Continues(b) && Continues(d) && Continues(e)
    requires (a == 0xf0 ==> b >= 0x90) && (a == 0xf4 ==> b <= 0x8f)
    ensures Encoded(c) == [a, b, d, e]
  {
    c := (a - 0xf0) * 0x4_0000 + (b - 0x80) * 0x1000 + (d - 0x80) * 0x40 + (e - 0x80);
    assert c / 0x40 == (a - 0xf0) * 0x1000 + (b - 0x80) * 0x40 + (d - 0x80);
    assert c / 0x1000 == (a - 0xf0) * 0x40 + (b - 0x80);
  }

  lemma FirstCharacter(s: seq<byte>) returns (c: Scalar)
    requires ValidUtf8(s) && s != []
    ensures var n := Length(s[0]); n <= |s| && Encoded(c) == s[..n] && ValidUtf8(s[n..])
  {
    if s[0] < 0x80 {
      c := s[0];
    } else if s[0] < 0xe0 {
      c := TwoBytes(s[0], s[1]);
    } else if s[0] < 0xf0 {
      c := ThreeBytes(s[0], s[1], s[2]);
    } else {
      c := FourBytes(s[0], s[1], s[2], s[3]);
    }
  }

  lemma OneMoreCharacter(c: Scalar, rest: seq<Scalar>)
    ensures Text([c] + rest) == Encoded(c) + Text(rest)
  {
    assert ([c] + rest)[1..] == rest;
  }

  lemma {:induction false} ValidIsText(s: seq<byte>) returns (cs: seq<Scalar>)
    requires ValidUtf8(s)
    ensures Text(cs) == s
  {
    if s == [] {
      cs := [];
    } else {
      var n := Length(s[0]);
      var c := FirstCharacter(s);
      var rest := ValidIsText(s[n..]);
      OneMoreCharacter(c, rest);
      cs := [c] + rest;
      assert s == s[..n] + s[n..];
    }
  }

  /** What is taken for readable is exactly the encodings of scalar values. */
  lemma ValidUtf8Iff(s: seq<byte>)
    ensures ValidUtf8(s) <==> exists cs :: Text(cs) == s
  {
    if ValidUtf8(s) {
      var cs := ValidIsText(s);
    }
    if cs :| Text(cs) == s {
      TextIsValid(cs);
    }
  }

  // ---------------------------------------------------------------- the reference splitting

  /** A stream cut at its line feeds: the finished lines and the unfinished tail. */
  datatype Parts = Parts(lines: seq<seq<byte>>, tail: seq<byte>)

  /** The parts of `start` followed by the stream `s`, carriage returns ignored. */
  function Split(start: seq<byte>, s: seq<byte>): Parts {
    if s == [] then Parts([], start)
    else
      var p, last := Split(start, s[..|s| - 1]), s[|s| - 1];
      if last == CR then p
      else if last == LF then Parts(p.lines + [p.tail], [])
      else p.(tail := p.tail + [last])
  }

  /** Every line readable, and nothing longer than the limit. */
  predicate Acceptable(p: Parts, max: nat) {
    && (forall i :: 0 <= i < |p.lines| ==> ValidUtf8(p.lines[i]) && |p.lines[i]| <= max)
    && |p.tail| <= max
  }

  function NonEmpty(lines: seq<seq<byte>>): seq<seq<byte>> {
    if lines == [] then []
    else
      var init, last := NonEmpty(lines[..|lines| - 1]), lines[|lines| - 1];
      if last == [] then init else init + [last]
  }

  /** The stream without its carriage returns (13). */
  function WithoutReturns(s: seq<byte>): seq<byte> {
    if s == [] then []
    else
      var t, last := WithoutReturns(s[..|s| - 1]), s[|s| - 1];
      if last == 13 then t else t + [last]
  }

  /** The lines and the tail put together again, a line feed (10) after each line. */
  function Rejoined(p: Parts): seq<byte>
    decreases |p.lines|
  {
    if p.lines == [] then p.tail
    else Rejoined(Parts(p.lines[..|p.lines| - 1], p.lines[|p.lines| - 1])) + [10] + p.tail
  }

  /** No line feed and no carriage return. */
  predicate Unbroken(line: seq<byte>) { 10 !in line && 13 !in line }

  lemma RejoinedMore(p: Parts, b: byte)
    ensures Rejoined(Parts(p.lines + [p.tail], [])) == Rejoined(p) + [10]
    ensures Rejoined(p.(tail := p.tail + [b])) == Rejoined(p) + [b]
  {
    assert (p.lines + [p.tail])[..|p.lines|] == p.lines && Parts(p.lines, p.tail) == p;
  }

  /** Splitting loses nothing but carriage returns ... */
  lemma {:induction false} SplitRejoins(start: seq<byte>, s: seq<byte>)
    ensures Rejoined(Split(start, s)) == start + WithoutReturns(s)
  {
    if s == [] {
    } else {
      var n := |s| - 1;
      SplitRejoins(start, s[..n]);
      RejoinedMore(Split(start, s[..n]), s[n]);
      assert start + (WithoutReturns(s[..n]) + [s[n]]) == start + WithoutReturns(s[..n]) + [s[n]];
    }
  }

  /** ... and no part of it holds a line feed or a carriage return; so these are the
      parts. */
  lemma {:induction false} PartsAreUnbroken(start: seq<byte>, s: seq<byte>)
    requires Unbroken(start)
    ensures Unbroken(Split(start, s).tail)
    ensures forall i :: 0 <= i < |Split(start, s).lines| ==> Unbroken(Split(start, s).lines[i])
  {
    if s == [] {
    } else {
      PartsAreUnbroken(start, s[..|s| - 1]);
    }
  }

  lemma OneMoreByte(start: seq<byte>, s: seq<byte>, i: nat)
    requires i < |s|
    ensures var p, b := Split(start, s[..i]), s[i];
            Split(start, s[..i + 1])
            == if b == CR then p else if b == LF then Parts(p.lines + [p.tail], []) else p.(tail := p.tail + [b])
  {
    assert s[..i + 1][..i] == s[..i];
  }

  /** Of the lines, those that are not empty are kept, in their order. */
  lemma OneMoreLine(lines: seq<seq<byte>>, line: seq<byte>)
    ensures NonEmpty([]) == []
    ensures NonEmpty(lines + [line]) == if line == [] then NonEmpty(lines) else NonEmpty(lines) + [line]
  {
    assert (lines + [line])[..|lines|] == lines;
  }

  // ---------------------------------------------------------------- pushing

  /** Byte `i` is the first the decoder cannot take: everything before it was
      acceptable, and it either ends a line that is not UTF-8 or overfills one. */
  predicate BreaksAt(start: seq<byte>, bytes: seq<byte>, max: nat, i: nat, r: Result, left: seq<byte>)
    requires i < |bytes|
  {
    var p := Split(start, bytes[..i]);
    && Acceptable(p, max)
    && (if bytes[i] == LF then r == NotUtf8 && !ValidUtf8(p.tail) && left == p.tail
        else bytes[i] != CR && r == FrameTooLarge(max) && |p.tail| == max && left == [])
  }

  /** What one push does from buffer `start`: it returns the lines of the reference
      splitting and keeps its tail, or it breaks at the first bad byte, with the
      unreadable line left in the buffer or the overlong one dropped. */
  ghost predicate Pushed(start: seq<byte>, bytes: seq<byte>, max: nat, r: Result, left: seq<byte>) {
    match r
    case Lines(lines) =>
      var p := Split(start, bytes);
      Acceptable(p, max) && lines == NonEmpty(p.lines) && left == p.tail
    case _ =>
      exists i: nat :: i < |bytes| && BreaksAt(start, bytes, max, i, r, left)
  }

  lemma FinishedLine(p: Parts, max: nat)
    requires Acceptable(p, max) && ValidUtf8(p.tail)
    ensures Acceptable(Parts(p.lines + [p.tail], []), max)
  {
  }

  class CompactLineDecoder {
    var buffer: seq<byte>
    const maxLen: nat

    ghost predicate Valid()
      reads this
    {
      |buffer| <= maxLen
    }

    constructor (maxLen: nat)
      ensures Valid() && buffer == [] && this.maxLen == maxLen
    {
      buffer := [];
      this.maxLen := maxLen;
    }

    method Push(bytes: seq<byte>) returns (r: Result)
      requires Valid()
      modifies this
      ensures Valid()
      ensures Pushed(old(buffer), bytes, maxLen, r, buffer)
    {
      var lines: seq<seq<byte>> := [];
      for i := 0 to |bytes|
        invariant Valid()
        invariant var p := Split(old(buffer), bytes[..i]);
                  Acceptable(p, maxLen) && lines == NonEmpty(p.lines) && buffer == p.tail
      {
        OneMoreByte(old(buffer), bytes, i);
        if bytes[i] == CR {
        } else if bytes[i] == LF {
          if !ValidUtf8(buffer) {
            assert BreaksAt(old(buffer), bytes, maxLen, i, NotUtf8, buffer);
            return NotUtf8;
          }
          OneMoreLine(Split(old(buffer), bytes[..i]).lines, buffer);
          FinishedLine(Split(old(buffer), bytes[..i]), maxLen);
          if buffer != [] {
            lines := lines + [buffer];
          }
          buffer := [];
        } else {
          if |buffer| >= maxLen {
            buffer := [];
            assert BreaksAt(old(buffer), bytes, maxLen, i, FrameTooLarge(maxLen), buffer);
            return FrameTooLarge(maxLen);
          }
          buffer := buffer + [bytes[i]];
        }
      }
      assert bytes[..|bytes|] == bytes;
      return Lines(lines);
    }
  }

  // ---------------------------------------------------------------- chunking

  /** Splitting resumes from the tail: chunk boundaries leave no trace. */
  lemma {:induction false} SplitJoins(start: seq<byte>, s: seq<byte>, t: seq<byte>)
    ensures var p := Split(start, s);
            var q := Split(p.tail, t);
            Split(start, s + t) == Parts(p.lines + q.lines, q.tail)
  {
    if t == [] {
      assert s + t == s;
    } else {
      var n := |t| - 1;
      SplitJoins(start, s, t[..n]);
      assert (s + t)[..|s| + n] == s + t[..n];
    }
  }

  lemma {:induction false} NonEmptyJoins(a: seq<seq<byte>>, b: seq<seq<byte>>)
    ensures NonEmpty(a + b) == NonEmpty(a) + NonEmpty(b)
  {
    if b == [] {
      assert a + b == a;
    } else {
      var n := |b| - 1;
      NonEmptyJoins(a, b[..n]);
      assert (a + b)[..|a| + n] == a + b[..n];
    }
  }

  /** What follows only lengthens the unfinished line. */
  lemma {:induction false} TailGrows(start: seq<byte>, t: seq<byte>)
    ensures var q := Split(start, t);
            if q.lines == [] then |start| <= |q.tail| else |start| <= |q.lines[0]|
  {
    if t == [] {
    } else {
      TailGrows(start, t[..|t| - 1]);
    }
  }

  /** A stream is acceptable exactly when it is acceptable chunk by chunk. */
  lemma AcceptableJoins(start: seq<byte>, s: seq<byte>, t: seq<byte>, max: nat)
    ensures var p := Split(start, s);
            Acceptable(Split(start, s + t), max) <==> Acceptable(p, max) && Acceptable(Split(p.tail, t), max)
  {
    SplitJoins(start, s, t);
    var p := Split(start, s);
    var q := Split(p.tail, t);
    TailGrows(p.tail, t);
    var lines := p.lines + q.lines;
    if Acceptable(Split(start, s + t), max) {
      assert forall i :: 0 <= i < |p.lines| ==> p.lines[i] == lines[i];
      assert forall i :: 0 <= i < |q.lines| ==> q.lines[i] == lines[|p.lines| + i];
    }
  }

  /** A push that breaks does so because its parts are not acceptable, so the
      outcome of a push is determined. */
  lemma PushSucceedsIff(start: seq<byte>, bytes: seq<byte>, max: nat, r: Result, left: seq<byte>)
    requires Pushed(start, bytes, max, r, left)
    ensures r.Lines? <==> Acceptable(Split(start, bytes), max)
  {
    if !r.Lines? {
      var i: nat :| i < |bytes| && BreaksAt(start, bytes, max, i, r, left);
      OneMoreByte(start, bytes, i);
      assert bytes == bytes[..i + 1] + bytes[i + 1..];
      AcceptableJoins(start, bytes[..i + 1], bytes[i + 1..], max);
      var p, q := Split(start, bytes[..i]), Split(start, bytes[..i + 1]);
      if bytes[i] == LF {
        assert q.lines[|p.lines|] == p.tail;
      }
    }
  }

  function Flatten(chunks: seq<seq<byte>>): seq<byte> {
    if chunks == [] then [] else Flatten(chunks[..|chunks| - 1]) + chunks[|chunks| - 1]
  }

  /** All lines returned, in order. */
  function Returned(results: seq<Result>): seq<seq<byte>> {
    if results == [] then []
    else
      var last := results[|results| - 1];
      Returned(results[..|results| - 1]) + if last.Lines? then last.lines else []
  }

  /** A decoder in any state it can be in, and the pushes it gets. */
  ghost predicate IsRun(buffers: seq<seq<byte>>, results: seq<Result>, chunks: seq<seq<byte>>, max: nat) {
    && |buffers| == |chunks| + 1 && |results| == |chunks| && |buffers[0]| <= max
    && forall i :: 0 <= i < |chunks| ==> Pushed(buffers[i], chunks[i], max, results[i], buffers[i + 1])
  }

  lemma {:induction false} RunInvariant(buffers: seq<seq<byte>>, results: seq<Result>, chunks: seq<seq<byte>>,
                                        max: nat, n: nat)
    requires IsRun(buffers, results, chunks, max) && n <= |chunks|
    ensures var p := Split(buffers[0], Flatten(chunks[..n]));
            && (Acceptable(p, max) <==> forall i :: 0 <= i < n ==> results[i].Lines?)
            && (Acceptable(p, max) ==> Returned(results[..n]) == NonEmpty(p.lines) && buffers[n] == p.tail)
  {
    if n == 0 {
      assert chunks[..0] == [] && results[..0] == [];
    } else {
      var m := n - 1;
      RunInvariant(buffers, results, chunks, max, m);
      assert chunks[..n][..m] == chunks[..m] && results[..n][..m] == results[..m];
      assert Pushed(buffers[m], chunks[m], max, results[m], buffers[m + 1]);
      PushSucceedsIff(buffers[m], chunks[m], max, results[m], buffers[m + 1]);
      var p := Split(buffers[0], Flatten(chunks[..m]));
      AcceptableJoins(buffers[0], Flatten(chunks[..m]), chunks[m], max);
      SplitJoins(buffers[0], Flatten(chunks[..m]), chunks[m]);
      NonEmptyJoins(p.lines, Split(p.tail, chunks[m]).lines);
    }
  }

  /** However a stream is cut into pushes, they all succeed exactly when the stream
      is acceptable as a whole, and then they return just its non-empty lines, in
      order, and leave its unfinished tail in the buffer. */
  lemma ChunkingIsInvisible(buffers: seq<seq<byte>>, results: seq<Result>, chunks: seq<seq<byte>>, max: nat)
    requires IsRun(buffers, results, chunks, max)
    ensures var p := Split(buffers[0], Flatten(chunks));
            && (Acceptable(p, max) <==> forall i :: 0 <= i < |results| ==> results[i].Lines?)
            && (Acceptable(p, max) ==> Returned(results) == NonEmpty(p.lines) && buffers[|chunks|] == p.tail)
  {
    RunInvariant(buffers, results, chunks, max, |chunks|);
    assert chunks[..|chunks|] == chunks && results[..|results|] == results;
  }

  // ---------------------------------------------------------------- streams that break

  /** The byte at which a push breaks, counted from the start of `bytes`. */
  function FirstBad(start: seq<byte>, bytes: seq<byte>, max: nat): (i: nat)
    requires |start| <= max && !Acceptable(Split(start, bytes), max)
    ensures i < |bytes|
    ensures Acceptable(Split(start, bytes[..i]), max) && !Acceptable(Split(start, bytes[..i + 1]), max)
  {
    var n := |bytes| - 1;
    if Acceptable(Split(start, bytes[..n]), max) then
      assert bytes[..n + 1] == bytes;
      n
    else
      var i := FirstBad(start, bytes[..n], max);
      assert bytes[..n][..i] == bytes[..i] && bytes[..n][..i + 1] == bytes[..i + 1];
      i
  }

  /** What a broken push leaves in the buffer: an unreadable line, or nothing. */
  function Remainder(start: seq<byte>, bytes: seq<byte>, max: nat): seq<byte>
    requires |start| <= max && !Acceptable(Split(start, bytes), max)
  {
    var i := FirstBad(start, bytes, max);
    if bytes[i] == LF then Split(start, bytes[..i]).tail else []
  }

  /** What one chunk yields and leaves: it counts in full or, if it breaks, not at
      all, whatever lines it finished before that. */
  function Heard(start: seq<byte>, chunk: seq<byte>, max: nat): (r: (seq<seq<byte>>, seq<byte>))
    requires |start| <= max
    ensures |r.1| <= max
  {
    var p := Split(start, chunk);
    if Acceptable(p, max) then (NonEmpty(p.lines), p.tail) else ([], Remainder(start, chunk, max))
  }

  /** What a stream cut into chunks yields and leaves. */
  function Survivors(start: seq<byte>, chunks: seq<seq<byte>>, max: nat): (r: (seq<seq<byte>>, seq<byte>))
    requires |start| <= max
    ensures |r.1| <= max
  {
    if chunks == [] then ([], start)
    else
      var (lines, buffer) := Survivors(start, chunks[..|chunks| - 1], max);
      var (more, left) := Heard(buffer, chunks[|chunks| - 1], max);
      (lines + more, left)
  }

  lemma BreaksOnce(start: seq<byte>, bytes: seq<byte>, max: nat, i: nat, r: Result, left: seq<byte>)
    requires |start| <= max && i < |bytes| && BreaksAt(start, bytes, max, i, r, left)
    ensures !Acceptable(Split(start, bytes), max) && FirstBad(start, bytes, max) == i
    ensures left == Remainder(start, bytes, max)
  {
    assert Pushed(start, bytes, max, r, left);
    PushSucceedsIff(start, bytes, max, r, left);
    NotAfter(start, bytes, max, i, r, left);
    var j := FirstBad(start, bytes, max);
    if j < i {
      Earlier(start, bytes, max, j + 1, i);
    } else if i < j {
      Earlier(start, bytes, max, i + 1, j);
    }
  }

  lemma NotAfter(start: seq<byte>, bytes: seq<byte>, max: nat, i: nat, r: Result, left: seq<byte>)
    requires i < |bytes| && BreaksAt(start, bytes, max, i, r, left)
    ensures !Acceptable(Split(start, bytes[..i + 1]), max)
  {
    OneMoreByte(start, bytes, i);
    var p, q := Split(start, bytes[..i]), Split(start, bytes[..i + 1]);
    if bytes[i] == LF {
      assert q.lines[|p.lines|] == p.tail;
    }
  }

  lemma Earlier(start: seq<byte>, bytes: seq<byte>, max: nat, i: nat, j: nat)
    requires i <= j <= |bytes| && Acceptable(Split(start, bytes[..j]), max)
    ensures Acceptable(Split(start, bytes[..i]), max)
  {
    assert bytes[..j] == bytes[..i] + bytes[i..j];
    AcceptableJoins(start, bytes[..i], bytes[i..j], max);
  }

  lemma PushIsHeard(start: seq<byte>, bytes: seq<byte>, max: nat, r: Result, left: seq<byte>)
    requires |start| <= max && Pushed(start, bytes, max, r, left)
    ensures Heard(start, bytes, max) == (if r.Lines? then r.lines else [], left)
  {
    PushSucceedsIff(start, bytes, max, r, left);
    if !r.Lines? {
      var i: nat :| i < |bytes| && BreaksAt(start, bytes, max, i, r, left);
      BreaksOnce(start, bytes, max, i, r, left);
    }
  }

  lemma OneMoreChunk(start: seq<byte>, chunks: seq<seq<byte>>, chunk: seq<byte>, max: nat)
    requires |start| <= max
    ensures var (lines, buffer) := Survivors(start, chunks, max);
            var (more, left) := Heard(buffer, chunk, max);
            Survivors(start, chunks + [chunk], max) == (lines + more, left)
  {
    assert (chunks + [chunk])[..|chunks|] == chunks;
  }

  lemma OneMoreResult(results: seq<Result>, r: Result)
    ensures Returned(results + [r]) == Returned(results) + if r.Lines? then r.lines else []
  {
    assert (results + [r])[..|results|] == results;
  }

  lemma OneMorePush(start: seq<byte>, chunks: seq<seq<byte>>, results: seq<Result>, buffer: seq<byte>,
                    chunk: seq<byte>, r: Result, left: seq<byte>, max: nat)
    requires |start| <= max && |buffer| <= max && Survivors(start, chunks, max) == (Returned(results), buffer)
    requires Heard(buffer, chunk, max) == (if r.Lines? then r.lines else [], left)
    ensures Survivors(start, chunks + [chunk], max) == (Returned(results + [r]), left)
  {
    OneMoreChunk(start, chunks, chunk, max);
    OneMoreResult(results, r);
  }

  lemma HeardInRun(buffers: seq<seq<byte>>, results: seq<Result>, chunks: seq<seq<byte>>, max: nat, m: nat)
    requires IsRun(buffers, results, chunks, max) && m < |chunks| && |buffers[m]| <= max
    ensures Heard(buffers[m], chunks[m], max) == (if results[m].Lines? then results[m].lines else [], buffers[m + 1])
  {
    assert Pushed(buffers[m], chunks[m], max, results[m], buffers[m + 1]);
    PushIsHeard(buffers[m], chunks[m], max, results[m], buffers[m + 1]);
  }

  lemma RunPrefix(buffers: seq<seq<byte>>, results: seq<Result>, chunks: seq<seq<byte>>, max: nat, m: nat)
    requires IsRun(buffers, results, chunks, max) && m <= |chunks|
    ensures IsRun(buffers[..m + 1], results[..m], chunks[..m], max)
  {
  }

  /** Every run yields just these lines and leaves just this buffer. */
  lemma {:induction false} SurvivorsAreReturned(buffers: seq<seq<byte>>, results: seq<Result>,
                                                chunks: seq<seq<byte>>, max: nat)
    requires IsRun(buffers, results, chunks, max)
    ensures Survivors(buffers[0], chunks, max) == (Returned(results), buffers[|chunks|])
    decreases |chunks|
  {
    if chunks == [] {
    } else {
      var m := |chunks| - 1;
      RunPrefix(buffers, results, chunks, max, m);
      SurvivorsAreReturned(buffers[..m + 1], results[..m], chunks[..m], max);
      HeardInRun(buffers, results, chunks, max, m);
      assert chunks == chunks[..m] + [chunks[m]] && results == results[..m] + [results[m]];
      OneMorePush(buffers[0], chunks[..m], results[..m], buffers[m], chunks[m], results[m], buffers[m + 1], max);
    }
  }

  /** Which lines a first failure costs.  Wherever the cuts are, the stream breaks
      at the same byte; the lines that come out are those finished by the last cut
      before it, and what was finished since then is lost. */
  lemma FailureLosesItsChunk(buffers: seq<seq<byte>>, results: seq<Result>, chunks: seq<seq<byte>>, max: nat)
    requires IsRun(buffers, results, chunks, max) && chunks != []
    requires forall i :: 0 <= i < |chunks| - 1 ==> results[i].Lines?
    requires !results[|chunks| - 1].Lines?
    ensures var cut, stream := Flatten(chunks[..|chunks| - 1]), Flatten(chunks);
            && !Acceptable(Split(buffers[0], stream), max)
            && |cut| <= FirstBad(buffers[0], stream, max)
            && Returned(results) == NonEmpty(Split(buffers[0], cut).lines)
            && buffers[|chunks|] == Remainder(buffers[0], stream, max)
  {
    var m := |chunks| - 1;
    RunInvariant(buffers, results, chunks, max, m);
    assert Pushed(buffers[m], chunks[m], max, results[m], buffers[m + 1]);
    BreaksAfter(buffers[0], Flatten(chunks[..m]), chunks[m], max, results[m], buffers[m + 1]);
  }

  lemma BreaksAfter(start: seq<byte>, s: seq<byte>, t: seq<byte>, max: nat, r: Result, left: seq<byte>)
    requires |start| <= max && Acceptable(Split(start, s), max)
    requires Pushed(Split(start, s).tail, t, max, r, left) && !r.Lines?
    ensures !Acceptable(Split(start, s + t), max) && |s| <= FirstBad(start, s + t, max)
    ensures left == Remainder(start, s + t, max)
  {
    var i: nat :| i < |t| && BreaksAt(Split(start, s).tail, t, max, i, r, left);
    BreaksLater(start, s, t, max, i, r, left);
    BreaksOnce(start, s + t, max, |s| + i, r, left);
  }

  lemma BreaksLater(start: seq<byte>, s: seq<byte>, t: seq<byte>, max: nat, i: nat, r: Result, left: seq<byte>)
    requires Acceptable(Split(start, s), max) && i < |t| && BreaksAt(Split(start, s).tail, t, max, i, r, left)
    ensures BreaksAt(start, s + t, max, |s| + i, r, left)
  {
    assert (s + t)[..|s| + i] == s + t[..i];
    SplitJoins(start, s, t[..i]);
    AcceptableJoins(start, s, t[..i], max);
  }

  lemma {:induction false} PlainBytes(start: seq<byte>, y: seq<byte>)
    requires CR !in y && LF !in y
    ensures Split(start, y) == Parts([], start + y)
  {
    if y == [] {
      assert start + y == start;
    } else {
      PlainBytes(start, y[..|y| - 1]);
      assert start + y == start + y[..|y| - 1] + [y[|y| - 1]];
    }
  }

  lemma OneLine(start: seq<byte>, y: seq<byte>)
    requires CR !in y && LF !in y
    ensures Split(start, y + [LF]) == Parts([start + y], [])
    ensures NonEmpty([start + y]) == if start + y == [] then [] else [start + y]
  {
    PlainBytes(start, y);
    assert (y + [LF])[..|y|] == y;
    assert [start + y][..0] == [];
  }

  lemma FinishedLines(a: seq<byte>, b: seq<byte>, max: nat)
    ensures Acceptable(Parts([a], []), max) <==> ValidUtf8(a) && |a| <= max
    ensures Acceptable(Parts([b], []), max) <==> ValidUtf8(b) && |b| <= max
    ensures Acceptable(Parts([a, b], []), max) ==> ValidUtf8(b)
  {
    assert Parts([a], []).lines[0] == a && Parts([b], []).lines[0] == b && Parts([a, b], []).lines[1] == b;
  }

  lemma TwoLines(a: seq<byte>, b: seq<byte>)
    requires CR !in a && LF !in a && CR !in b && LF !in b && a != []
    ensures Split([], a + [LF]) == Parts([a], []) && Split([], b + [LF]) == Parts([b], [])
    ensures Split([], a + [LF] + (b + [LF])) == Parts([a, b], []) && NonEmpty([a]) == [a]
  {
    assert [] + a == a && [] + b == b && [a] + [b] == [a, b];
    OneLine([], a);
    OneLine([], b);
    SplitJoins([], a + [LF], b + [LF]);
  }

  lemma HeardTwoLines(a: seq<byte>, b: seq<byte>, max: nat)
    requires CR !in a && LF !in a && CR !in b && LF !in b
    requires a != [] && ValidUtf8(a) && |a| <= max && !ValidUtf8(b)
    ensures Heard([], a + [LF] + (b + [LF]), max).0 == []
    ensures Heard([], a + [LF], max) == ([a], []) && Heard([], b + [LF], max).0 == []
  {
    TwoLines(a, b);
    FinishedLines(a, b, max);
  }

  lemma TwoChunks(start: seq<byte>, first: seq<byte>, second: seq<byte>, max: nat)
    requires |start| <= max
    ensures Survivors(start, [first], max) == Heard(start, first, max)
    ensures Survivors(start, [first, second], max).0
         == Heard(start, first, max).0 + Heard(Heard(start, first, max).1, second, max).0
  {
    OneMoreChunk(start, [], first, max);
    OneMoreChunk(start, [first], second, max);
    assert [] + [first] == [first] && [first] + [second] == [first, second];
    assert [] + Heard(start, first, max).0 == Heard(start, first, max).0;
  }

  /** So the cuts decide what is lost: an unreadable second line takes a readable
      first one with it exactly if no cut falls between them. */
  lemma CutsMatter(a: seq<byte>, b: seq<byte>, max: nat)
    requires CR !in a && LF !in a && CR !in b && LF !in b
    requires a != [] && ValidUtf8(a) && |a| <= max && !ValidUtf8(b)
    ensures Survivors([], [a + [LF] + (b + [LF])], max).0 == []
    ensures Survivors([], [a + [LF], b + [LF]], max).0 == [a]
  {
    HeardTwoLines(a, b, max);
    TwoChunks([], a + [LF] + (b + [LF]), [], max);
    TwoChunks([], a + [LF], b + [LF], max);
  }

  // ---------------------------------------------------------------- after an unreadable line

  /** A line that starts from a buffer already holding `kept`. */
  lemma LineAfter(kept: seq<byte>, y: seq<byte>, max: nat, r: Result, left: seq<byte>)
    requires CR !in y && LF !in y && Pushed(kept, y + [LF], max, r, left)
    ensures r.Lines? <==> ValidUtf8(kept + y) && |kept + y| <= max
    ensures r.Lines? ==> r.lines == if kept + y == [] then [] else [kept + y]
  {
    OneLine(kept, y);
    PushSucceedsIff(kept, y + [LF], max, r, left);
    FinishedLines(kept + y, [], max);
  }

  lemma KeptIsUnreadable(start: seq<byte>, bytes: seq<byte>, max: nat, kept: seq<byte>)
    requires Pushed(start, bytes, max, NotUtf8, kept)
    ensures !ValidUtf8(kept) && kept != []
  {
  }

  /** The decoder does not resynchronise at the line feed that failed: the next
      line is read as the continuation of the unreadable one.  It is delivered,
      joined on, exactly when the two together are readable and short enough. */
  lemma NextLineIsJoinedIff(start: seq<byte>, bytes: seq<byte>, max: nat, kept: seq<byte>,
                            y: seq<byte>, r: Result, left: seq<byte>)
    requires Pushed(start, bytes, max, NotUtf8, kept)
    requires CR !in y && LF !in y
    requires Pushed(kept, y + [LF], max, r, left)
    ensures kept != []
    ensures r.Lines? <==> ValidUtf8(kept + y) && |kept + y| <= max
    ensures r.Lines? ==> r.lines == [kept + y]
  {
    KeptIsUnreadable(start, bytes, max, kept);
    LineAfter(kept, y, max, r, left);
  }

  /** After an overlong line nothing is kept, but nor is the rest of that line
      skipped: what the next chunk brings of it is delivered as a line of its own,
      exactly when it is readable and short enough. */
  lemma OverlongRestIsALineIff(start: seq<byte>, bytes: seq<byte>, max: nat, kept: seq<byte>,
                               y: seq<byte>, r: Result, left: seq<byte>)
    requires Pushed(start, bytes, max, FrameTooLarge(max), kept)
    requires CR !in y && LF !in y
    requires Pushed(kept, y + [LF], max, r, left)
    ensures kept == []
    ensures r.Lines? <==> ValidUtf8(y) && |y| <= max
    ensures r.Lines? ==> r.lines == if y == [] then [] else [y]
  {
    assert [] + y == y;
    LineAfter([], y, max, r, left);
  }

  /** So two lines can come out as one: the halves of a readable line that a line
      feed has cut where it left the first half unreadable. */
  lemma HalvesAreJoined(a: seq<byte>, y: seq<byte>, max: nat)
    requires CR !in a && LF !in a && CR !in y && LF !in y
    requires !ValidUtf8(a) && ValidUtf8(a + y) && |a + y| <= max
    ensures Pushed([], a + [LF], max, NotUtf8, a)
    ensures Pushed(a, y + [LF], max, Lines([a + y]), [])
  {
    PlainBytes([], a);
    assert (a + [LF])[..|a|] == a && [] + a == a;
    assert BreaksAt([], a + [LF], max, |a|, NotUtf8, a);
    OneLine(a, y);
    FinishedLines(a + y, [], max);
    assert a + y != [];
  }

  /** ... such as a split character. */
  lemma SplitCharacterIsHealed(left: seq<byte>, right: seq<byte>)
    requires left == [0xc3] && right == [0xa9]
    ensures Pushed([], left + [LF], 8, NotUtf8, left)
    ensures Pushed(left, right + [LF], 8, Lines([[0xc3, 0xa9]]), [])
  {
    assert |left| == 1 && left[0] == 0xc3;
    assert !ValidUtf8(left);
    assert left + right == [0xc3, 0xa9] && ValidUtf8(left + right);
    HalvesAreJoined(left, right, 8);
  }
}
