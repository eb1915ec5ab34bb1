/** The integer line rasteriser of the status display and the bit-packed
    framebuffer it draws into (crates/pete-brainstem/src/display.rs).

    The reference definition of a line is `OnLine`: the pixels whose distance to
    the ideal segment, measured along the minor axis, is at most half a pixel,
    with the tie rule the walk happens to implement.  `Walk` is the incremental
    error-accumulating walk of the code; `WalkVisitsExactlyTheBand` says the two
    describe the same pixels. */
module Raster {
  import opened Divisors
  import opened Machine

  const WIDTH := 128
  const HEIGHT := 32
  const FRAMEBUFFER_BYTES := WIDTH * HEIGHT / 8

  // ---------------------------------------------------------------- geometry

  function Max(p: int, q: int): int { if p >= q then p else q }

  function Abs(v: int): int { if v < 0 then -v else v }

  function Sign(from: int, towards: int): int { if from < towards then 1 else -1 }

  datatype Line = Line(x0: int, y0: int, x1: int, y1: int) {
    function Dx(): int { Abs(x1 - x0) }

    function Dy(): int { Abs(y1 - y0) }

    /** Pixels travelled along each axis, counted in the direction of the line. */
    function AlongX(x: int): int { if x0 < x1 then x - x0 else x0 - x }

    function AlongY(y: int): int { if y0 < y1 then y - y0 else y0 - y }

    function PlaceX(a: int): int { if x0 < x1 then x0 + a else x0 - a }

    function PlaceY(b: int): int { if y0 < y1 then y0 + b else y0 - b }
  }

  /** `a` pixels along x and `b` pixels along y from the first endpoint lie on the
      rasterised segment.  Along the minor axis the deviation from the ideal
      segment is at most half a pixel; a tie rounds away from the start when x is
      the major axis, and away from the start in x when y is. */
  predicate InBand(dx: int, dy: int, a: int, b: int) {
    && 0 <= a <= dx
    && 0 <= b <= dy
    && var deviation := 2 * (b * dx - a * dy);
       if dx == 0 && dy == 0 then true
       else if dx >= dy then -dx < deviation <= dx
       else -dy <= deviation < dy
  }

  /** The pixels of a line, with no reference to any walk. */
  predicate OnLine(l: Line, x: int, y: int) {
    InBand(l.Dx(), l.Dy(), l.AlongX(x), l.AlongY(y))
  }

  // ---------------------------------------------------------------- the walk

  datatype Cursor = Cursor(a: int, b: int, error: int)

  function Step(c: Cursor, dx: int, dy: int): Cursor {
    var twice := 2 * c.error;
    var c' := if twice >= -dy then c.(a := c.a + 1, error := c.error - dy) else c;
    if twice <= dx then c'.(b := c'.b + 1, error := c'.error + dx) else c'
  }

  function Walk(dx: int, dy: int, k: nat): Cursor {
    if k == 0 then Cursor(0, 0, dx - dy) else Step(Walk(dx, dy, k - 1), dx, dy)
  }

  /** An integer closer than one unit to another is that integer. */
  lemma Pinned(unit: int, p: int, q: int)
    requires -unit < p * unit - q * unit < unit
    ensures p == q
  {
    var d := p - q;
    assert d * unit == p * unit - q * unit;
    if d >= 1 {
      Grows(d, unit);
    } else if d <= -1 {
      assert -d * unit == -(d * unit);
      Grows(-d, unit);
    }
  }

  lemma Grows(d: int, unit: int)
    requires d >= 1 && unit >= 0
    ensures d * unit >= unit
  {
    assert d * unit == unit + (d - 1) * unit;
    assert (d - 1) * unit >= 0;
  }

  lemma AtMost(unit: int, p: int, q: int)
    requires unit > 0
    requires p * unit < q * unit + unit
    ensures p <= q
  {
    if p > q {
      assert (p - q) * unit == p * unit - q * unit;
      Grows(p - q, unit);
    }
  }

  lemma Scale(unit: int, p: int, q: int)
    requires 0 <= p <= q && 0 <= unit
    ensures p * unit <= q * unit
  {
    assert q * unit == p * unit + (q - p) * unit;
    assert (q - p) * unit >= 0;
  }

  /** What every step keeps: the error register is the closed form of the
      position, the major coordinate is the step count, and the deviation stays
      within half a pixel on the side the tie rule names. */
  lemma {:induction false} WalkInvariant(dx: int, dy: int, k: nat)
    requires 0 <= dx && 0 <= dy && k <= Max(dx, dy)
    ensures var c := Walk(dx, dy, k);
            && c.a >= 0 && c.b >= 0
            && (dx >= dy ==> c.a == k && (dx > 0 ==> -dx < 2 * (c.error - dx + dy) <= dx))
            && (dx < dy ==> c.b == k && -dy <= 2 * (c.error - dx + dy) < dy)
  {
    if k == 0 {
    } else {
      WalkInvariant(dx, dy, k - 1);
    }
  }

  lemma Distribute(unit: int, p: int)
    ensures (p + 1) * unit == p * unit + unit
  {
  }

  lemma {:induction false} ErrorIsPosition(dx: int, dy: int, k: nat)
    ensures var c := Walk(dx, dy, k); c.error == (dx - dy) + (c.b * dx - c.a * dy)
  {
    if k == 0 {
    } else {
      ErrorIsPosition(dx, dy, k - 1);
      Distribute(dx, Walk(dx, dy, k - 1).b);
      Distribute(dy, Walk(dx, dy, k - 1).a);
    }
  }

  lemma WalkStaysInBand(dx: int, dy: int, k: nat)
    requires 0 <= dx && 0 <= dy && k <= Max(dx, dy)
    ensures InBand(dx, dy, Walk(dx, dy, k).a, Walk(dx, dy, k).b)
  {
    WalkInvariant(dx, dy, k);
    ErrorIsPosition(dx, dy, k);
    var a, b := Walk(dx, dy, k).a, Walk(dx, dy, k).b;
    if dx >= dy && dx > 0 {
      Scale(dy, a, dx);
      AtMost(dx, b, dy);
    } else if dx < dy {
      Scale(dx, b, dy);
      AtMost(dy, a, dx);
    }
  }

  /** For each value of the major coordinate the band holds one minor value. */
  lemma BandIsAFunction(dx: int, dy: int, a: int, b: int, a': int, b': int)
    ensures InBand(dx, dy, a, b) && InBand(dx, dy, a', b') && (if dx >= dy then a == a' else b == b')
        ==> a == a' && b == b'
  {
    if InBand(dx, dy, a, b) && InBand(dx, dy, a', b') {
      if dx >= dy && dx > 0 && a == a' {
        Pinned(dx, b, b');
      } else if dx < dy && b == b' {
        Pinned(dy, a, a');
      }
    }
  }

  /** The walk visits every pixel of the band and no other, each exactly once,
      in max(dx, dy) steps from the first endpoint to the last. */
  lemma WalkVisitsExactlyTheBand(dx: int, dy: int, a: int, b: int)
    requires 0 <= dx && 0 <= dy
    ensures InBand(dx, dy, a, b)
       <==> exists k: nat :: k <= Max(dx, dy) && Walk(dx, dy, k).a == a && Walk(dx, dy, k).b == b
  {
    if InBand(dx, dy, a, b) {
      var k := if dx >= dy then a else b;
      WalkInvariant(dx, dy, k);
      WalkStaysInBand(dx, dy, k);
      BandIsAFunction(dx, dy, a, b, Walk(dx, dy, k).a, Walk(dx, dy, k).b);
    }
    forall k: nat | k <= Max(dx, dy) && Walk(dx, dy, k).a == a && Walk(dx, dy, k).b == b
      ensures InBand(dx, dy, a, b)
    {
      WalkStaysInBand(dx, dy, k);
    }
  }

  /** The walk reaches the last endpoint after max(dx, dy) steps and not before,
      so the loop's exit test stops it there, and it never revisits a pixel. */
  lemma WalkEndsOnTheEndpoint(dx: int, dy: int, k: nat)
    requires 0 <= dx && 0 <= dy && k <= Max(dx, dy)
    ensures Walk(dx, dy, k).a == dx && Walk(dx, dy, k).b == dy <==> k == Max(dx, dy)
    ensures forall j: nat :: j < k ==>
              Walk(dx, dy, j).a != Walk(dx, dy, k).a || Walk(dx, dy, j).b != Walk(dx, dy, k).b
  {
    WalkInvariant(dx, dy, k);
    WalkStaysInBand(dx, dy, k);
    if k == Max(dx, dy) {
      assert InBand(dx, dy, dx, dy);
      BandIsAFunction(dx, dy, dx, dy, Walk(dx, dy, k).a, Walk(dx, dy, k).b);
    }
    forall j: nat | j < k
      ensures Walk(dx, dy, j).a != Walk(dx, dy, k).a || Walk(dx, dy, j).b != Walk(dx, dy, k).b
    {
      WalkInvariant(dx, dy, j);
    }
  }

  // ---------------------------------------------------------------- 16-bit range

  predicate FitsI16(v: int) { -0x8000 <= v < 0x8000 }

  /** What one turn of the loop computes from the error register fits 16 bits. */
  predicate StepFits(dx: int, dy: int, error: int) {
    && FitsI16(2 * error)
    && (2 * error >= -dy ==> FitsI16(error - dy))
    && (2 * error <= dx ==> FitsI16((if 2 * error >= -dy then error - dy else error) + dx))
  }

  predicate TurnFits(dx: int, dy: int, k: nat) { StepFits(dx, dy, Walk(dx, dy, k).error) }

  /** Nothing the walk computes leaves 16 bits. */
  ghost predicate WalkFits(dx: int, dy: int) {
    dx < 0x8000 && dy < 0x8000 && forall k: nat :: k < Max(dx, dy) ==> TurnFits(dx, dy, k)
  }

  /** The greatest multiple of `g` whose double is at most `n`. */
  function Top(g: nat, n: int): int
    requires g > 0
  {
    n / (2 * g) * g
  }

  /** The same, from the deltas alone.  The error register takes the values
      dx - dy + v, for the multiples v of gcd(dx, dy) within half the major delta,
      and all of them: the greatest must not overflow when doubled, nor the least,
      of those from which x advances, when dy is taken from it. */
  predicate LineFits(dx: nat, dy: nat) {
    && dx < 0x8000 && dy < 0x8000
    && (Max(dx, dy) > 0 ==>
          var g := Gcd(dx, dy);
          if dx >= dy then
            && 2 * (dx - dy + Top(g, dx)) < 0x8000
            && dx - 2 * dy - Top(g, dx - 1) >= -0x8000
          else
            && 2 * (dx - dy - Top(g, dy)) >= -0x8000
            && (dx > 0 ==> dx - 2 * dy - Top(g, 2 * dx - dy) >= -0x8000))
  }

  /** Within half the major delta, on the side the tie rule names. */
  predicate WithinHalf(dx: int, dy: int, v: int) {
    if dx >= dy then -dx < 2 * v <= dx else -dy <= 2 * v < dy
  }

  lemma ErrorIsMultiple(dx: nat, dy: nat, k: nat)
    requires k <= Max(dx, dy) && Max(dx, dy) > 0
    ensures var v := Walk(dx, dy, k).error - (dx - dy); Multiple(Gcd(dx, dy), v) && WithinHalf(dx, dy, v)
  {
    Combination(dx, dy, Walk(dx, dy, k).b, -Walk(dx, dy, k).a);
    assert -Walk(dx, dy, k).a * dy == -(Walk(dx, dy, k).a * dy);
    ErrorIsPosition(dx, dy, k);
    WalkInvariant(dx, dy, k);
  }

  /** A position in the band is reached, with the error it stands for. */
  lemma ErrorAt(dx: nat, dy: nat, a: nat, b: nat)
    requires InBand(dx, dy, a, b)
    ensures Walk(dx, dy, if dx >= dy then a else b).error == dx - dy + (b * dx - a * dy)
  {
    var k := if dx >= dy then a else b;
    WalkInvariant(dx, dy, k);
    WalkStaysInBand(dx, dy, k);
    BandIsAFunction(dx, dy, a, b, Walk(dx, dy, k).a, Walk(dx, dy, k).b);
    ErrorIsPosition(dx, dy, k);
  }

  /** Coordinates so close to the segment lie in its box. */
  lemma CloseIsInside(major: int, minor: int, x: int, y: int)
    requires 0 <= x < major && 0 <= minor <= major && -major <= 2 * (y * major - x * minor) <= major
    ensures 0 <= y <= minor
  {
    Scale(minor, x, major);
    AtMost(major, y, minor);
    assert x * minor >= 0;
    AtMost(major, 0, y);
  }

  lemma FlatMultipleIsError(dx: nat, dy: nat, v: int) returns (k: nat)
    requires dx >= dy && dx > 0 && Multiple(Gcd(dx, dy), v) && WithinHalf(dx, dy, v)
    ensures k < dx && Walk(dx, dy, k).error == dx - dy + v
  {
    var b;
    k, b := Reaches(dx, dy, v);
    CloseIsInside(dx, dy, k, b);
    ErrorAt(dx, dy, k, b);
  }

  lemma SteepMultipleIsError(dx: nat, dy: nat, v: int) returns (k: nat)
    requires dx < dy && Multiple(Gcd(dx, dy), v) && WithinHalf(dx, dy, v)
    ensures k < dy && Walk(dx, dy, k).error == dx - dy + v
  {
    GcdSwaps(dx, dy);
    Negated(Gcd(dx, dy), v);
    var a;
    k, a := Reaches(dy, dx, -v);
    CloseIsInside(dy, dx, k, a);
    ErrorAt(dx, dy, a, k);
  }

  lemma Highest(g: nat, n: int, v: int)
    requires g > 0
    ensures 2 * Top(g, n) <= n < 2 * Top(g, n) + 2 * g
    ensures Multiple(g, Top(g, n)) && Multiple(g, -Top(g, n))
    ensures Multiple(g, v) && 2 * v <= n ==> v <= Top(g, n)
    ensures Multiple(g, v) && 2 * v >= -n ==> v >= -Top(g, n)
  {
    var q := n / (2 * g);
    assert n == q * (2 * g) + n % (2 * g);
    assert q * (2 * g) == 2 * (q * g);
    Negated(g, q * g);
    NoneHigher(g, n, v);
    if Multiple(g, v) {
      Negated(g, v);
      NoneHigher(g, n, -v);
    }
  }

  lemma NoneHigher(g: nat, n: int, v: int)
    requires g > 0
    ensures Multiple(g, v) && 2 * v <= n ==> v <= Top(g, n)
  {
    if Multiple(g, v) && 2 * v <= n {
      var t, q :| v == t * g && q == n / (2 * g);
      assert n == q * (2 * g) + n % (2 * g);
      assert q * (2 * g) == 2 * (q * g);
      AtMost(g, t, q);
      Dist(q - t, t, g);
      assert (q - t) * g >= 0;
    }
  }

  ghost predicate MultiplesFit(dx: nat, dy: nat) {
    forall v :: Multiple(Gcd(dx, dy), v) && WithinHalf(dx, dy, v) ==> StepFits(dx, dy, dx - dy + v)
  }

  lemma WalkFitsMultiples(dx: nat, dy: nat)
    requires dx < 0x8000 && dy < 0x8000 && Max(dx, dy) > 0
    ensures WalkFits(dx, dy) <==> MultiplesFit(dx, dy)
  {
    if WalkFits(dx, dy) {
      forall v | Multiple(Gcd(dx, dy), v) && WithinHalf(dx, dy, v) ensures StepFits(dx, dy, dx - dy + v) {
        var k: nat;
        if dx >= dy {
          k := FlatMultipleIsError(dx, dy, v);
        } else {
          k := SteepMultipleIsError(dx, dy, v);
        }
        assert TurnFits(dx, dy, k);
      }
    }
    if MultiplesFit(dx, dy) {
      forall k: nat | k < Max(dx, dy) ensures TurnFits(dx, dy, k) {
        ErrorIsMultiple(dx, dy, k);
      }
    }
  }

  lemma FlatExtremes(dx: nat, dy: nat)
    requires dy <= dx < 0x8000 && dx > 0 && MultiplesFit(dx, dy)
    ensures LineFits(dx, dy)
  {
    var g := Gcd(dx, dy);
    Highest(g, dx, 0);
    Highest(g, dx - 1, 0);
    Combination(dx, dy, 0, 0);
    assert StepFits(dx, dy, dx - dy + Top(g, dx));
    assert StepFits(dx, dy, dx - dy + -Top(g, dx - 1));
  }

  /** The error after the step is within half the major delta again. */
  lemma FlatStepFits(dx: nat, dy: nat, v: int)
    requires dy <= dx && dx > 0 && LineFits(dx, dy) && Multiple(Gcd(dx, dy), v) && WithinHalf(dx, dy, v)
    ensures StepFits(dx, dy, dx - dy + v)
  {
    var g := Gcd(dx, dy);
    Highest(g, dx, v);
    Highest(g, dx - 1, v);
    Plus(dx, dy, v);
    Highest(g, dx, dx - dy + v);
  }

  lemma SteepExtremes(dx: nat, dy: nat)
    requires dx < dy < 0x8000 && MultiplesFit(dx, dy)
    ensures LineFits(dx, dy)
  {
    var v := -Top(Gcd(dx, dy), dy);
    Highest(Gcd(dx, dy), dy, 0);
    Combination(dx, dy, 0, 0);
    assert WithinHalf(dx, dy, v);
    assert StepFits(dx, dy, dx - dy + v);
    if dx > 0 {
      LowestAdvance(dx, dy);
    }
  }

  /** The least error from which x advances on a steep line. */
  lemma LowestAdvance(dx: nat, dy: nat)
    requires 0 < dx < dy && MultiplesFit(dx, dy)
    ensures dx - 2 * dy - Top(Gcd(dx, dy), 2 * dx - dy) >= -0x8000
  {
    var v := -Top(Gcd(dx, dy), 2 * dx - dy);
    Highest(Gcd(dx, dy), 2 * dx - dy, 0);
    GcdAtMost(dx, dy);
    assert WithinHalf(dx, dy, v);
    assert StepFits(dx, dy, dx - dy + v);
  }

  lemma SteepStepFits(dx: nat, dy: nat, v: int)
    requires dx < dy && LineFits(dx, dy) && Multiple(Gcd(dx, dy), v) && WithinHalf(dx, dy, v)
    ensures StepFits(dx, dy, dx - dy + v)
  {
    var g := Gcd(dx, dy);
    Highest(g, dy, v);
    Highest(g, 2 * dx - dy, v);
    Plus(dx, dy, v);
    Highest(g, dy, dx - dy + v);
  }

  lemma LineFitsMultiples(dx: nat, dy: nat)
    requires LineFits(dx, dy) && Max(dx, dy) > 0
    ensures MultiplesFit(dx, dy)
  {
    forall v | Multiple(Gcd(dx, dy), v) && WithinHalf(dx, dy, v) ensures StepFits(dx, dy, dx - dy + v) {
      if dx >= dy {
        FlatStepFits(dx, dy, v);
      } else {
        SteepStepFits(dx, dy, v);
      }
    }
  }

  /** The lines the 16-bit walk can draw, exactly. */
  lemma LineFitsIff(dx: nat, dy: nat)
    ensures WalkFits(dx, dy) <==> LineFits(dx, dy)
  {
    if dx < 0x8000 && dy < 0x8000 && Max(dx, dy) > 0 {
      WalkFitsMultiples(dx, dy);
      if LineFits(dx, dy) {
        LineFitsMultiples(dx, dy);
      } else if MultiplesFit(dx, dy) {
        if dx >= dy {
          FlatExtremes(dx, dy);
        } else {
          SteepExtremes(dx, dy);
        }
      }
    }
  }

  /** Deltas up to which every line fits. */
  const MAX_DELTA := 10922

  lemma ShortLinesFit(dx: int, dy: int)
    requires 0 <= dx <= MAX_DELTA && 0 <= dy <= MAX_DELTA
    ensures WalkFits(dx, dy)
  {
    forall k: nat | k < Max(dx, dy) ensures TurnFits(dx, dy, k) {
      WalkInvariant(dx, dy, k);
    }
  }

  /** Longer lines may overflow or not: two pixels more with a rise of one do, and
      20000 pixels along a diagonal, or 16383 along an axis, do not. */
  lemma LongLines()
    ensures !WalkFits(MAX_DELTA + 2, 1)
    ensures WalkFits(20000, 20000) && WalkFits(16383, 0) && !WalkFits(16384, 0)
  {
    LineFitsIff(MAX_DELTA + 2, 1);
    LineFitsIff(20000, 20000);
    LineFitsIff(16383, 0);
    LineFitsIff(16384, 0);
  }

  // ---------------------------------------------------------------- framebuffer

  predicate OnScreen(x: int, y: int) { 0 <= x < WIDTH && 0 <= y < HEIGHT }

  function ByteOf(x: int, y: int): (i: nat)
    requires OnScreen(x, y)
    ensures i < FRAMEBUFFER_BYTES
  {
    (y / 8) * WIDTH + x
  }

  function Bit(y: nat): bv8 { (1 as bv8) << (y % 8) }

  /** Whether pixel (x, y) is lit in the packed buffer. */
  predicate Lit(pixels: seq<bv8>, x: int, y: int)
    requires |pixels| == FRAMEBUFFER_BYTES && OnScreen(x, y)
  {
    pixels[ByteOf(x, y)] & Bit(y) != 0
  }

  /** The layout: 128 by 32 pixels in rows of 128 bytes, each byte a column of eight
      pixels with the topmost in its lowest bit. */
  lemma PixelLayout(pixels: seq<bv8>, x: int, y: int)
    requires |pixels| == 512
    ensures OnScreen(x, y) <==> 0 <= x <= 127 && 0 <= y <= 31
    ensures OnScreen(x, y) ==> (Lit(pixels, x, y) <==> (pixels[128 * (y / 8) + x] >> (y % 8)) & 1 == 1)
  {
    if OnScreen(x, y) {
      LowestBit(pixels[128 * (y / 8) + x], y);
    }
  }

  lemma LowestBit(v: bv8, y: nat)
    ensures v & Bit(y) != 0 <==> (v >> (y % 8)) & 1 == 1
  {
    var k := y % 8;
    assert k == 0 || k == 1 || k == 2 || k == 3 || k == 4 || k == 5 || k == 6 || k == 7;
  }

  /** The tie rule on the shortest lines that have a tie. */
  lemma Ties(x: int, y: int)
    ensures OnLine(Line(0, 0, 2, 1), x, y) <==> (x, y) in {(0, 0), (1, 1), (2, 1)}
    ensures OnLine(Line(0, 0, 1, 2), x, y) <==> (x, y) in {(0, 0), (1, 1), (1, 2)}
    ensures OnLine(Line(2, 1, 0, 0), x, y) <==> (x, y) in {(2, 1), (1, 0), (0, 0)}
  {
  }

  lemma BitsAreIndependent(v: bv8, y: nat, y': nat)
    ensures Bit(y) != 0
    ensures (v | Bit(y)) & Bit(y') != 0 <==> v & Bit(y') != 0 || y % 8 == y' % 8
    ensures (v ^ Bit(y)) & Bit(y') != 0 <==> ((v & Bit(y') != 0) != (y % 8 == y' % 8))
  {
    var k, j := y % 8, y' % 8;
    assert k == 0 || k == 1 || k == 2 || k == 3 || k == 4 || k == 5 || k == 6 || k == 7;
    assert j == 0 || j == 1 || j == 2 || j == 3 || j == 4 || j == 5 || j == 6 || j == 7;
  }

  lemma EightBitsDecideAByte(v: bv8, w: bv8)
    requires forall j: nat :: j < 8 ==> (v & Bit(j) != 0 <==> w & Bit(j) != 0)
    ensures v == w
  {
    assert v & Bit(0) != 0 <==> w & Bit(0) != 0;
    assert v & Bit(1) != 0 <==> w & Bit(1) != 0;
    assert v & Bit(2) != 0 <==> w & Bit(2) != 0;
    assert v & Bit(3) != 0 <==> w & Bit(3) != 0;
    assert v & Bit(4) != 0 <==> w & Bit(4) != 0;
    assert v & Bit(5) != 0 <==> w & Bit(5) != 0;
    assert v & Bit(6) != 0 <==> w & Bit(6) != 0;
    assert v & Bit(7) != 0 <==> w & Bit(7) != 0;
  }

  /** Every bit of every byte is a pixel. */
  lemma PixelOf(i: nat, j: nat) returns (x: nat, y: nat)
    requires i < FRAMEBUFFER_BYTES && j < 8
    ensures OnScreen(x, y) && ByteOf(x, y) == i && Bit(y) == Bit(j)
  {
    x, y := i % WIDTH, 8 * (i / WIDTH) + j;
  }

  /** (x, y) to (byte, bit) is one-to-one and onto: the pixels decide the buffer. */
  lemma PixelsDecideTheBuffer(s: seq<bv8>, t: seq<bv8>)
    requires |s| == |t| == FRAMEBUFFER_BYTES
    requires forall x, y :: OnScreen(x, y) ==> Lit(s, x, y) == Lit(t, x, y)
    ensures s == t
  {
    forall i | 0 <= i < FRAMEBUFFER_BYTES ensures s[i] == t[i] {
      forall j: nat | j < 8 ensures s[i] & Bit(j) != 0 <==> t[i] & Bit(j) != 0 {
        var x, y := PixelOf(i, j);
        assert Lit(s, x, y) == Lit(t, x, y);
      }
      EightBitsDecideAByte(s[i], t[i]);
    }
  }

  ghost predicate PixelSet(before: seq<bv8>, after: seq<bv8>, x: int, y: int)
    requires |before| == |after| == FRAMEBUFFER_BYTES
  {
    forall px, py :: OnScreen(px, py) ==> Lit(after, px, py) == (Lit(before, px, py) || (px == x && py == y))
  }

  ghost predicate PixelFlipped(before: seq<bv8>, after: seq<bv8>, x: int, y: int)
    requires |before| == |after| == FRAMEBUFFER_BYTES
  {
    forall px, py :: OnScreen(px, py) ==> Lit(after, px, py) == (Lit(before, px, py) != (px == x && py == y))
  }

  method SetPixel(framebuffer: array<bv8>, x: i16, y: i16)
    requires framebuffer.Length == FRAMEBUFFER_BYTES
    modifies framebuffer
    ensures PixelSet(old(framebuffer[..]), framebuffer[..], x, y)
  {
    if x < 0 || y < 0 || x >= WIDTH || y >= HEIGHT {
      return;
    }
    var i := (y / 8) * WIDTH + x;
    framebuffer[i] := framebuffer[i] | ((1 as bv8) << (y % 8));
    forall px, py | OnScreen(px, py)
      ensures Lit(framebuffer[..], px, py) == (Lit(old(framebuffer[..]), px, py) || (px == x && py == y))
    {
      BitsAreIndependent(old(framebuffer[i]), y, py);
    }
  }

  method InvertPixel(framebuffer: array<bv8>, x: i16, y: i16)
    requires framebuffer.Length == FRAMEBUFFER_BYTES
    modifies framebuffer
    ensures PixelFlipped(old(framebuffer[..]), framebuffer[..], x, y)
  {
    if x < 0 || y < 0 || x >= WIDTH || y >= HEIGHT {
      return;
    }
    var i := (y / 8) * WIDTH + x;
    framebuffer[i] := framebuffer[i] ^ ((1 as bv8) << (y % 8));
    forall px, py | OnScreen(px, py)
      ensures Lit(framebuffer[..], px, py) == (Lit(old(framebuffer[..]), px, py) != (px == x && py == y))
    {
      BitsAreIndependent(old(framebuffer[i]), y, py);
    }
  }

  // ---------------------------------------------------------------- lines

  lemma WalkStaysInBox(dx: int, dy: int, k: nat)
    requires 0 <= dx && 0 <= dy && k <= Max(dx, dy)
    ensures 0 <= Walk(dx, dy, k).a <= dx && 0 <= Walk(dx, dy, k).b <= dy
  {
    WalkStaysInBand(dx, dy, k);
  }

  /** `after` is `before` with the pixels of `l` switched on. */
  ghost predicate DrawnOver(before: seq<bv8>, after: seq<bv8>, l: Line)
    requires |before| == |after| == FRAMEBUFFER_BYTES
  {
    forall x, y :: OnScreen(x, y) ==> Lit(after, x, y) == (Lit(before, x, y) || OnLine(l, x, y))
  }

  /** `after` is `before` with the pixels of `l` flipped, each once. */
  ghost predicate InvertedOver(before: seq<bv8>, after: seq<bv8>, l: Line)
    requires |before| == |after| == FRAMEBUFFER_BYTES
  {
    forall x, y :: OnScreen(x, y) ==> Lit(after, x, y) == (Lit(before, x, y) != OnLine(l, x, y))
  }

  ghost function At(l: Line, k: nat): (int, int) {
    var c := Walk(l.Dx(), l.Dy(), k);
    (l.PlaceX(c.a), l.PlaceY(c.b))
  }

  /** The pixels the walk reaches in its first `n` steps. */
  ghost predicate Visited(l: Line, n: nat, x: int, y: int) {
    n > 0 && (Visited(l, n - 1, x, y) || At(l, n - 1) == (x, y))
  }

  /** The same with the pixels reached in the first `n` steps of the walk. */
  ghost predicate DrawnSoFar(before: seq<bv8>, after: seq<bv8>, l: Line, n: nat)
    requires |before| == |after| == FRAMEBUFFER_BYTES
  {
    forall x, y :: OnScreen(x, y) ==> Lit(after, x, y) == (Lit(before, x, y) || Visited(l, n, x, y))
  }

  ghost predicate InvertedSoFar(before: seq<bv8>, after: seq<bv8>, l: Line, n: nat)
    requires |before| == |after| == FRAMEBUFFER_BYTES
  {
    forall x, y :: OnScreen(x, y) ==> Lit(after, x, y) == (Lit(before, x, y) != Visited(l, n, x, y))
  }

  lemma {:induction false} VisitedSometime(l: Line, n: nat, x: int, y: int)
    ensures Visited(l, n, x, y) <==> exists k: nat :: k < n && At(l, k) == (x, y)
  {
    if n == 0 {
    } else {
      VisitedSometime(l, n - 1, x, y);
    }
  }

  /** The walk, placed in all eight octants by the signs, covers the line. */
  lemma VisitedIsOnLine(l: Line, x: int, y: int)
    ensures Visited(l, Max(l.Dx(), l.Dy()) + 1, x, y) <==> OnLine(l, x, y)
  {
    var dx, dy := l.Dx(), l.Dy();
    WalkVisitsExactlyTheBand(dx, dy, l.AlongX(x), l.AlongY(y));
    VisitedSometime(l, Max(dx, dy) + 1, x, y);
    if OnLine(l, x, y) {
      var k: nat :| k <= Max(dx, dy) && Walk(dx, dy, k).a == l.AlongX(x) && Walk(dx, dy, k).b == l.AlongY(y);
      assert At(l, k) == (x, y);
    }
    forall k: nat | k < Max(dx, dy) + 1 && At(l, k) == (x, y) ensures OnLine(l, x, y) {
      WalkStaysInBand(dx, dy, k);
    }
  }

  lemma DrawnOneMore(before: seq<bv8>, drawn: seq<bv8>, after: seq<bv8>, l: Line, n: nat)
    requires |before| == |drawn| == |after| == FRAMEBUFFER_BYTES
    requires DrawnSoFar(before, drawn, l, n) && PixelSet(drawn, after, At(l, n).0, At(l, n).1)
    ensures DrawnSoFar(before, after, l, n + 1)
  {
    forall x, y | OnScreen(x, y)
      ensures Lit(after, x, y) == (Lit(before, x, y) || Visited(l, n + 1, x, y))
    {
      assert Lit(drawn, x, y) == (Lit(before, x, y) || Visited(l, n, x, y));
    }
  }

  lemma NeverRevisits(l: Line, k: nat)
    requires k <= Max(l.Dx(), l.Dy())
    ensures !Visited(l, k, At(l, k).0, At(l, k).1)
  {
    WalkEndsOnTheEndpoint(l.Dx(), l.Dy(), k);
    VisitedSometime(l, k, At(l, k).0, At(l, k).1);
  }

  /** A pixel is flipped back only if the walk came back to it, and it never does. */
  lemma InvertedOneMore(before: seq<bv8>, inverted: seq<bv8>, after: seq<bv8>, l: Line, n: nat)
    requires |before| == |inverted| == |after| == FRAMEBUFFER_BYTES && n <= Max(l.Dx(), l.Dy())
    requires InvertedSoFar(before, inverted, l, n) && PixelFlipped(inverted, after, At(l, n).0, At(l, n).1)
    ensures InvertedSoFar(before, after, l, n + 1)
  {
    NeverRevisits(l, n);
    forall x, y | OnScreen(x, y)
      ensures Lit(after, x, y) == (Lit(before, x, y) != Visited(l, n + 1, x, y))
    {
      assert Lit(inverted, x, y) == (Lit(before, x, y) != Visited(l, n, x, y));
    }
  }

  lemma DrawnToTheEnd(before: seq<bv8>, after: seq<bv8>, l: Line)
    requires |before| == |after| == FRAMEBUFFER_BYTES
    requires DrawnSoFar(before, after, l, Max(l.Dx(), l.Dy()) + 1)
    ensures DrawnOver(before, after, l)
  {
    forall x, y | OnScreen(x, y) ensures Lit(after, x, y) == (Lit(before, x, y) || OnLine(l, x, y)) {
      VisitedIsOnLine(l, x, y);
    }
  }

  lemma InvertedToTheEnd(before: seq<bv8>, after: seq<bv8>, l: Line)
    requires |before| == |after| == FRAMEBUFFER_BYTES
    requires InvertedSoFar(before, after, l, Max(l.Dx(), l.Dy()) + 1)
    ensures InvertedOver(before, after, l)
  {
    forall x, y | OnScreen(x, y) ensures Lit(after, x, y) == (Lit(before, x, y) != OnLine(l, x, y)) {
      VisitedIsOnLine(l, x, y);
    }
  }

  lemma PlacesFit(l: Line, k: nat)
    requires FitsI16(l.x0) && FitsI16(l.y0) && FitsI16(l.x1) && FitsI16(l.y1) && k <= Max(l.Dx(), l.Dy())
    ensures FitsI16(At(l, k).0) && FitsI16(At(l, k).1)
  {
    WalkStaysInBox(l.Dx(), l.Dy(), k);
  }

  /** One turn of the loop, in the numbers the code keeps: where it goes next,
      and that nothing it computes leaves 16 bits. */
  lemma Turn(l: Line, k: nat, x: int, y: int, error: int)
    requires FitsI16(l.x0) && FitsI16(l.y0) && FitsI16(l.x1) && FitsI16(l.y1)
    requires WalkFits(l.Dx(), l.Dy()) && k < Max(l.Dx(), l.Dy())
    requires At(l, k) == (x, y) && error == Walk(l.Dx(), l.Dy(), k).error
    ensures StepFits(l.Dx(), l.Dy(), error)
    ensures var across, along := 2 * error >= -l.Dy(), 2 * error <= l.Dx();
            var x' := if across then x + Sign(l.x0, l.x1) else x;
            var y' := if along then y + Sign(l.y0, l.y1) else y;
            && At(l, k + 1) == (x', y') && FitsI16(x') && FitsI16(y')
            && Walk(l.Dx(), l.Dy(), k + 1).error
               == error - (if across then l.Dy() else 0) + (if along then l.Dx() else 0)
            && FitsI16(Walk(l.Dx(), l.Dy(), k + 1).error)
  {
    assert TurnFits(l.Dx(), l.Dy(), k);
    PlacesFit(l, k + 1);
  }

  /** The exit test fires on the last step and on no earlier one. */
  lemma ExitTest(l: Line, k: nat)
    requires k <= Max(l.Dx(), l.Dy())
    ensures At(l, k) == (l.x1, l.y1) <==> k == Max(l.Dx(), l.Dy())
  {
    WalkEndsOnTheEndpoint(l.Dx(), l.Dy(), k);
  }

  /** The rest of one turn of the loop, which both walks share. */
  method Advance(ghost l: Line, ghost k: nat, dx: i16, dy: i16, sx: i16, sy: i16, x: i16, y: i16, error: i16)
    returns (x': i16, y': i16, error': i16)
    requires FitsI16(l.x0) && FitsI16(l.y0) && FitsI16(l.x1) && FitsI16(l.y1)
    requires WalkFits(l.Dx(), l.Dy()) && k < Max(l.Dx(), l.Dy())
    requires dx == l.Dx() && dy == -l.Dy() && sx == Sign(l.x0, l.x1) && sy == Sign(l.y0, l.y1)
    requires At(l, k) == (x, y) && error == Walk(l.Dx(), l.Dy(), k).error
    ensures At(l, k + 1) == (x', y') && error' == Walk(l.Dx(), l.Dy(), k + 1).error
  {
    Turn(l, k, x, y, error);
    x', y', error' := x, y, error;
    var twiceError: i16 := error * 2;
    if twiceError >= dy {
      error' := error' + dy;
      x' := x + sx;
    }
    if twiceError <= dx {
      error' := error' + dx;
      y' := y + sy;
    }
  }

  method DrawLine(framebuffer: array<bv8>, x0: i16, y0: i16, x1: i16, y1: i16)
    requires framebuffer.Length == FRAMEBUFFER_BYTES
    requires WalkFits(Line(x0, y0, x1, y1).Dx(), Line(x0, y0, x1, y1).Dy())
    modifies framebuffer
    ensures DrawnOver(old(framebuffer[..]), framebuffer[..], Line(x0, y0, x1, y1))
  {
    ghost var l, before := Line(x0, y0, x1, y1), framebuffer[..];
    var dx: i16, sx: i16 := Abs(x1 - x0), Sign(x0, x1);
    var dy: i16, sy: i16 := -Abs(y1 - y0), Sign(y0, y1);
    var error: i16 := dx + dy;
    var x: i16, y: i16 := x0, y0;
    ghost var k: nat, last := 0, Max(l.Dx(), l.Dy());
    while true
      invariant k <= last
      invariant At(l, k) == (x, y) && error == Walk(l.Dx(), l.Dy(), k).error
      invariant DrawnSoFar(before, framebuffer[..], l, k)
      decreases last - k
    {
      ghost var drawn := framebuffer[..];
      SetPixel(framebuffer, x, y);
      DrawnOneMore(before, drawn, framebuffer[..], l, k);
      ExitTest(l, k);
      if x == x1 && y == y1 {
        break;
      }
      x, y, error := Advance(l, k, dx, dy, sx, sy, x, y, error);
      k := k + 1;
    }
    DrawnToTheEnd(before, framebuffer[..], l);
  }

  method InvertLine(framebuffer: array<bv8>, x0: i16, y0: i16, x1: i16, y1: i16)
    requires framebuffer.Length == FRAMEBUFFER_BYTES
    requires WalkFits(Line(x0, y0, x1, y1).Dx(), Line(x0, y0, x1, y1).Dy())
    modifies framebuffer
    ensures InvertedOver(old(framebuffer[..]), framebuffer[..], Line(x0, y0, x1, y1))
  {
    ghost var l, before := Line(x0, y0, x1, y1), framebuffer[..];
    var dx: i16, sx: i16 := Abs(x1 - x0), Sign(x0, x1);
    var dy: i16, sy: i16 := -Abs(y1 - y0), Sign(y0, y1);
    var error: i16 := dx + dy;
    var x: i16, y: i16 := x0, y0;
    ghost var k: nat, last := 0, Max(l.Dx(), l.Dy());
    while true
      invariant k <= last
      invariant At(l, k) == (x, y) && error == Walk(l.Dx(), l.Dy(), k).error
      invariant InvertedSoFar(before, framebuffer[..], l, k)
      decreases last - k
    {
      ghost var inverted := framebuffer[..];
      InvertPixel(framebuffer, x, y);
      InvertedOneMore(before, inverted, framebuffer[..], l, k);
      ExitTest(l, k);
      if x == x1 && y == y1 {
        break;
      }
      x, y, error := Advance(l, k, dx, dy, sx, sy, x, y, error);
      k := k + 1;
    }
    InvertedToTheEnd(before, framebuffer[..], l);
  }

  /** Inverting a line twice restores every byte of the buffer, on screen or
      clipped; this is what lets a needle be erased by drawing it again. */
  lemma InvertingTwiceRestores(before: seq<bv8>, once: seq<bv8>, twice: seq<bv8>, l: Line)
    requires |before| == |once| == |twice| == FRAMEBUFFER_BYTES
    requires InvertedOver(before, once, l) && InvertedOver(once, twice, l)
    ensures twice == before
  {
    forall x, y | OnScreen(x, y) ensures Lit(twice, x, y) == Lit(before, x, y) {
      assert Lit(once, x, y) == (Lit(before, x, y) != OnLine(l, x, y));
    }
    PixelsDecideTheBuffer(twice, before);
  }

  /** Where the line's pixels were dark, inverting a line just drawn takes it away
      again and leaves everything else. */
  lemma InvertErasesADrawnLine(before: seq<bv8>, drawn: seq<bv8>, erased: seq<bv8>, l: Line)
    requires |before| == |drawn| == |erased| == FRAMEBUFFER_BYTES
    requires DrawnOver(before, drawn, l) && InvertedOver(drawn, erased, l)
    requires forall x, y :: OnScreen(x, y) && OnLine(l, x, y) ==> !Lit(before, x, y)
    ensures erased == before
  {
    forall x, y | OnScreen(x, y) ensures Lit(erased, x, y) == Lit(before, x, y) {
      assert Lit(drawn, x, y) == (Lit(before, x, y) || OnLine(l, x, y));
    }
    PixelsDecideTheBuffer(erased, before);
  }
}
