/** What the body really does behind the reports that recovery goes by.  The
    reported x is a coordinate of the world and not a distance along the body's
    heading, the reported heading may be normalised, and both start again at zero
    when the odometry is reset (crates/pete-runtime/src/runtime/real_robot/body.rs,
    crates/pete-brainstem/src/status/telemetry.rs, crates/pete-sim/src/lib.rs).
    The theorems say of one completion exactly when it has nevertheless done what
    its reports show. */
module Odometry {
  import opened Recovery

  // ---------------------------------------------------------------- reports

  const PI := 3.1415927410125732421875
  const TAU := 2.0 * PI

  function Down(angle: real): real
    decreases angle
  {
    if angle > PI then Down(angle - TAU) else angle
  }

  function Up(angle: real): real
    decreases -angle
  {
    if angle < -PI then Up(angle + TAU) else angle
  }

  /** `normalize_pose_angle`. */
  function Normalized(angle: real): real { Up(Down(angle)) }

  /** What happens between two ticks: the distance rolled along the heading, the
      angle turned to the left, the cosine of the heading (at its midpoint), the
      full turns normalisation has added to the reported heading, and whether the
      odometry was reset. */
  datatype Move = Move(forward: real, turned: real, cosine: real, laps: int, reset: bool)

  predicate Reports(i: Input, m: Move, i': Input) {
    && -1.0 <= m.cosine <= 1.0
    && if m.reset then i'.x == 0.0 && i'.heading == 0.0
       else && i'.x == i.x + m.forward * m.cosine
            && i'.heading == i.heading + m.turned + TAU * m.laps as real
  }

  /** The motion behind the reports of an episode. */
  predicate Travels(e: Episode, moves: seq<Move>) {
    |moves| + 1 == |e.inputs| && forall k :: 0 <= k < |moves| ==> Reports(e.inputs[k], moves[k], e.inputs[k + 1])
  }

  /** Headings are reported as they are, or normalised. */
  predicate Framed(e: Episode, moves: seq<Move>) {
    || (forall k :: 0 <= k < |moves| ==> moves[k].laps == 0)
    || (forall k :: 0 <= k < |e.inputs| ==> -PI <= e.inputs[k].heading <= PI)
  }

  lemma {:induction false} DownLaps(angle: real) returns (laps: int)
    ensures Down(angle) == angle + TAU * laps as real && Down(angle) <= PI
    ensures angle >= -PI ==> Down(angle) >= -PI
    decreases angle
  {
    if angle <= PI {
      laps := 0;
    } else {
      laps := DownLaps(angle - TAU);
      laps := laps - 1;
    }
  }

  lemma {:induction false} UpLaps(angle: real) returns (laps: int)
    ensures Up(angle) == angle + TAU * laps as real && Up(angle) >= -PI
    ensures angle <= PI ==> Up(angle) <= PI
    decreases -angle
  {
    if angle >= -PI {
      laps := 0;
    } else {
      laps := UpLaps(angle + TAU);
      laps := laps + 1;
    }
  }

  lemma NormalizedLaps(angle: real) returns (laps: int)
    ensures Normalized(angle) == angle + TAU * laps as real && -PI <= Normalized(angle) <= PI
  {
    var down := DownLaps(angle);
    var up := UpLaps(Down(angle));
    laps := down + up;
  }

  /** The pose adapter, which adds a normalised difference and normalises the sum,
      reports headings of this kind. */
  lemma AdapterReports(heading: real, turned: real) returns (laps: int)
    ensures Normalized(heading + Normalized(turned)) == heading + turned + TAU * laps as real
    ensures -PI <= Normalized(heading + Normalized(turned)) <= PI
  {
    var inner := NormalizedLaps(turned);
    var outer := NormalizedLaps(heading + Normalized(turned));
    laps := inner + outer;
  }

  // ---------------------------------------------------------------- sums of motion

  function Rolled(moves: seq<Move>, from: nat, to: nat): real
    requires from <= to <= |moves|
  {
    if from == to then 0.0 else Rolled(moves, from, to - 1) + moves[to - 1].forward
  }

  /** The angle turned towards `d`. */
  function Rotated(moves: seq<Move>, d: TurnDir, from: nat, to: nat): real
    requires from <= to <= |moves|
  {
    if from == to then 0.0
    else Rotated(moves, d, from, to - 1) + if d == Left then moves[to - 1].turned else -moves[to - 1].turned
  }

  /** The net crossings of the half turn against direction `d`, each of which makes
      the reported heading jump a full turn towards `d`. */
  function Crossings(moves: seq<Move>, d: TurnDir, from: nat, to: nat): int
    requires from <= to <= |moves|
  {
    if from == to then 0
    else Crossings(moves, d, from, to - 1) + if d == Left then moves[to - 1].laps else -moves[to - 1].laps
  }

  predicate Straight(moves: seq<Move>, from: nat, to: nat, cosine: real)
    requires to <= |moves|
  {
    forall k :: from <= k < to ==> moves[k].cosine == cosine
  }

  predicate HasReset(moves: seq<Move>, from: nat, to: nat)
    requires to <= |moves|
  {
    exists k :: from <= k < to && moves[k].reset
  }

  lemma {:induction false} XFollows(e: Episode, moves: seq<Move>, from: nat, to: nat, cosine: real)
    requires Travels(e, moves) && from <= to <= |moves| && Straight(moves, from, to, cosine)
    requires !HasReset(moves, from, to)
    ensures e.inputs[to].x - e.inputs[from].x == Rolled(moves, from, to) * cosine
  {
    if from == to {
    } else {
      XFollows(e, moves, from, to - 1, cosine);
      assert Reports(e.inputs[to - 1], moves[to - 1], e.inputs[to]);
    }
  }

  lemma {:induction false} HeadingFollows(e: Episode, moves: seq<Move>, d: TurnDir, from: nat, to: nat)
    requires Travels(e, moves) && from <= to <= |moves| && !HasReset(moves, from, to)
    ensures var gained := if d == Left then e.inputs[to].heading - e.inputs[from].heading
                          else e.inputs[from].heading - e.inputs[to].heading;
            gained == Rotated(moves, d, from, to) + TAU * Crossings(moves, d, from, to) as real
  {
    if from == to {
    } else {
      HeadingFollows(e, moves, d, from, to - 1);
      assert Reports(e.inputs[to - 1], moves[to - 1], e.inputs[to]);
    }
  }

  lemma {:induction false} NoLaps(moves: seq<Move>, d: TurnDir, from: nat, to: nat)
    requires from <= to <= |moves| && forall k :: 0 <= k < |moves| ==> moves[k].laps == 0
    ensures Crossings(moves, d, from, to) == 0
  {
    if from == to {
    } else {
      NoLaps(moves, d, from, to - 1);
    }
  }

  /** A distance along the heading shortens along x, or turns round, but never grows. */
  lemma AlongHeading(distance: real, cosine: real, target: real)
    requires -1.0 <= cosine <= 1.0 && target > 0.0 && distance * cosine >= target
    ensures distance >= target <==> cosine >= 0.0
  {
    if cosine > 0.0 {
      assert distance > 0.0;
      assert distance * (1.0 - cosine) >= 0.0;
    } else if cosine < 0.0 {
      assert distance < 0.0;
    }
  }

  // ---------------------------------------------------------------- one completion

  /** A completion, the motion behind it, and the phases of its attempt. */
  ghost predicate Journey(e: Episode, moves: seq<Move>, first: TurnDir, n: nat, r: nat, s: nat, t: nat) {
    Completes(e, first, n) && Travels(e, moves) && Framed(e, moves) && Phases(e, n, r, s, t)
  }

  lemma JourneyHistory(e: Episode, moves: seq<Move>, first: TurnDir, n: nat, r: nat, s: nat, t: nat)
    requires Journey(e, moves, first, n, r, s, t)
    ensures n <= |moves| && s - r <= REVERSE_MAX_TICKS && 1 <= e.states[n].attempt <= MAX_ATTEMPTS
    ensures Backward(e, e.states[n].attempt, n) == s - r
    ensures 0 < s - r < REVERSE_MAX_TICKS ==> e.inputs[r].x - e.inputs[s].x >= Target(e.states[n].attempt)
    ensures Turned(e.states[n].Direction(), e.inputs[s].heading, e.inputs[t].heading) >= TURN_MIN_USEFUL
    ensures e.inputs[n].x - e.inputs[t].x >= PROBE_TARGET
  {
    var r', s', t' := CompletionHistory(e, first, n);
    PhasesAreUnique(e, n, r, s, t, r', s', t');
    BackwardRange(e, first, n);
  }

  lemma CosineRange(e: Episode, moves: seq<Move>, k: nat)
    requires Travels(e, moves) && k < |moves|
    ensures -1.0 <= moves[k].cosine <= 1.0
  {
    assert Reports(e.inputs[k], moves[k], e.inputs[k + 1]);
  }

  /** A straight reverse short of 45 ticks really backed the attempt's distance
      exactly if the body did not face against x. */
  lemma ReverseIsRealIff(e: Episode, moves: seq<Move>, first: TurnDir, n: nat, r: nat, s: nat, t: nat, cosine: real)
    requires Journey(e, moves, first, n, r, s, t) && s <= |moves| && !HasReset(moves, r, s)
    requires 0 < s - r < REVERSE_MAX_TICKS && Straight(moves, r, s, cosine)
    ensures -Rolled(moves, r, s) >= Target(e.states[n].attempt) <==> cosine >= 0.0
  {
    JourneyHistory(e, moves, first, n, r, s, t);
    XFollows(e, moves, r, s, cosine);
    CosineRange(e, moves, r);
    assert -Rolled(moves, r, s) * cosine == -(Rolled(moves, r, s) * cosine);
    AlongHeading(-Rolled(moves, r, s), cosine, Target(e.states[n].attempt));
  }

  /** The turn really gained 0.30 rad the commanded way exactly if the reported
      heading has not, on balance, crossed the half turn the other way. */
  lemma TurnIsRealIff(e: Episode, moves: seq<Move>, first: TurnDir, n: nat, r: nat, s: nat, t: nat)
    requires Journey(e, moves, first, n, r, s, t) && t <= |moves| && !HasReset(moves, s, t)
    ensures Rotated(moves, e.states[n].Direction(), s, t) >= TURN_MIN_USEFUL
       <==> Crossings(moves, e.states[n].Direction(), s, t) <= 0
  {
    var d := e.states[n].Direction();
    JourneyHistory(e, moves, first, n, r, s, t);
    HeadingFollows(e, moves, d, s, t);
    if forall k :: 0 <= k < |moves| ==> moves[k].laps == 0 {
      NoLaps(moves, d, s, t);
    }
  }

  /** A straight probe really advanced 0.05 m exactly if the body did not face
      against x. */
  lemma ProbeIsRealIff(e: Episode, moves: seq<Move>, first: TurnDir, n: nat, r: nat, s: nat, t: nat, cosine: real)
    requires Journey(e, moves, first, n, r, s, t) && n <= |moves| && !HasReset(moves, t, n)
    requires Straight(moves, t, n, cosine)
    ensures Rolled(moves, t, n) >= PROBE_TARGET <==> cosine >= 0.0
  {
    JourneyHistory(e, moves, first, n, r, s, t);
    XFollows(e, moves, t, n, cosine);
    CosineRange(e, moves, t);
    AlongHeading(Rolled(moves, t, n), cosine, PROBE_TARGET);
  }

  lemma Shortens(distance: real, cosine: real)
    requires -1.0 <= cosine <= 1.0
    ensures distance >= 0.0 ==> distance * cosine <= distance
    ensures distance <= 0.0 ==> -(distance * cosine) <= -distance
  {
    assert distance * (1.0 - cosine) == distance - distance * cosine;
    assert distance >= 0.0 ==> distance * (1.0 - cosine) >= 0.0;
    assert distance <= 0.0 ==> distance * (1.0 - cosine) <= 0.0;
  }

  lemma OneStep(e: Episode, moves: seq<Move>, k: nat)
    requires Travels(e, moves) && k < |moves| && !moves[k].reset
    ensures moves[k].forward >= 0.0 ==> e.inputs[k + 1].x - e.inputs[k].x <= moves[k].forward
    ensures moves[k].forward <= 0.0 ==> e.inputs[k].x - e.inputs[k + 1].x <= -moves[k].forward
  {
    assert Reports(e.inputs[k], moves[k], e.inputs[k + 1]);
    Shortens(moves[k].forward, moves[k].cosine);
  }

  /** On any course, a body that only rolls ahead goes at least as far as its x. */
  lemma {:induction false} OnlyAhead(e: Episode, moves: seq<Move>, from: nat, to: nat)
    requires Travels(e, moves) && from <= to <= |moves| && !HasReset(moves, from, to)
    requires forall k :: from <= k < to ==> moves[k].forward >= 0.0
    ensures e.inputs[to].x - e.inputs[from].x <= Rolled(moves, from, to)
  {
    if from == to {
    } else {
      OnlyAhead(e, moves, from, to - 1);
      OneStep(e, moves, to - 1);
    }
  }

  lemma {:induction false} OnlyBack(e: Episode, moves: seq<Move>, from: nat, to: nat)
    requires Travels(e, moves) && from <= to <= |moves| && !HasReset(moves, from, to)
    requires forall k :: from <= k < to ==> moves[k].forward <= 0.0
    ensures e.inputs[from].x - e.inputs[to].x <= -Rolled(moves, from, to)
  {
    if from == to {
    } else {
      OnlyBack(e, moves, from, to - 1);
      OneStep(e, moves, to - 1);
    }
  }

  /** So on any course, straight or not, a completed recovery has really gone its
      distances if the body never rolled against its commands. */
  lemma RollingAsToldIsReal(e: Episode, moves: seq<Move>, first: TurnDir, n: nat, r: nat, s: nat, t: nat)
    requires Journey(e, moves, first, n, r, s, t) && n <= |moves| && !HasReset(moves, r, s) && !HasReset(moves, t, n)
    requires forall k :: r <= k < s ==> moves[k].forward <= 0.0
    requires forall k :: t <= k < n ==> moves[k].forward >= 0.0
    ensures 0 < s - r < REVERSE_MAX_TICKS ==> -Rolled(moves, r, s) >= Target(e.states[n].attempt)
    ensures Rolled(moves, t, n) >= PROBE_TARGET
  {
    JourneyHistory(e, moves, first, n, r, s, t);
    OnlyBack(e, moves, r, s);
    OnlyAhead(e, moves, t, n);
  }
}
