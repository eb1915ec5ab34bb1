/** The contact-recovery state machine of the conductor
    (crates/pete-conductor/src/lib.rs): reverse, turn, probe, escalate.  Floating
    point is modelled over the reals. */
module Recovery {
  import opened Machine

  datatype TurnDir = Left | Right {
    function Opposite(): TurnDir { if this == Left then Right else Left }
  }

  datatype RecoveryStep = Idle | Reverse | Turn | Probe | Inspect | Stuck

  datatype RecoveryState = RecoveryState(
    step: RecoveryStep,
    remaining: nat,
    turnDirection: Option<TurnDir>,
    attempt: nat,
    originX: real,
    originHeading: real,
    stalled: nat)
  {
    /** `unwrap_or(Left)`. */
    function Direction(): TurnDir { if turnDirection.Some? then turnDirection.value else Left }
  }

  datatype Action =
    | Go(intensity: real)
    | TurnTo(direction: TurnDir)
    | InspectNovelty
    | Stop
  {
    /** A command that moves the body. */
    predicate Motion() { Go? || TurnTo? }
  }

  /** The part of a conductor input that recovery reads. */
  datatype Input = Input(
    x: real,
    heading: real,
    beams: seq<real>,
    bumpLeft: bool,
    bumpRight: bool,
    wall: bool,
    nearest: Option<real>,
    forwardSpeed: real,
    directControl: bool,
    wheelDrop: bool,
    charging: bool,
    criticalBattery: bool)

  const MAX_ATTEMPTS := 3
  const REVERSE_BASE_TARGET := 0.08
  const REVERSE_TARGET_STEP := 0.04
  const REVERSE_MAX_TICKS := 45
  const TURN_TARGET := 1.57
  const TURN_MIN_USEFUL := 0.30
  const TURN_MAX_TICKS := 45
  const PROBE_TARGET := 0.05
  const PROBE_MAX_TICKS := 20
  const CLEAR_AHEAD := 0.30
  const STALLED_BELOW := 0.01

  const IDLE := RecoveryState(Idle, 0, None, 0, 0.0, 0.0, 0)

  // ---------------------------------------------------------------- ranges

  function Min(p: real, q: real): real { if q < p then q else p }

  /** `fold(1.0, min)`. */
  function Nearest(beams: seq<real>): (r: real)
    ensures r <= 1.0 && forall i :: 0 <= i < |beams| ==> r <= beams[i]
    ensures r == 1.0 || r in beams
  {
    if beams == [] then 1.0 else Min(Nearest(beams[..|beams| - 1]), beams[|beams| - 1])
  }

  function Third(n: nat): nat { if n / 3 > 1 then n / 3 else 1 }

  /** The centre third of the beams, widened by one beam on each side. */
  function CenterWindow(n: nat): (w: (nat, nat))
    requires n > 0
    ensures w.0 < w.1 <= n
    ensures n >= 3 ==> w == (n / 3 - 1, n - n / 3 + 1)
    ensures n < 3 ==> w == (0, n)
  {
    var leftEnd := if Third(n) <= n then Third(n) else n;
    var rightStart := if n >= Third(n) then n - Third(n) else 0;
    var start := leftEnd - 1;
    var end := if rightStart + 1 <= n then rightStart + 1 else n;
    (start, if end >= start + 1 then end else start + 1)
  }

  /** No beam of the centre window is nearer than 0.30 m.  The window takes all of
      one or two beams. */
  predicate ViewClear(beams: seq<real>) {
    var n := |beams|;
    forall k :: 0 <= k < n && (n >= 3 ==> n / 3 - 1 <= k <= n - n / 3) ==> beams[k] >= 0.30
  }

  function CenterClearance(beams: seq<real>): (r: real)
    ensures r >= CLEAR_AHEAD <==> ViewClear(beams)
  {
    if beams == [] then 1.0
    else
      var w := CenterWindow(|beams|);
      assert forall i :: w.0 <= i < w.1 ==> beams[i] == beams[w.0..w.1][i - w.0];
      Nearest(beams[w.0..w.1])
  }

  // ---------------------------------------------------------------- one tick

  function Positive(r: real): real { if r < 0.0 then 0.0 else r }

  function ReverseTarget(s: RecoveryState): real {
    REVERSE_BASE_TARGET + (if s.attempt == 0 then 0 else s.attempt - 1) as real * REVERSE_TARGET_STEP
  }

  function ReverseProgress(s: RecoveryState, i: Input): real { Positive(s.originX - i.x) }

  function ForwardProgress(s: RecoveryState, i: Input): real { Positive(i.x - s.originX) }

  /** Heading gained in direction `d` between two reports; a loss counts as nothing. */
  function Turned(d: TurnDir, from: real, to: real): real {
    Positive(if d == Left then to - from else from - to)
  }

  function TurnProgress(s: RecoveryState, i: Input): real {
    Turned(s.Direction(), s.originHeading, i.heading)
  }

  function PhaseTicks(step: RecoveryStep): nat {
    match step
    case Reverse => REVERSE_MAX_TICKS
    case Turn => TURN_MAX_TICKS
    case Probe => PROBE_MAX_TICKS
    case Inspect => 1
    case Stuck => 0
    case Idle => 0
  }

  function BeginPhase(s: RecoveryState, i: Input, step: RecoveryStep): RecoveryState {
    s.(step := step, remaining := PhaseTicks(step), originX := i.x, originHeading := i.heading)
  }

  /** The next attempt, turning the other way, or Stuck after the last one. */
  function Escalate(s: RecoveryState, i: Input): RecoveryState {
    if s.attempt >= MAX_ATTEMPTS then BeginPhase(s, i, Stuck)
    else BeginPhase(s.(attempt := s.attempt + 1, turnDirection := Some(s.Direction().Opposite())), i, Reverse)
  }

  /** The stall counter is a saturating byte. */
  function Stalled(s: RecoveryState, stalled: bool): RecoveryState {
    if stalled && s.stalled < 255 then s.(stalled := s.stalled + 1) else s
  }

  function Spend(s: RecoveryState): RecoveryState {
    if s.remaining == 0 then s else s.(remaining := s.remaining - 1)
  }

  function AttemptsLeft(s: RecoveryState): nat {
    if s.attempt < MAX_ATTEMPTS then MAX_ATTEMPTS - s.attempt else 0
  }

  function Rank(step: RecoveryStep): nat {
    match step
    case Reverse => 3
    case Turn => 2
    case Probe => 1
    case _ => 0
  }

  /** What one call of `next_recovery_action` does: transitions on the same
      odometry until a state emits a command. */
  function Tick(s: RecoveryState, i: Input): (RecoveryState, Option<Action>)
    decreases AttemptsLeft(s), Rank(s.step)
  {
    match s.step
    case Idle => (s, None)
    case Reverse =>
      if ReverseProgress(s, i) >= ReverseTarget(s) || s.remaining == 0 then
        Tick(BeginPhase(Stalled(s, ReverseProgress(s, i) < STALLED_BELOW), i, Turn), i)
      else (Spend(s), Some(Go(-0.05)))
    case Turn =>
      if TurnProgress(s, i) >= TURN_TARGET || s.remaining == 0 then
        if TurnProgress(s, i) < TURN_MIN_USEFUL then Tick(Escalate(Stalled(s, true), i), i)
        else Tick(BeginPhase(s, i, Probe), i)
      else (Spend(s), Some(TurnTo(s.Direction())))
    case Probe =>
      var closeAhead := CenterClearance(i.beams) < CLEAR_AHEAD;
      if ForwardProgress(s, i) >= PROBE_TARGET && !closeAhead then (IDLE, Some(InspectNovelty))
      else if closeAhead || s.remaining == 0 then
        Tick(Escalate(Stalled(s, ForwardProgress(s, i) < STALLED_BELOW), i), i)
      else (Spend(s), Some(Go(0.05)))
    case Inspect => (IDLE, Some(InspectNovelty))
    case Stuck => (s, Some(Stop))
  }

  // ---------------------------------------------------------------- starting

  /** Worst clearance over the left and right thirds of the beams. */
  function Sides(beams: seq<real>): (real, real) {
    if beams == [] then (1.0, 1.0)
    else
      var leftEnd := if Third(|beams|) <= |beams| then Third(|beams|) else |beams|;
      var rightStart := if |beams| >= Third(|beams|) then |beams| - Third(|beams|) else 0;
      (Nearest(beams[..leftEnd]), Nearest(beams[rightStart..]))
  }

  function ClearerDirection(beams: seq<real>): TurnDir {
    if Sides(beams).1 > Sides(beams).0 then Right else Left
  }

  /** `fold(0.0, max)` reaches 0.75 just when a beam does. */
  predicate SideEscapeGap(beams: seq<real>) {
    beams != [] &&
    var third := Third(|beams|);
    || (exists k :: 0 <= k < third && k < |beams| && beams[k] >= 0.75)
    || (exists k :: |beams| - third <= k < |beams| && 0 <= k && beams[k] >= 0.75)
  }

  predicate Contact(i: Input) { i.bumpLeft || i.bumpRight || i.wall }

  /** Away from the bumper that was hit, or towards the clearer side. */
  function ContactDirection(i: Input): TurnDir {
    if i.bumpLeft && !i.bumpRight then Right
    else if i.bumpRight && !i.bumpLeft then Left
    else ClearerDirection(i.beams)
  }

  predicate Cramped(i: Input) {
    i.nearest.Some? && i.nearest.value < 0.35 && -0.02 < i.forwardSpeed < 0.02
  }

  function Start(i: Input, step: RecoveryStep, d: TurnDir): RecoveryState {
    RecoveryState(step, PhaseTicks(step), Some(d), 1, i.x, i.heading, 0)
  }

  /** The state the tick runs from: a new episode when idle and triggered. */
  function Begun(s: RecoveryState, i: Input): RecoveryState {
    if s.step != Idle then s
    else if Contact(i) then Start(i, Reverse, ContactDirection(i))
    else if Cramped(i) then
      if SideEscapeGap(i.beams) then Start(i, Reverse, ClearerDirection(i.beams))
      else Start(i, Turn, ClearerDirection(i.beams))
    else s
  }

  class SimpleConductor {
    var recovery: RecoveryState

    constructor ()
      ensures recovery == IDLE
    {
      recovery := IDLE;
    }

    method BeginRecoveryPhase(i: Input, step: RecoveryStep)
      modifies this
      ensures recovery == BeginPhase(old(recovery), i, step)
    {
      recovery := recovery.(step := step, remaining := PhaseTicks(step), originX := i.x, originHeading := i.heading);
    }

    method BeginEscalatedRecoveryAttempt(i: Input) returns (escalated: bool)
      modifies this
      ensures escalated == (old(recovery).attempt < MAX_ATTEMPTS)
      ensures recovery == if escalated then Escalate(old(recovery), i) else old(recovery)
    {
      if recovery.attempt >= MAX_ATTEMPTS {
        return false;
      }
      recovery := recovery.(attempt := recovery.attempt + 1);
      recovery := recovery.(turnDirection := Some(recovery.Direction().Opposite()));
      BeginRecoveryPhase(i, Reverse);
      return true;
    }

    method NextRecoveryAction(i: Input) returns (action: Option<Action>)
      modifies this
      ensures (recovery, action) == Tick(old(recovery), i)
    {
      while true
        invariant Tick(recovery, i) == Tick(old(recovery), i)
        decreases AttemptsLeft(recovery), Rank(recovery.step)
      {
        match recovery.step {
          case Idle =>
            return None;
          case Reverse =>
            var progress := ReverseProgress(recovery, i);
            if progress >= ReverseTarget(recovery) || recovery.remaining == 0 {
              recovery := Stalled(recovery, progress < STALLED_BELOW);
              BeginRecoveryPhase(i, Turn);
              continue;
            }
            recovery := Spend(recovery);
            return Some(Go(-0.05));
          case Turn =>
            var progress := TurnProgress(recovery, i);
            if progress >= TURN_TARGET || recovery.remaining == 0 {
              if progress < TURN_MIN_USEFUL {
                recovery := Stalled(recovery, true);
                var escalated := BeginEscalatedRecoveryAttempt(i);
                if escalated {
                  continue;
                }
                BeginRecoveryPhase(i, Stuck);
                continue;
              }
              BeginRecoveryPhase(i, Probe);
              continue;
            }
            recovery := Spend(recovery);
            return Some(TurnTo(recovery.Direction()));
          case Probe =>
            var progress := ForwardProgress(recovery, i);
            var closeAhead := CenterClearance(i.beams) < CLEAR_AHEAD;
            if progress >= PROBE_TARGET && !closeAhead {
              BeginRecoveryPhase(i, Inspect);
              continue;
            }
            if closeAhead || recovery.remaining == 0 {
              recovery := Stalled(recovery, progress < STALLED_BELOW);
              var escalated := BeginEscalatedRecoveryAttempt(i);
              if escalated {
                continue;
              }
              BeginRecoveryPhase(i, Stuck);
              continue;
            }
            recovery := Spend(recovery);
            return Some(Go(0.05));
          case Inspect =>
            recovery := IDLE;
            return Some(InspectNovelty);
          case Stuck =>
            return Some(Stop);
        }
      }
    }

    method StartRecovery(i: Input, step: RecoveryStep, d: TurnDir)
      modifies this
      ensures recovery == Start(i, step, d)
    {
      recovery := RecoveryState(step, PhaseTicks(step), Some(d), 1, i.x, i.heading, 0);
    }

    /** The recovery part of `choose_with_navigation_goal`: a safety or operator
        signal forgets the episode; otherwise one may start, and its tick decides the
        action.  `None` leaves the choice to the rest of the conductor. */
    method ChooseRecovery(i: Input) returns (action: Option<Action>)
      modifies this
      ensures if i.directControl || i.wheelDrop || i.charging || i.criticalBattery
              then recovery == IDLE && action == None
              else (recovery, action) == Tick(Begun(old(recovery), i), i)
    {
      if i.directControl || i.wheelDrop || i.charging || i.criticalBattery {
        recovery := IDLE;
        return None;
      }
      if recovery.step == Idle {
        if Contact(i) {
          StartRecovery(i, Reverse, ContactDirection(i));
        } else if Cramped(i) {
          if SideEscapeGap(i.beams) {
            StartRecovery(i, Reverse, ClearerDirection(i.beams));
          } else {
            StartRecovery(i, Turn, ClearerDirection(i.beams));
          }
        }
      }
      action := NextRecoveryAction(i);
    }
  }

  /** From rest, an unvetoed contact always starts an episode with a backward
      command, and a cramped stop starts one that at least moves. */
  lemma TriggerMoves(i: Input)
    requires Contact(i) || Cramped(i)
    ensures Starts(Begun(IDLE, i), i, Begun(IDLE, i).Direction())
    ensures Tick(Begun(IDLE, i), i).1.Some? && Tick(Begun(IDLE, i), i).1.value.Motion()
    ensures Contact(i) ==> Tick(Begun(IDLE, i), i).1 == Some(Go(-0.05))
    ensures i.bumpLeft != i.bumpRight ==> Begun(IDLE, i).Direction() == if i.bumpLeft then Right else Left
  {
    var s := Begun(IDLE, i);
    FreshPhase(s, i);
  }

  /** `left` has a beam within a metre that is nearer than all of `right`. */
  lemma NearerIff(left: seq<real>, right: seq<real>)
    ensures Nearest(right) > Nearest(left)
       <==> exists k :: 0 <= k < |left| && left[k] < 1.0 && forall j :: 0 <= j < |right| ==> right[j] > left[k]
  {
    if Nearest(right) > Nearest(left) {
      var k :| 0 <= k < |left| && left[k] == Nearest(left);
      assert left[k] < 1.0 && forall j :: 0 <= j < |right| ==> right[j] > left[k];
    }
  }

  lemma AllOf(beams: seq<real>, from: nat, least: real)
    requires from <= |beams|
    ensures (forall j :: 0 <= j < |beams[from..]| ==> beams[from..][j] > least)
       <==> forall j :: from <= j < |beams| ==> beams[j] > least
  {
    assert forall j :: from <= j < |beams| ==> beams[from..][j - from] == beams[j];
  }

  lemma NearerSideIff(beams: seq<real>, side: nat)
    requires side <= |beams|
    ensures Nearest(beams[|beams| - side..]) > Nearest(beams[..side])
       <==> exists k :: && 0 <= k < side && beams[k] < 1.0
                        && forall j :: |beams| - side <= j < |beams| ==> beams[j] > beams[k]
  {
    var n, left, right := |beams|, beams[..side], beams[|beams| - side..];
    NearerIff(left, right);
    if k :| 0 <= k < side && left[k] < 1.0 && forall j :: 0 <= j < |right| ==> right[j] > left[k] {
      AllOf(beams, n - side, left[k]);
      assert beams[k] == left[k];
    }
    if k :| 0 <= k < side && beams[k] < 1.0 && forall j :: n - side <= j < n ==> beams[j] > beams[k] {
      AllOf(beams, n - side, beams[k]);
      assert left[k] == beams[k];
    }
  }

  /** The clearer side is the right one exactly when something within a metre on
      the left is nearer than everything on the right. */
  lemma ClearerDirectionIff(beams: seq<real>, side: nat)
    requires side == if |beams| >= 3 then |beams| / 3 else if |beams| > 0 then 1 else 0
    ensures ClearerDirection(beams) == Right
       <==> exists k :: && 0 <= k < side && beams[k] < 1.0
                        && forall j :: |beams| - side <= j < |beams| ==> beams[j] > beams[k]
  {
    if beams != [] {
      assert Third(|beams|) == side;
      NearerSideIff(beams, side);
    }
  }

  /** Something at least 0.75 m away in the left or the right third. */
  lemma SideEscapeGapIff(beams: seq<real>)
    ensures var n := |beams|;
            var side := if n >= 3 then n / 3 else 1;
            SideEscapeGap(beams) <==> exists k :: 0 <= k < n && (k < side || k >= n - side) && beams[k] >= 0.75
  {
    var n := |beams|;
    var side := Third(n);
    assert side == if n >= 3 then n / 3 else 1;
    if k :| 0 <= k < n && (k < side || k >= n - side) && beams[k] >= 0.75 {
      assert k < side || n - side <= k < n;
    }
  }

  /** From rest an episode starts exactly on a contact, or when something is nearer
      than 0.35 m while the body hardly moves; it reverses first unless the body is
      merely cramped without a gap to the side.  Its clock, origins and count are
      fresh, and it turns away from a one-sided bump, else to the clearer side. */
  lemma StartsIff(i: Input)
    ensures var contact := i.bumpLeft || i.bumpRight || i.wall;
            var cramped := i.nearest.Some? && i.nearest.value < 0.35 && -0.02 < i.forwardSpeed < 0.02;
            var s := Begun(IDLE, i);
            if !contact && !cramped then s == IDLE && Tick(s, i) == (IDLE, None)
            else
              && s.step == (if contact || SideEscapeGap(i.beams) then Reverse else Turn)
              && s.remaining == 45 && s.attempt == 1 && s.stalled == 0
              && s.originX == i.x && s.originHeading == i.heading
              && s.turnDirection == Some(if i.bumpLeft && !i.bumpRight then Right
                                         else if i.bumpRight && !i.bumpLeft then Left
                                         else ClearerDirection(i.beams))
  {
  }

  /** An episode that is under way is not started over. */
  lemma UnderWayGoesOn(s: RecoveryState, i: Input)
    requires s.step != Idle
    ensures Begun(s, i) == s
  {
  }

  // ---------------------------------------------------------------- what a tick keeps

  /** The turn direction of attempt `n` when the first attempt turned `first`. */
  function DirectionOf(first: TurnDir, n: nat): TurnDir {
    if n % 2 == 1 then first else first.Opposite()
  }

  predicate Moving(step: RecoveryStep) { step == Reverse || step == Turn || step == Probe }

  /** The states an episode that first turned `first` can rest in between ticks. */
  predicate Reachable(s: RecoveryState, first: TurnDir) {
    && s.step != Inspect
    && (s.step == Idle ==> s == IDLE)
    && (s.step != Idle ==> 1 <= s.attempt <= MAX_ATTEMPTS && s.turnDirection == Some(DirectionOf(first, s.attempt)))
    && (s.step == Stuck ==> s.attempt == MAX_ATTEMPTS)
    && s.remaining <= PhaseTicks(s.step)
  }

  /** The motion commands that can still follow, counted from the phase limits. */
  function Budget(s: RecoveryState): nat {
    var later := AttemptsLeft(s) * (REVERSE_MAX_TICKS + TURN_MAX_TICKS + PROBE_MAX_TICKS);
    match s.step
    case Reverse => s.remaining + TURN_MAX_TICKS + PROBE_MAX_TICKS + later
    case Turn => s.remaining + PROBE_MAX_TICKS + later
    case Probe => s.remaining + later
    case _ => 0
  }

  /** A phase begun on this tick's odometry has made no progress yet. */
  lemma FreshPhase(s: RecoveryState, i: Input)
    ensures Tick(BeginPhase(s, i, Reverse), i) == (Spend(BeginPhase(s, i, Reverse)), Some(Go(-0.05)))
    ensures Tick(BeginPhase(s, i, Turn), i) == (Spend(BeginPhase(s, i, Turn)), Some(TurnTo(s.Direction())))
  {
    assert (if s.attempt == 0 then 0 else s.attempt - 1) as real * REVERSE_TARGET_STEP >= 0.0;
  }

  lemma Escalation(s: RecoveryState, i: Input, first: TurnDir)
    requires 1 <= s.attempt <= MAX_ATTEMPTS && s.turnDirection == Some(DirectionOf(first, s.attempt))
    ensures var (s', a) := Tick(Escalate(s, i), i);
            && Reachable(s', first)
            && if s.attempt == MAX_ATTEMPTS then s'.step == Stuck && a == Some(Stop)
               else a == Some(Go(-0.05)) && s'.step == Reverse && s'.attempt == s.attempt + 1
                    && s'.remaining == REVERSE_MAX_TICKS - 1
  {
    if s.attempt < MAX_ATTEMPTS {
      FreshPhase(s.(attempt := s.attempt + 1, turnDirection := Some(s.Direction().Opposite())), i);
    }
  }

  /** Every tick outside Idle emits one command; a motion command spends budget,
      and the only ways out are the completing Inspect and Stuck. */
  predicate TickKeeps(s: RecoveryState, s': RecoveryState, a: Option<Action>, first: TurnDir) {
    && Reachable(s', first)
    && (s.step == Idle <==> a == None)
    && (s.step == Idle || s.step == Stuck ==> s' == s)
    && (a == Some(InspectNovelty) ==> s' == IDLE)
    && (a == Some(Stop) <==> s'.step == Stuck)
    && (a.Some? && a.value.TurnTo? ==> s'.step == Turn && a.value.direction == DirectionOf(first, s'.attempt))
    && (a.Some? && a.value.Motion() ==> Moving(s'.step) && Budget(s') < Budget(s))
  }

  lemma ReverseTick(s: RecoveryState, i: Input, first: TurnDir)
    requires Reachable(s, first) && s.step == Reverse
    ensures TickKeeps(s, Tick(s, i).0, Tick(s, i).1, first)
  {
    FreshPhase(Stalled(s, ReverseProgress(s, i) < STALLED_BELOW), i);
  }

  lemma TurnTick(s: RecoveryState, i: Input, first: TurnDir)
    requires Reachable(s, first) && s.step == Turn
    ensures TickKeeps(s, Tick(s, i).0, Tick(s, i).1, first)
  {
    if TurnProgress(s, i) >= TURN_TARGET || s.remaining == 0 {
      if TurnProgress(s, i) < TURN_MIN_USEFUL {
        Escalation(Stalled(s, true), i, first);
      } else {
        ProbeTick(BeginPhase(s, i, Probe), i, first);
      }
    }
  }

  lemma ProbeTick(s: RecoveryState, i: Input, first: TurnDir)
    requires Reachable(s, first) && s.step == Probe
    ensures TickKeeps(s, Tick(s, i).0, Tick(s, i).1, first)
  {
    Escalation(Stalled(s, ForwardProgress(s, i) < STALLED_BELOW), i, first);
  }

  lemma TickInvariant(s: RecoveryState, i: Input, first: TurnDir)
    requires Reachable(s, first)
    ensures TickKeeps(s, Tick(s, i).0, Tick(s, i).1, first)
  {
    match s.step
    case Reverse => ReverseTick(s, i, first);
    case Turn => TurnTick(s, i, first);
    case Probe => ProbeTick(s, i, first);
    case _ =>
  }

  // ---------------------------------------------------------------- episodes

  /** An uninterrupted recovery: what was sensed, the state before each tick (and
      after the last), and what each tick commanded. */
  datatype Episode = Episode(inputs: seq<Input>, states: seq<RecoveryState>, commands: seq<Option<Action>>)

  predicate Ticks(s: RecoveryState, i: Input, s': RecoveryState, a: Option<Action>) {
    Tick(s, i) == (s', a)
  }

  /** An episode starts after a contact by reversing, or when merely cramped by
      turning; its first tick runs on the same input. */
  predicate Starts(s: RecoveryState, i: Input, first: TurnDir) {
    || s == RecoveryState(Reverse, REVERSE_MAX_TICKS, Some(first), 1, i.x, i.heading, 0)
    || s == RecoveryState(Turn, TURN_MAX_TICKS, Some(first), 1, i.x, i.heading, 0)
  }

  ghost predicate IsEpisode(e: Episode, first: TurnDir) {
    && |e.inputs| > 0
    && |e.commands| == |e.inputs|
    && |e.states| == |e.inputs| + 1
    && Starts(e.states[0], e.inputs[0], first)
    && forall n {:trigger Ticks(e.states[n], e.inputs[n], e.states[n + 1], e.commands[n])} ::
         0 <= n < |e.inputs| ==> Ticks(e.states[n], e.inputs[n], e.states[n + 1], e.commands[n])
  }

  lemma TickAt(e: Episode, first: TurnDir, k: nat)
    requires IsEpisode(e, first) && k < |e.inputs|
    ensures Tick(e.states[k], e.inputs[k]) == (e.states[k + 1], e.commands[k])
  {
    assert Ticks(e.states[k], e.inputs[k], e.states[k + 1], e.commands[k]);
  }

  /** Every sensed sequence has its episode. */
  function Play(s: RecoveryState, inputs: seq<Input>): (e: Episode)
    ensures e.inputs == inputs && |e.commands| == |inputs| && |e.states| == |inputs| + 1
    ensures e.states[0] == s
    ensures forall n {:trigger Ticks(e.states[n], e.inputs[n], e.states[n + 1], e.commands[n])} ::
              0 <= n < |inputs| ==> Ticks(e.states[n], e.inputs[n], e.states[n + 1], e.commands[n])
  {
    if inputs == [] then Episode([], [s], [])
    else
      var e := Play(s, inputs[..|inputs| - 1]);
      var (s', a) := Tick(e.states[|inputs| - 1], inputs[|inputs| - 1]);
      assert Ticks(e.states[|inputs| - 1], inputs[|inputs| - 1], s', a);
      Episode(inputs, e.states + [s'], e.commands + [a])
  }

  function Motions(commands: seq<Option<Action>>): nat {
    if commands == [] then 0
    else
      var last := commands[|commands| - 1];
      Motions(commands[..|commands| - 1]) + if last.Some? && last.value.Motion() then 1 else 0
  }

  const EPISODE_LIMIT := 330

  lemma {:induction false} EpisodeInvariant(e: Episode, first: TurnDir, n: nat)
    requires IsEpisode(e, first) && n <= |e.inputs|
    ensures Reachable(e.states[n], first)
    ensures n < |e.inputs| ==> TickKeeps(e.states[n], e.states[n + 1], e.commands[n], first)
  {
    if n == 0 {
      assert Starts(e.states[0], e.inputs[0], first);
    } else {
      EpisodeInvariant(e, first, n - 1);
    }
    if n < |e.inputs| {
      assert Ticks(e.states[n], e.inputs[n], e.states[n + 1], e.commands[n]);
      TickInvariant(e.states[n], e.inputs[n], first);
    }
  }

  lemma {:induction false} BudgetIsSpent(e: Episode, first: TurnDir, n: nat)
    requires IsEpisode(e, first) && n <= |e.inputs|
    ensures Motions(e.commands[..n]) + Budget(e.states[n]) <= EPISODE_LIMIT
  {
    if n == 0 {
    } else {
      BudgetIsSpent(e, first, n - 1);
      EpisodeInvariant(e, first, n - 1);
      assert e.commands[..n][..n - 1] == e.commands[..n - 1];
    }
  }

  /** However the odometry and ranges behave, an episode issues at most 330
      motion commands: three attempts of 45 + 45 + 20. */
  lemma MotionBound(e: Episode, first: TurnDir)
    requires IsEpisode(e, first)
    ensures Motions(e.commands) <= EPISODE_LIMIT
  {
    BudgetIsSpent(e, first, |e.inputs|);
    assert e.commands[..|e.inputs|] == e.commands;
  }

  predicate Terminal(a: Option<Action>) { a == Some(InspectNovelty) || a == Some(Stop) }

  lemma {:induction false} AllMotion(e: Episode, first: TurnDir, n: nat)
    requires IsEpisode(e, first) && n <= |e.inputs|
    requires forall k :: 0 <= k < n ==> !Terminal(e.commands[k])
    ensures Motions(e.commands[..n]) == n && Moving(e.states[n].step)
  {
    if n == 0 {
    } else {
      AllMotion(e, first, n - 1);
      EpisodeInvariant(e, first, n - 1);
      assert e.commands[..n][..n - 1] == e.commands[..n - 1];
    }
  }

  /** ... so within 331 ticks it has completed by Inspect or stopped in Stuck. */
  lemma EpisodeEnds(e: Episode, first: TurnDir)
    requires IsEpisode(e, first) && |e.inputs| > EPISODE_LIMIT
    ensures exists n :: 0 <= n <= EPISODE_LIMIT && Terminal(e.commands[n])
  {
    if forall n :: 0 <= n <= EPISODE_LIMIT ==> !Terminal(e.commands[n]) {
      AllMotion(e, first, EPISODE_LIMIT + 1);
      BudgetIsSpent(e, first, EPISODE_LIMIT + 1);
    }
  }

  /** Stuck comes only on the third attempt, and never ends by itself. */
  lemma {:induction false} StuckIsFinal(e: Episode, first: TurnDir, m: nat, n: nat)
    requires IsEpisode(e, first) && m <= n <= |e.inputs| && e.states[m].step == Stuck
    ensures e.states[m].attempt == MAX_ATTEMPTS && e.states[n] == e.states[m]
    ensures n < |e.inputs| ==> e.commands[n] == Some(Stop)
  {
    EpisodeInvariant(e, first, m);
    EpisodeInvariant(e, first, n);
    if m == n {
    } else {
      StuckIsFinal(e, first, m, n - 1);
      EpisodeInvariant(e, first, n - 1);
    }
  }

  /** Every turn command of attempt k turns the first way when k is odd and the
      other way when k is even. */
  lemma TurnsAlternate(e: Episode, first: TurnDir, n: nat)
    requires IsEpisode(e, first) && n < |e.inputs| && e.commands[n].Some? && e.commands[n].value.TurnTo?
    ensures e.states[n + 1].step == Turn
    ensures e.commands[n].value.direction == DirectionOf(first, e.states[n + 1].attempt)
  {
    EpisodeInvariant(e, first, n);
  }

  // ---------------------------------------------------------------- what completion means

  /** What a probing tick can do; a probe begun on the same odometry never completes. */
  lemma FromProbe(s: RecoveryState, i: Input, first: TurnDir)
    requires Reachable(s, first) && s.step == Probe
    ensures var (s', a) := Tick(s, i);
            && s'.step != Turn
            && (a == Some(InspectNovelty) <==>
                 i.x - s.originX >= PROBE_TARGET && CenterClearance(i.beams) >= CLEAR_AHEAD)
            && (s'.step == Probe ==> a == Some(Go(0.05)) && s' == Spend(s))
  {
    Escalation(Stalled(s, ForwardProgress(s, i) < STALLED_BELOW), i, first);
  }

  /** Where the phases come from.  A tick comes to rest turning only from the same
      turn or from a reverse ended here; it comes to rest probing only from the
      same probe or from a turn ended here with 0.30 rad gained its way; and it
      completes exactly from a probe that advanced 0.05 m with the way clear. */
  lemma PhaseOrigins(s: RecoveryState, i: Input, first: TurnDir)
    requires Reachable(s, first)
    ensures var (s', a) := Tick(s, i);
            && (s'.step == Turn ==>
                 && a == Some(TurnTo(s'.Direction()))
                 && s'.attempt == s.attempt && s'.Direction() == s.Direction()
                 && if s.step == Turn then s'.originHeading == s.originHeading
                    else s.step == Reverse && s'.originHeading == i.heading)
            && (s'.step == Probe ==>
                 && a == Some(Go(0.05))
                 && s'.attempt == s.attempt && s'.Direction() == s.Direction()
                 && if s.step == Probe then s'.originX == s.originX
                    else && s.step == Turn && s'.originX == i.x
                         && Turned(s.Direction(), s.originHeading, i.heading) >= TURN_MIN_USEFUL)
            && (a == Some(InspectNovelty) <==>
                 s.step == Probe && i.x - s.originX >= PROBE_TARGET && CenterClearance(i.beams) >= CLEAR_AHEAD)
  {
    match s.step
    case Reverse =>
      FreshPhase(Stalled(s, ReverseProgress(s, i) < STALLED_BELOW), i);
    case Turn =>
      if TurnProgress(s, i) >= TURN_TARGET || s.remaining == 0 {
        if TurnProgress(s, i) < TURN_MIN_USEFUL {
          Escalation(Stalled(s, true), i, first);
        } else {
          FromProbe(BeginPhase(s, i, Probe), i, first);
        }
      }
    case Probe =>
      FromProbe(s, i, first);
    case _ =>
  }

  predicate Commanded(e: Episode, from: nat, to: nat, a: Action)
    requires to <= |e.commands|
  {
    forall k :: from <= k < to ==> e.commands[k] == Some(a)
  }

  predicate SameAttempt(e: Episode, from: nat, to: nat, attempt: nat)
    requires to < |e.states|
  {
    forall k :: from < k <= to ==> e.states[k].attempt == attempt
  }

  /** Ticks `s..t` commanded turning towards `d` and the reported heading gained
      0.30 rad that way, ticks `t..n` commanded forward motion and the reported x
      gained 0.05 m, and tick `n` found the way ahead clear. */
  predicate Earned(e: Episode, s: nat, t: nat, n: nat, d: TurnDir) {
    && s < t < n < |e.inputs| == |e.commands|
    && Commanded(e, s, t, TurnTo(d))
    && Commanded(e, t, n, Go(0.05))
    && (if d == Left then e.inputs[t].heading - e.inputs[s].heading
        else e.inputs[s].heading - e.inputs[t].heading) >= TURN_MIN_USEFUL
    && e.inputs[n].x - e.inputs[t].x >= PROBE_TARGET
    && CenterClearance(e.inputs[n].beams) >= CLEAR_AHEAD
  }

  /** Tick `s` starts a turn of that attempt: from the reverse it ends, or, in an
      episode that starts by turning, as its first tick. */
  predicate TurnFrom(e: Episode, s: nat, attempt: nat)
    requires s < |e.states|
  {
    e.states[s].attempt == attempt && (e.states[s].step == Reverse || (s == 0 && e.states[s].step == Turn))
  }

  lemma {:induction false} TurnHistory(e: Episode, first: TurnDir, n: nat) returns (s: nat)
    requires IsEpisode(e, first) && n <= |e.inputs| && e.states[n].step == Turn
    ensures s <= n && s < |e.inputs| && (s == n ==> n == 0)
    ensures e.states[n].originHeading == e.inputs[s].heading
    ensures Commanded(e, s, n, TurnTo(e.states[n].Direction()))
    ensures SameAttempt(e, s, n, e.states[n].attempt)
    ensures TurnFrom(e, s, e.states[n].attempt)
  {
    if n == 0 {
      s := 0;
    } else {
      EpisodeInvariant(e, first, n - 1);
      assert Ticks(e.states[n - 1], e.inputs[n - 1], e.states[n], e.commands[n - 1]);
      PhaseOrigins(e.states[n - 1], e.inputs[n - 1], first);
      if e.states[n - 1].step == Turn {
        s := TurnHistory(e, first, n - 1);
      } else {
        s := n - 1;
      }
    }
  }

  /** The tick that starts a probe ends a turn that gained enough, on its own
      side and in its own attempt. */
  lemma ProbeStarts(e: Episode, first: TurnDir, t: nat) returns (s: nat)
    requires IsEpisode(e, first) && t < |e.inputs|
    requires e.states[t + 1].step == Probe && e.states[t].step != Probe
    ensures s < t
    ensures e.states[t + 1].originX == e.inputs[t].x
    ensures Turned(e.states[t + 1].Direction(), e.inputs[s].heading, e.inputs[t].heading) >= TURN_MIN_USEFUL
    ensures Commanded(e, s, t, TurnTo(e.states[t + 1].Direction())) && Commanded(e, t, t + 1, Go(0.05))
    ensures SameAttempt(e, s, t + 1, e.states[t + 1].attempt)
    ensures TurnFrom(e, s, e.states[t + 1].attempt)
  {
    EpisodeInvariant(e, first, t);
    assert Ticks(e.states[t], e.inputs[t], e.states[t + 1], e.commands[t]);
    PhaseOrigins(e.states[t], e.inputs[t], first);
    s := TurnHistory(e, first, t);
    assert s < t by {
      assert Turned(e.states[t].Direction(), e.inputs[t].heading, e.inputs[t].heading) == 0.0;
    }
  }

  lemma ProbeGoesOn(e: Episode, first: TurnDir, n: nat)
    requires IsEpisode(e, first) && n < |e.inputs| && e.states[n].step == Probe && e.states[n + 1].step == Probe
    ensures e.states[n + 1] == Spend(e.states[n]) && e.commands[n] == Some(Go(0.05))
  {
    EpisodeInvariant(e, first, n);
    TickAt(e, first, n);
    FromProbe(e.states[n], e.inputs[n], first);
  }

  lemma {:induction false} ProbeHistory(e: Episode, first: TurnDir, n: nat) returns (s: nat, t: nat)
    requires IsEpisode(e, first) && n <= |e.inputs| && e.states[n].step == Probe
    ensures s < t < n
    ensures e.states[n].originX == e.inputs[t].x
    ensures Turned(e.states[n].Direction(), e.inputs[s].heading, e.inputs[t].heading) >= TURN_MIN_USEFUL
    ensures Commanded(e, s, t, TurnTo(e.states[n].Direction())) && Commanded(e, t, n, Go(0.05))
    ensures SameAttempt(e, s, n, e.states[n].attempt)
    ensures TurnFrom(e, s, e.states[n].attempt)
  {
    if e.states[n - 1].step == Probe {
      ProbeGoesOn(e, first, n - 1);
      s, t := ProbeHistory(e, first, n - 1);
    } else {
      t := n - 1;
      s := ProbeStarts(e, first, t);
    }
  }

  /** Recovery declares success only on evidence from one and the same attempt: the
      reports of a turn in the commanded direction, then of an advance along x, then
      a clear view.  (How far reports can be trusted is in `Odometry`.) */
  lemma CompletionIsEarned(e: Episode, first: TurnDir, n: nat)
    requires IsEpisode(e, first) && n < |e.inputs| && e.commands[n] == Some(InspectNovelty)
    ensures exists s: nat, t: nat ::
              Earned(e, s, t, n, DirectionOf(first, e.states[n].attempt)) && SameAttempt(e, s, n, e.states[n].attempt)
  {
    EpisodeInvariant(e, first, n);
    assert Ticks(e.states[n], e.inputs[n], e.states[n + 1], e.commands[n]);
    PhaseOrigins(e.states[n], e.inputs[n], first);
    var s, t := ProbeHistory(e, first, n);
    assert Earned(e, s, t, n, DirectionOf(first, e.states[n].attempt));
  }

  // ---------------------------------------------------------------- what it does not mean

  /** A phase without useful progress is counted, up to 255. */
  function Counted(stalled: nat, useless: bool): nat { if useless && stalled < 255 then stalled + 1 else stalled }

  /** The attempt has failed: the next one reverses afresh and will turn the other
      way; after the third there is none. */
  predicate NextAttempt(s: RecoveryState, i: Input, s': RecoveryState, a: Option<Action>) {
    && s'.attempt == (if s.attempt == 3 then 3 else s.attempt + 1)
    && s'.originX == i.x && s'.originHeading == i.heading
    && if s.attempt == 3 then s'.step == Stuck && s'.remaining == 0 && a == Some(Stop)
       else && s'.step == Reverse && s'.remaining == 44 && a == Some(Go(-0.05))
            && s'.turnDirection == Some(if s.Direction() == Left then Right else Left)
  }

  lemma Escalated(s: RecoveryState, i: Input)
    requires 1 <= s.attempt <= MAX_ATTEMPTS
    ensures NextAttempt(s, i, Tick(Escalate(s, i), i).0, Tick(Escalate(s, i), i).1)
    ensures Tick(Escalate(s, i), i).0.stalled == s.stalled
  {
    if s.attempt < MAX_ATTEMPTS {
      FreshPhase(s.(attempt := s.attempt + 1, turnDirection := Some(s.Direction().Opposite())), i);
    }
  }

  /** Reversing goes on until its ticks are spent or the reported x has fallen by
      0.08 m, 0.12 m and 0.16 m on the first, second and third attempt; then the
      body turns, 45 ticks at most, from the heading just reported. */
  lemma ReverseEndsIff(s: RecoveryState, i: Input)
    requires s.step == Reverse && 1 <= s.attempt <= MAX_ATTEMPTS
    ensures var far := if s.attempt == 1 then 0.08 else if s.attempt == 2 then 0.12 else 0.16;
            Tick(s, i)
            == if s.remaining > 0 && s.originX - i.x < far then (s.(remaining := s.remaining - 1), Some(Go(-0.05)))
               else (s.(step := Turn, remaining := 44, originX := i.x, originHeading := i.heading,
                        stalled := Counted(s.stalled, s.originX - i.x < 0.01)),
                     Some(TurnTo(s.Direction())))
  {
    FreshPhase(Stalled(s, ReverseProgress(s, i) < STALLED_BELOW), i);
  }

  /** Turning goes on until its ticks are spent or a quarter turn is reported.  Then
      the body probes, 20 ticks at most, unless less than 0.30 rad was gained or the
      view is not clear, which costs the attempt. */
  lemma TurnEndsIff(s: RecoveryState, i: Input, first: TurnDir)
    requires Reachable(s, first) && s.step == Turn
    ensures var (s', a) := Tick(s, i);
            var gained := if s.Direction() == Left then i.heading - s.originHeading else s.originHeading - i.heading;
            if s.remaining > 0 && gained < 1.57 then
              s' == s.(remaining := s.remaining - 1) && a == Some(TurnTo(s.Direction()))
            else if gained >= 0.30 && ViewClear(i.beams) then
              && s' == s.(step := Probe, remaining := 19, originX := i.x, originHeading := i.heading)
              && a == Some(Go(0.05))
            else NextAttempt(s, i, s', a) && s'.stalled == Counted(s.stalled, true)
  {
    if TurnProgress(s, i) >= TURN_TARGET || s.remaining == 0 {
      if TurnProgress(s, i) < TURN_MIN_USEFUL {
        Escalated(Stalled(s, true), i);
      } else {
        Escalated(Stalled(BeginPhase(s, i, Probe), true), i);
        assert Tick(s, i) == Tick(BeginPhase(s, i, Probe), i);
      }
    }
  }

  /** Probing completes when the reported x has gained 0.05 m and the view is clear,
      and goes on while ticks are left, it has gained less and the view is clear;
      anything else costs the attempt. */
  lemma ProbeEndsIff(s: RecoveryState, i: Input, first: TurnDir)
    requires Reachable(s, first) && s.step == Probe
    ensures var (s', a) := Tick(s, i);
            var gained := i.x - s.originX;
            if ViewClear(i.beams) && gained >= 0.05 then s' == IDLE && a == Some(InspectNovelty)
            else if ViewClear(i.beams) && s.remaining > 0 then
              s' == s.(remaining := s.remaining - 1) && a == Some(Go(0.05))
            else NextAttempt(s, i, s', a) && s'.stalled == Counted(s.stalled, gained < 0.01)
  {
    Escalated(Stalled(s, ForwardProgress(s, i) < STALLED_BELOW), i);
  }

  lemma ForwardNeedsAView(s: RecoveryState, i: Input, first: TurnDir)
    requires Reachable(s, first) && Tick(s, i).1.Some? && Tick(s, i).1.value.Go? && Tick(s, i).1.value.intensity > 0.0
    ensures Tick(s, i).1 == Some(Go(0.05)) && ViewClear(i.beams)
  {
    match s.step
    case Reverse => ReverseEndsIff(s, i);
    case Turn => TurnEndsIff(s, i, first);
    case Probe => ProbeEndsIff(s, i, first);
    case _ =>
  }

  /** In every episode a forward command, at 0.05, comes only on a tick whose view
      is clear: never towards something nearer than 0.30 m ahead. */
  lemma NeverForwardWhenBlocked(e: Episode, first: TurnDir, n: nat)
    requires IsEpisode(e, first) && n < |e.inputs|
    requires e.commands[n].Some? && e.commands[n].value.Go? && e.commands[n].value.intensity > 0.0
    ensures e.commands[n] == Some(Go(0.05)) && ViewClear(e.inputs[n].beams)
  {
    EpisodeInvariant(e, first, n);
    TickAt(e, first, n);
    ForwardNeedsAView(e.states[n], e.inputs[n], first);
  }

  // ---------------------------------------------------------------- the reverse behind a completion

  const BACK := Go(-0.05)

  function Target(attempt: nat): real { if attempt == 1 then 0.08 else if attempt == 2 then 0.12 else 0.16 }

  ghost predicate Completes(e: Episode, first: TurnDir, n: nat) {
    IsEpisode(e, first) && n < |e.inputs| && e.commands[n] == Some(InspectNovelty)
  }

  /** How many of the first `n` ticks commanded backward motion in that attempt. */
  function Backward(e: Episode, attempt: nat, n: nat): nat
    requires n <= |e.commands| && n < |e.states|
  {
    if n == 0 then 0
    else
      Backward(e, attempt, n - 1)
      + if e.commands[n - 1] == Some(BACK) && e.states[n].attempt == attempt then 1 else 0
  }

  /** The attempt behind a completion at tick `n`: backward commands in ticks
      `r..s`, turn commands in ticks `s..t`, forward commands from there on. */
  predicate Phases(e: Episode, n: nat, r: nat, s: nat, t: nat) {
    && r <= s < t < n < |e.inputs| == |e.commands| && |e.states| == |e.inputs| + 1
    && Commanded(e, r, s, BACK)
    && Commanded(e, s, t, TurnTo(e.states[n].Direction()))
    && Commanded(e, t, n, Go(0.05))
    && SameAttempt(e, r, n, e.states[n].attempt) && (r > 0 ==> e.states[r].attempt != e.states[n].attempt)
  }

  lemma PhasesAreUnique(e: Episode, n: nat, r: nat, s: nat, t: nat, r': nat, s': nat, t': nat)
    requires Phases(e, n, r, s, t) && Phases(e, n, r', s', t')
    ensures r == r' && s == s' && t == t'
  {
    assert e.commands[s] == e.commands[s'] == Some(TurnTo(e.states[n].Direction()));
    assert e.commands[t] == e.commands[t'] == Some(Go(0.05));
  }

  lemma EscalationOrigin(s: RecoveryState, i: Input)
    requires 1 <= s.attempt <= MAX_ATTEMPTS
    ensures var (s', a) := Tick(Escalate(s, i), i);
            && s'.attempt >= s.attempt
            && (s'.step == Stuck || s'.step == Reverse)
            && (s'.step == Reverse ==>
                 && a == Some(BACK) && s'.attempt == s.attempt + 1
                 && s'.originX == i.x && s'.remaining == REVERSE_MAX_TICKS - 1)
  {
    if s.attempt < MAX_ATTEMPTS {
      FreshPhase(s.(attempt := s.attempt + 1, turnDirection := Some(s.Direction().Opposite())), i);
    }
  }

  /** Where a reverse comes from and how it ends. */
  predicate ReverseFrom(s: RecoveryState, i: Input, s': RecoveryState, a: Option<Action>) {
    && (s'.step == Reverse ==>
         && a == Some(BACK)
         && if s.step == Reverse then s' == Spend(s) && s.remaining > 0
            else s'.attempt == s.attempt + 1 && s'.originX == i.x && s'.remaining == REVERSE_MAX_TICKS - 1)
    && (s'.step == Turn && s.step == Reverse ==> s.remaining == 0 || s.originX - i.x >= Target(s.attempt))
    && (s'.step != Idle ==> s.attempt <= s'.attempt)
  }

  lemma TurnToReverse(s: RecoveryState, i: Input, first: TurnDir)
    requires Reachable(s, first) && s.step == Turn
    ensures ReverseFrom(s, i, Tick(s, i).0, Tick(s, i).1)
  {
    if TurnProgress(s, i) >= TURN_TARGET || s.remaining == 0 {
      if TurnProgress(s, i) < TURN_MIN_USEFUL {
        EscalationOrigin(Stalled(s, true), i);
      } else {
        ProbeToReverse(BeginPhase(s, i, Probe), i, first);
        assert Tick(s, i) == Tick(BeginPhase(s, i, Probe), i);
      }
    }
  }

  lemma ProbeToReverse(s: RecoveryState, i: Input, first: TurnDir)
    requires Reachable(s, first) && s.step == Probe
    ensures ReverseFrom(s, i, Tick(s, i).0, Tick(s, i).1)
  {
    EscalationOrigin(Stalled(s, ForwardProgress(s, i) < STALLED_BELOW), i);
  }

  lemma ReverseOrigins(s: RecoveryState, i: Input, first: TurnDir)
    requires Reachable(s, first)
    ensures ReverseFrom(s, i, Tick(s, i).0, Tick(s, i).1)
  {
    match s.step
    case Reverse => FreshPhase(Stalled(s, ReverseProgress(s, i) < STALLED_BELOW), i);
    case Turn => TurnToReverse(s, i, first);
    case Probe => ProbeToReverse(s, i, first);
    case _ =>
  }

  lemma {:induction false} AttemptsGrow(e: Episode, first: TurnDir, m: nat, n: nat)
    requires IsEpisode(e, first) && m <= n <= |e.inputs| && e.states[n].step != Idle
    ensures e.states[m].attempt <= e.states[n].attempt
  {
    if m == n {
    } else {
      EpisodeInvariant(e, first, n - 1);
      assert Ticks(e.states[n - 1], e.inputs[n - 1], e.states[n], e.commands[n - 1]);
      ReverseOrigins(e.states[n - 1], e.inputs[n - 1], first);
      AttemptsGrow(e, first, m, n - 1);
    }
  }

  /** A resting reverse began at tick `r`, the first of its attempt, and every tick
      since then has commanded backward motion and cost one of its 45. */
  lemma {:induction false} ReverseHistory(e: Episode, first: TurnDir, n: nat) returns (r: nat)
    requires IsEpisode(e, first) && n <= |e.inputs| && e.states[n].step == Reverse
    ensures r <= n && r < |e.inputs| && (r == n ==> n == 0)
    ensures e.states[n].originX == e.inputs[r].x
    ensures e.states[n].remaining == REVERSE_MAX_TICKS - (n - r)
    ensures Commanded(e, r, n, BACK) && SameAttempt(e, r, n, e.states[n].attempt)
    ensures r > 0 ==> e.states[r].attempt < e.states[n].attempt && e.states[r].step != Idle
  {
    if n == 0 {
      r := 0;
    } else {
      EpisodeInvariant(e, first, n - 1);
      assert Ticks(e.states[n - 1], e.inputs[n - 1], e.states[n], e.commands[n - 1]);
      ReverseOrigins(e.states[n - 1], e.inputs[n - 1], first);
      if e.states[n - 1].step == Reverse {
        r := ReverseHistory(e, first, n - 1);
      } else {
        r := n - 1;
      }
    }
  }

  lemma {:induction false} BackwardCounted(e: Episode, attempt: nat, r: nat, s: nat, n: nat)
    requires r <= s && n <= |e.commands| && n < |e.states|
    requires forall k :: 0 < k <= r && k <= n ==> e.states[k].attempt != attempt
    requires forall k :: r <= k < s && k < n ==> e.commands[k] == Some(BACK)
    requires forall k :: r < k <= n ==> e.states[k].attempt == attempt
    requires forall k :: s <= k < n ==> e.commands[k] != Some(BACK)
    ensures Backward(e, attempt, n) == if n <= r then 0 else if n <= s then n - r else s - r
  {
    if n == 0 {
    } else {
      BackwardCounted(e, attempt, r, s, n - 1);
      if n <= r {
        assert e.states[n].attempt != attempt;
      } else if n <= s {
        assert r <= n - 1 < s && e.commands[n - 1] == Some(BACK);
      }
    }
  }

  /** A reverse that ends before its ticks do has gone the distance. */
  lemma TurnAfterReverse(e: Episode, first: TurnDir, s: nat) returns (r: nat)
    requires IsEpisode(e, first) && s < |e.inputs|
    requires e.states[s].step == Reverse && e.states[s + 1].step == Turn
    ensures r < s && s - r <= REVERSE_MAX_TICKS
    ensures SameAttempt(e, r, s, e.states[s].attempt) && Commanded(e, r, s, BACK)
    ensures r > 0 ==> e.states[r].attempt < e.states[s].attempt && e.states[r].step != Idle
    ensures s - r < REVERSE_MAX_TICKS ==> e.inputs[r].x - e.inputs[s].x >= Target(e.states[s].attempt)
  {
    r := ReverseHistory(e, first, s);
    EpisodeInvariant(e, first, s);
    assert Ticks(e.states[s], e.inputs[s], e.states[s + 1], e.commands[s]);
    ReverseOrigins(e.states[s], e.inputs[s], first);
  }

  /** A tick that commands a turn comes to rest turning. */
  lemma TurnsNext(e: Episode, first: TurnDir, s: nat)
    requires IsEpisode(e, first) && s < |e.inputs| && e.commands[s].Some? && e.commands[s].value.TurnTo?
    ensures e.states[s + 1].step == Turn
  {
    EpisodeInvariant(e, first, s);
  }

  /** Every completion has such an attempt behind it, and these are the reports it
      goes by.  Short of 45 backward commands x has fallen by the attempt's
      distance; with none the episode started by turning. */
  lemma CompletionHistory(e: Episode, first: TurnDir, n: nat) returns (r: nat, s: nat, t: nat)
    requires Completes(e, first, n)
    ensures Phases(e, n, r, s, t) && Backward(e, e.states[n].attempt, n) == s - r <= REVERSE_MAX_TICKS
    ensures r == s ==> e.states[n].attempt == 1 && e.states[0].step == Turn
    ensures 0 < s - r < REVERSE_MAX_TICKS ==> e.inputs[r].x - e.inputs[s].x >= Target(e.states[n].attempt)
    ensures Turned(e.states[n].Direction(), e.inputs[s].heading, e.inputs[t].heading) >= TURN_MIN_USEFUL
    ensures e.inputs[n].x - e.inputs[t].x >= PROBE_TARGET && CenterClearance(e.inputs[n].beams) >= CLEAR_AHEAD
  {
    EpisodeInvariant(e, first, n);
    TickAt(e, first, n);
    PhaseOrigins(e.states[n], e.inputs[n], first);
    s, t := ProbeHistory(e, first, n);
    if e.states[s].step == Reverse {
      TurnsNext(e, first, s);
      r := TurnAfterReverse(e, first, s);
    } else {
      r := s;
    }
    BackwardIsReverse(e, first, n, r, s, t);
  }

  lemma BackwardIsReverse(e: Episode, first: TurnDir, n: nat, r: nat, s: nat, t: nat)
    requires Completes(e, first, n) && Phases(e, n, r, s, t)
    requires r > 0 ==> e.states[r].attempt < e.states[n].attempt && e.states[r].step != Idle
    ensures Backward(e, e.states[n].attempt, n) == s - r
  {
    if r > 0 {
      forall k | 0 < k <= r ensures e.states[k].attempt != e.states[n].attempt {
        AttemptsGrow(e, first, k, r);
      }
    }
    BackwardCounted(e, e.states[n].attempt, r, s, n);
  }

  /** The backward commands behind a completion number at most 45, and none only on
      the first attempt of an episode that started by turning. */
  lemma BackwardRange(e: Episode, first: TurnDir, n: nat)
    requires Completes(e, first, n)
    ensures 1 <= e.states[n].attempt <= MAX_ATTEMPTS
    ensures Backward(e, e.states[n].attempt, n) <= REVERSE_MAX_TICKS
    ensures Backward(e, e.states[n].attempt, n) == 0 ==> e.states[n].attempt == 1 && e.states[0].step == Turn
  {
    EpisodeInvariant(e, first, n);
    var _, _, _ := CompletionHistory(e, first, n);
  }

  // ---------------------------------------------------------------- the limit is reached

  function At(x: real, heading: real): Input {
    Input(x, heading, [], true, false, false, None, 0.0, false, false, false, false)
  }

  const PINNED := RecoveryState(Reverse, REVERSE_MAX_TICKS, Some(Left), 1, 0.0, 0.0, 0)

  /** A body that never translates and swings 0.5 rad, the way it is told, at the
      end of every turn phase: its input on tick `r` of attempt `attempt`. */
  function SwingInput(attempt: nat, r: nat): Input {
    At(0.0, if (attempt % 2 == 1) == (r < 90) then 0.0 else 0.5)
  }

  function Swing(tick: nat): Input { SwingInput(tick / 110 + 1, tick % 110) }

  /** Where the episode of that body stands after tick `r` of attempt `attempt`. */
  predicate SwingState(s: RecoveryState, attempt: nat, r: nat) {
    && s.attempt == attempt
    && s.turnDirection == Some(DirectionOf(Left, attempt))
    && s.originX == 0.0
    && if r < 45 then s.step == Reverse && s.remaining == 44 - r
       else if r < 90 then s.step == Turn && s.remaining == 89 - r && s.originHeading == SwingInput(attempt, 0).heading
       else s.step == Probe && s.remaining == 109 - r
  }

  lemma SwingTick(s: RecoveryState, attempt: nat, r: nat)
    requires 1 <= attempt <= MAX_ATTEMPTS && r < 109 && SwingState(s, attempt, r)
    ensures var (s', a) := Tick(s, SwingInput(attempt, r + 1));
            a.Some? && a.value.Motion() && SwingState(s', attempt, r + 1)
  {
    var i := SwingInput(attempt, r + 1);
    if r == 44 {
      FreshPhase(Stalled(s, true), i);
    } else if r == 89 {
      assert Tick(s, i) == Tick(BeginPhase(s, i, Probe), i);
    }
  }

  lemma SwingAgain(s: RecoveryState, attempt: nat)
    requires 1 <= attempt < MAX_ATTEMPTS && SwingState(s, attempt, 109)
    ensures var (s', a) := Tick(s, SwingInput(attempt + 1, 0));
            a.Some? && a.value.Motion() && SwingState(s', attempt + 1, 0)
  {
    var p := Stalled(s, true);
    FreshPhase(p.(attempt := p.attempt + 1, turnDirection := Some(p.Direction().Opposite())),
               SwingInput(attempt + 1, 0));
  }

  lemma SwingStart(s: RecoveryState)
    requires s == PINNED
    ensures var (s', a) := Tick(s, SwingInput(1, 0));
            a.Some? && a.value.Motion() && SwingState(s', 1, 0)
  {
  }

  lemma SwingInputs(attempt: nat, r: nat)
    requires 1 <= attempt && r < 110
    ensures Swing(110 * (attempt - 1) + r) == SwingInput(attempt, r)
  {
  }

  lemma {:induction false} SwingRun(e: Episode, attempt: nat, r: nat)
    requires IsEpisode(e, Left)
    requires e.states[0] == RecoveryState(Reverse, REVERSE_MAX_TICKS, Some(Left), 1, 0.0, 0.0, 0)
    requires |e.inputs| == EPISODE_LIMIT && forall k: nat :: k < EPISODE_LIMIT ==> e.inputs[k] == Swing(k)
    requires 1 <= attempt <= MAX_ATTEMPTS && r < 110
    ensures var m := 110 * (attempt - 1) + r;
            SwingState(e.states[m + 1], attempt, r) && e.commands[m].Some? && e.commands[m].value.Motion()
    decreases attempt, r
  {
    var m := 110 * (attempt - 1) + r;
    SwingInputs(attempt, r);
    assert Ticks(e.states[m], e.inputs[m], e.states[m + 1], e.commands[m]);
    if r > 0 {
      SwingRun(e, attempt, r - 1);
      SwingTick(e.states[m], attempt, r - 1);
    } else if attempt > 1 {
      SwingRun(e, attempt - 1, 109);
      SwingAgain(e.states[m], attempt - 1);
    } else {
      SwingStart(e.states[m]);
    }
  }

  lemma {:induction false} AllCount(commands: seq<Option<Action>>)
    requires forall k :: 0 <= k < |commands| ==> commands[k].Some? && commands[k].value.Motion()
    ensures Motions(commands) == |commands|
  {
    if commands == [] {
    } else {
      AllCount(commands[..|commands| - 1]);
    }
  }

  /** Some episode does issue all 330 motion commands. */
  lemma LimitIsReached(s: RecoveryState, e: Episode)
    requires s == RecoveryState(Reverse, REVERSE_MAX_TICKS, Some(Left), 1, 0.0, 0.0, 0)
    requires e == Play(s, seq(EPISODE_LIMIT, k requires k >= 0 => Swing(k)))
    ensures IsEpisode(e, Left) && Motions(e.commands) == EPISODE_LIMIT
  {
    forall k | 0 <= k < EPISODE_LIMIT ensures e.commands[k].Some? && e.commands[k].value.Motion() {
      SwingRun(e, k / 110 + 1, k % 110);
    }
    AllCount(e.commands);
  }
}
