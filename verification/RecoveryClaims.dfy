/** What the completing message of a recovery claims (reverse, turn and probe
    progress): completions that have not done it, and exactly when it is so of every
    completion of a kind. */
module RecoveryClaims {
  import opened Machine
  import opened Recovery
  import opened Odometry

  // ---------------------------------------------------------------- episodes that start by turning

  /** A cramped stop without a gap to the side: the episode starts by turning. */
  function CrampedStop(x: real, heading: real): Input {
    Input(x, heading, [], false, false, false, Some(0.3), 0.0, false, false, false, false)
  }

  /** It completes on reports of a quarter turn and an advance, with no backward
      command at all. */
  lemma CompletesFromATurn(stop: Input, turned: Input, ahead: Input) returns (e: Episode)
    requires stop == CrampedStop(stop.x, stop.heading) && turned == At(turned.x, turned.heading)
    requires ahead == At(ahead.x, ahead.heading)
    requires turned.heading - stop.heading >= TURN_TARGET && ahead.x - turned.x >= PROBE_TARGET
    ensures Completes(e, Left, 2) && e.inputs == [stop, turned, ahead] && e.states[0] == Begun(IDLE, stop)
    ensures e.states[2].attempt == 1 && e.states[2].Direction() == Left
    ensures Backward(e, 1, 2) == 0 && Phases(e, 2, 0, 0, 1)
  {
    e := Play(Begun(IDLE, stop), [stop, turned, ahead]);
    assert Begun(IDLE, stop) == Start(stop, Turn, Left);
    assert IsEpisode(e, Left);
    TickAt(e, Left, 0);
    TickAt(e, Left, 1);
    assert Tick(e.states[1], e.inputs[1]) == Tick(BeginPhase(e.states[1], e.inputs[1], Probe), e.inputs[1]);
    TickAt(e, Left, 2);
    assert e.commands[0] == Some(TurnTo(Left)) && e.commands[1] == Some(Go(0.05));
    assert Backward(e, 1, 1) == 0;
  }

  lemma TurnJourney(stop: Input, turned: Input, ahead: Input, turn: Move, advance: Move)
    returns (e: Episode, moves: seq<Move>)
    requires stop == CrampedStop(stop.x, stop.heading) && turned == At(turned.x, turned.heading)
    requires ahead == At(ahead.x, ahead.heading)
    requires turned.heading - stop.heading >= TURN_TARGET && ahead.x - turned.x >= PROBE_TARGET
    requires Reports(stop, turn, turned) && Reports(turned, advance, ahead)
    requires || turn.laps == advance.laps == 0
             || (-PI <= stop.heading <= PI && -PI <= turned.heading <= PI && -PI <= ahead.heading <= PI)
    ensures Journey(e, moves, Left, 2, 0, 0, 1) && e.inputs == [stop, turned, ahead] && moves == [turn, advance]
    ensures e.states[2].attempt == 1 && e.states[2].Direction() == Left && Backward(e, 1, 2) == 0
    ensures e.commands[0] == Some(TurnTo(Left))
    ensures Rolled(moves, 0, 0) == 0.0 && Rolled(moves, 1, 2) == advance.forward
    ensures Rotated(moves, Left, 0, 1) == turn.turned && Crossings(moves, Left, 0, 1) == turn.laps
    ensures HasReset(moves, 0, 1) == turn.reset && HasReset(moves, 1, 2) == advance.reset
  {
    e := CompletesFromATurn(stop, turned, ahead);
    moves := [turn, advance];
    assert Rolled(moves, 1, 1) == 0.0 && Rotated(moves, Left, 0, 0) == 0.0 && Crossings(moves, Left, 0, 0) == 0;
    assert moves[0].reset == turn.reset && moves[1].reset == advance.reset;
  }

  /** A body that a crossing of the half turn credits with a turn: told to turn
      left at heading -3.1 it turns 0.2 rad to the right, and its report, normalised,
      gains 6.08 rad. */
  lemma WrongWayTurnCompletes() returns (e: Episode, moves: seq<Move>)
    ensures Journey(e, moves, Left, 2, 0, 0, 1) && !HasReset(moves, 0, 1) && !HasReset(moves, 1, 2)
    ensures e.inputs[1].heading == Normalized(e.inputs[0].heading + Normalized(moves[0].turned))
    ensures e.commands[0] == Some(TurnTo(Left)) && Rotated(moves, Left, 0, 1) == -0.2
  {
    var wrapped := -3.3 + TAU;
    assert Normalized(-0.2) == -0.2 && Normalized(-3.3) == wrapped by {
      assert Down(-0.2) == -0.2 && Down(-3.3) == -3.3 && Up(-3.3) == Up(wrapped) == wrapped;
    }
    e, moves := TurnJourney(CrampedStop(0.0, -3.1), At(0.0, wrapped), At(0.05, wrapped),
                            Move(0.0, -0.2, 1.0, 1, false), Move(0.05, 0.0, 1.0, 0, false));
  }

  // ---------------------------------------------------------------- episodes that start by reversing

  function PinnedAt(x: real): RecoveryState {
    RecoveryState(Reverse, REVERSE_MAX_TICKS, Some(Left), 1, x, 0.0, 0)
  }

  /** Where the episode of a body pinned at `x` stands after `r` ticks of an attempt. */
  predicate PinnedState(s: RecoveryState, x: real, attempt: nat, r: nat) {
    && s.attempt == attempt
    && s.turnDirection == Some(DirectionOf(Left, attempt))
    && if r <= 45 then s.step == Reverse && s.remaining == 45 - r && s.originX == x
       else s.step == Turn && s.remaining == 90 - r && s.originHeading == 0.0
  }

  lemma PinnedTick(s: RecoveryState, x: real, attempt: nat, r: nat)
    requires 1 <= attempt <= MAX_ATTEMPTS && r < 90 && PinnedState(s, x, attempt, r)
    ensures PinnedState(Tick(s, At(x, 0.0)).0, x, attempt, r + 1)
    ensures r < 45 ==> Tick(s, At(x, 0.0)).1 == Some(BACK)
  {
    if r == 45 {
      FreshPhase(Stalled(s, true), At(x, 0.0));
    } else if r < 45 {
      assert (s.attempt - 1) as real * REVERSE_TARGET_STEP >= 0.0;
    }
  }

  lemma PinnedAgain(s: RecoveryState, x: real, attempt: nat)
    requires 1 <= attempt < MAX_ATTEMPTS && PinnedState(s, x, attempt, 90)
    ensures PinnedState(Tick(s, At(x, 0.0)).0, x, attempt + 1, 1)
    ensures Tick(s, At(x, 0.0)).1 == Some(BACK)
  {
    var p := Stalled(s, true);
    FreshPhase(p.(attempt := p.attempt + 1, turnDirection := Some(p.Direction().Opposite())), At(x, 0.0));
  }

  lemma {:induction false} PinnedRun(e: Episode, x: real, attempt: nat, r: nat)
    requires IsEpisode(e, Left) && e.states[0] == PinnedAt(x)
    requires 1 <= attempt <= MAX_ATTEMPTS && r <= 90 && (attempt > 1 ==> r > 0)
    requires 90 * (attempt - 1) + r <= |e.inputs|
    requires forall k :: 0 <= k < 90 * (attempt - 1) + r ==> e.inputs[k] == At(x, 0.0)
    ensures PinnedState(e.states[90 * (attempt - 1) + r], x, attempt, r)
    ensures 0 < r <= 45 ==> e.commands[90 * (attempt - 1) + r - 1] == Some(BACK)
    decreases attempt, r
  {
    var m := 90 * (attempt - 1) + r;
    if m == 0 {
    } else {
      TickAt(e, Left, m - 1);
      if attempt > 1 && r == 1 {
        PinnedRun(e, x, attempt - 1, 90);
        PinnedAgain(e.states[m - 1], x, attempt - 1);
      } else {
        PinnedRun(e, x, attempt, r - 1);
        PinnedTick(e.states[m - 1], x, attempt, r - 1);
      }
    }
  }

  function QuarterTurn(attempt: nat): real { if DirectionOf(Left, attempt) == Left then 1.57 else -1.57 }

  /** A body pinned until, on the given attempt, its `k`-th backward command is
      reported to have taken it from x0 to x1; then it turns and advances as told. */
  function Strayed(attempt: nat, k: nat, x0: real, x1: real): seq<Input>
    requires attempt > 0
  {
    seq(90 * (attempt - 1) + k, _ => At(x0, 0.0))
    + [At(x1, 0.0), At(x1, QuarterTurn(attempt)), At(x1 + 0.05, QuarterTurn(attempt))]
  }

  lemma ReverseToTurn(s: RecoveryState, x0: real, x1: real, attempt: nat, k: nat)
    requires 1 <= attempt <= MAX_ATTEMPTS && k <= 45 && PinnedState(s, x0, attempt, k)
    requires k == 45 || x0 - x1 >= Target(attempt)
    ensures var (s', a) := Tick(s, At(x1, 0.0));
            && s'.step == Turn && s'.remaining == 44 && s'.originHeading == 0.0 && s'.attempt == attempt
            && s'.turnDirection == Some(DirectionOf(Left, attempt)) && a == Some(TurnTo(DirectionOf(Left, attempt)))
  {
    var p := Stalled(s, ReverseProgress(s, At(x1, 0.0)) < STALLED_BELOW);
    FreshPhase(p, At(x1, 0.0));
    assert Tick(s, At(x1, 0.0)) == Tick(BeginPhase(p, At(x1, 0.0), Turn), At(x1, 0.0));
  }

  lemma TurnToProbe(s: RecoveryState, x: real, attempt: nat)
    requires 1 <= attempt <= MAX_ATTEMPTS && s.step == Turn && s.originHeading == 0.0 && s.attempt == attempt
    requires s.turnDirection == Some(DirectionOf(Left, attempt))
    ensures var (s', a) := Tick(s, At(x, QuarterTurn(attempt)));
            && s'.step == Probe && s'.originX == x && s'.attempt == attempt && a == Some(Go(0.05))
            && s'.turnDirection == s.turnDirection
  {
    var i := At(x, QuarterTurn(attempt));
    assert Tick(s, i) == Tick(BeginPhase(s, i, Probe), i);
  }

  /** The backward part of its last attempt. */
  lemma StrayedBacks(e: Episode, x: real, attempt: nat, k: nat, m: nat)
    requires IsEpisode(e, Left) && e.states[0] == PinnedAt(x)
    requires 1 <= attempt <= MAX_ATTEMPTS && 1 <= k <= 45 && m == 90 * (attempt - 1) && m + k <= |e.inputs|
    requires forall j :: 0 <= j < m + k ==> e.inputs[j] == At(x, 0.0)
    ensures PinnedState(e.states[m + k], x, attempt, k) && Commanded(e, m, m + k, BACK)
    ensures SameAttempt(e, m, m + k, attempt) && (m > 0 ==> e.states[m].attempt != attempt)
  {
    forall j | m < j <= m + k ensures PinnedState(e.states[j], x, attempt, j - m) {
      PinnedRun(e, x, attempt, j - m);
    }
    forall j | m <= j < m + k ensures e.commands[j] == Some(BACK) {
      PinnedRun(e, x, attempt, j - m + 1);
    }
    if m > 0 {
      PinnedRun(e, x, attempt - 1, 90);
    }
  }

  /** The rest of it. */
  lemma StrayedEnds(e: Episode, x0: real, x1: real, attempt: nat, k: nat, m: nat)
    requires IsEpisode(e, Left) && |e.inputs| == m + k + 3 && 1 <= attempt <= MAX_ATTEMPTS && k <= 45
    requires PinnedState(e.states[m + k], x0, attempt, k) && (k == 45 || x0 - x1 >= Target(attempt))
    requires e.inputs[m + k] == At(x1, 0.0) && e.inputs[m + k + 1] == At(x1, QuarterTurn(attempt))
    requires e.inputs[m + k + 2] == At(x1 + 0.05, QuarterTurn(attempt))
    ensures e.commands[m + k] == Some(TurnTo(DirectionOf(Left, attempt))) && e.commands[m + k + 1] == Some(Go(0.05))
    ensures e.commands[m + k + 2] == Some(InspectNovelty)
    ensures e.states[m + k + 1].attempt == e.states[m + k + 2].attempt == attempt
    ensures e.states[m + k + 2].Direction() == DirectionOf(Left, attempt)
  {
    TickAt(e, Left, m + k);
    ReverseToTurn(e.states[m + k], x0, x1, attempt, k);
    TickAt(e, Left, m + k + 1);
    TurnToProbe(e.states[m + k + 1], x1, attempt);
    TickAt(e, Left, m + k + 2);
  }

  lemma StrayedCompletes(attempt: nat, k: nat, x0: real, x1: real) returns (e: Episode, m: nat)
    requires 1 <= attempt <= MAX_ATTEMPTS && 1 <= k <= 45 && (k == 45 || x0 - x1 >= Target(attempt))
    ensures e.inputs == Strayed(attempt, k, x0, x1) && m == 90 * (attempt - 1)
    ensures Completes(e, Left, m + k + 2) && e.states[m + k + 2].attempt == attempt
    ensures Phases(e, m + k + 2, m, m + k, m + k + 1)
  {
    e, m := Play(PinnedAt(x0), Strayed(attempt, k, x0, x1)), 90 * (attempt - 1);
    assert IsEpisode(e, Left);
    StrayedBacks(e, x0, attempt, k, m);
    StrayedEnds(e, x0, x1, attempt, k, m);
  }

  /** Its motion: nothing but the one roll, or reset, and the turn and the advance. */
  function StrayedMoves(attempt: nat, k: nat, cosine: real, rolled: real, reset: bool): seq<Move>
    requires attempt > 0 && k > 0
  {
    seq(90 * (attempt - 1) + k - 1, _ => Move(0.0, 0.0, cosine, 0, false))
    + [Move(rolled, 0.0, cosine, 0, reset), Move(0.0, QuarterTurn(attempt), 1.0, 0, false),
       Move(0.05, 0.0, 1.0, 0, false)]
  }

  lemma StrayedTravels(attempt: nat, k: nat, x0: real, x1: real, cosine: real, rolled: real, reset: bool, e: Episode)
    requires 1 <= attempt <= MAX_ATTEMPTS && k > 0 && -1.0 <= cosine <= 1.0
    requires e.inputs == Strayed(attempt, k, x0, x1)
    requires x1 == if reset then 0.0 else x0 + rolled * cosine
    ensures var moves := StrayedMoves(attempt, k, cosine, rolled, reset);
            && Travels(e, moves) && Framed(e, moves)
            && Straight(moves, 90 * (attempt - 1), 90 * (attempt - 1) + k, cosine)
            && (HasReset(moves, 90 * (attempt - 1), 90 * (attempt - 1) + k) <==> reset)
            && Rolled(moves, 90 * (attempt - 1), 90 * (attempt - 1) + k) == rolled
  {
    var moves, m := StrayedMoves(attempt, k, cosine, rolled, reset), 90 * (attempt - 1);
    StillRolls(moves, m, m + k - 1);
    assert moves[m + k - 1] == Move(rolled, 0.0, cosine, 0, reset);
  }

  lemma {:induction false} StillRolls(moves: seq<Move>, from: nat, to: nat)
    requires from <= to <= |moves| && forall k :: from <= k < to ==> moves[k].forward == 0.0
    ensures Rolled(moves, from, to) == 0.0
  {
    if from == to {
    } else {
      StillRolls(moves, from, to - 1);
    }
  }

  lemma StrayedJourney(attempt: nat, k: nat, x0: real, x1: real, cosine: real, rolled: real, reset: bool)
    returns (e: Episode, moves: seq<Move>, m: nat)
    requires 1 <= attempt <= MAX_ATTEMPTS && 1 <= k <= 45 && -1.0 <= cosine <= 1.0
    requires k == 45 || x0 - x1 >= Target(attempt)
    requires x1 == if reset then 0.0 else x0 + rolled * cosine
    ensures moves == StrayedMoves(attempt, k, cosine, rolled, reset) && m == 90 * (attempt - 1)
    ensures Journey(e, moves, Left, m + k + 2, m, m + k, m + k + 1)
    ensures e.states[m + k + 2].attempt == attempt && Backward(e, attempt, m + k + 2) == k
    ensures Straight(moves, m, m + k, cosine) && HasReset(moves, m, m + k) == reset && Rolled(moves, m, m + k) == rolled
  {
    e, m := StrayedCompletes(attempt, k, x0, x1);
    moves := StrayedMoves(attempt, k, cosine, rolled, reset);
    StrayedTravels(attempt, k, x0, x1, cosine, rolled, reset, e);
    JourneyHistory(e, moves, Left, m + k + 2, m, m + k, m + k + 1);
  }

  /** The completing message claims an observed reverse, but on any attempt an
      episode can complete in which the body never rolled backwards at all. */
  lemma CompletesWithoutReversing(attempt: nat) returns (e: Episode, moves: seq<Move>, n: nat)
    requires 1 <= attempt <= MAX_ATTEMPTS
    ensures Completes(e, Left, n) && Travels(e, moves) && e.states[n].attempt == attempt
    ensures forall k :: 0 <= k < |moves| ==> moves[k].forward >= 0.0 && !moves[k].reset
  {
    var m;
    e, moves, m := StrayedJourney(attempt, 45, 0.0, 0.0, 1.0, 0.0, false);
    n := m + 47;
  }

  // ---------------------------------------------------------------- completions of a kind

  /** A completion on that attempt after `k` backward commands, during which the
      body kept its direction and the odometry was or was not reset. */
  ghost predicate Reversed(e: Episode, moves: seq<Move>, first: TurnDir, n: nat, r: nat, s: nat, t: nat,
                           attempt: nat, k: nat, cosine: real, reset: bool) {
    && Journey(e, moves, first, n, r, s, t)
    && e.states[n].attempt == attempt && Backward(e, attempt, n) == k
    && Straight(moves, r, s, cosine) && HasReset(moves, r, s) == reset
  }

  /** The completing message says that reverse progress was observed.  The body
      really backed the attempt's distance, in every completion after `k` backward
      commands along a direction of that cosine, exactly when `k` is from 1 to 44,
      the body did not face against x, and the odometry was not reset.  With no
      backward command there was no reverse; 45 are the ticks a reverse may last,
      moving or not; against x it is forward motion that counts. */
  lemma ReverseBehindCompletionIff(attempt: nat, k: nat, cosine: real, reset: bool)
    requires 1 <= attempt <= MAX_ATTEMPTS && k <= REVERSE_MAX_TICKS && (attempt > 1 ==> k > 0)
    requires -1.0 <= cosine <= 1.0 && (k == 0 ==> !reset)
    ensures (forall e: Episode, moves: seq<Move>, first: TurnDir, n: nat, r: nat, s: nat, t: nat ::
               Reversed(e, moves, first, n, r, s, t, attempt, k, cosine, reset) ==>
                 -Rolled(moves, r, s) >= Target(attempt))
       <==> 1 <= k < REVERSE_MAX_TICKS && cosine >= 0.0 && !reset
  {
    if 1 <= k < REVERSE_MAX_TICKS && cosine >= 0.0 && !reset {
      forall e: Episode, moves: seq<Move>, first: TurnDir, n: nat, r: nat, s: nat, t: nat
        | Reversed(e, moves, first, n, r, s, t, attempt, k, cosine, reset)
        ensures -Rolled(moves, r, s) >= Target(attempt)
      {
        JourneyHistory(e, moves, first, n, r, s, t);
        ReverseIsRealIff(e, moves, first, n, r, s, t, cosine);
      }
    } else {
      var e, moves, n, r, s, t := UnrealReverse(attempt, k, cosine, reset);
      assert Reversed(e, moves, Left, n, r, s, t, attempt, k, cosine, reset);
    }
  }

  lemma NoReverse(cosine: real) returns (e: Episode, moves: seq<Move>)
    ensures Reversed(e, moves, Left, 2, 0, 0, 1, 1, 0, cosine, false) && Rolled(moves, 0, 0) == 0.0
  {
    e, moves := TurnJourney(CrampedStop(0.0, 0.0), At(0.0, 1.57), At(0.05, 1.57),
                            Move(0.0, 1.57, 1.0, 0, false), Move(0.05, 0.0, 1.0, 0, false));
  }

  lemma UnrealReverse(attempt: nat, k: nat, cosine: real, reset: bool)
    returns (e: Episode, moves: seq<Move>, n: nat, r: nat, s: nat, t: nat)
    requires 1 <= attempt <= MAX_ATTEMPTS && k <= REVERSE_MAX_TICKS && (attempt > 1 ==> k > 0)
    requires -1.0 <= cosine <= 1.0 && (k == 0 ==> !reset)
    requires k == 0 || k == REVERSE_MAX_TICKS || cosine < 0.0 || reset
    ensures Reversed(e, moves, Left, n, r, s, t, attempt, k, cosine, reset) && -Rolled(moves, r, s) < Target(attempt)
  {
    if k == 0 {
      e, moves := NoReverse(cosine);
      n, r, s, t := 2, 0, 0, 1;
    } else {
      var x0, x1, rolled := UnrealRoll(attempt, k, cosine, reset);
      var m;
      e, moves, m := StrayedJourney(attempt, k, x0, x1, cosine, rolled, reset);
      n, r, s, t := m + k + 2, m, m + k, m + k + 1;
    }
  }

  /** A fall of x by the attempt's distance, or none after 45 ticks, without a roll
      backwards. */
  lemma UnrealRoll(attempt: nat, k: nat, cosine: real, reset: bool) returns (x0: real, x1: real, rolled: real)
    requires 1 <= attempt <= MAX_ATTEMPTS && -1.0 <= cosine <= 1.0
    requires k == REVERSE_MAX_TICKS || cosine < 0.0 || reset
    ensures k == 45 || x0 - x1 >= Target(attempt)
    ensures x1 == if reset then 0.0 else x0 + rolled * cosine
    ensures rolled >= 0.0
  {
    if reset {
      x0, x1, rolled := 1.0, 0.0, 0.0;
    } else if cosine < 0.0 {
      rolled := Target(attempt) / -cosine;
      assert rolled * -cosine == Target(attempt);
      x0, x1 := 0.0, rolled * cosine;
    } else {
      x0, x1, rolled := 0.0, 0.0, 0.0;
    }
  }

  /** With a reset in the turn the report says nothing; without one it tells exactly
      by its crossings of the half turn whether the turn was really made. */
  lemma TurnBehindCompletionIff(reset: bool)
    ensures (forall e: Episode, moves: seq<Move>, first: TurnDir, n: nat, r: nat, s: nat, t: nat ::
               Journey(e, moves, first, n, r, s, t) && HasReset(moves, s, t) == reset ==>
                 (Rotated(moves, e.states[n].Direction(), s, t) >= TURN_MIN_USEFUL
                  <==> Crossings(moves, e.states[n].Direction(), s, t) <= 0))
       <==> !reset
  {
    if reset {
      var e, moves := TurnJourney(CrampedStop(0.0, -2.0), At(0.0, 0.0), At(0.05, 0.0),
                                  Move(0.0, 0.0, 1.0, 0, true), Move(0.05, 0.0, 1.0, 0, false));
    } else {
      forall e: Episode, moves: seq<Move>, first: TurnDir, n: nat, r: nat, s: nat, t: nat
        | Journey(e, moves, first, n, r, s, t) && !HasReset(moves, s, t)
        ensures Rotated(moves, e.states[n].Direction(), s, t) >= TURN_MIN_USEFUL
           <==> Crossings(moves, e.states[n].Direction(), s, t) <= 0
      {
        TurnIsRealIff(e, moves, first, n, r, s, t);
      }
    }
  }

  /** The body really advanced 0.05 m, in every completion whose probe kept a
      direction of that cosine, exactly when it did not face against x and the
      odometry was not reset. */
  lemma ProbeBehindCompletionIff(cosine: real, reset: bool)
    requires -1.0 <= cosine <= 1.0
    ensures (forall e: Episode, moves: seq<Move>, first: TurnDir, n: nat, r: nat, s: nat, t: nat ::
               Journey(e, moves, first, n, r, s, t) && Straight(moves, t, n, cosine) && HasReset(moves, t, n) == reset
               ==> Rolled(moves, t, n) >= PROBE_TARGET)
       <==> cosine >= 0.0 && !reset
  {
    if cosine >= 0.0 && !reset {
      forall e: Episode, moves: seq<Move>, first: TurnDir, n: nat, r: nat, s: nat, t: nat
        | Journey(e, moves, first, n, r, s, t) && Straight(moves, t, n, cosine) && !HasReset(moves, t, n)
        ensures Rolled(moves, t, n) >= PROBE_TARGET
      {
        ProbeIsRealIff(e, moves, first, n, r, s, t, cosine);
      }
    } else {
      var e, moves := UnrealProbe(cosine, reset);
      assert Journey(e, moves, Left, 2, 0, 0, 1);
    }
  }

  lemma UnrealProbe(cosine: real, reset: bool) returns (e: Episode, moves: seq<Move>)
    requires -1.0 <= cosine <= 1.0 && (cosine < 0.0 || reset)
    ensures Journey(e, moves, Left, 2, 0, 0, 1) && |moves| == 2
    ensures Straight(moves, 1, 2, cosine) && HasReset(moves, 1, 2) == reset && Rolled(moves, 1, 2) <= 0.0
  {
    var rolled, x := 0.0, -1.0;
    if !reset {
      rolled := PROBE_TARGET / cosine;
      x := -PROBE_TARGET;
      assert rolled * cosine == PROBE_TARGET;
    }
    var heading := if reset then 0.0 else 1.57;
    e, moves := TurnJourney(CrampedStop(x, 0.0), At(x, 1.57), At(0.0, heading),
                            Move(0.0, 1.57, 1.0, 0, false), Move(rolled, 0.0, cosine, 0, reset));
  }
}
