/** Which bodies recover: the recovery machine closed over a body in the open that
    carries out every command (0.01 m along its heading for a Go, a quarter turn for
    a TurnTo) and reports its world coordinate x. */
module RecoveryClosedLoop {
  import opened Machine
  import opened Recovery

  const ROLL := 0.01
  const QUARTER := 1.5708

  /** The direction of the heading, by its cosine and sine. */
  datatype Direction = Direction(cosine: real, sine: real) {
    function Turned(d: TurnDir): Direction {
      if d == Left then Direction(-sine, cosine) else Direction(sine, -cosine)
    }
  }

  datatype Pose = Pose(x: real, heading: real, facing: Direction)

  function Obeyed(p: Pose, a: Option<Action>): Pose {
    match a
    case Some(Go(intensity)) => p.(x := p.x + (if intensity < 0.0 then -ROLL else ROLL) * p.facing.cosine)
    case Some(TurnTo(d)) =>
      p.(heading := if d == Left then p.heading + QUARTER else p.heading - QUARTER, facing := p.facing.Turned(d))
    case _ => p
  }

  /** What recovery is told of a body in the open. */
  predicate Sees(i: Input, p: Pose) {
    i.x == p.x && i.heading == p.heading && CenterClearance(i.beams) >= CLEAR_AHEAD
  }

  predicate Moves(p: Pose, a: Option<Action>, p': Pose) { p' == Obeyed(p, a) }

  ghost predicate ClosedLoop(e: Episode, first: TurnDir, poses: seq<Pose>) {
    && IsEpisode(e, first) && |poses| == |e.inputs|
    && (forall k :: 0 <= k < |poses| ==> Sees(e.inputs[k], poses[k]))
    && (forall k {:trigger Moves(poses[k], e.commands[k], poses[k + 1])} ::
          0 <= k < |poses| - 1 ==> Moves(poses[k], e.commands[k], poses[k + 1]))
  }

  /** The loop can be closed from every start. */
  lemma {:induction false} LoopExists(start: RecoveryState, p: Pose, n: nat, first: TurnDir)
    returns (e: Episode, poses: seq<Pose>)
    requires n > 0 && Starts(start, At(p.x, p.heading), first)
    ensures ClosedLoop(e, first, poses) && |e.inputs| == n && e.states[0] == start && poses[0] == p
  {
    if n == 1 {
      var i := At(p.x, p.heading);
      var (s', a) := Tick(start, i);
      assert Ticks(start, i, s', a);
      e, poses := Episode([i], [start, s'], [a]), [p];
    } else {
      var m := n - 1;
      e, poses := LoopExists(start, p, m, first);
      var q := Obeyed(poses[m - 1], e.commands[m - 1]);
      var i := At(q.x, q.heading);
      var (s', a) := Tick(e.states[m], i);
      e, poses := OneMoreTick(e, first, poses, i, s', a, q);
    }
  }

  lemma OneMoreTick(e: Episode, first: TurnDir, poses: seq<Pose>, i: Input, s': RecoveryState, a: Option<Action>,
                    q: Pose)
    returns (e': Episode, poses': seq<Pose>)
    requires ClosedLoop(e, first, poses) && Sees(i, q)
    requires Ticks(e.states[|e.inputs|], i, s', a) && Moves(poses[|poses| - 1], e.commands[|poses| - 1], q)
    ensures e' == Episode(e.inputs + [i], e.states + [s'], e.commands + [a]) && poses' == poses + [q]
    ensures ClosedLoop(e', first, poses')
  {
    e', poses' := Episode(e.inputs + [i], e.states + [s'], e.commands + [a]), poses + [q];
    forall n | 0 <= n < |e'.inputs| ensures Ticks(e'.states[n], e'.inputs[n], e'.states[n + 1], e'.commands[n]) {
      if n < |e.inputs| {
        TickAt(e, first, n);
      }
    }
    forall k | 0 <= k < |poses'| - 1 ensures Moves(poses'[k], e'.commands[k], poses'[k + 1]) {
      if k < |poses| - 1 {
        assert Moves(poses[k], e.commands[k], poses[k + 1]);
      }
    }
  }

  // ---------------------------------------------------------------- where the body faces

  const FAR_ENOUGH := 0.25

  /** Where it faces while it probes on an attempt that started out facing `from`:
      the start turned once, or, turned back, the start again. */
  function Probing(from: Direction, first: TurnDir, attempt: nat): Direction {
    if attempt % 2 == 1 then from.Turned(first) else from
  }

  /** Where it faces while it reverses. */
  function Backing(from: Direction, first: TurnDir, attempt: nat): Direction {
    if attempt % 2 == 1 then from else from.Turned(first)
  }

  predicate Advances(d: Direction) { d.cosine >= FAR_ENOUGH }

  /** What holds before each tick: where the body faces, how far it has got, and
      that the attempts behind it failed because they did not face along x. */
  predicate Follows(s: RecoveryState, p: Pose, from: Direction, first: TurnDir) {
    && (s.step != Idle && s.attempt >= 2 ==> !Advances(from.Turned(first)))
    && (s.step != Idle && s.attempt >= 3 ==> !Advances(from))
    && match s.step
       case Reverse => p.facing == Backing(from, first, s.attempt)
       case Turn =>
         || (s.remaining == 45 && s.attempt == 1 && p.facing == from && p.heading == s.originHeading)
         || (s.remaining == 44 && p.facing == Probing(from, first, s.attempt)
             && QUARTER == if s.Direction() == Left then p.heading - s.originHeading else s.originHeading - p.heading)
       case Probe =>
         && s.remaining < 20 && p.facing == Probing(from, first, s.attempt)
         && p.x - s.originX == (20 - s.remaining) as real * (ROLL * p.facing.cosine)
       case _ => true
  }

  lemma AtMostTwenty(j: nat, step: real)
    requires j <= 20
    ensures j as real * step >= PROBE_TARGET ==> 20.0 * step >= PROBE_TARGET
  {
    if step >= 0.0 {
      assert (20 - j) as real * step >= 0.0;
      assert (20 - j) as real * step == 20.0 * step - j as real * step;
    } else {
      assert j as real * step <= 0.0;
    }
  }

  lemma Forth(j: nat, step: real)
    ensures j as real * step + step == (j + 1) as real * step
  {
  }

  lemma ReverseFollows(s: RecoveryState, i: Input, p: Pose, from: Direction, first: TurnDir)
    requires Reachable(s, first) && s.step == Reverse && Sees(i, p) && Follows(s, p, from, first)
    ensures Follows(Tick(s, i).0, Obeyed(p, Tick(s, i).1), from, first)
  {
    FreshPhase(Stalled(s, ReverseProgress(s, i) < STALLED_BELOW), i);
  }

  lemma TurnFollows(s: RecoveryState, i: Input, p: Pose, from: Direction, first: TurnDir)
    requires Reachable(s, first) && s.step == Turn && Sees(i, p) && Follows(s, p, from, first)
    ensures Follows(Tick(s, i).0, Obeyed(p, Tick(s, i).1), from, first)
  {
    if s.remaining == 44 {
      assert Tick(s, i) == Tick(BeginPhase(s, i, Probe), i);
      assert Tick(s, i) == (Spend(BeginPhase(s, i, Probe)), Some(Go(0.05)));
    }
  }

  /** A probe that goes its 20 ticks completes or fails by where the body faces. */
  lemma ProbeReaches(s: RecoveryState, p: Pose, from: Direction, first: TurnDir)
    requires s.step == Probe && Follows(s, p, from, first)
    ensures p.x - s.originX >= PROBE_TARGET ==> Advances(p.facing)
    ensures s.remaining == 0 && p.x - s.originX < PROBE_TARGET ==> !Advances(p.facing)
  {
    AtMostTwenty(20 - s.remaining, ROLL * p.facing.cosine);
    assert 20 as real == 20.0;
  }

  lemma ProbeFollows(s: RecoveryState, i: Input, p: Pose, from: Direction, first: TurnDir)
    requires Reachable(s, first) && s.step == Probe && Sees(i, p) && Follows(s, p, from, first)
    ensures Follows(Tick(s, i).0, Obeyed(p, Tick(s, i).1), from, first)
  {
    if i.x - s.originX >= PROBE_TARGET {
      assert Tick(s, i).0 == IDLE;
    } else if s.remaining == 0 {
      ProbeReaches(s, p, from, first);
      Escalation(Stalled(s, ForwardProgress(s, i) < STALLED_BELOW), i, first);
    } else {
      Forth(20 - s.remaining, ROLL * p.facing.cosine);
      assert Tick(s, i) == (Spend(s), Some(Go(0.05)));
    }
  }

  lemma TickFollows(s: RecoveryState, i: Input, p: Pose, from: Direction, first: TurnDir)
    requires Reachable(s, first) && Sees(i, p) && Follows(s, p, from, first)
    ensures Follows(Tick(s, i).0, Obeyed(p, Tick(s, i).1), from, first)
  {
    match s.step
    case Reverse => ReverseFollows(s, i, p, from, first);
    case Turn => TurnFollows(s, i, p, from, first);
    case Probe => ProbeFollows(s, i, p, from, first);
    case _ =>
  }

  lemma {:induction false} LoopFollows(e: Episode, first: TurnDir, poses: seq<Pose>, n: nat)
    requires ClosedLoop(e, first, poses) && n < |poses|
    ensures Reachable(e.states[n], first) && Follows(e.states[n], poses[n], poses[0].facing, first)
  {
    EpisodeInvariant(e, first, n);
    if n == 0 {
      assert Sees(e.inputs[0], poses[0]);
    } else {
      LoopFollows(e, first, poses, n - 1);
      TickAt(e, first, n - 1);
      assert Moves(poses[n - 1], e.commands[n - 1], poses[n]);
      TickFollows(e.states[n - 1], e.inputs[n - 1], poses[n - 1], poses[0].facing, first);
    }
  }

  lemma CompletesFacingAhead(e: Episode, first: TurnDir, poses: seq<Pose>, n: nat)
    requires ClosedLoop(e, first, poses) && n < |poses| && e.commands[n] == Some(InspectNovelty)
    ensures Advances(poses[0].facing) || Advances(poses[0].facing.Turned(first))
  {
    LoopFollows(e, first, poses, n);
    TickAt(e, first, n);
    PhaseOrigins(e.states[n], e.inputs[n], first);
    ProbeReaches(e.states[n], poses[n], poses[0].facing, first);
  }

  lemma StopsFacingAway(e: Episode, first: TurnDir, poses: seq<Pose>, n: nat)
    requires ClosedLoop(e, first, poses) && n < |poses| && e.commands[n] == Some(Stop)
    ensures !Advances(poses[0].facing) && !Advances(poses[0].facing.Turned(first))
  {
    LoopFollows(e, first, poses, n);
    TickAt(e, first, n);
    EpisodeInvariant(e, first, n + 1);
    EpisodeInvariant(e, first, n);
    TickFollows(e.states[n], e.inputs[n], poses[n], poses[0].facing, first);
  }

  /** Which obedient bodies recover: those that face along x, with a cosine of at
      least a quarter, at the start or after the first turn.  All others, whatever
      way lies open, end in Stuck, whose message says that no useful progress was
      observed. */
  lemma ObedientBodyCompletesIff(e: Episode, first: TurnDir, poses: seq<Pose>)
    requires ClosedLoop(e, first, poses) && |e.inputs| > EPISODE_LIMIT
    ensures (exists n :: 0 <= n < |e.inputs| && e.commands[n] == Some(InspectNovelty))
       <==> Advances(poses[0].facing) || Advances(poses[0].facing.Turned(first))
    ensures !(exists n :: 0 <= n < |e.inputs| && e.commands[n] == Some(InspectNovelty))
       <==> exists n :: 0 <= n < |e.inputs| && e.commands[n] == Some(Stop)
  {
    EpisodeEnds(e, first);
    forall n | 0 <= n < |e.inputs| && e.commands[n] == Some(InspectNovelty)
      ensures Advances(poses[0].facing) || Advances(poses[0].facing.Turned(first))
    {
      CompletesFacingAhead(e, first, poses, n);
    }
    forall n | 0 <= n < |e.inputs| && e.commands[n] == Some(Stop)
      ensures !Advances(poses[0].facing) && !Advances(poses[0].facing.Turned(first))
    {
      StopsFacingAway(e, first, poses, n);
    }
  }

  /** So a body facing west never recovers, however willing. */
  lemma WestboundNeverCompletes(e: Episode, first: TurnDir, poses: seq<Pose>)
    requires ClosedLoop(e, first, poses) && |e.inputs| > EPISODE_LIMIT && poses[0].facing == Direction(-1.0, 0.0)
    ensures exists n :: 0 <= n < |e.inputs| && e.commands[n] == Some(Stop)
  {
    ObedientBodyCompletesIff(e, first, poses);
  }
}
