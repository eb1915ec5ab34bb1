/** The fixed-window limiter in front of the echo responder
    (crates/pete-brainstem/src/icmp.rs), alone and over whole runs. */
module RateLimit {
  import opened Machine

  const WINDOW_MS := 1000
  const REPLIES_PER_WINDOW := 4

  datatype Window = Window(startedMs: u64, replies: nat)

  /** One decision, with the source's wrapping subtraction. */
  function Decide(w: Window, now: u64): (Window, bool) {
    var w' := if (now - w.startedMs) % TWO_TO_THE_64 >= WINDOW_MS then Window(now, 0) else w;
    if w'.replies >= REPLIES_PER_WINDOW then (w', false) else (w'.(replies := w'.replies + 1), true)
  }

  class IcmpRateLimit {
    var windowStartedMs: u64
    var repliesInWindow: int

    ghost predicate Valid()
      reads this
    {
      0 <= repliesInWindow <= REPLIES_PER_WINDOW
    }

    ghost function State(): Window
      reads this
      requires Valid()
    {
      Window(windowStartedMs, repliesInWindow)
    }

    constructor ()
      ensures Valid() && State() == Window(0, 0)
    {
      windowStartedMs := 0;
      repliesInWindow := 0;
    }

    method Allow(nowMs: u64) returns (allowed: bool)
      requires Valid()
      modifies this
      ensures Valid() && (State(), allowed) == Decide(old(State()), nowMs)
    {
      if (nowMs - windowStartedMs) % TWO_TO_THE_64 >= WINDOW_MS {
        windowStartedMs := nowMs;
        repliesInWindow := 0;
      }
      if repliesInWindow >= REPLIES_PER_WINDOW {
        return false;
      }
      repliesInWindow := repliesInWindow + 1;
      return true;
    }
  }

  // ---------------------------------------------------------------- runs

  /** What reaches the responder: a time, and whether the frame is a well-formed
      echo request; only such a frame consults the limiter. */
  datatype Arrival = Arrival(nowMs: u64, wellFormed: bool)

  ghost predicate Chronological(run: seq<Arrival>) {
    forall i, j :: 0 <= i < j < |run| ==> run[i].nowMs <= run[j].nowMs
  }

  function After(run: seq<Arrival>): Window {
    if run == [] then Window(0, 0)
    else var w, last := After(run[..|run| - 1]), run[|run| - 1];
         if last.wellFormed then Decide(w, last.nowMs).0 else w
  }

  /** Whether the last arrival of the run is answered. */
  predicate Answered(run: seq<Arrival>)
    requires run != []
  {
    var last := run[|run| - 1];
    last.wellFormed && Decide(After(run[..|run| - 1]), last.nowMs).1
  }

  /** Replies sent at times in the half-open interval [from, to). */
  function Replies(run: seq<Arrival>, from: int, to: int): nat {
    if run == [] then 0
    else var earlier := Replies(run[..|run| - 1], from, to);
         if Answered(run) && from <= run[|run| - 1].nowMs < to then earlier + 1 else earlier
  }

  /** With time moving forward the subtraction does not wrap, and a new window
      starts in a later second than the one it replaces. */
  lemma InOrder(w: Window, now: u64)
    requires w.startedMs <= now
    ensures (now - w.startedMs) % TWO_TO_THE_64 == now - w.startedMs
    ensures now - w.startedMs >= WINDOW_MS ==> now / WINDOW_MS >= w.startedMs / WINDOW_MS + 1
  {
  }

  /** The limiter's window opened in the past and is never overfull, and the
      replies sent so far fit the windows opened so far. */
  lemma {:induction false} RunInvariant(run: seq<Arrival>)
    requires Chronological(run)
    ensures After(run).replies <= REPLIES_PER_WINDOW
    ensures run == [] ==> After(run).startedMs == 0
    ensures run != [] ==> After(run).startedMs <= run[|run| - 1].nowMs
    ensures Replies(run, 0, TWO_TO_THE_64)
         <= REPLIES_PER_WINDOW * (After(run).startedMs / WINDOW_MS) + After(run).replies
  {
    if run == [] {
    } else {
      RunInvariant(run[..|run| - 1]);
      InOrder(After(run[..|run| - 1]), run[|run| - 1].nowMs);
    }
  }

  /** At most 4 * (T / 1000 + 1) replies are sent up to time T. */
  lemma LongRunRate(run: seq<Arrival>)
    requires Chronological(run) && run != []
    ensures Replies(run, 0, TWO_TO_THE_64)
         <= 4 * (run[|run| - 1].nowMs / 1000 + 1)
  {
    RunInvariant(run);
  }

  /** An interval one window long meets at most two of the limiter's windows. */
  lemma {:induction false} IntervalInvariant(run: seq<Arrival>, from: int)
    requires Chronological(run) && 0 <= from
    ensures Replies(run, from, from + WINDOW_MS) <= 2 * REPLIES_PER_WINDOW
    ensures run == [] || run[|run| - 1].nowMs < from ==> Replies(run, from, from + WINDOW_MS) == 0
    ensures run == [] || run[|run| - 1].nowMs < from + WINDOW_MS ==>
              Replies(run, from, from + WINDOW_MS)
              <= After(run).replies + (if After(run).startedMs < from then 0 else REPLIES_PER_WINDOW)
  {
    if run == [] {
    } else {
      RunInvariant(run);
      RunInvariant(run[..|run| - 1]);
      InOrder(After(run[..|run| - 1]), run[|run| - 1].nowMs);
      IntervalInvariant(run[..|run| - 1], from);
    }
  }

  /** At most 8 replies fall in any half-open interval of one second. */
  lemma BurstBound(run: seq<Arrival>, from: int)
    requires Chronological(run) && 0 <= from
    ensures Replies(run, from, from + 1000) <= 8
  {
    IntervalInvariant(run, from);
  }

  /** The replies counted in the current window were sent since it opened. */
  lemma {:induction false} CountedRepliesWereSent(run: seq<Arrival>, from: int)
    requires Chronological(run) && from <= After(run).startedMs
    ensures Replies(run, from, TWO_TO_THE_64) >= After(run).replies
  {
    if run == [] {
    } else {
      var earlier := run[..|run| - 1];
      RunInvariant(earlier);
      InOrder(After(earlier), run[|run| - 1].nowMs);
      if from <= After(earlier).startedMs {
        CountedRepliesWereSent(earlier, from);
      }
    }
  }

  /** A well-formed request goes unanswered only when four replies have been sent
      within the last second. */
  lemma RefusalMeansFour(run: seq<Arrival>)
    requires Chronological(run) && run != [] && run[|run| - 1].wellFormed && !Answered(run)
    ensures Replies(run, run[|run| - 1].nowMs - 999, TWO_TO_THE_64) >= 4
  {
    var earlier, now := run[..|run| - 1], run[|run| - 1].nowMs;
    RunInvariant(earlier);
    InOrder(After(earlier), now);
    CountedRepliesWereSent(earlier, now - WINDOW_MS + 1);
  }

  function Burst(run: seq<Arrival>, a: Arrival, n: nat): seq<Arrival> {
    if n == 0 then run else Burst(run, a, n - 1) + [a]
  }

  lemma OneMore(run: seq<Arrival>, a: Arrival, from: int, to: int)
    requires a.wellFormed && from <= a.nowMs < to && After(run).startedMs <= a.nowMs
    ensures var w, w' := After(run), After(run + [a]);
            var current := if a.nowMs - w.startedMs >= WINDOW_MS then Window(a.nowMs, 0) else w;
            var sent := if current.replies < REPLIES_PER_WINDOW then 1 else 0;
            && w' == Window(current.startedMs, current.replies + sent)
            && Replies(run + [a], from, to) == Replies(run, from, to) + sent
  {
    assert (run + [a])[..|run|] == run;
    InOrder(After(run), a.nowMs);
  }

  lemma {:induction false} BurstIsAnswered(run: seq<Arrival>, a: Arrival, n: nat, from: int, to: int)
    requires a.wellFormed && from <= a.nowMs < to && 0 < n <= REPLIES_PER_WINDOW
    requires var w := After(run);
             w.startedMs <= a.nowMs && (a.nowMs - w.startedMs >= WINDOW_MS || w.replies == 0)
    ensures var w := After(run);
            After(Burst(run, a, n)) == Window(if a.nowMs - w.startedMs >= WINDOW_MS then a.nowMs else w.startedMs, n)
    ensures Replies(Burst(run, a, n), from, to) == Replies(run, from, to) + n
  {
    if n <= 1 {
    } else {
      BurstIsAnswered(run, a, n - 1, from, to);
    }
    OneMore(Burst(run, a, n - 1), a, from, to);
  }

  lemma {:induction false} BurstIsChronological(run: seq<Arrival>, a: Arrival, n: nat)
    requires Chronological(run) && forall i :: 0 <= i < |run| ==> run[i].nowMs <= a.nowMs
    ensures Chronological(Burst(run, a, n))
    ensures forall i :: 0 <= i < |Burst(run, a, n)| ==> Burst(run, a, n)[i].nowMs <= a.nowMs
  {
    if n == 0 {
    } else {
      BurstIsChronological(run, a, n - 1);
    }
  }

  /** Eight are really sent: four just before a window ends, four as the next
      one opens. */
  lemma EightInOneSecondHappens(late: Arrival, next: Arrival)
    requires late == Arrival(999, true) && next == Arrival(1000, true)
    ensures var run := Burst(Burst([], late, 4), next, 4);
            Chronological(run) && Replies(run, 999, 1999) == 8
  {
    BurstIsAnswered([], late, 4, 999, 1999);
    BurstIsAnswered(Burst([], late, 4), next, 4, 999, 1999);
    BurstIsChronological([], late, 4);
    BurstIsChronological(Burst([], late, 4), next, 4);
  }

  function WellFormedOnly(run: seq<Arrival>): seq<Arrival> {
    if run == [] then []
    else var earlier, last := WellFormedOnly(run[..|run| - 1]), run[|run| - 1];
         if last.wellFormed then earlier + [last] else earlier
  }

  /** Malformed frames never use up budget: striking them from a run changes
      neither the limiter nor which well-formed request is answered. */
  lemma {:induction false} MalformedFramesAreFree(run: seq<Arrival>, from: int, to: int)
    ensures After(WellFormedOnly(run)) == After(run)
    ensures Replies(WellFormedOnly(run), from, to) == Replies(run, from, to)
    ensures run != [] && run[|run| - 1].wellFormed ==>
              WellFormedOnly(run) != [] && Answered(WellFormedOnly(run)) == Answered(run)
  {
    if run == [] {
    } else {
      var earlier, last := run[..|run| - 1], run[|run| - 1];
      MalformedFramesAreFree(earlier, from, to);
      if last.wellFormed {
        var kept := WellFormedOnly(earlier) + [last];
        assert kept[..|kept| - 1] == WellFormedOnly(earlier) && kept[|kept| - 1] == last;
      }
    }
  }
}
