/** The cue scheduler of the brainstem (crates/pete-brainstem/src/audio.rs): one
    urgent slot, one informational slot, and a count of what gets lost. */
module Audio {
  import opened Machine
  import opened WrappingTime

  datatype Cue =
    | NoCue | Armed | EStop | Cliff | WheelDrop | Tilt | Impact | HeartbeatLost | AuthorityLost
    | AuthorityReplaced | BumpContact | CreateError | RuntimeError | ServiceFailure | LowBattery
    | SafetyClear | Recovery | AuthorityAcquired | DockContact | ImuFault | ServiceComplete
    | DockSeen | MotionInconsistency
  {
    function Priority(): nat {
      match this
      case EStop => 8
      case Cliff | WheelDrop | Tilt | Impact => 7
      case HeartbeatLost | AuthorityLost | AuthorityReplaced | CreateError => 6
      case BumpContact => 5
      case RuntimeError | ServiceFailure | ImuFault | MotionInconsistency => 4
      case LowBattery => 3
      case SafetyClear | Recovery => 2
      case Armed | AuthorityAcquired | DockContact | ServiceComplete | DockSeen => 1
      case NoCue => 0
    }

    predicate Urgent() { Priority() >= 3 }
  }

  datatype RequestResult = Ready | Queued | Suppressed | Dropped

  datatype State = State(silent: bool, urgent: Option<Cue>, informational: Option<Cue>, busyUntilMs: u32) {
    predicate Busy(now: u32) { !TimeReached(now, busyUntilMs) }
  }

  const INITIAL := State(false, None, None, 0)

  function Enqueued(s: State, cue: Cue): (State, RequestResult) {
    if cue.Urgent() then
      var s' := s.(informational := None);
      match s.urgent
      case Some(pending) =>
        (if pending.Priority() > cue.Priority() then s' else s'.(urgent := Some(cue)), Dropped)
      case None =>
        (s'.(urgent := Some(cue)), if s.informational.Some? then Dropped else Queued)
    else
      (s.(informational := Some(cue)), if s.informational.Some? then Dropped else Queued)
  }

  function Requested(s: State, cue: Cue, now: u32): (State, RequestResult) {
    if s.silent then (s, Suppressed)
    else if s.Busy(now) then Enqueued(s, cue)
    else
      var replaced := cue.Urgent() && s.informational.Some?;
      var s' := if cue.Urgent() then s.(informational := None) else s;
      if s'.urgent == None && s'.informational == None then
        (if cue.Urgent() then s'.(urgent := Some(cue)) else s'.(informational := Some(cue)),
         if replaced then Dropped else Ready)
      else Enqueued(s', cue)
  }

  function Taken(s: State, now: u32): (State, Option<Cue>) {
    if s.silent || s.Busy(now) then (s, None)
    else if s.urgent.Some? then (s.(urgent := None), s.urgent)
    else (s.(informational := None), s.informational)
  }

  function Silenced(s: State, silent: bool): State {
    if silent then s.(silent := true, urgent := None, informational := None) else s.(silent := false)
  }

  class AudioAnnunciator {
    var silent: bool
    var urgent: Option<Cue>
    var informational: Option<Cue>
    var busyUntilMs: u32

    function Contents(): State
      reads this
    {
      State(silent, urgent, informational, busyUntilMs)
    }

    constructor ()
      ensures Contents() == INITIAL
    {
      silent, urgent, informational, busyUntilMs := false, None, None, 0;
    }

    method SetSilent(silence: bool) returns (dropped: nat)
      modifies this
      ensures Contents() == Silenced(old(Contents()), silence)
      ensures dropped == if silence then |Pending(old(Contents()))| else 0
    {
      silent := silence;
      if !silence {
        return 0;
      }
      dropped := (if urgent.Some? then 1 else 0) + (if informational.Some? then 1 else 0);
      urgent, informational := None, None;
    }

    method Enqueue(cue: Cue) returns (r: RequestResult)
      modifies this
      ensures (Contents(), r) == Enqueued(old(Contents()), cue)
    {
      if cue.Urgent() {
        var replacedInformation := informational.Some?;
        informational := None;
        match urgent {
          case Some(pending) =>
            if pending.Priority() <= cue.Priority() {
              urgent := Some(cue);
            }
            return Dropped;
          case None =>
            urgent := Some(cue);
            return if replacedInformation then Dropped else Queued;
        }
      } else {
        var replaced := informational.Some?;
        informational := Some(cue);
        return if replaced then Dropped else Queued;
      }
    }

    method Request(cue: Cue, now: u32) returns (r: RequestResult)
      modifies this
      ensures (Contents(), r) == Requested(old(Contents()), cue, now)
    {
      if silent {
        return Suppressed;
      }
      if !TimeReached(now, busyUntilMs) {
        r := Enqueue(cue);
        return;
      }
      var replacedInformation := cue.Urgent() && informational.Some?;
      if cue.Urgent() {
        informational := None;
      }
      if urgent == None && informational == None {
        if cue.Urgent() {
          urgent := Some(cue);
        } else {
          informational := Some(cue);
        }
        return if replacedInformation then Dropped else Ready;
      }
      r := Enqueue(cue);
    }

    method TakeReady(now: u32) returns (cue: Option<Cue>)
      modifies this
      ensures (Contents(), cue) == Taken(old(Contents()), now)
    {
      if silent || !TimeReached(now, busyUntilMs) {
        return None;
      }
      if urgent.Some? {
        cue, urgent := urgent, None;
      } else {
        cue, informational := informational, None;
      }
    }

    method MarkPlayed(now: u32, durationMs: u32)
      modifies this
      ensures Contents() == old(Contents()).(busyUntilMs := After(now, durationMs))
    {
      busyUntilMs := (now + durationMs) % TWO_TO_THE_32;
    }
  }

  // ---------------------------------------------------------------- what one request loses

  function Slot(o: Option<Cue>): multiset<Cue> { if o.Some? then multiset{o.value} else multiset{} }

  function Pending(s: State): multiset<Cue> { Slot(s.urgent) + Slot(s.informational) }

  /** What an unsuppressed request pushes out: the weaker of two urgent cues (the
      older among equals), and whatever information was waiting, unless an
      informational cue finds its slot empty. */
  function Lost(s: State, cue: Cue): multiset<Cue> {
    if cue.Urgent() && s.urgent.Some? then
      multiset{if s.urgent.value.Priority() > cue.Priority() then cue else s.urgent.value} + Slot(s.informational)
    else Slot(s.informational)
  }

  /** Whether playback is busy decides only between `Ready` and `Queued`. */
  lemma BusyDecidesOnlyTheAnswer(s: State, cue: Cue, now: u32)
    requires !s.silent
    ensures Requested(s, cue, now).0 == Enqueued(s, cue).0
    ensures Requested(s, cue, now).1 == Dropped <==> Enqueued(s, cue).1 == Dropped
    ensures Requested(s, cue, now).1 == Ready <==> !s.Busy(now) && s.urgent == None && s.informational == None
    ensures Requested(s, cue, now).1 != Suppressed
  {
  }

  lemma SlotSize(o: Option<Cue>)
    ensures |Slot(o)| == if o.Some? then 1 else 0
  {
  }

  lemma LostSize(s: State, cue: Cue)
    ensures |Lost(s, cue)|
         == (if cue.Urgent() && s.urgent.Some? then 1 else 0) + (if s.informational.Some? then 1 else 0)
  {
    SlotSize(s.informational);
  }

  /** A request invents no cue and mislays none: what was pending and the new cue
      are what is pending now and what was lost. */
  lemma RequestConserves(s: State, cue: Cue, now: u32)
    requires !s.silent
    ensures Pending(s) + multiset{cue} == Pending(Requested(s, cue, now).0) + Lost(s, cue)
  {
    BusyDecidesOnlyTheAnswer(s, cue, now);
    EnqueueConserves(s, cue);
  }

  lemma EnqueueConserves(s: State, cue: Cue)
    ensures Pending(s) + multiset{cue} == Pending(Enqueued(s, cue).0) + Lost(s, cue)
  {
    if cue.Urgent() && s.urgent.Some? {
      var pending := s.urgent.value;
      if pending.Priority() > cue.Priority() {
        OneStays(pending, cue, Slot(s.informational));
      } else {
        OneStays(cue, pending, Slot(s.informational));
      }
    } else if cue.Urgent() {
      OneStays(cue, cue, Slot(s.informational));
    } else {
      LastReplaced(Slot(s.urgent), Slot(s.informational), cue);
    }
  }

  lemma OneStays<T>(stays: T, goes: T, info: multiset<T>)
    ensures multiset{stays} + info + multiset{goes} == multiset{stays} + multiset{} + (multiset{goes} + info)
    ensures multiset{goes} + info + multiset{stays} == multiset{stays} + multiset{} + (multiset{goes} + info)
    ensures multiset{} + info + multiset{stays} == multiset{stays} + multiset{} + info
  {
  }

  lemma LastReplaced<T>(first: multiset<T>, second: multiset<T>, t: T)
    ensures first + second + multiset{t} == first + multiset{t} + second
  {
  }

  /** `Dropped` is reported exactly when a cue is lost, and stands for two exactly
      when an urgent cue meets both slots full. */
  lemma DroppedIff(s: State, cue: Cue, now: u32)
    requires !s.silent
    ensures Requested(s, cue, now).1 == Dropped <==> |Lost(s, cue)| > 0
    ensures |Lost(s, cue)| == 2 <==> cue.Urgent() && s.urgent.Some? && s.informational.Some?
    ensures |Lost(s, cue)| <= 2
  {
    BusyDecidesOnlyTheAnswer(s, cue, now);
    LostSize(s, cue);
  }

  // ---------------------------------------------------------------- runs

  datatype Event =
    | Request(cue: Cue, now: u32)
    | Take(now: u32)
    | SetSilent(silent: bool)
    | Played(now: u32, durationMs: u32)

  function Next(s: State, e: Event): State {
    match e
    case Request(cue, now) => Requested(s, cue, now).0
    case Take(now) => Taken(s, now).0
    case SetSilent(silent) => Silenced(s, silent)
    case Played(now, durationMs) => s.(busyUntilMs := After(now, durationMs))
  }

  function Before(run: seq<Event>): seq<Event>
    requires run != []
  {
    run[..|run| - 1]
  }

  function StateAfter(run: seq<Event>): State {
    if run == [] then INITIAL else Next(StateAfter(Before(run)), run[|run| - 1])
  }

  /** Where every unsuppressed request of a run has gone. */
  datatype Account = Account(asked: multiset<Cue>, taken: multiset<Cue>, silenced: multiset<Cue>,
                             lost: multiset<Cue>, dropped: nat)

  function Posted(a: Account, s: State, e: Event): Account {
    match e
    case Request(cue, now) =>
      if s.silent then a
      else a.(asked := a.asked + multiset{cue},
              lost := a.lost + Lost(s, cue),
              dropped := a.dropped + if Requested(s, cue, now).1 == Dropped then 1 else 0)
    case Take(now) => a.(taken := a.taken + Slot(Taken(s, now).1))
    case SetSilent(silent) => if silent then a.(silenced := a.silenced + Pending(s)) else a
    case Played(_, _) => a
  }

  function AccountOf(run: seq<Event>): Account {
    if run == [] then Account(multiset{}, multiset{}, multiset{}, multiset{}, 0)
    else Posted(AccountOf(Before(run)), StateAfter(Before(run)), run[|run| - 1])
  }

  /** Conservation, cue by cue: what was asked has been taken, is pending, was
      dropped by silencing, or was lost; and `Dropped` counts the losses to within
      a factor of two. */
  lemma {:induction false} CuesAreConserved(run: seq<Event>)
    ensures var a, s := AccountOf(run), StateAfter(run);
            && a.asked == a.taken + Pending(s) + a.silenced + a.lost
            && a.dropped <= |a.lost| <= 2 * a.dropped
  {
    if run == [] {
    } else {
      CuesAreConserved(Before(run));
      PostingConserves(AccountOf(Before(run)), StateAfter(Before(run)), run[|run| - 1]);
    }
  }

  lemma PostingConserves(a: Account, s: State, e: Event)
    requires a.asked == a.taken + Pending(s) + a.silenced + a.lost
    requires a.dropped <= |a.lost| <= 2 * a.dropped
    ensures var a', s' := Posted(a, s, e), Next(s, e);
            && a'.asked == a'.taken + Pending(s') + a'.silenced + a'.lost
            && a'.dropped <= |a'.lost| <= 2 * a'.dropped
  {
    match e
    case Request(cue, now) =>
      if !s.silent {
        DroppedIff(s, cue, now);
        RequestConserves(s, cue, now);
        Balance(a.taken + a.silenced, Pending(s), a.lost, multiset{cue}, Pending(Next(s, e)), Lost(s, cue));
        Rearrange(a.taken, Pending(s), a.silenced, a.lost);
        Rearrange(a.taken, Pending(Next(s, e)), a.silenced, a.lost + Lost(s, cue));
      }
    case Take(now) =>
      TakeConserves(s, now);
      Spread(a.taken, Slot(Taken(s, now).1), Pending(Next(s, e)), a.silenced, a.lost);
    case SetSilent(silent) =>
      if silent {
        Sweep(a.taken, Pending(s), a.silenced, a.lost);
        assert Pending(Next(s, e)) == multiset{};
      }
    case Played(_, _) =>
  }

  lemma Rearrange<T>(t: multiset<T>, p: multiset<T>, s: multiset<T>, l: multiset<T>)
    ensures t + p + s + l == t + s + (p + l)
  {
  }

  lemma Balance<T>(rest: multiset<T>, p: multiset<T>, l: multiset<T>, c: multiset<T>, p': multiset<T>,
                   lost: multiset<T>)
    requires p + c == p' + lost
    ensures rest + (p + l) + c == rest + (p' + (l + lost))
  {
    assert p + l + c == (p + c) + l;
    assert p' + (l + lost) == (p' + lost) + l;
    assert rest + (p + l) + c == rest + (p + l + c);
  }

  lemma Spread<T>(t: multiset<T>, x: multiset<T>, p': multiset<T>, s: multiset<T>, l: multiset<T>)
    ensures t + (x + p') + s + l == (t + x) + p' + s + l
  {
    assert t + (x + p') == (t + x) + p';
  }

  lemma Sweep<T>(t: multiset<T>, p: multiset<T>, s: multiset<T>, l: multiset<T>)
    ensures t + p + s + l == t + multiset{} + (s + p) + l
  {
    assert t + p + s == t + multiset{} + (s + p);
  }

  lemma TakeConserves(s: State, now: u32)
    ensures Pending(s) == Slot(Taken(s, now).1) + Pending(Taken(s, now).0)
  {
  }

  /** The urgent requests let through since the urgent slot was last empty. */
  function UrgentSince(run: seq<Event>): seq<Cue> {
    if run == [] then []
    else
      var s, e, since := StateAfter(Before(run)), run[|run| - 1], UrgentSince(Before(run));
      if e.Request? && !s.silent && e.cue.Urgent() then since + [e.cue]
      else if StateAfter(run).urgent == None then []
      else since
  }

  /** The urgent slot holds the highest-priority of them, the newest among equals. */
  predicate Foremost(since: seq<Cue>, slot: Option<Cue>) {
    if since == [] then slot == None
    else
      && slot.Some?
      && exists k :: && 0 <= k < |since| && since[k] == slot.value
                     && (forall j :: 0 <= j < |since| ==> since[j].Priority() <= slot.value.Priority())
                     && (forall j :: k < j < |since| ==> since[j].Priority() < slot.value.Priority())
  }

  lemma ForemostOfMore(since: seq<Cue>, slot: Option<Cue>, cue: Cue)
    requires Foremost(since, slot)
    ensures Foremost(since + [cue],
                     if slot.Some? && slot.value.Priority() > cue.Priority() then slot else Some(cue))
  {
    var more := since + [cue];
    if since != [] && slot.value.Priority() > cue.Priority() {
      var k :| && 0 <= k < |since| && since[k] == slot.value
               && (forall j :: 0 <= j < |since| ==> since[j].Priority() <= slot.value.Priority())
               && (forall j :: k < j < |since| ==> since[j].Priority() < slot.value.Priority());
      assert more[k] == slot.value;
    } else {
      assert more[|since|] == cue;
    }
  }

  lemma UrgentStep(since: seq<Cue>, s: State, e: Event)
    requires Foremost(since, s.urgent)
    ensures var s' := Next(s, e);
            Foremost(if e.Request? && !s.silent && e.cue.Urgent() then since + [e.cue]
                     else if s'.urgent == None then [] else since, s'.urgent)
  {
    if e.Request? && !s.silent && e.cue.Urgent() {
      ForemostOfMore(since, s.urgent, e.cue);
    }
  }

  lemma {:induction false} UrgentSlotIsForemost(run: seq<Event>)
    ensures Foremost(UrgentSince(run), StateAfter(run).urgent)
  {
    if run == [] {
    } else {
      UrgentSlotIsForemost(Before(run));
      UrgentStep(UrgentSince(Before(run)), StateAfter(Before(run)), run[|run| - 1]);
    }
  }

  // ---------------------------------------------------------------- what comes out, and when

  /** The priorities, from nothing at all up to the emergency stop alone; a cue is
      urgent from a low battery on. */
  lemma PriorityTable(c: Cue)
    ensures c.Urgent() <==> c !in {NoCue, Armed, SafetyClear, Recovery, AuthorityAcquired, DockContact,
                                   ServiceComplete, DockSeen}
    ensures 0 <= c.Priority() <= 8
    ensures c.Priority() == 8 <==> c == EStop
    ensures c.Priority() == 7 <==> c in {Cliff, WheelDrop, Tilt, Impact}
    ensures c.Priority() == 6 <==> c in {HeartbeatLost, AuthorityLost, AuthorityReplaced, CreateError}
    ensures c.Priority() == 5 <==> c == BumpContact
    ensures c.Priority() == 4 <==> c in {RuntimeError, ServiceFailure, ImuFault, MotionInconsistency}
    ensures c.Priority() == 3 <==> c == LowBattery
    ensures c.Priority() == 2 <==> c in {SafetyClear, Recovery}
    ensures c.Priority() == 0 <==> c == NoCue
  {
  }

  /** Playback that ends `ms` after `t` is over, as far as a time `d` after `t` can
      tell, for 2^31 - 1 milliseconds from its end on. */
  predicate Idle(ms: int, d: int) { ms <= d < ms + 0x7fff_ffff }

  lemma BusyWindow(s: State, t: u32, ms: int, d: int)
    requires 0 <= ms <= 0x8000_0001 && 0 <= d < TWO_TO_THE_32 && s.busyUntilMs == After(t, ms)
    ensures s.Busy(After(t, d)) <==> !Idle(ms, d)
  {
    DeadlineWindow(t, ms, d);
  }

  /** Where a request leaves the slots, and what it is told. */
  lemma RequestOutcome(s: State, cue: Cue, t: u32, ms: int, d: int)
    requires 0 <= ms <= 0x8000_0001 && 0 <= d < TWO_TO_THE_32 && s.busyUntilMs == After(t, ms)
    ensures var (s', r) := Requested(s, cue, After(t, d));
            if s.silent then s' == s && r == Suppressed
            else if cue.Urgent() then
              && s' == s.(urgent := s'.urgent, informational := None)
              && s'.urgent == (if s.urgent.Some? && s.urgent.value.Priority() > cue.Priority() then s.urgent
                               else Some(cue))
              && r == if s.urgent.Some? || s.informational.Some? then Dropped
                      else if Idle(ms, d) then Ready else Queued
            else
              && s' == s.(informational := Some(cue))
              && r == if s.informational.Some? then Dropped
                      else if s.urgent == None && Idle(ms, d) then Ready else Queued
  {
    BusyWindow(s, t, ms, d);
  }

  /** A take yields a cue exactly when the annunciator is not silent, playback has
      ended and a cue is pending; the urgent one comes first, only the cue taken
      leaves its slot, and a take that yields nothing changes nothing. */
  lemma TakeYieldsIff(s: State, t: u32, ms: int, d: int)
    requires 0 <= ms <= 0x8000_0001 && 0 <= d < TWO_TO_THE_32 && s.busyUntilMs == After(t, ms)
    ensures var (s', cue) := Taken(s, After(t, d));
            && (cue.Some? <==> !s.silent && ms <= d < ms + 0x7fff_ffff && (s.urgent.Some? || s.informational.Some?))
            && (cue.Some? && s.urgent.Some? ==> cue == s.urgent && s' == s.(urgent := None))
            && (cue.Some? && s.urgent.None? ==> cue == s.informational && s' == s.(informational := None))
            && (cue.None? ==> s' == s)
  {
    BusyWindow(s, t, ms, d);
  }

  /** No cue is started strictly between `i` and `j`. */
  predicate NotPlayed(run: seq<Event>, i: nat, j: nat)
    requires j <= |run|
  {
    forall k :: i < k < j ==> !run[k].Played?
  }

  /** Silence is neither set nor lifted strictly between `i` and `j`. */
  predicate NotToggled(run: seq<Event>, i: nat, j: nat)
    requires j <= |run|
  {
    forall k :: i < k < j ==> !run[k].SetSilent?
  }

  lemma {:induction false} PlaybackLasts(run: seq<Event>, i: nat, j: nat)
    requires i < j <= |run| && run[i].Played? && NotPlayed(run, i, j)
    ensures StateAfter(run[..j]).busyUntilMs == After(run[i].now, run[i].durationMs)
    decreases j
  {
    var m := j - 1;
    assert run[..j][..m] == run[..m];
    if m == i {
    } else {
      PlaybackLasts(run, i, m);
    }
  }

  lemma {:induction false} SilenceLasts(run: seq<Event>, i: nat, j: nat)
    requires i < j <= |run| && run[i].SetSilent? && NotToggled(run, i, j)
    ensures StateAfter(run[..j]).silent == run[i].silent
    ensures run[i].silent ==> StateAfter(run[..j]).urgent == None && StateAfter(run[..j]).informational == None
    decreases j
  {
    var m := j - 1;
    assert run[..j][..m] == run[..m];
    if m == i {
    } else {
      SilenceLasts(run, i, m);
    }
  }

  /** In every run: after a cue of `ms` milliseconds has been started, and until
      another is, no take at the times in [start, start + ms) yields anything. */
  lemma NothingDuringPlayback(run: seq<Event>, i: nat, j: nat, d: int)
    requires i < j < |run| && run[i].Played? && NotPlayed(run, i, j)
    requires 0 <= d < run[i].durationMs <= 0x8000_0001
    requires run[j] == Take(After(run[i].now, d))
    ensures Taken(StateAfter(run[..j]), run[j].now).1 == None
  {
    PlaybackLasts(run, i, j);
    TakeYieldsIff(StateAfter(run[..j]), run[i].now, run[i].durationMs, d);
  }

  /** ... and at the times from its end on, for 2^31 - 1 milliseconds, a take
      delivers what is pending unless silenced. */
  lemma DeliveredAfterPlayback(run: seq<Event>, i: nat, j: nat, d: int)
    requires i < j < |run| && run[i].Played? && NotPlayed(run, i, j)
    requires run[i].durationMs <= 0x8000_0001 && run[i].durationMs <= d < run[i].durationMs + 0x7fff_ffff
    requires d < TWO_TO_THE_32 && run[j] == Take(After(run[i].now, d))
    ensures var s := StateAfter(run[..j]);
            Taken(s, run[j].now).1 == if s.silent then None else if s.urgent.Some? then s.urgent else s.informational
  {
    PlaybackLasts(run, i, j);
    TakeYieldsIff(StateAfter(run[..j]), run[i].now, run[i].durationMs, d);
  }

  /** While silenced nothing is let through, kept or taken. */
  lemma SilenceIsSilent(run: seq<Event>, i: nat, j: nat)
    requires i < j < |run| && run[i] == SetSilent(true) && NotToggled(run, i, j)
    ensures run[j].Request? ==> Requested(StateAfter(run[..j]), run[j].cue, run[j].now).1 == Suppressed
    ensures run[j].Take? ==> Taken(StateAfter(run[..j]), run[j].now).1 == None
    ensures !run[j].SetSilent? ==> Pending(StateAfter(run[..j + 1])) == multiset{}
  {
    SilenceLasts(run, i, j);
    assert run[..j + 1][..j] == run[..j];
    SlotSize(StateAfter(run[..j]).urgent);
  }

  lemma EStopStep(s: State, e: Event)
    requires !s.silent && (s.urgent == Some(EStop) || (e.Request? && e.cue == EStop))
    requires !(e.SetSilent? && e.silent) && (e.Take? ==> Taken(s, e.now).1 == None)
    ensures Next(s, e).urgent == Some(EStop) && !Next(s, e).silent
  {
    if e.Request? {
      BusyDecidesOnlyTheAnswer(s, e.cue, e.now);
    }
  }

  /** An emergency stop let through while not silenced stays at the head of the
      queue until it is taken or silenced, whatever else is requested. */
  lemma {:induction false} EStopStays(run: seq<Event>, i: nat, j: nat)
    requires i < j <= |run| && run[i].Request? && run[i].cue == EStop && !StateAfter(run[..i]).silent
    requires forall k :: i < k < j ==>
               && !(run[k].SetSilent? && run[k].silent)
               && (run[k].Take? ==> Taken(StateAfter(run[..k]), run[k].now).1 == None)
    ensures StateAfter(run[..j]).urgent == Some(EStop) && !StateAfter(run[..j]).silent
    decreases j
  {
    var m := j - 1;
    assert run[..j][..m] == run[..m];
    if m == i {
    } else {
      EStopStays(run, i, m);
    }
    EStopStep(StateAfter(run[..m]), run[m]);
  }

  /** So it is delivered by the first take that finds playback at an end: a take
      before that, unless silenced, yields nothing. */
  lemma EStopIsNext(run: seq<Event>, i: nat, j: nat, t: u32, ms: int, d: int)
    requires i < j < |run| && run[i].Request? && run[i].cue == EStop && !StateAfter(run[..i]).silent
    requires forall k :: i < k < j ==>
               && !(run[k].SetSilent? && run[k].silent)
               && (run[k].Take? ==> Taken(StateAfter(run[..k]), run[k].now).1 == None)
    requires 0 <= ms <= 0x8000_0001 && 0 <= d < TWO_TO_THE_32
    requires StateAfter(run[..j]).busyUntilMs == After(t, ms) && run[j] == Take(After(t, d))
    ensures Taken(StateAfter(run[..j]), run[j].now).1 == if ms <= d < ms + 0x7fff_ffff then Some(EStop) else None
  {
    EStopStays(run, i, j);
    TakeYieldsIff(StateAfter(run[..j]), t, ms, d);
  }
}
