/** The durable consolidation coordinator
    (crates/pete-higher-brain/src/coordinator.rs).  The backend is an oracle: each
    tick makes at most one call and is told its answer.  The event list, error
    texts and time stamps are left out. */
module Coordinator {
  import opened Machine

  type Id = string

  datatype Phase =
    | CheckpointExperience | DiscoverForebrain | TransferBundles | SubmitJobs | AwaitJobs
    | ReturnCandidates | StageCandidates | AwaitActivation | Activate | Complete
  {
    function Rank(): nat {
      match this
      case CheckpointExperience => 0
      case DiscoverForebrain => 1
      case TransferBundles => 2
      case SubmitJobs => 3
      case AwaitJobs => 4
      case ReturnCandidates => 5
      case StageCandidates => 6
      case AwaitActivation => 7
      case Activate => 8
      case Complete => 9
    }
  }

  datatype Scope = Discover | TransferExperience | SubmitJob | StageCandidate | ActivateCandidate

  datatype Readiness = Readiness(
    createStopped: bool, docked: bool, charging: bool, motionAuthorityActive: bool,
    externalPower: bool, suitable: bool)

  datatype Cycle = Cycle(
    phase: Phase,
    forebrain: Option<Id>,
    bundles: seq<Id>,
    jobs: seq<Id>,
    candidates: seq<Id>,
    retries: nat,
    failed: bool,
    activationRequested: bool)

  const FRESH := Cycle(CheckpointExperience, None, [], [], [], 0, false, false)

  // ---------------------------------------------------------------- backend calls

  datatype Call =
    | CallCheckpoint
    | CallDiscover
    | CallTransfer(forebrain: Id, bundles: seq<Id>)
    | CallSubmit(forebrain: Id, bundles: seq<Id>)
    | CallJobsComplete(forebrain: Id, jobs: seq<Id>)
    | CallReturn(forebrain: Id, jobs: seq<Id>)
    | CallStage(candidates: seq<Id>)
    | CallActivate(candidates: seq<Id>)
  {
    function Phase(): Phase {
      match this
      case CallCheckpoint => CheckpointExperience
      case CallDiscover => DiscoverForebrain
      case CallTransfer(_, _) => TransferBundles
      case CallSubmit(_, _) => SubmitJobs
      case CallJobsComplete(_, _) => AwaitJobs
      case CallReturn(_, _) => ReturnCandidates
      case CallStage(_) => StageCandidates
      case CallActivate(_) => Activate
    }
  }

  /** A failure, or whichever of the values the call returns. */
  datatype Answer = Failed | Answered(ids: seq<Id>, id: Id, complete: bool)

  /** A call made, and whether what came of it was saved before the process died. */
  datatype Entry = Entry(call: Call, answer: Answer, saved: bool)

  /** The call a tick makes.  Without a forebrain the phases that need one fail
      before calling. */
  function CallOf(c: Cycle): Option<Call> {
    match c.phase
    case CheckpointExperience => Some(CallCheckpoint)
    case DiscoverForebrain => Some(CallDiscover)
    case TransferBundles => if c.forebrain.Some? then Some(CallTransfer(c.forebrain.value, c.bundles)) else None
    case SubmitJobs => if c.forebrain.Some? then Some(CallSubmit(c.forebrain.value, c.bundles)) else None
    case AwaitJobs => if c.forebrain.Some? then Some(CallJobsComplete(c.forebrain.value, c.jobs)) else None
    case ReturnCandidates => if c.forebrain.Some? then Some(CallReturn(c.forebrain.value, c.jobs)) else None
    case StageCandidates => Some(CallStage(c.candidates))
    case AwaitActivation => None
    case Activate => Some(CallActivate(c.candidates))
    case Complete => None
  }

  /** A call that lets its phase end. */
  predicate Succeeds(e: Entry) {
    && e.saved
    && e.answer.Answered?
    && (e.call.CallCheckpoint? ==> e.answer.ids != [])
    && (e.call.CallJobsComplete? ==> e.answer.complete)
  }

  function Advanced(c: Cycle, next: Phase): Cycle { c.(phase := next, failed := false) }

  function Retrying(c: Cycle): Cycle {
    c.(retries := if c.retries < TWO_TO_THE_32 - 1 then c.retries + 1 else c.retries, failed := true)
  }

  function Ticked(c: Cycle, a: Answer): Cycle {
    match c.phase
    case CheckpointExperience =>
      if a.Failed? then Retrying(c)
      else if a.ids == [] then Retrying(c.(bundles := []))
      else Advanced(c.(bundles := a.ids), DiscoverForebrain)
    case DiscoverForebrain =>
      if a.Failed? then Retrying(c) else Advanced(c.(forebrain := Some(a.id)), TransferBundles)
    case TransferBundles =>
      if c.forebrain.None? || a.Failed? then Retrying(c) else Advanced(c, SubmitJobs)
    case SubmitJobs =>
      if c.forebrain.None? || a.Failed? then Retrying(c) else Advanced(c.(jobs := a.ids), AwaitJobs)
    case AwaitJobs =>
      if c.forebrain.None? || a.Failed? then Retrying(c)
      else if a.complete then Advanced(c, ReturnCandidates) else Advanced(c, AwaitJobs)
    case ReturnCandidates =>
      if c.forebrain.None? || a.Failed? then Retrying(c) else Advanced(c.(candidates := a.ids), StageCandidates)
    case StageCandidates =>
      if a.Failed? then Retrying(c) else Advanced(c, AwaitActivation)
    case AwaitActivation =>
      if c.activationRequested then Advanced(c, Activate) else Advanced(c, AwaitActivation)
    case Activate =>
      if a.Failed? then Retrying(c) else Advanced(c, Complete)
    case Complete => Advanced(c, Complete)
  }

  // ---------------------------------------------------------------- operations

  /** In a cut tick the process dies after the backend has answered and before the
      state is saved, and the coordinator is opened again.  (A cut before the call,
      or in another operation before its save, is a mere reopening.) */
  datatype Op =
    | Start(readiness: Readiness, scopes: set<Scope>)
    | Tick(answer: Answer)
    | CutTick(answer: Answer)
    | PoweredTick(consolidationReady: bool, answer: Answer)
    | Approve(scopes: set<Scope>)
    | Reopen

  /** The coordinator and its state file, with the history of the current cycle:
      the calls made and whether an authorised approval has been given. */
  datatype World = World(cycle: Option<Cycle>, file: Option<Cycle>, calls: seq<Entry>, approved: bool)

  const EMPTY := World(None, None, [], false)

  predicate MayStart(w: World, r: Readiness, scopes: set<Scope>) {
    && {Discover, TransferExperience, SubmitJob, StageCandidate} <= scopes
    && r.createStopped && r.docked && r.charging && !r.motionAuthorityActive
    && r.externalPower && r.suitable
    && (w.cycle.Some? ==> w.cycle.value.phase == Complete)
  }

  predicate MayApprove(w: World, scopes: set<Scope>) {
    ActivateCandidate in scopes && w.cycle.Some? && w.cycle.value.phase == AwaitActivation
  }

  function Saved(w: World, c: Cycle): World { w.(cycle := Some(c), file := Some(c)) }

  function AfterTick(w: World, a: Answer): World {
    if w.cycle.None? then w
    else
      var c := w.cycle.value;
      var made := CallOf(c);
      Saved(w, Ticked(c, a)).(calls := if made.Some? then w.calls + [Entry(made.value, a, true)] else w.calls)
  }

  function AfterCut(w: World, a: Answer): World {
    if w.cycle.None? || CallOf(w.cycle.value).None? then w.(cycle := w.file)
    else w.(cycle := w.file, calls := w.calls + [Entry(CallOf(w.cycle.value).value, a, false)])
  }

  function After(w: World, op: Op): World {
    match op
    case Start(r, scopes) =>
      if MayStart(w, r, scopes) then Saved(w, FRESH).(calls := [], approved := false) else w
    case Tick(a) => AfterTick(w, a)
    case CutTick(a) => AfterCut(w, a)
    case PoweredTick(ready, a) =>
      if w.cycle.None? then w
      else if !ready then Saved(w, w.cycle.value.(failed := true))
      else AfterTick(w, a)
    case Approve(scopes) =>
      if MayApprove(w, scopes) then Saved(w, w.cycle.value.(activationRequested := true)).(approved := true) else w
    case Reopen => w.(cycle := w.file)
  }

  class ConsolidationCoordinator {
    var cycle: Option<Cycle>
    var file: Option<Cycle>
    ghost var calls: seq<Entry>
    ghost var approved: bool

    ghost function Contents(): World
      reads this
    {
      World(cycle, file, calls, approved)
    }

    constructor ()
      ensures Contents() == EMPTY
    {
      cycle, file, calls, approved := None, None, [], false;
    }

    method Persist()
      modifies this`file
      ensures file == cycle
    {
      file := cycle;
    }

    method StartCycle(r: Readiness, scopes: set<Scope>) returns (started: bool)
      modifies this
      ensures started == MayStart(old(Contents()), r, scopes)
      ensures Contents() == After(old(Contents()), Start(r, scopes))
    {
      if !({Discover, TransferExperience, SubmitJob, StageCandidate} <= scopes) {
        return false;
      }
      if !r.createStopped || !r.docked || !r.charging || r.motionAuthorityActive {
        return false;
      }
      if !r.externalPower || !r.suitable {
        return false;
      }
      if cycle.Some? && cycle.value.phase != Complete {
        return false;
      }
      cycle := Some(FRESH);
      calls, approved := [], false;
      Persist();
      return true;
    }

    /** The body of one phase: whether it went well, the ids it stored, and the
        phase it leads to. */
    static method RunPhase(c0: Cycle, answer: Answer) returns (ok: bool, c: Cycle, next: Option<Phase>)
      ensures Ticked(c0, answer)
           == if !ok then Retrying(c) else Advanced(c, if next.Some? then next.value else c.phase)
    {
      ok := CallOf(c0).None? || answer.Answered?;
      next := None;
      c := c0;
      match c.phase {
        case CheckpointExperience =>
          if ok {
            c := c.(bundles := answer.ids);
            ok := c.bundles != [];
            next := Some(DiscoverForebrain);
          }
        case DiscoverForebrain =>
          if ok {
            c := c.(forebrain := Some(answer.id));
            next := Some(TransferBundles);
          }
        case TransferBundles =>
          ok := ok && c.forebrain.Some?;
          next := Some(SubmitJobs);
        case SubmitJobs =>
          ok := ok && c.forebrain.Some?;
          if ok {
            c := c.(jobs := answer.ids);
          }
          next := Some(AwaitJobs);
        case AwaitJobs =>
          ok := ok && c.forebrain.Some?;
          if ok && answer.complete {
            next := Some(ReturnCandidates);
          }
        case ReturnCandidates =>
          ok := ok && c.forebrain.Some?;
          if ok {
            c := c.(candidates := answer.ids);
          }
          next := Some(StageCandidates);
        case StageCandidates =>
          next := Some(AwaitActivation);
        case AwaitActivation =>
          if c.activationRequested {
            next := Some(Activate);
          }
        case Activate =>
          next := Some(Complete);
        case Complete =>
      }
    }

    /** `answer` is what the backend replies to the call this tick makes, if any. */
    method TickCycle(answer: Answer) returns (phase: Option<Phase>)
      modifies this
      ensures Contents() == After(old(Contents()), Tick(answer))
      ensures phase == if cycle.Some? then Some(cycle.value.phase) else None
    {
      if cycle.None? {
        return None;
      }
      var c := cycle.value;
      var made := CallOf(c);
      if made.Some? {
        calls := calls + [Entry(made.value, answer, true)];
      }
      var ok, updated, next := RunPhase(c, answer);
      c := updated;
      if ok {
        c := c.(failed := false);
        if next.Some? {
          c := c.(phase := next.value);
        }
      } else {
        c := c.(retries := if c.retries < TWO_TO_THE_32 - 1 then c.retries + 1 else c.retries, failed := true);
      }
      cycle := Some(c);
      Persist();
      return Some(c.phase);
    }

    method TickWithPowerAssessment(consolidationReady: bool, answer: Answer) returns (phase: Option<Phase>)
      modifies this
      ensures Contents() == After(old(Contents()), PoweredTick(consolidationReady, answer))
      ensures phase == if cycle.Some? then Some(cycle.value.phase) else None
    {
      if cycle.None? {
        return None;
      }
      if !consolidationReady {
        cycle := Some(cycle.value.(failed := true));
        Persist();
        return Some(cycle.value.phase);
      }
      Persist();
      phase := TickCycle(answer);
    }

    method ApproveActivation(scopes: set<Scope>) returns (accepted: bool)
      modifies this
      ensures accepted == MayApprove(old(Contents()), scopes)
      ensures Contents() == After(old(Contents()), Approve(scopes))
    {
      if ActivateCandidate !in scopes || cycle.None? || cycle.value.phase != AwaitActivation {
        return false;
      }
      cycle := Some(cycle.value.(activationRequested := true));
      approved := true;
      Persist();
      return true;
    }

    method Open()
      modifies this`cycle
      ensures Contents() == After(old(Contents()), Reopen)
    {
      cycle := file;
    }
  }

  // ---------------------------------------------------------------- what every operation keeps

  /** The answer with which a phase of this cycle ended, read off the calls. */
  function Yield(calls: seq<Entry>, phase: Phase): Option<Answer> {
    if calls == [] then None
    else
      var last := calls[|calls| - 1];
      if last.call.Phase() == phase && Succeeds(last) then Some(last.answer)
      else Yield(calls[..|calls| - 1], phase)
  }

  function YieldedIds(calls: seq<Entry>, phase: Phase): seq<Id> {
    match Yield(calls, phase)
    case Some(Answered(ids, _, _)) => ids
    case _ => []
  }

  predicate YieldedForebrain(calls: seq<Entry>, forebrain: Id) {
    match Yield(calls, DiscoverForebrain)
    case Some(Answered(_, id, _)) => id == forebrain
    case _ => false
  }

  /** The arguments of a call are what earlier calls of the same cycle yielded. */
  predicate Carries(earlier: seq<Entry>, call: Call) {
    match call
    case CallCheckpoint => true
    case CallDiscover => true
    case CallTransfer(f, bundles) =>
      YieldedForebrain(earlier, f) && bundles == YieldedIds(earlier, CheckpointExperience)
    case CallSubmit(f, bundles) => YieldedForebrain(earlier, f) && bundles == YieldedIds(earlier, CheckpointExperience)
    case CallJobsComplete(f, jobs) => YieldedForebrain(earlier, f) && jobs == YieldedIds(earlier, SubmitJobs)
    case CallReturn(f, jobs) => YieldedForebrain(earlier, f) && jobs == YieldedIds(earlier, SubmitJobs)
    case CallStage(candidates) => candidates == YieldedIds(earlier, ReturnCandidates)
    case CallActivate(candidates) => candidates == YieldedIds(earlier, ReturnCandidates)
  }

  /** Calls come in phase order; one that has not succeeded, or whose success was
      not saved, is made again word for word; each carries the ids obtained before
      it. */
  predicate Orderly(calls: seq<Entry>) {
    forall i :: 0 <= i < |calls| ==>
      && Carries(calls[..i], calls[i].call)
      && (i > 0 ==> if Succeeds(calls[i - 1]) then calls[i - 1].call.Phase().Rank() < calls[i].call.Phase().Rank()
                    else calls[i - 1].call == calls[i].call)
  }

  /** The cycle remembers exactly what its calls have yielded so far. */
  predicate Remembers(c: Cycle, calls: seq<Entry>) {
    && Orderly(calls)
    && (calls != [] ==>
          var last := calls[|calls| - 1];
          if Succeeds(last) then last.call.Phase().Rank() < c.phase.Rank() else CallOf(c) == Some(last.call))
    && (c.phase.Rank() > 0 ==> c.bundles == YieldedIds(calls, CheckpointExperience) && c.bundles != [])
    && (c.phase.Rank() > 1 ==> c.forebrain.Some? && YieldedForebrain(calls, c.forebrain.value))
    && (c.phase.Rank() > 3 ==> c.jobs == YieldedIds(calls, SubmitJobs))
    && (c.phase.Rank() > 5 ==> c.candidates == YieldedIds(calls, ReturnCandidates))
  }

  predicate Inv(w: World) {
    && w.cycle == w.file
    && (w.cycle.Some? ==>
          && Remembers(w.cycle.value, w.calls)
          && ApprovedFirst(w.cycle.value, w.calls, w.approved))
  }

  /** Activation has been requested, entered or called only with an approval. */
  predicate ApprovedFirst(c: Cycle, calls: seq<Entry>, approved: bool) {
    approved || (!c.activationRequested && c.phase.Rank() <= 7
                 && forall i :: 0 <= i < |calls| ==> !calls[i].call.CallActivate?)
  }

  lemma YieldOfMore(calls: seq<Entry>, e: Entry, phase: Phase)
    ensures Yield(calls + [e], phase)
         == if e.call.Phase() == phase && Succeeds(e) then Some(e.answer) else Yield(calls, phase)
  {
    assert (calls + [e])[..|calls|] == calls;
  }

  lemma OrderlyMore(c: Cycle, calls: seq<Entry>, e: Entry)
    requires Remembers(c, calls) && CallOf(c) == Some(e.call)
    ensures Orderly(calls + [e]) && e.call.Phase() == c.phase
  {
    var more := calls + [e];
    assert more[..|calls|] == calls;
    forall i | 0 <= i < |more| ensures Carries(more[..i], more[i].call) {
      if i < |calls| {
        assert more[..i] == calls[..i];
      }
    }
  }

  /** The yields after one more call, all at once. */
  lemma YieldsOfMore(calls: seq<Entry>, e: Entry)
    ensures var more := calls + [e];
            && (!(e.call.CallCheckpoint? && Succeeds(e)) ==>
                  YieldedIds(more, CheckpointExperience) == YieldedIds(calls, CheckpointExperience))
            && (e.call.CallCheckpoint? && Succeeds(e) ==> YieldedIds(more, CheckpointExperience) == e.answer.ids)
            && (!e.call.CallDiscover? ==> forall f :: YieldedForebrain(more, f) == YieldedForebrain(calls, f))
            && (e.call.CallDiscover? && Succeeds(e) ==> YieldedForebrain(more, e.answer.id))
            && (!e.call.CallSubmit? ==> YieldedIds(more, SubmitJobs) == YieldedIds(calls, SubmitJobs))
            && (e.call.CallSubmit? && Succeeds(e) ==> YieldedIds(more, SubmitJobs) == e.answer.ids)
            && (!e.call.CallReturn? ==> YieldedIds(more, ReturnCandidates) == YieldedIds(calls, ReturnCandidates))
            && (e.call.CallReturn? && Succeeds(e) ==> YieldedIds(more, ReturnCandidates) == e.answer.ids)
  {
    YieldOfMore(calls, e, CheckpointExperience);
    YieldOfMore(calls, e, DiscoverForebrain);
    YieldOfMore(calls, e, SubmitJobs);
    YieldOfMore(calls, e, ReturnCandidates);
  }

  lemma CallRemembered(c: Cycle, calls: seq<Entry>, e: Entry)
    requires Remembers(c, calls) && CallOf(c) == Some(e.call)
    ensures Remembers(if e.saved then Ticked(c, e.answer) else c, calls + [e])
  {
    OrderlyMore(c, calls, e);
    YieldsOfMore(calls, e);
    var more := calls + [e];
    assert more[|more| - 1] == e;
  }

  lemma UncalledRemembered(c: Cycle, calls: seq<Entry>, a: Answer)
    requires Remembers(c, calls) && CallOf(c) == None
    ensures Remembers(Ticked(c, a), calls)
  {
    assert c.phase == AwaitActivation || c.phase == Complete;
    assert calls != [] ==> Succeeds(calls[|calls| - 1]);
  }

  lemma TickApprovedFirst(c: Cycle, calls: seq<Entry>, approved: bool, a: Answer)
    requires ApprovedFirst(c, calls, approved)
    ensures ApprovedFirst(Ticked(c, a), calls, approved)
    ensures CallOf(c).Some? ==> ApprovedFirst(Ticked(c, a), calls + [Entry(CallOf(c).value, a, true)], approved)
    ensures CallOf(c).Some? ==> ApprovedFirst(c, calls + [Entry(CallOf(c).value, a, false)], approved)
  {
  }

  lemma TickKeeps(w: World, a: Answer)
    requires Inv(w)
    ensures Inv(AfterTick(w, a))
  {
    if w.cycle.Some? {
      var c := w.cycle.value;
      TickApprovedFirst(c, w.calls, w.approved, a);
      if CallOf(c).Some? {
        CallRemembered(c, w.calls, Entry(CallOf(c).value, a, true));
      } else {
        UncalledRemembered(c, w.calls, a);
      }
    }
  }

  lemma CutKeeps(w: World, a: Answer)
    requires Inv(w)
    ensures Inv(AfterCut(w, a))
  {
    if w.cycle.Some? && CallOf(w.cycle.value).Some? {
      var c := w.cycle.value;
      TickApprovedFirst(c, w.calls, w.approved, a);
      CallRemembered(c, w.calls, Entry(CallOf(c).value, a, false));
    }
  }

  /** Pausing and approving touch only what no call depends on. */
  lemma FlagsRemembered(c: Cycle, c': Cycle, calls: seq<Entry>)
    requires Remembers(c, calls) && c' == c.(failed := c'.failed, activationRequested := c'.activationRequested)
    ensures Remembers(c', calls)
  {
    assert CallOf(c') == CallOf(c);
  }

  lemma PoweredTickKeeps(w: World, ready: bool, a: Answer)
    requires Inv(w)
    ensures Inv(After(w, PoweredTick(ready, a)))
  {
    if ready {
      TickKeeps(w, a);
    } else if w.cycle.Some? {
      FlagsRemembered(w.cycle.value, w.cycle.value.(failed := true), w.calls);
    }
  }

  lemma ApproveKeeps(w: World, scopes: set<Scope>)
    requires Inv(w)
    ensures Inv(After(w, Approve(scopes)))
  {
    if MayApprove(w, scopes) {
      FlagsRemembered(w.cycle.value, w.cycle.value.(activationRequested := true), w.calls);
    }
  }

  lemma Kept(w: World, op: Op)
    requires Inv(w)
    ensures Inv(After(w, op))
  {
    match op
    case Start(r, scopes) =>
    case Tick(a) => TickKeeps(w, a);
    case CutTick(a) => CutKeeps(w, a);
    case PoweredTick(ready, a) => PoweredTickKeeps(w, ready, a);
    case Approve(scopes) => ApproveKeeps(w, scopes);
    case Reopen =>
  }

  // ---------------------------------------------------------------- runs

  function StateAfter(run: seq<Op>): World {
    if run == [] then EMPTY else After(StateAfter(run[..|run| - 1]), run[|run| - 1])
  }

  lemma {:induction false} RunKeeps(run: seq<Op>)
    ensures Inv(StateAfter(run))
  {
    if run == [] {
    } else {
      RunKeeps(run[..|run| - 1]);
      Kept(StateAfter(run[..|run| - 1]), run[|run| - 1]);
    }
  }

  lemma {:induction false} RanksRise(calls: seq<Entry>, i: nat)
    requires Orderly(calls) && i < |calls|
    ensures forall j :: 0 <= j < i ==>
              && calls[j].call.Phase().Rank() <= calls[i].call.Phase().Rank()
              && (Succeeds(calls[j]) ==> calls[j].call.Phase().Rank() < calls[i].call.Phase().Rank())
  {
    if i == 0 {
    } else {
      RanksRise(calls, i - 1);
    }
  }

  /** In every run, cut ticks included, the calls of the current cycle are in phase
      order, each with the ids earlier calls yielded, and candidates are activated
      only after an authorised approval in this very cycle.  A call comes again only
      if it was the last before, has not succeeded or its success was lost, and then
      word for word. */
  lemma CallsAreOrderly(run: seq<Op>, i: nat)
    requires StateAfter(run).cycle.Some? && i < |StateAfter(run).calls|
    ensures var w := StateAfter(run);
            && Carries(w.calls[..i], w.calls[i].call)
            && (forall j :: 0 <= j < i ==> w.calls[j].call.Phase().Rank() <= w.calls[i].call.Phase().Rank())
            && (forall j :: 0 <= j < i && Succeeds(w.calls[j]) ==>
                  w.calls[j].call.Phase().Rank() < w.calls[i].call.Phase().Rank())
            && (i > 0 && !Succeeds(w.calls[i - 1]) ==> w.calls[i].call == w.calls[i - 1].call)
            && (w.calls[i].call.CallActivate? ==> w.approved)
  {
    RunKeeps(run);
    RanksRise(StateAfter(run).calls, i);
  }

  /** A call whose outcome was lost is the one the next tick makes, with the same
      ids; nothing else has changed. */
  lemma LostCallIsRepeated(run: seq<Op>, lost: Answer, a: Answer)
    requires StateAfter(run).cycle.Some? && CallOf(StateAfter(run).cycle.value).Some?
    ensures var w, cut := StateAfter(run), StateAfter(run + [CutTick(lost)]);
            var again := StateAfter(run + [CutTick(lost), Tick(a)]);
            && cut.cycle == w.cycle && cut.file == w.file && cut.approved == w.approved
            && |cut.calls| == |w.calls| + 1 && !Succeeds(cut.calls[|w.calls|])
            && |again.calls| == |w.calls| + 2
            && again.calls[|w.calls| + 1].call == again.calls[|w.calls|].call == cut.calls[|w.calls|].call
            && again.cycle == After(w, Tick(a)).cycle
  {
    RunKeeps(run);
    var n := |run|;
    assert (run + [CutTick(lost)])[..n] == run;
    assert (run + [CutTick(lost), Tick(a)])[..n + 1] == run + [CutTick(lost)];
  }

  lemma TickAdvances(c: Cycle, a: Answer)
    ensures c.phase.Rank() <= Ticked(c, a).phase.Rank() <= c.phase.Rank() + 1
    ensures c.phase != Ticked(c, a).phase ==>
              if c.phase == AwaitActivation then c.activationRequested
              else CallOf(c).Some? && Succeeds(Entry(CallOf(c).value, a, true))
  {
  }

  /** Short of starting a new cycle, an operation leaves the phase or moves it to
      the next one; and it moves only past a call that succeeded or an approval. */
  lemma PhasesAdvance(run: seq<Op>, op: Op)
    requires StateAfter(run).cycle.Some? && !(op.Start? && MayStart(StateAfter(run), op.readiness, op.scopes))
    ensures var w := StateAfter(run);
            var w' := After(w, op);
            && w'.cycle.Some?
            && w.cycle.value.phase.Rank() <= w'.cycle.value.phase.Rank() <= w.cycle.value.phase.Rank() + 1
            && (w.cycle.value.phase != w'.cycle.value.phase ==>
                 if w.cycle.value.phase == AwaitActivation then w.approved
                 else |w'.calls| == |w.calls| + 1 && Succeeds(w'.calls[|w.calls|]))
  {
    RunKeeps(run);
    StepAdvances(StateAfter(run), op);
  }

  lemma StepAdvances(w: World, op: Op)
    requires Inv(w) && w.cycle.Some? && !(op.Start? && MayStart(w, op.readiness, op.scopes))
    ensures var w' := After(w, op);
            && w'.cycle.Some?
            && w.cycle.value.phase.Rank() <= w'.cycle.value.phase.Rank() <= w.cycle.value.phase.Rank() + 1
            && (w.cycle.value.phase != w'.cycle.value.phase ==>
                 if w.cycle.value.phase == AwaitActivation then w.approved
                 else |w'.calls| == |w.calls| + 1 && Succeeds(w'.calls[|w.calls|]))
  {
    if op.Tick? || op.PoweredTick? {
      TickAdvances(w.cycle.value, op.answer);
    }
  }

  // ---------------------------------------------------------------- what starts and approvals rest on

  /** An operation that starts a cycle: nothing is pending, the robot is stopped,
      docked, charging, on suitable external power and under no motion authority, and
      the principal holds all four scopes. */
  predicate Starts(w: World, op: Op) {
    && op.Start?
    && op.readiness.createStopped && op.readiness.docked && op.readiness.charging
    && op.readiness.externalPower && op.readiness.suitable && !op.readiness.motionAuthorityActive
    && Discover in op.scopes && TransferExperience in op.scopes && SubmitJob in op.scopes && StageCandidate in op.scopes
    && (w.cycle.Some? ==> w.cycle.value.phase == Complete)
  }

  /** An operation that approves the activation the cycle is waiting for. */
  predicate Approves(w: World, op: Op) {
    && op.Approve? && ActivateCandidate in op.scopes
    && w.cycle.Some? && w.cycle.value.phase == AwaitActivation
  }

  predicate StartTaken(run: seq<Op>, j: nat)
    requires j < |run|
  {
    Starts(StateAfter(run[..j]), run[j])
  }

  predicate ApprovalTaken(run: seq<Op>, k: nat)
    requires k < |run|
  {
    Approves(StateAfter(run[..k]), run[k])
  }

  predicate NoStartFrom(run: seq<Op>, j: nat) {
    forall m: nat :: j <= m < |run| ==> !StartTaken(run, m)
  }

  lemma TakenInPrefix(run: seq<Op>, n: nat)
    requires n <= |run|
    ensures forall j: nat :: j < n ==>
              StartTaken(run[..n], j) == StartTaken(run, j) && ApprovalTaken(run[..n], j) == ApprovalTaken(run, j)
  {
    assert forall j: nat :: j < n ==> run[..n][..j] == run[..j];
  }

  /** A start that is taken begins a cycle afresh; nothing else begins or ends one,
      and only an approval that is taken puts one on record. */
  lemma StartsAfresh(w: World, op: Op)
    requires w.cycle == w.file
    ensures var w' := After(w, op);
            if Starts(w, op) then
              && w'.cycle == Some(Cycle(CheckpointExperience, None, [], [], [], 0, false, false))
              && w'.file == w'.cycle && w'.calls == [] && !w'.approved
            else
              && (w'.cycle.Some? <==> w.cycle.Some?)
              && (w.cycle.None? ==> w'.calls == w.calls)
              && (w'.approved <==> w.approved || Approves(w, op))
  {
  }

  lemma LastStep(run: seq<Op>)
    requires run != []
    ensures var w := StateAfter(run[..|run| - 1]);
            w.cycle == w.file && StateAfter(run) == After(w, run[|run| - 1])
  {
    RunKeeps(run[..|run| - 1]);
  }

  /** The start of the current cycle is the last that was taken. */
  lemma {:induction false} LastStart(run: seq<Op>) returns (j: nat)
    requires StateAfter(run).cycle.Some?
    ensures j < |run| && StartTaken(run, j) && NoStartFrom(run, j + 1)
  {
    var n := |run| - 1;
    LastStep(run);
    StartsAfresh(StateAfter(run[..n]), run[n]);
    if StartTaken(run, n) {
      j := n;
    } else {
      j := LastStart(run[..n]);
      TakenInPrefix(run, n);
    }
  }

  lemma {:induction false} StartedOnce(run: seq<Op>, j: nat)
    requires j < |run| && StartTaken(run, j)
    ensures StateAfter(run).cycle.Some?
  {
    var n := |run| - 1;
    LastStep(run);
    StartsAfresh(StateAfter(run[..n]), run[n]);
    if j < n {
      TakenInPrefix(run, n);
      StartedOnce(run[..n], j);
    }
  }

  /** There is a cycle exactly if some start of the run was taken. */
  lemma CycleIff(run: seq<Op>)
    ensures StateAfter(run).cycle.Some? <==> exists j: nat :: j < |run| && StartTaken(run, j)
  {
    if StateAfter(run).cycle.Some? {
      var j := LastStart(run);
    }
    if j: nat :| j < |run| && StartTaken(run, j) {
      StartedOnce(run, j);
    }
  }

  /** The last operation aside, an approval since the last start stays one. */
  lemma ApprovalSinceStep(run: seq<Op>, n: nat)
    requires n == |run| - 1
    ensures (exists k: nat :: k < |run| && ApprovalTaken(run, k) && NoStartFrom(run, k))
       <==> && !StartTaken(run, n)
            && (ApprovalTaken(run, n)
                || exists k: nat :: k < n && ApprovalTaken(run[..n], k) && NoStartFrom(run[..n], k))
  {
    TakenInPrefix(run, n);
    if !StartTaken(run, n) && ApprovalTaken(run, n) {
      assert NoStartFrom(run, n);
    }
    if k: nat :| k < n && ApprovalTaken(run[..n], k) && NoStartFrom(run[..n], k) {
      assert ApprovalTaken(run, k) && (!StartTaken(run, n) ==> NoStartFrom(run, k));
    }
    if k: nat :| k < n && ApprovalTaken(run, k) && NoStartFrom(run, k) {
      assert ApprovalTaken(run[..n], k) && NoStartFrom(run[..n], k);
    }
  }

  /** An approval is on record exactly if one was given since the last taken start. */
  lemma {:induction false} ApprovedIff(run: seq<Op>)
    ensures StateAfter(run).approved <==> exists k: nat :: k < |run| && ApprovalTaken(run, k) && NoStartFrom(run, k)
  {
    if run == [] {
    } else {
      var n := |run| - 1;
      LastStep(run);
      StartsAfresh(StateAfter(run[..n]), run[n]);
      ApprovedIff(run[..n]);
      ApprovalSinceStep(run, n);
    }
  }

  lemma {:induction false} NoCallsBeforeAStart(run: seq<Op>)
    ensures StateAfter(run).cycle.None? ==> StateAfter(run).calls == []
  {
    if run == [] {
    } else {
      NoCallsBeforeAStart(run[..|run| - 1]);
      LastStep(run);
      StartsAfresh(StateAfter(run[..|run| - 1]), run[|run| - 1]);
    }
  }

  /** Whenever a run has made a call in the current cycle, that cycle was started by
      a permitted start `j`; and when it has called for activation, an operation `k`
      after that start, made by a principal with the activation scope while the cycle
      was waiting for it, had approved. */
  lemma CallsArePermitted(run: seq<Op>, i: nat) returns (j: nat, k: nat)
    requires i < |StateAfter(run).calls|
    ensures j < |run| && StartTaken(run, j) && NoStartFrom(run, j + 1)
    ensures StateAfter(run).calls[i].call.CallActivate? ==> j < k < |run| && ApprovalTaken(run, k)
  {
    NoCallsBeforeAStart(run);
    j := LastStart(run);
    k := 0;
    if StateAfter(run).calls[i].call.CallActivate? {
      CallsAreOrderly(run, i);
      ApprovedIff(run);
      k :| k < |run| && ApprovalTaken(run, k) && NoStartFrom(run, k);
      assert run[j].Start? && run[k].Approve?;
    }
  }

  // ---------------------------------------------------------------- the whole way

  /** What a tick makes of the answer to its call, in every run.  It fails, counts a
      retry and stays in its phase when the backend fails or no bundle is complete;
      it stays without failing while jobs are running, while no approval is on
      record, and at the end; and it moves to the next phase in all other cases. */
  predicate Moves(c: Cycle, a: Answer, c': Cycle) {
    var calls := c.phase != AwaitActivation && c.phase != Complete;
    var fails := calls && (a.Failed? || (c.phase == CheckpointExperience && a.ids == []));
    var waits := if calls then c.phase == AwaitJobs && !fails && !a.complete
                 else c.phase == Complete || !c.activationRequested;
    && c'.failed == fails && c'.activationRequested == c.activationRequested
    && c'.retries == (if fails && c.retries < 0xffff_ffff then c.retries + 1 else c.retries)
    && c'.phase.Rank() == if fails || waits then c.phase.Rank() else c.phase.Rank() + 1
  }

  lemma CycleMoves(c: Cycle, a: Answer)
    requires c.phase.Rank() > 1 ==> c.forebrain.Some?
    ensures Moves(c, a, Ticked(c, a))
    ensures CallOf(c).Some? <==> c.phase != AwaitActivation && c.phase != Complete
  {
  }

  lemma TickMoves(run: seq<Op>, a: Answer)
    requires StateAfter(run).cycle.Some?
    ensures var w, w' := StateAfter(run), After(StateAfter(run), Tick(a));
            && w'.cycle.Some? && w'.file == w'.cycle && Moves(w.cycle.value, a, w'.cycle.value)
            && |w'.calls| == |w.calls| + if w.cycle.value.phase in {AwaitActivation, Complete} then 0 else 1
  {
    RunKeeps(run);
    CycleMoves(StateAfter(run).cycle.value, a);
  }

  /** The phases, in order. */
  lemma PhaseOrder(p: Phase)
    ensures 0 <= p.Rank() <= 9
    ensures p == [CheckpointExperience, DiscoverForebrain, TransferBundles, SubmitJobs, AwaitJobs, ReturnCandidates,
                  StageCandidates, AwaitActivation, Activate, Complete][p.Rank()]
  {
  }

  function Ticks(w: World, a: seq<Answer>): World {
    if a == [] then w else After(Ticks(w, a[..|a| - 1]), Tick(a[|a| - 1]))
  }

  lemma OneTickMore(w: World, a: seq<Answer>, k: nat)
    requires k < |a|
    ensures Ticks(w, a[..k + 1]) == After(Ticks(w, a[..k]), Tick(a[k]))
  {
    assert a[..k + 1][..k] == a[..k];
  }

  lemma ThreeTicksMore(w: World, a: seq<Answer>)
    requires |a| == 7
    ensures Ticks(w, a) == After(After(After(Ticks(w, a[..4]), Tick(a[4])), Tick(a[5])), Tick(a[6]))
  {
    OneTickMore(w, a, 4);
    OneTickMore(w, a, 5);
    OneTickMore(w, a, 6);
    assert a[..7] == a;
  }

  /** A fresh cycle with every call answered: on to the submitted jobs. */
  lemma SubmitsJobs(w: World, a: seq<Answer>)
    requires w == World(Some(FRESH), Some(FRESH), [], false)
    requires |a| >= 4 && (forall i :: 0 <= i < |a| ==> a[i].Answered?) && a[0].ids != []
    ensures var c := Cycle(AwaitJobs, Some(a[1].id), a[0].ids, a[3].ids, [], 0, false, false);
            Ticks(w, a[..4])
            == World(Some(c), Some(c),
                     [Entry(CallCheckpoint, a[0], true), Entry(CallDiscover, a[1], true),
                      Entry(CallTransfer(a[1].id, a[0].ids), a[2], true),
                      Entry(CallSubmit(a[1].id, a[0].ids), a[3], true)],
                     false)
  {
    assert a[..0] == [];
    OneTickMore(w, a, 0);
    OneTickMore(w, a, 1);
    OneTickMore(w, a, 2);
    OneTickMore(w, a, 3);
  }

  /** ... and from there on to the staged candidates. */
  lemma StagesCandidates(w: World, c: Cycle, a: Answer, b: Answer, d: Answer)
    requires w.cycle == Some(c) && c.phase == AwaitJobs && c.forebrain.Some?
    requires a.Answered? && b.Answered? && d.Answered? && a.complete
    ensures var c' := c.(phase := AwaitActivation, candidates := b.ids, failed := false);
            After(After(After(w, Tick(a)), Tick(b)), Tick(d))
            == World(Some(c'), Some(c'),
                     w.calls + [Entry(CallJobsComplete(c.forebrain.value, c.jobs), a, true)]
                     + [Entry(CallReturn(c.forebrain.value, c.jobs), b, true)] + [Entry(CallStage(b.ids), d, true)],
                     w.approved)
  {
  }

  /** Started, and with every call answered, a cycle comes to wait for its
      activation, and each call has carried what the earlier ones returned. */
  lemma CycleAwaitsActivation(run: seq<Op>, start: Op, a: seq<Answer>)
    requires Starts(StateAfter(run), start)
    requires |a| == 7 && (forall i :: 0 <= i < 7 ==> a[i].Answered?) && a[0].ids != [] && a[4].complete
    ensures var c := Cycle(AwaitActivation, Some(a[1].id), a[0].ids, a[3].ids, a[5].ids, 0, false, false);
            Ticks(After(StateAfter(run), start), a)
            == World(Some(c), Some(c),
                     [Entry(CallCheckpoint, a[0], true), Entry(CallDiscover, a[1], true),
                      Entry(CallTransfer(a[1].id, a[0].ids), a[2], true),
                      Entry(CallSubmit(a[1].id, a[0].ids), a[3], true),
                      Entry(CallJobsComplete(a[1].id, a[3].ids), a[4], true),
                      Entry(CallReturn(a[1].id, a[3].ids), a[5], true), Entry(CallStage(a[5].ids), a[6], true)],
                     false)
  {
    var w := After(StateAfter(run), start);
    assert w == World(Some(FRESH), Some(FRESH), [], false);
    SubmitsJobs(w, a);
    ThreeTicksMore(w, a);
    StagesCandidates(Ticks(w, a[..4]), Ticks(w, a[..4]).cycle.value, a[4], a[5], a[6]);
  }

  /** Approved by a principal with the activation scope it activates those candidates
      by the second tick, and is complete when the backend has answered. */
  lemma ApprovedCycleCompletes(run: seq<Op>, scopes: set<Scope>, a: Answer, b: Answer)
    requires StateAfter(run).cycle.Some? && StateAfter(run).cycle.value.phase == AwaitActivation
    requires ActivateCandidate in scopes && b.Answered?
    ensures var w := StateAfter(run);
            var c := w.cycle.value.(phase := Complete, failed := false, activationRequested := true);
            After(After(After(w, Approve(scopes)), Tick(a)), Tick(b))
            == World(Some(c), Some(c), w.calls + [Entry(CallActivate(c.candidates), b, true)], true)
  {
  }

  /** An assessment that is not ready makes no backend call and does not move; with a
      ready one the tick is the plain one. */
  lemma UnreadyIsInert(w: World, a: Answer)
    ensures After(w, PoweredTick(true, a)) == After(w, Tick(a))
    ensures var w' := After(w, PoweredTick(false, a));
            && w'.calls == w.calls
            && (w.cycle.Some? ==> w'.cycle.Some? && w'.cycle.value == w.cycle.value.(failed := true))
  {
  }

  /** Reopening the coordinator from its file anywhere in a run changes nothing. */
  lemma {:induction false} ReopeningIsInvisible(before: seq<Op>, after: seq<Op>)
    ensures StateAfter(before + [Reopen] + after) == StateAfter(before + after)
  {
    if after == [] {
      RunKeeps(before);
      assert (before + [Reopen])[..|before|] == before;
      assert before + [Reopen] + after == before + [Reopen] && before + after == before;
    } else {
      var n := |after| - 1;
      ReopeningIsInvisible(before, after[..n]);
      assert (before + [Reopen] + after)[..|before| + 1 + n] == before + [Reopen] + after[..n];
      assert (before + after)[..|before| + n] == before + after[..n];
    }
  }
}
