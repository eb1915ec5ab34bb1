/** The single-flight cognition supervisor (crates/pete-cognition/src/lib.rs): one
    request at a time crosses to a provider, and its response comes back only while
    it is still wanted, current and in time.  Which provider is routed to and how
    it ends are an oracle. */
module Cognition {
  import opened Machine

  type Token = string

  datatype SnapshotRef = SnapshotRef(snapshotId: string, schemaVersion: nat, revision: nat, capturedAtMs: nat)

  datatype Image = Image(bytes: nat, declaredBytes: nat)

  datatype Request = Request(
    requestId: string,
    capability: string,
    payloadCapability: string,
    snapshot: SnapshotRef,
    createdAtMs: nat,
    deadlineMs: nat,
    image: Option<Image>,
    allowRawImage: bool,
    token: Token)
  {
    predicate WellFormed() {
      && capability == payloadCapability
      && createdAtMs < deadlineMs
      && (image.Some? ==> image.value.bytes == image.value.declaredBytes && allowRawImage)
    }
  }

  datatype Status = Completed | Partial | Unavailable | TimedOut | Cancelled | Failure | StaleStatus | Unknown

  datatype Disposition = Accepted | Stale | Rejected | Failed

  datatype Response = Response(requestId: string, status: Status, snapshot: SnapshotRef, completedAtMs: nat)

  datatype Routed = Routed(disposition: Disposition, response: Response)

  /** `validate_response`. */
  function ValidateResponse(q: Request, r: Response): Disposition {
    if r.requestId != q.requestId || r.snapshot != q.snapshot then Rejected
    else if r.completedAtMs > q.deadlineMs || r.status == StaleStatus then Stale
    else if r.status == Completed || r.status == Partial then Accepted
    else Failed
  }

  // ---------------------------------------------------------------- the router

  datatype Router = Router(cancelled: set<Token>)

  /** How routing and the provider turn out. */
  datatype Outcome = NoRoute | NotRegistered | ProviderAnswers(response: Response) | ProviderFails | ProviderTimesOut

  function FailedResponse(q: Request, completedAtMs: nat, status: Status): Routed {
    var r := Response(q.requestId, status, q.snapshot, completedAtMs);
    Routed(ValidateResponse(q, r), r)
  }

  function Dispatch(router: Router, q: Request, now: nat, o: Outcome): (Router, Routed) {
    if !q.WellFormed() then (router, FailedResponse(q, now, Failure))
    else if q.token in router.cancelled then
      (router.(cancelled := router.cancelled - {q.token}), FailedResponse(q, now, Cancelled))
    else
      match o
      case NoRoute => (router, FailedResponse(q, now, Unavailable))
      case NotRegistered => (router, FailedResponse(q, now, Unavailable))
      case ProviderAnswers(r) => (router, Routed(ValidateResponse(q, r), r))
      case ProviderFails => (router, FailedResponse(q, now, Failure))
      case ProviderTimesOut => (router, FailedResponse(q, q.deadlineMs, TimedOut))
  }

  // ---------------------------------------------------------------- the supervisor

  /** The background task owns the router until it ends or panics. */
  datatype Task = Running(router: Router, startedMs: nat) | Finished(router: Router, routed: Routed) | Panicked

  datatype PendingCognition = PendingCognition(request: Request, task: Task)

  datatype Submission = Submitted | Busy | Invalid

  datatype State = State(router: Option<Router>, pending: Option<PendingCognition>, cancelled: set<Token>)

  function Submits(s: State, q: Request, now: nat): (State, Submission) {
    if !q.WellFormed() || q.deadlineMs <= now then (s, Invalid)
    else if s.pending.Some? || s.router.None? then (s, Busy)
    else (s.(router := None, pending := Some(PendingCognition(q, Running(s.router.value, now)))), Submitted)
  }

  /** What `poll` makes of a finished response. */
  function Judged(q: Request, routed: Routed, cancelled: bool, current: SnapshotRef, now: nat): Routed {
    if cancelled then Routed(Rejected, routed.response.(status := Cancelled))
    else if now > q.deadlineMs then Routed(Stale, routed.response.(status := StaleStatus))
    else if routed.response.snapshot != current then Routed(Stale, routed.response.(status := StaleStatus))
    else routed
  }

  function Polled(s: State, current: SnapshotRef, now: nat): (State, Option<Routed>) {
    if s.pending.None? || s.pending.value.task.Running? then (s, None)
    else
      var p := s.pending.value;
      var s' := s.(pending := None, cancelled := s.cancelled - {p.request.token});
      match p.task
      case Finished(router, routed) =>
        (s'.(router := Some(router)),
         Some(Judged(p.request, routed, p.request.token in s.cancelled, current, now)))
      case _ => (s'.(router := Some(Router({}))), None)
  }

  /** The background task ends on its own: with a response, or by panicking. */
  function TaskEnded(s: State, o: Option<Outcome>): State {
    if s.pending.None? || !s.pending.value.task.Running? then s
    else
      var p := s.pending.value;
      if o.None? then s.(pending := Some(p.(task := Panicked)))
      else
        var (router, routed) := Dispatch(p.task.router, p.request, p.task.startedMs, o.value);
        s.(pending := Some(p.(task := Finished(router, routed))))
  }

  class AsyncCognitionSupervisor {
    var router: Option<Router>
    var pending: Option<PendingCognition>
    var cancelled: set<Token>

    ghost function Contents(): State
      reads this
    {
      State(router, pending, cancelled)
    }

    constructor (router: Router)
      ensures Contents() == State(Some(router), None, {})
    {
      this.router, pending, cancelled := Some(router), None, {};
    }

    method Submit(q: Request, now: nat) returns (d: Submission)
      modifies this
      ensures (Contents(), d) == Submits(old(Contents()), q, now)
    {
      if !q.WellFormed() || q.deadlineMs <= now {
        return Invalid;
      }
      if pending.Some? {
        return Busy;
      }
      if router.None? {
        return Busy;
      }
      var taken := router.value;
      router := None;
      pending := Some(PendingCognition(q, Running(taken, now)));
      return Submitted;
    }

    method Cancel(token: Token)
      modifies this`cancelled
      ensures cancelled == old(cancelled) + {token}
    {
      cancelled := cancelled + {token};
    }

    method Poll(current: SnapshotRef, now: nat) returns (r: Option<Routed>)
      modifies this
      ensures (Contents(), r) == Polled(old(Contents()), current, now)
    {
      if pending.None? || pending.value.task.Running? {
        return None;
      }
      var p := pending.value;
      pending := None;
      var wasCancelled := p.request.token in cancelled;
      cancelled := cancelled - {p.request.token};
      if p.task.Panicked? {
        router := Some(Router({}));
        return None;
      }
      router := Some(p.task.router);
      var routed := p.task.routed;
      if wasCancelled {
        routed := Routed(Rejected, routed.response.(status := Cancelled));
      } else if now > p.request.deadlineMs {
        routed := Routed(Stale, routed.response.(status := StaleStatus));
      } else if routed.response.snapshot != current {
        routed := Routed(Stale, routed.response.(status := StaleStatus));
      }
      return Some(routed);
    }
  }

  // ---------------------------------------------------------------- one response

  /** A dispatched response is accepted exactly when the provider itself answered
      the right request from the right snapshot, in time and with a result. */
  lemma DispatchAcceptsIff(router: Router, q: Request, now: nat, o: Outcome)
    ensures Dispatch(router, q, now, o).1.disposition == Accepted
       <==> && q.WellFormed() && q.token !in router.cancelled
            && o.ProviderAnswers?
            && o.response.requestId == q.requestId && o.response.snapshot == q.snapshot
            && o.response.completedAtMs <= q.deadlineMs
            && o.response.status in {Completed, Partial}
    ensures Dispatch(router, q, now, o).1.disposition == Accepted ==>
              Dispatch(router, q, now, o).1.response == o.response
  {
  }

  /** What a provider's own response comes to: another request or snapshot is
      rejected; then a late or stale one is stale; then a result, complete or
      partial, is accepted, and anything else has failed. */
  lemma ProviderAnswerBecomes(router: Router, q: Request, now: nat, r: Response)
    requires q.WellFormed() && q.token !in router.cancelled
    ensures var routed := Dispatch(router, q, now, ProviderAnswers(r)).1;
            var ours := r.requestId == q.requestId && r.snapshot == q.snapshot;
            var late := r.completedAtMs > q.deadlineMs || r.status == StaleStatus;
            && routed.response == r
            && (routed.disposition == Rejected <==> !ours)
            && (routed.disposition == Stale <==> ours && late)
            && (routed.disposition == Accepted <==> ours && !late && r.status in {Completed, Partial})
            && (routed.disposition == Failed <==> ours && !late && r.status !in {Completed, Partial})
  {
  }

  /** Without one the router answers for itself, under the request's id and
      snapshot: failed for a malformed request or a provider's error, cancelled once
      for a cancelled token, unavailable without a provider, timed out as of the
      deadline; failed in time, stale after the deadline. */
  lemma RouterAnswers(router: Router, q: Request, now: nat, o: Outcome)
    requires !q.WellFormed() || q.token in router.cancelled || !o.ProviderAnswers?
    ensures var (router', routed) := Dispatch(router, q, now, o);
            var r := routed.response;
            && r.requestId == q.requestId && r.snapshot == q.snapshot
            && r.status == (if !q.WellFormed() then Failure
                            else if q.token in router.cancelled then Cancelled
                            else if o == ProviderFails then Failure
                            else if o == ProviderTimesOut then TimedOut else Unavailable)
            && r.completedAtMs == (if r.status == TimedOut then q.deadlineMs else now)
            && routed.disposition == (if r.completedAtMs <= q.deadlineMs then Failed else Stale)
            && router'.cancelled == if r.status == Cancelled then router.cancelled - {q.token} else router.cancelled
  {
  }

  /** A request is refused as invalid exactly when its capability is not that of
      its payload, its deadline is not after its creation or after now, or its image
      is not of the declared size or not allowed; a valid one is busy exactly while
      another is in flight, and else the only one in flight. */
  lemma SubmitAnswersIff(s: State, q: Request, now: nat)
    requires Inv(s)
    ensures var (s', d) := Submits(s, q, now);
            var badImage := q.image.Some? && (q.image.value.bytes != q.image.value.declaredBytes || !q.allowRawImage);
            && (d == Invalid <==> || q.capability != q.payloadCapability || q.deadlineMs <= q.createdAtMs || badImage
                                  || q.deadlineMs <= now)
            && (d == Busy <==> d != Invalid && s.pending.Some?)
            && (d != Submitted ==> s' == s)
            && (d == Submitted ==>
                 && s.router.Some? && s'.router == None && s'.cancelled == s.cancelled
                 && s'.pending == Some(PendingCognition(q, Running(s.router.value, now))))
  {
  }

  /** What a poll hands over of a finished response: rejected as cancelled if its
      token was; else stale if the deadline is past or the snapshot obsolete; else
      as it was dispatched.  Nothing else of the response changes, and the router is
      back.  Before that a poll does nothing, and after a panic there is no response
      and a router without providers. */
  lemma PollAnswersIff(s: State, current: SnapshotRef, now: nat)
    requires s.pending.Some?
    ensures var (s', r) := Polled(s, current, now);
            var p := s.pending.value;
            match p.task
            case Running(_, _) => s' == s && r == None
            case Panicked => s' == State(Some(Router({})), None, s.cancelled - {p.request.token}) && r == None
            case Finished(router, routed) =>
              && s' == State(Some(router), None, s.cancelled - {p.request.token})
              && r.Some? && r.value.response == routed.response.(status := r.value.response.status)
              && (p.request.token in s.cancelled ==>
                    r.value.disposition == Rejected && r.value.response.status == Cancelled)
              && (p.request.token !in s.cancelled
                  && (now > p.request.deadlineMs || routed.response.snapshot != current) ==>
                    r.value.disposition == Stale && r.value.response.status == StaleStatus)
              && (p.request.token !in s.cancelled
                  && now <= p.request.deadlineMs && routed.response.snapshot == current ==>
                    r.value == routed)
  {
  }

  // ---------------------------------------------------------------- runs

  datatype Event =
    | Submit(request: Request, now: nat)
    | Cancel(token: Token)
    | Poll(current: SnapshotRef, now: nat)
    | TaskEnds(outcome: Option<Outcome>)

  function Next(s: State, e: Event): State {
    match e
    case Submit(q, now) => Submits(s, q, now).0
    case Cancel(token) => s.(cancelled := s.cancelled + {token})
    case Poll(current, now) => Polled(s, current, now).0
    case TaskEnds(o) => TaskEnded(s, o)
  }

  function StateAfter(router: Router, run: seq<Event>): State {
    if run == [] then State(Some(router), None, {})
    else Next(StateAfter(router, run[..|run| - 1]), run[|run| - 1])
  }

  /** Event `i` submitted `q`, no later submission was taken, and a later cancel of
      its token is still remembered by the supervisor. */
  predicate InFlightSince(router: Router, run: seq<Event>, i: nat, q: Request) {
    && i < |run|
    && run[i].Submit? && run[i].request == q
    && Submits(StateAfter(router, run[..i]), q, run[i].now).1 == Submitted
    && (forall k :: i < k < |run| && run[k].Submit? ==>
          Submits(StateAfter(router, run[..k]), run[k].request, run[k].now).1 != Submitted)
    && (forall k :: i < k < |run| && run[k] == Cancel(q.token) ==> q.token in StateAfter(router, run).cancelled)
  }

  /** What a finished task may carry back. */
  predicate Answers(q: Request, routed: Routed) {
    routed.disposition == Accepted ==>
      && routed.response.requestId == q.requestId && routed.response.snapshot == q.snapshot
      && routed.response.completedAtMs <= q.deadlineMs
      && routed.response.status in {Completed, Partial}
  }

  /** The supervisor holds exactly one of its router and a request in flight. */
  predicate Inv(s: State) {
    && (s.router.Some? <==> s.pending.None?)
    && (s.pending.Some? && s.pending.value.task.Finished? ==>
          Answers(s.pending.value.request, s.pending.value.task.routed))
  }

  lemma NextKeeps(s: State, e: Event)
    requires Inv(s)
    ensures Inv(Next(s, e))
  {
    if e.TaskEnds? && e.outcome.Some? && s.pending.Some? && s.pending.value.task.Running? {
      var p := s.pending.value;
      DispatchAcceptsIff(p.task.router, p.request, p.task.startedMs, e.outcome.value);
    }
  }

  lemma {:induction false} SingleFlight(router: Router, run: seq<Event>)
    ensures Inv(StateAfter(router, run))
  {
    if run == [] {
    } else {
      SingleFlight(router, run[..|run| - 1]);
      NextKeeps(StateAfter(router, run[..|run| - 1]), run[|run| - 1]);
    }
  }

  /** The submissions a run took, the responses its polls handed over, and the tasks
      it lost to a panic. */
  datatype Tally = Tally(taken: nat, answered: nat, panicked: nat)

  function Counted(y: Tally, s: State, e: Event): Tally {
    match e
    case Submit(q, now) => if Submits(s, q, now).1 == Submitted then y.(taken := y.taken + 1) else y
    case Poll(current, now) => if Polled(s, current, now).1.Some? then y.(answered := y.answered + 1) else y
    case TaskEnds(o) =>
      if o == None && s.pending.Some? && s.pending.value.task.Running? then y.(panicked := y.panicked + 1) else y
    case Cancel(_) => y
  }

  function TallyOf(router: Router, run: seq<Event>): Tally {
    if run == [] then Tally(0, 0, 0)
    else Counted(TallyOf(router, run[..|run| - 1]), StateAfter(router, run[..|run| - 1]), run[|run| - 1])
  }

  /** In every run each submission that was taken is answered once, lost to a panic,
      or the one still in flight. */
  lemma {:induction false} EveryRequestIsAnsweredOnce(router: Router, run: seq<Event>)
    ensures var y, s := TallyOf(router, run), StateAfter(router, run);
            y.taken == y.answered + y.panicked
                       + if s.pending.Some? && !s.pending.value.task.Panicked? then 1 else 0
  {
    if run == [] {
    } else {
      EveryRequestIsAnsweredOnce(router, run[..|run| - 1]);
      SingleFlight(router, run[..|run| - 1]);
    }
  }

  lemma {:induction false} PendingWasSubmitted(router: Router, run: seq<Event>) returns (i: nat)
    requires StateAfter(router, run).pending.Some?
    ensures InFlightSince(router, run, i, StateAfter(router, run).pending.value.request)
  {
    var n := |run| - 1;
    var before, last := run[..n], run[n];
    if StateAfter(router, before).pending.Some? {
      i := PendingWasSubmitted(router, before);
      assert before[..i] == run[..i] && before[i] == run[i];
      forall k | i < k < |run| && run[k].Submit?
        ensures Submits(StateAfter(router, run[..k]), run[k].request, run[k].now).1 != Submitted
      {
        if k < n {
          assert before[..k] == run[..k] && before[k] == run[k];
        }
      }
      assert forall k :: i < k < n ==> before[k] == run[k];
    } else {
      i := n;
    }
  }

  /** In every run an accepted response answers the one request in flight, the last
      whose submission was taken, in time, from the snapshot that is current at the
      poll, and its token has not been cancelled since it was submitted. */
  lemma AcceptedIsFresh(router: Router, run: seq<Event>, current: SnapshotRef, now: nat)
    requires var r := Polled(StateAfter(router, run), current, now).1;
             r.Some? && r.value.disposition == Accepted
    ensures exists i: nat, q: Request ::
              && InFlightSince(router, run, i, q) && q.WellFormed() && run[i].now < q.deadlineMs
              && (forall k :: i < k < |run| ==> run[k] != Cancel(q.token))
              && var r := Polled(StateAfter(router, run), current, now).1.value.response;
                 && r.requestId == q.requestId
                 && r.snapshot == q.snapshot == current
                 && r.completedAtMs <= q.deadlineMs && now <= q.deadlineMs
                 && r.status in {Completed, Partial}
  {
    var s := StateAfter(router, run);
    SingleFlight(router, run);
    var i := PendingWasSubmitted(router, run);
    var q := s.pending.value.request;
    assert forall k :: i < k < |run| ==> run[k] != Cancel(q.token);
    assert run[i].request == q;
  }

  /** A poll accepts exactly when the task has finished with an accepted response
      and nothing has overtaken it. */
  lemma PollAcceptsIff(s: State, current: SnapshotRef, now: nat)
    requires s.pending.Some? && s.pending.value.task.Finished?
    ensures var p := s.pending.value;
            Polled(s, current, now).1.value.disposition == Accepted
            <==> && p.task.routed.disposition == Accepted && p.request.token !in s.cancelled
                 && now <= p.request.deadlineMs && p.task.routed.response.snapshot == current
  {
  }
}
