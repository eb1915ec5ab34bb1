/** The candidate store (crates/pete-higher-brain/src/candidate.rs): candidates are
    received, staged into a library, activated and rolled back by atomic file
    steps, and a crash may fall between any two of them.  Ids are joined to paths
    as they come, so an id may lead out of the directory it is meant for.

    A content hash is taken to identify its content, so a digest is modelled by
    the content it was computed from. */
module Candidates {
  import opened Machine
  import opened Paths

  type Id = string

  // ---------------------------------------------------------------- candidate trees

  datatype Path = Path(absolute: bool, parts: seq<string>) {
    predicate Safe() { !absolute && ".." !in parts }
  }

  datatype Artifact = Artifact(path: Path, content: Content)

  datatype Manifest = Manifest(
    candidateId: Id,
    schemaVersion: int,
    creationStatus: string,
    artifacts: seq<Artifact>,
    inputSchema: string,
    outputSchema: string,
    preprocessing: string,
    target: string,
    runtimes: set<string>)

  /** What a file of a candidate tree can hold. */
  datatype Content = ManifestText(manifest: Manifest) | DigestOf(manifest: Manifest) | Data(bytes: seq<int>)

  type Tree = map<seq<string>, Content>

  const CANDIDATE_SCHEMA_VERSION := 1
  const MANIFEST := ["candidate.json"]
  const COMPLETE := [".complete"]

  predicate Intact(t: Tree, a: Artifact) {
    a.path.Safe() && a.path.parts in t && t[a.path.parts] == a.content
  }

  /** `validate_candidate` without a compatibility requirement. */
  function Validate(t: Tree): Option<Manifest> {
    if MANIFEST in t && t[MANIFEST].ManifestText? then
      var m := t[MANIFEST].manifest;
      if && m.schemaVersion == CANDIDATE_SCHEMA_VERSION && m.creationStatus == "complete"
         && m.target != "brainstem"
         && COMPLETE in t && t[COMPLETE] == DigestOf(m)
         && forall a :: a in m.artifacts ==> Intact(t, a)
      then Some(m) else None
    else None
  }

  datatype Compatibility = Compatibility(
    inputSchemas: set<string>,
    outputSchemas: set<string>,
    preprocessings: set<string>,
    targets: set<string>,
    runtimes: set<string>)
  {
    static predicate Lists(supported: set<string>, v: string) { supported == {} || v in supported }

    predicate Supports(m: Manifest) {
      && Lists(inputSchemas, m.inputSchema)
      && Lists(outputSchemas, m.outputSchema)
      && Lists(preprocessings, m.preprocessing)
      && Lists(targets, m.target)
      && m.runtimes <= runtimes
    }
  }

  predicate Runs(t: Tree, c: Compatibility) {
    Validate(t).Some? && c.Supports(Validate(t).value)
  }

  // ---------------------------------------------------------------- disk and file steps

  datatype Policy = OperatorApproval | SafeDevelopmentAuto

  /** A store: the directory it lives in, what it can run, and who activates. */
  datatype Store = Store(root: Dir, compatibility: Compatibility, policy: Policy)

  datatype Area = Received | Library

  function AreaDir(s: Store, area: Area): Dir { s.root + [if area == Received then "received" else "library"] }

  function StateDir(s: Store): Dir { s.root + ["state"] }

  /** Where the copy of `id` in an area, and its log, are meant to be. */
  function Own(s: Store, area: Area, id: Id): Place { Place(AreaDir(s, area), id) }

  function OwnLog(s: Store, id: Id): Place { Place(StateDir(s), id) }

  /** Where they are. */
  function Spot(s: Store, area: Area, id: Id): Place { Resolve(AreaDir(s, area), id) }

  function LogSpot(s: Store, id: Id): Place { Resolve(StateDir(s), id) }

  /** The directories of a store are three. */
  lemma Apart(s: Store)
    ensures AreaDir(s, Received) != AreaDir(s, Library)
    ensures AreaDir(s, Received) != StateDir(s) && AreaDir(s, Library) != StateDir(s)
  {
    var n := |s.root|;
    assert AreaDir(s, Received)[n] == "received" && AreaDir(s, Library)[n] == "library" && StateDir(s)[n] == "state";
  }

  predicate InArea(s: Store, p: Place) { p.dir == AreaDir(s, Received) || p.dir == AreaDir(s, Library) }

  datatype Link = Current | Previous

  datatype Transition = WasReceived | Validated | Rejected | Staged | Activated | RolledBack | Superseded

  /** Candidate trees and logs by the place they are at, the half-made copy of
      each directory, and what the two links point at. */
  datatype Disk = Disk(
    trees: map<Place, Tree>,
    staging: map<Dir, Tree>,
    current: Option<Place>,
    previous: Option<Place>,
    logs: map<Place, seq<Transition>>)

  function LogOf(logs: map<Place, seq<Transition>>, log: Place): seq<Transition> {
    if log in logs then logs[log] else []
  }

  function Note(logs: map<Place, seq<Transition>>, log: Place, t: Transition): map<Place, seq<Transition>> {
    logs[log := LogOf(logs, log) + [t]]
  }

  /** Before its first operation a store has nothing in its directories; other
      places may hold anything. */
  predicate Fresh(s: Store, d: Disk) {
    && (forall p :: p in d.trees ==> !InArea(s, p))
    && (forall p :: p in d.logs ==> p.dir != StateDir(s))
    && d.current.None? && d.previous.None?
  }

  /** The atomic steps; each is one rename, or touches only a staging area. */
  datatype Effect =
    | ClearStaging(dir: Dir)
    | CopyFile(dir: Dir, path: seq<string>, content: Content)
    | Publish(place: Place)
    | Relink(link: Link, target: Place)
    | Record(log: Place, transition: Transition)

  function Apply(d: Disk, e: Effect): Disk {
    match e
    case ClearStaging(dir) => d.(staging := d.staging[dir := map[]])
    case CopyFile(dir, path, content) =>
      var partial := if dir in d.staging then d.staging[dir] else map[];
      d.(staging := d.staging[dir := partial[path := content]])
    case Publish(place) =>
      if place.dir !in d.staging then d
      else d.(trees := d.trees[place := d.staging[place.dir]], staging := d.staging - {place.dir})
    case Relink(Current, target) => d.(current := Some(target))
    case Relink(Previous, target) => d.(previous := Some(target))
    case Record(log, transition) => d.(logs := Note(d.logs, log, transition))
  }

  function ApplyAll(d: Disk, es: seq<Effect>): Disk {
    if es == [] then d else Apply(ApplyAll(d, es[..|es| - 1]), es[|es| - 1])
  }

  // ---------------------------------------------------------------- operations

  /** A request, with whether the principal holds the scope it needs, and for a
      copy the order in which the directory happens to be listed. */
  datatype Op =
    | Receive(authorised: bool, candidate: Tree, order: seq<seq<string>>)
    | Check(authorised: bool, id: Id)
    | Stage(authorised: bool, id: Id, order: seq<seq<string>>)
    | Activate(authorised: bool, id: Id, approved: bool)
    | Rollback(authorised: bool)

  predicate Lists(order: seq<seq<string>>, t: Tree) {
    (forall p :: p in order ==> p in t) && (forall p :: p in t ==> p in order)
  }

  function CopyFiles(dir: Dir, t: Tree, order: seq<seq<string>>): seq<Effect>
    requires forall p :: p in order ==> p in t
  {
    if order == [] then []
    else CopyFiles(dir, t, order[..|order| - 1])
         + [CopyFile(dir, order[|order| - 1], t[order[|order| - 1]])]
  }

  /** `copy_immutable_tree` of a valid tree: refused if the destination holds a
      different candidate, nothing to do if it holds the same one. */
  function Copy(d: Disk, to: Place, t: Tree, order: seq<seq<string>>): Option<seq<Effect>>
    requires Lists(order, t)
  {
    if to in d.trees then
      if Validate(d.trees[to]) == Validate(t) then Some([]) else None
    else Some([ClearStaging(to.dir)] + CopyFiles(to.dir, t, order) + [Publish(to)])
  }

  predicate RunsAt(s: Store, d: Disk, p: Place) { p in d.trees && Runs(d.trees[p], s.compatibility) }

  /** The steps a copy and its record take, and whether the copy succeeds. */
  function CopyPlan(d: Disk, to: Place, t: Tree, order: seq<seq<string>>, log: Place, tr: Transition)
    : (seq<Effect>, bool)
    requires Lists(order, t)
  {
    var copied := Copy(d, to, t, order);
    if copied.None? then ([], false) else (copied.value + [Record(log, tr)], true)
  }

  function ActivatePlan(s: Store, d: Disk, id: Id): seq<Effect> {
    var target := Spot(s, Library, id);
    match d.current
    case None => [Relink(Current, target), Record(LogSpot(s, id), Activated)]
    case Some(was) =>
      [Relink(Previous, was), Relink(Current, target), Record(LogSpot(s, was.stem), Superseded),
       Record(LogSpot(s, id), Activated)]
  }

  function RollbackPlan(s: Store, was: Place, back: Place): seq<Effect> {
    [Relink(Current, back), Relink(Previous, was), Record(LogSpot(s, was.stem), RolledBack),
     Record(LogSpot(s, back.stem), Activated)]
  }

  predicate PlanDefined(s: Store, d: Disk, op: Op) {
    && (op.Receive? ==> Lists(op.order, op.candidate))
    && (op.Stage? && Spot(s, Received, op.id) in d.trees ==> Lists(op.order, d.trees[Spot(s, Received, op.id)]))
  }

  /** The steps an operation takes when nothing interrupts it, and whether it
      succeeds.  (A failing check is the one failure that leaves a record.) */
  function Plan(s: Store, d: Disk, op: Op): (seq<Effect>, bool)
    requires PlanDefined(s, d, op)
  {
    match op
    case Receive(authorised, t, order) =>
      if !authorised || Validate(t).None? then ([], false)
      else
        var id := Validate(t).value.candidateId;
        CopyPlan(d, Spot(s, Received, id), t, order, LogSpot(s, id), WasReceived)
    case Check(authorised, id) =>
      if !authorised then ([], false)
      else
        var passed := RunsAt(s, d, Spot(s, Received, id));
        ([Record(LogSpot(s, id), if passed then Validated else Rejected)], passed)
    case Stage(authorised, id, order) =>
      if !authorised || !RunsAt(s, d, Spot(s, Received, id)) then ([], false)
      else CopyPlan(d, Spot(s, Library, id), d.trees[Spot(s, Received, id)], order, LogSpot(s, id), Staged)
    case Activate(authorised, id, approved) =>
      if || !authorised
         || (s.policy == OperatorApproval && !approved)
         || !RunsAt(s, d, Spot(s, Library, id))
      then ([], false)
      else (ActivatePlan(s, d, id), true)
    case Rollback(authorised) =>
      if !authorised || d.current.None? || d.previous.None? || !RunsAt(s, d, d.previous.value) then ([], false)
      else (RollbackPlan(s, d.current.value, d.previous.value), true)
  }

  function Outcome(s: Store, d: Disk, op: Op): Disk
    requires PlanDefined(s, d, op)
  {
    ApplyAll(d, Plan(s, d, op).0)
  }

  /** The id an operation is about: its argument, or what the manifest says. */
  function Subject(op: Op): Option<Id> {
    match op
    case Receive(_, t, _) => if Validate(t).Some? then Some(Validate(t).value.candidateId) else None
    case Check(_, id) => Some(id)
    case Stage(_, id, _) => Some(id)
    case Activate(_, id, _) => Some(id)
    case Rollback(_) => None
  }

  /** A rollback names no id; it goes by the links. */
  predicate PlainOp(op: Op) { Subject(op).Some? ==> Plain(Subject(op).value) }

  // ---------------------------------------------------------------- safety at every boundary

  /** A complete candidate, under its own id. */
  predicate Filed(t: Tree, id: Id) {
    Validate(t).Some? && Validate(t).value.candidateId == id
  }

  predicate NamedCopies(s: Store, trees: map<Place, Tree>) {
    forall p :: p in trees && InArea(s, p) ==> Filed(trees[p], p.stem)
  }

  predicate LinkRuns(s: Store, d: Disk, link: Option<Place>) {
    link.Some? ==> link.value.dir == AreaDir(s, Library) && Plain(link.value.stem) && RunsAt(s, d, link.value)
  }

  /** What holds of the disk between any two file steps: every published copy is
      complete and filed under its own id, and a link, once set, names a library
      candidate that passes this store's validation. */
  predicate Safe(s: Store, d: Disk) {
    && NamedCopies(s, d.trees)
    && LinkRuns(s, d, d.current)
    && LinkRuns(s, d, d.previous)
    && (d.previous.Some? ==> d.current.Some?)
  }

  /** Published trees are immutable and the current link is never taken away. */
  predicate Grows(d: Disk, d': Disk) {
    && (forall p :: p in d.trees ==> p in d'.trees && d'.trees[p] == d.trees[p])
    && (d.current.Some? ==> d'.current.Some?)
  }

  /** Copying the files one by one, in whatever order, touches only the staging
      area and leaves there the files copied so far. */
  lemma {:induction false} CopyingStages(d: Disk, dir: Dir, t: Tree, order: seq<seq<string>>)
    requires forall p :: p in order ==> p in t
    requires dir in d.staging && d.staging[dir] == map[]
    ensures var d' := ApplyAll(d, CopyFiles(dir, t, order));
            && d' == d.(staging := d'.staging)
            && dir in d'.staging
            && (forall p :: p in d'.staging[dir] <==> p in order)
            && (forall p :: p in order ==> d'.staging[dir][p] == t[p])
  {
    if order == [] {
    } else {
      CopyingStages(d, dir, t, order[..|order| - 1]);
      var es := CopyFiles(dir, t, order);
      assert es[..|es| - 1] == CopyFiles(dir, t, order[..|order| - 1]);
      assert order == order[..|order| - 1] + [order[|order| - 1]];
    }
  }

  /** A step that keeps the disk safe: a copy is published only when complete,
      valid, filed under its own id and new, a link only pointed at a library
      candidate that validates. */
  predicate Sound(s: Store, d: Disk, e: Effect) {
    match e
    case Publish(p) =>
      && p.dir in d.staging && p !in d.trees
      && (InArea(s, p) ==> Filed(d.staging[p.dir], p.stem))
    case Relink(link, target) => LinkRuns(s, d, Some(target)) && (link == Current || d.current.Some?)
    case _ => true
  }

  predicate AllSound(s: Store, d: Disk, es: seq<Effect>) {
    es == [] || (AllSound(s, d, es[..|es| - 1]) && Sound(s, ApplyAll(d, es[..|es| - 1]), es[|es| - 1]))
  }

  lemma SoundStep(s: Store, d: Disk, e: Effect)
    requires Safe(s, d) && Sound(s, d, e)
    ensures Safe(s, Apply(d, e)) && Grows(d, Apply(d, e))
  {
  }

  lemma {:induction false} SoundStepsAreSafe(s: Store, d: Disk, es: seq<Effect>, k: nat)
    requires Safe(s, d) && AllSound(s, d, es) && k <= |es|
    ensures Safe(s, ApplyAll(d, es[..k])) && Grows(d, ApplyAll(d, es[..k]))
    decreases |es|
  {
    var n := |es|;
    if n == 0 {
      assert es[..k] == [];
    } else if k == n {
      assert es[..k] == es;
      SoundStepsAreSafe(s, d, es[..n - 1], n - 1);
      assert es[..n - 1][..n - 1] == es[..n - 1];
      SoundStep(s, ApplyAll(d, es[..n - 1]), es[n - 1]);
    } else {
      assert es[..n - 1][..k] == es[..k];
      SoundStepsAreSafe(s, d, es[..n - 1], k);
    }
  }

  lemma OneMore(s: Store, d: Disk, es: seq<Effect>, e: Effect)
    ensures ApplyAll(d, es + [e]) == Apply(ApplyAll(d, es), e)
    ensures AllSound(s, d, es + [e]) <==> AllSound(s, d, es) && Sound(s, ApplyAll(d, es), e)
  {
    assert (es + [e])[..|es|] == es;
  }

  lemma {:induction false} Joined(s: Store, d: Disk, es: seq<Effect>, fs: seq<Effect>)
    ensures ApplyAll(d, es + fs) == ApplyAll(ApplyAll(d, es), fs)
    ensures AllSound(s, d, es) && AllSound(s, ApplyAll(d, es), fs) ==> AllSound(s, d, es + fs)
  {
    if fs == [] {
      assert es + fs == es;
    } else {
      var n := |fs|;
      Joined(s, d, es, fs[..n - 1]);
      assert es + fs == (es + fs[..n - 1]) + [fs[n - 1]];
      OneMore(s, d, es + fs[..n - 1], fs[n - 1]);
    }
  }

  lemma {:induction false} CopyFilesAreSound(s: Store, d: Disk, dir: Dir, t: Tree, order: seq<seq<string>>)
    requires forall p :: p in order ==> p in t
    ensures AllSound(s, d, CopyFiles(dir, t, order))
  {
    if order == [] {
    } else {
      CopyFilesAreSound(s, d, dir, t, order[..|order| - 1]);
      OneMore(s, d, CopyFiles(dir, t, order[..|order| - 1]),
              CopyFile(dir, order[|order| - 1], t[order[|order| - 1]]));
    }
  }

  lemma OneStep(s: Store, d: Disk, a: Effect)
    ensures ApplyAll(d, [a]) == Apply(d, a)
    ensures AllSound(s, d, [a]) <==> Sound(s, d, a)
  {
    OneMore(s, d, [], a);
    assert [] + [a] == [a];
  }

  /** A copy up to its last step: the staging area holds the source tree. */
  lemma CopyStages(s: Store, d: Disk, dir: Dir, t: Tree, order: seq<seq<string>>)
    requires Lists(order, t)
    ensures var es := [ClearStaging(dir)] + CopyFiles(dir, t, order);
            var d' := ApplyAll(d, es);
            && AllSound(s, d, es)
            && d' == d.(staging := d'.staging)
            && dir in d'.staging && d'.staging[dir] == t
  {
    OneStep(s, d, ClearStaging(dir));
    var cleared := Apply(d, ClearStaging(dir));
    CopyFilesAreSound(s, cleared, dir, t, order);
    CopyingStages(cleared, dir, t, order);
    Joined(s, d, [ClearStaging(dir)], CopyFiles(dir, t, order));
    assert ApplyAll(cleared, CopyFiles(dir, t, order)).staging[dir] == t;
  }

  /** A copy that is new in the store is filed under its own id. */
  predicate FiledRight(s: Store, d: Disk, to: Place, t: Tree) {
    InArea(s, to) && to !in d.trees ==> Filed(t, to.stem)
  }

  /** A copy that runs to its end publishes exactly the source tree and changes
      nothing else that can be seen. */
  lemma CopyPublishes(s: Store, d: Disk, to: Place, t: Tree, order: seq<seq<string>>)
    requires Lists(order, t) && Copy(d, to, t, order).Some?
    ensures var es := Copy(d, to, t, order).value;
            var d' := ApplyAll(d, es);
            && (FiledRight(s, d, to, t) ==> AllSound(s, d, es))
            && d' == d.(staging := d'.staging, trees := d'.trees)
            && d'.trees == (if to in d.trees then d.trees else d.trees[to := t])
  {
    if to !in d.trees {
      CopyStages(s, d, to.dir, t, order);
      OneMore(s, d, [ClearStaging(to.dir)] + CopyFiles(to.dir, t, order), Publish(to));
    }
  }

  lemma TwoSteps(s: Store, d: Disk, a: Effect, b: Effect)
    ensures ApplyAll(d, [a, b]) == Apply(Apply(d, a), b)
    ensures AllSound(s, d, [a, b]) <==> Sound(s, d, a) && Sound(s, Apply(d, a), b)
  {
    OneStep(s, d, a);
    assert [a] + [b] == [a, b];
    OneMore(s, d, [a], b);
  }

  lemma FourSteps(s: Store, d: Disk, a: Effect, b: Effect, c: Effect, e: Effect)
    ensures ApplyAll(d, [a, b, c, e]) == Apply(Apply(Apply(Apply(d, a), b), c), e)
    ensures AllSound(s, d, [a, b, c, e])
       <==> && Sound(s, d, a) && Sound(s, Apply(d, a), b) && Sound(s, Apply(Apply(d, a), b), c)
            && Sound(s, Apply(Apply(Apply(d, a), b), c), e)
  {
    TwoSteps(s, d, a, b);
    assert [a, b] + [c] == [a, b, c] && [a, b, c] + [e] == [a, b, c, e];
    OneMore(s, d, [a, b], c);
    OneMore(s, d, [a, b, c], e);
  }

  lemma CopyIsSound(s: Store, d: Disk, to: Place, t: Tree, order: seq<seq<string>>, log: Place, tr: Transition)
    requires Lists(order, t) && FiledRight(s, d, to, t)
    ensures AllSound(s, d, CopyPlan(d, to, t, order, log, tr).0)
  {
    if Copy(d, to, t, order).Some? {
      CopyPublishes(s, d, to, t, order);
      OneMore(s, d, Copy(d, to, t, order).value, Record(log, tr));
    }
  }

  /** The link swaps of activation and rollback, whatever is recorded after them. */
  lemma SwapIsSound(s: Store, d: Disk, a: Effect, b: Effect, c: Effect, e: Effect)
    requires Safe(s, d) && c.Record? && e.Record?
    requires a.Relink? && b.Relink? && LinkRuns(s, d, Some(a.target)) && LinkRuns(s, d, Some(b.target))
    requires d.current.Some?
    ensures AllSound(s, d, [a, b, c, e])
  {
    FourSteps(s, d, a, b, c, e);
    SoundStep(s, d, a);
  }

  lemma ActivateIsSound(s: Store, d: Disk, id: Id)
    requires Safe(s, d) && RunsAt(s, d, Spot(s, Library, id)) && Spot(s, Library, id).dir == AreaDir(s, Library)
    ensures AllSound(s, d, ActivatePlan(s, d, id))
  {
    var es := ActivatePlan(s, d, id);
    if d.current.None? {
      TwoSteps(s, d, es[0], es[1]);
    } else {
      SwapIsSound(s, d, es[0], es[1], es[2], es[3]);
    }
  }

  lemma RollbackIsSound(s: Store, d: Disk, was: Place, back: Place)
    requires Safe(s, d) && d.current == Some(was) && d.previous == Some(back)
    ensures AllSound(s, d, RollbackPlan(s, was, back))
  {
    var es := RollbackPlan(s, was, back);
    SwapIsSound(s, d, es[0], es[1], es[2], es[3]);
  }

  /** Whether the id of an operation leads where the store stays safe: a new copy
      ends up outside the store's directories or under its own id, and what is
      activated is in the library. */
  predicate LeadsRight(s: Store, d: Disk, op: Op)
    requires PlanDefined(s, d, op)
  {
    Plan(s, d, op).0 == [] ||
    match op
    case Receive(_, t, _) => FiledRight(s, d, Spot(s, Received, Validate(t).value.candidateId), t)
    case Check(_, _) => true
    case Stage(_, id, _) => FiledRight(s, d, Spot(s, Library, id), d.trees[Spot(s, Received, id)])
    case Activate(_, id, _) => Spot(s, Library, id).dir == AreaDir(s, Library)
    case Rollback(_) => true
  }

  lemma PlanIsSound(s: Store, d: Disk, op: Op)
    requires Safe(s, d) && PlanDefined(s, d, op) && LeadsRight(s, d, op)
    ensures AllSound(s, d, Plan(s, d, op).0)
  {
    var es := Plan(s, d, op).0;
    if es != [] {
      match op
      case Receive(_, t, order) =>
        var id := Validate(t).value.candidateId;
        CopyIsSound(s, d, Spot(s, Received, id), t, order, LogSpot(s, id), WasReceived);
      case Check(_, id) => OneStep(s, d, es[0]);
      case Stage(_, id, order) =>
        CopyIsSound(s, d, Spot(s, Library, id), d.trees[Spot(s, Received, id)], order, LogSpot(s, id), Staged);
      case Activate(_, id, _) => ActivateIsSound(s, d, id);
      case Rollback(_) => RollbackIsSound(s, d, d.current.value, d.previous.value);
    }
  }

  lemma SafeWhenSound(s: Store, d: Disk, op: Op, k: nat)
    requires Safe(s, d) && PlanDefined(s, d, op) && LeadsRight(s, d, op) && k <= |Plan(s, d, op).0|
    ensures Safe(s, ApplyAll(d, Plan(s, d, op).0[..k]))
    ensures Grows(d, ApplyAll(d, Plan(s, d, op).0[..k]))
  {
    PlanIsSound(s, d, op);
    SoundStepsAreSafe(s, d, Plan(s, d, op).0, k);
  }

  /** A plain id is looked for, and its log kept, where they are meant to be. */
  lemma AtHomePlain(s: Store, id: Id)
    requires Plain(id)
    ensures Spot(s, Received, id) == Own(s, Received, id) && Spot(s, Library, id) == Own(s, Library, id)
    ensures LogSpot(s, id) == OwnLog(s, id)
  {
    ResolvesToItselfIff(AreaDir(s, Received), id);
    ResolvesToItselfIff(AreaDir(s, Library), id);
    ResolvesToItselfIff(StateDir(s), id);
  }

  lemma PlainLeadsRight(s: Store, d: Disk, op: Op)
    requires Safe(s, d) && PlanDefined(s, d, op) && PlainOp(op)
    ensures LeadsRight(s, d, op)
  {
    if Subject(op).Some? {
      AtHomePlain(s, Subject(op).value);
    }
  }

  /** Interrupting any operation on a plain id after any of its file steps leaves
      the disk safe, with nothing published lost or altered. */
  lemma CrashSafety(s: Store, d: Disk, op: Op, k: nat)
    requires Safe(s, d) && PlanDefined(s, d, op) && PlainOp(op) && k <= |Plan(s, d, op).0|
    ensures Safe(s, ApplyAll(d, Plan(s, d, op).0[..k]))
    ensures Grows(d, ApplyAll(d, Plan(s, d, op).0[..k]))
  {
    PlainLeadsRight(s, d, op);
    SafeWhenSound(s, d, op, k);
  }

  lemma WrongCopy(s: Store, d: Disk, to: Place, t: Tree, order: seq<seq<string>>, log: Place, tr: Transition)
    requires Lists(order, t) && !FiledRight(s, d, to, t)
    ensures !Safe(s, ApplyAll(d, CopyPlan(d, to, t, order, log, tr).0))
  {
    CopyPublishes(s, d, to, t, order);
    OneMore(s, d, Copy(d, to, t, order).value, Record(log, tr));
    assert to in ApplyAll(d, Copy(d, to, t, order).value).trees;
  }

  lemma ActivatedTarget(s: Store, d: Disk, id: Id)
    ensures ApplyAll(d, ActivatePlan(s, d, id)).current == Some(Spot(s, Library, id))
  {
    var es := ActivatePlan(s, d, id);
    if d.current.None? {
      TwoSteps(s, d, es[0], es[1]);
    } else {
      FourSteps(s, d, es[0], es[1], es[2], es[3]);
    }
  }

  lemma WrongOutcome(s: Store, d: Disk, op: Op)
    requires PlanDefined(s, d, op) && !LeadsRight(s, d, op)
    ensures !Safe(s, Outcome(s, d, op))
  {
    match op
    case Receive(_, t, order) =>
      var id := Validate(t).value.candidateId;
      WrongCopy(s, d, Spot(s, Received, id), t, order, LogSpot(s, id), WasReceived);
    case Stage(_, id, order) =>
      WrongCopy(s, d, Spot(s, Library, id), d.trees[Spot(s, Received, id)], order, LogSpot(s, id), Staged);
    case Activate(_, id, _) => ActivatedTarget(s, d, id);
    case _ =>
  }

  /** For any id at all: an operation is safe at every one of its step boundaries
      exactly when its id leads where it should; plain ids always do. */
  lemma CrashSafetyIff(s: Store, d: Disk, op: Op)
    requires Safe(s, d) && PlanDefined(s, d, op)
    ensures (forall k: nat :: k <= |Plan(s, d, op).0| ==> Safe(s, ApplyAll(d, Plan(s, d, op).0[..k])))
       <==> LeadsRight(s, d, op)
    ensures PlainOp(op) ==> LeadsRight(s, d, op)
  {
    var es := Plan(s, d, op).0;
    if LeadsRight(s, d, op) {
      forall k: nat | k <= |es| ensures Safe(s, ApplyAll(d, es[..k])) {
        SafeWhenSound(s, d, op, k);
      }
    } else {
      WrongOutcome(s, d, op);
      assert es[..|es|] == es;
    }
    if PlainOp(op) {
      PlainLeadsRight(s, d, op);
    }
  }

  /** A run: each operation either runs to its end or is cut after some step. */
  datatype Attempt = Attempt(op: Op, steps: nat)

  predicate Attempted(s: Store, d: Disk, a: Attempt, d': Disk) {
    && PlanDefined(s, d, a.op)
    && a.steps <= |Plan(s, d, a.op).0|
    && d' == ApplyAll(d, Plan(s, d, a.op).0[..a.steps])
  }

  ghost predicate IsRun(s: Store, disks: seq<Disk>, run: seq<Attempt>) {
    && |disks| == |run| + 1
    && Fresh(s, disks[0])
    && forall i :: 0 <= i < |run| ==> Attempted(s, disks[i], run[i], disks[i + 1])
  }

  ghost predicate PlainRun(run: seq<Attempt>) {
    forall i :: 0 <= i < |run| ==> PlainOp(run[i].op)
  }

  lemma AttemptIsSafe(s: Store, d: Disk, a: Attempt, d': Disk)
    requires Safe(s, d) && Attempted(s, d, a, d') && PlainOp(a.op)
    ensures Safe(s, d')
  {
    CrashSafety(s, d, a.op, a.steps);
  }

  lemma {:induction false} RunKeepsSafe(s: Store, disks: seq<Disk>, run: seq<Attempt>, i: nat)
    requires IsRun(s, disks, run) && PlainRun(run) && i <= |run|
    ensures Safe(s, disks[i])
  {
    if i == 0 {
    } else {
      RunKeepsSafe(s, disks, run, i - 1);
      AttemptIsSafe(s, disks[i - 1], run[i - 1], disks[i]);
    }
  }

  /** At every boundary of every run over plain ids, however often and wherever it
      crashed, the store is safe; in particular `current`, once set, stays set and
      validates. */
  lemma RunsAreSafe(s: Store, disks: seq<Disk>, run: seq<Attempt>, i: nat, k: nat)
    requires IsRun(s, disks, run) && PlainRun(run) && i < |run|
    requires PlanDefined(s, disks[i], run[i].op) && k <= |Plan(s, disks[i], run[i].op).0|
    ensures Safe(s, disks[i])
    ensures Safe(s, ApplyAll(disks[i], Plan(s, disks[i], run[i].op).0[..k]))
    ensures Grows(disks[i], ApplyAll(disks[i], Plan(s, disks[i], run[i].op).0[..k]))
  {
    RunKeepsSafe(s, disks, run, i);
    CrashSafety(s, disks[i], run[i].op, k);
  }

  // ---------------------------------------------------------------- undoing

  function Links(d: Disk): (Option<Place>, Option<Place>) { (d.current, d.previous) }

  lemma SwapLinks(s: Store, d: Disk, a: Effect, b: Effect, c: Effect, e: Effect)
    requires a.Relink? && b.Relink? && a.link != b.link && c.Record? && e.Record?
    ensures var d' := ApplyAll(d, [a, b, c, e]);
            && d'.trees == d.trees
            && d'.current == Some(if a.link == Current then a.target else b.target)
            && d'.previous == Some(if a.link == Current then b.target else a.target)
  {
    FourSteps(s, d, a, b, c, e);
  }

  lemma SwapNotes(s: Store, d: Disk, a: Effect, b: Effect, c: Effect, e: Effect)
    requires a.Relink? && b.Relink? && c.Record? && e.Record?
    ensures ApplyAll(d, [a, b, c, e]).logs == Note(Note(d.logs, c.log, c.transition), e.log, e.transition)
  {
    FourSteps(s, d, a, b, c, e);
  }

  lemma RollbackSwaps(s: Store, d: Disk)
    requires d.current.Some? && d.previous.Some? && RunsAt(s, d, d.previous.value)
    ensures Plan(s, d, Rollback(true)).1
    ensures Links(Outcome(s, d, Rollback(true))) == (d.previous, d.current)
  {
    var es := RollbackPlan(s, d.current.value, d.previous.value);
    SwapLinks(s, d, es[0], es[1], es[2], es[3]);
  }

  /** With both links set a rollback always succeeds and exchanges them. */
  lemma RollbackExchanges(s: Store, d: Disk)
    requires Safe(s, d) && d.current.Some? && d.previous.Some?
    ensures Plan(s, d, Rollback(true)).1
    ensures Links(Outcome(s, d, Rollback(true))) == (d.previous, d.current)
    ensures Safe(s, Outcome(s, d, Rollback(true)))
  {
    RollbackSwaps(s, d);
    var es := Plan(s, d, Rollback(true)).0;
    assert es[..4] == es;
    CrashSafety(s, d, Rollback(true), 4);
  }

  /** Two rollbacks restore both links. */
  lemma TwoRollbacksRestore(s: Store, d: Disk)
    requires Safe(s, d) && d.current.Some? && d.previous.Some?
    ensures Links(Outcome(s, Outcome(s, d, Rollback(true)), Rollback(true))) == Links(d)
  {
    RollbackExchanges(s, d);
    RollbackExchanges(s, Outcome(s, d, Rollback(true)));
  }

  /** Activating, whatever the id leads to, and rolling back returns to the
      candidate that was active. */
  lemma RollbackUndoesActivation(s: Store, d: Disk, id: Id, approved: bool)
    requires Safe(s, d) && d.current.Some? && Plan(s, d, Activate(true, id, approved)).1
    ensures var activated := Outcome(s, d, Activate(true, id, approved));
            && Links(activated) == (Some(Spot(s, Library, id)), d.current)
            && Plan(s, activated, Rollback(true)).1
            && Links(Outcome(s, activated, Rollback(true))) == (d.current, Some(Spot(s, Library, id)))
  {
    var es := ActivatePlan(s, d, id);
    SwapLinks(s, d, es[0], es[1], es[2], es[3]);
    RollbackSwaps(s, ApplyAll(d, es));
  }

  // ---------------------------------------------------------------- the ledger

  /** The last of the transitions that say whether a candidate is active. */
  function Standing(log: seq<Transition>): Option<Transition> {
    if log == [] then None
    else if log[|log| - 1] in {Activated, Superseded, RolledBack} then Some(log[|log| - 1])
    else Standing(log[..|log| - 1])
  }

  /** How much of received, staged, activated a log shows in that order. */
  function Progress(log: seq<Transition>): nat {
    if log == [] then 0
    else
      var p, last := Progress(log[..|log| - 1]), log[|log| - 1];
      if p == 0 && last == WasReceived then 1
      else if p == 1 && last == Staged then 2
      else if p == 2 && last == Activated then 3
      else p
  }

  /** Where a log shows them. */
  lemma {:induction false} ProgressMeans(log: seq<Transition>) returns (i: nat, j: nat, k: nat)
    ensures Progress(log) <= 3
    ensures Progress(log) >= 1 ==> i < |log| && log[i] == WasReceived
    ensures Progress(log) >= 2 ==> i < j < |log| && log[j] == Staged
    ensures Progress(log) == 3 ==> j < k < |log| && log[k] == Activated
  {
    i, j, k := 0, 0, 0;
    if log == [] {
    } else {
      var n := |log| - 1;
      i, j, k := ProgressMeans(log[..n]);
      if Progress(log) > Progress(log[..n]) {
        match Progress(log)
        case 1 => i := n;
        case 2 => j := n;
        case _ => k := n;
      }
    }
  }

  /** The books over logs, the places filled and the current link: of exactly the
      current candidate the logs say that it is active, and every name got where it
      is by the steps its log shows. */
  ghost predicate Books(s: Store, logs: map<Place, seq<Transition>>, places: set<Place>, current: Option<Place>) {
    && (forall id :: Standing(LogOf(logs, OwnLog(s, id))) == Some(Activated) <==> current == Some(Own(s, Library, id)))
    && (forall id :: Own(s, Received, id) in places ==> Progress(LogOf(logs, OwnLog(s, id))) >= 1)
    && (forall id :: Own(s, Library, id) in places ==> Progress(LogOf(logs, OwnLog(s, id))) >= 2)
    && (current.Some? ==> Progress(LogOf(logs, OwnLog(s, current.value.stem))) == 3)
  }

  ghost predicate Ledger(s: Store, d: Disk) {
    Books(s, d.logs, d.trees.Keys, d.current)
  }

  lemma OneMoreEntry(log: seq<Transition>, t: Transition)
    ensures var log' := log + [t];
            && Standing(log') == (if t in {Activated, Superseded, RolledBack} then Some(t) else Standing(log))
            && Progress(log) <= Progress(log') <= 3
            && (t == WasReceived ==> Progress(log') >= 1)
            && (t == Staged && Progress(log) >= 1 ==> Progress(log') >= 2)
            && (t == Activated && Progress(log) >= 2 ==> Progress(log') == 3)
  {
    assert (log + [t])[..|log|] == log;
    var _, _, _ := ProgressMeans(log);
  }

  /** One entry more: only its candidate's log changes, and logs only gain. */
  lemma Noted(logs: map<Place, seq<Transition>>, log: Place, t: Transition)
    ensures var logs' := Note(logs, log, t);
            && (forall other :: other != log ==> LogOf(logs', other) == LogOf(logs, other))
            && Standing(LogOf(logs', log))
               == (if t in {Activated, Superseded, RolledBack} then Some(t) else Standing(LogOf(logs, log)))
            && Progress(LogOf(logs, log)) <= Progress(LogOf(logs', log)) <= 3
            && (t == WasReceived ==> Progress(LogOf(logs', log)) >= 1)
            && (t == Staged && Progress(LogOf(logs, log)) >= 1 ==> Progress(LogOf(logs', log)) >= 2)
            && (t == Activated && Progress(LogOf(logs, log)) >= 2 ==> Progress(LogOf(logs', log)) == 3)
  {
    OneMoreEntry(LogOf(logs, log), t);
  }

  /** A completed exchange keeps the books, also when a candidate is activated
      over itself. */
  lemma ExchangeBooks(s: Store, logs: map<Place, seq<Transition>>, places: set<Place>, was: Id, next: Id, t: Transition)
    requires Books(s, logs, places, Some(Own(s, Library, was))) && Own(s, Library, next) in places
    requires t in {Superseded, RolledBack}
    ensures Books(s, Note(Note(logs, OwnLog(s, was), t), OwnLog(s, next), Activated), places,
                  Some(Own(s, Library, next)))
  {
    Noted(logs, OwnLog(s, was), t);
    Noted(Note(logs, OwnLog(s, was), t), OwnLog(s, next), Activated);
  }

  lemma FirstBooks(s: Store, logs: map<Place, seq<Transition>>, places: set<Place>, id: Id)
    requires Books(s, logs, places, None) && Own(s, Library, id) in places
    ensures Books(s, Note(logs, OwnLog(s, id), Activated), places, Some(Own(s, Library, id)))
  {
    Noted(logs, OwnLog(s, id), Activated);
  }

  lemma CheckBooks(s: Store, logs: map<Place, seq<Transition>>, places: set<Place>, current: Option<Place>, id: Id,
                   t: Transition)
    requires Books(s, logs, places, current) && t in {Validated, Rejected}
    ensures Books(s, Note(logs, OwnLog(s, id), t), places, current)
  {
    Noted(logs, OwnLog(s, id), t);
  }

  lemma ReceivedBooks(s: Store, logs: map<Place, seq<Transition>>, places: set<Place>, current: Option<Place>, id: Id)
    requires Books(s, logs, places, current)
    ensures Books(s, Note(logs, OwnLog(s, id), WasReceived), places + {Own(s, Received, id)}, current)
  {
    Apart(s);
    Noted(logs, OwnLog(s, id), WasReceived);
  }

  lemma StagedBooks(s: Store, logs: map<Place, seq<Transition>>, places: set<Place>, current: Option<Place>, id: Id)
    requires Books(s, logs, places, current) && Own(s, Received, id) in places
    ensures Books(s, Note(logs, OwnLog(s, id), Staged), places + {Own(s, Library, id)}, current)
  {
    Apart(s);
    Noted(logs, OwnLog(s, id), Staged);
  }

  lemma FirstSteps(s: Store, d: Disk, target: Place, log: Place)
    ensures ApplyAll(d, [Relink(Current, target), Record(log, Activated)])
         == d.(current := Some(target), logs := Note(d.logs, log, Activated))
  {
    TwoSteps(s, d, Relink(Current, target), Record(log, Activated));
  }

  lemma FirstActivationKeepsLedger(s: Store, d: Disk, id: Id)
    requires Ledger(s, d) && d.current == None && Own(s, Library, id) in d.trees
    ensures Ledger(s, ApplyAll(d, [Relink(Current, Own(s, Library, id)), Record(OwnLog(s, id), Activated)]))
  {
    FirstSteps(s, d, Own(s, Library, id), OwnLog(s, id));
    FirstBooks(s, d.logs, d.trees.Keys, id);
  }

  lemma ExchangeKeepsLedger(s: Store, d: Disk, a: Effect, b: Effect, was: Id, next: Id, t: Transition)
    requires Ledger(s, d) && d.current == Some(Own(s, Library, was)) && Own(s, Library, next) in d.trees
    requires a.Relink? && b.Relink? && a.link != b.link && t in {Superseded, RolledBack}
    requires (if a.link == Current then a.target else b.target) == Own(s, Library, next)
    ensures Ledger(s, ApplyAll(d, [a, b, Record(OwnLog(s, was), t), Record(OwnLog(s, next), Activated)]))
  {
    SwapLinks(s, d, a, b, Record(OwnLog(s, was), t), Record(OwnLog(s, next), Activated));
    SwapNotes(s, d, a, b, Record(OwnLog(s, was), t), Record(OwnLog(s, next), Activated));
    ExchangeBooks(s, d.logs, d.trees.Keys, was, next, t);
  }

  /** Publishing a copy and recording it: one place more, one entry more. */
  lemma CopyThenRecord(s: Store, d: Disk, to: Place, t: Tree, order: seq<seq<string>>, log: Place, tr: Transition)
    requires Lists(order, t) && Copy(d, to, t, order).Some?
    ensures var d' := ApplyAll(d, CopyPlan(d, to, t, order, log, tr).0);
            && d'.logs == Note(d.logs, log, tr) && d'.current == d.current
            && d'.trees.Keys == d.trees.Keys + {to}
  {
    CopyPublishes(s, d, to, t, order);
    OneMore(s, d, Copy(d, to, t, order).value, Record(log, tr));
  }

  lemma ReceiveKeepsLedger(s: Store, d: Disk, id: Id, t: Tree, order: seq<seq<string>>)
    requires Ledger(s, d) && Lists(order, t) && Plain(id) && Copy(d, Spot(s, Received, id), t, order).Some?
    ensures Ledger(s, ApplyAll(d, CopyPlan(d, Spot(s, Received, id), t, order, LogSpot(s, id), WasReceived).0))
  {
    AtHomePlain(s, id);
    CopyThenRecord(s, d, Own(s, Received, id), t, order, OwnLog(s, id), WasReceived);
    ReceivedBooks(s, d.logs, d.trees.Keys, d.current, id);
  }

  lemma StageKeepsLedger(s: Store, d: Disk, id: Id, t: Tree, order: seq<seq<string>>)
    requires Ledger(s, d) && Lists(order, t) && Plain(id) && Copy(d, Spot(s, Library, id), t, order).Some?
    requires Spot(s, Received, id) in d.trees
    ensures Ledger(s, ApplyAll(d, CopyPlan(d, Spot(s, Library, id), t, order, LogSpot(s, id), Staged).0))
  {
    AtHomePlain(s, id);
    CopyThenRecord(s, d, Own(s, Library, id), t, order, OwnLog(s, id), Staged);
    StagedBooks(s, d.logs, d.trees.Keys, d.current, id);
  }

  lemma CheckKeepsLedger(s: Store, d: Disk, id: Id, t: Transition)
    requires Ledger(s, d) && Plain(id) && t in {Validated, Rejected}
    ensures Ledger(s, ApplyAll(d, [Record(LogSpot(s, id), t)]))
  {
    AtHomePlain(s, id);
    OneStep(s, d, Record(OwnLog(s, id), t));
    CheckBooks(s, d.logs, d.trees.Keys, d.current, id, t);
  }

  lemma ActivateKeepsLedger(s: Store, d: Disk, id: Id)
    requires Safe(s, d) && Ledger(s, d) && Plain(id) && RunsAt(s, d, Spot(s, Library, id))
    ensures Ledger(s, ApplyAll(d, ActivatePlan(s, d, id)))
  {
    AtHomePlain(s, id);
    if d.current.None? {
      FirstActivationKeepsLedger(s, d, id);
    } else {
      var was := d.current.value;
      AtHomePlain(s, was.stem);
      ExchangeKeepsLedger(s, d, Relink(Previous, was), Relink(Current, Own(s, Library, id)), was.stem, id, Superseded);
    }
  }

  lemma RollbackKeepsLedger(s: Store, d: Disk, was: Place, back: Place)
    requires Safe(s, d) && Ledger(s, d) && d.current == Some(was) && d.previous == Some(back)
    ensures Ledger(s, ApplyAll(d, RollbackPlan(s, was, back)))
  {
    AtHomePlain(s, was.stem);
    AtHomePlain(s, back.stem);
    ExchangeKeepsLedger(s, d, Relink(Current, back), Relink(Previous, was), was.stem, back.stem, RolledBack);
  }

  /** Every completed operation on a plain id, successful or refused, keeps the
      ledger: exactly the current candidate stands activated, after being received
      and staged. */
  lemma CompletedKeepsLedger(s: Store, d: Disk, op: Op)
    requires Safe(s, d) && Ledger(s, d) && PlanDefined(s, d, op) && PlainOp(op)
    ensures Ledger(s, Outcome(s, d, op))
  {
    var es := Plan(s, d, op).0;
    if es != [] {
      match op
      case Receive(authorised, t, order) =>
        ReceiveKeepsLedger(s, d, Validate(t).value.candidateId, t, order);
      case Check(authorised, id) =>
        CheckKeepsLedger(s, d, id, es[0].transition);
      case Stage(authorised, id, order) =>
        StageKeepsLedger(s, d, id, d.trees[Spot(s, Received, id)], order);
      case Activate(authorised, id, approved) =>
        ActivateKeepsLedger(s, d, id);
      case Rollback(authorised) =>
        RollbackKeepsLedger(s, d, d.current.value, d.previous.value);
    }
  }

  lemma FreshIsInOrder(s: Store, d: Disk)
    requires Fresh(s, d)
    ensures Safe(s, d) && Ledger(s, d)
  {
    assert forall id :: LogOf(d.logs, OwnLog(s, id)) == [];
  }

  predicate Completed(s: Store, d: Disk, a: Attempt) {
    PlanDefined(s, d, a.op) && a.steps == |Plan(s, d, a.op).0|
  }

  lemma CompletedStep(s: Store, d: Disk, a: Attempt, d': Disk)
    requires Safe(s, d) && Ledger(s, d) && PlainOp(a.op) && Attempted(s, d, a, d') && Completed(s, d, a)
    ensures Safe(s, d') && Ledger(s, d')
  {
    var es := Plan(s, d, a.op).0;
    assert es[..|es|] == es;
    AttemptIsSafe(s, d, a, d');
    CompletedKeepsLedger(s, d, a.op);
  }

  lemma {:induction false} CompletedRunsKeepLedger(s: Store, disks: seq<Disk>, run: seq<Attempt>, i: nat)
    requires IsRun(s, disks, run) && PlainRun(run) && i <= |run|
    requires forall k :: 0 <= k < |run| ==> Completed(s, disks[k], run[k])
    ensures Safe(s, disks[i]) && Ledger(s, disks[i])
  {
    if i == 0 {
      FreshIsInOrder(s, disks[0]);
    } else {
      CompletedRunsKeepLedger(s, disks, run, i - 1);
      CompletedStep(s, disks[i - 1], run[i - 1], disks[i]);
    }
  }

  // ---------------------------------------------------------------- what a crash costs

  /** Whether an operation cut after `k` of its steps leaves links and logs in
      agreement.  A copy must not be cut between its publication and its record,
      unless the log has that record already; an activation over another candidate
      not after the current link has moved, one over the same candidate not between
      its two records, and a first one not at all; a rollback not at all either,
      unless both links name the same candidate. */
  predicate CutKeepsLedger(s: Store, d: Disk, op: Op, k: nat)
    requires PlanDefined(s, d, op) && k <= |Plan(s, d, op).0|
  {
    var n := |Plan(s, d, op).0|;
    k == 0 || k == n ||
    match op
    case Receive(_, t, _) => k < n - 1 || Progress(LogOf(d.logs, OwnLog(s, Validate(t).value.candidateId))) >= 1
    case Check(_, _) => true
    case Stage(_, id, _) => k < n - 1 || Progress(LogOf(d.logs, OwnLog(s, id))) >= 2
    case Activate(_, id, _) => d.current.Some? && k < if d.current.value == Own(s, Library, id) then 3 else 2
    case Rollback(_) => d.current == d.previous && k < 3
  }

  lemma {:induction false} StagingOnly(d: Disk, es: seq<Effect>)
    requires forall e :: e in es ==> e.ClearStaging? || e.CopyFile?
    ensures ApplyAll(d, es) == d.(staging := ApplyAll(d, es).staging)
  {
    if es == [] {
    } else {
      StagingOnly(d, es[..|es| - 1]);
    }
  }

  lemma {:induction false} FilesOnly(dir: Dir, t: Tree, order: seq<seq<string>>)
    requires forall p :: p in order ==> p in t
    ensures forall e :: e in CopyFiles(dir, t, order) ==> e.CopyFile? && e.dir == dir
  {
    if order == [] {
    } else {
      FilesOnly(dir, t, order[..|order| - 1]);
    }
  }

  /** A copy cut short is unseen until it is published, and then unrecorded. */
  lemma CopyCut(s: Store, d: Disk, to: Place, t: Tree, order: seq<seq<string>>, log: Place, tr: Transition, k: nat)
    requires Lists(order, t) && 0 < k < |CopyPlan(d, to, t, order, log, tr).0|
    ensures var es := CopyPlan(d, to, t, order, log, tr).0;
            var d' := ApplyAll(d, es[..k]);
            && d'.logs == d.logs && d'.current == d.current
            && d'.trees.Keys == d.trees.Keys + if k == |es| - 1 then {to} else {}
  {
    var es := CopyPlan(d, to, t, order, log, tr).0;
    var copied := Copy(d, to, t, order).value;
    var staged := [ClearStaging(to.dir)] + CopyFiles(to.dir, t, order);
    if k == |es| - 1 {
      assert es[..k] == copied;
      CopyPublishes(s, d, to, t, order);
    } else {
      assert es[..k] == staged[..k];
      FilesOnly(to.dir, t, order);
      StagingOnly(d, staged[..k]);
    }
  }

  /** A copy without its record agrees with the books only if the log shows it
      already. */
  lemma UnrecordedBooks(s: Store, logs: map<Place, seq<Transition>>, places: set<Place>, current: Option<Place>, id: Id)
    requires Books(s, logs, places, current)
    ensures Books(s, logs, places + {Own(s, Received, id)}, current) <==> Progress(LogOf(logs, OwnLog(s, id))) >= 1
    ensures Books(s, logs, places + {Own(s, Library, id)}, current) <==> Progress(LogOf(logs, OwnLog(s, id))) >= 2
  {
    Apart(s);
    assert Own(s, Received, id) in places + {Own(s, Received, id)};
    assert Own(s, Library, id) in places + {Own(s, Library, id)};
  }

  lemma ReceiveCut(s: Store, d: Disk, id: Id, t: Tree, order: seq<seq<string>>, k: nat)
    requires Ledger(s, d) && Lists(order, t) && Plain(id)
    requires 0 < k < |CopyPlan(d, Spot(s, Received, id), t, order, LogSpot(s, id), WasReceived).0|
    ensures var es := CopyPlan(d, Spot(s, Received, id), t, order, LogSpot(s, id), WasReceived).0;
            Ledger(s, ApplyAll(d, es[..k])) <==> k < |es| - 1 || Progress(LogOf(d.logs, OwnLog(s, id))) >= 1
  {
    AtHomePlain(s, id);
    CopyCut(s, d, Own(s, Received, id), t, order, OwnLog(s, id), WasReceived, k);
    UnrecordedBooks(s, d.logs, d.trees.Keys, d.current, id);
    assert d.trees.Keys + {} == d.trees.Keys;
  }

  lemma StageCut(s: Store, d: Disk, id: Id, t: Tree, order: seq<seq<string>>, k: nat)
    requires Ledger(s, d) && Lists(order, t) && Plain(id)
    requires 0 < k < |CopyPlan(d, Spot(s, Library, id), t, order, LogSpot(s, id), Staged).0|
    ensures var es := CopyPlan(d, Spot(s, Library, id), t, order, LogSpot(s, id), Staged).0;
            Ledger(s, ApplyAll(d, es[..k])) <==> k < |es| - 1 || Progress(LogOf(d.logs, OwnLog(s, id))) >= 2
  {
    AtHomePlain(s, id);
    CopyCut(s, d, Own(s, Library, id), t, order, OwnLog(s, id), Staged, k);
    UnrecordedBooks(s, d.logs, d.trees.Keys, d.current, id);
    assert d.trees.Keys + {} == d.trees.Keys;
  }

  /** The current link moved, or half moved, ahead of the records. */
  lemma StaleBooks(s: Store, logs: map<Place, seq<Transition>>, places: set<Place>, was: Id, next: Id, t: Transition)
    requires Books(s, logs, places, Some(Own(s, Library, was))) && t in {Superseded, RolledBack}
    ensures was != next ==> !Books(s, logs, places, Some(Own(s, Library, next)))
    ensures !Books(s, Note(logs, OwnLog(s, was), t), places, Some(Own(s, Library, next)))
  {
    assert Standing(LogOf(logs, OwnLog(s, was))) == Some(Activated);
    assert was != next ==> Standing(LogOf(logs, OwnLog(s, next))) != Some(Activated);
    Noted(logs, OwnLog(s, was), t);
    assert Standing(LogOf(Note(logs, OwnLog(s, was), t), OwnLog(s, next))) != Some(Activated);
  }

  /** The disk an exchange leaves when cut before its last step: the current link
      moved or not, the first record made or not. */
  lemma ExchangePrefix(s: Store, d: Disk, a: Effect, b: Effect, c: Effect, e: Effect, k: nat)
    requires 0 < k < 4 && a.Relink? && b.Relink? && a.link != b.link && c.Record?
    ensures var d' := ApplyAll(d, [a, b, c, e][..k]);
            && d'.trees == d.trees
            && d'.current == (if a.link == Current then Some(a.target)
                              else if k == 1 then d.current else Some(b.target))
            && d'.logs == (if k < 3 then d.logs else Note(d.logs, c.log, c.transition))
  {
    var es := [a, b, c, e];
    assert es[..1] == [a] && es[..2] == [a, b] && es[..3] == [a, b] + [c];
    OneStep(s, d, a);
    TwoSteps(s, d, a, b);
    OneMore(s, d, [a, b], c);
  }

  lemma ExchangeCut(s: Store, d: Disk, a: Effect, b: Effect, was: Id, next: Id, t: Transition, e: Effect, k: nat)
    requires Ledger(s, d) && d.current == Some(Own(s, Library, was)) && 0 < k < 4
    requires a.Relink? && b.Relink? && a.link != b.link && t in {Superseded, RolledBack}
    requires (if a.link == Current then a.target else b.target) == Own(s, Library, next)
    ensures Ledger(s, ApplyAll(d, [a, b, Record(OwnLog(s, was), t), e][..k]))
       <==> k < 3 && (was == next || (k == 1 && a.link == Previous))
  {
    ExchangePrefix(s, d, a, b, Record(OwnLog(s, was), t), e, k);
    StaleBooks(s, d.logs, d.trees.Keys, was, next, t);
  }

  lemma ActivateCut(s: Store, d: Disk, id: Id, k: nat)
    requires Safe(s, d) && Ledger(s, d) && Plain(id) && 0 < k < |ActivatePlan(s, d, id)|
    ensures Ledger(s, ApplyAll(d, ActivatePlan(s, d, id)[..k]))
       <==> d.current.Some? && k < if d.current.value == Own(s, Library, id) then 3 else 2
  {
    AtHomePlain(s, id);
    if d.current.None? {
      var moved := Relink(Current, Own(s, Library, id));
      assert ActivatePlan(s, d, id)[..1] == [moved];
      OneStep(s, d, moved);
      assert Standing(LogOf(d.logs, OwnLog(s, id))) != Some(Activated);
    } else {
      var was := d.current.value;
      AtHomePlain(s, was.stem);
      ExchangeCut(s, d, Relink(Previous, was), Relink(Current, Own(s, Library, id)), was.stem, id, Superseded,
                  Record(OwnLog(s, id), Activated), k);
    }
  }

  lemma RollbackCut(s: Store, d: Disk, was: Place, back: Place, k: nat)
    requires Safe(s, d) && Ledger(s, d) && d.current == Some(was) && d.previous == Some(back) && 0 < k < 4
    ensures Ledger(s, ApplyAll(d, RollbackPlan(s, was, back)[..k])) <==> was == back && k < 3
  {
    AtHomePlain(s, was.stem);
    AtHomePlain(s, back.stem);
    ExchangeCut(s, d, Relink(Current, back), Relink(Previous, was), was.stem, back.stem, RolledBack,
                Record(OwnLog(s, back.stem), Activated), k);
  }

  /** The ledger, unlike the safety of the links, does not survive every crash:
      for each operation, exactly the cuts that leave it intact. */
  lemma CutKeepsLedgerIff(s: Store, d: Disk, op: Op, k: nat)
    requires Safe(s, d) && Ledger(s, d) && PlanDefined(s, d, op) && PlainOp(op) && k <= |Plan(s, d, op).0|
    ensures Ledger(s, ApplyAll(d, Plan(s, d, op).0[..k])) <==> CutKeepsLedger(s, d, op, k)
  {
    var es := Plan(s, d, op).0;
    if k == |es| {
      assert es[..k] == es;
      CompletedKeepsLedger(s, d, op);
    } else if k == 0 {
      assert es[..k] == [];
    } else {
      match op
      case Receive(authorised, t, order) => ReceiveCut(s, d, Validate(t).value.candidateId, t, order, k);
      case Check(authorised, id) =>
      case Stage(authorised, id, order) => StageCut(s, d, id, d.trees[Spot(s, Received, id)], order, k);
      case Activate(authorised, id, approved) => ActivateCut(s, d, id, k);
      case Rollback(authorised) => RollbackCut(s, d, d.current.value, d.previous.value, k);
    }
  }

  // ---------------------------------------------------------------- what is allowed, and what it does

  /** A complete candidate: a manifest of schema 1 that is marked complete and not
      meant for the brainstem, the completion marker of that manifest, and every file
      it lists, under a relative path without a parent step, with the listed content. */
  predicate Genuine(t: Tree) {
    && ["candidate.json"] in t && t[["candidate.json"]].ManifestText?
    && var m := t[["candidate.json"]].manifest;
       && m.schemaVersion == 1 && m.creationStatus == "complete" && m.target != "brainstem"
       && [".complete"] in t && t[[".complete"]] == DigestOf(m)
       && forall a :: a in m.artifacts ==>
            !a.path.absolute && ".." !in a.path.parts && a.path.parts in t && t[a.path.parts] == a.content
  }

  /** One this store can run: each of its versions and its target is among those
      supported, where any are named, and all runtimes it needs are there. */
  predicate Usable(t: Tree, c: Compatibility) {
    && Genuine(t)
    && var m := t[["candidate.json"]].manifest;
       && (c.inputSchemas != {} ==> m.inputSchema in c.inputSchemas)
       && (c.outputSchemas != {} ==> m.outputSchema in c.outputSchemas)
       && (c.preprocessings != {} ==> m.preprocessing in c.preprocessings)
       && (c.targets != {} ==> m.target in c.targets)
       && forall r :: r in m.runtimes ==> r in c.runtimes
  }

  lemma ValidIff(t: Tree)
    ensures Validate(t).Some? <==> Genuine(t)
    ensures Validate(t).Some? ==> t[["candidate.json"]] == ManifestText(Validate(t).value)
  {
    if Genuine(t) {
      assert forall a :: a in t[MANIFEST].manifest.artifacts ==> Intact(t, a);
    }
  }

  lemma RunsIff(t: Tree, c: Compatibility)
    ensures Runs(t, c) <==> Usable(t, c)
  {
    ValidIff(t);
  }

  /** Valid copies with the same manifest have the same content in every file it
      lists, so what was copied before need not be copied again. */
  lemma SameManifestSameFiles(t: Tree, t': Tree, a: Artifact)
    requires Validate(t).Some? && Validate(t) == Validate(t') && a in Validate(t).value.artifacts
    ensures a.path.parts in t && a.path.parts in t' && t[a.path.parts] == t'[a.path.parts]
  {
    assert Intact(t, a) && Intact(t', a);
  }

  predicate UsableAt(s: Store, d: Disk, p: Place) { p in d.trees && Usable(d.trees[p], s.compatibility) }

  predicate SameManifest(t: Tree, t': Tree) {
    Genuine(t) && Genuine(t') && t[["candidate.json"]] == t'[["candidate.json"]]
  }

  lemma CopySucceedsIff(d: Disk, to: Place, t: Tree, order: seq<seq<string>>)
    requires Lists(order, t) && Validate(t).Some?
    ensures Copy(d, to, t, order).Some? <==> to !in d.trees || SameManifest(d.trees[to], t)
  {
    ValidIff(t);
    if to in d.trees {
      ValidIff(d.trees[to]);
    }
  }

  lemma CopyRecorded(s: Store, d: Disk, to: Place, t: Tree, order: seq<seq<string>>, log: Place, tr: Transition)
    requires Lists(order, t) && Copy(d, to, t, order).Some?
    ensures var d' := ApplyAll(d, CopyPlan(d, to, t, order, log, tr).0);
            d' == d.(trees := if to in d.trees then d.trees else d.trees[to := t], staging := d'.staging,
                     logs := d.logs[log := LogOf(d.logs, log) + [tr]])
  {
    var es := Copy(d, to, t, order).value;
    CopyPublishes(s, d, to, t, order);
    OneMore(s, d, es, Record(log, tr));
    assert CopyPlan(d, to, t, order, log, tr).0 == es + [Record(log, tr)];
  }

  /** A copy and its record, whole. */
  lemma CopyOutcome(s: Store, d: Disk, to: Place, t: Tree, order: seq<seq<string>>, log: Place, tr: Transition)
    requires Lists(order, t) && Validate(t).Some?
    ensures var (es, ok) := CopyPlan(d, to, t, order, log, tr);
            && (ok <==> to !in d.trees || SameManifest(d.trees[to], t))
            && ApplyAll(d, es)
               == if !ok then d
                  else d.(trees := if to in d.trees then d.trees else d.trees[to := t],
                          staging := ApplyAll(d, es).staging,
                          logs := d.logs[log := LogOf(d.logs, log) + [tr]])
  {
    CopySucceedsIff(d, to, t, order);
    if Copy(d, to, t, order).Some? {
      CopyRecorded(s, d, to, t, order, log, tr);
    }
  }

  /** Receiving succeeds exactly if authorised, for a complete candidate whose place
      is free or taken by a copy of the same manifest; then the copy is in place and
      recorded, and the links are as they were. */
  lemma ReceiveOutcome(s: Store, d: Disk, authorised: bool, t: Tree, order: seq<seq<string>>)
    requires Lists(order, t)
    ensures var op := Receive(authorised, t, order);
            var (d', ok) := (Outcome(s, d, op), Plan(s, d, op).1);
            if !authorised || !Genuine(t) then !ok && d' == d
            else
              var id := t[["candidate.json"]].manifest.candidateId;
              var to, log := Resolve(s.root + ["received"], id), Resolve(s.root + ["state"], id);
              && (ok <==> to !in d.trees || SameManifest(d.trees[to], t))
              && d' == if !ok then d
                       else d.(trees := if to in d.trees then d.trees else d.trees[to := t], staging := d'.staging,
                               logs := d.logs[log := LogOf(d.logs, log) + [WasReceived]])
  {
    ValidIff(t);
    if authorised && Genuine(t) {
      var id := Validate(t).value.candidateId;
      CopyOutcome(s, d, Spot(s, Received, id), t, order, LogSpot(s, id), WasReceived);
    }
  }

  /** Staging succeeds exactly if authorised, for a received candidate this store can
      run, whose place in the library is free or taken by a copy of the same manifest. */
  lemma StageOutcome(s: Store, d: Disk, authorised: bool, id: Id, order: seq<seq<string>>)
    requires PlanDefined(s, d, Stage(authorised, id, order))
    ensures var op := Stage(authorised, id, order);
            var (d', ok) := (Outcome(s, d, op), Plan(s, d, op).1);
            var from, to := Resolve(s.root + ["received"], id), Resolve(s.root + ["library"], id);
            var log := Resolve(s.root + ["state"], id);
            if !authorised || !UsableAt(s, d, from) then !ok && d' == d
            else
              && (ok <==> to !in d.trees || SameManifest(d.trees[to], d.trees[from]))
              && d' == if !ok then d
                       else d.(trees := if to in d.trees then d.trees else d.trees[to := d.trees[from]],
                               staging := d'.staging, logs := d.logs[log := LogOf(d.logs, log) + [Staged]])
  {
    var from := Spot(s, Received, id);
    if from in d.trees {
      RunsIff(d.trees[from], s.compatibility);
      if authorised && Runs(d.trees[from], s.compatibility) {
        CopyOutcome(s, d, Spot(s, Library, id), d.trees[from], order, LogSpot(s, id), Staged);
      }
    }
  }

  /** A check succeeds exactly if authorised, for a received candidate this store can
      run; an authorised one records which it was, and nothing else. */
  lemma CheckOutcome(s: Store, d: Disk, authorised: bool, id: Id)
    ensures var op := Check(authorised, id);
            var log, usable := Resolve(s.root + ["state"], id), UsableAt(s, d, Resolve(s.root + ["received"], id));
            && (Plan(s, d, op).1 <==> authorised && usable)
            && Outcome(s, d, op)
               == if !authorised then d
                  else d.(logs := d.logs[log := LogOf(d.logs, log) + [if usable then Validated else Rejected]])
  {
    var received := Spot(s, Received, id);
    if received in d.trees {
      RunsIff(d.trees[received], s.compatibility);
    }
    OneStep(s, d, Record(LogSpot(s, id), Validated));
    OneStep(s, d, Record(LogSpot(s, id), Rejected));
  }

  /** The logs after an exchange. */
  function Exchanged(s: Store, d: Disk, was: Id, end: Transition, next: Id): map<Place, seq<Transition>> {
    var first, second := Resolve(s.root + ["state"], was), Resolve(s.root + ["state"], next);
    var logs := d.logs[first := LogOf(d.logs, first) + [end]];
    logs[second := LogOf(logs, second) + [Activated]]
  }

  lemma ActivatedDisk(s: Store, d: Disk, id: Id)
    ensures var target, log := Resolve(s.root + ["library"], id), Resolve(s.root + ["state"], id);
            ApplyAll(d, ActivatePlan(s, d, id))
            == if d.current == None then
                 d.(current := Some(target), logs := d.logs[log := LogOf(d.logs, log) + [Activated]])
               else
                 d.(current := Some(target), previous := d.current,
                    logs := Exchanged(s, d, d.current.value.stem, Superseded, id))
  {
    var es := ActivatePlan(s, d, id);
    if d.current.None? {
      TwoSteps(s, d, es[0], es[1]);
    } else {
      FourSteps(s, d, es[0], es[1], es[2], es[3]);
    }
  }

  /** Activation succeeds exactly if authorised, approved where the policy asks for an
      operator, and for a library candidate this store can run.  Then `current` names
      it, `previous` what was current before, and the records say so; refused, it
      changes nothing. */
  lemma ActivateOutcome(s: Store, d: Disk, authorised: bool, id: Id, approved: bool)
    ensures var op := Activate(authorised, id, approved);
            var (d', ok) := (Outcome(s, d, op), Plan(s, d, op).1);
            var target, log := Resolve(s.root + ["library"], id), Resolve(s.root + ["state"], id);
            && (ok <==> && authorised && (s.policy == OperatorApproval ==> approved)
                        && UsableAt(s, d, target))
            && d' == (if !ok then d
                      else if d.current == None then
                        d.(current := Some(target), logs := d.logs[log := LogOf(d.logs, log) + [Activated]])
                      else
                        d.(current := Some(target), previous := d.current,
                           logs := Exchanged(s, d, d.current.value.stem, Superseded, id)))
  {
    var target := Spot(s, Library, id);
    if target in d.trees {
      RunsIff(d.trees[target], s.compatibility);
    }
    ActivatedDisk(s, d, id);
  }

  /** Rolling back succeeds exactly if authorised, with both links set and a previous
      candidate this store can run; the links are then exchanged. */
  lemma RollbackOutcome(s: Store, d: Disk, authorised: bool)
    ensures var op := Rollback(authorised);
            var (d', ok) := (Outcome(s, d, op), Plan(s, d, op).1);
            && (ok <==> && authorised && d.current.Some? && d.previous.Some?
                        && UsableAt(s, d, d.previous.value))
            && d' == if !ok then d
                     else d.(current := d.previous, previous := d.current,
                             logs := Exchanged(s, d, d.current.value.stem, RolledBack, d.previous.value.stem))
  {
    if d.current.Some? && d.previous.Some? {
      if d.previous.value in d.trees {
        RunsIff(d.trees[d.previous.value], s.compatibility);
      }
      var es := RollbackPlan(s, d.current.value, d.previous.value);
      FourSteps(s, d, es[0], es[1], es[2], es[3]);
    }
  }

  function LinkOf(d: Disk, link: Link): Option<Place> { if link == Current then d.current else d.previous }

  /** A link is moved only by a step for it, and the copies only by publishing. */
  lemma {:induction false} MovedByAStep(d: Disk, es: seq<Effect>, link: Link)
    ensures var moved := LinkOf(ApplyAll(d, es), link);
            moved != LinkOf(d, link) ==> moved.Some? && Relink(link, moved.value) in es
  {
    if es == [] {
    } else {
      var n := |es| - 1;
      MovedByAStep(d, es[..n], link);
      assert es[n] in es;
    }
  }

  lemma {:induction false} PublishedByAStep(d: Disk, es: seq<Effect>)
    requires forall e :: e in es ==> !e.Publish?
    ensures ApplyAll(d, es).trees == d.trees
  {
    if es == [] {
    } else {
      PublishedByAStep(d, es[..|es| - 1]);
    }
  }

  lemma StepsInCopy(d: Disk, to: Place, t: Tree, order: seq<seq<string>>, log: Place, tr: Transition)
    requires Lists(order, t)
    ensures forall e :: e in CopyPlan(d, to, t, order, log, tr).0 ==> !e.Relink?
  {
    FilesOnly(to.dir, t, order);
  }

  /** The links an operation may move, and what it must hold for that. */
  predicate MayRelink(s: Store, d: Disk, op: Op, link: Link, p: Place) {
    && op.authorised
    && if op.Activate? then
         && (s.policy == OperatorApproval ==> op.approved)
         && UsableAt(s, d, Resolve(s.root + ["library"], op.id))
         && if link == Current then p == Resolve(s.root + ["library"], op.id) else d.current == Some(p)
       else
         && op.Rollback? && d.previous.Some? && UsableAt(s, d, d.previous.value)
         && Some(p) == if link == Current then d.previous else d.current
  }

  lemma LinkSteps(s: Store, d: Disk, op: Op, link: Link, p: Place)
    requires PlanDefined(s, d, op) && Relink(link, p) in Plan(s, d, op).0
    ensures MayRelink(s, d, op, link, p)
  {
    match op
    case Receive(_, t, order) =>
      var id := Validate(t).value.candidateId;
      StepsInCopy(d, Spot(s, Received, id), t, order, LogSpot(s, id), WasReceived);
    case Check(_, _) =>
    case Stage(_, id, order) =>
      StepsInCopy(d, Spot(s, Library, id), d.trees[Spot(s, Received, id)], order, LogSpot(s, id), Staged);
    case Activate(_, id, _) => RunsIff(d.trees[Spot(s, Library, id)], s.compatibility);
    case Rollback(_) => RunsIff(d.trees[d.previous.value], s.compatibility);
  }

  lemma LinkMoves(s: Store, d: Disk, op: Op, k: nat, link: Link)
    requires PlanDefined(s, d, op) && k <= |Plan(s, d, op).0|
    ensures var moved := LinkOf(ApplyAll(d, Plan(s, d, op).0[..k]), link);
            moved != LinkOf(d, link) ==> moved.Some? && MayRelink(s, d, op, link, moved.value)
  {
    var es := Plan(s, d, op).0;
    MovedByAStep(d, es[..k], link);
    forall p | Relink(link, p) in es[..k] ensures MayRelink(s, d, op, link, p) {
      LinkSteps(s, d, op, link, p);
    }
  }

  lemma NothingPublished(s: Store, d: Disk, op: Op, k: nat)
    requires PlanDefined(s, d, op) && k <= |Plan(s, d, op).0| && !op.Receive? && !op.Stage?
    ensures ApplyAll(d, Plan(s, d, op).0[..k]).trees == d.trees
  {
    var es := Plan(s, d, op).0;
    assert forall e :: e in es ==> !e.Publish?;
    PublishedByAStep(d, es[..k]);
  }

  /** In every run, cut operations included: an operation of any kind that is not
      authorised changes nothing at all; `current` moves only to the library
      candidate of an authorised activation, which an operator has approved where the
      policy asks for that, or back to `previous` by an authorised rollback, and only
      to a candidate this store can run; `previous` moves only to what was current;
      and copies are published only by receiving and staging. */
  lemma ChangesAreAuthorised(s: Store, disks: seq<Disk>, run: seq<Attempt>, i: nat)
    requires IsRun(s, disks, run) && i < |run|
    ensures var d, d', op := disks[i], disks[i + 1], run[i].op;
            && (!op.authorised ==> d' == d)
            && (d'.current != d.current ==> d'.current.Some? && MayRelink(s, d, op, Current, d'.current.value))
            && (d'.previous != d.previous ==> d'.previous.Some? && MayRelink(s, d, op, Previous, d'.previous.value))
            && (d'.trees != d.trees ==> op.Receive? || op.Stage?)
  {
    var d, op := disks[i], run[i].op;
    assert Attempted(s, d, run[i], disks[i + 1]);
    LinkMoves(s, d, op, run[i].steps, Current);
    LinkMoves(s, d, op, run[i].steps, Previous);
    if !op.Receive? && !op.Stage? {
      NothingPublished(s, d, op, run[i].steps);
    }
  }

  /** In every run over plain ids, at every boundary, `current` and `previous` name
      library copies this store can run, and every copy in the store is complete and
      filed under the id of its own manifest. */
  lemma StoreHoldsGenuineCopies(s: Store, disks: seq<Disk>, run: seq<Attempt>, i: nat)
    requires IsRun(s, disks, run) && PlainRun(run) && i <= |run|
    ensures var d := disks[i];
            && (forall link :: link in {d.current, d.previous} && link.Some? ==>
                  link.value.dir == s.root + ["library"] && UsableAt(s, d, link.value))
            && (forall p :: p in d.trees && p.dir in {s.root + ["received"], s.root + ["library"]} ==>
                  Genuine(d.trees[p]) && d.trees[p][["candidate.json"]].manifest.candidateId == p.stem)
  {
    var d := disks[i];
    RunKeepsSafe(s, disks, run, i);
    forall p | p in d.trees && InArea(s, p)
      ensures Genuine(d.trees[p]) && d.trees[p][["candidate.json"]].manifest.candidateId == p.stem
    {
      ValidIff(d.trees[p]);
    }
    forall p | p in d.trees && RunsAt(s, d, p) ensures UsableAt(s, d, p) {
      RunsIff(d.trees[p], s.compatibility);
    }
  }

  // ---------------------------------------------------------------- ids that are not plain

  /** A step that touches only the places meant for `id`: its copy in the area it
      is copied to, its library entry, its log, and what belongs to the candidate
      that was active before. */
  predicate MeantFor(s: Store, area: Area, id: Id, e: Effect) {
    match e
    case ClearStaging(dir) => dir == AreaDir(s, area)
    case CopyFile(dir, _, _) => dir == AreaDir(s, area)
    case Publish(p) => p == Own(s, area, id)
    case Relink(link, p) => link == Previous || p == Own(s, Library, id)
    case Record(log, t) => t == Superseded || log == OwnLog(s, id)
  }

  function Target(op: Op): Area { if op.Receive? then Received else Library }

  lemma CopyIsMeantFor(s: Store, d: Disk, area: Area, id: Id, t: Tree, order: seq<seq<string>>, log: Place,
                       tr: Transition)
    requires Lists(order, t) && log == OwnLog(s, id)
    ensures forall e :: e in CopyPlan(d, Own(s, area, id), t, order, log, tr).0 ==> MeantFor(s, area, id, e)
  {
    FilesOnly(AreaDir(s, area), t, order);
  }

  /** Whatever an operation does, it ends with a record about its id. */
  lemma RecordsItsSubject(s: Store, d: Disk, op: Op, id: Id)
    requires PlanDefined(s, d, op) && Subject(op) == Some(id) && Plan(s, d, op).0 != []
    ensures exists tr :: tr != Superseded && Record(LogSpot(s, id), tr) in Plan(s, d, op).0
  {
    var es := Plan(s, d, op).0;
    var last := es[|es| - 1];
    assert last == Record(LogSpot(s, id), last.transition) && last in es;
  }

  lemma PlainStaysAtHome(s: Store, d: Disk, op: Op, id: Id)
    requires PlanDefined(s, d, op) && Subject(op) == Some(id) && Plain(id)
    ensures forall e :: e in Plan(s, d, op).0 ==> MeantFor(s, Target(op), id, e)
  {
    AtHomePlain(s, id);
    match op
    case Receive(_, t, order) => CopyIsMeantFor(s, d, Received, id, t, order, OwnLog(s, id), WasReceived);
    case Stage(_, _, order) =>
      if RunsAt(s, d, Own(s, Received, id)) {
        CopyIsMeantFor(s, d, Library, id, d.trees[Own(s, Received, id)], order, OwnLog(s, id), Staged);
      }
    case _ =>
  }

  /** An operation that does anything touches only the places meant for its id
      exactly when the id holds no slash: nothing checks that it does not. */
  lemma StaysAtHomeIff(s: Store, d: Disk, op: Op, id: Id)
    requires PlanDefined(s, d, op) && Subject(op) == Some(id) && Plan(s, d, op).0 != []
    ensures (forall e :: e in Plan(s, d, op).0 ==> MeantFor(s, Target(op), id, e)) <==> Plain(id)
  {
    if Plain(id) {
      PlainStaysAtHome(s, d, op, id);
    } else {
      RecordsItsSubject(s, d, op, id);
      ResolvesToItselfIff(StateDir(s), id);
    }
  }

  lemma LibrarySpots(s: Store)
    ensures Spot(s, Received, "../library/x") == Own(s, Library, "x")
    ensures LogSpot(s, "../library/x") == Place(AreaDir(s, Library), "x")
  {
    assert "../library/x" == "../" + "library" + "/" + "x";
    ResolvesBeside(s.root, "received", "library", "x");
    ResolvesBeside(s.root, "state", "library", "x");
  }

  lemma CopiedTree(s: Store, d: Disk, to: Place, t: Tree, order: seq<seq<string>>, log: Place, tr: Transition)
    requires Lists(order, t) && to !in d.trees
    ensures var d' := ApplyAll(d, CopyPlan(d, to, t, order, log, tr).0); to in d'.trees && d'.trees[to] == t
  {
    CopyPublishes(s, d, to, t, order);
    OneMore(s, d, Copy(d, to, t, order).value, Record(log, tr));
  }

  lemma CopiedUnderAnotherId(s: Store, d: Disk, id: Id, t: Tree, order: seq<seq<string>>, log: Place, tr: Transition)
    requires Fresh(s, d) && Lists(order, t) && Validate(t).Some? && !Filed(t, id) && log.dir != StateDir(s)
    ensures var to := Own(s, Library, id);
            var d' := ApplyAll(d, CopyPlan(d, to, t, order, log, tr).0);
            && CopyPlan(d, to, t, order, log, tr).1
            && to in d'.trees && d'.trees[to] == t
            && LogOf(d'.logs, OwnLog(s, id)) == []
            && !Safe(s, d') && !Ledger(s, d')
  {
    var to := Own(s, Library, id);
    WrongCopy(s, d, to, t, order, log, tr);
    CopiedTree(s, d, to, t, order, log, tr);
    CopyThenRecord(s, d, to, t, order, log, tr);
  }

  lemma PlanOfReceive(s: Store, d: Disk, t: Tree, order: seq<seq<string>>, id: Id)
    requires Lists(order, t) && Filed(t, id)
    ensures Plan(s, d, Receive(true, t, order))
         == CopyPlan(d, Spot(s, Received, id), t, order, LogSpot(s, id), WasReceived)
  {
  }

  lemma PlanOfActivate(s: Store, d: Disk, id: Id)
    requires Plain(id) && RunsAt(s, d, Own(s, Library, id))
    ensures Plan(s, d, Activate(true, id, true)).1
  {
    AtHomePlain(s, id);
  }

  lemma ReceivedBeside(s: Store, d: Disk, t: Tree, order: seq<seq<string>>, id: Id, name: Id)
    requires Fresh(s, d) && Lists(order, t) && Filed(t, id) && Runs(t, s.compatibility)
    requires Plain(name) && id != name
    requires Spot(s, Received, id) == Own(s, Library, name) && LogSpot(s, id) == Place(AreaDir(s, Library), name)
    ensures var d' := Outcome(s, d, Receive(true, t, order));
            && Plan(s, d, Receive(true, t, order)).1
            && !Safe(s, d') && !Ledger(s, d')
            && Plan(s, d', Activate(true, name, true)).1
            && LogOf(d'.logs, OwnLog(s, name)) == []
  {
    Apart(s);
    PlanOfReceive(s, d, t, order, id);
    CopiedUnderAnotherId(s, d, name, t, order, LogSpot(s, id), WasReceived);
    PlanOfActivate(s, Outcome(s, d, Receive(true, t, order)), name);
  }

  /** So the id "../library/x" is received straight into the library, where "x"
      can then be activated, although it was never received or staged and the
      manifest found under that name has another id. */
  lemma ReceivedIntoTheLibrary(s: Store, d: Disk, t: Tree, order: seq<seq<string>>)
    requires Fresh(s, d) && Lists(order, t) && Filed(t, "../library/x") && Runs(t, s.compatibility)
    ensures var d' := Outcome(s, d, Receive(true, t, order));
            && Plan(s, d, Receive(true, t, order)).1
            && !Safe(s, d') && !Ledger(s, d')
            && Plan(s, d', Activate(true, "x", true)).1
            && LogOf(d'.logs, OwnLog(s, "x")) == []
  {
    LibrarySpots(s);
    ReceivedBeside(s, d, t, order, "../library/x", "x");
  }

  lemma ReceivedSpot(s: Store)
    ensures Spot(s, Library, "../received/y") == Own(s, Received, "y")
  {
    assert "../received/y" == "../" + "received" + "/" + "y";
    ResolvesBeside(s.root, "library", "received", "y");
  }

  /** And the id "../received/y" activates a copy that is not in the library. */
  lemma ActivatedOutsideTheLibrary(s: Store, d: Disk)
    requires Safe(s, d) && RunsAt(s, d, Own(s, Received, "y"))
    ensures var d' := Outcome(s, d, Activate(true, "../received/y", true));
            && Plan(s, d, Activate(true, "../received/y", true)).1
            && d'.current == Some(Own(s, Received, "y"))
            && !Safe(s, d')
  {
    ReceivedSpot(s);
    Apart(s);
    ActivatedTarget(s, d, "../received/y");
  }

  // ---------------------------------------------------------------- the store in place

  /** The disk after each step of a plan. */
  function Boundaries(d: Disk, es: seq<Effect>): seq<Disk> {
    if es == [] then [] else Boundaries(d, es[..|es| - 1]) + [ApplyAll(d, es)]
  }

  lemma {:induction false} BoundaryCount(d: Disk, es: seq<Effect>)
    ensures |Boundaries(d, es)| == |es|
  {
    if es == [] {
    } else {
      BoundaryCount(d, es[..|es| - 1]);
    }
  }

  /** They are the disks a crash between the steps can leave. */
  lemma {:induction false} BoundaryAt(d: Disk, es: seq<Effect>, k: nat)
    requires k < |es|
    ensures k < |Boundaries(d, es)| && Boundaries(d, es)[k] == ApplyAll(d, es[..k + 1])
    decreases |es|
  {
    var n := |es| - 1;
    BoundaryCount(d, es[..n]);
    if k < n {
      BoundaryAt(d, es[..n], k);
      assert es[..n][..k + 1] == es[..k + 1];
    } else {
      assert es[..k + 1] == es;
    }
  }

  /** Some order that lists a tree. */
  ghost function Listing(t: Tree): (order: seq<seq<string>>)
    ensures Lists(order, t)
  {
    ListingOf(t.Keys)
  }

  ghost function ListingOf(paths: set<seq<string>>): (order: seq<seq<string>>)
    ensures forall p :: p in order <==> p in paths
  {
    if paths == {} then [] else var p :| p in paths; [p] + ListingOf(paths - {p})
  }

  /** Every state an operation on a plain id passes through is safe. */
  lemma PassedStatesAreSafe(s: Store, d: Disk, op: Op, k: nat)
    requires Safe(s, d) && PlanDefined(s, d, op) && PlainOp(op) && k < |Boundaries(d, Plan(s, d, op).0)|
    ensures Safe(s, Boundaries(d, Plan(s, d, op).0)[k]) && Grows(d, Boundaries(d, Plan(s, d, op).0)[k])
  {
    var es := Plan(s, d, op).0;
    BoundaryCount(d, es);
    BoundaryAt(d, es, k);
    CrashSafety(s, d, op, k + 1);
  }

  class CandidateStore {
    const store: Store
    var disk: Disk
    /** Every state the disk has been in, one entry for each file step. */
    ghost var trail: seq<Disk>

    constructor (store: Store, disk: Disk)
      ensures this.store == store && this.disk == disk && trail == []
    {
      this.store := store;
      this.disk := disk;
      trail := [];
    }

    /** The method has taken exactly the steps `es` from disk `d` and trail `t`. */
    ghost predicate Did(d: Disk, t: seq<Disk>, es: seq<Effect>)
      reads this
    {
      disk == ApplyAll(d, es) && trail == t + Boundaries(d, es)
    }

    method Step(e: Effect, ghost d: Disk, ghost t: seq<Disk>, ghost es: seq<Effect>) returns (ghost more: seq<Effect>)
      requires Did(d, t, es)
      modifies this
      ensures more == es + [e] && Did(d, t, more)
    {
      disk := Apply(disk, e);
      trail := trail + [disk];
      more := es + [e];
      assert (es + [e])[..|es|] == es;
    }

    /** Files are copied in whatever order the directory lists them. */
    method CopyImmutableTree(to: Place, t: Tree, ghost trail0: seq<Disk>)
      returns (ok: bool, ghost order: seq<seq<string>>)
      requires Validate(t).Some? && trail == trail0
      modifies this
      ensures Lists(order, t)
      ensures ok == Copy(old(disk), to, t, order).Some?
      ensures Did(old(disk), trail0, if ok then Copy(old(disk), to, t, order).value else [])
    {
      ghost var d := disk;
      order := [];
      if to in disk.trees {
        ok := Validate(disk.trees[to]) == Validate(t);
        order := Listing(t);
        return;
      }
      ghost var es := Step(ClearStaging(to.dir), d, trail0, []);
      var rest := t.Keys;
      while rest != {}
        invariant rest <= t.Keys
        invariant forall p :: p in order <==> p in t.Keys - rest
        invariant es == [ClearStaging(to.dir)] + CopyFiles(to.dir, t, order) && Did(d, trail0, es)
      {
        var p :| p in rest;
        es := Step(CopyFile(to.dir, p, t[p]), d, trail0, es);
        assert (order + [p])[..|order|] == order;
        order, rest := order + [p], rest - {p};
      }
      // Re-validating the staged copy cannot fail: it is the source, file by file.
      CopyStages(store, d, to.dir, t, order);
      assert Validate(disk.staging[to.dir]) == Validate(t);
      ok := true;
      es := Step(Publish(to), d, trail0, es);
    }

    method Receive(authorised: bool, candidate: Tree) returns (ok: bool, ghost order: seq<seq<string>>)
      modifies this
      ensures Lists(order, candidate)
      ensures var plan := Plan(store, old(disk), Op.Receive(authorised, candidate, order));
              ok == plan.1 && Did(old(disk), old(trail), plan.0)
    {
      order := Listing(candidate);
      var manifest := Validate(candidate);
      if !authorised || manifest.None? {
        return false, order;
      }
      var id := manifest.value.candidateId;
      var to := Spot(store, Received, id);
      ok, order := CopyImmutableTree(to, candidate, trail);
      if ok {
        ghost var _ := Step(Record(LogSpot(store, id), WasReceived), old(disk), old(trail),
                            Copy(old(disk), to, candidate, order).value);
      }
    }

    method Stage(authorised: bool, id: Id) returns (ok: bool, ghost order: seq<seq<string>>)
      modifies this
      ensures PlanDefined(store, old(disk), Op.Stage(authorised, id, order))
      ensures var plan := Plan(store, old(disk), Op.Stage(authorised, id, order));
              ok == plan.1 && Did(old(disk), old(trail), plan.0)
    {
      order := [];
      var from, to := Spot(store, Received, id), Spot(store, Library, id);
      if from !in disk.trees {
        return false, [];
      }
      order := Listing(disk.trees[from]);
      if !authorised || !Runs(disk.trees[from], store.compatibility) {
        return false, order;
      }
      ok, order := CopyImmutableTree(to, disk.trees[from], trail);
      if ok {
        ghost var _ := Step(Record(LogSpot(store, id), Staged), old(disk), old(trail),
                            Copy(old(disk), to, old(disk).trees[from], order).value);
      }
    }

    /** The records that close an exchange: how the candidate active before ended,
        if there was one, and that `id` is active now. */
    method RecordExchange(was: Option<Place>, end: Transition, id: Id, ghost d: Disk, ghost t: seq<Disk>,
                          ghost es: seq<Effect>)
      returns (ghost more: seq<Effect>)
      requires Did(d, t, es)
      modifies this
      ensures more == es + (if was.Some? then [Record(LogSpot(store, was.value.stem), end)] else [])
                      + [Record(LogSpot(store, id), Activated)]
      ensures Did(d, t, more)
    {
      more := es;
      if was.Some? {
        more := Step(Record(LogSpot(store, was.value.stem), end), d, t, more);
      }
      more := Step(Record(LogSpot(store, id), Activated), d, t, more);
    }

    /** The steps of an activation, once it is allowed. */
    method SwapIn(id: Id)
      modifies this
      ensures Did(old(disk), old(trail), ActivatePlan(store, old(disk), id))
    {
      ghost var d, t := disk, trail;
      var was := disk.current;
      ghost var es := [];
      if was.Some? {
        es := Step(Relink(Previous, was.value), d, t, es);
      }
      es := Step(Relink(Current, Spot(store, Library, id)), d, t, es);
      es := RecordExchange(was, Superseded, id, d, t, es);
      assert es == ActivatePlan(store, d, id);
    }

    method Activate(authorised: bool, id: Id, approved: bool) returns (ok: bool)
      modifies this
      ensures var plan := Plan(store, old(disk), Op.Activate(authorised, id, approved));
              ok == plan.1 && Did(old(disk), old(trail), plan.0)
    {
      if !authorised || (store.policy == OperatorApproval && !approved) {
        return false;
      }
      var target := Spot(store, Library, id);
      if target !in disk.trees || !Runs(disk.trees[target], store.compatibility) {
        return false;
      }
      SwapIn(id);
      return true;
    }

    method Rollback(authorised: bool) returns (ok: bool)
      modifies this
      ensures var plan := Plan(store, old(disk), Op.Rollback(authorised));
              ok == plan.1 && Did(old(disk), old(trail), plan.0)
    {
      if !authorised || disk.current.None? || disk.previous.None? {
        return false;
      }
      var active, previous := disk.current.value, disk.previous.value;
      if previous !in disk.trees || !Runs(disk.trees[previous], store.compatibility) {
        return false;
      }
      ghost var d, t := disk, trail;
      ghost var es := [];
      es := Step(Relink(Current, previous), d, t, es);
      es := Step(Relink(Previous, active), d, t, es);
      es := RecordExchange(Some(active), RolledBack, previous.stem, d, t, es);
      assert es == RollbackPlan(store, active, previous);
      return true;
    }

    method Check(authorised: bool, id: Id) returns (ok: bool)
      modifies this
      ensures var plan := Plan(store, old(disk), Op.Check(authorised, id));
              ok == plan.1 && Did(old(disk), old(trail), plan.0)
    {
      if !authorised {
        return false;
      }
      var received := Spot(store, Received, id);
      ok := received in disk.trees && Runs(disk.trees[received], store.compatibility);
      ghost var _ := Step(Record(LogSpot(store, id), if ok then Validated else Rejected), disk, trail, []);
    }
  }
}
