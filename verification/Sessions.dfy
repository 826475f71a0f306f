/**
 The OBEX session manager (internal/obex/sessions.go) as it runs under the worker
 (internal/obex/profiles.go): `Open`, `RefreshMAP` and `Close` execute one at a time on the
 worker, each remote call being a step of its own, while `Monitor` signals, the `close(false)`
 of `Watch` and obexd itself act between any two of those steps.
 */
module Sessions {
  import opened Wrappers

  /** A session's D-Bus object path; a field that holds none is `None`. */
  type Path = nat

  /** What the mutex of `Sessions` protects. */
  datatype Fields = Fields(phone: bool, mapPath: Option<Path>, pbapPath: Option<Path>)

  function Paths(path: Option<Path>): set<Path> { if path.Some? then {path.value} else {} }

  function Tracked(f: Fields): set<Path> { Paths(f.mapPath) + Paths(f.pbapPath) }

  /** The tracked paths in the order in which `close` removes them. */
  function PathList(f: Fields): (r: seq<Path>)
    ensures (set p | p in r) == Tracked(f)
  {
    (if f.mapPath.Some? then [f.mapPath.value] else []) + (if f.pbapPath.Some? then [f.pbapPath.value] else [])
  }

  function Cleared(f: Fields): Fields { f.(mapPath := None, pbapPath := None) }

  function WithoutPath(f: Fields, path: Path): Fields {
    f.(mapPath := if f.mapPath == Some(path) then None else f.mapPath,
       pbapPath := if f.pbapPath == Some(path) then None else f.pbapPath)
  }

  /** The critical sections of the Go object; everything else happens outside its mutex. */
  class Manager {
    var phone: bool
    var mapPath: Option<Path>
    var pbapPath: Option<Path>

    function Contents(): Fields
      reads this
    {
      Fields(phone, mapPath, pbapPath)
    }

    constructor ()
      ensures Contents() == Fields(false, None, None)
    {
      phone, mapPath, pbapPath := false, None, None;
    }

    /** `None` is the empty path: it clears nothing, and counts as lost while a field is empty. */
    method MarkLost(path: Option<Path>) returns (lost: bool)
      modifies this
      ensures Contents() == if path.Some? then WithoutPath(old(Contents()), path.value) else old(Contents())
      ensures path.Some? ==> (lost <==> path.value in Tracked(old(Contents())))
      ensures path.None? ==> (lost <==> old(mapPath).None? || old(pbapPath).None?)
    {
      lost := false;
      if mapPath == path {
        mapPath := None;
        lost := true;
      }
      if pbapPath == path {
        pbapPath := None;
        lost := true;
      }
    }

    method MarkServiceLost() returns (lost: bool)
      modifies this
      ensures Contents() == Cleared(old(Contents()))
      ensures lost <==> Tracked(old(Contents())) != {}
    {
      lost := mapPath.Some? || pbapPath.Some?;
      assert mapPath.Some? ==> mapPath.value in Tracked(Contents());
      assert pbapPath.Some? ==> pbapPath.value in Tracked(Contents());
      mapPath := None;
      pbapPath := None;
    }

    /** The locked part of `close`. */
    method TakeAll() returns (paths: seq<Path>)
      modifies this
      ensures Contents() == Cleared(old(Contents()))
      ensures paths == PathList(old(Contents()))
    {
      paths := if mapPath.Some? then [mapPath.value] else [];
      if pbapPath.Some? {
        paths := paths + [pbapPath.value];
      }
      mapPath, pbapPath := None, None;
    }

    /** The first locked part of `RefreshMAP`. */
    method TakeMap() returns (ok: bool, path: Option<Path>)
      modifies this
      ensures ok == old(phone)
      ensures ok ==> path == old(mapPath) && Contents() == old(Contents()).(mapPath := None)
      ensures !ok ==> Contents() == old(Contents())
    {
      ok, path := phone, mapPath;
      if ok {
        mapPath := None;
      }
    }

    /** The locked end of `Open`. */
    method Publish(newMap: Path, newPbap: Path)
      modifies this
      ensures Contents() == Fields(true, Some(newMap), Some(newPbap))
    {
      phone, mapPath, pbapPath := true, Some(newMap), Some(newPbap);
    }

    /** The locked end of `RefreshMAP`. */
    method PublishMap(newMap: Path)
      modifies this
      ensures Contents() == old(Contents()).(mapPath := Some(newMap))
    {
      mapPath := Some(newMap);
    }
  }

  // ---------------------------------------------------------------- the transition system

  datatype Target = MAP | PBAP

  /** A session as obexd lists it: whether its destination is the configured phone, and the target
      it reports, if that is one of the two this program asks for. */
  datatype Remote = Remote(ours: bool, reported: Option<Target>)

  /** What a `create` call is for. `OpenPbap` carries the MAP path `Open` already holds. */
  datatype Goal = OpenMap | OpenPbap(held: Path) | RefreshGoal

  function TargetOf(goal: Goal): Target { if goal.OpenPbap? then PBAP else MAP }

  datatype Next = FirstCreate | RetryCreate(goal: Goal)

  /** Where the operation on the worker stands. */
  datatype Op =
    | NoOp
    | Validating
    | CheckingReady
    | Taking(removeRemote: bool, reopen: bool)
    | RemovingTaken(paths: seq<Path>, failed: bool, reopen: bool)
    | Listing(targets: set<Target>, next: Next)
    | RemovingStale(stale: set<Path>, next: Next)
    | Creating(goal: Goal, retry: bool)
    | Abandoning(path: Path)
    | Publishing(newMap: Path, newPbap: Path)
    | TakingMap
    | RemovingOld(path: Path)
    | PublishingMap(newMap: Path)

  /** `used` are the paths obexd has ever handed out. The last four fields are history: the paths
      this program asked obexd to remove, those obexd returned to its `create` calls per target, and
      those it stopped tracking on a loss signal or a `close(false)`. */
  datatype State = State(
    fields: Fields,
    op: Op,
    live: map<Path, Remote>,
    used: set<Path>,
    requested: set<Path>,
    createdMap: set<Path>,
    createdPbap: set<Path>,
    dropped: set<Path>)

  datatype Step =
    | BeginOpen
    | BeginRefresh
    | BeginClose(removeRemote: bool)
    | Validate(ok: bool)
    | CheckReady
    | TakeAll
    | RemoveTaken(ok: bool, gone: bool)
    | TakenRemoved
    | ListSessions(ok: bool)
    | RemoveStale(path: Path, ok: bool, gone: bool)
    | StaleRemoved
    | Created(path: Path, remote: Remote)
    | CreateForbidden
    | CreateFailed
    | Abandon(gone: bool)
    | Publish
    | TakeMap
    | RemoveOld(ok: bool, gone: bool)
    | PublishMap
    | SignalRemoved(path: Path)
    | SignalServiceLost
    | UnqueuedClose
    | RemoteAppears(path: Path, remote: Remote)
    | RemoteVanishes(path: Path)

  function Init(live: map<Path, Remote>): State {
    State(Fields(false, None, None), NoOp, live, live.Keys, {}, {}, {}, {})
  }

  /** The sessions of the phone that report one of the targets: what `removeStale` removes. */
  function Matching(live: map<Path, Remote>, targets: set<Target>): set<Path> {
    set p | p in live && live[p].ours && live[p].reported.Some? && live[p].reported.value in targets
  }

  /** The two assumptions about obexd are the guards of `Created` and `RemoteAppears`: a path is never
      handed out twice, and a session made for one target does not report the other one. */
  predicate Enabled(s: State, t: Step) {
    match t
    case BeginOpen => s.op.NoOp?
    case BeginRefresh => s.op.NoOp?
    case BeginClose(_) => s.op.NoOp?
    case Validate(_) => s.op.Validating?
    case CheckReady => s.op.CheckingReady?
    case TakeAll => s.op.Taking?
    case RemoveTaken(_, _) => s.op.RemovingTaken? && s.op.paths != []
    case TakenRemoved => s.op.RemovingTaken? && s.op.paths == []
    case ListSessions(_) => s.op.Listing?
    case RemoveStale(path, _, _) => s.op.RemovingStale? && path in s.op.stale
    case StaleRemoved => s.op.RemovingStale? && s.op.stale == {}
    case Created(path, remote) =>
      s.op.Creating? && path !in s.used && (remote.reported.Some? ==> remote.reported.value == TargetOf(s.op.goal))
    case CreateForbidden => s.op.Creating?
    case CreateFailed => s.op.Creating?
    case Abandon(_) => s.op.Abandoning?
    case Publish => s.op.Publishing?
    case TakeMap => s.op.TakingMap?
    case RemoveOld(_, _) => s.op.RemovingOld?
    case PublishMap => s.op.PublishingMap?
    case SignalRemoved(_) => true
    case SignalServiceLost => true
    case UnqueuedClose => true
    case RemoteAppears(path, _) => path !in s.used
    case RemoteVanishes(_) => true
  }

  /** The path a step asks obexd to remove. */
  function Removal(s: State, t: Step): Option<Path>
    requires Enabled(s, t)
  {
    match t
    case RemoveTaken(_, _) => Some(s.op.paths[0])
    case RemoveStale(path, _, _) => Some(path)
    case Abandon(_) => Some(s.op.path)
    case RemoveOld(_, _) => Some(s.op.path)
    case _ => None
  }

  /** Issue `RemoveSession`; `gone` says whether obexd has dropped the session when the call returns. */
  function Remove(s: State, path: Path, gone: bool): State {
    s.(requested := s.requested + {path}, live := if gone then s.live - {path} else s.live)
  }

  function AfterCreate(goal: Goal, path: Path): Op {
    match goal
    case OpenMap => Creating(OpenPbap(path), true)
    case OpenPbap(held) => Publishing(held, path)
    case RefreshGoal => PublishingMap(path)
  }

  /** A failed `create`: `Open` first removes the MAP session it already made. */
  function AfterCreateError(goal: Goal): Op {
    if goal.OpenPbap? then Abandoning(goal.held) else NoOp
  }

  /** A failed `removeStale`: inside a `create` it fails that `create`. */
  function AfterStaleError(next: Next): Op {
    if next.RetryCreate? then AfterCreateError(next.goal) else NoOp
  }

  function Apply(s: State, t: Step): State
    requires Enabled(s, t)
  {
    match t
    case BeginOpen => s.(op := Validating)
    case BeginRefresh => s.(op := TakingMap)
    case BeginClose(removeRemote) => s.(op := Taking(removeRemote, false))
    case Validate(ok) => s.(op := if ok then CheckingReady else NoOp)
    case CheckReady =>
      s.(op := if s.fields.mapPath.Some? && s.fields.pbapPath.Some? then NoOp else Taking(true, true))
    case TakeAll =>
      if s.op.removeRemote
      then s.(fields := Cleared(s.fields), op := RemovingTaken(PathList(s.fields), false, s.op.reopen))
      else s.(fields := Cleared(s.fields), op := NoOp, dropped := s.dropped + Tracked(s.fields))
    case RemoveTaken(ok, gone) =>
      Remove(s, s.op.paths[0], gone).(op := RemovingTaken(s.op.paths[1..], s.op.failed || !ok, s.op.reopen))
    case TakenRemoved =>
      s.(op := if s.op.reopen && !s.op.failed then Listing({MAP, PBAP}, FirstCreate) else NoOp)
    case ListSessions(ok) =>
      s.(op := if ok then RemovingStale(Matching(s.live, s.op.targets), s.op.next) else AfterStaleError(s.op.next))
    case RemoveStale(path, ok, gone) =>
      Remove(s, path, gone).(
        op := if ok then RemovingStale(s.op.stale - {path}, s.op.next) else AfterStaleError(s.op.next))
    case StaleRemoved =>
      s.(op := if s.op.next.FirstCreate? then Creating(OpenMap, true) else Creating(s.op.next.goal, false))
    case Created(path, remote) =>
      var s' := s.(op := AfterCreate(s.op.goal, path), live := s.live[path := remote], used := s.used + {path});
      if s.op.goal.OpenPbap?
      then s'.(createdPbap := s.createdPbap + {path})
      else s'.(createdMap := s.createdMap + {path})
    case CreateForbidden =>
      s.(op := if s.op.retry then Listing({TargetOf(s.op.goal)}, RetryCreate(s.op.goal))
               else AfterCreateError(s.op.goal))
    case CreateFailed => s.(op := AfterCreateError(s.op.goal))
    case Abandon(gone) => Remove(s, s.op.path, gone).(op := NoOp)
    case Publish => s.(fields := Fields(true, Some(s.op.newMap), Some(s.op.newPbap)), op := NoOp)
    case TakeMap =>
      if !s.fields.phone then s.(op := NoOp)
      else s.(fields := s.fields.(mapPath := None),
              op := if s.fields.mapPath.Some? then RemovingOld(s.fields.mapPath.value) else Creating(RefreshGoal, true))
    case RemoveOld(ok, gone) =>
      Remove(s, s.op.path, gone).(op := if ok then Creating(RefreshGoal, true) else NoOp)
    case PublishMap => s.(fields := s.fields.(mapPath := Some(s.op.newMap)), op := NoOp)
    case SignalRemoved(path) =>
      s.(fields := WithoutPath(s.fields, path), dropped := s.dropped + (Tracked(s.fields) * {path}))
    case SignalServiceLost => s.(fields := Cleared(s.fields), dropped := s.dropped + Tracked(s.fields))
    case UnqueuedClose => s.(fields := Cleared(s.fields), dropped := s.dropped + Tracked(s.fields))
    case RemoteAppears(path, remote) => s.(live := s.live[path := remote], used := s.used + {path})
    case RemoteVanishes(path) => s.(live := s.live - {path})
  }

  /** The steps of the system are performed by the object: each locked section of the source leaves the fields that
      the step prescribes, and hands the operation the paths it goes on with. */
  method Perform(m: Manager, s: State, t: Step)
    requires m.Contents() == s.fields && Enabled(s, t)
    modifies m
    ensures m.Contents() == Apply(s, t).fields
  {
    match t {
      case TakeAll =>
        var paths := m.TakeAll();
        assert s.op.removeRemote ==> Apply(s, t).op.paths == paths;
      case Publish => m.Publish(s.op.newMap, s.op.newPbap);
      case TakeMap =>
        var ok, path := m.TakeMap();
        assert ok && path.Some? ==> Apply(s, t).op == RemovingOld(path.value);
        assert ok && path.None? ==> Apply(s, t).op == Creating(RefreshGoal, true);
        assert !ok ==> Apply(s, t).op == NoOp;
      case PublishMap => m.PublishMap(s.op.newMap);
      case SignalRemoved(path) =>
        var lost := m.MarkLost(Some(path));
        assert lost <==> path in Tracked(s.fields);
      case SignalServiceLost =>
        var lost := m.MarkServiceLost();
        assert lost <==> Tracked(s.fields) != {};
      case UnqueuedClose =>
        var paths := m.TakeAll();
      case _ =>
    }
  }

  ghost predicate IsExecution(states: seq<State>, steps: seq<Step>) {
    && |states| == |steps| + 1
    && (exists live :: states[0] == Init(live))
    && forall n :: 0 <= n < |steps| ==> Enabled(states[n], steps[n]) && states[n + 1] == Apply(states[n], steps[n])
  }

  // ---------------------------------------------------------------- invariants

  function HeldByGoal(goal: Goal): set<Path> { if goal.OpenPbap? then {goal.held} else {} }

  function HeldByNext(next: Next): set<Path> { if next.RetryCreate? then HeldByGoal(next.goal) else {} }

  /** MAP paths the running operation holds and is about to publish. */
  function PendingMap(op: Op): set<Path> {
    match op
    case Creating(goal, _) => HeldByGoal(goal)
    case Listing(_, next) => HeldByNext(next)
    case RemovingStale(_, next) => HeldByNext(next)
    case Publishing(newMap, _) => {newMap}
    case PublishingMap(newMap) => {newMap}
    case _ => {}
  }

  function PendingPbap(op: Op): set<Path> { if op.Publishing? then {op.newPbap} else {} }

  function Pending(op: Op): set<Path> { PendingMap(op) + PendingPbap(op) }

  /** Paths the running operation is committed to remove although it did not find them by listing. */
  function Condemned(op: Op): set<Path> {
    match op
    case RemovingTaken(paths, _, _) => set p | p in paths
    case Abandoning(path) => {path}
    case RemovingOld(path) => {path}
    case _ => {}
  }

  predicate RefreshNext(next: Next) { next.RetryCreate? && next.goal.RefreshGoal? }

  /** `RefreshMAP` is running, past its first critical section. */
  predicate InRefresh(op: Op) {
    match op
    case RemovingOld(_) => true
    case Creating(goal, _) => goal.RefreshGoal?
    case Listing(_, next) => RefreshNext(next)
    case RemovingStale(_, next) => RefreshNext(next)
    case PublishingMap(_) => true
    case _ => false
  }

  /** `Open` or `close(true)` is running, past the critical section that clears both paths. */
  predicate PastTaking(op: Op) {
    !InRefresh(op) && !(op.NoOp? || op.Validating? || op.CheckingReady? || op.Taking? || op.TakingMap?)
  }

  /** The listing asks only for targets that the paths kept meanwhile do not report. */
  predicate ListingInv(op: Op) {
    && (op.Listing? && op.next.RetryCreate? ==> op.targets == {TargetOf(op.next.goal)})
  }

  /** Sessions are made for one target and report no other. */
  predicate TargetInv(s: State) {
    && s.createdMap !! s.createdPbap
    && s.createdMap <= s.used && s.createdPbap <= s.used && s.live.Keys <= s.used
    && (forall p :: p in s.live && p in s.createdMap ==> s.live[p].reported != Some(PBAP))
    && (forall p :: p in s.live && p in s.createdPbap ==> s.live[p].reported != Some(MAP))
  }

  /** The paths in each role are sessions made for that role. */
  predicate RoleInv(s: State) {
    && s.requested <= s.used
    && Paths(s.fields.mapPath) + PendingMap(s.op) <= s.createdMap
    && Paths(s.fields.pbapPath) + PendingPbap(s.op) <= s.createdPbap
    && (s.op.RemovingOld? || s.op.Abandoning? ==> s.op.path in s.createdMap)
  }

  predicate KindInv(s: State) { TargetInv(s) && RoleInv(s) }

  predicate PhaseInv(s: State) {
    && ListingInv(s.op)
    && (PastTaking(s.op) ==> Tracked(s.fields) == {})
    && (InRefresh(s.op) ==> s.fields.mapPath.None?)
    && (s.op.RemovingStale? ==> s.op.stale <= s.used)
    && (s.op.RemovingStale? && HeldByNext(s.op.next) != {} ==> s.op.stale !! s.createdMap)
    && (s.op.RemovingStale? && RefreshNext(s.op.next) ==> s.op.stale !! s.createdPbap)
    && (s.op.RemovingTaken? ==> (forall p :: p in s.op.paths ==> p in s.createdMap + s.createdPbap))
  }

  /** Nothing tracked or about to be published has been asked to go. */
  predicate RequestInv(s: State) { (Tracked(s.fields) + Pending(s.op)) !! s.requested }

  /** Every session this program created is tracked, pending, being removed, was asked to be
      removed, or was given up on a loss signal or `close(false)`. */
  predicate ConservationInv(s: State) {
    s.createdMap + s.createdPbap
      <= Tracked(s.fields) + Pending(s.op) + Condemned(s.op) + s.requested + s.dropped
  }

  predicate Inv(s: State) { KindInv(s) && PhaseInv(s) && RequestInv(s) && ConservationInv(s) }

  /** Steps that change the tracked paths. */
  predicate Tracks(t: Step) {
    || t.TakeAll? || t.Publish? || t.TakeMap? || t.PublishMap?
    || t.SignalRemoved? || t.SignalServiceLost? || t.UnqueuedClose?
  }

  lemma KindStep(s: State, t: Step)
    requires KindInv(s) && PhaseInv(s) && Enabled(s, t)
    ensures KindInv(Apply(s, t))
  {
    hide Apply;
    TargetStep(s, t);
    RoleStep(s, t);
  }

  lemma TargetStep(s: State, t: Step)
    requires TargetInv(s) && Enabled(s, t)
    ensures TargetInv(Apply(s, t))
  {
  }

  lemma RoleStep(s: State, t: Step)
    requires KindInv(s) && PhaseInv(s) && Enabled(s, t)
    ensures RoleInv(Apply(s, t))
  {
    hide Apply;
    hide Enabled;
    if Tracks(t) {
      RoleStepTracking(s, t);
    } else {
      RoleStepElsewhere(s, t);
    }
  }

  lemma RoleStepTracking(s: State, t: Step)
    requires KindInv(s) && PhaseInv(s) && Enabled(s, t) && Tracks(t)
    ensures RoleInv(Apply(s, t))
  {
  }

  lemma RoleStepElsewhere(s: State, t: Step)
    requires KindInv(s) && PhaseInv(s) && Enabled(s, t) && !Tracks(t)
    ensures RoleInv(Apply(s, t))
  {
    if t.RemoveTaken? {
      assert s.op.paths[0] in s.op.paths;
    }
  }

  lemma PhaseStep(s: State, t: Step)
    requires KindInv(s) && PhaseInv(s) && Enabled(s, t)
    ensures PhaseInv(Apply(s, t))
  {
    hide Apply;
    hide Enabled;
    if Tracks(t) {
      PhaseStepTracking(s, t);
    } else {
      PhaseStepElsewhere(s, t);
    }
  }

  lemma PhaseStepTracking(s: State, t: Step)
    requires KindInv(s) && PhaseInv(s) && Enabled(s, t) && Tracks(t)
    ensures PhaseInv(Apply(s, t))
  {
  }

  lemma PhaseStepElsewhere(s: State, t: Step)
    requires KindInv(s) && PhaseInv(s) && Enabled(s, t) && !Tracks(t)
    ensures PhaseInv(Apply(s, t))
  {
  }

  lemma RequestStep(s: State, t: Step)
    requires KindInv(s) && PhaseInv(s) && RequestInv(s) && Enabled(s, t)
    ensures RequestInv(Apply(s, t))
  {
    hide Apply;
    hide Enabled;
    if Tracks(t) {
      RequestStepTracking(s, t);
    } else {
      RequestStepElsewhere(s, t);
    }
  }

  lemma RequestStepTracking(s: State, t: Step)
    requires KindInv(s) && PhaseInv(s) && RequestInv(s) && Enabled(s, t) && Tracks(t)
    ensures RequestInv(Apply(s, t))
  {
  }

  lemma RequestStepElsewhere(s: State, t: Step)
    requires KindInv(s) && PhaseInv(s) && RequestInv(s) && Enabled(s, t) && !Tracks(t)
    ensures RequestInv(Apply(s, t))
  {
  }

  lemma ConservationStep(s: State, t: Step)
    requires PhaseInv(s) && ConservationInv(s) && Enabled(s, t)
    ensures ConservationInv(Apply(s, t))
  {
    hide Apply;
    hide Enabled;
    if Tracks(t) {
      ConservationStepTracking(s, t);
    } else if Removes(t) {
      ConservationStepRemoving(s, t);
    } else {
      ConservationStepElsewhere(s, t);
    }
  }

  lemma ConservationStepTracking(s: State, t: Step)
    requires PhaseInv(s) && ConservationInv(s) && Enabled(s, t) && Tracks(t)
    ensures ConservationInv(Apply(s, t))
  {
  }

  /** Steps that ask obexd to remove a session. */
  predicate Removes(t: Step) { t.RemoveTaken? || t.RemoveStale? || t.Abandon? || t.RemoveOld? }

  lemma ConservationStepRemoving(s: State, t: Step)
    requires PhaseInv(s) && ConservationInv(s) && Enabled(s, t) && Removes(t)
    ensures ConservationInv(Apply(s, t))
  {
    hide Matching;
    hide ListingInv;
  }

  lemma ConservationStepElsewhere(s: State, t: Step)
    requires PhaseInv(s) && ConservationInv(s) && Enabled(s, t) && !Tracks(t) && !Removes(t)
    ensures ConservationInv(Apply(s, t))
  {
    hide Matching;
    hide ListingInv;
  }

  lemma {:induction false} RunInv(states: seq<State>, steps: seq<Step>, n: nat)
    requires IsExecution(states, steps) && n < |states|
    ensures Inv(states[n])
  {
    if n > 0 {
      RunInv(states, steps, n - 1);
      var s, t := states[n - 1], steps[n - 1];
      KindStep(s, t);
      PhaseStep(s, t);
      RequestStep(s, t);
      ConservationStep(s, t);
    }
  }

  // ---------------------------------------------------------------- main results

  lemma RemovalRecorded(s: State, t: Step)
    requires Enabled(s, t)
    ensures Apply(s, t).requested == s.requested + Paths(Removal(s, t))
  {
  }

  /** No step asks obexd to remove a session that is tracked or about to be published. */
  lemma RemovalsAreSafe(states: seq<State>, steps: seq<Step>, n: nat)
    requires IsExecution(states, steps) && n < |steps|
    ensures Paths(Removal(states[n], steps[n])) !! Tracked(states[n].fields) + Pending(states[n].op)
  {
    RunInv(states, steps, n);
    RemovalIsSafe(states[n], steps[n]);
  }

  lemma RemovalIsSafe(s: State, t: Step)
    requires KindInv(s) && PhaseInv(s) && Enabled(s, t)
    ensures Paths(Removal(s, t)) !! Tracked(s.fields) + Pending(s.op)
  {
  }

  /** A path that was asked to be removed is not tracked then or in any later state. */
  lemma {:induction false} RequestedNeverTracked(states: seq<State>, steps: seq<Step>, m: nat, n: nat, p: Path)
    requires IsExecution(states, steps) && m <= n < |states| && p in states[m].requested
    ensures p in states[n].requested && p !in Tracked(states[n].fields)
  {
    hide Apply;
    hide Enabled;
    RunInv(states, steps, n);
    if m < n {
      RequestedNeverTracked(states, steps, m, n - 1, p);
      RemovalRecorded(states[n - 1], steps[n - 1]);
    }
  }

  /** A removal this program requested is never reported as a loss: when its signal arrives,
      `MarkLost` finds the path untracked and changes nothing. */
  lemma OwnRemovalIsNoLoss(states: seq<State>, steps: seq<Step>, m: nat, n: nat, p: Path)
    requires IsExecution(states, steps) && m < n < |steps|
    requires Removal(states[m], steps[m]) == Some(p) && steps[n] == SignalRemoved(p)
    ensures p !in Tracked(states[n].fields)
    ensures states[n + 1] == states[n]
  {
    RemovalRecorded(states[m], steps[m]);
    RequestedNeverTracked(states, steps, m + 1, n, p);
    assert states[n].dropped + (Tracked(states[n].fields) * {p}) == states[n].dropped;
  }

  /** Steps taken by the operation on the worker, as opposed to signals, `close(false)` and obexd. */
  predicate ByWorker(t: Step) {
    !(t.SignalRemoved? || t.SignalServiceLost? || t.UnqueuedClose? || t.RemoteAppears? || t.RemoteVanishes?)
  }

  /** No step of `RefreshMAP` changes the PBAP path or asks to remove a session made for PBAP, not
      even one that a signal has meanwhile declared lost. */
  lemma RefreshSparesPbap(states: seq<State>, steps: seq<Step>, n: nat)
    requires IsExecution(states, steps) && n < |steps|
    requires InRefresh(states[n].op) || states[n].op.TakingMap?
    ensures Paths(Removal(states[n], steps[n])) !! states[n].createdPbap
    ensures ByWorker(steps[n]) ==> states[n + 1].fields.pbapPath == states[n].fields.pbapPath
  {
    RunInv(states, steps, n);
    RefreshStepSparesPbap(states[n], steps[n]);
  }

  lemma RefreshStepSparesPbap(s: State, t: Step)
    requires KindInv(s) && PhaseInv(s) && Enabled(s, t)
    requires InRefresh(s.op) || s.op.TakingMap?
    ensures Paths(Removal(s, t)) !! s.createdPbap
    ensures ByWorker(t) ==> Apply(s, t).fields.pbapPath == s.fields.pbapPath
  {
  }

  /** Publishing never overwrites a tracked path, so no session is forgotten: with the worker idle,
      each session this program created is tracked, or its removal was requested, or it was given up
      on a loss signal or a `close(false)`. */
  lemma NoSessionForgotten(states: seq<State>, steps: seq<Step>, n: nat)
    requires IsExecution(states, steps) && n < |states| && states[n].op.NoOp?
    ensures var s := states[n];
            s.createdMap + s.createdPbap <= Tracked(s.fields) + s.requested + s.dropped
  {
    RunInv(states, steps, n);
  }

  /** The MAP path and the PBAP path are sessions created for that very target, and never the same. */
  lemma TrackedKinds(states: seq<State>, steps: seq<Step>, n: nat)
    requires IsExecution(states, steps) && n < |states|
    ensures var s := states[n];
            && Paths(s.fields.mapPath) <= s.createdMap && Paths(s.fields.pbapPath) <= s.createdPbap
            && s.createdMap !! s.createdPbap
  {
    RunInv(states, steps, n);
  }

  // ---------------------------------------------------------------- signals that come too early

  /** A session this program no longer holds is never tracked again. */
  lemma GoneStep(s: State, t: Step, p: Path)
    requires KindInv(s) && Enabled(s, t)
    requires p in s.createdMap + s.createdPbap && p !in Tracked(s.fields) + Pending(s.op)
    ensures p in Apply(s, t).createdMap + Apply(s, t).createdPbap
    ensures p !in Tracked(Apply(s, t).fields) + Pending(Apply(s, t).op)
  {
    hide Apply;
    hide Enabled;
    if Tracks(t) {
      GoneStepTracking(s, t, p);
    } else {
      GoneStepElsewhere(s, t, p);
    }
  }

  lemma GoneStepTracking(s: State, t: Step, p: Path)
    requires KindInv(s) && Enabled(s, t) && Tracks(t)
    requires p in s.createdMap + s.createdPbap && p !in Tracked(s.fields) + Pending(s.op)
    ensures p in Apply(s, t).createdMap + Apply(s, t).createdPbap
    ensures p !in Tracked(Apply(s, t).fields) + Pending(Apply(s, t).op)
  {
    hide KindInv;
  }

  lemma GoneStepElsewhere(s: State, t: Step, p: Path)
    requires KindInv(s) && Enabled(s, t) && !Tracks(t)
    requires p in s.createdMap + s.createdPbap && p !in Tracked(s.fields) + Pending(s.op)
    ensures p in Apply(s, t).createdMap + Apply(s, t).createdPbap
    ensures p !in Tracked(Apply(s, t).fields) + Pending(Apply(s, t).op)
  {
    hide RoleInv;
    hide Matching;
  }

  lemma {:induction false} GoneStays(states: seq<State>, steps: seq<Step>, m: nat, n: nat, p: Path)
    requires IsExecution(states, steps) && m <= n < |states|
    requires p in states[m].createdMap + states[m].createdPbap && p !in Tracked(states[m].fields) + Pending(states[m].op)
    ensures p in states[n].createdMap + states[n].createdPbap && p !in Tracked(states[n].fields) + Pending(states[n].op)
  {
    hide Apply;
    hide Enabled;
    if m < n {
      GoneStays(states, steps, m, n - 1, p);
      RunInv(states, steps, n - 1);
      hide KindInv;
      GoneStep(states[n - 1], steps[n - 1], p);
    }
  }

  /** `states'` goes on from where `states` ends. */
  ghost predicate Continues(states: seq<State>, steps: seq<Step>, states': seq<State>, steps': seq<Step>) {
    IsExecution(states', steps') && states <= states' && steps <= steps'
  }

  ghost predicate TrackedLater(states: seq<State>, steps: seq<Step>, p: Path) {
    exists states': seq<State>, steps': seq<Step> ::
      Continues(states, steps, states', steps') && p in Tracked(states'[|steps'|].fields)
  }

  lemma Extended(states: seq<State>, steps: seq<Step>, t: Step) returns (states': seq<State>, steps': seq<Step>)
    requires IsExecution(states, steps) && |states| == |steps| + 1 && Enabled(states[|steps|], t)
    ensures Continues(states, steps, states', steps') && |states'| == |steps'| + 1
    ensures states' == states + [Apply(states[|steps|], t)] && steps' == steps + [t]
  {
    states', steps' := states + [Apply(states[|steps|], t)], steps + [t];
    assert states'[0] == states[0];
  }

  lemma FreshPath(used: set<Path>) returns (p: Path)
    ensures p !in used
  {
    p := 0;
    while p in used
      invariant forall q :: 0 <= q < p ==> q in used
      decreases used - (set q | q in used && q < p)
    {
      assert p in used - (set q | q in used && q < p);
      p := p + 1;
    }
  }

  /** How many more steps it takes to publish what is pending. */
  function Remaining(op: Op): nat {
    match op
    case Listing(_, _) => 5
    case RemovingStale(_, _) => 4
    case Creating(_, _) => 3
    case _ => 1
  }

  /** From wherever a path is pending, the operation may go on to publish it. */
  lemma {:induction false} PendingCanBePublished(states: seq<State>, steps: seq<Step>, p: Path)
      returns (states': seq<State>, steps': seq<Step>)
    requires IsExecution(states, steps) && |states| == |steps| + 1 && p in Pending(states[|steps|].op)
    ensures Continues(states, steps, states', steps') && p in Tracked(states'[|steps'|].fields)
    decreases Remaining(states[|steps|].op), if states[|steps|].op.RemovingStale? then |states[|steps|].op.stale| else 0
  {
    var s := states[|steps|];
    var t := NextToPublish(s, p);
    states', steps' := Extended(states, steps, t);
    hide IsExecution;
    if p !in Tracked(Apply(s, t).fields) {
      hide Apply;
      hide Pending;
      states', steps' := PendingCanBePublished(states', steps', p);
    }
  }

  lemma NextToPublish(s: State, p: Path) returns (t: Step)
    requires p in Pending(s.op)
    ensures Enabled(s, t)
    ensures p !in Tracked(Apply(s, t).fields) ==>
              && p in Pending(Apply(s, t).op)
              && (Remaining(Apply(s, t).op) < Remaining(s.op)
                  || (s.op.RemovingStale? && Apply(s, t).op.RemovingStale? && |Apply(s, t).op.stale| < |s.op.stale|))
  {
    match s.op {
      case Publishing(_, _) => t := Publish;
      case PublishingMap(_) => t := PublishMap;
      case Creating(goal, _) =>
        var path := FreshPath(s.used);
        t := Created(path, Remote(true, Some(TargetOf(goal))));
      case Listing(_, _) => t := ListSessions(true);
      case RemovingStale(stale, _) =>
        t := NextStale(s, p);
    }
  }

  lemma NextStale(s: State, p: Path) returns (t: Step)
    requires p in Pending(s.op) && s.op.RemovingStale?
    ensures Enabled(s, t) && p in Pending(Apply(s, t).op)
    ensures Remaining(Apply(s, t).op) < Remaining(s.op)
            || (Apply(s, t).op.RemovingStale? && |Apply(s, t).op.stale| < |s.op.stale|)
  {
    if s.op.stale == {} {
      t := StaleRemoved;
    } else {
      var path :| path in s.op.stale;
      t := RemoveStale(path, true, true);
    }
  }

  /** Exactly when a session that obexd reports as removed may be tracked afterwards all the same: the program
      had made it but not published it yet, so that `MarkLost` found it untracked. */
  lemma LostBeforePublishedExactly(states: seq<State>, steps: seq<Step>, p: Path)
    requires IsExecution(states, steps) && |states| == |steps| + 1
    requires p in states[|steps|].createdMap + states[|steps|].createdPbap
    ensures var s := Apply(states[|steps|], SignalRemoved(p));
            TrackedLater(states + [s], steps + [SignalRemoved(p)], p) <==> p in Pending(states[|steps|].op)
  {
    var s := states[|steps|];
    var s' := Apply(s, SignalRemoved(p));
    var states1, steps1 := Extended(states, steps, SignalRemoved(p));
    states1, steps1 := states + [s'], steps + [SignalRemoved(p)];
    assert IsExecution(states1, steps1);
    assert s'.op == s.op && p !in Tracked(s'.fields);
    if p in Pending(s.op) {
      var states2, steps2 := PendingCanBePublished(states1, steps1, p);
    } else if TrackedLater(states1, steps1, p) {
      var states2: seq<State>, steps2: seq<Step> :|
        Continues(states1, steps1, states2, steps2) && p in Tracked(states2[|steps2|].fields);
      assert states2[|steps1|] == s';
      GoneStays(states2, steps2, |steps1|, |steps2|, p);
    }
  }

  // ---------------------------------------------------------------- what the operations achieve

  /** A step of the operation in which its remote call, if it makes one, succeeds; the first `create` may be
      answered `Forbidden`, since it is then tried again. */
  predicate Smooth(s: State, t: Step) {
    match t
    case Validate(ok) => ok
    case RemoveTaken(ok, _) => ok
    case ListSessions(ok) => ok
    case RemoveStale(_, ok, _) => ok
    case RemoveOld(ok, _) => ok
    case CreateForbidden => s.op.Creating? && s.op.retry
    case _ => t.CheckReady? || t.TakeAll? || t.TakenRemoved? || t.StaleRemoved? || t.Created? || t.Publish? || t.TakeMap?
              || t.PublishMap?
  }

  /** No signal arrives and nothing is closed beside the operation; obexd may do as it likes. */
  predicate Quiet(s: State, t: Step) { Smooth(s, t) || t.RemoteAppears? || t.RemoteVanishes? }

  predicate QuietFrom(states: seq<State>, steps: seq<Step>, m: nat, n: nat)
    requires m <= n <= |steps| <= |states|
  {
    forall k :: m <= k < n ==> Quiet(states[k], steps[k])
  }

  /** Where an operation stands; a smooth step brings it down or leaves fewer sessions to remove. */
  function Rank(op: Op): nat {
    match op
    case Validating => 20
    case CheckingReady => 19
    case Taking(_, _) => 18
    case RemovingTaken(_, _, _) => 17
    case TakingMap => 20
    case RemovingOld(_) => 17
    case Listing(_, next) => if next.FirstCreate? then 16 else CreateRank(next.goal) + 2
    case RemovingStale(_, next) => if next.FirstCreate? then 15 else CreateRank(next.goal) + 1
    case Creating(goal, retry) => CreateRank(goal) + (if retry then 3 else 0)
    case Publishing(_, _) => 1
    case PublishingMap(_) => 1
    case Abandoning(_) => 1
    case NoOp => 0
  }

  function CreateRank(goal: Goal): nat { if goal.OpenPbap? then 6 else 11 }

  function ToRemove(op: Op): nat {
    if op.RemovingTaken? then |op.paths| else if op.RemovingStale? then |op.stale| else 0
  }

  /** An operation takes only finitely many smooth steps, whatever obexd does in between. */
  lemma SmoothDecreases(s: State, t: Step)
    requires Enabled(s, t) && Quiet(s, t)
    ensures var op := Apply(s, t).op;
            if Smooth(s, t) then Rank(op) < Rank(s.op) || (Rank(op) == Rank(s.op) && ToRemove(op) < ToRemove(s.op))
            else op == s.op
  {
    hide Matching;
    hide PathList;
    if t.RemoveTaken? || t.RemoveStale? {
      OneLess(s, t);
      hide Apply;
    }
  }

  lemma OneLess(s: State, t: Step)
    requires Enabled(s, t) && Smooth(s, t) && (t.RemoveTaken? || t.RemoveStale?)
    ensures Rank(Apply(s, t).op) == Rank(s.op) && ToRemove(Apply(s, t).op) < ToRemove(s.op)
  {
  }

  /** Until it ends it has such a step, unless a remote call has failed it. */
  lemma SmoothStep(s: State) returns (t: Step)
    requires !s.op.NoOp? && !s.op.Abandoning?
    ensures Enabled(s, t) && Smooth(s, t)
  {
    match s.op {
      case Validating => t := Validate(true);
      case CheckingReady => t := CheckReady;
      case Taking(_, _) => t := TakeAll;
      case RemovingTaken(paths, _, _) => t := if paths == [] then TakenRemoved else RemoveTaken(true, true);
      case Listing(_, _) => t := ListSessions(true);
      case RemovingStale(stale, _) =>
        if stale == {} {
          t := StaleRemoved;
        } else {
          var path :| path in stale;
          t := RemoveStale(path, true, true);
        }
      case Creating(goal, _) =>
        var path := FreshPath(s.used);
        t := Created(path, Remote(true, Some(TargetOf(goal))));
      case Publishing(_, _) => t := Publish;
      case TakingMap => t := TakeMap;
      case RemovingOld(_) => t := RemoveOld(true, true);
      case PublishingMap(_) => t := PublishMap;
    }
  }

  /** A path obexd had not handed out before, made for this role. */
  predicate New(before: State, made: set<Path>, p: Path) { p in made && p !in before.used }

  predicate BothTracked(f: Fields) { f.mapPath.Some? && f.pbapPath.Some? }

  predicate NewGoal(before: State, s: State, goal: Goal) {
    goal.OpenMap? || (goal.OpenPbap? && New(before, s.createdMap, goal.held))
  }

  predicate NewNext(before: State, s: State, next: Next) { next.FirstCreate? || NewGoal(before, s, next.goal) }

  /** What `Open` came upon is all asked to be removed, up to the paths it is still working on. */
  predicate OldRequested(before: State, s: State, paths: seq<Path>) {
    forall p :: p in Tracked(before.fields) ==> p in s.requested || p in paths
  }

  /** An `Open` that began in `before` and of which no remote call has failed. */
  predicate Opening(before: State, s: State) {
    && before.used <= s.used
    && match s.op
       case Validating => Untouched(before, s)
       case CheckingReady => Untouched(before, s)
       case Taking(removeRemote, reopen) => removeRemote && reopen && !BothTracked(before.fields) && s.fields == before.fields
       case RemovingTaken(paths, failed, reopen) =>
         !failed && reopen && !BothTracked(before.fields) && OldRequested(before, s, paths)
       case Listing(_, next) => !BothTracked(before.fields) && NewNext(before, s, next) && OldRequested(before, s, [])
       case RemovingStale(_, next) => !BothTracked(before.fields) && NewNext(before, s, next) && OldRequested(before, s, [])
       case Creating(goal, _) => !BothTracked(before.fields) && NewGoal(before, s, goal) && OldRequested(before, s, [])
       case Publishing(newMap, newPbap) =>
         && !BothTracked(before.fields) && OldRequested(before, s, [])
         && New(before, s.createdMap, newMap) && New(before, s.createdPbap, newPbap)
       case NoOp => Opened(before, s)
       case _ => false
  }

  /** Nothing was tracked, requested or created in the meantime. */
  predicate Untouched(before: State, s: State) {
    && s.fields == before.fields && s.requested == before.requested
    && s.createdMap == before.createdMap && s.createdPbap == before.createdPbap
  }

  /** What a successful `Open` leaves behind. */
  predicate Opened(before: State, s: State) {
    if BothTracked(before.fields) then Untouched(before, s)
    else
      && s.fields.phone && BothTracked(s.fields) && OldRequested(before, s, [])
      && New(before, s.createdMap, s.fields.mapPath.value) && New(before, s.createdPbap, s.fields.pbapPath.value)
  }

  /** A `RefreshMAP` that began in `before` and of which no remote call has failed. */
  predicate Refreshing(before: State, s: State) {
    && before.used <= s.used
    && match s.op
       case TakingMap => Untouched(before, s)
       case RemovingOld(path) => before.fields.phone && before.fields.mapPath == Some(path) && MapTaken(before, s)
       case Listing(_, next) => before.fields.phone && RefreshNext(next) && MapTaken(before, s) && OldMapRequested(before, s)
       case RemovingStale(_, next) => before.fields.phone && RefreshNext(next) && MapTaken(before, s) && OldMapRequested(before, s)
       case Creating(goal, _) => before.fields.phone && goal.RefreshGoal? && MapTaken(before, s) && OldMapRequested(before, s)
       case PublishingMap(newMap) =>
         before.fields.phone && New(before, s.createdMap, newMap) && MapTaken(before, s) && OldMapRequested(before, s)
       case NoOp => Refreshed(before, s)
       case _ => false
  }

  predicate MapTaken(before: State, s: State) { s.fields == before.fields.(mapPath := None) }

  predicate OldMapRequested(before: State, s: State) { Paths(before.fields.mapPath) <= s.requested }

  /** What a successful `RefreshMAP` leaves behind; without a phone it does nothing. */
  predicate Refreshed(before: State, s: State) {
    if !before.fields.phone then Untouched(before, s)
    else
      && s.fields.mapPath.Some? && New(before, s.createdMap, s.fields.mapPath.value)
      && s.fields == before.fields.(mapPath := s.fields.mapPath) && OldMapRequested(before, s)
  }

  /** A `close` that began in `before` and of which no remote call has failed. */
  predicate Closing(before: State, s: State, removeRemote: bool) {
    match s.op
    case Taking(remove, reopen) => remove == removeRemote && !reopen && Untouched(before, s)
    case RemovingTaken(paths, failed, reopen) =>
      && removeRemote && !failed && !reopen && s.fields == Cleared(before.fields)
      && OldRequested(before, s, paths) && (forall p :: p in paths ==> p in Tracked(before.fields))
      && before.requested <= s.requested <= before.requested + Tracked(before.fields)
    case NoOp => Closed(before, s, removeRemote)
    case _ => false
  }

  /** What a successful `close` leaves behind: nothing tracked, and exactly what was tracked asked to be removed. */
  predicate Closed(before: State, s: State, removeRemote: bool) {
    && s.fields == Cleared(before.fields)
    && s.requested == before.requested + (if removeRemote then Tracked(before.fields) else {})
  }

  lemma OpeningStep(before: State, s: State, t: Step)
    requires Opening(before, s) && Enabled(s, t) && Quiet(s, t)
    ensures Opening(before, Apply(s, t))
  {
    hide Matching;
  }

  lemma RefreshingStep(before: State, s: State, t: Step)
    requires Refreshing(before, s) && Enabled(s, t) && Quiet(s, t)
    ensures Refreshing(before, Apply(s, t))
  {
    hide Matching;
  }

  lemma ClosingStep(before: State, s: State, t: Step, removeRemote: bool)
    requires Closing(before, s, removeRemote) && Enabled(s, t) && Quiet(s, t)
    ensures Closing(before, Apply(s, t), removeRemote)
  {
    hide Matching;
  }

  lemma {:induction false} OpenGoesOn(states: seq<State>, steps: seq<Step>, m: nat, n: nat)
    requires IsExecution(states, steps) && m < n <= |steps| && steps[m] == BeginOpen && QuietFrom(states, steps, m + 1, n)
    ensures Opening(states[m], states[n])
  {
    hide Quiet;
    if m + 1 < n {
      OpenGoesOn(states, steps, m, n - 1);
      hide Apply;
      hide Enabled;
      hide Opening;
      OpeningStep(states[m], states[n - 1], steps[n - 1]);
    }
  }

  lemma {:induction false} RefreshGoesOn(states: seq<State>, steps: seq<Step>, m: nat, n: nat)
    requires IsExecution(states, steps) && m < n <= |steps| && steps[m] == BeginRefresh && QuietFrom(states, steps, m + 1, n)
    ensures Refreshing(states[m], states[n])
  {
    hide Quiet;
    if m + 1 < n {
      RefreshGoesOn(states, steps, m, n - 1);
      hide Apply;
      hide Enabled;
      hide Refreshing;
      RefreshingStep(states[m], states[n - 1], steps[n - 1]);
    }
  }

  lemma {:induction false} CloseGoesOn(states: seq<State>, steps: seq<Step>, m: nat, n: nat)
    requires IsExecution(states, steps) && m < n <= |steps| && steps[m].BeginClose? && QuietFrom(states, steps, m + 1, n)
    ensures Closing(states[m], states[n], steps[m].removeRemote)
  {
    hide Quiet;
    if m + 1 < n {
      CloseGoesOn(states, steps, m, n - 1);
      hide Apply;
      hide Enabled;
      hide Closing;
      ClosingStep(states[m], states[n - 1], steps[n - 1], steps[m].removeRemote);
    }
  }

  /** What `Open` achieves when its remote calls succeed and no signal intervenes: it goes on until it ends, and then,
      with both sessions tracked before, it has changed, requested and created nothing; otherwise both paths are
      tracked, sessions just made for MAP and for PBAP, and what was tracked before was asked to be removed. */
  lemma OpenAchieves(states: seq<State>, steps: seq<Step>, m: nat, n: nat)
    requires IsExecution(states, steps) && m < n <= |steps| && steps[m] == BeginOpen && QuietFrom(states, steps, m + 1, n)
    ensures states[n].op.NoOp? ==> Opened(states[m], states[n])
    ensures !states[n].op.NoOp? ==> exists t :: Enabled(states[n], t) && Smooth(states[n], t)
  {
    OpenGoesOn(states, steps, m, n);
    if !states[n].op.NoOp? {
      var t := SmoothStep(states[n]);
    }
  }

  /** What `RefreshMAP` achieves: with a phone set, a MAP session just made instead of the old one, and the PBAP path
      as it was; without one, nothing. */
  lemma RefreshAchieves(states: seq<State>, steps: seq<Step>, m: nat, n: nat)
    requires IsExecution(states, steps) && m < n <= |steps| && steps[m] == BeginRefresh && QuietFrom(states, steps, m + 1, n)
    ensures states[n].op.NoOp? ==> Refreshed(states[m], states[n])
    ensures !states[n].op.NoOp? ==> exists t :: Enabled(states[n], t) && Smooth(states[n], t)
  {
    RefreshGoesOn(states, steps, m, n);
    if !states[n].op.NoOp? {
      var t := SmoothStep(states[n]);
    }
  }

  lemma CloseAchieves(states: seq<State>, steps: seq<Step>, m: nat, n: nat)
    requires IsExecution(states, steps) && m < n <= |steps| && steps[m].BeginClose? && QuietFrom(states, steps, m + 1, n)
    ensures states[n].op.NoOp? ==> Closed(states[m], states[n], steps[m].removeRemote)
    ensures !states[n].op.NoOp? ==> exists t :: Enabled(states[n], t) && Smooth(states[n], t)
  {
    CloseGoesOn(states, steps, m, n);
    if !states[n].op.NoOp? {
      var t := SmoothStep(states[n]);
    }
  }

  /** However far it got, an operation can be carried to its end by smooth steps. */
  lemma {:induction false} CanFinish(states: seq<State>, steps: seq<Step>) returns (states': seq<State>, steps': seq<Step>)
    requires IsExecution(states, steps) && |states| == |steps| + 1 && !states[|steps|].op.Abandoning?
    ensures Continues(states, steps, states', steps') && |states'| == |steps'| + 1
    ensures states'[|steps'|].op.NoOp? && QuietFrom(states', steps', |steps|, |steps'|)
    decreases Rank(states[|steps|].op), ToRemove(states[|steps|].op)
  {
    hide Apply;
    hide Enabled;
    states', steps' := states, steps;
    if !states[|steps|].op.NoOp? {
      var s := states[|steps|];
      var t := SmoothStep(s);
      SmoothDecreases(s, t);
      NeverAbandons(s, t);
      states', steps' := Extended(states, steps, t);
      assert states' == states + [Apply(s, t)] && steps' == steps + [t];
      var states1, steps1 := states', steps';
      states', steps' := CanFinish(states1, steps1);
      assert states'[|steps|] == states1[|steps|] == s && steps'[|steps|] == steps1[|steps|] == t;
      hide Smooth;
    }
  }

  lemma NeverAbandons(s: State, t: Step)
    requires Enabled(s, t) && Smooth(s, t)
    ensures !Apply(s, t).op.Abandoning?
  {
    hide Matching;
  }

  /** A `create` that is answered `Forbidden` is tried once more: the operation comes to each `create` with one retry
      left, and uses it to clear the stale sessions of that target first. */
  lemma CreateIsRetried(s: State, t: Step)
    requires Enabled(s, t)
    ensures var op := Apply(s, t).op;
            && (op.Creating? && !(s.op.Creating? && s.op.goal == op.goal) && !(s.op.RemovingStale? && s.op.next.RetryCreate?) ==>
                  op.retry)
            && (t.CreateForbidden? && s.op.retry ==> op == Listing({TargetOf(s.op.goal)}, RetryCreate(s.op.goal)))
            && (t.StaleRemoved? && s.op.next.RetryCreate? ==> op == Creating(s.op.next.goal, false))
  {
    hide Matching;
  }

  // ---------------------------------------------------------------- stale sessions

  /** From the listing on, a stale session is still to be removed or was asked to be. */
  lemma {:induction false} StaleShrinks(states: seq<State>, steps: seq<Step>, m: nat, n: nat)
    requires IsExecution(states, steps) && m < n <= |steps| && steps[m] == ListSessions(true)
    requires forall k :: m < k <= n ==> states[k].op.RemovingStale?
    ensures forall p :: p in Matching(states[m].live, states[m].op.targets) ==>
              p in states[n].requested || p in states[n].op.stale
  {
    if m + 1 < n {
      StaleShrinks(states, steps, m, n - 1);
      assert states[n] == Apply(states[n - 1], steps[n - 1]) && states[n].op.RemovingStale?;
      StaleStep(states[n - 1], steps[n - 1]);
      hide Apply;
      hide Enabled;
      hide Matching;
    }
  }

  lemma StaleStep(s: State, t: Step)
    requires Enabled(s, t) && s.op.RemovingStale? && Apply(s, t).op.RemovingStale?
    ensures forall p :: p in s.requested || p in s.op.stale ==> p in Apply(s, t).requested || p in Apply(s, t).op.stale
  {
    hide Matching;
  }

  lemma {:induction false} OpenListsBoth(states: seq<State>, steps: seq<Step>, n: nat)
    requires IsExecution(states, steps) && n < |states|
    ensures states[n].op.Listing? ==>
              states[n].op.targets
              == if states[n].op.next.FirstCreate? then {MAP, PBAP} else {TargetOf(states[n].op.next.goal)}
  {
    hide Matching;
    if n > 0 {
      OpenListsBoth(states, steps, n - 1);
    }
  }

  /** When `removeStale` is done, each session of this phone that was listed with a target it was to clear has been
      asked to be removed: for `Open` those for MAP and PBAP, before a second `create` those for its own target. */
  lemma StaleAllRequested(states: seq<State>, steps: seq<Step>, m: nat, n: nat)
    requires IsExecution(states, steps) && m < n < |steps|
    requires steps[m] == ListSessions(true) && steps[n] == StaleRemoved
    requires forall k :: m < k <= n ==> states[k].op.RemovingStale?
    ensures states[m].op.Listing?
    ensures forall p :: p in states[m].live && states[m].live[p].ours && states[m].live[p].reported.Some?
                        && (states[m].op.next.FirstCreate? || states[m].live[p].reported.value == TargetOf(states[m].op.next.goal)) ==>
              p in states[n].requested
  {
    StaleShrinks(states, steps, m, n);
    OpenListsBoth(states, steps, m);
    assert Enabled(states[m], steps[m]) && Enabled(states[n], steps[n]);
    forall p | p in states[m].live && states[m].live[p].ours && states[m].live[p].reported.Some?
               && (states[m].op.next.FirstCreate? || states[m].live[p].reported.value == TargetOf(states[m].op.next.goal))
      ensures p in Matching(states[m].live, states[m].op.targets)
    {
      var target := states[m].live[p].reported.value;
      assert target == MAP || target == PBAP;
      assert target in states[m].op.targets;
    }
  }
}
