/**
 `storeMessage` under interleaving (internal/backend/backend.go:354-386) over any number of daemon
 lifetimes: push and poll goroutines are inside it at the same time, contacts are stored beside them, and
 crashes and restarts happen at any point, also inside a save. The repository's mutex makes the append,
 with its save, one step; fetching the repository, locking after a failed save, and notifying are steps
 of their own.
 */
module BackendRuns {
  import opened Wrappers
  import opened Model
  import opened Protocol
  import opened History
  import opened Repository
  import opened Sequences
  import opened Persistence
  import Backend
  import S = Snapshot
  import C = CrashSafety
  import Book = ContactBook

  datatype Pc =
    | Begin
    | HasRepository
    | LockDue                       // the save failed with `ErrLocked`; `lock` has not run yet
    | Stored(created: bool)
    | Returned

  datatype Call = Call(message: Message, onlyIfMissing: bool, pc: Pc)

  /**
   `memory` is the repository's history; there is none in a lifetime whose `Open` failed. The fields from `loaded` on are history of the current lifetime:
   the records `Open` loaded, those created (with the calls that created them), evicted and notified, in
   order, and for each resident handle that was pushed the record of its latest successful push.
   */
  datatype State = State(
    memory: seq<Message>,
    disk: S.Disk,
    unlocked: bool,
    started: bool,
    calls: seq<Call>,
    loaded: seq<Message>,
    creations: seq<Message>,
    creators: seq<nat>,
    evictions: seq<Message>,
    notified: seq<Message>,
    pushed: map<string, Message>)

  /** What a restart interrupts, if it is in the middle of a save. */
  datatype Interrupted = Nothing | InAppend(i: nat, sys: System) | InSync(contacts: seq<Contact>, sys: System)

  /** `SyncContacts` is the storing of contacts fetched from the phone. `Reopen` ends one lifetime and begins the
      next: `middle` is the disk when the daemon dies and `found` the disk when `Open` runs, the same one unless
      the system crashed; with `fault`, the key lookup or a file operation of the start fails. */
  datatype Step =
    | Enter(message: Message, onlyIfMissing: bool)
    | Fetch(i: nat)
    | Append(i: nat, sys: System)
    | Lock(i: nat)
    | Announce(i: nat, recent: bool)
    | SyncContacts(contacts: seq<Contact>, sys: System)
    | Reopen(during: Interrupted, middle: S.Disk, found: S.Disk, fault: bool)

  datatype Config = Config(codec: Codec, lim: Limits, box: S.Box, lower: string -> string) {
    ghost predicate Valid() {
      codec.Lawful() && box.Lawful() && 0 <= lim.records && 25 <= lim.bytes <= MAX_HISTORY_BYTES
    }
  }

  /** The first start, in an empty state directory. */
  const INIT := State([], C.EMPTY_DISK, true, true, [], [], [], [], [], [], map[])

  predicate At(s: State, i: nat, pc: Pc) { i < |s.calls| && s.calls[i].pc == pc }

  function PlanOf(cfg: Config, s: State, i: nat): Plan
    requires i < |s.calls|
  {
    AppendPlan(cfg.codec, cfg.lim, s.memory, s.calls[i].message, !s.calls[i].onlyIfMissing)
  }

  /** The save that an append calls for. */
  function Saving(cfg: Config, s: State, i: nat, sys: System): S.SaveCall
    requires i < |s.calls| && PlanOf(cfg, s, i).Write?
  {
    HistorySave(cfg.codec, PlanOf(cfg, s, i).records, sys)
  }

  function Syncing(cfg: Config, contacts: seq<Contact>, sys: System): S.SaveCall {
    ContactsSave(cfg.codec, Book.SortedByName(contacts, cfg.lower), sys)
  }

  /** A state of the disk at which the daemon may die. */
  ghost predicate Amid(cfg: Config, s: State, during: Interrupted, middle: S.Disk) {
    match during
    case Nothing => middle == s.disk
    case InAppend(i, sys) =>
      && At(s, i, HasRepository) && Contributes(sys, s.disk) && PlanOf(cfg, s, i).Write?
      && S.During(cfg.box, s.disk, Saving(cfg, s, i, sys), middle)
    case InSync(contacts, sys) =>
      && AcceptableContacts(contacts) && Contributes(sys, s.disk)
      && S.During(cfg.box, s.disk, Syncing(cfg, contacts, sys), middle)
  }

  ghost predicate Enabled(cfg: Config, s: State, t: Step) {
    match t
    case Enter(_, _) => true
    case Fetch(i) => At(s, i, Begin)
    case Append(i, sys) => At(s, i, HasRepository) && Contributes(sys, s.disk)
    case Lock(i) => At(s, i, LockDue)
    case Announce(i, _) => i < |s.calls| && s.calls[i].pc.Stored?
    case SyncContacts(contacts, sys) => s.started && AcceptableContacts(contacts) && Contributes(sys, s.disk)
    case Reopen(during, middle, found, _) => Amid(cfg, s, during, middle) && (found == middle || S.Crash(middle, found))
  }

  function SetPc(s: State, i: nat, pc: Pc): State
    requires i < |s.calls|
  {
    s.(calls := s.calls[i := s.calls[i].(pc := pc)])
  }

  function Handles(ms: seq<Message>): set<string> { set i | 0 <= i < |ms| :: ms[i].handle }

  /** The pushed records whose handles are still resident. */
  function StillResident(pushed: map<string, Message>, ms: seq<Message>): map<string, Message> {
    map h | h in pushed && h in Handles(ms) :: pushed[h]
  }

  function Wrote(s: State, i: nat, plan: Plan): State
    requires i < |s.calls| && plan.Write?
  {
    var c := s.calls[i];
    var pushed := if c.onlyIfMissing || c.message.handle == [] then s.pushed else s.pushed[c.message.handle := c.message];
    SetPc(s, i, Stored(plan.created)).(
      memory := plan.records,
      creations := s.creations + (if plan.created then [c.message] else []),
      creators := s.creators + (if plan.created then [i] else []),
      evictions := s.evictions + plan.evicted,
      pushed := StillResident(pushed, plan.records))
  }

  function Appended(cfg: Config, s: State, i: nat, sys: System): State
    requires i < |s.calls|
  {
    var plan := PlanOf(cfg, s, i);
    if !plan.Write? then SetPc(s, i, Returned)
    else
      var save := Saving(cfg, s, i, sys);
      var s1 := s.(disk := S.SavedDisk(cfg.box, s.disk, save));
      match S.SaveErrorOf(save)
      case None => Wrote(s1, i, plan)
      case Some(Locked) => SetPc(s1, i, LockDue)
      case Some(PlaintextTooLarge) => SetPc(s1, i, Returned)
  }

  predicate AppendSucceeds(cfg: Config, s: State, i: nat, sys: System)
    requires i < |s.calls|
  {
    PlanOf(cfg, s, i).Write? && S.SaveErrorOf(Saving(cfg, s, i, sys)).None?
  }

  /** An append writes the plan's records, or changes nothing but the call and the disk. */
  lemma AppendedShape(cfg: Config, s: State, i: nat, sys: System)
    requires i < |s.calls|
    ensures var s' := Appended(cfg, s, i, sys);
            && s'.disk == (if PlanOf(cfg, s, i).Write? then S.SavedDisk(cfg.box, s.disk, Saving(cfg, s, i, sys)) else s.disk)
            && (AppendSucceeds(cfg, s, i, sys) ==> s' == Wrote(s.(disk := s'.disk), i, PlanOf(cfg, s, i)))
            && (!AppendSucceeds(cfg, s, i, sys) ==>
                  || s' == SetPc(s.(disk := s'.disk), i, Returned)
                  || s' == SetPc(s.(disk := s'.disk), i, LockDue))
            && (PlanOf(cfg, s, i).Write? && S.SaveErrorOf(Saving(cfg, s, i, sys)) == Some(S.Locked) ==>
                  s' == SetPc(s.(disk := s'.disk), i, LockDue))
  {
    hide PlanOf;
    hide StillResident;
    hide S.SavedDisk;
    hide S.SaveErrorOf;
  }

  function Ended(calls: seq<Call>): (r: seq<Call>)
    ensures |r| == |calls| && forall i :: 0 <= i < |calls| ==> r[i] == calls[i].(pc := Returned)
  {
    seq(|calls|, i requires 0 <= i < |calls| => calls[i].(pc := Returned))
  }

  /** The state after `Open` on the disk it finds. */
  ghost function Reopened(cfg: Config, s: State, found: S.Disk, fault: bool): State {
    var ok := !fault && Openable(cfg.codec, cfg.lim, cfg.box, found);
    var ms := if ok then HistoryOnDisk(cfg.codec, cfg.box, found).value else [];
    State(ms, found, ok, ok, Ended(s.calls), ms, [], [], [], [], map[])
  }

  ghost function Apply(cfg: Config, s: State, t: Step): State
    requires Enabled(cfg, s, t)
  {
    match t
    case Enter(message, onlyIfMissing) =>
      s.(calls := s.calls + [Call(Backend.WithKind(message), onlyIfMissing, Begin)])
    case Fetch(i) => SetPc(s, i, if s.unlocked then HasRepository else Returned)
    case Append(i, sys) => Appended(cfg, s, i, sys)
    case Lock(i) => SetPc(s, i, Returned).(unlocked := false)
    case Announce(i, recent) =>
      SetPc(s, i, Returned).(
        notified := if s.calls[i].pc.created && recent then s.notified + [s.calls[i].message] else s.notified)
    case SyncContacts(contacts, sys) => s.(disk := S.SavedDisk(cfg.box, s.disk, Syncing(cfg, contacts, sys)))
    case Reopen(_, _, found, fault) => Reopened(cfg, s, found, fault)
  }

  /** The other steps of a lifetime touch neither the history in memory nor the logs of what entered and left it. */
  lemma OtherSteps(cfg: Config, s: State, t: Step)
    requires Enabled(cfg, s, t) && !t.Append? && !t.Reopen?
    ensures var s' := Apply(cfg, s, t);
            s' == s.(disk := s'.disk, unlocked := s'.unlocked, calls := s'.calls, notified := s'.notified)
  {
    hide S.SavedDisk;
  }

  ghost predicate IsExecution(cfg: Config, states: seq<State>, steps: seq<Step>) {
    && cfg.Valid()
    && |states| == |steps| + 1
    && states[0] == INIT
    && forall n :: 0 <= n < |steps| ==> Enabled(cfg, states[n], steps[n]) && states[n + 1] == Apply(cfg, states[n], steps[n])
  }

  // ---------------------------------------------------------------- what is on disk

  ghost function OnDisk(cfg: Config, s: State): Option<seq<Message>> { HistoryOnDisk(cfg.codec, cfg.box, s.disk) }

  /** Whatever a crash leaves opens, and no history in memory or on disk holds a handle twice. */
  ghost predicate Inv(cfg: Config, s: State) {
    Written(cfg.codec, cfg.lim, cfg.box, s.disk) && GoodRecords(cfg.codec, cfg.lim, s.memory) && OpenedInv(s)
  }

  /** Without a repository no call gets to use one. */
  predicate OpenedInv(s: State) {
    && (s.unlocked ==> s.started)
    && (!s.started ==> forall i :: 0 <= i < |s.calls| ==> s.calls[i].pc.Begin? || s.calls[i].pc.Returned?)
  }

  lemma OpenedStep(cfg: Config, s: State, t: Step)
    requires OpenedInv(s) && Enabled(cfg, s, t)
    ensures OpenedInv(Apply(cfg, s, t))
  {
    hide AppendPlan;
    hide S.SavedDisk;
    hide Amid;
  }

  lemma InitInv(cfg: Config)
    requires cfg.Valid()
    ensures Inv(cfg, INIT) && OnDisk(cfg, INIT) == Some([]) && GoodRecords(cfg.codec, cfg.lim, [])
  {
    hide C.Good;
    hide ValidMessage;
    EmptyDiskWritten(cfg.codec, cfg.lim, cfg.box);
    SizeIsExact(cfg.codec.Encodings([]));
  }

  /** At every moment of a save, from its call on, the disk is one that the daemon can open. */
  lemma AmidKeepsWritten(cfg: Config, s: State, during: Interrupted, middle: S.Disk)
    requires cfg.Valid() && Inv(cfg, s) && Amid(cfg, s, during, middle)
    ensures Written(cfg.codec, cfg.lim, cfg.box, middle)
  {
    hide Written;
    hide S.During;
    hide AppendPlan;
    hide GoodRecords;
    hide GoodHistory;
    hide GoodContacts;
    hide Book.SortedByName;
    match during {
      case Nothing =>
      case InAppend(i, sys) =>
        PlannedTextIsGood(cfg.codec, cfg.lim, s.memory, s.calls[i].message, !s.calls[i].onlyIfMissing);
        SaveKeepsWritten(cfg.codec, cfg.lim, cfg.box, s.disk, Saving(cfg, s, i, sys), middle);
      case InSync(contacts, sys) =>
        SortedContactsAreGood(cfg.codec, contacts, cfg.lower);
        SaveKeepsWritten(cfg.codec, cfg.lim, cfg.box, s.disk, Syncing(cfg, contacts, sys), middle);
    }
  }

  lemma ReopenedUnlocked(cfg: Config, s: State, t: Step)
    requires cfg.Valid() && Inv(cfg, s) && Enabled(cfg, s, t) && t.Reopen?
    ensures Inv(cfg, Apply(cfg, s, t))
    ensures Apply(cfg, s, t).unlocked == Apply(cfg, s, t).started == !t.fault
    ensures !t.fault ==> OnDisk(cfg, Apply(cfg, s, t)) == Some(Apply(cfg, s, t).memory)
    ensures GoodRecords(cfg.codec, cfg.lim, Apply(cfg, s, t).memory)
  {
    OpenedStep(cfg, s, t);
    InitInv(cfg);
    hide OpenedInv;
    hide Amid;
    hide Written;
    hide S.Crash;
    hide GoodRecords;
    AmidKeepsWritten(cfg, s, t.during, t.middle);
    if t.found != t.middle {
      CrashKeepsWritten(cfg.codec, cfg.lim, cfg.box, t.middle, t.found);
    }
    WrittenOpens(cfg.codec, cfg.lim, cfg.box, t.found);
    hide HistoryOnDisk;
    hide ContactsOnDisk;
    hide Acceptable;
  }

  lemma AppendInv(cfg: Config, s: State, i: nat, sys: System)
    requires cfg.Valid() && Inv(cfg, s) && At(s, i, HasRepository) && Contributes(sys, s.disk)
    ensures Written(cfg.codec, cfg.lim, cfg.box, Appended(cfg, s, i, sys).disk)
    ensures GoodRecords(cfg.codec, cfg.lim, Appended(cfg, s, i, sys).memory)
  {
    hide Written;
    hide AppendPlan;
    hide GoodRecords;
    hide GoodHistory;
    hide S.SavedDisk;
    hide S.During;
    if PlanOf(cfg, s, i).Write? {
      PlannedTextIsGood(cfg.codec, cfg.lim, s.memory, s.calls[i].message, !s.calls[i].onlyIfMissing);
      var save := Saving(cfg, s, i, sys);
      C.SavedDuring(cfg.box, s.disk, save);
      SaveKeepsWritten(cfg.codec, cfg.lim, cfg.box, s.disk, save, S.SavedDisk(cfg.box, s.disk, save));
    }
  }

  lemma SyncInv(cfg: Config, s: State, contacts: seq<Contact>, sys: System)
    requires cfg.Valid() && Inv(cfg, s) && AcceptableContacts(contacts) && Contributes(sys, s.disk)
    ensures Written(cfg.codec, cfg.lim, cfg.box, S.SavedDisk(cfg.box, s.disk, Syncing(cfg, contacts, sys)))
  {
    var save := Syncing(cfg, contacts, sys);
    C.SavedDuring(cfg.box, s.disk, save);
    hide S.SavedDisk;
    AmidKeepsWritten(cfg, s, InSync(contacts, sys), S.SavedDisk(cfg.box, s.disk, save));
  }

  lemma StepInv(cfg: Config, s: State, t: Step)
    requires cfg.Valid() && Inv(cfg, s) && Enabled(cfg, s, t)
    ensures Inv(cfg, Apply(cfg, s, t))
  {
    hide Written;
    hide GoodRecords;
    hide Appended;
    hide S.SavedDisk;
    OpenedStep(cfg, s, t);
    hide OpenedInv;
    if t.Append? {
      AppendInv(cfg, s, t.i, t.sys);
    } else if t.SyncContacts? {
      SyncInv(cfg, s, t.contacts, t.sys);
    } else if t.Reopen? {
      ReopenedUnlocked(cfg, s, t);
    }
    hide Reopened;
  }

  /** In every reachable state the disk opens whatever a crash leaves of it, and non-empty handles are unique
      in memory and in everything on disk. Nothing is assumed of what `Open` loads: this program wrote it. */
  lemma {:induction false} RunInv(cfg: Config, states: seq<State>, steps: seq<Step>, n: nat)
    requires IsExecution(cfg, states, steps) && n < |states|
    ensures Inv(cfg, states[n])
  {
    hide Apply;
    hide Enabled;
    hide Inv;
    if n == 0 {
      InitInv(cfg);
    } else {
      RunInv(cfg, states, steps, n - 1);
      StepInv(cfg, states[n - 1], steps[n - 1]);
    }
  }

  /** A restart, after a crash at any point, also inside a save, unlocks exactly if its key lookup and file reads
      succeed, and the history in memory is then the decoded one on disk, with unique handles. */
  lemma RestartsUnlock(cfg: Config, states: seq<State>, steps: seq<Step>, n: nat)
    requires IsExecution(cfg, states, steps) && n < |steps| && steps[n].Reopen?
    ensures states[n + 1].unlocked <==> !steps[n].fault
    ensures states[n + 1].unlocked ==>
              && OnDisk(cfg, states[n + 1]) == Some(states[n + 1].memory)
              && GoodRecords(cfg.codec, cfg.lim, states[n + 1].memory)
  {
    hide Apply;
    hide Enabled;
    hide Inv;
    hide OnDisk;
    hide GoodRecords;
    RunInv(cfg, states, steps, n);
    ReopenedUnlocked(cfg, states[n], steps[n]);
  }

  // ---------------------------------------------------------------- memory and disk

  /** An append whose save gets as far as the rename. */
  ghost predicate Reaches(cfg: Config, s: State, t: Step) {
    Enabled(cfg, s, t) && t.Append? && PlanOf(cfg, s, t.i).Write? && S.StagesDone(t.sys.fault) >= 4
  }

  /** What a step does to the history in memory and on disk. */
  lemma AgreementStep(cfg: Config, s: State, t: Step)
    requires cfg.Valid() && Inv(cfg, s) && Enabled(cfg, s, t)
    ensures var s' := Apply(cfg, s, t);
            if Reaches(cfg, s, t) then
              && OnDisk(cfg, s') == Some(PlanOf(cfg, s, t.i).records)
              && s'.memory == (if t.sys.fault == S.NoFault then PlanOf(cfg, s, t.i).records else s.memory)
              && (t.sys.fault != S.NoFault ==> At(s', t.i, LockDue))
            else if t.Reopen? then !Disagree(cfg, s')
            else s'.memory == s.memory && OnDisk(cfg, s') == OnDisk(cfg, s)
    ensures !t.Reopen? ==> Apply(cfg, s, t).started == s.started
    ensures Reaches(cfg, s, t) ==> s.started
  {
    hide Written;
    hide AppendPlan;
    hide HistoryOnDisk;
    hide GoodRecords;
    if t.Append? && PlanOf(cfg, s, t.i).Write? {
      AppendOnDisk(cfg, s, t.i, t.sys);
      hide Appended;
    } else if t.SyncContacts? {
      WrittenOpens(cfg.codec, cfg.lim, cfg.box, s.disk);
      SavedContactsKeepHistory(cfg.codec, cfg.box, s.disk, Book.SortedByName(t.contacts, cfg.lower), t.sys);
      hide S.SavedDisk;
      hide Openable;
      hide Book.SortedByName;
    } else if t.Reopen? {
      ReopenedUnlocked(cfg, s, t);
      hide Reopened;
      hide Amid;
    }
  }

  lemma AppendOnDisk(cfg: Config, s: State, i: nat, sys: System)
    requires cfg.Valid() && Inv(cfg, s) && At(s, i, HasRepository) && Contributes(sys, s.disk)
    requires PlanOf(cfg, s, i).Write?
    ensures var s', plan := Appended(cfg, s, i, sys), PlanOf(cfg, s, i);
            && (if S.StagesDone(sys.fault) >= 4 then OnDisk(cfg, s') == Some(plan.records)
                else OnDisk(cfg, s') == OnDisk(cfg, s))
            && (if sys.fault == S.NoFault then s'.memory == plan.records
                else s'.memory == s.memory && At(s', i, LockDue))
  {
    var save := Saving(cfg, s, i, sys);
    AppendSaves(cfg, s, i, sys);
    AppendedShape(cfg, s, i, sys);
    hide Inv;
    hide PlanOf;
    hide Appended;
    hide HistoryOnDisk;
    hide S.SavedDisk;
  }

  /** The plaintext is never too large, and what the save leaves on disk is the plan's records or the old ones. */
  lemma AppendSaves(cfg: Config, s: State, i: nat, sys: System)
    requires cfg.Valid() && Inv(cfg, s) && At(s, i, HasRepository) && Contributes(sys, s.disk)
    requires PlanOf(cfg, s, i).Write?
    ensures var save := Saving(cfg, s, i, sys);
            && S.SaveErrorOf(save) == (if sys.fault == S.NoFault then None else Some(S.Locked))
            && HistoryOnDisk(cfg.codec, cfg.box, S.SavedDisk(cfg.box, s.disk, save))
               == (if S.StagesDone(sys.fault) >= 4 then Some(PlanOf(cfg, s, i).records) else OnDisk(cfg, s))
  {
    hide Written;
    hide AppendPlan;
    hide HistoryOnDisk;
    hide S.SavedDisk;
    hide OpenedInv;
    var records := PlanOf(cfg, s, i).records;
    PlannedTextIsGood(cfg.codec, cfg.lim, s.memory, s.calls[i].message, !s.calls[i].onlyIfMissing);
    assert cfg.codec.Encodable(records) && |Envelope(cfg.codec.Encodings(records))| <= MAX_HISTORY_BYTES by {
      hide ValidMessage;
    }
    hide GoodRecords;
    hide GoodHistory;
    if S.StagesDone(sys.fault) >= 4 {
      SavedHistoryReloads(cfg.codec, cfg.box, s.disk, records, sys);
    } else {
      WrittenOpens(cfg.codec, cfg.lim, cfg.box, s.disk);
      UnrenamedKeepsHistory(cfg.codec, cfg.box, s.disk, Saving(cfg, s, i, sys));
    }
    hide Openable;
  }

  ghost predicate Disagree(cfg: Config, s: State) { s.started && OnDisk(cfg, s) != Some(s.memory) }

  /** The last append of the current lifetime whose save got as far as the rename. */
  ghost function LastReached(cfg: Config, states: seq<State>, steps: seq<Step>, n: nat): (r: Option<nat>)
    requires IsExecution(cfg, states, steps) && n < |states|
    ensures r.Some? ==> r.value < n && Reaches(cfg, states[r.value], steps[r.value])
  {
    if n == 0 then None
    else if Reaches(cfg, states[n - 1], steps[n - 1]) then Some(n - 1)
    else if steps[n - 1].Reopen? then None
    else LastReached(cfg, states, steps, n - 1)
  }

  /** Exactly when memory and disk differ, in every reachable state: the last save of this lifetime that renamed its
      file failed after that, and it was to change the history. */
  lemma {:induction false} DisagreeExactly(cfg: Config, states: seq<State>, steps: seq<Step>, n: nat)
    requires IsExecution(cfg, states, steps) && n < |states|
    ensures var r := LastReached(cfg, states, steps, n);
            Disagree(cfg, states[n]) <==>
              && r.Some? && steps[r.value].sys.fault != S.NoFault
              && PlanOf(cfg, states[r.value], steps[r.value].i).records != states[r.value].memory
    ensures var r := LastReached(cfg, states, steps, n);
            r.Some? ==>
              && states[n].started
              && OnDisk(cfg, states[n]) == Some(PlanOf(cfg, states[r.value], steps[r.value].i).records)
              && (steps[r.value].sys.fault != S.NoFault ==> states[n].memory == states[r.value].memory)
  {
    hide Apply;
    hide Enabled;
    hide Inv;
    hide PlanOf;
    hide OnDisk;
    if n == 0 {
      InitInv(cfg);
    } else {
      DisagreeExactly(cfg, states, steps, n - 1);
      RunInv(cfg, states, steps, n - 1);
      AgreementStep(cfg, states[n - 1], steps[n - 1]);
    }
  }

  predicate LockPending(s: State) { exists i :: 0 <= i < |s.calls| && s.calls[i].pc.LockDue? }

  ghost predicate AgreementInv(cfg: Config, s: State) { !Disagree(cfg, s) || !s.unlocked || LockPending(s) }

  /** A call waiting to lock goes on waiting until it locks or the lifetime ends. */
  lemma LockStaysDue(cfg: Config, s: State, t: Step)
    requires Enabled(cfg, s, t) && LockPending(s)
    ensures LockPending(Apply(cfg, s, t)) || !Apply(cfg, s, t).unlocked || t.Reopen?
  {
    hide AppendPlan;
    hide S.SavedDisk;
    var i :| 0 <= i < |s.calls| && s.calls[i].pc.LockDue?;
    if !t.Reopen? {
      hide Reopened;
      hide Amid;
      assert t.Lock? || Apply(cfg, s, t).calls[i].pc.LockDue?;
    }
  }

  lemma LockedStays(cfg: Config, s: State, t: Step)
    requires Enabled(cfg, s, t) && !s.unlocked && !t.Reopen?
    ensures !Apply(cfg, s, t).unlocked
  {
    hide AppendPlan;
    hide S.SavedDisk;
  }

  lemma {:induction false} RunAgreement(cfg: Config, states: seq<State>, steps: seq<Step>, n: nat)
    requires IsExecution(cfg, states, steps) && n < |states|
    ensures AgreementInv(cfg, states[n])
  {
    hide Apply;
    hide Enabled;
    hide Inv;
    hide OnDisk;
    hide PlanOf;
    if n == 0 {
      InitInv(cfg);
    } else {
      var s, t := states[n - 1], steps[n - 1];
      RunAgreement(cfg, states, steps, n - 1);
      RunInv(cfg, states, steps, n - 1);
      AgreementStep(cfg, s, t);
      if LockPending(s) {
        LockStaysDue(cfg, s, t);
      } else if !s.unlocked && !t.Reopen? {
        LockedStays(cfg, s, t);
      }
    }
  }

  /** In every reachable state with storage unlocked and no call between its failed save and `lock`, the
      history in memory is the decoded one on disk. */
  lemma MemoryIsDisk(cfg: Config, states: seq<State>, steps: seq<Step>, n: nat)
    requires IsExecution(cfg, states, steps) && n < |states|
    requires states[n].unlocked && !LockPending(states[n])
    ensures HistoryOnDisk(cfg.codec, cfg.box, states[n].disk) == Some(states[n].memory)
  {
    hide Apply;
    hide Enabled;
    hide Written;
    hide GoodRecords;
    RunInv(cfg, states, steps, n);
    RunAgreement(cfg, states, steps, n);
  }

  /** The window is real: storage is still unlocked, and a reader sees the old history while the disk has
      the new one. */
  lemma UnlockedMayDisagree(cfg: Config, m: Message) returns (states: seq<State>, steps: seq<Step>)
    requires cfg.Valid()
    requires ValidMessage(m) && m.kind != [] && cfg.codec.encode(m).Some? && Fits(cfg.codec, cfg.lim, [m])
    ensures IsExecution(cfg, states, steps)
    ensures var s := states[|steps|]; s.unlocked && s.memory == [] && OnDisk(cfg, s) == Some([m])
  {
    hide ValidMessage;
    hide Fits;
    hide OnDisk;
    hide Appended;
    hide Amid;
    var sys := System(S.Ascii("random bytes"), 0, S.AtSyncDirectory, true);
    var s1 := Apply(cfg, INIT, Enter(m, false));
    assert s1.calls == [Call(m, false, Begin)];
    var s2 := Apply(cfg, s1, Fetch(0));
    assert s2.calls == [Call(m, false, HasRepository)];
    FailedFirstAppend(cfg, m, sys);
    var s3 := Apply(cfg, s2, Append(0, sys));
    states, steps := [INIT, s1, s2, s3], [Enter(m, false), Fetch(0), Append(0, sys)];
  }

  lemma FailedFirstAppend(cfg: Config, m: Message, sys: System)
    requires cfg.Valid() && Contributes(sys, C.EMPTY_DISK) && sys.fault == S.AtSyncDirectory
    requires ValidMessage(m) && cfg.codec.encode(m).Some? && Fits(cfg.codec, cfg.lim, [m])
    ensures var s := Appended(cfg, INIT.(calls := [Call(m, false, HasRepository)]), 0, sys);
            s.unlocked && s.memory == [] && OnDisk(cfg, s) == Some([m])
  {
    hide *;
    FirstAppend(cfg, m);
    var s := INIT.(calls := [Call(m, false, HasRepository)]);
    AppendOnDisk(cfg, s, 0, sys);
    FailedAppendKeepsUnlocked(cfg, s, 0, sys);
  }

  /** The state in which the first message of all is about to be appended. */
  lemma FirstAppend(cfg: Config, m: Message)
    requires cfg.Valid() && ValidMessage(m) && cfg.codec.encode(m).Some? && Fits(cfg.codec, cfg.lim, [m])
    ensures var s := INIT.(calls := [Call(m, false, HasRepository)]);
            && Inv(cfg, s) && At(s, 0, HasRepository) && PlanOf(cfg, s, 0) == Write([m], true, [])
            && s.unlocked && s.memory == [] && s.disk == C.EMPTY_DISK && S.StagesDone(S.AtSyncDirectory) == 4
  {
    FirstInv(cfg, Call(m, false, HasRepository));
    FirstPlan(cfg, m);
    hide ValidMessage;
    hide Fits;
    hide Inv;
    hide AppendPlan;
    hide Config.Valid;
  }

  lemma FirstInv(cfg: Config, c: Call)
    requires cfg.Valid()
    ensures Inv(cfg, INIT.(calls := [c]))
  {
    InitInv(cfg);
    hide Written;
    hide GoodRecords;
    hide OnDisk;
  }

  lemma FirstPlan(cfg: Config, m: Message)
    requires ValidMessage(m) && cfg.codec.encode(m).Some? && Fits(cfg.codec, cfg.lim, [m])
    ensures AppendPlan(cfg.codec, cfg.lim, [], m, true) == Write([m], true, [])
  {
    hide ValidMessage;
    hide Fits;
    assert [] + [m] == [m] && [m][0..] == [m];
    assert LeastFit(cfg.codec, cfg.lim, [m], 0, 0) == Some(0);
  }

  lemma FailedAppendKeepsUnlocked(cfg: Config, s: State, i: nat, sys: System)
    requires i < |s.calls|
    ensures Appended(cfg, s, i, sys).unlocked == s.unlocked
  {
    hide AppendPlan;
    hide S.SavedDisk;
  }

  // ---------------------------------------------------------------- accounting

  /** Handles enter the history by creation, in that order, and leave it by eviction, oldest first. */
  predicate Conserved(s: State) {
    HandlesOf(s.loaded + s.creations) == HandlesOf(s.evictions + s.memory)
  }

  lemma ConservedStep(cfg: Config, s: State, t: Step)
    requires Conserved(s) && Enabled(cfg, s, t)
    ensures Conserved(Apply(cfg, s, t))
  {
    hide AppendPlan;
    hide S.SavedDisk;
    hide Amid;
    hide HandlesOf;
    if t.Append? && PlanOf(cfg, s, t.i).Write? {
      WroteConserves(cfg, s, t.i, Apply(cfg, s, t).disk);
    } else if t.Reopen? {
      var s' := Apply(cfg, s, t);
      assert s'.loaded + s'.creations == s'.evictions + s'.memory;
    }
  }

  lemma WroteConserves(cfg: Config, s: State, i: nat, disk: S.Disk)
    requires Conserved(s) && i < |s.calls| && PlanOf(cfg, s, i).Write?
    ensures Conserved(Wrote(s.(disk := disk), i, PlanOf(cfg, s, i)))
  {
    hide HandlesOf;
    var c, plan := s.calls[i], PlanOf(cfg, s, i);
    PlanConservesHandles(cfg.codec, cfg.lim, s.memory, c.message, !c.onlyIfMissing);
    hide AppendPlan;
    HandlesOfOne(c.message);
    var made := if plan.created then [c.message] else [];
    LogsConserve(s.loaded, s.creations, made, s.evictions, plan.evicted, s.memory, plan.records);
  }

  lemma {:induction false} RunConserved(cfg: Config, states: seq<State>, steps: seq<Step>, n: nat)
    requires IsExecution(cfg, states, steps) && n < |states|
    ensures Conserved(states[n])
  {
    hide Apply;
    hide Enabled;
    if n > 0 {
      RunConserved(cfg, states, steps, n - 1);
      ConservedStep(cfg, states[n - 1], steps[n - 1]);
    }
  }

  /** In every reachable state the history is, handle by handle, the latest part of what `Open` loaded followed
      by what was created since, in the order of creation. */
  lemma HistoryInCreationOrder(cfg: Config, states: seq<State>, steps: seq<Step>, n: nat)
    requires IsExecution(cfg, states, steps) && n < |states|
    ensures var s := states[n];
            && HandlesOf(s.loaded + s.creations) == HandlesOf(s.evictions) + HandlesOf(s.memory)
            && IsSuffix(HandlesOf(s.memory), HandlesOf(s.loaded + s.creations))
  {
    RunConserved(cfg, states, steps, n);
    HandlesConcat(states[n].evictions, states[n].memory);
  }

  /** In a lifetime that begins with an empty history, whatever the interleaving of pushes, replays and polls: the
      creations of a non-empty handle are its evictions, plus one if it is resident. */
  lemma CreationsAreEvictionsPlusResident(cfg: Config, states: seq<State>, steps: seq<Step>, n: nat, handle: string)
    requires IsExecution(cfg, states, steps) && n < |states| && states[n].loaded == [] && handle != []
    ensures Count(states[n].creations, handle) ==
            Count(states[n].evictions, handle) + (if handle in Handles(states[n].memory) then 1 else 0)
  {
    hide Written;
    hide Acceptable;
    var s := states[n];
    RunConserved(cfg, states, steps, n);
    RunInv(cfg, states, steps, n);
    assert s.loaded + s.creations == s.creations;
    SameHandlesSameCount(s.creations, s.evictions + s.memory, handle);
    CountConcat(s.evictions, s.memory, handle);
    CountUnique(s.memory, handle);
  }

  /** The notifications still to come for calls that created a record with the handle. */
  function Owed(calls: seq<Call>, handle: string): nat {
    if calls == [] then 0 else Owed(calls[..|calls| - 1], handle) + Owes(calls[|calls| - 1], handle)
  }

  function Owes(c: Call, handle: string): nat { if c.pc == Stored(true) && c.message.handle == handle then 1 else 0 }

  lemma {:induction false} OwedUpdate(calls: seq<Call>, i: nat, c: Call, handle: string)
    requires i < |calls|
    ensures Owed(calls[i := c], handle) == Owed(calls, handle) - Owes(calls[i], handle) + Owes(c, handle)
  {
    var n := |calls| - 1;
    if i == n {
      assert calls[i := c][..n] == calls[..n];
    } else {
      assert calls[i := c][..n] == calls[..n][i := c];
      OwedUpdate(calls[..n], i, c, handle);
    }
  }

  lemma {:induction false} EndedOwesNothing(calls: seq<Call>, handle: string)
    ensures Owed(Ended(calls), handle) == 0
  {
    if calls != [] {
      assert Ended(calls)[..|calls| - 1] == Ended(calls[..|calls| - 1]);
      EndedOwesNothing(calls[..|calls| - 1], handle);
    }
  }

  /** Every other step changes one call, and the two logs by at most its message. */
  lemma OneCallChanges(cfg: Config, s: State, t: Step)
    requires Enabled(cfg, s, t) && !t.Enter? && !t.SyncContacts? && !t.Reopen?
    ensures var s', c := Apply(cfg, s, t), s.calls[t.i];
            && |s'.calls| == |s.calls| && s'.calls == s.calls[t.i := c.(pc := s'.calls[t.i].pc)]
            && (s'.calls[t.i].pc == Stored(true) ==>
                  s'.creations == s.creations + [c.message] && s'.notified == s.notified && c.pc != Stored(true))
            && (s'.calls[t.i].pc != Stored(true) ==>
                  && s'.creations == s.creations
                  && (s'.notified == s.notified || (c.pc == Stored(true) && s'.notified == s.notified + [c.message])))
            && (c.pc == Stored(true) ==> t.Announce? && (t.recent ==> s'.notified == s.notified + [c.message]))
  {
    hide PlanOf;
    hide StillResident;
    hide AppendSucceeds;
    if t.Append? {
      AppendedShape(cfg, s, t.i, t.sys);
    }
    hide Appended;
    hide S.SavedDisk;
  }

  /** Creations of the handle that were not, and will not be, notified. */
  function Silent(s: State, handle: string): int {
    Count(s.creations, handle) - Count(s.notified, handle) - Owed(s.calls, handle)
  }

  /** Only an announcement of a message that is not recent is silent. */
  lemma SilentStep(cfg: Config, s: State, t: Step, handle: string)
    requires Enabled(cfg, s, t)
    ensures !t.Reopen? ==> Silent(Apply(cfg, s, t), handle) >= Silent(s, handle)
    ensures !t.Reopen? && (t.Announce? ==> t.recent) ==> Silent(Apply(cfg, s, t), handle) == Silent(s, handle)
    ensures t.Reopen? ==> Silent(Apply(cfg, s, t), handle) == 0
  {
    hide Count;
    hide Owed;
    if t.Enter? {
      EnterOwesNothing(s.calls, Call(Backend.WithKind(t.message), t.onlyIfMissing, Begin), handle);
    } else if t.Reopen? {
      hide Amid;
      EndedOwesNothing(s.calls, handle);
      CountOne(NO_MESSAGE, handle);
    } else if !t.SyncContacts? {
      OneCallChanges(cfg, s, t);
      OneCallSilent(s, Apply(cfg, s, t), t, handle);
      hide *;
    } else {
      hide S.SavedDisk;
    }
  }

  const NO_MESSAGE := Message([], [], [], [], [], [], Time(0, 0), false)

  lemma EnterOwesNothing(calls: seq<Call>, c: Call, handle: string)
    requires c.pc == Begin
    ensures Owed(calls + [c], handle) == Owed(calls, handle)
  {
    assert (calls + [c])[..|calls|] == calls;
  }

  lemma OneCallSilent(s: State, s': State, t: Step, handle: string)
    requires !t.Enter? && !t.SyncContacts? && !t.Reopen? && t.i < |s.calls| == |s'.calls|
    requires var c := s.calls[t.i];
             && s'.calls == s.calls[t.i := c.(pc := s'.calls[t.i].pc)]
             && (s'.calls[t.i].pc == Stored(true) ==>
                   s'.creations == s.creations + [c.message] && s'.notified == s.notified && c.pc != Stored(true))
             && (s'.calls[t.i].pc != Stored(true) ==>
                   && s'.creations == s.creations
                   && (s'.notified == s.notified || (c.pc == Stored(true) && s'.notified == s.notified + [c.message])))
             && (c.pc == Stored(true) ==> t.Announce? && (t.recent ==> s'.notified == s.notified + [c.message]))
    ensures Silent(s', handle) >= Silent(s, handle)
    ensures (t.Announce? ==> t.recent) ==> Silent(s', handle) == Silent(s, handle)
  {
    hide Count;
    hide Owed;
    OwedUpdate(s.calls, t.i, s'.calls[t.i], handle);
    var m := s.calls[t.i].message;
    CountOne(m, handle);
    CountConcat(s.notified, [m], handle);
    CountConcat(s.creations, [m], handle);
  }

  lemma {:induction false} RunSilent(cfg: Config, states: seq<State>, steps: seq<Step>, n: nat, handle: string)
    requires IsExecution(cfg, states, steps) && n < |states|
    ensures Silent(states[n], handle) >= 0
    ensures (forall k :: 0 <= k < n && steps[k].Announce? ==> steps[k].recent) ==> Silent(states[n], handle) == 0
  {
    hide Apply;
    hide Enabled;
    if n > 0 {
      hide Silent;
      RunSilent(cfg, states, steps, n - 1, handle);
      SilentStep(cfg, states[n - 1], steps[n - 1], handle);
    }
  }

  /** No creation of a recent message goes unnotified: once every call of this lifetime that created a record has gone on
      to announce it, there have been as many notifications of a handle as creations. */
  lemma RecentCreationsAreNotified(cfg: Config, states: seq<State>, steps: seq<Step>, n: nat, handle: string)
    requires IsExecution(cfg, states, steps) && n < |states|
    requires forall k :: 0 <= k < n && steps[k].Announce? ==> steps[k].recent
    requires forall i :: 0 <= i < |states[n].calls| ==> !states[n].calls[i].pc.Stored?
    ensures Count(states[n].notified, handle) == Count(states[n].creations, handle)
  {
    RunSilent(cfg, states, steps, n, handle);
    NothingOwed(states[n].calls, handle);
  }

  lemma {:induction false} NothingOwed(calls: seq<Call>, handle: string)
    requires forall i :: 0 <= i < |calls| ==> !calls[i].pc.Stored?
    ensures Owed(calls, handle) == 0
  {
    if calls != [] {
      NothingOwed(calls[..|calls| - 1], handle);
    }
  }

  lemma CountOne(m: Message, handle: string)
    ensures Count([m], handle) == (if m.handle == handle then 1 else 0) && Count([], handle) == 0
  {
  }

  /** In such a lifetime a non-empty handle is notified at most once more than it was evicted: no replay and no poll
      of a resident message notifies again. */
  lemma NotifiedAtMostOncePerResidence(cfg: Config, states: seq<State>, steps: seq<Step>, n: nat, handle: string)
    requires IsExecution(cfg, states, steps) && n < |states| && states[n].loaded == [] && handle != []
    ensures Count(states[n].notified, handle) <=
            Count(states[n].evictions, handle) + (if handle in Handles(states[n].memory) then 1 else 0)
  {
    hide Apply;
    hide Enabled;
    RunSilent(cfg, states, steps, n, handle);
    CreationsAreEvictionsPlusResident(cfg, states, steps, n, handle);
  }

  // ---------------------------------------------------------------- the order of creations

  /** Each creation is that of an entered call. */
  predicate AttributedInv(s: State) {
    && |s.creators| == |s.creations|
    && forall a :: 0 <= a < |s.creators| ==>
         s.creators[a] < |s.calls| && s.creations[a] == s.calls[s.creators[a]].message
  }

  /** The calls of `s` are still there in `s'`, and what is done stays done. */
  predicate CallsKept(s: State, s': State) {
    && |s.calls| <= |s'.calls|
    && forall i :: 0 <= i < |s.calls| ==>
         s'.calls[i].message == s.calls[i].message && (Done(s.calls[i]) ==> Done(s'.calls[i]))
  }

  /** What was created stays where it is, and only calls that are not done create. */
  predicate CreationsGrow(s: State, s': State) {
    && s.creators <= s'.creators
    && forall a :: |s.creators| <= a < |s'.creators| ==> s'.creators[a] < |s.calls| && !Done(s.calls[s'.creators[a]])
  }

  lemma CallsGoOn(cfg: Config, s: State, t: Step)
    requires Enabled(cfg, s, t) && AttributedInv(s)
    ensures AttributedInv(Apply(cfg, s, t)) && CallsKept(s, Apply(cfg, s, t))
    ensures !t.Reopen? ==> CreationsGrow(s, Apply(cfg, s, t))
  {
    hide AppendPlan;
    hide S.SavedDisk;
    hide Amid;
    if t.Append? {
      AppendGoesOn(cfg, s, t.i, t.sys);
      hide Appended;
      hide AttributedInv;
      hide CallsKept;
      hide CreationsGrow;
    }
  }

  lemma AppendGoesOn(cfg: Config, s: State, i: nat, sys: System)
    requires At(s, i, HasRepository) && AttributedInv(s)
    ensures var s' := Appended(cfg, s, i, sys); AttributedInv(s') && CallsKept(s, s') && CreationsGrow(s, s')
  {
    AppendedShape(cfg, s, i, sys);
    var disk := Appended(cfg, s, i, sys).disk;
    PcGoesOn(s, disk, i, Returned);
    PcGoesOn(s, disk, i, LockDue);
    if AppendSucceeds(cfg, s, i, sys) {
      WroteGoesOn(s, disk, i, PlanOf(cfg, s, i));
    }
    hide *;
  }

  lemma PcGoesOn(s: State, disk: S.Disk, i: nat, pc: Pc)
    requires At(s, i, HasRepository) && AttributedInv(s)
    ensures var s' := SetPc(s.(disk := disk), i, pc); AttributedInv(s') && CallsKept(s, s') && CreationsGrow(s, s')
  {
  }

  lemma WroteGoesOn(s: State, disk: S.Disk, i: nat, plan: Plan)
    requires At(s, i, HasRepository) && AttributedInv(s) && plan.Write?
    ensures var s' := Wrote(s.(disk := disk), i, plan); AttributedInv(s') && CallsKept(s, s') && CreationsGrow(s, s')
  {
    hide StillResident;
  }

  /** The call is past its append. */
  predicate Done(c: Call) { c.pc.Stored? || c.pc.Returned? }

  lemma {:induction false} RunAttributed(cfg: Config, states: seq<State>, steps: seq<Step>, n: nat)
    requires IsExecution(cfg, states, steps) && n < |states|
    ensures AttributedInv(states[n])
  {
    hide Apply;
    hide Enabled;
    if n > 0 {
      RunAttributed(cfg, states, steps, n - 1);
      CallsGoOn(cfg, states[n - 1], steps[n - 1]);
    }
  }

  ghost predicate SameLifetime(steps: seq<Step>, k: nat, n: nat)
    requires k <= n <= |steps|
  {
    forall l :: k <= l < n ==> !steps[l].Reopen?
  }

  /** After call `i` is done, what it created stays where it is, and it creates nothing more. */
  lemma {:induction false} DoneCallCreatesNoMore(cfg: Config, states: seq<State>, steps: seq<Step>, k: nat, n: nat, i: nat)
    requires IsExecution(cfg, states, steps) && k <= n < |states| && SameLifetime(steps, k, n)
    requires i < |states[k].calls| && Done(states[k].calls[i])
    ensures i < |states[n].calls| && Done(states[n].calls[i])
    ensures states[k].creators <= states[n].creators
    ensures forall a :: |states[k].creators| <= a < |states[n].creators| ==> states[n].creators[a] != i
  {
    hide Apply;
    hide Enabled;
    if k < n {
      DoneCallCreatesNoMore(cfg, states, steps, k, n - 1, i);
      RunAttributed(cfg, states, steps, n - 1);
      CallsGoOn(cfg, states[n - 1], steps[n - 1]);
    }
  }

  /** Records of one goroutine's calls, like those of a polled batch, enter the history in the order of the calls,
      whatever other goroutines store in between: call `j` begins after call `i` is done, so what `i` created
      comes before what `j` created. */
  lemma CallsCreateInOrder(cfg: Config, states: seq<State>, steps: seq<Step>, k: nat, n: nat, i: nat, j: nat, a: nat, b: nat)
    requires IsExecution(cfg, states, steps) && k <= n < |states| && SameLifetime(steps, k, n)
    requires i < |states[k].calls| && Done(states[k].calls[i]) && |states[k].calls| <= j
    requires a < |states[n].creators| && states[n].creators[a] == i
    requires b < |states[n].creators| && states[n].creators[b] == j
    ensures a < b && AttributedInv(states[n])
    ensures states[n].creations[a] == states[n].calls[i].message && states[n].creations[b] == states[n].calls[j].message
  {
    hide Apply;
    hide Enabled;
    DoneCallCreatesNoMore(cfg, states, steps, k, n, i);
    RunAttributed(cfg, states, steps, k);
    RunAttributed(cfg, states, steps, n);
    assert forall x :: 0 <= x < |states[k].creators| ==> states[n].creators[x] == states[k].creators[x];
  }

  // ---------------------------------------------------------------- pushes win

  /** The pushed handles are resident, and their only records are those pushed last. */
  predicate PushInv(s: State) {
    forall h :: h in s.pushed ==>
      && h != [] && h in Handles(s.memory) && s.pushed[h].handle == h
      && forall i :: 0 <= i < |s.memory| && s.memory[i].handle == h ==> s.memory[i] == s.pushed[h]
  }

  /** Placing a record leaves the records with other handles as they are. */
  lemma OthersUnmoved(ms: seq<Message>, m: Message, h: string, i: nat)
    requires i < |Placed(ms, m)| && Placed(ms, m)[i].handle == h && h != m.handle
    ensures i < |ms| && ms[i] == Placed(ms, m)[i]
  {
  }

  lemma PlacedIsOnlyOne(ms: seq<Message>, m: Message, i: nat)
    requires UniqueHandles(ms) && m.handle != []
    requires i < |Placed(ms, m)| && Placed(ms, m)[i].handle == m.handle
    ensures Placed(ms, m)[i] == m
  {
    PlacedUnique(ms, m);
    var p := Position(ms, m);
    assert Placed(ms, m)[p] == m;
  }

  lemma RecordsComeFromPlaced(cfg: Config, ms: seq<Message>, m: Message, replace: bool, i: nat)
    requires AppendPlan(cfg.codec, cfg.lim, ms, m, replace).Write?
    requires i < |AppendPlan(cfg.codec, cfg.lim, ms, m, replace).records|
    ensures var plan := AppendPlan(cfg.codec, cfg.lim, ms, m, replace);
            var k := |plan.evicted| + i;
            k < |Placed(ms, m)| && plan.records[i] == Placed(ms, m)[k]
  {
    PlanKeepsLongestSuffix(cfg.codec, cfg.lim, ms, m, replace);
    hide AppendPlan;
  }

  lemma WroteKeepsPushed(cfg: Config, s: State, i: nat, h: string, j: nat)
    requires PushInv(s) && UniqueHandles(s.memory) && i < |s.calls| && PlanOf(cfg, s, i).Write?
    requires var s' := Wrote(s, i, PlanOf(cfg, s, i));
             h in s'.pushed && j < |s'.memory| && s'.memory[j].handle == h
    ensures var s' := Wrote(s, i, PlanOf(cfg, s, i)); h != [] && s'.memory[j] == s'.pushed[h] && s'.pushed[h].handle == h
  {
    hide LeastFit;
    hide ValidMessage;
    hide Placed;
    var c := s.calls[i];
    var m, replace := c.message, !c.onlyIfMissing;
    RecordsComeFromPlaced(cfg, s.memory, m, replace, j);
    var k := |PlanOf(cfg, s, i).evicted| + j;
    if !replace {
      WrittenIfMissing(cfg, s, i);
    }
    hide AppendPlan;
    if h != m.handle {
      OthersUnmoved(s.memory, m, h, k);
    } else if replace {
      PlacedIsOnlyOne(s.memory, m, k);
    }
  }

  lemma WrittenIfMissing(cfg: Config, s: State, i: nat)
    requires i < |s.calls| && PlanOf(cfg, s, i).Write? && s.calls[i].onlyIfMissing
    ensures Find(s.memory, s.calls[i].message.handle).None?
  {
    hide ValidMessage;
    hide LeastFit;
  }

  lemma WrotePushInv(cfg: Config, s: State, i: nat)
    requires PushInv(s) && UniqueHandles(s.memory) && i < |s.calls| && PlanOf(cfg, s, i).Write?
    ensures PushInv(Wrote(s, i, PlanOf(cfg, s, i)))
  {
    hide PlanOf;
    var s' := Wrote(s, i, PlanOf(cfg, s, i));
    forall h | h in s'.pushed
      ensures h != [] && h in Handles(s'.memory) && s'.pushed[h].handle == h
      ensures forall j :: 0 <= j < |s'.memory| && s'.memory[j].handle == h ==> s'.memory[j] == s'.pushed[h]
    {
      var k :| 0 <= k < |s'.memory| && s'.memory[k].handle == h;
      forall j | 0 <= j < |s'.memory| && s'.memory[j].handle == h
        ensures h != [] && s'.memory[j] == s'.pushed[h] && s'.pushed[h].handle == h
      {
        WroteKeepsPushed(cfg, s, i, h, j);
      }
    }
  }

  lemma PushStep(cfg: Config, s: State, t: Step)
    requires PushInv(s) && UniqueHandles(s.memory) && Enabled(cfg, s, t)
    ensures PushInv(Apply(cfg, s, t))
  {
    hide Appended;
    if t.Append? {
      AppendPushInv(cfg, s, t.i, t.sys);
      hide PushInv;
    } else if !t.Reopen? {
      OtherSteps(cfg, s, t);
      hide Apply;
      hide Enabled;
    } else {
      hide Amid;
    }
  }

  lemma AppendPushInv(cfg: Config, s: State, i: nat, sys: System)
    requires PushInv(s) && UniqueHandles(s.memory) && i < |s.calls|
    ensures PushInv(Appended(cfg, s, i, sys))
  {
    AppendedShape(cfg, s, i, sys);
    if AppendSucceeds(cfg, s, i, sys) {
      WrotePushInv(cfg, s.(disk := Appended(cfg, s, i, sys).disk), i);
    }
    hide Appended;
    hide Wrote;
    hide AppendPlan;
    hide S.SavedDisk;
  }

  /** In every reachable state the record of a resident handle that was pushed in this lifetime is exactly that of
      its latest successful push. */
  lemma {:induction false} RunPushes(cfg: Config, states: seq<State>, steps: seq<Step>, n: nat)
    requires IsExecution(cfg, states, steps) && n < |states|
    ensures PushInv(states[n])
  {
    hide Apply;
    hide Enabled;
    hide Written;
    hide Acceptable;
    hide PushInv;
    if n == 0 {
      NothingPushed();
    } else {
      RunPushes(cfg, states, steps, n - 1);
      RunInv(cfg, states, steps, n - 1);
      PushStep(cfg, states[n - 1], steps[n - 1]);
    }
  }

  lemma NothingPushed()
    ensures PushInv(INIT)
  {
  }

  /** The step is a successful push of this handle. */
  ghost predicate Pushes(cfg: Config, s: State, t: Step, h: string) {
    t.Append? && Enabled(cfg, s, t) && PlanOf(cfg, s, t.i).Write? && S.SaveErrorOf(Saving(cfg, s, t.i, t.sys)).None?
    && !s.calls[t.i].onlyIfMissing && s.calls[t.i].message.handle == h
  }

  /** From a successful push of a handle on, as long as it stays resident, is not pushed again and the daemon runs, its
      one record is exactly the pushed one, whatever polls and other pushes do meanwhile. */
  lemma {:induction false} PushedRecordStays(cfg: Config, states: seq<State>, steps: seq<Step>, m: nat, n: nat, h: string)
    requires IsExecution(cfg, states, steps) && h != []
    requires m < n < |states| && Pushes(cfg, states[m], steps[m], h) && SameLifetime(steps, m, n)
    requires forall k :: m < k <= n ==> h in Handles(states[k].memory)
    requires forall k :: m < k < n ==> !Pushes(cfg, states[k], steps[k], h)
    ensures var record := states[m].calls[steps[m].i].message;
            && h in states[n].pushed && states[n].pushed[h] == record
            && exists i :: 0 <= i < |states[n].memory| && states[n].memory[i] == record
                           && forall j :: 0 <= j < |states[n].memory| && states[n].memory[j].handle == h ==> j == i
  {
    PushedLogged(cfg, states, steps, m, n, h);
    hide Apply;
    hide Enabled;
    hide Written;
    hide Acceptable;
    hide Pushes;
    RunPushes(cfg, states, steps, n);
    RunInv(cfg, states, steps, n);
    var record := states[m].calls[steps[m].i].message;
    var i :| 0 <= i < |states[n].memory| && states[n].memory[i].handle == h;
    assert states[n].memory[i] == record;
  }

  lemma {:induction false} PushedLogged(cfg: Config, states: seq<State>, steps: seq<Step>, m: nat, n: nat, h: string)
    requires IsExecution(cfg, states, steps) && h != []
    requires m < n < |states| && Pushes(cfg, states[m], steps[m], h) && SameLifetime(steps, m, n)
    requires forall k :: m < k <= n ==> h in Handles(states[k].memory)
    requires forall k :: m < k < n ==> !Pushes(cfg, states[k], steps[k], h)
    ensures h in states[n].pushed && states[n].pushed[h] == states[m].calls[steps[m].i].message
  {
    hide Apply;
    hide Enabled;
    hide Pushes;
    hide Handles;
    var last := n - 1;
    assert states[last + 1] == Apply(cfg, states[last], steps[last]) && h in Handles(states[n].memory);
    assert !steps[last].Reopen?;
    PushedStep(cfg, states[last], steps[last], h);
    if m < last {
      PushedLogged(cfg, states, steps, m, last, h);
    }
  }

  lemma PushedStep(cfg: Config, s: State, t: Step, h: string)
    requires Enabled(cfg, s, t) && h != [] && h in Handles(Apply(cfg, s, t).memory) && !t.Reopen?
    ensures Pushes(cfg, s, t, h) ==>
              h in Apply(cfg, s, t).pushed && Apply(cfg, s, t).pushed[h] == s.calls[t.i].message
    ensures !Pushes(cfg, s, t, h) && h in s.pushed ==>
              h in Apply(cfg, s, t).pushed && Apply(cfg, s, t).pushed[h] == s.pushed[h]
  {
    hide PlanOf;
    hide Appended;
    hide Handles;
    if t.Append? {
      AppendedShape(cfg, s, t.i, t.sys);
      hide S.SavedDisk;
    } else {
      OtherSteps(cfg, s, t);
      hide Apply;
      hide Enabled;
    }
  }
}
