/**
 The OBEX worker (internal/obex/worker.go) as a transition system.

 Callers of `Submit`, the single `run` goroutine and callers of `Stop` take atomic
 steps in any order. A step is one channel operation, one `select` branch or one
 observable local action; when several branches of a `select` are ready, each of
 them is an enabled step. The set of `Submit` calls is finite but arbitrary.
 */
module Worker {
  import opened Wrappers
  import opened Sequences

  /** Error values. A work function may return any of them, also the worker's own. */
  datatype Error = BadRequest | QueueFull | Stopped | Cancelled | WorkFailed(code: int)
  datatype Outcome = Ok | Fail(error: Error)

  /** Where one `Submit` call stands. */
  datatype Pc =
    | Idle                          // not called yet
    | HasSlot                       // holds a slot token, at the select that enqueues
    | Releasing(result: Outcome)    // gives the token back, then returns
    | Waiting                       // at the select that awaits the result
    | Returned(result: Outcome)

  /** One `Submit` call: `done` is the content of its one-place result channel. */
  datatype Call = Call(valid: bool, pc: Pc, cancelled: bool, done: Option<Outcome>)

  datatype WorkerPc =
    | Selecting
    | Checking(op: nat)             // derives the call context and reads its error
    | Cleared(op: nat)              // found no error; about to call the work function
    | Running(op: nat)              // the work function executes
    | Delivering(op: nat, result: Outcome)
    | Freeing(op: nat)
    | Draining
    | Rejecting(op: nat)
    | RejectFreeing(op: nat)
    | Exited                        // `done` is closed

  /** A `Stop` call: `InOnce` has cancelled the stop context but not yet closed `stop`. */
  datatype StopPc = NotCalled | InOnce | AwaitDone | StopReturned
  datatype Once = Fresh | Busy(caller: nat) | Finished

  /** The fields after `stoppers` are history: they record what happened and guard nothing. */
  datatype State = State(
    capacity: nat,
    slots: nat,
    queue: seq<nat>,
    calls: seq<Call>,
    worker: WorkerPc,
    stopCtxCancelled: bool,
    stopClosed: bool,
    once: Once,
    stoppers: seq<StopPc>,
    enqueued: seq<nat>,
    dequeued: seq<nat>,
    started: seq<nat>,
    finished: seq<(nat, Outcome)>,
    delivered: seq<(nat, Outcome)>)

  datatype Step =
    | Submit(i: nat)
    | Enqueue(i: nat)
    | CancelBeforeEnqueue(i: nat)
    | StopBeforeEnqueue(i: nat)
    | ReturnSlot(i: nat)
    | ReceiveResult(i: nat)
    | CancelWhileWaiting(i: nat)
    | StopWhileWaiting(i: nat)
    | TakeRequest
    | PassCheck
    | StartWork
    | RefuseCancelled
    | FinishWork(result: Outcome)
    | Deliver
    | FreeSlot
    | BeginDrain
    | DrainTake
    | DrainReject
    | DrainFree
    | DrainExit
    | CancelContext(i: nat)
    | StopEnter(k: nat)
    | StopClose(k: nat)
    | StopJoin(k: nat)
    | StopReturn(k: nat)

  function Init(capacity: nat, valid: seq<bool>, stops: nat): State {
    State(capacity, 0, [], seq(|valid|, i requires 0 <= i < |valid| => Call(valid[i], Idle, false, None)),
          Selecting, false, false, Fresh, seq(stops, _ => NotCalled), [], [], [], [], [])
  }

  predicate AtPc(s: State, i: nat, pc: Pc) { i < |s.calls| && s.calls[i].pc == pc }

  predicate AtStop(s: State, k: nat, pc: StopPc) { k < |s.stoppers| && s.stoppers[k] == pc }

  /** Steps of one `Submit` call, or of the owner of its context. */
  predicate ByCaller(t: Step) {
    || t.Submit? || t.Enqueue? || t.CancelBeforeEnqueue? || t.StopBeforeEnqueue? || t.ReturnSlot?
    || t.ReceiveResult? || t.CancelWhileWaiting? || t.StopWhileWaiting? || t.CancelContext?
  }

  /** Steps of a `Stop` call. */
  predicate ByStopper(t: Step) { t.StopEnter? || t.StopClose? || t.StopJoin? || t.StopReturn? }

  /** Steps of the `run` goroutine. */
  predicate ByWorker(t: Step) { !ByCaller(t) && !ByStopper(t) }

  predicate CallerEnabled(s: State, t: Step)
    requires ByCaller(t)
  {
    match t
    case Submit(i) => AtPc(s, i, Idle)
    case Enqueue(i) => AtPc(s, i, HasSlot) && |s.queue| < s.capacity
    case CancelBeforeEnqueue(i) => AtPc(s, i, HasSlot) && s.calls[i].cancelled
    case StopBeforeEnqueue(i) => AtPc(s, i, HasSlot) && s.stopClosed
    case ReturnSlot(i) => i < |s.calls| && s.calls[i].pc.Releasing? && s.slots > 0
    case ReceiveResult(i) => AtPc(s, i, Waiting) && s.calls[i].done.Some?
    case CancelWhileWaiting(i) => AtPc(s, i, Waiting) && s.calls[i].cancelled
    case StopWhileWaiting(i) => AtPc(s, i, Waiting) && s.stopClosed
    case CancelContext(i) => i < |s.calls| && !s.calls[i].cancelled
  }

  predicate StopperEnabled(s: State, t: Step)
    requires ByStopper(t)
  {
    match t
    case StopEnter(k) => AtStop(s, k, NotCalled) && s.once.Fresh?
    case StopClose(k) => AtStop(s, k, InOnce)
    case StopJoin(k) => AtStop(s, k, NotCalled) && s.once.Finished?
    case StopReturn(k) => AtStop(s, k, AwaitDone) && s.worker.Exited?
  }

  /** `RefuseCancelled` may fire once the stop context is cancelled because `AfterFunc` cancels the call
      context asynchronously; `PassCheck` may then still win. A context cancelled after `PassCheck` does not keep
      the work from starting. */
  predicate WorkerEnabled(s: State, t: Step)
    requires ByWorker(t)
  {
    match t
    case TakeRequest => s.worker.Selecting? && s.queue != []
    case PassCheck => s.worker.Checking? && s.worker.op < |s.calls| && !s.calls[s.worker.op].cancelled
    case StartWork => s.worker.Cleared?
    case RefuseCancelled =>
      s.worker.Checking? && s.worker.op < |s.calls| && (s.calls[s.worker.op].cancelled || s.stopCtxCancelled)
    case FinishWork(_) => s.worker.Running?
    case Deliver => s.worker.Delivering? && s.worker.op < |s.calls| && s.calls[s.worker.op].done.None?
    case FreeSlot => s.worker.Freeing? && s.slots > 0
    case BeginDrain => s.worker.Selecting? && s.stopClosed
    case DrainTake => s.worker.Draining? && s.queue != []
    case DrainReject => s.worker.Rejecting? && s.worker.op < |s.calls| && s.calls[s.worker.op].done.None?
    case DrainFree => s.worker.RejectFreeing? && s.slots > 0
    case DrainExit => s.worker.Draining? && s.queue == []
  }

  predicate Enabled(s: State, t: Step) {
    if ByCaller(t) then CallerEnabled(s, t) else if ByStopper(t) then StopperEnabled(s, t) else WorkerEnabled(s, t)
  }

  /** The call that a caller's step leaves behind. */
  function CallAfter(s: State, t: Step): Call
    requires ByCaller(t) && CallerEnabled(s, t)
  {
    var c := s.calls[t.i];
    match t
    case Submit(_) =>
      c.(pc := if !c.valid then Returned(Fail(BadRequest))
               else if s.slots < s.capacity then HasSlot
               else Returned(Fail(QueueFull)))
    case Enqueue(_) => c.(pc := Waiting)
    case CancelBeforeEnqueue(_) => c.(pc := Releasing(Fail(Cancelled)))
    case StopBeforeEnqueue(_) => c.(pc := Releasing(Fail(Stopped)))
    case ReturnSlot(_) => c.(pc := Returned(c.pc.result))
    case ReceiveResult(_) => c.(pc := Returned(c.done.value), done := None)
    case CancelWhileWaiting(_) => c.(pc := Returned(Fail(Cancelled)))
    case StopWhileWaiting(_) => c.(pc := Returned(Fail(Stopped)))
    case CancelContext(_) => c.(cancelled := true)
  }

  function ApplyCaller(s: State, t: Step): (s': State)
    requires ByCaller(t) && CallerEnabled(s, t)
    ensures s'.calls == s.calls[t.i := CallAfter(s, t)]
    ensures s' == s.(calls := s'.calls, slots := s'.slots, queue := s'.queue, enqueued := s'.enqueued)
    ensures s'.queue == (if t.Enqueue? then s.queue + [t.i] else s.queue)
    ensures s'.enqueued == (if t.Enqueue? then s.enqueued + [t.i] else s.enqueued)
  {
    var s1 := s.(calls := s.calls[t.i := CallAfter(s, t)]);
    match t
    case Submit(i) => if s1.calls[i].pc.HasSlot? then s1.(slots := s.slots + 1) else s1
    case Enqueue(i) => s1.(queue := s.queue + [i], enqueued := s.enqueued + [i])
    case ReturnSlot(i) => s1.(slots := s.slots - 1)
    case _ => s1
  }

  function SetStop(s: State, k: nat, pc: StopPc): State
    requires k < |s.stoppers|
  {
    s.(stoppers := s.stoppers[k := pc])
  }

  function ApplyStopper(s: State, t: Step): (s': State)
    requires ByStopper(t) && StopperEnabled(s, t)
    ensures s' == s.(stopCtxCancelled := s'.stopCtxCancelled, stopClosed := s'.stopClosed, once := s'.once,
                     stoppers := s'.stoppers)
  {
    match t
    case StopEnter(k) => SetStop(s, k, InOnce).(stopCtxCancelled := true, once := Busy(k))
    case StopClose(k) => SetStop(s, k, AwaitDone).(stopClosed := true, once := Finished)
    case StopJoin(k) => SetStop(s, k, AwaitDone)
    case StopReturn(k) => SetStop(s, k, StopReturned)
  }

  /** A result goes into the one-place channel of its call. */
  function Answer(s: State, op: nat, r: Outcome, next: WorkerPc): State
    requires op < |s.calls|
  {
    s.(calls := s.calls[op := s.calls[op].(done := Some(r))], worker := next, delivered := s.delivered + [(op, r)])
  }

  function ApplyWorker(s: State, t: Step): (s': State)
    requires ByWorker(t) && WorkerEnabled(s, t)
    ensures s' == s.(calls := s'.calls, worker := s'.worker, slots := s'.slots, queue := s'.queue, dequeued := s'.dequeued,
                     started := s'.started, finished := s'.finished, delivered := s'.delivered)
    ensures |s'.calls| == |s.calls|
    ensures t.Deliver? || t.DrainReject? ==> |s'.delivered| == |s.delivered| + 1 && s' == Answer(s, s.worker.op, s'.delivered[|s.delivered|].1, s'.worker)
    ensures !(t.Deliver? || t.DrainReject?) ==> s'.calls == s.calls && s'.delivered == s.delivered
  {
    match t
    case TakeRequest => s.(worker := Checking(s.queue[0]), queue := s.queue[1..], dequeued := s.dequeued + [s.queue[0]])
    case PassCheck => s.(worker := Cleared(s.worker.op))
    case StartWork => s.(worker := Running(s.worker.op), started := s.started + [s.worker.op])
    case RefuseCancelled => s.(worker := Delivering(s.worker.op, Fail(Cancelled)))
    case FinishWork(r) => s.(worker := Delivering(s.worker.op, r), finished := s.finished + [(s.worker.op, r)])
    case Deliver => Answer(s, s.worker.op, s.worker.result, Freeing(s.worker.op))
    case FreeSlot => s.(worker := Selecting, slots := s.slots - 1)
    case BeginDrain => s.(worker := Draining)
    case DrainTake => s.(worker := Rejecting(s.queue[0]), queue := s.queue[1..], dequeued := s.dequeued + [s.queue[0]])
    case DrainReject => Answer(s, s.worker.op, Fail(Stopped), RejectFreeing(s.worker.op))
    case DrainFree => s.(worker := Draining, slots := s.slots - 1)
    case DrainExit => s.(worker := Exited)
  }

  function Apply(s: State, t: Step): State
    requires Enabled(s, t)
  {
    if ByCaller(t) then ApplyCaller(s, t) else if ByStopper(t) then ApplyStopper(s, t) else ApplyWorker(s, t)
  }

  /** A run is the sequence of states it visits together with the steps taken between them. */
  ghost predicate IsRun(states: seq<State>, steps: seq<Step>) {
    && |states| == |steps| + 1
    && forall n :: 0 <= n < |steps| ==> Enabled(states[n], steps[n]) && states[n + 1] == Apply(states[n], steps[n])
  }

  /** A run from a freshly made worker: any capacity, any finite set of callers. */
  ghost predicate IsExecution(states: seq<State>, steps: seq<Step>) {
    && IsRun(states, steps)
    && exists capacity, valid, stops :: states[0] == Init(capacity, valid, stops)
  }

  // ---------------------------------------------------------------- slot accounting

  predicate HoldsToken(c: Call) { c.pc.HasSlot? || c.pc.Releasing? }

  /** The number of `Submit` calls that hold a slot token. */
  function Holders(calls: seq<Call>): nat {
    if calls == [] then 0 else Holders(calls[..|calls| - 1]) + (if HoldsToken(calls[|calls| - 1]) then 1 else 0)
  }

  lemma {:induction false} HoldersUpdate(calls: seq<Call>, i: nat, c: Call)
    requires i < |calls|
    ensures Holders(calls[i := c])
         == Holders(calls) - (if HoldsToken(calls[i]) then 1 else 0) + (if HoldsToken(c) then 1 else 0)
  {
    var n := |calls| - 1;
    if i == n {
      assert calls[i := c][..n] == calls[..n];
    } else {
      assert calls[i := c][..n] == calls[..n][i := c];
      HoldersUpdate(calls[..n], i, c);
    }
  }

  lemma {:induction false} HoldersPositive(calls: seq<Call>, i: nat)
    requires i < |calls| && HoldsToken(calls[i])
    ensures Holders(calls) > 0
  {
    if i < |calls| - 1 {
      HoldersPositive(calls[..|calls| - 1], i);
    }
  }

  lemma {:induction false} HoldersNone(calls: seq<Call>)
    requires forall i :: 0 <= i < |calls| ==> !HoldsToken(calls[i])
    ensures Holders(calls) == 0
  {
    if calls != [] {
      HoldersNone(calls[..|calls| - 1]);
    }
  }

  predicate WorkerHolds(w: WorkerPc) { !(w.Selecting? || w.Draining? || w.Exited?) }

  function InWorker(s: State): nat { if WorkerHolds(s.worker) then 1 else 0 }

  predicate SlotsInv(s: State) {
    s.slots == Holders(s.calls) + |s.queue| + InWorker(s) <= s.capacity
  }

  lemma SlotsStep(s: State, t: Step)
    requires SlotsInv(s) && Enabled(s, t)
    ensures SlotsInv(Apply(s, t))
  {
    if ByCaller(t) {
      HoldersUpdate(s.calls, t.i, CallAfter(s, t));
      CallerSlots(s, t);
      hide CallerEnabled;
    } else if ByWorker(t) {
      WorkerSlots(s, t);
      if t.Deliver? || t.DrainReject? {
        HoldersUpdate(s.calls, s.worker.op, ApplyWorker(s, t).calls[s.worker.op]);
      }
      hide WorkerEnabled;
    }
    hide ApplyCaller;
    hide CallAfter;
    hide ApplyStopper;
    hide ApplyWorker;
    hide InWorker;
    hide Holders;
  }

  function Token(c: Call): nat { if HoldsToken(c) then 1 else 0 }

  lemma CallerSlots(s: State, t: Step)
    requires ByCaller(t) && CallerEnabled(s, t) && s.slots <= s.capacity
    ensures ApplyCaller(s, t).slots - |ApplyCaller(s, t).queue| - Token(CallAfter(s, t))
         == s.slots - |s.queue| - Token(s.calls[t.i])
    ensures ApplyCaller(s, t).slots <= s.capacity
  {
  }

  lemma WorkerSlots(s: State, t: Step)
    requires ByWorker(t) && WorkerEnabled(s, t)
    ensures ApplyWorker(s, t).slots - |ApplyWorker(s, t).queue| - InWorker(ApplyWorker(s, t))
         == s.slots - |s.queue| - InWorker(s)
    ensures ApplyWorker(s, t).slots <= s.slots
  {
  }

  // ---------------------------------------------------------------- order and identity

  function Ids(log: seq<(nat, Outcome)>): (r: seq<nat>)
    ensures |r| == |log| && forall n :: 0 <= n < |log| ==> r[n] == log[n].0
  {
    seq(|log|, n requires 0 <= n < |log| => log[n].0)
  }

  /** A `Submit` call has put its request on the queue exactly if it got past the enqueueing select. */
  predicate BeforeEnqueue(pc: Pc) { pc.Idle? || pc.HasSlot? || pc.Releasing? }

  predicate Undelivered(w: WorkerPc) { w.Checking? || w.Cleared? || w.Running? || w.Delivering? || w.Rejecting? }

  predicate QueueInv(s: State) {
    && s.enqueued == s.dequeued + s.queue
    && NoDup(s.enqueued)
    && (forall i :: i in s.enqueued ==> i < |s.calls| && !BeforeEnqueue(s.calls[i].pc))
    && (forall i :: 0 <= i < |s.calls| && s.calls[i].pc.Waiting? ==> i in s.enqueued)
  }

  predicate LogInv(s: State) {
    && s.dequeued == Ids(s.delivered) + (if Undelivered(s.worker) then [s.worker.op] else [])
    && (s.worker.Freeing? || s.worker.RejectFreeing? ==> s.worker.op in s.dequeued)
    && Subsequence(s.started, s.dequeued)
    && s.started == Ids(s.finished) + (if s.worker.Running? then [s.worker.op] else [])
    && (s.worker.Checking? || s.worker.Cleared? || s.worker.Rejecting? ==> s.worker.op !in s.started)
  }

  predicate OrderInv(s: State) { QueueInv(s) && LogInv(s) }

  predicate Takes(t: Step) { t.TakeRequest? || t.DrainTake? }

  lemma QueueStep(s: State, t: Step)
    requires QueueInv(s) && Enabled(s, t)
    ensures QueueInv(Apply(s, t))
  {
    if ByCaller(t) {
      CallerQueue(s, t);
    } else if ByWorker(t) {
      WorkerQueue(s, t);
    }
  }

  lemma CallerQueue(s: State, t: Step)
    requires QueueInv(s) && ByCaller(t) && CallerEnabled(s, t)
    ensures QueueInv(ApplyCaller(s, t))
  {
    var s', c := ApplyCaller(s, t), CallAfter(s, t);
    CallerPcs(s, t);
    hide ApplyCaller;
    hide CallAfter;
    hide CallerEnabled;
    if t.Enqueue? {
      assert s'.enqueued == s'.dequeued + s'.queue;
    } else {
      assert s'.enqueued == s.enqueued && s'.queue == s.queue && s'.dequeued == s.dequeued;
      hide NoDup;
    }
  }

  lemma CallerPcs(s: State, t: Step)
    requires ByCaller(t) && CallerEnabled(s, t)
    ensures !BeforeEnqueue(s.calls[t.i].pc) ==> !BeforeEnqueue(CallAfter(s, t).pc)
    ensures CallAfter(s, t).pc.Waiting? ==> t.Enqueue? || s.calls[t.i].pc.Waiting?
    ensures t.Enqueue? ==> s.calls[t.i].pc.HasSlot? && CallAfter(s, t).pc.Waiting?
    ensures s.calls[t.i].cancelled ==> CallAfter(s, t).cancelled
    ensures s.calls[t.i].pc.Returned? ==> CallAfter(s, t).pc == s.calls[t.i].pc
  {
  }

  lemma WorkerQueue(s: State, t: Step)
    requires QueueInv(s) && ByWorker(t) && WorkerEnabled(s, t)
    ensures QueueInv(ApplyWorker(s, t))
  {
    var s' := ApplyWorker(s, t);
    if Takes(t) {
      assert s'.enqueued == s'.dequeued + s'.queue;
    } else {
      assert s'.dequeued == s.dequeued && s'.queue == s.queue;
    }
    hide ApplyWorker;
    hide WorkerEnabled;
    assert forall i :: 0 <= i < |s.calls| ==> s'.calls[i].pc == s.calls[i].pc;
  }

  lemma LogStep(s: State, t: Step)
    requires QueueInv(s) && LogInv(s) && Enabled(s, t)
    ensures LogInv(Apply(s, t))
  {
    hide ApplyCaller;
    hide ApplyStopper;
    hide Subsequence;
    hide QueueInv;
    if ByWorker(t) {
      hide ApplyWorker;
      if Takes(t) {
        LogTakeStep(s, t);
      } else if t.StartWork? {
        LogStartStep(s, t);
      } else {
        LogWorkerStep(s, t);
      }
    }
  }

  lemma LogTakeStep(s: State, t: Step)
    requires QueueInv(s) && LogInv(s) && ByWorker(t) && WorkerEnabled(s, t) && Takes(t)
    ensures LogInv(ApplyWorker(s, t))
  {
    TakeKeepsOrder(s);
    TakeOrStartResult(s, t);
    hide ApplyWorker;
    hide WorkerEnabled;
    hide Subsequence;
    hide QueueInv;
  }

  lemma LogStartStep(s: State, t: Step)
    requires QueueInv(s) && LogInv(s) && ByWorker(t) && WorkerEnabled(s, t) && t.StartWork?
    ensures LogInv(ApplyWorker(s, t))
  {
    hide Subsequence;
    TakeOrStartResult(s, t);
    StartKeepsOrder(s);
    hide QueueInv;
    hide LogInv;
    LogStarted(s);
    hide ApplyWorker;
    hide WorkerEnabled;
  }

  lemma LogStarted(s: State)
    requires LogInv(s) && s.worker.Cleared? && Subsequence(s.started + [s.worker.op], s.dequeued)
    ensures LogInv(s.(worker := Running(s.worker.op), started := s.started + [s.worker.op]))
  {
    hide Subsequence;
  }

  lemma TakeOrStartResult(s: State, t: Step)
    requires ByWorker(t) && WorkerEnabled(s, t)
    ensures Takes(t) ==>
              && s.queue != [] && (s.worker.Selecting? || s.worker.Draining?)
              && ApplyWorker(s, t) == s.(worker := if t.TakeRequest? then Checking(s.queue[0]) else Rejecting(s.queue[0]),
                                         queue := s.queue[1..], dequeued := s.dequeued + [s.queue[0]])
    ensures t.StartWork? ==>
              && s.worker.Cleared?
              && ApplyWorker(s, t) == s.(worker := Running(s.worker.op), started := s.started + [s.worker.op])
  {
  }

  lemma LogWorkerStep(s: State, t: Step)
    requires LogInv(s) && ByWorker(t) && WorkerEnabled(s, t) && !Takes(t) && !t.StartWork?
    ensures LogInv(ApplyWorker(s, t))
  {
    hide Subsequence;
    var s' := ApplyWorker(s, t);
    if t.FinishWork? {
      assert Ids(s'.finished) == Ids(s.finished) + [s.worker.op];
    } else if t.Deliver? || t.DrainReject? {
      assert Ids(s'.delivered) == Ids(s.delivered) + [s.worker.op];
    }
  }

  /** What both `TakeRequest` and `DrainTake` do to the order of operations. */
  lemma TakeKeepsOrder(s: State)
    requires OrderInv(s) && s.queue != [] && (s.worker.Selecting? || s.worker.Draining?)
    ensures s.enqueued == (s.dequeued + [s.queue[0]]) + s.queue[1..]
    ensures Subsequence(s.started, s.dequeued + [s.queue[0]])
    ensures s.queue[0] !in s.started
  {
    SubsequenceSkip(s.started, s.dequeued, s.queue[0]);
    if s.queue[0] in s.started {
      SubsequenceMember(s.started, s.dequeued, s.queue[0]);
      NoDupParts(s.dequeued, s.queue, s.queue[0]);
    }
  }

  /** Before the work of a request starts, everything started so far was delivered before it. */
  lemma StartKeepsOrder(s: State)
    requires OrderInv(s) && s.worker.Cleared?
    ensures Subsequence(s.started + [s.worker.op], s.dequeued)
  {
    var prior := Ids(s.delivered);
    assert s.dequeued[..|prior|] == prior;
    assert Subsequence(s.started, prior);
    SubsequenceTake(s.started, prior, s.worker.op);
  }

  // ---------------------------------------------------------------- results

  /** Where a delivered result can come from. */
  predicate Explained(s: State, i: nat, r: Outcome) {
    (i, r) in s.finished || (i !in s.started && (r == Fail(Cancelled) || r == Fail(Stopped)))
  }

  /** What a `Submit` call may have returned. */
  predicate ReturnExplained(s: State, i: nat, r: Outcome) {
    || (i, r) in s.finished
    || r == Fail(Cancelled) || r == Fail(Stopped)
    || (i !in s.enqueued && (r == Fail(BadRequest) || r == Fail(QueueFull)))
  }

  predicate CallInv(s: State, c: Call, i: nat) {
    && (c.done.Some? ==> (i, c.done.value) in s.delivered)
    && (c.pc.Waiting? && i in Ids(s.delivered) ==> c.done.Some?)
    && (c.pc.Releasing? ==> c.pc.result == Fail(Cancelled) || c.pc.result == Fail(Stopped))
    && (c.pc.Returned? ==> ReturnExplained(s, i, c.pc.result))
  }

  predicate DeliveryInv(s: State) {
    && (forall n :: 0 <= n < |s.delivered| ==> Explained(s, s.delivered[n].0, s.delivered[n].1))
    && (s.worker.Delivering? ==> Explained(s, s.worker.op, s.worker.result))
  }

  predicate ResultInv(s: State) {
    && DeliveryInv(s)
    && (forall i :: 0 <= i < |s.calls| ==> CallInv(s, s.calls[i], i))
  }

  /** Starting an operation leaves every earlier explanation standing. */
  lemma DeliveredNotStarting(s: State)
    requires OrderInv(s) && s.worker.Cleared?
    ensures s.worker.op !in Ids(s.delivered)
  {
    var prior := Ids(s.delivered);
    if s.worker.op in prior {
      assert s.enqueued == prior + ([s.worker.op] + s.queue);
      NoDupParts(prior, [s.worker.op] + s.queue, s.worker.op);
    }
  }

  lemma DeliveryStep(s: State, t: Step)
    requires OrderInv(s) && DeliveryInv(s) && Enabled(s, t)
    ensures DeliveryInv(Apply(s, t))
  {
    hide ApplyCaller;
    hide ApplyStopper;
    if ByWorker(t) {
      WorkerDelivery(s, t);
    }
  }

  lemma WorkerDelivery(s: State, t: Step)
    requires OrderInv(s) && DeliveryInv(s) && ByWorker(t) && WorkerEnabled(s, t)
    ensures DeliveryInv(ApplyWorker(s, t))
  {
    hide Subsequence;
    hide QueueInv;
    var s' := ApplyWorker(s, t);
    if t.StartWork? {
      DeliveredNotStarting(s);
    } else if t.FinishWork? {
      assert s'.finished[|s.finished|] == (s.worker.op, t.result);
    }
    forall n | 0 <= n < |s.delivered| ensures Explained(s', s.delivered[n].0, s.delivered[n].1) {
      assert Explained(s, s.delivered[n].0, s.delivered[n].1);
      assert s.delivered[n].0 == Ids(s.delivered)[n];
      ExplainedStep(s, t, s.delivered[n].0, s.delivered[n].1);
    }
  }

  /** An explanation survives every worker step other than the start of that very operation. */
  lemma ExplainedStep(s: State, t: Step, i: nat, r: Outcome)
    requires ByWorker(t) && WorkerEnabled(s, t) && Explained(s, i, r)
    requires t.StartWork? ==> i != s.worker.op
    ensures Explained(ApplyWorker(s, t), i, r)
  {
  }

  lemma CallerCallStep(s: State, t: Step, i: nat)
    requires QueueInv(s) && LogInv(s) && ResultInv(s) && ByCaller(t) && CallerEnabled(s, t) && i < |s.calls|
    ensures CallInv(ApplyCaller(s, t), ApplyCaller(s, t).calls[i], i)
  {
    hide Subsequence;
    hide ApplyCaller;
    assert CallInv(s, s.calls[i], i);
    if i == t.i {
      if t.Enqueue? {
        assert i in Ids(s.delivered) ==> i in s.enqueued;
      } else if t.ReceiveResult? {
        var n :| 0 <= n < |s.delivered| && s.delivered[n] == (i, s.calls[i].done.value);
        assert Explained(s, s.delivered[n].0, s.delivered[n].1);
      } else if t.Submit? {
        assert i !in s.enqueued;
      }
    } else {
      hide CallAfter;
    }
  }

  lemma WorkerLogsGrow(s: State, t: Step)
    requires ByWorker(t) && WorkerEnabled(s, t)
    ensures s.finished <= ApplyWorker(s, t).finished && s.delivered <= ApplyWorker(s, t).delivered
  {
  }

  lemma WorkerCallStep(s: State, t: Step, i: nat)
    requires ResultInv(s) && ByWorker(t) && WorkerEnabled(s, t) && i < |s.calls|
    ensures CallInv(ApplyWorker(s, t), ApplyWorker(s, t).calls[i], i)
  {
    var s' := ApplyWorker(s, t);
    WorkerLogsGrow(s, t);
    hide ApplyWorker;
    assert CallInv(s, s.calls[i], i);
    if t.Deliver? || t.DrainReject? {
      assert Ids(s'.delivered) == Ids(s.delivered) + [s.worker.op];
      assert s'.delivered[|s.delivered|].0 == s.worker.op;
    }
  }

  lemma ResultStep(s: State, t: Step)
    requires QueueInv(s) && LogInv(s) && ResultInv(s) && Enabled(s, t)
    ensures ResultInv(Apply(s, t))
  {
    DeliveryStep(s, t);
    hide ApplyCaller;
    hide ApplyWorker;
    hide CallerEnabled;
    hide WorkerEnabled;
    hide DeliveryInv;
    hide QueueInv;
    hide LogInv;
    if ByCaller(t) {
      hide CallInv;
      forall i | 0 <= i < |s.calls| ensures CallInv(ApplyCaller(s, t), ApplyCaller(s, t).calls[i], i) {
        CallerCallStep(s, t, i);
      }
    } else if ByWorker(t) {
      hide CallInv;
      forall i | 0 <= i < |s.calls| ensures CallInv(ApplyWorker(s, t), ApplyWorker(s, t).calls[i], i) {
        WorkerCallStep(s, t, i);
      }
    } else {
      StopperCalls(s, t);
      hide ApplyStopper;
    }
  }

  lemma StopperCalls(s: State, t: Step)
    requires ByStopper(t) && StopperEnabled(s, t)
    requires forall i :: 0 <= i < |s.calls| ==> CallInv(s, s.calls[i], i)
    ensures forall i :: 0 <= i < |s.calls| ==> CallInv(ApplyStopper(s, t), ApplyStopper(s, t).calls[i], i)
  {
    hide ApplyStopper;
    hide StopperEnabled;
    forall i | 0 <= i < |s.calls| ensures CallInv(ApplyStopper(s, t), ApplyStopper(s, t).calls[i], i) {
      assert CallInv(s, s.calls[i], i);
    }
  }

  // ---------------------------------------------------------------- stopping

  predicate StopInv(s: State) {
    && (s.stopClosed <==> s.once.Finished?)
    && (s.stopCtxCancelled <==> !s.once.Fresh?)
    && (s.once.Busy? ==> AtStop(s, s.once.caller, InOnce))
    && (forall k :: 0 <= k < |s.stoppers| ==> StopperInv(s, s.stoppers[k], k))
    && (Stopping(s.worker) ==> s.stopClosed)
  }

  predicate StopperInv(s: State, pc: StopPc, k: nat) {
    && (pc.InOnce? ==> s.once == Busy(k))
    && (pc.AwaitDone? ==> s.stopClosed)
    && (pc.StopReturned? ==> s.worker.Exited?)
  }

  lemma StopStep(s: State, t: Step)
    requires StopInv(s) && Enabled(s, t)
    ensures StopInv(Apply(s, t))
  {
    hide ApplyCaller;
    hide ApplyStopper;
    hide ApplyWorker;
    if ByStopper(t) {
      StopperStop(s, t);
    } else if ByWorker(t) {
      WorkerStop(s, t);
    }
  }

  lemma StopperStop(s: State, t: Step)
    requires StopInv(s) && ByStopper(t) && StopperEnabled(s, t)
    ensures StopInv(ApplyStopper(s, t))
  {
    forall k | 0 <= k < |s.stoppers| ensures StopperInv(ApplyStopper(s, t), ApplyStopper(s, t).stoppers[k], k) {
      assert StopperInv(s, s.stoppers[k], k);
    }
  }

  lemma WorkerStop(s: State, t: Step)
    requires StopInv(s) && ByWorker(t) && WorkerEnabled(s, t)
    ensures StopInv(ApplyWorker(s, t))
  {
    WorkerKeepsExit(s, t);
    hide ApplyWorker;
    forall k | 0 <= k < |s.stoppers| ensures StopperInv(ApplyWorker(s, t), s.stoppers[k], k) {
      assert StopperInv(s, s.stoppers[k], k);
    }
  }

  predicate Stopping(w: WorkerPc) { w.Draining? || w.Rejecting? || w.RejectFreeing? || w.Exited? }

  lemma WorkerKeepsExit(s: State, t: Step)
    requires ByWorker(t) && WorkerEnabled(s, t)
    ensures !s.worker.Exited?
    ensures Stopping(ApplyWorker(s, t).worker) ==> Stopping(s.worker) || s.stopClosed
  {
  }

  // ---------------------------------------------------------------- every reachable state

  predicate Inv(s: State) { SlotsInv(s) && OrderInv(s) && ResultInv(s) && StopInv(s) }

  lemma InitInv(capacity: nat, valid: seq<bool>, stops: nat)
    ensures Inv(Init(capacity, valid, stops))
  {
    HoldersNone(Init(capacity, valid, stops).calls);
  }

  lemma StepInv(s: State, t: Step)
    requires Inv(s) && Enabled(s, t)
    ensures Inv(Apply(s, t))
  {
    hide Apply;
    hide Enabled;
    SlotsStep(s, t);
    QueueStep(s, t);
    LogStep(s, t);
    ResultStep(s, t);
    StopStep(s, t);
  }

  lemma {:induction false} RunInv(states: seq<State>, steps: seq<Step>, n: nat)
    requires IsExecution(states, steps) && n < |states|
    ensures Inv(states[n])
  {
    if n == 0 {
      var capacity, valid, stops :| states[0] == Init(capacity, valid, stops);
      InitInv(capacity, valid, stops);
    } else {
      RunInv(states, steps, n - 1);
      StepInv(states[n - 1], steps[n - 1]);
    }
  }

  // ---------------------------------------------------------------- main results

  /** Slot tokens are exactly accounted for, so no channel operation done while holding one can block. */
  lemma NothingBlocks(states: seq<State>, steps: seq<Step>, n: nat)
    requires IsExecution(states, steps) && n < |states|
    ensures var s := states[n];
            && s.slots == Holders(s.calls) + |s.queue| + InWorker(s) <= s.capacity
            && (forall i :: AtPc(s, i, HasSlot) ==> Enabled(s, Enqueue(i)))
            && (forall i :: 0 <= i < |s.calls| && s.calls[i].pc.Releasing? ==> Enabled(s, ReturnSlot(i)))
            && (s.worker.Delivering? ==> Enabled(s, Deliver))
            && (s.worker.Rejecting? ==> Enabled(s, DrainReject))
            && (s.worker.Freeing? ==> Enabled(s, FreeSlot))
            && (s.worker.RejectFreeing? ==> Enabled(s, DrainFree))
  {
    RunInv(states, steps, n);
    StateNeverBlocks(states[n]);
  }

  lemma StateNeverBlocks(s: State)
    requires Inv(s)
    ensures forall i :: AtPc(s, i, HasSlot) ==> Enabled(s, Enqueue(i))
    ensures forall i :: 0 <= i < |s.calls| && s.calls[i].pc.Releasing? ==> Enabled(s, ReturnSlot(i))
    ensures s.worker.Delivering? ==> Enabled(s, Deliver)
    ensures s.worker.Rejecting? ==> Enabled(s, DrainReject)
    ensures s.worker.Freeing? ==> Enabled(s, FreeSlot)
    ensures s.worker.RejectFreeing? ==> Enabled(s, DrainFree)
  {
    hide OrderInv;
    hide ResultInv;
    hide StopInv;
    forall i | 0 <= i < |s.calls| && HoldsToken(s.calls[i]) ensures Holders(s.calls) > 0 {
      HoldersPositive(s.calls, i);
    }
    if Undelivered(s.worker) {
      UndeliveredSlotEmpty(s);
    }
  }

  /** The result channel of the operation the worker is about to answer is empty. */
  lemma UndeliveredSlotEmpty(s: State)
    requires OrderInv(s) && ResultInv(s) && Undelivered(s.worker)
    ensures s.worker.op < |s.calls| && s.calls[s.worker.op].done.None?
  {
    var op, prior := s.worker.op, Ids(s.delivered);
    assert s.enqueued == prior + ([op] + s.queue);
    assert op in s.enqueued;
    var c := s.calls[op];
    assert CallInv(s, c, op);
    if c.done.Some? {
      var n :| 0 <= n < |s.delivered| && s.delivered[n] == (op, c.done.value);
      assert prior[n] == op;
      NoDupParts(prior, [op] + s.queue, op);
    }
  }

  /** Every result channel gets at most one value over the whole execution. */
  lemma AtMostOneDelivery(states: seq<State>, steps: seq<Step>, n: nat)
    requires IsExecution(states, steps) && n < |states|
    ensures NoDup(Ids(states[n].delivered))
  {
    RunInv(states, steps, n);
    var s := states[n];
    assert Ids(s.delivered) == s.enqueued[..|s.delivered|];
  }

  /** Work runs one at a time, in enqueue order, each request at most once. */
  lemma SerialInOrder(states: seq<State>, steps: seq<Step>, n: nat)
    requires IsExecution(states, steps) && n < |states|
    ensures var s := states[n];
            && Subsequence(s.started, s.enqueued)
            && NoDup(s.started)
            && s.started == Ids(s.finished) + (if s.worker.Running? then [s.worker.op] else [])
  {
    RunInv(states, steps, n);
    var s := states[n];
    SubsequenceExtend(s.started, s.dequeued, s.queue);
    SubsequenceNoDup(s.started, s.enqueued);
  }

  /** A nil `Submit` means its work ran exactly once and returned nil. */
  lemma NilMeansRanOnce(states: seq<State>, steps: seq<Step>, n: nat, i: nat)
    requires IsExecution(states, steps) && n < |states|
    requires AtPc(states[n], i, Returned(Ok))
    ensures (i, Ok) in states[n].finished
    ensures multiset(states[n].started)[i] == 1
    ensures multiset(Ids(states[n].finished))[i] == 1
  {
    var s := states[n];
    RunInv(states, steps, n);
    SerialInOrder(states, steps, n);
    assert CallInv(s, s.calls[i], i);
    assert (i, Ok) in s.finished;
    hide *;
    RanOnce(s, i);
  }

  lemma RanOnce(s: State, i: nat)
    requires (i, Ok) in s.finished && NoDup(s.started)
    requires s.started == Ids(s.finished) + (if s.worker.Running? then [s.worker.op] else [])
    ensures multiset(s.started)[i] == 1 && multiset(Ids(s.finished))[i] == 1
  {
    var m :| 0 <= m < |s.finished| && s.finished[m] == (i, Ok);
    assert Ids(s.finished)[m] == i && s.started[m] == i;
    NoDupCount(s.started, i);
    assert NoDup(Ids(s.finished)) by {
      assert Ids(s.finished) == s.started[..|s.finished|];
    }
    NoDupCount(Ids(s.finished), i);
  }

  /** If the work of a returned `Submit` ever ran, the returned error is its own or a cancellation
      or the stop; a call that never got onto the queue never runs. `ErrQueueFull`, or the error for a missing
      context or function, comes from work that ran exactly if the work itself returned it, and exactly if the
      call was enqueued. */
  lemma ErrorsBeforeEnqueueNeverRan(states: seq<State>, steps: seq<Step>, n: nat, i: nat)
    requires IsExecution(states, steps) && n < |states|
    requires i < |states[n].calls| && states[n].calls[i].pc.Returned?
    ensures var s := states[n]; var r := s.calls[i].pc.result;
            && (i in s.started ==> (i, r) in s.finished || r == Fail(Cancelled) || r == Fail(Stopped))
            && (i !in s.enqueued ==> i !in s.started)
            && (r == Fail(QueueFull) || r == Fail(BadRequest) ==>
                  (i in s.started <==> (i, r) in s.finished) && (i in s.started <==> i in s.enqueued))
  {
    RunInv(states, steps, n);
    var s := states[n];
    assert CallInv(s, s.calls[i], i);
    SubsequenceExtend(s.started, s.dequeued, s.queue);
    if i in s.started {
      SubsequenceMember(s.started, s.enqueued, i);
    }
    FinishedWereStarted(s);
  }

  lemma FinishedWereStarted(s: State)
    requires LogInv(s)
    ensures forall i, r :: (i, r) in s.finished ==> i in s.started
  {
    forall i, r | (i, r) in s.finished ensures i in s.started {
      var k :| 0 <= k < |s.finished| && s.finished[k] == (i, r);
      assert Ids(s.finished)[k] == i && s.started[k] == i;
    }
  }

  /** The work of call `i` has not started, and the worker has not passed the check before it. */
  predicate NotUnderWay(s: State, i: nat) { i !in s.started && s.worker != Cleared(i) }

  lemma LeavesCallAlone(s: State, t: Step, i: nat)
    requires Enabled(s, t) && i < |s.calls|
    ensures |Apply(s, t).calls| == |s.calls|
    ensures s.calls[i].cancelled ==> Apply(s, t).calls[i].cancelled
    ensures s.calls[i].pc.Returned? ==> Apply(s, t).calls[i].pc == s.calls[i].pc
    ensures s.calls[i].pc.Returned? && i !in s.enqueued ==> i !in Apply(s, t).enqueued
    ensures s.calls[i].cancelled && NotUnderWay(s, i) ==> NotUnderWay(Apply(s, t), i)
  {
    if ByCaller(t) {
      CallerPcs(s, t);
      hide ApplyCaller;
      hide CallAfter;
    }
  }

  /** A call that returned without enqueueing stays off the queue in every later state (and so never runs). */
  lemma {:induction false} NotEnqueuedForever(states: seq<State>, steps: seq<Step>, m: nat, n: nat, i: nat)
    requires IsExecution(states, steps) && m <= n < |states|
    requires i < |states[m].calls| && states[m].calls[i].pc.Returned? && i !in states[m].enqueued
    ensures |states[n].calls| == |states[m].calls| && states[n].calls[i].pc == states[m].calls[i].pc
    ensures i !in states[n].enqueued
  {
    hide Apply;
    hide Enabled;
    hide Init;
    if m < n {
      NotEnqueuedForever(states, steps, m, n - 1, i);
      LeavesCallAlone(states[n - 1], steps[n - 1], i);
    }
  }

  /** An operation whose context is cancelled before the worker has read its error never starts. */
  lemma {:induction false} CancelledNeverStarts(states: seq<State>, steps: seq<Step>, m: nat, n: nat, i: nat)
    requires IsExecution(states, steps) && m <= n < |states|
    requires i < |states[m].calls| && states[m].calls[i].cancelled && NotUnderWay(states[m], i)
    ensures |states[n].calls| == |states[m].calls| && states[n].calls[i].cancelled && NotUnderWay(states[n], i)
  {
    hide Apply;
    hide Enabled;
    hide Init;
    hide NotUnderWay;
    if m < n {
      CancelledNeverStarts(states, steps, m, n - 1, i);
      LeavesCallAlone(states[n - 1], steps[n - 1], i);
    }
  }

  /** In particular one whose context is cancelled before the worker dequeues it, or before it is enqueued. */
  lemma CancelledBeforeDequeueNeverRuns(states: seq<State>, steps: seq<Step>, m: nat, n: nat, i: nat)
    requires IsExecution(states, steps) && m <= n < |states|
    requires i < |states[m].calls| && states[m].calls[i].cancelled && i !in states[m].dequeued
    ensures i !in states[n].started && states[n].worker != Running(i)
    ensures forall r :: (i, r) !in states[n].finished
  {
    hide Apply;
    hide Enabled;
    hide Init;
    RunInv(states, steps, m);
    RunInv(states, steps, n);
    hide SlotsInv;
    hide ResultInv;
    hide StopInv;
    hide QueueInv;
    if i in states[m].started {
      SubsequenceMember(states[m].started, states[m].dequeued, i);
    }
    hide Subsequence;
    CancelledNeverStarts(states, steps, m, n, i);
    FinishedWereStarted(states[n]);
  }

  lemma ExitIsFinal(s: State, t: Step)
    requires Enabled(s, t) && s.worker.Exited?
    ensures var s' := Apply(s, t);
            s'.worker.Exited? && s'.started == s.started && s'.finished == s.finished && s'.delivered == s.delivered
  {
    hide ApplyCaller;
    hide ApplyStopper;
    hide CallAfter;
    if ByWorker(t) {
      WorkerKeepsExit(s, t);
    }
    hide ApplyWorker;
    hide CallerEnabled;
    hide StopperEnabled;
    hide WorkerEnabled;
  }

  /** Once some `Stop` has returned, the worker has exited for good: nothing is running, and in no
      later state has anything started, finished or been answered, whatever is still enqueued. */
  lemma {:induction false} NothingAfterStop(states: seq<State>, steps: seq<Step>, m: nat, n: nat, k: nat)
    requires IsExecution(states, steps) && m <= n < |states|
    requires AtStop(states[m], k, StopReturned)
    ensures states[n].worker.Exited?
    ensures states[n].started == states[m].started == Ids(states[n].finished)
    ensures states[n].finished == states[m].finished && states[n].delivered == states[m].delivered
  {
    hide Apply;
    hide Enabled;
    hide Init;
    if m == n {
      RunInv(states, steps, m);
      assert StopperInv(states[m], states[m].stoppers[k], k);
    } else {
      NothingAfterStop(states, steps, m, n - 1, k);
      ExitIsFinal(states[n - 1], steps[n - 1]);
    }
  }

  /** Once the worker has taken the stop branch, well before any `Stop` returns, nothing starts any more. */
  lemma {:induction false} NothingStartsWhileStopping(states: seq<State>, steps: seq<Step>, m: nat, n: nat)
    requires IsExecution(states, steps) && m <= n < |states| && Stopping(states[m].worker)
    ensures Stopping(states[n].worker) && states[n].started == states[m].started
  {
    hide Apply;
    hide Enabled;
    hide Init;
    if m < n {
      NothingStartsWhileStopping(states, steps, m, n - 1);
      StoppingStays(states[n - 1], steps[n - 1]);
    }
  }

  lemma StoppingStays(s: State, t: Step)
    requires Enabled(s, t) && Stopping(s.worker)
    ensures Stopping(Apply(s, t).worker) && Apply(s, t).started == s.started
  {
    hide ApplyCaller;
    hide ApplyStopper;
    hide CallerEnabled;
    hide StopperEnabled;
    if ByWorker(t) {
      WorkerStaysStopping(s, t);
      hide ApplyWorker;
      hide WorkerEnabled;
    }
  }

  lemma WorkerStaysStopping(s: State, t: Step)
    requires ByWorker(t) && WorkerEnabled(s, t) && Stopping(s.worker)
    ensures Stopping(ApplyWorker(s, t).worker) && ApplyWorker(s, t).started == s.started
  {
  }

  lemma ExtendExecution(states: seq<State>, steps: seq<Step>, t: Step)
    requires IsExecution(states, steps) && Enabled(states[|steps|], t)
    ensures IsExecution(states + [Apply(states[|steps|], t)], steps + [t])
  {
  }

  /** The state just after `stop` was closed while one request waits on the queue. */
  function StoppedWithRequestQueued(): State {
    State(1, 1, [0], [Call(true, Waiting, false, None)], Selecting, true, true, Finished, [AwaitDone], [0], [], [], [], [])
  }

  lemma RequestQueued() returns (states: seq<State>, steps: seq<Step>)
    ensures IsExecution(states, steps)
    ensures states[|steps|] == StoppedWithRequestQueued().(
              stopCtxCancelled := false, stopClosed := false, once := Fresh, stoppers := [NotCalled])
  {
    var s0 := Init(1, [true], 1);
    assert s0.calls == [Call(true, Idle, false, None)];
    var s1 := Apply(s0, Submit(0));
    var s2 := Apply(s1, Enqueue(0));
    states, steps := [s0, s1, s2], [Submit(0), Enqueue(0)];
    assert s2.calls == [Call(true, Waiting, false, None)];
  }

  /** The claim cannot be moved forward to the closing of `stop`: here work starts after it. */
  lemma WorkMayStartAfterStopCloses() returns (states: seq<State>, steps: seq<Step>)
    ensures IsExecution(states, steps)
    ensures exists n :: 0 <= n < |steps| && states[n].stopClosed && steps[n].StartWork?
  {
    states, steps := RequestQueued();
    ExtendExecution(states, steps, StopEnter(0));
    states, steps := states + [Apply(states[|steps|], StopEnter(0))], steps + [StopEnter(0)];
    ExtendExecution(states, steps, StopClose(0));
    states, steps := states + [Apply(states[|steps|], StopClose(0))], steps + [StopClose(0)];
    var s := StoppedWithRequestQueued();
    assert states[|steps|] == s;
    states, steps := StartsQueuedWork(states, steps);
  }

  lemma StartsQueuedWork(states: seq<State>, steps: seq<Step>) returns (states': seq<State>, steps': seq<Step>)
    requires IsExecution(states, steps) && |states| == |steps| + 1 && states[|steps|] == StoppedWithRequestQueued()
    ensures IsExecution(states', steps')
    ensures exists n :: 0 <= n < |steps'| && states'[n].stopClosed && steps'[n].StartWork?
  {
    hide IsExecution;
    states', steps' := Extended(states, steps, TakeRequest);
    states', steps' := Extended(states', steps', PassCheck);
    states', steps' := Extended(states', steps', StartWork);
    assert states'[|steps| + 2].stopClosed && steps'[|steps| + 2].StartWork?;
  }

  lemma Extended(states: seq<State>, steps: seq<Step>, t: Step) returns (states': seq<State>, steps': seq<Step>)
    requires IsExecution(states, steps) && |states| == |steps| + 1 && Enabled(states[|steps|], t)
    ensures IsExecution(states', steps') && |states'| == |steps'| + 1
    ensures states' == states + [Apply(states[|steps|], t)] && steps' == steps + [t]
  {
    ExtendExecution(states, steps, t);
    states', steps' := states + [Apply(states[|steps|], t)], steps + [t];
  }

  /** A run up to the point where the worker has read that the context of its only request is not cancelled. */
  lemma CheckPassed() returns (states: seq<State>, steps: seq<Step>)
    ensures IsExecution(states, steps) && |states| == |steps| + 1
    ensures states[|steps|] == State(1, 1, [], [Call(true, Waiting, false, None)], Cleared(0), false, false, Fresh,
                                     [NotCalled], [0], [0], [], [], [])
  {
    states, steps := RequestQueued();
    states, steps := Extended(states, steps, TakeRequest);
    states, steps := Extended(states, steps, PassCheck);
  }

  /** `Submit` may return `ErrQueueFull` for work that ran: the work returned it. */
  lemma QueueFullMayHaveRun() returns (states: seq<State>, steps: seq<Step>)
    ensures IsExecution(states, steps)
    ensures AtPc(states[|steps|], 0, Returned(Fail(QueueFull))) && 0 in states[|steps|].started
  {
    hide IsExecution;
    states, steps := CheckPassed();
    states, steps := Extended(states, steps, StartWork);
    states, steps := Extended(states, steps, FinishWork(Fail(QueueFull)));
    states, steps := Extended(states, steps, Deliver);
    states, steps := Extended(states, steps, ReceiveResult(0));
  }

  /** The condition of `CancelledNeverStarts` cannot be relaxed: a context that is cancelled between the reading
      of its error and the call of the work does not keep the work from starting. */
  lemma CancelledTooLateStarts() returns (states: seq<State>, steps: seq<Step>)
    ensures IsExecution(states, steps)
    ensures exists n :: 0 <= n < |steps| && steps[n].StartWork? && states[n].calls == [Call(true, Waiting, true, None)]
  {
    hide IsExecution;
    states, steps := CheckPassed();
    states, steps := Extended(states, steps, CancelContext(0));
    ghost var n := |steps|;
    assert states[n].calls == [Call(true, Waiting, true, None)];
    states, steps := Extended(states, steps, StartWork);
    assert steps[n].StartWork?;
  }

  // ---------------------------------------------------------------- termination

  function PcRank(pc: Pc): nat {
    match pc
    case Idle => 9
    case HasSlot => 8
    case Releasing(_) => 1
    case Waiting => 1
    case Returned(_) => 0
  }

  function CallRank(c: Call): nat { PcRank(c.pc) + (if c.cancelled then 0 else 1) }

  function CallsRank(calls: seq<Call>): nat {
    if calls == [] then 0 else CallsRank(calls[..|calls| - 1]) + CallRank(calls[|calls| - 1])
  }

  function WorkerRank(w: WorkerPc): nat {
    match w
    case Checking(_) => 7
    case Cleared(_) => 6
    case Running(_) => 5
    case Delivering(_, _) => 4
    case Freeing(_) => 3
    case Rejecting(_) => 3
    case Selecting => 2
    case RejectFreeing(_) => 2
    case Draining => 1
    case Exited => 0
  }

  function StopRank(pc: StopPc): nat {
    match pc
    case NotCalled => 3
    case InOnce => 2
    case AwaitDone => 1
    case StopReturned => 0
  }

  function StopsRank(stoppers: seq<StopPc>): nat {
    if stoppers == [] then 0 else StopsRank(stoppers[..|stoppers| - 1]) + StopRank(stoppers[|stoppers| - 1])
  }

  /** A bound on the number of steps that can still be taken. */
  function Rank(s: State): nat {
    CallsRank(s.calls) + 6 * |s.queue| + WorkerRank(s.worker) + StopsRank(s.stoppers)
  }

  lemma {:induction false} CallsRankUpdate(calls: seq<Call>, i: nat, c: Call)
    requires i < |calls|
    ensures CallsRank(calls[i := c]) == CallsRank(calls) - CallRank(calls[i]) + CallRank(c)
  {
    var n := |calls| - 1;
    if i == n {
      assert calls[i := c][..n] == calls[..n];
    } else {
      assert calls[i := c][..n] == calls[..n][i := c];
      CallsRankUpdate(calls[..n], i, c);
    }
  }

  lemma {:induction false} StopsRankUpdate(stoppers: seq<StopPc>, k: nat, pc: StopPc)
    requires k < |stoppers|
    ensures StopsRank(stoppers[k := pc]) == StopsRank(stoppers) - StopRank(stoppers[k]) + StopRank(pc)
  {
    var n := |stoppers| - 1;
    if k == n {
      assert stoppers[k := pc][..n] == stoppers[..n];
    } else {
      assert stoppers[k := pc][..n] == stoppers[..n][k := pc];
      StopsRankUpdate(stoppers[..n], k, pc);
    }
  }

  lemma RankDecreases(s: State, t: Step)
    requires Enabled(s, t)
    ensures Rank(Apply(s, t)) < Rank(s)
  {
    hide WorkerRank;
    hide CallRank;
    hide StopRank;
    if ByCaller(t) {
      CallRankDecreases(s, t);
      CallsRankUpdate(s.calls, t.i, CallAfter(s, t));
      hide ApplyCaller;
    } else if ByStopper(t) {
      StopRankDecreases(s, t);
      StopsRankUpdate(s.stoppers, t.k, ApplyStopper(s, t).stoppers[t.k]);
      hide ApplyStopper;
    } else {
      WorkerRankDecreases(s, t);
      hide ApplyWorker;
      if t.Deliver? || t.DrainReject? {
        SameRank(s.calls[s.worker.op], ApplyWorker(s, t).calls[s.worker.op]);
        CallsRankUpdate(s.calls, s.worker.op, ApplyWorker(s, t).calls[s.worker.op]);
      }
    }
  }

  lemma SameRank(c: Call, c': Call)
    requires c' == c.(done := c'.done)
    ensures CallRank(c') == CallRank(c)
  {
  }

  lemma CallRankDecreases(s: State, t: Step)
    requires ByCaller(t) && CallerEnabled(s, t)
    ensures CallRank(CallAfter(s, t)) + (if t.Enqueue? then 6 else 0) < CallRank(s.calls[t.i])
  {
  }

  lemma StopRankDecreases(s: State, t: Step)
    requires ByStopper(t) && StopperEnabled(s, t)
    ensures t.k < |s.stoppers| && |ApplyStopper(s, t).stoppers| == |s.stoppers|
    ensures ApplyStopper(s, t).stoppers == s.stoppers[t.k := ApplyStopper(s, t).stoppers[t.k]]
    ensures StopRank(ApplyStopper(s, t).stoppers[t.k]) < StopRank(s.stoppers[t.k])
  {
  }

  lemma WorkerRankDecreases(s: State, t: Step)
    requires ByWorker(t) && WorkerEnabled(s, t)
    ensures WorkerRank(ApplyWorker(s, t).worker) + 6 * |ApplyWorker(s, t).queue| < WorkerRank(s.worker) + 6 * |s.queue|
  {
  }

  lemma {:induction false} RunsAreBounded(states: seq<State>, steps: seq<Step>)
    requires IsRun(states, steps)
    ensures |steps| + Rank(states[|steps|]) <= Rank(states[0])
  {
    if steps != [] {
      var n := |steps| - 1;
      assert IsRun(states[..n + 1], steps[..n]);
      RunsAreBounded(states[..n + 1], steps[..n]);
      RankDecreases(states[n], steps[n]);
    }
  }

  // ---------------------------------------------------------------- the cause of each answer

  /** Why `Submit` may give this answer of its own accord. */
  predicate CallerCause(s: State, i: nat, r: Outcome)
    requires i < |s.calls|
  {
    match r
    case Fail(Stopped) => s.stopClosed
    case Fail(Cancelled) => s.calls[i].cancelled
    case Fail(BadRequest) => !s.calls[i].valid
    case Fail(QueueFull) => s.calls[i].valid && i !in s.enqueued
    case _ => false
  }

  /** Why the worker may give this answer: the work returned it, or the work did not start because of a cancellation
      or because the queue is being drained. */
  predicate WorkerCause(s: State, i: nat, r: Outcome) {
    || (i, r) in s.finished
    || (i < |s.calls| && i !in s.started && r == Fail(Cancelled) && (s.calls[i].cancelled || s.stopCtxCancelled))
    || (i !in s.started && r == Fail(Stopped) && Stopping(s.worker))
  }

  predicate CallCause(s: State, i: nat)
    requires i < |s.calls|
  {
    var pc := s.calls[i].pc;
    && (!s.calls[i].valid ==> i !in s.enqueued && (pc.Idle? || pc == Returned(Fail(BadRequest))))
    && (pc.Releasing? ==> CallerCause(s, i, pc.result))
    && (pc.Returned? ==> CallerCause(s, i, pc.result) || (i, pc.result) in s.delivered)
  }

  predicate DeliveryCauses(s: State) {
    && (forall n :: 0 <= n < |s.delivered| ==> WorkerCause(s, s.delivered[n].0, s.delivered[n].1))
    && (s.worker.Delivering? ==> WorkerCause(s, s.worker.op, s.worker.result))
  }

  predicate CallCauses(s: State) { forall i :: 0 <= i < |s.calls| ==> CallCause(s, i) }

  lemma CallerCallCause(s: State, t: Step, i: nat)
    requires Inv(s) && CallCauses(s) && ByCaller(t) && CallerEnabled(s, t) && i < |s.calls|
    ensures CallCause(ApplyCaller(s, t), i)
  {
    assert CallCause(s, i);
    if i == t.i {
      assert CallInv(s, s.calls[i], i) && (BeforeEnqueue(s.calls[i].pc) ==> i !in s.enqueued);
      hide Inv;
      CallerOwnCause(s, t);
    } else {
      hide *;
      CallerOtherCause(s, t, i);
    }
  }

  lemma CallerOwnCause(s: State, t: Step)
    requires ByCaller(t) && CallerEnabled(s, t) && CallCause(s, t.i) && CallInv(s, s.calls[t.i], t.i)
    requires BeforeEnqueue(s.calls[t.i].pc) ==> t.i !in s.enqueued
    ensures CallCause(ApplyCaller(s, t), t.i)
  {
    hide ApplyCaller;
    hide Ids;
    hide ReturnExplained;
  }

  lemma CallerOtherCause(s: State, t: Step, i: nat)
    requires ByCaller(t) && CallerEnabled(s, t) && i < |s.calls| && i != t.i && CallCause(s, i)
    ensures CallCause(ApplyCaller(s, t), i)
  {
    hide ApplyCaller;
    hide CallAfter;
    hide CallerEnabled;
  }

  lemma WorkerCallCause(s: State, t: Step, i: nat)
    requires CallCauses(s) && ByWorker(t) && WorkerEnabled(s, t) && i < |s.calls|
    ensures CallCause(ApplyWorker(s, t), i)
  {
    WorkerLogsGrow(s, t);
    hide ApplyWorker;
    hide WorkerEnabled;
    assert CallCause(s, i);
  }

  lemma StopperCallCause(s: State, t: Step, i: nat)
    requires Inv(s) && CallCauses(s) && ByStopper(t) && StopperEnabled(s, t) && i < |s.calls|
    ensures CallCause(ApplyStopper(s, t), i)
  {
    StopGoesOn(s, t);
    hide ApplyStopper;
    hide StopperEnabled;
    hide Inv;
    assert CallCause(s, i);
  }

  lemma StopGoesOn(s: State, t: Step)
    requires StopInv(s) && ByStopper(t) && StopperEnabled(s, t)
    ensures s.stopClosed ==> ApplyStopper(s, t).stopClosed
    ensures s.stopCtxCancelled ==> ApplyStopper(s, t).stopCtxCancelled
  {
  }

  lemma SameCalls(s: State, t: Step)
    requires Enabled(s, t)
    ensures |Apply(s, t).calls| == |s.calls|
  {
    if ByCaller(t) {
      hide ApplyCaller;
    }
  }

  lemma CallCauseStep(s: State, t: Step)
    requires Inv(s) && CallCauses(s) && Enabled(s, t)
    ensures CallCauses(Apply(s, t))
  {
    hide Inv;
    hide CallCause;
    hide CallerEnabled;
    hide StopperEnabled;
    hide WorkerEnabled;
    hide ApplyCaller;
    hide ApplyStopper;
    hide ApplyWorker;
    SameCalls(s, t);
    forall i | 0 <= i < |s.calls| ensures CallCause(Apply(s, t), i) {
      if ByCaller(t) {
        CallerCallCause(s, t, i);
      } else if ByStopper(t) {
        StopperCallCause(s, t, i);
      } else {
        WorkerCallCause(s, t, i);
      }
    }
  }

  /** A cause survives every step other than the start of that very operation. */
  lemma CauseStays(s: State, t: Step, i: nat, r: Outcome)
    requires StopInv(s) && Enabled(s, t) && WorkerCause(s, i, r) && (t.StartWork? ==> i != s.worker.op)
    ensures WorkerCause(Apply(s, t), i, r)
  {
    if ByCaller(t) {
      LeavesCallAlone(s, t, if i < |s.calls| then i else t.i);
      hide ApplyCaller;
      hide CallerEnabled;
    } else if ByStopper(t) {
      StopGoesOn(s, t);
      hide ApplyStopper;
      hide StopperEnabled;
    } else {
      WorkerCauseStays(s, t, i, r);
      hide ApplyWorker;
      hide WorkerEnabled;
    }
  }

  lemma WorkerCauseStays(s: State, t: Step, i: nat, r: Outcome)
    requires ByWorker(t) && WorkerEnabled(s, t) && WorkerCause(s, i, r) && (t.StartWork? ==> i != s.worker.op)
    ensures WorkerCause(ApplyWorker(s, t), i, r)
  {
  }

  /** What the worker is about to answer, or has just answered, has its cause. */
  lemma NewAnswer(s: State, t: Step)
    requires Inv(s) && DeliveryCauses(s) && ByWorker(t) && WorkerEnabled(s, t)
    ensures var s' := ApplyWorker(s, t);
            && (s'.worker.Delivering? ==> WorkerCause(s', s'.worker.op, s'.worker.result))
            && (t.Deliver? || t.DrainReject? ==> WorkerCause(s', s.worker.op, s'.delivered[|s.delivered|].1))
  {
    hide SlotsInv;
    hide ResultInv;
    hide StopInv;
    hide QueueInv;
    hide Subsequence;
    var s' := ApplyWorker(s, t);
    if t.FinishWork? {
      assert s'.finished[|s.finished|] == (s.worker.op, t.result);
    }
  }

  lemma DeliveryCauseStep(s: State, t: Step)
    requires Inv(s) && DeliveryCauses(s) && Enabled(s, t)
    ensures DeliveryCauses(Apply(s, t))
  {
    OldCausesStay(s, t);
    assert StopInv(s);
    if ByWorker(t) {
      NewAnswer(s, t);
      DeliveredNext(s, t);
    } else {
      SameWorker(s, t);
      if s.worker.Delivering? {
        CauseStays(s, t, s.worker.op, s.worker.result);
      }
    }
    hide Inv;
    hide StopInv;
    hide WorkerCause;
    hide ApplyCaller;
    hide ApplyStopper;
    hide ApplyWorker;
    hide CallerEnabled;
    hide StopperEnabled;
    hide WorkerEnabled;
  }

  lemma SameWorker(s: State, t: Step)
    requires Enabled(s, t) && !ByWorker(t)
    ensures Apply(s, t).worker == s.worker && Apply(s, t).delivered == s.delivered
  {
    hide ApplyCaller;
    hide ApplyStopper;
  }

  lemma DeliveredNext(s: State, t: Step)
    requires ByWorker(t) && WorkerEnabled(s, t)
    ensures var s' := ApplyWorker(s, t);
            if t.Deliver? || t.DrainReject? then s'.delivered == s.delivered + [(s.worker.op, s'.delivered[|s.delivered|].1)]
            else s'.delivered == s.delivered
  {
    hide ApplyWorker;
  }

  lemma OldCausesStay(s: State, t: Step)
    requires Inv(s) && DeliveryCauses(s) && Enabled(s, t)
    ensures forall n :: 0 <= n < |s.delivered| ==> WorkerCause(Apply(s, t), s.delivered[n].0, s.delivered[n].1)
  {
    hide SlotsInv;
    hide ResultInv;
    hide WorkerCause;
    hide StopInv;
    forall n | 0 <= n < |s.delivered| ensures WorkerCause(Apply(s, t), s.delivered[n].0, s.delivered[n].1) {
      if t.StartWork? {
        StartsUndelivered(s, t);
        assert s.delivered[n].0 == Ids(s.delivered)[n];
      }
      hide OrderInv;
      hide Enabled;
      CauseStays(s, t, s.delivered[n].0, s.delivered[n].1);
    }
  }

  lemma StartsUndelivered(s: State, t: Step)
    requires OrderInv(s) && Enabled(s, t) && t.StartWork?
    ensures s.worker.op !in Ids(s.delivered)
  {
    DeliveredNotStarting(s);
  }

  lemma InitCauses(capacity: nat, valid: seq<bool>, stops: nat)
    ensures CallCauses(Init(capacity, valid, stops)) && DeliveryCauses(Init(capacity, valid, stops))
  {
  }

  lemma {:induction false} RunCauses(states: seq<State>, steps: seq<Step>, n: nat)
    requires IsExecution(states, steps) && n < |states|
    ensures CallCauses(states[n]) && DeliveryCauses(states[n])
  {
    hide Apply;
    hide Enabled;
    hide CallCauses;
    hide DeliveryCauses;
    if n == 0 {
      var capacity, valid, stops :| states[0] == Init(capacity, valid, stops);
      InitCauses(capacity, valid, stops);
    } else {
      RunCauses(states, steps, n - 1);
      RunInv(states, steps, n - 1);
      CallCauseStep(states[n - 1], steps[n - 1]);
      DeliveryCauseStep(states[n - 1], steps[n - 1]);
    }
  }

  /** Every answer of `Submit` has its cause. Its own: `ErrWorkerStopped` only once `stop` is closed, the context's error
      only if that context is cancelled, the argument error exactly for a call without context or function, and
      `ErrQueueFull` only for a call that was not enqueued. The worker's: what the work returned, or, for work that
      never started, a cancellation or the draining of the queue. */
  lemma AnswersHaveCauses(states: seq<State>, steps: seq<Step>, n: nat, i: nat)
    requires IsExecution(states, steps) && n < |states|
    requires i < |states[n].calls| && states[n].calls[i].pc.Returned?
    ensures var s := states[n]; var r := s.calls[i].pc.result;
            && (CallerCause(s, i, r) || ((i, r) in s.delivered && WorkerCause(s, i, r)))
            && (!s.calls[i].valid <==> r == Fail(BadRequest) && i !in s.enqueued)
  {
    hide Apply;
    hide Enabled;
    RunCauses(states, steps, n);
    RunInv(states, steps, n);
    hide Inv;
    var s := states[n];
    var r := s.calls[i].pc.result;
    assert CallCause(s, i);
    if (i, r) in s.delivered {
      var k :| 0 <= k < |s.delivered| && s.delivered[k] == (i, r);
      assert WorkerCause(s, s.delivered[k].0, s.delivered[k].1);
      DeliveredWereEnqueued(s, k);
    }
  }

  lemma DeliveredWereEnqueued(s: State, k: nat)
    requires Inv(s) && k < |s.delivered|
    ensures s.delivered[k].0 in s.enqueued
  {
    hide SlotsInv;
    hide ResultInv;
    hide StopInv;
    assert Ids(s.delivered)[k] == s.delivered[k].0;
    assert s.dequeued[k] == s.delivered[k].0 && s.enqueued[k] == s.delivered[k].0;
  }

  /** `Submit` answers at once exactly if it has no context or function, or if every slot is taken by a submitter, a
      queued request or the worker. */
  lemma SubmitAnswersAtOnce(states: seq<State>, steps: seq<Step>, n: nat, i: nat)
    requires IsExecution(states, steps) && n < |steps| && steps[n] == Submit(i)
    ensures i < |states[n].calls| && |states[n + 1].calls| == |states[n].calls|
    ensures var s, pc := states[n], states[n + 1].calls[i].pc;
            if !s.calls[i].valid then pc == Returned(Fail(BadRequest))
            else if Holders(s.calls) + |s.queue| + InWorker(s) == s.capacity then pc == Returned(Fail(QueueFull))
            else pc == HasSlot
  {
    RunInv(states, steps, n);
    hide ResultInv;
    hide OrderInv;
    hide StopInv;
  }

  /** From the stop branch on, all the worker answers is `ErrWorkerStopped`. */
  lemma {:induction false} DrainAnswersStopped(states: seq<State>, steps: seq<Step>, m: nat, n: nat)
    requires IsExecution(states, steps) && m <= n < |states| && Stopping(states[m].worker)
    ensures states[m].delivered <= states[n].delivered
    ensures forall k :: |states[m].delivered| <= k < |states[n].delivered| ==> states[n].delivered[k].1 == Fail(Stopped)
  {
    hide Apply;
    hide Enabled;
    hide Init;
    if m < n {
      DrainAnswersStopped(states, steps, m, n - 1);
      NothingStartsWhileStopping(states, steps, m, n - 1);
      StoppingAnswer(states[n - 1], steps[n - 1]);
    }
  }

  lemma StoppingAnswer(s: State, t: Step)
    requires Enabled(s, t) && Stopping(s.worker)
    ensures Apply(s, t).delivered == s.delivered
            || (Apply(s, t).delivered == s.delivered + [(s.worker.op, Fail(Stopped))] && s.worker.Rejecting?)
  {
    hide ApplyCaller;
    hide ApplyStopper;
    hide CallerEnabled;
    hide StopperEnabled;
  }

  // ---------------------------------------------------------------- what can still start

  /** The context of call `i` is not cancelled. */
  predicate Live(s: State, i: nat) { i < |s.calls| && !s.calls[i].cancelled }

  /** A caller that can still get its request onto the queue. */
  predicate CanEnqueue(s: State, i: nat) {
    Live(s, i) && (s.calls[i].pc.HasSlot? || (s.calls[i].pc.Idle? && s.calls[i].valid && s.capacity > 0))
  }

  /** A request, past or before the queue, whose context is not cancelled. */
  predicate Candidate(s: State, i: nat) { (i in s.queue && Live(s, i)) || CanEnqueue(s, i) }

  /** The worker has passed the check of a request, or is checking one that is not cancelled, or has not
      taken the stop branch and there is another such request. */
  ghost predicate MayStart(s: State) {
    || s.worker.Cleared?
    || (s.worker.Checking? && Live(s, s.worker.op))
    || (!Stopping(s.worker) && exists i :: Candidate(s, i))
  }

  /** `states'` goes on from where `states` ends. */
  ghost predicate Continues(states: seq<State>, steps: seq<Step>, states': seq<State>, steps': seq<Step>) {
    IsExecution(states', steps') && states <= states' && steps <= steps'
  }

  /** In some continuation work starts. */
  ghost predicate StartsLater(states: seq<State>, steps: seq<Step>) {
    exists states': seq<State>, steps': seq<Step> :: Continues(states, steps, states', steps')
                              && |steps| < |steps'| && steps'[|steps'| - 1].StartWork?
  }

  /** In some continuation the work of call `i` has started. */
  ghost predicate RunsLater(states: seq<State>, steps: seq<Step>, i: nat) {
    exists states': seq<State>, steps': seq<Step> :: Continues(states, steps, states', steps') && i in states'[|steps'|].started
  }

  /** No step makes a start possible that was not, and none starts work then. */
  lemma StaysUnstartable(s: State, t: Step)
    requires Inv(s) && Enabled(s, t) && !MayStart(s)
    ensures !MayStart(Apply(s, t)) && Apply(s, t).started == s.started
  {
    hide SlotsInv;
    hide ResultInv;
    hide StopInv;
    hide LogInv;
    if ByCaller(t) {
      CallerUnstartable(s, t);
      hide ApplyCaller;
      hide CallerEnabled;
    } else if ByStopper(t) {
      hide ApplyStopper;
      hide StopperEnabled;
      assert forall i :: Candidate(ApplyStopper(s, t), i) ==> Candidate(s, i);
    } else {
      WorkerUnstartable(s, t);
      hide ApplyWorker;
      hide WorkerEnabled;
    }
  }

  lemma CallerUnstartable(s: State, t: Step)
    requires ByCaller(t) && CallerEnabled(s, t) && !MayStart(s)
    ensures !MayStart(ApplyCaller(s, t)) && ApplyCaller(s, t).started == s.started
  {
    CallerCandidates(s, t);
    hide ApplyCaller;
    hide CallAfter;
    hide CallerEnabled;
    hide CanEnqueue;
    hide Candidate;
  }

  lemma CallerCandidates(s: State, t: Step)
    requires ByCaller(t) && CallerEnabled(s, t)
    ensures ApplyCaller(s, t).worker == s.worker
    ensures forall i :: Live(ApplyCaller(s, t), i) ==> Live(s, i)
    ensures forall i :: Candidate(ApplyCaller(s, t), i) ==> Candidate(s, i)
  {
  }

  lemma WorkerUnstartable(s: State, t: Step)
    requires ByWorker(t) && WorkerEnabled(s, t) && !MayStart(s)
    ensures !MayStart(ApplyWorker(s, t)) && ApplyWorker(s, t).started == s.started
  {
    WorkerCandidates(s, t);
    hide Candidate;
  }

  lemma WorkerCandidates(s: State, t: Step)
    requires ByWorker(t) && WorkerEnabled(s, t)
    ensures forall i :: Live(ApplyWorker(s, t), i) <==> Live(s, i)
    ensures forall i :: Candidate(ApplyWorker(s, t), i) ==> Candidate(s, i)
    ensures forall i :: Candidate(s, i) && !(Takes(t) && i == s.queue[0]) ==> Candidate(ApplyWorker(s, t), i)
    ensures t.TakeRequest? && Live(s, s.queue[0]) ==> Candidate(s, s.queue[0])
  {
    if Takes(t) {
      assert s.queue == [s.queue[0]] + s.queue[1..];
    } else {
      assert ApplyWorker(s, t).queue == s.queue;
    }
    forall i | 0 <= i < |s.calls|
      ensures ApplyWorker(s, t).calls[i] == s.calls[i].(done := ApplyWorker(s, t).calls[i].done)
    {
    }
    hide ApplyWorker;
  }

  /** Where a start is possible, some step starts work or leaves it possible. */
  lemma StartStep(s: State) returns (t: Step)
    requires Inv(s) && MayStart(s)
    ensures Enabled(s, t) && (t.StartWork? || MayStart(Apply(s, t)))
  {
    if s.worker.Cleared? {
      t := StartWork;
    } else if s.worker.Checking? && Live(s, s.worker.op) {
      t := PassCheck;
    } else if s.worker.Selecting? && s.queue == [] {
      t := CallerStartStep(s);
    } else {
      var i :| Candidate(s, i);
      t := WorkerMoveOn(s);
      WorkerCandidates(s, t);
      hide Candidate;
      hide ApplyWorker;
      hide WorkerEnabled;
      hide Inv;
      assert !(Takes(t) && i == s.queue[0]) ==> Candidate(ApplyWorker(s, t), i);
      assert t.TakeRequest? && i == s.queue[0] ==> Live(s, i) by {
        CandidateIsLive(s, i);
      }
    }
  }

  lemma CandidateIsLive(s: State, i: nat)
    requires Candidate(s, i)
    ensures Live(s, i)
  {
  }

  lemma WorkerMoveOn(s: State) returns (t: Step)
    requires Inv(s) && !Stopping(s.worker) && !s.worker.Cleared?
    requires s.worker.Checking? ==> !Live(s, s.worker.op)
    requires s.worker.Selecting? ==> s.queue != []
    ensures ByWorker(t) && WorkerEnabled(s, t) && !t.DrainTake? && !Stopping(ApplyWorker(s, t).worker)
    ensures t.TakeRequest? ==> ApplyWorker(s, t).worker == Checking(s.queue[0])
  {
    hide *;
    WorkerNeverBlocks(s);
    t := MoveOn(s.worker);
    MoveOnEnabled(s);
    MovesOn(s, t);
  }

  /** The next step of a worker that is not to start the work it has at hand. */
  function MoveOn(w: WorkerPc): Step {
    match w
    case Selecting => TakeRequest
    case Checking(_) => RefuseCancelled
    case Running(_) => FinishWork(Ok)
    case Delivering(_, _) => Deliver
    case _ => FreeSlot
  }

  lemma MoveOnEnabled(s: State)
    requires !Stopping(s.worker) && !s.worker.Cleared?
    requires s.worker.Checking? ==> s.worker.op < |s.calls| && !Live(s, s.worker.op)
    requires s.worker.Selecting? ==> s.queue != []
    requires s.worker.Delivering? ==> WorkerEnabled(s, Deliver)
    requires s.worker.Freeing? ==> WorkerEnabled(s, FreeSlot)
    ensures var t := MoveOn(s.worker);
            && ByWorker(t) && WorkerEnabled(s, t)
            && (t.TakeRequest? || t.RefuseCancelled? || t.FinishWork? || t.Deliver? || t.FreeSlot?)
  {
  }

  lemma WorkerNeverBlocks(s: State)
    requires Inv(s)
    ensures s.worker.Checking? ==> s.worker.op < |s.calls|
    ensures s.worker.Delivering? ==> WorkerEnabled(s, Deliver)
    ensures s.worker.Freeing? ==> WorkerEnabled(s, FreeSlot)
  {
    StateNeverBlocks(s);
    if s.worker.Checking? {
      UndeliveredSlotEmpty(s);
    }
    hide SlotsInv;
    hide OrderInv;
    hide ResultInv;
    hide StopInv;
  }

  lemma MovesOn(s: State, t: Step)
    requires ByWorker(t) && WorkerEnabled(s, t)
    ensures t.TakeRequest? ==> ApplyWorker(s, t).worker == Checking(s.queue[0])
    ensures t.TakeRequest? || t.RefuseCancelled? || t.FinishWork? || t.Deliver? || t.FreeSlot? ==>
              !Stopping(ApplyWorker(s, t).worker)
  {
  }

  lemma {:induction false} SomeHolder(calls: seq<Call>) returns (j: nat)
    requires Holders(calls) > 0
    ensures j < |calls| && HoldsToken(calls[j])
  {
    var n := |calls| - 1;
    if HoldsToken(calls[n]) {
      j := n;
    } else {
      j := SomeHolder(calls[..n]);
    }
  }

  /** On an empty queue a caller enqueues, or gets a slot, or one that holds up a slot gives it back. */
  lemma CallerStartStep(s: State) returns (t: Step)
    requires Inv(s) && s.worker.Selecting? && s.queue == [] && exists i :: Candidate(s, i)
    ensures Enabled(s, t) && MayStart(Apply(s, t))
  {
    CallersNeverBlock(s);
    var i: nat :| Candidate(s, i);
    assert CanEnqueue(s, i) && s.slots == Holders(s.calls);
    hide Inv;
    hide Holders;
    if s.calls[i].pc.HasSlot? {
      t := Enqueue(i);
      EnqueueStarts(s, i);
    } else if s.slots < s.capacity {
      t := Submit(i);
      SubmitStarts(s, i);
    } else {
      var j := SomeHolder(s.calls);
      if s.calls[j].pc.HasSlot? && !s.calls[j].cancelled {
        t := Enqueue(j);
        EnqueueStarts(s, j);
      } else {
        t := if s.calls[j].pc.Releasing? then ReturnSlot(j) else CancelBeforeEnqueue(j);
        GivesSlotBack(s, i, j, t);
      }
    }
    hide Apply;
  }

  lemma CallersNeverBlock(s: State)
    requires Inv(s)
    ensures forall i :: AtPc(s, i, HasSlot) ==> CallerEnabled(s, Enqueue(i))
    ensures forall i :: 0 <= i < |s.calls| && s.calls[i].pc.Releasing? ==> CallerEnabled(s, ReturnSlot(i))
  {
    StateNeverBlocks(s);
    forall i | 0 <= i < |s.calls| ensures AtPc(s, i, HasSlot) ==> CallerEnabled(s, Enqueue(i)) {
      assert AtPc(s, i, HasSlot) ==> Enabled(s, Enqueue(i));
    }
    forall i | 0 <= i < |s.calls| && s.calls[i].pc.Releasing? ensures CallerEnabled(s, ReturnSlot(i)) {
      assert Enabled(s, ReturnSlot(i));
    }
    hide Inv;
  }

  lemma EnqueueStarts(s: State, i: nat)
    requires Live(s, i) && CallerEnabled(s, Enqueue(i)) && s.worker.Selecting?
    ensures MayStart(Apply(s, Enqueue(i)))
  {
    assert Candidate(Apply(s, Enqueue(i)), i);
  }

  lemma SubmitStarts(s: State, i: nat)
    requires CanEnqueue(s, i) && s.calls[i].pc.Idle? && s.slots < s.capacity && s.worker.Selecting?
    ensures Enabled(s, Submit(i)) && MayStart(Apply(s, Submit(i)))
  {
    assert Candidate(Apply(s, Submit(i)), i);
  }

  /** A submitter that gives its slot back is in nobody's way. */
  lemma GivesSlotBack(s: State, i: nat, j: nat, t: Step)
    requires CanEnqueue(s, i) && i != j && s.worker.Selecting?
    requires (t == ReturnSlot(j) || t == CancelBeforeEnqueue(j)) && CallerEnabled(s, t)
    ensures MayStart(Apply(s, t))
  {
    assert Candidate(Apply(s, t), i);
  }

  lemma {:induction false} StartReachable(states: seq<State>, steps: seq<Step>) returns (states': seq<State>, steps': seq<Step>)
    requires IsExecution(states, steps) && |states| == |steps| + 1 && MayStart(states[|steps|])
    ensures Continues(states, steps, states', steps') && |steps| < |steps'| && steps'[|steps'| - 1].StartWork?
    decreases Rank(states[|steps|])
  {
    hide Apply;
    hide Enabled;
    hide MayStart;
    RunInv(states, steps, |steps|);
    hide IsExecution;
    hide Inv;
    var t := StartStep(states[|steps|]);
    states', steps' := Extended(states, steps, t);
    if !t.StartWork? {
      RankDecreases(states[|steps|], t);
      states', steps' := StartReachable(states', steps');
    }
  }

  lemma {:induction false} UnstartableForever(states: seq<State>, steps: seq<Step>, m: nat, n: nat)
    requires IsExecution(states, steps) && m <= n < |states| && !MayStart(states[m])
    ensures !MayStart(states[n])
  {
    hide Apply;
    hide Enabled;
    hide Init;
    hide MayStart;
    if m < n {
      UnstartableForever(states, steps, m, n - 1);
      RunInv(states, steps, n - 1);
      hide Inv;
      StaysUnstartable(states[n - 1], steps[n - 1]);
    }
  }

  /** Exactly when work may still start, `stop` closed or not: the worker has passed, or will pass, the check of a
      request, or it has not taken the stop branch and a request whose context is not cancelled is on the
      queue or can still get there. */
  lemma WorkMayStartExactly(states: seq<State>, steps: seq<Step>)
    requires IsExecution(states, steps) && |states| == |steps| + 1
    ensures StartsLater(states, steps) <==> MayStart(states[|steps|])
  {
    hide Apply;
    hide MayStart;
    hide Inv;
    if MayStart(states[|steps|]) {
      var states', steps' := StartReachable(states, steps);
    } else if StartsLater(states, steps) {
      var states': seq<State>, steps': seq<Step> :| Continues(states, steps, states', steps')
                             && |steps| < |steps'| && steps'[|steps'| - 1].StartWork?;
      UnstartableForever(states', steps', |steps|, |steps'| - 1);
      StartNeedsClearance(states'[|steps'| - 1], steps'[|steps'| - 1]);
    }
  }

  lemma StartNeedsClearance(s: State, t: Step)
    requires Enabled(s, t) && t.StartWork?
    ensures MayStart(s)
  {
  }

  /** Exactly when a cancelled call whose work has not started may still run: its context was cancelled after
      the worker had read that it was not. */
  lemma CancelledMayRunExactly(states: seq<State>, steps: seq<Step>, i: nat)
    requires IsExecution(states, steps) && |states| == |steps| + 1
    requires i < |states[|steps|].calls| && states[|steps|].calls[i].cancelled && i !in states[|steps|].started
    ensures RunsLater(states, steps, i) <==> states[|steps|].worker == Cleared(i)
  {
    var s := states[|steps|];
    if s.worker == Cleared(i) {
      var states', steps' := Extended(states, steps, StartWork);
      hide IsExecution;
      assert i in states'[|steps'|].started;
      assert Continues(states, steps, states', steps');
    } else if RunsLater(states, steps, i) {
      var states': seq<State>, steps': seq<Step> :| Continues(states, steps, states', steps') && i in states'[|steps'|].started;
      assert states'[|steps|] == s;
      CancelledNeverStarts(states', steps', |steps|, |steps'|, i);
    }
  }

  // ---------------------------------------------------------------- quiescence

  /** Steps the program must take once they are possible. A new `Submit` or `Stop` call and the
      cancellation of a context are up to the environment. */
  predicate Obliged(t: Step) { !(t.Submit? || t.CancelContext? || t.StopEnter? || t.StopJoin?) }

  ghost predicate Quiescent(s: State) { forall t :: Obliged(t) ==> !Enabled(s, t) }

  /** The state the system ends in: every started `Submit` and `Stop` has returned, and the worker
      has exited, or, if nobody stopped it, waits for the next request on an empty queue. */
  predicate AtRest(s: State) {
    && (forall i :: 0 <= i < |s.calls| ==> s.calls[i].pc.Idle? || s.calls[i].pc.Returned?)
    && (forall k :: 0 <= k < |s.stoppers| ==> s.stoppers[k].NotCalled? || s.stoppers[k].StopReturned?)
    && (if s.stopClosed then s.worker.Exited? else s.worker.Selecting? && s.queue == [])
  }

  /** The step the worker is due to take. */
  function WorkerMove(s: State): Step {
    match s.worker
    case Selecting => if s.stopClosed then BeginDrain else TakeRequest
    case Checking(op) => if op < |s.calls| && s.calls[op].cancelled then RefuseCancelled else PassCheck
    case Cleared(_) => StartWork
    case Running(_) => FinishWork(Ok)
    case Delivering(_, _) => Deliver
    case Freeing(_) => FreeSlot
    case Draining => if s.queue == [] then DrainExit else DrainTake
    case Rejecting(_) => DrainReject
    case RejectFreeing(_) => DrainFree
    case Exited => DrainExit
  }

  lemma WorkerCanMove(s: State)
    requires Inv(s) && !s.worker.Exited?
    requires s.worker.Selecting? ==> s.stopClosed || s.queue != []
    ensures Enabled(s, WorkerMove(s)) && Obliged(WorkerMove(s))
  {
    StateNeverBlocks(s);
    if Undelivered(s.worker) {
      UndeliveredSlotEmpty(s);
    }
  }

  lemma QuiescentWorker(s: State)
    requires Inv(s) && Quiescent(s)
    ensures if s.stopClosed then s.worker.Exited? else s.worker.Selecting? && s.queue == []
  {
    if !s.worker.Exited? && (s.worker.Selecting? ==> s.stopClosed || s.queue != []) {
      WorkerCanMove(s);
      assert false;
    }
  }

  lemma QuiescentCall(s: State, i: nat)
    requires Inv(s) && Quiescent(s) && i < |s.calls|
    ensures s.calls[i].pc.Idle? || s.calls[i].pc.Returned?
  {
    hide Subsequence;
    QuiescentWorker(s);
    StateNeverBlocks(s);
    CallerDisabled(s, i);
    hide Quiescent;
    hide SlotsInv;
    hide StopInv;
    hide DeliveryInv;
    assert CallInv(s, s.calls[i], i);
    assert !s.stopClosed ==> s.enqueued == Ids(s.delivered);
  }

  lemma CallerDisabled(s: State, i: nat)
    requires Quiescent(s)
    ensures !Enabled(s, Enqueue(i)) && !Enabled(s, ReturnSlot(i))
    ensures !Enabled(s, ReceiveResult(i)) && !Enabled(s, StopWhileWaiting(i))
  {
    hide Enabled;
  }

  /** No deadlock: a reachable state from which the program takes no further step is at rest. */
  lemma QuiescentAtRest(states: seq<State>, steps: seq<Step>, n: nat)
    requires IsExecution(states, steps) && n < |states| && Quiescent(states[n])
    ensures AtRest(states[n])
  {
    RunInv(states, steps, n);
    var s := states[n];
    QuiescentWorker(s);
    forall i | 0 <= i < |s.calls| ensures s.calls[i].pc.Idle? || s.calls[i].pc.Returned? {
      QuiescentCall(s, i);
    }
    forall k | 0 <= k < |s.stoppers| ensures s.stoppers[k].NotCalled? || s.stoppers[k].StopReturned? {
      assert !Enabled(s, StopClose(k)) && !Enabled(s, StopReturn(k));
      assert StopperInv(s, s.stoppers[k], k);
    }
  }

  /** Every execution takes at most `Rank` of its first state many steps; if it cannot be continued
      and `stop` is closed, the worker has exited and all callers of `Submit` and `Stop` are back. */
  lemma StopLeadsToExit(states: seq<State>, steps: seq<Step>)
    requires IsExecution(states, steps) && Quiescent(states[|steps|])
    ensures |steps| <= Rank(states[0])
    ensures AtRest(states[|steps|])
    ensures states[|steps|].stopClosed ==> states[|steps|].worker.Exited?
  {
    RunsAreBounded(states, steps);
    QuiescentAtRest(states, steps, |steps|);
  }

  /** While `stop` is closed no `Submit` call can be stuck: each unreturned one has a step of its own. */
  lemma NoSubmitterStuck(states: seq<State>, steps: seq<Step>, n: nat, i: nat)
    requires IsExecution(states, steps) && n < |states| && states[n].stopClosed
    requires i < |states[n].calls| && !states[n].calls[i].pc.Returned?
    ensures exists t :: ByCaller(t) && !t.CancelContext? && t.i == i && Enabled(states[n], t)
  {
    NothingBlocks(states, steps, n);
    var s := states[n];
    match s.calls[i].pc {
      case Idle => assert Enabled(s, Submit(i));
      case HasSlot => assert Enabled(s, StopBeforeEnqueue(i));
      case Releasing(_) => assert Enabled(s, ReturnSlot(i));
      case Waiting => assert Enabled(s, StopWhileWaiting(i));
    }
  }
}
