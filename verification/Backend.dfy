/**
 The backend object (internal/backend/backend.go), one call at a time. What happens when the push
 and the poll goroutine interleave inside `storeMessage` is the subject of `BackendRuns`.
 */
module Backend {
  import opened Wrappers
  import opened Model
  import opened Protocol
  import opened History
  import opened Repository
  import opened Sequences
  import Text
  import Sorting
  import S = Snapshot
  import Book = ContactBook
  import P = Persistence

  const NANOS: int := 1_000_000_000
  const NOTIFICATION_MAX_AGE: int := 5 * 60 * NANOS
  const NOTIFICATION_FUTURE_SKEW: int := 60 * NANOS

  const DEFAULT_LIMITS := Limits(MAX_HISTORY_RECORDS, MAX_HISTORY_BYTES)

  datatype ConnectionState = Stopped | Connecting | Ready | Degraded | LockedState

  datatype StoreError = Locked | Refused(error: AppendError)

  /** `recentMessage`; the zero time is instant 0. */
  predicate Recent(timestamp: Time, now: int) {
    timestamp.instant == 0 || -NOTIFICATION_FUTURE_SKEW <= now - timestamp.instant <= NOTIFICATION_MAX_AGE
  }

  /** A message is recent if it has no time, or is at most five minutes old and at most one minute ahead. */
  lemma RecentWindow(timestamp: Time, now: int)
    ensures Recent(timestamp, now) <==>
              timestamp.instant == 0 || now - 300_000_000_000 <= timestamp.instant <= now + 60_000_000_000
  {
  }

  function WithKind(m: Message): (r: Message)
    ensures m.kind != [] ==> r == m
    ensures r.kind != [] && r == m.(kind := r.kind) && (m.kind == [] ==> r.kind == "sms_received")
  {
    if m.kind == [] then m.(kind := "sms_received") else m
  }

  /** `truncatePublicBody`. */
  function PublicBody(body: string): (r: string)
    ensures |r| <= MAX_PUBLIC_BODY_CHARS
    ensures |body| <= MAX_PUBLIC_BODY_CHARS ==> r == body
    ensures |body| > MAX_PUBLIC_BODY_CHARS ==>
              && |r| == MAX_PUBLIC_BODY_CHARS && r[|r| - 1] == '\U{2026}'
              && r[..|r| - 1] == body[..|r| - 1]
  {
    if |body| <= MAX_PUBLIC_BODY_CHARS then body else body[..MAX_PUBLIC_BODY_CHARS - 1] + "\U{2026}"
  }

  function Public(m: Message): (r: Message)
    ensures r.kind == m.kind && r.handle == m.handle && r.timestamp == m.timestamp && r.read == m.read
    ensures r.senderAddress == m.senderAddress && r.senderPhoneNorm == m.senderPhoneNorm && r.contactName == m.contactName
    ensures |r.body| <= MAX_PUBLIC_BODY_CHARS && (|m.body| <= MAX_PUBLIC_BODY_CHARS ==> r == m)
  {
    m.(body := PublicBody(m.body))
  }

  /** The records of the wanted kinds as they are shown; no kinds means all. */
  function Shown(ms: seq<Message>, kinds: seq<string>): seq<Message> {
    if ms == [] then []
    else Shown(ms[..|ms| - 1], kinds)
         + (if kinds == [] || ms[|ms| - 1].kind in kinds then [Public(ms[|ms| - 1])] else [])
  }

  function LastOf<T>(xs: seq<T>, limit: nat): seq<T> { if |xs| <= limit then xs else xs[|xs| - limit..] }

  lemma {:induction false} ShownConcat(a: seq<Message>, b: seq<Message>, kinds: seq<string>)
    ensures Shown(a + b, kinds) == Shown(a, kinds) + Shown(b, kinds)
  {
    if b == [] {
      assert a + b == a;
    } else {
      assert (a + b)[..|a + b| - 1] == a + b[..|b| - 1];
      ShownConcat(a, b[..|b| - 1], kinds);
    }
  }

  lemma ShownOne(m: Message, kinds: seq<string>)
    ensures Shown([m], kinds) == if kinds == [] || m.kind in kinds then [Public(m)] else []
  {
    assert [m][..0] == [];
  }

  lemma ShownNone(kinds: seq<string>)
    ensures Shown([], kinds) == []
  {
  }

  function Reversed<T>(xs: seq<T>): (r: seq<T>)
    ensures |r| == |xs| && forall i :: 0 <= i < |xs| ==> r[i] == xs[|xs| - 1 - i]
  {
    seq(|xs|, i requires 0 <= i < |xs| => xs[|xs| - 1 - i])
  }

  /** The swap loop at the end of `ListEvents`. */
  method Reverse<T>(xs: seq<T>) returns (r: seq<T>)
    ensures r == Reversed(xs)
  {
    r := xs;
    var left, right := 0, |xs| - 1;
    while left < right
      invariant |r| == |xs| && 0 <= left && left + right == |xs| - 1
      invariant forall i :: 0 <= i < |xs| && (i < left || i > right) ==> r[i] == xs[|xs| - 1 - i]
      invariant forall i :: left <= i <= right ==> r[i] == xs[i]
      decreases right - left
    {
      r := r[left := r[right]][right := r[left]];
      left, right := left + 1, right - 1;
    }
    assert r == Reversed(xs);
  }

  // ---------------------------------------------------------------- polling

  /** What one turn of the poll loop meets: the wait, the pending refresh, the listing (`None` if it failed),
      whether the context was then cancelled, and the refresh after a batch with something new. */
  datatype Turn = Turn(waitOk: bool, pendingRefreshOk: bool, listed: Option<seq<Message>>, cancelled: bool, refreshOk: bool)

  /** `Aborted` is a batch whose storing ended with an error. */
  datatype PollEvent =
    | Listed(messages: Option<seq<Message>>)
    | Batch(added: seq<Message>)
    | Aborted(added: seq<Message>)
    | Refreshed(ok: bool)

  predicate IsNew(e: PollEvent) { e.Batch? && e.added != [] }

  function NewBatches(trace: seq<PollEvent>): nat {
    if trace == [] then 0 else NewBatches(trace[..|trace| - 1]) + (if IsNew(trace[|trace| - 1]) then 1 else 0)
  }

  function Refreshes(trace: seq<PollEvent>): nat {
    if trace == [] then 0 else Refreshes(trace[..|trace| - 1]) + (if trace[|trace| - 1] == Refreshed(true) then 1 else 0)
  }

  function AddedBy(e: PollEvent): seq<Message> { if e.Batch? || e.Aborted? then e.added else [] }

  /** All records that the loop stored, in order. */
  function Stored(trace: seq<PollEvent>): seq<Message> {
    if trace == [] then [] else Stored(trace[..|trace| - 1]) + AddedBy(trace[|trace| - 1])
  }

  lemma CountNext(trace: seq<PollEvent>, e: PollEvent)
    ensures NewBatches(trace + [e]) == NewBatches(trace) + (if IsNew(e) then 1 else 0)
    ensures Refreshes(trace + [e]) == Refreshes(trace) + (if e == Refreshed(true) then 1 else 0)
    ensures Stored(trace + [e]) == Stored(trace) + AddedBy(e)
  {
    assert (trace + [e])[..|trace|] == trace;
  }

  /** The records are from the listing just made, in stable timestamp order. */
  predicate FromListing(before: seq<PollEvent>, added: seq<Message>) {
    && before != [] && before[|before| - 1].Listed? && before[|before| - 1].messages.Some?
    && Subsequence(added, WithKinds(Sorting.StableSort(before[|before| - 1].messages.value, ByTime())))
  }

  /** A batch with something new is owed a refresh, and until it succeeds nothing is listed or stored;
      what is stored comes from the listing before it. */
  predicate Proper(before: seq<PollEvent>, e: PollEvent) {
    && NewBatches(before) == Refreshes(before) + (if e.Refreshed? then 1 else 0)
    && (e.Batch? || e.Aborted? ==> FromListing(before, e.added))
  }

  predicate Disciplined(trace: seq<PollEvent>) {
    forall n :: 0 <= n < |trace| ==> Proper(trace[..n], trace[n])
  }

  lemma DisciplinedNext(trace: seq<PollEvent>, e: PollEvent)
    requires Disciplined(trace) && Proper(trace, e)
    ensures Disciplined(trace + [e])
  {
    hide Proper;
    forall n | 0 <= n < |trace + [e]| ensures Proper((trace + [e])[..n], (trace + [e])[n]) {
      assert (trace + [e])[..n] == if n < |trace| then trace[..n] else trace;
    }
  }

  function WithKinds(ms: seq<Message>): (r: seq<Message>)
    ensures |r| == |ms| && forall i :: 0 <= i < |ms| ==> r[i] == WithKind(ms[i])
  {
    seq(|ms|, i requires 0 <= i < |ms| => WithKind(ms[i]))
  }

  lemma AddedNext(added: seq<Message>, messages: seq<Message>, n: nat)
    requires n < |messages| && Subsequence(added, WithKinds(messages[..n]))
    ensures Subsequence(added, WithKinds(messages[..n + 1]))
    ensures Subsequence(added + [WithKind(messages[n])], WithKinds(messages[..n + 1]))
  {
    var seen, m := WithKinds(messages[..n]), WithKind(messages[n]);
    assert WithKinds(messages[..n + 1]) == seen + [m];
    SubsequenceSkip(added, seen, m);
    SubsequenceTake(added, seen, m);
  }

  /** The message is among the records, or one of them has its handle. */
  predicate Covered(ms: seq<Message>, m: Message) {
    exists j :: 0 <= j < |ms| && (ms[j] == m || (ms[j].handle == m.handle != []))
  }

  predicate AllCovered(ms: seq<Message>, batch: seq<Message>) {
    forall i :: 0 <= i < |batch| ==> Covered(ms, WithKind(batch[i]))
  }

  predicate AllValid(ms: seq<Message>) { forall i :: 0 <= i < |ms| ==> ValidMessage(ms[i]) }

  /** The number of messages before the first one that the history rejects. */
  function ValidPrefix(ms: seq<Message>): (n: nat)
    ensures n <= |ms| && AllValid(ms[..n])
    ensures n < |ms| ==> !ValidMessage(ms[n])
  {
    hide ValidMessage;
    if ms == [] || !ValidMessage(ms[0]) then 0 else 1 + ValidPrefix(ms[1..])
  }

  lemma NothingYet(all: seq<Message>, messages: seq<Message>)
    ensures AllValid(messages[..0]) && AllCovered(all, messages[..0])
  {
  }

  /** What other goroutines create changes nothing about what was stored and covered. */
  lemma CreationsGrew(loaded: seq<Message>, before: seq<Message>, after: seq<Message>, start: nat, added: seq<Message>,
                      seen: seq<Message>)
    requires start <= |before| && before <= after
    requires Subsequence(added, before[start..]) && AllCovered(loaded + before, seen)
    ensures Subsequence(added, after[start..]) && AllCovered(loaded + after, seen)
  {
    hide Covered;
    var more := after[|before|..];
    assert after[start..] == before[start..] + more;
    SubsequenceExtend(added, before[start..], more);
    assert loaded + after == (loaded + before) + more;
    AllCoverGrows(loaded + before, more, seen);
  }

  /** A polled message that was known, or is now created, is covered from then on. */
  lemma PolledNext(loaded: seq<Message>, current: seq<Message>, known: seq<Message>, start: nat, added: seq<Message>,
                   messages: seq<Message>, n: nat)
    requires n < |messages| && AllValid(messages[..n]) && ValidMessage(messages[n])
    requires IsSuffix(HandlesOf(known), HandlesOf(loaded + current)) && AllCovered(loaded + current, messages[..n])
    requires start <= |current| && Subsequence(added, current[start..])
    ensures AllValid(messages[..n + 1])
    ensures var m := WithKind(messages[n]);
            && Subsequence(added + [m], (current + [m])[start..])
            && AllCovered(loaded + (current + [m]), messages[..n + 1])
    ensures Find(known, messages[n].handle).Some? ==> AllCovered(loaded + current, messages[..n + 1])
  {
    hide *;
    var all, m := loaded + current, WithKind(messages[n]);
    assert (current + [m])[start..] == current[start..] + [m];
    SubsequenceTake(added, current[start..], m);
    assert messages[..n + 1] == messages[..n] + [messages[n]];
    AllValidNext(messages[..n], messages[n]);
    assert all + [m] == loaded + (current + [m]);
    CoverLast(all, m);
    AllCoverGrows(all, [m], messages[..n]);
    AllCoveredNext(all + [m], messages[..n], messages[n]);
    if Find(known, messages[n].handle).Some? {
      KindKeepsHandle(messages[n]);
      KnownIsCovered(known, all, m);
      AllCoveredNext(all, messages[..n], messages[n]);
    }
  }

  lemma AllValidNext(ms: seq<Message>, m: Message)
    requires AllValid(ms) && ValidMessage(m)
    ensures AllValid(ms + [m])
  {
  }

  lemma AllCoveredNext(all: seq<Message>, seen: seq<Message>, m: Message)
    requires AllCovered(all, seen) && Covered(all, WithKind(m))
    ensures AllCovered(all, seen + [m])
  {
    hide Covered;
  }

  lemma AllCoverGrows(all: seq<Message>, more: seq<Message>, seen: seq<Message>)
    requires AllCovered(all, seen)
    ensures AllCovered(all + more, seen)
  {
    hide Covered;
    forall i | 0 <= i < |seen| ensures Covered(all + more, WithKind(seen[i])) {
      CoverGrows(all, more, WithKind(seen[i]));
    }
  }

  lemma CoverLast(all: seq<Message>, m: Message)
    ensures Covered(all + [m], m)
  {
    assert (all + [m])[|all|] == m;
  }

  lemma CoverGrows(all: seq<Message>, more: seq<Message>, m: Message)
    requires Covered(all, m)
    ensures Covered(all + more, m)
  {
    var j :| 0 <= j < |all| && (all[j] == m || (all[j].handle == m.handle != []));
    assert (all + more)[j] == all[j];
  }

  lemma KnownIsCovered(known: seq<Message>, all: seq<Message>, m: Message)
    requires IsSuffix(HandlesOf(known), HandlesOf(all)) && Find(known, m.handle).Some?
    ensures Covered(all, m)
  {
    var k := Find(known, m.handle).value;
    var j := |all| - |known| + k;
    assert HandlesOf(all)[j] == HandlesOf(known)[k] == m.handle;
    assert all[j].handle == m.handle;
  }

  lemma {:induction false} ValidPrefixFrom(ms: seq<Message>, n: nat)
    requires n < |ms| && AllValid(ms[..n])
    ensures n <= ValidPrefix(ms) && (!ValidMessage(ms[n]) ==> ValidPrefix(ms) == n)
  {
    hide ValidMessage;
    if n > 0 {
      assert ms[..n][0] == ms[0];
      assert ms[1..][..n - 1] == ms[..n][1..];
      ValidPrefixFrom(ms[1..], n - 1);
    }
  }

  lemma StoppedAt(added: seq<Message>, messages: seq<Message>, n: nat)
    requires n < |messages| && Subsequence(added, WithKinds(messages[..n])) && AllValid(messages[..n])
    ensures Subsequence(added, WithKinds(messages[..ValidPrefix(messages)]))
    ensures !ValidMessage(messages[n]) ==> ValidPrefix(messages) == n
  {
    ValidPrefixFrom(messages, n);
    var valid := ValidPrefix(messages);
    assert messages[..valid][..n] == messages[..n];
    SubsequenceOfPrefix(added, messages[..valid], n);
  }

  lemma AllStored(all: seq<Message>, batch: seq<Message>, added: seq<Message>)
    requires var sorted := Sorting.StableSort(batch, ByTime());
             AllValid(sorted) && AllCovered(all, sorted) && Subsequence(added, WithKinds(sorted))
    ensures AllValid(batch) && AllCovered(all, batch)
    ensures var sorted := Sorting.StableSort(batch, ByTime()); Subsequence(added, WithKinds(sorted[..ValidPrefix(sorted)]))
  {
    hide Covered;
    hide ValidMessage;
    hide Sorting.StableSort;
    var sorted := Sorting.StableSort(batch, ByTime());
    assert ValidPrefix(sorted) == |sorted| && sorted[..|sorted|] == sorted;
    ByTimeIsOrder();
    Sorting.StableSortCorrect(batch, ByTime());
    forall i | 0 <= i < |batch| ensures Covered(all, WithKind(batch[i])) && ValidMessage(batch[i]) {
      assert batch[i] in multiset(batch);
      assert batch[i] in multiset(sorted);
      var j :| 0 <= j < |sorted| && sorted[j] == batch[i];
    }
  }

  /** Oldest first. */
  predicate Ascending(ms: seq<Message>) {
    forall i, j :: 0 <= i < j < |ms| ==> ms[i].timestamp.instant <= ms[j].timestamp.instant
  }

  lemma {:induction false} SubsequenceAscending(a: seq<Message>, b: seq<Message>)
    requires Subsequence(a, b) && Ascending(b)
    ensures Ascending(a)
  {
    if a != [] {
      var a', b' := a[..|a| - 1], b[..|b| - 1];
      if Subsequence(a, b') {
        SubsequenceAscending(a, b');
      } else {
        SubsequenceAscending(a', b');
        forall i | 0 <= i < |a'| ensures a[i].timestamp.instant <= a[|a| - 1].timestamp.instant {
          SubsequenceMember(a', b', a'[i]);
        }
        assert a == a' + [a[|a| - 1]];
      }
    }
  }

  lemma AddedAscending(added: seq<Message>, batch: seq<Message>)
    requires var sorted := Sorting.StableSort(batch, ByTime()); Subsequence(added, WithKinds(sorted[..ValidPrefix(sorted)]))
    ensures Ascending(added)
  {
    hide Subsequence;
    hide ValidPrefix;
    hide Sorting.StableSort;
    ByTimeIsOrder();
    Sorting.StableSortCorrect(batch, ByTime());
    var sorted := Sorting.StableSort(batch, ByTime());
    assert Ascending(WithKinds(sorted[..ValidPrefix(sorted)]));
    SubsequenceAscending(added, WithKinds(sorted[..ValidPrefix(sorted)]));
  }

  lemma ByTimeIsOrder()
    ensures Sorting.StrictWeak(ByTime())
  {
  }

  /** The timestamp order of `pollMessages`. */
  function ByTime(): (Message, Message) -> bool { (left: Message, right: Message) => left.timestamp.instant < right.timestamp.instant }

  class Backend {
    const codec: Codec
    const store: S.Store
    const configured: bool
    var repository: Repo?
    var initialized: bool
    var state: ConnectionState
    var unlocked: bool
    var revision: nat
    var notified: seq<Message>
    ghost var loaded: seq<Message>
    ghost var creations: seq<Message>
    ghost var evictions: seq<Message>

    /** While storage is unlocked, the history in memory is the one on disk, and its handles are the latest part
        of those loaded and created since, in order. The state is `LockedState` only while storage is locked. */
    ghost predicate Valid()
      reads this, store, repository
    {
      && codec.Lawful() && store.box.Lawful()
      && (unlocked <==> repository != null)
      && (repository != null ==>
            && repository.codec == codec && repository.store == store && repository.lim == DEFAULT_LIMITS
            && repository.Valid()
            && HistoryOnDisk(codec, store.box, store.disk) == Some(repository.messages)
            && HandlesOf(loaded + creations) == HandlesOf(evictions + repository.messages))
      && (state == LockedState ==> !unlocked)
    }

    /** The history in memory; empty while storage is locked. */
    ghost function Memory(): seq<Message>
      reads this, repository
    {
      if repository != null then repository.messages else []
    }

    constructor (codec: Codec, store: S.Store, configured: bool)
      requires codec.Lawful() && store.box.Lawful()
      ensures Valid() && !unlocked && !initialized && this.codec == codec && this.store == store
      ensures state == Stopped && revision == 0 && notified == []
    {
      this.codec, this.store, this.configured := codec, store, configured;
      repository, initialized, state, unlocked, revision, notified := null, false, Stopped, false, 0, [];
      loaded, creations, evictions := [], [], [];
    }

    /** `lock`: the repository is dropped, and with `initialized` set it is never opened again. */
    method Lock()
      requires codec.Lawful() && store.box.Lawful()
      modifies this
      ensures Valid() && !unlocked && initialized && state == LockedState
      ensures revision == old(revision) && notified == old(notified)
      ensures loaded == old(loaded) && creations == old(creations) && evictions == old(evictions)
    {
      initialized := true;
      repository := null;
      state := LockedState;
      unlocked := false;
    }

    /** `Initialize`: any failure locks for good; success unlocks with what is on disk. A second call only
        reports the state. */
    method Initialize(stateDirOk: bool, keyOk: bool, historyFault: bool, contactsFault: bool) returns (ok: bool)
      requires Valid()
      modifies this
      ensures Valid() && initialized && revision == old(revision) && notified == old(notified)
      ensures old(initialized) ==> unlocked == old(unlocked) && repository == old(repository) && state == old(state)
                                   && ok == (old(state) != LockedState)
      ensures !old(initialized) ==> ok == unlocked && state == (if ok then Connecting else LockedState)
      ensures !old(initialized) ==> (ok <==>
                && configured && stateDirOk && keyOk && !historyFault && !contactsFault
                && Openable(codec, DEFAULT_LIMITS, store.box, store.disk))
      ensures !old(initialized) && (exists p :: S.Load(store.box, store.disk, p).LoadLocked?) ==> state == LockedState
      ensures !old(initialized) && ok ==>
                && HistoryOnDisk(codec, store.box, store.disk) == Some(repository.messages)
                && ContactsOnDisk(codec, store.box, store.disk) == Some(repository.contacts)
                && loaded == repository.messages && creations == [] && evictions == []
    {
      hide Openable;
      hide HistoryOnDisk;
      hide ContactsOnDisk;
      hide Codec.Lawful;
      hide S.Box.Lawful;
      hide Repo.Valid;
      UnreadableNotOpenable(codec, DEFAULT_LIMITS, store.box, store.disk);
      if initialized {
        return state != LockedState;
      }
      if !configured || !stateDirOk || !keyOk {
        Lock();
        return false;
      }
      var candidate := new Repo(codec, store, DEFAULT_LIMITS);
      var isOpen := candidate.Open(historyFault, contactsFault);
      if !isOpen {
        Lock();
        return false;
      }
      repository := candidate;
      initialized := true;
      state := Connecting;
      unlocked := true;
      loaded, creations, evictions := candidate.messages, [], [];
      assert loaded + creations == evictions + candidate.messages;
      return true;
    }

    /** `setConnectionState`, called by the connection loop. */
    method SetConnectionState(next: ConnectionState)
      requires Valid() && next != LockedState
      modifies this
      ensures Valid() && state == next && unlocked == old(unlocked) && initialized == old(initialized)
      ensures repository == old(repository) && revision == old(revision) && notified == old(notified)
      ensures loaded == old(loaded) && creations == old(creations) && evictions == old(evictions)
    {
      state := next;
    }

    /** A locked state means locked storage, but not the other way round: when the lost connection is reported after
        a failed save has locked, the state reads `Degraded` and a further `Initialize` reports no error. */
    method LossHidesLock() returns (ok: bool)
      requires Valid()
      modifies this
      ensures Valid() && !unlocked && state == Degraded && ok
    {
      Lock();
      SetConnectionState(Degraded);
      ok := Initialize(true, true, false, false);
    }

    /** `storeMessage`. A failed save is always `ErrLocked`: storage locks and the repository is dropped, so
        a save that failed after the rename cannot leave memory behind the disk. */
    method StoreMessage(message: Message, onlyIfMissing: bool, now: int, sys: System)
      returns (created: bool, err: Option<StoreError>)
      requires Valid() && Contributes(sys, store.disk)
      modifies this, store, repository
      ensures Valid()
      ensures unlocked ==> old(unlocked) && repository == old(repository)
      ensures !old(unlocked) ==> err == Some(Locked) && !created && store.disk == old(store.disk)
                                 && revision == old(revision) && notified == old(notified)
      ensures loaded == old(loaded)
      ensures err.Some? || !old(unlocked) ==> creations == old(creations) && evictions == old(evictions)
      ensures old(unlocked) ==>
                var m := WithKind(message);
                match AppendPlan(codec, DEFAULT_LIMITS, old(repository.messages), m, !onlyIfMissing)
                case Reject(e) =>
                  && err == Some(Refused(e)) && !created && unlocked && repository.messages == old(repository.messages)
                  && revision == old(revision) && notified == old(notified)
                case KeepKnown =>
                  && err == None && !created && unlocked && repository.messages == old(repository.messages)
                  && revision == old(revision) && notified == old(notified)
                  && creations == old(creations) && evictions == old(evictions)
                case Write(records, isNew, evicted) =>
                  if sys.fault != S.NoFault then
                    && err == Some(Locked) && !created && !unlocked
                    && revision == old(revision) && notified == old(notified)
                  else
                    && err == None && created == isNew && unlocked && repository.messages == records
                    && revision == old(revision) + 1
                    && notified == old(notified) + (if isNew && Recent(m.timestamp, now) then [m] else [])
                    && creations == old(creations) + (if isNew then [m] else [])
                    && evictions == old(evictions) + evicted
    {
      hide AppendPlan;
      hide ValidMessage;
      hide HistoryOnDisk;
      hide S.SavedDisk;
      hide S.SaveErrorOf;
      hide HistorySave;
      hide HandlesOf;
      hide Recent;
      hide WithKind;
      hide Codec.Lawful;
      hide S.Box.Lawful;
      hide Sizes;
      hide Codec.Encodings;
      if !unlocked || repository == null {
        return false, Some(Locked);
      }
      var m := WithKind(message);
      ghost var before, disk := repository.messages, store.disk;
      ghost var plan := AppendPlan(codec, DEFAULT_LIMITS, before, m, !onlyIfMissing);
      PlanShape(codec, before, m, !onlyIfMissing);
      var appendError;
      created, appendError := repository.AppendMessage(m, !onlyIfMissing, sys);
      if plan.Write? {
        SavedOrLocked(codec, store.box, disk, before, m, !onlyIfMissing, sys);
        PlanLogs(codec, loaded, creations, evictions, before, m, !onlyIfMissing);
      }
      if appendError.Some? {
        if appendError.value.SaveFailed? {
          Lock();
          return false, Some(Locked);
        }
        return false, Some(Refused(appendError.value));
      }
      if onlyIfMissing && !created {
        return false, None;
      }
      if plan.Write? {
        creations, evictions := creations + (if plan.created then [m] else []), evictions + plan.evicted;
      }
      revision := revision + 1;
      if created && Recent(m.timestamp, now) {
        notified := notified + [m];
      }
      return created, None;
    }

    /** A nonce, a new temporary name and any fault: what the system does next is not known. */
    method NextSystem() returns (sys: System)
      ensures Contributes(sys, store.disk)
    {
      var temp := 0;
      while temp in store.disk.files
        invariant forall id :: 0 <= id < temp ==> id in store.disk.files
        decreases store.disk.files.Keys - (set id | id in store.disk.files && id < temp)
      {
        assert temp in store.disk.files.Keys - (set id | id in store.disk.files && id < temp);
        temp := temp + 1;
      }
      var fault: S.Fault := *;
      assert |S.Ascii("random bytes")| == S.NONCE_SIZE;
      var nonce: Bytes :| |nonce| == S.NONCE_SIZE;
      var removed: bool := *;
      sys := System(nonce, temp, fault, removed);
    }

    /** One polled message, at whatever time it is: appended if its handle is unknown. */
    method StorePolled(message: Message) returns (created: bool, err: Option<StoreError>)
      requires Valid()
      modifies this, store, repository
      ensures Valid() && (unlocked ==> old(unlocked)) && (repository == null || repository == old(repository))
      ensures err.None? ==> unlocked
      ensures err.Some? ==> !created
      ensures err.None? ==> (created <==> Find(old(Memory()), message.handle).None?)
      ensures err.Some? && unlocked ==>
                AppendPlan(codec, DEFAULT_LIMITS, old(Memory()), WithKind(message), false).Reject?
      ensures old(unlocked) && !ValidMessage(message) ==> err == Some(Refused(InvalidMessage))
      ensures ValidMessage(message) ==> err != Some(Refused(InvalidMessage))
      ensures loaded == old(loaded)
      ensures creations == if created then old(creations) + [WithKind(message)] else old(creations)
      ensures unlocked && !created ==> Memory() == old(Memory())
      ensures unlocked && created ==>
                && |Memory()| <= |old(Memory())| + 1
                && Memory() == (old(Memory()) + [WithKind(message)])[|old(Memory())| + 1 - |Memory()|..]
    {
      hide AppendPlan;
      hide HistoryOnDisk;
      hide S.SavedDisk;
      hide WithKind;
      hide ValidMessage;
      hide HandlesOf;
      hide Repo.Valid;
      hide Find;
      hide Contributes;
      KindKeepsHandle(message);
      if unlocked {
        PollPlan(codec, repository.messages, WithKind(message));
      }
      var sys := NextSystem();
      var now: int := *;
      created, err := StoreMessage(message, true, now, sys);
    }

    lemma MemoryIsLatest()
      requires Valid()
      ensures IsSuffix(HandlesOf(Memory()), HandlesOf(loaded + creations))
    {
      if repository != null {
        HandlesConcat(evictions, repository.messages);
      }
    }

    /** Any number of pushes, each at whatever time: what other goroutines may do between two polled messages. */
    method OtherPushes()
      requires Valid()
      modifies this, store, repository
      ensures Valid() && (unlocked ==> old(unlocked)) && (repository == null || repository == old(repository))
      ensures loaded == old(loaded) && old(creations) <= creations
    {
      hide Backend.Valid;
      hide AppendPlan;
      var count: int := *;
      if count < 0 {
        return;
      }
      for k := 0 to count
        invariant Valid() && (unlocked ==> old(unlocked)) && (repository == null || repository == old(repository))
        invariant loaded == old(loaded) && old(creations) <= creations
      {
        Push();
      }
    }

    method Push()
      requires Valid()
      modifies this, store, repository
      ensures Valid() && (unlocked ==> old(unlocked)) && (repository == null || repository == old(repository))
      ensures loaded == old(loaded) && old(creations) <= creations
    {
      hide AppendPlan;
      hide HistoryOnDisk;
      hide S.SavedDisk;
      hide HandlesOf;
      var message: Message := *;
      var now: int := *;
      var sys := NextSystem();
      var created, err := StoreMessage(message, false, now, sys);
    }

    /** One polled batch, with pushes coming in between: its new records are created in stable timestamp order.
        Storing stops at the first error, at the latest at the first record that the history rejects. */
    method StoreBatch(batch: seq<Message>) returns (added: seq<Message>, err: Option<StoreError>)
      requires Valid()
      modifies this, store, repository
      ensures Valid() && (unlocked ==> old(unlocked)) && (repository == null || repository == old(repository))
      ensures loaded == old(loaded) && old(creations) <= creations
      ensures Subsequence(added, creations[|old(creations)|..])
      ensures var sorted := Sorting.StableSort(batch, ByTime()); Subsequence(added, WithKinds(sorted[..ValidPrefix(sorted)]))
      ensures Ascending(added)
      ensures err.None? ==> AllValid(batch) && AllCovered(loaded + creations, batch)
      ensures var sorted := Sorting.StableSort(batch, ByTime());
              err == Some(Refused(InvalidMessage)) ==>
                ValidPrefix(sorted) < |sorted| && AllCovered(loaded + creations, sorted[..ValidPrefix(sorted)])
    {
      hide *;
      var messages := Sorting.StableSort(batch, ByTime());
      ghost var start := |creations|;
      added := [];
      NothingYet(loaded + creations, messages);
      EmptySubsequence(creations[start..]);
      EmptySubsequence(WithKinds([]));
      for n := 0 to |messages|
        invariant Valid() && (unlocked ==> old(unlocked)) && (repository == null || repository == old(repository))
        invariant loaded == old(loaded) && old(creations) <= creations
        invariant Subsequence(added, WithKinds(messages[..n]))
        invariant Subsequence(added, creations[start..])
        invariant AllValid(messages[..n]) && AllCovered(loaded + creations, messages[..n])
      {
        var message := messages[n];
        ghost var earlier := creations;
        OtherPushes();
        CreationsGrew(loaded, earlier, creations, start, added, messages[..n]);
        ghost var current, known := creations, Memory();
        MemoryIsLatest();
        AddedNext(added, messages, n);
        var created;
        created, err := StorePolled(message);
        if err.Some? {
          StoppedAt(added, messages, n);
          AddedAscending(added, batch);
          return;
        }
        PolledNext(loaded, current, known, start, added, messages, n);
        if created {
          added := added + [WithKind(message)];
        }
      }
      assert messages[..|messages|] == messages;
      AllStored(loaded + creations, batch, added);
      AddedAscending(added, batch);
      err := None;
    }

    /** `pollMessages` over any finite sequence of turns, with pushes coming in at any time: `parts` is what each turn
        logs, and `pendings` says before each turn, and at the end, whether a refresh is pending. */
    method PollMessages(turns: seq<Turn>)
      returns (trace: seq<PollEvent>, refreshPending: bool, ghost parts: seq<seq<PollEvent>>, ghost pendings: seq<bool>)
      requires Valid()
      modifies this, store, repository
      ensures Valid() && (unlocked ==> old(unlocked))
      ensures PollRuns(turns, parts, pendings) && trace == Flat(parts) && refreshPending == pendings[|parts|]
      ensures Accounted(trace, refreshPending)
      ensures old(creations) <= creations && Subsequence(Stored(trace), creations[|old(creations)|..])
      ensures BatchesCovered(loaded + creations, trace)
    {
      hide *;
      trace, refreshPending, parts, pendings := [], false, [], [false];
      EmptyTrace(loaded + creations);
      NoTurns(turns);
      ghost var start := |creations|;
      EmptySubsequence(creations[start..]);
      for n := 0 to |turns|
        invariant Valid() && (repository == null || repository == old(repository)) && (unlocked ==> old(unlocked))
        invariant |parts| == n && |pendings| == n + 1 && refreshPending == pendings[n]
        invariant PollGoesOn(turns, parts, pendings) && trace == Flat(parts)
        invariant Accounted(trace, refreshPending)
        invariant old(creations) <= creations && Subsequence(Stored(trace), creations[start..])
        invariant BatchesCovered(loaded + creations, trace)
      {
        ghost var before, earlier := creations, parts;
        var part, stops;
        part, refreshPending, stops := PollTurn(turns[n], refreshPending, trace);
        StoredNext(trace, start, before, creations, Stored(part));
        FlatNext(parts, part);
        if stops {
          TurnEnds(turns, parts, pendings, part, refreshPending);
        } else {
          TurnGoesOn(turns, parts, pendings, part, refreshPending);
        }
        trace, parts, pendings := trace + part, parts + [part], pendings + [refreshPending];
        if stops {
          return;
        }
      }
      AllTurnsTaken(turns, parts, pendings);
    }

    /** One turn of the loop, after the events in `trace`: what it logs, whether a refresh is then pending, and whether
        the loop ends with it. */
    method PollTurn(turn: Turn, pending: bool, ghost trace: seq<PollEvent>)
      returns (part: seq<PollEvent>, refreshPending: bool, stops: bool)
      requires Valid() && Accounted(trace, pending) && BatchesCovered(loaded + creations, trace)
      modifies this, store, repository
      ensures Valid() && (unlocked ==> old(unlocked)) && (repository == null || repository == old(repository))
      ensures TurnLogs(turn, pending, part, refreshPending) && stops == Ends(turn, part)
      ensures Accounted(trace + part, refreshPending) && BatchesCovered(loaded + creations, trace + part)
      ensures old(creations) <= creations && loaded == old(loaded)
      ensures Stored(trace + part) == Stored(trace) + Stored(part)
      ensures Subsequence(Stored(part), creations[|old(creations)|..])
    {
      hide *;
      part, refreshPending := [], pending;
      OtherPushes();
      StaysCovered(loaded, old(creations), creations, trace);
      EmptySubsequence(creations[|old(creations)|..]);
      NothingLogged(trace);
      if !turn.waitOk {
        WaitFailed(turn, pending);
        return part, pending, true;
      }
      if pending {
        LogRefresh(trace, turn.pendingRefreshOk);
        LogPart(loaded + creations, trace, part, Refreshed(turn.pendingRefreshOk));
        part := [Refreshed(turn.pendingRefreshOk)];
        if !turn.pendingRefreshOk {
          RefreshFailed(turn);
          return part, true, false;
        }
      }
      LogListing(trace + part, turn.listed);
      LogPart(loaded + creations, trace, part, Listed(turn.listed));
      part := part + [Listed(turn.listed)];
      TurnListed(turn, pending, part);
      if turn.listed.None? {
        return part, false, turn.cancelled;
      }
      ghost var before := creations;
      part, refreshPending, stops := StoreListed(turn, pending, trace, part);
      CreatedLater(Stored(part), |old(creations)|, before, creations);
    }

    /** The rest of a turn that has listed messages: store them, and refresh if there was something new. */
    method StoreListed(turn: Turn, ghost pending: bool, ghost trace: seq<PollEvent>, first: seq<PollEvent>)
      returns (part: seq<PollEvent>, refreshPending: bool, stops: bool)
      requires Valid() && turn.waitOk && (pending ==> turn.pendingRefreshOk) && turn.listed.Some?
      requires first == (if pending then [Refreshed(true)] else []) + [Listed(turn.listed)] && Stored(first) == []
      requires Accounted(trace + first, false) && BatchesCovered(loaded + creations, trace + first)
      requires Stored(trace + first) == Stored(trace)
      modifies this, store, repository
      ensures Valid() && (unlocked ==> old(unlocked)) && (repository == null || repository == old(repository))
      ensures TurnLogs(turn, pending, part, refreshPending) && stops == Ends(turn, part)
      ensures Accounted(trace + part, refreshPending) && BatchesCovered(loaded + creations, trace + part)
      ensures old(creations) <= creations && loaded == old(loaded)
      ensures Stored(trace + part) == Stored(trace) + Stored(part)
      ensures Subsequence(Stored(part), creations[|old(creations)|..])
    {
      hide *;
      var added, err := StoreBatch(turn.listed.value);
      ghost var logged := trace + first;
      BatchFromListing(added, turn.listed.value);
      StaysCovered(loaded, old(creations), creations, logged);
      assert logged[|logged| - 1] == Listed(Some(turn.listed.value));
      LogBatch(logged, turn.listed.value, added);
      TurnStored(turn, pending, first, added);
      StoredInTurn(first, added, turn.refreshOk);
      if err.Some? {
        NothingToCover(loaded + creations, logged, Aborted(added));
        assert trace + (first + [Aborted(added)]) == logged + [Aborted(added)];
        return first + [Aborted(added)], false, true;
      }
      BatchNowCovered(loaded + creations, logged, turn.listed.value, added);
      assert trace + (first + [Batch(added)]) == logged + [Batch(added)];
      if added == [] {
        return first + [Batch(added)], false, false;
      }
      ghost var stored := logged + [Batch(added)];
      LogRefresh(stored, turn.refreshOk);
      NothingToCover(loaded + creations, stored, Refreshed(turn.refreshOk));
      part := first + [Batch(added), Refreshed(turn.refreshOk)];
      assert trace + part == stored + [Refreshed(turn.refreshOk)];
      return part, !turn.refreshOk, false;
    }

    /** `ListEvents`: exactly the last `limit` of all shown records, in order. */
    method ListEvents(kinds: seq<string>, limit: int) returns (events: Option<seq<Message>>)
      requires Valid()
      ensures events.Some? <==> unlocked && 0 < limit <= MAX_HISTORY_RECORDS
                                && forall i :: 0 <= i < |kinds| ==> Text.Utf8Len(kinds[i]) <= 64
      ensures events.Some? ==> events.value == LastOf(Shown(repository.messages, kinds), limit)
    {
      hide Text.Utf8Len;
      if !unlocked || repository == null {
        return None;
      }
      if limit <= 0 || limit > MAX_HISTORY_RECORDS {
        return None;
      }
      for k := 0 to |kinds|
        invariant forall i :: 0 <= i < k ==> Text.Utf8Len(kinds[i]) <= 64
      {
        if Text.Utf8Len(kinds[k]) > 64 {
          return None;
        }
      }
      var all := repository.Messages(MAX_HISTORY_RECORDS);
      assert all == repository.messages;
      var filtered := LatestShown(all, kinds, limit);
      var ordered := Reverse(filtered);
      return Some(ordered);
    }

    /** The backward scan of `ListEvents`. */
    method LatestShown(all: seq<Message>, kinds: seq<string>, limit: nat) returns (filtered: seq<Message>)
      ensures Reversed(filtered) == LastOf(Shown(all, kinds), limit)
    {
      hide Shown;
      hide Public;
      ShownNone(kinds);
      filtered := [];
      var index := |all| - 1;
      assert all[index + 1..] == [];
      while index >= 0 && |filtered| < limit
        invariant -1 <= index < |all| && |filtered| <= limit
        invariant Reversed(filtered) == Shown(all[index + 1..], kinds)
        decreases index
      {
        var message := all[index];
        assert all[index..] == [message] + all[index + 1..];
        ShownConcat([message], all[index + 1..], kinds);
        ShownOne(message, kinds);
        if kinds == [] || message.kind in kinds {
          assert Reversed(filtered + [Public(message)]) == [Public(message)] + Reversed(filtered);
          filtered := filtered + [Public(message)];
        }
        index := index - 1;
      }
      assert all == all[..index + 1] + all[index + 1..];
      ShownConcat(all[..index + 1], all[index + 1..], kinds);
    }

    /** `SyncContacts`, given what the phone returned: the history, in memory and on disk, is untouched. */
    method SyncContacts(fetched: Option<seq<Contact>>, lower: string -> string, sys: System) returns (count: Option<nat>)
      requires Valid() && Contributes(sys, store.disk)
      modifies this, store, repository
      ensures Valid() && unlocked == old(unlocked) && repository == old(repository) && notified == old(notified)
      ensures count.Some? <==>
                && unlocked && fetched.Some? && AcceptableContacts(fetched.value)
                && S.SaveErrorOf(ContactsSave(codec, Book.SortedByName(fetched.value, lower), sys)).None?
      ensures count.Some? ==> unlocked && fetched.Some? && count.value == |fetched.value| && revision == old(revision) + 1
                              && repository.contacts == Book.SortedByName(fetched.value, lower)
      ensures count.None? ==> revision == old(revision) && (unlocked ==> repository.contacts == old(repository.contacts))
      ensures HistoryOnDisk(codec, store.box, store.disk) == old(HistoryOnDisk(codec, store.box, store.disk))
    {
      hide HistoryOnDisk;
      hide S.SavedDisk;
      hide AcceptableContacts;
      hide Envelope;
      if !unlocked || repository == null {
        return None;
      }
      if fetched.None? {
        return None;
      }
      P.SavedContactsKeepHistory(codec, store.box, store.disk, Book.SortedByName(fetched.value, lower), sys);
      var ok := repository.ReplaceContacts(fetched.value, lower, sys);
      if !ok {
        return None;
      }
      revision := revision + 1;
      return Some(|fetched.value|);
    }
  }

  /** The trace is disciplined, and the batches with something new equal the successful refreshes plus one if a
      refresh is pending. */
  predicate Accounted(trace: seq<PollEvent>, refreshPending: bool) {
    Disciplined(trace) && NewBatches(trace) == Refreshes(trace) + (if refreshPending then 1 else 0)
  }

  lemma LogRefresh(trace: seq<PollEvent>, ok: bool)
    requires Accounted(trace, true)
    ensures Accounted(trace + [Refreshed(ok)], !ok) && Stored(trace + [Refreshed(ok)]) == Stored(trace)
  {
    hide Disciplined;
    DisciplinedNext(trace, Refreshed(ok));
    CountNext(trace, Refreshed(ok));
  }

  lemma LogListing(trace: seq<PollEvent>, listed: Option<seq<Message>>)
    requires Accounted(trace, false)
    ensures var trace' := trace + [Listed(listed)];
            && Accounted(trace', false) && Stored(trace') == Stored(trace)
            && trace'[|trace'| - 1] == Listed(listed)
  {
    hide Disciplined;
    DisciplinedNext(trace, Listed(listed));
    CountNext(trace, Listed(listed));
  }

  lemma LogBatch(trace: seq<PollEvent>, batch: seq<Message>, added: seq<Message>)
    requires Accounted(trace, false) && trace != [] && trace[|trace| - 1] == Listed(Some(batch))
    requires Subsequence(added, WithKinds(Sorting.StableSort(batch, ByTime())))
    ensures Accounted(trace + [Batch(added)], added != []) && Stored(trace + [Batch(added)]) == Stored(trace) + added
    ensures Accounted(trace + [Aborted(added)], false) && Stored(trace + [Aborted(added)]) == Stored(trace) + added
  {
    BatchIsProper(trace, batch, added);
    DisciplinedNext(trace, Batch(added));
    CountNext(trace, Batch(added));
    DisciplinedNext(trace, Aborted(added));
    CountNext(trace, Aborted(added));
    hide Disciplined;
    hide Proper;
    hide Subsequence;
    hide Sorting.StableSort;
    hide WithKinds;
    hide NewBatches;
    hide Refreshes;
    hide Stored;
  }

  lemma BatchIsProper(trace: seq<PollEvent>, batch: seq<Message>, added: seq<Message>)
    requires Accounted(trace, false) && trace != [] && trace[|trace| - 1] == Listed(Some(batch))
    requires Subsequence(added, WithKinds(Sorting.StableSort(batch, ByTime())))
    ensures Proper(trace, Batch(added)) && Proper(trace, Aborted(added))
  {
    hide Disciplined;
    hide Subsequence;
    hide Sorting.StableSort;
    hide WithKinds;
    hide NewBatches;
    hide Refreshes;
  }

  lemma StoredStays(trace: seq<PollEvent>, start: nat, before: seq<Message>, after: seq<Message>)
    requires start <= |before| && before <= after && Subsequence(Stored(trace), before[start..])
    ensures Subsequence(Stored(trace), after[start..])
  {
    assert after[start..] == before[start..] + after[|before|..];
    SubsequenceExtend(Stored(trace), before[start..], after[|before|..]);
  }

  lemma StoredNext(trace: seq<PollEvent>, start: nat, before: seq<Message>, after: seq<Message>, added: seq<Message>)
    requires start <= |before| && before <= after && Subsequence(Stored(trace), before[start..])
    requires Subsequence(added, after[|before|..])
    ensures Subsequence(Stored(trace) + added, after[start..])
  {
    assert after[start..] == before[start..] + after[|before|..];
    SubsequenceConcat(Stored(trace), before[start..], added, after[|before|..]);
  }

  lemma CreatedLater(records: seq<Message>, start: nat, before: seq<Message>, after: seq<Message>)
    requires start <= |before| && before <= after && Subsequence(records, after[|before|..])
    ensures Subsequence(records, after[start..])
  {
    assert after[start..] == before[start..] + after[|before|..] && [] + records == records;
    EmptySubsequence(before[start..]);
    SubsequenceConcat([], before[start..], records, after[|before|..]);
  }

  lemma BatchFromListing(added: seq<Message>, batch: seq<Message>)
    requires var sorted := Sorting.StableSort(batch, ByTime()); Subsequence(added, WithKinds(sorted[..ValidPrefix(sorted)]))
    ensures Subsequence(added, WithKinds(Sorting.StableSort(batch, ByTime())))
  {
    var sorted := Sorting.StableSort(batch, ByTime());
    SubsequenceOfPrefix(added, sorted, ValidPrefix(sorted));
  }

  // ---------------------------------------------------------------- progress

  /** What one turn logs, given whether a refresh was pending before; `after` says whether one is then. */
  predicate TurnLogs(turn: Turn, pending: bool, part: seq<PollEvent>, after: bool) {
    if !turn.waitOk then part == [] && after == pending
    else if pending && !turn.pendingRefreshOk then part == [Refreshed(false)] && after
    else
      var first := (if pending then [Refreshed(true)] else []) + [Listed(turn.listed)];
      if turn.listed.None? then part == first && !after
      else
        || (|part| == |first| + 1 && first <= part && part[|first|].Aborted? && !after)
        || (part == first + [Batch([])] && !after)
        || (|part| == |first| + 2 && first <= part && IsNew(part[|first|])
            && part[|first| + 1] == Refreshed(turn.refreshOk) && after == !turn.refreshOk)
  }

  /** The loop ends with this turn: its wait failed, its listing failed with the context cancelled, or storing failed. */
  predicate Ends(turn: Turn, part: seq<PollEvent>) {
    || !turn.waitOk
    || (turn.cancelled && part != [] && part[|part| - 1] == Listed(None))
    || (part != [] && part[|part| - 1].Aborted?)
  }

  /** The loop has taken as many turns as there are parts, and goes on. */
  predicate PollGoesOn(turns: seq<Turn>, parts: seq<seq<PollEvent>>, pendings: seq<bool>) {
    && |parts| <= |turns| && |pendings| == |parts| + 1 && !pendings[0]
    && forall n :: 0 <= n < |parts| ==> TurnLogs(turns[n], pendings[n], parts[n], pendings[n + 1]) && !Ends(turns[n], parts[n])
  }

  /** The loop has taken all turns, or the last one it took ends it. */
  predicate PollRuns(turns: seq<Turn>, parts: seq<seq<PollEvent>>, pendings: seq<bool>) {
    && |pendings| == |parts| + 1
    && ((|parts| == |turns| && PollGoesOn(turns, parts, pendings))
        || (0 < |parts| <= |turns| && PollGoesOn(turns, parts[..|parts| - 1], pendings[..|parts|])
            && TurnLogs(turns[|parts| - 1], pendings[|parts| - 1], parts[|parts| - 1], pendings[|parts|])
            && Ends(turns[|parts| - 1], parts[|parts| - 1])))
  }

  function Flat(parts: seq<seq<PollEvent>>): seq<PollEvent> {
    if parts == [] then [] else Flat(parts[..|parts| - 1]) + parts[|parts| - 1]
  }

  lemma FlatNext(parts: seq<seq<PollEvent>>, part: seq<PollEvent>)
    ensures Flat(parts + [part]) == Flat(parts) + part
  {
    assert (parts + [part])[..|parts|] == parts;
  }

  lemma NoTurns(turns: seq<Turn>)
    ensures PollGoesOn(turns, [], [false]) && Flat([]) == []
  {
  }

  lemma TurnGoesOn(turns: seq<Turn>, parts: seq<seq<PollEvent>>, pendings: seq<bool>, part: seq<PollEvent>, after: bool)
    requires PollGoesOn(turns, parts, pendings) && |parts| < |turns|
    requires TurnLogs(turns[|parts|], pendings[|parts|], part, after) && !Ends(turns[|parts|], part)
    ensures PollGoesOn(turns, parts + [part], pendings + [after])
  {
    hide TurnLogs;
    hide Ends;
  }

  lemma TurnEnds(turns: seq<Turn>, parts: seq<seq<PollEvent>>, pendings: seq<bool>, part: seq<PollEvent>, after: bool)
    requires PollGoesOn(turns, parts, pendings) && |parts| < |turns|
    requires TurnLogs(turns[|parts|], pendings[|parts|], part, after) && Ends(turns[|parts|], part)
    ensures PollRuns(turns, parts + [part], pendings + [after])
  {
    assert (parts + [part])[..|parts|] == parts && (pendings + [after])[..|pendings|] == pendings;
    hide TurnLogs;
    hide Ends;
  }

  lemma AllTurnsTaken(turns: seq<Turn>, parts: seq<seq<PollEvent>>, pendings: seq<bool>)
    requires PollGoesOn(turns, parts, pendings) && |parts| == |turns|
    ensures PollRuns(turns, parts, pendings)
  {
  }

  lemma NothingLogged(trace: seq<PollEvent>)
    ensures trace + [] == trace && Stored([]) == []
  {
  }

  lemma LogPart(all: seq<Message>, trace: seq<PollEvent>, part: seq<PollEvent>, e: PollEvent)
    requires BatchesCovered(all, trace + part) && Stored(part) == [] && (e.Refreshed? || e.Listed?)
    ensures trace + (part + [e]) == (trace + part) + [e] && [] + [e] == [e] && trace + [] == trace
    ensures BatchesCovered(all, (trace + part) + [e]) && Stored(part + [e]) == []
  {
    NothingToCover(all, trace + part, e);
    CountNext(part, e);
    hide BatchesCovered;
  }

  lemma StoredInTurn(first: seq<PollEvent>, added: seq<Message>, ok: bool)
    requires Stored(first) == []
    ensures Stored(first + [Aborted(added)]) == added && Stored(first + [Batch(added)]) == added
    ensures Stored(first + [Batch(added), Refreshed(ok)]) == added
  {
    CountNext(first, Aborted(added));
    CountNext(first, Batch(added));
    CountNext(first + [Batch(added)], Refreshed(ok));
    assert first + [Batch(added), Refreshed(ok)] == (first + [Batch(added)]) + [Refreshed(ok)];
    hide Stored;
  }

  lemma WaitFailed(turn: Turn, pending: bool)
    requires !turn.waitOk
    ensures TurnLogs(turn, pending, [], pending) && Ends(turn, [])
  {
  }

  lemma RefreshFailed(turn: Turn)
    requires turn.waitOk && !turn.pendingRefreshOk
    ensures TurnLogs(turn, true, [Refreshed(false)], true) && !Ends(turn, [Refreshed(false)])
  {
  }

  lemma TurnListed(turn: Turn, pending: bool, first: seq<PollEvent>)
    requires turn.waitOk && (pending ==> turn.pendingRefreshOk)
    requires first == (if pending then [Refreshed(true)] else []) + [Listed(turn.listed)]
    ensures turn.listed.None? ==> TurnLogs(turn, pending, first, false) && (Ends(turn, first) <==> turn.cancelled)
  {
  }

  lemma TurnStored(turn: Turn, pending: bool, first: seq<PollEvent>, added: seq<Message>)
    requires turn.waitOk && (pending ==> turn.pendingRefreshOk) && turn.listed.Some?
    requires first == (if pending then [Refreshed(true)] else []) + [Listed(turn.listed)]
    ensures TurnLogs(turn, pending, first + [Aborted(added)], false) && Ends(turn, first + [Aborted(added)])
    ensures added == [] ==>
              TurnLogs(turn, pending, first + [Batch(added)], false) && !Ends(turn, first + [Batch(added)])
    ensures added != [] ==>
              var part := first + [Batch(added), Refreshed(turn.refreshOk)];
              TurnLogs(turn, pending, part, !turn.refreshOk) && !Ends(turn, part)
  {
  }

  /** What a run of the loop shows. It stops early only on a failed wait, a failed listing with a cancelled context, or
      a storing error. A turn with a good wait, and no refresh pending or a successful one, lists the messages. What
      was listed is stored, or storing it fails. A batch with something new is followed by a refresh. */
  lemma PollProgress(turns: seq<Turn>, parts: seq<seq<PollEvent>>, pendings: seq<bool>, n: nat)
    requires PollRuns(turns, parts, pendings) && n < |parts|
    ensures |parts| < |turns| ==> Ends(turns[|parts| - 1], parts[|parts| - 1])
    ensures n < |parts| - 1 ==> !Ends(turns[n], parts[n])
    ensures turns[n].waitOk && (!pendings[n] || turns[n].pendingRefreshOk) ==> Listed(turns[n].listed) in parts[n]
    ensures forall k :: 0 <= k < |parts[n]| && parts[n][k].Listed? && parts[n][k].messages.Some? ==>
              k + 1 < |parts[n]| && (parts[n][k + 1].Batch? || parts[n][k + 1].Aborted?)
    ensures forall k :: 0 <= k < |parts[n]| && IsNew(parts[n][k]) ==>
              k + 1 < |parts[n]| && parts[n][k + 1] == Refreshed(turns[n].refreshOk)
  {
    assert TurnLogs(turns[n], pendings[n], parts[n], pendings[n + 1]) by {
      hide TurnLogs;
      hide Ends;
    }
    assert n < |parts| - 1 ==> !Ends(turns[n], parts[n]) by {
      hide TurnLogs;
      hide Ends;
    }
    assert |parts| < |turns| ==> Ends(turns[|parts| - 1], parts[|parts| - 1]);
    hide PollRuns;
    var turn, part := turns[n], parts[n];
    var first := (if pendings[n] then [Refreshed(true)] else []) + [Listed(turn.listed)];
    if turn.waitOk && (!pendings[n] || turn.pendingRefreshOk) {
      assert first <= part && part[|first| - 1] == first[|first| - 1] == Listed(turn.listed);
    }
  }

  /** After each batch every message that was listed is valid, and was created or has a handle that was known. */
  predicate BatchesCovered(all: seq<Message>, trace: seq<PollEvent>) {
    forall k :: 0 <= k < |trace| && trace[k].Batch? ==>
      && k > 0 && trace[k - 1].Listed? && trace[k - 1].messages.Some?
      && AllValid(trace[k - 1].messages.value) && AllCovered(all, trace[k - 1].messages.value)
  }

  lemma StaysCovered(loaded: seq<Message>, before: seq<Message>, after: seq<Message>, trace: seq<PollEvent>)
    requires before <= after && BatchesCovered(loaded + before, trace)
    ensures BatchesCovered(loaded + after, trace)
  {
    hide AllValid;
    hide AllCovered;
    var more := after[|before|..];
    assert loaded + after == (loaded + before) + more;
    forall k | 0 <= k < |trace| && trace[k].Batch? ensures AllCovered(loaded + after, trace[k - 1].messages.value) {
      AllCoverGrows(loaded + before, more, trace[k - 1].messages.value);
    }
  }

  lemma NothingToCover(all: seq<Message>, trace: seq<PollEvent>, e: PollEvent)
    requires BatchesCovered(all, trace) && !e.Batch?
    ensures BatchesCovered(all, trace + [e])
  {
    hide AllValid;
    hide AllCovered;
  }

  lemma BatchNowCovered(all: seq<Message>, trace: seq<PollEvent>, batch: seq<Message>, added: seq<Message>)
    requires BatchesCovered(all, trace) && trace != [] && trace[|trace| - 1] == Listed(Some(batch))
    requires AllValid(batch) && AllCovered(all, batch)
    ensures BatchesCovered(all, trace + [Batch(added)])
  {
    hide AllValid;
    hide AllCovered;
  }

  lemma EmptyTrace(all: seq<Message>)
    ensures Accounted([], false) && Stored([]) == [] && BatchesCovered(all, [])
  {
  }

  /** A poll never replaces: what it writes is the old history with the record appended, less a prefix. */
  lemma PollPlan(codec: Codec, ms: seq<Message>, m: Message)
    ensures var plan := AppendPlan(codec, DEFAULT_LIMITS, ms, m, false);
            && (plan.Write? ==> plan.created && |plan.records| <= |ms| + 1 && Find(ms, m.handle).None?
                                && plan.records == (ms + [m])[|ms| + 1 - |plan.records|..])
            && (plan.KeepKnown? ==> Find(ms, m.handle).Some?)
            && (plan == Reject(InvalidMessage) <==> !ValidMessage(m))
  {
    hide Fits;
    hide ValidMessage;
    PlanKeepsLongestSuffix(codec, DEFAULT_LIMITS, ms, m, false);
  }

  lemma PlanShape(codec: Codec, ms: seq<Message>, m: Message, replace: bool)
    ensures var plan := AppendPlan(codec, DEFAULT_LIMITS, ms, m, replace);
            && (plan.KeepKnown? ==> !replace)
            && (plan.Write? && !replace ==> plan.created)
            && (plan.Reject? ==> !plan.error.SaveFailed?)
  {
    hide LeastFit;
    hide Placed;
    hide ValidMessage;
  }

  /** The logs that go with a written plan. */
  lemma PlanLogs(codec: Codec, loaded: seq<Message>, creations: seq<Message>, evictions: seq<Message>, ms: seq<Message>,
                 m: Message, replace: bool)
    requires AppendPlan(codec, DEFAULT_LIMITS, ms, m, replace).Write?
    requires HandlesOf(loaded + creations) == HandlesOf(evictions + ms)
    ensures var plan := AppendPlan(codec, DEFAULT_LIMITS, ms, m, replace);
            HandlesOf(loaded + (creations + (if plan.created then [m] else [])))
            == HandlesOf((evictions + plan.evicted) + plan.records)
  {
    hide HandlesOf;
    PlanConservesHandles(codec, DEFAULT_LIMITS, ms, m, replace);
    var plan := AppendPlan(codec, DEFAULT_LIMITS, ms, m, replace);
    hide AppendPlan;
    HandlesOfOne(m);
    LogsConserve(loaded, creations, if plan.created then [m] else [], evictions, plan.evicted, ms, plan.records);
  }

  lemma KindKeepsHandle(m: Message)
    ensures WithKind(m).handle == m.handle && (ValidMessage(WithKind(m)) <==> ValidMessage(m))
  {
  }

  lemma SubsequenceOfPrefix(added: seq<Message>, messages: seq<Message>, n: nat)
    requires n <= |messages| && Subsequence(added, WithKinds(messages[..n]))
    ensures Subsequence(added, WithKinds(messages))
  {
    assert WithKinds(messages) == WithKinds(messages[..n]) + WithKinds(messages[n..]);
    SubsequenceExtend(added, WithKinds(messages[..n]), WithKinds(messages[n..]));
  }

  /** After the save that a plan calls for: either it returned nil and the disk holds the planned records,
      or it returned `Locked`. */
  lemma SavedOrLocked(codec: Codec, box: S.Box, d: S.Disk, ms: seq<Message>, m: Message, replace: bool, sys: System)
    requires codec.Lawful() && box.Lawful() && Contributes(sys, d)
    requires forall i :: 0 <= i < |ms| ==> ValidMessage(ms[i]) && codec.encode(ms[i]).Some?
    requires AppendPlan(codec, DEFAULT_LIMITS, ms, m, replace).Write?
    ensures var records := AppendPlan(codec, DEFAULT_LIMITS, ms, m, replace).records;
            var c := HistorySave(codec, records, sys);
            && (S.SaveErrorOf(c) == if sys.fault == S.NoFault then None else Some(S.Locked))
            && (sys.fault == S.NoFault ==> HistoryOnDisk(codec, box, S.SavedDisk(box, d, c)) == Some(records))
  {
    hide S.SavedDisk;
    hide HistoryOnDisk;
    hide LeastFit;
    hide Placed;
    P.PlannedRecordsAcceptable(codec, DEFAULT_LIMITS, ms, m, replace);
    var records := AppendPlan(codec, DEFAULT_LIMITS, ms, m, replace).records;
    if sys.fault == S.NoFault {
      P.SavedHistoryReloads(codec, box, d, records, sys);
    }
  }
}
