/** What reloading gives after errors and crashes at any point of `Save` (internal/storage/snapshot.go). */
module CrashSafety {
  import opened Wrappers
  import opened Protocol
  import opened Snapshot

  /** The entry names no file, or a complete, synchronised file that opens and is not too large to load. */
  predicate Readable(box: Box, d: Disk, p: Purpose, e: Option<FileId>) {
    e.Some? ==>
      && e.value in d.files && d.files[e.value].synced
      && |d.files[e.value].data| <= HEADER_SIZE + TAG_SIZE + MAX_HISTORY_BYTES
      && box.Open(p, d.files[e.value].data).Some?
  }

  function Text(box: Box, d: Disk, p: Purpose, e: Option<FileId>): Option<Bytes>
    requires Readable(box, d, p, e)
  {
    if e.None? then None else box.Open(p, d.files[e.value].data)
  }

  predicate GoodEntry(box: Box, d: Disk, p: Purpose) {
    && d.At(p).now in d.At(p).afterCrash
    && forall e :: e in d.At(p).afterCrash ==> Readable(box, d, p, e)
  }

  /** Whatever a crash leaves of each snapshot can be read. */
  ghost predicate Good(box: Box, d: Disk) { forall p: Purpose :: GoodEntry(box, d, p) }

  /** The plaintexts a crash may leave. */
  ghost function Possible(box: Box, d: Disk, p: Purpose): set<Option<Bytes>>
    requires GoodEntry(box, d, p)
  {
    set e | e in d.At(p).afterCrash :: Text(box, d, p, e)
  }

  const EMPTY_DISK := Disk(map[], Entry(None, {None}), Entry(None, {None}))

  /** A file that does not exist yet can change without any effect on what is readable. */
  lemma OtherFileIrrelevant(box: Box, d: Disk, temp: FileId, file: File, p: Purpose)
    requires GoodEntry(box, d, p) && temp !in d.files
    ensures var d' := d.(files := d.files[temp := file]);
            GoodEntry(box, d', p) && Possible(box, d', p) == Possible(box, d, p)
  {
    var d' := d.(files := d.files[temp := file]);
    forall e | e in d.At(p).afterCrash ensures Readable(box, d', p, e) && Text(box, d', p, e) == Text(box, d, p, e) {
      assert Readable(box, d, p, e);
    }
    assert Possible(box, d', p) == Possible(box, d, p);
  }

  lemma NewFileReadable(box: Box, d: Disk, c: SaveCall)
    requires box.Lawful() && c.Possible(d) && |c.plaintext| <= MAX_HISTORY_BYTES
    ensures var blob := box.Seal(c.purpose, c.nonce, c.plaintext);
            var d' := d.(files := d.files[c.temp := File(blob, true)]);
            && Readable(box, d', c.purpose, Some(c.temp))
            && Text(box, d', c.purpose, Some(c.temp)) == Some(c.plaintext)
  {
    box.OpenInvertsSeal(c.purpose, c.nonce, c.plaintext);
  }

  /** After the first `n` stages: before the rename the old plaintexts are possible, after it also the
      new one, and after the directory sync only the new one. */
  lemma StagesArePossible(box: Box, d: Disk, c: SaveCall, n: nat, p: Purpose)
    requires box.Lawful() && Good(box, d) && c.Possible(d) && |c.plaintext| <= MAX_HISTORY_BYTES && n <= 5
    ensures GoodEntry(box, AfterStages(box, d, c, n), p)
    ensures p != c.purpose || n < 4 ==>
              Possible(box, AfterStages(box, d, c, n), p) <= Possible(box, d, p)
    ensures p == c.purpose && n == 4 ==>
              Possible(box, AfterStages(box, d, c, n), p) == Possible(box, d, p) + {Some(c.plaintext)}
    ensures p == c.purpose && n == 5 ==> Possible(box, AfterStages(box, d, c, n), p) == {Some(c.plaintext)}
  {
    hide Box.Seal;
    hide Box.Open;
    var blob := box.Seal(c.purpose, c.nonce, c.plaintext);
    assert GoodEntry(box, d, p);
    if n == 0 {
    } else if n == 1 {
      OtherFileIrrelevant(box, d, c.temp, File([], false), p);
    } else if n == 2 {
      OtherFileIrrelevant(box, d, c.temp, File(blob, false), p);
    } else {
      OtherFileIrrelevant(box, d, c.temp, File(blob, true), p);
      NewFileReadable(box, d, c);
      var d3 := d.(files := d.files[c.temp := File(blob, true)]);
      assert AfterStages(box, d, c, 3) == d3;
      RenameAdds(box, d3, c.purpose, c.temp, p);
      var d4 := d3.Rename(c.purpose, c.temp);
      assert AfterStages(box, d, c, 4) == d4;
      SyncKeepsCurrent(box, d4, p);
      assert AfterStages(box, d, c, 5) == d4.SyncDirectory();
    }
  }

  lemma RenameAdds(box: Box, d: Disk, target: Purpose, id: FileId, p: Purpose)
    requires GoodEntry(box, d, p) && Readable(box, d, target, Some(id))
    ensures GoodEntry(box, d.Rename(target, id), p)
    ensures Possible(box, d.Rename(target, id), p)
         == Possible(box, d, p) + (if p == target then {Text(box, d, p, Some(id))} else {})
    ensures p == target ==> d.Rename(target, id).At(p).now == Some(id)
  {
    hide Box.Open;
    var d' := d.Rename(target, id);
    assert d'.files == d.files;
    forall e | e in d'.At(p).afterCrash ensures Readable(box, d', p, e) {
      assert e in d.At(p).afterCrash || (p == target && e == Some(id));
    }
    assert d'.At(p).afterCrash == d.At(p).afterCrash + (if p == target then {Some(id)} else {});
  }

  lemma SyncKeepsCurrent(box: Box, d: Disk, p: Purpose)
    requires GoodEntry(box, d, p)
    ensures GoodEntry(box, d.SyncDirectory(), p)
    ensures Possible(box, d.SyncDirectory(), p) == {Text(box, d, p, d.At(p).now)}
    ensures Possible(box, d.SyncDirectory(), p) <= Possible(box, d, p)
  {
    hide Box.Open;
    assert d.SyncDirectory().At(p) == Entry(d.At(p).now, {d.At(p).now});
  }

  /** Every state the disk goes through during `Save`. */
  lemma DuringIsPossible(box: Box, d: Disk, c: SaveCall, d': Disk, p: Purpose)
    requires box.Lawful() && Good(box, d) && c.Possible(d) && During(box, d, c, d')
    ensures GoodEntry(box, d', p)
    ensures Possible(box, d', p) <=
              Possible(box, d, p) + (if p == c.purpose && |c.plaintext| <= MAX_HISTORY_BYTES then {Some(c.plaintext)} else {})
  {
    assert GoodEntry(box, d, p);
    if c.fault.AtWrite? && d' == TornWrite(box, d, c, c.fault.written) {
      var blob := box.Seal(c.purpose, c.nonce, c.plaintext);
      var written := if c.fault.written < |blob| then c.fault.written else |blob|;
      OtherFileIrrelevant(box, d, c.temp, File(blob[..written], false), p);
    } else if d' != d {
      var n :| 0 <= n <= StagesDone(c.fault) && d' == AfterStages(box, d, c, n);
      StagesArePossible(box, d, c, n, p);
    }
  }

  /** Reloading after a crash gives one of the possible plaintexts, and from then on that one. */
  lemma CrashLoads(box: Box, d: Disk, d': Disk, p: Purpose)
    requires GoodEntry(box, d, p) && Crash(d, d')
    ensures GoodEntry(box, d', p)
    ensures Load(box, d', p).Loaded? && Load(box, d', p).plaintext in Possible(box, d, p)
    ensures Possible(box, d', p) == {Load(box, d', p).plaintext}
  {
    hide Box.Open;
    var e := d'.At(p).now;
    assert e in d.At(p).afterCrash && d'.At(p).afterCrash == {e};
    assert Readable(box, d, p, e);
    assert Readable(box, d', p, e) && Text(box, d', p, e) == Text(box, d, p, e);
  }

  // ---------------------------------------------------------------- main results

  /** A crash anywhere inside `Save`, of a snapshot whose last plaintext is `old`, leaves exactly the
      old or the new plaintext; the other snapshot keeps what it had. */
  lemma CrashLeavesOldOrNew(box: Box, d: Disk, c: SaveCall, middle: Disk, crashed: Disk, prior: Option<Bytes>)
    requires box.Lawful() && Good(box, d) && c.Possible(d)
    requires Possible(box, d, c.purpose) == {prior}
    requires During(box, d, c, middle) && Crash(middle, crashed)
    ensures Load(box, crashed, c.purpose) in {Loaded(prior), Loaded(Some(c.plaintext))}
    ensures forall q: Purpose :: q != c.purpose ==>
              Load(box, crashed, q).Loaded? && GoodEntry(box, d, q) && Load(box, crashed, q).plaintext in Possible(box, d, q)
  {
    DuringIsPossible(box, d, c, middle, c.purpose);
    CrashLoads(box, middle, crashed, c.purpose);
    forall q: Purpose | q != c.purpose
      ensures Load(box, crashed, q).Loaded? && GoodEntry(box, d, q) && Load(box, crashed, q).plaintext in Possible(box, d, q)
    {
      DuringIsPossible(box, d, c, middle, q);
      CrashLoads(box, middle, crashed, q);
    }
  }

  lemma SavedDuring(box: Box, d: Disk, c: SaveCall)
    ensures During(box, d, c, SavedDisk(box, d, c))
  {
  }

  /** A save that did not get as far as the rename changes nothing that is or could be loaded, even if its
      temporary file stays behind. */
  lemma UnrenamedIrrelevant(box: Box, d: Disk, c: SaveCall, p: Purpose)
    requires GoodEntry(box, d, p) && c.Possible(d) && !Renames(c)
    ensures var d' := SavedDisk(box, d, c);
            && GoodEntry(box, d', p) && Possible(box, d', p) == Possible(box, d, p)
            && Load(box, d', p) == Load(box, d, p)
  {
    hide Box.Seal;
    hide Box.Open;
    var d' := SavedDisk(box, d, c);
    if d' != d {
      assert d' == d.(files := d.files[c.temp := d'.files[c.temp]]);
      OtherFileIrrelevant(box, d, c.temp, d'.files[c.temp], p);
      assert Readable(box, d, p, d.At(p).now);
    }
  }

  /** `Save` returning nil: now, and after any later crash, the new plaintext is what loads. An error
      before the rename leaves everything that loads, now or after a crash, as it was; any other error is
      `Locked` and leaves the new plaintext in place, though a crash may still bring back an earlier one. */
  lemma SaveOutcome(box: Box, d: Disk, c: SaveCall)
    requires box.Lawful() && Good(box, d) && c.Possible(d)
    ensures var d', p := SavedDisk(box, d, c), c.purpose;
            && Good(box, d')
            && (SaveErrorOf(c).None? ==>
                  Load(box, d', p) == Loaded(Some(c.plaintext)) && Possible(box, d', p) == {Some(c.plaintext)})
            && (SaveErrorOf(c).Some? && !Renames(c) ==>
                  && (c.removed ==> d' == d)
                  && forall q: Purpose :: GoodEntry(box, d, q) ==>
                       Load(box, d', q) == Load(box, d, q) && Possible(box, d', q) == Possible(box, d, q))
            && (SaveErrorOf(c).Some? && Renames(c) ==>
                  && SaveErrorOf(c) == Some(Locked) && Load(box, d', p) == Loaded(Some(c.plaintext))
                  && Possible(box, d', p) == Possible(box, d, p) + {Some(c.plaintext)})
  {
    var d', p := SavedDisk(box, d, c), c.purpose;
    SavedDuring(box, d, c);
    forall q: Purpose ensures GoodEntry(box, d', q) {
      DuringIsPossible(box, d, c, d', q);
    }
    if Renames(c) {
      StagesArePossible(box, d, c, StagesDone(c.fault), p);
      NewFileReadable(box, d, c);
      NowNamesNewFile(box, d, c);
    } else {
      forall q: Purpose
        ensures Load(box, d', q) == Load(box, d, q) && GoodEntry(box, d, q) && Possible(box, d', q) == Possible(box, d, q)
      {
        assert GoodEntry(box, d, q);
        UnrenamedIrrelevant(box, d, c, q);
      }
    }
  }

  lemma NowNamesNewFile(box: Box, d: Disk, c: SaveCall)
    requires StagesDone(c.fault) >= 4
    ensures var d' := AfterStages(box, d, c, StagesDone(c.fault));
            && d'.At(c.purpose).now == Some(c.temp)
            && d'.files == d.files[c.temp := File(box.Seal(c.purpose, c.nonce, c.plaintext), true)]
  {
  }

  // ---------------------------------------------------------------- whole runs

  /** One snapshot's specification: the last plaintext whose `Save` returned nil, and the plaintexts of
      the `Save` calls made since. */
  datatype Log = Log(acked: Option<Bytes>, since: set<Bytes>)

  datatype World = World(disk: Disk, history: Log, contacts: Log) {
    function At(p: Purpose): Log { if p == History then history else contacts }

    function SetLog(p: Purpose, log: Log): World {
      if p == History then this.(history := log) else this.(contacts := log)
    }
  }

  datatype Event = Save(c: SaveCall) | CrashInSave(c: SaveCall, middle: Disk, crashed: Disk) | CrashIdle(crashed: Disk)

  ghost predicate EventPossible(box: Box, w: World, e: Event) {
    match e
    case Save(c) => c.Possible(w.disk)
    case CrashInSave(c, middle, crashed) => c.Possible(w.disk) && During(box, w.disk, c, middle) && Crash(middle, crashed)
    case CrashIdle(crashed) => Crash(w.disk, crashed)
  }

  function Attempted(log: Log, plaintext: Bytes): Log { log.(since := log.since + {plaintext}) }

  function After(box: Box, w: World, e: Event): World {
    match e
    case Save(c) =>
      w.(disk := SavedDisk(box, w.disk, c)).SetLog(
        c.purpose, if SaveErrorOf(c).None? then Log(Some(c.plaintext), {}) else Attempted(w.At(c.purpose), c.plaintext))
    case CrashInSave(c, _, crashed) =>
      w.(disk := crashed).SetLog(c.purpose, Attempted(w.At(c.purpose), c.plaintext))
    case CrashIdle(crashed) => w.(disk := crashed)
  }

  ghost predicate IsRun(box: Box, worlds: seq<World>, events: seq<Event>) {
    && |worlds| == |events| + 1
    && worlds[0] == World(EMPTY_DISK, Log(None, {}), Log(None, {}))
    && forall n :: 0 <= n < |events| ==> EventPossible(box, worlds[n], events[n]) && worlds[n + 1] == After(box, worlds[n], events[n])
  }

  predicate Allowed(log: Log, text: Option<Bytes>) { text == log.acked || (text.Some? && text.value in log.since) }

  ghost predicate LogInv(box: Box, w: World, p: Purpose) {
    GoodEntry(box, w.disk, p) && forall t :: t in Possible(box, w.disk, p) ==> Allowed(w.At(p), t)
  }

  lemma EventKeepsLog(box: Box, w: World, e: Event, p: Purpose)
    requires box.Lawful() && EventPossible(box, w, e) && forall q: Purpose :: LogInv(box, w, q)
    ensures LogInv(box, After(box, w, e), p)
  {
    hide Box.Open;
    hide Box.Seal;
    assert LogInv(box, w, p);
    assert Good(box, w.disk) by {
      forall q: Purpose ensures GoodEntry(box, w.disk, q) {
        assert LogInv(box, w, q);
      }
    }
    match e {
      case Save(c) =>
        SaveOutcome(box, w.disk, c);
        SavedDuring(box, w.disk, c);
        DuringIsPossible(box, w.disk, c, SavedDisk(box, w.disk, c), p);
      case CrashInSave(c, middle, crashed) =>
        DuringIsPossible(box, w.disk, c, middle, p);
        CrashLoads(box, middle, crashed, p);
      case CrashIdle(crashed) =>
        CrashLoads(box, w.disk, crashed, p);
    }
  }

  lemma {:induction false} RunKeepsLog(box: Box, worlds: seq<World>, events: seq<Event>, n: nat, p: Purpose)
    requires box.Lawful() && IsRun(box, worlds, events) && n < |worlds|
    ensures LogInv(box, worlds[n], p)
    decreases n
  {
    if n == 0 {
      assert EMPTY_DISK.At(p) == Entry(None, {None});
    } else {
      var w := worlds[n - 1];
      forall q: Purpose ensures LogInv(box, w, q) {
        RunKeepsLog(box, worlds, events, n - 1, q);
      }
      EventKeepsLog(box, w, events[n - 1], p);
    }
  }

  /** Over any run of saves, errors and crashes, and in any process lifetime, what loads is the plaintext
      of the last acknowledged `Save` or of one attempted after it: never torn, never older, never lost. */
  lemma NeverOlderThanAcknowledged(box: Box, worlds: seq<World>, events: seq<Event>, n: nat, p: Purpose)
    requires box.Lawful() && IsRun(box, worlds, events) && n < |worlds|
    ensures var r := Load(box, worlds[n].disk, p); r.Loaded? && Allowed(worlds[n].At(p), r.plaintext)
  {
    RunKeepsLog(box, worlds, events, n, p);
    var d := worlds[n].disk;
    assert Readable(box, d, p, d.At(p).now);
    assert Text(box, d, p, d.At(p).now) in Possible(box, d, p);
  }
}
