/** The history in memory and on disk (internal/storage/repository.go, internal/storage/snapshot.go). */
module Persistence {
  import opened Wrappers
  import opened Model
  import opened Protocol
  import opened History
  import opened Repository
  import S = Snapshot
  import C = CrashSafety
  import Book = ContactBook

  /** Whatever `appendMessage` decides to write is acceptable to `Open`. */
  lemma PlannedRecordsAcceptable(codec: Codec, lim: Limits, ms: seq<Message>, m: Message, replace: bool)
    requires forall i :: 0 <= i < |ms| ==> ValidMessage(ms[i]) && codec.encode(ms[i]).Some?
    ensures var plan := AppendPlan(codec, lim, ms, m, replace); plan.Write? ==> Acceptable(codec, lim, plan.records)
  {
    hide ValidMessage;
    hide Fits;
    var plan := AppendPlan(codec, lim, ms, m, replace);
    if plan.Write? {
      PlanKeepsLongestSuffix(codec, lim, ms, m, replace);
      WrittenIsEncodable(codec, lim, ms, m, replace);
      PlacedMembers(ms, m);
      hide AppendPlan;
      hide Placed;
      forall i | 0 <= i < |plan.records|
        ensures ValidMessage(plan.records[i]) && codec.encode(plan.records[i]).Some?
      {
        assert plan.records[i] == Placed(ms, m)[|plan.evicted| + i];
      }
    }
  }

  lemma WrittenIsEncodable(codec: Codec, lim: Limits, ms: seq<Message>, m: Message, replace: bool)
    ensures AppendPlan(codec, lim, ms, m, replace).Write? ==> ValidMessage(m) && codec.encode(m).Some?
  {
  }

  lemma PlacedMembers(ms: seq<Message>, m: Message)
    ensures forall i :: 0 <= i < |Placed(ms, m)| ==> Placed(ms, m)[i] == m || (i < |ms| && Placed(ms, m)[i] == ms[i])
  {
  }

  /** Once the rename has happened, loading gives the saved plaintext, also if `Save` then fails. */
  lemma RenamedLoads(box: S.Box, d: S.Disk, c: S.SaveCall)
    requires box.Lawful() && c.Possible(d) && |c.plaintext| <= MAX_HISTORY_BYTES && S.StagesDone(c.fault) >= 4
    ensures S.Load(box, S.SavedDisk(box, d, c), c.purpose) == S.Loaded(Some(c.plaintext))
  {
    C.NowNamesNewFile(box, d, c);
    C.NewFileReadable(box, d, c);
  }

  /** Saving one snapshot does not change what the other one loads, and a save that fails before its rename
      changes nothing that loads. */
  lemma OtherSnapshotUntouched(box: S.Box, d: S.Disk, c: S.SaveCall, p: S.Purpose)
    requires c.Possible(d) && (p != c.purpose || !S.Renames(c)) && S.Load(box, d, p).Loaded?
    ensures S.Load(box, S.SavedDisk(box, d, c), p) == S.Load(box, d, p)
  {
    hide S.Box.Open;
    hide S.Box.Seal;
    var d' := S.SavedDisk(box, d, c);
    assert d'.At(p).now == d.At(p).now;
    assert forall id :: id in d.files ==> id in d'.files && d'.files[id] == d.files[id];
  }

  /** A saved history reloads as the very records that were saved, also if `Save` then fails. */
  lemma SavedHistoryReloads(codec: Codec, box: S.Box, d: S.Disk, records: seq<Message>, sys: System)
    requires codec.Lawful() && box.Lawful() && Contributes(sys, d)
    requires codec.Encodable(records) && |Envelope(codec.Encodings(records))| <= MAX_HISTORY_BYTES
    requires S.StagesDone(sys.fault) >= 4
    ensures var d' := S.SavedDisk(box, d, HistorySave(codec, records, sys));
            HistoryOnDisk(codec, box, d') == Some(records)
  {
    hide S.SavedDisk;
    hide S.Load;
    RenamedLoads(box, d, HistorySave(codec, records, sys));
  }

  lemma SavedContactsKeepHistory(codec: Codec, box: S.Box, d: S.Disk, contacts: seq<Contact>, sys: System)
    requires Contributes(sys, d) && HistoryOnDisk(codec, box, d).Some?
    ensures var d' := S.SavedDisk(box, d, ContactsSave(codec, contacts, sys));
            HistoryOnDisk(codec, box, d') == HistoryOnDisk(codec, box, d)
  {
    hide S.SavedDisk;
    hide S.Load;
    OtherSnapshotUntouched(box, d, ContactsSave(codec, contacts, sys), S.History);
  }

  lemma UnrenamedKeepsHistory(codec: Codec, box: S.Box, d: S.Disk, c: S.SaveCall)
    requires c.Possible(d) && !S.Renames(c) && HistoryOnDisk(codec, box, d).Some?
    ensures HistoryOnDisk(codec, box, S.SavedDisk(box, d, c)) == HistoryOnDisk(codec, box, d)
  {
    hide S.SavedDisk;
    hide S.Load;
    OtherSnapshotUntouched(box, d, c, S.History);
  }

  // ---------------------------------------------------------------- what this program writes

  /** Records that `Open` accepts and whose handles identify them. */
  predicate GoodRecords(codec: Codec, lim: Limits, ms: seq<Message>) {
    Acceptable(codec, lim, ms) && UniqueHandles(ms)
  }

  predicate GoodHistory(codec: Codec, lim: Limits, text: Option<Bytes>) {
    var ms := DecodedHistory(codec, text);
    ms.Some? && GoodRecords(codec, lim, ms.value)
  }

  predicate GoodContacts(codec: Codec, text: Option<Bytes>) {
    var cs := DecodedContacts(codec, text);
    cs.Some? && AcceptableContacts(cs.value)
  }

  predicate GoodText(codec: Codec, lim: Limits, p: S.Purpose, text: Option<Bytes>) {
    if p == S.History then GoodHistory(codec, lim, text) else GoodContacts(codec, text)
  }

  /** Whatever a crash leaves of either snapshot can be read, decoded and accepted, and the handles of the
      history are unique. */
  ghost predicate Written(codec: Codec, lim: Limits, box: S.Box, d: S.Disk) {
    && C.Good(box, d)
    && forall p: S.Purpose, t :: C.GoodEntry(box, d, p) && t in C.Possible(box, d, p) ==> GoodText(codec, lim, p, t)
  }

  lemma EmptyDiskWritten(codec: Codec, lim: Limits, box: S.Box)
    requires lim.records >= 0 && lim.bytes >= 25
    ensures Written(codec, lim, box, C.EMPTY_DISK)
    ensures HistoryOnDisk(codec, box, C.EMPTY_DISK) == Some([])
  {
    hide ValidMessage;
    hide ValidContact;
    SizeIsExact(codec.Encodings([]));
  }

  /** Saving a good text keeps the disk good at every moment from the call of `Save` on. */
  lemma SaveKeepsWritten(codec: Codec, lim: Limits, box: S.Box, d: S.Disk, c: S.SaveCall, middle: S.Disk)
    requires box.Lawful() && Written(codec, lim, box, d) && c.Possible(d)
    requires GoodText(codec, lim, c.purpose, Some(c.plaintext)) && S.During(box, d, c, middle)
    ensures Written(codec, lim, box, middle)
  {
    hide S.During;
    hide GoodText;
    hide C.GoodEntry;
    hide C.Possible;
    forall p: S.Purpose
      ensures C.GoodEntry(box, middle, p)
      ensures forall t :: t in C.Possible(box, middle, p) ==> GoodText(codec, lim, p, t)
    {
      C.DuringIsPossible(box, d, c, middle, p);
      assert C.GoodEntry(box, d, p);
    }
  }

  lemma CrashKeepsWritten(codec: Codec, lim: Limits, box: S.Box, d: S.Disk, crashed: S.Disk)
    requires Written(codec, lim, box, d) && S.Crash(d, crashed)
    ensures Written(codec, lim, box, crashed)
  {
    hide S.Crash;
    hide S.Load;
    hide GoodText;
    hide C.GoodEntry;
    hide C.Possible;
    forall p: S.Purpose
      ensures C.GoodEntry(box, crashed, p)
      ensures forall t :: t in C.Possible(box, crashed, p) ==> GoodText(codec, lim, p, t)
    {
      assert C.GoodEntry(box, d, p);
      C.CrashLoads(box, d, crashed, p);
    }
  }

  lemma LoadsPossible(box: S.Box, d: S.Disk, p: S.Purpose)
    requires C.GoodEntry(box, d, p)
    ensures S.Load(box, d, p).Loaded? && S.Load(box, d, p).plaintext in C.Possible(box, d, p)
  {
    hide S.Box.Open;
    assert C.Readable(box, d, p, d.At(p).now);
    assert C.Text(box, d, p, d.At(p).now) in C.Possible(box, d, p);
  }

  /** `Open` accepts such a disk, and loads unique handles. */
  lemma WrittenOpens(codec: Codec, lim: Limits, box: S.Box, d: S.Disk)
    requires Written(codec, lim, box, d)
    ensures Openable(codec, lim, box, d)
    ensures GoodRecords(codec, lim, HistoryOnDisk(codec, box, d).value)
  {
    hide S.Load;
    hide C.GoodEntry;
    hide C.Possible;
    hide Acceptable;
    hide AcceptableContacts;
    hide UniqueHandles;
    forall p: S.Purpose
      ensures S.Load(box, d, p).Loaded? && GoodText(codec, lim, p, S.Load(box, d, p).plaintext)
    {
      assert C.GoodEntry(box, d, p);
      LoadsPossible(box, d, p);
    }
  }

  /** What `appendMessage` saves is good again. */
  lemma PlannedTextIsGood(codec: Codec, lim: Limits, ms: seq<Message>, m: Message, replace: bool)
    requires codec.Lawful() && GoodRecords(codec, lim, ms) && AppendPlan(codec, lim, ms, m, replace).Write?
    ensures var records := AppendPlan(codec, lim, ms, m, replace).records;
            GoodRecords(codec, lim, records) && GoodHistory(codec, lim, Some(Envelope(codec.Encodings(records))))
  {
    PlannedRecordsAcceptable(codec, lim, ms, m, replace);
    PlanKeepsHandlesUnique(codec, lim, ms, m, replace);
    hide AppendPlan;
    hide UniqueHandles;
    hide ValidMessage;
    var records := AppendPlan(codec, lim, ms, m, replace).records;
    assert codec.Encodable(records);
    SizeIsExact(codec.Encodings(records));
  }

  /** What `ReplaceContacts` saves is good: sorting keeps acceptability. */
  lemma SortedContactsAreGood(codec: Codec, cs: seq<Contact>, lower: string -> string)
    requires codec.Lawful() && AcceptableContacts(cs)
    ensures var stored := Book.SortedByName(cs, lower);
            AcceptableContacts(stored) && GoodContacts(codec, Some(Envelope(codec.ContactEncodings(stored))))
  {
    hide ValidContact;
    var stored := Book.SortedByName(cs, lower);
    Book.StoredOrder(cs, lower);
    hide Book.SortedByName;
    forall i | 0 <= i < |stored| ensures ValidContact(stored[i]) {
      assert stored[i] in multiset(stored);
      assert stored[i] in multiset(cs);
    }
    assert |stored| == |multiset(stored)| == |cs|;
    SizeIsExact(codec.ContactEncodings(stored));
  }

  /** `Open` accepts every history that `appendMessage` saved, at once and after any later crash, and
      gives back exactly the records that are then in memory; the contacts only have to be such that each
      text that may load is acceptable. */
  lemma ReopenAfterAppend(codec: Codec, box: S.Box, lim: Limits, d: S.Disk, ms: seq<Message>, m: Message, replace: bool,
                          sys: System, crashed: S.Disk)
    requires codec.Lawful() && box.Lawful() && C.Good(box, d) && Contributes(sys, d)
    requires lim.bytes <= MAX_HISTORY_BYTES
    requires forall i :: 0 <= i < |ms| ==> ValidMessage(ms[i]) && codec.encode(ms[i]).Some?
    requires C.GoodEntry(box, d, S.Contacts)
    requires forall t :: t in C.Possible(box, d, S.Contacts) ==> GoodContacts(codec, t)
    requires AppendPlan(codec, lim, ms, m, replace).Write?
    requires var records := AppendPlan(codec, lim, ms, m, replace).records; var c := HistorySave(codec, records, sys);
             S.SaveErrorOf(c).None? && (crashed == S.SavedDisk(box, d, c) || S.Crash(S.SavedDisk(box, d, c), crashed))
    ensures var records := AppendPlan(codec, lim, ms, m, replace).records;
            && HistoryOnDisk(codec, box, crashed) == Some(records)
            && Openable(codec, lim, box, crashed)
  {
    hide S.SavedDisk;
    hide S.Load;
    hide LeastFit;
    hide C.Possible;
    hide C.GoodEntry;
    hide GoodContacts;
    hide S.Crash;
    PlannedRecordsAcceptable(codec, lim, ms, m, replace);
    var records := AppendPlan(codec, lim, ms, m, replace).records;
    hide AppendPlan;
    hide Acceptable;
    assert codec.Encodable(records) && |Envelope(codec.Encodings(records))| <= MAX_HISTORY_BYTES by {
      assert Acceptable(codec, lim, records);
    }
    var c := HistorySave(codec, records, sys);
    SavedHistoryReloads(codec, box, d, records, sys);
    C.SaveOutcome(box, d, c);
    C.SavedDuring(box, d, c);
    var d' := S.SavedDisk(box, d, c);
    forall p: S.Purpose
      ensures S.Load(box, crashed, p).Loaded? && S.Load(box, crashed, p).plaintext in C.Possible(box, d', p)
    {
      C.DuringIsPossible(box, d, c, d', p);
      if crashed == d' {
        LoadsPossible(box, d', p);
      } else {
        C.CrashLoads(box, d', crashed, p);
      }
    }
    ContactsLoadGood(codec, box, d, c, crashed);
    HistoryLoadsAs(codec, box, crashed, records);
    GoodHalvesOpen(codec, lim, box, crashed, records);
  }

  lemma HistoryLoadsAs(codec: Codec, box: S.Box, d: S.Disk, records: seq<Message>)
    requires codec.Lawful() && codec.Encodable(records)
    requires S.Load(box, d, S.History) == S.Loaded(Some(Envelope(codec.Encodings(records))))
    ensures HistoryOnDisk(codec, box, d) == Some(records)
  {
    hide S.Load;
  }

  lemma GoodHalvesOpen(codec: Codec, lim: Limits, box: S.Box, d: S.Disk, records: seq<Message>)
    requires HistoryOnDisk(codec, box, d) == Some(records) && Acceptable(codec, lim, records)
    requires S.Load(box, d, S.Contacts).Loaded? && GoodContacts(codec, S.Load(box, d, S.Contacts).plaintext)
    ensures Openable(codec, lim, box, d)
  {
    hide S.Load;
    hide Acceptable;
    hide AcceptableContacts;
  }

  lemma ContactsLoadGood(codec: Codec, box: S.Box, d: S.Disk, c: S.SaveCall, crashed: S.Disk)
    requires box.Lawful() && C.Good(box, d) && c.Possible(d) && c.purpose == S.History
    requires C.GoodEntry(box, d, S.Contacts)
    requires forall t :: t in C.Possible(box, d, S.Contacts) ==> GoodContacts(codec, t)
    requires S.During(box, d, c, S.SavedDisk(box, d, c)) && C.GoodEntry(box, S.SavedDisk(box, d, c), S.Contacts)
    requires S.Load(box, crashed, S.Contacts).Loaded?
    requires S.Load(box, crashed, S.Contacts).plaintext in C.Possible(box, S.SavedDisk(box, d, c), S.Contacts)
    ensures GoodContacts(codec, S.Load(box, crashed, S.Contacts).plaintext)
  {
    hide C.Possible;
    hide C.GoodEntry;
    hide S.Load;
    hide S.During;
    C.DuringIsPossible(box, d, c, S.SavedDisk(box, d, c), S.Contacts);
  }
}
