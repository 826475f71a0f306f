/**
 Encrypted snapshots (internal/storage/snapshot.go): the file format, and `Save` as the sequence of
 file operations that a crash or an error may interrupt anywhere.
 */
module Snapshot {
  import opened Wrappers
  import opened Protocol

  newtype byte = x: int | 0 <= x < 256
  type Bytes = seq<byte>

  datatype Purpose = History | Contacts

  // ---------------------------------------------------------------- the file format

  /** An authenticated cipher: key, nonce, text and additional data. */
  datatype Cipher = Cipher(
    seal: (Bytes, Bytes, Bytes, Bytes) -> Bytes,
    open: (Bytes, Bytes, Bytes, Bytes) -> Option<Bytes>)
  {
    /** What is assumed of AES-GCM: it adds a tag of 16 bytes, opening inverts sealing, and nothing
        opens but what was sealed. */
    ghost predicate Lawful() {
      && (forall k, n, p, a :: |seal(k, n, p, a)| == |p| + TAG_SIZE)
      && (forall k, n, p, a :: open(k, n, seal(k, n, p, a), a) == Some(p))
      && (forall k, n, c, a :: open(k, n, c, a).Some? ==> seal(k, n, open(k, n, c, a).value, a) == c)
    }
  }

  const TAG_SIZE: nat := 16
  const NONCE_SIZE: nat := 12
  const MAGIC: Bytes := Ascii("BLUEPOST")
  const FORMAT_VERSION: byte := 1
  const HEADER_SIZE: nat := 21

  function Ascii(s: string): (b: Bytes)
    ensures |b| == |s|
  {
    seq(|s|, i requires 0 <= i < |s| => if s[i] < '\U{80}' then s[i] as int as byte else 0)
  }

  function AdditionalData(purpose: Purpose): Bytes {
    match purpose
    case History => Ascii("bluepost:history-v1:v1")
    case Contacts => Ascii("bluepost:contacts-v1:v1")
  }

  /** The two snapshots are sealed with different additional data. */
  lemma PurposesDiffer()
    ensures AdditionalData(History) != AdditionalData(Contacts)
  {
    assert AdditionalData(History)[9] != AdditionalData(Contacts)[9];
  }

  /** The laws can be met. */
  lemma LawfulCipherExists() returns (c: Cipher)
    ensures c.Lawful()
  {
    var tag := Ascii("0123456789abcdef");
    c := Cipher((k, n, p, a) => p + tag,
                (k, n, c, a) => if |c| >= 16 && c[|c| - 16..] == tag then Some(c[..|c| - 16]) else None);
    forall k: Bytes, n: Bytes, p: Bytes, a: Bytes ensures c.open(k, n, c.seal(k, n, p, a), a) == Some(p) {
      assert (p + tag)[|p|..] == tag && (p + tag)[..|p|] == p;
    }
  }

  /** The key and cipher of one installation. */
  datatype Box = Box(cipher: Cipher, key: Bytes) {
    ghost predicate Lawful() { cipher.Lawful() }

    function Seal(purpose: Purpose, nonce: Bytes, plaintext: Bytes): Bytes {
      MAGIC + [FORMAT_VERSION] + nonce + cipher.seal(key, nonce, plaintext, AdditionalData(purpose))
    }

    function Open(purpose: Purpose, blob: Bytes): Option<Bytes> {
      if |blob| < HEADER_SIZE + TAG_SIZE || blob[..|MAGIC|] != MAGIC || blob[|MAGIC|] != FORMAT_VERSION then None
      else cipher.open(key, blob[|MAGIC| + 1..HEADER_SIZE], blob[HEADER_SIZE..], AdditionalData(purpose))
    }

    lemma OpenInvertsSeal(purpose: Purpose, nonce: Bytes, plaintext: Bytes)
      requires Lawful() && |nonce| == NONCE_SIZE
      ensures Open(purpose, Seal(purpose, nonce, plaintext)) == Some(plaintext)
      ensures |Seal(purpose, nonce, plaintext)| == HEADER_SIZE + TAG_SIZE + |plaintext|
    {
      var blob := Seal(purpose, nonce, plaintext);
      var sealed := cipher.seal(key, nonce, plaintext, AdditionalData(purpose));
      assert blob[..|MAGIC|] == MAGIC && blob[|MAGIC| + 1..HEADER_SIZE] == nonce && blob[HEADER_SIZE..] == sealed;
    }

    /** The layout of a sealed file. */
    lemma SealedLayout(purpose: Purpose, nonce: Bytes, plaintext: Bytes)
      requires |nonce| == NONCE_SIZE
      ensures var blob := Seal(purpose, nonce, plaintext);
              && |blob| >= 21 && blob[..8] == Ascii("BLUEPOST") && blob[8] == 1 && blob[9..21] == nonce
              && blob[21..] == cipher.seal(key, nonce, plaintext, AdditionalData(purpose))
    {
    }

    /** Only sealed files open: the plaintext determines the file up to its nonce. */
    lemma OpenedWasSealed(purpose: Purpose, blob: Bytes)
      requires Lawful() && Open(purpose, blob).Some?
      ensures exists nonce: Bytes ::
                |nonce| == NONCE_SIZE && blob == Seal(purpose, nonce, Open(purpose, blob).value)
    {
      var nonce := blob[|MAGIC| + 1..HEADER_SIZE];
      assert blob == MAGIC + [FORMAT_VERSION] + nonce + blob[HEADER_SIZE..];
      assert blob == Seal(purpose, nonce, Open(purpose, blob).value);
    }
  }

  // ---------------------------------------------------------------- the disk

  type FileId = nat

  /** Data that was not synchronised is lost or torn by a crash. */
  datatype File = File(data: Bytes, synced: bool)

  /** The directory entry of one snapshot: the file it names now, and those it may name after a crash. */
  datatype Entry = Entry(now: Option<FileId>, afterCrash: set<Option<FileId>>)

  datatype Disk = Disk(files: map<FileId, File>, history: Entry, contacts: Entry) {
    function At(purpose: Purpose): Entry { if purpose == History then history else contacts }

    function SetEntry(purpose: Purpose, entry: Entry): Disk {
      if purpose == History then this.(history := entry) else this.(contacts := entry)
    }

    function Rename(purpose: Purpose, id: FileId): Disk {
      SetEntry(purpose, Entry(Some(id), At(purpose).afterCrash + {Some(id)}))
    }

    function SyncDirectory(): Disk {
      this.(history := Entry(history.now, {history.now}), contacts := Entry(contacts.now, {contacts.now}))
    }
  }

  /** A crash: every entry becomes one of those possible, synchronised files survive as they are, and
      nothing is said of the others. */
  ghost predicate Crash(d: Disk, d': Disk) {
    && (forall p: Purpose :: d'.At(p).now in d.At(p).afterCrash && d'.At(p).afterCrash == {d'.At(p).now})
    && (forall id :: id in d.files && d.files[id].synced ==> id in d'.files && d'.files[id] == d.files[id])
  }

  // ---------------------------------------------------------------- load

  datatype LoadResult = Loaded(plaintext: Option<Bytes>) | LoadLocked

  /** `Load` without operating-system errors; `None` is the missing file. */
  function Load(box: Box, d: Disk, purpose: Purpose): LoadResult {
    match d.At(purpose).now
    case None => Loaded(None)
    case Some(id) =>
      if id !in d.files || |d.files[id].data| > HEADER_SIZE + TAG_SIZE + MAX_HISTORY_BYTES then LoadLocked
      else
        var plaintext := box.Open(purpose, d.files[id].data);
        if plaintext.Some? then Loaded(plaintext) else LoadLocked
  }

  // ---------------------------------------------------------------- save

  /** Where `Save` fails, if it does. A failing write leaves a prefix of the file behind. */
  datatype Fault = NoFault | AtDirectory | AtTarget | AtNonce | AtCreate | AtChmod | AtWrite(written: nat)
                 | AtSync | AtClose | AtRename | AtOpenDirectory | AtSyncDirectory

  datatype SaveError = PlaintextTooLarge | Locked

  /** One call of `Save`: what the system contributes is the nonce, the name of the temporary file, the
      fault, and whether the temporary file can be removed when it was not renamed. */
  datatype SaveCall = SaveCall(purpose: Purpose, plaintext: Bytes, nonce: Bytes, temp: FileId, fault: Fault, removed: bool) {
    predicate Possible(d: Disk) { |nonce| == NONCE_SIZE && temp !in d.files }
  }

  /** The disk after the first `n` of: create, write, sync, rename, directory sync. */
  function AfterStages(box: Box, d: Disk, c: SaveCall, n: nat): Disk
    requires n <= 5
  {
    var blob := box.Seal(c.purpose, c.nonce, c.plaintext);
    match n
    case 0 => d
    case 1 => d.(files := d.files[c.temp := File([], false)])
    case 2 => d.(files := d.files[c.temp := File(blob, false)])
    case 3 => d.(files := d.files[c.temp := File(blob, true)])
    case 4 => d.(files := d.files[c.temp := File(blob, true)]).Rename(c.purpose, c.temp)
    case 5 => d.(files := d.files[c.temp := File(blob, true)]).Rename(c.purpose, c.temp).SyncDirectory()
  }

  /** The number of stages completed before the fault. */
  function StagesDone(fault: Fault): (n: nat)
    ensures n <= 5
  {
    match fault
    case NoFault => 5
    case AtDirectory => 0
    case AtTarget => 0
    case AtNonce => 0
    case AtCreate => 0
    case AtChmod => 1
    case AtWrite(_) => 1
    case AtSync => 2
    case AtClose => 3
    case AtRename => 3
    case AtOpenDirectory => 4
    case AtSyncDirectory => 4
  }

  function SaveErrorOf(c: SaveCall): Option<SaveError> {
    if |c.plaintext| > MAX_HISTORY_BYTES then Some(PlaintextTooLarge)
    else if c.fault == NoFault then None
    else Some(Locked)
  }

  /** What a partly failed write leaves in the temporary file. */
  function TornWrite(box: Box, d: Disk, c: SaveCall, written: nat): Disk {
    var blob := box.Seal(c.purpose, c.nonce, c.plaintext);
    d.(files := d.files[c.temp := File(blob[..if written < |blob| then written else |blob|], false)])
  }

  /** The disk when `Save` returns: a temporary file that was not renamed has been removed again, if it could be. */
  function SavedDisk(box: Box, d: Disk, c: SaveCall): Disk {
    if SaveErrorOf(c) == Some(PlaintextTooLarge) || (!Renames(c) && c.removed) then d
    else if c.fault.AtWrite? then TornWrite(box, d, c, c.fault.written)
    else AfterStages(box, d, c, StagesDone(c.fault))
  }

  /** The save gets as far as the rename. */
  predicate Renames(c: SaveCall) { SaveErrorOf(c) != Some(PlaintextTooLarge) && StagesDone(c.fault) >= 4 }

  /** Every state in which a crash can find the disk from the call of `Save` to its return. */
  ghost predicate During(box: Box, d: Disk, c: SaveCall, d': Disk) {
    || d' == d
    || (SaveErrorOf(c) != Some(PlaintextTooLarge) && exists n :: 0 <= n <= StagesDone(c.fault) && d' == AfterStages(box, d, c, n))
    || (c.fault.AtWrite? && d' == TornWrite(box, d, c, c.fault.written))
  }

  /** The directory that holds the snapshots. `trace` records every state the disk goes through. */
  class Store {
    const box: Box
    var disk: Disk
    ghost var trace: seq<Disk>

    constructor (box: Box, disk: Disk)
      ensures this.box == box && this.disk == disk && trace == [disk]
    {
      this.box, this.disk, trace := box, disk, [disk];
    }

    method Set(d: Disk)
      modifies this
      ensures disk == d && trace == old(trace) + [d]
    {
      disk := d;
      trace := trace + [d];
    }

    /** `Save`, with its early returns and the deferred removal of an unrenamed temporary file. */
    method Save(c: SaveCall) returns (err: Option<SaveError>)
      requires c.Possible(disk)
      modifies this
      ensures err == SaveErrorOf(c)
      ensures disk == SavedDisk(box, old(disk), c)
      ensures |old(trace)| <= |trace| && trace[..|old(trace)|] == old(trace)
      ensures forall n :: |old(trace)| <= n < |trace| ==> During(box, old(disk), c, trace[n])
    {
      hide Box.Seal;
      ghost var before, d0 := trace, disk;
      if |c.plaintext| > MAX_HISTORY_BYTES {
        return Some(PlaintextTooLarge);
      }
      if c.fault.AtDirectory? || c.fault.AtTarget? || c.fault.AtNonce? {
        return Some(Locked);
      }
      var blob := box.Seal(c.purpose, c.nonce, c.plaintext);
      if c.fault.AtCreate? {
        return Some(Locked);
      }
      Set(disk.(files := disk.files[c.temp := File([], false)]));
      assert disk == AfterStages(box, d0, c, 1);
      if c.fault.AtChmod? {
        RemoveTemporary(c.temp, c.removed);
        assert c.removed ==> disk.files == d0.files;
        return Some(Locked);
      }
      if c.fault.AtWrite? {
        var written := if c.fault.written < |blob| then c.fault.written else |blob|;
        Set(disk.(files := disk.files[c.temp := File(blob[..written], false)]));
        assert disk.files == TornWrite(box, d0, c, c.fault.written).files;
        RemoveTemporary(c.temp, c.removed);
        assert c.removed ==> disk.files == d0.files;
        return Some(Locked);
      }
      Set(disk.(files := disk.files[c.temp := File(blob, false)]));
      assert disk.files == AfterStages(box, d0, c, 2).files;
      if c.fault.AtSync? {
        RemoveTemporary(c.temp, c.removed);
        assert c.removed ==> disk.files == d0.files;
        return Some(Locked);
      }
      Set(disk.(files := disk.files[c.temp := File(blob, true)]));
      assert disk.files == AfterStages(box, d0, c, 3).files;
      if c.fault.AtClose? || c.fault.AtRename? {
        RemoveTemporary(c.temp, c.removed);
        assert c.removed ==> disk.files == d0.files;
        return Some(Locked);
      }
      Set(disk.Rename(c.purpose, c.temp));
      assert disk == AfterStages(box, d0, c, 4);
      if c.fault.AtOpenDirectory? || c.fault.AtSyncDirectory? {
        return Some(Locked);
      }
      Set(disk.SyncDirectory());
      assert disk == AfterStages(box, d0, c, 5);
      return None;
    }

    /** The deferred removal; its error is ignored. */
    method RemoveTemporary(temp: FileId, removed: bool)
      modifies this
      ensures disk == if removed then old(disk).(files := old(disk.files) - {temp}) else old(disk)
      ensures trace == if removed then old(trace) + [disk] else old(trace)
    {
      if removed {
        Set(disk.(files := disk.files - {temp}));
      }
    }

    method LoadSnapshot(purpose: Purpose, fault: bool) returns (r: LoadResult)
      ensures r == if fault then LoadLocked else Load(box, disk, purpose)
    {
      if fault {
        return LoadLocked;
      }
      match disk.At(purpose).now {
        case None => return Loaded(None);
        case Some(id) =>
          if id !in disk.files {
            return LoadLocked;
          }
          var blob := disk.files[id].data;
          if |blob| > HEADER_SIZE + TAG_SIZE + MAX_HISTORY_BYTES {
            return LoadLocked;
          }
          var plaintext := box.Open(purpose, blob);
          if plaintext.None? {
            return LoadLocked;
          }
          return Loaded(plaintext);
      }
    }
  }
}
