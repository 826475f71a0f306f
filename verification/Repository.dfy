/** The repository object (internal/storage/repository.go). Its mutex makes each method one step. */
module Repository {
  import opened Wrappers
  import opened Model
  import opened Protocol
  import opened History
  import opened Sequences
  import Vcard
  import S = Snapshot
  import Book = ContactBook

  /** What the system contributes to one `Save`; `removed` says whether an unrenamed temporary file can be removed. */
  datatype System = System(nonce: Bytes, temp: S.FileId, fault: S.Fault, removed: bool)

  function HistorySave(codec: Codec, records: seq<Message>, sys: System): S.SaveCall {
    S.SaveCall(S.History, Envelope(codec.Encodings(records)), sys.nonce, sys.temp, sys.fault, sys.removed)
  }

  function ContactsSave(codec: Codec, contacts: seq<Contact>, sys: System): S.SaveCall {
    S.SaveCall(S.Contacts, Envelope(codec.ContactEncodings(contacts)), sys.nonce, sys.temp, sys.fault, sys.removed)
  }

  /** A nonce has its size and a temporary file a new name. */
  predicate Contributes(sys: System, disk: S.Disk) {
    |sys.nonce| == S.NONCE_SIZE && sys.temp !in disk.files
  }

  // ---------------------------------------------------------------- what is on disk

  function DecodedHistory(codec: Codec, text: Option<Bytes>): Option<seq<Message>> {
    if text.None? || text.value == [] then Some([])
    else
      var r := codec.decode(text.value);
      if r.Some? && r.value.0 == 1 then Some(r.value.1) else None
  }

  function DecodedContacts(codec: Codec, text: Option<Bytes>): Option<seq<Contact>> {
    if text.None? || text.value == [] then Some([])
    else
      var r := codec.decodeContacts(text.value);
      if r.Some? && r.value.0 == 1 then Some(r.value.1) else None
  }

  /** The history a loader of this disk would decode. */
  function HistoryOnDisk(codec: Codec, box: S.Box, disk: S.Disk): Option<seq<Message>> {
    var r := S.Load(box, disk, S.History);
    if r.Loaded? then DecodedHistory(codec, r.plaintext) else None
  }

  function ContactsOnDisk(codec: Codec, box: S.Box, disk: S.Disk): Option<seq<Contact>> {
    var r := S.Load(box, disk, S.Contacts);
    if r.Loaded? then DecodedContacts(codec, r.plaintext) else None
  }

  /** The records are valid, can be encoded and are within the limits. */
  predicate Acceptable(codec: Codec, lim: Limits, ms: seq<Message>) {
    && (forall i :: 0 <= i < |ms| ==> ValidMessage(ms[i]) && codec.encode(ms[i]).Some?)
    && Fits(codec, lim, ms)
  }

  predicate AcceptableContacts(cs: seq<Contact>) {
    |cs| <= MAX_PHONEBOOK_CONTACTS && forall i :: 0 <= i < |cs| ==> ValidContact(cs[i])
  }

  /** Both snapshots can be loaded and decoded, and what they hold is acceptable. */
  ghost predicate Openable(codec: Codec, lim: Limits, box: S.Box, disk: S.Disk) {
    var history, contacts := HistoryOnDisk(codec, box, disk), ContactsOnDisk(codec, box, disk);
    && history.Some? && Acceptable(codec, lim, history.value)
    && contacts.Some? && AcceptableContacts(contacts.value)
  }

  /** A snapshot that is torn, tampered with or sealed under another key keeps the storage locked. */
  lemma UnreadableNotOpenable(codec: Codec, lim: Limits, box: S.Box, disk: S.Disk)
    ensures (exists p :: S.Load(box, disk, p).LoadLocked?) ==> !Openable(codec, lim, box, disk)
  {
    hide S.Load;
    if p :| S.Load(box, disk, p).LoadLocked? {
      assert p == S.History || p == S.Contacts;
    }
  }

  /** So does a history or a contact list of another schema version, or one that does not decode; an empty text is one
      without records. */
  lemma OtherSchemaNotOpenable(codec: Codec, lim: Limits, box: S.Box, disk: S.Disk, text: Bytes)
    ensures S.Load(box, disk, S.History) == S.Loaded(Some(text)) ==>
              && (text != [] && (codec.decode(text).None? || codec.decode(text).value.0 != 1) ==>
                    !Openable(codec, lim, box, disk))
              && (text == [] ==> HistoryOnDisk(codec, box, disk) == Some([]))
    ensures S.Load(box, disk, S.Contacts) == S.Loaded(Some(text)) ==>
              && (text != [] && (codec.decodeContacts(text).None? || codec.decodeContacts(text).value.0 != 1) ==>
                    !Openable(codec, lim, box, disk))
              && (text == [] ==> ContactsOnDisk(codec, box, disk) == Some([]))
  {
    hide S.Load;
  }

  // ---------------------------------------------------------------- the object

  class Repo {
    const codec: Codec
    const store: S.Store
    var messages: seq<Message>
    var messageSizes: seq<int>
    var contacts: seq<Contact>
    const lim: Limits

    /** Each recorded size is the encoded length of its record, and the limits leave room for `Save`. */
    ghost predicate Valid()
      reads this
    {
      && lim.bytes <= MAX_HISTORY_BYTES && lim.records <= MAX_HISTORY_RECORDS
      && |messages| <= MAX_HISTORY_RECORDS
      && (forall i :: 0 <= i < |messages| ==> ValidMessage(messages[i]) && codec.encode(messages[i]).Some?)
      && messageSizes == Sizes(codec.Encodings(messages))
    }

    constructor (codec: Codec, store: S.Store, lim: Limits)
      requires lim.bytes <= MAX_HISTORY_BYTES && lim.records <= MAX_HISTORY_RECORDS
      ensures Valid() && this.codec == codec && this.store == store && this.lim == lim
      ensures messages == [] && contacts == []
    {
      this.codec, this.store, this.lim := codec, store, lim;
      messages, messageSizes, contacts := [], [], [];
    }

    /** `Open`: it succeeds exactly if both snapshots load and decode and their records are acceptable,
        and then holds those records; any failure locks and changes nothing. */
    method Open(historyFault: bool, contactsFault: bool) returns (ok: bool)
      requires Valid()
      modifies this
      ensures Valid()
      ensures ok <==> !historyFault && !contactsFault && Openable(codec, lim, store.box, store.disk)
      ensures ok ==> Some(messages) == HistoryOnDisk(codec, store.box, store.disk)
      ensures ok ==> Some(contacts) == ContactsOnDisk(codec, store.box, store.disk)
      ensures !ok ==> messages == old(messages) && contacts == old(contacts)
    {
      hide ValidMessage;
      hide ValidContact;
      hide Envelope;
      hide S.Load;
      var historyBlob := store.LoadSnapshot(S.History, historyFault);
      if historyBlob.LoadLocked? {
        return false;
      }
      var contactsBlob := store.LoadSnapshot(S.Contacts, contactsFault);
      if contactsBlob.LoadLocked? {
        return false;
      }
      var history := DecodedHistory(codec, historyBlob.plaintext);
      if history.None? {
        return false;
      }
      var book := DecodedContacts(codec, contactsBlob.plaintext);
      if book.None? {
        return false;
      }
      var sizes: seq<int> := [];
      for index := 0 to |history.value|
        invariant |sizes| == index
        invariant forall i :: 0 <= i < index ==> ValidMessage(history.value[i]) && codec.encode(history.value[i]).Some?
        invariant forall i :: 0 <= i < index ==> sizes[i] == |codec.Encoding(history.value[i])|
      {
        if !ValidMessage(history.value[index]) {
          return false;
        }
        var encoded := codec.encode(history.value[index]);
        if encoded.None? {
          return false;
        }
        sizes := sizes + [|encoded.value|];
      }
      assert sizes == Sizes(codec.Encodings(history.value));
      SizeIsExact(codec.Encodings(history.value));
      var size := HistoryJsonSize(sizes);
      if |history.value| > lim.records || size > lim.bytes {
        return false;
      }
      if |book.value| > MAX_PHONEBOOK_CONTACTS {
        return false;
      }
      for index := 0 to |book.value|
        invariant forall i :: 0 <= i < index ==> ValidContact(book.value[i])
      {
        if !ValidContact(book.value[index]) {
          return false;
        }
      }
      messages, messageSizes, contacts := history.value, sizes, book.value;
      return true;
    }

    /** `appendMessage`: it carries out the plan. Memory changes only after `Save` has returned nil. */
    method AppendMessage(message: Message, replace: bool, sys: System) returns (created: bool, err: Option<AppendError>)
      requires Valid() && Contributes(sys, store.disk)
      modifies this, store
      ensures Valid() && contacts == old(contacts)
      ensures match AppendPlan(codec, lim, old(messages), message, replace)
              case Reject(e) => !created && err == Some(e) && messages == old(messages) && store.disk == old(store.disk)
              case KeepKnown => !created && err == None && messages == old(messages) && store.disk == old(store.disk)
              case Write(records, isNew, _) =>
                var call := HistorySave(codec, records, sys);
                && store.disk == S.SavedDisk(store.box, old(store.disk), call)
                && S.SaveErrorOf(call) != Some(S.PlaintextTooLarge)
                && (match S.SaveErrorOf(call)
                    case None => created == isNew && err == None && messages == records
                    case Some(e) => !created && err == Some(SaveFailed(e)) && messages == old(messages))
    {
      hide ValidMessage;
      hide Envelope;
      hide LeastFit;
      hide Placed;
      hide S.StagesDone;
      hide Sizes;
      hide Codec.Encodings;
      hide S.SavedDisk;
      ghost var plan := AppendPlan(codec, lim, messages, message, replace);
      if !ValidMessage(message) {
        return false, Some(InvalidMessage);
      }
      var encoded := codec.encode(message);
      if encoded.None? {
        return false, Some(NotEncodable);
      }
      var at := FindIndex(message.handle);
      if at.Some? && !replace {
        return false, None;
      }
      var candidate, sizes, replacedIndex := Place(message, |encoded.value|, at);
      var kept, keptSizes, error := Evict(candidate, sizes, replacedIndex, Position(messages, message));
      if error.Some? {
        return false, error;
      }
      var blob := Envelope(codec.Encodings(kept));
      if |blob| > lim.bytes {
        assert false;
      }
      var saveError := store.Save(S.SaveCall(S.History, blob, sys.nonce, sys.temp, sys.fault, sys.removed));
      if saveError.Some? {
        return false, Some(SaveFailed(saveError.value));
      }
      messages, messageSizes := kept, keptSizes;
      return at.None?, None;
    }

    /** The candidate list and its sizes, with the message in place of the record it replaces or at the end. */
    method Place(message: Message, size: int, at: Option<nat>)
      returns (candidate: seq<Message>, sizes: seq<int>, replacedIndex: int)
      requires Valid() && ValidMessage(message) && codec.encode(message).Some?
      requires size == |codec.Encoding(message)| && at == Find(messages, message.handle)
      ensures candidate == Placed(messages, message) && sizes == Sizes(codec.Encodings(candidate))
      ensures forall i :: 0 <= i < |candidate| ==> ValidMessage(candidate[i]) && codec.encode(candidate[i]).Some?
      ensures if at.Some? then replacedIndex == at.value else replacedIndex == -1 && |candidate| == |messages| + 1
    {
      hide ValidMessage;
      candidate, sizes, replacedIndex := messages, messageSizes, -1;
      if at.Some? {
        candidate := candidate[at.value := message];
        sizes := sizes[at.value := size];
        replacedIndex := at.value;
      } else {
        candidate := candidate + [message];
        sizes := sizes + [size];
      }
      assert sizes == Sizes(codec.Encodings(candidate));
    }

    /** The search for the record with the same handle. */
    method FindIndex(handle: string) returns (at: Option<nat>)
      ensures at == Find(messages, handle)
    {
      for index := 0 to |messages|
        invariant handle != [] ==> forall i :: 0 <= i < index ==> messages[i].handle != handle
      {
        if handle != [] && messages[index].handle == handle {
          return Some(index);
        }
      }
      return None;
    }

    /** The eviction loop of `appendMessage`: it drops records from the front until the rest fits, and
        gives up rather than drop the new record. The loop works on sizes only. */
    method Evict(records: seq<Message>, recordSizes: seq<int>, replacedIndex: int, ghost position: nat)
      returns (kept: seq<Message>, keptSizes: seq<int>, error: Option<AppendError>)
      requires recordSizes == Sizes(codec.Encodings(records))
      requires position < |records| && (if replacedIndex >= 0 then replacedIndex == position else position == |records| - 1)
      ensures match LeastFit(codec, lim, records, 0, position)
              case Some(k) => error == None && kept == records[k..] && keptSizes == Sizes(codec.Encodings(kept))
              case None =>
                error == Some(if position == |records| - 1 then CannotFit else ReplacementExceedsLimit)
    {
      hide Envelope;
      hide EnvelopeSize;
      kept, keptSizes := records, recordSizes;
      var replaced := replacedIndex;
      ghost var k := 0;
      SizeIsExact(codec.Encodings(kept));
      var size := HistoryJsonSize(keptSizes);
      while |kept| > lim.records || size > lim.bytes
        invariant k <= position && kept == records[k..] && keptSizes == Sizes(codec.Encodings(kept))
        invariant size == |Envelope(codec.Encodings(kept))|
        invariant if replacedIndex >= 0 then replaced == position - k else replaced < 0
        invariant LeastFit(codec, lim, records, 0, position) == LeastFit(codec, lim, records, k, position)
        decreases |kept|
      {
        if |kept| == 1 {
          return kept, keptSizes, Some(CannotFit);
        }
        if replaced == 0 {
          return kept, keptSizes, Some(ReplacementExceedsLimit);
        }
        assert keptSizes[1..] == Sizes(codec.Encodings(kept[1..]));
        kept := kept[1..];
        keptSizes := keptSizes[1..];
        if replaced > 0 {
          replaced := replaced - 1;
        }
        k := k + 1;
        SizeIsExact(codec.Encodings(kept));
        size := HistoryJsonSize(keptSizes);
      }
      error := None;
    }

    method Messages(limit: int) returns (r: seq<Message>)
      ensures IsSuffix(r, messages)
      ensures |r| == if limit <= 0 then 0 else Book.Min(limit, |messages|)
    {
      if limit <= 0 || |messages| == 0 {
        return [];
      }
      var start := |messages| - Book.Min(limit, |messages|);
      return messages[start..];
    }

    /** `ReplaceContacts`: a list that passes the checks is stored sorted by name, stably. */
    method ReplaceContacts(records: seq<Contact>, lower: string -> string, sys: System) returns (ok: bool)
      requires Valid() && Contributes(sys, store.disk)
      modifies this`contacts, store
      ensures Valid()
      ensures var sorted := Book.SortedByName(records, lower);
              var call := ContactsSave(codec, sorted, sys);
              if AcceptableContacts(records) && |call.plaintext| <= MAX_HISTORY_BYTES
              then store.disk == S.SavedDisk(store.box, old(store.disk), call)
                   && ok == S.SaveErrorOf(call).None?
                   && contacts == (if ok then sorted else old(contacts))
              else !ok && contacts == old(contacts) && store.disk == old(store.disk)
    {
      hide ValidContact;
      hide Envelope;
      hide S.SavedDisk;
      if |records| > MAX_PHONEBOOK_CONTACTS {
        return false;
      }
      for index := 0 to |records|
        invariant forall i :: 0 <= i < index ==> ValidContact(records[i])
      {
        if !ValidContact(records[index]) {
          return false;
        }
      }
      var candidate := Book.SortedByName(records, lower);
      var blob := Envelope(codec.ContactEncodings(candidate));
      if |blob| > MAX_HISTORY_BYTES {
        return false;
      }
      var saveError := store.Save(S.SaveCall(S.Contacts, blob, sys.nonce, sys.temp, sys.fault, sys.removed));
      if saveError.Some? {
        return false;
      }
      contacts := candidate;
      return true;
    }

    method Contacts(offset: int, limit: int) returns (r: seq<Contact>)
      ensures r == Book.Page(contacts, offset, limit)
    {
      if offset < 0 || limit <= 0 || offset >= |contacts| {
        return [];
      }
      var end := Book.Min(offset + limit, |contacts|);
      return contacts[offset..end];
    }

    /** The counting loop of `ResolveContact`. */
    method ResolveContact(address: string) returns (name: string)
      ensures name == Book.Resolved(contacts, address)
    {
      hide Vcard.Normalized;
      var normalized, kind := Vcard.NormalizeAddress(address);
      if kind == Vcard.InvalidAddress {
        return [];
      }
      name := [];
      var matches := 0;
      for n := 0 to |contacts|
        invariant matches == |Book.Holders(contacts[..n], normalized, kind)|
        invariant matches > 0 ==> name == Book.Holders(contacts[..n], normalized, kind)[matches - 1].name
      {
        assert contacts[..n + 1][..n] == contacts[..n];
        var addresses := if kind == Vcard.EmailAddress then contacts[n].emails else contacts[n].phones;
        if normalized in addresses {
          name := contacts[n].name;
          matches := matches + 1;
        }
      }
      assert contacts[..|contacts|] == contacts;
      if matches != 1 {
        return [];
      }
    }
  }
}
