/** The records built by the MAP client (internal/obex/map.go). */
module MapClient {
  import opened Wrappers
  import opened Text
  import opened Model
  import opened Protocol
  import Vcard
  import BMessage

  /** `boundedText`. */
  function BoundedText(value: string, maximum: nat): (r: string)
    ensures r <= value && |r| == if |value| <= maximum then |value| else maximum
  {
    Truncate(value, maximum)
  }

  /** `filepath.Base` of a D-Bus object path, which never ends in a slash. */
  function Base(path: string): string {
    if path == [] || path[|path| - 1] == '/' then [] else Base(path[..|path| - 1]) + [path[|path| - 1]]
  }

  /** The base name is what follows the last slash. */
  lemma {:induction false} BaseFollowsSlash(dir: string, name: string)
    requires '/' !in name
    ensures Base(dir + "/" + name) == name && Base(name) == name
  {
    var path := dir + "/" + name;
    if name == [] {
      assert path[|path| - 1] == '/';
    } else {
      var shorter := name[..|name| - 1];
      assert path[..|path| - 1] == dir + "/" + shorter;
      assert name == shorter + [name[|name| - 1]];
      assert forall i :: 0 <= i < |shorter| ==> shorter[i] == name[i];
      BaseFollowsSlash(dir, shorter);
    }
  }

  /** The normalised phone number of a sender; empty for anything else. */
  function SenderPhone(sender: string): string {
    var (normal, kind) := Vcard.Normalized(sender);
    if kind == Vcard.PhoneAddress then normal else []
  }

  lemma SenderPhoneShrinks(sender: string)
    ensures |SenderPhone(sender)| <= |sender|
  {
    Vcard.NormalizeIdempotent(sender);
  }

  /**
   `HandleAdded`, given the downloaded file (`None` when the object has no message interface or any of the
   remote or file operations failed), the contact resolver, the `Read` property if present, and the receipt time of the message.
   Whatever the file holds, the record is one that the history accepts.
   */
  method HandleAdded(mapPath: Option<string>, path: string, file: Option<string>, resolve: string -> string,
                     readProperty: Option<bool>, timestamp: Time)
    returns (r: Option<Message>)
    ensures r.Some? <==>
              && mapPath.Some? && mapPath.value + "/" <= path && file.Some?
              && Utf8Len(file.value) <= MAX_BMESSAGE_BYTES && BMessage.Complete(SplitLines(file.value))
              && BMessage.MessageBody(SplitLines(file.value)).Some?
    ensures r.Some? ==> ValidMessage(r.value)
    ensures r.Some? ==> BMessage.MessageBody(SplitLines(file.value)) == Some(r.value.body)
    ensures r.Some? ==> r.value.kind == "sms_received" && r.value.timestamp == timestamp
                        && r.value.handle == BoundedText(Base(path), MAX_CONTACT_ADDRESS_CHARS)
    ensures r.Some? ==> var lines := SplitLines(file.value);
                        var header := BMessage.Header(lines[..BMessage.FirstMarker(lines, "BEGIN:BENV")], r.value.body);
                        && r.value.senderAddress == header.sender && r.value.senderPhoneNorm == SenderPhone(header.sender)
                        && r.value.contactName == BoundedText(resolve(header.sender), MAX_CONTACT_NAME_CHARS)
                        && r.value.read == if readProperty.Some? then readProperty.value else EqualFold(header.status, "READ")
  {
    hide Vcard.Normalized;
    hide BMessage.MessageBody;
    hide BMessage.Header;
    hide BMessage.Complete;
    hide EqualFold;
    hide SplitLines;
    hide Base;
    hide Utf8Len;
    if mapPath.None? || !(mapPath.value + "/" <= path) {
      return None;
    }
    if file.None? {
      return None;
    }
    var parsed := BMessage.Parse(file.value, MAX_BMESSAGE_BYTES);
    if parsed.Err? {
      return None;
    }
    var message := parsed.value;
    BMessage.HeaderBody(SplitLines(file.value)[..BMessage.FirstMarker(SplitLines(file.value), "BEGIN:BENV")]);
    var normalized, kind := Vcard.NormalizeAddress(message.sender);
    if kind != Vcard.PhoneAddress {
      normalized := [];
    }
    var contactName := resolve(message.sender);
    var read := EqualFold(message.status, "READ");
    if readProperty.Some? {
      read := readProperty.value;
    }
    SenderPhoneShrinks(message.sender);
    return Some(Message("sms_received", BoundedText(Base(path), MAX_CONTACT_ADDRESS_CHARS),
                        BoundedText(message.sender, MAX_CONTACT_ADDRESS_CHARS), normalized,
                        BoundedText(contactName, MAX_CONTACT_NAME_CHARS), message.body, timestamp, read));
  }

  // ---------------------------------------------------------------- polled records

  /** One entry of the phone's message listing. */
  datatype Entry = Entry(path: string, sender: string, senderAddress: string, subject: string, timestamp: Time, read: bool) {
    function From(): string { if sender == [] then senderAddress else sender }
  }

  function PolledRecord(entry: Entry, contactName: string): Message {
    Message("sms_received", BoundedText(Base(entry.path), MAX_CONTACT_ADDRESS_CHARS),
            BoundedText(entry.From(), MAX_CONTACT_ADDRESS_CHARS), SenderPhone(entry.From()),
            BoundedText(contactName, MAX_CONTACT_NAME_CHARS), BoundedText(entry.subject, MAX_PUBLIC_BODY_CHARS),
            entry.timestamp, entry.read)
  }

  predicate AllowedFolder(folder: string) {
    var name := ToLower(TrimSpace(folder));
    name == "telecom/msg/inbox" || name == "telecom/msg/sent"
  }

  /** Both folders are allowed, with space around the name. */
  lemma FoldersAllowed(before: string, name: string, after: string)
    requires name == "telecom/msg/inbox" || name == "telecom/msg/sent"
    requires (forall i :: 0 <= i < |before| ==> IsSpace(before[i])) && (forall i :: 0 <= i < |after| ==> IsSpace(after[i]))
    ensures AllowedFolder(before + name + after)
  {
    FolderTexts();
    LowerStays(name);
    TrimUnique(before, name, after, IsSpace);
    assert TrimSpace(before + name + after) == name;
    hide LowerText;
    hide IsSpace;
    hide TrimSpace;
    hide ToLower;
  }

  predicate LowerText(s: string) { forall i :: 0 <= i < |s| ==> 'a' <= s[i] <= 'z' || s[i] == '/' }

  lemma FolderTexts()
    ensures LowerText("telecom/msg/inbox") && LowerText("telecom/msg/sent")
  {
  }

  lemma LowerStays(s: string)
    requires LowerText(s)
    ensures ToLower(s) == s && Trimmed(s, IsSpace)
  {
    assert forall i :: 0 <= i < |s| ==> Lower(s[i]) == s[i];
    assert s != [] ==> !IsSpace(s[0]) && !IsSpace(s[|s| - 1]);
    hide Lower;
    hide IsSpace;
  }

  /** `ListRecent`, given the phone's answer (`None` when selecting the folder or listing it failed), its entries in
      whatever order the map yields them. */
  method ListRecent(mapPath: Option<string>, folder: string, limit: nat, listed: Option<seq<Entry>>, resolve: string -> string)
    returns (r: Option<seq<Message>>)
    ensures r.Some? <==> AllowedFolder(folder) && 0 < limit <= MAX_RECENT_RECORDS && mapPath.Some? && listed.Some?
    ensures r.Some? ==>
              && |r.value| == (if limit < |listed.value| then limit else |listed.value|)
              && forall i :: 0 <= i < |r.value| ==>
                   r.value[i] == PolledRecord(listed.value[i], resolve(listed.value[i].From()))
  {
    hide Vcard.Normalized;
    hide AllowedFolder;
    if !AllowedFolder(folder) {
      return None;
    }
    if limit == 0 || limit > MAX_RECENT_RECORDS {
      return None;
    }
    if mapPath.None? || listed.None? {
      return None;
    }
    var entries := listed.value;
    var messages := [];
    for n := 0 to |entries|
      invariant |messages| == n <= limit
      invariant forall i :: 0 <= i < n ==> messages[i] == PolledRecord(entries[i], resolve(entries[i].From()))
    {
      if |messages| == limit {
        break;
      }
      var sender := entries[n].sender;
      if sender == [] {
        sender := entries[n].senderAddress;
      }
      var normalized, kind := Vcard.NormalizeAddress(sender);
      if kind != Vcard.PhoneAddress {
        normalized := [];
      }
      var contactName := resolve(sender);
      messages := messages + [
        Message("sms_received", BoundedText(Base(entries[n].path), MAX_CONTACT_ADDRESS_CHARS),
                BoundedText(sender, MAX_CONTACT_ADDRESS_CHARS), normalized,
                BoundedText(contactName, MAX_CONTACT_NAME_CHARS),
                BoundedText(entries[n].subject, MAX_PUBLIC_BODY_CHARS), entries[n].timestamp, entries[n].read)];
    }
    return Some(messages);
  }

  lemma {:induction false} Utf8LenBound(s: string)
    ensures Utf8Len(s) <= 4 * |s|
  {
    if s != [] {
      Utf8LenBound(s[1..]);
    }
  }

  /** `ListRecent` does not bound the normalised phone number: its record is acceptable to the history
      exactly if the sender, when it is a phone number, has no more digits than an address may have. */
  lemma PolledRecordValid(entry: Entry, contactName: string)
    ensures ValidMessage(PolledRecord(entry, contactName))
       <==> |SenderPhone(entry.From())| <= MAX_CONTACT_ADDRESS_CHARS
  {
    hide Vcard.Normalized;
    Utf8LenBound(BoundedText(entry.subject, MAX_PUBLIC_BODY_CHARS));
  }

  function Repeat(c: char, n: nat): (s: string)
    ensures |s| == n && forall i :: 0 <= i < n ==> s[i] == c
  {
    seq(n, _ => c)
  }

  /** A sender of 321 digits yields a polled record that the history rejects. */
  lemma LongSenderRejected(entry: Entry, contactName: string)
    requires entry.From() == Repeat('1', MAX_CONTACT_ADDRESS_CHARS + 1)
    ensures !ValidMessage(PolledRecord(entry, contactName))
  {
    Vcard.DigitsAreNormal(entry.From());
    PolledRecordValid(entry, contactName);
  }

  // ---------------------------------------------------------------- contacts

  /** Every phonebook the parser accepts with the default limits passes the count, name and address
      checks of `ReplaceContacts`. */
  lemma ParsedContactsValid(blob: string)
    ensures var r := Vcard.Phonebook(blob, Vcard.DEFAULT_LIMITS);
            r.Ok? ==>
              && |r.value| <= MAX_PHONEBOOK_CONTACTS
              && forall i :: 0 <= i < |r.value| ==> ValidContact(r.value[i])
  {
    hide Vcard.Normal;
    Vcard.PhonebookIsGood(blob, Vcard.DEFAULT_LIMITS);
  }
}
