/** The limits of internal/protocol/protocol.go. */
module Protocol {
  const MAX_BMESSAGE_BYTES: nat := 1 * 1024 * 1024
  const MAX_PHONEBOOK_BYTES: nat := 64 * 1024 * 1024
  const MAX_VCARD_BYTES: nat := 1 * 1024 * 1024
  const MAX_CONTACT_NAME_CHARS: nat := 512
  const MAX_CONTACT_ADDRESS_CHARS: nat := 320
  const MAX_ADDRESSES_PER_CARD: nat := 64
  const MAX_PHONEBOOK_CONTACTS: nat := 65535
  const MAX_HISTORY_RECORDS: nat := 2000
  const MAX_HISTORY_BYTES: nat := 64 * 1024 * 1024
  const MAX_PUBLIC_BODY_CHARS: nat := 32 * 1024
  const MAX_RECENT_RECORDS: nat := 200
}

/** The records of internal/model/model.go. */
module Model {
  import opened Protocol
  import opened Text

  /** A point in time, counted from the zero time, and the zone offset it is written with. */
  datatype Time = Time(instant: int, offset: int)

  datatype Message = Message(
    kind: string,
    handle: string,
    senderAddress: string,
    senderPhoneNorm: string,
    contactName: string,
    body: string,
    timestamp: Time,
    read: bool)

  datatype Contact = Contact(name: string, phones: seq<string>, emails: seq<string>)

  /** `validateMessage` of internal/storage/repository.go. */
  predicate ValidMessage(m: Message) {
    && Utf8Len(m.body) <= MAX_BMESSAGE_BYTES
    && |m.handle| <= MAX_CONTACT_ADDRESS_CHARS
    && |m.senderAddress| <= MAX_CONTACT_ADDRESS_CHARS
    && |m.senderPhoneNorm| <= MAX_CONTACT_ADDRESS_CHARS
    && |m.contactName| <= MAX_CONTACT_NAME_CHARS
  }

  /** The limits of a record, in numbers. */
  lemma RecordLimits(m: Message, c: Contact)
    ensures ValidMessage(m) <==>
              && Utf8Len(m.body) <= 1_048_576 && |m.handle| <= 320 && |m.senderAddress| <= 320
              && |m.senderPhoneNorm| <= 320 && |m.contactName| <= 512
    ensures ValidContact(c) <==>
              && |c.name| <= 512 && |c.phones| + |c.emails| <= 64
              && forall s :: s in c.phones || s in c.emails ==> |s| <= 320
  {
  }

  /** `validateContact` of internal/storage/repository.go. */
  predicate ValidContact(c: Contact) {
    && |c.name| <= MAX_CONTACT_NAME_CHARS
    && |c.phones| + |c.emails| <= MAX_ADDRESSES_PER_CARD
    && (forall i :: 0 <= i < |c.phones| ==> |c.phones[i]| <= MAX_CONTACT_ADDRESS_CHARS)
    && (forall i :: 0 <= i < |c.emails| ==> |c.emails[i]| <= MAX_CONTACT_ADDRESS_CHARS)
  }
}
