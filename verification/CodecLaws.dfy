/** The laws assumed of the JSON encoding can be met together: a self-delimiting encoding meets them. */
module CodecLaws {
  import opened Wrappers
  import opened Model
  import opened History
  import S = Snapshot

  /** What is encoded can be told from what follows it. */
  ghost predicate SelfDelimiting<T(!new)>(f: T -> Bytes) {
    && (forall a :: f(a) != [])
    && forall a, b, x: Bytes, y: Bytes :: f(a) + x == f(b) + y ==> a == b && x == y
  }

  function Mapped<T>(f: T -> Bytes, xs: seq<T>): (r: seq<Bytes>)
    ensures |r| == |xs| && forall i :: 0 <= i < |xs| ==> r[i] == f(xs[i])
  {
    seq(|xs|, i requires 0 <= i < |xs| => f(xs[i]))
  }

  // ---------------------------------------------------------------- arrays

  lemma {:induction false} CommasFront(items: seq<Bytes>)
    requires |items| > 1
    ensures Commas(items) == items[0] + (S.Ascii(",") + Commas(items[1..]))
  {
    var before, last := items[..|items| - 1], items[|items| - 1];
    assert items[1..][..|items| - 2] == before[1..];
    if |items| > 2 {
      CommasFront(before);
      assert items[0] + (S.Ascii(",") + Commas(before[1..])) + S.Ascii(",") + last
          == items[0] + (S.Ascii(",") + (Commas(before[1..]) + S.Ascii(",") + last));
    }
  }

  lemma {:induction false} ArrayInjective<T(!new)>(f: T -> Bytes, xs: seq<T>, ys: seq<T>)
    requires SelfDelimiting(f) && Commas(Mapped(f, xs)) == Commas(Mapped(f, ys))
    ensures xs == ys
  {
    hide Commas;
    var x := ArrayHead(f, xs);
    var y := ArrayHead(f, ys);
    if xs != [] && ys != [] {
      assert f(xs[0]) + x == f(ys[0]) + y;
      assert xs == [xs[0]] + xs[1..] && ys == [ys[0]] + ys[1..];
      if |xs| > 1 && |ys| > 1 {
        assert x[1..] == Commas(Mapped(f, xs[1..])) && y[1..] == Commas(Mapped(f, ys[1..]));
        ArrayInjective(f, xs[1..], ys[1..]);
      }
    }
  }

  lemma ArrayHead<T(!new)>(f: T -> Bytes, xs: seq<T>) returns (rest: Bytes)
    requires SelfDelimiting(f)
    ensures xs == [] ==> Commas(Mapped(f, xs)) == []
    ensures xs != [] ==> Commas(Mapped(f, xs)) == f(xs[0]) + rest != []
    ensures rest == if |xs| > 1 then S.Ascii(",") + Commas(Mapped(f, xs[1..])) else []
  {
    rest := if |xs| > 1 then S.Ascii(",") + Commas(Mapped(f, xs[1..])) else [];
    if |xs| > 1 {
      CommasFront(Mapped(f, xs));
      assert Mapped(f, xs)[1..] == Mapped(f, xs[1..]);
    }
  }

  lemma EnvelopeInjective(a: seq<Bytes>, b: seq<Bytes>)
    requires Envelope(a) == Envelope(b)
    ensures Commas(a) == Commas(b)
  {
    var head, n := S.Ascii("{\"schema\":1,\"records\":["), |Envelope(a)|;
    assert Envelope(a)[|head|..n - 2] == Commas(a);
    assert Envelope(b)[|head|..n - 2] == Commas(b);
  }

  // ---------------------------------------------------------------- records

  function Unary(n: nat): Bytes { if n == 0 then [2] else [1] + Unary(n - 1) }

  lemma {:induction false} UnaryCancels(a: nat, b: nat, x: Bytes, y: Bytes)
    requires Unary(a) + x == Unary(b) + y
    ensures a == b && x == y
  {
    assert (Unary(a) + x)[0] == Unary(a)[0] && (Unary(b) + y)[0] == Unary(b)[0];
    if a == 0 {
      assert (Unary(a) + x)[1..] == x && (Unary(b) + y)[1..] == y;
    } else {
      assert (Unary(a) + x)[1..] == Unary(a - 1) + x && (Unary(b) + y)[1..] == Unary(b - 1) + y;
      UnaryCancels(a - 1, b - 1, x, y);
    }
  }

  function Chars(s: string): Bytes { if s == [] then [3] else Unary(s[0] as int) + Chars(s[1..]) }

  lemma {:induction false} CharsCancel(a: string, b: string, x: Bytes, y: Bytes)
    requires Chars(a) + x == Chars(b) + y
    ensures a == b && x == y
  {
    assert (Chars(a) + x)[0] == Chars(a)[0] && (Chars(b) + y)[0] == Chars(b)[0];
    if a == [] {
      assert (Chars(a) + x)[1..] == x && (Chars(b) + y)[1..] == y;
    } else {
      assert Chars(a) + x == Unary(a[0] as int) + (Chars(a[1..]) + x);
      assert Chars(b) + y == Unary(b[0] as int) + (Chars(b[1..]) + y);
      UnaryCancels(a[0] as int, b[0] as int, Chars(a[1..]) + x, Chars(b[1..]) + y);
      CharsCancel(a[1..], b[1..], x, y);
      assert a == [a[0]] + a[1..] && b == [b[0]] + b[1..];
    }
  }

  function Strings(list: seq<string>): Bytes { if list == [] then [3] else [4] + (Chars(list[0]) + Strings(list[1..])) }

  lemma {:induction false} StringsCancel(a: seq<string>, b: seq<string>, x: Bytes, y: Bytes)
    requires Strings(a) + x == Strings(b) + y
    ensures a == b && x == y
  {
    assert (Strings(a) + x)[0] == Strings(a)[0] && (Strings(b) + y)[0] == Strings(b)[0];
    if a == [] {
      assert (Strings(a) + x)[1..] == x && (Strings(b) + y)[1..] == y;
    } else {
      assert (Strings(a) + x)[1..] == Chars(a[0]) + (Strings(a[1..]) + x);
      assert (Strings(b) + y)[1..] == Chars(b[0]) + (Strings(b[1..]) + y);
      CharsCancel(a[0], b[0], Strings(a[1..]) + x, Strings(b[1..]) + y);
      StringsCancel(a[1..], b[1..], x, y);
      assert a == [a[0]] + a[1..] && b == [b[0]] + b[1..];
    }
  }

  function Sign(n: int): Bytes { if n < 0 then [5] else [6] }

  function Number(n: int): Bytes { Sign(n) + Unary(if n < 0 then -n else n) }

  lemma NumberCancels(a: int, b: int, x: Bytes, y: Bytes)
    requires Number(a) + x == Number(b) + y
    ensures a == b && x == y
  {
    hide Unary;
    var m: nat, n: nat := if a < 0 then -a else a, if b < 0 then -b else b;
    assert Number(a) + x == Sign(a) + (Unary(m) + x);
    assert Number(b) + y == Sign(b) + (Unary(n) + y);
    assert Sign(a) == (Sign(a) + (Unary(m) + x))[..1] == (Sign(b) + (Unary(n) + y))[..1] == Sign(b);
    assert (Sign(a) + (Unary(m) + x))[1..] == Unary(m) + x && (Sign(b) + (Unary(n) + y))[1..] == Unary(n) + y;
    UnaryCancels(m, n, x, y);
  }

  function Fields(m: Message): seq<string> {
    [m.kind, m.handle, m.senderAddress, m.senderPhoneNorm, m.contactName, m.body]
  }

  function OfMessage(m: Message): Bytes {
    Strings(Fields(m)) + (Number(m.timestamp.instant) + (Number(m.timestamp.offset) + [if m.read then 1 else 2]))
  }

  lemma MessageCancels(a: Message, b: Message, x: Bytes, y: Bytes)
    requires OfMessage(a) + x == OfMessage(b) + y
    ensures a == b && x == y
  {
    hide Strings;
    hide Number;
    var p, q: Bytes := [if a.read then 1 else 2], [if b.read then 1 else 2];
    var ta, tb := a.timestamp, b.timestamp;
    assert OfMessage(a) + x == Strings(Fields(a)) + (Number(ta.instant) + (Number(ta.offset) + (p + x)));
    assert OfMessage(b) + y == Strings(Fields(b)) + (Number(tb.instant) + (Number(tb.offset) + (q + y)));
    StringsCancel(Fields(a), Fields(b), Number(ta.instant) + (Number(ta.offset) + (p + x)),
                  Number(tb.instant) + (Number(tb.offset) + (q + y)));
    NumberCancels(ta.instant, tb.instant, Number(ta.offset) + (p + x), Number(tb.offset) + (q + y));
    NumberCancels(ta.offset, tb.offset, p + x, q + y);
    assert (p + x)[0] == p[0] && (q + y)[0] == q[0] && (p + x)[1..] == x && (q + y)[1..] == y;
    assert Fields(a)[0] == Fields(b)[0] && Fields(a)[1] == Fields(b)[1] && Fields(a)[2] == Fields(b)[2];
    assert Fields(a)[3] == Fields(b)[3] && Fields(a)[4] == Fields(b)[4] && Fields(a)[5] == Fields(b)[5];
  }

  function OfContact(c: Contact): Bytes { Chars(c.name) + (Strings(c.phones) + Strings(c.emails)) }

  lemma ContactCancels(a: Contact, b: Contact, x: Bytes, y: Bytes)
    requires OfContact(a) + x == OfContact(b) + y
    ensures a == b && x == y
  {
    hide Chars;
    hide Strings;
    assert OfContact(a) + x == Chars(a.name) + (Strings(a.phones) + (Strings(a.emails) + x));
    assert OfContact(b) + y == Chars(b.name) + (Strings(b.phones) + (Strings(b.emails) + y));
    CharsCancel(a.name, b.name, Strings(a.phones) + (Strings(a.emails) + x), Strings(b.phones) + (Strings(b.emails) + y));
    StringsCancel(a.phones, b.phones, Strings(a.emails) + x, Strings(b.emails) + y);
    StringsCancel(a.emails, b.emails, x, y);
  }

  lemma RecordsSelfDelimiting()
    ensures SelfDelimiting(OfMessage) && SelfDelimiting(OfContact)
  {
    forall a: Message, b: Message, x: Bytes, y: Bytes | OfMessage(a) + x == OfMessage(b) + y ensures a == b && x == y {
      MessageCancels(a, b, x, y);
    }
    forall a: Contact, b: Contact, x: Bytes, y: Bytes | OfContact(a) + x == OfContact(b) + y ensures a == b && x == y {
      ContactCancels(a, b, x, y);
    }
  }

  // ---------------------------------------------------------------- the witness

  ghost function Decoded<T(!new)>(f: T -> Bytes, text: Bytes): Option<(int, seq<T>)> {
    if xs: seq<T> :| Envelope(Mapped(f, xs)) == text then Some((1, xs)) else None
  }

  lemma DecodesBack<T(!new)>(f: T -> Bytes, xs: seq<T>)
    requires SelfDelimiting(f)
    ensures Decoded(f, Envelope(Mapped(f, xs))) == Some((1, xs))
  {
    var ys := Decoded(f, Envelope(Mapped(f, xs))).value.1;
    EnvelopeInjective(Mapped(f, xs), Mapped(f, ys));
    ArrayInjective(f, xs, ys);
  }

  /** The laws can be met, with every message encodable. */
  lemma LawfulCodecExists() returns (codec: Codec)
    ensures codec.Lawful() && forall m :: codec.encode(m).Some?
  {
    hide Decoded;
    codec := Codec(m => Some(OfMessage(m)), text => Decoded(OfMessage, text), OfContact, text => Decoded(OfContact, text));
    RecordsSelfDelimiting();
    forall ms: seq<Message> ensures codec.decode(Envelope(codec.Encodings(ms))) == Some((1, ms)) {
      DecodesBack(OfMessage, ms);
      assert codec.Encodings(ms) == Mapped(OfMessage, ms);
    }
    forall cs: seq<Contact> ensures codec.decodeContacts(Envelope(codec.ContactEncodings(cs))) == Some((1, cs)) {
      DecodesBack(OfContact, cs);
      assert codec.ContactEncodings(cs) == Mapped(OfContact, cs);
    }
  }
}
