/**
 The bounded message history as a value (internal/storage/repository.go): its exact encoded size,
 and what appending a message does to it.
 */
module History {
  import opened Wrappers
  import opened Model
  import opened Protocol
  import S = Snapshot

  type Bytes = S.Bytes

  // ---------------------------------------------------------------- encoding

  /** JSON encoding of records and decoding of envelopes. A message whose timestamp has no RFC 3339
      form cannot be encoded. */
  datatype Codec = Codec(
    encode: Message -> Option<Bytes>,
    decode: Bytes -> Option<(int, seq<Message>)>,
    encodeContact: Contact -> Bytes,
    decodeContacts: Bytes -> Option<(int, seq<Contact>)>)
  {
    /** What is assumed of `encoding/json`: decoding an envelope gives back the encoded records. */
    ghost predicate Lawful() {
      && (forall ms: seq<Message> :: Encodable(ms) ==> decode(Envelope(Encodings(ms))) == Some((1, ms)))
      && (forall cs: seq<Contact> :: decodeContacts(Envelope(ContactEncodings(cs))) == Some((1, cs)))
    }

    ghost predicate Encodable(ms: seq<Message>) { forall i :: 0 <= i < |ms| ==> encode(ms[i]).Some? }

    function Encoding(m: Message): Bytes {
      var e := encode(m);
      if e.Some? then e.value else []
    }

    function Encodings(ms: seq<Message>): (r: seq<Bytes>)
      ensures |r| == |ms| && forall i :: 0 <= i < |ms| ==> r[i] == Encoding(ms[i])
    {
      seq(|ms|, i requires 0 <= i < |ms| => Encoding(ms[i]))
    }

    function ContactEncodings(cs: seq<Contact>): (r: seq<Bytes>)
      ensures |r| == |cs| && forall i :: 0 <= i < |cs| ==> r[i] == encodeContact(cs[i])
    {
      seq(|cs|, i requires 0 <= i < |cs| => encodeContact(cs[i]))
    }
  }

  /** Element encodings separated by commas. */
  function Commas(items: seq<Bytes>): Bytes {
    if items == [] then []
    else if |items| == 1 then items[0]
    else Commas(items[..|items| - 1]) + S.Ascii(",") + items[|items| - 1]
  }

  /** The envelope of schema version 1. */
  function Envelope(items: seq<Bytes>): Bytes {
    S.Ascii("{\"schema\":1,\"records\":[") + Commas(items) + S.Ascii("]}")
  }

  function Sum(sizes: seq<int>): int {
    if sizes == [] then 0 else Sum(sizes[..|sizes| - 1]) + sizes[|sizes| - 1]
  }

  function EnvelopeSize(sizes: seq<int>): int {
    25 + Sum(sizes) + (if sizes == [] then 0 else |sizes| - 1)
  }

  /** `historyJSONSize`. */
  method HistoryJsonSize(recordSizes: seq<int>) returns (size: int)
    ensures size == EnvelopeSize(recordSizes)
  {
    size := |"{\"schema\":1,\"records\":[]}"|;
    assert size == 25;
    for index := 0 to |recordSizes|
      invariant size == EnvelopeSize(recordSizes[..index])
    {
      assert recordSizes[..index + 1][..index] == recordSizes[..index];
      size := size + recordSizes[index];
      if index != 0 {
        size := size + 1;
      }
    }
    assert recordSizes[..|recordSizes|] == recordSizes;
  }

  function Sizes(items: seq<Bytes>): (r: seq<int>)
    ensures |r| == |items| && forall i :: 0 <= i < |items| ==> r[i] == |items[i]|
  {
    seq(|items|, i requires 0 <= i < |items| => |items[i]|)
  }

  lemma {:induction false} CommasSize(items: seq<Bytes>)
    ensures |Commas(items)| == Sum(Sizes(items)) + (if items == [] then 0 else |items| - 1)
  {
    if items != [] {
      var before := items[..|items| - 1];
      CommasSize(before);
      assert Sizes(items)[..|items| - 1] == Sizes(before);
      if |items| == 1 {
        assert before == [];
      }
    }
  }

  /** `historyJSONSize` of the record sizes is exactly the length of the encoded envelope. */
  lemma SizeIsExact(items: seq<Bytes>)
    ensures |Envelope(items)| == EnvelopeSize(Sizes(items))
  {
    CommasSize(items);
    assert |"{\"schema\":1,\"records\":["| == 23 && |"]}"| == 2;
  }

  // ---------------------------------------------------------------- appending

  datatype Limits = Limits(records: int, bytes: int)

  /** The history is within both limits. */
  predicate Fits(codec: Codec, lim: Limits, ms: seq<Message>) {
    |ms| <= lim.records && |Envelope(codec.Encodings(ms))| <= lim.bytes
  }

  datatype AppendError = InvalidMessage | NotEncodable | CannotFit | ReplacementExceedsLimit | SaveFailed(error: S.SaveError)

  /** What `appendMessage` sets out to do: refuse, leave a known message alone, or write new records,
      having dropped `evicted` from the front. */
  datatype Plan = Reject(error: AppendError) | KeepKnown | Write(records: seq<Message>, created: bool, evicted: seq<Message>)

  /** The first record with this handle; the empty handle identifies nothing. */
  function Find(ms: seq<Message>, handle: string): (r: Option<nat>)
    ensures r.Some? ==> r.value < |ms| && ms[r.value].handle == handle != []
    ensures r.Some? ==> forall i :: 0 <= i < r.value ==> ms[i].handle != handle
    ensures r.None? ==> handle == [] || forall i :: 0 <= i < |ms| ==> ms[i].handle != handle
  {
    if handle == [] || ms == [] then None
    else if ms[0].handle == handle then Some(0)
    else
      var r := Find(ms[1..], handle);
      if r.Some? then Some(r.value + 1) else None
  }

  /** The record in its place: instead of the one with its handle, or at the end. */
  function Placed(ms: seq<Message>, m: Message): seq<Message> {
    var at := Find(ms, m.handle);
    if at.Some? then ms[at.value := m] else ms + [m]
  }

  function Position(ms: seq<Message>, m: Message): (p: nat)
    ensures p < |Placed(ms, m)| && Placed(ms, m)[p] == m
  {
    var at := Find(ms, m.handle);
    if at.Some? then at.value else |ms|
  }

  /** The least `j` from `k` on, not beyond `p`, such that the records from `j` on fit. */
  function LeastFit(codec: Codec, lim: Limits, c: seq<Message>, k: nat, p: nat): (r: Option<nat>)
    requires k <= p < |c|
    ensures r.Some? ==> k <= r.value <= p && Fits(codec, lim, c[r.value..])
                        && forall j :: k <= j < r.value ==> !Fits(codec, lim, c[j..])
    ensures r.None? ==> forall j :: k <= j <= p ==> !Fits(codec, lim, c[j..])
    decreases p - k
  {
    if Fits(codec, lim, c[k..]) then Some(k)
    else if k == p then None
    else LeastFit(codec, lim, c, k + 1, p)
  }

  function AppendPlan(codec: Codec, lim: Limits, ms: seq<Message>, m: Message, replace: bool): Plan {
    if !ValidMessage(m) then Reject(InvalidMessage)
    else if codec.encode(m).None? then Reject(NotEncodable)
    else if Find(ms, m.handle).Some? && !replace then KeepKnown
    else
      var c, p := Placed(ms, m), Position(ms, m);
      var k := LeastFit(codec, lim, c, 0, p);
      if k.Some? then Write(c[k.value..], Find(ms, m.handle).None?, c[..k.value])
      else if p == |c| - 1 then Reject(CannotFit)
      else Reject(ReplacementExceedsLimit)
  }

  /** Appending or replacing keeps the longest suffix that fits; it is refused for lack of room exactly
      if every suffix that fits would lose the new record. */
  lemma PlanKeepsLongestSuffix(codec: Codec, lim: Limits, ms: seq<Message>, m: Message, replace: bool)
    ensures var plan, c, p := AppendPlan(codec, lim, ms, m, replace), Placed(ms, m), Position(ms, m);
            && (plan.Write? ==>
                  && c == plan.evicted + plan.records && |plan.evicted| <= p && m in plan.records
                  && Fits(codec, lim, plan.records)
                  && forall j :: 0 <= j < |plan.evicted| ==> !Fits(codec, lim, c[j..]))
            && (plan == Reject(CannotFit) || plan == Reject(ReplacementExceedsLimit) <==>
                  && ValidMessage(m) && codec.encode(m).Some? && (Find(ms, m.handle).None? || replace)
                  && forall j :: 0 <= j <= p ==> !Fits(codec, lim, c[j..]))
  {
    var c, p := Placed(ms, m), Position(ms, m);
    var k := LeastFit(codec, lim, c, 0, p);
    if k.Some? {
      assert c[k.value..][p - k.value] == m;
    }
  }

  // ---------------------------------------------------------------- handles

  /** Non-empty handles are pairwise different. */
  predicate UniqueHandles(ms: seq<Message>) {
    forall i, j :: 0 <= i < j < |ms| && ms[i].handle != [] ==> ms[i].handle != ms[j].handle
  }

  lemma PlanKeepsHandlesUnique(codec: Codec, lim: Limits, ms: seq<Message>, m: Message, replace: bool)
    requires UniqueHandles(ms)
    ensures var plan := AppendPlan(codec, lim, ms, m, replace); plan.Write? ==> UniqueHandles(plan.records)
  {
    var plan := AppendPlan(codec, lim, ms, m, replace);
    if plan.Write? {
      PlacedUnique(ms, m);
      SuffixUnique(Placed(ms, m), |plan.evicted|);
    }
  }

  lemma PlacedUnique(ms: seq<Message>, m: Message)
    requires UniqueHandles(ms)
    ensures UniqueHandles(Placed(ms, m))
  {
    var c, at := Placed(ms, m), Find(ms, m.handle);
    forall i, j | 0 <= i < j < |c| && c[i].handle != [] ensures c[i].handle != c[j].handle {
      if at.Some? {
        assert c[i].handle == ms[i].handle && c[j].handle == ms[j].handle;
      } else if j == |ms| {
        assert c[i] == ms[i] && c[j] == m;
      } else {
        assert c[i] == ms[i] && c[j] == ms[j];
      }
    }
  }

  lemma SuffixUnique(ms: seq<Message>, k: nat)
    requires UniqueHandles(ms) && k <= |ms|
    ensures UniqueHandles(ms[k..])
  {
  }

  /** How many records have this handle. */
  function Count(ms: seq<Message>, handle: string): nat {
    if ms == [] then 0 else (if ms[0].handle == handle then 1 else 0) + Count(ms[1..], handle)
  }

  lemma {:induction false} CountConcat(a: seq<Message>, b: seq<Message>, handle: string)
    ensures Count(a + b, handle) == Count(a, handle) + Count(b, handle)
  {
    if a == [] {
      assert a + b == b;
    } else {
      assert (a + b)[1..] == a[1..] + b;
      CountConcat(a[1..], b, handle);
    }
  }

  lemma {:induction false} CountUnique(ms: seq<Message>, handle: string)
    requires UniqueHandles(ms) && handle != []
    ensures Count(ms, handle) == if exists i :: 0 <= i < |ms| && ms[i].handle == handle then 1 else 0
  {
    if ms != [] {
      SuffixUnique(ms, 1);
      CountUnique(ms[1..], handle);
      if ms[0].handle != handle && exists i :: 0 <= i < |ms| && ms[i].handle == handle {
        var i :| 0 <= i < |ms| && ms[i].handle == handle;
        assert ms[1..][i - 1].handle == handle;
      }
      if exists i :: 0 <= i < |ms[1..]| && ms[1..][i].handle == handle {
        var i :| 0 <= i < |ms[1..]| && ms[1..][i].handle == handle;
        assert ms[i + 1].handle == handle;
      }
    }
  }

  function HandlesOf(ms: seq<Message>): (r: seq<string>)
    ensures |r| == |ms| && forall i :: 0 <= i < |ms| ==> r[i] == ms[i].handle
  {
    seq(|ms|, i requires 0 <= i < |ms| => ms[i].handle)
  }

  lemma HandlesConcat(a: seq<Message>, b: seq<Message>)
    ensures HandlesOf(a + b) == HandlesOf(a) + HandlesOf(b)
  {
  }

  lemma {:induction false} SameHandlesSameCount(a: seq<Message>, b: seq<Message>, handle: string)
    requires HandlesOf(a) == HandlesOf(b)
    ensures Count(a, handle) == Count(b, handle)
  {
    if a != [] {
      assert a[0].handle == HandlesOf(a)[0] == b[0].handle;
      assert HandlesOf(a[1..]) == HandlesOf(a)[1..] == HandlesOf(b[1..]);
      SameHandlesSameCount(a[1..], b[1..], handle);
    }
  }

  lemma HandlesPlaced(ms: seq<Message>, m: Message)
    ensures HandlesOf(Placed(ms, m)) == HandlesOf(ms) + (if Find(ms, m.handle).None? then [m.handle] else [])
  {
  }

  /** Conservation, in order: a handle enters at the end, by creation, and leaves at the front, by eviction;
      a replaced record keeps its place. */
  lemma PlanConservesHandles(codec: Codec, lim: Limits, ms: seq<Message>, m: Message, replace: bool)
    ensures var plan := AppendPlan(codec, lim, ms, m, replace);
            plan.Write? ==>
              HandlesOf(ms) + (if plan.created then [m.handle] else [])
              == HandlesOf(plan.evicted) + HandlesOf(plan.records)
  {
    hide Fits;
    hide ValidMessage;
    hide HandlesOf;
    var plan := AppendPlan(codec, lim, ms, m, replace);
    if plan.Write? {
      PlanKeepsLongestSuffix(codec, lim, ms, m, replace);
      HandlesConcat(plan.evicted, plan.records);
      HandlesPlaced(ms, m);
    }
  }

  /** What an append adds to the logs of creations and evictions keeps them in balance with the history. */
  lemma LogsConserve(loaded: seq<Message>, creations: seq<Message>, made: seq<Message>, evictions: seq<Message>,
                     evicted: seq<Message>, memory: seq<Message>, records: seq<Message>)
    requires HandlesOf(loaded + creations) == HandlesOf(evictions + memory)
    requires HandlesOf(memory) + HandlesOf(made) == HandlesOf(evicted) + HandlesOf(records)
    ensures HandlesOf(loaded + (creations + made)) == HandlesOf((evictions + evicted) + records)
  {
    hide HandlesOf;
    HandlesConcat(loaded + creations, made);
    HandlesConcat(evictions, memory);
    HandlesConcat(evictions + evicted, records);
    HandlesConcat(evictions, evicted);
    assert loaded + (creations + made) == (loaded + creations) + made;
    assert (HandlesOf(evictions) + HandlesOf(memory)) + HandlesOf(made)
        == HandlesOf(evictions) + (HandlesOf(memory) + HandlesOf(made));
    assert HandlesOf(evictions) + (HandlesOf(evicted) + HandlesOf(records))
        == (HandlesOf(evictions) + HandlesOf(evicted)) + HandlesOf(records);
  }

  lemma HandlesOfOne(m: Message)
    ensures HandlesOf([m]) == [m.handle] && HandlesOf([]) == []
  {
  }
}
