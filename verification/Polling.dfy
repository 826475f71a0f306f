/** What becomes of a listing that the poll loop stores (internal/obex/map.go, internal/backend/backend.go). */
module Polling {
  import opened Text
  import opened Model
  import opened Protocol
  import Backend
  import MapClient
  import Sorting

  function PolledRecords(entries: seq<MapClient.Entry>, resolve: string -> string): (ms: seq<Message>)
    ensures |ms| == |entries|
    ensures forall i :: 0 <= i < |entries| ==> ms[i] == MapClient.PolledRecord(entries[i], resolve(entries[i].From()))
  {
    seq(|entries|, i requires 0 <= i < |entries| => MapClient.PolledRecord(entries[i], resolve(entries[i].From())))
  }

  /** No phone number in the listing has more digits than an address may have. */
  predicate PhonesFit(entries: seq<MapClient.Entry>) {
    forall i :: 0 <= i < |entries| ==> |MapClient.SenderPhone(entries[i].From())| <= MAX_CONTACT_ADDRESS_CHARS
  }

  /** The history rejects no record of a listing, so that storing it gets to its end, exactly if every phone number
      fits. Otherwise storing stops at the first one that does not, in order of time, and what comes after it is
      not stored while that entry stays listed. */
  lemma ListingStorableExactly(entries: seq<MapClient.Entry>, resolve: string -> string)
    ensures var ms := PolledRecords(entries, resolve);
            var sorted := Sorting.StableSort(ms, Backend.ByTime());
            && (Backend.AllValid(ms) <==> PhonesFit(entries))
            && (Backend.ValidPrefix(sorted) == |sorted| <==> PhonesFit(entries))
  {
    hide ValidMessage;
    hide MapClient.SenderPhone;
    hide MapClient.PolledRecord;
    var ms := PolledRecords(entries, resolve);
    forall i | 0 <= i < |entries|
      ensures ValidMessage(ms[i]) <==> |MapClient.SenderPhone(entries[i].From())| <= MAX_CONTACT_ADDRESS_CHARS
    {
      MapClient.PolledRecordValid(entries[i], resolve(entries[i].From()));
    }
    SortedAllValid(ms);
  }

  lemma SortedAllValid(ms: seq<Message>)
    ensures var sorted := Sorting.StableSort(ms, Backend.ByTime());
            Backend.ValidPrefix(sorted) == |sorted| <==> Backend.AllValid(ms)
  {
    hide ValidMessage;
    hide Sorting.StableSort;
    var sorted := Sorting.StableSort(ms, Backend.ByTime());
    Backend.ByTimeIsOrder();
    Sorting.StableSortCorrect(ms, Backend.ByTime());
    assert sorted[..|sorted|] == sorted;
    forall m ensures m in ms <==> m in sorted {
      assert m in ms <==> m in multiset(ms);
      assert m in sorted <==> m in multiset(sorted);
    }
    assert Backend.AllValid(ms) <==> forall m :: m in ms ==> ValidMessage(m);
    assert Backend.AllValid(sorted) <==> forall m :: m in sorted ==> ValidMessage(m);
  }
}
