/** The contact list as a value (internal/storage/repository.go): order, pages and lookup. */
module ContactBook {
  import opened Model
  import Sorting
  import Vcard

  /** Byte-wise order of UTF-8 text, which is the order of the scalar values. */
  predicate Less(a: string, b: string) {
    b != [] && (a == [] || a[0] < b[0] || (a[0] == b[0] && Less(a[1..], b[1..])))
  }

  /** `a` and `b` agree up to `k`, where `a` ends or has the smaller character. */
  predicate SmallerAt(a: string, b: string, k: nat) {
    k <= |a| && k < |b| && a[..k] == b[..k] && (k == |a| || a[k] < b[k])
  }

  lemma HeadsAgree(a: string, b: string, k: nat)
    ensures SmallerAt(a, b, k) && k > 0 ==> a != [] && b != [] && a[0] == b[0]
  {
    if SmallerAt(a, b, k) && k > 0 {
      assert a[..k][0] == a[0] && b[..k][0] == b[0];
    }
  }

  /** That is the lexicographic order. */
  lemma {:induction false} LessExactly(a: string, b: string)
    ensures Less(a, b) <==> exists k: nat :: SmallerAt(a, b, k)
  {
    if a == [] || b == [] || a[0] != b[0] {
      assert Less(a, b) ==> SmallerAt(a, b, 0);
      forall k: nat | SmallerAt(a, b, k) ensures Less(a, b) {
        HeadsAgree(a, b, k);
      }
    } else {
      LessExactly(a[1..], b[1..]);
      forall k: nat | SmallerAt(a[1..], b[1..], k) ensures SmallerAt(a, b, k + 1) {
        assert a[..k + 1] == [a[0]] + a[1..][..k] && b[..k + 1] == [b[0]] + b[1..][..k];
      }
      forall k: nat | SmallerAt(a, b, k) ensures k > 0 && SmallerAt(a[1..], b[1..], k - 1) {
        assert k > 0 ==> a[1..][..k - 1] == a[..k][1..] && b[1..][..k - 1] == b[..k][1..];
      }
    }
  }

  lemma {:induction false} LessTransitive(a: string, b: string, c: string)
    requires !Less(b, a) && !Less(c, b)
    ensures !Less(c, a)
  {
    if c != [] && b != [] && a != [] {
      if a[0] == b[0] == c[0] {
        LessTransitive(a[1..], b[1..], c[1..]);
      }
    }
  }

  lemma {:induction false} LessAsymmetric(a: string, b: string)
    requires Less(a, b)
    ensures !Less(b, a)
  {
    if a != [] && a[0] == b[0] {
      LessAsymmetric(a[1..], b[1..]);
    }
  }

  /** The order of `ReplaceContacts`; `lower` is `strings.ToLower`. */
  function ByName(lower: string -> string): (Contact, Contact) -> bool {
    (left: Contact, right: Contact) => Less(lower(left.name), lower(right.name))
  }

  function SortedByName(cs: seq<Contact>, lower: string -> string): seq<Contact> {
    Sorting.StableSort(cs, ByName(lower))
  }

  lemma ByNameIsOrder(lower: string -> string)
    ensures Sorting.StrictWeak(ByName(lower))
  {
    hide Less;
    var before := ByName(lower);
    forall x, y | before(x, y) ensures !before(y, x) {
      LessAsymmetric(lower(x.name), lower(y.name));
    }
    forall x, y, z | !before(y, x) && !before(z, y) ensures !before(z, x) {
      LessTransitive(lower(x.name), lower(y.name), lower(z.name));
    }
  }

  /** What is stored is sorted by name, a permutation of what was given, and keeps the given order among
      names that differ in case only. */
  lemma StoredOrder(cs: seq<Contact>, lower: string -> string)
    ensures var stored, before := SortedByName(cs, lower), ByName(lower);
            && (forall i, j :: 0 <= i < j < |stored| ==> !Less(lower(stored[j].name), lower(stored[i].name)))
            && multiset(stored) == multiset(cs)
            && forall c :: Sorting.TiedWith(c, stored, before) == Sorting.TiedWith(c, cs, before)
  {
    ByNameIsOrder(lower);
    Sorting.StableSortCorrect(cs, ByName(lower));
  }

  // ---------------------------------------------------------------- pages

  function Min(a: int, b: int): int { if a < b then a else b }

  /** One page; out-of-range requests give the empty page. */
  function Page(cs: seq<Contact>, offset: int, limit: int): seq<Contact> {
    if offset < 0 || limit <= 0 || offset >= |cs| then [] else cs[offset..Min(offset + limit, |cs|)]
  }

  /** All pages of one size, from `offset` up to the first empty one. */
  function PagesFrom(cs: seq<Contact>, offset: nat, limit: nat): seq<Contact>
    requires limit > 0
    decreases |cs| - offset
  {
    if offset >= |cs| then [] else Page(cs, offset, limit) + PagesFrom(cs, offset + limit, limit)
  }

  lemma {:induction false} PagesFromOffset(cs: seq<Contact>, offset: nat, limit: nat)
    requires limit > 0 && offset <= |cs|
    ensures PagesFrom(cs, offset, limit) == cs[offset..]
    decreases |cs| - offset
  {
    if offset < |cs| {
      var next := Min(offset + limit, |cs|);
      if offset + limit <= |cs| {
        PagesFromOffset(cs, offset + limit, limit);
      }
      assert cs[offset..] == cs[offset..next] + cs[next..];
    }
  }

  /** Reading page after page gives the sorted list that was stored, whatever the page size. */
  lemma PagesConcatenate(cs: seq<Contact>, lower: string -> string, limit: nat)
    requires limit > 0
    ensures PagesFrom(SortedByName(cs, lower), 0, limit) == SortedByName(cs, lower)
    ensures multiset(PagesFrom(SortedByName(cs, lower), 0, limit)) == multiset(cs)
  {
    StoredOrder(cs, lower);
    PagesFromOffset(SortedByName(cs, lower), 0, limit);
  }

  // ---------------------------------------------------------------- lookup

  /** The contact lists the normal form of an address. */
  predicate Lists(c: Contact, normal: string, kind: Vcard.AddressKind) {
    if kind == Vcard.EmailAddress then normal in c.emails else normal in c.phones
  }

  function Holders(cs: seq<Contact>, normal: string, kind: Vcard.AddressKind): seq<Contact> {
    if cs == [] then []
    else Holders(cs[..|cs| - 1], normal, kind) + (if Lists(cs[|cs| - 1], normal, kind) then [cs[|cs| - 1]] else [])
  }

  /** The name `ResolveContact` finds. */
  function Resolved(cs: seq<Contact>, address: string): string {
    var (normal, kind) := Vcard.Normalized(address);
    var holders := Holders(cs, normal, kind);
    if kind == Vcard.InvalidAddress || |holders| != 1 then [] else holders[0].name
  }

  lemma {:induction false} HoldersList(cs: seq<Contact>, normal: string, kind: Vcard.AddressKind)
    ensures forall i :: 0 <= i < |Holders(cs, normal, kind)| ==>
              Holders(cs, normal, kind)[i] in cs && Lists(Holders(cs, normal, kind)[i], normal, kind)
  {
    if cs != [] {
      HoldersList(cs[..|cs| - 1], normal, kind);
    }
  }

  lemma {:induction false} HoldersNone(cs: seq<Contact>, normal: string, kind: Vcard.AddressKind)
    requires forall i :: 0 <= i < |cs| ==> !Lists(cs[i], normal, kind)
    ensures Holders(cs, normal, kind) == []
  {
    if cs != [] {
      HoldersNone(cs[..|cs| - 1], normal, kind);
    }
  }

  lemma {:induction false} HoldersOne(cs: seq<Contact>, normal: string, kind: Vcard.AddressKind, k: nat)
    requires k < |cs| && Lists(cs[k], normal, kind)
    requires forall i :: 0 <= i < |cs| && i != k ==> !Lists(cs[i], normal, kind)
    ensures Holders(cs, normal, kind) == [cs[k]]
  {
    var before := cs[..|cs| - 1];
    if k < |before| {
      HoldersOne(before, normal, kind, k);
    } else {
      HoldersNone(before, normal, kind);
    }
  }

  lemma {:induction false} HoldersTwo(cs: seq<Contact>, normal: string, kind: Vcard.AddressKind, j: nat, k: nat)
    requires j < k < |cs| && Lists(cs[j], normal, kind) && Lists(cs[k], normal, kind)
    ensures |Holders(cs, normal, kind)| >= 2
  {
    var before := cs[..|cs| - 1];
    if k < |before| {
      HoldersTwo(before, normal, kind, j, k);
    } else {
      HoldersSome(before, normal, kind, j);
    }
  }

  lemma {:induction false} HoldersSome(cs: seq<Contact>, normal: string, kind: Vcard.AddressKind, j: nat)
    requires j < |cs| && Lists(cs[j], normal, kind)
    ensures |Holders(cs, normal, kind)| >= 1
  {
    if j < |cs| - 1 {
      HoldersSome(cs[..|cs| - 1], normal, kind, j);
    }
  }

  /** A contact with addresses in normal form is found under any spelling of one of them, if no other
      contact lists it; if another one does, the address resolves to nothing. */
  lemma ResolveFindsUniqueHolder(cs: seq<Contact>, k: nat, address: string)
    requires k < |cs|
    requires var (normal, kind) := Vcard.Normalized(address);
             kind != Vcard.InvalidAddress && Lists(cs[k], normal, kind)
    ensures var (normal, kind) := Vcard.Normalized(address);
            Resolved(cs, address) ==
            if forall i :: 0 <= i < |cs| && i != k ==> !Lists(cs[i], normal, kind) then cs[k].name else []
  {
    hide Vcard.Normalized;
    var (normal, kind) := Vcard.Normalized(address);
    if forall i :: 0 <= i < |cs| && i != k ==> !Lists(cs[i], normal, kind) {
      HoldersOne(cs, normal, kind, k);
    } else {
      var i :| 0 <= i < |cs| && i != k && Lists(cs[i], normal, kind);
      HoldersTwo(cs, normal, kind, if i < k then i else k, if i < k then k else i);
    }
  }

  /** An address listed by a parsed contact, whose addresses are all normal forms, leads to that contact's
      name, and does so exactly if no other contact lists it (unless the name is empty). */
  lemma ListedAddressResolves(cs: seq<Contact>, k: nat, address: string, kind: Vcard.AddressKind, limits: Vcard.Limits)
    requires k < |cs| && Vcard.GoodContact(cs[k], limits)
    requires if kind == Vcard.PhoneAddress then address in cs[k].phones
             else kind == Vcard.EmailAddress && address in cs[k].emails
    ensures Resolved(cs, address) ==
            if forall i :: 0 <= i < |cs| && i != k ==> !Lists(cs[i], address, kind) then cs[k].name else []
  {
    assert Vcard.Normal(address, kind);
    hide Vcard.Normalized;
    ResolveFindsUniqueHolder(cs, k, address);
  }

  /** Every spelling of an address resolves as its normal form does. */
  lemma SpellingsResolveAlike(cs: seq<Contact>, a: string)
    ensures var (normal, kind) := Vcard.Normalized(a);
            kind != Vcard.InvalidAddress ==> Resolved(cs, a) == Resolved(cs, normal)
  {
    Vcard.NormalizeIdempotent(a);
    hide Vcard.Normalized;
  }
}
