/** The phonebook parser (internal/pbap/vcard.go). */
module Vcard {
  import opened Wrappers
  import opened Text
  import opened Model
  import opened Protocol

  // ---------------------------------------------------------------- line unfolding

  /** One pass that deletes every newline followed by a space or tab, together with that blank. */
  function DeleteFolds(s: string): string {
    if s == [] then []
    else if s[0] == '\n' && |s| > 1 && IsBlank(s[1]) then DeleteFolds(s[2..])
    else [s[0]] + DeleteFolds(s[1..])
  }

  /** What `unfoldLines` is specified to return. */
  function Unfolded(blob: string): seq<string> { Split(DeleteFolds(NormalizeNewlines(blob))) }

  predicate IsContinuation(line: string) { line != [] && IsBlank(line[0]) }

  /** Appends the continuation lines that follow to `line`, and goes on with the next line. */
  function Collect(line: string, rest: seq<string>): (lines: seq<string>)
    ensures lines != []
    decreases |rest|
  {
    if rest == [] then [line]
    else if IsContinuation(rest[0]) then Collect(line + rest[0][1..], rest[1..])
    else [line] + Collect(rest[0], rest[1..])
  }

  lemma {:induction false} CollectPrepend(c: char, line: string, rest: seq<string>)
    ensures Collect([c] + line, rest) == [[c] + Collect(line, rest)[0]] + Collect(line, rest)[1..]
    decreases |rest|
  {
    if rest != [] {
      if IsContinuation(rest[0]) {
        CollectPrepend(c, line + rest[0][1..], rest[1..]);
        assert ([c] + line) + rest[0][1..] == [c] + (line + rest[0][1..]);
      }
    }
  }

  lemma {:induction false} CollectIsDeleteFolds(s: string)
    ensures Collect(Split(s)[0], Split(s)[1..]) == Split(DeleteFolds(s))
  {
    if s == [] {
    } else if s[0] != '\n' {
      var rest := Split(s[1..]);
      CollectIsDeleteFolds(s[1..]);
      CollectPrepend(s[0], rest[0], rest[1..]);
      assert Split(s)[1..] == rest[1..];
      assert ([s[0]] + DeleteFolds(s[1..]))[1..] == DeleteFolds(s[1..]);
    } else if |s| > 1 && IsBlank(s[1]) {
      var rest := Split(s[2..]);
      CollectIsDeleteFolds(s[2..]);
      assert s[1..][1..] == s[2..];
      assert Split(s[1..]) == [[s[1]] + rest[0]] + rest[1..];
      assert Split(s)[1..] == Split(s[1..]);
      assert Collect([], Split(s[1..])) == Collect([] + ([s[1]] + rest[0])[1..], Split(s[1..])[1..]);
      assert [] + ([s[1]] + rest[0])[1..] == rest[0] && Split(s[1..])[1..] == rest[1..];
    } else {
      var rest := Split(s[1..]);
      CollectIsDeleteFolds(s[1..]);
      assert Split(s)[1..] == rest;
      FirstOfSplit(s[1..]);
      assert ([s[0]] + DeleteFolds(s[1..]))[1..] == DeleteFolds(s[1..]);
    }
  }

  lemma FirstOfSplit(s: string)
    ensures IsContinuation(Split(s)[0]) <==> s != [] && IsBlank(s[0])
  {
  }

  lemma CollectEnd(line: string, raw: seq<string>)
    ensures Collect(line, raw[|raw|..]) == [line]
  {
  }

  lemma CollectNext(line: string, raw: seq<string>, index: nat)
    requires index < |raw|
    ensures Collect(line, raw[index..]) ==
            if IsContinuation(raw[index]) then Collect(line + raw[index][1..], raw[index + 1..])
            else [line] + Collect(raw[index], raw[index + 1..])
  {
    assert raw[index..][1..] == raw[index + 1..];
  }

  /** The loop of `unfoldLines`: it walks the raw lines and glues continuations to their line. */
  method UnfoldLines(blob: string) returns (lines: seq<string>)
    ensures lines == Unfolded(blob)
  {
    hide Split;
    hide NormalizeNewlines;
    hide DeleteFolds;
    hide Collect;
    var raw := SplitLines(blob);
    ghost var all := Collect(raw[0], raw[1..]);
    lines := [];
    var index := 0;
    while index < |raw|
      invariant 0 <= index <= |raw|
      invariant all == lines + (if index < |raw| then Collect(raw[index], raw[index + 1..]) else [])
      decreases |raw| - index
    {
      var unfolded := raw[index];
      index := index + 1;
      ghost var from := index;
      while index < |raw| && IsContinuation(raw[index])
        invariant from <= index <= |raw|
        invariant all == lines + Collect(unfolded, raw[index..])
      {
        CollectNext(unfolded, raw, index);
        unfolded := unfolded + raw[index][1..];
        index := index + 1;
      }
      if index < |raw| {
        CollectNext(unfolded, raw, index);
      } else {
        CollectEnd(unfolded, raw);
      }
      lines := lines + [unfolded];
    }
    CollectIsDeleteFolds(NormalizeNewlines(blob));
  }

  /** `text` is a folded rendering of `lines`: lines end in LF or CRLF, and such a line break followed
      by a space or tab may be inserted anywhere (section 2.6 of RFC 2426). */
  predicate FoldedText(lines: seq<string>, text: string)
    decreases |text|
  {
    lines != [] &&
    if text == [] then lines == [[]]
    else if text[0] == '\r' then |text| > 1 && text[1] == '\n' && FoldedText(lines, text[1..])
    else if text[0] == '\n' then
      || (|text| > 1 && (text[1] == ' ' || text[1] == '\t') && FoldedText(lines, text[2..]))
      || (lines[0] == [] && FoldedText(lines[1..], text[1..]))
    else lines[0] != [] && lines[0][0] == text[0] && FoldedText([lines[0][1..]] + lines[1..], text[1..])
  }

  /** No line after the first starts with a blank. */
  predicate NoBlankStart(lines: seq<string>) {
    forall i :: 1 <= i < |lines| ==> !IsContinuation(lines[i])
  }

  lemma NormalizeHead(s: string)
    requires s != []
    ensures NormalizeNewlines(s) ==
            if s[0] == '\r' && |s| > 1 && s[1] == '\n' then NormalizeNewlines(s[1..])
            else [if s[0] == '\r' then '\n' else s[0]] + NormalizeNewlines(s[1..])
  {
    if s[0] == '\r' && |s| > 1 && s[1] == '\n' {
      assert ReplaceCRLF(s[1..]) == ['\n'] + ReplaceCRLF(s[2..]) by {
        assert s[1..][1..] == s[2..];
      }
    } else {
      assert ReplaceCRLF(s) == [s[0]] + ReplaceCRLF(s[1..]);
    }
  }

  lemma FoldedTextStart(lines: seq<string>, text: string)
    requires FoldedText(lines, text) && !IsContinuation(lines[0])
    ensures text != [] && NormalizeNewlines(text) != [] ==> !IsBlank(NormalizeNewlines(text)[0])
  {
    if text != [] {
      NormalizeHead(text);
      if text[0] == '\r' {
        NormalizeHead(text[1..]);
      }
    }
  }

  /** Unfolding undoes any folding. */
  lemma {:induction false} UnfoldUndoesFolding(lines: seq<string>, text: string)
    requires FoldedText(lines, text) && NoBlankStart(lines)
    ensures Unfolded(text) == lines
    decreases |text|
  {
    if text == [] {
    } else {
      NormalizeHead(text);
      if text[0] == '\r' {
        UnfoldUndoesFolding(lines, text[1..]);
      } else if text[0] != '\n' {
        var shorter := [lines[0][1..]] + lines[1..];
        UnfoldUndoesFolding(shorter, text[1..]);
        assert DeleteFolds(NormalizeNewlines(text)) == [text[0]] + DeleteFolds(NormalizeNewlines(text[1..])) by {
          assert NormalizeNewlines(text)[1..] == NormalizeNewlines(text[1..]);
        }
        SplitPrepend(text[0], DeleteFolds(NormalizeNewlines(text[1..])));
        assert shorter[1..] == lines[1..] && [text[0]] + shorter[0] == lines[0];
      } else {
        assert NormalizeNewlines(text)[1..] == NormalizeNewlines(text[1..]);
        if |text| > 1 && IsBlank(text[1]) && FoldedText(lines, text[2..]) {
          UnfoldUndoesFolding(lines, text[2..]);
          NormalizeHead(text[1..]);
          assert text[1..][1..] == text[2..];
          assert NormalizeNewlines(text) == ['\n', text[1]] + NormalizeNewlines(text[2..]);
          assert NormalizeNewlines(text)[2..] == NormalizeNewlines(text[2..]);
        } else {
          UnfoldUndoesFolding(lines[1..], text[1..]);
          FoldedTextStart(lines[1..], text[1..]);
          var rest := DeleteFolds(NormalizeNewlines(text[1..]));
          assert DeleteFolds(NormalizeNewlines(text)) == ['\n'] + rest;
          assert (['\n'] + rest)[1..] == rest;
        }
      }
    }
  }

  lemma SplitPrepend(c: char, s: string)
    requires c != '\n'
    ensures Split([c] + s) == [[c] + Split(s)[0]] + Split(s)[1..]
  {
    assert ([c] + s)[1..] == s;
  }

  // ---------------------------------------------------------------- escapes

  /** `unescape` as a function; `escaped` says whether a backslash is pending. */
  function UnescapeFrom(escaped: bool, value: string): string
    decreases |value|
  {
    if value == [] then (if escaped then "\\" else [])
    else if escaped then [if value[0] in "nN" then '\n' else value[0]] + UnescapeFrom(false, value[1..])
    else if value[0] == '\\' then UnescapeFrom(true, value[1..])
    else [value[0]] + UnescapeFrom(false, value[1..])
  }

  lemma UnescapeNext(escaped: bool, value: string, i: nat)
    requires i < |value|
    ensures UnescapeFrom(escaped, value[i..]) ==
            if escaped then [if value[i] in "nN" then '\n' else value[i]] + UnescapeFrom(false, value[i + 1..])
            else if value[i] == '\\' then UnescapeFrom(true, value[i + 1..])
            else [value[i]] + UnescapeFrom(false, value[i + 1..])
  {
    assert value[i..][1..] == value[i + 1..];
  }

  lemma UnescapeEnds()
    ensures UnescapeFrom(true, []) == "\\" && UnescapeFrom(false, []) == []
  {
  }

  method Unescape(value: string) returns (output: string)
    ensures output == UnescapeFrom(false, value)
  {
    hide UnescapeFrom;
    UnescapeEnds();
    output := [];
    var escaped := false;
    assert value[0..] == value;
    for i := 0 to |value|
      invariant output + UnescapeFrom(escaped, value[i..]) == UnescapeFrom(false, value)
    {
      var rune := value[i];
      UnescapeNext(escaped, value, i);
      if !escaped {
        if rune == '\\' {
          escaped := true;
        } else {
          output := output + [rune];
        }
      } else {
        output := output + [if rune == 'n' || rune == 'N' then '\n' else rune];
        escaped := false;
      }
    }
    assert value[|value|..] == [];
    if escaped {
      output := output + "\\";
    }
  }

  /** Text escaping of section 4 of RFC 2426. */
  function Escape(s: string): string {
    if s == [] then []
    else (if s[0] == '\n' then "\\n" else if s[0] in "\\;," then ['\\', s[0]] else [s[0]]) + Escape(s[1..])
  }

  lemma {:induction false} UnescapeUndoesEscape(s: string)
    ensures UnescapeFrom(false, Escape(s)) == s
  {
    if s != [] {
      UnescapeUndoesEscape(s[1..]);
      var rest := Escape(s[1..]);
      if s[0] == '\n' || s[0] in "\\;," {
        var mark := if s[0] == '\n' then 'n' else s[0];
        assert Escape(s) == ['\\', mark] + rest;
        assert Escape(s)[1..] == [mark] + rest && Escape(s)[1..][1..] == rest;
      } else {
        assert Escape(s)[1..] == rest;
      }
    }
  }

  lemma {:induction false} UnescapeShrinks(escaped: bool, value: string)
    ensures |UnescapeFrom(escaped, value)| <= |value| + (if escaped then 1 else 0)
    decreases |value|
  {
    if value != [] {
      UnescapeShrinks(!escaped && value[0] == '\\', value[1..]);
    }
  }

  // ---------------------------------------------------------------- addresses

  datatype AddressKind = InvalidAddress | PhoneAddress | EmailAddress

  predicate IsDigit(c: char) { '0' <= c <= '9' }

  predicate IsAlnum(c: char) { IsDigit(c) || 'a' <= c <= 'z' || 'A' <= c <= 'Z' }

  predicate PhoneChar(c: char) { IsDigit(c) || c in " ()-.+" }

  predicate PhoneShape(s: string) {
    && s != [] && (IsDigit(s[0]) || s[0] in "+(")
    && forall i :: 0 <= i < |s| ==> PhoneChar(s[i])
  }

  predicate LocalChar(c: char) { IsAlnum(c) || c in "!#$%&'*+/=?^_`{|}~.-" }

  predicate DomainChar(c: char) { IsAlnum(c) || c in ".-" }

  predicate EmailShape(s: string) {
    var at := Index(s, '@');
    && 0 < at < |s| - 1
    && (forall i :: 0 <= i < at ==> LocalChar(s[i]))
    && (forall i :: at < i < |s| ==> DomainChar(s[i]))
    && IsAlnum(s[at + 1]) && IsAlnum(s[|s| - 1])
  }

  function Digits(s: string): (r: string)
    ensures |r| <= |s|
    ensures forall i :: 0 <= i < |r| ==> IsDigit(r[i])
  {
    if s == [] then [] else (if IsDigit(s[0]) then [s[0]] else []) + Digits(s[1..])
  }

  lemma {:induction false} DigitsConcat(a: string, b: string)
    ensures Digits(a + b) == Digits(a) + Digits(b)
  {
    if a == [] {
      assert a + b == b;
    } else {
      assert (a + b)[1..] == a[1..] + b;
      DigitsConcat(a[1..], b);
    }
  }

  lemma {:induction false} DigitsOfDigits(s: string)
    requires forall i :: 0 <= i < |s| ==> IsDigit(s[i])
    ensures Digits(s) == s
  {
    if s != [] {
      DigitsOfDigits(s[1..]);
    }
  }

  /** The normal form of an address and its kind. */
  function Normalized(value: string): (string, AddressKind) {
    var s := TrimSpace(value);
    if PhoneShape(s) && |Digits(s)| >= 7 then (Digits(s), PhoneAddress)
    else if EmailShape(s) then (ToLower(s), EmailAddress)
    else ([], InvalidAddress)
  }

  method NormalizeAddress(value: string) returns (normal: string, kind: AddressKind)
    ensures (normal, kind) == Normalized(value)
  {
    var s := TrimSpace(value);
    if PhoneShape(s) {
      var digits := [];
      for i := 0 to |s|
        invariant digits == Digits(s[..i])
      {
        DigitsConcat(s[..i], [s[i]]);
        assert s[..i + 1] == s[..i] + [s[i]];
        if '0' <= s[i] <= '9' {
          digits := digits + [s[i]];
        }
      }
      assert s[..|s|] == s;
      if |digits| >= 7 {
        return digits, PhoneAddress;
      }
    }
    if EmailShape(s) {
      return ToLower(s), EmailAddress;
    }
    return [], InvalidAddress;
  }

  /** `s` shows the digits, with spaces, parentheses, hyphens, dots and plus signs anywhere. */
  predicate Shows(s: string, digits: string) {
    if s == [] then digits == []
    else if IsDigit(s[0]) then digits != [] && digits[0] == s[0] && Shows(s[1..], digits[1..])
    else s[0] in " ()-.+" && Shows(s[1..], digits)
  }

  predicate PhoneChars(s: string) { forall i :: 0 <= i < |s| ==> PhoneChar(s[i]) }

  lemma PhoneCharsHead(s: string)
    requires s != []
    ensures PhoneChars(s) <==> (IsDigit(s[0]) || s[0] in " ()-.+") && PhoneChars(s[1..])
  {
    assert PhoneChar(s[0]) <==> IsDigit(s[0]) || s[0] in " ()-.+";
    hide PhoneChar;
    hide IsDigit;
    assert forall i :: 1 <= i < |s| ==> s[i] == s[1..][i - 1];
  }

  lemma {:induction false} ShowsItsDigits(s: string, digits: string)
    ensures Shows(s, digits) <==> PhoneChars(s) && Digits(s) == digits
  {
    hide PhoneChars;
    hide IsDigit;
    if s == [] {
      NoPhoneChars();
    } else {
      PhoneCharsHead(s);
      if IsDigit(s[0]) && digits != [] {
        assert digits == [digits[0]] + digits[1..];
        assert ([s[0]] + Digits(s[1..]))[1..] == Digits(s[1..]);
        ShowsItsDigits(s[1..], digits[1..]);
      } else {
        ShowsItsDigits(s[1..], digits);
      }
    }
  }

  lemma NoPhoneChars()
    ensures PhoneChars([])
  {
  }

  /** What is a phone number: at least seven digits, spelled with separators, beginning with a digit, a plus sign or
      a parenthesis; the digits are its normal form. */
  lemma PhoneExactly(value: string, digits: string)
    ensures var s := TrimSpace(value);
            Normalized(value) == (digits, PhoneAddress) <==>
              Shows(s, digits) && |digits| >= 7 && s != [] && (IsDigit(s[0]) || s[0] == '+' || s[0] == '(')
  {
    var s := TrimSpace(value);
    ShowsItsDigits(s, digits);
    hide TrimSpace;
    hide EmailShape;
    hide Shows;
  }

  /** An address of local and domain characters is an email, in lower case. */
  lemma EmailParts(local: string, domain: string)
    requires local != [] && domain != [] && IsAlnum(domain[0]) && IsAlnum(domain[|domain| - 1])
    requires forall i :: 0 <= i < |local| ==> LocalChar(local[i])
    requires forall i :: 0 <= i < |domain| ==> DomainChar(domain[i])
    ensures Normalized(local + "@" + domain) == (ToLower(local + "@" + domain), EmailAddress)
  {
    var s := local + "@" + domain;
    EmailShapeOf(local, domain);
    AddressCharsAreNoSpace(local[0]);
    AddressCharsAreNoSpace(domain[|domain| - 1]);
    assert s[0] == local[0] && s[|s| - 1] == domain[|domain| - 1] && s[|local|] == '@';
    hide IsSpace;
    TrimmedStays(s, IsSpace);
    NotPhone(s, |local|);
    hide TrimSpace;
    hide PhoneShape;
    hide EmailShape;
    hide ToLower;
    hide LocalChar;
    hide DomainChar;
    hide IsAlnum;
  }

  lemma EmailIsParts(value: string) returns (local: string, domain: string)
    requires Normalized(value).1 == EmailAddress
    ensures TrimSpace(value) == local + "@" + domain && Normalized(value).0 == ToLower(local + "@" + domain)
    ensures local != [] && domain != [] && IsAlnum(domain[0]) && IsAlnum(domain[|domain| - 1])
    ensures forall i :: 0 <= i < |local| ==> LocalChar(local[i])
    ensures forall i :: 0 <= i < |domain| ==> DomainChar(domain[i])
  {
    hide TrimSpace;
    hide PhoneShape;
    hide LocalChar;
    hide DomainChar;
    hide IsAlnum;
    var s := TrimSpace(value);
    var at := Index(s, '@');
    local, domain := s[..at], s[at + 1..];
  }

  lemma NotPhone(s: string, i: nat)
    requires i < |s| && s[i] == '@'
    ensures !PhoneShape(s)
  {
    assert !PhoneChar(s[i]);
  }

  lemma EmailShapeOf(local: string, domain: string)
    requires local != [] && domain != [] && IsAlnum(domain[0]) && IsAlnum(domain[|domain| - 1])
    requires forall i :: 0 <= i < |local| ==> LocalChar(local[i])
    requires forall i :: 0 <= i < |domain| ==> DomainChar(domain[i])
    ensures EmailShape(local + "@" + domain)
  {
    var s := local + "@" + domain;
    assert !LocalChar('@');
    hide LocalChar;
    hide DomainChar;
    hide IsAlnum;
    forall i | 0 <= i < |local| ensures s[i] == local[i] && s[i] != '@' {
    }
    forall i | |local| < i < |s| ensures s[i] == domain[i - |local| - 1] {
    }
    IndexUnique(s, '@', |local|);
  }

  /** A text that is its own normal form. */
  predicate Normal(s: string, kind: AddressKind) { kind != InvalidAddress && Normalized(s) == (s, kind) }

  /** Normalising is idempotent and keeps the kind, and it never makes an address longer. */
  lemma NormalizeIdempotent(value: string)
    ensures var (normal, kind) := Normalized(value);
            && (kind != InvalidAddress ==> Normal(normal, kind))
            && |normal| <= |value|
  {
    var s := TrimSpace(value);
    var (normal, kind) := Normalized(value);
    if kind == PhoneAddress {
      DigitsAreNormal(normal);
    } else if kind == EmailAddress {
      LowerEmailIsNormal(s);
    }
  }

  lemma DigitsAreNormal(s: string)
    requires |s| >= 7 && forall i :: 0 <= i < |s| ==> IsDigit(s[i])
    ensures Normal(s, PhoneAddress)
  {
    TrimmedStays(s, IsSpace);
    DigitsOfDigits(s);
  }

  lemma LowerKeepsClasses(c: char)
    ensures Lower(Lower(c)) == Lower(c)
    ensures LocalChar(c) ==> LocalChar(Lower(c))
    ensures DomainChar(c) ==> DomainChar(Lower(c))
    ensures IsAlnum(c) ==> IsAlnum(Lower(c))
    ensures Lower(c) == '@' <==> c == '@'
  {
  }

  lemma LowerKeepsEmail(s: string)
    requires EmailShape(s)
    ensures EmailShape(ToLower(s)) && ToLower(ToLower(s)) == ToLower(s)
    ensures Index(ToLower(s), '@') == Index(s, '@')
  {
    hide Lower;
    hide LocalChar;
    hide DomainChar;
    hide IsAlnum;
    var low, at := ToLower(s), Index(s, '@');
    forall i | 0 <= i < |s| {
      LowerKeepsClasses(s[i]);
    }
    assert low[at] == Lower('@') == '@';
    IndexUnique(low, '@', at);
    assert ToLower(low) == low;
  }

  lemma AddressCharsAreNoSpace(c: char)
    requires LocalChar(c) || DomainChar(c)
    ensures !IsSpace(c)
  {
  }

  lemma LowerEmailIsNormal(s: string)
    requires EmailShape(s)
    ensures Normal(ToLower(s), EmailAddress)
  {
    hide IsSpace;
    hide LocalChar;
    hide DomainChar;
    hide IsAlnum;
    hide Lower;
    hide Digits;
    var low := ToLower(s);
    LowerKeepsEmail(s);
    EmailEnds(low);
    TrimmedStays(low, IsSpace);
    NotPhone(low, Index(low, '@'));
    hide EmailShape;
    hide PhoneShape;
    hide TrimSpace;
    hide ToLower;
  }

  lemma EmailEnds(s: string)
    requires EmailShape(s)
    ensures s != [] && !IsSpace(s[0]) && !IsSpace(s[|s| - 1])
  {
    AddressCharsAreNoSpace(s[0]);
    AddressCharsAreNoSpace(s[|s| - 1]);
    hide IsSpace;
    hide LocalChar;
    hide DomainChar;
    hide IsAlnum;
  }

  lemma {:induction false} IndexUnique(s: string, c: char, n: nat)
    requires n < |s| && s[n] == c && forall i :: 0 <= i < n ==> s[i] != c
    ensures Index(s, c) == n
  {
    if n > 0 {
      IndexUnique(s[1..], c, n - 1);
    }
  }

  // ---------------------------------------------------------------- one card

  datatype Limits = Limits(
    maxBytes: int,
    maxCardBytes: int,
    maxCards: int,
    maxNameChars: int,
    maxAddressChars: int,
    maxAddressesCard: int)
  {
    predicate Valid() {
      && maxBytes > 0 && maxCardBytes > 0 && maxCards > 0
      && maxNameChars > 0 && maxAddressChars > 0 && maxAddressesCard > 0
    }
  }

  const DEFAULT_LIMITS: Limits :=
    Limits(MAX_PHONEBOOK_BYTES, MAX_VCARD_BYTES, MAX_PHONEBOOK_CONTACTS,
           MAX_CONTACT_NAME_CHARS, MAX_CONTACT_ADDRESS_CHARS, MAX_ADDRESSES_PER_CARD)

  /** What follows the last dot. */
  function AfterLastDot(s: string): string {
    if '.' !in s then s else if s[|s| - 1] == '.' then [] else AfterLastDot(s[..|s| - 1]) + [s[|s| - 1]]
  }

  datatype Property = FN | TEL | EMAIL | OTHER

  /** The property of a content line, without group and parameters, from what is before its colon. */
  function PropertyOf(left: string): Property {
    var name := ToUpper(TrimSpace(AfterLastDot(Cut(left, ';').0)));
    if name == "FN" then FN else if name == "TEL" then TEL else if name == "EMAIL" then EMAIL else OTHER
  }

  function Addresses(c: Contact): nat { |c.phones| + |c.emails| }

  function SetName(c: Contact, value: string, limits: Limits): Contact
    requires limits.Valid()
  {
    c.(name := Truncate(TrimSpace(UnescapeFrom(false, value)), limits.maxNameChars))
  }

  predicate Admits(c: Contact, value: string, limits: Limits) {
    |value| <= limits.maxAddressChars && Addresses(c) < limits.maxAddressesCard
  }

  function AddPhone(c: Contact, value: string, limits: Limits): Contact {
    var (normal, kind) := Normalized(UnescapeFrom(false, value));
    if Admits(c, value, limits) && kind == PhoneAddress && normal !in c.phones
    then c.(phones := c.phones + [normal]) else c
  }

  function AddEmail(c: Contact, value: string, limits: Limits): Contact {
    var (normal, kind) := Normalized(UnescapeFrom(false, value));
    if Admits(c, value, limits) && kind == EmailAddress && normal !in c.emails
    then c.(emails := c.emails + [normal]) else c
  }

  function SetProperty(c: Contact, property: Property, value: string, limits: Limits): Contact
    requires limits.Valid()
  {
    match property
    case FN => SetName(c, value, limits)
    case TEL => AddPhone(c, value, limits)
    case EMAIL => AddEmail(c, value, limits)
    case OTHER => c
  }

  /** The effect of one content line on the contact. */
  function CardLine(c: Contact, line: string, limits: Limits): Contact
    requires limits.Valid()
  {
    var (left, value) := Cut(line, ':');
    if value.None? then c else SetProperty(c, PropertyOf(left), value.value, limits)
  }

  const NO_CONTACT := Contact([], [], [])

  function Card(lines: seq<string>, limits: Limits): Contact
    requires limits.Valid()
  {
    if lines == [] then NO_CONTACT else CardLine(Card(lines[..|lines| - 1], limits), lines[|lines| - 1], limits)
  }

  method ParseCard(lines: seq<string>, limits: Limits) returns (contact: Contact)
    requires limits.Valid()
    ensures contact == Card(lines, limits)
  {
    hide UnescapeFrom;
    hide Normalized;
    hide PropertyOf;
    hide Cut;
    hide TrimSpace;
    contact := NO_CONTACT;
    var phones: set<string> := {};
    var emails: set<string> := {};
    for n := 0 to |lines|
      invariant contact == Card(lines[..n], limits)
      invariant forall p :: p in phones <==> p in contact.phones
      invariant forall e :: e in emails <==> e in contact.emails
    {
      assert lines[..n + 1][..n] == lines[..n];
      var (left, value) := Cut(lines[n], ':');
      if value.Some? {
        match PropertyOf(left) {
          case FN =>
            var text := Unescape(value.value);
            contact := contact.(name := Truncate(TrimSpace(text), limits.maxNameChars));
          case TEL =>
            if |value.value| <= limits.maxAddressChars && |contact.phones| + |contact.emails| < limits.maxAddressesCard {
              var text := Unescape(value.value);
              var normal, kind := NormalizeAddress(text);
              if kind == PhoneAddress && normal !in phones {
                phones := phones + {normal};
                contact := contact.(phones := contact.phones + [normal]);
              }
            }
          case EMAIL =>
            if |value.value| <= limits.maxAddressChars && |contact.phones| + |contact.emails| < limits.maxAddressesCard {
              var text := Unescape(value.value);
              var normal, kind := NormalizeAddress(text);
              if kind == EmailAddress && normal !in emails {
                emails := emails + {normal};
                contact := contact.(emails := contact.emails + [normal]);
              }
            }
          case OTHER =>
        }
      }
    }
    assert lines[..|lines|] == lines;
  }

  /** A duplicate-free list of addresses in normal form, each within the length limit. */
  predicate GoodAddresses(list: seq<string>, kind: AddressKind, limits: Limits) {
    && (forall i :: 0 <= i < |list| ==> Normal(list[i], kind) && |list[i]| <= limits.maxAddressChars)
    && (forall i, j :: 0 <= i < j < |list| ==> list[i] != list[j])
  }

  predicate GoodContact(c: Contact, limits: Limits) {
    && |c.name| <= limits.maxNameChars
    && Addresses(c) <= limits.maxAddressesCard
    && GoodAddresses(c.phones, PhoneAddress, limits)
    && GoodAddresses(c.emails, EmailAddress, limits)
  }

  lemma GoodAddressesAppend(list: seq<string>, s: string, kind: AddressKind, limits: Limits)
    requires GoodAddresses(list, kind, limits)
    requires Normal(s, kind) && |s| <= limits.maxAddressChars && s !in list
    ensures GoodAddresses(list + [s], kind, limits)
  {
  }

  lemma AddressKeepsGood(c: Contact, value: string, limits: Limits)
    requires GoodContact(c, limits)
    ensures GoodContact(AddPhone(c, value, limits), limits)
    ensures GoodContact(AddEmail(c, value, limits), limits)
  {
    var text := UnescapeFrom(false, value);
    var (normal, kind) := Normalized(text);
    UnescapeShrinks(false, value);
    NormalizeIdempotent(text);
    if Admits(c, value, limits) && kind == PhoneAddress && normal !in c.phones {
      GoodAddressesAppend(c.phones, normal, kind, limits);
    }
    if Admits(c, value, limits) && kind == EmailAddress && normal !in c.emails {
      GoodAddressesAppend(c.emails, normal, kind, limits);
    }
  }

  lemma CardLineKeepsGood(c: Contact, line: string, limits: Limits)
    requires limits.Valid() && GoodContact(c, limits)
    ensures GoodContact(CardLine(c, line, limits), limits)
  {
    hide GoodContact;
    hide SetName;
    hide AddPhone;
    hide AddEmail;
    hide PropertyOf;
    var (left, value) := Cut(line, ':');
    if value.Some? {
      NameKeepsGood(c, value.value, limits);
      AddressKeepsGood(c, value.value, limits);
    }
  }

  lemma NameKeepsGood(c: Contact, value: string, limits: Limits)
    requires limits.Valid() && GoodContact(c, limits)
    ensures GoodContact(SetName(c, value, limits), limits)
  {
    hide GoodAddresses;
  }

  /** Whatever its lines, a parsed card is within every limit, and its addresses are normal forms
      without duplicates. */
  lemma {:induction false} CardIsGood(lines: seq<string>, limits: Limits)
    requires limits.Valid()
    ensures GoodContact(Card(lines, limits), limits)
  {
    if lines != [] {
      CardIsGood(lines[..|lines| - 1], limits);
      CardLineKeepsGood(Card(lines[..|lines| - 1], limits), lines[|lines| - 1], limits);
    }
  }

  // ---------------------------------------------------------------- the phonebook

  datatype ParseError = BadLimits | TooLarge | CardTooLarge | NestedCard | UnmatchedEnd | TooManyCards | Unterminated
  datatype Result<+T> = Ok(value: T) | Err(error: ParseError)

  datatype Marker = BeginCard | EndCard | NoMarker

  function MarkerOf(line: string): Marker {
    var marker := ToUpper(TrimSpace(line));
    if marker == "BEGIN:VCARD" then BeginCard else if marker == "END:VCARD" then EndCard else NoMarker
  }

  /** `checkCardSizes` on the raw lines: no card as downloaded is larger than the limit. */
  predicate CardSizesOk(lines: seq<string>, inCard: bool, size: nat, maximum: int)
    decreases |lines|
  {
    if lines == [] then true
    else
      var marker := MarkerOf(lines[0]);
      var inside := inCard || marker == BeginCard;
      var grown := (if inCard then size else 0) + Utf8Len(lines[0]) + 1;
      && (inside ==> grown <= maximum)
      && CardSizesOk(lines[1..], inside && marker != EndCard, if inside then grown else 0, maximum)
  }

  method CheckCardSizes(blob: string, maximum: int) returns (ok: bool)
    ensures ok == CardSizesOk(Split(blob), false, 0, maximum)
  {
    hide MarkerOf;
    hide Utf8Len;
    var lines := Split(blob);
    var inCard, size := false, 0;
    for n := 0 to |lines|
      invariant size >= 0
      invariant CardSizesOk(lines, false, 0, maximum)
             == CardSizesOk(lines[n..], inCard, if inCard then size else 0, maximum)
    {
      assert lines[n..][0] == lines[n] && lines[n..][1..] == lines[n + 1..];
      var marker := MarkerOf(lines[n]);
      if marker == BeginCard && !inCard {
        inCard := true;
        size := 0;
      }
      if inCard {
        size := size + Utf8Len(lines[n]) + 1;
        if size > maximum {
          return false;
        }
      }
      if marker == EndCard {
        inCard := false;
      }
    }
    return true;
  }

  /** The scanner's state; outside a card, `card` and `cardBytes` mean nothing and are kept empty. */
  datatype Scan = Scan(inCard: bool, card: seq<string>, cardBytes: nat, contacts: seq<Contact>)

  function ScanLine(st: Scan, line: string, limits: Limits): Result<Scan>
    requires limits.Valid()
  {
    var bytes := st.cardBytes + Utf8Len(line) + 1;
    match MarkerOf(line)
    case BeginCard =>
      if st.inCard then Err(NestedCard) else Ok(Scan(true, [], Utf8Len(line) + 1, st.contacts))
    case EndCard =>
      if !st.inCard then Err(UnmatchedEnd)
      else if bytes > limits.maxCardBytes then Err(CardTooLarge)
      else
        var contact := Card(st.card, limits);
        if contact == NO_CONTACT then Ok(Scan(false, [], 0, st.contacts))
        else if |st.contacts| + 1 > limits.maxCards then Err(TooManyCards)
        else Ok(Scan(false, [], 0, st.contacts + [contact]))
    case NoMarker =>
      if !st.inCard then Ok(st)
      else if bytes > limits.maxCardBytes then Err(CardTooLarge)
      else Ok(st.(card := st.card + [line], cardBytes := bytes))
  }

  function ScanLines(st: Scan, lines: seq<string>, limits: Limits): Result<Scan>
    requires limits.Valid()
    decreases |lines|
  {
    if lines == [] then Ok(st)
    else
      var next := ScanLine(st, lines[0], limits);
      if next.Err? then next else ScanLines(next.value, lines[1..], limits)
  }

  const SCAN_START := Scan(false, [], 0, [])

  function Phonebook(blob: string, limits: Limits): Result<seq<Contact>> {
    if !limits.Valid() then Err(BadLimits)
    else if Utf8Len(blob) > limits.maxBytes then Err(TooLarge)
    else if !CardSizesOk(Split(blob), false, 0, limits.maxCardBytes) then Err(CardTooLarge)
    else
      match ScanLines(SCAN_START, Unfolded(blob), limits)
      case Err(e) => Err(e)
      case Ok(st) => if st.inCard then Err(Unterminated) else Ok(st.contacts)
  }

  lemma ScanNext(st: Scan, lines: seq<string>, n: nat, limits: Limits)
    requires limits.Valid() && n < |lines|
    ensures ScanLines(st, lines[n..], limits) ==
            var next := ScanLine(st, lines[n], limits);
            if next.Err? then next else ScanLines(next.value, lines[n + 1..], limits)
  {
    assert lines[n..][1..] == lines[n + 1..];
  }

  method Parse(blob: string, limits: Limits) returns (r: Result<seq<Contact>>)
    ensures r == Phonebook(blob, limits)
  {
    hide MarkerOf;
    hide Card;
    hide CardSizesOk;
    hide GoodContact;
    hide Unfolded;
    hide Utf8Len;
    if !limits.Valid() {
      return Err(BadLimits);
    }
    if Utf8Len(blob) > limits.maxBytes {
      return Err(TooLarge);
    }
    var sizesOk := CheckCardSizes(blob, limits.maxCardBytes);
    if !sizesOk {
      return Err(CardTooLarge);
    }
    var lines := UnfoldLines(blob);
    var contacts: seq<Contact> := [];
    var card: seq<string> := [];
    var cardBytes, inCard := 0, false;
    for n := 0 to |lines|
      invariant cardBytes >= 0
      invariant ScanLines(SCAN_START, lines, limits) ==
                ScanLines(if inCard then Scan(true, card, cardBytes, contacts) else Scan(false, [], 0, contacts),
                          lines[n..], limits)
    {
      ScanNext(if inCard then Scan(true, card, cardBytes, contacts) else Scan(false, [], 0, contacts), lines, n, limits);
      var line := lines[n];
      match MarkerOf(line) {
        case BeginCard =>
          if inCard {
            return Err(NestedCard);
          }
          inCard := true;
          card := [];
          cardBytes := Utf8Len(line) + 1;
        case EndCard =>
          if !inCard {
            return Err(UnmatchedEnd);
          }
          cardBytes := cardBytes + Utf8Len(line) + 1;
          if cardBytes > limits.maxCardBytes {
            return Err(CardTooLarge);
          }
          var contact := ParseCard(card, limits);
          if contact.name != [] || |contact.phones| != 0 || |contact.emails| != 0 {
            contacts := contacts + [contact];
            if |contacts| > limits.maxCards {
              return Err(TooManyCards);
            }
          }
          inCard := false;
        case NoMarker =>
          if inCard {
            cardBytes := cardBytes + Utf8Len(line) + 1;
            if cardBytes > limits.maxCardBytes {
              return Err(CardTooLarge);
            }
            card := card + [line];
          }
      }
    }
    if inCard {
      return Err(Unterminated);
    }
    return Ok(contacts);
  }

  predicate GoodScan(st: Scan, limits: Limits) {
    && |st.contacts| <= limits.maxCards
    && forall i :: 0 <= i < |st.contacts| ==> GoodContact(st.contacts[i], limits)
  }

  lemma {:induction false} ScanKeepsGood(st: Scan, lines: seq<string>, limits: Limits)
    requires limits.Valid() && GoodScan(st, limits)
    ensures var r := ScanLines(st, lines, limits); r.Ok? ==> GoodScan(r.value, limits)
    decreases |lines|
  {
    hide MarkerOf;
    hide GoodContact;
    hide Card;
    if lines != [] {
      CardIsGood(st.card, limits);
      var next := ScanLine(st, lines[0], limits);
      if next.Ok? {
        ScanKeepsGood(next.value, lines[1..], limits);
      }
    }
  }

  /** A parsed phonebook is within all limits, whatever the text. */
  lemma PhonebookIsGood(blob: string, limits: Limits)
    ensures var r := Phonebook(blob, limits);
            r.Ok? ==> |r.value| <= limits.maxCards && forall i :: 0 <= i < |r.value| ==> GoodContact(r.value[i], limits)
  {
    hide CardSizesOk;
    hide GoodContact;
    if limits.Valid() {
      ScanKeepsGood(SCAN_START, Unfolded(blob), limits);
    }
  }
}
