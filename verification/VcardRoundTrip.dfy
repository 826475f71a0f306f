/** Writing contacts as folded vCards and parsing them back (internal/pbap/vcard.go). */
module VcardRoundTrip {
  import opened Wrappers
  import opened Text
  import opened Model
  import opened Vcard

  /** How a property name is written: after a group with its dot, in any letter case, before parameters. */
  datatype Spelling = Spelling(group: string, name: string, params: string) {
    function Left(): string { group + name + params }

    predicate Valid() {
      && (group == [] || (group[|group| - 1] == '.' && !IsBlank(group[0]) && ';' !in group && ':' !in group))
      && |name| >= 2 && (forall i :: 0 <= i < |name| ==> IsLetter(name[i]) || name[i] == '-')
      && (params == [] || (params[0] == ';' && ':' !in params))
    }

    /** The property that is spelled. */
    predicate Is(property: string) { Valid() && SameLetters(name, property) }
  }

  datatype ContentLine = ContentLine(spelling: Spelling, value: string) {
    function Line(): string { spelling.Left() + ":" + value }
  }

  function Lines(cs: seq<ContentLine>): (r: seq<string>)
    ensures |r| == |cs| && forall i :: 0 <= i < |cs| ==> r[i] == cs[i].Line()
  {
    seq(|cs|, i requires 0 <= i < |cs| => cs[i].Line())
  }

  /** A contact as a vCard: delimiters in any letter case, lines for other properties, the name, and a spelling
      of each address. */
  datatype Written = Written(contact: Contact, begin: string, end: string, others: seq<ContentLine>, name: Spelling,
                             phones: seq<ContentLine>, emails: seq<ContentLine>)
  {
    function Body(): seq<string> {
      Lines(others) + [ContentLine(name, Escape(contact.name)).Line()] + Lines(phones) + Lines(emails)
    }

    function Card(): seq<string> { [begin] + Body() + [end] }

    predicate Valid(limits: Limits) {
      && SameLetters(begin, "BEGIN:VCARD") && SameLetters(end, "END:VCARD")
      && (forall i :: 0 <= i < |others| ==> Ignored(others[i]))
      && name.Is("FN")
      && |phones| == |contact.phones| && |emails| == |contact.emails|
      && (forall i :: 0 <= i < |phones| ==>
            phones[i].spelling.Is("TEL") && Writes(phones[i].value, contact.phones[i], PhoneAddress, limits))
      && (forall i :: 0 <= i < |emails| ==>
            emails[i].spelling.Is("EMAIL") && Writes(emails[i].value, contact.emails[i], EmailAddress, limits))
    }
  }

  /** A property the parser does not use. */
  predicate Ignored(c: ContentLine) {
    && c.spelling.Valid()
    && !SameLetters(c.spelling.name, "FN") && !SameLetters(c.spelling.name, "TEL") && !SameLetters(c.spelling.name, "EMAIL")
    && !SameLetters(c.spelling.name, "BEGIN") && !SameLetters(c.spelling.name, "END")
  }

  /** The value is some spelling of the address, within the length limit. */
  predicate Writes(value: string, address: string, kind: AddressKind, limits: Limits) {
    '\\' !in value && |value| <= limits.maxAddressChars && Normalized(value) == (address, kind)
  }

  function BookLines(book: seq<Written>): seq<string> {
    if book == [] then [[]] else book[0].Card() + BookLines(book[1..])
  }

  function Contacts(book: seq<Written>): (r: seq<Contact>)
    ensures |r| == |book| && forall i :: 0 <= i < |book| ==> r[i] == book[i].contact
  {
    seq(|book|, i requires 0 <= i < |book| => book[i].contact)
  }

  /** A contact the parser could have produced from a card with this name. */
  predicate Storable(c: Contact, limits: Limits) {
    c != NO_CONTACT && GoodContact(c, limits) && Trimmed(c.name, IsSpace)
  }

  // ---------------------------------------------------------------- single lines

  lemma TrimKeepsStart(line: string)
    requires |line| >= 2 && !IsSpace(line[0]) && !IsSpace(line[1])
    ensures |TrimSpace(line)| >= 2 && TrimSpace(line)[0] == line[0] && TrimSpace(line)[1] == line[1]
  {
    assert line[0..] == line;
  }

  lemma EmptyLine()
    ensures MarkerOf([]) == NoMarker
  {
    assert ToUpper(TrimSpace([])) == [];
  }

  lemma Markers(begin: string, end: string)
    requires SameLetters(begin, "BEGIN:VCARD") && SameLetters(end, "END:VCARD")
    ensures MarkerOf(begin) == BeginCard && MarkerOf(end) == EndCard
  {
    AnyCase(begin, "BEGIN:VCARD");
    AnyCase(end, "END:VCARD");
    hide ToUpper;
    hide TrimSpace;
    assert "BEGIN:VCARD"[0] != "END:VCARD"[0];
  }

  /** A marker is made of letters, a colon and the space around it. */
  lemma MarkerChars(line: string)
    requires MarkerOf(line) != NoMarker
    ensures forall i :: 0 <= i < |line| ==> IsSpace(line[i]) || 'A' <= Upper(line[i]) <= 'Z' || line[i] == ':'
  {
    var a, b := TrimParts(line, IsSpace);
    var middle := TrimSpace(line);
    MarkerTexts();
    assert MarkerText(ToUpper(middle));
    hide MarkerOf;
    hide TrimSpace;
    forall i | 0 <= i < |line| ensures IsSpace(line[i]) || 'A' <= Upper(line[i]) <= 'Z' || line[i] == ':' {
      if i < |a| {
        assert line[i] == a[i];
      } else if i < |a| + |middle| {
        assert line[i] == middle[i - |a|] && ToUpper(middle)[i - |a|] == Upper(line[i]);
      } else {
        assert line[i] == b[i - |a| - |middle|];
      }
    }
  }

  lemma MarkerTexts()
    ensures MarkerText("BEGIN:VCARD") && MarkerText("END:VCARD")
  {
  }

  /** What a marker that starts a line has before its colon. */
  lemma MarkerWord(line: string)
    requires MarkerOf(line) != NoMarker && line != [] && !IsSpace(line[0])
    ensures ToUpper(Cut(line, ':').0) == "BEGIN" || ToUpper(Cut(line, ':').0) == "END"
  {
    assert Leading(line, IsSpace) == 0 && line[0..] == line;
    var k := Kept(line, IsSpace);
    assert TrimSpace(line) == line[..k];
    WordTexts();
    if ToUpper(TrimSpace(line)) == "BEGIN:VCARD" {
      WordOfMarker(line, k, "BEGIN", "BEGIN:VCARD");
    } else {
      WordOfMarker(line, k, "END", "END:VCARD");
    }
  }

  lemma WordTexts()
    ensures |"BEGIN"| == 5 && |"BEGIN:VCARD"| == 11 && "BEGIN:VCARD"[..5] == "BEGIN" && "BEGIN:VCARD"[5] == ':' && ':' !in "BEGIN"
    ensures |"END"| == 3 && |"END:VCARD"| == 9 && "END:VCARD"[..3] == "END" && "END:VCARD"[3] == ':' && ':' !in "END"
  {
  }

  lemma WordOfMarker(line: string, k: nat, word: string, marker: string)
    requires k <= |line| && ToUpper(line[..k]) == marker
    requires |word| < |marker| && marker[..|word|] == word && marker[|word|] == ':' && ':' !in word
    ensures ToUpper(Cut(line, ':').0) == word
  {
    var n := |word|;
    assert ToUpper(line[..k])[n] == Upper(line[n]);
    forall i | 0 <= i < n ensures Upper(line[i]) == word[i] && line[i] != ':' {
      assert ToUpper(line[..k])[i] == Upper(line[i]) && marker[..n][i] == word[i] && word[i] in word;
    }
    IndexUnique(line, ':', n);
    assert ToUpper(line[..n]) == word;
  }

  lemma BareIsNoMarker(name: string, value: string)
    requires |name| >= 2 && forall i :: 0 <= i < |name| ==> IsLetter(name[i]) || name[i] == '-'
    requires !SameLetters(name, "BEGIN") && !SameLetters(name, "END")
    ensures MarkerOf(name + ":" + value) == NoMarker
  {
    var line := name + ":" + value;
    NamePlain(name);
    CutPrefix(name, value);
    WordTexts();
    MarkerTexts();
    hide SameLetters;
    UpperOfLetters(name, "BEGIN");
    UpperOfLetters(name, "END");
    assert line[0] == name[0] && !IsSpace(name[0]);
    hide IsSpace;
    hide ToUpper;
    hide Cut;
    if MarkerOf(line) != NoMarker {
      MarkerWord(line);
    }
  }

  /** A line with a dot or semicolon is no marker. */
  lemma PunctuatedIsNoMarker(line: string, i: nat)
    requires i < |line| && (line[i] == '.' || line[i] == ';')
    ensures MarkerOf(line) == NoMarker
  {
    assert !IsSpace(line[i]) && Upper(line[i]) == line[i];
    hide MarkerOf;
    hide IsSpace;
    if MarkerOf(line) != NoMarker {
      MarkerChars(line);
    }
  }

  lemma CutPrefix(name: string, value: string)
    requires ':' !in name
    ensures Cut(name + ":" + value, ':') == (name, Some(value))
  {
    var line := name + ":" + value;
    IndexUnique(line, ':', |name|);
    assert line[..|name|] == name && line[|name| + 1..] == value;
  }

  lemma {:induction false} NoIndex(s: string, c: char)
    requires c !in s
    ensures Index(s, c) == |s|
  {
    if s != [] {
      assert s[0] in s;
      NoIndex(s[1..], c);
    }
  }

  lemma {:induction false} AfterGroup(group: string, name: string)
    requires (group == [] || group[|group| - 1] == '.') && '.' !in name
    ensures AfterLastDot(group + name) == name
  {
    var s := group + name;
    if group != [] {
      assert s[|group| - 1] == '.';
      if name != [] {
        var shorter := name[..|name| - 1];
        assert s[..|s| - 1] == group + shorter;
        assert name == shorter + [name[|name| - 1]];
        assert s[|s| - 1] == name[|name| - 1] && name[|name| - 1] in name;
        assert forall c :: c in shorter ==> c in name;
        AfterGroup(group, shorter);
      }
    } else {
      assert s == name;
    }
  }

  lemma BeforeParameters(left: string, params: string)
    requires ';' !in left && (params == [] || params[0] == ';')
    ensures Cut(left + params, ';').0 == left
  {
    if params == [] {
      assert left + params == left;
      NoIndex(left, ';');
      assert left[..|left|] == left;
    } else {
      IndexUnique(left + params, ';', |left|);
      assert (left + params)[..|left|] == left;
    }
  }

  lemma NamePlain(name: string)
    requires forall i :: 0 <= i < |name| ==> IsLetter(name[i]) || name[i] == '-'
    ensures '.' !in name && ';' !in name && ':' !in name
  {
  }

  lemma PropertyName(sp: Spelling)
    requires sp.Valid()
    ensures ToUpper(TrimSpace(AfterLastDot(Cut(sp.Left(), ';').0))) == ToUpper(sp.name)
  {
    NamePlain(sp.name);
    BeforeParameters(sp.group + sp.name, sp.params);
    AfterGroup(sp.group, sp.name);
    UpperOfLetters(sp.name, []);
    hide ToUpper;
    hide TrimSpace;
    hide AfterLastDot;
    hide Cut;
  }

  lemma PropertyByName(left: string, name: string)
    requires ToUpper(TrimSpace(AfterLastDot(Cut(left, ';').0))) == ToUpper(name)
    ensures PropertyOf(left) ==
            if ToUpper(name) == "FN" then FN else if ToUpper(name) == "TEL" then TEL
            else if ToUpper(name) == "EMAIL" then EMAIL else OTHER
  {
    hide ToUpper;
    hide TrimSpace;
    hide AfterLastDot;
    hide Cut;
  }

  /** Group, parameters and letter case do not matter for which property a line has. */
  lemma SpelledProperty(sp: Spelling)
    requires sp.Valid()
    ensures SameLetters(sp.name, "FN") ==> PropertyOf(sp.Left()) == FN
    ensures SameLetters(sp.name, "TEL") ==> PropertyOf(sp.Left()) == TEL
    ensures SameLetters(sp.name, "EMAIL") ==> PropertyOf(sp.Left()) == EMAIL
    ensures !SameLetters(sp.name, "FN") && !SameLetters(sp.name, "TEL") && !SameLetters(sp.name, "EMAIL") ==>
              PropertyOf(sp.Left()) == OTHER
  {
    PropertyName(sp);
    PropertyByName(sp.Left(), sp.name);
    NamesDiffer();
    hide SameLetters;
    hide ToUpper;
    UpperOfLetters(sp.name, "FN");
    UpperOfLetters(sp.name, "TEL");
    UpperOfLetters(sp.name, "EMAIL");
    hide *;
  }

  lemma NamesDiffer()
    ensures "FN" != "TEL" && "FN" != "EMAIL" && "TEL" != "EMAIL"
    ensures MarkerText("FN") && MarkerText("TEL") && MarkerText("EMAIL")
  {
    assert |"FN"| == 2 && |"TEL"| == 3 && |"EMAIL"| == 5;
  }

  /** A content line acts by its property and its value. */
  lemma ContentLineActs(c: Contact, line: ContentLine, limits: Limits)
    requires limits.Valid() && line.spelling.Valid()
    ensures CardLine(c, line.Line(), limits) == SetProperty(c, PropertyOf(line.spelling.Left()), line.value, limits)
  {
    hide SetProperty;
    hide PropertyOf;
    hide Cut;
    NamePlain(line.spelling.name);
    assert ':' !in line.spelling.Left();
    CutPrefix(line.spelling.Left(), line.value);
  }

  lemma ContentLineIsNoMarker(line: ContentLine)
    requires line.spelling.Valid()
    requires !SameLetters(line.spelling.name, "BEGIN") && !SameLetters(line.spelling.name, "END")
    ensures MarkerOf(line.Line()) == NoMarker && !IsContinuation(line.Line())
  {
    hide MarkerOf;
    var sp, text := line.spelling, line.Line();
    if sp.group != [] {
      assert text[|sp.group| - 1] == '.' && text[0] == sp.group[0];
      PunctuatedIsNoMarker(text, |sp.group| - 1);
    } else {
      assert text[0] == sp.name[0];
      if sp.params != [] {
        assert text[|sp.name|] == ';';
        PunctuatedIsNoMarker(text, |sp.name|);
      } else {
        assert text == sp.name + ":" + line.value;
        BareIsNoMarker(sp.name, line.value);
      }
    }
  }

  lemma UsedIsNoDelimiter(name: string)
    ensures SameLetters(name, "FN") || SameLetters(name, "TEL") || SameLetters(name, "EMAIL") ==>
              !SameLetters(name, "BEGIN") && !SameLetters(name, "END")
  {
    assert |"FN"| == 2 && |"TEL"| == 3 && |"EMAIL"| == 5 && |"BEGIN"| == 5 && |"END"| == 3;
    assert "EMAIL"[1] == 'M' && "BEGIN"[1] == 'E' && "TEL"[0] == 'T' && "END"[0] == 'E';
  }

  lemma {:induction false} UnescapePlain(s: string)
    requires '\\' !in s
    ensures UnescapeFrom(false, s) == s
  {
    if s != [] {
      assert s[0] in s;
      UnescapePlain(s[1..]);
    }
  }

  lemma IgnoredLine(c: Contact, line: ContentLine, limits: Limits)
    requires limits.Valid() && Ignored(line)
    ensures CardLine(c, line.Line(), limits) == c
  {
    ContentLineActs(c, line, limits);
    SpelledProperty(line.spelling);
    hide *;
    hide CardLine;
  }

  lemma NameLine(c: Contact, sp: Spelling, name: string, limits: Limits)
    requires limits.Valid() && sp.Is("FN") && |name| <= limits.maxNameChars && Trimmed(name, IsSpace)
    ensures CardLine(c, ContentLine(sp, Escape(name)).Line(), limits) == c.(name := name)
  {
    hide PropertyOf;
    hide CardLine;
    hide SameLetters;
    hide Escape;
    hide UnescapeFrom;
    hide Trimmed;
    ContentLineActs(c, ContentLine(sp, Escape(name)), limits);
    SpelledProperty(sp);
    UnescapeUndoesEscape(name);
    TrimmedStays(name, IsSpace);
  }

  lemma PhoneLine(c: Contact, line: ContentLine, phone: string, limits: Limits)
    requires limits.Valid() && line.spelling.Is("TEL") && Writes(line.value, phone, PhoneAddress, limits)
    requires Addresses(c) < limits.maxAddressesCard && phone !in c.phones
    ensures CardLine(c, line.Line(), limits) == c.(phones := c.phones + [phone])
  {
    hide PropertyOf;
    hide CardLine;
    hide SameLetters;
    hide UnescapeFrom;
    hide Normalized;
    ContentLineActs(c, line, limits);
    SpelledProperty(line.spelling);
    UnescapePlain(line.value);
  }

  lemma EmailLine(c: Contact, line: ContentLine, email: string, limits: Limits)
    requires limits.Valid() && line.spelling.Is("EMAIL") && Writes(line.value, email, EmailAddress, limits)
    requires Addresses(c) < limits.maxAddressesCard && email !in c.emails
    ensures CardLine(c, line.Line(), limits) == c.(emails := c.emails + [email])
  {
    hide PropertyOf;
    hide CardLine;
    hide SameLetters;
    hide UnescapeFrom;
    hide Normalized;
    ContentLineActs(c, line, limits);
    SpelledProperty(line.spelling);
    UnescapePlain(line.value);
  }

  lemma EmailChar(s: string, i: nat)
    requires EmailShape(s) && i < |s|
    ensures Lower(s[i]) != '\\' && Lower(s[i]) != '\n' && Lower(s[i]) != '\r'
  {
    var at := Index(s, '@');
    assert i < at ==> LocalChar(s[i]);
    assert i > at ==> DomainChar(s[i]);
  }

  // ---------------------------------------------------------------- one card

  lemma CardSnoc(lines: seq<string>, line: string, limits: Limits)
    requires limits.Valid()
    ensures Card(lines + [line], limits) == CardLine(Card(lines, limits), line, limits)
  {
    assert (lines + [line])[..|lines|] == lines;
  }

  lemma LinesSnoc(cs: seq<ContentLine>, k: nat)
    requires k < |cs|
    ensures Lines(cs[..k + 1]) == Lines(cs[..k]) + [cs[k].Line()]
  {
    assert cs[..k + 1] == cs[..k] + [cs[k]];
  }

  lemma {:induction false} OtherLines(w: Written, k: nat, limits: Limits)
    requires limits.Valid() && w.Valid(limits) && k <= |w.others|
    ensures Card(Lines(w.others[..k]), limits) == NO_CONTACT
  {
    hide CardLine;
    hide Ignored;
    hide SameLetters;
    if k > 0 {
      OtherLines(w, k - 1, limits);
      LinesSnoc(w.others, k - 1);
      CardSnoc(Lines(w.others[..k - 1]), w.others[k - 1].Line(), limits);
      IgnoredLine(NO_CONTACT, w.others[k - 1], limits);
    }
  }

  lemma {:induction false} PhoneLines(lines: seq<string>, w: Written, k: nat, limits: Limits)
    requires limits.Valid() && w.Valid(limits) && GoodContact(w.contact, limits) && k <= |w.phones|
    requires Card(lines, limits) == Contact(w.contact.name, [], [])
    ensures Card(lines + Lines(w.phones[..k]), limits) == Contact(w.contact.name, w.contact.phones[..k], [])
  {
    hide CardLine;
    hide Card;
    hide Normal;
    hide Writes;
    hide SameLetters;
    var c := w.contact;
    if k == 0 {
      assert lines + Lines(w.phones[..0]) == lines;
    } else {
      PhoneLines(lines, w, k - 1, limits);
      var before := lines + Lines(w.phones[..k - 1]);
      LinesSnoc(w.phones, k - 1);
      assert lines + Lines(w.phones[..k]) == before + [w.phones[k - 1].Line()];
      CardSnoc(before, w.phones[k - 1].Line(), limits);
      PhoneLine(Contact(c.name, c.phones[..k - 1], []), w.phones[k - 1], c.phones[k - 1], limits);
      assert c.phones[..k] == c.phones[..k - 1] + [c.phones[k - 1]];
    }
  }

  lemma {:induction false} EmailLines(lines: seq<string>, w: Written, k: nat, limits: Limits)
    requires limits.Valid() && w.Valid(limits) && GoodContact(w.contact, limits) && k <= |w.emails|
    requires Card(lines, limits) == Contact(w.contact.name, w.contact.phones, [])
    ensures Card(lines + Lines(w.emails[..k]), limits) == Contact(w.contact.name, w.contact.phones, w.contact.emails[..k])
  {
    hide CardLine;
    hide Card;
    hide Normal;
    hide Writes;
    hide SameLetters;
    var c := w.contact;
    if k == 0 {
      assert lines + Lines(w.emails[..0]) == lines;
    } else {
      EmailLines(lines, w, k - 1, limits);
      var before := lines + Lines(w.emails[..k - 1]);
      LinesSnoc(w.emails, k - 1);
      assert lines + Lines(w.emails[..k]) == before + [w.emails[k - 1].Line()];
      CardSnoc(before, w.emails[k - 1].Line(), limits);
      EmailLine(Contact(c.name, c.phones, c.emails[..k - 1]), w.emails[k - 1], c.emails[k - 1], limits);
      assert c.emails[..k] == c.emails[..k - 1] + [c.emails[k - 1]];
    }
  }

  /** A card gives back its contact, whatever groups, parameters and letter case its lines have. */
  lemma CardOfBody(w: Written, limits: Limits)
    requires limits.Valid() && w.Valid(limits) && Storable(w.contact, limits)
    ensures Card(w.Body(), limits) == w.contact
  {
    var c, name := w.contact, ContentLine(w.name, Escape(w.contact.name)).Line();
    assert w.name.Is("FN") && |w.phones| == |c.phones| && |w.emails| == |c.emails|;
    hide CardLine;
    hide Card;
    hide SameLetters;
    hide Normal;
    hide Spelling.Valid;
    hide Ignored;
    hide Writes;
    hide ContentLine.Line;
    hide Escape;
    OtherLines(w, |w.others|, limits);
    assert w.others[..|w.others|] == w.others && w.phones[..|w.phones|] == w.phones && w.emails[..|w.emails|] == w.emails;
    var before := Lines(w.others);
    CardSnoc(before, name, limits);
    NameLine(NO_CONTACT, w.name, c.name, limits);
    PhoneLines(before + [name], w, |w.phones|, limits);
    assert c.phones[..|c.phones|] == c.phones && c.emails[..|c.emails|] == c.emails;
    EmailLines(before + [name] + Lines(w.phones), w, |w.emails|, limits);
  }

  lemma WrittenMarkers(w: Written, limits: Limits)
    requires w.Valid(limits)
    ensures MarkerOf(w.begin) == BeginCard && MarkerOf(w.end) == EndCard
    ensures forall i :: 0 <= i < |w.Body()| ==> MarkerOf(w.Body()[i]) == NoMarker
  {
    Markers(w.begin, w.end);
    BodyHasNoMarkers(w, limits);
    hide *;
  }

  lemma BodyHasNoMarkers(w: Written, limits: Limits)
    requires w.Valid(limits)
    ensures forall i :: 0 <= i < |w.Body()| ==> MarkerOf(w.Body()[i]) == NoMarker && !IsContinuation(w.Body()[i])
  {
    hide MarkerOf;
    hide SameLetters;
    hide Writes;
    hide IsContinuation;
    hide ContentLine.Line;
    forall c: ContentLine | c in w.others || c in w.phones || c in w.emails || c == ContentLine(w.name, Escape(w.contact.name))
      ensures MarkerOf(c.Line()) == NoMarker && !IsContinuation(c.Line())
    {
      UsedIsNoDelimiter(c.spelling.name);
      ContentLineIsNoMarker(c);
    }
    hide Written.Valid;
    hide Written.Body;
    hide Escape;
    forall i | 0 <= i < |w.Body()| ensures MarkerOf(w.Body()[i]) == NoMarker && !IsContinuation(w.Body()[i]) {
      var c := BodyAt(w, i);
    }
  }

  lemma BodyAt(w: Written, i: nat) returns (c: ContentLine)
    requires i < |w.Body()|
    ensures w.Body()[i] == c.Line()
    ensures c in w.others || c in w.phones || c in w.emails || c == ContentLine(w.name, Escape(w.contact.name))
  {
    hide ContentLine.Line;
    hide Escape;
    var n, p := |w.others|, |w.phones|;
    c := if i < n then w.others[i]
         else if i == n then ContentLine(w.name, Escape(w.contact.name))
         else if i < n + 1 + p then w.phones[i - n - 1]
         else w.emails[i - n - 1 - p];
  }

  // ---------------------------------------------------------------- the scanner

  lemma ScanCons(st: Scan, line: string, rest: seq<string>, limits: Limits)
    requires limits.Valid()
    ensures ScanLines(st, [line] + rest, limits) ==
            var next := ScanLine(st, line, limits);
            if next.Err? then next else ScanLines(next.value, rest, limits)
  {
    assert ([line] + rest)[1..] == rest;
  }

  lemma {:induction false} ScanBody(st: Scan, body: seq<string>, rest: seq<string>, limits: Limits)
    requires limits.Valid() && st.inCard
    requires forall i :: 0 <= i < |body| ==> MarkerOf(body[i]) == NoMarker
    requires st.cardBytes + LinesLen(body) <= limits.maxCardBytes
    ensures ScanLines(st, body + rest, limits) ==
            ScanLines(st.(card := st.card + body, cardBytes := st.cardBytes + LinesLen(body)), rest, limits)
    decreases |body|
  {
    hide MarkerOf;
    hide Card;
    hide Utf8Len;
    hide ScanLines;
    if body == [] {
      assert body + rest == rest && st.card + body == st.card;
    } else {
      var next := st.(card := st.card + [body[0]], cardBytes := st.cardBytes + Utf8Len(body[0]) + 1);
      assert body + rest == [body[0]] + (body[1..] + rest);
      ScanCons(st, body[0], body[1..] + rest, limits);
      ScanBody(next, body[1..], rest, limits);
      assert next.card + body[1..] == st.card + body;
    }
  }

  lemma LineLen(line: string)
    ensures LinesLen([line]) == Utf8Len(line) + 1
  {
  }

  lemma ScanCard(contacts: seq<Contact>, w: Written, rest: seq<string>, limits: Limits)
    requires limits.Valid() && w.Valid(limits) && Storable(w.contact, limits)
    requires LinesLen(w.Card()) <= limits.maxCardBytes
    requires |contacts| < limits.maxCards
    ensures ScanLines(Scan(false, [], 0, contacts), w.Card() + rest, limits)
         == ScanLines(Scan(false, [], 0, contacts + [w.contact]), rest, limits)
  {
    hide Written.Valid;
    hide MarkerOf;
    hide Vcard.Card;
    hide Storable;
    hide Written.Body;
    hide ScanLines;
    hide Utf8Len;
    hide LinesLen;
    WrittenMarkers(w, limits);
    var begin, body, end := w.begin, w.Body(), w.end;
    LineLen(begin);
    LineLen(end);
    LinesLenConcat([begin], body + [end]);
    LinesLenConcat(body, [end]);
    assert w.Card() == [begin] + (body + [end]);
    assert w.Card() + rest == [begin] + (body + ([end] + rest));
    ScanCons(Scan(false, [], 0, contacts), begin, body + ([end] + rest), limits);
    var st := Scan(true, [], Utf8Len(begin) + 1, contacts);
    ScanBody(st, body, [end] + rest, limits);
    assert [] + body == body;
    ScanEnd(contacts, w, st.cardBytes + LinesLen(body), rest, limits);
  }

  lemma ScanEnd(contacts: seq<Contact>, w: Written, bytes: nat, rest: seq<string>, limits: Limits)
    requires limits.Valid() && w.Valid(limits) && Storable(w.contact, limits)
    requires bytes + Utf8Len(w.end) + 1 <= limits.maxCardBytes && |contacts| < limits.maxCards
    ensures ScanLines(Scan(true, w.Body(), bytes, contacts), [w.end] + rest, limits)
         == ScanLines(Scan(false, [], 0, contacts + [w.contact]), rest, limits)
  {
    hide Written.Valid;
    hide MarkerOf;
    hide Vcard.Card;
    hide GoodContact;
    hide Written.Body;
    hide ScanLines;
    hide Utf8Len;
    WrittenMarkers(w, limits);
    CardOfBody(w, limits);
    ScanCons(Scan(true, w.Body(), bytes, contacts), w.end, rest, limits);
  }

  /** Cards that are well written, of contacts that can be stored, within the byte limit. */
  predicate Readable(book: seq<Written>, limits: Limits) {
    forall i :: 0 <= i < |book| ==>
      book[i].Valid(limits) && Storable(book[i].contact, limits) && LinesLen(book[i].Card()) <= limits.maxCardBytes
  }

  lemma {:induction false} ScanBook(done: seq<Contact>, book: seq<Written>, limits: Limits)
    requires limits.Valid() && |done| + |book| <= limits.maxCards && Readable(book, limits)
    ensures ScanLines(Scan(false, [], 0, done), BookLines(book), limits)
         == Ok(Scan(false, [], 0, done + Contacts(book)))
    decreases |book|
  {
    hide MarkerOf;
    hide Card;
    hide Storable;
    hide Written.Card;
    hide Written.Valid;
    hide TrimSpace;
    var st := Scan(false, [], 0, done);
    if book == [] {
      EmptyLine();
      ScanCons(st, [], [], limits);
      assert [[]] + [] == BookLines(book) && done + Contacts(book) == done;
    } else {
      ScanCard(done, book[0], BookLines(book[1..]), limits);
      ScanBook(done + [book[0].contact], book[1..], limits);
      assert (done + [book[0].contact]) + Contacts(book[1..]) == done + Contacts(book);
    }
  }

  lemma CardStartsNoLineBlank(w: Written, limits: Limits)
    requires w.Valid(limits)
    ensures forall i :: 0 <= i < |w.Card()| ==> !IsContinuation(w.Card()[i])
  {
    BodyHasNoMarkers(w, limits);
    assert "BEGIN:VCARD"[0] == 'B' && "END:VCARD"[0] == 'E';
    assert !IsContinuation(w.begin) && !IsContinuation(w.end);
    hide IsContinuation;
    hide Written.Body;
    hide Written.Valid;
    hide MarkerOf;
  }

  lemma {:induction false} BookStartsNoLineBlank(book: seq<Written>, limits: Limits)
    requires forall i :: 0 <= i < |book| ==> book[i].Valid(limits)
    ensures forall i :: 0 <= i < |BookLines(book)| ==> !IsContinuation(BookLines(book)[i])
  {
    hide Written.Valid;
    hide Written.Card;
    if book != [] {
      BookStartsNoLineBlank(book[1..], limits);
      CardStartsNoLineBlank(book[0], limits);
    }
  }

  /** Parsing gives back the contacts that were written, with whatever groups, parameters, letter case and address
      spellings, however the lines were folded and whatever line ends were used, as long as the text passes
      the parser's byte and count limits. */
  lemma PhonebookRoundTrip(book: seq<Written>, text: string, limits: Limits)
    requires limits.Valid() && Readable(book, limits) && FoldedText(BookLines(book), text)
    requires |book| <= limits.maxCards && Utf8Len(text) <= limits.maxBytes
    requires CardSizesOk(Split(text), false, 0, limits.maxCardBytes)
    ensures Phonebook(text, limits) == Ok(Contacts(book))
  {
    hide Storable;
    hide Written.Card;
    hide Written.Valid;
    hide BookLines;
    hide CardSizesOk;
    hide FoldedText;
    hide ScanLines;
    hide Unfolded;
    hide IsContinuation;
    hide Utf8Len;
    hide LinesLen;
    hide Split;
    BookStartsNoLineBlank(book, limits);
    UnfoldUndoesFolding(BookLines(book), text);
    ScanBook([], book, limits);
    assert [] + Contacts(book) == Contacts(book);
  }

  // ---------------------------------------------------------------- the plain rendering

  predicate AllOneLine(lines: seq<string>) { forall i :: 0 <= i < |lines| ==> OneLine(lines[i]) }

  /** Lines joined by newlines are a rendering of themselves, without any fold. */
  lemma {:induction false} JoinedIsFolded(lines: seq<string>)
    requires lines != [] && AllOneLine(lines)
    ensures FoldedText(lines, Join(lines))
    decreases |lines|, |lines[0]|
  {
    var text := Join(lines);
    if lines[0] != [] {
      var shorter := [lines[0][1..]] + lines[1..];
      assert shorter[1..] == lines[1..];
      assert text[1..] == Join(shorter);
      JoinedIsFolded(shorter);
      assert lines[0][0] in lines[0];
    } else if |lines| > 1 {
      assert text == "\n" + Join(lines[1..]);
      assert text[1..] == Join(lines[1..]);
      JoinedIsFolded(lines[1..]);
    }
  }

  lemma {:induction false} BookOneLine(book: seq<Written>)
    requires forall i :: 0 <= i < |book| ==> AllOneLine(book[i].Card())
    ensures AllOneLine(BookLines(book))
  {
    hide Written.Card;
    if book != [] {
      BookOneLine(book[1..]);
    }
  }

  lemma SizesCons(line: string, rest: seq<string>, inCard: bool, size: nat, maximum: int)
    ensures CardSizesOk([line] + rest, inCard, size, maximum) ==
            var inside := inCard || MarkerOf(line) == BeginCard;
            var grown := (if inCard then size else 0) + Utf8Len(line) + 1;
            && (inside ==> grown <= maximum)
            && CardSizesOk(rest, inside && MarkerOf(line) != EndCard, if inside then grown else 0, maximum)
  {
    hide MarkerOf;
    hide Utf8Len;
    assert ([line] + rest)[1..] == rest;
  }

  lemma {:induction false} SizesOfBody(body: seq<string>, rest: seq<string>, size: nat, maximum: int)
    requires forall i :: 0 <= i < |body| ==> MarkerOf(body[i]) == NoMarker
    requires size + LinesLen(body) <= maximum
    ensures CardSizesOk(body + rest, true, size, maximum) == CardSizesOk(rest, true, size + LinesLen(body), maximum)
    decreases |body|
  {
    hide MarkerOf;
    hide CardSizesOk;
    hide Utf8Len;
    if body == [] {
      assert body + rest == rest;
    } else {
      assert body + rest == [body[0]] + (body[1..] + rest);
      SizesCons(body[0], body[1..] + rest, true, size, maximum);
      SizesOfBody(body[1..], rest, size + Utf8Len(body[0]) + 1, maximum);
    }
  }

  lemma SizesOfCard(w: Written, rest: seq<string>, limits: Limits)
    requires w.Valid(limits) && LinesLen(w.Card()) <= limits.maxCardBytes
    ensures exists size: nat :: CardSizesOk(w.Card() + rest, false, 0, limits.maxCardBytes)
                             == CardSizesOk(rest, false, size, limits.maxCardBytes)
  {
    hide Written.Valid;
    hide MarkerOf;
    WrittenMarkers(w, limits);
    hide CardSizesOk;
    hide Utf8Len;
    hide LinesLen;
    hide Written.Body;
    var begin, body, end, maximum := w.begin, w.Body(), w.end, limits.maxCardBytes;
    LineLen(begin);
    LineLen(end);
    LinesLenConcat([begin], body + [end]);
    LinesLenConcat(body, [end]);
    assert w.Card() == [begin] + (body + [end]);
    assert w.Card() + rest == [begin] + (body + ([end] + rest));
    SizesCons(begin, body + ([end] + rest), false, 0, maximum);
    SizesOfBody(body, [end] + rest, Utf8Len(begin) + 1, maximum);
    SizesCons(end, rest, true, Utf8Len(begin) + 1 + LinesLen(body), maximum);
  }

  lemma {:induction false} SizesOfBook(book: seq<Written>, size: nat, limits: Limits)
    requires Readable(book, limits)
    ensures CardSizesOk(BookLines(book), false, size, limits.maxCardBytes)
    decreases |book|
  {
    hide MarkerOf;
    hide Written.Card;
    hide Written.Valid;
    hide Storable;
    hide LinesLen;
    hide CardSizesOk;
    var maximum := limits.maxCardBytes;
    if book == [] {
      EmptyLine();
      SizesCons([], [], false, size, maximum);
      assert [[]] + [] == BookLines(book);
      NoLines(maximum);
    } else {
      SizesOfCard(book[0], BookLines(book[1..]), limits);
      var s: nat :| CardSizesOk(book[0].Card() + BookLines(book[1..]), false, 0, maximum)
                 == CardSizesOk(BookLines(book[1..]), false, s, maximum);
      SizesOfBook(book[1..], s, limits);
      SizeOutsideIgnored(BookLines(book), size, maximum);
    }
  }

  lemma NoLines(maximum: int)
    ensures CardSizesOk([], false, 0, maximum)
  {
  }

  lemma SizeOutsideIgnored(lines: seq<string>, size: nat, maximum: int)
    ensures CardSizesOk(lines, false, size, maximum) == CardSizesOk(lines, false, 0, maximum)
  {
  }

  /** Cards written without folds are read back exactly, and the per-card check on the raw text passes. A name with
      a carriage return cannot be written: the parser would see a line end. */
  lemma WrittenBookReadBack(book: seq<Written>, limits: Limits)
    requires limits.Valid() && |book| <= limits.maxCards && Readable(book, limits)
    requires forall i :: 0 <= i < |book| ==> AllOneLine(book[i].Card())
    requires Utf8Len(Join(BookLines(book))) <= limits.maxBytes
    ensures Phonebook(Join(BookLines(book)), limits) == Ok(Contacts(book))
  {
    hide Written.Card;
    hide Written.Valid;
    hide BookLines;
    hide CardSizesOk;
    hide FoldedText;
    hide Utf8Len;
    hide LinesLen;
    hide Phonebook;
    hide GoodContact;
    var lines := BookLines(book);
    BookOneLine(book);
    BookNotEmpty(book);
    JoinedIsFolded(lines);
    SplitJoin(lines);
    SizesOfBook(book, 0, limits);
    PhonebookRoundTrip(book, Join(lines), limits);
  }

  lemma BookNotEmpty(book: seq<Written>)
    ensures BookLines(book) != []
  {
  }

  // ---------------------------------------------------------------- one way of writing

  function Named(property: string, values: seq<string>): (r: seq<ContentLine>)
    ensures |r| == |values|
    ensures forall i :: 0 <= i < |values| ==> r[i] == ContentLine(Spelling([], property, []), values[i])
  {
    seq(|values|, i requires 0 <= i < |values| => ContentLine(Spelling([], property, []), values[i]))
  }

  /** The contact as a version 3.0 card, with its addresses as they are stored. */
  function Plainly(c: Contact): Written {
    Written(c, "BEGIN:VCARD", "END:VCARD", [ContentLine(Spelling([], "VERSION", []), "3.0")], Spelling([], "FN", []),
            Named("TEL", c.phones), Named("EMAIL", c.emails))
  }

  /** Every contact that can be stored can be written. */
  lemma PlainlyIsWritten(c: Contact, limits: Limits)
    requires GoodContact(c, limits)
    ensures Plainly(c).Valid(limits)
  {
    PlainNames();
    forall i | 0 <= i < |c.phones| ensures Writes(c.phones[i], c.phones[i], PhoneAddress, limits) {
      AddressPlain(c.phones[i], PhoneAddress);
    }
    forall i | 0 <= i < |c.emails| ensures Writes(c.emails[i], c.emails[i], EmailAddress, limits) {
      AddressPlain(c.emails[i], EmailAddress);
    }
    hide Writes;
    hide GoodContact;
    hide SameLetters;
    hide Ignored;
    hide Spelling.Is;
  }

  /** Its lines hold no line breaks if its name holds no carriage return. */
  lemma PlainlyOneLine(c: Contact, limits: Limits)
    requires GoodContact(c, limits) && '\r' !in c.name
    ensures AllOneLine(Plainly(c).Card())
  {
    hide GoodContact;
    hide Lines;
    hide Escape;
    hide Named;
    AddressesOneLine(c, limits);
    PlainHead(c);
    PlainLines("TEL", c.phones);
    PlainLines("EMAIL", c.emails);
    hide AllOneLine;
    hide OneLine;
    var w := Plainly(c);
    var name := ContentLine(w.name, Escape(c.name)).Line();
    OneLineConcat(Lines(w.others), [name]);
    OneLineConcat(Lines(w.others) + [name], Lines(w.phones));
    OneLineConcat(Lines(w.others) + [name] + Lines(w.phones), Lines(w.emails));
    OneLineConcat([w.begin], w.Body());
    OneLineConcat([w.begin] + w.Body(), [w.end]);
    SingleOneLine(name);
    SingleOneLine(w.begin);
    SingleOneLine(w.end);
  }

  lemma PlainHead(c: Contact)
    requires '\r' !in c.name
    ensures var w := Plainly(c);
            && OneLine(ContentLine(w.name, Escape(c.name)).Line()) && AllOneLine(Lines(w.others))
            && OneLine(w.begin) && OneLine(w.end)
    ensures OneLine("TEL") && OneLine("EMAIL")
  {
    EscapeOneLine(c.name);
    hide Escape;
    hide Named;
    VersionOneLine();
    FirstNameOneLine(Escape(c.name));
    assert Plainly(c).others[0].Line() == [] + "VERSION" + [] + ":" + "3.0";
  }

  lemma VersionOneLine()
    ensures OneLine([] + "VERSION" + [] + ":" + "3.0")
    ensures OneLine("BEGIN:VCARD") && OneLine("END:VCARD") && OneLine("TEL") && OneLine("EMAIL")
  {
  }

  lemma FirstNameOneLine(value: string)
    requires OneLine(value)
    ensures OneLine(ContentLine(Spelling([], "FN", []), value).Line())
  {
  }

  lemma AddressesOneLine(c: Contact, limits: Limits)
    requires GoodContact(c, limits)
    ensures forall i :: 0 <= i < |c.phones| ==> OneLine(c.phones[i])
    ensures forall i :: 0 <= i < |c.emails| ==> OneLine(c.emails[i])
  {
    forall i | 0 <= i < |c.phones| ensures OneLine(c.phones[i]) {
      AddressPlain(c.phones[i], PhoneAddress);
    }
    forall i | 0 <= i < |c.emails| ensures OneLine(c.emails[i]) {
      AddressPlain(c.emails[i], EmailAddress);
    }
  }

  lemma OneLineConcat(a: seq<string>, b: seq<string>)
    ensures AllOneLine(a) && AllOneLine(b) ==> AllOneLine(a + b)
  {
  }

  lemma SingleOneLine(line: string)
    ensures OneLine(line) ==> AllOneLine([line])
  {
  }

  lemma PlainLines(property: string, values: seq<string>)
    requires OneLine(property) && forall i :: 0 <= i < |values| ==> OneLine(values[i])
    ensures AllOneLine(Lines(Named(property, values)))
  {
  }

  lemma PlainNames()
    ensures Spelling([], "FN", []).Is("FN") && Spelling([], "TEL", []).Is("TEL") && Spelling([], "EMAIL", []).Is("EMAIL")
    ensures Ignored(ContentLine(Spelling([], "VERSION", []), "3.0"))
    ensures SameLetters("BEGIN:VCARD", "BEGIN:VCARD") && SameLetters("END:VCARD", "END:VCARD")
  {
    assert |"VERSION"| == 7 && |"FN"| == 2 && |"TEL"| == 3 && |"EMAIL"| == 5 && |"BEGIN"| == 5 && |"END"| == 3;
  }

  lemma {:induction false} EscapeOneLine(s: string)
    requires '\r' !in s
    ensures OneLine(Escape(s))
  {
    if s != [] {
      assert s[0] in s;
      EscapeOneLine(s[1..]);
    }
  }

  lemma AddressPlain(address: string, kind: AddressKind)
    requires Normal(address, kind)
    ensures OneLine(address) && '\\' !in address
  {
    hide EmailShape;
    hide PhoneShape;
    hide TrimSpace;
    hide Digits;
    var s := TrimSpace(address);
    if kind == PhoneAddress {
      assert Digits(s) == address;
    } else {
      assert EmailShape(s) && ToLower(s) == address;
      forall i | 0 <= i < |address| ensures address[i] != '\n' && address[i] != '\r' && address[i] != '\\' {
        EmailChar(s, i);
      }
    }
  }
}
