/** Writing the header of a bMessage and parsing it back (internal/mapmsg/bmessage.go). */
module HeaderRoundTrip {
  import opened Text
  import opened Protocol
  import opened BMessage
  import opened BMessageRoundTrip
  import V = VcardRoundTrip

  /** A property line: indented, with its name in any letter case, and with parameters. */
  datatype Field = Field(pad: string, name: string, params: string, value: string) {
    function Left(): string { name + params }

    function Line(): string { pad + Left() + ":" + value }

    predicate Valid() {
      && (forall i :: 0 <= i < |pad| ==> IsSpace(pad[i]))
      && name != [] && (forall i :: 0 <= i < |name| ==> IsLetter(name[i]) || name[i] == '-')
      && (params == [] || (params[0] == ';' && ':' !in params))
      && !SameLetters(name, "BEGIN") && !SameLetters(name, "END")
    }
  }

  function FieldLines(fields: seq<Field>): (r: seq<string>)
    ensures |r| == |fields| && forall i :: 0 <= i < |fields| ==> r[i] == fields[i].Line()
  {
    seq(|fields|, i requires 0 <= i < |fields| => fields[i].Line())
  }

  predicate AllValid(fields: seq<Field>) { forall i :: 0 <= i < |fields| ==> fields[i].Valid() }

  /** Property lines with the originator's vCard among them. */
  datatype Written = Written(before: seq<Field>, begin: string, card: seq<Field>, end: string, after: seq<Field>) {
    function Lines(): seq<string> {
      FieldLines(before) + [begin] + FieldLines(card) + [end] + FieldLines(after)
    }

    predicate Valid() {
      && SameLetters(begin, "BEGIN:VCARD") && SameLetters(end, "END:VCARD")
      && AllValid(before) && AllValid(card) && AllValid(after)
    }
  }

  // ---------------------------------------------------------------- what the header says

  /** The value without the space around it, cut to a length. */
  function Short(value: string, maximum: nat): string {
    var middle := TrimSpace(value);
    if |middle| <= maximum then middle else middle[..maximum]
  }

  /** The value of the last field with this name, empty if there is none. */
  function Last(fields: seq<Field>, name: string, maximum: nat): string {
    if fields == [] then []
    else
      var f := fields[|fields| - 1];
      if SameLetters(f.name, name) then Short(f.value, maximum) else Last(fields[..|fields| - 1], name, maximum)
  }

  /** The first value that is not blank among the fields with this name. */
  function FirstUsable(fields: seq<Field>, name: string, maximum: nat): string {
    if fields == [] then []
    else if SameLetters(fields[0].name, name) && Short(fields[0].value, maximum) != [] then Short(fields[0].value, maximum)
    else FirstUsable(fields[1..], name, maximum)
  }

  /** The message a header describes: status, type and folder from outside the originator's vCard; from inside its
      name, and its first phone number or else its first email. */
  function Described(w: Written, body: string): Message {
    var outside, phone := w.before + w.after, FirstUsable(w.card, "TEL", MAX_CONTACT_ADDRESS_CHARS);
    Message(if phone != [] then phone else FirstUsable(w.card, "EMAIL", MAX_CONTACT_ADDRESS_CHARS),
            Last(w.card, "FN", MAX_CONTACT_NAME_CHARS), body,
            Last(outside, "STATUS", 512), Last(outside, "TYPE", 512), Last(outside, "FOLDER", 512))
  }

  // ---------------------------------------------------------------- reading one line

  /** What is left of the value when the line is trimmed. */
  function RightTrimmed(f: Field): string {
    var t := TrimSpace(f.Line());
    if |t| > |f.Left()| then t[|f.Left()| + 1..] else []
  }

  lemma TrimmedLine(f: Field)
    requires f.Valid()
    ensures TrimSpace(f.Line()) == f.Left() + ":" + RightTrimmed(f)
    ensures TrimSpace(RightTrimmed(f)) == TrimSpace(f.value)
  {
    var a, b := TrimParts(f.value, IsSpace);
    var middle := TrimSpace(f.value);
    TrimIsTrimmed(f.value, IsSpace);
    hide IsSpace;
    if middle == [] {
      TrimmedTo(f, [], f.value);
      TrimmedStays([], IsSpace);
    } else {
      assert f.value == (a + middle) + b;
      assert (a + middle)[|a + middle| - 1] == middle[|middle| - 1];
      TrimmedTo(f, a + middle, b);
      assert a + middle + [] == a + middle;
      TrimUnique(a, middle, [], IsSpace);
    }
  }

  lemma TrimmedTo(f: Field, v: string, tail: string)
    requires f.Valid() && f.value == v + tail && forall i :: 0 <= i < |tail| ==> IsSpace(tail[i])
    requires v != [] ==> !IsSpace(v[|v| - 1])
    ensures TrimSpace(f.Line()) == f.Left() + ":" + v && RightTrimmed(f) == v
  {
    LetterStarts(f);
    var t := f.Left() + ":" + v;
    assert t[0] == f.name[0] && t[|t| - 1] == if v == [] then ':' else v[|v| - 1];
    assert f.Line() == f.pad + t + tail;
    hide IsSpace;
    TrimUnique(f.pad, t, tail, IsSpace);
    hide TrimSpace;
    assert t[|f.Left()| + 1..] == v;
  }

  lemma LetterStarts(f: Field)
    requires f.Valid()
    ensures !IsSpace(f.name[0]) && !IsSpace(':')
  {
  }

  /** Under a folding `g` of characters, a field line is no delimiter. */
  lemma FieldIsNoDelimiter(f: Field, t: string, v: string, word: string, marker: string, g: char -> char)
    requires f.Valid() && t == f.Left() + ":" + v
    requires MarkerText(word) && ':' !in word && |word| < |marker| && marker[..|word|] == word && marker[|word|] == ':'
    requires !SameLetters(f.name, word)
    requires forall c :: IsLetter(c) || c == '-' ==> g(c) == Upper(c)
    requires g(':') == ':' && g(';') == ';'
    ensures !(|t| == |marker| && forall i :: 0 <= i < |t| ==> g(t[i]) == marker[i])
  {
    if |t| == |marker| && forall i :: 0 <= i < |t| ==> g(t[i]) == marker[i] {
      var n := |f.name|;
      assert forall i :: 0 <= i < n ==> t[i] == f.name[i];
      assert t[n] == if f.params == [] then ':' else ';';
      UpperOfLetters(f.name, word);
      NameIsWord(f, t, word, marker, g);
    }
  }

  lemma NameIsWord(f: Field, t: string, word: string, marker: string, g: char -> char)
    requires f.Valid() && |f.name| < |t| == |marker| && forall i :: 0 <= i < |t| ==> g(t[i]) == marker[i]
    requires forall i :: 0 <= i < |f.name| ==> t[i] == f.name[i]
    requires t[|f.name|] == if f.params == [] then ':' else ';'
    requires MarkerText(word) && ':' !in word && |word| < |marker| && marker[..|word|] == word && marker[|word|] == ':'
    requires forall c :: IsLetter(c) || c == '-' ==> g(c) == Upper(c)
    requires g(':') == ':' && g(';') == ';'
    ensures ToUpper(f.name) == word
  {
    var n, m := |f.name|, |word|;
    assert forall i :: 0 <= i < m ==> marker[i] == word[i] && word[i] in word;
    assert forall i :: 0 <= i < n ==> Upper(f.name[i]) == marker[i] != ':';
  }

  function NameOf(p: Property): string {
    match p
    case STATUS => "STATUS"
    case TYPE => "TYPE"
    case FOLDER => "FOLDER"
    case FN => "FN"
    case TEL => "TEL"
    case EMAIL => "EMAIL"
    case OTHER => []
  }

  /** A field line is read as its property with its value. */
  lemma FieldRead(f: Field)
    requires f.Valid()
    ensures ReadHeaderLine(f.Line()) == Value(PropertyOf(f.Left()), RightTrimmed(f))
    ensures forall p: Property :: p != OTHER ==> (PropertyOf(f.Left()) == p <==> SameLetters(f.name, NameOf(p)))
  {
    var t, v := TrimSpace(f.Line()), RightTrimmed(f);
    TrimmedLine(f);
    Words();
    FieldIsNoDelimiter(f, t, v, "BEGIN", "BEGIN:VCARD", Upper);
    FieldIsNoDelimiter(f, t, v, "END", "END:VCARD", Upper);
    NoMarkerEqual(t, "BEGIN:VCARD");
    NoMarkerEqual(t, "END:VCARD");
    V.NamePlain(f.name);
    assert ':' !in f.Left();
    V.CutPrefix(f.Left(), v);
    PropertyOfField(f);
    hide *;
    hide ReadHeaderLine;
  }

  lemma NoMarkerEqual(t: string, marker: string)
    ensures ToUpper(t) == marker <==> |t| == |marker| && forall i :: 0 <= i < |t| ==> Upper(t[i]) == marker[i]
  {
  }

  lemma Words()
    ensures MarkerText("BEGIN") && ':' !in "BEGIN" && |"BEGIN"| == 5 && MarkerText("END") && ':' !in "END" && |"END"| == 3
    ensures |"BEGIN:VCARD"| == 11 && "BEGIN:VCARD"[..5] == "BEGIN" && "BEGIN:VCARD"[5] == ':'
    ensures |"END:VCARD"| == 9 && "END:VCARD"[..3] == "END" && "END:VCARD"[3] == ':'
  {
  }

  lemma PropertyOfField(f: Field)
    requires f.Valid()
    ensures forall p: Property :: p != OTHER ==> (PropertyOf(f.Left()) == p <==> SameLetters(f.name, NameOf(p)))
  {
    V.NamePlain(f.name);
    V.BeforeParameters(f.name, f.params);
    PropertyTexts();
    forall p: Property | p != OTHER ensures ToUpper(f.name) == NameOf(p) <==> SameLetters(f.name, NameOf(p)) {
      UpperOfLetters(f.name, NameOf(p));
    }
    hide SameLetters;
    hide ToUpper;
    hide Cut;
    PropertyByName(f.Left(), f.name);
  }

  lemma PropertyByName(left: string, name: string)
    requires Cut(left, ';').0 == name
    ensures forall p: Property :: p != OTHER ==> (PropertyOf(left) == p <==> ToUpper(name) == NameOf(p))
  {
    PropertyTexts();
    hide ToUpper;
    hide Cut;
  }

  lemma PropertyTexts()
    ensures forall p: Property :: MarkerText(NameOf(p))
    ensures forall p: Property, q: Property :: NameOf(p) == NameOf(q) ==> p == q
  {
    assert |"STATUS"| == 6 && |"TYPE"| == 4 && |"FOLDER"| == 6 && |"FN"| == 2 && |"TEL"| == 3 && |"EMAIL"| == 5;
    assert "STATUS"[0] != "FOLDER"[0];
  }

  // ---------------------------------------------------------------- reading all lines

  /** The values of one property as they are read. */
  function ReadValues(fields: seq<Field>, name: string): seq<string> {
    if fields == [] then []
    else
      var f := fields[|fields| - 1];
      ReadValues(fields[..|fields| - 1], name) + (if SameLetters(f.name, name) then [RightTrimmed(f)] else [])
  }

  lemma HeaderSnoc(lines: seq<string>, line: string, p: Property, inside: bool)
    ensures var last := ReadHeaderLine(line);
            && Values(lines + [line], p, inside) == Values(lines, p, inside)
               + (if last.Value? && last.property == p && InOriginator(lines) == inside then [last.value] else [])
            && InOriginator(lines + [line]) == (last.BeginOriginator? || (!last.EndOriginator? && InOriginator(lines)))
  {
    assert (lines + [line])[..|lines|] == lines;
    hide ReadHeaderLine;
  }

  lemma {:induction false} FieldsRead(lines: seq<string>, fields: seq<Field>, p: Property, inside: bool)
    requires AllValid(fields) && p != OTHER
    ensures InOriginator(lines + FieldLines(fields)) == InOriginator(lines)
    ensures Values(lines + FieldLines(fields), p, inside)
         == Values(lines, p, inside) + (if InOriginator(lines) == inside then ReadValues(fields, NameOf(p)) else [])
  {
    hide Field.Valid;
    hide SameLetters;
    hide NameOf;
    hide Values;
    hide InOriginator;
    if fields == [] {
      assert lines + FieldLines(fields) == lines;
    } else {
      var before, f := fields[..|fields| - 1], fields[|fields| - 1];
      FieldsRead(lines, before, p, inside);
      assert lines + FieldLines(fields) == (lines + FieldLines(before)) + [f.Line()];
      HeaderSnoc(lines + FieldLines(before), f.Line(), p, inside);
      FieldRead(f);
      hide Field.Line;
    }
  }

  lemma DelimitersRead(begin: string, end: string)
    requires SameLetters(begin, "BEGIN:VCARD") && SameLetters(end, "END:VCARD")
    ensures ReadHeaderLine(begin) == BeginOriginator && ReadHeaderLine(end) == EndOriginator
  {
    V.MarkerTexts();
    AnyCase(begin, "BEGIN:VCARD");
    AnyCase(end, "END:VCARD");
    hide SameLetters;
    assert "BEGIN:VCARD"[0] != "END:VCARD"[0];
    hide TrimSpace;
    hide ToUpper;
  }

  /** What the header parser finds: outside the vCard the fields before and after it, inside those of the card. */
  lemma WrittenRead(first: seq<string>, w: Written, p: Property, inside: bool)
    requires w.Valid() && p != OTHER && !InOriginator(first) && Values(first, p, inside) == []
    ensures Values(first + w.Lines(), p, inside) ==
            if inside then ReadValues(w.card, NameOf(p)) else ReadValues(w.before, NameOf(p)) + ReadValues(w.after, NameOf(p))
  {
    hide Values;
    hide InOriginator;
    hide ReadHeaderLine;
    hide ReadValues;
    hide SameLetters;
    hide AllValid;
    hide FieldLines;
    hide NameOf;
    DelimitersRead(w.begin, w.end);
    var l1 := first + FieldLines(w.before);
    var l2 := l1 + [w.begin];
    var l3 := l2 + FieldLines(w.card);
    var l4 := l3 + [w.end];
    Reassociated(first, FieldLines(w.before), [w.begin], FieldLines(w.card), [w.end], FieldLines(w.after));
    assert w.Lines() == FieldLines(w.before) + [w.begin] + FieldLines(w.card) + [w.end] + FieldLines(w.after);
    FieldsRead(first, w.before, p, inside);
    HeaderSnoc(l1, w.begin, p, inside);
    FieldsRead(l2, w.card, p, inside);
    HeaderSnoc(l3, w.end, p, inside);
    FieldsRead(l4, w.after, p, inside);
  }

  lemma Reassociated<T>(first: seq<T>, a: seq<T>, b: seq<T>, c: seq<T>, d: seq<T>, e: seq<T>)
    ensures first + (a + b + c + d + e) == first + a + b + c + d + e
  {
  }

  lemma {:induction false} ReadConcat(a: seq<Field>, b: seq<Field>, name: string)
    ensures ReadValues(a + b, name) == ReadValues(a, name) + ReadValues(b, name)
  {
    hide SameLetters;
    if b == [] {
      assert a + b == a;
    } else {
      assert (a + b)[..|a + b| - 1] == a + b[..|b| - 1];
      ReadConcat(a, b[..|b| - 1], name);
    }
  }

  /** Cutting the read value is cutting the written one. */
  lemma BoundedIsShort(f: Field, maximum: nat)
    requires f.Valid()
    ensures Bounded(RightTrimmed(f), maximum) == Short(f.value, maximum)
  {
    TrimmedLine(f);
    hide TrimSpace;
    hide RightTrimmed;
  }

  lemma {:induction false} LastIsLast(fields: seq<Field>, name: string, maximum: nat)
    requires AllValid(fields)
    ensures LastBounded(ReadValues(fields, name), maximum) == Last(fields, name, maximum)
  {
    hide SameLetters;
    hide Field.Valid;
    hide Bounded;
    hide Short;
    if fields != [] {
      var f := fields[|fields| - 1];
      BoundedIsShort(f, maximum);
      LastIsLast(fields[..|fields| - 1], name, maximum);
    }
  }

  lemma {:induction false} FirstUsableSnoc(fields: seq<Field>, f: Field, name: string, maximum: nat)
    ensures FirstUsable(fields + [f], name, maximum) ==
            var earlier := FirstUsable(fields, name, maximum);
            if earlier != [] then earlier else if SameLetters(f.name, name) then Short(f.value, maximum) else []
  {
    hide SameLetters;
    hide Short;
    if fields == [] {
      assert fields + [f] == [f];
      assert [f][1..] == [];
    } else {
      assert (fields + [f])[1..] == fields[1..] + [f];
      FirstUsableSnoc(fields[1..], f, name, maximum);
    }
  }

  lemma {:induction false} FirstIsFirst(fields: seq<Field>, name: string, maximum: nat)
    requires AllValid(fields)
    ensures FirstBounded(ReadValues(fields, name), maximum) == FirstUsable(fields, name, maximum)
  {
    hide SameLetters;
    hide Field.Valid;
    hide Bounded;
    hide Short;
    if fields != [] {
      var before, f := fields[..|fields| - 1], fields[|fields| - 1];
      BoundedIsShort(f, maximum);
      FirstIsFirst(before, name, maximum);
      FirstUsableSnoc(before, f, name, maximum);
      assert fields == before + [f];
      var values := ReadValues(before, name);
      assert (values + [RightTrimmed(f)])[..|values|] == values && values + [] == values;
    }
  }

  lemma HeaderFields(lines: seq<string>, w: Written, body: string)
    requires w.Valid()
    requires forall p: Property :: p != OTHER ==>
               && Values(lines, p, false) == ReadValues(w.before + w.after, NameOf(p))
               && Values(lines, p, true) == ReadValues(w.card, NameOf(p))
    ensures Header(lines, body) == Described(w, body)
  {
    hide Values;
    hide SameLetters;
    hide Field.Valid;
    var outside := w.before + w.after;
    assert AllValid(outside) && AllValid(w.card);
    hide ReadValues;
    hide AllValid;
    LastIsLast(w.card, "FN", MAX_CONTACT_NAME_CHARS);
    LastIsLast(outside, "STATUS", 512);
    LastIsLast(outside, "TYPE", 512);
    LastIsLast(outside, "FOLDER", 512);
    FirstIsFirst(w.card, "TEL", MAX_CONTACT_ADDRESS_CHARS);
    FirstIsFirst(w.card, "EMAIL", MAX_CONTACT_ADDRESS_CHARS);
    assert NameOf(FN) == "FN" && NameOf(STATUS) == "STATUS" && NameOf(TYPE) == "TYPE" && NameOf(FOLDER) == "FOLDER";
    assert NameOf(TEL) == "TEL" && NameOf(EMAIL) == "EMAIL";
    hide NameOf;
    hide LastBounded;
    hide FirstBounded;
    hide Last;
    hide FirstUsable;
  }

  /** Header lines give back what they describe, whatever indent, letter case and parameters they have; other lines
      that are read as nothing may come first. */
  lemma HeaderRoundTrip(first: seq<string>, w: Written, body: string)
    requires w.Valid() && !InOriginator(first)
    requires forall p: Property, inside: bool :: p != OTHER ==> Values(first, p, inside) == []
    ensures Header(first + w.Lines(), body) == Described(w, body)
  {
    hide Values;
    hide InOriginator;
    hide Header;
    hide Described;
    hide ReadValues;
    hide Written.Valid;
    hide NameOf;
    forall p: Property | p != OTHER
      ensures Values(first + w.Lines(), p, false) == ReadValues(w.before + w.after, NameOf(p))
      ensures Values(first + w.Lines(), p, true) == ReadValues(w.card, NameOf(p))
    {
      WrittenRead(first, w, p, false);
      WrittenRead(first, w, p, true);
      ReadConcat(w.before, w.after, NameOf(p));
    }
    HeaderFields(first + w.Lines(), w, body);
  }
}
