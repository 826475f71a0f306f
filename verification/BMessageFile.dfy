/** Writing a whole bMessage file and parsing it back (internal/mapmsg/bmessage.go). */
module BMessageFile {
  import opened Wrappers
  import opened Text
  import opened BMessage
  import opened BMessageRoundTrip
  import H = HeaderRoundTrip
  import V = VcardRoundTrip

  /** The delimiters of the format, in any letter case; between them the header, the envelope with the recipient, the
      properties of the body region, and the message block. */
  datatype File = File(begin: string, header: H.Written, envelope: string, recipient: seq<string>, region: string,
                       properties: seq<string>, indent: string, endRegion: string, endEnvelope: string, end: string)
  {
    function Before(): seq<string> { [begin] + header.Lines() + [envelope] + recipient + [region] + properties }

    function After(): seq<string> { [endRegion, endEnvelope, end] }

    function Lines(body: string): seq<string> { Document(Before(), indent, body, After()) }

    predicate Valid() {
      && SameLetters(begin, "BEGIN:BMSG") && SameLetters(envelope, "BEGIN:BENV") && SameLetters(region, "BEGIN:BBODY")
      && SameLetters(endRegion, "END:BBODY") && SameLetters(endEnvelope, "END:BENV") && SameLetters(end, "END:BMSG")
      && header.Valid() && Blank(indent) && NoBodyMarkers(recipient) && NoBodyMarkers(properties)
    }
  }

  predicate NoBodyMarkers(lines: seq<string>) { forall i :: 0 <= i < |lines| ==> BodyMarkerOf(lines[i]) == NoBodyMarker }

  // ---------------------------------------------------------------- delimiters

  lemma MarkerTexts()
    ensures MarkerText("BEGIN:BMSG") && MarkerText("BEGIN:BENV") && MarkerText("BEGIN:BBODY") && MarkerText("BEGIN:VCARD")
    ensures MarkerText("END:BMSG") && MarkerText("END:BENV") && MarkerText("END:BBODY") && MarkerText("END:VCARD")
  {
  }

  /** A line that is a delimiter in any letter case is that marker and no other. */
  lemma DelimiterLine(line: string, marker: string)
    requires SameLetters(line, marker) && MarkerText(marker) && marker != []
    ensures forall m :: IsMarker(line, m) <==> m == marker
    ensures ToUpper(TrimSpace(TrimLeft(line, IsBlank))) == marker
  {
    AnyCase(line, marker);
    assert !IsBlank(line[0]);
    hide SameLetters;
    assert Leading(line, IsBlank) == 0 && line[0..] == line;
    forall m ensures EqualFold(line, m) <==> m == marker {
      if EqualFold(line, m) {
        assert |m| == |marker| && forall i :: 0 <= i < |m| ==> m[i] == marker[i];
      }
    }
    hide TrimSpace;
    hide ToUpper;
    hide EqualFold;
  }

  lemma DelimitersInBody()
    ensures forall line :: BodyMarkerOf(line) ==
              var marker := ToUpper(TrimSpace(TrimLeft(line, IsBlank)));
              if marker == "BEGIN:BBODY" then BeginBody else if marker == "END:BBODY" then EndBody
              else if marker == "BEGIN:MSG" then BeginMsg else if marker == "END:MSG" then EndMsg else NoBodyMarker
  {
  }

  lemma TextsDiffer()
    ensures forall m | m in ["BEGIN:BMSG", "BEGIN:BENV", "BEGIN:VCARD", "END:VCARD", "END:BENV", "END:BMSG"] ::
              m != "BEGIN:BBODY" && m != "END:BBODY" && m != "BEGIN:MSG" && m != "END:MSG"
    ensures "BEGIN:BMSG" != "BEGIN:BENV" && "BEGIN:VCARD" != "BEGIN:BENV" && "END:VCARD" != "BEGIN:BENV"
  {
    assert |"BEGIN:BMSG"| == 10 && |"BEGIN:BENV"| == 10 && |"BEGIN:BBODY"| == 11 && |"BEGIN:VCARD"| == 11;
    assert |"END:VCARD"| == 9 && |"END:BBODY"| == 9 && |"END:BENV"| == 8 && |"END:BMSG"| == 8 && |"BEGIN:MSG"| == 9 && |"END:MSG"| == 7;
    assert "BEGIN:BMSG"[7] == 'M' && "BEGIN:BENV"[7] == 'E' && "BEGIN:VCARD"[6] == 'V' && "BEGIN:BBODY"[6] == 'B';
    assert "END:VCARD"[4] == 'V' && "END:BBODY"[4] == 'B' && "BEGIN:MSG"[0] == 'B' && "END:VCARD"[0] == 'E';
  }

  lemma OutsideDelimiter(line: string, marker: string)
    requires SameLetters(line, marker) && MarkerText(marker)
    requires marker in ["BEGIN:BMSG", "BEGIN:BENV", "BEGIN:VCARD", "END:VCARD", "END:BENV", "END:BMSG"]
    ensures BodyMarkerOf(line) == NoBodyMarker && IsMarker(line, marker)
    ensures marker != "BEGIN:BENV" ==> !IsMarker(line, "BEGIN:BENV")
  {
    TextsDiffer();
    assert marker != [];
    DelimiterLine(line, marker);
    DelimitersInBody();
    hide *;
  }

  lemma RegionDelimiters(f: File)
    requires f.Valid()
    ensures BodyMarkerOf(f.region) == BeginBody && BodyMarkerOf(f.endRegion) == EndBody && IsMarker(f.region, "BEGIN:BBODY")
  {
    hide SameLetters;
    hide H.Written.Valid;
    hide NoBodyMarkers;
    hide Blank;
    MarkerTexts();
    hide MarkerText;
    assert |"BEGIN:BBODY"| == 11 && |"END:BBODY"| == 9;
    DelimiterLine(f.region, "BEGIN:BBODY");
    DelimiterLine(f.endRegion, "END:BBODY");
    DelimitersInBody();
    hide BodyMarkerOf;
    hide IsMarker;
    hide ToUpper;
    hide TrimSpace;
    hide TrimLeft;
    assert "END:BBODY"[0] == 'E' && "BEGIN:BBODY"[0] == 'B';
  }

  // ---------------------------------------------------------------- header lines

  lemma TrimLeftFirst(line: string)
    ensures TrimSpace(TrimLeft(line, IsBlank)) == TrimSpace(line)
  {
    var a, b := TrimParts(line, IsSpace);
    var middle, n := TrimSpace(line), Leading(line, IsBlank);
    TrimIsTrimmed(line, IsSpace);
    BlankIsSpace();
    hide IsSpace;
    hide IsBlank;
    if middle == [] {
      assert line == a + b && forall i :: 0 <= i < |line| ==> IsSpace(line[i]);
      assert line[n..] + [] + [] == line[n..];
      TrimUnique(line[n..], [], [], IsSpace);
    } else {
      assert line[|a|] == middle[0];
      assert n <= |a|;
      assert line[n..] == a[n..] + middle + b;
      TrimUnique(a[n..], middle, b, IsSpace);
    }
  }

  lemma BlankIsSpace()
    ensures forall c :: IsBlank(c) ==> IsSpace(c)
  {
  }

  lemma FieldOutside(field: H.Field)
    requires field.Valid()
    ensures BodyMarkerOf(field.Line()) == NoBodyMarker && !IsMarker(field.Line(), "BEGIN:BENV")
  {
    var line, t := field.Line(), TrimSpace(field.Line());
    var v := H.RightTrimmed(field);
    H.TrimmedLine(field);
    TrimLeftFirst(line);
    H.Words();
    FieldTexts();
    FoldLetters();
    H.FieldIsNoDelimiter(field, t, v, "BEGIN", "BEGIN:BENV", Fold);
    H.FieldIsNoDelimiter(field, t, v, "BEGIN", "BEGIN:BBODY", Upper);
    H.FieldIsNoDelimiter(field, t, v, "END", "END:BBODY", Upper);
    H.FieldIsNoDelimiter(field, t, v, "BEGIN", "BEGIN:MSG", Upper);
    H.FieldIsNoDelimiter(field, t, v, "END", "END:MSG", Upper);
    H.NoMarkerEqual(t, "BEGIN:BBODY");
    H.NoMarkerEqual(t, "END:BBODY");
    H.NoMarkerEqual(t, "BEGIN:MSG");
    H.NoMarkerEqual(t, "END:MSG");
    DelimitersInBody();
    NoFoldEqual(t, "BEGIN:BENV");
    hide *;
    hide IsMarker;
  }

  lemma NoFoldEqual(t: string, marker: string)
    ensures EqualFold(t, marker) <==> |t| == |marker| && forall i :: 0 <= i < |t| ==> Fold(t[i]) == marker[i]
  {
  }

  lemma FoldLetters()
    ensures forall c :: IsLetter(c) || c == '-' ==> Fold(c) == Upper(c)
    ensures Fold(':') == ':' && Fold(';') == ';' && Upper(':') == ':' && Upper(';') == ';'
  {
  }

  lemma FieldTexts()
    ensures |"BEGIN:BENV"| == 10 && "BEGIN:BENV"[..5] == "BEGIN" && "BEGIN:BENV"[5] == ':'
    ensures |"BEGIN:BBODY"| == 11 && "BEGIN:BBODY"[..5] == "BEGIN" && "BEGIN:BBODY"[5] == ':'
    ensures |"BEGIN:MSG"| == 9 && "BEGIN:MSG"[..5] == "BEGIN" && "BEGIN:MSG"[5] == ':'
    ensures |"END:BBODY"| == 9 && "END:BBODY"[..3] == "END" && "END:BBODY"[3] == ':'
    ensures |"END:MSG"| == 7 && "END:MSG"[..3] == "END" && "END:MSG"[3] == ':'
  {
  }

  lemma FieldsOutside(fields: seq<H.Field>)
    requires H.AllValid(fields)
    ensures NoBodyMarkers(H.FieldLines(fields)) && NoneIs(H.FieldLines(fields), "BEGIN:BENV")
  {
    hide BodyMarkerOf;
    hide IsMarker;
    hide H.Field.Valid;
    forall i | 0 <= i < |fields|
      ensures BodyMarkerOf(fields[i].Line()) == NoBodyMarker && !IsMarker(fields[i].Line(), "BEGIN:BENV")
    {
      FieldOutside(fields[i]);
    }
  }

  predicate NoneIs(lines: seq<string>, marker: string) { forall i :: 0 <= i < |lines| ==> !IsMarker(lines[i], marker) }

  lemma OutsideConcat(a: seq<string>, b: seq<string>)
    ensures NoBodyMarkers(a) && NoBodyMarkers(b) ==> NoBodyMarkers(a + b)
    ensures forall m :: NoneIs(a, m) && NoneIs(b, m) ==> NoneIs(a + b, m)
  {
    hide BodyMarkerOf;
    hide IsMarker;
  }

  lemma OneOutside(line: string)
    ensures BodyMarkerOf(line) == NoBodyMarker ==> NoBodyMarkers([line])
    ensures forall m :: !IsMarker(line, m) ==> NoneIs([line], m)
  {
    hide BodyMarkerOf;
    hide IsMarker;
  }

  lemma HeaderOutside(begin: string, w: H.Written)
    requires SameLetters(begin, "BEGIN:BMSG") && w.Valid()
    ensures NoBodyMarkers([begin] + w.Lines()) && NoneIs([begin] + w.Lines(), "BEGIN:BENV")
  {
    MarkerTexts();
    OutsideDelimiter(begin, "BEGIN:BMSG");
    OutsideDelimiter(w.begin, "BEGIN:VCARD");
    OutsideDelimiter(w.end, "END:VCARD");
    TextsDiffer();
    FieldsOutside(w.before);
    FieldsOutside(w.card);
    FieldsOutside(w.after);
    OneOutside(begin);
    OneOutside(w.begin);
    OneOutside(w.end);
    hide NoBodyMarkers;
    hide NoneIs;
    hide BodyMarkerOf;
    hide IsMarker;
    hide H.FieldLines;
    var l1 := H.FieldLines(w.before) + [w.begin];
    var l2 := l1 + H.FieldLines(w.card);
    OutsideConcat(H.FieldLines(w.before), [w.begin]);
    OutsideConcat(l1, H.FieldLines(w.card));
    OutsideConcat(l2, [w.end]);
    OutsideConcat(l2 + [w.end], H.FieldLines(w.after));
    OutsideConcat([begin], w.Lines());
  }

  /** The first line of the file says nothing to the header parser. */
  lemma BeginIsNothing(begin: string, p: Property, inside: bool)
    requires SameLetters(begin, "BEGIN:BMSG") && p != OTHER
    ensures !InOriginator([begin]) && Values([begin], p, inside) == []
  {
    MarkerTexts();
    AnyCase(begin, "BEGIN:BMSG");
    BeginSplit(begin);
    H.HeaderSnoc([], begin, p, inside);
    assert [] + [begin] == [begin];
  }

  lemma BeginSplit(begin: string)
    requires SameLetters(begin, "BEGIN:BMSG")
    ensures ReadHeaderLine(begin).Value? && ReadHeaderLine(begin).property == OTHER
  {
    MarkerTexts();
    AnyCase(begin, "BEGIN:BMSG");
    TextsDiffer();
    assert |"BEGIN:BMSG"| == 10 && |"BEGIN:VCARD"| == 11 && |"END:VCARD"| == 9;
    var name := begin[..5];
    BeginLetters(begin);
    assert begin == name + ":" + begin[6..];
    V.CutPrefix(name, begin[6..]);
    BeginIsOther(name);
    hide ToUpper;
    hide TrimSpace;
    hide Cut;
    hide PropertyOf;
    hide SameLetters;
  }

  lemma BeginLetters(begin: string)
    requires SameLetters(begin, "BEGIN:BMSG")
    ensures |begin| == 10 && begin[5] == ':' && SameLetters(begin[..5], "BEGIN") && ':' !in begin[..5] && ';' !in begin[..5]
  {
    assert |"BEGIN:BMSG"| == 10 && "BEGIN:BMSG"[5] == ':' && "BEGIN:BMSG"[..5] == "BEGIN";
    assert forall i :: 0 <= i < 5 ==> "BEGIN:BMSG"[i] == "BEGIN"[i];
  }

  lemma BeginIsOther(name: string)
    requires SameLetters(name, "BEGIN") && ';' !in name
    ensures PropertyOf(name) == OTHER
  {
    H.Words();
    AnyCase(name, "BEGIN");
    V.NoIndex(name, ';');
    assert name[..|name|] == name;
    assert |"BEGIN"| == 5 && |"STATUS"| == 6 && |"TYPE"| == 4 && |"FOLDER"| == 6 && |"FN"| == 2 && |"TEL"| == 3;
    assert |"EMAIL"| == 5 && "EMAIL"[0] != "BEGIN"[0];
    hide ToUpper;
    hide SameLetters;
  }

  // ---------------------------------------------------------------- the whole file

  lemma {:induction false} ReachesPast(lines: seq<string>, rest: seq<string>, inside: bool)
    requires NoBodyMarkers(lines)
    ensures ReachesRegion(lines + rest, inside) == ReachesRegion(rest, inside)
    decreases |lines|
  {
    hide BodyMarkerOf;
    if lines == [] {
      assert lines + rest == rest;
    } else {
      assert (lines + rest)[1..] == lines[1..] + rest;
      ReachesPast(lines[1..], rest, inside);
    }
  }

  lemma FileDelimiters(f: File)
    requires f.Valid()
    ensures NoBodyMarkers([f.begin] + f.header.Lines()) && NoneIs([f.begin] + f.header.Lines(), "BEGIN:BENV")
    ensures NoBodyMarkers([f.envelope]) && NoBodyMarkers(f.recipient) && NoBodyMarkers(f.properties)
    ensures IsMarker(f.begin, "BEGIN:BMSG") && IsMarker(f.envelope, "BEGIN:BENV") && IsMarker(f.end, "END:BMSG")
    ensures BodyMarkerOf(f.region) == BeginBody && IsMarker(f.region, "BEGIN:BBODY")
    ensures NeverReopens(f.After())
  {
    hide SameLetters;
    hide BodyMarkerOf;
    hide IsMarker;
    hide NoBodyMarkers;
    hide NoneIs;
    hide H.Written.Valid;
    hide H.Written.Lines;
    hide Blank;
    MarkerTexts();
    hide MarkerText;
    RegionDelimiters(f);
    HeaderOutside(f.begin, f.header);
    OutsideDelimiter(f.begin, "BEGIN:BMSG");
    OutsideDelimiter(f.envelope, "BEGIN:BENV");
    OutsideDelimiter(f.endEnvelope, "END:BENV");
    OutsideDelimiter(f.end, "END:BMSG");
    OneOutside(f.envelope);
  }

  lemma FileReaches(f: File)
    requires f.Valid()
    ensures ReachesRegion(f.Before(), false)
  {
    hide File.Valid;
    hide BodyMarkerOf;
    hide NoBodyMarkers;
    hide ReachesRegion;
    hide H.Written.Lines;
    FileDelimiters(f);
    var head := [f.begin] + f.header.Lines();
    OutsideConcat(head, [f.envelope]);
    OutsideConcat(head + [f.envelope], f.recipient);
    var outside := head + [f.envelope] + f.recipient;
    assert f.Before() == outside + ([f.region] + f.properties);
    ReachesPast(outside, [f.region] + f.properties, false);
    RegionReached(f.region, f.properties);
  }

  lemma RegionReached(region: string, properties: seq<string>)
    requires BodyMarkerOf(region) == BeginBody && NoBodyMarkers(properties)
    ensures ReachesRegion([region] + properties, false)
  {
    hide BodyMarkerOf;
    assert ([region] + properties)[1..] == properties && properties + [] == properties;
    ReachesPast(properties, [], true);
  }

  lemma HasMarkerAt(lines: seq<string>, i: nat, marker: string)
    requires i < |lines| && IsMarker(lines[i], marker)
    ensures HasMarker(lines, marker)
    decreases i
  {
    hide IsMarker;
    if i > 0 && !IsMarker(lines[0], marker) {
      HasMarkerAt(lines[1..], i - 1, marker);
    }
  }

  lemma FileEnveloped(f: File)
    requires f.Valid()
    ensures Enveloped(f.Before(), f.After())
    ensures f.Before()[..FirstMarker(f.Before(), "BEGIN:BENV")] == [f.begin] + f.header.Lines()
  {
    hide File.Valid;
    hide BodyMarkerOf;
    hide IsMarker;
    hide FirstMarker;
    hide H.Written.Lines;
    FileDelimiters(f);
    var head, lines := [f.begin] + f.header.Lines(), f.Before();
    var n, m := |head|, |head| + 1 + |f.recipient|;
    assert lines[0] == f.begin && lines[n] == f.envelope && lines[m] == f.region && f.After()[2] == f.end;
    HasMarkerAt(lines, 0, "BEGIN:BMSG");
    HasMarkerAt(lines, n, "BEGIN:BENV");
    HasMarkerAt(lines, m, "BEGIN:BBODY");
    HasMarkerAt(f.After(), 2, "END:BMSG");
    assert forall i :: 0 <= i < n ==> lines[i] == head[i];
    FirstMarkerUnique(lines, "BEGIN:BENV", n);
    assert lines[..n] == head;
  }

  /** `Parse` of a whole written file within the byte limit, with LF, CRLF or CR as line end: it returns exactly what
      the header describes, and the body, if and only if the body survives and holds no carriage return. */
  lemma FileParses(f: File, body: string, lineEnd: string, maximum: int)
    requires f.Valid() && (lineEnd == "\n" || lineEnd == "\r\n" || lineEnd == "\r")
    requires forall i :: 0 <= i < |f.Before()| ==> OneLine(f.Before()[i])
    requires 0 < maximum && Utf8Len(JoinWith(f.Lines(body), lineEnd)) <= maximum
    ensures Parsed(JoinWith(f.Lines(body), lineEnd), maximum) == Ok(H.Described(f.header, body))
       <==> Survives(body, f.indent) && '\r' !in body
  {
    FileHeader(f, body);
    FileShape(f);
    ParseRoundTrip(f.Before(), f.indent, body, f.After(), lineEnd, maximum);
    hide File.Valid;
    hide File.Before;
    hide Parsed;
    hide Header;
    hide Survives;
    hide JoinWith;
    hide Document;
    hide Utf8Len;
    hide H.Described;
    hide Enveloped;
    hide ReachesRegion;
  }

  lemma FileShape(f: File)
    requires f.Valid()
    ensures Blank(f.indent) && ReachesRegion(f.Before(), false) && NeverReopens(f.After()) && Enveloped(f.Before(), f.After())
    ensures forall i :: 0 <= i < |f.After()| ==> OneLine(f.After()[i])
  {
    assert Blank(f.indent);
    FileReaches(f);
    FileEnveloped(f);
    FileDelimiters(f);
    AfterOneLine(f);
    hide *;
  }

  lemma FileHeader(f: File, body: string)
    requires f.Valid()
    ensures Header(f.Before()[..FirstMarker(f.Before(), "BEGIN:BENV")], body) == H.Described(f.header, body)
  {
    assert SameLetters(f.begin, "BEGIN:BMSG") && f.header.Valid();
    FileEnveloped(f);
    hide File.Valid;
    hide SameLetters;
    hide Values;
    hide InOriginator;
    hide Header;
    hide H.Described;
    hide H.Written.Valid;
    hide FirstMarker;
    forall p: Property, inside: bool | p != OTHER ensures Values([f.begin], p, inside) == [] {
      BeginIsNothing(f.begin, p, inside);
    }
    BeginIsNothing(f.begin, TEL, true);
    H.HeaderRoundTrip([f.begin], f.header, body);
  }

  lemma AfterOneLine(f: File)
    requires f.Valid()
    ensures forall i :: 0 <= i < |f.After()| ==> OneLine(f.After()[i])
  {
  }
}
