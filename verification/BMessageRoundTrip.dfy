/**
 Embedding a message body in a bMessage and parsing it back (internal/mapmsg/bmessage.go). The
 writer stuffs a space in front of each body line that reads as a block delimiter, which is the
 rule the parser undoes; the block itself is the one of section 3.1.3 of the Bluetooth Message
 Access Profile.
 */
module BMessageRoundTrip {
  import opened Wrappers
  import opened Text
  import opened BMessage

  function Stuff(line: string): string { if Reserved(line) then " " + line else line }

  function StuffAll(lines: seq<string>): (r: seq<string>)
    ensures |r| == |lines| && forall i :: 0 <= i < |lines| ==> r[i] == Stuff(lines[i])
  {
    seq(|lines|, i requires 0 <= i < |lines| => Stuff(lines[i]))
  }

  /** The scan passes the lines without ending the block, and is inside the body region afterwards. */
  predicate Transparent(inside: bool, lines: seq<string>, indent: string)
    decreases |lines|
  {
    if lines == [] then inside
    else
      && !(BodyMarkerOf(lines[0]) == EndMsg && inside && Indent(lines[0]) == indent)
      && Transparent(InsideAfter(inside, lines[0]), lines[1..], indent)
  }

  /** The lines of a bMessage that carries `body` in the first message block of a body region:
      `pre` reaches into the region, `post` is what follows the block. */
  function Document(pre: seq<string>, indent: string, body: string, post: seq<string>): seq<string> {
    pre + [indent + "BEGIN:MSG"] + StuffAll(Split(body)) + [indent + "END:MSG"] + post
  }

  /** After `pre`, the scanner is inside a body region and has seen no message block. */
  predicate ReachesRegion(pre: seq<string>, inside: bool)
    decreases |pre|
  {
    if pre == [] then inside
    else !(inside && BodyMarkerOf(pre[0]) == BeginMsg) && ReachesRegion(pre[1..], InsideAfter(inside, pre[0]))
  }

  predicate NeverReopens(post: seq<string>) { forall i :: 0 <= i < |post| ==> BodyMarkerOf(post[i]) != BeginBody }

  predicate Blank(indent: string) { forall i :: 0 <= i < |indent| ==> indent[i] == ' ' || indent[i] == '\t' }

  /** Exactly the bodies that survive stuffing, embedding and parsing. */
  predicate Survives(body: string, indent: string) {
    && Trimmed(body, NewlineOrSpace)
    && (forall i :: 0 <= i < |Split(body)| ==> !Stuffed(Split(body)[i]))
    && Transparent(true, StuffAll(Split(body)), indent)
  }

  // ---------------------------------------------------------------- scanning the document

  lemma {:induction false} SkipPre(lines: seq<string>, n: nat, k: nat, inside: bool)
    requires n <= k <= |lines| && ReachesRegion(lines[n..k], inside)
    ensures BodyFrom(lines, n, Scan(inside, None, [])) == BodyFrom(lines, k, Scan(true, None, []))
    decreases k - n
  {
    hide BodyMarkerOf;
    hide Assemble;
    if n < k {
      assert lines[n..k][1..] == lines[n + 1..k];
      SkipPre(lines, n + 1, k, InsideAfter(inside, lines[n]));
    }
  }

  lemma {:induction false} SkipBlock(lines: seq<string>, n: nat, k: nat, inside: bool, start: nat, indent: string)
    requires start <= n <= k <= |lines| && Transparent(inside, lines[n..k], indent)
    ensures BodyFrom(lines, n, Scan(inside, Some(start), indent)) == BodyFrom(lines, k, Scan(true, Some(start), indent))
    decreases k - n
  {
    hide BodyMarkerOf;
    hide Assemble;
    hide Indent;
    if n < k {
      assert lines[n..k][1..] == lines[n + 1..k];
      SkipBlock(lines, n + 1, k, InsideAfter(inside, lines[n]), start, indent);
    }
  }

  /** When the scan does not pass the block lines, it ends early or leaves the region for good. */
  lemma {:induction false} BlockNotPassed(lines: seq<string>, n: nat, k: nat, inside: bool, start: nat, indent: string)
      returns (ended: Option<nat>)
    requires start <= n <= k <= |lines| && !Transparent(inside, lines[n..k], indent)
    ensures ended.Some? ==> n <= ended.value < k && BodyMarkerOf(lines[ended.value]) == EndMsg
    ensures BodyFrom(lines, n, Scan(inside, Some(start), indent)) ==
            if ended.Some? then Some(Assemble(lines[start..ended.value]))
            else BodyFrom(lines, k, Scan(false, Some(start), indent))
    decreases k - n
  {
    hide BodyMarkerOf;
    hide Assemble;
    hide Indent;
    if n == k {
      ended := None;
    } else if Ends(Scan(inside, Some(start), indent), lines[n]) {
      ended := Some(n);
    } else {
      assert lines[n..k][1..] == lines[n + 1..k];
      ended := BlockNotPassed(lines, n + 1, k, InsideAfter(inside, lines[n]), start, indent);
    }
  }

  lemma {:induction false} NeverInsideAgain(lines: seq<string>, n: nat, scan: Scan)
    requires n <= |lines| && (scan.start.Some? ==> scan.start.value <= n)
    requires !scan.inside && forall i :: n <= i < |lines| ==> BodyMarkerOf(lines[i]) != BeginBody
    ensures BodyFrom(lines, n, scan) == None
    decreases |lines| - n
  {
    hide BodyMarkerOf;
    hide Assemble;
    hide Indent;
    if n < |lines| {
      NeverInsideAgain(lines, n + 1, ScanLine(scan, lines[n], n));
    }
  }

  lemma BlockMarkers(indent: string)
    requires Blank(indent)
    ensures BodyMarkerOf(indent + "BEGIN:MSG") == BeginMsg && Indent(indent + "BEGIN:MSG") == indent
    ensures BodyMarkerOf(indent + "END:MSG") == EndMsg && Indent(indent + "END:MSG") == indent
  {
    BlockMarker(indent, "BEGIN:MSG");
    BlockMarker(indent, "END:MSG");
    MarkersDiffer();
    hide Indent;
    hide ToUpper;
    hide TrimSpace;
    hide TrimLeft;
  }

  lemma MarkersDiffer()
    ensures "BEGIN:MSG" != "BEGIN:BBODY" && "BEGIN:MSG" != "END:BBODY"
    ensures "END:MSG" != "BEGIN:BBODY" && "END:MSG" != "END:BBODY" && "END:MSG" != "BEGIN:MSG"
  {
    assert |"BEGIN:MSG"| == 9 && |"BEGIN:BBODY"| == 11 && |"END:MSG"| == 7 && |"END:BBODY"| == 9;
    assert "END:BBODY"[0] != "BEGIN:MSG"[0];
  }

  lemma BlockMarker(indent: string, marker: string)
    requires Blank(indent) && (marker == "BEGIN:MSG" || marker == "END:MSG")
    ensures Indent(indent + marker) == indent
    ensures ToUpper(TrimSpace(TrimLeft(indent + marker, IsBlank))) == marker
  {
    assert !IsBlank(marker[0]);
    LeadingIs(indent, marker, IsBlank);
    assert (indent + marker)[|indent|..] == marker;
    assert TrimLeft(indent + marker, IsBlank) == marker;
    MarkerIsPlain(marker);
  }

  lemma MarkerIsPlain(marker: string)
    requires marker == "BEGIN:MSG" || marker == "END:MSG"
    ensures ToUpper(TrimSpace(marker)) == marker
  {
    TrimmedStays(marker, IsSpace);
    assert ToUpper(marker) == marker;
  }

  /** Scanning a document comes down to scanning its block. */
  lemma ReachBlock(pre: seq<string>, indent: string, body: string, post: seq<string>)
    requires Blank(indent) && ReachesRegion(pre, false)
    ensures var lines, first := Document(pre, indent, body, post), |pre| + 1;
            MessageBody(lines) == BodyFrom(lines, first, Scan(true, Some(first), indent))
  {
    hide BodyMarkerOf;
    hide Assemble;
    hide Indent;
    var lines := Document(pre, indent, body, post);
    assert lines[0..|pre|] == pre;
    SkipPre(lines, 0, |pre|, false);
    assert lines[|pre|] == indent + "BEGIN:MSG";
    BlockMarkers(indent);
  }

  // ---------------------------------------------------------------- what comes out

  function Newlines(s: string): nat {
    if s == [] then 0 else (if s[0] == '\n' then 1 else 0) + Newlines(s[1..])
  }

  lemma {:induction false} NewlinesConcat(a: string, b: string)
    ensures Newlines(a + b) == Newlines(a) + Newlines(b)
  {
    if a == [] {
      assert a + b == b;
    } else {
      assert (a + b)[1..] == a[1..] + b;
      NewlinesConcat(a[1..], b);
    }
  }

  lemma {:induction false} SplitCount(s: string)
    ensures |Split(s)| == Newlines(s) + 1
  {
    if s != [] {
      SplitCount(s[1..]);
    }
  }

  lemma {:induction false} JoinCount(lines: seq<string>)
    requires lines != [] && forall i :: 0 <= i < |lines| ==> '\n' !in lines[i]
    ensures Newlines(Join(lines)) == |lines| - 1
  {
    SplitJoin(lines);
    SplitCount(Join(lines));
  }

  lemma TrimCount(s: string, cut: char -> bool)
    ensures Newlines(Trim(s, cut)) <= Newlines(s)
  {
    var n := Leading(s, cut);
    var k := Kept(s[n..], cut);
    assert s == s[..n] + (s[n..][..k] + s[n..][k..]);
    NewlinesConcat(s[..n], s[n..][..k] + s[n..][k..]);
    NewlinesConcat(s[n..][..k], s[n..][k..]);
  }

  lemma UnstuffAfterStuff(lines: seq<string>)
    ensures forall i :: 0 <= i < |lines| ==>
              Unstuff(Stuff(lines[i])) == if Stuffed(lines[i]) then lines[i][1..] else lines[i]
  {
    forall i | 0 <= i < |lines|
      ensures Unstuff(Stuff(lines[i])) == if Stuffed(lines[i]) then lines[i][1..] else lines[i]
    {
      UnstuffOne(lines[i]);
    }
  }

  lemma UnstuffOne(line: string)
    ensures Unstuff(Stuff(line)) == if Stuffed(line) then line[1..] else line
  {
    if Reserved(line) {
      ReservedStart(line);
      assert (" " + line)[1..] == line;
    }
  }

  /** Every line that starts like a delimiter is stuffed. */
  lemma DelimitersAreReserved(start: string, rest: string)
    requires SameLetters(start, "BEGIN:") || SameLetters(start, "END:")
    ensures Reserved(start + rest) && Stuff(start + rest) == " " + (start + rest)
  {
    assert MarkerText("BEGIN:") && MarkerText("END:");
    hide ToUpper;
    hide SameLetters;
    hide MarkerText;
    if SameLetters(start, "BEGIN:") {
      UpperStarts(start, rest, "BEGIN:");
    } else {
      UpperStarts(start, rest, "END:");
    }
  }

  lemma UpperStarts(start: string, rest: string, word: string)
    requires SameLetters(start, word) && MarkerText(word)
    ensures word <= ToUpper(start + rest)
  {
    AnyCase(start, word);
    hide SameLetters;
    hide MarkerText;
    forall i | 0 <= i < |word| ensures ToUpper(start + rest)[i] == word[i] {
      assert (start + rest)[i] == start[i] && ToUpper(start)[i] == Upper(start[i]);
    }
  }

  lemma ReservedStart(line: string)
    requires Reserved(line)
    ensures line != [] && line[0] != ' '
  {
    assert ToUpper(line)[0] == Upper(line[0]);
    assert "BEGIN:"[0] == 'B' && "END:"[0] == 'E';
  }

  /** Without ambiguous lines, stuffing is undone. */
  lemma AssembleStuffed(body: string)
    requires Trimmed(body, NewlineOrSpace)
    requires forall i :: 0 <= i < |Split(body)| ==> !Stuffed(Split(body)[i])
    ensures Assemble(StuffAll(Split(body))) == body
  {
    hide Reserved;
    var lines := Split(body);
    UnstuffAfterStuff(lines);
    assert UnstuffAll(StuffAll(lines)) == lines;
    JoinSplit(body);
    TrimmedStays(body, NewlineOrSpace);
  }

  lemma {:induction false} JoinShorter(a: seq<string>, b: seq<string>)
    requires |a| == |b| && forall i :: 0 <= i < |a| ==> |a[i]| <= |b[i]|
    ensures |Join(a)| <= |Join(b)|
    ensures (exists i :: 0 <= i < |a| && |a[i]| < |b[i]|) ==> |Join(a)| < |Join(b)|
  {
    if |a| > 1 {
      JoinShorter(a[1..], b[1..]);
      if i :| 0 <= i < |a| && |a[i]| < |b[i]| {
        if i > 0 {
          assert |a[1..][i - 1]| < |b[1..][i - 1]|;
        }
      }
    }
  }

  /** A line that starts with a space before `BEGIN:` or `END:` loses that space. */
  lemma AmbiguousLineLost(body: string, k: nat)
    requires k < |Split(body)| && Stuffed(Split(body)[k])
    ensures |Assemble(StuffAll(Split(body)))| < |body|
  {
    hide Reserved;
    var lines := Split(body);
    UnstuffAfterStuff(lines);
    var back := UnstuffAll(StuffAll(lines));
    assert |back[k]| < |lines[k]|;
    JoinShorter(back, lines);
    JoinSplit(body);
  }

  /** A block cut off early has fewer lines than the body. */
  lemma EarlyEndLost(body: string, k: nat)
    requires k < |Split(body)| && BodyMarkerOf(StuffAll(Split(body))[k]) == EndMsg
    ensures Assemble(StuffAll(Split(body))[..k]) != body
  {
    var lines := Split(body);
    SplitCount(body);
    if k == 0 {
      NoMarkerOnEmpty();
      assert Join(UnstuffAll(StuffAll(lines)[..0])) == [];
      assert lines[0] != [];
      assert body != [];
    } else {
      var block := UnstuffAll(StuffAll(lines)[..k]);
      UnstuffAfterStuff(lines);
      forall i | 0 <= i < |block| ensures '\n' !in block[i] {
        assert block[i] == Unstuff(Stuff(lines[i]));
        hide Reserved;
      }
      JoinCount(block);
      TrimCount(Join(block), NewlineOrSpace);
    }
  }

  lemma NoMarkerOnEmpty()
    ensures BodyMarkerOf(Stuff([])) == NoBodyMarker
  {
    assert ToUpper(TrimSpace(TrimLeft([], IsBlank))) == [];
  }

  // ---------------------------------------------------------------- the round trip

  /** A block that is scanned to its end gives the body back exactly if the body is trimmed and unambiguous. */
  lemma WholeBlockGivesBody(body: string)
    ensures Assemble(StuffAll(Split(body))) == body <==>
              && Trimmed(body, NewlineOrSpace)
              && forall i :: 0 <= i < |Split(body)| ==> !Stuffed(Split(body)[i])
  {
    hide Assemble;
    hide Reserved;
    if !Trimmed(body, NewlineOrSpace) {
      AssembleIsTrimmed(StuffAll(Split(body)));
    } else if k :| 0 <= k < |Split(body)| && Stuffed(Split(body)[k]) {
      AmbiguousLineLost(body, k);
    } else {
      AssembleStuffed(body);
    }
  }

  /** A block that is not gives something else. */
  lemma CutBlockLosesBody(pre: seq<string>, indent: string, body: string, post: seq<string>)
    requires Blank(indent) && NeverReopens(post) && !Transparent(true, StuffAll(Split(body)), indent)
    ensures var lines, first := Document(pre, indent, body, post), |pre| + 1;
            BodyFrom(lines, first, Scan(true, Some(first), indent)) != Some(body)
  {
    hide BodyMarkerOf;
    hide Assemble;
    hide Indent;
    hide Stuff;
    hide Transparent;
    var lines, stuffed := Document(pre, indent, body, post), StuffAll(Split(body));
    var first, last := |pre| + 1, |pre| + 1 + |stuffed|;
    assert lines[first..last] == stuffed;
    var ended := BlockNotPassed(lines, first, last, true, first, indent);
    if ended.Some? {
      var k := ended.value - first;
      assert lines[first..ended.value] == stuffed[..k];
      assert stuffed[k] == lines[ended.value];
      EarlyEndLost(body, k);
    } else {
      BlockMarkers(indent);
      assert lines[last] == indent + "END:MSG";
      forall i | last <= i < |lines| ensures BodyMarkerOf(lines[i]) != BeginBody {
        assert i > last ==> lines[i] == post[i - last - 1];
      }
      NeverInsideAgain(lines, last, Scan(false, Some(first), indent));
    }
  }

  /** Parsing the document gives the body back exactly if the body survives. */
  lemma BodyRoundTrip(pre: seq<string>, indent: string, body: string, post: seq<string>)
    requires Blank(indent) && ReachesRegion(pre, false) && NeverReopens(post)
    ensures MessageBody(Document(pre, indent, body, post)) == Some(body) <==> Survives(body, indent)
  {
    hide BodyMarkerOf;
    hide Assemble;
    hide Indent;
    hide Stuff;
    hide Stuffed;
    hide MessageBody;
    var lines, stuffed := Document(pre, indent, body, post), StuffAll(Split(body));
    var first, last := |pre| + 1, |pre| + 1 + |stuffed|;
    ReachBlock(pre, indent, body, post);
    if Transparent(true, stuffed, indent) {
      assert lines[first..last] == stuffed;
      assert lines[last] == indent + "END:MSG";
      BlockMarkers(indent);
      SkipBlock(lines, first, last, true, first, indent);
      assert MessageBody(lines) == Some(Assemble(stuffed));
      WholeBlockGivesBody(body);
    } else {
      CutBlockLosesBody(pre, indent, body, post);
    }
  }

  lemma AssembleIsTrimmed(lines: seq<string>)
    ensures Trimmed(Assemble(lines), NewlineOrSpace)
  {
    TrimIsTrimmed(Join(UnstuffAll(lines)), NewlineOrSpace);
  }

  // ---------------------------------------------------------------- line ends

  function JoinWith(lines: seq<string>, lineEnd: string): string {
    if lines == [] then []
    else if |lines| == 1 then lines[0]
    else lines[0] + lineEnd + JoinWith(lines[1..], lineEnd)
  }

  lemma {:induction false} NormalizeLine(line: string, rest: string)
    requires '\r' !in line
    ensures NormalizeNewlines(line + rest) == line + NormalizeNewlines(rest)
  {
    if line == [] {
      assert line + rest == rest;
    } else {
      assert line == [line[0]] + line[1..];
      assert (line + rest)[1..] == line[1..] + rest;
      NormalizeLine(line[1..], rest);
    }
  }

  lemma NormalizeLineEnd(lineEnd: string, rest: string)
    requires lineEnd == "\n" || lineEnd == "\r\n" || lineEnd == "\r"
    requires lineEnd == "\r" && rest != [] ==> rest[0] != '\n'
    ensures NormalizeNewlines(lineEnd + rest) == "\n" + NormalizeNewlines(rest)
  {
    assert (lineEnd + rest)[|lineEnd|..] == rest;
    assert ReplaceCRLF(lineEnd + rest) == [if lineEnd == "\r" then '\r' else '\n'] + ReplaceCRLF(rest);
  }

  lemma NormalizeFirstLine(line: string, lineEnd: string, rest: string)
    requires OneLine(line) && (lineEnd == "\n" || lineEnd == "\r\n" || lineEnd == "\r")
    requires lineEnd == "\r" && rest != [] ==> rest[0] != '\n'
    ensures NormalizeNewlines(line + lineEnd + rest) == line + "\n" + NormalizeNewlines(rest)
  {
    hide NormalizeNewlines;
    assert line + lineEnd + rest == line + (lineEnd + rest);
    NormalizeLine(line, lineEnd + rest);
    NormalizeLineEnd(lineEnd, rest);
    assert line + ("\n" + NormalizeNewlines(rest)) == line + "\n" + NormalizeNewlines(rest);
  }

  lemma JoinedStart(lines: seq<string>, lineEnd: string)
    requires lines != [] && OneLine(lines[0])
    ensures lineEnd == "\r" && JoinWith(lines, lineEnd) != [] ==> JoinWith(lines, lineEnd)[0] != '\n'
  {
  }

  lemma {:induction false} SplitJoinedLines(lines: seq<string>, lineEnd: string)
    requires lines != [] && forall i :: 0 <= i < |lines| ==> OneLine(lines[i])
    requires lineEnd == "\n" || lineEnd == "\r\n" || lineEnd == "\r"
    ensures SplitLines(JoinWith(lines, lineEnd)) == lines
  {
    hide NormalizeNewlines;
    hide Split;
    if |lines| == 1 {
      NormalizePlain(lines[0]);
      SplitSingle(lines[0]);
    } else {
      var rest := JoinWith(lines[1..], lineEnd);
      SplitJoinedLines(lines[1..], lineEnd);
      JoinedStart(lines[1..], lineEnd);
      NormalizeFirstLine(lines[0], lineEnd, rest);
      SplitWithLine(lines[0], NormalizeNewlines(rest));
    }
  }

  lemma {:induction false} JoinHasNoCR(lines: seq<string>)
    requires forall i :: 0 <= i < |lines| ==> '\r' !in lines[i]
    ensures '\r' !in Join(lines)
  {
    if |lines| > 1 {
      JoinHasNoCR(lines[1..]);
    }
  }

  lemma ParsedBodyHasNoCR(blob: string)
    ensures MessageBody(SplitLines(blob)).Some? ==> '\r' !in MessageBody(SplitLines(blob)).value
  {
    hide BodyMarkerOf;
    hide Indent;
    hide Reserved;
    var lines := SplitLines(blob);
    NormalizeLen(blob);
    SplitNoCR(NormalizeNewlines(blob));
    if MessageBody(lines).Some? {
      var lo, hi := BodyFromIsAssembled(lines, 0, SCAN_START);
      var block := UnstuffAll(lines[lo..hi]);
      JoinHasNoCR(block);
    }
  }

  /** A line, as it is stuffed, that neither leaves the body region nor ends the block. */
  predicate PassesScan(line: string, indent: string) {
    var stuffed := Stuff(line);
    BodyMarkerOf(stuffed) != EndBody && !(BodyMarkerOf(stuffed) == EndMsg && Indent(stuffed) == indent)
  }

  lemma {:induction false} PassingLinesTransparent(lines: seq<string>, indent: string)
    requires forall i :: 0 <= i < |lines| ==> PassesScan(lines[i], indent)
    ensures Transparent(true, StuffAll(lines), indent)
  {
    hide BodyMarkerOf;
    hide Indent;
    hide Stuff;
    if lines != [] {
      assert StuffAll(lines)[1..] == StuffAll(lines[1..]);
      assert PassesScan(lines[0], indent);
      PassingLinesTransparent(lines[1..], indent);
    }
  }

  /** The conditions line by line: a trimmed body survives if no line reads as the end of the region or, at
      the indent of the block, as the end of the block, and none is a space before `BEGIN:` or `END:`.
      It may well contain whole vCards and `BEGIN:MSG` lines. */
  lemma OrdinaryBodySurvives(body: string, indent: string)
    requires Trimmed(body, NewlineOrSpace)
    requires forall i :: 0 <= i < |Split(body)| ==> !Stuffed(Split(body)[i]) && PassesScan(Split(body)[i], indent)
    ensures Survives(body, indent)
  {
    hide PassesScan;
    PassingLinesTransparent(Split(body), indent);
  }

  /** No parsed body begins or ends with a space or newline. */
  lemma ParsedBodyIsTrimmed(lines: seq<string>)
    ensures var body := MessageBody(lines);
            body.Some? && body.value != [] ==>
              && body.value[0] != ' ' && body.value[0] != '\n'
              && body.value[|body.value| - 1] != ' ' && body.value[|body.value| - 1] != '\n'
  {
    hide BodyMarkerOf;
    hide Indent;
    hide Reserved;
    if MessageBody(lines).Some? {
      var lo, hi := BodyFromIsAssembled(lines, 0, SCAN_START);
      AssembleIsTrimmed(lines[lo..hi]);
      hide Assemble;
      hide BodyFrom;
    }
  }

  /** The same for the file as downloaded, with any kind of line end: a body survives exactly if
      it also holds no carriage return. */
  lemma FileRoundTrip(pre: seq<string>, indent: string, body: string, post: seq<string>, lineEnd: string)
    requires Blank(indent) && ReachesRegion(pre, false) && NeverReopens(post)
    requires forall i :: 0 <= i < |pre| ==> OneLine(pre[i])
    requires forall i :: 0 <= i < |post| ==> OneLine(post[i])
    requires lineEnd == "\n" || lineEnd == "\r\n" || lineEnd == "\r"
    ensures MessageBody(SplitLines(JoinWith(Document(pre, indent, body, post), lineEnd))) == Some(body)
       <==> Survives(body, indent) && '\r' !in body
  {
    hide BodyMarkerOf;
    hide Indent;
    hide Assemble;
    hide Survives;
    hide MessageBody;
    ParsedBodyHasNoCR(JoinWith(Document(pre, indent, body, post), lineEnd));
    if '\r' !in body {
      SplitDocument(pre, indent, body, post, lineEnd);
      BodyRoundTrip(pre, indent, body, post);
    }
  }

  lemma DocumentLines(pre: seq<string>, indent: string, body: string, post: seq<string>)
    requires Blank(indent)
    requires forall i :: 0 <= i < |pre| ==> OneLine(pre[i])
    requires forall i :: 0 <= i < |post| ==> OneLine(post[i])
    requires forall i :: 0 <= i < |Split(body)| ==> OneLine(Split(body)[i])
    ensures forall i :: 0 <= i < |Document(pre, indent, body, post)| ==> OneLine(Document(pre, indent, body, post)[i])
  {
    hide Reserved;
  }

  // ---------------------------------------------------------------- the whole file

  lemma {:induction false} FirstMarkerConcat(a: seq<string>, b: seq<string>, wanted: string)
    ensures FirstMarker(a + b, wanted) ==
            if HasMarker(a, wanted) then FirstMarker(a, wanted) else |a| + FirstMarker(b, wanted)
  {
    hide IsMarker;
    if a == [] {
      assert a + b == b;
    } else {
      assert (a + b)[1..] == a[1..] + b;
      FirstMarkerConcat(a[1..], b, wanted);
    }
  }

  /** The lines before the block hold the opening markers, and those after it the closing one. */
  predicate Enveloped(pre: seq<string>, post: seq<string>) {
    && HasMarker(pre, "BEGIN:BMSG") && HasMarker(pre, "BEGIN:BENV") && HasMarker(pre, "BEGIN:BBODY")
    && HasMarker(post, "END:BMSG")
  }

  lemma DocumentComplete(pre: seq<string>, indent: string, body: string, post: seq<string>)
    requires Enveloped(pre, post)
    ensures var lines := Document(pre, indent, body, post);
            && Complete(lines)
            && lines[..FirstMarker(lines, "BEGIN:BENV")] == pre[..FirstMarker(pre, "BEGIN:BENV")]
  {
    hide FirstMarker;
    var lines := Document(pre, indent, body, post);
    var block := [indent + "BEGIN:MSG"] + StuffAll(Split(body)) + [indent + "END:MSG"];
    assert lines == pre + (block + post) && lines == (pre + block) + post;
    FirstMarkerConcat(pre, block + post, "BEGIN:BMSG");
    FirstMarkerConcat(pre, block + post, "BEGIN:BENV");
    FirstMarkerConcat(pre, block + post, "BEGIN:BBODY");
    FirstMarkerConcat(pre + block, post, "END:BMSG");
  }

  /** `Parse` of a whole bMessage file within the byte limit, with any kind of line end: it returns the header
      fields written before the envelope and the body exactly if the body survives and holds no carriage return. */
  lemma ParseRoundTrip(pre: seq<string>, indent: string, body: string, post: seq<string>, lineEnd: string, maximum: int)
    requires Blank(indent) && ReachesRegion(pre, false) && NeverReopens(post) && Enveloped(pre, post)
    requires forall i :: 0 <= i < |pre| ==> OneLine(pre[i])
    requires forall i :: 0 <= i < |post| ==> OneLine(post[i])
    requires lineEnd == "\n" || lineEnd == "\r\n" || lineEnd == "\r"
    requires 0 < maximum && Utf8Len(JoinWith(Document(pre, indent, body, post), lineEnd)) <= maximum
    ensures Parsed(JoinWith(Document(pre, indent, body, post), lineEnd), maximum)
            == Ok(Header(pre[..FirstMarker(pre, "BEGIN:BENV")], body))
       <==> Survives(body, indent) && '\r' !in body
  {
    var file, header := JoinWith(Document(pre, indent, body, post), lineEnd), pre[..FirstMarker(pre, "BEGIN:BENV")];
    FileRoundTrip(pre, indent, body, post, lineEnd);
    ParsedExactly(file, maximum, header, body);
    if Survives(body, indent) && '\r' !in body {
      SplitDocument(pre, indent, body, post, lineEnd);
      DocumentComplete(pre, indent, body, post);
    }
    hide *;
  }

  lemma ParsedExactly(file: string, maximum: int, header: seq<string>, body: string)
    requires 0 < maximum && Utf8Len(file) <= maximum
    ensures Parsed(file, maximum) == Ok(Header(header, body)) ==> MessageBody(SplitLines(file)) == Some(body)
    ensures var lines := SplitLines(file);
            Complete(lines) && MessageBody(lines) == Some(body) && lines[..FirstMarker(lines, "BEGIN:BENV")] == header ==>
              Parsed(file, maximum) == Ok(Header(header, body))
  {
    var lines := SplitLines(file);
    HeaderBody(lines[..FirstMarker(lines, "BEGIN:BENV")]);
    HeaderBody(header);
    hide Header;
    hide MessageBody;
    hide Complete;
    hide FirstMarker;
    hide SplitLines;
    hide Utf8Len;
  }

  lemma SplitDocument(pre: seq<string>, indent: string, body: string, post: seq<string>, lineEnd: string)
    requires Blank(indent) && '\r' !in body
    requires forall i :: 0 <= i < |pre| ==> OneLine(pre[i])
    requires forall i :: 0 <= i < |post| ==> OneLine(post[i])
    requires lineEnd == "\n" || lineEnd == "\r\n" || lineEnd == "\r"
    ensures SplitLines(JoinWith(Document(pre, indent, body, post), lineEnd)) == Document(pre, indent, body, post)
  {
    SplitNoCR(body);
    DocumentLines(pre, indent, body, post);
    SplitJoinedLines(Document(pre, indent, body, post), lineEnd);
  }
}
