/** The bMessage parser (internal/mapmsg/bmessage.go). */
module BMessage {
  import opened Wrappers
  import opened Text
  import opened Protocol

  datatype Message = Message(sender: string, senderName: string, body: string, status: string, kind: string, folder: string)

  datatype ParseError = BadLimit | TooLarge | Incomplete | NoBlock
  datatype Result<+T> = Ok(value: T) | Err(error: ParseError)

  // ---------------------------------------------------------------- markers

  predicate IsMarker(line: string, wanted: string) { EqualFold(TrimSpace(line), wanted) }

  method MarkerIndex(lines: seq<string>, wanted: string) returns (index: int)
    ensures -1 <= index < |lines|
    ensures index >= 0 ==> IsMarker(lines[index], wanted)
    ensures forall i :: 0 <= i < (if index >= 0 then index else |lines|) ==> !IsMarker(lines[i], wanted)
  {
    for n := 0 to |lines|
      invariant forall i :: 0 <= i < n ==> !IsMarker(lines[i], wanted)
    {
      if EqualFold(TrimSpace(lines[n]), wanted) {
        return n;
      }
    }
    return -1;
  }

  /** The first line that is the marker, or the number of lines. */
  function FirstMarker(lines: seq<string>, wanted: string): (n: nat)
    ensures n <= |lines|
  {
    if lines == [] || IsMarker(lines[0], wanted) then 0 else 1 + FirstMarker(lines[1..], wanted)
  }

  predicate HasMarker(lines: seq<string>, wanted: string) { FirstMarker(lines, wanted) < |lines| }

  // ---------------------------------------------------------------- the header

  function Bounded(value: string, maximum: nat): (r: string)
    ensures |r| <= maximum
  {
    Truncate(TrimSpace(value), maximum)
  }

  datatype HeaderLine = BeginOriginator | EndOriginator | Value(property: Property, value: string) | NoLine
  datatype Property = STATUS | TYPE | FOLDER | FN | TEL | EMAIL | OTHER

  function PropertyOf(left: string): Property {
    var name := ToUpper(Cut(left, ';').0);
    if name == "STATUS" then STATUS else if name == "TYPE" then TYPE else if name == "FOLDER" then FOLDER
    else if name == "FN" then FN else if name == "TEL" then TEL else if name == "EMAIL" then EMAIL
    else OTHER
  }

  function ReadHeaderLine(line: string): HeaderLine {
    var trimmed := TrimSpace(line);
    var upper := ToUpper(trimmed);
    if upper == "BEGIN:VCARD" then BeginOriginator
    else if upper == "END:VCARD" then EndOriginator
    else
      var (left, value) := Cut(trimmed, ':');
      if value.None? then NoLine else Value(PropertyOf(left), value.value)
  }

  /** Whether the end of these header lines is inside a vCard. */
  predicate InOriginator(lines: seq<string>) {
    if lines == [] then false
    else
      var last := ReadHeaderLine(lines[|lines| - 1]);
      last.BeginOriginator? || (!last.EndOriginator? && InOriginator(lines[..|lines| - 1]))
  }

  /** The values a property has in the lines, inside the vCards or outside of them. */
  function Values(lines: seq<string>, property: Property, inside: bool): seq<string> {
    if lines == [] then []
    else
      var before, last := lines[..|lines| - 1], ReadHeaderLine(lines[|lines| - 1]);
      Values(before, property, inside)
      + (if last.Value? && last.property == property && InOriginator(before) == inside then [last.value] else [])
  }

  function LastBounded(values: seq<string>, maximum: nat): (r: string)
    ensures |r| <= maximum
  {
    if values == [] then [] else Bounded(values[|values| - 1], maximum)
  }

  function FirstBounded(values: seq<string>, maximum: nat): (r: string)
    ensures |r| <= maximum
  {
    if values == [] then []
    else
      var earlier := FirstBounded(values[..|values| - 1], maximum);
      if earlier != [] then earlier else Bounded(values[|values| - 1], maximum)
  }

  /** The originator's address: the first usable phone number, else the first usable email. */
  function Sender(lines: seq<string>): (r: string)
    ensures |r| <= MAX_CONTACT_ADDRESS_CHARS
  {
    var phone := FirstBounded(Values(lines, TEL, true), MAX_CONTACT_ADDRESS_CHARS);
    if phone != [] then phone else FirstBounded(Values(lines, EMAIL, true), MAX_CONTACT_ADDRESS_CHARS)
  }

  /** The header fields: the originator's come from its vCard, the last value wins except for the address. */
  function Header(lines: seq<string>, body: string): Message {
    Message(Sender(lines), LastBounded(Values(lines, FN, true), MAX_CONTACT_NAME_CHARS), body,
            LastBounded(Values(lines, STATUS, false), 512), LastBounded(Values(lines, TYPE, false), 512),
            LastBounded(Values(lines, FOLDER, false), 512))
  }

  method ParseHeader(lines: seq<string>) returns (message: Message)
    ensures message == Header(lines, [])
  {
    hide ReadHeaderLine;
    hide Values;
    hide FirstBounded;
    hide Bounded;
    NoValues();
    message := Message([], [], [], [], [], []);
    var senderPhone, senderEmail, inOriginator := [], [], false;
    for n := 0 to |lines|
      invariant inOriginator == InOriginator(lines[..n])
      invariant senderPhone == FirstBounded(Values(lines[..n], TEL, true), MAX_CONTACT_ADDRESS_CHARS)
      invariant senderEmail == FirstBounded(Values(lines[..n], EMAIL, true), MAX_CONTACT_ADDRESS_CHARS)
      invariant message.senderName == LastBounded(Values(lines[..n], FN, true), MAX_CONTACT_NAME_CHARS)
      invariant message.status == LastBounded(Values(lines[..n], STATUS, false), 512)
      invariant message.kind == LastBounded(Values(lines[..n], TYPE, false), 512)
      invariant message.folder == LastBounded(Values(lines[..n], FOLDER, false), 512)
      invariant message.sender == [] && message.body == []
    {
      assert lines[..n + 1][..n] == lines[..n];
      var line := ReadHeaderLine(lines[n]);
      ValuesNext(lines, n);
      FirstValueNext(lines, n, TEL);
      FirstValueNext(lines, n, EMAIL);
      match line {
        case BeginOriginator =>
          inOriginator := true;
        case EndOriginator =>
          inOriginator := false;
        case NoLine =>
        case Value(property, value) =>
          if !inOriginator {
            match property {
              case STATUS => message := message.(status := Bounded(value, 512));
              case TYPE => message := message.(kind := Bounded(value, 512));
              case FOLDER => message := message.(folder := Bounded(value, 512));
              case _ =>
            }
          } else {
            match property {
              case FN => message := message.(senderName := Bounded(value, MAX_CONTACT_NAME_CHARS));
              case TEL =>
                if senderPhone == [] {
                  senderPhone := Bounded(value, MAX_CONTACT_ADDRESS_CHARS);
                }
              case EMAIL =>
                if senderEmail == [] {
                  senderEmail := Bounded(value, MAX_CONTACT_ADDRESS_CHARS);
                }
              case _ =>
            }
          }
      }
    }
    assert lines[..|lines|] == lines;
    message := message.(sender := senderPhone);
    if message.sender == [] {
      message := message.(sender := senderEmail);
    }
  }

  lemma NoValues()
    ensures forall p: Property, inside :: Values([], p, inside) == []
    ensures FirstBounded([], MAX_CONTACT_ADDRESS_CHARS) == []
  {
  }

  lemma FirstValueNext(lines: seq<string>, n: nat, p: Property)
    requires n < |lines|
    ensures var last := ReadHeaderLine(lines[n]);
            var earlier := FirstBounded(Values(lines[..n], p, true), MAX_CONTACT_ADDRESS_CHARS);
            FirstBounded(Values(lines[..n + 1], p, true), MAX_CONTACT_ADDRESS_CHARS) ==
            if last.Value? && last.property == p && InOriginator(lines[..n]) && earlier == []
            then Bounded(last.value, MAX_CONTACT_ADDRESS_CHARS) else earlier
  {
    hide ReadHeaderLine;
    assert lines[..n + 1][..n] == lines[..n];
    var values, last := Values(lines[..n], p, true), ReadHeaderLine(lines[n]);
    if last.Value? && last.property == p && InOriginator(lines[..n]) {
      assert (values + [last.value])[..|values|] == values;
    } else {
      assert Values(lines[..n + 1], p, true) == values;
    }
  }

  lemma ValuesNext(lines: seq<string>, n: nat)
    requires n < |lines|
    ensures forall p: Property, inside :: Values(lines[..n + 1], p, inside) ==
              var last := ReadHeaderLine(lines[n]);
              Values(lines[..n], p, inside)
              + (if last.Value? && last.property == p && InOriginator(lines[..n]) == inside then [last.value] else [])
  {
    assert lines[..n + 1][..n] == lines[..n];
  }

  // ---------------------------------------------------------------- the body

  datatype BodyMarker = BeginBody | EndBody | BeginMsg | EndMsg | NoBodyMarker

  function Indent(line: string): string { line[..Leading(line, IsBlank)] }

  function BodyMarkerOf(line: string): BodyMarker {
    var marker := ToUpper(TrimSpace(TrimLeft(line, IsBlank)));
    if marker == "BEGIN:BBODY" then BeginBody else if marker == "END:BBODY" then EndBody
    else if marker == "BEGIN:MSG" then BeginMsg else if marker == "END:MSG" then EndMsg
    else NoBodyMarker
  }

  /** A line that would be read as a block delimiter and is therefore stuffed with a space. */
  predicate Reserved(line: string) { "BEGIN:" <= ToUpper(line) || "END:" <= ToUpper(line) }

  predicate Stuffed(line: string) { line != [] && line[0] == ' ' && Reserved(line[1..]) }

  function Unstuff(line: string): string { if Stuffed(line) then line[1..] else line }

  function UnstuffAll(lines: seq<string>): (r: seq<string>)
    ensures |r| == |lines| && forall i :: 0 <= i < |lines| ==> r[i] == Unstuff(lines[i])
  {
    seq(|lines|, i requires 0 <= i < |lines| => Unstuff(lines[i]))
  }

  predicate NewlineOrSpace(c: char) { c == '\n' || c == ' ' }

  function Assemble(lines: seq<string>): string { Trim(Join(UnstuffAll(lines)), NewlineOrSpace) }

  /** The scanner's state: inside a body region, and where the message block begins, if it has. */
  datatype Scan = Scan(inside: bool, start: Option<nat>, indent: string)

  const SCAN_START := Scan(false, None, [])

  predicate Ends(scan: Scan, line: string) {
    BodyMarkerOf(line) == EndMsg && scan.inside && scan.start.Some? && Indent(line) == scan.indent
  }

  function InsideAfter(inside: bool, line: string): bool {
    match BodyMarkerOf(line)
    case BeginBody => true
    case EndBody => false
    case _ => inside
  }

  function ScanLine(scan: Scan, line: string, index: nat): Scan {
    var inside := InsideAfter(scan.inside, line);
    if BodyMarkerOf(line) == BeginMsg && scan.inside && scan.start.None?
    then Scan(inside, Some(index + 1), Indent(line))
    else scan.(inside := inside)
  }

  /** Scanning from line `n` on. */
  function BodyFrom(lines: seq<string>, n: nat, scan: Scan): Option<string>
    requires n <= |lines|
    requires scan.start.Some? ==> scan.start.value <= n
    decreases |lines| - n
  {
    if n == |lines| then None
    else if Ends(scan, lines[n]) then Some(Assemble(lines[scan.start.value..n]))
    else BodyFrom(lines, n + 1, ScanLine(scan, lines[n], n))
  }

  function MessageBody(lines: seq<string>): Option<string> { BodyFrom(lines, 0, SCAN_START) }

  method FindMessageBody(lines: seq<string>) returns (body: string, ok: bool)
    ensures MessageBody(lines) == if ok then Some(body) else None
  {
    hide BodyMarkerOf;
    hide Indent;
    hide Assemble;
    var insideBody, start, indent := false, -1, [];
    for index := 0 to |lines|
      invariant -1 <= start <= index
      invariant MessageBody(lines)
             == BodyFrom(lines, index, Scan(insideBody, if start >= 0 then Some(start) else None, indent))
    {
      var lineIndent := Indent(lines[index]);
      match BodyMarkerOf(lines[index]) {
        case BeginBody =>
          insideBody := true;
        case EndBody =>
          insideBody := false;
        case BeginMsg =>
          if insideBody && start < 0 {
            start := index + 1;
            indent := lineIndent;
          }
        case EndMsg =>
          if insideBody && start >= 0 && lineIndent == indent {
            body := UnstuffLines(lines[start..index]);
            return body, true;
          }
        case NoBodyMarker =>
      }
    }
    return [], false;
  }

  /** The unstuffing loop over a copy of the block's lines. */
  method UnstuffLines(block: seq<string>) returns (body: string)
    ensures body == Assemble(block)
  {
    hide Reserved;
    var bodyLines := block;
    for n := 0 to |block|
      invariant |bodyLines| == |block|
      invariant forall i :: 0 <= i < n ==> bodyLines[i] == Unstuff(block[i])
      invariant forall i :: n <= i < |block| ==> bodyLines[i] == block[i]
    {
      if " " <= bodyLines[n] {
        var unstuffed := bodyLines[n][1..];
        if Reserved(unstuffed) {
          bodyLines := bodyLines[n := unstuffed];
        }
      }
    }
    assert bodyLines == UnstuffAll(block);
    body := Trim(Join(bodyLines), NewlineOrSpace);
  }

  // ---------------------------------------------------------------- the whole message

  predicate Complete(lines: seq<string>) {
    && HasMarker(lines, "BEGIN:BMSG") && HasMarker(lines, "END:BMSG")
    && HasMarker(lines, "BEGIN:BENV") && HasMarker(lines, "BEGIN:BBODY")
  }

  lemma {:induction false} FirstMarkerUnique(lines: seq<string>, wanted: string, index: int)
    requires -1 <= index < |lines|
    requires index >= 0 ==> IsMarker(lines[index], wanted)
    requires forall i :: 0 <= i < (if index >= 0 then index else |lines|) ==> !IsMarker(lines[i], wanted)
    ensures FirstMarker(lines, wanted) == if index >= 0 then index else |lines|
  {
    hide IsMarker;
    if lines != [] && index != 0 {
      FirstMarkerUnique(lines[1..], wanted, if index > 0 then index - 1 else -1);
    }
  }

  lemma HeaderBody(lines: seq<string>)
    ensures forall body :: Header(lines, body) == Header(lines, []).(body := body)
    ensures forall body :: Header(lines, body).body == body
    ensures forall body :: |Header(lines, body).sender| <= MAX_CONTACT_ADDRESS_CHARS
  {
  }

  /** What `Parse` returns. */
  function Parsed(blob: string, maximum: int): Result<Message> {
    var lines := SplitLines(blob);
    if maximum <= 0 then Err(BadLimit)
    else if Utf8Len(blob) > maximum then Err(TooLarge)
    else if !Complete(lines) then Err(Incomplete)
    else
      match MessageBody(lines)
      case None => Err(NoBlock)
      case Some(body) => Ok(Header(lines[..FirstMarker(lines, "BEGIN:BENV")], body))
  }

  method Parse(blob: string, maximum: int) returns (r: Result<Message>)
    ensures r == Parsed(blob, maximum)
    ensures r.Ok? ==> Utf8Len(r.value.body) <= maximum && |r.value.sender| <= MAX_CONTACT_ADDRESS_CHARS
  {
    hide MessageBody;
    hide IsMarker;
    hide Header;
    hide Utf8Len;
    if maximum <= 0 {
      return Err(BadLimit);
    }
    if Utf8Len(blob) > maximum {
      return Err(TooLarge);
    }
    var lines := SplitLines(blob);
    var begin := MarkerIndex(lines, "BEGIN:BMSG");
    FirstMarkerUnique(lines, "BEGIN:BMSG", begin);
    var end := MarkerIndex(lines, "END:BMSG");
    FirstMarkerUnique(lines, "END:BMSG", end);
    var headerEnd := MarkerIndex(lines, "BEGIN:BENV");
    FirstMarkerUnique(lines, "BEGIN:BENV", headerEnd);
    var region := MarkerIndex(lines, "BEGIN:BBODY");
    FirstMarkerUnique(lines, "BEGIN:BBODY", region);
    if begin < 0 || end < 0 || headerEnd < 0 || region < 0 {
      return Err(Incomplete);
    }
    var message := ParseHeader(lines[..headerEnd]);
    HeaderBody(lines[..headerEnd]);
    var body, ok := FindMessageBody(lines);
    if !ok {
      return Err(NoBlock);
    }
    BodyIsSmall(blob);
    return Ok(message.(body := body));
  }

  // ---------------------------------------------------------------- sizes

  lemma {:induction false} UnstuffShrinks(lines: seq<string>)
    ensures LinesLen(UnstuffAll(lines)) <= LinesLen(lines)
  {
    if lines != [] {
      UnstuffShrinks(lines[1..]);
      assert UnstuffAll(lines)[1..] == UnstuffAll(lines[1..]);
      assert Utf8Len(Unstuff(lines[0])) <= Utf8Len(lines[0]);
    }
  }

  lemma LinesLenSlice(lines: seq<string>, lo: nat, hi: nat)
    requires lo <= hi <= |lines|
    ensures LinesLen(lines[lo..hi]) <= LinesLen(lines)
  {
    hide LinesLen;
    assert lines == lines[..hi] + lines[hi..];
    LinesLenConcat(lines[..hi], lines[hi..]);
    assert lines[..hi] == lines[..lo] + lines[lo..hi];
    LinesLenConcat(lines[..lo], lines[lo..hi]);
  }

  lemma AssembleIsSmall(lines: seq<string>, lo: nat, hi: nat)
    requires lo <= hi <= |lines|
    ensures Utf8Len(Assemble(lines[lo..hi])) + 1 <= LinesLen(lines) || Assemble(lines[lo..hi]) == []
  {
    var block := lines[lo..hi];
    TrimIsTrimmed(Join(UnstuffAll(block)), NewlineOrSpace);
    if block != [] {
      UnstuffShrinks(block);
      JoinLen(UnstuffAll(block));
      LinesLenSlice(lines, lo, hi);
    } else {
      assert Join(UnstuffAll(block)) == [];
    }
  }

  lemma {:induction false} BodyFromIsAssembled(lines: seq<string>, n: nat, scan: Scan) returns (lo: nat, hi: nat)
    requires n <= |lines| && (scan.start.Some? ==> scan.start.value <= n)
    requires BodyFrom(lines, n, scan).Some?
    ensures lo <= hi <= |lines| && BodyFrom(lines, n, scan) == Some(Assemble(lines[lo..hi]))
    decreases |lines| - n
  {
    if Ends(scan, lines[n]) {
      lo, hi := scan.start.value, n;
    } else {
      lo, hi := BodyFromIsAssembled(lines, n + 1, ScanLine(scan, lines[n], n));
    }
  }

  /** The body has no more bytes than the whole bMessage. */
  lemma BodyIsSmall(blob: string)
    ensures var body := MessageBody(SplitLines(blob)); body.Some? ==> Utf8Len(body.value) <= Utf8Len(blob)
  {
    var lines := SplitLines(blob);
    if MessageBody(lines).Some? {
      var lo, hi := BodyFromIsAssembled(lines, 0, SCAN_START);
      AssembleIsSmall(lines, lo, hi);
      NormalizeLen(blob);
      JoinSplit(NormalizeNewlines(blob));
      JoinLen(lines);
    }
  }
}
