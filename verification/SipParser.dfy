/** Reading a SIP datagram: the start line, the header lines with folding, and the body. */
module SipParser {
  import opened Text
  import opened SipMessage

  /** What the header loop has gathered: the fields it updates line by line. */
  datatype Scan = Scan(headers: seq<Header>, lastName: string, contentLength: int)

  const START := Scan([], "", 0)

  function LengthOf(value: string): int {
    match StoI(value)
    case Some(n) => n
    case None => 0
  }

  predicate IsFold(l: string) {
    l != "" && (l[0] == ' ' || l[0] == '\t')
  }

  /** The length in force after a header: the header of the given key sets it. */
  function NextLength(name: string, value: string, n: int, key: string): int {
    if name == key then LengthOf(value) else n
  }

  /** A header field read off a line. */
  function TakeHeader(st: Scan, name: string, value: string): Scan {
    Scan(Insert(st.headers, Lower(name), value), Lower(name),
         NextLength(Lower(name), value, st.contentLength, CONTENT_LENGTH))
  }

  /** The effect of one non-empty header line. A fold goes to the first header of the last name. */
  function HeaderLine(st: Scan, l: string): Scan {
    if IsFold(l) then
      if st.lastName == "" then st
      else st.(headers := AppendToFirst(st.headers, st.lastName, " " + Trim(l)))
    else
      var colon := IndexOf(l, ':');
      if colon == |l| then st
      else TakeHeader(st, Trim(l[..colon]), Trim(l[colon + 1..]))
  }

  datatype Section = Section(scan: Scan, rest: string)

  /** The header section of a stream: every line up to the first empty one, or to the end. */
  function ScanHeaders(s: string, st: Scan): Section
    decreases |s|
  {
    if s == "" then Section(st, "")
    else
      var line := ReadLine(s);
      var l := ChopCR(line.text);
      if l == "" then Section(st, line.rest)
      else ScanHeaders(line.rest, HeaderLine(st, l))
  }

  /** `SIP/2.0 <code> <phrase>`. */
  function StatusLine(l: string): Option<Message> {
    var first := IndexOf(l, ' ');
    if first == |l| then None
    else
      var tail := l[first + 1..];
      var second := IndexOf(tail, ' ');
      if second == |tail| then None
      else match StoI(tail[..second])
        case None => None
        case Some(code) => Some(EMPTY.(statusCode := code, statusPhrase := tail[second + 1..]))
  }

  /** `<method> <uri> <version>`: the URI runs from the first blank to the last. */
  function RequestLine(l: string): Option<Message> {
    var first, last := IndexOf(l, ' '), LastIndexOf(l, ' ');
    if first < last then
      Some(EMPTY.(isRequest := true, methodStr := Upper(l[..first]),
                  uri := l[first + 1..last], version := l[last + 1..]))
    else None
  }

  function FirstLine(l: string): Option<Message> {
    if StartsWith(l, SIP_VERSION) then StatusLine(l) else RequestLine(l)
  }

  function BodyOf(contentLength: int, rest: string): string {
    if contentLength <= 0 then ""
    else if contentLength < |rest| then rest[..contentLength]
    else rest
  }

  function Parse(datagram: string): Option<Message> {
    if datagram == "" then None
    else
      var line := ReadLine(datagram);
      match FirstLine(ChopCR(line.text))
      case None => None
      case Some(m) =>
        var s := ScanHeaders(line.rest, START);
        Some(m.(headers := s.scan.headers, body := BodyOf(s.scan.contentLength, s.rest)))
  }

  lemma ScanStep(s: string, st: Scan)
    requires s != ""
    ensures var line := ReadLine(s);
      var l := ChopCR(line.text);
      ScanHeaders(s, st) == if l == "" then Section(st, line.rest) else ScanHeaders(line.rest, HeaderLine(st, l))
  {}

  /** One non-empty header line, updating the headers, the last name and the length in place. */
  method TakeLine(l: string, headers: seq<Header>, lastName: string, contentLength: int)
    returns (newHeaders: seq<Header>, newName: string, newLength: int)
    ensures Scan(newHeaders, newName, newLength) == HeaderLine(Scan(headers, lastName, contentLength), l)
  {
    newHeaders, newName, newLength := headers, lastName, contentLength;
    if IsFold(l) {
      if lastName != "" {
        newHeaders := AppendToFirst(headers, lastName, " " + Trim(l));
      }
      return;
    }
    var colon := IndexOf(l, ':');
    if colon < |l| {
      var name, value := Trim(l[..colon]), Trim(l[colon + 1..]);
      newHeaders := Insert(headers, Lower(name), value);
      newName := Lower(name);
      if newName == CONTENT_LENGTH {
        newLength := LengthOf(value);
      }
    }
  }

  /** The loop over the header lines. */
  method ReadHeaders(s: string) returns (headers: seq<Header>, contentLength: int, rest: string)
    ensures var section := ScanHeaders(s, START);
      headers == section.scan.headers && contentLength == section.scan.contentLength && rest == section.rest
  {
    var lastName := "";
    headers, contentLength, rest := [], 0, s;
    while rest != ""
      invariant ScanHeaders(rest, Scan(headers, lastName, contentLength)) == ScanHeaders(s, START)
      decreases |rest|
    {
      ScanStep(rest, Scan(headers, lastName, contentLength));
      var line := ReadLine(rest);
      var l := ChopCR(line.text);
      rest := line.rest;
      if l == "" {
        return;
      }
      headers, lastName, contentLength := TakeLine(l, headers, lastName, contentLength);
    }
  }

  /** `SipParser::parse`: the first line, the header lines, then the body. */
  method ParseDatagram(datagram: string) returns (r: Option<Message>)
    ensures r == Parse(datagram)
  {
    if datagram == "" {
      return None;
    }
    var line := ReadLine(datagram);
    var first := FirstLine(ChopCR(line.text));
    if first == None {
      return None;
    }
    var headers, contentLength, rest := ReadHeaders(line.rest);
    r := Some(first.value.(headers := headers, body := BodyOf(contentLength, rest)));
  }
}
