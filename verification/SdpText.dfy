/** Session descriptions as text, independently of the program's own functions: what the parser makes of any offer
    of the usual form, and the exact text of an answer. */
module SdpText {
  import opened Text
  import opened Sdp
  import opened SdpRoundTrip

  // ---------------------------------------------------------------- the lines of an offer

  /** The lines an offer is told by: the connection address, an audio stream with its payload types, the name
      of a payload type, and any other line. */
  datatype Line =
    | Connection(ip: string)
    | Stream(port: int, pts: seq<int>)
    | Name(pt: int, name: string, rate: string)
    | Other(letter: char, value: string)

  function PtList(pts: seq<int>): string {
    if pts == [] then "" else " " + Dec(pts[0]) + PtList(pts[1..])
  }

  function LineText(l: Line): string {
    match l
    case Connection(ip) => "c=" + ("IN IP4" + " " + ip)
    case Stream(port, pts) => "m=" + ("audio" + (" " + Dec(port) + (" " + "RTP/AVP" + PtList(pts))))
    case Name(pt, name, rate) => "a=" + ("rtpmap:" + (Dec(pt) + " " + (name + "/" + rate)))
    case Other(letter, value) => [letter, '='] + value
  }

  /** Its address has no space, its numbers are ints, its names have no slash, no line contains a newline or
      ends in a blank, and the other lines are no connection, no stream and no name. */
  ghost predicate Usual(l: Line) {
    match l
    case Connection(ip) => Address(ip)
    case Stream(port, pts) => IsInt(port) && forall pt <- pts :: IsInt(pt)
    case Name(pt, name, rate) =>
      IsInt(pt) && '/' !in name && '\n' !in name && '\n' !in rate && rate != "" && !Blank(rate[|rate| - 1])
    case Other(letter, value) =>
      && letter != 'c' && letter != 'm' && (letter == 'a' ==> !("rtpmap:" <= value))
      && !Blank(letter) && '\n' !in value
      && (value == "" || !Blank(value[|value| - 1]))
  }

  /** What a line says. */
  function Says(s: Session, l: Line): Session {
    match l
    case Connection(ip) => s.(connectionIp := ip)
    case Stream(port, pts) => s.(media := s.media + [Media("audio", port, "RTP/AVP", pts)])
    case Name(pt, name, _) => s.(rtpMap := s.rtpMap[pt := name])
    case Other(letter, value) =>
      if letter == 'v' then s.(version := value)
      else if letter == 'o' then s.(origin := value)
      else if letter == 's' then s.(sessionName := value)
      else s
  }

  function SaysAll(s: Session, ls: seq<Line>): Session
    decreases ls
  {
    if ls == [] then s else SaysAll(Says(s, ls[0]), ls[1..])
  }

  /** The lines, each ended by CR LF or by LF alone. */
  function OfferText(ls: seq<Line>, crlf: bool): string {
    if ls == [] then "" else LineText(ls[0]) + (if crlf then "\r\n" else "\n") + OfferText(ls[1..], crlf)
  }

  lemma {:induction false} PtListRead(pts: seq<int>)
    requires forall pt <- pts :: IsInt(pt)
    ensures ReadPayloadTypes(PtList(pts)) == pts
    ensures PtList(pts) == "" || PtList(pts)[0] == ' '
  {
    if pts == [] {
      assert ScanNumber("").number == None;
    } else {
      var rest := PtList(pts[1..]);
      PtListRead(pts[1..]);
      ReadNumberIs(pts[0], rest);
      assert pts == [pts[0]] + pts[1..];
    }
  }

  lemma StreamRead(port: int, pts: seq<int>, kind: string, proto: string)
    requires IsInt(port) && (forall pt <- pts :: IsInt(pt))
    requires NoSpace(kind) && kind != "" && NoSpace(proto) && proto != ""
    ensures ReadMedia(kind + (" " + Dec(port) + (" " + proto + PtList(pts)))) == Media(kind, port, proto, pts)
  {
    var r3 := PtList(pts);
    var r2 := " " + proto + r3;
    var r1 := " " + Dec(port) + r2;
    PtListRead(pts);
    ReadWordIs(kind, r1);
    ReadNumberIs(port, r2);
    ReadWordIs(proto, r3);
  }

  /** A port that is no int ends the reading: it counts as the nearest int, and nothing behind it is read. */
  lemma PortTooBig(port: int, rest: string, kind: string)
    requires !IsInt(port) && NoSpace(kind) && kind != "" && (rest == "" || !IsDigit(rest[0]))
    ensures ReadMedia(kind + (" " + Dec(port) + rest))
         == Media(kind, if port > 0 then 0x7FFF_FFFF else -0x8000_0000, "", [])
  {
    ReadWordIs(kind, " " + Dec(port) + rest);
    ReadNumberIs(port, rest);
  }

  lemma StreamSays(s: Session, port: int, pts: seq<int>)
    requires IsInt(port) && (forall pt <- pts :: IsInt(pt))
    ensures Field(s, 'm', AUDIO + (" " + Dec(port) + (" " + RTP_AVP + PtList(pts))))
         == Some(s.(media := s.media + [Media(AUDIO, port, RTP_AVP, pts)]))
  {
    WordsAreSpaceless();
    StreamRead(port, pts, AUDIO, RTP_AVP);
  }

  lemma NameSays(s: Session, pt: int, name: string, rate: string)
    requires IsInt(pt) && '/' !in name
    ensures Field(s, 'a', RTPMAP + (Dec(pt) + " " + (name + "/" + rate))) == Some(s.(rtpMap := s.rtpMap[pt := name]))
  {
    var d, spec := Dec(pt), name + "/" + rate;
    DecIsTrimmed(pt);
    StoIDec(pt);
    UpToIs(d, ' ', spec);
    UpToIs(name, '/', rate);
    MapField(s, d + " " + spec);
  }

  lemma ConnectionSays(s: Session, ip: string)
    requires Address(ip)
    ensures Field(s, 'c', IN_IP4 + " " + ip) == Some(s.(connectionIp := ip))
  {
    ConnectionLine(ip);
  }

  /** The words of the lines. */
  lemma Words()
    ensures IN_IP4 == "IN IP4" && AUDIO == "audio" && RTP_AVP == "RTP/AVP" && RTPMAP == "rtpmap:"
  {}

  lemma LineHead(letter: char, value: string, l: string)
    requires l == [letter, '='] + value
    ensures |l| >= 2 && l[0] == letter && l[1] == '=' && l[2..] == value
  {}

  lemma LineSays(s: Session, l: Line)
    requires Usual(l)
    ensures ParseLine(s, LineText(l)) == Some(Says(s, l))
  {
    Words();
    match l {
      case Connection(ip) =>
        ConnectionSays(s, ip);
        LineHead('c', "IN IP4" + " " + ip, LineText(l));
      case Stream(port, pts) =>
        StreamSays(s, port, pts);
        LineHead('m', "audio" + (" " + Dec(port) + (" " + "RTP/AVP" + PtList(pts))), LineText(l));
      case Name(pt, name, rate) =>
        NameSays(s, pt, name, rate);
        LineHead('a', "rtpmap:" + (Dec(pt) + " " + (name + "/" + rate)), LineText(l));
      case Other(letter, value) =>
        LineHead(letter, value, LineText(l));
    }
  }

  lemma EndOf(a: string, b: string)
    requires b != ""
    ensures (a + b)[|a + b| - 1] == b[|b| - 1]
  {}

  lemma {:induction false} PtListEnds(pts: seq<int>)
    ensures '\n' !in PtList(pts)
    ensures PtList(pts) != "" ==> !Blank(PtList(pts)[|PtList(pts)| - 1])
  {
    if pts != [] {
      var d, rest := Dec(pts[0]), PtList(pts[1..]);
      DecIsTrimmed(pts[0]);
      PtListEnds(pts[1..]);
      if rest == "" {
        assert " " + d + rest == " " + d;
        EndOf(" ", d);
      } else {
        EndOf(" " + d, rest);
      }
    }
  }

  lemma NumberEnds(n: int)
    ensures '\n' !in Dec(n) && !Blank(Dec(n)[|Dec(n)| - 1])
  {
    var d := Dec(n);
    DecIsTrimmed(n);
    assert d[|d| - 1] in d;
  }

  lemma StreamEnds(kind: string, port: int, proto: string, pts: seq<int>)
    requires '\n' !in kind && '\n' !in proto && proto != "" && !Blank(proto[|proto| - 1])
    ensures var v := kind + (" " + Dec(port) + (" " + proto + PtList(pts)));
      '\n' !in v && !Blank(v[|v| - 1])
  {
    var list := PtList(pts);
    var tail := " " + proto + list;
    NumberEnds(port);
    PtListEnds(pts);
    if list == "" {
      assert tail == " " + proto;
      EndOf(" ", proto);
    } else {
      EndOf(" " + proto, list);
    }
    EndOf(" " + Dec(port), tail);
    EndOf(kind, " " + Dec(port) + tail);
  }

  lemma NameEnds(prefix: string, pt: int, name: string, rate: string)
    requires '\n' !in prefix && '\n' !in name && '\n' !in rate && rate != "" && !Blank(rate[|rate| - 1])
    ensures var v := prefix + (Dec(pt) + " " + (name + "/" + rate));
      '\n' !in v && !Blank(v[|v| - 1])
  {
    NumberEnds(pt);
    EndOf(name + "/", rate);
    EndOf(Dec(pt) + " ", name + "/" + rate);
    EndOf(prefix, Dec(pt) + " " + (name + "/" + rate));
  }

  lemma LineTrimmed(letter: char, value: string)
    requires !Blank(letter) && '\n' !in value && (value == "" || !Blank(value[|value| - 1]))
    ensures var l := [letter, '='] + value; Trimmed(l) && '\n' !in l && l != ""
  {
    var l := [letter, '='] + value;
    assert l[|l| - 1] == if value == "" then '=' else value[|value| - 1];
  }

  lemma ConnectionEnds(prefix: string, ip: string)
    requires '\n' !in prefix && Address(ip)
    ensures var v := prefix + " " + ip; '\n' !in v && !Blank(v[|v| - 1])
  {
    EndOf(prefix + " ", ip);
  }

  lemma LineIsTrimmed(l: Line)
    requires Usual(l)
    ensures Trimmed(LineText(l)) && '\n' !in LineText(l)
  {
    match l {
      case Connection(ip) =>
        ConnectionEnds("IN IP4", ip);
        LineTrimmed('c', "IN IP4" + " " + ip);
      case Stream(port, pts) =>
        StreamEnds("audio", port, "RTP/AVP", pts);
        LineTrimmed('m', "audio" + (" " + Dec(port) + (" " + "RTP/AVP" + PtList(pts))));
      case Name(pt, name, rate) =>
        NameEnds("rtpmap:", pt, name, rate);
        LineTrimmed('a', "rtpmap:" + (Dec(pt) + " " + (name + "/" + rate)));
      case Other(letter, value) => LineTrimmed(letter, value);
    }
  }

  /** A line ended either way is read as the line. */
  lemma LineIsRead(l: string, crlf: bool, rest: string)
    requires Trimmed(l) && '\n' !in l
    ensures var s := l + (if crlf then "\r\n" else "\n") + rest;
      s != "" && Trim(ReadLine(s).text) == l && ReadLine(s).rest == rest
  {
    if crlf {
      ReadPrintedLine(l, rest);
      TrimPadded("", l, "\r");
      assert "" + l + "\r" == l + "\r";
    } else {
      ReadLineOf(l, rest);
      TrimFixes(l);
    }
  }

  lemma {:induction false} LinesAreRead(s: Session, ls: seq<Line>, crlf: bool)
    requires forall l <- ls :: Usual(l)
    ensures ParseFrom(OfferText(ls, crlf), s) == Some(SaysAll(s, ls))
    decreases ls
  {
    if ls != [] {
      LineIsTrimmed(ls[0]);
      LineSays(s, ls[0]);
      LineIsRead(LineText(ls[0]), crlf, OfferText(ls[1..], crlf));
      LinesAreRead(Says(s, ls[0]), ls[1..], crlf);
    }
  }

  /** Every offer of the usual form is read as what its lines say, whatever their number and order. */
  lemma OfferIsRead(ls: seq<Line>, crlf: bool)
    requires forall l <- ls :: Usual(l)
    ensures Parse(OfferText(ls, crlf)) == Some(SaysAll(Session("", "", "", "", [], map[]), ls))
  {
    LinesAreRead(NO_SESSION, ls, crlf);
  }

  // ---------------------------------------------------------------- the text of an answer

  /** Two lines more, in front. */
  lemma PrintedTwo(es: seq<Entry>, a: string, b: string)
    requires |es| >= 2 && a == EntryText(es[0]) + "\r\n" && b == EntryText(es[1]) + "\r\n"
    ensures PrintEntries(es) == a + (b + PrintEntries(es[2..]))
  {
    assert es[1..][1..] == es[2..];
  }

  lemma PlainLines()
    ensures EntryText(Sdp.Entry('v', "0")) + "\r\n" == "v=0\r\n"
    ensures EntryText(Sdp.Entry('s', "Gateway")) + "\r\n" == "s=Gateway\r\n"
    ensures EntryText(Sdp.Entry('t', "0 0")) + "\r\n" == "t=0 0\r\n"
    ensures EntryText(Sdp.Entry('a', "sendrecv")) + "\r\n" == "a=sendrecv\r\n"
  {}

  lemma AddressLine(letter: char, prefix: string, ip: string, head: string)
    requires head == [letter, '='] + prefix + " "
    ensures EntryText(Sdp.Entry(letter, prefix + " " + ip)) + "\r\n" == head + ip + "\r\n"
  {
    assert [letter, '='] + (prefix + " " + ip) == head + ip;
  }

  lemma AddressLines(ip: string)
    ensures EntryText(Sdp.Entry('o', ORIGIN + " " + ip)) + "\r\n" == "o=- 123456 123456 IN IP4 " + ip + "\r\n"
    ensures EntryText(Sdp.Entry('c', IN_IP4 + " " + ip)) + "\r\n" == "c=IN IP4 " + ip + "\r\n"
  {
    AddressLine('o', ORIGIN, ip, "o=- 123456 123456 IN IP4 ");
    AddressLine('c', IN_IP4, ip, "c=IN IP4 ");
  }

  lemma MediaLineText(port: int, pt: int)
    ensures EntryText(Sdp.Entry('m', MediaValue(port, pt))) + "\r\n"
         == "m=audio " + Dec(port) + " RTP/AVP " + Dec(pt) + "\r\n"
  {
    Joined("m=", AUDIO, " ", Dec(port), " ", RTP_AVP, " ", Dec(pt), "m=audio ", " RTP/AVP ");
  }

  lemma Joined(a: string, b: string, c: string, d: string, e: string, f: string, g: string, h: string,
               head: string, middle: string)
    requires head == a + b + c && middle == e + f + g
    ensures a + (b + c + d + e + f + g + h) == head + d + middle + h
  {
    AppendIsAssociative(a, b, c);
    AppendIsAssociative(a, b + c, d);
    AppendIsAssociative(a, b + c + d, e);
    AppendIsAssociative(a, b + c + d + e, f);
    AppendIsAssociative(a, b + c + d + e + f, g);
    AppendIsAssociative(a, b + c + d + e + f + g, h);
    AppendIsAssociative(head + d, e, f);
    AppendIsAssociative(head + d, e + f, g);
  }

  lemma MapLineText(pt: int, name: string)
    ensures EntryText(Sdp.Entry('a', MapValue(Codec(pt, name, 8000)))) + "\r\n"
         == "a=rtpmap:" + Dec(pt) + " " + name + "/8000" + "\r\n"
  {
    RateText();
    Named("a=", RTPMAP, Dec(pt), " ", name, "/", Dec(8000), "a=rtpmap:", "/8000");
  }

  lemma RateText()
    ensures Dec(8000) == "8000"
  {
    assert Digits(8) == "8" && Digits(80) == "80" && Digits(800) == "800";
  }

  lemma Named(a: string, b: string, c: string, d: string, e: string, f: string, g: string, head: string, tail: string)
    requires head == a + b && tail == f + g
    ensures a + (b + c + d + e + f + g) == head + c + d + e + tail
  {
    AppendIsAssociative(a, b, c);
    AppendIsAssociative(a, b + c, d);
    AppendIsAssociative(a, b + c + d, e);
    AppendIsAssociative(a, b + c + d + e, f);
    AppendIsAssociative(a, b + c + d + e + f, g);
    AppendIsAssociative(head + c + d + e, f, g);
  }

  /** The exact text of an answer. */
  lemma AnswerText(offer: Session, ip: string, port: int, prefs: seq<string>, pt: int, name: string)
    requires Negotiated(offer, prefs) == Codec(pt, name, 8000) && pt != -1
    ensures Answer(offer, ip, port, prefs)
         == "v=0\r\n" + ("o=- 123456 123456 IN IP4 " + ip + "\r\n"
            + ("s=Gateway\r\n" + ("c=IN IP4 " + ip + "\r\n"
            + ("t=0 0\r\n" + ("m=audio " + Dec(port) + " RTP/AVP " + Dec(pt) + "\r\n"
            + ("a=rtpmap:" + Dec(pt) + " " + name + "/8000" + "\r\n" + ("a=sendrecv\r\n" + "")))))))
  {
    var es := Entries(ip, port, Codec(pt, name, 8000));
    PlainLines();
    AddressLines(ip);
    MediaLineText(port, pt);
    MapLineText(pt, name);
    PrintedEight(es, "v=0\r\n", "o=- 123456 123456 IN IP4 " + ip + "\r\n", "s=Gateway\r\n", "c=IN IP4 " + ip + "\r\n",
                 "t=0 0\r\n", "m=audio " + Dec(port) + " RTP/AVP " + Dec(pt) + "\r\n",
                 "a=rtpmap:" + Dec(pt) + " " + name + "/8000" + "\r\n", "a=sendrecv\r\n");
  }

  lemma PrintedEight(es: seq<Entry>, a: string, b: string, c: string, d: string, e: string, f: string, g: string,
                     h: string)
    requires |es| == 8 && a == EntryText(es[0]) + "\r\n" && b == EntryText(es[1]) + "\r\n"
    requires c == EntryText(es[2]) + "\r\n" && d == EntryText(es[3]) + "\r\n"
    requires e == EntryText(es[4]) + "\r\n" && f == EntryText(es[5]) + "\r\n"
    requires g == EntryText(es[6]) + "\r\n" && h == EntryText(es[7]) + "\r\n"
    ensures PrintEntries(es) == a + (b + (c + (d + (e + (f + (g + (h + "")))))))
  {
    PrintedTwo(es, a, b);
    PrintedTwo(es[2..], c, d);
    PrintedTwo(es[4..], e, f);
    PrintedTwo(es[6..], g, h);
    assert es[2..][2..] == es[4..] && es[4..][2..] == es[6..] && es[6..][2..] == [];
  }
}
