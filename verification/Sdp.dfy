/** Session descriptions: the parser of offers, codec negotiation, and the printer of answers. */
module Sdp {
  import opened Text

  datatype Media = Media(kind: string, port: int, proto: string, payloadTypes: seq<int>)

  datatype Session = Session(
    version: string,
    origin: string,
    sessionName: string,
    connectionIp: string,
    media: seq<Media>,
    rtpMap: map<int, string>)

  const NO_SESSION := Session("", "", "", "", [], map[])

  const IN_IP4 := "IN IP4"
  const ORIGIN := "- 123456 123456 IN IP4"
  const RTPMAP := "rtpmap:"
  const AUDIO := "audio"
  const RTP_AVP := "RTP/AVP"

  // ---------------------------------------------------------------- the parser

  datatype Word = Word(text: string, rest: string)

  /** The length of the run of non-space characters `s` starts with. */
  function WordRun(s: string): (n: nat)
    ensures n <= |s| && (forall k :: 0 <= k < n ==> !Space(s[k]))
    ensures n < |s| ==> Space(s[n])
  {
    if s == "" || Space(s[0]) then 0 else 1 + WordRun(s[1..])
  }

  /** `>>` on a string: leading white space is skipped; an empty word is a failed read. */
  function ReadWord(s: string): Word {
    var t := SkipSpace(s);
    Word(t[..WordRun(t)], t[WordRun(t)..])
  }

  function Clamp(n: int): int {
    if n < INT_MIN then INT_MIN else if n > INT_MAX then INT_MAX else n
  }

  /** `while (stream >> pt)`: payload types until a read fails. */
  function ReadPayloadTypes(s: string): seq<int>
    decreases |s|
  {
    var r := ScanNumber(s);
    if r.number.Some? && IsInt(r.number.value) then [r.number.value] + ReadPayloadTypes(r.rest) else []
  }

  /** `<kind> <port> <proto> <pt>*`; after a failed read nothing further is read. */
  function ReadMedia(value: string): Media {
    var kind := ReadWord(value);
    if kind.text == "" then Media("", 0, "", [])
    else
      var port := ScanNumber(kind.rest);
      match port.number
      case None => Media(kind.text, 0, "", [])
      case Some(n) =>
        if !IsInt(n) then Media(kind.text, Clamp(n), "", [])
        else
          var proto := ReadWord(port.rest);
          Media(kind.text, n, proto.text, if proto.text == "" then [] else ReadPayloadTypes(proto.rest))
  }

  function UpTo(s: string, c: char): string {
    s[..IndexOf(s, c)]
  }

  /** `<pt> <name>[/<rate>]`, as it follows `rtpmap:`. */
  function MapEntry(s: Session, spec: string): Option<Session> {
    var space := IndexOf(spec, ' ');
    if space == |spec| then Some(s)
    else match StoI(spec[..space])
      case None => None
      case Some(pt) => Some(s.(rtpMap := s.rtpMap[pt := UpTo(spec[space + 1..], '/')]))
  }

  /** The effect of one `<letter>=<value>` line; nothing when `std::stoi` throws. */
  function Field(s: Session, letter: char, value: string): Option<Session> {
    if letter == 'v' then Some(s.(version := value))
    else if letter == 'o' then Some(s.(origin := value))
    else if letter == 's' then Some(s.(sessionName := value))
    else if letter == 'c' then
      var last := LastIndexOf(value, ' ');
      if Find(value, IN_IP4) != None && last >= 0 then Some(s.(connectionIp := value[last + 1..])) else Some(s)
    else if letter == 'm' then Some(s.(media := s.media + [ReadMedia(value)]))
    else if letter == 'a' && StartsWith(value, RTPMAP) then MapEntry(s, value[|RTPMAP|..])
    else Some(s)
  }

  function ParseLine(s: Session, l: string): Option<Session> {
    if |l| < 2 || l[1] != '=' then Some(s) else Field(s, l[0], l[2..])
  }

  /** The line loop from a given session on. `None` is an exception out of `std::stoi`. */
  function ParseFrom(text: string, s: Session): Option<Session>
    decreases |text|
  {
    if text == "" then Some(s)
    else
      var line := ReadLine(text);
      match ParseLine(s, Trim(line.text))
      case None => None
      case Some(next) => ParseFrom(line.rest, next)
  }

  function Parse(text: string): Option<Session> {
    ParseFrom(text, NO_SESSION)
  }

  /** `SdpParser::parse`: the loop fills one session. */
  method ParseDescription(text: string) returns (r: Option<Session>)
    ensures r == Parse(text)
  {
    var session, stream := NO_SESSION, text;
    while stream != ""
      invariant ParseFrom(stream, session) == Parse(text)
      decreases |stream|
    {
      var line := ReadLine(stream);
      var next := ParseLine(session, Trim(line.text));
      if next == None {
        return None;
      }
      session := next.value;
      stream := line.rest;
    }
    r := Some(session);
  }

  // ---------------------------------------------------------------- negotiation

  datatype Codec = Codec(payloadType: int, name: string, rate: int)

  const NO_CODEC := Codec(-1, "", 0)

  /** The first audio line of an offer. */
  function Audio(media: seq<Media>): Option<Media> {
    if media == [] then None
    else if media[0].kind == AUDIO then Some(media[0])
    else Audio(media[1..])
  }

  /** The name a payload type goes by: mapped, or one of the two static defaults. */
  function NameOf(offer: Session, pt: int): string {
    if pt in offer.rtpMap then offer.rtpMap[pt]
    else if pt == 0 then "PCMU"
    else if pt == 8 then "PCMA"
    else ""
  }

  predicate Matches(offer: Session, pts: seq<int>, prefs: seq<string>, i: nat, j: nat)
    requires i < |prefs| && j < |pts|
  {
    NameOf(offer, pts[j]) == prefs[i]
  }

  /** The index of the first payload type with a given name, or |pts|. */
  function FirstNamed(offer: Session, pts: seq<int>, name: string): (j: nat)
    ensures j <= |pts|
    ensures forall k :: 0 <= k < j ==> NameOf(offer, pts[k]) != name
    ensures j < |pts| ==> NameOf(offer, pts[j]) == name
  {
    if pts == [] || NameOf(offer, pts[0]) == name then 0 else 1 + FirstNamed(offer, pts[1..], name)
  }

  /** The pair of indices at which the two nested loops stop, if they find anything. */
  function Pick(offer: Session, pts: seq<int>, prefs: seq<string>): (r: Option<(nat, nat)>)
    ensures r.Some? ==> r.value.0 < |prefs| && r.value.1 < |pts|
  {
    if prefs == [] then None
    else
      var j := FirstNamed(offer, pts, prefs[0]);
      if j < |pts| then Some((0, j))
      else match Pick(offer, pts, prefs[1..])
        case None => None
        case Some(p) => Some((p.0 + 1, p.1))
  }

  /** The loops stop at the lexicographically least match, preference before offer order, and find
      none exactly when there is none. */
  lemma {:induction false} PickIsLeast(offer: Session, pts: seq<int>, prefs: seq<string>)
    ensures match Pick(offer, pts, prefs)
      case None => forall i, j :: 0 <= i < |prefs| && 0 <= j < |pts| ==> !Matches(offer, pts, prefs, i, j)
      case Some((i, j)) =>
        && Matches(offer, pts, prefs, i, j)
        && forall k, l :: 0 <= k < |prefs| && 0 <= l < |pts| && Matches(offer, pts, prefs, k, l)
             ==> i < k || (i == k && j <= l)
  {
    if prefs != [] {
      var tail := prefs[1..];
      PickIsLeast(offer, pts, tail);
      forall k, l | 0 < k < |prefs| && 0 <= l < |pts|
        ensures Matches(offer, pts, prefs, k, l) <==> Matches(offer, pts, tail, k - 1, l)
      {
      }
    }
  }

  function Negotiated(offer: Session, prefs: seq<string>): Codec {
    match Audio(offer.media)
    case None => NO_CODEC
    case Some(audio) =>
      match Pick(offer, audio.payloadTypes, prefs)
      case None => NO_CODEC
      case Some((i, j)) => Codec(audio.payloadTypes[j], prefs[i], 8000)
  }

  /** The nested loops of `SdpAnswer::generate`, left by the first match. */
  method Negotiate(offer: Session, prefs: seq<string>) returns (codec: Codec)
    ensures codec == Negotiated(offer, prefs)
  {
    codec := NO_CODEC;
    var audio := Audio(offer.media);
    if audio == None {
      return;
    }
    var pts := audio.value.payloadTypes;
    PickIsLeast(offer, pts, prefs);
    for i := 0 to |prefs|
      invariant codec == NO_CODEC
      invariant forall k, l :: 0 <= k < i && 0 <= l < |pts| ==> !Matches(offer, pts, prefs, k, l)
    {
      for j := 0 to |pts|
        invariant codec == NO_CODEC
        invariant forall l :: 0 <= l < j ==> !Matches(offer, pts, prefs, i, l)
      {
        if NameOf(offer, pts[j]) == prefs[i] {
          assert Matches(offer, pts, prefs, i, j);
          codec := Codec(pts[j], prefs[i], 8000);
          return;
        }
      }
    }
  }

  // ---------------------------------------------------------------- the answer

  datatype Entry = Entry(letter: char, value: string)

  function EntryText(e: Entry): string {
    [e.letter, '='] + e.value
  }

  function PrintEntries(es: seq<Entry>): string {
    if es == [] then "" else EntryText(es[0]) + "\r\n" + PrintEntries(es[1..])
  }

  function MediaValue(port: int, pt: int): string {
    AUDIO + " " + Dec(port) + " " + RTP_AVP + " " + Dec(pt)
  }

  function MapValue(codec: Codec): string {
    RTPMAP + Dec(codec.payloadType) + " " + codec.name + "/" + Dec(codec.rate)
  }

  function Entries(ip: string, port: int, codec: Codec): seq<Entry> {
    [ Entry('v', "0"),
      Entry('o', ORIGIN + " " + ip),
      Entry('s', "Gateway"),
      Entry('c', IN_IP4 + " " + ip),
      Entry('t', "0 0"),
      Entry('m', MediaValue(port, codec.payloadType)),
      Entry('a', MapValue(codec)),
      Entry('a', "sendrecv") ]
  }

  /** The answer text; empty when the negotiation left payload type -1. */
  function Answer(offer: Session, ip: string, port: int, prefs: seq<string>): string {
    var codec := Negotiated(offer, prefs);
    if codec.payloadType == -1 then "" else PrintEntries(Entries(ip, port, codec))
  }

  /** Whether there is an answer depends on the offer and the preferences alone. */
  lemma AnswerIsEmpty(offer: Session, ip: string, port: int, prefs: seq<string>)
    ensures Answer(offer, ip, port, prefs) == "" <==> Negotiated(offer, prefs).payloadType == -1
  {
    var es := Entries(ip, port, Negotiated(offer, prefs));
    assert es != [] && |PrintEntries(es)| >= |EntryText(es[0])|;
  }

  /** The answer is written line by line. */
  method WriteEntries(entries: seq<Entry>) returns (text: string)
    ensures text == PrintEntries(entries)
  {
    text := "";
    for i := 0 to |entries|
      invariant text + PrintEntries(entries[i..]) == PrintEntries(entries)
    {
      ghost var line, rest := EntryText(entries[i]) + "\r\n", PrintEntries(entries[i + 1..]);
      assert entries[i..][1..] == entries[i + 1..];
      AppendIsAssociative(text, line, rest);
      text := text + (EntryText(entries[i]) + "\r\n");
    }
    assert entries[|entries|..] == [];
  }

  /** `SdpAnswer::generate`, with its two results. */
  method Generate(offer: Session, ip: string, port: int, prefs: seq<string>) returns (text: string, codec: Codec)
    ensures codec == Negotiated(offer, prefs)
    ensures text == Answer(offer, ip, port, prefs)
  {
    codec := Negotiate(offer, prefs);
    text := "";
    if codec.payloadType != -1 {
      text := WriteEntries(Entries(ip, port, codec));
    }
  }
}
