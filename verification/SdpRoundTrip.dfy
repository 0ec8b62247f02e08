/** Reading an answer back: what the parser makes of the text the gateway prints. */
module SdpRoundTrip {
  import opened Text
  import opened Sdp

  // ---------------------------------------------------------------- one printed line

  /** A line that is read back whole. */
  ghost predicate EntrySafe(e: Entry) {
    && !Blank(e.letter) && '\n' !in e.value
    && (e.value == "" || !Blank(e.value[|e.value| - 1]))
  }

  lemma EntryLine(s: Session, e: Entry)
    requires EntrySafe(e)
    ensures '\n' !in EntryText(e)
    ensures ParseLine(s, Trim(EntryText(e) + "\r")) == Field(s, e.letter, e.value)
  {
    var l := EntryText(e);
    assert l[|l| - 1] == if e.value == "" then '=' else e.value[|e.value| - 1];
    assert "" + l + "\r" == l + "\r";
    TrimPadded("", l, "\r");
    assert l[2..] == e.value;
  }

  /** The session after the given lines, one by one. */
  function Apply(s: Session, es: seq<Entry>): Option<Session>
    decreases es
  {
    if es == [] then Some(s)
    else match Field(s, es[0].letter, es[0].value)
      case None => None
      case Some(next) => Apply(next, es[1..])
  }

  /** A line with a blank at its end is read like the line without. */
  lemma PaddedLine(s: Session, e: Entry)
    requires EntrySafe(e)
    ensures '\n' !in EntryText(Entry(e.letter, e.value + " "))
    ensures ParseLine(s, Trim(EntryText(Entry(e.letter, e.value + " ")) + "\r")) == Field(s, e.letter, e.value)
  {
    var l := EntryText(e);
    assert l[|l| - 1] == if e.value == "" then '=' else e.value[|e.value| - 1];
    assert "" + l + " \r" == EntryText(Entry(e.letter, e.value + " ")) + "\r";
    TrimPadded("", l, " \r");
    assert l[2..] == e.value;
  }

  /** The entry `f` is what is read of the printed entry `e`. */
  ghost predicate ReadAs(e: Entry, f: Entry) {
    EntrySafe(f) && (e == f || e == Entry(f.letter, f.value + " "))
  }

  lemma ReadLineAs(s: Session, e: Entry, f: Entry)
    requires ReadAs(e, f)
    ensures '\n' !in EntryText(e)
    ensures ParseLine(s, Trim(EntryText(e) + "\r")) == Field(s, f.letter, f.value)
  {
    if e == f {
      EntryLine(s, e);
    } else {
      PaddedLine(s, f);
    }
  }

  lemma {:induction false} ParseEntriesAs(s: Session, es: seq<Entry>, fs: seq<Entry>)
    requires |es| == |fs| && forall i :: 0 <= i < |es| ==> ReadAs(es[i], fs[i])
    ensures ParseFrom(PrintEntries(es), s) == Apply(s, fs)
    decreases es
  {
    if es != [] {
      var rest := PrintEntries(es[1..]);
      ReadLineAs(s, es[0], fs[0]);
      ReadPrintedLine(EntryText(es[0]), rest);
      var next := Field(s, fs[0].letter, fs[0].value);
      if next.Some? {
        ParseEntriesAs(next.value, es[1..], fs[1..]);
      }
    }
  }

  lemma ParseEntries(s: Session, es: seq<Entry>)
    requires forall e <- es :: EntrySafe(e)
    ensures ParseFrom(PrintEntries(es), s) == Apply(s, es)
  {
    ParseEntriesAs(s, es, es);
  }

  // ---------------------------------------------------------------- the four telling lines

  ghost predicate NoSpace(s: string) {
    forall c <- s :: !Space(c)
  }

  lemma {:induction false} WordRunIs(w: string, rest: string)
    requires NoSpace(w) && (rest == "" || Space(rest[0]))
    ensures WordRun(w + rest) == |w|
  {
    if w == "" {
      assert w + rest == rest;
    } else {
      assert (w + rest)[1..] == w[1..] + rest;
      WordRunIs(w[1..], rest);
    }
  }

  lemma ReadWordIs(w: string, rest: string)
    requires NoSpace(w) && w != "" && (rest == "" || Space(rest[0]))
    ensures ReadWord(w + rest) == Word(w, rest)
    ensures ReadWord(" " + w + rest) == Word(w, rest)
  {
    WordRunIs(w, rest);
    assert (w + rest)[..|w|] == w && (w + rest)[|w|..] == rest;
    assert (" " + w + rest)[1..] == w + rest;
  }

  lemma ReadNumberIs(n: int, rest: string)
    requires rest == "" || !IsDigit(rest[0])
    ensures ScanNumber(" " + Dec(n) + rest) == Scanned(Some(n), rest)
  {
    ScanPrinted(n, rest);
    ScanLeadingSpace(' ', Dec(n) + rest);
    AppendIsAssociative(" ", Dec(n), rest);
  }

  lemma PayloadTypesOf(pt: int)
    requires IsInt(pt)
    ensures ReadPayloadTypes(" " + Dec(pt)) == [pt]
  {
    ReadNumberIs(pt, "");
    assert " " + Dec(pt) + "" == " " + Dec(pt);
    assert ScanNumber("").number == None;
    assert ReadPayloadTypes("") == [];
  }

  lemma WordsAreSpaceless()
    ensures NoSpace(AUDIO) && AUDIO != "" && NoSpace(RTP_AVP) && RTP_AVP != ""
  {
    var a, r := AUDIO, RTP_AVP;
    assert |a| == 5 && |r| == 7;
  }

  lemma MediaParts(kind: string, port: int, proto: string, pt: int, r1: string, r2: string, r3: string)
    requires NoSpace(kind) && kind != "" && NoSpace(proto) && proto != "" && IsInt(port) && IsInt(pt)
    requires r3 == " " + Dec(pt) && r2 == " " + proto + r3 && r1 == " " + Dec(port) + r2
    ensures ReadMedia(kind + r1) == Media(kind, port, proto, [pt])
  {
    ReadWordIs(kind, r1);
    ReadNumberIs(port, r2);
    ReadWordIs(proto, r3);
    PayloadTypesOf(pt);
  }

  lemma MediaLine(port: int, pt: int)
    requires IsInt(port) && IsInt(pt)
    ensures ReadMedia(MediaValue(port, pt)) == Media(AUDIO, port, RTP_AVP, [pt])
  {
    WordsAreSpaceless();
    var r3 := " " + Dec(pt);
    var r2 := " " + RTP_AVP + r3;
    var r1 := " " + Dec(port) + r2;
    AppendIsAssociative(AUDIO, " ", Dec(port));
    AppendIsAssociative(AUDIO + (" " + Dec(port)), " ", RTP_AVP);
    AppendIsAssociative(AUDIO + (" " + Dec(port)) + (" " + RTP_AVP), " ", Dec(pt));
    AppendIsAssociative(AUDIO + (" " + Dec(port)), " " + RTP_AVP, r3);
    AppendIsAssociative(AUDIO, " " + Dec(port), r2);
    MediaParts(AUDIO, port, RTP_AVP, pt, r1, r2, r3);
  }

  lemma UpToIs(a: string, c: char, b: string)
    requires c !in a
    ensures UpTo(a + [c] + b, c) == a
    ensures IndexOf(a + [c] + b, c) == |a| && (a + [c] + b)[|a| + 1..] == b
  {
    var s := a + [c] + b;
    assert s[|a|] == c && forall k :: 0 <= k < |a| ==> s[k] == a[k];
    assert s[..|a|] == a;
  }

  lemma MapField(s: Session, spec: string)
    ensures Field(s, 'a', RTPMAP + spec) == MapEntry(s, spec)
  {
    var prefix := RTPMAP;
    assert (prefix + spec)[|prefix|..] == spec;
  }

  lemma MapLine(s: Session, codec: Codec)
    requires IsInt(codec.payloadType) && '/' !in codec.name
    ensures Field(s, 'a', MapValue(codec)) == Some(s.(rtpMap := s.rtpMap[codec.payloadType := codec.name]))
  {
    var d, rate := Dec(codec.payloadType), Dec(codec.rate);
    var spec := codec.name + "/" + rate;
    var tail := d + " " + spec;
    MapValueIs(codec);
    DecIsTrimmed(codec.payloadType);
    StoIDec(codec.payloadType);
    UpToIs(d, ' ', spec);
    UpToIs(codec.name, '/', rate);
    MapField(s, tail);
  }

  lemma MapValueIs(codec: Codec)
    ensures MapValue(codec) == RTPMAP + (Dec(codec.payloadType) + " " + (codec.name + "/" + Dec(codec.rate)))
  {
    var a, b, c, d := RTPMAP, Dec(codec.payloadType), codec.name, Dec(codec.rate);
    assert a + b + " " + c + "/" + d == a + (b + " " + (c + "/" + d));
  }

  /** An address the connection line can carry. */
  predicate Address(ip: string) {
    ip != "" && ' ' !in ip && '\n' !in ip && !Blank(ip[|ip| - 1])
  }

  /** The connection line `value` gives the address `ip`. */
  predicate Connects(value: string, ip: string) {
    var last := LastIndexOf(value, ' ');
    Find(value, IN_IP4) != None && last >= 0 && value[last + 1..] == ip
  }

  lemma ConnectionLine(ip: string)
    requires ' ' !in ip
    ensures Connects(IN_IP4 + " " + ip, ip)
  {
    var prefix := IN_IP4;
    var value := prefix + " " + ip;
    LastIndexOfBlank(prefix, ip);
    assert prefix <= value;
  }

  // ---------------------------------------------------------------- the whole answer

  lemma PlainEntriesAreSafe(ip: string, port: int, codec: Codec, i: nat)
    requires '\n' !in codec.name && i < 8 && i != 1 && i != 3
    ensures EntrySafe(Entries(ip, port, codec)[i])
  {
    MediaIsSafe(port, codec.payloadType);
    MapIsSafe(codec);
  }

  lemma EntriesAreSafe(ip: string, port: int, codec: Codec)
    requires Address(ip) && '\n' !in codec.name
    ensures forall e <- Entries(ip, port, codec) :: EntrySafe(e)
  {
    var es := Entries(ip, port, codec);
    AddressIsSafe('o', ORIGIN + " ", ip);
    AddressIsSafe('c', IN_IP4 + " ", ip);
    forall e <- es ensures EntrySafe(e) {
      var i :| 0 <= i < |es| && es[i] == e;
      if i != 1 && i != 3 {
        PlainEntriesAreSafe(ip, port, codec, i);
      }
    }
  }

  lemma AddressIsSafe(letter: char, prefix: string, ip: string)
    requires Address(ip) && !Blank(letter) && '\n' !in prefix
    ensures EntrySafe(Entry(letter, prefix + ip))
  {
    var v := prefix + ip;
    assert v[|v| - 1] == ip[|ip| - 1];
  }

  lemma MediaIsSafe(port: int, pt: int)
    ensures EntrySafe(Entry('m', MediaValue(port, pt)))
  {
    var d := Dec(pt);
    DecIsTrimmed(pt);
    DecIsTrimmed(port);
    WordsAreSpaceless();
    var v := MediaValue(port, pt);
    assert v[|v| - 1] == d[|d| - 1];
  }

  lemma MapIsSafe(codec: Codec)
    requires '\n' !in codec.name
    ensures EntrySafe(Entry('a', MapValue(codec)))
  {
    var head, d := RTPMAP + Dec(codec.payloadType) + " " + codec.name + "/", Dec(codec.rate);
    DecIsTrimmed(codec.rate);
    DecIsTrimmed(codec.payloadType);
    PrefixIsClean();
    assert MapValue(codec) == head + d;
    assert (head + d)[|head + d| - 1] == d[|d| - 1];
    assert '\n' !in head;
  }

  lemma PrefixIsClean()
    ensures '\n' !in RTPMAP
  {}

  /** What the peer must understand from an answer. */
  function Understood(ip: string, port: int, codec: Codec): Session {
    Session("0", ORIGIN + " " + ip, "Gateway", ip,
            [Media(AUDIO, port, RTP_AVP, [codec.payloadType])], map[codec.payloadType := codec.name])
  }

  lemma ApplyStep(s: Session, es: seq<Entry>, i: nat)
    requires i < |es|
    ensures Apply(s, es[i..]) == match Field(s, es[i].letter, es[i].value)
      case None => None
      case Some(next) => Apply(next, es[i + 1..])
  {
    assert es[i..][1..] == es[i + 1..];
  }

  lemma ApplyFour(s: Session, a: Entry, b: Entry, c: Entry, d: Entry, rest: seq<Entry>,
                  s1: Session, s2: Session, s3: Session, s4: Session)
    requires Field(s, a.letter, a.value) == Some(s1)
    requires Field(s1, b.letter, b.value) == Some(s2)
    requires Field(s2, c.letter, c.value) == Some(s3)
    requires Field(s3, d.letter, d.value) == Some(s4)
    ensures Apply(s, [a, b, c, d] + rest) == Apply(s4, rest)
  {
    var es := [a, b, c, d] + rest;
    ApplyStep(s, es, 0);
    ApplyStep(s1, es, 1);
    ApplyStep(s2, es, 2);
    ApplyStep(s3, es, 3);
    assert es[4..] == rest && es[0..] == es;
  }

  lemma ApplyHead(es: seq<Entry>, o: string, n: string, c: string, ip: string)
    requires |es| == 8 && Connects(c, ip)
    requires es[0] == Entry('v', "0") && es[1] == Entry('o', o) && es[2] == Entry('s', n)
    requires es[3] == Entry('c', c)
    ensures Apply(NO_SESSION, es) == Apply(Session("0", o, n, ip, [], map[]), es[4..])
  {
    var s1 := NO_SESSION.(version := "0");
    var s2 := s1.(origin := o);
    var s3 := s2.(sessionName := n);
    ApplyFour(NO_SESSION, es[0], es[1], es[2], es[3], es[4..], s1, s2, s3, s3.(connectionIp := ip));
    assert es == [es[0], es[1], es[2], es[3]] + es[4..];
  }

  lemma MediaField(s: Session, port: int, pt: int)
    requires IsInt(port) && IsInt(pt) && s.media == []
    ensures Field(s, 'm', MediaValue(port, pt)) == Some(s.(media := [Media(AUDIO, port, RTP_AVP, [pt])]))
  {
    MediaLine(port, pt);
    var m := [Media(AUDIO, port, RTP_AVP, [pt])];
    assert s.media + m == m;
  }

  lemma TailFields(s: Session, s5: Session, s6: Session, t: string, port: int, codec: Codec, last: string)
    requires s.media == [] && s.rtpMap == map[]
    requires IsInt(port) && IsInt(codec.payloadType) && '/' !in codec.name
    requires s5 == s.(media := [Media(AUDIO, port, RTP_AVP, [codec.payloadType])])
    requires s6 == s5.(rtpMap := map[codec.payloadType := codec.name])
    requires last != "" && last[0] != 'r'
    ensures Field(s, 't', t) == Some(s)
    ensures Field(s, 'm', MediaValue(port, codec.payloadType)) == Some(s5)
    ensures Field(s5, 'a', MapValue(codec)) == Some(s6)
    ensures Field(s6, 'a', last) == Some(s6)
  {
    MediaField(s, port, codec.payloadType);
    MapLine(s5, codec);
    NotAMap(s6, last);
  }

  lemma LastFour(es: seq<Entry>)
    requires |es| == 8
    ensures es[4..] == [es[4], es[5], es[6], es[7]] + []
  {}

  lemma ApplyTail(s: Session, es: seq<Entry>, port: int, codec: Codec)
    requires |es| == 8 && s.media == [] && s.rtpMap == map[]
    requires IsInt(port) && IsInt(codec.payloadType) && '/' !in codec.name
    requires es[4].letter == 't'
    requires es[5] == Entry('m', MediaValue(port, codec.payloadType))
    requires es[6] == Entry('a', MapValue(codec))
    requires es[7].letter == 'a' && es[7].value != "" && es[7].value[0] != 'r'
    ensures Apply(s, es[4..]) == Some(s.(
      media := [Media(AUDIO, port, RTP_AVP, [codec.payloadType])],
      rtpMap := map[codec.payloadType := codec.name]))
  {
    var s5 := s.(media := [Media(AUDIO, port, RTP_AVP, [codec.payloadType])]);
    var s6 := s5.(rtpMap := map[codec.payloadType := codec.name]);
    TailFields(s, s5, s6, es[4].value, port, codec, es[7].value);
    ApplyFour(s, es[4], es[5], es[6], es[7], [], s, s5, s6, s6);
    LastFour(es);
  }

  lemma ApplyEntries(es: seq<Entry>, o: string, c: string, ip: string, port: int, codec: Codec)
    requires Connects(c, ip) && IsInt(port) && IsInt(codec.payloadType) && '/' !in codec.name
    requires es == Entries("", port, codec)[1 := Entry('o', o)][3 := Entry('c', c)]
    ensures Apply(NO_SESSION, es) == Some(Understood(ip, port, codec).(origin := o))
  {
    ApplyHead(es, o, es[2].value, c, ip);
    ApplyTail(Session("0", o, es[2].value, ip, [], map[]), es, port, codec);
  }

  lemma NotAMap(s: Session, value: string)
    requires value != "" && value[0] != 'r'
    ensures Field(s, 'a', value) == Some(s)
  {
    var prefix := RTPMAP;
    assert prefix[0] == 'r';
  }

  lemma PrintedEntriesRead(ip: string, port: int, codec: Codec)
    requires Address(ip) && IsInt(port) && IsInt(codec.payloadType) && '/' !in codec.name && '\n' !in codec.name
    ensures Parse(PrintEntries(Entries(ip, port, codec))) == Some(Understood(ip, port, codec))
  {
    EntriesAreSafe(ip, port, codec);
    ParseEntries(NO_SESSION, Entries(ip, port, codec));
    ConnectionLine(ip);
    EntriesWithAddress(ip, port, codec);
    ApplyEntries(Entries(ip, port, codec), ORIGIN + " " + ip, IN_IP4 + " " + ip, ip, port, codec);
  }

  /** The address is in two lines only. */
  lemma EntriesWithAddress(ip: string, port: int, codec: Codec)
    ensures Entries(ip, port, codec)
         == Entries("", port, codec)[1 := Entry('o', ORIGIN + " " + ip)][3 := Entry('c', IN_IP4 + " " + ip)]
  {}

  // ---------------------------------------------------------------- addresses that are not read back

  /** The parser only ever finds an address of this kind, or none. */
  ghost predicate Legible(ip: string) {
    ip == "" || Address(ip)
  }

  lemma LastWordIsLegible(value: string)
    requires '\n' !in value && value != "" && !Blank(value[|value| - 1])
    ensures Address(value[LastIndexOf(value, ' ') + 1..])
  {
    var last := LastIndexOf(value, ' ');
    var ip := value[last + 1..];
    assert ip != "" && ip[|ip| - 1] == value[|value| - 1];
    assert forall k :: 0 <= k < |ip| ==> ip[k] == value[last + 1 + k];
  }

  lemma FieldKeepsLegible(s: Session, letter: char, value: string)
    requires Legible(s.connectionIp) && '\n' !in value && (value == "" || !Blank(value[|value| - 1]))
    ensures Field(s, letter, value).Some? ==> Legible(Field(s, letter, value).value.connectionIp)
  {
    if value != "" {
      LastWordIsLegible(value);
    }
  }

  lemma LineKeepsLegible(s: Session, text: string)
    requires Legible(s.connectionIp) && '\n' !in text
    ensures var r := ParseLine(s, Trim(text)); r.Some? ==> Legible(r.value.connectionIp)
  {
    var l := Trim(text);
    TrimIsTrimmed(text);
    if |l| >= 2 && l[1] == '=' {
      assert forall k :: 0 <= k < |l[2..]| ==> l[2..][k] == l[k + 2];
      FieldKeepsLegible(s, l[0], l[2..]);
    }
  }

  lemma {:induction false} ParseIsLegible(text: string, s: Session)
    requires Legible(s.connectionIp)
    ensures ParseFrom(text, s).Some? ==> Legible(ParseFrom(text, s).value.connectionIp)
    decreases |text|
  {
    if text != "" {
      var line := ReadLine(text);
      LineKeepsLegible(s, line.text);
      var next := ParseLine(s, Trim(line.text));
      if next.Some? {
        ParseIsLegible(line.rest, next.value);
      }
    }
  }

  lemma KeywordConnects()
    ensures Connects(IN_IP4, "IP4")
  {
    LastIndexOfBlank("IN", "IP4");
    assert IN_IP4 == "IN" + " " + "IP4";
  }

  lemma KeywordsAreSafe()
    ensures EntrySafe(Entry('o', ORIGIN)) && EntrySafe(Entry('c', IN_IP4))
  {
    var o, c := ORIGIN, IN_IP4;
    assert o[|o| - 1] == '4' && c[|c| - 1] == '4';
    assert forall k :: 0 <= k < |o| ==> o[k] != '\n';
  }

  lemma JoinNothing(a: string)
    ensures a + " " + "" == a + " "
  {}

  /** What is read of an answer without an address: the two lines with it lose their final blank. */
  lemma EmptyAddressReads(port: int, codec: Codec)
    requires '\n' !in codec.name
    ensures var es := Entries("", port, codec);
      Parse(PrintEntries(es)) == Apply(NO_SESSION, es[1 := Entry('o', ORIGIN)][3 := Entry('c', IN_IP4)])
  {
    var es := Entries("", port, codec);
    var fs := es[1 := Entry('o', ORIGIN)][3 := Entry('c', IN_IP4)];
    KeywordsAreSafe();
    JoinNothing(ORIGIN);
    JoinNothing(IN_IP4);
    forall i | 0 <= i < |es| ensures ReadAs(es[i], fs[i]) {
      if i != 1 && i != 3 {
        PlainEntriesAreSafe("", port, codec, i);
      }
    }
    ParseEntriesAs(NO_SESSION, es, fs);
  }

  ghost predicate CleanCodec(c: Codec) {
    IsInt(c.payloadType) && '/' !in c.name && '\n' !in c.name
  }

  /** Every answer made without a local address is misread: the address type is taken for the address. */
  lemma EmptyAddressMisread(offer: Session, port: int, prefs: seq<string>)
    requires IsInt(port) && Answer(offer, "", port, prefs) != "" && CleanCodec(Negotiated(offer, prefs))
    ensures Parse(Answer(offer, "", port, prefs))
         == Some(Understood("IP4", port, Negotiated(offer, prefs)).(origin := ORIGIN))
  {
    var codec := Negotiated(offer, prefs);
    EmptyAddressReads(port, codec);
    KeywordConnects();
    ApplyEntries(Entries("", port, codec)[1 := Entry('o', ORIGIN)][3 := Entry('c', IN_IP4)],
                 ORIGIN, IN_IP4, "IP4", port, codec);
  }

  /** A non-empty answer reads back as the address, the one audio line and the codec it was made from
      exactly when the address is not empty, has no space and no newline, and does not end in a blank;
      for no other address is even that address read back. */
  lemma AnswerRoundTrip(offer: Session, ip: string, port: int, prefs: seq<string>)
    requires IsInt(port) && Answer(offer, ip, port, prefs) != "" && CleanCodec(Negotiated(offer, prefs))
    ensures var read := Parse(Answer(offer, ip, port, prefs));
      && (read == Some(Understood(ip, port, Negotiated(offer, prefs))) <==> Address(ip))
      && (read.Some? && read.value.connectionIp == ip <==> Address(ip))
  {
    if Address(ip) {
      PrintedEntriesRead(ip, port, Negotiated(offer, prefs));
    } else if ip == "" {
      EmptyAddressMisread(offer, port, prefs);
    } else {
      ParseIsLegible(Answer(offer, ip, port, prefs), NO_SESSION);
    }
  }

  // ---------------------------------------------------------------- what is answered

  /** The name a payload type goes by in an offer: the one it is mapped to, or PCMU and PCMA for 0 and 8. */
  ghost predicate Goes(offer: Session, pt: int, name: string) {
    if pt in offer.rtpMap then name == offer.rtpMap[pt]
    else name == (if pt == 0 then "PCMU" else if pt == 8 then "PCMA" else "")
  }

  lemma MatchesByName(offer: Session, pts: seq<int>, prefs: seq<string>, i: nat, j: nat)
    requires i < |prefs| && j < |pts|
    ensures Matches(offer, pts, prefs, i, j) <==> Goes(offer, pts[j], prefs[i])
  {}

  /** Preference `i` and payload type `j` match, and no match comes earlier in preference order, then
      in the order of the offer. */
  ghost predicate Best(offer: Session, pts: seq<int>, prefs: seq<string>, i: nat, j: nat)
    requires i < |prefs| && j < |pts|
  {
    && Goes(offer, pts[j], prefs[i])
    && forall k, l :: 0 <= k < |prefs| && 0 <= l < |pts| && Goes(offer, pts[l], prefs[k])
         ==> i < k || (i == k && j <= l)
  }

  /** The audio line of an offer is its first one. */
  lemma {:induction false} AudioIsFirst(media: seq<Media>)
    ensures match Audio(media)
      case None => forall i :: 0 <= i < |media| ==> media[i].kind != "audio"
      case Some(m) =>
        exists i :: 0 <= i < |media| && media[i] == m && m.kind == "audio"
                    && forall j :: 0 <= j < i ==> media[j].kind != "audio"
  {
    if media != [] && media[0].kind != AUDIO {
      AudioIsFirst(media[1..]);
      if Audio(media).Some? {
        var i :| 0 <= i < |media[1..]| && media[1..][i] == Audio(media).value && Audio(media).value.kind == "audio"
          && forall j :: 0 <= j < i ==> media[1..][j].kind != "audio";
        assert media[i + 1] == Audio(media).value;
      }
    }
  }

  lemma NegotiatedIsBest(offer: Session, audio: Media, prefs: seq<string>)
    requires Audio(offer.media) == Some(audio)
    ensures var pts, pick := audio.payloadTypes, Pick(offer, audio.payloadTypes, prefs);
      if pick == None then
        && Negotiated(offer, prefs) == NO_CODEC
        && forall i, j :: 0 <= i < |prefs| && 0 <= j < |pts| ==> !Goes(offer, pts[j], prefs[i])
      else
        && Negotiated(offer, prefs) == Codec(pts[pick.value.1], prefs[pick.value.0], 8000)
        && Best(offer, pts, prefs, pick.value.0, pick.value.1)
        && forall k, l :: 0 <= k < |prefs| && 0 <= l < |pts| && Best(offer, pts, prefs, k, l)
             ==> k == pick.value.0 && l == pick.value.1
  {
    var pts := audio.payloadTypes;
    PickIsLeast(offer, pts, prefs);
    forall i, j | 0 <= i < |prefs| && 0 <= j < |pts|
      ensures Matches(offer, pts, prefs, i, j) <==> Goes(offer, pts[j], prefs[i])
    {
      MatchesByName(offer, pts, prefs, i, j);
    }
  }

  /** The answer uses the best match; it is empty exactly without an audio line, without a match, or
      when the best match has payload type -1, which doubles as the mark for "none found". */
  lemma AnswerIsBest(offer: Session, ip: string, port: int, prefs: seq<string>)
    ensures match Audio(offer.media)
      case None => Answer(offer, ip, port, prefs) == ""
      case Some(audio) =>
        var pts := audio.payloadTypes;
        && (Answer(offer, ip, port, prefs) == "" <==>
              forall i, j :: 0 <= i < |prefs| && 0 <= j < |pts| && Best(offer, pts, prefs, i, j) ==> pts[j] == -1)
        && (forall i, j :: 0 <= i < |prefs| && 0 <= j < |pts| && Best(offer, pts, prefs, i, j)
              ==> Negotiated(offer, prefs) == Codec(pts[j], prefs[i], 8000))
        && ((exists i, j :: 0 <= i < |prefs| && 0 <= j < |pts| && Goes(offer, pts[j], prefs[i]))
              ==> exists i, j :: 0 <= i < |prefs| && 0 <= j < |pts| && Best(offer, pts, prefs, i, j))
  {
    match Audio(offer.media)
    case None =>
    case Some(audio) =>
      NegotiatedIsBest(offer, audio, prefs);
      PrintedIsNotEmpty(Entries(ip, port, Negotiated(offer, prefs)));
  }

  lemma PrintedIsNotEmpty(es: seq<Entry>)
    requires es != []
    ensures PrintEntries(es) != ""
  {}

  // ---------------------------------------------------------------- parsed offers

  ghost predicate CleanName(name: string) {
    '/' !in name && '\n' !in name
  }

  /** What the parser guarantees of a session: int payload types, names cut at the slash. */
  ghost predicate ParsedOffer(s: Session) {
    && (forall m <- s.media :: forall pt <- m.payloadTypes :: IsInt(pt))
    && (forall pt <- s.rtpMap :: CleanName(s.rtpMap[pt]))
  }

  lemma {:induction false} ReadPayloadTypesAreInts(s: string)
    ensures forall pt <- ReadPayloadTypes(s) :: IsInt(pt)
    decreases |s|
  {
    var r := ScanNumber(s);
    if r.number.Some? && IsInt(r.number.value) {
      ReadPayloadTypesAreInts(r.rest);
    }
  }

  lemma ReadMediaIsInts(value: string)
    ensures forall pt <- ReadMedia(value).payloadTypes :: IsInt(pt)
  {
    var kind := ReadWord(value);
    var port := ScanNumber(kind.rest);
    ReadPayloadTypesAreInts(ReadWord(port.rest).rest);
  }

  lemma MapEntryKeepsOffer(s: Session, spec: string)
    requires ParsedOffer(s) && '\n' !in spec && MapEntry(s, spec).Some?
    ensures ParsedOffer(MapEntry(s, spec).value)
  {}

  lemma FieldKeepsOffer(s: Session, letter: char, value: string)
    requires ParsedOffer(s) && '\n' !in value && Field(s, letter, value).Some?
    ensures ParsedOffer(Field(s, letter, value).value)
  {
    if letter == 'm' {
      ReadMediaIsInts(value);
    } else if letter == 'a' && StartsWith(value, RTPMAP) {
      MapEntryKeepsOffer(s, value[|RTPMAP|..]);
    }
  }

  lemma {:induction false} ParseKeepsOffer(text: string, s: Session)
    requires ParsedOffer(s) && ParseFrom(text, s).Some?
    ensures ParsedOffer(ParseFrom(text, s).value)
    decreases |text|
  {
    if text != "" {
      var line := ReadLine(text);
      var l := Trim(line.text);
      TrimIsTrimmed(line.text);
      if |l| >= 2 && l[1] == '=' {
        FieldKeepsOffer(s, l[0], l[2..]);
      }
      ParseKeepsOffer(line.rest, ParseLine(s, l).value);
    }
  }

  lemma {:induction false} AudioIsMedia(media: seq<Media>)
    ensures Audio(media).Some? ==> Audio(media).value in media
  {
    if media != [] && media[0].kind != AUDIO {
      AudioIsMedia(media[1..]);
    }
  }

  lemma StaticNamesAreClean()
    ensures CleanName("PCMU") && CleanName("PCMA") && CleanName("")
  {}

  lemma NegotiatedIsClean(offer: Session, prefs: seq<string>)
    requires ParsedOffer(offer)
    ensures var c := Negotiated(offer, prefs); IsInt(c.payloadType) && CleanName(c.name)
  {
    StaticNamesAreClean();
    match Audio(offer.media)
    case None =>
    case Some(audio) =>
      AudioIsMedia(offer.media);
      PickIsLeast(offer, audio.payloadTypes, prefs);
      match Pick(offer, audio.payloadTypes, prefs)
      case None =>
      case Some((i, j)) =>
        assert Matches(offer, audio.payloadTypes, prefs, i, j);
        assert audio.payloadTypes[j] in audio.payloadTypes;
  }

  /** From the offer's text to the answer's meaning, for every offer at all. */
  lemma OfferAnswered(body: string, ip: string, port: int, prefs: seq<string>)
    requires Parse(body).Some? && IsInt(port)
    requires Answer(Parse(body).value, ip, port, prefs) != ""
    ensures var offer := Parse(body).value;
      Parse(Answer(offer, ip, port, prefs)) == Some(Understood(ip, port, Negotiated(offer, prefs))) <==> Address(ip)
  {
    ParseKeepsOffer(body, NO_SESSION);
    NegotiatedIsClean(Parse(body).value, prefs);
    AnswerRoundTrip(Parse(body).value, ip, port, prefs);
  }

  // ---------------------------------------------------------------- a payload type of -1

  const PCMU := "PCMU"

  /** The offer of payload type -1, mapped to PCMU. */
  const MINUS_ONE := PrintEntries([Entry('m', MediaValue(9, -1)), Entry('a', MapValue(Codec(-1, PCMU, 8000)))])

  lemma MinusOneIsRead()
    ensures Parse(MINUS_ONE) == Some(NO_SESSION.(media := [Media(AUDIO, 9, RTP_AVP, [-1])], rtpMap := map[-1 := PCMU]))
  {
    var codec := Codec(-1, PCMU, 8000);
    var es := [Entry('m', MediaValue(9, -1)), Entry('a', MapValue(codec))];
    var s := NO_SESSION.(media := [Media(AUDIO, 9, RTP_AVP, [-1])]);
    var name := PCMU;
    assert name == ['P', 'C', 'M', 'U'];
    MediaIsSafe(9, -1);
    MapIsSafe(codec);
    ParseEntries(NO_SESSION, es);
    MediaField(NO_SESSION, 9, -1);
    MapLine(s, codec);
    ApplyStep(NO_SESSION, es, 0);
    ApplyStep(s, es, 1);
    assert es[0..] == es && es[2..] == [];
  }

  /** A codec in common is not enough: this offer has one, and is refused, because -1 doubles as the
      mark for "none found". */
  lemma MinusOneIsRefused(ip: string, port: int)
    ensures Parse(MINUS_ONE).Some?
    ensures var offer := Parse(MINUS_ONE).value;
      && Audio(offer.media) == Some(Media(AUDIO, 9, RTP_AVP, [-1])) && Matches(offer, [-1], [PCMU], 0, 0)
      && Answer(offer, ip, port, [PCMU]) == ""
  {
    MinusOneIsRead();
    var offer := Parse(MINUS_ONE).value;
    assert Audio(offer.media) == Some(offer.media[0]);
    assert NameOf(offer, -1) == PCMU;
    assert Pick(offer, [-1], [PCMU]) == Some((0, 0));
  }
}
