/** Building a response to a request: the Via stack and the dialog headers are copied, a To tag is
    added to final responses, and all of it survives the trip over the wire. */
module SipResponse {
  import opened Text
  import opened SipMessage
  import opened SipParser
  import opened SipRoundTrip

  const VIA := "via"
  const FROM := "from"
  const TO := "to"
  const CALL_ID := "call-id"
  const CSEQ := "cseq"
  const USER_AGENT := "user-agent"

  const CONTENT_TYPE := "content-type"
  const CONTACT := "contact"

  const SDP_TYPE := "application/sdp"
  const GATEWAY := "SIP-RTP-Gateway"
  const TAG := "tag="
  const NEW_TAG := ";tag=gen"

  /** The first value of a header, as a list of at most one. */
  function First(req: Message, name: string): seq<string> {
    var vs := ValuesOf(req.headers, name);
    if vs == [] then [] else [vs[0]]
  }

  /** The To value of a response: final ones get a tag when there is none. */
  function Tagged(to: string, code: int, clock: nat): string {
    if code >= 200 && Find(to, TAG) == None then to + NEW_TAG + Dec(clock % 1000000) else to
  }

  /** The rule for the To value `v` of a response to a request with the To value `to`: a final response
      gets a tag when "tag=" stands nowhere in it, and then the tag is a numeral of at most six digits. */
  ghost predicate TagRule(to: string, code: int, clock: nat, v: string) {
    if code >= 200 && forall i: nat :: !Occurs(to, "tag=", i) then
      to + ";tag=gen" <= v && Numeral(v[|to| + 8..], clock % 1000000)
    else v == to
  }

  lemma TaggedFollowsRule(to: string, code: int, clock: nat)
    ensures TagRule(to, code, clock, Tagged(to, code, clock))
  {
    var d, tag := Dec(clock % 1000000), NEW_TAG;
    assert |tag| == 8;
    DecIsNumeral(clock % 1000000);
    FindIsFirst(to, TAG);
    assert (to + tag + d)[|to| + 8..] == d;
  }

  function TaggedAll(tos: seq<string>, code: int, clock: nat): seq<string> {
    if tos == [] then [] else [Tagged(tos[0], code, clock)]
  }

  /** A header of a response, with the values it gets. */
  datatype Field = Field(name: string, values: seq<string>)

  function Fields(req: Message, code: int, clock: nat): seq<Field> {
    [ Field(VIA, ValuesOf(req.headers, VIA)),
      Field(FROM, First(req, FROM)),
      Field(TO, TaggedAll(First(req, TO), code, clock)),
      Field(CALL_ID, First(req, CALL_ID)),
      Field(CSEQ, First(req, CSEQ)),
      Field(USER_AGENT, [GATEWAY]) ]
  }

  /** The headers after adding the fields one by one. */
  function Assemble(fields: seq<Field>): seq<Header> {
    if fields == [] then []
    else
      var last := |fields| - 1;
      InsertAll(Assemble(fields[..last]), fields[last].name, fields[last].values)
  }

  function ResponseHeaders(req: Message, code: int, clock: nat): seq<Header> {
    Assemble(Fields(req, code, clock))
  }

  function Response(req: Message, code: int, phrase: string, clock: nat): Message {
    Message(false, "", "", req.version, code, phrase, ResponseHeaders(req, code, clock), "")
  }

  /** The 200 that accepts an INVITE: the session description travels in the body. */
  function Accepting(req: Message, clock: nat, contact: string, answer: string): Message {
    var res := Response(req, 200, "OK", clock);
    res.(headers := Insert(Insert(res.headers, CONTENT_TYPE, SDP_TYPE), CONTACT, contact), body := answer)
  }

  lemma HeaderNames()
    ensures Lower("Via") == VIA && Lower("From") == FROM && Lower("To") == TO
    ensures Lower("Call-ID") == CALL_ID && Lower("CSeq") == CSEQ && Lower("User-Agent") == USER_AGENT
  {
    LowerIs("Via", VIA);
    LowerIs("From", FROM);
    LowerIs("To", TO);
    LowerIs("Call-ID", CALL_ID);
    LowerIs("CSeq", CSEQ);
    LowerIs("User-Agent", USER_AGENT);
  }

  lemma {:induction false} InsertAllStep(hs: seq<Header>, name: string, values: seq<string>, i: nat)
    requires i < |values|
    ensures InsertAll(hs, name, values[..i + 1]) == Insert(InsertAll(hs, name, values[..i]), name, values[i])
    decreases i
  {
    if i > 0 {
      InsertAllStep(Insert(hs, name, values[0]), name, values[1..], i - 1);
      assert values[..i + 1][1..] == values[1..][..i];
      assert values[..i][1..] == values[1..][..i - 1];
    } else {
      assert values[..1] == [values[0]];
      assert [values[0]][1..] == [];
    }
  }

  lemma InsertAllOne(hs: seq<Header>, name: string, value: string)
    ensures InsertAll(hs, name, [value]) == Insert(hs, name, value)
  {
    assert [value][1..] == [];
  }

  /** The loop over the request's Via range. */
  method CopyVias(req: Message, res: Message) returns (r: Message)
    ensures r == res.(headers := InsertAll(res.headers, VIA, ValuesOf(req.headers, VIA)))
  {
    LowerIs("Via", VIA);
    var vias := ValuesOf(req.headers, VIA);
    r := res;
    for i := 0 to |vias|
      invariant r == res.(headers := InsertAll(res.headers, VIA, vias[..i]))
    {
      InsertAllStep(res.headers, VIA, vias, i);
      r := r.AddHeader("Via", vias[i]);
    }
    assert vias[..|vias|] == vias;
  }

  /** `getHeader`, then `addHeader` when it found something. */
  method CopyFirst(req: Message, res: Message, name: string, ghost key: string) returns (r: Message)
    requires Lower(name) == key
    ensures r == res.(headers := InsertAll(res.headers, key, First(req, key)))
  {
    r := res;
    var v := req.GetHeader(name);
    if v.Some? {
      r := res.AddHeader(name, v.value);
      InsertAllOne(res.headers, key, v.value);
    }
  }

  /** The To header, with a tag added to a final response that has none. */
  method CopyTo(req: Message, res: Message, name: string, code: int, clock: nat) returns (r: Message)
    requires Lower(name) == TO
    ensures r == res.(headers := InsertAll(res.headers, TO, TaggedAll(First(req, TO), code, clock)))
  {
    r := res;
    var to := req.GetHeader(name);
    if to.Some? {
      var toVal := to.value;
      if code >= 200 && Find(toVal, TAG) == None {
        toVal := toVal + NEW_TAG + Dec(clock % 1000000);
      }
      r := res.AddHeader(name, toVal);
      InsertAllOne(res.headers, TO, toVal);
    }
  }

  lemma AssembleStep(fields: seq<Field>, i: nat)
    requires i < |fields|
    ensures Assemble(fields[..i + 1]) == InsertAll(Assemble(fields[..i]), fields[i].name, fields[i].values)
  {
    assert fields[..i + 1][..i] == fields[..i];
  }

  lemma AssembleThree(fields: seq<Field>, i: nat)
    requires i + 3 <= |fields|
    ensures var h1 := InsertAll(Assemble(fields[..i]), fields[i].name, fields[i].values);
      var h2 := InsertAll(h1, fields[i + 1].name, fields[i + 1].values);
      Assemble(fields[..i + 3]) == InsertAll(h2, fields[i + 2].name, fields[i + 2].values)
  {
    AssembleStep(fields, i);
    AssembleStep(fields, i + 1);
    AssembleStep(fields, i + 2);
  }

  lemma AssembleSix(fields: seq<Field>)
    requires |fields| == 6
    ensures var h1 := InsertAll([], fields[0].name, fields[0].values);
      var h2 := InsertAll(h1, fields[1].name, fields[1].values);
      var h3 := InsertAll(h2, fields[2].name, fields[2].values);
      var h4 := InsertAll(h3, fields[3].name, fields[3].values);
      var h5 := InsertAll(h4, fields[4].name, fields[4].values);
      Assemble(fields) == InsertAll(h5, fields[5].name, fields[5].values)
  {
    AssembleThree(fields, 0);
    AssembleThree(fields, 3);
    assert fields[..0] == [] && fields[..6] == fields;
  }

  lemma ResponseChain(req: Message, code: int, clock: nat)
    ensures var h1 := InsertAll([], VIA, ValuesOf(req.headers, VIA));
      var h2 := InsertAll(h1, FROM, First(req, FROM));
      var h3 := InsertAll(h2, TO, TaggedAll(First(req, TO), code, clock));
      var h4 := InsertAll(h3, CALL_ID, First(req, CALL_ID));
      var h5 := InsertAll(h4, CSEQ, First(req, CSEQ));
      ResponseHeaders(req, code, clock) == InsertAll(h5, USER_AGENT, [GATEWAY])
  {
    AssembleSix(Fields(req, code, clock));
  }

  /** `SipResponseBuilder::createResponse`: the response is filled field by field. */
  method CreateResponse(req: Message, code: int, phrase: string, clock: nat) returns (res: Message)
    ensures res == Response(req, code, phrase, clock)
  {
    HeaderNames();
    ResponseChain(req, code, clock);
    var from, to, callId, cseq, agent := "From", "To", "Call-ID", "CSeq", "User-Agent";
    res := EMPTY.(version := req.version, statusCode := code, statusPhrase := phrase);
    res := CopyVias(req, res);
    res := CopyFirst(req, res, from, FROM);
    res := CopyTo(req, res, to, code, clock);
    res := CopyFirst(req, res, callId, CALL_ID);
    res := CopyFirst(req, res, cseq, CSEQ);
    InsertAllOne(res.headers, USER_AGENT, GATEWAY);
    res := res.AddHeader(agent, GATEWAY);
  }

  // ---------------------------------------------------------------- what a response carries

  lemma NamesAreDistinct()
    ensures VIA != FROM && VIA != TO && VIA != CALL_ID && VIA != CSEQ && VIA != USER_AGENT
    ensures FROM != TO && FROM != CALL_ID && FROM != CSEQ && FROM != USER_AGENT
    ensures TO != CALL_ID && TO != CSEQ && TO != USER_AGENT
    ensures CALL_ID != CSEQ && CALL_ID != USER_AGENT && CSEQ != USER_AGENT
    ensures CONTENT_LENGTH !in {VIA, FROM, TO, CALL_ID, CSEQ, USER_AGENT, CONTENT_TYPE, CONTACT}
    ensures CONTENT_TYPE !in {VIA, FROM, TO, CALL_ID, CSEQ}
    ensures CONTACT !in {VIA, FROM, TO, CALL_ID, CSEQ}
  {
    assert |VIA| == 3 && |FROM| == 4 && |TO| == 2 && |CALL_ID| == 7 && |CSEQ| == 4 && |USER_AGENT| == 10;
    assert FROM[0] == 'f' && CSEQ[0] == 'c';
    assert |CONTENT_LENGTH| == 14 && |CONTENT_TYPE| == 12 && |CONTACT| == 7;
    assert CALL_ID[1] == 'a' && CONTACT[1] == 'o';
  }

  /** All values the fields give to a key. */
  function Given(fields: seq<Field>, key: string): seq<string> {
    if fields == [] then []
    else
      var last := |fields| - 1;
      Given(fields[..last], key) + (if key == fields[last].name then fields[last].values else [])
  }

  lemma {:induction false} AssembleGives(fields: seq<Field>, key: string)
    ensures Sorted(Assemble(fields))
    ensures ValuesOf(Assemble(fields), key) == Given(fields, key)
  {
    if fields != [] {
      var last := |fields| - 1;
      AssembleGives(fields[..last], key);
      InsertAllIsStable(Assemble(fields[..last]), fields[last].name, fields[last].values, key);
    }
  }

  ghost predicate DistinctNames(fields: seq<Field>) {
    forall i, j :: 0 <= i < j < |fields| ==> fields[i].name != fields[j].name
  }

  lemma {:induction false} GivenNothing(fields: seq<Field>, key: string)
    requires forall f <- fields :: f.name != key
    ensures Given(fields, key) == []
  {
    if fields != [] {
      var last := |fields| - 1;
      assert fields[last] in fields;
      GivenNothing(fields[..last], key);
    }
  }

  lemma {:induction false} GivenOnce(fields: seq<Field>, i: nat)
    requires i < |fields| && DistinctNames(fields)
    ensures Given(fields, fields[i].name) == fields[i].values
  {
    var last := |fields| - 1;
    if i == last {
      GivenNothing(fields[..last], fields[i].name);
    } else {
      GivenOnce(fields[..last], i);
    }
  }

  /** Letters and hyphens only. */
  ghost predicate PlainName(name: string) {
    forall c <- name :: 'a' <= c <= 'z' || c == '-'
  }

  /** Multimap headers that also survive the trimming of the parser. */
  ghost predicate WireHeaders(hs: seq<Header>) {
    MapHeaders(hs) && TrimmedValues(hs)
  }

  ghost predicate WireValue(v: string) {
    Trimmed(v) && '\n' !in v
  }

  lemma PlainNameIsSafe(name: string, value: string)
    requires PlainName(name) && WireValue(value)
    ensures LineSafe(Header(name, value)) && Lower(name) == name
  {
    forall k | 0 <= k < |name| ensures LowerChar(name[k]) == name[k] && !Blank(name[k]) {
      assert name[k] in name;
    }
    LowerIs(name, name);
  }

  lemma {:induction false} InsertAllKeepsWire(hs: seq<Header>, name: string, values: seq<string>)
    requires WireHeaders(hs) && PlainName(name)
    requires forall v <- values :: WireValue(v)
    ensures WireHeaders(InsertAll(hs, name, values))
    decreases values
  {
    if values != [] {
      PlainNameIsSafe(name, values[0]);
      InsertKeepsSorted(hs, name, values[0]);
      InsertMembers(hs, name, values[0]);
      InsertAllKeepsWire(Insert(hs, name, values[0]), name, values[1..]);
    }
  }

  lemma StoredValuesAreWire(hs: seq<Header>, name: string)
    requires WireHeaders(hs)
    ensures forall v <- ValuesOf(hs, name) :: WireValue(v)
  {
    ValuesAreStored(hs, name);
    forall v <- ValuesOf(hs, name) ensures WireValue(v) {
      var h := Header(name, v);
      assert h in hs;
      assert LineSafe(h) && Trimmed(h.value);
    }
  }

  lemma TaggedIsWire(to: string, code: int, clock: nat)
    requires WireValue(to)
    ensures WireValue(Tagged(to, code, clock))
  {
    var d := Dec(clock % 1000000);
    var tag := NEW_TAG;
    DecIsTrimmed(clock % 1000000);
    assert |tag| == 8 && tag[0] == ';';
    assert forall k :: 0 <= k < 8 ==> tag[k] != '\n';
    var r := to + tag + d;
    assert d[|d| - 1] in d && r[|r| - 1] == d[|d| - 1];
  }

  lemma NamesArePlain()
    ensures PlainName(VIA) && PlainName(FROM) && PlainName(TO) && PlainName(CALL_ID)
    ensures PlainName(CSEQ) && PlainName(USER_AGENT) && PlainName(CONTENT_TYPE) && PlainName(CONTACT)
    ensures WireValue(GATEWAY)
  {}

  lemma {:induction false} AssembleIsWire(fields: seq<Field>)
    requires forall f <- fields :: PlainName(f.name) && forall v <- f.values :: WireValue(v)
    ensures WireHeaders(Assemble(fields))
  {
    if fields != [] {
      var last := |fields| - 1;
      assert fields[last] in fields;
      AssembleIsWire(fields[..last]);
      InsertAllKeepsWire(Assemble(fields[..last]), fields[last].name, fields[last].values);
    }
  }

  ghost predicate WireField(f: Field) {
    PlainName(f.name) && forall v <- f.values :: WireValue(v)
  }

  lemma CopiedIsWire(req: Message, name: string, code: int, clock: nat)
    requires WireHeaders(req.headers) && PlainName(name)
    ensures WireField(Field(name, ValuesOf(req.headers, name)))
    ensures WireField(Field(name, First(req, name)))
    ensures WireField(Field(name, TaggedAll(First(req, name), code, clock)))
  {
    StoredValuesAreWire(req.headers, name);
    if First(req, name) != [] {
      TaggedIsWire(First(req, name)[0], code, clock);
    }
  }

  lemma ResponseHeadersAreWire(req: Message, code: int, clock: nat)
    requires WireHeaders(req.headers)
    ensures WireHeaders(ResponseHeaders(req, code, clock))
  {
    var fields := Fields(req, code, clock);
    NamesArePlain();
    CopiedIsWire(req, VIA, code, clock);
    CopiedIsWire(req, FROM, code, clock);
    CopiedIsWire(req, TO, code, clock);
    CopiedIsWire(req, CALL_ID, code, clock);
    CopiedIsWire(req, CSEQ, code, clock);
    forall f <- fields ensures WireField(f) {
      var i :| 0 <= i < |fields| && fields[i] == f;
    }
    AssembleIsWire(fields);
  }

  // ---------------------------------------------------------------- over the wire

  /** The response `q` carries what RFC 3261 section 8.2.6.2 asks of a response to `req`: the Via
      values in their order, From, Call-ID and CSeq unchanged, and To with a tag where the rule asks for one. */
  ghost predicate Echoes(req: Message, code: int, clock: nat, q: Message) {
    && ValuesOf(q.headers, VIA) == ValuesOf(req.headers, VIA)
    && ValuesOf(q.headers, FROM) == First(req, FROM)
    && ValuesOf(q.headers, CALL_ID) == First(req, CALL_ID)
    && ValuesOf(q.headers, CSEQ) == First(req, CSEQ)
    && var tos, got := First(req, TO), ValuesOf(q.headers, TO);
       |got| == |tos| && (tos != [] ==> TagRule(tos[0], code, clock, got[0]))
  }

  lemma FieldsAreDistinct(req: Message, code: int, clock: nat)
    ensures DistinctNames(Fields(req, code, clock))
    ensures forall f <- Fields(req, code, clock) :: f.name != CONTENT_LENGTH
  {
    NamesAreDistinct();
    var fields := Fields(req, code, clock);
    forall f <- fields ensures f.name != CONTENT_LENGTH {
      var i :| 0 <= i < |fields| && fields[i] == f;
    }
  }

  lemma FieldArrives(req: Message, code: int, clock: nat, i: nat)
    requires i < 6
    ensures var f := Fields(req, code, clock)[i];
      ValuesOf(ResponseHeaders(req, code, clock), f.name) == f.values
  {
    FieldsAreDistinct(req, code, clock);
    GivenOnce(Fields(req, code, clock), i);
    AssembleGives(Fields(req, code, clock), Fields(req, code, clock)[i].name);
  }

  lemma ResponseEchoes(req: Message, code: int, phrase: string, clock: nat)
    ensures Echoes(req, code, clock, Response(req, code, phrase, clock))
    ensures Lengths(Response(req, code, phrase, clock)) == []
  {
    FieldArrives(req, code, clock, 0);
    FieldArrives(req, code, clock, 1);
    FieldArrives(req, code, clock, 2);
    FieldArrives(req, code, clock, 3);
    FieldArrives(req, code, clock, 4);
    if First(req, TO) != [] {
      TaggedFollowsRule(First(req, TO)[0], code, clock);
    }
    FieldsAreDistinct(req, code, clock);
    GivenNothing(Fields(req, code, clock), CONTENT_LENGTH);
    AssembleGives(Fields(req, code, clock), CONTENT_LENGTH);
  }

  /** Inserting a header of another name leaves the echo alone. */
  lemma InsertKeepsEcho(req: Message, code: int, clock: nat, q: Message, name: string, value: string)
    requires Echoes(req, code, clock, q) && Sorted(q.headers)
    requires name !in {VIA, FROM, TO, CALL_ID, CSEQ}
    ensures Echoes(req, code, clock, q.(headers := Insert(q.headers, name, value)))
  {
    InsertIsStable(q.headers, name, value, VIA);
    InsertIsStable(q.headers, name, value, FROM);
    InsertIsStable(q.headers, name, value, TO);
    InsertIsStable(q.headers, name, value, CALL_ID);
    InsertIsStable(q.headers, name, value, CSEQ);
  }

  /** Printed, sent and parsed, the response `m` still echoes `req` and has its whole body; with a
      SIP/2.0 version it is read as a response with its own code and phrase. */
  ghost predicate Delivers(req: Message, clock: nat, m: Message) {
    match Parse(Print(m))
    case None => false
    case Some(q) =>
      && Echoes(req, m.statusCode, clock, q) && q.body == m.body
      && (StartsWith(m.version, SIP_VERSION) ==>
            !q.isRequest && q.statusCode == m.statusCode && q.statusPhrase == m.statusPhrase)
  }

  /** A message with wire headers, no Content-Length of its own and a response start line comes back
      with its code, its phrase, its whole body, and its echo of the request. */
  lemma SentResponse(req: Message, clock: nat, m: Message)
    requires !m.isRequest && IsInt(m.statusCode) && '\n' !in m.statusPhrase
    requires ' ' !in m.version && '\n' !in m.version
    requires WireHeaders(m.headers) && Lengths(m) == [] && |m.body| <= INT_MAX
    requires Echoes(req, m.statusCode, clock, m)
    ensures Delivers(req, clock, m)
  {
    DecIsTrimmed(m.statusCode);
    NoNewline(m.version, Dec(m.statusCode), m.statusPhrase);
    StatusLineRoundTrip(m.version, m.statusCode, m.statusPhrase);
    ParsePrinted(m);
    TrimValuesFixes(m.headers);
    NamesAreDistinct();
    InsertKeepsEcho(req, m.statusCode, clock, m, CONTENT_LENGTH, Dec(|m.body|));
  }

  /** Every response to a parsed request, read back from the wire, still echoes that request. */
  lemma ViaStackPreserved(req: Message, code: int, phrase: string, clock: nat)
    requires Parsed(req) && req.isRequest && TrimmedValues(req.headers)
    requires IsInt(code) && '\n' !in phrase
    ensures Delivers(req, clock, Response(req, code, phrase, clock))
  {
    VersionIsClean(req);
    ResponseHeadersAreWire(req, code, clock);
    ResponseEchoes(req, code, phrase, clock);
    SentResponse(req, clock, Response(req, code, phrase, clock));
  }

  lemma VersionIsClean(req: Message)
    requires StartLineOk(req) && req.isRequest
    ensures ' ' !in req.version && '\n' !in req.version
  {
    var l := StartLine(req);
    assert l[|l| - |req.version|..] == req.version;
    forall c <- req.version ensures c in l {
      var k :| 0 <= k < |req.version| && req.version[k] == c;
      assert l[|l| - |req.version| + k] == c;
    }
  }

  /** An extra header keeps everything `SentResponse` asks for. */
  lemma ExtraHeader(req: Message, clock: nat, r: Message, name: string, value: string)
    requires WireHeaders(r.headers) && Lengths(r) == [] && Echoes(req, r.statusCode, clock, r)
    requires PlainName(name) && WireValue(value)
    requires name !in {VIA, FROM, TO, CALL_ID, CSEQ, CONTENT_LENGTH}
    ensures var q := r.(headers := Insert(r.headers, name, value));
      WireHeaders(q.headers) && Lengths(q) == [] && Echoes(req, r.statusCode, clock, q)
  {
    InsertAllOne(r.headers, name, value);
    InsertAllKeepsWire(r.headers, name, [value]);
    InsertKeepsEcho(req, r.statusCode, clock, r, name, value);
    InsertIsStable(r.headers, name, value, CONTENT_LENGTH);
  }

  lemma SdpTypeIsWire()
    ensures WireValue(SDP_TYPE)
  {
    var sdp := SDP_TYPE;
    assert |sdp| == 15 && sdp[0] == 'a' && sdp[14] == 'p' && forall k :: 0 <= k < 15 ==> sdp[k] != '\n';
  }

  lemma DescribedResponse(req: Message, clock: nat, r: Message, contact: string, answer: string)
    requires !r.isRequest && IsInt(r.statusCode) && '\n' !in r.statusPhrase
    requires ' ' !in r.version && '\n' !in r.version
    requires WireHeaders(r.headers) && Lengths(r) == [] && Echoes(req, r.statusCode, clock, r)
    requires WireValue(contact) && |answer| <= INT_MAX
    ensures Delivers(req, clock, r.(
      headers := Insert(Insert(r.headers, CONTENT_TYPE, SDP_TYPE), CONTACT, contact), body := answer))
  {
    NamesAreDistinct();
    NamesArePlain();
    SdpTypeIsWire();
    ExtraHeader(req, clock, r, CONTENT_TYPE, SDP_TYPE);
    var r1 := r.(headers := Insert(r.headers, CONTENT_TYPE, SDP_TYPE));
    ExtraHeader(req, clock, r1, CONTACT, contact);
    SentResponse(req, clock, r1.(headers := Insert(r1.headers, CONTACT, contact), body := answer));
  }

  /** The accepting 200 does so as well, and delivers the session description whole. */
  lemma AnswerDelivered(req: Message, clock: nat, contact: string, answer: string)
    requires Parsed(req) && req.isRequest && TrimmedValues(req.headers)
    requires WireValue(contact) && |answer| <= INT_MAX
    ensures Delivers(req, clock, Accepting(req, clock, contact, answer))
  {
    VersionIsClean(req);
    ResponseHeadersAreWire(req, 200, clock);
    ResponseEchoes(req, 200, "OK", clock);
    DescribedResponse(req, clock, Response(req, 200, "OK", clock), contact, answer);
  }

  /** The whole path: a request datagram with clean folds, its parse, any response, and the wire back. */
  lemma RequestAnswered(datagram: string, code: int, phrase: string, clock: nat)
    requires Parse(datagram).Some? && Parse(datagram).value.isRequest
    requires CleanFolds(ReadLine(datagram).rest, START)
    requires IsInt(code) && '\n' !in phrase
    ensures var req := Parse(datagram).value; Delivers(req, clock, Response(req, code, phrase, clock))
  {
    ParseIsParsed(datagram);
    CleanDatagram(datagram);
    ViaStackPreserved(Parse(datagram).value, code, phrase, clock);
  }
}
