/** Printing a message and parsing it again. `ParsePrinted` says what any printable message reads
    back as; `NormalForm` applies it to messages that came out of the parser. */
module SipRoundTrip {
  import opened Text
  import opened SipMessage
  import opened SipParser

  // ---------------------------------------------------------------- one line

  /** A header whose printed line is read as that header again. */
  ghost predicate LineSafe(h: Header) {
    && Trimmed(h.name) && ':' !in h.name && '\n' !in h.name
    && '\n' !in h.value
  }

  lemma TrimAfterBlank(v: string)
    ensures Trim(" " + v) == Trim(v)
  {
    assert (" " + v)[1..] == v;
  }

  lemma HeaderLinePrinted(st: Scan, h: Header)
    requires LineSafe(h)
    ensures '\n' !in HeaderText(h) && HeaderText(h) != ""
    ensures HeaderLine(st, HeaderText(h)) == TakeHeader(st, h.name, Trim(h.value))
  {
    var l := HeaderText(h);
    var n := |h.name|;
    assert l[n] == ':';
    assert forall k :: 0 <= k < n ==> l[k] == h.name[k];
    assert IndexOf(l, ':') == n;
    assert l[..n] == h.name;
    assert l[n + 1..] == " " + h.value;
    TrimFixes(h.name);
    TrimAfterBlank(h.value);
  }

  // ---------------------------------------------------------------- the header section

  /** The header loop's state after the given headers, each trimmed, in order. */
  function Gather(st: Scan, hs: seq<Header>): Scan
    decreases hs
  {
    if hs == [] then st
    else Gather(TakeHeader(st, hs[0].name, Trim(hs[0].value)), hs[1..])
  }

  lemma {:induction false} ScanPrintedHeaders(hs: seq<Header>, body: string, st: Scan)
    requires forall h <- hs :: LineSafe(h)
    ensures ScanHeaders(PrintHeaders(hs) + "\r\n" + body, st) == Section(Gather(st, hs), body)
    decreases hs
  {
    var s := PrintHeaders(hs) + "\r\n" + body;
    if hs == [] {
      assert s == "" + "\r\n" + body;
      ReadPrintedLine("", body);
    } else {
      var l, tail := HeaderText(hs[0]), PrintHeaders(hs[1..]) + "\r\n" + body;
      HeaderLinePrinted(st, hs[0]);
      assert s == l + "\r\n" + tail;
      ReadPrintedLine(l, tail);
      ScanPrintedHeaders(hs[1..], body, HeaderLine(st, l));
    }
  }

  function TrimValues(hs: seq<Header>): (r: seq<Header>)
    ensures |r| == |hs|
    ensures forall i :: 0 <= i < |hs| ==> r[i] == Header(hs[i].name, Trim(hs[i].value))
  {
    if hs == [] then [] else [Header(hs[0].name, Trim(hs[0].value))] + TrimValues(hs[1..])
  }

  ghost predicate LowerNames(hs: seq<Header>) {
    forall h <- hs :: Lower(h.name) == h.name
  }

  lemma {:induction false} GatherAppend(st: Scan, hs: seq<Header>, ks: seq<Header>)
    ensures Gather(st, hs + ks) == Gather(Gather(st, hs), ks)
    decreases hs
  {
    if hs == [] {
      assert hs + ks == ks;
    } else {
      assert (hs + ks)[1..] == hs[1..] + ks;
      GatherAppend(TakeHeader(st, hs[0].name, Trim(hs[0].value)), hs[1..], ks);
    }
  }

  lemma TrimValuesCons(done: seq<Header>, hs: seq<Header>)
    requires hs != []
    ensures done + TrimValues(hs) == (done + [Header(hs[0].name, Trim(hs[0].value))]) + TrimValues(hs[1..])
  {
    AppendIsAssociative(done, [Header(hs[0].name, Trim(hs[0].value))], TrimValues(hs[1..]));
  }

  lemma GatherStep(done: seq<Header>, hs: seq<Header>)
    requires hs != [] && LowerNames(hs) && Sorted(done + hs)
    ensures var h := Header(hs[0].name, Trim(hs[0].value));
      && Lower(h.name) == h.name
      && Insert(done, h.name, h.value) == done + [h]
      && Sorted(done + [h] + hs[1..])
  {
    var all, h := done + hs, Header(hs[0].name, Trim(hs[0].value));
    assert hs[0] in hs;
    forall g <- done ensures !Before(h.name, g.name) {
      var k :| 0 <= k < |done| && done[k] == g;
      assert all[k] == g && all[|done|] == hs[0];
    }
    InsertLast(done, h.name, h.value);
    var rest := done + [h] + hs[1..];
    assert |rest| == |all| && forall i :: 0 <= i < |all| ==> rest[i].name == all[i].name;
  }

  /** Headers printed in multimap order are gathered in the same order. */
  lemma {:induction false} GatherSorted(st: Scan, hs: seq<Header>)
    requires LowerNames(hs) && Sorted(st.headers + hs)
    ensures Gather(st, hs).headers == st.headers + TrimValues(hs)
    decreases hs
  {
    if hs == [] {
      assert st.headers + [] == st.headers;
    } else {
      var h := Header(hs[0].name, Trim(hs[0].value));
      GatherStep(st.headers, hs);
      var next := TakeHeader(st, h.name, h.value);
      assert next.headers == st.headers + [h];
      GatherSorted(next, hs[1..]);
      TrimValuesCons(st.headers, hs);
    }
  }

  /** The length in force at the end of the headers: the last Content-Length's. */
  function LastLength(values: seq<string>, default: int): int {
    if values == [] then default else LengthOf(Trim(values[|values| - 1]))
  }

  function FoldLength(hs: seq<Header>, n: int, key: string): int {
    if hs == [] then n
    else FoldLength(hs[1..], NextLength(hs[0].name, Trim(hs[0].value), n, key), key)
  }

  lemma {:induction false} FoldLengthIsLast(hs: seq<Header>, n: int, key: string)
    ensures FoldLength(hs, n, key) == LastLength(ValuesOf(hs, key), n)
  {
    if hs != [] {
      FoldLengthIsLast(hs[1..], NextLength(hs[0].name, Trim(hs[0].value), n, key), key);
    }
  }

  lemma {:induction false} GatherFolds(st: Scan, hs: seq<Header>)
    requires LowerNames(hs)
    ensures Gather(st, hs).contentLength == FoldLength(hs, st.contentLength, CONTENT_LENGTH)
    decreases hs
  {
    if hs != [] {
      assert hs[0] in hs;
      GatherFolds(TakeHeader(st, hs[0].name, Trim(hs[0].value)), hs[1..]);
    }
  }

  lemma GatherLength(st: Scan, hs: seq<Header>)
    requires LowerNames(hs)
    ensures Gather(st, hs).contentLength == LastLength(ValuesOf(hs, CONTENT_LENGTH), st.contentLength)
  {
    GatherFolds(st, hs);
    FoldLengthIsLast(hs, st.contentLength, CONTENT_LENGTH);
  }

  // ---------------------------------------------------------------- a whole message

  /** Headers as the multimap of a message holds them: sorted, lower-case, printable names. */
  ghost predicate MapHeaders(hs: seq<Header>) {
    Sorted(hs) && LowerNames(hs) && forall h <- hs :: LineSafe(h)
  }

  function Lengths(m: Message): seq<string> {
    ValuesOf(m.headers, CONTENT_LENGTH)
  }

  /** The headers of the message after the printer has added a missing Content-Length. */
  function WithLength(m: Message): Message {
    if Lengths(m) == [] then m.(headers := Insert(m.headers, CONTENT_LENGTH, Dec(|m.body|))) else m
  }

  lemma LowerContentLength()
    ensures Lower(PRINTED_LENGTH) == CONTENT_LENGTH
  {
    LowerIs(PRINTED_LENGTH, CONTENT_LENGTH);
  }

  lemma LengthHeaderIs(m: Message)
    ensures LengthHeader(m) == if Lengths(m) == [] then [Header(PRINTED_LENGTH, Dec(|m.body|))] else []
  {
    LowerContentLength();
  }

  lemma LengthOfDec(n: nat)
    requires n <= INT_MAX
    ensures LengthOf(Dec(n)) == n
  {
    StoIDec(n);
  }

  lemma GatherOne(st: Scan, h: Header)
    ensures Gather(st, [h]) == TakeHeader(st, h.name, Trim(h.value))
  {
    assert [h][1..] == [];
  }

  /** A message as its printed form should read back: header values trimmed, a missing
      Content-Length inserted, the body up to the length in force. */
  function Reread(m: Message, first: Message): Message {
    var values := TrimValues(m.headers);
    first.(
      headers := if Lengths(m) == [] then Insert(values, CONTENT_LENGTH, Dec(|m.body|)) else values,
      body := BodyOf(LastLength(Lengths(m), |m.body|), m.body))
  }

  lemma GatherStored(hs: seq<Header>)
    requires MapHeaders(hs)
    ensures Gather(START, hs).headers == TrimValues(hs)
    ensures Gather(START, hs).contentLength == LastLength(ValuesOf(hs, CONTENT_LENGTH), 0)
  {
    assert START.headers + hs == hs;
    GatherSorted(START, hs);
    assert START.headers + TrimValues(hs) == TrimValues(hs);
    GatherLength(START, hs);
  }

  lemma GatherAdded(hs: seq<Header>, n: nat)
    requires MapHeaders(hs) && n <= INT_MAX
    ensures var st := Gather(START, hs + [Header(PRINTED_LENGTH, Dec(n))]);
      && st.headers == Insert(TrimValues(hs), CONTENT_LENGTH, Dec(n))
      && st.contentLength == n
  {
    var h := Header(PRINTED_LENGTH, Dec(n));
    GatherAppend(START, hs, [h]);
    GatherOne(Gather(START, hs), h);
    GatherStored(hs);
    LowerContentLength();
    DecIsTrimmed(n);
    LengthOfDec(n);
  }

  lemma RereadAs(m: Message, st: Scan, first: Message)
    requires |m.body| <= INT_MAX
    requires if Lengths(m) == [] then
        st.headers == Insert(TrimValues(m.headers), CONTENT_LENGTH, Dec(|m.body|)) && st.contentLength == |m.body|
      else
        st.headers == TrimValues(m.headers) && st.contentLength == LastLength(Lengths(m), 0)
    ensures first.(headers := st.headers, body := BodyOf(st.contentLength, m.body)) == Reread(m, first)
  {}

  /** What the header loop makes of the headers of a printed message, `extra` being the added ones. */
  lemma GatherPrinted(m: Message, extra: seq<Header>, first: Message)
    requires MapHeaders(m.headers) && |m.body| <= INT_MAX
    requires extra == if Lengths(m) == [] then [Header(PRINTED_LENGTH, Dec(|m.body|))] else []
    ensures var st := Gather(START, m.headers + extra);
      first.(headers := st.headers, body := BodyOf(st.contentLength, m.body)) == Reread(m, first)
  {
    if Lengths(m) == [] {
      GatherAdded(m.headers, |m.body|);
      RereadAs(m, Gather(START, m.headers + extra), first);
    } else {
      assert m.headers + extra == m.headers;
      GatherStored(m.headers);
      RereadAs(m, Gather(START, m.headers), first);
    }
  }

  lemma PrintedLengthIsSafe(n: nat)
    ensures LineSafe(Header(PRINTED_LENGTH, Dec(n)))
  {
    DecIsTrimmed(n);
    var name := PRINTED_LENGTH;
    assert |name| == 14;
    assert forall k :: 0 <= k < 14 ==> name[k] != ':' && name[k] != '\n';
    assert !Blank(name[0]) && !Blank(name[13]);
  }

  lemma LengthHeaderIsSafe(m: Message)
    requires MapHeaders(m.headers)
    ensures forall h <- m.headers + LengthHeader(m) :: LineSafe(h)
  {
    var extra := LengthHeader(m);
    LengthHeaderIs(m);
    PrintedLengthIsSafe(|m.body|);
    forall h <- m.headers + extra ensures LineSafe(h) {
      if h !in m.headers {
        assert h in extra;
      }
    }
  }

  lemma ParseSplit(line: string, tail: string)
    requires '\n' !in line
    ensures Parse(line + "\r\n" + tail) == match FirstLine(line)
      case None => None
      case Some(f) =>
        var s := ScanHeaders(tail, START);
        Some(f.(headers := s.scan.headers, body := BodyOf(s.scan.contentLength, s.rest)))
  {
    ReadPrintedLine(line, tail);
  }

  lemma PrintSplit(m: Message)
    ensures Print(m) == StartLine(m) + "\r\n" + (PrintHeaders(m.headers + LengthHeader(m)) + "\r\n" + m.body)
  {
    var a, b := StartLine(m) + "\r\n", PrintHeaders(m.headers + LengthHeader(m));
    AppendIsAssociative(a, b, "\r\n");
    AppendIsAssociative(a, b + "\r\n", m.body);
  }

  /** What a message with printable headers reads back as: its start line decides whether it is read
      at all, its header values come back trimmed in multimap order, and its body up to the length
      in force. */
  lemma ParsePrinted(m: Message)
    requires MapHeaders(m.headers) && '\n' !in StartLine(m) && |m.body| <= INT_MAX
    ensures Parse(Print(m)) == match FirstLine(StartLine(m))
      case None => None
      case Some(f) => Some(Reread(m, f))
  {
    var hs := m.headers + LengthHeader(m);
    PrintSplit(m);
    ParseSplit(StartLine(m), PrintHeaders(hs) + "\r\n" + m.body);
    LengthHeaderIsSafe(m);
    ScanPrintedHeaders(hs, m.body, START);
    match FirstLine(StartLine(m))
    case None =>
    case Some(f) =>
      LengthHeaderIs(m);
      GatherPrinted(m, LengthHeader(m), f);
  }

  // ---------------------------------------------------------------- the start line

  /** The start-line fields as the parser leaves them. */
  ghost predicate StartLineOk(m: Message) {
    && '\n' !in StartLine(m)
    && if m.isRequest then
         && Upper(m.methodStr) == m.methodStr && ' ' !in m.methodStr && ' ' !in m.version
         && m.statusCode == 0 && m.statusPhrase == ""
       else
         && m.version == SIP_VERSION && IsInt(m.statusCode)
         && m.methodStr == "" && m.uri == ""
  }

  lemma UpperKeeps(s: string, c: char)
    requires c !in s && !('A' <= c <= 'Z')
    ensures c !in Upper(s)
  {
    forall k | 0 <= k < |s| ensures Upper(s)[k] != c {
      assert s[k] in s;
    }
  }

  lemma VersionHasNoBlank()
    ensures ' ' !in SIP_VERSION && '\n' !in SIP_VERSION
  {
    var v := SIP_VERSION;
    assert |v| == 7 && forall k :: 0 <= k < 7 ==> v[k] != ' ' && v[k] != '\n';
  }

  lemma RequestParts(a: string, u: string, v: string)
    requires ' ' !in a && ' ' !in v
    ensures var l := a + " " + u + " " + v;
      && l == a + " " + (u + " " + v)
      && IndexOf(l, ' ') == |a| && LastIndexOf(l, ' ') == |a| + 1 + |u|
      && l[..|a|] == a && l[|a| + 1..|a| + 1 + |u|] == u && l[|a| + 2 + |u|..] == v
  {
    AppendIsAssociative(a + " ", u, " ");
    AppendIsAssociative(a + " ", u + " ", v);
    IndexOfBlank(a, u + " " + v);
    LastIndexOfBlank(a + " " + u, v);
    var l := a + " " + u + " " + v;
    assert l[..|a| + 1 + |u|] == a + " " + u;
    BlankSplits(a, u);
    assert l[|a| + 1..|a| + 1 + |u|] == l[..|a| + 1 + |u|][|a| + 1..];
  }

  lemma RequestLineOf(a: string, u: string, v: string)
    requires ' ' !in a && ' ' !in v
    ensures RequestLine(a + " " + u + " " + v)
         == Some(EMPTY.(isRequest := true, methodStr := Upper(a), uri := u, version := v))
  {
    RequestParts(a, u, v);
  }

  lemma VersionBefore(a: string, tail: string)
    requires ' ' !in a
    ensures StartsWith(a + " " + tail, SIP_VERSION) <==> StartsWith(a, SIP_VERSION)
  {
    VersionHasNoBlank();
    PrefixBeforeBlank(SIP_VERSION, a, tail);
  }

  lemma RequestLineRoundTrip(m: Message)
    requires m.isRequest && StartLineOk(m)
    ensures RequestLine(StartLine(m))
         == Some(EMPTY.(isRequest := true, methodStr := m.methodStr, uri := m.uri, version := m.version))
    ensures StartsWith(StartLine(m), SIP_VERSION) <==> StartsWith(m.methodStr, SIP_VERSION)
  {
    RequestLineOf(m.methodStr, m.uri, m.version);
    VersionBefore(m.methodStr, m.uri + " " + m.version);
    RequestParts(m.methodStr, m.uri, m.version);
  }

  lemma StatusLineOf(version: string, d: string, code: int, phrase: string)
    requires ' ' !in version && ' ' !in d && StoI(d) == Some(code)
    ensures StatusLine(version + " " + (d + " " + phrase)) == Some(EMPTY.(statusCode := code, statusPhrase := phrase))
  {
    IndexOfBlank(version, d + " " + phrase);
    IndexOfBlank(d, phrase);
  }

  lemma TwoBlanksAreRequest(a: string, b: string, c: string)
    requires ' ' !in a
    ensures RequestLine(a + " " + (b + " " + c)).Some?
  {
    var l := a + " " + (b + " " + c);
    IndexOfBlank(a, b + " " + c);
    assert l[|a| + 1 + |b|] == ' ';
  }

  lemma StatusLineRoundTrip(version: string, code: int, phrase: string)
    requires ' ' !in version && IsInt(code)
    ensures var l := version + " " + Dec(code) + " " + phrase;
      && StatusLine(l) == Some(EMPTY.(statusCode := code, statusPhrase := phrase))
      && (StartsWith(l, SIP_VERSION) <==> StartsWith(version, SIP_VERSION))
      && RequestLine(l).Some?
  {
    var d := Dec(code);
    AppendIsAssociative(version + " ", d, " ");
    AppendIsAssociative(version + " ", d + " ", phrase);
    DecIsTrimmed(code);
    StoIDec(code);
    StatusLineOf(version, d, code, phrase);
    VersionBefore(version, d + " " + phrase);
    TwoBlanksAreRequest(version, d, phrase);
  }

  /** A start line the parser accepted reads back as itself, unless it is a request whose upper-cased
      method looks like the SIP version: that one is never read as a request again. */
  lemma FirstLineRoundTrip(m: Message)
    requires StartLineOk(m)
    ensures var r := FirstLine(StartLine(m));
      if m.isRequest && StartsWith(m.methodStr, SIP_VERSION)
      then r.Some? ==> !r.value.isRequest
      else r == Some(m.(headers := [], body := ""))
  {
    if m.isRequest {
      RequestLineRoundTrip(m);
    } else {
      VersionHasNoBlank();
      StatusLineRoundTrip(SIP_VERSION, m.statusCode, m.statusPhrase);
    }
  }

  lemma NoNewline(a: string, b: string, c: string)
    requires '\n' !in a && '\n' !in b && '\n' !in c
    ensures '\n' !in a + " " + b + " " + c
  {}

  lemma RequestLineIsOk(l: string)
    requires '\n' !in l && RequestLine(l).Some?
    ensures var m := RequestLine(l).value; m.isRequest && StartLineOk(m) && m.headers == [] && m.body == ""
  {
    var m := RequestLine(l).value;
    var first, last := IndexOf(l, ' '), LastIndexOf(l, ' ');
    CaseIsIdempotent(l[..first]);
    UpperKeeps(l[..first], ' ');
    UpperKeeps(l[..first], '\n');
    NoNewline(m.methodStr, m.uri, m.version);
  }

  lemma FirstLineIsOk(l: string)
    requires '\n' !in l && FirstLine(l).Some?
    ensures var m := FirstLine(l).value; StartLineOk(m) && m.headers == [] && m.body == ""
  {
    var m := FirstLine(l).value;
    if m.isRequest {
      RequestLineIsOk(l);
    } else {
      VersionHasNoBlank();
      DecIsTrimmed(m.statusCode);
      NoNewline(m.version, Dec(m.statusCode), m.statusPhrase);
    }
  }

  // ---------------------------------------------------------------- what the parser leaves behind

  /** Kept by every header line: printable headers in multimap order, and a positive length is the
      reading of the last Content-Length in the map. */
  ghost predicate ScanOk(st: Scan) {
    && MapHeaders(st.headers)
    && IsInt(st.contentLength)
    && LengthStored(st.headers, CONTENT_LENGTH, st.contentLength)
  }

  /** A positive length is the reading of the last value of the given key. */
  ghost predicate LengthStored(hs: seq<Header>, key: string, n: int) {
    n > 0 ==>
      var vs := ValuesOf(hs, key);
      vs != [] && LengthOf(vs[|vs| - 1]) == n
  }

  lemma LowerKeeps(s: string, c: char)
    requires c !in s && !('a' <= c <= 'z')
    ensures c !in Lower(s)
  {
    forall k | 0 <= k < |s| ensures Lower(s)[k] != c {
      assert s[k] in s;
    }
  }

  lemma LowerKeepsTrimmed(s: string)
    requires Trimmed(s)
    ensures Trimmed(Lower(s))
  {
    var l := Lower(s);
    if s != "" {
      assert l[0] == LowerChar(s[0]) && l[|s| - 1] == LowerChar(s[|s| - 1]);
    }
  }

  lemma LowerKeepsLineSafe(name: string, value: string)
    requires Trimmed(name) && ':' !in name && '\n' !in name && '\n' !in value
    ensures LineSafe(Header(Lower(name), value)) && Lower(Lower(name)) == Lower(name)
  {
    CaseIsIdempotent(name);
    LowerKeeps(name, ':');
    LowerKeeps(name, '\n');
    LowerKeepsTrimmed(name);
  }

  lemma InsertKeepsLength(hs: seq<Header>, name: string, value: string, key: string, n: int)
    requires Sorted(hs) && LengthStored(hs, key, n)
    ensures LengthStored(Insert(hs, name, value), key, NextLength(name, value, n, key))
  {
    InsertIsStable(hs, name, value, key);
  }

  lemma InsertKeepsHeaders(hs: seq<Header>, name: string, value: string)
    requires MapHeaders(hs) && LineSafe(Header(name, value)) && Lower(name) == name
    ensures MapHeaders(Insert(hs, name, value))
  {
    InsertKeepsSorted(hs, name, value);
    InsertMembers(hs, name, value);
  }

  lemma TakeHeaderKeepsOk(st: Scan, name: string, value: string)
    requires ScanOk(st)
    requires Trimmed(name) && ':' !in name && '\n' !in name && '\n' !in value
    ensures ScanOk(TakeHeader(st, name, value))
  {
    LowerKeepsLineSafe(name, value);
    InsertKeepsHeaders(st.headers, Lower(name), value);
    InsertKeepsLength(st.headers, Lower(name), value, CONTENT_LENGTH, st.contentLength);
  }

  lemma {:induction false} AppendMembers(hs: seq<Header>, name: string, text: string)
    ensures forall h <- AppendToFirst(hs, name, text) ::
      h in hs || exists g <- hs :: h == g.(value := g.value + text)
  {
    if hs != [] && hs[0].name != name {
      AppendMembers(hs[1..], name, text);
      assert hs == [hs[0]] + hs[1..];
    }
  }

  lemma FoldKeepsHeaders(hs: seq<Header>, name: string, text: string)
    requires MapHeaders(hs) && '\n' !in text
    ensures MapHeaders(AppendToFirst(hs, name, text))
  {
    var r := AppendToFirst(hs, name, text);
    forall h <- r ensures Lower(h.name) == h.name && LineSafe(h) {
      AppendMembers(hs, name, text);
    }
    assert forall i :: 0 <= i < |hs| ==> r[i].name == hs[i].name;
  }

  lemma LengthIgnoresTail(v: string, text: string)
    requires LengthOf(v) > 0
    ensures LengthOf(v + (" " + text)) == LengthOf(v)
  {
    StoIIgnoresTail(v, text);
    AppendIsAssociative(v, " ", text);
  }

  lemma FoldKeepsLength(hs: seq<Header>, name: string, text: string, key: string, n: int)
    requires LengthStored(hs, key, n)
    ensures LengthStored(AppendToFirst(hs, name, " " + text), key, n)
  {
    if n > 0 {
      AppendChangesFirst(hs, name, " " + text, key);
      var vs := ValuesOf(hs, key);
      LengthIgnoresTail(vs[|vs| - 1], text);
    }
  }

  lemma FoldKeepsOk(st: Scan, text: string)
    requires ScanOk(st) && '\n' !in text
    ensures ScanOk(st.(headers := AppendToFirst(st.headers, st.lastName, " " + text)))
  {
    FoldKeepsHeaders(st.headers, st.lastName, " " + text);
    FoldKeepsLength(st.headers, st.lastName, text, CONTENT_LENGTH, st.contentLength);
  }

  lemma HeaderLineKeepsOk(st: Scan, l: string)
    requires ScanOk(st) && '\n' !in l
    ensures ScanOk(HeaderLine(st, l))
  {
    if IsFold(l) {
      TrimIsTrimmed(l);
      FoldKeepsOk(st, Trim(l));
    } else {
      var colon := IndexOf(l, ':');
      if colon < |l| {
        TrimIsTrimmed(l[..colon]);
        TrimIsTrimmed(l[colon + 1..]);
        TakeHeaderKeepsOk(st, Trim(l[..colon]), Trim(l[colon + 1..]));
      }
    }
  }

  lemma {:induction false} ScanHeadersKeepsOk(s: string, st: Scan)
    requires ScanOk(st)
    ensures ScanOk(ScanHeaders(s, st).scan)
    decreases |s|
  {
    if s != "" {
      var line := ReadLine(s);
      var l := ChopCR(line.text);
      if l != "" {
        HeaderLineKeepsOk(st, l);
        ScanHeadersKeepsOk(line.rest, HeaderLine(st, l));
      }
    }
  }

  // ---------------------------------------------------------------- the normal form

  ghost predicate TrimmedValues(hs: seq<Header>) {
    forall h <- hs :: Trimmed(h.value)
  }

  /** The parsed messages that survive printing: no header value a fold has left with outer blanks,
      and no method that looks like the SIP version. */
  ghost predicate Canonical(m: Message) {
    TrimmedValues(m.headers) && !(m.isRequest && StartsWith(m.methodStr, SIP_VERSION))
  }

  /** What the parser guarantees of its messages. */
  ghost predicate Parsed(m: Message) {
    && StartLineOk(m) && MapHeaders(m.headers) && |m.body| <= INT_MAX
    && (m.body != "" ==>
          var vs := Lengths(m);
          vs != [] && |m.body| <= LengthOf(vs[|vs| - 1]))
  }

  lemma BodyFits(contentLength: int, rest: string)
    ensures var body := BodyOf(contentLength, rest);
      body != "" ==> 0 < contentLength && |body| <= contentLength
  {}

  /** The start line does not depend on headers and body. */
  lemma StartLineKept(m: Message, headers: seq<Header>, body: string)
    requires StartLineOk(m)
    ensures StartLineOk(m.(headers := headers, body := body))
  {
    assert StartLine(m.(headers := headers, body := body)) == StartLine(m);
  }

  lemma BodyKept(m: Message, st: Scan, rest: string)
    requires ScanOk(st) && m.headers == st.headers && m.body == BodyOf(st.contentLength, rest)
    ensures |m.body| <= INT_MAX
    ensures m.body != "" ==> var vs := Lengths(m); vs != [] && |m.body| <= LengthOf(vs[|vs| - 1])
  {
    BodyFits(st.contentLength, rest);
  }

  lemma ParsedFrom(first: Message, st: Scan, rest: string)
    requires StartLineOk(first) && ScanOk(st)
    ensures Parsed(first.(headers := st.headers, body := BodyOf(st.contentLength, rest)))
  {
    var body := BodyOf(st.contentLength, rest);
    StartLineKept(first, st.headers, body);
    BodyKept(first.(headers := st.headers, body := body), st, rest);
  }

  lemma ParseIsParsed(datagram: string)
    requires Parse(datagram).Some?
    ensures Parsed(Parse(datagram).value)
  {
    var line := ReadLine(datagram);
    var l := ChopCR(line.text);
    FirstLineIsOk(l);
    var s := ScanHeaders(line.rest, START);
    ScanHeadersKeepsOk(line.rest, START);
    ParsedFrom(FirstLine(l).value, s.scan, s.rest);
  }

  lemma TrimValuesFixes(hs: seq<Header>)
    ensures TrimValues(hs) == hs <==> TrimmedValues(hs)
  {
    forall i | 0 <= i < |hs| ensures Trim(hs[i].value) == hs[i].value <==> Trimmed(hs[i].value) {
      TrimFixes(hs[i].value);
    }
    if TrimValues(hs) == hs {
      forall h <- hs ensures Trimmed(h.value) {
        var i :| 0 <= i < |hs| && hs[i] == h;
        assert TrimValues(hs)[i] == h;
      }
    } else {
      var i :| 0 <= i < |hs| && TrimValues(hs)[i] != hs[i];
      assert hs[i] in hs;
    }
  }

  lemma RereadIsTrimmed(m: Message, first: Message)
    ensures TrimmedValues(Reread(m, first).headers)
  {
    var values := TrimValues(m.headers);
    forall h <- values ensures Trimmed(h.value) {
      var i :| 0 <= i < |values| && values[i] == h;
      TrimIsTrimmed(m.headers[i].value);
    }
    InsertMembers(values, CONTENT_LENGTH, Dec(|m.body|));
    DecIsTrimmed(|m.body|);
    TrimFixes(Dec(|m.body|));
  }

  lemma WithLengthMembers(m: Message)
    ensures forall h <- m.headers :: h in WithLength(m).headers
  {
    InsertMembers(m.headers, CONTENT_LENGTH, Dec(|m.body|));
  }

  lemma BodyRereads(m: Message)
    requires Parsed(m) && TrimmedValues(m.headers)
    ensures BodyOf(LastLength(Lengths(m), |m.body|), m.body) == m.body
  {
    var vs := Lengths(m);
    if m.body != "" && vs != [] {
      var v := vs[|vs| - 1];
      ValuesAreStored(m.headers, CONTENT_LENGTH);
      assert v in vs && Header(CONTENT_LENGTH, v) in m.headers;
      assert Trimmed(Header(CONTENT_LENGTH, v).value);
      TrimFixes(v);
    }
  }

  lemma {:induction false} ValuesAreStored(hs: seq<Header>, name: string)
    ensures forall v <- ValuesOf(hs, name) :: Header(name, v) in hs
  {
    if hs != [] {
      ValuesAreStored(hs[1..], name);
      assert hs == [hs[0]] + hs[1..];
    }
  }

  /** A parsed message reads back from its own print, with the missing Content-Length in its sorted
      place, exactly when it is canonical. */
  lemma NormalFormOf(p: Message)
    requires Parsed(p)
    ensures Parse(Print(p)) == Some(WithLength(p)) <==> Canonical(p)
  {
    ParsePrinted(p);
    FirstLineRoundTrip(p);
    if Canonical(p) {
      TrimValuesFixes(p.headers);
      BodyRereads(p);
    } else if Parse(Print(p)).Some? && TrimmedValues(p.headers) {
      assert !Parse(Print(p)).value.isRequest;
    } else if Parse(Print(p)).Some? {
      RereadIsTrimmed(p, FirstLine(StartLine(p)).value);
      WithLengthMembers(p);
    }
  }

  lemma NormalForm(datagram: string)
    requires Parse(datagram).Some?
    ensures var p := Parse(datagram).value;
      Parse(Print(p)) == Some(WithLength(p)) <==> Canonical(p)
  {
    ParseIsParsed(datagram);
    NormalFormOf(Parse(datagram).value);
  }

  lemma {:induction false} StoredHasValue(hs: seq<Header>, h: Header)
    requires h in hs
    ensures ValuesOf(hs, h.name) != []
  {
    if hs[0] != h {
      StoredHasValue(hs[1..], h);
    }
  }

  lemma RereadHasLength(m: Message, first: Message)
    ensures Lengths(Reread(m, first)) != []
  {
    var values := TrimValues(m.headers);
    if Lengths(m) == [] {
      InsertMembers(values, CONTENT_LENGTH, Dec(|m.body|));
      StoredHasValue(Insert(values, CONTENT_LENGTH, Dec(|m.body|)), Header(CONTENT_LENGTH, Dec(|m.body|)));
    } else {
      var v := Lengths(m)[0];
      ValuesAreStored(m.headers, CONTENT_LENGTH);
      var i :| 0 <= i < |m.headers| && m.headers[i] == Header(CONTENT_LENGTH, v);
      StoredHasValue(values, values[i]);
    }
  }

  /** What a print reads back as is canonical: its values are trimmed, and it has a length. */
  lemma RereadIsCanonical(p: Message)
    requires Parsed(p) && Parse(Print(p)).Some?
    ensures var q := Parse(Print(p)).value; Canonical(q) && WithLength(q) == q
  {
    var f := FirstLine(StartLine(p));
    ParsePrinted(p);
    FirstLineRoundTrip(p);
    RereadIsTrimmed(p, f.value);
    RereadHasLength(p, f.value);
  }

  /** Printing and parsing is idempotent, for every datagram at all: whatever a first round changes, a
      second one changes nothing. */
  lemma PrintParseIdempotent(datagram: string)
    requires Parse(datagram).Some? && Parse(Print(Parse(datagram).value)).Some?
    ensures var q := Parse(Print(Parse(datagram).value)).value;
      Parse(Print(q)) == Some(q)
  {
    var p := Parse(datagram).value;
    ParseIsParsed(datagram);
    RereadIsCanonical(p);
    NormalForm(Print(p));
  }

  // ---------------------------------------------------------------- folds on the wire

  /** Every fold of the header section adds text to a header that has some already. */
  predicate CleanFolds(s: string, st: Scan)
    decreases |s|
  {
    s == "" ||
    var line := ReadLine(s);
    var l := ChopCR(line.text);
    l == "" ||
    (&& (IsFold(l) ==> Trim(l) != "" && "" !in ValuesOf(st.headers, st.lastName))
     && CleanFolds(line.rest, HeaderLine(st, l)))
  }

  lemma TrimmedPair(v: string, t: string)
    requires Trimmed(v) && Trimmed(t) && v != "" && t != ""
    ensures Trimmed(v + (" " + t))
  {
    var r := v + (" " + t);
    assert r[0] == v[0] && r[|r| - 1] == t[|t| - 1];
  }

  lemma {:induction false} CleanFoldIsTrimmed(hs: seq<Header>, name: string, text: string)
    requires TrimmedValues(hs) && Trimmed(text) && text != "" && "" !in ValuesOf(hs, name)
    ensures TrimmedValues(AppendToFirst(hs, name, " " + text))
  {
    if hs != [] {
      assert hs == [hs[0]] + hs[1..];
      if hs[0].name == name {
        assert ValuesOf(hs, name)[0] == hs[0].value;
        TrimmedPair(hs[0].value, text);
      } else {
        CleanFoldIsTrimmed(hs[1..], name, text);
      }
    }
  }

  lemma {:induction false} CleanFoldsAreTrimmed(s: string, st: Scan)
    requires TrimmedValues(st.headers) && CleanFolds(s, st)
    ensures TrimmedValues(ScanHeaders(s, st).scan.headers)
    decreases |s|
  {
    if s != "" {
      var line := ReadLine(s);
      var l := ChopCR(line.text);
      if l != "" {
        if IsFold(l) {
          TrimIsTrimmed(l);
          CleanFoldIsTrimmed(st.headers, st.lastName, Trim(l));
        } else {
          var colon := IndexOf(l, ':');
          if colon < |l| {
            TrimIsTrimmed(l[colon + 1..]);
            InsertMembers(st.headers, Lower(Trim(l[..colon])), Trim(l[colon + 1..]));
          }
        }
        CleanFoldsAreTrimmed(line.rest, HeaderLine(st, l));
      }
    }
  }

  /** A datagram whose folds are clean, in particular one without folds, parses to trimmed values. */
  lemma CleanDatagram(datagram: string)
    requires Parse(datagram).Some? && CleanFolds(ReadLine(datagram).rest, START)
    ensures TrimmedValues(Parse(datagram).value.headers)
  {
    CleanFoldsAreTrimmed(ReadLine(datagram).rest, START);
  }
}
