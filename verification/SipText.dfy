/** SIP messages as text, independently of the program's own functions: what the parser makes of any well-formed
    request, and the exact text of a response. */
module SipText {
  import opened Text
  import opened SipMessage
  import opened SipParser
  import opened SipRoundTrip
  import opened SipResponse

  // ---------------------------------------------------------------- a header line as it comes in

  /** A header field as a client may write it, with blanks around the colon and at the end of the line. */
  datatype RawField = RawField(name: string, before: string, after: string, value: string, behind: string, crlf: bool)

  function Eol(crlf: bool): string {
    if crlf then "\r\n" else "\n"
  }

  function RawLine(f: RawField): string {
    f.name + f.before + ":" + (f.after + f.value + f.behind)
  }

  function RawText(fs: seq<RawField>): string {
    if fs == [] then "" else RawLine(fs[0]) + Eol(fs[0].crlf) + RawText(fs[1..])
  }

  ghost predicate Padding(s: string) {
    forall c <- s :: c == ' ' || c == '\t'
  }

  ghost predicate Solid(s: string) {
    s != "" ==> s[0] !in " \t\r\n" && s[|s| - 1] !in " \t\r\n"
  }

  ghost predicate WellFormed(f: RawField) {
    && f.name != "" && Solid(f.name) && ':' !in f.name && '\n' !in f.name
    && Solid(f.value) && '\n' !in f.value
    && Padding(f.before) && Padding(f.after) && Padding(f.behind)
  }

  lemma SolidIsTrimmed(s: string)
    requires Solid(s)
    ensures Trimmed(s)
  {}

  lemma PaddingIsBlank(s: string)
    requires Padding(s)
    ensures AllBlank(s) && ':' !in s && '\n' !in s
  {}

  lemma TrimAfter(s: string, r: string)
    requires Solid(s) && Padding(r)
    ensures Trim(s + r) == s
  {
    SolidIsTrimmed(s);
    PaddingIsBlank(r);
    TrimPadded("", s, r);
    assert "" + s + r == s + r;
  }

  lemma ColonAt(a: string, b: string)
    requires ':' !in a
    ensures var l := a + ":" + b;
      IndexOf(l, ':') == |a| && l[..|a|] == a && l[|a| + 1..] == b
  {
    var l := a + ":" + b;
    assert l[|a|] == ':' && forall k :: 0 <= k < |a| ==> l[k] == a[k];
  }

  /** The line is one field, and neither a fold nor the end of the section. */
  lemma RawLineRead(st: Scan, f: RawField)
    requires WellFormed(f)
    ensures HeaderLine(st, RawLine(f)) == TakeHeader(st, f.name, f.value)
    ensures RawLine(f) != "" && '\n' !in RawLine(f) && RawLine(f)[|RawLine(f)| - 1] != '\r'
  {
    var a, b := f.name + f.before, f.after + f.value + f.behind;
    PaddingIsBlank(f.before);
    PaddingIsBlank(f.after);
    PaddingIsBlank(f.behind);
    SolidIsTrimmed(f.value);
    ColonAt(a, b);
    TrimAfter(f.name, f.before);
    TrimPadded(f.after, f.value, f.behind);
    var l := RawLine(f);
    assert l[0] == f.name[0];
    LastOfLine(a, b);
    LastOfValue(f);
  }

  lemma LastOfLine(a: string, b: string)
    ensures var l := a + ":" + b; l[|l| - 1] == if b == "" then ':' else b[|b| - 1]
  {}

  lemma LastOfValue(f: RawField)
    requires WellFormed(f)
    ensures var b := f.after + f.value + f.behind; b != "" ==> b[|b| - 1] != '\r'
  {
    var b := f.after + f.value + f.behind;
    if f.behind != "" {
      assert b[|b| - 1] == f.behind[|f.behind| - 1] && f.behind[|f.behind| - 1] in f.behind;
    } else if f.value != "" {
      assert b[|b| - 1] == f.value[|f.value| - 1];
    } else if f.after != "" {
      assert b[|b| - 1] == f.after[|f.after| - 1] && f.after[|f.after| - 1] in f.after;
    }
  }

  /** A line, ended either way, is read as the line. */
  lemma LineEnds(l: string, crlf: bool, rest: string)
    requires '\n' !in l && (l != "" ==> l[|l| - 1] != '\r')
    ensures var s := l + Eol(crlf) + rest;
      s != "" && ChopCR(ReadLine(s).text) == l && ReadLine(s).rest == rest
  {
    if crlf {
      ReadPrintedLine(l, rest);
    } else {
      ReadLineOf(l, rest);
    }
  }

  // ---------------------------------------------------------------- the header section

  function GatherRaw(st: Scan, fs: seq<RawField>): Scan
    decreases fs
  {
    if fs == [] then st else GatherRaw(TakeHeader(st, fs[0].name, fs[0].value), fs[1..])
  }

  lemma {:induction false} RawSection(fs: seq<RawField>, crlf: bool, body: string, st: Scan)
    requires forall f <- fs :: WellFormed(f)
    ensures ScanHeaders(RawText(fs) + (Eol(crlf) + body), st) == Section(GatherRaw(st, fs), body)
    decreases fs
  {
    if fs == [] {
      LineEnds("", crlf, body);
      assert "" + Eol(crlf) + body == RawText(fs) + (Eol(crlf) + body);
    } else {
      var l, e, tail := RawLine(fs[0]), Eol(fs[0].crlf), RawText(fs[1..]) + (Eol(crlf) + body);
      RawLineRead(st, fs[0]);
      AppendIsAssociative(l + e, RawText(fs[1..]), Eol(crlf) + body);
      LineEnds(l, fs[0].crlf, tail);
      RawSection(fs[1..], crlf, body, HeaderLine(st, l));
    }
  }

  /** `key` is the name in lower case, letter by letter. */
  ghost predicate LowerCase(name: string, key: string) {
    && |key| == |name|
    && forall i :: 0 <= i < |name| ==>
         key[i] as int == name[i] as int + if 'A' <= name[i] <= 'Z' then 32 else 0
  }

  lemma LowerIsLowerCase(name: string, key: string)
    ensures LowerCase(name, key) <==> Lower(name) == key
  {
    var l := Lower(name);
    if LowerCase(name, key) {
      assert forall i :: 0 <= i < |name| ==> key[i] == l[i];
    }
  }

  /** The values given to a name, however it is written, in the order of the lines. */
  ghost function ValuesFor(fs: seq<RawField>, key: string): seq<string> {
    if fs == [] then []
    else (if LowerCase(fs[0].name, key) then [fs[0].value] else []) + ValuesFor(fs[1..], key)
  }

  lemma {:induction false} RawValues(st: Scan, fs: seq<RawField>, key: string)
    requires Sorted(st.headers)
    ensures Sorted(GatherRaw(st, fs).headers)
    ensures ValuesOf(GatherRaw(st, fs).headers, key) == ValuesOf(st.headers, key) + ValuesFor(fs, key)
    decreases fs
  {
    if fs != [] {
      var name, value := Lower(fs[0].name), fs[0].value;
      LowerIsLowerCase(fs[0].name, key);
      InsertKeepsSorted(st.headers, name, value);
      InsertIsStable(st.headers, name, value, key);
      RawValues(TakeHeader(st, fs[0].name, value), fs[1..], key);
      AppendIsAssociative(ValuesOf(st.headers, key), if name == key then [value] else [], ValuesFor(fs[1..], key));
    }
  }

  lemma {:induction false} RawLength(st: Scan, fs: seq<RawField>)
    ensures var vs := ValuesFor(fs, CONTENT_LENGTH);
      GatherRaw(st, fs).contentLength == if vs == [] then st.contentLength else LengthOf(vs[|vs| - 1])
    decreases fs
  {
    if fs != [] {
      LowerIsLowerCase(fs[0].name, CONTENT_LENGTH);
      RawLength(TakeHeader(st, fs[0].name, fs[0].value), fs[1..]);
    }
  }

  // ---------------------------------------------------------------- a whole request

  /** `upper` is `verb` in upper case, letter by letter. */
  ghost predicate UpperCase(verb: string, upper: string) {
    && |upper| == |verb|
    && forall i :: 0 <= i < |verb| ==>
         upper[i] as int == verb[i] as int - if 'a' <= verb[i] <= 'z' then 32 else 0
  }

  ghost predicate WellFormedStart(verb: string, uri: string, version: string) {
    && ' ' !in verb && '\n' !in verb && '\n' !in uri
    && ' ' !in version && '\n' !in version && (version != "" ==> version[|version| - 1] != '\r')
    && !("SIP/2.0" <= verb)
  }

  function RequestText(verb: string, uri: string, version: string, crlf: bool, fs: seq<RawField>, last: bool,
                       body: string): string {
    verb + " " + uri + " " + version + Eol(crlf) + (RawText(fs) + (Eol(last) + body))
  }

  lemma FirstLineRead(verb: string, uri: string, version: string)
    requires WellFormedStart(verb, uri, version)
    ensures var l := verb + " " + uri + " " + version;
      && '\n' !in l && l != "" && l[|l| - 1] != '\r'
      && FirstLine(l) == Some(EMPTY.(isRequest := true, methodStr := Upper(verb), uri := uri, version := version))
  {
    var l := verb + " " + uri + " " + version;
    RequestLineOf(verb, uri, version);
    VersionBefore(verb, uri + " " + version);
    RequestParts(verb, uri, version);
    assert l[|l| - 1] == if version == "" then ' ' else version[|version| - 1];
  }

  lemma UpperIsUpperCase(verb: string)
    ensures UpperCase(verb, Upper(verb))
  {}

  /** The length a Content-Length value stands for: its number if that is an int, and otherwise none. */
  ghost predicate Tells(s: string, n: nat) {
    if s != "" && AllDigits(s) then n == if DigitsValue(s) <= 0x7FFF_FFFF then DigitsValue(s) else 0
    else (s == "" || (!IsDigit(s[0]) && !White(s[0]) && s[0] != '+' && s[0] != '-')) && n == 0
  }

  lemma LengthIsTold(s: string, n: nat)
    requires Tells(s, n)
    ensures LengthOf(s) == n
  {
    if s != "" && AllDigits(s) {
      ScanDigits(s, "");
      assert s + "" == s;
    } else if s != "" {
      SpaceIsWhite(s[0]);
    }
  }

  lemma RequestParsed(verb: string, uri: string, version: string, crlf: bool, fs: seq<RawField>, last: bool,
                      body: string)
    requires WellFormedStart(verb, uri, version) && forall f <- fs :: WellFormed(f)
    ensures var st := GatherRaw(START, fs);
      Parse(RequestText(verb, uri, version, crlf, fs, last, body))
        == Some(Message(true, Upper(verb), uri, version, 0, "", st.headers, BodyOf(st.contentLength, body)))
  {
    var l := verb + " " + uri + " " + version;
    var tail := RawText(fs) + (Eol(last) + body);
    FirstLineRead(verb, uri, version);
    LineEnds(l, crlf, tail);
    RawSection(fs, last, body, START);
  }

  /** Every well-formed request is read as what it says: the method in upper case, the URI, the version, each
      header's values in the order of their lines, whatever the case of its name and the blanks around it,
      and as much of the body as the last Content-Length asks for, none if that is no number or no int. */
  lemma RequestIsRead(verb: string, uri: string, version: string, crlf: bool, fs: seq<RawField>, last: bool,
                      body: string, key: string, lengths: seq<string>, n: nat)
    requires WellFormedStart(verb, uri, version) && forall f <- fs :: WellFormed(f)
    requires lengths == ValuesFor(fs, "content-length")
    requires if lengths == [] then n == 0 else Tells(lengths[|lengths| - 1], n)
    ensures var r := Parse(RequestText(verb, uri, version, crlf, fs, last, body));
      && r.Some? && r.value.isRequest && UpperCase(verb, r.value.methodStr)
      && r.value.uri == uri && r.value.version == version
      && ValuesOf(r.value.headers, key) == ValuesFor(fs, key)
      && r.value.body == if n < |body| then body[..n] else body
  {
    LengthName();
    RequestFields(verb, uri, version, crlf, fs, last, body, key, "content-length", lengths, n);
  }

  lemma RequestFields(verb: string, uri: string, version: string, crlf: bool, fs: seq<RawField>, last: bool,
                      body: string, key: string, lengthKey: string, lengths: seq<string>, n: nat)
    requires WellFormedStart(verb, uri, version) && forall f <- fs :: WellFormed(f)
    requires lengthKey == CONTENT_LENGTH && lengths == ValuesFor(fs, lengthKey)
    requires if lengths == [] then n == 0 else Tells(lengths[|lengths| - 1], n)
    ensures var r := Parse(RequestText(verb, uri, version, crlf, fs, last, body));
      && r.Some? && r.value.isRequest && UpperCase(verb, r.value.methodStr)
      && r.value.uri == uri && r.value.version == version
      && ValuesOf(r.value.headers, key) == ValuesFor(fs, key)
      && r.value.body == if n < |body| then body[..n] else body
  {
    var st := GatherRaw(START, fs);
    var part := if n < |body| then body[..n] else body;
    RequestParsed(verb, uri, version, crlf, fs, last, body);
    BodyIsRead(fs, lengths, n, body);
    UpperIsUpperCase(verb);
    RawValues(START, fs, key);
    NoValuesYet(key, ValuesFor(fs, key));
    MessageIs(Parse(RequestText(verb, uri, version, crlf, fs, last, body)), verb, uri, version, st.headers, part, key,
              ValuesFor(fs, key));
  }

  lemma NoValuesYet(key: string, values: seq<string>)
    ensures ValuesOf(START.headers, key) + values == values
  {}

  lemma MessageIs(r: Option<Message>, verb: string, uri: string, version: string, headers: seq<Header>, body: string,
                  key: string, values: seq<string>)
    requires r == Some(Message(true, Upper(verb), uri, version, 0, "", headers, body))
    requires UpperCase(verb, Upper(verb)) && ValuesOf(headers, key) == values
    ensures r.Some? && r.value.isRequest && UpperCase(verb, r.value.methodStr)
    ensures r.value.uri == uri && r.value.version == version
    ensures ValuesOf(r.value.headers, key) == values && r.value.body == body
  {}

  lemma LengthName()
    ensures CONTENT_LENGTH == "content-length"
  {}

  lemma BodyIsRead(fs: seq<RawField>, lengths: seq<string>, n: nat, body: string)
    requires lengths == ValuesFor(fs, CONTENT_LENGTH)
    requires if lengths == [] then n == 0 else Tells(lengths[|lengths| - 1], n)
    ensures BodyOf(GatherRaw(START, fs).contentLength, body) == if n < |body| then body[..n] else body
  {
    RawLength(START, fs);
    if lengths != [] {
      LengthIsTold(lengths[|lengths| - 1], n);
    }
  }

  // ---------------------------------------------------------------- folds, and lines that are no fields

  lemma {:induction false} AppendKeepsOrder(hs: seq<Header>, name: string, text: string)
    requires Sorted(hs)
    ensures Sorted(AppendToFirst(hs, name, text))
  {
    var r := AppendToFirst(hs, name, text);
    assert forall i :: 0 <= i < |hs| ==> r[i].name == hs[i].name;
  }

  lemma FoldLine(st: Scan, lead: string, text: string, behind: string)
    requires lead != "" && Padding(lead) && Padding(behind) && Solid(text)
    ensures HeaderLine(st, lead + text + behind)
         == if st.lastName == "" then st else st.(headers := AppendToFirst(st.headers, st.lastName, " " + text))
  {
    var l := lead + text + behind;
    assert l[0] == lead[0] && lead[0] in lead;
    PaddingIsBlank(lead);
    PaddingIsBlank(behind);
    SolidIsTrimmed(text);
    TrimPadded(lead, text, behind);
  }

  /** A line that starts with a blank continues the last field: a blank and its text join the first value of
      that name, and nothing else changes; without a field before it the line is passed over. */
  lemma FoldIsRead(st: Scan, lead: string, text: string, behind: string, key: string)
    requires lead != "" && Padding(lead) && Padding(behind) && Solid(text)
    ensures var t := HeaderLine(st, lead + text + behind); var vs := ValuesOf(st.headers, key);
      && t.lastName == st.lastName && t.contentLength == st.contentLength
      && (st.lastName == "" ==> t == st)
      && ValuesOf(t.headers, key)
           == if key == st.lastName && key != "" && vs != [] then [vs[0] + " " + text] + vs[1..] else vs
  {
    FoldLine(st, lead, text, behind);
    AppendChangesFirst(st.headers, st.lastName, " " + text, key);
    if ValuesOf(st.headers, key) != [] {
      AppendIsAssociative(ValuesOf(st.headers, key)[0], " ", text);
    }
  }

  /** A line that is neither a fold nor a field is passed over. */
  lemma JunkIsPassedOver(st: Scan, l: string)
    requires l != "" && l[0] != ' ' && l[0] != '\t' && ':' !in l
    ensures HeaderLine(st, l) == st
  {}

  /** The start line of a response. */
  lemma StatusIsRead(digits: string, code: nat, phrase: string)
    requires Numeral(digits, code) && code <= INT_MAX
    ensures FirstLine("SIP/2.0" + " " + (digits + " " + phrase))
         == Some(Message(false, "", "", "SIP/2.0", code, phrase, [], ""))
  {
    var v := "SIP/2.0";
    assert v == SIP_VERSION;
    VersionHasNoBlank();
    VersionBefore(v, digits + " " + phrase);
    ScanDigits(digits, "");
    assert digits + "" == digits;
    assert ' ' !in digits;
    StatusLineOf(v, digits, code, phrase);
  }

  // ---------------------------------------------------------------- the order of the headers

  /** The values of a name, last entry last. */
  lemma {:induction false} ValuesInOrder(hs: seq<Header>, h: Header, key: string)
    ensures ValuesOf(hs + [h], key) == ValuesOf(hs, key) + if h.name == key then [h.value] else []
  {
    if hs == [] {
      assert hs + [h] == [h] && [h][1..] == [];
    } else {
      assert (hs + [h])[1..] == hs[1..] + [h];
      ValuesInOrder(hs[1..], h, key);
    }
  }

  lemma {:induction false} FirstOfSorted(hs: seq<Header>, name: string)
    requires Sorted(hs) && ValuesOf(hs, name) != []
    ensures hs != [] && !Before(name, hs[0].name)
  {
    ValuesAbsent(hs, name);
    var h :| h in hs && h.name == name;
    var i :| 0 <= i < |hs| && hs[i] == h;
    BeforeIsStrict(name, name);
  }

  lemma HasValues(hs: seq<Header>)
    requires hs != []
    ensures exists key :: ValuesOf(hs, key) != []
  {
    assert ValuesOf(hs, hs[0].name) != [];
  }

  /** A sorted list of headers is determined by the values of its names. */
  lemma {:induction false} SortedIsDetermined(a: seq<Header>, b: seq<Header>)
    requires Sorted(a) && Sorted(b) && forall key :: ValuesOf(a, key) == ValuesOf(b, key)
    ensures a == b
  {
    if a == [] {
      if b != [] {
        HasValues(b);
      }
    } else {
      var name := a[0].name;
      assert ValuesOf(b, name) == ValuesOf(a, name);
      FirstOfSorted(b, name);
      assert ValuesOf(a, b[0].name) == ValuesOf(b, b[0].name);
      FirstOfSorted(a, b[0].name);
      BeforeIsStrict(name, b[0].name);
      assert ValuesOf(a, name)[0] == a[0].value && ValuesOf(b, name)[0] == b[0].value;
      forall key ensures ValuesOf(a[1..], key) == ValuesOf(b[1..], key) {
        TailValues(a, b, key);
      }
      SortedIsDetermined(a[1..], b[1..]);
      assert a == [a[0]] + a[1..] && b == [b[0]] + b[1..];
    }
  }

  lemma TailValues(a: seq<Header>, b: seq<Header>, key: string)
    requires a != [] && b != [] && a[0].name == b[0].name && ValuesOf(a, key) == ValuesOf(b, key)
    ensures ValuesOf(a[1..], key) == ValuesOf(b[1..], key)
  {
    var x, y := ValuesOf(a[1..], key), ValuesOf(b[1..], key);
    if a[0].name == key {
      assert ValuesOf(a, key)[1..] == x && ValuesOf(b, key)[1..] == y;
    } else {
      assert [] + x == x && [] + y == y;
    }
  }

  // ---------------------------------------------------------------- the text of a response

  /** One header line for each value, in their order. */
  function Lines(name: string, values: seq<string>): string {
    if values == [] then "" else name + ": " + values[0] + "\r\n" + Lines(name, values[1..])
  }

  function Entries(name: string, values: seq<string>): (hs: seq<Header>)
    ensures |hs| == |values| && forall i :: 0 <= i < |hs| ==> hs[i] == Header(name, values[i])
  {
    if values == [] then [] else [Header(name, values[0])] + Entries(name, values[1..])
  }

  lemma {:induction false} EntriesPrinted(name: string, values: seq<string>)
    ensures PrintHeaders(Entries(name, values)) == Lines(name, values)
  {
    if values != [] {
      EntriesPrinted(name, values[1..]);
      assert Entries(name, values)[1..] == Entries(name, values[1..]);
    }
  }

  lemma {:induction false} EntriesValues(name: string, values: seq<string>, key: string)
    ensures ValuesOf(Entries(name, values), key) == if key == name then values else []
  {
    if values != [] {
      EntriesValues(name, values[1..], key);
      assert Entries(name, values)[1..] == Entries(name, values[1..]);
      assert values == [values[0]] + values[1..];
    }
  }

  /** The entries of some fields, field by field. */
  function Grouped(fields: seq<Field>): seq<Header> {
    if fields == [] then []
    else Grouped(fields[..|fields| - 1]) + Entries(fields[|fields| - 1].name, fields[|fields| - 1].values)
  }

  lemma {:induction false} ValuesOfBoth(hs: seq<Header>, ks: seq<Header>, key: string)
    ensures ValuesOf(hs + ks, key) == ValuesOf(hs, key) + ValuesOf(ks, key)
  {
    if hs == [] {
      assert hs + ks == ks;
    } else {
      assert (hs + ks)[1..] == hs[1..] + ks;
      ValuesOfBoth(hs[1..], ks, key);
    }
  }

  ghost predicate Ascending(fields: seq<Field>) {
    forall i, j :: 0 <= i < j < |fields| ==> Before(fields[i].name, fields[j].name)
  }

  lemma {:induction false} GroupedValues(fields: seq<Field>, key: string)
    ensures ValuesOf(Grouped(fields), key) == Given(fields, key)
  {
    if fields != [] {
      var last := |fields| - 1;
      GroupedValues(fields[..last], key);
      ValuesOfBoth(Grouped(fields[..last]), Entries(fields[last].name, fields[last].values), key);
      EntriesValues(fields[last].name, fields[last].values, key);
    }
  }

  lemma {:induction false} GroupedNames(fields: seq<Field>)
    ensures forall h <- Grouped(fields) :: exists i :: 0 <= i < |fields| && fields[i].name == h.name
  {
    if fields != [] {
      var last := |fields| - 1;
      GroupedNames(fields[..last]);
      forall h <- Grouped(fields) ensures exists i :: 0 <= i < |fields| && fields[i].name == h.name {
        if h in Grouped(fields[..last]) {
          var i :| 0 <= i < last && fields[..last][i].name == h.name;
          assert fields[i].name == h.name;
        } else {
          assert h in Entries(fields[last].name, fields[last].values);
        }
      }
    }
  }

  lemma {:induction false} GroupedIsSorted(fields: seq<Field>)
    requires Ascending(fields)
    ensures Sorted(Grouped(fields))
  {
    if fields != [] {
      var last := |fields| - 1;
      var hs, ks := Grouped(fields[..last]), Entries(fields[last].name, fields[last].values);
      GroupedIsSorted(fields[..last]);
      GroupedNames(fields[..last]);
      var all: seq<Header> := hs + ks;
      forall i, j | 0 <= i < j < |all| ensures !Before(all[j].name, all[i].name) {
        if i >= |hs| {
          BeforeIsStrict(fields[last].name, fields[last].name);
        } else if j >= |hs| {
          assert hs[i] in hs;
          var k :| 0 <= k < last && fields[..last][k].name == hs[i].name;
          BeforeIsStrict(fields[k].name, fields[last].name);
        }
      }
    }
  }

  function GroupedText(fields: seq<Field>): string {
    if fields == [] then ""
    else GroupedText(fields[..|fields| - 1]) + Lines(fields[|fields| - 1].name, fields[|fields| - 1].values)
  }

  lemma {:induction false} GroupedPrinted(fields: seq<Field>)
    ensures PrintHeaders(Grouped(fields)) == GroupedText(fields)
  {
    if fields != [] {
      var last := |fields| - 1;
      GroupedPrinted(fields[..last]);
      EntriesPrinted(fields[last].name, fields[last].values);
      PrintHeadersAppend(Grouped(fields[..last]), Entries(fields[last].name, fields[last].values));
    }
  }

  lemma GivenSnoc(fields: seq<Field>, f: Field, key: string)
    ensures Given(fields + [f], key) == Given(fields, key) + (if key == f.name then f.values else [])
    ensures GroupedText(fields + [f]) == GroupedText(fields) + Lines(f.name, f.values)
  {
    assert (fields + [f])[..|fields|] == fields;
  }

  /** What a field gives to a key. */
  function Gives(f: Field, key: string): seq<string> {
    if key == f.name then f.values else []
  }

  lemma ThreeSnoc(fields: seq<Field>, d: Field, e: Field, f: Field, all: seq<Field>, key: string)
    requires all == fields + [d] + [e] + [f]
    ensures Given(all, key) == Given(fields, key) + Gives(d, key) + Gives(e, key) + Gives(f, key)
    ensures GroupedText(all)
         == GroupedText(fields) + Lines(d.name, d.values) + Lines(e.name, e.values) + Lines(f.name, f.values)
  {
    GivenSnoc(fields, d, key);
    GivenSnoc(fields + [d], e, key);
    GivenSnoc(fields + [d] + [e], f, key);
  }

  lemma SixSnoc(fields: seq<Field>, key: string)
    requires |fields| == 6
    ensures Given(fields, key)
         == [] + Gives(fields[0], key) + Gives(fields[1], key) + Gives(fields[2], key) + Gives(fields[3], key)
            + Gives(fields[4], key) + Gives(fields[5], key)
    ensures GroupedText(fields)
         == "" + Lines(fields[0].name, fields[0].values) + Lines(fields[1].name, fields[1].values)
            + Lines(fields[2].name, fields[2].values) + Lines(fields[3].name, fields[3].values)
            + Lines(fields[4].name, fields[4].values) + Lines(fields[5].name, fields[5].values)
  {
    var three := fields[..3];
    assert three == [] + [fields[0]] + [fields[1]] + [fields[2]];
    assert fields == three + [fields[3]] + [fields[4]] + [fields[5]];
    ThreeSnoc([], fields[0], fields[1], fields[2], three, key);
    ThreeSnoc(three, fields[3], fields[4], fields[5], fields, key);
  }

  /** At most one of the lists is not empty. */
  ghost predicate OnlyOne(vs: seq<seq<string>>) {
    forall i, j :: 0 <= i < j < |vs| ==> vs[i] == [] || vs[j] == []
  }

  lemma Rearranged(vs: seq<seq<string>>)
    requires |vs| == 6 && OnlyOne(vs)
    ensures [] + vs[0] + vs[1] + vs[2] + vs[3] + vs[4] + vs[5] == [] + vs[3] + vs[4] + vs[1] + vs[2] + vs[5] + vs[0]
  {}

  lemma GivesOnce(fields: seq<Field>, vs: seq<seq<string>>, key: string)
    requires DistinctNames(fields) && |vs| == |fields|
    requires forall i :: 0 <= i < |fields| ==> vs[i] == Gives(fields[i], key)
    ensures OnlyOne(vs)
  {}

  /** Rearranging six fields of different names does not change what they give to a key. */
  lemma SameGiven(fs: seq<Field>, gs: seq<Field>, key: string)
    requires |fs| == 6 && DistinctNames(fs)
    requires gs == [fs[3], fs[4], fs[1], fs[2], fs[5], fs[0]]
    ensures Given(fs, key) == Given(gs, key)
  {
    var vs := seq(6, i requires 0 <= i < 6 => Gives(fs[i], key));
    SixSnoc(fs, key);
    SixSnoc(gs, key);
    GivesOnce(fs, vs, key);
    Rearranged(vs);
  }

  lemma NamesAscend()
    ensures Before(CALL_ID, CSEQ) && Before(CSEQ, FROM) && Before(FROM, TO) && Before(TO, USER_AGENT)
    ensures Before(USER_AGENT, VIA)
    ensures CALL_ID[0] == CSEQ[0] == 'c' && FROM[0] == 'f' && TO[0] == 't' && USER_AGENT[0] == 'u' && VIA[0] == 'v'
  {
    assert CALL_ID[1] == 'a' && CSEQ[1] == 's';
    assert CALL_ID[1..][0] == 'a' && CSEQ[1..][0] == 's';
  }

  lemma BeforeByLetter(a: string, b: string)
    requires a != "" && b != "" && a[0] < b[0]
    ensures Before(a, b)
  {}

  lemma SixAscend(fields: seq<Field>)
    requires |fields| == 6
    requires fields[0].name == CALL_ID && fields[1].name == CSEQ && fields[2].name == FROM
    requires fields[3].name == TO && fields[4].name == USER_AGENT && fields[5].name == VIA
    ensures Ascending(fields)
  {
    NamesAscend();
    forall i, j | 0 <= i < j < 6 ensures Before(fields[i].name, fields[j].name) {
      if fields[i].name[0] < fields[j].name[0] {
        BeforeByLetter(fields[i].name, fields[j].name);
      }
    }
  }

  /** The headers of a response, in the order of the multimap. */
  lemma HeadersInOrder(req: Message, code: int, clock: nat)
    ensures ResponseHeaders(req, code, clock) == Grouped(InOrder(req, code, clock))
  {
    var fs, gs := Fields(req, code, clock), InOrder(req, code, clock);
    FieldsAreDistinct(req, code, clock);
    SixAscend(gs);
    GroupedIsSorted(gs);
    AssembleGives(fs, VIA);
    forall key ensures ValuesOf(ResponseHeaders(req, code, clock), key) == ValuesOf(Grouped(gs), key) {
      AssembleGives(fs, key);
      GroupedValues(gs, key);
      SameGiven(fs, gs, key);
    }
    SortedIsDetermined(ResponseHeaders(req, code, clock), Grouped(gs));
  }

  function InOrder(req: Message, code: int, clock: nat): seq<Field> {
    [ Field(CALL_ID, First(req, CALL_ID)),
      Field(CSEQ, First(req, CSEQ)),
      Field(FROM, First(req, FROM)),
      Field(TO, TaggedAll(First(req, TO), code, clock)),
      Field(USER_AGENT, [GATEWAY]),
      Field(VIA, ValuesOf(req.headers, VIA)) ]
  }

  lemma PrintedAs(m: Message, extra: Header, text: string, line: string)
    requires m.body == "" && LengthHeader(m) == [extra]
    requires text == PrintHeaders(m.headers) && line == HeaderText(extra) + "\r\n"
    ensures Print(m) == StartLine(m) + "\r\n" + (text + line) + "\r\n"
  {
    var hs := m.headers + LengthHeader(m);
    PrintHeadersTail(m.headers, LengthHeader(m));
    WithoutBody(m, StartLine(m), PrintHeaders(hs));
  }

  lemma WithoutBody(m: Message, start: string, headers: string)
    requires m.body == "" && start == StartLine(m) && headers == PrintHeaders(m.headers + LengthHeader(m))
    ensures Print(m) == start + "\r\n" + headers + "\r\n"
  {
    NothingBehind(start + "\r\n" + headers + "\r\n", m.body);
  }

  lemma NothingBehind(s: string, t: string)
    requires t == ""
    ensures s + t == s
  {}

  lemma LengthLine()
    ensures HeaderText(Header(PRINTED_LENGTH, Dec(0))) + "\r\n" == "Content-Length: 0\r\n"
  {
    var name, zero := PRINTED_LENGTH, Dec(0);
    assert zero == "0";
    assert name + ": " + zero + "\r\n" == name + ": 0\r\n";
  }

  lemma EmptyBodyLength(m: Message)
    requires m.body == "" && Lengths(m) == []
    ensures LengthHeader(m) == [Header(PRINTED_LENGTH, Dec(0))]
  {
    LengthHeaderIs(m);
  }

  lemma ResponsePrinted(req: Message, code: int, phrase: string, clock: nat, line: string)
    requires line == HeaderText(Header(PRINTED_LENGTH, Dec(0))) + "\r\n"
    ensures var res := Response(req, code, phrase, clock);
      Print(res) == StartLine(res) + "\r\n" + (GroupedText(InOrder(req, code, clock)) + line) + "\r\n"
  {
    var res := Response(req, code, phrase, clock);
    HeadersInOrder(req, code, clock);
    GroupedPrinted(InOrder(req, code, clock));
    ResponseEchoes(req, code, phrase, clock);
    EmptyBodyLength(res);
    PrintedAs(res, Header(PRINTED_LENGTH, Dec(0)), GroupedText(InOrder(req, code, clock)), line);
  }

  /** The exact text of a response: its start line; then Call-ID, CSeq, From, To, User-Agent and all Via values
      in the request's order, one line each; the length of the empty body, and the empty line. */
  lemma ResponseText(req: Message, code: int, phrase: string, clock: nat, tos: seq<string>)
    requires tos == ValuesOf(Response(req, code, phrase, clock).headers, TO)
    ensures Print(Response(req, code, phrase, clock))
         == req.version + " " + Dec(code) + " " + phrase + "\r\n"
            + (Lines("call-id", First(req, "call-id")) + Lines("cseq", First(req, "cseq"))
               + Lines("from", First(req, "from")) + Lines("to", tos)
               + Lines("user-agent", ["SIP-RTP-Gateway"]) + Lines("via", ValuesOf(req.headers, "via"))
               + "Content-Length: 0\r\n")
            + "\r\n"
  {
    FieldArrives(req, code, clock, 2);
    ResponseLines(req, code, clock, tos);
    LengthLine();
    ResponsePrinted(req, code, phrase, clock, "Content-Length: 0\r\n");
  }

  lemma ResponseLines(req: Message, code: int, clock: nat, tos: seq<string>)
    requires tos == TaggedAll(First(req, TO), code, clock)
    ensures GroupedText(InOrder(req, code, clock))
         == Lines("call-id", First(req, "call-id")) + Lines("cseq", First(req, "cseq"))
            + Lines("from", First(req, "from")) + Lines("to", tos)
            + Lines("user-agent", ["SIP-RTP-Gateway"]) + Lines("via", ValuesOf(req.headers, "via"))
  {
    var gs := InOrder(req, code, clock);
    SixSnoc(gs, "");
    assert "" + Lines(CALL_ID, First(req, CALL_ID)) == Lines(CALL_ID, First(req, CALL_ID));
  }

  // ---------------------------------------------------------------- what the handler reads off a message

  lemma FirstValue(msg: Message, name: string, key: string)
    requires Lower(name) == key
    ensures var vs := ValuesOf(msg.headers, key); msg.HeaderOr(name, "") == if vs == [] then "" else vs[0]
  {}

  /** The Call-ID is the first value of that header, or empty. */
  lemma CallIdIs(msg: Message)
    ensures var ids := ValuesOf(msg.headers, "call-id"); msg.CallId() == if ids == [] then "" else ids[0]
  {
    HeaderNames();
    FirstValue(msg, "Call-ID", "call-id");
  }

  lemma BranchOfVia(msg: Message, via: string)
    requires via == msg.HeaderOr("Via", "")
    ensures msg.Branch() == match Find(via, "branch=")
      case None => ""
      case Some(pos) => via[pos + 7..][..IndexOf(via[pos + 7..], ';')]
  {}

  lemma UpToSemicolon(b: string, rest: string)
    requires ';' !in b && (rest == "" || rest[0] == ';')
    ensures (b + rest)[..IndexOf(b + rest, ';')] == b
  {
    var t := b + rest;
    assert forall k :: 0 <= k < |b| ==> t[k] == b[k];
    assert rest != "" ==> t[|b|] == ';';
    assert IndexOf(t, ';') == |b|;
  }

  lemma FoundAt(s: string, pattern: string, i: nat)
    requires Occurs(s, pattern, i) && forall j: nat :: j < i ==> !Occurs(s, pattern, j)
    ensures Find(s, pattern) == Some(i)
  {
    FindIsFirst(s, pattern);
  }

  /** A Via with a branch: what stands before the first `word`, the branch, and what follows from the next
      semicolon on. */
  ghost predicate Branches(via: string, word: string, before: string, branch: string, rest: string) {
    && via == before + word + (branch + rest)
    && (forall i: nat :: i < |before| ==> !Occurs(via, word, i))
    && ';' !in branch && (rest == "" || rest[0] == ';')
  }

  /** The branch is what follows the first "branch=" of the topmost Via, up to the next semicolon or the end;
      it is empty when there is none. */
  lemma BranchIs(msg: Message, via: string, before: string, branch: string, rest: string)
    requires var vias := ValuesOf(msg.headers, "via"); via == if vias == [] then "" else vias[0]
    ensures (forall i: nat :: !Occurs(via, "branch=", i)) ==> msg.Branch() == ""
    ensures Branches(via, "branch=", before, branch, rest) ==> msg.Branch() == branch
  {
    HeaderNames();
    FirstValue(msg, "Via", "via");
    BranchOfVia(msg, via);
    FindIsFirst(via, "branch=");
    if Branches(via, "branch=", before, branch, rest) {
      BranchText(via, "branch=", before, branch, rest);
    }
  }

  lemma BranchText(via: string, word: string, before: string, branch: string, rest: string)
    requires |word| == 7 && Branches(via, word, before, branch, rest)
    ensures Find(via, word) == Some(|before|) && via[|before| + 7..][..IndexOf(via[|before| + 7..], ';')] == branch
  {
    assert via[|before|..|before| + 7] == word;
    assert Occurs(via, word, |before|);
    FoundAt(via, word, |before|);
    assert via[|before| + 7..] == branch + rest;
    UpToSemicolon(branch, rest);
  }
}
