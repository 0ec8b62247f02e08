/** A SIP message as a value: its header multimap, the getters, and the printer. */
module SipMessage {
  import opened Text

  datatype Method = INVITE | ACK | BYE | CANCEL | OPTIONS | REFER | UNKNOWN

  datatype Header = Header(name: string, value: string)

  /** `headers` lists the multimap in iteration order. The source's `method` field is always the
      reading of `methodStr`, so it is a function here. */
  datatype Message = Message(
    isRequest: bool,
    methodStr: string,
    uri: string,
    version: string,
    statusCode: int,
    statusPhrase: string,
    headers: seq<Header>,
    body: string)
  {
    function Method(): Method {
      ParseMethod(methodStr)
    }

    function AddHeader(name: string, value: string): Message {
      this.(headers := Insert(headers, Lower(name), value))
    }

    function GetHeader(name: string): Option<string> {
      var vs := ValuesOf(headers, Lower(name));
      if vs == [] then None else Some(vs[0])
    }

    function HeaderOr(name: string, default: string): string {
      match GetHeader(name)
      case Some(v) => v
      case None => default
    }

    function CallId(): string {
      HeaderOr("Call-ID", "")
    }

    /** The text between `branch=` and the next `;` of the topmost Via. */
    function Branch(): string {
      var via := HeaderOr("Via", "");
      match Find(via, "branch=")
      case None => ""
      case Some(pos) =>
        var tail := via[pos + 7..];
        tail[..IndexOf(tail, ';')]
    }
  }

  // Header names: as the parser stores the length, and as the printer writes it.
  const CONTENT_LENGTH := "content-length"
  const PRINTED_LENGTH := "Content-Length"

  const SIP_VERSION := "SIP/2.0"

  const EMPTY := Message(false, "", "", SIP_VERSION, 0, "", [], "")

  function ParseMethod(s: string): Method {
    if s == "INVITE" then INVITE
    else if s == "ACK" then ACK
    else if s == "BYE" then BYE
    else if s == "CANCEL" then CANCEL
    else if s == "OPTIONS" then OPTIONS
    else if s == "REFER" then REFER
    else UNKNOWN
  }

  // ---------------------------------------------------------------- key order

  /** The lexicographic order of `std::string`. */
  predicate Before(a: string, b: string) {
    b != "" && (a == "" || a[0] < b[0] || (a[0] == b[0] && Before(a[1..], b[1..])))
  }

  lemma {:induction false} BeforeIsStrict(a: string, b: string)
    ensures !(Before(a, b) && Before(b, a))
    ensures !Before(a, b) && !Before(b, a) ==> a == b
    ensures !Before(a, a)
  {
    if a != "" {
      BeforeIsStrict(a[1..], if b != "" then b[1..] else "");
    }
  }

  lemma {:induction false} BeforeIsTransitive(a: string, b: string, c: string)
    requires !Before(b, a) && !Before(c, b)
    ensures !Before(c, a)
  {
    if a != "" && b != "" && c != "" {
      if a[0] == b[0] == c[0] {
        BeforeIsTransitive(a[1..], b[1..], c[1..]);
      }
    }
  }

  lemma BeforeThenLater(a: string, b: string, c: string)
    requires Before(a, b) && !Before(c, b)
    ensures Before(a, c)
  {
    if !Before(a, c) {
      BeforeIsTransitive(b, c, a);
      assert false;
    }
  }

  // ---------------------------------------------------------------- the header multimap

  ghost predicate Sorted(hs: seq<Header>) {
    forall i, j :: 0 <= i < j < |hs| ==> !Before(hs[j].name, hs[i].name)
  }

  /** Multimap insertion: before the first entry with a later key, so behind its equals. */
  function Insert(hs: seq<Header>, name: string, value: string): seq<Header> {
    if hs == [] || Before(name, hs[0].name) then [Header(name, value)] + hs
    else [hs[0]] + Insert(hs[1..], name, value)
  }

  function InsertAll(hs: seq<Header>, name: string, values: seq<string>): seq<Header>
    decreases values
  {
    if values == [] then hs
    else InsertAll(Insert(hs, name, values[0]), name, values[1..])
  }

  /** The values stored under a key, in order. */
  function ValuesOf(hs: seq<Header>, name: string): seq<string> {
    if hs == [] then []
    else (if hs[0].name == name then [hs[0].value] else []) + ValuesOf(hs[1..], name)
  }

  /** Text appended to the value of the first entry with the given key. */
  function AppendToFirst(hs: seq<Header>, name: string, text: string): (r: seq<Header>)
    ensures |r| == |hs|
    ensures forall i :: 0 <= i < |hs| ==> r[i].name == hs[i].name
  {
    if hs == [] then []
    else if hs[0].name == name then [hs[0].(value := hs[0].value + text)] + hs[1..]
    else [hs[0]] + AppendToFirst(hs[1..], name, text)
  }

  lemma {:induction false} InsertMembers(hs: seq<Header>, name: string, value: string)
    ensures forall h :: h in Insert(hs, name, value) <==> h in hs || h == Header(name, value)
    ensures |Insert(hs, name, value)| == |hs| + 1
  {
    if hs != [] && !Before(name, hs[0].name) {
      InsertMembers(hs[1..], name, value);
      assert hs == [hs[0]] + hs[1..];
    }
  }

  lemma {:induction false} InsertKeepsSorted(hs: seq<Header>, name: string, value: string)
    requires Sorted(hs)
    ensures Sorted(Insert(hs, name, value))
  {
    var r := Insert(hs, name, value);
    if hs == [] {
    } else if Before(name, hs[0].name) {
      forall j | 0 <= j < |hs| ensures !Before(hs[j].name, name) {
        BeforeIsStrict(name, hs[0].name);
        if j > 0 {
          BeforeIsTransitive(name, hs[0].name, hs[j].name);
        }
      }
    } else {
      var t := Insert(hs[1..], name, value);
      InsertKeepsSorted(hs[1..], name, value);
      InsertMembers(hs[1..], name, value);
      forall j | 0 <= j < |t| ensures !Before(t[j].name, hs[0].name) {
        assert t[j] in t;
        if t[j] in hs[1..] {
          var k :| 0 <= k < |hs[1..]| && hs[1..][k] == t[j];
          assert hs[k + 1] == t[j];
        }
      }
    }
  }

  lemma {:induction false} InsertLast(hs: seq<Header>, name: string, value: string)
    requires forall h <- hs :: !Before(name, h.name)
    ensures Insert(hs, name, value) == hs + [Header(name, value)]
  {
    if hs != [] {
      InsertLast(hs[1..], name, value);
      assert hs == [hs[0]] + hs[1..];
    }
  }

  lemma {:induction false} ValuesAbsent(hs: seq<Header>, name: string)
    ensures ValuesOf(hs, name) == [] <==> forall h <- hs :: h.name != name
  {
    if hs != [] {
      ValuesAbsent(hs[1..], name);
      assert hs == [hs[0]] + hs[1..];
    }
  }

  /** Insertion adds its value behind the others of its key and disturbs no other key. */
  lemma {:induction false} InsertIsStable(hs: seq<Header>, name: string, value: string, key: string)
    requires Sorted(hs)
    ensures ValuesOf(Insert(hs, name, value), key)
         == ValuesOf(hs, key) + (if key == name then [value] else [])
  {
    var r := Insert(hs, name, value);
    if hs == [] {
      assert r == [Header(name, value)];
      assert r[1..] == [];
    } else if Before(name, hs[0].name) {
      assert r[1..] == hs;
      forall h <- hs ensures h.name != name {
        BeforeIsStrict(name, name);
        BeforeIsStrict(hs[0].name, hs[0].name);
        var k :| 0 <= k < |hs| && hs[k] == h;
        BeforeThenLater(name, hs[0].name, h.name);
      }
      ValuesAbsent(hs, name);
    } else {
      InsertIsStable(hs[1..], name, value, key);
      assert r[0] == hs[0] && r[1..] == Insert(hs[1..], name, value);
    }
  }

  lemma {:induction false} InsertAllIsStable(hs: seq<Header>, name: string, values: seq<string>, key: string)
    requires Sorted(hs)
    ensures Sorted(InsertAll(hs, name, values))
    ensures ValuesOf(InsertAll(hs, name, values), key)
         == ValuesOf(hs, key) + (if key == name then values else [])
    decreases values
  {
    if values != [] {
      InsertKeepsSorted(hs, name, values[0]);
      InsertIsStable(hs, name, values[0], key);
      InsertAllIsStable(Insert(hs, name, values[0]), name, values[1..], key);
      assert values == [values[0]] + values[1..];
    }
  }

  lemma {:induction false} AppendChangesFirst(hs: seq<Header>, name: string, text: string, key: string)
    ensures var vs := ValuesOf(hs, key);
      ValuesOf(AppendToFirst(hs, name, text), key)
        == if key == name && vs != [] then vs[0 := vs[0] + text] else vs
  {
    if hs != [] {
      var r := AppendToFirst(hs, name, text);
      if hs[0].name == name {
        assert r[1..] == hs[1..];
      } else {
        AppendChangesFirst(hs[1..], name, text, key);
        assert r[1..] == AppendToFirst(hs[1..], name, text);
      }
    }
  }

  // ---------------------------------------------------------------- printing

  function HeaderText(h: Header): string {
    h.name + ": " + h.value
  }

  function PrintHeaders(hs: seq<Header>): string {
    if hs == [] then "" else HeaderText(hs[0]) + "\r\n" + PrintHeaders(hs[1..])
  }

  function StartLine(m: Message): string {
    if m.isRequest then m.methodStr + " " + m.uri + " " + m.version
    else m.version + " " + Dec(m.statusCode) + " " + m.statusPhrase
  }

  /** The Content-Length line the printer adds when the headers hold none. */
  function LengthHeader(m: Message): seq<Header> {
    if m.GetHeader(PRINTED_LENGTH) == None then [Header(PRINTED_LENGTH, Dec(|m.body|))] else []
  }

  function Print(m: Message): string {
    StartLine(m) + "\r\n" + PrintHeaders(m.headers + LengthHeader(m)) + "\r\n" + m.body
  }

  lemma {:induction false} PrintHeadersAppend(hs: seq<Header>, ks: seq<Header>)
    ensures PrintHeaders(hs + ks) == PrintHeaders(hs) + PrintHeaders(ks)
  {
    if hs == [] {
      assert hs + ks == ks;
    } else {
      assert (hs + ks)[1..] == hs[1..] + ks;
      PrintHeadersAppend(hs[1..], ks);
      var a, b, c := HeaderText(hs[0]) + "\r\n", PrintHeaders(hs[1..]), PrintHeaders(ks);
      assert a + (b + c) == (a + b) + c;
    }
  }

  lemma PrintHeadersStep(hs: seq<Header>, i: nat)
    requires i < |hs|
    ensures PrintHeaders(hs[..i + 1]) == PrintHeaders(hs[..i]) + (HeaderText(hs[i]) + "\r\n")
  {
    assert hs[..i + 1] == hs[..i] + [hs[i]];
    PrintHeadersAppend(hs[..i], [hs[i]]);
    PrintOneHeader(hs[i]);
  }

  lemma PrintOneHeader(h: Header)
    ensures PrintHeaders([h]) == HeaderText(h) + "\r\n"
  {
    assert [h][1..] == [];
  }

  lemma PrintHeadersTail(hs: seq<Header>, extra: seq<Header>)
    requires |extra| <= 1
    ensures PrintHeaders(hs + extra)
         == if extra == [] then PrintHeaders(hs) else PrintHeaders(hs) + (HeaderText(extra[0]) + "\r\n")
  {
    if extra == [] {
      assert hs + extra == hs;
    } else {
      assert extra == [extra[0]];
      PrintHeadersAppend(hs, extra);
      PrintOneHeader(extra[0]);
    }
  }

  /** `SipMessage::toString`: the text is appended piece by piece. */
  method ToText(m: Message) returns (text: string)
    ensures text == Print(m)
  {
    text := StartLine(m) + "\r\n";
    ghost var head := text;
    for i := 0 to |m.headers|
      invariant text == head + PrintHeaders(m.headers[..i])
    {
      PrintHeadersStep(m.headers, i);
      AppendIsAssociative(head, PrintHeaders(m.headers[..i]), HeaderText(m.headers[i]) + "\r\n");
      text := text + (HeaderText(m.headers[i]) + "\r\n");
    }
    assert m.headers[..|m.headers|] == m.headers;
    var extra := LengthHeader(m);
    PrintHeadersTail(m.headers, extra);
    if extra != [] {
      AppendIsAssociative(head, PrintHeaders(m.headers), HeaderText(extra[0]) + "\r\n");
      text := text + (HeaderText(extra[0]) + "\r\n");
    }
    text := text + "\r\n" + m.body;
  }
}
