/** The string operations the gateway's text codecs share: line reading, trimming,
    searching, ASCII case and decimal numbers. */
module Text {

  datatype Option<+T> = None | Some(value: T)

  // ---------------------------------------------------------------- searching

  /** The index of the first `c` in `s`, or |s| when there is none. */
  function IndexOf(s: string, c: char): (i: nat)
    ensures i <= |s|
    ensures forall k :: 0 <= k < i ==> s[k] != c
    ensures i < |s| ==> s[i] == c
  {
    if s == "" || s[0] == c then 0 else 1 + IndexOf(s[1..], c)
  }

  /** The index of the last `c` in `s`, or -1 when there is none. */
  function LastIndexOf(s: string, c: char): (i: int)
    ensures -1 <= i < |s|
    ensures forall k :: i < k < |s| ==> s[k] != c
    ensures i >= 0 ==> s[i] == c
  {
    if s == "" then -1
    else if s[|s| - 1] == c then |s| - 1
    else LastIndexOf(s[..|s| - 1], c)
  }

  predicate StartsWith(s: string, prefix: string) {
    prefix <= s
  }

  /** The index of the first occurrence of `pattern` in `s`, if any. */
  function Find(s: string, pattern: string): (r: Option<nat>)
    ensures r.Some? ==> r.value + |pattern| <= |s| && s[r.value..r.value + |pattern|] == pattern
  {
    if StartsWith(s, pattern) then Some(0)
    else if s == "" then None
    else match Find(s[1..], pattern)
      case None => None
      case Some(i) => Some(i + 1)
  }

  /** `pattern` stands in `s` at index `i`. */
  predicate Occurs(s: string, pattern: string, i: nat) {
    i + |pattern| <= |s| && s[i..i + |pattern|] == pattern
  }

  /** The search finds the first occurrence, and misses none. */
  lemma {:induction false} FindIsFirst(s: string, pattern: string)
    ensures match Find(s, pattern)
      case None => forall i: nat :: !Occurs(s, pattern, i)
      case Some(r) => Occurs(s, pattern, r) && forall i: nat :: i < r ==> !Occurs(s, pattern, i)
  {
    if !StartsWith(s, pattern) && s != "" {
      FindIsFirst(s[1..], pattern);
      forall i: nat | 0 < i ensures Occurs(s, pattern, i) <==> Occurs(s[1..], pattern, i - 1) {
        OccursLater(s, pattern, i);
      }
    }
  }

  lemma OccursLater(s: string, pattern: string, i: nat)
    requires s != "" && 0 < i
    ensures Occurs(s, pattern, i) <==> Occurs(s[1..], pattern, i - 1)
  {
    if i + |pattern| <= |s| {
      assert s[1..][i - 1..i - 1 + |pattern|] == s[i..i + |pattern|];
    }
  }

  lemma AppendIsAssociative<T>(a: seq<T>, b: seq<T>, c: seq<T>)
    ensures a + b + c == a + (b + c)
  {}

  lemma IndexOfBlank(a: string, b: string)
    requires ' ' !in a
    ensures IndexOf(a + " " + b, ' ') == |a|
    ensures (a + " " + b)[..|a|] == a && (a + " " + b)[|a| + 1..] == b
  {
    var s := a + " " + b;
    assert s[|a|] == ' ' && forall k :: 0 <= k < |a| ==> s[k] == a[k];
  }

  lemma LastIndexIs(s: string, c: char, i: nat)
    requires i < |s| && s[i] == c && c !in s[i + 1..]
    ensures LastIndexOf(s, c) == i
  {
    forall k | i < k < |s| ensures s[k] != c {
      assert s[i + 1..][k - i - 1] == s[k];
    }
  }

  lemma BlankSplits(a: string, b: string)
    ensures var s := a + " " + b;
      s[|a|] == ' ' && s[..|a|] == a && s[|a| + 1..] == b
  {}

  lemma LastIndexOfBlank(a: string, b: string)
    requires ' ' !in b
    ensures LastIndexOf(a + " " + b, ' ') == |a|
    ensures (a + " " + b)[..|a|] == a && (a + " " + b)[|a| + 1..] == b
  {
    BlankSplits(a, b);
    LastIndexIs(a + " " + b, ' ', |a|);
  }

  lemma PrefixBeforeBlank(p: string, a: string, b: string)
    requires ' ' !in p
    ensures StartsWith(a + " " + b, p) <==> StartsWith(a, p)
  {
    var s := a + " " + b;
    if |a| < |p| <= |s| {
      assert p[|a|] in p && s[|a|] == ' ';
    }
  }

  // ---------------------------------------------------------------- trimming

  predicate Blank(c: char) {
    c == ' ' || c == '\t' || c == '\r' || c == '\n'
  }

  predicate AllBlank(s: string) {
    forall c <- s :: Blank(c)
  }

  predicate Trimmed(s: string) {
    s == "" || (!Blank(s[0]) && !Blank(s[|s| - 1]))
  }

  function TrimLeft(s: string): string {
    if s != "" && Blank(s[0]) then TrimLeft(s[1..]) else s
  }

  function TrimRight(s: string): string {
    if s != "" && Blank(s[|s| - 1]) then TrimRight(s[..|s| - 1]) else s
  }

  function Trim(s: string): string {
    TrimRight(TrimLeft(s))
  }

  lemma {:induction false} TrimLeftPadded(l: string, s: string)
    requires AllBlank(l) && (s == "" || !Blank(s[0]))
    ensures TrimLeft(l + s) == s
  {
    if l == "" {
      assert l + s == s;
    } else {
      assert (l + s)[1..] == l[1..] + s;
      TrimLeftPadded(l[1..], s);
    }
  }

  lemma {:induction false} TrimRightPadded(s: string, r: string)
    requires AllBlank(r) && (s == "" || !Blank(s[|s| - 1]))
    ensures TrimRight(s + r) == s
  {
    if r == "" {
      assert s + r == s;
    } else {
      assert (s + r)[..|s + r| - 1] == s + r[..|r| - 1];
      TrimRightPadded(s, r[..|r| - 1]);
    }
  }

  lemma {:induction false} TrimBlank(s: string)
    requires AllBlank(s)
    ensures Trim(s) == ""
  {
    assert s + "" == s;
    TrimLeftPadded(s, "");
  }

  /** Blank padding on either side of a trimmed text is exactly what `Trim` removes. */
  lemma TrimPadded(l: string, s: string, r: string)
    requires AllBlank(l) && Trimmed(s) && AllBlank(r)
    ensures Trim(l + s + r) == s
  {
    if s == "" {
      assert AllBlank(l + s + r);
      TrimBlank(l + s + r);
    } else {
      assert l + s + r == l + (s + r);
      TrimLeftPadded(l, s + r);
      TrimRightPadded(s, r);
    }
  }

  lemma {:induction false} TrimLeftPart(s: string)
    ensures TrimLeft(s) == "" || !Blank(TrimLeft(s)[0])
    ensures forall c <- TrimLeft(s) :: c in s
  {
    if s != "" && Blank(s[0]) {
      TrimLeftPart(s[1..]);
    }
  }

  lemma {:induction false} TrimRightPart(s: string)
    ensures TrimRight(s) <= s
    ensures TrimRight(s) == "" || !Blank(TrimRight(s)[|TrimRight(s)| - 1])
  {
    if s != "" && Blank(s[|s| - 1]) {
      TrimRightPart(s[..|s| - 1]);
    }
  }

  /** `Trim` always leaves a trimmed text, made of characters of the original. */
  lemma TrimIsTrimmed(s: string)
    ensures Trimmed(Trim(s))
    ensures forall c <- Trim(s) :: c in s
  {
    TrimLeftPart(s);
    TrimRightPart(TrimLeft(s));
  }

  /** `Trim` fixes exactly the trimmed texts. */
  lemma TrimFixes(s: string)
    ensures Trim(s) == s <==> Trimmed(s)
  {
    TrimIsTrimmed(s);
    if Trimmed(s) {
      assert "" + s + "" == s;
      TrimPadded("", s, "");
    }
  }

  // ---------------------------------------------------------------- lines

  datatype Line = Line(text: string, rest: string)

  /** One successful `getline`: the text up to the next newline, and what follows it. */
  function ReadLine(s: string): (r: Line)
    requires s != ""
    ensures |r.rest| < |s|
    ensures '\n' !in r.text
  {
    var i := IndexOf(s, '\n');
    Line(s[..i], if i < |s| then s[i + 1..] else "")
  }

  /** Drop one carriage return at the end of a line. */
  function ChopCR(l: string): string {
    if l != "" && l[|l| - 1] == '\r' then l[..|l| - 1] else l
  }

  lemma ReadLineOf(l: string, rest: string)
    requires '\n' !in l
    ensures l + "\n" + rest != ""
    ensures ReadLine(l + "\n" + rest) == Line(l, rest)
  {
    var s := l + "\n" + rest;
    assert s[|l|] == '\n';
    assert forall k :: 0 <= k < |l| ==> s[k] == l[k];
    assert IndexOf(s, '\n') == |l|;
    assert s[..|l|] == l && s[|l| + 1..] == rest;
  }

  /** A line printed with CR LF reads back as itself. */
  lemma ReadPrintedLine(l: string, rest: string)
    requires '\n' !in l
    ensures l + "\r\n" + rest != ""
    ensures ReadLine(l + "\r\n" + rest) == Line(l + "\r", rest)
    ensures ChopCR(l + "\r") == l
  {
    assert l + "\r\n" + rest == (l + "\r") + "\n" + rest;
    ReadLineOf(l + "\r", rest);
  }

  // ---------------------------------------------------------------- ASCII case

  function LowerChar(c: char): char {
    if 'A' <= c <= 'Z' then c + 32 as char else c
  }

  function UpperChar(c: char): char {
    if 'a' <= c <= 'z' then c - 32 as char else c
  }

  function Lower(s: string): (r: string)
    ensures |r| == |s| && forall k :: 0 <= k < |s| ==> r[k] == LowerChar(s[k])
  {
    if s == "" then "" else [LowerChar(s[0])] + Lower(s[1..])
  }

  function Upper(s: string): (r: string)
    ensures |r| == |s| && forall k :: 0 <= k < |s| ==> r[k] == UpperChar(s[k])
  {
    if s == "" then "" else [UpperChar(s[0])] + Upper(s[1..])
  }

  lemma LowerIs(s: string, t: string)
    requires |s| == |t| && forall k :: 0 <= k < |s| ==> LowerChar(s[k]) == t[k]
    ensures Lower(s) == t
  {}

  lemma CaseIsIdempotent(s: string)
    ensures Lower(Lower(s)) == Lower(s)
    ensures Upper(Upper(s)) == Upper(s)
  {
    var l, u := Lower(s), Upper(s);
    assert forall k :: 0 <= k < |s| ==> Lower(l)[k] == l[k];
    assert forall k :: 0 <= k < |s| ==> Upper(u)[k] == u[k];
  }

  // ---------------------------------------------------------------- decimal numbers

  const INT_MIN := -0x8000_0000
  const INT_MAX := 0x7FFF_FFFF

  predicate IsInt(n: int) {
    INT_MIN <= n <= INT_MAX
  }

  predicate IsDigit(c: char) {
    '0' <= c <= '9'
  }

  predicate AllDigits(s: string) {
    forall c <- s :: IsDigit(c)
  }

  function DigitOf(c: char): nat
    requires IsDigit(c)
  {
    c as int - '0' as int
  }

  function Digit(d: nat): (c: char)
    requires d < 10
    ensures IsDigit(c) && DigitOf(c) == d
  {
    '0' + d as char
  }

  /** The decimal digits of a number, most significant first. */
  function Digits(n: nat): (s: string)
    ensures s != "" && AllDigits(s)
  {
    if n < 10 then [Digit(n)] else Digits(n / 10) + [Digit(n % 10)]
  }

  function DigitsValue(s: string): nat
    requires AllDigits(s)
  {
    if s == "" then 0 else 10 * DigitsValue(s[..|s| - 1]) + DigitOf(s[|s| - 1])
  }

  lemma {:induction false} DigitsRoundTrip(n: nat)
    ensures DigitsValue(Digits(n)) == n
  {
    var s := Digits(n);
    if n >= 10 {
      DigitsRoundTrip(n / 10);
      assert s[..|s| - 1] == Digits(n / 10);
    } else {
      assert s[..|s| - 1] == "";
    }
  }

  /** Signed decimal output, as `<<` on an int or `std::to_string` writes it. */
  function Dec(n: int): (s: string)
    ensures s != "" && forall c <- s :: IsDigit(c) || c == '-'
  {
    if n < 0 then "-" + Digits(-n) else Digits(n)
  }

  /** The ten digits. */
  lemma DigitChars(d: nat)
    requires d < 10
    ensures Digit(d) == "0123456789"[d]
  {}

  /** The decimal numeral of a number: its digits, without leading zeros. */
  ghost predicate Numeral(s: string, n: nat) {
    AllDigits(s) && s != "" && (|s| == 1 || s[0] != '0') && DigitsValue(s) == n
  }

  lemma {:induction false} DigitsAreNumeral(n: nat)
    ensures Numeral(Digits(n), n)
    ensures n > 0 ==> Digits(n)[0] != '0'
  {
    DigitsRoundTrip(n);
    if n >= 10 {
      DigitsAreNumeral(n / 10);
      assert Digits(n)[0] == Digits(n / 10)[0];
    }
  }

  /** A number is printed as its numeral, behind a minus sign when it is negative. */
  lemma DecIsNumeral(n: int)
    ensures if n >= 0 then Numeral(Dec(n), n) else Dec(n)[0] == '-' && Numeral(Dec(n)[1..], -n)
  {
    DigitsAreNumeral(if n < 0 then -n else n);
    if n < 0 {
      assert ("-" + Digits(-n))[1..] == Digits(-n);
    }
  }

  /** White space as `isspace` has it in the C locale: wider than `Blank`. */
  predicate Space(c: char) {
    Blank(c) || c == '\U{0B}' || c == '\U{0C}'
  }

  function SkipSpace(s: string): (r: string)
    ensures |r| <= |s|
  {
    if s != "" && Space(s[0]) then SkipSpace(s[1..]) else s
  }

  /** The length of the run of digits `s` starts with. */
  function DigitRun(s: string): (n: nat)
    ensures n <= |s| && AllDigits(s[..n])
    ensures n < |s| ==> !IsDigit(s[n])
  {
    if s != "" && IsDigit(s[0]) then 1 + DigitRun(s[1..]) else 0
  }

  /** A number read from the front of a text: its value when there were digits, and what is left. */
  datatype Scanned = Scanned(number: Option<int>, rest: string)

  function ScanUnsigned(s: string): (r: Scanned)
    ensures |r.rest| <= |s|
    ensures r.number.Some? ==> |r.rest| < |s|
  {
    var n := DigitRun(s);
    if n == 0 then Scanned(None, s) else Scanned(Some(DigitsValue(s[..n])), s[n..])
  }

  /** Optional white space, optional sign, digits: the grammar of both `std::stoi` and `>>` on an int. */
  function ScanNumber(s: string): (r: Scanned)
    ensures |r.rest| <= |s|
    ensures r.number.Some? ==> |r.rest| < |s|
  {
    ScanSign(SkipSpace(s))
  }

  function ScanSign(t: string): (r: Scanned)
    ensures |r.rest| <= |t|
    ensures r.number.Some? ==> |r.rest| < |t|
  {
    if t != "" && t[0] == '-' then
      var r := ScanUnsigned(t[1..]);
      Scanned(if r.number.Some? then Some(-r.number.value) else None, r.rest)
    else ScanUnsigned(if t != "" && t[0] == '+' then t[1..] else t)
  }

  /** `std::stoi`: nothing (an exception) without digits or outside the range of an int. */
  function StoI(s: string): (r: Option<int>)
    ensures r.Some? ==> IsInt(r.value)
  {
    match ScanNumber(s).number
    case Some(n) => if IsInt(n) then Some(n) else None
    case None => None
  }

  lemma {:induction false} DigitRunIs(d: string, tail: string)
    requires AllDigits(d) && (tail == "" || !IsDigit(tail[0]))
    ensures DigitRun(d + tail) == |d|
  {
    if d == "" {
      assert d + tail == tail;
    } else {
      assert (d + tail)[1..] == d[1..] + tail;
      DigitRunIs(d[1..], tail);
    }
  }

  lemma ScanDigits(d: string, tail: string)
    requires AllDigits(d) && d != "" && (tail == "" || !IsDigit(tail[0]))
    ensures ScanUnsigned(d + tail) == Scanned(Some(DigitsValue(d)), tail)
    ensures !Space((d + tail)[0]) && (d + tail)[0] != '-' && (d + tail)[0] != '+'
  {
    DigitRunIs(d, tail);
    var s := d + tail;
    assert s[..|d|] == d && s[|d|..] == tail;
    assert s[0] == d[0] && IsDigit(d[0]);
  }

  lemma ScanNegative(s: string)
    ensures ScanNumber("-" + s)
         == var r := ScanUnsigned(s); Scanned(if r.number.Some? then Some(-r.number.value) else None, r.rest)
  {
    assert ("-" + s)[1..] == s;
  }

  /** Reading back a printed number returns it and stops at the first character after it. */
  lemma ScanPrinted(n: int, tail: string)
    requires tail == "" || !IsDigit(tail[0])
    ensures ScanNumber(Dec(n) + tail) == Scanned(Some(n), tail)
  {
    var m := if n < 0 then -n else n;
    DigitsRoundTrip(m);
    ScanDigits(Digits(m), tail);
    ScanNegative(Digits(m) + tail);
    AppendIsAssociative("-", Digits(m), tail);
  }

  lemma StoIDec(n: int)
    ensures StoI(Dec(n)) == if IsInt(n) then Some(n) else None
  {
    ScanPrinted(n, "");
    assert Dec(n) + "" == Dec(n);
  }

  lemma DecIsTrimmed(n: int)
    ensures Trim(Dec(n)) == Dec(n) && '\n' !in Dec(n) && ' ' !in Dec(n)
  {
    var d := Dec(n);
    assert d[0] in d && d[|d| - 1] in d;
    TrimFixes(d);
  }

  lemma ScanLeadingSpace(c: char, s: string)
    requires Space(c)
    ensures ScanNumber([c] + s) == ScanNumber(s)
  {
    assert ([c] + s)[1..] == s;
  }

  lemma {:induction false} SkipSpaceAppend(v: string, tail: string)
    requires SkipSpace(v) != ""
    ensures SkipSpace(v + tail) == SkipSpace(v) + tail
  {
    if v != "" && Space(v[0]) {
      assert (v + tail)[1..] == v[1..] + tail;
      SkipSpaceAppend(v[1..], tail);
    }
  }

  lemma ScanUnsignedAppend(u: string, tail: string)
    requires tail != "" && !IsDigit(tail[0])
    ensures ScanUnsigned(u + tail).number == ScanUnsigned(u).number
  {
    var n := DigitRun(u);
    assert u + tail == u[..n] + (u[n..] + tail);
    DigitRunIs(u[..n], u[n..] + tail);
    assert (u + tail)[..n] == u[..n];
  }

  /** What `ScanNumber` does behind the white space. */
  lemma SignAppend(w: string, tail: string)
    requires w != "" && tail != "" && !IsDigit(tail[0])
    ensures ScanSign(w + tail).number == ScanSign(w).number
  {
    if w[0] == '-' || w[0] == '+' {
      assert (w + tail)[1..] == w[1..] + tail;
      ScanUnsignedAppend(w[1..], tail);
    } else {
      ScanUnsignedAppend(w, tail);
    }
  }

  /** Text added behind a blank does not change a number that was already readable. */
  lemma StoIIgnoresTail(v: string, t: string)
    requires StoI(v).Some?
    ensures StoI(v + " " + t) == StoI(v)
  {
    var tail := " " + t;
    AppendIsAssociative(v, " ", t);
    SkipSpaceAppend(v, tail);
    SignAppend(SkipSpace(v), tail);
  }

  /** The blank, and the characters 9 to 13: tab, newline, vertical tab, form feed, carriage return. */
  ghost predicate White(c: char) {
    c == ' ' || 9 <= c as int <= 13
  }

  lemma SpaceIsWhite(c: char)
    ensures Space(c) <==> White(c)
  {}

  lemma {:induction false} WhitesAreSkipped(pad: string, s: string)
    requires (forall c <- pad :: White(c)) && (s == "" || !White(s[0]))
    ensures SkipSpace(pad + s) == s
  {
    if pad == "" {
      assert pad + s == s;
      if s != "" {
        SpaceIsWhite(s[0]);
      }
    } else {
      assert (pad + s)[1..] == pad[1..] + s && (pad + s)[0] == pad[0] && pad[0] in pad;
      SpaceIsWhite(pad[0]);
      WhitesAreSkipped(pad[1..], s);
    }
  }

  lemma ScanSkips(pad: string, s: string)
    requires (forall c <- pad :: White(c)) && s != "" && !White(s[0])
    ensures ScanNumber(pad + s) == ScanNumber(s)
  {
    WhitesAreSkipped(pad, s);
    SpaceIsWhite(s[0]);
  }

  lemma ScanSigned(sign: char, s: string)
    requires sign == '+' || sign == '-'
    ensures ScanNumber([sign] + s)
         == var r := ScanUnsigned(s);
            if sign == '+' then r else Scanned(if r.number.Some? then Some(-r.number.value) else None, r.rest)
  {
    assert ([sign] + s)[1..] == s;
  }

  lemma ScanPlain(s: string)
    requires s != "" && IsDigit(s[0])
    ensures ScanNumber(s) == ScanUnsigned(s)
  {}

  lemma PlainNumber(pad: string, s: string)
    requires (forall c <- pad :: White(c)) && s != "" && IsDigit(s[0])
    ensures ScanNumber(pad + s) == ScanUnsigned(s)
  {
    ScanSkips(pad, s);
    ScanPlain(s);
  }

  lemma SignedNumber(pad: string, sign: char, s: string)
    requires (forall c <- pad :: White(c)) && (sign == '+' || sign == '-') && ScanUnsigned(s).number.Some?
    ensures var r := ScanUnsigned(s);
      ScanNumber(pad + ([sign] + s)) == Scanned(Some(if sign == '-' then -r.number.value else r.number.value), r.rest)
  {
    ScanSkips(pad, [sign] + s);
    ScanSigned(sign, s);
  }

  /** Numbers as a peer may write them: white space, a sign or none, digits; the rest is left. */
  lemma NumberIsRead(pad: string, sign: char, digits: string, tail: string, n: int)
    requires (forall c <- pad :: White(c)) && (sign == '+' || sign == '-')
    requires AllDigits(digits) && digits != "" && DigitsValue(digits) == n && (tail == "" || !IsDigit(tail[0]))
    ensures ScanNumber(pad + (digits + tail)) == Scanned(Some(n), tail)
    ensures ScanNumber(pad + ([sign] + (digits + tail))) == Scanned(Some(if sign == '-' then -n else n), tail)
  {
    var s := digits + tail;
    assert s[0] == digits[0] && digits[0] in digits;
    ScanDigits(digits, tail);
    UnsignedIsRead(pad, sign, s, Scanned(Some(n), tail), n);
  }

  lemma UnsignedIsRead(pad: string, sign: char, s: string, r: Scanned, n: int)
    requires (forall c <- pad :: White(c)) && (sign == '+' || sign == '-') && s != "" && IsDigit(s[0])
    requires r == ScanUnsigned(s) && r.number == Some(n)
    ensures ScanNumber(pad + s) == r
    ensures ScanNumber(pad + ([sign] + s)) == Scanned(Some(if sign == '-' then -n else n), r.rest)
  {
    PlainNumber(pad, s);
    SignedNumber(pad, sign, s);
  }
}
