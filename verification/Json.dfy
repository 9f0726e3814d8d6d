/** One-line JSON objects: how src/dispatch_log.cpp prints them, and a reader for them (RFC 8259, sections 4 to 7,
    for objects without white space whose values are strings, numbers and arrays of numbers). */
module Json {
  import opened Model
  import opened Sequences
  import opened Text

  const NEWLINE: u8 := 10
  const SPACE: u8 := 32
  const QUOTE: u8 := 34
  const COMMA: u8 := 44
  const DOT: u8 := 46
  const COLON: u8 := 58
  const OPEN_BRACKET: u8 := 91
  const BACKSLASH: u8 := 92
  const CLOSE_BRACKET: u8 := 93
  const OPEN_BRACE: u8 := 123
  const CLOSE_BRACE: u8 := 125

  // ---- Printing ----

  /** What a `const char*` shows of a string: everything in front of the first NUL. */
  function CStr(s: Bytes): Bytes {
    if s == [] || s[0] == 0 then [] else [s[0]] + CStr(s[1..])
  }

  lemma {:induction false} CStrWhole(s: Bytes)
    ensures CStr(s) == s <==> 0 !in s
  {
    if s != [] && s[0] != 0 {
      CStrWhole(s[1..]);
      assert s == [s[0]] + s[1..];
    }
  }

  function EscByte(c: u8): Bytes {
    if c == QUOTE then [BACKSLASH, QUOTE]
    else if c == BACKSLASH then [BACKSLASH, BACKSLASH]
    else if c == NEWLINE then [BACKSLASH, 110]
    else if c == 13 then [BACKSLASH, 114]
    else if c == 9 then [BACKSLASH, 116]
    else if c < SPACE then [BACKSLASH, 117, 48, 48, HexDigit(c / 16), HexDigit(c % 16)]
    else [c]
  }

  function Escaped(s: Bytes): Bytes {
    if s == [] || s[0] == 0 then [] else EscByte(s[0]) + Escaped(s[1..])
  }

  function Quoted(s: Bytes): Bytes {
    [QUOTE] + Escaped(s) + [QUOTE]
  }

  /** A number as printed: `to_string`, or `%.3f` of a number of thousandths. */
  datatype Number = Whole(n: nat) | Thousandths(t: nat)

  function NumberText(x: Number): Bytes {
    match x
    case Whole(n) => Decimal(n)
    case Thousandths(t) =>
      Decimal(t / 1000) + [DOT] + [48 + t / 100 % 10, 48 + t / 10 % 10, 48 + t % 10]
  }

  datatype Value = Str(s: Bytes) | Num(x: Number) | Triple(a: nat, b: nat, c: nat)

  datatype Member = Member(key: Bytes, value: Value)

  function ValueText(v: Value): Bytes {
    match v
    case Str(s) => Quoted(s)
    case Num(x) => NumberText(x)
    case Triple(a, b, c) =>
      [OPEN_BRACKET] + Decimal(a) + [COMMA] + Decimal(b) + [COMMA] + Decimal(c) + [CLOSE_BRACKET]
  }

  /** An object under construction: everything but the closing brace. */
  function OpenObject(ms: seq<Member>): Bytes {
    if ms == [] then [OPEN_BRACE]
    else
      var m := ms[|ms| - 1];
      OpenObject(ms[..|ms| - 1]) + (if |ms| == 1 then [] else [COMMA]) + Quoted(m.key) + [COLON] + ValueText(m.value)
  }

  function Object(ms: seq<Member>): Bytes {
    OpenObject(ms) + [CLOSE_BRACE]
  }

  lemma ValueEnd(v: Value)
    ensures |ValueText(v)| > 0 && ValueText(v)[|ValueText(v)| - 1] != OPEN_BRACE
  {
    match v
    case Str(s) => assert Quoted(s)[|Quoted(s)| - 1] == QUOTE;
    case Num(x) =>
      if x.Whole? {
        DecimalIsDigits(x.n);
      }
    case Triple(a, b, c) => assert ValueText(v)[|ValueText(v)| - 1] == CLOSE_BRACKET;
  }

  /** Why the comma can be placed by looking at the last character only: no value ends in an opening brace. */
  lemma {:induction false} LastCharTells(ms: seq<Member>)
    ensures |OpenObject(ms)| > 0
    ensures OpenObject(ms)[|OpenObject(ms)| - 1] == OPEN_BRACE <==> ms == []
  {
    hide ValueText;
    if ms != [] {
      ValueEnd(ms[|ms| - 1].value);
    }
  }

  // ---- Printed objects stay on one line ----

  predicate OneLine(s: Bytes) {
    forall i :: 0 <= i < |s| ==> s[i] >= SPACE
  }

  lemma {:induction false} EscapedOneLine(s: Bytes)
    ensures OneLine(Escaped(s))
  {
    if s != [] && s[0] != 0 {
      EscapedOneLine(s[1..]);
    }
  }

  lemma ValueOneLine(v: Value)
    ensures OneLine(ValueText(v))
  {
    hide Escaped, Decimal;
    match v
    case Str(s) => EscapedOneLine(s);
    case Num(x) => DecimalIsDigits(if x.Whole? then x.n else x.t / 1000);
    case Triple(a, b, c) =>
      DecimalIsDigits(a);
      DecimalIsDigits(b);
      DecimalIsDigits(c);
  }

  lemma {:induction false} OpenOneLine(ms: seq<Member>)
    ensures OneLine(OpenObject(ms))
  {
    hide ValueText, Escaped;
    if ms != [] {
      OpenOneLine(ms[..|ms| - 1]);
      EscapedOneLine(ms[|ms| - 1].key);
      ValueOneLine(ms[|ms| - 1].value);
    }
  }

  // ---- Reading ----

  function HexValue(c: u8): Option<nat> {
    if 48 <= c <= 57 then Some(c - 48)
    else if 97 <= c <= 102 then Some(c - 87)
    else if 65 <= c <= 70 then Some(c - 55)
    else None
  }

  function Hex4(s: Bytes): Option<nat>
    requires |s| >= 4
  {
    match (HexValue(s[0]), HexValue(s[1]), HexValue(s[2]), HexValue(s[3]))
    case (Some(a), Some(b), Some(c), Some(d)) => Some(((a * 16 + b) * 16 + c) * 16 + d)
    case _ => None
  }

  /** UTF-8 of a code point of the basic plane; surrogates are refused. */
  function Utf8(x: nat): Option<Bytes> {
    if x < 0x80 then Some([x])
    else if x < 0x800 then Some([0xC0 + x / 64, 0x80 + x % 64])
    else if x < 0x1_0000 && !(0xD800 <= x < 0xE000) then Some([0xE0 + x / 4096, 0x80 + x / 64 % 64, 0x80 + x % 64])
    else None
  }

  /** The bytes one escape sequence stands for, and how long it is; `s` starts behind the backslash. */
  function Unescape(s: Bytes): (r: Option<(Bytes, nat)>)
    ensures r.Some? ==> 0 < r.value.1 <= |s|
  {
    if s == [] then None
    else if s[0] == QUOTE || s[0] == BACKSLASH || s[0] == 47 then Some(([s[0]], 1))
    else if s[0] == 98 then Some(([8], 1))
    else if s[0] == 102 then Some(([12], 1))
    else if s[0] == 110 then Some(([NEWLINE], 1))
    else if s[0] == 114 then Some(([13], 1))
    else if s[0] == 116 then Some(([9], 1))
    else if s[0] == 117 && |s| >= 5 then
      match Hex4(s[1..])
      case None => None
      case Some(x) => (match Utf8(x) case None => None case Some(b) => Some((b, 5)))
    else None
  }

  /** Reads a string up to its closing quote; `s` starts behind the opening one. */
  function ReadString(s: Bytes): (r: Option<(Bytes, Bytes)>)
    ensures r.Some? ==> |r.value.1| < |s|
  {
    if s == [] || s[0] < SPACE then None
    else if s[0] == QUOTE then Some(([], s[1..]))
    else if s[0] == BACKSLASH then
      match Unescape(s[1..])
      case None => None
      case Some((b, n)) =>
        (match ReadString(s[1 + n..]) case None => None case Some((t, rest)) => Some((b + t, rest)))
    else
      match ReadString(s[1..])
      case None => None
      case Some((t, rest)) => Some(([s[0]] + t, rest))
  }

  function Digits(s: Bytes): (n: nat)
    ensures n <= |s|
  {
    if s == [] || !IsDigit(s[0]) then 0 else 1 + Digits(s[1..])
  }

  function IntLen(s: Bytes): (r: Option<nat>)
    ensures r.Some? ==> 0 < r.value <= |s|
  {
    var d := Digits(s);
    if d == 0 || (d > 1 && s[0] == 48) then None else Some(d)
  }

  function FracLen(s: Bytes): (r: Option<nat>)
    ensures r.Some? ==> r.value <= |s|
  {
    if s == [] || s[0] != DOT then Some(0)
    else if Digits(s[1..]) == 0 then None
    else Some(1 + Digits(s[1..]))
  }

  function ExpLen(s: Bytes): (r: Option<nat>)
    ensures r.Some? ==> r.value <= |s|
  {
    if s == [] || (s[0] != 69 && s[0] != 101) then Some(0)
    else
      var lead := if |s| > 1 && (s[1] == 43 || s[1] == 45) then 2 else 1;
      if Digits(s[lead..]) == 0 then None else Some(lead + Digits(s[lead..]))
  }

  /** The length of the number token a string starts with. */
  function NumberLen(s: Bytes): (r: Option<nat>)
    ensures r.Some? ==> 0 < r.value <= |s|
  {
    var sign := if s != [] && s[0] == 45 then 1 else 0;
    match IntLen(s[sign..])
    case None => None
    case Some(i) =>
      match FracLen(s[sign + i..])
      case None => None
      case Some(f) =>
        (match ExpLen(s[sign + i + f..]) case None => None case Some(e) => Some(sign + i + f + e))
  }

  datatype Read = ReadStr(s: Bytes) | ReadNum(token: Bytes) | ReadArr(tokens: seq<Bytes>)

  /** Numbers separated by commas up to the closing bracket. */
  function ReadItems(s: Bytes): (r: Option<(seq<Bytes>, Bytes)>)
    ensures r.Some? ==> |r.value.1| < |s|
  {
    match NumberLen(s)
    case None => None
    case Some(n) =>
      if n == |s| then None
      else if s[n] == CLOSE_BRACKET then Some(([s[..n]], s[n + 1..]))
      else if s[n] == COMMA then
        (match ReadItems(s[n + 1..]) case None => None case Some((ts, rest)) => Some(([s[..n]] + ts, rest)))
      else None
  }

  function ReadValue(s: Bytes): (r: Option<(Read, Bytes)>)
    ensures r.Some? ==> |r.value.1| < |s|
  {
    if s == [] then None
    else if s[0] == QUOTE then
      (match ReadString(s[1..]) case None => None case Some((t, rest)) => Some((ReadStr(t), rest)))
    else if s[0] == OPEN_BRACKET then
      if |s| > 1 && s[1] == CLOSE_BRACKET then Some((ReadArr([]), s[2..]))
      else (match ReadItems(s[1..]) case None => None case Some((ts, rest)) => Some((ReadArr(ts), rest)))
    else (match NumberLen(s) case None => None case Some(n) => Some((ReadNum(s[..n]), s[n..])))
  }

  function ReadMember(s: Bytes): (r: Option<((Bytes, Read), Bytes)>)
    ensures r.Some? ==> |r.value.1| < |s|
  {
    if s == [] || s[0] != QUOTE then None
    else
      match ReadString(s[1..])
      case None => None
      case Some((key, after)) =>
        if after == [] || after[0] != COLON then None
        else (match ReadValue(after[1..]) case None => None case Some((v, rest)) => Some(((key, v), rest)))
  }

  /** Members separated by commas up to the closing brace. */
  function ReadMembers(s: Bytes): Option<(seq<(Bytes, Read)>, Bytes)>
    decreases |s|
  {
    match ReadMember(s)
    case None => None
    case Some((m, after)) =>
      if after == [] then None
      else if after[0] == CLOSE_BRACE then Some(([m], after[1..]))
      else if after[0] == COMMA then
        (match ReadMembers(after[1..]) case None => None case Some((ms, rest)) => Some(([m] + ms, rest)))
      else None
  }

  /** Reads a line that holds one object and nothing else. */
  function ReadObject(s: Bytes): Option<seq<(Bytes, Read)>> {
    if |s| < 2 || s[0] != OPEN_BRACE then None
    else if s[1..] == [CLOSE_BRACE] then Some([])
    else
      match ReadMembers(s[1..])
      case None => None
      case Some((ms, rest)) => if rest == [] then Some(ms) else None
  }

  // ---- Round trip ----

  /** What a reader should get for a value. */
  function Meaning(v: Value): Read {
    match v
    case Str(s) => ReadStr(CStr(s))
    case Num(x) => ReadNum(NumberText(x))
    case Triple(a, b, c) => ReadArr([Decimal(a), Decimal(b), Decimal(c)])
  }

  function Meanings(ms: seq<Member>): seq<(Bytes, Read)> {
    if ms == [] then [] else [(CStr(ms[0].key), Meaning(ms[0].value))] + Meanings(ms[1..])
  }

  lemma HexReads(d: nat)
    requires d < 16
    ensures HexValue(HexDigit(d)) == Some(d)
  {
  }

  /** One escaped character reads back as the character. */
  lemma EscByteReads(c: u8, tail: Bytes)
    requires c != 0 && ReadString(tail).Some?
    ensures ReadString(EscByte(c) + tail) == Some(([c] + ReadString(tail).value.0, ReadString(tail).value.1))
  {
    hide ReadString;
    if EscByte(c)[0] != BACKSLASH {
      PlainReads(c, tail);
    } else if |EscByte(c)| == 2 {
      ShortReads(EscByte(c)[1], c, tail);
    } else {
      ControlReads(c, tail);
    }
  }

  lemma PlainReads(c: u8, tail: Bytes)
    requires c >= SPACE && c != QUOTE && c != BACKSLASH && ReadString(tail).Some?
    ensures ReadString([c] + tail) == Some(([c] + ReadString(tail).value.0, ReadString(tail).value.1))
  {
    hide Unescape;
    assert ([c] + tail)[1..] == tail;
  }

  /** A two-character escape sequence. */
  lemma ShortReads(e: u8, c: u8, tail: Bytes)
    requires e != 117 && Unescape([e] + tail) == Some(([c], 1)) && ReadString(tail).Some?
    ensures ReadString([BACKSLASH, e] + tail) == Some(([c] + ReadString(tail).value.0, ReadString(tail).value.1))
  {
    hide Unescape;
    var s := [BACKSLASH, e] + tail;
    assert s[1..] == [e] + tail && s[2..] == tail;
  }

  lemma ControlReads(c: u8, tail: Bytes)
    requires c != 0 && c < SPACE && |EscByte(c)| == 6 && ReadString(tail).Some?
    ensures ReadString(EscByte(c) + tail) == Some(([c] + ReadString(tail).value.0, ReadString(tail).value.1))
  {
    var s := EscByte(c) + tail;
    HexReads(c / 16);
    HexReads(c % 16);
    HexReads(0);
    var e := s[1..];
    assert e[1..][0] == 48 && e[1..][1] == 48 && e[1..][2] == HexDigit(c / 16) && e[1..][3] == HexDigit(c % 16);
    assert Hex4(e[1..]) == Some(c as nat);
    assert Unescape(e) == Some(([c], 5));
    assert s[6..] == tail;
  }

  lemma {:induction false} EscapedReads(s: Bytes, rest: Bytes)
    ensures ReadString(Escaped(s) + ([QUOTE] + rest)) == Some((CStr(s), rest))
  {
    hide EscByte, Unescape;
    var close := [QUOTE] + rest;
    if s == [] || s[0] == 0 {
      assert Escaped(s) + close == close;
      assert close[1..] == rest;
    } else {
      EscapedReads(s[1..], rest);
      EscByteReads(s[0], Escaped(s[1..]) + close);
      Assoc(EscByte(s[0]), Escaped(s[1..]), close);
    }
  }

  lemma QuotedReads(s: Bytes, rest: Bytes)
    ensures |Quoted(s) + rest| > 0 && (Quoted(s) + rest)[0] == QUOTE
    ensures ReadString((Quoted(s) + rest)[1..]) == Some((CStr(s), rest))
  {
    hide ReadString, Escaped, CStr;
    EscapedReads(s, rest);
    assert (Quoted(s) + rest)[1..] == Escaped(s) + ([QUOTE] + rest);
  }

  /** A number token ends in front of this. */
  predicate Ends(rest: Bytes) {
    rest != [] && (rest[0] == COMMA || rest[0] == CLOSE_BRACKET || rest[0] == CLOSE_BRACE)
  }

  lemma {:induction false} DigitsAre(a: Bytes, rest: Bytes)
    requires forall i :: 0 <= i < |a| ==> IsDigit(a[i])
    requires rest != [] && !IsDigit(rest[0])
    ensures Digits(a + rest) == |a|
  {
    if a != [] {
      DigitsAre(a[1..], rest);
      assert (a + rest)[1..] == a[1..] + rest;
    } else {
      assert a + rest == rest;
    }
  }

  lemma DecimalLen(n: nat, rest: Bytes)
    requires rest != [] && !IsDigit(rest[0])
    ensures IntLen(Decimal(n) + rest) == Some(|Decimal(n)|)
    ensures (Decimal(n) + rest)[0] != 45 && (Decimal(n) + rest)[|Decimal(n)|..] == rest
  {
    hide Decimal, Digits;
    DecimalIsDigits(n);
    DecimalLead(n);
    DigitsAre(Decimal(n), rest);
  }

  lemma WholeReads(n: nat, rest: Bytes)
    requires Ends(rest)
    ensures NumberLen(Decimal(n) + rest) == Some(|Decimal(n)|)
    ensures (Decimal(n) + rest)[..|Decimal(n)|] == Decimal(n)
  {
    hide Decimal, IntLen;
    DecimalLen(n, rest);
    var s := Decimal(n) + rest;
    assert s[0..] == s;
    assert s[0 + |Decimal(n)|..] == rest;
  }

  lemma FixedReads(n: nat, d: Bytes, rest: Bytes)
    requires |d| == 3 && IsDigit(d[0]) && IsDigit(d[1]) && IsDigit(d[2]) && Ends(rest)
    ensures NumberLen(Decimal(n) + [DOT] + d + rest) == Some(|Decimal(n) + [DOT] + d|)
  {
    hide Decimal, IntLen, Digits, FracLen;
    var a, frac := Decimal(n), [DOT] + d + rest;
    var s := a + [DOT] + d + rest;
    assert s == a + frac;
    DecimalLen(n, frac);
    FracIs(d, rest);
    assert s[0..] == s && s[0 + |a|..] == frac && s[0 + |a| + 4..] == rest;
  }

  lemma FracIs(d: Bytes, rest: Bytes)
    requires |d| == 3 && IsDigit(d[0]) && IsDigit(d[1]) && IsDigit(d[2]) && Ends(rest)
    ensures FracLen([DOT] + d + rest) == Some(4)
  {
    hide Digits;
    var frac := [DOT] + d + rest;
    assert frac[1..] == d + rest;
    DigitsAre(d, rest);
  }

  lemma ThousandthsReads(t: nat, rest: Bytes)
    requires Ends(rest)
    ensures NumberLen(NumberText(Thousandths(t)) + rest) == Some(|NumberText(Thousandths(t))|)
  {
    hide Decimal, NumberLen;
    FixedReads(t / 1000, [48 + t / 100 % 10, 48 + t / 10 % 10, 48 + t % 10], rest);
  }

  lemma NumberReads(x: Number, rest: Bytes)
    requires Ends(rest)
    ensures NumberLen(NumberText(x) + rest) == Some(|NumberText(x)|)
  {
    hide Decimal, NumberLen;
    match x
    case Whole(n) => WholeReads(n, rest);
    case Thousandths(t) => ThousandthsReads(t, rest);
  }

  lemma NumberStart(x: Number)
    ensures |NumberText(x)| > 0 && IsDigit(NumberText(x)[0])
  {
    DecimalIsDigits(if x.Whole? then x.n else x.t / 1000);
  }

  lemma ItemReads(n: nat, next: u8, tail: Bytes)
    requires next == COMMA || next == CLOSE_BRACKET
    ensures NumberLen(Decimal(n) + ([next] + tail)) == Some(|Decimal(n)|)
    ensures (Decimal(n) + ([next] + tail))[..|Decimal(n)|] == Decimal(n)
    ensures (Decimal(n) + ([next] + tail))[|Decimal(n)|] == next
    ensures (Decimal(n) + ([next] + tail))[|Decimal(n)| + 1..] == tail
  {
    hide Decimal, NumberLen;
    WholeReads(n, [next] + tail);
  }

  lemma LastItem(n: nat, tail: Bytes)
    ensures ReadItems(Decimal(n) + ([CLOSE_BRACKET] + tail)) == Some(([Decimal(n)], tail))
  {
    hide Decimal, NumberLen;
    ItemReads(n, CLOSE_BRACKET, tail);
  }

  lemma NextItem(n: nat, tail: Bytes, items: seq<Bytes>, rest: Bytes)
    requires ReadItems(tail) == Some((items, rest))
    ensures ReadItems(Decimal(n) + ([COMMA] + tail)) == Some(([Decimal(n)] + items, rest))
  {
    hide Decimal, NumberLen;
    ItemReads(n, COMMA, tail);
  }

  lemma TripleReads(a: nat, b: nat, c: nat, rest: Bytes)
    ensures ReadItems(Decimal(a) + ([COMMA] + (Decimal(b) + ([COMMA] + (Decimal(c) + ([CLOSE_BRACKET] + rest)))))) ==
            Some(([Decimal(a), Decimal(b), Decimal(c)], rest))
  {
    hide Decimal, ReadItems;
    var s2 := Decimal(c) + ([CLOSE_BRACKET] + rest);
    var s1 := Decimal(b) + ([COMMA] + s2);
    LastItem(c, rest);
    NextItem(b, s2, [Decimal(c)], rest);
    NextItem(a, s1, [Decimal(b)] + [Decimal(c)], rest);
    assert [Decimal(a)] + ([Decimal(b)] + [Decimal(c)]) == [Decimal(a), Decimal(b), Decimal(c)];
  }

  lemma ArrayReads(a: nat, b: nat, c: nat, rest: Bytes)
    ensures ReadValue(ValueText(Triple(a, b, c)) + rest) == Some((Meaning(Triple(a, b, c)), rest))
  {
    hide Decimal, NumberLen, ReadItems, ReadString;
    var items := Decimal(a) + ([COMMA] + (Decimal(b) + ([COMMA] + (Decimal(c) + ([CLOSE_BRACKET] + rest)))));
    var s := ValueText(Triple(a, b, c)) + rest;
    TripleReads(a, b, c, rest);
    DecimalIsDigits(a);
    assert s == [OPEN_BRACKET] + items;
    assert s[1..] == items;
    assert s[1] == Decimal(a)[0];
  }

  lemma NumberValueReads(x: Number, rest: Bytes)
    requires Ends(rest)
    ensures ReadValue(NumberText(x) + rest) == Some((ReadNum(NumberText(x)), rest))
  {
    hide NumberLen, ReadItems, ReadString, NumberText;
    NumberStart(x);
    NumberReads(x, rest);
    SplitAt(NumberText(x), rest);
    assert (NumberText(x) + rest)[0] == NumberText(x)[0];
  }

  lemma StringValueReads(t: Bytes, rest: Bytes)
    ensures ReadValue(Quoted(t) + rest) == Some((ReadStr(CStr(t)), rest))
  {
    hide NumberLen, ReadItems, ReadString, Quoted, CStr;
    QuotedReads(t, rest);
  }

  /** Every printed value is read back, whatever follows it. */
  lemma ValueReads(v: Value, rest: Bytes)
    requires Ends(rest)
    ensures ReadValue(ValueText(v) + rest) == Some((Meaning(v), rest))
  {
    hide ReadValue, Quoted, NumberText, CStr, Decimal;
    match v
    case Str(t) => StringValueReads(t, rest);
    case Num(x) => NumberValueReads(x, rest);
    case Triple(a, b, c) => ArrayReads(a, b, c, rest);
  }

  function MemberText(m: Member): Bytes {
    Quoted(m.key) + [COLON] + ValueText(m.value)
  }

  lemma MemberReads(m: Member, rest: Bytes)
    requires Ends(rest)
    ensures ReadMember(MemberText(m) + rest) == Some(((CStr(m.key), Meaning(m.value)), rest))
  {
    hide ReadString, ReadValue, ValueText, Meaning, Quoted, CStr;
    var after := [COLON] + (ValueText(m.value) + rest);
    QuotedReads(m.key, after);
    ValueReads(m.value, rest);
    assert MemberText(m) + rest == Quoted(m.key) + after;
    assert after[1..] == ValueText(m.value) + rest;
  }

  /** The members of an object front to back. */
  function MembersText(ms: seq<Member>): Bytes
    requires ms != []
  {
    MemberText(ms[0]) + if |ms| == 1 then [] else [COMMA] + MembersText(ms[1..])
  }

  lemma {:induction false} MembersTextSnoc(ms: seq<Member>, m: Member)
    requires ms != []
    ensures MembersText(ms + [m]) == MembersText(ms) + ([COMMA] + MemberText(m))
  {
    hide MemberText;
    assert (ms + [m])[1..] == ms[1..] + [m];
    var first, last := MemberText(ms[0]), [COMMA] + MemberText(m);
    if |ms| == 1 {
      assert MembersText(ms) == first + [] && MembersText([m]) == MemberText(m) + [];
      assert (ms + [m])[1..] == [m];
    } else {
      MembersTextSnoc(ms[1..], m);
      Assoc([COMMA], MembersText(ms[1..]), last);
      Assoc(first, [COMMA] + MembersText(ms[1..]), last);
    }
  }

  lemma OneMember(ms: seq<Member>)
    requires |ms| == 1
    ensures MembersText(ms) == MemberText(ms[0])
    ensures Meanings(ms) == [(CStr(ms[0].key), Meaning(ms[0].value))]
  {
    hide MemberText, CStr, Meaning;
    assert MembersText(ms) == MemberText(ms[0]) + [];
    assert Meanings(ms[1..]) == [];
  }

  lemma AppendedMember(before: Bytes, m: Member)
    ensures before + [COMMA] + Quoted(m.key) + [COLON] + ValueText(m.value) == before + ([COMMA] + MemberText(m))
  {
    hide Quoted, ValueText;
    Assoc(before, [COMMA], Quoted(m.key));
    Assoc(before, [COMMA] + Quoted(m.key), [COLON]);
    Assoc(before, [COMMA] + Quoted(m.key) + [COLON], ValueText(m.value));
    Assoc4([COMMA], Quoted(m.key), [COLON], ValueText(m.value));
    Assoc(Quoted(m.key), [COLON], ValueText(m.value));
  }

  lemma {:induction false} OpenIsMembers(ms: seq<Member>)
    requires ms != []
    ensures OpenObject(ms) == [OPEN_BRACE] + MembersText(ms)
  {
    hide Quoted, ValueText, MembersText;
    var init, m := ms[..|ms| - 1], ms[|ms| - 1];
    assert MemberText(m) == Quoted(m.key) + [COLON] + ValueText(m.value);
    if init == [] {
      assert OpenObject(init) == [OPEN_BRACE];
      OneMember(ms);
    } else {
      OpenIsMembers(init);
      MembersTextSnoc(init, m);
      assert ms == init + [m];
      AppendedMember(OpenObject(init), m);
      Assoc([OPEN_BRACE], MembersText(init), [COMMA] + MemberText(m));
    }
  }

  lemma {:induction false} MembersRead(ms: seq<Member>, rest: Bytes)
    requires ms != []
    ensures ReadMembers(MembersText(ms) + ([CLOSE_BRACE] + rest)) == Some((Meanings(ms), rest))
  {
    hide ReadMember, MemberText, Meaning, CStr;
    var close := [CLOSE_BRACE] + rest;
    if |ms| == 1 {
      MemberReads(ms[0], close);
      OneMember(ms);
      assert close[1..] == rest;
    } else {
      var after := [COMMA] + (MembersText(ms[1..]) + close);
      MembersRead(ms[1..], rest);
      MemberReads(ms[0], after);
      Assoc4(MemberText(ms[0]), [COMMA], MembersText(ms[1..]), close);
      assert after[1..] == MembersText(ms[1..]) + close;
      assert MembersText(ms) + close == MemberText(ms[0]) + after;
    }
  }

  /** Every printed object is read back: its keys and values in order, strings cut at the first NUL. */
  lemma ObjectReads(ms: seq<Member>)
    ensures ReadObject(Object(ms)) == Some(Meanings(ms))
  {
    hide ReadMembers, MembersText, Meanings, OpenObject;
    if ms == [] {
      assert OpenObject(ms) == [OPEN_BRACE] && Meanings(ms) == [] by {
        EmptyObject();
      }
      assert Object(ms)[1..] == [CLOSE_BRACE];
    } else {
      OpenIsMembers(ms);
      MembersRead(ms, []);
      MembersNotEmpty(ms);
      assert Object(ms)[1..] == MembersText(ms) + ([CLOSE_BRACE] + []);
    }
  }

  lemma EmptyObject()
    ensures OpenObject([]) == [OPEN_BRACE] && Meanings([]) == []
  {
  }

  lemma MembersNotEmpty(ms: seq<Member>)
    requires ms != []
    ensures |MembersText(ms)| > 0
  {
  }

  // ---- Lines ----

  /** Cuts a text behind every newline; what follows the last newline is one more line unless it is empty. */
  function Lines(s: Bytes): seq<Bytes> {
    if s == [] then []
    else if s[0] == NEWLINE then [[]] + Lines(s[1..])
    else
      var rest := Lines(s[1..]);
      if rest == [] || s[1..] == [] then [[s[0]]] + rest else [[s[0]] + rest[0]] + rest[1..]
  }

  lemma {:induction false} LinesCut(line: Bytes, rest: Bytes)
    requires OneLine(line)
    ensures Lines(line + ([NEWLINE] + rest)) == [line] + Lines(rest)
  {
    hide Lines;
    var end := [NEWLINE] + rest;
    if line == [] {
      LinesNewline(rest);
      assert line + end == end;
    } else {
      LinesCut(line[1..], rest);
      LinesLonger(line[0], line[1..] + end);
      assert line == [line[0]] + line[1..];
      Assoc([line[0]], line[1..], end);
      assert ([line[1..]] + Lines(rest))[1..] == Lines(rest);
    }
  }

  lemma LinesNewline(rest: Bytes)
    ensures Lines([NEWLINE] + rest) == [[]] + Lines(rest)
  {
    assert ([NEWLINE] + rest)[1..] == rest;
  }

  lemma LinesLonger(c: u8, tail: Bytes)
    requires c != NEWLINE && tail != [] && Lines(tail) != []
    ensures Lines([c] + tail) == [[c] + Lines(tail)[0]] + Lines(tail)[1..]
  {
    assert ([c] + tail)[1..] == tail;
  }

  /** One object per line. */
  function LinesOf(objects: seq<seq<Member>>): Bytes {
    if objects == [] then [] else Object(objects[0]) + [NEWLINE] + LinesOf(objects[1..])
  }

  lemma {:induction false} LinesOfSnoc(objects: seq<seq<Member>>, ms: seq<Member>)
    ensures LinesOf(objects + [ms]) == LinesOf(objects) + Object(ms) + [NEWLINE]
  {
    hide Object;
    if objects == [] {
      assert objects + [ms] == [ms];
      assert LinesOf([ms][1..]) == [];
    } else {
      assert (objects + [ms])[1..] == objects[1..] + [ms];
      LinesOfSnoc(objects[1..], ms);
    }
  }

  /** The log reads back: cut at the newlines it gives one line per object, and every line reads as its object. */
  lemma {:induction false} LogReadsBack(objects: seq<seq<Member>>)
    ensures |Lines(LinesOf(objects))| == |objects|
    ensures forall i :: 0 <= i < |objects| ==> ReadObject(Lines(LinesOf(objects))[i]) == Some(Meanings(objects[i]))
  {
    hide ReadObject, Meanings, OpenObject, Lines;
    if objects != [] {
      var line, rest := Object(objects[0]), LinesOf(objects[1..]);
      LogReadsBack(objects[1..]);
      OpenOneLine(objects[0]);
      LinesCut(line, rest);
      Assoc(line, [NEWLINE], rest);
      ObjectReads(objects[0]);
      forall i | 0 <= i < |objects|
        ensures ReadObject(Lines(LinesOf(objects))[i]) == Some(Meanings(objects[i]))
      {
        if i > 0 {
          assert objects[1..][i - 1] == objects[i];
        }
      }
    } else {
      NoLines();
    }
  }

  lemma NoLines()
    ensures Lines([]) == []
  {
  }
}
