/** Reading figures back out of a log line: the value under a key, and the number a token denotes. */
module LogReader {
  import opened Model
  import opened Sequences
  import opened Text
  import opened Json

  type Members = seq<(Bytes, Read)>

  function Lookup(kvs: Members, key: Bytes): Option<Read> {
    if kvs == [] then None else if kvs[0].0 == key then Some(kvs[0].1) else Lookup(kvs[1..], key)
  }

  // ---- What tokens denote ----

  function Fraction(s: Bytes): real {
    if s == [] then 0.0 else ((s[0] as int - 48) as real + Fraction(s[1..])) / 10.0
  }

  /** A decimal number, with or without a fraction. */
  function TokenValue(token: Bytes): real {
    var d := Digits(token);
    Text.Value(token[..d]) as real + if d < |token| then Fraction(token[d + 1..]) else 0.0
  }

  lemma {:induction false} AllDigits(s: Bytes)
    requires forall i :: 0 <= i < |s| ==> IsDigit(s[i])
    ensures Digits(s) == |s|
  {
    if s != [] {
      AllDigits(s[1..]);
    }
  }

  lemma WholeDenotes(n: nat)
    ensures TokenValue(NumberText(Whole(n))) == n as real
  {
    hide Decimal, Text.Value, Digits;
    DecimalIsDigits(n);
    AllDigits(Decimal(n));
    DecimalReadsBack(n);
    assert Decimal(n)[..|Decimal(n)|] == Decimal(n);
  }

  lemma ThreeDigits(t: nat)
    ensures t == 1000 * (t / 1000) + 100 * (t / 100 % 10) + 10 * (t / 10 % 10) + t % 10
  {
    var a := t / 10;
    var b := a / 10;
    assert b == t / 100 && b / 10 == t / 1000;
    assert t == 10 * a + t % 10 && a == 10 * b + a % 10 && b == 10 * (b / 10) + b % 10;
  }

  lemma AsFraction(t: nat, n: nat, a: nat, b: nat, c: nat)
    requires t == 1000 * n + 100 * a + 10 * b + c
    ensures t as real / 1000.0 == n as real + (a as real + (b as real + (c as real + 0.0) / 10.0) / 10.0) / 10.0
  {
    assert t as real == 1000.0 * n as real + 100.0 * a as real + 10.0 * b as real + c as real;
  }

  lemma FractionOf(a: u8, b: u8, c: u8)
    ensures Fraction([a, b, c]) ==
            ((a as int - 48) as real + ((b as int - 48) as real + ((c as int - 48) as real + 0.0) / 10.0) / 10.0) / 10.0
  {
    assert [a, b, c][1..] == [b, c] && [b, c][1..] == [c] && [c][1..] == [];
    assert Fraction([]) == 0.0;
    assert Fraction([c]) == ((c as int - 48) as real + 0.0) / 10.0;
  }

  lemma ThousandthsDenotes(t: nat)
    ensures TokenValue(NumberText(Thousandths(t))) == t as real / 1000.0
  {
    hide Decimal, Text.Value, Digits, Fraction;
    var whole, d := Decimal(t / 1000), [48 + t / 100 % 10, 48 + t / 10 % 10, 48 + t % 10];
    var rest := [DOT] + d;
    DecimalIsDigits(t / 1000);
    DigitsAre(whole, rest);
    Assoc(whole, [DOT], d);
    DecimalReadsBack(t / 1000);
    var token := NumberText(Thousandths(t));
    assert token == whole + rest;
    assert token[..|whole|] == whole && token[|whole| + 1..] == d;
    FractionOf(d[0], d[1], d[2]);
    ThreeDigits(t);
    AsFraction(t, t / 1000, t / 100 % 10, t / 10 % 10, t % 10);
  }

  // ---- What a line says under a key ----

  predicate TextUnder(kvs: Members, key: string, s: Bytes) {
    Lookup(kvs, Ascii(key)) == Some(ReadStr(CStr(s)))
  }

  predicate NumberUnder(kvs: Members, key: string, n: nat) {
    match Lookup(kvs, Ascii(key))
    case Some(ReadNum(token)) => TokenValue(token) == n as real
    case _ => false
  }

  predicate TripleUnder(kvs: Members, key: string, t: (nat, nat, nat)) {
    match Lookup(kvs, Ascii(key))
    case Some(ReadArr(tokens)) =>
      && |tokens| == 3
      && TokenValue(tokens[0]) == t.0 as real && TokenValue(tokens[1]) == t.1 as real && TokenValue(tokens[2]) == t.2 as real
    case _ => false
  }

  /** An address as text: `0x` and its hexadecimal digits. */
  predicate HexUnder(kvs: Members, key: string, n: nat) {
    match Lookup(kvs, Ascii(key))
    case Some(ReadStr(s)) => |s| > 2 && s[0] == 48 && s[1] == 120 && HexNumber(s[2..]) == n
    case _ => false
  }

  /** A number of microseconds, right to half a thousandth; present only where asked for. */
  predicate DurationUnder(kvs: Members, key: string, present: bool, us: real) {
    match Lookup(kvs, Ascii(key))
    case Some(ReadNum(token)) => present && -0.0005 <= TokenValue(token) - us <= 0.0005
    case Some(_) => false
    case None => !present
  }

  // ---- Finding a key among printed members ----

  predicate PlainKey(k: string) {
    forall i :: 0 <= i < |k| ==> 0 < k[i] as int < 128
  }

  predicate KeyedBy(ms: seq<Member>, ks: seq<string>) {
    |ms| == |ks| && forall i :: 0 <= i < |ms| ==> ms[i].key == Ascii(ks[i])
  }

  predicate KeysApart(ks: seq<string>) {
    && (forall i :: 0 <= i < |ks| ==> PlainKey(ks[i]))
    && forall i, j :: 0 <= i < j < |ks| ==> ks[i] != ks[j]
  }

  lemma {:induction false} AsciiPlain(k: string)
    requires PlainKey(k)
    ensures CStr(Ascii(k)) == Ascii(k)
    ensures forall i :: 0 <= i < |k| ==> Ascii(k)[i] == k[i] as int
  {
    if k != [] {
      AsciiPlain(k[1..]);
      assert Ascii(k)[1..] == Ascii(k[1..]);
    }
  }

  lemma AsciiTells(a: string, b: string)
    requires PlainKey(a) && PlainKey(b) && Ascii(a) == Ascii(b)
    ensures a == b
  {
    AsciiPlain(a);
    AsciiPlain(b);
    assert |a| == |Ascii(a)| == |Ascii(b)| == |b|;
    forall i | 0 <= i < |a|
      ensures a[i] == b[i]
    {
      assert a[i] as int == b[i] as int;
    }
  }

  lemma {:induction false} MeaningsAt(ms: seq<Member>, i: nat)
    requires i < |ms|
    ensures |Meanings(ms)| == |ms| && Meanings(ms)[i] == (CStr(ms[i].key), Meaning(ms[i].value))
  {
    MeaningsCount(ms);
    if i > 0 {
      MeaningsAt(ms[1..], i - 1);
    }
  }

  lemma {:induction false} MeaningsCount(ms: seq<Member>)
    ensures |Meanings(ms)| == |ms|
  {
    if ms != [] {
      MeaningsCount(ms[1..]);
    }
  }

  lemma {:induction false} LookupFirst(kvs: Members, key: Bytes, i: nat)
    requires i <= |kvs| && forall j :: 0 <= j < i ==> kvs[j].0 != key
    requires i < |kvs| ==> kvs[i].0 == key
    ensures Lookup(kvs, key) == if i < |kvs| then Some(kvs[i].1) else None
  {
    if i > 0 {
      LookupFirst(kvs[1..], key, i - 1);
    }
  }

  /** The value under the i-th key is the i-th value; under a key that was not written there is none. */
  lemma LookupAt(ms: seq<Member>, ks: seq<string>, i: nat, key: string)
    requires KeyedBy(ms, ks) && KeysApart(ks) && PlainKey(key) && i <= |ks|
    requires if i < |ks| then key == ks[i] else key !in ks
    ensures Lookup(Meanings(ms), Ascii(key)) == if i < |ks| then Some(Meaning(ms[i].value)) else None
  {
    hide Ascii, CStr, Meaning, Meanings, PlainKey;
    var kvs := Meanings(ms);
    MeaningsCount(ms);
    forall j | 0 <= j < |ms|
      ensures kvs[j].0 == Ascii(ks[j]) && kvs[j].1 == Meaning(ms[j].value)
    {
      MeaningsAt(ms, j);
      AsciiPlain(ks[j]);
    }
    forall j | 0 <= j < i
      ensures kvs[j].0 != Ascii(key)
    {
      if Ascii(ks[j]) == Ascii(key) {
        AsciiTells(ks[j], key);
      }
    }
    LookupFirst(kvs, Ascii(key), i);
  }

  lemma NumberFound(ms: seq<Member>, ks: seq<string>, i: nat, n: nat)
    requires KeyedBy(ms, ks) && KeysApart(ks) && i < |ks| && ms[i].value == Num(Whole(n))
    ensures NumberUnder(Meanings(ms), ks[i], n)
  {
    hide Meanings, Ascii, TokenValue, NumberText;
    LookupAt(ms, ks, i, ks[i]);
    WholeDenotes(n);
  }

  lemma TextFound(ms: seq<Member>, ks: seq<string>, i: nat, s: Bytes)
    requires KeyedBy(ms, ks) && KeysApart(ks) && i < |ks| && ms[i].value == Str(s)
    ensures TextUnder(Meanings(ms), ks[i], s)
  {
    hide Meanings, Ascii, CStr;
    LookupAt(ms, ks, i, ks[i]);
  }

  lemma TripleFound(ms: seq<Member>, ks: seq<string>, i: nat, a: nat, b: nat, c: nat)
    requires KeyedBy(ms, ks) && KeysApart(ks) && i < |ks| && ms[i].value == Triple(a, b, c)
    ensures TripleUnder(Meanings(ms), ks[i], (a, b, c))
  {
    hide Meanings, Ascii, TokenValue, Decimal;
    LookupAt(ms, ks, i, ks[i]);
    WholeDenotes(a);
    WholeDenotes(b);
    WholeDenotes(c);
  }
}
