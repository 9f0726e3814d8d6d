/** Protobuf wire encoding (struct Pb in src/trace_writer.cpp) and a generic wire-format reader
    (Protocol Buffers Encoding specification: base 128 varints, message structure,
    length-delimited records). */
module Wire {
  import opened Model
  import opened Sequences

  // ---- Varints ----

  function EncVarint(v: nat): Bytes {
    if v >= 0x80 then [v % 0x80 + 0x80] + EncVarint(v / 0x80) else [v]
  }

  /** Reads a varint of at most `budget` bytes from the front; None when it is cut or longer. */
  function DecVarint(s: Bytes, budget: nat): (r: Option<(nat, Bytes)>)
    ensures r.Some? ==> |r.value.1| < |s|
  {
    if s == [] || budget == 0 then None
    else if s[0] < 0x80 then Some((s[0], s[1..]))
    else
      match DecVarint(s[1..], budget - 1)
      case None => None
      case Some((v, rest)) => Some((s[0] - 0x80 + 0x80 * v, rest))
  }

  const MAX_VARINT: nat := 10

  function Pow128(k: nat): nat {
    if k == 0 then 1 else 0x80 * Pow128(k - 1)
  }

  lemma {:induction false} VarintLength(v: nat, k: nat)
    requires k > 0 && v < Pow128(k)
    ensures 1 <= |EncVarint(v)| <= k
  {
    if v >= 0x80 {
      VarintLength(v / 0x80, k - 1);
    }
  }

  lemma U64Fits(v: u64)
    ensures v < Pow128(MAX_VARINT)
  {
    assert Pow128(5) == 0x8_0000_0000;
    assert Pow128(10) == 0x80 * (0x80 * (0x80 * (0x80 * (0x80 * Pow128(5)))));
  }

  /** A varint in front of anything is read back exactly: varints are prefix-free. */
  lemma {:induction false} VarintRoundTrip(v: nat, rest: Bytes, budget: nat)
    requires |EncVarint(v)| <= budget
    ensures DecVarint(EncVarint(v) + rest, budget) == Some((v, rest))
  {
    var s := EncVarint(v) + rest;
    if v >= 0x80 {
      var tail := EncVarint(v / 0x80);
      VarintRoundTrip(v / 0x80, rest, budget - 1);
      assert s[1..] == tail + rest;
    } else {
      assert s[1..] == rest;
    }
  }

  /** Every 64-bit value takes one to ten bytes and is read back. */
  lemma U64RoundTrip(v: u64, rest: Bytes)
    ensures 1 <= |EncVarint(v)| <= MAX_VARINT
    ensures DecVarint(EncVarint(v) + rest, MAX_VARINT) == Some((v, rest))
  {
    U64Fits(v);
    VarintLength(v, MAX_VARINT);
    VarintRoundTrip(v, rest, MAX_VARINT);
  }

  lemma VarintPrefixFree(v: u64, w: u64)
    requires EncVarint(v) <= EncVarint(w)
    ensures v == w
  {
    var tail := EncVarint(w)[|EncVarint(v)|..];
    U64RoundTrip(v, tail);
    U64RoundTrip(w, []);
    assert EncVarint(v) + tail == EncVarint(w) + [];
  }

  // ---- Messages ----

  datatype Field =
    | Varint(num: nat, v: u64)
    | String(num: nat, s: Bytes)
    | Message(num: nat, fields: seq<Field>)

  const VARINT: nat := 0
  const LEN: nat := 2

  function EncTag(num: nat, wire: nat): Bytes {
    EncVarint(num * 8 + wire)
  }

  function EncField(f: Field): Bytes
    decreases f
  {
    match f
    case Varint(num, v) => EncTag(num, VARINT) + EncVarint(v)
    case String(num, s) => EncTag(num, LEN) + EncVarint(|s|) + s
    case Message(num, fields) => EncTag(num, LEN) + EncVarint(|EncFields(fields)|) + EncFields(fields)
  }

  function EncFields(fs: seq<Field>): Bytes
    decreases fs
  {
    if fs == [] then [] else EncField(fs[0]) + EncFields(fs[1..])
  }

  lemma {:induction false} EncFieldsAppend(a: seq<Field>, b: seq<Field>)
    ensures EncFields(a + b) == EncFields(a) + EncFields(b)
    decreases |a|
  {
    if a == [] {
      assert a + b == b;
    } else {
      assert (a + b)[1..] == a[1..] + b;
      EncFieldsAppend(a[1..], b);
      Assoc(EncField(a[0]), EncFields(a[1..]), EncFields(b));
    }
  }

  lemma EncFieldsSnoc(a: seq<Field>, f: Field)
    ensures EncFields(a + [f]) == EncFields(a) + EncField(f)
  {
    EncFieldsAppend(a, [f]);
    assert EncFields([f]) == EncField(f) + EncFields([]);
  }

  /** Which field numbers hold messages, and their schemas: what a reader must know to tell a message from a string. */
  datatype Schema = Schema(subs: map<nat, Schema>)

  /** Field numbers are legal and the tree follows the schema. */
  ghost predicate Conforms(schema: Schema, fs: seq<Field>)
    decreases fs
  {
    forall i :: 0 <= i < |fs| ==> FieldConforms(schema, fs[i])
  }

  ghost predicate FieldConforms(schema: Schema, f: Field)
    decreases f
  {
    && 1 <= f.num < 0x2000_0000
    && match f
       case Varint(num, v) => true
       case String(num, s) => num !in schema.subs
       case Message(num, fields) => num in schema.subs && Conforms(schema.subs[num], fields)
  }

  /** One record of the wire format. */
  datatype Record = Value(num: nat, v: nat) | Payload(num: nat, body: Bytes)

  /** Splits the first record off a buffer. */
  function NextRecord(s: Bytes): (r: Option<(Record, Bytes)>)
    ensures r.Some? ==> |r.value.1| < |s|
    ensures r.Some? && r.value.0.Payload? ==> |r.value.0.body| < |s|
  {
    match DecVarint(s, MAX_VARINT)
    case None => None
    case Some((tag, rest)) =>
      var num, wire := tag / 8, tag % 8;
      if num == 0 then None
      else
        match DecVarint(rest, MAX_VARINT)
        case None => None
        case Some((x, after)) =>
          if wire == VARINT then Some((Value(num, x), after))
          else if wire == LEN && x <= |after| then Some((Payload(num, after[..x]), after[x..]))
          else None
  }

  /** Reads a whole buffer, splitting nested messages by the schema. */
  function Parse(schema: Schema, s: Bytes): Option<seq<Field>>
    decreases |s|
  {
    if s == [] then Some([])
    else
      match NextRecord(s)
      case None => None
      case Some((rec, rest)) =>
        match Parse(schema, rest)
        case None => None
        case Some(fs) =>
          match rec
          case Value(num, v) => if v < U64 then Some([Varint(num, v)] + fs) else None
          case Payload(num, body) =>
            if num !in schema.subs then Some([String(num, body)] + fs)
            else
              match Parse(schema.subs[num], body)
              case None => None
              case Some(sub) => Some([Message(num, sub)] + fs)
  }

  lemma TagRoundTrip(num: nat, wire: nat, rest: Bytes)
    requires 1 <= num < 0x2000_0000 && wire < 8
    ensures DecVarint(EncTag(num, wire) + rest, MAX_VARINT) == Some((num * 8 + wire, rest))
    ensures (num * 8 + wire) / 8 == num && (num * 8 + wire) % 8 == wire
    ensures |EncTag(num, wire)| > 0
  {
    U64RoundTrip(num * 8 + wire, rest);
  }

  lemma NextRecordIs(s: Bytes, num: nat, wire: nat, rest: Bytes, x: nat, after: Bytes)
    requires 1 <= num && wire < 8
    requires DecVarint(s, MAX_VARINT) == Some((num * 8 + wire, rest)) && DecVarint(rest, MAX_VARINT) == Some((x, after))
    ensures NextRecord(s) ==
            if wire == VARINT then Some((Value(num, x), after))
            else if wire == LEN && x <= |after| then Some((Payload(num, after[..x]), after[x..]))
            else None
  {
    hide DecVarint;
    assert (num * 8 + wire) / 8 == num && (num * 8 + wire) % 8 == wire;
  }

  lemma NextValue(num: nat, v: u64, rest: Bytes)
    requires 1 <= num < 0x2000_0000
    ensures NextRecord(EncField(Varint(num, v)) + rest) == Some((Value(num, v), rest))
  {
    hide EncVarint, DecVarint, NextRecord;
    TagRoundTrip(num, VARINT, EncVarint(v) + rest);
    U64RoundTrip(v, rest);
    Assoc(EncTag(num, VARINT), EncVarint(v), rest);
    NextRecordIs(EncField(Varint(num, v)) + rest, num, VARINT, EncVarint(v) + rest, v, rest);
  }

  lemma PayloadIs(s: Bytes, num: nat, tail: Bytes, body: Bytes, rest: Bytes)
    requires 1 <= num && DecVarint(s, MAX_VARINT) == Some((num * 8 + LEN, tail))
    requires DecVarint(tail, MAX_VARINT) == Some((|body|, body + rest))
    ensures NextRecord(s) == Some((Payload(num, body), rest))
  {
    hide DecVarint, NextRecord;
    SplitAt(body, rest);
    NextRecordIs(s, num, LEN, tail, |body|, body + rest);
  }

  lemma NextPayload(num: nat, body: Bytes, rest: Bytes)
    requires 1 <= num < 0x2000_0000 && |body| < U64
    ensures NextRecord((EncTag(num, LEN) + EncVarint(|body|) + body) + rest) == Some((Payload(num, body), rest))
  {
    hide EncVarint, DecVarint, NextRecord, EncTag;
    var tag, len, after := EncTag(num, LEN), EncVarint(|body|), body + rest;
    var s := tag + (len + after);
    assert (tag + len + body) + rest == s by {
      Assoc4(tag, len, body, rest);
    }
    assert DecVarint(s, MAX_VARINT) == Some((num * 8 + LEN, len + after)) by {
      TagRoundTrip(num, LEN, len + after);
    }
    assert DecVarint(len + after, MAX_VARINT) == Some((|body|, after)) by {
      U64RoundTrip(|body|, after);
    }
    PayloadIs(s, num, len + after, body, rest);
  }

  lemma FieldNotEmpty(schema: Schema, f: Field)
    requires FieldConforms(schema, f)
    ensures |EncField(f)| > 0
    ensures f.String? ==> |f.s| < |EncField(f)|
    ensures f.Message? ==> |EncFields(f.fields)| < |EncField(f)|
  {
    TagRoundTrip(f.num, if f.Varint? then VARINT else LEN, []);
  }

  /** Round trip: any tree of varint, string and message fields whose encoding has a 64-bit length is read back
      exactly. */
  lemma {:induction false} ParseEncoded(schema: Schema, fs: seq<Field>)
    requires Conforms(schema, fs) && |EncFields(fs)| < U64
    ensures Parse(schema, EncFields(fs)) == Some(fs)
    decreases |EncFields(fs)|
  {
    if fs != [] {
      var f, rest := fs[0], EncFields(fs[1..]);
      assert FieldConforms(schema, f);
      FieldNotEmpty(schema, f);
      assert EncFields(fs) == EncField(f) + rest;
      ParseEncoded(schema, fs[1..]);
      assert fs == [f] + fs[1..];
      match f
      case Varint(num, v) => NextValue(num, v, rest);
      case String(num, s) => NextPayload(num, s, rest);
      case Message(num, fields) =>
        NextPayload(num, EncFields(fields), rest);
        ParseEncoded(schema.subs[num], fields);
    }
  }

  // ---- The writer ----

  class Pb {
    var buf: Bytes
    /** What has been written so far. */
    ghost var fields: seq<Field>

    ghost predicate Valid()
      reads this
    {
      buf == EncFields(fields)
    }

    constructor ()
      ensures Valid() && fields == []
    {
      buf, fields := [], [];
    }

    method PutVarint(value: nat)
      modifies this`buf
      ensures buf == old(buf) + EncVarint(value)
    {
      var v := value;
      while v >= 0x80
        invariant buf + EncVarint(v) == old(buf) + EncVarint(value)
      {
        Assoc(buf, [v % 0x80 + 0x80], EncVarint(v / 0x80));
        buf := buf + [v % 0x80 + 0x80];
        v := v / 0x80;
      }
      buf := buf + [v];
    }

    method PutTag(num: nat, wire: nat)
      modifies this`buf
      ensures buf == old(buf) + EncTag(num, wire)
    {
      PutVarint(num * 8 + wire);
    }

    method VarintField(num: nat, v: u64)
      requires Valid()
      modifies this
      ensures Valid() && fields == old(fields) + [Varint(num, v)]
    {
      hide EncTag, EncVarint, EncFields;
      PutTag(num, VARINT);
      PutVarint(v);
      Assoc(old(buf), EncTag(num, VARINT), EncVarint(v));
      EncFieldsSnoc(fields, Varint(num, v));
      fields := fields + [Varint(num, v)];
    }

    method StringField(num: nat, s: Bytes)
      requires Valid()
      modifies this
      ensures Valid() && fields == old(fields) + [String(num, s)]
    {
      hide EncTag, EncVarint, EncFields;
      PutTag(num, LEN);
      PutVarint(|s|);
      buf := buf + s;
      assert buf == old(buf) + (EncTag(num, LEN) + EncVarint(|s|) + s);
      EncFieldsSnoc(fields, String(num, s));
      fields := fields + [String(num, s)];
    }

    /** Nests what another writer holds. */
    method MsgField(num: nat, m: Pb)
      requires Valid() && m.Valid() && m != this
      modifies this
      ensures Valid() && fields == old(fields) + [Message(num, m.fields)]
    {
      hide EncTag, EncVarint, EncFields;
      PutTag(num, LEN);
      PutVarint(|m.buf|);
      buf := buf + m.buf;
      assert buf == old(buf) + (EncTag(num, LEN) + EncVarint(|m.buf|) + m.buf);
      EncFieldsSnoc(fields, Message(num, m.fields));
      fields := fields + [Message(num, m.fields)];
    }
  }
}
