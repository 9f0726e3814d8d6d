/** The Perfetto trace file (TraceWriter in src/trace_writer.h, WritePerfetto in src/trace_writer.cpp): which
    packets it holds, and what a reader of the file gets back. */
module TraceWriters {
  import opened Model
  import opened OrderedMap
  import opened Sequences
  import opened SliceEvents
  import opened Wire
  import AqlPackets
  import SdmaPackets
  import Text

  // Field numbers of the Perfetto schema.
  const TRACE_PACKET: nat := 1
  const TIMESTAMP: nat := 8
  const SEQ_ID: nat := 10
  const TRACK_EVENT: nat := 11
  const TRACK_DESCRIPTOR: nat := 60
  const TD_UUID: nat := 1
  const TD_NAME: nat := 2
  const TD_PROCESS: nat := 3
  const TD_PARENT: nat := 5
  const PD_PID: nat := 1
  const PD_NAME: nat := 6
  const TE_TYPE: nat := 9
  const TE_TRACK: nat := 11
  const TE_NAME: nat := 23
  const TE_DEBUG: nat := 4
  const DA_NAME: nat := 10
  const DA_STR: nat := 6
  const DA_UINT: nat := 4
  const SLICE_BEGIN: u64 := 1
  const SLICE_END: u64 := 2
  const SEQUENCE: u64 := 1

  const FLAT := Schema(map[])
  const EVENT_SCHEMA := Schema(map[TE_DEBUG := FLAT])
  const DESCRIPTOR_SCHEMA := Schema(map[TD_PROCESS := FLAT])
  const PACKET_SCHEMA := Schema(map[TRACK_EVENT := EVENT_SCHEMA, TRACK_DESCRIPTOR := DESCRIPTOR_SCHEMA])
  const TRACE_SCHEMA := Schema(map[TRACE_PACKET := PACKET_SCHEMA])

  /** What `queues_[uid]` creates for a queue that was never registered. */
  const NO_QUEUE := QueueInfo(0, 0, 0, Unknown, 0, [], 0, 0, 0, 0.0)

  // ---- What is written ----

  function TrackUuid(uid: u64): u64 {
    Wrap(0x5100_0000 + uid)
  }

  function Label(q: QueueInfo): Bytes {
    Ascii(if q.IsSdma() then "sdma" else "aql") + Ascii(" queue ") + Text.Decimal(q.uid) + Ascii(" (gpu ") +
    Text.Decimal(q.gpuId) + Ascii(")")
  }

  function Dims(x: nat, y: nat, z: nat): Bytes {
    Text.Decimal(x) + Ascii(" x ") + Text.Decimal(y) + Ascii(" x ") + Text.Decimal(z)
  }

  function DirName(d: CopyDir): string {
    match d
    case HostToDevice => "h2d"
    case DeviceToHost => "d2h"
    case DeviceToDevice => "d2d"
    case HostToHost => "h2h"
    case UnknownDir => "unknown"
  }

  function ProcessPacket(q: QueueInfo): Field {
    Message(TRACE_PACKET, [Message(TRACK_DESCRIPTOR, [Varint(TD_UUID, q.pid),
                                                      Message(TD_PROCESS, [Varint(PD_PID, q.pid), String(PD_NAME, q.comm)])])])
  }

  function QueuePacket(q: QueueInfo): Field {
    Message(TRACE_PACKET, [Message(TRACK_DESCRIPTOR, [Varint(TD_UUID, TrackUuid(q.uid)), String(TD_NAME, Label(q)),
                                                      Varint(TD_PARENT, q.pid)])])
  }

  /** No earlier queue of the registry belongs to the same process. */
  predicate NewPid(qs: seq<Entry<QueueInfo>>, i: nat)
    requires i < |qs|
  {
    forall j :: 0 <= j < i ==> qs[j].val.pid != qs[i].val.pid
  }

  /** Track descriptors: one per process, in front of its first queue, and one per queue. */
  function Descriptors(qs: seq<Entry<QueueInfo>>, n: nat): seq<Field>
    requires n <= |qs|
  {
    if n == 0 then []
    else
      Descriptors(qs, n - 1) + (if NewPid(qs, n - 1) then [ProcessPacket(qs[n - 1].val)] else []) +
      [QueuePacket(qs[n - 1].val)]
  }

  function DebugStr(name: string, val: Bytes): Field {
    Message(TE_DEBUG, [String(DA_NAME, Ascii(name)), String(DA_STR, val)])
  }

  function DebugUint(name: string, val: u64): Field {
    Message(TE_DEBUG, [String(DA_NAME, Ascii(name)), Varint(DA_UINT, val)])
  }

  function EventHead(uid: u64, begin: bool): seq<Field> {
    [Varint(TE_TRACK, TrackUuid(uid))] + [Varint(TE_TYPE, if begin then SLICE_BEGIN else SLICE_END)]
  }

  function WithDispatch(fs: seq<Field>, d: Dispatch): seq<Field> {
    fs + [DebugStr("grid", Dims(d.grid.0, d.grid.1, d.grid.2))] + [DebugStr("workgroup", Dims(d.wg.0, d.wg.1, d.wg.2))] +
    [DebugUint("kernel_object", d.kernelObject)] + [DebugUint("group_seg", d.groupSeg)] +
    [DebugUint("private_seg", d.privateSeg)] + [DebugUint("completion_signal", d.completionSignal)]
  }

  function PhysOf(qs: seq<Entry<QueueInfo>>, uid: u64): u64 {
    match Find(qs, uid)
    case Some(q) => q.ringPhys
    case None => 0
  }

  predicate DispatchLike(t: u8) {
    t == AqlPackets.KERNEL_DISPATCH || t == AqlPackets.VENDOR_SPECIFIC
  }

  /** The track event of one begin or end of an AQL packet's slice. */
  function AqlTrackEvent(r: PacketRecord, phys: u64, begin: bool): seq<Field> {
    var head := EventHead(r.queueUid, begin);
    if !begin then head
    else
      var named := head + [String(TE_NAME, r.kernelName)] + [DebugStr("type", Ascii(AqlPackets.PacketTypeName(r.ptype)))] +
                   [DebugUint("dispatch_id", r.dispatchId)];
      var full := if DispatchLike(r.ptype) then WithDispatch(named, r.dispatch) else named;
      if phys != 0 then full + [DebugUint("ring_phys", phys)] else full
  }

  predicate IsCopy(r: SdmaRecord) {
    r.opcode == SdmaPackets.OP_COPY
  }

  function WithCopy(fs: seq<Field>, r: SdmaRecord): seq<Field> {
    fs + [DebugUint("bytes", r.bytes)] + [DebugStr("direction", Ascii(DirName(r.dir)))] + [DebugUint("src", r.src)] +
    [DebugUint("dst", r.dst)]
  }

  function SdmaTrackEvent(r: SdmaRecord, begin: bool): seq<Field> {
    var head := EventHead(r.queueUid, begin);
    if !begin then head
    else
      var named := head + [String(TE_NAME, r.opName)] + [DebugUint("opcode", r.opcode)] + [DebugUint("seq", r.seqNo)];
      if IsCopy(r) then WithCopy(named, r) else named
  }

  function EventPacket(ts: int, te: seq<Field>): Field {
    Message(TRACE_PACKET, [Varint(TIMESTAMP, Wrap(ts))] + [Message(TRACK_EVENT, te)] + [Varint(SEQ_ID, SEQUENCE)])
  }

  function AqlSlices(rs: seq<PacketRecord>): (ss: seq<Slice>)
    ensures |ss| == |rs|
  {
    seq(|rs|, i requires 0 <= i < |rs| => Slice(TrackUuid(rs[i].queueUid), rs[i].submitTs, rs[i].completeTs))
  }

  function SdmaSlices(rs: seq<SdmaRecord>): (ss: seq<Slice>)
    ensures |ss| == |rs|
  {
    seq(|rs|, i requires 0 <= i < |rs| => Slice(TrackUuid(rs[i].queueUid), rs[i].submitTs, rs[i].completeTs))
  }

  predicate Within(evs: seq<Ev>, n: nat) {
    forall i :: 0 <= i < |evs| ==> evs[i].rec < n
  }

  function AqlEvents(qs: seq<Entry<QueueInfo>>, rs: seq<PacketRecord>, evs: seq<Ev>): seq<Field>
    requires Within(evs, |rs|)
  {
    if evs == [] then []
    else
      var e := evs[|evs| - 1];
      AqlEvents(qs, rs, evs[..|evs| - 1]) +
      [EventPacket(e.ts, AqlTrackEvent(rs[e.rec], PhysOf(qs, rs[e.rec].queueUid), e.begin))]
  }

  function SdmaEvents(rs: seq<SdmaRecord>, evs: seq<Ev>): seq<Field>
    requires Within(evs, |rs|)
  {
    if evs == [] then []
    else
      var e := evs[|evs| - 1];
      SdmaEvents(rs, evs[..|evs| - 1]) + [EventPacket(e.ts, SdmaTrackEvent(rs[e.rec], e.begin))]
  }

  lemma WrittenWithin(slices: seq<Slice>)
    ensures Within(Written(slices), |slices|)
  {
    SortArranges(slices);
    ArrangedAre(slices, Written(slices));
  }

  /** The whole trace as a list of packets. */
  function Trace(qs: seq<Entry<QueueInfo>>, rs: seq<PacketRecord>, ss: seq<SdmaRecord>): seq<Field> {
    WrittenWithin(AqlSlices(rs));
    WrittenWithin(SdmaSlices(ss));
    Descriptors(qs, |qs|) + AqlEvents(qs, rs, Written(AqlSlices(rs))) + SdmaEvents(ss, Written(SdmaSlices(ss)))
  }

  // ---- Every packet follows the schema ----

  lemma ConformsSnoc(schema: Schema, fs: seq<Field>, f: Field)
    requires Conforms(schema, fs) && FieldConforms(schema, f)
    ensures Conforms(schema, fs + [f])
  {
    hide FieldConforms;
  }

  lemma ConformsAppend(schema: Schema, a: seq<Field>, b: seq<Field>)
    requires Conforms(schema, a) && Conforms(schema, b)
    ensures Conforms(schema, a + b)
  {
    hide FieldConforms;
  }

  lemma DebugConforms(name: string, val: Bytes, n: u64)
    ensures FieldConforms(EVENT_SCHEMA, DebugStr(name, val))
    ensures FieldConforms(EVENT_SCHEMA, DebugUint(name, n))
  {
    assert forall s: Bytes, k | k == DA_NAME || k == DA_STR :: FieldConforms(FLAT, String(k, s));
    assert FieldConforms(FLAT, Varint(DA_UINT, n));
  }

  lemma HeadConforms(uid: u64, begin: bool, name: Bytes)
    ensures Conforms(EVENT_SCHEMA, EventHead(uid, begin))
    ensures FieldConforms(EVENT_SCHEMA, String(TE_NAME, name))
  {
    assert FieldConforms(EVENT_SCHEMA, Varint(TE_TRACK, TrackUuid(uid)));
  }

  lemma DispatchConforms(fs: seq<Field>, d: Dispatch)
    requires Conforms(EVENT_SCHEMA, fs)
    ensures Conforms(EVENT_SCHEMA, WithDispatch(fs, d))
  {
    hide Conforms, FieldConforms, DebugStr, DebugUint, Dims;
    DebugConforms("grid", Dims(d.grid.0, d.grid.1, d.grid.2), 0);
    DebugConforms("workgroup", Dims(d.wg.0, d.wg.1, d.wg.2), 0);
    DebugConforms("kernel_object", [], d.kernelObject);
    DebugConforms("group_seg", [], d.groupSeg);
    DebugConforms("private_seg", [], d.privateSeg);
    DebugConforms("completion_signal", [], d.completionSignal);
    var a := fs + [DebugStr("grid", Dims(d.grid.0, d.grid.1, d.grid.2))];
    ConformsSnoc(EVENT_SCHEMA, fs, DebugStr("grid", Dims(d.grid.0, d.grid.1, d.grid.2)));
    var b := a + [DebugStr("workgroup", Dims(d.wg.0, d.wg.1, d.wg.2))];
    ConformsSnoc(EVENT_SCHEMA, a, DebugStr("workgroup", Dims(d.wg.0, d.wg.1, d.wg.2)));
    ConformsSnoc(EVENT_SCHEMA, b, DebugUint("kernel_object", d.kernelObject));
    var c := b + [DebugUint("kernel_object", d.kernelObject)];
    ConformsSnoc(EVENT_SCHEMA, c, DebugUint("group_seg", d.groupSeg));
    var e := c + [DebugUint("group_seg", d.groupSeg)];
    ConformsSnoc(EVENT_SCHEMA, e, DebugUint("private_seg", d.privateSeg));
    ConformsSnoc(EVENT_SCHEMA, e + [DebugUint("private_seg", d.privateSeg)], DebugUint("completion_signal", d.completionSignal));
  }

  lemma CopyConforms(fs: seq<Field>, r: SdmaRecord)
    requires Conforms(EVENT_SCHEMA, fs)
    ensures Conforms(EVENT_SCHEMA, WithCopy(fs, r))
  {
    hide Conforms, FieldConforms, DebugStr, DebugUint, DirName, Ascii;
    DebugConforms("bytes", [], r.bytes);
    DebugConforms("direction", Ascii(DirName(r.dir)), 0);
    DebugConforms("src", [], r.src);
    DebugConforms("dst", [], r.dst);
    var a := fs + [DebugUint("bytes", r.bytes)];
    ConformsSnoc(EVENT_SCHEMA, fs, DebugUint("bytes", r.bytes));
    var b := a + [DebugStr("direction", Ascii(DirName(r.dir)))];
    ConformsSnoc(EVENT_SCHEMA, a, DebugStr("direction", Ascii(DirName(r.dir))));
    ConformsSnoc(EVENT_SCHEMA, b, DebugUint("src", r.src));
    ConformsSnoc(EVENT_SCHEMA, b + [DebugUint("src", r.src)], DebugUint("dst", r.dst));
  }

  lemma AqlEventConforms(r: PacketRecord, phys: u64, begin: bool)
    ensures Conforms(EVENT_SCHEMA, AqlTrackEvent(r, phys, begin))
  {
    hide Conforms, FieldConforms, DebugStr, DebugUint, WithDispatch, Ascii, EventHead, AqlPackets.PacketTypeName;
    var head := EventHead(r.queueUid, begin);
    HeadConforms(r.queueUid, begin, r.kernelName);
    if begin {
      var a := head + [String(TE_NAME, r.kernelName)];
      ConformsSnoc(EVENT_SCHEMA, head, String(TE_NAME, r.kernelName));
      DebugConforms("type", Ascii(AqlPackets.PacketTypeName(r.ptype)), 0);
      DebugConforms("dispatch_id", [], r.dispatchId);
      DebugConforms("ring_phys", [], phys);
      var b := a + [DebugStr("type", Ascii(AqlPackets.PacketTypeName(r.ptype)))];
      ConformsSnoc(EVENT_SCHEMA, a, DebugStr("type", Ascii(AqlPackets.PacketTypeName(r.ptype))));
      ConformsSnoc(EVENT_SCHEMA, b, DebugUint("dispatch_id", r.dispatchId));
      var named := b + [DebugUint("dispatch_id", r.dispatchId)];
      DispatchConforms(named, r.dispatch);
      ConformsSnoc(EVENT_SCHEMA, if DispatchLike(r.ptype) then WithDispatch(named, r.dispatch) else named, DebugUint("ring_phys", phys));
    }
  }

  lemma SdmaEventConforms(r: SdmaRecord, begin: bool)
    ensures Conforms(EVENT_SCHEMA, SdmaTrackEvent(r, begin))
  {
    hide Conforms, FieldConforms, DebugUint, WithCopy, EventHead;
    var head := EventHead(r.queueUid, begin);
    HeadConforms(r.queueUid, begin, r.opName);
    if begin {
      var a := head + [String(TE_NAME, r.opName)];
      ConformsSnoc(EVENT_SCHEMA, head, String(TE_NAME, r.opName));
      DebugConforms("opcode", [], r.opcode);
      DebugConforms("seq", [], r.seqNo);
      ConformsSnoc(EVENT_SCHEMA, a, DebugUint("opcode", r.opcode));
      ConformsSnoc(EVENT_SCHEMA, a + [DebugUint("opcode", r.opcode)], DebugUint("seq", r.seqNo));
      CopyConforms(a + [DebugUint("opcode", r.opcode)] + [DebugUint("seq", r.seqNo)], r);
    }
  }

  lemma PacketConforms(ts: int, te: seq<Field>)
    requires Conforms(EVENT_SCHEMA, te)
    ensures FieldConforms(TRACE_SCHEMA, EventPacket(ts, te))
  {
    var fs := [Varint(TIMESTAMP, Wrap(ts))] + [Message(TRACK_EVENT, te)] + [Varint(SEQ_ID, SEQUENCE)];
    assert FieldConforms(PACKET_SCHEMA, fs[0]);
    assert FieldConforms(PACKET_SCHEMA, fs[1]);
    assert FieldConforms(PACKET_SCHEMA, fs[2]);
  }

  lemma ProcessConforms(q: QueueInfo)
    ensures FieldConforms(TRACE_SCHEMA, ProcessPacket(q))
  {
    var proc := [Varint(PD_PID, q.pid), String(PD_NAME, q.comm)];
    assert FieldConforms(FLAT, proc[0]) && FieldConforms(FLAT, proc[1]);
    var td := [Varint(TD_UUID, q.pid), Message(TD_PROCESS, proc)];
    assert FieldConforms(DESCRIPTOR_SCHEMA, td[0]) && FieldConforms(DESCRIPTOR_SCHEMA, td[1]);
    var pkt := [Message(TRACK_DESCRIPTOR, td)];
    assert FieldConforms(PACKET_SCHEMA, pkt[0]);
  }

  lemma QueueConforms(q: QueueInfo)
    ensures FieldConforms(TRACE_SCHEMA, QueuePacket(q))
  {
    hide Label;
    var td := [Varint(TD_UUID, TrackUuid(q.uid)), String(TD_NAME, Label(q)), Varint(TD_PARENT, q.pid)];
    assert FieldConforms(DESCRIPTOR_SCHEMA, td[0]) && FieldConforms(DESCRIPTOR_SCHEMA, td[1]) && FieldConforms(DESCRIPTOR_SCHEMA, td[2]);
    var pkt := [Message(TRACK_DESCRIPTOR, td)];
    assert FieldConforms(PACKET_SCHEMA, pkt[0]);
  }

  lemma {:induction false} DescriptorsConform(qs: seq<Entry<QueueInfo>>, n: nat)
    requires n <= |qs|
    ensures Conforms(TRACE_SCHEMA, Descriptors(qs, n))
  {
    hide FieldConforms, ProcessPacket, QueuePacket;
    if n > 0 {
      var q := qs[n - 1].val;
      DescriptorsConform(qs, n - 1);
      ProcessConforms(q);
      QueueConforms(q);
    }
  }

  lemma {:induction false} AqlEventsConform(qs: seq<Entry<QueueInfo>>, rs: seq<PacketRecord>, evs: seq<Ev>)
    requires Within(evs, |rs|)
    ensures Conforms(TRACE_SCHEMA, AqlEvents(qs, rs, evs))
  {
    hide FieldConforms, EventPacket, AqlTrackEvent;
    if evs != [] {
      var e := evs[|evs| - 1];
      var te := AqlTrackEvent(rs[e.rec], PhysOf(qs, rs[e.rec].queueUid), e.begin);
      AqlEventsConform(qs, rs, evs[..|evs| - 1]);
      AqlEventConforms(rs[e.rec], PhysOf(qs, rs[e.rec].queueUid), e.begin);
      PacketConforms(e.ts, te);
    }
  }

  lemma {:induction false} SdmaEventsConform(rs: seq<SdmaRecord>, evs: seq<Ev>)
    requires Within(evs, |rs|)
    ensures Conforms(TRACE_SCHEMA, SdmaEvents(rs, evs))
  {
    hide FieldConforms, EventPacket, SdmaTrackEvent;
    if evs != [] {
      var e := evs[|evs| - 1];
      SdmaEventsConform(rs, evs[..|evs| - 1]);
      SdmaEventConforms(rs[e.rec], e.begin);
      PacketConforms(e.ts, SdmaTrackEvent(rs[e.rec], e.begin));
    }
  }

  /** The file reads back as exactly the packets that were put into it. */
  lemma TraceReadsBack(qs: seq<Entry<QueueInfo>>, rs: seq<PacketRecord>, ss: seq<SdmaRecord>)
    requires |EncFields(Trace(qs, rs, ss))| < U64
    ensures Parse(TRACE_SCHEMA, EncFields(Trace(qs, rs, ss))) == Some(Trace(qs, rs, ss))
  {
    hide Conforms, Parse, EncFields, Descriptors, AqlEvents, SdmaEvents, Written;
    WrittenWithin(AqlSlices(rs));
    WrittenWithin(SdmaSlices(ss));
    var a, b, c := Descriptors(qs, |qs|), AqlEvents(qs, rs, Written(AqlSlices(rs))), SdmaEvents(ss, Written(SdmaSlices(ss)));
    DescriptorsConform(qs, |qs|);
    AqlEventsConform(qs, rs, Written(AqlSlices(rs)));
    SdmaEventsConform(ss, Written(SdmaSlices(ss)));
    ConformsAppend(TRACE_SCHEMA, a, b);
    ConformsAppend(TRACE_SCHEMA, a + b, c);
    ParseEncoded(TRACE_SCHEMA, Trace(qs, rs, ss));
  }

  // ---- What a reader sees on a track ----

  function VarintOf(fs: seq<Field>, num: nat): Option<u64> {
    if fs == [] then None
    else if fs[0].Varint? && fs[0].num == num then Some(fs[0].v)
    else VarintOf(fs[1..], num)
  }

  function MessageOf(fs: seq<Field>, num: nat): Option<seq<Field>> {
    if fs == [] then None
    else if fs[0].Message? && fs[0].num == num then Some(fs[0].fields)
    else MessageOf(fs[1..], num)
  }

  /** The track a packet opens (+1) or closes (-1) a slice on, as a reader of the file makes it out. */
  function Mark(p: Field, track: u64): int {
    if !p.Message? then 0
    else
      match MessageOf(p.fields, TRACK_EVENT)
      case None => 0
      case Some(te) =>
        if VarintOf(te, TE_TRACK) != Some(track) then 0
        else if VarintOf(te, TE_TYPE) == Some(SLICE_BEGIN) then 1
        else if VarintOf(te, TE_TYPE) == Some(SLICE_END) then -1
        else 0
  }

  function OpenOn(ps: seq<Field>, track: u64): int {
    if ps == [] then 0 else OpenOn(ps[..|ps| - 1], track) + Mark(ps[|ps| - 1], track)
  }

  lemma {:induction false} OpenOnAppend(a: seq<Field>, b: seq<Field>, track: u64)
    ensures OpenOn(a + b, track) == OpenOn(a, track) + OpenOn(b, track)
  {
    if b == [] {
      assert a + b == a;
    } else {
      OpenOnAppend(a, b[..|b| - 1], track);
      assert (a + b)[..|a + b| - 1] == a + b[..|b| - 1];
    }
  }

  lemma HeadRead(uid: u64, begin: bool, rest: seq<Field>)
    ensures VarintOf(EventHead(uid, begin) + rest, TE_TRACK) == Some(TrackUuid(uid))
    ensures VarintOf(EventHead(uid, begin) + rest, TE_TYPE) == Some(if begin then SLICE_BEGIN else SLICE_END)
  {
    var fs := EventHead(uid, begin) + rest;
    assert fs[0] == Varint(TE_TRACK, TrackUuid(uid));
    assert fs[1..][0] == Varint(TE_TYPE, if begin then SLICE_BEGIN else SLICE_END);
  }

  lemma PacketRead(ts: int, te: seq<Field>)
    ensures MessageOf(EventPacket(ts, te).fields, TRACK_EVENT) == Some(te)
  {
    var fs := EventPacket(ts, te).fields;
    assert fs[1..][0] == Message(TRACK_EVENT, te);
  }

  lemma MarkIs(ts: int, uid: u64, begin: bool, te: seq<Field>, track: u64)
    requires EventHead(uid, begin) <= te
    ensures Mark(EventPacket(ts, te), track) == if TrackUuid(uid) != track then 0 else if begin then 1 else -1
  {
    hide VarintOf, MessageOf, EventHead;
    var head := EventHead(uid, begin);
    assert te == head + te[|head|..];
    HeadRead(uid, begin, te[|head|..]);
    PacketRead(ts, te);
  }

  lemma AqlHead(r: PacketRecord, phys: u64, begin: bool)
    ensures EventHead(r.queueUid, begin) <= AqlTrackEvent(r, phys, begin)
  {
    hide EventHead, DebugStr, DebugUint, Dims, Ascii, AqlPackets.PacketTypeName;
  }

  lemma SdmaHead(r: SdmaRecord, begin: bool)
    ensures EventHead(r.queueUid, begin) <= SdmaTrackEvent(r, begin)
  {
    hide EventHead, DebugStr, DebugUint, Ascii, DirName;
  }

  lemma {:induction false} AqlDepth(qs: seq<Entry<QueueInfo>>, rs: seq<PacketRecord>, evs: seq<Ev>, track: u64)
    requires Within(evs, |rs|) && AreEvents(AqlSlices(rs), evs)
    ensures OpenOn(AqlEvents(qs, rs, evs), track) == Depth(AqlSlices(rs), evs, track)
  {
    hide AqlTrackEvent, EventPacket, Mark, EventHead, IsEvent;
    if evs != [] {
      var e := evs[|evs| - 1];
      var te := AqlTrackEvent(rs[e.rec], PhysOf(qs, rs[e.rec].queueUid), e.begin);
      AqlDepth(qs, rs, evs[..|evs| - 1], track);
      AqlHead(rs[e.rec], PhysOf(qs, rs[e.rec].queueUid), e.begin);
      MarkIs(e.ts, rs[e.rec].queueUid, e.begin, te, track);
    }
  }

  lemma {:induction false} SdmaDepth(rs: seq<SdmaRecord>, evs: seq<Ev>, track: u64)
    requires Within(evs, |rs|) && AreEvents(SdmaSlices(rs), evs)
    ensures OpenOn(SdmaEvents(rs, evs), track) == Depth(SdmaSlices(rs), evs, track)
  {
    hide SdmaTrackEvent, EventPacket, Mark, EventHead, IsEvent;
    if evs != [] {
      var e := evs[|evs| - 1];
      var te := SdmaTrackEvent(rs[e.rec], e.begin);
      SdmaDepth(rs, evs[..|evs| - 1], track);
      SdmaHead(rs[e.rec], e.begin);
      MarkIs(e.ts, rs[e.rec].queueUid, e.begin, te, track);
    }
  }

  lemma {:induction false} DescriptorsOpenNothing(qs: seq<Entry<QueueInfo>>, n: nat, k: nat, track: u64)
    requires n <= |qs| && k <= |Descriptors(qs, n)|
    ensures OpenOn(Descriptors(qs, n)[..k], track) == 0
    decreases n, k
  {
    if k > 0 {
      DescriptorsOpenNothing(qs, n, k - 1, track);
      var ds := Descriptors(qs, n);
      assert ds[..k][..k - 1] == ds[..k - 1];
      DescriptorIsDescriptor(qs, n, k - 1, track);
    }
  }

  lemma DescriptorMark(q: QueueInfo, track: u64)
    ensures Mark(ProcessPacket(q), track) == 0 && Mark(QueuePacket(q), track) == 0
  {
    hide Label;
    assert MessageOf(ProcessPacket(q).fields, TRACK_EVENT).None?;
    assert MessageOf(QueuePacket(q).fields, TRACK_EVENT).None?;
  }

  lemma {:induction false} DescriptorIsDescriptor(qs: seq<Entry<QueueInfo>>, n: nat, k: nat, track: u64)
    requires n <= |qs| && k < |Descriptors(qs, n)|
    ensures Mark(Descriptors(qs, n)[k], track) == 0
  {
    hide Mark, ProcessPacket, QueuePacket;
    var before := Descriptors(qs, n - 1);
    DescriptorMark(qs[n - 1].val, track);
    if k < |before| {
      DescriptorIsDescriptor(qs, n - 1, k, track);
      assert Descriptors(qs, n)[k] == before[k];
    }
  }

  lemma {:induction false} AqlEventsPrefix(qs: seq<Entry<QueueInfo>>, rs: seq<PacketRecord>, evs: seq<Ev>, k: nat)
    requires Within(evs, |rs|) && k <= |evs|
    ensures |AqlEvents(qs, rs, evs)| == |evs|
    ensures AqlEvents(qs, rs, evs)[..k] == AqlEvents(qs, rs, evs[..k])
  {
    hide EventPacket, AqlTrackEvent, PhysOf;
    if k < |evs| {
      AqlEventsPrefix(qs, rs, evs[..|evs| - 1], k);
      assert evs[..|evs| - 1][..k] == evs[..k];
    } else if k > 0 {
      AqlEventsPrefix(qs, rs, evs[..|evs| - 1], k - 1);
      assert evs[..k] == evs;
    }
  }

  lemma {:induction false} SdmaEventsPrefix(rs: seq<SdmaRecord>, evs: seq<Ev>, k: nat)
    requires Within(evs, |rs|) && k <= |evs|
    ensures |SdmaEvents(rs, evs)| == |evs|
    ensures SdmaEvents(rs, evs)[..k] == SdmaEvents(rs, evs[..k])
  {
    hide EventPacket, SdmaTrackEvent;
    if k < |evs| {
      SdmaEventsPrefix(rs, evs[..|evs| - 1], k);
      assert evs[..|evs| - 1][..k] == evs[..k];
    } else if k > 0 {
      SdmaEventsPrefix(rs, evs[..|evs| - 1], k - 1);
      assert evs[..k] == evs;
    }
  }

  lemma AqlBalanced(qs: seq<Entry<QueueInfo>>, rs: seq<PacketRecord>, track: u64, k: nat)
    requires Within(Written(AqlSlices(rs)), |rs|) && k <= |AqlEvents(qs, rs, Written(AqlSlices(rs)))|
    ensures OpenOn(AqlEvents(qs, rs, Written(AqlSlices(rs)))[..k], track) >= 0
    ensures OpenOn(AqlEvents(qs, rs, Written(AqlSlices(rs))), track) == 0
  {
    hide AqlEvents, OpenOn, Depth, Arranges, StableSort, Events, IsEvent;
    var slices := AqlSlices(rs);
    var evs := Written(slices);
    AqlEventsPrefix(qs, rs, evs, 0);
    AqlEventsPrefix(qs, rs, evs, k);
    SortArranges(slices);
    Balanced(slices, evs, track, k);
    AqlDepth(qs, rs, evs[..k], track);
    AqlDepth(qs, rs, evs, track);
  }

  lemma SdmaBalanced(rs: seq<SdmaRecord>, track: u64, k: nat)
    requires Within(Written(SdmaSlices(rs)), |rs|) && k <= |SdmaEvents(rs, Written(SdmaSlices(rs)))|
    ensures OpenOn(SdmaEvents(rs, Written(SdmaSlices(rs)))[..k], track) >= 0
    ensures OpenOn(SdmaEvents(rs, Written(SdmaSlices(rs))), track) == 0
  {
    hide SdmaEvents, OpenOn, Depth, Arranges, StableSort, Events, IsEvent;
    var slices := SdmaSlices(rs);
    var evs := Written(slices);
    SdmaEventsPrefix(rs, evs, 0);
    SdmaEventsPrefix(rs, evs, k);
    SortArranges(slices);
    Balanced(slices, evs, track, k);
    SdmaDepth(rs, evs[..k], track);
    SdmaDepth(rs, evs, track);
  }

  lemma PrefixOfThree<T>(a: seq<T>, b: seq<T>, c: seq<T>, k: nat)
    requires k <= |a + b + c|
    ensures k <= |a| ==> (a + b + c)[..k] == a[..k]
    ensures |a| < k <= |a| + |b| ==> (a + b + c)[..k] == a + b[..k - |a|]
    ensures |a| + |b| < k ==> (a + b + c)[..k] == a + b + c[..k - |a| - |b|]
  {
  }

  /** A reader going through the file front to back never sees a slice end on a track without an open one, and
      finds every slice closed at the end. */
  lemma TraceBalanced(qs: seq<Entry<QueueInfo>>, rs: seq<PacketRecord>, ss: seq<SdmaRecord>, track: u64, k: nat)
    requires k <= |Trace(qs, rs, ss)|
    ensures OpenOn(Trace(qs, rs, ss)[..k], track) >= 0
    ensures OpenOn(Trace(qs, rs, ss), track) == 0
  {
    hide Descriptors, AqlEvents, SdmaEvents, OpenOn, Written;
    WrittenWithin(AqlSlices(rs));
    WrittenWithin(SdmaSlices(ss));
    var a, b, c := Descriptors(qs, |qs|), AqlEvents(qs, rs, Written(AqlSlices(rs))), SdmaEvents(ss, Written(SdmaSlices(ss)));
    assert a[..|a|] == a;
    DescriptorsOpenNothing(qs, |qs|, |a|, track);
    AqlBalanced(qs, rs, track, 0);
    SdmaBalanced(ss, track, 0);
    OpenOnAppend(a, b, track);
    OpenOnAppend(a + b, c, track);
    PrefixOfThree(a, b, c, k);
    if k <= |a| {
      DescriptorsOpenNothing(qs, |qs|, k, track);
    } else if k <= |a| + |b| {
      AqlBalanced(qs, rs, track, k - |a|);
      OpenOnAppend(a, b[..k - |a|], track);
    } else {
      SdmaBalanced(ss, track, k - |a| - |b|);
      OpenOnAppend(a + b, c[..k - |a| - |b|], track);
    }
  }

  // ---- Track descriptors ----

  function ProcessesOf(ps: seq<Field>, pid: u32): nat {
    if ps == [] then 0 else ProcessesOf(ps[..|ps| - 1], pid) + (if DescribesProcess(ps[|ps| - 1], pid) then 1 else 0)
  }

  /** How a reader recognises a process track. */
  predicate DescribesProcess(p: Field, pid: u32) {
    && p.Message?
    && match MessageOf(p.fields, TRACK_DESCRIPTOR)
       case None => false
       case Some(td) => MessageOf(td, TD_PROCESS).Some? && VarintOf(td, TD_UUID) == Some(pid)
  }

  lemma DescribesIs(q: QueueInfo, pid: u32)
    ensures DescribesProcess(ProcessPacket(q), pid) <==> q.pid == pid
    ensures !DescribesProcess(QueuePacket(q), pid)
  {
    hide Label;
    var ptd := ProcessPacket(q).fields[0].fields;
    assert MessageOf(ProcessPacket(q).fields, TRACK_DESCRIPTOR) == Some(ptd);
    assert VarintOf(ptd, TD_UUID) == Some(q.pid);
    assert MessageOf(ptd[1..], TD_PROCESS).Some?;
    var td := [Varint(TD_UUID, TrackUuid(q.uid)), String(TD_NAME, Label(q)), Varint(TD_PARENT, q.pid)];
    assert MessageOf(td, TD_PROCESS).None? by {
      assert td[1..][1..] == td[2..] && td[2..][1..] == [];
      assert MessageOf(td[2..], TD_PROCESS).None?;
      assert MessageOf(td[1..], TD_PROCESS).None?;
    }
  }

  predicate HasPid(qs: seq<Entry<QueueInfo>>, n: nat, pid: u32)
    requires n <= |qs|
  {
    exists i :: 0 <= i < n && qs[i].val.pid == pid
  }

  lemma HasPidGrows(qs: seq<Entry<QueueInfo>>, n: nat, pid: u32)
    requires 0 < n <= |qs|
    ensures HasPid(qs, n, pid) <==> HasPid(qs, n - 1, pid) || qs[n - 1].val.pid == pid
    ensures qs[n - 1].val.pid == pid ==> (NewPid(qs, n - 1) <==> !HasPid(qs, n - 1, pid))
  {
    if HasPid(qs, n - 1, pid) {
      var i :| 0 <= i < n - 1 && qs[i].val.pid == pid;
      assert qs[i].val.pid == pid;
    }
  }

  /** Every process that owns a queue gets exactly one process track, and no other process gets one. */
  lemma {:induction false} OneTrackPerProcess(qs: seq<Entry<QueueInfo>>, n: nat, pid: u32)
    requires n <= |qs|
    ensures ProcessesOf(Descriptors(qs, n), pid) == if HasPid(qs, n, pid) then 1 else 0
  {
    hide DescribesProcess, ProcessPacket, QueuePacket, NewPid;
    if n > 0 {
      var before, q := Descriptors(qs, n - 1), qs[n - 1].val;
      OneTrackPerProcess(qs, n - 1, pid);
      HasPidGrows(qs, n, pid);
      DescribesIs(q, pid);
      ProcessesSnoc(before, ProcessPacket(q), pid);
      ProcessesSnoc(if NewPid(qs, n - 1) then before + [ProcessPacket(q)] else before, QueuePacket(q), pid);
      assert before + [] == before;
    }
  }

  lemma ProcessesSnoc(ps: seq<Field>, p: Field, pid: u32)
    ensures ProcessesOf(ps + [p], pid) == ProcessesOf(ps, pid) + if DescribesProcess(p, pid) then 1 else 0
  {
    assert (ps + [p])[..|ps|] == ps;
  }

  // ---- The registry ----

  /** What looking up the queue of every begin event in turn does to the registry. */
  function Touched(qs: seq<Entry<QueueInfo>>, rs: seq<PacketRecord>, evs: seq<Ev>): seq<Entry<QueueInfo>>
    requires Within(evs, |rs|)
  {
    if evs == [] then qs
    else
      var e, before := evs[|evs| - 1], Touched(qs, rs, evs[..|evs| - 1]);
      if e.begin then Emplace(before, rs[e.rec].queueUid, NO_QUEUE) else before
  }

  /** Looking queues up never changes what is found: at most empty entries appear, and none do when every record's
      queue was registered. */
  lemma {:induction false} TouchedFinds(qs: seq<Entry<QueueInfo>>, rs: seq<PacketRecord>, evs: seq<Ev>, uid: u64)
    requires Within(evs, |rs|) && Sorted(qs)
    ensures Sorted(Touched(qs, rs, evs))
    ensures PhysOf(Touched(qs, rs, evs), uid) == PhysOf(qs, uid)
    ensures (forall i :: 0 <= i < |rs| ==> Find(qs, rs[i].queueUid).Some?) ==> Touched(qs, rs, evs) == qs
  {
    hide Emplace, Find, Sorted;
    if evs != [] {
      var e, before := evs[|evs| - 1], Touched(qs, rs, evs[..|evs| - 1]);
      TouchedFinds(qs, rs, evs[..|evs| - 1], uid);
      EmplaceFinds(before, rs[e.rec].queueUid, NO_QUEUE, uid);
      EmplaceSorted(before, rs[e.rec].queueUid, NO_QUEUE);
      if Find(qs, rs[e.rec].queueUid).Some? && before == qs {
        EmplacePresent(before, rs[e.rec].queueUid, NO_QUEUE);
      }
    }
  }

  // ---- The writer ----

  method NewDebugStr(name: string, val: Bytes) returns (d: Pb)
    ensures fresh(d) && d.Valid() && Message(TE_DEBUG, d.fields) == DebugStr(name, val)
  {
    d := new Pb();
    d.StringField(DA_NAME, Ascii(name));
    d.StringField(DA_STR, val);
    assert d.fields == [String(DA_NAME, Ascii(name)), String(DA_STR, val)];
  }

  method NewDebugUint(name: string, val: u64) returns (d: Pb)
    ensures fresh(d) && d.Valid() && Message(TE_DEBUG, d.fields) == DebugUint(name, val)
  {
    d := new Pb();
    d.StringField(DA_NAME, Ascii(name));
    d.VarintField(DA_UINT, val);
    assert d.fields == [String(DA_NAME, Ascii(name)), Varint(DA_UINT, val)];
  }

  method PutDebugStr(te: Pb, name: string, val: Bytes)
    requires te.Valid()
    modifies te
    ensures te.Valid() && te.fields == old(te.fields) + [DebugStr(name, val)]
  {
    hide DebugStr;
    var d := NewDebugStr(name, val);
    te.MsgField(TE_DEBUG, d);
  }

  method PutDebugUint(te: Pb, name: string, val: u64)
    requires te.Valid()
    modifies te
    ensures te.Valid() && te.fields == old(te.fields) + [DebugUint(name, val)]
  {
    hide DebugUint;
    var d := NewDebugUint(name, val);
    te.MsgField(TE_DEBUG, d);
  }

  method PutDispatch(te: Pb, d: Dispatch)
    requires te.Valid()
    modifies te
    ensures te.Valid() && te.fields == WithDispatch(old(te.fields), d)
  {
    hide DebugStr, DebugUint, Dims, EncFields;
    PutDebugStr(te, "grid", Dims(d.grid.0, d.grid.1, d.grid.2));
    PutDebugStr(te, "workgroup", Dims(d.wg.0, d.wg.1, d.wg.2));
    PutDebugUint(te, "kernel_object", d.kernelObject);
    PutDebugUint(te, "group_seg", d.groupSeg);
    PutDebugUint(te, "private_seg", d.privateSeg);
    PutDebugUint(te, "completion_signal", d.completionSignal);
  }

  method PutCopy(te: Pb, r: SdmaRecord)
    requires te.Valid()
    modifies te
    ensures te.Valid() && te.fields == WithCopy(old(te.fields), r)
  {
    hide DebugStr, DebugUint, EncFields, Ascii;
    PutDebugUint(te, "bytes", r.bytes);
    PutDebugStr(te, "direction", Ascii(DirName(r.dir)));
    PutDebugUint(te, "src", r.src);
    PutDebugUint(te, "dst", r.dst);
  }

  method NewTrackEvent(uid: u64, begin: bool) returns (te: Pb)
    ensures fresh(te) && te.Valid() && te.fields == EventHead(uid, begin)
  {
    te := new Pb();
    te.VarintField(TE_TRACK, TrackUuid(uid));
    te.VarintField(TE_TYPE, if begin then SLICE_BEGIN else SLICE_END);
  }

  method PutPacket(trace: Pb, ts: int, te: Pb)
    requires trace.Valid() && te.Valid() && trace != te
    modifies trace
    ensures trace.Valid() && trace.fields == old(trace.fields) + [EventPacket(ts, te.fields)]
  {
    var pkt := new Pb();
    pkt.VarintField(TIMESTAMP, Wrap(ts));
    pkt.MsgField(TRACK_EVENT, te);
    pkt.VarintField(SEQ_ID, SEQUENCE);
    assert pkt.fields == [Varint(TIMESTAMP, Wrap(ts))] + [Message(TRACK_EVENT, te.fields)] + [Varint(SEQ_ID, SEQUENCE)];
    trace.MsgField(TRACE_PACKET, pkt);
  }

  method PutDescriptor(trace: Pb, td: Pb)
    requires trace.Valid() && td.Valid() && trace != td
    modifies trace
    ensures trace.Valid()
    ensures trace.fields == old(trace.fields) + [Message(TRACE_PACKET, [Message(TRACK_DESCRIPTOR, td.fields)])]
  {
    var pkt := new Pb();
    pkt.MsgField(TRACK_DESCRIPTOR, td);
    assert pkt.fields == [Message(TRACK_DESCRIPTOR, td.fields)];
    trace.MsgField(TRACE_PACKET, pkt);
  }

  method PutProcess(trace: Pb, q: QueueInfo)
    requires trace.Valid()
    modifies trace
    ensures trace.Valid() && trace.fields == old(trace.fields) + [ProcessPacket(q)]
  {
    hide EncFields;
    var proc := new Pb();
    proc.VarintField(PD_PID, q.pid);
    proc.StringField(PD_NAME, q.comm);
    assert proc.fields == [Varint(PD_PID, q.pid), String(PD_NAME, q.comm)];
    var td := new Pb();
    td.VarintField(TD_UUID, q.pid);
    td.MsgField(TD_PROCESS, proc);
    assert td.fields == [Varint(TD_UUID, q.pid), Message(TD_PROCESS, proc.fields)];
    PutDescriptor(trace, td);
  }

  method PutQueue(trace: Pb, q: QueueInfo)
    requires trace.Valid()
    modifies trace
    ensures trace.Valid() && trace.fields == old(trace.fields) + [QueuePacket(q)]
  {
    hide EncFields, Label;
    var td := new Pb();
    td.VarintField(TD_UUID, TrackUuid(q.uid));
    td.StringField(TD_NAME, Label(q));
    td.VarintField(TD_PARENT, q.pid);
    assert td.fields == [Varint(TD_UUID, TrackUuid(q.uid)), String(TD_NAME, Label(q)), Varint(TD_PARENT, q.pid)];
    PutDescriptor(trace, td);
  }

  class TraceWriter {
    /** uid -> info, in key order. */
    var queues: seq<Entry<QueueInfo>>
    var records: seq<PacketRecord>
    var sdmaRecords: seq<SdmaRecord>

    ghost predicate Valid()
      reads this
    {
      Sorted(queues)
    }

    constructor ()
      ensures Valid() && queues == [] && records == [] && sdmaRecords == []
    {
      queues, records, sdmaRecords := [], [], [];
    }

    method Add(r: PacketRecord)
      modifies this`records
      ensures records == old(records) + [r]
    {
      records := records + [r];
    }

    method AddSdma(r: SdmaRecord)
      modifies this`sdmaRecords
      ensures sdmaRecords == old(sdmaRecords) + [r]
    {
      sdmaRecords := sdmaRecords + [r];
    }

    method RegisterQueue(q: QueueInfo)
      requires Valid()
      modifies this`queues
      ensures Valid()
      ensures forall uid :: Find(queues, uid) == if uid == q.uid then Some(q) else Find(old(queues), uid)
    {
      forall uid: u64
        ensures Find(Assign(queues, q.uid, q), uid) == if uid == q.uid then Some(q) else Find(queues, uid)
        ensures Sorted(Assign(queues, q.uid, q))
      {
        AssignFinds(queues, q.uid, q, uid);
      }
      assert Sorted(Assign(queues, q.uid, q)) by {
        AssignFinds(queues, q.uid, q, 0);
      }
      queues := Assign(queues, q.uid, q);
    }

    /** `queues_[uid].ring_phys`: a look-up that registers an empty queue when there is none. */
    method RingPhys(uid: u64) returns (phys: u64)
      requires Valid()
      modifies this`queues
      ensures Valid() && queues == Emplace(old(queues), uid, NO_QUEUE) && phys == PhysOf(old(queues), uid)
    {
      EmplaceSorted(queues, uid, NO_QUEUE);
      EmplaceFinds(queues, uid, NO_QUEUE, uid);
      queues := Emplace(queues, uid, NO_QUEUE);
      phys := Find(queues, uid).value.ringPhys;
    }

    method WriteDescriptors(trace: Pb)
      requires trace.Valid() && trace.fields == []
      modifies trace
      ensures trace.Valid() && trace.fields == Descriptors(queues, |queues|)
    {
      hide EncFields, QueuePacket, ProcessPacket;
      var seenPid: set<u32> := {};
      var i := 0;
      while i < |queues|
        invariant i <= |queues| && trace.Valid() && trace.fields == Descriptors(queues, i)
        invariant seenPid == set j | 0 <= j < i :: queues[j].val.pid
      {
        var q := queues[i].val;
        if q.pid !in seenPid {
          seenPid := seenPid + {q.pid};
          PutProcess(trace, q);
        }
        PutQueue(trace, q);
        assert NewPid(queues, i) <==> q.pid !in set j | 0 <= j < i :: queues[j].val.pid;
        i := i + 1;
      }
    }

    method WriteAqlEvent(trace: Pb, r: PacketRecord, ts: int, begin: bool)
      requires Valid() && trace.Valid()
      modifies trace, this`queues
      ensures Valid() && queues == if begin then Emplace(old(queues), r.queueUid, NO_QUEUE) else old(queues)
      ensures trace.Valid()
      ensures trace.fields == old(trace.fields) + [EventPacket(ts, AqlTrackEvent(r, PhysOf(old(queues), r.queueUid), begin))]
    {
      hide EncFields, EventPacket, EventHead, DebugStr, DebugUint, WithDispatch, Ascii, Emplace, PhysOf, Sorted;
      var te := NewTrackEvent(r.queueUid, begin);
      if begin {
        te.StringField(TE_NAME, r.kernelName);
        PutDebugStr(te, "type", Ascii(AqlPackets.PacketTypeName(r.ptype)));
        PutDebugUint(te, "dispatch_id", r.dispatchId);
        if DispatchLike(r.ptype) {
          PutDispatch(te, r.dispatch);
        }
        var phys := RingPhys(r.queueUid);
        if phys != 0 {
          PutDebugUint(te, "ring_phys", phys);
        }
      }
      PutPacket(trace, ts, te);
    }

    method WriteSdmaEvent(trace: Pb, r: SdmaRecord, ts: int, begin: bool)
      requires trace.Valid()
      modifies trace
      ensures trace.Valid() && trace.fields == old(trace.fields) + [EventPacket(ts, SdmaTrackEvent(r, begin))]
    {
      hide EncFields, EventPacket, EventHead, DebugUint, WithCopy;
      var te := NewTrackEvent(r.queueUid, begin);
      if begin {
        te.StringField(TE_NAME, r.opName);
        PutDebugUint(te, "opcode", r.opcode);
        PutDebugUint(te, "seq", r.seqNo);
        if IsCopy(r) {
          PutCopy(te, r);
        }
      }
      PutPacket(trace, ts, te);
    }

    method SortedEvents(slices: seq<Slice>) returns (evs: seq<Ev>)
      ensures evs == Written(slices)
    {
      hide StableSort;
      evs := [];
      var i := 0;
      while i < |slices|
        invariant i <= |slices| && evs == Events(slices, i)
      {
        var end := slices[i].complete;
        if end - slices[i].submit < MIN_DUR {
          end := slices[i].submit + MIN_DUR;
        }
        evs := evs + [Ev(NsOf(slices[i].submit), true, i), Ev(NsOf(end), false, i)];
        i := i + 1;
      }
      evs := StableSort(evs);
    }

    method WriteAql(trace: Pb)
      requires Valid() && trace.Valid()
      requires Within(Written(AqlSlices(records)), |records|)
      modifies trace, this`queues
      ensures Valid() && queues == Touched(old(queues), records, Written(AqlSlices(records)))
      ensures trace.Valid()
      ensures trace.fields == old(trace.fields) + AqlEvents(old(queues), records, Written(AqlSlices(records)))
    {
      hide EncFields, EventPacket, AqlTrackEvent, Written, PhysOf, Emplace, Sorted;
      var evs := SortedEvents(AqlSlices(records));
      ghost var before, qs := trace.fields, queues;
      var i := 0;
      assert before + [] == before;
      while i < |evs|
        invariant i <= |evs| && trace.Valid() && Valid()
        invariant queues == Touched(qs, records, evs[..i])
        invariant trace.fields == before + AqlEvents(qs, records, evs[..i])
      {
        var e := evs[i];
        assert evs[..i + 1][..i] == evs[..i] && evs[..i + 1][i] == e;
        TouchedFinds(qs, records, evs[..i], records[e.rec].queueUid);
        Assoc(before, AqlEvents(qs, records, evs[..i]),
              [EventPacket(e.ts, AqlTrackEvent(records[e.rec], PhysOf(qs, records[e.rec].queueUid), e.begin))]);
        WriteAqlEvent(trace, records[e.rec], e.ts, e.begin);
        i := i + 1;
      }
      assert evs[..i] == evs;
    }

    method WriteSdma(trace: Pb)
      requires trace.Valid()
      requires Within(Written(SdmaSlices(sdmaRecords)), |sdmaRecords|)
      modifies trace
      ensures trace.Valid()
      ensures trace.fields == old(trace.fields) + SdmaEvents(sdmaRecords, Written(SdmaSlices(sdmaRecords)))
    {
      hide EncFields, EventPacket, SdmaTrackEvent, Written;
      var evs := SortedEvents(SdmaSlices(sdmaRecords));
      ghost var before := trace.fields;
      var i := 0;
      assert before + [] == before;
      while i < |evs|
        invariant i <= |evs| && trace.Valid()
        invariant trace.fields == before + SdmaEvents(sdmaRecords, evs[..i])
      {
        var e := evs[i];
        assert evs[..i + 1][..i] == evs[..i] && evs[..i + 1][i] == e;
        Assoc(before, SdmaEvents(sdmaRecords, evs[..i]), [EventPacket(e.ts, SdmaTrackEvent(sdmaRecords[e.rec], e.begin))]);
        WriteSdmaEvent(trace, sdmaRecords[e.rec], e.ts, e.begin);
        i := i + 1;
      }
      assert evs[..i] == evs;
    }

    /** The bytes of the trace file. */
    method WritePerfetto() returns (file: Bytes)
      requires Valid()
      modifies this`queues
      ensures Valid()
      ensures file == EncFields(Trace(old(queues), records, sdmaRecords))
      ensures forall uid :: PhysOf(queues, uid) == PhysOf(old(queues), uid)
    {
      hide EncFields, Written, Touched, PhysOf, AqlEvents, SdmaEvents, Descriptors;
      WrittenWithin(AqlSlices(records));
      WrittenWithin(SdmaSlices(sdmaRecords));
      ghost var qs := queues;
      var trace := new Pb();
      WriteDescriptors(trace);
      WriteAql(trace);
      WriteSdma(trace);
      file := trace.buf;
      forall uid
        ensures PhysOf(queues, uid) == PhysOf(qs, uid)
      {
        TouchedFinds(qs, records, Written(AqlSlices(records)), uid);
      }
    }
  }
}
