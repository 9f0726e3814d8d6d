/** What a reader of the Perfetto trace makes of it, by the field numbers of the Perfetto schema (packet: timestamp 8,
    track event 11; track event: type 9, track 11, name 23, annotations 4; annotation: name 10, string 6, unsigned 4). */
module TraceReader {
  import opened Model
  import opened SliceEvents
  import opened Wire
  import opened TraceWriters
  import opened AqlPackets
  import Text

  datatype Note = TextNote(name: Bytes, s: Bytes) | UintNote(name: Bytes, v: u64)

  /** A slice event: 1 begins a slice and 2 ends the youngest one of its track. */
  datatype Event = Event(ts: u64, track: u64, kind: u64, name: Option<Bytes>, notes: seq<Note>)

  function StringOf(fs: seq<Field>, num: nat): Option<Bytes> {
    if fs == [] then None
    else if fs[0].String? && fs[0].num == num then Some(fs[0].s)
    else StringOf(fs[1..], num)
  }

  function NoteOf(f: Field): seq<Note> {
    if !f.Message? || f.num != 4 then []
    else
      match (StringOf(f.fields, 10), StringOf(f.fields, 6), VarintOf(f.fields, 4))
      case (Some(name), Some(s), _) => [TextNote(name, s)]
      case (Some(name), None, Some(v)) => [UintNote(name, v)]
      case _ => []
  }

  function Notes(te: seq<Field>): seq<Note> {
    if te == [] then [] else Notes(te[..|te| - 1]) + NoteOf(te[|te| - 1])
  }

  function ReadEvent(p: Field): Option<Event> {
    if !p.Message? || p.num != 1 then None
    else
      match (VarintOf(p.fields, 8), MessageOf(p.fields, 11))
      case (Some(ts), Some(te)) =>
        (match (VarintOf(te, 11), VarintOf(te, 9))
         case (Some(track), Some(kind)) => Some(Event(ts, track, kind, StringOf(te, 23), Notes(te)))
         case _ => None)
      case _ => None
  }

  /** The slice events of a trace, in file order. */
  function ReadEvents(ps: seq<Field>): seq<Event> {
    if ps == [] then []
    else
      ReadEvents(ps[..|ps| - 1]) +
      match ReadEvent(ps[|ps| - 1])
      case Some(e) => [e]
      case None => []
  }

  // ---- What there should be ----

  /** A time in seconds as nanoseconds, cut to 64 bits. */
  function Stamp(sec: real): u64 {
    Wrap((sec * 1000000000.0).Floor)
  }

  /** Slices are drawn at least 100 ns wide. */
  function DrawnEnd(submit: real, complete: real): real {
    if complete > submit + 0.0000001 then complete else submit + 0.0000001
  }

  function Sizes(t: (nat, nat, nat)): Bytes {
    Text.Decimal(t.0) + Ascii(" x ") + Text.Decimal(t.1) + Ascii(" x ") + Text.Decimal(t.2)
  }

  function DispatchNotes(d: Dispatch): seq<Note> {
    [TextNote(Ascii("grid"), Sizes(d.grid)), TextNote(Ascii("workgroup"), Sizes(d.wg)),
     UintNote(Ascii("kernel_object"), d.kernelObject), UintNote(Ascii("group_seg"), d.groupSeg),
     UintNote(Ascii("private_seg"), d.privateSeg), UintNote(Ascii("completion_signal"), d.completionSignal)]
  }

  /** The annotations of an AQL packet of a queue whose ring lies at this physical address, if known. */
  function AqlNotes(r: PacketRecord, phys: u64): seq<Note> {
    [TextNote(Ascii("type"), Ascii(PacketTypeName(r.ptype))), UintNote(Ascii("dispatch_id"), r.dispatchId)] +
    (if r.ptype == 2 || r.ptype == 0 then DispatchNotes(r.dispatch) else []) +
    (if phys != 0 then [UintNote(Ascii("ring_phys"), phys)] else [])
  }

  function CopyNotes(r: SdmaRecord): seq<Note> {
    [UintNote(Ascii("bytes"), r.bytes),
     TextNote(Ascii("direction"), match r.dir
                                  case HostToDevice => Ascii("h2d")
                                  case DeviceToHost => Ascii("d2h")
                                  case DeviceToDevice => Ascii("d2d")
                                  case HostToHost => Ascii("h2h")
                                  case UnknownDir => Ascii("unknown")),
     UintNote(Ascii("src"), r.src), UintNote(Ascii("dst"), r.dst)]
  }

  function SdmaNotes(r: SdmaRecord): seq<Note> {
    [UintNote(Ascii("opcode"), r.opcode), UintNote(Ascii("seq"), r.seqNo)] + if r.opcode == 1 then CopyNotes(r) else []
  }

  // ---- Reading one packet ----

  lemma NotesSnoc(fs: seq<Field>, f: Field)
    ensures Notes(fs + [f]) == Notes(fs) + NoteOf(f)
  {
    assert (fs + [f])[..|fs|] == fs;
  }

  lemma DebugNotes(name: string, val: Bytes, n: u64)
    ensures NoteOf(DebugStr(name, val)) == [TextNote(Ascii(name), val)]
    ensures NoteOf(DebugUint(name, n)) == [UintNote(Ascii(name), n)]
  {
    hide Ascii;
    var s, u := DebugStr(name, val).fields, DebugUint(name, n).fields;
    assert s[0] == String(10, Ascii(name)) && s[1..][0] == String(6, val);
    assert u[0] == String(10, Ascii(name)) && u[1..][0] == Varint(4, n) && u[1..][1..] == [];
    assert StringOf(u[1..][1..], 6) == None;
    assert StringOf(s, 10) == Some(Ascii(name)) && StringOf(s[1..], 6) == Some(val) && StringOf(s, 6) == StringOf(s[1..], 6);
    assert StringOf(u, 10) == Some(Ascii(name)) && StringOf(u[1..], 6) == None && StringOf(u, 6) == StringOf(u[1..], 6);
    assert VarintOf(u[1..], 4) == Some(n) && VarintOf(u, 4) == VarintOf(u[1..], 4);
    assert DebugStr(name, val).num == 4 && DebugUint(name, n).num == 4;
  }

  /** Fields appended behind others are read after them. */
  lemma {:induction false} StringBehind(a: seq<Field>, b: seq<Field>, num: nat)
    ensures StringOf(a + b, num) == if StringOf(a, num).Some? then StringOf(a, num) else StringOf(b, num)
  {
    if a == [] {
      assert a + b == b;
    } else {
      assert (a + b)[1..] == a[1..] + b;
      StringBehind(a[1..], b, num);
    }
  }

  lemma HeadStrings(uid: u64, begin: bool)
    ensures StringOf(EventHead(uid, begin), 23) == None && Notes(EventHead(uid, begin)) == []
  {
    var h := EventHead(uid, begin);
    assert h[1..][1..] == [] && StringOf(h[1..], 23) == StringOf([], 23);
    NotesSnoc([Varint(TE_TRACK, TrackUuid(uid))], Varint(TE_TYPE, if begin then SLICE_BEGIN else SLICE_END));
    NotesSnoc([], Varint(TE_TRACK, TrackUuid(uid)));
    assert [] + [Varint(TE_TRACK, TrackUuid(uid))] == [Varint(TE_TRACK, TrackUuid(uid))];
  }

  lemma PacketStamp(ts: int, te: seq<Field>)
    ensures EventPacket(ts, te).Message? && EventPacket(ts, te).num == 1
    ensures VarintOf(EventPacket(ts, te).fields, 8) == Some(Wrap(ts)) && MessageOf(EventPacket(ts, te).fields, 11) == Some(te)
  {
    hide Wrap;
    PacketRead(ts, te);
  }

  /** A packet with the head of an event is read as that event. */
  lemma EventReads(ts: int, uid: u64, begin: bool, rest: seq<Field>)
    ensures var te := EventHead(uid, begin) + rest;
            ReadEvent(EventPacket(ts, te)) ==
            Some(Event(Wrap(ts), TrackUuid(uid), if begin then 1 else 2, StringOf(rest, 23), Notes(te)))
  {
    hide EventPacket, EventHead, VarintOf, MessageOf, StringOf, Notes, Wrap, TrackUuid;
    PacketStamp(ts, EventHead(uid, begin) + rest);
    HeadRead(uid, begin, rest);
    HeadStrings(uid, begin);
    StringBehind(EventHead(uid, begin), rest, 23);
  }

  lemma EndReads(ts: int, uid: u64)
    ensures ReadEvent(EventPacket(ts, EventHead(uid, false))) == Some(Event(Wrap(ts), TrackUuid(uid), 2, None, []))
  {
    hide EventPacket, EventHead, Notes, Wrap, TrackUuid, ReadEvent;
    EventReads(ts, uid, false, []);
    HeadStrings(uid, false);
    assert EventHead(uid, false) + [] == EventHead(uid, false);
  }

  lemma DispatchNoted(fs: seq<Field>, d: Dispatch)
    ensures Notes(WithDispatch(fs, d)) == Notes(fs) + DispatchNotes(d)
  {
    hide Ascii, DebugStr, DebugUint, NoteOf, Notes, Text.Decimal;
    var a := fs + [DebugStr("grid", Dims(d.grid.0, d.grid.1, d.grid.2))];
    var b := a + [DebugStr("workgroup", Dims(d.wg.0, d.wg.1, d.wg.2))];
    var c := b + [DebugUint("kernel_object", d.kernelObject)];
    var e := c + [DebugUint("group_seg", d.groupSeg)];
    var f := e + [DebugUint("private_seg", d.privateSeg)];
    NotesSnoc(fs, DebugStr("grid", Dims(d.grid.0, d.grid.1, d.grid.2)));
    NotesSnoc(a, DebugStr("workgroup", Dims(d.wg.0, d.wg.1, d.wg.2)));
    NotesSnoc(b, DebugUint("kernel_object", d.kernelObject));
    NotesSnoc(c, DebugUint("group_seg", d.groupSeg));
    NotesSnoc(e, DebugUint("private_seg", d.privateSeg));
    NotesSnoc(f, DebugUint("completion_signal", d.completionSignal));
    DebugNotes("grid", Dims(d.grid.0, d.grid.1, d.grid.2), 0);
    DebugNotes("workgroup", Dims(d.wg.0, d.wg.1, d.wg.2), 0);
    DebugNotes("kernel_object", [], d.kernelObject);
    DebugNotes("group_seg", [], d.groupSeg);
    DebugNotes("private_seg", [], d.privateSeg);
    DebugNotes("completion_signal", [], d.completionSignal);
  }

  lemma CopyNoted(fs: seq<Field>, r: SdmaRecord)
    ensures Notes(WithCopy(fs, r)) == Notes(fs) + CopyNotes(r)
  {
    hide Ascii, DebugStr, DebugUint, NoteOf, Notes;
    var dir := Ascii(DirName(r.dir));
    var a := fs + [DebugUint("bytes", r.bytes)];
    var b := a + [DebugStr("direction", dir)];
    var c := b + [DebugUint("src", r.src)];
    NotesSnoc(fs, DebugUint("bytes", r.bytes));
    NotesSnoc(a, DebugStr("direction", dir));
    NotesSnoc(b, DebugUint("src", r.src));
    NotesSnoc(c, DebugUint("dst", r.dst));
    DebugNotes("bytes", [], r.bytes);
    DebugNotes("direction", dir, 0);
    DebugNotes("src", [], r.src);
    DebugNotes("dst", [], r.dst);
  }

  /** The event a record's slice begins or ends with. */
  function AqlEvent(r: PacketRecord, phys: u64, ts: int, begin: bool): Event {
    if begin then Event(Wrap(ts), TrackUuid(r.queueUid), 1, Some(r.kernelName), AqlNotes(r, phys))
    else Event(Wrap(ts), TrackUuid(r.queueUid), 2, None, [])
  }

  function SdmaEvent(r: SdmaRecord, ts: int, begin: bool): Event {
    if begin then Event(Wrap(ts), TrackUuid(r.queueUid), 1, Some(r.opName), SdmaNotes(r))
    else Event(Wrap(ts), TrackUuid(r.queueUid), 2, None, [])
  }

  /** A named event: the name comes first behind the head, annotations follow. */
  lemma NamedReads(ts: int, uid: u64, te: seq<Field>, name: Bytes)
    requires EventHead(uid, true) + [String(TE_NAME, name)] <= te
    ensures ReadEvent(EventPacket(ts, te)) == Some(Event(Wrap(ts), TrackUuid(uid), 1, Some(name), Notes(te)))
  {
    hide EventHead, EventPacket, ReadEvent, Notes, Wrap, TrackUuid;
    var head := EventHead(uid, true);
    var rest := te[|head|..];
    assert te == head + rest;
    assert rest[0] == te[|head|] == String(TE_NAME, name);
    EventReads(ts, uid, true, rest);
  }

  lemma NameNote(uid: u64, name: Bytes)
    ensures Notes(EventHead(uid, true) + [String(TE_NAME, name)]) == []
  {
    hide EventHead;
    HeadStrings(uid, true);
    NotesSnoc(EventHead(uid, true), String(TE_NAME, name));
  }

  lemma AqlNoted(r: PacketRecord, phys: u64)
    ensures var te := AqlTrackEvent(r, phys, true);
            EventHead(r.queueUid, true) + [String(TE_NAME, r.kernelName)] <= te && Notes(te) == AqlNotes(r, phys)
  {
    hide EventHead, DebugStr, DebugUint, NoteOf, Notes, WithDispatch, DispatchNotes, Ascii, PacketTypeName;
    var kind := Ascii(PacketTypeName(r.ptype));
    var a := EventHead(r.queueUid, true) + [String(TE_NAME, r.kernelName)];
    var b := a + [DebugStr("type", kind)];
    var named := b + [DebugUint("dispatch_id", r.dispatchId)];
    var full := if DispatchLike(r.ptype) then WithDispatch(named, r.dispatch) else named;
    NameNote(r.queueUid, r.kernelName);
    NotesSnoc(a, DebugStr("type", kind));
    NotesSnoc(b, DebugUint("dispatch_id", r.dispatchId));
    DebugNotes("type", kind, 0);
    DebugNotes("dispatch_id", [], r.dispatchId);
    DispatchNoted(named, r.dispatch);
    WithDispatchLonger(named, r.dispatch);
    NotesSnoc(full, DebugUint("ring_phys", phys));
    DebugNotes("ring_phys", [], phys);
  }

  lemma WithDispatchLonger(fs: seq<Field>, d: Dispatch)
    ensures fs <= WithDispatch(fs, d)
  {
    hide DebugStr, DebugUint, Dims;
  }

  lemma SdmaNoted(r: SdmaRecord)
    ensures var te := SdmaTrackEvent(r, true);
            EventHead(r.queueUid, true) + [String(TE_NAME, r.opName)] <= te && Notes(te) == SdmaNotes(r)
  {
    hide EventHead, DebugStr, DebugUint, NoteOf, Notes, CopyNotes, Ascii, DirName;
    var a := EventHead(r.queueUid, true) + [String(TE_NAME, r.opName)];
    var b := a + [DebugUint("opcode", r.opcode)];
    var named := b + [DebugUint("seq", r.seqNo)];
    NameNote(r.queueUid, r.opName);
    NotesSnoc(a, DebugUint("opcode", r.opcode));
    NotesSnoc(b, DebugUint("seq", r.seqNo));
    DebugNotes("opcode", [], r.opcode);
    DebugNotes("seq", [], r.seqNo);
    CopyNoted(named, r);
  }

  lemma AqlReads(r: PacketRecord, phys: u64, ts: int, begin: bool)
    ensures ReadEvent(EventPacket(ts, AqlTrackEvent(r, phys, begin))) == Some(AqlEvent(r, phys, ts, begin))
  {
    hide EventHead, EventPacket, ReadEvent, AqlNotes, Notes, WithDispatch, DebugStr, DebugUint, Wrap, TrackUuid;
    if begin {
      AqlNoted(r, phys);
      NamedReads(ts, r.queueUid, AqlTrackEvent(r, phys, true), r.kernelName);
    } else {
      EndReads(ts, r.queueUid);
    }
  }

  lemma SdmaReads(r: SdmaRecord, ts: int, begin: bool)
    ensures ReadEvent(EventPacket(ts, SdmaTrackEvent(r, begin))) == Some(SdmaEvent(r, ts, begin))
  {
    hide EventHead, EventPacket, ReadEvent, SdmaNotes, Notes, WithCopy, DebugUint, Wrap, TrackUuid;
    if begin {
      SdmaNoted(r);
      NamedReads(ts, r.queueUid, SdmaTrackEvent(r, true), r.opName);
    } else {
      EndReads(ts, r.queueUid);
    }
  }

  // ---- Reading the whole trace ----

  lemma ReadSnoc(ps: seq<Field>, p: Field)
    ensures ReadEvents(ps + [p]) == ReadEvents(ps) + (match ReadEvent(p) case Some(e) => [e] case None => [])
  {
    assert (ps + [p])[..|ps|] == ps;
  }

  lemma {:induction false} ReadAppend(a: seq<Field>, b: seq<Field>)
    ensures ReadEvents(a + b) == ReadEvents(a) + ReadEvents(b)
  {
    hide ReadEvent;
    if b == [] {
      assert a + b == a;
    } else {
      assert (a + b)[..|a + b| - 1] == a + b[..|b| - 1];
      ReadAppend(a, b[..|b| - 1]);
    }
  }

  lemma DescriptorSilent(q: QueueInfo)
    ensures ReadEvent(ProcessPacket(q)) == ReadEvent(QueuePacket(q)) == None
  {
    hide Label;
    var p, d := ProcessPacket(q).fields, QueuePacket(q).fields;
    assert VarintOf(p[1..], 8) == None && VarintOf(d[1..], 8) == None;
  }

  lemma {:induction false} DescriptorsSilent(qs: seq<Entry<QueueInfo>>, n: nat)
    requires n <= |qs|
    ensures ReadEvents(Descriptors(qs, n)) == []
  {
    hide ReadEvent, ProcessPacket, QueuePacket, NewPid;
    if n > 0 {
      var before, q := Descriptors(qs, n - 1), qs[n - 1].val;
      DescriptorsSilent(qs, n - 1);
      DescriptorSilent(q);
      ReadSnoc(before, ProcessPacket(q));
      ReadSnoc(if NewPid(qs, n - 1) then before + [ProcessPacket(q)] else before, QueuePacket(q));
      assert before + [] == before;
    }
  }

  lemma {:induction false} AqlEventsRead(qs: seq<Entry<QueueInfo>>, rs: seq<PacketRecord>, evs: seq<Ev>)
    requires Within(evs, |rs|)
    ensures var es := ReadEvents(AqlEvents(qs, rs, evs));
            && |es| == |evs|
            && forall i :: 0 <= i < |evs| ==>
                 es[i] == AqlEvent(rs[evs[i].rec], PhysOf(qs, rs[evs[i].rec].queueUid), evs[i].ts, evs[i].begin)
  {
    hide ReadEvent, EventPacket, AqlTrackEvent, AqlEvent, PhysOf;
    if evs != [] {
      var init, e := evs[..|evs| - 1], evs[|evs| - 1];
      var phys := PhysOf(qs, rs[e.rec].queueUid);
      AqlEventsRead(qs, rs, init);
      AqlReads(rs[e.rec], phys, e.ts, e.begin);
      ReadSnoc(AqlEvents(qs, rs, init), EventPacket(e.ts, AqlTrackEvent(rs[e.rec], phys, e.begin)));
    }
  }

  lemma {:induction false} SdmaEventsRead(rs: seq<SdmaRecord>, evs: seq<Ev>)
    requires Within(evs, |rs|)
    ensures var es := ReadEvents(SdmaEvents(rs, evs));
            && |es| == |evs|
            && forall i :: 0 <= i < |evs| ==> es[i] == SdmaEvent(rs[evs[i].rec], evs[i].ts, evs[i].begin)
  {
    hide ReadEvent, EventPacket, SdmaTrackEvent, SdmaEvent;
    if evs != [] {
      var init, e := evs[..|evs| - 1], evs[|evs| - 1];
      SdmaEventsRead(rs, init);
      SdmaReads(rs[e.rec], e.ts, e.begin);
      ReadSnoc(SdmaEvents(rs, init), EventPacket(e.ts, SdmaTrackEvent(rs[e.rec], e.begin)));
    }
  }

  // ---- Where each record's slice is ----

  function IndexOf(evs: seq<Ev>, x: Ev): nat {
    if evs == [] || evs[0] == x then 0 else 1 + IndexOf(evs[1..], x)
  }

  lemma {:induction false} IndexFinds(evs: seq<Ev>, x: Ev)
    requires x in evs
    ensures IndexOf(evs, x) < |evs| && evs[IndexOf(evs, x)] == x
  {
    if evs[0] != x {
      IndexFinds(evs[1..], x);
    }
  }

  /** The n slices take up the 2n places from `lo` on, each with a place of its own for its begin and a later one for
      its end. */
  predicate Paired(begins: seq<nat>, ends: seq<nat>, n: nat, lo: nat) {
    && |begins| == |ends| == n
    && (forall r :: 0 <= r < n ==> lo <= begins[r] < ends[r] < lo + 2 * n)
    && (forall r, s :: 0 <= r < s < n ==> begins[r] != begins[s] && ends[r] != ends[s])
    && (forall r, s :: 0 <= r < n && 0 <= s < n ==> begins[r] != ends[s])
    && (forall k :: lo <= k < lo + 2 * n ==> Taken(begins, ends, k))
  }

  predicate Taken(begins: seq<nat>, ends: seq<nat>, k: nat)
    requires |begins| == |ends|
  {
    exists r :: 0 <= r < |begins| && (begins[r] == k || ends[r] == k)
  }

  lemma {:induction false} EventCount(slices: seq<Slice>, n: nat)
    requires n <= |slices|
    ensures |Events(slices, n)| == 2 * n
  {
    hide BeginOf, EndOf;
    if n > 0 {
      EventCount(slices, n - 1);
    }
  }

  lemma WrittenCount(slices: seq<Slice>)
    ensures |Written(slices)| == 2 * |slices|
  {
    hide Ordered, Ties, StableSort, Events;
    EventCount(slices, |slices|);
    SortCorrect(Events(slices, |slices|));
    assert |multiset(Written(slices))| == |Written(slices)|;
    assert |multiset(Events(slices, |slices|))| == |Events(slices, |slices|)|;
  }

  lemma WrittenOnce(slices: seq<Slice>, i: nat, j: nat)
    requires i < |Written(slices)| && j < |Written(slices)| && Written(slices)[i] == Written(slices)[j]
    ensures i == j
  {
    hide StableSort, Events;
    SortSequenced(slices, |slices|);
    if i < j {
      PrecedesOrder(Written(slices)[i], Written(slices)[j], Written(slices)[i]);
    } else if j < i {
      PrecedesOrder(Written(slices)[j], Written(slices)[i], Written(slices)[j]);
    }
  }

  /** The places of one record's begin and end. */
  lemma SlicePlaced(slices: seq<Slice>, r: nat)
    requires r < |slices|
    ensures var evs, b, e := Written(slices), IndexOf(Written(slices), BeginOf(slices, r)), IndexOf(Written(slices), EndOf(slices, r));
            b < e < |evs| && evs[b] == BeginOf(slices, r) && evs[e] == EndOf(slices, r)
  {
    hide Written, IndexOf, Ordered;
    var evs := Written(slices);
    WrittenIs(slices, r);
    IndexFinds(evs, BeginOf(slices, r));
    IndexFinds(evs, EndOf(slices, r));
    SortArrangesWritten(slices);
    BeginPrecedesEnd(slices, evs, IndexOf(evs, BeginOf(slices, r)), IndexOf(evs, EndOf(slices, r)));
  }

  lemma SortArrangesWritten(slices: seq<Slice>)
    ensures Arranges(slices, Written(slices)) && Ordered(Written(slices)) && AreEvents(slices, Written(slices))
  {
    hide StableSort, Events, Ordered;
    SortArranges(slices);
    ArrangedAre(slices, Written(slices));
  }

  function Begins(slices: seq<Slice>, lo: nat): (s: seq<nat>)
    ensures |s| == |slices| && forall r :: 0 <= r < |s| ==> s[r] == lo + IndexOf(Written(slices), BeginOf(slices, r))
  {
    seq(|slices|, r requires 0 <= r < |slices| => lo + IndexOf(Written(slices), BeginOf(slices, r)))
  }

  function Ends(slices: seq<Slice>, lo: nat): (s: seq<nat>)
    ensures |s| == |slices| && forall r :: 0 <= r < |s| ==> s[r] == lo + IndexOf(Written(slices), EndOf(slices, r))
  {
    seq(|slices|, r requires 0 <= r < |slices| => lo + IndexOf(Written(slices), EndOf(slices, r)))
  }

  lemma PlaceTaken(slices: seq<Slice>, lo: nat, k: nat)
    requires k < |Written(slices)|
    ensures Taken(Begins(slices, lo), Ends(slices, lo), lo + k)
  {
    hide Written, IndexOf, Ordered, Events, NsOf;
    var evs := Written(slices);
    SortArrangesWritten(slices);
    assert IsEvent(slices, evs[k]);
    var r := evs[k].rec;
    SlicePlaced(slices, r);
    if evs[k] == BeginOf(slices, r) {
      WrittenOnce(slices, k, IndexOf(evs, BeginOf(slices, r)));
      assert Begins(slices, lo)[r] == lo + k;
    } else {
      WrittenOnce(slices, k, IndexOf(evs, EndOf(slices, r)));
      assert Ends(slices, lo)[r] == lo + k;
    }
  }

  lemma SlicesPaired(slices: seq<Slice>, lo: nat)
    ensures Paired(Begins(slices, lo), Ends(slices, lo), |slices|, lo)
  {
    hide Written, IndexOf, NsOf, Taken;
    var n := |slices|;
    WrittenCount(slices);
    forall r | 0 <= r < n
      ensures lo <= Begins(slices, lo)[r] < Ends(slices, lo)[r] < lo + 2 * n
    {
      SlicePlaced(slices, r);
    }
    forall r, s | 0 <= r < n && 0 <= s < n
      ensures Begins(slices, lo)[r] != Ends(slices, lo)[s]
      ensures r != s ==> Begins(slices, lo)[r] != Begins(slices, lo)[s] && Ends(slices, lo)[r] != Ends(slices, lo)[s]
    {
      SlicePlaced(slices, r);
      SlicePlaced(slices, s);
    }
    forall k | lo <= k < lo + 2 * n
      ensures Taken(Begins(slices, lo), Ends(slices, lo), k)
    {
      PlaceTaken(slices, lo, k - lo);
    }
  }

  // ---- The whole trace ----

  function Track(uid: u64): u64 {
    (0x5100_0000 + uid) % 0x1_0000_0000_0000_0000
  }

  /** Distinct queues are drawn on distinct tracks. */
  lemma TracksApart(a: u64, b: u64)
    ensures TrackUuid(a) == Track(a)
    ensures Track(a) == Track(b) ==> a == b
  {
  }

  /** The events at these places are those of the record's slice. */
  predicate DrawsAql(es: seq<Event>, b: nat, e: nat, r: PacketRecord, phys: u64) {
    && b < |es| && e < |es|
    && es[b] == Event(Stamp(r.submitTs), Track(r.queueUid), 1, Some(r.kernelName), AqlNotes(r, phys))
    && es[e] == Event(Stamp(DrawnEnd(r.submitTs, r.completeTs)), Track(r.queueUid), 2, None, [])
  }

  predicate DrawsSdma(es: seq<Event>, b: nat, e: nat, r: SdmaRecord) {
    && b < |es| && e < |es|
    && es[b] == Event(Stamp(r.submitTs), Track(r.queueUid), 1, Some(r.opName), SdmaNotes(r))
    && es[e] == Event(Stamp(DrawnEnd(r.submitTs, r.completeTs)), Track(r.queueUid), 2, None, [])
  }

  /** Both stamps fit into 64 bits. */
  predicate InTime(submit: real, complete: real) {
    0.0 <= submit && DrawnEnd(submit, complete) * 1000000000.0 < U64 as real
  }

  predicate Rising(es: seq<Event>, lo: nat, hi: nat)
    requires hi <= |es|
  {
    forall i, j :: lo <= i < j < hi ==> es[i].ts <= es[j].ts
  }

  lemma StampsAre(slices: seq<Slice>, r: nat)
    requires r < |slices|
    ensures Wrap(BeginOf(slices, r).ts) == Stamp(slices[r].submit)
    ensures Wrap(EndOf(slices, r).ts) == Stamp(DrawnEnd(slices[r].submit, slices[r].complete))
    ensures InTime(slices[r].submit, slices[r].complete) ==>
              0 <= BeginOf(slices, r).ts < U64 && 0 <= EndOf(slices, r).ts < U64
  {
    hide Wrap;
    var s := slices[r];
    assert s.End() == DrawnEnd(s.submit, s.complete);
    assert s.submit < s.End();
  }

  /** The events read from one part of the trace are the written ones, cut to 64 bits. */
  predicate Shows(es: seq<Event>, evs: seq<Ev>) {
    |es| == |evs| && forall i :: 0 <= i < |evs| ==> es[i].ts == Wrap(evs[i].ts)
  }

  lemma PartRises(slices: seq<Slice>, es: seq<Event>)
    requires Shows(es, Written(slices))
    requires forall r :: 0 <= r < |slices| ==> InTime(slices[r].submit, slices[r].complete)
    ensures Rising(es, 0, |es|)
  {
    hide Written, NsOf, InTime, Wrap;
    var evs := Written(slices);
    SortArrangesWritten(slices);
    forall i, j | 0 <= i < j < |es|
      ensures es[i].ts <= es[j].ts
    {
      assert IsEvent(slices, evs[i]) && IsEvent(slices, evs[j]);
      StampsAre(slices, evs[i].rec);
      StampsAre(slices, evs[j].rec);
      assert !Less(evs[j], evs[i]);
      WrapIs(evs[i].ts);
      WrapIs(evs[j].ts);
    }
  }

  lemma WrapIs(x: int)
    requires 0 <= x < U64
    ensures Wrap(x) == x
  {
  }

  /** What the AQL part of the trace says: for every record its begin and its end, and nothing else. */
  predicate AqlTold(es: seq<Event>, qs: seq<Entry<QueueInfo>>, rs: seq<PacketRecord>, begins: seq<nat>, ends: seq<nat>) {
    && Paired(begins, ends, |rs|, 0)
    && (forall r :: 0 <= r < |rs| ==> DrawsAql(es, begins[r], ends[r], rs[r], PhysOf(qs, rs[r].queueUid)))
    && 2 * |rs| <= |es|
    && ((forall r :: 0 <= r < |rs| ==> InTime(rs[r].submitTs, rs[r].completeTs)) ==> Rising(es, 0, 2 * |rs|))
  }

  /** The SDMA part follows from place `lo` on. */
  predicate SdmaTold(es: seq<Event>, lo: nat, ss: seq<SdmaRecord>, begins: seq<nat>, ends: seq<nat>) {
    && Paired(begins, ends, |ss|, lo)
    && (forall r :: 0 <= r < |ss| ==> DrawsSdma(es, begins[r], ends[r], ss[r]))
    && |es| == lo + 2 * |ss|
    && ((forall r :: 0 <= r < |ss| ==> InTime(ss[r].submitTs, ss[r].completeTs)) ==> Rising(es, lo, |es|))
  }

  lemma {:induction false} AqlDrawn(qs: seq<Entry<QueueInfo>>, rs: seq<PacketRecord>, es: seq<Event>, r: nat)
    requires Within(Written(AqlSlices(rs)), |rs|) && es == ReadEvents(AqlEvents(qs, rs, Written(AqlSlices(rs)))) && r < |rs|
    ensures DrawsAql(es, Begins(AqlSlices(rs), 0)[r], Ends(AqlSlices(rs), 0)[r], rs[r], PhysOf(qs, rs[r].queueUid))
  {
    hide Written, ReadEvents, AqlEvents, AqlNotes, BeginOf, EndOf, IndexOf, Stamp, DrawnEnd, TrackUuid, Track, PhysOf, Wrap;
    var slices := AqlSlices(rs);
    AqlEventsRead(qs, rs, Written(slices));
    SlicePlaced(slices, r);
    StampsAre(slices, r);
    EventSides(slices, r);
    TracksApart(rs[r].queueUid, 0);
  }

  lemma {:induction false} AqlShown(qs: seq<Entry<QueueInfo>>, rs: seq<PacketRecord>)
    requires Within(Written(AqlSlices(rs)), |rs|)
    ensures Shows(ReadEvents(AqlEvents(qs, rs, Written(AqlSlices(rs)))), Written(AqlSlices(rs)))
  {
    hide Written, ReadEvents, AqlEvents, AqlNotes, TrackUuid, PhysOf, Wrap;
    AqlEventsRead(qs, rs, Written(AqlSlices(rs)));
  }

  lemma {:induction false} AqlPart(qs: seq<Entry<QueueInfo>>, rs: seq<PacketRecord>)
    requires Within(Written(AqlSlices(rs)), |rs|)
    ensures var es := ReadEvents(AqlEvents(qs, rs, Written(AqlSlices(rs))));
            |es| == 2 * |rs| && AqlTold(es, qs, rs, Begins(AqlSlices(rs), 0), Ends(AqlSlices(rs), 0))
  {
    hide Written, ReadEvents, AqlEvents, Paired, Begins, Ends, DrawsAql, InTime, PhysOf, Rising;
    var slices := AqlSlices(rs);
    var es := ReadEvents(AqlEvents(qs, rs, Written(slices)));
    SlicesPaired(slices, 0);
    WrittenCount(slices);
    AqlShown(qs, rs);
    PairedInside(Begins(slices, 0), Ends(slices, 0), |rs|);
    forall r | 0 <= r < |rs|
      ensures DrawsAql(es, Begins(slices, 0)[r], Ends(slices, 0)[r], rs[r], PhysOf(qs, rs[r].queueUid))
    {
      AqlDrawn(qs, rs, es, r);
    }
    if forall r :: 0 <= r < |rs| ==> InTime(rs[r].submitTs, rs[r].completeTs) {
      PartRises(slices, es);
    }
  }

  lemma EventSides(slices: seq<Slice>, r: nat)
    requires r < |slices|
    ensures BeginOf(slices, r).begin && BeginOf(slices, r).rec == r
    ensures !EndOf(slices, r).begin && EndOf(slices, r).rec == r
  {
  }

  lemma {:induction false} SdmaDrawn(ss: seq<SdmaRecord>, es: seq<Event>, r: nat)
    requires Within(Written(SdmaSlices(ss)), |ss|) && es == ReadEvents(SdmaEvents(ss, Written(SdmaSlices(ss)))) && r < |ss|
    ensures DrawsSdma(es, Begins(SdmaSlices(ss), 0)[r], Ends(SdmaSlices(ss), 0)[r], ss[r])
  {
    hide Written, ReadEvents, SdmaEvents, SdmaNotes, BeginOf, EndOf, IndexOf, Stamp, DrawnEnd, TrackUuid, Track, Wrap;
    var slices := SdmaSlices(ss);
    SdmaEventsRead(ss, Written(slices));
    SlicePlaced(slices, r);
    StampsAre(slices, r);
    EventSides(slices, r);
    TracksApart(ss[r].queueUid, 0);
  }

  lemma {:induction false} SdmaShown(ss: seq<SdmaRecord>)
    requires Within(Written(SdmaSlices(ss)), |ss|)
    ensures Shows(ReadEvents(SdmaEvents(ss, Written(SdmaSlices(ss)))), Written(SdmaSlices(ss)))
  {
    hide Written, ReadEvents, SdmaEvents, SdmaNotes, TrackUuid, Wrap;
    SdmaEventsRead(ss, Written(SdmaSlices(ss)));
  }

  lemma {:induction false} SdmaPart(ss: seq<SdmaRecord>)
    requires Within(Written(SdmaSlices(ss)), |ss|)
    ensures var es := ReadEvents(SdmaEvents(ss, Written(SdmaSlices(ss))));
            SdmaTold(es, 0, ss, Begins(SdmaSlices(ss), 0), Ends(SdmaSlices(ss), 0))
  {
    hide Written, ReadEvents, SdmaEvents, Paired, Begins, Ends, DrawsSdma, InTime, Rising;
    var slices := SdmaSlices(ss);
    var es := ReadEvents(SdmaEvents(ss, Written(slices)));
    SlicesPaired(slices, 0);
    WrittenCount(slices);
    SdmaShown(ss);
    PairedInside(Begins(slices, 0), Ends(slices, 0), |ss|);
    forall r | 0 <= r < |ss|
      ensures DrawsSdma(es, Begins(slices, 0)[r], Ends(slices, 0)[r], ss[r])
    {
      SdmaDrawn(ss, es, r);
    }
    if forall r :: 0 <= r < |ss| ==> InTime(ss[r].submitTs, ss[r].completeTs) {
      PartRises(slices, es);
    }
  }

  lemma AqlPrefix(es: seq<Event>, more: seq<Event>, qs: seq<Entry<QueueInfo>>, rs: seq<PacketRecord>, begins: seq<nat>, ends: seq<nat>)
    requires AqlTold(es, qs, rs, begins, ends)
    ensures AqlTold(es + more, qs, rs, begins, ends)
  {
    hide AqlNotes, Stamp, DrawnEnd, Track, PhysOf, InTime, Paired;
  }

  lemma SdmaSuffix(before: seq<Event>, es: seq<Event>, ss: seq<SdmaRecord>)
    requires SdmaTold(es, 0, ss, Begins(SdmaSlices(ss), 0), Ends(SdmaSlices(ss), 0))
    ensures SdmaTold(before + es, |before|, ss, Begins(SdmaSlices(ss), |before|), Ends(SdmaSlices(ss), |before|))
  {
    hide SdmaNotes, Stamp, DrawnEnd, Track, InTime, Paired, IndexOf, BeginOf, EndOf, Written;
    SlicesPaired(SdmaSlices(ss), |before|);
    PairedInside(Begins(SdmaSlices(ss), 0), Ends(SdmaSlices(ss), 0), |ss|);
  }

  lemma PairedInside(begins: seq<nat>, ends: seq<nat>, n: nat)
    requires Paired(begins, ends, n, 0)
    ensures |begins| == |ends| == n
  {
  }

  /** What a reader of the trace is told: exactly one begin and one later end for every AQL record and then for every SDMA
      record, on the track of its queue, under its name, with its annotations and its times in nanoseconds; in
      each part the times never fall. */
  lemma TraceTells(qs: seq<Entry<QueueInfo>>, rs: seq<PacketRecord>, ss: seq<SdmaRecord>)
    returns (begins: seq<nat>, ends: seq<nat>, sdmaBegins: seq<nat>, sdmaEnds: seq<nat>)
    ensures AqlTold(ReadEvents(Trace(qs, rs, ss)), qs, rs, begins, ends)
    ensures SdmaTold(ReadEvents(Trace(qs, rs, ss)), 2 * |rs|, ss, sdmaBegins, sdmaEnds)
  {
    hide AqlTold, SdmaTold, ReadEvents, Descriptors, AqlEvents, SdmaEvents, Written;
    WrittenWithin(AqlSlices(rs));
    WrittenWithin(SdmaSlices(ss));
    var a, b, c := Descriptors(qs, |qs|), AqlEvents(qs, rs, Written(AqlSlices(rs))), SdmaEvents(ss, Written(SdmaSlices(ss)));
    DescriptorsSilent(qs, |qs|);
    ReadAppend(a, b);
    ReadAppend(a + b, c);
    assert [] + ReadEvents(b) == ReadEvents(b);
    AqlPart(qs, rs);
    SdmaPart(ss);
    begins, ends := Begins(AqlSlices(rs), 0), Ends(AqlSlices(rs), 0);
    sdmaBegins, sdmaEnds := Begins(SdmaSlices(ss), 2 * |rs|), Ends(SdmaSlices(ss), 2 * |rs|);
    AqlPrefix(ReadEvents(b), ReadEvents(c), qs, rs, begins, ends);
    SdmaSuffix(ReadEvents(b), ReadEvents(c), ss);
  }

  /** The same of the file: its bytes parse, and the events read from them tell all records. */
  lemma FileTells(qs: seq<Entry<QueueInfo>>, rs: seq<PacketRecord>, ss: seq<SdmaRecord>, file: Bytes)
    returns (begins: seq<nat>, ends: seq<nat>, sdmaBegins: seq<nat>, sdmaEnds: seq<nat>)
    requires file == EncFields(Trace(qs, rs, ss)) && |file| < U64
    ensures Parse(TRACE_SCHEMA, file).Some?
    ensures AqlTold(ReadEvents(Parse(TRACE_SCHEMA, file).value), qs, rs, begins, ends)
    ensures SdmaTold(ReadEvents(Parse(TRACE_SCHEMA, file).value), 2 * |rs|, ss, sdmaBegins, sdmaEnds)
  {
    hide AqlTold, SdmaTold, ReadEvents, Trace, Parse, EncFields;
    TraceReadsBack(qs, rs, ss);
    begins, ends, sdmaBegins, sdmaEnds := TraceTells(qs, rs, ss);
  }

  // ---- Track descriptors ----

  /** A descriptor (packet field 60): a track's own number 1, its name 2 and its parent 5. */
  datatype TrackLabel = TrackLabel(uuid: u64, name: Bytes, parent: u64)

  /** A process track has its number 1 and a process 3, with a process number 1 and a name 6. */
  datatype ProcessLabel = ProcessLabel(uuid: u64, pid: u64, name: Bytes)

  function ReadTrack(p: Field): Option<TrackLabel> {
    if !p.Message? || p.num != 1 || MessageOf(p.fields, 60).None? then None
    else
      var td := MessageOf(p.fields, 60).value;
      match (VarintOf(td, 1), StringOf(td, 2), VarintOf(td, 5))
      case (Some(uuid), Some(name), Some(parent)) => Some(TrackLabel(uuid, name, parent))
      case _ => None
  }

  function ReadProcess(p: Field): Option<ProcessLabel> {
    if !p.Message? || p.num != 1 || MessageOf(p.fields, 60).None? then None
    else
      var td := MessageOf(p.fields, 60).value;
      match (VarintOf(td, 1), MessageOf(td, 3))
      case (Some(uuid), Some(proc)) =>
        (match (VarintOf(proc, 1), StringOf(proc, 6))
         case (Some(pid), Some(name)) => Some(ProcessLabel(uuid, pid, name))
         case _ => None)
      case _ => None
  }

  function QueueLabel(q: QueueInfo): TrackLabel {
    TrackLabel(Track(q.uid),
               Ascii(if q.qtype == 1 || q.qtype == 3 || q.qtype == 4 then "sdma" else "aql") + Ascii(" queue ") +
               Text.Decimal(q.uid) + Ascii(" (gpu ") + Text.Decimal(q.gpuId) + Ascii(")"),
               q.pid)
  }

  lemma QueueRead(q: QueueInfo)
    ensures ReadTrack(QueuePacket(q)) == Some(QueueLabel(q))
  {
    hide Text.Decimal, Track, TrackUuid, Ascii, Label;
    var td := QueuePacket(q).fields[0].fields;
    TracksApart(q.uid, 0);
    LabelIs(q);
    assert MessageOf(QueuePacket(q).fields, 60) == Some(td);
    assert td[1..][0] == String(2, Label(q)) && td[1..][1..][0] == Varint(5, q.pid);
    assert StringOf(td[1..], 2) == Some(Label(q)) && StringOf(td, 2) == StringOf(td[1..], 2);
    assert VarintOf(td[1..][1..], 5) == Some(q.pid) && VarintOf(td[1..], 5) == VarintOf(td[1..][1..], 5);
    assert VarintOf(td, 5) == VarintOf(td[1..], 5);
  }

  lemma LabelIs(q: QueueInfo)
    ensures Label(q) == QueueLabel(q).name
  {
    hide Text.Decimal, Track, Ascii;
  }

  lemma ProcessRead(q: QueueInfo)
    ensures ReadProcess(ProcessPacket(q)) == Some(ProcessLabel(q.pid, q.pid, q.comm))
  {
    var td := ProcessPacket(q).fields[0].fields;
    var proc := td[1].fields;
    assert MessageOf(ProcessPacket(q).fields, 60) == Some(td);
    assert td[1..][0] == Message(3, proc) && proc[1..][0] == String(6, q.comm);
    assert MessageOf(td[1..], 3) == Some(proc) && MessageOf(td, 3) == MessageOf(td[1..], 3);
    assert StringOf(proc[1..], 6) == Some(q.comm) && StringOf(proc, 6) == StringOf(proc[1..], 6);
  }

  lemma {:induction false} DescribedAt(qs: seq<Entry<QueueInfo>>, n: nat, i: nat)
    requires i < n <= |qs|
    ensures QueuePacket(qs[i].val) in Descriptors(qs, n)
    ensures NewPid(qs, i) ==> ProcessPacket(qs[i].val) in Descriptors(qs, n)
  {
    hide QueuePacket, ProcessPacket, NewPid;
    if i < n - 1 {
      DescribedAt(qs, n - 1, i);
    }
  }

  /** Every registered queue has a track with its number, its label and its process for a parent; the first queue of
      each process brings the process track along. */
  lemma TracksTold(qs: seq<Entry<QueueInfo>>, rs: seq<PacketRecord>, ss: seq<SdmaRecord>, i: nat)
    requires i < |qs|
    ensures exists p :: p in Trace(qs, rs, ss) && ReadTrack(p) == Some(QueueLabel(qs[i].val))
    ensures NewPid(qs, i) ==>
              exists p :: p in Trace(qs, rs, ss) && ReadProcess(p) == Some(ProcessLabel(qs[i].val.pid, qs[i].val.pid, qs[i].val.comm))
  {
    hide QueuePacket, ProcessPacket, NewPid, ReadTrack, ReadProcess, QueueLabel, Descriptors, AqlEvents, SdmaEvents, Written;
    DescribedAt(qs, |qs|, i);
    QueueRead(qs[i].val);
    ProcessRead(qs[i].val);
    assert QueuePacket(qs[i].val) in Trace(qs, rs, ss);
    if NewPid(qs, i) {
      assert ProcessPacket(qs[i].val) in Trace(qs, rs, ss);
    }
  }
}
