/** The NDJSON event log (src/dispatch_log.h, src/dispatch_log.cpp): one object per queue, dispatch or SDMA packet. */
module DispatchLogs {
  import opened Model
  import opened Sequences
  import opened Json
  import opened Text
  import opened LogReader
  import TraceWriters

  /** What the caller knows about a record's queue. */
  datatype Ctx = Ctx(gpuId: u32, pid: u32, comm: Bytes)

  // ---- The members of each kind of line ----

  function StrM(key: string, s: Bytes): Member {
    Member(Ascii(key), Str(s))
  }

  function NumM(key: string, n: nat): Member {
    Member(Ascii(key), Num(Whole(n)))
  }

  function HexText(n: nat): Bytes {
    Ascii("0x") + Hex(n)
  }

  function QueueMembers(q: QueueInfo, kind: Bytes, stamp: Bytes): seq<Member> {
    [] + [StrM("ts", stamp)] + [StrM("ev", Ascii("queue"))] + [StrM("kind", kind)] + [NumM("gpu_id", q.gpuId)] +
    [NumM("pid", q.pid)] + [StrM("comm", q.comm)] + [NumM("queue_uid", q.uid)] + [NumM("qtype", q.qtype)] +
    [NumM("ring_size", q.ringSize)] + [StrM("ring_va", HexText(q.ringBase))] + [StrM("ring_phys", HexText(q.ringPhys))]
  }

  /** The members every dispatch line has. */
  function DispatchBase(r: PacketRecord, c: Ctx, stamp: Bytes): seq<Member> {
    var d := r.dispatch;
    [] + [StrM("ts", stamp)] + [StrM("ev", Ascii("dispatch"))] + [NumM("gpu_id", c.gpuId)] + [NumM("pid", c.pid)] +
    [StrM("comm", c.comm)] + [NumM("queue_uid", r.queueUid)] + [NumM("dispatch_id", r.dispatchId)] +
    [StrM("kernel", r.kernelName)] + [Member(Ascii("grid"), Triple(d.grid.0, d.grid.1, d.grid.2))] +
    [Member(Ascii("wg"), Triple(d.wg.0, d.wg.1, d.wg.2))] + [NumM("lds", d.groupSeg)] + [NumM("scratch", d.privateSeg)]
  }

  function SdmaBase(r: SdmaRecord, c: Ctx, stamp: Bytes): seq<Member> {
    [] + [StrM("ts", stamp)] + [StrM("ev", Ascii("sdma"))] + [NumM("gpu_id", c.gpuId)] + [NumM("pid", c.pid)] +
    [StrM("comm", c.comm)] + [NumM("queue_uid", r.queueUid)] + [NumM("seq", r.seqNo)] + [StrM("op", r.opName)]
  }

  function WithCopy(ms: seq<Member>, r: SdmaRecord): seq<Member> {
    ms + [StrM("dir", Ascii(TraceWriters.DirName(r.dir)))] + [NumM("bytes", r.bytes)]
  }

  /** A duration is reported only for a packet that was seen pending before it was seen consumed. */
  predicate HasDuration(completed: bool, submit: real, complete: real) {
    completed && complete > submit
  }

  /** A positive number of seconds in thousandths of a microsecond, rounded to the nearest. */
  function NanosOf(submit: real, complete: real): nat
    requires complete > submit
  {
    ((complete - submit) * 1000000000.0 + 0.5).Floor
  }

  function DurationMember(submit: real, complete: real): Member
    requires complete > submit
  {
    Member(Ascii("dur_us"), Num(Thousandths(NanosOf(submit, complete))))
  }

  function WithDuration(ms: seq<Member>, completed: bool, submit: real, complete: real): seq<Member> {
    if HasDuration(completed, submit, complete) then ms + [DurationMember(submit, complete)] else ms
  }

  function DispatchMembers(r: PacketRecord, c: Ctx, stamp: Bytes): seq<Member> {
    WithDuration(DispatchBase(r, c, stamp), r.completed, r.submitTs, r.completeTs)
  }

  function SdmaMembers(r: SdmaRecord, c: Ctx, stamp: Bytes): seq<Member> {
    WithDuration(if TraceWriters.IsCopy(r) then WithCopy(SdmaBase(r, c, stamp), r) else SdmaBase(r, c, stamp),
                 r.completed, r.submitTs, r.completeTs)
  }

  predicate HasKey(ms: seq<Member>, key: Bytes) {
    exists i :: 0 <= i < |ms| && ms[i].key == key
  }

  /** The key cannot be `dur_us`: wrong length or first letter. */
  predicate OtherKey(key: Bytes) {
    |key| != 6 || key[0] != 100
  }

  predicate OtherKeys(ms: seq<Member>) {
    forall i :: 0 <= i < |ms| ==> OtherKey(ms[i].key)
  }

  lemma DurationTells(ms: seq<Member>, completed: bool, submit: real, complete: real)
    requires OtherKeys(ms)
    ensures HasKey(WithDuration(ms, completed, submit, complete), Ascii("dur_us")) <==> completed && complete > submit
  {
    var key := Ascii("dur_us");
    assert |key| == 6 && key[0] == 100;
    hide Ascii, NanosOf;
    if HasDuration(completed, submit, complete) {
      assert (ms + [DurationMember(submit, complete)])[|ms|].key == key;
    }
  }

  lemma AsciiHead(s: string)
    requires s != []
    ensures Ascii(s)[0] == s[0] as int % 256
  {
  }

  lemma NumberKeys()
    ensures OtherKey(Ascii("gpu_id")) && OtherKey(Ascii("pid")) && OtherKey(Ascii("queue_uid")) && OtherKey(Ascii("dispatch_id"))
    ensures OtherKey(Ascii("lds")) && OtherKey(Ascii("scratch")) && OtherKey(Ascii("seq")) && OtherKey(Ascii("bytes"))
  {
    hide Ascii;
    AsciiHead("gpu_id");
  }

  lemma StringKeys()
    ensures OtherKey(Ascii("ts")) && OtherKey(Ascii("ev")) && OtherKey(Ascii("comm")) && OtherKey(Ascii("kernel"))
    ensures OtherKey(Ascii("grid")) && OtherKey(Ascii("wg")) && OtherKey(Ascii("op")) && OtherKey(Ascii("dir"))
  {
    hide Ascii;
    AsciiHead("kernel");
  }

  /** A dispatch line carries a duration exactly when its packet completed strictly after it was submitted. */
  lemma DispatchDuration(r: PacketRecord, c: Ctx, stamp: Bytes)
    ensures HasKey(DispatchMembers(r, c, stamp), Ascii("dur_us")) <==> r.completed && r.completeTs > r.submitTs
  {
    hide Ascii, OtherKey, HasKey, WithDuration;
    NumberKeys();
    StringKeys();
    DurationTells(DispatchBase(r, c, stamp), r.completed, r.submitTs, r.completeTs);
  }

  lemma SdmaDuration(r: SdmaRecord, c: Ctx, stamp: Bytes)
    ensures HasKey(SdmaMembers(r, c, stamp), Ascii("dur_us")) <==> r.completed && r.completeTs > r.submitTs
  {
    hide Ascii, OtherKey, HasKey, WithDuration, TraceWriters.DirName;
    NumberKeys();
    StringKeys();
    var base := SdmaBase(r, c, stamp);
    DurationTells(if TraceWriters.IsCopy(r) then WithCopy(base, r) else base, r.completed, r.submitTs, r.completeTs);
  }

  /** A reported duration prints as zero exactly when it is below half a nanosecond. */
  lemma DurationVisible(submit: real, complete: real)
    requires complete > submit
    ensures NanosOf(submit, complete) == 0 <==> (complete - submit) * 1000000000.0 < 0.5
  {
  }

  // ---- What a reader finds in each line ----

  const QUEUE_KEYS: seq<string> := ["ts", "ev", "kind", "gpu_id", "pid", "comm", "queue_uid", "qtype", "ring_size", "ring_va", "ring_phys"]
  const DISPATCH_KEYS: seq<string> :=
    ["ts", "ev", "gpu_id", "pid", "comm", "queue_uid", "dispatch_id", "kernel", "grid", "wg", "lds", "scratch"]
  const SDMA_KEYS: seq<string> := ["ts", "ev", "gpu_id", "pid", "comm", "queue_uid", "seq", "op"]

  predicate QueueTold(kvs: Members, q: QueueInfo, kind: Bytes, stamp: Bytes) {
    && |kvs| == 11
    && TextUnder(kvs, "ts", stamp) && TextUnder(kvs, "ev", Ascii("queue")) && TextUnder(kvs, "kind", kind)
    && NumberUnder(kvs, "gpu_id", q.gpuId) && NumberUnder(kvs, "pid", q.pid) && TextUnder(kvs, "comm", q.comm)
    && NumberUnder(kvs, "queue_uid", q.uid) && NumberUnder(kvs, "qtype", q.qtype) && NumberUnder(kvs, "ring_size", q.ringSize)
    && HexUnder(kvs, "ring_va", q.ringBase) && HexUnder(kvs, "ring_phys", q.ringPhys)
  }

  predicate DispatchTold(kvs: Members, r: PacketRecord, c: Ctx, stamp: Bytes) {
    var timed := r.completed && r.completeTs > r.submitTs;
    && |kvs| == (if timed then 13 else 12)
    && TextUnder(kvs, "ts", stamp) && TextUnder(kvs, "ev", Ascii("dispatch"))
    && NumberUnder(kvs, "gpu_id", c.gpuId) && NumberUnder(kvs, "pid", c.pid) && TextUnder(kvs, "comm", c.comm)
    && NumberUnder(kvs, "queue_uid", r.queueUid) && NumberUnder(kvs, "dispatch_id", r.dispatchId)
    && TextUnder(kvs, "kernel", r.kernelName) && TripleUnder(kvs, "grid", r.dispatch.grid) && TripleUnder(kvs, "wg", r.dispatch.wg)
    && NumberUnder(kvs, "lds", r.dispatch.groupSeg) && NumberUnder(kvs, "scratch", r.dispatch.privateSeg)
    && DurationUnder(kvs, "dur_us", timed, (r.completeTs - r.submitTs) * 1000000.0)
  }

  /** A copy line names the direction and the bytes; no other SDMA line does. */
  predicate CopyTold(kvs: Members, r: SdmaRecord) {
    if r.opcode == 1
    then
      && NumberUnder(kvs, "bytes", r.bytes)
      && TextUnder(kvs, "dir", match r.dir
                               case HostToDevice => Ascii("h2d")
                               case DeviceToHost => Ascii("d2h")
                               case DeviceToDevice => Ascii("d2d")
                               case HostToHost => Ascii("h2h")
                               case UnknownDir => Ascii("unknown"))
    else Lookup(kvs, Ascii("bytes")) == Lookup(kvs, Ascii("dir")) == None
  }

  predicate SdmaTold(kvs: Members, r: SdmaRecord, c: Ctx, stamp: Bytes) {
    var timed := r.completed && r.completeTs > r.submitTs;
    && |kvs| == 8 + (if r.opcode == 1 then 2 else 0) + (if timed then 1 else 0)
    && TextUnder(kvs, "ts", stamp) && TextUnder(kvs, "ev", Ascii("sdma"))
    && NumberUnder(kvs, "gpu_id", c.gpuId) && NumberUnder(kvs, "pid", c.pid) && TextUnder(kvs, "comm", c.comm)
    && NumberUnder(kvs, "queue_uid", r.queueUid) && NumberUnder(kvs, "seq", r.seqNo) && TextUnder(kvs, "op", r.opName)
    && CopyTold(kvs, r)
    && DurationUnder(kvs, "dur_us", timed, (r.completeTs - r.submitTs) * 1000000.0)
  }

  lemma HexTextReads(n: nat)
    ensures CStr(HexText(n)) == HexText(n) && |HexText(n)| > 2
    ensures HexText(n)[0] == 48 && HexText(n)[1] == 120 && HexNumber(HexText(n)[2..]) == n
  {
    hide Hex, HexNumber;
    HexReadsBack(n);
    CStrWhole(HexText(n));
    assert Ascii("0x") == [48, 120];
    assert HexText(n)[2..] == Hex(n);
  }

  lemma HexFound(ms: seq<Member>, ks: seq<string>, i: nat, n: nat)
    requires KeyedBy(ms, ks) && KeysApart(ks) && i < |ks| && ms[i].value == Str(HexText(n))
    ensures HexUnder(Meanings(ms), ks[i], n)
  {
    hide Meanings, Ascii, CStr, HexText, HexNumber;
    LookupAt(ms, ks, i, ks[i]);
    HexTextReads(n);
  }

  /** Length, first and last letter of a key as one number: no two keys of a line share it. */
  function Tag(k: string): nat {
    if k == [] then 0 else |k| + 100 * (k[0] as int) + 100000 * (k[|k| - 1] as int)
  }

  predicate AllPlain(ks: seq<string>) {
    forall i :: 0 <= i < |ks| ==> PlainKey(ks[i])
  }

  predicate Tagged(ks: seq<string>, tags: seq<nat>) {
    |ks| == |tags| && forall i :: 0 <= i < |ks| ==> Tag(ks[i]) == tags[i]
  }

  predicate TagsApart(tags: seq<nat>) {
    forall i, j :: 0 <= i < j < |tags| ==> tags[i] != tags[j]
  }

  lemma TagsTell(ks: seq<string>, tags: seq<nat>)
    requires AllPlain(ks) && Tagged(ks, tags) && TagsApart(tags)
    ensures KeysApart(ks)
  {
    hide PlainKey, Tag;
  }

  const QUEUE_TAGS: seq<nat> := [11511602, 11810102, 10010704, 10010306, 10011203, 10909904, 10011309, 10111305, 10111409, 9711407, 11511409]

  lemma QueuePlain()
    ensures AllPlain(QUEUE_KEYS)
  {
  }

  lemma QueueTagged()
    ensures Tagged(QUEUE_KEYS, QUEUE_TAGS)
  {
  }

  lemma QueueTagsApart()
    ensures TagsApart(QUEUE_TAGS)
  {
  }

  lemma QueueKeysApart()
    ensures KeysApart(QUEUE_KEYS)
  {
    hide AllPlain, Tagged, TagsApart, KeysApart;
    QueuePlain();
    QueueTagged();
    QueueTagsApart();
    TagsTell(QUEUE_KEYS, QUEUE_TAGS);
  }

  const DISPATCH_TAGS: seq<nat> := [11511602, 11810102, 10010306, 10011203, 10909904, 10011309, 10010011, 10810706, 10010304, 10311902, 11510803, 10411507, 11510006]

  lemma DispatchPlain()
    ensures AllPlain(DISPATCH_KEYS + ["dur_us"])
  {
  }

  lemma DispatchTagged()
    ensures Tagged(DISPATCH_KEYS + ["dur_us"], DISPATCH_TAGS)
  {
  }

  lemma DispatchTagsApart()
    ensures TagsApart(DISPATCH_TAGS)
  {
  }

  lemma DispatchKeysApart()
    ensures KeysApart(DISPATCH_KEYS + ["dur_us"])
  {
    hide AllPlain, Tagged, TagsApart, KeysApart;
    DispatchPlain();
    DispatchTagged();
    DispatchTagsApart();
    TagsTell(DISPATCH_KEYS + ["dur_us"], DISPATCH_TAGS);
  }

  const SDMA_TAGS: seq<nat> := [11511602, 11810102, 10010306, 10011203, 10909904, 10011309, 11311503, 11211102, 11410003, 11509805, 11510006]

  lemma SdmaPlain()
    ensures AllPlain(SDMA_KEYS + ["dir", "bytes", "dur_us"])
  {
  }

  lemma SdmaTagged()
    ensures Tagged(SDMA_KEYS + ["dir", "bytes", "dur_us"], SDMA_TAGS)
  {
  }

  lemma SdmaTagsApart()
    ensures TagsApart(SDMA_TAGS)
  {
  }

  lemma SdmaKeysApart()
    ensures KeysApart(SDMA_KEYS + ["dir", "bytes", "dur_us"])
  {
    hide AllPlain, Tagged, TagsApart, KeysApart;
    SdmaPlain();
    SdmaTagged();
    SdmaTagsApart();
    TagsTell(SDMA_KEYS + ["dir", "bytes", "dur_us"], SDMA_TAGS);
  }

  lemma KeysPrefix(ks: seq<string>, more: seq<string>)
    requires KeysApart(ks + more)
    ensures KeysApart(ks)
  {
    hide PlainKey;
    assert forall i :: 0 <= i < |ks| ==> (ks + more)[i] == ks[i];
  }

  lemma KeysWithout(ks: seq<string>, out: seq<string>, more: seq<string>)
    requires KeysApart(ks + out + more)
    ensures KeysApart(ks + more)
  {
    hide PlainKey;
    var all := ks + out + more;
    assert forall i :: 0 <= i < |ks| ==> all[i] == ks[i];
    assert forall i :: 0 <= i < |more| ==> all[|ks| + |out| + i] == more[i];
  }

  lemma QueueKeyed(q: QueueInfo, kind: Bytes, stamp: Bytes)
    ensures KeyedBy(QueueMembers(q, kind, stamp), QUEUE_KEYS)
    ensures var ms := QueueMembers(q, kind, stamp);
            && ms[0].value == Str(stamp) && ms[1].value == Str(Ascii("queue")) && ms[2].value == Str(kind)
            && ms[3].value == Num(Whole(q.gpuId)) && ms[4].value == Num(Whole(q.pid)) && ms[5].value == Str(q.comm)
            && ms[6].value == Num(Whole(q.uid)) && ms[7].value == Num(Whole(q.qtype)) && ms[8].value == Num(Whole(q.ringSize))
            && ms[9].value == Str(HexText(q.ringBase)) && ms[10].value == Str(HexText(q.ringPhys))
  {
    hide Ascii, HexText;
  }

  /** A queue line, read back, says what the queue is. */
  lemma QueueReads(q: QueueInfo, kind: Bytes, stamp: Bytes)
    ensures QueueTold(Meanings(QueueMembers(q, kind, stamp)), q, kind, stamp)
  {
    hide QueueMembers, Ascii, HexText, Meanings, KeysApart, KeyedBy, TextUnder, NumberUnder, HexUnder;
    var ms, ks := QueueMembers(q, kind, stamp), QUEUE_KEYS;
    QueueKeysApart();
    QueueKeyed(q, kind, stamp);
    MeaningsCount(ms);
    KeyedCount(ms, ks);
    TextFound(ms, ks, 0, stamp);
    TextFound(ms, ks, 1, Ascii("queue"));
    TextFound(ms, ks, 2, kind);
    NumberFound(ms, ks, 3, q.gpuId);
    NumberFound(ms, ks, 4, q.pid);
    TextFound(ms, ks, 5, q.comm);
    NumberFound(ms, ks, 6, q.uid);
    NumberFound(ms, ks, 7, q.qtype);
    NumberFound(ms, ks, 8, q.ringSize);
    HexFound(ms, ks, 9, q.ringBase);
    HexFound(ms, ks, 10, q.ringPhys);
  }

  lemma KeyedCount(ms: seq<Member>, ks: seq<string>)
    requires KeyedBy(ms, ks)
    ensures |ms| == |ks|
  {
  }

  lemma NanosRound(submit: real, complete: real)
    requires complete > submit
    ensures var us := NanosOf(submit, complete) as real / 1000.0;
            -0.0005 <= us - (complete - submit) * 1000000.0 <= 0.0005
  {
  }

  /** The keys of a line that may end in a duration. */
  function TimedKeys(ks: seq<string>, completed: bool, submit: real, complete: real): seq<string> {
    if completed && complete > submit then ks + ["dur_us"] else ks
  }

  lemma DurationFound(ms: seq<Member>, ks: seq<string>, completed: bool, submit: real, complete: real)
    requires KeyedBy(ms, ks) && KeysApart(ks + ["dur_us"])
    ensures var full, keys := WithDuration(ms, completed, submit, complete), TimedKeys(ks, completed, submit, complete);
            && KeyedBy(full, keys) && KeysApart(keys) && |full| >= |ms| && full[..|ms|] == ms && keys[..|ks|] == ks
            && DurationUnder(Meanings(full), "dur_us", completed && complete > submit, (complete - submit) * 1000000.0)
  {
    hide Ascii, PlainKey, NanosOf, Meanings, TokenValue, NumberText;
    var full, keys := WithDuration(ms, completed, submit, complete), TimedKeys(ks, completed, submit, complete);
    KeysPrefix(ks, ["dur_us"]);
    var at := |ks|;
    assert (ks + ["dur_us"])[at] == "dur_us" && forall i :: 0 <= i < at ==> (ks + ["dur_us"])[i] == ks[i];
    LookupAt(full, keys, at, "dur_us");
    if completed && complete > submit {
      ThousandthsDenotes(NanosOf(submit, complete));
      NanosRound(submit, complete);
    }
  }

  lemma DispatchKeyed(r: PacketRecord, c: Ctx, stamp: Bytes)
    ensures KeyedBy(DispatchBase(r, c, stamp), DISPATCH_KEYS)
  {
    hide Ascii;
  }

  lemma DispatchValues(r: PacketRecord, c: Ctx, stamp: Bytes)
    ensures var ms, d := DispatchBase(r, c, stamp), r.dispatch;
            && |ms| == 12
            && ms[0].value == Str(stamp) && ms[1].value == Str(Ascii("dispatch")) && ms[2].value == Num(Whole(c.gpuId))
            && ms[3].value == Num(Whole(c.pid)) && ms[4].value == Str(c.comm) && ms[5].value == Num(Whole(r.queueUid))
            && ms[6].value == Num(Whole(r.dispatchId)) && ms[7].value == Str(r.kernelName)
            && ms[8].value == Triple(d.grid.0, d.grid.1, d.grid.2) && ms[9].value == Triple(d.wg.0, d.wg.1, d.wg.2)
            && ms[10].value == Num(Whole(d.groupSeg)) && ms[11].value == Num(Whole(d.privateSeg))
  {
    hide Ascii;
  }

  /** A dispatch line, read back, says what the record says; the duration it shows is the record's to half a nanosecond,
      and is there exactly when the packet completed after it was submitted. */
  lemma DispatchReads(r: PacketRecord, c: Ctx, stamp: Bytes)
    ensures DispatchTold(Meanings(DispatchMembers(r, c, stamp)), r, c, stamp)
  {
    hide DispatchBase, WithDuration, TimedKeys, Ascii, Meanings, KeysApart, TextUnder, NumberUnder, TripleUnder, DurationUnder;
    var base, ms := DispatchBase(r, c, stamp), DispatchMembers(r, c, stamp);
    var ks := TimedKeys(DISPATCH_KEYS, r.completed, r.submitTs, r.completeTs);
    DispatchKeysApart();
    DispatchKeyed(r, c, stamp);
    DispatchValues(r, c, stamp);
    DurationFound(base, DISPATCH_KEYS, r.completed, r.submitTs, r.completeTs);
    TimedCount(DISPATCH_KEYS, r.completed, r.submitTs, r.completeTs);
    MeaningsCount(ms);
    FrontKept(base, ms, DISPATCH_KEYS, ks);
    TextFound(ms, ks, 0, stamp);
    TextFound(ms, ks, 1, Ascii("dispatch"));
    NumberFound(ms, ks, 2, c.gpuId);
    NumberFound(ms, ks, 3, c.pid);
    TextFound(ms, ks, 4, c.comm);
    NumberFound(ms, ks, 5, r.queueUid);
    NumberFound(ms, ks, 6, r.dispatchId);
    TextFound(ms, ks, 7, r.kernelName);
    TripleFound(ms, ks, 8, r.dispatch.grid.0, r.dispatch.grid.1, r.dispatch.grid.2);
    TripleFound(ms, ks, 9, r.dispatch.wg.0, r.dispatch.wg.1, r.dispatch.wg.2);
    NumberFound(ms, ks, 10, r.dispatch.groupSeg);
    NumberFound(ms, ks, 11, r.dispatch.privateSeg);
  }

  lemma TimedCount(ks: seq<string>, completed: bool, submit: real, complete: real)
    ensures |TimedKeys(ks, completed, submit, complete)| == |ks| + if completed && complete > submit then 1 else 0
  {
  }

  /** The keys of an SDMA line in front of its duration. */
  function SdmaKeys(r: SdmaRecord): seq<string> {
    if r.opcode == 1 then SDMA_KEYS + ["dir", "bytes"] else SDMA_KEYS
  }

  function SdmaFront(r: SdmaRecord, c: Ctx, stamp: Bytes): seq<Member> {
    if TraceWriters.IsCopy(r) then WithCopy(SdmaBase(r, c, stamp), r) else SdmaBase(r, c, stamp)
  }

  lemma SdmaKeyed(r: SdmaRecord, c: Ctx, stamp: Bytes)
    ensures KeyedBy(SdmaFront(r, c, stamp), SdmaKeys(r))
    ensures var ms := SdmaFront(r, c, stamp);
            && ms[0].value == Str(stamp) && ms[1].value == Str(Ascii("sdma")) && ms[2].value == Num(Whole(c.gpuId))
            && ms[3].value == Num(Whole(c.pid)) && ms[4].value == Str(c.comm) && ms[5].value == Num(Whole(r.queueUid))
            && ms[6].value == Num(Whole(r.seqNo)) && ms[7].value == Str(r.opName)
            && (r.opcode == 1 ==>
                  ms[8].value == Str(Ascii(TraceWriters.DirName(r.dir))) && ms[9].value == Num(Whole(r.bytes)))
  {
    hide Ascii, TraceWriters.DirName;
  }

  lemma NotAmong(ks: seq<string>, more: seq<string>, k: string)
    requires KeysApart(ks + more) && k in more
    ensures k !in ks
  {
    hide PlainKey;
    var all := ks + more;
    var i :| 0 <= i < |more| && more[i] == k;
    assert all[|ks| + i] == k && forall j :: 0 <= j < |ks| ==> all[j] == ks[j];
  }

  lemma SdmaKeysFit(r: SdmaRecord)
    ensures KeysApart(SdmaKeys(r) + ["dur_us"])
    ensures "dir" !in SDMA_KEYS && "bytes" !in SDMA_KEYS
  {
    hide KeysApart;
    var more := ["dir", "bytes", "dur_us"];
    SdmaKeysApart();
    assert SDMA_KEYS + ["dir", "bytes"] + ["dur_us"] == SDMA_KEYS + more;
    KeysWithout(SDMA_KEYS, ["dir", "bytes"], ["dur_us"]);
    assert more[0] == "dir" && more[1] == "bytes";
    NotAmong(SDMA_KEYS, more, "dir");
    NotAmong(SDMA_KEYS, more, "bytes");
  }

  lemma CopyReads(r: SdmaRecord, ms: seq<Member>, ks: seq<string>)
    requires KeyedBy(ms, ks) && KeysApart(ks)
    requires if r.opcode == 1
             then
               && |ks| >= 10 && ks[8] == "dir" && ks[9] == "bytes"
               && ms[8].value == Str(Ascii(TraceWriters.DirName(r.dir))) && ms[9].value == Num(Whole(r.bytes))
             else "dir" !in ks && "bytes" !in ks
    ensures CopyTold(Meanings(ms), r)
  {
    hide Ascii, Meanings, KeysApart, KeyedBy, TextUnder, NumberUnder, Lookup;
    if r.opcode == 1 {
      TextFound(ms, ks, 8, Ascii(TraceWriters.DirName(r.dir)));
      NumberFound(ms, ks, 9, r.bytes);
    } else {
      PlainExtras();
      LookupAt(ms, ks, |ks|, "dir");
      LookupAt(ms, ks, |ks|, "bytes");
    }
  }

  lemma PlainExtras()
    ensures PlainKey("dir") && PlainKey("bytes")
  {
  }

  /** An SDMA line, read back, says what the record says. */
  lemma SdmaReads(r: SdmaRecord, c: Ctx, stamp: Bytes)
    ensures SdmaTold(Meanings(SdmaMembers(r, c, stamp)), r, c, stamp)
  {
    hide SdmaBase, WithCopy, WithDuration, Ascii, Meanings, KeysApart, TextUnder, NumberUnder, DurationUnder, CopyTold, TraceWriters.DirName;
    var front, ms := SdmaFront(r, c, stamp), SdmaMembers(r, c, stamp);
    var ks := TimedKeys(SdmaKeys(r), r.completed, r.submitTs, r.completeTs);
    SdmaKeysFit(r);
    SdmaKeyed(r, c, stamp);
    DurationFound(front, SdmaKeys(r), r.completed, r.submitTs, r.completeTs);
    MeaningsCount(ms);
    FrontKept(front, ms, SdmaKeys(r), ks);
    TextFound(ms, ks, 0, stamp);
    TextFound(ms, ks, 1, Ascii("sdma"));
    NumberFound(ms, ks, 2, c.gpuId);
    NumberFound(ms, ks, 3, c.pid);
    TextFound(ms, ks, 4, c.comm);
    NumberFound(ms, ks, 5, r.queueUid);
    NumberFound(ms, ks, 6, r.seqNo);
    TextFound(ms, ks, 7, r.opName);
    CopyReads(r, ms, ks);
  }

  lemma FrontKept(front: seq<Member>, ms: seq<Member>, fks: seq<string>, ks: seq<string>)
    requires |front| <= |ms| && front == ms[..|front|] && |fks| <= |ks| && fks == ks[..|fks|]
    ensures forall i :: 0 <= i < |front| ==> ms[i] == front[i]
    ensures forall i :: 0 <= i < |fks| ==> ks[i] == fks[i]
  {
  }

  /** What a reader of the file gets from its last line. */
  function LastRead(file: Bytes): Option<Members> {
    var lines := Lines(file);
    if lines == [] then None else ReadObject(lines[|lines| - 1])
  }

  lemma LastReads(entries: seq<seq<Member>>, ms: seq<Member>)
    ensures LastRead(LinesOf(entries + [ms])) == Some(Meanings(ms))
  {
    hide Lines, ReadObject, Meanings, LinesOf;
    LogReadsBack(entries + [ms]);
  }

  // ---- Printing ----

  /** Escaping goes on one character at a time until the string or its first NUL ends it. */
  lemma EscapedAt(s: Bytes, i: nat)
    requires i <= |s|
    ensures Escaped(s[i..]) == if i == |s| || s[i] == 0 then [] else EscByte(s[i]) + Escaped(s[i + 1..])
  {
    if i < |s| {
      assert s[i..][1..] == s[i + 1..];
    }
  }

  /** The line under construction: `std::string o = "{"` and the Append functions. */
  class Line {
    var text: Bytes
    /** The members appended so far. */
    ghost var members: seq<Member>

    ghost predicate Valid()
      reads this
    {
      text == OpenObject(members)
    }

    constructor ()
      ensures Valid() && members == []
    {
      text, members := [OPEN_BRACE], [];
    }

    method AppendEscaped(s: Bytes)
      modifies this`text
      ensures text == old(text) + Quoted(s)
    {
      hide Escaped, EscByte;
      ghost var start := text + [QUOTE];
      text := text + [QUOTE];
      var i := 0;
      assert s[0..] == s;
      while i < |s| && s[i] != 0
        invariant i <= |s| && text + Escaped(s[i..]) == start + Escaped(s)
      {
        EscapedAt(s, i);
        Assoc(text, EscByte(s[i]), Escaped(s[i + 1..]));
        AppendByte(s[i]);
        i := i + 1;
      }
      EscapedAt(s, i);
      assert text == text + Escaped(s[i..]);
      text := text + [QUOTE];
      Assoc(old(text), [QUOTE], Escaped(s));
      Assoc(old(text), [QUOTE] + Escaped(s), [QUOTE]);
    }

    method AppendByte(c: u8)
      modifies this`text
      ensures text == old(text) + EscByte(c)
    {
      match c
      case 34 => text := text + [BACKSLASH, QUOTE];
      case 92 => text := text + [BACKSLASH, BACKSLASH];
      case 10 => text := text + [BACKSLASH, 110];
      case 13 => text := text + [BACKSLASH, 114];
      case 9 => text := text + [BACKSLASH, 116];
      case _ =>
        if c < SPACE {
          text := text + [BACKSLASH, 117, 48, 48, HexDigit(c / 16), HexDigit(c % 16)];
        } else {
          text := text + [c];
        }
    }

    /** Decides on the comma by the last character written. */
    method AppendKey(key: Bytes)
      requires Valid()
      modifies this`text
      ensures text == old(text) + (if members == [] then [] else [COMMA]) + Quoted(key) + [COLON]
    {
      hide OpenObject, Quoted, Escaped;
      LastCharTells(members);
      if text[|text| - 1] != OPEN_BRACE {
        text := text + [COMMA];
      } else {
        assert text + [] == text;
      }
      AppendEscaped(key);
      text := text + [COLON];
    }

    /** Records the member whose key and value have been written. */
    ghost method Close(before: Bytes, m: Member)
      requires before == OpenObject(members)
      requires text == before + (if members == [] then [] else [COMMA]) + Quoted(m.key) + [COLON] + ValueText(m.value)
      modifies this`members
      ensures Valid() && members == old(members) + [m]
    {
      hide Quoted, ValueText;
      members := members + [m];
      assert members[..|members| - 1] == old(members);
    }

    method AppendStr(key: Bytes, val: Bytes)
      requires Valid()
      modifies this
      ensures Valid() && members == old(members) + [Member(key, Str(val))]
    {
      hide OpenObject, Quoted;
      ghost var before := text;
      AppendKey(key);
      AppendEscaped(val);
      Close(before, Member(key, Str(val)));
    }

    method AppendNum(key: Bytes, val: nat)
      requires Valid()
      modifies this
      ensures Valid() && members == old(members) + [Member(key, Num(Whole(val)))]
    {
      hide OpenObject, Quoted, Decimal;
      ghost var before := text;
      AppendKey(key);
      text := text + Decimal(val);
      Close(before, Member(key, Num(Whole(val))));
    }

    method AppendFixed(key: Bytes, thousandths: nat)
      requires Valid()
      modifies this
      ensures Valid() && members == old(members) + [Member(key, Num(Thousandths(thousandths)))]
    {
      hide OpenObject, Quoted, NumberText;
      ghost var before := text;
      AppendKey(key);
      text := text + NumberText(Thousandths(thousandths));
      Close(before, Member(key, Num(Thousandths(thousandths))));
    }

    method AppendTriple(key: Bytes, a: nat, b: nat, c: nat)
      requires Valid()
      modifies this
      ensures Valid() && members == old(members) + [Member(key, Triple(a, b, c))]
    {
      hide OpenObject, Quoted, Decimal;
      ghost var before := text;
      AppendKey(key);
      text := text + ([OPEN_BRACKET] + Decimal(a) + [COMMA] + Decimal(b) + [COMMA] + Decimal(c) + [CLOSE_BRACKET]);
      Close(before, Member(key, Triple(a, b, c)));
    }

    /** Only for a packet that completed strictly after it was submitted. */
    method AppendDuration(completed: bool, submit: real, complete: real)
      requires Valid()
      modifies this
      ensures Valid() && members == WithDuration(old(members), completed, submit, complete)
    {
      hide OpenObject, Ascii, NanosOf;
      if completed && complete > submit {
        AppendFixed(Ascii("dur_us"), NanosOf(submit, complete));
      }
    }
  }

  /** The log of one run. */
  class DispatchLog {
    var file: Bytes
    /** What has been logged. */
    ghost var entries: seq<seq<Member>>

    ghost predicate Valid()
      reads this
    {
      file == LinesOf(entries)
    }

    constructor ()
      ensures Valid() && entries == []
    {
      file, entries := [], [];
    }

    /** Closes the object and writes it as one line. */
    method WriteLine(o: Line)
      requires Valid() && o.Valid()
      modifies this, o`text
      ensures Valid() && entries == old(entries) + [o.members]
    {
      hide OpenObject, LinesOf;
      o.text := o.text + [CLOSE_BRACE];
      file := file + o.text;
      file := file + [NEWLINE];
      LinesOfSnoc(entries, o.members);
      entries := entries + [o.members];
    }

    method LogQueue(q: QueueInfo, kind: Bytes, stamp: Bytes)
      requires Valid()
      modifies this
      ensures Valid() && entries == old(entries) + [QueueMembers(q, kind, stamp)]
      ensures LastRead(file).Some? && QueueTold(LastRead(file).value, q, kind, stamp)
    {
      hide OpenObject, LinesOf, Ascii, HexText, LastRead, Meanings, QueueTold;
      var o := new Line();
      o.AppendStr(Ascii("ts"), stamp);
      o.AppendStr(Ascii("ev"), Ascii("queue"));
      o.AppendStr(Ascii("kind"), kind);
      o.AppendNum(Ascii("gpu_id"), q.gpuId);
      o.AppendNum(Ascii("pid"), q.pid);
      o.AppendStr(Ascii("comm"), q.comm);
      o.AppendNum(Ascii("queue_uid"), q.uid);
      o.AppendNum(Ascii("qtype"), q.qtype);
      o.AppendNum(Ascii("ring_size"), q.ringSize);
      o.AppendStr(Ascii("ring_va"), HexText(q.ringBase));
      o.AppendStr(Ascii("ring_phys"), HexText(q.ringPhys));
      QueueReads(q, kind, stamp);
      LastReads(entries, o.members);
      WriteLine(o);
    }

    method LogDispatch(r: PacketRecord, c: Ctx, stamp: Bytes)
      requires Valid()
      modifies this
      ensures Valid() && entries == old(entries) + [DispatchMembers(r, c, stamp)]
      ensures LastRead(file).Some? && DispatchTold(LastRead(file).value, r, c, stamp)
    {
      hide OpenObject, LinesOf, Ascii, WithDuration, LastRead, Meanings, DispatchTold;
      var o := new Line();
      o.AppendStr(Ascii("ts"), stamp);
      o.AppendStr(Ascii("ev"), Ascii("dispatch"));
      o.AppendNum(Ascii("gpu_id"), c.gpuId);
      o.AppendNum(Ascii("pid"), c.pid);
      o.AppendStr(Ascii("comm"), c.comm);
      o.AppendNum(Ascii("queue_uid"), r.queueUid);
      o.AppendNum(Ascii("dispatch_id"), r.dispatchId);
      o.AppendStr(Ascii("kernel"), r.kernelName);
      o.AppendTriple(Ascii("grid"), r.dispatch.grid.0, r.dispatch.grid.1, r.dispatch.grid.2);
      o.AppendTriple(Ascii("wg"), r.dispatch.wg.0, r.dispatch.wg.1, r.dispatch.wg.2);
      o.AppendNum(Ascii("lds"), r.dispatch.groupSeg);
      o.AppendNum(Ascii("scratch"), r.dispatch.privateSeg);
      o.AppendDuration(r.completed, r.submitTs, r.completeTs);
      DispatchReads(r, c, stamp);
      LastReads(entries, o.members);
      WriteLine(o);
    }

    method LogSdma(r: SdmaRecord, c: Ctx, stamp: Bytes)
      requires Valid()
      modifies this
      ensures Valid() && entries == old(entries) + [SdmaMembers(r, c, stamp)]
      ensures LastRead(file).Some? && SdmaTold(LastRead(file).value, r, c, stamp)
    {
      hide OpenObject, LinesOf, Ascii, WithDuration, TraceWriters.DirName, LastRead, Meanings, SdmaTold;
      var o := new Line();
      o.AppendStr(Ascii("ts"), stamp);
      o.AppendStr(Ascii("ev"), Ascii("sdma"));
      o.AppendNum(Ascii("gpu_id"), c.gpuId);
      o.AppendNum(Ascii("pid"), c.pid);
      o.AppendStr(Ascii("comm"), c.comm);
      o.AppendNum(Ascii("queue_uid"), r.queueUid);
      o.AppendNum(Ascii("seq"), r.seqNo);
      o.AppendStr(Ascii("op"), r.opName);
      if TraceWriters.IsCopy(r) {
        o.AppendStr(Ascii("dir"), Ascii(TraceWriters.DirName(r.dir)));
        o.AppendNum(Ascii("bytes"), r.bytes);
      }
      o.AppendDuration(r.completed, r.submitTs, r.completeTs);
      SdmaReads(r, c, stamp);
      LastReads(entries, o.members);
      WriteLine(o);
    }
  }
}
