/** The page cache behind the copy direction (IsHostVA and ClassifyDir in src/parser.cpp). */
module PageCache {
  import opened Model

  const PAGE: nat := 0x1000
  const PAGE_CACHE_MAX: nat := 0x1_0000

  type Cache = map<u64, bool>

  function PageOf(va: u64): u64 {
    va - va % PAGE
  }

  /** One cached query. `host` is the page map: whether a page has a physical frame. */
  function IsHostVA(host: u64 -> bool, cache: Cache, va: u64): (bool, Cache) {
    var page := PageOf(va);
    if page in cache then (cache[page], cache)
    else
      var h := host(page);
      var kept := if |cache| >= PAGE_CACHE_MAX then map[] else cache;
      (h, kept[page := h])
  }

  function Direction(srcHost: bool, dstHost: bool): CopyDir {
    if srcHost && !dstHost then HostToDevice
    else if !srcHost && dstHost then DeviceToHost
    else if !srcHost && !dstHost then DeviceToDevice
    else HostToHost
  }

  function ClassifyDir(host: u64 -> bool, cache: Cache, src: u64, dst: u64): (CopyDir, Cache) {
    var (srcHost, c1) := IsHostVA(host, cache, src);
    var (dstHost, c2) := IsHostVA(host, c1, dst);
    (Direction(srcHost, dstHost), c2)
  }

  /** The classification without a cache. */
  function Uncached(host: u64 -> bool, src: u64, dst: u64): CopyDir {
    Direction(host(PageOf(src)), host(PageOf(dst)))
  }

  ghost predicate Coherent(host: u64 -> bool, cache: Cache) {
    |cache| <= PAGE_CACHE_MAX && forall p :: p in cache ==> cache[p] == host(p)
  }

  lemma QueryCoherent(host: u64 -> bool, cache: Cache, va: u64)
    requires Coherent(host, cache)
    ensures IsHostVA(host, cache, va).0 == host(PageOf(va))
    ensures Coherent(host, IsHostVA(host, cache, va).1)
  {
  }

  /** Nothing is forgotten before the cache is full, and a full one is not added to. */
  lemma QueryKeeps(host: u64 -> bool, cache: Cache, va: u64, page: u64)
    requires page in cache && (|cache| < 65536 || va - va % 0x1000 in cache)
    ensures page in IsHostVA(host, cache, va).1 && IsHostVA(host, cache, va).1[page] == cache[page]
    ensures |IsHostVA(host, cache, va).1| <= |cache| + 1
  {
    var kept := IsHostVA(host, cache, va).1;
    if va - va % 0x1000 !in cache {
      assert kept.Keys == cache.Keys + {va - va % 0x1000};
    }
  }

  function Queries(host: u64 -> bool, cache: Cache, qs: seq<(u64, u64)>): (seq<CopyDir>, Cache)
    decreases |qs|
  {
    if qs == [] then ([], cache)
    else
      var (dir, c) := ClassifyDir(host, cache, qs[0].0, qs[0].1);
      var (dirs, rest) := Queries(host, c, qs[1..]);
      ([dir] + dirs, rest)
  }

  /** For any sequence of queries against a fixed page map the cache is invisible, across clears, and never
      exceeds its maximum. */
  lemma {:induction false} CacheTransparent(host: u64 -> bool, cache: Cache, qs: seq<(u64, u64)>)
    requires Coherent(host, cache)
    ensures var r := Queries(host, cache, qs);
            && |r.0| == |qs|
            && (forall i :: 0 <= i < |qs| ==> r.0[i] == Uncached(host, qs[i].0, qs[i].1))
            && Coherent(host, r.1) && |r.1| <= 65536
    decreases |qs|
  {
    if qs != [] {
      QueryCoherent(host, cache, qs[0].0);
      QueryCoherent(host, IsHostVA(host, cache, qs[0].0).1, qs[0].1);
      CacheTransparent(host, ClassifyDir(host, cache, qs[0].0, qs[0].1).1, qs[1..]);
    }
  }
}

/** One poll of an SDMA queue (RingParser::PollSdmaQueue and ReadRingDwords in src/parser.cpp). */
module SdmaPoll {
  import opened Model
  import opened OrderedMap
  import opened SdmaPackets
  import opened PageCache

  /** What the window at a ring position shows: nothing readable, no decidable length, or a length. */
  datatype Shown = Unreadable | Undecided | Sized(len: nat, dws: seq<u32>)

  type Look = w: Shown | w.Sized? ==> w.len > 0 && |w.dws| > 0 witness Unreadable

  function LookAt(version: Version, window: Option<seq<u32>>): Look {
    match window
    case None => Unreadable
    case Some(dws) =>
      var len := PacketLen(version, dws);
      if len == 0 then Undecided else Sized(len, dws)
  }

  /** One poll's view: the two pointers in dwords, what each ring position shows, and the page map. Every position
      is looked at no more than once per poll, so `look` describes memory that changes during the poll
      just as well. */
  datatype SdmaView = SdmaView(wptr: u64, rptr: u64, look: u64 -> Look, host: u64 -> bool)

  /** Queue pointers are published as byte offsets. */
  function RingBytesToDwords(bytes: u64): u64 {
    bytes / 4
  }

  /** What the decoder does at the front of the unread stream. */
  datatype Verdict = Wait | Resync | Take(len: nat, dws: seq<u32>)

  function Front(v: SdmaView, pos: u64): Verdict
    requires pos < v.wptr
  {
    var avail := v.wptr - pos;
    match v.look(pos)
    case Unreadable => Wait
    case Undecided => if avail < 4 then Wait else Resync
    case Sized(len, dws) => if len > avail then Wait else Take(len, dws)
  }

  /** A decoded packet: where it starts, its length and the window it was decoded from. */
  datatype Taken = Taken(start: u64, len: nat, dws: seq<u32>)

  predicate Plausible(t: Taken) {
    t.len > 0 && t.start + t.len < U64 && |t.dws| > 0
  }

  type Packet = t: Taken | Plausible(t) witness Taken(0, 1, [0])

  function End(t: Packet): u64 {
    t.start + t.len
  }

  /** The packets one poll decodes from `pos` on. */
  function Walk(v: SdmaView, pos: u64): seq<Packet>
    decreases if pos < v.wptr then v.wptr - pos else 0
  {
    if pos >= v.wptr then []
    else
      match Front(v, pos)
      case Take(len, dws) => [Taken(pos, len, dws)] + Walk(v, pos + len)
      case _ => []
  }

  /** Where the walk ends, and whether it lost synchronisation there. */
  function WalkEnd(v: SdmaView, pos: u64): u64
    decreases if pos < v.wptr then v.wptr - pos else 0
  {
    if pos >= v.wptr then pos
    else
      match Front(v, pos)
      case Take(len, dws) => WalkEnd(v, pos + len)
      case _ => pos
  }

  predicate Lost(v: SdmaView, pos: u64) {
    var end := WalkEnd(v, pos);
    end < v.wptr && Front(v, end).Resync?
  }

  // ---- Records ----

  predicate HasAddresses(version: Version, dws: seq<u32>) {
    && |dws| >= 7
    && HeaderOp(dws[0]) == OP_COPY && IsLinearCopy(version, HeaderSubOp(dws[0]))
  }

  function Addr(lo: u32, hi: u32): u64 {
    lo as int + 0x1_0000_0000 * (hi as int)
  }

  function Src(dws: seq<u32>): u64
    requires |dws| >= 7
  {
    Addr(dws[3], dws[4])
  }

  function Dst(dws: seq<u32>): u64
    requires |dws| >= 7
  {
    Addr(dws[5], dws[6])
  }

  /** The record of a packet, given the direction of its copy. */
  function RecordOf(info: QueueInfo, seqNo: u64, dws: seq<u32>, dir: CopyDir, now: real): SdmaRecord
    requires |dws| > 0
  {
    var op, sub, ver := HeaderOp(dws[0]), HeaderSubOp(dws[0]), info.sdmaVersion;
    var name := PacketName(ver, dws[0]);
    if HasAddresses(ver, dws)
    then SdmaRecord(info.uid, seqNo, op, sub, ver, name, LinearCopyBytes(ver, sub, dws[1]), Src(dws), Dst(dws), dir, now, 0.0, false)
    else SdmaRecord(info.uid, seqNo, op, sub, ver, name, 0, 0, 0, UnknownDir, now, 0.0, false)
  }

  /** A linear copy as the runtime builds it. */
  function CopyPacket(version: Version, bytes: nat, src: u64, dst: u64, parameters: u32): seq<u32>
    requires 1 <= bytes <= 0x4000_0000
  {
    [OP_COPY, bytes - 1, parameters, src % 0x1_0000_0000, src / 0x1_0000_0000, dst % 0x1_0000_0000, dst / 0x1_0000_0000] +
    if version == V7 then [0] else []
  }

  /** The decoder inverts the layout: a linear copy of any size its count field can hold is one packet whose record
      gives back the size and both addresses. */
  lemma CopyReadsBack(info: QueueInfo, bytes: nat, src: u64, dst: u64, parameters: u32, seqNo: u64, dir: CopyDir, now: real)
    requires Supported(info.sdmaVersion) && 1 <= bytes <= if info.sdmaVersion == V4 then 0x40_0000 else 0x4000_0000
    ensures var p := CopyPacket(info.sdmaVersion, bytes, src, dst, parameters);
            && IsPacket(info.sdmaVersion, p) && HasAddresses(info.sdmaVersion, p)
            && var r := RecordOf(info, seqNo, p, dir, now);
               r.bytes == bytes && r.src == src && r.dst == dst && r.dir == dir && r.opcode == OP_COPY
  {
    hide PacketName;
    var p := CopyPacket(info.sdmaVersion, bytes, src, dst, parameters);
    assert HeaderOp(p[0]) == OP_COPY && HeaderSubOp(p[0]) == COPY_LINEAR && !HeaderBroadcast(p[0]);
    assert PacketLen(info.sdmaVersion, p) == |p|;
  }

  /** The page cache after decoding the given packets in order. */
  function CacheAfter(version: Version, host: u64 -> bool, cache: Cache, ps: seq<Packet>): Cache {
    if ps == [] then cache
    else
      var c, dws := CacheAfter(version, host, cache, ps[..|ps| - 1]), ps[|ps| - 1].dws;
      if HasAddresses(version, dws) then ClassifyDir(host, c, Src(dws), Dst(dws)).1 else c
  }

  function DirOf(version: Version, host: u64 -> bool, cache: Cache, dws: seq<u32>): CopyDir {
    if HasAddresses(version, dws) then ClassifyDir(host, cache, Src(dws), Dst(dws)).0 else UnknownDir
  }

  /** The map entries of the packets: keyed by end, numbered from `seq0`, directions through the cache. */
  function Entries(info: QueueInfo, host: u64 -> bool, cache: Cache, seq0: u64, ps: seq<Packet>,
      now: real): (es: seq<Entry<SdmaRecord>>)
    ensures |es| == |ps|
  {
    if ps == [] then []
    else
      var init, p := ps[..|ps| - 1], ps[|ps| - 1];
      var c := CacheAfter(info.sdmaVersion, host, cache, init);
      Entries(info, host, cache, seq0, init, now) +
      [Entry(End(p), RecordOf(info, Wrap(seq0 + |init|), p.dws, DirOf(info.sdmaVersion, host, c, p.dws), now))]
  }

  function Completed(r: SdmaRecord, now: real): SdmaRecord {
    r.(completeTs := now, completed := true)
  }

  function Retired(due: seq<Entry<SdmaRecord>>, now: real): seq<SdmaRecord> {
    seq(|due|, i requires 0 <= i < |due| => Completed(due[i].val, now))
  }

  // ---- The effect of one poll ----

  /** State after the decode loop, started in state `s`. */
  function Decoded(info: QueueInfo, s: QState, v: SdmaView, now: real): QState {
    var ver := info.sdmaVersion;
    var ps, end := Walk(v, s.nextId), WalkEnd(v, s.nextId);
    var t := s.(sdmaSeq := Wrap(s.sdmaSeq + |ps|),
                sdmaInflight := EmplaceAll(s.sdmaInflight, Entries(info, v.host, s.pageHost, s.sdmaSeq, ps, now)),
                pageHost := CacheAfter(ver, v.host, s.pageHost, ps),
                nextId := end);
    if Lost(v, s.nextId) then t.(dropped := Wrap(t.dropped + (v.wptr - end)), nextId := v.wptr) else t
  }

  datatype Outcome = Outcome(st: QState, sunk: seq<SdmaRecord>)

  function DecodeAndRetire(info: QueueInfo, s: QState, v: SdmaView, now: real): Outcome {
    var dec := Decoded(info, s, v, now);
    var due := Due(dec.sdmaInflight, v.rptr + 1);
    Outcome(dec.(sdmaInflight := dec.sdmaInflight[due..], lastRptr := v.rptr, fails := 0),
            Retired(dec.sdmaInflight[..due], now))
  }

  function Poll(info: QueueInfo, s: QState, obs: Obs<SdmaView>, now: real): Outcome {
    match obs
    case PtrFail => Outcome(PtrReadFailed(s), [])
    case Got(v) =>
      if info.NumDwords() == 0 then Outcome(s.(fails := 0), [])
      else if !s.primed then Outcome(Prime(s.(fails := 0), v.wptr, v.rptr), [])
      else
        DecodeAndRetire(info, SkipOverrun(s, v.wptr, info.NumDwords()), v, now)
  }

  // ---- Reading the ring ----

  /** Memory as seen while decoding at a position: whether a span of the ring is readable, and its dwords, both
      by byte offset from the ring base. */
  datatype SdmaMemory = SdmaMemory(readable: (u64, nat, nat) -> bool, dword: (u64, nat) -> u32, host: u64 -> bool)

  /** A read of `n` dwords at ring position `start`, in one or two parts. */
  function ReadRing(info: QueueInfo, m: SdmaMemory, start: u64, n: nat): Option<seq<u32>> {
    var ring := info.NumDwords();
    if ring == 0 then None
    else
      var off := start % ring;
      var first := if n < ring - off then n else ring - off;
      if !m.readable(start, off * 4, first * 4) then None
      else
        var head := seq(first, i requires 0 <= i => m.dword(start, (off + i) * 4));
        if first == n then Some(head)
        else if !m.readable(start, 0, (n - first) * 4) then None
        else Some(head + seq(n - first, i requires 0 <= i => m.dword(start, i * 4)))
  }

  /** What the window at `pos` shows: at most WINDOW dwords, never past the write pointer. */
  function LookRing(info: QueueInfo, m: SdmaMemory, wptr: u64, pos: u64): Look {
    if pos < wptr then LookAt(info.sdmaVersion, ReadRing(info, m, pos, Min(wptr - pos, WINDOW))) else Unreadable
  }

  function ViewOf(info: QueueInfo, wptrRaw: u64, rptrRaw: u64, m: SdmaMemory): SdmaView {
    var wptr := RingBytesToDwords(wptrRaw);
    SdmaView(wptr, RingBytesToDwords(rptrRaw), (pos: u64) => LookRing(info, m, wptr, pos), m.host)
  }
}
