/** Incremental decoding of an SDMA ring equals parsing the whole stream at once: the poller inside a producer and
    consumer that follow the ring protocol. */
module SdmaStream {
  import opened Model
  import opened Ring
  import opened Sequences
  import opened OrderedMap
  import opened SdmaPackets
  import opened PageCache
  import opened SdmaPoll
  import SdmaRuns

  // ---- Reading through the wrap ----

  lemma Wraps(start: nat, k: nat, n: nat)
    requires n > 0 && k <= n
    ensures (start + k) % n == if start % n + k < n then start % n + k else start % n + k - n
  {
    var q, off := start / n, start % n;
    Laps(start, n);
    if off + k < n {
      LapsUnique(start + k, n, q, off + k);
    } else {
      assert n * (q + 1) == n * q + n;
      LapsUnique(start + k, n, q + 1, off + k - n);
    }
  }

  /** Both parts of a ring read lie inside the ring when no more than a ring is asked for. */
  ghost predicate SpansReadable(info: QueueInfo, m: SdmaMemory) {
    forall start: u64, off: nat, len: nat :: off + len <= info.NumDwords() * 4 ==> m.readable(start, off, len)
  }

  /** A read of at most one ring never leaves it and yields the dwords at consecutive ring positions. */
  lemma ReadRingWraps(info: QueueInfo, m: SdmaMemory, start: u64, n: nat)
    requires 0 < info.NumDwords() && n <= info.NumDwords() && SpansReadable(info, m)
    ensures var r := ReadRing(info, m, start, n);
            r.Some? && |r.value| == n &&
            forall k :: 0 <= k < n ==> r.value[k] == m.dword(start, (start + k) % info.NumDwords() * 4)
  {
    var ring, off := info.NumDwords(), start % info.NumDwords();
    var r := ReadRing(info, m, start, n);
    forall k | 0 <= k < n
      ensures r.value[k] == m.dword(start, (start + k) % ring * 4)
    {
      Wraps(start, k, ring);
    }
  }

  /** The dwords tile the ring: each aligned 4-byte piece of it is what a poll reads at its own number, and at every whole
      lap above. */
  lemma DwordsTile(info: QueueInfo, m: SdmaMemory, off: nat, lap: nat)
    requires off % 4 == 0 && off + 4 <= info.ringSize && off / 4 + lap * (info.ringSize / 4) < U64
    ensures info.NumDwords() == info.ringSize / 4 > 0
    ensures var start: u64 := off / 4 + lap * (info.ringSize / 4);
            ReadRing(info, m, start, 1) == if m.readable(start, off, 4) then Some([m.dword(start, off)]) else None
  {
    Piece(off, 4, info.ringSize);
    LapsBack(off / 4, lap, info.ringSize / 4);
    OneDword(info, m, off / 4 + lap * (info.ringSize / 4), off / 4);
  }

  lemma OneDword(info: QueueInfo, m: SdmaMemory, start: u64, k: nat)
    requires info.NumDwords() > k && start % info.NumDwords() == k
    ensures ReadRing(info, m, start, 1) == if m.readable(start, k * 4, 4) then Some([m.dword(start, k * 4)]) else None
  {
    var r := ReadRing(info, m, start, 1);
    if r.Some? {
      assert r.value == [m.dword(start, (k + 0) * 4)];
    }
  }

  /** Memory still holds the stream from position `from` up to the write pointer. What lies in the ring below `from`,
      and above the write pointer, is left open. */
  ghost predicate RingHolds(info: QueueInfo, m: SdmaMemory, wptr: nat, head: nat, from: nat, stream: seq<u32>)
    requires info.NumDwords() > 0 && head <= wptr <= head + |stream|
  {
    forall start: u64, i: nat :: head <= i < wptr && from <= i ==>
      m.dword(start, i % info.NumDwords() * 4) == stream[i - head]
  }

  /** Every position from `from` on shows the stream up to the write pointer. */
  ghost predicate Shows(info: QueueInfo, v: SdmaView, head: nat, from: nat, stream: seq<u32>) {
    && head <= v.wptr <= head + |stream|
    && forall pos: u64 :: head <= pos < v.wptr && from <= pos ==>
         v.look(pos) == LookAt(info.sdmaVersion, Some(Window(stream[pos - head..v.wptr - head])))
  }

  /** The poller's two-part window reads show the stream, as far as memory still holds it. */
  lemma RingShows(info: QueueInfo, m: SdmaMemory, wptrRaw: u64, rptrRaw: u64, head: nat, from: nat, stream: seq<u32>)
    requires info.NumDwords() > 0 && SpansReadable(info, m)
    requires var w := RingBytesToDwords(wptrRaw);
             head <= w <= head + |stream| && w <= from + info.NumDwords() && RingHolds(info, m, w, head, from, stream)
    ensures Shows(info, ViewOf(info, wptrRaw, rptrRaw, m), head, from, stream)
  {
    hide ReadRing, LookAt, RingHolds, SpansReadable, Window;
    var v, w := ViewOf(info, wptrRaw, rptrRaw, m), RingBytesToDwords(wptrRaw);
    forall pos: u64 | head <= pos < w && from <= pos
      ensures v.look(pos) == LookAt(info.sdmaVersion, Some(Window(stream[pos - head..w - head])))
    {
      WindowRead(info, m, w, pos, head, from, stream);
    }
  }

  lemma WindowRead(info: QueueInfo, m: SdmaMemory, w: u64, pos: u64, head: nat, from: nat, stream: seq<u32>)
    requires info.NumDwords() > 0 && SpansReadable(info, m)
    requires head <= pos < w <= head + |stream| && from <= pos && w <= pos + info.NumDwords()
    requires RingHolds(info, m, w, head, from, stream)
    ensures ReadRing(info, m, pos, Min(w - pos, WINDOW)) == Some(Window(stream[pos - head..w - head]))
  {
    hide ReadRing;
    var n, want := Min(w - pos, WINDOW), Window(stream[pos - head..w - head]);
    ReadRingWraps(info, m, pos, n);
    var r := ReadRing(info, m, pos, n).value;
    forall k | 0 <= k < n
      ensures r[k] == want[k]
    {
      assert m.dword(pos, (pos + k) % info.NumDwords() * 4) == stream[pos + k - head];
    }
    assert r == want;
  }

  // ---- How many packets fit ----

  function Fits(ps: seq<seq<u32>>, k: nat): (n: nat)
    ensures n <= |ps|
  {
    if ps == [] || |ps[0]| > k then 0 else 1 + Fits(ps[1..], k - |ps[0]|)
  }

  /** Dwords taken by the first n packets. */
  function Span(ps: seq<seq<u32>>, n: nat): nat
    requires n <= |ps|
  {
    |Concat(ps[..n])|
  }

  lemma {:induction false} ConcatAppend(ps: seq<seq<u32>>, qs: seq<seq<u32>>)
    ensures Concat(ps + qs) == Concat(ps) + Concat(qs)
  {
    if ps == [] {
      assert ps + qs == qs;
    } else {
      assert (ps + qs)[1..] == ps[1..] + qs;
      ConcatAppend(ps[1..], qs);
      Assoc(ps[0], Concat(ps[1..]), Concat(qs));
    }
  }

  lemma SpanNext(ps: seq<seq<u32>>, n: nat)
    requires n < |ps|
    ensures Span(ps, n + 1) == Span(ps, n) + |ps[n]|
  {
    assert ps[..n + 1] == ps[..n] + [ps[n]];
    ConcatAppend(ps[..n], [ps[n]]);
    assert Concat([ps[n]]) == ps[n] + Concat([]);
  }

  lemma {:induction false} SpanMonotone(ps: seq<seq<u32>>, a: nat, b: nat)
    requires a <= b <= |ps|
    ensures Span(ps, a) <= Span(ps, b)
  {
    if a < b {
      SpanMonotone(ps, a, b - 1);
      SpanNext(ps, b - 1);
    }
  }

  lemma SpanCons(ps: seq<seq<u32>>, n: nat)
    requires 0 < n <= |ps|
    ensures Span(ps, n) == |ps[0]| + Span(ps[1..], n - 1)
  {
    assert ps[..n] == [ps[0]] + ps[1..][..n - 1];
    assert ps[..n][1..] == ps[1..][..n - 1];
  }

  /** The first n packets fit and one more does not. */
  predicate IsFit(ps: seq<seq<u32>>, k: nat, n: nat)
    requires n <= |ps|
  {
    Span(ps, n) <= k && (n < |ps| ==> k < Span(ps, n + 1))
  }

  lemma {:induction false} FitsIs(ps: seq<seq<u32>>, k: nat)
    ensures IsFit(ps, k, Fits(ps, k))
  {
    if ps != [] && |ps[0]| <= k {
      FitsIs(ps[1..], k - |ps[0]|);
      var n := Fits(ps[1..], k - |ps[0]|);
      SpanCons(ps, n + 1);
      if n + 1 < |ps| {
        SpanCons(ps, n + 2);
      }
    } else if ps != [] {
      SpanNext(ps, 0);
    }
  }

  lemma FitsUnique(ps: seq<seq<u32>>, k: nat, n: nat)
    requires n <= |ps| && IsFit(ps, k, n)
    ensures n == Fits(ps, k)
  {
    FitsIs(ps, k);
    var f := Fits(ps, k);
    if n < f {
      SpanMonotone(ps, n + 1, f);
    } else if f < n {
      SpanMonotone(ps, f + 1, n);
    }
  }

  lemma FitsCons(ps: seq<seq<u32>>, k: nat)
    requires ps != [] && |ps[0]| <= k
    ensures var n := Fits(ps[1..], k - |ps[0]|);
            && Fits(ps, k) == n + 1
            && ps[..n + 1] == [ps[0]] + ps[1..][..n]
            && ps[..n + 1][1..] == ps[1..][..n]
            && Span(ps, n + 1) == |ps[0]| + Span(ps[1..], n)
  {
    SpanCons(ps, Fits(ps[1..], k - |ps[0]|) + 1);
  }

  lemma CutStuck(v: Version, p: seq<u32>, k: nat)
    requires IsPacket(v, p) && k < |p|
    ensures BatchParse(v, p[..k]) == []
  {
    CutPacket(v, p, k);
  }

  lemma NothingToParse(v: Version)
    ensures BatchParse(v, []) == []
  {
  }

  /** Batch parsing a cut stream returns exactly the packets that fit. */
  lemma {:induction false} BatchParseCut(v: Version, ps: seq<seq<u32>>, k: nat)
    requires ArePackets(v, ps) && k <= |Concat(ps)|
    ensures BatchParse(v, Concat(ps)[..k]) == ps[..Fits(ps, k)]
  {
    hide PacketLen, BatchParse, IsPacket;
    if ps == [] {
      NothingToParse(v);
    } else {
      var p, rest := ps[0], Concat(ps[1..]);
      if |p| <= k {
        assert (p + rest)[..k] == p + rest[..k - |p|];
        SplitFirst(v, p, rest[..k - |p|]);
        BatchParseCut(v, ps[1..], k - |p|);
        FitsCons(ps, k);
      } else {
        assert (p + rest)[..k] == p[..k];
        CutStuck(v, p, k);
      }
    }
  }

  // ---- One walk over the stream ----

  /** The positions from `pos` on show the packets `qs`. */
  ghost predicate ShowsFrom(ver: Version, v: SdmaView, pos: nat, qs: seq<seq<u32>>) {
    && pos <= v.wptr <= pos + |Concat(qs)|
    && forall at: u64 :: pos <= at < v.wptr ==>
         v.look(at) == LookAt(ver, Some(Window(Concat(qs)[at - pos..v.wptr - pos])))
  }

  /** Decoded packets are the given stream packets, end to end from `pos`. */
  predicate Matches(ws: seq<Packet>, pos: nat, qs: seq<seq<u32>>) {
    && |ws| == |qs|
    && forall i :: 0 <= i < |ws| ==>
         ws[i].start == pos + Span(qs, i) && ws[i].len == |qs[i]| && Window(qs[i]) <= ws[i].dws
  }

  lemma ShowsRest(ver: Version, v: SdmaView, pos: nat, qs: seq<seq<u32>>)
    requires ShowsFrom(ver, v, pos, qs) && qs != [] && pos + |qs[0]| <= v.wptr
    ensures ShowsFrom(ver, v, pos + |qs[0]|, qs[1..])
  {
    hide LookAt, Window;
    var q, s, t := qs[0], Concat(qs), Concat(qs[1..]);
    forall at: u64 | pos + |q| <= at < v.wptr
      ensures v.look(at) == LookAt(ver, Some(Window(t[at - pos - |q|..v.wptr - pos - |q|])))
    {
      assert s[at - pos..v.wptr - pos] == t[at - pos - |q|..v.wptr - pos - |q|];
    }
  }

  /** What the front of the stream looks like: the first packet when it is complete, nothing to take otherwise. */
  lemma FrontOfStream(ver: Version, v: SdmaView, pos: u64, qs: seq<seq<u32>>)
    requires ArePackets(ver, qs) && ShowsFrom(ver, v, pos, qs) && pos < v.wptr
    ensures qs != []
    ensures if |qs[0]| <= v.wptr - pos
            then Front(v, pos).Take? && Front(v, pos).len == |qs[0]| && Window(qs[0]) <= Front(v, pos).dws
            else Front(v, pos).Wait?
  {
    hide PacketLen, Window;
    var q, seen := qs[0], Concat(qs)[..v.wptr - pos];
    WindowShort(q, seen);
    assert Concat(qs)[pos - pos..v.wptr - pos] == seen;
    if |q| <= |seen| {
      assert seen == q + seen[|q|..];
      PacketInFront(ver, q, seen[|q|..]);
    } else {
      assert seen == q[..|seen|];
      CutPacket(ver, q, |seen|);
    }
  }

  lemma WindowShort(q: seq<u32>, seen: seq<u32>)
    ensures |seen| >= 4 || |Window(seen)| == |seen|
    ensures |q| <= |seen| && q <= seen ==> Window(q) <= Window(seen)
  {
  }

  lemma MatchesCons(w: Packet, ws: seq<Packet>, pos: nat, qs: seq<seq<u32>>)
    requires qs != [] && w.start == pos && w.len == |qs[0]| && Window(qs[0]) <= w.dws
    requires Matches(ws, pos + |qs[0]|, qs[1..])
    ensures Matches([w] + ws, pos, qs)
  {
    forall i | 0 <= i < |qs|
      ensures ([w] + ws)[i].start == pos + Span(qs, i)
    {
      if i > 0 {
        SpanCons(qs, i);
      }
    }
  }

  lemma WalkTakes(v: SdmaView, pos: u64)
    requires pos < v.wptr && Front(v, pos).Take?
    ensures var f := Front(v, pos);
            && Plausible(Taken(pos, f.len, f.dws))
            && Walk(v, pos) == [Taken(pos, f.len, f.dws)] + Walk(v, pos + f.len)
            && WalkEnd(v, pos) == WalkEnd(v, pos + f.len)
            && (Lost(v, pos) <==> Lost(v, pos + f.len))
  {
  }

  lemma WalkStays(v: SdmaView, pos: u64)
    requires pos >= v.wptr || Front(v, pos).Wait?
    ensures Walk(v, pos) == [] && WalkEnd(v, pos) == pos && !Lost(v, pos)
  {
  }

  /** The stream behind a complete first packet is again a stream. */
  lemma StreamRest(ver: Version, v: SdmaView, pos: u64, qs: seq<seq<u32>>)
    requires ArePackets(ver, qs) && ShowsFrom(ver, v, pos, qs) && qs != [] && pos + |qs[0]| <= v.wptr
    ensures ArePackets(ver, qs[1..]) && ShowsFrom(ver, v, pos + |qs[0]|, qs[1..]) && |qs[0]| > 0
  {
    ShowsRest(ver, v, pos, qs);
    assert IsPacket(ver, qs[0]);
  }

  /** A walk over the stream decodes exactly the packets that end at or before the write pointer. */
  ghost predicate WalkedOver(v: SdmaView, pos: u64, qs: seq<seq<u32>>)
    requires pos <= v.wptr
  {
    var n := Fits(qs, v.wptr - pos);
    Matches(Walk(v, pos), pos, qs[..n]) && WalkEnd(v, pos) == pos + Span(qs, n) && !Lost(v, pos)
  }

  lemma WalkedStep(v: SdmaView, pos: u64, qs: seq<seq<u32>>)
    requires pos < v.wptr && qs != [] && |qs[0]| <= v.wptr - pos
    requires Front(v, pos).Take? && Front(v, pos).len == |qs[0]| && Window(qs[0]) <= Front(v, pos).dws
    requires WalkedOver(v, pos + |qs[0]|, qs[1..])
    ensures WalkedOver(v, pos, qs)
  {
    hide Fits, Walk, WalkEnd, Lost, Window;
    var next, k := pos + |qs[0]|, v.wptr - pos;
    FitsCons(qs, k);
    WalkTakes(v, pos);
    MatchesCons(Taken(pos, |qs[0]|, Front(v, pos).dws), Walk(v, next), pos, qs[..Fits(qs, k)]);
  }

  lemma WalkedStop(v: SdmaView, pos: u64, qs: seq<seq<u32>>)
    requires pos <= v.wptr && Fits(qs, v.wptr - pos) == 0
    requires pos >= v.wptr || Front(v, pos).Wait?
    ensures WalkedOver(v, pos, qs)
  {
    WalkStays(v, pos);
  }

  lemma {:induction false} WalkMatches(ver: Version, v: SdmaView, pos: u64, qs: seq<seq<u32>>)
    requires ArePackets(ver, qs) && ShowsFrom(ver, v, pos, qs)
    ensures WalkedOver(v, pos, qs)
    decreases |qs|
  {
    hide LookAt, PacketLen;
    if pos < v.wptr {
      FrontOfStream(ver, v, pos, qs);
      if |qs[0]| <= v.wptr - pos {
        StreamRest(ver, v, pos, qs);
        WalkMatches(ver, v, pos + |qs[0]|, qs[1..]);
        WalkedStep(v, pos, qs);
      } else {
        WalkedStop(v, pos, qs);
      }
    } else {
      assert qs != [] ==> IsPacket(ver, qs[0]);
      WalkedStop(v, pos, qs);
    }
  }

  // ---- Records ----

  function Untimed(r: SdmaRecord): SdmaRecord {
    r.(submitTs := 0.0, completeTs := 0.0, completed := false)
  }

  /** The record of the i-th packet of a stream, read off the packet alone and classified without a cache. */
  function BatchRecord(info: QueueInfo, host: u64 -> bool, i: u64, q: seq<u32>): SdmaRecord
    requires |q| > 0
  {
    var w := Window(q);
    var dir := if HasAddresses(info.sdmaVersion, w) then Uncached(host, Src(w), Dst(w)) else UnknownDir;
    RecordOf(info, i, w, dir, 0.0)
  }

  /** A window that extends a packet yields the packet's own record: its addresses, if any, lie inside it. */
  lemma WindowIrrelevant(info: QueueInfo, q: seq<u32>, dws: seq<u32>)
    requires IsPacket(info.sdmaVersion, q) && Window(q) <= dws
    ensures |dws| > 0
    ensures HasAddresses(info.sdmaVersion, dws) <==> HasAddresses(info.sdmaVersion, Window(q))
    ensures HasAddresses(info.sdmaVersion, dws) ==> Src(dws) == Src(Window(q)) && Dst(dws) == Dst(Window(q))
    ensures forall n, dir, now :: RecordOf(info, n, dws, dir, now) == RecordOf(info, n, Window(q), dir, now)
  {
    var w, ver := Window(q), info.sdmaVersion;
    assert w[0] == dws[0];
    if HeaderOp(w[0]) == OP_COPY && IsLinearCopy(ver, HeaderSubOp(w[0])) {
      LinearCopySpansAddresses(ver, w);
      assert |w| >= 7;
      assert forall k :: 0 <= k < 7 ==> w[k] == dws[k];
    }
  }

  lemma CacheStep(ver: Version, host: u64 -> bool, cache: Cache, dws: seq<u32>)
    requires Coherent(host, cache) && HasAddresses(ver, dws)
    ensures ClassifyDir(host, cache, Src(dws), Dst(dws)).0 == Uncached(host, Src(dws), Dst(dws))
    ensures Coherent(host, ClassifyDir(host, cache, Src(dws), Dst(dws)).1)
  {
    QueryCoherent(host, cache, Src(dws));
    QueryCoherent(host, IsHostVA(host, cache, Src(dws)).1, Dst(dws));
  }

  lemma {:induction false} CacheStaysCoherent(ver: Version, host: u64 -> bool, cache: Cache, ws: seq<Packet>)
    requires Coherent(host, cache)
    ensures Coherent(host, CacheAfter(ver, host, cache, ws))
  {
    if ws != [] {
      CacheStaysCoherent(ver, host, cache, ws[..|ws| - 1]);
      if HasAddresses(ver, ws[|ws| - 1].dws) {
        CacheStep(ver, host, CacheAfter(ver, host, cache, ws[..|ws| - 1]), ws[|ws| - 1].dws);
      }
    }
  }

  lemma RecordMatches(info: QueueInfo, host: u64 -> bool, cache: Cache, n: u64, dws: seq<u32>, now: real, q: seq<u32>)
    requires Coherent(host, cache) && IsPacket(info.sdmaVersion, q) && Window(q) <= dws
    ensures |dws| > 0
    ensures Untimed(RecordOf(info, n, dws, DirOf(info.sdmaVersion, host, cache, dws), now)) == BatchRecord(info, host, n, q)
  {
    WindowIrrelevant(info, q, dws);
    if HasAddresses(info.sdmaVersion, dws) {
      CacheStep(info.sdmaVersion, host, cache, dws);
    }
  }

  /** The map entries of a walk over the stream hold the batch records. */
  lemma {:induction false} EntriesMatch(info: QueueInfo, host: u64 -> bool, cache: Cache, seq0: u64, ws: seq<Packet>,
      now: real, i: nat, q: seq<u32>)
    requires Coherent(host, cache) && seq0 + |ws| < U64 && i < |ws|
    requires IsPacket(info.sdmaVersion, q) && Window(q) <= ws[i].dws
    ensures Untimed(Entries(info, host, cache, seq0, ws, now)[i].val) == BatchRecord(info, host, seq0 + i, q)
  {
    hide BatchRecord, RecordOf, DirOf, PacketLen, Coherent, Untimed;
    var init := ws[..|ws| - 1];
    if i < |init| {
      EntriesMatch(info, host, cache, seq0, init, now, i, q);
    } else {
      CacheStaysCoherent(info.sdmaVersion, host, cache, init);
      RecordMatches(info, host, CacheAfter(info.sdmaVersion, host, cache, init), seq0 + i, ws[i].dws, now, q);
    }
  }

  // ---- One poll over the stream ----

  /** The i-th decoded packet is the i-th packet of the stream. */
  predicate DecodeOk(info: QueueInfo, host: u64 -> bool, head: nat, ps: seq<seq<u32>>, d: SdmaRuns.Decode, i: nat)
    requires i < |ps| && i < U64
  {
    && |ps[i]| > 0 && d.packet.start == head + Span(ps, i) && d.packet.len == |ps[i]|
    && Untimed(d.rec) == BatchRecord(info, host, i, ps[i])
  }

  /** The poller has decoded exactly the first k packets of the stream and sunk some of them, all at or below `r`. */
  ghost predicate Sync(info: QueueInfo, host: u64 -> bool, head: nat, ps: seq<seq<u32>>, t: SdmaRuns.Trace, k: nat,
      r: nat) {
    && SdmaRuns.Inv(head, t) && t.st.dropped == 0 && Coherent(host, t.st.pageHost)
    && k == |t.decoded| <= |ps| && k < U64 && t.st.nextId == head + Span(ps, k)
    && (forall i :: 0 <= i < k ==> DecodeOk(info, host, head, ps, t.decoded[i], i))
    && (|t.out| > 0 ==> head + Span(ps, |t.out|) <= r)
  }

  lemma ConcatSuffix(ps: seq<seq<u32>>, k: nat)
    requires k <= |ps|
    ensures Concat(ps) == Concat(ps[..k]) + Concat(ps[k..])
    ensures |Concat(ps)| == Span(ps, k) + |Concat(ps[k..])|
    ensures Concat(ps)[Span(ps, k)..] == Concat(ps[k..])
  {
    assert ps == ps[..k] + ps[k..];
    ConcatAppend(ps[..k], ps[k..]);
  }

  lemma SpanSplit(ps: seq<seq<u32>>, k: nat, n: nat)
    requires k <= |ps| && n <= |ps| - k
    ensures Span(ps, k + n) == Span(ps, k) + Span(ps[k..], n)
  {
    assert ps[..k + n] == ps[..k] + ps[k..][..n];
    ConcatAppend(ps[..k], ps[k..][..n]);
  }

  /** What fits behind the first k packets. */
  lemma FitsSplit(ps: seq<seq<u32>>, k: nat, room: nat)
    requires k <= |ps| && Span(ps, k) <= room
    ensures Fits(ps, room) == k + Fits(ps[k..], room - Span(ps, k))
  {
    var n := Fits(ps[k..], room - Span(ps, k));
    FitsIs(ps[k..], room - Span(ps, k));
    SpanSplit(ps, k, n);
    if k + n < |ps| {
      SpanSplit(ps, k, n + 1);
    }
    FitsUnique(ps, room, k + n);
  }

  lemma ShowsSuffix(info: QueueInfo, v: SdmaView, head: nat, ps: seq<seq<u32>>, k: nat)
    requires k <= |ps| && Shows(info, v, head, head + Span(ps, k), Concat(ps)) && head + Span(ps, k) <= v.wptr
    ensures ShowsFrom(info.sdmaVersion, v, head + Span(ps, k), ps[k..])
  {
    hide LookAt, Window, Span, Concat;
    var span := Span(ps, k);
    var pos, rest := head + span, Concat(ps[k..]);
    ConcatSuffix(ps, k);
    forall at: u64 | pos <= at < v.wptr
      ensures v.look(at) == LookAt(info.sdmaVersion, Some(Window(rest[at - pos..v.wptr - pos])))
    {
      SliceShift(Concat(ps), span, at - pos, v.wptr - pos);
    }
  }

  lemma SliceShift<T>(s: seq<T>, n: nat, a: nat, b: nat)
    requires n <= |s| && a <= b <= |s| - n
    ensures s[n..][a..b] == s[n + a..n + b]
  {
  }

  /** The walk of a synchronised poll. */
  lemma SyncWalk(info: QueueInfo, head: nat, ps: seq<seq<u32>>, st: QState, k: nat, v: SdmaView)
    requires ArePackets(info.sdmaVersion, ps) && Shows(info, v, head, st.nextId, Concat(ps)) && k <= |ps|
    requires st.nextId == head + Span(ps, k) <= v.wptr <= st.nextId + info.NumDwords()
    requires v.wptr < SdmaRuns.DWORDS && st.dropped == 0
    ensures var n := Fits(ps[k..], v.wptr - st.nextId);
            && SdmaRuns.From(info, st, v) == st.nextId
            && k + n <= |ps| && |Walk(v, st.nextId)| == n
            && Matches(Walk(v, st.nextId), st.nextId, ps[k..][..n])
            && WalkEnd(v, st.nextId) == head + Span(ps, k + n)
            && SdmaRuns.LostDwords(v, st.nextId) == 0
            && Fits(ps, v.wptr - head) == k + n
  {
    hide LookAt, Window, PacketLen, Walk, WalkEnd, Shows, Concat, Fits, IsPacket;
    ShowsSuffix(info, v, head, ps, k);
    SdmaRuns.FromIs(info, st, v);
    WalkMatches(info.sdmaVersion, v, st.nextId, ps[k..]);
    FitsSplit(ps, k, v.wptr - head);
    SpanSplit(ps, k, Fits(ps[k..], v.wptr - st.nextId));
  }

  lemma SyncDecode(info: QueueInfo, host: u64 -> bool, head: nat, ps: seq<seq<u32>>, t: SdmaRuns.Trace, k: nat,
      v: SdmaView, now: real, i: nat)
    requires ArePackets(info.sdmaVersion, ps) && Coherent(host, t.st.pageHost) && v.host == host
    requires k <= |ps| && t.st.sdmaSeq == k && t.st.nextId == head + Span(ps, k)
    requires var ws := Walk(v, t.st.nextId);
             && k + |ws| <= |ps| && k + |ws| < U64 && i < |ws|
             && Matches(ws, t.st.nextId, ps[k..][..|ws|])
    requires SdmaRuns.From(info, t.st, v) == t.st.nextId
    ensures DecodeOk(info, host, head, ps, SdmaRuns.NewDecodes(info, t.st, v, now)[i], k + i)
  {
    hide PacketLen, BatchRecord, Walk, Coherent, Window;
    var ws := Walk(v, t.st.nextId);
    var es := Entries(info, v.host, t.st.pageHost, t.st.sdmaSeq, ws, now);
    SdmaRuns.PairedAt(ws, es, v.rptr);
    var qs := ps[k..][..|ws|];
    assert qs[i] == ps[k + i];
    assert IsPacket(info.sdmaVersion, ps[k + i]);
    EntriesMatch(info, host, t.st.pageHost, k, ws, now, i, ps[k + i]);
    SpanSplit(ps, k, i);
    assert qs[..i] == ps[k..][..i];
  }

  /** How far the stream is both published and consumed. */
  function Consumed(head: nat, wptr: nat, rptr: nat): nat {
    var m := if wptr < rptr then wptr else rptr;
    if m < head then 0 else m - head
  }

  /** The published packets end-bounded by the read pointer are the published and consumed ones. */
  lemma FitsBoth(head: nat, ps: seq<seq<u32>>, wptr: nat, rptr: nat, n: nat)
    requires head <= wptr && n <= Fits(ps, wptr - head)
    requires n > 0 ==> head + Span(ps, n) <= rptr
    requires n < Fits(ps, wptr - head) ==> rptr < head + Span(ps, n + 1) && |ps[n]| > 0
    ensures n == Fits(ps, Consumed(head, wptr, rptr))
  {
    var k := Fits(ps, wptr - head);
    FitsIs(ps, wptr - head);
    SpanMonotone(ps, n, k);
    assert Span(ps, 0) == 0;
    if n < k {
      SpanNext(ps, n);
      SpanMonotone(ps, n + 1, k);
    }
    FitsUnique(ps, Consumed(head, wptr, rptr), n);
  }

  /** Retiring from the front leaves sunk exactly the packets that are published and consumed. */
  lemma SunkFits(head: nat, ps: seq<seq<u32>>, ds: seq<SdmaRuns.Decode>, m: nat, wptr: u64, rptr: u64)
    requires head <= wptr && |ds| == Fits(ps, wptr - head) && m <= |ds|
    requires forall i :: 0 <= i < |ds| ==> ds[i].packet.start == head + Span(ps, i) && ds[i].packet.len == |ps[i]|
    requires m > 0 ==> head + Span(ps, m) <= rptr
    ensures var n := m + Due(SdmaRuns.AsEntries(ds[m..]), rptr + 1);
            && n <= |ds| && n == Fits(ps, Consumed(head, wptr, rptr))
            && (n > 0 ==> head + Span(ps, n) <= rptr)
  {
    hide SdmaRuns.AsEntries, Due, Fits;
    var es := SdmaRuns.AsEntries(ds[m..]);
    var due := Due(es, rptr + 1);
    var n := m + due;
    DueIs(es, rptr + 1);
    EntryCount(ds, m);
    if due > 0 {
      EntryEnd(ds, m, due - 1);
      SpanNext(ps, n - 1);
    }
    if n < |ds| {
      EntryEnd(ds, m, due);
      SpanNext(ps, n);
      assert ds[n].packet.len == |ps[n]|;
    }
    FitsBoth(head, ps, wptr, rptr, n);
  }

  lemma EntryCount(ds: seq<SdmaRuns.Decode>, m: nat)
    requires m <= |ds|
    ensures |SdmaRuns.AsEntries(ds[m..])| == |ds| - m
  {
  }

  lemma EntryEnd(ds: seq<SdmaRuns.Decode>, m: nat, j: nat)
    requires m + j < |ds|
    ensures |SdmaRuns.AsEntries(ds[m..])| == |ds| - m && SdmaRuns.AsEntries(ds[m..])[j].key == End(ds[m + j].packet)
  {
  }

  lemma InvNumbers(head: nat, t: SdmaRuns.Trace)
    requires SdmaRuns.Inv(head, t)
    ensures t.st.sdmaSeq == |t.decoded|
  {
  }

  lemma SyncCount(info: QueueInfo, host: u64 -> bool, head: nat, ps: seq<seq<u32>>, t: SdmaRuns.Trace, k: nat, r: nat,
      v: SdmaView, now: real)
    requires ArePackets(info.sdmaVersion, ps) && Shows(info, v, head, t.st.nextId, Concat(ps)) && v.host == host
    requires Sync(info, host, head, ps, t, k, r) && info.NumDwords() > 0
    requires t.st.nextId <= v.wptr <= t.st.nextId + info.NumDwords() && v.wptr < SdmaRuns.DWORDS
    ensures var n, ws := |SdmaRuns.NewDecodes(info, t.st, v, now)|, Walk(v, t.st.nextId);
            && n == |ws| && k + n == Fits(ps, v.wptr - head) < U64 && k + n <= |ps|
            && t.st.sdmaSeq == k && SdmaRuns.From(info, t.st, v) == t.st.nextId
            && Matches(ws, t.st.nextId, ps[k..][..n])
  {
    hide PacketLen, Walk, WalkEnd, Shows, ArePackets, SdmaRuns.NewDecodes, Coherent, SdmaRuns.AsEntries, SdmaRuns.SumLen;
    hide Fits, DecodeOk, SdmaRuns.Inv, Matches, Span, SdmaRuns.Apart, SdmaRuns.Packets, SdmaRuns.LostDwords;
    InvNumbers(head, t);
    SyncWalk(info, head, ps, t.st, k, v);
    SdmaRuns.DecodesPlaced(info, head, t, v, now);
  }

  /** The history after a synchronised poll. */
  lemma SyncHistory(info: QueueInfo, host: u64 -> bool, head: nat, ps: seq<seq<u32>>, t: SdmaRuns.Trace, k: nat,
      r: nat, v: SdmaView, now: real)
    requires ArePackets(info.sdmaVersion, ps) && Shows(info, v, head, t.st.nextId, Concat(ps)) && v.host == host
    requires Sync(info, host, head, ps, t, k, r) && info.NumDwords() > 0
    requires t.st.nextId <= v.wptr <= t.st.nextId + info.NumDwords() && v.wptr < SdmaRuns.DWORDS
    ensures var ds := t.decoded + SdmaRuns.NewDecodes(info, t.st, v, now);
            && |ds| == Fits(ps, v.wptr - head) < U64
            && forall i :: 0 <= i < |ds| ==> DecodeOk(info, host, head, ps, ds[i], i)
  {
    hide PacketLen, Walk, WalkEnd, Shows, ArePackets, SdmaRuns.NewDecodes, Coherent;
    hide Fits, DecodeOk, SdmaRuns.Inv, Matches, Span, SdmaRuns.From;
    SyncCount(info, host, head, ps, t, k, r, v, now);
    var more := SdmaRuns.NewDecodes(info, t.st, v, now);
    forall i | 0 <= i < |more|
      ensures DecodeOk(info, host, head, ps, more[i], k + i)
    {
      SyncDecode(info, host, head, ps, t, k, v, now, i);
    }
    DecodesJoin(info, host, head, ps, t.decoded, more);
  }

  lemma DecodesJoin(info: QueueInfo, host: u64 -> bool, head: nat, ps: seq<seq<u32>>, a: seq<SdmaRuns.Decode>,
      b: seq<SdmaRuns.Decode>)
    requires |a| + |b| <= |ps| && |a| + |b| < U64
    requires forall i :: 0 <= i < |a| ==> DecodeOk(info, host, head, ps, a[i], i)
    requires forall i :: 0 <= i < |b| ==> DecodeOk(info, host, head, ps, b[i], |a| + i)
    ensures forall i :: 0 <= i < |a + b| ==> DecodeOk(info, host, head, ps, (a + b)[i], i)
  {
    hide DecodeOk;
    forall i | 0 <= i < |a + b|
      ensures DecodeOk(info, host, head, ps, (a + b)[i], i)
    {
      if i >= |a| {
        assert DecodeOk(info, host, head, ps, b[i - |a|], |a| + (i - |a|));
      }
    }
  }

  lemma SyncState(info: QueueInfo, host: u64 -> bool, head: nat, ps: seq<seq<u32>>, t: SdmaRuns.Trace, k: nat, r: nat,
      v: SdmaView, now: real)
    requires ArePackets(info.sdmaVersion, ps) && Shows(info, v, head, t.st.nextId, Concat(ps)) && v.host == host
    requires Sync(info, host, head, ps, t, k, r) && info.NumDwords() > 0
    requires t.st.nextId <= v.wptr <= t.st.nextId + info.NumDwords() && v.wptr < SdmaRuns.DWORDS
    ensures var st := Poll(info, t.st, Got(v), now).st;
            && st.nextId == head + Span(ps, Fits(ps, v.wptr - head)) && st.dropped == 0 && Coherent(host, st.pageHost)
  {
    hide PacketLen, LookAt, Window, Walk, WalkEnd, Shows, ArePackets, Poll, DecodeOk, Coherent, SdmaRuns.NewDecodes;
    SyncWalk(info, head, ps, t.st, k, v);
    SdmaRuns.PollEffect(info, head, t, v, now);
    SdmaRuns.PollCache(info, t.st, v, now);
    CacheStaysCoherent(info.sdmaVersion, host, t.st.pageHost, Walk(v, t.st.nextId));
  }

  lemma SyncStep(info: QueueInfo, host: u64 -> bool, head: nat, ps: seq<seq<u32>>, t: SdmaRuns.Trace, k: nat, r: nat,
      v: SdmaView, now: real)
    requires ArePackets(info.sdmaVersion, ps) && Shows(info, v, head, t.st.nextId, Concat(ps)) && v.host == host
    requires Sync(info, host, head, ps, t, k, r) && r <= v.rptr && info.NumDwords() > 0
    requires t.st.nextId <= v.wptr <= t.st.nextId + info.NumDwords() && v.wptr < SdmaRuns.DWORDS
    ensures var o, more := Poll(info, t.st, Got(v), now), SdmaRuns.NewDecodes(info, t.st, v, now);
            && Sync(info, host, head, ps, SdmaRuns.Trace(o.st, t.decoded + more, t.out + o.sunk), Fits(ps, v.wptr - head), v.rptr)
            && |t.out + o.sunk| == Fits(ps, Consumed(head, v.wptr, v.rptr))
  {
    hide PacketLen, BatchRecord, LookAt, Window, Walk, WalkEnd, Shows, ArePackets, Poll, Coherent, DecodeOk, SdmaRuns.NewDecodes, SdmaRuns.Inv;
    var more := SdmaRuns.NewDecodes(info, t.st, v, now);
    SyncHistory(info, host, head, ps, t, k, r, v, now);
    SyncState(info, host, head, ps, t, k, r, v, now);
    SdmaRuns.PollStep(info, head, t, v, now);
    SyncSunk(info, host, head, ps, t, more, r, v);
  }

  lemma Positions(info: QueueInfo, host: u64 -> bool, head: nat, ps: seq<seq<u32>>, ds: seq<SdmaRuns.Decode>)
    requires |ds| <= |ps| && |ds| < U64
    requires forall i :: 0 <= i < |ds| ==> DecodeOk(info, host, head, ps, ds[i], i)
    ensures forall i :: 0 <= i < |ds| ==> ds[i].packet.start == head + Span(ps, i) && ds[i].packet.len == |ps[i]|
  {
    hide Span, BatchRecord, Untimed;
    forall i | 0 <= i < |ds|
      ensures ds[i].packet.start == head + Span(ps, i) && ds[i].packet.len == |ps[i]|
    {
      assert DecodeOk(info, host, head, ps, ds[i], i);
    }
  }

  lemma SyncSunk(info: QueueInfo, host: u64 -> bool, head: nat, ps: seq<seq<u32>>, t: SdmaRuns.Trace,
      more: seq<SdmaRuns.Decode>, r: nat, v: SdmaView)
    requires head <= v.wptr && SdmaRuns.Inv(head, t) && |t.decoded| <= |ps|
    requires |t.out| > 0 ==> head + Span(ps, |t.out|) <= r
    requires r <= v.rptr
    requires var ds := t.decoded + more;
             |ds| == Fits(ps, v.wptr - head) < U64 && forall i :: 0 <= i < |ds| ==> DecodeOk(info, host, head, ps, ds[i], i)
    ensures var all := t.st.sdmaInflight + SdmaRuns.AsEntries(more);
            var n := |t.out| + Due(all, v.rptr + 1);
            && n == Fits(ps, Consumed(head, v.wptr, v.rptr))
            && (n > 0 ==> head + Span(ps, n) <= v.rptr)
  {
    hide DecodeOk, Fits, Due, SdmaRuns.AsEntries, Span;
    Positions(info, host, head, ps, t.decoded + more);
    SdmaRuns.EntriesAppend(t.decoded, more, |t.out|);
    SunkFits(head, ps, t.decoded + more, |t.out|, v.wptr, v.rptr);
  }

  // ---- Whole schedules ----

  /** A schedule over a stream of packets, primed at the packet boundary `head` by the first read that succeeds. Every
      later poll either cannot read the pointers or sees them non-decreasing, at most one ring ahead of what has
      been decoded, with the dwords not decoded yet still in place. The pointers may cut packets anywhere. */
  ghost predicate Schedule(info: QueueInfo, host: u64 -> bool, head: nat, ps: seq<seq<u32>>,
      ticks: seq<SdmaRuns.Tick>) {
    && info.NumDwords() > 0 && ArePackets(info.sdmaVersion, ps)
    && SdmaRuns.Head(info, ticks) == Some(head) && head < SdmaRuns.DWORDS
    && (forall i :: 0 <= i < |ticks| && ticks[i].obs.Got? && SdmaRuns.Head(info, ticks[..i]).Some? ==>
          OnStream(info, host, head, ps, ticks[i].obs.view, SdmaRuns.Run(info, ticks[..i]).st.nextId))
    && (forall i, j :: 0 <= i < j < |ticks| && ticks[i].obs.Got? && ticks[j].obs.Got? ==>
          ticks[i].obs.view.wptr <= ticks[j].obs.view.wptr && ticks[i].obs.view.rptr <= ticks[j].obs.view.rptr)
  }

  /** What a poll that has decoded up to `next` must see. */
  ghost predicate OnStream(info: QueueInfo, host: u64 -> bool, head: nat, ps: seq<seq<u32>>, v: SdmaView, next: nat) {
    && v.wptr < SdmaRuns.DWORDS && v.host == host
    && v.wptr <= next + info.NumDwords()
    && Shows(info, v, head, next, Concat(ps))
  }

  /** The pointers of the last successful poll. */
  function Last(info: QueueInfo, ticks: seq<SdmaRuns.Tick>): (v: SdmaView)
    requires SdmaRuns.Head(info, ticks).Some?
  {
    var last := ticks[|ticks| - 1].obs;
    if last.Got? then last.view else Last(info, ticks[..|ticks| - 1])
  }

  lemma {:induction false} LastIs(info: QueueInfo, ticks: seq<SdmaRuns.Tick>) returns (i: nat)
    requires SdmaRuns.Head(info, ticks).Some?
    ensures i < |ticks| && ticks[i].obs.Got? && ticks[i].obs.view == Last(info, ticks)
  {
    if ticks[|ticks| - 1].obs.Got? {
      i := |ticks| - 1;
    } else {
      i := LastIs(info, ticks[..|ticks| - 1]);
    }
  }

  lemma SchedulePrefix(info: QueueInfo, host: u64 -> bool, head: nat, ps: seq<seq<u32>>, ticks: seq<SdmaRuns.Tick>)
    requires Schedule(info, host, head, ps, ticks) && SdmaRuns.Head(info, ticks[..|ticks| - 1]).Some?
    ensures Schedule(info, host, head, ps, ticks[..|ticks| - 1])
  {
    hide OnStream, SdmaRuns.Run;
    var init := ticks[..|ticks| - 1];
    assert forall i :: 0 <= i <= |init| ==> init[..i] == ticks[..i];
  }

  /** Synchronised, with exactly the published and consumed packets sunk. */
  ghost predicate Synced(info: QueueInfo, host: u64 -> bool, head: nat, ps: seq<seq<u32>>, t: SdmaRuns.Trace,
      v: SdmaView) {
    && head <= v.wptr
    && Sync(info, host, head, ps, t, Fits(ps, v.wptr - head), v.rptr)
    && |t.out| == Fits(ps, Consumed(head, v.wptr, v.rptr))
  }

  /** Before the first successful read nothing has happened but failures. */
  lemma {:induction false} NotPrimed(info: QueueInfo, ticks: seq<SdmaRuns.Tick>)
    requires info.NumDwords() > 0 && SdmaRuns.Head(info, ticks).None?
    ensures var t := SdmaRuns.Run(info, ticks);
            && t.decoded == [] && t.out == []
            && t.st == INIT.(fails := t.st.fails, evict := t.st.evict)
  {
    if ticks != [] {
      NotPrimed(info, ticks[..|ticks| - 1]);
    }
  }

  lemma PrimedSynced(info: QueueInfo, host: u64 -> bool, head: nat, ps: seq<seq<u32>>, ticks: seq<SdmaRuns.Tick>)
    requires Schedule(info, host, head, ps, ticks) && SdmaRuns.Head(info, ticks[..|ticks| - 1]).None?
    ensures Synced(info, host, head, ps, SdmaRuns.Run(info, ticks), Last(info, ticks))
  {
    hide PacketLen, OnStream, SdmaRuns.Run, Poll;
    PrimedRun(info, ticks);
    SdmaRuns.PrimedInv(head, SdmaRuns.Run(info, ticks));
    NothingFits(info.sdmaVersion, ps);
  }

  lemma NothingFits(ver: Version, ps: seq<seq<u32>>)
    requires ArePackets(ver, ps)
    ensures Fits(ps, 0) == 0 && Span(ps, 0) == 0
  {
    assert ps != [] ==> IsPacket(ver, ps[0]);
  }

  lemma PrimedRun(info: QueueInfo, ticks: seq<SdmaRuns.Tick>)
    requires info.NumDwords() > 0 && SdmaRuns.Head(info, ticks).Some? && SdmaRuns.Head(info, ticks[..|ticks| - 1]).None?
    ensures ticks[|ticks| - 1].obs.Got?
    ensures var t, v := SdmaRuns.Run(info, ticks), ticks[|ticks| - 1].obs.view;
            t.decoded == [] && t.out == [] && t.st == Prime(INIT.(evict := t.st.evict), v.wptr, v.rptr)
  {
    NotPrimed(info, ticks[..|ticks| - 1]);
  }

  lemma {:induction false} RunSynced(info: QueueInfo, host: u64 -> bool, head: nat, ps: seq<seq<u32>>,
      ticks: seq<SdmaRuns.Tick>)
    requires Schedule(info, host, head, ps, ticks)
    ensures Synced(info, host, head, ps, SdmaRuns.Run(info, ticks), Last(info, ticks))
  {
    hide PacketLen, OnStream, Poll, SdmaRuns.NewDecodes;
    var init, last := ticks[..|ticks| - 1], ticks[|ticks| - 1];
    if SdmaRuns.Head(info, init).None? {
      PrimedSynced(info, host, head, ps, ticks);
    } else {
      SchedulePrefix(info, host, head, ps, ticks);
      RunSynced(info, host, head, ps, init);
      var i := LastIs(info, init);
      StepSynced(info, host, head, ps, SdmaRuns.Run(info, init), Last(info, init), last);
    }
  }

  /** The trace after one more tick. */
  function Next(info: QueueInfo, t: SdmaRuns.Trace, tick: SdmaRuns.Tick): SdmaRuns.Trace {
    var o := Poll(info, t.st, tick.obs, tick.now);
    SdmaRuns.Trace(o.st,
                   t.decoded + (if SdmaRuns.Active(info, t.st, tick.obs) then SdmaRuns.NewDecodes(info, t.st, tick.obs.view, tick.now) else []),
                   t.out + o.sunk)
  }

  lemma SyncNext(info: QueueInfo, host: u64 -> bool, head: nat, ps: seq<seq<u32>>, t: SdmaRuns.Trace, w: nat, r: nat)
    requires head <= w && Sync(info, host, head, ps, t, Fits(ps, w - head), r)
    ensures t.st.nextId <= w && t.st.primed
  {
    hide Fits, Span, Concat, DecodeOk, Coherent;
    FitsIs(ps, w - head);
  }

  lemma StepSynced(info: QueueInfo, host: u64 -> bool, head: nat, ps: seq<seq<u32>>, t: SdmaRuns.Trace,
      seen: SdmaView, tick: SdmaRuns.Tick)
    requires ArePackets(info.sdmaVersion, ps) && info.NumDwords() > 0
    requires Synced(info, host, head, ps, t, seen)
    requires tick.obs.Got? ==>
               var v := tick.obs.view;
               OnStream(info, host, head, ps, v, t.st.nextId) && seen.wptr <= v.wptr && seen.rptr <= v.rptr
    ensures Synced(info, host, head, ps, Next(info, t, tick), if tick.obs.Got? then tick.obs.view else seen)
  {
    hide Synced, Next, OnStream, ArePackets;
    if tick.obs.Got? {
      GotSynced(info, host, head, ps, t, seen, tick.obs.view, tick.now);
      assert tick == SdmaRuns.Tick(tick.now, Got(tick.obs.view));
    } else {
      FailSynced(info, host, head, ps, t, seen, tick);
    }
  }

  lemma GotSynced(info: QueueInfo, host: u64 -> bool, head: nat, ps: seq<seq<u32>>, t: SdmaRuns.Trace, seen: SdmaView,
      v: SdmaView, now: real)
    requires ArePackets(info.sdmaVersion, ps) && info.NumDwords() > 0 && Synced(info, host, head, ps, t, seen)
    requires OnStream(info, host, head, ps, v, t.st.nextId) && seen.wptr <= v.wptr && seen.rptr <= v.rptr
    ensures Synced(info, host, head, ps, Next(info, t, SdmaRuns.Tick(now, Got(v))), v)
  {
    hide PacketLen, Shows, SdmaRuns.NewDecodes, Sync, Poll, ArePackets, SdmaRuns.Inv, Fits;
    SyncNext(info, host, head, ps, t, seen.wptr, seen.rptr);
    SyncStep(info, host, head, ps, t, Fits(ps, seen.wptr - head), seen.rptr, v, now);
    ShowsAfter(info, v, head, t.st.nextId, Concat(ps));
  }

  lemma ShowsAfter(info: QueueInfo, v: SdmaView, head: nat, from: nat, stream: seq<u32>)
    requires Shows(info, v, head, from, stream)
    ensures head <= v.wptr <= head + |stream|
  {
  }

  lemma FailSynced(info: QueueInfo, host: u64 -> bool, head: nat, ps: seq<seq<u32>>, t: SdmaRuns.Trace,
      seen: SdmaView, tick: SdmaRuns.Tick)
    requires Synced(info, host, head, ps, t, seen) && tick.obs.PtrFail?
    ensures Synced(info, host, head, ps, Next(info, t, tick), seen)
  {
    hide DecodeOk, Fits;
    assert t.decoded + [] == t.decoded && t.out + [] == t.out;
  }

  function Records(ds: seq<SdmaRuns.Decode>): seq<SdmaRecord> {
    seq(|ds|, i requires 0 <= i < |ds| => ds[i].rec)
  }

  /** The stream up to its k-th dword. */
  function Cut(ps: seq<seq<u32>>, k: nat): seq<u32> {
    if k <= |Concat(ps)| then Concat(ps)[..k] else Concat(ps)
  }

  /** One record per packet, in order, each the record its packet alone determines. */
  ghost predicate RecordsOf(info: QueueInfo, host: u64 -> bool, rs: seq<SdmaRecord>, packets: seq<seq<u32>>) {
    && |rs| == |packets| < U64
    && forall i :: 0 <= i < |rs| ==> |packets[i]| > 0 && Untimed(rs[i]) == BatchRecord(info, host, i, packets[i])
  }

  /** Incremental decoding equals batch parsing: whatever the schedule, the packets decoded so far are exactly those of
      the stream cut at the write pointer, the packets sunk exactly those of the stream cut at the smaller of
      the two pointers, each with the record its dwords alone determine; nothing is dropped. */
  lemma IncrementalIsBatch(info: QueueInfo, host: u64 -> bool, head: nat, ps: seq<seq<u32>>, ticks: seq<SdmaRuns.Tick>)
    requires Schedule(info, host, head, ps, ticks)
    ensures var t, v := SdmaRuns.Run(info, ticks), Last(info, ticks);
            && head <= v.wptr <= head + |Concat(ps)| && t.st.dropped == 0
            && RecordsOf(info, host, Records(t.decoded), BatchParse(info.sdmaVersion, Cut(ps, v.wptr - head)))
            && RecordsOf(info, host, t.out, BatchParse(info.sdmaVersion, Cut(ps, Consumed(head, v.wptr, v.rptr))))
  {
    hide SdmaRuns.Run, BatchParse, Synced, OnStream, RecordsOf, Cut, Records, ArePackets;
    RunSynced(info, host, head, ps, ticks);
    LastOnStream(info, host, head, ps, ticks);
    SyncedBatch(info, host, head, ps, SdmaRuns.Run(info, ticks), Last(info, ticks));
  }

  lemma {:induction false} LastOnStream(info: QueueInfo, host: u64 -> bool, head: nat, ps: seq<seq<u32>>,
      ticks: seq<SdmaRuns.Tick>)
    requires Schedule(info, host, head, ps, ticks)
    ensures head <= Last(info, ticks).wptr <= head + |Concat(ps)|
  {
    hide SdmaRuns.Run, Shows;
    var init := ticks[..|ticks| - 1];
    if SdmaRuns.Head(info, init).Some? {
      SchedulePrefix(info, host, head, ps, ticks);
      LastOnStream(info, host, head, ps, init);
      if ticks[|ticks| - 1].obs.Got? {
        ShowsAfter(info, ticks[|ticks| - 1].obs.view, head, SdmaRuns.Run(info, init).st.nextId, Concat(ps));
      }
    }
  }

  lemma SyncedBatch(info: QueueInfo, host: u64 -> bool, head: nat, ps: seq<seq<u32>>, t: SdmaRuns.Trace, v: SdmaView)
    requires ArePackets(info.sdmaVersion, ps) && Synced(info, host, head, ps, t, v) && v.wptr <= head + |Concat(ps)|
    ensures t.st.dropped == 0
    ensures RecordsOf(info, host, Records(t.decoded), BatchParse(info.sdmaVersion, Cut(ps, v.wptr - head)))
    ensures RecordsOf(info, host, t.out, BatchParse(info.sdmaVersion, Cut(ps, Consumed(head, v.wptr, v.rptr))))
  {
    hide BatchRecord, BatchParse, Untimed, Fits, ArePackets, SdmaRuns.Inv;
    BatchParseCut(info.sdmaVersion, ps, v.wptr - head);
    BatchParseCut(info.sdmaVersion, ps, Consumed(head, v.wptr, v.rptr));
    SyncedOut(info, host, head, ps, t, |t.decoded|, v.rptr);
  }

  /** Sunk records are the first decoded ones, completed. */
  lemma SyncedOut(info: QueueInfo, host: u64 -> bool, head: nat, ps: seq<seq<u32>>, t: SdmaRuns.Trace, k: nat, r: nat)
    requires Sync(info, host, head, ps, t, k, r)
    ensures |t.out| <= k
    ensures forall i :: 0 <= i < k ==> |ps[i]| > 0 && Untimed(t.decoded[i].rec) == BatchRecord(info, host, i, ps[i])
    ensures forall i :: 0 <= i < |t.out| ==> Untimed(t.out[i]) == BatchRecord(info, host, i, ps[i])
  {
    hide BatchRecord, PacketLen;
    forall i | 0 <= i < k
      ensures |ps[i]| > 0 && Untimed(t.decoded[i].rec) == BatchRecord(info, host, i, ps[i])
    {
      assert DecodeOk(info, host, head, ps, t.decoded[i], i);
    }
    assert forall i :: 0 <= i < |t.out| ==> Untimed(t.out[i]) == Untimed(t.decoded[i].rec);
  }

  // ---- After an overrun ----

  predicate Boundary(head: nat, ps: seq<seq<u32>>, pos: nat) {
    exists j :: 0 <= j <= |ps| && pos == head + Span(ps, j)
  }

  /** A decoded packet is one of the stream's packets. */
  predicate OfStream(head: nat, ps: seq<seq<u32>>, w: Packet) {
    exists j :: 0 <= j < |ps| && w.start == head + Span(ps, j) && w.len == |ps[j]|
  }

  predicate AllOfStream(head: nat, ps: seq<seq<u32>>, ws: seq<Packet>) {
    forall i :: 0 <= i < |ws| ==> OfStream(head, ps, ws[i])
  }

  lemma MatchesOfStream(head: nat, ps: seq<seq<u32>>, k: nat, ws: seq<Packet>, n: nat)
    requires k <= |ps| && n <= |ps| - k && Matches(ws, head + Span(ps, k), ps[k..][..n])
    ensures AllOfStream(head, ps, ws)
  {
    hide Span, Window;
    var qs := ps[k..];
    forall i | 0 <= i < |ws|
      ensures OfStream(head, ps, ws[i])
    {
      SpanSplit(ps, k, i);
      SpanOfPrefix(qs, n, i);
      assert qs[..n][i] == ps[k + i];
    }
  }

  lemma SpanOfPrefix(qs: seq<seq<u32>>, n: nat, i: nat)
    requires i <= n <= |qs|
    ensures Span(qs[..n], i) == Span(qs, i)
  {
    assert qs[..n][..i] == qs[..i];
  }

  /** Wherever a poll resumes, in particular after an overrun has made it skip to a ring below the write pointer: it
      decodes nothing but packets of the stream exactly when it resumes at a packet boundary or takes nothing. */
  lemma ResumesOnStream(info: QueueInfo, s: QState, v: SdmaView, head: nat, ps: seq<seq<u32>>)
    requires ArePackets(info.sdmaVersion, ps)
    requires var from := SdmaRuns.From(info, s, v); head <= from < v.wptr && Shows(info, v, head, from, Concat(ps))
    ensures var from := SdmaRuns.From(info, s, v);
            AllOfStream(head, ps, Walk(v, from)) <==> Boundary(head, ps, from) || !Front(v, from).Take?
  {
    hide Shows, ArePackets, Walk, WalkEnd, Front, Span, Matches, PacketLen, OfStream, SdmaRuns.From, Fits, Lost;
    var from := SdmaRuns.From(info, s, v);
    if Boundary(head, ps, from) {
      var k :| 0 <= k <= |ps| && from == head + Span(ps, k);
      BoundaryWalks(info, v, head, ps, k);
    } else if Front(v, from).Take? {
      TakenFirst(v, from);
      if AllOfStream(head, ps, Walk(v, from)) {
        FirstIsBoundary(head, ps, Walk(v, from)[0]);
      }
    } else {
      NothingTaken(v, from);
    }
  }

  lemma BoundaryWalks(info: QueueInfo, v: SdmaView, head: nat, ps: seq<seq<u32>>, k: nat)
    requires ArePackets(info.sdmaVersion, ps) && k <= |ps| && head + Span(ps, k) <= v.wptr
    requires Shows(info, v, head, head + Span(ps, k), Concat(ps))
    ensures AllOfStream(head, ps, Walk(v, head + Span(ps, k)))
  {
    hide Shows, Walk, WalkEnd, Span, Matches, PacketLen, OfStream, Fits, Lost;
    var pos := head + Span(ps, k);
    ShowsSuffix(info, v, head, ps, k);
    WalkMatches(info.sdmaVersion, v, pos, ps[k..]);
    MatchesOfStream(head, ps, k, Walk(v, pos), Fits(ps[k..], v.wptr - pos));
  }

  lemma TakenFirst(v: SdmaView, pos: u64)
    requires pos < v.wptr && Front(v, pos).Take?
    ensures Walk(v, pos) != [] && Walk(v, pos)[0].start == pos
  {
    hide Front;
    WalkTakes(v, pos);
  }

  lemma NothingTaken(v: SdmaView, pos: u64)
    requires pos < v.wptr && !Front(v, pos).Take?
    ensures Walk(v, pos) == []
  {
    hide Front;
  }

  lemma FirstIsBoundary(head: nat, ps: seq<seq<u32>>, w: Packet)
    requires OfStream(head, ps, w)
    ensures Boundary(head, ps, w.start)
  {
  }

  /** Skipping a whole ring does land inside a packet: then what is decoded next is no packet of the stream. Here the
      stream is a three-dword NOP whose payload looks like a TRAP, then a TRAP; one dword too many has been
      written to a ring of four. */
  lemma OverrunMisreads(info: QueueInfo, v: SdmaView)
    requires info.ringSize == 16 && info.sdmaVersion == V4
    requires v.wptr == 5 && Shows(info, v, 0, 1, [0x2_0000, OP_TRAP, 0] + [OP_TRAP, 0])
    ensures BatchParse(V4, [0x2_0000, OP_TRAP, 0] + [OP_TRAP, 0]) == [[0x2_0000, OP_TRAP, 0], [OP_TRAP, 0]]
    ensures var from := SdmaRuns.From(info, INIT.(primed := true), v);
            && from == 1
            && Walk(v, from) == [Taken(1, 2, [OP_TRAP, 0, OP_TRAP, 0]), Taken(3, 2, [OP_TRAP, 0])]
  {
    var nop: seq<u32>, trap: seq<u32> := [0x2_0000, OP_TRAP, 0], [OP_TRAP, 0];
    NopThenTrap();
    assert (nop + trap)[1..5] == [OP_TRAP, 0, OP_TRAP, 0] && (nop + trap)[3..5] == trap;
    TrapShown([OP_TRAP, 0, OP_TRAP, 0]);
    TrapShown(trap);
    hide PacketLen, BatchParse;
    assert v.look(1) == Sized(2, [OP_TRAP, 0, OP_TRAP, 0]);
    assert v.look(3) == Sized(2, trap);
    assert Walk(v, 5) == [];
    assert Walk(v, 3) == [Taken(3, 2, trap)];
  }

  lemma TrapShown(dws: seq<u32>)
    requires 0 < |dws| <= WINDOW && dws[0] == OP_TRAP
    ensures LookAt(V4, Some(Window(dws))) == Sized(2, dws)
  {
  }

  lemma NopThenTrap()
    ensures BatchParse(V4, [0x2_0000, OP_TRAP, 0] + [OP_TRAP, 0]) == [[0x2_0000, OP_TRAP, 0], [OP_TRAP, 0]]
  {
    var nop: seq<u32>, trap: seq<u32> := [0x2_0000, OP_TRAP, 0], [OP_TRAP, 0];
    assert IsPacket(V4, nop) && IsPacket(V4, trap);
    hide PacketLen, BatchParse, IsPacket;
    SplitAll(V4, [nop, trap]);
    assert [nop, trap][1..] == [trap] && [trap][1..] == [];
    assert Concat([trap]) == trap + Concat([]);
    assert trap + [] == trap;
    assert Concat([nop, trap]) == nop + Concat([trap]);
  }
}
