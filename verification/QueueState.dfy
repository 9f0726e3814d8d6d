/** The polling code as it runs: one object per queue whose fields the poll loops update
    (RingParser::PollQueue, PollSdmaQueue and their helpers in src/parser.cpp, struct QueueState in
    src/parser.h). Each method is proved to compute the corresponding function of modules
    AqlPoll, SdmaPoll and PageCache. */
module QueueStates {
  import opened Model
  import opened OrderedMap
  import Sequences
  import AqlPackets
  import AqlPoll
  import SdmaPackets
  import SdmaPoll
  import PageCache

  /** Queue pointers as read, after both ways of reading have been tried. */
  datatype Pointers = Pointers(wptr: Option<u64>, rptr: Option<u64>)

  function AqlObs(info: QueueInfo, p: Pointers, m: AqlPackets.AqlMemory): Obs<AqlPackets.AqlView> {
    if p.wptr.Some? && p.rptr.Some? then Got(AqlPackets.ViewOf(info, p.wptr.value, p.rptr.value, m)) else PtrFail
  }

  function SdmaObs(info: QueueInfo, p: Pointers, m: SdmaPoll.SdmaMemory): Obs<SdmaPoll.SdmaView> {
    if p.wptr.Some? && p.rptr.Some? then Got(SdmaPoll.ViewOf(info, p.wptr.value, p.rptr.value, m)) else PtrFail
  }

  lemma WrapAdd(x: int, y: int)
    ensures Wrap(Wrap(x) + y) == Wrap(x + y)
  {
  }

  lemma EmplaceAllSnoc<V>(m: seq<Entry<V>>, q: seq<Entry<V>>, e: Entry<V>)
    ensures EmplaceAll(m, q + [e]) == Emplace(EmplaceAll(m, q), e.key, e.val)
  {
    assert (q + [e])[..|q|] == q;
  }

  /** Where the AQL decode loop stands: started in `s`, now in `st`, with `sunk` handed to the sink so far. */
  ghost predicate AqlProgress(info: QueueInfo, s: QState, v: AqlPackets.AqlView, now: real, st: QState,
      sunk: seq<PacketRecord>) {
    var mid, id := AqlPoll.Consumed(s.nextId, v), st.nextId;
    && s.nextId <= id
    && st == s.(nextId := id, dropped := st.dropped, inflight := st.inflight)
    && sunk == AqlPoll.Fresh(info, v, now, s.nextId, Min(id, mid))
    && st.dropped == Wrap(s.dropped + AqlPoll.Missed(v, s.nextId, Min(id, mid)))
    && st.inflight == EmplaceAll(s.inflight, AqlPoll.Pending(info, v, now, mid, id))
    && (id >= mid ==> AqlPoll.Stop(v, id) == AqlPoll.Stop(v, mid))
  }

  lemma AqlStart(info: QueueInfo, s: QState, v: AqlPackets.AqlView, now: real)
    ensures AqlProgress(info, s, v, now, s, [])
  {
  }

  /** A consumed id: sunk if decodable, otherwise dropped. */
  lemma AqlConsumed(info: QueueInfo, s: QState, v: AqlPackets.AqlView, now: real, st: QState, sunk: seq<PacketRecord>)
    requires AqlProgress(info, s, v, now, st, sunk) && st.nextId < v.wptr && st.nextId < v.rptr
    ensures var p, id := v.slot(st.nextId), st.nextId;
            if p.Some?
            then AqlProgress(info, s, v, now, st.(nextId := id + 1), sunk + [AqlPoll.Completed(AqlPoll.Submitted(info, id, p.value, now), now)])
            else AqlProgress(info, s, v, now, st.(nextId := id + 1, dropped := Wrap(st.dropped + 1)), sunk)
  {
    hide AqlPoll.Stop, EmplaceAll, Wrap;
    assert st.nextId < AqlPoll.Consumed(s.nextId, v);
    WrapAdd(s.dropped + AqlPoll.Missed(v, s.nextId, st.nextId), 1);
  }

  /** A pending, published id: put into the map. */
  lemma AqlPending(info: QueueInfo, s: QState, v: AqlPackets.AqlView, now: real, st: QState, sunk: seq<PacketRecord>)
    requires AqlProgress(info, s, v, now, st, sunk) && v.rptr <= st.nextId < v.wptr && v.slot(st.nextId).Some?
    ensures var rec := AqlPoll.Submitted(info, st.nextId, v.slot(st.nextId).value, now);
            AqlProgress(info, s, v, now, st.(nextId := st.nextId + 1, inflight := Emplace(st.inflight, st.nextId, rec)), sunk)
  {
    hide Wrap, Emplace, EmplaceAll, AqlPoll.Fresh, AqlPoll.Missed;
    var rec := AqlPoll.Submitted(info, st.nextId, v.slot(st.nextId).value, now);
    EmplaceAllSnoc(s.inflight, AqlPoll.Pending(info, v, now, AqlPoll.Consumed(s.nextId, v), st.nextId), Entry(st.nextId, rec));
  }

  /** At the write pointer or at an unpublished pending id the loop has computed Decoded. */
  lemma AqlDone(info: QueueInfo, s: QState, v: AqlPackets.AqlView, now: real, st: QState, sunk: seq<PacketRecord>)
    requires AqlProgress(info, s, v, now, st, sunk)
    requires st.nextId >= v.wptr || (v.slot(st.nextId).None? && v.rptr <= st.nextId)
    ensures st == AqlPoll.Decoded(info, s, v, now)
    ensures sunk == AqlPoll.Fresh(info, v, now, s.nextId, AqlPoll.Consumed(s.nextId, v))
  {
    assert AqlPoll.Stop(v, st.nextId) == st.nextId;
  }

  // ---- The SDMA decode loop ----

  /** Where the SDMA decode loop stands: `done` decoded since `s`, the rest of the walk still ahead. */
  ghost predicate SdmaProgress(info: QueueInfo, s: QState, v: SdmaPoll.SdmaView, now: real, st: QState,
      done: seq<SdmaPoll.Packet>) {
    && SdmaPoll.Walk(v, s.nextId) == done + SdmaPoll.Walk(v, st.nextId)
    && SdmaPoll.WalkEnd(v, s.nextId) == SdmaPoll.WalkEnd(v, st.nextId)
    && st == s.(nextId := st.nextId,
                sdmaSeq := Wrap(s.sdmaSeq + |done|),
                sdmaInflight := EmplaceAll(s.sdmaInflight, SdmaPoll.Entries(info, v.host, s.pageHost, s.sdmaSeq, done, now)),
                pageHost := SdmaPoll.CacheAfter(info.sdmaVersion, v.host, s.pageHost, done))
  }

  lemma SdmaStart(info: QueueInfo, s: QState, v: SdmaPoll.SdmaView, now: real)
    ensures SdmaProgress(info, s, v, now, s, [])
  {
    assert [] + SdmaPoll.Walk(v, s.nextId) == SdmaPoll.Walk(v, s.nextId);
  }

  /** The record of a packet about to be decoded, and the page cache after it. */
  function NewRecord(info: QueueInfo, v: SdmaPoll.SdmaView, now: real, st: QState, dws: seq<u32>): SdmaRecord
    requires |dws| > 0
  {
    SdmaPoll.RecordOf(info, st.sdmaSeq, dws, SdmaPoll.DirOf(info.sdmaVersion, v.host, st.pageHost, dws), now)
  }

  function NewCache(info: QueueInfo, v: SdmaPoll.SdmaView, st: QState, dws: seq<u32>): map<u64, bool> {
    if SdmaPoll.HasAddresses(info.sdmaVersion, dws)
    then PageCache.ClassifyDir(v.host, st.pageHost, SdmaPoll.Src(dws), SdmaPoll.Dst(dws)).1
    else st.pageHost
  }

  /** A complete packet is numbered, classified and put into the map under its end. */
  lemma SdmaTake(info: QueueInfo, s: QState, v: SdmaPoll.SdmaView, now: real, st: QState, done: seq<SdmaPoll.Packet>,
      len: nat, dws: seq<u32>)
    requires SdmaProgress(info, s, v, now, st, done) && st.nextId < v.wptr
    requires SdmaPoll.Front(v, st.nextId) == SdmaPoll.Take(len, dws)
    ensures |dws| > 0 && 0 < len <= v.wptr - st.nextId
    ensures var end := st.nextId + len;
            SdmaProgress(info, s, v, now,
                         st.(nextId := end, sdmaSeq := Wrap(st.sdmaSeq + 1),
                             sdmaInflight := Emplace(st.sdmaInflight, end, NewRecord(info, v, now, st, dws)),
                             pageHost := NewCache(info, v, st, dws)),
                         done + [SdmaPoll.Taken(st.nextId, len, dws)])
  {
    hide Wrap, Emplace, NewRecord, NewCache, SdmaPoll.Entries, SdmaPoll.CacheAfter, EmplaceAll;
    var p: SdmaPoll.Packet := SdmaPoll.Taken(st.nextId, len, dws);
    var end, ahead := st.nextId + len, SdmaPoll.Walk(v, st.nextId + len);
    assert SdmaPoll.Walk(v, st.nextId) == [p] + ahead;
    Sequences.Assoc(done, [p], ahead);
    WrapAdd(s.sdmaSeq + |done|, 1);
    EntriesSnoc(info, s, v, now, st, done, p);
    EmplaceAllSnoc(s.sdmaInflight, SdmaPoll.Entries(info, v.host, s.pageHost, s.sdmaSeq, done, now),
                   Entry(end, NewRecord(info, v, now, st, dws)));
  }

  lemma EntriesSnoc(info: QueueInfo, s: QState, v: SdmaPoll.SdmaView, now: real, st: QState,
      done: seq<SdmaPoll.Packet>, p: SdmaPoll.Packet)
    requires st.sdmaSeq == Wrap(s.sdmaSeq + |done|)
    requires st.pageHost == SdmaPoll.CacheAfter(info.sdmaVersion, v.host, s.pageHost, done)
    ensures SdmaPoll.Entries(info, v.host, s.pageHost, s.sdmaSeq, done + [p], now) ==
            SdmaPoll.Entries(info, v.host, s.pageHost, s.sdmaSeq, done, now) + [Entry(SdmaPoll.End(p), NewRecord(info, v, now, st, p.dws))]
    ensures SdmaPoll.CacheAfter(info.sdmaVersion, v.host, s.pageHost, done + [p]) == NewCache(info, v, st, p.dws)
  {
    hide Wrap, SdmaPoll.RecordOf, SdmaPoll.HasAddresses, SdmaPoll.DirOf, PageCache.ClassifyDir;
    assert (done + [p])[..|done|] == done;
  }

  /** Where nothing more can be taken the loop has computed Decoded, up to the resynchronisation. */
  lemma SdmaDone(info: QueueInfo, s: QState, v: SdmaPoll.SdmaView, now: real, st: QState, done: seq<SdmaPoll.Packet>)
    requires SdmaProgress(info, s, v, now, st, done)
    requires st.nextId < v.wptr ==> !SdmaPoll.Front(v, st.nextId).Take?
    ensures var lost := st.nextId < v.wptr && SdmaPoll.Front(v, st.nextId).Resync?;
            SdmaPoll.Decoded(info, s, v, now) ==
            if lost then st.(dropped := Wrap(st.dropped + (v.wptr - st.nextId)), nextId := v.wptr) else st
  {
    hide Wrap, EmplaceAll, SdmaPoll.Entries, SdmaPoll.CacheAfter;
    assert SdmaPoll.Walk(v, st.nextId) == [] && SdmaPoll.WalkEnd(v, st.nextId) == st.nextId;
    assert done + [] == done;
  }

  /** Clearing the failure count commutes with the rest of a poll. */
  lemma SkipWithoutFails(s: QState, wptr: u64, cap: u32)
    ensures SkipOverrun(s.(fails := 0), wptr, cap) == SkipOverrun(s, wptr, cap).(fails := 0)
  {
    hide Wrap;
  }

  lemma DecodedWithoutFails(info: QueueInfo, s: QState, v: SdmaPoll.SdmaView, now: real)
    ensures SdmaPoll.Decoded(info, s.(fails := 0), v, now) == SdmaPoll.Decoded(info, s, v, now).(fails := 0)
  {
    hide Wrap, EmplaceAll, SdmaPoll.Entries, SdmaPoll.Walk, SdmaPoll.WalkEnd, SdmaPoll.CacheAfter, SdmaPoll.Front;
  }

  /** The last part of a poll, started with a cleared failure count. */
  lemma DecodeAndRetireFrom(info: QueueInfo, s: QState, wptr: u64, v: SdmaPoll.SdmaView, now: real)
    ensures var dec := SdmaPoll.Decoded(info, SkipOverrun(s.(fails := 0), wptr, info.NumDwords()), v, now);
            var due := Due(dec.sdmaInflight, v.rptr + 1);
            SdmaPoll.DecodeAndRetire(info, SkipOverrun(s, wptr, info.NumDwords()), v, now) ==
            SdmaPoll.Outcome(dec.(sdmaInflight := dec.sdmaInflight[due..], lastRptr := v.rptr),
                             SdmaPoll.Retired(dec.sdmaInflight[..due], now))
  {
    hide SdmaPoll.Decoded, SkipOverrun, Wrap, Due, SdmaPoll.Retired;
    SkipWithoutFails(s, wptr, info.NumDwords());
    DecodedWithoutFails(info, SkipOverrun(s, wptr, info.NumDwords()), v, now);
  }

  class QueueState {
    const info: QueueInfo
    var nextId: u64
    var lastRptr: u64
    var primed: bool
    var dropped: u64
    var inflight: seq<Entry<PacketRecord>>
    var sdmaSeq: u64
    var sdmaInflight: seq<Entry<SdmaRecord>>
    var pageHost: map<u64, bool>
    var readFailCount: nat
    var evict: bool

    ghost function State(): QState
      reads this
    {
      QState(nextId, lastRptr, primed, dropped, inflight, sdmaSeq, sdmaInflight, pageHost, readFailCount, evict)
    }

    constructor (q: QueueInfo)
      ensures info == q && State() == INIT
    {
      info := q;
      nextId, lastRptr, primed, dropped := 0, 0, false, 0;
      inflight, sdmaSeq, sdmaInflight := [], 0, [];
      pageHost, readFailCount, evict := map[], 0, false;
    }

    method NotePtrFailure()
      modifies this
      ensures State() == PtrReadFailed(old(State()))
    {
      readFailCount := readFailCount + 1;
      if readFailCount >= EVICT_AFTER {
        evict := true;
      }
    }

    /** Skip what the producer has wrapped over. */
    method GuardOverrun(wptr: u64, cap: u32)
      modifies this
      ensures State() == SkipOverrun(old(State()), wptr, cap)
    {
      if wptr > Wrap(nextId + cap) {
        dropped := Wrap(dropped + Wrap(Wrap(wptr - nextId) - cap));
        nextId := Wrap(wptr - cap);
      }
    }

    // ---- AQL ----

    method DecodeAql(v: AqlPackets.AqlView, now: real) returns (sunk: seq<PacketRecord>)
      modifies this
      ensures State() == AqlPoll.Decoded(info, old(State()), v, now)
      ensures sunk == AqlPoll.Fresh(info, v, now, old(nextId), AqlPoll.Consumed(old(nextId), v))
    {
      hide AqlProgress, Emplace, AqlPoll.Decoded, AqlPoll.Fresh, Wrap;
      sunk := [];
      ghost var s := State();
      AqlStart(info, s, v, now);
      while nextId < v.wptr
        invariant AqlProgress(info, s, v, now, State(), sunk)
        decreases v.wptr - nextId
      {
        var p := v.slot(nextId);
        if p.Some? {
          var rec := AqlPoll.Submitted(info, nextId, p.value, now);
          if nextId < v.rptr {
            AqlConsumed(info, s, v, now, State(), sunk);
            sunk := sunk + [AqlPoll.Completed(rec, now)];
          } else {
            AqlPending(info, s, v, now, State(), sunk);
            inflight := Emplace(inflight, nextId, rec);
          }
          nextId := nextId + 1;
        } else if nextId < v.rptr {
          AqlConsumed(info, s, v, now, State(), sunk);
          dropped := Wrap(dropped + 1);
          nextId := nextId + 1;
        } else {
          break;
        }
      }
      AqlDone(info, s, v, now, State(), sunk);
    }

    method RetireAql(rptr: u64, now: real) returns (sunk: seq<PacketRecord>)
      modifies this
      ensures var due := Due(old(inflight), rptr);
              && State() == old(State()).(inflight := old(inflight)[due..])
              && sunk == AqlPoll.Retired(old(inflight)[..due], now)
    {
      sunk := [];
      ghost var s, k := State(), 0;
      while inflight != []
        invariant k <= |s.inflight| && inflight == s.inflight[k..]
        invariant State() == s.(inflight := inflight)
        invariant sunk == AqlPoll.Retired(s.inflight[..k], now)
        invariant k + Due(inflight, rptr) == Due(s.inflight, rptr)
        decreases |inflight|
      {
        if inflight[0].key >= rptr {
          break;
        }
        sunk := sunk + [AqlPoll.Completed(inflight[0].val, now)];
        inflight := inflight[1..];
        k := k + 1;
      }
    }

    method PollQueue(p: Pointers, m: AqlPackets.AqlMemory, now: real) returns (sunk: seq<PacketRecord>)
      modifies this
      ensures AqlPoll.Outcome(State(), sunk) == AqlPoll.Poll(info, old(State()), AqlObs(info, p, m), now)
    {
      sunk := [];
      if p.wptr.None? || p.rptr.None? {
        NotePtrFailure();
        return;
      }
      readFailCount := 0;
      var v := AqlPackets.ViewOf(info, p.wptr.value, p.rptr.value, m);
      if !primed {
        nextId, lastRptr, primed := v.wptr, v.rptr, true;
        return;
      }
      GuardOverrun(v.wptr, info.NumSlots());
      sunk := DecodeAql(v, now);
      var retired := RetireAql(v.rptr, now);
      sunk := sunk + retired;
      lastRptr := v.rptr;
    }

    // ---- SDMA ----

    /** A user address is host-backed when its page has a physical frame; answers are cached per page. */
    method IsHostVA(host: u64 -> bool, va: u64) returns (isHost: bool)
      modifies this
      ensures State() == old(State()).(pageHost := pageHost)
      ensures (isHost, pageHost) == PageCache.IsHostVA(host, old(pageHost), va)
    {
      var page := PageCache.PageOf(va);
      if page in pageHost {
        return pageHost[page];
      }
      isHost := host(page);
      if |pageHost| >= PageCache.PAGE_CACHE_MAX {
        pageHost := map[];
      }
      pageHost := pageHost[page := isHost];
    }

    method ClassifyDir(host: u64 -> bool, src: u64, dst: u64) returns (dir: CopyDir)
      modifies this
      ensures State() == old(State()).(pageHost := pageHost)
      ensures (dir, pageHost) == PageCache.ClassifyDir(host, old(pageHost), src, dst)
    {
      var srcHost := IsHostVA(host, src);
      var dstHost := IsHostVA(host, dst);
      if srcHost && !dstHost {
        return HostToDevice;
      }
      if !srcHost && dstHost {
        return DeviceToHost;
      }
      if !srcHost && !dstHost {
        return DeviceToDevice;
      }
      return HostToHost;
    }

    /** Read `n` dwords from ring position `start`, in two parts when they wrap. */
    method ReadRingDwords(m: SdmaPoll.SdmaMemory, start: u64, n: nat) returns (r: Option<seq<u32>>)
      ensures r == SdmaPoll.ReadRing(info, m, start, n)
    {
      var ring := info.NumDwords();
      if ring == 0 {
        return None;
      }
      var off := start % ring;
      var first := if n < ring - off then n else ring - off;
      if !m.readable(start, off * 4, first * 4) {
        return None;
      }
      var out := seq(first, i requires 0 <= i => m.dword(start, (off + i) * 4));
      if first < n {
        if !m.readable(start, 0, (n - first) * 4) {
          return None;
        }
        out := out + seq(n - first, i requires 0 <= i => m.dword(start, i * 4));
      }
      return Some(out);
    }

    /** Decode the packet at the front of the stream into the map. */
    method TakePacket(v: SdmaPoll.SdmaView, now: real, len: nat, dws: seq<u32>)
      requires |dws| > 0 && nextId + len < U64
      modifies this
      ensures var s := old(State());
              State() == s.(nextId := s.nextId + len, sdmaSeq := Wrap(s.sdmaSeq + 1),
                            sdmaInflight := Emplace(s.sdmaInflight, s.nextId + len, NewRecord(info, v, now, s, dws)),
                            pageHost := NewCache(info, v, s, dws))
    {
      var dir := UnknownDir;
      if SdmaPoll.HasAddresses(info.sdmaVersion, dws) {
        dir := ClassifyDir(v.host, SdmaPoll.Src(dws), SdmaPoll.Dst(dws));
      }
      var rec := SdmaPoll.RecordOf(info, sdmaSeq, dws, dir, now);
      sdmaSeq := Wrap(sdmaSeq + 1);
      sdmaInflight := Emplace(sdmaInflight, nextId + len, rec);
      nextId := nextId + len;
    }

    method DecodeSdma(m: SdmaPoll.SdmaMemory, wptrRaw: u64, rptrRaw: u64, now: real)
      modifies this
      ensures State() == SdmaPoll.Decoded(info, old(State()), SdmaPoll.ViewOf(info, wptrRaw, rptrRaw, m), now)
    {
      hide SdmaProgress, SdmaPoll.Decoded, NewRecord, NewCache, Wrap, Emplace, SdmaPoll.ReadRing, SdmaPackets.PacketLen;
      var v := SdmaPoll.ViewOf(info, wptrRaw, rptrRaw, m);
      ghost var s := State();
      ghost var done: seq<SdmaPoll.Packet> := [];
      SdmaStart(info, s, v, now);
      while nextId < v.wptr
        invariant SdmaProgress(info, s, v, now, State(), done)
        decreases v.wptr - nextId
      {
        var avail := v.wptr - nextId;
        var dws := ReadRingDwords(m, nextId, Min(avail, SdmaPackets.WINDOW));
        if dws.None? {
          break;
        }
        var len := SdmaPackets.PacketLen(info.sdmaVersion, dws.value);
        if len == 0 {
          if avail >= 4 {
            SdmaDone(info, s, v, now, State(), done);
            dropped := Wrap(dropped + avail);
            nextId := v.wptr;
            return;
          }
          break;
        }
        if len > avail {
          break;
        }
        SdmaTake(info, s, v, now, State(), done, len, dws.value);
        done := done + [SdmaPoll.Taken(nextId, len, dws.value)];
        TakePacket(v, now, len, dws.value);
      }
      SdmaDone(info, s, v, now, State(), done);
    }

    method RetireSdma(rptr: u64, now: real) returns (sunk: seq<SdmaRecord>)
      modifies this
      ensures var due := Due(old(sdmaInflight), rptr + 1);
              && State() == old(State()).(sdmaInflight := old(sdmaInflight)[due..])
              && sunk == SdmaPoll.Retired(old(sdmaInflight)[..due], now)
    {
      sunk := [];
      ghost var s, k := State(), 0;
      while sdmaInflight != []
        invariant k <= |s.sdmaInflight| && sdmaInflight == s.sdmaInflight[k..]
        invariant State() == s.(sdmaInflight := sdmaInflight)
        invariant sunk == SdmaPoll.Retired(s.sdmaInflight[..k], now)
        invariant k + Due(sdmaInflight, rptr + 1) == Due(s.sdmaInflight, rptr + 1)
        decreases |sdmaInflight|
      {
        if sdmaInflight[0].key > rptr {
          break;
        }
        sunk := sunk + [SdmaPoll.Completed(sdmaInflight[0].val, now)];
        sdmaInflight := sdmaInflight[1..];
        k := k + 1;
      }
    }

    method PollSdmaQueue(p: Pointers, m: SdmaPoll.SdmaMemory, now: real) returns (sunk: seq<SdmaRecord>)
      modifies this
      ensures SdmaPoll.Outcome(State(), sunk) == SdmaPoll.Poll(info, old(State()), SdmaObs(info, p, m), now)
    {
      hide SdmaPoll.Decoded, SkipOverrun, Wrap, Due, SdmaPoll.Retired, SdmaPoll.DecodeAndRetire, SdmaPoll.LookRing;
      sunk := [];
      if p.wptr.None? || p.rptr.None? {
        NotePtrFailure();
        return;
      }
      readFailCount := 0;
      if info.NumDwords() == 0 {
        return;
      }
      var wptr, rptr := SdmaPoll.RingBytesToDwords(p.wptr.value), SdmaPoll.RingBytesToDwords(p.rptr.value);
      if !primed {
        nextId, lastRptr, primed := wptr, rptr, true;
        return;
      }
      DecodeAndRetireFrom(info, old(State()), wptr, SdmaPoll.ViewOf(info, p.wptr.value, p.rptr.value, m), now);
      GuardOverrun(wptr, info.NumDwords());
      DecodeSdma(m, p.wptr.value, p.rptr.value, now);
      sunk := RetireSdma(rptr, now);
      lastRptr := rptr;
    }
  }
}
