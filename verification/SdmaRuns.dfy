/** What the SDMA poller guarantees over whole runs, for arbitrary pointers and memory. */
module SdmaRuns {
  import opened Model
  import opened Sequences
  import opened OrderedMap
  import opened SdmaPackets
  import opened SdmaPoll

  datatype Tick = Tick(now: real, obs: Obs<SdmaView>)

  /** A decoded packet together with its record and the read pointer of the poll that decoded it. */
  datatype Decode = Decode(packet: Packet, rec: SdmaRecord, rptr: u64)

  /** The state after a run, everything decoded so far, and everything handed to the sink so far. */
  datatype Trace = Trace(st: QState, decoded: seq<Decode>, out: seq<SdmaRecord>)

  /** Where decoding resumes after the overrun guard. */
  function From(info: QueueInfo, s: QState, v: SdmaView): u64 {
    SkipOverrun(s, v.wptr, info.NumDwords()).nextId
  }

  function Active(info: QueueInfo, s: QState, obs: Obs<SdmaView>): bool {
    obs.Got? && info.NumDwords() > 0 && s.primed
  }

  /** The packets a poll decodes, with their records. */
  function NewDecodes(info: QueueInfo, s: QState, v: SdmaView, now: real): seq<Decode> {
    var ps := Walk(v, From(info, s, v));
    var es := Entries(info, v.host, s.pageHost, s.sdmaSeq, ps, now);
    Paired(ps, es, v.rptr)
  }

  function Paired(ps: seq<Packet>, es: seq<Entry<SdmaRecord>>, rptr: u64): (ds: seq<Decode>)
    requires |ps| == |es|
    ensures |ds| == |ps|
  {
    if ps == [] then [] else Paired(ps[..|ps| - 1], es[..|es| - 1], rptr) + [Decode(ps[|ps| - 1], es[|es| - 1].val, rptr)]
  }

  lemma {:induction false} PairedAt(ps: seq<Packet>, es: seq<Entry<SdmaRecord>>, rptr: u64)
    requires |ps| == |es|
    ensures forall i :: 0 <= i < |ps| ==> Paired(ps, es, rptr)[i] == Decode(ps[i], es[i].val, rptr)
  {
    if ps != [] {
      PairedAt(ps[..|ps| - 1], es[..|es| - 1], rptr);
    }
  }


  function Run(info: QueueInfo, ticks: seq<Tick>): Trace {
    if ticks == [] then Trace(INIT, [], [])
    else
      var before, last := Run(info, ticks[..|ticks| - 1]), ticks[|ticks| - 1];
      var o := Poll(info, before.st, last.obs, last.now);
      var more := if Active(info, before.st, last.obs) then NewDecodes(info, before.st, last.obs.view, last.now) else [];
      Trace(o.st, before.decoded + more, before.out + o.sunk)
  }

  // ---- One walk ----

  /** Packets lie end to end from one position to another. */
  predicate Chain(ps: seq<Packet>, from: nat, to: nat) {
    if ps == [] then from == to
    else ps[0].start == from && End(ps[0]) <= to && Chain(ps[1..], End(ps[0]), to)
  }

  function SumLen(ps: seq<Packet>): nat {
    if ps == [] then 0 else SumLen(ps[..|ps| - 1]) + ps[|ps| - 1].len
  }

  lemma FrontTakes(v: SdmaView, pos: u64)
    requires pos < v.wptr
    ensures Front(v, pos).Take? ==> 0 < Front(v, pos).len <= v.wptr - pos
  {
  }

  lemma {:induction false} WalkBounds(v: SdmaView, pos: u64)
    ensures var end := WalkEnd(v, pos); pos <= end && (end == pos || end <= v.wptr)
    decreases if pos < v.wptr then v.wptr - pos else 0
  {
    if pos < v.wptr && Front(v, pos).Take? {
      FrontTakes(v, pos);
      WalkBounds(v, pos + Front(v, pos).len);
    }
  }

  lemma {:induction false} WalkChain(v: SdmaView, pos: u64)
    ensures Chain(Walk(v, pos), pos, WalkEnd(v, pos))
    decreases if pos < v.wptr then v.wptr - pos else 0
  {
    if pos < v.wptr && Front(v, pos).Take? {
      var next := pos + Front(v, pos).len;
      WalkChain(v, next);
      WalkBounds(v, next);
      ChainCons(Taken(pos, Front(v, pos).len, Front(v, pos).dws), Walk(v, next), WalkEnd(v, next));
    }
  }

  lemma ChainCons(p: Packet, ps: seq<Packet>, to: nat)
    requires Chain(ps, End(p), to) && End(p) <= to
    ensures Chain([p] + ps, p.start, to)
  {
    assert ([p] + ps)[1..] == ps;
  }

  /** In order and apart, inside [from, to]. */
  predicate Apart(ps: seq<Packet>, from: nat, to: nat) {
    && (forall i :: 0 <= i < |ps| ==> from <= ps[i].start && End(ps[i]) <= to)
    && (forall i, j :: 0 <= i < j < |ps| ==> End(ps[i]) <= ps[j].start)
  }

  lemma {:induction false} ChainApart(ps: seq<Packet>, from: nat, to: nat)
    requires Chain(ps, from, to)
    ensures Apart(ps, from, to) && from <= to
    ensures SumLen(ps) == to - from
  {
    if ps != [] {
      ChainApart(ps[1..], End(ps[0]), to);
      SumLenCons(ps);
    }
  }

  lemma {:induction false} SumLenCons(ps: seq<Packet>)
    requires ps != []
    ensures SumLen(ps) == ps[0].len + SumLen(ps[1..])
  {
    var init := ps[..|ps| - 1];
    if init != [] {
      SumLenCons(init);
      assert ps[1..][..|ps| - 2] == init[1..];
    }
  }

  lemma {:induction false} SumLenAppend(ps: seq<Packet>, qs: seq<Packet>)
    ensures SumLen(ps + qs) == SumLen(ps) + SumLen(qs)
  {
    if qs == [] {
      assert ps + qs == ps;
    } else {
      var init := qs[..|qs| - 1];
      SumLenAppend(ps, init);
      assert (ps + qs)[..|ps + qs| - 1] == ps + init;
    }
  }

  lemma {:induction false} CountBelowSum(ps: seq<Packet>)
    ensures |ps| <= SumLen(ps)
  {
    if ps != [] {
      CountBelowSum(ps[..|ps| - 1]);
    }
  }

  lemma {:induction false} EntriesAre(info: QueueInfo, host: u64 -> bool, cache: PageCache.Cache, seq0: u64,
      ps: seq<Packet>, now: real)
    requires seq0 + |ps| < U64
    ensures var es := Entries(info, host, cache, seq0, ps, now);
            forall i :: 0 <= i < |es| ==>
              && es[i].key == End(ps[i]) && es[i].val.seqNo == seq0 + i
              && es[i].val.submitTs == now && !es[i].val.completed
  {
    hide SdmaPoll.CacheAfter, SdmaPoll.DirOf, SdmaPoll.HasAddresses, SdmaPackets.PacketName, SdmaPackets.LinearCopyBytes;
    if ps != [] {
      EntriesAre(info, host, cache, seq0, ps[..|ps| - 1], now);
    }
  }

  // ---- The invariant of a run ----

  function Packets(ds: seq<Decode>): seq<Packet> {
    seq(|ds|, i requires 0 <= i < |ds| => ds[i].packet)
  }

  function AsEntries(ds: seq<Decode>): seq<Entry<SdmaRecord>> {
    seq(|ds|, i requires 0 <= i < |ds| => Entry(End(ds[i].packet), ds[i].rec))
  }

  /** Sequence numbers are dense, decoded packets are in order and apart. */
  predicate Numbered(head: nat, next: nat, ds: seq<Decode>) {
    && Apart(Packets(ds), head, next)
    && forall i :: 0 <= i < |ds| ==> ds[i].rec.seqNo == i && !ds[i].rec.completed
  }

  /** What was sunk is the first part of what was decoded, what is in flight is the rest. */
  predicate Fifo(st: QState, ds: seq<Decode>, out: seq<SdmaRecord>) {
    && |out| <= |ds|
    && st.sdmaInflight == AsEntries(ds[|out|..])
    && forall i :: 0 <= i < |out| ==> out[i] == Completed(ds[i].rec, out[i].completeTs)
  }

  const DWORDS: int := 0x4000_0000_0000_0000

  predicate Books(head: nat, st: QState, ds: seq<Decode>) {
    && st.primed && head <= st.nextId < DWORDS
    && st.sdmaSeq == |ds|
    && SumLen(Packets(ds)) + st.dropped == st.nextId - head
  }

  predicate Inv(head: nat, t: Trace) {
    Books(head, t.st, t.decoded) && Numbered(head, t.st.nextId, t.decoded) && Fifo(t.st, t.decoded, t.out)
  }

  // ---- One poll ----

  lemma FromIs(info: QueueInfo, s: QState, v: SdmaView)
    requires s.nextId < DWORDS && v.wptr < DWORDS && s.dropped < DWORDS
    ensures s.nextId <= From(info, s, v) <= (if s.nextId < v.wptr then v.wptr else s.nextId)
    ensures v.wptr <= From(info, s, v) + info.NumDwords()
    ensures From(info, s, v) == (if v.wptr > s.nextId + info.NumDwords() then v.wptr - info.NumDwords() else s.nextId)
    ensures SkipOverrun(s, v.wptr, info.NumDwords()) ==
            s.(nextId := From(info, s, v), dropped := s.dropped + From(info, s, v) - s.nextId)
  {
    SkipOverrunExact(s, v.wptr, info.NumDwords());
  }

  lemma NewDecodesAre(info: QueueInfo, s: QState, v: SdmaView, now: real)
    requires s.sdmaSeq + |Walk(v, From(info, s, v))| < U64
    ensures var ps, ds := Walk(v, From(info, s, v)), NewDecodes(info, s, v, now);
            && Packets(ds) == ps
            && AsEntries(ds) == Entries(info, v.host, s.pageHost, s.sdmaSeq, ps, now)
            && forall i :: 0 <= i < |ds| ==>
                 ds[i].rec.seqNo == s.sdmaSeq + i && ds[i].rec.submitTs == now && !ds[i].rec.completed && ds[i].rptr == v.rptr
  {
    hide Entries, Walk, From, Paired;
    var ps := Walk(v, From(info, s, v));
    EntriesAre(info, v.host, s.pageHost, s.sdmaSeq, ps, now);
    PairedAt(ps, Entries(info, v.host, s.pageHost, s.sdmaSeq, ps, now), v.rptr);
  }

  /** The packets of one walk fit between its ends, so there are fewer than 2^62 of them. */
  lemma WalkFits(info: QueueInfo, s: QState, v: SdmaView)
    requires s.nextId < DWORDS && v.wptr < DWORDS && s.dropped < DWORDS
    ensures var from := From(info, s, v);
            var ps, end := Walk(v, from), WalkEnd(v, from);
            && Chain(ps, from, end) && Apart(ps, from, end) && |ps| <= SumLen(ps) == end - from
            && s.nextId <= from <= end < DWORDS
            && (Lost(v, from) ==> end < v.wptr)
  {
    FromIs(info, s, v);
    WalkChain(v, From(info, s, v));
    WalkBounds(v, From(info, s, v));
    ChainApart(Walk(v, From(info, s, v)), From(info, s, v), WalkEnd(v, From(info, s, v)));
    CountBelowSum(Walk(v, From(info, s, v)));
  }

  /** How many dwords a walk gives up when it loses synchronisation. */
  function LostDwords(v: SdmaView, pos: u64): nat {
    if Lost(v, pos) then v.wptr - WalkEnd(v, pos) else 0
  }

  lemma DecodeAndRetireIs(info: QueueInfo, x: QState, v: SdmaView, now: real)
    requires x.nextId < DWORDS && v.wptr < DWORDS && x.dropped < 2 * DWORDS
    ensures var o, lost := DecodeAndRetire(info, x, v, now), LostDwords(v, x.nextId);
            var all := EmplaceAll(x.sdmaInflight, Entries(info, v.host, x.pageHost, x.sdmaSeq, Walk(v, x.nextId), now));
            var due := Due(all, v.rptr + 1);
            && o.st.nextId == WalkEnd(v, x.nextId) + lost
            && o.st.dropped == x.dropped + lost
            && o.st.sdmaSeq == Wrap(x.sdmaSeq + |Walk(v, x.nextId)|)
            && o.st.primed == x.primed && o.st.sdmaInflight == all[due..] && o.sunk == Retired(all[..due], now)
  {
    hide EmplaceAll, Due, Entries, Walk, WalkEnd, Retired, CacheAfter, Front;
    WalkBounds(v, x.nextId);
  }

  /** A poll in terms of its walk: every dword passed is decoded, skipped or resynchronised over. */
  lemma PollIs(info: QueueInfo, s: QState, v: SdmaView, now: real)
    requires s.primed && info.NumDwords() > 0
    requires s.nextId < DWORDS && v.wptr < DWORDS && s.dropped < DWORDS
    ensures var o, from, lost := Poll(info, s, Got(v), now), From(info, s, v), LostDwords(v, From(info, s, v));
            var all := EmplaceAll(s.sdmaInflight, Entries(info, v.host, s.pageHost, s.sdmaSeq, Walk(v, from), now));
            var due := Due(all, v.rptr + 1);
            && o.st.nextId == WalkEnd(v, from) + lost
            && o.st.dropped == s.dropped + (from - s.nextId) + lost
            && o.st.sdmaSeq == Wrap(s.sdmaSeq + |Walk(v, from)|)
            && o.st.primed && o.st.sdmaInflight == all[due..] && o.sunk == Retired(all[..due], now)
  {
    hide EmplaceAll, Due, Entries, Walk, WalkEnd, Retired, DecodeAndRetire, Lost;
    FromIs(info, s, v);
    DecodeAndRetireIs(info, s.(nextId := From(info, s, v), dropped := s.dropped + From(info, s, v) - s.nextId), v, now);
  }

  lemma PollCache(info: QueueInfo, s: QState, v: SdmaView, now: real)
    requires s.primed && info.NumDwords() > 0
    requires s.nextId < DWORDS && v.wptr < DWORDS && s.dropped < DWORDS
    ensures Poll(info, s, Got(v), now).st.pageHost ==
            CacheAfter(info.sdmaVersion, v.host, s.pageHost, Walk(v, From(info, s, v)))
  {
    FromIs(info, s, v);
  }

  // ---- The invariant is kept ----

  lemma NumberedAppend(head: nat, next: nat, ds: seq<Decode>, more: seq<Decode>, from: nat, to: nat)
    requires Numbered(head, next, ds) && Apart(Packets(more), from, to)
    requires head <= next <= from <= to
    requires forall i :: 0 <= i < |more| ==> more[i].rec.seqNo == |ds| + i && !more[i].rec.completed
    ensures Numbered(head, to, ds + more)
  {
    assert Packets(ds + more) == Packets(ds) + Packets(more);
  }

  /** Keys of the in-flight part are increasing. */
  lemma EntriesSorted(head: nat, next: nat, ds: seq<Decode>, m: nat)
    requires Numbered(head, next, ds) && m <= |ds|
    ensures Sorted(AsEntries(ds[m..]))
  {
    assert forall i :: 0 <= i < |ds| ==> Packets(ds)[i] == ds[i].packet;
  }

  lemma FifoStep(st: QState, ds: seq<Decode>, out: seq<SdmaRecord>, more: seq<Decode>, due: nat, now: real, t: QState)
    requires Fifo(st, ds, out)
    requires var all := st.sdmaInflight + AsEntries(more);
             due <= |all| && t.sdmaInflight == all[due..]
    ensures Fifo(t, ds + more, out + Retired((st.sdmaInflight + AsEntries(more))[..due], now))
  {
    var all, m := st.sdmaInflight + AsEntries(more), |out|;
    assert all == AsEntries((ds + more)[m..]);
    assert (ds + more)[m..][due..] == (ds + more)[m + due..];
  }

  lemma EntriesAppend(ds: seq<Decode>, more: seq<Decode>, m: nat)
    requires m <= |ds|
    ensures AsEntries((ds + more)[m..]) == AsEntries(ds[m..]) + AsEntries(more)
  {
  }

  lemma PacketsAppend(ds: seq<Decode>, more: seq<Decode>)
    ensures Packets(ds + more) == Packets(ds) + Packets(more)
  {
  }

  /** Packets decoded further on continue the history, and their entries go behind those in flight. */
  lemma Continue(head: nat, next: nat, ds: seq<Decode>, m: nat, more: seq<Decode>, from: nat, to: nat)
    requires Numbered(head, next, ds) && m <= |ds| && head <= next <= from <= to
    requires Apart(Packets(more), from, to)
    requires forall i :: 0 <= i < |more| ==> more[i].rec.seqNo == |ds| + i && !more[i].rec.completed
    ensures Numbered(head, to, ds + more)
    ensures SumLen(Packets(ds + more)) == SumLen(Packets(ds)) + SumLen(Packets(more))
    ensures EmplaceAll(AsEntries(ds[m..]), AsEntries(more)) == AsEntries(ds[m..]) + AsEntries(more)
  {
    PacketsAppend(ds, more);
    SumLenAppend(Packets(ds), Packets(more));
    NumberedAppend(head, next, ds, more, from, to);
    EntriesSorted(head, to, ds + more, m);
    EntriesAppend(ds, more, m);
    EmplaceAllAppends(AsEntries(ds[m..]), AsEntries(more));
  }

  lemma NumberedWider(head: nat, next: nat, to: nat, ds: seq<Decode>)
    requires Numbered(head, next, ds) && next <= to
    ensures Numbered(head, to, ds)
  {
  }

  /** The newly decoded packets of a poll, placed. */
  lemma DecodesPlaced(info: QueueInfo, head: nat, t: Trace, v: SdmaView, now: real)
    requires Inv(head, t) && v.wptr < DWORDS
    ensures var more, from := NewDecodes(info, t.st, v, now), From(info, t.st, v);
            && t.st.sdmaSeq + |Walk(v, from)| < U64 && |more| == |Walk(v, from)|
            && t.st.nextId <= from <= WalkEnd(v, from) < DWORDS
            && Apart(Packets(more), from, WalkEnd(v, from))
            && SumLen(Packets(more)) == WalkEnd(v, from) - from
            && AsEntries(more) == Entries(info, v.host, t.st.pageHost, t.st.sdmaSeq, Walk(v, from), now)
            && forall i :: 0 <= i < |more| ==>
                 more[i].rec.seqNo == |t.decoded| + i && !more[i].rec.completed && more[i].rec.submitTs == now && more[i].rptr == v.rptr
  {
    CountBelowSum(Packets(t.decoded));
    WalkFits(info, t.st, v);
    NewDecodesAre(info, t.st, v, now);
  }

  /** The effect of one poll on a well-formed trace. */
  lemma PollEffect(info: QueueInfo, head: nat, t: Trace, v: SdmaView, now: real)
    requires Inv(head, t) && v.wptr < DWORDS && info.NumDwords() > 0
    ensures var o, more, from := Poll(info, t.st, Got(v), now), NewDecodes(info, t.st, v, now), From(info, t.st, v);
            var all, lost := EmplaceAll(t.st.sdmaInflight, AsEntries(more)), LostDwords(v, from);
            var due := Due(all, v.rptr + 1);
            && WalkEnd(v, from) + lost < DWORDS
            && o.st.nextId == WalkEnd(v, from) + lost
            && o.st.dropped == t.st.dropped + (from - t.st.nextId) + lost
            && o.st.sdmaSeq == |t.decoded| + |more|
            && o.st.primed && o.st.sdmaInflight == all[due..] && o.sunk == Retired(all[..due], now)
  {
    hide Poll, Walk, WalkEnd, EmplaceAll, Due, Entries, SkipOverrun, Lost, Fifo, Numbered, Chain, Apart;
    DecodesPlaced(info, head, t, v, now);
    PollIs(info, t.st, v, now);
    WalkBounds(v, From(info, t.st, v));
  }

  lemma EntriesBounded(head: nat, next: nat, ds: seq<Decode>, m: nat)
    requires Numbered(head, next, ds) && m <= |ds|
    ensures var es := AsEntries(ds[m..]); forall j :: 0 <= j < |es| ==> head < es[j].key <= next
  {
    assert forall i :: 0 <= i < |ds| ==> Packets(ds)[i] == ds[i].packet;
  }

  /** One poll keeps the books: packets decoded in order with dense numbers, a first-in first-out map, and
      next_id - head = decoded dwords + dropped dwords. */
  lemma PollStep(info: QueueInfo, head: nat, t: Trace, v: SdmaView, now: real)
    requires Inv(head, t) && v.wptr < DWORDS && info.NumDwords() > 0
    ensures var o, more := Poll(info, t.st, Got(v), now), NewDecodes(info, t.st, v, now);
            var all := t.st.sdmaInflight + AsEntries(more);
            && Inv(head, Trace(o.st, t.decoded + more, t.out + o.sunk))
            && o.sunk == Retired(all[..Due(all, v.rptr + 1)], now)
  {
    hide Poll, NewDecodes, Walk, WalkEnd, Lost, EmplaceAll, Due, From, SumLen, Retired, AsEntries, Packets;
    var o, more, from := Poll(info, t.st, Got(v), now), NewDecodes(info, t.st, v, now), From(info, t.st, v);
    DecodesPlaced(info, head, t, v, now);
    PollEffect(info, head, t, v, now);
    Recombine(head, t, more, from, WalkEnd(v, from), LostDwords(v, from), v.rptr + 1, now, o);
  }

  lemma Recombine(head: nat, t: Trace, more: seq<Decode>, from: nat, to: nat, lost: nat, bound: nat, now: real,
      o: Outcome)
    requires Inv(head, t) && t.st.nextId <= from <= to && to + lost < DWORDS
    requires Apart(Packets(more), from, to) && SumLen(Packets(more)) == to - from
    requires forall i :: 0 <= i < |more| ==> more[i].rec.seqNo == |t.decoded| + i && !more[i].rec.completed
    requires o.st.primed && o.st.nextId == to + lost && o.st.dropped == t.st.dropped + (from - t.st.nextId) + lost
    requires o.st.sdmaSeq == |t.decoded| + |more|
    requires var all := EmplaceAll(t.st.sdmaInflight, AsEntries(more));
             o.st.sdmaInflight == all[Due(all, bound)..] && o.sunk == Retired(all[..Due(all, bound)], now)
    ensures Inv(head, Trace(o.st, t.decoded + more, t.out + o.sunk))
    ensures EmplaceAll(t.st.sdmaInflight, AsEntries(more)) == t.st.sdmaInflight + AsEntries(more)
  {
    Continue(head, t.st.nextId, t.decoded, |t.out|, more, from, to);
    var all := t.st.sdmaInflight + AsEntries(more);
    FifoStep(t.st, t.decoded, t.out, more, Due(all, bound), now, o.st);
    NumberedWider(head, to, o.st.nextId, t.decoded + more);
  }

  // ---- Whole runs ----

  /** Dword positions derived from 64-bit byte offsets. */
  predicate DwordPointers(ticks: seq<Tick>) {
    forall i :: 0 <= i < |ticks| && ticks[i].obs.Got? ==> ticks[i].obs.view.wptr < DWORDS
  }

  lemma BytePointersFit(bytes: u64)
    ensures RingBytesToDwords(bytes) < DWORDS
  {
  }

  /** The write pointer of the first successful poll of a non-empty ring. */
  function Head(info: QueueInfo, ticks: seq<Tick>): Option<u64> {
    if ticks == [] || info.NumDwords() == 0 then None
    else
      var h, last := Head(info, ticks[..|ticks| - 1]), ticks[|ticks| - 1].obs;
      if h.None? && last.Got? then Some(last.view.wptr) else h
  }

  predicate Unprimed(t: Trace) {
    && !t.st.primed && t.st.nextId == t.st.dropped == t.st.sdmaSeq == 0 && t.st.sdmaInflight == []
    && t.decoded == [] && t.out == []
  }

  lemma {:induction false} RunInvariant(info: QueueInfo, ticks: seq<Tick>)
    requires DwordPointers(ticks)
    ensures match Head(info, ticks)
            case None => Unprimed(Run(info, ticks))
            case Some(head) => info.NumDwords() > 0 && Inv(head, Run(info, ticks))
  {
    if ticks != [] {
      var init, last := ticks[..|ticks| - 1], ticks[|ticks| - 1];
      RunInvariant(info, init);
      var t := Run(info, init);
      if Active(info, t.st, last.obs) {
        PollStep(info, Head(info, init).value, t, last.obs.view, last.now);
      } else {
        assert t.decoded + [] == t.decoded && t.out + [] == t.out;
        if last.obs.Got? && info.NumDwords() > 0 {
          PrimedInv(last.obs.view.wptr, Run(info, ticks));
        }
      }
    }
  }

  lemma PrimedInv(head: nat, t: Trace)
    requires t.st.primed && t.st.nextId == head < DWORDS && t.st.dropped == t.st.sdmaSeq == 0
    requires t.st.sdmaInflight == [] && t.decoded == [] && t.out == []
    ensures Inv(head, t)
  {
  }

  /** Sequence numbers over a whole run: the sink has seen exactly 0, 1, ..., m-1 in this order, and m, ..., sdma_seq-1
      are in flight. */
  lemma SequenceGapFree(info: QueueInfo, ticks: seq<Tick>)
    requires DwordPointers(ticks)
    ensures var t := Run(info, ticks);
            && (forall i :: 0 <= i < |t.out| ==> t.out[i].seqNo == i && t.out[i].completed)
            && (forall j :: 0 <= j < |t.st.sdmaInflight| ==> t.st.sdmaInflight[j].val.seqNo == |t.out| + j)
            && |t.out| + |t.st.sdmaInflight| == t.st.sdmaSeq
  {
    RunInvariant(info, ticks);
  }

  /** Conservation over a whole run: next_id - head = decoded dwords + dropped dwords; in-flight keys are the ends of
      distinct packets and never exceed next_id. */
  lemma DwordsConserved(info: QueueInfo, ticks: seq<Tick>, head: u64)
    requires DwordPointers(ticks) && Head(info, ticks) == Some(head)
    ensures var t := Run(info, ticks);
            && SumLen(Packets(t.decoded)) + t.st.dropped == t.st.nextId - head
            && Apart(Packets(t.decoded), head, t.st.nextId)
            && Sorted(t.st.sdmaInflight)
            && forall j :: 0 <= j < |t.st.sdmaInflight| ==> head < t.st.sdmaInflight[j].key <= t.st.nextId
  {
    RunInvariant(info, ticks);
    var t := Run(info, ticks);
    EntriesSorted(head, t.st.nextId, t.decoded, |t.out|);
    EntriesBounded(head, t.st.nextId, t.decoded, |t.out|);
  }

  /** Lag: after a successful poll the poller is at most one ring behind the producer, never went back, and stopped
      short of the write pointer only at an unreadable or unpublished packet. */
  lemma PollKeepsUp(info: QueueInfo, head: nat, t: Trace, v: SdmaView, now: real)
    requires Inv(head, t) && v.wptr < DWORDS && info.NumDwords() > 0
    ensures var s, u := t.st, Poll(info, t.st, Got(v), now).st;
            && s.nextId <= u.nextId <= (if s.nextId < v.wptr then v.wptr else s.nextId)
            && v.wptr <= u.nextId + info.NumDwords()
            && (u.nextId < v.wptr ==> Front(v, u.nextId).Wait?)
            && forall j :: 0 <= j < |u.sdmaInflight| ==> v.rptr < u.sdmaInflight[j].key
  {
    var from := From(info, t.st, v);
    FromIs(info, t.st, v);
    WalkBounds(v, from);
    WalkStops(v, from);
    PollEffect(info, head, t, v, now);
    PollStep(info, head, t, v, now);
    var more := NewDecodes(info, t.st, v, now);
    StillPending(head, t, more, v, Poll(info, t.st, Got(v), now));
  }

  lemma StillPending(head: nat, t: Trace, more: seq<Decode>, v: SdmaView, o: Outcome)
    requires var all := EmplaceAll(t.st.sdmaInflight, AsEntries(more));
             o.st.sdmaInflight == all[Due(all, v.rptr + 1)..]
    requires Inv(head, Trace(o.st, t.decoded + more, t.out + o.sunk)) && |t.out| <= |t.decoded|
    ensures forall j :: 0 <= j < |o.st.sdmaInflight| ==> v.rptr < o.st.sdmaInflight[j].key
  {
    var all := EmplaceAll(t.st.sdmaInflight, AsEntries(more));
    var ds := t.decoded + more;
    EntriesSorted(head, o.st.nextId, ds, |t.out + o.sunk|);
    DueIs(all, v.rptr + 1);
    assert o.st.sdmaInflight != [] ==> o.st.sdmaInflight[0] == all[Due(all, v.rptr + 1)];
  }

  lemma {:induction false} WalkStops(v: SdmaView, pos: u64)
    ensures var end := WalkEnd(v, pos); end < v.wptr ==> !Front(v, end).Take?
    decreases if pos < v.wptr then v.wptr - pos else 0
  {
    if pos < v.wptr && Front(v, pos).Take? {
      WalkStops(v, pos + Front(v, pos).len);
    }
  }

  // ---- Timing ----

  predicate Clocked(ticks: seq<Tick>) {
    forall i, j :: 0 <= i < j < |ticks| ==> ticks[i].now < ticks[j].now
  }

  /** Equal stamps exactly when the packet was already consumed in the poll that decoded it. */
  predicate Timed(d: Decode, r: SdmaRecord) {
    && r.completed && r.submitTs == d.rec.submitTs <= r.completeTs
    && (r.submitTs == r.completeTs <==> End(d.packet) <= d.rptr)
  }

  predicate Stamped(ds: seq<Decode>, out: seq<SdmaRecord>, now: real)
    requires |out| <= |ds|
  {
    && (forall i :: 0 <= i < |ds| ==> ds[i].rec.submitTs <= now)
    && (forall i :: 0 <= i < |out| ==> Timed(ds[i], out[i]))
    && (forall i :: |out| <= i < |ds| ==> ds[i].rptr < End(ds[i].packet))
  }

  lemma StampStep(ds: seq<Decode>, out: seq<SdmaRecord>, past: real, more: seq<Decode>, rptr: u64, now: real)
    requires |out| <= |ds| && Stamped(ds, out, past) && past < now
    requires Sorted(AsEntries((ds + more)[|out|..]))
    requires forall i :: 0 <= i < |more| ==> more[i].rec.submitTs == now && more[i].rptr == rptr
    ensures var all := AsEntries((ds + more)[|out|..]);
            Stamped(ds + more, out + Retired(all[..Due(all, rptr + 1)], now), now)
  {
    var all := AsEntries((ds + more)[|out|..]);
    DueSplits(all, rptr + 1);
    var due, dm := Due(all, rptr + 1), ds + more;
    var sunk := Retired(all[..due], now);
    forall i | |out| <= i < |dm|
      ensures if i - |out| < due then Timed(dm[i], sunk[i - |out|]) else dm[i].rptr < End(dm[i].packet)
    {
      assert all[i - |out|] == Entry(End(dm[i].packet), dm[i].rec);
    }
  }

  lemma {:induction false} RunStamped(info: QueueInfo, ticks: seq<Tick>)
    requires DwordPointers(ticks) && Clocked(ticks) && ticks != []
    ensures var t := Run(info, ticks); |t.out| <= |t.decoded| && Stamped(t.decoded, t.out, ticks[|ticks| - 1].now)
  {
    var init, last := ticks[..|ticks| - 1], ticks[|ticks| - 1];
    var t := Run(info, init);
    RunInvariant(info, init);
    RunInvariant(info, ticks);
    if init != [] {
      RunStamped(info, init);
    }
    if Active(info, t.st, last.obs) {
      StepStamped(info, Head(info, init).value, t, last.obs.view, if init == [] then last.now - 1.0 else init[|init| - 1].now, last.now);
    }
  }

  lemma StepStamped(info: QueueInfo, head: nat, t: Trace, v: SdmaView, past: real, now: real)
    requires Inv(head, t) && v.wptr < DWORDS && info.NumDwords() > 0
    requires Stamped(t.decoded, t.out, past) && past < now
    ensures var o, more := Poll(info, t.st, Got(v), now), NewDecodes(info, t.st, v, now);
            |t.out + o.sunk| <= |t.decoded + more| && Stamped(t.decoded + more, t.out + o.sunk, now)
  {
    hide Poll, NewDecodes, Retired, AsEntries, Packets, Apart, Inv, Stamped;
    var from, to := StepFacts(info, head, t, v, now);
    StampContinue(head, t, past, NewDecodes(info, t.st, v, now), from, to, v.rptr, now, Poll(info, t.st, Got(v), now).sunk);
  }

  lemma StepFacts(info: QueueInfo, head: nat, t: Trace, v: SdmaView, now: real) returns (from: nat, to: nat)
    requires Inv(head, t) && v.wptr < DWORDS && info.NumDwords() > 0
    ensures var more := NewDecodes(info, t.st, v, now);
            && t.st.nextId <= from <= to && Apart(Packets(more), from, to)
            && (forall i :: 0 <= i < |more| ==>
                  more[i].rec.seqNo == |t.decoded| + i && !more[i].rec.completed && more[i].rec.submitTs == now && more[i].rptr == v.rptr)
            && var all := t.st.sdmaInflight + AsEntries(more);
               Poll(info, t.st, Got(v), now).sunk == Retired(all[..Due(all, v.rptr + 1)], now)
  {
    hide Poll, NewDecodes, Walk, WalkEnd, Lost, EmplaceAll, Due, From, SumLen, Retired, AsEntries, Packets, Fifo;
    from, to := From(info, t.st, v), WalkEnd(v, From(info, t.st, v));
    DecodesPlaced(info, head, t, v, now);
    PollStep(info, head, t, v, now);
  }

  lemma StampContinue(head: nat, t: Trace, past: real, more: seq<Decode>, from: nat, to: nat, rptr: u64, now: real,
      sunk: seq<SdmaRecord>)
    requires Inv(head, t) && t.st.nextId <= from <= to && Apart(Packets(more), from, to)
    requires Stamped(t.decoded, t.out, past) && past < now
    requires forall i :: 0 <= i < |more| ==>
               more[i].rec.seqNo == |t.decoded| + i && !more[i].rec.completed && more[i].rec.submitTs == now && more[i].rptr == rptr
    requires var all := t.st.sdmaInflight + AsEntries(more); sunk == Retired(all[..Due(all, rptr + 1)], now)
    ensures |t.out + sunk| <= |t.decoded + more| && Stamped(t.decoded + more, t.out + sunk, now)
  {
    NumberedAppend(head, t.st.nextId, t.decoded, more, from, to);
    EntriesSorted(head, to, t.decoded + more, |t.out|);
    EntriesAppend(t.decoded, more, |t.out|);
    StampStep(t.decoded, t.out, past, more, rptr, now);
  }

  /** Timing over a whole run: every sunk record completes no earlier than it was submitted, and in the same instant
      exactly when its last dword had already been consumed in the poll that decoded it. */
  lemma Timing(info: QueueInfo, ticks: seq<Tick>, i: nat)
    requires DwordPointers(ticks) && Clocked(ticks)
    requires i < |Run(info, ticks).out|
    ensures var t := Run(info, ticks); i < |t.decoded| && Timed(t.decoded[i], t.out[i])
  {
    if ticks != [] {
      RunStamped(info, ticks);
    }
  }
}
