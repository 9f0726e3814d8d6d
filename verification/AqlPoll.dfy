/** One poll of an AQL queue (RingParser::PollQueue in src/parser.cpp) as a function of the queue
    state and of what the poll reads, and what it guarantees over every run, whatever the
    pointers and the memory contain. */
module AqlPoll {
  import opened Model
  import opened OrderedMap
  import opened AqlPackets

  // ---- The effect of one poll ----

  function Submitted(info: QueueInfo, id: u64, p: Packet, now: real): PacketRecord {
    PacketRecord(info.uid, id, p.ptype, p.barrier, p.dispatch, p.kernelName, now, 0.0, false)
  }

  function Completed(r: PacketRecord, now: real): PacketRecord {
    r.(completeTs := now, completed := true)
  }

  /** The decodable ids of [lo, hi), seen for the first time after they were consumed. */
  function Fresh(info: QueueInfo, v: AqlView, now: real, lo: nat, hi: u64): seq<PacketRecord> {
    if lo >= hi then []
    else
      Fresh(info, v, now, lo, hi - 1) +
      match v.slot(hi - 1)
      case Some(p) => [Completed(Submitted(info, hi - 1, p, now), now)]
      case None => []
  }

  /** How many ids of [lo, hi) cannot be decoded. */
  function Missed(v: AqlView, lo: nat, hi: u64): nat {
    if lo >= hi then 0
    else Missed(v, lo, hi - 1) + if v.slot(hi - 1).None? then 1 else 0
  }

  /** The decodable ids of [lo, hi) as map entries, seen while still pending. */
  function Pending(info: QueueInfo, v: AqlView, now: real, lo: nat, hi: u64): seq<Entry<PacketRecord>> {
    if lo >= hi then []
    else
      Pending(info, v, now, lo, hi - 1) +
      match v.slot(hi - 1)
      case Some(p) => [Entry(hi - 1, Submitted(info, hi - 1, p, now))]
      case None => []
  }

  /** The first id from `lo` on that is not published yet. */
  function Stop(v: AqlView, lo: u64): (n: u64)
    decreases if lo < v.wptr then v.wptr - lo else 0
  {
    if lo >= v.wptr || v.slot(lo).None? then lo else Stop(v, lo + 1)
  }

  lemma {:induction false} StopIs(v: AqlView, lo: u64)
    ensures var n := Stop(v, lo);
            && lo <= n && (n == lo || n <= v.wptr)
            && (forall id: u64 :: lo <= id < n ==> v.slot(id).Some?)
            && (n < v.wptr ==> v.slot(n).None?)
    decreases if lo < v.wptr then v.wptr - lo else 0
  {
    if lo < v.wptr && v.slot(lo).Some? {
      StopIs(v, lo + 1);
    }
  }

  function Retired(due: seq<Entry<PacketRecord>>, now: real): seq<PacketRecord> {
    seq(|due|, i requires 0 <= i < |due| => Completed(due[i].val, now))
  }

  /** Ids below this one have already been consumed, or lie at the write pointer. */
  function Consumed(n: u64, v: AqlView): u64 {
    Max(n, Min(v.wptr, v.rptr))
  }

  /** State after the decode loop, started in state `s`. */
  function Decoded(info: QueueInfo, s: QState, v: AqlView, now: real): QState {
    var mid := Consumed(s.nextId, v);
    var stop := Stop(v, mid);
    s.(nextId := stop,
       dropped := Wrap(s.dropped + Missed(v, s.nextId, mid)),
       inflight := EmplaceAll(s.inflight, Pending(info, v, now, mid, stop)))
  }

  datatype Outcome = Outcome(st: QState, sunk: seq<PacketRecord>)

  function Poll(info: QueueInfo, s: QState, obs: Obs<AqlView>, now: real): Outcome {
    match obs
    case PtrFail => Outcome(PtrReadFailed(s), [])
    case Got(v) =>
      var ok := s.(fails := 0);
      if !s.primed then Outcome(Prime(ok, v.wptr, v.rptr), [])
      else
        var from := SkipOverrun(ok, v.wptr, info.NumSlots());
        var dec := Decoded(info, from, v, now);
        var due := Due(dec.inflight, v.rptr);
        Outcome(dec.(inflight := dec.inflight[due..], lastRptr := v.rptr),
                Fresh(info, v, now, from.nextId, Consumed(from.nextId, v)) + Retired(dec.inflight[..due], now))
  }

  // ---- What the pieces are ----

  predicate Increasing(rs: seq<PacketRecord>) {
    forall i, j :: 0 <= i < j < |rs| ==> rs[i].dispatchId < rs[j].dispatchId
  }

  predicate Within(rs: seq<PacketRecord>, lo: nat, hi: nat) {
    forall i :: 0 <= i < |rs| ==> lo <= rs[i].dispatchId < hi
  }

  /** Each id of the range is either sunk once, in order, or counted as missed. */
  lemma {:induction false} FreshPartition(info: QueueInfo, v: AqlView, now: real, lo: nat, hi: u64)
    requires lo <= hi
    ensures var f := Fresh(info, v, now, lo, hi);
            && |f| + Missed(v, lo, hi) == hi - lo
            && Increasing(f) && Within(f, lo, hi)
  {
    if lo < hi {
      FreshPartition(info, v, now, lo, hi - 1);
    }
  }

  /** A sunk fresh record is its slot's decoding, submitted and completed now. */
  lemma {:induction false} FreshRecord(info: QueueInfo, v: AqlView, now: real, lo: nat, hi: u64, i: nat)
    requires i < |Fresh(info, v, now, lo, hi)|
    ensures var r := Fresh(info, v, now, lo, hi)[i];
            var p := v.slot(r.dispatchId);
            p.Some? && r == Completed(Submitted(info, r.dispatchId, p.value, now), now)
  {
    if i < |Fresh(info, v, now, lo, hi - 1)| {
      FreshRecord(info, v, now, lo, hi - 1, i);
    }
  }

  predicate HasId(rs: seq<PacketRecord>, id: nat) {
    exists i :: 0 <= i < |rs| && rs[i].dispatchId == id
  }

  lemma HasIdSnoc(rs: seq<PacketRecord>, r: PacketRecord, id: nat)
    ensures HasId(rs + [r], id) <==> HasId(rs, id) || r.dispatchId == id
  {
    var all := rs + [r];
    if HasId(rs, id) {
      var i :| 0 <= i < |rs| && rs[i].dispatchId == id;
      assert all[i].dispatchId == id;
    }
    if r.dispatchId == id {
      assert all[|rs|].dispatchId == id;
    }
  }

  /** The sunk fresh ids are exactly the decodable ids of the range. */
  lemma {:induction false} FreshMember(info: QueueInfo, v: AqlView, now: real, lo: nat, hi: u64, id: u64)
    ensures HasId(Fresh(info, v, now, lo, hi), id) <==> lo <= id < hi && v.slot(id).Some?
  {
    hide HasId;
    if lo < hi {
      var init := Fresh(info, v, now, lo, hi - 1);
      FreshMember(info, v, now, lo, hi - 1, id);
      match v.slot(hi - 1)
      case Some(p) => HasIdSnoc(init, Completed(Submitted(info, hi - 1, p, now), now), id);
      case None => assert init + [] == init;
    } else {
      assert !HasId([], id) by {
        NoIds(id);
      }
    }
  }

  lemma NoIds(id: nat)
    ensures !HasId([], id)
  {
  }

  /** When every id of the range is decodable, the pending entries are exactly that range. */
  lemma {:induction false} PendingRange(info: QueueInfo, v: AqlView, now: real, lo: nat, hi: u64)
    requires lo <= hi
    requires forall id: u64 :: lo <= id < hi ==> v.slot(id).Some?
    ensures var p := Pending(info, v, now, lo, hi);
            && |p| == hi - lo
            && (forall i :: 0 <= i < |p| ==> p[i].key == lo + i == p[i].val.dispatchId)
  {
    if lo < hi {
      PendingRange(info, v, now, lo, hi - 1);
    }
  }

  /** A pending entry holds its slot's decoding, submitted now. */
  lemma {:induction false} PendingEntry(info: QueueInfo, v: AqlView, now: real, lo: nat, hi: u64, i: nat)
    requires i < |Pending(info, v, now, lo, hi)|
    ensures var e := Pending(info, v, now, lo, hi)[i];
            var p := v.slot(e.key);
            p.Some? && e.val == Submitted(info, e.key, p.value, now)
  {
    if i < |Pending(info, v, now, lo, hi - 1)| {
      PendingEntry(info, v, now, lo, hi - 1, i);
    }
  }

  // ---- One poll of a well-formed queue ----

  /** Entries are keyed by their record's id, in order, and lie below the next id to decode. */
  predicate KeyedBelow(m: seq<Entry<PacketRecord>>, next: nat) {
    && Sorted(m)
    && forall i :: 0 <= i < |m| ==> m[i].key < next && m[i].val.dispatchId == m[i].key
  }

  predicate Keyed(s: QState) {
    KeyedBelow(s.inflight, s.nextId)
  }

  /** No 64-bit wrap-around is near: the assumption on the write pointer, and room in the counter. */
  predicate Roomy(info: QueueInfo, s: QState, wptr: u64) {
    && s.nextId + info.NumSlots() < U64
    && wptr + info.NumSlots() < U64
    && s.dropped + Max(s.nextId, wptr) - s.nextId < U64
  }

  /** Where decoding resumes after the overrun guard. */
  function From(info: QueueInfo, s: QState, v: AqlView): u64 {
    SkipOverrun(s, v.wptr, info.NumSlots()).nextId
  }

  /** Where it ends. */
  function To(info: QueueInfo, s: QState, v: AqlView): u64 {
    Stop(v, Consumed(From(info, s, v), v))
  }

  lemma FromTo(info: QueueInfo, s: QState, v: AqlView)
    requires Roomy(info, s, v.wptr)
    ensures From(info, s, v) == Max(s.nextId, Max(v.wptr, info.NumSlots()) - info.NumSlots())
    ensures SkipOverrun(s, v.wptr, info.NumSlots()).dropped == s.dropped + From(info, s, v) - s.nextId
    ensures s.nextId <= From(info, s, v) <= Consumed(From(info, s, v), v) <= To(info, s, v) <= Max(s.nextId, v.wptr)
    ensures Consumed(From(info, s, v), v) < To(info, s, v) ==> v.rptr <= Consumed(From(info, s, v), v)
  {
    SkipOverrunExact(s, v.wptr, info.NumSlots());
    StopIs(v, Consumed(From(info, s, v), v));
  }

  /** The new entries of a poll: every id from the first unconsumed one up to where decoding stopped. */
  function Added(info: QueueInfo, s: QState, v: AqlView, now: real): seq<Entry<PacketRecord>> {
    Pending(info, v, now, Consumed(From(info, s, v), v), To(info, s, v))
  }

  lemma AddedRange(info: QueueInfo, s: QState, v: AqlView, now: real)
    requires Roomy(info, s, v.wptr)
    ensures var a, mid := Added(info, s, v, now), Consumed(From(info, s, v), v);
            && |a| == To(info, s, v) - mid
            && (forall i :: 0 <= i < |a| ==> v.rptr <= a[i].key == mid + i == a[i].val.dispatchId < To(info, s, v))
  {
    FromTo(info, s, v);
    StopIs(v, Consumed(From(info, s, v), v));
    PendingRange(info, v, now, Consumed(From(info, s, v), v), To(info, s, v));
  }

  /** The decode loop only appends to the map. */
  lemma DecodedShape(info: QueueInfo, s: QState, v: AqlView, now: real)
    requires Keyed(s) && Roomy(info, s, v.wptr)
    ensures var d := Decoded(info, SkipOverrun(s, v.wptr, info.NumSlots()), v, now);
            var from := From(info, s, v);
            && d.nextId == To(info, s, v)
            && Sorted(s.inflight + Added(info, s, v, now))
            && d.inflight == s.inflight + Added(info, s, v, now)
            && d.dropped == s.dropped + (from - s.nextId) + Missed(v, from, Consumed(from, v))
  {
    var from, a := From(info, s, v), Added(info, s, v, now);
    FromTo(info, s, v);
    FreshPartition(info, v, now, from, Consumed(from, v));
    AddedRange(info, s, v, now);
    EmplaceAllAppends(s.inflight, a);
  }

  lemma SplitDue(m: seq<Entry<PacketRecord>>, a: seq<Entry<PacketRecord>>, bound: nat)
    requires Sorted(m + a)
    requires forall i :: 0 <= i < |a| ==> a[i].key >= bound
    ensures var due := Due(m, bound);
            && Due(m + a, bound) == due
            && (m + a)[due..] == m[due..] + a
            && (m + a)[..due] == m[..due]
  {
    DueOfAppend(m, a, bound);
  }

  /** A poll of a well-formed queue: the new entries go behind the old ones, and only old entries
      retire, after the freshly sunk records. */
  lemma PollShape(info: QueueInfo, s: QState, v: AqlView, now: real)
    requires s.primed && Keyed(s) && Roomy(info, s, v.wptr)
    ensures var o, due := Poll(info, s, Got(v), now), Due(s.inflight, v.rptr);
            var from := From(info, s, v);
            && o.st.nextId == To(info, s, v)
            && o.st.inflight == s.inflight[due..] + Added(info, s, v, now)
            && o.sunk == Fresh(info, v, now, from, Consumed(from, v)) + Retired(s.inflight[..due], now)
            && o.st.dropped == s.dropped + (from - s.nextId) + Missed(v, from, Consumed(from, v))
            && o.st.primed && o.st.lastRptr == v.rptr && o.st.fails == 0
  {
    var ok, a := s.(fails := 0), Added(info, s, v, now);
    assert From(info, ok, v) == From(info, s, v);
    DecodedShape(info, ok, v, now);
    AddedRange(info, s, v, now);
    SplitDue(s.inflight, a, v.rptr);
  }
}
