/** What the AQL poller guarantees over whole runs: any number of polls, each seeing arbitrary
    pointers and arbitrary memory. The one assumption is that no write pointer comes within a ring
    of 2^64. */
module AqlRuns {
  import opened Model
  import opened OrderedMap
  import opened Sequences
  import opened AqlPackets
  import opened AqlPoll

  datatype Tick = Tick(now: real, obs: Obs<AqlView>)

  datatype Trace = Trace(st: QState, log: seq<seq<PacketRecord>>)

  /** The state after a run of polls, and what each of them handed to the sink. */
  function Run(info: QueueInfo, ticks: seq<Tick>): (t: Trace)
    ensures |t.log| == |ticks|
  {
    if ticks == [] then Trace(INIT, [])
    else
      var before, last := Run(info, ticks[..|ticks| - 1]), ticks[|ticks| - 1];
      var o := Poll(info, before.st, last.obs, last.now);
      Trace(o.st, before.log + [o.sunk])
  }

  predicate InRange(info: QueueInfo, ticks: seq<Tick>) {
    forall i :: 0 <= i < |ticks| && ticks[i].obs.Got? ==> ticks[i].obs.view.wptr + info.NumSlots() < U64
  }

  /** The write pointer of the first successful poll. */
  function Head(ticks: seq<Tick>): Option<u64> {
    if ticks == [] then None
    else
      var h, last := Head(ticks[..|ticks| - 1]), ticks[|ticks| - 1].obs;
      if h.None? && last.Got? then Some(last.view.wptr) else h
  }

  // ---- One step ----

  predicate AllBelow(rs: seq<PacketRecord>, bound: nat) {
    forall i :: 0 <= i < |rs| ==> rs[i].dispatchId < bound
  }

  predicate Separated(rs: seq<PacketRecord>, qs: seq<PacketRecord>) {
    forall i, j :: 0 <= i < |rs| && 0 <= j < |qs| ==> rs[i].dispatchId < qs[j].dispatchId
  }

  /** The two batches of a poll: fresh records first, then the retired old ones. */
  function FreshBatch(info: QueueInfo, s: QState, v: AqlView, now: real): seq<PacketRecord> {
    Fresh(info, v, now, From(info, s, v), Consumed(From(info, s, v), v))
  }

  function RetiredBatch(s: QState, v: AqlView, now: real): seq<PacketRecord> {
    Retired(s.inflight[..Due(s.inflight, v.rptr)], now)
  }

  lemma FreshIds(info: QueueInfo, s: QState, v: AqlView, now: real)
    requires Roomy(info, s, v.wptr)
    ensures var f := FreshBatch(info, s, v, now);
            Increasing(f) && AllBelow(f, v.rptr) && Within(f, s.nextId, To(info, s, v))
  {
    FromTo(info, s, v);
    FreshPartition(info, v, now, From(info, s, v), Consumed(From(info, s, v), v));
  }

  lemma RetiredIds(s: QState, v: AqlView, now: real)
    requires Keyed(s)
    ensures var r := RetiredBatch(s, v, now);
            Increasing(r) && AllBelow(r, v.rptr) && AllBelow(r, s.nextId)
  {
    DueIs(s.inflight, v.rptr);
  }

  lemma KeptEntries(m: seq<Entry<PacketRecord>>, next: nat, a: seq<Entry<PacketRecord>>, to: nat, rptr: nat)
    requires KeyedBelow(m, next) && next <= to
    requires KeyedBelow(a, to)
    requires forall i :: 0 <= i < |a| ==> next <= a[i].key && rptr <= a[i].key
    ensures var kept := m[Due(m, rptr)..] + a;
            && KeyedBelow(kept, to)
            && forall i :: 0 <= i < |kept| ==> rptr <= kept[i].key
  {
    DueSplits(m, rptr);
  }

  lemma KeptIds(info: QueueInfo, s: QState, v: AqlView, now: real)
    requires s.primed && Keyed(s) && Roomy(info, s, v.wptr)
    ensures var t := Poll(info, s, Got(v), now).st;
            && Keyed(t)
            && (forall i :: 0 <= i < |t.inflight| ==> v.rptr <= t.inflight[i].key)
  {
    PollShape(info, s, v, now);
    FromTo(info, s, v);
    AddedRange(info, s, v, now);
    KeptEntries(s.inflight, s.nextId, Added(info, s, v, now), To(info, s, v), v.rptr);
  }

  /** Each poll sinks two increasing batches, the second entirely below the first; everything sunk is
      below the read pointer and everything kept is not. */
  lemma PollBatches(info: QueueInfo, s: QState, v: AqlView, now: real)
    requires s.primed && Keyed(s) && Roomy(info, s, v.wptr)
    ensures var o, f, r := Poll(info, s, Got(v), now), FreshBatch(info, s, v, now), RetiredBatch(s, v, now);
            && o.sunk == f + r
            && Increasing(f) && Increasing(r) && Separated(r, f)
            && AllBelow(f, v.rptr) && AllBelow(r, v.rptr)
            && Within(f, s.nextId, o.st.nextId) && AllBelow(r, s.nextId)
            && Keyed(o.st)
            && (forall i :: 0 <= i < |o.st.inflight| ==> v.rptr <= o.st.inflight[i].key)
  {
    PollShape(info, s, v, now);
    FreshIds(info, s, v, now);
    RetiredIds(s, v, now);
    KeptIds(info, s, v, now);
  }

  /** Conservation in one poll: what is sunk, kept or dropped is what was there plus what was passed. */
  lemma PollConserves(info: QueueInfo, s: QState, v: AqlView, now: real)
    requires s.primed && Keyed(s) && Roomy(info, s, v.wptr)
    ensures var o := Poll(info, s, Got(v), now);
            && s.nextId <= o.st.nextId <= Max(s.nextId, v.wptr)
            && |o.sunk| + |o.st.inflight| + o.st.dropped - s.dropped == |s.inflight| + o.st.nextId - s.nextId
  {
    PollShape(info, s, v, now);
    FromTo(info, s, v);
    FreshPartition(info, v, now, From(info, s, v), Consumed(From(info, s, v), v));
    AddedRange(info, s, v, now);
  }

  /** Lag and progress: after a successful poll the poller is at most one ring behind the producer, has
      passed everything already consumed, and keeps exactly ids between the pointers it saw. */
  lemma PollKeepsUp(info: QueueInfo, s: QState, v: AqlView, now: real)
    requires s.primed && Keyed(s) && Roomy(info, s, v.wptr)
    ensures var t := Poll(info, s, Got(v), now).st;
            && v.wptr <= t.nextId + info.NumSlots()
            && Min(v.wptr, v.rptr) <= t.nextId
            && (t.nextId < v.wptr ==> v.rptr <= t.nextId && v.slot(t.nextId).None?)
            && (forall i :: 0 <= i < |t.inflight| ==> v.rptr <= t.inflight[i].key < t.nextId)
            && |t.inflight| <= Max(t.nextId, v.rptr) - v.rptr
  {
    PollShape(info, s, v, now);
    FromTo(info, s, v);
    KeptIds(info, s, v, now);
    StopIs(v, Consumed(From(info, s, v), v));
    var t := Poll(info, s, Got(v), now).st;
    SortedRange(t.inflight, v.rptr, t.nextId);
  }

  /** A sorted map over a range of keys has no more entries than the range. */
  lemma {:induction false} SortedRange<V>(m: seq<Entry<V>>, lo: nat, hi: nat)
    requires Sorted(m)
    requires forall i :: 0 <= i < |m| ==> lo <= m[i].key < hi
    ensures |m| <= Max(lo, hi) - lo
  {
    if m != [] {
      SortedRange(m[1..], m[0].key + 1, hi);
    }
  }

  /** Known before the poll: nothing in flight is consumed yet. */
  predicate NothingDue(s: QState, v: AqlView) {
    s.inflight == [] || v.rptr <= s.inflight[0].key
  }

  /** Known before the poll: no id that is consumed but not decoded yet can be decoded. */
  predicate NothingFresh(info: QueueInfo, s: QState, v: AqlView) {
    forall id: u64 :: From(info, s, v) <= id < Min(v.wptr, v.rptr) ==> v.slot(id).None?
  }

  lemma BatchesEmptyWhen(info: QueueInfo, s: QState, v: AqlView, now: real)
    ensures RetiredBatch(s, v, now) == [] <==> NothingDue(s, v)
    ensures FreshBatch(info, s, v, now) == [] <==> NothingFresh(info, s, v)
  {
    hide Fresh, From;
    var from, f := From(info, s, v), FreshBatch(info, s, v, now);
    if f != [] {
      assert HasId(f, f[0].dispatchId);
      FreshMember(info, v, now, from, Consumed(from, v), f[0].dispatchId);
    } else {
      forall id: u64 | from <= id < Min(v.wptr, v.rptr)
        ensures v.slot(id).None?
      {
        FreshMember(info, v, now, from, Consumed(from, v), id);
      }
    }
  }

  /** Within one poll the sink sees sorted ids exactly when nothing in flight is consumed yet or no consumed id that is
      still to be decoded can be decoded. */
  lemma SinkSortedWhen(info: QueueInfo, s: QState, v: AqlView, now: real)
    requires s.primed && Keyed(s) && Roomy(info, s, v.wptr)
    ensures Increasing(Poll(info, s, Got(v), now).sunk) <==> NothingDue(s, v) || NothingFresh(info, s, v)
  {
    hide NothingDue, NothingFresh;
    PollBatches(info, s, v, now);
    BatchesEmptyWhen(info, s, v, now);
    var f, r := FreshBatch(info, s, v, now), RetiredBatch(s, v, now);
    if f != [] && r != [] {
      assert (f + r)[0] == f[0] && (f + r)[|f|] == r[0];
    } else {
      assert f + r == if f == [] then r else f;
    }
  }

  // ---- Whole runs ----

  predicate Distinct(rs: seq<PacketRecord>) {
    forall i, j :: 0 <= i < j < |rs| ==> rs[i].dispatchId != rs[j].dispatchId
  }

  /** Sunk records lie in [head, next_id), are distinct, and lie below everything in flight. */
  predicate Placed(head: nat, st: QState, out: seq<PacketRecord>) {
    && Keyed(st)
    && (forall j :: 0 <= j < |st.inflight| ==> head <= st.inflight[j].key)
    && Within(out, head, st.nextId)
    && (forall i, j :: 0 <= i < |out| && 0 <= j < |st.inflight| ==> out[i].dispatchId < st.inflight[j].key)
    && Distinct(out)
  }

  predicate Conserved(head: nat, st: QState, out: seq<PacketRecord>) {
    head <= st.nextId && |out| + |st.inflight| + st.dropped == st.nextId - head
  }

  predicate Primed(info: QueueInfo, head: nat, t: Trace) {
    && t.st.primed
    && t.st.nextId + info.NumSlots() < U64
    && Placed(head, t.st, Flat(t.log))
    && Conserved(head, t.st, Flat(t.log))
  }

  predicate Unprimed(t: Trace) {
    !t.st.primed && t.st.nextId == t.st.dropped == 0 && t.st.inflight == [] && Flat(t.log) == []
  }

  /** The records of one poll come above everything sunk before and below everything still in flight. */
  lemma PollPlaces(info: QueueInfo, head: nat, s: QState, out: seq<PacketRecord>, v: AqlView, now: real)
    requires s.primed && Roomy(info, s, v.wptr) && Placed(head, s, out) && head <= s.nextId
    ensures var o := Poll(info, s, Got(v), now);
            && Separated(out, o.sunk) && Within(o.sunk, head, o.st.nextId) && Distinct(o.sunk)
            && AllBelow(o.sunk, v.rptr)
  {
    PollBatches(info, s, v, now);
    PollConserves(info, s, v, now);
    RetiredFrom(s, v, now);
    var f, r := FreshBatch(info, s, v, now), RetiredBatch(s, v, now);
    assert Separated(out, r) && Within(r, head, s.nextId);
    BatchesApart(head, s.nextId, out, f, r);
  }

  lemma BatchesApart(head: nat, n: nat, out: seq<PacketRecord>, f: seq<PacketRecord>, r: seq<PacketRecord>)
    requires Increasing(f) && Increasing(r) && Separated(r, f)
    requires Separated(out, r) && AllBelow(out, n) && forall i :: 0 <= i < |f| ==> n <= f[i].dispatchId
    ensures Separated(out, f + r) && Distinct(f + r)
  {
  }

  lemma RetiredFrom(s: QState, v: AqlView, now: real)
    ensures var r := RetiredBatch(s, v, now);
            && |r| <= |s.inflight|
            && forall i :: 0 <= i < |r| ==> r[i] == Completed(s.inflight[i].val, now)
  {
  }

  /** What a poll leaves in flight: an old entry, or one it decoded itself. */
  lemma KeptOrAdded(info: QueueInfo, s: QState, v: AqlView, now: real, j: nat)
    requires s.primed && Keyed(s) && Roomy(info, s, v.wptr)
    requires j < |Poll(info, s, Got(v), now).st.inflight|
    ensures var t, kept := Poll(info, s, Got(v), now).st, |s.inflight| - Due(s.inflight, v.rptr);
            if j < kept then t.inflight[j] == s.inflight[Due(s.inflight, v.rptr) + j]
            else j - kept < |Added(info, s, v, now)| && t.inflight[j] == Added(info, s, v, now)[j - kept]
  {
    hide Poll, Added, Due, Keyed, Roomy, To, From;
    PollShape(info, s, v, now);
  }

  /** An entry it decoded itself is pending at this moment, at or above the read pointer. */
  lemma KeptEntry(info: QueueInfo, s: QState, v: AqlView, now: real, j: nat)
    requires s.primed && Keyed(s) && Roomy(info, s, v.wptr)
    requires j < |Poll(info, s, Got(v), now).st.inflight|
    ensures var t, due := Poll(info, s, Got(v), now).st, Due(s.inflight, v.rptr);
            if j < |s.inflight| - due then t.inflight[j] == s.inflight[due + j]
            else
              var e := t.inflight[j];
              && s.nextId <= e.key < t.nextId && v.rptr <= e.key
              && v.slot(e.key).Some?
              && e.val == Submitted(info, e.key, v.slot(e.key).value, now)
  {
    hide Poll, Added, Due, To, Pending;
    KeptOrAdded(info, s, v, now, j);
    PollShape(info, s, v, now);
    var kept := |s.inflight| - Due(s.inflight, v.rptr);
    if j >= kept {
      AddedEntry(info, s, v, now, j - kept);
    }
  }

  lemma AddedEntry(info: QueueInfo, s: QState, v: AqlView, now: real, i: nat)
    requires Roomy(info, s, v.wptr) && i < |Added(info, s, v, now)|
    ensures var e := Added(info, s, v, now)[i];
            && s.nextId <= e.key < To(info, s, v) && v.rptr <= e.key
            && v.slot(e.key).Some?
            && e.val == Submitted(info, e.key, v.slot(e.key).value, now)
  {
    FromTo(info, s, v);
    AddedRange(info, s, v, now);
    PendingEntry(info, v, now, Consumed(From(info, s, v), v), To(info, s, v), i);
  }

  /** What a poll sinks: a record it decoded itself below the read pointer, or an old entry. */
  lemma SunkRecord(info: QueueInfo, s: QState, v: AqlView, now: real, i: nat)
    requires s.primed && Keyed(s) && Roomy(info, s, v.wptr)
    requires i < |Poll(info, s, Got(v), now).sunk|
    ensures var r, f := Poll(info, s, Got(v), now).sunk[i], |FreshBatch(info, s, v, now)|;
            && r.dispatchId < v.rptr
            && if i < f
               then
                 && s.nextId <= r.dispatchId
                 && v.slot(r.dispatchId).Some?
                 && r == Completed(Submitted(info, r.dispatchId, v.slot(r.dispatchId).value, now), now)
               else i - f < |s.inflight| && r == Completed(s.inflight[i - f].val, now)
  {
    PollBatches(info, s, v, now);
    if i < |FreshBatch(info, s, v, now)| {
      FreshRecord(info, v, now, From(info, s, v), Consumed(From(info, s, v), v), i);
    } else {
      RetiredFrom(s, v, now);
    }
  }

  lemma KeptPlaced(info: QueueInfo, head: nat, s: QState, out: seq<PacketRecord>, v: AqlView, now: real)
    requires s.primed && Roomy(info, s, v.wptr) && Placed(head, s, out) && head <= s.nextId
    ensures var t := Poll(info, s, Got(v), now).st;
            && (forall j :: 0 <= j < |t.inflight| ==> head <= t.inflight[j].key)
            && (forall i, j :: 0 <= i < |out| && 0 <= j < |t.inflight| ==> out[i].dispatchId < t.inflight[j].key)
  {
    var t := Poll(info, s, Got(v), now).st;
    forall j | 0 <= j < |t.inflight|
      ensures head <= t.inflight[j].key
      ensures forall i :: 0 <= i < |out| ==> out[i].dispatchId < t.inflight[j].key
    {
      KeptEntry(info, s, v, now, j);
    }
  }

  lemma AppendPlaced(head: nat, st: QState, out: seq<PacketRecord>, more: seq<PacketRecord>, bound: nat)
    requires Keyed(st) && Distinct(out) && Distinct(more) && Separated(out, more)
    requires Within(out, head, st.nextId) && Within(more, head, st.nextId)
    requires forall j :: 0 <= j < |st.inflight| ==> head <= st.inflight[j].key && bound <= st.inflight[j].key
    requires forall i, j :: 0 <= i < |out| && 0 <= j < |st.inflight| ==> out[i].dispatchId < st.inflight[j].key
    requires AllBelow(more, bound)
    ensures Placed(head, st, out + more)
  {
  }

  lemma PollStep(info: QueueInfo, head: nat, t: Trace, v: AqlView, now: real)
    requires Primed(info, head, t) && v.wptr + info.NumSlots() < U64
    ensures Roomy(info, t.st, v.wptr)
    ensures var o := Poll(info, t.st, Got(v), now);
            Primed(info, head, Trace(o.st, t.log + [o.sunk])) && Separated(Flat(t.log), o.sunk)
  {
    var o := Poll(info, t.st, Got(v), now);
    StepPlaced(info, head, t.st, Flat(t.log), v, now);
    PollConserves(info, t.st, v, now);
    assert o.st.primed;
    FlatSnoc(t.log, o.sunk);
  }

  lemma StepPlaced(info: QueueInfo, head: nat, s: QState, out: seq<PacketRecord>, v: AqlView, now: real)
    requires s.primed && Roomy(info, s, v.wptr) && Placed(head, s, out) && head <= s.nextId
    ensures var o := Poll(info, s, Got(v), now);
            Placed(head, o.st, out + o.sunk) && Separated(out, o.sunk)
  {
    var o := Poll(info, s, Got(v), now);
    PollPlaces(info, head, s, out, v, now);
    KeptPlaced(info, head, s, out, v, now);
    KeptIds(info, s, v, now);
    PollConserves(info, s, v, now);
    AppendPlaced(head, o.st, out, o.sunk, v.rptr);
  }

  lemma FlatSnoc<T>(log: seq<seq<T>>, last: seq<T>)
    ensures Flat(log + [last]) == Flat(log) + last
  {
    assert (log + [last])[..|log|] == log;
  }

  /** Exactly-once, as an invariant of every run: before the first successful read nothing happened;
      after it every id of [head, next_id) is accounted for, sunk records are distinct, and
      next_id - head = sunk + in flight + dropped. */
  lemma {:induction false} RunInvariant(info: QueueInfo, ticks: seq<Tick>)
    requires InRange(info, ticks)
    ensures match Head(ticks)
            case None => Unprimed(Run(info, ticks))
            case Some(head) => Primed(info, head, Run(info, ticks))
  {
    if ticks != [] {
      var init, last := ticks[..|ticks| - 1], ticks[|ticks| - 1];
      RunInvariant(info, init);
      var before := Run(info, init);
      var o := Poll(info, before.st, last.obs, last.now);
      FlatSnoc(before.log, o.sunk);
      if last.obs.Got? && Head(init).Some? {
        PollStep(info, Head(init).value, before, last.obs.view, last.now);
      } else {
        assert o.sunk == [];
        assert Flat(before.log) + o.sunk == Flat(before.log);
      }
    }
  }

  /** A run's history is the run of its prefix. */
  lemma {:induction false} RunPrefix(info: QueueInfo, ticks: seq<Tick>, k: nat)
    requires k <= |ticks|
    ensures Run(info, ticks[..k]).log == Run(info, ticks).log[..k]
  {
    if k == |ticks| {
      assert ticks[..k] == ticks;
    } else {
      var init := ticks[..|ticks| - 1];
      RunPrefix(info, init, k);
      assert init[..k] == ticks[..k];
    }
  }

  lemma RunAt(info: QueueInfo, ticks: seq<Tick>, k: nat)
    requires k < |ticks|
    ensures var upto := ticks[..k + 1];
            && upto[..|upto| - 1] == ticks[..k] && upto[|upto| - 1] == ticks[k]
            && Run(info, ticks).log[k] == Run(info, upto).log[k]
  {
    RunPrefix(info, ticks, k + 1);
  }

  lemma RunKeyed(info: QueueInfo, ticks: seq<Tick>)
    requires InRange(info, ticks)
    ensures var s := Run(info, ticks).st; Keyed(s) && (!s.primed ==> s.inflight == [])
  {
    RunInvariant(info, ticks);
  }

  lemma RunRoomy(info: QueueInfo, ticks: seq<Tick>, wptr: u64)
    requires InRange(info, ticks) && wptr + info.NumSlots() < U64
    ensures var s := Run(info, ticks).st; s.primed ==> Keyed(s) && Roomy(info, s, wptr)
  {
    RunInvariant(info, ticks);
  }

  lemma {:induction false} InFlat<T>(log: seq<seq<T>>, a: nat, i: nat) returns (p: nat)
    requires a < |log| && i < |log[a]|
    ensures p < |Flat(log)| && Flat(log)[p] == log[a][i]
  {
    var init := log[..|log| - 1];
    if a == |log| - 1 {
      p := |Flat(init)| + i;
    } else {
      p := InFlat(init, a, i);
    }
  }

  // ---- Exactly once ----

  function Ids(rs: seq<PacketRecord>): set<nat> {
    set i | 0 <= i < |rs| :: rs[i].dispatchId
  }

  function Keys<V>(m: seq<Entry<V>>): set<nat> {
    set i | 0 <= i < |m| :: m[i].key
  }

  /** The ids of [lo, hi). */
  function Range(lo: nat, hi: nat): (r: set<nat>)
    requires lo <= hi
    ensures forall x :: x in r <==> lo <= x < hi
    ensures |r| == hi - lo
  {
    if lo == hi then {} else Range(lo, hi - 1) + {hi - 1}
  }

  lemma {:induction false} IdsCount(rs: seq<PacketRecord>)
    requires Distinct(rs)
    ensures |Ids(rs)| == |rs|
  {
    if rs != [] {
      var init, last := rs[..|rs| - 1], rs[|rs| - 1].dispatchId;
      IdsCount(init);
      assert Ids(rs) == Ids(init) + {last};
      assert last !in Ids(init);
    }
  }

  lemma {:induction false} KeysCount<V>(m: seq<Entry<V>>)
    requires Sorted(m)
    ensures |Keys(m)| == |m|
  {
    if m != [] {
      var init, last := m[..|m| - 1], m[|m| - 1].key;
      KeysCount(init);
      assert Keys(m) == Keys(init) + {last};
      assert last !in Keys(init);
    }
  }

  lemma PartitionCount(all: set<nat>, a: set<nat>, b: set<nat>)
    requires a !! b && a <= all && b <= all
    ensures |all - a - b| == |all| - |a| - |b|
  {
    assert (all - a - b) + (a + b) == all;
    assert (all - a - b) !! (a + b);
  }

  /** The exactly-once partition: sunk ids and in-flight ids are disjoint parts of [head, next_id), no id
      is sunk twice, and the drop counter is exactly the number of ids that are neither. */
  lemma ExactlyOnce(info: QueueInfo, ticks: seq<Tick>, head: u64)
    requires InRange(info, ticks) && Head(ticks) == Some(head)
    ensures head <= Run(info, ticks).st.nextId
    ensures var t := Run(info, ticks);
            var sunk, kept, all := Ids(Flat(t.log)), Keys(t.st.inflight), Range(head, t.st.nextId);
            && sunk !! kept && sunk <= all && kept <= all
            && |sunk| == |Flat(t.log)| && |kept| == |t.st.inflight|
            && |all - sunk - kept| == t.st.dropped
  {
    RunInvariant(info, ticks);
    var t := Run(info, ticks);
    var out := Flat(t.log);
    IdsCount(out);
    KeysCount(t.st.inflight);
    PartitionCount(Range(head, t.st.nextId), Ids(out), Keys(t.st.inflight));
  }

  // ---- Order ----

  /** Every id sunk by an earlier poll is below every id sunk by a later one. */
  lemma SinkOrder(info: QueueInfo, ticks: seq<Tick>, a: nat, b: nat)
    requires InRange(info, ticks) && a < b < |ticks|
    ensures Separated(Run(info, ticks).log[a], Run(info, ticks).log[b])
  {
    var before, tick := Run(info, ticks[..b]), ticks[b];
    RunPrefix(info, ticks, b);
    RunAt(info, ticks, b);
    RunInvariant(info, ticks[..b]);
    if tick.obs.Got? && before.st.primed {
      PollStep(info, Head(ticks[..b]).value, before, tick.obs.view, tick.now);
    }
    SeparatedPart(before.log, a, Run(info, ticks).log[b]);
  }

  lemma SeparatedPart(log: seq<seq<PacketRecord>>, a: nat, more: seq<PacketRecord>)
    requires a < |log| && Separated(Flat(log), more)
    ensures Separated(log[a], more)
  {
    forall i | 0 <= i < |log[a]|
      ensures forall j :: 0 <= j < |more| ==> log[a][i].dispatchId < more[j].dispatchId
    {
      var p := InFlat(log, a, i);
    }
  }

  // ---- Timing ----

  predicate Clocked(ticks: seq<Tick>) {
    forall i, j :: 0 <= i < j < |ticks| ==> ticks[i].now < ticks[j].now
  }

  /** The poll that moved next_id past `id`. */
  function DecodedAt(info: QueueInfo, ticks: seq<Tick>, id: nat): (d: nat)
    requires ticks != []
    ensures d < |ticks|
  {
    var init := ticks[..|ticks| - 1];
    if init != [] && id < Run(info, init).st.nextId then DecodedAt(info, init, id) else |ticks| - 1
  }

  lemma {:induction false} DecodedAtCrosses(info: QueueInfo, ticks: seq<Tick>, id: nat)
    requires ticks != [] && id < Run(info, ticks).st.nextId
    ensures var d := DecodedAt(info, ticks, id);
            Run(info, ticks[..d]).st.nextId <= id < Run(info, ticks[..d + 1]).st.nextId
  {
    hide Poll;
    var init := ticks[..|ticks| - 1];
    if init != [] && id < Run(info, init).st.nextId {
      DecodedAtCrosses(info, init, id);
      var d := DecodedAt(info, init, id);
      assert init[..d] == ticks[..d] && init[..d + 1] == ticks[..d + 1];
    } else {
      assert ticks[..|ticks|] == ticks;
    }
  }

  /** Stamped by the poll that decoded it, at a moment it was not consumed yet. */
  predicate StampedPending(info: QueueInfo, ticks: seq<Tick>, e: Entry<PacketRecord>)
    requires ticks != []
  {
    var tick := ticks[DecodedAt(info, ticks, e.key)];
    e.val.submitTs == tick.now && tick.obs.Got? && tick.obs.view.rptr <= e.key
  }

  /** An entry of an earlier poll keeps its stamp; an entry of the last poll gets one. */
  lemma StampKept(info: QueueInfo, ticks: seq<Tick>, e: Entry<PacketRecord>)
    requires |ticks| > 1 && e.key < Run(info, ticks[..|ticks| - 1]).st.nextId
    requires StampedPending(info, ticks[..|ticks| - 1], e)
    ensures StampedPending(info, ticks, e)
  {
  }

  lemma StampNew(info: QueueInfo, ticks: seq<Tick>, e: Entry<PacketRecord>)
    requires ticks != [] && Run(info, ticks[..|ticks| - 1]).st.nextId <= e.key
    requires var last := ticks[|ticks| - 1];
             e.val.submitTs == last.now && last.obs.Got? && last.obs.view.rptr <= e.key
    ensures StampedPending(info, ticks, e)
  {
  }

  /** Where an in-flight entry comes from: the run before the last poll, or the last poll itself. */
  lemma EntryOrigin(info: QueueInfo, ticks: seq<Tick>, j: nat) returns (from: nat)
    requires InRange(info, ticks) && ticks != [] && j < |Run(info, ticks).st.inflight|
    ensures var s, e, last := Run(info, ticks[..|ticks| - 1]).st, Run(info, ticks).st.inflight[j], ticks[|ticks| - 1];
            if from < |s.inflight| then e == s.inflight[from] && e.key < s.nextId
            else s.nextId <= e.key && e.val.submitTs == last.now && last.obs.Got? && last.obs.view.rptr <= e.key
  {
    hide Decoded, Fresh, Retired, SkipOverrun, Due;
    var init, last := ticks[..|ticks| - 1], ticks[|ticks| - 1];
    var s := Run(info, init).st;
    RunKeyed(info, init);
    from := j;
    if last.obs.Got? && s.primed {
      RunRoomy(info, init, last.obs.view.wptr);
      KeptEntry(info, s, last.obs.view, last.now, j);
      from := Due(s.inflight, last.obs.view.rptr) + j;
    }
  }

  lemma {:induction false} InflightStamped(info: QueueInfo, ticks: seq<Tick>, j: nat)
    requires InRange(info, ticks) && j < |Run(info, ticks).st.inflight|
    ensures ticks != [] && StampedPending(info, ticks, Run(info, ticks).st.inflight[j])
  {
    var init := ticks[..|ticks| - 1];
    var from := EntryOrigin(info, ticks, j);
    if from < |Run(info, init).st.inflight| {
      InflightStamped(info, init, from);
      StampKept(info, ticks, Run(info, ticks).st.inflight[j]);
    } else {
      StampNew(info, ticks, Run(info, ticks).st.inflight[j]);
    }
  }

  /** Where a sunk record comes from: an entry in flight before the last poll, or the last poll itself. */
  lemma RecordOrigin(info: QueueInfo, ticks: seq<Tick>, i: nat) returns (from: nat)
    requires InRange(info, ticks) && ticks != [] && i < |Run(info, ticks).log[|ticks| - 1]|
    ensures var s, r, last := Run(info, ticks[..|ticks| - 1]).st, Run(info, ticks).log[|ticks| - 1][i], ticks[|ticks| - 1];
            && last.obs.Got? && r.dispatchId < last.obs.view.rptr && r.completed && r.completeTs == last.now
            && if from < |s.inflight|
               then r == Completed(s.inflight[from].val, last.now) && r.dispatchId == s.inflight[from].key < s.nextId
               else s.nextId <= r.dispatchId && r.submitTs == last.now
  {
    var init, last := ticks[..|ticks| - 1], ticks[|ticks| - 1];
    var s := Run(info, init).st;
    if last.obs.Got? && s.primed {
      var f := |FreshBatch(info, s, last.obs.view, last.now)|;
      RunRoomy(info, init, last.obs.view.wptr);
      SunkRecord(info, s, last.obs.view, last.now, i);
      from := if i < f then |s.inflight| else i - f;
    }
  }

  /** A record of the last poll carries the time of the poll that decoded it and the time of the last poll. */
  predicate Timed(info: QueueInfo, ticks: seq<Tick>, r: PacketRecord)
    requires ticks != []
  {
    var decoded, last := ticks[DecodedAt(info, ticks, r.dispatchId)], ticks[|ticks| - 1];
    && r.completed && r.completeTs == last.now && r.submitTs == decoded.now
    && decoded.obs.Got?
    && r.submitTs <= r.completeTs
    && (r.submitTs == r.completeTs <==> r.dispatchId < decoded.obs.view.rptr)
  }

  lemma SunkTimed(info: QueueInfo, ticks: seq<Tick>, i: nat)
    requires InRange(info, ticks) && Clocked(ticks) && ticks != []
    requires i < |Run(info, ticks).log[|ticks| - 1]|
    ensures Timed(info, ticks, Run(info, ticks).log[|ticks| - 1][i])
  {
    var init := ticks[..|ticks| - 1];
    var from := RecordOrigin(info, ticks, i);
    if from < |Run(info, init).st.inflight| {
      InflightStamped(info, init, from);
    }
  }

  /** Timing: a sunk record was submitted at the poll that decoded it and completed at the poll that sank it;
      the two stamps are equal exactly when the id was already consumed in the poll that decoded it. */
  lemma Timing(info: QueueInfo, ticks: seq<Tick>, k: nat, i: nat)
    requires InRange(info, ticks) && Clocked(ticks)
    requires k < |ticks| && i < |Run(info, ticks).log[k]|
    ensures Timed(info, ticks[..k + 1], Run(info, ticks).log[k][i])
  {
    RunAt(info, ticks, k);
    SunkTimed(info, ticks[..k + 1], i);
  }

  // ---- Memory bound ----

  lemma {:induction false} NextBelow(info: QueueInfo, ticks: seq<Tick>, bound: nat)
    requires InRange(info, ticks)
    requires forall i :: 0 <= i < |ticks| && ticks[i].obs.Got? ==> ticks[i].obs.view.wptr <= bound
    ensures Run(info, ticks).st.nextId <= bound
  {
    if ticks != [] {
      var init, last := ticks[..|ticks| - 1], ticks[|ticks| - 1];
      NextBelow(info, init, bound);
      RunInvariant(info, init);
      var s := Run(info, init).st;
      if last.obs.Got? && s.primed {
        PollStep(info, Head(init).value, Run(info, init), last.obs.view, last.now);
        PollConserves(info, s, last.obs.view, last.now);
      }
    }
  }

  /** What the last successful poll saw. */
  function LastSeen(ticks: seq<Tick>): Option<AqlView> {
    if ticks == [] then None
    else if ticks[|ticks| - 1].obs.Got? then Some(ticks[|ticks| - 1].obs.view)
    else LastSeen(ticks[..|ticks| - 1])
  }

  /** With a write pointer that never falls and at most one ring of unconsumed packets when it was last read, the map
      never holds more than one ring of records. */
  lemma {:induction false} InflightBounded(info: QueueInfo, ticks: seq<Tick>)
    requires InRange(info, ticks)
    requires forall i, j :: 0 <= i < j < |ticks| && ticks[i].obs.Got? && ticks[j].obs.Got? ==>
               ticks[i].obs.view.wptr <= ticks[j].obs.view.wptr
    requires LastSeen(ticks).Some? ==> LastSeen(ticks).value.wptr <= LastSeen(ticks).value.rptr + info.NumSlots()
    ensures |Run(info, ticks).st.inflight| <= info.NumSlots()
  {
    if ticks != [] {
      var init, last := ticks[..|ticks| - 1], ticks[|ticks| - 1];
      var s := Run(info, init).st;
      RunInvariant(info, init);
      if last.obs.PtrFail? {
        InflightBounded(info, init);
      } else if s.primed {
        var v := last.obs.view;
        NextBelow(info, ticks, v.wptr);
        PollStep(info, Head(init).value, Run(info, init), v, last.now);
        PollKeepsUp(info, s, v, last.now);
      }
    }
  }

  // ---- What a record of each type says ----

  /** The name shown for a packet that is no kernel dispatch. */
  function OtherName(ptype: u8): string {
    match ptype
    case 0 => "vendor_specific"
    case 3 => "barrier_and"
    case 4 => "agent_dispatch"
    case 5 => "barrier_or"
    case _ => "unknown"
  }

  /** A kernel dispatch (type 2) goes by the name of its kernel; a record of any other type says nothing about a dispatch
      and goes by its type; none is of the invalid type 1. */
  predicate Plain(r: PacketRecord, names: u64 -> Bytes) {
    if r.ptype == 2 then r.kernelName == names(r.dispatch.kernelObject)
    else
      && r.ptype != 1 && r.kernelName == Ascii(OtherName(r.ptype))
      && r.dispatch == Dispatch(0, (0, 0, 0), (0, 0, 0), 0, 0, 0, 0)
  }

  /** The slots are decoded from some memory, under these kernel names. */
  ghost predicate ReadsMemory(info: QueueInfo, v: AqlView, names: u64 -> Bytes) {
    exists m: AqlMemory :: m.resolve == names && v.slot == ViewOf(info, v.wptr, v.rptr, m).slot
  }

  lemma NamedByType(t: u8)
    ensures t != 1 && t != 2 ==> PacketTypeName(t) == OtherName(t)
  {
  }

  lemma RawPlain(consumed: bool, raw: Raw, names: u64 -> Bytes)
    ensures var p := DecodeRaw(consumed, raw, names);
            p.Some? ==> if p.value.ptype == 2 then p.value.kernelName == names(p.value.dispatch.kernelObject)
                        else p.value.ptype != 1 && p.value.dispatch == NO_DISPATCH && p.value.kernelName == Ascii(OtherName(p.value.ptype))
  {
    hide Body, Ascii, PacketTypeName, OtherName;
    NamedByType(HeaderType(raw));
  }

  lemma SlotPlain(info: QueueInfo, v: AqlView, names: u64 -> Bytes, id: u64, now: real)
    requires ReadsMemory(info, v, names) && v.slot(id).Some?
    ensures Plain(Submitted(info, id, v.slot(id).value, now), names)
  {
    hide DecodeRaw, Ascii, OtherName;
    var m: AqlMemory :| m.resolve == names && v.slot == ViewOf(info, v.wptr, v.rptr, m).slot;
    assert v.slot(id) == DecodeSlot(info, m, v.rptr, id);
    RawPlain(id < v.rptr, m.read(SlotOffset(info, id)).value, names);
  }

  predicate AllPlain(q: QState, out: seq<PacketRecord>, names: u64 -> Bytes) {
    && (forall j :: 0 <= j < |q.inflight| ==> Plain(q.inflight[j].val, names))
    && (forall i :: 0 <= i < |out| ==> Plain(out[i], names))
  }

  lemma PollPlain(info: QueueInfo, s: QState, v: AqlView, names: u64 -> Bytes, now: real)
    requires s.primed && Keyed(s) && Roomy(info, s, v.wptr) && AllPlain(s, [], names) && ReadsMemory(info, v, names)
    ensures var o := Poll(info, s, Got(v), now); AllPlain(o.st, o.sunk, names)
  {
    hide Poll, Keyed, Roomy, ReadsMemory, Due, FreshBatch;
    var o := Poll(info, s, Got(v), now);
    forall j | 0 <= j < |o.st.inflight|
      ensures Plain(o.st.inflight[j].val, names)
    {
      KeptEntry(info, s, v, now, j);
      if j >= |s.inflight| - Due(s.inflight, v.rptr) {
        SlotPlain(info, v, names, o.st.inflight[j].key, now);
      }
    }
    forall i | 0 <= i < |o.sunk|
      ensures Plain(o.sunk[i], names)
    {
      SunkRecord(info, s, v, now, i);
      if i < |FreshBatch(info, s, v, now)| {
        SlotPlain(info, v, names, o.sunk[i].dispatchId, now);
      }
    }
  }

  /** Over every run, whatever memory holds: a kernel dispatch is named after the kernel object it carries, and a record of
      another type carries no kernarg address, so nothing that wants one ever sees it for a packet whose header was
      reset to vendor-specific. */
  lemma {:induction false} RecordsNamed(info: QueueInfo, ticks: seq<Tick>, names: u64 -> Bytes)
    requires InRange(info, ticks)
    requires forall i :: 0 <= i < |ticks| && ticks[i].obs.Got? ==> ReadsMemory(info, ticks[i].obs.view, names)
    ensures AllPlain(Run(info, ticks).st, Flat(Run(info, ticks).log), names)
  {
    hide Poll, Keyed, Roomy, ReadsMemory, Plain;
    if ticks != [] {
      var init, last := ticks[..|ticks| - 1], ticks[|ticks| - 1];
      var t := Run(info, init);
      RecordsNamed(info, init, names);
      RunKeyed(info, init);
      var o := Poll(info, t.st, last.obs, last.now);
      assert AllPlain(o.st, o.sunk, names) by {
        if last.obs.Got? && t.st.primed {
          RunRoomy(info, init, last.obs.view.wptr);
          PollPlain(info, t.st, last.obs.view, names, last.now);
        } else {
          NoPoll(info, t.st, last.obs, last.now);
        }
      }
      assert (t.log + [o.sunk])[..|t.log|] == t.log;
    }
  }

  lemma NoPoll(info: QueueInfo, s: QState, obs: Obs<AqlView>, now: real)
    requires obs.PtrFail? || !s.primed
    ensures var o := Poll(info, s, obs, now); o.st.inflight == s.inflight && o.sunk == []
  {
  }

  // ---- A run whose sink sees ids out of order ----

  /** A poll that finds id 0 published and not consumed. */
  lemma PendsZero(info: QueueInfo, s: QState, v: AqlView, now: real)
    requires s.primed && s.nextId == s.dropped == 0 && s.inflight == [] && info.NumSlots() == 4
    requires v.wptr == 1 && v.rptr == 0 && v.slot(0).Some?
    ensures var o := Poll(info, s, Got(v), now);
            && o.st.primed && o.st.nextId == 1 && o.st.dropped == 0
            && o.st.inflight == [Entry(0, Submitted(info, 0, v.slot(0).value, now))]
  {
    hide Poll, Decoded, Fresh, Increasing, Within, Submitted;
    assert Roomy(info, s, v.wptr) && Keyed(s);
    PollShape(info, s, v, now);
    FromTo(info, s, v);
    StopIs(v, 0);
    FreshPartition(info, v, now, 0, 0);
    assert Pending(info, v, now, 0, 0) == [];
  }

  /** The next poll finds ids 0 and 1 consumed. */
  lemma SinksOneThenZero(info: QueueInfo, s: QState, v: AqlView, now: real)
    requires s.primed && s.nextId == 1 && s.dropped == 0 && |s.inflight| == 1 && info.NumSlots() == 4
    requires s.inflight[0].key == s.inflight[0].val.dispatchId == 0
    requires v.wptr == v.rptr == 2 && v.slot(1).Some?
    ensures var sunk := Poll(info, s, Got(v), now).sunk;
            |sunk| == 2 && sunk[0].dispatchId == 1 && sunk[1].dispatchId == 0
  {
    PollShape(info, s, v, now);
    FromTo(info, s, v);
    assert Fresh(info, v, now, 1, 1) == [];
    assert Due(s.inflight[1..], v.rptr) == 0;
  }

  /** Id 0 is decoded pending; by the next poll ids 0 and 1 have both been consumed, and id 1 is handed on first. */
  lemma OutOfOrderRun(info: QueueInfo, p: Packet) returns (ticks: seq<Tick>)
    requires info.NumSlots() == 4
    ensures InRange(info, ticks) && Clocked(ticks) && |ticks| == 3
    ensures var sunk := Run(info, ticks).log[2]; |sunk| == 2 && sunk[0].dispatchId == 1 && sunk[1].dispatchId == 0
  {
    hide Decoded, Fresh, SkipOverrun;
    var slot := (id: u64) => Some(p);
    var t0, t1, t2 := Tick(0.0, Got(AqlView(0, 0, slot))), Tick(1.0, Got(AqlView(1, 0, slot))), Tick(2.0, Got(AqlView(2, 2, slot)));
    ticks := [t0, t1, t2];
    assert ticks[..2] == [t0, t1] && [t0, t1][..1] == [t0] && [t0][..0] == [];
    var s := Prime(INIT, 0, 0);
    assert Run(info, [t0]).st == s;
    hide Poll;
    PendsZero(info, s, t1.obs.view, 1.0);
    SinksOneThenZero(info, Poll(info, s, t1.obs, 1.0).st, t2.obs.view, 2.0);
    assert Run(info, [t0, t1]).st == Poll(info, s, t1.obs, 1.0).st;
  }
}
