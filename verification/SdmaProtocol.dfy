/** The SDMA ring protocol around the poller: a producer writes dwords at and above the write pointer in any order,
    then publishes them by moving it; the engine moves the read pointer; the poller polls at any moment. A dword
    written ahead replaces the one a ring below it before the write pointer shows that. */
module SdmaProtocol {
  import opened Model
  import opened Ring
  import opened Sequences
  import opened SdmaPackets
  import opened SdmaPoll
  import SdmaRuns
  import SdmaStream

  /** The ring, the two pointers, how far the producer has written, everything published since position 0, and the
      poller with its history. */
  datatype Sys = Sys(ring: seq<u32>, wptr: nat, front: nat, rptr: nat, sent: seq<u32>, t: SdmaRuns.Trace)

  datatype Step =
    | Write(pos: nat, dw: u32)
    | Publish(to: nat)
    | Consume(to: nat)
    | DoPoll(now: real, ok: bool)

  predicate Shaped(info: QueueInfo, s: Sys) {
    info.NumDwords() > 0 && |s.ring| == info.NumDwords() && s.wptr < SdmaRuns.DWORDS && s.rptr < SdmaRuns.DWORDS
  }

  function Slot(info: QueueInfo, pos: nat): (j: nat)
    requires info.NumDwords() > 0
    ensures j < info.NumDwords()
  {
    pos % info.NumDwords()
  }

  /** The producer may not write a ring or more above the read pointer. */
  predicate Legal(info: QueueInfo, s: Sys, step: Step) {
    && Shaped(info, s)
    && match step
       case Write(pos, dw) => s.wptr <= pos <= s.front && pos < s.rptr + info.NumDwords() && pos + 1 < SdmaRuns.DWORDS
       case Publish(to) => s.wptr <= to <= s.front && to < SdmaRuns.DWORDS
       case Consume(to) => s.rptr <= to <= s.wptr
       case DoPoll(now, ok) => true
  }

  function Memory(s: Sys, host: u64 -> bool): SdmaMemory {
    SdmaMemory((start: u64, off: nat, len: nat) => true,
               (start: u64, off: nat) => if off / 4 < |s.ring| then s.ring[off / 4] else 0, host)
  }

  /** What a poll sees; pointers are published as byte offsets. */
  function View(info: QueueInfo, host: u64 -> bool, s: Sys): SdmaView
    requires Shaped(info, s)
  {
    ViewOf(info, 4 * s.wptr, 4 * s.rptr, Memory(s, host))
  }

  function TickOf(info: QueueInfo, host: u64 -> bool, s: Sys, now: real, ok: bool): SdmaRuns.Tick
    requires Shaped(info, s)
  {
    SdmaRuns.Tick(now, if ok then Got(View(info, host, s)) else PtrFail)
  }

  /** The dwords of the ring at positions [from, to). */
  function Slice(info: QueueInfo, ring: seq<u32>, from: nat, to: nat): (r: seq<u32>)
    requires info.NumDwords() > 0 && |ring| == info.NumDwords() && from <= to
    ensures |r| == to - from
  {
    seq(to - from, i requires 0 <= i < to - from => ring[Slot(info, from + i)])
  }

  function Apply(info: QueueInfo, host: u64 -> bool, s: Sys, step: Step): Sys
    requires Legal(info, s, step)
  {
    match step
    case Write(pos, dw) =>
      s.(ring := s.ring[Slot(info, pos) := dw], front := if s.front < pos + 1 then pos + 1 else s.front)
    case Publish(to) => s.(wptr := to, sent := s.sent + Slice(info, s.ring, s.wptr, to))
    case Consume(to) => s.(rptr := to)
    case DoPoll(now, ok) => s.(t := SdmaStream.Next(info, s.t, TickOf(info, host, s, now, ok)))
  }

  // ---- What every step keeps ----

  /** The ring shows what was published, except where it has been written again. */
  predicate Holds(info: QueueInfo, ring: seq<u32>, sent: seq<u32>, from: int)
    requires info.NumDwords() > 0 && |ring| == info.NumDwords()
  {
    forall i :: 0 <= i < |sent| && from <= i ==> ring[Slot(info, i)] == sent[i]
  }

  predicate RingInv(info: QueueInfo, s: Sys) {
    && Shaped(info, s)
    && s.rptr <= s.wptr <= s.front <= s.rptr + info.NumDwords() && s.front < SdmaRuns.DWORDS
    && |s.sent| == s.wptr
    && Holds(info, s.ring, s.sent, s.front - info.NumDwords())
  }

  lemma OtherSlot(info: QueueInfo, a: nat, b: nat)
    requires info.NumDwords() > 0 && a < b < a + info.NumDwords()
    ensures Slot(info, a) != Slot(info, b)
  {
    WindowMod(a, b, info.NumDwords());
  }

  lemma WriteKeeps(info: QueueInfo, host: u64 -> bool, s: Sys, pos: nat, dw: u32)
    requires RingInv(info, s) && Legal(info, s, Write(pos, dw))
    ensures RingInv(info, Apply(info, host, s, Write(pos, dw)))
  {
    var t := Apply(info, host, s, Write(pos, dw));
    forall i | 0 <= i < |t.sent| && t.front - info.NumDwords() <= i
      ensures t.ring[Slot(info, i)] == t.sent[i]
    {
      OtherSlot(info, i, pos);
    }
  }

  lemma PublishKeeps(info: QueueInfo, host: u64 -> bool, s: Sys, to: nat)
    requires RingInv(info, s) && Legal(info, s, Publish(to))
    ensures RingInv(info, Apply(info, host, s, Publish(to)))
  {
    hide Slot;
    var t := Apply(info, host, s, Publish(to));
    forall i | 0 <= i < |t.sent| && t.front - info.NumDwords() <= i
      ensures t.ring[Slot(info, i)] == t.sent[i]
    {
      if i >= s.wptr {
        assert t.sent[i] == Slice(info, s.ring, s.wptr, to)[i - s.wptr];
      }
    }
  }

  /** The ring discipline is an invariant of every step. */
  lemma StepKeepsRing(info: QueueInfo, host: u64 -> bool, s: Sys, step: Step)
    requires RingInv(info, s) && Legal(info, s, step)
    ensures RingInv(info, Apply(info, host, s, step))
  {
    match step
    case Write(pos, dw) => WriteKeeps(info, host, s, pos, dw);
    case Publish(to) => PublishKeeps(info, host, s, to);
    case Consume(to) =>
    case DoPoll(now, ok) =>
  }

  /** An empty ring and a poller that has not started. */
  predicate Initial(info: QueueInfo, s: Sys) {
    && Shaped(info, s) && s.wptr == s.front == s.rptr == 0 && s.sent == []
    && s.t == SdmaRuns.Trace(INIT, [], [])
  }

  predicate Behaviour(info: QueueInfo, host: u64 -> bool, states: seq<Sys>, steps: seq<Step>) {
    && |states| == |steps| + 1 && Initial(info, states[0])
    && forall i :: 0 <= i < |steps| ==>
         Legal(info, states[i], steps[i]) && states[i + 1] == Apply(info, host, states[i], steps[i])
  }

  lemma {:induction false} InvariantHolds(info: QueueInfo, host: u64 -> bool, states: seq<Sys>, steps: seq<Step>, n: nat)
    requires Behaviour(info, host, states, steps) && n <= |steps|
    ensures RingInv(info, states[n])
  {
    hide Apply, Legal, Holds;
    if n > 0 {
      InvariantHolds(info, host, states, steps, n - 1);
      StepKeepsRing(info, host, states[n - 1], steps[n - 1]);
    } else {
      InitialInv(info, states[0]);
    }
  }

  lemma InitialInv(info: QueueInfo, s: Sys)
    requires Initial(info, s)
    ensures RingInv(info, s)
  {
  }

  // ---- The behaviour's polls ----

  /** What the polls among the first n steps saw. */
  function Ticks(info: QueueInfo, host: u64 -> bool, states: seq<Sys>, steps: seq<Step>, n: nat): seq<SdmaRuns.Tick>
    requires n <= |steps| < |states|
    requires forall i :: 0 <= i < n ==> Shaped(info, states[i])
  {
    if n == 0 then []
    else
      Ticks(info, host, states, steps, n - 1) +
      match steps[n - 1]
      case DoPoll(now, ok) => [TickOf(info, host, states[n - 1], now, ok)]
      case _ => []
  }

  lemma RunNext(info: QueueInfo, ticks: seq<SdmaRuns.Tick>, tick: SdmaRuns.Tick)
    ensures SdmaRuns.Run(info, ticks + [tick]) == SdmaStream.Next(info, SdmaRuns.Run(info, ticks), tick)
  {
    hide Poll, SdmaRuns.NewDecodes;
    assert (ticks + [tick])[..|ticks|] == ticks;
  }

  /** The poller in the behaviour is a run over those ticks. */
  lemma {:induction false} TraceIsRun(info: QueueInfo, host: u64 -> bool, states: seq<Sys>, steps: seq<Step>, n: nat)
    requires Behaviour(info, host, states, steps) && n <= |steps|
    ensures states[n].t == SdmaRuns.Run(info, Ticks(info, host, states, steps, n))
  {
    hide TickOf, SdmaStream.Next, SdmaRuns.Run;
    if n > 0 {
      TraceIsRun(info, host, states, steps, n - 1);
      var before, step := Ticks(info, host, states, steps, n - 1), steps[n - 1];
      if step.DoPoll? {
        RunNext(info, before, TickOf(info, host, states[n - 1], step.now, step.ok));
      } else {
        assert before + [] == before;
      }
    } else {
      EmptyRun(info);
    }
  }

  lemma EmptyRun(info: QueueInfo)
    ensures SdmaRuns.Run(info, []) == SdmaRuns.Trace(INIT, [], [])
  {
  }

  // ---- No overrun, seen or unseen ----

  /** The producer has not written over anything the poller has still to decode. */
  predicate Intact(info: QueueInfo, s: Sys) {
    s.front <= s.t.st.nextId + info.NumDwords()
  }

  lemma ByteOffset(info: QueueInfo, i: nat)
    requires info.NumDwords() > 0
    ensures i % info.NumDwords() * 4 / 4 == Slot(info, i) < info.NumDwords()
  {
  }

  lemma InPlaceHolds(info: QueueInfo, host: u64 -> bool, s: Sys, head: nat, from: nat, stream: seq<u32>)
    requires RingInv(info, s) && s.front <= from + info.NumDwords() && head <= s.wptr <= head + |stream|
    requires s.sent[head..] == stream[..s.wptr - head]
    ensures SdmaStream.RingHolds(info, Memory(s, host), s.wptr, head, from, stream)
  {
    hide Slot;
    forall start: u64, i: nat | head <= i < s.wptr && from <= i
      ensures Memory(s, host).dword(start, i % info.NumDwords() * 4) == stream[i - head]
    {
      ByteOffset(info, i);
      assert s.sent[head..][i - head] == stream[..s.wptr - head][i - head];
    }
  }

  /** As long as nothing has been written a ring or more above `from`, a poll sees the stream from there. */
  lemma InPlaceShows(info: QueueInfo, host: u64 -> bool, s: Sys, head: nat, from: nat, stream: seq<u32>)
    requires RingInv(info, s) && s.front <= from + info.NumDwords() && head <= s.wptr <= head + |stream|
    requires s.sent[head..] == stream[..s.wptr - head]
    ensures SdmaStream.Shows(info, View(info, host, s), head, from, stream)
  {
    hide SdmaStream.RingHolds, SdmaStream.Shows, Holds, ReadRing, LookRing;
    InPlaceHolds(info, host, s, head, from, stream);
    assert SdmaStream.SpansReadable(info, Memory(s, host));
    SdmaStream.RingShows(info, Memory(s, host), 4 * s.wptr, 4 * s.rptr, head, from, stream);
  }

  /** A poll of an intact ring sees the stream from where it resumes. */
  lemma IntactOnStream(info: QueueInfo, host: u64 -> bool, s: Sys, head: nat, ps: seq<seq<u32>>)
    requires RingInv(info, s) && Intact(info, s) && head <= s.wptr <= head + |Concat(ps)|
    requires s.sent[head..] == Concat(ps)[..s.wptr - head]
    ensures SdmaStream.OnStream(info, host, head, ps, View(info, host, s), s.t.st.nextId)
  {
    hide SdmaStream.Shows, Holds, Concat, LookRing;
    InPlaceShows(info, host, s, head, s.t.st.nextId, Concat(ps));
  }

  /** Every poll after the priming one finds what it has still to decode in place. */
  ghost predicate NoOverrun(info: QueueInfo, states: seq<Sys>, steps: seq<Step>, n: nat)
    requires n <= |steps| < |states|
  {
    forall i :: 0 <= i < n && steps[i].DoPoll? && steps[i].ok && states[i].t.st.primed ==> Intact(info, states[i])
  }

  /** Everything published from `head` on is packets, the last of which may be cut. */
  predicate SendsPackets(info: QueueInfo, s: Sys, head: nat, ps: seq<seq<u32>>) {
    && ArePackets(info.sdmaVersion, ps) && head <= |s.sent| <= head + |Concat(ps)|
    && s.sent[head..] == Concat(ps)[..|s.sent| - head]
  }

  // ---- From behaviours to schedules ----

  lemma ViewPointers(info: QueueInfo, host: u64 -> bool, s: Sys)
    requires Shaped(info, s)
    ensures View(info, host, s).wptr == s.wptr && View(info, host, s).rptr == s.rptr && View(info, host, s).host == host
  {
    hide LookRing;
  }

  /** Published dwords stay published, and pointers never go back. */
  lemma StepGrows(info: QueueInfo, host: u64 -> bool, s: Sys, step: Step)
    requires Legal(info, s, step)
    ensures var u := Apply(info, host, s, step); s.sent <= u.sent && s.wptr <= u.wptr && s.rptr <= u.rptr
  {
    hide SdmaStream.Next, TickOf;
  }

  predicate Below(ticks: seq<SdmaRuns.Tick>, wptr: nat, rptr: nat) {
    forall j :: 0 <= j < |ticks| && ticks[j].obs.Got? ==> ticks[j].obs.view.wptr <= wptr && ticks[j].obs.view.rptr <= rptr
  }

  lemma {:induction false} TicksBelow(info: QueueInfo, host: u64 -> bool, states: seq<Sys>, steps: seq<Step>, n: nat)
    requires Behaviour(info, host, states, steps) && n <= |steps|
    ensures Below(Ticks(info, host, states, steps, n), states[n].wptr, states[n].rptr)
  {
    hide Apply, View;
    if n > 0 {
      TicksBelow(info, host, states, steps, n - 1);
      StepGrows(info, host, states[n - 1], steps[n - 1]);
      ViewPointers(info, host, states[n - 1]);
    }
  }

  lemma HeadNext(info: QueueInfo, ticks: seq<SdmaRuns.Tick>, tick: SdmaRuns.Tick)
    requires info.NumDwords() > 0
    ensures SdmaRuns.Head(info, ticks + [tick]) ==
            if SdmaRuns.Head(info, ticks).None? && tick.obs.Got? then Some(tick.obs.view.wptr) else SdmaRuns.Head(info, ticks)
  {
    assert (ticks + [tick])[..|ticks|] == ticks;
  }

  lemma {:induction false} NoHead(info: QueueInfo, ticks: seq<SdmaRuns.Tick>, i: nat)
    requires info.NumDwords() > 0 && SdmaRuns.Head(info, ticks).None? && i <= |ticks|
    ensures SdmaRuns.Head(info, ticks[..i]).None?
    ensures forall j :: 0 <= j < |ticks| ==> ticks[j].obs.PtrFail?
  {
    if ticks != [] {
      var init := ticks[..|ticks| - 1];
      if i < |ticks| {
        NoHead(info, init, i);
        assert init[..i] == ticks[..i];
      } else {
        NoHead(info, init, 0);
        assert ticks[..i] == ticks;
      }
    } else {
      assert ticks[..i] == ticks;
    }
  }

  lemma {:induction false} HeadPrimes(info: QueueInfo, ticks: seq<SdmaRuns.Tick>)
    requires info.NumDwords() > 0
    ensures SdmaRuns.Head(info, ticks).Some? <==> SdmaRuns.Run(info, ticks).st.primed
  {
    hide Walk, WalkEnd, Entries, CacheAfter, SdmaRuns.NewDecodes, Lost;
    if ticks != [] {
      HeadPrimes(info, ticks[..|ticks| - 1]);
    }
  }

  lemma ScheduleFirst(info: QueueInfo, host: u64 -> bool, head: nat, ps: seq<seq<u32>>, ticks: seq<SdmaRuns.Tick>,
      tick: SdmaRuns.Tick)
    requires info.NumDwords() > 0 && ArePackets(info.sdmaVersion, ps) && SdmaRuns.Head(info, ticks).None?
    requires tick.obs.Got? && tick.obs.view.wptr == head < SdmaRuns.DWORDS
    ensures SdmaStream.Schedule(info, host, head, ps, ticks + [tick])
  {
    hide SdmaRuns.Run, SdmaStream.OnStream, ArePackets, SdmaRuns.Head;
    var all := ticks + [tick];
    HeadNext(info, ticks, tick);
    forall i | 0 <= i < |all| && all[i].obs.Got?
      ensures SdmaRuns.Head(info, all[..i]).None?
    {
      NoHead(info, ticks, i);
      assert all[..i] == ticks[..i];
    }
    NoHead(info, ticks, 0);
  }

  lemma ScheduleNext(info: QueueInfo, host: u64 -> bool, head: nat, ps: seq<seq<u32>>, ticks: seq<SdmaRuns.Tick>,
      tick: SdmaRuns.Tick)
    requires SdmaStream.Schedule(info, host, head, ps, ticks)
    requires tick.obs.Got? ==>
               var v := tick.obs.view;
               && SdmaStream.OnStream(info, host, head, ps, v, SdmaRuns.Run(info, ticks).st.nextId)
               && Below(ticks, v.wptr, v.rptr)
    ensures SdmaStream.Schedule(info, host, head, ps, ticks + [tick])
  {
    hide SdmaRuns.Run, SdmaStream.OnStream, ArePackets, SdmaRuns.Head;
    var all := ticks + [tick];
    HeadNext(info, ticks, tick);
    assert all[..|ticks|] == ticks;
    forall i | 0 <= i < |all| && all[i].obs.Got? && SdmaRuns.Head(info, all[..i]).Some?
      ensures SdmaStream.OnStream(info, host, head, ps, all[i].obs.view, SdmaRuns.Run(info, all[..i]).st.nextId)
    {
      if i < |ticks| {
        assert all[..i] == ticks[..i] && all[i] == ticks[i];
      }
    }
  }

  lemma SendsBefore(info: QueueInfo, s: Sys, u: Sys, head: nat, ps: seq<seq<u32>>)
    requires SendsPackets(info, u, head, ps) && s.sent <= u.sent && head <= |s.sent|
    ensures SendsPackets(info, s, head, ps)
  {
    hide ArePackets, Concat;
    assert s.sent[head..] == u.sent[head..][..|s.sent| - head];
  }

  /** The polls of a behaviour without overrun form a schedule. */
  lemma {:induction false} TicksSchedule(info: QueueInfo, host: u64 -> bool, states: seq<Sys>, steps: seq<Step>, n: nat,
      head: nat, ps: seq<seq<u32>>)
    requires Behaviour(info, host, states, steps) && n <= |steps| && NoOverrun(info, states, steps, n)
    requires SdmaRuns.Head(info, Ticks(info, host, states, steps, n)) == Some(head)
    requires SendsPackets(info, states[n], head, ps)
    ensures SdmaStream.Schedule(info, host, head, ps, Ticks(info, host, states, steps, n))
  {
    hide SdmaStream.Schedule, SendsPackets, Apply, View, SdmaStream.OnStream, RingInv, Below, Intact, SdmaRuns.Run, SdmaRuns.Head;
    if n == 0 {
      assert SdmaRuns.Head(info, []) == None by {
        NoTicks(info);
      }
    } else {
      var before, s, step := Ticks(info, host, states, steps, n - 1), states[n - 1], steps[n - 1];
      if step.DoPoll? {
        HeadNext(info, before, TickOf(info, host, s, step.now, step.ok));
        ViewPointers(info, host, s);
      } else {
        assert before + [] == before;
      }
      if SdmaRuns.Head(info, before).None? {
        FirstPoll(info, host, before, s, step, states[n], head, ps);
      } else {
        HeadReached(info, host, states, steps, n - 1, head);
        StepGrows(info, host, s, step);
        SendsBefore(info, s, states[n], head, ps);
        TicksSchedule(info, host, states, steps, n - 1, head, ps);
        if step.DoPoll? {
          NextPoll(info, host, states, steps, n, head, ps);
        }
      }
    }
  }

  lemma NoTicks(info: QueueInfo)
    ensures SdmaRuns.Head(info, []) == None
  {
  }

  lemma FirstPoll(info: QueueInfo, host: u64 -> bool, before: seq<SdmaRuns.Tick>, s: Sys, step: Step, u: Sys, head: nat,
      ps: seq<seq<u32>>)
    requires Shaped(info, s) && step.DoPoll? && step.ok && head == s.wptr && SdmaRuns.Head(info, before).None?
    requires SendsPackets(info, u, head, ps)
    ensures SdmaStream.Schedule(info, host, head, ps, before + [TickOf(info, host, s, step.now, step.ok)])
  {
    hide SdmaStream.Schedule, View;
    ViewPointers(info, host, s);
    ScheduleFirst(info, host, head, ps, before, TickOf(info, host, s, step.now, step.ok));
  }

  /** The priming position has been published. */
  lemma {:induction false} HeadReached(info: QueueInfo, host: u64 -> bool, states: seq<Sys>, steps: seq<Step>, n: nat,
      head: nat)
    requires Behaviour(info, host, states, steps) && n <= |steps|
    requires SdmaRuns.Head(info, Ticks(info, host, states, steps, n)) == Some(head)
    ensures head <= states[n].wptr == |states[n].sent|
  {
    hide Apply, View, SdmaRuns.Head;
    InvariantHolds(info, host, states, steps, n);
    TicksBelow(info, host, states, steps, n);
    HeadAmong(info, Ticks(info, host, states, steps, n), states[n].wptr, states[n].rptr);
  }

  lemma {:induction false} HeadAmong(info: QueueInfo, ticks: seq<SdmaRuns.Tick>, wptr: nat, rptr: nat)
    requires Below(ticks, wptr, rptr) && SdmaRuns.Head(info, ticks).Some?
    ensures SdmaRuns.Head(info, ticks).value <= wptr
  {
    if SdmaRuns.Head(info, ticks[..|ticks| - 1]).Some? {
      HeadAmong(info, ticks[..|ticks| - 1], wptr, rptr);
    }
  }

  lemma NextPoll(info: QueueInfo, host: u64 -> bool, states: seq<Sys>, steps: seq<Step>, n: nat, head: nat,
      ps: seq<seq<u32>>)
    requires Behaviour(info, host, states, steps) && 0 < n <= |steps| && NoOverrun(info, states, steps, n)
    requires steps[n - 1].DoPoll?
    requires SdmaRuns.Head(info, Ticks(info, host, states, steps, n - 1)).Some?
    requires SdmaStream.Schedule(info, host, head, ps, Ticks(info, host, states, steps, n - 1))
    requires SendsPackets(info, states[n - 1], head, ps)
    ensures SdmaStream.Schedule(info, host, head, ps, Ticks(info, host, states, steps, n))
  {
    hide SdmaStream.Schedule, Apply, View, SdmaStream.OnStream, RingInv, Intact, SdmaRuns.Run, SdmaRuns.Head, ArePackets;
    var before, s, step := Ticks(info, host, states, steps, n - 1), states[n - 1], steps[n - 1];
    TraceIsRun(info, host, states, steps, n - 1);
    InvariantHolds(info, host, states, steps, n - 1);
    if step.ok {
      HeadPrimes(info, before);
      TicksBelow(info, host, states, steps, n - 1);
      ViewPointers(info, host, s);
      SentIsPublished(info, s);
      IntactOnStream(info, host, s, head, ps);
    }
    ScheduleNext(info, host, head, ps, before, TickOf(info, host, s, step.now, step.ok));
  }

  lemma SentIsPublished(info: QueueInfo, s: Sys)
    requires RingInv(info, s)
    ensures |s.sent| == s.wptr
  {
  }

  /** The main result inside the protocol: in every interleaving of writes ahead, publications, consumption and polls in
      which no poll finds a dword it has still to decode overwritten, the records decoded so far are exactly the
      packets published from `head` to the write pointer last seen, and those sunk exactly the ones below the
      read pointer last seen as well. */
  lemma ProtocolIsBatch(info: QueueInfo, host: u64 -> bool, states: seq<Sys>, steps: seq<Step>, n: nat, head: nat,
      ps: seq<seq<u32>>)
    requires Behaviour(info, host, states, steps) && n <= |steps| && NoOverrun(info, states, steps, n)
    requires SdmaRuns.Head(info, Ticks(info, host, states, steps, n)) == Some(head)
    requires SendsPackets(info, states[n], head, ps)
    ensures var s, v := states[n], SdmaStream.Last(info, Ticks(info, host, states, steps, n));
            && head <= v.wptr <= |s.sent| && s.t.st.dropped == 0
            && SdmaStream.RecordsOf(info, host, SdmaStream.Records(s.t.decoded), BatchParse(info.sdmaVersion, s.sent[head..v.wptr]))
            && SdmaStream.RecordsOf(info, host, s.t.out,
                                    BatchParse(info.sdmaVersion, s.sent[head..head + SdmaStream.Consumed(head, v.wptr, v.rptr)]))
  {
    hide SdmaStream.Schedule, Ticks, BatchParse, SdmaStream.RecordsOf, SdmaRuns.Run, SdmaRuns.Head, SendsPackets, Below, Apply;
    TicksSchedule(info, host, states, steps, n, head, ps);
    TraceIsRun(info, host, states, steps, n);
    TicksBelow(info, host, states, steps, n);
    InvariantHolds(info, host, states, steps, n);
    ScheduleBatch(info, host, states[n], head, ps, Ticks(info, host, states, steps, n));
  }

  lemma ScheduleBatch(info: QueueInfo, host: u64 -> bool, s: Sys, head: nat, ps: seq<seq<u32>>, ticks: seq<SdmaRuns.Tick>)
    requires SdmaStream.Schedule(info, host, head, ps, ticks) && s.t == SdmaRuns.Run(info, ticks)
    requires RingInv(info, s) && Below(ticks, s.wptr, s.rptr) && SendsPackets(info, s, head, ps)
    ensures SdmaRuns.Head(info, ticks).Some?
    ensures var v := SdmaStream.Last(info, ticks);
            && head <= v.wptr <= |s.sent| && s.t.st.dropped == 0
            && SdmaStream.RecordsOf(info, host, SdmaStream.Records(s.t.decoded), BatchParse(info.sdmaVersion, s.sent[head..v.wptr]))
            && SdmaStream.RecordsOf(info, host, s.t.out,
                                    BatchParse(info.sdmaVersion, s.sent[head..head + SdmaStream.Consumed(head, v.wptr, v.rptr)]))
  {
    hide BatchParse, SdmaStream.RecordsOf, SdmaRuns.Run, ArePackets, Concat, SdmaStream.Records, SdmaRuns.Head, Holds, SdmaStream.OnStream;
    SdmaStream.IncrementalIsBatch(info, host, head, ps, ticks);
    var i := SdmaStream.LastIs(info, ticks);
    var v := SdmaStream.Last(info, ticks);
    SentCut(info, s, head, ps, v.wptr - head);
    SentCut(info, s, head, ps, SdmaStream.Consumed(head, v.wptr, v.rptr));
  }

  lemma SentCut(info: QueueInfo, s: Sys, head: nat, ps: seq<seq<u32>>, k: nat)
    requires SendsPackets(info, s, head, ps) && head + k <= |s.sent|
    ensures s.sent[head..head + k] == SdmaStream.Cut(ps, k)
  {
    hide ArePackets, Concat;
    assert s.sent[head..head + k] == s.sent[head..][..k];
  }

  // ---- When reads can be trusted ----

  /** A poll that resumes at `from`, where the packets `qs` begin, decodes exactly those of them that are published. */
  ghost predicate DecodesRight(info: QueueInfo, host: u64 -> bool, s: Sys, from: u64, qs: seq<seq<u32>>)
    requires Shaped(info, s)
  {
    from <= View(info, host, s).wptr && SdmaStream.WalkedOver(View(info, host, s), from, qs)
  }

  /** The producer may still change its mind about a dword it has written and not published. */
  predicate Rewrites(info: QueueInfo, s: Sys, step: Step) {
    step.Write? && step.pos < s.front && Legal(info, s, step)
  }

  /** The poll is right now, and stays right whatever the producer writes over its unpublished dwords. */
  ghost predicate Trusted(info: QueueInfo, host: u64 -> bool, s: Sys, from: u64, qs: seq<seq<u32>>)
    requires Shaped(info, s)
  {
    && DecodesRight(info, host, s, from, qs)
    && forall step :: Rewrites(info, s, step) ==> DecodesRight(info, host, Apply(info, host, s, step), from, qs)
  }

  lemma InPlaceDecodes(info: QueueInfo, host: u64 -> bool, s: Sys, head: nat, ps: seq<seq<u32>>, k: nat)
    requires RingInv(info, s) && SendsPackets(info, s, head, ps) && k <= |ps|
    requires var from := head + SdmaStream.Span(ps, k); from <= s.wptr && s.front <= from + info.NumDwords()
    ensures DecodesRight(info, host, s, head + SdmaStream.Span(ps, k), ps[k..])
  {
    hide SdmaStream.Shows, Holds, LookRing, SdmaStream.Span, SdmaStream.WalkedOver, Concat, PacketLen;
    var from, v := head + SdmaStream.Span(ps, k), View(info, host, s);
    ViewPointers(info, host, s);
    InPlaceShows(info, host, s, head, from, Concat(ps));
    SdmaStream.ShowsSuffix(info, v, head, ps, k);
    SdmaStream.WalkMatches(info.sdmaVersion, v, from, ps[k..]);
  }

  lemma RewriteKeeps(info: QueueInfo, host: u64 -> bool, s: Sys, step: Step)
    requires RingInv(info, s) && Rewrites(info, s, step)
    ensures var u := Apply(info, host, s, step);
            RingInv(info, u) && u.sent == s.sent && u.wptr == s.wptr && u.front == s.front
  {
    hide Holds;
    WriteKeeps(info, host, s, step.pos, step.dw);
  }

  /** What a poll reads first. */
  lemma FirstDword(info: QueueInfo, host: u64 -> bool, s: Sys, from: u64)
    requires Shaped(info, s) && |s.ring| == info.NumDwords() && from < s.wptr <= from + info.NumDwords()
    ensures var n := Min(s.wptr - from, WINDOW);
            var r := ReadRing(info, Memory(s, host), from, n);
            && r.Some? && |r.value| == n > 0 && r.value[0] == s.ring[Slot(info, from)]
            && View(info, host, s).look(from) == LookAt(info.sdmaVersion, r)
  {
    hide Slot, ReadRing, LookAt;
    ViewPointers(info, host, s);
    SdmaStream.ReadRingWraps(info, Memory(s, host), from, Min(s.wptr - from, WINDOW));
    ByteOffset(info, from);
  }

  /** Whatever a walk takes first was decoded from the window read there. */
  lemma FirstTaken(ver: Version, v: SdmaView, from: u64, window: seq<u32>)
    requires from < v.wptr && v.look(from) == LookAt(ver, Some(window)) && Walk(v, from) != []
    ensures Walk(v, from)[0].dws == window
  {
    hide PacketLen;
    SdmaStream.WalkTakes(v, from);
  }

  /** A right walk takes a published first packet, header and all. */
  lemma RightHeader(ver: Version, v: SdmaView, from: u64, qs: seq<seq<u32>>, window: seq<u32>)
    requires from < v.wptr && v.look(from) == LookAt(ver, Some(window)) && |window| > 0
    requires SdmaStream.WalkedOver(v, from, qs) && qs != [] && 0 < |qs[0]| <= v.wptr - from
    ensures window[0] == qs[0][0]
  {
    hide PacketLen, SdmaStream.Span, LookAt, SdmaStream.Fits, Walk;
    var n := SdmaStream.Fits(qs, v.wptr - from);
    SdmaStream.FitsCons(qs, v.wptr - from);
    assert |qs[..n]| > 0 && |Walk(v, from)| == n;
    FirstTaken(ver, v, from, window);
    assert Window(qs[..n][0]) <= Walk(v, from)[0].dws;
  }

  /** A zero in front is a NOP of one dword: a walk over a cut packet is wrong to take it. */
  lemma ZeroTaken(ver: Version, v: SdmaView, from: u64, qs: seq<seq<u32>>, window: seq<u32>)
    requires Supported(ver) && from < v.wptr && v.look(from) == LookAt(ver, Some(window)) && |window| > 0 && window[0] == 0
    requires qs != [] && |qs[0]| > v.wptr - from
    ensures !SdmaStream.WalkedOver(v, from, qs)
  {
    assert PacketLen(ver, window) == 1;
    assert Front(v, from).Take?;
    SdmaStream.WalkTakes(v, from);
  }

  /** The dword to write over the header of the packet at `from`. */
  function Spoiler(q: seq<u32>, room: nat): u32
    requires |q| > 0
  {
    if |q| > room || q[0] != 0 then 0 else 1
  }

  lemma SpoiledWrong(info: QueueInfo, host: u64 -> bool, u: Sys, from: u64, qs: seq<seq<u32>>)
    requires Shaped(info, u) && from < u.wptr <= from + info.NumDwords() && Supported(info.sdmaVersion)
    requires qs != [] && |qs[0]| > 0 && u.ring[Slot(info, from)] == Spoiler(qs[0], u.wptr - from)
    ensures !DecodesRight(info, host, u, from, qs)
  {
    hide Slot, SdmaStream.WalkedOver, LookAt, ReadRing;
    var v := View(info, host, u);
    ViewPointers(info, host, u);
    FirstDword(info, host, u, from);
    var window := ReadRing(info, Memory(u, host), from, Min(u.wptr - from, WINDOW)).value;
    if |qs[0]| > u.wptr - from {
      ZeroTaken(info.sdmaVersion, v, from, qs, window);
    } else if SdmaStream.WalkedOver(v, from, qs) {
      RightHeader(info.sdmaVersion, v, from, qs, window);
    }
  }

  lemma PacketAt(info: QueueInfo, s: Sys, head: nat, ps: seq<seq<u32>>, k: nat)
    requires SendsPackets(info, s, head, ps) && k <= |ps| && head + SdmaStream.Span(ps, k) < |s.sent|
    ensures k < |ps| && |ps[k]| > 0 && Supported(info.sdmaVersion)
  {
    hide PacketLen;
    SdmaStream.ConcatSuffix(ps, k);
    assert k < |ps|;
    assert IsPacket(info.sdmaVersion, ps[k]);
    OnlySupported(info.sdmaVersion, ps[k]);
  }

  lemma OnlySupported(ver: Version, q: seq<u32>)
    requires IsPacket(ver, q)
    ensures Supported(ver)
  {
  }

  /** Writing a ring above `from` replaces the dword there. */
  lemma OverwriteLands(info: QueueInfo, host: u64 -> bool, s: Sys, from: nat, dw: u32)
    requires RingInv(info, s) && from + info.NumDwords() < s.front && s.wptr <= from + info.NumDwords()
    ensures Rewrites(info, s, Write(from + info.NumDwords(), dw))
    ensures Apply(info, host, s, Write(from + info.NumDwords(), dw)).ring[Slot(info, from)] == dw
  {
    LapsAhead(from, 1, info.NumDwords());
  }

  /** The overrun guard sees the write pointer only. When it lets a poll resume at the packet boundary `from`, at its own
      skip position or at what has been decoded, the poll decodes exactly the published packets, whatever the
      producer writes over its unpublished dwords, if and only if nothing has been written a ring or more above. */
  lemma TrustedWhen(info: QueueInfo, host: u64 -> bool, s: Sys, head: nat, ps: seq<seq<u32>>, k: nat)
    requires RingInv(info, s) && SendsPackets(info, s, head, ps) && k <= |ps|
    requires var from := head + SdmaStream.Span(ps, k); from < s.wptr <= from + info.NumDwords()
    ensures var from := head + SdmaStream.Span(ps, k);
            Trusted(info, host, s, from, ps[k..]) <==> s.front <= from + info.NumDwords()
  {
    hide Holds, SdmaStream.Span, Concat, PacketLen, DecodesRight, Slot, ArePackets, SdmaStream.Next, TickOf;
    var from := head + SdmaStream.Span(ps, k);
    if s.front <= from + info.NumDwords() {
      InPlaceDecodes(info, host, s, head, ps, k);
      forall step | Rewrites(info, s, step)
        ensures DecodesRight(info, host, Apply(info, host, s, step), from, ps[k..])
      {
        RewriteKeeps(info, host, s, step);
        InPlaceDecodes(info, host, Apply(info, host, s, step), head, ps, k);
      }
    } else {
      PacketAt(info, s, head, ps, k);
      var dw := Spoiler(ps[k], s.wptr - from);
      var step := Write(from + info.NumDwords(), dw);
      OverwriteLands(info, host, s, from, dw);
      RewriteKeeps(info, host, s, step);
      SpoiledWrong(info, host, Apply(info, host, s, step), from, ps[k..]);
    }
  }

  /** A poller that has not fallen behind the engine cannot be overwritten. */
  lemma AheadOfEngine(info: QueueInfo, s: Sys)
    requires RingInv(info, s) && s.rptr <= s.t.st.nextId
    ensures Intact(info, s)
  {
  }

  /** A ring of two dwords: a TRAP published and consumed while the poller was away, and a NOP header already written
      over it but not published. */
  lemma OverwriteSteps() returns (info: QueueInfo, states: seq<Sys>, steps: seq<Step>)
    ensures Behaviour(info, _ => false, states, steps) && |steps| == 6 && info.sdmaVersion == V4 && info.NumDwords() == 2
    ensures |states| == 7
    ensures var s := states[6];
            && s.sent == [OP_TRAP, 0] && s.ring == [0x1_0000, 0] && s.wptr == s.rptr == 2 && s.front == 3
            && s.t.st.nextId == 0 && s.t.st.primed
  {
    hide PacketLen;
    info := QueueInfo(1, 8, 1, V4, 0, [], 0, 0, 0, 0.0);
    var host: u64 -> bool := _ => false;
    var s0 := Sys([0, 0], 0, 0, 0, [], SdmaRuns.Trace(INIT, [], []));
    var s1 := Apply(info, host, s0, DoPoll(0.0, true));
    var s2 := Apply(info, host, s1, Write(0, OP_TRAP));
    var s3 := Apply(info, host, s2, Write(1, 0));
    var s4 := Apply(info, host, s3, Publish(2));
    var s5 := Apply(info, host, s4, Consume(2));
    var s6 := Apply(info, host, s5, Write(2, 0x1_0000));
    states := [s0, s1, s2, s3, s4, s5, s6];
    steps := [DoPoll(0.0, true), Write(0, OP_TRAP), Write(1, 0), Publish(2), Consume(2), Write(2, 0x1_0000)];
  }

  /** The overwrite the guard cannot see: the write pointer is within a ring of what has been decoded, and the poll
      decodes a NOP where a TRAP was published. */
  lemma OverwriteUnseen() returns (info: QueueInfo, states: seq<Sys>, steps: seq<Step>)
    ensures Behaviour(info, _ => false, states, steps) && |states| == 7 && Shaped(info, states[6])
    ensures var s := states[6];
            var v := View(info, _ => false, s);
            && s.wptr <= s.t.st.nextId + info.NumDwords() && !Intact(info, s)
            && BatchParse(V4, s.sent) == [[OP_TRAP, 0]]
            && Walk(v, s.t.st.nextId) == [Taken(0, 2, [0x1_0000, 0])]
  {
    info, states, steps := OverwriteSteps();
    hide Behaviour;
    var s := states[6];
    OneTrap();
    NopRead(info, s);
    hide PacketLen, BatchParse, LookRing;
    var v := View(info, _ => false, s);
    ViewPointers(info, _ => false, s);
    assert Walk(v, 2) == [];
  }

  lemma OneTrap()
    ensures BatchParse(V4, [OP_TRAP, 0]) == [[OP_TRAP, 0]]
  {
    var trap: seq<u32> := [OP_TRAP, 0];
    assert IsPacket(V4, trap);
    assert Concat([trap]) == trap;
    SplitAll(V4, [trap]);
  }

  lemma NopRead(info: QueueInfo, s: Sys)
    requires Shaped(info, s) && info.sdmaVersion == V4 && info.NumDwords() == 2 && s.ring == [0x1_0000, 0] && s.wptr == 2
    ensures View(info, _ => false, s).look(0) == Sized(2, [0x1_0000, 0])
  {
    var m := Memory(s, _ => false);
    var r := ReadRing(info, m, 0, 2).value;
    assert r[0] == m.dword(0, 0) == s.ring[0] && r[1] == m.dword(0, 4) == s.ring[1];
    assert r == [0x1_0000, 0];
  }
}
