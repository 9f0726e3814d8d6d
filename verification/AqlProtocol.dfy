/** The AQL queue protocol around the poller (user-mode queuing and AQL, sections 2.8 and 2.9 of the
    HSA Platform System Architecture Specification): producers reserve ids, write packet bodies in any
    order and publish the header last; the packet processor resets the header and advances the read
    pointer; the poller polls at any moment. A producer may reserve ids ahead of free slots and wait. */
module AqlProtocol {
  import opened Model
  import opened OrderedMap
  import opened Ring
  import opened AqlPackets
  import opened AqlPoll
  import opened AqlRuns

  /** Memory and pointers, what was published under each id, whether the header of the packet at the
      read pointer has been reset, and the poller with everything it has sunk. */
  datatype Sys = Sys(ring: seq<Raw>, wptr: nat, rptr: nat, payload: map<nat, Raw>, reset: bool,
                     q: QState, out: seq<PacketRecord>)

  datatype Step =
    | Reserve
    | Write(id: nat, off: nat, b: u8)
    | Publish(id: nat, type8: u8, flags: u8)
    | Reset(flags: u8)
    | Consume
    | DoPoll(now: real, resolve: u64 -> Bytes)

  function SlotOf(info: QueueInfo, id: nat): nat
    requires info.NumSlots() > 0
  {
    id % info.NumSlots()
  }

  predicate Shaped(info: QueueInfo, s: Sys) {
    info.NumSlots() > 0 && |s.ring| == info.NumSlots()
  }

  function SlotRaw(info: QueueInfo, s: Sys, id: nat): Raw
    requires Shaped(info, s)
  {
    s.ring[SlotOf(info, id)]
  }

  function Memory(s: Sys, resolve: u64 -> Bytes): AqlMemory {
    AqlMemory((off: nat) => if off / PACKET_SIZE < |s.ring| then Some(s.ring[off / PACKET_SIZE]) else None, resolve)
  }

  function View(info: QueueInfo, s: Sys, resolve: u64 -> Bytes): AqlView
    requires s.wptr < U64 && s.rptr < U64
  {
    ViewOf(info, s.wptr, s.rptr, Memory(s, resolve))
  }

  /** The producer of `id` may touch its slot: the slot's previous packet has been consumed. */
  predicate Owned(info: QueueInfo, s: Sys, id: nat) {
    s.rptr <= id < s.wptr && id < s.rptr + info.NumSlots() && id !in s.payload
  }

  predicate Enabled(info: QueueInfo, s: Sys, step: Step) {
    match step
    case Reserve => s.wptr + 1 + info.NumSlots() < U64
    case Write(id, off, b) => Owned(info, s, id) && 2 <= off < 64
    case Publish(id, type8, flags) => Owned(info, s, id) && type8 != INVALID
    case Reset(flags) => s.rptr in s.payload && !s.reset
    case Consume => s.reset
    case DoPoll(now, resolve) => true
  }

  function WithHeader(raw: Raw, type8: u8, flags: u8): Raw {
    raw[0 := type8][1 := flags]
  }

  function Store(info: QueueInfo, s: Sys, id: nat, raw: Raw): Sys
    requires Shaped(info, s)
  {
    s.(ring := s.ring[SlotOf(info, id) := raw])
  }

  /** Enabled in a state whose pointers are 64-bit words over a ring of the right size. */
  predicate Legal(info: QueueInfo, s: Sys, step: Step) {
    Shaped(info, s) && s.wptr < U64 && s.rptr < U64 && Enabled(info, s, step)
  }

  function Apply(info: QueueInfo, s: Sys, step: Step): Sys
    requires Legal(info, s, step)
  {
    match step
    case Reserve => s.(wptr := s.wptr + 1)
    case Write(id, off, b) => Store(info, s, id, SlotRaw(info, s, id)[off := b])
    case Publish(id, type8, flags) =>
      var raw := WithHeader(SlotRaw(info, s, id), type8, flags);
      Store(info, s, id, raw).(payload := s.payload[id := raw])
    case Reset(flags) => Store(info, s, s.rptr, WithHeader(SlotRaw(info, s, s.rptr), INVALID, flags)).(reset := true)
    case Consume => s.(rptr := s.rptr + 1, reset := false)
    case DoPoll(now, resolve) =>
      var o := Poll(info, s.q, Got(View(info, s, resolve)), now);
      s.(q := o.st, out := s.out + o.sunk)
  }

  // ---- What every step keeps ----

  /** The slot of an id in the window [rptr, rptr + slots): its packet once published (body only once the
      header is reset); an invalid header before that, over the previous packet's body until reserved. */
  predicate SlotOk(info: QueueInfo, s: Sys, id: nat)
    requires Shaped(info, s)
  {
    var raw := SlotRaw(info, s, id);
    if id in s.payload && !(id == s.rptr && s.reset)
    then raw == s.payload[id] && HeaderType(raw) != INVALID
    else
      && HeaderType(raw) == INVALID
      && (id in s.payload ==> raw[2..] == s.payload[id][2..])
      && (id >= s.wptr && id >= info.NumSlots() ==>
            id - info.NumSlots() in s.payload && raw[2..] == s.payload[id - info.NumSlots()][2..])
  }

  predicate Books(info: QueueInfo, s: Sys) {
    && s.rptr <= s.wptr && s.wptr + info.NumSlots() < U64
    && (forall id :: id in s.payload ==> id < s.wptr && id < s.rptr + info.NumSlots())
    && (forall id :: 0 <= id < s.rptr ==> id in s.payload)
    && (s.reset ==> s.rptr in s.payload)
  }

  predicate RingInv(info: QueueInfo, s: Sys) {
    && Shaped(info, s) && Books(info, s)
    && forall id :: s.rptr <= id < s.rptr + info.NumSlots() ==> SlotOk(info, s, id)
  }

  lemma OtherSlot(info: QueueInfo, s: Sys, id: nat, other: nat, raw: Raw)
    requires Shaped(info, s) && id != other
    requires s.rptr <= id < s.rptr + info.NumSlots() && s.rptr <= other < s.rptr + info.NumSlots()
    ensures SlotRaw(info, Store(info, s, id, raw), other) == SlotRaw(info, s, other)
    ensures SlotRaw(info, Store(info, s, id, raw), id) == raw
  {
    WindowMod(if id < other then id else other, if id < other then other else id, info.NumSlots());
  }

  lemma StoreKeeps(info: QueueInfo, s: Sys, id: nat, raw: Raw, t: Sys)
    requires RingInv(info, s) && s.rptr <= id < s.rptr + info.NumSlots()
    requires t == Store(info, s, id, raw).(payload := t.payload, reset := t.reset)
    requires Books(info, t) && SlotOk(info, t, id)
    requires forall other :: other in s.payload ==> other in t.payload && t.payload[other] == s.payload[other]
    requires forall other :: other in t.payload ==> other in s.payload || other == id
    requires id == s.rptr || s.reset == t.reset
    ensures RingInv(info, t)
  {
    forall other | s.rptr <= other < s.rptr + info.NumSlots()
      ensures SlotOk(info, t, other)
    {
      if other != id {
        OtherSlot(info, s, id, other, raw);
        assert SlotOk(info, s, other);
      }
    }
  }

  lemma WriteKeeps(info: QueueInfo, s: Sys, id: nat, off: nat, b: u8)
    requires RingInv(info, s) && Enabled(info, s, Write(id, off, b))
    ensures RingInv(info, Apply(info, s, Write(id, off, b)))
  {
    assert SlotOk(info, s, id);
    StoreKeeps(info, s, id, SlotRaw(info, s, id)[off := b], Apply(info, s, Write(id, off, b)));
  }

  lemma PublishKeeps(info: QueueInfo, s: Sys, id: nat, type8: u8, flags: u8)
    requires RingInv(info, s) && Enabled(info, s, Publish(id, type8, flags))
    ensures RingInv(info, Apply(info, s, Publish(id, type8, flags)))
  {
    StoreKeeps(info, s, id, WithHeader(SlotRaw(info, s, id), type8, flags), Apply(info, s, Publish(id, type8, flags)));
  }

  lemma ResetKeeps(info: QueueInfo, s: Sys, flags: u8)
    requires RingInv(info, s) && Enabled(info, s, Reset(flags))
    ensures RingInv(info, Apply(info, s, Reset(flags)))
  {
    assert SlotOk(info, s, s.rptr);
    var raw := SlotRaw(info, s, s.rptr);
    assert WithHeader(raw, INVALID, flags)[2..] == raw[2..];
    StoreKeeps(info, s, s.rptr, WithHeader(raw, INVALID, flags), Apply(info, s, Reset(flags)));
  }

  lemma NextLap(info: QueueInfo, id: nat)
    requires info.NumSlots() > 0
    ensures SlotOf(info, id + info.NumSlots()) == SlotOf(info, id)
  {
    LapsAhead(id, 1, info.NumSlots());
  }

  lemma ConsumeKeeps(info: QueueInfo, s: Sys)
    requires RingInv(info, s) && Enabled(info, s, Consume)
    ensures RingInv(info, Apply(info, s, Consume))
  {
    var t := Apply(info, s, Consume);
    forall id | t.rptr <= id < t.rptr + info.NumSlots()
      ensures SlotOk(info, t, id)
    {
      if id < s.rptr + info.NumSlots() {
        assert SlotOk(info, s, id);
      } else {
        NextLap(info, s.rptr);
        assert SlotOk(info, s, s.rptr);
      }
    }
  }

  lemma ReserveKeeps(info: QueueInfo, s: Sys)
    requires RingInv(info, s) && Enabled(info, s, Reserve)
    ensures RingInv(info, Apply(info, s, Reserve))
  {
    var t := Apply(info, s, Reserve);
    forall id | t.rptr <= id < t.rptr + info.NumSlots()
      ensures SlotOk(info, t, id)
    {
      assert SlotOk(info, s, id);
    }
  }

  /** The ring discipline is an invariant of every step. */
  lemma StepKeepsRing(info: QueueInfo, s: Sys, step: Step)
    requires RingInv(info, s) && Enabled(info, s, step)
    ensures RingInv(info, Apply(info, s, step))
  {
    match step
    case Reserve => ReserveKeeps(info, s);
    case Write(id, off, b) => WriteKeeps(info, s, id, off, b);
    case Publish(id, type8, flags) => PublishKeeps(info, s, id, type8, flags);
    case Reset(flags) => ResetKeeps(info, s, flags);
    case Consume => ConsumeKeeps(info, s);
    case DoPoll(now, resolve) =>
      var t := Apply(info, s, step);
      forall id | t.rptr <= id < t.rptr + info.NumSlots()
        ensures SlotOk(info, t, id)
      {
        assert SlotOk(info, s, id);
      }
  }

  // ---- What a poll decodes ----

  /** The record of a packet seen pending: everything its published bytes say, type included. */
  predicate CarriesPending(r: PacketRecord, raw: Raw) {
    && r.ptype == HeaderType(raw) && r.barrier == HeaderBarrier(raw)
    && r.dispatch == (if HeaderType(raw) == KERNEL_DISPATCH then Body(raw) else NO_DISPATCH)
  }

  /** The record of a packet first seen after its header was reset: the published body, under the type the
      poller assumes. */
  predicate CarriesReset(r: PacketRecord, raw: Raw) {
    && r.ptype == KERNEL_DISPATCH && !r.barrier
    && r.dispatch == Body(raw) && r.dispatch.kernelObject != 0
  }

  /** The id of the window [rptr, rptr + slots) that occupies the slot of `id`. */
  function Owner(info: QueueInfo, s: Sys, id: nat): nat
    requires info.NumSlots() > 0
  {
    s.rptr + (id - s.rptr) % info.NumSlots()
  }

  lemma OwnerIs(info: QueueInfo, s: Sys, id: nat)
    requires info.NumSlots() > 0 && s.rptr <= id
    ensures var o := Owner(info, s, id);
            && s.rptr <= o < s.rptr + info.NumSlots()
            && SlotOf(info, o) == SlotOf(info, id)
            && (o == id <==> id < s.rptr + info.NumSlots())
  {
    Remainder(s.rptr, id - s.rptr, info.NumSlots());
  }

  lemma SlotRead(info: QueueInfo, s: Sys, resolve: u64 -> Bytes, id: u64)
    requires Shaped(info, s) && s.wptr < U64 && s.rptr < U64
    ensures View(info, s, resolve).slot(id) == DecodeRaw(id < s.rptr, SlotRaw(info, s, id), resolve)
  {
    assert SlotOffset(info, id) / PACKET_SIZE == SlotOf(info, id);
  }

  /** A consumed id still inside the overrun window decodes, if at all, to its own published body. */
  lemma DecodesConsumed(info: QueueInfo, s: Sys, resolve: u64 -> Bytes, id: u64)
    requires RingInv(info, s) && id < s.rptr && s.wptr <= id + info.NumSlots()
    ensures id in s.payload
    ensures View(info, s, resolve).slot(id) ==
            if Body(s.payload[id]).kernelObject != 0 then Some(Synthesised(s.payload[id], resolve)) else None
  {
    SlotRead(info, s, resolve, id);
    NextLap(info, id);
    assert SlotOk(info, s, id + info.NumSlots());
    BodyIgnoresHeader(SlotRaw(info, s, id), s.payload[id]);
  }

  /** An unconsumed id decodes, if at all, to the packet published by the owner of its slot. */
  lemma DecodesOwner(info: QueueInfo, s: Sys, resolve: u64 -> Bytes, id: u64)
    requires RingInv(info, s) && s.rptr <= id
    ensures var o, p := Owner(info, s, id), View(info, s, resolve).slot(id);
            && (p.Some? <==> HeaderType(SlotRaw(info, s, id)) != INVALID)
            && (p.Some? ==> o in s.payload && p == Some(Published(s.payload[o], resolve)))
  {
    SlotRead(info, s, resolve, id);
    OwnerIs(info, s, id);
    assert SlotOk(info, s, Owner(info, s, id));
  }

  // ---- The poller inside the protocol ----

  predicate PollerInv(info: QueueInfo, s: Sys) {
    if s.q.primed
    then Keyed(s.q) && |s.q.inflight| + s.q.dropped <= s.q.nextId <= s.wptr
    else s.q == INIT && s.out == []
  }

  lemma PollerRoomy(info: QueueInfo, s: Sys)
    requires Books(info, s) && PollerInv(info, s) && s.q.primed
    ensures Keyed(s.q) && Roomy(info, s.q, s.wptr)
  {
  }

  lemma StepKeepsPoller(info: QueueInfo, s: Sys, step: Step)
    requires RingInv(info, s) && PollerInv(info, s) && Enabled(info, s, step)
    ensures PollerInv(info, Apply(info, s, step))
  {
    if step.DoPoll? && s.q.primed {
      PollerRoomy(info, s);
      PollConserves(info, s.q, View(info, s, step.resolve), step.now);
      KeptIds(info, s.q, View(info, s, step.resolve), step.now);
      PollShape(info, s.q, View(info, s, step.resolve), step.now);
    }
  }

  /** Whatever producers reserve, a poll files under each unconsumed id the packet published by the owner of
      its slot, which is that id itself exactly when it is below rptr + slots. */
  lemma EntryCarriesOwner(info: QueueInfo, s: Sys, now: real, resolve: u64 -> Bytes, i: nat)
    requires RingInv(info, s) && PollerInv(info, s) && s.q.primed
    requires i < |Added(info, s.q, View(info, s, resolve), now)|
    ensures var e := Added(info, s.q, View(info, s, resolve), now)[i];
            && s.rptr <= e.key < s.wptr
            && var o := Owner(info, s, e.key);
               && o in s.payload && CarriesPending(e.val, s.payload[o])
               && (o == e.key <==> e.key < s.rptr + info.NumSlots())
               && (o == e.key <==> e.key in s.payload)
  {
    var v := View(info, s, resolve);
    PollerRoomy(info, s);
    AddedEntry(info, s.q, v, now, i);
    FromTo(info, s.q, v);
    var e := Added(info, s.q, v, now)[i];
    DecodesOwner(info, s, resolve, e.key);
    OwnerIs(info, s, e.key);
  }

  /** A record first seen consumed carries the body published under its own id: the overrun guard leaves
      no id whose slot may have been written again. */
  lemma FreshCarries(info: QueueInfo, s: Sys, now: real, resolve: u64 -> Bytes, i: nat)
    requires RingInv(info, s) && PollerInv(info, s) && s.q.primed
    requires i < |FreshBatch(info, s.q, View(info, s, resolve), now)|
    ensures var r := FreshBatch(info, s.q, View(info, s, resolve), now)[i];
            r.dispatchId in s.payload && CarriesReset(r, s.payload[r.dispatchId])
  {
    var v := View(info, s, resolve);
    PollerRoomy(info, s);
    FreshIds(info, s.q, v, now);
    FromTo(info, s.q, v);
    var from := From(info, s.q, v);
    FreshPartition(info, v, now, from, Consumed(from, v));
    FreshRecord(info, v, now, from, Consumed(from, v), i);
    DecodesConsumed(info, s, resolve, FreshBatch(info, s.q, v, now)[i].dispatchId);
  }

  // ---- What a reset header hides ----

  /** The ids a poll first sees after their header was reset and can still decode. */
  predicate SeenReset(info: QueueInfo, s: Sys, id: nat)
    requires RingInv(info, s)
  {
    && From(info, s.q, View(info, s, _ => [])) <= id < s.rptr
    && id in s.payload && U64At(s.payload[id], 32) != 0
  }

  lemma FreshAre(info: QueueInfo, s: Sys, now: real, resolve: u64 -> Bytes, id: u64)
    requires RingInv(info, s) && PollerInv(info, s) && s.q.primed
    ensures HasId(FreshBatch(info, s.q, View(info, s, resolve), now), id) <==> SeenReset(info, s, id)
  {
    hide HasId, U64At, Fresh, SlotOk, Keyed;
    var v := View(info, s, resolve);
    var from := From(info, s.q, v);
    assert from == From(info, s.q, View(info, s, _ => []));
    PollerRoomy(info, s);
    FromTo(info, s.q, v);
    FreshMember(info, v, now, from, Consumed(from, v), id);
    if from <= id < s.rptr {
      DecodesConsumed(info, s, resolve, id);
    }
  }

  /** Some record sunk by the poll is of an id whose published packet has a property. */
  predicate SinksFresh(info: QueueInfo, s: Sys, now: real, resolve: u64 -> Bytes, p: Raw -> bool)
    requires RingInv(info, s)
  {
    var f := FreshBatch(info, s.q, View(info, s, resolve), now);
    exists i :: 0 <= i < |f| && f[i].dispatchId in s.payload && p(s.payload[f[i].dispatchId])
  }

  lemma SinksFreshWhen(info: QueueInfo, s: Sys, now: real, resolve: u64 -> Bytes, p: Raw -> bool)
    requires RingInv(info, s) && PollerInv(info, s) && s.q.primed
    ensures SinksFresh(info, s, now, resolve, p) <==> exists id: nat :: SeenReset(info, s, id) && p(s.payload[id])
  {
    hide SlotOk, PollerInv, FreshBatch;
    var f := FreshBatch(info, s.q, View(info, s, resolve), now);
    if SinksFresh(info, s, now, resolve, p) {
      var i :| 0 <= i < |f| && f[i].dispatchId in s.payload && p(s.payload[f[i].dispatchId]);
      assert HasId(f, f[i].dispatchId);
      FreshAre(info, s, now, resolve, f[i].dispatchId);
    }
    if id: nat :| SeenReset(info, s, id) && p(s.payload[id]) {
      ConsumedWord(info, s, id);
      FreshAre(info, s, now, resolve, id);
      var i :| 0 <= i < |f| && f[i].dispatchId == id;
      assert f[i].dispatchId in s.payload;
    }
  }

  lemma ConsumedWord(info: QueueInfo, s: Sys, id: nat)
    requires RingInv(info, s) && id < s.rptr
    ensures id < U64
  {
  }

  /** The poll sinks a record whose type is not the published one. */
  predicate Mistypes(info: QueueInfo, s: Sys, now: real, resolve: u64 -> Bytes)
    requires RingInv(info, s)
  {
    var f := FreshBatch(info, s.q, View(info, s, resolve), now);
    exists i :: 0 <= i < |f| && f[i].dispatchId in s.payload && f[i].ptype != HeaderType(s.payload[f[i].dispatchId])
  }

  /** The poll sinks a record whose barrier flag is not the published one. */
  predicate LosesBarrier(info: QueueInfo, s: Sys, now: real, resolve: u64 -> Bytes)
    requires RingInv(info, s)
  {
    var f := FreshBatch(info, s.q, View(info, s, resolve), now);
    exists i :: 0 <= i < |f| && f[i].dispatchId in s.payload && f[i].barrier != HeaderBarrier(s.payload[f[i].dispatchId])
  }

  /** A fast-reset record is mistyped exactly when some id the poll resumes below the read pointer was published with
      another type and a non-zero word where a dispatch has its kernel handle. */
  lemma MistypesWhen(info: QueueInfo, s: Sys, now: real, resolve: u64 -> Bytes)
    requires RingInv(info, s) && PollerInv(info, s) && s.q.primed
    ensures Mistypes(info, s, now, resolve) <==>
            exists id: nat :: SeenReset(info, s, id) && HeaderType(s.payload[id]) != KERNEL_DISPATCH
  {
    hide SlotOk, PollerInv, FreshBatch, SeenReset;
    var f := FreshBatch(info, s.q, View(info, s, resolve), now);
    forall i | 0 <= i < |f|
      ensures f[i].dispatchId in s.payload && f[i].ptype == KERNEL_DISPATCH
    {
      FreshCarries(info, s, now, resolve, i);
    }
    SinksFreshWhen(info, s, now, resolve, (raw: Raw) => HeaderType(raw) != KERNEL_DISPATCH);
  }

  /** And it loses its barrier flag exactly when that flag was published with such a word. */
  lemma LosesBarrierWhen(info: QueueInfo, s: Sys, now: real, resolve: u64 -> Bytes)
    requires RingInv(info, s) && PollerInv(info, s) && s.q.primed
    ensures LosesBarrier(info, s, now, resolve) <==>
            exists id: nat :: SeenReset(info, s, id) && HeaderBarrier(s.payload[id])
  {
    hide SlotOk, PollerInv, FreshBatch, SeenReset;
    var f := FreshBatch(info, s.q, View(info, s, resolve), now);
    forall i | 0 <= i < |f|
      ensures f[i].dispatchId in s.payload && !f[i].barrier
    {
      FreshCarries(info, s, now, resolve, i);
    }
    SinksFreshWhen(info, s, now, resolve, (raw: Raw) => HeaderBarrier(raw));
  }

  // ---- Behaviours ----

  /** A fresh queue: nothing reserved, every header invalid, the poller not started. */
  predicate Initial(info: QueueInfo, s: Sys) {
    && Shaped(info, s) && s.wptr == s.rptr == 0 && s.payload == map[] && !s.reset
    && s.q == INIT && s.out == []
    && forall j :: 0 <= j < |s.ring| ==> HeaderType(s.ring[j]) == INVALID
  }

  lemma InitialInv(info: QueueInfo, s: Sys)
    requires Initial(info, s)
    ensures RingInv(info, s) && PollerInv(info, s)
  {
  }

  /** A run of the protocol from a fresh queue. */
  predicate Behaviour(info: QueueInfo, states: seq<Sys>, steps: seq<Step>) {
    && |states| == |steps| + 1 && Initial(info, states[0])
    && forall i :: 0 <= i < |steps| ==> Legal(info, states[i], steps[i]) && states[i + 1] == Apply(info, states[i], steps[i])
  }

  lemma {:induction false} InvariantsHold(info: QueueInfo, states: seq<Sys>, steps: seq<Step>, n: nat)
    requires Behaviour(info, states, steps) && n <= |steps|
    ensures RingInv(info, states[n]) && PollerInv(info, states[n])
  {
    if n == 0 {
      InitialInv(info, states[0]);
    } else {
      InvariantsHold(info, states, steps, n - 1);
      StepKeepsRing(info, states[n - 1], steps[n - 1]);
      StepKeepsPoller(info, states[n - 1], steps[n - 1]);
    }
  }

  // ---- Reservations that run ahead ----

  /** The first id whose slot still belongs to an earlier packet, as far as a poll can get. */
  function FirstForeign(info: QueueInfo, s: Sys): nat
    requires RingInv(info, s) && PollerInv(info, s) && s.q.primed
  {
    Max(From(info, s.q, View(info, s, _ => [])), s.rptr + info.NumSlots())
  }

  /** What the pointers and headers look like when a poll will misfile: a reserved id a whole ring or more
      above the read pointer, and no invalid header between where the poll resumes and that id. */
  predicate RunsAhead(info: QueueInfo, s: Sys)
    requires RingInv(info, s) && PollerInv(info, s) && s.q.primed
  {
    var from := From(info, s.q, View(info, s, _ => []));
    && FirstForeign(info, s) < s.wptr
    && forall id :: Max(from, s.rptr) <= id <= FirstForeign(info, s) ==> HeaderType(SlotRaw(info, s, id)) != INVALID
  }

  predicate Misfiles(info: QueueInfo, s: Sys, now: real, resolve: u64 -> Bytes)
    requires RingInv(info, s)
  {
    var a := Added(info, s.q, View(info, s, resolve), now);
    exists i :: 0 <= i < |a| && a[i].key !in s.payload
  }

  lemma MisfilesOnlyAhead(info: QueueInfo, s: Sys, now: real, resolve: u64 -> Bytes, i: nat)
    requires RingInv(info, s) && PollerInv(info, s) && s.q.primed
    requires i < |Added(info, s.q, View(info, s, resolve), now)|
    requires Added(info, s.q, View(info, s, resolve), now)[i].key !in s.payload
    ensures RunsAhead(info, s)
  {
    var v, first := View(info, s, resolve), FirstForeign(info, s);
    var from := From(info, s.q, v);
    assert from == From(info, s.q, View(info, s, _ => []));
    PollerRoomy(info, s);
    EntryCarriesOwner(info, s, now, resolve, i);
    AddedRange(info, s.q, v, now);
    FromTo(info, s.q, v);
    StopIs(v, Consumed(from, v));
    forall id | Max(from, s.rptr) <= id <= first
      ensures HeaderType(SlotRaw(info, s, id)) != INVALID
    {
      DecodesOwner(info, s, resolve, id);
    }
  }

  lemma AheadMisfiles(info: QueueInfo, s: Sys, now: real, resolve: u64 -> Bytes)
    requires RingInv(info, s) && PollerInv(info, s) && s.q.primed && RunsAhead(info, s)
    ensures Misfiles(info, s, now, resolve)
  {
    var v, first := View(info, s, resolve), FirstForeign(info, s);
    var from := From(info, s.q, v);
    assert from == From(info, s.q, View(info, s, _ => []));
    var mid := Consumed(from, v);
    PollerRoomy(info, s);
    FromTo(info, s.q, v);
    StopIs(v, mid);
    var to := To(info, s.q, v);
    if to <= first {
      DecodesOwner(info, s, resolve, to);
    }
    AddedRange(info, s.q, v, now);
    assert Added(info, s.q, v, now)[first - mid].key == first;
  }

  /** A poll files a record under an id nothing was published for exactly when reservations run ahead. */
  lemma MisfilesWhen(info: QueueInfo, s: Sys, now: real, resolve: u64 -> Bytes)
    requires RingInv(info, s) && PollerInv(info, s) && s.q.primed
    ensures Misfiles(info, s, now, resolve) <==> RunsAhead(info, s)
  {
    if Misfiles(info, s, now, resolve) {
      var a := Added(info, s.q, View(info, s, resolve), now);
      var i :| 0 <= i < |a| && a[i].key !in s.payload;
      MisfilesOnlyAhead(info, s, now, resolve, i);
    }
    if RunsAhead(info, s) {
      AheadMisfiles(info, s, now, resolve);
    }
  }

  /** In particular never within a ring of the read pointer. */
  lemma NeverMisfilesBounded(info: QueueInfo, s: Sys, now: real, resolve: u64 -> Bytes)
    requires RingInv(info, s) && PollerInv(info, s) && s.q.primed && s.wptr <= s.rptr + info.NumSlots()
    ensures !Misfiles(info, s, now, resolve)
  {
    MisfilesWhen(info, s, now, resolve);
  }

  // ---- Payload integrity ----

  /** Every record in flight or sunk carries exactly what was published under its id. */
  predicate Integrity(s: Sys) {
    && (forall j :: 0 <= j < |s.q.inflight| ==> EntryOk(s, s.q.inflight[j]))
    && (forall i :: 0 <= i < |s.out| ==> RecordOk(s, s.out[i]))
  }

  predicate EntryOk(s: Sys, e: Entry<PacketRecord>) {
    e.key in s.payload && CarriesPending(e.val, s.payload[e.key])
  }

  predicate RecordOk(s: Sys, r: PacketRecord) {
    r.dispatchId in s.payload &&
    (CarriesPending(r, s.payload[r.dispatchId]) || CarriesReset(r, s.payload[r.dispatchId]))
  }

  lemma PollKeepsEntries(info: QueueInfo, s: Sys, now: real, resolve: u64 -> Bytes, j: nat)
    requires RingInv(info, s) && PollerInv(info, s) && s.q.primed && Integrity(s)
    requires !Misfiles(info, s, now, resolve)
    requires j < |Apply(info, s, DoPoll(now, resolve)).q.inflight|
    ensures EntryOk(s, Apply(info, s, DoPoll(now, resolve)).q.inflight[j])
  {
    hide Poll, Added, Due, Keyed, Roomy, CarriesPending, SlotOk;
    var v := View(info, s, resolve);
    PollerRoomy(info, s);
    KeptOrAdded(info, s.q, v, now, j);
    var kept := |s.q.inflight| - Due(s.q.inflight, v.rptr);
    if j >= kept {
      EntryCarriesOwner(info, s, now, resolve, j - kept);
      assert Added(info, s.q, v, now)[j - kept].key in s.payload;
    }
  }

  lemma PollKeepsRecords(info: QueueInfo, s: Sys, now: real, resolve: u64 -> Bytes, i: nat)
    requires RingInv(info, s) && PollerInv(info, s) && s.q.primed && Integrity(s)
    requires i < |Poll(info, s.q, Got(View(info, s, resolve)), now).sunk|
    ensures RecordOk(s, Poll(info, s.q, Got(View(info, s, resolve)), now).sunk[i])
  {
    var v := View(info, s, resolve);
    PollerRoomy(info, s);
    PollBatches(info, s.q, v, now);
    var f := FreshBatch(info, s.q, v, now);
    if i < |f| {
      FreshCarries(info, s, now, resolve, i);
    } else {
      RetiredFrom(s.q, v, now);
    }
  }

  lemma PollKeepsIntegrity(info: QueueInfo, s: Sys, now: real, resolve: u64 -> Bytes)
    requires RingInv(info, s) && PollerInv(info, s) && s.q.primed && Integrity(s)
    requires !Misfiles(info, s, now, resolve)
    ensures Integrity(Apply(info, s, DoPoll(now, resolve)))
  {
    hide Poll, SlotOk, PollerInv, Misfiles, CarriesPending, CarriesReset;
    var t := Apply(info, s, DoPoll(now, resolve));
    forall j | 0 <= j < |t.q.inflight|
      ensures EntryOk(t, t.q.inflight[j])
    {
      PollKeepsEntries(info, s, now, resolve, j);
    }
    PollKeepsOut(info, s, now, resolve);
    forall i | 0 <= i < |t.out|
      ensures RecordOk(t, t.out[i])
    {
      assert RecordOk(s, t.out[i]);
    }
  }

  /** A misfiled entry is put in flight under an id nothing was published for. */
  lemma MisfiledStays(info: QueueInfo, s: Sys, now: real, resolve: u64 -> Bytes)
    requires RingInv(info, s) && PollerInv(info, s) && s.q.primed && Misfiles(info, s, now, resolve)
    ensures !Integrity(Apply(info, s, DoPoll(now, resolve)))
  {
    hide Poll, Added, Due, Keyed, Roomy, CarriesPending, SlotOk;
    var v := View(info, s, resolve);
    var a, t := Added(info, s.q, v, now), Apply(info, s, DoPoll(now, resolve));
    var i :| 0 <= i < |a| && a[i].key !in s.payload;
    PollerRoomy(info, s);
    PollShape(info, s.q, v, now);
    var kept := |s.q.inflight| - Due(s.q.inflight, v.rptr);
    assert t.q.inflight[kept + i] == a[i];
    assert !EntryOk(t, t.q.inflight[kept + i]);
  }

  /** A poll keeps payload integrity exactly when reservations do not run ahead. */
  lemma PollIntegrityWhen(info: QueueInfo, s: Sys, now: real, resolve: u64 -> Bytes)
    requires RingInv(info, s) && PollerInv(info, s) && s.q.primed && Integrity(s)
    ensures Integrity(Apply(info, s, DoPoll(now, resolve))) <==> !RunsAhead(info, s)
  {
    hide RingInv, PollerInv, Integrity, Misfiles, RunsAhead, Apply;
    MisfilesWhen(info, s, now, resolve);
    if Misfiles(info, s, now, resolve) {
      MisfiledStays(info, s, now, resolve);
    } else {
      PollKeepsIntegrity(info, s, now, resolve);
    }
  }

  lemma PollKeepsOut(info: QueueInfo, s: Sys, now: real, resolve: u64 -> Bytes)
    requires RingInv(info, s) && PollerInv(info, s) && s.q.primed && Integrity(s)
    ensures var out := s.out + Poll(info, s.q, Got(View(info, s, resolve)), now).sunk;
            forall i :: 0 <= i < |out| ==> RecordOk(s, out[i])
  {
    var sunk := Poll(info, s.q, Got(View(info, s, resolve)), now).sunk;
    forall i | 0 <= i < |sunk|
      ensures RecordOk(s, sunk[i])
    {
      PollKeepsRecords(info, s, now, resolve, i);
    }
  }

  lemma OutKept(s: Sys, t: Sys)
    requires Integrity(s) && t.q.inflight == s.q.inflight && t.out == s.out
    requires forall id :: id in s.payload ==> id in t.payload && t.payload[id] == s.payload[id]
    ensures Integrity(t)
  {
    forall i | 0 <= i < |t.out|
      ensures RecordOk(t, t.out[i])
    {
      assert RecordOk(s, s.out[i]);
    }
  }

  /** Every other step, and the priming poll, keeps integrity in any case. */
  lemma OtherStepKeeps(info: QueueInfo, s: Sys, step: Step)
    requires RingInv(info, s) && PollerInv(info, s) && Integrity(s) && Legal(info, s, step)
    requires !(step.DoPoll? && s.q.primed)
    ensures Integrity(Apply(info, s, step))
  {
    hide CarriesPending, CarriesReset, SlotOk;
    OutKept(s, Apply(info, s, step));
  }

  /** A poll taken while reservations run ahead. */
  predicate AheadPoll(info: QueueInfo, s: Sys, step: Step)
    requires RingInv(info, s) && PollerInv(info, s)
  {
    step.DoPoll? && s.q.primed && RunsAhead(info, s)
  }

  /** No step up to the n-th was such a poll. */
  ghost predicate NeverAhead(info: QueueInfo, states: seq<Sys>, steps: seq<Step>, n: nat)
    requires Behaviour(info, states, steps) && n <= |steps|
  {
    forall i :: 0 <= i < n ==>
      (InvariantsHold(info, states, steps, i); !AheadPoll(info, states[i], steps[i]))
  }

  ghost predicate IntegrityUpTo(states: seq<Sys>, n: nat)
    requires n < |states|
  {
    forall i :: 0 <= i <= n ==> Integrity(states[i])
  }

  lemma StepIntegrityWhen(info: QueueInfo, s: Sys, step: Step)
    requires RingInv(info, s) && PollerInv(info, s) && Integrity(s) && Legal(info, s, step)
    ensures Integrity(Apply(info, s, step)) <==> !AheadPoll(info, s, step)
  {
    hide RingInv, PollerInv, Integrity, RunsAhead, Apply;
    if step.DoPoll? && s.q.primed {
      PollIntegrityWhen(info, s, step.now, step.resolve);
    } else {
      OtherStepKeeps(info, s, step);
    }
  }

  /** In every interleaving of reserve, write, publish, reset, consume and poll, at every point: all records so far,
      in flight or sunk, have at every moment carried exactly what was published under their id if and only if
      no poll was taken while reservations ran ahead. */
  lemma {:induction false} IntegrityWhen(info: QueueInfo, states: seq<Sys>, steps: seq<Step>, n: nat)
    requires Behaviour(info, states, steps) && n <= |steps|
    ensures IntegrityUpTo(states, n) <==> NeverAhead(info, states, steps, n)
  {
    hide RingInv, PollerInv, Integrity, AheadPoll, Apply, Initial, Legal;
    if n == 0 {
      InitialIntegrity(info, states[0]);
    } else {
      var s, step := states[n - 1], steps[n - 1];
      IntegrityWhen(info, states, steps, n - 1);
      InvariantsHold(info, states, steps, n - 1);
      assert Legal(info, s, step) && states[n] == Apply(info, s, step);
      UpToNext(states, n);
      NeverNext(info, states, steps, n);
      if Integrity(s) {
        StepIntegrityWhen(info, s, step);
      }
    }
  }

  lemma UpToNext(states: seq<Sys>, n: nat)
    requires 0 < n < |states|
    ensures IntegrityUpTo(states, n) <==> IntegrityUpTo(states, n - 1) && Integrity(states[n])
    ensures IntegrityUpTo(states, n - 1) ==> Integrity(states[n - 1])
  {
    hide Integrity;
  }

  lemma NeverNext(info: QueueInfo, states: seq<Sys>, steps: seq<Step>, n: nat)
    requires Behaviour(info, states, steps) && 0 < n <= |steps|
    requires RingInv(info, states[n - 1]) && PollerInv(info, states[n - 1])
    ensures NeverAhead(info, states, steps, n) <==>
            NeverAhead(info, states, steps, n - 1) && !AheadPoll(info, states[n - 1], steps[n - 1])
  {
    hide AheadPoll, RingInv, PollerInv, Initial, Legal, Apply;
  }

  lemma InitialIntegrity(info: QueueInfo, s: Sys)
    requires Initial(info, s)
    ensures Integrity(s)
  {
  }

  /** Reservations stay within one ring of the read pointer whenever the poller polls. */
  predicate BoundedPolls(info: QueueInfo, states: seq<Sys>, steps: seq<Step>)
    requires |states| == |steps| + 1
  {
    forall i :: 0 <= i < |steps| && steps[i].DoPoll? ==> states[i].wptr <= states[i].rptr + info.NumSlots()
  }

  /** In particular when no poll sees more than a ring of unconsumed ids. */
  lemma PayloadIntegrity(info: QueueInfo, states: seq<Sys>, steps: seq<Step>, n: nat)
    requires Behaviour(info, states, steps) && BoundedPolls(info, states, steps) && n <= |steps|
    ensures Integrity(states[n])
  {
    hide RingInv, PollerInv, Integrity, Apply, Initial, Legal;
    forall i | 0 <= i < n
      ensures (InvariantsHold(info, states, steps, i); !AheadPoll(info, states[i], steps[i]))
    {
      InvariantsHold(info, states, steps, i);
      BoundedNotAhead(info, states[i], steps[i]);
    }
    IntegrityWhen(info, states, steps, n);
  }

  lemma BoundedNotAhead(info: QueueInfo, s: Sys, step: Step)
    requires RingInv(info, s) && PollerInv(info, s)
    requires step.DoPoll? ==> s.wptr <= s.rptr + info.NumSlots()
    ensures !AheadPoll(info, s, step)
  {
  }

  // ---- A run that gets there ----

  /** One slot; the packet of id 0 published and not consumed, id 1 reserved and waiting. */
  lemma RunAheadSteps() returns (info: QueueInfo, states: seq<Sys>, steps: seq<Step>)
    ensures Behaviour(info, states, steps) && |steps| == 4
    ensures info.NumSlots() == 1 && Shaped(info, states[4])
    ensures states[4].wptr == 2 && states[4].rptr == states[4].q.nextId == 0 && states[4].q.primed
    ensures HeaderType(states[4].ring[0]) == KERNEL_DISPATCH
  {
    info := QueueInfo(1, 64, 2, Unknown, 0, [], 0, 0, 0, 0.0);
    var empty: Raw := seq(64, i => if i == 0 then INVALID else 0);
    var s0 := Sys([empty], 0, 0, map[], false, INIT, []);
    var s1 := Apply(info, s0, DoPoll(0.0, _ => []));
    var s2 := Apply(info, s1, Reserve);
    var s3 := Apply(info, s2, Publish(0, KERNEL_DISPATCH, 0));
    var s4 := Apply(info, s3, Reserve);
    states := [s0, s1, s2, s3, s4];
    steps := [DoPoll(0.0, _ => []), Reserve, Publish(0, KERNEL_DISPATCH, 0), Reserve];
  }

  lemma OneSlot(info: QueueInfo, id: nat)
    requires info.NumSlots() == 1
    ensures SlotOf(info, id) == 0
  {
  }

  /** It happens: a poll of a reachable state files a record under an id nothing was published for. */
  lemma RunAheadReachable() returns (info: QueueInfo, states: seq<Sys>, steps: seq<Step>)
    ensures Behaviour(info, states, steps) && |steps| == 4
    ensures RingInv(info, states[4]) && PollerInv(info, states[4]) && states[4].q.primed
    ensures RunsAhead(info, states[4]) && Misfiles(info, states[4], 1.0, _ => [])
  {
    hide Behaviour, RingInv, PollerInv, Misfiles, View, From, Keyed, Roomy, Books;
    info, states, steps := RunAheadSteps();
    var s4 := states[4];
    InvariantsHold(info, states, steps, 4);
    RunAheadHere(info, s4);
    AheadMisfiles(info, s4, 1.0, _ => []);
  }

  lemma RunAheadHere(info: QueueInfo, s: Sys)
    requires RingInv(info, s) && PollerInv(info, s) && s.q.primed && info.NumSlots() == 1
    requires s.wptr == 2 && s.rptr == s.q.nextId == 0 && HeaderType(s.ring[0]) == KERNEL_DISPATCH
    ensures RunsAhead(info, s)
  {
    PollerRoomy(info, s);
    FromTo(info, s.q, View(info, s, _ => []));
    forall id: nat
      ensures SlotRaw(info, s, id) == s.ring[0]
    {
      OneSlot(info, id);
    }
  }

  lemma PrimingPoll(info: QueueInfo, s: Sys, now: real, resolve: u64 -> Bytes)
    requires Shaped(info, s) && s.wptr < U64 && s.rptr < U64 && s.q == INIT && s.out == []
    ensures Apply(info, s, DoPoll(now, resolve)) == s.(q := Prime(INIT, s.wptr, s.rptr))
  {
  }

  /** One slot; a barrier packet with a signal in the word at offset 32, published with its barrier flag and consumed
      before the poller looks again. */
  lemma BarrierSteps() returns (info: QueueInfo, states: seq<Sys>, steps: seq<Step>)
    ensures Behaviour(info, states, steps) && |steps| == 6 && |states| == 7 && info.NumSlots() == 1
    ensures var s := states[6];
            && s.q.primed && s.q.nextId == s.q.dropped == 0 && s.wptr == s.rptr == 1 && s.payload.Keys == {0}
            && HeaderType(s.payload[0]) == BARRIER_AND && HeaderBarrier(s.payload[0]) && s.payload[0][32] == 1
  {
    hide Poll, View;
    info := QueueInfo(1, 64, 2, Unknown, 0, [], 0, 0, 0, 0.0);
    var empty: Raw := seq(64, i => if i == 0 then INVALID else 0);
    var s0 := Sys([empty], 0, 0, map[], false, INIT, []);
    PrimingPoll(info, s0, 0.0, _ => []);
    var s1 := Apply(info, s0, DoPoll(0.0, _ => []));
    var s2 := Apply(info, s1, Reserve);
    var s3 := Apply(info, s2, Write(0, 32, 1));
    var s4 := Apply(info, s3, Publish(0, BARRIER_AND, 1));
    var s5 := Apply(info, s4, Reset(0));
    var s6 := Apply(info, s5, Consume);
    states := [s0, s1, s2, s3, s4, s5, s6];
    steps := [DoPoll(0.0, _ => []), Reserve, Write(0, 32, 1), Publish(0, BARRIER_AND, 1), Reset(0), Consume];
  }

  /** It happens: the next poll reports the barrier packet as a kernel dispatch without a barrier. */
  lemma MistypeReachable() returns (info: QueueInfo, states: seq<Sys>, steps: seq<Step>)
    ensures Behaviour(info, states, steps) && |states| == 7
    ensures RingInv(info, states[6]) && PollerInv(info, states[6]) && states[6].q.primed
    ensures Mistypes(info, states[6], 1.0, _ => []) && LosesBarrier(info, states[6], 1.0, _ => [])
  {
    hide Behaviour, RingInv, PollerInv, Mistypes, LosesBarrier, View, From, Keyed, Roomy, Books;
    info, states, steps := BarrierSteps();
    var s := states[6];
    InvariantsHold(info, states, steps, 6);
    BarrierSeenReset(info, s);
    MistypesWhen(info, s, 1.0, _ => []);
    LosesBarrierWhen(info, s, 1.0, _ => []);
  }

  lemma BarrierSeenReset(info: QueueInfo, s: Sys)
    requires RingInv(info, s) && PollerInv(info, s) && s.q.primed && info.NumSlots() == 1
    requires s.q.nextId == 0 && s.wptr == s.rptr == 1 && 0 in s.payload && s.payload[0][32] == 1
    ensures SeenReset(info, s, 0)
  {
    PollerRoomy(info, s);
    FromTo(info, s.q, View(info, s, _ => []));
    WordNotZero(s.payload[0]);
  }

  lemma WordNotZero(raw: Raw)
    requires raw[32] == 1
    ensures U64At(raw, 32) != 0
  {
  }
}
