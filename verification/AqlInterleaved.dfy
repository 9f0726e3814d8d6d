/** An AQL poll is not one step: RingParser::PollQueue (src/parser.cpp) reads the write pointer, the read pointer and
    then one slot after the other, while producers and the packet processor go on. Here each of these reads has
    its own moment in a behaviour of the queue. */
module AqlInterleaved {
  import opened Model
  import opened OrderedMap
  import opened Sequences
  import opened Ring
  import opened AqlPackets
  import opened AqlPoll
  import opened AqlRuns
  import opened AqlProtocol

  // ---- One slot read, some time after the pointers ----

  /** What a poll that saw the read pointer at `rptr` makes of the slot of `id` now. */
  function Read(info: QueueInfo, s: Sys, rptr: nat, id: nat, resolve: u64 -> Bytes): Option<Packet>
    requires Shaped(info, s)
  {
    DecodeRaw(id < rptr, SlotRaw(info, s, id), resolve)
  }

  /** Whatever is read now and filed under `id` carries what was published under `id`. */
  predicate Right(info: QueueInfo, s: Sys, rptr: nat, id: u64, resolve: u64 -> Bytes)
    requires Shaped(info, s)
  {
    var p := Read(info, s, rptr, id, resolve);
    p.Some? ==> RecordOk(s, Submitted(info, id, p.value, 0.0))
  }

  /** The slot holds a packet that its producer has not finished. */
  predicate BeingWritten(info: QueueInfo, s: Sys, id: nat)
    requires Shaped(info, s)
  {
    Owned(info, s, Owner(info, s, id))
  }

  /** As far as the pointers tell, nobody else has been given the slot yet. */
  predicate StillOwn(info: QueueInfo, s: Sys, id: nat) {
    if id < s.rptr then s.wptr <= id + info.NumSlots() else id < s.rptr + info.NumSlots()
  }

  /** The id whose packet the slot holds: its owner in the window, or the one a ring before an owner to come. */
  function Holder(info: QueueInfo, s: Sys, id: nat): int
    requires Shaped(info, s)
  {
    var o := Owner(info, s, id);
    if o in s.payload then o else o - info.NumSlots()
  }

  /** The header of the packet of `id` is there to be read. */
  predicate Shown(s: Sys, id: int) {
    s.rptr <= id && !(id == s.rptr && s.reset)
  }

  lemma OwnerBelow(info: QueueInfo, s: Sys, id: nat)
    requires info.NumSlots() > 0 && id < s.rptr
    ensures var o := Owner(info, s, id);
            && s.rptr <= o < s.rptr + info.NumSlots() && id + info.NumSlots() <= o
            && SlotOf(info, o) == SlotOf(info, id)
            && (s.rptr <= id + info.NumSlots() ==> o == id + info.NumSlots())
  {
    var n, d := info.NumSlots(), id - s.rptr;
    var k := -(d / n);
    assert d == n * (d / n) + d % n;
    assert n * (d / n) == -(k * n);
    assert Owner(info, s, id) == id + k * n;
    NoSmallMultiple(n, k);
    assert k * n == n * k;
    LapsAhead(id, k, n);
    if s.rptr <= id + n {
      NoSmallMultiple(n, k - 1);
      assert n * (k - 1) == n * k - n;
    }
  }

  lemma SameSlot(info: QueueInfo, s: Sys, id: nat)
    requires Shaped(info, s)
    ensures var o := Owner(info, s, id);
            s.rptr <= o < s.rptr + info.NumSlots() && SlotRaw(info, s, id) == SlotRaw(info, s, o)
  {
    if s.rptr <= id {
      OwnerIs(info, s, id);
    } else {
      OwnerBelow(info, s, id);
    }
  }

  /** A slot nobody is writing to holds the packet of exactly one id, which is the id asked for exactly when the
      pointers say so. */
  lemma HolderIs(info: QueueInfo, s: Sys, id: nat)
    requires RingInv(info, s) && id < s.wptr && !BeingWritten(info, s, id)
    ensures var h := Holder(info, s, id);
            && h >= 0 && h in s.payload && (Shown(s, h) ==> h == Owner(info, s, id))
            && (h == id <==> StillOwn(info, s, id))
  {
    hide SlotOk;
    if s.rptr <= id {
      OwnerIs(info, s, id);
    } else {
      OwnerBelow(info, s, id);
    }
  }

  /** What comes out of it: that packet, as its header announces it, or its body alone when the header is gone and the
      poll takes the id for consumed. */
  lemma ReadCarries(info: QueueInfo, s: Sys, rptr: nat, id: nat, resolve: u64 -> Bytes)
    requires RingInv(info, s) && id < s.wptr && !BeingWritten(info, s, id)
    ensures var h := Holder(info, s, id);
            && h >= 0 && h in s.payload
            && Read(info, s, rptr, id, resolve) ==
               if Shown(s, h) then Some(Published(s.payload[h], resolve))
               else if id < rptr && Body(s.payload[h]).kernelObject != 0 then Some(Synthesised(s.payload[h], resolve))
               else None
  {
    hide Body, Published;
    SameSlot(info, s, id);
    HolderIs(info, s, id);
    var o, h := Owner(info, s, id), Holder(info, s, id);
    assert SlotOk(info, s, o);
    if !Shown(s, h) {
      BodyIgnoresHeader(SlotRaw(info, s, id), s.payload[h]);
    }
  }

  // ---- Whatever a producer does next ----

  /** A producer that owns a slot writes its next byte, or publishes its packet. */
  predicate Produces(info: QueueInfo, s: Sys, step: Step) {
    (step.Write? || step.Publish?) && Legal(info, s, step)
  }

  /** The read is right now, and would still be if any producer got its next step in before. */
  ghost predicate Trusted(info: QueueInfo, s: Sys, rptr: nat, id: u64, resolve: u64 -> Bytes)
    requires Shaped(info, s)
  {
    && Right(info, s, rptr, id, resolve)
    && forall step :: Produces(info, s, step) ==> Right(info, Apply(info, s, step), rptr, id, resolve)
  }

  /** The finished packet of `h`, read in the place of that of `id`, makes the same record or none. */
  predicate PassesFor(info: QueueInfo, s: Sys, rptr: nat, h: int, id: u64)
    requires h >= 0 && h in s.payload
  {
    var raw := s.payload[h];
    if Shown(s, h) then RecordOk(s, Submitted(info, id, Published(raw, _ => []), 0.0))
    else id < rptr && Body(raw).kernelObject != 0 ==> RecordOk(s, Submitted(info, id, Synthesised(raw, _ => []), 0.0))
  }

  lemma OwnPasses(info: QueueInfo, s: Sys, rptr: nat, id: u64)
    requires id in s.payload
    ensures PassesFor(info, s, rptr, id, id)
  {
    hide Body;
  }

  /** Names are looked up at the time of the read and cannot be right or wrong. */
  lemma SettledRight(info: QueueInfo, s: Sys, rptr: nat, id: u64, resolve: u64 -> Bytes)
    requires RingInv(info, s) && id < s.wptr && !BeingWritten(info, s, id)
    ensures Holder(info, s, id) >= 0 && Holder(info, s, id) in s.payload
    ensures Right(info, s, rptr, id, resolve) <==> PassesFor(info, s, rptr, Holder(info, s, id), id)
  {
    hide Body, SlotOk;
    ReadCarries(info, s, rptr, id, resolve);
  }

  /** A packet that is being written shows no header. */
  lemma UnfinishedRead(info: QueueInfo, s: Sys, rptr: nat, id: nat, resolve: u64 -> Bytes)
    requires RingInv(info, s) && BeingWritten(info, s, id) && rptr <= id
    ensures Read(info, s, rptr, id, resolve) == None
  {
    SameSlot(info, s, id);
    assert SlotOk(info, s, Owner(info, s, id));
  }

  /** A producer's step changes the slot of the id it owns, and no other. */
  lemma StepLands(info: QueueInfo, s: Sys, id: nat, step: Step)
    requires RingInv(info, s) && Produces(info, s, step)
    ensures var raw := SlotRaw(info, s, id);
            SlotRaw(info, Apply(info, s, step), id) ==
            if step.id != Owner(info, s, id) then raw
            else if step.Write? then raw[step.off := step.b]
            else WithHeader(raw, step.type8, step.flags)
  {
    hide SlotOk;
    var t, o, raw := Apply(info, s, step), Owner(info, s, id), SlotRaw(info, s, step.id);
    SameSlot(info, s, id);
    SameSlot(info, t, id);
    if step.id != o {
      OtherSlot(info, s, step.id, o, if step.Write? then raw[step.off := step.b] else WithHeader(raw, step.type8, step.flags));
    }
  }

  lemma OwnedIsOwner(info: QueueInfo, s: Sys, id: nat)
    requires info.NumSlots() > 0 && Owned(info, s, id)
    ensures Owner(info, s, id) == id
  {
    OwnerIs(info, s, id);
  }

  lemma ElsewhereRight(info: QueueInfo, s: Sys, rptr: nat, id: u64, resolve: u64 -> Bytes, step: Step)
    requires RingInv(info, s) && Produces(info, s, step) && step.id != Owner(info, s, id)
    requires Right(info, s, rptr, id, resolve)
    ensures Right(info, Apply(info, s, step), rptr, id, resolve)
  {
    hide SlotOk, DecodeRaw, CarriesPending, CarriesReset;
    StepLands(info, s, id, step);
    if step.id == id {
      OwnedIsOwner(info, s, id);
    }
  }

  /** Whatever the id's own producer does, a poll reads nothing or the packet as published. */
  lemma OwnStepRight(info: QueueInfo, s: Sys, rptr: nat, id: u64, resolve: u64 -> Bytes, step: Step)
    requires RingInv(info, s) && Produces(info, s, step) && step.id == id == Owner(info, s, id) && rptr <= s.rptr
    ensures Right(info, Apply(info, s, step), rptr, id, resolve)
  {
    hide Body;
    StepLands(info, s, id, step);
    assert SlotOk(info, s, id);
  }

  lemma StepsRight(info: QueueInfo, s: Sys, rptr: nat, id: u64, resolve: u64 -> Bytes)
    requires RingInv(info, s) && rptr <= s.rptr && Right(info, s, rptr, id, resolve)
    requires BeingWritten(info, s, id) ==> Owner(info, s, id) == id
    ensures Trusted(info, s, rptr, id, resolve)
  {
    hide Right, SlotOk;
    forall step | Produces(info, s, step)
      ensures Right(info, Apply(info, s, step), rptr, id, resolve)
    {
      if step.id == Owner(info, s, id) {
        OwnStepRight(info, s, rptr, id, resolve, step);
      } else {
        ElsewhereRight(info, s, rptr, id, resolve, step);
      }
    }
  }

  /** A type no record of the packet could show. */
  function OtherType(raw: Raw): u8 {
    if HeaderType(raw) == BARRIER_AND then AGENT_DISPATCH else BARRIER_AND
  }

  /** The other id's producer publishes a packet of another type. */
  lemma UnfinishedWrong(info: QueueInfo, s: Sys, rptr: nat, id: u64, resolve: u64 -> Bytes)
    requires RingInv(info, s) && BeingWritten(info, s, id) && Owner(info, s, id) != id
    ensures !Trusted(info, s, rptr, id, resolve)
  {
    hide Body;
    var o, type8 := Owner(info, s, id), if id in s.payload then OtherType(s.payload[id]) else BARRIER_AND;
    var step := Publish(o, type8, 0);
    StepLands(info, s, id, step);
    assert !Right(info, Apply(info, s, step), rptr, id, resolve);
  }

  /** While a slot is being written, it is still the id's own exactly when the id's own packet is. */
  lemma UnfinishedOwn(info: QueueInfo, s: Sys, id: nat)
    requires RingInv(info, s) && id < s.wptr && BeingWritten(info, s, id)
    ensures StillOwn(info, s, id) <==> Owner(info, s, id) == id
    ensures StillOwn(info, s, id) ==> s.rptr <= id
  {
    hide SlotOk;
    if id < s.rptr {
      OwnerBelow(info, s, id);
    } else {
      OwnerIs(info, s, id);
    }
  }

  /** Exactly when the read of one slot can be trusted, at any moment after the pointers were read: when the pointers
      have not given the slot to another id, or the packet there is finished and passes for what was published under
      this one. */
  lemma TrustedReadWhen(info: QueueInfo, s: Sys, rptr: nat, id: u64, resolve: u64 -> Bytes)
    requires RingInv(info, s) && rptr <= s.rptr && id < s.wptr
    ensures !BeingWritten(info, s, id) ==> Holder(info, s, id) >= 0 && Holder(info, s, id) in s.payload
    ensures Trusted(info, s, rptr, id, resolve) <==>
            || StillOwn(info, s, id)
            || (!BeingWritten(info, s, id) && PassesFor(info, s, rptr, Holder(info, s, id), id))
  {
    hide SlotOk, Right, PassesFor, StillOwn, BeingWritten, Holder, Apply;
    if BeingWritten(info, s, id) {
      UnfinishedOwn(info, s, id);
      if StillOwn(info, s, id) {
        UnfinishedRead(info, s, rptr, id, resolve);
        NoneRight(info, s, rptr, id, resolve);
        StepsRight(info, s, rptr, id, resolve);
      } else {
        UnfinishedWrong(info, s, rptr, id, resolve);
      }
    } else {
      HolderIs(info, s, id);
      SettledRight(info, s, rptr, id, resolve);
      if StillOwn(info, s, id) {
        OwnPasses(info, s, rptr, id);
      }
      if Right(info, s, rptr, id, resolve) {
        StepsRight(info, s, rptr, id, resolve);
      }
    }
  }

  lemma NoneRight(info: QueueInfo, s: Sys, rptr: nat, id: u64, resolve: u64 -> Bytes)
    requires Shaped(info, s) && Read(info, s, rptr, id, resolve) == None
    ensures Right(info, s, rptr, id, resolve)
  {
  }

  /** So a read is right as long as the pointers have not given the slot to another id. */
  lemma OwnReadRight(info: QueueInfo, s: Sys, rptr: nat, id: u64, resolve: u64 -> Bytes)
    requires RingInv(info, s) && rptr <= s.rptr && id < s.wptr && StillOwn(info, s, id)
    ensures Right(info, s, rptr, id, resolve)
  {
    hide SlotOk, PassesFor, Right;
    TrustedReadWhen(info, s, rptr, id, resolve);
  }

  // ---- One poll ----

  /** The moments of a poll as indices into a behaviour: when it reads the write pointer, the read pointer and the slot
      of each id, and when it is done; `ok` says whether the pointers could be read. */
  datatype Reading = Reading(ok: bool, w: nat, r: nat, at: nat -> nat, end: nat, now: real, resolve: u64 -> Bytes)

  ghost predicate During(states: seq<Sys>, x: Reading) {
    && x.w <= x.r <= x.end < |states|
    && forall id: nat :: x.r <= x.at(id) <= x.end
  }

  ghost predicate Kept(info: QueueInfo, states: seq<Sys>) {
    forall i :: 0 <= i < |states| ==> RingInv(info, states[i])
  }

  /** What the poll sees, put together from all these moments. */
  ghost function Seen(info: QueueInfo, states: seq<Sys>, x: Reading): AqlView
    requires Kept(info, states) && During(states, x)
  {
    AqlView(states[x.w].wptr, states[x.r].rptr,
            (id: u64) => Read(info, states[x.at(id)], states[x.r].rptr, id, x.resolve))
  }

  /** Pointers do not fall and what was published stays published. */
  predicate Grows(s: Sys, t: Sys) {
    && s.wptr <= t.wptr && s.rptr <= t.rptr
    && forall id :: id in s.payload ==> id in t.payload && t.payload[id] == s.payload[id]
  }

  lemma StepGrows(info: QueueInfo, s: Sys, step: Step)
    requires Legal(info, s, step)
    ensures Grows(s, Apply(info, s, step))
  {
  }

  lemma {:induction false} Growing(info: QueueInfo, states: seq<Sys>, steps: seq<Step>, i: nat, j: nat)
    requires Behaviour(info, states, steps) && i <= j <= |steps|
    ensures Grows(states[i], states[j])
  {
    hide Apply, Legal;
    if i < j {
      Growing(info, states, steps, i, j - 1);
      StepGrows(info, states[j - 1], steps[j - 1]);
    }
  }

  lemma BehaviourKept(info: QueueInfo, states: seq<Sys>, steps: seq<Step>)
    requires Behaviour(info, states, steps)
    ensures Kept(info, states)
  {
    hide RingInv;
    forall i | 0 <= i < |states|
      ensures RingInv(info, states[i])
    {
      InvariantsHold(info, states, steps, i);
    }
  }

  /** A record made by the poll carried what was published under its id when its slot was read. */
  ghost predicate FiledRight(states: seq<Sys>, x: Reading, r: PacketRecord)
    requires During(states, x)
  {
    RecordOk(states[x.at(r.dispatchId)], r)
  }

  /** Every record the poll makes did so: those it hands on at once and those it puts in flight. */
  ghost predicate AllFiledRight(info: QueueInfo, states: seq<Sys>, x: Reading, q: QState)
    requires Kept(info, states) && During(states, x)
  {
    var f, a := FreshBatch(info, q, Seen(info, states, x), x.now), Added(info, q, Seen(info, states, x), x.now);
    && (forall i :: 0 <= i < |f| ==> FiledRight(states, x, f[i]))
    && (forall i :: 0 <= i < |a| ==> FiledRight(states, x, a[i].val))
  }

  /** The ids the poll passes. */
  predicate Passes(info: QueueInfo, q: QState, v: AqlView, id: u64) {
    From(info, q, v) <= id < To(info, q, v)
  }

  ghost predicate ReadRight(info: QueueInfo, states: seq<Sys>, x: Reading, id: u64)
    requires Kept(info, states) && During(states, x)
  {
    Right(info, states[x.at(id)], states[x.r].rptr, id, x.resolve)
  }

  lemma TimesApart(info: QueueInfo, s: Sys, id: u64, p: Packet, now: real)
    ensures RecordOk(s, Submitted(info, id, p, now)) == RecordOk(s, Submitted(info, id, p, 0.0))
    ensures RecordOk(s, Completed(Submitted(info, id, p, now), now)) == RecordOk(s, Submitted(info, id, p, 0.0))
  {
    hide Body;
  }

  lemma FreshRight(info: QueueInfo, states: seq<Sys>, x: Reading, q: QState, i: nat)
    requires Kept(info, states) && During(states, x) && Roomy(info, q, states[x.w].wptr)
    requires i < |FreshBatch(info, q, Seen(info, states, x), x.now)|
    ensures var r := FreshBatch(info, q, Seen(info, states, x), x.now)[i];
            && Passes(info, q, Seen(info, states, x), r.dispatchId)
            && (FiledRight(states, x, r) <==> ReadRight(info, states, x, r.dispatchId))
  {
    hide RecordOk, RingInv, Read, From, To, Fresh;
    var v := Seen(info, states, x);
    var from := From(info, q, v);
    FromTo(info, q, v);
    FreshPartition(info, v, x.now, from, Consumed(from, v));
    FreshRecord(info, v, x.now, from, Consumed(from, v), i);
    var r := FreshBatch(info, q, v, x.now)[i];
    TimesApart(info, states[x.at(r.dispatchId)], r.dispatchId, v.slot(r.dispatchId).value, x.now);
  }

  lemma AddedRight(info: QueueInfo, states: seq<Sys>, x: Reading, q: QState, i: nat)
    requires Kept(info, states) && During(states, x) && Roomy(info, q, states[x.w].wptr)
    requires i < |Added(info, q, Seen(info, states, x), x.now)|
    ensures var e := Added(info, q, Seen(info, states, x), x.now)[i];
            && e.val.dispatchId == e.key && Passes(info, q, Seen(info, states, x), e.key)
            && (FiledRight(states, x, e.val) <==> ReadRight(info, states, x, e.key))
  {
    hide RecordOk, RingInv, Read, From, To, Added, Consumed;
    var v := Seen(info, states, x);
    FromTo(info, q, v);
    AddedRange(info, q, v, x.now);
    AddedEntry(info, q, v, x.now, i);
    var e := Added(info, q, v, x.now)[i];
    TimesApart(info, states[x.at(e.key)], e.key, v.slot(e.key).value, x.now);
  }

  /** Every id passed and decoded is among the records. */
  lemma PassedFiled(info: QueueInfo, states: seq<Sys>, x: Reading, q: QState, id: u64)
    requires Kept(info, states) && During(states, x) && Roomy(info, q, states[x.w].wptr)
    requires Passes(info, q, Seen(info, states, x), id) && AllFiledRight(info, states, x, q)
    ensures ReadRight(info, states, x, id)
  {
    hide RecordOk, RingInv, Read, From, To, Added, Fresh, FiledRight, ReadRight;
    var v := Seen(info, states, x);
    var f, a, mid := FreshBatch(info, q, v, x.now), Added(info, q, v, x.now), Consumed(From(info, q, v), v);
    if v.slot(id).None? {
      NothingRead(info, states, x, id);
    } else if id < mid {
      FreshMember(info, v, x.now, From(info, q, v), mid, id);
      var i :| 0 <= i < |f| && f[i].dispatchId == id;
      FreshRight(info, states, x, q, i);
    } else {
      FromTo(info, q, v);
      AddedRange(info, q, v, x.now);
      AddedRight(info, states, x, q, id - mid);
    }
  }

  lemma NothingRead(info: QueueInfo, states: seq<Sys>, x: Reading, id: u64)
    requires Kept(info, states) && During(states, x) && Seen(info, states, x).slot(id).None?
    ensures ReadRight(info, states, x, id)
  {
    hide RingInv, RecordOk, DecodeRaw;
  }

  /** A poll makes right records only, exactly when each slot it passes was read right. */
  lemma PollRightWhen(info: QueueInfo, states: seq<Sys>, x: Reading, q: QState)
    requires Kept(info, states) && During(states, x) && Roomy(info, q, states[x.w].wptr)
    ensures AllFiledRight(info, states, x, q) <==>
            forall id: u64 :: Passes(info, q, Seen(info, states, x), id) ==> ReadRight(info, states, x, id)
  {
    hide RingInv, ReadRight, FiledRight, Passes, FreshBatch, Added, Seen, Roomy;
    if AllFiledRight(info, states, x, q) {
      forall id: u64 | Passes(info, q, Seen(info, states, x), id)
        ensures ReadRight(info, states, x, id)
      {
        PassedFiled(info, states, x, q, id);
      }
    }
    if forall id: u64 :: Passes(info, q, Seen(info, states, x), id) ==> ReadRight(info, states, x, id) {
      var f, a := FreshBatch(info, q, Seen(info, states, x), x.now), Added(info, q, Seen(info, states, x), x.now);
      forall i | 0 <= i < |f|
        ensures FiledRight(states, x, f[i])
      {
        FreshRight(info, states, x, q, i);
      }
      forall i | 0 <= i < |a|
        ensures FiledRight(states, x, a[i].val)
      {
        AddedRight(info, states, x, q, i);
      }
    }
  }

  // ---- Whole runs ----

  /** When the slot of each id the poll passes is read, the pointers have not given it to another id. */
  ghost predicate OwnReads(info: QueueInfo, states: seq<Sys>, x: Reading, q: QState)
    requires Kept(info, states) && During(states, x)
  {
    forall id: u64 :: Passes(info, q, Seen(info, states, x), id) ==> StillOwn(info, states[x.at(id)], id)
  }

  lemma PassedReserved(info: QueueInfo, q: QState, v: AqlView, id: u64)
    requires Roomy(info, q, v.wptr) && Passes(info, q, v, id)
    ensures id < v.wptr
  {
    FromTo(info, q, v);
    StopIs(v, Consumed(From(info, q, v), v));
  }

  lemma OwnReadsRight(info: QueueInfo, states: seq<Sys>, steps: seq<Step>, x: Reading, q: QState)
    requires Behaviour(info, states, steps) && Kept(info, states) && During(states, x)
    requires Roomy(info, q, states[x.w].wptr) && OwnReads(info, states, x, q)
    ensures AllFiledRight(info, states, x, q)
  {
    hide Apply, Legal, Initial, SlotOk, Passes, Roomy, Right, StillOwn, Books;
    forall id: u64 | Passes(info, q, Seen(info, states, x), id)
      ensures ReadRight(info, states, x, id)
    {
      PassedReserved(info, q, Seen(info, states, x), id);
      Growing(info, states, steps, x.w, x.at(id));
      Growing(info, states, steps, x.r, x.at(id));
      OwnReadRight(info, states[x.at(id)], states[x.r].rptr, id, x.resolve);
    }
    PollRightWhen(info, states, x, q);
  }

  /** Everything in flight and everything sunk carries what was published under its id. */
  predicate Carried(s: Sys, q: QState, out: seq<PacketRecord>) {
    && (forall j :: 0 <= j < |q.inflight| ==> RecordOk(s, q.inflight[j].val))
    && (forall i :: 0 <= i < |out| ==> RecordOk(s, out[i]))
  }

  lemma PollCarries(info: QueueInfo, s: Sys, q: QState, out: seq<PacketRecord>, v: AqlView, now: real)
    requires q.primed && Keyed(q) && Roomy(info, q, v.wptr) && Carried(s, q, out)
    requires forall i :: 0 <= i < |FreshBatch(info, q, v, now)| ==> RecordOk(s, FreshBatch(info, q, v, now)[i])
    requires forall i :: 0 <= i < |Added(info, q, v, now)| ==> RecordOk(s, Added(info, q, v, now)[i].val)
    ensures var o := Poll(info, q, Got(v), now); Carried(s, o.st, out + o.sunk)
  {
    hide Poll, FreshBatch, RetiredBatch, Added, Roomy, Keyed, Due, CarriesPending, CarriesReset;
    var o := Poll(info, q, Got(v), now);
    PollBatches(info, q, v, now);
    RetiredFrom(q, v, now);
    forall j | 0 <= j < |o.st.inflight|
      ensures RecordOk(s, o.st.inflight[j].val)
    {
      KeptOrAdded(info, q, v, now, j);
    }
    forall i | 0 <= i < |RetiredBatch(q, v, now)|
      ensures RecordOk(s, RetiredBatch(q, v, now)[i])
    {
      CompletedOk(s, q.inflight[i].val, now);
    }
  }

  lemma CompletedOk(s: Sys, r: PacketRecord, now: real)
    ensures RecordOk(s, Completed(r, now)) == RecordOk(s, r)
  {
  }

  ghost function TickOf(info: QueueInfo, states: seq<Sys>, x: Reading): Tick
    requires Kept(info, states) && During(states, x)
  {
    Tick(x.now, if x.ok then Got(Seen(info, states, x)) else PtrFail)
  }

  /** All polls are over by the n-th state. */
  ghost predicate Watched(states: seq<Sys>, xs: seq<Reading>, n: nat) {
    n < |states| && forall k :: 0 <= k < |xs| ==> During(states, xs[k]) && xs[k].end <= n
  }

  ghost function Ticks(info: QueueInfo, states: seq<Sys>, xs: seq<Reading>, n: nat): (ticks: seq<Tick>)
    requires Kept(info, states) && Watched(states, xs, n)
    ensures |ticks| == |xs|
    ensures forall k :: 0 <= k < |xs| ==> ticks[k] == TickOf(info, states, xs[k])
  {
    seq(|xs|, k requires 0 <= k < |xs| => TickOf(info, states, xs[k]))
  }

  lemma TicksInRange(info: QueueInfo, states: seq<Sys>, xs: seq<Reading>, n: nat)
    requires Kept(info, states) && Watched(states, xs, n)
    ensures InRange(info, Ticks(info, states, xs, n))
  {
    hide SlotOk;
    forall k | 0 <= k < |xs|
      ensures RingInv(info, states[xs[k].w])
    {
    }
  }

  /** The state of the poller before its k-th poll. */
  ghost function Before(info: QueueInfo, states: seq<Sys>, xs: seq<Reading>, n: nat, k: nat): QState
    requires Kept(info, states) && Watched(states, xs, n) && k <= |xs|
  {
    Run(info, Ticks(info, states, xs, n)[..k]).st
  }

  /** No poll so far read a slot that had been given to another id. */
  ghost predicate AllOwn(info: QueueInfo, states: seq<Sys>, xs: seq<Reading>, n: nat)
    requires Kept(info, states) && Watched(states, xs, n)
  {
    forall k :: 0 <= k < |xs| && xs[k].ok && Before(info, states, xs, n, k).primed ==>
      OwnReads(info, states, xs[k], Before(info, states, xs, n, k))
  }

  lemma FiledStays(info: QueueInfo, states: seq<Sys>, steps: seq<Step>, x: Reading, n: nat, r: PacketRecord)
    requires Behaviour(info, states, steps) && During(states, x) && x.end <= n <= |steps| && FiledRight(states, x, r)
    ensures RecordOk(states[n], r)
  {
    hide Apply, Legal, Initial, CarriesPending, CarriesReset;
    Growing(info, states, steps, x.at(r.dispatchId), n);
  }

  lemma OnePoll(info: QueueInfo, states: seq<Sys>, steps: seq<Step>, x: Reading, q: QState, out: seq<PacketRecord>, n: nat)
    requires Behaviour(info, states, steps) && Kept(info, states) && During(states, x) && x.end <= n <= |steps|
    requires x.ok && q.primed ==> Keyed(q) && Roomy(info, q, Seen(info, states, x).wptr) && OwnReads(info, states, x, q)
    requires !q.primed ==> q.inflight == []
    requires Carried(states[n], q, out)
    ensures var o := Poll(info, q, TickOf(info, states, x).obs, x.now); Carried(states[n], o.st, out + o.sunk)
  {
    hide Apply, Legal, Initial, RingInv, RecordOk, Keyed, Roomy, OwnReads, Fresh, Added, Decoded, SkipOverrun, Due, FiledRight, Seen, FreshBatch;
    if x.ok && q.primed {
      var v := Seen(info, states, x);
      SeenPointer(info, states, x);
      OwnReadsRight(info, states, steps, x, q);
      forall r | FiledRight(states, x, r)
        ensures RecordOk(states[n], r)
      {
        FiledStays(info, states, steps, x, n, r);
      }
      PollCarries(info, states[n], q, out, v, x.now);
    }
  }

  lemma SeenPointer(info: QueueInfo, states: seq<Sys>, x: Reading)
    requires Kept(info, states) && During(states, x)
    ensures Seen(info, states, x).wptr == states[x.w].wptr && Seen(info, states, x).rptr == states[x.r].rptr
  {
  }

  /** Payload integrity when every read has its own moment: over any run of polls, with producers and the packet
      processor taking any steps between any two reads, everything in flight or sunk carries what was published
      under its id as long as no slot is read after the pointers have given it to another id. */
  lemma {:induction false} InterleavedIntegrity(info: QueueInfo, states: seq<Sys>, steps: seq<Step>, xs: seq<Reading>, n: nat)
    requires Behaviour(info, states, steps) && Kept(info, states) && n <= |steps| && Watched(states, xs, n)
    requires AllOwn(info, states, xs, n)
    ensures var t := Run(info, Ticks(info, states, xs, n)); Carried(states[n], t.st, Flat(t.log))
  {
    hide Behaviour, Kept, During, Carried, OwnReads, Poll, Keyed, Roomy;
    var ticks := Ticks(info, states, xs, n);
    if xs == [] {
      NothingCarried(states[n]);
    } else {
      var m := |xs| - 1;
      var init, x := xs[..m], xs[m];
      assert Ticks(info, states, init, n) == ticks[..m];
      forall k | 0 <= k < m
        ensures Before(info, states, init, n, k) == Before(info, states, xs, n, k)
      {
        assert ticks[..m][..k] == ticks[..k];
      }
      InterleavedIntegrity(info, states, steps, init, n);
      TicksInRange(info, states, init, n);
      PointerFits(info, states, x);
      RunKeyed(info, ticks[..m]);
      RunRoomy(info, ticks[..m], Seen(info, states, x).wptr);
      var t := Run(info, ticks[..m]);
      OnePoll(info, states, steps, x, t.st, Flat(t.log), n);
      FlatLast(t.log, Poll(info, t.st, ticks[m].obs, ticks[m].now).sunk);
    }
  }

  lemma NothingCarried(s: Sys)
    ensures Carried(s, INIT, [])
  {
  }

  lemma PointerFits(info: QueueInfo, states: seq<Sys>, x: Reading)
    requires Kept(info, states) && During(states, x)
    ensures Seen(info, states, x).wptr + info.NumSlots() < U64
  {
    hide SlotOk;
    assert RingInv(info, states[x.w]);
  }

  lemma FlatLast<T>(log: seq<seq<T>>, last: seq<T>)
    ensures Flat(log + [last]) == Flat(log) + last
  {
    assert (log + [last])[..|log|] == log;
  }

  /** What a poll could check for itself: were the write pointer read once more after the last slot, within a ring of
      where the poll resumed and of the read pointer it saw, no read would have come too late. */
  lemma RereadSuffices(info: QueueInfo, states: seq<Sys>, steps: seq<Step>, x: Reading, q: QState)
    requires Behaviour(info, states, steps) && Kept(info, states) && During(states, x)
    requires Roomy(info, q, states[x.w].wptr)
    requires states[x.end].wptr <= From(info, q, Seen(info, states, x)) + info.NumSlots()
    requires states[x.end].wptr <= states[x.r].rptr + info.NumSlots()
    ensures OwnReads(info, states, x, q)
  {
    hide Apply, Legal, Initial, RingInv, Roomy, From, To;
    var v := Seen(info, states, x);
    SeenPointer(info, states, x);
    forall id: u64 | Passes(info, q, v, id)
      ensures StillOwn(info, states[x.at(id)], id)
    {
      PassedReserved(info, q, v, id);
      Growing(info, states, steps, x.r, x.at(id));
      Growing(info, states, steps, x.at(id), x.end);
      Growing(info, states, steps, x.w, x.end);
    }
  }

  // ---- A run that gets there ----

  /** The low byte of the word at the offset of the kernel handle. */
  lemma HandleByte(raw: Raw)
    ensures U64At(raw, 32) % 256 == raw[32]
  {
  }

  /** One slot; the packet of id 0 published and consumed. */
  lemma ConsumedSteps() returns (info: QueueInfo, states: seq<Sys>, steps: seq<Step>)
    ensures Behaviour(info, states, steps) && |steps| == 5 && |states| == 6 && info.NumSlots() == 1
    ensures states[0].wptr == states[0].rptr == 0 && states[3].wptr == 1
    ensures var s := states[5];
            && Shaped(info, s) && s.payload.Keys == {0} && s.payload[0][32] == 1 && s.wptr == s.rptr == 1 && !s.reset
            && HeaderType(s.ring[0]) == INVALID
  {
    hide Poll, View;
    info := QueueInfo(1, 64, 2, Unknown, 0, [], 0, 0, 0, 0.0);
    var empty: Raw := seq(64, i => if i == 0 then INVALID else 0);
    var s0 := Sys([empty], 0, 0, map[], false, INIT, []);
    var s1 := Apply(info, s0, Reserve);
    var s2 := Apply(info, s1, Write(0, 32, 1));
    var s3 := Apply(info, s2, Publish(0, KERNEL_DISPATCH, 0));
    var s4 := Apply(info, s3, Reset(0));
    var s5 := Apply(info, s4, Consume);
    states := [s0, s1, s2, s3, s4, s5];
    steps := [Reserve, Write(0, 32, 1), Publish(0, KERNEL_DISPATCH, 0), Reset(0), Consume];
  }

  lemma Longer(info: QueueInfo, states: seq<Sys>, steps: seq<Step>, step: Step)
    requires Behaviour(info, states, steps) && Legal(info, states[|steps|], step)
    ensures Behaviour(info, states + [Apply(info, states[|steps|], step)], steps + [step])
  {
    hide Apply, Legal, Initial;
  }

  /** Then id 1 reserved, and the first byte of its kernel handle written. */
  lemma OvertakeSteps() returns (info: QueueInfo, states: seq<Sys>, steps: seq<Step>)
    ensures Behaviour(info, states, steps) && |steps| == 7 && |states| == 8 && info.NumSlots() == 1
    ensures states[0].wptr == states[0].rptr == 0 && states[3].wptr == 1 && states[5].rptr == 1
    ensures var s := states[7];
            && Shaped(info, s) && s.payload.Keys == {0} && s.payload[0][32] == 1
            && HeaderType(s.ring[0]) == INVALID && s.ring[0][32] == 2
  {
    hide Behaviour;
    info, states, steps := ConsumedSteps();
    Longer(info, states, steps, Reserve);
    states, steps := states + [Apply(info, states[5], Reserve)], steps + [Reserve];
    Longer(info, states, steps, Write(1, 32, 2));
    states, steps := states + [Apply(info, states[6], Write(1, 32, 2))], steps + [Write(1, 32, 2)];
  }

  /** The second poll sees one id, consumed, and nothing in flight. */
  lemma SinksZero(info: QueueInfo, v: AqlView, now: real)
    requires info.NumSlots() == 1 && v.wptr == v.rptr == 1 && v.slot(0).Some?
    ensures Poll(info, Prime(INIT, 0, 0), Got(v), now).sunk == [Completed(Submitted(info, 0, v.slot(0).value, now), now)]
  {
    var q := Prime(INIT, 0, 0);
    PollShape(info, q, v, now);
    FromTo(info, q, v);
    assert Fresh(info, v, now, 0, 0) == [];
  }

  /** It happens: a poll reads both pointers while id 0 is the only one reserved, and its slot when the next packet's
      first byte is in it. It reports that byte under id 0. */
  lemma OvertakenReachable() returns (info: QueueInfo, states: seq<Sys>, steps: seq<Step>, xs: seq<Reading>)
    ensures Behaviour(info, states, steps) && Kept(info, states) && |steps| == 7 && Watched(states, xs, 7) && |xs| == 2
    ensures states[xs[1].w].wptr == states[xs[1].r].rptr == info.NumSlots() == 1
    ensures var log, payload := Run(info, Ticks(info, states, xs, 7)).log, states[7].payload;
            && payload.Keys == {0} && |log[1]| == 1
            && log[1][0].dispatchId == 0 && log[1][0].dispatch.kernelObject % 256 == 2
            && Body(payload[0]).kernelObject % 256 == 1
  {
    hide Behaviour, RingInv, Poll, U64At, During;
    info, states, steps := OvertakeSteps();
    BehaviourKept(info, states, steps);
    var first := Reading(true, 0, 0, (_: nat) => 0, 0, 0.0, _ => []);
    var second := Reading(true, 3, 5, (_: nat) => 7, 7, 1.0, _ => []);
    xs := [first, second];
    assert During(states, first) && During(states, second) by {
      Moments(states, first);
      Moments(states, second);
    }
    var s, v, ticks := states[7], Seen(info, states, second), Ticks(info, states, xs, 7);
    HandleByte(s.payload[0]);
    HandleByte(s.ring[0]);
    TwoPolls(info, ticks);
    SeenPointer(info, states, first);
    SeenPointer(info, states, second);
    Priming(info, Seen(info, states, first), 0.0);
    assert SlotRaw(info, s, 0) == s.ring[0];
    ReadsByte(info, states, second);
    SinksZero(info, v, 1.0);
  }

  lemma TwoPolls(info: QueueInfo, ticks: seq<Tick>)
    requires |ticks| == 2
    ensures Run(info, ticks).log[1] ==
            Poll(info, Poll(info, INIT, ticks[0].obs, ticks[0].now).st, ticks[1].obs, ticks[1].now).sunk
  {
    hide Poll;
    var one := ticks[..1];
    assert one[..0] == [] && Run(info, []) == Trace(INIT, []);
    assert Run(info, one).st == Poll(info, INIT, ticks[0].obs, ticks[0].now).st;
  }

  /** Without a header, the body is taken for that of a consumed dispatch. */
  lemma ReadsByte(info: QueueInfo, states: seq<Sys>, x: Reading)
    requires Kept(info, states) && During(states, x) && x.at(0) < |states| && 0 < states[x.r].rptr
    requires var raw := SlotRaw(info, states[x.at(0)], 0); HeaderType(raw) == INVALID && Body(raw).kernelObject != 0
    ensures Seen(info, states, x).slot(0) == Some(Synthesised(SlotRaw(info, states[x.at(0)], 0), x.resolve))
  {
    hide SlotOk, U64At, U32At, U16At;
  }

  lemma Moments(states: seq<Sys>, x: Reading)
    requires |states| == 8 && x.w <= x.r <= x.end < 8
    requires forall id: nat :: x.at(id) == x.end
    ensures During(states, x)
  {
  }

  lemma Priming(info: QueueInfo, v: AqlView, now: real)
    ensures Poll(info, INIT, Got(v), now) == Outcome(Prime(INIT, v.wptr, v.rptr), [])
  {
  }
}
