/** Many queues under one polling thread (RingParser::Run and AddQueue in src/parser.cpp): what one
    queue's poll does, and how the thread's lock-protected steps interleave with queue registration. */
module Scheduling {
  import opened Model
  import opened OrderedMap
  import AqlPackets
  import AqlPoll
  import SdmaPackets
  import SdmaPoll
  import opened QueueStates

  /** What one queue's turn finds: its process, its pointers and its memory. */
  datatype Sample = Sample(alive: bool, ptrs: Pointers, aql: AqlPackets.AqlMemory, sdma: SdmaPoll.SdmaMemory)

  datatype Out = AqlOut(aql: PacketRecord) | SdmaOut(sdma: SdmaRecord) {
    function Uid(): u64 {
      if AqlOut? then aql.queueUid else sdma.queueUid
    }
  }

  function AqlOuts(rs: seq<PacketRecord>): seq<Out> {
    seq(|rs|, i requires 0 <= i < |rs| => AqlOut(rs[i]))
  }

  function SdmaOuts(rs: seq<SdmaRecord>): seq<Out> {
    seq(|rs|, i requires 0 <= i < |rs| => SdmaOut(rs[i]))
  }

  datatype Turn = Turn(st: QState, out: seq<Out>)

  /** One turn of a queue: skipped once evicted, evicted when its process is gone, otherwise polled. */
  function TakeTurn(info: QueueInfo, st: QState, x: Sample, now: real): Turn {
    if st.evict then Turn(st, [])
    else if !x.alive then Turn(st.(evict := true), [])
    else if info.IsSdma() then
      var o := SdmaPoll.Poll(info, st, SdmaObs(info, x.ptrs, x.sdma), now);
      Turn(o.st, SdmaOuts(o.sunk))
    else
      var o := AqlPoll.Poll(info, st, AqlObs(info, x.ptrs, x.aql), now);
      Turn(o.st, AqlOuts(o.sunk))
  }

  datatype Seen = Seen(sample: Sample, now: real)

  /** A queue run alone on a sequence of samples. */
  function SoloRun(info: QueueInfo, xs: seq<Seen>): Turn {
    if xs == [] then Turn(INIT, [])
    else
      var before, x := SoloRun(info, xs[..|xs| - 1]), xs[|xs| - 1];
      var t := TakeTurn(info, before.st, x.sample, x.now);
      Turn(t.st, before.out + t.out)
  }

  // ---- Eviction ----

  predicate PtrsFail(x: Seen) {
    x.sample.alive && (x.sample.ptrs.wptr.None? || x.sample.ptrs.rptr.None?)
  }

  /** Samples k-49 .. k are fifty pointer-read failures in a row. */
  predicate FiftyFailures(xs: seq<Seen>, k: nat)
    requires k < |xs|
  {
    50 <= k + 1 && forall j :: k + 1 - 50 <= j <= k ==> PtrsFail(xs[j])
  }

  predicate Condemned(xs: seq<Seen>) {
    exists k :: 0 <= k < |xs| && (!xs[k].sample.alive || FiftyFailures(xs, k))
  }

  /** Length of the run of pointer-read failures at the end. */
  function TrailingFailures(xs: seq<Seen>): (n: nat)
    ensures n <= |xs|
  {
    if xs == [] || !PtrsFail(xs[|xs| - 1]) then 0 else 1 + TrailingFailures(xs[..|xs| - 1])
  }

  lemma {:induction false} TrailingAre(xs: seq<Seen>)
    ensures var n := TrailingFailures(xs);
            && (forall j :: |xs| - n <= j < |xs| ==> PtrsFail(xs[j]))
            && (n < |xs| ==> !PtrsFail(xs[|xs| - n - 1]))
  {
    if xs != [] && PtrsFail(xs[|xs| - 1]) {
      TrailingAre(xs[..|xs| - 1]);
    }
  }

  lemma TurnCounts(info: QueueInfo, st: QState, x: Seen)
    requires !st.evict
    ensures var t := TakeTurn(info, st, x.sample, x.now).st;
            && (t.evict <==> !x.sample.alive || (PtrsFail(x) && st.fails + 1 >= EVICT_AFTER))
            && (x.sample.alive ==> t.fails == if PtrsFail(x) then st.fails + 1 else 0)
  {
    hide Wrap, Due, AqlPoll.Fresh, AqlPoll.Retired, SdmaPoll.Retired, AqlPackets.ViewOf, SdmaPoll.ViewOf, EmplaceAll;
    hide AqlPoll.Stop, AqlPoll.Pending, AqlPoll.Missed, SdmaPoll.Walk, SdmaPoll.WalkEnd, SdmaPoll.Entries, SdmaPoll.CacheAfter, SdmaPoll.Lost;
  }

  lemma CondemnedPrefix(xs: seq<Seen>)
    requires xs != []
    ensures var init, last := xs[..|xs| - 1], |xs| - 1;
            Condemned(xs) <==> Condemned(init) || !xs[last].sample.alive || FiftyFailures(xs, last)
  {
    var init, last := xs[..|xs| - 1], |xs| - 1;
    forall k | 0 <= k < last
      ensures FiftyFailures(init, k) <==> FiftyFailures(xs, k)
    {
      assert forall j :: 0 <= j <= k ==> init[j] == xs[j];
    }
    if Condemned(init) {
      var k :| 0 <= k < |init| && (!init[k].sample.alive || FiftyFailures(init, k));
      assert !xs[k].sample.alive || FiftyFailures(xs, k);
    }
    if Condemned(xs) {
      var k :| 0 <= k < |xs| && (!xs[k].sample.alive || FiftyFailures(xs, k));
      if k < last {
        assert !init[k].sample.alive || FiftyFailures(init, k);
      }
    }
  }

  lemma FiftyIsTrailing(xs: seq<Seen>)
    requires xs != []
    ensures FiftyFailures(xs, |xs| - 1) <==> 50 <= TrailingFailures(xs)
  {
    TrailingAre(xs);
  }

  /** A queue is evicted exactly when its process was found dead or its pointers were unreadable fifty times in a
      row; until then the failure count is the length of the current run of failures. */
  lemma {:induction false} EvictedExactly(info: QueueInfo, xs: seq<Seen>)
    ensures SoloRun(info, xs).st.evict <==> Condemned(xs)
    ensures !SoloRun(info, xs).st.evict ==> SoloRun(info, xs).st.fails == TrailingFailures(xs) < 50
  {
    if xs != [] {
      hide TakeTurn, FiftyFailures, Condemned;
      var init, last := xs[..|xs| - 1], xs[|xs| - 1];
      EvictedExactly(info, init);
      CondemnedPrefix(xs);
      FiftyIsTrailing(xs);
      if !SoloRun(info, init).st.evict {
        TurnCounts(info, SoloRun(info, init).st, last);
      } else {
        EvictedStays(info, SoloRun(info, init).st, last);
      }
    } else {
      assert !Condemned(xs);
    }
  }

  lemma EvictedStays(info: QueueInfo, st: QState, x: Seen)
    requires st.evict
    ensures TakeTurn(info, st, x.sample, x.now) == Turn(st, [])
  {
  }

  // ---- Records belong to their queue ----

  predicate AllFrom(out: seq<Out>, uid: u64) {
    forall i :: 0 <= i < |out| ==> out[i].Uid() == uid
  }

  predicate Holds(info: QueueInfo, st: QState) {
    && (forall i :: 0 <= i < |st.inflight| ==> st.inflight[i].val.queueUid == info.uid)
    && (forall i :: 0 <= i < |st.sdmaInflight| ==> st.sdmaInflight[i].val.queueUid == info.uid)
  }

  lemma {:induction false} FreshFrom(info: QueueInfo, v: AqlPackets.AqlView, now: real, lo: nat, hi: u64)
    ensures forall i :: 0 <= i < |AqlPoll.Fresh(info, v, now, lo, hi)| ==> AqlPoll.Fresh(info, v, now, lo, hi)[i].queueUid == info.uid
  {
    if lo < hi {
      FreshFrom(info, v, now, lo, hi - 1);
    }
  }

  lemma {:induction false} PendingFrom(info: QueueInfo, v: AqlPackets.AqlView, now: real, lo: nat, hi: u64)
    ensures forall i :: 0 <= i < |AqlPoll.Pending(info, v, now, lo, hi)| ==> AqlPoll.Pending(info, v, now, lo, hi)[i].val.queueUid == info.uid
  {
    if lo < hi {
      PendingFrom(info, v, now, lo, hi - 1);
    }
  }

  lemma {:induction false} EntriesFrom(info: QueueInfo, host: u64 -> bool, cache: map<u64, bool>, seq0: u64,
      ps: seq<SdmaPoll.Packet>, now: real)
    ensures forall i :: 0 <= i < |SdmaPoll.Entries(info, host, cache, seq0, ps, now)| ==>
              SdmaPoll.Entries(info, host, cache, seq0, ps, now)[i].val.queueUid == info.uid
  {
    if ps != [] {
      var init, es := ps[..|ps| - 1], SdmaPoll.Entries(info, host, cache, seq0, ps, now);
      EntriesFrom(info, host, cache, seq0, init, now);
      forall i | 0 <= i < |es|
        ensures es[i].val.queueUid == info.uid
      {
        if i < |init| {
          assert SdmaPoll.Entries(info, host, cache, seq0, init, now)[i].val.queueUid == info.uid;
        }
        assert es[i].val.queueUid == info.uid;
      }
    }
  }

  lemma AqlFrom(info: QueueInfo, st: QState, v: AqlPackets.AqlView, now: real)
    requires Holds(info, st)
    ensures var o := AqlPoll.Poll(info, st, Got(v), now);
            Holds(info, o.st) && AllFrom(AqlOuts(o.sunk), info.uid)
  {
    hide Wrap, EmplaceAll, Due, AqlPoll.Fresh, AqlPoll.Pending, AqlPoll.Stop, AqlPoll.Missed;
    var from := SkipOverrun(st.(fails := 0), v.wptr, info.NumSlots());
    var mid := AqlPoll.Consumed(from.nextId, v);
    FreshFrom(info, v, now, from.nextId, mid);
    PendingFrom(info, v, now, mid, AqlPoll.Stop(v, mid));
    EmplaceAllValues(st.inflight, AqlPoll.Pending(info, v, now, mid, AqlPoll.Stop(v, mid)), (r: PacketRecord) => r.queueUid == info.uid);
  }

  lemma SdmaFrom(info: QueueInfo, st: QState, v: SdmaPoll.SdmaView, now: real)
    requires Holds(info, st)
    ensures var o := SdmaPoll.Poll(info, st, Got(v), now);
            Holds(info, o.st) && AllFrom(SdmaOuts(o.sunk), info.uid)
  {
    hide Wrap, EmplaceAll, Due, SdmaPoll.Walk, SdmaPoll.WalkEnd, SdmaPoll.CacheAfter, SdmaPoll.Front, SdmaPoll.Entries, SdmaPoll.Lost;
    var from := SkipOverrun(st, v.wptr, info.NumDwords());
    var ps := SdmaPoll.Walk(v, from.nextId);
    var es := SdmaPoll.Entries(info, v.host, from.pageHost, from.sdmaSeq, ps, now);
    EntriesFrom(info, v.host, from.pageHost, from.sdmaSeq, ps, now);
    var mine := (r: SdmaRecord) => r.queueUid == info.uid;
    forall i | 0 <= i < |es|
      ensures mine(es[i].val)
    {
      assert es[i].val.queueUid == info.uid;
    }
    EmplaceAllValues(st.sdmaInflight, es, mine);
  }

  /** Whatever a queue's turn sinks carries that queue's uid. */
  lemma TurnFrom(info: QueueInfo, st: QState, x: Sample, now: real)
    requires Holds(info, st)
    ensures var t := TakeTurn(info, st, x, now); Holds(info, t.st) && AllFrom(t.out, info.uid)
  {
    hide AqlPackets.ViewOf, SdmaPoll.ViewOf, AqlPoll.Decoded, SdmaPoll.DecodeAndRetire, AqlPoll.Fresh, AqlPoll.Retired;
    if x.ptrs.wptr.Some? && x.ptrs.rptr.Some? {
      AqlFrom(info, st, AqlPackets.ViewOf(info, x.ptrs.wptr.value, x.ptrs.rptr.value, x.aql), now);
      SdmaFrom(info, st, SdmaPoll.ViewOf(info, x.ptrs.wptr.value, x.ptrs.rptr.value, x.sdma), now);
    }
  }

  lemma {:induction false} SoloFrom(info: QueueInfo, xs: seq<Seen>)
    ensures Holds(info, SoloRun(info, xs).st) && AllFrom(SoloRun(info, xs).out, info.uid)
  {
    if xs != [] {
      SoloFrom(info, xs[..|xs| - 1]);
      TurnFrom(info, SoloRun(info, xs[..|xs| - 1]).st, xs[|xs| - 1].sample, xs[|xs| - 1].now);
    }
  }

  // ---- The polling thread ----

  datatype Queue = Queue(info: QueueInfo, st: QState)

  /** Between iterations, or inside one: the snapshot is the first `limit` queues (the vector only grows while an
      iteration runs), of which `cursor` have had their turn. */
  datatype Phase = Idle | Polling(cursor: nat, limit: nat, now: real)

  datatype Parser = Parser(queues: seq<Queue>, phase: Phase, log: seq<Out>)

  const START := Parser([], Idle, [])

  /** The thread's atomic steps, and registration of a queue at any moment. */
  datatype Step =
    | Begin(now: real)
    | NextTurn(sample: Sample)
    | Finish
    | Add(info: QueueInfo)

  predicate Accepted(info: QueueInfo) {
    !info.IsSdma() || SdmaPackets.Supported(info.sdmaVersion)
  }

  function Live(qs: seq<Queue>): seq<Queue> {
    if qs == [] then []
    else if qs[0].st.evict then Live(qs[1..])
    else [qs[0]] + Live(qs[1..])
  }

  predicate Enabled(p: Parser, step: Step) {
    match step
    case Begin(now) => p.phase.Idle?
    case NextTurn(sample) => p.phase.Polling? && p.phase.cursor < p.phase.limit <= |p.queues|
    case Finish => p.phase.Polling? && p.phase.cursor >= p.phase.limit
    case Add(info) => Accepted(info)
  }

  /** A step that is not enabled (and a queue that is not accepted) changes nothing. */
  function Apply(p: Parser, step: Step): Parser {
    if !Enabled(p, step) then p
    else
      match step
      case Begin(now) => p.(phase := Polling(0, |p.queues|, now))
      case NextTurn(sample) =>
        var c, q := p.phase.cursor, p.queues[p.phase.cursor];
        var t := TakeTurn(q.info, q.st, sample, p.phase.now);
        p.(queues := p.queues[c := q.(st := t.st)], phase := p.phase.(cursor := c + 1), log := p.log + t.out)
      case Finish => p.(queues := Live(p.queues), phase := Idle)
      case Add(info) => p.(queues := p.queues + [Queue(info, INIT)])
  }

  function Exec(steps: seq<Step>): Parser {
    if steps == [] then START else Apply(Exec(steps[..|steps| - 1]), steps[|steps| - 1])
  }

  /** The samples the queue `uid` has had in its turns. */
  function SeenBy(uid: u64, steps: seq<Step>): seq<Seen> {
    if steps == [] then []
    else
      var p, last := Exec(steps[..|steps| - 1]), steps[|steps| - 1];
      SeenBy(uid, steps[..|steps| - 1]) +
      if last.NextTurn? && Enabled(p, last) && p.queues[p.phase.cursor].info.uid == uid
      then [Seen(last.sample, p.phase.now)] else []
  }

  function Registered(uid: u64, steps: seq<Step>): Option<QueueInfo> {
    if steps == [] then None
    else
      var last := steps[|steps| - 1];
      if last.Add? && Accepted(last.info) && last.info.uid == uid then Some(last.info)
      else Registered(uid, steps[..|steps| - 1])
  }

  predicate DistinctUids(steps: seq<Step>) {
    forall i, j :: 0 <= i < j < |steps| && steps[i].Add? && steps[j].Add? ==> steps[i].info.uid != steps[j].info.uid
  }

  /** What the log holds of one queue. */
  function OfQueue(uid: u64, log: seq<Out>): seq<Out> {
    if log == [] then []
    else
      OfQueue(uid, log[..|log| - 1]) + if log[|log| - 1].Uid() == uid then [log[|log| - 1]] else []
  }

  lemma {:induction false} OfQueueAppend(uid: u64, a: seq<Out>, b: seq<Out>)
    ensures OfQueue(uid, a + b) == OfQueue(uid, a) + OfQueue(uid, b)
  {
    if b == [] {
      assert a + b == a;
    } else {
      assert (a + b)[..|a + b| - 1] == a + b[..|b| - 1];
      OfQueueAppend(uid, a, b[..|b| - 1]);
    }
  }

  lemma {:induction false} OfQueueAll(uid: u64, from: u64, b: seq<Out>)
    requires AllFrom(b, from)
    ensures OfQueue(uid, b) == if from == uid then b else []
  {
    if b != [] {
      OfQueueAll(uid, from, b[..|b| - 1]);
      assert b == b[..|b| - 1] + [b[|b| - 1]];
    }
  }

  predicate Apart(qs: seq<Queue>) {
    forall i, j :: 0 <= i < j < |qs| ==> qs[i].info.uid != qs[j].info.uid
  }

  lemma {:induction false} LiveIs(qs: seq<Queue>)
    requires Apart(qs)
    ensures Apart(Live(qs))
    ensures forall q :: q in Live(qs) <==> q in qs && !q.st.evict
  {
    if qs != [] {
      LiveIs(qs[1..]);
      assert qs == [qs[0]] + qs[1..];
      var rest := Live(qs[1..]);
      assert forall i :: 0 <= i < |rest| ==> rest[i] in rest;
      assert forall q :: q in qs[1..] ==> q.info.uid != qs[0].info.uid;
    }
  }

  /** The queue `uid` is in the vector in the state of its solo run, or has been evicted there. */
  predicate InStep(p: Parser, uid: u64, info: QueueInfo, solo: Turn) {
    && OfQueue(uid, p.log) == solo.out
    && info.uid == uid
    && (forall q :: q in p.queues && q.info.uid == uid ==> q == Queue(info, solo.st))
    && ((forall q :: q in p.queues ==> q.info.uid != uid) ==> solo.st.evict)
  }

  predicate Projects(uid: u64, steps: seq<Step>) {
    var p := Exec(steps);
    match Registered(uid, steps)
    case None => SeenBy(uid, steps) == [] && OfQueue(uid, p.log) == [] && forall q :: q in p.queues ==> q.info.uid != uid
    case Some(info) => InStep(p, uid, info, SoloRun(info, SeenBy(uid, steps)))
  }

  predicate WellFormed(p: Parser) {
    Apart(p.queues) && (p.phase.Polling? ==> p.phase.limit <= |p.queues|)
  }

  lemma {:induction false} RegisteredBy(uid: u64, steps: seq<Step>)
    ensures Registered(uid, steps).Some? ==> exists i :: 0 <= i < |steps| && steps[i].Add? && steps[i].info.uid == uid
  {
    if steps != [] && !(steps[|steps| - 1].Add? && steps[|steps| - 1].info.uid == uid) {
      RegisteredBy(uid, steps[..|steps| - 1]);
    }
  }

  lemma TurnMine(p: Parser, uid: u64, info: QueueInfo, xs: seq<Seen>, sample: Sample)
    requires WellFormed(p) && Enabled(p, NextTurn(sample)) && p.queues[p.phase.cursor].info.uid == uid
    requires InStep(p, uid, info, SoloRun(info, xs))
    ensures InStep(Apply(p, NextTurn(sample)), uid, info, SoloRun(info, xs + [Seen(sample, p.phase.now)]))
  {
    hide TakeTurn;
    var c, x := p.phase.cursor, Seen(sample, p.phase.now);
    var q, solo := p.queues[c], SoloRun(info, xs);
    assert q in p.queues;
    assert (xs + [x])[..|xs|] == xs;
    var t := TakeTurn(info, solo.st, sample, p.phase.now);
    assert SoloRun(info, xs + [x]) == Turn(t.st, solo.out + t.out);
    SoloFrom(info, xs);
    TurnFrom(info, solo.st, sample, p.phase.now);
    OfQueueAppend(uid, p.log, t.out);
    OfQueueAll(uid, uid, t.out);
    var after := p.queues[c := q.(st := t.st)];
    assert after[c] in after;
    forall r | r in after && r.info.uid == uid
      ensures r == Queue(info, t.st)
    {
      var i :| 0 <= i < |after| && after[i] == r;
      assert i == c;
    }
  }

  lemma TurnLog(p: Parser, uid: u64, other: QueueInfo, xs: seq<Seen>, sample: Sample)
    requires Enabled(p, NextTurn(sample))
    requires p.queues[p.phase.cursor] == Queue(other, SoloRun(other, xs).st) && other.uid != uid
    ensures OfQueue(uid, Apply(p, NextTurn(sample)).log) == OfQueue(uid, p.log)
  {
    hide TakeTurn;
    var t := TakeTurn(other, SoloRun(other, xs).st, sample, p.phase.now);
    SoloFrom(other, xs);
    TurnFrom(other, SoloRun(other, xs).st, sample, p.phase.now);
    OfQueueAppend(uid, p.log, t.out);
    OfQueueAll(uid, other.uid, t.out);
  }

  /** A turn of another queue leaves the queues named `uid` as they are. */
  lemma TurnQueues(p: Parser, uid: u64, sample: Sample)
    requires Enabled(p, NextTurn(sample)) && p.queues[p.phase.cursor].info.uid != uid
    ensures forall q: Queue :: q.info.uid == uid ==> (q in Apply(p, NextTurn(sample)).queues <==> q in p.queues)
  {
    hide TakeTurn;
    var c, before, after := p.phase.cursor, p.queues, Apply(p, NextTurn(sample)).queues;
    forall q: Queue | q.info.uid == uid
      ensures q in after <==> q in before
    {
      if q in before {
        var i :| 0 <= i < |before| && before[i] == q;
        assert after[i] == q;
      }
      if q in after {
        var i :| 0 <= i < |after| && after[i] == q;
        assert before[i] == q;
      }
    }
  }

  lemma StepWellFormed(p: Parser, step: Step)
    requires WellFormed(p)
    requires step.Add? && Accepted(step.info) ==> forall q :: q in p.queues ==> q.info.uid != step.info.uid
    ensures WellFormed(Apply(p, step))
  {
    hide TakeTurn;
    if step.Finish? {
      LiveIs(p.queues);
    }
    if step.Add? && Accepted(step.info) {
      assert forall i :: 0 <= i < |p.queues| ==> p.queues[i] in p.queues;
    }
  }

  lemma NoSuchQueue(uid: u64, steps: seq<Step>)
    requires Projects(uid, steps) && Registered(uid, steps).None?
    ensures forall q :: q in Exec(steps).queues ==> q.info.uid != uid
  {
  }

  /** One more step keeps the projection of `uid`, given those of the queues it touches. */
  lemma StepProjects(uid: u64, steps: seq<Step>)
    requires steps != [] && DistinctUids(steps)
    requires var init := steps[..|steps| - 1];
             && WellFormed(Exec(init)) && Projects(uid, init)
             && var last := steps[|steps| - 1];
                (last.NextTurn? && Enabled(Exec(init), last) ==> Projects(Exec(init).queues[Exec(init).phase.cursor].info.uid, init))
    ensures Projects(uid, steps)
  {
    hide TakeTurn, SoloRun;
    var init, last := steps[..|steps| - 1], steps[|steps| - 1];
    var p, xs := Exec(init), SeenBy(uid, init);
    RegisteredBy(uid, init);
    assert xs + [] == xs;
    if last.NextTurn? && Enabled(p, last) {
      TurnProjects(uid, steps);
    } else if last.Finish? && Enabled(p, last) {
      LiveIs(p.queues);
    } else if last.Add? && Enabled(p, last) {
      AddProjects(uid, steps);
    }
  }

  lemma AddProjects(uid: u64, steps: seq<Step>)
    requires steps != [] && DistinctUids(steps)
    requires var init, last := steps[..|steps| - 1], steps[|steps| - 1];
             Projects(uid, init) && last.Add? && Accepted(last.info)
    ensures Projects(uid, steps)
  {
    hide TakeTurn;
    var init, info := steps[..|steps| - 1], steps[|steps| - 1].info;
    var p, xs := Exec(init), SeenBy(uid, init);
    assert xs + [] == xs;
    RegisteredBy(uid, init);
    assert info.uid == uid ==> Registered(uid, init).None?;
    assert Queue(info, INIT) in p.queues + [Queue(info, INIT)];
    forall q | q in p.queues
      ensures q in p.queues + [Queue(info, INIT)]
    {
    }
  }

  lemma TurnProjects(uid: u64, steps: seq<Step>)
    requires steps != []
    requires var init, last := steps[..|steps| - 1], steps[|steps| - 1];
             && WellFormed(Exec(init)) && Projects(uid, init) && last.NextTurn? && Enabled(Exec(init), last)
             && Projects(Exec(init).queues[Exec(init).phase.cursor].info.uid, init)
    ensures Projects(uid, steps)
  {
    hide TakeTurn, SoloRun;
    var init, last := steps[..|steps| - 1], steps[|steps| - 1];
    var p := Exec(init);
    var q := p.queues[p.phase.cursor];
    var v := q.info.uid;
    assert q in p.queues;
    var other := Registered(v, init).value;
    if v == uid {
      TurnMine(p, uid, other, SeenBy(uid, init), last.sample);
    } else {
      TurnLog(p, uid, other, SeenBy(v, init), last.sample);
      TurnQueues(p, uid, last.sample);
      assert SeenBy(uid, init) + [] == SeenBy(uid, init);
    }
  }

  /** Polling many queues, with registrations anywhere, projects onto each queue run alone on the samples it saw:
      same records in the same order, same state while it is kept; a queue that is gone was evicted. */
  lemma {:induction false} Projection(uid: u64, steps: seq<Step>)
    requires DistinctUids(steps)
    ensures WellFormed(Exec(steps)) && Projects(uid, steps)
    decreases |steps|
  {
    hide Projects, Apply, WellFormed;
    if steps != [] {
      var init, last := steps[..|steps| - 1], steps[|steps| - 1];
      var p := Exec(init);
      Projection(uid, init);
      if last.NextTurn? && Enabled(p, last) {
        Projection(p.queues[p.phase.cursor].info.uid, init);
      }
      if last.Add? && Accepted(last.info) {
        Projection(last.info.uid, init);
        RegisteredBy(last.info.uid, init);
        NoSuchQueue(last.info.uid, init);
      }
      StepWellFormed(p, last);
      StepProjects(uid, steps);
    } else {
      StartProjects(uid);
    }
  }

  lemma StartProjects(uid: u64)
    ensures WellFormed(Exec([])) && Projects(uid, [])
  {
  }

  // ---- After an eviction ----

  lemma {:induction false} SoloEvictedStays(info: QueueInfo, xs: seq<Seen>, more: seq<Seen>)
    requires SoloRun(info, xs).st.evict
    ensures SoloRun(info, xs + more) == SoloRun(info, xs)
  {
    if more == [] {
      assert xs + more == xs;
    } else {
      assert (xs + more)[..|xs + more| - 1] == xs + more[..|more| - 1];
      SoloEvictedStays(info, xs, more[..|more| - 1]);
      assert SoloRun(info, xs).out + [] == SoloRun(info, xs).out;
    }
  }

  lemma {:induction false} SeenGrows(uid: u64, steps: seq<Step>, more: seq<Step>) returns (xs: seq<Seen>)
    ensures SeenBy(uid, steps + more) == SeenBy(uid, steps) + xs
  {
    if more == [] {
      assert steps + more == steps;
      xs := [];
    } else {
      assert (steps + more)[..|steps + more| - 1] == steps + more[..|more| - 1];
      var ys := SeenGrows(uid, steps, more[..|more| - 1]);
      var zs :| SeenBy(uid, steps + more) == SeenBy(uid, steps + more[..|more| - 1]) + zs;
      xs := ys + zs;
    }
  }

  lemma {:induction false} StaysRegistered(uid: u64, steps: seq<Step>, more: seq<Step>)
    requires DistinctUids(steps + more) && Registered(uid, steps).Some?
    ensures Registered(uid, steps + more) == Registered(uid, steps)
  {
    if more == [] {
      assert steps + more == steps;
    } else {
      var all := steps + more;
      assert all[..|all| - 1] == steps + more[..|more| - 1];
      StaysRegistered(uid, steps, more[..|more| - 1]);
      RegisteredBy(uid, steps);
      var i :| 0 <= i < |steps| && steps[i].Add? && steps[i].info.uid == uid;
      assert all[i] == steps[i];
    }
  }

  /** Once a queue's own run has evicted it, no later step sinks another record of that uid. */
  lemma NothingAfterEviction(uid: u64, steps: seq<Step>, more: seq<Step>)
    requires DistinctUids(steps + more) && Registered(uid, steps).Some? && Condemned(SeenBy(uid, steps))
    ensures OfQueue(uid, Exec(steps + more).log) == OfQueue(uid, Exec(steps).log)
  {
    hide TakeTurn, SoloRun, Condemned;
    assert DistinctUids(steps) by {
      assert forall i :: 0 <= i < |steps| ==> (steps + more)[i] == steps[i];
    }
    var info := Registered(uid, steps).value;
    Projection(uid, steps);
    Projection(uid, steps + more);
    StaysRegistered(uid, steps, more);
    EvictedExactly(info, SeenBy(uid, steps));
    var xs := SeenGrows(uid, steps, more);
    SoloEvictedStays(info, SeenBy(uid, steps), xs);
  }
}

/** The parser object: the shared vector of queue objects and the thread's steps over it. */
module RingParsers {
  import opened Model
  import SdmaPackets
  import opened QueueStates
  import opened Scheduling

  /** The values of a vector of queue objects. */
  ghost function Values(qs: seq<QueueState>): (vs: seq<Queue>)
    reads qs
    ensures |vs| == |qs|
    ensures forall i :: 0 <= i < |qs| ==> vs[i] == Queue(qs[i].info, qs[i].State())
  {
    if qs == [] then [] else Values(qs[..|qs| - 1]) + [Queue(qs[|qs| - 1].info, qs[|qs| - 1].State())]
  }

  lemma {:induction false} LiveAppend(a: seq<Queue>, b: seq<Queue>)
    ensures Live(a + b) == Live(a) + Live(b)
  {
    if a == [] {
      assert a + b == b;
    } else {
      assert (a + b)[1..] == a[1..] + b;
      LiveAppend(a[1..], b);
    }
  }

  lemma LiveNext(vs: seq<Queue>, i: nat)
    requires i < |vs|
    ensures Live(vs[..i + 1]) == Live(vs[..i]) + if vs[i].st.evict then [] else [vs[i]]
  {
    assert vs[..i + 1] == vs[..i] + [vs[i]];
    LiveAppend(vs[..i], [vs[i]]);
  }

  lemma ValuesAppend(qs: seq<QueueState>, q: QueueState)
    ensures Values(qs + [q]) == Values(qs) + [Queue(q.info, q.State())]
  {
    assert (qs + [q])[..|qs|] == qs;
  }

  lemma ValuesUpdated(qs: seq<QueueState>, vs: seq<Queue>, c: nat)
    requires c < |qs| == |vs|
    requires forall i :: 0 <= i < |qs| && i != c ==> vs[i] == Queue(qs[i].info, qs[i].State())
    ensures Values(qs) == vs[c := Queue(qs[c].info, qs[c].State())]
  {
  }

  class RingParser {
    var queues: seq<QueueState>
    var snapshot: seq<QueueState>
    var cursor: nat
    var polling: bool
    var now: real
    var log: seq<Out>

    ghost predicate Valid()
      reads this
    {
      && (forall i, j :: 0 <= i < j < |queues| ==> queues[i] != queues[j])
      && (polling ==> |snapshot| <= |queues| && snapshot == queues[..|snapshot|])
    }

    ghost function Value(): Parser
      reads this, queues
    {
      Parser(Values(queues), if polling then Polling(cursor, |snapshot|, now) else Idle, log)
    }

    constructor ()
      ensures Valid() && Value() == START
    {
      queues, snapshot, cursor, polling, now, log := [], [], 0, false, 0.0, [];
    }

    /** Registers a queue; an SDMA queue of an unsupported generation is ignored. */
    method AddQueue(q: QueueInfo)
      requires Valid()
      modifies this
      ensures Valid() && Value() == Apply(old(Value()), Add(q))
      ensures Value() == if q.qtype in {1, 3, 4} && q.sdmaVersion !in {V4, V6, V7} then old(Value())
                         else old(Value()).(queues := old(Value()).queues + [Queue(q, INIT)])
    {
      hide Apply, Values, QueueState.State;
      AddValue(Value(), q);
      if q.IsSdma() && !SdmaPackets.Supported(q.sdmaVersion) {
        return;
      }
      var qs := new QueueState(q);
      ValuesAppend(queues, qs);
      queues := queues + [qs];
    }

    method BeginIteration(t: real)
      requires Valid() && !polling
      modifies this
      ensures Valid() && Value() == Apply(old(Value()), Begin(t))
    {
      snapshot, cursor, polling, now := queues, 0, true, t;
    }

    /** One queue of the snapshot has its turn. */
    method TakeNextTurn(x: Sample)
      requires Valid() && polling && cursor < |snapshot|
      modifies this, snapshot
      ensures Valid() && queues == old(queues) && Value() == Apply(old(Value()), NextTurn(x))
    {
      hide TakeTurn, Apply, Values, QueueState.State;
      TurnValue(Value(), x);
      var q := snapshot[cursor];
      assert q == queues[cursor];
      ghost var vs := Values(queues);
      var out := PollOne(q, x, now);
      ValuesUpdated(queues, vs, cursor);
      log := log + out;
      cursor := cursor + 1;
    }

    static method PollOne(q: QueueState, x: Sample, t: real) returns (out: seq<Out>)
      modifies q
      ensures Turn(q.State(), out) == TakeTurn(q.info, old(q.State()), x, t)
    {
      out := [];
      if q.evict {
        return;
      }
      if !x.alive {
        q.evict := true;
        return;
      }
      if q.info.IsSdma() {
        var sunk := q.PollSdmaQueue(x.ptrs, x.sdma, t);
        out := SdmaOuts(sunk);
      } else {
        var sunk := q.PollQueue(x.ptrs, x.aql, t);
        out := AqlOuts(sunk);
      }
    }

    /** Removes the evicted queues. */
    method FinishIteration()
      requires Valid() && polling && cursor >= |snapshot|
      modifies this
      ensures Valid() && Value() == Apply(old(Value()), Finish)
    {
      hide Apply, Values, Live, QueueState.State;
      FinishValue(Value());
      var kept := LiveQueues(queues);
      queues, polling := kept, false;
    }

    static method LiveQueues(qs: seq<QueueState>) returns (kept: seq<QueueState>)
      requires forall i, j :: 0 <= i < j < |qs| ==> qs[i] != qs[j]
      ensures forall i, j :: 0 <= i < j < |kept| ==> kept[i] != kept[j]
      ensures Values(kept) == Live(Values(qs))
    {
      hide Live, Values;
      kept := [];
      ghost var vs, at := Values(qs), [];
      NothingLive(vs);
      var i := 0;
      while i < |qs|
        invariant 0 <= i <= |qs| == |vs| && |at| == |kept|
        invariant forall k :: 0 <= k < |kept| ==> 0 <= at[k] < i && kept[k] == qs[at[k]]
        invariant forall j, k :: 0 <= j < k < |kept| ==> at[j] < at[k]
        invariant Values(kept) == Live(vs[..i])
      {
        LiveNext(vs, i);
        if !qs[i].evict {
          ValuesAppend(kept, qs[i]);
          kept, at := kept + [qs[i]], at + [i];
        }
        i := i + 1;
      }
      assert vs[..i] == vs;
    }
  }

  lemma AddValue(p: Parser, q: QueueInfo)
    ensures Apply(p, Add(q)) == if Accepted(q) then p.(queues := p.queues + [Queue(q, INIT)]) else p
  {
  }

  lemma TurnValue(p: Parser, x: Sample)
    requires Enabled(p, NextTurn(x))
    ensures var c := p.phase.cursor;
            var t := TakeTurn(p.queues[c].info, p.queues[c].st, x, p.phase.now);
            Apply(p, NextTurn(x)) ==
            Parser(p.queues[c := Queue(p.queues[c].info, t.st)], Polling(c + 1, p.phase.limit, p.phase.now), p.log + t.out)
  {
    hide TakeTurn;
  }

  lemma NothingLive(vs: seq<Queue>)
    ensures Live(vs[..0]) == []
  {
  }

  lemma FinishValue(p: Parser)
    requires Enabled(p, Finish)
    ensures Apply(p, Finish) == Parser(Live(p.queues), Idle, p.log)
  {
  }
}
