/** The whole polling thread put together: what the log of many interleaved queues holds of one queue is a run of
    that queue's poller, so everything proved about single runs holds in the running system. */
module EndToEnd {
  import opened Model
  import opened QueueStates
  import opened Scheduling
  import AqlPoll
  import AqlRuns
  import DispatchLogs
  import Sequences
  import SdmaPoll
  import SdmaRuns

  /** The samples that were actually polled: none from the moment the process was found dead, none after the fiftieth
      failure in a row. */
  function Served(xs: seq<Seen>): seq<Seen> {
    if xs == [] then []
    else
      var init := xs[..|xs| - 1];
      if Condemned(init) || !xs[|xs| - 1].sample.alive then Served(init) else xs
  }

  function AqlTicks(info: QueueInfo, xs: seq<Seen>): (ts: seq<AqlRuns.Tick>)
    ensures |ts| == |xs|
  {
    seq(|xs|, i requires 0 <= i < |xs| => AqlRuns.Tick(xs[i].now, AqlObs(info, xs[i].sample.ptrs, xs[i].sample.aql)))
  }

  function SdmaTicks(info: QueueInfo, xs: seq<Seen>): (ts: seq<SdmaRuns.Tick>)
    ensures |ts| == |xs|
  {
    seq(|xs|, i requires 0 <= i < |xs| => SdmaRuns.Tick(xs[i].now, SdmaObs(info, xs[i].sample.ptrs, xs[i].sample.sdma)))
  }

  /** A queue that is still kept has polled all its samples. */
  lemma {:induction false} ServedWhole(xs: seq<Seen>)
    requires !Condemned(xs)
    ensures Served(xs) == xs
  {
    hide Condemned;
    if xs != [] {
      CondemnedPrefix(xs);
    }
  }

  function AqlLog(info: QueueInfo, xs: seq<Seen>): seq<PacketRecord> {
    Sequences.Flat(AqlRuns.Run(info, AqlTicks(info, xs)).log)
  }

  lemma AqlLogGrow(info: QueueInfo, xs: seq<Seen>)
    requires xs != []
    ensures var init, x := xs[..|xs| - 1], xs[|xs| - 1];
            var s := AqlRuns.Run(info, AqlTicks(info, init)).st;
            var o := AqlPoll.Poll(info, s, AqlObs(info, x.sample.ptrs, x.sample.aql), x.now);
            AqlRuns.Run(info, AqlTicks(info, xs)).st == o.st && AqlLog(info, xs) == AqlLog(info, init) + o.sunk
  {
    hide AqlPoll.Poll, AqlObs;
    var init, ts := xs[..|xs| - 1], AqlTicks(info, xs);
    assert ts[..|ts| - 1] == AqlTicks(info, init);
    AqlRuns.FlatSnoc(AqlRuns.Run(info, AqlTicks(info, init)).log, AqlRuns.Run(info, ts).log[|ts| - 1]);
  }

  lemma AqlOutsAppend(a: seq<PacketRecord>, b: seq<PacketRecord>)
    ensures AqlOuts(a + b) == AqlOuts(a) + AqlOuts(b)
  {
  }

  lemma SdmaOutsAppend(a: seq<SdmaRecord>, b: seq<SdmaRecord>)
    ensures SdmaOuts(a + b) == SdmaOuts(a) + SdmaOuts(b)
  {
  }

  lemma AqlTurn(info: QueueInfo, xs: seq<Seen>)
    requires xs != [] && !info.IsSdma()
    requires var init := xs[..|xs| - 1];
             && !SoloRun(info, init).st.evict && xs[|xs| - 1].sample.alive
             && SoloRun(info, init).st == AqlRuns.Run(info, AqlTicks(info, init)).st
             && SoloRun(info, init).out == AqlOuts(AqlLog(info, init))
    ensures SoloRun(info, xs).st == AqlRuns.Run(info, AqlTicks(info, xs)).st
    ensures SoloRun(info, xs).out == AqlOuts(AqlLog(info, xs))
  {
    var init, x := xs[..|xs| - 1], xs[|xs| - 1];
    var s := SoloRun(info, init).st;
    var o := AqlPoll.Poll(info, s, AqlObs(info, x.sample.ptrs, x.sample.aql), x.now);
    assert TakeTurn(info, s, x.sample, x.now) == Turn(o.st, AqlOuts(o.sunk));
    hide TakeTurn, AqlPoll.Poll, AqlLog, AqlOuts, AqlObs, AqlRuns.Run;
    AqlLogGrow(info, xs);
    AqlOutsAppend(AqlLog(info, init), o.sunk);
  }

  /** A queue polled on its own is a run of the AQL poller over the samples it served. */
  lemma {:induction false} SoloIsAqlRun(info: QueueInfo, xs: seq<Seen>)
    requires !info.IsSdma()
    ensures SoloRun(info, xs).out == AqlOuts(AqlLog(info, Served(xs)))
    ensures !SoloRun(info, xs).st.evict ==> Served(xs) == xs && SoloRun(info, xs).st == AqlRuns.Run(info, AqlTicks(info, xs)).st
  {
    hide TakeTurn, AqlLog, AqlRuns.Run, Condemned;
    if xs == [] {
      NoAqlLog(info);
    } else {
      var init, x := xs[..|xs| - 1], xs[|xs| - 1];
      SoloIsAqlRun(info, init);
      EvictedExactly(info, init);
      if SoloRun(info, init).st.evict {
        EvictedStays(info, SoloRun(info, init).st, x);
      } else if !x.sample.alive {
        DeadTurn(info, SoloRun(info, init).st, x);
      } else {
        AqlTurn(info, xs);
      }
    }
  }

  lemma NoAqlLog(info: QueueInfo)
    ensures AqlLog(info, []) == [] && AqlRuns.Run(info, AqlTicks(info, [])).st == INIT
  {
  }

  lemma DeadTurn(info: QueueInfo, st: QState, x: Seen)
    requires !st.evict && !x.sample.alive
    ensures TakeTurn(info, st, x.sample, x.now) == Turn(st.(evict := true), [])
  {
  }

  lemma SdmaRunGrow(info: QueueInfo, xs: seq<Seen>)
    requires xs != []
    ensures var init, x := xs[..|xs| - 1], xs[|xs| - 1];
            var before := SdmaRuns.Run(info, SdmaTicks(info, init));
            var o := SdmaPoll.Poll(info, before.st, SdmaObs(info, x.sample.ptrs, x.sample.sdma), x.now);
            SdmaRuns.Run(info, SdmaTicks(info, xs)).st == o.st && SdmaRuns.Run(info, SdmaTicks(info, xs)).out == before.out + o.sunk
  {
    hide SdmaPoll.Poll, SdmaObs, SdmaRuns.NewDecodes;
    var ts := SdmaTicks(info, xs);
    assert ts[..|ts| - 1] == SdmaTicks(info, xs[..|xs| - 1]);
  }

  lemma SdmaTurn(info: QueueInfo, xs: seq<Seen>)
    requires xs != [] && info.IsSdma()
    requires var init := xs[..|xs| - 1];
             && !SoloRun(info, init).st.evict && xs[|xs| - 1].sample.alive
             && SoloRun(info, init).st == SdmaRuns.Run(info, SdmaTicks(info, init)).st
             && SoloRun(info, init).out == SdmaOuts(SdmaRuns.Run(info, SdmaTicks(info, init)).out)
    ensures SoloRun(info, xs).st == SdmaRuns.Run(info, SdmaTicks(info, xs)).st
    ensures SoloRun(info, xs).out == SdmaOuts(SdmaRuns.Run(info, SdmaTicks(info, xs)).out)
  {
    var init, x := xs[..|xs| - 1], xs[|xs| - 1];
    var s := SoloRun(info, init).st;
    var o := SdmaPoll.Poll(info, s, SdmaObs(info, x.sample.ptrs, x.sample.sdma), x.now);
    assert TakeTurn(info, s, x.sample, x.now) == Turn(o.st, SdmaOuts(o.sunk));
    hide TakeTurn, SdmaPoll.Poll, SdmaOuts, SdmaObs, SdmaRuns.Run;
    SdmaRunGrow(info, xs);
    SdmaOutsAppend(SdmaRuns.Run(info, SdmaTicks(info, init)).out, o.sunk);
  }

  lemma {:induction false} SoloIsSdmaRun(info: QueueInfo, xs: seq<Seen>)
    requires info.IsSdma()
    ensures SoloRun(info, xs).out == SdmaOuts(SdmaRuns.Run(info, SdmaTicks(info, Served(xs))).out)
    ensures !SoloRun(info, xs).st.evict ==> Served(xs) == xs && SoloRun(info, xs).st == SdmaRuns.Run(info, SdmaTicks(info, xs)).st
  {
    hide TakeTurn, SdmaRuns.Run, Condemned;
    if xs == [] {
      NoSdmaRun(info);
    } else {
      var init, x := xs[..|xs| - 1], xs[|xs| - 1];
      SoloIsSdmaRun(info, init);
      EvictedExactly(info, init);
      if SoloRun(info, init).st.evict {
        EvictedStays(info, SoloRun(info, init).st, x);
      } else if !x.sample.alive {
        DeadTurn(info, SoloRun(info, init).st, x);
      } else {
        SdmaTurn(info, xs);
      }
    }
  }

  lemma NoSdmaRun(info: QueueInfo)
    ensures SdmaRuns.Run(info, SdmaTicks(info, [])) == SdmaRuns.Trace(INIT, [], [])
  {
  }

  /** What the system logs of a queue is what that queue's poller alone logs on the samples it served. */
  lemma SystemIsRun(uid: u64, steps: seq<Step>, info: QueueInfo)
    requires DistinctUids(steps) && Registered(uid, steps) == Some(info)
    ensures info.uid == uid
    ensures !Condemned(SeenBy(uid, steps)) ==> Served(SeenBy(uid, steps)) == SeenBy(uid, steps)
    ensures var xs := Served(SeenBy(uid, steps));
            OfQueue(uid, Exec(steps).log) ==
            if info.IsSdma() then SdmaOuts(SdmaRuns.Run(info, SdmaTicks(info, xs)).out) else AqlOuts(AqlLog(info, xs))
  {
    hide SoloRun, OfQueue, Exec, SeenBy, Served, AqlLog, SdmaRuns.Run, Condemned;
    Projection(uid, steps);
    if !Condemned(SeenBy(uid, steps)) {
      ServedWhole(SeenBy(uid, steps));
    }
    if info.IsSdma() {
      SoloIsSdmaRun(info, SeenBy(uid, steps));
    } else {
      SoloIsAqlRun(info, SeenBy(uid, steps));
    }
  }

  /** In the running system no packet id of an AQL queue is ever logged twice. */
  lemma SystemLogsOnce(uid: u64, steps: seq<Step>, info: QueueInfo)
    requires DistinctUids(steps) && Registered(uid, steps) == Some(info) && !info.IsSdma()
    requires AqlRuns.InRange(info, AqlTicks(info, Served(SeenBy(uid, steps))))
    ensures var out := OfQueue(uid, Exec(steps).log);
            && (forall i :: 0 <= i < |out| ==> out[i].AqlOut?)
            && (forall i, j :: 0 <= i < j < |out| ==> out[i].aql.dispatchId != out[j].aql.dispatchId)
  {
    hide OfQueue, Exec, SeenBy, Served, AqlObs;
    var xs := Served(SeenBy(uid, steps));
    SystemIsRun(uid, steps, info);
    LogDistinct(info, xs);
  }

  lemma LogDistinct(info: QueueInfo, xs: seq<Seen>)
    requires AqlRuns.InRange(info, AqlTicks(info, xs))
    ensures AqlRuns.Distinct(AqlLog(info, xs))
  {
    hide AqlRuns.Run, AqlObs;
    AqlRuns.RunInvariant(info, AqlTicks(info, xs));
  }

  lemma ByteTicksFit(info: QueueInfo, xs: seq<Seen>)
    ensures SdmaRuns.DwordPointers(SdmaTicks(info, xs))
  {
    hide SdmaPoll.LookRing;
  }

  /** In the running system the records logged of an SDMA queue are numbered 0, 1, 2, ... without a gap. */
  lemma SystemGapFree(uid: u64, steps: seq<Step>, info: QueueInfo)
    requires DistinctUids(steps) && Registered(uid, steps) == Some(info) && info.IsSdma()
    ensures var out := OfQueue(uid, Exec(steps).log);
            forall i :: 0 <= i < |out| ==> out[i].SdmaOut? && out[i].sdma.seqNo == i && out[i].sdma.completed
  {
    hide OfQueue, Exec, SeenBy, Served, SdmaObs, SdmaRuns.Run, SdmaRuns.DwordPointers;
    var xs := Served(SeenBy(uid, steps));
    SystemIsRun(uid, steps, info);
    ByteTicksFit(info, xs);
    SdmaRuns.SequenceGapFree(info, SdmaTicks(info, xs));
  }

  // ---- The clock of one queue ----

  /** The time of the iteration begun last. */
  function LastBegin(steps: seq<Step>): Option<real> {
    if steps == [] then None
    else
      var init, last := steps[..|steps| - 1], steps[|steps| - 1];
      if last.Begin? && Enabled(Exec(init), last) then Some(last.now) else LastBegin(init)
  }

  /** Every iteration begins later than the one before. */
  predicate Ticking(steps: seq<Step>) {
    steps == [] ||
    var init, last := steps[..|steps| - 1], steps[|steps| - 1];
    && Ticking(init)
    && (last.Begin? && Enabled(Exec(init), last) && LastBegin(init).Some? ==> last.now > LastBegin(init).value)
  }

  predicate Rising(xs: seq<Seen>) {
    forall i, j :: 0 <= i < j < |xs| ==> xs[i].now < xs[j].now
  }

  predicate AllBefore(xs: seq<Seen>, now: real) {
    forall i :: 0 <= i < |xs| ==> xs[i].now < now
  }

  predicate NoneAfter(xs: seq<Seen>, now: real) {
    forall i :: 0 <= i < |xs| ==> xs[i].now <= now
  }

  /** The queue's turns so far have rising times, none later than the current iteration, and all earlier than it while
      the queue's turn in it is still ahead. */
  predicate OneTurnEach(uid: u64, p: Parser, xs: seq<Seen>, begun: Option<real>) {
    && Rising(xs)
    && (begun.Some? ==> NoneAfter(xs, begun.value))
    && (begun.None? ==> xs == [] && p.phase.Idle?)
    && (p.phase.Polling? ==>
          && begun == Some(p.phase.now) && p.phase.limit <= |p.queues|
          && forall i :: p.phase.cursor <= i < p.phase.limit && p.queues[i].info.uid == uid ==> AllBefore(xs, p.phase.now))
  }

  lemma TurnRises(uid: u64, p: Parser, xs: seq<Seen>, begun: Option<real>, sample: Sample)
    requires OneTurnEach(uid, p, xs, begun) && WellFormed(p) && Enabled(p, NextTurn(sample))
    ensures var more := if p.queues[p.phase.cursor].info.uid == uid then [Seen(sample, p.phase.now)] else [];
            OneTurnEach(uid, Apply(p, NextTurn(sample)), xs + more, begun)
  {
    hide TakeTurn;
    var c := p.phase.cursor;
    var t := Apply(p, NextTurn(sample));
    assert forall i :: 0 <= i < |p.queues| ==> t.queues[i].info == p.queues[i].info;
    assert xs + [] == xs;
  }

  lemma {:induction false} QueueClock(uid: u64, steps: seq<Step>)
    requires DistinctUids(steps) && Ticking(steps)
    ensures OneTurnEach(uid, Exec(steps), SeenBy(uid, steps), LastBegin(steps))
  {
    hide TakeTurn, WellFormed, Projects;
    if steps != [] {
      var init, last := steps[..|steps| - 1], steps[|steps| - 1];
      var p, xs := Exec(init), SeenBy(uid, init);
      QueueClock(uid, init);
      Projection(uid, init);
      assert xs + [] == xs;
      if last.NextTurn? && Enabled(p, last) {
        TurnRises(uid, p, xs, LastBegin(init), last.sample);
      } else {
        OtherStep(uid, p, xs, LastBegin(init), last);
      }
    }
  }

  lemma OtherStep(uid: u64, p: Parser, xs: seq<Seen>, begun: Option<real>, step: Step)
    requires OneTurnEach(uid, p, xs, begun) && !(step.NextTurn? && Enabled(p, step))
    requires step.Begin? && Enabled(p, step) && begun.Some? ==> step.now > begun.value
    ensures OneTurnEach(uid, Apply(p, step), xs, if step.Begin? && Enabled(p, step) then Some(step.now) else begun)
  {
    hide TakeTurn, Live, Accepted;
  }

  lemma {:induction false} ServedPrefix(xs: seq<Seen>)
    ensures |Served(xs)| <= |xs| && Served(xs) == xs[..|Served(xs)|]
  {
    hide Condemned;
    if xs != [] {
      ServedPrefix(xs[..|xs| - 1]);
    }
  }

  /** With a clock that moves on between iterations, the clock of every single queue moves on with every poll: no
      queue is polled twice in an iteration. */
  lemma RunsAreClocked(uid: u64, steps: seq<Step>, info: QueueInfo)
    requires DistinctUids(steps) && Ticking(steps)
    ensures AqlRuns.Clocked(AqlTicks(info, Served(SeenBy(uid, steps))))
    ensures SdmaRuns.Clocked(SdmaTicks(info, Served(SeenBy(uid, steps))))
  {
    hide Exec, SeenBy, Served, LastBegin, AqlObs, SdmaObs;
    QueueClock(uid, steps);
    ServedPrefix(SeenBy(uid, steps));
    assert Rising(SeenBy(uid, steps));
  }

  // ---- Durations in the event log ----

  /** The log line of a sunk dispatch reports a duration exactly when its id was still pending in the poll that
      decoded it. */
  lemma DurationIffPending(info: QueueInfo, ticks: seq<AqlRuns.Tick>, k: nat, i: nat, c: DispatchLogs.Ctx, stamp: Bytes)
    requires AqlRuns.InRange(info, ticks) && AqlRuns.Clocked(ticks)
    requires k < |ticks| && i < |AqlRuns.Run(info, ticks).log[k]|
    ensures var r := AqlRuns.Run(info, ticks).log[k][i];
            var decoded := ticks[..k + 1][AqlRuns.DecodedAt(info, ticks[..k + 1], r.dispatchId)];
            && decoded.obs.Got?
            && (DispatchLogs.HasKey(DispatchLogs.DispatchMembers(r, c, stamp), Ascii("dur_us")) <==>
                decoded.obs.view.rptr <= r.dispatchId)
  {
    hide AqlRuns.Run, AqlRuns.DecodedAt, DispatchLogs.HasKey, DispatchLogs.DispatchMembers, Ascii;
    AqlRuns.Timing(info, ticks, k, i);
    DispatchLogs.DispatchDuration(AqlRuns.Run(info, ticks).log[k][i], c, stamp);
  }

  /** The same for SDMA packets: a duration exactly when the last dword was not consumed yet. */
  lemma SdmaDurationIffPending(info: QueueInfo, ticks: seq<SdmaRuns.Tick>, i: nat, c: DispatchLogs.Ctx, stamp: Bytes)
    requires SdmaRuns.DwordPointers(ticks) && SdmaRuns.Clocked(ticks)
    requires i < |SdmaRuns.Run(info, ticks).out|
    ensures var t := SdmaRuns.Run(info, ticks);
            && i < |t.decoded|
            && (DispatchLogs.HasKey(DispatchLogs.SdmaMembers(t.out[i], c, stamp), Ascii("dur_us")) <==>
                t.decoded[i].rptr < SdmaPoll.End(t.decoded[i].packet))
  {
    hide SdmaRuns.Run, DispatchLogs.HasKey, DispatchLogs.SdmaMembers, Ascii;
    SdmaRuns.Timing(info, ticks, i);
    DispatchLogs.SdmaDuration(SdmaRuns.Run(info, ticks).out[i], c, stamp);
  }
}
