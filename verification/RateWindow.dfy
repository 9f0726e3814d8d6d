/** The sliding launch-rate window of the exporter (Add and UpdateRateGauges in src/prometheus_exporter.cpp). */
module RateWindows {
  import opened Model
  import opened AqlPackets

  datatype Launch = Launch(ts: real, gpu: u32)

  /** Launches are pushed in the order of the clock that stamps them. */
  predicate InOrder(h: seq<Launch>) {
    forall i, j :: 0 <= i < j < |h| ==> h[i].ts <= h[j].ts
  }

  /** How many launches of a GPU are not older than the cutoff. */
  function Count(h: seq<Launch>, gpu: u32, cutoff: real): nat {
    if h == [] then 0
    else
      var e := h[|h| - 1];
      Count(h[..|h| - 1], gpu, cutoff) + if e.gpu == gpu && e.ts >= cutoff then 1 else 0
  }

  /** Launches that are too old do not count, wherever the sequence is cut. */
  lemma {:induction false} OldDoNotCount(h: seq<Launch>, k: nat, gpu: u32, cutoff: real)
    requires k <= |h| && forall i :: 0 <= i < k ==> h[i].ts < cutoff
    ensures Count(h[k..], gpu, cutoff) == Count(h, gpu, cutoff)
  {
    if |h| > k {
      OldDoNotCount(h[..|h| - 1], k, gpu, cutoff);
      assert h[k..][..|h| - k - 1] == h[..|h| - 1][k..];
    } else if k > 0 {
      OldDoNotCount(h[..|h| - 1], k - 1, gpu, cutoff);
      assert h[..|h| - 1][k - 1..] == [] && h[k..] == [];
    }
  }

  /** What is left after pruning is all recent. */
  predicate Recent(h: seq<Launch>, cutoff: real) {
    forall i :: 0 <= i < |h| ==> h[i].ts >= cutoff
  }

  predicate IsDispatch(r: PacketRecord) {
    r.ptype == KERNEL_DISPATCH || r.ptype == VENDOR_SPECIFIC
  }

  /** The gauges after an update: every GPU counted in the window or known before has its rate over the whole
      history, and no other GPU appears. */
  ghost predicate RatesOf(before: map<u32, real>, after: map<u32, real>, h: seq<Launch>, cutoff: real, window: real)
    requires window > 0.0
  {
    forall gpu: u32 ::
      && (gpu in after <==> gpu in before || Count(h, gpu, cutoff) > 0)
      && (gpu in after ==> after[gpu] == Count(h, gpu, cutoff) as real / window)
  }

  /** The gauges once the counts of the GPUs in `done` have been published over zeroes. */
  ghost predicate PublishedTo(known: set<u32>, counts: map<u32, nat>, done: set<u32>, gauges: map<u32, real>,
      window: real)
    requires window > 0.0
  {
    && done <= counts.Keys
    && gauges.Keys == known + done
    && forall gpu :: gpu in gauges ==> gauges[gpu] == if gpu in done then counts[gpu] as real / window else 0.0
  }

  lemma PublishStart(known: set<u32>, counts: map<u32, nat>, gauges: map<u32, real>, window: real)
    requires window > 0.0 && gauges.Keys == known && forall gpu :: gpu in gauges ==> gauges[gpu] == 0.0
    ensures PublishedTo(known, counts, {}, gauges, window)
  {
  }

  lemma PublishStep(known: set<u32>, counts: map<u32, nat>, done: set<u32>, gauges: map<u32, real>, window: real,
      gpu: u32)
    requires window > 0.0 && PublishedTo(known, counts, done, gauges, window) && gpu in counts
    ensures PublishedTo(known, counts, done + {gpu}, gauges[gpu := counts[gpu] as real / window], window)
  {
  }

  lemma PublishEnd(known: set<u32>, counts: map<u32, nat>, gauges: map<u32, real>, window: real)
    requires window > 0.0 && PublishedTo(known, counts, counts.Keys, gauges, window)
    ensures gauges.Keys == known + counts.Keys
    ensures forall gpu :: gpu in gauges ==> gauges[gpu] == if gpu in counts then counts[gpu] as real / window else 0.0
  {
  }

  class RateWindow {
    const window: real
    /** uid -> GPU of the registered queues. */
    var queues: map<u64, u32>
    var launchEvents: seq<Launch>
    var gauges: map<u32, real>
    /** The durations observed by the histogram. */
    var durations: seq<real>
    /** Every launch ever pushed, how many of them have been pruned, and the time of the latest update. */
    ghost var history: seq<Launch>
    ghost var pruned: nat
    ghost var lastUpdate: real

    ghost predicate Valid()
      reads this
    {
      && window > 0.0
      && InOrder(history)
      && pruned <= |history|
      && launchEvents == history[pruned..]
      && forall i :: 0 <= i < pruned ==> history[i].ts < lastUpdate - window
    }

    constructor (window: real, now: real)
      requires window > 0.0
      ensures Valid() && this.window == window && history == [] && lastUpdate == now
      ensures queues == map[] && gauges == map[] && durations == []
    {
      this.window := window;
      queues, launchEvents, gauges, durations := map[], [], map[], [];
      history, pruned, lastUpdate := [], 0, now;
    }

    method RegisterQueue(q: QueueInfo)
      requires Valid()
      modifies this`queues
      ensures Valid() && queues == old(queues)[q.uid := q.gpuId]
    {
      queues := queues[q.uid := q.gpuId];
    }

    /** Counts a launch exactly when its queue is registered and its type is a dispatch or the fast-reset type, and
        observes a duration exactly when it also completed strictly after it was submitted. */
    method Add(r: PacketRecord, now: real)
      requires Valid() && (history != [] ==> history[|history| - 1].ts <= now)
      modifies this`launchEvents, this`durations, this`history
      ensures Valid()
      ensures history == if r.queueUid in queues && (r.ptype == 2 || r.ptype == 0) then old(history) + [Launch(now, queues[r.queueUid])] else old(history)
      ensures durations == if r.queueUid in queues && (r.ptype == 2 || r.ptype == 0) && r.completed && r.completeTs > r.submitTs
                           then old(durations) + [r.completeTs - r.submitTs] else old(durations)
    {
      if r.queueUid !in queues {
        return;
      }
      if IsDispatch(r) {
        if r.completed && r.completeTs > r.submitTs {
          durations := durations + [r.completeTs - r.submitTs];
        }
        launchEvents := launchEvents + [Launch(now, queues[r.queueUid])];
        history := history + [Launch(now, queues[r.queueUid])];
      }
    }

    method Prune(cutoff: real)
      requires Valid() && cutoff >= lastUpdate - window
      modifies this`launchEvents, this`pruned
      ensures pruned <= |history| && launchEvents == history[pruned..]
      ensures forall i :: 0 <= i < pruned ==> history[i].ts < cutoff
      ensures Recent(launchEvents, cutoff)
    {
      while launchEvents != [] && launchEvents[0].ts < cutoff
        invariant pruned <= |history| && launchEvents == history[pruned..]
        invariant forall i :: 0 <= i < pruned ==> history[i].ts < cutoff
        decreases |launchEvents|
      {
        launchEvents := launchEvents[1..];
        pruned := pruned + 1;
      }
      forall i | 0 <= i < |launchEvents|
        ensures launchEvents[i].ts >= cutoff
      {
        assert launchEvents[0] == history[pruned] && launchEvents[i] == history[pruned + i];
      }
    }

    /** Counts what is left per GPU. */
    method CountLeft(ghost cutoff: real) returns (counts: map<u32, nat>)
      requires Recent(launchEvents, cutoff)
      ensures forall gpu: u32 :: gpu in counts <==> Count(launchEvents, gpu, cutoff) > 0
      ensures forall gpu: u32 :: gpu in counts ==> counts[gpu] == Count(launchEvents, gpu, cutoff)
    {
      counts := map[];
      var i := 0;
      while i < |launchEvents|
        invariant i <= |launchEvents|
        invariant forall gpu: u32 :: gpu in counts <==> Count(launchEvents[..i], gpu, cutoff) > 0
        invariant forall gpu: u32 :: gpu in counts ==> counts[gpu] == Count(launchEvents[..i], gpu, cutoff)
      {
        var e := launchEvents[i];
        assert launchEvents[..i + 1][..i] == launchEvents[..i];
        counts := counts[e.gpu := (if e.gpu in counts then counts[e.gpu] else 0) + 1];
        i := i + 1;
      }
      assert launchEvents[..i] == launchEvents;
    }

    /** Publishes the rates: all known gauges are zeroed, then every counted GPU gets its value, in any order. */
    method Publish(counts: map<u32, nat>)
      requires window > 0.0
      modifies this`gauges
      ensures gauges.Keys == old(gauges).Keys + counts.Keys
      ensures forall gpu :: gpu in gauges ==> gauges[gpu] == if gpu in counts then counts[gpu] as real / window else 0.0
    {
      hide PublishedTo;
      ghost var known, done := gauges.Keys, {};
      gauges := map gpu | gpu in gauges :: 0.0;
      PublishStart(known, counts, gauges, window);
      var todo := counts.Keys;
      while todo != {}
        invariant done + todo == counts.Keys
        invariant PublishedTo(known, counts, done, gauges, window)
        decreases |todo|
      {
        var gpu :| gpu in todo;
        PublishStep(known, counts, done, gauges, window, gpu);
        gauges := gauges[gpu := counts[gpu] as real / window];
        done := done + {gpu};
        todo := todo - {gpu};
      }
      assert done == counts.Keys;
      PublishEnd(known, counts, gauges, window);
    }

    /** After an update every gauge is the number of launches in the last `window` seconds of the whole history,
        per second: pruning never drops a launch a later window needs. */
    method UpdateRateGauges(now: real)
      requires Valid() && now >= lastUpdate
      modifies this`launchEvents, this`gauges, this`pruned, this`lastUpdate
      ensures Valid() && lastUpdate == now
      ensures RatesOf(old(gauges), gauges, history, now - window, window)
    {
      hide Count, InOrder;
      ghost var known := gauges;
      var cutoff := now - window;
      Prune(cutoff);
      var counts := CountLeft(cutoff);
      Publish(counts);
      lastUpdate := now;
      forall gpu: u32
        ensures gpu in gauges <==> gpu in known || Count(history, gpu, cutoff) > 0
        ensures gpu in gauges ==> gauges[gpu] == Count(history, gpu, cutoff) as real / window
      {
        OldDoNotCount(history, pruned, gpu, cutoff);
        assert gpu in gauges.Keys <==> gpu in known.Keys + counts.Keys;
        assert 0 as real / window == 0.0;
      }
    }
  }
}
