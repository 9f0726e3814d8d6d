/** What one pass of the polling thread over its snapshot (RingParser::Run in src/parser.cpp) gives to each queue, and
    what a whole run of passes does. */
module Iterations {
  import opened Model
  import opened Scheduling

  // ---- The passes of a run ----

  predicate Present(p: Parser, uid: u64) {
    exists i :: 0 <= i < |p.queues| && p.queues[i].info.uid == uid
  }

  /** The times of the passes begun while the queue was in the vector. */
  function Begun(uid: u64, steps: seq<Step>): seq<real> {
    if steps == [] then []
    else
      var p, last := Exec(steps[..|steps| - 1]), steps[|steps| - 1];
      Begun(uid, steps[..|steps| - 1]) + if last.Begin? && p.phase.Idle? && Present(p, uid) then [last.now] else []
  }

  function Times(xs: seq<Seen>): (ts: seq<real>)
    ensures |ts| == |xs|
  {
    seq(|xs|, i requires 0 <= i < |xs| => xs[i].now)
  }

  /** Inside a pass: the queue is in the snapshot and still to have its turn. */
  predicate Waiting(p: Parser, uid: u64) {
    p.phase.Polling? && exists i :: p.phase.cursor <= i < p.phase.limit && i < |p.queues| && p.queues[i].info.uid == uid
  }

  lemma NextWaits(p: Parser, uid: u64, sample: Sample)
    requires WellFormed(p) && Enabled(p, NextTurn(sample))
    ensures Waiting(p, uid) <==> p.queues[p.phase.cursor].info.uid == uid || Waiting(Apply(p, NextTurn(sample)), uid)
    ensures p.queues[p.phase.cursor].info.uid == uid ==> !Waiting(Apply(p, NextTurn(sample)), uid)
  {
    hide TakeTurn;
    var c, u := p.phase.cursor, Apply(p, NextTurn(sample));
    assert forall i :: 0 <= i < |p.queues| ==> u.queues[i].info == p.queues[i].info;
    if Waiting(p, uid) && p.queues[c].info.uid != uid {
      var i :| c <= i < p.phase.limit && p.queues[i].info.uid == uid;
      assert u.queues[i].info.uid == uid;
    }
    if Waiting(u, uid) {
      var i :| c + 1 <= i < p.phase.limit && u.queues[i].info.uid == uid;
      assert p.queues[i].info.uid == uid;
    }
  }

  lemma BeginWaits(p: Parser, uid: u64, now: real)
    requires p.phase.Idle?
    ensures Waiting(Apply(p, Begin(now)), uid) <==> Present(p, uid)
    ensures Apply(p, Begin(now)).phase.Polling? && Apply(p, Begin(now)).phase.now == now
  {
    var u := Apply(p, Begin(now));
    if Present(p, uid) {
      var i :| 0 <= i < |p.queues| && p.queues[i].info.uid == uid;
      assert u.queues[i].info.uid == uid && u.phase.cursor <= i < u.phase.limit;
    }
  }

  lemma FinishWaits(p: Parser, uid: u64)
    requires Enabled(p, Finish)
    ensures !Waiting(p, uid) && !Waiting(Apply(p, Finish), uid)
  {
  }

  lemma AddWaits(p: Parser, uid: u64, info: QueueInfo)
    requires WellFormed(p)
    ensures Waiting(Apply(p, Add(info)), uid) <==> Waiting(p, uid)
    ensures Apply(p, Add(info)).phase == p.phase
  {
    var u := Apply(p, Add(info));
    if Waiting(p, uid) {
      var i :| p.phase.cursor <= i < p.phase.limit && i < |p.queues| && p.queues[i].info.uid == uid;
      assert u.queues[i].info.uid == uid;
    }
    if Waiting(u, uid) {
      var i :| p.phase.cursor <= i < p.phase.limit && i < |u.queues| && u.queues[i].info.uid == uid;
      assert p.queues[i].info.uid == uid;
    }
  }

  /** A queue still waiting owes one turn, at the time of the pass; no other owes any. */
  predicate Owes(uid: u64, steps: seq<Step>) {
    var p, polled := Exec(steps), Times(SeenBy(uid, steps));
    Begun(uid, steps) == if Waiting(p, uid) then polled + [p.phase.now] else polled
  }

  lemma TimesAppend(xs: seq<Seen>, x: Seen)
    ensures Times(xs + [x]) == Times(xs) + [x.now]
  {
  }

  lemma OwesStep(uid: u64, steps: seq<Step>)
    requires steps != [] && WellFormed(Exec(steps[..|steps| - 1])) && Owes(uid, steps[..|steps| - 1])
    ensures Owes(uid, steps)
  {
    hide Waiting, Apply, Present, Times, WellFormed;
    var init, last := steps[..|steps| - 1], steps[|steps| - 1];
    var p, xs := Exec(init), SeenBy(uid, init);
    assert xs + [] == xs && Begun(uid, init) + [] == Begun(uid, init);
    if !Enabled(p, last) {
      assert Exec(steps) == p by {
        DisabledStays(p, last);
      }
    } else {
      match last
      case Begin(now) =>
        BeginWaits(p, uid, now);
        NotPolling(p, uid);
      case NextTurn(sample) =>
        NextWaits(p, uid, sample);
        TurnGoesOn(p, sample);
        TimesAppend(xs, Seen(sample, p.phase.now));
      case Finish =>
        FinishWaits(p, uid);
      case Add(info) =>
        AddWaits(p, uid, info);
    }
  }

  lemma DisabledStays(p: Parser, step: Step)
    requires !Enabled(p, step)
    ensures Apply(p, step) == p
  {
  }

  lemma NotPolling(p: Parser, uid: u64)
    requires p.phase.Idle?
    ensures !Waiting(p, uid)
  {
  }

  lemma TurnGoesOn(p: Parser, sample: Sample)
    requires Enabled(p, NextTurn(sample))
    ensures var u := Apply(p, NextTurn(sample)); u.phase.Polling? && u.phase.now == p.phase.now
  {
    hide TakeTurn;
  }

  lemma {:induction false} OwesAlways(uid: u64, steps: seq<Step>)
    requires DistinctUids(steps)
    ensures Owes(uid, steps)
  {
    hide Owes, Apply, WellFormed;
    if steps != [] {
      var init := steps[..|steps| - 1];
      OwesAlways(uid, init);
      Projection(uid, init);
      OwesStep(uid, steps);
    } else {
      StartOwes(uid);
    }
  }

  lemma StartOwes(uid: u64)
    ensures Owes(uid, [])
  {
  }

  /** Between passes, and whatever was registered while they ran, a queue has had exactly one turn for every pass begun
      while it was in the vector, at the time of that pass. */
  lemma OneTurnPerPass(uid: u64, steps: seq<Step>)
    requires DistinctUids(steps) && Exec(steps).phase.Idle?
    ensures Times(SeenBy(uid, steps)) == Begun(uid, steps)
  {
    OwesAlways(uid, steps);
  }

  // ---- One pass ----

  /** The steps from the beginning of a pass at time `t` on. */
  function Pass(before: seq<Step>, t: real, since: seq<Step>): seq<Step> {
    before + [Begin(t)] + since
  }

  /** The pass has begun, and none of the steps since has finished it. */
  predicate Ongoing(before: seq<Step>, t: real, since: seq<Step>) {
    && Exec(before).phase.Idle?
    && forall k :: 0 <= k < |since| && since[k].Finish? ==> !Enabled(Exec(Pass(before, t, since[..k])), Finish)
  }

  /** The queue has had exactly one turn since, at time `t`. */
  ghost predicate HadTurn(uid: u64, before: seq<Step>, t: real, all: seq<Step>) {
    exists sample :: SeenBy(uid, all) == SeenBy(uid, before) + [Seen(sample, t)]
  }

  lemma PassSnoc(before: seq<Step>, t: real, since: seq<Step>)
    requires since != []
    ensures var all := Pass(before, t, since); all != [] && all[..|all| - 1] == Pass(before, t, since[..|since| - 1])
    ensures Pass(before, t, since)[|Pass(before, t, since)| - 1] == since[|since| - 1]
  {
  }

  /** The queues of the snapshot keep their places until the pass is finished. */
  predicate SamePlaces(p: Parser, u: Parser, t: real) {
    && u.phase.Polling? && u.phase.now == t && u.phase.limit == |p.queues| <= |u.queues|
    && forall i :: 0 <= i < |p.queues| ==> u.queues[i].info == p.queues[i].info
  }

  lemma PlacesStart(p: Parser, t: real)
    requires p.phase.Idle?
    ensures SamePlaces(p, Apply(p, Begin(t)), t)
  {
  }

  lemma PlacesStep(p: Parser, u: Parser, t: real, step: Step)
    requires SamePlaces(p, u, t) && !(step.Finish? && Enabled(u, Finish))
    ensures SamePlaces(p, Apply(u, step), t)
  {
    hide TakeTurn;
  }

  lemma {:induction false} Places(before: seq<Step>, t: real, since: seq<Step>)
    requires Ongoing(before, t, since)
    ensures SamePlaces(Exec(before), Exec(Pass(before, t, since)), t)
  {
    hide SamePlaces, Apply;
    if since == [] {
      var all := Pass(before, t, []);
      assert all == before + [Begin(t)] && all[..|all| - 1] == before;
      PlacesStart(Exec(before), t);
    } else {
      var init := since[..|since| - 1];
      OngoingPrefix(before, t, since);
      Places(before, t, init);
      PassSnoc(before, t, since);
      PlacesStep(Exec(before), Exec(Pass(before, t, init)), t, since[|since| - 1]);
    }
  }

  lemma OngoingPrefix(before: seq<Step>, t: real, since: seq<Step>)
    requires Ongoing(before, t, since) && since != []
    ensures Ongoing(before, t, since[..|since| - 1])
  {
    hide Exec;
    assert forall k :: 0 <= k < |since| ==> since[..|since| - 1][..k] == since[..k];
  }

  lemma {:induction false} BegunOnce(uid: u64, before: seq<Step>, t: real, since: seq<Step>)
    requires Ongoing(before, t, since)
    ensures Begun(uid, Pass(before, t, since)) == Begun(uid, before) + if Present(Exec(before), uid) then [t] else []
  {
    hide Exec, Present;
    if since == [] {
      var all := Pass(before, t, []);
      assert all == before + [Begin(t)] && all[..|all| - 1] == before;
    } else {
      var init := since[..|since| - 1];
      OngoingPrefix(before, t, since);
      BegunOnce(uid, before, t, init);
      PassSnoc(before, t, since);
      Places(before, t, init);
    }
  }

  lemma WaitingIsPlaced(p: Parser, u: Parser, t: real, uid: u64)
    requires SamePlaces(p, u, t)
    ensures Waiting(u, uid) ==> Present(p, uid)
    ensures Enabled(u, Finish) <==> forall q :: q in p.queues ==> !Waiting(u, q.info.uid)
  {
    if Waiting(u, uid) {
      var i :| u.phase.cursor <= i < u.phase.limit && i < |u.queues| && u.queues[i].info.uid == uid;
      assert p.queues[i].info.uid == uid;
    }
    if u.phase.cursor < u.phase.limit {
      var q := p.queues[u.phase.cursor];
      assert u.queues[u.phase.cursor].info.uid == q.info.uid;
      assert q in p.queues && Waiting(u, q.info.uid);
    }
  }

  lemma OneMore(earlier: seq<Seen>, xs: seq<Seen>, t: real)
    requires Times(earlier + xs) == Times(earlier) + [t]
    ensures |xs| == 1 && xs == [Seen(xs[0].sample, t)]
  {
    var n := |earlier|;
    assert |xs| == 1;
    assert (earlier + xs)[n] == xs[0] && Times(earlier + xs)[n] == xs[0].now;
  }

  lemma NoMore(earlier: seq<Seen>, xs: seq<Seen>)
    requires Times(earlier + xs) == Times(earlier)
    ensures xs == []
  {
  }

  lemma SameFront(a: seq<real>, b: seq<real>, t: real)
    ensures a + [t] == b + [t] ==> a == b
  {
    if a + [t] == b + [t] {
      assert (a + [t])[..|a|] == a && (b + [t])[..|b|] == b;
    }
  }

  /** What the queue owes at any moment of a pass. */
  lemma PassOwes(uid: u64, before: seq<Step>, t: real, since: seq<Step>)
    requires DistinctUids(Pass(before, t, since)) && Ongoing(before, t, since)
    ensures var all := Pass(before, t, since);
            Times(SeenBy(uid, all)) + (if Waiting(Exec(all), uid) then [t] else []) ==
            Times(SeenBy(uid, before)) + if Present(Exec(before), uid) then [t] else []
    ensures Waiting(Exec(Pass(before, t, since)), uid) ==> Present(Exec(before), uid)
  {
    hide Waiting, Present, SamePlaces, SeenBy, Begun, Exec, Times;
    var all := Pass(before, t, since);
    Places(before, t, since);
    BegunOnce(uid, before, t, since);
    assert DistinctUids(before) by {
      assert forall i :: 0 <= i < |before| ==> all[i] == before[i];
    }
    OneTurnPerPass(uid, before);
    OwesAlways(uid, all);
    WaitingIsPlaced(Exec(before), Exec(all), t, uid);
    PlacesTime(Exec(before), Exec(all), t);
    assert Times(SeenBy(uid, all)) + [] == Times(SeenBy(uid, all)) && Begun(uid, before) + [] == Begun(uid, before);
  }

  lemma TurnTaken(uid: u64, before: seq<Step>, t: real, since: seq<Step>)
    requires DistinctUids(Pass(before, t, since)) && Ongoing(before, t, since)
    ensures var all := Pass(before, t, since);
            if Present(Exec(before), uid) && !Waiting(Exec(all), uid) then HadTurn(uid, before, t, all)
            else SeenBy(uid, all) == SeenBy(uid, before) && !HadTurn(uid, before, t, all)
  {
    hide Waiting, Present, SeenBy, Exec, Times, Ongoing, DistinctUids;
    var all, earlier := Pass(before, t, since), SeenBy(uid, before);
    PassOwes(uid, before, t, since);
    assert all == before + ([Begin(t)] + since);
    var xs := SeenGrows(uid, before, [Begin(t)] + since);
    assert SeenBy(uid, all) == earlier + xs;
    assert Times(earlier) + [] == Times(earlier) && Times(earlier + xs) + [] == Times(earlier + xs);
    if Present(Exec(before), uid) && !Waiting(Exec(all), uid) {
      OneMore(earlier, xs, t);
    } else {
      SameFront(Times(earlier + xs), Times(earlier), t);
      NoMore(earlier, xs);
    }
  }

  lemma PlacesTime(p: Parser, u: Parser, t: real)
    requires SamePlaces(p, u, t)
    ensures u.phase.Polling? && u.phase.now == t
  {
  }

  /** A pass can be finished exactly when every queue the vector held at its beginning has had its turn; until then
      the next turn can be taken. */
  lemma FinishWhen(before: seq<Step>, t: real, since: seq<Step>)
    requires DistinctUids(Pass(before, t, since)) && Ongoing(before, t, since)
    ensures var all := Pass(before, t, since);
            && (Enabled(Exec(all), Finish) <==> forall q :: q in Exec(before).queues ==> HadTurn(q.info.uid, before, t, all))
            && (forall sample :: Enabled(Exec(all), Finish) != Enabled(Exec(all), NextTurn(sample)))
  {
    hide Waiting, Present, HadTurn;
    var p, all := Exec(before), Pass(before, t, since);
    Places(before, t, since);
    WaitingIsPlaced(p, Exec(all), t, 0);
    forall q | q in p.queues
      ensures Waiting(Exec(all), q.info.uid) <==> !HadTurn(q.info.uid, before, t, all)
    {
      PresentIs(p, q);
      TurnTaken(q.info.uid, before, t, since);
    }
  }

  lemma PresentIs(p: Parser, q: Queue)
    requires q in p.queues
    ensures Present(p, q.info.uid)
  {
    var i :| 0 <= i < |p.queues| && p.queues[i] == q;
  }

  /** From the beginning of a pass to its end, whatever is registered in between, every queue the vector held at the
      beginning has exactly one turn, at the time the pass began, and no other queue has any. */
  lemma EveryQueueOnce(uid: u64, before: seq<Step>, t: real, since: seq<Step>)
    requires DistinctUids(Pass(before, t, since)) && Ongoing(before, t, since)
    requires Enabled(Exec(Pass(before, t, since)), Finish)
    ensures var all := Pass(before, t, since) + [Finish];
            if exists q :: q in Exec(before).queues && q.info.uid == uid then HadTurn(uid, before, t, all)
            else SeenBy(uid, all) == SeenBy(uid, before)
  {
    hide Waiting, Present, Apply;
    var pass := Pass(before, t, since);
    TurnTaken(uid, before, t, since);
    FinishWaits(Exec(pass), uid);
    assert (pass + [Finish])[..|pass|] == pass;
    assert SeenBy(uid, pass) + [] == SeenBy(uid, pass);
    PresentWhen(Exec(before), uid);
  }

  lemma PresentWhen(p: Parser, uid: u64)
    ensures Present(p, uid) <==> exists q :: q in p.queues && q.info.uid == uid
  {
    if Present(p, uid) {
      var i :| 0 <= i < |p.queues| && p.queues[i].info.uid == uid;
      assert p.queues[i] in p.queues;
    }
  }
}
