/** Begin and end events of rendered slices and their order (WritePerfetto in src/trace_writer.cpp),
    with times as exact reals. */
module SliceEvents {
  import opened Model

  /** Minimum rendered slice width: 100 ns. */
  const MIN_DUR: real := 0.0000001

  /** One record's slice: the track it is drawn on and its two stamps in seconds. */
  datatype Slice = Slice(track: u64, submit: real, complete: real) {
    function End(): real {
      if complete - submit < MIN_DUR then submit + MIN_DUR else complete
    }
  }

  datatype Ev = Ev(ts: int, begin: bool, rec: nat)

  function NsOf(sec: real): int {
    (sec * 1000000000.0).Floor
  }

  function BeginOf(slices: seq<Slice>, r: nat): Ev
    requires r < |slices|
  {
    Ev(NsOf(slices[r].submit), true, r)
  }

  function EndOf(slices: seq<Slice>, r: nat): Ev
    requires r < |slices|
  {
    Ev(NsOf(slices[r].End()), false, r)
  }

  /** The events in the order they are pushed. */
  function Events(slices: seq<Slice>, n: nat): seq<Ev>
    requires n <= |slices|
  {
    if n == 0 then [] else Events(slices, n - 1) + [BeginOf(slices, n - 1), EndOf(slices, n - 1)]
  }

  /** The sort's comparator: by time, and an end before a begin at equal times. */
  predicate Less(a: Ev, b: Ev) {
    if a.ts != b.ts then a.ts < b.ts else !a.begin && b.begin
  }

  predicate Ordered(evs: seq<Ev>) {
    forall i, j :: 0 <= i < j < |evs| ==> !Less(evs[j], evs[i])
  }

  // ---- The stable sort ----

  function Insert(e: Ev, s: seq<Ev>): seq<Ev> {
    if s == [] || Less(e, s[0]) then [e] + s else [s[0]] + Insert(e, s[1..])
  }

  function StableSort(evs: seq<Ev>): seq<Ev> {
    if evs == [] then [] else Insert(evs[|evs| - 1], StableSort(evs[..|evs| - 1]))
  }

  /** The events the comparator cannot tell from `e`, in order. */
  function Ties(e: Ev, s: seq<Ev>): seq<Ev> {
    if s == [] then []
    else (if !Less(s[0], e) && !Less(e, s[0]) then [s[0]] else []) + Ties(e, s[1..])
  }

  lemma {:induction false} InsertKeeps(e: Ev, s: seq<Ev>)
    ensures multiset(Insert(e, s)) == multiset(s) + multiset{e}
  {
    if s != [] && !Less(e, s[0]) {
      InsertKeeps(e, s[1..]);
      assert s == [s[0]] + s[1..];
    }
  }

  lemma {:induction false} InsertOrders(e: Ev, s: seq<Ev>)
    requires Ordered(s)
    ensures Ordered(Insert(e, s))
  {
    if s != [] && !Less(e, s[0]) {
      InsertOrders(e, s[1..]);
      InsertKeeps(e, s[1..]);
      var rest := Insert(e, s[1..]);
      forall j | 0 <= j < |rest|
        ensures !Less(rest[j], s[0])
      {
        assert rest[j] in multiset(rest);
        assert rest[j] == e || rest[j] in s[1..];
      }
    }
  }

  lemma {:induction false} InsertTies(e: Ev, s: seq<Ev>, x: Ev)
    requires Ordered(s)
    ensures Ties(x, Insert(e, s)) == Ties(x, s) + Ties(x, [e])
  {
    if s == [] {
      assert Insert(e, s) == [e];
    } else if Less(e, s[0]) {
      assert ([e] + s)[1..] == s;
      if !Less(e, x) && !Less(x, e) {
        NoTies(x, s);
      }
      assert Ties(x, [e]) + Ties(x, s) == Ties(x, [e] + s) by {
        assert Ties(x, [e]) == (if !Less(e, x) && !Less(x, e) then [e] else []) + Ties(x, []);
      }
    } else {
      InsertTies(e, s[1..], x);
      assert ([s[0]] + Insert(e, s[1..]))[1..] == Insert(e, s[1..]);
    }
  }

  /** Behind an event that comes strictly after a key's ties there are no ties of that key. */
  lemma {:induction false} NoTies(x: Ev, s: seq<Ev>)
    requires forall i :: 0 <= i < |s| ==> Less(x, s[i])
    ensures Ties(x, s) == []
  {
    if s != [] {
      NoTies(x, s[1..]);
    }
  }

  /** The sort yields a permutation, in order, and keeps the input order of events it cannot tell apart. */
  lemma {:induction false} SortCorrect(evs: seq<Ev>)
    ensures multiset(StableSort(evs)) == multiset(evs)
    ensures Ordered(StableSort(evs))
    ensures forall x :: Ties(x, StableSort(evs)) == Ties(x, evs)
  {
    if evs != [] {
      var init, last := evs[..|evs| - 1], evs[|evs| - 1];
      SortCorrect(init);
      assert evs == init + [last];
      InsertKeeps(last, StableSort(init));
      InsertOrders(last, StableSort(init));
      forall x
        ensures Ties(x, StableSort(evs)) == Ties(x, evs)
      {
        InsertTies(last, StableSort(init), x);
        TiesAppend(x, init, [last]);
      }
    }
  }

  lemma {:induction false} TiesAppend(x: Ev, a: seq<Ev>, b: seq<Ev>)
    ensures Ties(x, a + b) == Ties(x, a) + Ties(x, b)
  {
    if a == [] {
      assert a + b == b;
    } else {
      assert (a + b)[1..] == a[1..] + b;
      TiesAppend(x, a[1..], b);
    }
  }

  // ---- Balance ----

  predicate IsEvent(slices: seq<Slice>, e: Ev) {
    e.rec < |slices| && (e == BeginOf(slices, e.rec) || e == EndOf(slices, e.rec))
  }

  predicate AreEvents(slices: seq<Slice>, evs: seq<Ev>) {
    forall i :: 0 <= i < |evs| ==> IsEvent(slices, evs[i])
  }

  /** Begins minus ends of one track. */
  function Depth(slices: seq<Slice>, evs: seq<Ev>, track: u64): int
    requires AreEvents(slices, evs)
  {
    if evs == [] then 0
    else
      var e := evs[|evs| - 1];
      Depth(slices, evs[..|evs| - 1], track) +
      if slices[e.rec].track != track then 0 else if e.begin then 1 else -1
  }

  /** The same, summed over records instead of events. */
  function OpenSlices(slices: seq<Slice>, seen: multiset<Ev>, track: u64, n: nat): int
    requires n <= |slices|
  {
    if n == 0 then 0
    else
      OpenSlices(slices, seen, track, n - 1) +
      if slices[n - 1].track == track then seen[BeginOf(slices, n - 1)] as int - seen[EndOf(slices, n - 1)] as int else 0
  }

  lemma {:induction false} OpenStep(slices: seq<Slice>, seen: multiset<Ev>, track: u64, n: nat, e: Ev)
    requires n <= |slices| && IsEvent(slices, e)
    ensures OpenSlices(slices, seen + multiset{e}, track, n) ==
            OpenSlices(slices, seen, track, n) +
            if e.rec >= n || slices[e.rec].track != track then 0 else if e.begin then 1 else -1
  {
    if n > 0 {
      OpenStep(slices, seen, track, n - 1, e);
    }
  }

  lemma {:induction false} NothingOpen(slices: seq<Slice>, track: u64, n: nat)
    requires n <= |slices|
    ensures OpenSlices(slices, multiset{}, track, n) == 0
  {
    if n > 0 {
      NothingOpen(slices, track, n - 1);
    }
  }

  lemma {:induction false} DepthIsOpen(slices: seq<Slice>, evs: seq<Ev>, track: u64)
    requires AreEvents(slices, evs)
    ensures Depth(slices, evs, track) == OpenSlices(slices, multiset(evs), track, |slices|)
  {
    if evs == [] {
      NothingOpen(slices, track, |slices|);
    } else {
      var init, e := evs[..|evs| - 1], evs[|evs| - 1];
      DepthIsOpen(slices, init, track);
      OpenStep(slices, multiset(init), track, |slices|, e);
      assert evs == init + [e];
    }
  }

  /** Every event is pushed exactly once. */
  lemma {:induction false} EventsOnce(slices: seq<Slice>, n: nat, r: nat)
    requires n <= |slices| && r < |slices|
    ensures multiset(Events(slices, n))[BeginOf(slices, r)] == if r < n then 1 else 0
    ensures multiset(Events(slices, n))[EndOf(slices, r)] == if r < n then 1 else 0
  {
    hide NsOf, Events;
    EventsGrow(slices, n);
    if n > 0 {
      EventsOnce(slices, n - 1, r);
      var b, e := BeginOf(slices, n - 1), EndOf(slices, n - 1);
      CountPushed(Events(slices, n - 1), b, e, BeginOf(slices, r));
      CountPushed(Events(slices, n - 1), b, e, EndOf(slices, r));
    }
  }

  lemma EventsGrow(slices: seq<Slice>, n: nat)
    requires n <= |slices|
    ensures Events(slices, n) ==
            if n == 0 then [] else Events(slices, n - 1) + [BeginOf(slices, n - 1), EndOf(slices, n - 1)]
  {
  }

  lemma CountPushed(s: seq<Ev>, b: Ev, e: Ev, x: Ev)
    ensures multiset(s + [b, e])[x] == multiset(s)[x] + (if x == b then 1 else 0) + (if x == e then 1 else 0)
  {
    assert multiset(s + [b, e]) == multiset(s) + multiset{b} + multiset{e};
  }

  lemma {:induction false} EventsAre(slices: seq<Slice>, n: nat)
    requires n <= |slices|
    ensures AreEvents(slices, Events(slices, n))
  {
    if n > 0 {
      EventsAre(slices, n - 1);
    }
  }

  /** A slice's end comes strictly after its begin: the minimum width is more than one tick of the clock. */
  lemma EndAfterBegin(slices: seq<Slice>, r: nat)
    requires r < |slices|
    ensures BeginOf(slices, r).ts < EndOf(slices, r).ts
  {
    var s := slices[r];
    assert s.End() >= s.submit + MIN_DUR;
    assert s.End() * 1000000000.0 >= s.submit * 1000000000.0 + 100.0;
  }

  /** In any ordered arrangement of the events each record's begin precedes its own end. */
  lemma BeginPrecedesEnd(slices: seq<Slice>, out: seq<Ev>, i: nat, j: nat)
    requires Ordered(out) && i < |out| && j < |out|
    requires out[i].rec == out[j].rec < |slices|
    requires out[i] == BeginOf(slices, out[i].rec) && out[j] == EndOf(slices, out[j].rec)
    ensures i < j
  {
    EndAfterBegin(slices, out[i].rec);
    if j < i {
      assert Less(out[i], out[j]);
    }
  }

  predicate Arranges(slices: seq<Slice>, out: seq<Ev>) {
    Ordered(out) && multiset(out) == multiset(Events(slices, |slices|))
  }

  lemma ArrangedAre(slices: seq<Slice>, out: seq<Ev>)
    requires Arranges(slices, out)
    ensures AreEvents(slices, out)
  {
    EventsAre(slices, |slices|);
    forall i | 0 <= i < |out|
      ensures IsEvent(slices, out[i])
    {
      assert out[i] in multiset(out);
      assert out[i] in Events(slices, |slices|);
    }
  }

  /** In a prefix a record has begun at least as often as it has ended. */
  lemma PrefixBegins(slices: seq<Slice>, out: seq<Ev>, k: nat, r: nat)
    requires Arranges(slices, out) && k <= |out| && r < |slices|
    ensures multiset(out[..k])[EndOf(slices, r)] <= multiset(out[..k])[BeginOf(slices, r)]
  {
    hide NsOf, Events, Ordered;
    EventsOnce(slices, |slices|, r);
    assert out == out[..k] + out[k..];
    var b, e := BeginOf(slices, r), EndOf(slices, r);
    if e in multiset(out[..k]) {
      assert e in out[..k];
      var j :| 0 <= j < k && out[j] == e;
      assert b in multiset(out);
      assert b in out;
      var i :| 0 <= i < |out| && out[i] == b;
      BeginPrecedesEnd(slices, out, i, j);
      assert out[..k][i] == b;
      assert b in out[..k];
    }
  }

  lemma {:induction false} OpenNonNegative(slices: seq<Slice>, out: seq<Ev>, k: nat, track: u64, n: nat)
    requires Arranges(slices, out) && k <= |out| && n <= |slices|
    ensures OpenSlices(slices, multiset(out[..k]), track, n) >= 0
  {
    if n > 0 {
      OpenNonNegative(slices, out, k, track, n - 1);
      PrefixBegins(slices, out, k, n - 1);
    }
  }

  lemma {:induction false} AllClosed(slices: seq<Slice>, track: u64, n: nat)
    requires n <= |slices|
    ensures OpenSlices(slices, multiset(Events(slices, |slices|)), track, n) == 0
  {
    if n > 0 {
      AllClosed(slices, track, n - 1);
      EventsOnce(slices, |slices|, n - 1);
    }
  }

  /** The written slices are balanced: on every track the depth is never negative in any prefix and ends at zero.
      This holds of every ordered arrangement of the events, the stable sort's in particular. */
  lemma Balanced(slices: seq<Slice>, out: seq<Ev>, track: u64, k: nat)
    requires Arranges(slices, out) && k <= |out|
    ensures AreEvents(slices, out)
    ensures Depth(slices, out[..k], track) >= 0
    ensures Depth(slices, out, track) == 0
  {
    ArrangedAre(slices, out);
    DepthIsOpen(slices, out[..k], track);
    OpenNonNegative(slices, out, k, track, |slices|);
    DepthIsOpen(slices, out, track);
    AllClosed(slices, track, |slices|);
  }

  lemma SortArranges(slices: seq<Slice>)
    ensures Arranges(slices, StableSort(Events(slices, |slices|)))
  {
    SortCorrect(Events(slices, |slices|));
  }

  // ---- The exact order of the written events ----

  /** Which of two different events comes first: by the comparator, and in record order where it ties. */
  predicate Precedes(x: Ev, y: Ev) {
    Less(x, y) || (!Less(y, x) && x.rec < y.rec)
  }

  predicate Sequenced(evs: seq<Ev>) {
    forall i, j :: 0 <= i < j < |evs| ==> Precedes(evs[i], evs[j])
  }

  lemma PrecedesOrder(x: Ev, y: Ev, z: Ev)
    ensures Precedes(x, y) && Precedes(y, z) ==> Precedes(x, z)
    ensures Precedes(x, y) ==> !Precedes(y, x)
  {
  }

  lemma {:induction false} InsertSequenced(e: Ev, s: seq<Ev>)
    requires Sequenced(s)
    requires forall i :: 0 <= i < |s| ==> Less(s[i], e) || Less(e, s[i]) || s[i].rec < e.rec
    ensures Sequenced(Insert(e, s))
  {
    if s == [] || Less(e, s[0]) {
      assert forall j :: 0 <= j < |s| ==> Less(e, s[j]);
    } else {
      InsertSequenced(e, s[1..]);
      InsertKeeps(e, s[1..]);
      var rest := Insert(e, s[1..]);
      forall j | 0 <= j < |rest|
        ensures Precedes(s[0], rest[j])
      {
        assert rest[j] in multiset(rest);
        assert rest[j] == e || rest[j] in s[1..];
      }
    }
  }

  lemma SortSnoc(evs: seq<Ev>, b: Ev, e: Ev)
    ensures StableSort(evs + [b, e]) == Insert(e, Insert(b, StableSort(evs)))
  {
    var all := evs + [b, e];
    assert all[..|all| - 1] == evs + [b] && (evs + [b])[..|evs|] == evs;
  }

  predicate RecsBelow(evs: seq<Ev>, n: nat) {
    forall i :: 0 <= i < |evs| ==> evs[i].rec < n
  }

  lemma {:induction false} EventsBelow(slices: seq<Slice>, n: nat)
    requires n <= |slices|
    ensures RecsBelow(Events(slices, n), n)
  {
    hide NsOf;
    if n > 0 {
      EventsBelow(slices, n - 1);
    }
  }

  lemma SortedMember(evs: seq<Ev>, x: Ev)
    ensures x in StableSort(evs) <==> x in evs
  {
    hide Ordered, Ties;
    SortCorrect(evs);
    assert x in StableSort(evs) <==> x in multiset(StableSort(evs));
    assert x in evs <==> x in multiset(evs);
  }

  /** The sort puts the events of the first n slices exactly in that order. */
  lemma {:induction false} SortSequenced(slices: seq<Slice>, n: nat)
    requires n <= |slices|
    ensures Sequenced(StableSort(Events(slices, n)))
  {
    hide NsOf, StableSort, Insert, Sequenced;
    EventsGrow(slices, n);
    if n == 0 {
      NothingSequenced();
    } else {
      var before, b, e := Events(slices, n - 1), BeginOf(slices, n - 1), EndOf(slices, n - 1);
      var s := StableSort(before);
      SortSequenced(slices, n - 1);
      EventsBelow(slices, n - 1);
      SortSnoc(before, b, e);
      forall i | 0 <= i < |s|
        ensures s[i].rec < n - 1
      {
        SortedMember(before, s[i]);
      }
      InsertSequenced(b, s);
      EndAfterBegin(slices, n - 1);
      InsertBelow(b, e, s);
      InsertSequenced(e, Insert(b, s));
    }
  }

  lemma NothingSequenced()
    ensures Sequenced(StableSort([]))
  {
  }

  lemma InsertBelow(b: Ev, e: Ev, s: seq<Ev>)
    requires Less(b, e) && forall i :: 0 <= i < |s| ==> s[i].rec < e.rec
    ensures var t := Insert(b, s);
            forall i :: 0 <= i < |t| ==> Less(t[i], e) || Less(e, t[i]) || t[i].rec < e.rec
  {
    hide Insert;
    InsertKeeps(b, s);
    var t := Insert(b, s);
    forall i | 0 <= i < |t|
      ensures t[i] == b || t[i].rec < e.rec
    {
      assert t[i] in multiset(t);
      assert t[i] == b || t[i] in s;
    }
  }

  /** The events of all slices as they are written. */
  function Written(slices: seq<Slice>): seq<Ev> {
    StableSort(Events(slices, |slices|))
  }

  /** `x` is written before `y`. */
  predicate Before(out: seq<Ev>, x: Ev, y: Ev) {
    exists i, j :: 0 <= i < j < |out| && out[i] == x && out[j] == y
  }

  lemma BeforeWhen(out: seq<Ev>, x: Ev, y: Ev)
    requires Sequenced(out) && x in out && y in out && x != y
    ensures Before(out, x, y) <==> Precedes(x, y)
  {
    hide Precedes;
    var i :| 0 <= i < |out| && out[i] == x;
    var j :| 0 <= j < |out| && out[j] == y;
    if i < j {
      assert Before(out, x, y);
    } else {
      PrecedesOrder(y, x, y);
    }
  }

  lemma {:induction false} EventsHold(slices: seq<Slice>, n: nat, r: nat)
    requires r < n <= |slices|
    ensures BeginOf(slices, r) in Events(slices, n) && EndOf(slices, r) in Events(slices, n)
  {
    hide NsOf, Events;
    EventsGrow(slices, n);
    if r < n - 1 {
      EventsHold(slices, n - 1, r);
    } else {
      var last := [BeginOf(slices, r), EndOf(slices, r)];
      assert last[0] in last && last[1] in last;
    }
  }

  /** Slice b begins inside slice a and ends behind it, as written. */
  predicate CrossedInFile(slices: seq<Slice>, a: nat, b: nat)
    requires a < |slices| && b < |slices|
  {
    var out := Written(slices);
    && Before(out, BeginOf(slices, a), BeginOf(slices, b))
    && Before(out, BeginOf(slices, b), EndOf(slices, a))
    && Before(out, EndOf(slices, a), EndOf(slices, b))
  }

  /** The same in ticks: b begins after a, or with it as the later record; strictly before a ends; and ends after a, or
      with it as the later record. */
  predicate Crosses(slices: seq<Slice>, a: nat, b: nat)
    requires a < |slices| && b < |slices|
  {
    var (ba, bb, ea, eb) := (BeginOf(slices, a).ts, BeginOf(slices, b).ts, EndOf(slices, a).ts, EndOf(slices, b).ts);
    && (ba < bb || (ba == bb && a < b))
    && bb < ea
    && (ea < eb || (ea == eb && a < b))
  }

  lemma WrittenIs(slices: seq<Slice>, r: nat)
    requires r < |slices|
    ensures Sequenced(Written(slices))
    ensures BeginOf(slices, r) in Written(slices) && EndOf(slices, r) in Written(slices)
  {
    hide NsOf, StableSort, Events, Sequenced;
    SortSequenced(slices, |slices|);
    EventsHold(slices, |slices|, r);
    SortedMember(Events(slices, |slices|), BeginOf(slices, r));
    SortedMember(Events(slices, |slices|), EndOf(slices, r));
  }

  /** Two slices cross in the file exactly when their ticks do. */
  lemma CrossedWhen(slices: seq<Slice>, a: nat, b: nat)
    requires a < |slices| && b < |slices|
    ensures CrossedInFile(slices, a, b) <==> Crosses(slices, a, b)
  {
    hide NsOf, Written, Sequenced, Before;
    var out := Written(slices);
    WrittenIs(slices, a);
    WrittenIs(slices, b);
    if a != b {
      BeforeWhen(out, BeginOf(slices, a), BeginOf(slices, b));
      BeforeWhen(out, BeginOf(slices, b), EndOf(slices, a));
      BeforeWhen(out, EndOf(slices, a), EndOf(slices, b));
    } else {
      NotBeforeItself(out, BeginOf(slices, a));
    }
  }

  lemma NotBeforeItself(out: seq<Ev>, x: Ev)
    requires Sequenced(out)
    ensures !Before(out, x, x)
  {
    PrecedesOrder(x, x, x);
  }

  // ---- Nesting ----

  /** A viewer that keeps a stack per track: an end must close the slice opened last. None once that fails. */
  function Stack(slices: seq<Slice>, out: seq<Ev>, track: u64, k: nat): Option<seq<nat>>
    requires k <= |out| && AreEvents(slices, out)
  {
    if k == 0 then Some([])
    else
      match Stack(slices, out, track, k - 1)
      case None => None
      case Some(st) =>
        var e := out[k - 1];
        if slices[e.rec].track != track then Some(st)
        else if e.begin then Some(st + [e.rec])
        else if st != [] && st[|st| - 1] == e.rec then Some(st[..|st| - 1])
        else None
  }

  /** Begun and not ended among the first k events. */
  predicate Open(slices: seq<Slice>, out: seq<Ev>, track: u64, k: nat, r: nat)
    requires k <= |out|
  {
    && r < |slices| && slices[r].track == track
    && BeginOf(slices, r) in out[..k] && EndOf(slices, r) !in out[..k]
  }

  predicate InOpeningOrder(slices: seq<Slice>, st: seq<nat>) {
    forall p, q :: 0 <= p < q < |st| ==>
      st[p] < |slices| && st[q] < |slices| && Precedes(BeginOf(slices, st[p]), BeginOf(slices, st[q]))
  }

  /** The stack holds the open slices in the order they were opened. */
  ghost predicate StackIs(slices: seq<Slice>, out: seq<Ev>, track: u64, k: nat, st: seq<nat>)
    requires k <= |out|
  {
    && (forall r: nat :: r in st <==> Open(slices, out, track, k, r))
    && InOpeningOrder(slices, st)
  }

  /** All events of the slices, each once, in writing order. */
  ghost predicate Complete(slices: seq<Slice>, out: seq<Ev>) {
    && AreEvents(slices, out) && Sequenced(out)
    && forall r: nat :: r < |slices| ==> BeginOf(slices, r) in out && EndOf(slices, r) in out
  }

  lemma WrittenComplete(slices: seq<Slice>)
    ensures Complete(slices, Written(slices))
  {
    hide NsOf, IsEvent, Events, StableSort, Sequenced, Ordered;
    SortSequenced(slices, |slices|);
    SortArranges(slices);
    ArrangedAre(slices, Written(slices));
    forall r: nat | r < |slices|
      ensures BeginOf(slices, r) in Written(slices) && EndOf(slices, r) in Written(slices)
    {
      WrittenIs(slices, r);
    }
  }

  /** An event among the first k precedes the k-th and everything not among them follows or is it. */
  lemma PrefixSplits(out: seq<Ev>, k: nat, x: Ev)
    requires Sequenced(out) && k < |out| && x in out
    ensures x in out[..k] <==> Precedes(x, out[k])
    ensures x !in out[..k] && x != out[k] ==> Precedes(out[k], x)
    ensures out[k] !in out[..k]
  {
    hide Precedes;
    var i :| 0 <= i < |out| && out[i] == x;
    PrecedesOrder(x, out[k], x);
    PrecedesOrder(out[k], out[k], out[k]);
    if i < k {
      assert out[..k][i] == x;
    } else {
      forall j | 0 <= j < k
        ensures out[j] != x
      {
        PrecedesOrder(x, x, x);
      }
    }
  }

  lemma OpenNext(slices: seq<Slice>, out: seq<Ev>, track: u64, k: nat, r: nat)
    requires Complete(slices, out) && k < |out| && r < |slices|
    ensures var e := out[k];
            Open(slices, out, track, k + 1, r) <==>
            if e.rec == r then e.begin && slices[r].track == track else Open(slices, out, track, k, r)
  {
    hide NsOf, Precedes, Sequenced;
    var e := out[k];
    assert out[..k + 1] == out[..k] + [e];
    assert IsEvent(slices, e);
    EndFollows(slices, r);
    PrefixSplits(out, k, BeginOf(slices, r));
    PrefixSplits(out, k, EndOf(slices, r));
  }

  lemma EndFollows(slices: seq<Slice>, r: nat)
    requires r < |slices|
    ensures BeginOf(slices, r) != EndOf(slices, r) && Precedes(BeginOf(slices, r), EndOf(slices, r))
    ensures !Precedes(EndOf(slices, r), BeginOf(slices, r))
  {
    EndAfterBegin(slices, r);
  }

  lemma CrossesIs(slices: seq<Slice>, a: nat, b: nat)
    requires a < |slices| && b < |slices|
    ensures Crosses(slices, a, b) <==>
            Precedes(BeginOf(slices, a), BeginOf(slices, b)) && Precedes(BeginOf(slices, b), EndOf(slices, a)) &&
            Precedes(EndOf(slices, a), EndOf(slices, b))
  {
    hide NsOf;
  }

  /** Some two slices of the track cross. */
  predicate AnyCross(slices: seq<Slice>, track: u64) {
    exists a: nat, b: nat :: a < |slices| && b < |slices| && slices[a].track == slices[b].track == track && Crosses(slices, a, b)
  }

  lemma NotInOpen(slices: seq<Slice>, out: seq<Ev>, track: u64, k: nat, st: seq<nat>, p: nat)
    requires k <= |out| && StackIs(slices, out, track, k, st) && p < |st|
    ensures Open(slices, out, track, k, st[p])
    ensures forall q :: 0 <= q < |st| && q != p ==> st[q] != st[p]
  {
    hide NsOf, Open, Less;
    assert st[p] in st;
    forall q | 0 <= q < |st| && q != p
      ensures st[q] != st[p]
    {
      if st[q] == st[p] {
        PrecedesOrder(BeginOf(slices, st[p]), BeginOf(slices, st[q]), BeginOf(slices, st[p]));
      }
    }
  }

  lemma Pushed(slices: seq<Slice>, out: seq<Ev>, track: u64, k: nat, st: seq<nat>)
    requires Complete(slices, out) && k < |out| && StackIs(slices, out, track, k, st)
    requires out[k].rec < |slices| && slices[out[k].rec].track == track && out[k].begin
    ensures StackIs(slices, out, track, k + 1, st + [out[k].rec])
  {
    hide NsOf, Open, Precedes, Sequenced, Less;
    var e, all := out[k], st + [out[k].rec];
    assert IsEvent(slices, e);
    forall r: nat
      ensures r in all <==> Open(slices, out, track, k + 1, r)
    {
      OpenWithin(slices, out, track, k + 1, r);
      OpenWithin(slices, out, track, k, r);
      if r < |slices| {
        OpenNext(slices, out, track, k, r);
      }
    }
    forall p | 0 <= p < |st|
      ensures st[p] < |slices| && Precedes(BeginOf(slices, st[p]), BeginOf(slices, e.rec))
    {
      NotInOpen(slices, out, track, k, st, p);
      OpenBegun(slices, out, track, k, st[p]);
    }
  }

  lemma OpenWithin(slices: seq<Slice>, out: seq<Ev>, track: u64, k: nat, r: nat)
    requires k <= |out|
    ensures Open(slices, out, track, k, r) ==> r < |slices| && slices[r].track == track
  {
  }

  lemma OpenBegun(slices: seq<Slice>, out: seq<Ev>, track: u64, k: nat, r: nat)
    requires Complete(slices, out) && k < |out| && Open(slices, out, track, k, r)
    ensures r < |slices| && Precedes(BeginOf(slices, r), out[k])
    ensures EndOf(slices, r) != out[k] ==> Precedes(out[k], EndOf(slices, r))
  {
    hide NsOf, Precedes;
    PrefixSplits(out, k, BeginOf(slices, r));
    PrefixSplits(out, k, EndOf(slices, r));
  }

  lemma Popped(slices: seq<Slice>, out: seq<Ev>, track: u64, k: nat, st: seq<nat>)
    requires Complete(slices, out) && k < |out| && StackIs(slices, out, track, k, st)
    requires out[k].rec < |slices| && slices[out[k].rec].track == track && !out[k].begin
    requires st != [] && st[|st| - 1] == out[k].rec
    ensures StackIs(slices, out, track, k + 1, st[..|st| - 1])
  {
    hide NsOf, Open, Precedes, Sequenced, Less;
    var e, init := out[k], st[..|st| - 1];
    assert IsEvent(slices, e);
    NotInOpen(slices, out, track, k, st, |st| - 1);
    assert st == init + [e.rec];
    forall r: nat
      ensures r in init <==> Open(slices, out, track, k + 1, r)
    {
      OpenWithin(slices, out, track, k + 1, r);
      OpenWithin(slices, out, track, k, r);
      if r < |slices| {
        OpenNext(slices, out, track, k, r);
      }
    }
  }

  lemma Passed(slices: seq<Slice>, out: seq<Ev>, track: u64, k: nat, st: seq<nat>)
    requires Complete(slices, out) && k < |out| && StackIs(slices, out, track, k, st)
    requires out[k].rec < |slices| && slices[out[k].rec].track != track
    ensures StackIs(slices, out, track, k + 1, st)
  {
    hide NsOf, Precedes, Sequenced, Less, Open, InOpeningOrder;
    forall r: nat
      ensures r in st <==> Open(slices, out, track, k + 1, r)
    {
      OpenWithin(slices, out, track, k + 1, r);
      OpenWithin(slices, out, track, k, r);
      if r < |slices| {
        OpenNext(slices, out, track, k, r);
      }
    }
  }

  /** An end that does not find its slice on top finds one there that crosses it. */
  lemma TopCrosses(slices: seq<Slice>, out: seq<Ev>, track: u64, k: nat, st: seq<nat>)
    requires Complete(slices, out) && k < |out| && StackIs(slices, out, track, k, st)
    requires out[k].rec < |slices| && slices[out[k].rec].track == track && !out[k].begin
    requires st == [] || st[|st| - 1] != out[k].rec
    ensures AnyCross(slices, track)
  {
    hide NsOf, Precedes, Sequenced, Less, Crosses;
    var a, e := out[k].rec, out[k];
    assert IsEvent(slices, e) && e == EndOf(slices, a);
    EndFollows(slices, a);
    PrefixSplits(out, k, BeginOf(slices, a));
    PrefixSplits(out, k, e);
    assert Open(slices, out, track, k, a);
    var p :| 0 <= p < |st| && st[p] == a;
    var b := st[|st| - 1];
    NotInOpen(slices, out, track, k, st, |st| - 1);
    OpenBegun(slices, out, track, k, b);
    DifferentEnds(slices, a, b);
    CrossesIs(slices, a, b);
  }

  lemma DifferentEnds(slices: seq<Slice>, a: nat, b: nat)
    requires a < |slices| && b < |slices| && a != b
    ensures EndOf(slices, a) != EndOf(slices, b)
  {
  }

  /** Conversely, when the first of two crossing slices ends, the second lies above it on the stack. */
  lemma CrossedFails(slices: seq<Slice>, out: seq<Ev>, track: u64, k: nat, st: seq<nat>, a: nat, b: nat)
    requires Complete(slices, out) && k < |out| && StackIs(slices, out, track, k, st)
    requires a < |slices| && b < |slices| && slices[a].track == slices[b].track == track && Crosses(slices, a, b)
    requires out[k] == EndOf(slices, a)
    ensures st != [] && st[|st| - 1] != a
  {
    hide NsOf, Precedes, Sequenced, Less, Crosses;
    CrossesIs(slices, a, b);
    PrefixSplits(out, k, BeginOf(slices, b));
    PrefixSplits(out, k, EndOf(slices, b));
    PrecedesOrder(EndOf(slices, a), EndOf(slices, b), EndOf(slices, a));
    assert Open(slices, out, track, k, b);
    var q :| 0 <= q < |st| && st[q] == b;
    PrecedesOrder(BeginOf(slices, a), BeginOf(slices, b), BeginOf(slices, a));
    PrecedesOrder(BeginOf(slices, a), BeginOf(slices, a), BeginOf(slices, a));
  }

  lemma StackStep(slices: seq<Slice>, out: seq<Ev>, track: u64, k: nat)
    requires Complete(slices, out) && k < |out|
    requires Stack(slices, out, track, k).Some? && StackIs(slices, out, track, k, Stack(slices, out, track, k).value)
    ensures match Stack(slices, out, track, k + 1)
            case Some(st) => StackIs(slices, out, track, k + 1, st)
            case None => AnyCross(slices, track)
  {
    hide NsOf, Open, Precedes, Sequenced, Less, StackIs, AnyCross;
    var st, e := Stack(slices, out, track, k).value, out[k];
    assert IsEvent(slices, e);
    if slices[e.rec].track != track {
      Passed(slices, out, track, k, st);
    } else if e.begin {
      Pushed(slices, out, track, k, st);
    } else if st != [] && st[|st| - 1] == e.rec {
      Popped(slices, out, track, k, st);
    } else {
      TopCrosses(slices, out, track, k, st);
    }
  }

  lemma {:induction false} StackHolds(slices: seq<Slice>, out: seq<Ev>, track: u64, k: nat)
    requires Complete(slices, out) && k <= |out|
    ensures match Stack(slices, out, track, k)
            case Some(st) => StackIs(slices, out, track, k, st)
            case None => AnyCross(slices, track)
  {
    hide StackIs, AnyCross, Sequenced, IsEvent;
    if k == 0 {
      NothingStacked(slices, out, track);
    } else {
      StackHolds(slices, out, track, k - 1);
      if Stack(slices, out, track, k - 1).Some? {
        StackStep(slices, out, track, k - 1);
      }
    }
  }

  lemma NothingStacked(slices: seq<Slice>, out: seq<Ev>, track: u64)
    ensures StackIs(slices, out, track, 0, [])
  {
  }

  lemma {:induction false} StackFailed(slices: seq<Slice>, out: seq<Ev>, track: u64, k: nat, n: nat)
    requires AreEvents(slices, out) && k <= n <= |out| && Stack(slices, out, track, k).None?
    ensures Stack(slices, out, track, n).None?
  {
    if k < n {
      StackFailed(slices, out, track, k, n - 1);
    }
  }

  /** The slices of a track nest, so that a viewer's stack works out, if and only if no two of them cross. */
  lemma NestsWhen(slices: seq<Slice>, track: u64)
    ensures AreEvents(slices, Written(slices))
    ensures Stack(slices, Written(slices), track, |Written(slices)|).Some? <==> !AnyCross(slices, track)
  {
    hide NsOf, StackIs, Crosses, Stack, Written, Sequenced;
    var out := Written(slices);
    WrittenComplete(slices);
    StackHolds(slices, out, track, |out|);
    if AnyCross(slices, track) {
      var a: nat, b: nat :| a < |slices| && b < |slices| && slices[a].track == slices[b].track == track && Crosses(slices, a, b);
      var k :| 0 <= k < |out| && out[k] == EndOf(slices, a);
      StackHolds(slices, out, track, k);
      CrossStops(slices, out, track, k, a, b);
      StackFailed(slices, out, track, k + 1, |out|);
    }
  }

  lemma CrossStops(slices: seq<Slice>, out: seq<Ev>, track: u64, k: nat, a: nat, b: nat)
    requires Complete(slices, out) && k < |out|
    requires a < |slices| && b < |slices| && slices[a].track == slices[b].track == track && Crosses(slices, a, b)
    requires out[k] == EndOf(slices, a)
    requires match Stack(slices, out, track, k)
             case Some(st) => StackIs(slices, out, track, k, st)
             case None => true
    ensures Stack(slices, out, track, k + 1).None?
  {
    hide NsOf, StackIs, Crosses;
    if Stack(slices, out, track, k).Some? {
      CrossedFails(slices, out, track, k, Stack(slices, out, track, k).value, a, b);
    }
  }

  /** They need not: a begins, b begins, a ends, b ends. */
  lemma NotNested(track: u64)
    ensures var slices := [Slice(track, 0.0, 2.0), Slice(track, 1.0, 3.0)];
            && Arranges(slices, [BeginOf(slices, 0), BeginOf(slices, 1), EndOf(slices, 0), EndOf(slices, 1)])
            && AnyCross(slices, track)
  {
    var slices := [Slice(track, 0.0, 2.0), Slice(track, 1.0, 3.0)];
    assert NsOf(0.0) == 0 && NsOf(1.0) == 1000000000 && NsOf(2.0) == 2000000000 && NsOf(3.0) == 3000000000;
    assert Events(slices, 1) == [] + [BeginOf(slices, 0), EndOf(slices, 0)];
    assert Events(slices, 2) == [BeginOf(slices, 0), EndOf(slices, 0), BeginOf(slices, 1), EndOf(slices, 1)];
    assert Crosses(slices, 0, 1);
  }
}
