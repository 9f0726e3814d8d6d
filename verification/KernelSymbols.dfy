/** Kernel names from handles (src/ksym.h, src/ksym.cpp): a primary cache by address and a fallback cache by the low
    20 address bits in which an empty name marks an ambiguous entry. */
module KernelSymbols {
  import opened Model
  import opened Sequences
  import Text

  /** One "<name>.kd" symbol found by a scan: its run-time address and its demangled, non-empty name. */
  datatype Symbol = Symbol(va: u64, name: Bytes)

  const LOW_BITS: nat := 0x10_0000

  function Low(va: u64): nat {
    va % LOW_BITS
  }

  function Label(handle: u64): Bytes {
    Ascii("kernel_0x") + Text.Hex(handle)
  }

  /** The label of a handle is `kernel_0x` and the handle's hexadecimal digits, so no two handles share one. */
  lemma LabelTells(handle: u64)
    ensures |Label(handle)| > 9 && Label(handle)[..9] == [107, 101, 114, 110, 101, 108, 95, 48, 120]
    ensures Text.HexNumber(Label(handle)[9..]) == handle
  {
    hide Text.Hex, Text.HexNumber;
    Text.HexReadsBack(handle);
    assert Ascii("kernel_0x") == [107, 101, 114, 110, 101, 108, 95, 48, 120];
    assert Label(handle)[9..] == Text.Hex(handle);
  }

  predicate Named(syms: seq<Symbol>) {
    forall i :: 0 <= i < |syms| ==> syms[i].name != []
  }

  // ---- One scanned symbol ----

  type Offsets = map<nat, Bytes>

  /** `emplace`, then mark a collision of different names. */
  function AddOffset(oc: Offsets, s: Symbol): Offsets {
    var key := Low(s.va);
    if key !in oc then oc[key := s.name]
    else if oc[key] != s.name && oc[key] != [] then oc[key := []]
    else oc
  }

  function OffsetsOf(oc: Offsets, syms: seq<Symbol>): Offsets {
    if syms == [] then oc else AddOffset(OffsetsOf(oc, syms[..|syms| - 1]), syms[|syms| - 1])
  }

  function NamesOf(cache: map<u64, Bytes>, syms: seq<Symbol>): map<u64, Bytes> {
    if syms == [] then cache
    else
      var s := syms[|syms| - 1];
      NamesOf(cache, syms[..|syms| - 1])[s.va := s.name]
  }

  // ---- What the fallback cache means ----

  /** The names of all scanned symbols with the given low bits. */
  function Names(h: seq<Symbol>, low: nat): set<Bytes> {
    set s | s in h && s.va % 0x10_0000 == low :: s.name
  }

  /** Absent below one name below ambiguous: the join of the scanned names. */
  ghost predicate EntryMeans(names: set<Bytes>, oc: Offsets, low: nat) {
    if low !in oc then names == {}
    else if oc[low] != [] then names == {oc[low]}
    else exists a, b :: a in names && b in names && a != b
  }

  ghost predicate OffsetsMean(h: seq<Symbol>, oc: Offsets) {
    forall low: nat :: EntryMeans(Names(h, low), oc, low)
  }

  lemma NamesGrow(h: seq<Symbol>, s: Symbol, low: nat)
    ensures Names(h + [s], low) == if Low(s.va) == low then Names(h, low) + {s.name} else Names(h, low)
  {
    var a, b := Names(h + [s], low), if Low(s.va) == low then Names(h, low) + {s.name} else Names(h, low);
    forall n | n in a
      ensures n in b
    {
      var t :| t in h + [s] && Low(t.va) == low && t.name == n;
      assert t in h || t == s;
    }
    forall n | n in b
      ensures n in a
    {
      if n in Names(h, low) {
        var t :| t in h && Low(t.va) == low && t.name == n;
        assert t in h + [s];
      } else {
        assert s in h + [s];
      }
    }
  }

  lemma EntryStep(names: set<Bytes>, oc: Offsets, s: Symbol)
    requires EntryMeans(names, oc, Low(s.va)) && s.name != []
    ensures EntryMeans(names + {s.name}, AddOffset(oc, s), Low(s.va))
  {
    var low := Low(s.va);
    if low in oc && oc[low] != [] {
      if oc[low] != s.name {
        assert oc[low] in names + {s.name} && s.name in names + {s.name};
      } else {
        assert names + {s.name} == {s.name};
      }
    } else if low in oc {
      var a, b :| a in names && b in names && a != b;
      assert a in names + {s.name} && b in names + {s.name};
    } else {
      assert names + {s.name} == {s.name};
    }
  }

  lemma OffsetsStep(h: seq<Symbol>, oc: Offsets, s: Symbol)
    requires OffsetsMean(h, oc) && s.name != []
    ensures OffsetsMean(h + [s], AddOffset(oc, s))
  {
    hide Names;
    forall low: nat
      ensures EntryMeans(Names(h + [s], low), AddOffset(oc, s), low)
    {
      NamesGrow(h, s, low);
      assert EntryMeans(Names(h, low), oc, low);
      if low == Low(s.va) {
        EntryStep(Names(h, low), oc, s);
      }
    }
  }

  /** Scanning keeps the meaning of the fallback cache. */
  lemma {:induction false} OffsetsAlways(h: seq<Symbol>, oc: Offsets, syms: seq<Symbol>)
    requires OffsetsMean(h, oc) && Named(syms)
    ensures OffsetsMean(h + syms, OffsetsOf(oc, syms))
  {
    hide EntryMeans, Names, AddOffset;
    if syms == [] {
      assert h + syms == h;
    } else {
      var init, s := syms[..|syms| - 1], syms[|syms| - 1];
      OffsetsAlways(h, oc, init);
      OffsetsStep(h + init, OffsetsOf(oc, init), s);
      assert h + syms == h + init + [s];
    }
  }

  lemma NothingScanned()
    ensures OffsetsMean([], map[])
  {
    forall low: nat
      ensures EntryMeans(Names([], low), map[], low)
    {
      assert Names([], low) == {};
    }
  }

  lemma NamesOfSet(a: seq<Symbol>, b: seq<Symbol>, low: nat)
    requires forall s :: s in a <==> s in b
    ensures Names(a, low) == Names(b, low)
  {
  }

  lemma MeaningDetermines(names: set<Bytes>, x: Offsets, y: Offsets, low: nat)
    requires EntryMeans(names, x, low) && EntryMeans(names, y, low)
    ensures low in x <==> low in y
    ensures low in x ==> x[low] == y[low]
  {
    if low in x && low in y {
      assert x[low] != [] ==> x[low] in names;
      assert y[low] != [] ==> y[low] in names;
    }
  }

  /** The fallback cache depends on the set of scanned symbols only: neither the order of scans nor scanning again
      what was scanned before changes it. */
  lemma OffsetsOfSet(a: seq<Symbol>, b: seq<Symbol>)
    requires Named(a) && Named(b)
    requires forall s :: s in a <==> s in b
    ensures OffsetsOf(map[], a) == OffsetsOf(map[], b)
  {
    hide EntryMeans, Names, OffsetsOf;
    var x, y := OffsetsOf(map[], a), OffsetsOf(map[], b);
    NothingScanned();
    OffsetsAlways([], map[], a);
    OffsetsAlways([], map[], b);
    assert [] + a == a && [] + b == b;
    forall low: nat
      ensures low in x <==> low in y
      ensures low in x ==> x[low] == y[low]
    {
      NamesOfSet(a, b, low);
      assert EntryMeans(Names(a, low), x, low) && EntryMeans(Names(b, low), y, low);
      MeaningDetermines(Names(a, low), x, y, low);
    }
  }

  // ---- What the primary cache means ----

  /** The name of the latest scanned symbol at an address. */
  function LastName(h: seq<Symbol>, va: u64): Option<Bytes> {
    if h == [] then None
    else if h[|h| - 1].va == va then Some(h[|h| - 1].name)
    else LastName(h[..|h| - 1], va)
  }

  lemma {:induction false} NamesAre(cache: map<u64, Bytes>, syms: seq<Symbol>, va: u64)
    ensures va in NamesOf(cache, syms) <==> LastName(syms, va).Some? || va in cache
    ensures LastName(syms, va).Some? ==> NamesOf(cache, syms)[va] == LastName(syms, va).value
    ensures LastName(syms, va).None? && va in cache ==> NamesOf(cache, syms)[va] == cache[va]
  {
    if syms != [] {
      NamesAre(cache, syms[..|syms| - 1], va);
    }
  }

  lemma {:induction false} LastNameAppend(h: seq<Symbol>, syms: seq<Symbol>, va: u64)
    ensures LastName(h + syms, va) == if LastName(syms, va).Some? then LastName(syms, va) else LastName(h, va)
  {
    if syms == [] {
      assert h + syms == h;
    } else {
      LastNameAppend(h, syms[..|syms| - 1], va);
      assert (h + syms)[..|h + syms| - 1] == h + syms[..|syms| - 1];
    }
  }

  // ---- Resolving ----

  datatype State = State(cache: map<u64, Bytes>, offsets: Offsets)

  const FRESH := State(map[], map[])

  function Scan(k: State, syms: seq<Symbol>): State {
    State(NamesOf(k.cache, syms), OffsetsOf(k.offsets, syms))
  }

  /** The name the fallback cache gives, if it has one that is not ambiguous. */
  function Fallback(oc: Offsets, handle: u64): Option<Bytes> {
    if Low(handle) in oc && oc[Low(handle)] != [] then Some(oc[Low(handle)]) else None
  }

  function FallbackOrLabel(oc: Offsets, handle: u64): Bytes {
    match Fallback(oc, handle)
    case Some(n) => n
    case None => Label(handle)
  }

  /** One call: the handle asked for, and what a scan would find at that moment. */
  datatype Call = Call(handle: u64, found: seq<Symbol>)

  function Resolve(k: State, c: Call): (State, Bytes) {
    if c.handle in k.cache then (k, k.cache[c.handle])
    else
      var s := Scan(k, c.found);
      if c.handle in s.cache then (s, s.cache[c.handle])
      else
        var name := FallbackOrLabel(s.offsets, c.handle);
        (s.(cache := s.cache[c.handle := name]), name)
  }

  function Run(cs: seq<Call>): State {
    if cs == [] then FRESH else Resolve(Run(cs[..|cs| - 1]), cs[|cs| - 1]).0
  }

  /** The answer to the last call. */
  function Answer(cs: seq<Call>): Bytes
    requires cs != []
  {
    Resolve(Run(cs[..|cs| - 1]), cs[|cs| - 1]).1
  }

  predicate Scans(k: State, c: Call) {
    c.handle !in k.cache
  }

  /** How many calls scanned the process, and what all those scans found. */
  function ScanCount(cs: seq<Call>): nat {
    if cs == [] then 0
    else ScanCount(cs[..|cs| - 1]) + if Scans(Run(cs[..|cs| - 1]), cs[|cs| - 1]) then 1 else 0
  }

  function Scanned(cs: seq<Call>): seq<Symbol> {
    if cs == [] then []
    else Scanned(cs[..|cs| - 1]) + if Scans(Run(cs[..|cs| - 1]), cs[|cs| - 1]) then cs[|cs| - 1].found else []
  }

  function Requested(cs: seq<Call>): set<u64> {
    set i | 0 <= i < |cs| :: cs[i].handle
  }

  lemma RequestedGrow(cs: seq<Call>)
    requires cs != []
    ensures Requested(cs) == Requested(cs[..|cs| - 1]) + {cs[|cs| - 1].handle}
  {
    forall h | h in Requested(cs[..|cs| - 1]) + {cs[|cs| - 1].handle}
      ensures h in Requested(cs)
    {
      if h != cs[|cs| - 1].handle {
        var i :| 0 <= i < |cs| - 1 && cs[..|cs| - 1][i].handle == h;
        assert cs[i].handle == h;
      }
    }
    forall h | h in Requested(cs)
      ensures h in Requested(cs[..|cs| - 1]) + {cs[|cs| - 1].handle}
    {
      var i :| 0 <= i < |cs| && cs[i].handle == h;
      assert i < |cs| - 1 ==> cs[..|cs| - 1][i].handle == h;
    }
  }

  lemma ScanKeeps(k: State, syms: seq<Symbol>, va: u64)
    requires va in k.cache
    ensures va in Scan(k, syms).cache
  {
    NamesAre(k.cache, syms, va);
  }

  lemma {:induction false} RequestedCached(cs: seq<Call>)
    ensures forall h :: h in Requested(cs) ==> h in Run(cs).cache
  {
    hide NamesOf, OffsetsOf, FallbackOrLabel, Requested;
    if cs == [] {
      assert Requested(cs) == {} by {
        NothingRequested();
      }
    } else {
      var init, c := cs[..|cs| - 1], cs[|cs| - 1];
      RequestedCached(init);
      RequestedGrow(cs);
      forall h | h in Requested(cs)
        ensures h in Run(cs).cache
      {
        if h in Requested(init) {
          ScanKeeps(Run(init), c.found, h);
        }
      }
    }
  }

  lemma NothingRequested()
    ensures Requested([]) == {}
  {
  }

  /** A process is scanned at most once per distinct handle, however many calls are made. */
  lemma {:induction false} ScansBounded(cs: seq<Call>)
    ensures ScanCount(cs) <= |Requested(cs)|
  {
    hide Requested, Resolve;
    if cs != [] {
      var init, c := cs[..|cs| - 1], cs[|cs| - 1];
      ScansBounded(init);
      RequestedCached(init);
      RequestedGrow(cs);
      if c.handle in Requested(init) {
        assert Requested(cs) == Requested(init);
      }
    }
  }

  predicate AllNamed(cs: seq<Call>) {
    forall i :: 0 <= i < |cs| ==> Named(cs[i].found)
  }

  /** Over any run the fallback cache is the meaning of everything scanned so far. */
  lemma {:induction false} RunOffsets(cs: seq<Call>)
    requires AllNamed(cs)
    ensures OffsetsMean(Scanned(cs), Run(cs).offsets)
  {
    hide OffsetsMean, NamesOf, OffsetsOf, Named;
    if cs == [] {
      NothingScanned();
    } else {
      var init, c := cs[..|cs| - 1], cs[|cs| - 1];
      RunOffsets(init);
      if Scans(Run(init), c) {
        OffsetsAlways(Scanned(init), Run(init).offsets, c.found);
      } else {
        assert Scanned(init) + [] == Scanned(init);
      }
    }
  }

  /** The first call that asked for a handle. */
  function FirstRequest(cs: seq<Call>, handle: u64): (j: nat)
    requires handle in Requested(cs)
    ensures j < |cs| && cs[j].handle == handle
  {
    if handle in Requested(cs[..|cs| - 1]) then FirstRequest(cs[..|cs| - 1], handle)
    else
      RequestedGrow(cs);
      |cs| - 1
  }

  /** The only name all symbols with the handle's low bits have, or the hexadecimal label. */
  ghost function Best(h: seq<Symbol>, handle: u64): Bytes {
    var names := Names(h, handle % 0x10_0000);
    if exists n :: names == {n} then (var n :| names == {n}; n) else Label(handle)
  }

  lemma FallbackIsBest(h: seq<Symbol>, oc: Offsets, handle: u64)
    requires OffsetsMean(h, oc)
    ensures FallbackOrLabel(oc, handle) == Best(h, handle)
  {
    hide Label, Names;
    var names := Names(h, Low(handle));
    assert EntryMeans(names, oc, Low(handle));
    if Low(handle) in oc && oc[Low(handle)] != [] {
      var n :| names == {n};
      assert oc[Low(handle)] in names && n in names;
    } else if Low(handle) in oc {
      var a, b :| a in names && b in names && a != b;
      assert forall n :: names == {n} ==> a == n && b == n;
    } else {
      assert forall n :: names == {n} ==> n in names;
    }
  }

  /** What the primary cache holds for a handle after a run: the name last scanned at exactly that address, and
      otherwise what the first request for it had to settle for. */
  ghost function Cached(cs: seq<Call>, handle: u64): Option<Bytes> {
    match LastName(Scanned(cs), handle)
    case Some(n) => Some(n)
    case None =>
      if handle in Requested(cs) then Some(Best(Scanned(cs[..FirstRequest(cs, handle) + 1]), handle)) else None
  }

  lemma ScannedGrow(cs: seq<Call>, handle: u64)
    requires cs != []
    ensures var init, c := cs[..|cs| - 1], cs[|cs| - 1];
            LastName(Scanned(cs), handle) ==
            if Scans(Run(init), c) && LastName(c.found, handle).Some? then LastName(c.found, handle)
            else LastName(Scanned(init), handle)
  {
    hide Run, LastName;
    var init, c := cs[..|cs| - 1], cs[|cs| - 1];
    if Scans(Run(init), c) {
      LastNameAppend(Scanned(init), c.found, handle);
    } else {
      assert Scanned(init) + [] == Scanned(init);
    }
  }

  lemma FirstRequestKept(cs: seq<Call>, handle: u64)
    requires cs != [] && handle in Requested(cs[..|cs| - 1])
    ensures handle in Requested(cs)
    ensures FirstRequest(cs, handle) == FirstRequest(cs[..|cs| - 1], handle)
    ensures cs[..FirstRequest(cs, handle) + 1] == cs[..|cs| - 1][..FirstRequest(cs, handle) + 1]
  {
    RequestedGrow(cs);
  }

  lemma {:induction false} CacheIs(cs: seq<Call>, handle: u64)
    requires AllNamed(cs)
    ensures handle in Run(cs).cache <==> Cached(cs, handle).Some?
    ensures handle in Run(cs).cache ==> Run(cs).cache[handle] == Cached(cs, handle).value
  {
    hide LastName, Best, Requested, NamesOf, OffsetsOf, FallbackOrLabel, Scanned, FirstRequest;
    if cs == [] {
      NothingRequested();
      NoNames(handle);
    } else {
      var init, c := cs[..|cs| - 1], cs[|cs| - 1];
      CacheIs(init, handle);
      RequestedGrow(cs);
      ScannedGrow(cs, handle);
      NamesAre(Run(init).cache, c.found, handle);
      if handle in Requested(init) {
        FirstRequestKept(cs, handle);
      } else if handle == c.handle {
        FirstNow(cs);
      }
    }
  }

  lemma NoNames(handle: u64)
    ensures LastName(Scanned([]), handle) == None
  {
  }

  /** A first request of an address no scan has found settles for the best name there is. */
  lemma FirstNow(cs: seq<Call>)
    requires AllNamed(cs) && cs != [] && cs[|cs| - 1].handle !in Requested(cs[..|cs| - 1])
    ensures cs[|cs| - 1].handle in Requested(cs)
    ensures cs[..FirstRequest(cs, cs[|cs| - 1].handle) + 1] == cs
    ensures Scans(Run(cs[..|cs| - 1]), cs[|cs| - 1]) ==>
              FallbackOrLabel(Scan(Run(cs[..|cs| - 1]), cs[|cs| - 1].found).offsets, cs[|cs| - 1].handle) ==
              Best(Scanned(cs), cs[|cs| - 1].handle)
  {
    hide NamesOf, OffsetsOf, Best, FallbackOrLabel, OffsetsMean, Requested;
    var c := cs[|cs| - 1];
    RequestedGrow(cs);
    RunOffsets(cs);
    FallbackIsBest(Scanned(cs), Run(cs).offsets, c.handle);
  }

  lemma AnswerCached(cs: seq<Call>)
    requires cs != []
    ensures cs[|cs| - 1].handle in Run(cs).cache && Answer(cs) == Run(cs).cache[cs[|cs| - 1].handle]
  {
    hide NamesOf, OffsetsOf, FallbackOrLabel;
  }

  /** Every answer, over every run: the name most recently scanned at that address if there is one; otherwise the
      name shared by all symbols that had the handle's low 20 bits when it was first asked for; otherwise its label. */
  lemma AnswerIs(cs: seq<Call>)
    requires AllNamed(cs) && cs != []
    ensures Cached(cs, cs[|cs| - 1].handle) == Some(Answer(cs))
  {
    hide Answer, Run, Cached;
    AnswerCached(cs);
    CacheIs(cs, cs[|cs| - 1].handle);
  }

  // ---- The resolver ----

  class KernelSymbolResolver {
    var cache: map<u64, Bytes>
    var offsetCache: Offsets
    var scannedGeneration: nat
    /** The calls made so far. */
    ghost var calls: seq<Call>

    ghost predicate Valid()
      reads this
    {
      && State(cache, offsetCache) == Run(calls)
      && scannedGeneration == ScanCount(calls)
    }

    constructor ()
      ensures Valid() && calls == []
    {
      cache, offsetCache, scannedGeneration, calls := map[], map[], 0, [];
    }

    /** The symbol loop over one image. */
    method ScanImage(syms: seq<Symbol>)
      modifies this`cache, this`offsetCache
      ensures cache == NamesOf(old(cache), syms) && offsetCache == OffsetsOf(old(offsetCache), syms)
    {
      var i := 0;
      while i < |syms|
        invariant i <= |syms|
        invariant cache == NamesOf(old(cache), syms[..i]) && offsetCache == OffsetsOf(old(offsetCache), syms[..i])
      {
        assert syms[..i + 1][..i] == syms[..i];
        var runtime, demangled := syms[i].va, syms[i].name;
        cache := cache[runtime := demangled];
        var key := Low(runtime);
        if key !in offsetCache {
          offsetCache := offsetCache[key := demangled];
        } else if offsetCache[key] != demangled && offsetCache[key] != [] {
          offsetCache := offsetCache[key := []];
        }
        i := i + 1;
      }
      assert syms[..i] == syms;
    }

    /** Scans the images mapped at this moment one after the other. */
    method ScanCodeObjects(images: seq<seq<Symbol>>)
      modifies this`cache, this`offsetCache, this`scannedGeneration
      ensures State(cache, offsetCache) == Scan(old(State(cache, offsetCache)), Flat(images))
      ensures scannedGeneration == old(scannedGeneration) + 1
    {
      hide NamesOf, OffsetsOf;
      NothingFlat(old(cache), old(offsetCache));
      var i := 0;
      while i < |images|
        invariant i <= |images| && scannedGeneration == old(scannedGeneration)
        invariant cache == NamesOf(old(cache), Flat(images[..i])) && offsetCache == OffsetsOf(old(offsetCache), Flat(images[..i]))
      {
        assert images[..i + 1][..i] == images[..i];
        FoldAppend(old(cache), old(offsetCache), Flat(images[..i]), images[i]);
        ScanImage(images[i]);
        i := i + 1;
      }
      assert images[..i] == images;
      scannedGeneration := scannedGeneration + 1;
    }

    method ResolveName(handle: u64, images: seq<seq<Symbol>>) returns (name: Bytes)
      requires Valid()
      modifies this
      ensures Valid() && calls == old(calls) + [Call(handle, Flat(images))] && name == Answer(calls)
    {
      hide NamesOf, OffsetsOf, Flat, Label;
      ghost var c := Call(handle, Flat(images));
      assert (calls + [c])[..|calls|] == calls;
      calls := calls + [c];
      if handle in cache {
        return cache[handle];
      }
      ScanCodeObjects(images);
      if handle in cache {
        return cache[handle];
      }
      if Low(handle) in offsetCache && offsetCache[Low(handle)] != [] {
        name := offsetCache[Low(handle)];
      } else {
        name := Label(handle);
      }
      cache := cache[handle := name];
    }
  }

  lemma NothingFlat(cache: map<u64, Bytes>, oc: Offsets)
    ensures NamesOf(cache, Flat([])) == cache && OffsetsOf(oc, Flat([])) == oc
  {
  }

  lemma {:induction false} FoldAppend(cache: map<u64, Bytes>, oc: Offsets, a: seq<Symbol>, b: seq<Symbol>)
    ensures NamesOf(cache, a + b) == NamesOf(NamesOf(cache, a), b)
    ensures OffsetsOf(oc, a + b) == OffsetsOf(OffsetsOf(oc, a), b)
  {
    if b == [] {
      assert a + b == a;
    } else {
      FoldAppend(cache, oc, a, b[..|b| - 1]);
      assert (a + b)[..|a + b| - 1] == a + b[..|b| - 1];
    }
  }
}
