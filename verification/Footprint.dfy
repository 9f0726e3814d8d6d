/** The kernarg footprint estimate (ReadVmas, FindVma, ScanKernargFootprint in src/proc_mem.cpp): how many words of a
    kernel's argument block are base addresses of mappings, and how much those mappings add up to. */
module Footprint {
  import opened Model

  const MAX_SCAN_BYTES: u32 := 4096
  const LOWEST: u64 := 0x1_0000_0000
  const HIGHEST: u64 := 0x1_0000_0000_0000

  datatype Region = Region(start: u64, end: u64)

  predicate Contains(r: Region, addr: u64) {
    r.start <= addr < r.end
  }

  /** Regions as the kernel lists them: not empty, ascending, without overlap. */
  predicate Ordered(vmas: seq<Region>) {
    && (forall i :: 0 <= i < |vmas| ==> vmas[i].start < vmas[i].end)
    && (forall i, j :: 0 <= i < j < |vmas| ==> vmas[i].end <= vmas[j].start)
  }

  /** Keeps the regions of the listing that are not empty. */
  function NonEmpty(listing: seq<Region>): seq<Region> {
    if listing == [] then []
    else
      var r := listing[|listing| - 1];
      NonEmpty(listing[..|listing| - 1]) + if r.end > r.start then [r] else []
  }

  method ReadVmas(listing: seq<Region>) returns (vmas: seq<Region>)
    ensures vmas == NonEmpty(listing)
  {
    vmas := [];
    var i := 0;
    while i < |listing|
      invariant i <= |listing| && vmas == NonEmpty(listing[..i])
    {
      assert listing[..i + 1][..i] == listing[..i];
      if listing[i].end > listing[i].start {
        vmas := vmas + [listing[i]];
      }
      i := i + 1;
    }
    assert listing[..i] == listing;
  }

  /** Leaving the loop at the first region behind the address misses nothing. */
  method FindVma(vmas: seq<Region>, addr: u64) returns (found: Option<Region>)
    requires Ordered(vmas)
    ensures found.Some? ==> found.value in vmas && Contains(found.value, addr)
    ensures found.None? ==> forall i :: 0 <= i < |vmas| ==> !Contains(vmas[i], addr)
  {
    var i := 0;
    while i < |vmas|
      invariant i <= |vmas|
      invariant forall j :: 0 <= j < i ==> !Contains(vmas[j], addr)
    {
      if addr >= vmas[i].start && addr < vmas[i].end {
        return Some(vmas[i]);
      }
      if vmas[i].start > addr {
        forall j | 0 <= j < |vmas|
          ensures !Contains(vmas[j], addr)
        {
          if j > i {
            assert vmas[i].end <= vmas[j].start;
          }
        }
        return None;
      }
      i := i + 1;
    }
    return None;
  }

  // ---- The specification over sets ----

  predicate Plausible(w: u64) {
    LOWEST <= w < HIGHEST
  }

  predicate IsBase(vmas: seq<Region>, w: u64) {
    exists i :: 0 <= i < |vmas| && vmas[i].start == w
  }

  /** The word points at the base of a mapping. */
  predicate Hit(vmas: seq<Region>, w: u64) {
    Plausible(w) && IsBase(vmas, w)
  }

  function PtrCount(vmas: seq<Region>, ws: seq<u64>): (n: nat)
    ensures n <= |ws|
  {
    if ws == [] then 0 else PtrCount(vmas, ws[..|ws| - 1]) + if Hit(vmas, ws[|ws| - 1]) then 1 else 0
  }

  function Size(r: Region): nat {
    if r.start < r.end then r.end - r.start else 0
  }

  /** The total size of the mappings whose base is among the words, each counted once. */
  function Mapped(vmas: seq<Region>, ws: set<u64>): nat {
    if vmas == [] then 0
    else
      var r := vmas[|vmas| - 1];
      Mapped(vmas[..|vmas| - 1], ws) + if Plausible(r.start) && r.start in ws then Size(r) else 0
  }

  function Total(vmas: seq<Region>): nat {
    if vmas == [] then 0 else Total(vmas[..|vmas| - 1]) + Size(vmas[|vmas| - 1])
  }

  function Elements(ws: seq<u64>): set<u64> {
    set w | w in ws
  }

  /** More words never lower the estimate, and it is bounded by everything that is mapped. */
  lemma {:induction false} MappedMonotone(vmas: seq<Region>, a: set<u64>, b: set<u64>)
    requires a <= b
    ensures Mapped(vmas, a) <= Mapped(vmas, b) <= Total(vmas)
  {
    if vmas != [] {
      MappedMonotone(vmas[..|vmas| - 1], a, b);
    }
  }

  /** Disjoint mappings fit into the address space, so the 64-bit sum cannot wrap. */
  lemma {:induction false} TotalFits(vmas: seq<Region>)
    requires Ordered(vmas)
    ensures vmas != [] ==> Total(vmas) <= vmas[|vmas| - 1].end
    ensures Total(vmas) < U64
  {
    if vmas != [] {
      var init := vmas[..|vmas| - 1];
      TotalFits(init);
      if init != [] {
        assert init[|init| - 1].end <= vmas[|vmas| - 1].start;
      }
    }
  }

  lemma {:induction false} MappedNothing(vmas: seq<Region>)
    ensures Mapped(vmas, {}) == 0
  {
    if vmas != [] {
      MappedNothing(vmas[..|vmas| - 1]);
    }
  }

  lemma {:induction false} MappedIgnores(vmas: seq<Region>, ws: set<u64>, w: u64)
    requires !Hit(vmas, w) || w in ws
    ensures Mapped(vmas, ws + {w}) == Mapped(vmas, ws)
  {
    if vmas != [] {
      var init, r := vmas[..|vmas| - 1], vmas[|vmas| - 1];
      if Hit(init, w) {
        var i :| 0 <= i < |init| && init[i].start == w;
        assert vmas[i].start == w;
      }
      MappedIgnores(init, ws, w);
      assert vmas[|vmas| - 1].start == w ==> IsBase(vmas, w);
    }
  }

  /** A new base adds the size of its mapping. */
  lemma {:induction false} MappedAdds(vmas: seq<Region>, ws: set<u64>, r: Region)
    requires Ordered(vmas) && r in vmas && Plausible(r.start) && r.start !in ws
    ensures Mapped(vmas, ws + {r.start}) == Mapped(vmas, ws) + (r.end - r.start)
  {
    var init, last := vmas[..|vmas| - 1], vmas[|vmas| - 1];
    if last == r {
      forall i | 0 <= i < |init|
        ensures init[i].start != r.start
      {
        assert vmas[i].end <= vmas[|vmas| - 1].start;
      }
      MappedIgnores(init, ws, r.start);
    } else {
      assert r in init;
      var i :| 0 <= i < |init| && init[i] == r;
      assert vmas[i].end <= vmas[|vmas| - 1].start;
      MappedAdds(init, ws, r);
    }
  }

  /** Neither figure depends on the order of the words. */
  lemma {:induction false} CountOfMultiset(vmas: seq<Region>, a: seq<u64>, b: seq<u64>)
    requires multiset(a) == multiset(b)
    ensures PtrCount(vmas, a) == PtrCount(vmas, b)
    ensures Mapped(vmas, Elements(a)) == Mapped(vmas, Elements(b))
    decreases |a|
  {
    hide Hit, Mapped;
    SameElements(a, b);
    if a != [] {
      var w := a[|a| - 1];
      assert w in multiset(a);
      assert w in b;
      var i :| 0 <= i < |b| && b[i] == w;
      WithoutOne(a, |a| - 1);
      WithoutOne(b, i);
      assert a[..|a| - 1] + a[|a|..] == a[..|a| - 1];
      CountOfMultiset(vmas, a[..|a| - 1], b[..i] + b[i + 1..]);
      CountWithout(vmas, b, i);
    } else {
      assert |multiset(a)| == |multiset(b)|;
      assert b == a;
    }
  }

  lemma WithoutOne(s: seq<u64>, i: nat)
    requires i < |s|
    ensures multiset(s[..i] + s[i + 1..]) == multiset(s) - multiset{s[i]}
  {
    assert s == s[..i] + [s[i]] + s[i + 1..];
  }

  lemma SameElements(a: seq<u64>, b: seq<u64>)
    requires multiset(a) == multiset(b)
    ensures Elements(a) == Elements(b)
  {
    forall w: u64
      ensures w in a <==> w in b
    {
      assert w in a <==> w in multiset(a);
      assert w in b <==> w in multiset(b);
    }
  }

  lemma {:induction false} CountWithout(vmas: seq<Region>, ws: seq<u64>, i: nat)
    requires i < |ws|
    ensures PtrCount(vmas, ws) == PtrCount(vmas, ws[..i] + ws[i + 1..]) + if Hit(vmas, ws[i]) then 1 else 0
  {
    hide Hit;
    var last := |ws| - 1;
    if i == last {
      assert ws[..i] + ws[i + 1..] == ws[..last];
    } else {
      CountWithout(vmas, ws[..last], i);
      var less := ws[..i] + ws[i + 1..];
      assert less[..|less| - 1] == ws[..last][..i] + ws[..last][i + 1..];
      assert less[|less| - 1] == ws[last];
    }
  }

  /** A word counts exactly when it lies between 4 GB and 256 TB and is the base of a mapping, and the estimate grows by a
      mapping exactly when such a word is its base for the first time. */
  lemma WordCounts(vmas: seq<Region>, ws: seq<u64>, w: u64)
    requires Ordered(vmas)
    ensures var n := PtrCount(vmas, ws + [w]) - PtrCount(vmas, ws);
            n == if 0x1_0000_0000 <= w < 0x1_0000_0000_0000 && exists r :: r in vmas && r.start == w then 1 else 0
    ensures forall r :: r in vmas && r.start == w && 0x1_0000_0000 <= w < 0x1_0000_0000_0000 && w !in ws ==>
              Mapped(vmas, Elements(ws + [w])) == Mapped(vmas, Elements(ws)) + (r.end - r.start)
  {
    hide Mapped, Ordered;
    assert (ws + [w])[..|ws|] == ws;
    assert Elements(ws + [w]) == Elements(ws) + {w};
    if r :| r in vmas && r.start == w {
      var i :| 0 <= i < |vmas| && vmas[i] == r;
      assert vmas[i].start == w;
    }
    forall r | r in vmas && r.start == w && 0x1_0000_0000 <= w < 0x1_0000_0000_0000 && w !in ws
      ensures Mapped(vmas, Elements(ws + [w])) == Mapped(vmas, Elements(ws)) + (r.end - r.start)
    {
      MappedAdds(vmas, Elements(ws), r);
    }
  }

  // ---- The scan ----

  /** The unaligned little-endian load of one word. */
  function Word(buf: Bytes, off: nat): u64
    requires off + 8 <= |buf|
  {
    buf[off] as int + 0x100 * buf[off + 1] as int + 0x1_0000 * buf[off + 2] as int + 0x100_0000 * buf[off + 3] as int +
    0x1_0000_0000 * buf[off + 4] as int + 0x100_0000_0000 * buf[off + 5] as int + 0x1_0000_0000_0000 * buf[off + 6] as int +
    0x100_0000_0000_0000 * buf[off + 7] as int
  }

  function Words(buf: Bytes): (ws: seq<u64>)
    ensures |ws| == |buf| / 8
  {
    seq(|buf| / 8, i requires 0 <= i < |buf| / 8 => Word(buf, 8 * i))
  }

  /** A word as the arguments of a kernel hold it. */
  function LittleEndian(w: u64): (b: Bytes)
    ensures |b| == 8
  {
    [w % 0x100, w / 0x100 % 0x100, w / 0x1_0000 % 0x100, w / 0x100_0000 % 0x100, w / 0x1_0000_0000 % 0x100,
     w / 0x100_0000_0000 % 0x100, w / 0x1_0000_0000_0000 % 0x100, w / 0x100_0000_0000_0000]
  }

  function Block(ws: seq<u64>): (b: Bytes)
    ensures |b| == 8 * |ws|
  {
    if ws == [] then [] else Block(ws[..|ws| - 1]) + LittleEndian(ws[|ws| - 1])
  }

  lemma LowByte(w: nat)
    ensures w == w % 0x100 + 0x100 * (w / 0x100)
  {
  }

  lemma BytesSum(w: u64)
    ensures Word(LittleEndian(w), 0) == w
  {
    var w1 := w / 0x100;
    var w2 := w1 / 0x100;
    var w3 := w2 / 0x100;
    var w4 := w3 / 0x100;
    var w5 := w4 / 0x100;
    var w6 := w5 / 0x100;
    assert w2 == w / 0x1_0000 && w3 == w / 0x100_0000 && w4 == w / 0x1_0000_0000;
    assert w5 == w / 0x100_0000_0000 && w6 == w / 0x1_0000_0000_0000 && w6 / 0x100 == w / 0x100_0000_0000_0000;
  }

  /** An argument block of 64-bit words is scanned as exactly those words. */
  lemma {:induction false} BlockReads(ws: seq<u64>)
    ensures Words(Block(ws)) == ws
  {
    hide LittleEndian, Word;
    if ws != [] {
      var init, last := ws[..|ws| - 1], ws[|ws| - 1];
      BlockReads(init);
      PrefixWords(Block(ws), |Block(init)|, |Block(ws)|);
      assert Block(ws)[..|Block(init)|] == Block(init) && Block(ws)[..|Block(ws)|] == Block(ws);
      LastWord(Block(init), last);
      assert Words(Block(ws))[|init|] == Word(Block(ws), 8 * |init|);
      assert Words(Block(ws)) == Words(Block(ws))[..|init|] + [last];
    }
  }

  lemma LastWord(before: Bytes, w: u64)
    ensures Word(before + LittleEndian(w), |before|) == w
  {
    BytesSum(w);
    var all, b := before + LittleEndian(w), LittleEndian(w);
    hide LittleEndian;
    assert forall i :: 0 <= i < 8 ==> all[|before| + i] == b[i];
    assert all[|before|] == b[0];
  }

  /** How much of an argument block is read: at most 4096 bytes, whole words only. */
  function ScanBytes(kernargBytes: u32): (n: u32)
    ensures n % 8 == 0 && n <= 4096 && n <= kernargBytes
    ensures n + 8 > 4096 || n + 8 > kernargBytes
  {
    var n := if kernargBytes < MAX_SCAN_BYTES then kernargBytes else MAX_SCAN_BYTES;
    n - n % 8
  }

  /** A larger window of the same memory can only find more. */
  lemma LargerWindow(vmas: seq<Region>, memory: Bytes, a: u32, b: u32)
    requires a <= b && ScanBytes(b) <= |memory|
    ensures ScanBytes(a) <= ScanBytes(b)
    ensures Mapped(vmas, Elements(Words(memory[..ScanBytes(a)]))) <= Mapped(vmas, Elements(Words(memory[..ScanBytes(b)])))
    ensures PtrCount(vmas, Words(memory[..ScanBytes(a)])) <= PtrCount(vmas, Words(memory[..ScanBytes(b)]))
  {
    hide Hit, Mapped, Word;
    WindowGrows(a, b);
    var small, large := Words(memory[..ScanBytes(a)]), Words(memory[..ScanBytes(b)]);
    PrefixWords(memory, ScanBytes(a), ScanBytes(b));
    assert Elements(small) <= Elements(large);
    MappedMonotone(vmas, Elements(small), Elements(large));
    PrefixCounts(vmas, large, |small|);
  }

  lemma WindowGrows(a: u32, b: u32)
    requires a <= b
    ensures ScanBytes(a) <= ScanBytes(b)
  {
  }

  lemma PrefixWords(memory: Bytes, a: nat, b: nat)
    requires a <= b <= |memory| && a % 8 == 0
    ensures a / 8 <= b / 8 && Words(memory[..a]) == Words(memory[..b])[..a / 8]
  {
    assert forall i :: 0 <= i < a / 8 ==> Word(memory[..a], 8 * i) == Word(memory[..b], 8 * i);
  }

  lemma {:induction false} PrefixCounts(vmas: seq<Region>, ws: seq<u64>, k: nat)
    requires k <= |ws|
    ensures PtrCount(vmas, ws[..k]) <= PtrCount(vmas, ws)
  {
    hide Hit;
    if k < |ws| {
      PrefixCounts(vmas, ws[..|ws| - 1], k);
      assert ws[..|ws| - 1][..k] == ws[..k];
    } else {
      assert ws[..k] == ws;
    }
  }

  datatype Estimate = Estimate(ok: bool, mappedBytes: u64, ptrCount: u32)

  /** What one call reports, given the outcomes of the two ways of reading `ScanBytes` bytes of the block and the
      mappings of the process. */
  ghost predicate Reports(va: u64, kernargBytes: u32, direct: Option<Bytes>, viaFile: Option<Bytes>,
      vmas: seq<Region>, e: Estimate) {
    if va == 0 || kernargBytes < 8 then e == Estimate(true, 0, 0)
    else if (direct.None? && viaFile.None?) || vmas == [] then e == Estimate(false, 0, 0)
    else
      var ws := Words(if direct.Some? then direct.value else viaFile.value);
      e.ok && e.mappedBytes == Mapped(vmas, Elements(ws)) && e.ptrCount == PtrCount(vmas, ws)
  }

  predicate Filled(read: Option<Bytes>, n: nat) {
    read.Some? ==> |read.value| == n
  }

  method ScanKernargFootprint(va: u64, kernargBytes: u32, direct: Option<Bytes>, viaFile: Option<Bytes>,
      listing: seq<Region>)
    returns (ok: bool, mappedBytes: u64, ptrCount: u32)
    requires Filled(direct, ScanBytes(kernargBytes)) && Filled(viaFile, ScanBytes(kernargBytes))
    requires Ordered(NonEmpty(listing))
    ensures Reports(va, kernargBytes, direct, viaFile, NonEmpty(listing), Estimate(ok, mappedBytes, ptrCount))
    ensures mappedBytes <= Total(NonEmpty(listing)) && ptrCount <= 512
  {
    hide Hit, Mapped, Word, Ordered, Elements, NonEmpty;
    mappedBytes, ptrCount := 0, 0;
    if va == 0 || kernargBytes < 8 {
      return true, mappedBytes, ptrCount;
    }
    if direct.None? && viaFile.None? {
      return false, mappedBytes, ptrCount;
    }
    var buf := if direct.Some? then direct.value else viaFile.value;
    var vmas := ReadVmas(listing);
    if vmas == [] {
      return false, mappedBytes, ptrCount;
    }
    mappedBytes, ptrCount := ScanWords(buf, vmas);
    ok := true;
  }

  method ScanWords(buf: Bytes, vmas: seq<Region>) returns (mappedBytes: u64, ptrCount: u32)
    requires |buf| <= 4096 && |buf| % 8 == 0 && Ordered(vmas)
    ensures mappedBytes == Mapped(vmas, Elements(Words(buf))) <= Total(vmas)
    ensures ptrCount == PtrCount(vmas, Words(buf)) <= 512
  {
    hide Hit, Mapped, Word, Ordered, Elements;
    mappedBytes, ptrCount := 0, 0;
    var seenStarts: set<u64> := {};
    ghost var ws := Words(buf);
    var off := 0;
    NothingSeen(vmas, ws);
    while off + 8 <= |buf|
      invariant off % 8 == 0 && off <= |buf|
      invariant Progress(vmas, ws[..off / 8], mappedBytes, ptrCount, seenStarts)
    {
      var candidate := Word(buf, off);
      assert ws[off / 8] == candidate;
      assert ws[..off / 8 + 1][..off / 8] == ws[..off / 8];
      mappedBytes, ptrCount, seenStarts := ScanWord(vmas, candidate, mappedBytes, ptrCount, seenStarts, ws[..off / 8]);
      assert ws[..off / 8] + [candidate] == ws[..off / 8 + 1];
      off := off + 8;
    }
    assert ws[..off / 8] == ws;
    MappedMonotone(vmas, Elements(ws), Elements(ws));
  }

  /** The accumulators after the words `ws`. */
  ghost predicate Progress(vmas: seq<Region>, ws: seq<u64>, mappedBytes: u64, ptrCount: u32, seen: set<u64>) {
    && mappedBytes == Mapped(vmas, Elements(ws))
    && ptrCount == PtrCount(vmas, ws)
    && forall w: u64 :: w in seen <==> w in ws && Hit(vmas, w)
  }

  lemma NothingSeen(vmas: seq<Region>, ws: seq<u64>)
    ensures Progress(vmas, ws[..0], 0, 0, {})
  {
    hide Hit;
    assert Elements(ws[..0]) == {};
    MappedNothing(vmas);
  }

  lemma MissStep(vmas: seq<Region>, ws: seq<u64>, w: u64, mappedBytes: u64, ptrCount: u32, seen: set<u64>)
    requires Progress(vmas, ws, mappedBytes, ptrCount, seen) && !Hit(vmas, w)
    ensures Progress(vmas, ws + [w], mappedBytes, ptrCount, seen)
  {
    hide Hit, Mapped;
    assert Elements(ws + [w]) == Elements(ws) + {w};
    MappedIgnores(vmas, Elements(ws), w);
  }

  lemma AgainStep(vmas: seq<Region>, ws: seq<u64>, w: u64, mappedBytes: u64, ptrCount: u32, seen: set<u64>)
    requires Progress(vmas, ws, mappedBytes, ptrCount, seen) && Hit(vmas, w) && w in seen && ptrCount < U32 - 1
    ensures Progress(vmas, ws + [w], mappedBytes, ptrCount + 1, seen)
  {
    hide Hit, Mapped;
    assert Elements(ws + [w]) == Elements(ws) + {w};
    assert w in Elements(ws);
    MappedIgnores(vmas, Elements(ws), w);
  }

  lemma NewStep(vmas: seq<Region>, ws: seq<u64>, r: Region, mappedBytes: u64, ptrCount: u32, seen: set<u64>)
    requires Progress(vmas, ws, mappedBytes, ptrCount, seen) && Ordered(vmas) && r in vmas && Hit(vmas, r.start)
    requires r.start < r.end && r.start !in seen && ptrCount < U32 - 1
    ensures mappedBytes + (r.end - r.start) < U64
    ensures Progress(vmas, ws + [r.start], mappedBytes + (r.end - r.start), ptrCount + 1, seen + {r.start})
  {
    assert Plausible(r.start);
    hide Hit, Mapped, Ordered;
    assert Elements(ws + [r.start]) == Elements(ws) + {r.start};
    assert r.start !in Elements(ws);
    MappedAdds(vmas, Elements(ws), r);
    MappedMonotone(vmas, Elements(ws + [r.start]), Elements(ws + [r.start]));
    TotalFits(vmas);
  }

  /** The body of the scan loop for one candidate. */
  method ScanWord(vmas: seq<Region>, candidate: u64, mappedBefore: u64, countBefore: u32, seenBefore: set<u64>,
      ghost ws: seq<u64>)
    returns (mappedBytes: u64, ptrCount: u32, seenStarts: set<u64>)
    requires Ordered(vmas) && Progress(vmas, ws, mappedBefore, countBefore, seenBefore) && |ws| < 512
    ensures Progress(vmas, ws + [candidate], mappedBytes, ptrCount, seenStarts)
  {
    mappedBytes, ptrCount, seenStarts := mappedBefore, countBefore, seenBefore;
    if candidate < LOWEST || candidate >= HIGHEST {
      assert !Hit(vmas, candidate);
      MissStep(vmas, ws, candidate, mappedBytes, ptrCount, seenStarts);
      return;
    }
    var v := FindVma(vmas, candidate);
    BaseFound(vmas, candidate, v);
    hide Progress, Hit, Ordered;
    if v.None? || v.value.start != candidate {
      MissStep(vmas, ws, candidate, mappedBytes, ptrCount, seenStarts);
      return;
    }
    assert ptrCount <= 512 by {
      CountSmall(vmas, ws, mappedBytes, ptrCount, seenStarts);
    }
    if candidate in seenStarts {
      AgainStep(vmas, ws, candidate, mappedBytes, ptrCount, seenStarts);
    } else {
      NewStep(vmas, ws, v.value, mappedBytes, ptrCount, seenStarts);
      seenStarts := seenStarts + {candidate};
      mappedBytes := mappedBytes + (v.value.end - v.value.start);
    }
    ptrCount := ptrCount + 1;
  }

  lemma CountSmall(vmas: seq<Region>, ws: seq<u64>, mappedBytes: u64, ptrCount: u32, seen: set<u64>)
    requires Progress(vmas, ws, mappedBytes, ptrCount, seen)
    ensures ptrCount <= |ws|
  {
  }

  /** The containing mapping starts at the candidate exactly when the candidate is a base. */
  lemma BaseFound(vmas: seq<Region>, candidate: u64, v: Option<Region>)
    requires Ordered(vmas) && Plausible(candidate)
    requires v.Some? ==> v.value in vmas && Contains(v.value, candidate)
    requires v.None? ==> forall i :: 0 <= i < |vmas| ==> !Contains(vmas[i], candidate)
    ensures Hit(vmas, candidate) <==> v.Some? && v.value.start == candidate
  {
    if IsBase(vmas, candidate) {
      var i :| 0 <= i < |vmas| && vmas[i].start == candidate;
      assert Contains(vmas[i], candidate);
      var j :| 0 <= j < |vmas| && vmas[j] == v.value;
      assert i == j;
    }
  }
}
