/** The data model shared by all components (src/model.h): queues, packet records and the
    per-queue polling state, over explicit machine-word types. */
module Model {
  const U64: int := 0x1_0000_0000_0000_0000
  const U32: int := 0x1_0000_0000

  type u8 = x: nat | x < 256
  type u16 = x: nat | x < 0x1_0000
  type u32 = x: nat | x < 0x1_0000_0000
  type u64 = x: nat | x < 0x1_0000_0000_0000_0000

  /** Unsigned 64-bit wrap-around of the result of an addition or subtraction. */
  function Wrap(x: int): (r: u64)
    ensures 0 <= x < U64 ==> r == x
    ensures U64 <= x < 2 * U64 ==> r == x - U64
    ensures -U64 <= x < 0 ==> r == x + U64
  {
    x % U64
  }

  function Min(a: nat, b: nat): nat {
    if a < b then a else b
  }

  function Max(a: nat, b: nat): nat {
    if a < b then b else a
  }

  datatype Option<+T> = None | Some(value: T)

  /** A C or C++ string: its bytes. */
  type Bytes = seq<u8>

  /** The bytes of a literal. */
  function Ascii(s: string): (b: Bytes)
    ensures |b| == |s|
  {
    if s == [] then [] else [s[0] as int % 256] + Ascii(s[1..])
  }

  /** One 64-byte AQL slot as raw bytes. */
  type Raw = r: seq<u8> | |r| == 64 witness seq(64, i => 0)

  datatype Version = Unknown | V4 | V5 | V6 | V7

  datatype QueueInfo = QueueInfo(uid: u64, ringSize: u32, qtype: u32, sdmaVersion: Version,
                                 pid: u32, comm: Bytes, gpuId: u32, ringBase: u64, ringPhys: u64, createTs: real) {
    function NumSlots(): u32 {
      ringSize / 64
    }

    function NumDwords(): u32 {
      ringSize / 4
    }

    predicate IsSdma() {
      qtype == 1 || qtype == 3 || qtype == 4
    }
  }

  /** The fields a kernel-dispatch packet contributes to its record. */
  datatype Dispatch = Dispatch(kernelObject: u64, grid: (u32, u32, u32), wg: (u16, u16, u16),
                               privateSeg: u32, groupSeg: u32, completionSignal: u64, kernargAddress: u64)

  const NO_DISPATCH := Dispatch(0, (0, 0, 0), (0, 0, 0), 0, 0, 0, 0)

  datatype PacketRecord = PacketRecord(queueUid: u64, dispatchId: u64, ptype: u8, barrier: bool,
                                       dispatch: Dispatch, kernelName: Bytes,
                                       submitTs: real, completeTs: real, completed: bool)

  datatype CopyDir = UnknownDir | HostToDevice | DeviceToHost | DeviceToDevice | HostToHost

  datatype SdmaRecord = SdmaRecord(queueUid: u64, seqNo: u64, opcode: u8, subOpcode: u8, version: Version,
                                   opName: Bytes, bytes: u64, src: u64, dst: u64, dir: CopyDir,
                                   submitTs: real, completeTs: real, completed: bool)

  /** What the poller keeps per queue (struct QueueState in src/parser.h). The two std::map
      members are key-sorted sequences of entries, see module OrderedMap. */
  datatype Entry<+V> = Entry(key: u64, val: V)

  datatype QState = QState(nextId: u64, lastRptr: u64, primed: bool, dropped: u64,
                           inflight: seq<Entry<PacketRecord>>,
                           sdmaSeq: u64, sdmaInflight: seq<Entry<SdmaRecord>>,
                           pageHost: map<u64, bool>, fails: nat, evict: bool)

  /** What one poll saw: an unreadable queue pointer, or pointers and memory. */
  datatype Obs<+V> = PtrFail | Got(view: V)

  const INIT := QState(0, 0, false, 0, [], 0, [], map[], 0, false)

  const EVICT_AFTER: nat := 50

  /** A failed read of the write or read pointer. */
  function PtrReadFailed(s: QState): QState {
    s.(fails := s.fails + 1, evict := s.evict || s.fails + 1 >= EVICT_AFTER)
  }

  /** The first successful read only records where the producer is. */
  function Prime(s: QState, wptr: u64, rptr: u64): QState {
    s.(nextId := wptr, lastRptr := rptr, primed := true)
  }

  /** Overrun guard: skip what the producer has already wrapped over (64-bit arithmetic as written). */
  function SkipOverrun(s: QState, wptr: u64, cap: u32): QState {
    if wptr > Wrap(s.nextId + cap)
    then s.(dropped := Wrap(s.dropped + Wrap(Wrap(wptr - s.nextId) - cap)), nextId := Wrap(wptr - cap))
    else s
  }

  /** The guard over unbounded integers: what it is meant to compute. */
  function IdealSkip(s: QState, wptr: u64, cap: u32): QState {
    if wptr > s.nextId + cap
    then s.(dropped := Wrap(s.dropped + (wptr - s.nextId - cap)), nextId := wptr - cap)
    else s
  }

  /** The 64-bit guard is the intended one exactly when `nextId + cap` does not wrap or the write
      pointer is at or below the wrapped sum. */
  lemma SkipOverrunExact(s: QState, wptr: u64, cap: u32)
    ensures SkipOverrun(s, wptr, cap) == IdealSkip(s, wptr, cap) <==>
            (s.nextId + cap < U64 || wptr <= s.nextId + cap - U64)
  {
    var sum := s.nextId + cap;
    if sum < U64 {
      if wptr > sum {
        SkipDistance(s.nextId, wptr, cap);
      }
    } else {
      assert Wrap(sum) == sum - U64;
      if wptr > sum - U64 {
        assert Wrap(wptr - cap) != s.nextId by {
          assert Wrap(wptr - cap) == if wptr >= cap then wptr - cap else wptr - cap + U64;
        }
      }
    }
  }

  lemma SkipDistance(n: u64, wptr: u64, cap: u32)
    requires wptr > n + cap
    ensures Wrap(Wrap(wptr - n) - cap) == wptr - n - cap
    ensures Wrap(wptr - cap) == wptr - cap
  {
  }
}

/** A few facts about sequences that proofs elsewhere call by name. */
module Sequences {
  /** All elements of a sequence of sequences, in order. */
  function Flat<T>(log: seq<seq<T>>): seq<T> {
    if log == [] then [] else Flat(log[..|log| - 1]) + log[|log| - 1]
  }

  lemma Assoc<T>(a: seq<T>, b: seq<T>, c: seq<T>)
    ensures (a + b) + c == a + (b + c)
  {
  }

  lemma Assoc4<T>(a: seq<T>, b: seq<T>, c: seq<T>, d: seq<T>)
    ensures (a + b + c) + d == a + (b + (c + d))
  {
    Assoc(a + b, c, d);
    Assoc(a, b, c + d);
  }

  lemma SplitAt<T>(a: seq<T>, b: seq<T>)
    ensures (a + b)[..|a|] == a && (a + b)[|a|..] == b
  {
  }
}

/** Numbers as text, the way printf and std::to_string write them. */
module Text {
  import opened Model

  predicate IsDigit(c: nat) {
    48 <= c <= 57
  }

  function Decimal(n: nat): Bytes {
    if n < 10 then [48 + n] else Decimal(n / 10) + [48 + n % 10]
  }

  function HexDigit(d: nat): u8
    requires d < 16
  {
    if d < 10 then 48 + d else 87 + d
  }

  function Hex(n: nat): Bytes {
    if n < 16 then [HexDigit(n)] else Hex(n / 16) + [HexDigit(n % 16)]
  }

  lemma {:induction false} DecimalIsDigits(n: nat)
    ensures |Decimal(n)| > 0
    ensures forall i :: 0 <= i < |Decimal(n)| ==> IsDigit(Decimal(n)[i])
  {
    if n >= 10 {
      DecimalIsDigits(n / 10);
    }
  }

  /** No leading zero. */
  lemma {:induction false} DecimalLead(n: nat)
    ensures |Decimal(n)| > 0
    ensures Decimal(n)[0] == 48 <==> n == 0
    ensures n == 0 ==> |Decimal(n)| == 1
  {
    if n >= 10 {
      DecimalLead(n / 10);
      assert Decimal(n)[0] == Decimal(n / 10)[0];
    }
  }

  /** The number a string of digits denotes. */
  function Value(s: Bytes): int {
    if s == [] then 0 else 10 * Value(s[..|s| - 1]) + (s[|s| - 1] as int - 48)
  }

  lemma {:induction false} DecimalReadsBack(n: nat)
    ensures Value(Decimal(n)) == n
  {
    if n >= 10 {
      DecimalReadsBack(n / 10);
      assert Decimal(n)[..|Decimal(n)| - 1] == Decimal(n / 10);
    } else {
      assert Value([]) == 0;
    }
  }

  /** The number a string of lower-case hexadecimal digits denotes. */
  function HexNumber(s: Bytes): int {
    if s == [] then 0
    else 16 * HexNumber(s[..|s| - 1]) + if s[|s| - 1] < 58 then s[|s| - 1] as int - 48 else s[|s| - 1] as int - 87
  }

  lemma {:induction false} HexReadsBack(n: nat)
    ensures |Hex(n)| > 0 && HexNumber(Hex(n)) == n && (n > 0 ==> Hex(n)[0] != 48)
    ensures forall i :: 0 <= i < |Hex(n)| ==> IsDigit(Hex(n)[i]) || 97 <= Hex(n)[i] <= 102
  {
    if n >= 16 {
      HexReadsBack(n / 16);
      assert Hex(n)[..|Hex(n)| - 1] == Hex(n / 16);
      assert Hex(n)[0] == Hex(n / 16)[0];
    } else {
      assert HexNumber([]) == 0 && Hex(n)[..0] == [];
    }
  }
}

/** Positions in a ring of `n` slots. */
module Ring {
  lemma NoSmallMultiple(n: nat, k: int)
    requires n > 0
    ensures n * k <= 0 || n * k >= n
  {
    if k <= 0 {
      assert n * k <= 0;
    } else {
      assert n * k == n + n * (k - 1);
      assert n * (k - 1) >= 0;
    }
  }

  /** A position is a whole number of laps plus its slot. */
  lemma Laps(a: nat, n: nat)
    requires n > 0
    ensures a == n * (a / n) + a % n
  {
  }

  /** Whole laps ahead is the same slot. */
  lemma {:induction false} LapsAhead(a: nat, k: nat, n: nat)
    requires n > 0
    ensures (a + k * n) % n == a % n
  {
    if k > 0 {
      LapsAhead(a, k - 1, n);
      var b := a + (k - 1) * n;
      assert a + k * n == b + n;
      Laps(b, n);
      assert b + n == n * (b / n + 1) + b % n;
      LapsUnique(b + n, n, b / n + 1, b % n);
    }
  }

  lemma LapsUnique(a: nat, n: nat, q: int, r: nat)
    requires n > 0 && a == n * q + r && r < n
    ensures a % n == r
  {
    Laps(a, n);
    assert n * (a / n) - n * q == n * (a / n - q);
    NoSmallMultiple(n, a / n - q);
    NoSmallMultiple(n, q - a / n);
    assert n * (q - a / n) == -(n * (a / n - q));
  }

  /** Any number of laps above a slot's own number. */
  lemma LapsBack(k: nat, lap: nat, n: nat)
    requires k < n
    ensures (k + lap * n) % n == k && k + lap * n >= k
  {
    LapsAhead(k, lap, n);
    LapsUnique(k, n, 0, k);
  }

  /** An aligned piece of `size` bytes inside a ring is one of its whole pieces. */
  lemma Piece(off: nat, size: nat, ring: nat)
    requires size > 0 && off % size == 0 && off + size <= ring
    ensures off / size < ring / size && off / size * size == off
  {
    var k, n := off / size, ring / size;
    Laps(off, size);
    Laps(ring, size);
    assert size * k == k * size;
    NoSmallMultiple(size, k - n);
    assert size * (k - n) == size * k - size * n;
  }

  /** A distance counts modulo the ring, and is its own remainder exactly within one lap. */
  lemma Remainder(r: nat, d: nat, n: nat)
    requires n > 0
    ensures d % n < n && (d % n == d <==> d < n)
    ensures (r + d % n) % n == (r + d) % n
  {
    var k := d / n;
    Laps(d, n);
    assert n * k == k * n;
    NoSmallMultiple(n, k);
    LapsAhead(r + d % n, k, n);
  }

  /** Within one lap all positions have different slots. */
  lemma WindowMod(a: nat, b: nat, n: nat)
    requires n > 0 && a < b < a + n
    ensures a % n != b % n
  {
    if a % n == b % n {
      var p, q := a / n, b / n;
      Laps(a, n);
      Laps(b, n);
      assert b - a == n * q - n * p;
      assert n * q - n * p == n * (q - p);
      NoSmallMultiple(n, q - p);
    }
  }
}

/** std::map<uint64_t, V> as the sequence of its entries in key order. */
module OrderedMap {
  import opened Model

  predicate Sorted<V>(m: seq<Entry<V>>) {
    forall i, j :: 0 <= i < j < |m| ==> m[i].key < m[j].key
  }

  /** `emplace`: keeps an existing entry, otherwise inserts in key order. */
  function Emplace<V>(m: seq<Entry<V>>, k: u64, v: V): seq<Entry<V>> {
    if m == [] || k < m[0].key then [Entry(k, v)] + m
    else if k == m[0].key then m
    else [m[0]] + Emplace(m[1..], k, v)
  }

  predicate Has<V>(m: seq<Entry<V>>, k: u64) {
    exists i :: 0 <= i < |m| && m[i].key == k
  }

  /** Emplace is a map insertion: it keeps every entry and adds the new one exactly when the key was free. */
  lemma {:induction false} EmplaceMember<V>(m: seq<Entry<V>>, k: u64, v: V, e: Entry<V>)
    requires Sorted(m)
    ensures e in Emplace(m, k, v) <==> e in m || (e == Entry(k, v) && !Has(m, k))
  {
    if m != [] && m[0].key <= k {
      HasCons(m, k);
      assert m == [m[0]] + m[1..];
      if m[0].key < k {
        EmplaceMember(m[1..], k, v, e);
      }
    }
  }

  lemma HasCons<V>(m: seq<Entry<V>>, k: u64)
    requires m != []
    ensures Has(m, k) <==> m[0].key == k || Has(m[1..], k)
  {
    if Has(m[1..], k) {
      var i :| 0 <= i < |m[1..]| && m[1..][i].key == k;
      assert m[i + 1].key == k;
    }
    if Has(m, k) && m[0].key != k {
      var i :| 0 <= i < |m| && m[i].key == k;
      assert m[1..][i - 1].key == k;
    }
  }

  lemma {:induction false} EmplaceSorted<V>(m: seq<Entry<V>>, k: u64, v: V)
    requires Sorted(m)
    ensures Sorted(Emplace(m, k, v))
  {
    if m != [] && m[0].key < k {
      var rest := Emplace(m[1..], k, v);
      EmplaceSorted(m[1..], k, v);
      forall i | 0 <= i < |rest|
        ensures m[0].key < rest[i].key
      {
        EmplaceMember(m[1..], k, v, rest[i]);
      }
    }
  }

  /** A key above all present ones is appended. */
  lemma {:induction false} EmplaceLast<V>(m: seq<Entry<V>>, k: u64, v: V)
    requires forall i :: 0 <= i < |m| ==> m[i].key < k
    ensures Emplace(m, k, v) == m + [Entry(k, v)]
  {
    if m != [] {
      EmplaceLast(m[1..], k, v);
      assert m == [m[0]] + m[1..];
    }
  }

  /** `m[k] = v`: overwrites an existing entry. */
  function Assign<V>(m: seq<Entry<V>>, k: u64, v: V): seq<Entry<V>> {
    if m == [] || k < m[0].key then [Entry(k, v)] + m
    else if k == m[0].key then [Entry(k, v)] + m[1..]
    else [m[0]] + Assign(m[1..], k, v)
  }

  function Find<V>(m: seq<Entry<V>>, k: u64): Option<V> {
    if m == [] || k < m[0].key then None
    else if k == m[0].key then Some(m[0].val)
    else Find(m[1..], k)
  }

  lemma {:induction false} EmplaceFinds<V>(m: seq<Entry<V>>, k: u64, v: V, j: u64)
    ensures Find(Emplace(m, k, v), j) == if j == k && Find(m, k).None? then Some(v) else Find(m, j)
  {
    if m != [] && m[0].key < k {
      EmplaceFinds(m[1..], k, v, j);
    }
  }

  lemma {:induction false} EmplacePresent<V>(m: seq<Entry<V>>, k: u64, v: V)
    requires Find(m, k).Some?
    ensures Emplace(m, k, v) == m
  {
    if m[0].key < k {
      EmplacePresent(m[1..], k, v);
    }
  }

  lemma {:induction false} AssignFinds<V>(m: seq<Entry<V>>, k: u64, v: V, j: u64)
    requires Sorted(m)
    ensures Find(Assign(m, k, v), j) == if j == k then Some(v) else Find(m, j)
    ensures Sorted(Assign(m, k, v))
    ensures forall i :: 0 <= i < |Assign(m, k, v)| ==> Assign(m, k, v)[i].key == k || (m != [] && m[0].key <= Assign(m, k, v)[i].key)
  {
    if m != [] && m[0].key < k {
      AssignFinds(m[1..], k, v, j);
    }
  }

  /** Emplace a list of entries one after the other. */
  function EmplaceAll<V>(m: seq<Entry<V>>, q: seq<Entry<V>>): seq<Entry<V>> {
    if q == [] then m
    else
      var e := q[|q| - 1];
      Emplace(EmplaceAll(m, q[..|q| - 1]), e.key, e.val)
  }

  lemma {:induction false} EmplaceAllAppends<V>(m: seq<Entry<V>>, q: seq<Entry<V>>)
    requires Sorted(m + q)
    ensures EmplaceAll(m, q) == m + q
  {
    if q != [] {
      var init, e := q[..|q| - 1], q[|q| - 1];
      var mq := m + q;
      assert m + init == mq[..|mq| - 1] && mq[|mq| - 1] == e;
      EmplaceAllAppends(m, init);
      EmplaceLast(m + init, e.key, e.val);
    } else {
      assert m + q == m;
    }
  }

  /** How many leading entries have a key below `bound`: what a begin()/erase() loop retires. */
  function Due<V>(m: seq<Entry<V>>, bound: nat): (n: nat)
    ensures n <= |m|
  {
    if m == [] || m[0].key >= bound then 0 else 1 + Due(m[1..], bound)
  }

  lemma {:induction false} DueIs<V>(m: seq<Entry<V>>, bound: nat)
    ensures forall i :: 0 <= i < Due(m, bound) ==> m[i].key < bound
    ensures Due(m, bound) < |m| ==> m[Due(m, bound)].key >= bound
  {
    if m != [] && m[0].key < bound {
      DueIs(m[1..], bound);
    }
  }

  /** In a sorted map the due entries are exactly those below the bound. */
  lemma DueSplits<V>(m: seq<Entry<V>>, bound: nat)
    requires Sorted(m)
    ensures forall i :: 0 <= i < |m| ==> (i < Due(m, bound) <==> m[i].key < bound)
  {
    DueIs(m, bound);
  }

  /** Entries at or above the bound, put behind a map, do not become due. */
  lemma DueOfAppend<V>(m: seq<Entry<V>>, a: seq<Entry<V>>, bound: nat)
    requires Sorted(m + a)
    requires forall i :: 0 <= i < |a| ==> a[i].key >= bound
    ensures Due(m + a, bound) == Due(m, bound)
  {
    DueIs(m, bound);
    DueIs(m + a, bound);
    var due, both := Due(m, bound), Due(m + a, bound);
    assert both < |m| ==> (m + a)[both] == m[both];
    assert due < |m| ==> (m + a)[due] == m[due];
    assert |m| <= due < |m| + |a| ==> (m + a)[due] == a[due - |m|];
  }

  /** A property of all values survives emplacing values that have it. */
  lemma {:induction false} EmplaceValues<V>(m: seq<Entry<V>>, k: u64, v: V, p: V -> bool)
    requires p(v) && forall i :: 0 <= i < |m| ==> p(m[i].val)
    ensures forall i :: 0 <= i < |Emplace(m, k, v)| ==> p(Emplace(m, k, v)[i].val)
  {
    if m != [] && m[0].key < k {
      EmplaceValues(m[1..], k, v, p);
    }
  }

  lemma {:induction false} EmplaceAllValues<V>(m: seq<Entry<V>>, q: seq<Entry<V>>, p: V -> bool)
    requires forall i :: 0 <= i < |m| ==> p(m[i].val)
    requires forall i :: 0 <= i < |q| ==> p(q[i].val)
    ensures forall i :: 0 <= i < |EmplaceAll(m, q)| ==> p(EmplaceAll(m, q)[i].val)
  {
    if q != [] {
      EmplaceAllValues(m, q[..|q| - 1], p);
      EmplaceValues(EmplaceAll(m, q[..|q| - 1]), q[|q| - 1].key, q[|q| - 1].val, p);
    }
  }
}
