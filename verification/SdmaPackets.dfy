/** SDMA microcode packet lengths (src/sdma.h, src/sdma.cpp). Bit fields of a header dword are
    written with division and remainder by powers of two. */
module SdmaPackets {
  import opened Model
  import opened Sequences

  const OP_NOP: nat := 0
  const OP_COPY: nat := 1
  const OP_WRITE: nat := 2
  const OP_INDIRECT: nat := 4
  const OP_FENCE: nat := 5
  const OP_TRAP: nat := 6
  const OP_SEM: nat := 7
  const OP_POLL_REGMEM: nat := 8
  const OP_COND_EXE: nat := 9
  const OP_ATOMIC: nat := 10
  const OP_CONST_FILL: nat := 11
  const OP_PTEPDE: nat := 12
  const OP_TIMESTAMP: nat := 13
  const OP_SRBM_WRITE: nat := 14
  const OP_PRE_EXE: nat := 15
  const OP_VERSION_SPECIFIC_16: nat := 16
  const OP_GCR_REQ: nat := 17
  const OP_V6_DUMMY_TRAP: nat := 32

  const COPY_LINEAR: nat := 0
  const COPY_TILED: nat := 1
  const COPY_SOA: nat := 3
  const COPY_LINEAR_SUB_WIND: nat := 4
  const COPY_TILED_SUB_WIND: nat := 5
  const COPY_T2T_SUB_WIND: nat := 6
  const COPY_DIRTY_PAGE: nat := 7
  const COPY_LINEAR_PHY: nat := 8
  const COPY_LINEAR_BC: nat := 16
  const COPY_TILED_BC: nat := 17
  const COPY_LINEAR_SUB_WIND_BC: nat := 20
  const COPY_TILED_SUB_WIND_BC: nat := 21
  const COPY_T2T_SUB_WIND_BC: nat := 22
  const COPY_LINEAR_SUB_WIND_LARGE: nat := 36

  /** The poller decodes from a window of at most this many dwords. */
  const WINDOW: nat := 16

  const MAX_PACKET: nat := 0x100004

  predicate Supported(v: Version) {
    v == V4 || v == V6 || v == V7
  }

  predicate SixOrSeven(v: Version) {
    v == V6 || v == V7
  }

  function HeaderOp(dw0: u32): u8 {
    dw0 % 256
  }

  function HeaderSubOp(dw0: u32): u8 {
    dw0 / 0x100 % 256
  }

  /** Bit 27, defined only for the LINEAR and TILED copy headers. */
  predicate HeaderBroadcast(dw0: u32) {
    && (HeaderSubOp(dw0) == COPY_LINEAR || HeaderSubOp(dw0) == COPY_TILED)
    && dw0 / 0x800_0000 % 2 == 1
  }

  function NopCount(dw0: u32): nat {
    dw0 / 0x1_0000 % 0x4000
  }

  predicate IsLinearCopy(v: Version, sub: u8) {
    || (v == V4 && sub == COPY_LINEAR)
    || (SixOrSeven(v) && (sub == COPY_LINEAR || sub == COPY_LINEAR_BC))
  }

  function LinearCopyBytes(v: Version, sub: u8, count: u32): u64 {
    if !IsLinearCopy(v, sub) then 0
    else if SixOrSeven(v) && sub == COPY_LINEAR then count % 0x4000_0000 + 1
    else count % 0x40_0000 + 1
  }

  function OpName(v: Version, op: u8): string {
    if op == OP_NOP then "nop"
    else if op == OP_COPY then "copy"
    else if op == OP_WRITE then "write"
    else if op == OP_INDIRECT then "indirect"
    else if op == OP_FENCE then "fence"
    else if op == OP_TRAP then "trap"
    else if op == OP_SEM then "semaphore"
    else if op == OP_POLL_REGMEM then "poll_regmem"
    else if op == OP_COND_EXE then "cond_exe"
    else if op == OP_ATOMIC then "atomic"
    else if op == OP_CONST_FILL then "const_fill"
    else if op == OP_PTEPDE then "ptepde"
    else if op == OP_TIMESTAMP then "timestamp"
    else if op == OP_SRBM_WRITE then "srbm_write"
    else if op == OP_PRE_EXE then "pre_exe"
    else if op == OP_VERSION_SPECIFIC_16 then
      if v == V4 then "dummy_trap" else if SixOrSeven(v) then "gpuvm_inv" else "unknown"
    else if op == OP_GCR_REQ && SixOrSeven(v) then "gcr_req"
    else if op == OP_V6_DUMMY_TRAP && SixOrSeven(v) then "dummy_trap"
    else "unknown"
  }

  function CopySubOpName(v: Version, sub: u8): string {
    if sub == COPY_LINEAR then "linear"
    else if sub == COPY_TILED then "tiled"
    else if sub == COPY_SOA then "soa"
    else if sub == COPY_LINEAR_SUB_WIND then "linear_subwindow"
    else if sub == COPY_TILED_SUB_WIND then "tiled_subwindow"
    else if sub == COPY_T2T_SUB_WIND then "t2t_subwindow"
    else if sub == COPY_DIRTY_PAGE then "dirty_page"
    else if sub == COPY_LINEAR_PHY then "linear_physical"
    else if !SixOrSeven(v) then "unknown"
    else if sub == COPY_LINEAR_BC then "linear_bc"
    else if sub == COPY_TILED_BC then "tiled_bc"
    else if sub == COPY_LINEAR_SUB_WIND_BC then "linear_subwindow_bc"
    else if sub == COPY_TILED_SUB_WIND_BC then "tiled_subwindow_bc"
    else if sub == COPY_T2T_SUB_WIND_BC then "t2t_subwindow_bc"
    else if sub == COPY_LINEAR_SUB_WIND_LARGE then "linear_subwindow_large"
    else "unknown"
  }

  /** The display name of a packet. */
  function PacketName(v: Version, dw0: u32): Bytes {
    if HeaderOp(dw0) == OP_COPY
    then Ascii("copy_") + Ascii(CopySubOpName(v, HeaderSubOp(dw0))) + (if HeaderBroadcast(dw0) then Ascii("_broadcast") else [])
    else Ascii(OpName(v, HeaderOp(dw0)))
  }

  function BroadcastCopyLen(sub: u8): nat {
    if sub == COPY_LINEAR then 9
    else if sub == COPY_TILED then 16
    else 0
  }

  function CopyLenV4(dw0: u32): nat {
    var sub := HeaderSubOp(dw0);
    if HeaderBroadcast(dw0) then BroadcastCopyLen(sub)
    else if sub == COPY_LINEAR || sub == COPY_DIRTY_PAGE || sub == COPY_LINEAR_PHY then 7
    else if sub == COPY_SOA then 8
    else if sub == COPY_LINEAR_SUB_WIND || sub == COPY_TILED then 13
    else if sub == COPY_TILED_SUB_WIND then 14
    else if sub == COPY_T2T_SUB_WIND then 15
    else 0
  }

  function CopyLenV6(dw0: u32): nat {
    var sub := HeaderSubOp(dw0);
    if HeaderBroadcast(dw0) then BroadcastCopyLen(sub)
    else if sub in {COPY_LINEAR, COPY_DIRTY_PAGE, COPY_LINEAR_PHY, COPY_LINEAR_BC} then 7
    else if sub == COPY_SOA then 8
    else if sub in {COPY_LINEAR_SUB_WIND, COPY_TILED, COPY_TILED_BC, COPY_LINEAR_SUB_WIND_BC} then 13
    else if sub == COPY_TILED_SUB_WIND_BC then 14
    else if sub == COPY_T2T_SUB_WIND_BC then 15
    else if sub == COPY_TILED_SUB_WIND then 17
    else if sub == COPY_T2T_SUB_WIND then 18
    else if sub == COPY_LINEAR_SUB_WIND_LARGE then 20
    else 0
  }

  function CopyLenV7(dw0: u32): nat {
    var sub := HeaderSubOp(dw0);
    if HeaderBroadcast(dw0) then BroadcastCopyLen(sub)
    else if sub == COPY_LINEAR || sub == COPY_LINEAR_BC then 8
    else CopyLenV6(dw0)
  }

  function PollLen(v: Version, sub: u8): nat {
    match sub
    case 0 => 6
    case 1 => 4
    case 2 => 5
    case 3 => 13
    case 4 => if SixOrSeven(v) then 4 else 0
    case _ => 0
  }

  function PtePdeLen(v: Version, sub: u8): nat {
    match sub
    case 1 => 8
    case 2 => if v == V4 then 7 else 8
    case 3 => 7
    case _ => 0
  }

  /** The length of every packet that its header dword alone determines. */
  function HeaderLen(v: Version, dw0: u32): nat {
    var op, sub := HeaderOp(dw0), HeaderSubOp(dw0);
    if op == OP_NOP then 1 + NopCount(dw0)
    else if op == OP_COPY then
      if v == V4 then CopyLenV4(dw0) else if v == V7 then CopyLenV7(dw0) else CopyLenV6(dw0)
    else if op == OP_FENCE then 4
    else if op == OP_TRAP then 2
    else if op == OP_SEM then 3
    else if op == OP_POLL_REGMEM then PollLen(v, sub)
    else if op == OP_COND_EXE then 5
    else if op == OP_ATOMIC then 8
    else if op == OP_CONST_FILL then (if sub == 0 then 5 else if sub == 1 then 6 else 0)
    else if op == OP_PTEPDE then PtePdeLen(v, sub)
    else if op == OP_TIMESTAMP then (if sub <= 2 then 3 else 0)
    else if op == OP_SRBM_WRITE then 3
    else if op == OP_PRE_EXE then 2
    else if op == OP_INDIRECT then 6
    else if op == OP_VERSION_SPECIFIC_16 then (if v == V4 then 2 else 4)
    else if op == OP_GCR_REQ then (if SixOrSeven(v) then 5 else 0)
    else if op == OP_V6_DUMMY_TRAP then (if SixOrSeven(v) then 2 else 0)
    else 0
  }

  /** Length in dwords of the packet at the front of `dw`, 0 when unknown or not yet decidable. */
  function PacketLen(v: Version, dw: seq<u32>): (len: nat)
    ensures len <= MAX_PACKET
  {
    if !Supported(v) || |dw| < 1 then 0
    else if HeaderOp(dw[0]) == OP_WRITE then
      if HeaderSubOp(dw[0]) != 0 || |dw| < 4 then 0 else 5 + dw[3] % 0x10_0000
    else HeaderLen(v, dw[0])
  }

  /** The bound is attained, by a WRITE whose 20-bit count field is all ones. */
  lemma MaxPacketAttained(v: Version, dw: seq<u32>)
    requires Supported(v)
    ensures PacketLen(v, dw) == MAX_PACKET <==>
            |dw| >= 4 && HeaderOp(dw[0]) == OP_WRITE && HeaderSubOp(dw[0]) == 0 && dw[3] % 0x10_0000 == 0xF_FFFF
  {
  }

  /** A longer window never changes a decided length, and four dwords decide every packet. */
  lemma LenStable(v: Version, a: seq<u32>, b: seq<u32>)
    requires a <= b
    ensures PacketLen(v, a) != 0 || |a| >= 4 ==> PacketLen(v, b) == PacketLen(v, a)
  {
    if |a| > 0 {
      assert a[0] == b[0];
    }
  }

  /** Too short a window withholds a length only for a plain WRITE of one to three visible dwords. */
  lemma UndecidedIsWrite(v: Version, a: seq<u32>, b: seq<u32>)
    requires a <= b && |a| > 0
    ensures PacketLen(v, a) == 0 && PacketLen(v, b) != 0 <==>
            Supported(v) && HeaderOp(a[0]) == OP_WRITE && HeaderSubOp(a[0]) == 0 && |a| < 4 <= |b|
  {
    assert a[0] == b[0];
  }

  /** A complete linear copy always spans the seven dwords its addresses are read from. */
  lemma LinearCopySpansAddresses(v: Version, dw: seq<u32>)
    requires |dw| > 0 && HeaderOp(dw[0]) == OP_COPY && IsLinearCopy(v, HeaderSubOp(dw[0]))
    ensures 7 <= PacketLen(v, dw) <= 9
  {
  }

  // ---- Packets as a code over dwords ----

  function Window(s: seq<u32>): seq<u32> {
    if |s| <= WINDOW then s else s[..WINDOW]
  }

  predicate IsPacket(v: Version, p: seq<u32>) {
    |p| > 0 && PacketLen(v, Window(p)) == |p|
  }

  function Concat(ps: seq<seq<u32>>): seq<u32> {
    if ps == [] then [] else ps[0] + Concat(ps[1..])
  }

  predicate ArePackets(v: Version, ps: seq<seq<u32>>) {
    forall i :: 0 <= i < |ps| ==> IsPacket(v, ps[i])
  }

  /** Splits a stream into packets all at once, stopping at the first incomplete or unknown one. */
  function BatchParse(v: Version, s: seq<u32>): seq<seq<u32>>
    decreases |s|
  {
    var len := PacketLen(v, Window(s));
    if len == 0 || len > |s| then [] else [s[..len]] + BatchParse(v, s[len..])
  }

  /** Whatever follows a packet, its length is read off correctly as soon as it is complete. */
  lemma PacketInFront(v: Version, p: seq<u32>, rest: seq<u32>)
    requires IsPacket(v, p)
    ensures PacketLen(v, Window(p + rest)) == |p|
  {
    assert Window(p) <= Window(p + rest);
    LenStable(v, Window(p), Window(p + rest));
  }

  /** A cut packet is never taken for a complete one: its length is undecided or exceeds what is visible,
      and undecided only below four visible dwords. */
  lemma CutPacket(v: Version, p: seq<u32>, k: nat)
    requires IsPacket(v, p) && k < |p|
    ensures var len := PacketLen(v, Window(p[..k])); (len == 0 && k < 4) || len == |p|
  {
    assert Window(p[..k]) <= Window(p);
    LenStable(v, Window(p[..k]), Window(p));
  }

  /** No packet is a proper prefix of another. */
  lemma PrefixFree(v: Version, p: seq<u32>, q: seq<u32>)
    requires IsPacket(v, p) && IsPacket(v, q) && p <= q
    ensures p == q
  {
    PacketInFront(v, p, q[|p|..]);
    assert p + q[|p|..] == q;
  }

  /** A packet in front is the first thing BatchParse splits off. */
  lemma SplitFirst(v: Version, p: seq<u32>, rest: seq<u32>)
    requires IsPacket(v, p)
    ensures BatchParse(v, p + rest) == [p] + BatchParse(v, rest)
  {
    PacketInFront(v, p, rest);
    assert (p + rest)[|p|..] == rest && (p + rest)[..|p|] == p;
  }

  /** Concatenated packets are split back into exactly those packets. */
  lemma {:induction false} SplitBack(v: Version, ps: seq<seq<u32>>, rest: seq<u32>)
    requires ArePackets(v, ps)
    ensures BatchParse(v, Concat(ps) + rest) == ps + BatchParse(v, rest)
  {
    if ps == [] {
      assert Concat(ps) + rest == rest;
      assert ps + BatchParse(v, rest) == BatchParse(v, rest);
    } else {
      var p, qs := ps[0], ps[1..];
      SplitBack(v, qs, rest);
      SplitFirst(v, p, Concat(qs) + rest);
      assert Concat(ps) + rest == p + (Concat(qs) + rest) by {
        assert Concat(ps) == p + Concat(qs);
        Assoc(p, Concat(qs), rest);
      }
      assert ps + BatchParse(v, rest) == [p] + (qs + BatchParse(v, rest)) by {
        assert ps == [p] + qs;
        Assoc([p], qs, BatchParse(v, rest));
      }
    }
  }

  lemma SplitAll(v: Version, ps: seq<seq<u32>>)
    requires ArePackets(v, ps)
    ensures BatchParse(v, Concat(ps)) == ps
  {
    SplitBack(v, ps, []);
    assert Concat(ps) + [] == Concat(ps);
    assert ps + [] == ps;
  }

  /** So a stream of packets has one reading only. */
  lemma UniqueSplit(v: Version, ps: seq<seq<u32>>, qs: seq<seq<u32>>)
    requires ArePackets(v, ps) && ArePackets(v, qs) && Concat(ps) == Concat(qs)
    ensures ps == qs
  {
    SplitAll(v, ps);
    SplitAll(v, qs);
  }

  /** Cutting a stream at the length it shows yields a packet. */
  lemma CutAtLength(v: Version, s: seq<u32>)
    requires 0 < PacketLen(v, Window(s)) <= |s|
    ensures IsPacket(v, s[..PacketLen(v, Window(s))])
  {
    hide HeaderLen;
    var p := s[..PacketLen(v, Window(s))];
    assert Window(p) <= Window(s);
    LenStable(v, Window(p), Window(s));
  }

  /** Conversely everything BatchParse returns is a packet, and what it returns is a prefix of the stream. */
  lemma {:induction false} BatchParseSound(v: Version, s: seq<u32>)
    ensures ArePackets(v, BatchParse(v, s))
    ensures Concat(BatchParse(v, s)) <= s
    decreases |s|
  {
    hide PacketLen, IsPacket;
    var len := PacketLen(v, Window(s));
    if len != 0 && len <= |s| {
      BatchParseSound(v, s[len..]);
      var p := s[..len];
      var tail := BatchParse(v, s[len..]);
      assert BatchParse(v, s) == [p] + tail;
      assert ([p] + tail)[1..] == tail;
      assert Concat([p] + tail) == p + Concat(tail);
      assert s == p + s[len..];
      CutAtLength(v, s);
    }
  }
}
