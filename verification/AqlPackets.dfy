/** AQL packet layout (src/aql.h, src/aql.cpp) and the decoding of one ring slot
    (RingParser::DecodeSlot in src/parser.cpp). */
module AqlPackets {
  import opened Model
  import opened Ring

  const PACKET_SIZE: nat := 64

  const VENDOR_SPECIFIC: u8 := 0
  const INVALID: u8 := 1
  const KERNEL_DISPATCH: u8 := 2
  const BARRIER_AND: u8 := 3
  const AGENT_DISPATCH: u8 := 4
  const BARRIER_OR: u8 := 5

  function PacketTypeName(t: u8): string {
    if t == VENDOR_SPECIFIC then "vendor_specific"
    else if t == INVALID then "invalid"
    else if t == KERNEL_DISPATCH then "kernel_dispatch"
    else if t == BARRIER_AND then "barrier_and"
    else if t == AGENT_DISPATCH then "agent_dispatch"
    else if t == BARRIER_OR then "barrier_or"
    else "unknown"
  }

  /** Little-endian fields. */
  function U16At(raw: Raw, off: nat): u16
    requires off + 2 <= 64
  {
    raw[off] as int + 256 * (raw[off + 1] as int)
  }

  function U32At(raw: Raw, off: nat): u32
    requires off + 4 <= 64
  {
    U16At(raw, off) as int + 0x1_0000 * (U16At(raw, off + 2) as int)
  }

  function U64At(raw: Raw, off: nat): u64
    requires off + 8 <= 64
  {
    U32At(raw, off) as int + 0x1_0000_0000 * (U32At(raw, off + 4) as int)
  }

  function HeaderType(raw: Raw): u8 {
    raw[0]
  }

  function HeaderBarrier(raw: Raw): bool {
    raw[1] % 2 == 1
  }

  /** The KernelDispatchPacket fields that are copied into a record. */
  function Body(raw: Raw): Dispatch {
    Dispatch(U64At(raw, 32),
             (U32At(raw, 12), U32At(raw, 16), U32At(raw, 20)),
             (U16At(raw, 4), U16At(raw, 6), U16At(raw, 8)),
             U32At(raw, 24), U32At(raw, 28), U64At(raw, 56), U64At(raw, 40))
  }

  /** What decoding a slot yields, before it is stamped with its queue, id and time. */
  datatype Packet = Packet(ptype: u8, barrier: bool, dispatch: Dispatch, kernelName: Bytes)

  /** A published packet, as its header announces it. */
  function Published(raw: Raw, resolve: u64 -> Bytes): Packet {
    var t := HeaderType(raw);
    if t == KERNEL_DISPATCH
    then Packet(t, HeaderBarrier(raw), Body(raw), resolve(Body(raw).kernelObject))
    else Packet(t, HeaderBarrier(raw), NO_DISPATCH, Ascii(PacketTypeName(t)))
  }

  /** The packet synthesised when the header of a consumed slot was already reset. */
  function Synthesised(raw: Raw, resolve: u64 -> Bytes): Packet {
    Packet(KERNEL_DISPATCH, false, Body(raw), resolve(Body(raw).kernelObject))
  }

  function DecodeRaw(consumed: bool, raw: Raw, resolve: u64 -> Bytes): Option<Packet> {
    if HeaderType(raw) != INVALID then Some(Published(raw, resolve))
    else if consumed && Body(raw).kernelObject != 0 then Some(Synthesised(raw, resolve))
    else None
  }

  /** What a poll can read: the ring by byte offset (a read may fail) and the kernel names known at that
      moment. Every slot is read at most once per poll (SlotsDistinct), so `read` describes memory
      that changes during the poll just as well. */
  datatype AqlMemory = AqlMemory(read: nat -> Option<Raw>, resolve: u64 -> Bytes)

  function SlotOffset(info: QueueInfo, id: u64): nat
    requires info.NumSlots() > 0
  {
    id % info.NumSlots() * PACKET_SIZE
  }

  function DecodeSlot(info: QueueInfo, m: AqlMemory, rptr: u64, id: u64): Option<Packet> {
    if info.NumSlots() == 0 then None
    else
      match m.read(SlotOffset(info, id))
      case None => None
      case Some(raw) => DecodeRaw(id < rptr, raw, m.resolve)
  }

  /** One poll's view of its queue: the two pointers and what each id's slot decodes to. */
  datatype AqlView = AqlView(wptr: u64, rptr: u64, slot: u64 -> Option<Packet>)

  function ViewOf(info: QueueInfo, wptr: u64, rptr: u64, m: AqlMemory): AqlView {
    AqlView(wptr, rptr, (id: u64) => DecodeSlot(info, m, rptr, id))
  }

  /** Inside a window of `slots` ids no two ids share a slot, and every slot read lies in the ring. */
  lemma SlotsDistinct(info: QueueInfo, a: u64, b: u64)
    requires info.NumSlots() > 0 && a < b < a + info.NumSlots()
    ensures SlotOffset(info, a) != SlotOffset(info, b)
    ensures SlotOffset(info, a) + PACKET_SIZE <= info.ringSize
  {
    WindowMod(a, b, info.NumSlots());
  }

  /** The slots tile the ring: each aligned 64-byte piece of it is the slot of exactly one id of a lap, its own number,
      and every later lap comes back to it. */
  lemma SlotsTile(info: QueueInfo, off: nat, lap: nat)
    requires off % 64 == 0 && off + 64 <= info.ringSize && off / 64 + lap * (info.ringSize / 64) < U64
    ensures info.NumSlots() > 0 && SlotOffset(info, off / 64 + lap * (info.ringSize / 64)) == off
    ensures forall id: u64 :: id < info.ringSize / 64 && SlotOffset(info, id) == off ==> id == off / 64
  {
    Piece(off, 64, info.ringSize);
    LapsBack(off / 64, lap, info.ringSize / 64);
    forall id: u64 | id < info.ringSize / 64 && SlotOffset(info, id) == off
      ensures id == off / 64
    {
      LapsBack(id, 0, info.ringSize / 64);
    }
  }

  /** A poll decodes an id from its own 64 bytes of the ring, and from nothing when the ring holds no whole slot. */
  lemma SlotRead64(info: QueueInfo, m: AqlMemory, rptr: u64, off: nat, lap: nat)
    requires off % 64 == 0 && off + 64 <= info.ringSize && off / 64 + lap * (info.ringSize / 64) < U64
    ensures var id: u64 := off / 64 + lap * (info.ringSize / 64);
            DecodeSlot(info, m, rptr, id) ==
            if m.read(off).Some? then DecodeRaw(id < rptr, m.read(off).value, m.resolve) else None
  {
    hide DecodeRaw;
    SlotsTile(info, off, lap);
  }

  // ---- The layout of a kernel-dispatch packet, as a producer fills it in ----

  function Put16(raw: Raw, off: nat, x: u16): Raw
    requires off + 2 <= 64
  {
    raw[off := x % 256][off + 1 := x / 256]
  }

  function Put32(raw: Raw, off: nat, x: u32): Raw
    requires off + 4 <= 64
  {
    Put16(Put16(raw, off, x % 0x1_0000), off + 2, x / 0x1_0000)
  }

  function Put64(raw: Raw, off: nat, x: u64): Raw
    requires off + 8 <= 64
  {
    Put32(Put32(raw, off, x % 0x1_0000_0000), off + 4, x / 0x1_0000_0000)
  }

  /** The fields below the kernel handle, and the handle and everything above it. */
  function PutSizes(raw: Raw, d: Dispatch): Raw {
    Put32(Put32(Put32(Put16(Put16(Put16(raw, 4, d.wg.0), 6, d.wg.1), 8, d.wg.2), 12, d.grid.0), 16, d.grid.1), 20, d.grid.2)
  }

  function PutRest(raw: Raw, d: Dispatch): Raw {
    Put64(Put64(Put64(Put32(Put32(raw, 24, d.privateSeg), 28, d.groupSeg), 32, d.kernelObject), 40, d.kernargAddress),
          56, d.completionSignal)
  }

  ghost predicate Agree(a: Raw, b: Raw, n: nat)
    requires n <= 64
  {
    forall i :: 0 <= i < n ==> a[i] == b[i]
  }

  lemma Put16Is(raw: Raw, off: nat, x: u16)
    requires off + 2 <= 64
    ensures U16At(Put16(raw, off, x), off) == x && Agree(Put16(raw, off, x), raw, off)
  {
  }

  lemma Put32Is(raw: Raw, off: nat, x: u32)
    requires off + 4 <= 64
    ensures U32At(Put32(raw, off, x), off) == x && Agree(Put32(raw, off, x), raw, off)
  {
    hide Put16;
    var half := Put16(raw, off, x % 0x1_0000);
    Put16Is(raw, off, x % 0x1_0000);
    Put16Is(half, off + 2, x / 0x1_0000);
  }

  lemma Put64Is(raw: Raw, off: nat, x: u64)
    requires off + 8 <= 64
    ensures U64At(Put64(raw, off, x), off) == x && Agree(Put64(raw, off, x), raw, off)
  {
    hide Put32;
    var half := Put32(raw, off, x % 0x1_0000_0000);
    Put32Is(raw, off, x % 0x1_0000_0000);
    Put32Is(half, off + 4, x / 0x1_0000_0000);
  }

  lemma AgreeReads(a: Raw, b: Raw, n: nat, at: nat)
    requires n <= 64 && Agree(a, b, n)
    ensures at + 2 <= n ==> U16At(a, at) == U16At(b, at)
    ensures at + 4 <= n ==> U32At(a, at) == U32At(b, at)
    ensures at + 8 <= n ==> U64At(a, at) == U64At(b, at)
  {
  }

  lemma AgreeStep(a: Raw, b: Raw, c: Raw, n: nat, m: nat)
    requires m <= n <= 64 && Agree(a, b, n) && Agree(b, c, m)
    ensures Agree(a, c, m)
  {
  }

  lemma SizesRead(raw: Raw, d: Dispatch)
    ensures var r := PutSizes(raw, d);
            && (U16At(r, 4), U16At(r, 6), U16At(r, 8)) == d.wg
            && (U32At(r, 12), U32At(r, 16), U32At(r, 20)) == d.grid
            && Agree(r, raw, 4)
  {
    hide Put16, Put32, U16At, U32At, U64At, Agree;
    var a := Put16(raw, 4, d.wg.0);
    var b := Put16(a, 6, d.wg.1);
    var c := Put16(b, 8, d.wg.2);
    var e := Put32(c, 12, d.grid.0);
    var f := Put32(e, 16, d.grid.1);
    var r := Put32(f, 20, d.grid.2);
    Put16Is(raw, 4, d.wg.0);
    Put16Is(a, 6, d.wg.1);
    Put16Is(b, 8, d.wg.2);
    Put32Is(c, 12, d.grid.0);
    Put32Is(e, 16, d.grid.1);
    Put32Is(f, 20, d.grid.2);
    AgreeReads(r, f, 20, 16);
    AgreeStep(r, f, e, 20, 16);
    AgreeReads(r, e, 16, 12);
    AgreeStep(r, e, c, 16, 12);
    AgreeReads(r, c, 12, 8);
    AgreeStep(r, c, b, 12, 8);
    AgreeReads(r, b, 8, 6);
    AgreeStep(r, b, a, 8, 6);
    AgreeReads(r, a, 6, 4);
    AgreeStep(r, a, raw, 6, 4);
  }

  lemma RestReads(raw: Raw, d: Dispatch)
    ensures var r := PutRest(raw, d);
            && U32At(r, 24) == d.privateSeg && U32At(r, 28) == d.groupSeg && U64At(r, 32) == d.kernelObject
            && U64At(r, 40) == d.kernargAddress && U64At(r, 56) == d.completionSignal
            && Agree(r, raw, 24)
  {
    hide Put64, Put32, U16At, U32At, U64At, Agree;
    var a := Put32(raw, 24, d.privateSeg);
    var b := Put32(a, 28, d.groupSeg);
    var c := Put64(b, 32, d.kernelObject);
    var e := Put64(c, 40, d.kernargAddress);
    var r := Put64(e, 56, d.completionSignal);
    Put32Is(raw, 24, d.privateSeg);
    Put32Is(a, 28, d.groupSeg);
    Put64Is(b, 32, d.kernelObject);
    Put64Is(c, 40, d.kernargAddress);
    Put64Is(e, 56, d.completionSignal);
    AgreeReads(r, e, 56, 40);
    AgreeStep(r, e, c, 56, 40);
    AgreeReads(r, c, 40, 32);
    AgreeStep(r, c, b, 40, 32);
    AgreeReads(r, b, 32, 28);
    AgreeStep(r, b, a, 32, 28);
    AgreeReads(r, a, 28, 24);
    AgreeStep(r, a, raw, 28, 24);
  }

  /** The decoder inverts the layout: whatever was in the slot, a packet filled in with a dispatch decodes to that
      dispatch, and so it does after its header has been reset. */
  lemma DispatchReadsBack(raw: Raw, d: Dispatch, resolve: u64 -> Bytes, consumed: bool)
    requires HeaderType(raw) == KERNEL_DISPATCH || (HeaderType(raw) == INVALID && consumed && d.kernelObject != 0)
    ensures var p := DecodeRaw(consumed, PutRest(PutSizes(raw, d), d), resolve);
            p.Some? && p.value.ptype == KERNEL_DISPATCH && p.value.dispatch == d && p.value.kernelName == resolve(d.kernelObject)
  {
    var low, full := PutSizes(raw, d), PutRest(PutSizes(raw, d), d);
    SizesRead(raw, d);
    RestReads(low, d);
    assert full[0] == low[0] == raw[0];
    hide PutSizes, PutRest, U16At, U32At, U64At;
    AgreeReads(full, low, 24, 4);
    AgreeReads(full, low, 24, 6);
    AgreeReads(full, low, 24, 8);
    AgreeReads(full, low, 24, 12);
    AgreeReads(full, low, 24, 16);
    AgreeReads(full, low, 24, 20);
  }

  /** The header is a 16-bit word: its low eight bits are the type, and bit 8 is the barrier flag. */
  lemma HeaderReads(raw: Raw, word: u16)
    requires raw[..2] == Put16(raw, 0, word)[..2]
    ensures HeaderType(raw) == word % 0x100
    ensures HeaderBarrier(raw) <==> word / 0x100 % 2 == 1
  {
    assert raw[0] == raw[..2][0] == word % 0x100 && raw[1] == raw[..2][1] == word / 0x100;
  }

  lemma BodyIgnoresHeader(a: Raw, b: Raw)
    requires a[2..] == b[2..]
    ensures Body(a) == Body(b)
  {
    assert forall i :: 2 <= i < 64 ==> a[i] == a[2..][i - 2] && b[i] == b[2..][i - 2];
  }
}
