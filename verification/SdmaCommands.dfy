/** The SDMA commands a producer can put into a ring, field by field, and the dwords each of them becomes: what the length
    table and the names of src/sdma.h and src/sdma.cpp have to recognise. */
module SdmaCommands {
  import opened Model
  import opened SdmaPackets

  type Words2 = (u32, u32)
  type Words3 = (u32, u32, u32)
  type Words4 = (u32, u32, u32, u32)
  type Words5 = (u32, u32, u32, u32, u32)
  type Words6 = (u32, u32, u32, u32, u32, u32)

  /** What is left to a command of its header beside the opcode: the upper half, and the sub-opcode where any will do.
      Addresses are 64 bits wide. */
  datatype Command =
    | Nop(sub: u8, flags: u16, skip: seq<u32>)
    | WriteData(flags: u16, dst: u64, count: u32, data: seq<u32>)
    | Indirect(sub: u8, flags: u16, base: u64, size: u32, csa: u64)
    | Fence(sub: u8, flags: u16, addr: u64, word: u32)
    | Trap(sub: u8, flags: u16, context: u32)
    | Semaphore(sub: u8, flags: u16, addr: u64)
    | PollRegMem(flags: u16, addr: u64, value: u32, mask: u32, interval: u32)
    | PollRegWrite(flags: u16, reg: u32, dst: u64)
    | PollDirtyBits(flags: u16, addr: u64, startPage: u32, pages: u32)
    | PollVerify(flags: u16, pattern: u32, start0: u64, end0: u64, start1: u64, end1: u64, record: u64, reserved: u32)
    | VmInvalidation(flags: u16, engines: u32, range: Words2)
    | CondExe(sub: u8, flags: u16, addr: u64, reference: u32, dwords: u32)
    | Atomic(sub: u8, flags: u16, addr: u64, operand: u64, compare: u64, interval: u32)
    | ConstFill(flags: u16, dst: u64, word: u32, count: u32)
    | FillMulti(flags: u16, stride: u32, transfers: u32, dst: u64, count: u32)
    | PtePdeCopy(flags: u16, src: u64, dst: u64, bits: u64, count: u32)
    | PtePdeModify(flags: u16, addr: u64, bits: u64, pte: u64, count: u32)
    | PtePdeCopyBackwards(flags: u16, src: u64, dst: u64, bit: u32, count: u32)
    | Timestamp(sub: u8, flags: u16, addr: u64)
    | SrbmWrite(sub: u8, flags: u16, reg: u32, word: u32)
    | PreExe(sub: u8, flags: u16, dwords: u32)
    | GpuvmInvalidate(sub: u8, flags: u16, payload: Words3)
    | GcrRequest(sub: u8, flags: u16, request: Words4)
    | DummyTrap(sub: u8, flags: u16, context: u32)
    | Copy(copy: CopyCommand)

  datatype CopyCommand =
    | Linear(flags: u16, count: u32, params: u32, src: u64, dst: u64, meta: u32)
    | LinearBc(flags: u16, count: u32, params: u32, src: u64, dst: u64, meta: u32)
    | LinearBroadcast(flags: u16, count: u32, params: u32, src: u64, dst: u64, dst2: u64)
    | DirtyPage(flags: u16, count: u32, params: u32, src: u64, dst: u64)
    | LinearPhysical(flags: u16, count: u32, params: u32, src: u64, dst: u64)
    | Struct(flags: u16, addr: u64, start: u32, count: u32, stride: u32, linear: u64)
    | SubWindow(bc: bool, flags: u16, src: u64, from: Words3, dst: u64, to: Words3, rect: Words2)
    | SubWindowLarge(flags: u16, src: u64, source: Words6, dst: u64, target: Words6, box: Words3)
    | Tiled(bc: bool, flags: u16, tiled: u64, surface: Words5, linear: u64, pitch: u32, slice: u32, count: u32)
    | TiledBroadcast(flags: u16, tiled: u64, tiled2: u64, surfaces: Words6, linear: u64, pitch: u32, slice: u32, count: u32)
    | TiledSubWindow(bc: bool, flags: u16, tiled: u64, at: Words4, linear: u64, to: Words3, rect: Words2, dcc: Words3)
    | TiledToTiled(bc: bool, flags: u16, src: u64, at: Words4, dst: u64, onto: Words4, rect: Words2, dcc: Words3)

  // ---- As dwords ----

  function Header(op: u8, sub: u8, flags: u16): u32 {
    op as int + 0x100 * (sub as int) + 0x1_0000 * (flags as int)
  }

  function Lo(a: u64): u32 {
    a % 0x1_0000_0000
  }

  function Hi(a: u64): u32 {
    a / 0x1_0000_0000
  }

  /** The sub-opcode of a copy. */
  function CopySub(c: CopyCommand): u8 {
    match c
    case Linear(_, _, _, _, _, _) => 0
    case LinearBroadcast(_, _, _, _, _, _) => 0
    case Tiled(bc, _, _, _, _, _, _, _) => if bc then 17 else 1
    case TiledBroadcast(_, _, _, _, _, _, _, _) => 1
    case Struct(_, _, _, _, _, _) => 3
    case SubWindow(bc, _, _, _, _, _, _) => if bc then 20 else 4
    case TiledSubWindow(bc, _, _, _, _, _, _, _) => if bc then 21 else 5
    case TiledToTiled(bc, _, _, _, _, _, _, _) => if bc then 22 else 6
    case DirtyPage(_, _, _, _, _) => 7
    case LinearPhysical(_, _, _, _, _) => 8
    case LinearBc(_, _, _, _, _, _) => 16
    case SubWindowLarge(_, _, _, _, _, _) => 36
  }

  /** Opcode and sub-opcode of a command. */
  function OpOf(v: Version, c: Command): u8 {
    match c
    case Nop(_, _, _) => 0
    case Copy(_) => 1
    case WriteData(_, _, _, _) => 2
    case Indirect(_, _, _, _, _) => 4
    case Fence(_, _, _, _) => 5
    case Trap(_, _, _) => 6
    case Semaphore(_, _, _) => 7
    case PollRegMem(_, _, _, _, _) => 8
    case PollRegWrite(_, _, _) => 8
    case PollDirtyBits(_, _, _, _) => 8
    case PollVerify(_, _, _, _, _, _, _, _) => 8
    case VmInvalidation(_, _, _) => 8
    case CondExe(_, _, _, _, _) => 9
    case Atomic(_, _, _, _, _, _) => 10
    case ConstFill(_, _, _, _) => 11
    case FillMulti(_, _, _, _, _) => 11
    case PtePdeCopy(_, _, _, _, _) => 12
    case PtePdeModify(_, _, _, _, _) => 12
    case PtePdeCopyBackwards(_, _, _, _, _) => 12
    case Timestamp(_, _, _) => 13
    case SrbmWrite(_, _, _, _) => 14
    case PreExe(_, _, _) => 15
    case GpuvmInvalidate(_, _, _) => 16
    case GcrRequest(_, _, _) => 17
    case DummyTrap(_, _, _) => if v == V4 then 16 else 32
  }

  function SubOf(c: Command): u8 {
    match c
    case Copy(copy) => CopySub(copy)
    case WriteData(_, _, _, _) => 0
    case PollRegMem(_, _, _, _, _) => 0
    case PollRegWrite(_, _, _) => 1
    case PollDirtyBits(_, _, _, _) => 2
    case PollVerify(_, _, _, _, _, _, _, _) => 3
    case VmInvalidation(_, _, _) => 4
    case ConstFill(_, _, _, _) => 0
    case FillMulti(_, _, _, _, _) => 1
    case PtePdeCopy(_, _, _, _, _) => 1
    case PtePdeModify(_, _, _, _, _) => 2
    case PtePdeCopyBackwards(_, _, _, _, _) => 3
    case _ => c.sub
  }

  function FlagsOf(c: Command): u16 {
    if c.Copy? then c.copy.flags else c.flags
  }

  /** What follows the header of a copy. */
  function CopyBody(v: Version, c: CopyCommand): seq<u32> {
    match c
    case Linear(_, count, params, src, dst, meta) =>
      [count, params, Lo(src), Hi(src), Lo(dst), Hi(dst)] + if v == V7 then [meta] else []
    case LinearBc(_, count, params, src, dst, meta) =>
      [count, params, Lo(src), Hi(src), Lo(dst), Hi(dst)] + if v == V7 then [meta] else []
    case LinearBroadcast(_, count, params, src, dst, dst2) =>
      [count, params, Lo(src), Hi(src), Lo(dst), Hi(dst), Lo(dst2), Hi(dst2)]
    case DirtyPage(_, count, params, src, dst) => [count, params, Lo(src), Hi(src), Lo(dst), Hi(dst)]
    case LinearPhysical(_, count, params, src, dst) => [count, params, Lo(src), Hi(src), Lo(dst), Hi(dst)]
    case Struct(_, addr, start, count, stride, linear) =>
      [Lo(addr), Hi(addr), start, count, stride, Lo(linear), Hi(linear)]
    case SubWindow(_, _, src, from, dst, to, rect) =>
      [Lo(src), Hi(src), from.0, from.1, from.2, Lo(dst), Hi(dst), to.0, to.1, to.2, rect.0, rect.1]
    case SubWindowLarge(_, src, source, dst, target, box) =>
      [Lo(src), Hi(src), source.0, source.1, source.2, source.3, source.4, source.5, Lo(dst), Hi(dst), target.0,
       target.1, target.2, target.3, target.4, target.5, box.0, box.1, box.2]
    case Tiled(_, _, tiled, surface, linear, pitch, slice, count) =>
      [Lo(tiled), Hi(tiled), surface.0, surface.1, surface.2, surface.3, surface.4, Lo(linear), Hi(linear), pitch,
       slice, count]
    case TiledBroadcast(_, tiled, tiled2, surfaces, linear, pitch, slice, count) =>
      [Lo(tiled), Hi(tiled), Lo(tiled2), Hi(tiled2), surfaces.0, surfaces.1, surfaces.2, surfaces.3, surfaces.4,
       surfaces.5, Lo(linear), Hi(linear), pitch, slice, count]
    case TiledSubWindow(bc, _, tiled, at, linear, to, rect, dcc) =>
      [Lo(tiled), Hi(tiled), at.0, at.1, at.2, at.3, Lo(linear), Hi(linear), to.0, to.1, to.2, rect.0,
       rect.1] + if bc || v == V4 then [] else [dcc.0, dcc.1, dcc.2]
    case TiledToTiled(bc, _, src, at, dst, onto, rect, dcc) =>
      [Lo(src), Hi(src), at.0, at.1, at.2, at.3, Lo(dst), Hi(dst), onto.0, onto.1, onto.2, onto.3, rect.0,
       rect.1] + if bc || v == V4 then [] else [dcc.0, dcc.1, dcc.2]
  }

  /** What follows the header. */
  function CommandBody(v: Version, c: Command): seq<u32> {
    match c
    case Nop(_, _, skip) => skip
    case WriteData(_, dst, count, data) => [Lo(dst), Hi(dst), count] + data
    case Indirect(_, _, base, size, csa) => [Lo(base), Hi(base), size, Lo(csa), Hi(csa)]
    case Fence(_, _, addr, word) => [Lo(addr), Hi(addr), word]
    case Trap(_, _, context) => [context]
    case Semaphore(_, _, addr) => [Lo(addr), Hi(addr)]
    case PollRegMem(_, addr, value, mask, interval) => [Lo(addr), Hi(addr), value, mask, interval]
    case PollRegWrite(_, reg, dst) => [reg, Lo(dst), Hi(dst)]
    case PollDirtyBits(_, addr, startPage, pages) => [Lo(addr), Hi(addr), startPage, pages]
    case PollVerify(_, pattern, start0, end0, start1, end1, record, reserved) =>
      [pattern, Lo(start0), Hi(start0), Lo(end0), Hi(end0), Lo(start1), Hi(start1), Lo(end1), Hi(end1), Lo(record),
       Hi(record), reserved]
    case VmInvalidation(_, engines, range) => [engines, range.0, range.1]
    case CondExe(_, _, addr, reference, dwords) => [Lo(addr), Hi(addr), reference, dwords]
    case Atomic(_, _, addr, operand, compare, interval) =>
      [Lo(addr), Hi(addr), Lo(operand), Hi(operand), Lo(compare), Hi(compare), interval]
    case ConstFill(_, dst, word, count) => [Lo(dst), Hi(dst), word, count]
    case FillMulti(_, stride, transfers, dst, count) => [stride, transfers, Lo(dst), Hi(dst), count]
    case PtePdeCopy(_, src, dst, bits, count) => [Lo(src), Hi(src), Lo(dst), Hi(dst), Lo(bits), Hi(bits), count]
    case PtePdeModify(_, addr, bits, pte, count) =>
      [Lo(addr), Hi(addr), Lo(bits), Hi(bits), Lo(pte), Hi(pte)] + if v == V4 then [] else [count]
    case PtePdeCopyBackwards(_, src, dst, bit, count) => [Lo(src), Hi(src), Lo(dst), Hi(dst), bit, count]
    case Timestamp(_, _, addr) => [Lo(addr), Hi(addr)]
    case SrbmWrite(_, _, reg, word) => [reg, word]
    case PreExe(_, _, dwords) => [dwords]
    case GpuvmInvalidate(_, _, payload) => [payload.0, payload.1, payload.2]
    case GcrRequest(_, _, request) => [request.0, request.1, request.2, request.3]
    case DummyTrap(_, _, context) => [context]
    case Copy(copy) => CopyBody(v, copy)
  }

  function Encode(v: Version, c: Command): seq<u32> {
    [Header(OpOf(v, c), SubOf(c), FlagsOf(c))] + CommandBody(v, c)
  }

  /** Bit 27 of the header. */
  predicate BroadcastBit(flags: u16) {
    flags / 0x800 % 2 == 1
  }

  /** Which copies exist in which generation; the broadcast forms share their sub-opcode with the plain ones. */
  predicate CopyExists(v: Version, c: CopyCommand) {
    match c
    case Linear(flags, _, _, _, _, _) => !BroadcastBit(flags)
    case LinearBroadcast(flags, _, _, _, _, _) => BroadcastBit(flags)
    case Tiled(bc, flags, _, _, _, _, _, _) => if bc then v != V4 else !BroadcastBit(flags)
    case TiledBroadcast(flags, _, _, _, _, _, _, _) => BroadcastBit(flags)
    case LinearBc(_, _, _, _, _, _) => v != V4
    case SubWindowLarge(_, _, _, _, _, _) => v != V4
    case SubWindow(bc, _, _, _, _, _, _) => bc ==> v != V4
    case TiledSubWindow(bc, _, _, _, _, _, _, _) => bc ==> v != V4
    case TiledToTiled(bc, _, _, _, _, _, _, _) => bc ==> v != V4
    case _ => true
  }

  /** A command of a generation, with as many payload dwords as its count field announces. */
  predicate Exists(v: Version, c: Command) {
    && (v == V4 || v == V6 || v == V7)
    && match c
       case Nop(_, flags, skip) => |skip| == flags % 0x4000
       case WriteData(_, _, count, data) => |data| == count % 0x10_0000 + 1
       case VmInvalidation(_, _, _) => v != V4
       case Timestamp(sub, _, _) => sub <= 2
       case GpuvmInvalidate(_, _, _) => v != V4
       case GcrRequest(_, _, _) => v != V4
       case Copy(copy) => CopyExists(v, copy)
       case _ => true
  }

  // ---- Every command is a packet ----

  lemma HeaderReads(op: u8, sub: u8, flags: u16)
    ensures var h := Header(op, sub, flags);
            && HeaderOp(h) == op && HeaderSubOp(h) == sub && NopCount(h) == flags % 0x4000
            && (HeaderBroadcast(h) <==> (sub == 0 || sub == 1) && BroadcastBit(flags))
  {
    var h := Header(op, sub, flags);
    assert h / 0x100 == sub as int + 0x100 * (flags as int);
    assert h / 0x1_0000 == flags as int;
    assert h / 0x800_0000 == flags / 0x800;
  }

  lemma LengthCounts(v: Version, p: seq<u32>, n: nat)
    requires 0 < |p| == n && Supported(v) && HeaderOp(p[0]) != OP_WRITE && HeaderLen(v, p[0]) == n
    ensures IsPacket(v, p)
  {
    hide HeaderLen, HeaderOp;
  }

  lemma CopyLen(v: Version, c: CopyCommand, h: u32)
    requires Exists(v, Copy(c)) && HeaderOp(h) == 1 && HeaderSubOp(h) == CopySub(c)
    requires HeaderBroadcast(h) <==> (CopySub(c) == 0 || CopySub(c) == 1) && BroadcastBit(c.flags)
    ensures HeaderLen(v, h) == 1 + |CopyBody(v, c)|
  {
    hide HeaderOp, HeaderSubOp, HeaderBroadcast, NopCount, BroadcastBit;
  }

  lemma OtherLen(v: Version, c: Command, h: u32)
    requires Exists(v, c) && !c.Copy? && !c.WriteData?
    requires HeaderOp(h) == OpOf(v, c) && HeaderSubOp(h) == SubOf(c) && NopCount(h) == FlagsOf(c) % 0x4000
    ensures HeaderLen(v, h) == 1 + |CommandBody(v, c)|
  {
    hide HeaderOp, HeaderSubOp, NopCount, CopyBody, CopyLenV4, CopyLenV6, CopyLenV7, CopyExists, CopySub;
  }

  lemma WriteIsPacket(v: Version, c: Command)
    requires Exists(v, c) && c.WriteData?
    ensures IsPacket(v, Encode(v, c))
  {
    hide Header, HeaderOp, HeaderSubOp;
    HeaderReads(2, 0, c.flags);
    var p := Encode(v, c);
    assert Window(p)[0] == p[0] && Window(p)[3] == c.count;
  }

  lemma NotWrite(v: Version, c: Command)
    ensures OpOf(v, c) == OP_WRITE <==> c.WriteData?
    ensures OpOf(v, c) == OP_COPY <==> c.Copy?
    ensures c.Copy? ==> OpOf(v, c) == 1 && SubOf(c) == CopySub(c.copy) && CommandBody(v, c) == CopyBody(v, c.copy)
  {
  }

  /** Every command of every generation, whatever its fields hold, is one packet of exactly its own dwords. */
  lemma EncodedIsPacket(v: Version, c: Command)
    requires Exists(v, c)
    ensures IsPacket(v, Encode(v, c))
  {
    hide IsPacket, Header, HeaderOp, HeaderSubOp, HeaderBroadcast, NopCount, CommandBody, CopyBody, CopyExists, HeaderLen, OpOf, SubOf, CopySub;
    NotWrite(v, c);
    if c.WriteData? {
      WriteIsPacket(v, c);
    } else {
      var h := Header(OpOf(v, c), SubOf(c), FlagsOf(c));
      HeaderReads(OpOf(v, c), SubOf(c), FlagsOf(c));
      if c.Copy? {
        CopyLen(v, c.copy, h);
      } else {
        OtherLen(v, c, h);
      }
      LengthCounts(v, Encode(v, c), 1 + |CommandBody(v, c)|);
    }
  }

  // ---- Every packet is a command ----

  function At(b: seq<u32>, i: nat): u32 {
    if i < |b| then b[i] else 0
  }

  function AddrAt(b: seq<u32>, i: nat): u64 {
    At(b, i) as int + 0x1_0000_0000 * (At(b, i + 1) as int)
  }

  function TwoAt(b: seq<u32>, i: nat): Words2 {
    (At(b, i), At(b, i + 1))
  }

  function ThreeAt(b: seq<u32>, i: nat): Words3 {
    (At(b, i), At(b, i + 1), At(b, i + 2))
  }

  function FourAt(b: seq<u32>, i: nat): Words4 {
    (At(b, i), At(b, i + 1), At(b, i + 2), At(b, i + 3))
  }

  function FiveAt(b: seq<u32>, i: nat): Words5 {
    (At(b, i), At(b, i + 1), At(b, i + 2), At(b, i + 3), At(b, i + 4))
  }

  function SixAt(b: seq<u32>, i: nat): Words6 {
    (At(b, i), At(b, i + 1), At(b, i + 2), At(b, i + 3), At(b, i + 4), At(b, i + 5))
  }

  /** The copy with this sub-opcode, upper header half and body. */
  function CopyOf(v: Version, sub: u8, flags: u16, b: seq<u32>): CopyCommand {
    if sub == 0 && BroadcastBit(flags) then LinearBroadcast(flags, At(b, 0), At(b, 1), AddrAt(b, 2), AddrAt(b, 4), AddrAt(b, 6))
    else if sub == 0 then Linear(flags, At(b, 0), At(b, 1), AddrAt(b, 2), AddrAt(b, 4), At(b, 6))
    else if sub == 1 && BroadcastBit(flags) then
      TiledBroadcast(flags, AddrAt(b, 0), AddrAt(b, 2), SixAt(b, 4), AddrAt(b, 10), At(b, 12), At(b, 13), At(b, 14))
    else if sub == 1 || sub == 17 then
      Tiled(sub == 17, flags, AddrAt(b, 0), FiveAt(b, 2), AddrAt(b, 7), At(b, 9), At(b, 10), At(b, 11))
    else if sub == 3 then Struct(flags, AddrAt(b, 0), At(b, 2), At(b, 3), At(b, 4), AddrAt(b, 5))
    else if sub == 4 || sub == 20 then
      SubWindow(sub == 20, flags, AddrAt(b, 0), ThreeAt(b, 2), AddrAt(b, 5), ThreeAt(b, 7), TwoAt(b, 10))
    else if sub == 5 || sub == 21 then
      TiledSubWindow(sub == 21, flags, AddrAt(b, 0), FourAt(b, 2), AddrAt(b, 6), ThreeAt(b, 8), TwoAt(b, 11), ThreeAt(b, 13))
    else if sub == 6 || sub == 22 then
      TiledToTiled(sub == 22, flags, AddrAt(b, 0), FourAt(b, 2), AddrAt(b, 6), FourAt(b, 8), TwoAt(b, 12), ThreeAt(b, 14))
    else if sub == 7 then DirtyPage(flags, At(b, 0), At(b, 1), AddrAt(b, 2), AddrAt(b, 4))
    else if sub == 8 then LinearPhysical(flags, At(b, 0), At(b, 1), AddrAt(b, 2), AddrAt(b, 4))
    else if sub == 16 then LinearBc(flags, At(b, 0), At(b, 1), AddrAt(b, 2), AddrAt(b, 4), At(b, 6))
    else SubWindowLarge(flags, AddrAt(b, 0), SixAt(b, 2), AddrAt(b, 8), SixAt(b, 10), ThreeAt(b, 16))
  }

  function PollOf(sub: u8, flags: u16, b: seq<u32>): Command {
    if sub == 0 then PollRegMem(flags, AddrAt(b, 0), At(b, 2), At(b, 3), At(b, 4))
    else if sub == 1 then PollRegWrite(flags, At(b, 0), AddrAt(b, 1))
    else if sub == 2 then PollDirtyBits(flags, AddrAt(b, 0), At(b, 2), At(b, 3))
    else if sub == 3 then
      PollVerify(flags, At(b, 0), AddrAt(b, 1), AddrAt(b, 3), AddrAt(b, 5), AddrAt(b, 7), AddrAt(b, 9), At(b, 11))
    else VmInvalidation(flags, At(b, 0), TwoAt(b, 1))
  }

  function CommandOf(v: Version, op: u8, sub: u8, flags: u16, b: seq<u32>): Command {
    if op == 0 then Nop(sub, flags, b)
    else if op == 1 then Copy(CopyOf(v, sub, flags, b))
    else if op == 2 then WriteData(flags, AddrAt(b, 0), At(b, 2), if |b| >= 3 then b[3..] else [])
    else if op == 4 then Indirect(sub, flags, AddrAt(b, 0), At(b, 2), AddrAt(b, 3))
    else if op == 5 then Fence(sub, flags, AddrAt(b, 0), At(b, 2))
    else if op == 6 then Trap(sub, flags, At(b, 0))
    else if op == 7 then Semaphore(sub, flags, AddrAt(b, 0))
    else if op == 8 then PollOf(sub, flags, b)
    else if op == 9 then CondExe(sub, flags, AddrAt(b, 0), At(b, 2), At(b, 3))
    else if op == 10 then Atomic(sub, flags, AddrAt(b, 0), AddrAt(b, 2), AddrAt(b, 4), At(b, 6))
    else if op == 11 && sub == 0 then ConstFill(flags, AddrAt(b, 0), At(b, 2), At(b, 3))
    else if op == 11 then FillMulti(flags, At(b, 0), At(b, 1), AddrAt(b, 2), At(b, 4))
    else if op == 12 && sub == 1 then PtePdeCopy(flags, AddrAt(b, 0), AddrAt(b, 2), AddrAt(b, 4), At(b, 6))
    else if op == 12 && sub == 2 then PtePdeModify(flags, AddrAt(b, 0), AddrAt(b, 2), AddrAt(b, 4), At(b, 6))
    else if op == 12 then PtePdeCopyBackwards(flags, AddrAt(b, 0), AddrAt(b, 2), At(b, 4), At(b, 5))
    else if op == 13 then Timestamp(sub, flags, AddrAt(b, 0))
    else if op == 14 then SrbmWrite(sub, flags, At(b, 0), At(b, 1))
    else if op == 15 then PreExe(sub, flags, At(b, 0))
    else if op == 16 && v != V4 then GpuvmInvalidate(sub, flags, ThreeAt(b, 0))
    else if op == 17 then GcrRequest(sub, flags, FourAt(b, 0))
    else DummyTrap(sub, flags, At(b, 0))
  }

  lemma AddrBack(b: seq<u32>)
    ensures forall i: nat :: Lo(AddrAt(b, i)) == At(b, i) && Hi(AddrAt(b, i)) == At(b, i + 1)
  {
  }

  /** A body of each length, dword by dword. */
  lemma Spelled(b: seq<u32>)
    ensures |b| >= 3 ==> b == [At(b, 0), At(b, 1), At(b, 2)] + b[3..]
    ensures |b| == 1 ==> b == [At(b, 0)]
    ensures |b| == 2 ==> b == [At(b, 0), At(b, 1)]
    ensures |b| == 3 ==> b == [At(b, 0), At(b, 1), At(b, 2)]
    ensures |b| == 4 ==> b == [At(b, 0), At(b, 1), At(b, 2), At(b, 3)]
    ensures |b| == 5 ==> b == [At(b, 0), At(b, 1), At(b, 2), At(b, 3), At(b, 4)]
    ensures |b| == 6 ==> b == [At(b, 0), At(b, 1), At(b, 2), At(b, 3), At(b, 4), At(b, 5)]
    ensures |b| == 7 ==> b == [At(b, 0), At(b, 1), At(b, 2), At(b, 3), At(b, 4), At(b, 5), At(b, 6)] == [At(b,
                                0), At(b, 1), At(b, 2), At(b, 3), At(b, 4), At(b, 5)] + [At(b, 6)]
  {
  }

  lemma SpelledLong(b: seq<u32>)
    ensures |b| == 8 ==> b == [At(b, 0), At(b, 1), At(b, 2), At(b, 3), At(b, 4), At(b, 5), At(b, 6), At(b, 7)]
    ensures |b| == 12 ==> b == [At(b, 0), At(b, 1), At(b, 2), At(b, 3), At(b, 4), At(b, 5), At(b, 6), At(b, 7),
                                At(b, 8), At(b, 9), At(b, 10), At(b, 11)]
    ensures |b| == 13 ==> b == [At(b, 0), At(b, 1), At(b, 2), At(b, 3), At(b, 4), At(b, 5), At(b, 6), At(b, 7),
                                At(b, 8), At(b, 9), At(b, 10), At(b, 11), At(b, 12)]
    ensures |b| == 14 ==> b == [At(b, 0), At(b, 1), At(b, 2), At(b, 3), At(b, 4), At(b, 5), At(b, 6), At(b, 7),
                                At(b, 8), At(b, 9), At(b, 10), At(b, 11), At(b, 12), At(b, 13)]
    ensures |b| == 15 ==> b == [At(b, 0), At(b, 1), At(b, 2), At(b, 3), At(b, 4), At(b, 5), At(b, 6), At(b, 7),
                                At(b, 8), At(b, 9), At(b, 10), At(b, 11), At(b, 12), At(b, 13), At(b, 14)]
    ensures |b| == 16 ==> b == [At(b, 0), At(b, 1), At(b, 2), At(b, 3), At(b, 4), At(b, 5), At(b, 6), At(b, 7),
                                At(b, 8), At(b, 9), At(b, 10), At(b, 11), At(b, 12)] + [At(b, 13), At(b, 14),
                                At(b, 15)]
    ensures |b| == 17 ==> b == [At(b, 0), At(b, 1), At(b, 2), At(b, 3), At(b, 4), At(b, 5), At(b, 6), At(b, 7),
                                At(b, 8), At(b, 9), At(b, 10), At(b, 11), At(b, 12), At(b, 13)] + [At(b, 14),
                                At(b, 15), At(b, 16)]
    ensures |b| == 19 ==> b == [At(b, 0), At(b, 1), At(b, 2), At(b, 3), At(b, 4), At(b, 5), At(b, 6), At(b, 7),
                                At(b, 8), At(b, 9), At(b, 10), At(b, 11), At(b, 12), At(b, 13), At(b, 14),
                                At(b, 15), At(b, 16), At(b, 17), At(b, 18)]
  {
  }

  /** As many dwords as the fields need are those fields. */
  lemma LinearFields(v: Version, sub: u8, flags: u16, b: seq<u32>)
    requires sub in {0, 3, 7, 8, 16} && |CopyBody(v, CopyOf(v, sub, flags, b))| == |b|
    ensures CopyBody(v, CopyOf(v, sub, flags, b)) == b
  {
    hide AddrAt, At, Lo, Hi, BroadcastBit;
    AddrBack(b);
    Spelled(b);
    SpelledLong(b);
  }

  lemma TiledFields(v: Version, sub: u8, flags: u16, b: seq<u32>)
    requires sub in {1, 5, 6, 17, 21, 22} && |CopyBody(v, CopyOf(v, sub, flags, b))| == |b|
    ensures CopyBody(v, CopyOf(v, sub, flags, b)) == b
  {
    hide AddrAt, At, Lo, Hi, BroadcastBit;
    AddrBack(b);
    SpelledLong(b);
  }

  lemma WindowFields(v: Version, sub: u8, flags: u16, b: seq<u32>)
    requires sub !in {0, 1, 3, 5, 6, 7, 8, 16, 17, 21, 22} && |CopyBody(v, CopyOf(v, sub, flags, b))| == |b|
    ensures CopyBody(v, CopyOf(v, sub, flags, b)) == b
  {
    hide AddrAt, At, Lo, Hi, BroadcastBit;
    AddrBack(b);
    SpelledLong(b);
  }

  lemma PollFields(v: Version, sub: u8, flags: u16, b: seq<u32>)
    requires |CommandBody(v, PollOf(sub, flags, b))| == |b|
    ensures CommandBody(v, PollOf(sub, flags, b)) == b
  {
    hide AddrAt, At, Lo, Hi;
    AddrBack(b);
    Spelled(b);
    SpelledLong(b);
  }

  lemma OtherFields(v: Version, op: u8, sub: u8, flags: u16, b: seq<u32>)
    requires op != 1 && op != 8 && |CommandBody(v, CommandOf(v, op, sub, flags, b))| == |b|
    ensures CommandBody(v, CommandOf(v, op, sub, flags, b)) == b
  {
    hide AddrAt, At, Lo, Hi, CopyOf, CopyBody, PollOf;
    AddrBack(b);
    Spelled(b);
  }

  lemma CopyKind(v: Version, h: u32, sub: u8, flags: u16, b: seq<u32>)
    requires Supported(v) && HeaderOp(h) == 1 && HeaderSubOp(h) == sub
    requires HeaderBroadcast(h) <==> (sub == 0 || sub == 1) && BroadcastBit(flags)
    requires HeaderLen(v, h) > 0
    ensures var c := CopyOf(v, sub, flags, b); CopyExists(v, c) && CopySub(c) == sub && c.flags == flags
  {
    hide HeaderOp, HeaderSubOp, HeaderBroadcast, NopCount, BroadcastBit, AddrAt, At;
  }

  lemma OtherKind(v: Version, h: u32, op: u8, sub: u8, flags: u16, b: seq<u32>)
    requires Supported(v) && HeaderOp(h) == op && HeaderSubOp(h) == sub && NopCount(h) == flags % 0x4000
    requires op != 1 && op != 2 && HeaderLen(v, h) == 1 + |b|
    ensures var c := CommandOf(v, op, sub, flags, b); Exists(v, c) && OpOf(v, c) == op && SubOf(c) == sub && FlagsOf(c) == flags
  {
    hide HeaderOp, HeaderSubOp, NopCount, AddrAt, At, CopyOf, CopyLenV4, CopyLenV6, CopyLenV7;
  }

  lemma CopyFields(v: Version, sub: u8, flags: u16, b: seq<u32>)
    requires |CopyBody(v, CopyOf(v, sub, flags, b))| == |b|
    ensures CopyBody(v, CopyOf(v, sub, flags, b)) == b
  {
    hide CopyBody, CopyOf;
    if sub in {0, 3, 7, 8, 16} {
      LinearFields(v, sub, flags, b);
    } else if sub in {1, 5, 6, 17, 21, 22} {
      TiledFields(v, sub, flags, b);
    } else {
      WindowFields(v, sub, flags, b);
    }
  }

  lemma HeaderBack(h: u32)
    ensures h / 0x1_0000 < 0x1_0000 && h == Header(HeaderOp(h), HeaderSubOp(h), h / 0x1_0000)
  {
  }

  lemma WriteBack(v: Version, p: seq<u32>, flags: u16)
    requires IsPacket(v, p) && HeaderOp(p[0]) == 2
    ensures var c := CommandOf(v, 2, 0, flags, p[1..]);
            Exists(v, c) && HeaderSubOp(p[0]) == 0 && CommandBody(v, c) == p[1..]
  {
    hide AddrAt, Lo, Hi, HeaderOp, HeaderSubOp;
    var b := p[1..];
    assert Window(p)[0] == p[0];
    assert |p| >= 4 && b[2] == p[3] == Window(p)[3];
    AddrBack(b);
    Spelled(b);
  }

  /** The command a packet is. */
  function CommandIn(v: Version, p: seq<u32>): Command
    requires p != []
  {
    CommandOf(v, HeaderOp(p[0]), HeaderSubOp(p[0]), p[0] / 0x1_0000, p[1..])
  }

  lemma CopyPacketBack(v: Version, p: seq<u32>)
    requires IsPacket(v, p) && HeaderOp(p[0]) == 1
    ensures var c := CommandIn(v, p); Exists(v, c) && Encode(v, c) == p
  {
    hide HeaderOp, HeaderSubOp, HeaderBroadcast, Header, HeaderLen, BroadcastBit, CopyBody, CopyOf, CopyExists, CopySub, NopCount;
    var h, b := p[0], p[1..];
    var sub: u8, flags: u16 := HeaderSubOp(h), h / 0x1_0000;
    HeaderBack(h);
    HeaderReads(1, sub, flags);
    CopyKind(v, h, sub, flags, b);
    CopyLen(v, CopyOf(v, sub, flags, b), h);
    CopyFields(v, sub, flags, b);
    assert p == [h] + b;
  }

  lemma OtherPacketBack(v: Version, p: seq<u32>)
    requires IsPacket(v, p) && HeaderOp(p[0]) != 1 && HeaderOp(p[0]) != 2
    ensures var c := CommandIn(v, p); Exists(v, c) && Encode(v, c) == p
  {
    hide HeaderOp, HeaderSubOp, HeaderBroadcast, Header, HeaderLen, BroadcastBit, CommandBody, PollOf, NopCount, OpOf, SubOf, CommandOf;
    var h, b := p[0], p[1..];
    var op: u8, sub: u8, flags: u16 := HeaderOp(h), HeaderSubOp(h), h / 0x1_0000;
    HeaderBack(h);
    HeaderReads(op, sub, flags);
    OtherKind(v, h, op, sub, flags, b);
    var c := CommandOf(v, op, sub, flags, b);
    NotWrite(v, c);
    OtherLen(v, c, h);
    if op == 8 {
      PollCommand(v, sub, flags, b);
      PollFields(v, sub, flags, b);
    } else {
      OtherFields(v, op, sub, flags, b);
    }
    assert p == [h] + b;
  }

  lemma PollCommand(v: Version, sub: u8, flags: u16, b: seq<u32>)
    ensures CommandOf(v, 8, sub, flags, b) == PollOf(sub, flags, b)
  {
  }

  /** The length table accepts commands only: whatever dwords it takes for a packet are a command of that generation. */
  lemma PacketIsEncoded(v: Version, p: seq<u32>) returns (c: Command)
    requires IsPacket(v, p)
    ensures Exists(v, c) && Encode(v, c) == p
  {
    hide HeaderOp, HeaderSubOp, Header, PacketLen, CommandBody, OpOf, SubOf, CommandOf;
    c := CommandIn(v, p);
    if HeaderOp(p[0]) == 1 {
      CopyPacketBack(v, p);
    } else if HeaderOp(p[0]) == 2 {
      var flags: u16 := p[0] / 0x1_0000;
      HeaderBack(p[0]);
      WriteBack(v, p, flags);
      WriteKind(v, flags, p[1..]);
      assert p == [p[0]] + p[1..];
    } else {
      OtherPacketBack(v, p);
    }
  }

  lemma WriteKind(v: Version, flags: u16, b: seq<u32>)
    ensures var c := CommandOf(v, 2, 0, flags, b); OpOf(v, c) == 2 && SubOf(c) == 0 && FlagsOf(c) == flags
  {
  }

  /** The packets of a generation are exactly its commands. */
  lemma PacketsAreCommands(v: Version, p: seq<u32>)
    ensures IsPacket(v, p) <==> exists c :: Exists(v, c) && Encode(v, c) == p
  {
    hide IsPacket, Encode, Exists;
    if IsPacket(v, p) {
      var c := PacketIsEncoded(v, p);
    }
    if c :| Exists(v, c) && Encode(v, c) == p {
      EncodedIsPacket(v, c);
    }
  }
}

/** What the poller reports of the commands a producer sends: one record each, in order, telling the command. */
module SdmaReports {
  import opened Model
  import opened SdmaPackets
  import opened SdmaPoll
  import opened SdmaStream
  import opened SdmaCommands
  import PageCache
  import SdmaRuns

  // ---- Names ----

  function CopyKindName(c: CopyCommand): string {
    match c
    case Linear(_, _, _, _, _, _) => "linear"
    case LinearBc(_, _, _, _, _, _) => "linear_bc"
    case LinearBroadcast(_, _, _, _, _, _) => "linear"
    case DirtyPage(_, _, _, _, _) => "dirty_page"
    case LinearPhysical(_, _, _, _, _) => "linear_physical"
    case Struct(_, _, _, _, _, _) => "soa"
    case SubWindow(bc, _, _, _, _, _, _) => if bc then "linear_subwindow_bc" else "linear_subwindow"
    case SubWindowLarge(_, _, _, _, _, _) => "linear_subwindow_large"
    case Tiled(bc, _, _, _, _, _, _, _) => if bc then "tiled_bc" else "tiled"
    case TiledBroadcast(_, _, _, _, _, _, _, _) => "tiled"
    case TiledSubWindow(bc, _, _, _, _, _, _, _) => if bc then "tiled_subwindow_bc" else "tiled_subwindow"
    case TiledToTiled(bc, _, _, _, _, _, _, _) => if bc then "t2t_subwindow_bc" else "t2t_subwindow"
  }

  predicate IsBroadcast(c: CopyCommand) {
    c.LinearBroadcast? || c.TiledBroadcast?
  }

  function KindName(c: Command): string {
    match c
    case Nop(_, _, _) => "nop"
    case WriteData(_, _, _, _) => "write"
    case Indirect(_, _, _, _, _) => "indirect"
    case Fence(_, _, _, _) => "fence"
    case Trap(_, _, _) => "trap"
    case Semaphore(_, _, _) => "semaphore"
    case PollRegMem(_, _, _, _, _) => "poll_regmem"
    case PollRegWrite(_, _, _) => "poll_regmem"
    case PollDirtyBits(_, _, _, _) => "poll_regmem"
    case PollVerify(_, _, _, _, _, _, _, _) => "poll_regmem"
    case VmInvalidation(_, _, _) => "poll_regmem"
    case CondExe(_, _, _, _, _) => "cond_exe"
    case Atomic(_, _, _, _, _, _) => "atomic"
    case ConstFill(_, _, _, _) => "const_fill"
    case FillMulti(_, _, _, _, _) => "const_fill"
    case PtePdeCopy(_, _, _, _, _) => "ptepde"
    case PtePdeModify(_, _, _, _, _) => "ptepde"
    case PtePdeCopyBackwards(_, _, _, _, _) => "ptepde"
    case Timestamp(_, _, _) => "timestamp"
    case SrbmWrite(_, _, _, _) => "srbm_write"
    case PreExe(_, _, _) => "pre_exe"
    case GpuvmInvalidate(_, _, _) => "gpuvm_inv"
    case GcrRequest(_, _, _) => "gcr_req"
    case DummyTrap(_, _, _) => "dummy_trap"
    case Copy(copy) => CopyKindName(copy)
  }

  /** The name under which a command is reported. */
  function Name(c: Command): Bytes {
    if c.Copy? then Ascii("copy_") + Ascii(KindName(c)) + if IsBroadcast(c.copy) then Ascii("_broadcast") else []
    else Ascii(KindName(c))
  }

  lemma CopyNamed(v: Version, c: CopyCommand)
    requires Exists(v, Copy(c))
    ensures CopySubOpName(v, CopySub(c)) == CopyKindName(c)
  {
  }

  lemma BroadcastNamed(v: Version, c: CopyCommand)
    requires Exists(v, Copy(c))
    ensures IsBroadcast(c) <==> (CopySub(c) == 0 || CopySub(c) == 1) && BroadcastBit(c.flags)
  {
    hide BroadcastBit;
  }

  lemma OtherNamed(v: Version, c: Command)
    requires Exists(v, c) && !c.Copy?
    ensures OpName(v, OpOf(v, c)) == KindName(c)
  {
  }

  /** The name shown is the command's. */
  lemma NameTells(v: Version, c: Command)
    requires Exists(v, c)
    ensures PacketName(v, Encode(v, c)[0]) == Name(c)
  {
    hide Header, HeaderOp, HeaderSubOp, HeaderBroadcast, BroadcastBit, OpOf, SubOf, CopySub, CopyKindName, OpName, CopySubOpName, Ascii;
    HeaderReads(OpOf(v, c), SubOf(c), FlagsOf(c));
    NotWrite(v, c);
    if c.Copy? {
      CopyNamed(v, c.copy);
      BroadcastNamed(v, c.copy);
    } else {
      OtherNamed(v, c);
    }
  }

  // ---- Records ----

  /** The copies with plain source and destination addresses. */
  predicate IsLinear(c: Command) {
    c.Copy? && (c.copy.Linear? || c.copy.LinearBc? || c.copy.LinearBroadcast?)
  }

  /** The bytes a linear copy moves: one more than its count field, which is 30 bits wide from v6 on. */
  function Size(v: Version, c: Command): nat
    requires IsLinear(c)
  {
    if v == V4 || c.copy.LinearBc? then c.copy.count % 0x40_0000 + 1 else c.copy.count % 0x4000_0000 + 1
  }

  /** The direction a copy has, given which of its two pages the page map backs with host memory. */
  predicate DirectionTells(dir: CopyDir, srcHost: bool, dstHost: bool) {
    && (dir == HostToDevice <==> srcHost && !dstHost)
    && (dir == DeviceToHost <==> !srcHost && dstHost)
    && (dir == DeviceToDevice <==> !srcHost && !dstHost)
    && (dir == HostToHost <==> srcHost && dstHost)
  }

  function PageStart(va: u64): u64 {
    va - va % 0x1000
  }

  /** The record is that of the command, whenever it was decoded and completed. */
  predicate Tells(info: QueueInfo, host: u64 -> bool, r: SdmaRecord, i: nat, c: Command) {
    && r.queueUid == info.uid && r.seqNo == i && r.version == info.sdmaVersion
    && r.opcode == OpOf(info.sdmaVersion, c) && r.subOpcode == SubOf(c) && r.opName == Name(c)
    && if IsLinear(c)
       then
         var src, dst := c.copy.src, c.copy.dst;
         && r.bytes == Size(info.sdmaVersion, c) && r.src == src && r.dst == dst
         && DirectionTells(r.dir, host(PageStart(src)), host(PageStart(dst)))
       else r.bytes == r.src == r.dst == 0 && r.dir == UnknownDir
  }

  lemma AddrJoins(a: u64)
    ensures Addr(Lo(a), Hi(a)) == a
  {
  }

  lemma LinearWhen(v: Version, c: Command)
    requires Exists(v, c)
    ensures IsLinear(c) <==> OpOf(v, c) == OP_COPY && IsLinearCopy(v, SubOf(c))
    ensures IsLinear(c) ==> LinearCopyBytes(v, SubOf(c), c.copy.count) == Size(v, c)
  {
  }

  lemma LinearBody(v: Version, c: Command)
    requires Exists(v, c) && IsLinear(c)
    ensures var b := CommandBody(v, c);
            && |b| >= 6 && b[0] == c.copy.count && Addr(b[2], b[3]) == c.copy.src && Addr(b[4], b[5]) == c.copy.dst
  {
    hide Lo, Hi, Addr;
    AddrJoins(c.copy.src);
    AddrJoins(c.copy.dst);
  }

  lemma WindowBody(v: Version, c: Command)
    ensures var p, w := Encode(v, c), Window(Encode(v, c));
            && |w| > 0 && w[0] == p[0] && |w| == if |p| <= 16 then |p| else 16
    ensures forall k :: 0 <= k < |CommandBody(v, c)| && k < 15 ==> Window(Encode(v, c))[k + 1] == CommandBody(v, c)[k]
  {
    hide CommandBody;
  }

  /** The decoder looks for addresses in the linear copies only, and finds them. */
  lemma AddressesTell(v: Version, c: Command)
    requires Exists(v, c)
    ensures var w := Window(Encode(v, c));
            && |w| > 0 && w[0] == Encode(v, c)[0] && HeaderOp(w[0]) == OpOf(v, c) && HeaderSubOp(w[0]) == SubOf(c)
            && (HasAddresses(v, w) <==> IsLinear(c))
            && (IsLinear(c) ==> Src(w) == c.copy.src && Dst(w) == c.copy.dst && w[1] == c.copy.count)
  {
    hide Header, HeaderOp, HeaderSubOp, IsLinearCopy, OpOf, SubOf, CommandBody, IsLinear, Addr, Window;
    HeaderReads(OpOf(v, c), SubOf(c), FlagsOf(c));
    LinearWhen(v, c);
    WindowBody(v, c);
    if IsLinear(c) {
      LinearBody(v, c);
    }
  }

  lemma UncachedTells(host: u64 -> bool, src: u64, dst: u64)
    ensures DirectionTells(PageCache.Uncached(host, src, dst), host(PageStart(src)), host(PageStart(dst)))
  {
  }

  /** The record read off a command's dwords tells that command. */
  lemma RecordTells(info: QueueInfo, host: u64 -> bool, i: u64, c: Command)
    requires Exists(info.sdmaVersion, c)
    ensures |Encode(info.sdmaVersion, c)| > 0
    ensures Tells(info, host, BatchRecord(info, host, i, Encode(info.sdmaVersion, c)), i, c)
  {
    hide PacketName, Name, HeaderOp, HeaderSubOp, LinearCopyBytes, Size, OpOf, SubOf, Window;
    hide HasAddresses, Src, Dst, PageCache.Uncached, DirectionTells, PageStart, Exists;
    var v := info.sdmaVersion;
    NameTells(v, c);
    LinearWhen(v, c);
    AddressesTell(v, c);
    if IsLinear(c) {
      UncachedTells(host, c.copy.src, c.copy.dst);
    }
  }

  // ---- Whole streams ----

  function Encoded(v: Version, cs: seq<Command>): (ps: seq<seq<u32>>)
    ensures |ps| == |cs|
    ensures forall i :: 0 <= i < |cs| ==> ps[i] == Encode(v, cs[i])
  {
    seq(|cs|, i requires 0 <= i < |cs| => Encode(v, cs[i]))
  }

  predicate AllExist(v: Version, cs: seq<Command>) {
    forall i :: 0 <= i < |cs| ==> Exists(v, cs[i])
  }

  lemma EncodedArePackets(v: Version, cs: seq<Command>)
    requires AllExist(v, cs)
    ensures ArePackets(v, Encoded(v, cs))
  {
    hide Encode, IsPacket, Exists;
    forall i | 0 <= i < |cs|
      ensures IsPacket(v, Encoded(v, cs)[i])
    {
      EncodedIsPacket(v, cs[i]);
    }
  }

  /** Commands written one after the other are split back into exactly those commands. */
  lemma CommandsSplit(v: Version, cs: seq<Command>)
    requires AllExist(v, cs)
    ensures BatchParse(v, Concat(Encoded(v, cs))) == Encoded(v, cs)
  {
    EncodedArePackets(v, cs);
    SplitAll(v, Encoded(v, cs));
  }

  ghost predicate AllTell(info: QueueInfo, host: u64 -> bool, rs: seq<SdmaRecord>, cs: seq<Command>) {
    |rs| <= |cs| && forall i :: 0 <= i < |rs| ==> Tells(info, host, rs[i], i, cs[i])
  }

  lemma RecordsTell(info: QueueInfo, host: u64 -> bool, rs: seq<SdmaRecord>, cs: seq<Command>, k: nat)
    requires AllExist(info.sdmaVersion, cs) && k <= |Concat(Encoded(info.sdmaVersion, cs))|
    requires RecordsOf(info, host, rs, BatchParse(info.sdmaVersion, Cut(Encoded(info.sdmaVersion, cs), k)))
    ensures |rs| == Fits(Encoded(info.sdmaVersion, cs), k) && AllTell(info, host, rs, cs)
  {
    hide BatchParse, Encode, Fits, BatchRecord, Concat, Exists, ArePackets, Name, OpOf, SubOf, IsLinear, Size, DirectionTells;
    var v := info.sdmaVersion;
    EncodedArePackets(v, cs);
    BatchParseCut(v, Encoded(v, cs), k);
    forall i | 0 <= i < |rs|
      ensures Tells(info, host, rs[i], i, cs[i])
    {
      RecordTells(info, host, i, cs[i]);
    }
  }

  lemma Reported(info: QueueInfo, host: u64 -> bool, head: nat, cs: seq<Command>, t: SdmaRuns.Trace, v: SdmaView)
    requires AllExist(info.sdmaVersion, cs) && head <= v.wptr <= head + |Concat(Encoded(info.sdmaVersion, cs))|
    requires var ps := Encoded(info.sdmaVersion, cs);
             && RecordsOf(info, host, Records(t.decoded), BatchParse(info.sdmaVersion, Cut(ps, v.wptr - head)))
             && RecordsOf(info, host, t.out, BatchParse(info.sdmaVersion, Cut(ps, Consumed(head, v.wptr, v.rptr))))
    ensures AllReported(info, host, head, cs, t, v)
  {
    hide BatchParse, Cut, Encoded, Fits, RecordsOf, AllTell, AllExist, Concat;
    RecordsTell(info, host, Records(t.decoded), cs, v.wptr - head);
    RecordsTell(info, host, t.out, cs, Consumed(head, v.wptr, v.rptr));
  }

  /** One decoded record for each command that ends at or before the write pointer, one sunk record for each that ends at
      or before the smaller pointer, in order, each telling its command. */
  ghost predicate AllReported(info: QueueInfo, host: u64 -> bool, head: nat, cs: seq<Command>, t: SdmaRuns.Trace, v: SdmaView) {
    var ps := Encoded(info.sdmaVersion, cs);
    && head <= v.wptr
    && |t.decoded| == Fits(ps, v.wptr - head) && AllTell(info, host, Records(t.decoded), cs)
    && |t.out| == Fits(ps, Consumed(head, v.wptr, v.rptr)) && AllTell(info, host, t.out, cs)
  }

  /** What the poller reports of a producer's commands, on every schedule that leaves the dwords still to be decoded in
      place: all those it can, each as what it is. */
  lemma CommandsReported(info: QueueInfo, host: u64 -> bool, head: nat, cs: seq<Command>, ticks: seq<SdmaRuns.Tick>)
    requires AllExist(info.sdmaVersion, cs) && Schedule(info, host, head, Encoded(info.sdmaVersion, cs), ticks)
    ensures AllReported(info, host, head, cs, SdmaRuns.Run(info, ticks), Last(info, ticks))
  {
    hide OnStream, SdmaRuns.Run, BatchParse, Cut, Encoded, Fits, RecordsOf, AllTell, AllExist, Records, SdmaRuns.Head, AllReported;
    hide ArePackets, Concat, Consumed;
    IncrementalIsBatch(info, host, head, Encoded(info.sdmaVersion, cs), ticks);
    Reported(info, host, head, cs, SdmaRuns.Run(info, ticks), Last(info, ticks));
  }
}
