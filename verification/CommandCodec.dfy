/** Little-endian integers. */
module LittleEndian {

  type byte = x: int | 0 <= x < 0x100
  type u32 = x: int | 0 <= x < 0x1_0000_0000
  type u64 = x: int | 0 <= x < 0x1_0000_0000_0000_0000

  function Pow256(k: nat): nat {
    if k == 0 then 1 else 0x100 * Pow256(k - 1)
  }

  function Encode(n: nat, k: nat): (b: seq<byte>)
    ensures |b| == k
  {
    if k == 0 then [] else [n % 0x100] + Encode(n / 0x100, k - 1)
  }

  function Decode(b: seq<byte>): nat {
    if b == [] then 0 else b[0] + 0x100 * Decode(b[1..])
  }

  lemma {:induction false} RoundTrip(n: nat, k: nat)
    requires n < Pow256(k)
    ensures Decode(Encode(n, k)) == n
  {
    if k > 0 {
      RoundTrip(n / 0x100, k - 1);
      assert Encode(n, k)[1..] == Encode(n / 0x100, k - 1);
    }
  }

  lemma {:induction false} DecodeBound(b: seq<byte>)
    ensures Decode(b) < Pow256(|b|)
  {
    if b != [] {
      DecodeBound(b[1..]);
    }
  }

  lemma Powers()
    ensures Pow256(4) == 0x1_0000_0000 && Pow256(8) == 0x1_0000_0000_0000_0000
  {
    assert Pow256(2) == 0x1_0000;
    assert Pow256(4) == 0x100 * (0x100 * Pow256(2));
    assert Pow256(6) == 0x100 * (0x100 * Pow256(4));
    assert Pow256(8) == 0x100 * (0x100 * Pow256(6));
  }

  function Bytes4(n: u32): (b: seq<byte>)
    ensures |b| == 4
  {
    Encode(n, 4)
  }

  function Bytes8(n: u64): (b: seq<byte>)
    ensures |b| == 8
  {
    Encode(n, 8)
  }

  function Read4(b: seq<byte>, at: nat): u32
    requires at + 4 <= |b|
  {
    Powers();
    DecodeBound(b[at..at + 4]);
    Decode(b[at..at + 4])
  }

  function Read8(b: seq<byte>, at: nat): u64
    requires at + 8 <= |b|
  {
    Powers();
    DecodeBound(b[at..at + 8]);
    Decode(b[at..at + 8])
  }

  /** A number written at `at` is read back from there. */
  lemma Read4Bytes4(b: seq<byte>, at: nat, n: u32)
    requires at + 4 <= |b| && b[at..at + 4] == Bytes4(n)
    ensures Read4(b, at) == n
  {
    Powers();
    RoundTrip(n, 4);
  }

  lemma Read8Bytes8(b: seq<byte>, at: nat, n: u64)
    requires at + 8 <= |b| && b[at..at + 8] == Bytes8(n)
    ensures Read8(b, at) == n
  {
    Powers();
    RoundTrip(n, 8);
  }
}

/** The items of a command stream, and the virtio-gpu commands they become in the DMA buffer. */
module CommandCodec {
  import opened Collections
  import opened LittleEndian

  const CTRL_HEADER_SIZE := 24
  const SUBMIT_HEADER_SIZE := 32
  const TRANSFER_SIZE := 72

  const CMD_TRANSFER_TO_HOST_3D := 0x0205
  const CMD_TRANSFER_FROM_HOST_3D := 0x0206
  const CMD_SUBMIT_3D := 0x0207

  const FLAG_FENCE := 1
  const FLAG_RING_INDEX := 2

  datatype Box3D = Box3D(x: u32, y: u32, z: u32, width: u32, height: u32, depth: u32)

  datatype Transfer = Transfer(resId: u32, stride: u32, offset: u64, level: u32, layerStride: u32, box: Box3D)

  datatype Item = Submit(data: seq<byte>) | ToHost(transfer: Transfer) | FromHost(transfer: Transfer)

  /** The context and ring a command is sent to. */
  datatype Target = Target(context: u32, ring: Option<byte>)

  datatype Order = Order(item: Item, target: Target)

  function ItemDmaLen(item: Item): nat {
    match item
    case Submit(data) => SUBMIT_HEADER_SIZE + |data|
    case _ => TRANSFER_SIZE
  }

  function CommandType(item: Item): u32 {
    match item
    case Submit(_) => CMD_SUBMIT_3D
    case ToHost(_) => CMD_TRANSFER_TO_HOST_3D
    case FromHost(_) => CMD_TRANSFER_FROM_HOST_3D
  }

  // ----- Encoding -----------------------------------------------------------------------------

  function EncodeHeader(kind: u32, target: Target, fence: u64): (b: seq<byte>)
    ensures |b| == CTRL_HEADER_SIZE
  {
    var flags := if target.ring.Some? then FLAG_FENCE + FLAG_RING_INDEX else FLAG_FENCE;
    var ring: byte := if target.ring.Some? then target.ring.value else 0;
    Bytes4(kind) + Bytes4(flags) + Bytes8(fence) + Bytes4(target.context) + [ring] + [0, 0, 0]
  }

  function EncodeBox(b: Box3D): (r: seq<byte>)
    ensures |r| == 24
  {
    Bytes4(b.x) + Bytes4(b.y) + Bytes4(b.z) + Bytes4(b.width) + Bytes4(b.height) + Bytes4(b.depth)
  }

  function EncodeTransfer(t: Transfer): (b: seq<byte>)
    ensures |b| == TRANSFER_SIZE - CTRL_HEADER_SIZE
  {
    EncodeBox(t.box) + Bytes8(t.offset) + Bytes4(t.resId) + Bytes4(t.level) + Bytes4(t.stride) + Bytes4(t.layerStride)
  }

  function EncodePayload(item: Item): (b: seq<byte>)
    ensures |b| == ItemDmaLen(item) - CTRL_HEADER_SIZE
  {
    match item
    case Submit(data) => Bytes4(|data| % 0x1_0000_0000) + [0, 0, 0, 0] + data
    case ToHost(t) => EncodeTransfer(t)
    case FromHost(t) => EncodeTransfer(t)
  }

  function EncodeOrder(o: Order, fence: u64): (b: seq<byte>)
    ensures |b| == ItemDmaLen(o.item)
  {
    EncodeHeader(CommandType(o.item), o.target, fence) + EncodePayload(o.item)
  }

  // ----- Decoding -----------------------------------------------------------------------------

  function DecodeTarget(b: seq<byte>): Target
    requires |b| >= CTRL_HEADER_SIZE
  {
    Target(Read4(b, 16), if Read4(b, 4) / FLAG_RING_INDEX % 2 == 1 then Some(b[20]) else None)
  }

  function DecodeTransfer(b: seq<byte>): Transfer
    requires |b| >= TRANSFER_SIZE
  {
    Transfer(Read4(b, 56), Read4(b, 64), Read8(b, 48), Read4(b, 60), Read4(b, 68),
    Box3D(Read4(b, 24), Read4(b, 28), Read4(b, 32), Read4(b, 36), Read4(b, 40), Read4(b, 44)))
  }

  /** What a device reads from the command: the order and its fence. */
  function DecodeOrder(b: seq<byte>): Option<(Order, u64)> {
    if |b| < SUBMIT_HEADER_SIZE then None
    else
      var kind := Read4(b, 0);
      if kind == CMD_SUBMIT_3D then
        if SUBMIT_HEADER_SIZE + Read4(b, 24) > |b| then None
        else Some((Order(Submit(b[32..32 + Read4(b, 24)]), DecodeTarget(b)), Read8(b, 8)))
      else if |b| < TRANSFER_SIZE then None
      else if kind == CMD_TRANSFER_TO_HOST_3D then
        Some((Order(ToHost(DecodeTransfer(b)), DecodeTarget(b)), Read8(b, 8)))
      else if kind == CMD_TRANSFER_FROM_HOST_3D then
        Some((Order(FromHost(DecodeTransfer(b)), DecodeTarget(b)), Read8(b, 8)))
      else None
  }

  lemma ReadWithin(b: seq<byte>, at: nat, e: seq<byte>, i: nat, n: u32)
    requires at + |e| <= |b| && b[at..at + |e|] == e
    requires i + 4 <= |e| && e[i..i + 4] == Bytes4(n)
    ensures Read4(b, at + i) == n
  {
    var part, field := b[at..at + |e|], b[at + i..at + i + 4];
    forall k | 0 <= k < 4 ensures field[k] == Bytes4(n)[k] {
      assert field[k] == b[at + (i + k)] == part[i + k] == e[i..i + 4][k];
    }
    assert field == Bytes4(n);
    Read4Bytes4(b, at + i, n);
  }

  lemma HeaderRoundTrip(kind: u32, target: Target, fence: u64, rest: seq<byte>)
    ensures var b := EncodeHeader(kind, target, fence) + rest;
            Read4(b, 0) == kind && Read8(b, 8) == fence && DecodeTarget(b) == target
  {
    var flags := if target.ring.Some? then FLAG_FENCE + FLAG_RING_INDEX else FLAG_FENCE;
    var ring: byte := if target.ring.Some? then target.ring.value else 0;
    var b := EncodeHeader(kind, target, fence) + rest;
    assert b[0..4] == Bytes4(kind) && b[4..8] == Bytes4(flags) && b[8..16] == Bytes8(fence);
    assert b[16..20] == Bytes4(target.context) && b[20] == ring;
    Read4Bytes4(b, 0, kind);
    Read4Bytes4(b, 4, flags);
    Read8Bytes8(b, 8, fence);
    Read4Bytes4(b, 16, target.context);
  }

  lemma SmallBytes(low: byte, high: byte)
    ensures Encode(low + 0x100 * high, 4) == [low, high, 0, 0]
  {
    var n := low + 0x100 * high;
    assert n % 0x100 == low && n / 0x100 == high;
    assert Encode(n, 4) == [low] + Encode(high, 3) && Encode(high, 3) == [high] + Encode(0, 2);
    assert Encode(0, 2) == [0] + Encode(0, 1) && Encode(0, 1) == [0] + Encode(0, 0);
  }

  lemma HeaderFront(kind: u32, target: Target, fence: u64)
    ensures var h := EncodeHeader(kind, target, fence);
            h[..4] == Bytes4(kind) && h[4..8] == Bytes4(if target.ring.Some? then 3 else 1)
  {
  }

  lemma FrontKept(a: seq<byte>, b: seq<byte>)
    requires |a| >= 8
    ensures (a + b)[..4] == a[..4] && (a + b)[4..8] == a[4..8]
  {
  }

  /** Each kind of command begins with the type the device knows it by, and always asks for its fence. */
  lemma HeaderBytes(o: Order, fence: u64)
    ensures var b := EncodeOrder(o, fence);
            && b[..4] == [if o.item.ToHost? then 0x05 else if o.item.FromHost? then 0x06 else 0x07, 0x02, 0, 0]
            && b[4..8] == [if o.target.ring.Some? then 3 else 1, 0, 0, 0]
  {
    var kind: byte := if o.item.ToHost? then 0x05 else if o.item.FromHost? then 0x06 else 0x07;
    var flags: byte := if o.target.ring.Some? then 3 else 1;
    SmallBytes(kind, 0x02);
    SmallBytes(flags, 0);
    HeaderFront(CommandType(o.item), o.target, fence);
    FrontKept(EncodeHeader(CommandType(o.item), o.target, fence), EncodePayload(o.item));
  }

  lemma BoxRoundTrip(box: Box3D, b: seq<byte>, at: nat)
    requires at + 24 <= |b| && b[at..at + 24] == EncodeBox(box)
    ensures box == Box3D(Read4(b, at), Read4(b, at + 4), Read4(b, at + 8),
                         Read4(b, at + 12), Read4(b, at + 16), Read4(b, at + 20))
  {
    var e := EncodeBox(box);
    var half := Bytes4(box.x) + Bytes4(box.y) + Bytes4(box.z);
    var rest := Bytes4(box.width) + Bytes4(box.height) + Bytes4(box.depth);
    assert e == half + rest;
    assert half[0..4] == Bytes4(box.x) && half[4..8] == Bytes4(box.y) && half[8..12] == Bytes4(box.z);
    assert rest[0..4] == Bytes4(box.width) && rest[4..8] == Bytes4(box.height) && rest[8..12] == Bytes4(box.depth);
    ReadWithin(b, at, e, 0, box.x);
    ReadWithin(b, at, e, 4, box.y);
    ReadWithin(b, at, e, 8, box.z);
    ReadWithin(b, at, e, 12, box.width);
    ReadWithin(b, at, e, 16, box.height);
    ReadWithin(b, at, e, 20, box.depth);
  }

  lemma TransferRoundTrip(t: Transfer, header: seq<byte>)
    requires |header| == CTRL_HEADER_SIZE
    ensures DecodeTransfer(header + EncodeTransfer(t)) == t
  {
    var e := EncodeTransfer(t);
    var b := header + e;
    assert b[24..48] == e[0..24] == EncodeBox(t.box);
    BoxRoundTrip(t.box, b, 24);
    assert b[48..56] == e[24..32] == Bytes8(t.offset);
    assert b[56..60] == e[32..36] == Bytes4(t.resId);
    assert b[60..64] == e[36..40] == Bytes4(t.level);
    assert b[64..68] == e[40..44] == Bytes4(t.stride);
    assert b[68..72] == e[44..48] == Bytes4(t.layerStride);
    Read8Bytes8(b, 48, t.offset);
    Read4Bytes4(b, 56, t.resId);
    Read4Bytes4(b, 60, t.level);
    Read4Bytes4(b, 64, t.stride);
    Read4Bytes4(b, 68, t.layerStride);
  }

  lemma SubmitRoundTrip(data: seq<byte>, header: seq<byte>)
    requires |header| == CTRL_HEADER_SIZE && |data| < 0x1_0000_0000
    ensures var b := header + EncodePayload(Submit(data));
            Read4(b, 24) == |data| && b[32..32 + |data|] == data
  {
    var b := header + EncodePayload(Submit(data));
    var length: u32 := |data|;
    assert |data| % 0x1_0000_0000 == length;
    assert b == header + Bytes4(length) + [0, 0, 0, 0] + data;
    assert b[24..28] == Bytes4(length);
    Read4Bytes4(b, 24, length);
  }

  /** The length of submitted data has 32 bits in the stream as in the command. */
  predicate Encodable(item: Item) {
    item.Submit? ==> |item.data| < 0x1_0000_0000
  }

  /** Decoding a command gives back the item, its context and ring, and its fence. */
  lemma OrderRoundTrip(o: Order, fence: u64)
    requires Encodable(o.item)
    ensures DecodeOrder(EncodeOrder(o, fence)) == Some((o, fence))
  {
    var header := EncodeHeader(CommandType(o.item), o.target, fence);
    HeaderRoundTrip(CommandType(o.item), o.target, fence, EncodePayload(o.item));
    match o.item
    case Submit(data) => SubmitRoundTrip(data, header);
    case ToHost(t) => TransferRoundTrip(t, header);
    case FromHost(t) => TransferRoundTrip(t, header);
  }
}
