/**
 Rendering a user command stream: the stream is parsed command by command, and the items of each
 command are written one after the other into the DMA buffer as virtio-gpu commands.
 */
module Rendering {
  import opened Collections
  import opened LittleEndian
  import opened CommandCodec

  const HEADER_SIZE := 8
  const STREAM_TRANSFER_SIZE := 48

  datatype Status = InvalidParameter | InvalidHandle | ReinitializationNeeded | InsufficientDmaBuffer

  datatype Result<T> = Ok(value: T) | Err(status: Status)

  datatype Body =
    | NopBody
    | SubmitBody(data: seq<byte>)
    | FenceBody(fence: u64)
    | ToHostBody(transfers: seq<Transfer>)
    | FromHostBody(transfers: seq<Transfer>)

  datatype Contexts = Contexts(main: Option<u32>, shadowVirgl: Option<u32>)

  /** A command of the stream that is to be written. */
  datatype Unit = Unit(body: Body, target: Target)

  /** `Undefined` marks streams the code has no answer for. */
  datatype End = Finished | Refused(status: Status) | Undefined

  /** A command in the DMA buffer. */
  datatype Command = DmaCommand(kind: u32, ring: Option<byte>, offset: nat, length: nat) | NopCommand

  // ----- The stream ---------------------------------------------------------------------------

  function ReadTransfer(b: seq<byte>, at: nat): Transfer
    requires at + STREAM_TRANSFER_SIZE <= |b|
  {
    Transfer(Read4(b, at), Read4(b, at + 4), Read8(b, at + 8), Read4(b, at + 16), Read4(b, at + 20),
    Box3D(Read4(b, at + 24), Read4(b, at + 28), Read4(b, at + 32),
    Read4(b, at + 36), Read4(b, at + 40), Read4(b, at + 44)))
  }

  function ReadTransfers(b: seq<byte>, at: nat, count: nat): (r: seq<Transfer>)
    requires at + STREAM_TRANSFER_SIZE * count <= |b|
    ensures |r| == count
  {
    seq(count, i requires 0 <= i < count => ReadTransfer(b, at + STREAM_TRANSFER_SIZE * i))
  }

  /** `Beyond` marks a body that would be read past the end of the stream. */
  datatype Parsed = Is(body: Body) | Malformed | Beyond

  predicate WellFormed(base: nat, id: nat, at: nat, size: nat) {
    match id
    case 2 => size % STREAM_TRANSFER_SIZE == 0
    case 3 => size % STREAM_TRANSFER_SIZE == 0
    case 4 => (base + at) % 8 == 0 && size == 8
    case _ => id <= 4
  }

  /**
   The `size` bytes at `at` as the body of a command; `base` is the address of the stream.  A no-op's
   body is never looked at, and the checks on size and alignment come before the body is read.
   */
  function ParseBody(b: seq<byte>, base: nat, id: nat, at: nat, size: nat): Parsed {
    if !WellFormed(base, id, at, size) then Malformed
    else if id == 0 then Is(NopBody)
    else if at + size > |b| then Beyond
    else
      match id
      case 1 => Is(SubmitBody(b[at..at + size]))
      case 2 => Is(ToHostBody(ReadTransfers(b, at, size / STREAM_TRANSFER_SIZE)))
      case 3 => Is(FromHostBody(ReadTransfers(b, at, size / STREAM_TRANSFER_SIZE)))
      case _ => Is(FenceBody(Read8(b, at)))
  }

  datatype Step = Stop(end: End) | Next(unit: Unit, at: nat)

  /** The command at `at`, or why there is none. */
  function ParseOne(b: seq<byte>, base: nat, contexts: Contexts, at: nat): (step: Step)
    requires at < |b|
    ensures step.Next? ==> at < step.at && (step.unit.body.NopBody? || step.at <= |b|)
    ensures step.Next? && step.unit.body.SubmitBody? ==> |step.unit.body.data| < 0x1_0000_0000
    ensures step.Next? ==> !step.unit.body.FenceBody?
    ensures step.Stop? ==> step.end != Finished
  {
    if at + HEADER_SIZE > |b| then Stop(Refused(InvalidParameter))
    else
      var id, flags, ring, size := Decode(b[at..at + 2]), b[at + 2], b[at + 3], Read4(b, at + 4);
      var body := at + HEADER_SIZE;
      if id > 4 || flags >= 4 then Stop(Refused(InvalidParameter))
      else
        match ParseBody(b, base, id, body, size)
        case Malformed => Stop(Refused(InvalidParameter))
        case Beyond => Stop(Undefined)
        case Is(FenceBody(_)) => Stop(Refused(InvalidHandle))
        case Is(parsed) =>
          if parsed.SubmitBody? && contexts.main == None then Stop(Undefined)
          else
            match if flags / 2 % 2 == 1 then contexts.shadowVirgl else contexts.main
            case None => Stop(Refused(ReinitializationNeeded))
            case Some(context) =>
              Next(Unit(parsed, Target(context, if flags % 2 == 1 then Some(ring) else None)), body + size)
  }

  datatype Scan = Scan(units: seq<Unit>, end: End)

  /** All commands of the stream from `at` on, up to the first that is refused. */
  function ScanFrom(b: seq<byte>, base: nat, contexts: Contexts, at: nat): Scan
    decreases |b| - at
  {
    if at >= |b| then Scan([], Finished)
    else
      match ParseOne(b, base, contexts, at)
      case Stop(end) => Scan([], end)
      case Next(unit, next) =>
        var rest := ScanFrom(b, base, contexts, next);
        Scan([unit] + rest.units, rest.end)
  }

  // ----- What is written ----------------------------------------------------------------------

  function Items(body: Body): seq<Item> {
    match body
    case NopBody => []
    case SubmitBody(data) => [Submit(data)]
    case FenceBody(_) => []
    case ToHostBody(ts) => seq(|ts|, i requires 0 <= i < |ts| => ToHost(ts[i]))
    case FromHostBody(ts) => seq(|ts|, i requires 0 <= i < |ts| => FromHost(ts[i]))
  }

  /** The predicted size: item size times item count. */
  function BodyDmaLen(body: Body): nat {
    match body
    case NopBody => 0
    case SubmitBody(data) => (SUBMIT_HEADER_SIZE + |data|) * 1
    case FenceBody(_) => 0
    case ToHostBody(ts) => TRANSFER_SIZE * |ts|
    case FromHostBody(ts) => TRANSFER_SIZE * |ts|
  }

  function Orders(unit: Unit): (r: seq<Order>)
    ensures |r| == |Items(unit.body)| && forall i | 0 <= i < |r| :: r[i] == Order(Items(unit.body)[i], unit.target)
  {
    seq(|Items(unit.body)|, i requires 0 <= i < |Items(unit.body)| => Order(Items(unit.body)[i], unit.target))
  }

  function AllOrders(units: seq<Unit>): seq<Order> {
    if units == [] then [] else AllOrders(units[..|units| - 1]) + Orders(units[|units| - 1])
  }

  function UnitsDmaLen(units: seq<Unit>): nat {
    if units == [] then 0 else UnitsDmaLen(units[..|units| - 1]) + BodyDmaLen(units[|units| - 1].body)
  }

  function TotalLen(orders: seq<Order>): nat {
    if orders == [] then 0 else TotalLen(orders[..|orders| - 1]) + ItemDmaLen(orders[|orders| - 1].item)
  }

  /** The parts put end to end. */
  function Flat(parts: seq<seq<byte>>): seq<byte> {
    if parts == [] then [] else Flat(parts[..|parts| - 1]) + parts[|parts| - 1]
  }

  predicate Encodes(part: seq<byte>, o: Order, fences: nat -> u64, i: nat) {
    part == EncodeOrder(o, fences(i))
  }

  /** The parts are the encoded orders; order `i` carries the fence drawn for it. */
  ghost predicate AllEncode(parts: seq<seq<byte>>, orders: seq<Order>, fences: nat -> u64) {
    |parts| == |orders| && forall i: nat | i < |parts| :: Encodes(parts[i], orders[i], fences, i)
  }

  /** The buffer has the parts at its start, and the rest of it is as it was. */
  predicate Written(buffer: seq<byte>, parts: seq<seq<byte>>, before: seq<byte>) {
    |Flat(parts)| <= |before| && buffer == Flat(parts) + before[|Flat(parts)|..]
  }

  /** The place of each order in the DMA buffer. */
  function Regions(orders: seq<Order>): (r: seq<Command>)
    ensures |r| == |orders|
  {
    if orders == [] then []
    else
      var i := |orders| - 1;
      var o := orders[i];
      Regions(orders[..i]) + [DmaCommand(CommandType(o.item), o.target.ring, TotalLen(orders[..i]), ItemDmaLen(o.item))]
  }

  predicate HasNop(units: seq<Unit>) {
    exists i | 0 <= i < |units| :: units[i].body == NopBody
  }

  function Commands(units: seq<Unit>): seq<Command> {
    var regions := Regions(AllOrders(units));
    if regions == [] && HasNop(units) then [NopCommand] else regions
  }

  lemma OrderSnoc(orders: seq<Order>, o: Order)
    ensures TotalLen(orders + [o]) == TotalLen(orders) + ItemDmaLen(o.item)
    ensures Regions(orders + [o]) ==
            Regions(orders) + [DmaCommand(CommandType(o.item), o.target.ring, TotalLen(orders), ItemDmaLen(o.item))]
  {
    assert (orders + [o])[..|orders|] == orders;
  }

  lemma EncodeSnoc(parts: seq<seq<byte>>, orders: seq<Order>, fences: nat -> u64, part: seq<byte>, o: Order)
    requires AllEncode(parts, orders, fences) && Encodes(part, o, fences, |parts|)
    ensures AllEncode(parts + [part], orders + [o], fences)
  {
    forall i: nat | i < |parts| + 1 ensures Encodes((parts + [part])[i], (orders + [o])[i], fences, i) {
      assert i < |parts| ==> Encodes(parts[i], orders[i], fences, i);
    }
  }

  lemma WrittenSnoc(buffer: seq<byte>, parts: seq<seq<byte>>, before: seq<byte>, part: seq<byte>, buffer': seq<byte>)
    requires Written(buffer, parts, before) && |Flat(parts)| + |part| <= |before|
    requires var at := |Flat(parts)|; buffer' == buffer[..at] + part + buffer[at + |part|..]
    ensures Written(buffer', parts + [part], before)
  {
    assert (parts + [part])[..|parts|] == parts;
    assert Flat(parts + [part]) == Flat(parts) + part;
  }

  lemma {:induction false} TotalConcat(a: seq<Order>, b: seq<Order>)
    ensures TotalLen(a + b) == TotalLen(a) + TotalLen(b)
  {
    if b == [] {
      assert a + b == a;
    } else {
      var i := |b| - 1;
      TotalConcat(a, b[..i]);
      assert (a + b)[..|a + b| - 1] == a + b[..i];
    }
  }

  lemma {:induction false} SameLenTotal(orders: seq<Order>, len: nat)
    requires forall i | 0 <= i < |orders| :: ItemDmaLen(orders[i].item) == len
    ensures TotalLen(orders) == len * |orders|
  {
    if orders != [] {
      SameLenTotal(orders[..|orders| - 1], len);
    }
  }

  /** The size predicted for a command is the size of its items together. */
  lemma PredictedSize(unit: Unit)
    ensures BodyDmaLen(unit.body) == TotalLen(Orders(unit))
  {
    match unit.body
    case SubmitBody(data) => SameLenTotal(Orders(unit), SUBMIT_HEADER_SIZE + |data|);
    case ToHostBody(_) => SameLenTotal(Orders(unit), TRANSFER_SIZE);
    case FromHostBody(_) => SameLenTotal(Orders(unit), TRANSFER_SIZE);
    case _ => assert Orders(unit) == [];
  }

  lemma UnitSnoc(units: seq<Unit>, u: Unit)
    ensures AllOrders(units + [u]) == AllOrders(units) + Orders(u)
    ensures UnitsDmaLen(units + [u]) == UnitsDmaLen(units) + BodyDmaLen(u.body)
  {
    assert (units + [u])[..|units|] == units;
  }

  /** The bytes written for a stream are the sizes predicted for its commands, added up. */
  lemma {:induction false} PredictedTotal(units: seq<Unit>)
    ensures TotalLen(AllOrders(units)) == UnitsDmaLen(units)
  {
    if units != [] {
      var i := |units| - 1;
      PredictedTotal(units[..i]);
      PredictedSize(units[i]);
      TotalConcat(AllOrders(units[..i]), Orders(units[i]));
    }
  }

  // ----- Where the regions are ----------------------------------------------------------------

  lemma SnocSlice(a: seq<Order>, b: seq<Order>, i: nat)
    requires i < |b|
    ensures a + b[..i + 1] == a + b[..i] + [b[i]]
  {
    assert b[..i + 1] == b[..i] + [b[i]];
  }

  lemma {:induction false} TotalPrefix(orders: seq<Order>, i: nat)
    requires i < |orders|
    ensures TotalLen(orders[..i]) + ItemDmaLen(orders[i].item) == TotalLen(orders[..i + 1]) <= TotalLen(orders)
    decreases |orders|
  {
    assert orders[..i + 1][..i] == orders[..i];
    if i < |orders| - 1 {
      var front := orders[..|orders| - 1];
      TotalPrefix(front, i);
      assert front[..i + 1] == orders[..i + 1];
    } else {
      assert orders[..i + 1] == orders;
    }
  }

  /** Region `i` starts where the orders before it end: consecutive, starting at 0. */
  lemma {:induction false} RegionPlace(orders: seq<Order>, i: nat)
    requires i < |orders|
    ensures Regions(orders)[i] ==
            DmaCommand(CommandType(orders[i].item), orders[i].target.ring,
                       TotalLen(orders[..i]), ItemDmaLen(orders[i].item))
    decreases |orders|
  {
    if i < |orders| - 1 {
      var front := orders[..|orders| - 1];
      RegionPlace(front, i);
      assert front[..i] == orders[..i];
    }
  }

  lemma {:induction false} FlatAt(parts: seq<seq<byte>>, i: nat)
    requires i < |parts|
    ensures |Flat(parts[..i])| + |parts[i]| <= |Flat(parts)|
    ensures Flat(parts)[|Flat(parts[..i])|..|Flat(parts[..i])| + |parts[i]|] == parts[i]
    decreases |parts|
  {
    var n := |parts| - 1;
    if i < n {
      FlatAt(parts[..n], i);
      assert parts[..n][..i] == parts[..i];
      var at := |Flat(parts[..i])|;
      SliceOfPrefix(Flat(parts), Flat(parts[..n]), |Flat(parts[..n])|, at, at + |parts[i]|);
    } else {
      assert parts[..i] == parts[..n];
    }
  }

  predicate Sized(parts: seq<seq<byte>>, orders: seq<Order>) {
    |parts| == |orders| && forall i | 0 <= i < |parts| :: |parts[i]| == ItemDmaLen(orders[i].item)
  }

  lemma {:induction false} FlatLength(parts: seq<seq<byte>>, orders: seq<Order>)
    requires Sized(parts, orders)
    ensures |Flat(parts)| == TotalLen(orders)
  {
    if parts != [] {
      FlatLength(parts[..|parts| - 1], orders[..|orders| - 1]);
    }
  }

  /** A part lies where the region of its order is. */
  lemma PartInRegion(parts: seq<seq<byte>>, orders: seq<Order>, tail: seq<byte>, i: nat)
    requires Sized(parts, orders) && i < |orders|
    ensures var c := Regions(orders)[i];
            && c.DmaCommand? && c.offset + c.length <= |Flat(parts)|
            && (Flat(parts) + tail)[c.offset..c.offset + c.length] == parts[i]
  {
    RegionPlace(orders, i);
    FlatAt(parts, i);
    FlatLength(parts[..i], orders[..i]);
    var c := Regions(orders)[i];
    SliceOfPrefix(Flat(parts) + tail, Flat(parts), |Flat(parts)|, c.offset, c.offset + c.length);
  }

  lemma SliceOfPrefix(a: seq<byte>, b: seq<byte>, n: nat, i: nat, j: nat)
    requires n <= |a| && n <= |b| && a[..n] == b[..n] && i <= j <= n
    ensures a[i..j] == b[i..j]
  {
    assert a[i..j] == a[..n][i..j] && b[i..j] == b[..n][i..j];
  }

  lemma EncodedSized(parts: seq<seq<byte>>, orders: seq<Order>, fences: nat -> u64)
    requires AllEncode(parts, orders, fences)
    ensures Sized(parts, orders)
  {
    forall i: nat | i < |parts| ensures |parts[i]| == ItemDmaLen(orders[i].item) {
      assert Encodes(parts[i], orders[i], fences, i);
    }
  }

  /** Decoding region `i` of the buffer gives order `i` back, with its fence. */
  lemma RegionDecodes(buffer: seq<byte>, parts: seq<seq<byte>>, orders: seq<Order>, fences: nat -> u64,
                      before: seq<byte>, i: nat)
    requires AllEncode(parts, orders, fences) && Written(buffer, parts, before)
    requires i < |orders| && Encodable(orders[i].item)
    ensures var c := Regions(orders)[i];
            && c.DmaCommand? && c.offset == TotalLen(orders[..i]) && c.offset + c.length <= |buffer|
            && DecodeOrder(buffer[c.offset..c.offset + c.length]) == Some((orders[i], fences(i)))
  {
    RegionPlace(orders, i);
    EncodedSized(parts, orders, fences);
    PartInRegion(parts, orders, before[|Flat(parts)|..], i);
    assert Encodes(parts[i], orders[i], fences, i);
    OrderRoundTrip(orders[i], fences(i));
  }

  // ----- The loops ----------------------------------------------------------------------------

  method CopyInto(dma: array<byte>, at: nat, bytes: seq<byte>)
    requires at + |bytes| <= dma.Length
    modifies dma
    ensures dma[..] == old(dma[..at]) + bytes + old(dma[at + |bytes|..])
  {
    for i := 0 to |bytes|
      invariant forall k | 0 <= k < dma.Length ::
                  dma[k] == if at <= k < at + i then bytes[k - at] else old(dma[k])
    {
      dma[at + i] := bytes[i];
    }
  }

  /** Write one order at `at`. */
  method FromItem(o: Order, fence: u64, dma: array<byte>, at: nat) returns (c: Command)
    requires at + ItemDmaLen(o.item) <= dma.Length
    modifies dma
    ensures c == DmaCommand(CommandType(o.item), o.target.ring, at, ItemDmaLen(o.item))
    ensures dma[..] == old(dma[..at]) + EncodeOrder(o, fence) + old(dma[at + ItemDmaLen(o.item)..])
  {
    var bytes := EncodeOrder(o, fence);
    CopyInto(dma, at, bytes);
    return DmaCommand(CommandType(o.item), o.target.ring, at, |bytes|);
  }

  /** The encoded orders are at the start of the buffer, and the rest of it is as it was. */
  ghost predicate InBuffer(buffer: seq<byte>, orders: seq<Order>, parts: seq<seq<byte>>, fences: nat -> u64,
                           before: seq<byte>) {
    AllEncode(parts, orders, fences) && Written(buffer, parts, before) && |Flat(parts)| == TotalLen(orders)
  }

  /** The buffer, how much of it is written, and the commands in it. */
  datatype Output = Output(buffer: seq<byte>, offset: nat, commands: seq<Command>)

  /** The orders are in the buffer as the commands say. */
  ghost predicate Rendered(out: Output, orders: seq<Order>, parts: seq<seq<byte>>, fences: nat -> u64,
                           before: seq<byte>) {
    match out
    case Output(buffer, offset, commands) =>
      InBuffer(buffer, orders, parts, fences, before) && commands == Regions(orders) && offset == TotalLen(orders)
  }

  lemma RenderedSnoc(buffer: seq<byte>, buffer': seq<byte>, offset: nat, commands: seq<Command>,
                     o: Order, part: seq<byte>,
                     orders: seq<Order>, parts: seq<seq<byte>>, fences: nat -> u64, before: seq<byte>)
    requires Rendered(Output(buffer, offset, commands), orders, parts, fences, before)
    requires Encodes(part, o, fences, |orders|) && offset + |part| <= |before|
    requires buffer' == buffer[..offset] + part + buffer[offset + |part|..]
    ensures var c := DmaCommand(CommandType(o.item), o.target.ring, offset, ItemDmaLen(o.item));
            Rendered(Output(buffer', offset + ItemDmaLen(o.item), commands + [c]),
                     orders + [o], parts + [part], fences, before)
  {
    WrittenSnoc(buffer, parts, before, part, buffer');
    EncodeSnoc(parts, orders, fences, part, o);
    OrderSnoc(orders, o);
    EncodedSized(parts + [part], orders + [o], fences);
    FlatLength(parts + [part], orders + [o]);
  }

  method RenderItem(o: Order, dma: array<byte>, offset: nat, fences: nat -> u64, commands: seq<Command>,
                    ghost orders: seq<Order>, ghost parts: seq<seq<byte>>, ghost before: seq<byte>)
    returns (c: Command, ghost part: seq<byte>)
    requires Rendered(Output(dma[..], offset, commands), orders, parts, fences, before)
    requires offset + ItemDmaLen(o.item) <= dma.Length
    modifies dma
    ensures c.DmaCommand? && c.length == ItemDmaLen(o.item)
    ensures Rendered(Output(dma[..], offset + c.length, commands + [c]), orders + [o], parts + [part], fences, before)
  {
    ghost var buffer := dma[..];
    var fence := fences(|commands|);
    part := EncodeOrder(o, fence);
    c := FromItem(o, fence, dma, offset);
    RenderedSnoc(buffer, dma[..], offset, commands, o, part, orders, parts, fences, before);
  }

  /** Write the orders `all` one after the other. */
  method RenderOrders(all: seq<Order>, dma: array<byte>, offset: nat, fences: nat -> u64, commands: seq<Command>,
                      ghost orders: seq<Order>, ghost parts: seq<seq<byte>>, ghost before: seq<byte>)
    returns (more: seq<Command>, written: nat, ghost parts': seq<seq<byte>>)
    requires Rendered(Output(dma[..], offset, commands), orders, parts, fences, before)
    requires offset + TotalLen(all) <= dma.Length
    modifies dma
    ensures written == TotalLen(all)
    ensures Rendered(Output(dma[..], offset + written, more), orders + all, parts', fences, before)
  {
    more, written, parts' := commands, 0, parts;
    assert orders + all[..0] == orders;
    for i := 0 to |all|
      invariant written == TotalLen(all[..i])
      invariant Rendered(Output(dma[..], offset + written, more), orders + all[..i], parts', fences, before)
    {
      TotalPrefix(all, i);
      SnocSlice(orders, all, i);
      var c: Command;
      ghost var part: seq<byte>;
      c, part := RenderItem(all[i], dma, offset + written, fences, more, orders + all[..i], parts', before);
      written, more, parts' := written + c.length, more + [c], parts' + [part];
    }
    assert all[..|all|] == all;
  }

  /** Write the items of one command after what is in the buffer; as many bytes as were predicted. */
  method RenderUnit(unit: Unit, dma: array<byte>, offset: nat, fences: nat -> u64, commands: seq<Command>,
                    ghost orders: seq<Order>, ghost parts: seq<seq<byte>>, ghost before: seq<byte>)
    returns (more: seq<Command>, written: nat, ghost parts': seq<seq<byte>>)
    requires Rendered(Output(dma[..], offset, commands), orders, parts, fences, before)
    requires offset + BodyDmaLen(unit.body) <= dma.Length
    modifies dma
    ensures written == BodyDmaLen(unit.body)
    ensures Rendered(Output(dma[..], offset + written, more), orders + Orders(unit), parts', fences, before)
  {
    PredictedSize(unit);
    more, written, parts' := RenderOrders(Orders(unit), dma, offset, fences, commands, orders, parts, before);
  }

  lemma NopSnoc(units: seq<Unit>, u: Unit)
    ensures HasNop(units + [u]) <==> HasNop(units) || u.body == NopBody
  {
    var more := units + [u];
    assert more[|units|] == u;
    if HasNop(units) {
      var i :| 0 <= i < |units| && units[i].body == NopBody;
      assert more[i].body == NopBody;
    }
  }

  /** Command `k` of the scan is at `positions[k]`, and the scan ends at the last position. */
  predicate StepAt(b: seq<byte>, base: nat, contexts: Contexts, scan: Scan, positions: seq<nat>, k: nat) {
    && k < |positions|
    && if k < |scan.units|
       then k + 1 < |positions| && positions[k] < |b| &&
            ParseOne(b, base, contexts, positions[k]) == Next(scan.units[k], positions[k + 1])
       else if positions[k] < |b| then ParseOne(b, base, contexts, positions[k]) == Stop(scan.end)
       else scan.end == Finished
  }

  ghost predicate Located(b: seq<byte>, base: nat, contexts: Contexts, scan: Scan, positions: seq<nat>) {
    && |positions| == |scan.units| + 1
    && forall k: nat | k <= |scan.units| :: StepAt(b, base, contexts, scan, positions, k)
  }

  lemma StepShift(b: seq<byte>, base: nat, contexts: Contexts, unit: Unit, rest: Scan, at: nat, after: seq<nat>, k: nat)
    requires StepAt(b, base, contexts, rest, after, k) && k <= |rest.units|
    ensures StepAt(b, base, contexts, Scan([unit] + rest.units, rest.end), [at] + after, k + 1)
  {
  }

  lemma LocateCons(b: seq<byte>, base: nat, contexts: Contexts, unit: Unit, rest: Scan, at: nat, after: seq<nat>)
    requires Located(b, base, contexts, rest, after)
    requires at < |b| && ParseOne(b, base, contexts, at) == Next(unit, after[0])
    ensures Located(b, base, contexts, Scan([unit] + rest.units, rest.end), [at] + after)
  {
    var scan := Scan([unit] + rest.units, rest.end);
    forall k: nat | k <= |scan.units| ensures StepAt(b, base, contexts, scan, [at] + after, k) {
      if k > 0 {
        StepShift(b, base, contexts, unit, rest, at, after, k - 1);
      }
    }
  }

  lemma {:induction false} Locate(b: seq<byte>, base: nat, contexts: Contexts, at: nat) returns (positions: seq<nat>)
    ensures Located(b, base, contexts, ScanFrom(b, base, contexts, at), positions) && positions[0] == at
    decreases |b| - at
  {
    positions := [at];
    if at < |b| {
      var step := ParseOne(b, base, contexts, at);
      if step.Next? {
        var after := Locate(b, base, contexts, step.at);
        LocateCons(b, base, contexts, step.unit, ScanFrom(b, base, contexts, step.at), at, after);
        positions := [at] + after;
      }
    }
  }

  /** Parse the command at `at`, which is command `k` of the scan or where it ends. */
  method ParseNext(b: seq<byte>, base: nat, contexts: Contexts, at: nat,
                   ghost scan: Scan, ghost positions: seq<nat>, ghost k: nat)
    returns (r: Result<(Unit, nat)>)
    requires Located(b, base, contexts, scan, positions) && k <= |scan.units| && positions[k] == at < |b|
    ensures match r
            case Err(status) => k == |scan.units| && (scan.end == Refused(status) || scan.end == Undefined)
            case Ok((unit, next)) => k < |scan.units| && unit == scan.units[k] && next == positions[k + 1] > at
  {
    assert StepAt(b, base, contexts, scan, positions, k);
    var step := ParseOne(b, base, contexts, at);
    if step.Stop? {
      return Err(if step.end.Refused? then step.end.status else InvalidParameter);
    }
    return Ok((step.unit, step.at));
  }

  lemma ParsedAll(b: seq<byte>, base: nat, contexts: Contexts, scan: Scan, positions: seq<nat>, k: nat)
    requires Located(b, base, contexts, scan, positions) && k <= |scan.units| && positions[k] >= |b|
    ensures k == |scan.units| && scan.end == Finished
  {
    assert StepAt(b, base, contexts, scan, positions, k);
  }

  ghost predicate RenderedUnits(buffer: seq<byte>, offset: nat, commands: seq<Command>, nop: bool,
                                units: seq<Unit>, parts: seq<seq<byte>>, fences: nat -> u64, before: seq<byte>)
  {
    && Rendered(Output(buffer, offset, commands), AllOrders(units), parts, fences, before)
    && offset == UnitsDmaLen(units) && nop == HasNop(units)
  }

  lemma UnitSlice(units: seq<Unit>, k: nat)
    requires k < |units|
    ensures units[..k + 1] == units[..k] + [units[k]]
  {
  }

  /** Write one more command if it fits; otherwise leave the buffer alone. */
  method RenderNext(unit: Unit, dma: array<byte>, offset: nat, fences: nat -> u64, commands: seq<Command>, nop: bool,
                    ghost units: seq<Unit>, ghost units': seq<Unit>, ghost parts: seq<seq<byte>>,
                    ghost before: seq<byte>)
    returns (fits: bool, more: seq<Command>, written: nat, nop': bool, ghost parts': seq<seq<byte>>)
    requires RenderedUnits(dma[..], offset, commands, nop, units, parts, fences, before)
    requires units' == units + [unit]
    modifies dma
    ensures fits <==> UnitsDmaLen(units') <= dma.Length
    ensures if fits
            then RenderedUnits(dma[..], offset + written, more, nop', units', parts', fences, before)
            else dma[..] == old(dma[..]) && parts' == parts
  {
    UnitSnoc(units, unit);
    NopSnoc(units, unit);
    var needed := BodyDmaLen(unit.body);
    if needed > dma.Length - offset {
      return false, commands, 0, nop, parts;
    }
    more, written, parts' := RenderUnit(unit, dma, offset, fences, commands, AllOrders(units), parts, before);
    return true, more, written, nop || unit.body == NopBody, parts';
  }

  /** Why rendering stopped after `done` commands: the next one does not fit, or the stream ends there. */
  ghost predicate Stopped(scan: Scan, done: nat, room: nat, status: Status) {
    if done < |scan.units| then status == InsufficientDmaBuffer && UnitsDmaLen(scan.units[..done + 1]) > room
    else scan.end == Refused(status) || scan.end == Undefined
  }

  /**
   Render a whole stream.  The first `done` commands are in the buffer, their items one after the
   other from its start, and the rest of the buffer is untouched.  Rendering stops short of a command
   exactly when that command does not fit any more; otherwise it ends as the stream does.
   */
  method Render(command: seq<byte>, base: nat, contexts: Contexts, dma: array<byte>, fences: nat -> u64)
    returns (r: Result<seq<Command>>, ghost scan: Scan, ghost done: nat, ghost parts: seq<seq<byte>>)
    modifies dma
    ensures scan == ScanFrom(command, base, contexts, 0) && done <= |scan.units|
    ensures InBuffer(dma[..], AllOrders(scan.units[..done]), parts, fences, old(dma[..]))
    ensures UnitsDmaLen(scan.units[..done]) == |Flat(parts)| <= dma.Length
    ensures match r
            case Ok(commands) => done == |scan.units| && scan.end == Finished && commands == Commands(scan.units)
            case Err(status) => Stopped(scan, done, dma.Length, status)
  {
    scan := ScanFrom(command, base, contexts, 0);
    ghost var positions := Locate(command, base, contexts, 0);
    ghost var before := dma[..];
    var commands: seq<Command>, nop, at, offset: nat := [], false, 0, 0;
    done, parts := 0, [];
    assert scan.units[..0] == [];
    while at < |command|
      invariant done <= |scan.units| && at == positions[done]
      invariant RenderedUnits(dma[..], offset, commands, nop, scan.units[..done], parts, fences, before)
      decreases |command| - at
    {
      var parsed := ParseNext(command, base, contexts, at, scan, positions, done);
      if parsed.Err? {
        return Err(parsed.status), scan, done, parts;
      }
      UnitSlice(scan.units, done);
      var fits, written;
      fits, commands, written, nop, parts :=
        RenderNext(parsed.value.0, dma, offset, fences, commands, nop,
                   scan.units[..done], scan.units[..done + 1], parts, before);
      if !fits {
        return Err(InsufficientDmaBuffer), scan, done, parts;
      }
      at, offset := parsed.value.1, offset + written;
      done := done + 1;
    }
    ParsedAll(command, base, contexts, scan, positions, done);
    assert scan.units[..done] == scan.units;
    return Ok(if nop && commands == [] then [NopCommand] else commands), scan, done, parts;
  }

  lemma {:induction false} ScanEncodable(b: seq<byte>, base: nat, contexts: Contexts, at: nat, i: nat)
    requires i < |ScanFrom(b, base, contexts, at).units|
    ensures var body := ScanFrom(b, base, contexts, at).units[i].body;
            !body.FenceBody? && (body.SubmitBody? ==> |body.data| < 0x1_0000_0000)
    decreases |b| - at
  {
    if i > 0 {
      var step := ParseOne(b, base, contexts, at);
      ScanEncodable(b, base, contexts, step.at, i - 1);
    }
  }

  lemma {:induction false} OrderOfUnit(units: seq<Unit>, i: nat) returns (u: nat)
    requires i < |AllOrders(units)|
    ensures u < |units| && AllOrders(units)[i].item in Items(units[u].body)
  {
    var n := |units| - 1;
    if i < |AllOrders(units[..n])| {
      u := OrderOfUnit(units[..n], i);
    } else {
      u := n;
      var k := i - |AllOrders(units[..n])|;
      assert AllOrders(units)[i] == Orders(units[n])[k];
    }
  }

  lemma ScannedEncodable(b: seq<byte>, base: nat, contexts: Contexts, units: seq<Unit>, i: nat)
    requires units <= ScanFrom(b, base, contexts, 0).units && i < |AllOrders(units)|
    ensures Encodable(AllOrders(units)[i].item)
  {
    var u := OrderOfUnit(units, i);
    ScanEncodable(b, base, contexts, 0, u);
  }

  /** What is rendered is decoded again: region `i` of the buffer gives item `i` of the stream back. */
  lemma RenderingDecodes(b: seq<byte>, base: nat, contexts: Contexts, units: seq<Unit>, orders: seq<Order>,
                         buffer: seq<byte>, parts: seq<seq<byte>>, fences: nat -> u64, before: seq<byte>, i: nat)
    requires units <= ScanFrom(b, base, contexts, 0).units && orders == AllOrders(units)
    requires InBuffer(buffer, orders, parts, fences, before) && i < |orders|
    ensures var c := Regions(orders)[i];
            && c.DmaCommand? && c.offset == TotalLen(orders[..i]) && c.offset + c.length <= |buffer|
            && DecodeOrder(buffer[c.offset..c.offset + c.length]) == Some((orders[i], fences(i)))
  {
    ScannedEncodable(b, base, contexts, units, i);
    RegionDecodes(buffer, parts, orders, fences, before, i);
  }
}
