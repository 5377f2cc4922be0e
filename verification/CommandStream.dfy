/**
 The command stream as the user-mode driver lays it out, and what parsing makes of it: a header of
 eight bytes for each command, then its data or its transfers.
 */
module CommandStream {
  import opened Collections
  import opened LittleEndian
  import opened CommandCodec
  import opened Rendering

  /** What a user command asks for; nobody looks at what follows the header of a no-op. */
  datatype Content =
    | Nothing(filler: seq<byte>)
    | Data(data: seq<byte>)
    | Upload(transfers: seq<Transfer>)
    | Download(transfers: seq<Transfer>)

  /** The ring counts only with `useRing`; `useShadow` selects the shadow virgl context. */
  datatype UserCommand = UserCommand(content: Content, ring: byte, useRing: bool, useShadow: bool)

  // ----- The layout ---------------------------------------------------------------------------

  function TransferBytes(t: Transfer): (b: seq<byte>)
    ensures |b| == 48
  {
    Bytes4(t.resId) + Bytes4(t.stride) + Bytes8(t.offset) + Bytes4(t.level) + Bytes4(t.layerStride) +
    Bytes4(t.box.x) + Bytes4(t.box.y) + Bytes4(t.box.z) +
    Bytes4(t.box.width) + Bytes4(t.box.height) + Bytes4(t.box.depth)
  }

  function TransferParts(ts: seq<Transfer>): (parts: seq<seq<byte>>)
    ensures |parts| == |ts|
    ensures forall i | 0 <= i < |ts| :: parts[i] == TransferBytes(ts[i]) && |parts[i]| == 48
  {
    seq(|ts|, i requires 0 <= i < |ts| => TransferBytes(ts[i]))
  }

  function ContentBytes(c: Content): seq<byte> {
    match c
    case Nothing(filler) => filler
    case Data(data) => data
    case Upload(ts) => Flat(TransferParts(ts))
    case Download(ts) => Flat(TransferParts(ts))
  }

  /** Sizes have 32 bits. */
  predicate Fits(c: UserCommand) {
    |ContentBytes(c.content)| < 0x1_0000_0000
  }

  function IdByte(c: Content): byte {
    match c
    case Nothing(_) => 0
    case Data(_) => 1
    case Upload(_) => 2
    case Download(_) => 3
  }

  function FlagByte(c: UserCommand): byte {
    (if c.useRing then 1 else 0) + (if c.useShadow then 2 else 0)
  }

  function CommandBytes(c: UserCommand): (b: seq<byte>)
    requires Fits(c)
    ensures |b| == 8 + |ContentBytes(c.content)|
  {
    [IdByte(c.content), 0, FlagByte(c), c.ring] + Bytes4(|ContentBytes(c.content)|) + ContentBytes(c.content)
  }

  function CommandParts(commands: seq<UserCommand>): (parts: seq<seq<byte>>)
    requires forall i | 0 <= i < |commands| :: Fits(commands[i])
    ensures |parts| == |commands|
    ensures forall i | 0 <= i < |commands| :: parts[i] == CommandBytes(commands[i])
  {
    seq(|commands|, i requires 0 <= i < |commands| => CommandBytes(commands[i]))
  }

  function StreamBytes(commands: seq<UserCommand>): seq<byte>
    requires forall i | 0 <= i < |commands| :: Fits(commands[i])
  {
    Flat(CommandParts(commands))
  }

  // ----- What the commands mean ---------------------------------------------------------------

  function Context(c: UserCommand, contexts: Contexts): Option<u32> {
    if c.useShadow then contexts.shadowVirgl else contexts.main
  }

  function TargetOf(c: UserCommand, context: u32): Target {
    Target(context, if c.useRing then Some(c.ring) else None)
  }

  function BodyOf(c: Content): Body {
    match c
    case Nothing(_) => NopBody
    case Data(data) => SubmitBody(data)
    case Upload(ts) => ToHostBody(ts)
    case Download(ts) => FromHostBody(ts)
  }

  /** Where a command takes the scan that finds it before position `next`. */
  function Outcome(c: UserCommand, contexts: Contexts, next: nat): Step {
    if c.content.Data? && contexts.main == None then Stop(Undefined)
    else
      match Context(c, contexts)
      case None => Stop(Refused(ReinitializationNeeded))
      case Some(context) => Next(Unit(BodyOf(c.content), TargetOf(c, context)), next)
  }

  predicate Served(c: UserCommand, contexts: Contexts) {
    Context(c, contexts).Some? && (c.content.Data? ==> contexts.main.Some?)
  }

  function Meaning(c: UserCommand, contexts: Contexts): Unit
    requires Served(c, contexts)
  {
    Unit(BodyOf(c.content), TargetOf(c, Context(c, contexts).value))
  }

  /** All commands up to the first whose context does not exist. */
  function Expected(commands: seq<UserCommand>, contexts: Contexts): Scan {
    if commands == [] then Scan([], Finished)
    else
      match Outcome(commands[0], contexts, 0)
      case Stop(end) => Scan([], end)
      case Next(unit, _) =>
        var rest := Expected(commands[1..], contexts);
        Scan([unit] + rest.units, rest.end)
  }

  // ----- Parsing gives the commands back ------------------------------------------------------

  lemma ReadWithin8(b: seq<byte>, at: nat, e: seq<byte>, i: nat, n: u64)
    requires at + |e| <= |b| && b[at..at + |e|] == e
    requires i + 8 <= |e| && e[i..i + 8] == Bytes8(n)
    ensures Read8(b, at + i) == n
  {
    var part, field := b[at..at + |e|], b[at + i..at + i + 8];
    forall k | 0 <= k < 8 ensures field[k] == Bytes8(n)[k] {
      assert field[k] == b[at + (i + k)] == part[i + k] == e[i..i + 8][k];
    }
    assert field == Bytes8(n);
    Read8Bytes8(b, at + i, n);
  }

  /** The fields of a transfer lie where the struct has them. */
  lemma TransferFields(t: Transfer)
    ensures var e := TransferBytes(t);
            && e[0..4] == Bytes4(t.resId) && e[4..8] == Bytes4(t.stride) && e[8..16] == Bytes8(t.offset)
            && e[16..20] == Bytes4(t.level) && e[20..24] == Bytes4(t.layerStride) && e[24..48] == EncodeBox(t.box)
  {
    var front := Bytes4(t.resId) + Bytes4(t.stride) + Bytes8(t.offset) + Bytes4(t.level) + Bytes4(t.layerStride);
    assert TransferBytes(t) == front + EncodeBox(t.box);
  }

  lemma TransferRead(b: seq<byte>, at: nat, t: Transfer)
    requires at + 48 <= |b| && b[at..at + 48] == TransferBytes(t)
    ensures ReadTransfer(b, at) == t
  {
    var e := TransferBytes(t);
    TransferFields(t);
    ReadWithin(b, at, e, 0, t.resId);
    ReadWithin(b, at, e, 4, t.stride);
    ReadWithin8(b, at, e, 8, t.offset);
    ReadWithin(b, at, e, 16, t.level);
    ReadWithin(b, at, e, 20, t.layerStride);
    assert b[at + 24..at + 48] == b[at..at + 48][24..48];
    BoxRoundTrip(t.box, b, at + 24);
  }

  /** A part of a part. */
  lemma Inner(b: seq<byte>, at: nat, len: nat, i: nat, j: nat)
    requires at + len <= |b| && i <= j <= len
    ensures b[at..at + len][i..j] == b[at + i..at + j]
  {
    var part := b[at..at + len];
    forall k | 0 <= k < j - i ensures part[i..j][k] == b[at + i..at + j][k] {
      assert part[i + k] == b[at + (i + k)];
    }
  }

  lemma Split(b: seq<byte>, i: nat, j: nat, k: nat)
    requires i <= j <= k <= |b|
    ensures b[i..k] == b[i..j] + b[j..k]
  {
  }

  lemma Whole(n: nat)
    ensures 48 * n % 48 == 0 && 48 * n / 48 == n
  {
  }

  lemma {:induction false} Lengths(parts: seq<seq<byte>>, i: nat)
    requires i <= |parts| && forall k | 0 <= k < |parts| :: |parts[k]| == 48
    ensures |Flat(parts[..i])| == 48 * i
  {
    if i > 0 {
      Lengths(parts, i - 1);
      assert parts[..i][..i - 1] == parts[..i - 1];
    }
  }

  /** Part `i` of 48 bytes each lies at `48 * i`. */
  lemma PartAt(b: seq<byte>, at: nat, parts: seq<seq<byte>>, i: nat)
    requires i < |parts| && forall k | 0 <= k < |parts| :: |parts[k]| == 48
    requires at + |Flat(parts)| <= |b| && b[at..at + |Flat(parts)|] == Flat(parts)
    ensures at + 48 * i + 48 <= |b| && b[at + 48 * i..at + 48 * i + 48] == parts[i]
  {
    Lengths(parts, i);
    FlatAt(parts, i);
    Inner(b, at, |Flat(parts)|, 48 * i, 48 * i + 48);
  }

  lemma TransfersRead(b: seq<byte>, at: nat, ts: seq<Transfer>)
    requires at + |Flat(TransferParts(ts))| <= |b| && b[at..at + |Flat(TransferParts(ts))|] == Flat(TransferParts(ts))
    ensures |Flat(TransferParts(ts))| == 48 * |ts| && ReadTransfers(b, at, |ts|) == ts
  {
    var parts := TransferParts(ts);
    Lengths(parts, |ts|);
    assert parts[..|ts|] == parts;
    forall i: nat | i < |ts| ensures ReadTransfers(b, at, |ts|)[i] == ts[i] {
      PartAt(b, at, parts, i);
      TransferRead(b, at + 48 * i, ts[i]);
    }
  }

  lemma HeaderRead(b: seq<byte>, at: nat, c: UserCommand)
    requires Fits(c) && at + |CommandBytes(c)| <= |b| && b[at..at + |CommandBytes(c)|] == CommandBytes(c)
    ensures Decode(b[at..at + 2]) == IdByte(c.content) && b[at + 2] == FlagByte(c) && b[at + 3] == c.ring
    ensures Read4(b, at + 4) == |ContentBytes(c.content)|
    ensures b[at + 8..at + |CommandBytes(c)|] == ContentBytes(c.content)
  {
    var e, n: u32 := CommandBytes(c), |ContentBytes(c.content)|;
    var part := b[at..at + |e|];
    assert part[0] == b[at] && part[1] == b[at + 1] && part[2] == b[at + 2] && part[3] == b[at + 3];
    assert b[at..at + 2] == [IdByte(c.content), 0];
    assert [IdByte(c.content), 0][1..] == [0] && [0][1..] == [];
    assert Decode([0]) == 0;
    assert e[4..8] == Bytes4(n);
    ReadWithin(b, at, e, 4, n);
    assert b[at + 8..at + |e|] == part[8..] == e[8..];
  }

  lemma BodyRead(b: seq<byte>, base: nat, at: nat, c: Content)
    requires at + |ContentBytes(c)| <= |b| && b[at..at + |ContentBytes(c)|] == ContentBytes(c)
    ensures ParseBody(b, base, IdByte(c), at, |ContentBytes(c)|) == Is(BodyOf(c))
  {
    match c
    case Upload(ts) =>
      Whole(|ts|);
      TransfersRead(b, at, ts);
    case Download(ts) =>
      Whole(|ts|);
      TransfersRead(b, at, ts);
    case _ =>
  }

  /** A command found in a stream is parsed as what it is, for the context and ring its flags select. */
  lemma CommandParsed(b: seq<byte>, base: nat, contexts: Contexts, at: nat, c: UserCommand)
    requires Fits(c) && at + |CommandBytes(c)| <= |b| && b[at..at + |CommandBytes(c)|] == CommandBytes(c)
    ensures ParseOne(b, base, contexts, at) == Outcome(c, contexts, at + |CommandBytes(c)|)
  {
    HeaderRead(b, at, c);
    BodyRead(b, base, at + 8, c.content);
  }

  /** Positions at which the commands are parsed, one leading to the next. */
  ghost predicate ParsedAt(b: seq<byte>, base: nat, contexts: Contexts, commands: seq<UserCommand>,
                           at: seq<nat>, i: nat) {
    && |at| == |commands| + 1 && i < |commands| && at[i] < |b|
    && ParseOne(b, base, contexts, at[i]) == Outcome(commands[i], contexts, at[i + 1])
  }

  lemma {:induction false} ScanReads(b: seq<byte>, base: nat, contexts: Contexts, commands: seq<UserCommand>,
                                     at: seq<nat>, i: nat)
    requires i <= |commands| && |at| == |commands| + 1 && at[|commands|] == |b|
    requires forall k: nat | k < |commands| :: ParsedAt(b, base, contexts, commands, at, k)
    ensures ScanFrom(b, base, contexts, at[i]) == Expected(commands[i..], contexts)
    decreases |commands| - i
  {
    if i < |commands| {
      assert ParsedAt(b, base, contexts, commands, at, i);
      ScanReads(b, base, contexts, commands, at, i + 1);
      assert commands[i..][0] == commands[i] && commands[i..][1..] == commands[i + 1..];
    }
  }

  lemma FlatNext(parts: seq<seq<byte>>, i: nat)
    requires i < |parts|
    ensures |Flat(parts[..i + 1])| == |Flat(parts[..i])| + |parts[i]| <= |Flat(parts)|
    ensures Flat(parts)[|Flat(parts[..i])|..|Flat(parts[..i])| + |parts[i]|] == parts[i]
  {
    FlatAt(parts, i);
    assert parts[..i + 1][..i] == parts[..i];
  }

  /** Command `i` of a stream is parsed where the commands before it end. */
  lemma StreamParsed(commands: seq<UserCommand>, base: nat, contexts: Contexts, i: nat)
    requires i < |commands| && forall k | 0 <= k < |commands| :: Fits(commands[k])
    ensures var parts := CommandParts(commands);
            && |Flat(parts[..i])| < |Flat(parts)|
            && ParseOne(Flat(parts), base, contexts, |Flat(parts[..i])|) ==
               Outcome(commands[i], contexts, |Flat(parts[..i + 1])|)
  {
    var parts := CommandParts(commands);
    FlatNext(parts, i);
    CommandParsed(Flat(parts), base, contexts, |Flat(parts[..i])|, commands[i]);
  }

  lemma {:induction false} ExpectedServed(commands: seq<UserCommand>, contexts: Contexts)
    requires forall i | 0 <= i < |commands| :: Served(commands[i], contexts)
    ensures Expected(commands, contexts).end == Finished && |Expected(commands, contexts).units| == |commands|
    ensures forall i | 0 <= i < |commands| :: Expected(commands, contexts).units[i] == Meaning(commands[i], contexts)
  {
    if commands != [] {
      var rest := Expected(commands[1..], contexts);
      ExpectedServed(commands[1..], contexts);
      forall i | 0 <= i < |commands|
        ensures Expected(commands, contexts).units[i] == Meaning(commands[i], contexts)
      {
        if i > 0 {
          assert rest.units[i - 1] == Meaning(commands[1..][i - 1], contexts);
        }
      }
    }
  }

  /**
   Scanning the bytes of any list of commands gives exactly those commands, each for the context and
   ring its flags select, up to the first whose context does not exist; if all exist, to the end.
   */
  lemma StreamRoundTrip(commands: seq<UserCommand>, base: nat, contexts: Contexts)
    requires forall i | 0 <= i < |commands| :: Fits(commands[i])
    ensures var scan := ScanFrom(StreamBytes(commands), base, contexts, 0);
            && scan == Expected(commands, contexts)
            && ((forall i | 0 <= i < |commands| :: Served(commands[i], contexts)) ==>
                  && scan.end == Finished && |scan.units| == |commands|
                  && forall i | 0 <= i < |commands| :: scan.units[i] == Meaning(commands[i], contexts))
  {
    var parts, n := CommandParts(commands), |commands|;
    var at := seq(n + 1, i requires 0 <= i <= n => |Flat(parts[..i])|);
    forall i: nat | i < n ensures ParsedAt(Flat(parts), base, contexts, commands, at, i) {
      StreamParsed(commands, base, contexts, i);
    }
    assert parts[..n] == parts && commands[0..] == commands;
    ScanReads(Flat(parts), base, contexts, commands, at, 0);
    if forall i | 0 <= i < |commands| :: Served(commands[i], contexts) {
      ExpectedServed(commands, contexts);
    }
  }

  // ----- Nothing else is accepted -------------------------------------------------------------

  lemma LowByte(x: byte, y: nat)
    ensures (x + 0x100 * y) % 0x100 == x && (x + 0x100 * y) / 0x100 == y
  {
  }

  lemma {:induction false} DecodeEncode(b: seq<byte>)
    ensures Encode(Decode(b), |b|) == b
  {
    if b != [] {
      DecodeEncode(b[1..]);
      LowByte(b[0], Decode(b[1..]));
      assert b == [b[0]] + b[1..];
    }
  }

  lemma WriteRead4(b: seq<byte>, at: nat)
    requires at + 4 <= |b|
    ensures Bytes4(Read4(b, at)) == b[at..at + 4]
  {
    var part := b[at..at + 4];
    assert |part| == 4;
    DecodeEncode(part);
  }

  lemma WriteRead8(b: seq<byte>, at: nat)
    requires at + 8 <= |b|
    ensures Bytes8(Read8(b, at)) == b[at..at + 8]
  {
    var part := b[at..at + 8];
    assert |part| == 8;
    DecodeEncode(part);
  }

  lemma BoxWritten(b: seq<byte>, at: nat, box: Box3D)
    requires at + 24 <= |b|
    requires box == Box3D(Read4(b, at), Read4(b, at + 4), Read4(b, at + 8),
                          Read4(b, at + 12), Read4(b, at + 16), Read4(b, at + 20))
    ensures EncodeBox(box) == b[at..at + 24]
  {
    WriteRead4(b, at);
    WriteRead4(b, at + 4);
    WriteRead4(b, at + 8);
    WriteRead4(b, at + 12);
    WriteRead4(b, at + 16);
    WriteRead4(b, at + 20);
    var half := Bytes4(box.x) + Bytes4(box.y) + Bytes4(box.z);
    var rest := Bytes4(box.width) + Bytes4(box.height) + Bytes4(box.depth);
    assert half == b[at..at + 12] && rest == b[at + 12..at + 24];
    Split(b, at, at + 12, at + 24);
    assert EncodeBox(box) == half + rest;
  }

  lemma FivePieces(b: seq<byte>, at: nat)
    requires at + 24 <= |b|
    ensures b[at..at + 24] ==
            b[at..at + 4] + b[at + 4..at + 8] + b[at + 8..at + 16] + b[at + 16..at + 20] + b[at + 20..at + 24]
  {
    Split(b, at, at + 20, at + 24);
    Split(b, at, at + 16, at + 20);
    Split(b, at, at + 8, at + 16);
    Split(b, at, at + 4, at + 8);
  }

  lemma TransferWritten(b: seq<byte>, at: nat)
    requires at + 48 <= |b|
    ensures TransferBytes(ReadTransfer(b, at)) == b[at..at + 48]
  {
    var t := ReadTransfer(b, at);
    WriteRead4(b, at);
    WriteRead4(b, at + 4);
    WriteRead8(b, at + 8);
    WriteRead4(b, at + 16);
    WriteRead4(b, at + 20);
    BoxWritten(b, at + 24, t.box);
    var front := Bytes4(t.resId) + Bytes4(t.stride) + Bytes8(t.offset) + Bytes4(t.level) + Bytes4(t.layerStride);
    FivePieces(b, at);
    assert TransferBytes(t) == front + EncodeBox(t.box);
    Split(b, at, at + 24, at + 48);
  }

  /** Parts of 48 bytes each, taken from a stretch of bytes, make it up. */
  lemma {:induction false} PartsMakeUp(b: seq<byte>, at: nat, parts: seq<seq<byte>>, n: nat)
    requires n <= |parts| && at + 48 * |parts| <= |b|
    requires forall i | 0 <= i < |parts| :: parts[i] == b[at + 48 * i..at + 48 * i + 48]
    ensures Flat(parts[..n]) == b[at..at + 48 * n]
  {
    if n > 0 {
      PartsMakeUp(b, at, parts, n - 1);
      assert parts[..n][..n - 1] == parts[..n - 1];
      Split(b, at, at + 48 * (n - 1), at + 48 * n);
    }
  }

  lemma TransfersWritten(b: seq<byte>, at: nat, n: nat)
    requires at + 48 * n <= |b|
    ensures Flat(TransferParts(ReadTransfers(b, at, n))) == b[at..at + 48 * n]
  {
    var parts := TransferParts(ReadTransfers(b, at, n));
    forall i: nat | i < n ensures parts[i] == b[at + 48 * i..at + 48 * i + 48] {
      TransferWritten(b, at + 48 * i);
    }
    PartsMakeUp(b, at, parts, n);
    assert parts[..n] == parts;
  }

  /** The content that was parsed, with the bytes of a no-op that nobody looked at. */
  function ContentAt(body: Body, bytes: seq<byte>): Content
    requires !body.FenceBody?
  {
    match body
    case NopBody => Nothing(bytes)
    case SubmitBody(data) => Data(data)
    case ToHostBody(ts) => Upload(ts)
    case FromHostBody(ts) => Download(ts)
  }

  /** A body of transfers, `n` of them. */
  lemma TransferBody(b: seq<byte>, base: nat, id: nat, at: nat, size: nat, n: nat)
    requires size == 48 * n && at + size <= |b| && (id == 2 || id == 3)
    ensures var ts := ReadTransfers(b, at, n);
            ParseBody(b, base, id, at, size) == Is(if id == 2 then ToHostBody(ts) else FromHostBody(ts))
  {
    Whole(n);
  }

  lemma PlainBody(b: seq<byte>, base: nat, id: nat, at: nat, size: nat)
    requires at + size <= |b| && id <= 1
    ensures ParseBody(b, base, id, at, size) == Is(if id == 0 then NopBody else SubmitBody(b[at..at + size]))
  {
  }

  lemma WellFormedWhole(base: nat, id: nat, at: nat, size: nat) returns (n: nat)
    requires WellFormed(base, id, at, size) && (id == 2 || id == 3)
    ensures size == 48 * n
  {
    n := size / 48;
  }

  lemma BodyWritten(b: seq<byte>, base: nat, id: nat, at: nat, size: nat, body: Body)
    requires at + size <= |b| && id <= 4 && ParseBody(b, base, id, at, size) == Is(body) && !body.FenceBody?
    ensures IdByte(ContentAt(body, b[at..at + size])) == id
    ensures ContentBytes(ContentAt(body, b[at..at + size])) == b[at..at + size]
  {
    if id == 2 || id == 3 {
      var n := WellFormedWhole(base, id, at, size);
      TransferBody(b, base, id, at, size, n);
      TransfersWritten(b, at, n);
    } else {
      PlainBody(b, base, id, at, size);
    }
  }

  /** The command whose bytes lie from `at` to `next`. */
  function CommandAt(b: seq<byte>, at: nat, unit: Unit, next: nat): UserCommand
    requires at + 8 <= next <= |b| && !unit.body.FenceBody?
  {
    UserCommand(ContentAt(unit.body, b[at + 8..next]), b[at + 3], b[at + 2] % 2 == 1, b[at + 2] / 2 % 2 == 1)
  }

  lemma HeaderSplit(b: seq<byte>, at: nat, next: nat)
    requires at + 8 <= next <= |b|
    ensures b[at..next] == [b[at], b[at + 1], b[at + 2], b[at + 3]] + b[at + 4..at + 8] + b[at + 8..next]
  {
    Split(b, at, at + 4, next);
    Split(b, at + 4, at + 8, next);
  }

  /** Two bytes that are read as a small id. */
  lemma IdBytes(b: seq<byte>, id: nat)
    requires |b| == 2 && Decode(b) == id < 0x100
    ensures b == [id, 0]
  {
    assert b[1..] == [b[1]] && [b[1]][1..] == [];
    assert Decode([b[1]]) == b[1];
  }

  /** A header and the bytes after it are those of the command they were read as. */
  lemma CommandWritten(b: seq<byte>, at: nat, next: nat, c: UserCommand)
    requires at + 8 <= next <= |b| && Read4(b, at + 4) == next - (at + 8)
    requires Decode(b[at..at + 2]) == IdByte(c.content) && b[at + 2] == FlagByte(c) && b[at + 3] == c.ring
    requires ContentBytes(c.content) == b[at + 8..next]
    ensures Fits(c) && CommandBytes(c) == b[at..next]
  {
    IdBytes(b[at..at + 2], IdByte(c.content));
    assert b[at] == b[at..at + 2][0] && b[at + 1] == b[at..at + 2][1];
    WriteRead4(b, at + 4);
    HeaderSplit(b, at, next);
  }

  /** Whatever parsing accepts is the bytes of a user command, and it is accepted as that command. */
  lemma AcceptedIsCommand(b: seq<byte>, base: nat, contexts: Contexts, at: nat)
    requires at < |b| && ParseOne(b, base, contexts, at).Next? && ParseOne(b, base, contexts, at).at <= |b|
    ensures var step := ParseOne(b, base, contexts, at);
            && at + 8 <= step.at
            && var c := CommandAt(b, at, step.unit, step.at);
            && Fits(c) && CommandBytes(c) == b[at..step.at]
            && Served(c, contexts) && step.unit == Meaning(c, contexts)
  {
    var step := ParseOne(b, base, contexts, at);
    var id, size := Decode(b[at..at + 2]), Read4(b, at + 4);
    BodyWritten(b, base, id, at + 8, size, step.unit.body);
    var c := CommandAt(b, at, step.unit, step.at);
    CommandWritten(b, at, step.at, c);
  }

  /** Fences are for other contexts: a well-formed one is refused, whatever comes before or after it. */
  lemma FenceRefused(b: seq<byte>, base: nat, contexts: Contexts, at: nat)
    requires at + 16 <= |b| && b[at] == 4 && b[at + 1] == 0 && b[at + 2] < 4
    requires b[at + 4..at + 8] == [8, 0, 0, 0] && (base + at) % 8 == 0
    ensures ParseOne(b, base, contexts, at) == Stop(Refused(InvalidHandle))
  {
    assert b[at..at + 2] == [4, 0] && [4, 0][1..] == [0] && [0][1..] == [];
    assert Decode([0]) == 0;
    assert Encode(0, 1) == [0] && Encode(0, 2) == [0, 0] && Encode(0, 3) == [0, 0, 0];
    assert b[at + 4..at + 8] == Bytes4(8);
    Read4Bytes4(b, at + 4, 8);
  }

  // ----- From the stream to the device --------------------------------------------------------

  function ItemCount(c: Content): nat {
    match c
    case Nothing(_) => 0
    case Data(_) => 1
    case Upload(ts) => |ts|
    case Download(ts) => |ts|
  }

  /** What the device is to be told for item `i`: to take the data, or to move bytes up or down. */
  function Asked(c: Content, i: nat): Item
    requires i < ItemCount(c)
  {
    match c
    case Data(data) => Submit(data)
    case Upload(ts) => ToHost(ts[i])
    case Download(ts) => FromHost(ts[i])
  }

  function OrderFor(c: UserCommand, contexts: Contexts, i: nat): Order
    requires Served(c, contexts) && i < ItemCount(c.content)
  {
    Order(Asked(c.content, i), TargetOf(c, Context(c, contexts).value))
  }

  lemma OrderAsked(c: UserCommand, contexts: Contexts, i: nat)
    requires Served(c, contexts) && i < ItemCount(c.content)
    ensures i < |Orders(Meaning(c, contexts))| && Orders(Meaning(c, contexts))[i] == OrderFor(c, contexts, i)
  {
  }

  lemma {:induction false} OrdersPrefix(units: seq<Unit>, j: nat)
    requires j < |units|
    ensures AllOrders(units[..j]) + Orders(units[j]) <= AllOrders(units)
  {
    var n := |units| - 1;
    if j < n {
      OrdersPrefix(units[..n], j);
      assert units[..n][..j] == units[..j];
    } else {
      assert units[..j] == units[..n];
    }
  }

  lemma PrefixAt(a: seq<Order>, b: seq<Order>, whole: seq<Order>, i: nat)
    requires a + b <= whole && i < |b|
    ensures |a| + i < |whole| && whole[|a| + i] == b[i]
  {
    assert whole[|a| + i] == (a + b)[|a| + i];
  }

  /** The orders of unit `j` follow those of the units before it. */
  lemma OrdersOfUnit(units: seq<Unit>, j: nat, i: nat, k: nat)
    requires j < |units| && i < |Orders(units[j])| && k == |AllOrders(units[..j])| + i
    ensures k < |AllOrders(units)| && AllOrders(units)[k] == Orders(units[j])[i]
  {
    OrdersPrefix(units, j);
    PrefixAt(AllOrders(units[..j]), Orders(units[j]), AllOrders(units), i);
  }

  /** DMA region `k` of the buffer decodes to the order, with that fence. */
  ghost predicate RegionGives(buffer: seq<byte>, orders: seq<Order>, k: nat, o: Order, fence: u64) {
    && k < |orders|
    && var c := Regions(orders)[k];
    && c.DmaCommand? && c.offset + c.length <= |buffer| && c.ring == o.target.ring
    && c.kind == (if o.item.ToHost? then 0x0205 else if o.item.FromHost? then 0x0206 else 0x0207)
    && DecodeOrder(buffer[c.offset..c.offset + c.length]) == Some((o, fence))
  }

  lemma OrderReachesDevice(b: seq<byte>, base: nat, contexts: Contexts, units: seq<Unit>, orders: seq<Order>,
                           buffer: seq<byte>, parts: seq<seq<byte>>, fences: nat -> u64, before: seq<byte>, k: nat)
    requires units <= ScanFrom(b, base, contexts, 0).units && orders == AllOrders(units)
    requires InBuffer(buffer, orders, parts, fences, before) && k < |orders|
    ensures RegionGives(buffer, orders, k, orders[k], fences(k))
  {
    RenderingDecodes(b, base, contexts, units, orders, buffer, parts, fences, before, k);
    RegionPlace(orders, k);
  }

  predicate Bare(u: Unit) {
    |Orders(u)| == 0
  }

  lemma {:induction false} NoOrders(units: seq<Unit>)
    requires forall i | 0 <= i < |units| :: Bare(units[i])
    ensures AllOrders(units) == []
  {
    if units != [] {
      NoOrders(units[..|units| - 1]);
      assert Bare(units[|units| - 1]);
    }
  }

  lemma SomeOrder(units: seq<Unit>, j: nat)
    requires j < |units| && !Bare(units[j])
    ensures AllOrders(units) != []
  {
    OrdersOfUnit(units, j, 0, |AllOrders(units[..j])|);
  }

  /** A command has a no-op's meaning, or no items, as its content has. */
  lemma MeaningBare(c: UserCommand, contexts: Contexts)
    requires Served(c, contexts)
    ensures Meaning(c, contexts).body == NopBody <==> c.content.Nothing?
    ensures Bare(Meaning(c, contexts)) <==> ItemCount(c.content) == 0
  {
  }

  lemma NopCommands(units: seq<Unit>)
    ensures Commands(units) == [NopCommand] <==> AllOrders(units) == [] && HasNop(units)
    ensures Commands(units) != [NopCommand] ==> Commands(units) == Regions(AllOrders(units))
  {
    if AllOrders(units) != [] {
      RegionPlace(AllOrders(units), 0);
    }
  }

  /** Unit by unit, the units are the meanings of the commands. */
  ghost predicate Mean(commands: seq<UserCommand>, contexts: Contexts, units: seq<Unit>) {
    && |units| == |commands|
    && forall k | 0 <= k < |commands| :: Served(commands[k], contexts) && units[k] == Meaning(commands[k], contexts)
  }

  lemma MeanBare(commands: seq<UserCommand>, contexts: Contexts, units: seq<Unit>)
    requires Mean(commands, contexts, units)
    ensures AllOrders(units) == [] <==> forall k | 0 <= k < |commands| :: ItemCount(commands[k].content) == 0
  {
    forall k | 0 <= k < |commands| ensures Bare(units[k]) <==> ItemCount(commands[k].content) == 0 {
      MeaningBare(commands[k], contexts);
    }
    if j: nat :| j < |units| && !Bare(units[j]) {
      SomeOrder(units, j);
    } else {
      NoOrders(units);
    }
  }

  lemma MeanNop(commands: seq<UserCommand>, contexts: Contexts, units: seq<Unit>)
    requires Mean(commands, contexts, units)
    ensures HasNop(units) <==> exists k | 0 <= k < |commands| :: commands[k].content.Nothing?
  {
    forall k | 0 <= k < |commands| ensures units[k].body == NopBody <==> commands[k].content.Nothing? {
      MeaningBare(commands[k], contexts);
    }
  }

  /**
   A stream of served commands becomes a single no-op exactly when it has a no-op and no command in it
   has any item; otherwise it becomes the DMA commands of its items.
   */
  lemma NopExactly(commands: seq<UserCommand>, contexts: Contexts, units: seq<Unit>)
    requires Mean(commands, contexts, units)
    ensures Commands(units) == [NopCommand] <==>
              && (exists k | 0 <= k < |commands| :: commands[k].content.Nothing?)
              && (forall k | 0 <= k < |commands| :: ItemCount(commands[k].content) == 0)
    ensures Commands(units) != [NopCommand] ==> Commands(units) == Regions(AllOrders(units))
  {
    NopCommands(units);
    MeanBare(commands, contexts, units);
    MeanNop(commands, contexts, units);
  }

  lemma ScannedMeaning(commands: seq<UserCommand>, base: nat, contexts: Contexts, units: seq<Unit>, j: nat)
    requires forall k | 0 <= k < |commands| :: Fits(commands[k]) && Served(commands[k], contexts)
    requires units <= ScanFrom(StreamBytes(commands), base, contexts, 0).units && j < |units|
    ensures j < |commands| && Served(commands[j], contexts) && units[j] == Meaning(commands[j], contexts)
  {
    StreamRoundTrip(commands, base, contexts);
  }

  /**
   From the user's bytes to the device: with the first commands of a stream rendered, the DMA region of
   item `i` of command `j` decodes to what that command asked for, for the context and ring it named.
   */
  lemma UserItemReachesDevice(commands: seq<UserCommand>, base: nat, contexts: Contexts, units: seq<Unit>,
                              orders: seq<Order>, buffer: seq<byte>, parts: seq<seq<byte>>, fences: nat -> u64,
                              before: seq<byte>, j: nat, i: nat, k: nat)
    requires forall k | 0 <= k < |commands| :: Fits(commands[k]) && Served(commands[k], contexts)
    requires units <= ScanFrom(StreamBytes(commands), base, contexts, 0).units && orders == AllOrders(units)
    requires InBuffer(buffer, orders, parts, fences, before)
    requires j < |units| && j < |commands| && i < ItemCount(commands[j].content) && k == |AllOrders(units[..j])| + i
    ensures Served(commands[j], contexts)
    ensures RegionGives(buffer, orders, k, OrderFor(commands[j], contexts, i), fences(k))
  {
    ScannedMeaning(commands, base, contexts, units, j);
    OrderAsked(commands[j], contexts, i);
    OrdersOfUnit(units, j, i, k);
    OrderReachesDevice(StreamBytes(commands), base, contexts, units, orders, buffer, parts, fences, before, k);
  }
}
