/**
 The monochrome cursor: an AND mask and a XOR mask become a colour image in place, in three sweeps.
 Inverted pixels cannot be shown, so they become white with a black outline.
 */
module MonoCursor {
  import opened LittleEndian

  const TRANSPARENT: u32 := 0x00000000
  const BLACK: u32 := 0xFF000000      // OPAQUE | BACKGROUND
  const WHITE: u32 := 0xFFFFFFFF      // OPAQUE | FOREGROUND
  const INVERTED: u32 := 0x80000000

  // ----- Pixels in memory ---------------------------------------------------------------------

  /** The stored form, in the order of its bytes. */
  datatype BGRA = BGRA(b: byte, r: byte, g: byte, a: byte)

  function FromU32(pix: u32): BGRA {
    BGRA(pix % 0x100, pix / 0x100 / 0x100 % 0x100, pix / 0x100 % 0x100, pix / 0x100 / 0x100 / 0x100)
  }

  function ToU32(p: BGRA): u32 {
    p.a * 0x100_0000 + p.r * 0x1_0000 + p.g * 0x100 + p.b
  }

  /** The four bytes of a little-endian colour value, as the format B8G8R8A8 has them. */
  function FormatBytes(pix: u32): seq<byte> {
    [pix % 0x100, pix / 0x100 % 0x100, pix / 0x100 / 0x100 % 0x100, pix / 0x100 / 0x100 / 0x100]
  }

  function StoredBytes(p: BGRA): seq<byte> {
    [p.b, p.r, p.g, p.a]
  }

  /** What is written is read back. */
  lemma PixelRoundTrip(pix: u32)
    ensures ToU32(FromU32(pix)) == pix
  {
    var q1 := pix / 0x100;
    var q2 := q1 / 0x100;
    assert pix == q1 * 0x100 + pix % 0x100 && q1 == q2 * 0x100 + q1 % 0x100 && q2 == q2 / 0x100 * 0x100 + q2 % 0x100;
  }

  /** The stored bytes are those of the surface format exactly when red and green are equal. */
  lemma StoredAsFormat(pix: u32)
    ensures StoredBytes(FromU32(pix)) == FormatBytes(pix) <==> FromU32(pix).r == FromU32(pix).g
  {
    var s, f := StoredBytes(FromU32(pix)), FormatBytes(pix);
    assert s[1] == FromU32(pix).r && f[1] == FromU32(pix).g;
  }

  lemma MonoColoursStoredAsFormat(pix: u32)
    requires pix in {TRANSPARENT, BLACK, WHITE, INVERTED}
    ensures StoredBytes(FromU32(pix)) == FormatBytes(pix)
  {
    StoredAsFormat(pix);
  }

  // ----- The masks ----------------------------------------------------------------------------

  /** The bit of pixel `k` of a byte, leftmost first. */
  function Bit(k: nat): bv8
    requires k < 8
  {
    match k
    case 0 => 0x80
    case 1 => 0x40
    case 2 => 0x20
    case 3 => 0x10
    case 4 => 0x08
    case 5 => 0x04
    case 6 => 0x02
    case 7 => 0x01
  }

  lemma NextBit(k: nat)
    requires k < 8
    ensures var shifted := Bit(k) >> 1;
            (if shifted == 0 then 0x80 else shifted) == Bit(if k == 7 then 0 else k + 1)
  {
  }

  /** Two masks of `h` rows of `stride` bytes, the AND mask first. */
  datatype Mask = Mask(bytes: seq<bv8>, stride: nat)

  function Width(m: Mask): nat {
    m.stride * 8
  }

  /** Integer division, by repeated subtraction. */
  function Quotient(n: nat, d: nat): (q: nat)
    requires d > 0
    ensures q * d <= n < q * d + d
  {
    if n < d then 0
    else
      var q := Quotient(n - d, d);
      assert (q + 1) * d == q * d + d;
      q + 1
  }

  function Height(m: Mask): nat
    requires m.stride > 0
  {
    Quotient(|m.bytes|, m.stride * 2)
  }

  /** Byte `x / 8` of row `y`. */
  function ByteIndex(m: Mask, x: nat, y: nat): nat {
    y * m.stride + x / 8
  }

  lemma RowsFit(stride: nat, h: nat, y: nat, size: nat)
    requires y < h && h * (stride * 2) <= size
    ensures y * stride + stride <= size / 2
  {
    assert h * (stride * 2) == (h * stride) * 2;
    assert (y + 1) * stride <= h * stride;
    assert (y + 1) * stride == y * stride + stride;
  }

  lemma ByteInRange(m: Mask, x: nat, y: nat)
    requires m.stride > 0 && x < Width(m) && y < Height(m)
    ensures ByteIndex(m, x, y) < |m.bytes| / 2
  {
    RowsFit(m.stride, Height(m), y, |m.bytes|);
  }

  function AndBit(m: Mask, x: nat, y: nat): bool {
    var i := ByteIndex(m, x, y);
    i < |m.bytes| / 2 && m.bytes[i] & Bit(x % 8) != 0
  }

  function XorBit(m: Mask, x: nat, y: nat): bool {
    var i := ByteIndex(m, x, y);
    i < |m.bytes| / 2 && m.bytes[|m.bytes| / 2 + i] & Bit(x % 8) != 0
  }

  /** Bit `k` of a byte, counted from the highest. */
  predicate Lit(b: bv8, k: nat)
    requires k < 8
  {
    (b >> (7 - k)) & 1 == 1
  }

  lemma BitIsLit(b: bv8, k: nat)
    requires k < 8
    ensures b & Bit(k) != 0 <==> Lit(b, k)
  {
  }

  lemma BitNumber(stride: nat, x: nat, y: nat, i: nat, k: nat)
    requires 8 * i + k == y * (8 * stride) + x && k < 8
    ensures i == y * stride + x / 8 && k == x % 8
  {
    var r := y * stride;
    assert y * (8 * stride) == 8 * r;
    assert 8 * (i - r - x / 8) == x % 8 - k;
  }

  lemma AndByte(m: Mask, x: nat, y: nat, i: nat, k: nat)
    requires i == ByteIndex(m, x, y) < |m.bytes| / 2 && k == x % 8
    ensures AndBit(m, x, y) <==> Lit(m.bytes[i], k)
  {
    BitIsLit(m.bytes[i], k);
  }

  lemma XorByte(m: Mask, x: nat, y: nat, i: nat, k: nat)
    requires i == ByteIndex(m, x, y) < |m.bytes| / 2 && k == x % 8
    ensures XorBit(m, x, y) <==> Lit(m.bytes[|m.bytes| / 2 + i], k)
  {
    BitIsLit(m.bytes[|m.bytes| / 2 + i], k);
  }

  /**
   The masks are read like text: the bits of a byte from the highest down, the bytes of a row in turn,
   the rows in turn, and all of the AND mask before the XOR mask.  Bit `k` of byte `i` is pixel (x, y).
   */
  lemma MaskBits(m: Mask, x: nat, y: nat, i: nat, k: nat)
    requires m.stride > 0 && x < 8 * m.stride && y < Height(m) && 8 * i + k == y * (8 * m.stride) + x && k < 8
    ensures i < |m.bytes| / 2
    ensures AndBit(m, x, y) <==> Lit(m.bytes[i], k)
    ensures XorBit(m, x, y) <==> Lit(m.bytes[|m.bytes| / 2 + i], k)
  {
    ByteInRange(m, x, y);
    BitNumber(m.stride, x, y, i, k);
    AndByte(m, x, y, i, k);
    XorByte(m, x, y, i, k);
  }

  function Colour(and: bool, xor: bool): u32 {
    if and then (if xor then INVERTED else TRANSPARENT)
    else if xor then WHITE else BLACK
  }

  /** What the masks say of a pixel. */
  function Masked(m: Mask, x: nat, y: nat): u32 {
    Colour(AndBit(m, x, y), XorBit(m, x, y))
  }

  predicate Inside(m: Mask, x: int, y: int) {
    m.stride > 0 && 0 <= x < Width(m) && 0 <= y < Height(m)
  }

  predicate IsInverted(m: Mask, x: int, y: int) {
    Inside(m, x, y) && Masked(m, x, y) == INVERTED
  }

  predicate TouchesInverted(m: Mask, x: int, y: int) {
    IsInverted(m, x - 1, y) || IsInverted(m, x + 1, y) || IsInverted(m, x, y - 1) || IsInverted(m, x, y + 1)
  }

  /** The specification: each pixel from the masks alone. */
  function Shown(m: Mask, x: nat, y: nat): u32 {
    if !Inside(m, x, y) then TRANSPARENT
    else if Masked(m, x, y) == INVERTED then WHITE
    else if Masked(m, x, y) == TRANSPARENT && TouchesInverted(m, x, y) then BLACK
    else Masked(m, x, y)
  }

  /** A pixel of the image over a black or white pixel of the screen: opaque ones hide it. */
  function Over(pix: u32, screen: bool): bool {
    if pix / 0x100_0000 == 0xFF then pix % 0x100_0000 == 0xFF_FFFF else screen
  }

  /**
   What a monochrome cursor is for: the screen is masked with the AND bit and then inverted where the
   XOR bit is set.  Away from inverted pixels the image does that to every screen.
   */
  lemma ShownAsMasksSay(m: Mask, x: nat, y: nat, screen: bool)
    requires Inside(m, x, y) && !(AndBit(m, x, y) && XorBit(m, x, y)) && !TouchesInverted(m, x, y)
    ensures Over(Shown(m, x, y), screen) == ((screen && AndBit(m, x, y)) != XorBit(m, x, y))
  {
  }

  /** An inverted pixel is white, and every transparent pixel beside one is black, so that it stands out. */
  lemma InvertedStandsOut(m: Mask, x: nat, y: nat, x': nat, y': nat, screen: bool)
    requires Inside(m, x, y) && AndBit(m, x, y) && XorBit(m, x, y)
    requires Inside(m, x', y') && AndBit(m, x', y') && !XorBit(m, x', y')
    requires (x == x' && (y == y' + 1 || y' == y + 1)) || (y == y' && (x == x' + 1 || x' == x + 1))
    ensures Over(Shown(m, x, y), screen) && !Over(Shown(m, x', y'), screen)
  {
    assert IsInverted(m, x, y) && Shown(m, x, y) == 0xFFFF_FFFF;
    OutlineBlack(m, x', y');
  }

  lemma OutlineBlack(m: Mask, x: nat, y: nat)
    requires Inside(m, x, y) && AndBit(m, x, y) && !XorBit(m, x, y) && TouchesInverted(m, x, y)
    ensures Shown(m, x, y) == 0xFF00_0000
  {
    assert Masked(m, x, y) == TRANSPARENT;
  }

  // ----- The surface --------------------------------------------------------------------------

  /** Pixel (x, y) of a surface `width` pixels wide. */
  function At(pixels: seq<u32>, width: nat, x: nat, y: nat): u32 {
    if x < width && y * width + x < |pixels| then pixels[y * width + x] else TRANSPARENT
  }

  lemma IndexInjective(width: nat, x: nat, y: nat, x': nat, y': nat)
    requires x < width && x' < width && y * width + x == y' * width + x'
    ensures x == x' && y == y'
  {
    assert y < y' ==> (y + 1) * width <= y' * width;
    assert y' < y ==> (y' + 1) * width <= y * width;
    assert (y + 1) * width == y * width + width && (y' + 1) * width == y' * width + width;
  }

  lemma IndexInRange(width: nat, height: nat, size: nat, x: nat, y: nat)
    requires x < width && y < height && width * height <= size
    ensures y * width + x < size
  {
    assert (y + 1) * width <= height * width;
    assert (y + 1) * width == y * width + width;
  }

  method SetPixel(pixels: array<u32>, width: nat, x: nat, y: nat, v: u32)
    requires x < width && y * width + x < pixels.Length
    modifies pixels
    ensures forall x': nat, y': nat ::
              At(pixels[..], width, x', y') == if x' == x && y' == y then v else old(At(pixels[..], width, x', y'))
  {
    pixels[y * width + x] := v;
    forall x': nat, y': nat
      ensures At(pixels[..], width, x', y') == if x' == x && y' == y then v else old(At(pixels[..], width, x', y'))
    {
      if x' < width && y' * width + x' == y * width + x {
        IndexInjective(width, x, y, x', y');
      }
    }
  }

  // ----- The sweeps ---------------------------------------------------------------------------

  /** Pixel (x', y') comes before (x, y) in a sweep. */
  predicate Before(x': nat, y': nat, x: nat, y: nat) {
    y' < y || (y' == y && x' < x)
  }

  /** After the second sweep: outlined, the inverted pixels still marked. */
  function Outlined(m: Mask, x: nat, y: nat): u32 {
    if Inside(m, x, y) && Masked(m, x, y) == TRANSPARENT && TouchesInverted(m, x, y) then BLACK
    else if Inside(m, x, y) then Masked(m, x, y) else TRANSPARENT
  }

  function MaskedOrClear(m: Mask, x: nat, y: nat): u32 {
    if Inside(m, x, y) then Masked(m, x, y) else TRANSPARENT
  }

  /** A sweep has come as far as (x, y): pixels before it are as `sweep` makes them, the others as before. */
  datatype Sweep = First | Second | Third

  function After(sweep: Sweep, m: Mask, x: nat, y: nat): u32 {
    match sweep
    case First => MaskedOrClear(m, x, y)
    case Second => Outlined(m, x, y)
    case Third => Shown(m, x, y)
  }

  function BeforeSweep(sweep: Sweep, m: Mask, x: nat, y: nat): u32 {
    match sweep
    case First => TRANSPARENT
    case Second => MaskedOrClear(m, x, y)
    case Third => Outlined(m, x, y)
  }

  predicate PixelSwept(sweep: Sweep, pixels: seq<u32>, width: nat, m: Mask, x: nat, y: nat, x': nat, y': nat) {
    x' < width ==>
      At(pixels, width, x', y') ==
      if Before(x', y', x, y) then After(sweep, m, x', y') else BeforeSweep(sweep, m, x', y')
  }

  ghost predicate SweptTo(sweep: Sweep, pixels: seq<u32>, width: nat, m: Mask, x: nat, y: nat) {
    forall x': nat, y': nat :: PixelSwept(sweep, pixels, width, m, x, y, x', y')
  }

  /** The surface is as the sweep leaves it. */
  ghost predicate Swept(sweep: Sweep, pixels: seq<u32>, width: nat, m: Mask) {
    forall x': nat, y': nat | x' < width :: At(pixels, width, x', y') == After(sweep, m, x', y')
  }

  predicate Fits(m: Mask, width: nat, height: nat, size: nat) {
    m.stride > 0 && Width(m) <= width && Height(m) <= height && width * height <= size
  }

  /** Setting pixel (x, y) as the sweep would takes it one pixel further. */
  lemma SweepPixel(sweep: Sweep, pixels: seq<u32>, pixels': seq<u32>, width: nat, m: Mask, x: nat, y: nat)
    requires SweptTo(sweep, pixels, width, m, x, y)
    requires forall x': nat, y': nat ::
               At(pixels', width, x', y') ==
               if x' == x && y' == y then After(sweep, m, x, y) else At(pixels, width, x', y')
    ensures SweptTo(sweep, pixels', width, m, x + 1, y)
  {
    var next := x + 1;
    forall x': nat, y': nat ensures PixelSwept(sweep, pixels', width, m, next, y, x', y') {
      assert PixelSwept(sweep, pixels, width, m, x, y, x', y');
    }
  }

  /** Past the masks a sweep changes nothing, so a row ends where the mask does. */
  lemma SweepRow(sweep: Sweep, pixels: seq<u32>, width: nat, m: Mask, y: nat)
    requires SweptTo(sweep, pixels, width, m, Width(m), y)
    ensures SweptTo(sweep, pixels, width, m, 0, y + 1)
  {
    var next := y + 1;
    forall x': nat, y': nat ensures PixelSwept(sweep, pixels, width, m, 0, next, x', y') {
      assert PixelSwept(sweep, pixels, width, m, Width(m), y, x', y');
    }
  }

  lemma SweepEnd(sweep: Sweep, pixels: seq<u32>, width: nat, m: Mask)
    requires m.stride > 0 && SweptTo(sweep, pixels, width, m, 0, Height(m))
    ensures Swept(sweep, pixels, width, m)
  {
    forall x': nat, y': nat | x' < width ensures At(pixels, width, x', y') == After(sweep, m, x', y') {
      assert PixelSwept(sweep, pixels, width, m, 0, Height(m), x', y');
    }
  }

  lemma SweepStart(sweep: Sweep, pixels: seq<u32>, width: nat, m: Mask)
    requires sweep == First ==> forall i | 0 <= i < |pixels| :: pixels[i] == TRANSPARENT
    requires sweep == Second ==> Swept(First, pixels, width, m)
    requires sweep == Third ==> Swept(Second, pixels, width, m)
    ensures SweptTo(sweep, pixels, width, m, 0, 0)
  {
  }

  method Clear(pixels: array<u32>)
    modifies pixels
    ensures forall i | 0 <= i < |pixels[..]| :: pixels[..][i] == TRANSPARENT
  {
    for i := 0 to pixels.Length
      invariant forall k | 0 <= k < i :: pixels[k] == TRANSPARENT
    {
      pixels[i] := TRANSPARENT;
    }
  }

  method ReadMasks(m: Mask, x: nat, y: nat, bit: bv8) returns (pix: u32)
    requires bit == Bit(x % 8) && ByteIndex(m, x, y) < |m.bytes| / 2
    ensures pix == Masked(m, x, y)
  {
    var i := ByteIndex(m, x, y);
    var and, xor := m.bytes[i] & bit != 0, m.bytes[|m.bytes| / 2 + i] & bit != 0;
    return Colour(and, xor);
  }

  /** Some pixel before (x, y) is inverted. */
  ghost predicate SeenInverted(m: Mask, x: nat, y: nat) {
    exists x': nat, y': nat :: IsInverted(m, x', y') && Before(x', y', x, y)
  }

  lemma SeenStep(m: Mask, x: nat, y: nat)
    ensures SeenInverted(m, x + 1, y) <==> SeenInverted(m, x, y) || IsInverted(m, x, y)
  {
    if IsInverted(m, x, y) {
      assert Before(x, y, x + 1, y);
    }
    if x': nat, y': nat :| IsInverted(m, x', y') && Before(x', y', x, y) {
      assert IsInverted(m, x', y') && Before(x', y', x + 1, y);
    }
    if x': nat, y': nat :| IsInverted(m, x', y') && Before(x', y', x + 1, y) {
      assert (x' == x && y' == y) || Before(x', y', x, y);
    }
  }

  lemma SeenRow(m: Mask, y: nat)
    ensures SeenInverted(m, 0, y + 1) <==> SeenInverted(m, Width(m), y)
  {
    if x': nat, y': nat :| IsInverted(m, x', y') && Before(x', y', 0, y + 1) {
      assert Before(x', y', Width(m), y);
    }
    if x': nat, y': nat :| IsInverted(m, x', y') && Before(x', y', Width(m), y) {
      assert Before(x', y', 0, y + 1);
    }
  }

  method ShiftBit(bit: bv8, x: nat) returns (next: bv8)
    requires bit == Bit(x % 8)
    ensures next == Bit((x + 1) % 8)
  {
    NextBit(x % 8);
    assert (x + 1) % 8 == if x % 8 == 7 then 0 else x % 8 + 1;
    next := bit >> 1;
    if next == 0 {
      next := 0x80;
    }
  }

  method FirstPixel(pixels: array<u32>, width: nat, height: nat, m: Mask, x: nat, y: nat, bit: bv8)
    returns (inverted: bool)
    requires Fits(m, width, height, pixels.Length) && Inside(m, x, y) && bit == Bit(x % 8)
    requires SweptTo(First, pixels[..], width, m, x, y)
    modifies pixels
    ensures SweptTo(First, pixels[..], width, m, x + 1, y) && inverted == IsInverted(m, x, y)
  {
    IndexInRange(width, height, pixels.Length, x, y);
    ByteInRange(m, x, y);
    var pix := ReadMasks(m, x, y, bit);
    ghost var before := pixels[..];
    SetPixel(pixels, width, x, y, pix);
    SweepPixel(First, before, pixels[..], width, m, x, y);
    return pix == INVERTED;
  }

  method FirstRow(pixels: array<u32>, width: nat, height: nat, m: Mask, y: nat, seen: bool) returns (hasInverted: bool)
    requires Fits(m, width, height, pixels.Length) && y < Height(m)
    requires SweptTo(First, pixels[..], width, m, 0, y) && seen == SeenInverted(m, 0, y)
    modifies pixels
    ensures SweptTo(First, pixels[..], width, m, 0, y + 1) && hasInverted == SeenInverted(m, 0, y + 1)
  {
    hasInverted := seen;
    var bit: bv8 := 0x80;
    for x := 0 to Width(m)
      invariant SweptTo(First, pixels[..], width, m, x, y)
      invariant bit == Bit(x % 8) && hasInverted == SeenInverted(m, x, y)
    {
      var inverted := FirstPixel(pixels, width, height, m, x, y, bit);
      SeenStep(m, x, y);
      hasInverted := hasInverted || inverted;
      bit := ShiftBit(bit, x);
    }
    SweepRow(First, pixels[..], width, m, y);
    SeenRow(m, y);
  }

  /** Draw the masks; say whether any pixel is inverted. */
  method FirstSweep(pixels: array<u32>, width: nat, height: nat, m: Mask) returns (hasInverted: bool)
    requires Fits(m, width, height, pixels.Length)
    modifies pixels
    ensures Swept(First, pixels[..], width, m) && hasInverted == SeenInverted(m, 0, Height(m))
  {
    Clear(pixels);
    hasInverted := false;
    SweepStart(First, pixels[..], width, m);
    for y := 0 to Height(m)
      invariant SweptTo(First, pixels[..], width, m, 0, y) && hasInverted == SeenInverted(m, 0, y)
    {
      hasInverted := FirstRow(pixels, width, height, m, y, hasInverted);
    }
    SweepEnd(First, pixels[..], width, m);
  }

  /** The test the second sweep makes of a neighbour. */
  predicate TestInverted(pixels: seq<u32>, width: nat, m: Mask, x: int, y: int) {
    Inside(m, x, y) && At(pixels, width, x, y) == INVERTED
  }

  /** In the middle of the second sweep a pixel still tells whether it is inverted. */
  lemma InvertedTold(pixels: seq<u32>, width: nat, m: Mask, x: nat, y: nat, x': int, y': int)
    requires SweptTo(Second, pixels, width, m, x, y) && Width(m) <= width
    ensures TestInverted(pixels, width, m, x', y') <==> IsInverted(m, x', y')
  {
    if Inside(m, x', y') {
      assert PixelSwept(Second, pixels, width, m, x, y, x', y');
    }
  }

  lemma NeighboursTold(pixels: seq<u32>, width: nat, m: Mask, x: nat, y: nat)
    requires SweptTo(Second, pixels, width, m, x, y) && Width(m) <= width
    ensures TouchesInverted(m, x, y) <==>
            || TestInverted(pixels, width, m, x - 1, y) || TestInverted(pixels, width, m, x + 1, y)
            || TestInverted(pixels, width, m, x, y - 1) || TestInverted(pixels, width, m, x, y + 1)
  {
    InvertedTold(pixels, width, m, x, y, x - 1, y);
    InvertedTold(pixels, width, m, x, y, x + 1, y);
    InvertedTold(pixels, width, m, x, y, x, y - 1);
    InvertedTold(pixels, width, m, x, y, x, y + 1);
  }

  method GetPixel(pixels: array<u32>, width: nat, height: nat, x: nat, y: nat) returns (v: u32)
    requires x < width && y < height && width * height <= pixels.Length
    ensures v == At(pixels[..], width, x, y)
  {
    IndexInRange(width, height, pixels.Length, x, y);
    return pixels[y * width + x];
  }

  method HasInvertedNeighbour(pixels: array<u32>, width: nat, height: nat, m: Mask, x: nat, y: nat) returns (b: bool)
    requires Fits(m, width, height, pixels.Length) && Inside(m, x, y)
    requires SweptTo(Second, pixels[..], width, m, x, y)
    ensures b == TouchesInverted(m, x, y)
  {
    NeighboursTold(pixels[..], width, m, x, y);
    var v: u32;
    if x > 0 {
      v := GetPixel(pixels, width, height, x - 1, y);
      if v == INVERTED { return true; }
    }
    if x + 1 < Width(m) {
      v := GetPixel(pixels, width, height, x + 1, y);
      if v == INVERTED { return true; }
    }
    if y > 0 {
      v := GetPixel(pixels, width, height, x, y - 1);
      if v == INVERTED { return true; }
    }
    if y + 1 < Height(m) {
      v := GetPixel(pixels, width, height, x, y + 1);
      if v == INVERTED { return true; }
    }
    return false;
  }

  /** Leaving a pixel alone is right when the sweep would not change it. */
  lemma SweepKeeps(sweep: Sweep, pixels: seq<u32>, width: nat, m: Mask, x: nat, y: nat)
    requires SweptTo(sweep, pixels, width, m, x, y) && After(sweep, m, x, y) == BeforeSweep(sweep, m, x, y)
    ensures SweptTo(sweep, pixels, width, m, x + 1, y)
  {
    var next := x + 1;
    forall x': nat, y': nat ensures PixelSwept(sweep, pixels, width, m, next, y, x', y') {
      assert PixelSwept(sweep, pixels, width, m, x, y, x', y');
    }
  }

  /** One pixel of the second sweep: a transparent pixel next to an inverted one becomes black. */
  method OutlinePixel(pixels: array<u32>, width: nat, height: nat, m: Mask, x: nat, y: nat)
    requires Fits(m, width, height, pixels.Length) && Inside(m, x, y)
    requires SweptTo(Second, pixels[..], width, m, x, y)
    modifies pixels
    ensures SweptTo(Second, pixels[..], width, m, x + 1, y)
  {
    var v := GetPixel(pixels, width, height, x, y);
    assert PixelSwept(Second, pixels[..], width, m, x, y, x, y);
    if v != TRANSPARENT {
      SweepKeeps(Second, pixels[..], width, m, x, y);
      return;
    }
    var touches := HasInvertedNeighbour(pixels, width, height, m, x, y);
    if touches {
      IndexInRange(width, height, pixels.Length, x, y);
      ghost var before := pixels[..];
      SetPixel(pixels, width, x, y, BLACK);
      SweepPixel(Second, before, pixels[..], width, m, x, y);
    } else {
      SweepKeeps(Second, pixels[..], width, m, x, y);
    }
  }

  /** One pixel of the third sweep: an inverted pixel becomes white. */
  method WhitenPixel(pixels: array<u32>, width: nat, height: nat, m: Mask, x: nat, y: nat)
    requires Fits(m, width, height, pixels.Length) && Inside(m, x, y)
    requires SweptTo(Third, pixels[..], width, m, x, y)
    modifies pixels
    ensures SweptTo(Third, pixels[..], width, m, x + 1, y)
  {
    var v := GetPixel(pixels, width, height, x, y);
    assert PixelSwept(Third, pixels[..], width, m, x, y, x, y);
    if v == INVERTED {
      IndexInRange(width, height, pixels.Length, x, y);
      ghost var before := pixels[..];
      SetPixel(pixels, width, x, y, WHITE);
      SweepPixel(Third, before, pixels[..], width, m, x, y);
    } else {
      SweepKeeps(Third, pixels[..], width, m, x, y);
    }
  }

  method SecondSweep(pixels: array<u32>, width: nat, height: nat, m: Mask)
    requires Fits(m, width, height, pixels.Length) && Swept(First, pixels[..], width, m)
    modifies pixels
    ensures Swept(Second, pixels[..], width, m)
  {
    SweepStart(Second, pixels[..], width, m);
    for y := 0 to Height(m)
      invariant SweptTo(Second, pixels[..], width, m, 0, y)
    {
      for x := 0 to Width(m)
        invariant SweptTo(Second, pixels[..], width, m, x, y)
      {
        OutlinePixel(pixels, width, height, m, x, y);
      }
      SweepRow(Second, pixels[..], width, m, y);
    }
    SweepEnd(Second, pixels[..], width, m);
  }

  method ThirdSweep(pixels: array<u32>, width: nat, height: nat, m: Mask)
    requires Fits(m, width, height, pixels.Length) && Swept(Second, pixels[..], width, m)
    modifies pixels
    ensures Swept(Third, pixels[..], width, m)
  {
    SweepStart(Third, pixels[..], width, m);
    for y := 0 to Height(m)
      invariant SweptTo(Third, pixels[..], width, m, 0, y)
    {
      for x := 0 to Width(m)
        invariant SweptTo(Third, pixels[..], width, m, x, y)
      {
        WhitenPixel(pixels, width, height, m, x, y);
      }
      SweepRow(Third, pixels[..], width, m, y);
    }
    SweepEnd(Third, pixels[..], width, m);
  }

  /** With nothing inverted the first sweep already shows every pixel. */
  lemma NothingInverted(pixels: seq<u32>, width: nat, m: Mask)
    requires m.stride > 0 && Swept(First, pixels, width, m) && !SeenInverted(m, 0, Height(m))
    ensures Swept(Third, pixels, width, m)
  {
    forall x: nat, y: nat ensures !IsInverted(m, x, y) {
      assert Inside(m, x, y) ==> Before(x, y, 0, Height(m));
    }
    forall x: nat, y: nat | x < width ensures At(pixels, width, x, y) == Shown(m, x, y) {
      assert At(pixels, width, x, y) == After(First, m, x, y);
      assert !IsInverted(m, x, y);
      NoneTouches(m, x, y);
    }
  }

  lemma NoneTouches(m: Mask, x: nat, y: nat)
    requires m.stride > 0 && forall x': nat, y': nat :: !IsInverted(m, x', y')
    ensures !TouchesInverted(m, x, y)
  {
    assert x > 0 ==> !IsInverted(m, x - 1, y);
    assert y > 0 ==> !IsInverted(m, x, y - 1);
  }

  /** The whole conversion: every pixel of the surface is what the masks alone say it should be. */
  method WriteMono(pixels: array<u32>, width: nat, height: nat, m: Mask)
    requires Fits(m, width, height, pixels.Length)
    modifies pixels
    ensures forall x: nat, y: nat | x < width :: At(pixels[..], width, x, y) == Shown(m, x, y)
  {
    var hasInverted := FirstSweep(pixels, width, height, m);
    if hasInverted {
      SecondSweep(pixels, width, height, m);
      ThirdSweep(pixels, width, height, m);
    } else {
      NothingInverted(pixels[..], width, m);
    }
    assert Swept(Third, pixels[..], width, m);
  }
}
