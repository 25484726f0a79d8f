/** Turning captured pixels into RGB: where each pixel lies, its value, and its rounded components. */
module Capture {
  import opened Prelude
  import opened Bytes
  import opened Bits
  import opened Blocks

  // ----- one component -----

  function Maximum(mask: nat): (m: nat)
    requires mask > 0
    ensures m > 0
  {
    OddPart(mask);
    ShiftRight(mask, TrailingZeros(mask))
  }

  /** What the code accepts as a color mask; the sum overflows for a mask of 32 ones. */
  predicate MaskOk(mask: nat) {
    mask > 0 && Maximum(mask) < U32_MAX && IsPowerOfTwo(Maximum(mask) + 1)
  }

  function Field(pixel: nat, mask: nat): nat
    requires mask > 0
  {
    ShiftRight(And(pixel, mask), TrailingZeros(mask))
  }

  function Scaled(value: nat, maximum: nat): nat
    requires maximum > 0
  {
    (value * 255 + maximum / 2) / maximum
  }

  /** `component`. */
  function Component(pixel: nat, mask: nat): (r: Option<Byte>) {
    if !MaskOk(mask) then None
    else
      var scaled := Scaled(Field(pixel, mask), Maximum(mask));
      if scaled > 255 then None else Some(scaled)
  }

  /** The mask is one run of ones. */
  ghost predicate IsRun(mask: nat, shift: nat, width: nat) {
    forall j: nat :: Bit(mask, j) <==> shift <= j < shift + width
  }

  lemma MaximumIsOnes(mask: nat)
    requires MaskOk(mask)
    ensures Maximum(mask) == Ones(Width(Maximum(mask))) && Maximum(mask) % 2 == 1
  {
    OddPart(mask);
    PowerLessOne(Maximum(mask));
  }

  lemma MaskIsRun(mask: nat)
    requires MaskOk(mask)
    ensures IsRun(mask, TrailingZeros(mask), Width(Maximum(mask)))
  {
    var shift, width := TrailingZeros(mask), Width(Maximum(mask));
    MaximumIsOnes(mask);
    forall j: nat ensures Bit(mask, j) <==> shift <= j < shift + width {
      if j < shift {
        LowestBit(mask, j);
      } else {
        BitShifted(mask, shift, j - shift);
        OnesBits(width, j - shift);
      }
    }
  }

  lemma FieldBit(pixel: nat, mask: nat, j: nat)
    requires MaskOk(mask)
    ensures Bit(Field(pixel, mask), j) <==> j < Width(Maximum(mask)) && Bit(pixel, TrailingZeros(mask) + j)
  {
    var shift, maximum := TrailingZeros(mask), Maximum(mask);
    MaximumIsOnes(mask);
    ShiftAnd(pixel, mask, shift);
    BitAnd(ShiftRight(pixel, shift), maximum, j);
    BitShifted(pixel, shift, j);
    OnesBits(Width(maximum), j);
  }

  lemma FieldAtMost(pixel: nat, mask: nat)
    requires MaskOk(mask)
    ensures Field(pixel, mask) <= Maximum(mask)
  {
    ShiftAnd(pixel, mask, TrailingZeros(mask));
    AndAtMost(ShiftRight(pixel, TrailingZeros(mask)), Maximum(mask));
  }

  /** The field is the pixel's bits under the mask, moved down. */
  lemma FieldMeans(pixel: nat, mask: nat)
    requires MaskOk(mask)
    ensures IsRun(mask, TrailingZeros(mask), Width(Maximum(mask)))
    ensures Field(pixel, mask) <= Maximum(mask) && Maximum(mask) % 2 == 1
    ensures forall j: nat :: Bit(Field(pixel, mask), j) <==> j < Width(Maximum(mask)) && Bit(pixel, TrailingZeros(mask) + j)
  {
    MaskIsRun(mask);
    FieldAtMost(pixel, mask);
    MaximumIsOnes(mask);
    forall j: nat ensures Bit(Field(pixel, mask), j) <==> j < Width(Maximum(mask)) && Bit(pixel, TrailingZeros(mask) + j) {
      FieldBit(pixel, mask, j);
    }
  }

  lemma RunIsOnes(mask: nat, shift: nat, width: nat)
    requires mask > 0 && IsRun(mask, shift, width)
    ensures TrailingZeros(mask) == shift && Maximum(mask) == Ones(width)
  {
    var zeros := TrailingZeros(mask);
    LowestBit(mask, zeros);
    LowestBit(mask, shift);
    forall j: nat ensures Bit(Maximum(mask), j) == Bit(Ones(width), j) {
      BitShifted(mask, zeros, j);
      OnesBits(width, j);
    }
    SameBits(Maximum(mask), Ones(width));
  }

  /** The masks accepted are the nonempty runs of ones, except 32 ones. */
  lemma MaskExactly(mask: nat)
    requires mask <= U32_MAX
    ensures MaskOk(mask) <==> 0 < mask < U32_MAX && exists shift, width :: IsRun(mask, shift, width)
  {
    if MaskOk(mask) {
      MaskIsRun(mask);
    } else if 0 < mask < U32_MAX && exists shift, width :: IsRun(mask, shift, width) {
      var shift, width :| IsRun(mask, shift, width);
      RunIsOnes(mask, shift, width);
      OnesThenPower(width);
      ShiftShrinks(mask, shift);
    }
  }

  function Distance(r: int, value: nat, maximum: nat): nat {
    if r * maximum >= 255 * value then r * maximum - 255 * value else 255 * value - r * maximum
  }

  lemma Times(a: int, b: int, p: nat)
    requires a <= b
    ensures a * p <= b * p
  {
  }

  /** Division, in a form that needs none: the quotient is the one multiple that fits. */
  lemma DivIs(a: nat, p: nat, q: nat)
    requires p > 0
    ensures a / p == q <==> q * p <= a < (q + 1) * p
  {
    var d := a / p;
    assert d * p <= a < (d + 1) * p;
    if q * p <= a < (q + 1) * p && d != q {
      if d < q {
        Times(d + 1, q, p);
      } else {
        Times(q + 1, d, p);
      }
      assert false;
    }
  }

  /** No other integer comes as close as one within half a step. */
  lemma CloserThanOthers(value: nat, maximum: nat, h: nat, r: nat, q: int)
    requires maximum == 2 * h + 1 && r * maximum <= value * 255 + h < (r + 1) * maximum && q != r
    ensures Distance(r, value, maximum) < Distance(q, value, maximum)
  {
    assert (r + 1) * maximum == r * maximum + maximum;
    if q > r {
      Times(r + 1, q, maximum);
    } else {
      Times(q, r - 1, maximum);
      assert (r - 1) * maximum == r * maximum - maximum;
    }
  }

  /** The one integer nearest to 255 * value / maximum. */
  lemma ScaledIsNearest(value: nat, maximum: nat, q: int)
    requires value <= maximum && maximum % 2 == 1
    ensures 0 <= Scaled(value, maximum) <= 255
    ensures q != Scaled(value, maximum) ==> Distance(Scaled(value, maximum), value, maximum) < Distance(q, value, maximum)
  {
    var r, h := Scaled(value, maximum), maximum / 2;
    DivIs(value * 255 + h, maximum, r);
    if r >= 256 {
      Times(256, r, maximum);
    }
    if q != r {
      CloserThanOthers(value, maximum, h, r, q);
    }
  }

  lemma ScaledEnds(maximum: nat)
    requires maximum > 0
    ensures Scaled(0, maximum) == 0 && Scaled(maximum, maximum) == 255
  {
    DivIs(maximum / 2, maximum, 0);
    DivIs(maximum * 255 + maximum / 2, maximum, 255);
  }

  lemma ScaledIsMonotone(v: nat, w: nat, maximum: nat)
    requires v <= w && maximum > 0
    ensures Scaled(v, maximum) <= Scaled(w, maximum)
  {
    var r, s := Scaled(v, maximum), Scaled(w, maximum);
    DivIs(v * 255 + maximum / 2, maximum, r);
    DivIs(w * 255 + maximum / 2, maximum, s);
    if r > s {
      Times(s + 1, r, maximum);
    }
  }

  /** Eight bits pass through unchanged. */
  lemma EightBitsAreExact(value: nat)
    requires value <= 255
    ensures Scaled(value, 255) == value
  {
    DivIs(value * 255 + 127, 255, value);
  }

  /** Conversion fails exactly on a bad mask. */
  lemma ComponentExactly(pixel: nat, mask: nat)
    ensures Component(pixel, mask).Some? <==> MaskOk(mask)
    ensures MaskOk(mask) ==> Component(pixel, mask) == Some(Scaled(Field(pixel, mask), Maximum(mask)))
  {
    if MaskOk(mask) {
      FieldAtMost(pixel, mask);
      MaximumIsOnes(mask);
      ScaledIsNearest(Field(pixel, mask), Maximum(mask), 0);
    }
  }

  // ----- pixels -----

  function LittleEndian(b: seq<Byte>): nat {
    if b == [] then 0 else b[0] as nat + 256 * LittleEndian(b[1..])
  }

  lemma Weight(last: Byte, p: nat)
    ensures 256 * (last * p) == last * (256 * p)
  {
  }

  lemma {:induction false} LittleEndianSnoc(b: seq<Byte>, last: Byte)
    ensures LittleEndian(b + [last]) == LittleEndian(b) + last * Power256(|b|)
  {
    if b == [] {
      assert (b + [last])[1..] == [];
    } else {
      assert (b + [last])[1..] == b[1..] + [last];
      LittleEndianSnoc(b[1..], last);
      Weight(last, Power256(|b| - 1));
    }
  }

  lemma {:induction false} LittleEndianFits(b: seq<Byte>)
    ensures LittleEndian(b) < Power256(|b|)
  {
    if b != [] {
      LittleEndianFits(b[1..]);
    }
  }

  lemma {:induction false} BytePowers(n: nat)
    ensures Power(8 * n) == Power256(n)
  {
    if n > 0 {
      BytePowers(n - 1);
      PowerAdd(8, 8 * (n - 1));
      assert Power(8) == 256;
    }
  }

  function PixelValue(b: seq<Byte>, leastFirst: bool): nat {
    if leastFirst then LittleEndian(b) else FromBigEndian(b)
  }

  /** `value | byte << (index * 8)`, where the byte lies above the value. */
  lemma CombineAbove(b: seq<Byte>, i: nat)
    requires i < |b|
    ensures Or(LittleEndian(b[..i]), b[i] * Power(8 * i)) == LittleEndian(b[..i + 1])
  {
    assert b[..i + 1] == b[..i] + [b[i]];
    LittleEndianSnoc(b[..i], b[i]);
    LittleEndianFits(b[..i]);
    AddAbove(LittleEndian(b[..i]), b[i], i);
  }

  lemma AddAbove(value: nat, last: Byte, i: nat)
    requires value < Power256(i)
    ensures Or(value, last * Power(8 * i)) == value + last * Power256(i)
  {
    BytePowers(i);
    OrShifted(last, value, 8 * i);
    OrSymmetric(value, last * Power(8 * i));
  }

  /** `(value << 8) | byte`. */
  lemma CombineBelow(b: seq<Byte>, i: nat)
    requires i < |b|
    ensures Or(FromBigEndian(b[..i]) * Power(8), b[i]) == FromBigEndian(b[..i + 1])
  {
    assert b[..i + 1][..i] == b[..i];
    assert Power(8) == 256;
    OrShifted(FromBigEndian(b[..i]), b[i], 8);
  }

  /** `pixel_value`: shifting and combining bytes. */
  method ReadPixel(b: seq<Byte>, leastFirst: bool) returns (value: nat)
    ensures value == PixelValue(b, leastFirst)
  {
    value := 0;
    for i := 0 to |b|
      invariant value == PixelValue(b[..i], leastFirst)
    {
      if leastFirst {
        CombineAbove(b, i);
        value := Or(value, b[i] * Power(8 * i));
      } else {
        CombineBelow(b, i);
        value := Or(value * Power(8), b[i]);
      }
    }
    assert b[..|b|] == b;
  }

  // ----- the picture -----

  datatype Failure = NoDepth | UnexpectedLength | UnsupportedMask

  datatype Result = Rgb(samples: seq<Byte>) | Failed(failure: Failure)

  datatype RawCapture = RawCapture(
    width: nat, height: nat, depth: nat, bitsPerPixel: nat, scanlinePad: nat, leastFirst: bool,
    red: nat, green: nat, blue: nat, data: seq<Byte>)

  /** What reading the image has already established. */
  predicate Admitted(c: RawCapture) {
    && 0 < c.width <= U16_MAX && 0 < c.height <= U16_MAX
    && (c.bitsPerPixel == 16 || c.bitsPerPixel == 24 || c.bitsPerPixel == 32)
    && 0 < c.scanlinePad <= 255 && c.scanlinePad % 8 == 0
  }

  function CeilingDiv(a: nat, p: nat): nat
    requires p > 0
  {
    if a % p == 0 then a / p else a / p + 1
  }

  function PixelBytes(c: RawCapture): nat {
    c.bitsPerPixel / 8
  }

  /** Bytes from one row to the next. */
  function Stride(c: RawCapture): nat
    requires Admitted(c)
  {
    CeilingDiv(c.width * c.bitsPerPixel, c.scanlinePad) * c.scanlinePad / 8
  }

  lemma CeilingDivMeans(a: nat, p: nat)
    requires p > 0
    ensures a <= CeilingDiv(a, p) * p < a + p
  {
    assert a == (a / p) * p + a % p;
    assert (a / p + 1) * p == (a / p) * p + p;
  }

  /** The least whole number of padding units that holds a row; nothing overflows a 64-bit size. */
  lemma StrideMeans(c: RawCapture)
    requires Admitted(c)
    ensures c.width * PixelBytes(c) <= Stride(c) && Stride(c) * 8 < c.width * c.bitsPerPixel + c.scanlinePad
    ensures Stride(c) * 8 % c.scanlinePad == 0 && Stride(c) > 0
    ensures Stride(c) * c.height <= U64_MAX
  {
    var bits := c.width * c.bitsPerPixel;
    CeilingDivMeans(bits, c.scanlinePad);
    RowBits(c);
    UnitsHoldRow(CeilingDiv(bits, c.scanlinePad), bits, c.scanlinePad, c.width * PixelBytes(c));
    MultipleOf(CeilingDiv(bits, c.scanlinePad), c.scanlinePad);
    Times(Stride(c), 0x10_0000, c.height);
  }

  lemma RowBits(c: RawCapture)
    requires Admitted(c)
    ensures c.width * c.bitsPerPixel == 8 * (c.width * PixelBytes(c))
    ensures 0 < c.width * PixelBytes(c) <= 4 * U16_MAX
  {
  }

  lemma UnitsHoldRow(units: nat, bits: nat, pad: nat, row: nat)
    requires bits == 8 * row && bits <= units * pad < bits + pad && pad % 8 == 0 && 0 < row <= 4 * U16_MAX && pad <= 255
    ensures units * pad / 8 * 8 == units * pad && row <= units * pad / 8 < 0x10_0000
  {
    Eighths(units, pad);
  }

  lemma Eighths(units: nat, pad: nat)
    requires pad % 8 == 0
    ensures units * pad / 8 * 8 == units * pad
  {
    assert pad == 8 * (pad / 8);
    assert units * pad == 8 * (units * (pad / 8));
  }

  lemma MultipleOf(units: nat, pad: nat)
    requires pad > 0
    ensures units * pad % pad == 0
  {
    DivIs(units * pad, pad, units);
    assert (units + 1) * pad == units * pad + pad;
  }

  predicate LengthOk(c: RawCapture)
    requires Admitted(c)
  {
    Stride(c) * c.height <= |c.data| <= Stride(c) * c.height + 3
  }

  predicate MasksOk(c: RawCapture) {
    MaskOk(c.red) && MaskOk(c.green) && MaskOk(c.blue)
  }

  // ----- rows of pixels -----

  /** Pixels of `size` bytes, rows `stride` bytes apart. */
  datatype Layout = Layout(width: nat, height: nat, size: nat, stride: nat)

  predicate Holds(l: Layout, data: seq<Byte>) {
    Start(l.size, l.width) <= l.stride && Start(l.stride, l.height) <= |data|
  }

  /** A pixel's bytes lie within its own row, whatever padding the rows have. */
  function PixelBytesAt(l: Layout, data: seq<Byte>, row: nat, column: nat): (b: seq<Byte>)
    requires Holds(l, data) && row < l.height && column < l.width
    ensures |b| == l.size
  {
    StartInside(l.stride, row, l.height);
    StartInside(l.size, column, l.width);
    var at := Start(l.stride, row) + Start(l.size, column);
    data[at..at + l.size]
  }

  datatype Color = Color(red: Byte, green: Byte, blue: Byte)

  function Samples(c: Color): (s: seq<Byte>)
    ensures |s| == 3
  {
    [c.red, c.green, c.blue]
  }

  /** How one pixel's bytes become a color. */
  type Converter = seq<Byte> -> Color

  /** The samples of each of the first pixels of a row. */
  function LineBlocks(l: Layout, data: seq<Byte>, f: Converter, row: nat, columns: nat): (s: seq<seq<Byte>>)
    requires Holds(l, data) && row < l.height && columns <= l.width
    ensures |s| == columns && AllOfSize(s, 3)
  {
    var s := seq(columns, i requires 0 <= i < columns => Samples(f(PixelBytesAt(l, data, row, i))));
    assert forall i :: 0 <= i < columns ==> s[i] == Samples(f(PixelBytesAt(l, data, row, i)));
    s
  }

  function Line(l: Layout, data: seq<Byte>, f: Converter, row: nat, columns: nat): (s: seq<Byte>)
    requires Holds(l, data) && row < l.height && columns <= l.width
    ensures |s| == 3 * columns
  {
    JoinedSize(LineBlocks(l, data, f, row, columns), 3);
    StartIsProduct(3, columns);
    Joined(LineBlocks(l, data, f, row, columns))
  }

  function PictureBlocks(l: Layout, data: seq<Byte>, f: Converter, rows: nat): (s: seq<seq<Byte>>)
    requires Holds(l, data) && rows <= l.height
    ensures |s| == rows && AllOfSize(s, 3 * l.width)
  {
    seq(rows, i requires 0 <= i < rows => Line(l, data, f, i, l.width))
  }

  function Picture(l: Layout, data: seq<Byte>, f: Converter, rows: nat): (s: seq<Byte>)
    requires Holds(l, data) && rows <= l.height
  {
    Joined(PictureBlocks(l, data, f, rows))
  }

  /** Every pixel's three samples stand in their place in the picture. */
  lemma PixelInPicture(l: Layout, data: seq<Byte>, f: Converter, row: nat, column: nat)
    requires Holds(l, data) && row < l.height && column < l.width
    ensures var at := Start(3 * l.width, row) + 3 * column;
            && at + 3 <= |Picture(l, data, f, l.height)|
            && Picture(l, data, f, l.height)[at..at + 3] == Samples(f(PixelBytesAt(l, data, row, column)))
  {
    var rows, pixels := PictureBlocks(l, data, f, l.height), LineBlocks(l, data, f, row, l.width);
    JoinedAt(rows, 3 * l.width, row);
    JoinedAt(pixels, 3, column);
    StartIsProduct(3, column);
    var at := Start(3 * l.width, row);
    Reslice(Joined(rows), at, at + 3 * l.width, 3 * column, 3 * column + 3);
  }

  // ----- the conversion -----

  function LayoutOf(c: RawCapture): (l: Layout)
    requires Admitted(c) && LengthOk(c)
    ensures Holds(l, c.data)
  {
    StrideMeans(c);
    StartIsProduct(Stride(c), c.height);
    StartIsProduct(PixelBytes(c), c.width);
    Layout(c.width, c.height, PixelBytes(c), Stride(c))
  }

  /** The sample a channel of a pixel becomes: the value of its own bits, scaled to the nearest byte. */
  function Sample(pixel: nat, mask: nat): Byte
    requires MaskOk(mask)
  {
    FieldAtMost(pixel, mask);
    MaximumIsOnes(mask);
    ScaledIsNearest(Field(pixel, mask), Maximum(mask), 0);
    Scaled(Field(pixel, mask), Maximum(mask))
  }

  function ColorOf(c: RawCapture, pixel: nat): Color
    requires MasksOk(c)
  {
    Color(Sample(pixel, c.red), Sample(pixel, c.green), Sample(pixel, c.blue))
  }

  function ConverterOf(c: RawCapture): (f: Converter)
    requires MasksOk(c)
  {
    b => ColorOf(c, PixelValue(b, c.leastFirst))
  }

  function PixelAt(c: RawCapture, row: nat, column: nat): nat
    requires Admitted(c) && LengthOk(c) && row < c.height && column < c.width
  {
    PixelValue(PixelBytesAt(LayoutOf(c), c.data, row, column), c.leastFirst)
  }

  /** The whole output, pixel by pixel. */
  ghost predicate Exact(c: RawCapture, samples: seq<Byte>)
    requires Admitted(c) && LengthOk(c) && MasksOk(c)
  {
    && |samples| == 3 * (c.height * c.width)
    && forall row: nat, column: nat :: row < c.height && column < c.width ==> PixelExact(c, samples, row, column)
  }

  ghost predicate PixelExact(c: RawCapture, samples: seq<Byte>, row: nat, column: nat)
    requires Admitted(c) && LengthOk(c) && MasksOk(c) && row < c.height && column < c.width
  {
    var at := 3 * (row * c.width + column);
    at + 3 <= |samples| && samples[at..at + 3] == Samples(ColorOf(c, PixelAt(c, row, column)))
  }

  function PictureOf(c: RawCapture): seq<Byte>
    requires Admitted(c) && LengthOk(c) && MasksOk(c)
  {
    Picture(LayoutOf(c), c.data, ConverterOf(c), c.height)
  }

  lemma PictureSize(c: RawCapture)
    requires Admitted(c) && LengthOk(c) && MasksOk(c)
    ensures |PictureOf(c)| == 3 * (c.height * c.width)
  {
    JoinedSize(PictureBlocks(LayoutOf(c), c.data, ConverterOf(c), c.height), 3 * c.width);
    StartIsProduct(3 * c.width, c.height);
    Thrice(c.height, c.width, 0);
  }

  lemma PictureIsExactAt(c: RawCapture, row: nat, column: nat)
    requires Admitted(c) && LengthOk(c) && MasksOk(c) && row < c.height && column < c.width
    ensures PixelExact(c, PictureOf(c), row, column)
  {
    PixelInPicture(LayoutOf(c), c.data, ConverterOf(c), row, column);
    StartIsProduct(3 * c.width, row);
    Thrice(row, c.width, column);
  }

  lemma PictureIsExact(c: RawCapture)
    requires Admitted(c) && LengthOk(c) && MasksOk(c)
    ensures Exact(c, PictureOf(c))
  {
    PictureSize(c);
    forall row: nat, column: nat | row < c.height && column < c.width ensures PixelExact(c, PictureOf(c), row, column) {
      PictureIsExactAt(c, row, column);
    }
  }

  lemma Thrice(row: nat, width: nat, column: nat)
    ensures row * (3 * width) + 3 * column == 3 * (row * width + column)
  {
  }

  method ConvertPixel(c: RawCapture, bytes: seq<Byte>) returns (r: Option<seq<Byte>>)
    ensures r.Some? <==> MasksOk(c)
    ensures r.Some? ==> r.value == Samples(ConverterOf(c)(bytes))
  {
    var value := ReadPixel(bytes, c.leastFirst);
    ComponentExactly(value, c.red);
    ComponentExactly(value, c.green);
    ComponentExactly(value, c.blue);
    var red, green, blue := Component(value, c.red), Component(value, c.green), Component(value, c.blue);
    if red.None? || green.None? || blue.None? {
      return None;
    }
    r := Some([red.value, green.value, blue.value]);
  }

  lemma LineNext(l: Layout, data: seq<Byte>, f: Converter, row: nat, columns: nat)
    requires Holds(l, data) && row < l.height && columns < l.width
    ensures Line(l, data, f, row, columns + 1) == Line(l, data, f, row, columns) + Samples(f(PixelBytesAt(l, data, row, columns)))
  {
    var blocks, next := LineBlocks(l, data, f, row, columns), Samples(f(PixelBytesAt(l, data, row, columns)));
    JoinedSnoc(blocks, next);
    assert LineBlocks(l, data, f, row, columns + 1) == blocks + [next];
  }

  lemma PictureNext(l: Layout, data: seq<Byte>, f: Converter, rows: nat)
    requires Holds(l, data) && rows < l.height
    ensures Picture(l, data, f, rows + 1) == Picture(l, data, f, rows) + Line(l, data, f, rows, l.width)
  {
    var blocks, next := PictureBlocks(l, data, f, rows), Line(l, data, f, rows, l.width);
    JoinedSnoc(blocks, next);
    assert PictureBlocks(l, data, f, rows + 1) == blocks + [next];
  }

  method ConvertRow(c: RawCapture, l: Layout, row: nat) returns (r: Option<seq<Byte>>)
    requires Holds(l, c.data) && row < l.height && 0 < l.width
    ensures r.Some? <==> MasksOk(c)
    ensures r.Some? ==> r.value == Line(l, c.data, ConverterOf(c), row, l.width)
  {
    var line: seq<Byte> := [];
    for column := 0 to l.width
      invariant column > 0 ==> MasksOk(c)
      invariant MasksOk(c) ==> line == Line(l, c.data, ConverterOf(c), row, column)
    {
      var samples := ConvertPixel(c, PixelBytesAt(l, c.data, row, column));
      if samples.None? {
        return None;
      }
      if MasksOk(c) { LineNext(l, c.data, ConverterOf(c), row, column); }
      line := line + samples.value;
    }
    r := Some(line);
  }

  /** The rows of `to_rgb`. */
  method ConvertRows(c: RawCapture, l: Layout) returns (r: Option<seq<Byte>>)
    requires Holds(l, c.data) && 0 < l.width && 0 < l.height
    ensures r.Some? <==> MasksOk(c)
    ensures r.Some? ==> r.value == Picture(l, c.data, ConverterOf(c), l.height)
  {
    var rgb: seq<Byte> := [];
    for row := 0 to l.height
      invariant row > 0 ==> MasksOk(c)
      invariant MasksOk(c) ==> rgb == Picture(l, c.data, ConverterOf(c), row)
    {
      var line := ConvertRow(c, l, row);
      if line.None? {
        return None;
      }
      if MasksOk(c) { PictureNext(l, c.data, ConverterOf(c), row); }
      rgb := rgb + line.value;
    }
    r := Some(rgb);
  }

  /** `to_rgb`. */
  method ToRgb(c: RawCapture) returns (r: Result)
    requires Admitted(c)
    ensures r.Rgb? <==> c.depth != 0 && LengthOk(c) && MasksOk(c)
    ensures r.Rgb? ==> Exact(c, r.samples)
  {
    if c.depth == 0 {
      return Failed(NoDepth);
    }
    var required := Stride(c) * c.height;
    if |c.data| < required || |c.data| > required + 3 {
      return Failed(UnexpectedLength);
    }
    var rgb := ConvertRows(c, LayoutOf(c));
    if rgb.None? {
      return Failed(UnsupportedMask);
    }
    PictureIsExact(c);
    r := Rgb(rgb.value);
  }
}
