/** The mean colour of a captured screen region, summed in 32-bit integers over a buffer whose rows are padded. */
module AreaCapture {
  import opened Wrappers
  import opened Picture

  /** A captured buffer: four bytes a pixel, `stride` pixels a row, of which `width` are the picture. */
  datatype Capture = Capture(bytes: seq<Byte>, width: nat, height: nat, stride: nat)

  datatype Rgb = Rgb(r: real, g: real, b: real)

  const TWO_32 := 0x1_0000_0000

  /** What the graphics system promises: rows are at least as wide as the picture, all rows are there, and
      the buffer can be indexed with 32 bits. */
  predicate WellFormed(c: Capture) {
    c.width <= c.stride && |c.bytes| == 4 * (c.stride * c.height) <= TWO_32
  }

  /** Where the four bytes of a pixel start. */
  function Offset(c: Capture, x: nat, y: nat): nat {
    y * (c.stride * 4) + x * 4
  }

  lemma RowsFit(stride: nat, height: nat, y: nat)
    requires y < height
    ensures y * stride + stride <= stride * height
  {
    assert (y + 1) * stride <= height * stride;
  }

  /** No pixel lies outside the buffer. */
  lemma PixelInBuffer(c: Capture, x: nat, y: nat)
    requires WellFormed(c) && x < c.width && y < c.height
    ensures Offset(c, x, y) + 3 < |c.bytes|
  {
    RowsFit(c.stride, c.height, y);
    assert y * (c.stride * 4) == 4 * (y * c.stride);
  }

  /** Channel 0, 1 or 2 of a pixel. */
  function At(c: Capture, x: nat, y: nat, channel: nat): Byte
    requires WellFormed(c) && x < c.width && y < c.height && channel < 3
  {
    PixelInBuffer(c, x, y);
    c.bytes[Offset(c, x, y) + channel]
  }

  /** The sum over the first `n` pixels of a row. */
  function RowSum(c: Capture, y: nat, channel: nat, n: nat): nat
    requires WellFormed(c) && y < c.height && channel < 3 && n <= c.width
  {
    if n == 0 then 0 else RowSum(c, y, channel, n - 1) + At(c, n - 1, y, channel)
  }

  /** The sum over the first `rows` rows. */
  function RegionSum(c: Capture, channel: nat, rows: nat): nat
    requires WellFormed(c) && channel < 3 && rows <= c.height
  {
    if rows == 0 then 0 else RegionSum(c, channel, rows - 1) + RowSum(c, rows - 1, channel, c.width)
  }

  function ChannelSum(c: Capture, channel: nat): nat
    requires WellFormed(c) && channel < 3
  {
    RegionSum(c, channel, c.height)
  }

  /** What a `uint32_t` keeps of a number. */
  function Wrap(n: nat): nat {
    n % TWO_32
  }

  /** The accumulator of a channel after `y` rows and `x` pixels of the next one. */
  function Accumulated(c: Capture, channel: nat, y: nat, x: nat): nat
    requires WellFormed(c) && channel < 3 && y < c.height && x <= c.width
  {
    Wrap(RegionSum(c, channel, y) + RowSum(c, y, channel, x))
  }

  lemma WrapFollows(total: nat, b: nat)
    ensures Wrap(Wrap(total) + b) == Wrap(total + b)
  {
  }

  lemma AccumulateOne(c: Capture, channel: nat, y: nat, x: nat)
    requires WellFormed(c) && channel < 3 && y < c.height && x < c.width
    ensures Wrap(Accumulated(c, channel, y, x) + At(c, x, y, channel)) == Accumulated(c, channel, y, x + 1)
  {
    WrapFollows(RegionSum(c, channel, y) + RowSum(c, y, channel, x), At(c, x, y, channel));
  }

  lemma AccumulatePixel(c: Capture, y: nat, x: nat)
    requires WellFormed(c) && y < c.height && x < c.width
    ensures Offset(c, x, y) + 3 < |c.bytes|
    ensures var index := Offset(c, x, y);
      && Wrap(Accumulated(c, 0, y, x) + c.bytes[index]) == Accumulated(c, 0, y, x + 1)
      && Wrap(Accumulated(c, 1, y, x) + c.bytes[index + 1]) == Accumulated(c, 1, y, x + 1)
      && Wrap(Accumulated(c, 2, y, x) + c.bytes[index + 2]) == Accumulated(c, 2, y, x + 1)
  {
    PixelInBuffer(c, x, y);
    AccumulateOne(c, 0, y, x);
    AccumulateOne(c, 1, y, x);
    AccumulateOne(c, 2, y, x);
  }

  // ---------- Against a picture ----------

  /** The buffer holds the picture, row after row with some padding in between. */
  predicate Holds(c: Capture, rows: seq<seq<Pixel>>, paddings: seq<seq<Byte>>) {
    && HasShape(rows, paddings, c.width, c.stride) && c.height == |rows|
    && c.bytes == BufferOf(rows, paddings)
  }

  /** The mean colour of a picture, with each sum kept in 32 bits. */
  function MeanOf(rows: seq<seq<Pixel>>, pixels: nat): Rgb
    requires pixels > 0
  {
    Rgb((Total(rows, 0) % 0x1_0000_0000) as real / pixels as real,
        (Total(rows, 1) % 0x1_0000_0000) as real / pixels as real,
        (Total(rows, 2) % 0x1_0000_0000) as real / pixels as real)
  }

  lemma PixelOfPicture(c: Capture, rows: seq<seq<Pixel>>, paddings: seq<seq<Byte>>, x: nat, y: nat, channel: nat)
    requires WellFormed(c) && Holds(c, rows, paddings) && x < c.width && y < c.height && channel < 3
    ensures At(c, x, y, channel) == Colour(rows[y][x], channel)
  {
    BufferAt(rows, paddings, c.width, c.stride, y, x, channel);
    OffsetInBytes(c, x, y);
  }

  lemma OffsetInBytes(c: Capture, x: nat, y: nat)
    ensures Offset(c, x, y) == 4 * (y * c.stride) + 4 * x
  {
  }

  lemma {:induction false} RowOfPicture(c: Capture, rows: seq<seq<Pixel>>, paddings: seq<seq<Byte>>, y: nat,
                                        channel: nat, n: nat)
    requires WellFormed(c) && Holds(c, rows, paddings) && y < c.height && channel < 3 && n <= c.width
    ensures RowSum(c, y, channel, n) == RowTotal(rows[y][..n], channel)
  {
    if n == 0 {
    } else {
      RowOfPicture(c, rows, paddings, y, channel, n - 1);
      PixelOfPicture(c, rows, paddings, n - 1, y, channel);
      assert rows[y][..n][..n - 1] == rows[y][..n - 1];
    }
  }

  lemma {:induction false} RegionOfPicture(c: Capture, rows: seq<seq<Pixel>>, paddings: seq<seq<Byte>>, channel: nat,
                                           n: nat)
    requires WellFormed(c) && Holds(c, rows, paddings) && channel < 3 && n <= c.height
    ensures RegionSum(c, channel, n) == Total(rows[..n], channel)
  {
    if n == 0 {
    } else {
      RegionOfPicture(c, rows, paddings, channel, n - 1);
      RowOfPicture(c, rows, paddings, n - 1, channel, c.width);
      assert rows[..n][..n - 1] == rows[..n - 1] && rows[n - 1][..c.width] == rows[n - 1];
    }
  }

  /** The sums are those of the picture that the buffer holds, whatever its padding. */
  lemma SumOfPicture(c: Capture, rows: seq<seq<Pixel>>, paddings: seq<seq<Byte>>, channel: nat)
    requires WellFormed(c) && Holds(c, rows, paddings) && channel < 3
    ensures ChannelSum(c, channel) == Total(rows, channel)
  {
    assert rows[..c.height] == rows;
    RegionOfPicture(c, rows, paddings, channel, c.height);
  }

  /** The mean colour that is computed from the three sums. */
  function MeanOfSums(c: Capture): Rgb
    requires WellFormed(c) && c.width * c.height > 0
  {
    var n := (c.width * c.height) as real;
    Rgb(Wrap(ChannelSum(c, 0)) as real / n, Wrap(ChannelSum(c, 1)) as real / n, Wrap(ChannelSum(c, 2)) as real / n)
  }

  lemma MeanOfPictures(c: Capture)
    requires WellFormed(c) && c.width * c.height > 0
    ensures forall rows, paddings :: Holds(c, rows, paddings) ==> MeanOfSums(c) == MeanOf(rows, c.width * c.height)
  {
    forall rows, paddings | Holds(c, rows, paddings)
      ensures MeanOfSums(c) == MeanOf(rows, c.width * c.height)
    {
      SumOfPicture(c, rows, paddings, 0);
      SumOfPicture(c, rows, paddings, 1);
      SumOfPicture(c, rows, paddings, 2);
    }
  }

  /** The nested loops. */
  method SumColours(c: Capture) returns (rsum: nat, gsum: nat, bsum: nat)
    requires WellFormed(c)
    ensures rsum == Wrap(ChannelSum(c, 0)) && gsum == Wrap(ChannelSum(c, 1)) && bsum == Wrap(ChannelSum(c, 2))
  {
    rsum, gsum, bsum := 0, 0, 0;
    for y := 0 to c.height
      invariant rsum == Wrap(RegionSum(c, 0, y))
      invariant gsum == Wrap(RegionSum(c, 1, y))
      invariant bsum == Wrap(RegionSum(c, 2, y))
    {
      for x := 0 to c.width
        invariant rsum == Accumulated(c, 0, y, x)
        invariant gsum == Accumulated(c, 1, y, x)
        invariant bsum == Accumulated(c, 2, y, x)
      {
        AccumulatePixel(c, y, x);
        var index := Offset(c, x, y);
        rsum := Wrap(rsum + c.bytes[index]);
        gsum := Wrap(gsum + c.bytes[index + 1]);
        bsum := Wrap(bsum + c.bytes[index + 2]);
      }
    }
  }

  /** The area brightness; an empty region gives 0/0, which is not a number. For whatever picture the buffer holds, it
      is the mean colour of the picture. */
  method GetAreaBrightness(c: Capture) returns (mean: Option<Rgb>)
    requires WellFormed(c)
    ensures mean == if c.width * c.height == 0 then None else Some(MeanOfSums(c))
    ensures c.width * c.height > 0 ==>
      forall rows, paddings :: Holds(c, rows, paddings) ==> mean == Some(MeanOf(rows, c.width * c.height))
  {
    var rsum, gsum, bsum := SumColours(c);
    var max := c.width * c.height;
    if max == 0 {
      return None;
    }
    MeanOfPictures(c);
    mean := Some(Rgb(rsum as real / max as real, gsum as real / max as real, bsum as real / max as real));
  }

  // ---------- What the sums are ----------

  /** The sum depends on the colours of the picture alone: not on the stride, not on the padding, not on the fourth
      bytes. */
  lemma SumIgnoresPadding(c: Capture, rows: seq<seq<Pixel>>, paddings: seq<seq<Byte>>,
                          d: Capture, rows': seq<seq<Pixel>>, paddings': seq<seq<Byte>>, channel: nat)
    requires WellFormed(c) && Holds(c, rows, paddings) && WellFormed(d) && Holds(d, rows', paddings') && channel < 3
    requires SameColour(rows, rows', channel)
    ensures ChannelSum(c, channel) == ChannelSum(d, channel)
  {
    SumOfPicture(c, rows, paddings, channel);
    SumOfPicture(d, rows', paddings', channel);
    SameTotal(rows, rows', channel);
  }

  /** Every buffer holds a picture. */
  lemma HoldsSomePicture(c: Capture)
    requires WellFormed(c)
    ensures Holds(c, RowsIn(c.bytes, c.width, c.stride, c.height), PaddingsIn(c.bytes, c.width, c.stride, c.height))
  {
    PartsHaveShape(c.bytes, c.width, c.stride, c.height);
    BufferOfParts(c.bytes, c.width, c.stride, c.height);
  }

  /** Every pixel of the region lies between `low` and `high` in the channel. */
  predicate Within(c: Capture, channel: nat, low: nat, high: nat)
    requires WellFormed(c) && channel < 3
  {
    forall x, y :: 0 <= x < c.width && 0 <= y < c.height ==> low <= At(c, x, y, channel) <= high
  }

  lemma {:induction false} RowBounds(c: Capture, y: nat, channel: nat, n: nat, low: nat, high: nat)
    requires WellFormed(c) && channel < 3 && Within(c, channel, low, high) && y < c.height && n <= c.width
    ensures n * low <= RowSum(c, y, channel, n) <= n * high
  {
    if n == 0 {
    } else {
      RowBounds(c, y, channel, n - 1, low, high);
      assert n * low == (n - 1) * low + low && n * high == (n - 1) * high + high;
    }
  }

  lemma AddRow(w: nat, rows: nat, value: nat)
    ensures (w * (rows + 1)) * value == (w * rows) * value + w * value
  {
    assert w * (rows + 1) == w * rows + w;
  }

  lemma {:induction false} RegionBounds(c: Capture, channel: nat, rows: nat, low: nat, high: nat)
    requires WellFormed(c) && channel < 3 && Within(c, channel, low, high) && rows <= c.height
    ensures (c.width * rows) * low <= RegionSum(c, channel, rows) <= (c.width * rows) * high
  {
    if rows == 0 {
    } else {
      RegionBounds(c, channel, rows - 1, low, high);
      RowBounds(c, rows - 1, channel, c.width, low, high);
      AddRow(c.width, rows - 1, low);
      AddRow(c.width, rows - 1, high);
    }
  }

  /** 255 times this is the largest 32-bit number. */
  const MAX_PIXELS := 16843009

  /** The 32-bit sums are exact on every picture of up to 16843009 pixels. */
  lemma SumsFit(c: Capture, channel: nat)
    requires WellFormed(c) && channel < 3 && c.width * c.height <= MAX_PIXELS
    ensures Wrap(ChannelSum(c, channel)) == ChannelSum(c, channel)
  {
    RegionBounds(c, channel, c.height, 0, 255);
  }

  /** An all-white picture is summed exactly if and only if it has no more pixels than that. */
  lemma WhiteFitsIff(c: Capture, channel: nat)
    requires WellFormed(c) && channel < 3 && Within(c, channel, 255, 255)
    ensures ChannelSum(c, channel) == 255 * (c.width * c.height)
    ensures Wrap(ChannelSum(c, channel)) == ChannelSum(c, channel) <==> c.width * c.height <= MAX_PIXELS
  {
    RegionBounds(c, channel, c.height, 255, 255);
  }

  lemma QuotientBounds(sum: real, n: real, low: real, high: real)
    requires n > 0.0 && low * n <= sum <= high * n
    ensures low <= sum / n <= high
  {
    var q := sum / n;
    assert q * n == sum;
    assert q < low ==> q * n < low * n;
    assert q > high ==> q * n > high * n;
  }

  lemma DivideBounds(sum: nat, n: nat, low: nat, high: nat)
    requires n > 0 && n * low <= sum <= n * high
    ensures low as real <= sum as real / n as real <= high as real
  {
    assert (n * low) as real == low as real * n as real;
    assert (n * high) as real == high as real * n as real;
    QuotientBounds(sum as real, n as real, low as real, high as real);
  }

  /** The mean of a channel lies between any bounds on the region's pixels, so it lies in [0, 255]. */
  lemma MeanIsBetween(c: Capture, channel: nat, low: nat, high: nat)
    requires WellFormed(c) && channel < 3 && 0 < c.width * c.height <= MAX_PIXELS
    requires Within(c, channel, low, high)
    ensures var mean := Wrap(ChannelSum(c, channel)) as real / (c.width * c.height) as real;
      low as real <= mean <= high as real && 0.0 <= mean <= 255.0
  {
    SumsFit(c, channel);
    RegionBounds(c, channel, c.height, low, high);
    DivideBounds(ChannelSum(c, channel), c.width * c.height, low, high);
    RegionBounds(c, channel, c.height, 0, 255);
    DivideBounds(ChannelSum(c, channel), c.width * c.height, 0, 255);
  }
}
