/** A picture and the buffers that hold it, built up pixel by pixel. */
module Picture {

  type Byte = x: int | 0 <= x < 256

  /** The colours of a pixel, and its fourth byte. */
  datatype Pixel = Pixel(r: Byte, g: Byte, b: Byte, fourth: Byte)

  function RowBytes(row: seq<Pixel>): seq<Byte> {
    if row == [] then [] else [row[0].r, row[0].g, row[0].b, row[0].fourth] + RowBytes(row[1..])
  }

  /** Row after row, each followed by its padding. */
  function BufferOf(rows: seq<seq<Pixel>>, paddings: seq<seq<Byte>>): seq<Byte>
    requires |rows| == |paddings|
  {
    if rows == [] then [] else RowBytes(rows[0]) + paddings[0] + BufferOf(rows[1..], paddings[1..])
  }

  /** Red, green or blue. */
  function Colour(p: Pixel, channel: nat): Byte
    requires channel < 3
  {
    match channel
    case 0 => p.r
    case 1 => p.g
    case 2 => p.b
  }

  function RowTotal(row: seq<Pixel>, channel: nat): nat
    requires channel < 3
  {
    if row == [] then 0 else RowTotal(row[..|row| - 1], channel) + Colour(row[|row| - 1], channel)
  }

  /** The sum of a colour over all pixels of a picture. */
  function Total(rows: seq<seq<Pixel>>, channel: nat): nat
    requires channel < 3
  {
    if rows == [] then 0 else Total(rows[..|rows| - 1], channel) + RowTotal(rows[|rows| - 1], channel)
  }

  /** The picture has the given width, and every row is padded up to the stride. */
  predicate HasShape(rows: seq<seq<Pixel>>, paddings: seq<seq<Byte>>, width: nat, stride: nat) {
    && |rows| == |paddings| && width <= stride
    && (forall y :: 0 <= y < |rows| ==> |rows[y]| == width)
    && forall y :: 0 <= y < |paddings| ==> |paddings[y]| == 4 * (stride - width)
  }

  lemma {:induction false} RowBytesAt(row: seq<Pixel>, x: nat, channel: nat)
    requires x < |row| && channel < 3
    ensures |RowBytes(row)| == 4 * |row|
    ensures RowBytes(row)[4 * x + channel] == Colour(row[x], channel)
  {
    RowBytesLength(row);
    if x == 0 {
    } else {
      RowBytesAt(row[1..], x - 1, channel);
      RowBytesLength(row[1..]);
      assert RowBytes(row)[4 * x + channel] == RowBytes(row[1..])[4 * (x - 1) + channel];
    }
  }

  lemma {:induction false} RowBytesLength(row: seq<Pixel>)
    ensures |RowBytes(row)| == 4 * |row|
  {
    if row == [] {
    } else {
      RowBytesLength(row[1..]);
    }
  }

  lemma TailHasShape(rows: seq<seq<Pixel>>, paddings: seq<seq<Byte>>, width: nat, stride: nat)
    requires HasShape(rows, paddings, width, stride) && rows != []
    ensures HasShape(rows[1..], paddings[1..], width, stride)
  {
  }

  lemma RowFits(stride: nat, height: nat)
    requires height > 0
    ensures 4 * stride <= 4 * (stride * height)
    ensures 4 * (stride * height) - 4 * stride == 4 * (stride * (height - 1))
  {
    assert stride * height == stride + stride * (height - 1);
  }

  lemma FirstRowLength(rows: seq<seq<Pixel>>, paddings: seq<seq<Byte>>)
    requires |rows| == |paddings| && rows != []
    ensures |BufferOf(rows, paddings)|
         == |RowBytes(rows[0])| + |paddings[0]| + |BufferOf(rows[1..], paddings[1..])|
  {
  }

  lemma {:induction false} BufferLength(rows: seq<seq<Pixel>>, paddings: seq<seq<Byte>>, width: nat, stride: nat)
    requires HasShape(rows, paddings, width, stride)
    ensures |BufferOf(rows, paddings)| == 4 * (stride * |rows|)
  {
    if rows == [] {
    } else {
      TailHasShape(rows, paddings, width, stride);
      BufferLength(rows[1..], paddings[1..], width, stride);
      RowBytesLength(rows[0]);
      FirstRowLength(rows, paddings);
      RowFits(stride, |rows|);
    }
  }

  /** Where the buffer holds a colour of a pixel. */
  lemma {:induction false} BufferAt(rows: seq<seq<Pixel>>, paddings: seq<seq<Byte>>, width: nat, stride: nat,
                                    y: nat, x: nat, channel: nat)
    requires HasShape(rows, paddings, width, stride) && y < |rows| && x < width && channel < 3
    ensures 0 <= 4 * (y * stride) + 4 * x + channel < |BufferOf(rows, paddings)|
    ensures BufferOf(rows, paddings)[4 * (y * stride) + 4 * x + channel] == Colour(rows[y][x], channel)
  {
    var first, rest := RowBytes(rows[0]) + paddings[0], BufferOf(rows[1..], paddings[1..]);
    RowBytesLength(rows[0]);
    if y == 0 {
      RowBytesAt(rows[0], x, channel);
    } else {
      TailHasShape(rows, paddings, width, stride);
      BufferAt(rows[1..], paddings[1..], width, stride, y - 1, x, channel);
      assert y * stride == stride + (y - 1) * stride;
      AfterFirst(first, rest, 4 * ((y - 1) * stride) + 4 * x + channel);
    }
  }

  lemma AfterFirst(first: seq<Byte>, rest: seq<Byte>, i: nat)
    requires i < |rest|
    ensures (first + rest)[|first| + i] == rest[i]
  {
  }

  /** Two pictures of the same size that agree in a colour. */
  predicate SameColour(rows: seq<seq<Pixel>>, rows': seq<seq<Pixel>>, channel: nat)
    requires channel < 3
  {
    && |rows| == |rows'|
    && forall y :: 0 <= y < |rows| ==> SameColourInRow(rows[y], rows'[y], channel)
  }

  predicate SameColourInRow(row: seq<Pixel>, row': seq<Pixel>, channel: nat)
    requires channel < 3
  {
    && |row| == |row'|
    && forall x :: 0 <= x < |row| ==> Colour(row[x], channel) == Colour(row'[x], channel)
  }

  lemma {:induction false} SameRowTotal(row: seq<Pixel>, row': seq<Pixel>, channel: nat)
    requires channel < 3 && SameColourInRow(row, row', channel)
    ensures RowTotal(row, channel) == RowTotal(row', channel)
  {
    if row == [] {
    } else {
      SameRowTotal(row[..|row| - 1], row'[..|row| - 1], channel);
    }
  }

  lemma {:induction false} SameTotal(rows: seq<seq<Pixel>>, rows': seq<seq<Pixel>>, channel: nat)
    requires channel < 3 && SameColour(rows, rows', channel)
    ensures Total(rows, channel) == Total(rows', channel)
  {
    if rows == [] {
    } else {
      var n := |rows| - 1;
      SameTotal(rows[..n], rows'[..n], channel);
      SameRowTotal(rows[n], rows'[n], channel);
    }
  }

  // ---------- The picture in a buffer ----------

  function RowIn(bytes: seq<Byte>, width: nat): seq<Pixel>
    requires 4 * width <= |bytes|
    decreases width
  {
    if width == 0 then []
    else [Pixel(bytes[0], bytes[1], bytes[2], bytes[3])] + RowIn(bytes[4..], width - 1)
  }

  lemma FirstFour(bytes: seq<Byte>, n: nat)
    requires n + 4 <= |bytes|
    ensures bytes[..n + 4] == [bytes[0], bytes[1], bytes[2], bytes[3]] + bytes[4..][..n]
  {
  }

  lemma {:induction false} BytesOfRow(bytes: seq<Byte>, width: nat)
    requires 4 * width <= |bytes|
    ensures |RowIn(bytes, width)| == width && RowBytes(RowIn(bytes, width)) == bytes[..4 * width]
    decreases width
  {
    if width == 0 {
    } else {
      var rest := RowIn(bytes[4..], width - 1);
      BytesOfRow(bytes[4..], width - 1);
      assert RowIn(bytes, width)[1..] == rest;
      FirstFour(bytes, 4 * (width - 1));
    }
  }

  function RowsIn(bytes: seq<Byte>, width: nat, stride: nat, height: nat): seq<seq<Pixel>>
    requires width <= stride && |bytes| == 4 * (stride * height)
    decreases height
  {
    if height == 0 then []
    else
      RowFits(stride, height);
      [RowIn(bytes, width)] + RowsIn(bytes[4 * stride..], width, stride, height - 1)
  }

  function PaddingsIn(bytes: seq<Byte>, width: nat, stride: nat, height: nat): seq<seq<Byte>>
    requires width <= stride && |bytes| == 4 * (stride * height)
    decreases height
  {
    if height == 0 then []
    else
      RowFits(stride, height);
      [bytes[4 * width..4 * stride]] + PaddingsIn(bytes[4 * stride..], width, stride, height - 1)
  }

  lemma ThreeParts(bytes: seq<Byte>, m: nat, n: nat)
    requires m <= n <= |bytes|
    ensures bytes == bytes[..m] + bytes[m..n] + bytes[n..]
  {
  }

  lemma {:induction false} PartsHaveShape(bytes: seq<Byte>, width: nat, stride: nat, height: nat)
    requires width <= stride && |bytes| == 4 * (stride * height)
    ensures var rows, paddings := RowsIn(bytes, width, stride, height), PaddingsIn(bytes, width, stride, height);
      HasShape(rows, paddings, width, stride) && |rows| == height
    decreases height
  {
    if height == 0 {
    } else {
      RowFits(stride, height);
      var rest := bytes[4 * stride..];
      PartsHaveShape(rest, width, stride, height - 1);
      BytesOfRow(bytes, width);
      ShapeOfCons(RowIn(bytes, width), RowsIn(rest, width, stride, height - 1), bytes[4 * width..4 * stride],
                  PaddingsIn(rest, width, stride, height - 1), width, stride);
    }
  }

  lemma {:induction false} BufferOfParts(bytes: seq<Byte>, width: nat, stride: nat, height: nat)
    requires width <= stride && |bytes| == 4 * (stride * height)
    requires |RowsIn(bytes, width, stride, height)| == |PaddingsIn(bytes, width, stride, height)|
    ensures BufferOf(RowsIn(bytes, width, stride, height), PaddingsIn(bytes, width, stride, height)) == bytes
    decreases height
  {
    if height == 0 {
    } else {
      RowFits(stride, height);
      var rest := bytes[4 * stride..];
      PartsHaveShape(rest, width, stride, height - 1);
      BufferOfParts(rest, width, stride, height - 1);
      BytesOfRow(bytes, width);
      BufferOfCons(RowIn(bytes, width), RowsIn(rest, width, stride, height - 1), bytes[4 * width..4 * stride],
                   PaddingsIn(rest, width, stride, height - 1));
      ThreeParts(bytes, 4 * width, 4 * stride);
    }
  }

  lemma BufferOfCons(row: seq<Pixel>, rows: seq<seq<Pixel>>, padding: seq<Byte>, paddings: seq<seq<Byte>>)
    requires |rows| == |paddings|
    ensures BufferOf([row] + rows, [padding] + paddings) == RowBytes(row) + padding + BufferOf(rows, paddings)
  {
    assert ([row] + rows)[1..] == rows && ([padding] + paddings)[1..] == paddings;
  }

  lemma ShapeOfCons(row: seq<Pixel>, rows: seq<seq<Pixel>>, padding: seq<Byte>, paddings: seq<seq<Byte>>,
                    width: nat, stride: nat)
    requires HasShape(rows, paddings, width, stride) && |row| == width && |padding| == 4 * (stride - width)
    ensures HasShape([row] + rows, [padding] + paddings, width, stride)
  {
  }
}
