/**
 * Frames as ffmpeg and numpy hand them over: the stream chosen from ffprobe's
 * stream list, and the raw rgb24 buffer reshaped to [height, width, 3].
 */
module Frames {
  import opened Wrappers
  import opened Media

  /** One rgb24 pixel: the three bytes ffmpeg writes for it. */
  datatype Pixel = Pixel(r: byte, g: byte, b: byte)

  /** A reshaped frame: rows of pixels, the array of shape [height, width, 3]. */
  type Image = seq<seq<Pixel>>

  predicate HasShape(img: Image, height: nat, width: nat)
  {
    |img| == height && forall i :: 0 <= i < |img| ==> |img[i]| == width
  }

  /** One entry of ffprobe's `streams` list, as far as it is read. */
  datatype Stream = Stream(codecType: string, width: nat, height: nat)

  predicate IsVideo(st: Stream)
  {
    st.codecType == "video"
  }

  /** The position of the first video stream; None when the probe lists none. */
  function FirstVideo(streams: seq<Stream>): (r: Option<nat>)
    ensures r.Some? ==> r.value < |streams| && IsVideo(streams[r.value])
    ensures r.Some? ==> forall j :: 0 <= j < r.value ==> !IsVideo(streams[j])
    ensures r.None? <==> forall j :: 0 <= j < |streams| ==> !IsVideo(streams[j])
  {
    if streams == [] then None
    else if IsVideo(streams[0]) then Some(0)
    else
      match FirstVideo(streams[1..])
      case None => None
      case Some(k) => Some(k + 1)
  }

  /** The bytes of one row, grouped into pixels of three. */
  function Row(buf: seq<byte>): (row: seq<Pixel>)
    requires |buf| % 3 == 0
    ensures 3 * |row| == |buf|
    decreases |buf|
  {
    if buf == [] then [] else [Pixel(buf[0], buf[1], buf[2])] + Row(buf[3..])
  }

  /** The bytes of `height` rows of `width` pixels each, in row-major order. */
  function Rows(buf: seq<byte>, height: nat, width: nat): (img: Image)
    requires |buf| == height * width * 3
    ensures HasShape(img, height, width)
    decreases height
  {
    if height == 0 then []
    else
      FirstRowSplit(height, width);
      [Row(buf[..width * 3])] + Rows(buf[width * 3..], height - 1, width)
  }

  /** The bytes of one row of pixels. */
  function FlattenRow(row: seq<Pixel>): (buf: seq<byte>)
    ensures |buf| == 3 * |row|
  {
    if row == [] then [] else [row[0].r, row[0].g, row[0].b] + FlattenRow(row[1..])
  }

  /** The bytes of a whole image, row after row: how numpy lays it out in memory. */
  function Flatten(img: Image): seq<byte>
  {
    if img == [] then [] else FlattenRow(img[0]) + Flatten(img[1..])
  }

  /** The first row is split off a frame of at least one row. */
  lemma FirstRowSplit(height: nat, width: nat)
    requires height > 0
    ensures height * width * 3 == (height - 1) * width * 3 + width * 3
  {
  }

  /** A row's bytes are a whole number of pixels. */
  lemma TripleWhole(width: nat)
    ensures (width * 3) % 3 == 0
  {
  }

  lemma {:induction false} RowRoundTrip(buf: seq<byte>)
    requires |buf| % 3 == 0
    ensures FlattenRow(Row(buf)) == buf
    decreases |buf|
  {
    if buf != [] {
      RowRoundTrip(buf[3..]);
    }
  }

  lemma {:induction false} FlattenRowRoundTrip(row: seq<Pixel>)
    ensures Row(FlattenRow(row)) == row
  {
    if row != [] {
      var buf := FlattenRow(row);
      assert buf[3..] == FlattenRow(row[1..]);
      FlattenRowRoundTrip(row[1..]);
    }
  }

  /** Flattening a row put in front of an image puts its bytes in front. */
  lemma FlattenCons(row: seq<Pixel>, img: Image)
    ensures Flatten([row] + img) == FlattenRow(row) + Flatten(img)
  {
    assert ([row] + img)[1..] == img;
  }

  /** Reshaping loses no byte: flattening the image gives back the buffer. */
  lemma {:induction false} ReshapeRoundTrip(buf: seq<byte>, height: nat, width: nat)
    requires |buf| == height * width * 3
    ensures Flatten(Rows(buf, height, width)) == buf
    decreases height
  {
    if height > 0 {
      FirstRowSplit(height, width);
      TripleWhole(width);
      var w3 := width * 3;
      var first, rest := buf[..w3], buf[w3..];
      RowRoundTrip(first);
      ReshapeRoundTrip(rest, height - 1, width);
      assert Rows(buf, height, width) == [Row(first)] + Rows(rest, height - 1, width);
      FlattenCons(Row(first), Rows(rest, height - 1, width));
      assert buf == first + rest;
    }
  }

  lemma {:induction false} FlattenLength(img: Image, height: nat, width: nat)
    requires HasShape(img, height, width)
    ensures |Flatten(img)| == height * width * 3
    decreases height
  {
    if height > 0 {
      FlattenLength(img[1..], height - 1, width);
      FirstRowSplit(height, width);
    }
  }

  /** Every image of the given shape is the reshape of its own bytes. */
  lemma {:induction false} FlattenRoundTrip(img: Image, height: nat, width: nat)
    requires HasShape(img, height, width)
    ensures |Flatten(img)| == height * width * 3
    ensures Rows(Flatten(img), height, width) == img
    decreases height
  {
    FlattenLength(img, height, width);
    if height > 0 {
      var buf := Flatten(img);
      var first := FlattenRow(img[0]);
      assert buf[..width * 3] == first;
      assert buf[width * 3..] == Flatten(img[1..]);
      FlattenRowRoundTrip(img[0]);
      FlattenRoundTrip(img[1..], height - 1, width);
    }
  }

  lemma {:induction false} RowAt(buf: seq<byte>, j: nat)
    requires |buf| % 3 == 0 && 3 * j < |buf|
    ensures Row(buf)[j] == Pixel(buf[3 * j], buf[3 * j + 1], buf[3 * j + 2])
    decreases |buf|
  {
    if j > 0 {
      var rest := buf[3..];
      RowAt(rest, j - 1);
      assert Row(buf)[j] == Row(rest)[j - 1];
      assert rest[3 * (j - 1)] == buf[3 * j];
      assert rest[3 * (j - 1) + 1] == buf[3 * j + 1];
      assert rest[3 * (j - 1) + 2] == buf[3 * j + 2];
    }
  }

  /** Pixel j of the row held by bytes k .. k + w3 is bytes k + 3j .. k + 3j + 2. */
  lemma PixelInRow(buf: seq<byte>, k: nat, w3: nat, j: nat)
    requires k + w3 <= |buf| && w3 % 3 == 0 && 3 * j < w3
    ensures Row(buf[k..k + w3])[j] == Pixel(buf[k + 3 * j], buf[k + 3 * j + 1], buf[k + 3 * j + 2])
  {
    var row := buf[k..k + w3];
    RowAt(row, j);
    assert row[3 * j] == buf[k + 3 * j];
    assert row[3 * j + 1] == buf[k + 3 * j + 1];
    assert row[3 * j + 2] == buf[k + 3 * j + 2];
  }

  /** The offset of the first byte of pixel (i, j) in a frame `width` pixels wide. */
  function Offset(width: nat, i: nat, j: nat): nat
  {
    (i * width + j) * 3
  }

  /** One row further down is `width` pixels further on. */
  lemma OffsetNextRow(width: nat, i: nat, j: nat)
    requires i > 0
    ensures Offset(width, i, j) == width * 3 + Offset(width, i - 1, j)
  {
  }

  /** Pixel j of the first row is made of bytes 3j .. 3j+2. */
  lemma PixelInFirstRow(buf: seq<byte>, height: nat, width: nat, j: nat)
    requires |buf| == height * width * 3
    requires 0 < height && j < width
    ensures 3 * j + 2 < |buf|
    ensures Rows(buf, height, width)[0][j] == Pixel(buf[3 * j], buf[3 * j + 1], buf[3 * j + 2])
  {
    FirstRowSplit(height, width);
    TripleWhole(width);
    var w3 := width * 3;
    PixelInRow(buf, 0, w3, j);
    assert buf[0..w3] == buf[..w3];
  }

  /** Row i of a frame is row i - 1 of the frame below its first row. */
  lemma RowsTail(buf: seq<byte>, height: nat, width: nat, i: nat)
    requires |buf| == height * width * 3
    requires 0 < i < height
    ensures width * 3 <= |buf| && |buf[width * 3..]| == (height - 1) * width * 3
    ensures Rows(buf, height, width)[i] == Rows(buf[width * 3..], height - 1, width)[i - 1]
  {
    FirstRowSplit(height, width);
  }

  /** Pixel (i, j) of the reshaped frame is made of bytes 3(i*width+j) .. 3(i*width+j)+2. */
  lemma {:induction false} PixelAt(buf: seq<byte>, height: nat, width: nat, i: nat, j: nat)
    requires |buf| == height * width * 3
    requires i < height && j < width
    ensures Offset(width, i, j) + 2 < |buf|
    ensures Rows(buf, height, width)[i][j] ==
      Pixel(buf[Offset(width, i, j)], buf[Offset(width, i, j) + 1], buf[Offset(width, i, j) + 2])
    decreases height
  {
    var k := Offset(width, i, j);
    if i == 0 {
      assert k == 3 * j;
      PixelInFirstRow(buf, height, width, j);
    } else {
      RowsTail(buf, height, width, i);
      var rest := buf[width * 3..];
      var k' := Offset(width, i - 1, j);
      OffsetNextRow(width, i, j);
      PixelAt(rest, height - 1, width, i - 1, j);
      assert rest[k'] == buf[k] && rest[k' + 1] == buf[k + 1] && rest[k' + 2] == buf[k + 2];
    }
  }

  /**
   * `np.frombuffer(out, np.uint8).reshape([height, width, 3])`: numpy raises
   * unless the buffer holds exactly height*width*3 bytes.
   */
  function Reshape(buf: seq<byte>, height: nat, width: nat): (r: Result<Image, Error>)
    ensures r.Success? <==> |buf| == height * width * 3
    ensures r.Failure? ==> r.error == FrameSizeMismatch
    ensures r.Success? ==> HasShape(r.value, height, width) && Flatten(r.value) == buf
  {
    if |buf| == height * width * 3 then
      ReshapeRoundTrip(buf, height, width);
      Success(Rows(buf, height, width))
    else
      Failure(FrameSizeMismatch)
  }
}
