/** The frame-to-message converters of the Gazebo ROS depth camera plugin:
    FillDepthImageHelper (a depth frame to a 32FC1 depth image),
    FillPointCloudHelper (a depth frame to a row-major XYZRGB cloud of
    rows*cols points, unseeable points kept as NaN) and the
    loop of OnNewRGBPointCloud (4-float sensor records to an XYZRGB cloud).
    Depths are reals; the quiet NaN the plugin writes for a point in the
    unseeable range is the constructor NaN of Float. */
module Frames {

  /** An unsigned 8-bit sample of a colour image. */
  newtype byte = x: int | 0 <= x < 256

  /** A 32-bit float as the converters write it: a number, or the quiet NaN
      that marks a point nearer than the cutoff. */
  datatype Float = Num(value: real) | NaN

  datatype Rgb = Rgb(r: byte, g: byte, b: byte)

  const Black := Rgb(0, 0, 0)

  /** A pcl::PointXYZRGB as FillPointCloudHelper fills it. */
  datatype Point = Point(x: Float, y: Float, z: Float, colour: Rgb)

  /** A pcl::PointXYZRGB as OnNewRGBPointCloud fills it: the four floats of one
      sensor record, the last of which holds the packed colour bits. */
  datatype PackedPoint = PackedPoint(x: real, y: real, z: real, rgb: real)

  /** The camera projection, left abstract: yawTan(i) stands for
      tan(atan2(i - (cols-1)/2, fl)) of column i (0 when there is one column),
      pitchTan(j) for the same of row j, fl being the focal length derived from
      the horizontal field of view. */
  datatype Projection = Projection(yawTan: nat -> real, pitchTan: nat -> real)

  /** Size in bytes of one 32-bit float sample. */
  const FloatSize := 4

  /** The encoding string of a single-channel 32-bit float image. */
  const Type32FC1 := "32FC1"

  /** The value written for one depth sample: the depth itself when it lies
      strictly beyond the cutoff, NaN otherwise. */
  function Cell(depth: real, cutoff: real): Float
  {
    if depth > cutoff then Num(depth) else NaN
  }

  /** Cell (i, j) of a rows x cols frame stored row by row lies inside the frame. */
  lemma RowMajorIndex(i: nat, j: nat, rows: nat, cols: nat)
    requires i < cols && j < rows
    ensures j * cols + i < rows * cols
  {
    calc {
      j * cols + i;
    <
      j * cols + cols;
    ==
      (j + 1) * cols;
    <=  { MulMonotone(j + 1, rows, cols); }
      rows * cols;
    }
  }

  lemma MulMonotone(a: nat, b: nat, c: nat)
    requires a <= b
    ensures a * c <= b * c
  {
  }

  lemma MulSucc(a: nat, c: nat)
    ensures (a + 1) * c == a * c + c
  {
  }

  // ---------------------------------------------------------------------------
  // Depth image (FillDepthImageHelper)

  /** The cells of the depth image of a rows x cols frame, in buffer order. */
  function DepthCells(depths: seq<real>, rows: nat, cols: nat, cutoff: real): seq<Float>
    requires rows * cols <= |depths|
  {
    seq(rows * cols, k requires 0 <= k < rows * cols => Cell(depths[k], cutoff))
  }

  /** Cell i + j*cols of the depth image holds depth j*cols + i of the frame
      when that depth is strictly beyond the cutoff, and NaN otherwise (so a
      depth equal to the cutoff is invalid). */
  lemma DepthCellAt(depths: seq<real>, rows: nat, cols: nat, cutoff: real, i: nat, j: nat)
    requires rows * cols <= |depths| && i < cols && j < rows
    ensures |DepthCells(depths, rows, cols, cutoff)| == rows * cols
    ensures i + j * cols < rows * cols
    ensures DepthCells(depths, rows, cols, cutoff)[i + j * cols].Num? <==> depths[j * cols + i] > cutoff
    ensures DepthCells(depths, rows, cols, cutoff)[i + j * cols].Num? ==>
              DepthCells(depths, rows, cols, cutoff)[i + j * cols].value == depths[j * cols + i]
  {
    RowMajorIndex(i, j, rows, cols);
  }

  /** The depth-image part of a sensor_msgs::Image. */
  class DepthImageMsg {
    var encoding: string
    var height: int
    var width: int
    var step: int
    var isBigEndian: bool
    /** The message's byte vector, seen as the 32-bit floats it holds. */
    var data: array<Float>

    constructor ()
      ensures encoding == "" && height == 0 && width == 0 && step == 0 && !isBigEndian
      ensures data.Length == 0 && fresh(data)
    {
      encoding, height, width, step, isBigEndian := "", 0, 0, 0, false;
      data := new Float[0];
    }

    /** The size of the byte vector. */
    function ByteSize(): int
      reads this
    {
      FloatSize * data.Length
    }
  }

  /** Sets the header fields of msg, resizes its buffer to rows*cols floats
      (kept when the size already matches; on any other size the model
      allocates a new one) and writes every cell. */
  method FillDepthImageHelper(msg: DepthImageMsg, rows: nat, cols: nat, depths: seq<real>, cutoff: real)
    requires rows * cols <= |depths|
    modifies msg, msg.data
    ensures msg.encoding == Type32FC1 && !msg.isBigEndian
    ensures msg.height == rows && msg.width == cols && msg.step == FloatSize * cols
    ensures msg.ByteSize() == rows * cols * FloatSize
    ensures msg.data[..] == DepthCells(depths, rows, cols, cutoff)
    ensures old(msg.data.Length) == rows * cols ==> msg.data == old(msg.data)
    ensures msg.data == old(msg.data) || fresh(msg.data)
  {
    msg.encoding := Type32FC1;
    msg.height := rows;
    msg.width := cols;
    msg.step := FloatSize * cols;
    if msg.data.Length != rows * cols {
      msg.data := new Float[rows * cols];
    }
    msg.isBigEndian := false;
    var dest := msg.data;
    var index := 0;
    var j := 0;
    while j < rows
      modifies dest
      invariant j <= rows && index == j * cols && index <= rows * cols
      invariant dest.Length == rows * cols
      invariant forall k :: 0 <= k < index ==> dest[k] == Cell(depths[k], cutoff)
    {
      var i := 0;
      while i < cols
        modifies dest
        invariant i <= cols && index == j * cols + i && index <= rows * cols
        invariant forall k :: 0 <= k < index ==> dest[k] == Cell(depths[k], cutoff)
      {
        RowMajorIndex(i, j, rows, cols);
        var depth := depths[index];
        index := index + 1;
        if depth > cutoff {
          dest[i + j * cols] := Num(depth);
        } else {
          dest[i + j * cols] := NaN;
        }
        i := i + 1;
      }
      MulSucc(j, cols);
      j := j + 1;
    }
  }

  /** Converting the same frame twice, with nothing in between: the second
      conversion keeps the buffer the first one left (buffer) and writes the
      same cells into it. */
  method FillDepthImageTwice(msg: DepthImageMsg, rows: nat, cols: nat, depths: seq<real>, cutoff: real)
    returns (first: seq<Float>, buffer: array<Float>, second: seq<Float>)
    requires rows * cols <= |depths|
    modifies msg, msg.data
    ensures msg.data == buffer && (old(msg.data.Length) == rows * cols ==> buffer == old(msg.data))
    ensures first == second == msg.data[..]
  {
    FillDepthImageHelper(msg, rows, cols, depths, cutoff);
    first := msg.data[..];
    buffer := msg.data;
    FillDepthImageHelper(msg, rows, cols, depths, cutoff);
    second := msg.data[..];
  }

  // ---------------------------------------------------------------------------
  // Point cloud from a depth frame (FillPointCloudHelper)

  /** What one FillPointCloudHelper call reads: the depth frame and its size,
      the cutoff, the cached colour image and the projection. */
  datatype CloudInput = CloudInput(depths: seq<real>, rows: nat, cols: nat, cutoff: real,
                                   image: seq<byte>, proj: Projection)
  {
    predicate Fits() { rows * cols <= |depths| }
  }

  /** Byte offsets i*3 + j*cols*3 + 0..2 of a rows x cols 3-channel image are in range. */
  lemma ColourIndexInBounds(i: nat, j: nat, rows: nat, cols: nat)
    requires i < cols && j < rows
    ensures i * 3 + j * cols * 3 + 2 < rows * cols * 3
  {
    RowMajorIndex(i, j, rows, cols);
  }

  /** The colour of pixel (i, j): from a 3-channel image of the frame's size,
      else grey from a 1-channel image of that size, else black. */
  function Colour(image: seq<byte>, rows: nat, cols: nat, i: nat, j: nat): Rgb
    requires i < cols && j < rows
  {
    if |image| == rows * cols * 3 then
      ColourIndexInBounds(i, j, rows, cols);
      Rgb(image[i * 3 + j * cols * 3], image[i * 3 + j * cols * 3 + 1], image[i * 3 + j * cols * 3 + 2])
    else if |image| == rows * cols then
      RowMajorIndex(i, j, rows, cols);
      Rgb(image[i + j * cols], image[i + j * cols], image[i + j * cols])
    else
      Black
  }

  /** The point of column i, row j. */
  function CloudPoint(input: CloudInput, i: nat, j: nat): Point
    requires input.Fits() && i < input.cols && j < input.rows
  {
    RowMajorIndex(i, j, input.rows, input.cols);
    var depth := input.depths[j * input.cols + i];
    var colour := Colour(input.image, input.rows, input.cols, i, j);
    if depth > input.cutoff then
      Point(Num(depth * input.proj.yawTan(i)), Num(depth * input.proj.pitchTan(j)), Num(depth), colour)
    else
      Point(NaN, NaN, NaN, colour)
  }

  lemma CloudPointValidity(input: CloudInput, i: nat, j: nat)
    requires input.Fits() && i < input.cols && j < input.rows
    ensures j * input.cols + i < |input.depths|
    ensures CloudPoint(input, i, j).z.Num? <==> input.depths[j * input.cols + i] > input.cutoff
  {
    RowMajorIndex(i, j, input.rows, input.cols);
  }

  /** The points of row j, column by column. */
  function CloudRow(input: CloudInput, j: nat): seq<Point>
    requires input.Fits() && j < input.rows
  {
    seq(input.cols, i requires 0 <= i < input.cols => CloudPoint(input, i, j))
  }

  /** The points of the first n rows, row after row. */
  function CloudRows(input: CloudInput, n: nat): (points: seq<Point>)
    requires input.Fits() && n <= input.rows
    ensures |points| == n * input.cols
  {
    if n == 0 then [] else CloudRows(input, n - 1) + CloudRow(input, n - 1)
  }

  /** The whole cloud. */
  function Cloud(input: CloudInput): seq<Point>
    requires input.Fits()
  {
    CloudRows(input, input.rows)
  }

  /** Whether every depth of the frame is strictly beyond the cutoff. */
  predicate AllBeyondCutoff(depths: seq<real>, n: nat, cutoff: real)
    requires n <= |depths|
  {
    forall k :: 0 <= k < n ==> depths[k] > cutoff
  }

  /** Point j*cols + i of the first n rows is the point of column i, row j. */
  lemma {:induction false} CloudRowsAt(input: CloudInput, n: nat, i: nat, j: nat)
    requires input.Fits() && n <= input.rows && i < input.cols && j < n
    ensures j * input.cols + i < |CloudRows(input, n)|
    ensures CloudRows(input, n)[j * input.cols + i] == CloudPoint(input, i, j)
  {
    RowMajorIndex(i, j, n, input.cols);
    if j < n - 1 {
      CloudRowsAt(input, n - 1, i, j);
    }
  }

  /** Point k of the first n rows is valid exactly when depth k is beyond the cutoff. */
  lemma {:induction false} CloudRowsValidity(input: CloudInput, n: nat)
    requires input.Fits() && n <= input.rows
    ensures forall k :: 0 <= k < n * input.cols ==>
              (CloudRows(input, n)[k].z.Num? <==> input.depths[k] > input.cutoff)
  {
    if n > 0 {
      CloudRowsValidity(input, n - 1);
      MulSucc(n - 1, input.cols);
      MulMonotone(n, input.rows, input.cols);
      var rows := CloudRows(input, n);
      forall k | 0 <= k < n * input.cols
        ensures rows[k].z.Num? <==> input.depths[k] > input.cutoff
      {
        var prefix := CloudRows(input, n - 1);
        assert rows == prefix + CloudRow(input, n - 1);
        if k < |prefix| {
          assert rows[k] == prefix[k];
          assert prefix[k].z.Num? <==> input.depths[k] > input.cutoff;
        } else {
          var i := k - |prefix|;
          assert rows[k] == CloudRow(input, n - 1)[i] == CloudPoint(input, i, n - 1);
          assert (n - 1) * input.cols + i == k;
          CloudPointValidity(input, i, n - 1);
          assert rows[k].z.Num? <==> input.depths[k] > input.cutoff;
        }
      }
    }
  }

  /** The cloud has rows*cols points in row-major order; point j*cols + i comes
      from depth j*cols + i: beyond the cutoff its z is that depth and x, y are
      the depth times the column's and the row's tangent; otherwise x, y and z
      are all NaN. The dense flag the converter returns holds exactly when every
      point is valid. */
  lemma CloudLayout(input: CloudInput, i: nat, j: nat)
    requires input.Fits() && i < input.cols && j < input.rows
    ensures |Cloud(input)| == input.rows * input.cols
    ensures j * input.cols + i < input.rows * input.cols
    ensures var p := Cloud(input)[j * input.cols + i];
            var d := input.depths[j * input.cols + i];
            && (d > input.cutoff ==>
                  p.z == Num(d) && p.x == Num(d * input.proj.yawTan(i)) && p.y == Num(d * input.proj.pitchTan(j)))
            && (d <= input.cutoff ==> p.x == NaN && p.y == NaN && p.z == NaN)
            && p.colour == Colour(input.image, input.rows, input.cols, i, j)
    ensures AllBeyondCutoff(input.depths, input.rows * input.cols, input.cutoff) <==>
              forall k :: 0 <= k < |Cloud(input)| ==> Cloud(input)[k].z.Num?
  {
    CloudRowsAt(input, input.rows, i, j);
    CloudRowsValidity(input, input.rows);
  }

  /** The three colour sources of a point, with the exact byte offsets. */
  lemma ColourRule(image: seq<byte>, rows: nat, cols: nat, i: nat, j: nat)
    requires i < cols && j < rows
    ensures i * 3 + j * cols * 3 + 2 < rows * cols * 3 && i + j * cols < rows * cols
    ensures |image| == rows * cols * 3 ==>
              Colour(image, rows, cols, i, j) ==
              Rgb(image[i * 3 + j * cols * 3], image[i * 3 + j * cols * 3 + 1], image[i * 3 + j * cols * 3 + 2])
    ensures |image| != rows * cols * 3 && |image| == rows * cols ==>
              var v := image[i + j * cols]; Colour(image, rows, cols, i, j) == Rgb(v, v, v)
    ensures |image| != rows * cols * 3 && |image| != rows * cols ==> Colour(image, rows, cols, i, j) == Black
  {
    ColourIndexInBounds(i, j, rows, cols);
    RowMajorIndex(i, j, rows, cols);
  }

  /** Reads the colour of pixel (i, j) from the cached image. */
  method PixelColour(image: seq<byte>, rows: nat, cols: nat, i: nat, j: nat) returns (colour: Rgb)
    requires i < cols && j < rows
    ensures colour == Colour(image, rows, cols, i, j)
  {
    if |image| == rows * cols * 3 {
      ColourIndexInBounds(i, j, rows, cols);
      colour := Rgb(image[i * 3 + j * cols * 3 + 0], image[i * 3 + j * cols * 3 + 1], image[i * 3 + j * cols * 3 + 2]);
    } else if |image| == rows * cols {
      RowMajorIndex(i, j, rows, cols);
      colour := Rgb(image[i + j * cols], image[i + j * cols], image[i + j * cols]);
    } else {
      colour := Black;
    }
  }

  /** Converts the depth of pixel (i, j): the projected point when the depth
      is strictly beyond the cutoff, a NaN point otherwise, coloured from the
      cached image either way; beyond tells which. */
  method ConvertPixel(input: CloudInput, i: nat, j: nat, depth: real) returns (point: Point, beyond: bool)
    requires input.Fits() && i < input.cols && j < input.rows
    requires j * input.cols + i < |input.depths| && depth == input.depths[j * input.cols + i]
    ensures point == CloudPoint(input, i, j)
    ensures beyond == (depth > input.cutoff) == point.z.Num?
  {
    var x, y, z;
    if depth > input.cutoff {
      x, y, z := Num(depth * input.proj.yawTan(i)), Num(depth * input.proj.pitchTan(j)), Num(depth);
      beyond := true;
    } else {
      x, y, z := NaN, NaN, NaN;
      beyond := false;
    }
    var colour := PixelColour(input.image, input.rows, input.cols, i, j);
    point := Point(x, y, z, colour);
    assert CloudPoint(input, i, j).colour == colour;
    assert CloudPoint(input, i, j).z == z;
    assert CloudPoint(input, i, j).x == x;
    assert CloudPoint(input, i, j).y == y;
  }

  /** Converts a rows x cols depth frame into points, rows outer and columns
      inner, and reports whether no point was invalidated. */
  method FillPointCloudHelper(rows: nat, cols: nat, depths: seq<real>, cutoff: real,
                              image: seq<byte>, proj: Projection)
    returns (points: seq<Point>, dense: bool)
    requires rows * cols <= |depths|
    ensures points == Cloud(CloudInput(depths, rows, cols, cutoff, image, proj))
    ensures |points| == rows * cols
    ensures forall k :: 0 <= k < |points| ==> (points[k].z.Num? <==> depths[k] > cutoff)
    ensures dense == AllBeyondCutoff(depths, rows * cols, cutoff)
  {
    var input := CloudInput(depths, rows, cols, cutoff, image, proj);
    points := [];
    dense := true;
    var index := 0;
    var j := 0;
    while j < rows
      invariant j <= rows && index == j * cols == |points| && index <= rows * cols
      invariant points == CloudRows(input, j)
      invariant dense <==> forall k :: 0 <= k < index ==> depths[k] > cutoff
    {
      var i := 0;
      while i < cols
        invariant i <= cols && index == j * cols + i == |points| && index <= rows * cols
        invariant points == CloudRows(input, j) + CloudRow(input, j)[..i]
        invariant dense <==> forall k :: 0 <= k < index ==> depths[k] > cutoff
      {
        RowMajorIndex(i, j, rows, cols);
        var depth := depths[index];
        index := index + 1;
        var point, beyond := ConvertPixel(input, i, j, depth);
        if !beyond {
          dense := false;
        }
        assert point == CloudRow(input, j)[i];
        points := points + [point];
        i := i + 1;
      }
      MulSucc(j, cols);
      j := j + 1;
    }
    CloudRowsValidity(input, rows);
  }

  // ---------------------------------------------------------------------------
  // Point cloud from 4-float records (OnNewRGBPointCloud)

  /** The record at position index of the sensor's float buffer. */
  function Record(pcd: seq<real>, index: nat): PackedPoint
    requires 4 * index + 3 < |pcd|
  {
    PackedPoint(pcd[4 * index], pcd[4 * index + 1], pcd[4 * index + 2], pcd[4 * index + 3])
  }

  /** Record j*width + i of a width x height buffer is in range. */
  lemma RecordInBounds(pcd: seq<real>, width: nat, height: nat, i: nat, j: nat)
    requires 4 * (width * height) <= |pcd| && i < width && j < height
    ensures 4 * (j * width + i) + 3 < |pcd|
  {
    RowMajorIndex(i, j, height, width);
  }

  /** The records of column i, top to bottom. */
  function RgbColumn(pcd: seq<real>, width: nat, height: nat, i: nat): seq<PackedPoint>
    requires 4 * (width * height) <= |pcd| && i < width
  {
    seq(height, j requires 0 <= j < height =>
      RecordInBounds(pcd, width, height, i, j);
      Record(pcd, j * width + i))
  }

  /** The records of the first n columns, column after column. */
  function RgbColumns(pcd: seq<real>, width: nat, height: nat, n: nat): (points: seq<PackedPoint>)
    requires 4 * (width * height) <= |pcd| && n <= width
    ensures |points| == n * height
  {
    if n == 0 then [] else RgbColumns(pcd, width, height, n - 1) + RgbColumn(pcd, width, height, n - 1)
  }

  /** Push i*height + j of the first n columns is record j*width + i. */
  lemma {:induction false} RgbColumnsAt(pcd: seq<real>, width: nat, height: nat, n: nat, i: nat, j: nat)
    requires 4 * (width * height) <= |pcd| && n <= width && i < n && j < height
    ensures i * height + j < |RgbColumns(pcd, width, height, n)|
    ensures 4 * (j * width + i) + 3 < |pcd|
    ensures RgbColumns(pcd, width, height, n)[i * height + j] == Record(pcd, j * width + i)
  {
    RowMajorIndex(j, i, n, height);
    RecordInBounds(pcd, width, height, i, j);
    if i < n - 1 {
      RgbColumnsAt(pcd, width, height, n - 1, i, j);
    }
  }

  /** The cloud built from a width x height record buffer has width*height
      points; push i*height + j (column i, row j) is record j*width + i. */
  lemma RgbCloudLayout(pcd: seq<real>, width: nat, height: nat, i: nat, j: nat)
    requires 4 * (width * height) <= |pcd| && i < width && j < height
    ensures |RgbColumns(pcd, width, height, width)| == width * height
    ensures i * height + j < width * height && 4 * (j * width + i) + 3 < |pcd|
    ensures RgbColumns(pcd, width, height, width)[i * height + j] == Record(pcd, j * width + i)
  {
    RgbColumnsAt(pcd, width, height, width, i, j);
  }

  /** Builds the cloud of a width x height record buffer, columns outer and
      rows inner, without ever clearing the dense flag. */
  method BuildRgbCloud(pcd: seq<real>, width: nat, height: nat) returns (points: seq<PackedPoint>, dense: bool)
    requires 4 * (width * height) <= |pcd|
    ensures points == RgbColumns(pcd, width, height, width)
    ensures |points| == width * height
    ensures dense
  {
    points := [];
    dense := true;
    var i := 0;
    while i < width
      invariant i <= width && |points| == i * height
      invariant points == RgbColumns(pcd, width, height, i)
    {
      var j := 0;
      while j < height
        invariant j <= height
        invariant points == RgbColumns(pcd, width, height, i) + RgbColumn(pcd, width, height, i)[..j]
      {
        var index := j * width + i;
        RecordInBounds(pcd, width, height, i, j);
        ghost var column := RgbColumn(pcd, width, height, i);
        assert column[..j + 1] == column[..j] + [Record(pcd, index)];
        points := points + [Record(pcd, index)];
        j := j + 1;
      }
      assert RgbColumn(pcd, width, height, i)[..height] == RgbColumn(pcd, width, height, i);
      i := i + 1;
    }
  }
}
