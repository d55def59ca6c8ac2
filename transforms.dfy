/** The coordinate conversions between pixel space and the normalized on-disk
    representations (euclid.py, GetBoundariesFromYoloFile, GetBoundariesFromBusLabelFile,
    convert2Yolo, convert2BusLabel). Arithmetic is exact: Dafny `real` stands for the
    Python floats, and `Trunc` is Python's `int(x)` on a float, which rounds toward zero. */
module Transforms {

  /** Python's `int(x)` for a finite float: truncation toward zero, which never moves a
      value away from zero, and moves it by less than 1. */
  function Trunc(x: real): (r: int)
    ensures x >= 0.0 ==> 0 <= r && r as real <= x < r as real + 1.0
    ensures x < 0.0 ==> r <= 0 && r as real - 1.0 < x <= r as real
  {
    if x >= 0.0 then x.Floor else -((-x).Floor)
  }

  /** Truncation leaves whole numbers alone. */
  lemma TruncOfInt(n: int)
    ensures Trunc(n as real) == n
  {
  }

  /** The YOLO record of a box: centre x, centre y, width and height, each normalized
      to the image size. */
  datatype Yolo = Yolo(cx: real, cy: real, w: real, h: real)

  /** convert2Yolo: `image` is [width, height], `box` is (left, top, right, bottom);
      only the first four coordinates are read. */
  function ToYolo(imgW: int, imgH: int, box: seq<int>): (y: Yolo)
    requires imgW != 0 && imgH != 0
    requires |box| >= 4
    ensures y.cx * (2.0 * imgW as real) == (box[0] + box[2]) as real
    ensures y.cy * (2.0 * imgH as real) == (box[1] + box[3]) as real
    ensures y.w * imgW as real == (box[2] - box[0]) as real
    ensures y.h * imgH as real == (box[3] - box[1]) as real
  {
    var invWidth := 1.0 / imgW as real;
    var invHeight := 1.0 / imgH as real;
    Yolo(invWidth * (box[0] + box[2]) as real / 2.0,
         invHeight * (box[1] + box[3]) as real / 2.0,
         invWidth * (box[2] - box[0]) as real,
         invHeight * (box[3] - box[1]) as real)
  }

  /** GetBoundariesFromYoloFile: back to (left, top, right, bottom) pixels. */
  function FromYolo(centerX: real, centerY: real, width: real, height: real,
                    imageWidth: int, imageHeight: int): (box: seq<int>)
    ensures |box| == 4
  {
    [Trunc(centerX * imageWidth as real - (width * imageWidth as real) / 2.0),
     Trunc(centerY * imageHeight as real - (height * imageHeight as real) / 2.0),
     Trunc(centerX * imageWidth as real + (width * imageWidth as real) / 2.0),
     Trunc(centerY * imageHeight as real + (height * imageHeight as real) / 2.0)]
  }

  /** Centre and size determine the two edges: with c = (a + b) / 2d and w = (b - a) / d,
      c*d - w*d/2 is a and c*d + w*d/2 is b. */
  lemma CentreAndSize(c: real, w: real, d: real, a: int, b: int)
    requires d > 0.0
    requires c * (2.0 * d) == (a + b) as real
    requires w * d == (b - a) as real
    ensures c * d - (w * d) / 2.0 == a as real
    ensures c * d + (w * d) / 2.0 == b as real
  {
    assert c * (2.0 * d) == 2.0 * (c * d);
  }

  /** For an integer box the YOLO inverse recovers the box exactly (the only loss in the
      Python code comes from float rounding and the 7-decimal text, both outside this model). */
  lemma {:induction false} YoloRoundTrip(imgW: int, imgH: int, box: seq<int>)
    requires imgW > 0 && imgH > 0
    requires |box| == 4
    ensures var y := ToYolo(imgW, imgH, box);
            FromYolo(y.cx, y.cy, y.w, y.h, imgW, imgH) == box
  {
    var y := ToYolo(imgW, imgH, box);
    CentreAndSize(y.cx, y.w, imgW as real, box[0], box[2]);
    CentreAndSize(y.cy, y.h, imgH as real, box[1], box[3]);
    EdgesGiveBox(y.cx, y.cy, y.w, y.h, imgW, imgH, box);
  }

  /** FromYolo of values whose edges land on the coordinates of an integer box is that box. */
  lemma EdgesGiveBox(cx: real, cy: real, w: real, h: real, imgW: int, imgH: int, box: seq<int>)
    requires |box| == 4
    requires cx * imgW as real - (w * imgW as real) / 2.0 == box[0] as real
    requires cy * imgH as real - (h * imgH as real) / 2.0 == box[1] as real
    requires cx * imgW as real + (w * imgW as real) / 2.0 == box[2] as real
    requires cy * imgH as real + (h * imgH as real) / 2.0 == box[3] as real
    ensures FromYolo(cx, cy, w, h, imgW, imgH) == box
  {
    TruncOfInt(box[0]); TruncOfInt(box[1]); TruncOfInt(box[2]); TruncOfInt(box[3]);
    var r := FromYolo(cx, cy, w, h, imgW, imgH);
    assert r[0] == box[0] && r[1] == box[1] && r[2] == box[2] && r[3] == box[3];
  }

  /** A box inside the image has a YOLO record inside the unit square, with a
      non-negative size. */
  lemma YoloInUnitRange(imgW: int, imgH: int, box: seq<int>)
    requires imgW > 0 && imgH > 0 && |box| == 4
    requires 0 <= box[0] <= box[2] <= imgW && 0 <= box[1] <= box[3] <= imgH
    ensures var y := ToYolo(imgW, imgH, box);
            0.0 <= y.cx <= 1.0 && 0.0 <= y.cy <= 1.0 && 0.0 <= y.w <= 1.0 && 0.0 <= y.h <= 1.0
  {
    var y := ToYolo(imgW, imgH, box);
    UnitRange(y.cx, 2.0 * imgW as real, (box[0] + box[2]) as real);
    UnitRange(y.cy, 2.0 * imgH as real, (box[1] + box[3]) as real);
    UnitRange(y.w, imgW as real, (box[2] - box[0]) as real);
    UnitRange(y.h, imgH as real, (box[3] - box[1]) as real);
  }

  /** v * d == n with 0 <= n <= d puts v in the unit interval. */
  lemma UnitRange(v: real, d: real, n: real)
    requires d > 0.0 && v * d == n && 0.0 <= n <= d
    ensures 0.0 <= v <= 1.0
  {
  }

  /** convert2BusLabel: each coordinate of the 8-value quadrilateral (lt, lb, rb, rt)
      divided by the matching image dimension, in the same order: x by width, y by height. */
  function ToBusLabel(imgW: int, imgH: int, box: seq<int>): (v: seq<real>)
    requires imgW != 0 && imgH != 0
    requires |box| >= 8
    ensures |v| == 8
    ensures v[0] == Normalize(box[0], imgW) && v[1] == Normalize(box[1], imgH)
    ensures v[2] == Normalize(box[2], imgW) && v[3] == Normalize(box[3], imgH)
    ensures v[4] == Normalize(box[4], imgW) && v[5] == Normalize(box[5], imgH)
    ensures v[6] == Normalize(box[6], imgW) && v[7] == Normalize(box[7], imgH)
  {
    var invWidth := 1.0 / imgW as real;
    var invHeight := 1.0 / imgH as real;
    [invWidth * box[0] as real, invHeight * box[1] as real,
     invWidth * box[2] as real, invHeight * box[3] as real,
     invWidth * box[4] as real, invHeight * box[5] as real,
     invWidth * box[6] as real, invHeight * box[7] as real]
  }

  /** One normalized coordinate, as the converters compute it: (1 / d) * b. */
  function Normalize(b: int, d: int): (v: real)
    requires d != 0
    ensures v * d as real == b as real
  {
    1.0 / d as real * b as real
  }

  /** Scaling a normalized coordinate back and truncating gives the coordinate. */
  lemma {:induction false} Denormalize(b: int, d: int)
    requires d != 0
    ensures Trunc(Normalize(b, d) * d as real) == b
  {
    TruncOfInt(b);
  }

  /** GetBoundariesFromBusLabelFile. Its parameters are named lt, rt, lb, rb although the
      writer emits lt, lb, rb, rt; the function is positional all the same, and so is
      this model, which keeps euclid.py's names and order. */
  function FromBusLabel(ltX: real, ltY: real, rtX: real, rtY: real,
                        lbX: real, lbY: real, rbX: real, rbY: real,
                        imageWidth: int, imageHeight: int): (box: seq<int>)
    ensures |box| == 8
  {
    var W, H := imageWidth as real, imageHeight as real;
    [Trunc(ltX * W), Trunc(ltY * H), Trunc(rtX * W), Trunc(rtY * H),
     Trunc(lbX * W), Trunc(lbY * H), Trunc(rbX * W), Trunc(rbY * H)]
  }

  /** FromBusLabel applied to eight values in a sequence. */
  function FromBusLabelSeq(v: seq<real>, imgW: int, imgH: int): (box: seq<int>)
    requires |v| == 8
    ensures |box| == 8
  {
    FromBusLabel(v[0], v[1], v[2], v[3], v[4], v[5], v[6], v[7], imgW, imgH)
  }

  /** Whatever the parameter names of FromBusLabel say, output k is value k scaled by the
      width for even k and by the height for odd k. */
  lemma FromBusLabelPositional(v: seq<real>, imgW: int, imgH: int)
    requires |v| == 8
    ensures var box := FromBusLabelSeq(v, imgW, imgH);
            box[0] == Trunc(v[0] * imgW as real) && box[1] == Trunc(v[1] * imgH as real) &&
            box[2] == Trunc(v[2] * imgW as real) && box[3] == Trunc(v[3] * imgH as real) &&
            box[4] == Trunc(v[4] * imgW as real) && box[5] == Trunc(v[5] * imgH as real) &&
            box[6] == Trunc(v[6] * imgW as real) && box[7] == Trunc(v[7] * imgH as real)
  {
  }

  /** The BusLabel inverse recovers an integer quadrilateral exactly, position by position. */
  lemma {:induction false} BusLabelRoundTrip(imgW: int, imgH: int, box: seq<int>)
    requires imgW > 0 && imgH > 0
    requires |box| == 8
    ensures FromBusLabelSeq(ToBusLabel(imgW, imgH, box), imgW, imgH) == box
  {
    var v := ToBusLabel(imgW, imgH, box);
    var r := FromBusLabelSeq(v, imgW, imgH);
    FromBusLabelPositional(v, imgW, imgH);
    Denormalize(box[0], imgW); Denormalize(box[1], imgH);
    Denormalize(box[2], imgW); Denormalize(box[3], imgH);
    Denormalize(box[4], imgW); Denormalize(box[5], imgH);
    Denormalize(box[6], imgW); Denormalize(box[7], imgH);
    assert r[0] == box[0] && r[1] == box[1] && r[2] == box[2] && r[3] == box[3];
    assert r[4] == box[4] && r[5] == box[5] && r[6] == box[6] && r[7] == box[7];
  }

  /** A quadrilateral inside the image is written as eight values in [0, 1]. */
  lemma BusLabelInUnitRange(imgW: int, imgH: int, box: seq<int>)
    requires imgW > 0 && imgH > 0 && |box| == 8
    requires 0 <= box[0] <= imgW && 0 <= box[2] <= imgW && 0 <= box[4] <= imgW && 0 <= box[6] <= imgW
    requires 0 <= box[1] <= imgH && 0 <= box[3] <= imgH && 0 <= box[5] <= imgH && 0 <= box[7] <= imgH
    ensures forall k :: 0 <= k < 8 ==> 0.0 <= ToBusLabel(imgW, imgH, box)[k] <= 1.0
  {
    var v := ToBusLabel(imgW, imgH, box);
    NormalizedInUnit(box[0], imgW); NormalizedInUnit(box[1], imgH);
    NormalizedInUnit(box[2], imgW); NormalizedInUnit(box[3], imgH);
    NormalizedInUnit(box[4], imgW); NormalizedInUnit(box[5], imgH);
    NormalizedInUnit(box[6], imgW); NormalizedInUnit(box[7], imgH);
    assert forall k :: 0 <= k < 8 ==> v[k] == [v[0], v[1], v[2], v[3], v[4], v[5], v[6], v[7]][k];
  }

  /** A coordinate between 0 and the dimension normalizes into the unit interval. */
  lemma NormalizedInUnit(b: int, d: int)
    requires d > 0 && 0 <= b <= d
    ensures 0.0 <= Normalize(b, d) <= 1.0
  {
    UnitRange(Normalize(b, d), d as real, b as real);
  }
}
