/**
  Vehicle counting inside regions of interest (ROIs) of a camera frame
  (`process_region` and `process_frame` in main.py). The object detector is
  an opaque capability: a function from an image to the pages of boxes it
  reports, each box carrying a class label and a confidence.
 */
module RegionCounter {
  import opened Wrappers

  /** One BGR pixel of a decoded frame. */
  datatype Pixel = Pixel(blue: int, green: int, red: int)

  /** Every row of an image has the same width, as in a numpy array. */
  predicate Rectangular(rows: seq<seq<Pixel>>)
  {
    forall i, j :: 0 <= i < |rows| && 0 <= j < |rows| ==> |rows[i]| == |rows[j]|
  }

  /** A frame, or a crop of one: a list of pixel rows. */
  type Image = rows: seq<seq<Pixel>> | Rectangular(rows) witness []

  function Height(f: Image): nat
  {
    |f|
  }

  function Width(f: Image): nat
  {
    if |f| == 0 then 0 else |f[0]|
  }

  /** `frame.size == 0`: no pixel at all. */
  predicate IsEmpty(f: Image)
  {
    Height(f) == 0 || Width(f) == 0
  }

  /** A region of interest `(x, y, w, h)` in the frame's coordinates. */
  datatype Roi = Roi(x: nat, y: nat, w: nat, h: nat)

  /** A detected box, after the class index was mapped to its name. */
  datatype Box = Box(className: string, conf: real)

  /** The detector, called once per region. It may report several result
      pages, each a list of boxes. */
  type Detector = Image -> seq<seq<Box>>

  const VehicleClasses: set<string> := {"car", "truck", "bus", "motorcycle"}

  const ConfidenceThreshold: real := 0.3

  /** A box counts as a vehicle: a vehicle class, confidence strictly above
      the threshold. */
  predicate Accepted(b: Box)
  {
    b.className in VehicleClasses && b.conf > ConfidenceThreshold
  }

  function Min(a: nat, b: nat): nat
  {
    if a <= b then a else b
  }

  /** `frame[y:y+h, x:x+w]`: numpy clamps both slice bounds to the array, so
      the crop is the part of the ROI that lies inside the frame. */
  function Crop(f: Image, r: Roi): (c: Image)
    ensures Height(c) == Min(r.y + r.h, Height(f)) - Min(r.y, Height(f))
    ensures Height(c) > 0 ==> Width(c) == Min(r.x + r.w, Width(f)) - Min(r.x, Width(f))
    ensures Height(c) <= r.h && Width(c) <= r.w
    ensures forall i, j :: 0 <= i < Height(c) && 0 <= j < Width(c) ==>
              r.y + i < Height(f) && r.x + j < Width(f) && c[i][j] == f[r.y + i][r.x + j]
  {
    var y0 := Min(r.y, Height(f));
    var y1 := Min(r.y + r.h, Height(f));
    var x0 := Min(r.x, Width(f));
    var x1 := Min(r.x + r.w, Width(f));
    var rows := seq(y1 - y0, i requires 0 <= i < y1 - y0 => f[y0 + i][x0..x1]);
    assert forall i :: 0 <= i < |rows| ==> |rows[i]| == x1 - x0;
    rows
  }

  /** The boxes of a whole detector result, page after page. */
  function Flatten(pages: seq<seq<Box>>): seq<Box>
  {
    if pages == [] then [] else pages[0] + Flatten(pages[1..])
  }

  /** The accepted boxes of `bs`, in order: exactly the accepted ones, each as
      often as it occurs in `bs`. */
  function AcceptedBoxes(bs: seq<Box>): (r: seq<Box>)
    ensures forall b :: b in r ==> Accepted(b)
    ensures forall b :: Accepted(b) ==> multiset(r)[b] == multiset(bs)[b]
  {
    if bs == [] then []
    else
      assert bs == [bs[0]] + bs[1..];
      (if Accepted(bs[0]) then [bs[0]] else []) + AcceptedBoxes(bs[1..])
  }

  lemma {:induction false} AcceptedBoxesAppend(a: seq<Box>, b: seq<Box>)
    ensures AcceptedBoxes(a + b) == AcceptedBoxes(a) + AcceptedBoxes(b)
  {
    if a != [] {
      assert (a + b)[1..] == a[1..] + b;
      AcceptedBoxesAppend(a[1..], b);
    } else {
      assert a + b == b;
    }
  }

  /** The inner loop of `process_region`: one increment per accepted box. */
  function CountInPage(boxes: seq<Box>, count: int): (r: int)
    ensures r == count + |AcceptedBoxes(boxes)|
  {
    if boxes == [] then count
    else CountInPage(boxes[1..], if Accepted(boxes[0]) then count + 1 else count)
  }

  /** The outer loop of `process_region`, over the detector's result pages. */
  function CountPages(pages: seq<seq<Box>>, count: int): (r: int)
    ensures r == count + |AcceptedBoxes(Flatten(pages))|
  {
    if pages == [] then count
    else
      AcceptedBoxesAppend(pages[0], Flatten(pages[1..]));
      CountPages(pages[1..], CountInPage(pages[0], count))
  }

  /** `process_region(region, vehicle_count)`: the incoming count plus the
      number of accepted boxes the detector reports for the region. */
  function ProcessRegion(detect: Detector, region: Image, count: int): (r: int)
    ensures r == count + |AcceptedBoxes(Flatten(detect(region)))|
  {
    CountPages(detect(region), count)
  }

  /** The count one ROI contributes on its own. */
  function RegionCount(detect: Detector, f: Image, r: Roi): nat
  {
    |AcceptedBoxes(Flatten(detect(Crop(f, r))))|
  }

  /** Reference definition: the sum, over the ROIs, of what each contributes. */
  function RoiTotal(detect: Detector, f: Image, rois: seq<Roi>): nat
  {
    if rois == [] then 0 else RegionCount(detect, f, rois[0]) + RoiTotal(detect, f, rois[1..])
  }

  /** The loop of `process_frame`: crop each ROI in order and pass the
      running count through `process_region`. */
  function FoldRois(detect: Detector, f: Image, rois: seq<Roi>, count: int): (r: int)
    ensures r == count + RoiTotal(detect, f, rois)
  {
    if rois == [] then count
    else FoldRois(detect, f, rois[1..], ProcessRegion(detect, Crop(f, rois[0]), count))
  }

  /** `process_frame(frame, rois, vehicle_count)`: an absent or zero-size
      frame leaves the count as it was; otherwise each ROI adds its count. */
  function ProcessFrame(detect: Detector, frame: Option<Image>, rois: seq<Roi>, count: int): (r: int)
    ensures frame.None? || IsEmpty(frame.value) ==> r == count
    ensures frame.Some? && !IsEmpty(frame.value) ==> r == count + RoiTotal(detect, frame.value, rois)
    ensures r >= count
  {
    if frame.None? || IsEmpty(frame.value) then count
    else FoldRois(detect, frame.value, rois, count)
  }

  lemma {:induction false} RoiTotalAppend(detect: Detector, f: Image, a: seq<Roi>, b: seq<Roi>)
    ensures RoiTotal(detect, f, a + b) == RoiTotal(detect, f, a) + RoiTotal(detect, f, b)
  {
    if a == [] {
      assert a + b == b;
    } else {
      assert (a + b)[1..] == a[1..] + b;
      RoiTotalAppend(detect, f, a[1..], b);
    }
  }

  /** Counting over a concatenation of ROI lists is counting over the first
      list and then feeding its count into the second. */
  lemma ProcessFrameAppend(detect: Detector, frame: Option<Image>, a: seq<Roi>, b: seq<Roi>, count: int)
    ensures ProcessFrame(detect, frame, a + b, count)
         == ProcessFrame(detect, frame, b, ProcessFrame(detect, frame, a, count))
  {
    if frame.Some? && !IsEmpty(frame.value) {
      RoiTotalAppend(detect, frame.value, a, b);
    }
  }

  /** Linearity across ROIs: the count over a list of ROIs is the sum of the
      counts over each single ROI. */
  lemma {:induction false} ProcessFrameLinear(detect: Detector, frame: Option<Image>, rois: seq<Roi>)
    ensures ProcessFrame(detect, frame, rois, 0) == SingleRoiSum(detect, frame, rois)
  {
    if rois != [] {
      ProcessFrameLinear(detect, frame, rois[1..]);
      assert rois == [rois[0]] + rois[1..];
      ProcessFrameAppend(detect, frame, [rois[0]], rois[1..], 0);
      if frame.Some? && !IsEmpty(frame.value) {
        RoiTotalAppend(detect, frame.value, [rois[0]], rois[1..]);
      }
    }
  }

  /** The sum over the ROIs of `process_frame` called with that ROI alone. */
  function SingleRoiSum(detect: Detector, frame: Option<Image>, rois: seq<Roi>): int
  {
    if rois == [] then 0
    else ProcessFrame(detect, frame, [rois[0]], 0) + SingleRoiSum(detect, frame, rois[1..])
  }

  /** A box whose confidence is exactly the threshold is not counted. */
  lemma ThresholdIsStrict(detect: Detector, region: Image, name: string, count: int)
    requires detect(region) == [[Box(name, ConfidenceThreshold)]]
    ensures ProcessRegion(detect, region, count) == count
  {
    assert Flatten(detect(region)) == [Box(name, ConfidenceThreshold)];
  }

  /** The right-lane ROI of the first camera, `(1200, 140, 900, 300)`, on a
      1920 x 1080 frame is clamped to 720 columns. */
  lemma CropClampsToFrame(f: Image)
    requires Height(f) == 1080 && Width(f) == 1920
    ensures Width(Crop(f, Roi(1200, 140, 900, 300))) == 720
    ensures Height(Crop(f, Roi(1200, 140, 900, 300))) == 300
  {
  }
}
