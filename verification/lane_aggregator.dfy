/**
  The per-iteration lane counts of main.py: each of the four lanes is read
  from one ROI of one camera, the lanes are paired into two directional
  totals, and the totals are framed as one telemetry line for the serial link.
 */
module LaneAggregator {
  import opened Wrappers
  import opened RegionCounter
  import opened Decimal

  /** The configured ROIs: two per camera. */
  const RoiCam1Right: Roi := Roi(1200, 140, 900, 300)
  const RoiCam1Left: Roi := Roi(0, 400, 700, 380)
  const RoiCam2Right: Roi := Roi(1200, 150, 900, 300)
  const RoiCam2Left: Roi := Roi(0, 450, 700, 300)

  /** The four lane counters of one iteration. */
  datatype Counts = Counts(lane4: nat, lane2: nat, lane3: nat, lane1: nat)

  /** The two directional totals: `land1` and `land2`. */
  datatype Totals = Totals(land1: nat, land2: nat)

  /** Reference value of a lane fed by `roi` of a camera: what that ROI
      contributes when the camera delivered a non-empty frame, else 0. */
  function LaneValue(detect: Detector, frame: Option<Image>, roi: Roi): nat
  {
    if frame.Some? && !IsEmpty(frame.value) then RegionCount(detect, frame.value, roi) else 0
  }

  /** The counting part of one loop iteration: all four lanes start at 0 and a
      camera's lanes are recomputed only when it returned a frame. Camera 1
      feeds lanes 4 and 2, camera 2 feeds lanes 3 and 1. */
  function CountLanes(detect: Detector, cam1: Option<Image>, cam2: Option<Image>): (c: Counts)
    ensures c.lane4 == LaneValue(detect, cam1, RoiCam1Right)
    ensures c.lane2 == LaneValue(detect, cam1, RoiCam1Left)
    ensures c.lane3 == LaneValue(detect, cam2, RoiCam2Right)
    ensures c.lane1 == LaneValue(detect, cam2, RoiCam2Left)
    ensures cam1.None? ==> c.lane4 == 0 && c.lane2 == 0
    ensures cam2.None? ==> c.lane3 == 0 && c.lane1 == 0
  {
    var lane4: nat, lane2: nat, lane3: nat, lane1: nat := 0, 0, 0, 0;
    var (lane4, lane2) :=
      if cam1.Some?
      then (ProcessFrame(detect, cam1, [RoiCam1Right], lane4), ProcessFrame(detect, cam1, [RoiCam1Left], lane2))
      else (lane4, lane2);
    var (lane3, lane1) :=
      if cam2.Some?
      then (ProcessFrame(detect, cam2, [RoiCam2Right], lane3), ProcessFrame(detect, cam2, [RoiCam2Left], lane1))
      else (lane3, lane1);
    Counts(lane4, lane2, lane3, lane1)
  }

  /** Lanes of one camera do not depend on the other camera's frame. */
  lemma LanesPerCamera(detect: Detector, cam1: Option<Image>, cam2: Option<Image>, other1: Option<Image>, other2: Option<Image>)
    ensures CountLanes(detect, cam1, cam2).lane4 == CountLanes(detect, cam1, other2).lane4
    ensures CountLanes(detect, cam1, cam2).lane2 == CountLanes(detect, cam1, other2).lane2
    ensures CountLanes(detect, cam1, cam2).lane3 == CountLanes(detect, other1, cam2).lane3
    ensures CountLanes(detect, cam1, cam2).lane1 == CountLanes(detect, other1, cam2).lane1
  {
  }

  function Directions(c: Counts): (t: Totals)
    ensures t.land1 + t.land2 == c.lane1 + c.lane2 + c.lane3 + c.lane4
    ensures t.land1 == c.lane1 + c.lane3
  {
    Totals(c.lane3 + c.lane1, c.lane4 + c.lane2)
  }

  /** `f"{land1},{land2}\n"`. */
  function TelemetryLine(c: Counts): (line: string)
    ensures |line| >= 4
    ensures IsDigit(line[0]) && line[|line| - 1] == '\n'
  {
    var t := Directions(c);
    NatToString(t.land1) + "," + NatToString(t.land2) + "\n"
  }

  /** The index of the first comma of `s`, or `|s|` when there is none. */
  function IndexOfComma(s: string): (k: nat)
    ensures k <= |s|
    ensures forall i :: 0 <= i < k ==> s[i] != ','
    ensures k < |s| ==> s[k] == ','
  {
    if s == [] || s[0] == ',' then 0 else 1 + IndexOfComma(s[1..])
  }

  /** How the receiving end reads a telemetry line: two decimal numbers
      separated by a comma, terminated by a newline. */
  function ParseTelemetry(line: string): Option<Totals>
  {
    if line == [] || line[|line| - 1] != '\n' then None
    else
      var body := line[..|line| - 1];
      var k := IndexOfComma(body);
      if k == |body| then None
      else
        var a := body[..k];
        var b := body[k + 1..];
        if a != [] && b != [] && AllDigits(a) && AllDigits(b)
        then Some(Totals(ParseDigits(a), ParseDigits(b)))
        else None
  }

  /** The telemetry line carries exactly `lane_3 + lane_1` first and
      `lane_4 + lane_2` second. */
  lemma TelemetryRoundTrip(c: Counts)
    ensures ParseTelemetry(TelemetryLine(c)) == Some(Totals(c.lane3 + c.lane1, c.lane4 + c.lane2))
  {
    var s1 := NatToString(c.lane3 + c.lane1);
    var s2 := NatToString(c.lane4 + c.lane2);
    var line := TelemetryLine(c);
    var body := s1 + "," + s2;
    assert line[..|line| - 1] == body;
    assert body[|s1|] == ',';
    assert forall i :: 0 <= i < |s1| ==> body[i] == s1[i];
    assert IndexOfComma(body) == |s1|;
    assert body[..|s1|] == s1;
    assert body[|s1| + 1..] == s2;
    ParseNatToString(c.lane3 + c.lane1);
    ParseNatToString(c.lane4 + c.lane2);
  }

  /** lane_4 = 3, lane_2 = 2, lane_3 = 1, lane_1 = 5 is sent as `6,5`. */
  lemma TelemetryExample()
    ensures TelemetryLine(Counts(3, 2, 1, 5)) == "6,5\n"
  {
  }
}
