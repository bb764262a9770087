/**
  One iteration of the control loop of main.py: count the four lanes from the
  two cameras' latest frames, send the telemetry line when the rate limiter
  allows it, relay a pending command, and save the counts document.
 */
module MainLoop {
  import opened Wrappers
  import opened Documents
  import opened RegionCounter
  import opened LaneAggregator
  import opened CountsDocument
  import RateLimiter
  import CommandRelay
  import Dashboard
  import Decimal

  /** The state the loop keeps between iterations, with the two stores. */
  datatype Loop = Loop(limiter: RateLimiter.Limiter, relay: CommandRelay.Relay, countsFile: File)

  const Boot: Loop := Loop(RateLimiter.Initial, CommandRelay.Start, Missing)

  /** What one iteration observes: each camera's latest frame (`None` before
      the first one arrived) and the clock. */
  datatype Inputs = Inputs(cam1: Option<Image>, cam2: Option<Image>, now: real)

  /** The lanes counted, the telemetry line and the command line written to
      the serial link (in that order, each when there is one), and the state
      after the iteration. */
  datatype Iteration = Iteration(lanes: Counts, telemetry: Option<string>, command: Option<string>, next: Loop)

  function Iterate(detect: Detector, s: Loop, inp: Inputs): (it: Iteration)
    ensures it.lanes.lane4 == LaneValue(detect, inp.cam1, RoiCam1Right)
    ensures it.lanes.lane2 == LaneValue(detect, inp.cam1, RoiCam1Left)
    ensures it.lanes.lane3 == LaneValue(detect, inp.cam2, RoiCam2Right)
    ensures it.lanes.lane1 == LaneValue(detect, inp.cam2, RoiCam2Left)
    ensures it.next.countsFile == SaveCounts(it.lanes)
    ensures it.telemetry.Some? <==> inp.now - s.limiter.lastSend >= RateLimiter.SendInterval
    ensures it.telemetry.Some? ==> it.telemetry.value == TelemetryLine(it.lanes)
    ensures it.next.limiter.lastSend == if it.telemetry.Some? then inp.now else s.limiter.lastSend
    ensures it.command.Some? <==> CommandRelay.Pending(s.relay)
    ensures it.command.Some? ==> it.command.value == CommandRelay.CommandLine(CommandRelay.ReadCommand(s.relay.store).value)
    ensures it.command.Some? ==> it.next.relay.lastCommand == CommandRelay.ReadCommand(s.relay.store)
    ensures it.command.Some? ==> it.next.relay.store == Stored(CommandRelay.Cleared)
    ensures it.command.None? ==> it.next.relay == s.relay
  {
    var lanes := CountLanes(detect, inp.cam1, inp.cam2);
    var d := RateLimiter.Step(s.limiter, inp.now);
    var telemetry := if d.write then Some(TelemetryLine(lanes)) else None;
    var p := CommandRelay.Poll(s.relay);
    var command := if p.sent.Some? then Some(CommandRelay.CommandLine(p.sent.value)) else None;
    Iteration(lanes, telemetry, command, Loop(d.next, p.next, SaveCounts(lanes)))
  }

  /** At start-up `last_send_time` is 0, so the first iteration at time 1 or
      later sends the telemetry line of the lanes it counted. */
  lemma FirstIterationSends(detect: Detector, inp: Inputs)
    requires inp.now >= RateLimiter.SendInterval
    ensures Iterate(detect, Boot, inp).telemetry == Some(TelemetryLine(Iterate(detect, Boot, inp).lanes))
  {
  }

  /** A telemetry line, when one is sent, carries this iteration's
      directional totals: camera 2's two lanes first, camera 1's second. */
  lemma TelemetryReflectsIteration(detect: Detector, s: Loop, inp: Inputs)
    requires inp.now - s.limiter.lastSend >= RateLimiter.SendInterval
    ensures ParseTelemetry(Iterate(detect, s, inp).telemetry.value)
         == Some(Totals(LaneValue(detect, inp.cam2, RoiCam2Right) + LaneValue(detect, inp.cam2, RoiCam2Left),
                        LaneValue(detect, inp.cam1, RoiCam1Right) + LaneValue(detect, inp.cam1, RoiCam1Left)))
  {
    var it := Iterate(detect, s, inp);
    SentLineReadsBack(it);
    DirectionsOfIteration(detect, s, inp);
  }

  lemma DirectionsOfIteration(detect: Detector, s: Loop, inp: Inputs)
    ensures Directions(Iterate(detect, s, inp).lanes)
         == Totals(LaneValue(detect, inp.cam2, RoiCam2Right) + LaneValue(detect, inp.cam2, RoiCam2Left),
                   LaneValue(detect, inp.cam1, RoiCam1Right) + LaneValue(detect, inp.cam1, RoiCam1Left))
  {
    IterationLanes(detect, s, inp);
    DirectionsOfCountLanes(detect, inp.cam1, inp.cam2);
  }

  /** Helper for `DirectionsOfIteration`: the iteration's lanes are those
      `CountLanes` gives. */
  lemma IterationLanes(detect: Detector, s: Loop, inp: Inputs)
    ensures Iterate(detect, s, inp).lanes == CountLanes(detect, inp.cam1, inp.cam2)
  {
  }

  /** Helper for `DirectionsOfIteration`: the directional totals of
      `CountLanes`, lane by lane. */
  lemma DirectionsOfCountLanes(detect: Detector, cam1: Option<Image>, cam2: Option<Image>)
    ensures Directions(CountLanes(detect, cam1, cam2))
         == Totals(LaneValue(detect, cam2, RoiCam2Right) + LaneValue(detect, cam2, RoiCam2Left),
                   LaneValue(detect, cam1, RoiCam1Right) + LaneValue(detect, cam1, RoiCam1Left))
  {
  }

  /** Helper for `TelemetryReflectsIteration`: `TelemetryRoundTrip` applied
      to the lanes of an iteration. */
  lemma SentLineReadsBack(it: Iteration)
    requires it.telemetry == Some(TelemetryLine(it.lanes))
    ensures ParseTelemetry(it.telemetry.value) == Some(Directions(it.lanes))
  {
    TelemetryRoundTrip(it.lanes);
  }

  /** After the iteration the dashboard serves exactly the four lanes just
      counted. */
  lemma DashboardSeesIteration(detect: Detector, s: Loop, inp: Inputs)
    ensures Dashboard.VehicleCounts(Iterate(detect, s, inp).next.countsFile).Some?
    ensures DecodeCounts(Dashboard.VehicleCounts(Iterate(detect, s, inp).next.countsFile).value) == Some(Iterate(detect, s, inp).lanes)
  {
    Dashboard.DashboardSeesSavedCounts(Iterate(detect, s, inp).lanes);
  }

  /** No carry-over: the lanes and the saved document depend on the frames
      only, never on what earlier iterations counted. */
  lemma NoCarryOver(detect: Detector, s1: Loop, s2: Loop, inp: Inputs)
    ensures Iterate(detect, s1, inp).lanes == Iterate(detect, s2, inp).lanes
    ensures Iterate(detect, s1, inp).next.countsFile == Iterate(detect, s2, inp).next.countsFile
  {
  }

  /** A command line starts with 'C' and a telemetry line with a digit, and
      a whole command line never parses as telemetry. */
  lemma LinesDistinguishable(c: Counts, cmd: string)
    ensures TelemetryLine(c)[0] != CommandRelay.CommandLine(cmd)[0]
    ensures ParseTelemetry(CommandRelay.CommandLine(cmd)).None?
  {
    var line := CommandRelay.CommandLine(cmd);
    var body := line[..|line| - 1];
    assert body[0] == 'C';
    var k := IndexOfComma(body);
    if k < |body| && k > 0 {
      assert body[..k][0] == 'C';
      assert !Decimal.AllDigits(body[..k]);
    }
  }

  /** As written, a forwarded command may carry an inner newline, which
      `strip()` keeps: the command "go\n6,5" is forwarded, and its serial
      write is two lines, the second a well-formed telemetry line. */
  lemma CommandForgesTelemetry()
    ensures CommandRelay.Poll(CommandRelay.Relay(None, CommandRelay.StoreWith("go\n6,5"))).sent == Some("go\n6,5")
    ensures CommandRelay.CommandLine("go\n6,5") == "CMD:go\n" + TelemetryLine(Counts(3, 2, 1, 5))
    ensures ParseTelemetry(TelemetryLine(Counts(3, 2, 1, 5))) == Some(Totals(6, 5))
    ensures !CommandRelay.OneLine(CommandRelay.CommandLine("go\n6,5"))
  {
    CommandRelay.ReadStoreWith("go\n6,5");
    TelemetryExample();
    TelemetryRoundTrip(Counts(3, 2, 1, 5));
    assert CommandRelay.CommandLine("go\n6,5")[6] == '\n';
  }

  /** With the intended relay every command write is a single line, and that
      line never parses as telemetry. */
  lemma OneLineCommandsDistinguishable(s: CommandRelay.Relay)
    ensures CommandRelay.PollOneLine(s).sent.Some? ==>
              CommandRelay.OneLine(CommandRelay.CommandLine(CommandRelay.PollOneLine(s).sent.value))
              && ParseTelemetry(CommandRelay.CommandLine(CommandRelay.PollOneLine(s).sent.value)).None?
  {
    var p := CommandRelay.PollOneLine(s);
    if p.sent.Some? {
      LinesDistinguishable(Counts(0, 0, 0, 0), p.sent.value);
    }
  }
}
