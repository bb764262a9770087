# Smart traffic light: counting, telemetry and command relay

This project models the decision logic of a traffic-light controller.
The controller counts vehicles in four camera lanes and sends two
directional totals to a microcontroller over a serial link. It also relays
operator commands from a web dashboard to the same link. Everything is
modelled as pure functions over immutable values.

- `RegionCounter` (region_counter.dfy): `process_region` and
  `process_frame`. The object detector is a function parameter from an image
  to result pages of boxes, each with a class name and a real confidence.
  Frames are rectangular `seq<seq<Pixel>>`; an absent frame is `None`.
  The ROI crop is numpy's clamped slice.
- `LaneAggregator` (lane_aggregator.dfy): the four lane counters of one
  iteration, the two directional totals and the telemetry line
  `"<lane_3+lane_1>,<lane_4+lane_2>\n"`. A parser for that line is the
  partner of the renderer.
- `Decimal` (decimal.dfy): Python's rendering of a non-negative `int` as
  decimal digits, and reading the digits back.
- `RateLimiter` (rate_limiter.dfy): the one-variable telemetry limiter
  (`last_send_time`, interval 1). Time is a real number of seconds.
- `Text` (text.dfy): `str.strip()` over the characters `str.isspace()`
  accepts.
- `Documents` (documents.dfy): JSON values and the state of a store file
  (missing, unreadable as text, undecodable, or a decoded document).
- `CommandRelay` (command_relay.dfy): the relay state
  `(last_command, command store)`, one poll, and runs of polls.
- `CountsDocument` (counts_document.dfy): the counts document saved every
  iteration, and how the dashboard page reads the four lanes.
- `Dashboard` (dashboard.dfy): `send_command` and `vehicle_counts` of app.py.
  The outcome of the file write is a parameter.
- `Protocol` (protocol.dfy): the dashboard and the control loop as two
  parties. A relay poll is two steps: a read that forwards a pending command
  and sets `last_command`, then the write of the cleared document. Posts
  interleave with both steps over the single command-store value, so a post
  that lands between them is answered OK and then overwritten.
- `MainLoop` (main_loop.dfy): one iteration of the control loop, tying the
  modules above together. Its relay poll is the read and the clear with no
  post in between; `Protocol` covers the posts that land between them.

The code never resets `last_command`. A command equal to the last forwarded
one is therefore never forwarded again, even after the store was cleared or
emptied. A reading in which an empty command resets the relay, so that
"go" posted again after it is forwarded again, does not match the code. The
model follows the code: store reads "go", "go", "", "go", "stop" forward "go" and "stop" only
(`CommandRelay.ForwardExample`, `Protocol.ProtocolExample`).

## Model

| member | source | states |
|---|---|---|
| Text.Strip | main.py:166 | the stripped command has no whitespace at either end, is no longer than the input, and is empty exactly when the input is all whitespace |
| Text.StripPadded | main.py:166 | stripping any whitespace padding around a trimmed string gives back exactly that string (strip is determined by its result) |
| Text.StripIdempotent | main.py:166 | stripping a stripped command changes nothing |
| Decimal.NatToString | main.py:159 | a count renders as a non-empty string of decimal digits with no leading zero except for 0 itself |
| Decimal.ParseNatToString | main.py:159 | reading the rendered digits back gives the original count |
| Decimal.NatToStringInjective | main.py:159 | two different counts never render to the same text |
| RegionCounter.Crop | main.py:107 | the crop of ROI (x, y, w, h) has rows min(y,H)..min(y+h,H) and columns min(x,W)..min(x+w,W), is never larger than the ROI, and every crop pixel (i, j) is frame pixel (y+i, x+j), so no index is out of range |
| RegionCounter.CropClampsToFrame | main.py:107 | ROI (1200, 140, 900, 300) on a 1920 x 1080 frame yields a 720-wide, 300-high crop |
| RegionCounter.AcceptedBoxes | main.py:90 | the accepted boxes are exactly those with a vehicle class and confidence strictly above 0.3, each kept as often as the detector reported it |
| RegionCounter.AcceptedBoxesAppend | main.py:82-91 | filtering the boxes of two result pages is filtering each page in turn |
| RegionCounter.CountInPage | main.py:84-91 | the inner loop adds one to the count per accepted box of the page |
| RegionCounter.CountPages | main.py:82-91 | the loop over result pages adds the number of accepted boxes across all pages |
| RegionCounter.ProcessRegion | main.py:78-98 | process_region returns the incoming count plus the number of accepted boxes the detector reports for the region |
| RegionCounter.ThresholdIsStrict | main.py:90 | a box at confidence exactly 0.3 is not counted, whatever its class |
| RegionCounter.FoldRois | main.py:105-110 | the loop over ROIs returns the incoming count plus the sum, over the ROIs, of what each cropped region contributes |
| RegionCounter.ProcessFrame | main.py:100-110 | an absent or zero-size frame returns the incoming count unchanged; otherwise the count grows by the sum over the ROIs |
| RegionCounter.RoiTotalAppend | main.py:105-110 | the ROI sum is additive over concatenation of ROI lists |
| RegionCounter.ProcessFrameAppend | main.py:105-110 | process_frame over a + b equals process_frame over b fed with the count of process_frame over a |
| RegionCounter.ProcessFrameLinear | main.py:100-110 | process_frame over a list of ROIs from 0 equals the sum of process_frame over each single ROI from 0 |
| LaneAggregator.CountLanes | main.py:130-152 | every lane starts at 0; lanes 4 and 2 come from camera 1's two ROIs, lanes 3 and 1 from camera 2's; a camera without a frame leaves its lanes at 0 |
| LaneAggregator.LanesPerCamera | main.py:136-152 | a camera's lanes do not depend on the other camera's frame |
| LaneAggregator.Directions | main.py:155-156 | land1 is camera 2's lanes (lane_3 + lane_1), and the two totals together count every lane once |
| LaneAggregator.TelemetryLine | main.py:159 | the telemetry line starts with a digit and ends with a newline |
| LaneAggregator.TelemetryRoundTrip | main.py:155-159 | the receiver reads the telemetry line as lane_3 + lane_1 first and lane_4 + lane_2 second, exactly |
| LaneAggregator.TelemetryExample | main.py:155-159 | lanes lane_4 = 3, lane_2 = 2, lane_3 = 1, lane_1 = 5 are sent as "6,5\n" |
| RateLimiter.Step | main.py:157-161 | a write happens iff now - last_send_time >= 1, and last_send_time becomes now only on a write |
| RateLimiter.Run | main.py:157-161 | over successive iterations, each write time is one of the iteration times, the first write is at least 1 after the initial state, consecutive writes are at least 1 apart, and the final state is the last write time |
| RateLimiter.RunSnoc | main.py:157-161 | one more iteration at time t writes exactly when t is at least 1 after the last write so far (or the initial state), and t then becomes the last write; otherwise nothing changes |
| RateLimiter.WritesSpaced | main.py:157-161 | writes i < j are at least j - i seconds apart |
| RateLimiter.BurstWritesAtMostOnce | main.py:157-161 | iterations that all fall within less than 1 second of each other write at most once |
| RateLimiter.FirstCallWrites | main.py:18-20 | from the initial last_send_time of 0, the first iteration at time 1 or later writes |
| CommandRelay.ReadCommand | main.py:163-166 | a readable object store yields its stripped "command" string, or "" without the key; a missing or undecodable file, a non-object document or a non-string command yields nothing |
| CommandRelay.Poll | main.py:166-177 | the relay forwards iff the stripped command is non-empty and differs from last_command; on forward last_command becomes it and the store becomes {"command": ""}; otherwise nothing changes |
| CommandRelay.PollAtMostOnce | main.py:170-177 | a poll directly after a poll forwards nothing |
| CommandRelay.Forwarded | main.py:166-177 | over any sequence of store reads, the forwarded commands are non-empty and stripped, no two consecutive ones are equal, and the first differs from the initial last_command |
| CommandRelay.ForwardedSnoc | main.py:166-177 | one more poll forwards its command exactly when it is non-empty and differs from the last command forwarded so far (or the initial last_command), which nothing resets |
| CommandRelay.CommandLine | main.py:171 | a command line is "CMD:", then the command itself, recoverable from the line, then a newline |
| CommandRelay.CommandLineIsOneLine | main.py:171 | a command without a newline is written as exactly one newline-terminated line |
| CommandRelay.PollOneLine | main.py:166-177 | the intended poll forwards exactly the pending commands without a newline, each as one line, and otherwise behaves as the poll does |
| CommandRelay.RepeatNeverForwarded | main.py:170-173 | a read equal to last_command forwards nothing and leaves the relay memory unchanged |
| CommandRelay.ReadStoreWith | main.py:166 | a store holding {"command": c} with c trimmed reads back as c |
| CommandRelay.ForwardExample | main.py:166-177 | reads "go", "go", "", "go", "stop" forward exactly "go" then "stop" |
| CountsDocument.CountsDoc | main.py:182-187 | the counts document has exactly the keys lane_4, lane_2, lane_3 and lane_1, each a non-negative integer |
| CountsDocument.SaveCounts | main.py:113-115 | after saving, the counts file holds a document that decodes to exactly the lanes saved, whatever the file held before |
| CountsDocument.CountsDocRoundTrip | main.py:182-188 | the saved counts document reads back as the same four lane values |
| Dashboard.SendCommand | app.py:28-39 | the reply is OK iff the body has "command" and the write succeeded, and then the store holds the whole body, extra fields included; otherwise the reply has status "error" with the missing-command or write-error message and the store is unchanged |
| Dashboard.ContainsAt | app.py:31 | the recursive substring test holds exactly when the pattern occurs at some offset of the string |
| Dashboard.HasCommand | app.py:31 | `"command" in data` is key membership for an object, element membership for a list, and occurrence at some offset for a string |
| Dashboard.ZeroCounts | app.py:18-24 | the fallback document decodes to all four lanes 0 |
| Dashboard.VehicleCounts | app.py:13-25 | a readable counts file is served unchanged; a missing or undecodable one is served as all four lanes 0; a file that exists but cannot be opened or read as text makes the route fail |
| Dashboard.DashboardSeesSavedCounts | app.py:15-25 | a read after a completed save is served exactly the four lanes main.py saved |
| CountsDocument.SaveStates | main.py:113-115 | a save first truncates the file, leaving text that does not decode, and ends with the counts document stored |
| Dashboard.ReadDuringSave | app.py:15-24 | a read that lands during a save is served all-zero lanes if it falls between the truncation and the write, and the saved lanes otherwise |
| Protocol.Apply | main.py:163-177 | an operator post changes only the command store; a read forwards iff no clear is owed and the command is pending, then sets last_command and owes the clear while leaving the store as it was; the clear writes {"command": ""} and keeps last_command |
| Protocol.LookThenClearIsPoll | main.py:163-177 | a read followed directly by its clear sends and leaves exactly what one atomic poll of the relay would |
| Protocol.Run | main.py:163-177 | under any interleaving of posts, reads and clears, no command is sent twice in a row, the first differs from the initial last_command, and last_command ends as the last command sent |
| Protocol.RunSnoc | main.py:163-177 | one more event extends the run by exactly that event's step from the state the run reached, so every forward a step calls for happens |
| Protocol.ClearOverwritesPost | main.py:176-177 | a post that lands while a clear is owed is overwritten by that clear, whatever it wrote |
| Protocol.PostBetweenReadAndClearIsLost | app.py:31-35 | with "go" in the store, a read, an accepted post of "stop", the clear and another read send only "go": the accepted "stop" is lost |
| Protocol.SentWasPosted | main.py:163-177 | every command sent was carried by a post the dashboard accepted, given a store that held nothing forwardable or a posted command |
| Protocol.FreshStartSendsOnlyPosted | app.py:31-35 | from a fresh start every command sent to the microcontroller was posted to the dashboard and written |
| Protocol.AlternatingMatchesRelay | main.py:163-177 | when each post is followed by one poll, the two-party run sends exactly what the relay forwards on the posted values |
| Protocol.ProtocolExample | main.py:166-177 | posting "go", "go", "", "go", "stop" with a poll after each sends "go" and "stop" only |
| MainLoop.Iterate | main.py:130-188 | one iteration counts each lane from its camera's ROI, sends the telemetry line of those lanes iff the limiter allows, forwards a pending command (then remembers it and clears the command store; otherwise the relay is untouched), and saves exactly these lanes |
| MainLoop.TelemetryReflectsIteration | main.py:154-159 | a telemetry line sent in an iteration carries camera 2's two lanes summed first and camera 1's second, as counted in that iteration |
| MainLoop.DirectionsOfIteration | main.py:155-156 | the directional totals of an iteration are the sums of the configured lane pairs |
| MainLoop.DashboardSeesIteration | main.py:182-188 | a read after the iteration's save completed is served exactly the four lanes it counted |
| MainLoop.FirstIterationSends | main.py:18-20 | from start-up, the first iteration at time 1 or later sends the telemetry line of the lanes it counted |
| MainLoop.NoCarryOver | main.py:131-134 | the lanes and the saved document of an iteration do not depend on earlier iterations |
| MainLoop.LinesDistinguishable | main.py:159-171 | a command line and a telemetry line differ in their first character, and a whole command line never parses as telemetry |
| MainLoop.CommandForgesTelemetry | main.py:166-171 | as written, the command "go\n6,5" is forwarded and its serial write is "CMD:go\n" followed by the telemetry line of totals 6 and 5, so it is not one line |
| MainLoop.OneLineCommandsDistinguishable | main.py:166-171 | with the intended relay every command write is exactly one line, and that line never parses as telemetry |

## Left out

- Frame acquisition (`VideoStream`, its threads, the `stopped` flag, webcam and URL capture): concurrency and device I/O. Each camera's latest frame is an input of the iteration.
- The detector call and the class-name lookup: the detector is an opaque function parameter that already reports class names.
- Drawing and windowing (rectangles, text, `imshow`, `waitKey`, closing windows) are not modelled. The drawing is not rendering only: main.py:106 draws each ROI rectangle into the frame before main.py:107 crops it, and main.py:96-97 draw boxes and labels into the crop, which is a view of the frame. The detector is modelled as seeing the unannotated crop. The `q` key that ends the loop is not modelled.
- RegionCounter.ProcessFrameLinear: holds of main.py only when no annotation reaches a crop. Over overlapping ROIs, a later crop in the same call sees the earlier ROIs' drawings.
- MainLoop.NoCarryOver: holds of main.py only when no annotation reaches a crop. A camera returns the same array until a new frame arrives, and main.py draws on that array in place, so any iteration that runs faster than the camera (or follows a camera whose thread stopped) detects on pixels the previous iteration annotated.
- RegionCounter.ThresholdIsStrict: confidences are exact reals here. In main.py they are floating-point values taken from the detector's tensor; if it is single precision, a confidence the detector reports as 0.3 is the float nearest 0.3, which lies above the double 0.3 and is counted.
- Dashboard.DashboardSeesSavedCounts: holds for a read after a completed save, as does MainLoop.DashboardSeesIteration. A read between the truncation and the write is served zeros (Dashboard.ReadDuringSave); the dashboard's reads are not interleaved with the control loop's saves in a run of the protocol, and a partly written document is not modelled.
- LaneAggregator.CountLanes: assumes the detector returns for every crop. A crop of zero width or height is passed to the detector, since only the whole frame is checked for size; on a frame narrower than an ROI's x offset the detector may raise, and nothing catches it.
- MainLoop.Iterate: a present frame of zero size yields lanes 0 and the iteration goes on. In main.py that frame then reaches `cv2.imshow`, which rejects it and ends the program. Cameras publish only frames that were read successfully, which are never empty.
- Serial port setup and reading inbound lines, including the decode-error branch: transport I/O. Outbound writes are the emitted strings.
- JSON file I/O is abstracted: a store is a `File` value, and a read that raises is a relay no-op.
- CommandRelay.Poll: failures inside the relay's broad `except` are not modelled. The serial write, the log call after it and the clear are all assumed to succeed. If the log call raised (the emoji on a console that cannot encode it), the command line would already be sent while last_command and the store stay unchanged, and the command would be re-sent on every iteration.
- Dashboard.SendCommand: a write that fails part-way, leaving a truncated file, is not modelled. A failed write leaves the store unchanged.
- Dashboard.SendCommand: requires a body that Python's `in` accepts (object, array or string). A `None` or scalar body makes `send_command` raise.
- Wall-clock time is a real number of seconds, not a floating-point value.
- RegionCounter.Crop: ROI offsets and sizes are non-negative. numpy's wrap-around for negative slice bounds is not modelled, since every configured ROI is non-negative.
- Text.IsSpace: covers the characters `str.isspace()` accepts; no other Unicode handling.
- MainLoop.LinesDistinguishable: compares first characters and whole writes. The receiver's splitting of the serial stream into lines is not modelled; a command with an inner newline yields a write whose second line is telemetry (see Findings).
- Flask routing, template rendering, server start, and the browser script's polling and clock.

## Findings

| source | as written | input that shows it | evidently intended | confidence | as-written member | corrected member |
|---|---|---|---|---|---|---|
| main.py:166-171 | `strip()` removes whitespace only at the ends, so a command with an inner newline is forwarded and written as `CMD:` plus several serial lines | a post of `{"command": "go\n6,5"}` makes the relay write "CMD:go\n6,5\n", whose second line "6,5" reads as telemetry with totals 6 and 5 | a command write is one prefixed line that the receiver cannot mistake for telemetry | medium; not executed | MainLoop.CommandForgesTelemetry | CommandRelay.PollOneLine, MainLoop.OneLineCommandsDistinguishable |

The rest of the model keeps the relay as written (`CommandRelay.Poll`), since it describes the program; `CommandRelay.PollOneLine` is the corrected poll, and the lemmas about it state the intended property.
