/**
  The dashboard side of the two stores (app.py): `/send_command` writes the
  posted body to the command store, `/vehicle_counts` serves the counts
  document, or all-zero counts when it cannot be read.
 */
module Dashboard {
  import opened Wrappers
  import opened Documents
  import opened LaneAggregator
  import opened CountsDocument

  /** The outcome of opening and writing a store file. */
  datatype WriteOutcome = Written | WriteFailed(reason: string)

  const NoCommandMessage: string := "Không có lệnh nào được gửi"
  const WriteErrorPrefix: string := "Lỗi ghi file: "

  function OkReply(): Json
  {
    JObj(map["status" := JStr("OK")])
  }

  function ErrorReply(message: string): Json
  {
    JObj(map["status" := JStr("error"), "message" := JStr(message)])
  }

  /** The `status` field of a reply. */
  function Status(reply: Json): Option<string>
  {
    if reply.JObj? && "status" in reply.fields && reply.fields["status"].JStr?
    then Some(reply.fields["status"].s)
    else None
  }

  /** Bodies for which Python's `"command" in data` is defined: a dict (key
      lookup), a list (element lookup) or a string (substring lookup). */
  predicate Searchable(body: Json)
  {
    body.JObj? || body.JArr? || body.JStr?
  }

  /** `p` is a prefix of `s` or of one of its suffixes. */
  predicate Contains(s: string, p: string)
  {
    p <= s || (s != [] && Contains(s[1..], p))
  }

  /** `p` occurs in `s` starting at offset `i`. */
  predicate OccursAt(s: string, p: string, i: nat)
  {
    i + |p| <= |s| && s[i..i + |p|] == p
  }

  /** `Contains` is substring search: `p` occurs at some offset of `s`. */
  lemma {:induction false} ContainsAt(s: string, p: string)
    ensures Contains(s, p) <==> exists i: nat :: OccursAt(s, p, i)
    decreases |s|
  {
    if p <= s {
      assert OccursAt(s, p, 0);
    } else if s == [] {
      assert forall i: nat :: !OccursAt(s, p, i);
    } else {
      ContainsAt(s[1..], p);
      if Contains(s[1..], p) {
        var i: nat :| OccursAt(s[1..], p, i);
        assert s[1..][i..i + |p|] == s[i + 1..i + 1 + |p|];
        assert OccursAt(s, p, i + 1);
      } else {
        forall i: nat
          ensures !OccursAt(s, p, i)
        {
          if i > 0 && i + |p| <= |s| {
            assert s[1..][i - 1..i - 1 + |p|] == s[i..i + |p|];
            assert !OccursAt(s[1..], p, i - 1);
          }
        }
      }
    }
  }

  /** Python's `"command" in data`: a key of an object, an element of a list,
      or a substring of a string. */
  predicate HasCommand(body: Json): (has: bool)
    requires Searchable(body)
    ensures body.JObj? ==> (has <==> "command" in body.fields)
    ensures body.JArr? ==> (has <==> exists i :: 0 <= i < |body.items| && body.items[i] == JStr("command"))
    ensures body.JStr? ==> (has <==> exists i: nat :: OccursAt(body.s, "command", i))
  {
    if body.JStr? then ContainsAt(body.s, "command"); Contains(body.s, "command")
    else if body.JObj? then "command" in body.fields
    else JStr("command") in body.items
  }

  datatype Response = Response(reply: Json, store: File)

  /** `send_command()` given the body `request.get_json()` returned, the
      command store's content and the outcome of writing the store. */
  function SendCommand(body: Json, store: File, write: WriteOutcome): (r: Response)
    requires Searchable(body)
    ensures Status(r.reply) == Some("OK") <==> HasCommand(body) && write.Written?
    ensures Status(r.reply) != Some("OK") ==> Status(r.reply) == Some("error") && r.store == store
    ensures HasCommand(body) && write.Written? ==> r.store == Stored(body)
    ensures !HasCommand(body) ==> r.reply == ErrorReply(NoCommandMessage)
    ensures HasCommand(body) && write.WriteFailed? ==> r.reply == ErrorReply(WriteErrorPrefix + write.reason)
  {
    if HasCommand(body) then
      match write
      case Written => Response(OkReply(), Stored(body))
      case WriteFailed(reason) => Response(ErrorReply(WriteErrorPrefix + reason), store)
    else Response(ErrorReply(NoCommandMessage), store)
  }

  /** The fallback document: every lane 0. */
  function ZeroCounts(): (z: Json)
    ensures DecodeCounts(z) == Some(Counts(0, 0, 0, 0))
  {
    var z := JObj(map["lane_4" := JNum(0), "lane_2" := JNum(0), "lane_3" := JNum(0), "lane_1" := JNum(0)]);
    assert z == CountsDoc(Counts(0, 0, 0, 0));
    CountsDocRoundTrip(Counts(0, 0, 0, 0));
    z
  }

  /** `vehicle_counts()`: the stored document as decoded, whatever its shape,
      or all-zero lanes when the file is missing or undecodable. Only those
      two errors are caught: a file that cannot be opened or read as text
      makes the route fail, which is `None`. */
  function VehicleCounts(f: File): (served: Option<Json>)
    ensures served.None? <==> f.Unreadable?
    ensures f.Stored? ==> served == Some(f.doc)
    ensures f.Missing? || f.Corrupt? ==> served.Some? && DecodeCounts(served.value) == Some(Counts(0, 0, 0, 0))
  {
    match f
    case Stored(d) => Some(d)
    case Unreadable => None
    case _ => Some(ZeroCounts())
  }

  /** A read that lands during a save is served either the lanes being saved
      or, between the truncation and the write, all-zero lanes. */
  lemma ReadDuringSave(c: Counts, i: nat)
    requires i < |SaveStates(c)|
    ensures VehicleCounts(SaveStates(c)[i]).Some?
    ensures i == 0 ==> DecodeCounts(VehicleCounts(SaveStates(c)[i]).value) == Some(Counts(0, 0, 0, 0))
    ensures i > 0 ==> DecodeCounts(VehicleCounts(SaveStates(c)[i]).value) == Some(c)
  {
  }

  /** What a completed save wrote is exactly what the dashboard serves. */
  lemma DashboardSeesSavedCounts(c: Counts)
    ensures VehicleCounts(SaveCounts(c)).Some?
    ensures DecodeCounts(VehicleCounts(SaveCounts(c)).value) == Some(c)
  {
    CountsDocRoundTrip(c);
  }
}
