/**
  The counts document main.py writes to `vehicle_counts.json` at the end of
  every iteration, and how the dashboard page reads the four lanes back.
 */
module CountsDocument {
  import opened Wrappers
  import opened Documents
  import opened LaneAggregator

  /** The dict main.py builds: exactly the four lane keys, each a count. */
  function CountsDoc(c: Counts): (doc: Json)
    ensures doc.JObj? && doc.fields.Keys == {"lane_4", "lane_2", "lane_3", "lane_1"}
    ensures forall k :: k in doc.fields ==> doc.fields[k].JNum? && doc.fields[k].n >= 0
  {
    JObj(map["lane_4" := JNum(c.lane4), "lane_2" := JNum(c.lane2), "lane_3" := JNum(c.lane3), "lane_1" := JNum(c.lane1)])
  }

  /** `save_counts_to_file`: the file is overwritten whatever it held, and
      afterwards decodes to exactly the lanes saved. */
  function SaveCounts(c: Counts): (f: File)
    ensures f.Stored? && DecodeCounts(f.doc) == Some(c)
  {
    CountsDocRoundTrip(c);
    Stored(CountsDoc(c))
  }

  /** The file states a save passes through, in order: `open(..., "w")`
      truncates the file, which then holds an empty text `json.load`
      rejects, and the document lands when the `with` block closes. */
  function SaveStates(c: Counts): (states: seq<File>)
    ensures |states| == 2 && states[0].Corrupt? && states[|states| - 1] == SaveCounts(c)
  {
    [Corrupt, SaveCounts(c)]
  }

  /** One lane of a counts document, when it is a non-negative number. */
  function LaneField(doc: Json, key: string): (n: Option<nat>)
    ensures n.Some? ==> doc.JObj? && key in doc.fields && doc.fields[key] == JNum(n.value)
  {
    if doc.JObj? && key in doc.fields && doc.fields[key].JNum? && doc.fields[key].n >= 0
    then Some(doc.fields[key].n)
    else None
  }

  /** The four lanes as the dashboard page reads them (`data.lane_1` ...),
      or `None` when one of them is not a count. */
  function DecodeCounts(doc: Json): Option<Counts>
  {
    var l4, l2, l3, l1 := LaneField(doc, "lane_4"), LaneField(doc, "lane_2"), LaneField(doc, "lane_3"), LaneField(doc, "lane_1");
    if l4.Some? && l2.Some? && l3.Some? && l1.Some?
    then Some(Counts(l4.value, l2.value, l3.value, l1.value))
    else None
  }

  /** Writing the counts and reading them back gives the same four lanes. */
  lemma CountsDocRoundTrip(c: Counts)
    ensures DecodeCounts(CountsDoc(c)) == Some(c)
  {
    var m := CountsDoc(c).fields;
    assert m["lane_4"] == JNum(c.lane4) && m["lane_2"] == JNum(c.lane2);
    assert m["lane_3"] == JNum(c.lane3) && m["lane_1"] == JNum(c.lane1);
  }
}
