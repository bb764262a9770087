/**
  The command handoff between the two processes: the dashboard overwrites
  the command store on each operator post, and the control loop polls it once
  per iteration. A poll is not one step: the loop reads the store, forwards a
  pending command and sets `last_command`, and only then writes the cleared
  document back. Posts interleave with those steps in any order over the one
  store value.
 */
module Protocol {
  import opened Wrappers
  import opened Documents
  import opened CommandRelay
  import opened Dashboard
  import opened Text

  /** The control loop's side: the relay state, and whether a command has been
      forwarded whose clearing of the store is still to come. */
  datatype Party = Party(relay: Relay, clearOwed: bool)

  const Fresh: Party := Party(Start, false)

  datatype Event =
    | Post(body: Json, write: WriteOutcome)  // a `/send_command` request
    | Look                                   // the relay reads the store and forwards a pending command
    | Clear                                  // the relay writes `{"command": ""}` back after a forward

  predicate WellFormed(events: seq<Event>)
  {
    forall i :: 0 <= i < |events| ==> (events[i].Post? ==> Searchable(events[i].body))
  }

  datatype Stepped = Stepped(sent: Option<string>, next: Party)

  /** One event. A post changes only the store. A read forwards a pending
      command, remembers it and leaves the clear owed; a clear is the second
      half of that poll. The loop runs the two halves in order, so a read
      while a clear is owed, or a clear when none is, does nothing. */
  function Apply(s: Party, e: Event): (p: Stepped)
    requires e.Post? ==> Searchable(e.body)
    ensures e.Post? ==> p.sent.None? && p.next.relay.lastCommand == s.relay.lastCommand && p.next.clearOwed == s.clearOwed
    ensures e.Post? ==> p.next.relay.store == SendCommand(e.body, s.relay.store, e.write).store
    ensures e.Look? ==> (p.sent.Some? <==> !s.clearOwed && Pending(s.relay))
    ensures e.Look? && p.sent.Some? ==> p.sent == ReadCommand(s.relay.store) && p.next == Party(Relay(p.sent, s.relay.store), true)
    ensures e.Clear? ==> p.sent.None? && p.next.relay.lastCommand == s.relay.lastCommand && !p.next.clearOwed
    ensures e.Clear? && s.clearOwed ==> p.next.relay.store == Stored(Cleared)
    ensures !e.Post? && p.sent.None? && !(e.Clear? && s.clearOwed) ==> p.next == s
  {
    match e
    case Post(body, write) =>
      Stepped(None, Party(Relay(s.relay.lastCommand, SendCommand(body, s.relay.store, write).store), s.clearOwed))
    case Look =>
      if !s.clearOwed && Pending(s.relay) then
        var c := ReadCommand(s.relay.store);
        Stepped(c, Party(Relay(c, s.relay.store), true))
      else Stepped(None, s)
    case Clear =>
      if s.clearOwed then Stepped(None, Party(Relay(s.relay.lastCommand, Stored(Cleared)), false))
      else Stepped(None, s)
  }

  /** A read followed directly by its clear is one poll of the relay. */
  lemma LookThenClearIsPoll(s: Relay)
    ensures Apply(Party(s, false), Look).sent == Poll(s).sent
    ensures Apply(Apply(Party(s, false), Look).next, Clear).next == Party(Poll(s).next, false)
  {
  }

  /** What one step sends, as a sequence. */
  function SentBy(p: Stepped): seq<string>
  {
    if p.sent.Some? then [p.sent.value] else []
  }

  datatype Session = Session(sent: seq<string>, final: Party)

  /** The commands sent to the microcontroller over a run of events. */
  function Run(s: Party, events: seq<Event>): (r: Session)
    requires WellFormed(events)
    ensures forall i :: 0 <= i < |r.sent| - 1 ==> r.sent[i] != r.sent[i + 1]
    ensures |r.sent| > 0 ==> s.relay.lastCommand != Some(r.sent[0])
    ensures r.final.relay.lastCommand == if r.sent == [] then s.relay.lastCommand else Some(r.sent[|r.sent| - 1])
    decreases |events|
  {
    if events == [] then Session([], s)
    else
      var p := Apply(s, events[0]);
      var rest := Run(p.next, events[1..]);
      Session(SentBy(p) + rest.sent, rest.final)
  }

  lemma WellFormedSnoc(events: seq<Event>, e: Event)
    requires WellFormed(events) && (e.Post? ==> Searchable(e.body))
    ensures WellFormed(events + [e])
  {
    var es := events + [e];
    forall i | 0 <= i < |es|
      ensures es[i].Post? ==> Searchable(es[i].body)
    {
      if i < |events| {
        assert es[i] == events[i];
      }
    }
  }

  /** One more event extends the run by exactly that event's step, taken from
      the state the run reached: every forward the step calls for happens. */
  lemma {:induction false} RunSnoc(s: Party, events: seq<Event>, e: Event)
    requires WellFormed(events) && (e.Post? ==> Searchable(e.body))
    ensures WellFormed(events + [e])
    ensures Run(s, events + [e])
         == Session(Run(s, events).sent + SentBy(Apply(Run(s, events).final, e)), Apply(Run(s, events).final, e).next)
    decreases |events|
  {
    WellFormedSnoc(events, e);
    if events == [] {
      assert events + [e] == [e];
    } else {
      var es := events + [e];
      assert es[0] == events[0];
      assert es[1..] == events[1..] + [e];
      var p := Apply(s, events[0]);
      var tail := events[1..];
      assert WellFormed(tail);
      RunSnoc(p.next, tail, e);
      var r := Run(p.next, tail);
      var q := Apply(r.final, e);
      var rs := Run(p.next, tail + [e]);
      assert rs == Session(r.sent + SentBy(q), q.next);
      assert Run(s, es).sent == SentBy(p) + rs.sent;
      assert SentBy(p) + (r.sent + SentBy(q)) == (SentBy(p) + r.sent) + SentBy(q);
    }
  }

  /** An accepted post that leaves `c` as the command the relay will read. */
  predicate Carries(e: Event, c: string)
  {
    e.Post? && e.write.Written? && Searchable(e.body) && HasCommand(e.body) && ReadCommand(Stored(e.body)) == Some(c)
  }

  ghost predicate Posted(events: seq<Event>, c: string)
  {
    exists j :: 0 <= j < |events| && Carries(events[j], c)
  }

  /** The store holds nothing forwardable, or a command an earlier post
      carried. */
  ghost predicate StoreFrom(store: File, earlier: seq<Event>)
  {
    var c := ReadCommand(store);
    c.None? || c.value == "" || Posted(earlier, c.value)
  }

  lemma PostedGrows(earlier: seq<Event>, later: seq<Event>, c: string)
    requires Posted(earlier, c)
    ensures Posted(earlier + later, c)
  {
    var j :| 0 <= j < |earlier| && Carries(earlier[j], c);
    assert (earlier + later)[j] == earlier[j];
  }

  /** The relay forwards only commands the dashboard accepted, given a store
      that starts out with nothing forwardable or a command posted earlier. */
  lemma {:induction false} SentWasPosted(s: Party, events: seq<Event>, earlier: seq<Event>)
    requires WellFormed(events)
    requires StoreFrom(s.relay.store, earlier)
    ensures forall i :: 0 <= i < |Run(s, events).sent| ==> Posted(earlier + events, Run(s, events).sent[i])
    decreases |events|
  {
    if events != [] {
      var e := events[0];
      var p := Apply(s, e);
      var earlier' := earlier + [e];
      assert earlier' + events[1..] == earlier + events;
      assert StoreFrom(p.next.relay.store, earlier') by {
        var c := ReadCommand(p.next.relay.store);
        assert ReadCommand(Stored(Cleared)) == Some("");
        if c.Some? && c.value != "" {
          if e.Post? && e.write.Written? && HasCommand(e.body) {
            assert Carries(earlier'[|earlier|], c.value);
          } else {
            PostedGrows(earlier, [e], c.value);
          }
        }
      }
      SentWasPosted(p.next, events[1..], earlier');
      if p.sent.Some? {
        PostedGrows(earlier, events, p.sent.value);
      }
    }
  }

  /** From a fresh start (no command file, nothing forwarded), every command
      sent over the serial link was posted to the dashboard. */
  lemma FreshStartSendsOnlyPosted(events: seq<Event>)
    requires WellFormed(events)
    ensures forall i :: 0 <= i < |Run(Fresh, events).sent| ==> Posted(events, Run(Fresh, events).sent[i])
  {
    SentWasPosted(Fresh, events, []);
    assert [] + events == events;
  }

  function PostCommand(cmd: string): Event
  {
    Post(JObj(map["command" := JStr(cmd)]), Written)
  }

  /** Posting a trimmed command, written, carries it. */
  lemma PostCommandCarries(cmd: string)
    requires Trimmed(cmd)
    ensures Carries(PostCommand(cmd), cmd)
  {
    ReadStoreWith(cmd);
  }

  /** Whatever a post writes while a clear is owed, the clear overwrites it,
      though the dashboard has already answered the post. */
  lemma ClearOverwritesPost(s: Party, body: Json, write: WriteOutcome)
    requires s.clearOwed && Searchable(body)
    ensures Apply(Apply(s, Post(body, write)).next, Clear).next.relay.store == Stored(Cleared)
  {
  }

  /** The lost post: the store holds "go"; the relay reads and forwards it;
      the operator posts "stop", which the dashboard accepts; the relay then
      clears the store, and its next read finds nothing. "stop" never reaches
      the microcontroller. */
  lemma PostBetweenReadAndClearIsLost()
    ensures Carries(PostCommand("stop"), "stop")
    ensures Run(Party(Relay(None, StoreWith("go")), false), [Look, PostCommand("stop"), Clear, Look]).sent == ["go"]
  {
    ReadStoreWith("go");
    PostCommandCarries("stop");
    var s0 := Party(Relay(None, StoreWith("go")), false);
    var s1 := Party(Relay(Some("go"), StoreWith("go")), true);
    var s2 := Party(Relay(Some("go"), StoreWith("stop")), true);
    var s3 := Party(Relay(Some("go"), Stored(Cleared)), false);
    assert Apply(s0, Look) == Stepped(Some("go"), s1);
    assert Apply(s1, PostCommand("stop")) == Stepped(None, s2);
    assert Apply(s2, Clear) == Stepped(None, s3);
    assert ReadCommand(Stored(Cleared)) == Some("");
    assert Apply(s3, Look) == Stepped(None, s3);
    assert [Look][1..] == [];
    assert [Clear, Look][1..] == [Look];
    assert [PostCommand("stop"), Clear, Look][1..] == [Clear, Look];
    assert [Look, PostCommand("stop"), Clear, Look][1..] == [PostCommand("stop"), Clear, Look];
    assert Run(s3, [Look]) == Session([], s3);
    assert Run(s2, [Clear, Look]) == Session([], s3);
    assert Run(s1, [PostCommand("stop"), Clear, Look]) == Session([], s3);
  }

  /** Each command posted and written, then one poll: its read, then its
      clear. */
  function PostEach(cmds: seq<string>): (es: seq<Event>)
    ensures WellFormed(es)
  {
    if cmds == [] then [] else [PostCommand(cmds[0]), Look, Clear] + PostEach(cmds[1..])
  }

  /** The store contents those posts leave for the polls to find. */
  function StoresOf(cmds: seq<string>): seq<File>
  {
    if cmds == [] then [] else [StoreWith(cmds[0])] + StoresOf(cmds[1..])
  }

  /** A post of `c`, its read and its clear send what one poll of the posted
      store sends, and leave the relay as that poll does. */
  lemma PostThenPoll(s: Relay, c: string, rest: seq<Event>)
    requires WellFormed(rest)
    ensures WellFormed([PostCommand(c), Look, Clear] + rest)
    ensures Run(Party(s, false), [PostCommand(c), Look, Clear] + rest).sent
         == SentBy(Stepped(Poll(Relay(s.lastCommand, StoreWith(c))).sent, Party(s, false)))
            + Run(Party(Poll(Relay(s.lastCommand, StoreWith(c))).next, false), rest).sent
  {
    var es := [PostCommand(c), Look, Clear] + rest;
    assert es[0] == PostCommand(c);
    assert es[1..] == [Look, Clear] + rest;
    assert es[1..][0] == Look;
    assert es[1..][1..] == [Clear] + rest;
    assert es[1..][1..][0] == Clear;
    assert es[1..][1..][1..] == rest;
    forall i | 0 <= i < |es|
      ensures es[i].Post? ==> Searchable(es[i].body)
    {
      if i >= 3 {
        assert es[i] == rest[i - 3];
      }
    }
    var posted := Relay(s.lastCommand, StoreWith(c));
    var p0 := Apply(Party(s, false), es[0]);
    assert p0 == Stepped(None, Party(posted, false));
    LookThenClearIsPoll(posted);
    var p1 := Apply(p0.next, Look);
    var p2 := Apply(p1.next, Clear);
    assert SentBy(p1) == SentBy(Stepped(Poll(posted).sent, Party(s, false)));
    assert p2 == Stepped(None, Party(Poll(posted).next, false));
    assert Run(p1.next, es[1..][1..]).sent == Run(p2.next, rest).sent;
    assert Run(p0.next, es[1..]).sent == SentBy(p1) + Run(p2.next, rest).sent;
  }

  /** When every post is followed by a whole poll, the two-party run forwards
      exactly what the relay forwards on the posted values. */
  lemma {:induction false} AlternatingMatchesRelay(s: Relay, cmds: seq<string>)
    ensures Run(Party(s, false), PostEach(cmds)).sent == Forwarded(s.lastCommand, StoresOf(cmds))
    decreases |cmds|
  {
    if cmds != [] {
      var posted := Relay(s.lastCommand, StoreWith(cmds[0]));
      assert PostEach(cmds) == [PostCommand(cmds[0]), Look, Clear] + PostEach(cmds[1..]);
      PostThenPoll(s, cmds[0], PostEach(cmds[1..]));
      AlternatingMatchesRelay(Poll(posted).next, cmds[1..]);
      assert StoresOf(cmds)[0] == StoreWith(cmds[0]) && StoresOf(cmds)[1..] == StoresOf(cmds[1..]);
    }
  }

  /** The operator posts "go", "go", "", "go", "stop", each followed by one
      poll: only "go" and "stop" reach the microcontroller. */
  lemma ProtocolExample()
    ensures Run(Fresh, PostEach(["go", "go", "", "go", "stop"])).sent == ["go", "stop"]
  {
    AlternatingMatchesRelay(Start, ["go", "go", "", "go", "stop"]);
    ForwardExample();
    assert StoresOf(["go", "go", "", "go", "stop"])
        == [StoreWith("go"), StoreWith("go"), StoreWith(""), StoreWith("go"), StoreWith("stop")];
  }
}
