/**
  The command relay of main.py: once per loop iteration it reads the command
  store `esp_command.json`, forwards a new command to the microcontroller as
  `CMD:<command>\n`, remembers it in `last_command` and clears the store.
  `last_command` is never reset.
 */
module CommandRelay {
  import opened Wrappers
  import opened Documents
  import opened Text

  /** `last_command` and the content of the command store. */
  datatype Relay = Relay(lastCommand: Option<string>, store: File)

  const Start: Relay := Relay(None, Missing)

  /** The document the relay writes back after forwarding. */
  const Cleared: Json := JObj(map["command" := JStr("")])

  /** What `json.load(f).get("command", "").strip()` yields, or `None` when
      that expression raises: no file or an undecodable one, a document that
      is not an object (it has no `get`), or a `command` that is not a
      string (it has no `strip`). An object without the key reads as "". */
  function ReadCommand(f: File): (c: Option<string>)
    ensures c.Some? ==> Trimmed(c.value)
    ensures c.Some? <==> f.Stored? && f.doc.JObj? && ("command" in f.doc.fields ==> f.doc.fields["command"].JStr?)
    ensures c.Some? && "command" in f.doc.fields ==> c.value == Strip(f.doc.fields["command"].s)
    ensures c.Some? && "command" !in f.doc.fields ==> c.value == ""
  {
    match f
    case Stored(JObj(m)) =>
      if "command" !in m then Some("")
      else (match m["command"]
            case JStr(s) => Some(Strip(s))
            case _ => None)
    case _ => None
  }

  /** The serial line that carries a command: the `CMD:` prefix, the command
      itself, recoverable from the line, and a newline. */
  function CommandLine(cmd: string): (line: string)
    ensures |line| == |cmd| + 5
    ensures line[..4] == "CMD:" && line[|line| - 1] == '\n'
    ensures line[4..|line| - 1] == cmd
  {
    "CMD:" + cmd + "\n"
  }

  /** `s` is exactly one serial line: newline-terminated, with no newline
      before its end. */
  predicate OneLine(s: string)
  {
    |s| > 0 && s[|s| - 1] == '\n' && forall i :: 0 <= i < |s| - 1 ==> s[i] != '\n'
  }

  /** A command without a newline goes out as one line. */
  lemma CommandLineIsOneLine(cmd: string)
    requires '\n' !in cmd
    ensures OneLine(CommandLine(cmd))
  {
    var line := CommandLine(cmd);
    forall i | 0 <= i < |line| - 1
      ensures line[i] != '\n'
    {
      if i >= 4 {
        assert line[i] == cmd[i - 4];
      }
    }
  }

  datatype Polled = Polled(sent: Option<string>, next: Relay)

  /** Holds when the store holds a non-empty command other than the last
      forwarded one. */
  predicate Pending(s: Relay)
  {
    var c := ReadCommand(s.store);
    c.Some? && c.value != "" && s.lastCommand != c
  }

  /** One poll of the command store. */
  function Poll(s: Relay): (p: Polled)
    ensures p.sent.Some? <==> Pending(s)
    ensures p.sent.Some? ==> p.sent == ReadCommand(s.store) && p.next == Relay(p.sent, Stored(Cleared))
    ensures p.sent.None? ==> p.next == s
  {
    var c := ReadCommand(s.store);
    if c.Some? && c.value != "" && c != s.lastCommand then Polled(c, Relay(c, Stored(Cleared)))
    else Polled(None, s)
  }

  /** The poll as evidently intended: a pending command that contains a
      newline is not forwarded, since its serial write would be more than
      one line. Every other store read is handled exactly as `Poll` does. */
  function PollOneLine(s: Relay): (p: Polled)
    ensures p.sent.Some? ==> OneLine(CommandLine(p.sent.value))
    ensures p.sent.Some? <==> Pending(s) && '\n' !in ReadCommand(s.store).value
    ensures p.sent.Some? ==> p == Poll(s)
    ensures p.sent.None? ==> p.next == s
  {
    if Pending(s) && '\n' !in ReadCommand(s.store).value then
      CommandLineIsOneLine(ReadCommand(s.store).value);
      Poll(s)
    else Polled(None, s)
  }

  /** A poll right after a poll forwards nothing: the store was either
      cleared or left holding a value that was not forwardable. */
  lemma PollAtMostOnce(s: Relay)
    ensures Poll(Poll(s).next).sent.None?
  {
    assert ReadCommand(Stored(Cleared)) == Some("");
  }

  /** The commands forwarded when successive polls find the store contents
      `observed` (whatever wrote them in between). */
  function Forwarded(last: Option<string>, observed: seq<File>): (sent: seq<string>)
    ensures forall i :: 0 <= i < |sent| ==> sent[i] != "" && Trimmed(sent[i])
    ensures forall i :: 0 <= i < |sent| - 1 ==> sent[i] != sent[i + 1]
    ensures |sent| > 0 ==> last != Some(sent[0])
    ensures |sent| <= |observed|
    decreases |observed|
  {
    if observed == [] then []
    else
      var p := Poll(Relay(last, observed[0]));
      var rest := Forwarded(p.next.lastCommand, observed[1..]);
      if p.sent.Some? then [p.sent.value] + rest else rest
  }

  /** `last_command` after forwarding `sent`, starting from `last`. */
  function LastOf(last: Option<string>, sent: seq<string>): Option<string>
  {
    if sent == [] then last else Some(sent[|sent| - 1])
  }

  /** One more poll finding `f` forwards its command exactly when it is
      non-empty and differs from the last command forwarded so far, which no
      earlier read resets. */
  lemma {:induction false} ForwardedSnoc(last: Option<string>, observed: seq<File>, f: File)
    ensures Forwarded(last, observed + [f])
         == Forwarded(last, observed)
            + (if Pending(Relay(LastOf(last, Forwarded(last, observed)), f)) then [ReadCommand(f).value] else [])
    decreases |observed|
  {
    var os := observed + [f];
    if observed == [] {
      assert os[1..] == [];
    } else {
      assert os[0] == observed[0];
      assert os[1..] == observed[1..] + [f];
      var p := Poll(Relay(last, observed[0]));
      var l := p.next.lastCommand;
      ForwardedSnoc(l, observed[1..], f);
      var rest := Forwarded(l, observed[1..]);
      if p.sent.Some? {
        assert LastOf(last, [p.sent.value] + rest) == LastOf(l, rest);
      }
    }
  }

  /** A store read equal to the last forwarded command is not forwarded, and
      the relay's memory is unchanged by it: no reset ever happens. */
  lemma RepeatNeverForwarded(cmd: string, observed: seq<File>)
    requires observed != [] && ReadCommand(observed[0]) == Some(cmd)
    ensures Forwarded(Some(cmd), observed) == Forwarded(Some(cmd), observed[1..])
  {
  }

  function StoreWith(cmd: string): File
  {
    Stored(JObj(map["command" := JStr(cmd)]))
  }

  /** The store holding a trimmed command reads back as that command. */
  lemma ReadStoreWith(cmd: string)
    requires Trimmed(cmd)
    ensures ReadCommand(StoreWith(cmd)) == Some(cmd)
  {
    var e: seq<char> := [];
    StripPadded(e, cmd, e);
    assert e + cmd + e == cmd;
  }

  /** Reads "go", "go", "", "go", "stop" forward "go" and then "stop" only:
      the third "go" matches `last_command`, which the empty read did not
      reset. */
  lemma ForwardExample()
    ensures Forwarded(None, [StoreWith("go"), StoreWith("go"), StoreWith(""), StoreWith("go"), StoreWith("stop")])
         == ["go", "stop"]
  {
    var go, empty, stop := StoreWith("go"), StoreWith(""), StoreWith("stop");
    ReadStoreWith("go");
    ReadStoreWith("stop");
    ReadStoreWith("");
    assert Poll(Relay(Some("go"), stop)).sent == Some("stop");
    assert Poll(Relay(Some("go"), go)) == Polled(None, Relay(Some("go"), go));
    assert Poll(Relay(Some("go"), empty)) == Polled(None, Relay(Some("go"), empty));
    assert Poll(Relay(None, go)) == Polled(Some("go"), Relay(Some("go"), Stored(Cleared)));
    assert [stop][1..] == [];
    assert [go, stop][1..] == [stop];
    assert [empty, go, stop][1..] == [go, stop];
    assert [go, empty, go, stop][1..] == [empty, go, stop];
    assert [go, go, empty, go, stop][1..] == [go, empty, go, stop];
    assert Forwarded(Some("go"), [stop]) == ["stop"];
    assert Forwarded(Some("go"), [go, stop]) == ["stop"];
    assert Forwarded(Some("go"), [empty, go, stop]) == ["stop"];
    assert Forwarded(Some("go"), [go, empty, go, stop]) == ["stop"];
  }
}
