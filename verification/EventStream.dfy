/** How a client reads an event stream: sections 9.2.5 and 9.2.6 of the WHATWG HTML standard. */
module EventStream {
  import opened Text

  /** The heartbeat the server sends: a comment and a blank line. */
  function Heartbeat(): (r: string)
    ensures r != ""
  {
    ": keep-alive\n\n"
  }

  datatype Message = Message(name: string, data: string, id: string)

  /** The line being read (`cr`: the last character was a carriage return), the buffers, and what was dispatched. */
  datatype Client = Client(line: string, cr: bool, name: string, data: string, id: string, messages: seq<Message>)

  const START := Client("", false, "", "", "", [])

  function Dispatch(c: Client): Client {
    if c.data == "" then c.(name := "")
    else
      var data := if c.data[|c.data| - 1] == '\n' then c.data[..|c.data| - 1] else c.data;
      c.(name := "", data := "", messages := c.messages + [Message(if c.name == "" then "message" else c.name, data, c.id)])
  }

  function Field(c: Client, field: string, value: string): Client {
    if field == "event" then c.(name := value)
    else if field == "data" then c.(data := c.data + value + "\n")
    else if field == "id" && '\0' !in value then c.(id := value)
    else c
  }

  function EndLine(c: Client): Client {
    if c.line == "" then Dispatch(c)
    else if c.line[0] == ':' then c
    else
      var k := Find(c.line, ":", 0);
      if k < 0 then Field(c, c.line, "")
      else
        var value := c.line[k + 1..];
        Field(c, c.line[..k], if value != "" && value[0] == ' ' then value[1..] else value)
  }

  function Read1(c: Client, ch: char): Client {
    if ch == '\n' && c.cr then c.(cr := false)
    else if ch == '\n' || ch == '\r' then EndLine(c).(line := "", cr := ch == '\r')
    else c.(line := c.line + [ch], cr := false)
  }

  function Read(c: Client, s: string): Client {
    if s == "" then c else Read1(Read(c, s[..|s| - 1]), s[|s| - 1])
  }

  lemma {:induction false} ReadConcat(c: Client, s: string, t: string)
    ensures Read(c, s + t) == Read(Read(c, s), t)
  {
    if t == "" {
      assert s + t == s;
    } else {
      ReadConcat(c, s, t[..|t| - 1]);
      assert (s + t)[..|s + t| - 1] == s + t[..|t| - 1];
    }
  }

  /** Messages are only ever added. */
  lemma {:induction false} ReadAdds(c: Client, s: string)
    ensures c.messages <= Read(c, s).messages
  {
    if s != "" {
      ReadAdds(c, s[..|s| - 1]);
      assert Read(c, s[..|s| - 1]).messages <= Read(c, s).messages;
    }
  }

  /** A client that has read part of a stream has part of its messages. */
  lemma {:induction false} PartSeen(s: string, whole: string)
    requires s <= whole
    ensures Read(START, s).messages <= Read(START, whole).messages
  {
    assert whole == s + whole[|s|..];
    ReadConcat(START, s, whole[|s|..]);
    ReadAdds(Read(START, s), whole[|s|..]);
  }

  // ── Between messages ──

  /** Nothing begun: no partial line and no buffered field. */
  predicate Clean(c: Client) {
    c.line == "" && !c.cr && c.name == "" && c.data == ""
  }

  predicate OneLine(s: string) {
    forall i :: 0 <= i < |s| ==> s[i] != '\n' && s[i] != '\r'
  }

  lemma {:induction false} ReadText(c: Client, s: string)
    requires OneLine(s) && !c.cr
    ensures Read(c, s) == c.(line := c.line + s)
  {
    if s == "" {
      assert c.line + s == c.line;
    } else {
      ReadText(c, s[..|s| - 1]);
      assert c.line + s == c.line + s[..|s| - 1] + [s[|s| - 1]];
    }
  }

  /** A line and its end. */
  lemma {:induction false} ReadLine(c: Client, s: string, t: string)
    requires OneLine(s) && !c.cr && c.line == ""
    ensures Read(c, s + "\n" + t) == Read(EndLine(c.(line := s)).(line := "", cr := false), t)
  {
    ReadConcat(c, s + "\n", t);
    assert (s + "\n")[..|s|] == s && (s + "\n")[|s|] == '\n';
    ReadText(c, s);
    assert c.line + s == s;
  }

  /** A heartbeat is a comment and a blank line: a client between messages does not notice it. */
  lemma HeartbeatUnseen(c: Client)
    requires Clean(c)
    ensures Read(c, Heartbeat()) == c
  {
    var comment, d := ": keep-alive", EndLine(c.(line := ": keep-alive")).(line := "", cr := false);
    assert Heartbeat() == comment + "\n" + "\n";
    ReadLine(c, comment, "\n");
    assert d == c && "\n" == "" + "\n" + "";
    ReadLine(d, "", "");
  }

  /** Nor part of one. */
  lemma BeginningUnseen(c: Client, k: nat)
    requires Clean(c) && k <= |Heartbeat()|
    ensures Read(c, Heartbeat()[..k]).messages == c.messages
  {
    HeartbeatUnseen(c);
    assert Heartbeat() == Heartbeat()[..k] + Heartbeat()[k..];
    ReadConcat(c, Heartbeat()[..k], Heartbeat()[k..]);
    ReadAdds(c, Heartbeat()[..k]);
    ReadAdds(Read(c, Heartbeat()[..k]), Heartbeat()[k..]);
  }

  // ── Frames ──

  /** The frames of the server: `data` alone, or with an event name. */
  function Frame(m: Message): string {
    if m.name == "message" then "data: " + m.data + "\n" + "\n"
    else "event: " + m.name + "\n" + ("data: " + m.data + "\n" + "\n")
  }

  predicate Sendable(m: Message) {
    OneLine(m.name) && OneLine(m.data) && m.name != "" && m.id == ""
  }

  /** A field, a colon, a space and the value. */
  lemma {:induction false} FieldLine(c: Client, field: string, x: string)
    requires field != "" && ':' !in field
    ensures EndLine(c.(line := field + ": " + x)) == Field(c.(line := field + ": " + x), field, x)
  {
    var line := field + ": " + x;
    assert line[|field|..|field| + 1] == ":";
    assert At(line, ":", |field|);
    forall i | 0 <= i < |field| ensures !At(line, ":", i) {
      assert line[i..i + 1][0] == line[i] == field[i];
    }
    assert line[..|field|] == field && line[|field| + 1..] == " " + x && (" " + x)[1..] == x;
  }

  lemma {:induction false} BlankLine(c: Client)
    requires c.line == "" && !c.cr
    ensures Read(c, "\n") == Dispatch(c)
  {
    assert "\n"[..0] == "";
  }

  /** The data line and the blank line of a frame. */
  lemma {:induction false} DataSeen(c: Client, x: string)
    requires c.line == "" && !c.cr && c.data == "" && OneLine(x)
    ensures Read(c, "data: " + x + "\n" + "\n") ==
            c.(name := "", messages := c.messages + [Message(if c.name == "" then "message" else c.name, x, c.id)])
  {
    hide Read, EndLine, Find;
    ReadLine(c, "data: " + x, "\n");
    assert "data" + ": " == "data: ";
    FieldLine(c, "data", x);
    BlankLine(c.(data := "" + x + "\n"));
    assert "" + x + "\n" == x + "\n" && (x + "\n")[..|x|] == x;
  }

  /** A client between messages that reads a frame has that message, and is again between messages. */
  lemma {:induction false} FrameSeen(c: Client, m: Message)
    requires Clean(c) && Sendable(m) && c.id == ""
    ensures Read(c, Frame(m)) == c.(messages := c.messages + [m])
  {
    hide Read, EndLine, Find;
    if m.name == "message" {
      DataSeen(c, m.data);
    } else {
      ReadLine(c, "event: " + m.name, "data: " + m.data + "\n" + "\n");
      assert "event" + ": " == "event: ";
      FieldLine(c, "event", m.name);
      DataSeen(c.(name := m.name), m.data);
    }
  }
}
