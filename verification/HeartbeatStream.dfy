/** Heartbeats and data frames written to one socket by two threads, with short writes. */
module HeartbeatStream {
  import opened EventStream

  /** One `send` or wait on the socket. */
  datatype SendResult = Sent(n: nat) | Interrupted | WouldBlock | Failed

  datatype HeartbeatResult = Complete | Retry | Disconnected

  /** What is meant to be on the wire: whole heartbeats and whole frames. */
  datatype Item = Beat | Data(text: string)

  function Text(i: Item): string {
    if i.Beat? then Heartbeat() else i.text
  }

  function Concat(items: seq<Item>): string {
    if items == [] then "" else Concat(items[..|items| - 1]) + Text(items[|items| - 1])
  }

  lemma ConcatMore(items: seq<Item>, i: Item)
    ensures Concat(items + [i]) == Concat(items) + Text(i)
  {
    assert (items + [i])[..|items|] == items;
  }

  function FramesOf(items: seq<Item>): seq<string> {
    if items == [] then [] else
    FramesOf(items[..|items| - 1]) + if items[|items| - 1].Data? then [items[|items| - 1].text] else []
  }

  lemma FramesMore(items: seq<Item>, i: Item)
    ensures FramesOf(items + [i]) == FramesOf(items) + if i.Data? then [i.text] else []
  {
    assert (items + [i])[..|items|] == items;
  }

  // ── What a client makes of it ──

  function FramesFor(ms: seq<Message>): seq<string> {
    seq(|ms|, i requires 0 <= i < |ms| => Frame(ms[i]))
  }

  ghost predicate AllSendable(ms: seq<Message>) {
    forall i :: 0 <= i < |ms| ==> Sendable(ms[i])
  }

  /** Whatever heartbeats lie between the frames, the client has the messages of the frames and is between messages. */
  lemma {:induction false} ClientReads(items: seq<Item>, ms: seq<Message>)
    requires FramesOf(items) == FramesFor(ms) && AllSendable(ms)
    ensures Read(START, Concat(items)) == START.(messages := ms)
    decreases |items|, 0
  {
    if items != [] {
      hide Read, Heartbeat, Frame;
      var front, last := items[..|items| - 1], items[|items| - 1];
      ReadConcat(START, Concat(front), Text(last));
      if last.Beat? {
        ClientReads(front, ms);
        HeartbeatUnseen(START.(messages := ms));
      } else {
        var n := |ms| - 1;
        assert FramesFor(ms)[n] == last.text && FramesFor(ms)[..n] == FramesOf(front);
        LastFrame(front, ms, n);
      }
    } else {
      assert ms == [] by { assert |FramesFor(ms)| == 0; }
    }
  }

  lemma {:induction false} LastFrame(front: seq<Item>, ms: seq<Message>, n: nat)
    requires n + 1 == |ms| && FramesOf(front) == FramesFor(ms)[..n] && AllSendable(ms)
    ensures Read(Read(START, Concat(front)), Frame(ms[n])) == START.(messages := ms)
    decreases |front|, 1
  {
    hide Read, Concat, Frame;
    assert FramesFor(ms[..n]) == FramesFor(ms)[..n];
    ClientReads(front, ms[..n]);
    FrameSeen(START.(messages := ms[..n]), ms[n]);
    assert ms == ms[..n] + [ms[n]];
  }

  /** The messages on a wire: those of the frames if all has been written, otherwise the first of them. */
  lemma {:induction false} WireSeen(items: seq<Item>, offset: nat, lost: bool, wire: string, pending: string, ms: seq<Message>)
    requires Written(Concat(items), Heartbeat(), offset, lost, wire, pending)
    requires FramesOf(items) == FramesFor(ms) && AllSendable(ms)
    ensures Read(START, wire).messages <= ms
    ensures !lost ==> Read(START, wire + pending).messages == ms
  {
    hide Heartbeat, Read, Concat, FramesOf;
    var begun := Heartbeat()[..offset];
    ClientReads(items, ms);
    ReadConcat(START, Concat(items), begun);
    BeginningUnseen(START.(messages := ms), offset);
    PartSeen(wire, Concat(items) + begun);
  }

  /** `wire`, then what is buffered, is `text` and the first `offset` bytes of `beat`; if the client is lost, the wire is some beginning of that. */
  predicate Written(text: string, beat: string, offset: nat, lost: bool, wire: string, pending: string) {
    && offset < |beat|
    && if lost then wire <= text + beat[..offset]
       else wire + pending == text + beat[..offset] && (pending != "" ==> offset == 0)
  }

  lemma MoreOfBeat(text: string, beat: string, o: nat, k: nat, was: string, wire: string)
    requires o <= k < |beat| && Written(text, beat, o, false, was, "") && wire == was + beat[o..k]
    ensures Written(text, beat, k, false, wire, "")
  {
    assert beat[..k] == beat[..o] + beat[o..k] && was + "" == was && wire + "" == wire;
  }

  lemma WithinBeat(text: string, beat: string, o: nat, was: string)
    requires Written(text, beat, o, false, was, "")
    ensures o < |beat|
  {}

  lemma WholeBeat(text: string, beat: string, o: nat, was: string, lost: bool, wire: string)
    requires Written(text, beat, o, false, was, "")
    requires if lost then wire <= was + beat[o..] else wire == was + beat[o..]
    ensures Written(text + beat, beat, 0, lost, wire, "")
  {
    RestOfBeat(text, beat, o, lost, wire, "");
  }

  lemma RestOfBeat(text: string, beat: string, o: nat, lost: bool, wire: string, pending: string)
    requires o < |beat|
    requires if lost then wire <= text + beat[..o] + beat[o..] else wire + pending == text + beat[..o] + beat[o..]
    ensures Written(text + beat, beat, 0, lost, wire, pending)
  {
    assert text + beat[..o] + beat[o..] == text + beat + beat[..0];
  }

  lemma MoreText(text: string, beat: string, lost: bool, wire: string, pending: string, data: string)
    requires beat != "" && if lost then wire <= text + data else wire + pending == text + data
    ensures Written(text + data, beat, 0, lost, wire, pending)
  {
    assert text + data + beat[..0] == text + data;
  }

  /** One step of a thread: a frame sent, a look at the client, or the end of the heartbeats. */
  datatype Step = SendFrame(m: Message) | Monitor(gone: bool, due: bool) | Stop

  /** The same once output is buffered. */
  datatype BufferStep = Queue(m: Message) | Flush | Watch(gone: bool)

  function MessagesOf(s: Step): seq<Message> {
    if s.SendFrame? then [s.m] else []
  }

  function AllMessages(steps: seq<Step>): seq<Message> {
    if steps == [] then [] else AllMessages(steps[..|steps| - 1]) + MessagesOf(steps[|steps| - 1])
  }

  function QueuedBy(s: BufferStep): seq<Message> {
    if s.Queue? then [s.m] else []
  }

  function AllQueued(steps: seq<BufferStep>): seq<Message> {
    if steps == [] then [] else AllQueued(steps[..|steps| - 1]) + QueuedBy(steps[|steps| - 1])
  }

  // ── What the socket answered ──

  /** `s` is what is left of the socket's script `s0`. */
  predicate Rest(s0: seq<SendResult>, s: seq<SendResult>) {
    |s| <= |s0| && s == s0[|s0| - |s|..]
  }

  /** The last answer was that the socket would block. */
  predicate Blocked(s0: seq<SendResult>, s: seq<SendResult>) {
    |s| < |s0| && s0[|s0| - |s| - 1].WouldBlock?
  }

  /** The last answer was a failure, or there is no more. */
  predicate Broken(s0: seq<SendResult>, s: seq<SendResult>) {
    s == [] || (|s| < |s0| && (s0[|s0| - |s| - 1].Failed? || s0[|s0| - |s| - 1] == Sent(0)))
  }

  /** A socket that takes some of whatever it is given. */
  predicate Takes(s: seq<SendResult>) {
    forall i :: 0 <= i < |s| ==> s[i].Sent? && s[i].n > 0
  }

  lemma TakesRest(s0: seq<SendResult>, s: seq<SendResult>)
    requires Rest(s0, s) || s == s0
    ensures Takes(s0) ==> Takes(s)
  {}

  /** A socket that takes has no more answers than this to give to a step. */
  function Need(s: Step): nat {
    match s
    case SendFrame(m) => |Frame(m)|
    case Monitor(_, _) => |Heartbeat()|
    case Stop => 0
  }

  function NeedAll(steps: seq<Step>): nat {
    if steps == [] then 0 else NeedAll(steps[..|steps| - 1]) + Need(steps[|steps| - 1])
  }

  /** A stream at one moment of a run. */
  datatype Moment = Moment(lost: bool, ready: bool, offset: nat, wire: string, pending: string, items: seq<Item>, script: seq<SendResult>)

  /** A heartbeat is whole on the wire. */
  ghost predicate Beaten(m: Moment, m': Moment)
    requires m.offset <= |Heartbeat()|
  {
    !m'.lost && m'.offset == 0 && m'.items == m.items + [Beat] && m'.wire == m.wire + Heartbeat()[m.offset..]
  }

  /** It is written up to the new offset, because the socket would block. */
  ghost predicate BeatBlocked(m: Moment, m': Moment)
    requires m.offset <= |Heartbeat()|
  {
    && !m'.lost && m'.items == m.items && m.offset <= m'.offset < |Heartbeat()|
    && m'.wire == m.wire + Heartbeat()[m.offset..m'.offset] && Blocked(m.script, m'.script)
  }

  /** The client is lost, because the socket failed. */
  ghost predicate BeatFailed(m: Moment, m': Moment)
    requires m.offset <= |Heartbeat()|
  {
    m'.lost && m.wire <= m'.wire <= m.wire + Heartbeat()[m.offset..] && Broken(m.script, m'.script)
  }

  /** A look of the monitor at a connected client: a due heartbeat on a ready stream is tried, nothing else happens. */
  ghost predicate Tick(due: bool, m: Moment, m': Moment) {
    if due && m.ready && !m.lost then
      && m.offset <= |Heartbeat()| && m'.ready && Rest(m.script, m'.script)
      && (Beaten(m, m') || BeatBlocked(m, m') || BeatFailed(m, m'))
    else
      m' == m
  }

  /** What a step does; on a socket that takes, just one item more. */
  ghost predicate StepDone(step: Step, m: Moment, m': Moment, takes: bool) {
    match step
    case SendFrame(x) =>
      if m.lost then m' == m
      else (m'.lost ==> Broken(m.script, m'.script)) && (takes ==> !m'.lost && m'.items == m.items + [Data(Frame(x))])
    case Monitor(gone, due) =>
      if gone then m' == m.(lost := true)
      else Tick(due, m, m') && (takes && due && m.ready && !m.lost ==> m.offset <= |Heartbeat()| && Beaten(m, m'))
    case Stop => m' == m.(ready := false)
  }

  /** The steps took the stream from one moment of the log to the next, from entry `at` on. */
  ghost predicate StepsDone(steps: seq<Step>, log: seq<Moment>, at: nat, takes: bool) {
    at + |steps| < |log| && forall j :: 0 <= j < |steps| ==> StepDone(steps[j], log[at + j], log[at + j + 1], takes)
  }

  lemma NoSteps()
    ensures AllMessages([]) == [] && NeedAll([]) == 0
  {}

  lemma MoreSteps(steps: seq<Step>, j: nat)
    requires j < |steps|
    ensures steps[..j + 1] == steps[..j] + [steps[j]]
    ensures AllMessages(steps[..j + 1]) == AllMessages(steps[..j]) + MessagesOf(steps[j])
    ensures NeedAll(steps[..j + 1]) == NeedAll(steps[..j]) + Need(steps[j])
  {
    assert steps[..j + 1][..j] == steps[..j];
  }

  lemma {:induction false} NeedWithin(steps: seq<Step>, n: nat)
    requires n <= |steps|
    ensures NeedAll(steps[..n]) <= NeedAll(steps)
    decreases |steps| - n
  {
    if n == |steps| {
      assert steps[..n] == steps;
    } else {
      assert steps[..n + 1][..n] == steps[..n];
      NeedWithin(steps, n + 1);
    }
  }

  lemma NoStepsDone(log: seq<Moment>, takes: bool)
    requires log != []
    ensures StepsDone([], log, |log| - 1, takes)
  {}

  lemma StepDoneFor(step: Step, m: Moment, m': Moment, willing: bool, takes: bool)
    requires StepDone(step, m, m', willing) && (takes ==> willing)
    ensures StepDone(step, m, m', takes)
  {}

  lemma StepsDoneMore(steps: seq<Step>, step: Step, log: seq<Moment>, at: nat, m: Moment, takes: bool)
    requires at + |steps| + 1 == |log| && StepsDone(steps, log, at, takes) && StepDone(step, log[|log| - 1], m, takes)
    ensures StepsDone(steps + [step], log + [m], at, takes)
  {
    forall j | 0 <= j < |steps + [step]| ensures StepDone((steps + [step])[j], (log + [m])[at + j], (log + [m])[at + j + 1], takes) {
      assert j < |steps| ==> (steps + [step])[j] == steps[j] && (log + [m])[at + j + 1] == log[at + j + 1];
    }
  }

  lemma StepsDoneFor(steps: seq<Step>, log: seq<Moment>, at: nat, willing: bool, log': seq<Moment>, takes: bool)
    requires StepsDone(steps, log, at, willing) && (takes ==> willing) && log <= log'
    ensures StepsDone(steps, log', at, takes)
  {
    forall j | 0 <= j < |steps| ensures StepDone(steps[j], log'[at + j], log'[at + j + 1], takes) {
      assert log'[at + j] == log[at + j] && log'[at + j + 1] == log[at + j + 1];
      StepDoneFor(steps[j], log[at + j], log[at + j + 1], willing, takes);
    }
  }

  /** One call on the socket with what is buffered: as much of it as the socket takes moves to the wire. */
  ghost predicate Flushed(m: Moment, m': Moment) {
    if m.lost || m.pending == "" then m' == m
    else if m.script == [] then m' == m.(lost := true)
    else
      match m.script[0]
      case Sent(k) =>
        var n := if k <= |m.pending| then k else |m.pending|;
        m' == m.(wire := m.wire + m.pending[..n], pending := m.pending[n..], script := m.script[1..])
      case Failed => m' == m.(lost := true, script := m.script[1..])
      case _ => m' == m.(script := m.script[1..])
  }

  /** What a step does once output is buffered. */
  ghost predicate BufferDone(step: BufferStep, m: Moment, m': Moment) {
    match step
    case Queue(x) => m' == m.(pending := m.pending + Frame(x), items := if m.lost then m.items else m.items + [Data(Frame(x))])
    case Flush => Flushed(m, m')
    case Watch(gone) => m' == m.(lost := m.lost || gone)
  }

  ghost predicate BuffersDone(steps: seq<BufferStep>, log: seq<Moment>, at: nat) {
    at + |steps| < |log| && forall j :: 0 <= j < |steps| ==> BufferDone(steps[j], log[at + j], log[at + j + 1])
  }

  lemma NoneQueued()
    ensures AllQueued([]) == []
  {}

  lemma MoreQueued(steps: seq<BufferStep>, j: nat)
    requires j < |steps|
    ensures steps[..j + 1] == steps[..j] + [steps[j]] && AllQueued(steps[..j + 1]) == AllQueued(steps[..j]) + QueuedBy(steps[j])
  {
    assert steps[..j + 1][..j] == steps[..j];
  }

  lemma NoBuffersDone(log: seq<Moment>)
    requires log != []
    ensures BuffersDone([], log, |log| - 1)
  {}

  lemma BuffersDoneMore(steps: seq<BufferStep>, step: BufferStep, log: seq<Moment>, at: nat, m: Moment)
    requires at + |steps| + 1 == |log| && BuffersDone(steps, log, at) && BufferDone(step, log[|log| - 1], m)
    ensures BuffersDone(steps + [step], log + [m], at)
  {
    forall j | 0 <= j < |steps + [step]| ensures BufferDone((steps + [step])[j], (log + [m])[at + j], (log + [m])[at + j + 1]) {
      assert j < |steps| ==> (steps + [step])[j] == steps[j] && (log + [m])[at + j + 1] == log[at + j + 1];
    }
  }

  /** From the moment the client is lost, nothing is written. */
  ghost predicate Silent(log: seq<Moment>) {
    forall i, j :: 0 <= i <= j < |log| && log[i].lost ==> log[j].lost && log[j].wire == log[i].wire
  }

  lemma OneMoment(m: Moment)
    ensures Silent([m])
  {
  }

  lemma SilentMore(log: seq<Moment>, m: Moment)
    requires log != [] && Silent(log) && (log[|log| - 1].lost ==> m.lost && m.wire == log[|log| - 1].wire)
    ensures Silent(log + [m])
  {
    var log' := log + [m];
    forall i, j | 0 <= i <= j < |log'| && log'[i].lost ensures log'[j].lost && log'[j].wire == log'[i].wire {
      assert i < |log| ==> log[i].lost ==> log[|log| - 1].lost && log[|log| - 1].wire == log[i].wire;
    }
  }

  class JobStream {
    var script: seq<SendResult>      // what the socket is going to do
    var wire: string                 // everything it has taken, after the response header
    var streamReady: bool
    var heartbeatOffset: nat
    var clientDisconnected: bool
    var pending: string              // the send buffer of a batched job
    ghost var items: seq<Item>

    constructor (script: seq<SendResult>)
      ensures Valid() && items == [] && !clientDisconnected && heartbeatOffset == 0 && pending == "" && wire == ""
    {
      this.script := script;
      wire, pending, items, streamReady, heartbeatOffset, clientDisconnected := "", "", [], false, 0, false;
    }

    /**
     While connected the wire, with what is still buffered, is whole heartbeats and frames and then the
     first `heartbeatOffset` bytes of a heartbeat. After that it ends somewhere in such a text.
     */
    ghost predicate Valid()
      reads this`wire, this`heartbeatOffset, this`clientDisconnected, this`pending, this`items
    {
      Written(Concat(items), Heartbeat(), heartbeatOffset, clientDisconnected, wire, pending)
    }

    /** One call on the socket: it takes some of the data, or none. */
    method Send(data: string) returns (r: SendResult)
      modifies this`script, this`wire
      ensures if old(script) == [] then r.Failed? && script == []
              else script == old(script)[1..] && r == if old(script)[0].Sent? && old(script)[0].n > |data| then Sent(|data|) else old(script)[0]
      ensures if r.Sent? then r.n <= |data| && wire == old(wire) + data[..r.n] else wire == old(wire)
    {
      if script == [] { return Failed; }
      r := script[0];
      script := script[1..];
      if r.Sent? {
        r := Sent(if r.n <= |data| then r.n else |data|);
        wire := wire + data[..r.n];
      }
    }

    /** Keeps sending until all is sent or the connection fails or stalls. */
    method SendAll(data: string) returns (ok: bool)
      modifies this`script, this`wire
      ensures Rest(old(script), script)
      ensures if ok then wire == old(wire) + data else old(wire) <= wire <= old(wire) + data && Broken(old(script), script)
      ensures Takes(old(script)) && |data| <= |old(script)| ==> ok && |script| + |data| >= |old(script)|
    {
      var sent := 0;
      while sent < |data|
        invariant sent <= |data| && wire == old(wire) + data[..sent]
        invariant Rest(old(script), script) && (Takes(old(script)) ==> |script| + sent >= |old(script)|)
        decreases |script|
      {
        var r := Send(data[sent..]);
        match r
        case Sent(n) =>
          assert data[..sent + n] == data[..sent] + data[sent..][..n];
          sent := sent + n;
        case Interrupted =>
        case WouldBlock =>
        case Failed =>
          return false;
      }
      ok := true;
      assert data[..sent] == data;
    }

    /** Sends what it can of a heartbeat without blocking. */
    method TrySendHeartbeat() returns (r: HeartbeatResult)
      modifies this`script, this`wire, this`heartbeatOffset
      ensures old(heartbeatOffset) > |Heartbeat()| ==> r.Disconnected? && wire == old(wire)
      ensures old(heartbeatOffset) <= |Heartbeat()| ==>
                match r
                case Complete => wire == old(wire) + Heartbeat()[old(heartbeatOffset)..]
                case Retry => old(heartbeatOffset) <= heartbeatOffset < |Heartbeat()| &&
                              wire == old(wire) + Heartbeat()[old(heartbeatOffset)..heartbeatOffset]
                case Disconnected => old(wire) <= wire <= old(wire) + Heartbeat()[old(heartbeatOffset)..] && Broken(old(script), script)
      ensures !r.Retry? ==> heartbeatOffset == 0
      ensures r.Retry? ==> Blocked(old(script), script)
      ensures Rest(old(script), script)
      ensures Takes(old(script)) && old(heartbeatOffset) <= |Heartbeat()| <= |old(script)| ==>
                r.Complete? && |script| + |Heartbeat()| >= |old(script)|
    {
      hide Heartbeat;
      if heartbeatOffset > |Heartbeat()| {
        heartbeatOffset := 0;
        return Disconnected;
      }
      while heartbeatOffset < |Heartbeat()|
        invariant old(heartbeatOffset) <= heartbeatOffset <= |Heartbeat()|
        invariant wire == old(wire) + Heartbeat()[old(heartbeatOffset)..heartbeatOffset]
        invariant Rest(old(script), script)
        invariant Takes(old(script)) ==> |script| + heartbeatOffset >= |old(script)| + old(heartbeatOffset)
        decreases |script|
      {
        var n := Send(Heartbeat()[heartbeatOffset..]);
        if n.Sent? && n.n > 0 {
          heartbeatOffset := heartbeatOffset + n.n;
          continue;
        }
        if n.Interrupted? { continue; }
        if n.WouldBlock? { return Retry; }
        heartbeatOffset := 0;
        return Disconnected;
      }
      heartbeatOffset := 0;
      r := Complete;
    }

    /** Finishes a heartbeat that a short write has begun. */
    method FinishHeartbeat() returns (ok: bool)
      requires Valid() && pending == "" && !clientDisconnected
      modifies this`script, this`wire, this`heartbeatOffset, this`clientDisconnected, this`items
      ensures Valid() && ok == !clientDisconnected && heartbeatOffset == 0 && FramesOf(items) == FramesOf(old(items))
      ensures Rest(old(script), script) && (ok || Broken(old(script), script))
      ensures old(heartbeatOffset) == 0 ==> ok && items == old(items) && script == old(script)
    {
      hide Concat, FramesOf, Heartbeat;
      ok := true;
      if heartbeatOffset > 0 {
        ok := SendAll(Heartbeat()[heartbeatOffset..]);
        RestOfBeat(Concat(items), Heartbeat(), heartbeatOffset, !ok, wire, pending);
        ConcatMore(items, Beat);
        FramesMore(items, Beat);
        items, heartbeatOffset, clientDisconnected := items + [Beat], 0, !ok;
      }
    }

    /** Sends a data frame, after the rest of a heartbeat. Nothing is written to a lost client. */
    method SendJobBytes(data: string) returns (ok: bool)
      requires Valid() && pending == ""
      modifies this`script, this`wire, this`heartbeatOffset, this`clientDisconnected, this`items
      ensures Valid() && ok == !clientDisconnected
      ensures ok ==> heartbeatOffset == 0 && FramesOf(items) == FramesOf(old(items)) + [data]
      ensures FramesOf(items) == FramesOf(old(items)) || FramesOf(items) == FramesOf(old(items)) + [data]
      ensures old(clientDisconnected) ==> clientDisconnected && wire == old(wire) && items == old(items)
      ensures heartbeatOffset == 0 || heartbeatOffset == old(heartbeatOffset)
      ensures Rest(old(script), script) && (ok || old(clientDisconnected) || Broken(old(script), script))
      ensures old(clientDisconnected) ==> script == old(script) && heartbeatOffset == old(heartbeatOffset)
      ensures Takes(old(script)) && |data| <= |old(script)| && !old(clientDisconnected) && old(heartbeatOffset) == 0 ==>
                ok && items == old(items) + [Data(data)] && |script| + |data| >= |old(script)|
    {
      hide Concat, FramesOf, Heartbeat;
      if clientDisconnected { return false; }
      ok := FinishHeartbeat();
      if !ok { return; }
      assert wire == Concat(items) + Heartbeat()[..0] == Concat(items);
      ok := SendAll(data);
      MoreText(Concat(items), Heartbeat(), !ok, wire, pending, data);
      ConcatMore(items, Data(data));
      FramesMore(items, Data(data));
      items, clientDisconnected := items + [Data(data)], !ok;
    }

    /** Allows heartbeats. Forgets a heartbeat begun before, so the stream stays well formed exactly if there was none. */
    method StartJobStream()
      requires Valid()
      modifies this`streamReady, this`heartbeatOffset
      ensures Valid() <==> clientDisconnected || old(heartbeatOffset) == 0
      ensures heartbeatOffset == if clientDisconnected then old(heartbeatOffset) else 0
      ensures streamReady == (old(streamReady) || !clientDisconnected)
    {
      hide Concat, FramesOf, Heartbeat;
      if clientDisconnected { return; }
      assert Heartbeat()[..0] == "";
      streamReady, heartbeatOffset := true, 0;
      assert |wire + pending| == |Concat(items)| + old(heartbeatOffset);
    }

    /** Ends the heartbeats. With a send buffer, the rest of a heartbeat goes ahead of what is buffered next. */
    method StopJobStream(buffered: bool)
      requires Valid()
      modifies this`streamReady, this`heartbeatOffset, this`pending, this`items
      ensures Valid() && !streamReady && FramesOf(items) == FramesOf(old(items))
      ensures if buffered then heartbeatOffset == 0 && items == old(items) + (if old(heartbeatOffset) > 0 then [Beat] else [])
              else pending == old(pending) && heartbeatOffset == old(heartbeatOffset) && items == old(items)
    {
      hide Concat, FramesOf, Heartbeat;
      streamReady := false;
      if buffered && heartbeatOffset > 0 {
        RestOfBeat(Concat(items), Heartbeat(), heartbeatOffset, clientDisconnected, wire, pending + Heartbeat()[heartbeatOffset..]);
        ConcatMore(items, Beat);
        FramesMore(items, Beat);
        pending := pending + Heartbeat()[heartbeatOffset..];
        heartbeatOffset, items := 0, items + [Beat];
      }
    }

    /** The monitor's step: a heartbeat, if one is due on a stream that allows it. */
    method MaybeSendJobHeartbeat(due: bool)
      requires Valid() && (streamReady ==> pending == "")
      modifies this`script, this`wire, this`heartbeatOffset, this`clientDisconnected, this`items
      ensures Valid() && FramesOf(items) == FramesOf(old(items))
      ensures Tick(due, old(Now()), Now())
      ensures due && old(streamReady) && !old(clientDisconnected) && Takes(old(script)) && |Heartbeat()| <= |old(script)| ==>
                Beaten(old(Now()), Now()) && |script| + |Heartbeat()| >= |old(script)|
    {
      if !streamReady || clientDisconnected { return; }
      if !due { return; }
      hide Concat, FramesOf, Heartbeat, Rest, Blocked, Broken, Takes, Written;
      ghost var text, o, was := Concat(items), heartbeatOffset, wire;
      assert o < |Heartbeat()| by { WithinBeat(text, Heartbeat(), o, was); }
      var r := TrySendHeartbeat();
      if r.Retry? {
        MoreOfBeat(text, Heartbeat(), o, heartbeatOffset, was, wire);
      } else {
        WholeBeat(text, Heartbeat(), o, was, r.Disconnected?, wire);
        ConcatMore(items, Beat);
        FramesMore(items, Beat);
        items := items + [Beat];
        clientDisconnected := r.Disconnected?;
      }
    }

    /** The monitor found the peer gone. */
    method MarkDisconnected()
      requires Valid()
      modifies this`clientDisconnected
      ensures Valid() && clientDisconnected
    {
      clientDisconnected := true;
    }

    /** A frame goes into the send buffer. */
    method Append(data: string)
      requires Valid() && heartbeatOffset == 0
      modifies this`pending, this`items
      ensures Valid() && FramesOf(items) == FramesOf(old(items)) + if clientDisconnected then [] else [data]
      ensures pending == old(pending) + data && items == if clientDisconnected then old(items) else old(items) + [Data(data)]
    {
      hide Concat, FramesOf, Heartbeat;
      pending := pending + data;
      if !clientDisconnected {
        assert Concat(items) + Heartbeat()[..0] == Concat(items) && wire + pending == wire + old(pending) + data;
        MoreText(Concat(items), Heartbeat(), false, wire, pending, data);
        ConcatMore(items, Data(data));
        FramesMore(items, Data(data));
        items := items + [Data(data)];
      }
    }

    /** Part of the send buffer goes out. */
    method FlushSome()
      requires Valid() && heartbeatOffset == 0
      modifies this`script, this`wire, this`pending, this`clientDisconnected
      ensures Valid() && Flushed(old(Now()), Now())
    {
      if clientDisconnected || pending == "" { return; }
      var r := Send(pending);
      if r.Sent? {
        assert pending == pending[..r.n] + pending[r.n..];
        pending := pending[r.n..];
      } else if r.Failed? {
        clientDisconnected := true;
      }
    }

    // ── Whole responses ──

    /** The frames so far are those of `sent`, or the first of them if the client was lost. */
    ghost predicate Carrying(sent: seq<Message>)
      reads this`items, this`clientDisconnected
    {
      FramesOf(items) <= FramesFor(sent) && (!clientDisconnected ==> FramesOf(items) == FramesFor(sent))
    }

    ghost function Now(): Moment
      reads this`clientDisconnected, this`streamReady, this`heartbeatOffset, this`wire, this`pending, this`items, this`script
    {
      Moment(clientDisconnected, streamReady, heartbeatOffset, wire, pending, items, script)
    }

    /** The log of a run, up to now. */
    ghost predicate Logged(log: seq<Moment>)
      reads this`clientDisconnected, this`streamReady, this`heartbeatOffset, this`wire, this`pending, this`items, this`script
    {
      log != [] && log[|log| - 1] == Now() && Silent(log)
    }

    /** The socket takes what it is given, with no heartbeat half written to a connected client. */
    ghost predicate Willing()
      reads this`script, this`heartbeatOffset, this`clientDisconnected
    {
      Takes(script) && (clientDisconnected || heartbeatOffset == 0)
    }

    method DoStep(step: Step, ghost sent: seq<Message>)
      requires Valid() && pending == "" && Carrying(sent)
      modifies this`script, this`wire, this`heartbeatOffset, this`clientDisconnected, this`items, this`streamReady, this`pending
      ensures Valid() && pending == "" && Carrying(sent + MessagesOf(step))
      ensures !old(streamReady) && old(heartbeatOffset) == 0 ==> !streamReady && heartbeatOffset == 0
      ensures old(clientDisconnected) ==> clientDisconnected && wire == old(wire)
      ensures StepDone(step, old(Now()), Now(), old(Willing() && |script| >= Need(step)))
      ensures old(Willing() && |script| >= Need(step)) ==> Willing() && |script| + Need(step) >= |old(script)|
    {
      hide FramesOf, Valid, Takes, Rest, Broken, Blocked, Heartbeat;
      match step
      case SendFrame(m) =>
        assert FramesFor(sent + [m]) == FramesFor(sent) + [Frame(m)];
        ghost var was := script;
        var ok := SendJobBytes(Frame(m));
        TakesRest(was, script);
      case Monitor(gone, due) =>
        assert sent + [] == sent;
        if gone {
          MarkDisconnected();
        } else {
          ghost var was := script;
          MaybeSendJobHeartbeat(due);
          TakesRest(was, script);
        }
      case Stop =>
        assert sent + [] == sent;
        StopJobStream(false);
    }

    method DoSteps(steps: seq<Step>, ghost sent: seq<Message>, ghost log: seq<Moment>)
      returns (ghost sent': seq<Message>, ghost log': seq<Moment>)
      requires Valid() && pending == "" && Carrying(sent) && Logged(log)
      modifies this`script, this`wire, this`heartbeatOffset, this`clientDisconnected, this`items, this`streamReady, this`pending
      ensures Valid() && pending == "" && sent' == sent + AllMessages(steps) && Carrying(sent')
      ensures !old(streamReady) && old(heartbeatOffset) == 0 ==> !streamReady && heartbeatOffset == 0
      ensures Logged(log') && log <= log' && |log'| == |log| + |steps|
      ensures StepsDone(steps, log', |log| - 1, old(Willing() && |script| >= NeedAll(steps)))
      ensures old(Willing() && |script| >= NeedAll(steps)) ==> Willing() && |script| + NeedAll(steps) >= |old(script)|
    {
      hide Carrying, Valid, Silent, Need, NeedAll, AllMessages, MessagesOf, Takes, StepDone, StepsDone;
      ghost var takes := Willing() && |script| >= NeedAll(steps);
      sent', log' := sent, log;
      NoStepsDone(log, takes);
      assert AllMessages(steps[..0]) == [] && NeedAll(steps[..0]) == 0 by { NoSteps(); }
      for j := 0 to |steps|
        invariant Valid() && pending == "" && sent' == sent + AllMessages(steps[..j]) && Carrying(sent')
        invariant !old(streamReady) && old(heartbeatOffset) == 0 ==> !streamReady && heartbeatOffset == 0
        invariant Logged(log') && log <= log' && |log'| == |log| + j
        invariant StepsDone(steps[..j], log', |log| - 1, takes)
        invariant takes ==> Willing() && |script| + NeedAll(steps[..j]) >= |old(script)|
      {
        MoreSteps(steps, j);
        NeedWithin(steps, j + 1);
        ghost var willing := Willing() && |script| >= Need(steps[j]);
        DoStep(steps[j], sent');
        StepDoneFor(steps[j], log'[|log'| - 1], Now(), willing, takes);
        StepsDoneMore(steps[..j], steps[j], log', |log| - 1, Now(), takes);
        SilentMore(log', Now());
        sent', log' := sent' + MessagesOf(steps[j]), log' + [Now()];
      }
      assert steps[..|steps|] == steps;
    }

    method DoBuffered(step: BufferStep, ghost sent: seq<Message>)
      requires Valid() && heartbeatOffset == 0 && Carrying(sent)
      modifies this`script, this`wire, this`clientDisconnected, this`items, this`pending
      ensures Valid() && Carrying(sent + QueuedBy(step))
      ensures BufferDone(step, old(Now()), Now())
    {
      hide FramesOf, Valid;
      match step
      case Queue(m) =>
        assert FramesFor(sent + [m]) == FramesFor(sent) + [Frame(m)];
        Append(Frame(m));
      case Flush =>
        assert sent + [] == sent;
        FlushSome();
      case Watch(gone) =>
        assert sent + [] == sent;
        if gone {
          MarkDisconnected();
        }
    }

    method DoAllBuffered(steps: seq<BufferStep>, ghost sent: seq<Message>, ghost log: seq<Moment>)
      returns (ghost sent': seq<Message>, ghost log': seq<Moment>)
      requires Valid() && heartbeatOffset == 0 && Carrying(sent) && Logged(log)
      modifies this`script, this`wire, this`clientDisconnected, this`items, this`pending
      ensures Valid() && sent' == sent + AllQueued(steps) && Carrying(sent')
      ensures Logged(log') && log <= log' && |log'| == |log| + |steps| && BuffersDone(steps, log', |log| - 1)
    {
      hide Carrying, Valid, Silent, BuffersDone, AllQueued, QueuedBy;
      sent', log' := sent, log;
      NoBuffersDone(log);
      assert AllQueued(steps[..0]) == [] by { NoneQueued(); }
      for j := 0 to |steps|
        invariant Valid() && sent' == sent + AllQueued(steps[..j]) && Carrying(sent')
        invariant Logged(log') && log <= log' && |log'| == |log| + j && BuffersDone(steps[..j], log', |log| - 1)
      {
        MoreQueued(steps, j);
        DoBuffered(steps[j], sent');
        BuffersDoneMore(steps[..j], steps[j], log', |log| - 1, Now());
        SilentMore(log', Now());
        sent', log' := sent' + QueuedBy(steps[j]), log' + [Now()];
      }
      assert steps[..|steps|] == steps;
    }

    /** The end of a batched job's response, which goes through the send buffer. */
    method Buffer(batched: bool, buffered: seq<BufferStep>, ghost sent: seq<Message>, ghost log: seq<Moment>)
      returns (ghost sent': seq<Message>, ghost log': seq<Moment>)
      requires Valid() && Carrying(sent) && Logged(log)
      modifies this
      ensures Valid() && sent' == sent + (if batched then AllQueued(buffered) else []) && Carrying(sent')
      ensures Logged(log') && log <= log' && |log'| == |log| + if batched then 1 + |buffered| else 0
      ensures batched ==> BuffersDone(buffered, log', |log|)
    {
      hide Valid, Silent, BuffersDone, AllQueued, FramesOf;
      sent', log' := sent + [], log;
      if batched {
        StopJobStream(true);
        SilentMore(log, Now());
        sent', log' := DoAllBuffered(buffered, sent, log + [Now()]);
      }
    }

    /**
     A response under any interleaving of the worker and the monitor and any behaviour of the socket:
     steps before heartbeats are allowed, steps after, and, for a batched job, steps that only write
     through the send buffer. A connected client sees exactly the submitted messages, in order, as far as
     they have left the buffer; a lost one the first of them, and from the step that lost it on nothing
     is written. Each heartbeat that is due on a ready stream is tried, and on a socket that takes what it
     is given it is whole on the wire at once.
     */
    method Run(before: seq<Step>, after: seq<Step>, batched: bool, buffered: seq<BufferStep>)
      returns (ghost sent: seq<Message>, ghost log: seq<Moment>)
      requires Valid() && items == [] && !clientDisconnected && !streamReady && heartbeatOffset == 0 && pending == ""
      requires AllSendable(AllMessages(before) + AllMessages(after) + AllQueued(buffered))
      modifies this
      ensures sent == AllMessages(before) + AllMessages(after) + if batched then AllQueued(buffered) else []
      ensures Read(START, wire).messages <= sent
      ensures !clientDisconnected ==> Read(START, wire + pending).messages == sent
      ensures |log| == 2 + |before| + |after| + (if batched then 1 + |buffered| else 0) && log[0] == old(Now()) && Logged(log)
      ensures log[|before| + 1] == log[|before|].(ready := !log[|before|].lost)
      ensures var takes := Takes(old(script)) && |old(script)| >= NeedAll(before) + NeedAll(after);
              StepsDone(before, log, 0, takes) && StepsDone(after, log, |before| + 1, takes)
      ensures batched ==> BuffersDone(buffered, log, |before| + |after| + 2)
    {
      hide Valid, AllSendable, Read, FramesOf, FramesFor, Silent, StepsDone, BuffersDone, Takes, NeedAll, AllMessages, AllQueued;
      ghost var takes := Takes(script) && |script| >= NeedAll(before) + NeedAll(after);
      ghost var log0, log1, log2;
      log0 := [Now()];
      OneMoment(Now());
      assert Carrying([]) by { NothingSent(); }
      sent, log1 := DoSteps(before, [], log0);
      StartJobStream();
      SilentMore(log1, Now());
      log := log1 + [Now()];
      ghost var willing := Willing() && |script| >= NeedAll(after);
      sent, log2 := DoSteps(after, sent, log);
      StepsDoneFor(before, log1, 0, old(Willing() && |script| >= NeedAll(before)), log2, takes);
      StepsDoneFor(after, log2, |before| + 1, willing, log2, takes);
      assert [] + AllMessages(before) == AllMessages(before);
      sent, log := Buffer(batched, buffered, sent, log2);
      StepsDoneFor(before, log2, 0, takes, log, takes);
      StepsDoneFor(after, log2, |before| + 1, takes, log, takes);
      Seen(sent, AllMessages(before) + AllMessages(after) + AllQueued(buffered));
    }

    lemma NothingSent()
      requires items == []
      ensures Carrying([])
    {
    }

    lemma Seen(sent: seq<Message>, all: seq<Message>)
      requires Valid() && Carrying(sent) && sent <= all && AllSendable(all)
      ensures Read(START, wire).messages <= sent
      ensures !clientDisconnected ==> Read(START, wire + pending).messages == sent
    {
      hide FramesOf, Read, Written;
      var ms := sent[..|FramesOf(items)|];
      assert FramesFor(ms) == FramesOf(items);
      WireSeen(items, heartbeatOffset, clientDisconnected, wire, pending, ms);
      assert !clientDisconnected ==> ms == sent;
    }
  }
}
