/** What the emitter sends, and the clients' view of it: the block and item protocols. */
module SseEvents {
  import opened Utf8

  datatype Call = Call(id: Bytes, name: Bytes, arguments: Bytes)

  datatype Kind = Thinking | Answer | ToolUse

  datatype Item = ReasoningItem(text: Bytes) | MessageItem(text: Bytes) | CallItem(call: Call)

  datatype Event =
    // chat completions
    | RoleDelta
    | ContentDelta(text: Bytes)
    | ReasoningDelta(text: Bytes)
    | ToolCallsDelta(calls: seq<Call>)
    | FinishChunk(reason: string)
    | UsageChunk
    | DoneMarker
    // messages
    | MessageStart
    | BlockStart(index: nat, kind: Kind)
    | CallStart(index: nat, id: Bytes, name: Bytes)
    | BlockDelta(index: nat, kind: Kind, text: Bytes)
    | BlockStop(index: nat)
    | MessageDelta(stopReason: string)
    | MessageStop
    // responses
    | Created
    | ItemAdded(index: nat, kind: Kind)
    | PartAdded(index: nat, kind: Kind)
    | ItemDelta(index: nat, kind: Kind, text: Bytes)
    | TextDone(index: nat, kind: Kind, text: Bytes)
    | PartDone(index: nat, kind: Kind, text: Bytes)
    | ItemDone(index: nat, item: Item)
    | ToolInput(index: nat, call: Call)
    | Completed(output: seq<Item>, outputText: Bytes)

  // ── The block protocol of the messages format ──

  datatype Phase = NotStarted | Between | Open(kind: Kind) | Ended | Stopped | Bad

  /** `next`: index of the open block, or of the next one. `mixed`: some delta's kind was not its block's. */
  datatype Blocks = Blocks(phase: Phase, next: nat, mixed: bool)

  function BlockStep(b: Blocks, e: Event): Blocks {
    match (b.phase, e)
    case (NotStarted, MessageStart) => b.(phase := Between)
    case (Between, BlockStart(i, kind)) => if i == b.next then b.(phase := Open(kind)) else b.(phase := Bad)
    case (Between, CallStart(i, _, _)) => if i == b.next then b.(phase := Open(ToolUse)) else b.(phase := Bad)
    case (Open(kind), BlockDelta(i, k, _)) =>
      if i == b.next then b.(mixed := b.mixed || k != kind) else b.(phase := Bad)
    case (Open(_), BlockStop(i)) => if i == b.next then b.(phase := Between, next := i + 1) else b.(phase := Bad)
    case (Between, MessageDelta(_)) => b.(phase := Ended)
    case (Ended, MessageStop) => b.(phase := Stopped)
    case _ => b.(phase := Bad)
  }

  // ── The item protocol of the responses format ──

  datatype Current = Nothing | Streaming(kind: Kind, text: Bytes)

  /** Finished items in order, and the one that is open; a client keeps the open item's deltas. */
  datatype Items = Fresh | Live(done: seq<Item>, current: Current) | Complete(done: seq<Item>) | Broken

  predicate OpenAt(s: Items, index: nat, kind: Kind) {
    s.Live? && index == |s.done| && s.current.Streaming? && s.current.kind == kind
  }

  function AsItem(kind: Kind, text: Bytes): Item {
    if kind.Thinking? then ReasoningItem(text) else MessageItem(text)
  }

  function ItemStep(s: Items, e: Event): Items {
    match e
    case Created => if s.Fresh? then Live([], Nothing) else Broken
    case ItemAdded(i, kind) =>
      if s.Live? && s.current.Nothing? && i == |s.done| && !kind.ToolUse? && (i > 0 ==> kind.Answer?)
      then s.(current := Streaming(kind, [])) else Broken
    case PartAdded(i, kind) => if OpenAt(s, i, kind) then s else Broken
    case ItemDelta(i, kind, text) =>
      if OpenAt(s, i, kind) then s.(current := Streaming(kind, s.current.text + text)) else Broken
    case TextDone(i, kind, text) => if OpenAt(s, i, kind) && s.current.text == text then s else Broken
    case PartDone(i, kind, text) => if OpenAt(s, i, kind) && s.current.text == text then s else Broken
    case ItemDone(i, item) =>
      if s.Live? && i == |s.done| && s.current.Streaming? && item == AsItem(s.current.kind, s.current.text)
      then Live(s.done + [item], Nothing) else Broken
    case Completed(output, _) => if s.Live? && s.current.Nothing? && output == s.done then Complete(output) else Broken
    case _ => Broken
  }

  // ── Everything a client can tell from the events ──

  /** The calls a client of any format has read, with another event. */
  function CallStep(calls: seq<Call>, e: Event): seq<Call> {
    match e
    case ToolCallsDelta(more) => calls + more
    case CallStart(_, id, name) => calls + [Call(id, name, [])]
    case BlockDelta(_, kind, text) =>
      if kind.ToolUse? && calls != [] then calls[..|calls| - 1] + [WithInput(calls[|calls| - 1], text)] else calls
    case ToolInput(_, call) => calls + [call]
    case _ => calls
  }

  /** An event of a call. */
  predicate OfCall(e: Event) {
    e.ToolCallsDelta? || e.CallStart? || e.ToolInput? || (e.BlockDelta? && e.kind.ToolUse?)
  }

  function WithInput(call: Call, text: Bytes): Call {
    call.(arguments := call.arguments + text)
  }

  /** A call in a block of its own is read as it was. */
  lemma BlockIsCall(calls: seq<Call>, i: nat, call: Call)
    ensures var begun := CallStep(calls, CallStart(i, call.id, call.name));
            && (call.arguments == [] ==> begun == calls + [call])
            && CallStep(begun, BlockDelta(i, ToolUse, call.arguments)) == calls + [call]
  {
    var begun := CallStep(calls, CallStart(i, call.id, call.name));
    assert begun[..|begun| - 1] == calls && [] + call.arguments == call.arguments;
  }

  predicate EndsIn(events: seq<Event>, last: seq<Event>) {
    |last| <= |events| && events[|events| - |last|..] == last
  }

  lemma EndsAfter(events: seq<Event>, last: seq<Event>)
    ensures EndsIn(events + last, last)
  {
  }

  lemma EndsInTwo(events: seq<Event>, a: Event, b: Event)
    ensures EndsIn(events + [a] + [b], [a, b])
  {
  }

  datatype View = View(blocks: Blocks, items: Items, reasoning: Bytes, content: Bytes, calls: seq<Call>)

  function ReasoningOf(e: Event): Bytes {
    match e
    case ReasoningDelta(t) => t
    case BlockDelta(_, kind, t) => if kind == Thinking then t else []
    case ItemDelta(_, kind, t) => if kind == Thinking then t else []
    case _ => []
  }

  function ContentOf(e: Event): Bytes {
    match e
    case ContentDelta(t) => t
    case BlockDelta(_, kind, t) => if kind == Answer then t else []
    case ItemDelta(_, kind, t) => if kind == Answer then t else []
    case _ => []
  }

  /** An event without text of the answer or the reasoning. */
  predicate IsMark(e: Event) {
    !e.ReasoningDelta? && !e.ContentDelta? && !e.ItemDelta? && (e.BlockDelta? ==> e.kind.ToolUse?)
  }

  function ViewStep(v: View, e: Event): View {
    View(BlockStep(v.blocks, e), ItemStep(v.items, e), v.reasoning + ReasoningOf(e), v.content + ContentOf(e),
         CallStep(v.calls, e))
  }

  const NOTHING_SEEN := View(Blocks(NotStarted, 0, false), Fresh, [], [], [])

  function Observe(events: seq<Event>): View {
    if events == [] then NOTHING_SEEN
    else ViewStep(Observe(events[..|events| - 1]), events[|events| - 1])
  }

  /** `views` are the views before and after each event. */
  ghost predicate Watched(events: seq<Event>, views: seq<View>) {
    |views| == |events| + 1 && views[0] == NOTHING_SEEN && forall i :: 0 <= i < |events| ==> Seen(events, views, i)
  }

  ghost predicate Seen(events: seq<Event>, views: seq<View>, i: nat) {
    i < |events| && i + 1 < |views| && views[i + 1] == ViewStep(views[i], events[i])
  }

  lemma WatchedMore(events: seq<Event>, views: seq<View>, e: Event)
    requires Watched(events, views)
    ensures Watched(events + [e], views + [ViewStep(views[|events|], e)])
  {
    var events', views' := events + [e], views + [ViewStep(views[|events|], e)];
    forall i | 0 <= i < |events'| ensures Seen(events', views', i) {
      assert i < |events| ==> Seen(events, views, i);
    }
  }

  lemma {:induction false} WatchedIsObserved(events: seq<Event>, views: seq<View>)
    requires Watched(events, views)
    ensures views[|events|] == Observe(events)
  {
    if events != [] {
      var n := |events| - 1;
      var before, upTo := events[..n], views[..n + 1];
      forall i | 0 <= i < n ensures Seen(before, upTo, i) {
        assert Seen(events, views, i);
      }
      WatchedIsObserved(before, upTo);
      assert Seen(events, views, n);
    }
  }

  // ── Items and deltas agree ──

  function ReasoningIn(items: seq<Item>): Bytes {
    if items == [] then [] else
    var last := items[|items| - 1];
    ReasoningIn(items[..|items| - 1]) + if last.ReasoningItem? then last.text else []
  }

  lemma {:induction false} FirstReasoning(text: Bytes, answer: seq<Item>)
    requires answer == [] || (|answer| == 1 && answer[0].MessageItem?)
    ensures ReasoningIn((if text != [] then [ReasoningItem(text)] else []) + answer) == text
  {
    var first := if text != [] then [ReasoningItem(text)] else [];
    assert first[..0] == [];
    assert ReasoningIn(first) == text;
    if answer == [] {
      assert first + answer == first;
    } else {
      assert (first + answer)[..|first|] == first;
    }
  }

  function CallItems(calls: seq<Call>): seq<Item> {
    seq(|calls|, i requires 0 <= i < |calls| => CallItem(calls[i]))
  }

  function ContentIn(items: seq<Item>): Bytes {
    if items == [] then [] else
    var last := items[|items| - 1];
    ContentIn(items[..|items| - 1]) + if last.MessageItem? then last.text else []
  }

  /** The items a client holds carry exactly the deltas it was sent. */
  ghost predicate Carries(v: View) {
    match v.items
    case Fresh => v.reasoning == [] && v.content == []
    case Live(done, Nothing) => v.reasoning == ReasoningIn(done) && v.content == ContentIn(done)
    case Live(done, Streaming(kind, text)) =>
      && !kind.ToolUse?
      && v.reasoning == ReasoningIn(done) + (if kind.Thinking? then text else [])
      && v.content == ContentIn(done) + (if kind.Answer? then text else [])
    case Complete(done) => v.reasoning == ReasoningIn(done) && v.content == ContentIn(done)
    case Broken => true
  }

  lemma {:induction false} CarriesStep(v: View, e: Event)
    requires Carries(v)
    ensures Carries(ViewStep(v, e))
  {
    match e
    case ItemDone(i, item) =>
      CarriesItem(v, e);
    case _ =>
      hide ReasoningIn, ContentIn;
      assert e.Created? ==> ReasoningIn([]) == [] && ContentIn([]) == [] by { NothingIn(); }
  }

  lemma NothingIn()
    ensures ReasoningIn([]) == [] && ContentIn([]) == []
  {
  }

  lemma {:induction false} CarriesItem(v: View, e: Event)
    requires Carries(v) && e.ItemDone?
    ensures Carries(ViewStep(v, e))
  {
    if v.items.Live? {
      assert (v.items.done + [e.item])[..|v.items.done|] == v.items.done;
    }
  }

  /** Whatever was sent: as long as the item protocol holds, the items' texts are the deltas. */
  lemma {:induction false} ItemsCarryDeltas(events: seq<Event>)
    ensures Carries(Observe(events))
  {
    if events != [] {
      ItemsCarryDeltas(events[..|events| - 1]);
      CarriesStep(Observe(events[..|events| - 1]), events[|events| - 1]);
    }
  }
}
