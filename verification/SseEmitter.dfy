/** The streaming emitter: splits generated text into reasoning, content and tool calls, and sends events. */
module SseEmitter {
  import opened Text
  import opened Utf8
  import opened ThinkSplit
  import opened ThinkStream
  import opened StopSequence
  import opened SseEvents
  import opened SseText

  /** Where a stop sequence fired: in the reasoning or not, the text given out then, and the block that was open. */
  datatype CutAt = CutAt(thinking: bool, text: Bytes, kind: Option<Kind>)

  /** The emitter before the piece that completed a stop sequence, and the text that piece added. */
  datatype Before = Before(raw: Bytes, tail: Bytes, mode: Mode, window: Bytes, kind: Option<Kind>, sent: seq<Event>, text: Bytes)

  class Emitter {
    const cfg: Config

    var mode: Mode
    var toolFromReasoning: bool
    var window: Bytes
    var utf8Tail: Bytes
    var toolBuffer: Bytes
    var toolFallback: bool
    var content: Bytes
    var raw: Bytes
    var reasoning: Bytes
    var toolCalls: seq<Call>
    var blockIndex: nat
    var activeKind: Option<Kind>
    var checked: bool
    var stopHit: bool
    var reasoningOpen: bool
    var msgOpen: bool
    var outputIndex: nat
    var finishReason: string

    ghost var received: Bytes        // bytes of all pieces taken in
    ghost var sent: seq<Event>
    ghost var views: seq<View>       // what a client has seen before and after each event
    ghost var view: View
    ghost var reopened: bool         // reasoning went out after the answer's message was opened
    ghost var mixed: bool            // a delta's kind was not its block's
    ghost var lost: bool             // reasoning was recorded without an event
    ghost var cut: Option<CutAt>

    constructor (cfg: Config)
      requires cfg.Ok()
      ensures this.cfg == cfg && NotStarted()
    {
      this.cfg := cfg;
      mode := if cfg.startedInThinking then REASONING else CONTENT;
      activeKind := Some(if cfg.startedInThinking then Thinking else Answer);
      toolFromReasoning, toolFallback, checked, stopHit, reasoningOpen, msgOpen := false, false, false, false, false, false;
      window, utf8Tail, toolBuffer, content, raw, reasoning, received := [], [], [], [], [], [], [];
      toolCalls, blockIndex, outputIndex, finishReason := [], 0, 0, "stop";
      sent, views, view, reopened, mixed, lost, cut := [], [NOTHING_SEEN], NOTHING_SEEN, false, false, false, None;
    }

    ghost predicate NotStarted()
      reads this
    {
      && cfg.Ok() && sent == [] && view == NOTHING_SEEN && Logged()
      && mode == (if cfg.startedInThinking then REASONING else CONTENT)
      && activeKind == Some(if cfg.startedInThinking then Thinking else Answer)
      && !checked && !stopHit && !reasoningOpen && !msgOpen && !reopened && !mixed && !lost && cut.None? && !toolFallback && !toolFromReasoning
      && window == [] && utf8Tail == [] && toolBuffer == [] && content == [] && raw == [] && reasoning == [] && received == []
      && toolCalls == [] && blockIndex == 0 && outputIndex == 0
    }

    // ── What holds between calls ──

    ghost predicate Logged()
      reads this`sent, this`views, this`view
    {
      Watched(sent, views) && view == views[|sent|]
    }

    /** The answer's message counts as open, or the reasoning item has been closed. */
    predicate Answered()
      reads this`content, this`outputIndex
    {
      !cfg.startedInThinking || content != [] || outputIndex > 0
    }

    ghost function Now(): Flow
      reads this`mode, this`checked, this`content, this`outputIndex, this`window, this`reasoning, this`reopened
      reads this`toolBuffer, this`toolFromReasoning, this`toolFallback
    {
      Flow(mode, checked, Answered(), window, reasoning, content, reopened, Buffer(toolBuffer, toolFromReasoning, toolFallback))
    }

    /** The items a responses client should have. */
    ghost function ExpectedItems(): Items
      reads this`reasoning, this`reasoningOpen, this`msgOpen, this`content
    {
      Live(if reasoning != [] && !reasoningOpen then [ReasoningItem(reasoning)] else [],
           if reasoningOpen then Streaming(Thinking, reasoning) else if msgOpen then Streaming(Answer, content) else Nothing)
    }

    ghost predicate ItemsOk()
      reads this`view, this`msgOpen, this`content, this`lost, this`reopened, this`reasoning, this`reasoningOpen, this`outputIndex
    {
      && msgOpen == (!cfg.startedInThinking || content != [])
      && (!lost && reopened ==> view.items.Broken?)
      && (!lost && !reopened ==>
            && view.items == ExpectedItems()
            && outputIndex == |view.items.done|
            && (reasoningOpen ==> reasoning != [] && !msgOpen))
    }

    /** The block a messages client has open is the emitter's. */
    ghost predicate BlocksOk()
      reads this`activeKind, this`view, this`blockIndex, this`mixed
    {
      activeKind.Some? && view.blocks == Blocks(Open(activeKind.value), blockIndex, mixed)
    }

    /** The deltas carry the content and the reasoning, or not all of the reasoning. */
    ghost predicate TextsOk()
      reads this`view, this`content, this`reasoning, this`lost
    {
      view.content == content && if lost then |view.reasoning| < |reasoning| else view.reasoning == reasoning
    }

    /** The open block is of the first kind as long as there was nothing of the other. */
    ghost predicate KindOk()
      reads this`activeKind, this`content, this`reasoning
    {
      if cfg.startedInThinking then content == [] ==> activeKind == Some(Thinking) else reasoning == [] ==> activeKind == Some(Answer)
    }

    /** A delta of the wrong kind, and reasoning without an event, are what a stop sequence leaves in the reasoning. */
    ghost predicate CutOk()
      reads this`stopHit, this`cut, this`mixed, this`lost
    {
      && (stopHit <==> cut.Some?)
      && (lost <==> cfg.format.Responses? && cut.Some? && cut.value.thinking && cut.value.text != [])
      && (mixed <==> cfg.format.Anthropic? && cut.Some? && cut.value.thinking && cut.value.text != [] && cut.value.kind != Some(Thinking))
    }

    /** The client's view agrees with the emitter's own fields. */
    ghost predicate Emitting()
      reads this`sent, this`views, this`view, this`content, this`reasoning, this`lost, this`mixed, this`stopHit, this`reopened, this`cut
      reads this`activeKind, this`blockIndex, this`msgOpen, this`reasoningOpen, this`outputIndex
    {
      Steady() && CutOk()
    }

    ghost predicate Steady()
      reads this`sent, this`views, this`view, this`content, this`reasoning, this`lost, this`mixed, this`reopened
      reads this`activeKind, this`blockIndex, this`msgOpen, this`reasoningOpen, this`outputIndex
    {
      && Logged()
      && TextsOk() && view.calls == []
      && (cfg.format.Anthropic? ==> BlocksOk() && KindOk())
      && (cfg.format.Responses? ==> ItemsOk())
      && (!cfg.format.Responses? ==> outputIndex == 0 && !reasoningOpen)
    }

    method Push(e: Event)
      requires Logged()
      modifies this`sent, this`views, this`view
      ensures Logged() && sent == old(sent) + [e] && view == ViewStep(old(view), e)
      ensures !OfCall(e) ==> view.calls == old(view).calls
    {
      WatchedMore(sent, views, e);
      sent, views, view := sent + [e], views + [ViewStep(view, e)], ViewStep(view, e);
    }

    /** A delta of the responses format. */
    method PushDelta(index: nat, kind: Kind, text: Bytes)
      requires Logged() && !kind.ToolUse?
      modifies this`sent, this`views, this`view
      ensures old(sent) <= sent
      ensures Logged()
      ensures OpenAt(old(view).items, index, kind) ==>
                view.items == old(view).items.(current := Streaming(kind, old(view).items.current.text + text))
      ensures old(view).items.Broken? ==> view.items.Broken?
      ensures view.content == old(view).content + (if kind.Answer? then text else [])
      ensures view.reasoning == old(view).reasoning + (if kind.Thinking? then text else []) && view.calls == old(view).calls
    {
      Push(ItemDelta(index, kind, text));
    }

    /** An event of a call. */
    method PushCall(e: Event)
      requires Logged() && IsMark(e) && OfCall(e)
      modifies this`sent, this`views, this`view
      ensures old(sent) <= sent
      ensures Logged() && view.blocks == BlockStep(old(view).blocks, e) && view.calls == CallStep(old(view).calls, e)
      ensures view.reasoning == old(view).reasoning && view.content == old(view).content
    {
      hide Logged, BlockStep, ItemStep, CallStep;
      Push(e);
    }

    /** An event that carries no delta. */
    method PushMark(e: Event)
      requires Logged() && IsMark(e) && !OfCall(e)
      modifies this`sent, this`views, this`view
      ensures old(sent) <= sent
      ensures Logged() && sent == old(sent) + [e]
      ensures view.items == ItemStep(old(view).items, e) && view.blocks == BlockStep(old(view).blocks, e)
      ensures view.reasoning == old(view).reasoning && view.content == old(view).content && view.calls == old(view).calls
    {
      hide Logged, BlockStep, ItemStep, CallStep;
      Push(e);
    }

    /** The events that start a response. */
    method Announce()
      requires NotStarted()
      modifies this`sent, this`views, this`view, this`msgOpen
      ensures old(sent) <= sent && (cfg.format.OpenAiChat? ==> sent == [RoleDelta])
      ensures Emitting()
    {
      match cfg.format
      case OpenAiChat =>
        Push(RoleDelta);
      case Anthropic =>
        StartMessages();
      case Responses =>
        StartResponse();
    }

    method StartMessages()
      requires Logged() && activeKind.Some? && view.blocks == Blocks(Phase.NotStarted, blockIndex, mixed)
      modifies this`sent, this`views, this`view
      ensures old(sent) <= sent
      ensures Logged() && BlocksOk() && view.content == old(view).content && view.reasoning == old(view).reasoning && view.calls == old(view).calls
    {
      hide Logged, ItemStep;
      PushMark(MessageStart);
      PushMark(BlockStart(blockIndex, activeKind.value));
    }

    method StartResponse()
      requires Logged() && view.items.Fresh? && content == [] && reasoning == [] && outputIndex == 0
      requires !msgOpen && !reasoningOpen && !reopened && !lost
      modifies this`sent, this`views, this`view, this`msgOpen
      ensures old(sent) <= sent
      ensures Logged() && ItemsOk() && view.content == old(view).content && view.reasoning == old(view).reasoning && view.calls == old(view).calls
    {
      PushMark(Created);
      if !cfg.startedInThinking {
        OpenMessage();
      }
    }

    /** Opens the answer's item. */
    method OpenMessage()
      requires Logged() && !msgOpen && content == []
      modifies this`sent, this`views, this`view, this`msgOpen
      ensures old(sent) <= sent
      ensures Logged() && msgOpen && view.content == old(view).content && view.reasoning == old(view).reasoning && view.calls == old(view).calls
      ensures old(view).items.Broken? ==> view.items.Broken?
      ensures old(view.items == ExpectedItems() && !reasoningOpen && outputIndex == |view.items.done|) ==>
                view.items == ExpectedItems() && outputIndex == |view.items.done|
    {
      PushMark(ItemAdded(outputIndex, Answer));
      PushMark(PartAdded(outputIndex, Answer));
      msgOpen := true;
    }

    /** The closing events of the reasoning item. */
    method FinishReasoning()
      requires Logged()
      modifies this`sent, this`views, this`view
      ensures old(sent) <= sent
      ensures Logged() && view.content == old(view).content && view.reasoning == old(view).reasoning && view.calls == old(view).calls
      ensures old(view).items == Live([], Streaming(Thinking, reasoning)) && outputIndex == 0 ==>
                view.items == Live([ReasoningItem(reasoning)], Nothing)
      ensures old(view).items.Broken? ==> view.items.Broken?
    {
      PushMark(TextDone(outputIndex, Thinking, reasoning));
      PushMark(PartDone(outputIndex, Thinking, reasoning));
      PushMark(ItemDone(outputIndex, ReasoningItem(reasoning)));
    }

    /** Closes the streamed reasoning item, if one is open. */
    method CloseReasoning()
      requires Logged() && ItemsOk()
      modifies this`sent, this`views, this`view, this`reasoningOpen, this`outputIndex
      ensures old(sent) <= sent
      ensures Logged() && ItemsOk() && !reasoningOpen
      ensures view.content == old(view).content && view.reasoning == old(view).reasoning && view.calls == old(view).calls
    {
      if !reasoningOpen { return; }
      FinishReasoning();
      reasoningOpen := false;
      outputIndex := outputIndex + 1;
    }

    method CloseReasoningItem()
      requires Emitting()
      modifies this`sent, this`views, this`view, this`reasoningOpen, this`outputIndex
      ensures old(sent) <= sent
      ensures Emitting() && !reasoningOpen
    {
      if cfg.format.Responses? {
        CloseReasoning();
      }
    }

    /** A content delta of the responses format, opening the message first if need be. */
    method ResponsesContent(text: Bytes)
      requires Logged() && ItemsOk() && text != []
      modifies this`content, this`sent, this`views, this`view, this`reasoningOpen, this`msgOpen, this`outputIndex
      ensures old(sent) <= sent
      ensures Logged() && ItemsOk() && !reasoningOpen && content == old(content) + text
      ensures view.content == old(view).content + text && view.reasoning == old(view).reasoning && view.calls == old(view).calls
    {
      CloseReasoning();
      if !msgOpen {
        OpenMessage();
      }
      PushDelta(outputIndex, Answer, text);
      content := content + text;
    }

    /** Opens the reasoning item; a client only accepts it as the first item. */
    method OpenReasoning()
      requires Logged() && !reasoningOpen
      modifies this`sent, this`views, this`view, this`reasoningOpen
      ensures old(sent) <= sent
      ensures Logged() && reasoningOpen && view.content == old(view).content && view.reasoning == old(view).reasoning && view.calls == old(view).calls
      ensures old(view).items == Live([], Nothing) && outputIndex == 0 ==> view.items == Live([], Streaming(Thinking, []))
      ensures old(view).items.Broken? ==> view.items.Broken?
      ensures old(view).items.Live? && (old(view).items.done != [] || !old(view).items.current.Nothing?) ==> view.items.Broken?
    {
      PushMark(ItemAdded(outputIndex, Thinking));
      PushMark(PartAdded(outputIndex, Thinking));
      reasoningOpen := true;
    }

    /** A reasoning delta of the responses format. After the message has been opened it breaks the item protocol. */
    method ResponsesReasoning(text: Bytes)
      requires Logged() && ItemsOk() && text != []
      modifies this`reasoning, this`sent, this`views, this`view, this`reasoningOpen, this`reopened
      ensures old(sent) <= sent
      ensures Logged() && ItemsOk() && reasoning == old(reasoning) + text
      ensures reopened == (old(reopened) || old(Answered()))
      ensures view.content == old(view).content && view.reasoning == old(view).reasoning + text && view.calls == old(view).calls
    {
      reopened := reopened || Answered();
      if !reasoningOpen {
        OpenReasoning();
      }
      PushDelta(outputIndex, Thinking, text);
      reasoning := reasoning + text;
    }

    /** A delta of the messages format, in a block of its kind. */
    method AnthropicDelta(kind: Kind, text: Bytes)
      requires Logged() && BlocksOk() && !kind.ToolUse?
      modifies this`sent, this`views, this`view, this`blockIndex, this`activeKind
      ensures old(sent) <= sent
      ensures Logged() && BlocksOk() && activeKind == Some(kind)
      ensures view.content == old(view).content + (if kind.Answer? then text else [])
      ensures view.reasoning == old(view).reasoning + (if kind.Thinking? then text else []) && view.calls == old(view).calls
    {
      hide Watched, ItemStep, CallStep;
      if activeKind != Some(kind) {
        PushMark(BlockStop(blockIndex));
        blockIndex := blockIndex + 1;
        activeKind := Some(kind);
        PushMark(BlockStart(blockIndex, kind));
      }
      Push(BlockDelta(blockIndex, kind, text));
    }

    /** Appends to the content and sends the delta. */
    method AddContent(text: Bytes)
      requires Emitting() && text != []
      modifies this`content, this`sent, this`views, this`view, this`blockIndex, this`activeKind, this`reasoningOpen, this`msgOpen, this`outputIndex
      ensures old(sent) <= sent
      ensures Emitting() && !reasoningOpen && content == old(content) + text
    {
      match cfg.format
      case OpenAiChat =>
        Push(ContentDelta(text));
        content := content + text;
      case Anthropic =>
        AnthropicDelta(Answer, text);
        content := content + text;
      case Responses =>
        ResponsesContent(text);
    }

    /** A reasoning delta of the messages format. */
    method MessagesReasoning(text: Bytes)
      requires Logged() && BlocksOk() && KindOk() && text != []
      modifies this`reasoning, this`sent, this`views, this`view, this`blockIndex, this`activeKind
      ensures old(sent) <= sent
      ensures Logged() && BlocksOk() && KindOk() && reasoning == old(reasoning) + text
      ensures view.content == old(view).content && view.reasoning == old(view).reasoning + text && view.calls == old(view).calls
    {
      hide Logged;
      AnthropicDelta(Thinking, text);
      reasoning := reasoning + text;
    }

    /** A reasoning delta of the chat format. */
    method ChatReasoning(text: Bytes)
      requires Logged() && TextsOk()
      modifies this`reasoning, this`sent, this`views, this`view
      ensures old(sent) <= sent
      ensures Logged() && TextsOk() && reasoning == old(reasoning) + text && view.calls == old(view).calls
    {
      hide Watched, ItemStep, BlockStep, CallStep;
      Push(ReasoningDelta(text));
      reasoning := reasoning + text;
    }

    /** Appends to the reasoning and sends the delta. */
    method AddReasoning(text: Bytes)
      requires Emitting() && text != []
      modifies this`reasoning, this`sent, this`views, this`view, this`blockIndex, this`activeKind, this`reasoningOpen, this`reopened
      ensures old(sent) <= sent
      ensures Emitting() && reasoning == old(reasoning) + text
      ensures reopened == (old(reopened) || old(Answered()))
    {
      hide Logged, CutOk, KindOk, BlockStep, ItemStep;
      if cfg.format.Responses? {
        ResponsesReasoning(text);
        return;
      }
      reopened := reopened || Answered();
      if cfg.format.OpenAiChat? {
        ChatReasoning(text);
      } else {
        MessagesReasoning(text);
      }
    }

    // ── The window ──

    /** Gives out untagged text in the current mode. */
    method AddPart(text: Bytes)
      requires Emitting() && !mode.TOOL_BUFFER?
      modifies this`reasoning, this`content, this`sent, this`views, this`view, this`blockIndex, this`activeKind,
               this`reasoningOpen, this`msgOpen, this`outputIndex, this`reopened
      ensures old(sent) <= sent
      ensures Emitting()
      ensures var p := Part(mode.REASONING?, old(Answered()), text);
              && reasoning == old(reasoning) + p.reasoning && content == old(content) + p.content
              && Answered() == (old(Answered()) || p.content != []) && reopened == (old(reopened) || p.reopened)
    {
      if text == [] { return; }
      if mode.REASONING? {
        AddReasoning(text);
      } else {
        AddContent(text);
      }
    }

    /** Gives out the first `cut` bytes of the window, skips `skip` more and goes on in mode `next`. */
    method Advance(cut: nat, skip: nat, next: Mode)
      requires Emitting() && !mode.TOOL_BUFFER? && cut + skip <= |window|
      modifies this`reasoning, this`content, this`sent, this`views, this`view, this`blockIndex, this`activeKind,
               this`reasoningOpen, this`msgOpen, this`outputIndex, this`reopened, this`window, this`mode
      ensures old(sent) <= sent
      ensures Emitting() && Now() == Give(old(Now()), cut, skip, next)
    {
      hide Emitting, Answered, Part, Give;
      ghost var t := Now();
      AddPart(window[..cut]);
      window, mode := window[cut + skip..], next;
      GiveIs(t, cut, skip, Now());
    }

    ghost predicate TextOk()
      reads this`mode, this`checked, this`content, this`outputIndex, this`window, this`reasoning, this`reopened, this`raw, this`stopHit, this`cut
      reads this`toolBuffer, this`toolFromReasoning, this`toolFallback
    {
      Splitting(cfg, raw, stopHit, Now()) && Stopping(cfg, raw, stopHit, Now()) && CutFits()
    }

    /** In a text without tags, a stop sequence fires in the reasoning or not from the start, and leaves text if it is not at the start. */
    ghost predicate CutFits()
      reads this`raw, this`stopHit, this`cut
    {
      HasStops(cfg) && NoTags(raw) && stopHit ==>
        && cut.Some? && cut.value.thinking == cfg.startedInThinking
        && (cut.value.text != [] <==> FirstStop(cfg.stops, raw) > 0)
        && (cfg.format.Anthropic? && cfg.startedInThinking ==> cut.value.kind == Some(Thinking))
    }

    /** Acts on a tag: gives out the text before it and drops it. */
    method TakeTag(k: nat, tag: Bytes, toReasoning: bool)
      requires Emitting() && TextOk() && !mode.TOOL_BUFFER? && (mode.REASONING? ==> checked) && !stopHit
      requires At(window, tag, k) && (tag == THINK_OPEN || tag == THINK_CLOSE)
      requires NextTag(mode.REASONING?, window) == Found(k, tag, toReasoning)
      modifies this`reasoning, this`content, this`sent, this`views, this`view, this`blockIndex, this`activeKind,
               this`reasoningOpen, this`msgOpen, this`outputIndex, this`reopened, this`window, this`mode
      ensures old(sent) <= sent
      ensures Emitting() && TextOk() && |window| < |old(window)| && !mode.TOOL_BUFFER?
    {
      hide Emitting, Splitting, Stopping;
      GiveTag(cfg, raw, Now(), k, tag, toReasoning);
      Advance(k, |tag|, if toReasoning then REASONING else CONTENT);
    }

    /** No tag found: gives out what exceeds the holdback, cut between characters and before a trailing name. */
    method GiveFrontOut()
      requires cfg.Ok() && Emitting() && TextOk() && !mode.TOOL_BUFFER? && (mode.REASONING? ==> checked) && !stopHit
      requires NextTag(mode.REASONING?, window).NoTag? && (cfg.HasTools() ==> NoCallSeen(cfg, Now()))
      modifies this`reasoning, this`content, this`sent, this`views, this`view, this`blockIndex, this`activeKind,
               this`reasoningOpen, this`msgOpen, this`outputIndex, this`reopened, this`window, this`mode
      ensures old(sent) <= sent
      ensures Emitting() && TextOk() && mode == old(mode) && Settled(cfg, raw, stopHit, Now())
    {
      var cut := SafeCut();
      if cut > 0 {
        GiveUpTo(cut);
      } else {
        NothingGiven(cfg, raw, Now());
      }
    }

    method GiveUpTo(cut: nat)
      requires Emitting() && TextOk() && !mode.TOOL_BUFFER? && (mode.REASONING? ==> checked) && !stopHit
      requires cut + cfg.Holdback() <= |window| && (cfg.CutsClose() ==> |window| <= cut + cfg.Holdback() + 3 + cfg.NameHeld())
      requires NextTag(mode.REASONING?, window).NoTag? && (cfg.HasTools() ==> NoCallSeen(cfg, Now()))
      modifies this`reasoning, this`content, this`sent, this`views, this`view, this`blockIndex, this`activeKind,
               this`reasoningOpen, this`msgOpen, this`outputIndex, this`reopened, this`window, this`mode
      ensures old(sent) <= sent
      ensures Emitting() && TextOk() && mode == old(mode) && Settled(cfg, raw, stopHit, Now())
    {
      hide Emitting, Splitting, Stopping, Settled;
      GiveFront(cfg, raw, Now(), cut);
      Advance(cut, 0, mode);
    }

    method SafeCut() returns (cut: nat)
      requires cfg.Ok()
      ensures cut == 0 || cut + cfg.Holdback() <= |window|
      ensures cfg.CutsClose() ==> |window| <= cut + cfg.Holdback() + 3 + cfg.NameHeld()
    {
      if |window| <= cfg.Holdback() { return 0; }
      cut := cfg.safeLen(window, |window| - cfg.Holdback());
      if cut > 0 && cfg.HasTools() && mode.CONTENT? {
        cut := HoldName(cut);
      }
    }

    /** From `pos` on everything is kept for the tool parser. */
    method EnterToolBuffer(pos: nat, fromReasoning: bool, fallback: bool)
      requires cfg.HasTools() && Emitting() && TextOk() && pos < |window| && !mode.TOOL_BUFFER? && !stopHit
      requires fromReasoning == mode.REASONING? && (mode.REASONING? ==> checked)
      requires if fallback then pos == 0 && BareObject(window) && All(content, Blank) && !fromReasoning else cfg.findTool(window) == pos
      requires NextTag(mode.REASONING?, window).Found? ==> pos <= NextTag(mode.REASONING?, window).pos
      modifies this`reasoning, this`content, this`sent, this`views, this`view, this`blockIndex, this`activeKind, this`reasoningOpen,
               this`msgOpen, this`outputIndex, this`reopened, this`window, this`mode, this`toolBuffer, this`toolFromReasoning, this`toolFallback
      ensures old(sent) <= sent
      ensures Emitting() && TextOk() && mode.TOOL_BUFFER? && window == []
      ensures Now() == Enter(old(Now()), pos, fallback).WithAnswered(Answered())
    {
      hide Emitting, Splitting, Stopping, CutFits, NextTag, BareObject, All, Answered, Kept;
      ghost var t := Now();
      EnterBuffer(cfg, raw, t, pos, fallback);
      KeepFrom(pos, fromReasoning, fallback);
      EnterIs(t, pos, fallback, Give(t, pos, |t.window| - pos, TOOL_BUFFER), Now());
      BufferText(cfg, raw, t, pos, fallback, Answered());
    }

    /** The text before `pos` goes out, the reasoning item is closed, and the rest is kept. */
    method KeepFrom(pos: nat, fromReasoning: bool, fallback: bool)
      requires Emitting() && pos <= |window| && !mode.TOOL_BUFFER? && fromReasoning == mode.REASONING?
      modifies this`reasoning, this`content, this`sent, this`views, this`view, this`blockIndex, this`activeKind, this`reasoningOpen,
               this`msgOpen, this`outputIndex, this`reopened, this`window, this`mode, this`toolBuffer, this`toolFromReasoning, this`toolFallback
      ensures old(sent) <= sent
      ensures Emitting() && mode.TOOL_BUFFER? && window == []
      ensures toolBuffer == old(window)[pos..] && toolFromReasoning == fromReasoning && toolFallback == fallback
      ensures var g := Give(old(Now()), pos, |old(window)| - pos, TOOL_BUFFER);
              reasoning == g.reasoning && content == g.content && reopened == g.reopened
    {
      hide Emitting, Answered, Part;
      var rest := window[pos..];
      Advance(pos, |window| - pos, TOOL_BUFFER);
      if fromReasoning {
        CloseReasoningItem();
      }
      toolBuffer, toolFromReasoning, toolFallback := rest, fromReasoning, fallback;
    }

    /** Strips a leading `<think>` once there is enough text to tell. */
    method StripStep() returns (wait: bool)
      requires TextOk() && mode.REASONING? && !stopHit
      modifies this`window, this`checked
      ensures TextOk() && |window| <= |old(window)|
      ensures if wait then Settled(cfg, raw, stopHit, Now()) else checked
    {
      hide Splitting, Stopping, CutFits, Settled, Answered;
      if checked { return false; }
      var ws := Spaces(window);
      if ws + |THINK_OPEN| > |window| {
        Waits(cfg, raw, Now());
        return true;
      }
      StripOpening(cfg, raw, Now());
      if At(window, THINK_OPEN, ws) {
        window := window[ws + |THINK_OPEN|..];
      }
      checked := true;
      wait := false;
    }

    /** Processes the window while reasoning; `again` asks for another round. */
    method ReasoningStep() returns (again: bool)
      requires cfg.Ok() && Emitting() && TextOk() && mode.REASONING? && !stopHit
      modifies this`reasoning, this`content, this`sent, this`views, this`view, this`blockIndex, this`activeKind, this`reasoningOpen,
               this`msgOpen, this`outputIndex, this`reopened, this`window, this`mode, this`toolBuffer, this`toolFromReasoning, this`toolFallback, this`checked
      ensures old(sent) <= sent
      ensures Emitting() && TextOk()
      ensures if again then mode.TOOL_BUFFER? || |window| < |old(window)| else Settled(cfg, raw, stopHit, Now())
    {
      hide Emitting, Splitting, Stopping, CutFits, Settled, NextTag, At, Answered, TextOk, Find;
      var wait := StripStep();
      if wait { return false; }
      FindsNextTag(true, window);
      var idx := Find(window, THINK_CLOSE, 0);
      var toolIdx := if cfg.HasTools() then cfg.findTool(window) else -1;
      if idx >= 0 && (toolIdx < 0 || idx < toolIdx) {
        TakeTag(idx, THINK_CLOSE, false);
        again := true;
      } else if toolIdx >= 0 {
        EnterToolBuffer(toolIdx, true, false);
        again := true;
      } else {
        GiveFrontOut();
        again := false;
      }
    }

    /** Where to cut so that a trailing identifier, which may be a tool name, stays in the window. */
    method HoldName(cut: nat) returns (k: nat)
      requires cut <= |window|
      ensures k <= cut
      ensures k < cut ==> cut - k < 64 && (forall i :: k <= i < cut ==> IdentByte(window[i])) && (k > 0 ==> !IdentByte(window[k - 1]))
    {
      var hold: nat := cut;
      while hold > 0 && cut - hold < 64 && IdentByte(window[hold - 1])
        invariant hold <= cut && cut - hold <= 64
        invariant forall i :: hold <= i < cut ==> IdentByte(window[i])
      {
        hold := hold - 1;
      }
      k := if cut - hold < 64 then hold else cut;
    }

    /** Processes the window while answering. */
    method ContentStep() returns (again: bool)
      requires cfg.Ok() && Emitting() && TextOk() && mode.CONTENT? && !stopHit
      modifies this`reasoning, this`content, this`sent, this`views, this`view, this`blockIndex, this`activeKind, this`reasoningOpen,
               this`msgOpen, this`outputIndex, this`reopened, this`window, this`mode, this`toolBuffer, this`toolFromReasoning, this`toolFallback
      ensures old(sent) <= sent
      ensures Emitting() && TextOk()
      ensures if again then mode.TOOL_BUFFER? || |window| < |old(window)| else Settled(cfg, raw, stopHit, Now())
    {
      hide Emitting, Splitting, Stopping, CutFits, Settled, NextTag, At, TrimLeft, Answered, TextOk, Find;
      FindsNextTag(false, window);
      var o, c := Find(window, THINK_OPEN, 0), Find(window, THINK_CLOSE, 0);
      var toolIdx := if cfg.HasTools() then cfg.findTool(window) else -1;
      again := true;
      if toolIdx >= 0 && (o < 0 || toolIdx < o) && (c < 0 || toolIdx < c) {
        EnterToolBuffer(toolIdx, false, false);
      } else if o >= 0 && (c < 0 || o < c) {
        TakeTag(o, THINK_OPEN, true);
      } else if c >= 0 {
        TakeTag(c, THINK_CLOSE, false);
      } else if cfg.HasTools() && All(content, Blank) && BareObject(window) {
        EnterToolBuffer(0, false, true);
      } else {
        GiveFrontOut();
        again := false;
      }
    }

    /** While a call is read the window is kept. */
    method BufferMore()
      requires TextOk() && mode.TOOL_BUFFER? && !stopHit
      modifies this`window, this`toolBuffer
      ensures TextOk() && Settled(cfg, raw, stopHit, Now())
    {
      hide Kept, CutFits, Answered;
      KeepWindow(cfg, raw, Now());
      toolBuffer, window := toolBuffer + window, [];
    }

    /** One round of the state machine. */
    method DrainStep() returns (again: bool)
      requires cfg.Ok() && Emitting() && TextOk() && !stopHit
      modifies this`reasoning, this`content, this`sent, this`views, this`view, this`blockIndex, this`activeKind, this`reasoningOpen, this`msgOpen,
               this`outputIndex, this`reopened, this`window, this`mode, this`toolBuffer, this`toolFromReasoning, this`toolFallback, this`checked
      ensures old(sent) <= sent
      ensures Emitting() && TextOk()
      ensures if again then !old(mode).TOOL_BUFFER? && (mode.TOOL_BUFFER? || |window| < |old(window)|) else Settled(cfg, raw, stopHit, Now())
    {
      hide Emitting, TextOk, Settled, cfg.Ok, Answered;
      match mode
      case TOOL_BUFFER =>
        BufferMore();
        again := false;
      case REASONING =>
        again := ReasoningStep();
      case CONTENT =>
        again := ContentStep();
    }

    /** The state machine loop: processes the window until nothing more can be decided. */
    method Drain()
      requires cfg.Ok() && Emitting() && TextOk() && !stopHit
      modifies this`reasoning, this`content, this`sent, this`views, this`view, this`blockIndex, this`activeKind, this`reasoningOpen, this`msgOpen,
               this`outputIndex, this`reopened, this`window, this`mode, this`toolBuffer, this`toolFromReasoning, this`toolFallback, this`checked
      ensures old(sent) <= sent
      ensures Emitting() && TextOk() && Settled(cfg, raw, stopHit, Now())
    {
      hide Emitting, TextOk, Settled, cfg.Ok, Answered;
      var again := true;
      while again
        invariant old(sent) <= sent
        invariant Emitting() && TextOk() && (!again ==> Settled(cfg, raw, stopHit, Now()))
        decreases again, !mode.TOOL_BUFFER?, |window|
      {
        again := DrainStep();
      }
    }

    // ── Pieces ──

    ghost predicate Decoding()
      reads this`raw, this`utf8Tail, this`received
    {
      Decoded(received, raw, utf8Tail)
    }

    /** All of the bytes but those held give the text. */
    ghost predicate DecodedAs(joined: Bytes, text: Bytes, tail: Bytes) {
      exists whole :: joined == whole + tail && text == cfg.sanitize(whole)
    }

    /** Joins a piece with the held bytes and takes off what is not yet a whole character. */
    method Decode(piece: Bytes) returns (text: Bytes)
      requires cfg.Ok() && Decoding()
      modifies this`utf8Tail, this`received
      ensures received == old(received) + piece && Decoded(received, raw + text, utf8Tail)
      ensures DecodedAs(old(utf8Tail) + piece, text, utf8Tail)
    {
      var whole;
      whole, utf8Tail := TakeNext(utf8Tail, piece, raw, received);
      text := cfg.sanitize(whole);
      received := received + piece;
    }

    /** Reasoning recorded when a stop sequence fires: it goes into the open block, or without an event. */
    method RecordReasoning(text: Bytes)
      requires Steady() && stopHit && text != [] && cut == Some(CutAt(true, text, activeKind)) && !mixed && !lost
      modifies this`reasoning, this`sent, this`views, this`view, this`mixed, this`lost
      ensures old(sent) <= sent
      ensures Emitting() && reasoning == old(reasoning) + text
    {
      hide Logged, ItemStep;
      match cfg.format
      case OpenAiChat =>
        ChatReasoning(text);
      case Anthropic =>
        ThinkingHere(text);
      case Responses =>
        reasoning := reasoning + text;
        lost := true;
    }

    /** A thinking delta in whatever block is open. */
    method ThinkingHere(text: Bytes)
      requires Logged() && TextsOk() && BlocksOk() && KindOk() && text != [] && !mixed
      modifies this`reasoning, this`sent, this`views, this`view, this`mixed
      ensures old(sent) <= sent
      ensures Logged() && TextsOk() && BlocksOk() && KindOk()
      ensures reasoning == old(reasoning) + text && mixed == (activeKind != Some(Thinking)) && view.calls == old(view).calls
    {
      hide Watched, ItemStep, CallStep;
      mixed := activeKind != Some(Thinking);
      Push(BlockDelta(blockIndex, Thinking, text));
      reasoning := reasoning + text;
    }

    /** A stop sequence was found at `best`: what precedes it goes out, the rest is dropped. */
    method StopHere(best: nat)
      requires Emitting() && !mode.TOOL_BUFFER? && best <= |window| && !stopHit
      modifies this`reasoning, this`content, this`sent, this`views, this`view, this`blockIndex, this`activeKind, this`reasoningOpen,
               this`msgOpen, this`outputIndex, this`window, this`stopHit, this`mixed, this`lost, this`cut
      ensures old(sent) <= sent
      ensures Emitting() && stopHit && Now() == Cut(old(Now()), best)
      ensures cut == Some(CutAt(mode.REASONING?, old(window)[..best], old(activeKind)))
    {
      hide Emitting, Answered, Cut;
      ghost var t := Now();
      ShowCut(window[..best]);
      window := [];
      CutIs(t, best, Now());
    }

    lemma NothingCut()
      requires Emitting() && !stopHit
      ensures Steady() && !mixed && !lost
    {
    }

    /** What a stop sequence leaves of the window. */
    method ShowCut(pre: Bytes)
      requires Emitting() && !mode.TOOL_BUFFER? && !stopHit
      modifies this`reasoning, this`content, this`sent, this`views, this`view, this`blockIndex, this`activeKind, this`reasoningOpen,
               this`msgOpen, this`outputIndex, this`stopHit, this`mixed, this`lost, this`cut
      ensures old(sent) <= sent
      ensures Emitting() && stopHit && cut == Some(CutAt(mode.REASONING?, pre, old(activeKind)))
      ensures reasoning == old(reasoning) + (if mode.REASONING? then pre else [])
      ensures content == old(content) + (if mode.REASONING? then [] else pre)
      ensures Answered() == (old(Answered()) || (!mode.REASONING? && pre != []))
    {
      hide Steady;
      NothingCut();
      stopHit, cut := true, Some(CutAt(mode.REASONING?, pre, activeKind));
      if pre != [] {
        if mode.REASONING? {
          RecordReasoning(pre);
        } else {
          AddContent(pre);
        }
      }
    }

    /** Between calls. */
    ghost predicate Running()
      reads this
    {
      && cfg.Ok() && Emitting() && TextOk() && Settled(cfg, raw, stopHit, Now()) && Decoding() && toolCalls == []
      && (stopHit ==> cfg.stops != [] && cut.value.thinking == mode.REASONING? && window == [])
    }

    method EmitStart()
      requires NotStarted()
      modifies this`sent, this`views, this`view, this`msgOpen
      ensures old(sent) <= sent
      ensures Running() && received == [] && !stopHit && (cfg.format.OpenAiChat? ==> sent == [RoleDelta])
    {
      hide Emitting, Splitting, Stopping, Settled, Decoded;
      StartText(cfg);
      assert Now() == Start(cfg);
      Announce();
    }

    /** Takes in one piece of generated text; ignored once a stop sequence has fired. */
    method EmitToken(piece: Bytes) returns (ghost text: Bytes)
      requires Running()
      modifies this`reasoning, this`content, this`sent, this`views, this`view, this`blockIndex, this`activeKind, this`reasoningOpen, this`msgOpen,
               this`outputIndex, this`reopened, this`window, this`mode, this`toolBuffer, this`toolFromReasoning, this`toolFallback, this`checked,
               this`stopHit, this`mixed, this`lost, this`cut, this`raw, this`utf8Tail, this`received
      ensures old(sent) <= sent
      ensures Running() && received == old(received) + (if old(stopHit) then [] else piece)
      ensures old(stopHit) ==> stopHit && cut == old(cut) && raw == old(raw)
      ensures !old(stopHit) ==> DecodedAs(old(utf8Tail) + piece, text, utf8Tail)
      ensures !old(stopHit) ==> raw == old(raw) + text && (stopHit <==> Completes(old(mode), old(window), text))
      ensures !old(stopHit) && stopHit ==> !old(mode).TOOL_BUFFER? && cut == Some(CutWhen(old(mode), old(window), text, old(activeKind)))
    {
      hide Emitting, Splitting, Stopping, Settled, Decoded, cfg.Ok, Answered, Completes, CutWhen, CutFits, DecodedAs;
      text := [];
      if stopHit { return; }
      var decoded := Decode(piece);
      TakeText(decoded);
      text := decoded;
    }

    /** A stop sequence is found in the window with the new text. */
    predicate Completes(m: Mode, w: Bytes, text: Bytes) {
      cfg.stops != [] && !m.TOOL_BUFFER? && FirstStop(cfg.stops, w + text) >= 0
    }

    /** What is cut there. */
    function CutWhen(m: Mode, w: Bytes, text: Bytes, kind: Option<Kind>): CutAt
      requires Completes(m, w, text)
    {
      CutAt(m.REASONING?, (w + text)[..FirstStop(cfg.stops, w + text)], kind)
    }

    method TakeText(text: Bytes)
      requires cfg.Ok() && Emitting() && TextOk() && !stopHit
      modifies this`reasoning, this`content, this`sent, this`views, this`view, this`blockIndex, this`activeKind, this`reasoningOpen, this`msgOpen,
               this`outputIndex, this`reopened, this`window, this`mode, this`toolBuffer, this`toolFromReasoning, this`toolFallback, this`checked,
               this`stopHit, this`mixed, this`lost, this`cut, this`raw
      ensures old(sent) <= sent
      ensures Emitting() && TextOk() && Settled(cfg, raw, stopHit, Now()) && raw == old(raw) + text
      ensures stopHit ==> cfg.stops != [] && cut.value.thinking == mode.REASONING? && window == []
      ensures stopHit <==> Completes(old(mode), old(window), text)
      ensures stopHit ==> !old(mode).TOOL_BUFFER? && cut == Some(CutWhen(old(mode), old(window), text, old(activeKind)))
    {
      hide Emitting, Splitting, Stopping, Settled, Find, FirstStop, cfg.Ok, Answered, NoTags;
      ghost var was, t := raw, Now();
      raw, window := raw + text, window + text;
      if cfg.stops != [] && !mode.TOOL_BUFFER? && FirstStop(cfg.stops, window) >= 0 {
        StopText(was, t, text);
      } else {
        NoStops(window);
        MoreText(cfg, was, t, text);
        Drain();
      }
    }

    method StopText(ghost was: Bytes, ghost t: Flow, text: Bytes)
      requires Emitting() && !mode.TOOL_BUFFER? && !stopHit && cfg.stops != [] && FirstStop(cfg.stops, window) >= 0
      requires Splitting(cfg, was, false, t) && Stopping(cfg, was, false, t) && raw == was + text && Now() == t.WithWindow(t.window + text)
      modifies this`reasoning, this`content, this`sent, this`views, this`view, this`blockIndex, this`activeKind, this`reasoningOpen,
               this`msgOpen, this`outputIndex, this`window, this`stopHit, this`mixed, this`lost, this`cut
      ensures old(sent) <= sent
      ensures Emitting() && TextOk() && Settled(cfg, raw, stopHit, Now()) && stopHit && window == []
      ensures cut == Some(CutAt(mode.REASONING?, old(window)[..FirstStop(cfg.stops, old(window))], old(activeKind)))
    {
      hide FirstStop, NoTags;
      StopFires(cfg, was, t, text);
      if HasStops(cfg) && NoTags(raw) {
        TagsStay(was, text);
      }
      StopHere(FirstStop(cfg.stops, window));
    }

    /** The emitter as it is, before a piece whose text is not known yet. */
    ghost function Here(): Before
      reads this`raw, this`utf8Tail, this`mode, this`window, this`activeKind, this`sent
    {
      Before(raw, utf8Tail, mode, window, activeKind, sent, [])
    }

    /** The stop sequence was completed from `b` on; what was cut follows from there, and the open block is the one a client saw then. */
    ghost predicate FiredAt(b: Before)
      reads this`cut, this`sent
    {
      && Completes(b.mode, b.window, b.text) && cut == Some(CutWhen(b.mode, b.window, b.text, b.kind)) && b.sent <= sent
      && (cfg.format.Anthropic? ==> b.kind.Some? && Observe(b.sent).blocks.phase == Open(b.kind.value))
    }

    lemma OpenIsSeen()
      requires Emitting()
      ensures cfg.format.Anthropic? ==> activeKind.Some? && Observe(sent).blocks.phase == Open(activeKind.value)
    {
      WatchedIsObserved(sent, views);
    }

    /**
     The pieces one after another; `k` of them are taken in, all unless a stop sequence fires, and
     then `b` is how the emitter was before the piece that completed it.
     */
    method EmitTokens(pieces: seq<Bytes>) returns (ghost k: nat, ghost b: Before)
      requires Running() && received == [] && !stopHit
      modifies this`reasoning, this`content, this`sent, this`views, this`view, this`blockIndex, this`activeKind, this`reasoningOpen, this`msgOpen,
               this`outputIndex, this`reopened, this`window, this`mode, this`toolBuffer, this`toolFromReasoning, this`toolFallback, this`checked,
               this`stopHit, this`mixed, this`lost, this`cut, this`raw, this`utf8Tail, this`received
      ensures old(sent) <= sent
      ensures Running() && k <= |pieces| && received == Flatten(pieces[..k]) && (!stopHit ==> k == |pieces|)
      ensures stopHit ==> k > 0 && Decoded(Flatten(pieces[..k - 1]), b.raw, b.tail) && Unended(cfg, b.raw)
      ensures stopHit ==> FiredAt(b) && raw == b.raw + b.text
    {
      hide Emitting, Splitting, Stopping, Settled, Decoded, CutFits, Unended, Completes, CutWhen, Observe, cfg.Ok, Answered;
      k, b := 0, Here();
      for j := 0 to |pieces|
        invariant old(sent) <= sent
        invariant Running() && k <= j && received == Flatten(pieces[..k]) && (!stopHit ==> k == j)
        invariant stopHit ==> k > 0 && Decoded(Flatten(pieces[..k - 1]), b.raw, b.tail) && Unended(cfg, b.raw)
        invariant stopHit ==> FiredAt(b) && raw == b.raw + b.text
      {
        assert pieces[..j + 1][..j] == pieces[..j];
        ghost var before, text := stopHit, [];
        if !stopHit {
          k, b := j + 1, Here();
          if !mode.TOOL_BUFFER? {
            RunsUnended(cfg, raw, Now());
          }
          OpenIsSeen();
        }
        text := EmitToken(pieces[j]);
        if !before {
          b := b.(text := text);
        }
      }
    }

    lemma ViewIsObserved()
      requires Logged()
      ensures Observe(sent) == view
    {
      WatchedIsObserved(sent, views);
    }

    // ── The end of the stream ──

    ghost function Parts(): Split
      reads this`reasoning, this`content, this`reopened
    {
      Split(reasoning, content, reopened)
    }

    /** What is still held back of a character goes into the text, and all of the window goes out or to the tool parser. */
    method Flush() returns (held: Bytes)
      requires Running()
      modifies this`reasoning, this`content, this`sent, this`views, this`view, this`blockIndex, this`activeKind, this`reasoningOpen, this`msgOpen,
               this`outputIndex, this`reopened, this`window, this`mode, this`toolBuffer, this`raw, this`utf8Tail
      ensures old(sent) <= sent
      ensures Emitting() && FlushedText(old(raw), old(utf8Tail), held) && raw == old(raw) + held && mode.REASONING? == old(mode).REASONING?
      ensures mode.TOOL_BUFFER? <==> old(mode).TOOL_BUFFER? || (old(mode).CONTENT? && NameAlone(cfg, old(content), old(window) + held))
      ensures if mode.TOOL_BUFFER? then reasoning == old(reasoning) && content == old(content) else Parts() == End(Flushed(old(Now()), held))
    {
      hide Emitting, Settled, Splitting, Stopping, CutFits, SplitDone, StopDone, Give, Decoding, Answered, cfg.Ok, BufferDone, NameAlone;
      ghost var t, was, tail := Now(), raw, utf8Tail;
      held := JoinHeld();
      FlushWindow();
      Flushes(t, was, tail, held);
    }

    method JoinHeld() returns (held: Bytes)
      modifies this`window, this`raw, this`utf8Tail
      ensures held == (if old(utf8Tail) == [] then [] else cfg.sanitize(old(utf8Tail)))
      ensures raw == old(raw) + held && window == old(window) + held
    {
      held := if utf8Tail == [] then [] else cfg.sanitize(utf8Tail);
      utf8Tail, raw, window := [], raw + held, window + held;
    }

    lemma Flushes(t: Flow, was: Bytes, tail: Bytes, held: Bytes)
      requires held == (if tail == [] then [] else cfg.sanitize(tail)) && (stopHit ==> t.window == [])
      requires Splitting(cfg, was, stopHit, t) && Stopping(cfg, was, stopHit, t) && Settled(cfg, was, stopHit, t)
      requires mode.TOOL_BUFFER? <==> t.Buffering() || (t.mode.CONTENT? && NameAlone(cfg, t.content, t.window + held))
      requires if t.Buffering() then Now() == t.Keeping(t.buffer.text + (t.window + held))
               else if mode.TOOL_BUFFER? then
                 Now() == t.Keeping(TOOL_CALL_OPEN + Trim(t.window + held, Blank) + TOOL_CALL_CLOSE)
               else Now() == Flushed(t, held)
      ensures FlushedText(was, tail, held)
    {
      hide Settled, Splitting, Stopping, SplitDone, StopDone, Flushed, Answered, BufferDone, NameAlone, Trim;
      if !mode.TOOL_BUFFER? {
        FlushStops(cfg, was, stopHit, t, held);
        if tail == [] {
          FlushSplits(cfg, was, stopHit, t);
        }
      } else {
        BufferedAtEnd(cfg, was, stopHit, held, Parts());
        if t.Buffering() {
          FlushKept(cfg, was, t, held, stopHit);
        } else {
          FlushNamed(cfg, was, t, held, stopHit);
        }
      }
    }

    /** What the end makes of the text `was`, after which `tail` was held: all of it went out, or the rest is kept for the tool parser. */
    ghost predicate FlushedText(was: Bytes, tail: Bytes, held: Bytes)
      reads this`mode, this`checked, this`content, this`outputIndex, this`window, this`reasoning, this`reopened
      reads this`toolBuffer, this`toolFromReasoning, this`toolFallback, this`stopHit
    {
      && held == (if tail == [] then [] else cfg.sanitize(tail))
      && (mode.TOOL_BUFFER? ==> BufferDone(cfg, was, held, stopHit, Now()))
      && (tail == [] ==> SplitDone(cfg, was, stopHit, mode.TOOL_BUFFER?, Parts()))
      && StopDone(cfg, was, stopHit, held, mode.TOOL_BUFFER?, Parts())
    }

    /** The window goes out in the current mode. A window that is just a tool's name is a call without arguments. */
    method FlushWindow()
      requires Emitting()
      modifies this`reasoning, this`content, this`sent, this`views, this`view, this`blockIndex, this`activeKind, this`reasoningOpen, this`msgOpen,
               this`outputIndex, this`reopened, this`window, this`mode, this`toolBuffer
      ensures old(sent) <= sent
      ensures Emitting()
      ensures mode.TOOL_BUFFER? <==> old(mode).TOOL_BUFFER? || (old(mode).CONTENT? && NameAlone(cfg, old(content), old(window)))
      ensures old(mode).TOOL_BUFFER? ==> Now() == old(Now()).Keeping(old(toolBuffer + window))
      ensures !old(mode).TOOL_BUFFER? && mode.TOOL_BUFFER? ==>
                Now() == old(Now()).Keeping(TOOL_CALL_OPEN + Trim(old(window), Blank) + TOOL_CALL_CLOSE)
      ensures !mode.TOOL_BUFFER? ==> Now() == Give(old(Now()), |old(window)|, 0, old(mode)) && mode == old(mode)
    {
      hide Emitting;
      var name := Trim(window, Blank);
      if mode.TOOL_BUFFER? {
        toolBuffer, window := toolBuffer + window, [];
      } else if mode.CONTENT? && All(content, Blank) && name != [] && name in cfg.toolNames {
        toolBuffer, mode, window := TOOL_CALL_OPEN + name + TOOL_CALL_CLOSE, TOOL_BUFFER, [];
      } else {
        Advance(|window|, 0, mode);
      }
    }

    /** How the text left over by the tool parser splits. */
    ghost function LeftOver(cleaned: Bytes): Split
      reads this`toolFromReasoning
    {
      var k := Find(cleaned, THINK_CLOSE, 0);
      if k >= 0 then Split(cleaned[..k], cleaned[k + |THINK_CLOSE|..], false)
      else if toolFromReasoning then Split(cleaned, [], false) else Split([], cleaned, false)
    }

    /** What a tool buffer without a call adds to the answer. */
    ghost function Unparsed(): Bytes
      requires cfg.Ok()
      reads this`toolBuffer, this`toolFallback, this`toolFromReasoning
    {
      var k := cfg.topLevelClose(toolBuffer);
      if toolFallback then toolBuffer else if toolFromReasoning && k >= 0 then toolBuffer[k + |THINK_CLOSE|..] else []
    }

    /** What the tool parser makes of what was kept: the text it left over, or text taken for a call by mistake. */
    ghost function Added(): Split
      requires cfg.Ok()
      reads this`mode, this`toolBuffer, this`toolFallback, this`toolFromReasoning
    {
      if !mode.TOOL_BUFFER? then Split([], [], false)
      else if cfg.parseTools(toolBuffer).calls != [] then LeftOver(cfg.parseTools(toolBuffer).cleaned)
      else Split([], Unparsed(), false)
    }

    /** The text the tool parser left over, split at a `</think>` if it has one. */
    method AddCleaned(cleaned: Bytes)
      requires Emitting()
      modifies this`reasoning, this`content, this`sent, this`views, this`view, this`blockIndex, this`activeKind, this`reasoningOpen, this`msgOpen,
               this`outputIndex, this`reopened
      ensures old(sent) <= sent
      ensures Emitting()
      ensures reasoning == old(reasoning) + LeftOver(cleaned).reasoning && content == old(content) + LeftOver(cleaned).content
    {
      hide Emitting, Find;
      var k := Find(cleaned, THINK_CLOSE, 0);
      if k >= 0 {
        AddText(cleaned[..k], true);
        AddText(cleaned[k + |THINK_CLOSE|..], false);
      } else {
        AddText(cleaned, toolFromReasoning);
      }
    }

    method AddText(text: Bytes, asReasoning: bool)
      requires Emitting()
      modifies this`reasoning, this`content, this`sent, this`views, this`view, this`blockIndex, this`activeKind, this`reasoningOpen, this`msgOpen,
               this`outputIndex, this`reopened
      ensures old(sent) <= sent
      ensures Emitting()
      ensures reasoning == old(reasoning) + (if asReasoning then text else [])
      ensures content == old(content) + (if asReasoning then [] else text)
    {
      hide Emitting;
      if text == [] { return; }
      if asReasoning {
        AddReasoning(text);
      } else {
        AddContent(text);
      }
    }

    /** What the final events rely on: as between events, but after tool calls no block is open. */
    ghost predicate Closing()
      reads this`sent, this`views, this`view, this`content, this`reasoning, this`lost, this`mixed, this`activeKind, this`blockIndex,
            this`msgOpen, this`reasoningOpen, this`outputIndex, this`reopened, this`toolCalls
    {
      && Logged() && TextsOk() && view.calls == toolCalls
      && (cfg.format.Anthropic? ==>
            view.blocks == (if activeKind.Some? then Blocks(Open(activeKind.value), blockIndex, mixed) else Blocks(Between, blockIndex + 1, mixed)))
      && (cfg.format.Responses? && toolCalls == [] ==> ItemsOk() && !reasoningOpen)
    }

    /** Sends the calls of the messages format, each in a block of its own. */
    method SendBlocks()
      requires Logged() && BlocksOk() && view.calls == []
      modifies this`sent, this`views, this`view, this`blockIndex, this`activeKind
      ensures old(sent) <= sent
      ensures Logged() && activeKind.None? && view.blocks == Blocks(Between, blockIndex + 1, mixed)
      ensures blockIndex == old(blockIndex) + |toolCalls|
      ensures view.content == old(view).content && view.reasoning == old(view).reasoning && view.calls == toolCalls
    {
      hide Logged, ItemStep;
      PushMark(BlockStop(blockIndex));
      activeKind := None;
      for i := 0 to |toolCalls|
        invariant old(sent) <= sent
        invariant Logged() && activeKind.None? && view.blocks == Blocks(Between, blockIndex + 1, mixed)
        invariant blockIndex == old(blockIndex) + i
        invariant view.content == old(view).content && view.reasoning == old(view).reasoning && view.calls == toolCalls[..i]
      {
        SendBlock(toolCalls[i]);
        assert toolCalls[..i + 1] == toolCalls[..i] + [toolCalls[i]];
      }
      assert toolCalls[..|toolCalls|] == toolCalls;
    }

    method SendBlock(call: Call)
      requires Logged() && view.blocks == Blocks(Between, blockIndex + 1, mixed)
      modifies this`sent, this`views, this`view, this`blockIndex
      ensures old(sent) <= sent
      ensures Logged() && blockIndex == old(blockIndex) + 1 && view.blocks == Blocks(Between, blockIndex + 1, mixed)
      ensures view.content == old(view).content && view.reasoning == old(view).reasoning && view.calls == old(view).calls + [call]
    {
      hide Logged, ItemStep, CallStep;
      blockIndex := blockIndex + 1;
      BlockIsCall(view.calls, blockIndex, call);
      PushCall(CallStart(blockIndex, call.id, call.name));
      if call.arguments != [] {
        PushCall(BlockDelta(blockIndex, ToolUse, call.arguments));
      }
      PushMark(BlockStop(blockIndex));
    }

    method SendInputs()
      requires Logged() && view.calls == []
      modifies this`sent, this`views, this`view
      ensures old(sent) <= sent
      ensures Logged() && view.content == old(view).content && view.reasoning == old(view).reasoning && view.calls == toolCalls
    {
      for i := 0 to |toolCalls|
        invariant old(sent) <= sent
        invariant Logged() && view.content == old(view).content && view.reasoning == old(view).reasoning && view.calls == toolCalls[..i]
      {
        Push(ToolInput(outputIndex, toolCalls[i]));
        assert toolCalls[..i + 1] == toolCalls[..i] + [toolCalls[i]];
      }
      assert toolCalls[..|toolCalls|] == toolCalls;
    }

    /** The calls found, in the way of the format; a client reads just these. */
    method SendCalls()
      requires Emitting() && toolCalls != []
      modifies this`sent, this`views, this`view, this`blockIndex, this`activeKind
      ensures old(sent) <= sent
      ensures Closing()
    {
      match cfg.format
      case OpenAiChat =>
        Push(ToolCallsDelta(toolCalls));
      case Anthropic =>
        SendBlocks();
      case Responses =>
        SendInputs();
    }

    /** What was kept for the tool parser: calls, text taken for calls by mistake, or malformed calls, which are not shown. */
    method ParseBuffer() returns (reason: string)
      requires cfg.Ok() && Emitting() && !reasoningOpen && toolCalls == []
      modifies this`reasoning, this`content, this`sent, this`views, this`view, this`blockIndex, this`activeKind, this`reasoningOpen, this`msgOpen,
               this`outputIndex, this`reopened, this`toolCalls
      ensures old(sent) <= sent
      ensures Closing()
      ensures toolCalls == cfg.parseTools(toolBuffer).calls && reason == if toolCalls != [] then "tool_calls" else "stop"
      ensures toolCalls == [] ==> reasoning == old(reasoning) && content == old(content) + Unparsed()
      ensures toolCalls != [] ==>
                var x := LeftOver(cfg.parseTools(toolBuffer).cleaned);
                reasoning == old(reasoning) + x.reasoning && content == old(content) + x.content
    {
      hide Emitting, Closing, Logged, ItemsOk, BlocksOk, TextsOk, LeftOver, Unparsed, cfg.Ok;
      var parsed := cfg.parseTools(toolBuffer);
      if parsed.calls != [] {
        AddCleaned(parsed.cleaned);
        toolCalls := parsed.calls;
        SendCalls();
        return "tool_calls";
      }
      AddUnparsed();
      reason := "stop";
    }

    /** Text that was taken for a call by mistake. */
    method AddUnparsed()
      requires cfg.Ok() && Emitting() && !reasoningOpen && toolCalls == []
      modifies this`content, this`sent, this`views, this`view, this`blockIndex, this`activeKind, this`reasoningOpen, this`msgOpen, this`outputIndex
      ensures old(sent) <= sent
      ensures Closing() && content == old(content) + Unparsed()
    {
      hide Emitting, Closing;
      if toolFallback {
        AddAnswer(toolBuffer);
      } else if toolFromReasoning && cfg.topLevelClose(toolBuffer) >= 0 {
        AddAnswer(toolBuffer[cfg.topLevelClose(toolBuffer) + |THINK_CLOSE|..]);
      } else {
        AddAnswer([]);
      }
    }

    method AddAnswer(text: Bytes)
      requires Emitting() && !reasoningOpen && toolCalls == []
      modifies this`content, this`sent, this`views, this`view, this`blockIndex, this`activeKind, this`reasoningOpen, this`msgOpen, this`outputIndex
      ensures old(sent) <= sent
      ensures Closing() && content == old(content) + text
    {
      if text != [] {
        AddContent(text);
      }
    }

    // ── Final events ──

    /** Stops the block that is open, if one is. */
    method StopLast()
      requires Closing() && cfg.format.Anthropic?
      modifies this`sent, this`views, this`view, this`activeKind
      ensures old(sent) <= sent
      ensures Logged() && TextsOk() && view.blocks == Blocks(Between, blockIndex + 1, mixed) && view.calls == toolCalls
    {
      hide Logged, ItemStep, ItemsOk;
      if activeKind.Some? {
        PushMark(BlockStop(blockIndex));
        activeKind := None;
      }
    }

    method EndMessages()
      requires Closing() && cfg.format.Anthropic?
      modifies this`sent, this`views, this`view, this`activeKind
      ensures old(sent) <= sent
      ensures Logged() && TextsOk() && view.blocks == Blocks(Stopped, blockIndex + 1, mixed) && view.calls == toolCalls
      ensures EndsIn(sent, [MessageDelta(if toolCalls != [] then "tool_use" else if finishReason == "length" then "max_tokens" else "end_turn"), MessageStop])
    {
      hide Logged, ItemStep, ItemsOk, EndsIn;
      StopLast();
      ghost var was := sent;
      var delta := MessageDelta(if toolCalls != [] then "tool_use" else if finishReason == "length" then "max_tokens" else "end_turn");
      PushMark(delta);
      PushMark(MessageStop);
      EndsInTwo(was, delta, MessageStop);
    }

    method EndChat()
      requires Closing() && cfg.format.OpenAiChat?
      modifies this`sent, this`views, this`view
      ensures old(sent) <= sent
      ensures Logged() && TextsOk() && view.calls == toolCalls && sent == old(sent) + [FinishChunk(finishReason), UsageChunk, DoneMarker]
    {
      hide Watched, ItemStep, BlockStep, CallStep;
      Push(FinishChunk(finishReason));
      Push(UsageChunk);
      Push(DoneMarker);
    }

    /** The output list of a response without calls. */
    ghost function Output(): seq<Item>
      reads this`reasoning, this`msgOpen, this`content
    {
      (if reasoning != [] then [ReasoningItem(reasoning)] else []) + (if msgOpen then [MessageItem(content)] else [])
    }

    method FinishMessage()
      requires Logged()
      modifies this`sent, this`views, this`view
      ensures old(sent) <= sent
      ensures Logged() && view.content == old(view).content && view.reasoning == old(view).reasoning && view.calls == old(view).calls
      ensures OpenAt(old(view).items, outputIndex, Answer) && old(view).items.current.text == content ==> view.items == old(view).items
      ensures old(view).items.Broken? ==> view.items.Broken?
    {
      PushMark(TextDone(outputIndex, Answer, content));
      PushMark(PartDone(outputIndex, Answer, content));
    }

    /** The reasoning item, then the calls, or the message if it was opened. */
    ghost function Listed(): seq<Item>
      reads this`reasoning, this`msgOpen, this`content, this`toolCalls
    {
      if toolCalls == [] then Output() else (if reasoning != [] then [ReasoningItem(reasoning)] else []) + CallItems(toolCalls)
    }

    /** The items are closed, except for the reasoning, which was, and then the whole list is sent. */
    static function Listing(output: seq<Item>, base: nat, text: Bytes): seq<Event>
      requires base <= |output|
    {
      ItemsDone(output, base, |output|) + [Completed(output, text)]
    }

    static function ItemsDone(output: seq<Item>, base: nat, n: nat): seq<Event>
      requires base <= n <= |output|
      decreases n
    {
      if base == n then [] else ItemsDone(output, base, n - 1) + [ItemDone(n - 1, output[n - 1])]
    }

    static lemma NoneDone(output: seq<Item>, base: nat, was: seq<Event>)
      requires base <= |output|
      ensures was + ItemsDone(output, base, base) == was
    {
    }

    static lemma MoreDone(output: seq<Item>, base: nat, n: nat, was: seq<Event>)
      requires base <= n < |output|
      ensures was + ItemsDone(output, base, n) + [ItemDone(n, output[n])] == was + ItemsDone(output, base, n + 1)
    {
    }

    static lemma AllDone(output: seq<Item>, base: nat, text: Bytes, was: seq<Event>)
      requires base <= |output|
      ensures was + ItemsDone(output, base, |output|) + [Completed(output, text)] == was + Listing(output, base, text)
    {
    }

    /** The last events sent. */
    ghost predicate Ended()
      reads this`sent, this`finishReason, this`toolCalls, this`reasoning, this`msgOpen, this`content
    {
      match cfg.format
      case OpenAiChat => EndsIn(sent, [FinishChunk(finishReason), UsageChunk, DoneMarker])
      case Anthropic =>
        EndsIn(sent, [MessageDelta(if toolCalls != [] then "tool_use" else if finishReason == "length" then "max_tokens" else "end_turn"), MessageStop])
      case Responses => EndsIn(sent, Listing(Listed(), if reasoning != [] then 1 else 0, content))
    }

    /** All but the last item are done and the last is being streamed. */
    static predicate LastStreams(s: Items, output: seq<Item>)
    {
      output != [] && output[|output| - 1].MessageItem? && s == Live(output[..|output| - 1], Streaming(Answer, output[|output| - 1].text))
    }

    /** A complete list carries all of the reasoning deltas, and so all of the reasoning. */
    lemma LostIsNotComplete()
      requires Logged() && TextsOk() && view.items == Complete(Output())
      ensures !lost
    {
      WatchedIsObserved(sent, views);
      ItemsCarryDeltas(sent);
      FirstReasoning(reasoning, if msgOpen then [MessageItem(content)] else []);
    }

    /** The items not yet closed, and the whole list. */
    method SendOutput(output: seq<Item>, base: nat)
      requires Logged() && base <= |output|
      modifies this`sent, this`views, this`view
      ensures old(sent) <= sent
      ensures Logged() && view.content == old(view).content && view.reasoning == old(view).reasoning && view.calls == old(view).calls
      ensures old(view).items.Broken? ==> view.items.Broken?
      ensures view.items.Complete? ==> view.items.done == output
      ensures old(view).items == Live(output, Nothing) && base == |output| ==> view.items == Complete(output)
      ensures |output| == base + 1 && LastStreams(old(view).items, output) ==> view.items == Complete(output)
      ensures sent == old(sent) + Listing(output, base, content)
    {
      hide ItemsDone, Listing;
      ghost var was := view.items;
      NoneDone(output, base, sent);
      for i := base to |output|
        invariant old(sent) <= sent
        invariant Logged() && view.content == old(view).content && view.reasoning == old(view).reasoning && view.calls == old(view).calls
        invariant sent == old(sent) + ItemsDone(output, base, i)
        invariant was.Broken? ==> view.items.Broken?
        invariant i == base ==> view.items == was
        invariant i == base + 1 && LastStreams(was, output[..i]) ==> view.items == Live(output[..i], Nothing)
      {
        MoreDone(output, base, i, old(sent));
        PushMark(ItemDone(i, output[i]));
        assert output[..i + 1] == output[..i] + [output[i]];
      }
      assert output[..|output|] == output;
      AllDone(output, base, content, old(sent));
      PushMark(Completed(output, content));
    }

    /** The item protocol is complete exactly if no reasoning was reopened or recorded without an event. */
    method EndResponse()
      requires Closing() && cfg.format.Responses?
      modifies this`sent, this`views, this`view
      ensures old(sent) <= sent
      ensures Logged() && TextsOk() && view.calls == toolCalls && EndsIn(sent, Listing(Listed(), if reasoning != [] then 1 else 0, content))
      ensures toolCalls == [] ==> (view.items.Complete? <==> !lost && !reopened)
      ensures toolCalls == [] && view.items.Complete? ==> view.items.done == Output()
    {
      hide Logged, Listing, EndsIn;
      if msgOpen {
        FinishMessage();
      }
      var first := if reasoning != [] then [ReasoningItem(reasoning)] else [];
      ghost var was := sent;
      if toolCalls != [] {
        SendOutput(first + CallItems(toolCalls), |first|);
      } else {
        EndAnswer(first);
      }
      EndsAfter(was, Listing(Listed(), |first|, content));
    }

    /** The whole list of a response without calls, after the last deltas. */
    method EndAnswer(first: seq<Item>)
      requires Logged() && TextsOk() && cfg.format.Responses?
      requires first == if reasoning != [] then [ReasoningItem(reasoning)] else []
      requires lost || (if reopened then view.items.Broken? else view.items == ExpectedItems() && !reasoningOpen)
      requires !lost && !reopened ==> msgOpen || content == []
      modifies this`sent, this`views, this`view
      ensures old(sent) <= sent
      ensures Logged() && TextsOk() && view.calls == old(view).calls && sent == old(sent) + Listing(Output(), |first|, content)
      ensures view.items.Complete? <==> !lost && !reopened
      ensures view.items.Complete? ==> view.items.done == Output()
    {
      hide Logged, ItemStep, Listing;
      var output := first + if msgOpen then [MessageItem(content)] else [];
      assert msgOpen ==> output[..|first|] == output[..|output| - 1];
      SendOutput(output, |first|);
      if view.items.Complete? {
        LostIsNotComplete();
      }
    }

    /** Reads the calls out of the tool buffer, if there is one. */
    method Conclude() returns (reason: string)
      requires cfg.Ok() && Emitting() && !reasoningOpen && toolCalls == [] && (mode.TOOL_BUFFER? ==> toolBuffer != [])
      modifies this`reasoning, this`content, this`sent, this`views, this`view, this`blockIndex, this`activeKind, this`reasoningOpen, this`msgOpen,
               this`outputIndex, this`reopened, this`toolCalls
      ensures old(sent) <= sent
      ensures Closing() && reason == if toolCalls != [] then "tool_calls" else "stop"
      ensures toolCalls == CallsKept()
      ensures reasoning == old(reasoning) + Added().reasoning && content == old(content) + Added().content
      ensures !mode.TOOL_BUFFER? ==> Parts() == old(Parts())
    {
      hide Emitting, Closing, LeftOver, Unparsed, cfg.Ok;
      reason := "stop";
      if mode.TOOL_BUFFER? && toolBuffer != [] {
        reason := ParseBuffer();
      } else {
        NoCalls();
      }
    }

    lemma NoCalls()
      requires Emitting() && !reasoningOpen && toolCalls == []
      ensures Closing()
    {
    }

    /** The calls in what is kept for the tool parser. */
    ghost function CallsKept(): seq<Call>
      reads this`mode, this`toolBuffer
    {
      if mode.TOOL_BUFFER? then cfg.parseTools(toolBuffer).calls else []
    }

    method SendFinal()
      requires Closing()
      modifies this`sent, this`views, this`view, this`activeKind
      ensures old(sent) <= sent
      ensures Logged() && TextsOk() && view.calls == toolCalls && Ended()
      ensures cfg.format.Anthropic? ==> view.blocks == Blocks(Stopped, blockIndex + 1, mixed)
      ensures cfg.format.Responses? && toolCalls == [] ==>
                (view.items.Complete? <==> !lost && !reopened) && (view.items.Complete? ==> view.items.done == Output())
    {
      hide Closing, Listing, Listed, EndsIn;
      match cfg.format
      case OpenAiChat =>
        EndsAfter(sent, [FinishChunk(finishReason), UsageChunk, DoneMarker]);
        EndChat();
      case Anthropic => EndMessages();
      case Responses => EndResponse();
    }

    /** The text goes out, and an open reasoning item is closed. */
    method FlushAndClose() returns (held: Bytes)
      requires Running()
      modifies this`reasoning, this`content, this`sent, this`views, this`view, this`blockIndex, this`activeKind, this`reasoningOpen, this`msgOpen,
               this`outputIndex, this`reopened, this`window, this`mode, this`toolBuffer, this`raw, this`utf8Tail
      ensures old(sent) <= sent
      ensures Emitting() && !reasoningOpen && FlushedText(old(raw), old(utf8Tail), held) && raw == old(raw) + held
      ensures mode.REASONING? == old(mode).REASONING?
      ensures mode.TOOL_BUFFER? <==> old(mode).TOOL_BUFFER? || (old(mode).CONTENT? && NameAlone(cfg, old(content), old(window) + held))
      ensures mode.TOOL_BUFFER? ==> toolBuffer != []
    {
      hide Running, Emitting, SplitDone, StopDone, BufferDone, Flushed, NameAlone, Answered;
      held := Flush();
      ghost var t := Now();
      CloseReasoningItem();
      if mode.TOOL_BUFFER? {
        DoneAnswered(cfg, old(raw), held, stopHit, t, Answered());
      }
    }

    /**
     At the end of the text `was`, after which `tail` was held: what was kept for the tool parser is parsed, its
     calls are sent, and what it left over, or was kept by mistake, follows the text before it.
     */
    ghost predicate Answering(was: Bytes, tail: Bytes, held: Bytes)
      requires cfg.Ok()
      reads this`mode, this`content, this`reasoning, this`reopened, this`toolBuffer, this`toolFromReasoning, this`toolFallback, this`stopHit,
            this`toolCalls
    {
      && held == (if tail == [] then [] else cfg.sanitize(tail))
      && toolCalls == CallsKept()
      && (mode.TOOL_BUFFER? ==> cfg.HasTools() && exists t :: AnsweredAfter(was, held, t))
      && (tail == [] ==> SplitDone(cfg, was, stopHit, mode.TOOL_BUFFER?, Parts()))
      && StopDone(cfg, was, stopHit, held, mode.TOOL_BUFFER?, Parts())
    }

    /** The tool parser was given what `t` kept, and its text follows what `t` gave out. */
    ghost predicate AnsweredAfter(was: Bytes, held: Bytes, t: Flow)
      requires cfg.Ok()
      reads this`mode, this`content, this`reasoning, this`toolBuffer, this`toolFromReasoning, this`toolFallback, this`stopHit
    {
      && BufferDone(cfg, was, held, stopHit, t)
      && Buffer(toolBuffer, toolFromReasoning, toolFallback) == t.buffer
      && reasoning == t.reasoning + Added().reasoning && content == t.content + Added().content
    }

    lemma Answers(was: Bytes, tail: Bytes, held: Bytes, t: Flow)
      requires cfg.Ok() && held == (if tail == [] then [] else cfg.sanitize(tail)) && toolCalls == CallsKept()
      requires mode.TOOL_BUFFER? ==> BufferDone(cfg, was, held, stopHit, t) && Buffer(toolBuffer, toolFromReasoning, toolFallback) == t.buffer
      requires tail == [] ==> SplitDone(cfg, was, stopHit, mode.TOOL_BUFFER?, End(t))
      requires StopDone(cfg, was, stopHit, held, mode.TOOL_BUFFER?, End(t))
      requires reasoning == t.reasoning + Added().reasoning && content == t.content + Added().content
      requires !mode.TOOL_BUFFER? ==> Parts() == End(t)
      ensures Answering(was, tail, held)
    {
      hide SplitDone, StopDone, BufferDone, CallsKept, Added, cfg.Ok;
      if mode.TOOL_BUFFER? {
        BufferedAtEnd(cfg, was, stopHit, held, Parts());
        DoneHasTools(cfg, was, held, stopHit, t);
        assert AnsweredAfter(was, held, t);
      }
    }

    /** The text goes out, and what was kept for the tool parser is parsed. */
    method Finish() returns (held: Bytes, reason: string)
      requires Running()
      modifies this`reasoning, this`content, this`sent, this`views, this`view, this`blockIndex, this`activeKind, this`reasoningOpen, this`msgOpen,
               this`outputIndex, this`reopened, this`window, this`mode, this`toolBuffer, this`raw, this`utf8Tail, this`toolCalls
      ensures old(sent) <= sent
      ensures Closing() && raw == old(raw) + held && mode.REASONING? == old(mode).REASONING? && Answering(old(raw), old(utf8Tail), held)
      ensures mode.TOOL_BUFFER? <==> old(mode).TOOL_BUFFER? || (old(mode).CONTENT? && NameAlone(cfg, old(content), old(window) + held))
      ensures reason == if toolCalls != [] then "tool_calls" else "stop"
    {
      hide Emitting, TextOk, Closing, SplitDone, StopDone, Decoding, Settled, cfg.Ok, BufferDone, Added, CallsKept, NameAlone, Answering, Answered;
      held := FlushAndClose();
      ghost var t := Now();
      reason := Conclude();
      Answers(old(raw), old(utf8Tail), held, t);
    }

    /** Ends the stream. */
    method EmitFinish(tokens: int, cap: int, endedOnEos: bool) returns (ghost held: Bytes)
      requires Running()
      modifies this`reasoning, this`content, this`sent, this`views, this`view, this`blockIndex, this`activeKind, this`reasoningOpen, this`msgOpen,
               this`outputIndex, this`reopened, this`window, this`mode, this`toolBuffer, this`raw, this`utf8Tail, this`toolCalls, this`finishReason
      ensures old(sent) <= sent
      ensures Logged() && TextsOk() && mode.REASONING? == old(mode).REASONING? && raw == old(raw) + held
      ensures Answering(old(raw), old(utf8Tail), held) && view.calls == toolCalls && Ended()
      ensures mode.TOOL_BUFFER? <==> old(mode).TOOL_BUFFER? || (old(mode).CONTENT? && NameAlone(cfg, old(content), old(window) + held))
      ensures cfg.format.Anthropic? ==> view.blocks == Blocks(Stopped, blockIndex + 1, mixed)
      ensures cfg.format.Responses? && toolCalls == [] ==>
                (view.items.Complete? <==> !lost && !reopened) && (view.items.Complete? ==> view.items.done == Output())
      ensures finishReason == if toolCalls != [] then "tool_calls"
                              else if stopHit || endedOnEos || cap < 0 || tokens < cap then "stop" else "length"
    {
      hide Emitting, TextOk, Closing, TextsOk, Logged, Decoding, Settled, Output, cfg.Ok, Ended, NameAlone, Answering;
      var reason;
      held, reason := Finish();
      finishReason := if reason == "stop" && !stopHit && !endedOnEos && cap >= 0 && tokens >= cap then "length" else reason;
      SendFinal();
    }

    /** What a stop sequence in a text without tags says of the flags. */
    lemma CutInText()
      requires CutFits() && CutOk()
      ensures HasStops(cfg) && NoTags(raw) ==>
                && (lost <==> cfg.format.Responses? && cfg.startedInThinking && stopHit && FirstStop(cfg.stops, raw) > 0)
                && !mixed
    {
      hide FirstStop, NoTags;
    }

    /** A response up to its end: `text` is what was decoded, and `tail` what is held. */
    method Generate(pieces: seq<Bytes>) returns (ghost k: nat, ghost b: Before, ghost text: Bytes, ghost tail: Bytes)
      requires NotStarted()
      modifies this
      ensures Running() && k <= |pieces| && (!stopHit ==> k == |pieces|)
      ensures cfg.format.OpenAiChat? ==> [RoleDelta] <= sent
      ensures text == raw && tail == utf8Tail && Decoded(Flatten(pieces[..k]), text, tail)
      ensures stopHit ==> k > 0 && Decoded(Flatten(pieces[..k - 1]), b.raw, b.tail) && Unended(cfg, b.raw) && FiredAt(b) && text == b.raw + b.text
      ensures HasStops(cfg) && NoTags(text) ==>
                && (lost <==> cfg.format.Responses? && cfg.startedInThinking && stopHit && FirstStop(cfg.stops, text) > 0)
                && !mixed
    {
      hide Splitting, Stopping, Settled, Decoded, Steady, CutFits, Unended, FiredAt, NotStarted, cfg.Ok, NoTags, FirstStop, Flatten;
      EmitStart();
      k, b := EmitTokens(pieces);
      text, tail := raw, utf8Tail;
      CutInText();
    }

    /**
     A whole response: start, pieces, end. `k` pieces are taken in.
     - Unless a call is seen or a stop sequence fires, the reasoning and content, and the deltas sent,
       are those of the one-pass split of the whole text, wherever the pieces were cut.
     - Where a call is seen, the text before it is split, and all that follows is given to the tool parser;
       a client of any format reads just the calls it finds, and after the text before them what it left over.
     - With stop sequences and a text without tags and calls, pieces are taken up to the first after which
       the text has a stop sequence, and what is shown ends where the first one in that text starts; that
       is where the whole text has its first, if no stop sequence hides another inside. What was
       still held of a character cut by the last piece taken comes after it.
     - The messages format: every block was opened and stopped once, one at a time, with consecutive
       indices; a delta of another kind than its block exactly if a stop sequence left text in the
       reasoning while a client saw no block of reasoning open; `b` is how the emitter was then.
     - The responses format, without calls: every item was opened and closed once, in order and with the
       text of its deltas, exactly if no reasoning went out after the message was opened and no stop
       sequence left text in the reasoning.
     - The last events close the response, with the list of its items and the reason it ended.
     */
    method Respond(pieces: seq<Bytes>, tokens: int, cap: int, endedOnEos: bool) returns (ghost k: nat, ghost held: Bytes, ghost b: Before)
      requires NotStarted()
      modifies this
      ensures Observe(sent) == view && TextsOk() && view.calls == toolCalls && toolCalls == CallsKept()
      ensures Ended() && (cfg.format.OpenAiChat? ==> [RoleDelta] <= sent)
      ensures k <= |pieces| && (!stopHit ==> k == |pieces|)
      ensures Valid(Flatten(pieces)) ==>
                && raw == Characters(Flatten(pieces[..k])) + held && held == HeldOf(cfg, Flatten(pieces[..k]))
                && SplitDone(cfg, Flatten(pieces), stopHit, mode.TOOL_BUFFER?, Parts())
                && StopDone(cfg, Characters(Flatten(pieces[..k])), stopHit, held, mode.TOOL_BUFFER?, Parts())
                && (CutFree(cfg.stops) ==> StopDone(cfg, Flatten(pieces), stopHit, held, mode.TOOL_BUFFER?, Parts()))
                && (cfg.KeepsPartial() ==> (held == [] <==> Valid(Flatten(pieces[..k]))))
      ensures cfg.Ok() && (mode.TOOL_BUFFER? ==> cfg.HasTools())
      ensures mode.TOOL_BUFFER? && Valid(Flatten(pieces)) ==> exists t :: AnsweredAfter(Characters(Flatten(pieces[..k])), held, t)
      ensures Valid(Flatten(pieces)) && NoTags(Flatten(pieces)) && HasStops(cfg) && !mode.TOOL_BUFFER? ==>
                && TakenUntil(cfg.stops, pieces, k, stopHit)
                && (lost <==> cfg.format.Responses? && cfg.startedInThinking && stopHit &&
                              FirstStop(cfg.stops, Characters(Flatten(pieces[..k]))) > 0)
                && !mixed && !reopened
      ensures cfg.format.Anthropic? ==> view.blocks == Blocks(Stopped, blockIndex + 1, mixed)
      ensures cfg.format.Responses? && toolCalls == [] ==> (view.items.Complete? <==> !lost && !reopened)
      ensures cfg.format.Responses? && toolCalls == [] && view.items.Complete? ==> view.items.done == Output()
      ensures CutOk() && (stopHit ==> FiredAt(b) && cut.value.thinking == mode.REASONING?)
      ensures stopHit && Valid(Flatten(pieces)) ==>
                k > 0 && b.raw == Characters(Flatten(pieces[..k - 1])) && b.raw + b.text == Characters(Flatten(pieces[..k]))
      ensures finishReason == if toolCalls != [] then "tool_calls"
                              else if stopHit || endedOnEos || cap < 0 || tokens < cap then "stop" else "length"
    {
      hide Splitting, Stopping, Settled, Decoded, SplitDone, StopDone, Observe, Steady, CutFits, Unended, TakenUntil, HeldOf, CutFree, Completes, CutWhen;
      hide Flatten, Valid, Whole, Logged, ItemsOk, BlocksOk, NotStarted, cfg.Ok, Characters, NoTags, FirstStop, AnsweredAfter, CallsKept, Ended, CutOk, TextsOk, Output, Answered, NameAlone, Decoding, DecodedAs, KindOk;
      ghost var text, tail;
      k, b, text, tail := Generate(pieces);
      held := EmitFinish(tokens, cap, endedOnEos);
      PiecesRun(cfg, pieces, k, text, tail, b.raw, b.tail, stopHit, held, mode.TOOL_BUFFER?, Parts());
      ViewIsObserved();
    }
  }
}
