/** What the emitter knows of the text, and when giving out part of its window is right. */
module SseText {
  import opened Text
  import opened Utf8
  import opened ThinkSplit
  import opened ThinkStream
  import opened StopSequence
  import opened SseEvents

  datatype Format = OpenAiChat | Anthropic | Responses

  datatype Mode = REASONING | CONTENT | TOOL_BUFFER

  datatype Parsed = Parsed(cleaned: Bytes, calls: seq<Call>)

  /** The request, and the text utilities and tool parser as unknown functions. */
  datatype Config = Config(
    format: Format,
    startedInThinking: bool,
    toolNames: seq<Bytes>,
    stops: seq<Bytes>,
    sanitize: Bytes -> Bytes,
    safeLen: (Bytes, nat) -> nat,
    findTool: Bytes -> int,
    parseTools: Bytes -> Parsed,
    topLevelClose: Bytes -> int)
  {
    /** What those functions are known to do. */
    ghost predicate Ok() {
      && (forall s :: Valid(s) ==> sanitize(s) == s)
      && (forall w, n :: safeLen(w, n) <= n)
      && (forall w :: -1 <= findTool(w) < |w|)
      && (forall w :: topLevelClose(w) >= 0 ==> topLevelClose(w) + |THINK_CLOSE| <= |w|)
    }

    /** Cutting between characters gives up at most the beginning of one. */
    ghost predicate CutsClose() {
      forall w, n: nat :: n <= safeLen(w, n) + 3
    }

    /** Text standing for part of a character is not erased. */
    ghost predicate KeepsPartial() {
      forall s :: Partial(s) ==> sanitize(s) != []
    }

    predicate HasTools() { toolNames != [] }

    /** Bytes of a trailing name kept back because it may be a tool's. */
    function NameHeld(): nat { if HasTools() then 63 else 0 }

    /** Bytes kept in the window so that an opener or stop sequence cut by a piece is still found. */
    function Holdback(): (n: nat)
      ensures n >= 21 && (forall i :: 0 <= i < |stops| ==> |stops[i]| <= n)
    {
      var tool := ToolHoldback(toolNames);
      if tool < Longest(stops) then Longest(stops) else tool
    }
  }

  /** A name the tool tags can carry. */
  predicate ToolName(n: Bytes) {
    && 0 < |n| <= 64 && (Letter(n[0]) || n[0] == 0x5F)
    && forall i :: 0 <= i < |n| ==> IdentByte(n[i]) || n[i] == 0x2E
  }

  predicate Letter(b: byte) { 0x61 <= b <= 0x7A || 0x41 <= b <= 0x5A }

  /** At least 21, and all but the last byte of every `<NAME>` opener. */
  function ToolHoldback(names: seq<Bytes>): (n: nat)
    ensures n >= 21 && forall i :: 0 <= i < |names| && ToolName(names[i]) ==> |names[i]| + 1 <= n
  {
    if names == [] then 21 else
    var rest, last := ToolHoldback(names[..|names| - 1]), names[|names| - 1];
    if ToolName(last) && |last| + 1 > rest then |last| + 1 else rest
  }

  predicate Blank(b: byte) { b == 0x20 || b == 0x09 || b == 0x0A || b == 0x0D }

  predicate IdentByte(b: byte) {
    0x61 <= b <= 0x7A || 0x41 <= b <= 0x5A || 0x30 <= b <= 0x39 || b == 0x5F || b == 0x2D
  }

  // ── The text state and its steps ──

  /**
   What is kept for the tool parser; whether the text before it left the reasoning open, and whether it was
   kept only because it may be a bare object.
   */
  datatype Buffer = Buffer(text: Bytes, fromReasoning: bool, fallback: bool)

  /**
   `answered`: the answer's message counts as open, from the start or since the first content, or the
   reasoning item has been closed. `reopened`: reasoning went out after that.
   */
  datatype Flow = Flow(mode: Mode, checked: bool, answered: bool, window: Bytes, reasoning: Bytes, content: Bytes, reopened: bool,
                       buffer: Buffer) {
    predicate Thinking() { mode.REASONING? }

    predicate Buffering() { mode.TOOL_BUFFER? }

    function WithWindow(w: Bytes): Flow {
      Flow(mode, checked, answered, w, reasoning, content, reopened, buffer)
    }

    function WithAnswered(a: bool): Flow {
      Flow(mode, checked, a, window, reasoning, content, reopened, buffer)
    }

    /** Nothing in the window, and `text` kept. */
    function Keeping(text: Bytes): Flow {
      Flow(TOOL_BUFFER, checked, answered, [], reasoning, content, reopened, Buffer(text, buffer.fromReasoning, buffer.fallback))
    }
  }

  /** Gives out the first `cut` bytes of the window in the current mode, skips `skip` more and goes on in mode `next`. */
  function Give(t: Flow, cut: nat, skip: nat, next: Mode): Flow
    requires cut + skip <= |t.window|
  {
    var p := Part(t.Thinking(), t.answered, t.window[..cut]);
    Flow(next, t.checked, t.answered || p.content != [], t.window[cut + skip..],
         t.reasoning + p.reasoning, t.content + p.content, t.reopened || p.reopened, t.buffer)
  }

  lemma GiveIs(t: Flow, cut: nat, skip: nat, t': Flow)
    requires cut + skip <= |t.window| && t'.window == t.window[cut + skip..] && (t'.checked, t'.buffer) == (t.checked, t.buffer)
    requires var p := Part(t.Thinking(), t.answered, t.window[..cut]);
             && t'.reasoning == t.reasoning + p.reasoning && t'.content == t.content + p.content
             && t'.answered == (t.answered || p.content != []) && t'.reopened == (t.reopened || p.reopened)
    ensures t' == Give(t, cut, skip, t'.mode)
  {
  }

  lemma EnterIs(t: Flow, pos: nat, fallback: bool, g: Flow, t': Flow)
    requires pos <= |t.window| && g == Give(t, pos, |t.window| - pos, TOOL_BUFFER)
    requires (t'.mode, t'.checked, t'.window) == (g.mode, g.checked, g.window)
    requires (t'.reasoning, t'.content, t'.reopened) == (g.reasoning, g.content, g.reopened)
    requires t'.buffer == Buffer(t.window[pos..], t.Thinking(), fallback)
    ensures t' == Enter(t, pos, fallback).WithAnswered(t'.answered)
  {
  }

  /** Gives out the first `pos` bytes of the window and keeps the rest for the tool parser. */
  function Enter(t: Flow, pos: nat, fallback: bool): Flow
    requires pos <= |t.window|
  {
    var g := Give(t, pos, |t.window| - pos, TOOL_BUFFER);
    Flow(TOOL_BUFFER, g.checked, g.answered, [], g.reasoning, g.content, g.reopened, Buffer(t.window[pos..], t.Thinking(), fallback))
  }

  /** Text that may be a call written as a bare object. */
  predicate BareObject(w: Bytes) {
    TrimLeft(w, Blank) != [] && TrimLeft(w, Blank)[0] == 0x7B
  }

  /** In the text from `s` to `e` something at `n` looked like a call. */
  ghost predicate OpenedIn(cfg: Config, raw: Bytes, n: nat, fallback: bool, s: nat, e: nat) {
    s <= n < e <= |raw| && if fallback then n == s && BareObject(raw[s..e]) else cfg.findTool(raw[s..e]) == n - s
  }

  ghost predicate Opened(cfg: Config, raw: Bytes, n: nat, fallback: bool) {
    exists s: nat, e: nat :: OpenedIn(cfg, raw, n, fallback, s, e)
  }

  /** Kept for the tool parser is all of the text from where a call was seen; what went out is the split of the text before. */
  ghost predicate Kept(cfg: Config, raw: Bytes, t: Flow) {
    && |t.buffer.text + t.window| <= |raw| && raw[|raw| - |t.buffer.text + t.window|..] == t.buffer.text + t.window
    && KeptFrom(cfg, raw, t, |raw| - |t.buffer.text + t.window|)
  }

  ghost predicate KeptFrom(cfg: Config, raw: Bytes, t: Flow, n: nat)
    requires n <= |raw|
  {
    && Opened(cfg, raw, n, t.buffer.fallback)
    && Whole(cfg.startedInThinking, raw[..n]) == End(t)
    && Ends(cfg.startedInThinking, false, raw[..n]) == t.buffer.fromReasoning
    && (t.buffer.fallback ==> All(t.content, Blank) && !t.buffer.fromReasoning)
  }

  /** What went out, and the window, split as the whole text does, until a call is seen or a stop sequence fires. */
  ghost predicate Splitting(cfg: Config, raw: Bytes, stopHit: bool, t: Flow) {
    if t.Buffering() then cfg.HasTools() && Kept(cfg, raw, t)
    else
      && t.buffer.text == [] && !t.buffer.fromReasoning && !t.buffer.fallback
      && (!stopHit ==> Tracks(cfg.startedInThinking, raw, t.reasoning, t.content, t.reopened, t.Thinking(), t.checked, t.answered, t.window))
  }

  /** Nothing more can be decided until more text arrives, and no more is kept than may be needed. */
  ghost predicate Settled(cfg: Config, raw: Bytes, stopHit: bool, t: Flow) {
    if t.Buffering() then t.window == []
    else (!stopHit ==> Quiet(t.Thinking(), t.checked, t.window) && Sought(cfg, raw, t)) && Released(cfg, t)
  }

  /** With tools, the text was searched for a call to its end, and there was none. */
  ghost predicate Sought(cfg: Config, raw: Bytes, t: Flow) {
    cfg.HasTools() && (t.Thinking() ==> t.checked) ==> exists w :: SoughtIn(cfg, raw, t, w)
  }

  ghost predicate SoughtIn(cfg: Config, raw: Bytes, t: Flow, w: Bytes) {
    Ending(w, raw) && Ending(t.window, w) && cfg.findTool(w) < 0 && (t.mode.CONTENT? && All(t.content, Blank) ==> !BareObject(w))
  }

  /** Apart from spaces before a possible opening tag, the window is within the holdback, part of a character and a possible name. */
  ghost predicate Released(cfg: Config, t: Flow) {
    cfg.CutsClose() && (t.Thinking() ==> t.checked) ==> |t.window| <= cfg.Holdback() + 3 + cfg.NameHeld()
  }

  /** Stop sequences, none of them empty. */
  predicate HasStops(cfg: Config) {
    cfg.stops != [] && forall q :: q in cfg.stops ==> q != []
  }

  /** Where a tag-free text goes. */
  function Shown(cfg: Config, t: Flow): Bytes {
    if cfg.startedInThinking then t.reasoning else t.content
  }

  function StartMode(cfg: Config): Mode {
    if cfg.startedInThinking then REASONING else CONTENT
  }

  /** With no tags so far: all but the window has gone out, all of it in one way, and nothing of a stop sequence. */
  ghost predicate Stopping(cfg: Config, raw: Bytes, stopHit: bool, t: Flow) {
    HasStops(cfg) && NoTags(raw) && !t.Buffering() ==>
      && t.mode == StartMode(cfg) && !t.reopened && t.answered == !cfg.startedInThinking
      && (if cfg.startedInThinking then t.content else t.reasoning) == []
      && if stopHit then t.window == [] && FirstStop(cfg.stops, raw) == |Shown(cfg, t)| && Shown(cfg, t) == raw[..|Shown(cfg, t)|]
         else Unstopped(cfg.stops, raw, Shown(cfg, t), t.window)
  }

  /** Until a stop sequence fires, a tag in the window is a tag in the text. */
  lemma {:induction false} WindowTagIsInText(cfg: Config, raw: Bytes, t: Flow, k: nat)
    requires HasStops(cfg) && Stopping(cfg, raw, false, t) && !t.Buffering() && TagAt(false, t.window, k)
    ensures !NoTags(raw)
  {
    if NoTags(raw) {
      var n := |Shown(cfg, t)|;
      assert raw[n..] == t.window;
      TagAtDrop(false, raw, n, n + k);
      NextTagIsFirst(false, raw, 0);
    }
  }

  /** Giving out a part that the split allows. */
  lemma {:induction false} GiveSplitting(cfg: Config, raw: Bytes, t: Flow, cut: nat, skip: nat, next: Mode)
    requires Splitting(cfg, raw, false, t) && !t.Buffering() && !next.TOOL_BUFFER? && cut + skip <= |t.window|
    requires Steps(t.Thinking(), t.checked, t.answered, t.window, Part(t.Thinking(), t.answered, t.window[..cut]), next.REASONING?, cut + skip)
    ensures Splitting(cfg, raw, false, Give(t, cut, skip, next))
  {
    hide Steps, Tracks;
    TracksStep(cfg.startedInThinking, raw, t.reasoning, t.content, t.reopened, t.Thinking(), t.checked, t.answered, t.window,
               Part(t.Thinking(), t.answered, t.window[..cut]), next.REASONING?, cut + skip);
  }

  /** Acting on the first tag of the window. */
  lemma {:induction false} GiveTag(cfg: Config, raw: Bytes, t: Flow, k: nat, tag: Bytes, toReasoning: bool)
    requires Splitting(cfg, raw, false, t) && Stopping(cfg, raw, false, t) && !t.Buffering() && (t.Thinking() ==> t.checked)
    requires At(t.window, tag, k) && (tag == THINK_OPEN || tag == THINK_CLOSE)
    requires NextTag(t.Thinking(), t.window) == Found(k, tag, toReasoning)
    ensures var t' := Give(t, k, |tag|, if toReasoning then REASONING else CONTENT);
            Splitting(cfg, raw, false, t') && Stopping(cfg, raw, false, t')
  {
    if HasStops(cfg) {
      assert TagAt(false, t.window, k);
      WindowTagIsInText(cfg, raw, t, k);
    }
    GiveTagSplitting(cfg, raw, t, k, tag, toReasoning);
  }

  lemma {:induction false} GiveTagSplitting(cfg: Config, raw: Bytes, t: Flow, k: nat, tag: Bytes, toReasoning: bool)
    requires Splitting(cfg, raw, false, t) && !t.Buffering() && (t.Thinking() ==> t.checked) && k + |tag| <= |t.window|
    requires NextTag(t.Thinking(), t.window) == Found(k, tag, toReasoning)
    ensures Splitting(cfg, raw, false, Give(t, k, |tag|, if toReasoning then REASONING else CONTENT))
  {
    hide Splitting, NextTag, Steps;
    StepAtTag(t.Thinking(), t.checked, t.answered, t.window);
    GiveSplitting(cfg, raw, t, k, |tag|, if toReasoning then REASONING else CONTENT);
  }

  /** Giving out the front of a window without a tag and a call, short of the holdback. */
  lemma {:induction false} GiveFront(cfg: Config, raw: Bytes, t: Flow, cut: nat)
    requires Splitting(cfg, raw, false, t) && Stopping(cfg, raw, false, t) && !t.Buffering() && (t.Thinking() ==> t.checked)
    requires cut + cfg.Holdback() <= |t.window| && (cfg.CutsClose() ==> |t.window| <= cut + cfg.Holdback() + 3 + cfg.NameHeld())
    requires NextTag(t.Thinking(), t.window).NoTag?
    requires cfg.HasTools() ==> NoCallSeen(cfg, t)
    ensures var t' := Give(t, cut, 0, t.mode);
            Splitting(cfg, raw, false, t') && Stopping(cfg, raw, false, t') && Settled(cfg, raw, false, t')
  {
    hide NextTag, Tracks, Steps, Longest, ToolHoldback, Unstopped, Splitting, Sought;
    if HasStops(cfg) && NoTags(raw) {
      HoldbackCovers(cfg);
      StopSequence.GiveOut(cfg.stops, raw, Shown(cfg, t), t.window, cut);
    }
    StepSafePrefix(t.Thinking(), t.checked, t.answered, t.window, cut);
    GiveSplitting(cfg, raw, t, cut, 0, t.mode);
    WindowIsTail(cfg, raw, t);
    SoughtWhere(cfg, raw, t, cut);
  }

  /** The window was searched for a call and holds none. */
  ghost predicate NoCallSeen(cfg: Config, t: Flow) {
    cfg.findTool(t.window) < 0 && (t.mode.CONTENT? && All(t.content, Blank) ==> !BareObject(t.window))
  }

  lemma WindowIsTail(cfg: Config, raw: Bytes, t: Flow)
    requires Splitting(cfg, raw, false, t) && !t.Buffering()
    ensures Ending(t.window, raw)
  {
  }

  lemma SoughtWhere(cfg: Config, raw: Bytes, t: Flow, cut: nat)
    requires cut <= |t.window| && Ending(t.window, raw) && (cfg.HasTools() ==> NoCallSeen(cfg, t))
    ensures Sought(cfg, raw, Give(t, cut, 0, t.mode))
  {
    var t' := Give(t, cut, 0, t.mode);
    assert t.mode.CONTENT? && All(t'.content, Blank) ==> All(t.content, Blank) by {
      assert forall i :: 0 <= i < |t.content| ==> t'.content[i] == t.content[i];
    }
    assert Ending(t'.window, t.window);
    assert cfg.HasTools() ==> SoughtIn(cfg, raw, t', t.window);
  }

  /** Nothing is given out of a window without a tag and a call that is within the holdback. */
  lemma NothingGiven(cfg: Config, raw: Bytes, t: Flow)
    requires Splitting(cfg, raw, false, t) && !t.Buffering() && (t.Thinking() ==> t.checked)
    requires cfg.CutsClose() ==> |t.window| <= cfg.Holdback() + 3 + cfg.NameHeld()
    requires NextTag(t.Thinking(), t.window).NoTag? && (cfg.HasTools() ==> NoCallSeen(cfg, t))
    ensures Settled(cfg, raw, false, t)
  {
    hide NextTag, All;
    WindowIsTail(cfg, raw, t);
    assert cfg.HasTools() ==> SoughtIn(cfg, raw, t, t.window);
  }

  /** A call was seen at `pos`, before any tag: the text before it goes out, and the rest is kept. */
  lemma {:induction false} EnterBuffer(cfg: Config, raw: Bytes, t: Flow, pos: nat, fallback: bool)
    requires cfg.HasTools() && Splitting(cfg, raw, false, t) && !t.Buffering() && pos < |t.window| && (t.Thinking() ==> t.checked)
    requires if fallback then pos == 0 && BareObject(t.window) && All(t.content, Blank) && !t.Thinking() else cfg.findTool(t.window) == pos
    requires NextTag(t.Thinking(), t.window).Found? ==> pos <= NextTag(t.Thinking(), t.window).pos
    ensures Kept(cfg, raw, Enter(t, pos, fallback))
  {
    hide Run, Ends, NextTag, TrimLeft, All, Tracks, BareObject, TracksWith;
    var w, n, t' := t.window, |raw| - |t.window| + pos, Enter(t, pos, fallback);
    WindowIsTail(cfg, raw, t);
    CutBeforeTag(t.Thinking(), w, pos);
    TracksCut(cfg.startedInThinking, raw, t.reasoning, t.content, t.reopened, t.Thinking(), t.checked, t.answered, w, pos);
    assert raw[n..] == raw[|raw| - |w|..][pos..] == w[pos..] == t'.buffer.text + t'.window;
    assert raw[|raw| - |w|..|raw|] == w;
    assert OpenedIn(cfg, raw, n, fallback, |raw| - |w|, |raw|);
    assert n == |raw| - |t'.buffer.text + t'.window|;
    if fallback {
      assert w[..pos] == [] && t'.content == t.content;
    }
  }

  lemma BufferText(cfg: Config, raw: Bytes, t: Flow, pos: nat, fallback: bool, answered: bool)
    requires pos <= |t.window| && cfg.HasTools() && Kept(cfg, raw, Enter(t, pos, fallback))
    ensures var t' := Enter(t, pos, fallback).WithAnswered(answered); Splitting(cfg, raw, false, t') && Stopping(cfg, raw, false, t')
  {
    KeptAnswered(cfg, raw, Enter(t, pos, fallback), answered);
  }

  lemma KeptAnswered(cfg: Config, raw: Bytes, t: Flow, answered: bool)
    requires Kept(cfg, raw, t)
    ensures Kept(cfg, raw, t.WithAnswered(answered))
  {
  }

  lemma {:induction false} CutBeforeTag(reasoning: bool, w: Bytes, pos: nat)
    requires pos <= |w| && (NextTag(reasoning, w).Found? ==> pos <= NextTag(reasoning, w).pos)
    ensures NextTag(reasoning, w[..pos]).NoTag?
  {
    NextTagIsFirst(reasoning, w, 0);
    NextTagIsFirst(reasoning, w[..pos], 0);
    var f := NextTag(reasoning, w[..pos]);
    if f.Found? {
      assert w == w[..pos] + w[pos..];
      TagFoundAppend(reasoning, w[..pos], w[pos..], f.pos);
    }
  }

  /** More text that is kept. */
  lemma KeepMore(cfg: Config, raw: Bytes, t: Flow, piece: Bytes)
    requires Kept(cfg, raw, t)
    ensures Kept(cfg, raw + piece, t.WithWindow(t.window + piece))
  {
    hide Run, Ends, All;
    var n, raw' := |raw| - |t.buffer.text + t.window|, raw + piece;
    assert t.buffer.text + (t.window + piece) == t.buffer.text + t.window + piece;
    assert raw'[n..] == raw[n..] + piece && raw'[..n] == raw[..n];
    assert n == |raw'| - |t.buffer.text + (t.window + piece)|;
    var s: nat, e: nat :| OpenedIn(cfg, raw, n, t.buffer.fallback, s, e);
    assert raw'[s..e] == raw[s..e];
    assert OpenedIn(cfg, raw', n, t.buffer.fallback, s, e);
  }

  /** The window joins what is kept. */
  lemma KeepWindow(cfg: Config, raw: Bytes, t: Flow)
    requires Kept(cfg, raw, t)
    ensures Kept(cfg, raw, t.Keeping(t.buffer.text + t.window))
  {
    assert t.buffer.text + t.window + [] == t.buffer.text + t.window;
  }

  lemma HoldbackCovers(cfg: Config)
    ensures Longest(cfg.stops) <= cfg.Holdback()
  {
  }

  /** The one-time strip at the start of the reasoning. */
  lemma {:induction false} StripOpening(cfg: Config, raw: Bytes, t: Flow)
    requires Splitting(cfg, raw, false, t) && Stopping(cfg, raw, false, t) && t.Thinking() && !t.checked && StripDecided(t.window)
    ensures var t' := Flow(t.mode, true, t.answered, Strip(t.window), t.reasoning, t.content, t.reopened, t.buffer);
            Splitting(cfg, raw, false, t') && Stopping(cfg, raw, false, t')
  {
    if HasStops(cfg) && At(t.window, THINK_OPEN, Spaces(t.window)) {
      WindowTagIsInText(cfg, raw, t, Spaces(t.window));
    }
    TracksStrip(cfg.startedInThinking, raw, t.reasoning, t.content, t.reopened, t.answered, t.window);
  }

  /** Too little text yet to tell. */
  lemma Waits(cfg: Config, raw: Bytes, t: Flow)
    requires t.Thinking() && !t.checked && !StripDecided(t.window)
    ensures Settled(cfg, raw, false, t)
  {
  }

  /** A new piece in the window that completes no stop sequence. */
  lemma {:induction false} MoreText(cfg: Config, raw: Bytes, t: Flow, piece: Bytes)
    requires Splitting(cfg, raw, false, t) && Stopping(cfg, raw, false, t)
    requires t.Buffering() || FirstStop(cfg.stops, t.window + piece) < 0
    ensures var t' := t.WithWindow(t.window + piece);
            Splitting(cfg, raw + piece, false, t') && Stopping(cfg, raw + piece, false, t')
  {
    hide Unstopped, FirstStop, Tracks, NoTags, Kept;
    if HasStops(cfg) && NoTags(raw + piece) && !t.Buffering() {
      TagsStay(raw, piece);
      WindowSuffices(cfg.stops, raw, Shown(cfg, t), t.window, piece);
    }
    if t.Buffering() {
      KeepMore(cfg, raw, t, piece);
    } else {
      TracksMore(cfg.startedInThinking, raw, t.reasoning, t.content, t.reopened, t.Thinking(), t.checked, t.answered, t.window, piece);
    }
  }

  /** The text state after a stop sequence fired at `best`: what precedes it has gone out, the rest is dropped. */
  function Cut(t: Flow, best: nat): Flow
    requires best <= |t.window|
  {
    var pre := t.window[..best];
    if t.Thinking() then Flow(t.mode, t.checked, t.answered, [], t.reasoning + pre, t.content, t.reopened, t.buffer)
    else Flow(t.mode, t.checked, t.answered || pre != [], [], t.reasoning, t.content + pre, t.reopened, t.buffer)
  }

  lemma CutIs(t: Flow, best: nat, t': Flow)
    requires best <= |t.window| && t'.window == [] && (t'.mode, t'.checked, t'.reopened, t'.buffer) == (t.mode, t.checked, t.reopened, t.buffer)
    requires var pre := t.window[..best];
             && t'.reasoning == t.reasoning + (if t.Thinking() then pre else [])
             && t'.content == t.content + (if t.Thinking() then [] else pre)
             && t'.answered == (t.answered || (!t.Thinking() && pre != []))
    ensures t' == Cut(t, best)
  {
  }

  /** A new piece that completes a stop sequence. */
  lemma {:induction false} StopFires(cfg: Config, raw: Bytes, t: Flow, piece: Bytes)
    requires Splitting(cfg, raw, false, t) && Stopping(cfg, raw, false, t) && cfg.stops != [] && !t.Buffering()
    requires FirstStop(cfg.stops, t.window + piece) >= 0
    ensures var t' := t.WithWindow(t.window + piece);
            Splitting(cfg, raw + piece, true, Cut(t', FirstStop(cfg.stops, t'.window))) &&
            Stopping(cfg, raw + piece, true, Cut(t', FirstStop(cfg.stops, t'.window)))
    ensures HasStops(cfg) && NoTags(raw + piece) ==>
              (FirstStop(cfg.stops, t.window + piece) > 0 <==> FirstStop(cfg.stops, raw + piece) > 0)
  {
    hide FirstStop, NoTags, Tracks;
    if HasStops(cfg) && NoTags(raw + piece) {
      TagsStay(raw, piece);
      WindowSuffices(cfg.stops, raw, Shown(cfg, t), t.window, piece);
      if FirstStop(cfg.stops, t.window + piece) == 0 {
        FoundLate(cfg.stops, raw, Shown(cfg, t), t.window, piece);
      }
    }
  }

  // ── The end of the stream ──

  /** The text state after the end: the window, and what was still held back of a character, has gone out. */
  function Flushed(t: Flow, held: Bytes): Flow {
    var w := t.WithWindow(t.window + held);
    Give(w, |w.window|, 0, t.mode)
  }

  function End(t: Flow): Split {
    Split(t.reasoning, t.content, t.reopened)
  }

  /** Unless a stop sequence fired or a call was seen: the reasoning and content are the split of the whole text. */
  ghost predicate SplitDone(cfg: Config, raw: Bytes, stopHit: bool, buffered: bool, end: Split) {
    !buffered && !stopHit ==> end == Whole(cfg.startedInThinking, raw)
  }

  /** In a text without tags in which no call was seen: what was shown ends where the first stop sequence starts, or is everything. */
  ghost predicate StopDone(cfg: Config, raw: Bytes, stopHit: bool, held: Bytes, buffered: bool, end: Split) {
    HasStops(cfg) && NoTags(raw) && !buffered ==>
      var n := FirstStop(cfg.stops, raw);
      && (stopHit <==> n >= 0)
      && var shown := (if stopHit then raw[..n] else raw) + held;
         end == Split(if cfg.startedInThinking then shown else [], if cfg.startedInThinking then [] else shown, false)
  }

  /** Text that is just a tool's name, in an answer with no other text. */
  predicate NameAlone(cfg: Config, content: Bytes, w: Bytes) {
    All(content, Blank) && Trim(w, Blank) != [] && Trim(w, Blank) in cfg.toolNames
  }

  const TOOL_CALL_OPEN: Bytes := [0x3C, 0x74, 0x6F, 0x6F, 0x6C, 0x5F, 0x63, 0x61, 0x6C, 0x6C, 0x3E]
  const TOOL_CALL_CLOSE: Bytes := [0x3C, 0x2F, 0x74, 0x6F, 0x6F, 0x6C, 0x5F, 0x63, 0x61, 0x6C, 0x6C, 0x3E]

  /** The window `w`, with what was held of a character, was just a tool's name, and is kept as a call without arguments. */
  ghost predicate NamedBy(cfg: Config, raw: Bytes, held: Bytes, stopHit: bool, t: Flow, w: Bytes) {
    && NameAlone(cfg, t.content, w + held) && t.buffer.text == TOOL_CALL_OPEN + Trim(w + held, Blank) + TOOL_CALL_CLOSE
    && !t.buffer.fromReasoning && !t.buffer.fallback
    && (if stopHit then w == [] else Ending(w, raw) && Whole(cfg.startedInThinking, raw) == Split(t.reasoning, t.content + w, t.reopened))
  }

  ghost predicate Named(cfg: Config, raw: Bytes, held: Bytes, stopHit: bool, t: Flow) {
    exists w :: NamedBy(cfg, raw, held, stopHit, t, w)
  }

  /**
   What is kept for the tool parser at the end of the text `raw` and what was held after it: all from where
   a call was seen, or a tool's name, as a call.
   */
  ghost predicate BufferDone(cfg: Config, raw: Bytes, held: Bytes, stopHit: bool, t: Flow) {
    cfg.HasTools() && t.Buffering() && t.window == [] && (Kept(cfg, raw + held, t) || Named(cfg, raw, held, stopHit, t))
  }

  lemma BufferedAtEnd(cfg: Config, raw: Bytes, stopHit: bool, held: Bytes, end: Split)
    ensures SplitDone(cfg, raw, stopHit, true, end) && StopDone(cfg, raw, stopHit, held, true, end)
  {
  }

  lemma DoneAnswered(cfg: Config, raw: Bytes, held: Bytes, stopHit: bool, t: Flow, answered: bool)
    requires BufferDone(cfg, raw, held, stopHit, t)
    ensures BufferDone(cfg, raw, held, stopHit, t.WithAnswered(answered)) && t.buffer.text != []
  {
    hide NameAlone, All, Trim, Whole, Ends;
    var t' := t.WithAnswered(answered);
    if Kept(cfg, raw + held, t) {
      KeptAnswered(cfg, raw + held, t, answered);
    } else {
      var w :| NamedBy(cfg, raw, held, stopHit, t, w);
      assert NamedBy(cfg, raw, held, stopHit, t', w);
    }
  }

  lemma DoneHasTools(cfg: Config, raw: Bytes, held: Bytes, stopHit: bool, t: Flow)
    requires BufferDone(cfg, raw, held, stopHit, t)
    ensures cfg.HasTools()
  {
  }

  lemma {:induction false} FlushKept(cfg: Config, raw: Bytes, t: Flow, held: Bytes, stopHit: bool)
    requires t.Buffering() && Splitting(cfg, raw, stopHit, t)
    ensures BufferDone(cfg, raw, held, stopHit, t.Keeping(t.buffer.text + (t.window + held)))
  {
    hide Kept, Named;
    KeepMore(cfg, raw, t, held);
    KeepWindow(cfg, raw + held, t.WithWindow(t.window + held));
  }

  lemma {:induction false} FlushNamed(cfg: Config, raw: Bytes, t: Flow, held: Bytes, stopHit: bool)
    requires t.mode.CONTENT? && Splitting(cfg, raw, stopHit, t) && Settled(cfg, raw, stopHit, t) && NameAlone(cfg, t.content, t.window + held)
    requires stopHit ==> t.window == []
    ensures BufferDone(cfg, raw, held, stopHit,
                       t.Keeping(TOOL_CALL_OPEN + Trim(t.window + held, Blank) + TOOL_CALL_CLOSE))
  {
    hide NameAlone, Trim, Kept, Tracks, Sought, Released;
    var t' := t.Keeping(TOOL_CALL_OPEN + Trim(t.window + held, Blank) + TOOL_CALL_CLOSE);
    if !stopHit {
      FlushSplits(cfg, raw, stopHit, t);
      WindowIsTail(cfg, raw, t);
      assert t.window[..|t.window|] == t.window && t.window + [] == t.window;
    }
    assert NamedBy(cfg, raw, held, stopHit, t', t.window);
    HasNamed(cfg, t.content, t.window + held);
  }

  lemma HasNamed(cfg: Config, content: Bytes, w: Bytes)
    requires NameAlone(cfg, content, w)
    ensures cfg.HasTools()
  {
  }

  lemma {:induction false} FlushSplits(cfg: Config, raw: Bytes, stopHit: bool, t: Flow)
    requires !t.Buffering() && Splitting(cfg, raw, stopHit, t) && Settled(cfg, raw, stopHit, t)
    ensures SplitDone(cfg, raw, stopHit, false, End(Flushed(t, [])))
  {
    if !stopHit {
      assert t.window + [] == t.window == t.window[..|t.window|];
      TracksEnd(cfg.startedInThinking, raw, t.reasoning, t.content, t.reopened, t.Thinking(), t.checked, t.answered, t.window);
    }
  }

  lemma {:induction false} FlushStops(cfg: Config, raw: Bytes, stopHit: bool, t: Flow, held: Bytes)
    requires !t.Buffering() && Stopping(cfg, raw, stopHit, t)
    ensures StopDone(cfg, raw, stopHit, held, false, End(Flushed(t, held)))
  {
    hide FirstStop, NoTags;
    if HasStops(cfg) && NoTags(raw) {
      var w := t.window + held;
      assert w[..|w|] == w;
      assert Shown(cfg, t) + w == Shown(cfg, t) + t.window + held;
    }
  }

  /** From the text that was decoded to all that was generated, of which `more` was ignored after the stop. */
  lemma {:induction false} StopInWhole(cfg: Config, raw: Bytes, more: Bytes, stopHit: bool, held: Bytes, buffered: bool, end: Split)
    requires StopDone(cfg, raw, stopHit, held, buffered, end) && if stopHit then CutFree(cfg.stops) else more == []
    ensures StopDone(cfg, raw + more, stopHit, held, buffered, end)
  {
    hide FirstStop, NoTags, CutFree;
    if HasStops(cfg) && NoTags(raw + more) && !buffered {
      TagsStay(raw, more);
      if stopHit {
        CutKeepsFirst(cfg.stops, raw, more);
        assert (raw + more)[..FirstStop(cfg.stops, raw)] == raw[..FirstStop(cfg.stops, raw)];
      }
      assert !stopHit ==> raw + more == raw;
    }
  }

  /** What is shown of a character that was cut after the text `taken`. */
  function HeldOf(cfg: Config, taken: Bytes): Bytes {
    if Valid(taken) then [] else cfg.sanitize(taken[|Characters(taken)|..])
  }

  /** The first `k` pieces are taken: all, or those up to the first after which the text has a stop sequence. */
  ghost predicate TakenUntil(stops: seq<Bytes>, pieces: seq<Bytes>, k: nat, stopHit: bool)
    requires k <= |pieces|
  {
    if stopHit then
      && k > 0 && FirstStop(stops, Characters(Flatten(pieces[..k]))) >= 0
      && FirstStop(stops, Characters(Flatten(pieces[..k - 1]))) < 0
    else
      k == |pieces| && FirstStop(stops, Flatten(pieces)) < 0
  }

  /** From the decoded text to the pieces: `k` of them were taken in, all unless a stop sequence fired. */
  lemma {:induction false} WholeRun(cfg: Config, pieces: seq<Bytes>, k: nat, raw: Bytes, tail: Bytes, stopHit: bool, held: Bytes, buffered: bool, end: Split)
    requires k <= |pieces| && (!stopHit ==> k == |pieces|)
    requires Decoded(Flatten(pieces[..k]), raw, tail) && held == (if tail == [] then [] else cfg.sanitize(tail))
    requires tail == [] ==> SplitDone(cfg, raw, stopHit, buffered, end)
    requires StopDone(cfg, raw, stopHit, held, buffered, end)
    requires Valid(Flatten(pieces))
    ensures raw == Characters(Flatten(pieces[..k])) && held == HeldOf(cfg, Flatten(pieces[..k]))
    ensures cfg.KeepsPartial() ==> (held == [] <==> Valid(Flatten(pieces[..k])))
    ensures SplitDone(cfg, Flatten(pieces), stopHit, buffered, end)
    ensures StopDone(cfg, raw, stopHit, held, buffered, end)
    ensures !stopHit || CutFree(cfg.stops) ==> StopDone(cfg, Flatten(pieces), stopHit, held, buffered, end)
  {
    hide SplitDone, StopDone, Valid, Held, Whole, Flatten, Characters, CutFree;
    var all, taken, rest := Flatten(pieces), Flatten(pieces[..k]), Flatten(pieces[k..]);
    TakenText(pieces, k, raw, tail);
    assert pieces[..k] + pieces[k..] == pieces;
    FlattenConcat(pieces[..k], pieces[k..]);
    assert !stopHit ==> pieces[..k] == pieces;
    assert raw + (tail + rest) == all;
    if !stopHit {
      assert rest == [] && tail == [] && raw == all by { FlattenNothing(); }
    }
    if !stopHit || CutFree(cfg.stops) {
      StopInWhole(cfg, raw, tail + rest, stopHit, held, buffered, end);
    }
    AfterStop(cfg, all, buffered, end);
    assert taken[|raw|..] == tail;
  }

  lemma FlattenNothing()
    ensures Flatten([]) == []
  {
  }

  lemma AfterStop(cfg: Config, raw: Bytes, buffered: bool, end: Split)
    ensures SplitDone(cfg, raw, true, buffered, end)
  {
  }

  /** What was decoded of the first pieces of a valid text is their whole characters. */
  lemma {:induction false} TakenText(pieces: seq<Bytes>, k: nat, raw: Bytes, tail: Bytes)
    requires k <= |pieces| && Valid(Flatten(pieces)) && Decoded(Flatten(pieces[..k]), raw, tail)
    ensures raw == Characters(Flatten(pieces[..k])) && raw + tail == Flatten(pieces[..k]) && (tail == [] <==> Valid(Flatten(pieces[..k])))
    ensures raw <= Flatten(pieces) && (tail == [] || Partial(tail))
  {
    hide Valid, Partial, Characters;
    PrefixOfAll(pieces, k);
    CharactersAre(raw, tail);
    assert pieces[..k] + pieces[k..] == pieces;
    FlattenConcat(pieces[..k], pieces[k..]);
  }

  /** Before the piece that completed a stop sequence there was none. */
  lemma {:induction false} TakenUntilStop(cfg: Config, pieces: seq<Bytes>, k: nat, raw: Bytes, tail: Bytes, before: Bytes, tail': Bytes,
                                          stopHit: bool, held: Bytes, buffered: bool, end: Split)
    requires k <= |pieces| && Valid(Flatten(pieces)) && NoTags(Flatten(pieces)) && HasStops(cfg) && !buffered
    requires Decoded(Flatten(pieces[..k]), raw, tail) && StopDone(cfg, raw, stopHit, held, buffered, end)
    requires stopHit ==> k > 0 && Decoded(Flatten(pieces[..k - 1]), before, tail') && (NoTags(before) ==> FirstStop(cfg.stops, before) < 0)
    requires !stopHit ==> k == |pieces|
    ensures TakenUntil(cfg.stops, pieces, k, stopHit) && NoTags(raw) && !end.reopened
  {
    hide FirstStop, NoTags, Valid, Decoded, Characters, Flatten;
    TakenText(pieces, k, raw, tail);
    var all := Flatten(pieces);
    assert raw + all[|raw|..] == all;
    TagsStay(raw, all[|raw|..]);
    if stopHit {
      TakenText(pieces, k - 1, before, tail');
      assert before + all[|before|..] == all;
      TagsStay(before, all[|before|..]);
    } else {
      assert pieces[..k] == pieces;
      ValidIsCharacters(all);
    }
  }

  /** All that follows for the pieces. */
  lemma {:induction false} PiecesRun(cfg: Config, pieces: seq<Bytes>, k: nat, raw: Bytes, tail: Bytes, before: Bytes, tail': Bytes,
                                     stopHit: bool, held: Bytes, buffered: bool, end: Split)
    requires k <= |pieces| && (!stopHit ==> k == |pieces|) && Decoded(Flatten(pieces[..k]), raw, tail)
    requires stopHit ==> k > 0 && Decoded(Flatten(pieces[..k - 1]), before, tail') && Unended(cfg, before)
    requires held == (if tail == [] then [] else cfg.sanitize(tail))
    requires tail == [] ==> SplitDone(cfg, raw, stopHit, buffered, end)
    requires StopDone(cfg, raw, stopHit, held, buffered, end)
    ensures Valid(Flatten(pieces)) ==>
              && raw == Characters(Flatten(pieces[..k])) && (stopHit ==> before == Characters(Flatten(pieces[..k - 1])))
              && SplitDone(cfg, Flatten(pieces), stopHit, buffered, end)
              && StopDone(cfg, raw, stopHit, held, buffered, end)
              && (CutFree(cfg.stops) ==> StopDone(cfg, Flatten(pieces), stopHit, held, buffered, end))
              && held == HeldOf(cfg, Flatten(pieces[..k]))
              && (cfg.KeepsPartial() ==> (held == [] <==> Valid(Flatten(pieces[..k]))))
    ensures Valid(Flatten(pieces)) && NoTags(Flatten(pieces)) && HasStops(cfg) && !buffered ==>
              TakenUntil(cfg.stops, pieces, k, stopHit) && NoTags(raw) && !end.reopened
  {
    hide SplitDone, StopDone, Valid, Decoded, Flatten, Characters, CutFree, FirstStop, NoTags, TakenUntil, HeldOf;
    if Valid(Flatten(pieces)) {
      WholeRun(cfg, pieces, k, raw, tail, stopHit, held, buffered, end);
      if stopHit {
        TakenText(pieces, k - 1, before, tail');
      }
      if NoTags(Flatten(pieces)) && HasStops(cfg) && !buffered {
        TakenUntilStop(cfg, pieces, k, raw, tail, before, tail', stopHit, held, buffered, end);
      }
    }
  }

  /** No stop sequence so far, in a text without tags. */
  ghost predicate Unended(cfg: Config, before: Bytes) {
    HasStops(cfg) && NoTags(before) ==> FirstStop(cfg.stops, before) < 0
  }

  lemma RunsUnended(cfg: Config, raw: Bytes, t: Flow)
    requires Stopping(cfg, raw, false, t) && !t.Buffering()
    ensures Unended(cfg, raw)
  {
  }

  /** The text state before the first piece. */
  function Start(cfg: Config): Flow {
    Flow(StartMode(cfg), false, !cfg.startedInThinking, [], [], [], false, Buffer([], false, false))
  }

  lemma NothingStops(stops: seq<Bytes>)
    requires forall q :: q in stops ==> q != []
    ensures FirstStop(stops, []) < 0
  {
    FirstStopIs(stops, []);
  }

  lemma {:induction false} StartText(cfg: Config)
    requires cfg.Ok()
    ensures Splitting(cfg, [], false, Start(cfg)) && Stopping(cfg, [], false, Start(cfg)) && Settled(cfg, [], false, Start(cfg)) && Decoded([], [], [])
  {
    assert SoughtIn(cfg, [], Start(cfg), []);
    TracksStart(cfg.startedInThinking, !cfg.startedInThinking);
    assert Valid([]);
    if HasStops(cfg) {
      NothingStops(cfg.stops);
    }
  }
}
