/** Responses that show where the emitter's promises end: each is a real run of the emitter. */
module SseCuts {
  import opened Text
  import opened Utf8
  import opened ThinkSplit
  import opened ThinkStream
  import opened StopSequence
  import opened SseEvents
  import opened SseText
  import opened SseEmitter

  const STOP: Bytes := [0x53]

  predicate StopsAtS(cfg: Config) {
    !cfg.HasTools() && cfg.stops == [STOP]
  }

  lemma Ascii(s: Bytes)
    requires forall i :: 0 <= i < |s| ==> s[i] <= 0x7F
    ensures Valid(s)
  {
    if s != [] {
      assert CodePoint(s[..1]);
      Ascii(s[1..]);
    }
  }

  lemma ShortHasNoTags(t: Bytes)
    requires |t| < |THINK_OPEN|
    ensures NoTags(t)
  {
    NextTagIsFirst(false, t, 0);
  }

  lemma FirstS(w: Bytes, n: nat)
    requires n < |w| && w[n] == 0x53 && forall i :: 0 <= i < n ==> w[i] != 0x53
    ensures FirstStop([STOP], w) == n
  {
    assert w[n..n + 1] == STOP && STOP in [STOP];
    assert StopAt([STOP], w, n);
    forall i | StopAt([STOP], w, i) ensures n <= i {
      var q :| q in [STOP] && At(w, q, i);
      assert w[i..i + 1][0] == w[i];
    }
    FirstStopAt([STOP], w, n);
  }

  lemma NoS(w: Bytes)
    requires forall i :: 0 <= i < |w| ==> w[i] != 0x53
    ensures FirstStop([STOP], w) < 0
  {
    FirstStopIs([STOP], w);
    forall i: int ensures !StopAt([STOP], w, i) {
      if 0 <= i < |w| {
        assert w[i..i + 1][0] == w[i];
      }
    }
  }

  lemma OnePiece(p: Bytes)
    ensures Flatten([p]) == p
  {
    assert [p][..0] == [];
  }

  lemma TwoPieces(p: Bytes, r: Bytes)
    ensures Flatten([p, r]) == p + r && Flatten([p, r][..1]) == p
  {
    assert [p, r][..1] == [p];
    OnePiece(p);
  }

  /** A stop sequence in the first of one or two pieces fires there. */
  lemma FiresAtOnce(stops: seq<Bytes>, pieces: seq<Bytes>, k: nat, stopHit: bool)
    requires 1 <= |pieces| <= 2 && k <= |pieces| && TakenUntil(stops, pieces, k, stopHit)
    requires FirstStop(stops, Flatten(pieces)) >= 0 && FirstStop(stops, Characters(pieces[0])) >= 0
    ensures stopHit && k == 1 && Flatten(pieces[..k]) == pieces[0]
  {
    hide FirstStop, Characters;
    OnePiece(pieces[0]);
    assert pieces[..1] == [pieces[0]];
  }

  /** What is shown of a text without tags when a stop sequence fired. */
  lemma ShownBefore(cfg: Config, raw: Bytes, held: Bytes, end: Split)
    requires HasStops(cfg) && NoTags(raw) && StopDone(cfg, raw, true, held, false, end)
    ensures FirstStop(cfg.stops, raw) >= 0
    ensures (if cfg.startedInThinking then end.reasoning else end.content) == raw[..FirstStop(cfg.stops, raw)] + held
  {
  }

  /** Responses format: the reasoning in front of a stop sequence is recorded, but no event carries it. */
  method LostReasoning(cfg: Config) returns (e: Emitter)
    requires cfg.Ok() && cfg.format.Responses? && cfg.startedInThinking && StopsAtS(cfg)
    ensures e.lost && e.reasoning == [0x61] && Observe(e.sent).reasoning == [] && !Observe(e.sent).items.Complete?
  {
    hide Valid, Characters, NoTags, TakenUntil, StopDone, SplitDone, HeldOf, CutFree, Observe, FirstStop, Flatten, cfg.Ok, Whole;
    var piece: Bytes := [0x61, 0x53];
    Ascii(piece);
    ShortHasNoTags(piece);
    FirstS(piece, 1);
    OnePiece(piece);
    ValidIsCharacters(piece);
    e := new Emitter(cfg);
    ghost var k, held, b;
    k, held, b := e.Respond([piece], 0, -1, true);
    FiresAtOnce(cfg.stops, [piece], k, e.stopHit);
    ShownBefore(cfg, piece, held, e.Parts());
    assert held == [] by { HeldNothing(cfg, piece); }
    assert piece[..1] + [] == [0x61];
  }

  lemma HeldNothing(cfg: Config, taken: Bytes)
    requires Valid(taken)
    ensures HeldOf(cfg, taken) == []
  {
  }

  /** A stop sequence fires in front of a character whose first byte came with it: what stands for that byte is still shown. */
  method CutCharacterShown(cfg: Config) returns (e: Emitter, ghost held: Bytes)
    requires cfg.Ok() && StopsAtS(cfg) && cfg.KeepsPartial()
    ensures held != [] && (if cfg.startedInThinking then e.reasoning else e.content) == held
  {
    hide Valid, Characters, NoTags, TakenUntil, StopDone, SplitDone, HeldOf, CutFree, Observe, FirstStop, Flatten, cfg.Ok, Whole, cfg.KeepsPartial;
    var first: Bytes, second: Bytes := [0x53, 0xC3], [0xA9];
    SplitCharacter(first, second);
    TwoPieces(first, second);
    FirstS(first + second, 0);
    FirstS(STOP, 0);
    ShortHasNoTags(first + second);
    ShortHasNoTags(STOP);
    e := new Emitter(cfg);
    ghost var k, b;
    k, held, b := e.Respond([first, second], 0, -1, true);
    FiresAtOnce(cfg.stops, [first, second], k, e.stopHit);
    ShownBefore(cfg, STOP, held, e.Parts());
    assert STOP[..0] + held == held;
  }

  lemma SplitCharacter(first: Bytes, second: Bytes)
    requires first == [0x53, 0xC3] && second == [0xA9]
    ensures Valid(first + second) && !Valid(first) && Characters(first) == STOP
  {
    assert Valid(STOP) by { Ascii(STOP); }
    ValidConcat(STOP, [0xC3, 0xA9]);
    ValidConcat(STOP, [0xC3]);
    CharactersAppend(STOP, [0xC3]);
    assert first == STOP + [0xC3] && first + second == STOP + [0xC3, 0xA9];
    assert CodePoint([0xC3, 0xA9]);
    ValidOne([0xC3, 0xA9]);
  }

  /** A response whose first piece has a stop sequence shows that piece up to it. */
  method FirstPieceStops(cfg: Config, pieces: seq<Bytes>) returns (e: Emitter)
    requires cfg.Ok() && HasStops(cfg) && !cfg.HasTools() && 1 <= |pieces| <= 2
    requires NoTags(Flatten(pieces)) && Valid(Flatten(pieces)) && NoTags(pieces[0]) && Valid(pieces[0])
    requires FirstStop(cfg.stops, Flatten(pieces)) >= 0 && FirstStop(cfg.stops, pieces[0]) >= 0
    ensures e.cfg == cfg && (if cfg.startedInThinking then e.reasoning else e.content) == pieces[0][..FirstStop(cfg.stops, pieces[0])]
  {
    hide Valid, Characters, NoTags, TakenUntil, StopDone, SplitDone, HeldOf, CutFree, Observe, FirstStop, Flatten, cfg.Ok, Whole, HasStops;
    ValidIsCharacters(pieces[0]);
    e := new Emitter(cfg);
    ghost var k, held, b;
    k, held, b := e.Respond(pieces, 0, -1, true);
    FiresAtOnce(cfg.stops, pieces, k, e.stopHit);
    HeldNothing(cfg, pieces[0]);
    ShownBefore(cfg, pieces[0], held, e.Parts());
    assert pieces[0][..FirstStop(cfg.stops, pieces[0])] + [] == pieces[0][..FirstStop(cfg.stops, pieces[0])];
  }

  /**
   Whenever a stop sequence hides another inside, `CutMatters` has a text `q` and a cut `m`, and that
   text, given as one piece and as two, is shown differently.
   */
  method TwoCuts(cfg: Config, q: Bytes, m: nat) returns (whole: Emitter, cut: Emitter)
    requires cfg.Ok() && HasStops(cfg) && !cfg.HasTools()
    requires NoTags(q) && Valid(q) && m < |q| && Valid(q[..m]) && FirstStop(cfg.stops, q) == 0 && FirstStop(cfg.stops, q[..m]) > 0
    ensures whole.cfg == cut.cfg == cfg
    ensures (if cfg.startedInThinking then whole.reasoning else whole.content) == []
    ensures (if cfg.startedInThinking then cut.reasoning else cut.content) == q[..FirstStop(cfg.stops, q[..m])] != []
  {
    hide Valid, NoTags, FirstStop, Flatten, cfg.Ok, HasStops;
    var a, b := q[..m], q[m..];
    assert a + b == q;
    OnePiece(q);
    TwoPieces(a, b);
    TagsStay(a, b);
    whole := FirstPieceStops(cfg, [q]);
    cut := FirstPieceStops(cfg, [a, b]);
    assert a[..FirstStop(cfg.stops, a)] == q[..FirstStop(cfg.stops, a)];
  }

  /** The emitter after `<think>`, in an answer. */
  method OpenThinking(cfg: Config) returns (e: Emitter)
    requires cfg.Ok() && cfg.format.Anthropic? && !cfg.startedInThinking && StopsAtS(cfg)
    ensures fresh(e) && e.cfg == cfg && e.Running() && !e.stopHit && e.received == e.raw == THINK_OPEN
    ensures e.mode.REASONING? && e.window == [] && e.activeKind == Some(Answer)
  {
    hide Splitting, Stopping, Settled, e.Emitting, e.CutFits, cfg.Ok;
    e := new Emitter(cfg);
    e.EmitStart();
    GiveOpen(e);
  }

  method GiveOpen(e: Emitter)
    requires e.cfg.Ok() && e.cfg.format.Anthropic? && !e.cfg.startedInThinking && StopsAtS(e.cfg)
    requires e.Running() && !e.stopHit && e.received == e.raw == e.window == e.utf8Tail == []
    modifies e
    ensures e.Running() && !e.stopHit && e.received == e.raw == THINK_OPEN
    ensures e.mode.REASONING? && e.window == [] && e.activeKind == Some(Answer)
  {
    hide Valid, NoTags, FirstStop, Decoded, Splitting, Stopping, Settled, e.Emitting, e.CutFits, e.Answered, e.DecodedAs, e.CutWhen, e.cfg.Ok;
    ghost var text := e.EmitToken(THINK_OPEN);
    assert [] + THINK_OPEN == THINK_OPEN && [] + text == text;
    DecodedWhole([], THINK_OPEN, e.raw, e.utf8Tail);
    NoS(THINK_OPEN);
    assert [] + text == THINK_OPEN;
    OpensReasoning(e.cfg, e.Now());
    AnswerOpen(e);
  }

  lemma AnswerOpen(e: Emitter)
    requires e.Emitting() && e.cfg.format.Anthropic? && !e.cfg.startedInThinking && e.reasoning == []
    ensures e.activeKind == Some(Answer)
  {
  }

  /** Messages format: a stop sequence in reasoning of which nothing has gone out yet puts its text into the open block of content. */
  method WrongKind(cfg: Config) returns (e: Emitter)
    requires cfg.Ok() && cfg.format.Anthropic? && !cfg.startedInThinking && StopsAtS(cfg)
    ensures e.mixed && e.view.blocks == Blocks(Stopped, e.blockIndex + 1, true)
  {
    hide Valid, NoTags, FirstStop, Decoded, Splitting, Stopping, Settled, StopDone, SplitDone, cfg.Ok;
    var piece: Bytes := [0x78, 0x53];
    e := OpenThinking(cfg);
    ghost var text := e.EmitToken(piece);
    DecodedWhole(THINK_OPEN, piece, e.raw, e.utf8Tail);
    Cancel(THINK_OPEN, text, piece);
    assert [] + piece == piece;
    FirstS(piece, 1);
    ghost var held := e.EmitFinish(0, -1, true);
  }

  lemma Cancel(a: Bytes, x: Bytes, y: Bytes)
    requires a + x == a + y
    ensures x == y
  {
    assert x == (a + x)[|a|..];
    assert y == (a + y)[|a|..];
  }

  /** Plain characters are decoded at once. */
  lemma DecodedWhole(before: Bytes, piece: Bytes, raw: Bytes, tail: Bytes)
    requires (forall i :: 0 <= i < |before| ==> before[i] <= 0x7F) && forall i :: 0 <= i < |piece| ==> piece[i] <= 0x7F
    requires Decoded(before + piece, raw, tail)
    ensures raw == before + piece && tail == []
  {
    Ascii(before + piece);
    ValidIsPrefix(before + piece);
  }

  /** After `<think>` alone the emitter reasons, with nothing given out or held. */
  lemma OpensReasoning(cfg: Config, t: Flow)
    requires !cfg.HasTools() && !cfg.startedInThinking && Splitting(cfg, THINK_OPEN, false, t) && Settled(cfg, THINK_OPEN, false, t)
    ensures t.Thinking() && t.window == [] && t.reasoning == [] && t.content == []
  {
    var b: byte := 0x78;
    TracksEnd(false, THINK_OPEN, t.reasoning, t.content, t.reopened, t.Thinking(), t.checked, t.answered, t.window);
    OpenAlone();
    assert t.window == [];
    assert THINK_OPEN[..|THINK_OPEN|] == THINK_OPEN && Fits([b], t.window);
    assert TracksWith(false, Front(THINK_OPEN, t.window), t.reasoning, t.content, t.reopened, t.Thinking(), t.checked, t.answered, [b]);
    ReasoningCanReopen(b);
    PlainByte(b, t.checked, t.answered);
    assert [] + [b] == [b];
  }

  lemma OpenAlone()
    ensures Whole(false, THINK_OPEN) == Split([], [], false)
  {
    assert THINK_OPEN[0..|THINK_OPEN|] == THINK_OPEN && THINK_OPEN[|THINK_OPEN|..] == [] && THINK_OPEN[..0] == [];
    assert NextTag(false, THINK_OPEN) == Found(0, THINK_OPEN, true) by { TagBytes(THINK_OPEN, 0); }
    assert Strip([]) == [];
    assert Run(true, true, true, []) == Split([], [], false);
  }

  lemma PlainByte(b: byte, checked: bool, answered: bool)
    ensures Run(false, checked, answered, [b]) == Split([], [b], false)
  {
    NextTagIsFirst(false, [b], 0);
  }
}
