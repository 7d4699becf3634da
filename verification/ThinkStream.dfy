/** Splitting while the text is still arriving: what may be decided on the window alone. */
module ThinkStream {
  import opened Text
  import opened Utf8
  import opened ThinkSplit

  /** Enough text to decide whether the reasoning starts with an opening tag. */
  predicate StripDecided(w: Bytes) {
    Spaces(w) + |THINK_OPEN| <= |w|
  }

  lemma {:induction false} SpacesAppend(w: Bytes, f: Bytes)
    requires Spaces(w) < |w|
    ensures Spaces(w + f) == Spaces(w)
  {
    var n, m := Spaces(w), Spaces(w + f);
    assert (w + f)[n] == w[n] && (m < |w| ==> (w + f)[m] == w[m]);
  }

  lemma {:induction false} TagAtAppend(reasoning: bool, w: Bytes, f: Bytes, i: int)
    requires i + |THINK_CLOSE| <= |w|
    ensures TagAt(reasoning, w + f, i) <==> TagAt(reasoning, w, i)
  {
    AtAppend(w, f, THINK_CLOSE, i);
    AtAppend(w, f, THINK_OPEN, i);
  }

  /** Both tags start with '<', and differ in the byte after it. */
  lemma {:induction false} TagBytes(s: Bytes, i: int)
    ensures At(s, THINK_CLOSE, i) ==> s[i] == 0x3C && s[i + 1] == 0x2F
    ensures At(s, THINK_OPEN, i) ==> s[i] == 0x3C && s[i + 1] == 0x74
  {
    if At(s, THINK_CLOSE, i) {
      var m := s[i..i + |THINK_CLOSE|];
      assert s[i] == m[0] && s[i + 1] == m[1];
    }
    if At(s, THINK_OPEN, i) {
      var m := s[i..i + |THINK_OPEN|];
      assert s[i] == m[0] && s[i + 1] == m[1];
    }
  }

  lemma {:induction false} FirstIs(reasoning: bool, t: Bytes, k: nat)
    requires TagAt(reasoning, t, k) && forall i :: 0 <= i < k ==> !TagAt(reasoning, t, i)
    ensures NextTag(reasoning, t) == TagFound(reasoning, t, k)
  {
    NextTagIsFirst(reasoning, t, 0);
  }

  /** A tag in the window is the same tag when more text arrives. */
  lemma {:induction false} TagFoundAppend(reasoning: bool, w: Bytes, f: Bytes, k: nat)
    requires TagAt(reasoning, w, k)
    ensures TagAt(reasoning, w + f, k) && TagFound(reasoning, w + f, k) == TagFound(reasoning, w, k)
  {
    if At(w, THINK_CLOSE, k) {
      AtAppend(w, f, THINK_CLOSE, k);
    } else {
      AtAppend(w, f, THINK_OPEN, k);
      TagBytes(w + f, k);
    }
  }

  /** A tag found in the window stays the first one when more text arrives. */
  lemma {:induction false} TagAppend(reasoning: bool, w: Bytes, f: Bytes)
    requires NextTag(reasoning, w).Found?
    ensures NextTag(reasoning, w + f) == NextTag(reasoning, w)
  {
    NextTagIsFirst(reasoning, w, 0);
    var k := NextTag(reasoning, w).pos;
    TagFoundAppend(reasoning, w, f, k);
    forall i | 0 <= i < k ensures !TagAt(reasoning, w + f, i) {
      TagAtAppend(reasoning, w, f, i);
    }
    FirstIs(reasoning, w + f, k);
  }

  function Shift(t: FirstTag, k: nat): FirstTag {
    if t.NoTag? then NoTag else Found(t.pos + k, t.tag, t.toReasoning)
  }

  lemma {:induction false} TagAtDrop(reasoning: bool, t: Bytes, k: nat, i: int)
    requires k <= |t| && k <= i
    ensures TagAt(reasoning, t, i) <==> TagAt(reasoning, t[k..], i - k)
    ensures At(t, THINK_CLOSE, i) <==> At(t[k..], THINK_CLOSE, i - k)
  {
    AtDrop(t, THINK_CLOSE, k, i);
    AtDrop(t, THINK_OPEN, k, i);
  }

  lemma {:induction false} NextTagDrop(reasoning: bool, t: Bytes, cut: nat)
    requires cut <= |t| && forall i :: 0 <= i < cut ==> !TagAt(reasoning, t, i)
    ensures NextTag(reasoning, t) == Shift(NextTag(reasoning, t[cut..]), cut)
  {
    hide NextTag, TagAt, At;
    NextTagIsFirst(reasoning, t, 0);
    NextTagIsFirst(reasoning, t[cut..], 0);
    var a, b := NextTag(reasoning, t), NextTag(reasoning, t[cut..]);
    if a.Found? {
      TagAtDrop(reasoning, t, cut, a.pos);
      AtDrop(t, THINK_CLOSE, cut, a.pos);
    }
    if b.Found? {
      TagAtDrop(reasoning, t, cut, b.pos + cut);
      AtDrop(t, THINK_CLOSE, cut, b.pos + cut);
    }
  }

  lemma {:induction false} SplitAfterTwice(x: Split, r: Bytes, c: Bytes, b: bool, r': Bytes, c': Bytes, b': bool)
    ensures x.After(r', c', b').After(r, c, b) == x.After(r + r', c + c', b || b')
  {
    assert r + (r' + x.reasoning) == r + r' + x.reasoning;
    assert c + (c' + x.content) == c + c' + x.content;
  }

  lemma {:induction false} RunAtTag(reasoning: bool, checked: bool, answered: bool, t: Bytes, k: nat, tag: Bytes, next: bool,
                                    rest: Bytes, p: Split, answered': bool)
    requires (reasoning ==> checked) && NextTag(reasoning, t) == Found(k, tag, next) && rest == t[k + |tag|..]
    requires p == Part(reasoning, answered, t[..k]) && answered' == (answered || p.content != [])
    ensures Run(reasoning, checked, answered, t) == Run(next, checked, answered', rest).After(p.reasoning, p.content, p.reopened)
  {
    hide NextTag, Strip;
  }

  lemma {:induction false} PartConcat(reasoning: bool, answered: bool, a: Bytes, b: Bytes)
    ensures var p := Part(reasoning, answered, a);
            var q := Part(reasoning, answered || p.content != [], b);
            && Part(reasoning, answered, a + b) == Split(p.reasoning + q.reasoning, p.content + q.content, p.reopened || q.reopened)
            && (Part(reasoning, answered, a + b).content != [] <==> p.content != [] || q.content != [])
  {
  }

  /** Text that holds no start of a tag may be given out ahead of the rest. */
  lemma {:induction false} RunDrop(reasoning: bool, checked: bool, answered: bool, a: Bytes, u: Bytes)
    requires (reasoning ==> checked) && NextTag(reasoning, a + u) == Shift(NextTag(reasoning, u), |a|)
    ensures var p := Part(reasoning, answered, a);
            Run(reasoning, checked, answered, a + u) ==
            Run(reasoning, checked, answered || p.content != [], u).After(p.reasoning, p.content, p.reopened)
  {
    if NextTag(reasoning, u).Found? {
      RunDropTagged(reasoning, checked, answered, a, u);
    } else {
      PartConcat(reasoning, answered, a, u);
    }
  }

  lemma {:induction false} RunDropTagged(reasoning: bool, checked: bool, answered: bool, a: Bytes, u: Bytes)
    requires (reasoning ==> checked) && NextTag(reasoning, u).Found?
    requires NextTag(reasoning, a + u) == Shift(NextTag(reasoning, u), |a|)
    ensures var p := Part(reasoning, answered, a);
            Run(reasoning, checked, answered, a + u) ==
            Run(reasoning, checked, answered || p.content != [], u).After(p.reasoning, p.content, p.reopened)
  {
    var Found(k, tag, next) := NextTag(reasoning, u);
    var p := Part(reasoning, answered, a);
    var answered' := answered || p.content != [];
    var rest, q := u[k + |tag|..], Part(reasoning, answered', u[..k]);
    CutBehind(a, u, k, |tag|);
    PartConcat(reasoning, answered, a, u[..k]);
    var pq := Split(p.reasoning + q.reasoning, p.content + q.content, p.reopened || q.reopened);
    var answered'' := answered' || q.content != [];
    RunAtTag(reasoning, checked, answered, a + u, |a| + k, tag, next, rest, pq, answered'');
    RunAtTag(reasoning, checked, answered', u, k, tag, next, rest, q, answered'');
    Last(Run(reasoning, checked, answered, a + u), Run(reasoning, checked, answered', u), Run(next, checked, answered'', rest), p, q, pq);
  }
  lemma {:induction false} Last(rt: Split, ru: Split, x: Split, p: Split, q: Split, pq: Split)
    requires rt == x.After(pq.reasoning, pq.content, pq.reopened)
    requires ru == x.After(q.reasoning, q.content, q.reopened)
    requires pq == Split(p.reasoning + q.reasoning, p.content + q.content, p.reopened || q.reopened)
    ensures rt == ru.After(p.reasoning, p.content, p.reopened)
  {
    SplitAfterTwice(x, p.reasoning, p.content, p.reopened, q.reasoning, q.content, q.reopened);
  }

  lemma CutBehind(a: Bytes, u: Bytes, k: nat, n: nat)
    requires k + n <= |u|
    ensures (a + u)[..|a| + k] == a + u[..k] && (a + u)[|a| + k + n..] == u[k + n..]
  {
  }

  /** The mode such text leaves is that of the rest alone. */
  lemma {:induction false} EndsDrop(reasoning: bool, checked: bool, a: Bytes, u: Bytes)
    requires (reasoning ==> checked) && NextTag(reasoning, a + u) == Shift(NextTag(reasoning, u), |a|)
    ensures Ends(reasoning, checked, a + u) == Ends(reasoning, checked, u)
  {
    if NextTag(reasoning, u).Found? {
      var Found(k, tag, next) := NextTag(reasoning, u);
      CutBehind(a, u, k, |tag|);
    }
  }

  // ── The streaming invariant ──

  predicate Ending(w: Bytes, raw: Bytes) {
    |w| <= |raw| && raw[|raw| - |w|..] == w
  }

  /** The text before the window. */
  function Front(raw: Bytes, w: Bytes): Bytes
    requires |w| <= |raw|
  {
    raw[..|raw| - |w|]
  }

  /** The window with more text after it, or the window cut short. */
  predicate Fits(g: Bytes, w: Bytes) {
    g <= w || w <= g
  }

  /**
   Whatever text still follows, or if the text stopped inside the window: the split of all of it is the
   reasoning `r` and content `c` given out so far and then the split of what stands in the window's place.
   */
  ghost predicate Tracks(start: bool, raw: Bytes, r: Bytes, c: Bytes, reopened: bool,
                         reasoning: bool, checked: bool, answered: bool, w: Bytes) {
    Ending(w, raw) && forall g :: Fits(g, w) ==> TracksWith(start, Front(raw, w), r, c, reopened, reasoning, checked, answered, g)
  }

  ghost predicate TracksWith(start: bool, front: Bytes, r: Bytes, c: Bytes, reopened: bool,
                             reasoning: bool, checked: bool, answered: bool, g: Bytes) {
    && Whole(start, front + g) == Run(reasoning, checked, answered, g).After(r, c, reopened)
    && Ends(start, false, front + g) == Ends(reasoning, checked, g)
  }

  lemma {:induction false} TracksStart(start: bool, answered: bool)
    requires answered == !start
    ensures Tracks(start, [], [], [], false, start, false, answered, [])
  {
    hide Run, Ends;
    forall g | Fits(g, []) ensures TracksWith(start, [], [], [], false, start, false, answered, g) {
      assert [] + g == g;
      var x := Whole(start, g);
      assert [] + x.reasoning == x.reasoning && [] + x.content == x.content;
    }
  }

  lemma {:induction false} TracksMore(start: bool, raw: Bytes, r: Bytes, c: Bytes, reopened: bool,
                                      reasoning: bool, checked: bool, answered: bool, w: Bytes, piece: Bytes)
    requires Tracks(start, raw, r, c, reopened, reasoning, checked, answered, w)
    ensures Tracks(start, raw + piece, r, c, reopened, reasoning, checked, answered, w + piece)
  {
    hide TracksWith;
    assert Front(raw + piece, w + piece) == Front(raw, w);
    forall g | Fits(g, w + piece) ensures TracksWith(start, Front(raw, w), r, c, reopened, reasoning, checked, answered, g) {
      FitsLess(g, w, piece);
    }
  }

  lemma FitsLess(g: Bytes, w: Bytes, piece: Bytes)
    requires Fits(g, w + piece)
    ensures Fits(g, w)
  {
    if |g| <= |w| {
      assert g <= w + piece && forall i :: 0 <= i < |g| ==> g[i] == (w + piece)[i] == w[i];
    } else {
      assert forall i :: 0 <= i < |w| ==> g[i] == (w + piece)[i] == w[i];
    }
  }

  /** What fits the window short of its first `n` bytes, with them in front. */
  lemma FitsBehind(g: Bytes, w: Bytes, n: nat)
    requires n <= |w| && Fits(g, w[n..])
    ensures Fits(w[..n] + g, w)
  {
    assert w == w[..n] + w[n..];
  }

  lemma FrontMore(raw: Bytes, w: Bytes, n: nat, g: Bytes)
    requires Ending(w, raw) && n <= |w|
    ensures Ending(w[n..], raw) && Front(raw, w[n..]) + g == Front(raw, w) + (w[..n] + g)
  {
    var k := |raw| - |w|;
    assert raw[k + n..] == raw[k..][n..] && raw[..k + n] == raw[..k] + raw[k..][..n];
    assert Front(raw, w) + w[..n] + g == Front(raw, w) + (w[..n] + g);
  }

  lemma {:induction false} TracksStrip(start: bool, raw: Bytes, r: Bytes, c: Bytes, reopened: bool, answered: bool, w: Bytes)
    requires Tracks(start, raw, r, c, reopened, true, false, answered, w) && StripDecided(w)
    ensures Tracks(start, raw, r, c, reopened, true, true, answered, Strip(w))
  {
    var n := |w| - |Strip(w)|;
    assert Strip(w) == w[n..];
    FrontMore(raw, w, n, []);
    forall g | Fits(g, w[n..]) ensures TracksWith(start, Front(raw, w[n..]), r, c, reopened, true, true, answered, g) {
      FitsBehind(g, w, n);
      FrontMore(raw, w, n, g);
      assert TracksWith(start, Front(raw, w), r, c, reopened, true, false, answered, w[..n] + g);
      StripFits(w, n, g);
    }
  }

  /** Whether there is something to strip does not change when text follows, or is cut off behind it. */
  lemma {:induction false} StripFits(w: Bytes, n: nat, g: Bytes)
    requires StripDecided(w) && n == |w| - |Strip(w)| && Fits(g, w[n..])
    ensures Strip(w[..n] + g) == g
  {
    var t, k := w[..n] + g, Spaces(w);
    if n > 0 {
      assert w[k..n] == THINK_OPEN;
      StripsSame(w, n, k, t, g);
    } else {
      assert t == g && w[0..] == w;
      NoStrip(w, g);
    }
  }

  lemma {:induction false} StripsSame(w: Bytes, n: nat, k: nat, t: Bytes, g: Bytes)
    requires k == Spaces(w) && n == k + |THINK_OPEN| <= |w| && w[k..n] == THINK_OPEN && t == w[..n] + g
    ensures Strip(t) == g
  {
    assert t[..n] == w[..n] && t[n..] == g && t[k..n] == w[k..n];
    forall i | 0 <= i <= k ensures t[i] == w[i] {
      assert t[i] == t[..n][i] && w[i] == w[..n][i];
    }
    SpacesAre(t, k);
  }

  lemma {:induction false} NoStrip(w: Bytes, g: Bytes)
    requires StripDecided(w) && !At(w, THINK_OPEN, Spaces(w)) && Fits(g, w)
    ensures Strip(g) == g
  {
    var m, k := Spaces(g), Spaces(w);
    if At(g, THINK_OPEN, m) {
      TagBytes(g, m);
      if |g| <= |w| {
        assert w == g + w[|g|..];
        AtAppend(g, w[|g|..], THINK_OPEN, m);
        SpacesAppend(g, w[|g|..]);
      } else {
        assert g == w + g[|w|..];
        SpacesAppend(w, g[|w|..]);
        AtAppend(w, g[|w|..], THINK_OPEN, m);
      }
    }
  }

  lemma {:induction false} SpacesAre(t: Bytes, n: nat)
    requires n < |t| && (forall i :: 0 <= i < n ==> LeadingSpace(t[i])) && !LeadingSpace(t[n])
    ensures Spaces(t) == n
  {
  }

  /** Giving out `p` for the first `n` bytes of the window follows the split. */
  ghost predicate Steps(reasoning: bool, checked: bool, answered: bool, w: Bytes, p: Split, reasoning': bool, n: nat)
    requires n <= |w|
  {
    forall g :: Fits(g, w[n..]) ==> StepsWith(reasoning, checked, answered, w[..n], p, reasoning', g)
  }

  ghost predicate StepsWith(reasoning: bool, checked: bool, answered: bool, front: Bytes, p: Split, reasoning': bool, g: Bytes) {
    && Run(reasoning, checked, answered, front + g) ==
       Run(reasoning', checked, answered || p.content != [], g).After(p.reasoning, p.content, p.reopened)
    && Ends(reasoning, checked, front + g) == Ends(reasoning', checked, g)
  }

  lemma {:induction false} TracksStep(start: bool, raw: Bytes, r: Bytes, c: Bytes, reopened: bool, reasoning: bool, checked: bool,
                                      answered: bool, w: Bytes, p: Split, reasoning': bool, n: nat)
    requires Tracks(start, raw, r, c, reopened, reasoning, checked, answered, w)
    requires n <= |w| && Steps(reasoning, checked, answered, w, p, reasoning', n)
    ensures Tracks(start, raw, r + p.reasoning, c + p.content, reopened || p.reopened,
                   reasoning', checked, answered || p.content != [], w[n..])
  {
    hide Run, Ends;
    var r', c', re', ans' := r + p.reasoning, c + p.content, reopened || p.reopened, answered || p.content != [];
    FrontMore(raw, w, n, []);
    forall g | Fits(g, w[n..]) ensures TracksWith(start, Front(raw, w[n..]), r', c', re', reasoning', checked, ans', g) {
      FitsBehind(g, w, n);
      FrontMore(raw, w, n, g);
      assert TracksWith(start, Front(raw, w), r, c, reopened, reasoning, checked, answered, w[..n] + g);
      assert StepsWith(reasoning, checked, answered, w[..n], p, reasoning', g);
      SplitAfterTwice(Run(reasoning', checked, ans', g), r, c, reopened, p.reasoning, p.content, p.reopened);
    }
  }

  /** The first tag of the window is the first of the window cut behind it. */
  lemma {:induction false} TagPrefix(reasoning: bool, w: Bytes)
    requires NextTag(reasoning, w).Found?
    ensures var f := NextTag(reasoning, w); NextTag(reasoning, w[..f.pos + |f.tag|]) == f
  {
    NextTagIsFirst(reasoning, w, 0);
    var Found(k, tag, next) := NextTag(reasoning, w);
    var w0, f := w[..k + |tag|], w[k + |tag|..];
    assert w == w0 + f;
    AtAppend(w0, f, tag, k);
    if tag == THINK_OPEN {
      TagBytes(w, k);
    }
    forall i | 0 <= i < k ensures !TagAt(reasoning, w0, i) {
      if TagAt(reasoning, w0, i) {
        TagFoundAppend(reasoning, w0, f, i);
      }
    }
    FirstIs(reasoning, w0, k);
  }

  /** Acting on the first tag of the window. */
  lemma {:induction false} StepAtTag(reasoning: bool, checked: bool, answered: bool, w: Bytes)
    requires (reasoning ==> checked) && NextTag(reasoning, w).Found?
    ensures var Found(k, tag, next) := NextTag(reasoning, w);
            Steps(reasoning, checked, answered, w, Part(reasoning, answered, w[..k]), next, k + |tag|)
  {
    var Found(k, tag, next) := NextTag(reasoning, w);
    var p, n := Part(reasoning, answered, w[..k]), k + |tag|;
    TagPrefix(reasoning, w);
    forall g | Fits(g, w[n..]) ensures StepsWith(reasoning, checked, answered, w[..n], p, next, g) {
      TagAppend(reasoning, w[..n], g);
      assert (w[..n] + g)[..k] == w[..k] && (w[..n] + g)[n..] == g;
      RunAtTag(reasoning, checked, answered, w[..n] + g, k, tag, next, g, p, answered || p.content != []);
    }
  }

  /** No tag starts in the first `cut` bytes of a quiet window, whatever follows, or if the text stops. */
  lemma {:induction false} NoTagBefore(reasoning: bool, w: Bytes, g: Bytes, cut: nat)
    requires NextTag(reasoning, w).NoTag? && cut + |THINK_CLOSE| <= |w| && Fits(g, w)
    ensures forall i :: 0 <= i < cut ==> !TagAt(reasoning, g, i)
  {
    NextTagIsFirst(reasoning, w, 0);
    forall i | 0 <= i < cut ensures !TagAt(reasoning, g, i) {
      if |g| <= |w| {
        assert w == g + w[|g|..];
        if TagAt(reasoning, g, i) {
          TagFoundAppend(reasoning, g, w[|g|..], i);
        }
      } else {
        assert g == w + g[|w|..];
        TagAtAppend(reasoning, w, g[|w|..], i);
      }
    }
  }

  /** Giving out a prefix that leaves the holdback in the window. */
  lemma {:induction false} StepSafePrefix(reasoning: bool, checked: bool, answered: bool, w: Bytes, cut: nat)
    requires (reasoning ==> checked) && NextTag(reasoning, w).NoTag? && cut + |THINK_CLOSE| <= |w|
    ensures Steps(reasoning, checked, answered, w, Part(reasoning, answered, w[..cut]), reasoning, cut)
    ensures NextTag(reasoning, w[cut..]).NoTag?
  {
    hide Run, Ends, NextTag;
    var p := Part(reasoning, answered, w[..cut]);
    forall g | Fits(g, w[cut..]) ensures StepsWith(reasoning, checked, answered, w[..cut], p, reasoning, g) {
      FitsBehind(g, w, cut);
      NoTagBefore(reasoning, w, w[..cut] + g, cut);
      NextTagDrop(reasoning, w[..cut] + g, cut);
      assert (w[..cut] + g)[cut..] == g;
      RunDrop(reasoning, checked, answered, w[..cut], g);
      EndsDrop(reasoning, checked, w[..cut], g);
    }
    NoTagBefore(reasoning, w, w, cut);
    NextTagDrop(reasoning, w, cut);
  }

  /** A window in which nothing more can be decided yet. */
  predicate Quiet(reasoning: bool, checked: bool, w: Bytes) {
    if reasoning && !checked then !StripDecided(w) else NextTag(reasoning, w).NoTag?
  }

  lemma {:induction false} ShortHasNoTag(w: Bytes)
    requires !StripDecided(w)
    ensures Strip(w) == w && NextTag(true, w).NoTag?
  {
    NextTagIsFirst(true, w, 0);
    var n := NextTag(true, w);
    if n.Found? {
      TagBytes(w, n.pos);
    }
  }

  /** At the end of the stream a quiet window is given out as it is. */
  lemma {:induction false} TracksEnd(start: bool, raw: Bytes, r: Bytes, c: Bytes, reopened: bool,
                                     reasoning: bool, checked: bool, answered: bool, w: Bytes)
    requires Tracks(start, raw, r, c, reopened, reasoning, checked, answered, w) && Quiet(reasoning, checked, w)
    ensures var p := Part(reasoning, answered, w);
            Whole(start, raw) == Split(r + p.reasoning, c + p.content, reopened || p.reopened)
  {
    assert w[..|w|] == w && raw[..|raw|] == raw;
    TracksCut(start, raw, r, c, reopened, reasoning, checked, answered, w, |w|);
  }

  /** If the text stopped after the first `n` bytes of the window, which hold nothing to act on, they would be given out as they are. */
  lemma {:induction false} TracksCut(start: bool, raw: Bytes, r: Bytes, c: Bytes, reopened: bool,
                                     reasoning: bool, checked: bool, answered: bool, w: Bytes, n: nat)
    requires Tracks(start, raw, r, c, reopened, reasoning, checked, answered, w) && n <= |w| && Quiet(reasoning, checked, w[..n])
    ensures var p := Part(reasoning, answered, w[..n]);
            Whole(start, raw[..|raw| - |w| + n]) == Split(r + p.reasoning, c + p.content, reopened || p.reopened)
    ensures Ends(start, false, raw[..|raw| - |w| + n]) == reasoning
  {
    hide Run, Ends, Quiet, Ending, Whole, Part;
    FrontCut(raw, w, n);
    assert TracksWith(start, Front(raw, w), r, c, reopened, reasoning, checked, answered, w[..n]);
    QuietRuns(reasoning, checked, answered, w[..n]);
  }

  lemma FrontCut(raw: Bytes, w: Bytes, n: nat)
    requires Ending(w, raw) && n <= |w|
    ensures Fits(w[..n], w) && |w| <= |raw| && Front(raw, w) + w[..n] == raw[..|raw| - |w| + n]
  {
    var k := |raw| - |w|;
    assert raw[..k + n] == raw[..k] + raw[k..][..n];
  }

  lemma {:induction false} QuietRuns(reasoning: bool, checked: bool, answered: bool, w: Bytes)
    requires Quiet(reasoning, checked, w)
    ensures Run(reasoning, checked, answered, w) == Part(reasoning, answered, w) && Ends(reasoning, checked, w) == reasoning
  {
    if reasoning && !checked {
      ShortHasNoTag(w);
      assert Run(true, true, answered, w) == Part(true, answered, w) && Ends(true, true, w);
    }
  }

  /** The emitter's searches find the first tag that matters. */
  lemma {:induction false} FindsNextTag(reasoning: bool, w: Bytes)
    ensures var o, c := if reasoning then -1 else Find(w, THINK_OPEN, 0), Find(w, THINK_CLOSE, 0);
            NextTag(reasoning, w) ==
            if o < 0 && c < 0 then NoTag else if c < 0 || 0 <= o < c then Found(o, THINK_OPEN, true) else Found(c, THINK_CLOSE, false)
  {
    NextTagIsFirst(reasoning, w, 0);
    var o, c := if reasoning then -1 else Find(w, THINK_OPEN, 0), Find(w, THINK_CLOSE, 0);
    if o >= 0 {
      TagBytes(w, o);
      assert TagAt(reasoning, w, o);
    }
    if c >= 0 {
      assert TagAt(reasoning, w, c);
    }
  }

  /** A response that answers from the start and then thinks: reasoning goes out after the message was opened. */
  lemma ReasoningCanReopen(b: byte)
    ensures Whole(false, THINK_OPEN + [b]) == Split([b], [], true)
  {
    var t, rest := THINK_OPEN + [b], [b];
    assert t[0..|THINK_OPEN|] == THINK_OPEN && t[|THINK_OPEN|..] == rest && t[..0] == [];
    assert TagAt(false, t, 0) && t[1] != THINK_CLOSE[1];
    assert NextTag(false, t) == Found(0, THINK_OPEN, true) by { TagBytes(t, 0); }
    ShortHasNoTag(rest);
    assert Run(true, true, true, rest) == Part(true, true, rest);
    assert Run(true, false, true, rest) == Split(rest, [], true);
    assert Whole(false, t) == Run(true, false, true, rest).After([], [], false);
    assert [] + rest == rest;
  }
}
