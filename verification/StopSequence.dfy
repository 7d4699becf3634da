/** Finding stop sequences in a stream through a window that holds back at least their length. */
module StopSequence {
  import opened Text
  import opened Utf8
  import opened ThinkSplit

  /** Earliest occurrence of any of the stop sequences in the window; -1 if none. */
  function FirstStop(stops: seq<Bytes>, w: Bytes): (best: int)
    ensures best >= 0 ==> best <= |w|
  {
    if stops == [] then -1 else
    var rest, pos := FirstStop(stops[..|stops| - 1], w), Find(w, stops[|stops| - 1], 0);
    if pos >= 0 && (rest < 0 || pos < rest) then pos else rest
  }

  lemma NoStops(w: Bytes)
    ensures FirstStop([], w) == -1
  {
  }

  /** Longest stop sequence: the holdback it asks for. */
  function Longest(stops: seq<Bytes>): (n: nat)
    ensures forall i :: 0 <= i < |stops| ==> |stops[i]| <= n
  {
    if stops == [] then 0 else
    var rest, last := Longest(stops[..|stops| - 1]), |stops[|stops| - 1]|;
    if last > rest then last else rest
  }

  /** One of the stop sequences occurs at `i`. */
  ghost predicate StopAt(stops: seq<Bytes>, w: Bytes, i: int) {
    exists q :: q in stops && At(w, q, i)
  }

  /** The search finds the first position of any of them. */
  lemma {:induction false} FirstStopIs(stops: seq<Bytes>, w: Bytes)
    ensures var best := FirstStop(stops, w);
            best >= -1 && (best >= 0 ==> StopAt(stops, w, best)) && forall i :: StopAt(stops, w, i) ==> 0 <= best <= i
  {
    if stops != [] {
      var front, last := stops[..|stops| - 1], stops[|stops| - 1];
      FirstStopIs(front, w);
      assert stops == front + [last];
      if StopAt(front, w, FirstStop(front, w)) {
        var q :| q in front && At(w, q, FirstStop(front, w));
        assert q in stops;
      }
      forall i | StopAt(stops, w, i) ensures 0 <= FirstStop(stops, w) <= i {
        var q :| q in stops && At(w, q, i);
        if q in front {
          assert StopAt(front, w, i);
        }
      }
    }
  }

  /** The first position is the only one with a stop sequence there and none before. */
  lemma FirstStopAt(stops: seq<Bytes>, w: Bytes, n: int)
    requires n >= -1 && (n >= 0 ==> StopAt(stops, w, n)) && forall i :: StopAt(stops, w, i) ==> 0 <= n <= i
    ensures FirstStop(stops, w) == n
  {
    FirstStopIs(stops, w);
  }

  lemma StopAtAppend(stops: seq<Bytes>, a: Bytes, b: Bytes, i: int)
    requires forall q :: q in stops ==> i + |q| <= |a|
    ensures StopAt(stops, a + b, i) <==> StopAt(stops, a, i)
  {
    forall q | q in stops ensures At(a + b, q, i) <==> At(a, q, i) {
      AtAppend(a, b, q, i);
    }
  }

  lemma StopStays(stops: seq<Bytes>, a: Bytes, b: Bytes, i: int)
    requires StopAt(stops, a, i)
    ensures StopAt(stops, a + b, i)
  {
    var q :| q in stops && At(a, q, i);
    AtAppend(a, b, q, i);
  }

  lemma StopAtDrop(stops: seq<Bytes>, t: Bytes, k: nat, i: int)
    requires k <= |t| && k <= i
    ensures StopAt(stops, t, i) <==> StopAt(stops, t[k..], i - k)
  {
    forall q | q in stops ensures At(t, q, i) <==> At(t[k..], q, i - k) {
      AtDrop(t, q, k, i);
    }
  }

  /**
   No stop sequence so far: `shown` was given out, `w` is held, and whatever was given out is at
   least the length of any of them behind the end of the text.
   */
  ghost predicate Unstopped(stops: seq<Bytes>, raw: Bytes, shown: Bytes, w: Bytes) {
    shown + w == raw && FirstStop(stops, raw) < 0 && (shown == [] || forall q :: q in stops ==> |shown| + |q| <= |raw|)
  }

  /** A new piece: the window alone shows whether and where the whole text has its first stop sequence. */
  lemma {:induction false} WindowSuffices(stops: seq<Bytes>, raw: Bytes, shown: Bytes, w: Bytes, piece: Bytes)
    requires Unstopped(stops, raw, shown, w)
    ensures var best := FirstStop(stops, w + piece);
            && (best < 0 ==> Unstopped(stops, raw + piece, shown, w + piece))
            && (best >= 0 ==> FirstStop(stops, raw + piece) == |shown| + best && shown + (w + piece)[..best] == (raw + piece)[..|shown| + best])
  {
    hide FirstStop, StopAt;
    var text, best := raw + piece, FirstStop(stops, w + piece);
    assert text[|shown|..] == w + piece && shown + (w + piece) == text;
    FirstStopIs(stops, raw);
    FirstStopIs(stops, w + piece);
    forall i | StopAt(stops, text, i) ensures 0 <= best && |shown| + best <= i {
      if i < |shown| {
        StopAtAppend(stops, raw, piece, i);
      } else {
        StopAtDrop(stops, text, |shown|, i);
      }
    }
    if best >= 0 {
      StopAtDrop(stops, text, |shown|, |shown| + best);
      FirstStopAt(stops, text, |shown| + best);
      assert text[..|shown| + best] == shown + (w + piece)[..best];
    } else {
      FirstStopAt(stops, text, -1);
    }
  }

  /** A stop sequence found when something was shown already leaves more to show. */
  lemma {:induction false} FoundLate(stops: seq<Bytes>, raw: Bytes, shown: Bytes, w: Bytes, piece: Bytes)
    requires Unstopped(stops, raw, shown, w) && FirstStop(stops, w + piece) == 0
    ensures shown == []
  {
    hide FirstStop;
    FirstStopIs(stops, w + piece);
    var q :| q in stops && At(w + piece, q, 0);
    if shown != [] {
      AtAppend(w, piece, q, 0);
      AtDrop(raw, q, |shown|, |shown|);
      assert raw[|shown|..] == w;
      assert StopAt(stops, raw, |shown|);
      FirstStopIs(stops, raw);
    }
  }

  /** Giving out all but at least the longest stop sequence of the window keeps this so. */
  lemma GiveOut(stops: seq<Bytes>, raw: Bytes, shown: Bytes, w: Bytes, cut: nat)
    requires Unstopped(stops, raw, shown, w) && cut + Longest(stops) <= |w|
    ensures Unstopped(stops, raw, shown + w[..cut], w[cut..])
  {
    assert shown + w[..cut] + w[cut..] == shown + w;
  }

  // ── When the cut of the stream matters ──

  /** `p` lies strictly inside `q`. */
  predicate Inside(q: Bytes, p: Bytes, k: nat) {
    0 < k && k + |p| < |q| && At(q, p, k)
  }

  /** No other stop sequence is a beginning of `q`. */
  predicate Minimal(stops: seq<Bytes>, q: Bytes) {
    forall r :: r in stops && |r| < |q| ==> !At(q, r, 0)
  }

  /** No stop sequence without tags, of which no other is a beginning, has one strictly inside it. */
  ghost predicate CutFree(stops: seq<Bytes>) {
    forall q, p, k :: q in stops && p in stops && NoTags(q) && Minimal(stops, q) ==> !Inside(q, p, k)
  }

  /** The text up to `m` has its first stop sequence where the whole text has, if it has one. */
  ghost predicate CutAgrees(stops: seq<Bytes>, t: Bytes, m: nat)
    requires m <= |t|
  {
    FirstStop(stops, t[..m]) >= 0 ==> FirstStop(stops, t) == FirstStop(stops, t[..m])
  }

  /** That holds for every text without tags and every cut between characters. */
  ghost predicate CutIndependent(stops: seq<Bytes>) {
    forall t, m :: 0 <= m <= |t| && NoTags(t) && Valid(t) && Valid(t[..m]) ==> CutAgrees(stops, t, m)
  }

  /** Part of a text without tags has none. */
  lemma {:induction false} PartHasNoTags(t: Bytes, i: nat, q: Bytes)
    requires NoTags(t) && At(t, q, i)
    ensures NoTags(q)
  {
    forall k: int | TagAt(false, q, k) ensures TagAt(false, t, i + k) {
      if At(q, THINK_CLOSE, k) {
        InPart(t, i, q, THINK_CLOSE, k);
      } else {
        InPart(t, i, q, THINK_OPEN, k);
      }
    }
    hide TagAt;
    NextTagIsFirst(false, q, 0);
    NextTagIsFirst(false, t, 0);
  }

  lemma InPart(t: Bytes, i: nat, q: Bytes, p: Bytes, k: int)
    requires At(t, q, i) && At(q, p, k)
    ensures At(t, p, i + k)
  {
    var part := t[i..i + |q|];
    assert part == t[i..][..|q|];
    assert part[k..k + |p|] == t[i..][k..k + |p|] == t[i + k..i + k + |p|];
  }

  lemma {:induction false} TagsStay(a: Bytes, b: Bytes)
    requires NoTags(a + b)
    ensures NoTags(a)
  {
    assert (a + b)[0..|a|] == a;
    PartHasNoTags(a + b, 0, a);
  }

  /** The shortest stop sequence at a position. */
  lemma {:induction false} ShortestAt(stops: seq<Bytes>, t: Bytes, i: nat, some: Bytes) returns (q: Bytes)
    requires some in stops && At(t, some, i)
    ensures q in stops && At(t, q, i) && Minimal(stops, q)
    decreases |some|
  {
    if Minimal(stops, some) {
      return some;
    }
    var r :| r in stops && |r| < |some| && At(some, r, 0);
    InPart(t, i, some, r, 0);
    q := ShortestAt(stops, t, i, r);
  }

  /** Then what follows a first stop sequence cannot bring an earlier one. */
  lemma {:induction false} CutKeepsFirst(stops: seq<Bytes>, a: Bytes, b: Bytes)
    requires CutFree(stops) && NoTags(a + b) && FirstStop(stops, a) >= 0
    ensures FirstStop(stops, a + b) == FirstStop(stops, a)
  {
    hide FirstStop, NoTags, Minimal, CutFree;
    var t, f, g := a + b, FirstStop(stops, a), FirstStop(stops, a + b);
    FirstStopIs(stops, a);
    FirstStopIs(stops, t);
    StopStays(stops, a, b, f);
    if g < f {
      var some :| some in stops && At(t, some, g);
      var p :| p in stops && At(a, p, f);
      var q := ShortestAt(stops, t, g, some);
      if g + |q| <= |a| {
        AtAppend(a, b, q, g);
      }
      assert g + |q| <= |a| ==> StopAt(stops, a, g);
      PartHasNoTags(t, g, q);
      LiesInside(t, q, g, p, f, a, b);
      NotCutFree(stops, q, p, f - g);
    }
  }

  lemma LiesInside(t: Bytes, q: Bytes, g: nat, p: Bytes, f: nat, a: Bytes, b: Bytes)
    requires t == a + b && At(t, q, g) && At(a, p, f) && g < f && |a| < g + |q|
    ensures Inside(q, p, f - g)
  {
    AtAppend(a, b, p, f);
    var part := t[g..g + |q|];
    assert part == t[g..][..|q|];
    assert part[f - g..f - g + |p|] == t[g..][f - g..f - g + |p|] == t[f..f + |p|];
  }

  lemma NotCutFree(stops: seq<Bytes>, q: Bytes, p: Bytes, k: nat)
    requires q in stops && p in stops && NoTags(q) && Minimal(stops, q) && Inside(q, p, k)
    ensures !CutFree(stops)
  {
  }

  /** Otherwise there is a text whose first stop sequence depends on the cut. */
  lemma {:induction false} CutMatters(stops: seq<Bytes>) returns (q: Bytes, m: nat)
    requires !CutFree(stops) && forall p :: p in stops ==> p != [] && Valid(p)
    ensures NoTags(q) && Valid(q) && m < |q| && Valid(q[..m])
    ensures FirstStop(stops, q) == 0 && FirstStop(stops, q[..m]) > 0
  {
    hide NoTags, FirstStop, Minimal, Valid;
    var q': Bytes, p: Bytes, k: nat :| q' in stops && p in stops && NoTags(q') && Minimal(stops, q') && Inside(q', p, k);
    q, m := q', k + |p|;
    Synchronised(q, p, k);
    assert q[0..|q|] == q;
    FirstAtStart(stops, q);
    assert q[..m] + q[m..] == q;
    InnerFirst(stops, q, p, k, q[..m], q[m..]);
  }

  lemma FirstAtStart(stops: seq<Bytes>, q: Bytes)
    requires q in stops
    ensures FirstStop(stops, q) == 0
  {
    assert q[0..|q|] == q;
    assert At(q, q, 0) && StopAt(stops, q, 0);
    FirstStopIs(stops, q);
  }

  /** The beginning `a` of `q` that ends with the inner stop sequence has its first one after its start. */
  lemma InnerFirst(stops: seq<Bytes>, q: Bytes, p: Bytes, k: nat, a: Bytes, b: Bytes)
    requires p in stops && Minimal(stops, q) && Inside(q, p, k) && q == a + b && |a| == k + |p|
    ensures FirstStop(stops, a) > 0
  {
    AtAppend(a, b, p, k);
    assert StopAt(stops, a, k);
    FirstStopIs(stops, a);
    forall r | r in stops ensures !At(a, r, 0) {
      if |r| <= |a| {
        AtAppend(a, b, r, 0);
      }
    }
    assert !StopAt(stops, a, 0);
  }

  /** For texts without tags, the cut of the stream is without effect exactly if no stop sequence hides another inside. */
  lemma {:induction false} CutFreeIsExact(stops: seq<Bytes>)
    requires forall p :: p in stops ==> p != [] && Valid(p)
    ensures CutFree(stops) <==> CutIndependent(stops)
  {
    hide FirstStop, NoTags, Valid;
    if CutFree(stops) {
      forall t: Bytes, m | 0 <= m <= |t| && NoTags(t) && Valid(t) && Valid(t[..m]) ensures CutAgrees(stops, t, m) {
        assert t[..m] + t[m..] == t;
        if FirstStop(stops, t[..m]) >= 0 {
          CutKeepsFirst(stops, t[..m], t[m..]);
        }
      }
    } else {
      var q, m := CutMatters(stops);
      assert !CutAgrees(stops, q, m);
    }
  }
}
