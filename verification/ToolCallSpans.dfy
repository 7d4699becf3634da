/** Where the elements read from any text lie, and what is left of that text. */
module ToolCallSpans {
  import opened Text
  import opened ToolCallXml
  import opened ToolCallReplay

  lemma Inside(s: string, p: string, i: int, j: int)
    ensures At(s, p, i) && i <= j < i + |p| ==> s[j] == p[j - i]
  {
    if At(s, p, i) && i <= j < i + |p| {
      Letter(s, p, i, j - i);
    }
  }

  lemma AtRest(s: string, p: string, k: nat, i: int)
    requires k <= |s| && At(s[k..], p, i)
    ensures At(s, p, k + i)
  {
    assert s[k..][i..i + |p|] == s[k + i..k + i + |p|];
  }

  /** A closing tag ends at `e`. */
  predicate ClosedAt(s: string, e: int) {
    At(s, FUNCTION_CLOSE, e - |FUNCTION_CLOSE|) || At(s, TOOL_CALL_CLOSE, e - |TOOL_CALL_CLOSE|)
  }

  /** `<tool_call>` with only blanks after it up to `pos`. */
  predicate OpensAt(s: string, w: nat, pos: nat) {
    At(s, TOOL_CALL_OPEN, w) && forall i :: w + |TOOL_CALL_OPEN| <= i < pos && i < |s| ==> BlankChar(s[i])
  }

  /** A marker whose one `<` is at its front. */
  predicate IsMarker(p: string) {
    |p| > 1 && p[0] == '<' && forall k :: 1 <= k < |p| ==> p[k] != '<'
  }

  /** Two different markers do not overlap. */
  lemma Apart(s: string, a: string, b: string, i: int, j: int)
    requires At(s, a, i) && At(s, b, j) && IsMarker(a) && IsMarker(b) && a[1] != b[1]
    ensures i + |a| <= j || j + |b| <= i
  {
    Inside(s, a, i, i);
    Inside(s, b, j, j);
    Inside(s, a, i, j);
    Inside(s, b, j, i);
    Inside(s, a, i, i + 1);
    Inside(s, b, j, j + 1);
  }

  lemma Markers()
    ensures IsMarker(TOOL_CALL_OPEN) && IsMarker(FUNCTION_CLOSE) && IsMarker(TOOL_CALL_CLOSE)
    ensures TOOL_CALL_OPEN[1] != FUNCTION_CLOSE[1] && TOOL_CALL_OPEN[1] != TOOL_CALL_CLOSE[1]
    ensures FUNCTION_CLOSE[|FUNCTION_CLOSE| - 1] == '>' == TOOL_CALL_CLOSE[|TOOL_CALL_CLOSE| - 1]
  {
  }

  /** No `<tool_call>` overlaps a closing tag before it. */
  lemma OpenAfterClose(s: string, e: nat, w: nat, pos: nat)
    requires ClosedAt(s, e) && OpensAt(s, w, pos) && e <= pos <= |s|
    ensures e <= w
  {
    Markers();
    hide At, FUNCTION_CLOSE, TOOL_CALL_OPEN, TOOL_CALL_CLOSE, IsMarker;
    var close := if At(s, FUNCTION_CLOSE, e - |FUNCTION_CLOSE|) then FUNCTION_CLOSE else TOOL_CALL_CLOSE;
    Apart(s, close, TOOL_CALL_OPEN, e - |close|, w);
    MarkerLast(s, close, e);
  }

  lemma MarkerLast(s: string, p: string, e: int)
    requires At(s, p, e - |p|) && IsMarker(p)
    ensures 0 < e <= |s| && s[e - 1] == p[|p| - 1]
  {
    Inside(s, p, e - |p|, e - 1);
  }

  lemma {:induction false} FindLastIs(s: string, p: string, i: nat)
    ensures var w := FindLast(s, p, i); forall k :: 0 <= k <= i && w < k ==> !At(s, p, k)
  {
    if !At(s, p, i) && i > 0 {
      FindLastIs(s, p, i - 1);
    }
  }

  /** The `<tool_call>` before an element goes with it exactly if only blanks lie between. */
  lemma {:induction false} OpenIncluded(s: string, pos: nat)
    requires At(s, FUNCTION_OPEN, pos)
    ensures var w := IncludePrecedingToolCallOpen(s, pos);
            w <= pos && (w < pos ==> OpensAt(s, w, pos)) && (w == pos ==> forall k: nat :: k < pos ==> !OpensAt(s, k, pos))
  {
    FindLastIs(s, TOOL_CALL_OPEN, pos);
    var w := FindLast(s, TOOL_CALL_OPEN, pos);
    Inside(s, FUNCTION_OPEN, pos, pos + 1);
    Inside(s, TOOL_CALL_OPEN, pos, pos + 1);
    Inside(s, TOOL_CALL_OPEN, w, w);
    forall k: nat | k < pos && OpensAt(s, k, pos) ensures w == k {
      Inside(s, TOOL_CALL_OPEN, k, w);
    }
  }

  /** A function element ends in a closing tag. */
  lemma HeadCloses(t: string)
    requires MatchHead(t).Some?
    ensures At(t, FUNCTION_OPEN, 0) && ClosedAt(t, MatchHead(t).value.length)
  {
    hide At, SkipSpaces, PatternName;
  }

  lemma MatchCloses(s: string, from: nat)
    requires from <= |s| && MatchHead(s[from..]).Some?
    ensures At(s, FUNCTION_OPEN, from) && ClosedAt(s, from + MatchHead(s[from..]).value.length)
  {
    hide At, MatchHead;
    var n := MatchHead(s[from..]).value.length;
    HeadCloses(s[from..]);
    AtRest(s, FUNCTION_OPEN, from, 0);
    if At(s[from..], FUNCTION_CLOSE, n - |FUNCTION_CLOSE|) {
      AtRest(s, FUNCTION_CLOSE, from, n - |FUNCTION_CLOSE|);
    } else {
      AtRest(s, TOOL_CALL_CLOSE, from, n - |TOOL_CALL_CLOSE|);
    }
  }

  lemma {:induction false} FirstMatchCloses(s: string, from: nat)
    requires from <= |s| && FirstMatch(s, from).Some?
    ensures var f := FirstMatch(s, from).value; At(s, FUNCTION_OPEN, f.pos) && ClosedAt(s, f.pos + f.head.length)
    decreases |s| - from
  {
    hide MatchHead, At, ClosedAt;
    if MatchHead(s[from..]).Some? {
      MatchCloses(s, from);
    } else {
      FirstMatchCloses(s, from + 1);
    }
  }

  /** The elements so far lie one after another before `from`, each with its call. */
  ghost predicate InTurn(s: string, p: Progress, from: nat) {
    && |p.calls| == |p.removals|
    && (forall i :: 0 <= i < |p.calls| ==> p.calls[i].pos == p.removals[i].start)
    && Separate(p.removals, 0)
    && (forall i :: 0 <= i < |p.removals| ==> p.removals[i].end <= from && ClosedAt(s, p.removals[i].end))
  }

  lemma InTurnMore(tools: Tools, s: string, from: nat, f: Found, p: Progress)
    requires InTurn(s, p, from) && from <= f.pos && f.pos + f.head.length <= |s| && f.head.length > 0
    requires At(s, FUNCTION_OPEN, f.pos) && ClosedAt(s, f.pos + f.head.length)
    ensures InTurn(s, AddCall(tools, s, f, p), f.pos + f.head.length)
  {
    hide CallArguments, AddParams, ClosedAt, IncludePrecedingToolCallOpen, At;
    var w := IncludePrecedingToolCallOpen(s, f.pos);
    OpenIncluded(s, f.pos);
    forall i | 0 <= i < |p.removals| ensures p.removals[i].end <= w {
      if w < f.pos {
        OpenAfterClose(s, p.removals[i].end, w, f.pos);
      }
    }
  }

  /** The elements read from any text lie one after another: none is passed over as overlapped. */
  lemma {:induction false} AllInTurn(tools: Tools, s: string, from: nat, p: Progress)
    requires from <= |s| && InTurn(s, p, from)
    ensures InTurn(s, AddCalls(tools, s, from, p), |s|)
    decreases |s| - from
  {
    hide AddCall, FirstMatch, ClosedAt, At;
    if FirstMatch(s, from).Some? {
      var f := FirstMatch(s, from).value;
      FirstMatchCloses(s, from);
      InTurnMore(tools, s, from, f, p);
      AllInTurn(tools, s, f.pos + f.head.length, AddCall(tools, s, f, p));
    }
  }

  /**
   Whatever the text: the calls come in its order, and what is left of it are the characters that lie in
   no element with a call, trimmed as a whole if there is such an element.
   */
  lemma {:induction false} LeavesUncovered(tools: Tools, text: string)
    ensures var p := AddCalls(tools, text, 0, Progress([], []));
            && Parse(text, tools).calls == CallsOf(p.calls)
            && Parse(text, tools).cleaned == (if p.removals == [] then text else Trim(Uncovered(text, p.removals, 0), BlankChar))
            && InTurn(text, p, |text|)
  {
    hide AddCalls, Uncovered, Trim, Without, SortSpans, SortByPosition, CallsOf, ClosedAt;
    var p := AddCalls(tools, text, 0, Progress([], []));
    AllInTurn(tools, text, 0, Progress([], []));
    SortedCallsStay(p.calls);
    SortedSpansStay(p.removals, 0);
    WithoutIsUncovered(text, 0, p.removals);
  }
}
