/** Printed calls are read back from among other text: the same names and arguments, in the same order, and that text. */
module ToolCallReplay {
  import opened Text
  import opened ToolCallXml

  predicate NoAngle(s: string) {
    forall i :: 0 <= i < |s| ==> s[i] != '<'
  }

  predicate KeyOk(k: string) {
    NoAngle(k) && '>' !in k && (k != "" ==> k[0] != ' ' && k[|k| - 1] != ' ')
  }

  /** `m` does not occur in `s`. */
  predicate Free(s: string, m: string) {
    forall i :: 0 <= i < |s| ==> !At(s, m, i)
  }

  /** Nothing that would end a parameter or a function element. */
  predicate Clean(v: string) {
    Free(v, PARAMETER_CLOSE) && Free(v, PARAMETER_OPEN) && Free(v, FUNCTION_CLOSE)
  }

  /** Nothing that one of the patterns tried before would claim. */
  predicate Unclaimed(v: string) {
    Free(v, TOOL_CALL_OPEN) && Free(v, ARG_KEY_OPEN)
  }

  predicate ParamOk(p: (string, string)) {
    KeyOk(p.0) && Unclaimed(p.1) && Clean(p.1)
  }

  /** A call that can be printed for the pattern: only values may hold anything but the plainest text. */
  predicate Printable(tools: Tools, c: PastCall) {
    && PatternName(c.name) && tools.allowed(c.name)
    && forall i :: 0 <= i < |c.params| ==> KeyOk(c.params[i].0) && Unclaimed(c.params[i].1)
  }

  predicate CleanValues(c: PastCall) {
    forall i :: 0 <= i < |c.params| ==> Clean(c.params[i].1)
  }

  predicate CallOk(tools: Tools, c: PastCall) {
    PatternName(c.name) && tools.allowed(c.name) && forall i :: 0 <= i < |c.params| ==> ParamOk(c.params[i])
  }

  predicate CallsOk(tools: Tools, cs: seq<PastCall>) {
    forall i :: 0 <= i < |cs| ==> CallOk(tools, cs[i])
  }

  /** What the reader makes of a value: a carriage return at its end goes with the line end after it. */
  function DropCr(v: string): string {
    if v != "" && v[|v| - 1] == '\r' then v[..|v| - 1] else v
  }

  function ReadParams(tools: Tools, name: string, args: map<string, Value>, ps: seq<(string, string)>): map<string, Value>
    decreases |ps|
  {
    if ps == [] then args
    else ReadParams(tools, name, args[ps[0].0 := ConvertParamValue(tools, name, ps[0].0, DropCr(ps[0].1))], ps[1..])
  }

  function ReadBack(tools: Tools, c: PastCall): ToolCall {
    ToolCall(c.name, CallArguments(c.name, ReadParams(tools, c.name, map[], c.params)))
  }

  function ReadBackAll(tools: Tools, cs: seq<PastCall>): seq<ToolCall> {
    if cs == [] then [] else [ReadBack(tools, cs[0])] + ReadBackAll(tools, cs[1..])
  }

  /** A text and the call printed after it. */
  datatype Piece = Piece(text: string, call: PastCall)

  function Printed(ps: seq<Piece>, tail: string): string {
    if ps == [] then tail else ps[0].text + (Render(ps[0].call) + Printed(ps[1..], tail))
  }

  function CallsIn(ps: seq<Piece>): seq<PastCall> {
    if ps == [] then [] else [ps[0].call] + CallsIn(ps[1..])
  }

  /** The texts, and the line end that follows each call. */
  function Texts(ps: seq<Piece>, tail: string): string {
    if ps == [] then tail else ps[0].text + ("\n" + Texts(ps[1..], tail))
  }

  predicate PiecesOk(tools: Tools, ps: seq<Piece>) {
    forall i :: 0 <= i < |ps| ==> NoAngle(ps[i].text) && CallOk(tools, ps[i].call)
  }

  // ── Parameters ──

  lemma Letter(s: string, p: string, i: int, k: nat)
    requires k < |p|
    ensures At(s, p, i) ==> s[i + k] == p[k]
  {
    if At(s, p, i) {
      assert s[i..i + |p|][k] == s[i + k];
    }
  }

  lemma Begins(s: string, p: string, i: int)
    requires p != ""
    ensures At(s, p, i) ==> s[i] == p[0]
  {
    Letter(s, p, i, 0);
  }

  /** Text between `<`-free text and a line end holds a marker only if the value does. */
  lemma Framed(a: string, v: string, m: string)
    requires NoAngle(a) && Free(v, m) && m != "" && m[0] == '<' && '\n' !in m
    ensures Free(a + v + "\n", m)
  {
    var s := a + v + "\n";
    forall i | 0 <= i < |s| ensures !At(s, m, i) {
      Begins(s, m, i);
      assert i < |a| ==> s[i] == a[i];
      if At(s, m, i) && i >= |a| {
        if i + |m| == |s| {
          Letter(s, m, i, |m| - 1);
        } else {
          assert s[i..i + |m|] == v[i - |a|..i - |a| + |m|];
          assert At(v, m, i - |a|);
        }
      }
    }
  }

  predicate EndsLine(s: string) {
    s == "" || s[|s| - 1] == '\n'
  }

  /** A marker does not run over a line end. */
  lemma FreeLines(a: string, b: string, m: string)
    requires EndsLine(a) && '\n' !in m && Free(a, m) && Free(b, m)
    ensures Free(a + b, m)
  {
    var s := a + b;
    forall i | 0 <= i < |s| ensures !At(s, m, i) {
      assert s[|a|..] == b;
      if i >= |a| {
        AtDrop(s, m, |a|, i);
      } else if i + |m| <= |a| {
        AtAppend(a, b, m, i);
      } else {
        Letter(s, m, i, |a| - 1 - i);
      }
    }
  }

  /** The text of a parameter ends at the first of the three endings. */
  lemma {:induction false} StopsAt(s: string, p: nat, q: nat)
    requires p <= q <= |s| && At(s, PARAMETER_CLOSE, q)
    requires forall i :: p <= i < q ==> !At(s, PARAMETER_CLOSE, i) && !At(s, PARAMETER_OPEN, i) && !At(s, FUNCTION_CLOSE, i)
    ensures StopAt(s, p) == q
    decreases q - p
  {
    if p < q {
      StopsAt(s, p + 1, q);
    }
  }

  /** A piece of text in its place. */
  lemma AtPlace(a: string, p: string, b: string)
    ensures At(a + p + b, p, |a|)
  {
  }

  lemma {:induction false} FindsPlace(a: string, p: string, b: string)
    requires p != "" && forall i :: 0 <= i < |a| ==> a[i] != p[0]
    ensures Find(a + p + b, p, 0) == |a|
  {
    var s := a + p + b;
    AtPlace(a, p, b);
    forall i | 0 <= i < |a| ensures !At(s, p, i) {
      Begins(s, p, i);
      assert s[i] == a[i];
    }
  }

  lemma {:induction false} FirstParamOf(lead: string, p: (string, string), rest: string)
    requires NoAngle(lead) && KeyOk(p.0) && Clean(p.1)
    ensures FirstParam(lead + RenderParam(p) + rest) == Some(ParamMatch(p.0 + ">\n" + p.1 + "\n", "\n" + rest))
  {
    var text := p.0 + ">\n" + p.1 + "\n";
    assert lead + RenderParam(p) + rest == lead + PARAMETER_OPEN + (text + PARAMETER_CLOSE + ("\n" + rest));
    TextClean(p.0 + ">\n", p.1);
    ParamText(lead, text, "\n" + rest, lead + PARAMETER_OPEN + (text + PARAMETER_CLOSE + ("\n" + rest)));
  }

  lemma TextClean(a: string, v: string)
    requires NoAngle(a) && Clean(v)
    ensures Clean(a + v + "\n")
  {
    Framed(a, v, PARAMETER_CLOSE);
    Framed(a, v, PARAMETER_OPEN);
    Framed(a, v, FUNCTION_CLOSE);
  }

  lemma {:induction false} ParamText(lead: string, text: string, rest: string, s: string)
    requires NoAngle(lead) && Clean(text) && EndsLine(text) && s == lead + PARAMETER_OPEN + (text + PARAMETER_CLOSE + rest)
    ensures FirstParam(s) == Some(ParamMatch(text, rest))
  {
    hide NoAngle, Find, At, StopAt, Clean, EndsLine;
    FindsAngle(lead, PARAMETER_OPEN, text + PARAMETER_CLOSE + rest);
    TextStops(lead + PARAMETER_OPEN, text, rest, s);
  }

  lemma {:induction false} FindsAngle(lead: string, p: string, b: string)
    requires NoAngle(lead) && p != "" && p[0] == '<'
    ensures Find(lead + p + b, p, 0) == |lead|
  {
    FindsPlace(lead, p, b);
  }

  lemma {:induction false} Regrouped(a: string, text: string, b: string, rest: string, s: string)
    requires s == a + (text + b + rest)
    ensures var q := |a| + |text|; q + |b| <= |s| && s[|a|..q] == text && At(s, b, q) && s[q + |b|..] == rest
    ensures forall i :: |a| <= i < |a| + |text| ==> s[i] == text[i - |a|]
  {
    assert s == (a + text) + b + rest;
    AtPlace(a + text, b, rest);
  }

  lemma {:induction false} TextStops(a: string, text: string, rest: string, s: string)
    requires Clean(text) && EndsLine(text) && s == a + (text + PARAMETER_CLOSE + rest)
    ensures var q := |a| + |text|;
            q <= |s| && StopAt(s, |a|) == q && s[|a|..q] == text && At(s, PARAMETER_CLOSE, q) && s[q + |PARAMETER_CLOSE|..] == rest
  {
    Regrouped(a, text, PARAMETER_CLOSE, rest, s);
    assert s == a + text + (PARAMETER_CLOSE + rest);
    forall i | |a| <= i < |a| + |text|
      ensures !At(s, PARAMETER_CLOSE, i) && !At(s, PARAMETER_OPEN, i) && !At(s, FUNCTION_CLOSE, i)
    {
      NotInside(a, text, PARAMETER_CLOSE + rest, PARAMETER_CLOSE, i);
      NotInside(a, text, PARAMETER_CLOSE + rest, PARAMETER_OPEN, i);
      NotInside(a, text, PARAMETER_CLOSE + rest, FUNCTION_CLOSE, i);
    }
    hide At, Clean;
    StopsAt(s, |a|, |a| + |text|);
  }

  /** A marker that does not occur in whole lines does not begin there either. */
  lemma NotInside(a: string, text: string, b: string, m: string, i: nat)
    requires Free(text, m) && EndsLine(text) && '\n' !in m && m != "" && |a| <= i < |a| + |text|
    ensures !At(a + text + b, m, i)
  {
    var s := a + text + b;
    if At(s, m, i) {
      if i + |m| <= |a| + |text| {
        assert s[i..i + |m|] == text[i - |a|..i - |a| + |m|];
        assert At(text, m, i - |a|);
      } else {
        Letter(s, m, i, |a| + |text| - 1 - i);
      }
    }
  }

  /** Trimming leaves a key as it is. */
  lemma {:induction false} AddParamOf(tools: Tools, name: string, args: map<string, Value>, k: string, v: string)
    requires KeyOk(k)
    ensures AddParam(tools, name, args, k + ">\n" + v + "\n") == args[k := ConvertParamValue(tools, name, k, DropCr(v))]
  {
    hide DropLineEnds, ConvertParamValue, DropCr;
    var text := k + ">\n" + v + "\n";
    assert text == k + ">" + ("\n" + v + "\n");
    FindsPlace(k, ">", "\n" + v + "\n");
    assert text[..|k|] == k && text[|k| + 1..] == "\n" + v + "\n";
    LineEndsDropped("\n", v, "\n");
  }

  /** One line end of either kind goes at the front and one at the back; before a bare line feed a carriage return goes with it. */
  lemma {:induction false} LineEndsDropped(a: string, v: string, b: string)
    requires (a == "\n" || a == "\r\n") && (b == "\n" || b == "\r\n")
    ensures DropLineEnds(a + v + b) == if b == "\n" then DropCr(v) else v
  {
    FrontDropped(a, v + b);
    assert a + v + b == a + (v + b);
    BackDropped(v, b);
  }

  lemma FrontDropped(a: string, w: string)
    requires a == "\n" || a == "\r\n"
    ensures DropFront(a + w) == w
  {
    var t := a + w;
    assert t[|a|..] == w && t[0] == a[0];
    Begins(t, "\r\n", 0);
    assert a == "\r\n" ==> t[0..2] == a;
  }

  lemma BackDropped(v: string, b: string)
    requires b == "\n" || b == "\r\n"
    ensures DropBack(v + b) == if b == "\n" then DropCr(v) else v
  {
    var w := v + b;
    var n := |w|;
    assert w[..n - |b|] == v && w[n - |b|..n] == b;
    if v != "" && b == "\n" {
      assert w[n - 2..n] == [v[|v| - 1], '\n'];
      assert v[|v| - 1] == '\r' ==> w[..n - 2] == v[..|v| - 1];
      assert w[n - 2..n][0] == v[|v| - 1];
    }
  }

  lemma {:induction false} AddParamsOf(tools: Tools, name: string, args: map<string, Value>, lead: string, ps: seq<(string, string)>)
    requires NoAngle(lead) && forall i :: 0 <= i < |ps| ==> KeyOk(ps[i].0) && Clean(ps[i].1)
    ensures AddParams(tools, name, args, lead + RenderParams(ps)) == ReadParams(tools, name, args, ps)
    decreases |ps|
  {
    if ps == [] {
      assert lead + RenderParams(ps) == lead;
      Begins(lead, PARAMETER_OPEN, Find(lead, PARAMETER_OPEN, 0));
    } else {
      assert lead + RenderParams(ps) == lead + RenderParam(ps[0]) + RenderParams(ps[1..]);
      FirstParamOf(lead, ps[0], RenderParams(ps[1..]));
      AddParamOf(tools, name, args, ps[0].0, ps[0].1);
      AddParamsOf(tools, name, AddParam(tools, name, args, ps[0].0 + ">\n" + ps[0].1 + "\n"), "\n", ps[1..]);
    }
  }

  // ── Function elements ──

  /** The one `<` of a tag is at its front, so another tag is not in it. */
  lemma TagFree(tag: string, m: string, k: nat)
    requires tag != "" && NoAngle(tag[1..]) && m != "" && m[0] == '<' && k < |m| && (k < |tag| ==> m[k] != tag[k])
    ensures Free(tag, m)
  {
    forall i | 0 <= i < |tag| ensures !At(tag, m, i) {
      Begins(tag, m, i);
      Letter(tag, m, i, k);
      if i > 0 {
        assert tag[i] == tag[1..][i - 1];
      }
    }
  }

  /** Printed parameters hold a marker of no parameter only if a value does. */
  lemma {:induction false} ParamsFree(ps: seq<(string, string)>, m: string)
    requires m == FUNCTION_CLOSE || m == TOOL_CALL_OPEN
    requires forall i :: 0 <= i < |ps| ==> KeyOk(ps[i].0) && Free(ps[i].1, m)
    ensures Free(RenderParams(ps), m) && EndsLine(RenderParams(ps))
  {
    if ps != [] {
      ParamFree(ps[0], m);
      ParamsFree(ps[1..], m);
      hide Free;
      FreeLines(RenderParam(ps[0]), RenderParams(ps[1..]), m);
    }
  }

  lemma {:induction false} ParamFree(p: (string, string), m: string)
    requires m == FUNCTION_CLOSE || m == TOOL_CALL_OPEN
    requires KeyOk(p.0) && Free(p.1, m)
    ensures Free(RenderParam(p), m) && EndsLine(RenderParam(p))
  {
    var open, value, close := PARAMETER_OPEN + p.0 + ">\n", p.1 + "\n", PARAMETER_CLOSE + "\n";
    assert open[1..] == PARAMETER_OPEN[1..] + p.0 + ">\n";
    TagFree(open, m, 1);
    TagFree(close, m, if m == FUNCTION_CLOSE then 2 else 1);
    Framed("", p.1, m);
    assert "" + p.1 + "\n" == value;
    hide Free;
    FreeLines(open, value, m);
    FreeLines(open + value, close, m);
    assert RenderParam(p) == open + value + close;
  }

  /** The first tag ahead, if there is one, opens a function element. */
  predicate CallNext(rest: string) {
    if rest == "" then true else if rest[0] == '<' then |rest| >= 2 && rest[1] == 'f' else CallNext(rest[1..])
  }

  lemma {:induction false} NextAfter(text: string, rest: string)
    requires NoAngle(text) && CallNext(rest)
    ensures CallNext(text + rest)
  {
    if text == "" {
      assert text + rest == rest;
    } else {
      NextAfter(text[1..], rest);
      assert (text + rest)[1..] == text[1..] + rest;
    }
  }

  lemma {:induction false} PrintedNext(tools: Tools, ps: seq<Piece>, tail: string)
    requires PiecesOk(tools, ps) && NoAngle(tail)
    ensures CallNext(Printed(ps, tail))
  {
    if ps == [] {
      NextAfter(tail, "");
      assert tail + "" == tail;
    } else {
      var after := Render(ps[0].call) + Printed(ps[1..], tail);
      assert after[..2] == "<f";
      assert after[0] == after[..2][0] && after[1] == after[..2][1];
      NextAfter(ps[0].text, after);
    }
  }

  lemma {:induction false} NameEnds(a: string, name: string, b: string, t: string)
    requires PatternName(name) && t == a + (name + ">" + b)
    ensures Find(t, ">", |a|) == |a| + |name| && t[|a|..|a| + |name|] == name && t[|a| + |name| + 1..] == b
  {
    assert t == (a + name) + ">" + b;
    AtPlace(a + name, ">", b);
    forall i | |a| <= i < |a| + |name| ensures !At(t, ">", i) {
      Begins(t, ">", i);
      assert t[i] == name[i - |a|] && NameChar(name[i - |a|]);
    }
  }

  lemma {:induction false} BodyEnds(a: string, body: string, b: string, t: string)
    requires Free(body, FUNCTION_CLOSE) && EndsLine(body) && t == a + (body + FUNCTION_CLOSE + b)
    ensures var close := |a| + |body|;
            Find(t, FUNCTION_CLOSE, |a|) == close && t[|a|..close] == body && t[close + |FUNCTION_CLOSE|..] == b
  {
    assert t == (a + body) + FUNCTION_CLOSE + b;
    AtPlace(a + body, FUNCTION_CLOSE, b);
    assert t == a + body + (FUNCTION_CLOSE + b);
    forall i | |a| <= i < |a| + |body| ensures !At(t, FUNCTION_CLOSE, i) {
      NotInside(a, body, FUNCTION_CLOSE + b, FUNCTION_CLOSE, i);
    }
  }

  lemma {:induction false} NoToolCallClose(t: string, end: nat)
    requires end <= |t| && CallNext(t[end..])
    ensures !At(t, TOOL_CALL_CLOSE, SkipSpaces(t, end))
    decreases |t| - end
  {
    if end < |t| {
      assert t[end] == t[end..][0] && t[end + 1..] == t[end..][1..];
      if t[end] == '<' {
        assert t[end + 1] == t[end..][1];
        Letter(t, TOOL_CALL_CLOSE, end, 1);
      } else if RegexSpace(t[end]) {
        NoToolCallClose(t, end + 1);
      } else {
        Begins(t, TOOL_CALL_CLOSE, end);
      }
    }
  }

  /** A printed call, followed by text without a tag and another one or nothing, is matched up to its closing tag. */
  lemma {:induction false} MatchHeadOf(tools: Tools, c: PastCall, rest: string)
    requires CallOk(tools, c) && CallNext(rest)
    ensures MatchHead(Render(c) + rest) == Some(Head(c.name, "\n" + RenderParams(c.params), |Render(c)| - 1))
  {
    hide PatternName, CallNext, RenderParams, MatchHead;
    var body, t := "\n" + RenderParams(c.params), Render(c) + rest;
    ParamsFree(c.params, FUNCTION_CLOSE);
    hide Free;
    BodyFree(RenderParams(c.params), FUNCTION_CLOSE);
    Nested(FUNCTION_OPEN, c.name, ">", body, FUNCTION_CLOSE, "\n", rest);
    HeadMatches(c.name, body, rest, t);
  }

  lemma Nested(a: string, b: string, c: string, d: string, e: string, f: string, g: string)
    ensures a + b + c + d + e + f + g == a + (b + c + (d + e + (f + g)))
  {
  }

  lemma Flat(a: string, b: string, c: string, d: string)
    ensures a + (b + c + d) == a + b + c + d
  {
  }

  lemma AtStart(p: string, b: string)
    ensures At(p + b, p, 0)
  {
  }

  lemma Consed<T>(a: seq<T>, x: T, b: seq<T>)
    ensures a + [x] + b == a + ([x] + b)
  {
  }

  lemma BodyFree(s: string, m: string)
    requires Free(s, m) && EndsLine(s) && '\n' !in m && m != "" && m[0] == '<'
    ensures Free("\n" + s, m) && EndsLine("\n" + s)
  {
    Begins("\n", m, 0);
    FreeLines("\n", s, m);
  }

  lemma {:induction false} HeadMatches(name: string, body: string, rest: string, t: string)
    requires PatternName(name) && Free(body, FUNCTION_CLOSE) && EndsLine(body) && CallNext(rest)
    requires t == FUNCTION_OPEN + (name + ">" + (body + FUNCTION_CLOSE + ("\n" + rest)))
    ensures MatchHead(t) == Some(Head(name, body, |FUNCTION_OPEN| + |name| + 1 + |body| + |FUNCTION_CLOSE|))
  {
    hide Free, PatternName, CallNext, Find, SkipSpaces, At;
    var after := body + FUNCTION_CLOSE + ("\n" + rest);
    AtStart(FUNCTION_OPEN, name + ">" + after);
    NameEnds(FUNCTION_OPEN, name, after, t);
    Flat(FUNCTION_OPEN, name, ">", after);
    BodyEnds(FUNCTION_OPEN + name + ">", body, "\n" + rest, t);
    NextAfter("\n", rest);
    NoToolCallClose(t, |FUNCTION_OPEN| + |name| + 1 + |body| + |FUNCTION_CLOSE|);
  }

  // ── Whole texts ──

  /** Where the calls stand in the printed text, which starts at `at`. */
  function Places(tools: Tools, at: nat, ps: seq<Piece>): seq<Placed>
    decreases |ps|
  {
    if ps == [] then []
    else [Placed(at + |ps[0].text|, ReadBack(tools, ps[0].call))] + Places(tools, at + |ps[0].text| + |Render(ps[0].call)|, ps[1..])
  }

  /** What they cover: all but the line end after each. */
  function Spans(at: nat, ps: seq<Piece>): seq<Span>
    decreases |ps|
  {
    if ps == [] then [] else
    var from := at + |ps[0].text|;
    var next := from + |Render(ps[0].call)|;
    [Span(from, next - 1)] + Spans(next, ps[1..])
  }

  lemma NoHead(t: string)
    requires t == "" || t[0] != '<'
    ensures MatchHead(t) == None
  {
    Begins(t, FUNCTION_OPEN, 0);
  }

  lemma {:induction false} FirstMatchOf(tools: Tools, text: string, from: nat, ws: string, c: PastCall, rest: string)
    requires from <= |text| && text[from..] == ws + (Render(c) + rest) && NoAngle(ws) && CallOk(tools, c) && CallNext(rest)
    ensures FirstMatch(text, from) ==
            Some(Found(from + |ws|, Head(c.name, "\n" + RenderParams(c.params), |Render(c)| - 1)))
    decreases |ws|
  {
    hide CallOk, CallNext, Render, RenderParams, MatchHead;
    if ws == "" {
      assert text[from..] == Render(c) + rest;
      MatchHeadOf(tools, c, rest);
    } else {
      var t := text[from..];
      assert t[0] == ws[0] != '<' && text[from + 1..] == t[1..] == ws[1..] + (Render(c) + rest);
      NoHead(t);
      FirstMatchOf(tools, text, from + 1, ws[1..], c, rest);
    }
  }

  lemma {:induction false} NoMatch(text: string, from: nat)
    requires from <= |text| && NoAngle(text[from..])
    ensures FirstMatch(text, from) == None
    decreases |text| - from
  {
    hide MatchHead;
    NoHead(text[from..]);
    if from < |text| {
      assert text[from + 1..] == text[from..][1..];
      NoMatch(text, from + 1);
    }
  }

  /** No `<tool_call>` anywhere. */
  predicate Untagged(s: string) {
    Free(s, TOOL_CALL_OPEN)
  }

  lemma {:induction false} NothingBefore(text: string, i: nat)
    requires Untagged(text)
    ensures FindLast(text, TOOL_CALL_OPEN, i) < 0
  {
    if i > 0 {
      NothingBefore(text, i - 1);
    }
  }

  lemma HeadUntagged(name: string)
    requires PatternName(name)
    ensures Untagged(FUNCTION_OPEN + name + ">\n") && Untagged(FUNCTION_CLOSE + "\n")
  {
    var head := FUNCTION_OPEN + name + ">\n";
    assert head[1..] == FUNCTION_OPEN[1..] + name + ">\n" && forall i :: 0 <= i < |name| ==> NameChar(name[i]);
    TagFree(head, TOOL_CALL_OPEN, 1);
    TagFree(FUNCTION_CLOSE + "\n", TOOL_CALL_OPEN, 1);
  }

  lemma {:induction false} CallUntagged(tools: Tools, c: PastCall)
    requires CallOk(tools, c)
    ensures Untagged(Render(c)) && EndsLine(Render(c))
  {
    var head, params, close := FUNCTION_OPEN + c.name + ">\n", RenderParams(c.params), FUNCTION_CLOSE + "\n";
    hide Free, PatternName, RenderParams;
    ParamsFree(c.params, TOOL_CALL_OPEN);
    HeadUntagged(c.name);
    FreeLines(head, params, TOOL_CALL_OPEN);
    FreeLines(head + params, close, TOOL_CALL_OPEN);
    assert Render(c) == head + params + close;
  }

  /** Text without a tag in front of a text holds no more of a marker. */
  lemma FreeAfter(a: string, b: string, m: string)
    requires NoAngle(a) && Free(b, m) && m != "" && m[0] == '<'
    ensures Free(a + b, m)
  {
    var s := a + b;
    forall i | 0 <= i < |s| ensures !At(s, m, i) {
      Begins(s, m, i);
      assert i < |a| ==> s[i] == a[i];
      assert s[|a|..] == b;
      if i >= |a| {
        AtDrop(s, m, |a|, i);
      }
    }
  }

  lemma {:induction false} PrintedUntagged(tools: Tools, ps: seq<Piece>, tail: string)
    requires PiecesOk(tools, ps) && NoAngle(tail)
    ensures Untagged(Printed(ps, tail))
  {
    if ps == [] {
      FreeAfter(tail, "", TOOL_CALL_OPEN);
      assert tail + "" == tail;
    } else {
      hide Free, CallOk;
      CallUntagged(tools, ps[0].call);
      PrintedUntagged(tools, ps[1..], tail);
      FreeLines(Render(ps[0].call), Printed(ps[1..], tail), TOOL_CALL_OPEN);
      FreeAfter(ps[0].text, Render(ps[0].call) + Printed(ps[1..], tail), TOOL_CALL_OPEN);
    }
  }

  predicate EndBy(spans: seq<Span>, at: nat) {
    forall i :: 0 <= i < |spans| ==> spans[i].end <= at
  }

  lemma EndByMore(spans: seq<Span>, at: nat, s: Span)
    requires EndBy(spans, at) && at <= s.end
    ensures EndBy(spans + [s], s.end)
  {
  }

  /** The first of the printed calls is added where it stands. */
  lemma {:induction false} AddCallOf(tools: Tools, text: string, at: nat, c: PastCall, p: Progress)
    requires CallOk(tools, c) && Untagged(text) && at + |Render(c)| <= |text|
    requires EndBy(p.removals, at)
    ensures AddCall(tools, text, Found(at, Head(c.name, "\n" + RenderParams(c.params), |Render(c)| - 1)), p) ==
            Progress(p.calls + [Placed(at, ReadBack(tools, c))], p.removals + [Span(at, at + |Render(c)| - 1)])
  {
    hide Render, RenderParams, Untagged, PatternName, CallArguments;
    assert !Overlaps(p.removals, at);
    NothingBefore(text, at);
    AddParamsOf(tools, c.name, map[], "\n", c.params);
  }

  /** What is left of the text from a position on. */
  predicate Remains(text: string, from: nat, s: string) {
    from <= |text| && text[from..] == s
  }

  lemma {:induction false} AddFirstCall(tools: Tools, text: string, from: nat, ws: string, c: PastCall, rest: string, p: Progress, p': Progress)
    requires Remains(text, from, ws + (Render(c) + rest)) && NoAngle(ws) && CallNext(rest)
    requires CallOk(tools, c) && Untagged(text)
    requires EndBy(p.removals, from)
    requires var at := from + |ws|;
             p' == Progress(p.calls + [Placed(at, ReadBack(tools, c))], p.removals + [Span(at, at + |Render(c)| - 1)])
    ensures from + |ws| + |Render(c)| <= |text|
    ensures AddCalls(tools, text, from, p) == AddCalls(tools, text, from + |ws| + |Render(c)| - 1, p')
  {
    hide Untagged, CallOk, CallNext, FirstMatch, Render, AddCall, NoAngle;
    FirstMatchOf(tools, text, from, ws, c, rest);
    LineEndLeft(text, from, ws, c, rest);
    AddCallOf(tools, text, from + |ws|, c, p);
  }

  lemma {:induction false} NoCallLeft(tools: Tools, text: string, from: nat, p: Progress)
    requires from <= |text| && NoAngle(text[from..])
    ensures AddCalls(tools, text, from, p) == Progress(p.calls + [], p.removals + [])
  {
    NoMatch(text, from);
    assert p.calls + [] == p.calls && p.removals + [] == p.removals;
  }

  /** All of the printed calls are added, one after another, and nothing else. */
  lemma {:induction false} AddCallsOf(tools: Tools, text: string, from: nat, ws: string, ps: seq<Piece>, tail: string, p: Progress)
    requires Remains(text, from, ws + Printed(ps, tail)) && NoAngle(ws) && NoAngle(tail) && PiecesOk(tools, ps) && Untagged(text)
    requires EndBy(p.removals, from)
    ensures AddCalls(tools, text, from, p) ==
            Progress(p.calls + Places(tools, from + |ws|, ps), p.removals + Spans(from + |ws|, ps))
    decreases |ps|
  {
    hide *;
    if ps == [] {
      TailLeft(text, from, ws, ps, tail);
      NoCallLeft(tools, text, from, p);
      NoPlaces(tools, from + |ws|, ps);
    } else {
      FirstOf(tools, ps, ws, tail);
      var c, more, lead := ps[0].call, ps[1..], ws + ps[0].text;
      var at := from + |lead|;
      var next, p' := at + |Render(c)|, Progress(p.calls + [Placed(at, ReadBack(tools, c))], p.removals + [Span(at, at + |Render(c)| - 1)]);
      PrintedNext(tools, more, tail);
      AddFirstCall(tools, text, from, lead, c, Printed(more, tail), p, p');
      LineEndLeft(text, from, lead, c, Printed(more, tail));
      EndByMore(p.removals, from, Span(at, next - 1));
      assert next - 1 + |"\n"| == next;
      AddCallsOf(tools, text, next - 1, "\n", more, tail, p');
      PlacesFirst(tools, from + |ws|, ps);
      Stitched(p, Placed(at, ReadBack(tools, c)), Span(at, next - 1), Places(tools, next, more), Spans(next, more));
    }
  }

  lemma TailLeft(text: string, from: nat, ws: string, ps: seq<Piece>, tail: string)
    requires ps == [] && Remains(text, from, ws + Printed(ps, tail))
    ensures from <= |text| && text[from..] == ws + tail
    ensures NoAngle(ws) && NoAngle(tail) ==> NoAngle(text[from..])
  {
  }

  lemma NoPlaces(tools: Tools, at: nat, ps: seq<Piece>)
    requires ps == []
    ensures Places(tools, at, ps) == [] && Spans(at, ps) == []
  {
  }

  lemma FirstOf(tools: Tools, ps: seq<Piece>, ws: string, tail: string)
    requires ps != [] && PiecesOk(tools, ps) && NoAngle(ws)
    ensures NoAngle("\n") && NoAngle(ws + ps[0].text) && CallOk(tools, ps[0].call) && PiecesOk(tools, ps[1..])
    ensures ws + Printed(ps, tail) == (ws + ps[0].text) + (Render(ps[0].call) + Printed(ps[1..], tail))
    ensures |Render(ps[0].call)| > 0
  {
    Flat2(ws, ps[0].text, Render(ps[0].call) + Printed(ps[1..], tail));
  }

  lemma Flat2(a: string, b: string, c: string)
    ensures a + (b + c) == a + b + c
  {
  }

  lemma Stitched(p: Progress, x: Placed, s: Span, places: seq<Placed>, spans: seq<Span>)
    ensures Progress(p.calls + [x] + places, p.removals + [s] + spans) == Progress(p.calls + ([x] + places), p.removals + ([s] + spans))
  {
    Consed(p.calls, x, places);
    Consed(p.removals, s, spans);
  }

  lemma PlacesFirst(tools: Tools, at: nat, ps: seq<Piece>)
    requires ps != []
    ensures var from, next := at + |ps[0].text|, at + |ps[0].text| + |Render(ps[0].call)|;
            && Places(tools, at, ps) == [Placed(from, ReadBack(tools, ps[0].call))] + Places(tools, next, ps[1..])
            && Spans(at, ps) == [Span(from, next - 1)] + Spans(next, ps[1..])
  {
  }

  lemma {:induction false} LineEndLeft(text: string, from: nat, ws: string, c: PastCall, rest: string)
    requires Remains(text, from, ws + (Render(c) + rest))
    ensures |Render(c)| > 0 && from + |ws| + |Render(c)| <= |text| && Remains(text, from + |ws| + |Render(c)| - 1, "\n" + rest)
  {
    var front, n := FUNCTION_OPEN + c.name + ">" + ("\n" + RenderParams(c.params)) + FUNCTION_CLOSE, |ws| + |Render(c)| - 1;
    assert Render(c) == front + "\n";
    assert text[from..] == (ws + front) + ("\n" + rest);
    assert text[from + n..] == text[from..][n..];
  }

  // ── Order and left-over text ──

  lemma {:induction false} PlacesInOrder(tools: Tools, at: nat, ps: seq<Piece>)
    ensures var s := Places(tools, at, ps);
            (forall i :: 0 <= i < |s| ==> at <= s[i].pos) && CallsInOrder(s)
    ensures CallsOf(Places(tools, at, ps)) == ReadBackAll(tools, CallsIn(ps))
    decreases |ps|
  {
    if ps != [] {
      hide ReadBack, Render;
      PlacesInOrder(tools, at + |ps[0].text| + |Render(ps[0].call)|, ps[1..]);
      assert CallsIn(ps)[1..] == CallsIn(ps[1..]);
    }
  }

  predicate InOrder(s: seq<Span>, at: nat) {
    (forall i :: 0 <= i < |s| ==> at <= s[i].start) && (forall i, j :: 0 <= i < j < |s| ==> s[i].start <= s[j].start)
  }

  lemma {:induction false} InOrderMore(first: Span, rest: seq<Span>, at: nat)
    requires InOrder(rest, at) && first.start <= at
    ensures InOrder([first] + rest, first.start)
  {
    var s := [first] + rest;
    assert forall i :: 0 < i < |s| ==> s[i] == rest[i - 1];
  }

  lemma {:induction false} SpansInOrder(at: nat, ps: seq<Piece>)
    ensures InOrder(Spans(at, ps), at)
    decreases |ps|
  {
    if ps == [] {
      assert Spans(at, ps) == [];
    } else {
      hide Render, InOrder;
      var from := at + |ps[0].text|;
      var next := from + |Render(ps[0].call)|;
      SpansInOrder(next, ps[1..]);
      InOrderMore(Span(from, next - 1), Spans(next, ps[1..]), next);
      InOrderEarlier(Spans(at, ps), from, at);
    }
  }

  lemma InOrderEarlier(s: seq<Span>, at: nat, earlier: nat)
    requires InOrder(s, at) && earlier <= at
    ensures InOrder(s, earlier)
  {
  }

  predicate CallsInOrder(s: seq<Placed>) {
    forall i, j :: 0 <= i < j < |s| ==> s[i].pos <= s[j].pos
  }

  lemma {:induction false} SortedCallsStay(s: seq<Placed>)
    requires CallsInOrder(s)
    ensures SortByPosition(s) == s
  {
    if s != [] {
      var front, last := s[..|s| - 1], s[|s| - 1];
      assert CallsInOrder(front) && s == front + [last];
      assert front != [] ==> front[|front| - 1].pos <= last.pos;
      hide CallsInOrder;
      SortedCallsStay(front);
    }
  }

  lemma NoSpans()
    ensures SortSpans([]) == []
  {
  }

  lemma {:induction false} LastSpanStays(s: seq<Span>, front: seq<Span>, last: Span)
    requires s == front + [last] && SortSpans(front) == front && (front != [] ==> front[|front| - 1].start <= last.start)
    ensures SortSpans(s) == s
  {
    assert s[..|s| - 1] == front;
  }

  lemma {:induction false} SortedSpansStay(s: seq<Span>, at: nat)
    requires InOrder(s, at)
    ensures SortSpans(s) == s
  {
    hide SortSpans;
    if s != [] {
      var front, last := s[..|s| - 1], s[|s| - 1];
      assert InOrder(front, at) && s == front + [last];
      assert front != [] ==> front[|front| - 1].start <= last.start;
      SortedSpansStay(front, at);
      LastSpanStays(s, front, last);
    } else {
      NoSpans();
    }
  }

  lemma WithoutFirst(text: string, cursor: nat, spans: seq<Span>)
    requires Within(text, spans) && spans != [] && cursor <= spans[0].start <= |text| && spans[0].end <= |text| && Within(text, spans[1..])
    ensures Without(text, cursor, spans) == text[cursor..spans[0].start] + Without(text, spans[0].end, spans[1..])
  {
  }

  lemma SliceOf(text: string, cursor: nat, lead: string, rest: string)
    requires Remains(text, cursor, lead + rest)
    ensures cursor + |lead| <= |text| && text[cursor..cursor + |lead|] == lead
  {
    assert text[cursor..cursor + |lead|] == text[cursor..][..|lead|];
  }

  lemma NothingWithout(text: string, cursor: nat, ws: string, ps: seq<Piece>, tail: string)
    requires ps == [] && Remains(text, cursor, ws + Printed(ps, tail))
    ensures Spans(cursor + |ws|, ps) == [] && Within(text, []) && Without(text, cursor, []) == ws + Texts(ps, tail)
  {
  }

  lemma PieceFirst(at: nat, ps: seq<Piece>, tail: string)
    requires ps != []
    ensures Texts(ps, tail) == ps[0].text + ("\n" + Texts(ps[1..], tail))
    ensures Printed(ps, tail) == ps[0].text + (Render(ps[0].call) + Printed(ps[1..], tail))
    ensures var from, next := at + |ps[0].text|, at + |ps[0].text| + |Render(ps[0].call)|;
            Spans(at, ps) == [Span(from, next - 1)] + Spans(next, ps[1..])
  {
  }

  lemma WithinMore(text: string, spans: seq<Span>)
    requires spans != [] && Within(text, spans)
    ensures Within(text, spans[1..])
  {
    assert forall i :: 0 <= i < |spans[1..]| ==> spans[1..][i] == spans[i + 1];
  }

  /** Without the calls, the texts are left, and the line end after each call. */
  lemma {:induction false} TextsLeft(text: string, cursor: nat, ws: string, ps: seq<Piece>, tail: string)
    requires Remains(text, cursor, ws + Printed(ps, tail)) && Within(text, Spans(cursor + |ws|, ps))
    ensures Without(text, cursor, Spans(cursor + |ws|, ps)) == ws + Texts(ps, tail)
    decreases |ps|
  {
    hide *;
    if ps == [] {
      NothingWithout(text, cursor, ws, ps, tail);
    } else {
      PieceFirst(cursor + |ws|, ps, tail);
      var c, lead, rest, left := ps[0].call, ws + ps[0].text, Printed(ps[1..], tail), "\n" + Texts(ps[1..], tail);
      var at := cursor + |lead|;
      var spans, more := Spans(cursor + |ws|, ps), Spans(at + |Render(c)|, ps[1..]);
      assert spans[1..] == more && at == cursor + |ws| + |ps[0].text|;
      Flat2(ws, ps[0].text, Render(c) + rest);
      LineEndLeft(text, cursor, lead, c, rest);
      SliceOf(text, cursor, lead, Render(c) + rest);
      WithinMore(text, spans);
      TextsLeft(text, at + |Render(c)| - 1, "\n", ps[1..], tail);
      WithoutFirst(text, cursor, spans);
      Flat2(ws, ps[0].text, left);
    }
  }

  /**
   The printer and the parser: whatever calls to allowed tools were printed, after and before any texts
   without a `<`, the parser reads the same names, in the same order, with each value as typed by the
   tool, short of a carriage return at its end; what it leaves are the texts, with the line end after
   each call, trimmed as a whole.
   */
  lemma {:induction false} ParsesAmong(tools: Tools, ps: seq<Piece>, tail: string)
    requires PiecesOk(tools, ps) && NoAngle(tail)
    ensures Parse(Printed(ps, tail), tools) ==
            Parsed(ReadBackAll(tools, CallsIn(ps)), if ps == [] then tail else Trim(Texts(ps, tail), BlankChar))
  {
    hide PiecesOk, SortByPosition, SortSpans, Trim, Render, Printed, AddCalls, CallsOf, Without, Within, CallsInOrder, InOrder, NoAngle, Texts;
    var text := Printed(ps, tail);
    Collected(tools, ps, tail, text);
    PlacesInOrder(tools, 0, ps);
    SpansInOrder(0, ps);
    SortedCallsStay(Places(tools, 0, ps));
    SortedSpansStay(Spans(0, ps), 0);
    if ps == [] {
      TailLeft(text, 0, "", ps, tail);
      assert text[0..] == text && "" + tail == tail;
    } else {
      TextsLeft(text, 0, "", ps, tail);
      assert "" + Texts(ps, tail) == Texts(ps, tail);
    }
  }

  lemma {:induction false} Collected(tools: Tools, ps: seq<Piece>, tail: string, text: string)
    requires PiecesOk(tools, ps) && NoAngle(tail) && text == Printed(ps, tail)
    ensures AddCalls(tools, text, 0, Progress([], [])) == Progress(Places(tools, 0, ps), Spans(0, ps)) && Within(text, Spans(0, ps))
    ensures Remains(text, 0, "" + Printed(ps, tail))
  {
    hide PiecesOk, Render, Printed, AddCalls, Untagged, Places, Spans;
    PrintedUntagged(tools, ps, tail);
    assert text[0..] == "" + text;
    AddCallsOf(tools, text, 0, "", ps, tail, Progress([], []));
    assert [] + Places(tools, 0, ps) == Places(tools, 0, ps) && [] + Spans(0, ps) == Spans(0, ps);
  }

  /** Calls with nothing between them. */
  function Bare(cs: seq<PastCall>): seq<Piece> {
    if cs == [] then [] else [Piece("", cs[0])] + Bare(cs[1..])
  }

  lemma {:induction false} BarePrinted(tools: Tools, cs: seq<PastCall>)
    requires CallsOk(tools, cs)
    ensures Printed(Bare(cs), "") == RenderAll(cs) && CallsIn(Bare(cs)) == cs && (Bare(cs) == [] <==> cs == [])
  {
    if cs != [] {
      BareFirst(cs);
      hide *;
      BarePrinted(tools, cs[1..]);
      assert [cs[0]] + cs[1..] == cs;
    }
  }

  lemma BareFirst(cs: seq<PastCall>)
    requires cs != []
    ensures Bare(cs) != [] && RenderAll(cs) == Render(cs[0]) + RenderAll(cs[1..])
    ensures Printed(Bare(cs), "") == Render(cs[0]) + Printed(Bare(cs[1..]), "") && CallsIn(Bare(cs)) == [cs[0]] + CallsIn(Bare(cs[1..]))
  {
    hide Render;
    var bare, after := Bare(cs), Render(cs[0]) + Printed(Bare(cs[1..]), "");
    assert bare[0] == Piece("", cs[0]) && bare[1..] == Bare(cs[1..]);
    assert "" + after == after;
  }

  lemma {:induction false} BareOk(tools: Tools, cs: seq<PastCall>)
    requires CallsOk(tools, cs)
    ensures PiecesOk(tools, Bare(cs)) && All(Texts(Bare(cs), ""), BlankChar)
  {
    if cs != [] {
      hide CallOk;
      BareOk(tools, cs[1..]);
      var bare := Bare(cs);
      assert bare[0] == Piece("", cs[0]) && bare[1..] == Bare(cs[1..]);
      assert forall i :: 0 < i < |bare| ==> bare[i] == Bare(cs[1..])[i - 1];
      var t := Texts(Bare(cs[1..]), "");
      assert Texts(bare, "") == "" + ("\n" + t) == "\n" + t;
    }
  }

  /** Of calls printed one after another nothing but the calls is read. */
  lemma {:induction false} ParsesPrinted(tools: Tools, cs: seq<PastCall>)
    requires CallsOk(tools, cs)
    ensures Parse(RenderAll(cs), tools) == Parsed(ReadBackAll(tools, cs), "")
  {
    hide CallsOk, Parse, ReadBackAll, RenderAll, Texts, Trim, All;
    BarePrinted(tools, cs);
    BareOk(tools, cs);
    ParsesAmong(tools, Bare(cs), "");
    AllTrimmed(Texts(Bare(cs), ""), BlankChar);
  }

  // ── Exact round trips ──

  /** No parameter is declared with a type that is coerced, and each is given once. */
  predicate TextParams(tools: Tools, c: PastCall) {
    && (forall i :: 0 <= i < |c.params| ==> !tools.kind(c.name, c.params[i].0).OtherTyped?)
    && (forall i, j :: 0 <= i < j < |c.params| ==> c.params[i].0 != c.params[j].0)
  }

  function Given(args: map<string, Value>, kvs: seq<(string, Value)>): map<string, Value>
    decreases |kvs|
  {
    if kvs == [] then args else Given(args[kvs[0].0 := kvs[0].1], kvs[1..])
  }

  /** The call's own arguments. */
  function AsGiven(ps: seq<(string, string)>): (r: seq<(string, Value)>)
    ensures |r| == |ps| && forall i :: 0 <= i < |ps| ==> r[i] == (ps[i].0, Str(ps[i].1))
  {
    if ps == [] then [] else [(ps[0].0, Str(ps[0].1))] + AsGiven(ps[1..])
  }

  /** What is read of them. */
  function AsRead(tools: Tools, name: string, ps: seq<(string, string)>): (r: seq<(string, Value)>)
    ensures |r| == |ps| && forall i :: 0 <= i < |ps| ==> r[i] == (ps[i].0, ConvertParamValue(tools, name, ps[i].0, DropCr(ps[i].1)))
  {
    if ps == [] then [] else [(ps[0].0, ConvertParamValue(tools, name, ps[0].0, DropCr(ps[0].1)))] + AsRead(tools, name, ps[1..])
  }

  /** A value with no carriage return at its end, and, if its parameter is not declared, other than `null`. */
  predicate Kept(tools: Tools, name: string, p: (string, string)) {
    DropCr(p.1) == p.1 && (tools.kind(name, p.0).Undeclared? ==> p.1 != "null")
  }

  predicate AllKept(tools: Tools, c: PastCall) {
    forall i :: 0 <= i < |c.params| ==> Kept(tools, c.name, c.params[i])
  }

  /** Every key that comes once has its value, and the other keys keep theirs. */
  lemma {:induction false} GivenHolds(args: map<string, Value>, kvs: seq<(string, Value)>)
    requires forall i, j :: 0 <= i < j < |kvs| ==> kvs[i].0 != kvs[j].0
    ensures forall i :: 0 <= i < |kvs| ==> kvs[i].0 in Given(args, kvs) && Given(args, kvs)[kvs[i].0] == kvs[i].1
    ensures forall k :: k in args && (forall i :: 0 <= i < |kvs| ==> kvs[i].0 != k) ==> k in Given(args, kvs) && Given(args, kvs)[k] == args[k]
    ensures Given(args, kvs).Keys == args.Keys + set i | 0 <= i < |kvs| :: kvs[i].0
    decreases |kvs|
  {
    if kvs != [] {
      var args', rest := args[kvs[0].0 := kvs[0].1], kvs[1..];
      GivenHolds(args', rest);
      assert forall i :: 0 < i < |kvs| ==> kvs[i] == rest[i - 1];
    }
  }

  lemma {:induction false} ReadIsGiven(tools: Tools, name: string, args: map<string, Value>, ps: seq<(string, string)>)
    ensures ReadParams(tools, name, args, ps) == Given(args, AsRead(tools, name, ps))
    decreases |ps|
  {
    if ps != [] {
      hide ConvertParamValue;
      ReadIsGiven(tools, name, args[ps[0].0 := ConvertParamValue(tools, name, ps[0].0, DropCr(ps[0].1))], ps[1..]);
    }
  }

  /** Other values for the same keys are other arguments. */
  lemma {:induction false} GivenDiffers(a: seq<(string, Value)>, b: seq<(string, Value)>)
    requires |a| == |b| && forall i :: 0 <= i < |a| ==> a[i].0 == b[i].0
    requires forall i, j :: 0 <= i < j < |a| ==> a[i].0 != a[j].0
    ensures Given(map[], a) == Given(map[], b) <==> a == b
  {
    GivenHolds(map[], a);
    GivenHolds(map[], b);
    forall i | 0 <= i < |a| && Given(map[], a) == Given(map[], b) ensures a[i] == b[i] {
      assert Given(map[], a)[a[i].0] == Given(map[], b)[b[i].0];
    }
  }

  /** Only a sole argument is unwrapped. */
  lemma {:induction false} NotUnwrapped(name: string, kvs: seq<(string, Value)>)
    requires forall i, j :: 0 <= i < j < |kvs| ==> kvs[i].0 != kvs[j].0
    requires name == "apply_patch" ==> |kvs| != 1
    ensures CallArguments(name, Given(map[], kvs)) == Object(Given(map[], kvs))
  {
    var args := Given(map[], kvs);
    GivenHolds(map[], kvs);
    if |kvs| >= 2 {
      assert kvs[0].0 in args && kvs[1].0 in args;
    } else if kvs == [] {
      assert args == map[];
    }
    assert |kvs| != 1 ==> forall k :: k in args ==> !OneString(args, k);
  }

  function GivenCall(c: PastCall): ToolCall {
    ToolCall(c.name, Object(Given(map[], AsGiven(c.params))))
  }

  function GivenAll(cs: seq<PastCall>): seq<ToolCall> {
    if cs == [] then [] else [GivenCall(cs[0])] + GivenAll(cs[1..])
  }

  lemma KeptIff(tools: Tools, name: string, p: (string, string))
    requires !tools.kind(name, p.0).OtherTyped?
    ensures ConvertParamValue(tools, name, p.0, DropCr(p.1)) == Str(p.1) <==> Kept(tools, name, p)
  {
  }

  lemma {:induction false} ReadsGiven(tools: Tools, c: PastCall)
    requires Plain(tools, c)
    ensures ReadBack(tools, c) == GivenCall(c) <==> AllKept(tools, c)
  {
    hide Kept, ConvertParamValue, DropCr, Given, CallArguments;
    var read, given := AsRead(tools, c.name, c.params), AsGiven(c.params);
    ReadIsGiven(tools, c.name, map[], c.params);
    assert forall i :: 0 <= i < |c.params| ==> read[i].0 == c.params[i].0;
    NotUnwrapped(c.name, read);
    GivenDiffers(read, given);
    forall i | 0 <= i < |c.params| ensures read[i] == given[i] <==> Kept(tools, c.name, c.params[i]) {
      KeptIff(tools, c.name, c.params[i]);
    }
  }

  /** A call whose arguments are read back as they were. */
  predicate Plain(tools: Tools, c: PastCall) {
    TextParams(tools, c) && (c.name == "apply_patch" ==> |c.params| != 1)
  }

  lemma {:induction false} AllReadGiven(tools: Tools, cs: seq<PastCall>)
    requires forall i :: 0 <= i < |cs| ==> Plain(tools, cs[i])
    ensures ReadBackAll(tools, cs) == GivenAll(cs) <==> forall i :: 0 <= i < |cs| ==> AllKept(tools, cs[i])
  {
    if cs != [] {
      hide AllKept, ReadBack, GivenCall;
      assert Plain(tools, cs[0]);
      ReadsGiven(tools, cs[0]);
      AllReadGiven(tools, cs[1..]);
      var a, b, x, y := ReadBackAll(tools, cs[1..]), GivenAll(cs[1..]), ReadBack(tools, cs[0]), GivenCall(cs[0]);
      ConsEqual(x, a, y, b);
      assert forall i :: 0 < i < |cs| ==> cs[i] == cs[1..][i - 1];
    }
  }

  lemma ConsEqual(x: ToolCall, a: seq<ToolCall>, y: ToolCall, b: seq<ToolCall>)
    ensures [x] + a == [y] + b <==> x == y && a == b
  {
    assert ([x] + a)[0] == x && ([x] + a)[1..] == a && ([y] + b)[0] == y && ([y] + b)[1..] == b;
  }

  // ── What is read is clean ──

  lemma CleanPart(v: string, i: nat, j: nat)
    requires Clean(v) && i <= j <= |v|
    ensures Clean(v[i..j])
  {
    FreePart(v, PARAMETER_CLOSE, i, j);
    FreePart(v, PARAMETER_OPEN, i, j);
    FreePart(v, FUNCTION_CLOSE, i, j);
  }

  lemma FreePart(v: string, m: string, i: nat, j: nat)
    requires Free(v, m) && i <= j <= |v|
    ensures Free(v[i..j], m)
  {
    forall k | 0 <= k < |v[i..j]| ensures !At(v[i..j], m, k) {
      InPart(v, i, j, m, k);
    }
  }

  lemma {:induction false} StopClean(s: string, p: nat, i: nat)
    requires p <= |s| && p <= i < StopAt(s, p)
    ensures !At(s, PARAMETER_CLOSE, i) && !At(s, PARAMETER_OPEN, i) && !At(s, FUNCTION_CLOSE, i)
    decreases i - p
  {
    if p < i {
      StopClean(s, p + 1, i);
    }
  }

  /** The text read for a parameter holds none of the endings. */
  lemma TextReadClean(s: string, p: nat)
    requires p <= |s|
    ensures Clean(s[p..StopAt(s, p)])
  {
    var q := StopAt(s, p);
    var text := s[p..q];
    forall i | 0 <= i < |text|
      ensures !At(text, PARAMETER_CLOSE, i) && !At(text, PARAMETER_OPEN, i) && !At(text, FUNCTION_CLOSE, i)
    {
      StopClean(s, p, p + i);
      InPart(s, p, q, PARAMETER_CLOSE, i);
      InPart(s, p, q, PARAMETER_OPEN, i);
      InPart(s, p, q, FUNCTION_CLOSE, i);
    }
  }

  lemma InPart(s: string, p: nat, q: nat, m: string, i: nat)
    requires p <= q <= |s|
    ensures At(s[p..q], m, i) ==> At(s, m, p + i)
  {
    if At(s[p..q], m, i) {
      assert s[p..q] == s[p..][..q - p];
      assert s[p..q][i..i + |m|] == s[p..][i..i + |m|] == s[p + i..p + i + |m|];
    }
  }

  /** Values the parser does not coerce are clean. */
  predicate CleanArgs(tools: Tools, name: string, args: map<string, Value>) {
    forall k :: k in args && tools.kind(name, k) != OtherTyped && args[k].Str? ==> Clean(args[k].s)
  }

  ghost predicate NoCoercion(tools: Tools, name: string) {
    forall k :: tools.kind(name, k) != OtherTyped
  }

  ghost predicate CleanCall(tools: Tools, c: ToolCall) {
    match c.arguments
    case Object(args) => CleanArgs(tools, c.name, args)
    case Raw(text) => NoCoercion(tools, c.name) ==> Clean(text)
  }

  lemma DropClean(v: string)
    requires Clean(v)
    ensures Clean(DropLineEnds(v))
  {
    hide Clean;
    var w := DropFront(v);
    CleanPart(v, |v| - |w|, |v|);
    assert w == v[|v| - |w|..|v|];
    var d := DropLineEnds(v);
    CleanPart(w, 0, |d|);
    assert d == w[0..|d|];
  }

  lemma {:induction false} AddParamsClean(tools: Tools, name: string, args: map<string, Value>, s: string)
    requires CleanArgs(tools, name, args)
    ensures CleanArgs(tools, name, AddParams(tools, name, args, s))
    decreases |s|
  {
    hide Clean, Find, DropLineEnds, TrimLeft, TrimRight, StopAt, At;
    if FirstParam(s).Some? {
      var m := FirstParam(s).value;
      TextReadClean(s, Find(s, PARAMETER_OPEN, 0) + |PARAMETER_OPEN|);
      var eq := Find(m.text, ">", 0);
      if eq >= 0 {
        FoundFits(m.text, ">");
        CleanPart(m.text, eq + 1, |m.text|);
        assert m.text[eq + 1..] == m.text[eq + 1..|m.text|];
        DropClean(m.text[eq + 1..]);
      }
      AddParamsClean(tools, name, AddParam(tools, name, args, m.text), m.rest);
    }
  }

  lemma FoundFits(s: string, m: string)
    ensures Find(s, m, 0) >= 0 ==> Find(s, m, 0) + |m| <= |s|
  {
    assert Find(s, m, 0) >= 0 ==> At(s, m, Find(s, m, 0));
  }

  ghost predicate AllClean(tools: Tools, s: seq<Placed>) {
    forall i :: 0 <= i < |s| ==> CleanCall(tools, s[i].call)
  }

  lemma ArgumentsClean(tools: Tools, name: string, args: map<string, Value>)
    requires CleanArgs(tools, name, args)
    ensures CleanCall(tools, ToolCall(name, CallArguments(name, args)))
  {
    hide Clean;
  }

  lemma {:induction false} AddCallsClean(tools: Tools, text: string, from: nat, p: Progress)
    requires from <= |text| && AllClean(tools, p.calls)
    ensures AllClean(tools, AddCalls(tools, text, from, p).calls)
    decreases |text| - from
  {
    hide CleanCall, AddParams, FirstMatch, CallArguments, Overlaps, IncludePrecedingToolCallOpen;
    if FirstMatch(text, from).Some? {
      var f := FirstMatch(text, from).value;
      NoArgs(tools, f.head.name);
      AddParamsClean(tools, f.head.name, map[], f.head.params);
      ArgumentsClean(tools, f.head.name, AddParams(tools, f.head.name, map[], f.head.params));
      AddCallsClean(tools, text, f.pos + f.head.length, AddCall(tools, text, f, p));
    }
  }

  lemma NoArgs(tools: Tools, name: string)
    ensures CleanArgs(tools, name, map[])
  {
  }

  lemma {:induction false} InsertClean(tools: Tools, e: Placed, s: seq<Placed>)
    requires AllClean(tools, s) && CleanCall(tools, e.call)
    ensures AllClean(tools, InsertByPosition(e, s))
  {
    hide CleanCall;
    if s != [] && s[|s| - 1].pos > e.pos {
      InsertClean(tools, e, s[..|s| - 1]);
    }
  }

  lemma {:induction false} SortClean(tools: Tools, s: seq<Placed>)
    requires AllClean(tools, s)
    ensures AllClean(tools, SortByPosition(s))
  {
    hide CleanCall;
    if s != [] {
      SortClean(tools, s[..|s| - 1]);
      InsertClean(tools, s[|s| - 1], SortByPosition(s[..|s| - 1]));
    }
  }

  lemma {:induction false} CallsOfAt(s: seq<Placed>)
    ensures |CallsOf(s)| == |s| && forall i :: 0 <= i < |s| ==> CallsOf(s)[i] == s[i].call
  {
    if s != [] {
      CallsOfAt(s[1..]);
    }
  }

  /** Whatever the text, no call the parser reads from it holds an ending in a value it does not coerce. */
  lemma ParsedClean(tools: Tools, text: string, i: nat)
    requires i < |Parse(text, tools).calls|
    ensures CleanCall(tools, Parse(text, tools).calls[i])
  {
    hide CleanCall, AddCalls, SortByPosition, CallsOf;
    var p := AddCalls(tools, text, 0, Progress([], []));
    AddCallsClean(tools, text, 0, Progress([], []));
    SortClean(tools, p.calls);
    CallsOfAt(SortByPosition(p.calls));
  }

  lemma {:induction false} GivenAllAt(cs: seq<PastCall>)
    ensures |GivenAll(cs)| == |cs| && forall i :: 0 <= i < |cs| ==> GivenAll(cs)[i] == GivenCall(cs[i])
  {
    if cs != [] {
      GivenAllAt(cs[1..]);
    }
  }

  lemma GivenIsClean(tools: Tools, c: PastCall)
    requires Plain(tools, c) && CleanCall(tools, GivenCall(c))
    ensures CleanValues(c)
  {
    hide Clean;
    GivenHolds(map[], AsGiven(c.params));
    assert forall i :: 0 <= i < |c.params| ==> AsGiven(c.params)[i] == (c.params[i].0, Str(c.params[i].1));
  }

  /**
   Calls whose parameters are declared as strings, or not at all, come back exactly as they were, if and only if no value holds an ending of a parameter or a function, or ends in
   a carriage return, or is `null` for a parameter that is not declared.
   */
  lemma {:induction false} RoundTrip(tools: Tools, cs: seq<PastCall>)
    requires forall i :: 0 <= i < |cs| ==> Printable(tools, cs[i]) && Plain(tools, cs[i])
    ensures Parse(RenderAll(cs), tools) == Parsed(GivenAll(cs), "") <==>
            forall i :: 0 <= i < |cs| ==> CleanValues(cs[i]) && AllKept(tools, cs[i])
  {
    hide Plain, AllKept, Parse, RenderAll, ReadBackAll, GivenAll, Clean, Unclaimed, KeyOk, CleanCall, GivenCall;
    if Parse(RenderAll(cs), tools) == Parsed(GivenAll(cs), "") {
      forall i | 0 <= i < |cs| ensures CleanValues(cs[i]) {
        GivenAllAt(cs);
        ParsedClean(tools, RenderAll(cs), i);
        GivenIsClean(tools, cs[i]);
      }
    }
    if forall i :: 0 <= i < |cs| ==> CleanValues(cs[i]) {
      assert CallsOk(tools, cs);
      ParsesPrinted(tools, cs);
      AllReadGiven(tools, cs);
    }
  }

  /**
   A replayed patch, wrapped as the one argument of apply_patch, comes back unwrapped; as it was,
   if and only if it holds no ending and no final carriage return.
   */
  lemma {:induction false} PatchReplay(tools: Tools, key: string, patch: string)
    requires tools.allowed("apply_patch") && tools.kind("apply_patch", key) == StringTyped && KeyOk(key) && Unclaimed(patch)
    ensures var text := Render(PastCall("apply_patch", [(key, patch)]));
            && (Clean(patch) ==> Parse(text, tools) == Parsed([ToolCall("apply_patch", Raw(DropCr(patch)))], ""))
            && (NoCoercion(tools, "apply_patch") ==>
                (Parse(text, tools) == Parsed([ToolCall("apply_patch", Raw(patch))], "") <==> Clean(patch) && DropCr(patch) == patch))
  {
    hide Parse, Render, PatternName, Clean, KeyOk, Unclaimed, DropCr;
    var c := PastCall("apply_patch", [(key, patch)]);
    var text := Render(c);
    ApplyPatchName();
    if Clean(patch) {
      assert CallsOk(tools, [c]) && ReadBackAll(tools, [c]) == [ReadBack(tools, c)];
      assert RenderAll([c]) == Render(c) + "" == Render(c);
      ParsesPrinted(tools, [c]);
      PatchArguments(tools, key, patch);
    }
    if Parse(text, tools) == Parsed([ToolCall("apply_patch", Raw(patch))], "") {
      ParsedClean(tools, text, 0);
    }
  }

  lemma ApplyPatchName()
    ensures PatternName("apply_patch")
  {
  }

  lemma {:induction false} PatchArguments(tools: Tools, key: string, patch: string)
    requires tools.kind("apply_patch", key) == StringTyped
    ensures ReadBack(tools, PastCall("apply_patch", [(key, patch)])) == ToolCall("apply_patch", Raw(DropCr(patch)))
  {
    var ps := [(key, patch)];
    assert ps[1..] == [] && ps[0] == (key, patch);
    var args := ReadParams(tools, "apply_patch", map[], ps);
    assert args == ReadParams(tools, "apply_patch", map[key := Str(DropCr(patch))], ps[1..]);
    assert args == map[key := Str(DropCr(patch))];
    assert OneString(args, key);
  }
}
