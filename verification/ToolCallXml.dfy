/** Printing tool calls as XML for the prompt, and reading that shape back out of generated text. */
module ToolCallXml {
  import opened Text

  const FUNCTION_OPEN := "<function="
  const FUNCTION_CLOSE := "</function>"
  const PARAMETER_OPEN := "<parameter="
  const PARAMETER_CLOSE := "</parameter>"
  const TOOL_CALL_OPEN := "<tool_call>"
  const TOOL_CALL_CLOSE := "</tool_call>"
  const ARG_KEY_OPEN := "<arg_key>"

  // ── Printing ──

  /** A past call: its name and its arguments as text, in the order of the argument object. */
  datatype PastCall = PastCall(name: string, params: seq<(string, string)>)

  function RenderParam(p: (string, string)): string {
    PARAMETER_OPEN + p.0 + ">\n" + p.1 + "\n" + PARAMETER_CLOSE + "\n"
  }

  function RenderParams(ps: seq<(string, string)>): string {
    if ps == [] then "" else RenderParam(ps[0]) + RenderParams(ps[1..])
  }

  function Render(c: PastCall): string {
    FUNCTION_OPEN + c.name + ">" + ("\n" + RenderParams(c.params)) + FUNCTION_CLOSE + "\n"
  }

  function RenderAll(cs: seq<PastCall>): string {
    if cs == [] then "" else Render(cs[0]) + RenderAll(cs[1..])
  }

  method RenderToolCallXml(c: PastCall) returns (out: string)
    ensures out == Render(c)
  {
    out := FUNCTION_OPEN + c.name + ">\n";
    ghost var head := FUNCTION_OPEN + c.name + ">\n";
    for i := 0 to |c.params|
      invariant out + RenderParams(c.params[i..]) == head + RenderParams(c.params)
    {
      assert c.params[i..][1..] == c.params[i + 1..];
      out := out + (PARAMETER_OPEN + c.params[i].0 + ">\n" + c.params[i].1 + "\n" + PARAMETER_CLOSE + "\n");
    }
    out := out + FUNCTION_CLOSE + "\n";
    assert FUNCTION_OPEN + c.name + ">\n" + RenderParams(c.params) == FUNCTION_OPEN + c.name + ">" + ("\n" + RenderParams(c.params));
  }

  // ── What the tools declare ──

  datatype Value = Null | Str(s: string) | Other(json: string)

  datatype Kind = Undeclared | StringTyped | OtherTyped

  /** The request's tools: which names are allowed, the type of a parameter, and the coercion to other types. */
  datatype Tools = Tools(allowed: string -> bool, kind: (string, string) -> Kind, coerce: (string, string, string) -> Value)

  function ConvertParamValue(tools: Tools, name: string, key: string, v: string): Value {
    match tools.kind(name, key)
    case Undeclared => if v == "null" then Null else Str(v)
    case StringTyped => Str(v)
    case OtherTyped => if v == "null" then Null else tools.coerce(name, key, v)
  }

  datatype Arguments = Object(args: map<string, Value>) | Raw(text: string)

  datatype ToolCall = ToolCall(name: string, arguments: Arguments)

  // ── Parameters ──

  /** Where the text of a parameter that begins before `p` ends. */
  function StopAt(s: string, p: nat): (q: nat)
    requires p <= |s|
    ensures p <= q <= |s|
    decreases |s| - p
  {
    if p == |s| || At(s, PARAMETER_CLOSE, p) || At(s, PARAMETER_OPEN, p) || At(s, FUNCTION_CLOSE, p) then p
    else StopAt(s, p + 1)
  }

  predicate KeySpace(c: char) { c == ' ' }

  /** One line end is dropped at the front and one at the back. */
  function DropLineEnds(v: string): string {
    DropBack(DropFront(v))
  }

  function DropFront(v: string): string {
    if At(v, "\r\n", 0) then v[2..] else if v != "" && v[0] == '\n' then v[1..] else v
  }

  function DropBack(v: string): string {
    if |v| >= 2 && At(v, "\r\n", |v| - 2) then v[..|v| - 2] else if v != "" && v[|v| - 1] == '\n' then v[..|v| - 1] else v
  }

  datatype ParamMatch = ParamMatch(text: string, rest: string)

  /** The first parameter of a region and what follows it. */
  function FirstParam(s: string): (r: Option<ParamMatch>)
    ensures r.Some? ==> |r.value.rest| < |s|
  {
    var j := Find(s, PARAMETER_OPEN, 0);
    if j < 0 then None else
    var from := j + |PARAMETER_OPEN|;
    var q := StopAt(s, from);
    Some(ParamMatch(s[from..q], s[if At(s, PARAMETER_CLOSE, q) then q + |PARAMETER_CLOSE| else q..]))
  }

  /** Adds one parameter's key and value; a parameter without `>` is passed over. */
  function AddParam(tools: Tools, name: string, args: map<string, Value>, text: string): map<string, Value> {
    var eq := Find(text, ">", 0);
    if eq < 0 then args else
    var k, v := TrimLeft(TrimRight(text[..eq], KeySpace), KeySpace), DropLineEnds(text[eq + 1..]);
    args[k := ConvertParamValue(tools, name, k, v)]
  }

  function AddParams(tools: Tools, name: string, args: map<string, Value>, s: string): map<string, Value>
    decreases |s|
  {
    match FirstParam(s)
    case None => args
    case Some(m) => AddParams(tools, name, AddParam(tools, name, args, m.text), m.rest)
  }

  method ParseXmlParams(region: string, name: string, tools: Tools) returns (args: map<string, Value>)
    ensures args == AddParams(tools, name, map[], region)
  {
    args := map[];
    var s, more := region, true;
    while more
      invariant AddParams(tools, name, map[], region) == if more then AddParams(tools, name, args, s) else args
      decreases more, |s|
    {
      match FirstParam(s)
      case None =>
        more := false;
      case Some(m) =>
        var eq := Find(m.text, ">", 0);
        if eq >= 0 {
          var k, v := TrimLeft(TrimRight(m.text[..eq], KeySpace), KeySpace), DropLineEnds(m.text[eq + 1..]);
          args := args[k := ConvertParamValue(tools, name, k, v)];
        }
        s := m.rest;
    }
  }

  // ── Function elements ──

  predicate NameStart(c: char) { 'a' <= c <= 'z' || 'A' <= c <= 'Z' || c == '_' }

  predicate NameChar(c: char) { NameStart(c) || '0' <= c <= '9' || c == '.' || c == '-' }

  predicate PatternName(n: string) {
    n != "" && NameStart(n[0]) && forall i :: 0 <= i < |n| ==> NameChar(n[i])
  }

  /** What the regular expression class of spaces holds. */
  predicate RegexSpace(c: char) { c == ' ' || 9 <= c as int <= 13 }

  function SkipSpaces(s: string, i: nat): (j: nat)
    requires i <= |s|
    ensures i <= j <= |s|
    decreases |s| - i
  {
    if i < |s| && RegexSpace(s[i]) then SkipSpaces(s, i + 1) else i
  }

  /** A function element at the head of a text. */
  datatype Head = Head(name: string, params: string, length: nat)

  function MatchHead(t: string): (r: Option<Head>)
    ensures r.Some? ==> 0 < r.value.length <= |t|
  {
    if !At(t, FUNCTION_OPEN, 0) then None else
    var gt := Find(t, ">", |FUNCTION_OPEN|);
    if gt < 0 || !PatternName(t[|FUNCTION_OPEN|..gt]) then None else
    var close := Find(t, FUNCTION_CLOSE, gt + 1);
    if close < 0 then None else
    var end := close + |FUNCTION_CLOSE|;
    var after := SkipSpaces(t, end);
    Some(Head(t[|FUNCTION_OPEN|..gt], t[gt + 1..close], if At(t, TOOL_CALL_CLOSE, after) then after + |TOOL_CALL_CLOSE| else end))
  }

  datatype Found = Found(pos: nat, head: Head)

  /** The first function element at or after `from`. */
  function FirstMatch(s: string, from: nat): (r: Option<Found>)
    requires from <= |s|
    ensures r.Some? ==> from <= r.value.pos && r.value.pos + r.value.head.length <= |s| && r.value.head.length > 0
    decreases |s| - from
  {
    if MatchHead(s[from..]).Some? then Some(Found(from, MatchHead(s[from..]).value))
    else if from == |s| then None
    else FirstMatch(s, from + 1)
  }

  datatype Span = Span(start: nat, end: nat)

  predicate Overlaps(spans: seq<Span>, pos: nat) {
    exists i :: 0 <= i < |spans| && spans[i].start <= pos < spans[i].end
  }

  predicate BlankChar(c: char) { c == ' ' || c == '\t' || c == '\n' || c == '\r' }

  /** Last occurrence of `p` starting at or before `i`; -1 if none. */
  function FindLast(s: string, p: string, i: nat): (r: int)
    ensures r < 0 || (r <= i && At(s, p, r))
  {
    if At(s, p, i) then i else if i == 0 then -1 else FindLast(s, p, i - 1)
  }

  /** The element with a `<tool_call>` before it, if only blanks lie between. */
  function IncludePrecedingToolCallOpen(s: string, pos: nat): (r: nat)
    requires pos <= |s|
  {
    var w := FindLast(s, TOOL_CALL_OPEN, pos);
    if w < 0 then pos
    else if forall i :: w + |TOOL_CALL_OPEN| <= i < pos ==> BlankChar(s[i]) then w
    else pos
  }

  datatype Placed = Placed(pos: nat, call: ToolCall)

  /** Calls with their positions, and the spans to remove from the text. */
  datatype Progress = Progress(calls: seq<Placed>, removals: seq<Span>)

  /** The arguments are one string. */
  predicate OneString(args: map<string, Value>, k: string) {
    k in args && args[k].Str? && args == map[k := args[k]]
  }

  /** Codex's apply_patch takes its one string as it is. */
  function CallArguments(name: string, args: map<string, Value>): Arguments {
    if name == "apply_patch" && exists k :: k in args && OneString(args, k) then
      var k :| k in args && OneString(args, k);
      Raw(args[k].s)
    else Object(args)
  }

  predicate Within(text: string, spans: seq<Span>) {
    forall i :: 0 <= i < |spans| ==> Fits(text, spans[i])
  }

  predicate Fits(text: string, s: Span) {
    s.start <= |text| && s.end <= |text|
  }

  function AddCall(tools: Tools, text: string, f: Found, p: Progress): (r: Progress)
    requires f.pos + f.head.length <= |text|
    ensures Within(text, p.removals) ==> Within(text, r.removals)
  {
    if Overlaps(p.removals, f.pos) || !tools.allowed(f.head.name) then p else
    var call := ToolCall(f.head.name, CallArguments(f.head.name, AddParams(tools, f.head.name, map[], f.head.params)));
    var from := IncludePrecedingToolCallOpen(text, f.pos);
    Progress(p.calls + [Placed(from, call)], p.removals + [Span(from, f.pos + f.head.length)])
  }

  /** All function elements from `from` on, one after another. */
  function AddCalls(tools: Tools, text: string, from: nat, p: Progress): (r: Progress)
    requires from <= |text|
    ensures Within(text, p.removals) ==> Within(text, r.removals)
    decreases |text| - from
  {
    match FirstMatch(text, from)
    case None => p
    case Some(f) => AddCalls(tools, text, f.pos + f.head.length, AddCall(tools, text, f, p))
  }

  // ── Order and cleaned text ──

  function InsertByPosition(e: Placed, s: seq<Placed>): seq<Placed> {
    if s == [] || s[|s| - 1].pos <= e.pos then s + [e] else InsertByPosition(e, s[..|s| - 1]) + [s[|s| - 1]]
  }

  /** A stable sort by position. */
  function SortByPosition(s: seq<Placed>): (r: seq<Placed>)
  {
    if s == [] then [] else InsertByPosition(s[|s| - 1], SortByPosition(s[..|s| - 1]))
  }

  function InsertSpan(e: Span, s: seq<Span>): seq<Span> {
    if s == [] || s[|s| - 1].start <= e.start then s + [e] else InsertSpan(e, s[..|s| - 1]) + [s[|s| - 1]]
  }

  function SortSpans(s: seq<Span>): seq<Span> {
    if s == [] then [] else InsertSpan(s[|s| - 1], SortSpans(s[..|s| - 1]))
  }

  lemma {:induction false} InsertWithin(text: string, e: Span, s: seq<Span>)
    requires Fits(text, e) && Within(text, s)
    ensures Within(text, InsertSpan(e, s))
  {
    if s != [] && s[|s| - 1].start > e.start {
      InsertWithin(text, e, s[..|s| - 1]);
    }
  }

  lemma {:induction false} SortWithin(text: string, s: seq<Span>)
    requires Within(text, s)
    ensures Within(text, SortSpans(s))
  {
    if s != [] {
      SortWithin(text, s[..|s| - 1]);
      InsertWithin(text, s[|s| - 1], SortSpans(s[..|s| - 1]));
    }
  }

  /** The text from `cursor` on without the spans; a span that begins before the cursor is passed over. */
  function Without(text: string, cursor: nat, spans: seq<Span>): string
    requires cursor <= |text| && Within(text, spans)
    decreases |spans|
  {
    if spans == [] then text[cursor..]
    else if spans[0].start < cursor then Without(text, cursor, spans[1..])
    else text[cursor..spans[0].start] + Without(text, spans[0].end, spans[1..])
  }

  predicate Covered(spans: seq<Span>, i: nat) {
    exists k :: 0 <= k < |spans| && spans[k].start <= i < spans[k].end
  }

  /** The characters of the text from `from` on that no span covers, in order. */
  function Uncovered(text: string, spans: seq<Span>, from: nat): string
    requires from <= |text|
    decreases |text| - from
  {
    if from == |text| then "" else (if Covered(spans, from) then "" else [text[from]]) + Uncovered(text, spans, from + 1)
  }

  /** Non-empty spans, one after another, from `at` on. */
  ghost predicate Separate(spans: seq<Span>, at: nat) {
    && (forall i :: 0 <= i < |spans| ==> at <= spans[i].start < spans[i].end)
    && (forall i, j :: 0 <= i < j < |spans| ==> spans[i].end <= spans[j].start)
  }

  lemma {:induction false} UncoveredKept(text: string, spans: seq<Span>, a: nat, b: nat)
    requires a <= b <= |text| && forall i :: a <= i < b ==> !Covered(spans, i)
    ensures Uncovered(text, spans, a) == text[a..b] + Uncovered(text, spans, b)
    decreases b - a
  {
    if a < b {
      assert Uncovered(text, spans, a) == [text[a]] + Uncovered(text, spans, a + 1);
      hide *;
      UncoveredKept(text, spans, a + 1, b);
      assert text[a..b] == [text[a]] + text[a + 1..b];
      assert [text[a]] + (text[a + 1..b] + Uncovered(text, spans, b)) == [text[a]] + text[a + 1..b] + Uncovered(text, spans, b);
    }
  }

  lemma {:induction false} CoveredGone(text: string, spans: seq<Span>, a: nat, b: nat)
    requires a <= b <= |text| && forall i :: a <= i < b ==> Covered(spans, i)
    ensures Uncovered(text, spans, a) == Uncovered(text, spans, b)
    decreases b - a
  {
    if a < b {
      CoveredGone(text, spans, a + 1, b);
    }
  }

  lemma {:induction false} SameCover(text: string, spans: seq<Span>, spans': seq<Span>, a: nat)
    requires a <= |text| && forall i :: a <= i ==> Covered(spans, i) == Covered(spans', i)
    ensures Uncovered(text, spans, a) == Uncovered(text, spans', a)
    decreases |text| - a
  {
    if a < |text| {
      SameCover(text, spans, spans', a + 1);
    }
  }

  lemma FirstCovers(spans: seq<Span>, at: nat)
    requires spans != [] && Separate(spans, at)
    ensures Separate(spans[1..], spans[0].end)
    ensures forall i :: at <= i < spans[0].start ==> !Covered(spans, i)
    ensures forall i :: spans[0].start <= i < spans[0].end ==> Covered(spans, i)
    ensures forall i :: spans[0].end <= i ==> Covered(spans, i) == Covered(spans[1..], i)
  {
    assert forall k :: 0 < k < |spans| ==> spans[k] == spans[1..][k - 1];
    forall i: nat | spans[0].end <= i ensures Covered(spans, i) == Covered(spans[1..], i) {
      if Covered(spans, i) {
        var k :| 0 <= k < |spans| && spans[k].start <= i < spans[k].end;
        assert spans[1..][k - 1] == spans[k];
      }
      if Covered(spans[1..], i) {
        var k :| 0 <= k < |spans[1..]| && spans[1..][k].start <= i < spans[1..][k].end;
        assert spans[k + 1] == spans[1..][k];
      }
    }
  }

  /** What is left without separate spans is every character none of them covers. */
  lemma {:induction false} WithoutIsUncovered(text: string, cursor: nat, spans: seq<Span>)
    requires cursor <= |text| && Within(text, spans) && Separate(spans, cursor)
    ensures Without(text, cursor, spans) == Uncovered(text, spans, cursor)
    decreases |spans|
  {
    if spans == [] {
      UncoveredKept(text, spans, cursor, |text|);
      assert text[cursor..|text|] == text[cursor..];
    } else {
      var s := spans[0];
      FirstCovers(spans, cursor);
      hide Covered, Separate;
      UncoveredKept(text, spans, cursor, s.start);
      CoveredGone(text, spans, s.start, s.end);
      SameCover(text, spans, spans[1..], s.end);
      WithoutIsUncovered(text, s.end, spans[1..]);
    }
  }

  datatype Parsed = Parsed(calls: seq<ToolCall>, cleaned: string)

  method CollectCalls(text: string, tools: Tools) returns (p: Progress)
    ensures p == AddCalls(tools, text, 0, Progress([], []))
  {
    hide FirstMatch, Overlaps, IncludePrecedingToolCallOpen, AddParams, CallArguments, Within;
    p := Progress([], []);
    var cursor := 0;
    var next := FirstMatch(text, cursor);
    while next.Some?
      invariant cursor <= |text| && next == FirstMatch(text, cursor)
      invariant AddCalls(tools, text, cursor, p) == AddCalls(tools, text, 0, Progress([], []))
      decreases |text| - cursor
    {
      var f := next.value;
      cursor := f.pos + f.head.length;
      next := FirstMatch(text, cursor);
      if !Overlaps(p.removals, f.pos) {
        var from := IncludePrecedingToolCallOpen(text, f.pos);
        var args := ParseXmlParams(f.head.params, f.head.name, tools);
        if tools.allowed(f.head.name) {
          p := Progress(p.calls + [Placed(from, ToolCall(f.head.name, CallArguments(f.head.name, args)))],
                        p.removals + [Span(from, cursor)]);
        }
      }
    }
  }

  method RemoveSpans(text: string, spans: seq<Span>) returns (cleaned: string)
    requires Within(text, spans)
    ensures cleaned == Without(text, 0, spans)
    ensures Separate(spans, 0) ==> cleaned == Uncovered(text, spans, 0)
  {
    hide Separate, Uncovered, Covered;
    if Separate(spans, 0) {
      WithoutIsUncovered(text, 0, spans);
    }
    cleaned := "";
    var cursor: nat := 0;
    for i := 0 to |spans|
      invariant cursor <= |text| && cleaned + Without(text, cursor, spans[i..]) == Without(text, 0, spans)
    {
      assert spans[i..][1..] == spans[i + 1..];
      if spans[i].start >= cursor {
        cleaned := cleaned + text[cursor..spans[i].start];
        cursor := spans[i].end;
      }
    }
    cleaned := cleaned + text[cursor..];
  }

  function CallsOf(s: seq<Placed>): seq<ToolCall> {
    if s == [] then [] else [s[0].call] + CallsOf(s[1..])
  }

  /** The calls in the order of the text, and the text without them. */
  function Parse(text: string, tools: Tools): Parsed {
    var p := AddCalls(tools, text, 0, Progress([], []));
    SortWithin(text, p.removals);
    Parsed(CallsOf(SortByPosition(p.calls)),
           if p.removals == [] then text else Trim(Without(text, 0, SortSpans(p.removals)), BlankChar))
  }

  method ParseToolCalls(text: string, tools: Tools) returns (r: Parsed)
    ensures r == Parse(text, tools)
  {
    hide AddCalls, Trim, SortByPosition, SortSpans, Without;
    var p := CollectCalls(text, tools);
    var cleaned := text;
    if p.removals != [] {
      SortWithin(text, p.removals);
      cleaned := RemoveSpans(text, SortSpans(p.removals));
      cleaned := Trim(cleaned, BlankChar);
    }
    r := Parsed(CallsOf(SortByPosition(p.calls)), cleaned);
  }
}
