/** The one-pass meaning of `<think>` and `</think>`: how a whole text splits into reasoning and content. */
module ThinkSplit {
  import opened Text
  import opened Utf8

  const THINK_OPEN: Bytes := [0x3C, 0x74, 0x68, 0x69, 0x6E, 0x6B, 0x3E]
  const THINK_CLOSE: Bytes := [0x3C, 0x2F, 0x74, 0x68, 0x69, 0x6E, 0x6B, 0x3E]

  /** `reopened`: some reasoning came after the answer's message had been opened. */
  datatype Split = Split(reasoning: Bytes, content: Bytes, reopened: bool) {
    /** What was split off before, then this. */
    function After(reasoning': Bytes, content': Bytes, reopened': bool): Split {
      Split(reasoning' + reasoning, content' + content, reopened' || reopened)
    }
  }

  predicate LeadingSpace(b: byte) { b == 0x0A || b == 0x20 || b == 0x0D }

  /** Number of leading newlines, spaces and carriage returns. */
  function Spaces(t: Bytes): (n: nat)
    ensures n <= |t| && (forall i :: 0 <= i < n ==> LeadingSpace(t[i])) && (n < |t| ==> !LeadingSpace(t[n]))
  {
    if t != [] && LeadingSpace(t[0]) then 1 + Spaces(t[1..]) else 0
  }

  /** The one-time strip of an opening tag, with the spaces before it, from the start of the reasoning. */
  function Strip(t: Bytes): (r: Bytes)
    ensures |r| <= |t|
  {
    if At(t, THINK_OPEN, Spaces(t)) then t[Spaces(t) + |THINK_OPEN|..] else t
  }

  /** A tag, the stripped spaces and tag, or nothing where there was nothing to strip. */
  predicate IsTag(t: Bytes) {
    t == THINK_CLOSE || t == [] || (Spaces(t) + |THINK_OPEN| == |t| && At(t, THINK_OPEN, Spaces(t)))
  }

  lemma NothingIsTag()
    ensures IsTag([])
  {
  }

  lemma OpenIsTag()
    ensures IsTag(THINK_OPEN)
  {
    assert Spaces(THINK_OPEN) == 0;
    assert THINK_OPEN[0..|THINK_OPEN|] == THINK_OPEN;
  }

  datatype FirstTag = NoTag | Found(pos: nat, tag: Bytes, toReasoning: bool)

  /** A tag that matters starts at `i`: in reasoning only the closing one, in content either. */
  predicate TagAt(reasoning: bool, t: Bytes, i: int) {
    At(t, THINK_CLOSE, i) || (!reasoning && At(t, THINK_OPEN, i))
  }

  /** The first tag that matters at or after `from`. */
  function NextTag(reasoning: bool, t: Bytes, from: nat := 0): (r: FirstTag)
    ensures r.Found? ==> 0 < |r.tag| <= |t| - r.pos
    decreases |t| - from
  {
    if from >= |t| then NoTag
    else if TagAt(reasoning, t, from) then TagFound(reasoning, t, from)
    else NextTag(reasoning, t, from + 1)
  }

  lemma {:induction false} NextTagIsFirst(reasoning: bool, t: Bytes, from: nat)
    ensures var r := NextTag(reasoning, t, from);
            && (r.Found? ==> from <= r.pos && TagAt(reasoning, t, r.pos) && r == TagFound(reasoning, t, r.pos))
            && (forall i :: from <= i && TagAt(reasoning, t, i) ==> r.Found? && r.pos <= i)
    decreases |t| - from
  {
    if from < |t| && !TagAt(reasoning, t, from) {
      NextTagIsFirst(reasoning, t, from + 1);
    }
  }

  /** No `<think>` or `</think>` in the text. */
  predicate NoTags(t: Bytes) {
    NextTag(false, t).NoTag?
  }

  function TagFound(reasoning: bool, t: Bytes, i: nat): FirstTag {
    if At(t, THINK_CLOSE, i) then Found(i, THINK_CLOSE, false) else Found(i, THINK_OPEN, true)
  }

  /**
   Splits `t`, starting in reasoning or in content. `checked`: the strip has been done. `answered`:
   the answer's message is already open.
   */
  function Run(reasoning: bool, checked: bool, answered: bool, t: Bytes): Split
    decreases |t|, !checked
  {
    if reasoning && !checked then Run(true, true, answered, Strip(t)) else
    match NextTag(reasoning, t)
    case NoTag => Part(reasoning, answered, t)
    case Found(k, tag, next) =>
      var p := Part(reasoning, answered, t[..k]);
      Run(next, checked, answered || p.content != [], t[k + |tag|..]).After(p.reasoning, p.content, p.reopened)
  }

  /** Untagged text, all of it reasoning or all of it content. */
  function Part(reasoning: bool, answered: bool, t: Bytes): Split {
    if reasoning then Split(t, [], answered && t != []) else Split([], t, false)
  }

  /** The split of a whole response. */
  function Whole(startedInThinking: bool, t: Bytes): Split {
    Run(startedInThinking, false, !startedInThinking, t)
  }

  /** Whether such a text leaves the reasoning open. */
  predicate Ends(reasoning: bool, checked: bool, t: Bytes)
    decreases |t|, !checked
  {
    if reasoning && !checked then Ends(true, true, Strip(t)) else
    match NextTag(reasoning, t)
    case NoTag => reasoning
    case Found(k, tag, next) => Ends(next, checked, t[k + |tag|..])
  }

  // ── Nothing is lost but tags ──

  datatype Segment = Reasoning(text: Bytes) | Content(text: Bytes) | Tag(text: Bytes)

  /** The same split as a list of consecutive segments. */
  function Segments(reasoning: bool, checked: bool, t: Bytes): seq<Segment>
    decreases |t|, !checked
  {
    if reasoning && !checked then [Tag(t[..|t| - |Strip(t)|])] + Segments(true, true, Strip(t)) else
    match NextTag(reasoning, t)
    case NoTag => [Plain(reasoning, t)]
    case Found(k, tag, next) => [Plain(reasoning, t[..k]), Tag(tag)] + Segments(next, checked, t[k + |tag|..])
  }

  function Plain(reasoning: bool, t: Bytes): Segment {
    if reasoning then Reasoning(t) else Content(t)
  }

  function AllText(s: seq<Segment>): Bytes {
    if s == [] then [] else s[0].text + AllText(s[1..])
  }

  function ReasoningText(s: seq<Segment>): Bytes {
    if s == [] then [] else (if s[0].Reasoning? then s[0].text else []) + ReasoningText(s[1..])
  }

  function ContentText(s: seq<Segment>): Bytes {
    if s == [] then [] else (if s[0].Content? then s[0].text else []) + ContentText(s[1..])
  }

  /** Segments `s` make up exactly the text `t`, and carry the reasoning and content of `x`. */
  ghost predicate Accounts(s: seq<Segment>, t: Bytes, x: Split) {
    && AllText(s) == t && ReasoningText(s) == x.reasoning && ContentText(s) == x.content
    && forall i :: 0 <= i < |s| && s[i].Tag? ==> IsTag(s[i].text)
  }

  lemma {:induction false} AccountsCons(a: Segment, s: seq<Segment>, t: Bytes, x: Split, y: Split)
    requires Accounts(s, t, x) && (a.Tag? ==> IsTag(a.text))
    requires y.reasoning == (if a.Reasoning? then a.text else []) + x.reasoning
    requires y.content == (if a.Content? then a.text else []) + x.content
    ensures Accounts([a] + s, a.text + t, y)
  {
    assert ([a] + s)[1..] == s;
  }

  /** A piece of text and the tag after it, in front of the rest. */
  lemma {:induction false} AccountsTagged(a: Segment, tag: Bytes, s: seq<Segment>, rest: Bytes, x: Split, t: Bytes, y: Split)
    requires Accounts(s, rest, x) && !a.Tag? && IsTag(tag) && t == a.text + (tag + rest)
    requires y.reasoning == (if a.Reasoning? then a.text else []) + x.reasoning
    requires y.content == (if a.Content? then a.text else []) + x.content
    ensures Accounts([a, Tag(tag)] + s, t, y)
  {
    AccountsCons(Tag(tag), s, rest, x, x);
    AccountsCons(a, [Tag(tag)] + s, tag + rest, x, y);
    assert [a, Tag(tag)] + s == [a] + ([Tag(tag)] + s);
  }

  lemma {:induction false} StripIsTag(t: Bytes)
    ensures IsTag(t[..|t| - |Strip(t)|]) && t[..|t| - |Strip(t)|] + Strip(t) == t
  {
    hide IsTag, Spaces;
    var k := |t| - |Strip(t)|;
    assert t[..k] + t[k..] == t;
    if At(t, THINK_OPEN, Spaces(t)) {
      SpacesAndTag(t, t[..k]);
    } else {
      NothingIsTag();
      assert t[..k] == [];
    }
  }

  lemma {:induction false} SpacesAndTag(t: Bytes, tag: Bytes)
    requires At(t, THINK_OPEN, Spaces(t)) && tag == t[..Spaces(t) + |THINK_OPEN|]
    ensures IsTag(tag)
  {
    var n := Spaces(t);
    SpacesPrefix(t, |tag|);
    assert tag[n..n + |THINK_OPEN|] == t[n..n + |THINK_OPEN|];
  }

  /** Cutting after the first non-space does not change the leading spaces. */
  lemma {:induction false} SpacesPrefix(t: Bytes, k: nat)
    requires Spaces(t) < k <= |t|
    ensures Spaces(t[..k]) == Spaces(t)
  {
    var n, m := Spaces(t), Spaces(t[..k]);
    assert t[..k][n] == t[n] && (m < k ==> t[..k][m] == t[m]);
  }

  lemma {:induction false} CutAtTag(reasoning: bool, t: Bytes)
    requires NextTag(reasoning, t).Found?
    ensures var Found(k, tag, next) := NextTag(reasoning, t); IsTag(tag) && t == t[..k] + (tag + t[k + |tag|..])
  {
    OpenIsTag();
    NextTagIsFirst(reasoning, t, 0);
  }

  lemma {:induction false} TaggedAccounts(reasoning: bool, checked: bool, answered: bool, t: Bytes, p: Split, answered': bool,
                                          rest: Bytes, s: seq<Segment>, x: Split)
    requires (reasoning ==> checked) && NextTag(reasoning, t).Found?
    requires var f := NextTag(reasoning, t);
             && rest == t[f.pos + |f.tag|..] && p == Part(reasoning, answered, t[..f.pos]) && answered' == (answered || p.content != [])
             && s == Segments(f.toReasoning, checked, rest) && x == Run(f.toReasoning, checked, answered', rest)
    requires Accounts(s, rest, x)
    ensures Accounts(Segments(reasoning, checked, t), t, Run(reasoning, checked, answered, t))
  {
    hide Accounts, NextTag, IsTag;
    var Found(k, tag, next) := NextTag(reasoning, t);
    CutAtTag(reasoning, t);
    AccountsTagged(Plain(reasoning, t[..k]), tag, s, rest, x, t, x.After(p.reasoning, p.content, p.reopened));
  }

  /** The segments are the text in order; reasoning and content are theirs; everything else is tags. */
  lemma {:induction false} NothingLost(reasoning: bool, checked: bool, answered: bool, t: Bytes)
    ensures Accounts(Segments(reasoning, checked, t), t, Run(reasoning, checked, answered, t))
    decreases |t|, !checked
  {
    var x := Run(reasoning, checked, answered, t);
    if reasoning && !checked {
      StripIsTag(t);
      NothingLost(true, true, answered, Strip(t));
      AccountsCons(Tag(t[..|t| - |Strip(t)|]), Segments(true, true, Strip(t)), Strip(t), x, x);
    } else {
      match NextTag(reasoning, t)
      case NoTag =>
        AccountsCons(Plain(reasoning, t), [], [], Split([], [], false), x);
        assert [Plain(reasoning, t)] + [] == [Plain(reasoning, t)] && t + [] == t;
      case Found(k, tag, next) =>
        var p, rest := Part(reasoning, answered, t[..k]), t[k + |tag|..];
        var answered' := answered || p.content != [];
        NothingLost(next, checked, answered', rest);
        TaggedAccounts(reasoning, checked, answered, t, p, answered', rest,
                       Segments(next, checked, rest), Run(next, checked, answered', rest));
    }
  }

}
