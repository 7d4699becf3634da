/**
 The decoder's target model, with the GPU abstracted away. A forward pass is one unknown
 function of the attention rows it may see, the recurrent state and the token fed.
 */
module TargetModel {
  import opened Text

  /** Vocabulary ids; the code's "no token" (-1) is not one. */
  type Token = nat

  /** What a forward pass reads: the attention rows of the positions before it, and the recurrent state. */
  datatype Ctx<Row, Rec> = Ctx(rows: seq<Row>, rec: Rec)

  /** What it produces: its own attention row, the next recurrent state, the argmax of its logits. */
  datatype Forward<Row, Rec> = Forward(row: Row, rec: Rec, next: Token)

  datatype Net<!Row, !Rec> = Net(init: Rec, forward: (Ctx<Row, Rec>, Token) -> Forward<Row, Rec>, eos: Token -> bool)

  function Push<Row, Rec>(net: Net<Row, Rec>, c: Ctx<Row, Rec>, t: Token): Ctx<Row, Rec> {
    var o := net.forward(c, t);
    Ctx(c.rows + [o.row], o.rec)
  }

  /** Feeds tokens one at a time, each seeing exactly the rows before it. */
  function Feed<Row, Rec>(net: Net<Row, Rec>, c: Ctx<Row, Rec>, toks: seq<Token>): (d: Ctx<Row, Rec>)
    ensures |d.rows| == |c.rows| + |toks|
  {
    if toks == [] then c else Push(net, Feed(net, c, toks[..|toks| - 1]), toks[|toks| - 1])
  }

  /** The state a plain one-token-at-a-time decode has after history `h`. */
  function Run<Row, Rec>(net: Net<Row, Rec>, h: seq<Token>): (c: Ctx<Row, Rec>)
    ensures |c.rows| == |h|
  {
    Feed(net, Ctx([], net.init), h)
  }

  /** The target's greedy continuation of a non-empty history. */
  function G<Row, Rec>(net: Net<Row, Rec>, h: seq<Token>): Token
    requires h != []
  {
    net.forward(Run(net, h[..|h| - 1]), h[|h| - 1]).next
  }

  /** Greedy decoding: at most `n` tokens after `h`, stopping after the first end-of-sequence token. */
  function Greedy<Row, Rec>(net: Net<Row, Rec>, h: seq<Token>, n: nat): seq<Token>
    requires h != []
    decreases n
  {
    if n == 0 then [] else
    var t := G(net, h);
    if net.eos(t) then [t] else [t] + Greedy(net, h + [t], n - 1)
  }

  /** Token `i` of `out` is the target's own choice after `h` and the tokens before it. */
  ghost predicate Chosen<Row, Rec>(net: Net<Row, Rec>, h: seq<Token>, out: seq<Token>, i: int)
    requires h != []
  {
    0 <= i < |out| && out[i] == G(net, h + out[..i])
  }

  ghost predicate IsGreedy<Row, Rec>(net: Net<Row, Rec>, h: seq<Token>, out: seq<Token>)
    requires h != []
  {
    forall i :: 0 <= i < |out| ==> Chosen(net, h, out, i)
  }

  ghost predicate NoEos<Row, Rec>(net: Net<Row, Rec>, out: seq<Token>) {
    forall i :: 0 <= i < |out| ==> !net.eos(out[i])
  }

  /** The output's last token, and no earlier one, ends the sequence. */
  ghost predicate EndsInEos<Row, Rec>(net: Net<Row, Rec>, out: seq<Token>) {
    out != [] && net.eos(out[|out| - 1]) && NoEos(net, out[..|out| - 1])
  }

  /** The forward results of feeding `toks` one at a time. */
  function Trace<Row, Rec>(net: Net<Row, Rec>, c: Ctx<Row, Rec>, toks: seq<Token>): (r: seq<Forward<Row, Rec>>)
    ensures |r| == |toks|
  {
    if toks == [] then [] else
    var front := toks[..|toks| - 1];
    Trace(net, c, front) + [net.forward(Feed(net, c, front), toks[|toks| - 1])]
  }

  lemma FeedNothing<Row, Rec>(net: Net<Row, Rec>, c: Ctx<Row, Rec>, toks: seq<Token>)
    ensures Feed(net, c, toks[..0]) == c && Trace(net, c, toks[..0]) == []
  {
  }

  lemma {:induction false} FeedOneMore<Row, Rec>(net: Net<Row, Rec>, c: Ctx<Row, Rec>, toks: seq<Token>, i: nat, o: Forward<Row, Rec>)
    requires i < |toks| && o == net.forward(Feed(net, c, toks[..i]), toks[i])
    ensures var d := Feed(net, c, toks[..i]); Feed(net, c, toks[..i + 1]) == Ctx(d.rows + [o.row], o.rec)
    ensures Trace(net, c, toks[..i + 1]) == Trace(net, c, toks[..i]) + [o]
  {
    assert toks[..i + 1][..i] == toks[..i];
  }

  lemma {:induction false} FeedConcat<Row, Rec>(net: Net<Row, Rec>, c: Ctx<Row, Rec>, a: seq<Token>, b: seq<Token>)
    ensures Feed(net, c, a + b) == Feed(net, Feed(net, c, a), b)
  {
    if b == [] {
      assert a + b == a;
    } else {
      FeedConcat(net, c, a, b[..|b| - 1]);
      assert (a + b)[..|a + b| - 1] == a + b[..|b| - 1];
    }
  }

  /** The rows written for a prefix do not depend on what was fed after it. */
  lemma {:induction false} FeedRows<Row, Rec>(net: Net<Row, Rec>, c: Ctx<Row, Rec>, toks: seq<Token>, k: nat)
    requires k <= |toks|
    ensures Feed(net, c, toks[..k]).rows == Feed(net, c, toks).rows[..|c.rows| + k]
  {
    if k == |toks| {
      assert toks[..k] == toks;
    } else {
      var front := toks[..|toks| - 1];
      FeedRows(net, c, front, k);
      assert front[..k] == toks[..k];
    }
  }

  lemma {:induction false} TraceAt<Row, Rec>(net: Net<Row, Rec>, c: Ctx<Row, Rec>, toks: seq<Token>, i: nat)
    requires i < |toks|
    ensures Trace(net, c, toks)[i] == net.forward(Feed(net, c, toks[..i]), toks[i])
  {
    var front := toks[..|toks| - 1];
    if i < |front| {
      TraceAt(net, c, front, i);
      assert front[..i] == toks[..i];
    } else {
      assert toks[..i] == front;
    }
  }

  /** Batched results after history `h` are the greedy choices and the states of the extended histories. */
  lemma {:induction false} TraceIsRun<Row, Rec>(net: Net<Row, Rec>, h: seq<Token>, toks: seq<Token>, i: nat)
    requires i < |toks|
    ensures h + toks[..i + 1] != []
    ensures Trace(net, Run(net, h), toks)[i].next == G(net, h + toks[..i + 1])
    ensures Trace(net, Run(net, h), toks)[i].rec == Run(net, h + toks[..i + 1]).rec
    ensures Trace(net, Run(net, h), toks)[i].row == Run(net, h + toks[..i + 1]).rows[|h| + i]
  {
    TraceAt(net, Run(net, h), toks, i);
    RunConcat(net, h, toks[..i]);
    var g := h + toks[..i + 1];
    assert g[..|g| - 1] == h + toks[..i];
  }

  lemma {:induction false} RunConcat<Row, Rec>(net: Net<Row, Rec>, h: seq<Token>, toks: seq<Token>)
    ensures Feed(net, Run(net, h), toks) == Run(net, h + toks)
  {
    FeedConcat(net, Ctx([], net.init), h, toks);
  }

  lemma {:induction false} IsGreedyConcat<Row, Rec>(net: Net<Row, Rec>, h: seq<Token>, a: seq<Token>, b: seq<Token>)
    requires h != [] && IsGreedy(net, h, a) && IsGreedy(net, h + a, b)
    ensures IsGreedy(net, h, a + b)
  {
    forall i | 0 <= i < |a + b| ensures Chosen(net, h, a + b, i) {
      if i < |a| {
        assert Chosen(net, h, a, i) && (a + b)[..i] == a[..i];
      } else {
        assert Chosen(net, h + a, b, i - |a|) && h + (a + b)[..i] == h + a + b[..i - |a|];
      }
    }
  }

  lemma {:induction false} IsGreedyPrefix<Row, Rec>(net: Net<Row, Rec>, h: seq<Token>, out: seq<Token>, k: nat)
    requires h != [] && k <= |out| && IsGreedy(net, h, out)
    ensures IsGreedy(net, h, out[..k])
  {
    forall i | 0 <= i < k ensures Chosen(net, h, out[..k], i) {
      assert Chosen(net, h, out, i) && out[..k][..i] == out[..i];
    }
  }

  lemma {:induction false} IsGreedyTail<Row, Rec>(net: Net<Row, Rec>, h: seq<Token>, out: seq<Token>)
    requires h != [] && out != [] && IsGreedy(net, h, out)
    ensures out[0] == G(net, h)
    ensures IsGreedy(net, h + [out[0]], out[1..])
  {
    assert Chosen(net, h, out, 0) && h + out[..0] == h;
    forall i | 0 <= i < |out[1..]| ensures Chosen(net, h + [out[0]], out[1..], i) {
      assert Chosen(net, h, out, i + 1) && h + [out[0]] + out[1..][..i] == h + out[..i + 1];
    }
  }

  /** The greedy decode starts with any run of greedy choices that has not met an end of sequence. */
  lemma {:induction false} GreedyUnfold<Row, Rec>(net: Net<Row, Rec>, h: seq<Token>, out: seq<Token>, n: nat)
    requires h != [] && |out| <= n && IsGreedy(net, h, out) && NoEos(net, out)
    ensures h + out != [] && Greedy(net, h, n) == out + Greedy(net, h + out, n - |out|)
    decreases n
  {
    if out == [] {
      assert h + out == h;
    } else {
      var t, rest := out[0], out[1..];
      IsGreedyTail(net, h, out);
      assert !net.eos(t) && NoEos(net, rest);
      GreedyUnfold(net, h + [t], rest, n - 1);
      assert h + [t] + rest == h + out;
    }
  }

  /** An output that is full, or whose only end of sequence is its last token, is the whole greedy decode. */
  lemma {:induction false} GreedyComplete<Row, Rec>(net: Net<Row, Rec>, h: seq<Token>, out: seq<Token>, n: nat)
    requires h != [] && |out| <= n && IsGreedy(net, h, out)
    requires (NoEos(net, out) && |out| == n) || EndsInEos(net, out)
    ensures out == Greedy(net, h, n)
  {
    if NoEos(net, out) {
      GreedyUnfold(net, h, out, n);
    } else {
      var k := |out| - 1;
      IsGreedyPrefix(net, h, out, k);
      GreedyUnfold(net, h, out[..k], n);
      assert Chosen(net, h, out, k);
    }
  }

  // ── Draft trees ──

  /**
   A draft tree: node 0 is the pending token, node i+1 carries `tokens[i]` below `parents[i]`.
   `children[i]` finds a child of node i by its token.
   */
  datatype DDTree = DDTree(tokens: seq<Token>, parents: seq<nat>, children: seq<map<Token, nat>>) {
    predicate Valid() {
      && |parents| == |tokens|
      && |children| == |tokens| + 1
      && (forall i :: 0 <= i < |parents| ==> parents[i] <= i)
      && (forall i, t :: 0 <= i < |children| && t in children[i] ==>
            1 <= children[i][t] <= |tokens| && parents[children[i][t] - 1] == i && tokens[children[i][t] - 1] == t)
    }

    /** The tokens from the root, `root`, down to node `i`. */
    ghost function Path(root: Token, i: nat): (p: seq<Token>)
      requires Valid() && i <= |tokens|
      ensures p != []
    {
      if i == 0 then [root] else Path(root, parents[i - 1]) + [tokens[i - 1]]
    }

    /** The token a node carries. */
    function Tok(root: Token, i: nat): Token
      requires i <= |tokens|
    {
      if i == 0 then root else tokens[i - 1]
    }
  }

  /** `argmax` lists the choices of the forward results `outs`. */
  ghost predicate Nexts<Row, Rec>(argmax: seq<Token>, outs: seq<Forward<Row, Rec>>) {
    |argmax| == |outs| && forall i :: 0 <= i < |outs| ==> argmax[i] == outs[i].next
  }

  /** The context node `i` of a draft tree is run in: the history and the node's ancestors. */
  ghost function NodeCtx<Row, Rec>(net: Net<Row, Rec>, c: Ctx<Row, Rec>, tree: DDTree, root: Token, i: nat): Ctx<Row, Rec>
    requires tree.Valid() && i <= |tree.tokens|
  {
    if i == 0 then c else
    var up := tree.parents[i - 1];
    Push(net, NodeCtx(net, c, tree, root, up), tree.Tok(root, up))
  }

  lemma {:induction false} NodeCtxIsFeed<Row, Rec>(net: Net<Row, Rec>, c: Ctx<Row, Rec>, tree: DDTree, root: Token, i: nat)
    requires tree.Valid() && i <= |tree.tokens|
    ensures var p := tree.Path(root, i); p[|p| - 1] == tree.Tok(root, i) && NodeCtx(net, c, tree, root, i) == Feed(net, c, p[..|p| - 1])
  {
    if i != 0 {
      var up := tree.parents[i - 1];
      NodeCtxIsFeed(net, c, tree, root, up);
      var p := tree.Path(root, i);
      assert p[..|p| - 1] == tree.Path(root, up);
    }
  }

  /** `outs` are the results of running the nodes of `tree` below context `c`. */
  ghost predicate NodeResults<Row, Rec>(net: Net<Row, Rec>, c: Ctx<Row, Rec>, tree: DDTree, root: Token, outs: seq<Forward<Row, Rec>>)
    requires tree.Valid()
  {
    |outs| <= |tree.tokens| + 1 && forall i :: 0 <= i < |outs| ==> NodeResult(net, c, tree, root, i, outs[i])
  }

  ghost predicate NodeResult<Row, Rec>(net: Net<Row, Rec>, c: Ctx<Row, Rec>, tree: DDTree, root: Token, i: nat, o: Forward<Row, Rec>)
    requires tree.Valid() && i <= |tree.tokens|
  {
    o == net.forward(NodeCtx(net, c, tree, root, i), tree.Tok(root, i))
  }

  lemma NoResults<Row, Rec>(net: Net<Row, Rec>, c: Ctx<Row, Rec>, tree: DDTree, root: Token)
    requires tree.Valid()
    ensures NodeResults(net, c, tree, root, [])
  {
  }

  lemma CtxOf<Row, Rec>(net: Net<Row, Rec>, c: Ctx<Row, Rec>, tree: DDTree, root: Token, i: nat)
    requires tree.Valid() && i <= |tree.tokens|
    ensures NodeCtx(net, c, tree, root, i) ==
            if i == 0 then c else Push(net, NodeCtx(net, c, tree, root, tree.parents[i - 1]), tree.Tok(root, tree.parents[i - 1]))
  {
  }

  lemma ItsResult<Row, Rec>(net: Net<Row, Rec>, c: Ctx<Row, Rec>, tree: DDTree, root: Token, i: nat, ctx: Ctx<Row, Rec>, o: Forward<Row, Rec>)
    requires tree.Valid() && i <= |tree.tokens| && ctx == NodeCtx(net, c, tree, root, i) && o == net.forward(ctx, tree.Tok(root, i))
    ensures NodeResult(net, c, tree, root, i, o)
  {
  }

  lemma NodeResultsMore<Row, Rec>(net: Net<Row, Rec>, c: Ctx<Row, Rec>, tree: DDTree, root: Token,
                                  outs: seq<Forward<Row, Rec>>, o: Forward<Row, Rec>)
    requires tree.Valid() && NodeResults(net, c, tree, root, outs) && |outs| <= |tree.tokens| && NodeResult(net, c, tree, root, |outs|, o)
    ensures NodeResults(net, c, tree, root, outs + [o])
  {
    hide NodeResult;
  }

  /** Runs every node in its ancestors' context. */
  method RunNodes<Row, Rec>(net: Net<Row, Rec>, c: Ctx<Row, Rec>, tree: DDTree, root: Token)
    returns (nodes: seq<Forward<Row, Rec>>, posterior: seq<Token>)
    requires tree.Valid()
    ensures |nodes| == |tree.tokens| + 1 && NodeResults(net, c, tree, root, nodes) && Nexts(posterior, nodes)
  {
    hide NodeResults, NodeResult, NodeCtx, Push;
    nodes, posterior := [], [];
    NoResults(net, c, tree, root);
    var ctxs := [];
    for i := 0 to |tree.tokens| + 1
      invariant |nodes| == |ctxs| == i && NodeResults(net, c, tree, root, nodes) && Nexts(posterior, nodes)
      invariant forall j :: 0 <= j < i ==> ctxs[j] == NodeCtx(net, c, tree, root, j)
    {
      var ctx := c;
      if i > 0 {
        var up := tree.parents[i - 1];
        ctx := Push(net, ctxs[up], tree.Tok(root, up));
      }
      CtxOf(net, c, tree, root, i);
      var o := net.forward(ctx, tree.Tok(root, i));
      ItsResult(net, c, tree, root, i, ctx, o);
      NodeResultsMore(net, c, tree, root, nodes, o);
      ctxs, nodes, posterior := ctxs + [ctx], nodes + [o], posterior + [o.next];
    }
  }

  // ── The target's mutable state ──

  /**
   The KV cache and recurrent state behind `DFlashTarget`. With `mayFail` any operation may fail, and
   without it only those that run out of context; a failed one leaves arbitrary data where it would
   have written. `faulted`: one has failed for good.
   */
  class Target<Row(0), Rec(0)> {
    const net: Net<Row, Rec>
    const attn: array<Row>
    const mayFail: bool                             // whether operations can fail at all
    var rec: Rec
    var saved: Option<Rec>
    var captured: seq<Forward<Row, Rec>>            // per-token results of the last verify
    var treeNodes: seq<Forward<Row, Rec>>           // per-node results of the last tree verify

    ghost var faulted: bool

    constructor (net: Net<Row, Rec>, maxCtx: nat, blank: Row, mayFail: bool)
      ensures this.net == net && rec == net.init && attn.Length == maxCtx && fresh(attn) && this.mayFail == mayFail && !faulted
    {
      this.mayFail := mayFail;
      this.net, rec, saved, captured, treeNodes := net, net.init, None, [], [];
      faulted := false;
      attn := new Row[maxCtx](_ => blank);
    }

    /** Rows and recurrent state are those of a plain decode of `h`; rows at or above |h| are arbitrary. */
    ghost predicate Agrees(h: seq<Token>)
      reads this, attn
    {
      |h| <= attn.Length && Ctx(attn[..|h|], rec) == Run(net, h)
    }

    /** A failing operation: it reports false and leaves the recurrent state arbitrary. */
    method Fault() returns (ok: bool)
      modifies this`rec, this`faulted
      ensures faulted && !ok
    {
      rec := *;
      faulted := true;
      ok := false;
    }

    method SnapshotKv() returns (ok: bool)
      modifies this
      ensures ok ==> rec == old(rec) && saved == Some(rec)
      ensures faulted == (old(faulted) || !ok)
      ensures !ok ==> mayFail
    {
      var fails: bool := *;
      if mayFail && fails { ok := Fault(); return; }
      saved := Some(rec);
      ok := true;
    }

    /** Only the recurrent part is restored; attention rows stay as they are. */
    method RestoreKv() returns (ok: bool)
      requires saved.Some?
      modifies this
      ensures saved == old(saved)
      ensures ok ==> rec == saved.value
      ensures faulted == (old(faulted) || !ok)
      ensures !ok ==> mayFail
    {
      var fails: bool := *;
      if mayFail && fails { ok := Fault(); return; }
      rec := saved.value;
      ok := true;
    }

    /**
     Runs `toks` at positions `pos`, `pos`+1, …: token i sees rows [0, pos+i) and the recurrent
     state left by token i-1. `argmax[i]` is the target's choice after token i.
     */
    method VerifyBatch(toks: seq<Token>, pos: nat) returns (ok: bool, argmax: seq<Token>)
      modifies this, attn
      ensures saved == old(saved)
      ensures pos <= attn.Length ==> attn[..pos] == old(attn[..pos])
      ensures ok ==>
                && pos + |toks| <= attn.Length
                && Ctx(attn[..pos + |toks|], rec) == Feed(net, old(Ctx(attn[..pos], rec)), toks)
                && captured == Trace(net, old(Ctx(attn[..pos], rec)), toks)
                && Nexts(argmax, captured)
      ensures faulted == (old(faulted) || !ok)
      ensures !ok ==> mayFail || pos + |toks| > attn.Length
    {
      hide Feed, Trace;
      argmax := [];
      var fails: bool := *;
      if (mayFail && fails) || pos + |toks| > attn.Length { ok := Fault(); return; }
      captured := [];
      ghost var c := Ctx(attn[..pos], rec);
      FeedNothing(net, c, toks);
      for i := 0 to |toks|
        invariant saved == old(saved) && attn[..pos] == c.rows && faulted == old(faulted)
        invariant Ctx(attn[..pos + i], rec) == Feed(net, c, toks[..i])
        invariant captured == Trace(net, c, toks[..i])
        invariant Nexts(argmax, captured)
      {
        var o := net.forward(Ctx(attn[..pos + i], rec), toks[i]);
        FeedOneMore(net, c, toks, i, o);
        attn[pos + i] := o.row;
        assert attn[..pos + i + 1] == attn[..pos + i] + [o.row];
        rec, captured, argmax := o.rec, captured + [o], argmax + [o.next];
      }
      assert toks[..|toks|] == toks;
      ok := true;
    }

    /** Recurrent state after the first `n` tokens of the last verify, from its captured intermediates. */
    method RollbackTo(n: nat) returns (ok: bool, recoverable: bool)
      requires 1 <= n <= |captured|
      modifies this
      ensures saved == old(saved)
      ensures ok ==> rec == old(captured[n - 1]).rec
      ensures faulted == (old(faulted) || (!ok && !recoverable))
      ensures !ok ==> mayFail
    {
      var fails: bool := *;
      if mayFail && fails {
        if * {
          var _ := Fault();
          return false, false;
        }
        rec := *;
        return false, true;
      }
      rec := captured[n - 1].rec;
      return true, true;
    }

    /**
     One ancestor-masked forward over all nodes: node i sees rows [0, pos) and its ancestors.
     The node rows land at [pos, pos+padded), which is garbage for any linear history; padding nodes
     may follow the real ones.
     */
    method VerifyTree(tree: DDTree, root: Token, pos: nat, padded: nat) returns (ok: bool, posterior: seq<Token>)
      requires tree.Valid() && padded >= |tree.tokens| + 1
      modifies this, attn
      ensures saved == old(saved)
      ensures pos <= attn.Length ==> attn[..pos] == old(attn[..pos])
      ensures ok ==>
                && pos + padded <= attn.Length && |treeNodes| == |tree.tokens| + 1
                && NodeResults(net, old(Ctx(attn[..pos], rec)), tree, root, treeNodes)
                && Nexts(posterior, treeNodes)
      ensures faulted == (old(faulted) || !ok)
      ensures !ok ==> mayFail || pos + padded > attn.Length
    {
      posterior := [];
      var fails: bool := *;
      if (mayFail && fails) || pos + padded > attn.Length { ok := Fault(); return; }
      treeNodes, posterior := RunNodes(net, Ctx(attn[..pos], rec), tree, root);
      Scribble(pos, padded);
      ok := true;
    }

    /** Leaves arbitrary data in the recurrent state and in rows [pos, pos+n). */
    method Scribble(pos: nat, n: nat)
      requires pos + n <= attn.Length
      modifies this`rec, attn
      ensures attn[..pos] == old(attn[..pos])
    {
      rec := *;
      for k := 0 to n
        invariant attn[..pos] == old(attn[..pos])
      {
        attn[pos + k] := *;
      }
    }

    /** Moves the rows of the `accepted` path into place and restores the recurrent state after it. */
    method RollbackToTree(pos: nat, accepted: seq<nat>) returns (ok: bool)
      requires accepted != [] && pos + |accepted| <= attn.Length
      requires forall k :: 0 <= k < |accepted| ==> accepted[k] < |treeNodes|
      modifies this, attn
      ensures attn[..pos] == old(attn[..pos])
      ensures ok ==> forall k :: 0 <= k < |accepted| ==> attn[pos + k] == old(treeNodes)[accepted[k]].row
      ensures ok ==> rec == old(treeNodes)[accepted[|accepted| - 1]].rec
      ensures faulted == (old(faulted) || !ok)
      ensures !ok ==> mayFail
    {
      var fails: bool := *;
      if mayFail && fails { ok := Fault(); return; }
      for k := 0 to |accepted|
        invariant attn[..pos] == old(attn[..pos])
        invariant treeNodes == old(treeNodes) && faulted == old(faulted)
        invariant forall j :: 0 <= j < k ==> attn[pos + j] == treeNodes[accepted[j]].row
      {
        attn[pos + k] := treeNodes[accepted[k]].row;
      }
      rec := treeNodes[accepted[|accepted| - 1]].rec;
      ok := true;
    }

    method FinishSpeculativeState() returns (ok: bool)
      modifies this`rec, this`faulted
      ensures faulted == (old(faulted) || !ok)
      ensures !ok ==> mayFail
    {
      var fails: bool := *;
      if mayFail && fails { ok := Fault(); return; }
      ok := true;
    }

    /** Work outside the target, such as the drafter or its feature mirror, which may fail too. */
    method Auxiliary() returns (ok: bool)
      modifies this`faulted
      ensures faulted == (old(faulted) || !ok)
      ensures !ok ==> mayFail
    {
      var fails: bool := *;
      ok := !(mayFail && fails);
      if !ok { faulted := true; }
    }
  }
}
