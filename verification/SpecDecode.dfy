/**
 Speculative decoding: draft, verify, keep the accepted prefix, repair the target's state.
 Whatever is drafted, the tokens emitted are the target's own greedy decode.
 */
module SpecDecode {
  import opened Text
  import opened TargetModel

  /** How one pass of the decode loop ended. */
  datatype StepResult =
    | Continue
    | HitEos        // an end-of-sequence token was emitted
    | DeferredEos   // a tree step stopped on a pending end-of-sequence token without emitting it
    | BudgetSpent   // a tree step filled the budget
    | Cancelled
    | Failed        // a target operation failed

  /** A draft whose accepted part follows the target's argmaxes is a run of greedy choices. */
  lemma {:induction false} AcceptedIsGreedy<Row, Rec>(net: Net<Row, Rec>, h: seq<Token>, draft: seq<Token>, targetTok: seq<Token>, n: nat)
    requires h != [] && 1 <= n <= |draft| && draft[0] == G(net, h)
    requires Nexts(targetTok, Trace(net, Run(net, h), draft))
    requires forall i :: 0 <= i < n - 1 ==> draft[i + 1] == targetTok[i]
    ensures IsGreedy(net, h, draft[..n]) && targetTok[n - 1] == G(net, h + draft[..n])
  {
    TraceIsRun(net, h, draft, n - 1);
    forall i | 0 <= i < n ensures Chosen(net, h, draft[..n], i) {
      if i == 0 {
        assert h + draft[..n][..0] == h;
      } else {
        TraceIsRun(net, h, draft, i - 1);
        assert draft[i - 1 + 1] == targetTok[i - 1];
        assert draft[..n][..i] == draft[..i];
      }
    }
  }

  function Least(a: nat, b: nat): nat {
    if a <= b then a else b
  }

  /** The first token and then all that the target's argmaxes confirm: `n` tokens, and the next is not confirmed. */
  predicate LongestMatch(draft: seq<Token>, targetTok: seq<Token>, n: nat) {
    && 1 <= n <= |draft| == |targetTok|
    && (forall i :: 0 <= i < n - 1 ==> draft[i + 1] == targetTok[i])
    && (n < |draft| ==> draft[n] != targetTok[n - 1])
  }

  /** A tree step: the path `toks` confirmed after `h`, the choice `next` after it, and the budget left. */
  datatype TreeEnd = TreeEnd(h: seq<Token>, toks: seq<Token>, next: Token, need: int)

  /**
   Such a step stops on an end of sequence it does not emit: the path has none and leaves budget, and
   the token left pending is one. With fast rollback that token is `next`; a replay emits `next`, and
   the token after it is left pending.
   */
  ghost predicate Defers<Row, Rec>(net: Net<Row, Rec>, fast: bool, threshold: nat, t: TreeEnd) {
    && NoEos(net, t.toks) && |t.toks| < t.need
    && if fast && |t.toks| >= threshold then net.eos(t.next)
       else !net.eos(t.next) && |t.toks| + 1 < t.need && net.eos(G(net, t.h + t.toks + [t.next]))
  }

  /** Results of a tree verify are the plain-decode results of the node's own path. */
  lemma {:induction false} NodeIsRun<Row, Rec>(net: Net<Row, Rec>, h: seq<Token>, tree: DDTree, root: Token, i: nat, o: Forward<Row, Rec>)
    requires tree.Valid() && i <= |tree.tokens| && NodeResult(net, Run(net, h), tree, root, i, o)
    ensures var g := h + tree.Path(root, i);
            g != [] && o.next == G(net, g) && o.rec == Run(net, g).rec && o.row == Run(net, g).rows[|g| - 1]
  {
    var p := tree.Path(root, i);
    NodeCtxIsFeed(net, Run(net, h), tree, root, i);
    RunConcat(net, h, p[..|p| - 1]);
    assert (h + p)[..|h + p| - 1] == h + p[..|p| - 1];
  }

  class SpecDecoder<Row(0), Rec(0)> {
    const target: Target<Row, Rec>
    ghost const prompt: seq<Token>
    const nGen: int
    const hints: seq<Token>
    const supportsFastRollback: bool
    const fastRollbackThreshold: nat
    const adaptive: bool
    const ddtreeMode: bool
    const maxDraft: nat                  // tokens a step may draft after the pending one
    const mayCancel: bool                // whether the client may cancel

    var committed: nat
    var lastTok: Token
    var nGenerated: nat
    var out: seq<Token>
    var arBurstLeft: nat
    ghost var lastTree: Option<TreeEnd>  // the last step, if it was a tree step

    constructor (target: Target<Row, Rec>, ghost prompt: seq<Token>, committed: nat, lastTok: Token, nGen: int,
                 hints: seq<Token>, supportsFastRollback: bool, fastRollbackThreshold: nat, adaptive: bool, ddtreeMode: bool,
                 maxDraft: nat, mayCancel: bool)
      requires prompt != [] && target.Agrees(prompt) && committed == |prompt| && lastTok == G(target.net, prompt)
      ensures this.target == target && this.prompt == prompt && this.nGen == nGen && this.ddtreeMode == ddtreeMode
      ensures this.maxDraft == maxDraft && this.mayCancel == mayCancel
      ensures this.supportsFastRollback == supportsFastRollback && this.fastRollbackThreshold == fastRollbackThreshold
      ensures AtLoopHead() && out == []
    {
      this.target, this.prompt, this.nGen, this.hints := target, prompt, nGen, hints;
      this.supportsFastRollback, this.fastRollbackThreshold := supportsFastRollback, fastRollbackThreshold;
      this.adaptive, this.ddtreeMode, this.maxDraft, this.mayCancel := adaptive, ddtreeMode, maxDraft, mayCancel;
      this.committed, this.lastTok, nGenerated, out, arBurstLeft, lastTree := committed, lastTok, 0, [], 0, None;
      new;
      assert prompt + out == prompt;
    }

    /**
     State agreement: recurrent state and attention rows [0, committed) are those of a plain decode
     of prompt and output; the pending token is the target's next choice.
     */
    ghost predicate AtLoopHead()
      reads this, target, target.attn
    {
      && prompt != []
      && target.Agrees(prompt + out)
      && committed == |prompt + out|
      && lastTok == G(target.net, prompt + out)
      && nGenerated == |out|
      && IsGreedy(target.net, prompt, out) && NoEos(target.net, out)
    }

    /** The context holds the prompt, the budget and one draft. */
    ghost predicate Roomy() {
      |prompt| + nGen + 1 + maxDraft <= target.attn.Length
    }

    /** Safety: nothing but a prefix of the greedy decode has been emitted. */
    ghost predicate OutputOk()
      reads this
    {
      && prompt != [] && (out == [] || |out| <= nGen)
      && IsGreedy(target.net, prompt, out)
      && (NoEos(target.net, out) || EndsInEos(target.net, out))
    }

    /** The draft for a chain step: any tokens after the pending one, cut to any width, with hints written over it. */
    method Draft(arStep: bool) returns (draft: seq<Token>)
      ensures draft != [] && draft[0] == lastTok && |draft| <= 1 + maxDraft
      ensures arStep ==> draft == [lastTok]
      ensures forall i :: 1 <= i < |draft| && nGenerated + i <= |hints| ==> draft[i] == hints[nGenerated + i - 1]
    {
      draft := [lastTok];
      if !arStep {
        var proposed: seq<Token> := *;
        draft := draft + if |proposed| <= maxDraft then proposed else proposed[..maxDraft];
        var width: nat := *;             // verify cap, confidence gate and width controller
        if 1 <= width < |draft| {
          draft := draft[..width];
        }
      }
      if nGenerated < |hints| {
        var fill := if |hints| - nGenerated < |draft| - 1 then |hints| - nGenerated else |draft| - 1;
        ghost var n := |draft|;
        for i := 0 to fill
          invariant fill + 1 <= |draft| == n <= 1 + maxDraft && draft[0] == lastTok && (arStep ==> draft == [lastTok])
          invariant forall j :: 1 <= j <= i ==> draft[j] == hints[nGenerated + j - 1]
        {
          draft := draft[1 + i := hints[nGenerated + i]];
        }
      }
    }

    /** Longest prefix of the draft that the target's argmaxes confirm; the first token always counts. */
    method Accept(draft: seq<Token>, targetTok: seq<Token>) returns (n: nat)
      requires draft != [] && |targetTok| == |draft|
      ensures LongestMatch(draft, targetTok, n)
    {
      n := 1;
      while n < |draft| && draft[n] == targetTok[n - 1]
        invariant 1 <= n <= |draft|
        invariant forall i :: 0 <= i < n - 1 ==> draft[i + 1] == targetTok[i]
      {
        n := n + 1;
      }
    }

    /** Restores the snapshot and runs the committed tokens again. */
    method Replay(replay: seq<Token>, ghost h: seq<Token>) returns (ok: bool, last: Token)
      requires |h| == committed <= target.attn.Length && replay != []
      requires target.saved.Some? && Ctx(target.attn[..|h|], target.saved.value) == Run(target.net, h)
      modifies target, target.attn
      ensures ok ==> target.Agrees(h + replay) && h + replay != [] && last == G(target.net, h + replay)
      ensures target.faulted == (old(target.faulted) || !ok)
      ensures !ok ==> target.mayFail || |h| + |replay| > target.attn.Length
    {
      last := 0;
      ok := target.RestoreKv();
      if !ok { return; }
      var argmax;
      ok, argmax := target.VerifyBatch(replay, committed);
      if !ok { return; }
      last := argmax[|replay| - 1];
      RunConcat(target.net, h, replay);
      TraceIsRun(target.net, h, replay, |replay| - 1);
      assert replay[..|replay|] == replay;
    }

    /**
     Fast rollback: the recurrent state after `n` verified tokens; rows above them go stale.
     On a recoverable failure the snapshot still allows a replay.
     */
    method FastRollback(draft: seq<Token>, n: nat, ghost h: seq<Token>) returns (rolled: bool, recoverable: bool)
      requires 1 <= n <= |draft|
      requires |h + draft| <= target.attn.Length && target.captured == Trace(target.net, Run(target.net, h), draft)
      requires target.attn[..|h + draft|] == Run(target.net, h + draft).rows
      modifies target
      ensures target.saved == old(target.saved)
      ensures rolled ==> target.Agrees(h + draft[..n])
      ensures target.faulted == (old(target.faulted) || (!rolled && !recoverable))
      ensures !rolled ==> target.mayFail
    {
      rolled, recoverable := target.RollbackTo(n);
      if rolled {
        TraceIsRun(target.net, h, draft, n - 1);
        PrefixRows(h, draft, n);
      }
    }

    lemma PrefixRows(h: seq<Token>, draft: seq<Token>, n: nat)
      requires n <= |draft|
      ensures Run(target.net, h + draft[..n]).rows == Run(target.net, h + draft).rows[..|h| + n]
    {
      FeedRows(target.net, Ctx([], target.net.init), h + draft, |h| + n);
      assert (h + draft)[..|h| + n] == h + draft[..n];
    }

    /** How many tokens a step commits when the target confirms `n`: none of them is held back. */
    function CommitLength(arStep: bool, draft: seq<Token>, targetTok: seq<Token>, n: nat, need: nat): nat
      requires 1 <= n <= |draft| == |targetTok|
    {
      if arStep then 1
      else if supportsFastRollback && n >= fastRollbackThreshold then Least(need, n)
      else Least(need, n + if n < |draft| then 1 else 0)
    }

    /** The number of tokens to commit, within the budget, and the bonus token if it is one of them. */
    method Bonus(acceptN: nat, draft: seq<Token>, targetTok: seq<Token>, need: nat) returns (commitN: nat, bonus: int)
      requires 1 <= acceptN <= |draft| == |targetTok| && need >= 1
      ensures 1 <= commitN <= need
      ensures commitN <= acceptN || (commitN == acceptN + 1 && bonus == targetTok[acceptN - 1])
      ensures commitN == Least(need, acceptN + if acceptN < |draft| then 1 else 0)
    {
      bonus := if acceptN < |draft| then targetTok[acceptN - 1] else -1;
      commitN := acceptN + if bonus >= 0 then 1 else 0;
      if commitN > need {
        commitN := need;
        if commitN <= acceptN { bonus := -1; }
      }
    }

    /**
     Commits the accepted part of a verified draft, within the budget `need`. Covers the burst step,
     fast rollback, its fallback, and restore+replay with the bonus token.
     */
    method Repair(arStep: bool, draft: seq<Token>, targetTok: seq<Token>, need: nat, ghost h: seq<Token>)
      returns (ok: bool, replay: seq<Token>, last: Token)
      requires h != [] && |h| == committed && need >= 1 && draft != [] && draft[0] == G(target.net, h)
      requires arStep ==> |draft| == 1
      requires target.Agrees(h + draft) && target.captured == Trace(target.net, Run(target.net, h), draft)
      requires Nexts(targetTok, target.captured)
      requires !arStep ==> target.saved == Some(Run(target.net, h).rec)
      modifies target, target.attn
      ensures ok ==> 1 <= |replay| <= need && IsGreedy(target.net, h, replay)
      ensures ok ==> exists n :: LongestMatch(draft, targetTok, n) && |replay| == CommitLength(arStep, draft, targetTok, n, need)
      ensures ok ==> target.Agrees(h + replay) && last == G(target.net, h + replay)
      ensures target.faulted == (old(target.faulted) || !ok)
      ensures !ok ==> target.mayFail || |h| + need > target.attn.Length
    {
      hide G, Run, Trace, IsGreedy;
      RowsBelow(h, draft);
      var acceptN := Accept(draft, targetTok);
      var commitN, bonus := Bonus(acceptN, draft, targetTok, need);
      var fast := false;
      last := 0;
      if arStep {
        bonus, commitN, fast := -1, 1, true;
        last := targetTok[0];
        assert draft[..1] == draft;
      } else if supportsFastRollback && acceptN >= fastRollbackThreshold {
        bonus, commitN := -1, if acceptN < need then acceptN else need;
        var recoverable;
        PrefixRows(h, draft, |draft|);
        fast, recoverable := FastRollback(draft, commitN, h);
        if fast {
          last := targetTok[commitN - 1];
        } else if !recoverable {
          return false, [], 0;
        }
      }
      replay := if commitN <= acceptN then draft[..commitN] else draft[..acceptN] + [bonus];
      CommitIsGreedy(h, draft, targetTok, acceptN, replay);
      ok := true;
      if !fast {
        ok, last := Replay(replay, h);
      }
    }

    /** The committed tokens, accepted draft and perhaps the bonus, are greedy choices. */
    lemma CommitIsGreedy(h: seq<Token>, draft: seq<Token>, targetTok: seq<Token>, acceptN: nat, replay: seq<Token>)
      requires h != [] && 1 <= acceptN <= |draft| && draft[0] == G(target.net, h)
      requires Nexts(targetTok, Trace(target.net, Run(target.net, h), draft))
      requires forall i :: 0 <= i < acceptN - 1 ==> draft[i + 1] == targetTok[i]
      requires replay != []
      requires replay == draft[..acceptN] + [targetTok[acceptN - 1]] || (|replay| <= acceptN && replay == draft[..|replay|])
      ensures IsGreedy(target.net, h, replay)
      ensures |replay| <= acceptN ==> targetTok[|replay| - 1] == G(target.net, h + replay)
    {
      hide G, Run, Trace, IsGreedy;
      if |replay| <= acceptN {
        AcceptedIsGreedy(target.net, h, draft, targetTok, |replay|);
      } else {
        AcceptedIsGreedy(target.net, h, draft, targetTok, acceptN);
        OneMore(h, draft[..acceptN], targetTok[acceptN - 1]);
      }
    }

    lemma RowsBelow(h: seq<Token>, draft: seq<Token>)
      requires target.Agrees(h + draft)
      ensures target.attn[..|h|] == Run(target.net, h).rows
    {
      PrefixRows(h, draft, 0);
      assert h + draft[..0] == h;
      assert target.attn[..|h + draft|][..|h|] == target.attn[..|h|];
    }

    /** Pushes tokens until the first end-of-sequence token or a cancellation. */
    method Emit(toks: seq<Token>) returns (emitted: nat, hitEos: bool, cancelled: bool)
      requires OutputOk() && NoEos(target.net, out) && |out| + |toks| <= nGen
      requires IsGreedy(target.net, prompt + out, toks)
      modifies this`out
      ensures OutputOk() && emitted <= |toks| && out == old(out) + toks[..emitted]
      ensures emitted >= 1 || toks == []
      ensures !hitEos && !cancelled ==> emitted == |toks|
      ensures !hitEos ==> NoEos(target.net, out) || cancelled
      ensures hitEos ==> EndsInEos(target.net, out)
      ensures cancelled ==> mayCancel
    {
      hide G, Run, IsGreedy;
      emitted, hitEos, cancelled := 0, false, false;
      ghost var before := out;
      assert before + toks[..0] == before;
      while emitted < |toks| && !hitEos && !cancelled
        invariant emitted <= |toks| && out == before + toks[..emitted]
        invariant !hitEos && !cancelled ==> NoEos(target.net, out)
        invariant hitEos ==> EndsInEos(target.net, out)
        invariant NoEos(target.net, out) || EndsInEos(target.net, out)
        invariant emitted >= 1 || (!hitEos && !cancelled)
        invariant cancelled ==> mayCancel
        decreases |toks| - emitted
      {
        var tok := toks[emitted];
        ghost var was := out;
        out := out + [tok];
        emitted := emitted + 1;
        assert out[..|out| - 1] == was;
        var cancel: bool := *;
        if mayCancel && cancel {
          cancelled := true;
        } else if target.net.eos(tok) {
          hitEos := true;
        }
      }
      IsGreedyPrefix(target.net, prompt + before, toks, emitted);
      IsGreedyConcat(target.net, prompt, before, toks[..emitted]);
    }

    /** Snapshots (a burst step does not need to) and runs the target over the draft. */
    method VerifyDraft(arStep: bool, draft: seq<Token>, ghost h: seq<Token>) returns (ok: bool, targetTok: seq<Token>)
      requires |h| == committed && target.Agrees(h)
      modifies target, target.attn
      ensures ok ==> target.Agrees(h + draft) && target.captured == Trace(target.net, Run(target.net, h), draft)
      ensures ok ==> Nexts(targetTok, target.captured)
      ensures ok && !arStep ==> target.saved == Some(Run(target.net, h).rec)
      ensures target.faulted == (old(target.faulted) || !ok)
      ensures !ok ==> target.mayFail || |h| + |draft| > target.attn.Length
    {
      ok, targetTok := true, [];
      if !arStep {
        ok := target.SnapshotKv();
        if !ok { return; }
      }
      ok, targetTok := target.VerifyBatch(draft, committed);
      if ok {
        RunConcat(target.net, h, draft);
      } else if !arStep {
        var _ := target.RestoreKv();
      }
    }

    /** Emits tokens the target has already taken in, and moves the loop's counters past them. */
    method EmitCommitted(replay: seq<Token>, last: Token) returns (r: StepResult)
      requires OutputOk() && NoEos(target.net, out) && |out| + |replay| <= nGen && replay != []
      requires committed == |prompt + out| && nGenerated == |out|
      requires IsGreedy(target.net, prompt + out, replay)
      requires target.Agrees(prompt + out + replay) && last == G(target.net, prompt + out + replay)
      modifies this`out, this`committed, this`lastTok, this`nGenerated
      ensures OutputOk() && !r.DeferredEos? && !r.BudgetSpent? && !r.Failed?
      ensures old(out) < out && |out| <= |old(out)| + |replay| && out[|old(out)|..] == replay[..|out| - |old(out)|]
      ensures r.Continue? ==> AtLoopHead() && out == old(out) + replay && lastTok == last
      ensures r.HitEos? ==> EndsInEos(target.net, out)
      ensures r.Cancelled? ==> mayCancel
    {
      assert replay[..|replay|] == replay;
      assert prompt + out + replay == prompt + (out + replay);
      var emitted, hitEos, cancelled := Emit(replay);
      lastTok := last;
      committed := committed + emitted;
      nGenerated := nGenerated + emitted;
      return if cancelled then Cancelled else if hitEos then HitEos else Continue;
    }

    /** One chain step, or one plain-decode burst step when `arStep`. */
    method ChainStep(arStep: bool) returns (r: StepResult)
      requires AtLoopHead() && nGenerated < nGen
      modifies this`out, this`committed, this`lastTok, this`nGenerated, this`arBurstLeft, target, target.attn
      ensures target.faulted == (old(target.faulted) || r.Failed?)
      ensures (r.Failed? ==> target.mayFail || !Roomy()) && (r.Cancelled? ==> mayCancel)
      ensures OutputOk() && !r.DeferredEos? && !r.BudgetSpent?
      ensures r.Continue? ==> AtLoopHead() && |old(out)| < |out|
      ensures r.HitEos? ==> EndsInEos(target.net, out)
    {
      ghost var h := prompt + out;
      var need := nGen - nGenerated;
      var draft := Draft(arStep);
      var ok, targetTok, replay, last;
      ok, targetTok := VerifyDraft(arStep, draft, h);
      if !ok { return Failed; }
      ok, replay, last := Repair(arStep, draft, targetTok, need, h);
      if !ok { return Failed; }
      ok := target.Auxiliary();          // draft feature sync
      if !ok { return Failed; }
      r := EmitCommitted(replay, last);
      if adaptive && !arStep {
        arBurstLeft := *;                // acceptance statistics may schedule a burst
      }
    }

    /** The `k`-th node of a path with tokens `toks`. */
    ghost predicate PathNode(tree: DDTree, node: nat, toks: seq<Token>, k: nat)
      requires tree.Valid()
      reads this`lastTok
    {
      node <= |tree.tokens| && k < |toks| && tree.Tok(lastTok, node) == toks[k] && tree.Path(lastTok, node) == toks[..k + 1]
    }

    ghost predicate OnPath(tree: DDTree, nodes: seq<nat>, toks: seq<Token>)
      requires tree.Valid()
      reads this`lastTok
    {
      |toks| == |nodes| && forall k :: 0 <= k < |nodes| ==> PathNode(tree, nodes[k], toks, k)
    }

    lemma OnPathExtend(tree: DDTree, nodes: seq<nat>, toks: seq<Token>, next: Token)
      requires tree.Valid() && nodes != [] && OnPath(tree, nodes, toks)
      requires nodes[|nodes| - 1] < |tree.children| && next in tree.children[nodes[|nodes| - 1]]
      ensures OnPath(tree, nodes + [tree.children[nodes[|nodes| - 1]][next]], toks + [next])
    {
      var last := |nodes| - 1;
      var child := tree.children[nodes[last]][next];
      assert PathNode(tree, nodes[last], toks, last) && toks[..last + 1] == toks;
      assert (toks + [next])[..last + 2] == toks + [next];
      forall k | 0 <= k < |nodes| ensures PathNode(tree, nodes[k], toks + [next], k) {
        assert PathNode(tree, nodes[k], toks, k) && (toks + [next])[..k + 1] == toks[..k + 1];
      }
    }

    lemma OnPathPrefix(tree: DDTree, nodes: seq<nat>, toks: seq<Token>, n: nat)
      requires tree.Valid() && OnPath(tree, nodes, toks) && n <= |nodes|
      ensures OnPath(tree, nodes[..n], toks[..n])
    {
      forall k | 0 <= k < n ensures PathNode(tree, nodes[..n][k], toks[..n], k) {
        assert PathNode(tree, nodes[k], toks, k) && toks[..n][..k + 1] == toks[..k + 1];
      }
    }

    /** Follows the target's choices down the tree; the first one with no matching child is the bonus. */
    method Walk(tree: DDTree, posterior: seq<Token>, ghost h: seq<Token>)
      returns (accepted: seq<nat>, toks: seq<Token>, next: Token)
      requires tree.Valid() && h != [] && lastTok == G(target.net, h)
      requires |target.treeNodes| == |tree.tokens| + 1 && Nexts(posterior, target.treeNodes)
      requires NodeResults(target.net, Run(target.net, h), tree, lastTok, target.treeNodes)
      ensures 1 <= |accepted| <= |tree.tokens| + 1 && OnPath(tree, accepted, toks)
      ensures IsGreedy(target.net, h, toks) && next == G(target.net, h + toks)
      ensures accepted[|accepted| - 1] < |tree.children| && next !in tree.children[accepted[|accepted| - 1]]
    {
      var cur := 0;
      accepted, toks, next := [0], [lastTok], posterior[0];
      assert h + toks[..0] == h;
      assert Chosen(target.net, h, toks, 0);
      assert PathNode(tree, 0, toks, 0);
      NextAfter(tree, accepted, toks, h);
      while next in tree.children[cur]
        invariant |accepted| - 1 <= cur <= |tree.tokens| && accepted != [] && accepted[|accepted| - 1] == cur
        invariant OnPath(tree, accepted, toks) && IsGreedy(target.net, h, toks)
        invariant next == G(target.net, h + toks)
        decreases |tree.tokens| - cur
      {
        OnPathExtend(tree, accepted, toks, next);
        OneMore(h, toks, next);
        cur := tree.children[cur][next];
        accepted, toks := accepted + [cur], toks + [next];
        NextAfter(tree, accepted, toks, h);
        next := posterior[cur];
      }
    }

    /** The choice verified at a path's last node follows the path's tokens. */
    lemma NextAfter(tree: DDTree, nodes: seq<nat>, toks: seq<Token>, h: seq<Token>)
      requires tree.Valid() && nodes != [] && OnPath(tree, nodes, toks)
      requires |target.treeNodes| == |tree.tokens| + 1
      requires NodeResults(target.net, Run(target.net, h), tree, lastTok, target.treeNodes)
      ensures var last := nodes[|nodes| - 1];
              h + toks != [] && last < |target.treeNodes| && target.treeNodes[last].next == G(target.net, h + toks)
    {
      var k := |nodes| - 1;
      assert PathNode(tree, nodes[k], toks, k) && toks[..k + 1] == toks;
      NodeIsRun(target.net, h, tree, lastTok, nodes[k], target.treeNodes[nodes[k]]);
    }

    lemma OneMore(h: seq<Token>, path: seq<Token>, next: Token)
      requires h != [] && IsGreedy(target.net, h, path) && next == G(target.net, h + path)
      ensures IsGreedy(target.net, h, path + [next])
    {
      assert h + path + [next][..0] == h + path;
      assert Chosen(target.net, h + path, [next], 0);
      IsGreedyConcat(target.net, h, path, [next]);
    }

    /** The result captured at a path's node is the plain-decode result at that position. */
    lemma PathResult(tree: DDTree, nodes: seq<nat>, toks: seq<Token>, h: seq<Token>, results: seq<Forward<Row, Rec>>, k: nat)
      requires tree.Valid() && OnPath(tree, nodes, toks) && k < |nodes|
      requires |results| == |tree.tokens| + 1 && NodeResults(target.net, Run(target.net, h), tree, lastTok, results)
      ensures nodes[k] < |results| && results[nodes[k]].row == Run(target.net, h + toks).rows[|h| + k]
      ensures results[nodes[k]].rec == Run(target.net, h + toks[..k + 1]).rec
    {
      assert PathNode(tree, nodes[k], toks, k);
      NodeIsRun(target.net, h, tree, lastTok, nodes[k], results[nodes[k]]);
      PrefixRows(h, toks, k + 1);
    }

    lemma PathRows(tree: DDTree, nodes: seq<nat>, toks: seq<Token>, h: seq<Token>, results: seq<Forward<Row, Rec>>, moved: seq<Row>)
      requires tree.Valid() && OnPath(tree, nodes, toks)
      requires |results| == |tree.tokens| + 1 && NodeResults(target.net, Run(target.net, h), tree, lastTok, results)
      requires |moved| == |h| + |nodes| && moved[..|h|] == Run(target.net, h).rows
      requires forall k :: 0 <= k < |nodes| ==> nodes[k] < |results| && moved[|h| + k] == results[nodes[k]].row
      ensures moved == Run(target.net, h + toks).rows
    {
      var rows := Run(target.net, h + toks).rows;
      PrefixRows(h, toks, 0);
      assert h + toks[..0] == h;
      forall j | 0 <= j < |moved| ensures moved[j] == rows[j] {
        if j < |h| {
          assert moved[j] == moved[..|h|][j] == rows[..|h|][j];
        } else {
          PathResult(tree, nodes, toks, h, results, j - |h|);
        }
      }
    }

    /** Rows and recurrent state moved into place from the tree verify. */
    method TreeRollback(tree: DDTree, nodes: seq<nat>, toks: seq<Token>, ghost h: seq<Token>) returns (ok: bool)
      requires tree.Valid() && nodes != [] && OnPath(tree, nodes, toks)
      requires |h| == committed && |h| + |nodes| <= target.attn.Length && target.attn[..|h|] == Run(target.net, h).rows
      requires |target.treeNodes| == |tree.tokens| + 1
      requires NodeResults(target.net, Run(target.net, h), tree, lastTok, target.treeNodes)
      modifies target, target.attn
      ensures ok ==> target.Agrees(h + toks)
      ensures target.faulted == (old(target.faulted) || !ok) && (!ok ==> target.mayFail)
    {
      hide Run, NodeResults, G;
      ghost var results := target.treeNodes;
      forall k | 0 <= k < |nodes| ensures nodes[k] < |target.treeNodes| {
        assert PathNode(tree, nodes[k], toks, k);
      }
      ok := target.RollbackToTree(committed, nodes);
      if ok {
        var n := |toks|;
        assert toks[..n] == toks;
        PathResult(tree, nodes, toks, h, results, n - 1);
        ghost var moved := target.attn[..|h| + n];
        assert moved[..|h|] == target.attn[..|h|];
        PathRows(tree, nodes, toks, h, results, moved);
      }
    }

    /** How a tree step that emitted everything it committed leaves the loop. */
    method AfterTree() returns (r: StepResult)
      requires OutputOk() && NoEos(target.net, out) && nGenerated == |out| > 0
      requires nGenerated < nGen ==> AtLoopHead()
      ensures r.Continue? ==> AtLoopHead()
      ensures r.BudgetSpent? ==> |out| == nGen && NoEos(target.net, out)
      ensures r.DeferredEos? <==> nGenerated < nGen && target.net.eos(lastTok)
      ensures r.DeferredEos? ==> |out| < nGen && AtLoopHead()
      ensures r.Continue? || r.BudgetSpent? || r.DeferredEos?
    {
      return if nGenerated >= nGen then BudgetSpent else if target.net.eos(lastTok) then DeferredEos else Continue;
    }

    /** The last step was a tree step that began with a prefix of what is out now. */
    ghost predicate LastTreeOk()
      requires prompt != []
      reads this`lastTree, this`out
    {
      lastTree.Some? ==>
        var t := lastTree.value;
        && prompt <= t.h <= prompt + out && t.need == nGen - (|t.h| - |prompt|)
        && t.toks != [] && IsGreedy(target.net, t.h, t.toks) && t.next == G(target.net, t.h + t.toks)
    }

    /** The last step stops on an end of sequence it does not emit. */
    ghost predicate StopsShort()
      reads this`lastTree
    {
      lastTree.Some? && Defers(target.net, supportsFastRollback, fastRollbackThreshold, lastTree.value)
    }

    /** One tree step: verify a whole draft tree, emit the confirmed path, then fix the target's state. */
    method TreeStep() returns (r: StepResult)
      requires AtLoopHead() && nGenerated < nGen
      modifies this`out, this`committed, this`lastTok, this`nGenerated, this`lastTree, target, target.attn
      ensures target.faulted == (old(target.faulted) || r.Failed?)
      ensures (r.Failed? ==> target.mayFail || !Roomy()) && (r.Cancelled? ==> mayCancel)
      ensures OutputOk() && LastTreeOk()
      ensures r.Continue? ==> AtLoopHead() && |old(out)| < |out|
      ensures r.HitEos? ==> EndsInEos(target.net, out)
      ensures r.BudgetSpent? ==> |out| == nGen && NoEos(target.net, out)
      ensures r.DeferredEos? ==> |out| < nGen && AtLoopHead() && target.net.eos(lastTok)
      ensures !r.Failed? && !r.Cancelled? ==> lastTree.Some? && (r.DeferredEos? <==> StopsShort())
    {
      hide G, Run, IsGreedy, NoEos;
      lastTree := None;
      ghost var h := prompt + out;
      var tree: DDTree := *;
      var padded: nat := *;
      var ok := target.Auxiliary();        // tree builder
      if !ok { return Failed; }
      if !tree.Valid() || |tree.tokens| > maxDraft { tree := DDTree([], [], [map[]]); }
      if padded < |tree.tokens| + 1 { padded := |tree.tokens| + 1; }
      if padded > 1 + maxDraft { padded := 1 + maxDraft; }
      r := TreePass(tree, padded);
    }

    /** The step on a tree that has been built. */
    method TreePass(tree: DDTree, padded: nat) returns (r: StepResult)
      requires AtLoopHead() && nGenerated < nGen && tree.Valid() && |tree.tokens| + 1 <= padded <= 1 + maxDraft
      modifies this`out, this`committed, this`lastTok, this`nGenerated, this`lastTree, target, target.attn
      ensures target.faulted == (old(target.faulted) || r.Failed?)
      ensures (r.Failed? ==> target.mayFail || !Roomy()) && (r.Cancelled? ==> mayCancel)
      ensures OutputOk() && (LastTreeOk() || lastTree == old(lastTree))
      ensures r.Continue? ==> AtLoopHead() && |old(out)| < |out|
      ensures r.HitEos? ==> EndsInEos(target.net, out)
      ensures r.BudgetSpent? ==> |out| == nGen && NoEos(target.net, out)
      ensures r.DeferredEos? ==> |out| < nGen && AtLoopHead() && target.net.eos(lastTok)
      ensures !r.Failed? && !r.Cancelled? ==> lastTree.Some? && (r.DeferredEos? <==> StopsShort())
      ensures !r.Failed? ==> lastTree.Some? && lastTree.value.h == prompt + old(out) && lastTree.value.need == nGen - old(nGenerated)
      ensures !r.Failed? ==> 1 <= |lastTree.value.toks| <= |tree.tokens| + 1 && LastTreeOk()
    {
      hide G, Run, IsGreedy, NoEos;
      ghost var h := prompt + out;
      var ok := target.SnapshotKv();
      if !ok { return Failed; }
      var posterior;
      ok, posterior := target.VerifyTree(tree, lastTok, committed, padded);
      if !ok { return Failed; }
      var accepted, toks, next := Walk(tree, posterior, h);
      lastTree := Some(TreeEnd(h, toks, next, nGen - nGenerated));
      r := CommitPath(tree, accepted, toks, next);
    }

    /** Rolls back to the emitted path; the bonus token becomes the pending one. */
    method RollbackPath(tree: DDTree, nodes: seq<nat>, path: seq<Token>, next: Token, ghost h: seq<Token>) returns (ok: bool)
      requires OutputOk() && prompt + out == h + path && nodes != [] && nGenerated + |path| == |out|
      requires tree.Valid() && OnPath(tree, nodes, path) && |nodes| <= |tree.tokens| + 1
      requires |h| == committed && |h| + |tree.tokens| + 1 <= target.attn.Length && target.attn[..|h|] == Run(target.net, h).rows
      requires |target.treeNodes| == |tree.tokens| + 1
      requires NodeResults(target.net, Run(target.net, h), tree, lastTok, target.treeNodes)
      modifies this`committed, this`lastTok, this`nGenerated, target, target.attn
      ensures OutputOk() && nGenerated <= |out|
      ensures ok ==> nGenerated == |out| && lastTok == next
      ensures ok && NoEos(target.net, out) && next == G(target.net, h + path) ==> AtLoopHead()
      ensures target.faulted == (old(target.faulted) || !ok) && (!ok ==> target.mayFail)
    {
      ok := TreeRollback(tree, nodes, path, h);
      if !ok { return; }
      lastTok := next;
      committed, nGenerated := committed + |path|, nGenerated + |path|;
      ok := target.Auxiliary();            // draft feature sync
    }

    /** Restores and runs the emitted path again, with the bonus token if it may still be emitted. */
    method ReplayPath(path: seq<Token>, next: Token, bonus: bool, hitEos: bool, cancelled: bool, ghost h: seq<Token>)
      returns (ok: bool, eos: bool, stop: bool)
      requires OutputOk() && prompt + out == h + path && path != [] && |h| == committed <= target.attn.Length
      requires nGenerated + |path| == |out|
      requires target.saved.Some? && Ctx(target.attn[..|h|], target.saved.value) == Run(target.net, h)
      requires |out| <= nGen
      requires bonus ==> !hitEos && !cancelled && |out| < nGen && next == G(target.net, h + path)
      requires !hitEos && !cancelled ==> NoEos(target.net, out)
      requires hitEos ==> EndsInEos(target.net, out)
      modifies this`out, this`committed, this`lastTok, this`nGenerated, target, target.attn
      ensures OutputOk() && old(out) <= out
      ensures ok && !eos && !stop ==> AtLoopHead() && out == (if bonus then old(out) + [next] else old(out))
      ensures ok && eos && !stop ==> EndsInEos(target.net, out) && (hitEos || (bonus && target.net.eos(next)))
      ensures ok && ((bonus && target.net.eos(next)) || hitEos) ==> eos || stop
      ensures ok && cancelled ==> stop
      ensures target.faulted == (old(target.faulted) || !ok)
      ensures !ok ==> target.mayFail || |prompt| + nGen > target.attn.Length
      ensures stop ==> cancelled || mayCancel
    {
      eos, stop := hitEos, cancelled;
      var replay := if bonus then path + [next] else path;
      var last;
      ok, last := Replay(replay, h);
      if !ok { return; }
      lastTok, committed, nGenerated := last, committed + |path|, nGenerated + |path|;
      if bonus {
        assert prompt + out + [next] == h + (path + [next]);
        assert prompt + out + [next][..0] == h + path;
        assert Chosen(target.net, prompt + out, [next], 0);
        var r := EmitCommitted([next], last);
        eos, stop := r.HitEos?, r.Cancelled?;
      }
      ok := target.Auxiliary();            // draft feature sync
    }

    /** Clips the confirmed path to the budget and emits it. */
    method EmitPath(tree: DDTree, accepted: seq<nat>, toks: seq<Token>, need: nat, ghost h: seq<Token>)
      returns (nodes: seq<nat>, path: seq<Token>, hitEos: bool, cancelled: bool)
      requires OutputOk() && NoEos(target.net, out) && |out| + need == nGen && need >= 1 && h == prompt + out
      requires tree.Valid() && accepted != [] && OnPath(tree, accepted, toks) && IsGreedy(target.net, h, toks)
      modifies this`out
      ensures OutputOk() && prompt + out == h + path && path <= toks && nodes <= accepted && OnPath(tree, nodes, path)
      ensures 1 <= |path| <= need && |out| == |old(out)| + |path| && old(out) <= out
      ensures !hitEos && !cancelled ==> NoEos(target.net, out) && NoEos(target.net, path) && |path| == Least(need, |toks|)
      ensures hitEos ==> EndsInEos(target.net, out) && !NoEos(target.net, toks)
      ensures cancelled ==> mayCancel
    {
      hide G, Run, IsGreedy;
      var n := if |accepted| > need then need else |accepted|;
      IsGreedyPrefix(target.net, h, toks, n);
      var emitted;
      emitted, hitEos, cancelled := Emit(toks[..n]);
      assert toks[..n][..emitted] == toks[..emitted];
      OnPathPrefix(tree, accepted, toks, emitted);
      nodes, path := accepted[..emitted], toks[..emitted];
      assert prompt + out == h + path;
      assert path != [] && out[|out| - 1] == path[|path| - 1] == toks[|path| - 1];
      assert !hitEos && !cancelled ==> forall i :: 0 <= i < |path| ==> path[i] == out[|out| - |path| + i];
    }

    /** Clips the confirmed path to the budget, emits it, and rolls back or replays. */
    method CommitPath(tree: DDTree, accepted: seq<nat>, toks: seq<Token>, next: Token) returns (r: StepResult)
      requires OutputOk() && NoEos(target.net, out) && nGenerated == |out| < nGen && committed == |prompt + out|
      requires tree.Valid() && 1 <= |accepted| <= |tree.tokens| + 1 && OnPath(tree, accepted, toks)
      requires IsGreedy(target.net, prompt + out, toks) && next == G(target.net, prompt + out + toks)
      requires committed + |tree.tokens| + 1 <= target.attn.Length
      requires target.attn[..committed] == Run(target.net, prompt + out).rows
      requires target.saved == Some(Run(target.net, prompt + out).rec)
      requires |target.treeNodes| == |tree.tokens| + 1
      requires NodeResults(target.net, Run(target.net, prompt + out), tree, lastTok, target.treeNodes)
      modifies this`out, this`committed, this`lastTok, this`nGenerated, target, target.attn
      ensures target.faulted == (old(target.faulted) || r.Failed?)
      ensures (r.Failed? ==> target.mayFail || !Roomy()) && (r.Cancelled? ==> mayCancel)
      ensures OutputOk() && old(out) <= out
      ensures r.Continue? ==> AtLoopHead() && |old(out)| < |out|
      ensures r.HitEos? ==> EndsInEos(target.net, out)
      ensures r.BudgetSpent? ==> |out| == nGen && NoEos(target.net, out)
      ensures r.DeferredEos? ==> |out| < nGen && AtLoopHead() && target.net.eos(lastTok)
      ensures !r.Failed? && !r.Cancelled? ==>
                (r.DeferredEos? <==> Defers(target.net, supportsFastRollback, fastRollbackThreshold,
                                            TreeEnd(prompt + old(out), toks, next, nGen - old(nGenerated))))
    {
      hide Run, G, IsGreedy, NoEos;
      ghost var h := prompt + out;
      var need := nGen - nGenerated;
      var nodes, path, hitEos, cancelled := EmitPath(tree, accepted, toks, need, h);
      assert |path| == |toks| ==> path == toks;
      var ok;
      var fast := supportsFastRollback && |path| >= fastRollbackThreshold;
      if fast {
        ok := RollbackPath(tree, nodes, path, next, h);
      } else {
        var bonus := !hitEos && !cancelled && |path| < need;
        ok, hitEos, cancelled := ReplayPath(path, next, bonus, hitEos, cancelled, h);
        assert ok && !hitEos && !cancelled && bonus ==> prompt + out == h + toks + [next];
      }
      if !ok { return Failed; }
      if cancelled { return Cancelled; }
      if hitEos { return HitEos; }
      r := AfterTree();
    }

    /** One pass of the decode loop: burst, tree or chain. */
    method Step() returns (r: StepResult)
      requires AtLoopHead() && nGenerated < nGen
      modifies this`out, this`committed, this`lastTok, this`nGenerated, this`arBurstLeft, this`lastTree, target, target.attn
      ensures target.faulted == (old(target.faulted) || r.Failed?)
      ensures (r.Failed? ==> target.mayFail || !Roomy()) && (r.Cancelled? ==> mayCancel)
      ensures OutputOk()
      ensures r.Continue? ==> AtLoopHead() && |old(out)| < |out|
      ensures r.HitEos? ==> EndsInEos(target.net, out)
      ensures r.BudgetSpent? ==> |out| == nGen && NoEos(target.net, out)
      ensures r.DeferredEos? ==> ddtreeMode && |out| < nGen && AtLoopHead() && target.net.eos(lastTok)
      ensures LastTreeOk() && (!r.Failed? && !r.Cancelled? ==> (r.DeferredEos? <==> StopsShort()))
    {
      hide G, Run, IsGreedy, NoEos;
      lastTree := None;
      var arStep := adaptive && arBurstLeft > 0;
      if arStep && nGenerated < |hints| {
        arBurstLeft, arStep := 0, false;
      }
      if arStep {
        arBurstLeft := arBurstLeft - 1;
      }
      var ok := target.Auxiliary();        // noise embedding, drafter forward and projection
      if !ok { return Failed; }
      var treePossible: bool := *;
      if ddtreeMode && treePossible && !arStep && nGenerated >= |hints| {
        r := TreeStep();
      } else {
        r := ChainStep(arStep);
      }
    }

    /**
     The speculative decode loop. Whatever happened, the output is a prefix of the greedy decode. A
     completed run outputs all of it, except that a run whose last step was a tree step may stop on
     the final end-of-sequence token without emitting it.
     */
    method DoSpecDecode() returns (ok: bool, r: StepResult)
      requires AtLoopHead() && out == []
      modifies this`out, this`committed, this`lastTok, this`nGenerated, this`arBurstLeft, this`lastTree, target, target.attn
      ensures target.faulted == (old(target.faulted) || !ok)
      ensures (!ok ==> target.mayFail || !Roomy()) && (r.Cancelled? ==> mayCancel)
      ensures out <= Greedy(target.net, prompt, Budget())
      ensures ok && !r.Cancelled? && !r.DeferredEos? ==> out == Greedy(target.net, prompt, Budget())
      ensures ok && r.DeferredEos? ==>
                && ddtreeMode && target.net.eos(lastTok)
                && out + [lastTok] == Greedy(target.net, prompt, Budget())
      ensures LastTreeOk() && (ok && !r.Cancelled? ==> (r.DeferredEos? <==> StopsShort()))
    {
      r, lastTree := Continue, None;
      while nGenerated < nGen && r.Continue?
        invariant OutputOk() && (r.Continue? ==> AtLoopHead()) && target.faulted == (old(target.faulted) || r.Failed?)
        invariant (r.Failed? ==> target.mayFail || !Roomy()) && (r.Cancelled? ==> mayCancel)
        invariant r.HitEos? ==> EndsInEos(target.net, out)
        invariant r.BudgetSpent? ==> |out| == nGen && NoEos(target.net, out)
        invariant r.DeferredEos? ==> ddtreeMode && |out| < nGen && AtLoopHead() && target.net.eos(lastTok)
        invariant LastTreeOk() && (!r.Failed? && !r.Cancelled? ==> (r.DeferredEos? <==> StopsShort()))
        decreases if r.Continue? then 1 else 0, nGen - |out|
      {
        r := Step();
      }
      PrefixOfGreedy();
      ok := false;
      if !r.Failed? {
        ok := target.FinishSpeculativeState();
        if r.DeferredEos? {
          GreedyUnfold(target.net, prompt, out, nGen);
        } else if !r.Cancelled? {
          GreedyComplete(target.net, prompt, out, Budget());
        }
      }
    }

    function Budget(): nat {
      if nGen < 0 then 0 else nGen
    }

    lemma PrefixOfGreedy()
      requires OutputOk()
      ensures out <= Greedy(target.net, prompt, Budget())
    {
      if NoEos(target.net, out) {
        GreedyUnfold(target.net, prompt, out, Budget());
      } else {
        GreedyComplete(target.net, prompt, out, Budget());
      }
    }
  }
}
