/** Both decoders on the same prompt: speculation must not change the output. */
module Lossless {
  import opened Text
  import opened TargetModel
  import SpecDecode
  import ArDecode

  /** A target prefilled with the prompt in one batch, and its pending token. */
  method Prefilled<Row(0), Rec(0)>(net: Net<Row, Rec>, prompt: seq<Token>, maxCtx: nat, blank: Row, mayFail: bool)
    returns (target: Target<Row, Rec>, ok: bool, lastTok: Token)
    requires prompt != []
    ensures fresh(target) && fresh(target.attn) && target.net == net
    ensures target.attn.Length == maxCtx && target.mayFail == mayFail && target.faulted == !ok
    ensures !ok ==> mayFail || |prompt| > maxCtx
    ensures ok ==> target.Agrees(prompt) && lastTok == G(net, prompt)
  {
    target := new Target(net, maxCtx, blank, mayFail);
    var argmax;
    assert Run(net, []) == Ctx([], net.init);
    ok, argmax := target.VerifyBatch(prompt, 0);
    lastTok := 0;
    if ok {
      lastTok := argmax[|prompt| - 1];
      TraceIsRun(net, [], prompt, |prompt| - 1);
      assert [] + prompt[..|prompt|] == prompt;
    }
  }

  /**
   Greedy speculative decoding against the plain loop, for any network, prompt and configuration and
   whatever is drafted. Both complete unless an operation of one of the targets failed or the client
   cancelled one of them; if neither can happen and the context has room, they do. The outputs of
   completed runs differ exactly if the last step was a tree step whose path `last` stops short,
   `r.DeferredEos?`, and then by the final end-of-sequence token.
   */
  method Compare<Row(0), Rec(0)>(net: Net<Row, Rec>, prompt: seq<Token>, nGen: int, maxCtx: nat, blank: Row, hints: seq<Token>,
                                 fast: bool, threshold: nat, adaptive: bool, ddtree: bool, maxDraft: nat, mayFail: bool, mayCancel: bool)
    returns (spec: seq<Token>, plain: seq<Token>, r: SpecDecode.StepResult, ar: ArDecode.ArResult, faulted: bool, completed: bool,
             ghost last: Option<SpecDecode.TreeEnd>)
    requires prompt != []
    ensures completed <==> !faulted && !r.Cancelled? && !ar.Cancelled?
    ensures (faulted ==> mayFail || |prompt| + nGen + 1 + maxDraft > maxCtx || |prompt| > maxCtx) && (r.Cancelled? || ar.Cancelled? ==> mayCancel)
    ensures completed && !r.DeferredEos? ==> spec == plain
    ensures completed ==> (r.DeferredEos? <==> last.Some? && SpecDecode.Defers(net, fast, threshold, last.value))
    ensures last.Some? ==> prompt <= last.value.h <= prompt + spec && IsGreedy(net, last.value.h, last.value.toks)
    ensures completed && r.DeferredEos? ==> ddtree && spec < plain && |plain| == |spec| + 1 && net.eos(plain[|spec|])
    ensures completed ==> plain == Greedy(net, prompt, if nGen < 0 then 0 else nGen)
  {
    hide Run, G, Greedy, IsGreedy, NoEos;
    spec, plain, r, ar := [], [], SpecDecode.Failed, ArDecode.Failed;
    faulted, completed, last := true, false, None;
    var t1, ok1, last1 := Prefilled(net, prompt, maxCtx, blank, mayFail);
    var t2, ok2, last2 := Prefilled(net, prompt, maxCtx, blank, mayFail);
    if !ok1 || !ok2 { return; }
    var s := new SpecDecode.SpecDecoder(t1, prompt, |prompt|, last1, nGen, hints, fast, threshold, adaptive, ddtree, maxDraft, mayCancel);
    var ok;
    ok, r := s.DoSpecDecode();
    var a := new ArDecode.ArDecoder(t2, prompt, |prompt|, nGen, ArDecode.BudgetHook([], 0), 0, mayCancel);
    ar := a.DoArDecode(last2);
    spec, plain, last := s.out, a.out, s.lastTree;
    faulted := !ok || ar.Failed?;
    completed := !faulted && !r.Cancelled? && !ar.Cancelled?;
    if completed {
      a.PlainIsGreedy(plain);
    }
  }

  /**
   For every network whose second choice ends the sequence and whose first does not: a tree step on
   the pending token alone leaves out the end of sequence that the plain loop emits.
   */
  method StopsShort<Row(0), Rec(0)>(net: Net<Row, Rec>, prompt: seq<Token>, blank: Row)
    returns (spec: seq<Token>, plain: seq<Token>, r: SpecDecode.StepResult)
    requires prompt != [] && !net.eos(G(net, prompt)) && net.eos(G(net, prompt + [G(net, prompt)]))
    ensures r.DeferredEos? && spec == [G(net, prompt)] && plain == [G(net, prompt), G(net, prompt + [G(net, prompt)])]
  {
    hide Run, G;
    var t1, ok1, last1 := Prefilled(net, prompt, |prompt| + 3, blank, false);
    var t2, ok2, last2 := Prefilled(net, prompt, |prompt| + 3, blank, false);
    var s := new SpecDecode.SpecDecoder(t1, prompt, |prompt|, last1, 2, [], true, 1, false, true, 0, false);
    assert prompt + s.out == prompt;
    r := s.TreePass(DDTree([], [], [map[]]), 1);
    ghost var end := s.lastTree.value;
    OneToken(net, prompt, end.toks);
    assert s.StopsShort();
    spec := s.out;
    Second(net, prompt, spec, s.lastTok);
    var a := new ArDecode.ArDecoder(t2, prompt, |prompt|, 2, ArDecode.BudgetHook([], 0), 0, false);
    var ar := a.DoArDecode(last2);
    plain := a.out;
    a.PlainIsGreedy(plain);
    TwoGreedy(net, prompt);
  }

  lemma OneToken<Row, Rec>(net: Net<Row, Rec>, prompt: seq<Token>, toks: seq<Token>)
    requires prompt != [] && IsGreedy(net, prompt, toks) && |toks| == 1
    ensures toks == [G(net, prompt)]
  {
    assert Chosen(net, prompt, toks, 0) && prompt + toks[..0] == prompt;
  }

  /** Before the end of the sequence there is one token. */
  lemma Second<Row, Rec>(net: Net<Row, Rec>, prompt: seq<Token>, out: seq<Token>, last: Token)
    requires prompt != [] && IsGreedy(net, prompt, out) && |out| < 2
    requires last == G(net, prompt + out) && net.eos(last) && !net.eos(G(net, prompt))
    ensures out == [G(net, prompt)]
  {
    assert out == [] ==> prompt + out == prompt;
    if out != [] {
      OneToken(net, prompt, out);
    }
  }

  lemma TwoGreedy<Row, Rec>(net: Net<Row, Rec>, prompt: seq<Token>)
    requires prompt != [] && !net.eos(G(net, prompt)) && net.eos(G(net, prompt + [G(net, prompt)]))
    ensures Greedy(net, prompt, 2) == [G(net, prompt), G(net, prompt + [G(net, prompt)])]
  {
    assert Greedy(net, prompt + [G(net, prompt)], 1) == [G(net, prompt + [G(net, prompt)])];
  }

  /** Such a network: after 1 it chooses 5, and then 9, which ends the sequence. */
  method StopsShortOnce() returns (spec: seq<Token>, plain: seq<Token>)
    ensures spec == [5] && plain == [5, 9]
  {
    var net := Net(0, (c: Ctx<int, int>, t: Token) => Forward(0, 0, if t == 1 then 5 else 9), t => t == 9);
    assert G(net, [1]) == 5 && [1] + [5] == [1, 5] && G(net, [1, 5]) == 9;
    var r;
    spec, plain, r := StopsShort(net, [1], 0);
  }
}
