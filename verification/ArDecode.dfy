/**
 The plain decode loop with its budget hook: one forward per token, and a close sequence forced
 in when the remaining budget reaches the hard limit.
 */
module ArDecode {
  import opened TargetModel

  /** No hook is an empty close sequence. */
  datatype BudgetHook = BudgetHook(close: seq<Token>, hardLimit: int)

  datatype ArResult = Running | BudgetSpent | HitEos | Cancelled | Degenerate | Failed

  /** `out` ends in a run of at least `n` equal tokens. */
  ghost predicate TailRun(out: seq<Token>, n: nat) {
    0 < n <= |out| && forall j :: |out| - n <= j < |out| ==> out[j] == out[|out| - 1]
  }

  /** The last `p` tokens of `out` repeat the `p` before them. */
  predicate Repeats(out: seq<Token>, p: nat) {
    2 * p <= |out| && out[|out| - 2 * p..|out| - p] == out[|out| - p..]
  }

  class ArDecoder<Row(0), Rec(0)> {
    const target: Target<Row, Rec>
    ghost const prompt: seq<Token>
    const hook: BudgetHook
    const nGen: int
    const repeatGuard: nat
    const mayCancel: bool

    var committed: nat
    var out: seq<Token>
    var closeStarted: bool
    var injectPos: nat
    var forcedClose: bool

    constructor (target: Target<Row, Rec>, ghost prompt: seq<Token>, committed: nat, nGen: int, hook: BudgetHook, repeatGuard: nat,
                 mayCancel: bool)
      requires prompt != [] && committed == |prompt|
      ensures this.target == target && this.prompt == prompt && this.committed == committed && this.nGen == nGen
      ensures this.hook == hook && this.repeatGuard == repeatGuard && this.mayCancel == mayCancel
      ensures out == [] && !closeStarted && injectPos == 0 && !forcedClose
    {
      this.target, this.prompt, this.committed, this.nGen, this.hook := target, prompt, committed, nGen, hook;
      this.mayCancel := mayCancel;
      this.repeatGuard, out, closeStarted, injectPos, forcedClose := repeatGuard, [], false, 0, false;
    }

    /** Output index at which the close sequence starts. */
    function CloseAt(): nat {
      if nGen - hook.hardLimit < 0 then 0 else nGen - hook.hardLimit
    }

    /** Output token `k` is the close token due there, or else the target's own choice. */
    ghost predicate TokenOk(s: seq<Token>, k: nat)
      requires prompt != [] && k < |s|
    {
      if hook.close != [] && CloseAt() <= k < CloseAt() + |hook.close| then s[k] == hook.close[k - CloseAt()]
      else Chosen(target.net, prompt, s, k)
    }

    /** The forced-close state machine agrees with the tokens emitted so far. */
    ghost predicate CloseOk()
      reads this
    {
      && prompt != []
      && (forall k :: 0 <= k < |out| ==> TokenOk(out, k))
      && (closeStarted <==> hook.close != [] && |out| > CloseAt())
      && (closeStarted ==> injectPos == if |out| - CloseAt() < |hook.close| then |out| - CloseAt() else |hook.close|)
      && (forcedClose <==> closeStarted && G(target.net, prompt + out[..CloseAt()]) != hook.close[0])
    }

    /** Overrides the sampled token when the budget calls for the close sequence. */
    method MaybeForceClose(sampled: Token) returns (tok: Token)
      requires CloseOk() && sampled == G(target.net, prompt + out)
      modifies this`closeStarted, this`injectPos, this`forcedClose, this`out
      ensures out == old(out) + [tok] && CloseOk()
    {
      ghost var was := out;
      tok := sampled;
      assert was[..|was|] == was;
      if hook.close != [] {
        if closeStarted && injectPos < |hook.close| {
          tok := hook.close[injectPos];
          injectPos := injectPos + 1;
        } else if !closeStarted {
          var remaining := nGen - |out|;
          if remaining <= hook.hardLimit {
            closeStarted, injectPos := true, 1;
            if tok != hook.close[0] {
              tok := hook.close[0];
              forcedClose := true;
            }
          }
        }
      }
      out := out + [tok];
      if |was| >= CloseAt() {
        assert out[..CloseAt()] == was[..CloseAt()];
      }
      forall k | 0 <= k < |out| ensures TokenOk(out, k) {
        assert out[..k] == was[..k];
        if k < |was| {
          assert TokenOk(was, k);
        }
      }
    }

    /** Length of the run of equal tokens that ends the output, as the repeat guard counts it. */
    method DegenerateRun() returns (b: bool)
      requires out != []
      ensures b <==> TailRun(out, repeatGuard)
    {
      if repeatGuard == 0 || |out| < repeatGuard { return false; }
      var run := 1;
      var j := |out| - 2;
      while j >= 0 && out[j] == out[|out| - 1]
        invariant -1 <= j == |out| - 1 - run && run >= 1
        invariant TailRun(out, run)
      {
        run, j := run + 1, j - 1;
      }
      b := run >= repeatGuard;
    }

    /** After the close sequence: whether some period from 12 to 80 repeats at the end of the output. */
    method DegeneratePeriod() returns (b: bool)
      ensures b <==> closeStarted && injectPos >= |hook.close| && exists p :: 12 <= p <= 80 && Repeats(out, p)
    {
      if !closeStarted || injectPos < |hook.close| { return false; }
      var p := 12;
      while p <= 80 && 2 * p <= |out|
        invariant 12 <= p <= 81
        invariant forall q :: 12 <= q < p ==> !Repeats(out, q)
      {
        if Repeats(out, p) { return true; }
        p := p + 1;
      }
      b := false;
    }

    /** The target has taken in all of the output but its last token, which is pending. */
    ghost predicate Pending()
      reads this, target, target.attn
    {
      && out != []
      && target.Agrees(prompt + out[..|out| - 1])
      && committed == |prompt| + |out| - 1
    }

    /** Forwards the pending token and appends the next one. */
    method DecodeOne() returns (ok: bool)
      requires CloseOk() && Pending()
      modifies this`closeStarted, this`injectPos, this`forcedClose, this`out, this`committed, target, target.attn
      ensures CloseOk()
      ensures ok ==> Pending() && |out| == |old(out)| + 1 && old(out) <= out
      ensures !ok ==> out == old(out)
      ensures target.faulted == (old(target.faulted) || !ok)
      ensures !ok ==> target.mayFail || |prompt| + |out| > target.attn.Length
    {
      ghost var h := prompt + out[..|out| - 1];
      var tok := out[|out| - 1];
      var argmax;
      ok, argmax := target.VerifyBatch([tok], committed);
      if !ok { return; }
      RunConcat(target.net, h, [tok]);
      TraceIsRun(target.net, h, [tok], 0);
      assert [tok][..1] == [tok];
      assert h + [tok] == prompt + out;
      ghost var was := out;
      var _ := MaybeForceClose(argmax[0]);
      committed := committed + 1;
      assert out[..|out| - 1] == was;
    }

    /**
     `s` ends in a repetition one of the two watchdogs looks for: a run of the guard's length, or,
     once the close sequence is out, a period from 12 to 80 seen twice.
     */
    ghost predicate Loops(s: seq<Token>) {
      || TailRun(s, repeatGuard)
      || (hook.close != [] && |s| >= CloseAt() + |hook.close| && exists p :: 12 <= p <= 80 && Repeats(s, p))
    }

    /**
     No beginning of the output that was decoded past ends in a repetition. The first token is not
     watched, and the last one is not when something tested before the watchdogs, or a watchdog,
     stops the loop there.
     */
    ghost predicate NoLoopPassed(r: ArResult)
      reads this
    {
      forall k :: 2 <= k <= |out| && (k == |out| ==> !r.HitEos? && !r.Cancelled? && !r.Degenerate?) ==> !Loops(out[..k])
    }

    /** What the output looks like when the loop is left, or about to go on, with `r`. */
    ghost predicate StoppedAs(r: ArResult)
      reads this, target
    {
      && (r.Running? || r.BudgetSpent? ==> NoEos(target.net, out))
      && (r.HitEos? ==> EndsInEos(target.net, out))
      && (r.Degenerate? ==> |out| >= 2 && Loops(out))
      && NoLoopPassed(r)
      && (r.Failed? ==> target.faulted)
      && (out != [] ==> NoEos(target.net, out[..|out| - 1]))
    }

    /** Whether decoding stops after the token just emitted, in the order the code tests. */
    method StopTest() returns (r: ArResult)
      requires out != [] && CloseOk()
      ensures !r.Cancelled? ==> (r.HitEos? <==> target.net.eos(out[|out| - 1]))
      ensures !r.Cancelled? && !r.HitEos? ==> (r.Degenerate? <==> Loops(out))
      ensures r.Running? || r.HitEos? || r.Degenerate? || (r.Cancelled? && mayCancel)
    {
      var cancel: bool := *;
      if mayCancel && cancel { return Cancelled; }
      if target.net.eos(out[|out| - 1]) { return HitEos; }
      var b := DegenerateRun();
      if b { return Degenerate; }
      b := DegeneratePeriod();
      r := if b then Degenerate else Running;
    }

    /** One iteration of the decode loop. */
    method Iterate() returns (r: ArResult)
      requires CloseOk() && Pending() && StoppedAs(Running)
      modifies this`closeStarted, this`injectPos, this`forcedClose, this`out, this`committed, target, target.attn
      ensures CloseOk() && StoppedAs(r) && !r.BudgetSpent? && |old(out)| <= |out| <= |old(out)| + 1
      ensures r.Running? ==> Pending() && |out| == |old(out)| + 1
      ensures target.faulted == (old(target.faulted) || r.Failed?)
      ensures (r.Failed? ==> target.mayFail || |prompt| + |out| > target.attn.Length) && (r.Cancelled? ==> mayCancel)
    {
      ghost var was := out;
      var ok := DecodeOne();
      if !ok { return Failed; }
      assert out[..|out| - 1] == was && out[..|out|] == out;
      r := StopTest();
      forall k | 2 <= k < |out| ensures !Loops(out[..k]) {
        assert out[..k] == was[..k];
      }
    }

    /**
     The plain decode of a fresh request whose prefill left the target at `prompt` with `lastTok`
     pending. Every token is the target's choice except the close sequence, which lands exactly at
     its index; nothing but the budget, an end of sequence, a repetition, a cancellation or a
     failed operation stops it, and a repetition is never decoded past.
     */
    method DoArDecode(lastTok: Token) returns (r: ArResult)
      requires out == [] && !closeStarted && !forcedClose && prompt != [] && committed == |prompt|
      requires target.Agrees(prompt) && lastTok == G(target.net, prompt)
      modifies this`closeStarted, this`injectPos, this`forcedClose, this`out, this`committed, target, target.attn
      ensures |out| <= Budget() && (forall k :: 0 <= k < |out| ==> TokenOk(out, k))
      ensures StoppedAs(r) && !r.Running? && (r.BudgetSpent? ==> |out| == Budget())
      ensures closeStarted ==> hook.close != []
      ensures forcedClose <==> hook.close != [] && |out| > CloseAt() && G(target.net, prompt + out[..CloseAt()]) != hook.close[0]
      ensures target.faulted == (old(target.faulted) || r.Failed?)
      ensures (r.Failed? ==> target.mayFail || |prompt| + Budget() > target.attn.Length) && (r.Cancelled? ==> mayCancel)
    {
      hide Loops, G, TokenOk;
      assert prompt + out == prompt;
      if nGen <= 0 { return BudgetSpent; }
      var first := MaybeForceClose(lastTok);
      assert prompt + out[..0] == prompt;
      if target.net.eos(first) { return HitEos; }
      r := Running;
      while r.Running? && |out| < nGen
        invariant CloseOk() && 1 <= |out| <= nGen
        invariant target.faulted == (old(target.faulted) || r.Failed?)
        invariant (r.Failed? ==> target.mayFail || |prompt| + nGen > target.attn.Length) && (r.Cancelled? ==> mayCancel)
        invariant StoppedAs(r) && !r.BudgetSpent? && (r.Running? ==> Pending())
        decreases if r.Running? then 1 else 0, nGen - |out|
      {
        r := Iterate();
      }
      if r.Running? { r := BudgetSpent; }
    }

    function Budget(): nat {
      if nGen < 0 then 0 else nGen
    }

    /** Without a hook, an output that ran its course is the greedy decode. */
    lemma PlainIsGreedy(s: seq<Token>)
      requires prompt != [] && hook.close == [] && |s| <= Budget()
      requires forall k :: 0 <= k < |s| ==> TokenOk(s, k)
      requires (NoEos(target.net, s) && |s| == Budget()) || EndsInEos(target.net, s)
      ensures s == Greedy(target.net, prompt, Budget())
    {
      forall k | 0 <= k < |s| ensures Chosen(target.net, prompt, s, k) {
        assert TokenOk(s, k);
      }
      GreedyComplete(target.net, prompt, s, Budget());
    }
  }
}
