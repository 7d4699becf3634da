/** The slot-space attention mask of pooled prefill: causal attention seen through the page table. */
module PooledMask {
  const F16_ZERO := 0x0000
  const F16_NEG_INF := 0xFC00

  /** The KV pager: chunk `c`, of `ct` positions, lives in pool block `blockOf[c]`, or nowhere (-1). */
  datatype Pager = Pager(ct: nat, blockOf: seq<int>) {
    predicate Entry(c: int, i: int) {
      0 <= c < |blockOf| && blockOf[c] >= 0 && 0 <= i < ct
    }

    function Pos(c: int, i: int): int { c * ct + i }

    function SlotAt(c: int, i: int): int
      requires Entry(c, i)
    {
      blockOf[c] * ct + i
    }

    /** Pool slot `s` holds logical position `p`. */
    ghost predicate Holds(s: int, p: int) {
      exists c, i :: Entry(c, i) && Pos(c, i) == p && SlotAt(c, i) == s
    }

    /** Pool slot `s` holds a position below `bound`. */
    ghost predicate HoldsBelow(s: int, bound: int) {
      exists c, i :: Entry(c, i) && Pos(c, i) < bound && SlotAt(c, i) == s
    }

    /** No two chunks share a block. */
    ghost predicate Injective() {
      forall c, d :: 0 <= c < |blockOf| && 0 <= d < |blockOf| && blockOf[c] >= 0 && blockOf[c] == blockOf[d] ==> c == d
    }

    ghost predicate Fits(kvd: nat) {
      forall c, i :: Entry(c, i) ==> SlotAt(c, i) < kvd
    }

    /** A slot holds at most one position, and a position is held by at most one slot. */
    lemma HoldsIsOneToOne(s: int, p: int, s': int, p': int)
      requires Injective() && Holds(s, p) && Holds(s', p')
      ensures s == s' <==> p == p'
    {
      var c, i :| Entry(c, i) && Pos(c, i) == p && SlotAt(c, i) == s;
      var c', i' :| Entry(c', i') && Pos(c', i') == p' && SlotAt(c', i') == s';
      SameQuotient(c, i, c', i', ct);
      SameQuotient(blockOf[c], i, blockOf[c'], i', ct);
    }

    /** Moving the bound past a held position adds exactly its slot. */
    lemma OneMore(s: int, p: int)
      requires Injective() && Holds(s, p)
      ensures forall t :: HoldsBelow(t, p + 1) <==> HoldsBelow(t, p) || t == s
    {
      forall t ensures HoldsBelow(t, p + 1) <==> HoldsBelow(t, p) || t == s {
        if HoldsBelow(t, p + 1) && !HoldsBelow(t, p) {
          var c, i :| Entry(c, i) && Pos(c, i) < p + 1 && SlotAt(c, i) == t;
          assert Holds(t, p);
          HoldsIsOneToOne(s, p, t, p);
        }
      }
    }

    /** Causality: below any bound, the slot of a held position counts exactly if that position is below it. */
    lemma HeldBelow(s: int, p: int, bound: int)
      requires Injective() && Holds(s, p)
      ensures HoldsBelow(s, bound) <==> p < bound
    {
      if HoldsBelow(s, bound) {
        var c, i :| Entry(c, i) && Pos(c, i) < bound && SlotAt(c, i) == s;
        assert Holds(s, Pos(c, i));
        HoldsIsOneToOne(s, p, s, Pos(c, i));
      }
    }

    lemma SomeHeld(s: int, bound: int)
      requires HoldsBelow(s, bound)
      ensures exists p :: p < bound && Holds(s, p)
    {
      var c, i :| Entry(c, i) && Pos(c, i) < bound && SlotAt(c, i) == s;
      assert Holds(s, Pos(c, i));
    }

    lemma NothingBelowZero()
      ensures forall s :: !HoldsBelow(s, 0)
    {
      forall c: nat, i | Entry(c, i) ensures Pos(c, i) >= 0 {
        Products(0, c, ct);
      }
    }

    /** A chunk without a block adds nothing. */
    lemma AbsentChunk(c: nat, kvPos: int)
      requires c < |blockOf| && blockOf[c] < 0
      ensures forall s :: HoldsBelow(s, Min(kvPos, (c + 1) * ct)) <==> HoldsBelow(s, Min(kvPos, c * ct))
    {
      forall s | HoldsBelow(s, Min(kvPos, (c + 1) * ct)) ensures HoldsBelow(s, Min(kvPos, c * ct)) {
        var d, i :| Entry(d, i) && Pos(d, i) < Min(kvPos, (c + 1) * ct) && SlotAt(d, i) == s;
        Products(d, c, ct);
        Products(c, d, ct);
        assert Pos(d, i) < Min(kvPos, c * ct);
      }
    }

    /** The table ends: a bound beyond it adds nothing. */
    lemma WholeTable(kvPos: int)
      ensures forall s :: HoldsBelow(s, Min(kvPos, |blockOf| * ct)) <==> HoldsBelow(s, kvPos)
    {
      forall s | HoldsBelow(s, kvPos) ensures HoldsBelow(s, Min(kvPos, |blockOf| * ct)) {
        var c, i :| Entry(c, i) && Pos(c, i) < kvPos && SlotAt(c, i) == s;
        Products(c, |blockOf|, ct);
        assert Pos(c, i) < Min(kvPos, |blockOf| * ct);
      }
    }
  }

  function Min(a: int, b: int): int {
    if a <= b then a else b
  }

  lemma {:induction false} Products(a: nat, b: nat, n: nat)
    ensures a < b ==> a * n + n <= b * n
  {
    if a + 1 < b {
      Products(a, b - 1, n);
    }
  }

  lemma SameQuotient(a: nat, i: nat, b: nat, j: nat, n: nat)
    requires i < n && j < n
    ensures a * n + i == b * n + j <==> a == b && i == j
  {
    Products(a, b, n);
    Products(b, a, n);
  }

  predicate Open(f16: nat) {
    f16 == F16_ZERO
  }

  /** The mask value of slot `s` for a query that may see positions below `bound`. */
  ghost function Want(pager: Pager, s: int, bound: int): nat {
    if pager.HoldsBelow(s, bound) then F16_ZERO else F16_NEG_INF
  }

  /** Opens, in row 0, the slots of chunk `c`'s positions below `kvPos`. */
  method OpenChunk(mask: array2<nat>, pager: Pager, kvPos: nat, c: nat)
    requires mask.Length0 > 0 && pager.Injective() && pager.Fits(mask.Length1)
    requires c < |pager.blockOf| && pager.blockOf[c] >= 0
    requires forall s :: 0 <= s < mask.Length1 ==> mask[0, s] == Want(pager, s, Min(kvPos, c * pager.ct))
    modifies mask
    ensures forall s :: 0 <= s < mask.Length1 ==> mask[0, s] == Want(pager, s, Min(kvPos, (c + 1) * pager.ct))
    ensures forall q, s :: 0 < q < mask.Length0 && 0 <= s < mask.Length1 ==> mask[q, s] == old(mask[q, s])
  {
    hide pager.HoldsBelow;
    var ct, blk, i := pager.ct, pager.blockOf[c], 0;
    while i < ct && c * ct + i < kvPos
      invariant 0 <= i <= ct
      invariant forall s :: 0 <= s < mask.Length1 ==> mask[0, s] == Want(pager, s, Min(kvPos, pager.Pos(c, i)))
      invariant forall q, s :: 0 < q < mask.Length0 && 0 <= s < mask.Length1 ==> mask[q, s] == old(mask[q, s])
    {
      assert pager.Entry(c, i) && pager.Holds(pager.SlotAt(c, i), pager.Pos(c, i));
      pager.OneMore(pager.SlotAt(c, i), pager.Pos(c, i));
      mask[0, blk * ct + i] := F16_ZERO;
      i := i + 1;
    }
  }

  /** Row 0 opens exactly the slots of resident positions below `kvPos`. */
  method OpenCached(mask: array2<nat>, pager: Pager, kvPos: nat)
    requires mask.Length0 > 0 && pager.Injective() && pager.Fits(mask.Length1)
    requires forall s :: 0 <= s < mask.Length1 ==> mask[0, s] == F16_NEG_INF
    modifies mask
    ensures forall s :: 0 <= s < mask.Length1 ==> mask[0, s] == Want(pager, s, kvPos)
    ensures forall q, s :: 0 < q < mask.Length0 && 0 <= s < mask.Length1 ==> mask[q, s] == old(mask[q, s])
  {
    var ct := pager.ct;
    pager.NothingBelowZero();
    for c := 0 to |pager.blockOf|
      invariant forall s :: 0 <= s < mask.Length1 ==> mask[0, s] == Want(pager, s, Min(kvPos, c * ct))
      invariant forall q, s :: 0 < q < mask.Length0 && 0 <= s < mask.Length1 ==> mask[q, s] == old(mask[q, s])
    {
      if pager.blockOf[c] < 0 {
        pager.AbsentChunk(c, kvPos);
        continue;
      }
      OpenChunk(mask, pager, kvPos, c);
    }
    pager.WholeTable(kvPos);
  }

  /** Opens, in row q, the batch's own slots up to q. */
  method OpenOwn(mask: array2<nat>, pager: Pager, kvPos: nat, slots: seq<nat>, q: nat)
    requires pager.Injective() && q < |slots| <= mask.Length0
    requires forall s :: 0 <= s < mask.Length1 ==> mask[q, s] == Want(pager, s, kvPos)
    requires forall i :: 0 <= i < |slots| ==> slots[i] < mask.Length1 && pager.Holds(slots[i], kvPos + i)
    modifies mask
    ensures forall r, s :: 0 <= r < mask.Length0 && 0 <= s < mask.Length1 && r != q ==> mask[r, s] == old(mask[r, s])
    ensures forall s :: 0 <= s < mask.Length1 ==> mask[q, s] == Want(pager, s, kvPos + q + 1)
  {
    for i := 0 to q + 1
      invariant forall r, s :: 0 <= r < mask.Length0 && 0 <= s < mask.Length1 && r != q ==> mask[r, s] == old(mask[r, s])
      invariant forall s :: 0 <= s < mask.Length1 ==> mask[q, s] == Want(pager, s, kvPos + i)
    {
      pager.OneMore(slots[i], kvPos + i);
      mask[q, slots[i]] := F16_ZERO;
    }
  }

  /** Copies row 0 to rows 1 to `n`-1. */
  method CopyRow(mask: array2<nat>, n: nat)
    requires 1 <= n <= mask.Length0
    modifies mask
    ensures forall r, s :: 0 <= r < n && 0 <= s < mask.Length1 ==> mask[r, s] == old(mask[0, s])
    ensures forall r, s :: n <= r < mask.Length0 && 0 <= s < mask.Length1 ==> mask[r, s] == old(mask[r, s])
  {
    for q := 1 to n
      invariant forall r, s :: 0 <= r < q && 0 <= s < mask.Length1 ==> mask[r, s] == old(mask[0, s])
      invariant forall r, s :: q <= r < mask.Length0 && 0 <= s < mask.Length1 ==> mask[r, s] == old(mask[r, s])
    {
      for t := 0 to mask.Length1
        invariant forall s :: 0 <= s < t ==> mask[q, s] == old(mask[0, s])
        invariant forall r, s :: 0 <= r < q && 0 <= s < mask.Length1 ==> mask[r, s] == old(mask[0, s])
        invariant forall r, s :: q < r < mask.Length0 && 0 <= s < mask.Length1 ==> mask[r, s] == old(mask[r, s])
      {
        mask[q, t] := mask[0, t];
      }
    }
  }

  /**
   The mask of a batch of `slots` starting at `kvPos`: query q sees slot s exactly when s holds a
   resident position not after its own, kvPos+q. Padding rows see nothing.
   */
  method BuildMask(pager: Pager, kvPos: nat, slots: seq<nat>, kvd: nat, qPad: nat) returns (mask: array2<nat>)
    requires pager.Injective() && pager.Fits(kvd) && 1 <= |slots| <= qPad
    requires forall i :: 0 <= i < |slots| ==> slots[i] < kvd && pager.Holds(slots[i], kvPos + i)
    ensures mask.Length0 == qPad && mask.Length1 == kvd
    ensures forall q, s, p :: 0 <= q < |slots| && 0 <= s < kvd && pager.Holds(s, p) ==> (Open(mask[q, s]) <==> p <= kvPos + q)
    ensures forall q, s :: 0 <= q < |slots| && 0 <= s < kvd && Open(mask[q, s]) ==> exists p :: p <= kvPos + q && pager.Holds(s, p)
    ensures forall q, s :: |slots| <= q < qPad && 0 <= s < kvd ==> mask[q, s] == F16_NEG_INF
  {
    mask := new nat[qPad, kvd]((q, s) => F16_NEG_INF);
    OpenCached(mask, pager, kvPos);
    CopyRow(mask, |slots|);
    for q := 0 to |slots|
      invariant forall r, s :: 0 <= r < q && 0 <= s < kvd ==> mask[r, s] == Want(pager, s, kvPos + r + 1)
      invariant forall r, s :: q <= r < |slots| && 0 <= s < kvd ==> mask[r, s] == Want(pager, s, kvPos)
      invariant forall r, s :: |slots| <= r < qPad && 0 <= s < kvd ==> mask[r, s] == F16_NEG_INF
    {
      OpenOwn(mask, pager, kvPos, slots, q);
    }
    forall q, s, p | 0 <= q < |slots| && 0 <= s < kvd && pager.Holds(s, p) ensures Open(mask[q, s]) <==> p <= kvPos + q {
      pager.HeldBelow(s, p, kvPos + q + 1);
    }
    forall q, s | 0 <= q < |slots| && 0 <= s < kvd && Open(mask[q, s]) ensures exists p :: p <= kvPos + q && pager.Holds(s, p) {
      pager.SomeHeld(s, kvPos + q + 1);
    }
  }
}
