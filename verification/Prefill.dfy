/**
 Chunked prefill with its snapshot boundary, and the token history that lets the next request
 continue on the live KV pool.
 */
module Prefill {
  import opened KvPool
  import opened TargetModel
  import PooledMask

  /** A chunk of the schedule: `n` tokens at positions from `pos`. */
  datatype Chunk = Chunk(pos: nat, n: nat)

  /** The uniform schedule: chunks of `w` tokens, the last one shorter. */
  function Schedule(pos: nat, n: nat, w: nat): seq<Chunk>
    requires w > 0
    decreases n
  {
    if n == 0 then []
    else if n <= w then [Chunk(pos, n)]
    else [Chunk(pos, w)] + Schedule(pos + w, n - w, w)
  }

  /** The schedule cuts [pos, pos+n) into adjacent, non-empty chunks. */
  lemma {:induction false} SchedulePartitions(pos: nat, n: nat, w: nat)
    requires w > 0
    ensures var s := Schedule(pos, n, w);
            && (n > 0 ==> s != [] && s[0].pos == pos && s[|s| - 1].pos + s[|s| - 1].n == pos + n)
            && (forall i :: 0 <= i < |s| ==> 0 < s[i].n <= w)
            && (forall i :: 0 < i < |s| ==> s[i].pos == s[i - 1].pos + s[i - 1].n)
    decreases n
  {
    if n > w {
      SchedulePartitions(pos + w, n - w, w);
    }
  }

  /** `chunks` is the part of the schedule before `start`. */
  ghost predicate Scheduled(chunks: seq<Chunk>, pos: nat, start: nat, n: nat, w: nat)
    requires w > 0 && start <= n
  {
    chunks + Schedule(pos + start, n - start, w) == Schedule(pos, n, w)
  }

  lemma {:induction false} ScheduleStep(chunks: seq<Chunk>, pos: nat, start: nat, k: nat, n: nat, w: nat)
    requires w > 0 && start < n && k == (if w < n - start then w else n - start) && Scheduled(chunks, pos, start, n, w)
    ensures Scheduled(chunks + [Chunk(pos + start, k)], pos, start + k, n, w)
  {
    var rest := Schedule(pos + start + k, n - start - k, w);
    assert Schedule(pos + start, n - start, w) == [Chunk(pos + start, k)] + rest;
    assert chunks + ([Chunk(pos + start, k)] + rest) == chunks + [Chunk(pos + start, k)] + rest;
  }

  lemma NoneEnd(offset: nat)
    ensures EndOf([], offset) == offset
  {}

  lemma ScheduleNone(pos: nat, n: nat, w: nat)
    requires w > 0
    ensures Scheduled([], pos, 0, n, w) && (n == 0 ==> Schedule(pos, n, w) == [])
  {}

  lemma ScheduledPrefix(chunks: seq<Chunk>, pos: nat, start: nat, n: nat, w: nat)
    requires w > 0 && start <= n && Scheduled(chunks, pos, start, n, w)
    ensures chunks <= Schedule(pos, n, w)
    ensures start == n ==> chunks == Schedule(pos, n, w)
  {
    assert start == n ==> chunks + [] == chunks;
  }

  /** Longest common prefix. */
  function Lcp(a: seq<Token>, b: seq<Token>): (k: nat)
    ensures k <= |a| && k <= |b| && a[..k] == b[..k]
    ensures k < |a| && k < |b| ==> a[k] != b[k]
  {
    if a == [] || b == [] || a[0] != b[0] then 0 else
    var k := Lcp(a[1..], b[1..]);
    assert a[..k + 1] == [a[0]] + a[1..][..k] && b[..k + 1] == [b[0]] + b[1..][..k];
    1 + k
  }

  lemma {:induction false} LcpIs(a: seq<Token>, b: seq<Token>, k: nat)
    requires k <= |a| && k <= |b| && a[..k] == b[..k]
    requires k < |a| && k < |b| ==> a[k] != b[k]
    ensures Lcp(a, b) == k
  {
    var l := Lcp(a, b);
    assert forall i :: 0 <= i < k ==> a[..k][i] == a[i] && b[..k][i] == b[i];
    assert forall i :: 0 <= i < l ==> a[..l][i] == a[i] && b[..l][i] == b[i];
  }

  /** std::vector::resize, filling with token 0. */
  function Resize(s: seq<Token>, n: nat): (r: seq<Token>)
    ensures |r| == n && (n <= |s| ==> r == s[..n])
  {
    if n <= |s| then s[..n] else s + seq(n - |s|, _ => 0)
  }

  /** Chunk `i` is the last one that starts at or before position `p`. */
  ghost predicate LastUpTo(chunks: seq<Chunk>, i: nat, p: int) {
    i < |chunks| && chunks[i].pos <= p && forall j :: i < j < |chunks| ==> p < chunks[j].pos
  }

  /** The last chunk that starts at or before a position of the prefill is the one that computes its row. */
  lemma {:induction false} LastUpToHolds(pos: nat, n: nat, w: nat, p: nat, i: nat)
    requires w > 0 && pos <= p < pos + n && i < |Schedule(pos, n, w)|
    ensures var s := Schedule(pos, n, w); LastUpTo(s, i, p) <==> s[i].pos <= p < s[i].pos + s[i].n
    decreases n
  {
    if n > w {
      var rest := Schedule(pos + w, n - w, w);
      assert Schedule(pos, n, w) == [Chunk(pos, w)] + rest;
      ScheduleAbove(pos + w, n - w, w);
      assert rest != [] && rest[0].pos == pos + w;
      hide Schedule;
      LastOfMore(Chunk(pos, w), rest, i, p);
      if i > 0 && pos + w <= p {
        LastUpToHolds(pos + w, n - w, w, p, i - 1);
      }
    }
  }

  /** Behind a first chunk, the last one up to a position is the same. */
  lemma LastOfMore(c: Chunk, rest: seq<Chunk>, i: nat, p: nat)
    requires rest != [] && rest[0].pos == c.pos + c.n && c.pos <= p && forall j :: 0 <= j < |rest| ==> c.pos + c.n <= rest[j].pos
    ensures LastUpTo([c] + rest, 0, p) <==> p < c.pos + c.n
    ensures i > 0 ==> (LastUpTo([c] + rest, i, p) <==> LastUpTo(rest, i - 1, p))
  {
    var s := [c] + rest;
    assert s[1] == rest[0] && forall j :: 0 < j < |s| ==> s[j] == rest[j - 1];
    if i > 0 && LastUpTo(s, i, p) {
      assert forall j :: 0 <= j < |rest| ==> rest[j] == s[j + 1];
    }
    if i > 0 && LastUpTo(rest, i - 1, p) {
      forall j | i < j < |s| ensures p < s[j].pos {
        assert s[j] == rest[j - 1];
      }
    }
  }

  /** No chunk starts below the first position. */
  lemma {:induction false} ScheduleAbove(pos: nat, n: nat, w: nat)
    requires w > 0
    ensures forall i :: 0 <= i < |Schedule(pos, n, w)| ==> pos <= Schedule(pos, n, w)[i].pos
    decreases n
  {
    if n > w {
      ScheduleAbove(pos + w, n - w, w);
    }
  }

  /** Where the chunks begun so far end. */
  function EndOf(chunks: seq<Chunk>, offset: nat): nat {
    if chunks == [] then offset else chunks[|chunks| - 1].pos + chunks[|chunks| - 1].n
  }

  /**
     The saves while the chunks run: a request inside them is served at the start of the last chunk
     not above it, unless that is the first chunk or the prefill is pooled; any other is not.
     */
  ghost predicate BoundarySaves(saves: seq<(int, nat)>, chunks: seq<Chunk>, offset: nat, paged: bool, snapPos: int, snapSlot: int) {
    if snapSlot >= 0 && offset <= snapPos < EndOf(chunks, offset) then
      exists i: nat :: LastUpTo(chunks, i, snapPos) && saves == if i > 0 && !paged then [(snapSlot, chunks[i].pos)] else []
    else
      saves == []
  }

  /** One speculative step: the tokens it emits, and the rows its rejected draft or tree nodes leave above them. */
  datatype SpecStep = SpecStep(toks: seq<Token>, rest: seq<Cell>)

  function Emitted(steps: seq<SpecStep>): (toks: seq<Token>) {
    if steps == [] then [] else Emitted(steps[..|steps| - 1]) + steps[|steps| - 1].toks
  }

  lemma EmittedNothing(steps: seq<SpecStep>)
    ensures Emitted(steps[..0]) == []
  {}

  lemma EmittedMore(steps: seq<SpecStep>, n: nat)
    requires n < |steps|
    ensures Emitted(steps[..n + 1]) == Emitted(steps[..n]) + steps[n].toks
  {
    assert steps[..n + 1][..n] == steps[..n];
  }

  lemma {:induction false} EmittedWithin(steps: seq<SpecStep>, n: nat)
    requires n <= |steps|
    ensures |Emitted(steps[..n])| <= |Emitted(steps)|
    decreases |steps| - n
  {
    if n == |steps| {
      assert steps[..n] == steps;
    } else {
      EmittedMore(steps, n);
      EmittedWithin(steps, n + 1);
    }
  }

  /** The tokens decoded for a request, by the plain loop or the speculative one. */
  datatype Reply = Plain(toks: seq<Token>) | Spec(steps: seq<SpecStep>, width: nat) {
    /** No step writes more than `width` rows. */
    predicate Ok() {
      Spec? ==> forall i :: 0 <= i < |steps| ==> |steps[i].toks| + |steps[i].rest| <= width
    }

    /** No row is written this far above the prompt. */
    function Rows(): nat {
      match this
      case Plain(toks) => |toks| + 1
      case Spec(steps, width) => |Emitted(steps)| + width
    }
  }

  datatype Request = Request(prompt: seq<Token>, snapPos: int, snapSlot: int, reply: Reply)

  /** Why a run of requests ends. */
  datatype Stop = Done | Failed | Cancelled | NothingNew | Displaced

  class Backend {
    const kvflash: bool
    const poolTokens: nat
    const chunkTokens: nat
    const ubatch: nat

    var pool: Pool
    var history: seq<Token>
    var boundary: nat
    var saves: seq<(int, nat)>           // snapshot attempts: slot and position
    ghost var chunks: seq<Chunk>         // the chunks the last prefill began

    constructor (kvflash: bool, poolTokens: nat, chunkTokens: nat, ubatch: nat)
      requires chunkTokens > 0 && ubatch > 0
      ensures Valid() && boundary == 0 && this.kvflash == kvflash && saves == [] && pool.Packed(0)
    {
      this.kvflash, this.poolTokens, this.chunkTokens, this.ubatch := kvflash, poolTokens, chunkTokens, ubatch;
      pool := Pool.Pool(chunkTokens, poolTokens / chunkTokens, map[], map[], map[]);
      history, boundary, saves, chunks := [], 0, [], [];
    }

    ghost predicate Configured()
      reads this`pool
    {
      chunkTokens > 0 && ubatch > 0 && pool.Ok() && pool.ct == chunkTokens && pool.nb == poolTokens / chunkTokens
    }

    /** The continuation's premise: the history below the boundary says which row each position has. */
    ghost predicate Valid()
      reads this
    {
      Configured() && (!kvflash ==> boundary == 0) && boundary <= |history| && pool.HoldsRows(history[..boundary])
    }

    /** Whether a prefill goes through the pool in pager-sized chunks. */
    predicate Paged(offset: nat, n: nat) {
      kvflash && offset + n > poolTokens - chunkTokens
    }

    function Width(offset: nat, n: nat): nat {
      if Paged(offset, n) then chunkTokens else ubatch
    }

    /** A pooled prefill from position 0 starts with an empty page table. */
    predicate Wipes(offset: nat, n: nat, poolContinue: bool) {
      Paged(offset, n) && offset == 0 && !poolContinue
    }

    /** The pool a prefill starts to write to. */
    ghost function Base(was: Pool, offset: nat, n: nat, poolContinue: bool): Pool {
      if Wipes(offset, n, poolContinue) then was.Reset() else was
    }

    /** A contiguous prefill leaves a spare chunk. */
    lemma InPoolChunk(p: nat, end: nat)
      requires chunkTokens > 0 && p < end <= poolTokens - chunkTokens
      ensures ChunkOf(p, chunkTokens) < poolTokens / chunkTokens
    {
      var n := poolTokens / chunkTokens;
      assert poolTokens == n * chunkTokens + poolTokens % chunkTokens;
      ChunkBelow(p, n, chunkTokens);
    }

    /**
     Makes position `p` resident: in its block, in the first free block, or in the block of a
     victim that pages out; the chunks in `keep`, of the same batch, are never victims. `n` marks
     how far a packed pool reaches.
     */
    method SlotFor(p: nat, keep: set<nat>, ghost n: nat) returns (ok: bool)
      requires Configured()
      modifies this`pool
      ensures Configured() && pool.Keeps(old(pool))
      ensures ok ==> pool.Resident(p)
      ensures !ok ==> pool == old(pool)
      ensures old(pool.table) == map[] && pool.nb == 0 ==> !ok
      ensures forall c :: c in keep && c in old(pool).table ==> c in pool.table
      ensures forall m: nat :: old(pool).Below(m) && ChunkOf(p, chunkTokens) < m ==> pool.Below(m)
      ensures old(pool.Packed(n)) && p <= n && ChunkOf(p, chunkTokens) < pool.nb ==>
                ok && pool.blocks == old(pool.blocks) && pool.Packed(if p < n then n else n + 1)
    {
      hide pool.Ok, pool.CellOf, pool.Known, pool.Below, ChunkOf, IndexOf;
      var c := ChunkOf(p, chunkTokens);
      ghost var packed := pool.Packed(n) && p <= n && c < pool.nb;
      if packed {
        if p < n {
          pool.PackedIdentity(n, n);
          assert pool.Sits(p, p);
        } else {
          pool.PackedNext(n);
        }
      }
      if c in pool.table { return true; }
      var b := pool.FreeFrom(0);
      if b == pool.nb {
        var victim: nat := *;
        if victim !in pool.table || victim in keep { return false; }
        b := pool.table[victim];
        pool.PageOutKeeps(victim);
        pool := pool.PageOut(victim);
      }
      pool.PlaceKeeps(c, b);
      pool := pool.Place(c, b);
      ok := true;
    }

    /** The slots of a batch of `k` positions, in order. */
    method AllocSlots(p: nat, k: nat, ghost n: nat) returns (ok: bool)
      requires Configured()
      modifies this`pool
      ensures Configured() && pool.Keeps(old(pool))
      ensures ok ==> pool.ResidentFrom(p, k)
      ensures forall m: nat :: old(pool).Below(m) && ChunkOf(p + k, chunkTokens) < m ==> pool.Below(m)
      ensures old(pool.Packed(n)) && p <= n && old(pool).Within(p + k) ==>
                ok && pool.blocks == old(pool.blocks) && pool.Packed(if p + k < n then n else p + k)
      ensures old(pool.table) == map[] && pool.nb == 0 && k > 0 ==> !ok && pool == old(pool)
    {
      hide pool.Ok, pool.CellOf, pool.Known, pool.Packed, pool.Below, ChunkOf;
      ghost var packed := pool.Packed(n) && p <= n && pool.Within(p + k);
      var keep: set<nat> := {};
      var j := 0;
      while j < k
        invariant 0 <= j <= k && Configured() && pool.Keeps(old(pool))
        invariant forall q :: p <= q < p + j ==> pool.Resident(q) && ChunkOf(q, chunkTokens) in keep
        invariant forall c :: c in keep ==> c in pool.table
        invariant forall m: nat :: old(pool).Below(m) && ChunkOf(p + k, chunkTokens) < m ==> pool.Below(m)
        invariant packed ==> pool.blocks == old(pool.blocks) && pool.Packed(if p + j < n then n else p + j)
        invariant old(pool.table) == map[] && pool.nb == 0 ==> j == 0 && pool == old(pool)
      {
        assert packed ==> ChunkOf(p + j, chunkTokens) < pool.nb;
        ChunkOrder(p + j, p + k, chunkTokens);
        ok := SlotFor(p + j, keep, if p + j < n then n else p + j);
        if !ok { return; }
        keep := keep + {ChunkOf(p + j, chunkTokens)};
        j := j + 1;
      }
      ok := true;
    }

    /**
     The slots of a batch and its mask, or nothing for want of a block: query q sees slot s exactly
     if a position not after its own, kvPos+q, sits there. The pager counts `nChunks` chunks.
     */
    method MaskBatch(kvPos: nat, k: nat, nChunks: nat, kvd: nat, qPad: nat) returns (ok: bool, slots: seq<nat>, mask: array2<nat>)
      requires Configured() && 1 <= k <= qPad && pool.nb * pool.ct <= kvd
      requires ChunkOf(kvPos + k, chunkTokens) < nChunks && pool.Below(nChunks)
      modifies this`pool
      ensures Configured() && pool.Keeps(old(pool))
      ensures ok ==> |slots| == k && forall j :: 0 <= j < k ==> pool.Sits(kvPos + j, slots[j])
      ensures ok ==> mask.Length0 == qPad && mask.Length1 == kvd
      ensures ok ==> forall q, s: nat :: 0 <= q < k && s < kvd ==>
                       (PooledMask.Open(mask[q, s]) <==> exists p: nat :: p <= kvPos + q && pool.Sits(p, s))
    {
      hide pool.Ok, pool.CellOf, pool.Known, pool.Packed, pool.Below, ChunkOf;
      slots := [];
      ok := AllocSlots(kvPos, k, 0);
      if !ok {
        mask := new nat[0, 0];
        return;
      }
      for j := 0 to k
        invariant |slots| == j && forall i :: 0 <= i < j ==> pool.Sits(kvPos + i, slots[i]) && slots[i] < pool.nb * pool.ct
      {
        assert pool.Resident(kvPos + j);
        slots := slots + [pool.SlotAt(kvPos + j)];
      }
      mask := PoolMask(kvPos, slots, nChunks, kvd, qPad);
    }

    /** The mask of a batch whose slots are allocated. */
    method PoolMask(kvPos: nat, slots: seq<nat>, nChunks: nat, kvd: nat, qPad: nat) returns (mask: array2<nat>)
      requires Configured() && 1 <= |slots| <= qPad && pool.nb * pool.ct <= kvd && pool.Below(nChunks)
      requires forall j :: 0 <= j < |slots| ==> pool.Sits(kvPos + j, slots[j]) && slots[j] < kvd
      ensures mask.Length0 == qPad && mask.Length1 == kvd
      ensures forall q, s: nat :: 0 <= q < |slots| && s < kvd ==>
                (PooledMask.Open(mask[q, s]) <==> exists p: nat :: p <= kvPos + q && pool.Sits(p, s))
    {
      var pager := pool.Pager(nChunks);
      pool.PagerFits(nChunks);
      forall j | 0 <= j < |slots| ensures pager.Holds(slots[j], kvPos + j) {
        pool.SitsIsHolds(kvPos + j, slots[j], nChunks);
      }
      mask := PooledMask.BuildMask(pager, kvPos, slots, kvd, qPad);
      forall q, s: nat | 0 <= q < |slots| && s < kvd
        ensures PooledMask.Open(mask[q, s]) <==> exists p: nat :: p <= kvPos + q && pool.Sits(p, s)
      {
        SeenSits(pager, kvPos + q, s, nChunks);
        if exists p: nat :: p <= kvPos + q && pool.Sits(p, s) {
          var p: nat :| p <= kvPos + q && pool.Sits(p, s);
          pool.SitsIsHolds(p, s, nChunks);
        }
      }
    }

    /** What the pager holds at a slot sits there. */
    lemma SeenSits(pager: PooledMask.Pager, last: nat, s: nat, nChunks: nat)
      requires Configured() && pager == pool.Pager(nChunks)
      ensures (exists p :: p <= last && pager.Holds(s, p)) ==> exists p: nat :: p <= last && pool.Sits(p, s)
    {
      if p :| p <= last && pager.Holds(s, p) {
        pool.HeldIsPosition(p, s, nChunks);
        pool.SitsIsHolds(p, s, nChunks);
      }
    }

    /** Writes rows through the page table. */
    method WriteRows(p0: nat, cells: seq<Cell>)
      requires Configured() && pool.ResidentFrom(p0, |cells|)
      modifies this`pool
      ensures Configured() && pool.Wrote(old(pool), p0, cells) && pool.table == old(pool).table && pool.cold == old(pool).cold
      ensures old(pool).Identity(p0 + |cells|) ==> pool.SlotsGot(old(pool), p0, cells)
    {
      hide pool.Ok, pool.CellOf, pool.Known, pool.AtSlot;
      for j := 0 to |cells|
        invariant Configured() && pool.Wrote(old(pool), p0, cells[..j])
        invariant pool.table == old(pool).table && pool.cold == old(pool).cold
        invariant old(pool).Identity(p0 + |cells|) ==> pool.SlotsGot(old(pool), p0, cells[..j])
      {
        ghost var was := pool;
        assert old(pool).Resident(p0 + j);
        pool.WriteIs(p0 + j, cells[j]);
        pool := pool.Write(p0 + j, cells[j]);
        assert cells[..j] + [cells[j]] == cells[..j + 1];
        WroteMore(old(pool), was, pool, p0, cells[..j], [cells[j]]);
        if old(pool).Identity(p0 + |cells|) {
          assert old(pool).Sits(p0 + j, p0 + j);
          was.PutIs(p0 + j, cells[j]);
          SlotsMore(old(pool), was, pool, p0, cells[..j], [cells[j]]);
        }
      }
      assert cells[..|cells|] == cells;
    }

    /** Writes rows to the slots of the positions' own numbers. */
    method PutRows(s0: nat, cells: seq<Cell>)
      requires Configured()
      modifies this`pool
      ensures Configured() && pool.WroteSlots(old(pool), s0, cells)
    {
      hide pool.Ok, pool.AtSlot;
      for j := 0 to |cells|
        invariant Configured() && pool.WroteSlots(old(pool), s0, cells[..j])
      {
        ghost var was := pool;
        pool.PutIs(s0 + j, cells[j]);
        pool := pool.Put(s0 + j, cells[j]);
        assert cells[..j] + [cells[j]] == cells[..j + 1];
        SlotsMore(old(pool), was, pool, s0, cells[..j], [cells[j]]);
      }
      assert cells[..|cells|] == cells;
    }

    /** A first batch that fits one chunk lies in chunk 0. */
    lemma AllFirst(k: nat)
      requires Configured() && k <= chunkTokens && pool.nb > 0
      ensures pool.Within(k)
    {}

    /** Writes the rows of a batch whose slots are allocated. */
    method Lay(paged: bool, p0: nat, cells: seq<Cell>, ghost base: Pool)
      requires Configured() && (paged ==> pool.ResidentFrom(p0, |cells|))
      requires base.Ok() && if paged then pool.Laid(base, true, p0, []) else pool == base
      modifies this`pool
      ensures Configured() && pool.Laid(base, paged, p0, cells)
      ensures paged ==> pool.table == old(pool).table && pool.cold == old(pool).cold
      ensures paged && old(pool).Identity(p0 + |cells|) ==> pool.SlotsGot(old(pool), p0, cells)
    {
      hide pool.Ok, pool.CellOf, pool.Known, pool.AtSlot, pool.SlotsGot, pool.Identity;
      if paged {
        ghost var was := pool;
        WriteRows(p0, cells);
        WroteMore(base, was, pool, p0, [], cells);
        assert [] + cells == cells;
      } else {
        PutRows(p0, cells);
      }
    }

    /**
     Computes the rows of one chunk. A chunk that fails has written nothing, or some of its rows
     with any contents, or all of them when only a later step failed.
     */
    method Forward(tokens: seq<Token>, start: nat, k: nat, offset: nat, paged: bool) returns (ok: bool, ghost cells: seq<Cell>)
      requires Configured() && start + k <= |tokens| && k > 0
      modifies this`pool
      ensures Configured() && pool.Laid(old(pool), paged, offset + start, cells) && |cells| <= k
      ensures ok ==> cells == RowsFor(offset + start, tokens[start..start + k])
      ensures paged && offset + start == 0 && k <= chunkTokens && old(pool).Packed(0) ==> pool.FirstBatch(old(pool), cells)
    {
      hide pool.Ok, pool.CellOf, pool.Known, pool.AtSlot, pool.Packed, pool.Identity, pool.SlotsGot, pool.Laid, pool.Keeps, pool.Wrote, pool.FirstBatch;
      cells := [];
      pool.LaidNothing(paged, offset + start);
      pool.NoBatch();
      ghost var first := paged && offset + start == 0 && k <= chunkTokens && pool.Packed(0);
      if paged {
        if first {
          pool.PackedNothing();
          if pool.nb > 0 {
            AllFirst(k);
          }
        }
        ok := AllocSlots(offset + start, k, 0);
        pool.KeepsIsLaid(old(pool), offset + start);
        if !ok { return; }
      }
      ok, cells := LayOutcome(tokens, start, k, offset, paged, old(pool));
    }

    /** Writes what the computation of a chunk leaves, whose slots are allocated. */
    method LayOutcome(tokens: seq<Token>, start: nat, k: nat, offset: nat, paged: bool, ghost base: Pool) returns (ok: bool, ghost cells: seq<Cell>)
      requires Configured() && start + k <= |tokens| && k > 0 && (paged ==> pool.ResidentFrom(offset + start, k))
      requires base.Ok() && base.ct == pool.ct && base.nb == pool.nb
      requires if paged then pool.Laid(base, true, offset + start, []) else pool == base
      modifies this`pool
      ensures Configured() && pool.Laid(base, paged, offset + start, cells) && |cells| <= k
      ensures ok ==> cells == RowsFor(offset + start, tokens[start..start + k])
      ensures paged && offset + start == 0 && k <= chunkTokens && old(pool).Packed(k) && old(pool).blocks == base.blocks ==>
                pool.FirstBatch(base, cells)
    {
      hide pool.Ok, pool.CellOf, pool.Known, pool.AtSlot, pool.Packed, pool.Identity, pool.SlotsGot, pool.Laid, pool.Keeps, pool.Wrote, pool.FirstBatch;
      var written := RowsFor(offset + start, tokens[start..start + k]);
      ok := *;
      if !ok {
        var torn: seq<Cell> := *;
        written := if |torn| <= k then torn else written;
      }
      ghost var first := paged && offset + start == 0 && k <= chunkTokens && pool.Packed(k) && pool.blocks == base.blocks;
      if first {
        pool.PackedIdentity(k, |written|);
      }
      ghost var was := pool;
      Lay(paged, offset + start, written, base);
      if first {
        pool.BatchDone(base, was, k, written);
      }
      cells := written;
    }

    /** What was saved since `saves0`, for the chunks begun. */
    ghost predicate SavedInside(saves0: seq<(int, nat)>, offset: nat, paged: bool, snapPos: int, snapSlot: int)
      reads this`saves, this`chunks
    {
      saves0 <= saves && BoundarySaves(saves[|saves0|..], chunks, offset, paged, snapPos, snapSlot)
    }

    /**
     What a prefill that came as far as `committed`, or failed, has saved since `saves0`: its end if
     just that was asked for.
     */
    ghost predicate SavedAsAsked(saves0: seq<(int, nat)>, committed: int, offset: nat, paged: bool, snapPos: int, snapSlot: int)
      reads this`saves, this`chunks
    {
      if committed >= 0 && snapSlot >= 0 && snapPos == committed then saves == saves0 + [(snapSlot, committed)]
      else SavedInside(saves0, offset, paged, snapPos, snapSlot)
    }

    /** The request still stands after the chunks begun, or has been served or dropped at one of them. */
    ghost predicate Pending(pos: int, slot: int, saves0: seq<(int, nat)>, offset: nat, paged: bool, snapPos: int, snapSlot: int)
      reads this`saves, this`chunks
    {
      && SavedInside(saves0, offset, paged, snapPos, snapSlot)
      && if snapSlot >= 0 && offset <= snapPos < EndOf(chunks, offset) then pos == -1 && slot == -1 else pos == snapPos && slot == snapSlot
    }

    lemma NoneBegun(offset: nat, paged: bool, snapPos: int, snapSlot: int)
      requires chunks == []
      ensures Pending(snapPos, snapSlot, saves, offset, paged, snapPos, snapSlot)
    {}

    /** Begins the chunk of `k` tokens at `start`, saving at its start if the request falls inside it. */
    method BoundarySnapshot(pos: int, slot: int, ghost saves0: seq<(int, nat)>, offset: nat, start: nat, k: nat,
                            paged: bool, ghost snapPos: int, ghost snapSlot: int)
      returns (pos': int, slot': int)
      requires k > 0 && EndOf(chunks, offset) == offset + start && (start == 0 <==> chunks == [])
      requires Pending(pos, slot, saves0, offset, paged, snapPos, snapSlot)
      modifies this`saves, this`chunks
      ensures chunks == old(chunks) + [Chunk(offset + start, k)]
      ensures Pending(pos', slot', saves0, offset, paged, snapPos, snapSlot)
    {
      var kvPos := offset + start;
      ghost var was := chunks;
      chunks := chunks + [Chunk(kvPos, k)];
      pos', slot' := pos, slot;
      if slot >= 0 && pos >= 0 && kvPos <= pos < kvPos + k {
        assert LastUpTo(chunks, |was|, pos);
        if kvPos > offset && !paged {
          saves := saves + [(slot, kvPos)];
        }
        pos', slot' := -1, -1;
      } else if snapSlot >= 0 && offset <= snapPos < kvPos {
        ghost var i: nat :| LastUpTo(was, i, snapPos) && saves[|saves0|..] == if i > 0 && !paged then [(snapSlot, was[i].pos)] else [];
        assert LastUpTo(chunks, i, snapPos);
      }
    }

    /** Begins the next chunk of the schedule. */
    method BeginChunk(pos: int, slot: int, ghost saves0: seq<(int, nat)>, offset: nat, done: nat, n: nat, w: nat,
                      paged: bool, ghost snapPos: int, ghost snapSlot: int)
      returns (k: nat, pos': int, slot': int)
      requires w > 0 && done < n && Scheduled(chunks, offset, done, n, w)
      requires EndOf(chunks, offset) == offset + done && (done == 0 <==> chunks == [])
      requires Pending(pos, slot, saves0, offset, paged, snapPos, snapSlot)
      modifies this`saves, this`chunks
      ensures k == (if w < n - done then w else n - done) && Pending(pos', slot', saves0, offset, paged, snapPos, snapSlot)
      ensures Scheduled(chunks, offset, done + k, n, w) && EndOf(chunks, offset) == offset + done + k && chunks != []
      ensures chunks <= Schedule(offset, n, w) && (done + k == n ==> chunks == Schedule(offset, n, w))
    {
      hide Pending, Schedule, Scheduled;
      k := if w < n - done then w else n - done;
      ScheduleStep(chunks, offset, done, k, n, w);
      pos', slot' := BoundarySnapshot(pos, slot, saves0, offset, done, k, paged, snapPos, snapSlot);
      ScheduledPrefix(chunks, offset, done + k, n, w);
    }

    /** The first `done` rows are written, and no others. */
    ghost predicate RowsDone(was: Pool, tokens: seq<Token>, done: nat, offset: nat, paged: bool, written: seq<Cell>)
      requires was.Ok() && done <= |tokens|
      reads this`pool
    {
      && Configured() && written == RowsFor(offset, tokens[..done]) && pool.Laid(was, paged, offset, written)
      && (done == 0 ==> pool == was)
    }

    /** Computes one more chunk; `written'` is what is written then. */
    method ChunkRows(tokens: seq<Token>, done: nat, k: nat, offset: nat, paged: bool, ghost was: Pool, ghost written: seq<Cell>)
      returns (ok: bool, ghost written': seq<Cell>)
      requires was.Ok() && done + k <= |tokens| && k > 0 && RowsDone(was, tokens, done, offset, paged, written)
      modifies this`pool
      ensures Configured() && pool.Laid(was, paged, offset, written')
      ensures done <= |written'| <= done + k && written'[..done] == RowsFor(offset, tokens[..done])
      ensures ok ==> RowsDone(was, tokens, done + k, offset, paged, written')
      ensures !ok && paged && offset == 0 && k <= chunkTokens && was.Packed(0) ==> done > 0 || pool.FirstBatch(was, written')
    {
      hide pool.Ok, pool.CellOf, pool.Known, pool.AtSlot, pool.Packed, pool.Identity, pool.SlotsGot, pool.Laid, pool.FirstBatch, pool.Wrote;
      ghost var before, cells := pool, [];
      ok, cells := Forward(tokens, done, k, offset, paged);
      LaidMore(was, before, pool, paged, offset, written, cells);
      assert done == 0 ==> written + cells == cells;
      written' := written + cells;
      RowsOn(offset, tokens, done, done + k);
    }

    /** The chunk loop: computes rows chunk by chunk until done, cancelled or failed. */
    method RunChunks(tokens: seq<Token>, snapPos: int, snapSlot: int, offset: nat, w: nat, paged: bool)
      returns (ok: bool, cancelled: bool, done: nat, pos: int, slot: int, ghost written: seq<Cell>)
      requires Configured() && w > 0
      modifies this`pool, this`saves, this`chunks
      ensures Configured() && pool.Laid(old(pool), paged, offset, written)
      ensures done <= |written| <= |tokens| && written[..done] == RowsFor(offset, tokens[..done]) && (ok ==> |written| == done)
      ensures Pending(pos, slot, old(saves), offset, paged, snapPos, snapSlot) && chunks <= Schedule(offset, |tokens|, w)
      ensures ok ==> EndOf(chunks, offset) == offset + done
      ensures ok && !cancelled ==> done == |tokens| && chunks == Schedule(offset, |tokens|, w)
      ensures !ok && paged && offset == 0 && w <= chunkTokens && old(pool).Packed(0) ==> done > 0 || pool.FirstBatch(old(pool), written)
    {
      hide pool.Ok, pool.CellOf, pool.Known, pool.AtSlot, pool.Packed, pool.Identity, pool.SlotsGot, pool.Laid, pool.FirstBatch, pool.Wrote, Pending, Schedule, Scheduled, EndOf;
      var n := |tokens|;
      cancelled, done, pos, slot, written, chunks := false, 0, snapPos, snapSlot, [], [];
      ok := true;
      pool.LaidNothing(paged, offset);
      ScheduleNone(offset, n, w);
      assert EndOf([], offset) == offset by { NoneEnd(offset); }
      NoneBegun(offset, paged, snapPos, snapSlot);
      while done < n
        invariant done <= n && RowsDone(old(pool), tokens, done, offset, paged, written)
        invariant Scheduled(chunks, offset, done, n, w) && chunks <= Schedule(offset, n, w) && (done == n ==> chunks == Schedule(offset, n, w))
        invariant EndOf(chunks, offset) == offset + done && (done == 0 <==> chunks == [])
        invariant Pending(pos, slot, old(saves), offset, paged, snapPos, snapSlot)
      {
        if * { return true, true, done, pos, slot, written; }
        var k;
        k, pos, slot := BeginChunk(pos, slot, old(saves), offset, done, n, w, paged, snapPos, snapSlot);
        ok, written := ChunkRows(tokens, done, k, offset, paged, old(pool), written);
        if !ok { return; }
        done := done + k;
      }
    }

    /** After a contiguous prefill: the page table and the history are rebuilt to match slots [0, committed). */
    method SyncPrefill(committed: nat, tokens: seq<Token>, offset: nat, ghost was: Pool, ghost cells: seq<Cell>)
      requires Configured() && (committed > 0 ==> committed <= poolTokens - chunkTokens)
      requires was.Ok() && pool.Laid(was, false, offset, cells) && committed == offset + |cells|
      modifies this`pool, this`history
      ensures Configured() && pool.Packed(committed) && pool.SlotsUpTo(was, offset, cells)
      ensures history == Resize(old(history), offset) + tokens
    {
      hide pool.Ok, pool.CellOf, pool.Known, pool.AtSlot, pool.Packed, pool.Keeps, pool.Laid, pool.SlotsUpTo, pool.SlotsGot, ChunkOf;
      ghost var laid := pool;
      pool.ResetIs();
      pool := pool.Reset();
      for p := 0 to committed
        invariant Configured() && pool.blocks == laid.blocks && pool.Packed(p) && history == old(history)
      {
        InPoolChunk(p, committed);
        var mapped := SlotFor(p, {}, p);
      }
      history := if offset == 0 then tokens else Resize(history, offset) + tokens;
      assert offset == 0 ==> Resize(old(history), 0) + tokens == tokens;
      pool.SyncedSlots(was, laid, offset, cells);
      pool := pool.ZeroFree();
    }

    /** After a prefill of the pool: the history, and for a contiguous one the page table too. */
    method Record(committed: nat, tokens: seq<Token>, offset: nat, paged: bool, poolContinue: bool, ghost base: Pool, ghost cells: seq<Cell>)
      requires Configured() && base.Ok() && pool.Laid(base, paged, offset, cells) && committed == offset + |cells|
      requires !paged && committed > 0 ==> committed <= poolTokens - chunkTokens
      modifies this`pool, this`history
      ensures Configured() && if paged then pool.Laid(base, true, offset, cells) else pool.Packed(committed) && pool.SlotsUpTo(base, offset, cells)
      ensures history == if poolContinue || !paged then Resize(old(history), offset) + tokens else tokens
    {
      hide pool.Ok, pool.CellOf, pool.Known, pool.AtSlot, pool.Packed, pool.Laid, pool.SlotsUpTo, pool.SlotsGot, pool.Wrote;
      if paged {
        history := if poolContinue then Resize(history, offset) + tokens else tokens;
        pool.LaidThenZeroed(base, offset, cells);
        pool := pool.ZeroFree();
      } else {
        SyncPrefill(committed, tokens, offset, base, cells);
      }
    }

    /**
     Prefills `tokens` at positions from `offset`. Returns the committed position, or -1; `done`
     tokens have rows afterwards, and `written` is what was written, with the chunk that failed.
     The chunk schedule never depends on the snapshot request.
     */
    method DoPrefill(tokens: seq<Token>, snapPos: int, snapSlot: int, offset: nat, poolContinue: bool)
      returns (committed: int, cancelled: bool, done: nat, ghost written: seq<Cell>)
      requires Configured()
      modifies this
      ensures Configured()
      ensures done <= |written| <= |tokens| && written[..done] == RowsFor(offset, tokens[..done])
      ensures committed == -1 || (committed == offset + done && |written| == done && (!cancelled ==> done == |tokens|))
      ensures chunks <= Schedule(offset, |tokens|, Width(offset, |tokens|))
      ensures committed >= 0 ==> EndOf(chunks, offset) == committed
      ensures committed >= 0 && !cancelled ==> chunks == Schedule(offset, |tokens|, Width(offset, |tokens|))
      ensures SavedAsAsked(old(saves), committed, offset, Paged(offset, |tokens|), snapPos, snapSlot)
      ensures committed >= 0 && kvflash ==>
                boundary == committed && history == if poolContinue || !Paged(offset, |tokens|) then Resize(old(history), offset) + tokens else tokens
      ensures committed < 0 || !kvflash ==> history == old(history) && boundary == old(boundary)
      ensures committed < 0 || !kvflash || Paged(offset, |tokens|) ==>
                pool.Laid(Base(old(pool), offset, |tokens|, poolContinue), Paged(offset, |tokens|), offset, written)
      ensures committed >= 0 && kvflash && !Paged(offset, |tokens|) ==> pool.Packed(committed) && pool.SlotsUpTo(old(pool), offset, written)
      ensures committed < 0 && Wipes(offset, |tokens|, poolContinue) ==> done > 0 || pool.FirstBatch(old(pool).Reset(), written)
    {
      hide pool.Ok, pool.CellOf, pool.Known, pool.AtSlot, pool.Packed, pool.Laid, pool.SlotsUpTo, pool.SlotsGot, pool.Wrote, Schedule, LastUpTo;
      var n := |tokens|;
      var paged := Paged(offset, n);
      committed, cancelled, done, written, chunks := -1, false, 0, [], [];
      pool.LaidNothing(paged, offset);
      if paged && offset != 0 && !poolContinue { return; }
      ghost var base := Base(pool, offset, n, poolContinue);
      pool.ResetIs();
      if paged && !poolContinue {
        pool := pool.Reset();
        pool.LaidNothing(paged, offset);
      }
      if offset == 0 {
        var migrated: bool := *;
        if !migrated { return; }
      }
      var ok, pos, slot;
      ok, cancelled, done, pos, slot, written := RunChunks(tokens, snapPos, snapSlot, offset, Width(offset, n), paged);
      if !ok { return; }
      committed := offset + done;
      if kvflash {
        Record(committed, tokens, offset, paged, poolContinue, base, written);
      }
      if slot >= 0 && pos == committed {
        saves := saves + [(slot, committed)];
      }
      if kvflash {
        boundary := committed;
      }
    }

    /** The longest prefix of the prompt that the live pool already holds. */
    method MatchLivePool(prompt: seq<Token>) returns (offset: nat)
      requires Valid()
      ensures offset == if kvflash then Lcp(history[..boundary], prompt) else 0
    {
      hide Lcp, pool.HoldsRows, pool.Ok;
      offset := 0;
      if kvflash && boundary > 0 && |history| >= boundary && |prompt| >= 1 {
        var limit := if boundary < |prompt| then boundary else |prompt|;
        while offset < limit && history[offset] == prompt[offset]
          invariant offset <= limit && history[..offset] == prompt[..offset]
        {
          offset := offset + 1;
        }
      }
      if kvflash {
        assert history[..boundary][..offset] == history[..offset];
        LcpIs(history[..boundary], prompt, offset);
      }
    }

    /** What a failed prefill of `n` tokens from `offset` leaves of the rows of `known`. */
    ghost predicate Spared(was: Pool, offset: nat, n: nat, written: seq<Cell>, known: seq<Token>)
      requires pool.ct > 0 && was.Ok()
      reads this`pool
    {
      if Wipes(offset, n, offset > 0) then known == [] || pool.LeftOver(was, written, known)
      else if Paged(offset, n) then pool.Agrees(offset, written, known)
      else was.SlotsAgree(offset, written, known)
    }

    /** The reused prefix is held by the pool a pooled prefill starts from. */
    lemma BaseHolds(was: Pool, prompt: seq<Token>, offset: nat, n: nat)
      requires was.Ok() && offset <= |prompt| && was.HoldsRows(prompt[..offset])
      ensures Base(was, offset, n, offset > 0).Ok() && Base(was, offset, n, offset > 0).HoldsRows(prompt[..offset])
    {}

    /** A prefill that succeeded holds the prompt: a contiguous one if the slots held its reused prefix. */
    lemma SuccessHolds(was: Pool, prompt: seq<Token>, offset: nat, committed: nat, written: seq<Cell>)
      requires was.Ok() && pool.Ok() && offset <= committed <= |prompt| && (kvflash ==> was.HoldsRows(prompt[..offset])) && (!kvflash ==> offset == 0)
      requires written == RowsFor(offset, prompt[offset..committed])
      requires var n, paged := |prompt| - offset, Paged(offset, |prompt| - offset);
               if kvflash && !paged then pool.Packed(committed) && pool.SlotsUpTo(was, offset, written)
               else pool.Laid(Base(was, offset, n, offset > 0), paged, offset, written)
      ensures kvflash ==> (pool.HoldsRows(prompt[..committed]) <==> Paged(offset, |prompt| - offset) || was.InSlots(prompt[..offset]))
      ensures !kvflash ==> pool.InSlots(prompt[..committed]) && was.InSlots(prompt[..offset])
    {
      assert pool.ct > 0;
      hide pool.Ok, pool.CellOf, pool.Known, pool.AtSlot, pool.Packed, pool.Laid, pool.SlotsUpTo, pool.SlotsGot;
      if Paged(offset, |prompt| - offset) {
        BaseHolds(was, prompt, offset, |prompt| - offset);
        pool.HoldsMore(Base(was, offset, |prompt| - offset, offset > 0), prompt, offset, committed);
      } else {
        if kvflash {
          pool.PackedIdentity(committed, committed);
          pool.IdentityHolds(prompt[..committed]);
        } else {
          assert prompt[..offset] == [];
          was.NothingInSlots();
          pool.LaidSlots(was, offset, written);
        }
        pool.SlotsMorePrefix(was, prompt, offset, committed);
      }
    }

    lemma NothingWritten(offset: nat, n: nat, known: seq<Token>)
      requires pool.Ok() && offset > 0
      ensures Spared(pool, offset, n, [], known)
    {
    }

    /** A prompt that extends the old one leaves its rows alone, whatever was written. */
    lemma ExtensionSpares(was: Pool, prompt: seq<Token>, known: seq<Token>, written: seq<Cell>)
      requires pool.ct > 0 && was.Ok() && |known| <= |prompt|
      requires Paged(|known|, |prompt| - |known|) || was.Identity(|known|)
      ensures Spared(was, |known|, |prompt| - |known|, written, known)
    {
      if !Paged(|known|, |prompt| - |known|) {
        forall p, s | 0 <= p < |known| && |known| <= s && was.Sits(p, s) ensures false {
          assert was.Sits(p, p);
          SamePlace(p, s, was.ct);
        }
      }
    }

    /** A failed prefill of the rest of `prompt` spares what `Spared` says. */
    lemma FailureSpares(was: Pool, known: seq<Token>, prompt: seq<Token>, offset: nat, done: nat, written: seq<Cell>)
      requires was.Ok() && pool.Ok() && was.HoldsRows(known) && offset <= |known| && offset <= |prompt|
      requires offset < |known| && offset < |prompt| ==> known[offset] != prompt[offset]
      requires done <= |written| <= |prompt| - offset && written[..done] == RowsFor(offset, prompt[offset..offset + done])
      requires var n := |prompt| - offset; pool.Laid(Base(was, offset, n, offset > 0), Paged(offset, n), offset, written)
      requires Wipes(offset, |prompt| - offset, offset > 0) ==> done > 0 || pool.FirstBatch(was.Reset(), written)
      ensures pool.HoldsRows(known) <==> Spared(was, offset, |prompt| - offset, written, known)
      ensures offset == |known| && (Paged(offset, |prompt| - offset) || was.Identity(offset)) ==> pool.HoldsRows(known)
    {
      if offset == |known| && (Paged(offset, |prompt| - offset) || was.Identity(offset)) {
        ExtensionSpares(was, prompt, known, written);
      }
      hide pool.Ok, pool.CellOf, pool.AtSlot, pool.Known, pool.Packed, pool.SlotsGot;
      var n := |prompt| - offset;
      if !Wipes(offset, n, offset > 0) {
        if Paged(offset, n) {
          pool.SparedRows(was, known, offset, written);
        } else {
          pool.SparedSlots(was, known, offset, written);
        }
      } else if done == 0 {
        pool.SparedByWipe(was, known, written);
      } else if known != [] {
        assert written[..done][0] == written[0] == Row(0, prompt[0]);
        assert pool.CellOf(0) == written[0];
      }
    }

    /** A chunk that computed its rows before it failed costs the premise wherever the prompts part below the boundary. */
    lemma WrittenRowLoses(was: Pool, prompt: seq<Token>, known: seq<Token>, offset: nat, written: seq<Cell>)
      requires pool.ct > 0 && was.Ok() && offset < |known| && offset < |prompt| && known[offset] != prompt[offset]
      requires written != [] && written[0] == Row(offset, prompt[offset])
      requires Paged(offset, |prompt| - offset) || was.Sits(offset, offset)
      ensures !Spared(was, offset, |prompt| - offset, written, known)
    {
      if !Paged(offset, |prompt| - offset) {
        assert was.Sits(offset, offset) && written[offset - offset] != Row(offset, known[offset]);
      }
    }

    /**
     The guard to test before a prefill that may fail: through the page table, or with the identity
     over the old prompt, every failure spares the old prompt if and only if the new one extends it.
     */
    lemma FailureGuard(was: Pool, prompt: seq<Token>, known: seq<Token>, offset: nat)
      requires pool.ct > 0 && was.Ok() && offset <= |known| && offset < |prompt|
      requires offset < |known| ==> known[offset] != prompt[offset]
      requires Paged(offset, |prompt| - offset) || was.Identity(|known|)
      ensures (forall written: seq<Cell> :: |written| <= |prompt| - offset ==> Spared(was, offset, |prompt| - offset, written, known)) <==>
              offset == |known|
    {
      if offset == |known| {
        forall written: seq<Cell> | |written| <= |prompt| - offset ensures Spared(was, offset, |prompt| - offset, written, known) {
          ExtensionSpares(was, prompt, known, written);
        }
      } else {
        var row := RowsFor(offset, [prompt[offset]]);
        assert !Paged(offset, |prompt| - offset) ==> was.Sits(offset, offset);
        WrittenRowLoses(was, prompt, known, offset, row);
      }
    }

    /**
     The prefill part of a request. A pooled prefill that succeeds leaves the rows of the whole
     prompt; a contiguous one exactly if slots [0, offset) held its reused prefix before, because it
     rebuilds the page table as the identity. When a prefill fails, the premise for the next
     continuation survives exactly if what was written agrees with the old prompt, or, once the page
     table was emptied, if block 0 still holds all of it; it always does when the prompt extends the
     old one and goes through the page table or has the identity under it.
     */
    method PrefillRequest(prompt: seq<Token>, snapPos: int, snapSlot: int)
      returns (committed: int, cancelled: bool, offset: nat, done: nat, ghost written: seq<Cell>)
      requires Valid()
      modifies this
      ensures Configured()
      ensures offset == old(if kvflash then Lcp(history[..boundary], prompt) else 0) && done <= |prompt| - offset
      ensures committed == -1 || committed == offset + done
      ensures committed >= 0 && !cancelled ==> committed == |prompt|
      ensures if offset > 0 && offset == |prompt| then saves == old(saves)
              else SavedAsAsked(old(saves), committed, offset, Paged(offset, |prompt| - offset), snapPos, snapSlot)
      ensures committed >= 0 && kvflash && offset < |prompt| ==> boundary == committed && history == prompt
      ensures committed >= 0 ==>
                (Valid() <==> offset == |prompt| || Paged(offset, |prompt| - offset) || old(pool).InSlots(prompt[..offset]))
      ensures committed >= 0 && kvflash && Valid() ==> pool.HoldsRows(prompt[..committed])
      ensures committed >= 0 && !kvflash ==> pool.InSlots(prompt[..committed])
      ensures committed >= 0 && kvflash && offset < |prompt| && !Paged(offset, |prompt| - offset) ==>
                pool.Packed(committed) && pool.SlotsUpTo(old(pool), offset, written)
      ensures done <= |written| <= |prompt| - offset && written[..done] == RowsFor(offset, prompt[offset..offset + done])
      ensures committed < 0 ==> history == old(history) && boundary == old(boundary)
      ensures committed < 0 ==> (Valid() <==> Spared(old(pool), offset, |prompt| - offset, written, history[..boundary]))
      ensures committed < 0 && offset == boundary && (Paged(offset, |prompt| - offset) || old(pool).Identity(offset)) ==> Valid()
    {
      hide Lcp, pool.Ok, pool.CellOf, pool.Known, pool.AtSlot, pool.Packed, pool.Laid, pool.SlotsUpTo, pool.SlotsGot, pool.FirstBatch, pool.InSlots, pool.Identity, Spared, SavedAsAsked, EndOf, Schedule, Width;
      offset := MatchLivePool(prompt);
      ghost var known := history[..boundary];
      assert kvflash ==> known[..offset] == prompt[..offset];
      if offset > 0 && offset == |prompt| {
        // Wholly matched: nothing to prefill, and boundary and history stay as they were.
        var built: bool := *;
        committed, cancelled, done, written := if built then offset else -1, false, 0, [];
        NothingWritten(offset, 0, known);
        return;
      }
      var delta := prompt[offset..];
      committed, cancelled, done, written := DoPrefill(delta, snapPos, snapSlot, offset, offset > 0);
      assert delta[..done] == prompt[offset..offset + done];
      if committed >= 0 {
        SuccessHolds(old(pool), prompt, offset, committed, written);
      } else {
        FailureSpares(old(pool), known, prompt, offset, done, written);
      }
    }

    /** The guard to test before a contiguous prefill reuses a prefix: the page table is the identity over it. */
    lemma IdentityPrefix(prompt: seq<Token>, offset: nat)
      requires Valid() && offset <= boundary && offset <= |prompt| && history[..boundary][..offset] == prompt[..offset]
      requires pool.Identity(offset)
      ensures pool.InSlots(prompt[..offset])
    {
      assert forall p :: 0 <= p < offset ==> prompt[..offset][p] == history[..boundary][p];
      pool.IdentityHolds(prompt[..offset]);
    }

    /** After the prompt [1, 2], the prompt [1, 3]: when its only chunk, computed, cannot be synchronised, its row is enough. */
    method FailedSyncLoses() returns (committed: int, ghost written: seq<Cell>)
      requires Valid() && kvflash && history == [1, 2] && boundary == 2 && pool.Packed(2)
      modifies this
      ensures committed < 0 && written == RowsFor(1, [3]) ==> !Valid()
    {
      ghost var was := pool;
      pool.PackedIdentity(2, 2);
      assert pool.Sits(1, 1) && history[..boundary] == [1, 2];
      LcpIs([1, 2], [1, 3], 1);
      var cancelled, offset, done;
      committed, cancelled, offset, done, written := PrefillRequest([1, 3], -1, -1);
      if committed < 0 && written == RowsFor(1, [3]) {
        WrittenRowLoses(was, [1, 3], [1, 2], 1, written);
      }
    }

    /**
     A contiguous prefill that reuses a prefix the pool has moved: after a pooled prefill of
     [a, b, c, d] took block 0 for position 3, the prompt [a, e] is served on the row of d. The pool
     has three blocks of one token; for blocks of any size `KvPool.Pool.DisplacedSlot` says the same.
     */
    method DisplacedPrefix(a: Token, b: Token, c: Token, d: Token, e: Token) returns (committed: int)
      requires kvflash && poolTokens == 3 && chunkTokens == 1 && ubatch > 0 && b != e
      requires pool == Overfull(a, b, c, d) && history == [a, b, c, d] && boundary == 4
      modifies this
      ensures committed == 2 ==> Configured() && !Valid() && pool.CellOf(0) == Row(3, d) && pool.CellOf(1) == Row(1, e)
    {
      OverfullHolds(a, b, c, d);
      assert history[..boundary] == history;
      var cancelled, offset, done;
      ghost var written;
      committed, cancelled, offset, done, written := PrefillRequest([a, e], -1, -1);
      LcpIs([a, b, c, d], [a, e], 1);
      if committed == 2 {
        pool.PackedIdentity(2, 2);
        pool.SlotOf(0, 0);
        pool.SlotOf(1, 1);
        assert written[..1] == written;
      }
    }

    /** Reselection: cold chunks change places with resident ones. */
    method Reselect()
      requires Configured()
      modifies this`pool
      ensures Configured() && pool.Keeps(old(pool)) && (old(pool.cold) == map[] ==> pool == old(pool))
    {
      var events: int := *;
      while events > 0
        invariant Configured() && pool.Keeps(old(pool)) && (old(pool.cold) == map[] ==> pool == old(pool))
      {
        var c: nat, victim: nat := *, *;
        if c in pool.cold && c !in pool.table && victim in pool.table {
          var b := pool.table[victim];
          pool.PageOutKeeps(victim);
          pool := pool.PageOut(victim);
          pool.PlaceKeeps(c, b);
          pool := pool.Place(c, b);
        }
        events := events - 1;
      }
    }

    /** Makes `cells` the rows from position `p`, or fails for want of a block, with nothing written. */
    method Append(p: nat, cells: seq<Cell>, ghost n: nat) returns (ok: bool)
      requires Configured()
      modifies this`pool
      ensures Configured() && pool.Laid(old(pool), kvflash, p, if ok then cells else [])
      ensures kvflash && old(pool).Packed(n) && p <= n && old(pool).Within(p + |cells|) ==>
                ok && pool.Packed(if p + |cells| < n then n else p + |cells|)
    {
      hide pool.Ok, pool.CellOf, pool.Known, pool.AtSlot, pool.Packed, pool.Identity, pool.SlotsGot, pool.Laid, pool.Keeps;
      ok := true;
      pool.LaidNothing(kvflash, p);
      if kvflash {
        ok := AllocSlots(p, |cells|, n);
        pool.KeepsIsLaid(old(pool), p);
        if !ok { return; }
      }
      ghost var was := pool;
      Lay(kvflash, p, cells, old(pool));
      if kvflash && was.Packed(if p + |cells| < n then n else p + |cells|) {
        pool.StaysPacked(was, if p + |cells| < n then n else p + |cells|);
      }
    }

    /** What a decode wrote from `committed`, and what that means for the premise. */
    lemma DecodeSpares(was: Pool, known: seq<Token>, committed: nat, written: seq<Cell>)
      requires was.Ok() && was.HoldsRows(known) && (!kvflash ==> known == []) && pool.Laid(was, kvflash, committed, written)
      ensures pool.HoldsRows(known) <==> pool.Agrees(committed, written, known)
    {
      if kvflash {
        pool.SparedRows(was, known, committed, written);
      }
    }

    /**
     Forwards the pending token, which takes the row at position `p`. A forward that fails may leave
     a row of any contents. After one that succeeds the pool may be reselected.
     */
    method ForwardPending(p: nat, tok: Token) returns (ok: bool, ghost cells: seq<Cell>)
      requires Configured()
      modifies this`pool
      ensures Configured() && pool.Laid(old(pool), kvflash, p, cells)
      ensures |cells| <= 1 && (ok ==> cells == [Row(p, tok)])
      ensures kvflash && old(pool).Packed(p) && old(pool).Within(p + 1) ==> cells != [] && pool.Packed(p + 1)
    {
      hide pool.Ok, pool.CellOf, pool.Known, pool.AtSlot, pool.Identity, pool.SlotsGot, pool.Laid, pool.Keeps, ChunkOf;
      ok := *;
      var torn: Cell := *;
      var cell := if ok then Row(p, tok) else torn;
      var mapped := Append(p, [cell], p);
      cells := if mapped then [cell] else [];
      ok := ok && mapped;
      if ok && kvflash {
        ghost var was := pool;
        Reselect();
        pool.KeepsIsLaid(was, p + 1);
        LaidMore(old(pool), was, pool, kvflash, p, cells, []);
        assert cells + [] == cells;
      }
    }

    /** The rows of one speculative step, verified together; a verification that fails may leave rows of any contents. */
    method VerifyStep(base: nat, s: SpecStep, width: nat, ghost n: nat) returns (ok: bool, ghost cells: seq<Cell>)
      requires Configured() && |s.toks| + |s.rest| <= width
      modifies this`pool
      ensures Configured() && pool.Laid(old(pool), kvflash, base, cells)
      ensures |cells| <= width && (ok ==> cells == RowsFor(base, s.toks) + s.rest)
      ensures kvflash && base <= n && old(pool).Packed(n) && old(pool).Within(base + width) ==>
                pool.Packed(if base + |cells| < n then n else base + |cells|)
    {
      hide pool.Ok, pool.CellOf, pool.Known, pool.AtSlot, pool.Packed, pool.Identity, pool.SlotsGot, pool.Laid, pool.Keeps;
      ok := *;
      var torn: seq<Cell> := *;
      var all := if ok || |torn| > width then RowsFor(base, s.toks) + s.rest else torn;
      var mapped := Append(base, all, n);
      cells := if mapped then all else [];
      ok := ok && mapped;
    }

    /** Tokens emitted so far have their rows, whatever lies above them. */
    lemma EmittedRows(pos: nat, xs: seq<Cell>, toks: seq<Token>, more: seq<Token>, rest: seq<Cell>)
      requires |toks| <= |xs| && xs[..|toks|] == RowsFor(pos, toks)
      ensures Over(xs, |toks|, RowsFor(pos + |toks|, more) + rest)[..|toks + more|] == RowsFor(pos, toks + more)
    {
      var r := Over(xs, |toks|, RowsFor(pos + |toks|, more) + rest);
      forall j | 0 <= j < |toks| ensures r[j] == Row(pos + j, toks[j]) {
        assert xs[j] == xs[..|toks|][j];
      }
    }

    /** Where the speculative loop stands: `toks` emitted, `written` laid from `committed`, the pool packed up to `reach`. */
    ghost predicate Speculating(was: Pool, committed: nat, toks: seq<Token>, width: nat, hi: nat, reach: nat, written: seq<Cell>)
      requires was.Ok()
      reads this`pool
    {
      && Configured() && pool.Laid(was, kvflash, committed, written)
      && |toks| <= |written| <= |toks| + width && written[..|toks|] == RowsFor(committed, toks)
      && committed + |toks| <= reach && (kvflash ==> pool.Grown(was, committed, hi, reach))
    }

    /** What a step's rows make of that. */
    lemma StepOn(was: Pool, before: Pool, committed: nat, toks: seq<Token>, width: nat, hi: nat, reach: nat, written: seq<Cell>,
                 s: SpecStep, cells: seq<Cell>, ok: bool)
      requires was.Ok() && Configured() && before.Ok() && before.ct == pool.ct && before.nb == pool.nb
      requires before.Laid(was, kvflash, committed, written) && (kvflash ==> before.Grown(was, committed, hi, reach))
      requires |toks| <= |written| <= |toks| + width && written[..|toks|] == RowsFor(committed, toks) && committed + |toks| <= reach
      requires |s.toks| + |s.rest| <= width && |cells| <= width && (ok ==> cells == RowsFor(committed + |toks|, s.toks) + s.rest)
      requires pool.Laid(before, kvflash, committed + |toks|, cells)
      requires reach <= hi && committed + |toks| + width <= hi
      requires var r := if committed + |toks| + |cells| < reach then reach else committed + |toks| + |cells|;
               kvflash && before.Packed(reach) && before.Within(committed + |toks| + width) ==> pool.Packed(r)
      ensures var r := if committed + |toks| + |cells| < reach then reach else committed + |toks| + |cells|;
              Speculating(was, committed, if ok then toks + s.toks else toks, width, hi, r, Over(written, |toks|, cells))
    {
      hide pool.Ok, pool.CellOf, pool.Known, pool.AtSlot, pool.Packed, pool.Identity, pool.SlotsGot, pool.Laid;
      LaidOver(was, before, pool, kvflash, committed, written, |toks|, cells);
      if ok {
        EmittedRows(committed, written, toks, s.toks, s.rest);
      }
    }

    /** One more row of the plain loop, after those of `before`. */
    method NextRow(p: nat, tok: Token, ghost committed: nat, ghost was: Pool, ghost before: seq<Token>, ghost hi: nat, ghost written: seq<Cell>)
      returns (ok: bool, ghost written': seq<Cell>)
      requires was.Ok() && |written| == |before| && p == committed + |before| < hi
      requires Speculating(was, committed, before, 1, hi, committed + |written|, written)
      modifies this`pool
      ensures Speculating(was, committed, if ok then before + [tok] else before, 1, hi, committed + |written'|, written')
      ensures ok ==> |written'| == |before| + 1
    {
      hide pool.Ok, pool.CellOf, pool.Known, pool.AtSlot, pool.Packed, pool.Identity, pool.SlotsGot, pool.Laid, pool.HoldsRows, pool.Agrees, pool.Within;
      ghost var from, cells := pool, [];
      ok, cells := ForwardPending(p, tok);
      StepOn(was, from, committed, before, 1, hi, committed + |written|, written, SpecStep([tok], []), cells, ok);
      written' := Over(written, |before|, cells);
    }

    lemma NoneYet(committed: nat, width: nat, hi: nat)
      requires Configured()
      ensures Speculating(pool, committed, [], width, hi, committed, [])
    {
      pool.LaidNothing(kvflash, committed);
      pool.GrownNothing(committed, hi);
    }

    /** The loop itself: emits the tokens and writes the row of each once the next is known. */
    method EmitPlain(committed: nat, toks: seq<Token>) returns (n: nat, ghost written: seq<Cell>)
      requires Configured()
      modifies this`pool, this`history
      ensures n <= |toks| && history == if kvflash then old(history) + toks[..n] else old(history)
      ensures Speculating(old(pool), committed, toks[..Rows(n)], 1, committed + |toks| + 1, committed + |written|, written)
      ensures n == |toks| ==> |written| == Rows(n)
    {
      hide pool.Ok, pool.CellOf, pool.Known, pool.AtSlot, pool.Packed, pool.Identity, pool.SlotsGot, pool.Laid, pool.Grown, pool.Within, Speculating;
      ghost var was := pool;
      n, written := 0, [];
      NoneYet(committed, 1, committed + |toks| + 1);
      assert toks[..0] == [];
      while n < |toks|
        invariant n <= |toks| && history == if kvflash then old(history) + toks[..n] else old(history)
        invariant |written| == Rows(n)
        invariant Speculating(was, committed, toks[..Rows(n)], 1, committed + |toks| + 1, committed + |written|, written)
      {
        if n > 0 {
          var ok;
          ok, written := NextRow(committed + n - 1, toks[n - 1], committed, was, toks[..n - 1], committed + |toks| + 1, written);
          assert toks[..n - 1] + [toks[n - 1]] == toks[..n];
          if !ok { break; }
        }
        n := n + 1;
        if kvflash {
          history := history + [toks[n - 1]];
        }
        if * { break; }
      }
    }

    /**
     The plain decode loop: each token but the last is forwarded for the next and takes the row
     after the one before; the last is pending and has none. The premise survives exactly if the
     rows taken below the boundary, as after a prompt the pool wholly held, agree with the history
     there.
     */
    method PlainDecode(committed: nat, toks: seq<Token>) returns (n: nat, ghost written: seq<Cell>)
      requires Valid()
      modifies this`pool, this`history
      ensures Configured() && n <= |toks| && pool.Laid(old(pool), kvflash, committed, written)
      ensures history == if kvflash then old(history) + toks[..n] else old(history)
      ensures var k := Rows(n);
              k <= |written| <= k + 1 && written[..k] == RowsFor(committed, toks[..k]) && (n == |toks| ==> |written| == k)
      ensures Valid() <==> pool.Agrees(committed, written, old(history[..boundary]))
      ensures kvflash && old(pool).Packed(committed) && old(pool).Within(committed + |toks| + 1) ==> pool.Identity(committed)
    {
      hide pool.Ok, pool.CellOf, pool.Known, pool.AtSlot, pool.Packed, pool.Identity, pool.SlotsGot, pool.Laid, pool.HoldsRows, pool.Agrees, pool.Grown, pool.Within;
      ghost var known, was := history[..boundary], pool;
      n, written := EmitPlain(committed, toks);
      DecodeSpares(was, known, committed, written);
      assert history[..boundary] == known;
      if kvflash && was.Packed(committed) && was.Within(committed + |toks| + 1) {
        pool.GrownIdentity(was, committed, committed + |toks| + 1, committed + |written|);
      }
    }

    /** The rows written when `n` tokens have been emitted: the last one has none. */
    function Rows(n: nat): nat {
      if n == 0 then 0 else n - 1
    }

    /**
     The speculative loop: step after step writes the rows of its emitted tokens and, above them,
     of what it verified and rejected, up to `width` rows in all; the history is not kept. The
     premise survives exactly if all that was written below the boundary, rejected rows included,
     agrees with the history there.
     */
    method SpecDecode(committed: nat, steps: seq<SpecStep>, width: nat) returns (n: nat, ghost written: seq<Cell>)
      requires Valid() && forall i :: 0 <= i < |steps| ==> |steps[i].toks| + |steps[i].rest| <= width
      modifies this`pool
      ensures Configured() && n <= |steps| && pool.Laid(old(pool), kvflash, committed, written)
      ensures var toks := Emitted(steps[..n]);
              |toks| <= |written| <= |toks| + width && written[..|toks|] == RowsFor(committed, toks)
      ensures Valid() <==> pool.Agrees(committed, written, history[..boundary])
      ensures kvflash && old(pool).Packed(committed) && old(pool).Within(committed + |Emitted(steps)| + width) ==> pool.Identity(committed)
    {
      hide pool.Ok, pool.CellOf, pool.Known, pool.AtSlot, pool.Packed, pool.Identity, pool.SlotsGot, pool.Laid, pool.HoldsRows, pool.Agrees, pool.Grown, pool.Within, Emitted;
      ghost var was := pool;
      ghost var reach: nat, hi := committed, committed + |Emitted(steps)| + width;
      n, written := 0, [];
      var toks := Emitted(steps[..0]);
      assert toks == [] by { EmittedNothing(steps); }
      NoneYet(committed, width, hi);
      while n < |steps|
        invariant n <= |steps| && toks == Emitted(steps[..n]) && Speculating(was, committed, toks, width, hi, reach, written)
        invariant reach <= hi
      {
        ghost var before := pool;
        EmittedMore(steps, n);
        EmittedWithin(steps, n);
        var ok;
        ghost var cells;
        ok, cells := VerifyStep(committed + |toks|, steps[n], width, reach);
        StepOn(was, before, committed, toks, width, hi, reach, written, steps[n], cells, ok);
        reach := if committed + |toks| + |cells| < reach then reach else committed + |toks| + |cells|;
        written := Over(written, |toks|, cells);
        if !ok { break; }
        toks := toks + steps[n].toks;
        n := n + 1;
        if * { break; }
      }
      DecodeSpares(was, history[..boundary], committed, written);
      if kvflash && was.Packed(committed) && was.Within(hi) {
        pool.GrownIdentity(was, committed, hi, reach);
      }
    }

    /** Decodes the reply to a prompt of which some part was prefilled: the premise stays, and so does a packed pool's identity. */
    method DecodeReply(committed: nat, reply: Reply)
      requires Valid() && reply.Ok() && (kvflash ==> boundary == committed)
      modifies this`pool, this`history
      ensures Valid() && history[..boundary] == old(history[..boundary])
      ensures kvflash && old(pool).Packed(committed) && old(pool).Within(committed + reply.Rows()) ==> pool.Identity(committed)
    {
      hide pool.Ok, pool.CellOf, pool.Known, pool.Packed, pool.Identity, pool.Laid, pool.Within, Emitted;
      match reply {
        case Plain(toks) =>
          var n;
          ghost var written;
          n, written := PlainDecode(committed, toks);
          assert history[..boundary] == old(history[..boundary]);
        case Spec(steps, width) =>
          var n;
          ghost var written;
          n, written := SpecDecode(committed, steps, width);
      }
    }

    /** The prompt and all rows of its reply fit the pool with a chunk to spare. */
    predicate InPool(r: Request) {
      |r.prompt| + r.reply.Rows() <= poolTokens - chunkTokens
    }

    /**
     One request with the guard: a contiguous prefill is let to reuse a prefix only while the page
     table is the identity over it.
     */
    method ServeOne(r: Request) returns (stop: Stop)
      requires Valid() && r.reply.Ok()
      modifies this
      ensures !stop.Failed? ==> Valid()
      ensures stop.Displaced? ==> unchanged(this)
      ensures stop.Done? && kvflash ==> boundary == |r.prompt| && history[..boundary] == r.prompt
      ensures kvflash && old(pool).Identity(old(boundary)) && InPool(r) ==> !stop.Displaced? && (stop.Done? ==> pool.Identity(boundary))
    {
      hide pool.Ok, pool.CellOf, pool.Packed, pool.Laid, pool.Identity, pool.SlotsUpTo, pool.SlotsAgree, pool.Agrees, Emitted, Lcp, pool.InSlots;
      var matched := MatchLivePool(r.prompt);
      assert kvflash ==> history[..boundary][..matched] == r.prompt[..matched];
      if kvflash && matched < |r.prompt| && !Paged(matched, |r.prompt| - matched) {
        if !pool.Identity(matched) {
          IdentityBelow(boundary, matched);
          return Displaced;
        }
        IdentityPrefix(r.prompt, matched);
      }
      pool.NothingInSlots();
      var committed, cancelled, offset, done;
      ghost var written;
      committed, cancelled, offset, done, written := PrefillRequest(r.prompt, r.snapPos, r.snapSlot);
      if committed < 0 { return Failed; }
      if cancelled { return Cancelled; }
      if offset == |r.prompt| { return NothingNew; }
      RoomFor(r);
      DecodeReply(committed, r.reply);
      stop := Done;
    }

    lemma IdentityBelow(n: nat, m: nat)
      requires pool.ct > 0 && m <= n
      ensures pool.Identity(n) ==> pool.Identity(m)
    {}

    lemma RoomFor(r: Request)
      requires Configured()
      ensures InPool(r) ==> pool.Within(|r.prompt| + r.reply.Rows())
    {
      if InPool(r) {
        var n := |r.prompt| + r.reply.Rows();
        forall q | 0 <= q < n ensures ChunkOf(q, pool.ct) < pool.nb {
          InPoolChunk(q, n);
        }
      }
    }

    /**
     Requests one after another: until a prefill fails the premise holds; after every request the
     history below the boundary is the prompt just served, and the rows below the boundary are that
     prompt's. While everything fits the pool the guard never stops the run.
     */
    method Serve(requests: seq<Request>) returns (n: nat, stop: Stop)
      requires Valid() && forall i :: 0 <= i < |requests| ==> requests[i].reply.Ok()
      modifies this
      ensures n <= |requests| && (stop.Done? <==> n == |requests|)
      ensures !stop.Failed? ==> Valid()
      ensures kvflash && n > 0 && (stop.Done? || stop.Displaced?) ==>
                var p := requests[n - 1].prompt; boundary == |p| && history[..boundary] == p && pool.HoldsRows(p)
      ensures kvflash && old(pool.Identity(boundary)) && (forall i :: 0 <= i < |requests| ==> InPool(requests[i])) ==> !stop.Displaced?
    {
      hide pool.Ok, pool.CellOf, pool.Identity;
      n, stop := 0, Done;
      while n < |requests|
        invariant n <= |requests| && Valid() && stop.Done?
        invariant kvflash && n > 0 ==> var p := requests[n - 1].prompt; boundary == |p| && history[..boundary] == p
        invariant kvflash && old(pool.Identity(boundary)) && (forall i :: 0 <= i < |requests| ==> InPool(requests[i])) ==> pool.Identity(boundary)
      {
        stop := ServeOne(requests[n]);
        if !stop.Done? { return; }
        n := n + 1;
      }
    }
  }
}
