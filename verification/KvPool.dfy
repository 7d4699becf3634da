/**
 The resident pool of attention rows: positions are grouped into chunks, a chunk sits in a pool
 block or is paged out to host memory, and a row can be written by its position, through the page
 table, or directly at a slot.
 */
module KvPool {
  import opened TargetModel
  import PooledMask

  /** What a slot holds: the row computed for a token at a position, or nothing that can be relied on. */
  datatype Cell = Stale | Row(pos: nat, tok: Token)

  /** The rows of `toks` at positions from `pos`. */
  function RowsFor(pos: nat, toks: seq<Token>): (r: seq<Cell>)
    ensures |r| == |toks| && forall j :: 0 <= j < |toks| ==> r[j] == Row(pos + j, toks[j])
  {
    seq(|toks|, j requires 0 <= j < |toks| => Row(pos + j, toks[j]))
  }

  /** The chunk of a position, and its place in the chunk; the same for the block of a slot. */
  function ChunkOf(p: nat, ct: nat): nat
    requires ct > 0
  {
    if p < ct then 0 else 1 + ChunkOf(p - ct, ct)
  }

  function IndexOf(p: nat, ct: nat): (i: nat)
    requires ct > 0
    ensures i < ct
  {
    if p < ct then p else IndexOf(p - ct, ct)
  }

  lemma {:induction false} ChunkIndex(p: nat, ct: nat)
    requires ct > 0
    ensures ChunkOf(p, ct) * ct + IndexOf(p, ct) == p
  {
    if p >= ct {
      ChunkIndex(p - ct, ct);
      assert (1 + ChunkOf(p - ct, ct)) * ct == ct + ChunkOf(p - ct, ct) * ct;
    }
  }

  /** A position is told apart by its chunk and its place in it. */
  lemma SamePlace(p: nat, q: nat, ct: nat)
    requires ct > 0 && ChunkOf(p, ct) == ChunkOf(q, ct) && IndexOf(p, ct) == IndexOf(q, ct)
    ensures p == q
  {
    ChunkIndex(p, ct);
    ChunkIndex(q, ct);
  }

  /** The next position is in the same chunk or the next one. */
  lemma {:induction false} NextChunk(p: nat, ct: nat)
    requires ct > 0
    ensures ChunkOf(p + 1, ct) == ChunkOf(p, ct) || ChunkOf(p + 1, ct) == ChunkOf(p, ct) + 1
  {
    if p >= ct {
      NextChunk(p - ct, ct);
    }
  }

  lemma {:induction false} ChunkOrder(p: nat, q: nat, ct: nat)
    requires ct > 0 && p <= q
    ensures ChunkOf(p, ct) <= ChunkOf(q, ct)
  {
    if p < q {
      ChunkOrder(p, q - 1, ct);
      NextChunk(q - 1, ct);
    }
  }

  /** A position below `n` whole chunks is in one of them. */
  lemma ChunkBelow(p: nat, n: nat, ct: nat)
    requires ct > 0 && p < n * ct
    ensures ChunkOf(p, ct) < n
  {
    ChunkIndex(p, ct);
    PooledMask.Products(n, ChunkOf(p, ct), ct);
  }

  /** The slot at place `i` of block `b`. */
  function SlotNumber(b: nat, i: nat, ct: nat): (s: nat)
    requires i < ct
    ensures ChunkOf(s, ct) == b && IndexOf(s, ct) == i
  {
    if b == 0 then i else SlotNumber(b - 1, i, ct) + ct
  }

  /** The number of chunks that hold a position below `n`. */
  function Chunks(n: nat, ct: nat): nat
    requires ct > 0
  {
    if n == 0 then 0 else ChunkOf(n - 1, ct) + 1
  }

  datatype Pool = Pool(ct: nat, nb: nat, blocks: map<nat, seq<Cell>>, table: map<nat, nat>, cold: map<nat, seq<Cell>>) {
    /** Blocks and cold copies hold one chunk each; a chunk's block is one of the pool's, and no other's. */
    ghost predicate Ok() {
      && ct > 0
      && (forall b :: b in blocks ==> |blocks[b]| == ct)
      && (forall c :: c in cold ==> |cold[c]| == ct)
      && (forall c :: c in table ==> table[c] < nb)
      && (forall c, d :: c in table && d in table && table[c] == table[d] ==> c == d)
    }

    function Block(b: nat): seq<Cell> {
      if b in blocks then blocks[b] else seq(ct, _ => Stale)
    }

    /** What slot `s` holds. */
    ghost function AtSlot(s: nat): Cell
      requires Ok()
    {
      Block(ChunkOf(s, ct))[IndexOf(s, ct)]
    }

    /** The row of position `p`, in the pool or in its chunk's cold copy. */
    ghost function CellOf(p: nat): Cell
      requires Ok()
    {
      var c, i := ChunkOf(p, ct), IndexOf(p, ct);
      if c in table then Block(table[c])[i] else if c in cold then cold[c][i] else Stale
    }

    predicate Resident(p: nat)
      requires ct > 0
    {
      ChunkOf(p, ct) in table
    }

    /** All `k` positions from `p` are resident. */
    predicate ResidentFrom(p: nat, k: nat)
      requires ct > 0
    {
      forall q :: p <= q < p + k ==> Resident(q)
    }

    /** The chunks of positions below `n` have numbers of blocks. */
    predicate Within(n: nat)
      requires ct > 0
    {
      forall q :: 0 <= q < n ==> ChunkOf(q, ct) < nb
    }

    /** Only the first `n` chunks are resident. */
    predicate Below(n: nat) {
      forall c :: c in table ==> c < n
    }

    /** Position `p` belongs to a chunk that is resident or paged out. */
    predicate Known(p: nat)
      requires ct > 0
    {
      ChunkOf(p, ct) in table || ChunkOf(p, ct) in cold
    }

    /** Position `p` is resident at slot `s`. */
    predicate Sits(p: nat, s: nat)
      requires ct > 0
    {
      ChunkOf(p, ct) in table && table[ChunkOf(p, ct)] == ChunkOf(s, ct) && IndexOf(p, ct) == IndexOf(s, ct)
    }

    /** Positions below `n` sit at the slots of the same number. */
    predicate Identity(n: nat)
      requires ct > 0
    {
      forall p :: 0 <= p < n ==> Sits(p, p)
    }

    /** Slots from 0 hold the rows of `toks`. */
    ghost predicate InSlots(toks: seq<Token>)
      requires Ok()
    {
      forall p :: 0 <= p < |toks| ==> AtSlot(p) == Row(p, toks[p])
    }

    /** The rows of positions below |toks| are those of `toks`. */
    ghost predicate HoldsRows(toks: seq<Token>)
      requires Ok()
    {
      forall p :: 0 <= p < |toks| ==> CellOf(p) == Row(p, toks[p])
    }

    /** Exactly the chunks of positions below `n` are mapped, each to the block of its number. */
    ghost predicate Packed(n: nat)
      requires ct > 0
    {
      && cold == map[]
      && (forall c: nat :: c in table <==> c < Chunks(n, ct))
      && (forall c :: c in table ==> table[c] == c)
    }

    predicate Free(b: nat) {
      forall c :: c in table ==> table[c] != b
    }

    /** The first free block from `b` on; `nb` if there is none. */
    function FreeFrom(b: nat): (r: nat)
      requires b <= nb
      ensures b <= r <= nb && (r < nb ==> Free(r)) && forall d :: b <= d < r ==> !Free(d)
      decreases nb - b
    {
      if b == nb || Free(b) then b else FreeFrom(b + 1)
    }

    /** Chunk `c` moves to host memory. */
    function PageOut(c: nat): Pool
      requires c in table
    {
      this.(cold := cold[c := Block(table[c])], table := map d | d in table && d != c :: table[d])
    }

    /** Chunk `c` gets block `b`, with its cold copy if it has one. */
    function Place(c: nat, b: nat): Pool {
      if c in cold then
        this.(blocks := blocks[b := cold[c]], table := table[c := b], cold := map d | d in cold && d != c :: cold[d])
      else
        this.(table := table[c := b])
    }

    /** Writes the row of a resident position. */
    function Write(p: nat, cell: Cell): Pool
      requires Ok() && Resident(p)
    {
      var b := table[ChunkOf(p, ct)];
      this.(blocks := blocks[b := Block(b)[IndexOf(p, ct) := cell]])
    }

    /** Writes slot `s`. */
    function Put(s: nat, cell: Cell): Pool
      requires Ok()
    {
      var b := ChunkOf(s, ct);
      this.(blocks := blocks[b := Block(b)[IndexOf(s, ct) := cell]])
    }

    function Reset(): Pool {
      this.(table := map[], cold := map[])
    }

    /** Blocks without a chunk are zeroed. */
    function ZeroFree(): Pool {
      this.(blocks := map b | b in blocks && !Free(b) :: blocks[b])
    }

    /** Chunks known in `was` still are, with the same rows. */
    ghost predicate Keeps(was: Pool)
      requires was.Ok()
    {
      Ok() && ct == was.ct && nb == was.nb && forall p: nat :: was.Known(p) ==> Known(p) && CellOf(p) == was.CellOf(p)
    }

    /** `cells` were written to positions from `p0`, through the table. */
    ghost predicate Wrote(was: Pool, p0: nat, cells: seq<Cell>)
      requires was.Ok()
    {
      && Ok() && ct == was.ct && nb == was.nb
      && (forall p :: p0 <= p < p0 + |cells| ==> Known(p) && CellOf(p) == cells[p - p0])
      && (forall p: nat :: (p < p0 || p >= p0 + |cells|) && was.Known(p) ==> Known(p) && CellOf(p) == was.CellOf(p))
    }

    /** Slots from `s0` got `cells`, and no other slot changed. */
    ghost predicate SlotsGot(was: Pool, s0: nat, cells: seq<Cell>)
      requires was.Ok()
    {
      && Ok() && ct == was.ct && nb == was.nb
      && (forall s :: s0 <= s < s0 + |cells| ==> AtSlot(s) == cells[s - s0])
      && (forall s: nat :: s < s0 || s >= s0 + |cells| ==> AtSlot(s) == was.AtSlot(s))
    }

    /** The slots below are as they were, and from `s0` they got `cells`. */
    ghost predicate SlotsUpTo(was: Pool, s0: nat, cells: seq<Cell>)
      requires was.Ok() && Ok()
    {
      forall s: nat :: s < s0 + |cells| ==> AtSlot(s) == if s < s0 then was.AtSlot(s) else cells[s - s0]
    }

    /** `cells` were written directly to slots from `s0`. */
    ghost predicate WroteSlots(was: Pool, s0: nat, cells: seq<Cell>)
      requires was.Ok()
    {
      SlotsGot(was, s0, cells) && table == was.table && cold == was.cold
    }

    lemma PageOutKeeps(c: nat)
      requires Ok() && c in table
      ensures PageOut(c).Keeps(this) && PageOut(c).Free(table[c]) && table[c] < nb && c !in PageOut(c).table
      ensures forall m: nat :: Below(m) ==> PageOut(c).Below(m)
    {}

    lemma PlaceKeeps(c: nat, b: nat)
      requires Ok() && c !in table && Free(b) && b < nb
      ensures Place(c, b).Keeps(this)
      ensures forall m: nat :: Below(m) && c < m ==> Place(c, b).Below(m)
    {}

    /** A row is written to its position alone. */
    lemma WriteIs(p: nat, cell: Cell)
      requires Ok() && Resident(p)
      ensures Write(p, cell).Wrote(this, p, [cell]) && Write(p, cell).table == table && Write(p, cell).cold == cold
    {
      forall q: nat | q != p ensures Write(p, cell).CellOf(q) == CellOf(q) {
        if ChunkOf(q, ct) == ChunkOf(p, ct) && IndexOf(q, ct) == IndexOf(p, ct) {
          SamePlace(p, q, ct);
        }
      }
    }

    /** A slot is written alone. */
    lemma PutIs(s: nat, cell: Cell)
      requires Ok()
      ensures Put(s, cell).WroteSlots(this, s, [cell])
    {
      forall t: nat | t != s ensures Put(s, cell).AtSlot(t) == AtSlot(t) {
        if ChunkOf(t, ct) == ChunkOf(s, ct) && IndexOf(t, ct) == IndexOf(s, ct) {
          SamePlace(s, t, ct);
        }
      }
    }

    /** Zeroing the free blocks loses no row. */
    lemma ZeroFreeKeeps()
      requires Ok()
      ensures ZeroFree().Keeps(this) && forall s: nat :: !Free(ChunkOf(s, ct)) ==> ZeroFree().AtSlot(s) == AtSlot(s)
    {}

    /** What a pool with an empty table is after a first batch that fits one chunk. */
    ghost predicate FirstBatch(was: Pool, cells: seq<Cell>)
      requires was.Ok()
    {
      (this == was && cells == []) || (Ok() && Packed(1) && SlotsGot(was, 0, cells))
    }

    lemma NoBatch()
      requires Ok()
      ensures FirstBatch(this, [])
    {}

    /** Slots of the first batch mapped, then its rows written. */
    lemma BatchDone(was: Pool, mapped: Pool, k: nat, cells: seq<Cell>)
      requires was.Ok() && mapped.Ok() && mapped.ct == was.ct && mapped.nb == was.nb && mapped.blocks == was.blocks
      requires 0 < k <= was.ct && mapped.Packed(k) && SlotsGot(mapped, 0, cells) && table == mapped.table && cold == mapped.cold
      ensures FirstBatch(was, cells)
    {
      StaysPacked(mapped, k);
      PackedFirst(k);
    }

    /** What was written at positions from `p0` agrees with `known`. */
    ghost predicate Agrees(p0: nat, written: seq<Cell>, known: seq<Token>) {
      forall p :: p0 <= p < |known| && p < p0 + |written| ==> written[p - p0] == Row(p, known[p])
    }

    /** What was written to slots from `s0` agrees with `known` wherever a position of `known` sits. */
    ghost predicate SlotsAgree(s0: nat, written: seq<Cell>, known: seq<Token>)
      requires ct > 0
    {
      forall p, s :: 0 <= p < |known| && s0 <= s < s0 + |written| && Sits(p, s) ==> written[s - s0] == Row(p, known[p])
    }

    /** After the table was emptied: chunk 0 is mapped again, and block 0 holds `known`. */
    ghost predicate LeftOver(was: Pool, written: seq<Cell>, known: seq<Token>)
      requires ct > 0 && was.Ok()
    {
      && Resident(0) && |known| <= ct
      && forall p :: 0 <= p < |known| ==> (if p < |written| then written[p] else was.AtSlot(p)) == Row(p, known[p])
    }

    /** Writing on from a held prefix holds more. */
    lemma HoldsMore(was: Pool, toks: seq<Token>, p0: nat, n: nat)
      requires was.Ok() && p0 <= n <= |toks| && was.HoldsRows(toks[..p0]) && Laid(was, true, p0, RowsFor(p0, toks[p0..n]))
      ensures HoldsRows(toks[..n])
    {
      forall p | 0 <= p < n ensures CellOf(p) == Row(p, toks[p]) {
        if p < p0 {
          assert was.CellOf(p) == Row(p, toks[..p0][p]);
        } else {
          assert toks[p0..n][p - p0] == toks[p];
        }
      }
    }

    /** After a contiguous prefill, the slots hold the whole prompt exactly if they held its reused prefix before. */
    lemma SlotsMorePrefix(was: Pool, toks: seq<Token>, p0: nat, n: nat)
      requires was.Ok() && Ok() && p0 <= n <= |toks| && SlotsUpTo(was, p0, RowsFor(p0, toks[p0..n]))
      ensures InSlots(toks[..n]) <==> was.InSlots(toks[..p0])
    {
      forall p | p0 <= p < n ensures AtSlot(p) == Row(p, toks[p]) {
        assert toks[p0..n][p - p0] == toks[p];
      }
      if InSlots(toks[..n]) {
        forall p | 0 <= p < p0 ensures was.AtSlot(p) == Row(p, toks[p]) {
          assert AtSlot(p) == Row(p, toks[..n][p]);
        }
      }
    }

    lemma NothingInSlots()
      requires Ok()
      ensures InSlots([])
    {}

    lemma LaidSlots(was: Pool, s0: nat, cells: seq<Cell>)
      requires was.Ok() && Laid(was, false, s0, cells)
      ensures SlotsUpTo(was, s0, cells)
    {}

    /** Rows written through the table spare `known` exactly if they agree with it. */
    lemma SparedRows(was: Pool, known: seq<Token>, p0: nat, written: seq<Cell>)
      requires was.Ok() && was.HoldsRows(known) && Laid(was, true, p0, written)
      ensures HoldsRows(known) <==> Agrees(p0, written, known)
    {
      if HoldsRows(known) {
        forall p | p0 <= p < |known| && p < p0 + |written| ensures written[p - p0] == Row(p, known[p]) {
          assert CellOf(p) == Row(p, known[p]);
        }
      }
    }

    /** Rows written to slots spare `known` exactly if they agree with the positions that sit there. */
    lemma SparedSlots(was: Pool, known: seq<Token>, s0: nat, written: seq<Cell>)
      requires was.Ok() && was.HoldsRows(known) && Laid(was, false, s0, written)
      ensures HoldsRows(known) <==> was.SlotsAgree(s0, written, known)
    {
      forall p, s | 0 <= p < |known| && s0 <= s < s0 + |written| && was.Sits(p, s) ensures CellOf(p) == written[s - s0] {
        SlotOf(p, s);
      }
      if was.SlotsAgree(s0, written, known) {
        forall p | 0 <= p < |known| ensures CellOf(p) == Row(p, known[p]) {
          assert was.CellOf(p) == Row(p, known[p]);
          if Resident(p) {
            var s := SlotNumber(table[ChunkOf(p, ct)], IndexOf(p, ct), ct);
            assert Sits(p, s) && was.Sits(p, s);
            SlotOf(p, s);
            was.SlotOf(p, s);
          } else {
            assert CellOf(p) == was.CellOf(p);
          }
        }
      }
    }

    /** After the table was emptied, a failure in the first chunk keeps only what block 0 still holds. */
    lemma SparedByWipe(was: Pool, known: seq<Token>, written: seq<Cell>)
      requires was.Ok() && Ok() && FirstBatch(was.Reset(), written)
      ensures HoldsRows(known) <==> known == [] || LeftOver(was, written, known)
    {
      was.ResetIs();
      if Resident(0) {
        forall p: nat | p < ct ensures CellOf(p) == if p < |written| then written[p] else was.AtSlot(p) {
          assert Sits(p, p);
          SlotOf(p, p);
        }
        if |known| > ct {
          assert CellOf(ct) == Stale;
        }
      } else if known != [] {
        assert CellOf(0) == Stale;
      }
    }

    /** A resident position's row is what its slot holds. */
    lemma SlotOf(p: nat, s: nat)
      requires Ok() && Sits(p, s)
      ensures CellOf(p) == AtSlot(s)
    {}

    /** The table of this pool, as the slot-space mask reads it. */
    function Pager(n: nat): PooledMask.Pager {
      PooledMask.Pager(ct, seq(n, c requires 0 <= c => if c in table then table[c] as int else -1))
    }

    lemma PagerFits(n: nat)
      requires Ok()
      ensures Pager(n).Injective() && Pager(n).Fits(nb * ct)
    {
      forall c, i | Pager(n).Entry(c, i) ensures Pager(n).SlotAt(c, i) < nb * ct {
        PooledMask.Products(table[c], nb, ct);
      }
    }

    /** Where a position sits is where the mask of a batch takes it to be. */
    lemma SitsIsHolds(p: nat, s: nat, n: nat)
      requires Ok() && ChunkOf(p, ct) < n
      ensures Sits(p, s) <==> Pager(n).Holds(s, p)
    {
      var c, i := ChunkOf(p, ct), IndexOf(p, ct);
      ChunkIndex(p, ct);
      ChunkIndex(s, ct);
      var g := Pager(n);
      if Sits(p, s) {
        assert g.Entry(c, i) && g.Pos(c, i) == p && g.SlotAt(c, i) == s;
      }
      if g.Holds(s, p) {
        var d, j :| g.Entry(d, j) && g.Pos(d, j) == p && g.SlotAt(d, j) == s;
        PooledMask.SameQuotient(c, i, d, j, ct);
        PooledMask.SameQuotient(table[c], i, ChunkOf(s, ct), IndexOf(s, ct), ct);
      }
    }

    /** The mask only takes positions of the table's chunks to be held. */
    lemma HeldIsPosition(p: int, s: int, n: nat)
      requires Ok() && Pager(n).Holds(s, p)
      ensures p >= 0 && ChunkOf(p, ct) < n
    {
      var g := Pager(n);
      var c: nat, i: nat :| g.Entry(c, i) && g.Pos(c, i) == p && g.SlotAt(c, i) == s;
      PooledMask.Products(0, c, ct);
      ChunkIndex(p, ct);
      PooledMask.SameQuotient(c, i, ChunkOf(p, ct), IndexOf(p, ct), ct);
    }

    /** The slot of a resident position. */
    function SlotAt(p: nat): (s: nat)
      requires Ok() && Resident(p)
      ensures Sits(p, s) && s < nb * ct
    {
      var s := SlotNumber(table[ChunkOf(p, ct)], IndexOf(p, ct), ct);
      ChunkIndex(s, ct);
      PooledMask.Products(ChunkOf(s, ct), nb, ct);
      s
    }

    /** With the identity mapping, the rows of positions are those in the slots. */
    lemma IdentityHolds(toks: seq<Token>)
      requires Ok() && Identity(|toks|)
      ensures InSlots(toks) <==> HoldsRows(toks)
    {
      forall p | 0 <= p < |toks| ensures CellOf(p) == AtSlot(p) {
        SlotOf(p, p);
      }
    }

    /** A slot whose block belongs to another chunk that holds a needed row cannot hold the row of its own number. */
    lemma DisplacedSlot(toks: seq<Token>, p: nat, q: nat)
      requires Ok() && HoldsRows(toks) && p < |toks| && q < |toks| && p != q && Sits(q, p)
      ensures !InSlots(toks[..p + 1])
    {
      SlotOf(q, p);
    }

    /** `cells` were written from position `p0`: through the table, or to the slots of the same numbers. */
    ghost predicate Laid(was: Pool, paged: bool, p0: nat, cells: seq<Cell>)
      requires was.Ok()
    {
      if paged then Wrote(was, p0, cells) else WroteSlots(was, p0, cells)
    }

    lemma KeepsIsLaid(was: Pool, p0: nat)
      requires was.Ok() && Keeps(was)
      ensures Laid(was, true, p0, [])
    {}

    lemma LaidNothing(paged: bool, p0: nat)
      requires Ok()
      ensures Laid(this, paged, p0, [])
    {}

    /** The free blocks of a pool without a table: all of them. */
    lemma ResetIs()
      requires Ok()
      ensures Reset().Ok() && Reset().Packed(0) && Reset().SlotsGot(this, 0, [])
    {}

    /** Zeroing the free blocks after pooled rows were written. */
    lemma LaidThenZeroed(was: Pool, p0: nat, cells: seq<Cell>)
      requires was.Ok() && Laid(was, true, p0, cells)
      ensures ZeroFree().Ok() && ZeroFree().Laid(was, true, p0, cells)
    {
      ZeroFreeKeeps();
    }

    lemma SameSlot(was: Pool, s: nat)
      requires was.Ok() && Ok() && ct == was.ct && blocks == was.blocks
      ensures AtSlot(s) == was.AtSlot(s)
    {}

    /** Mapping the slots of a contiguous prefill and zeroing the rest. */
    lemma SyncedSlots(was: Pool, laid: Pool, s0: nat, cells: seq<Cell>)
      requires was.Ok() && laid.Ok() && laid.Laid(was, false, s0, cells)
      requires Ok() && ct == laid.ct && blocks == laid.blocks && Packed(s0 + |cells|)
      ensures ZeroFree().Ok() && ZeroFree().Packed(s0 + |cells|) && ZeroFree().SlotsUpTo(was, s0, cells)
    {
      hide AtSlot, CellOf, Known;
      var n := s0 + |cells|;
      ZeroFreeKeeps();
      PackedIdentity(n, n);
      forall s: nat | s < n ensures ZeroFree().AtSlot(s) == if s < s0 then was.AtSlot(s) else cells[s - s0] {
        assert Sits(s, s) && !Free(ChunkOf(s, ct));
        SameSlot(laid, s);
      }
    }

    /** Writing rows moves no chunk. */
    lemma StaysPacked(was: Pool, n: nat)
      requires was.ct > 0 && was.Packed(n) && ct == was.ct && table == was.table && cold == was.cold
      ensures Packed(n)
    {}

    lemma PackedNothing()
      requires ct > 0 && Packed(0)
      ensures table == map[]
    {}

    /** If `was` was packed up to `n`, with room for positions below `hi`, this pool is packed up to `m`. */
    ghost predicate Grown(was: Pool, n: nat, hi: nat, m: nat)
      requires was.ct > 0
    {
      was.Packed(n) && was.Within(hi) ==> ct == was.ct && nb == was.nb && n <= m && Packed(m)
    }

    lemma GrownNothing(n: nat, hi: nat)
      requires ct > 0
      ensures Grown(this, n, hi, n)
    {}

    lemma GrownIdentity(was: Pool, n: nat, hi: nat, m: nat)
      requires was.ct > 0 && was.Packed(n) && was.Within(hi) && Grown(was, n, hi, m)
      ensures ct > 0 && Identity(n)
    {
      PackedIdentity(m, n);
    }

    lemma PackedFirst(k: nat)
      requires 0 < k <= ct && Packed(k)
      ensures Packed(1)
    {}

    lemma PackedIdentity(n: nat, m: nat)
      requires ct > 0 && Packed(n) && m <= n
      ensures Identity(m)
    {
      forall p | 0 <= p < m ensures Sits(p, p) {
        ChunkOrder(p, n - 1, ct);
      }
    }

    /** In a packed pool the next position is resident already, or the first free block is the one of its chunk's number. */
    lemma PackedNext(n: nat)
      requires ct > 0 && Packed(n) && ChunkOf(n, ct) < nb
      ensures Resident(n) ==> Packed(n + 1)
      ensures !Resident(n) ==> FreeFrom(0) == ChunkOf(n, ct) && Place(ChunkOf(n, ct), ChunkOf(n, ct)).Packed(n + 1)
    {
      if n > 0 {
        NextChunk(n - 1, ct);
      }
      if !Resident(n) {
        var c := ChunkOf(n, ct);
        assert Free(c);
        forall d | 0 <= d < c ensures !Free(d) {
          assert table[d] == d;
        }
      }
    }
  }

  lemma SlotsMore(a: Pool, b: Pool, c: Pool, s0: nat, xs: seq<Cell>, ys: seq<Cell>)
    requires a.Ok() && b.SlotsGot(a, s0, xs) && c.SlotsGot(b, s0 + |xs|, ys)
    ensures c.SlotsGot(a, s0, xs + ys)
  {}

  /** Writing on, position after position. */
  lemma WroteMore(a: Pool, b: Pool, c: Pool, p0: nat, xs: seq<Cell>, ys: seq<Cell>)
    requires a.Ok() && b.Wrote(a, p0, xs) && c.Wrote(b, p0 + |xs|, ys)
    ensures c.Wrote(a, p0, xs + ys)
  {}

  lemma LaidMore(a: Pool, b: Pool, c: Pool, paged: bool, p0: nat, xs: seq<Cell>, ys: seq<Cell>)
    requires a.Ok() && b.Laid(a, paged, p0, xs) && c.Laid(b, paged, p0 + |xs|, ys)
    ensures c.Laid(a, paged, p0, xs + ys)
  {
    if paged {
      WroteMore(a, b, c, p0, xs, ys);
    } else {
      SlotsMore(a, b, c, p0, xs, ys);
    }
  }

  lemma RowsOn(pos: nat, toks: seq<Token>, k: nat, n: nat)
    requires k <= n <= |toks|
    ensures RowsFor(pos, toks[..k]) + RowsFor(pos + k, toks[k..n]) == RowsFor(pos, toks[..n])
  {}

  /** `ys` written over `xs` from place `k` on. */
  function Over(xs: seq<Cell>, k: nat, ys: seq<Cell>): (r: seq<Cell>)
    requires k <= |xs|
    ensures |r| == if k + |ys| < |xs| then |xs| else k + |ys|
    ensures forall j :: 0 <= j < |r| ==> r[j] == if k <= j < k + |ys| then ys[j - k] else xs[j]
  {
    xs[..k] + ys + if k + |ys| < |xs| then xs[k + |ys|..] else []
  }

  /** Writing again from a position already written. */
  lemma LaidOver(a: Pool, b: Pool, c: Pool, paged: bool, p0: nat, xs: seq<Cell>, k: nat, ys: seq<Cell>)
    requires a.Ok() && k <= |xs| && b.Laid(a, paged, p0, xs) && c.Laid(b, paged, p0 + k, ys)
    ensures c.Laid(a, paged, p0, Over(xs, k, ys))
  {}

  /** Writing in a pool of one-token blocks. */
  lemma OneTokenBlocks(pool: Pool, p: nat, cell: Cell)
    requires pool.Ok() && pool.ct == 1 && p in pool.table
    ensures ChunkOf(p, 1) == p && pool.Write(p, cell) == pool.(blocks := pool.blocks[pool.table[p] := [cell]])
  {
    ChunkIndex(p, 1);
    assert pool.Block(pool.table[p])[0 := cell] == [cell];
  }

  /** A pool of three one-token blocks after a pooled prefill of four tokens: chunk 0 made room for chunk 3. */
  function Overfull(a: Token, b: Token, c: Token, d: Token): Pool {
    Pool(1, 3, map[0 := [Row(3, d)], 1 := [Row(1, b)], 2 := [Row(2, c)]], map[1 := 1, 2 := 2, 3 := 0], map[0 := [Row(0, a)]])
  }

  /** The same pool with all three blocks taken, before the fourth token. */
  function Full(a: Token, b: Token, c: Token): Pool {
    Pool(1, 3, map[0 := [Row(0, a)], 1 := [Row(1, b)], 2 := [Row(2, c)]], map[0 := 0, 1 := 1, 2 := 2], map[])
  }

  /** A new chunk in a free block of one token. */
  lemma FillOne(pool: Pool, c: nat, b: nat, tok: Token)
    requires pool.Ok() && pool.ct == 1 && c !in pool.table && c !in pool.cold && pool.Free(b) && b < pool.nb
    ensures ChunkOf(c, 1) == c && pool.Place(c, b).Ok() && pool.Place(c, b).Resident(c)
    ensures pool.Place(c, b).Write(c, Row(c, tok)) == Pool(1, pool.nb, pool.blocks[b := [Row(c, tok)]], pool.table[c := b], pool.cold)
    ensures pool.Place(c, b).Write(c, Row(c, tok)).Ok()
  {
    ChunkIndex(c, 1);
    pool.PlaceKeeps(c, b);
    OneTokenBlocks(pool.Place(c, b), c, Row(c, tok));
  }

  lemma FullIsReached(a: Token, b: Token, c: Token)
    ensures var p0 := Pool(1, 3, map[], map[], map[]);
            var p1 := p0.Place(0, 0).Write(0, Row(0, a));
            var p2 := p1.Place(1, 1).Write(1, Row(1, b));
            p2.Place(2, 2).Write(2, Row(2, c)) == Full(a, b, c)
    ensures Full(a, b, c).FreeFrom(0) == 3
  {
    var p0 := Pool(1, 3, map[], map[], map[]);
    var p1 := Pool(1, 3, map[0 := [Row(0, a)]], map[0 := 0], map[]);
    var p2 := Pool(1, 3, map[0 := [Row(0, a)], 1 := [Row(1, b)]], map[0 := 0, 1 := 1], map[]);
    FillOne(p0, 0, 0, a);
    assert p0.blocks[0 := [Row(0, a)]] == p1.blocks && p0.table[0 := 0] == p1.table;
    FillOne(p1, 1, 1, b);
    FillOne(p2, 2, 2, c);
    var t := Full(a, b, c).table;
    assert t[0] == 0 && t[1] == 1 && t[2] == 2;
  }

  /** The full pool without chunk 0. */
  function Short(a: Token, b: Token, c: Token): Pool {
    Full(a, b, c).(table := map[1 := 1, 2 := 2], cold := map[0 := [Row(0, a)]])
  }

  lemma Evicted(a: Token, b: Token, c: Token)
    ensures Full(a, b, c).PageOut(0) == Short(a, b, c)
  {
    var out := Full(a, b, c).PageOut(0);
    assert out.table == map[1 := 1, 2 := 2] && out.cold == map[0 := [Row(0, a)]];
  }

  lemma Filled(a: Token, b: Token, c: Token, d: Token)
    ensures Short(a, b, c).Ok() && Short(a, b, c).Place(3, 0).Ok() && Short(a, b, c).Place(3, 0).Resident(3)
    ensures Short(a, b, c).Place(3, 0).Write(3, Row(3, d)) == Overfull(a, b, c, d)
  {
    hide ChunkOf, IndexOf;
    var short := Short(a, b, c);
    hide short.Ok, short.Free, short.Write, short.Place, short.Resident;
    ShortOk(a, b, c);
    FillOne(short, 3, 0, d);
    FirstReplaced([Row(0, a)], [Row(1, b)], [Row(2, c)], [Row(3, d)]);
  }

  lemma FirstReplaced<V>(x: V, y: V, z: V, w: V)
    ensures map[0 := x, 1 := y, 2 := z][0 := w] == map[0 := w, 1 := y, 2 := z]
  {}

  lemma ShortOk(a: Token, b: Token, c: Token)
    ensures Short(a, b, c).Ok() && Short(a, b, c).Free(0)
  {}

  /** Evicting chunk 0 leads there. */
  lemma OverfullIsReached(a: Token, b: Token, c: Token, d: Token)
    ensures Full(a, b, c).PageOut(0).Place(3, 0).Write(3, Row(3, d)) == Overfull(a, b, c, d)
  {
    hide *;
    Evicted(a, b, c);
    Filled(a, b, c, d);
  }

  /** There every position still has its row, and slot 0 no longer holds position 0. */
  lemma OverfullHolds(a: Token, b: Token, c: Token, d: Token)
    ensures var p := Overfull(a, b, c, d);
            p.Ok() && p.HoldsRows([a, b, c, d]) && p.AtSlot(0) == Row(3, d) && !p.Identity(1)
  {
    hide ChunkOf;
    var p := Overfull(a, b, c, d);
    forall q | 0 <= q < 4 ensures ChunkOf(q, 1) == q && p.CellOf(q) == Row(q, [a, b, c, d][q]) {
      ChunkIndex(q, 1);
      assert p.Block(0) == [Row(3, d)] && p.Block(1) == [Row(1, b)] && p.Block(2) == [Row(2, c)];
    }
    assert ChunkOf(0, 1) == 0;
    assert !p.Sits(0, 0);
  }
}
