/** Re-joining code points that arrive split across token pieces. */
module Utf8 {
  type byte = bv8
  type Bytes = seq<byte>

  predicate Tail(b: byte) { 0x80 <= b <= 0xBF }

  /** Encoded length announced by a lead byte; 0 if it cannot start a code point. */
  function SeqLen(b: byte): nat {
    if b <= 0x7F then 1 else if 0xC2 <= b <= 0xDF then 2 else if 0xE0 <= b <= 0xEF then 3 else if 0xF0 <= b <= 0xF4 then 4 else 0
  }

  /** One code point, as in the grammar of section 4 of RFC 3629. */
  predicate CodePoint(s: Bytes) {
    && s != [] && |s| == SeqLen(s[0])
    && (forall i :: 1 <= i < |s| ==> Tail(s[i]))
    && (s[0] == 0xE0 ==> 0xA0 <= s[1])
    && (s[0] == 0xED ==> s[1] <= 0x9F)
    && (s[0] == 0xF0 ==> 0x90 <= s[1])
    && (s[0] == 0xF4 ==> s[1] <= 0x8F)
  }

  /** A sequence of whole code points. */
  predicate Valid(s: Bytes) {
    s == [] || (var n := SeqLen(s[0]); 0 < n <= |s| && CodePoint(s[..n]) && Valid(s[n..]))
  }

  /** The beginning of a code point, not all of it. */
  ghost predicate Partial(s: Bytes) {
    s != [] && exists t :: t != [] && CodePoint(s + t)
  }

  /** The beginning of a valid text. */
  ghost predicate ValidPrefix(s: Bytes) {
    exists t :: Valid(s + t)
  }

  lemma {:induction false} ValidConcat(a: Bytes, b: Bytes)
    requires Valid(a)
    ensures Valid(b) <==> Valid(a + b)
  {
    if a == [] {
      assert a + b == b;
    } else {
      var n := SeqLen(a[0]);
      ValidConcat(a[n..], b);
      assert (a + b)[..n] == a[..n] && (a + b)[n..] == a[n..] + b;
    }
  }

  /** A valid text cut at `m` is whole code points and then at most the beginning of one. */
  lemma {:induction false} CutPrefix(s: Bytes, m: nat) returns (k: nat)
    requires Valid(s) && m <= |s|
    ensures k <= m && Valid(s[..k]) && (s[k..m] == [] || Partial(s[k..m]))
  {
    if m == 0 {
      return 0;
    }
    hide CodePoint, Partial;
    var n := SeqLen(s[0]);
    if n <= m {
      var rest := s[n..];
      var j := CutPrefix(rest, m - n);
      k := n + j;
      ValidOne(s[..n]);
      ValidConcat(s[..n], rest[..j]);
      CutAfter(s, n, j, m);
    } else {
      k := 0;
      BeginsCodePoint(s, m, n);
    }
  }

  lemma CutAfter(s: Bytes, n: nat, j: nat, m: nat)
    requires n + j <= m <= |s|
    ensures s[..n + j] == s[..n] + s[n..][..j] && s[n + j..m] == s[n..][j..m - n]
  {
  }

  lemma {:induction false} BeginsCodePoint(s: Bytes, m: nat, n: nat)
    requires 0 < m < n <= |s| && CodePoint(s[..n])
    ensures Partial(s[0..m])
  {
    assert s[0..m] + s[m..n] == s[..n];
  }

  lemma {:induction false} ValidOne(s: Bytes)
    requires CodePoint(s)
    ensures Valid(s)
  {
    assert s[..|s|] == s;
  }

  /** The last code point of a non-empty valid text. */
  lemma {:induction false} LastCodePoint(s: Bytes) returns (k: nat)
    requires Valid(s) && s != []
    ensures k < |s| && Valid(s[..k]) && CodePoint(s[k..])
  {
    hide CodePoint;
    var n := SeqLen(s[0]);
    assert 0 < n <= |s| && CodePoint(s[..n]) && Valid(s[n..]);
    if n == |s| {
      assert s[..n] == s;
      return 0;
    }
    var j := LastCodePoint(s[n..]);
    k := n + j;
    ValidOne(s[..n]);
    ValidConcat(s[..n], s[n..][..j]);
    SplitAfter(s, n, j);
  }

  lemma SplitAfter(s: Bytes, n: nat, j: nat)
    requires n + j <= |s|
    ensures s[..n + j] == s[..n] + s[n..][..j] && s[n + j..] == s[n..][j..]
  {
  }

  /** How many bytes the code waits for after a lead byte; 0 where it does not wait. */
  function Need(lead: byte): nat {
    if lead & 0xE0 == 0xC0 then 2 else if lead & 0xF0 == 0xE0 then 3 else if lead & 0xF8 == 0xF0 then 4 else 0
  }

  predicate Continuation(b: byte) { b & 0xC0 == 0x80 }

  lemma MasksAreRanges(b: byte)
    ensures Continuation(b) <==> Tail(b)
    ensures SeqLen(b) >= 1 ==> Need(b) == if SeqLen(b) == 1 then 0 else SeqLen(b)
    ensures SeqLen(b) >= 1 ==> !Tail(b)
  {
  }

  /** Splits off an incomplete code point at the end of `joined`, to be held for the next piece. */
  method HoldBackTail(joined: Bytes) returns (whole: Bytes, tail: Bytes)
    ensures whole + tail == joined && |tail| <= 3
    ensures Valid(joined) ==> tail == []
    ensures ValidPrefix(joined) ==> Valid(whole) && (tail == [] || Partial(tail))
  {
    var i: nat, cont := |joined|, 0;
    while i > 0 && cont < 3 && Continuation(joined[i - 1])
      invariant i + cont == |joined| && cont <= 3
      invariant forall k :: i <= k < |joined| ==> Continuation(joined[k])
    {
      i, cont := i - 1, cont + 1;
    }
    whole, tail := joined, [];
    if i > 0 {
      var need := Need(joined[i - 1]);
      if need > 0 && |joined| - (i - 1) < need {
        whole, tail := joined[..i - 1], joined[i - 1..];
      }
    }
    TailIsPartial(joined, i, whole, tail);
  }

  /** Why the scan back from the end finds exactly the incomplete code point. */
  lemma {:induction false} TailIsPartial(joined: Bytes, i: nat, whole: Bytes, tail: Bytes)
    requires i <= |joined| <= i + 3
    requires forall k :: i <= k < |joined| ==> Continuation(joined[k])
    requires i > 0 && |joined| < i + 3 ==> !Continuation(joined[i - 1])
    requires var hold := i > 0 && |joined| - (i - 1) < Need(joined[i - 1]);
             whole == (if hold then joined[..i - 1] else joined) && tail == (if hold then joined[i - 1..] else [])
    ensures Valid(joined) ==> tail == []
    ensures ValidPrefix(joined) ==> Valid(whole) && (tail == [] || Partial(tail))
  {
    hide CodePoint, SeqLen, Need, Continuation, Partial;
    if ValidPrefix(joined) {
      var t :| Valid(joined + t);
      var k := CutPrefix(joined + t, |joined|);
      var rest := joined[k..];
      assert (joined + t)[k..|joined|] == rest && (joined + t)[..k] == joined[..k];
      if rest == [] {
        assert joined[..k] == joined;
        if joined != [] {
          WholeEnd(joined, i);
        }
      } else {
        PartialEnd(joined, k, i);
      }
    }
    if Valid(joined) {
      assert joined + [] == joined;
      if joined != [] {
        WholeEnd(joined, i);
      }
    }
  }

  /** A text that ends in a whole code point is not held back. */
  lemma {:induction false} WholeEnd(joined: Bytes, i: nat)
    requires joined != [] && Valid(joined) && i <= |joined| <= i + 3
    requires forall k :: i <= k < |joined| ==> Continuation(joined[k])
    requires i > 0 && |joined| < i + 3 ==> !Continuation(joined[i - 1])
    ensures i > 0 && |joined| - (i - 1) >= Need(joined[i - 1])
  {
    var k := LastCodePoint(joined);
    LeadFound(joined, k, i, []);
  }

  /** A text that ends in the beginning of a code point, at `k`, is held back from there. */
  lemma PartialEnd(joined: Bytes, k: nat, i: nat)
    requires k < |joined| && Partial(joined[k..]) && i <= |joined| <= i + 3
    requires forall j :: i <= j < |joined| ==> Continuation(joined[j])
    requires i > 0 && |joined| < i + 3 ==> !Continuation(joined[i - 1])
    ensures i - 1 == k && |joined| - k < Need(joined[k])
  {
    var t :| t != [] && CodePoint(joined[k..] + t);
    LeadFound(joined, k, i, t);
  }

  /** The scan stops just after the lead byte of the code point, whole or not, that ends the text. */
  lemma LeadFound(joined: Bytes, k: nat, i: nat, t: Bytes)
    requires k < |joined| && CodePoint(joined[k..] + t) && i <= |joined| <= i + 3
    requires forall j :: i <= j < |joined| ==> Continuation(joined[j])
    requires i > 0 && |joined| < i + 3 ==> !Continuation(joined[i - 1])
    ensures i - 1 == k
    ensures Need(joined[k]) == if SeqLen(joined[k]) == 1 then 0 else |joined| - k + |t|
  {
    var c := joined[k..] + t;
    MasksAreRanges(c[0]);
    forall j | k < j < |joined| ensures Continuation(joined[j]) {
      assert joined[j] == c[j - k];
      MasksAreRanges(joined[j]);
    }
  }

  /** What may be held between pieces. */
  ghost predicate Held(tail: Bytes) {
    |tail| <= 3 && (tail == [] || Partial(tail))
  }

  /** One piece arrives after `before` was released and `tail` held. */
  method Take(tail: Bytes, piece: Bytes, ghost before: Bytes) returns (whole: Bytes, tail': Bytes)
    ensures whole + tail' == tail + piece && |tail'| <= 3
    ensures Valid(before) && ValidPrefix(before + tail + piece) ==> Valid(whole) && Valid(before + whole) && Held(tail')
    ensures Valid(before) && Valid(before + tail + piece) ==> tail' == []
  {
    ghost var joined := tail + piece;
    whole, tail' := HoldBackTail(tail + piece);
    if Valid(before) {
      assert before + tail + piece == before + joined;
      ValidConcat(before, joined);
      ValidConcat(before, whole);
      if ValidPrefix(before + joined) {
        var t :| Valid(before + joined + t);
        assert before + joined + t == before + (joined + t);
        ValidConcat(before, joined + t);
        assert ValidPrefix(joined);
      }
    }
  }

  lemma {:induction false} PrefixOfPrefix(a: Bytes, b: Bytes)
    requires ValidPrefix(a + b)
    ensures ValidPrefix(a)
  {
    var t :| Valid(a + b + t);
    assert a + b + t == a + (b + t);
  }

  /** Of the bytes `received`, `raw` has been released and `tail` is held: at most the beginning of one code point. */
  ghost predicate Decoded(received: Bytes, raw: Bytes, tail: Bytes) {
    ValidPrefix(received) ==>
      raw + tail == received && Valid(raw) && Held(tail) && (Valid(received) ==> tail == [])
  }

  method TakeNext(tail: Bytes, piece: Bytes, ghost raw: Bytes, ghost received: Bytes) returns (whole: Bytes, tail': Bytes)
    requires Decoded(received, raw, tail)
    ensures Decoded(received + piece, raw + whole, tail') && whole + tail' == tail + piece
    ensures ValidPrefix(received + piece) ==> Valid(whole)
  {
    hide Valid, Held;
    whole, tail' := Take(tail, piece, raw);
    if ValidPrefix(received + piece) {
      PrefixOfPrefix(received, piece);
      assert raw + whole + tail' == raw + (whole + tail') == raw + (tail + piece) == received + piece;
    }
  }

  lemma {:induction false} PrefixOfAll(pieces: seq<Bytes>, j: nat)
    requires Valid(Flatten(pieces)) && j <= |pieces|
    ensures ValidPrefix(Flatten(pieces[..j]))
  {
    FlattenConcat(pieces[..j], pieces[j..]);
    assert pieces[..j] + pieces[j..] == pieces;
  }

  /**
   The pieces of a stream, one after another: whatever the cuts, each released piece is valid, the
   released pieces and the held tail are the input so far, and nothing is held at the end.
   */
  method Reassemble(pieces: seq<Bytes>) returns (released: seq<Bytes>, tail: Bytes)
    requires Valid(Flatten(pieces))
    ensures |released| == |pieces| && tail == [] && Flatten(released) == Flatten(pieces)
    ensures forall j :: 0 <= j < |released| ==> Valid(released[j])
  {
    released, tail := [], [];
    for j := 0 to |pieces|
      invariant |released| == j && Decoded(Flatten(pieces[..j]), Flatten(released), tail)
      invariant forall k :: 0 <= k < j ==> Valid(released[k])
    {
      PrefixOfAll(pieces, j + 1);
      assert pieces[..j + 1][..j] == pieces[..j];
      var whole;
      whole, tail := TakeNext(tail, pieces[j], Flatten(released), Flatten(pieces[..j]));
      released := released + [whole];
      assert released[..j] == released[..|released| - 1];
    }
    PrefixOfAll(pieces, |pieces|);
    assert pieces[..|pieces|] == pieces;
  }

  function Flatten(pieces: seq<Bytes>): Bytes {
    if pieces == [] then [] else Flatten(pieces[..|pieces| - 1]) + pieces[|pieces| - 1]
  }

  lemma {:induction false} FlattenConcat(a: seq<Bytes>, b: seq<Bytes>)
    ensures Flatten(a + b) == Flatten(a) + Flatten(b)
  {
    if b == [] {
      assert a + b == a;
    } else {
      FlattenConcat(a, b[..|b| - 1]);
      assert (a + b)[..|a + b| - 1] == a + b[..|b| - 1];
    }
  }

  lemma {:induction false} ValidIsPrefix(s: Bytes)
    requires Valid(s)
    ensures ValidPrefix(s)
  {
    assert s + [] == s;
  }

  // ── The whole characters of a cut text ──

  /** How many bytes of `s` are whole code points before the first that is not. */
  function CharactersLength(s: Bytes): (n: nat)
    ensures n <= |s|
  {
    if s == [] then 0 else
    var n := SeqLen(s[0]);
    if 0 < n <= |s| && CodePoint(s[..n]) then n + CharactersLength(s[n..]) else 0
  }

  /** The whole characters at the front of `s`. */
  function Characters(s: Bytes): Bytes {
    s[..CharactersLength(s)]
  }

  lemma {:induction false} CharactersAppend(raw: Bytes, tail: Bytes)
    requires Valid(raw)
    ensures CharactersLength(raw + tail) == |raw| + CharactersLength(tail)
  {
    hide CodePoint, SeqLen;
    if raw == [] {
      assert raw + tail == tail;
    } else {
      var n, s := SeqLen(raw[0]), raw + tail;
      CharactersAppend(raw[n..], tail);
      assert s[0] == raw[0] && s[..n] == raw[..n] && s[n..] == raw[n..] + tail;
    }
  }

  /** What is released and held of a text is its whole characters and the rest. */
  lemma {:induction false} CharactersAre(raw: Bytes, tail: Bytes)
    requires Valid(raw) && Held(tail)
    ensures Characters(raw + tail) == raw && (tail == [] <==> Valid(raw + tail))
  {
    CharactersAppend(raw, tail);
    ValidConcat(raw, tail);
    if tail != [] {
      var t :| t != [] && CodePoint(tail + t);
      assert (tail + t)[0] == tail[0];
    }
  }

  lemma {:induction false} ValidIsCharacters(s: Bytes)
    requires Valid(s)
    ensures Characters(s) == s
  {
    CharactersAre(s, []);
    assert s + [] == s;
  }

  /** After the lead byte a code point has continuation bytes only. */
  lemma InsideIsTail(s: Bytes, i: nat)
    requires Valid(s) && s != [] && 0 < i < SeqLen(s[0])
    ensures i < |s| && Tail(s[i])
  {
    assert s[..SeqLen(s[0])][i] == s[i];
  }

  lemma PartialIsShort(s: Bytes)
    requires Partial(s)
    ensures |s| < SeqLen(s[0])
  {
    var t :| t != [] && CodePoint(s + t);
    assert (s + t)[0] == s[0];
  }

  /** Characters begin and end where the characters of a text do. */
  lemma {:induction false} Synchronised(q: Bytes, p: Bytes, k: nat)
    requires Valid(q) && Valid(p) && p != [] && k + |p| <= |q| && q[k..k + |p|] == p
    ensures Valid(q[..k]) && Valid(q[..k + |p|])
  {
    hide CodePoint, Partial;
    var j := CutPrefix(q, k);
    var rest := q[j..];
    assert q[..j] + rest == q && q[k] == q[k..k + |p|][0] == p[0];
    ValidConcat(q[..j], rest);
    MasksAreRanges(p[0]);
    if j < k {
      assert q[j..k][0] == rest[0] && rest[k - j] == p[0];
      PartialIsShort(q[j..k]);
      InsideIsTail(rest, k - j);
    }
    assert q[..k] + p == q[..k + |p|];
    ValidConcat(q[..k], p);
  }
}
