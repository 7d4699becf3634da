/** Strings as the C++ library handles them: substring search, where -1 stands for npos, and trimming. */
module Text {
  datatype Option<+T> = None | Some(value: T)

  /** `p` occurs in `s` at index `i`. */
  predicate At<T(==)>(s: seq<T>, p: seq<T>, i: int) {
    0 <= i && i + |p| <= |s| && s[i..i + |p|] == p
  }

  /** First occurrence of `p` in `s` at or after `from`. */
  function Find<T(==)>(s: seq<T>, p: seq<T>, from: nat): (r: int)
    ensures r == -1 || (from <= r && At(s, p, r))
    ensures forall i :: from <= i && At(s, p, i) ==> 0 <= r <= i
    decreases |s| - from
  {
    if from + |p| > |s| then -1
    else if s[from..from + |p|] == p then from
    else Find(s, p, from + 1)
  }

  /** An occurrence in a prefix is an occurrence in the whole, and conversely while it fits. */
  lemma AtAppend<T>(s: seq<T>, t: seq<T>, p: seq<T>, i: int)
    requires i + |p| <= |s|
    ensures At(s, p, i) <==> At(s + t, p, i)
  {
    if 0 <= i {
      assert (s + t)[i..i + |p|] == s[i..i + |p|];
    }
  }

  /** Dropping the first `k` elements shifts every occurrence at or after `k` down by `k`. */
  lemma AtDrop<T>(s: seq<T>, p: seq<T>, k: nat, i: int)
    requires k <= |s| && k <= i
    ensures At(s, p, i) <==> At(s[k..], p, i - k)
  {
    if i + |p| <= |s| {
      assert s[i..i + |p|] == s[k..][i - k..i - k + |p|];
    }
  }

  // ── Trimming ──

  predicate All<T>(s: seq<T>, p: T -> bool) {
    forall i :: 0 <= i < |s| ==> p(s[i])
  }

  function TrimLeft<T>(s: seq<T>, p: T -> bool): (r: seq<T>)
    ensures |r| <= |s|
  {
    if s != [] && p(s[0]) then TrimLeft(s[1..], p) else s
  }

  function TrimRight<T>(s: seq<T>, p: T -> bool): (r: seq<T>)
    ensures |r| <= |s|
  {
    if s != [] && p(s[|s| - 1]) then TrimRight(s[..|s| - 1], p) else s
  }

  function Trim<T>(s: seq<T>, p: T -> bool): seq<T> {
    TrimRight(TrimLeft(s, p), p)
  }

  lemma {:induction false} LeftTrimmed<T>(s: seq<T>, p: T -> bool) returns (a: nat)
    ensures a <= |s| && TrimLeft(s, p) == s[a..] && All(s[..a], p) && (a < |s| ==> !p(s[a]))
  {
    a := 0;
    if s != [] && p(s[0]) {
      var b := LeftTrimmed(s[1..], p);
      a := b + 1;
      assert s[..a] == [s[0]] + s[1..][..b];
    }
  }

  lemma {:induction false} RightTrimmed<T>(s: seq<T>, p: T -> bool) returns (b: nat)
    ensures b <= |s| && TrimRight(s, p) == s[..b] && All(s[b..], p) && (b > 0 ==> !p(s[b - 1]))
  {
    b := |s|;
    if s != [] && p(s[|s| - 1]) {
      var front := s[..|s| - 1];
      b := RightTrimmed(front, p);
      assert front[..b] == s[..b] && s[b..] == front[b..] + [s[|s| - 1]];
    }
  }

  /** Trimming takes what is to go from both ends, all of it, and leaves the rest as it is. */
  lemma {:induction false} TrimIs<T>(s: seq<T>, p: T -> bool) returns (a: nat, b: nat)
    ensures a <= b <= |s| && Trim(s, p) == s[a..b] && All(s[..a], p) && All(s[b..], p)
    ensures a < b ==> !p(s[a]) && !p(s[b - 1])
  {
    a := LeftTrimmed(s, p);
    b := RightTrimmed(s[a..], p);
    assert s[a..][..b] == s[a..a + b] && s[a..][b..] == s[a + b..];
    b := a + b;
  }

  lemma {:induction false} AllTrimmed<T>(s: seq<T>, p: T -> bool)
    requires All(s, p)
    ensures Trim(s, p) == []
  {
    if s != [] {
      AllTrimmed(s[1..], p);
    }
  }
}
