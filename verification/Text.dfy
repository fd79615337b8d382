/**
 Substring replacement: the leftmost non-overlapping substitution, and the two-pass
 routine that counts the occurrences, allocates the result and fills it.
 */
module Text {

  predicate StartsWith(s: string, w: string) {
    |w| <= |s| && s[..|w|] == w
  }

  /** Every leftmost occurrence of `w` replaced, without looking again at what was put in. */
  function ReplaceAll(s: string, w: string, repl: string): string
    requires w != ""
  {
    if s == "" then ""
    else if StartsWith(s, w) then repl + ReplaceAll(s[|w|..], w, repl)
    else [s[0]] + ReplaceAll(s[1..], w, repl)
  }

  /** How many occurrences are replaced. */
  function Occurrences(s: string, w: string): nat
    requires w != ""
  {
    if s == "" then 0
    else if StartsWith(s, w) then 1 + Occurrences(s[|w|..], w)
    else Occurrences(s[1..], w)
  }

  lemma OneMore(k: nat, d: int)
    ensures (1 + k) * d == d + k * d
  {
  }

  lemma {:induction false} ReplacedLength(s: string, w: string, repl: string)
    requires w != ""
    ensures |ReplaceAll(s, w, repl)| == |s| + Occurrences(s, w) * (|repl| - |w|)
    ensures Occurrences(s, w) * |w| <= |s|
  {
    if s == "" {
    } else if StartsWith(s, w) {
      ReplacedLength(s[|w|..], w, repl);
      OneMore(Occurrences(s[|w|..], w), |repl| - |w|);
      OneMore(Occurrences(s[|w|..], w), |w|);
    } else {
      ReplacedLength(s[1..], w, repl);
    }
  }

  lemma {:induction false} AbsentUnchanged(s: string, w: string, repl: string)
    requires w != ""
    requires forall i | 0 <= i < |s| :: !StartsWith(s[i..], w)
    ensures ReplaceAll(s, w, repl) == s
  {
    if s != "" {
      assert !StartsWith(s[0..], w) && s[0..] == s;
      forall i | 0 <= i < |s[1..]| ensures !StartsWith(s[1..][i..], w) { assert s[1..][i..] == s[i + 1..]; }
      AbsentUnchanged(s[1..], w, repl);
    }
  }

  /** The size of a `size_t` and of a positive `int`. */
  const SIZE_T := 0x1_0000_0000_0000_0000
  const INT_MAX := 0x7fff_ffff

  /**
   The allocation size as the C code computes it, in `size_t`: when the replacement is
   shorter the difference of the lengths wraps around, and the product wraps it back.
   */
  function AllocSize(len: nat, count: nat, newLen: nat, oldLen: nat): nat {
    (len + count * ((newLen - oldLen) % SIZE_T) + 1) % SIZE_T
  }

  lemma MulMod(a: nat, b: int, m: nat)
    requires m > 0
    ensures (a * (b % m)) % m == (a * b) % m
  {
    var q := b / m;
    assert b == q * m + b % m;
    assert a * b == (a * q) * m + a * (b % m) by {
      assert a * (q * m) == (a * q) * m;
      assert a * (q * m + b % m) == a * (q * m) + a * (b % m);
    }
    AddMultiple(a * (b % m), a * q, m);
  }

  lemma AddMultiple(x: int, k: int, m: nat)
    requires m > 0
    ensures (k * m + x) % m == x % m
  {
    var q, r := x / m, x % m;
    assert x == q * m + r;
    assert k * m + x == (k + q) * m + r by { assert (k + q) * m == k * m + q * m; }
    UniqueRemainder(k * m + x, k + q, r, m);
  }

  lemma MultipleIsLarge(d: int, m: int)
    requires m > 0 && d != 0
    ensures d * m >= m || d * m <= -m
  {
    if d >= 1 {
      assert d * m == m + (d - 1) * m;
    } else {
      assert d * m == -m - (-d - 1) * m;
    }
  }

  lemma UniqueRemainder(y: int, k: int, r: int, m: nat)
    requires m > 0 && y == k * m + r && 0 <= r < m
    ensures y % m == r
  {
    var d := y / m - k;
    assert y == (y / m) * m + y % m;
    assert (y / m - k) * m == (y / m) * m - k * m;
    assert d * m == r - y % m;
    if d != 0 { MultipleIsLarge(d, m); }
  }

  /** The wrapped computation gives the true size. */
  lemma AllocSizeIsExact(len: nat, count: nat, newLen: nat, oldLen: nat)
    requires 0 <= len + count * (newLen - oldLen) < SIZE_T - 1
    ensures AllocSize(len, count, newLen, oldLen) == len + count * (newLen - oldLen) + 1
  {
    var d := newLen - oldLen;
    MulMod(count, d, SIZE_T);
    var x, y := count * (d % SIZE_T), count * d;
    assert x == (x / SIZE_T - y / SIZE_T) * SIZE_T + y;
    AddMultiple(y + len + 1, x / SIZE_T - y / SIZE_T, SIZE_T);
  }

  /** One turn of the copying loop, at offset `p`. */
  lemma ReplaceStep(s: string, p: nat, w: string, repl: string)
    requires w != "" && p < |s|
    ensures StartsWith(s[p..], w) ==>
              p + |w| <= |s| && ReplaceAll(s[p..], w, repl) == repl + ReplaceAll(s[p + |w|..], w, repl)
    ensures !StartsWith(s[p..], w) ==> ReplaceAll(s[p..], w, repl) == [s[p]] + ReplaceAll(s[p + 1..], w, repl)
  {
    if StartsWith(s[p..], w) {
      assert s[p..][|w|..] == s[p + |w|..];
    } else {
      assert s[p..][1..] == s[p + 1..];
    }
  }

  /** What is written and what is still to come make up the result, and fit with the terminator. */
  ghost predicate Filling(written: string, tail: string, full: string, size: nat) {
    written + tail == full && |full| + 1 == size
  }

  lemma FillingStep(written: string, piece: string, tail: string, full: string, size: nat)
    requires Filling(written, piece + tail, full, size)
    ensures Filling(written + piece, tail, full, size) && |written| + |piece| < size
  {
    assert written + (piece + tail) == (written + piece) + tail;
    assert |full| == |written| + |piece| + |tail|;
  }

  lemma Finished(written: string, full: string, size: nat)
    requires Filling(written, "", full, size)
    ensures written == full && |written| + 1 == size
  {
    assert written + "" == written;
  }

  /** Counts the occurrences in `s` as the first pass does; also returns the length it has seen. */
  method CountOccurrences(s: string, w: string) returns (count: nat, len: nat)
    requires w != ""
    ensures count == Occurrences(s, w) && len == |s|
  {
    var i := 0;
    count := 0;
    while i < |s|
      invariant 0 <= i <= |s|
      invariant Occurrences(s, w) == count + Occurrences(s[i..], w)
    {
      if StartsWith(s[i..], w) {
        assert s[i..][|w|..] == s[i + |w|..];
        count := count + 1;
        i := i + |w| - 1;
      } else {
        assert s[i..][1..] == s[i + 1..];
      }
      i := i + 1;
    }
    len := i;
  }

  /** The buffer has room for exactly the result and its terminator. */
  method AllocateFor(s: string, w: string, repl: string, count: nat, len: nat) returns (buf: array<char>)
    requires w != "" && |s| <= INT_MAX && |s| * (|repl| + 1) < SIZE_T - 1
    requires count == Occurrences(s, w) && len == |s|
    ensures fresh(buf) && buf.Length == |ReplaceAll(s, w, repl)| + 1
  {
    ReplacedLength(s, w, repl);
    SizeInRange(len, count, |repl|, |w|);
    AllocSizeIsExact(len, count, |repl|, |w|);
    buf := new char[AllocSize(len, count, |repl|, |w|)];
  }

  /** Replaces every occurrence of `w`; the buffer has exactly the size the second pass fills. */
  method Replace(s: string, w: string, repl: string) returns (ret: string)
    requires w != "" && |s| <= INT_MAX && |s| * (|repl| + 1) < SIZE_T - 1
    ensures ret == ReplaceAll(s, w, repl)
  {
    var count, len := CountOccurrences(s, w);
    var buf := AllocateFor(s, w, repl, count, len);
    var i, p := 0, 0;
    ghost var full := ReplaceAll(s, w, repl);
    assert buf[..0] + full == full && s[0..] == s;
    while p < |s|
      invariant 0 <= p <= |s| && 0 <= i < buf.Length
      invariant Filling(buf[..i], ReplaceAll(s[p..], w, repl), full, buf.Length)
    {
      ReplaceStep(s, p, w, repl);
      if StartsWith(s[p..], w) {
        FillingStep(buf[..i], repl, ReplaceAll(s[p + |w|..], w, repl), full, buf.Length);
        CopyInto(buf, i, repl);
        i := i + |repl|;
        p := p + |w|;
      } else {
        FillingStep(buf[..i], [s[p]], ReplaceAll(s[p + 1..], w, repl), full, buf.Length);
        ghost var written := buf[..i];
        buf[i] := s[p];
        assert buf[..i + 1] == written + [s[p]];
        i := i + 1;
        p := p + 1;
      }
    }
    Finished(buf[..i], full, buf.Length);
    buf[i] := 0 as char;
    ret := buf[..i];
  }

  lemma SizeInRange(len: nat, count: nat, newLen: nat, oldLen: nat)
    requires oldLen >= 1 && count * oldLen <= len && len * (newLen + 1) < SIZE_T - 1
    ensures 0 <= len + count * (newLen - oldLen) < SIZE_T - 1
  {
    assert count <= len by { assert count * oldLen >= count * 1; }
    assert count * (newLen - oldLen) == count * newLen - count * oldLen;
    assert count * newLen <= len * newLen;
    assert len * (newLen + 1) == len * newLen + len;
    assert count * newLen >= 0;
  }

  /** `strcpy` without the terminator. */
  method CopyInto(buf: array<char>, at: nat, w: string)
    requires at + |w| <= buf.Length
    modifies buf
    ensures buf[..at + |w|] == old(buf[..at]) + w
  {
    forall k | 0 <= k < |w| {
      buf[at + k] := w[k];
    }
  }

  /** Removes every occurrence of `w`. */
  method Remove(s: string, w: string) returns (ret: string)
    requires w != "" && |s| <= INT_MAX
    ensures ret == ReplaceAll(s, w, "")
  {
    var count, len := CountOccurrences(s, w);
    ReplacedLength(s, w, "");
    var buf := new char[len - count * |w| + 1];
    var i, p := 0, 0;
    ghost var full := ReplaceAll(s, w, "");
    assert buf[..0] + full == full && s[0..] == s;
    while p < |s|
      invariant 0 <= p <= |s| && 0 <= i < buf.Length
      invariant Filling(buf[..i], ReplaceAll(s[p..], w, ""), full, buf.Length)
    {
      ReplaceStep(s, p, w, "");
      if StartsWith(s[p..], w) {
        FillingStep(buf[..i], "", ReplaceAll(s[p + |w|..], w, ""), full, buf.Length);
        assert buf[..i] + "" == buf[..i];
        p := p + |w|;
      } else {
        FillingStep(buf[..i], [s[p]], ReplaceAll(s[p + 1..], w, ""), full, buf.Length);
        ghost var written := buf[..i];
        buf[i] := s[p];
        assert buf[..i + 1] == written + [s[p]];
        i := i + 1;
        p := p + 1;
      }
    }
    Finished(buf[..i], full, buf.Length);
    buf[i] := 0 as char;
    ret := buf[..i];
  }
}
