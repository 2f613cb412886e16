/** Byte-level vocabulary shared by every decode pass: the byte swap that
    turns a big-endian field into host (little-endian) order, and the
    little-endian integer reads and writes the passes perform on a buffer.

    The library takes both primitives from headers that are not part of this
    model (`datas/endian.hpp`); here a swap of a `w`-byte field is the
    reversal of those `w` bytes, and a structure swap is a run of such field
    swaps over consecutive words. */
module Bytes {

  type byte = bv8

  /** 256 to the power `n`: one more than the largest `n`-byte unsigned value. */
  function Pow256(n: nat): (r: nat)
    ensures r >= 1
  {
    if n == 0 then 1 else 256 * Pow256(n - 1)
  }

  /** The bytes of `s` in the opposite order. */
  function Reverse(s: seq<byte>): (r: seq<byte>)
    ensures |r| == |s|
  {
    if s == [] then [] else Reverse(s[1..]) + [s[0]]
  }

  /** Position `k` of the reversal holds position `|s| - 1 - k` of the input. */
  lemma {:induction false} ReverseAt(s: seq<byte>, k: nat)
    requires k < |s|
    ensures Reverse(s)[k] == s[|s| - 1 - k]
  {
    if k < |s| - 1 {
      ReverseAt(s[1..], k);
    }
  }

  /** Swapping twice restores the original bytes. */
  lemma ReverseInvolutive(s: seq<byte>)
    ensures Reverse(Reverse(s)) == s
  {
    forall k | 0 <= k < |s|
      ensures Reverse(Reverse(s))[k] == s[k]
    {
      ReverseAt(Reverse(s), k);
      ReverseAt(s, |s| - 1 - k);
    }
  }

  /** The byte swap of the `w`-byte field at `p`. */
  function SwapAt(s: seq<byte>, p: nat, w: nat): (r: seq<byte>)
    requires p + w <= |s|
    ensures |r| == |s|
  {
    s[..p] + Reverse(s[p..p + w]) + s[p + w..]
  }

  /** A field swap reverses the field and leaves every other byte alone. */
  lemma SwapAtBytes(s: seq<byte>, p: nat, w: nat)
    requires p + w <= |s|
    ensures SwapAt(s, p, w)[p..p + w] == Reverse(s[p..p + w])
    ensures SwapAt(s, p, w)[..p] == s[..p]
    ensures SwapAt(s, p, w)[p + w..] == s[p + w..]
    ensures forall i :: 0 <= i < |s| && !(p <= i < p + w) ==> SwapAt(s, p, w)[i] == s[i]
  {
    var r := SwapAt(s, p, w);
    assert r[..p] == s[..p];
    assert r[p..p + w] == Reverse(s[p..p + w]);
    assert r[p + w..] == s[p + w..];
  }

  /** Swapping the same field twice restores the buffer. */
  lemma SwapAtInvolutive(s: seq<byte>, p: nat, w: nat)
    requires p + w <= |s|
    ensures SwapAt(SwapAt(s, p, w), p, w) == s
  {
    var r := SwapAt(s, p, w);
    SwapAtBytes(s, p, w);
    ReverseInvolutive(s[p..p + w]);
    assert s == s[..p] + s[p..p + w] + s[p + w..];
  }

  /** Each consecutive `w`-byte word of `seg` reversed in place: the swap of a
      structure made of `w`-byte fields. A trailing piece shorter than `w` is
      left as it is. */
  function SwapWords(seg: seq<byte>, w: nat): (r: seq<byte>)
    requires w > 0
    ensures |r| == |seg|
    decreases |seg|
  {
    if |seg| < w then seg else Reverse(seg[..w]) + SwapWords(seg[w..], w)
  }

  /** Swapping the words of a structure twice restores it. */
  lemma {:induction false} SwapWordsInvolutive(seg: seq<byte>, w: nat)
    requires w > 0
    ensures SwapWords(SwapWords(seg, w), w) == seg
    decreases |seg|
  {
    if |seg| >= w {
      var r := SwapWords(seg, w);
      assert r[..w] == Reverse(seg[..w]);
      assert r[w..] == SwapWords(seg[w..], w);
      SwapWordsInvolutive(seg[w..], w);
      ReverseInvolutive(seg[..w]);
      assert seg == seg[..w] + seg[w..];
    }
  }

  /** Swapping a structure word by word: the swaps of the first `k` words
      followed by the swaps of the rest. */
  lemma {:induction false} SwapWordsAppend(x: seq<byte>, y: seq<byte>, w: nat, k: nat)
    requires w > 0 && |x| == k * w
    ensures SwapWords(x + y, w) == SwapWords(x, w) + SwapWords(y, w)
    decreases k
  {
    if k > 0 {
      MulPred(k, w);
      assert |x[w..]| == (k - 1) * w;
      assert (x + y)[..w] == x[..w];
      assert (x + y)[w..] == x[w..] + y;
      SwapWordsAppend(x[w..], y, w, k - 1);
    } else {
      assert x == [];
      assert x + y == y;
    }
  }

  lemma MulPred(k: nat, w: nat)
    requires k > 0
    ensures (k - 1) * w == k * w - w && k * w >= w
  {
  }

  /** The swap of `n` consecutive `w`-byte words starting at `p`. */
  function SwapRun(s: seq<byte>, p: nat, n: nat, w: nat): (r: seq<byte>)
    requires w > 0 && p + n * w <= |s|
    ensures |r| == |s|
  {
    s[..p] + SwapWords(s[p..p + n * w], w) + s[p + n * w..]
  }

  /** One more field swap extends a run of swaps by one word. */
  lemma SwapRunStep(s: seq<byte>, before: seq<byte>, p: nat, q: nat, w: nat, i: nat)
    requires w > 0 && p <= q && q + w <= |s| && q - p == i * w
    requires before == s[..p] + SwapWords(s[p..q], w) + s[q..]
    ensures SwapAt(before, q, w) == s[..p] + SwapWords(s[p..q + w], w) + s[q + w..]
  {
    var head, done, field, tail := s[..p], SwapWords(s[p..q], w), s[q..q + w], s[q + w..];
    assert s[q..] == field + tail;
    assert before == (head + done) + field + tail;
    SwapAtMiddle(head + done, field, tail);
    SwapWordsStep(s[p..q], field, w, i);
    assert s[p..q + w] == s[p..q] + field;
  }

  /** A field swap of the bytes between `x` and `y` reverses them. */
  lemma SwapAtMiddle(x: seq<byte>, field: seq<byte>, y: seq<byte>)
    ensures SwapAt(x + field + y, |x|, |field|) == x + Reverse(field) + y
  {
    var s := x + field + y;
    assert s[..|x|] == x;
    assert s[|x|..|x| + |field|] == field;
    assert s[|x| + |field|..] == y;
  }

  /** Swapping the words of a run one word longer swaps that last word. */
  lemma SwapWordsStep(done: seq<byte>, field: seq<byte>, w: nat, i: nat)
    requires w > 0 && |done| == i * w && |field| == w
    ensures SwapWords(done + field, w) == SwapWords(done, w) + Reverse(field)
  {
    SwapWordsAppend(done, field, w, i);
    assert field[w..] == [];
    assert field[..w] == field;
  }

  /** Swapping a run of words twice restores the buffer. */
  lemma SwapRunInvolutive(s: seq<byte>, p: nat, n: nat, w: nat)
    requires w > 0 && p + n * w <= |s|
    ensures SwapRun(SwapRun(s, p, n, w), p, n, w) == s
  {
    var e := p + n * w;
    var mid := SwapWords(s[p..e], w);
    var r := s[..p] + mid + s[e..];
    assert SwapRun(s, p, n, w) == r;
    assert r[..p] == s[..p] && r[p..e] == mid && r[e..] == s[e..];
    SwapWordsInvolutive(s[p..e], w);
    assert SwapRun(r, p, n, w) == s[..p] + s[p..e] + s[e..];
    assert s == s[..p] + s[p..e] + s[e..];
  }

  /** A run of word swaps changes nothing outside `[p, p + n * w)`. */
  lemma SwapRunFrame(s: seq<byte>, p: nat, n: nat, w: nat)
    requires w > 0 && p + n * w <= |s|
    ensures forall i :: 0 <= i < |s| && !(p <= i < p + n * w) ==> SwapRun(s, p, n, w)[i] == s[i]
  {
    var e := p + n * w;
    var head, mid := s[..p], SwapWords(s[p..e], w);
    assert SwapRun(s, p, n, w) == (head + mid) + s[e..];
    assert |head + mid| == e;
  }

  /** The unsigned little-endian value of `s`. */
  function ReadLE(s: seq<byte>): (v: nat)
    ensures v < Pow256(|s|)
  {
    if s == [] then 0 else s[0] as nat + 256 * ReadLE(s[1..])
  }

  /** The unsigned big-endian value of `s`. */
  function ReadBE(s: seq<byte>): (v: nat)
    ensures v < Pow256(|s|)
  {
    ReadLE(Reverse(s))
  }

  /** The `n` little-endian bytes of `v` modulo 256^n. */
  function WriteLE(v: nat, n: nat): (r: seq<byte>)
    ensures |r| == n
  {
    if n == 0 then [] else [ByteOf(v % 256)] + WriteLE(v / 256, n - 1)
  }

  /** Writing a value that fits and reading it back gives the value. */
  lemma {:induction false} ReadWriteLE(v: nat, n: nat)
    requires v < Pow256(n)
    ensures ReadLE(WriteLE(v, n)) == v
  {
    if n > 0 {
      var t := WriteLE(v, n);
      var q, m := v / 256, v % 256;
      assert v == 256 * q + m;
      assert q < Pow256(n - 1) by {
        assert Pow256(n) == 256 * Pow256(n - 1);
      }
      assert t[1..] == WriteLE(q, n - 1);
      ReadWriteLE(q, n - 1);
      assert t[0] as nat == m;
    }
  }

  /** Writing back the value read from `s` gives `s`. */
  lemma {:induction false} WriteReadLE(s: seq<byte>)
    ensures WriteLE(ReadLE(s), |s|) == s
  {
    if s != [] {
      var v, q, m := ReadLE(s), ReadLE(s[1..]), s[0] as nat;
      assert v == m + 256 * q;
      DivUnique256(v, q, m);
      WriteReadLE(s[1..]);
      assert WriteLE(v, |s|) == [ByteOf(m)] + WriteLE(q, |s| - 1);
      SameValue(ByteOf(m), s[0]);
      assert WriteLE(v, |s|) == [s[0]] + s[1..];
      assert s == [s[0]] + s[1..];
    }
  }

  /** Two bytes with the same unsigned value are the same byte. */
  lemma SameValue(a: byte, b: byte)
    requires a as int == b as int
    ensures a == b
  {
  }

  lemma DivUnique256(v: nat, q: nat, m: nat)
    requires m < 256 && v == m + 256 * q
    ensures v % 256 == m && v / 256 == q
  {
  }

  /** Each value as four little-endian bytes, one after the other: a
      structure of 32-bit fields as it is stored. */
  function WriteWords(vs: seq<nat>): (e: seq<byte>)
    ensures |e| == 4 * |vs|
  {
    if vs == [] then [] else WriteLE(vs[0], 4) + WriteWords(vs[1..])
  }

  /** Value `i` sits at bytes `4 * i` to `4 * i + 4`. */
  lemma {:induction false} WriteWordsAt(vs: seq<nat>, i: nat)
    requires i < |vs|
    ensures WriteWords(vs)[4 * i..4 * i + 4] == WriteLE(vs[i], 4)
  {
    if i > 0 {
      WriteWordsAt(vs[1..], i - 1);
      assert WriteWords(vs)[4 * i..4 * i + 4] == WriteWords(vs[1..])[4 * (i - 1)..4 * (i - 1) + 4];
    }
  }

  /** Four bytes written at `4 * i` of the structure `e`, which follows
      `prefix`, read back as `v`. */
  lemma WordRead(prefix: seq<byte>, e: seq<byte>, i: nat, v: nat)
    requires 4 * i + 4 <= |e| && v < Pow256(4)
    requires e[4 * i..4 * i + 4] == WriteLE(v, 4)
    ensures U(prefix + e, |prefix| + 4 * i, 4) == v
  {
    assert (prefix + e)[|prefix| + 4 * i..|prefix| + 4 * i + 4] == e[4 * i..4 * i + 4];
    ReadWriteLE(v, 4);
  }

  /** The byte whose unsigned value is `m`, counted up from zero. */
  function ByteOf(m: nat): (b: byte)
    requires m < 256
    ensures b as int == m
  {
    if m == 0 then 0 else Succ(ByteOf(m - 1))
  }

  function Succ(b: byte): (c: byte)
    requires b as int < 255
    ensures c as int == b as int + 1
  {
    b + 1
  }

  /** Unsigned little-endian `w`-byte field at `p`. */
  function U(s: seq<byte>, p: nat, w: nat): nat
    requires p + w <= |s|
  {
    ReadLE(s[p..p + w])
  }

  /** The two's-complement reading of the `w`-byte unsigned value `v`. */
  function Signed(v: nat, w: nat): (r: int)
    requires w > 0 && v < Pow256(w)
    ensures 0 <= 2 * r + Pow256(w) && 2 * r < Pow256(w)
    ensures r == v || r == v - Pow256(w)
  {
    if 2 * v >= Pow256(w) then v - Pow256(w) else v
  }

  /** Signed little-endian `w`-byte field at `p`. */
  function I(s: seq<byte>, p: nat, w: nat): int
    requires w > 0 && p + w <= |s|
  {
    Signed(U(s, p, w), w)
  }

  /** After swapping a field, its little-endian reading is the big-endian
      reading of the bytes that were there: what the swap is for. */
  lemma ReadAfterSwap(s: seq<byte>, p: nat, w: nat)
    requires p + w <= |s|
    ensures U(SwapAt(s, p, w), p, w) == ReadBE(s[p..p + w])
  {
    SwapAtBytes(s, p, w);
  }

  /** `s` with the `n` bytes at `p` replaced by the little-endian `v`. */
  function Put(s: seq<byte>, p: nat, n: nat, v: nat): (r: seq<byte>)
    requires p + n <= |s|
    ensures |r| == |s|
  {
    s[..p] + WriteLE(v, n) + s[p + n..]
  }

  /** A write is read back (when it fits) and touches nothing else. */
  lemma PutRead(s: seq<byte>, p: nat, n: nat, v: nat)
    requires p + n <= |s| && v < Pow256(n)
    ensures U(Put(s, p, n, v), p, n) == v
    ensures forall i :: 0 <= i < |s| && !(p <= i < p + n) ==> Put(s, p, n, v)[i] == s[i]
  {
    var r := Put(s, p, n, v);
    assert r[p..p + n] == WriteLE(v, n);
    ReadWriteLE(v, n);
  }

  /** The four bytes of a FourCC code, in the order they are stored. */
  function FourCC(a: char, b: char, c: char, d: char): (r: seq<byte>)
    requires a as int < 256 && b as int < 256 && c as int < 256 && d as int < 256
    ensures |r| == 4
  {
    [a as int as byte, b as int as byte, c as int as byte, d as int as byte]
  }
}
