/** The rolling two-key XOR cipher of BDAT tables (`HeaderImpl::DecryptSection`
    and `EncryptSection`). Two 8-bit keys start as the complements of the
    header's `encKeys`; byte `i` of a section is XORed with key `i mod 2`,
    and that key then advances, modulo 256, by the byte's ciphertext value. */
module BdatCipher {
  import opened Bytes

  /** Offset of `encKeys[0]` in a BDAT header; `encKeys[1]` follows it. */
  const EncKeysOffset: nat := 22

  /** Byte XOR and byte addition modulo 256, the two operations of the
      cipher. */
  function Xor(a: byte, b: byte): byte { a ^ b }
  function Add(a: byte, b: byte): byte { a + b }
  function Not(a: byte): byte { !a }

  lemma XorBack(a: byte, b: byte)
    ensures Xor(Xor(a, b), b) == a
  {
  }

  /** Decrypts `s` when the next byte uses key `cur` and the byte after it
      uses `next`. */
  function Decrypt(s: seq<byte>, cur: byte, next: byte): (r: seq<byte>)
    ensures |r| == |s|
  {
    if s == [] then [] else [Xor(s[0], cur)] + Decrypt(s[1..], next, Add(cur, s[0]))
  }

  /** Encrypts `s` under the same key schedule: the key advances by the
      ciphertext byte, which is what it produces. */
  function Encrypt(s: seq<byte>, cur: byte, next: byte): (r: seq<byte>)
    ensures |r| == |s|
  {
    if s == [] then [] else
      var c := Xor(s[0], cur);
      [c] + Encrypt(s[1..], next, Add(cur, c))
  }

  /** The first byte of a ciphertext is decrypted with `cur`, and the key
      then advances by that ciphertext byte. */
  lemma DecryptFirst(c: byte, rest: seq<byte>, cur: byte, next: byte)
    ensures Decrypt([c] + rest, cur, next) == [Xor(c, cur)] + Decrypt(rest, next, Add(cur, c))
  {
    assert ([c] + rest)[0] == c && ([c] + rest)[1..] == rest;
  }

  /** Decrypting what was encrypted with the same keys gives the plaintext. */
  lemma {:induction false} DecryptEncrypt(s: seq<byte>, cur: byte, next: byte)
    ensures Decrypt(Encrypt(s, cur, next), cur, next) == s
  {
    if s != [] {
      var c := Xor(s[0], cur);
      var rest := Encrypt(s[1..], next, Add(cur, c));
      assert Encrypt(s, cur, next) == [c] + rest;
      DecryptFirst(c, rest, cur, next);
      DecryptEncrypt(s[1..], next, Add(cur, c));
      XorBack(s[0], cur);
      assert s == [s[0]] + s[1..];
    }
  }

  /** The first byte of a plaintext is encrypted with `cur`, and the key
      then advances by its ciphertext. */
  lemma EncryptFirst(x: byte, rest: seq<byte>, cur: byte, next: byte)
    ensures Encrypt([x] + rest, cur, next) == [Xor(x, cur)] + Encrypt(rest, next, Add(cur, Xor(x, cur)))
  {
    assert ([x] + rest)[0] == x && ([x] + rest)[1..] == rest;
  }

  /** Encrypting what was decrypted with the same keys gives the ciphertext. */
  lemma {:induction false} EncryptDecrypt(s: seq<byte>, cur: byte, next: byte)
    ensures Encrypt(Decrypt(s, cur, next), cur, next) == s
  {
    if s != [] {
      var x := Xor(s[0], cur);
      var rest := Decrypt(s[1..], next, Add(cur, s[0]));
      assert Decrypt(s, cur, next) == [x] + rest;
      EncryptFirst(x, rest, cur, next);
      XorBack(s[0], cur);
      EncryptDecrypt(s[1..], next, Add(cur, s[0]));
      assert s == [s[0]] + s[1..];
    }
  }

  /** The key byte `i` of a section is combined with: key `i mod 2` started
      at `cur` or `next` and has since been advanced by every earlier byte of
      `s` at a position of the same parity. */
  function KeyAt(s: seq<byte>, cur: byte, next: byte, i: nat): byte
    requires i <= |s| + 1
  {
    if i == 0 then cur
    else if i == 1 then next
    else Add(KeyAt(s, cur, next, i - 2), s[i - 2])
  }

  /** Dropping the first byte moves every position down by one and advances
      the first key by that byte. */
  lemma {:induction false} KeyAtTail(s: seq<byte>, cur: byte, next: byte, i: nat)
    requires 1 <= i <= |s|
    ensures KeyAt(s, cur, next, i) == KeyAt(s[1..], next, Add(cur, s[0]), i - 1)
  {
    if i >= 3 {
      KeyAtTail(s, cur, next, i - 2);
      assert s[1..][i - 3] == s[i - 2];
    }
  }

  lemma DecryptCons(s: seq<byte>, cur: byte, next: byte)
    requires s != []
    ensures Decrypt(s, cur, next)[0] == Xor(s[0], cur)
    ensures Decrypt(s, cur, next)[1..] == Decrypt(s[1..], next, Add(cur, s[0]))
  {
  }

  lemma {:induction false} DecryptAt(s: seq<byte>, cur: byte, next: byte, i: nat)
    requires i < |s|
    ensures Decrypt(s, cur, next)[i] == Xor(s[i], KeyAt(s, cur, next, i))
  {
    DecryptCons(s, cur, next);
    if i > 0 {
      var t := s[1..];
      DecryptAt(t, next, Add(cur, s[0]), i - 1);
      assert Decrypt(s, cur, next)[i] == Decrypt(s, cur, next)[1..][i - 1];
      assert t[i - 1] == s[i];
      KeyAtTail(s, cur, next, i);
    }
  }

  /** The same closed form for encryption, where the key advances by the
      ciphertext it outputs. */
  lemma EncryptAt(s: seq<byte>, cur: byte, next: byte, i: nat)
    requires i < |s|
    ensures var e := Encrypt(s, cur, next);
      e[i] == Xor(s[i], KeyAt(e, cur, next, i))
  {
    var e := Encrypt(s, cur, next);
    DecryptEncrypt(s, cur, next);
    DecryptAt(e, cur, next, i);
    var k := KeyAt(e, cur, next, i);
    assert s[i] == Xor(e[i], k);
    XorBack(e[i], k);
  }

  /** The keys a section is decrypted with: the complements of `encKeys`. */
  function StartKeys(s: seq<byte>, h: nat): (byte, byte)
    requires h + EncKeysOffset + 2 <= |s|
  {
    (Not(s[h + EncKeysOffset]), Not(s[h + EncKeysOffset + 1]))
  }

  /** `[begin, end)` lies in the buffer, or is empty as far as the loop
      `while (begin < end)` is concerned. */
  predicate RangeOk(n: nat, begin: int, end: int) {
    begin >= end || (0 <= begin && end <= n)
  }

  /** The buffer after `DecryptSection(begin, end)` of the header at `h`. */
  function DecryptedSection(s: seq<byte>, h: nat, begin: int, end: int): (r: seq<byte>)
    requires h + EncKeysOffset + 2 <= |s| && RangeOk(|s|, begin, end)
    ensures |r| == |s|
  {
    if begin < end then
      var (k0, k1) := StartKeys(s, h);
      s[..begin] + Decrypt(s[begin..end], k0, k1) + s[end..]
    else s
  }

  /** `encKeys` as `EncryptSection` sets them from the 32-bit random key:
      its low byte and the low byte of its upper half. */
  function LowKey(rndKey: bv32): byte { (rndKey & 0xFF) as byte }
  function HighKey(rndKey: bv32): byte { ((rndKey >> 16) & 0xFF) as byte }

  function WithKeys(s: seq<byte>, h: nat, rndKey: bv32): (r: seq<byte>)
    requires h + EncKeysOffset + 2 <= |s|
    ensures |r| == |s|
  {
    s[h + EncKeysOffset := LowKey(rndKey)][h + EncKeysOffset + 1 := HighKey(rndKey)]
  }

  /** The buffer after `EncryptSection(begin, end)` with random key `rndKey`. */
  function EncryptedSection(s: seq<byte>, h: nat, begin: int, end: int, rndKey: bv32): (r: seq<byte>)
    requires h + EncKeysOffset + 2 <= |s| && RangeOk(|s|, begin, end)
    ensures |r| == |s|
  {
    var t := WithKeys(s, h, rndKey);
    if begin < end then
      var (k0, k1) := StartKeys(t, h);
      t[..begin] + Encrypt(t[begin..end], k0, k1) + t[end..]
    else t
  }

  /** The pieces of a buffer whose range `[begin, end)` was replaced by `x`. */
  lemma Splice(t: seq<byte>, begin: nat, end: nat, x: seq<byte>)
    requires begin <= end <= |t| && |x| == end - begin
    ensures var r := t[..begin] + x + t[end..];
      |r| == |t| && r[..begin] == t[..begin] && r[begin..end] == x && r[end..] == t[end..]
    ensures forall j :: 0 <= j < |t| && !(begin <= j < end) ==> (t[..begin] + x + t[end..])[j] == t[j]
  {
    var r := t[..begin] + x + t[end..];
    assert r[..begin] == t[..begin];
    assert r[begin..end] == x;
    assert r[end..] == t[end..];
  }

  /** A buffer is its three pieces put back together. */
  lemma Whole(t: seq<byte>, begin: nat, end: nat)
    requires begin <= end <= |t|
    ensures t == t[..begin] + t[begin..end] + t[end..]
  {
  }

  /** A section encrypted and then decrypted in place, with the header's keys
      outside the section, is restored; only the keys differ from before. */
  lemma SectionRoundTrip(s: seq<byte>, h: nat, begin: int, end: int, rndKey: bv32)
    requires h + EncKeysOffset + 2 <= |s| && RangeOk(|s|, begin, end)
    requires end <= h + EncKeysOffset || h + EncKeysOffset + 2 <= begin
    ensures DecryptedSection(EncryptedSection(s, h, begin, end, rndKey), h, begin, end) == WithKeys(s, h, rndKey)
  {
    var t := WithKeys(s, h, rndKey);
    if begin < end {
      var (k0, k1) := StartKeys(t, h);
      var x := Encrypt(t[begin..end], k0, k1);
      var e := t[..begin] + x + t[end..];
      assert e == EncryptedSection(s, h, begin, end, rndKey);
      Splice(t, begin, end, x);
      assert e[h + EncKeysOffset] == t[h + EncKeysOffset];
      assert e[h + EncKeysOffset + 1] == t[h + EncKeysOffset + 1];
      assert StartKeys(e, h) == (k0, k1);
      DecryptEncrypt(t[begin..end], k0, k1);
      var d := e[..begin] + Decrypt(e[begin..end], k0, k1) + e[end..];
      assert d == DecryptedSection(e, h, begin, end);
      assert d == t[..begin] + t[begin..end] + t[end..];
      Whole(t, begin, end);
    }
  }

  /** Decryption changes only the bytes in `[begin, end)`; an empty range
      changes nothing. */
  lemma DecryptedSectionFrame(s: seq<byte>, h: nat, begin: int, end: int)
    requires h + EncKeysOffset + 2 <= |s| && RangeOk(|s|, begin, end)
    ensures begin >= end ==> DecryptedSection(s, h, begin, end) == s
    ensures forall i :: 0 <= i < |s| && !(begin <= i < end) ==> DecryptedSection(s, h, begin, end)[i] == s[i]
  {
    if begin < end {
      var (k0, k1) := StartKeys(s, h);
      Splice(s, begin, end, Decrypt(s[begin..end], k0, k1));
    }
  }

  lemma EncryptCons(s: seq<byte>, cur: byte, next: byte)
    requires s != []
    ensures Encrypt(s, cur, next)[0] == Xor(s[0], cur)
    ensures Encrypt(s, cur, next)[1..] == Encrypt(s[1..], next, Add(cur, Xor(s[0], cur)))
  {
  }

  /** The buffer after a section decryption, byte by byte. */
  lemma DecryptedSectionAt(s: seq<byte>, h: nat, begin: nat, end: nat, j: nat)
    requires h + EncKeysOffset + 2 <= |s| && begin < end <= |s| && j < |s|
    ensures DecryptedSection(s, h, begin, end)[j] ==
      if begin <= j < end then Decrypt(s[begin..end], Not(s[h + EncKeysOffset]), Not(s[h + EncKeysOffset + 1]))[j - begin]
      else s[j]
  {
    var (k0, k1) := StartKeys(s, h);
    Splice(s, begin, end, Decrypt(s[begin..end], k0, k1));
  }

  /** The keys after byte `index` is processed, `curKey[index % 2] += c`. */
  lemma KeysStep(seg: seq<byte>, k0: byte, k1: byte, curKey: seq<byte>, index: nat)
    requires index < |seg| && KeysAt(curKey, seg, k0, k1, index)
    ensures KeysAt(curKey[index % 2 := Add(curKey[index % 2], seg[index])], seg, k0, k1, index + 1)
  {
    var next := curKey[index % 2 := Add(curKey[index % 2], seg[index])];
    assert (index + 1) % 2 != index % 2 && (index + 2) % 2 == index % 2;
    assert next[(index + 1) % 2] == KeyAt(seg, k0, k1, index + 1);
  }

  /** The two running keys before byte `index`: the one it is combined
      with, and the one the byte after it is combined with. */
  predicate KeysAt(curKey: seq<byte>, seg: seq<byte>, k0: byte, k1: byte, index: nat)
    requires index <= |seg|
  {
    && |curKey| == 2
    && curKey[index % 2] == KeyAt(seg, k0, k1, index)
    && curKey[(index + 1) % 2] == KeyAt(seg, k0, k1, index + 1)
  }

  method DecryptSection(a: array<byte>, h: nat, begin: int, end: int)
    requires h + EncKeysOffset + 2 <= a.Length && RangeOk(a.Length, begin, end)
    modifies a
    ensures a[..] == DecryptedSection(old(a[..]), h, begin, end)
  {
    ghost var s := a[..];
    var curKey := [Not(a[h + EncKeysOffset]), Not(a[h + EncKeysOffset + 1])];
    if begin >= end {
      return;
    }
    ghost var seg, k0, k1 := s[begin..end], curKey[0], curKey[1];
    ghost var whole := Decrypt(seg, k0, k1);
    var i, index := begin, 0;
    while i < end
      invariant begin <= i <= end && index == i - begin && KeysAt(curKey, seg, k0, k1, index)
      invariant forall j :: 0 <= j < a.Length && !(begin <= j < i) ==> a[j] == s[j]
      invariant forall j :: begin <= j < i ==> a[j] == whole[j - begin]
    {
      var c := a[i];
      assert c == seg[index];
      DecryptAt(seg, k0, k1, index);
      KeysStep(seg, k0, k1, curKey, index);
      a[i] := Xor(c, curKey[index % 2]);
      assert a[i] == whole[index];
      curKey := curKey[index % 2 := Add(curKey[index % 2], c)];
      i, index := i + 1, index + 1;
    }
    forall j | 0 <= j < a.Length
      ensures a[j] == DecryptedSection(s, h, begin, end)[j]
    {
      DecryptedSectionAt(s, h, begin, end, j);
    }
  }

  /** The buffer after a section encryption, byte by byte. */
  lemma EncryptedSectionAt(s: seq<byte>, h: nat, begin: nat, end: nat, rndKey: bv32, j: nat)
    requires h + EncKeysOffset + 2 <= |s| && begin < end <= |s| && j < |s|
    ensures var t := WithKeys(s, h, rndKey);
      EncryptedSection(s, h, begin, end, rndKey)[j] ==
      if begin <= j < end then Encrypt(t[begin..end], Not(t[h + EncKeysOffset]), Not(t[h + EncKeysOffset + 1]))[j - begin]
      else t[j]
  {
    var t := WithKeys(s, h, rndKey);
    var (k0, k1) := StartKeys(t, h);
    Splice(t, begin, end, Encrypt(t[begin..end], k0, k1));
  }

  /** `encKeys[0] = rndKey; encKeys[1] = rndKey >> 16`: each store keeps the
      low byte of the value. */
  method SetKeys(a: array<byte>, h: nat, rndKey: bv32)
    requires h + EncKeysOffset + 2 <= a.Length
    modifies a
    ensures a[..] == WithKeys(old(a[..]), h, rndKey)
  {
    a[h + EncKeysOffset] := LowKey(rndKey);
    a[h + EncKeysOffset + 1] := HighKey(rndKey);
  }

  /** `HeaderImpl::EncryptSection` on the header at `h` of buffer `a`; the
      random key the source draws from `std::random_device` is `rndKey`. */
  method EncryptSection(a: array<byte>, h: nat, begin: int, end: int, rndKey: bv32)
    requires h + EncKeysOffset + 2 <= a.Length && RangeOk(a.Length, begin, end)
    modifies a
    ensures a[..] == EncryptedSection(old(a[..]), h, begin, end, rndKey)
  {
    SetKeys(a, h, rndKey);
    ghost var t := a[..];
    var curKey := [Not(a[h + EncKeysOffset]), Not(a[h + EncKeysOffset + 1])];
    if begin >= end {
      return;
    }
    ghost var seg, k0, k1 := t[begin..end], curKey[0], curKey[1];
    ghost var whole := Encrypt(seg, k0, k1);
    EncryptRange(a, begin, end, curKey, seg, whole);
    forall j | 0 <= j < a.Length
      ensures a[j] == EncryptedSection(old(a[..]), h, begin, end, rndKey)[j]
    {
      EncryptedSectionAt(old(a[..]), h, begin, end, rndKey, j);
    }
  }

  /** The loop of `HeaderImpl::EncryptSection`, given the bytes `out` it
      writes: byte `idx` of the section is XORed with its key, which has
      advanced by the earlier ciphertext bytes of its parity. */
  method EncryptRange(a: array<byte>, begin: nat, end: nat, curKey: seq<byte>, ghost seg: seq<byte>, ghost out: seq<byte>)
    requires begin < end <= a.Length && |curKey| == 2
    requires seg == a[begin..end] && |out| == |seg|
    requires out == Encrypt(seg, curKey[0], curKey[1])
    modifies a
    ensures forall j :: 0 <= j < a.Length && !(begin <= j < end) ==> a[j] == old(a[j])
    ensures forall j :: begin <= j < end ==> a[j] == out[j - begin]
  {
    ghost var k0, k1 := curKey[0], curKey[1];
    ghost var a0 := a[..];
    var curKey := curKey;
    var i, index := begin, 0;
    while i < end
      invariant begin <= i <= end && index == i - begin && KeysAt(curKey, out, k0, k1, index)
      invariant forall j :: 0 <= j < a.Length && !(begin <= j < i) ==> a[j] == a0[j]
      invariant forall j :: begin <= j < i ==> a[j] == out[j - begin]
    {
      assert a[i] == a0[i] == seg[index];
      var c := Xor(a[i], curKey[index % 2]);
      EncryptAt(seg, k0, k1, index);
      assert c == out[index];
      KeysStep(out, k0, k1, curKey, index);
      a[i] := c;
      curKey := curKey[index % 2 := Add(curKey[index % 2], c)];
      i, index := i + 1, index + 1;
    }
  }
}
