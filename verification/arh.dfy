/** ARH archive name tables (`toolset/arh/extract_arh.cpp`,
    `include/xenolib/arh.hpp`). The header is followed by two obfuscated
    tables: the tail-leaf buffer, whose first word XORed with the header's
    `keySeed` is the key and whose other words are XORed with that key,
    and the trie of `(a, b)` nodes, both fields XORed with the key. A node
    with `a < 0` and `b > 0` is a leaf: `-a - 4` is the byte position of
    its name's tail (a NUL-terminated string followed by the file index),
    and `b` starts a chain of parent links whose `a` fields, XORed with the
    previous index, spell the name's prefix backwards.

    Reading from the stream past its end, indexing the trie or the name
    table out of range, and a tail string without a terminator are
    undefined behaviour in the source; here they end the decode with
    `OutOfBounds`. */
module Arh {
  import opened Bytes
  import opened Outcomes
  import opened Bits

  /** The header: ten `uint32` fields. */
  const HeaderSize: nat := 40

  /** `ARH::ID`, the FourCC `arh1` as it reads from the file. */
  function Id(): nat {
    ReadLE(FourCC('a', 'r', 'h', '1'))
  }

  /** `ARH::Header`. */
  datatype Header = Header(
    id: nat, keySeed: nat, numNodes: nat, tailLeafsBuffer: nat, tailLeafsBufferSize: nat,
    trieBuffer: nat, trieBufferSize: nat, fileEntries: nat, numFiles: nat, unk: nat)

  /** A 32-bit word of the stream. */
  function WordAt(file: seq<byte>, p: nat): (w: bv32)
    requires p + 4 <= |file|
  {
    Pow256Word();
    U(file, p, 4) as bv32
  }

  /** A `uint32` is below 256^4. */
  lemma Pow256Word()
    ensures Pow256(4) == Word32
  {
  }

  /** The header read from the start of the stream. */
  function ReadHeader(file: seq<byte>): (r: Result<Header>)
    ensures r.Ok? <==> |file| >= HeaderSize
  {
    if |file| < HeaderSize then Err(OutOfBounds)
    else Ok(Header(U(file, 0, 4), U(file, 4, 4), U(file, 8, 4), U(file, 12, 4), U(file, 16, 4),
                   U(file, 20, 4), U(file, 24, 4), U(file, 28, 4), U(file, 32, 4), U(file, 36, 4)))
  }

  /** `ARH::ABNode`: two `int32` fields, kept as their bits. */
  datatype Node = Node(a: bv32, b: bv32)

  /** The `int32` value of 32 bits. */
  function Signed32(x: bv32): (v: int)
    ensures -0x8000_0000 <= v < 0x8000_0000
  {
    var u := x as int;
    if u < 0x8000_0000 then u else u - 0x1_0000_0000
  }

  /** `n` words read from `at` on. */
  function ReadWords(file: seq<byte>, at: nat, n: nat): (r: Result<seq<bv32>>)
    ensures r.Ok? <==> at + 4 * n <= |file|
    ensures r.Ok? ==> |r.value| == n && forall i :: 0 <= i < n ==> r.value[i] == WordAt(file, at + 4 * i)
  {
    if at + 4 * n > |file| then Err(OutOfBounds)
    else Ok(seq(n, i requires 0 <= i < n => WordAt(file, at + 4 * i)))
  }

  /** `n` nodes of 8 bytes read from `at` on. */
  function ReadNodes(file: seq<byte>, at: nat, n: nat): (r: Result<seq<Node>>)
    ensures r.Ok? <==> at + 8 * n <= |file|
    ensures r.Ok? ==> |r.value| == n
    ensures r.Ok? ==> forall i :: 0 <= i < n ==> r.value[i] == Node(WordAt(file, at + 8 * i), WordAt(file, at + 8 * i + 4))
  {
    if at + 8 * n > |file| then Err(OutOfBounds)
    else Ok(seq(n, i requires 0 <= i < n => Node(WordAt(file, at + 8 * i), WordAt(file, at + 8 * i + 4))))
  }

  /** Every word XORed with `key`. */
  function XorWords(ws: seq<bv32>, key: bv32): (r: seq<bv32>)
    ensures |r| == |ws|
  {
    seq(|ws|, i requires 0 <= i < |ws| => Xor32(ws[i], key))
  }

  /** A word XORed with `key`. */
  function Xor32(w: bv32, key: bv32): bv32 {
    w ^ key
  }

  /** Both fields of every node XORed with `key`. */
  function XorNodes(ns: seq<Node>, key: bv32): (r: seq<Node>)
    ensures |r| == |ns|
  {
    seq(|ns|, i requires 0 <= i < |ns| => Flip(ns[i], key))
  }

  /** A node with both fields XORed with `key`. */
  function Flip(n: Node, key: bv32): Node {
    Node(Xor32(n.a, key), Xor32(n.b, key))
  }

  /** XORing with the same key twice restores the words: the obfuscation
      is its own inverse. */
  lemma XorWordsInvolutive(ws: seq<bv32>, key: bv32)
    ensures XorWords(XorWords(ws, key), key) == ws
  {
    forall i | 0 <= i < |ws|
      ensures XorWords(XorWords(ws, key), key)[i] == ws[i]
    {
      XorBack(ws[i], key);
    }
  }

  /** XORing the nodes with the same key twice restores them. */
  lemma XorNodesInvolutive(ns: seq<Node>, key: bv32)
    ensures XorNodes(XorNodes(ns, key), key) == ns
  {
    forall i | 0 <= i < |ns|
      ensures XorNodes(XorNodes(ns, key), key)[i] == ns[i]
    {
      XorBack(ns[i].a, key);
      XorBack(ns[i].b, key);
    }
  }

  lemma XorBack(x: bv32, key: bv32)
    ensures Xor32(Xor32(x, key), key) == x
  {
  }

  /** The bytes of the words, four little-endian bytes each: the decoded
      tail buffer seen as characters. */
  function TailBytes(ws: seq<bv32>): (tb: seq<byte>)
    ensures |tb| == 4 * |ws|
  {
    if ws == [] then [] else WriteLE(ws[0] as nat, 4) + TailBytes(ws[1..])
  }

  /** The decoded tables of an archive and the size of its name table. */
  datatype Tables = Tables(tail: seq<bv32>, trie: seq<Node>, numFiles: nat)

  /** `(tailLeafsBufferSize / 4) - 1`, a `uint32` subtraction. */
  function TailWords(h: Header): nat {
    (h.tailLeafsBufferSize / 4 + Word32 - 1) % Word32
  }

  /** The key: the first word of the tail-leaf buffer XORed with `keySeed`. */
  function Key(file: seq<byte>, h: Header): bv32
    requires h.tailLeafsBuffer + 4 <= |file|
  {
    Xor32(WordAt(file, h.tailLeafsBuffer), (h.keySeed % Word32) as bv32)
  }

  /** The first part of `AppExtractFile`: the header check, the key, and
      the two tables read and XORed with the key. */
  function DecodeTables(file: seq<byte>): (r: Result<Tables>)
    ensures r.Ok? ==> |file| >= HeaderSize && ReadHeader(file).value.id == Id()
    ensures |file| >= HeaderSize && ReadHeader(file).value.id != Id() ==>
              r == Err(InvalidHeader(ReadHeader(file).value.id))
  {
    var h :- ReadHeader(file);
    if h.id != Id() then Err(InvalidHeader(h.id))
    else if h.tailLeafsBuffer + 4 > |file| then Err(OutOfBounds)
    else
      var key := Key(file, h);
      var ws :- ReadWords(file, h.tailLeafsBuffer + 4, TailWords(h));
      var ns :- ReadNodes(file, h.trieBuffer, h.trieBufferSize / 8);
      Ok(Tables(XorWords(ws, key), XorNodes(ns, key), h.numFiles))
  }

  /** The decoded tables XORed with the key once more give back the words
      stored in the file: the tail has `tailLeafsBufferSize / 4 - 1` words
      (a `uint32` count) starting after the key's word, and the trie
      `trieBufferSize / 8` nodes. */
  lemma DecodeTablesMeaning(file: seq<byte>)
    requires DecodeTables(file).Ok?
    ensures var h := ReadHeader(file).value;
            && h.tailLeafsBuffer + 4 <= |file|
            && ReadWords(file, h.tailLeafsBuffer + 4, TailWords(h)).Ok?
            && ReadNodes(file, h.trieBuffer, h.trieBufferSize / 8).Ok?
            && XorWords(DecodeTables(file).value.tail, Key(file, h)) == ReadWords(file, h.tailLeafsBuffer + 4, TailWords(h)).value
            && XorNodes(DecodeTables(file).value.trie, Key(file, h)) == ReadNodes(file, h.trieBuffer, h.trieBufferSize / 8).value
            && DecodeTables(file).value.numFiles == h.numFiles
  {
    var h := ReadHeader(file).value;
    var key := Key(file, h);
    XorWordsInvolutive(ReadWords(file, h.tailLeafsBuffer + 4, TailWords(h)).value, key);
    XorNodesInvolutive(ReadNodes(file, h.trieBuffer, h.trieBufferSize / 8).value, key);
  }

  /** A leaf node: `a < 0` and `b > 0`. */
  predicate IsLeaf(n: Node) {
    Signed32(n.a) < 0 && Signed32(n.b) > 0
  }

  /** The character a parent contributes: the low byte of its `a` XORed
      with the index before it. */
  function Char(a: bv32, prev: nat): byte {
    (Xor32(a, (prev % Word32) as bv32) & 0xFF) as byte
  }

  /** The loop over parent links, as a function: from `parentId`, with
      `prev` the index before it, until a link of 0, with at most `fuel`
      steps. */
  function Walk(trie: seq<Node>, parentId: int, prev: nat, fuel: nat): (r: Result<seq<byte>>)
    ensures r.Ok? ==> |r.value| <= fuel
    decreases fuel
  {
    if parentId == 0 then Ok([])
    else if !(0 <= parentId < |trie|) then Err(OutOfBounds)
    else if fuel == 0 then Err(Runtime(Cycle))
    else
      var rest :- Walk(trie, Signed32(trie[parentId].b), parentId, fuel - 1);
      Ok([Char(trie[parentId].a, prev)] + rest)
  }

  /** The message for a chain of parent links that never reaches 0. */
  const Cycle := "parent links form a cycle"

  /** `ps` is the chain of parent links from `first`: each a node index
      other than 0, each the `b` of the one before, and the last one's `b`
      is 0. */
  ghost predicate Chain(trie: seq<Node>, first: int, ps: seq<nat>)
    decreases |ps|
  {
    if ps == [] then first == 0
    else ps[0] == first && 0 < first < |trie| && Chain(trie, Signed32(trie[first].b), ps[1..])
  }

  /** Every index of a chain is a node other than 0. */
  lemma {:induction false} ChainInRange(trie: seq<Node>, first: int, ps: seq<nat>)
    requires Chain(trie, first, ps)
    ensures forall j :: 0 <= j < |ps| ==> 0 < ps[j] < |trie|
    decreases |ps|
  {
    if ps != [] {
      ChainInRange(trie, Signed32(trie[first].b), ps[1..]);
      assert forall j :: 1 <= j < |ps| ==> ps[j] == ps[1..][j - 1];
    }
  }

  /** The characters a chain spells in the loop's order: parent `j`
      contributes its `a` XORed with the index before it, the leaf's own
      index for the first parent. */
  function Spelled(trie: seq<Node>, ps: seq<nat>, leaf: nat): (s: seq<byte>)
    requires forall j :: 0 <= j < |ps| ==> ps[j] < |trie|
    ensures |s| == |ps|
  {
    seq(|ps|, j requires 0 <= j < |ps| => Char(trie[ps[j]].a, if j == 0 then leaf else ps[j - 1]))
  }

  /** A chain spells its first parent's character, then what the rest
      spells after that parent. */
  lemma SpelledCons(trie: seq<Node>, p: nat, ps: seq<nat>, prev: nat)
    requires p < |trie| && forall j :: 0 <= j < |ps| ==> ps[j] < |trie|
    ensures Spelled(trie, [p] + ps, prev) == [Char(trie[p].a, prev)] + Spelled(trie, ps, p)
  {
    var qs := [p] + ps;
    var l := Spelled(trie, qs, prev);
    var r := [Char(trie[p].a, prev)] + Spelled(trie, ps, p);
    forall j | 0 <= j < |qs|
      ensures l[j] == r[j]
    {
      if j > 0 {
        assert qs[j] == ps[j - 1];
        assert r[j] == Spelled(trie, ps, p)[j - 1];
        if j > 1 {
          assert qs[j - 1] == ps[j - 2];
        }
      }
    }
    assert l == r;
  }

  /** Following a chain of parent links that is short enough for the fuel
      spells exactly its characters. */
  lemma {:induction false} WalkChain(trie: seq<Node>, first: int, ps: seq<nat>, prev: nat, fuel: nat)
    requires Chain(trie, first, ps) && |ps| <= fuel
    requires forall j :: 0 <= j < |ps| ==> ps[j] < |trie|
    ensures Walk(trie, first, prev, fuel) == Ok(Spelled(trie, ps, prev))
    decreases |ps|
  {
    if ps != [] {
      var tail := ps[1..];
      var next := Signed32(trie[first].b);
      WalkChain(trie, next, tail, first, fuel - 1);
      assert ps == [ps[0]] + tail;
      SpelledCons(trie, ps[0], tail, prev);
    }
  }

  /** Conversely, a walk that ends spells the characters of a chain of
      parent links no longer than its fuel. */
  lemma {:induction false} WalkEnds(trie: seq<Node>, first: int, prev: nat, fuel: nat) returns (ps: seq<nat>)
    requires Walk(trie, first, prev, fuel).Ok?
    ensures Chain(trie, first, ps) && |ps| <= fuel
    ensures forall j :: 0 <= j < |ps| ==> ps[j] < |trie|
    ensures Walk(trie, first, prev, fuel).value == Spelled(trie, ps, prev)
    decreases fuel
  {
    if first == 0 {
      ps := [];
    } else {
      var next := Signed32(trie[first].b);
      assert 0 < first < |trie|;
      var f: nat := first;
      var tail := WalkEnds(trie, next, f, fuel - 1);
      var rest := Walk(trie, next, f, fuel - 1).value;
      assert Walk(trie, first, prev, fuel) == Ok([Char(trie[f].a, prev)] + rest);
      ps := [f] + tail;
      assert Chain(trie, first, ps) by {
        assert ps[1..] == tail;
      }
      forall j | 0 <= j < |ps|
        ensures ps[j] < |trie|
      {
        if j > 0 {
          assert ps[j] == tail[j - 1];
        }
      }
      SpelledCons(trie, f, tail, prev);
      assert rest == Spelled(trie, tail, f);
    }
  }

  /** `Ok(pre + v)` after a success `Ok(v)`; a failure stays itself. */
  function Then(pre: seq<byte>, r: Result<seq<byte>>): Result<seq<byte>> {
    if r.Ok? then Ok(pre + r.value) else r
  }

  /** Prefixing in two steps is prefixing with the concatenation. */
  lemma ThenThen(pre: seq<byte>, c: byte, r: Result<seq<byte>>)
    ensures Then(pre, Then([c], r)) == Then(pre + [c], r)
  {
    if r.Ok? {
      assert pre + ([c] + r.value) == (pre + [c]) + r.value;
    }
  }

  /** One turn of the loop over parent links: the parent's character,
      then the walk from its own parent. */
  lemma WalkNext(trie: seq<Node>, p: int, prev: nat, fuel: nat)
    requires p != 0 && 0 <= p < |trie| && fuel > 0
    ensures Walk(trie, p, prev, fuel) ==
            Then([Char(trie[p].a, prev)], Walk(trie, Signed32(trie[p].b), p, fuel - 1))
  {
  }

  /** The `while (parentId)` loop: each parent pushes its character, and
      the loop stops at a link of 0. On a chain of links that never
      reaches 0, where the source loops forever, it stops after as many
      steps as there are nodes, the most a chain without a repeated index
      can take. */
  method BuildPath(trie: seq<Node>, b: bv32, index: nat) returns (r: Result<seq<byte>>)
    ensures r == Walk(trie, Signed32(b), index, |trie|)
  {
    var parentId := Signed32(b);
    var curentXor: nat := index;
    var curPath: seq<byte> := [];
    var steps: nat := |trie|;
    ghost var w0 := Walk(trie, parentId, curentXor, steps);
    if w0.Ok? {
      assert curPath + w0.value == w0.value;
    }
    while parentId != 0
      invariant Walk(trie, Signed32(b), index, |trie|) == Then(curPath, Walk(trie, parentId, curentXor, steps))
      decreases steps
    {
      if !(0 <= parentId < |trie|) {
        return Err(OutOfBounds);
      }
      if steps == 0 {
        return Err(Runtime(Cycle));
      }
      var parent := trie[parentId];
      var c := Char(parent.a, curentXor);
      WalkNext(trie, parentId, curentXor, steps);
      ThenThen(curPath, c, Walk(trie, Signed32(parent.b), parentId, steps - 1));
      curPath := curPath + [c];
      curentXor := parentId;
      parentId := Signed32(parent.b);
      steps := steps - 1;
    }
    assert curPath + [] == curPath;
    return Ok(curPath);
  }

  /** The parent index reached from `p` after `k` links; a link out of
      the trie stays where it is. */
  function Hop(trie: seq<Node>, p: int, k: nat): int
    decreases k
  {
    if k == 0 || !(0 <= p < |trie|) then p else Hop(trie, Signed32(trie[p].b), k - 1)
  }

  /** Following `a` links, then `b`, is following `a + b`. */
  lemma {:induction false} HopAdd(trie: seq<Node>, p: int, a: nat, b: nat)
    ensures Hop(trie, p, a + b) == Hop(trie, Hop(trie, p, a), b)
    decreases a
  {
    if a > 0 && 0 <= p < |trie| {
      HopAdd(trie, Signed32(trie[p].b), a - 1, b);
    } else if a > 0 {
      assert Hop(trie, p, b) == p;
    }
  }

  /** The walk gives up only after following `fuel` links, every one of
      them, and the one it stops at, to a node other than 0. */
  lemma {:induction false} CycleLinks(trie: seq<Node>, p: int, prev: nat, fuel: nat)
    requires Walk(trie, p, prev, fuel) == Err(Runtime(Cycle))
    ensures forall k :: 0 <= k <= fuel ==> 0 < Hop(trie, p, k) < |trie|
    decreases fuel
  {
    if fuel > 0 {
      var q := Signed32(trie[p].b);
      CycleLinks(trie, q, p, fuel - 1);
      forall k | 0 < k <= fuel
        ensures 0 < Hop(trie, p, k) < |trie|
      {
        assert Hop(trie, p, k) == Hop(trie, q, k - 1);
      }
    }
  }

  /** A sequence without repeats has as many distinct elements as items. */
  lemma {:induction false} DistinctCard(xs: seq<int>)
    requires forall i, j :: 0 <= i < j < |xs| ==> xs[i] != xs[j]
    ensures |set x | x in xs| == |xs|
  {
    if xs != [] {
      var ys := xs[..|xs| - 1];
      var last := xs[|xs| - 1];
      DistinctCard(ys);
      assert (set x | x in xs) == (set x | x in ys) + {last};
      assert forall i :: 0 <= i < |ys| ==> ys[i] != last;
    }
  }

  /** The integers from `lo` up to `hi`. */
  function Interval(lo: int, hi: int): (r: set<int>)
    ensures forall i :: i in r <==> lo <= i < hi
    ensures lo <= hi ==> |r| == hi - lo
    decreases hi - lo
  {
    if lo >= hi then {} else Interval(lo, hi - 1) + {hi - 1}
  }

  /** A subset is no larger. */
  lemma {:induction false} SubsetCard(a: set<int>, b: set<int>)
    requires a <= b
    ensures |a| <= |b|
    decreases |a|
  {
    if exists x :: x in a {
      var x :| x in a;
      SubsetCard(a - {x}, b - {x});
    } else {
      assert a == {};
    }
  }

  /** `n` items drawn from the `n - 1` values `1 .. n - 1` repeat one. */
  lemma Pigeonhole(xs: seq<int>)
    requires |xs| > 0 && forall i :: 0 <= i < |xs| ==> 0 < xs[i] < |xs|
    ensures exists i, j :: 0 <= i < j < |xs| && xs[i] == xs[j]
  {
    if forall i, j :: 0 <= i < j < |xs| ==> xs[i] != xs[j] {
      DistinctCard(xs);
      var seen := set x | x in xs;
      SubsetCard(seen, Interval(1, |xs|));
    }
  }

  /** When `BuildPath` gives up, the source's `while (parentId)` loop never
      ends: some parent index comes back within the first `|trie|` links,
      and from there on the chain repeats without ever reaching 0. */
  lemma CycleEndless(trie: seq<Node>, b: bv32, index: nat)
    requires Walk(trie, Signed32(b), index, |trie|) == Err(Runtime(Cycle))
    ensures exists i, j :: 0 <= i < j < |trie| && Hop(trie, Signed32(b), i) == Hop(trie, Signed32(b), j)
    ensures forall k: nat :: Hop(trie, Signed32(b), k) != 0
  {
    var p := Signed32(b);
    var n := |trie|;
    CycleLinks(trie, p, index, n);
    var xs := seq(n, k requires 0 <= k < n => Hop(trie, p, k));
    Pigeonhole(xs);
    var i, j :| 0 <= i < j < n && xs[i] == xs[j];
    forall k: nat
      ensures Hop(trie, p, k) != 0
    {
      HopRepeats(trie, p, i, j, k);
    }
  }

  /** Past a repeat at `i < j`, the index after `k` links is one already
      seen within the first `j` links. */
  lemma {:induction false} HopRepeats(trie: seq<Node>, p: int, i: nat, j: nat, k: nat)
    requires i < j && Hop(trie, p, i) == Hop(trie, p, j)
    ensures exists m :: 0 <= m < j && Hop(trie, p, k) == Hop(trie, p, m)
    decreases k
  {
    if k >= j {
      HopAdd(trie, p, j, k - j);
      HopAdd(trie, p, i, k - j);
      HopRepeats(trie, p, i, j, k - (j - i));
    } else {
      assert Hop(trie, p, k) == Hop(trie, p, k);
    }
  }

  /** The position of the first NUL at or after `k`. */
  function NulFrom(tb: seq<byte>, k: nat): (r: Result<nat>)
    ensures r.Ok? ==> k <= r.value < |tb| && tb[r.value] == 0 && forall j :: k <= j < r.value ==> tb[j] != 0
    ensures r.Err? ==> r.error == OutOfBounds && forall j :: k <= j < |tb| ==> tb[j] != 0
    decreases |tb| - k
  {
    if k >= |tb| then Err(OutOfBounds)
    else if tb[k] == 0 then Ok(k)
    else NulFrom(tb, k + 1)
  }

  /** A leaf's tail: the string starting at byte `-a - 4` of the decoded
      tail buffer, up to its NUL, and the file index in the four bytes
      after the NUL. */
  datatype Leaf = Leaf(tail: seq<byte>, fileIndex: nat)

  /** Where the tail string of a leaf with `a` starts: `-a - 4`. */
  function TailStart(a: bv32): int {
    -Signed32(a) - 4
  }

  /** The tail string starting at `start` and the file index after it. */
  function TailOf(tb: seq<byte>, start: int): (r: Result<Leaf>)
    ensures r.Ok? ==> 0 <= start && start + |r.value.tail| + 5 <= |tb|
  {
    if start < 0 then Err(OutOfBounds)
    else
      var e :- NulFrom(tb, start);
      if e + 5 > |tb| then Err(OutOfBounds)
      else Ok(Leaf(tb[start..e], U(tb, e + 1, 4)))
  }

  /** A leaf's tail is the bytes from its start up to, not including, the
      first NUL, and its file index the four bytes after that NUL; a tail
      that starts before the buffer, has no NUL, or leaves no room for the
      index is out of bounds. */
  lemma TailOfMeaning(tb: seq<byte>, start: int)
    ensures TailOf(tb, start).Ok? ==>
              var e := start + |TailOf(tb, start).value.tail|;
              && TailOf(tb, start).value.tail == tb[start..e]
              && (forall j :: start <= j < e ==> tb[j] != 0) && tb[e] == 0
              && TailOf(tb, start).value.fileIndex == U(tb, e + 1, 4)
    ensures TailOf(tb, start).Err? ==>
              || start < 0
              || (forall j :: start <= j < |tb| ==> tb[j] != 0)
              || (NulFrom(tb, start).Ok? && NulFrom(tb, start).value + 5 > |tb|)
  {
    if start >= 0 {
      var n := NulFrom(tb, start);
      if n.Ok? && n.value + 5 <= |tb| {
        assert TailOf(tb, start) == Ok(Leaf(tb[start..n.value], U(tb, n.value + 1, 4)));
        assert |tb[start..n.value]| == n.value - start;
      }
    }
  }

  /** One iteration of the loop over the trie: a leaf stores its name,
      prefix and tail, at its file index; other nodes change nothing. */
  function NameStep(trie: seq<Node>, tb: seq<byte>, names: seq<seq<byte>>, index: nat): (r: Result<seq<seq<byte>>>)
    requires index < |trie|
    ensures r.Ok? ==> |r.value| == |names|
  {
    var t := trie[index];
    if !IsLeaf(t) then Ok(names)
    else LeafName(trie, tb, names, index, TailStart(t.a), Signed32(t.b))
  }

  /** The name a leaf at `index` stores: its tail starts at byte `start`
      of the tail buffer and its parent chain at node `first`. */
  function LeafName(trie: seq<Node>, tb: seq<byte>, names: seq<seq<byte>>, index: nat, start: int, first: int)
    : (r: Result<seq<seq<byte>>>)
    ensures r.Ok? ==> |r.value| == |names|
  {
    var leaf :- TailOf(tb, start);
    var path :- Walk(trie, first, index, |trie|);
    if leaf.fileIndex >= |names| then Err(OutOfBounds)
    else Ok(names[leaf.fileIndex := Reverse(path) + leaf.tail])
  }

  /** A leaf that succeeds has a chain `ps` of parent links from `first`,
      no longer than the trie, and a tail from `start` up to the first NUL
      at `e`, followed by a file index within the table; the name stored
      there is the chain's characters in reverse, then the tail, and no
      other name changes. */
  lemma LeafNameMeaning(trie: seq<Node>, tb: seq<byte>, names: seq<seq<byte>>, index: nat, start: int, first: int)
    returns (ps: seq<nat>, e: nat)
    requires LeafName(trie, tb, names, index, start, first).Ok?
    ensures Chain(trie, first, ps) && |ps| <= |trie|
    ensures forall j :: 0 <= j < |ps| ==> ps[j] < |trie|
    ensures 0 <= start <= e && e + 5 <= |tb|
    ensures (forall j :: start <= j < e ==> tb[j] != 0) && tb[e] == 0
    ensures U(tb, e + 1, 4) < |names|
    ensures LeafName(trie, tb, names, index, start, first).value ==
              names[U(tb, e + 1, 4) := Reverse(Spelled(trie, ps, index)) + tb[start..e]]
  {
    TailOfMeaning(tb, start);
    var leaf := TailOf(tb, start).value;
    e := start + |leaf.tail|;
    ps := WalkEnds(trie, first, index, |trie|);
    var path := Walk(trie, first, index, |trie|).value;
    assert LeafName(trie, tb, names, index, start, first) == Ok(names[leaf.fileIndex := Reverse(path) + leaf.tail]);
  }

  /** The name table after nodes 0 .. `n` - 1. */
  function Names(trie: seq<Node>, tb: seq<byte>, names: seq<seq<byte>>, n: nat): (r: Result<seq<seq<byte>>>)
    requires n <= |trie|
    ensures r.Ok? ==> |r.value| == |names|
  {
    if n == 0 then Ok(names)
    else
      var prev :- Names(trie, tb, names, n - 1);
      NameStep(trie, tb, prev, n - 1)
  }

  /** A failure stops the loop over the trie. */
  lemma {:induction false} NamesStayFailed(trie: seq<Node>, tb: seq<byte>, names: seq<seq<byte>>, n: nat, m: nat)
    requires n <= m <= |trie| && Names(trie, tb, names, n).Err?
    ensures Names(trie, tb, names, m) == Names(trie, tb, names, n)
    decreases m
  {
    if m > n {
      NamesStayFailed(trie, tb, names, n, m - 1);
      var prev := Names(trie, tb, names, m - 1);
      assert prev.Err?;
      assert Names(trie, tb, names, m) == Err(prev.error);
    }
  }

  /** A trie without leaves leaves the name table as it was. */
  lemma {:induction false} NoLeaves(trie: seq<Node>, tb: seq<byte>, names: seq<seq<byte>>, n: nat)
    requires n <= |trie| && forall i :: 0 <= i < n ==> !IsLeaf(trie[i])
    ensures Names(trie, tb, names, n) == Ok(names)
  {
    if n > 0 {
      NoLeaves(trie, tb, names, n - 1);
    }
  }

  /** A file's name table: `numFiles` empty names, then one name per leaf. */
  function Extract(file: seq<byte>): (r: Result<seq<seq<byte>>>)
    ensures r.Ok? ==> DecodeTables(file).Ok? && |r.value| == DecodeTables(file).value.numFiles
  {
    var t :- DecodeTables(file);
    Names(t.trie, TailBytes(t.tail), seq(t.numFiles, _ => []), |t.trie|)
  }

  /** `for (auto &d : tailBuffer) d ^= key;` */
  method XorTail(ws: array<bv32>, key: bv32)
    modifies ws
    ensures ws[..] == XorWords(old(ws[..]), key)
  {
    ghost var w0 := ws[..];
    var i := 0;
    while i < ws.Length
      invariant i <= ws.Length
      invariant forall j :: 0 <= j < i ==> ws[j] == Xor32(w0[j], key)
      invariant forall j :: i <= j < ws.Length ==> ws[j] == w0[j]
    {
      ws[i] := Xor32(ws[i], key);
      i := i + 1;
    }
  }

  /** `for (auto &d : trieBuffer) { d.a ^= key; d.b ^= key; }` */
  method XorTrie(ns: array<Node>, key: bv32)
    modifies ns
    ensures ns[..] == XorNodes(old(ns[..]), key)
  {
    ghost var n0 := ns[..];
    ghost var goal := XorNodes(n0, key);
    var i := 0;
    while i < ns.Length
      invariant i <= ns.Length
      invariant ns[..i] == goal[..i] && ns[i..] == n0[i..]
    {
      assert ns[i] == n0[i];
      ns[i] := Flip(ns[i], key);
      assert ns[..i + 1] == goal[..i + 1];
      i := i + 1;
    }
    assert ns[..] == ns[..i];
  }

  /** Reads the header, the key and the two tables, and XORs the tables
      in place. */
  method LoadTables(file: seq<byte>) returns (r: Result<Tables>)
    ensures r == DecodeTables(file)
  {
    var hr := ReadHeader(file);
    if hr.Err? {
      return Err(hr.error);
    }
    var h := hr.value;
    if h.id != Id() {
      return Err(InvalidHeader(h.id));
    }
    if h.tailLeafsBuffer + 4 > |file| {
      return Err(OutOfBounds);
    }
    var key := Key(file, h);
    var count := TailWords(h);
    var wr := ReadWords(file, h.tailLeafsBuffer + 4, count);
    if wr.Err? {
      return Err(wr.error);
    }
    var nr := ReadNodes(file, h.trieBuffer, h.trieBufferSize / 8);
    if nr.Err? {
      return Err(nr.error);
    }
    var tail := LoadTail(wr.value, key);
    var trie := LoadTrie(nr.value, key);
    return Ok(Tables(tail, trie, h.numFiles));
  }

  /** The tail table read into a buffer of its own and XORed there. */
  method LoadTail(ws: seq<bv32>, key: bv32) returns (r: seq<bv32>)
    ensures r == XorWords(ws, key)
  {
    var tailBuffer := new bv32[|ws|](i requires 0 <= i < |ws| => ws[i]);
    assert tailBuffer[..] == ws;
    XorTail(tailBuffer, key);
    return tailBuffer[..];
  }

  /** The trie read into a buffer of its own and XORed there. */
  method LoadTrie(ns: seq<Node>, key: bv32) returns (r: seq<Node>)
    ensures r == XorNodes(ns, key)
  {
    var trieBuffer := new Node[|ns|](i requires 0 <= i < |ns| => ns[i]);
    assert trieBuffer[..] == ns;
    XorTrie(trieBuffer, key);
    return trieBuffer[..];
  }

  /** The loop over the trie, storing each leaf's name into the table. */
  method ExtractNames(trie: seq<Node>, tb: seq<byte>, numFiles: nat) returns (r: Result<seq<seq<byte>>>)
    ensures r == Names(trie, tb, seq(numFiles, _ => []), |trie|)
  {
    ghost var init: seq<seq<byte>> := seq(numFiles, _ => []);
    var fileNames := new seq<byte>[numFiles](_ => []);
    assert fileNames[..] == init;
    var index := 0;
    while index < |trie|
      invariant index <= |trie|
      invariant Names(trie, tb, init, index) == Ok(fileNames[..])
    {
      ghost var prev := fileNames[..];
      var stored := StoreName(trie, tb, fileNames, index);
      assert Names(trie, tb, init, index + 1) == NameStep(trie, tb, prev, index);
      if stored.Fail? {
        NamesStayFailed(trie, tb, init, index + 1, |trie|);
        return Err(stored.error);
      }
      index := index + 1;
    }
    return Ok(fileNames[..]);
  }

  /** The body of the loop over the trie, for the node at `index`. */
  method StoreName(trie: seq<Node>, tb: seq<byte>, fileNames: array<seq<byte>>, index: nat) returns (r: Outcome)
    requires index < |trie|
    modifies fileNames
    ensures r.Pass? <==> NameStep(trie, tb, old(fileNames[..]), index).Ok?
    ensures r.Pass? ==> fileNames[..] == NameStep(trie, tb, old(fileNames[..]), index).value
    ensures r.Fail? ==> NameStep(trie, tb, old(fileNames[..]), index) == Err(r.error)
  {
    var t := trie[index];
    if IsLeaf(t) {
      var lr := TailOf(tb, TailStart(t.a));
      if lr.Err? {
        return Fail(lr.error);
      }
      var curPath := BuildPath(trie, t.b, index);
      if curPath.Err? {
        return Fail(curPath.error);
      }
      var fileIndex := lr.value.fileIndex;
      if fileIndex >= fileNames.Length {
        return Fail(OutOfBounds);
      }
      fileNames[fileIndex] := Reverse(curPath.value) + lr.value.tail;
    }
    return Pass;
  }

  /** The name reconstruction of `AppExtractFile`. */
  method ExtractFile(file: seq<byte>) returns (r: Result<seq<seq<byte>>>)
    ensures r == Extract(file)
  {
    var tables := LoadTables(file);
    if tables.Err? {
      return Err(tables.error);
    }
    var t := tables.value;
    r := ExtractNames(t.trie, TailBytes(t.tail), t.numFiles);
  }
}
