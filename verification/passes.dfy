/** Passes that call the passes of the records they point to. A pass of a
    record is a function of the buffer's contents, the record's address and
    the flags; a pass whose record type lies outside this model is given to
    its caller as such a function. */
module Passes {
  import opened Outcomes
  import opened Bytes
  import opened Memory
  import opened Flags

  /** `ProcessClass(record, flags)` for the record at an address. */
  type Pass = (seq<byte>, map<nat, Ref>, int, ProcessFlags) -> Step

  /** The pass never changes the size of the buffer. */
  ghost predicate Sized(pass: Pass) {
    forall s, refs, a, f :: |pass(s, refs, a, f).bytes| == |s|
  }

  /** `if (!excluded && item.p) ProcessClass(*item.p, flags); else
      item.p.Reset();` for the pointer field at `p`, after the step `w`: a
      pointer that holds an address is followed by `pass`, one that holds
      nothing is reset to null, and so is an excluded one. */
  function Visited(w: Step, p: nat, excluded: bool, pass: Pass, f: ProcessFlags): (r: Step)
    requires Sized(pass)
    ensures |r.bytes| == |w.bytes|
  {
    if w.outcome.Fail? then w
    else if excluded || RefOf(w.refs, p).Null? then Step(Pass, w.bytes, w.refs[p := Null])
    else
      match RefOf(w.refs, p)
      case At(a) => pass(w.bytes, w.refs, a, f)
      case _ => Step(Fail(WildReference), w.bytes, w.refs)
  }

  /** An excluded or null pointer is reset without running the pass, so
      whatever pass stands for it makes no difference; an included one
      that holds an address is exactly that pass. */
  lemma VisitedMeaning(w: Step, p: nat, excluded: bool, pass: Pass, other: Pass, f: ProcessFlags)
    requires Sized(pass) && Sized(other) && w.outcome.Pass?
    ensures excluded || RefOf(w.refs, p).Null? ==>
              && Visited(w, p, excluded, pass, f) == Step(Pass, w.bytes, w.refs[p := Null])
              && Visited(w, p, excluded, pass, f) == Visited(w, p, excluded, other, f)
    ensures !excluded && RefOf(w.refs, p).At? ==>
              Visited(w, p, excluded, pass, f) == pass(w.bytes, w.refs, RefOf(w.refs, p).addr, f)
  {
  }

  /** `if (item.p) ProcessClass(*item.p, flags);` for the pointer field at
      `p`, after the step `w`: a pointer that holds an address is followed
      by `pass`, a null one is left alone. */
  function Present(w: Step, p: nat, pass: Pass, f: ProcessFlags): (r: Step)
    requires Sized(pass)
    ensures |r.bytes| == |w.bytes|
  {
    if w.outcome.Fail? then w
    else
      match RefOf(w.refs, p)
      case Null => w
      case At(a) => pass(w.bytes, w.refs, a, f)
      case Wild => Step(Fail(WildReference), w.bytes, w.refs)
  }

  /** `ProcessClass(*item.p, flags);` with no check: a null pointer is
      dereferenced. */
  function Deref(w: Step, p: nat, pass: Pass, f: ProcessFlags): (r: Step)
    requires Sized(pass)
    ensures |r.bytes| == |w.bytes|
  {
    if w.outcome.Fail? then w
    else
      match RefOf(w.refs, p)
      case Null => Step(Fail(NullReference), w.bytes, w.refs)
      case At(a) => pass(w.bytes, w.refs, a, f)
      case Wild => Step(Fail(WildReference), w.bytes, w.refs)
  }

  /** A pointer that holds an address is followed the same way whether
      the source checks it first or not; only a null one tells the two
      apart: `Present` leaves it, `Deref` fails on it. */
  lemma PresentOrDeref(w: Step, p: nat, pass: Pass, f: ProcessFlags)
    requires Sized(pass) && w.outcome.Pass?
    ensures RefOf(w.refs, p).Null? ==>
              Present(w, p, pass, f) == w && Deref(w, p, pass, f) == Step(Fail(NullReference), w.bytes, w.refs)
    ensures !RefOf(w.refs, p).Null? ==> Present(w, p, pass, f) == Deref(w, p, pass, f)
    ensures RefOf(w.refs, p).At? ==> Deref(w, p, pass, f) == pass(w.bytes, w.refs, RefOf(w.refs, p).addr, f)
  {
  }

  /** `for (auto &e : array) ProcessClass(e, flags);` over the `n` records
      of `size` bytes from `p`, in order; the first record whose pass
      fails ends the loop. */
  function Each(w: Step, p: int, n: nat, size: nat, pass: Pass, f: ProcessFlags): (r: Step)
    requires Sized(pass)
    ensures |r.bytes| == |w.bytes|
    decreases n
  {
    if w.outcome.Fail? || n == 0 then w
    else Each(pass(w.bytes, w.refs, p, f), p + size, n - 1, size, pass, f)
  }

  /** The same loop over the array whose items pointer holds `start`: an
      empty array is not followed, a non-empty one behind a null pointer
      is dereferenced. */
  function ForEach(w: Step, start: Ref, n: nat, size: nat, pass: Pass, f: ProcessFlags): (r: Step)
    requires Sized(pass)
    ensures |r.bytes| == |w.bytes|
  {
    if w.outcome.Fail? || n == 0 then w
    else
      match start
      case Null => Step(Fail(NullReference), w.bytes, w.refs)
      case Wild => Step(Fail(WildReference), w.bytes, w.refs)
      case At(p) => Each(w, p, n, size, pass, f)
  }

  /** The loop over `n + 1` records is the loop over the first `n` followed
      by the pass of the last one, at `size` bytes past the `n`th. */
  lemma {:induction false} EachLast(w: Step, p: int, q: int, n: nat, size: nat, pass: Pass, f: ProcessFlags)
    requires Sized(pass) && q == p + Offset(n, size)
    ensures var v := Each(w, p, n, size, pass, f);
      Each(w, p, n + 1, size, pass, f) == if v.outcome.Fail? then v else pass(v.bytes, v.refs, q, f)
    decreases n
  {
    if w.outcome.Pass? && n > 0 {
      EachLast(pass(w.bytes, w.refs, p, f), p + size, q, n - 1, size, pass, f);
    }
  }

  /** The position of record `n` of an array of `size`-byte records,
      counted record by record. */
  function Offset(n: nat, size: nat): nat {
    if n == 0 then 0 else Offset(n - 1, size) + size
  }

  /** A loop whose every record pass changes nothing and passes changes
      nothing, and a loop over records whose pass always fails fails at
      its first record. */
  lemma {:induction false} EachNoOp(w: Step, p: int, n: nat, size: nat, pass: Pass, f: ProcessFlags)
    requires Sized(pass)
    requires forall s, refs, a :: pass(s, refs, a, f) == Step(Pass, s, refs)
    ensures Each(w, p, n, size, pass, f) == w
    decreases n
  {
    if w.outcome.Pass? && n > 0 {
      EachNoOp(pass(w.bytes, w.refs, p, f), p + size, n - 1, size, pass, f);
    }
  }

  /** A pass run on the buffer: the bytes and references it computes
      replace the buffer's. */
  method Run(buf: Buffer, pass: Pass, a: int, f: ProcessFlags) returns (r: Outcome)
    requires Sized(pass)
    modifies buf, buf.bytes
    ensures Step(r, buf.bytes[..], buf.refs) == pass(old(buf.bytes[..]), old(buf.refs), a, f)
  {
    var w := pass(buf.bytes[..], buf.refs, a, f);
    buf.Store(w.bytes, w.refs);
    r := w.outcome;
  }

  /** The visit of `Visited`, on the buffer. */
  method Visit(buf: Buffer, p: nat, excluded: bool, pass: Pass, f: ProcessFlags) returns (r: Outcome)
    requires Sized(pass)
    modifies buf, buf.bytes
    ensures Step(r, buf.bytes[..], buf.refs) == Visited(Step(Pass, old(buf.bytes[..]), old(buf.refs)), p, excluded, pass, f)
  {
    var target := buf.RefAt(p);
    if excluded || target.Null? {
      r := buf.Reset(p);
    } else if target.At? {
      r := Run(buf, pass, target.addr, f);
    } else {
      r := Fail(WildReference);
    }
  }

  /** `if (item.p) ProcessClass(*item.p, flags);`, on the buffer. */
  method VisitPresent(buf: Buffer, p: nat, pass: Pass, f: ProcessFlags) returns (r: Outcome)
    requires Sized(pass)
    modifies buf, buf.bytes
    ensures Step(r, buf.bytes[..], buf.refs) == Present(Step(Pass, old(buf.bytes[..]), old(buf.refs)), p, pass, f)
  {
    match buf.RefAt(p)
    case Null =>
      r := Pass;
    case At(a) =>
      r := Run(buf, pass, a, f);
    case Wild =>
      r := Fail(WildReference);
  }

  /** `ProcessClass(*item.p, flags);`, on the buffer. */
  method VisitDeref(buf: Buffer, p: nat, pass: Pass, f: ProcessFlags) returns (r: Outcome)
    requires Sized(pass)
    modifies buf, buf.bytes
    ensures Step(r, buf.bytes[..], buf.refs) == Deref(Step(Pass, old(buf.bytes[..]), old(buf.refs)), p, pass, f)
  {
    match buf.RefAt(p)
    case Null =>
      r := Fail(NullReference);
    case At(a) =>
      r := Run(buf, pass, a, f);
    case Wild =>
      r := Fail(WildReference);
  }

  /** The loop of `Each`, on the buffer: one record after the other, the
      cursor moved on by the record size. */
  method RunEach(buf: Buffer, p: int, n: nat, size: nat, pass: Pass, f: ProcessFlags) returns (r: Outcome)
    requires Sized(pass)
    modifies buf, buf.bytes
    ensures Step(r, buf.bytes[..], buf.refs) == Each(Step(Pass, old(buf.bytes[..]), old(buf.refs)), p, n, size, pass, f)
  {
    var i, q := 0, p;
    while i < n
      invariant 0 <= i <= n
      invariant Each(Step(Pass, buf.bytes[..], buf.refs), q, n - i, size, pass, f) ==
                Each(Step(Pass, old(buf.bytes[..]), old(buf.refs)), p, n, size, pass, f)
    {
      r := Run(buf, pass, q, f);
      if r.Fail? {
        return;
      }
      i, q := i + 1, q + size;
    }
    r := Pass;
  }

  /** The loop of `ForEach`, on the buffer. */
  method RunForEach(buf: Buffer, start: Ref, n: nat, size: nat, pass: Pass, f: ProcessFlags) returns (r: Outcome)
    requires Sized(pass)
    modifies buf, buf.bytes
    ensures Step(r, buf.bytes[..], buf.refs) == ForEach(Step(Pass, old(buf.bytes[..]), old(buf.refs)), start, n, size, pass, f)
  {
    if n == 0 {
      return Pass;
    }
    match start
    case Null =>
      r := Fail(NullReference);
    case Wild =>
      r := Fail(WildReference);
    case At(p) =>
      r := RunEach(buf, p, n, size, pass, f);
  }
}
