/** The ring-buffer queue of block hashes. */
module Deque {
  import opened Bytes

  type Identifier = s: ByteString | |s| == 32 witness BigEndian(0, 32)

  const ZERO_ID: Identifier := BigEndian(0, 32)

  // ---- Bit masks ----

  /** Two's complement `x & y`. */
  function And(x: int, y: int): int
    decreases if x < 0 then -x else x
  {
    if x == 0 || y == 0 then 0
    else if x == -1 then y
    else if y == -1 then x
    else 2 * And(x / 2, y / 2) + (x % 2) * (y % 2)
  }

  function Pow2(k: nat): (p: nat)
    ensures p >= 1
  {
    if k == 0 then 1 else 2 * Pow2(k - 1)
  }

  ghost predicate IsPow2(n: int) {
    exists k: nat :: n == Pow2(k)
  }

  /** Masking with a power of two less one is reduction modulo that power. */
  lemma {:induction false} MaskIsModulus(x: nat, k: nat)
    ensures And(x, Pow2(k) - 1) == x % Pow2(k)
  {
    hide And, Pow2;
    PowerOf(k);
    if k == 0 {
      AndNothing(x);
    } else {
      var p := Pow2(k - 1);
      MaskIsModulus(x / 2, k - 1);
      AndMask(x, p);
      HalfModulus(x, p);
    }
  }

  lemma {:induction false} PowerOf(k: nat)
    ensures Pow2(k) == if k == 0 then 1 else 2 * Pow2(k - 1)
  {
  }

  lemma {:induction false} AndNothing(x: int)
    ensures And(x, 0) == 0
  {
  }

  lemma {:induction false} AndMask(x: nat, p: nat)
    requires p >= 1
    ensures And(x, 2 * p - 1) == 2 * And(x / 2, p - 1) + x % 2
  {
    var m := 2 * p - 1;
    assert m / 2 == p - 1 && m % 2 == 1;
    if x > 0 {
      assert And(x, m) == 2 * And(x / 2, m / 2) + (x % 2) * (m % 2);
    }
  }

  lemma {:induction false} HalfModulus(x: nat, p: nat)
    requires p >= 1
    ensures x % (2 * p) == 2 * ((x / 2) % p) + x % 2
  {
    var q, r := (x / 2) / p, (x / 2) % p;
    assert x / 2 == q * p + r;
    assert x == q * (2 * p) + (2 * r + x % 2);
    QuotientIsUnique(x, 2 * p, q, 2 * r + x % 2);
  }

  lemma {:induction false} QuotientIsUnique(x: int, d: nat, q: int, r: int)
    requires 0 <= r < d && x == q * d + r
    ensures x % d == r
  {
    var q', r' := x / d, x % d;
    assert x == q' * d + r';
    assert (q - q') * d == r' - r;
    MultipleIsFar(q - q', d);
  }

  lemma {:induction false} MultipleIsFar(k: int, d: nat)
    ensures k >= 1 ==> k * d >= d
    ensures k <= -1 ==> k * d <= 0 - d
  {
    if k >= 1 {
      assert k * d == d + (k - 1) * d;
    } else if k <= -1 {
      assert k * d == (k + 1) * d - d;
    }
  }

  lemma {:induction false} AndHalves(x: nat)
    ensures And(x, x) == if x == 0 then 0 else 2 * And(x / 2, x / 2) + (x % 2) * (x % 2)
  {
  }

  lemma {:induction false} AndSelf(x: nat)
    ensures And(x, x) == x
  {
    hide And;
    AndHalves(x);
    if x > 0 {
      AndSelf(x / 2);
      assert (x % 2) * (x % 2) == x % 2;
    }
  }

  /** The check made by New accepts zero and the powers of two only. */
  lemma {:induction false} PowerCheck(c: nat)
    ensures And(c, c - 1) == 0 <==> c == 0 || IsPow2(c)
  {
    if IsPow2(c) {
      var k: nat :| c == Pow2(k);
      MaskIsModulus(c, k);
      QuotientIsUnique(c, c, 1, 0);
      hide And;
    } else if c > 0 && And(c, c - 1) == 0 {
      ClearedIsPow2(c);
    }
  }

  lemma {:induction false} ClearedIsPow2(c: nat)
    requires c > 0 && And(c, c - 1) == 0
    ensures IsPow2(c)
  {
    if c == 1 {
      assert c == Pow2(0);
    } else if c % 2 == 1 {
      AndSelf(c / 2);
    } else {
      assert (c - 1) / 2 == c / 2 - 1 && (c - 1) % 2 == 1;
      ClearedIsPow2(c / 2);
      var k: nat :| c / 2 == Pow2(k);
      assert c == Pow2(k + 1);
    }
  }

  // ---- Windows of a circular buffer ----

  /** The slot i places after the head. */
  function Slot(head: nat, i: nat, n: nat): nat {
    if head + i < n then head + i else head + i - n
  }

  function Window(a: seq<Identifier>, head: nat, len: nat): (w: seq<Identifier>)
    requires len <= |a| && (head < |a| || len == 0)
    ensures |w| == len
  {
    seq(len, i requires 0 <= i < len => a[Slot(head, i, |a|)])
  }

  lemma {:induction false} WindowFull(a: seq<Identifier>, head: nat)
    requires head < |a| || a == []
    ensures Window(a, head, |a|) == if a == [] then [] else a[head..] + a[..head]
  {
  }

  lemma {:induction false} WindowPush(a: seq<Identifier>, head: nat, len: nat, x: Identifier)
    requires head < |a| && len < |a|
    ensures Window(a[Slot(head, len, |a|) := x], head, len + 1) == Window(a, head, len) + [x]
  {
  }

  lemma {:induction false} WindowPop(a: seq<Identifier>, head: nat, len: nat)
    requires head < |a| && 0 < len <= |a|
    ensures Window(a, head, len)[0] == a[head]
    ensures Window(a, head, len)[1..] == Window(a, Slot(head, 1, |a|), len - 1)
  {
  }

  lemma {:induction false} WindowStart(a: seq<Identifier>, len: nat)
    requires len <= |a|
    ensures Window(a, 0, len) == a[..len]
  {
  }

  /** Unrolling a full buffer into the start of another keeps its contents. */
  lemma {:induction false} WindowRebased(a: seq<Identifier>, head: nat, b: seq<Identifier>)
    requires head < |a| || (a == [] && head == 0)
    requires |a| <= |b| && b[..|a|] == a[head..] + a[..head]
    ensures Window(b, 0, |a|) == Window(a, head, |a|)
  {
    WindowFull(a, head);
    WindowStart(b, |a|);
  }

  /** For indices that overrun at most once, masking steps to the next slot. */
  lemma {:induction false} MaskIsSlot(head: nat, cap: nat)
    requires IsPow2(cap) && head < cap
    ensures And(head + 1, cap - 1) == Slot(head, 1, cap)
  {
    var k: nat :| cap == Pow2(k);
    MaskIsModulus(head + 1, k);
    QuotientIsUnique(head + 1, cap, if head + 1 < cap then 0 else 1, Slot(head, 1, cap));
  }

  // ---- The queue ----

  /** Go's `copy(dst[at:], src)` with enough room. */
  method Copy(dst: array<Identifier>, at: nat, src: seq<Identifier>)
    requires at + |src| <= dst.Length
    modifies dst
    ensures dst[..at + |src|] == old(dst[..at]) + src
  {
    for i := 0 to |src|
      invariant dst[..at + i] == old(dst[..at]) + src[..i]
    {
      dst[at + i] := src[i];
    }
  }

  /** The two copies of a full buffer into a larger one. */
  method Unrolled(src: seq<Identifier>, head: nat, room: nat) returns (bigger: array<Identifier>)
    requires (head < |src| || (src == [] && head == 0)) && |src| <= room
    ensures fresh(bigger) && bigger.Length == room && bigger[..][..|src|] == src[head..] + src[..head]
  {
    bigger := new Identifier[room](_ => ZERO_ID);
    var front, back := src[head..], src[..head];
    assert |front| + |back| == |src|;
    Copy(bigger, 0, front);
    assert bigger[..|front|] == front;
    Copy(bigger, |front|, back);
    assert bigger[..][..|src|] == bigger[..|src|];
  }

  class Queue {
    var cap: nat
    var elems: array<Identifier>
    var head: nat
    var len: nat
    var tail: nat

    ghost predicate Valid()
      reads this
    {
      && elems.Length == cap && len <= cap
      && (cap == 0 ==> head == 0 && tail == 0)
      && (cap > 0 ==> IsPow2(cap) && head < cap && tail == Slot(head, len, cap))
    }

    ghost function Contents(): seq<Identifier>
      requires Valid()
      reads this, elems
    {
      Window(elems[..], head, len)
    }

    /** New panics on any other capacity. */
    constructor (initialCapacity: nat)
      requires And(initialCapacity, initialCapacity - 1) == 0
      ensures Valid() && fresh(elems) && cap == initialCapacity && Contents() == []
    {
      cap := initialCapacity;
      elems := new Identifier[initialCapacity](_ => ZERO_ID);
      head, len, tail := 0, 0, 0;
      PowerCheck(initialCapacity);
    }

    method Pop() returns (elem: Identifier)
      requires Valid()
      modifies this
      ensures Valid() && elems == old(elems) && cap == old(cap)
      ensures old(Contents()) == [] ==> elem == ZERO_ID && Contents() == []
      ensures old(Contents()) != [] ==> elem == old(Contents())[0] && Contents() == old(Contents())[1..]
    {
      hide Window, IsPow2, Pow2, And;
      if len == 0 {
        return ZERO_ID;
      }
      WindowPop(elems[..], head, len);
      MaskIsSlot(head, cap);
      elem := elems[head];
      head := And(head + 1, cap - 1);
      len := len - 1;
    }

    /** The reallocation when the buffer is full: twice the room, same contents. */
    method Grow()
      requires Valid() && len == cap
      modifies this
      ensures Valid() && fresh(elems) && cap == 2 * old(cap) && len == old(len) && Contents() == old(Contents())
      ensures cap > 0 ==> len < cap
    {
      hide Window, IsPow2, Pow2;
      // A full queue has tail == head, so the branch for tail > head is never taken.
      var bigger := Unrolled(elems[..], head, 2 * cap);
      WindowRebased(elems[..], head, bigger[..]);
      DoubledIsPow2(cap);
      cap := 2 * cap;
      elems := bigger;
      head := 0;
      tail := len;
    }

    /** On a queue of capacity zero the store is out of range. */
    method Push(elem: Identifier) returns (ok: bool)
      requires Valid()
      modifies this, elems
      ensures Valid() && (elems == old(elems) || fresh(elems))
      ensures ok <==> old(cap) > 0
      ensures Contents() == if ok then old(Contents()) + [elem] else old(Contents())
      ensures cap == if old(len) < old(cap) then old(cap) else 2 * old(cap)
    {
      hide Window, IsPow2, Pow2, And;
      if len == cap {
        Grow();
      }
      if tail >= elems.Length {
        return false;
      }
      WindowPush(elems[..], head, len, elem);
      MaskIsSlot(tail, cap);
      elems[tail] := elem;
      tail := And(tail + 1, cap - 1);
      len := len + 1;
      ok := true;
    }
  }

  lemma {:induction false} DoubledIsPow2(n: nat)
    ensures IsPow2(n) ==> IsPow2(2 * n)
  {
    if IsPow2(n) {
      var k: nat :| n == Pow2(k);
      assert 2 * n == Pow2(k + 1);
    }
  }

  // ---- Every interleaving ----

  datatype Op = PushOp(elem: Identifier) | PopOp

  /** A first-in first-out sequence, and what is popped from it. */
  datatype Fifo = Fifo(contents: seq<Identifier>, popped: seq<Identifier>)

  function FifoStep(f: Fifo, op: Op): Fifo {
    match op
    case PushOp(elem) => f.(contents := f.contents + [elem])
    case PopOp =>
      if f.contents == [] then f.(popped := f.popped + [ZERO_ID])
      else Fifo(f.contents[1..], f.popped + [f.contents[0]])
  }

  function FifoRun(contents: seq<Identifier>, ops: seq<Op>): Fifo {
    if ops == [] then Fifo(contents, []) else FifoStep(FifoRun(contents, ops[..|ops| - 1]), ops[|ops| - 1])
  }

  /** Any mix of operations on a queue of positive capacity answers as a
      first-in first-out sequence does. */
  method Drive(q: Queue, ops: seq<Op>) returns (popped: seq<Identifier>)
    requires q.Valid() && q.cap > 0
    modifies q, q.elems
    ensures q.Valid() && q.cap > 0
    ensures FifoRun(old(q.Contents()), ops) == Fifo(q.Contents(), popped)
  {
    hide Window, IsPow2, Pow2, And, Queue.Contents;
    popped := [];
    for i := 0 to |ops|
      invariant q.Valid() && q.cap > 0 && (q.elems == old(q.elems) || fresh(q.elems))
      invariant FifoRun(old(q.Contents()), ops[..i]) == Fifo(q.Contents(), popped)
    {
      assert ops[..i + 1][..i] == ops[..i];
      match ops[i]
      case PushOp(elem) =>
        var ok := q.Push(elem);
      case PopOp =>
        var elem := q.Pop();
        popped := popped + [elem];
    }
    assert ops[..|ops|] == ops;
  }
}
