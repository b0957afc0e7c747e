/** firmware/core/src/ringbuf.c: a byte FIFO over caller-provided storage, with wrapping copies. */
module RingBuf {
  import opened Bits

  /** The count bytes from head on, wrapping at the end of the storage. */
  function Unwrap(buf: seq<char>, head: nat, count: nat): (s: seq<char>)
    requires count <= |buf| && head <= |buf|
    ensures |s| == count
  {
    if head + count <= |buf| then buf[head..head + count] else buf[head..] + buf[..head + count - |buf|]
  }

  /** `i % cap`. */
  function Wrap(i: nat, cap: nat): (r: nat)
    requires cap > 0
    ensures r < cap
  {
    NonZeroMultiple(cap, i / cap);
    i % cap
  }

  function Min(a: nat, b: nat): nat { if a < b then a else b }

  /** The longest suffix of s with at most cap bytes. */
  function LastBytes(s: seq<char>, cap: nat): seq<char>
  {
    if |s| <= cap then s else s[|s| - cap..]
  }

  lemma Overflow(q: seq<char>, data: seq<char>, cap: nat)
    requires |q| <= cap
    ensures |data| >= cap ==> LastBytes(q + data, cap) == [] + data[|data| - cap..]
    ensures |data| < cap < |q| + |data| ==> LastBytes(q + data, cap) == q[|q| + |data| - cap..] + data
    ensures |q| + |data| <= cap ==> LastBytes(q + data, cap) == q + data
    ensures data == [] ==> q + data == q
  {}

  class RingBuf {
    const buf: array<char>
    const cap: nat
    var head: nat
    var tail: nat
    var count: nat

    ghost predicate Valid()
      reads this
    {
      && cap <= buf.Length && count <= cap
      && (if cap == 0 then head == 0 && tail == 0 else head < cap && tail < cap && tail == Wrap(head + count, cap))
    }

    /** The stored bytes, oldest first. */
    ghost function Contents(): (s: seq<char>)
      reads this, buf
      requires Valid()
      ensures |s| == count
    {
      Unwrap(buf[..cap], head, count)
    }

    constructor (storage: array<char>, capacity: nat)
      requires capacity <= storage.Length
      ensures buf == storage && cap == capacity && Valid() && Contents() == []
    {
      buf, cap := storage, capacity;
      head, tail, count := 0, 0, 0;
    }

    method Reset()
      requires Valid()
      modifies this
      ensures Valid() && Contents() == []
    {
      head := 0;
      tail := 0;
      count := 0;
    }

    /** `rb_put`: two copies, the second from the start of the storage. */
    method Put(src: seq<char>)
      requires Valid() && cap > 0 && count + |src| <= cap
      modifies this`tail, this`count, buf
      ensures Valid() && Contents() == old(Contents()) + src
      ensures forall p | cap <= p < buf.Length :: buf[p] == old(buf[p])
    {
      hide Unwrap, Wrap;
      var n := |src|;
      var first := cap - tail;
      if first > n {
        first := n;
      }
      forall i | 0 <= i < first {
        buf[tail + i] := src[i];
      }
      forall i | 0 <= i < n - first {
        buf[i] := src[first + i];
      }
      PutContents(old(buf[..cap]), buf[..cap], head, count, tail, src);
      Advance(head, count, n, cap);
      tail := Wrap(tail + n, cap);
      count := count + n;
    }

    /** `rb_drop`: forgets the n oldest bytes. */
    method Drop(n: nat)
      requires Valid() && cap > 0 && n <= count
      modifies this`head, this`count
      ensures Valid() && Contents() == old(Contents())[n..]
    {
      hide Unwrap, Wrap;
      DropContents(buf[..cap], head, count, n);
      head := Wrap(head + n, cap);
      count := count - n;
    }

    /** Appends the longest prefix of data that fits and says how long it is. */
    method Write(data: seq<char>) returns (n: nat)
      requires Valid()
      modifies this, buf
      ensures Valid() && n == Min(|data|, cap - old(count))
      ensures Contents() == old(Contents()) + data[..n] == Apply(old(Contents()), cap, Op.Write(data))
      ensures data[..n] == Entering(old(Contents()), cap, Op.Write(data))
      ensures forall p | cap <= p < buf.Length :: buf[p] == old(buf[p])
    {
      hide Unwrap, Wrap;
      if cap == 0 || |data| == 0 {
        return 0;
      }
      var space := cap - count;
      n := if |data| < space then |data| else space;
      if n > 0 {
        Put(data[..n]);
      }
    }

    /** Keeps the longest suffix of the old contents and the new data that fits; the result is the
        number of bytes that had to go, so that bytes in equal bytes dropped plus bytes kept. */
    method WriteOverwrite(data: seq<char>) returns (dropped: nat)
      requires Valid()
      modifies this, buf
      ensures Valid()
      ensures Contents() == LastBytes(old(Contents()) + data, cap)
      ensures Contents() == Apply(old(Contents()), cap, Op.Overwrite(data))
      ensures dropped + count == if cap > 0 then old(count) + |data| else 0
      ensures dropped == |Leaving(old(Contents()), cap, Op.Overwrite(data))|
      ensures forall p | cap <= p < buf.Length :: buf[p] == old(buf[p])
    {
      hide Unwrap, Wrap, LastBytes;
      Overflow(Contents(), data, cap);
      if cap == 0 || |data| == 0 {
        return 0;
      }
      var src := data;
      dropped := 0;
      if |data| >= cap {
        dropped := count;
        Reset();
        src := src[|data| - cap..];
        Put(src);
        return dropped + (|data| - cap);
      }
      var space := cap - count;
      if |data| > space {
        var need := |data| - space;
        Drop(need);
        dropped := need;
      }
      Put(src);
    }

    /** The copy out: the n oldest bytes, in up to two pieces. */
    method CopyOut(n: nat, out: array<char>)
      requires Valid() && cap > 0 && n <= count && n <= out.Length && out != buf
      modifies out
      ensures Valid() && out[..n] == Contents()[..n] && Contents() == old(Contents())
      ensures forall p | n <= p < out.Length :: out[p] == old(out[p])
    {
      hide Unwrap, Wrap;
      var first := cap - head;
      if first > n {
        first := n;
      }
      forall i | 0 <= i < first {
        out[i] := buf[head + i];
      }
      forall i | 0 <= i < n - first {
        out[first + i] := buf[i];
      }
      forall k | 0 <= k < n
        ensures out[k] == Contents()[k]
      {
        UnwrapAt(buf[..cap], head, count, k);
      }
    }

    /** Copies the oldest bytes without removing them. */
    method Peek(out: array<char>, len: nat) returns (n: nat)
      requires Valid() && len <= out.Length && out != buf
      modifies out
      ensures Valid() && n == Min(len, count) && out[..n] == Contents()[..n] && Contents() == old(Contents())
      ensures forall p | n <= p < out.Length :: out[p] == old(out[p])
    {
      if cap == 0 || len == 0 || count == 0 {
        return 0;
      }
      n := if len < count then len else count;
      CopyOut(n, out);
    }

    /** Removes the oldest bytes and copies them out. */
    method Read(out: array<char>, len: nat) returns (n: nat)
      requires Valid() && len <= out.Length && out != buf
      modifies this, out
      ensures Valid() && n == Min(len, old(count))
      ensures out[..n] == old(Contents())[..n] == Leaving(old(Contents()), cap, Op.Read(len))
      ensures Contents() == old(Contents())[n..] == Apply(old(Contents()), cap, Op.Read(len))
      ensures forall p | n <= p < out.Length :: out[p] == old(out[p])
    {
      if cap == 0 || len == 0 || count == 0 {
        return 0;
      }
      n := if len < count then len else count;
      CopyOut(n, out);
      Drop(n);
    }
  }

  lemma Advance(head: nat, count: nat, n: nat, cap: nat)
    requires cap > 0 && head < cap && count + n <= cap
    ensures Wrap(Wrap(head + count, cap) + n, cap) == Wrap(head + (count + n), cap)
  {
    if head + count >= cap {
      DivModUnique(head + count, cap, 1, head + count - cap);
      ModAddMultiple(head + count - cap + n, cap, 1);
    } else {
      DivModUnique(head + count, cap, 0, head + count);
    }
  }

  /** Byte k of the contents. */
  lemma UnwrapAt(buf: seq<char>, head: nat, count: nat, k: nat)
    requires k < count <= |buf| && head < |buf|
    ensures Unwrap(buf, head, count)[k] == if head + k < |buf| then buf[head + k] else buf[head + k - |buf|]
  {}

  lemma PutContents(before: seq<char>, after: seq<char>, head: nat, count: nat, tail: nat, src: seq<char>)
    requires |before| == |after| && head < |before| && count + |src| <= |before| && tail == Wrap(head + count, |before|)
    requires var first := if |before| - tail > |src| then |src| else |before| - tail;
             && (forall i | 0 <= i < first :: after[tail + i] == src[i])
             && (forall i | 0 <= i < |src| - first :: after[i] == src[first + i])
             && (forall p | 0 <= p < |before| && !(tail <= p < tail + first) && !(0 <= p < |src| - first) ::
                   after[p] == before[p])
    ensures Unwrap(after, head, count + |src|) == Unwrap(before, head, count) + src
  {
    hide Wrap, Unwrap;
    var cap := |before|;
    TailIs(head, count, cap);
    var l, r := Unwrap(after, head, count + |src|), Unwrap(before, head, count) + src;
    forall k | 0 <= k < count + |src|
      ensures l[k] == r[k]
    {
      UnwrapAt(after, head, count + |src|, k);
      if k < count {
        UnwrapAt(before, head, count, k);
      } else {
        NewByte(after, head, count, tail, src, k - count);
      }
    }
  }

  lemma NewByte(after: seq<char>, head: nat, count: nat, tail: nat, src: seq<char>, i: nat)
    requires head < |after| && count + |src| <= |after| && i < |src|
    requires tail == if head + count < |after| then head + count else head + count - |after|
    requires var first := if |after| - tail > |src| then |src| else |after| - tail;
             && (forall j | 0 <= j < first :: after[tail + j] == src[j])
             && (forall j | 0 <= j < |src| - first :: after[j] == src[first + j])
    ensures var p := head + count + i; after[if p < |after| then p else p - |after|] == src[i]
  {}

  lemma TailIs(head: nat, count: nat, cap: nat)
    requires head < cap && count <= cap
    ensures Wrap(head + count, cap) == if head + count < cap then head + count else head + count - cap
  {
    if head + count < cap {
      DivModUnique(head + count, cap, 0, head + count);
    } else {
      DivModUnique(head + count, cap, 1, head + count - cap);
    }
  }

  lemma DropContents(buf: seq<char>, head: nat, count: nat, n: nat)
    requires head < |buf| && n <= count <= |buf|
    ensures Unwrap(buf, Wrap(head + n, |buf|), count - n) == Unwrap(buf, head, count)[n..]
    ensures Wrap(Wrap(head + n, |buf|) + (count - n), |buf|) == Wrap(head + count, |buf|)
  {
    hide Wrap, Unwrap;
    var cap := |buf|;
    TailIs(head, n, cap);
    TailIs(head, count, cap);
    var h := Wrap(head + n, cap);
    TailIs(h, count - n, cap);
    SameBytes(buf, h, head, count, n);
  }

  lemma SameBytes(buf: seq<char>, h: nat, head: nat, count: nat, n: nat)
    requires head < |buf| && n <= count <= |buf|
    requires h == if head + n < |buf| then head + n else head + n - |buf|
    ensures Unwrap(buf, h, count - n) == Unwrap(buf, head, count)[n..]
  {
    hide Unwrap;
    var l, r := Unwrap(buf, h, count - n), Unwrap(buf, head, count);
    forall k | 0 <= k < |l|
      ensures l[k] == r[n..][k]
    {
      UnwrapAt(buf, h, count - n, k);
      UnwrapAt(buf, head, count, n + k);
    }
  }

  // ----- a whole history of operations -----

  datatype Op = Write(data: seq<char>) | Overwrite(data: seq<char>) | Read(len: nat)

  /** The plain queue the buffer implements. */
  function Apply(q: seq<char>, cap: nat, op: Op): seq<char>
    requires |q| <= cap
  {
    match op
    case Write(data) => q + data[..Min(|data|, cap - |q|)]
    case Overwrite(data) => LastBytes(q + data, cap)
    case Read(len) => q[Min(len, |q|)..]
  }

  function ApplyAll(q: seq<char>, cap: nat, ops: seq<Op>): (r: seq<char>)
    requires |q| <= cap
    ensures |r| <= cap
  {
    if ops == [] then q else Apply(ApplyAll(q, cap, ops[..|ops| - 1]), cap, ops[|ops| - 1])
  }

  /** The bytes one operation puts into the queue at the back. */
  function Entering(q: seq<char>, cap: nat, op: Op): seq<char>
    requires |q| <= cap
  {
    match op
    case Write(data) => data[..Min(|data|, cap - |q|)]
    case Overwrite(data) => if cap > 0 then data else []
    case Read(len) => []
  }

  /** The bytes one operation removes at the front, because they are read or because they have to
      make room. */
  function Leaving(q: seq<char>, cap: nat, op: Op): seq<char>
    requires |q| <= cap
  {
    match op
    case Write(data) => []
    case Overwrite(data) => if cap > 0 && |q| + |data| > cap then (q + data)[..|q| + |data| - cap] else []
    case Read(len) => q[..Min(len, |q|)]
  }

  function Entered(cap: nat, ops: seq<Op>): seq<char>
  {
    if ops == [] then []
    else
      var init := ops[..|ops| - 1];
      Entered(cap, init) + Entering(ApplyAll([], cap, init), cap, ops[|ops| - 1])
  }

  function Left(cap: nat, ops: seq<Op>): seq<char>
  {
    if ops == [] then []
    else
      var init := ops[..|ops| - 1];
      Left(cap, init) + Leaving(ApplyAll([], cap, init), cap, ops[|ops| - 1])
  }

  /** What the reads of a history deliver. */
  function Delivered(cap: nat, ops: seq<Op>): seq<char>
  {
    if ops == [] then []
    else
      var init, op := ops[..|ops| - 1], ops[|ops| - 1];
      Delivered(cap, init) + if op.Read? then Leaving(ApplyAll([], cap, init), cap, op) else []
  }

  /** Over any history, what left followed by what is stored is what entered: no byte is lost,
      repeated or reordered. */
  lemma {:induction false} Conservation(cap: nat, ops: seq<Op>)
    ensures Left(cap, ops) + ApplyAll([], cap, ops) == Entered(cap, ops)
  {
    hide Apply, Entering, Leaving;
    if ops != [] {
      var init, op := ops[..|ops| - 1], ops[|ops| - 1];
      Conservation(cap, init);
      var q := ApplyAll([], cap, init);
      OneOperation(q, cap, op);
      Regroup(Left(cap, init), q, Entering(q, cap, op), Leaving(q, cap, op), Apply(q, cap, op));
    }
  }

  lemma OneOperation(q: seq<char>, cap: nat, op: Op)
    requires |q| <= cap
    ensures Leaving(q, cap, op) + Apply(q, cap, op) == q + Entering(q, cap, op)
  {}

  lemma Regroup(a: seq<char>, q: seq<char>, more: seq<char>, gone: seq<char>, kept: seq<char>)
    requires gone + kept == q + more
    ensures a + gone + kept == a + q + more
  {
    assert a + gone + kept == a + (gone + kept);
    assert a + q + more == a + (q + more);
  }

  /** The first-in first-out law: without overwrites, the bytes read followed by the stored ones
      are the bytes accepted. */
  lemma Fifo(cap: nat, ops: seq<Op>)
    requires forall i | 0 <= i < |ops| :: !ops[i].Overwrite?
    ensures Delivered(cap, ops) + ApplyAll([], cap, ops) == Entered(cap, ops)
  {
    Conservation(cap, ops);
    OnlyReadsRemove(cap, ops);
  }

  lemma {:induction false} OnlyReadsRemove(cap: nat, ops: seq<Op>)
    requires forall i | 0 <= i < |ops| :: !ops[i].Overwrite?
    ensures Left(cap, ops) == Delivered(cap, ops)
  {
    hide Apply;
    if ops != [] {
      OnlyReadsRemove(cap, ops[..|ops| - 1]);
    }
  }

  function Concat(ops: seq<Op>): seq<char>
  {
    if ops == [] then []
    else Concat(ops[..|ops| - 1]) + if ops[|ops| - 1].Overwrite? then ops[|ops| - 1].data else []
  }

  /** A buffer that is only overwritten, as for audio history, always holds the most recent bytes. */
  lemma {:induction false} OverwriteKeepsLatest(cap: nat, ops: seq<Op>)
    requires cap > 0 && forall i | 0 <= i < |ops| :: ops[i].Overwrite?
    ensures ApplyAll([], cap, ops) == LastBytes(Concat(ops), cap)
  {
    if ops != [] {
      var init, data := ops[..|ops| - 1], ops[|ops| - 1].data;
      OverwriteKeepsLatest(cap, init);
      LatestOfLatest(Concat(init), data, cap);
    }
  }

  lemma LatestOfLatest(a: seq<char>, b: seq<char>, cap: nat)
    ensures LastBytes(LastBytes(a, cap) + b, cap) == LastBytes(a + b, cap)
  {}
}
