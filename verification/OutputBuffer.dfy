/** The bounded buffer between the thread that reads the output of the child and
    the clients that ask for it. */
module OutputBuffer {

  /** A chunk that left the buffer: handed to a client, or dropped for a new one. */
  datatype Removal = Delivered(chunk: string) | Dropped(chunk: string)

  /** The buffer, with all that was written to it and all that was removed from
      it since init, in the order of writing and of removal. */
  datatype Tape = Tape(deque: seq<string>, written: seq<string>, removed: seq<Removal>)

  datatype Op = Write(chunk: string) | Read

  /** The bounded push of readOutputLoop. */
  function Push(t: Tape, capacity: nat, chunk: string): Tape {
    if |t.deque| == capacity && capacity > 0 then
      Tape(t.deque[1..] + [chunk], t.written + [chunk], t.removed + [Dropped(t.deque[0])])
    else
      Tape(t.deque + [chunk], t.written + [chunk], t.removed)
  }

  function Deliveries(chunks: seq<string>): seq<Removal> {
    seq(|chunks|, i requires 0 <= i < |chunks| => Delivered(chunks[i]))
  }

  /** How many of n chunks one call of readCurrentOutput returns. */
  function Half(n: nat): nat {
    (n + 1) / 2
  }

  /** One call of readCurrentOutput. */
  function ReadOnce(t: Tape): Tape {
    var k := Half(|t.deque|);
    Tape(t.deque[k..], t.written, t.removed + Deliveries(t.deque[..k]))
  }

  function Apply(t: Tape, capacity: nat, op: Op): Tape {
    match op
    case Write(chunk) => Push(t, capacity, chunk)
    case Read => ReadOnce(t)
  }

  /** The buffer after any interleaving of writes and reads since init. */
  function RunOps(capacity: nat, ops: seq<Op>): Tape {
    if |ops| == 0 then Tape([], [], [])
    else Apply(RunOps(capacity, ops[..|ops| - 1]), capacity, ops[|ops| - 1])
  }

  function Chunks(removed: seq<Removal>): seq<string> {
    seq(|removed|, i requires 0 <= i < |removed| => removed[i].chunk)
  }

  function DeliveredChunks(removed: seq<Removal>): seq<string> {
    if |removed| == 0 then []
    else
      var n := |removed| - 1;
      DeliveredChunks(removed[..n]) + (if removed[n].Delivered? then [removed[n].chunk] else [])
  }

  /** The element a[i] stands in b at position at[i], and the positions ascend. */
  ghost predicate EmbeddedAt(a: seq<string>, b: seq<string>, at: seq<int>) {
    && |at| == |a|
    && (forall i :: 0 <= i < |at| ==> 0 <= at[i] < |b| && a[i] == b[at[i]])
    && (forall i, j :: 0 <= i < j < |at| ==> at[i] < at[j])
  }

  /** a is what remains of b when some elements are struck out. */
  ghost predicate Subsequence(a: seq<string>, b: seq<string>) {
    exists at :: EmbeddedAt(a, b, at)
  }

  class Buffer {
    const capacity: nat
    var deque: seq<string>
    ghost var tape: Tape

    ghost predicate Valid()
      reads this
    {
      capacity >= 1 && tape.deque == deque && |deque| <= capacity
    }

    constructor (capacity: nat)
      requires capacity >= 1
      ensures Valid() && this.capacity == capacity && tape == Tape([], [], [])
    {
      this.capacity := capacity;
      deque := [];
      tape := Tape([], [], []);
    }

    /** LinuxProc::init. */
    method Init()
      requires Valid()
      modifies this
      ensures Valid() && tape == Tape([], [], [])
    {
      deque := [];
      tape := Tape([], [], []);
    }

    /** The critical section of readOutputLoop. */
    method PushBack(buf: string)
      requires Valid()
      modifies this
      ensures Valid() && tape == Apply(old(tape), capacity, Write(buf))
      ensures tape.written == old(tape.written) + [buf]
      // A chunk is dropped only if there is no room, and then it is the oldest.
      ensures |old(deque)| < capacity ==> deque == old(deque) + [buf] && tape.removed == old(tape.removed)
      ensures |old(deque)| == capacity ==>
        deque == old(deque)[1..] + [buf] && tape.removed == old(tape.removed) + [Dropped(old(deque)[0])]
    {
      tape := Push(tape, capacity, buf);
      if |deque| == capacity {
        deque := deque[1..];
      }
      deque := deque + [buf];
    }

    /** The loop compares the index with a size that shrinks as it goes. */
    method ReadCurrentOutput() returns (out: seq<string>)
      requires Valid()
      modifies this
      ensures Valid() && tape == Apply(old(tape), capacity, Read)
      ensures |out| == (|old(deque)| + 1) / 2 && out + deque == old(deque)
      ensures tape.written == old(tape.written) && |tape.removed| == |old(tape.removed)| + |out|
      ensures tape.removed[..|old(tape.removed)|] == old(tape.removed)
      ensures forall i :: 0 <= i < |out| ==> tape.removed[|old(tape.removed)| + i] == Delivered(out[i])
    {
      out := [];
      tape := ReadOnce(tape);
      if |deque| == 0 {
        assert tape == Tape([], old(tape).written, old(tape).removed);
        return;
      }
      var index := 0;
      while index < |deque|
        invariant index == |out| && |out| <= Half(|old(deque)|)
        invariant out == old(deque)[..index] && deque == old(deque)[index..]
        modifies `deque
        decreases |deque|
      {
        out := out + [deque[0]];
        deque := deque[1..];
        index := index + 1;
      }
    }
  }

  // ---- Any interleaving -----------------------------------------------------------

  ghost predicate Accounted(t: Tape, capacity: nat) {
    |t.deque| <= capacity && Chunks(t.removed) + t.deque == t.written
  }

  lemma PushAccounts(t: Tape, capacity: nat, chunk: string)
    requires capacity >= 1 && Accounted(t, capacity)
    ensures Accounted(Push(t, capacity, chunk), capacity)
  {
    if |t.deque| == capacity {
      var t' := Push(t, capacity, chunk);
      assert Chunks(t'.removed) == Chunks(t.removed) + [t.deque[0]];
      assert t.deque == [t.deque[0]] + t.deque[1..];
    }
  }

  lemma ReadAccounts(t: Tape, capacity: nat)
    requires Accounted(t, capacity)
    ensures Accounted(ReadOnce(t), capacity)
  {
    ReadKeepsAll(t);
  }

  lemma {:induction false} NothingVanishes(capacity: nat, ops: seq<Op>)
    requires capacity >= 1
    ensures Accounted(RunOps(capacity, ops), capacity)
  {
    if |ops| > 0 {
      var before := RunOps(capacity, ops[..|ops| - 1]);
      NothingVanishes(capacity, ops[..|ops| - 1]);
      match ops[|ops| - 1]
      case Write(chunk) => PushAccounts(before, capacity, chunk);
      case Read => ReadAccounts(before, capacity);
    }
  }

  function DeliveredPositions(removed: seq<Removal>): seq<int> {
    if |removed| == 0 then []
    else
      var n := |removed| - 1;
      DeliveredPositions(removed[..n]) + (if removed[n].Delivered? then [n] else [])
  }

  /** Exactly the chunks that were delivered are taken, each from its place. */
  lemma {:induction false} DeliveredExactly(removed: seq<Removal>)
    ensures forall i :: i in DeliveredPositions(removed) <==> 0 <= i < |removed| && removed[i].Delivered?
  {
    if |removed| > 0 {
      var n := |removed| - 1;
      DeliveredExactly(removed[..n]);
      assert DeliveredPositions(removed)
          == DeliveredPositions(removed[..n]) + if removed[n].Delivered? then [n] else [];
    }
  }

  lemma {:induction false} DeliveredInOrder(removed: seq<Removal>)
    ensures EmbeddedAt(DeliveredChunks(removed), Chunks(removed), DeliveredPositions(removed))
  {
    if |removed| > 0 {
      var n := |removed| - 1;
      DeliveredInOrder(removed[..n]);
      EmbedOneMore(DeliveredChunks(removed[..n]), Chunks(removed[..n]), DeliveredPositions(removed[..n]),
                   removed[n].chunk);
      assert Chunks(removed) == Chunks(removed[..n]) + [removed[n].chunk];
    }
  }

  lemma EmbedOneMore(a: seq<string>, b: seq<string>, at: seq<int>, chunk: string)
    requires EmbeddedAt(a, b, at)
    ensures EmbeddedAt(a, b + [chunk], at)
    ensures EmbeddedAt(a + [chunk], b + [chunk], at + [|b|])
  {
  }

  /** However writes and reads interleave: the buffer never exceeds its capacity,
      the removed chunks followed by the buffered ones are the written ones, and
      clients receive a subsequence of what was written, in order. */
  lemma BufferKeepsOrder(capacity: nat, ops: seq<Op>)
    requires capacity >= 1
    ensures var t := RunOps(capacity, ops);
      && |t.deque| <= capacity
      && Chunks(t.removed) + t.deque == t.written
      && Subsequence(DeliveredChunks(t.removed), t.written)
    // Place by place: the i-th chunk removed is the i-th written, and those buffered are the last ones.
    ensures var t := RunOps(capacity, ops); var n := |t.removed|;
      && n + |t.deque| == |t.written|
      && (forall i :: 0 <= i < n ==> t.removed[i].chunk == t.written[i])
      && (forall i :: 0 <= i < |t.deque| ==> t.deque[i] == t.written[n + i])
    // What clients receive are the written chunks at the places of all deliveries.
    ensures var t := RunOps(capacity, ops); var at := DeliveredPositions(t.removed);
      && EmbeddedAt(DeliveredChunks(t.removed), t.written, at)
      && (forall i :: i in at <==> 0 <= i < |t.removed| && t.removed[i].Delivered?)
  {
    NothingVanishes(capacity, ops);
    var t := RunOps(capacity, ops);
    DeliveredInOrder(t.removed);
    DeliveredExactly(t.removed);
    assert forall i :: 0 <= i < |t.removed| ==> Chunks(t.removed)[i] == (Chunks(t.removed) + t.deque)[i];
    Extends(DeliveredChunks(t.removed), Chunks(t.removed), t.deque, DeliveredPositions(t.removed));
  }

  lemma Extends(a: seq<string>, b: seq<string>, more: seq<string>, at: seq<int>)
    requires EmbeddedAt(a, b, at)
    ensures EmbeddedAt(a, b + more, at)
  {
  }

  // ---- When something is dropped -----------------------------------------------------

  /** op drops a chunk. */
  predicate Drops(t: Tape, capacity: nat, op: Op) {
    exists i :: |t.removed| <= i < |Apply(t, capacity, op).removed| && Apply(t, capacity, op).removed[i].Dropped?
  }

  /** A chunk is dropped only by a write to a full buffer, and always by that; it is
      the oldest one in the buffer. */
  lemma DropsIff(t: Tape, capacity: nat, op: Op)
    requires capacity >= 1 && |t.deque| <= capacity
    ensures Drops(t, capacity, op) <==> op.Write? && |t.deque| == capacity
    ensures Drops(t, capacity, op) ==>
      Apply(t, capacity, op) == Tape(t.deque[1..] + [op.chunk], t.written + [op.chunk],
                                     t.removed + [Dropped(t.deque[0])])
    ensures op.Write? && |t.deque| < capacity ==>
      Apply(t, capacity, op) == Tape(t.deque + [op.chunk], t.written + [op.chunk], t.removed)
  {
    if op.Write? && |t.deque| == capacity {
      assert Apply(t, capacity, op).removed[|t.removed|].Dropped?;
    }
  }

  /** A run that writes no more chunks than fit drops none. */
  lemma {:induction false} FewWritesDropNone(capacity: nat, ops: seq<Op>)
    requires capacity >= 1 && |RunOps(capacity, ops).written| <= capacity
    ensures forall r :: r in RunOps(capacity, ops).removed ==> r.Delivered?
  {
    if |ops| > 0 {
      var t := RunOps(capacity, ops[..|ops| - 1]);
      NothingVanishes(capacity, ops[..|ops| - 1]);
      FewWritesDropNone(capacity, ops[..|ops| - 1]);
      assert |Chunks(t.removed) + t.deque| == |t.written|;
      DropsIff(t, capacity, ops[|ops| - 1]);
    }
  }

  // ---- Emptying the buffer ------------------------------------------------------------

  function Pow2(k: nat): nat {
    if k == 0 then 1 else 2 * Pow2(k - 1)
  }

  /** k calls of readCurrentOutput with no writer. */
  function ReadTimes(t: Tape, k: nat): Tape
    decreases k
  {
    if k == 0 then t else ReadTimes(ReadOnce(t), k - 1)
  }

  lemma {:induction false} PowPositive(k: nat)
    ensures Pow2(k) >= 1
  {
    if k > 0 {
      PowPositive(k - 1);
    }
  }

  /** After k calls the buffer is empty exactly if it held fewer than 2^k chunks. */
  lemma {:induction false} EmptyAfter(t: Tape, k: nat)
    ensures ReadTimes(t, k).deque == [] <==> |t.deque| < Pow2(k)
    decreases k
  {
    PowPositive(k);
    if k > 0 {
      EmptyAfter(ReadOnce(t), k - 1);
      var n, m := |t.deque|, Pow2(k - 1);
      assert |ReadOnce(t).deque| == n - Half(n) == n / 2;
      assert n / 2 < m <==> n < 2 * m;
    }
  }

  /** Emptying a buffer of n >= 1 chunks takes exactly floor(log2(n)) + 1 calls. */
  lemma CallsToEmpty(t: Tape, log: nat)
    requires Pow2(log) <= |t.deque| < Pow2(log + 1)
    ensures ReadTimes(t, log + 1).deque == []
    ensures forall k: nat :: k <= log ==> ReadTimes(t, k).deque != []
  {
    EmptyAfter(t, log + 1);
    forall k: nat | k <= log ensures ReadTimes(t, k).deque != [] {
      EmptyAfter(t, k);
      PowGrows(k, log);
    }
  }

  lemma {:induction false} PowGrows(i: nat, j: nat)
    requires i <= j
    ensures Pow2(i) <= Pow2(j)
    decreases j
  {
    if i < j {
      PowGrows(i, j - 1);
    }
  }

  lemma ReadKeepsAll(t: Tape)
    ensures Chunks(ReadOnce(t).removed) + ReadOnce(t).deque == Chunks(t.removed) + t.deque
  {
    var h := Half(|t.deque|);
    assert Chunks(ReadOnce(t).removed) == Chunks(t.removed) + t.deque[..h];
    assert t.deque == t.deque[..h] + t.deque[h..];
  }

  /** What those calls deliver is the whole buffer, in order. */
  lemma {:induction false} EmptyingDelivers(t: Tape, k: nat)
    ensures var r := ReadTimes(t, k);
      Chunks(r.removed) + r.deque == Chunks(t.removed) + t.deque && r.written == t.written
    decreases k
  {
    if k > 0 {
      EmptyingDelivers(ReadOnce(t), k - 1);
      ReadKeepsAll(t);
    }
  }
}
