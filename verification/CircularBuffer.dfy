/**
 The circular buffer of `circular_buffer.rs`: two cursors that only grow, over physical memory that is mapped twice
 in a row, so that what lies between the cursors is one slice. Its meaning is a pair of byte queues.
 */
module CircularBuffer {
  import opened Bytes
  import opened Options
  import opened PowersOfTwo
  import opened Sequences

  /** The source's `State` with the physical memory it points to. */
  datatype Buffer = Buffer(memory: seq<byte>, head: nat, tail: nat)

  /** Nothing is done but through the two halves: writes to their slices, `commit` and `consume`. */
  datatype Op =
    | WriteData(i: nat, value: byte)
    | WriteUninit(i: nat, value: byte)
    | Commit(capacity: nat)
    | Consume(capacity: nat)

  /** What an operation leaves, and whether it came through or panicked. */
  datatype Stepped = Stepped(buffer: Buffer, ok: bool)

  ghost predicate Valid(b: Buffer) {
    && IsPow2(|b.memory|) && |b.memory| > 0
    && b.head <= b.tail <= b.head + |b.memory|
    && b.tail < USIZE_LIMIT
  }

  function DataLen(b: Buffer): nat
    requires b.head <= b.tail
  {
    b.tail - b.head
  }

  function UninitLen(b: Buffer): nat
    requires b.head <= b.tail <= b.head + |b.memory|
  {
    |b.memory| - DataLen(b)
  }

  // ---------------------------------------------------------------------------------------------
  // The slices
  // ---------------------------------------------------------------------------------------------

  /** Where the virtual address `v` of the doubled mapping lies in the physical memory. */
  function Physical(length: nat, v: nat): (p: nat)
    requires v < 2 * length
    ensures p < length
  {
    if v < length then v else v - length
  }

  /** The offset of a cursor is in the first mapping, so a slice of at most the whole length stays inside both. */
  lemma SliceIsMapped(length: nat, cursor: nat, i: nat)
    requires IsPow2(length) && i <= length
    ensures length > 0 && P2Modulo(cursor, length) + i < 2 * length
    ensures i < length ==> Physical(length, P2Modulo(cursor, length) + i) == (cursor + i) % length
  {
    hide P2Modulo;
    P2ModuloIsModulo(cursor, length);
    if i < length {
      OffsetIsMapped(length, cursor, i);
    }
  }

  lemma OffsetIsMapped(length: nat, cursor: nat, i: nat)
    requires i < length
    ensures Physical(length, cursor % length + i) == (cursor + i) % length
  {
    var o, q := cursor % length, cursor / length;
    assert cursor + i == length * q + (o + i);
    if o + i < length {
      ModUnique(cursor + i, length, q, o + i);
    } else {
      assert length * (q + 1) == length * q + length;
      ModUnique(cursor + i, length, q + 1, o + i - length);
    }
  }

  /** The bytes of the slice of `len` bytes that starts at a cursor. */
  function Slice(memory: seq<byte>, cursor: nat, len: nat): (s: seq<byte>)
    requires IsPow2(|memory|) && len <= |memory|
    ensures |s| == len
  {
    seq(len, i requires 0 <= i < len =>
      SliceIsMapped(|memory|, cursor, i);
      memory[Physical(|memory|, P2Modulo(cursor, |memory|) + i)])
  }

  /** `Deref` of `Data`. */
  function Data(b: Buffer): seq<byte>
    requires Valid(b)
  {
    Slice(b.memory, b.head, DataLen(b))
  }

  /** `Deref` of `Uninit`. */
  function Uninit(b: Buffer): seq<byte>
    requires Valid(b)
  {
    Slice(b.memory, b.tail, UninitLen(b))
  }

  lemma SliceAt(memory: seq<byte>, cursor: nat, len: nat)
    requires IsPow2(|memory|) && len <= |memory|
    ensures |memory| > 0
    ensures forall i :: 0 <= i < len ==> Slice(memory, cursor, len)[i] == memory[(cursor + i) % |memory|]
  {
    forall i | 0 <= i < len
      ensures |memory| > 0 && Slice(memory, cursor, len)[i] == memory[(cursor + i) % |memory|]
    {
      SliceIsMapped(|memory|, cursor, i);
    }
    SliceIsMapped(|memory|, cursor, 0);
  }

  /** Fewer than `length` apart, two cursors do not share a byte. */
  lemma CursorsDiffer(length: nat, m: nat, n: nat)
    requires length > 0 && m < n < m + length
    ensures m % length != n % length
  {
    if m % length == n % length {
      var q, p := n / length, m / length;
      assert n - m == length * q - length * p;
      assert n - m == length * (q - p) by {
        assert length * (q - p) == length * q - length * p;
      }
      if q - p <= 0 {
        ProductsAscend(length, q - p, 0);
      } else {
        ProductsAscend(length, 1, q - p);
      }
    }
  }

  /** Going round once leads back to the same byte. */
  lemma OnceRound(length: nat, n: nat)
    requires length > 0
    ensures (n + length) % length == n % length
  {
    assert n + length == length * (n / length + 1) + n % length;
    ModUnique(n + length, length, n / length + 1, n % length);
  }

  /** The physical place behind position `k` of the data slice, or of the uninitialised slice counted on from there. */
  ghost function Place(b: Buffer, k: nat): (p: nat)
    requires Valid(b) && k < |b.memory|
    ensures p < |b.memory|
  {
    var cursor, i := if k < DataLen(b) then b.head else b.tail, if k < DataLen(b) then k else k - DataLen(b);
    SliceIsMapped(|b.memory|, cursor, i);
    Physical(|b.memory|, P2Modulo(cursor, |b.memory|) + i)
  }

  lemma PlaceIsCursor(b: Buffer, k: nat)
    requires Valid(b) && k < |b.memory|
    ensures Place(b, k) == (b.head + k) % |b.memory|
  {
    var cursor, i := if k < DataLen(b) then b.head else b.tail, if k < DataLen(b) then k else k - DataLen(b);
    SliceIsMapped(|b.memory|, cursor, i);
  }

  lemma DistanceTo(length: nat, cursor: nat, p: nat) returns (k: nat)
    requires p < length
    ensures k < length && (cursor + k) % length == p
  {
    var o, q := cursor % length, cursor / length;
    assert cursor == length * q + o;
    if p >= o {
      k := p - o;
      ModUnique(cursor + k, length, q, p);
    } else {
      k := length + p - o;
      assert length * (q + 1) == length * q + length;
      ModUnique(cursor + k, length, q + 1, p);
    }
  }

  /**
   Physically the two slices are disjoint and cover the memory: every byte `p` of it is behind exactly one position `k`
   of exactly one of them.
   */
  lemma SlicesPartitionMemory(b: Buffer, p: nat) returns (k: nat)
    requires Valid(b) && p < |b.memory|
    ensures k < |b.memory| && Place(b, k) == p
    ensures forall j: nat :: j < |b.memory| && Place(b, j) == p ==> j == k
  {
    k := DistanceTo(|b.memory|, b.head, p);
    PlaceIsCursor(b, k);
    forall j: nat | j < |b.memory| && j != k ensures Place(b, j) != p {
      PlaceIsCursor(b, j);
      if j < k {
        CursorsDiffer(|b.memory|, b.head + j, b.head + k);
      } else {
        CursorsDiffer(|b.memory|, b.head + k, b.head + j);
      }
    }
  }

  // ---------------------------------------------------------------------------------------------
  // The operations
  // ---------------------------------------------------------------------------------------------

  /** A write at index `i` of the slice of `len` bytes at a cursor. */
  function Write(b: Buffer, cursor: nat, len: nat, i: nat, value: byte): Stepped
    requires IsPow2(|b.memory|) && len <= |b.memory|
  {
    if i >= len then Stepped(b, false)
    else
      SliceIsMapped(|b.memory|, cursor, i);
      Stepped(b.(memory := b.memory[Physical(|b.memory|, P2Modulo(cursor, |b.memory|) + i) := value]), true)
  }

  /** `commit` asserts before it moves the tail, `consume` after it has moved the head; both additions wrap. */
  function Step(b: Buffer, op: Op): Stepped
    requires Valid(b)
  {
    match op
    case WriteData(i, value) => Write(b, b.head, DataLen(b), i, value)
    case WriteUninit(i, value) => Write(b, b.tail, UninitLen(b), i, value)
    case Commit(capacity) =>
      if capacity <= UninitLen(b) then Stepped(b.(tail := (b.tail + capacity) % USIZE_LIMIT), true)
      else Stepped(b, false)
    case Consume(capacity) =>
      var head := (b.head + capacity) % USIZE_LIMIT;
      Stepped(b.(head := head), head <= b.tail)
  }

  /** The least power of two that is at least both. */
  ghost predicate IsLeastPower(size: nat, length: nat, page: nat) {
    && IsPow2(size) && size >= length && size >= page
    && forall q: nat :: IsPow2(q) && q >= length && q >= page ==> q >= size
  }

  lemma SizeIsPow2(length: nat, page: nat)
    requires page > 0 && CalculateLength(length, page).Some?
    ensures IsPow2(CalculateLength(length, page).value) && CalculateLength(length, page).value >= length
  {
    TopBitIsPow2();
    DoubledIsLeast(1, NextMultiple(length, page).value);
  }

  /** Which lengths can be mapped twice in a row: those up to 2^62, and not 0 unless pages are single bytes. */
  lemma SizeIsMappedExactly(length: nat, page: nat)
    requires IsPow2(page) && page < USIZE_TOP_BIT
    ensures page > 0
    ensures (CalculateLength(length, page).Some? && CalculateLength(length, page).value < USIZE_TOP_BIT
             && CalculateLength(length, page).value % page == 0)
        <==> length <= USIZE_TOP_BIT / 2 && (length >= 1 || page == 1)
  {
    TopBitIsPow2();
    LargerPow2(page, USIZE_TOP_BIT);
    if length == 0 {
      WholePagesExactly(length, page);
    } else {
      CalculatesLeastPower(length, page);
      HalfTopBitIsPow2();
      if length <= USIZE_TOP_BIT / 2 {
        LargerPow2(page, USIZE_TOP_BIT);
        assert CalculateLength(length, page).value <= USIZE_TOP_BIT / 2;
      } else if length <= USIZE_TOP_BIT {
        LargerThanHalf(CalculateLength(length, page).value);
      }
    }
  }

  /** The mutable buffer of the source. */
  class State {
    const memory: array<byte>
    var head: nat
    var tail: nat

    ghost function Value(): Buffer
      reads this, memory
    {
      Buffer(memory[..], head, tail)
    }

    /** A buffer of `size` bytes, all zero. */
    constructor (size: nat)
      requires IsPow2(size)
      ensures fresh(memory) && memory.Length == size && Valid(Value())
      ensures Data(Value()) == [] && Uninit(Value()) == seq(size, i => 0)
    {
      P2ModuloIsModulo(0, size);
      memory := new byte[size](i => 0);
      head, tail := 0, 0;
      new;
      SliceAt(memory[..], 0, memory.Length);
    }

    /**
     `circular_buffer`. A file length has to fit a signed 64-bit number, and the second mapping, right behind the first,
     has to start at a page; otherwise the operating system refuses.
     */
    static method New(length: nat, page: nat) returns (r: Option<State>)
      requires IsPow2(page) && page < USIZE_TOP_BIT
      ensures r.None? <==> length > USIZE_TOP_BIT / 2 || (length == 0 && page > 1)
      ensures r.Some? ==>
        && fresh(r.value) && fresh(r.value.memory) && Valid(r.value.Value())
        && r.value.memory.Length >= length && r.value.memory.Length % page == 0
        && IsLeastPower(r.value.memory.Length, length, page)
        && Data(r.value.Value()) == [] && Uninit(r.value.Value()) == seq(r.value.memory.Length, i => 0)
    {
      SizeIsMappedExactly(length, page);
      var size := CalculateLength(length, page);
      if size.None? || size.value >= USIZE_TOP_BIT || size.value % page != 0 {
        return None;
      }
      SizeIsPow2(length, page);
      if length >= 1 {
        CalculatesLeastPower(length, page);
      } else {
        WholePagesExactly(length, page);
      }
      var state := new State(size.value);
      return Some(state);
    }

    method Consume(capacity: nat) returns (ok: bool)
      requires Valid(Value()) && capacity < USIZE_LIMIT
      modifies this`head
      ensures Stepped(Value(), ok) == Step(old(Value()), Op.Consume(capacity))
    {
      head := (head + capacity) % USIZE_LIMIT;
      return head <= tail;
    }

    method Commit(capacity: nat) returns (ok: bool)
      requires Valid(Value()) && capacity < USIZE_LIMIT
      modifies this`tail
      ensures Stepped(Value(), ok) == Step(old(Value()), Op.Commit(capacity))
    {
      if capacity > memory.Length - (tail - head) {
        return false;
      }
      tail := (tail + capacity) % USIZE_LIMIT;
      return true;
    }

    /** An assignment through `DerefMut` of `Data`. */
    method WriteData(i: nat, value: byte) returns (ok: bool)
      requires Valid(Value())
      modifies memory
      ensures Stepped(Value(), ok) == Step(old(Value()), Op.WriteData(i, value))
    {
      if i >= tail - head {
        return false;
      }
      SliceIsMapped(memory.Length, head, i);
      memory[Physical(memory.Length, P2Modulo(head, memory.Length) + i)] := value;
      return true;
    }

    /** An assignment through `DerefMut` of `Uninit`. */
    method WriteUninit(i: nat, value: byte) returns (ok: bool)
      requires Valid(Value())
      modifies memory
      ensures Stepped(Value(), ok) == Step(old(Value()), Op.WriteUninit(i, value))
    {
      if i >= memory.Length - (tail - head) {
        return false;
      }
      SliceIsMapped(memory.Length, tail, i);
      memory[Physical(memory.Length, P2Modulo(tail, memory.Length) + i)] := value;
      return true;
    }

    /** A read through `Deref` of `Data`. */
    method ReadData(i: nat) returns (value: Option<byte>)
      requires Valid(Value())
      ensures value == if i < |Data(Value())| then Some(Data(Value())[i]) else None
    {
      if i >= tail - head {
        return None;
      }
      SliceIsMapped(memory.Length, head, i);
      return Some(memory[Physical(memory.Length, P2Modulo(head, memory.Length) + i)]);
    }
  }

  // ---------------------------------------------------------------------------------------------
  // The byte queues it stands for
  // ---------------------------------------------------------------------------------------------

  /** The bytes that are there to be consumed, and the bytes that are free, oldest first in both. */
  datatype Queues = Queues(data: seq<byte>, free: seq<byte>)

  /** Committing moves bytes from the front of the free ones to the end of the data; consuming moves them back. */
  function QueueStep(q: Queues, op: Op): Option<Queues> {
    match op
    case WriteData(i, value) => if i < |q.data| then Some(q.(data := q.data[i := value])) else None
    case WriteUninit(i, value) => if i < |q.free| then Some(q.(free := q.free[i := value])) else None
    case Commit(c) => if c <= |q.free| then Some(Queues(q.data + q.free[..c], q.free[c..])) else None
    case Consume(c) => if c <= |q.data| then Some(Queues(q.data[c..], q.free + q.data[..c])) else None
  }

  ghost function Abstract(b: Buffer): Queues
    requires Valid(b)
  {
    Queues(Data(b), Uninit(b))
  }

  /** The operation does what the queues do: it panics where they refuse, and otherwise leads where they lead. */
  ghost predicate Refines(b: Buffer, op: Op)
    requires Valid(b)
  {
    var r := Step(b, op);
    match QueueStep(Abstract(b), op)
    case None => !r.ok
    case Some(q) => r.ok && Valid(r.buffer) && Abstract(r.buffer) == q
  }

  /** No cursor wraps around. */
  predicate NoWrap(b: Buffer, op: Op)
    requires b.head <= b.tail <= b.head + |b.memory|
  {
    match op
    case Commit(c) => c <= UninitLen(b) ==> b.tail + c < USIZE_LIMIT
    case Consume(c) => b.head + c < USIZE_LIMIT
    case _ => true
  }

  lemma WriteDataRefines(b: Buffer, i: nat, value: byte)
    requires Valid(b)
    ensures Refines(b, WriteData(i, value))
  {
    if i < DataLen(b) {
      WriteChangesOne(b, b.head, b.tail, i, value);
    }
  }

  lemma WriteUninitRefines(b: Buffer, i: nat, value: byte)
    requires Valid(b)
    ensures Refines(b, WriteUninit(i, value))
  {
    if i < UninitLen(b) {
      OtherWayRound(b);
      WriteChangesOne(b, b.tail, b.head + |b.memory|, i, value);
      OtherWayRound(b.(memory := b.memory[(b.tail + i) % |b.memory| := value]));
    }
  }

  /** The data may as well be read from where the uninitialised part ends. */
  lemma OtherWayRound(b: Buffer)
    requires Valid(b)
    ensures Data(b) == Slice(b.memory, b.head + |b.memory|, DataLen(b))
  {
    SliceAt(b.memory, b.head, DataLen(b));
    SliceAt(b.memory, b.head + |b.memory|, DataLen(b));
    forall i | 0 <= i < DataLen(b)
      ensures Data(b)[i] == Slice(b.memory, b.head + |b.memory|, DataLen(b))[i]
    {
      OnceRound(|b.memory|, b.head + i);
    }
  }

  /** Of two slices that together are the whole memory, a write to the first changes one byte, none of the second. */
  lemma WriteChangesOne(b: Buffer, first: nat, second: nat, i: nat, value: byte)
    requires IsPow2(|b.memory|) && first <= second <= first + |b.memory| && first + i < second
    ensures |b.memory| > 0
    ensures var len := second - first;
      var b' := b.(memory := b.memory[(first + i) % |b.memory| := value]);
      && Write(b, first, len, i, value) == Stepped(b', true)
      && Slice(b'.memory, first, len) == Slice(b.memory, first, len)[i := value]
      && Slice(b'.memory, second, |b.memory| - len) == Slice(b.memory, second, |b.memory| - len)
  {
    hide Slice, P2Modulo;
    var L, len := |b.memory|, second - first;
    SliceIsMapped(L, first, i);
    var changed := b.memory[(first + i) % L := value];
    SliceAt(b.memory, first, len);
    SliceAt(changed, first, len);
    forall j | 0 <= j < len ensures Slice(changed, first, len)[j] == Slice(b.memory, first, len)[i := value][j] {
      if j < i {
        CursorsDiffer(L, first + j, first + i);
      } else if i < j {
        CursorsDiffer(L, first + i, first + j);
      }
    }
    WriteSpares(b.memory, first + i, second, L - len, value);
  }

  lemma WriteSpares(memory: seq<byte>, cursor: nat, other: nat, len: nat, value: byte)
    requires IsPow2(|memory|) && cursor < other && other + len <= cursor + |memory|
    ensures |memory| > 0 && Slice(memory[cursor % |memory| := value], other, len) == Slice(memory, other, len)
  {
    hide Slice;
    var changed := memory[cursor % |memory| := value];
    SliceAt(memory, other, len);
    SliceAt(changed, other, len);
    forall j {:trigger Slice(changed, other, len)[j]} | 0 <= j < len
      ensures Slice(changed, other, len)[j] == Slice(memory, other, len)[j]
    {
      CursorsDiffer(|memory|, cursor, other + j);
    }
  }

  /** A slice is cut where a cursor is moved. */
  lemma SliceSplits(memory: seq<byte>, cursor: nat, a: nat, c: nat)
    requires IsPow2(|memory|) && a + c <= |memory|
    ensures Slice(memory, cursor, a + c) == Slice(memory, cursor, a) + Slice(memory, cursor + a, c)
  {
    SliceAt(memory, cursor, a + c);
    SliceAt(memory, cursor, a);
    SliceAt(memory, cursor + a, c);
  }

  lemma CommitMoves(b: Buffer, c: nat)
    requires Valid(b) && c <= UninitLen(b) && b.tail + c < USIZE_LIMIT
    ensures var b' := b.(tail := b.tail + c);
      Valid(b') && Data(b') == Data(b) + Uninit(b)[..c] && Uninit(b') == Uninit(b)[c..]
  {
    hide Slice;
    var u := UninitLen(b) - c;
    SliceSplits(b.memory, b.head, DataLen(b), c);
    SliceSplits(b.memory, b.tail, c, u);
    assert Uninit(b)[..c] == Slice(b.memory, b.tail, c) && Uninit(b)[c..] == Slice(b.memory, b.tail + c, u);
  }

  lemma CommitRefinesExactly(b: Buffer, c: nat)
    requires Valid(b) && c < USIZE_LIMIT
    ensures Refines(b, Commit(c)) <==> NoWrap(b, Commit(c))
  {
    hide Slice;
    if c <= UninitLen(b) && b.tail + c < USIZE_LIMIT {
      CommitMoves(b, c);
    }
  }

  lemma ConsumeMoves(b: Buffer, c: nat)
    requires Valid(b) && c <= DataLen(b)
    ensures var b' := b.(head := b.head + c);
      Valid(b') && Data(b') == Data(b)[c..] && Uninit(b') == Uninit(b) + Data(b)[..c]
  {
    hide Slice;
    var d := DataLen(b) - c;
    SliceSplits(b.memory, b.head, c, d);
    assert Data(b)[..c] == Slice(b.memory, b.head, c) && Data(b)[c..] == Slice(b.memory, b.head + c, d);
    OtherWayRound(b.(tail := b.head + c));
    SliceSplits(b.memory, b.tail, UninitLen(b), c);
  }

  lemma ConsumeRefinesExactly(b: Buffer, c: nat)
    requires Valid(b) && c < USIZE_LIMIT
    ensures Refines(b, Consume(c)) <==> NoWrap(b, Consume(c))
  {
    hide Slice;
    if c <= DataLen(b) {
      ConsumeMoves(b, c);
    }
  }

  /**
   Every operation does what the byte queues do if and only if it wraps no cursor. So a `consume` of more than there
   is panics exactly if the head does not wrap, and a `commit` may not take the tail past 2^64.
   */
  lemma StepRefinesExactly(b: Buffer, op: Op)
    requires Valid(b) && (op.Commit? || op.Consume? ==> op.capacity < USIZE_LIMIT)
    ensures Refines(b, op) <==> NoWrap(b, op)
  {
    match op {
      case WriteData(i, value) => WriteDataRefines(b, i, value);
      case WriteUninit(i, value) => WriteUninitRefines(b, i, value);
      case Commit(c) => CommitRefinesExactly(b, c);
      case Consume(c) => ConsumeRefinesExactly(b, c);
    }
  }

  /** An input for which the assertion in `consume` does not notice: the largest `usize` steps back by one. */
  lemma HugeConsumeGoesBack(b: Buffer)
    requires Valid(b) && b.head == b.tail == 1
    ensures var r := Step(b, Consume(USIZE_LIMIT - 1)); r.ok && r.buffer.head == 0 && DataLen(r.buffer) == 1
  {}

  // ---------------------------------------------------------------------------------------------
  // Runs
  // ---------------------------------------------------------------------------------------------

  function QueueRun(q: Queues, ops: seq<Op>): Option<Queues>
    decreases |ops|
  {
    if ops == [] then Some(q)
    else
      var r := QueueStep(q, ops[0]);
      if r.None? then None else QueueRun(r.value, ops[1..])
  }

  function CommittedBy(q: Queues, op: Op): seq<byte> {
    if op.Commit? && op.capacity <= |q.free| then q.free[..op.capacity] else []
  }

  function ConsumedBy(q: Queues, op: Op): seq<byte> {
    if op.Consume? && op.capacity <= |q.data| then q.data[..op.capacity] else []
  }

  /** The bytes that the run commits, in order. */
  function Committed(q: Queues, ops: seq<Op>): seq<byte>
    decreases |ops|
  {
    if ops == [] || QueueStep(q, ops[0]).None? then []
    else CommittedBy(q, ops[0]) + Committed(QueueStep(q, ops[0]).value, ops[1..])
  }

  /** The bytes that the run consumes, in order. */
  function Consumed(q: Queues, ops: seq<Op>): seq<byte>
    decreases |ops|
  {
    if ops == [] || QueueStep(q, ops[0]).None? then []
    else ConsumedBy(q, ops[0]) + Consumed(QueueStep(q, ops[0]).value, ops[1..])
  }

  function TotalCommitted(ops: seq<Op>): nat {
    if ops == [] then 0 else (if ops[0].Commit? then ops[0].capacity else 0) + TotalCommitted(ops[1..])
  }

  /** `b'` is what the operations make of `b`, none of them panicking. */
  ghost predicate RunsTo(b: Buffer, ops: seq<Op>, b': Buffer)
    requires Valid(b)
    decreases |ops|
  {
    if ops == [] then b' == b
    else
      var r := Step(b, ops[0]);
      r.ok && Valid(r.buffer) && RunsTo(r.buffer, ops[1..], b')
  }

  /**
   As long as fewer than 2^64 bytes are committed in all, every run that the byte queues allow is a run of the buffer,
   and its slices are the queues.
   */
  lemma {:induction false} RunRefines(b: Buffer, ops: seq<Op>) returns (b': Buffer)
    requires Valid(b) && QueueRun(Abstract(b), ops).Some? && b.tail + TotalCommitted(ops) < USIZE_LIMIT
    ensures RunsTo(b, ops, b') && Valid(b') && Abstract(b') == QueueRun(Abstract(b), ops).value
    ensures b'.tail == b.tail + TotalCommitted(ops)
    decreases |ops|
  {
    if ops == [] {
      b' := b;
    } else {
      var op, next := ops[0], Step(b, ops[0]).buffer;
      StepRefinesExactly(b, op);
      b' := RunRefines(next, ops[1..]);
    }
  }

  /** Data is exactly the committed bytes that have not been consumed, in order. */
  lemma {:induction false} QueueConserves(q: Queues, ops: seq<Op>)
    requires QueueRun(q, ops).Some? && forall op :: op in ops ==> !op.WriteData?
    ensures q.data + Committed(q, ops) == Consumed(q, ops) + QueueRun(q, ops).value.data
    ensures |QueueRun(q, ops).value.data| + |QueueRun(q, ops).value.free| == |q.data| + |q.free|
    decreases |ops|
  {
    hide QueueStep;
    if ops != [] {
      assert ops[0] in ops;
      var next, rest := QueueStep(q, ops[0]).value, ops[1..];
      StepConserves(q, ops[0]);
      QueueConserves(next, rest);
      Regroup(q.data, CommittedBy(q, ops[0]), ConsumedBy(q, ops[0]), next.data,
              Committed(next, rest), Consumed(next, rest), QueueRun(next, rest).value.data);
    }
  }

  lemma StepConserves(q: Queues, op: Op)
    requires QueueStep(q, op).Some? && !op.WriteData?
    ensures var next := QueueStep(q, op).value;
      && q.data + CommittedBy(q, op) == ConsumedBy(q, op) + next.data
      && |next.data| + |next.free| == |q.data| + |q.free|
  {}

  /** The same, said of the slices of the buffer. */
  lemma BytesComeOutInOrder(b: Buffer, ops: seq<Op>) returns (b': Buffer)
    requires Valid(b) && QueueRun(Abstract(b), ops).Some? && b.tail + TotalCommitted(ops) < USIZE_LIMIT
    requires forall op :: op in ops ==> !op.WriteData?
    ensures RunsTo(b, ops, b') && Valid(b')
    ensures Data(b) + Committed(Abstract(b), ops) == Consumed(Abstract(b), ops) + Data(b')
    ensures |Data(b')| + |Uninit(b')| == |b.memory|
  {
    b' := RunRefines(b, ops);
    QueueConserves(Abstract(b), ops);
  }
}
