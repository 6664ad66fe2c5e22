/** Request bodies kept in memory or in a file: two implementations of one interface. */
module BodyStorage {
  import opened Readers

  datatype Op = Read(n: nat) | Seek(offset: int, whence: Whence) | GetBytes | GetSize | Close

  datatype BytesResult = Contents(data: seq<byte>) | BytesClosed

  datatype Reply = ReadReply(read: ReadResult) | SeekReply(seek: SeekResult) | BytesReply(bytes: BytesResult)
                 | SizeReply(size: nat) | Done

  /** What an observer can find out about a storage. */
  datatype View = View(data: seq<byte>, pos: nat, closed: bool)

  function ReadAt(v: View, n: nat): (View, Reply)
    requires v.pos < |v.data|
  {
    (v.(pos := v.pos + Min(n, |v.data| - v.pos)), ReadReply(Data(Chunk(v.data, v.pos, n))))
  }

  function MemoryStep(v: View, op: Op): (View, Reply) {
    match op
    case Read(n) =>
      if v.closed then (v, ReadReply(ReadClosed))
      else if v.pos >= |v.data| then (v, ReadReply(EndOfFile))
      else ReadAt(v, n)
    case Seek(offset, whence) =>
      if v.closed then (v, SeekReply(SeekClosed))
      else var (pos, r) := SeekTo(|v.data|, v.pos, offset, whence, NO_LAYOUT); (v.(pos := pos), SeekReply(r))
    case GetBytes => (v, BytesReply(if v.closed then BytesClosed else Contents(v.data)))
    case GetSize => (v, SizeReply(|v.data|))
    case Close => (v.(closed := true), Done)
  }

  /** A file answers an empty read before it looks for the end, and it may know more ways to seek. */
  function DiskStep(v: View, op: Op, layout: Layout): (View, Reply) {
    if op.Read? && op.n == 0 && !v.closed then (v, ReadReply(Data([])))
    else if op.Seek? && !v.closed then
      var (pos, r) := SeekTo(|v.data|, v.pos, op.offset, op.whence, layout); (v.(pos := pos), SeekReply(r))
    else MemoryStep(v, op)
  }

  /** The body held in memory. */
  class MemoryStorage {
    const data: seq<byte>
    const reader: BytesReader
    const size: nat
    var closed: bool

    ghost predicate Valid()
      reads this
    {
      reader.data == data && size == |data|
    }

    ghost function Observed(): View
      reads this, reader
    {
      View(data, reader.pos, closed)
    }

    constructor (data: seq<byte>)
      ensures Valid() && fresh(reader) && Observed() == View(data, 0, false)
    {
      this.data := data;
      this.size := |data|;
      this.closed := false;
      this.reader := new BytesReader(data);
    }

    method Read(n: nat) returns (r: ReadResult)
      requires Valid()
      modifies reader
      ensures Valid() && (Observed(), ReadReply(r)) == MemoryStep(old(Observed()), Op.Read(n))
    {
      if closed {
        return ReadClosed;
      }
      r := reader.Read(n);
    }

    method Seek(offset: int, whence: Whence) returns (r: SeekResult)
      requires Valid()
      modifies reader
      ensures Valid() && (Observed(), SeekReply(r)) == MemoryStep(old(Observed()), Op.Seek(offset, whence))
    {
      if closed {
        return SeekClosed;
      }
      r := reader.Seek(offset, whence);
    }

    method Bytes() returns (r: BytesResult)
      requires Valid()
      ensures (Observed(), BytesReply(r)) == MemoryStep(Observed(), GetBytes)
    {
      if closed {
        return BytesClosed;
      }
      return Contents(data);
    }

    method Size() returns (r: nat)
      requires Valid()
      ensures (Observed(), SizeReply(r)) == MemoryStep(Observed(), GetSize)
    {
      return size;
    }

    method Close()
      requires Valid()
      modifies this`closed
      ensures Valid() && (Observed(), Done) == MemoryStep(old(Observed()), Op.Close)
    {
      if !closed {
        closed := true;
      }
    }
  }

  /** The body held in a file. */
  class DiskStorage {
    const file: File
    const size: nat
    var closed: bool

    ghost predicate Valid()
      reads this
    {
      size == |file.data|
    }

    ghost function Observed(): View
      reads this, file
    {
      View(file.data, file.pos, closed)
    }

    constructor (data: seq<byte>, layout: Layout)
      ensures Valid() && fresh(file) && Observed() == View(data, 0, false) && file.layout == layout
    {
      this.size := |data|;
      this.closed := false;
      this.file := new File(data, layout);
    }

    method Read(n: nat) returns (r: ReadResult)
      requires Valid()
      modifies file
      ensures Valid() && (Observed(), ReadReply(r)) == DiskStep(old(Observed()), Op.Read(n), file.layout)
    {
      if closed {
        return ReadClosed;
      }
      r := file.Read(n);
    }

    method Seek(offset: int, whence: Whence) returns (r: SeekResult)
      requires Valid()
      modifies file
      ensures Valid() && (Observed(), SeekReply(r)) == DiskStep(old(Observed()), Op.Seek(offset, whence), file.layout)
    {
      if closed {
        return SeekClosed;
      }
      r := file.Seek(offset, whence);
    }

    /** Reads the whole file from its start and puts the position back. */
    method Bytes() returns (r: BytesResult)
      requires Valid()
      modifies file
      ensures Valid() && (Observed(), BytesReply(r)) == DiskStep(old(Observed()), GetBytes, file.layout)
    {
      if closed {
        return BytesClosed;
      }
      var current := file.Seek(0, FromCurrent);
      var _ := file.Seek(0, FromStart);
      var data: seq<byte> := [];
      if size > 0 {
        var all := file.Read(size);
        data := all.bytes;
      }
      assert data == file.data;
      var _ := file.Seek(current.position, FromStart);
      return Contents(data);
    }

    method Size() returns (r: nat)
      requires Valid()
      ensures (Observed(), SizeReply(r)) == DiskStep(Observed(), GetSize, file.layout)
    {
      return size;
    }

    method Close()
      requires Valid()
      modifies this`closed
      ensures Valid() && (Observed(), Done) == DiskStep(old(Observed()), Op.Close, file.layout)
    {
      if !closed {
        closed := true;
      }
    }
  }

  // ----- observational equivalence -----

  function MemoryReplies(v: View, ops: seq<Op>): seq<Reply>
    decreases |ops|
  {
    if ops == [] then []
    else var (next, reply) := MemoryStep(v, ops[0]); [reply] + MemoryReplies(next, ops[1..])
  }

  function DiskReplies(v: View, ops: seq<Op>, layout: Layout): seq<Reply>
    decreases |ops|
  {
    if ops == [] then []
    else var (next, reply) := DiskStep(v, ops[0], layout); [reply] + DiskReplies(next, ops[1..], layout)
  }

  /** An open storage is asked to read into an empty buffer at or behind the end, or to seek in a way that only
      its file can. */
  predicate TellsApart(v: View, op: Op, layout: Layout) {
    && !v.closed
    && match op
       case Read(n) => n == 0 && v.pos >= |v.data|
       case Seek(offset, whence) => (whence == ToData || whence == ToHole) && layout(whence == ToData, offset) >= 0
       case _ => false
  }

  /** Somewhere in the sequence there is such an operation. */
  predicate ToldApart(v: View, ops: seq<Op>, layout: Layout)
    decreases |ops|
  {
    ops != [] && (TellsApart(v, ops[0], layout) || ToldApart(MemoryStep(v, ops[0]).0, ops[1..], layout))
  }

  lemma StepsDiffer(v: View, op: Op, layout: Layout)
    ensures if TellsApart(v, op, layout) then DiskStep(v, op, layout).1 != MemoryStep(v, op).1
            else DiskStep(v, op, layout) == MemoryStep(v, op)
  {
  }

  /** The two storages answer a sequence of operations alike, if and only if no such operation is in it. */
  lemma {:induction false} SameReplies(v: View, ops: seq<Op>, layout: Layout)
    ensures MemoryReplies(v, ops) == DiskReplies(v, ops, layout) <==> !ToldApart(v, ops, layout)
    decreases |ops|
  {
    if ops != [] {
      StepsDiffer(v, ops[0], layout);
      var (next, reply) := MemoryStep(v, ops[0]);
      var (diskNext, diskReply) := DiskStep(v, ops[0], layout);
      var m, d := MemoryReplies(next, ops[1..]), DiskReplies(diskNext, ops[1..], layout);
      assert ([reply] + m)[0] == reply && ([diskReply] + d)[0] == diskReply;
      assert ([reply] + m)[1..] == m && ([diskReply] + d)[1..] == d;
      hide MemoryStep, DiskStep, TellsApart;
      SameReplies(next, ops[1..], layout);
    }
  }

  /** Buffers are not empty, and seeks are of the three standard kinds or of no kind at all. */
  predicate Standard(op: Op) {
    (op.Read? ==> op.n > 0) && (op.Seek? ==> op.whence != ToData && op.whence != ToHole)
  }

  lemma {:induction false} StandardUseIsAlike(v: View, ops: seq<Op>, layout: Layout)
    requires forall i | 0 <= i < |ops| :: Standard(ops[i])
    ensures !ToldApart(v, ops, layout) && MemoryReplies(v, ops) == DiskReplies(v, ops, layout)
    decreases |ops|
  {
    SameReplies(v, ops, layout);
    if ops != [] {
      assert Standard(ops[0]);
      hide MemoryStep, MemoryReplies, DiskReplies;
      StandardUseIsAlike(MemoryStep(v, ops[0]).0, ops[1..], layout);
    }
  }

  function After(v: View, ops: seq<Op>, layout: Layout): View
    decreases |ops|
  {
    if ops == [] then v else After(DiskStep(v, ops[0], layout).0, ops[1..], layout)
  }

  /** Leaving out the calls that fetch all bytes or the size. */
  function WithoutQueries(ops: seq<Op>): seq<Op> {
    if ops == [] then []
    else if ops[0].GetBytes? || ops[0].GetSize? then WithoutQueries(ops[1..])
    else [ops[0]] + WithoutQueries(ops[1..])
  }

  /** Fetching all bytes never moves the read position, wherever in a sequence it happens. */
  lemma {:induction false} QueriesDoNotMove(v: View, ops: seq<Op>, layout: Layout)
    ensures After(v, ops, layout) == After(v, WithoutQueries(ops), layout)
    decreases |ops|
  {
    if ops != [] {
      QueriesDoNotMove(DiskStep(v, ops[0], layout).0, ops[1..], layout);
      var rest := WithoutQueries(ops[1..]);
      assert ([ops[0]] + rest)[1..] == rest;
    }
  }

  function Payload(reply: Reply): seq<byte> {
    if reply.ReadReply? && reply.read.Data? then reply.read.bytes else []
  }

  /** The bytes that a sequence of operations delivers, in order. */
  function Delivered(v: View, ops: seq<Op>, layout: Layout): seq<byte>
    decreases |ops|
  {
    if ops == [] then []
    else var (next, reply) := DiskStep(v, ops[0], layout); Payload(reply) + Delivered(next, ops[1..], layout)
  }

  lemma ReadDelivers(v: View, n: nat, layout: Layout)
    requires !v.closed && v.pos <= |v.data|
    ensures var (next, reply) := DiskStep(v, Op.Read(n), layout);
            && next == v.(pos := next.pos) && v.pos <= next.pos <= |v.data|
            && Payload(reply) == v.data[v.pos..next.pos]
  {
  }

  lemma SliceJoin(data: seq<byte>, a: nat, b: nat, c: nat)
    requires a <= b <= c <= |data|
    ensures data[a..b] + data[b..c] == data[a..c]
  {
  }

  /** Reads in a row deliver the body from the position on, without gaps or repeats. */
  lemma {:induction false} ReadsDeliverInOrder(v: View, ops: seq<Op>, layout: Layout)
    requires !v.closed && v.pos <= |v.data| && forall i | 0 <= i < |ops| :: ops[i].Read?
    ensures v.pos <= After(v, ops, layout).pos <= |v.data|
    ensures Delivered(v, ops, layout) == v.data[v.pos..After(v, ops, layout).pos]
    decreases |ops|
  {
    hide DiskStep, Payload;
    if ops != [] {
      var n := ops[0].n;
      assert ops[0] == Op.Read(n);
      ReadDelivers(v, n, layout);
      var rest := ops[1..];
      var next := DiskStep(v, ops[0], layout).0;
      ReadsDeliverInOrder(next, rest, layout);
      SliceJoin(v.data, v.pos, next.pos, After(next, rest, layout).pos);
    }
  }

  // ----- seeking -----

  /** A position can be reached from the start, from where the reader is and from the end alike; one before the start
      is refused and moves nothing, and so is a kind of seek that nobody knows. */
  lemma SeekReaches(v: View, k: int, layout: Layout)
    requires !v.closed
    ensures forall whence, offset |
              || (whence == FromStart && offset == k) || (whence == FromCurrent && offset == k - v.pos)
              || (whence == FromEnd && offset == k - |v.data|) ::
              MemoryStep(v, Seek(offset, whence)) == DiskStep(v, Seek(offset, whence), layout)
              == if k >= 0 then (v.(pos := k), SeekReply(At(k))) else (v, SeekReply(SeekError))
    ensures MemoryStep(v, Seek(k, Invalid)) == DiskStep(v, Seek(k, Invalid), layout) == (v, SeekReply(SeekError))
  {
  }

  /** What is read from there: the rest of the body, as much as the buffer holds. */
  lemma ReadsFromThere(v: View, k: nat, n: nat)
    requires !v.closed && n > 0
    ensures var reply := MemoryStep(MemoryStep(v, Seek(k, FromStart)).0, Op.Read(n)).1;
            reply == ReadReply(if k >= |v.data| then EndOfFile
                               else if k + n <= |v.data| then Data(v.data[k..k + n]) else Data(v.data[k..]))
  {
    var at := MemoryStep(v, Seek(k, FromStart)).0;
    assert at == v.(pos := k);
    if k < |v.data| {
      assert v.data[k..] == v.data[k..|v.data|];
      assert MemoryStep(at, Op.Read(n)) == ReadAt(at, n);
    }
  }

  /** The whole body and its size are told at any position; a closed storage tells only its size. */
  lemma QueriesAnswer(v: View, layout: Layout)
    ensures DiskStep(v, GetBytes, layout) == MemoryStep(v, GetBytes)
         == (v, BytesReply(if v.closed then BytesClosed else Contents(v.data)))
    ensures DiskStep(v, GetSize, layout) == MemoryStep(v, GetSize) == (v, SizeReply(|v.data|))
    ensures DiskStep(v, Op.Close, layout) == MemoryStep(v, Op.Close) == (v.(closed := true), Done)
  {
  }

  lemma ClosedAnswers(v: View, n: nat, offset: int, whence: Whence, layout: Layout)
    requires v.closed
    ensures DiskStep(v, Op.Read(n), layout) == MemoryStep(v, Op.Read(n)) == (v, ReadReply(ReadClosed))
    ensures DiskStep(v, Seek(offset, whence), layout) == MemoryStep(v, Seek(offset, whence))
         == (v, SeekReply(SeekClosed))
  {
  }
}
