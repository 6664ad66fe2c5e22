/** Byte readers with a position: `bytes.Reader` and an open file, as far as the program can tell them apart. */
module Readers {

  type byte = x: int | 0 <= x < 256

  /** The last two are extensions for files; `Invalid` stands for the values that nobody knows. */
  datatype Whence = FromStart | FromCurrent | FromEnd | ToData | ToHole | Invalid

  /** Where the operating system finds data (or a hole) from an offset on; negative where it refuses. */
  type Layout = (bool, int) -> int

  const NO_LAYOUT: Layout := (data, offset) => -1

  /** What a read or a seek reports. */
  datatype ReadResult = Data(bytes: seq<byte>) | EndOfFile | ReadClosed
  datatype SeekResult = At(position: nat) | SeekError | SeekClosed

  function Min(a: nat, b: nat): nat {
    if a < b then a else b
  }

  /** The position a seek asks for; none for an unknown `whence`. Negative ones are refused by both readers. */
  function Target(size: nat, pos: nat, offset: int, whence: Whence, layout: Layout): int {
    match whence
    case FromStart => offset
    case FromCurrent => pos + offset
    case FromEnd => size + offset
    case ToData => layout(true, offset)
    case ToHole => layout(false, offset)
    case Invalid => -1
  }

  function SeekTo(size: nat, pos: nat, offset: int, whence: Whence, layout: Layout): (r: (nat, SeekResult)) {
    var target := Target(size, pos, offset, whence, layout);
    if target < 0 then (pos, SeekError) else (target, At(target))
  }

  /** Reading `n` bytes at `pos` when at least one byte is there. */
  function Chunk(data: seq<byte>, pos: nat, n: nat): (r: seq<byte>)
    requires pos <= |data|
    ensures |r| == Min(n, |data| - pos) && r <= data[pos..]
  {
    data[pos..pos + Min(n, |data| - pos)]
  }

  /** A reader over a byte slice held in memory. */
  class BytesReader {
    const data: seq<byte>
    var pos: nat

    constructor (data: seq<byte>)
      ensures this.data == data && pos == 0
    {
      this.data := data;
      pos := 0;
    }

    /** At the end of the slice the answer is end-of-file, even for an empty buffer. */
    method Read(n: nat) returns (r: ReadResult)
      modifies this`pos
      ensures old(pos) >= |data| ==> r == EndOfFile && pos == old(pos)
      ensures old(pos) < |data| ==> r == Data(Chunk(data, old(pos), n)) && pos == old(pos) + |r.bytes|
    {
      if pos >= |data| {
        return EndOfFile;
      }
      r := Data(Chunk(data, pos, n));
      pos := pos + |r.bytes|;
    }

    method Seek(offset: int, whence: Whence) returns (r: SeekResult)
      modifies this`pos
      ensures (pos, r) == SeekTo(|data|, old(pos), offset, whence, NO_LAYOUT)
    {
      var target := Target(|data|, pos, offset, whence, NO_LAYOUT);
      if target < 0 {
        return SeekError;
      }
      pos := target;
      r := At(target);
    }
  }

  /** A file open for reading; its contents do not change while it is open. */
  class File {
    const data: seq<byte>
    const layout: Layout
    var pos: nat

    constructor (data: seq<byte>, layout: Layout)
      ensures this.data == data && this.layout == layout && pos == 0
    {
      this.data := data;
      this.layout := layout;
      pos := 0;
    }

    /** An empty buffer is filled without looking at the position. */
    method Read(n: nat) returns (r: ReadResult)
      modifies this`pos
      ensures n == 0 ==> r == Data([]) && pos == old(pos)
      ensures n > 0 && old(pos) >= |data| ==> r == EndOfFile && pos == old(pos)
      ensures n > 0 && old(pos) < |data| ==> r == Data(Chunk(data, old(pos), n)) && pos == old(pos) + |r.bytes|
    {
      if n == 0 {
        return Data([]);
      }
      if pos >= |data| {
        return EndOfFile;
      }
      r := Data(Chunk(data, pos, n));
      pos := pos + |r.bytes|;
    }

    method Seek(offset: int, whence: Whence) returns (r: SeekResult)
      modifies this`pos
      ensures (pos, r) == SeekTo(|data|, old(pos), offset, whence, layout)
    {
      var target := Target(|data|, pos, offset, whence, layout);
      if target < 0 {
        return SeekError;
      }
      pos := target;
      r := At(target);
    }
  }
}
