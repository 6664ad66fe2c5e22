/** The Ogg page scan that measures an Opus file. Page layout as in section 6 of RFC 3533;
    a granule position of -1 marks a page on which no packet ends. */
module OggScan {
  import opened Readers

  /** "OggS" */
  const CAPTURE: seq<byte> := [79, 103, 103, 83]
  const HEADER := 27
  const TWO_63 := 0x8000_0000_0000_0000
  const TWO_64 := 0x1_0000_0000_0000_0000

  function FromLittleEndian(s: seq<byte>): nat {
    if s == [] then 0 else s[0] + 256 * FromLittleEndian(s[1..])
  }

  function ToLittleEndian(v: nat, n: nat): (r: seq<byte>)
    ensures |r| == n
  {
    if n == 0 then [] else [v % 256] + ToLittleEndian(v / 256, n - 1)
  }

  /** The signed reading of an unsigned 64-bit value. */
  function Signed(u: nat): int {
    if u < TWO_63 then u else u - TWO_64
  }

  function Unsigned(i: int): int {
    if i >= 0 then i else i + TWO_64
  }

  function Sum(s: seq<byte>): nat {
    if s == [] then 0 else s[0] + Sum(s[1..])
  }

  predicate CaptureAt(data: seq<byte>, p: nat) {
    p + 4 <= |data| && data[p..p + 4] == CAPTURE
  }

  /** A whole page header with the capture pattern lies at `p`. */
  predicate HeaderAt(data: seq<byte>, p: nat) {
    p + HEADER <= |data| && CaptureAt(data, p)
  }

  function Granule(data: seq<byte>, p: nat): int
    requires HeaderAt(data, p)
  {
    Signed(FromLittleEndian(data[p + 6..p + 14]))
  }

  function TableEnd(data: seq<byte>, p: nat): (r: nat)
    requires HeaderAt(data, p)
    ensures r >= p + HEADER
  {
    p + HEADER + data[p + 26]
  }

  predicate Truncated(data: seq<byte>, p: nat)
    requires HeaderAt(data, p)
  {
    TableEnd(data, p) > |data|
  }

  function PageEnd(data: seq<byte>, p: nat): (r: nat)
    requires HeaderAt(data, p) && !Truncated(data, p)
    ensures r >= p + HEADER
  {
    TableEnd(data, p) + Sum(data[p + HEADER..TableEnd(data, p)])
  }

  /** The headers the scan reads from `pos` on, in order. */
  function Visits(data: seq<byte>, pos: nat): (r: seq<nat>)
    ensures forall p | p in r :: p >= pos && HeaderAt(data, p)
    decreases |data| - pos
  {
    if pos + HEADER > |data| then []
    else if !CaptureAt(data, pos) then Visits(data, pos + 1)
    else if Truncated(data, pos) then [pos]
    else [pos] + Visits(data, PageEnd(data, pos))
  }

  /** `total` is the largest granule position on the given pages, or 0 when none is positive. */
  ghost predicate IsLargestGranule(data: seq<byte>, pages: seq<nat>, total: int)
    requires forall p | p in pages :: HeaderAt(data, p)
  {
    && total >= 0
    && (forall p | p in pages :: Granule(data, p) <= total)
    && (total == 0 || exists p | p in pages :: Granule(data, p) == total)
  }

  /** The running maximum over the pages still to come. */
  function RunningMax(data: seq<byte>, pages: seq<nat>, sofar: int): int
    requires forall p | p in pages :: HeaderAt(data, p)
  {
    if pages == [] then sofar
    else
      var granule := Granule(data, pages[0]);
      RunningMax(data, pages[1..], if granule > sofar then granule else sofar)
  }

  lemma {:induction false} RunningMaxIsLargest(data: seq<byte>, pages: seq<nat>, sofar: int)
    requires forall p | p in pages :: HeaderAt(data, p)
    ensures var r := RunningMax(data, pages, sofar);
            && r >= sofar
            && (forall p | p in pages :: Granule(data, p) <= r)
            && (r == sofar || exists p | p in pages :: Granule(data, p) == r)
  {
    if pages != [] {
      var granule := Granule(data, pages[0]);
      var next := if granule > sofar then granule else sofar;
      RunningMaxIsLargest(data, pages[1..], next);
      assert pages == [pages[0]] + pages[1..] && pages[0] in pages;
    }
  }

  /** Reads exactly `n` bytes, or reports failure with the reader wherever it stopped. */
  method ReadFull(r: BytesReader, n: nat) returns (ok: bool, bytes: seq<byte>)
    modifies r
    ensures ok <==> n == 0 || old(r.pos) + n <= |r.data|
    ensures ok ==> r.pos == old(r.pos) + n
    ensures ok && n > 0 ==> bytes == r.data[old(r.pos)..r.pos]
    ensures n == 0 ==> bytes == []
  {
    if n == 0 {
      return true, [];
    }
    var chunk := r.Read(n);
    if chunk.EndOfFile? {
      return false, [];
    }
    return |chunk.bytes| == n, chunk.bytes;
  }

  /** Reads the segment table and seeks past the payload it describes. */
  method SkipPayload(r: BytesReader, numSegments: nat, ghost start: nat) returns (ok: bool)
    requires HeaderAt(r.data, start) && r.pos == start + HEADER && numSegments == r.data[start + 26]
    modifies r
    ensures ok <==> !Truncated(r.data, start)
    ensures ok ==> r.pos == PageEnd(r.data, start)
  {
    var segmentTable;
    ok, segmentTable := ReadFull(r, numSegments);
    if ok {
      assert segmentTable == r.data[start + HEADER..TableEnd(r.data, start)];
      var pageSize := PayloadSize(segmentTable);
      var _ := r.Seek(pageSize, FromCurrent);
    }
  }

  /** The scan loop over a reader: the largest granule position, before the division by 48000. */
  method GetOpusGranules(r: BytesReader) returns (totalGranulePos: int)
    modifies r
    ensures IsLargestGranule(r.data, Visits(r.data, 0), totalGranulePos)
  {
    var data := r.data;
    var _ := r.Seek(0, FromStart);
    totalGranulePos := 0;
    while true
      invariant RunningMax(data, Visits(data, 0), 0) == RunningMax(data, Visits(data, r.pos), totalGranulePos)
      decreases |data| - r.pos
    {
      ghost var start := r.pos;
      var header := r.Read(HEADER);
      if header.EndOfFile? || |header.bytes| < HEADER {
        assert Visits(data, start) == [];
        break;
      }
      var buf := header.bytes;
      HeaderSlices(data, start, buf);
      if buf[..4] != CAPTURE {
        var _ := r.Seek(-26, FromCurrent);
        continue;
      }
      ghost var sofar := totalGranulePos;
      var granulePos := Signed(FromLittleEndian(buf[6..14]));
      if granulePos > totalGranulePos {
        totalGranulePos := granulePos;
      }
      var ok := SkipPayload(r, buf[26], start);
      VisitUnfolds(data, start, sofar);
      if !ok {
        break;
      }
    }
    assert totalGranulePos == RunningMax(data, Visits(data, 0), 0);
    RunningMaxIsLargest(data, Visits(data, 0), 0);
  }

  lemma VisitUnfolds(data: seq<byte>, p: nat, sofar: int)
    requires HeaderAt(data, p)
    ensures RunningMax(data, Visits(data, p), sofar)
         == var total := if Granule(data, p) > sofar then Granule(data, p) else sofar;
            if Truncated(data, p) then total else RunningMax(data, Visits(data, PageEnd(data, p)), total)
  {
    if !Truncated(data, p) {
      var rest := Visits(data, PageEnd(data, p));
      assert Visits(data, p) == [p] + rest && ([p] + rest)[1..] == rest;
    }
  }

  lemma HeaderSlices(data: seq<byte>, p: nat, buf: seq<byte>)
    requires p + HEADER <= |data| && buf == data[p..p + HEADER]
    ensures buf[..4] == data[p..p + 4]
    ensures buf[6..14] == data[p + 6..p + 14]
    ensures buf[26] == data[p + 26]
  {
    assert forall i | 6 <= i < 14 :: buf[i] == data[p + i];
    assert forall i | 0 <= i < 8 :: buf[6..14][i] == data[p + 6..p + 14][i];
  }

  lemma {:induction false} SumOfConcat(a: seq<byte>, b: seq<byte>)
    ensures Sum(a + b) == Sum(a) + Sum(b)
  {
    if a == [] {
      assert a + b == b;
    } else {
      SumOfConcat(a[1..], b);
      assert (a + b)[1..] == a[1..] + b;
    }
  }

  method PayloadSize(segmentTable: seq<byte>) returns (pageSize: nat)
    ensures pageSize == Sum(segmentTable)
  {
    pageSize := 0;
    for i := 0 to |segmentTable|
      invariant pageSize == Sum(segmentTable[..i])
    {
      assert segmentTable[..i + 1] == segmentTable[..i] + [segmentTable[i]];
      SumOfConcat(segmentTable[..i], [segmentTable[i]]);
      pageSize := pageSize + segmentTable[i];
    }
    assert segmentTable[..|segmentTable|] == segmentTable;
  }

  // ----- what is visited, on every input -----

  /** `q` hides every later position up to its end; a page cut off in its segment table hides all. */
  ghost predicate Hides(data: seq<byte>, q: nat, p: nat)
    requires HeaderAt(data, q)
  {
    q < p && (Truncated(data, q) || p < PageEnd(data, q))
  }

  /** The visited headers are exactly those that no visited header hides. */
  lemma {:induction false} VisitedExactly(data: seq<byte>, pos: nat, p: nat)
    requires p >= pos
    ensures p in Visits(data, pos)
       <==> HeaderAt(data, p) && !exists q | q in Visits(data, pos) :: Hides(data, q, p)
    decreases |data| - pos
  {
    if pos + HEADER > |data| {
    } else if !CaptureAt(data, pos) {
      if p > pos {
        VisitedExactly(data, pos + 1, p);
      }
    } else if Truncated(data, pos) {
      if p > pos {
        assert pos in Visits(data, pos) && Hides(data, pos, p);
      }
    } else {
      var end := PageEnd(data, pos);
      var rest := Visits(data, end);
      assert Visits(data, pos) == [pos] + rest;
      if p >= end {
        VisitedExactly(data, end, p);
        assert !Hides(data, pos, p);
        assert forall q | q in rest :: q in Visits(data, pos);
      } else if p > pos {
        assert pos in Visits(data, pos) && Hides(data, pos, p);
      }
    }
  }

  // ----- streams of pages separated by junk -----

  datatype Page = Page(flags: seq<byte>, granule: int, serials: seq<byte>, table: seq<byte>, payload: seq<byte>)
  {
    ghost predicate WellFormed() {
      && |flags| == 2 && |serials| == 12
      && -TWO_63 <= granule < TWO_63
      && |table| < 256 && |payload| == Sum(table)
    }

    /** Everything before the segment table. */
    function Header(): (r: seq<byte>)
      requires WellFormed()
      ensures |r| == HEADER && r[26] == |table|
    {
      CAPTURE + flags + ToLittleEndian(Unsigned(granule), 8) + serials + [|table|]
    }

    function Bytes(): (r: seq<byte>)
      requires WellFormed()
      ensures |r| == HEADER + |table| + |payload|
    {
      Header() + table + payload
    }
  }

  /** Junk, in which no capture pattern occurs, and the page that follows it. */
  datatype Segment = Segment(junk: seq<byte>, page: Page)

  ghost predicate NoCapture(junk: seq<byte>) {
    forall i: nat :: !CaptureAt(junk, i)
  }

  ghost predicate WellFormed(segments: seq<Segment>) {
    forall s | s in segments :: NoCapture(s.junk) && s.page.WellFormed()
  }

  function Stream(segments: seq<Segment>, tail: seq<byte>): seq<byte>
    requires WellFormed(segments)
  {
    if segments == [] then tail
    else segments[0].junk + segments[0].page.Bytes() + Stream(segments[1..], tail)
  }

  /** Where the pages of a stream that begins at `base` start. */
  function Offsets(segments: seq<Segment>, base: nat): seq<nat>
    requires WellFormed(segments)
  {
    if segments == [] then []
    else
      var at := base + |segments[0].junk|;
      [at] + Offsets(segments[1..], at + |segments[0].page.Bytes()|)
  }

  lemma {:induction false} LittleEndianRoundTrip(v: nat, n: nat, bound: nat)
    requires bound == Power256(n) && v < bound
    ensures FromLittleEndian(ToLittleEndian(v, n)) == v
  {
    if n > 0 {
      assert v / 256 < Power256(n - 1);
      LittleEndianRoundTrip(v / 256, n - 1, Power256(n - 1));
      assert ToLittleEndian(v, n)[1..] == ToLittleEndian(v / 256, n - 1);
    }
  }

  function Power256(n: nat): nat {
    if n == 0 then 1 else 256 * Power256(n - 1)
  }

  /** The granule position survives being written as 8 bytes and read back signed. */
  lemma GranuleRoundTrip(granule: int)
    requires -TWO_63 <= granule < TWO_63
    ensures Signed(FromLittleEndian(ToLittleEndian(Unsigned(granule), 8))) == granule
  {
    assert Power256(8) == TWO_64 by {
      assert Power256(4) == 0x1_0000_0000;
      assert Power256(6) == 65536 * Power256(4);
      assert Power256(8) == 65536 * Power256(6);
    }
    LittleEndianRoundTrip(Unsigned(granule), 8, TWO_64);
  }

  /** `page` is what the scan reads at `p`: its header, its granule position and its extent. */
  ghost predicate PageAt(data: seq<byte>, p: nat, page: Page)
    requires page.WellFormed()
  {
    && p <= |data| && HeaderAt(data, p) && !Truncated(data, p)
    && Granule(data, p) == page.granule
    && PageEnd(data, p) == p + |page.Bytes()|
  }

  /** A page written at `p` is read back. */
  lemma PageReadsBack(data: seq<byte>, p: nat, page: Page)
    requires page.WellFormed()
    requires p + |page.Bytes()| <= |data| && data[p..p + |page.Bytes()|] == page.Bytes()
    ensures PageAt(data, p, page)
  {
    var bytes := page.Bytes();
    assert forall i | 0 <= i < |bytes| :: data[p + i] == bytes[i];
    HeaderFields(page);
    assert data[p..p + 4] == bytes[..4];
    assert data[p + 26] == bytes[26];
    assert data[p + 6..p + 14] == bytes[6..14];
    GranuleRoundTrip(page.granule);
    assert data[p + HEADER..p + HEADER + |page.table|] == bytes[HEADER..HEADER + |page.table|];
  }

  /** Where the fields of a page are. */
  lemma HeaderFields(page: Page)
    requires page.WellFormed()
    ensures var bytes := page.Bytes();
            && bytes[..4] == CAPTURE
            && bytes[6..14] == ToLittleEndian(Unsigned(page.granule), 8)
            && bytes[26] == |page.table|
            && bytes[HEADER..HEADER + |page.table|] == page.table
  {
    var bytes := page.Bytes();
    var granule := ToLittleEndian(Unsigned(page.granule), 8);
    var front := CAPTURE + page.flags;
    var back := page.serials + [|page.table|] + page.table + page.payload;
    assert bytes == front + granule + back;
    assert (front + granule + back)[6..14] == granule;
    assert front[..4] == CAPTURE && bytes[..4] == front[..4];
    assert bytes == page.Header() + page.table + page.payload;
  }

  /** The capture pattern has no border, so none begins in junk and ends in the page behind it. */
  lemma NoStraddle(data: seq<byte>, i: nat, p: nat)
    requires i < p < i + 4 && CaptureAt(data, p)
    ensures !CaptureAt(data, i)
  {
    assert data[p] == data[p..p + 4][0] == 79;
    assert data[i..i + 4][p - i] == 79 && CAPTURE[p - i] != 79;
  }

  lemma {:induction false} SkipJunk(data: seq<byte>, pos: nat, p: nat)
    requires pos <= p <= |data|
    requires forall i: nat | pos <= i < p :: !HeaderAt(data, i)
    ensures Visits(data, pos) == Visits(data, p)
    decreases p - pos
  {
    if pos < p {
      assert !HeaderAt(data, pos);
      SkipJunk(data, pos + 1, p);
    }
  }

  lemma Layout(data: seq<byte>, before: seq<byte>, junk: seq<byte>, page: seq<byte>, rest: seq<byte>)
    requires data == before + (junk + page + rest)
    ensures data == before + junk + page + rest
    ensures data[..|before| + |junk|] == before + junk
    ensures data[|before| + |junk|..|before| + |junk| + |page|] == page
  {
    assert data == before + junk + page + rest;
  }

  /** No capture pattern begins in `data[a..b]`. */
  ghost predicate NoCaptureIn(data: seq<byte>, a: nat, b: nat) {
    forall i: nat | a <= i < b :: !CaptureAt(data, i)
  }

  lemma JunkHasNoCapture(data: seq<byte>, before: seq<byte>, junk: seq<byte>)
    requires NoCapture(junk) && |before| + |junk| <= |data| && data[..|before| + |junk|] == before + junk
    requires CaptureAt(data, |before| + |junk|)
    ensures NoCaptureIn(data, |before|, |before| + |junk|)
  {
    forall i: nat | |before| <= i < |before| + |junk| ensures !CaptureAt(data, i) {
      JunkIsSkipped(data, before, junk, i);
    }
  }

  lemma PageBehindJunk(data: seq<byte>, before: seq<byte>, junk: seq<byte>, page: Page, rest: seq<byte>)
    requires NoCapture(junk) && page.WellFormed() && data == before + (junk + page.Bytes() + rest)
    ensures data == before + junk + page.Bytes() + rest
    ensures PageAt(data, |before| + |junk|, page) && NoCaptureIn(data, |before|, |before| + |junk|)
  {
    Layout(data, before, junk, page.Bytes(), rest);
    hide Granule, Truncated, PageEnd, CaptureAt, NoCapture, NoCaptureIn, Page.Bytes, Page.WellFormed;
    PageReadsBack(data, |before| + |junk|, page);
    JunkHasNoCapture(data, before, junk);
  }

  /** The first page of a stream is read back, nothing before it looks like one, and the stream goes on behind it. */
  lemma FirstPage(before: seq<byte>, segments: seq<Segment>, tail: seq<byte>, passed: seq<byte>)
    requires WellFormed(segments) && segments != []
    requires passed == before + segments[0].junk + segments[0].page.Bytes()
    ensures var data, p := before + Stream(segments, tail), |before| + |segments[0].junk|;
            && data == passed + Stream(segments[1..], tail)
            && PageAt(data, p, segments[0].page) && NoCaptureIn(data, |before|, p)
  {
    assert segments[0] in segments;
    hide PageAt, NoCapture, NoCaptureIn, Page.Bytes, Page.WellFormed;
    PageBehindJunk(before + Stream(segments, tail), before, segments[0].junk, segments[0].page,
                   Stream(segments[1..], tail));
  }

  lemma JunkIsSkipped(data: seq<byte>, before: seq<byte>, junk: seq<byte>, i: nat)
    requires NoCapture(junk) && |before| <= i < |before| + |junk| <= |data|
    requires data[..|before| + |junk|] == before + junk && CaptureAt(data, |before| + |junk|)
    ensures !CaptureAt(data, i)
  {
    var p := |before| + |junk|;
    if i + 4 <= p {
      assert data[i..i + 4] == data[..p][i..i + 4] == junk[i - |before|..i - |before| + 4];
      assert !CaptureAt(junk, i - |before|);
    } else {
      NoStraddle(data, i, p);
    }
  }

  lemma CaptureInTail(before: seq<byte>, tail: seq<byte>, i: nat)
    requires |before| <= i && CaptureAt(before + tail, i)
    ensures CaptureAt(tail, i - |before|)
  {
    var data := before + tail;
    assert data[i..i + 4] == tail[i - |before|..i - |before| + 4];
  }

  lemma JunkTail(before: seq<byte>, tail: seq<byte>)
    requires NoCapture(tail)
    ensures Visits(before + tail, |before|) == []
  {
    var data := before + tail;
    forall i: nat | |before| <= i < |data| ensures !CaptureAt(data, i) {
      assert !CaptureAt(tail, i - |before|);
      if CaptureAt(data, i) {
        CaptureInTail(before, tail, i);
      }
    }
    hide CaptureAt, NoCapture;
    SkipJunk(data, |before|, |data|);
  }

  lemma VisitPage(data: seq<byte>, pos: nat, p: nat, page: Page, end: nat)
    requires page.WellFormed() && pos <= p && PageAt(data, p, page) && NoCaptureIn(data, pos, p)
    requires end == p + |page.Bytes()|
    ensures Visits(data, pos) == [p] + Visits(data, end)
  {
    SkipJunk(data, pos, p);
    hide Granule, Truncated, PageEnd, Page.Bytes, Page.WellFormed;
  }

  lemma PassedLength(before: seq<byte>, segment: Segment, passed: seq<byte>)
    requires segment.page.WellFormed() && passed == before + segment.junk + segment.page.Bytes()
    ensures |passed| == |before| + |segment.junk| + |segment.page.Bytes()|
  {
  }

  lemma VisitFirst(before: seq<byte>, segments: seq<Segment>, tail: seq<byte>, passed: seq<byte>)
    requires WellFormed(segments) && segments != []
    requires passed == before + segments[0].junk + segments[0].page.Bytes()
    ensures WellFormed(segments[1..])
    ensures Visits(before + Stream(segments, tail), |before|)
         == [|before| + |segments[0].junk|] + Visits(passed + Stream(segments[1..], tail), |passed|)
  {
    hide Stream, Visits, PageAt, NoCapture, NoCaptureIn, Page.Bytes, Page.WellFormed;
    assert segments[0] in segments;
    FirstPage(before, segments, tail, passed);
    PassedLength(before, segments[0], passed);
    var data := before + Stream(segments, tail);
    VisitPage(data, |before|, |before| + |segments[0].junk|, segments[0].page, |passed|);
  }

  lemma OffsetsUnfold(segments: seq<Segment>, base: nat, after: nat)
    requires WellFormed(segments) && segments != []
    requires after == base + |segments[0].junk| + |segments[0].page.Bytes()|
    ensures Offsets(segments, base) == [base + |segments[0].junk|] + Offsets(segments[1..], after)
  {
    hide Page.Bytes, Page.WellFormed, NoCapture;
  }

  /** The scan visits exactly the pages of a well-formed stream, whatever their payloads contain. */
  lemma {:induction false} ScanFindsExactlyThePages(before: seq<byte>, segments: seq<Segment>, tail: seq<byte>)
    requires WellFormed(segments) && NoCapture(tail)
    ensures Visits(before + Stream(segments, tail), |before|) == Offsets(segments, |before|)
    decreases |segments|
  {
    if segments == [] {
      JunkTail(before, tail);
    } else {
      var passed := before + segments[0].junk + segments[0].page.Bytes();
      PassedLength(before, segments[0], passed);
      OffsetsUnfold(segments, |before|, |passed|);
      hide *;
      VisitFirst(before, segments, tail, passed);
      ScanFindsExactlyThePages(passed, segments[1..], tail);
    }
  }

  /** `total` is the largest granule position written in the stream, or 0 when none is positive. */
  ghost predicate IsLargestWritten(segments: seq<Segment>, total: int) {
    && total >= 0
    && (forall s | s in segments :: s.page.granule <= total)
    && (total == 0 || exists s | s in segments :: s.page.granule == total)
  }

  /** The `i`-th page of a stream is found at the `i`-th offset. */
  lemma {:induction false} OffsetReadsBack(before: seq<byte>, segments: seq<Segment>, tail: seq<byte>, i: nat)
    requires WellFormed(segments) && i < |segments|
    ensures |Offsets(segments, |before|)| == |segments|
    ensures PageAt(before + Stream(segments, tail), Offsets(segments, |before|)[i], segments[i].page)
    decreases |segments|
  {
    OffsetsLength(segments, |before|);
    var passed := before + segments[0].junk + segments[0].page.Bytes();
    var rest := Offsets(segments[1..], |passed|);
    assert Offsets(segments, |before|) == [|before| + |segments[0].junk|] + rest;
    hide Stream, PageAt, Offsets, NoCaptureIn, Page.Bytes;
    FirstPage(before, segments, tail, passed);
    if i > 0 {
      OffsetReadsBack(passed, segments[1..], tail, i - 1);
    }
  }

  lemma {:induction false} OffsetsLength(segments: seq<Segment>, base: nat)
    requires WellFormed(segments)
    ensures |Offsets(segments, base)| == |segments|
    decreases |segments|
  {
    if segments != [] {
      OffsetsLength(segments[1..], base + |segments[0].junk| + |segments[0].page.Bytes()|);
    }
  }

  /** What the scan reports for a well-formed stream: pages marked -1 and junk do not count. */
  lemma ScanReportsTheDuration(segments: seq<Segment>, tail: seq<byte>, total: int)
    requires WellFormed(segments) && NoCapture(tail)
    requires IsLargestGranule(Stream(segments, tail), Visits(Stream(segments, tail), 0), total)
    ensures IsLargestWritten(segments, total)
  {
    var data := Stream(segments, tail);
    assert [] + data == data;
    ScanFindsExactlyThePages([], segments, tail);
    var offsets := Offsets(segments, 0);
    OffsetsLength(segments, 0);
    forall i | 0 <= i < |segments|
      ensures HeaderAt(data, offsets[i]) && Granule(data, offsets[i]) == segments[i].page.granule
    {
      OffsetReadsBack([], segments, tail, i);
    }
    forall s | s in segments ensures s.page.granule <= total {
      var i :| 0 <= i < |segments| && segments[i] == s;
      assert offsets[i] in offsets;
    }
    if total != 0 {
      var p :| p in offsets && Granule(data, p) == total;
      var i :| 0 <= i < |offsets| && offsets[i] == p;
      assert segments[i] in segments;
    }
  }
}
