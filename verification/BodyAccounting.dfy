/** The global counters of open request bodies, and how bodies are created and closed. */
module BodyAccounting {
  import opened Readers

  datatype Config = Config(enabled: bool, thresholdMB: nat, maxSizeMB: nat)
  {
    function Threshold(): nat { thresholdMB * 1048576 }
    function MaxSize(): nat { maxSizeMB * 1048576 }
  }

  /** One body ever created. */
  datatype Body = Body(onDisk: bool, data: seq<byte>, closed: bool)

  datatype Counters = Counters(diskFiles: int, diskUsage: int, memoryBuffers: int, memoryUsage: int)

  datatype Cache = Cache(config: Config, counters: Counters, bodies: seq<Body>)

  datatype Result = Created(id: nat) | TooLarge | DiskFailed

  function NonNegative(i: int): int {
    if i < 0 then 0 else i
  }

  /** The counters once a body is opened. */
  function Opened(c: Counters, onDisk: bool, size: nat): Counters {
    if onDisk then c.(diskFiles := c.diskFiles + 1, diskUsage := c.diskUsage + size)
    else c.(memoryBuffers := c.memoryBuffers + 1, memoryUsage := c.memoryUsage + size)
  }

  /** The counters once a body is closed; those of the disk are clamped at zero. */
  function Closed(c: Counters, onDisk: bool, size: nat): Counters {
    if onDisk then c.(diskFiles := NonNegative(c.diskFiles - 1), diskUsage := NonNegative(c.diskUsage - size))
    else c.(memoryBuffers := c.memoryBuffers - 1, memoryUsage := c.memoryUsage - size)
  }

  predicate Available(c: Cache, size: int) {
    c.config.enabled && c.counters.diskUsage + size <= c.config.MaxSize()
  }

  function Open(c: Cache, onDisk: bool, data: seq<byte>): (Cache, Result) {
    (c.(counters := Opened(c.counters, onDisk, |data|), bodies := c.bodies + [Body(onDisk, data, false)]),
     Created(|c.bodies|))
  }

  /** A body that is all in memory already; a disk that fails is no obstacle. */
  function Create(c: Cache, data: seq<byte>, diskWorks: bool): (Cache, Result) {
    Open(c, |data| >= c.config.Threshold() && Available(c, |data|) && diskWorks, data)
  }

  /** What can be read from a stream that is cut off after `limit` bytes. */
  function Limited(stream: seq<byte>, limit: int): seq<byte> {
    if limit <= 0 then [] else if limit < |stream| then stream[..limit] else stream
  }

  predicate GoesToDisk(c: Cache, contentLength: int) {
    contentLength > 0 && contentLength >= c.config.Threshold() && Available(c, contentLength)
  }

  function CreateFromReader(c: Cache, stream: seq<byte>, contentLength: int, maxBytes: int,
                            diskWorks: bool): (Cache, Result) {
    var data := Limited(stream, maxBytes + 1);
    if GoesToDisk(c, contentLength) then
      if !diskWorks then (c, DiskFailed)
      else if |data| > maxBytes then (c, TooLarge)
      else Open(c, true, data)
    else if |data| > maxBytes then (c, TooLarge)
    else Create(c, data, diskWorks)
  }

  function Close(c: Cache, id: nat): Cache
    requires id < |c.bodies|
  {
    var body := c.bodies[id];
    if body.closed then c
    else c.(counters := Closed(c.counters, body.onDisk, |body.data|), bodies := c.bodies[id := body.(closed := true)])
  }

  /** The program's counters are updated in place, by functions that know nothing of the bodies. */
  class BodyCache {
    var config: Config
    var diskFiles: int
    var diskUsage: int
    var memoryBuffers: int
    var memoryUsage: int
    var bodies: seq<Body>

    function Snapshot(): Cache
      reads this
    {
      Cache(config, Counters(diskFiles, diskUsage, memoryBuffers, memoryUsage), bodies)
    }

    constructor (config: Config)
      ensures Snapshot() == Cache(config, Counters(0, 0, 0, 0), [])
    {
      this.config := config;
      diskFiles, diskUsage, memoryBuffers, memoryUsage, bodies := 0, 0, 0, 0, [];
    }

    method DecrementDiskFiles(size: nat)
      modifies this`diskFiles, this`diskUsage
      ensures diskFiles == NonNegative(old(diskFiles) - 1) && diskUsage == NonNegative(old(diskUsage) - size)
    {
      diskFiles := diskFiles - 1;
      if diskFiles < 0 {
        diskFiles := 0;
      }
      diskUsage := diskUsage - size;
      if diskUsage < 0 {
        diskUsage := 0;
      }
    }

    method IsDiskCacheAvailable(requestSize: int) returns (available: bool)
      ensures available == Available(Snapshot(), requestSize)
    {
      if !config.enabled {
        return false;
      }
      return diskUsage + requestSize <= config.MaxSize();
    }

    method NewDiskStorage(data: seq<byte>) returns (r: Result)
      modifies this`diskFiles, this`diskUsage, this`bodies
      ensures (Snapshot(), r) == Open(old(Snapshot()), true, data)
    {
      diskFiles := diskFiles + 1;
      diskUsage := diskUsage + |data|;
      r := Created(|bodies|);
      bodies := bodies + [Body(true, data, false)];
    }

    method NewMemoryStorage(data: seq<byte>) returns (r: Result)
      modifies this`memoryBuffers, this`memoryUsage, this`bodies
      ensures (Snapshot(), r) == Open(old(Snapshot()), false, data)
    {
      memoryBuffers := memoryBuffers + 1;
      memoryUsage := memoryUsage + |data|;
      r := Created(|bodies|);
      bodies := bodies + [Body(false, data, false)];
    }

    method CreateBodyStorage(data: seq<byte>, diskWorks: bool) returns (r: Result)
      modifies this
      ensures (Snapshot(), r) == Create(old(Snapshot()), data, diskWorks)
    {
      if config.enabled && |data| >= config.Threshold() {
        var available := IsDiskCacheAvailable(|data|);
        if available && diskWorks {
          r := NewDiskStorage(data);
          return;
        }
      }
      r := NewMemoryStorage(data);
    }

    method CreateBodyStorageFromReader(stream: seq<byte>, contentLength: int, maxBytes: int, diskWorks: bool)
      returns (r: Result)
      modifies this
      ensures (Snapshot(), r) == CreateFromReader(old(Snapshot()), stream, contentLength, maxBytes, diskWorks)
    {
      if config.enabled && contentLength > 0 && contentLength >= config.Threshold() {
        var available := IsDiskCacheAvailable(contentLength);
        if available {
          if !diskWorks {
            return DiskFailed;
          }
          var written := Limited(stream, maxBytes + 1);
          if |written| > maxBytes {
            return TooLarge;
          }
          r := NewDiskStorage(written);
          return;
        }
      }
      var data := Limited(stream, maxBytes + 1);
      if |data| > maxBytes {
        return TooLarge;
      }
      r := CreateBodyStorage(data, diskWorks);
    }

    method CloseBody(id: nat)
      requires id < |bodies|
      modifies this
      ensures Snapshot() == Close(old(Snapshot()), id)
    {
      var body := bodies[id];
      if !body.closed {
        bodies := bodies[id := body.(closed := true)];
        if body.onDisk {
          DecrementDiskFiles(|body.data|);
        } else {
          memoryBuffers := memoryBuffers - 1;
          memoryUsage := memoryUsage - |body.data|;
        }
      }
    }
  }

  // ----- the counters are exact -----

  predicate Counts(b: Body, onDisk: bool) {
    b.onDisk == onDisk && !b.closed
  }

  function Number(bodies: seq<Body>, onDisk: bool): nat {
    if bodies == [] then 0
    else (if Counts(bodies[0], onDisk) then 1 else 0) + Number(bodies[1..], onDisk)
  }

  function Total(bodies: seq<Body>, onDisk: bool): nat {
    if bodies == [] then 0
    else (if Counts(bodies[0], onDisk) then |bodies[0].data| else 0) + Total(bodies[1..], onDisk)
  }

  /** The counters are the number and the total size of the open bodies of each kind. */
  ghost predicate Exact(c: Cache) {
    c.counters
    == Counters(Number(c.bodies, true), Total(c.bodies, true), Number(c.bodies, false), Total(c.bodies, false))
  }

  lemma {:induction false} AppendCounts(bodies: seq<Body>, b: Body, onDisk: bool)
    ensures Number(bodies + [b], onDisk) == Number(bodies, onDisk) + if Counts(b, onDisk) then 1 else 0
    ensures Total(bodies + [b], onDisk) == Total(bodies, onDisk) + if Counts(b, onDisk) then |b.data| else 0
  {
    if bodies == [] {
      assert bodies + [b] == [b];
    } else {
      AppendCounts(bodies[1..], b, onDisk);
      assert (bodies + [b])[1..] == bodies[1..] + [b];
    }
  }

  lemma {:induction false} CloseCounts(bodies: seq<Body>, id: nat, onDisk: bool)
    requires id < |bodies| && !bodies[id].closed
    ensures var after := bodies[id := bodies[id].(closed := true)];
            && Number(after, onDisk) == Number(bodies, onDisk) - (if bodies[id].onDisk == onDisk then 1 else 0)
            && Total(after, onDisk)
            == Total(bodies, onDisk) - (if bodies[id].onDisk == onDisk then |bodies[id].data| else 0)
  {
    var after := bodies[id := bodies[id].(closed := true)];
    if id > 0 {
      CloseCounts(bodies[1..], id - 1, onDisk);
      assert after[1..] == bodies[1..][id - 1 := bodies[id].(closed := true)];
    } else {
      assert after[1..] == bodies[1..];
    }
  }

  lemma OpenKeepsExact(c: Cache, onDisk: bool, data: seq<byte>)
    requires Exact(c)
    ensures Exact(Open(c, onDisk, data).0)
  {
    AppendCounts(c.bodies, Body(onDisk, data, false), true);
    AppendCounts(c.bodies, Body(onDisk, data, false), false);
  }

  /** Closing keeps the counters exact, which means that the clamp at zero does nothing. */
  lemma CloseKeepsExact(c: Cache, id: nat)
    requires Exact(c) && id < |c.bodies|
    ensures Exact(Close(c, id))
    ensures !c.bodies[id].closed && c.bodies[id].onDisk ==>
              c.counters.diskFiles - 1 >= 0 && c.counters.diskUsage - |c.bodies[id].data| >= 0
  {
    if !c.bodies[id].closed {
      CloseCounts(c.bodies, id, true);
      CloseCounts(c.bodies, id, false);
    }
  }

  datatype Step =
    | MakeBody(data: seq<byte>, diskWorks: bool)
    | MakeFromReader(stream: seq<byte>, contentLength: int, maxBytes: int, diskWorks: bool)
    | CloseId(id: nat)

  function Next(c: Cache, step: Step): Cache {
    match step
    case MakeBody(data, diskWorks) => Create(c, data, diskWorks).0
    case MakeFromReader(stream, contentLength, maxBytes, diskWorks) =>
      CreateFromReader(c, stream, contentLength, maxBytes, diskWorks).0
    case CloseId(id) => if id < |c.bodies| then Close(c, id) else c
  }

  function Run(c: Cache, steps: seq<Step>): Cache
    decreases |steps|
  {
    if steps == [] then c else Run(Next(c, steps[0]), steps[1..])
  }

  lemma NextKeepsExact(c: Cache, step: Step)
    requires Exact(c)
    ensures Exact(Next(c, step))
  {
    hide Exact;
    match step
    case MakeBody(data, diskWorks) =>
      OpenKeepsExact(c, |data| >= c.config.Threshold() && Available(c, |data|) && diskWorks, data);
    case MakeFromReader(stream, contentLength, maxBytes, diskWorks) =>
      var data := Limited(stream, maxBytes + 1);
      OpenKeepsExact(c, true, data);
      OpenKeepsExact(c, |data| >= c.config.Threshold() && Available(c, |data|) && diskWorks, data);
    case CloseId(id) =>
      if id < |c.bodies| {
        CloseKeepsExact(c, id);
      }
  }

  /** Over every run of creations and closings, repeated ones included, the counters stay exact. */
  lemma {:induction false} RunKeepsExact(c: Cache, steps: seq<Step>)
    requires Exact(c)
    ensures Exact(Run(c, steps))
    decreases |steps|
  {
    if steps != [] {
      NextKeepsExact(c, steps[0]);
      RunKeepsExact(Next(c, steps[0]), steps[1..]);
    }
  }

  /** A program that starts with no bodies keeps exact counters, and once all bodies are closed they are zero again. */
  lemma RunFromNothing(config: Config, steps: seq<Step>)
    ensures var c := Run(Cache(config, Counters(0, 0, 0, 0), []), steps);
            && Exact(c)
            && ((forall id | 0 <= id < |c.bodies| :: c.bodies[id].closed) ==> c.counters == Counters(0, 0, 0, 0))
  {
    var c := Run(Cache(config, Counters(0, 0, 0, 0), []), steps);
    RunKeepsExact(Cache(config, Counters(0, 0, 0, 0), []), steps);
    if forall id | 0 <= id < |c.bodies| :: c.bodies[id].closed {
      AllClosed(c.bodies, true);
      AllClosed(c.bodies, false);
    }
  }

  lemma {:induction false} AllClosed(bodies: seq<Body>, onDisk: bool)
    requires forall id | 0 <= id < |bodies| :: bodies[id].closed
    ensures Number(bodies, onDisk) == 0 && Total(bodies, onDisk) == 0
  {
    if bodies != [] {
      AllClosed(bodies[1..], onDisk);
    }
  }

  /** Counters that are too low, whatever set them, stop at zero. */
  lemma CloseStopsAtZero(c: Cache, id: nat)
    requires id < |c.bodies| && c.bodies[id].onDisk && !c.bodies[id].closed
    ensures var after := Close(c, id).counters;
            && after.diskFiles == (if c.counters.diskFiles > 1 then c.counters.diskFiles - 1 else 0)
            && after.diskUsage
            == if c.counters.diskUsage > |c.bodies[id].data| then c.counters.diskUsage - |c.bodies[id].data| else 0
  {
  }

  // ----- reading a stream -----

  /** With a working disk, a body is created from a stream exactly when the stream is within the limit, and it
      holds the whole stream; a stream that is refused leaves no trace. */
  lemma ReaderAllOrNothing(c: Cache, stream: seq<byte>, contentLength: int, maxBytes: int)
    ensures var (next, r) := CreateFromReader(c, stream, contentLength, maxBytes, true);
            && (r.Created? <==> |stream| <= maxBytes)
            && (r.Created? ==>
                  |next.bodies| == |c.bodies| + 1 && r.id == |c.bodies| && next.bodies[r.id].data == stream)
            && (!r.Created? ==> r == TooLarge && next == c)
  {
  }

  // ----- memory or disk -----

  /** A body that is in memory already goes to disk if and only if the disk is enabled and works, the body is as large
      as the threshold and fits in what is left of the limit, both in megabytes; otherwise it stays in memory. */
  lemma LargeBodiesGoToDisk(c: Cache, data: seq<byte>, diskWorks: bool)
    ensures var (next, r) := Create(c, data, diskWorks);
            && r == Created(|c.bodies|) && |next.bodies| == |c.bodies| + 1 && next.bodies[..|c.bodies|] == c.bodies
            && next.bodies[|c.bodies|].data == data && !next.bodies[|c.bodies|].closed && next.config == c.config
            && (next.bodies[|c.bodies|].onDisk <==>
                  && c.config.enabled && diskWorks && |data| >= c.config.thresholdMB * 1048576
                  && c.counters.diskUsage + |data| <= c.config.maxSizeMB * 1048576)
  {
  }

  /** A stream goes to disk by its announced length; if that is unknown, too small or too large, by what it holds.
      Only in the first case is a disk that fails an error. */
  lemma StreamsGoToDisk(c: Cache, stream: seq<byte>, contentLength: int, maxBytes: int, diskWorks: bool)
    ensures var (next, r) := CreateFromReader(c, stream, contentLength, maxBytes, diskWorks);
            var threshold, limit := c.config.thresholdMB * 1048576, c.config.maxSizeMB * 1048576;
            var announced := && c.config.enabled && contentLength > 0 && contentLength >= threshold
                             && c.counters.diskUsage + contentLength <= limit;
            var large := && c.config.enabled && |stream| >= threshold && c.counters.diskUsage + |stream| <= limit;
            && (r.Created? <==> |stream| <= maxBytes && (announced ==> diskWorks))
            && (r == DiskFailed <==> announced && !diskWorks)
            && (r == TooLarge <==> |stream| > maxBytes && (announced ==> diskWorks))
            && (r.Created? ==> |next.bodies| == |c.bodies| + 1
                               && (next.bodies[|c.bodies|].onDisk <==> announced || (large && diskWorks)))
  {
  }

  /** What closing a body gives back, of its own kind only. */
  lemma ClosingGivesBack(c: Cache, id: nat)
    requires Exact(c) && id < |c.bodies|
    ensures var body, before, after := c.bodies[id], c.counters, Close(c, id).counters;
            && Close(c, id).bodies == c.bodies[id := body.(closed := true)]
            && if body.closed then after == before
               else if body.onDisk
               then after == before.(diskFiles := before.diskFiles - 1, diskUsage := before.diskUsage - |body.data|)
               else after == before.(memoryBuffers := before.memoryBuffers - 1,
                                     memoryUsage := before.memoryUsage - |body.data|)
  {
    CloseKeepsExact(c, id);
    assert c.bodies[id := c.bodies[id]] == c.bodies;
  }

  // ----- the disk limit -----

  ghost predicate WithinLimit(c: Cache) {
    c.counters.diskUsage <= c.config.MaxSize()
  }

  /** A stream is written straight to disk, although more comes than fits: the room was made for what was announced. */
  predicate Overruns(c: Cache, step: Step) {
    && step.MakeFromReader? && GoesToDisk(c, step.contentLength) && step.diskWorks
    && |step.stream| <= step.maxBytes && c.counters.diskUsage + |step.stream| > c.config.MaxSize()
  }

  /** Exactly when a stream overruns the limit. */
  lemma ReaderOverruns(c: Cache, stream: seq<byte>, contentLength: int, maxBytes: int, diskWorks: bool)
    requires WithinLimit(c)
    ensures WithinLimit(CreateFromReader(c, stream, contentLength, maxBytes, diskWorks).0)
       <==> !Overruns(c, MakeFromReader(stream, contentLength, maxBytes, diskWorks))
  {
  }

  ghost predicate WithinThroughout(c: Cache, steps: seq<Step>)
    decreases |steps|
  {
    WithinLimit(c) && (steps != [] ==> WithinThroughout(Next(c, steps[0]), steps[1..]))
  }

  predicate NoneOverruns(c: Cache, steps: seq<Step>)
    decreases |steps|
  {
    steps != [] ==> !Overruns(c, steps[0]) && NoneOverruns(Next(c, steps[0]), steps[1..])
  }

  lemma NextStaysWithinLimit(c: Cache, step: Step)
    requires Exact(c) && WithinLimit(c)
    ensures WithinLimit(Next(c, step)) <==> !Overruns(c, step)
  {
    if step.MakeFromReader? {
      ReaderOverruns(c, step.stream, step.contentLength, step.maxBytes, step.diskWorks);
    } else if step.CloseId? && step.id < |c.bodies| {
      CloseKeepsExact(c, step.id);
    }
  }

  /** The disk usage stays within its limit throughout a run if and only if no step of it overruns. */
  lemma {:induction false} RunStaysWithinLimit(c: Cache, steps: seq<Step>)
    requires Exact(c) && WithinLimit(c)
    ensures WithinThroughout(c, steps) <==> NoneOverruns(c, steps)
    decreases |steps|
  {
    if steps != [] {
      NextStaysWithinLimit(c, steps[0]);
      NextKeepsExact(c, steps[0]);
      hide Exact, WithinLimit, Next, Overruns;
      if WithinLimit(Next(c, steps[0])) {
        RunStaysWithinLimit(Next(c, steps[0]), steps[1..]);
      }
    }
  }

  /** The announced length is unknown, or no less than what comes. */
  predicate Honest(step: Step) {
    step.MakeFromReader? ==> step.contentLength < 0 || |step.stream| <= step.contentLength
  }

  /** Only a stream that is longer than announced overruns, so that a run of honest steps stays within the limit. */
  lemma {:induction false} HonestRunStaysWithinLimit(c: Cache, steps: seq<Step>)
    requires Exact(c) && WithinLimit(c) && forall i | 0 <= i < |steps| :: Honest(steps[i])
    ensures WithinThroughout(c, steps)
    decreases |steps|
  {
    if steps != [] {
      assert Honest(steps[0]);
      NextStaysWithinLimit(c, steps[0]);
      NextKeepsExact(c, steps[0]);
      assert !Overruns(c, steps[0]);
      hide Exact, WithinLimit, Next, Overruns;
      HonestRunStaysWithinLimit(Next(c, steps[0]), steps[1..]);
    }
  }
}
