/** Walking through all enabled channels in batches, each query starting behind the last id seen. */
module BatchScan {
  import opened Lists

  /** The ids of the enabled channels as a query finds them, in ascending order. */
  type View = seq<int>

  function Behind(lastId: int): int -> bool {
    id => lastId <= 0 || id > lastId
  }

  /** The enabled channels behind `lastId`, at most `batchSize` of them; the first query has no lower bound. */
  function FindEnabledAfter(view: View, lastId: int, batchSize: nat): seq<int> {
    var found := Filter(view, Behind(lastId));
    if |found| <= batchSize then found else found[..batchSize]
  }

  lemma {:induction false} FilterAscends(s: seq<int>, f: int -> bool)
    requires StrictlyAscending(s)
    ensures StrictlyAscending(Filter(s, f))
  {
    if s != [] {
      var rest := Filter(s[1..], f);
      FilterAscends(s[1..], f);
      FirstIsLeast(s);
      forall j | 0 <= j < |rest| ensures s[0] < rest[j] {
        assert rest[j] in rest;
      }
    }
  }

  /** What a query returns: ascending ids behind the last one, and all of them up to where the batch ends. */
  lemma QueryResult(view: View, lastId: int, batchSize: nat)
    requires StrictlyAscending(view)
    ensures var batch := FindEnabledAfter(view, lastId, batchSize);
            && StrictlyAscending(batch) && |batch| <= batchSize
            && (forall id | id in batch :: id in view && Behind(lastId)(id))
            && forall id | id in view && Behind(lastId)(id) ::
                 id in batch || (|batch| == batchSize && forall b | b in batch :: b < id)
  {
    var found := Filter(view, Behind(lastId));
    var batch := FindEnabledAfter(view, lastId, batchSize);
    FilterAscends(view, Behind(lastId));
    forall id | id in batch ensures id in found {
      var i :| 0 <= i < |batch| && batch[i] == id;
      assert found[i] == id;
    }
    forall id | id in found ensures id in batch || (|batch| == batchSize && forall b | b in batch :: b < id) {
      var i :| 0 <= i < |found| && found[i] == id;
      if i < |batch| {
        assert batch[i] == id;
      }
    }
  }

  lemma AppendAscending(a: seq<int>, b: seq<int>)
    requires StrictlyAscending(a) && StrictlyAscending(b)
    requires a != [] ==> forall x | x in b :: a[|a| - 1] < x
    ensures StrictlyAscending(a + b)
  {
    forall i, j | 0 <= i < j < |a + b| ensures (a + b)[i] < (a + b)[j] {
      if i < |a| <= j {
        assert b[j - |a|] in b && a[i] <= a[|a| - 1];
      }
    }
  }

  ghost predicate ValidViews(views: nat -> View, maxId: int) {
    forall k: nat :: StrictlyAscending(views(k)) && forall id | id in views(k) :: 0 < id <= maxId
  }

  ghost predicate AlwaysEnabled(views: nat -> View, id: int) {
    forall k: nat :: id in views(k)
  }

  /** What the visited channels are after some queries: ascending up to `lastId`, enabled when they were seen, and
      none that is always enabled is missing. */
  ghost predicate ScannedTo(views: nat -> View, visited: seq<int>, lastId: int) {
    && StrictlyAscending(visited)
    && lastId == (if visited == [] then 0 else visited[|visited| - 1])
    && (forall id | id in visited :: exists k: nat :: id in views(k))
    && (forall id | AlwaysEnabled(views, id) && id <= lastId :: id in visited)
  }

  lemma NothingScanned(views: nat -> View, maxId: int)
    requires ValidViews(views, maxId)
    ensures ScannedTo(views, [], 0)
  {
    forall id | AlwaysEnabled(views, id) ensures id > 0 {
      assert id in views(0);
    }
  }

  lemma BatchScanned(views: nat -> View, maxId: int, visited: seq<int>, lastId: int, k: nat, batchSize: nat)
    requires ValidViews(views, maxId) && ScannedTo(views, visited, lastId) && lastId >= 0
    requires FindEnabledAfter(views(k), lastId, batchSize) != []
    ensures var batch := FindEnabledAfter(views(k), lastId, batchSize);
            && batch[|batch| - 1] <= maxId && lastId < batch[|batch| - 1]
            && ScannedTo(views, visited + batch, batch[|batch| - 1])
  {
    var batch := FindEnabledAfter(views(k), lastId, batchSize);
    assert StrictlyAscending(views(k));
    QueryResult(views(k), lastId, batchSize);
    assert batch[|batch| - 1] in batch;
    hide FindEnabledAfter;
    AppendAscending(visited, batch);
    forall id | AlwaysEnabled(views, id) && id <= batch[|batch| - 1] ensures id in visited + batch {
      assert id in views(k);
    }
    forall id | id in visited + batch ensures exists j: nat :: id in views(j) {
      if id in batch {
        assert id in views(k);
      }
    }
  }

  /** After a short batch nothing is left. */
  lemma ScanEnds(views: nat -> View, maxId: int, visited: seq<int>, lastId: int, k: nat, batchSize: nat)
    requires ValidViews(views, maxId) && ScannedTo(views, visited, lastId) && lastId >= 0
    requires |FindEnabledAfter(views(k), lastId, batchSize)| < batchSize
    ensures forall id | AlwaysEnabled(views, id) :: id in visited + FindEnabledAfter(views(k), lastId, batchSize)
  {
    assert StrictlyAscending(views(k));
    QueryResult(views(k), lastId, batchSize);
    hide FindEnabledAfter;
    forall id | AlwaysEnabled(views, id) ensures id in visited + FindEnabledAfter(views(k), lastId, batchSize) {
      assert id in views(k);
    }
  }

  /** The `k`-th query sees `views(k)`. No channel is visited twice, only enabled ones are visited, and one that
      is enabled throughout is not missed, whatever the other channels do meanwhile. */
  method Scan(views: nat -> View, batchSize: nat, ghost maxId: int) returns (visited: seq<int>)
    requires batchSize > 0 && ValidViews(views, maxId)
    ensures StrictlyAscending(visited)
    ensures forall id | id in visited :: exists k: nat :: id in views(k)
    ensures forall id | AlwaysEnabled(views, id) :: id in visited
  {
    visited := [];
    var lastId := 0;
    var k: nat := 0;
    NothingScanned(views, maxId);
    while true
      invariant ScannedTo(views, visited, lastId) && lastId >= 0
      decreases maxId - lastId
    {
      hide StrictlyAscending, FindEnabledAfter, AlwaysEnabled, ValidViews;
      var batch := FindEnabledAfter(views(k), lastId, batchSize);
      if |batch| < batchSize {
        ScanEnds(views, maxId, visited, lastId, k, batchSize);
      }
      if |batch| == 0 {
        assert visited + batch == visited;
        break;
      }
      BatchScanned(views, maxId, visited, lastId, k, batchSize);
      visited := visited + batch;
      lastId := batch[|batch| - 1];
      if |batch| < batchSize {
        break;
      }
      k := k + 1;
    }
  }

  /** While the enabled channels stay the same, the scan visits exactly them, each once and in order. */
  lemma VisitsThemAll(views: nat -> View, view: View, visited: seq<int>)
    requires (forall k: nat :: views(k) == view) && StrictlyAscending(view) && StrictlyAscending(visited)
    requires forall id | id in visited :: exists k: nat :: id in views(k)
    requires forall id | AlwaysEnabled(views, id) :: id in visited
    ensures visited == view
  {
    forall id ensures id in visited <==> id in view {
      if id in view {
        assert AlwaysEnabled(views, id);
      }
    }
    AscendingIsUnique(visited, view);
  }

  /** Ids must be positive: behind a full batch that ends at or below 0 the same batch is found again. */
  lemma NoProgressBelowOne(view: View, batchSize: nat)
    requires 0 < batchSize <= |view| && view[batchSize - 1] <= 0
    ensures FindEnabledAfter(view, view[batchSize - 1], batchSize)
         == FindEnabledAfter(view, 0, batchSize)
         == view[..batchSize]
  {
    FilterAll(view, Behind(0));
    FilterAll(view, Behind(view[batchSize - 1]));
  }
}
