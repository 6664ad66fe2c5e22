/** Lists of names: trimmed, without empty names and without repeats. */
module Names {
  import opened Lists
  import opened Text

  function TrimAll(models: seq<string>): seq<string> {
    if models == [] then [] else [TrimSpace(models[0])] + TrimAll(models[1..])
  }

  predicate NonEmpty(name: string) {
    name != ""
  }

  /** Trimmed, without empty names, first occurrences only. */
  function Normalize(models: seq<string>): seq<string> {
    Uniq(Filter(TrimAll(models), NonEmpty))
  }

  ghost predicate Normalized(models: seq<string>) {
    NoDuplicates(models) && forall m | m in models :: m != "" && TrimmedSpace(m)
  }

  function In(names: seq<string>): string -> bool {
    m => m in names
  }

  function NotIn(names: seq<string>): string -> bool {
    m => m !in names
  }

  function Without(models: seq<string>, removed: seq<string>): seq<string> {
    Filter(models, NotIn(removed))
  }

  lemma {:induction false} TrimAllContents(models: seq<string>)
    ensures |TrimAll(models)| == |models| && forall i | 0 <= i < |models| :: TrimAll(models)[i] == TrimSpace(models[i])
  {
    hide TrimSpace;
    if models != [] {
      TrimAllContents(models[1..]);
    }
  }

  lemma {:induction false} TrimAllConcat(a: seq<string>, b: seq<string>)
    ensures TrimAll(a + b) == TrimAll(a) + TrimAll(b)
  {
    hide TrimSpace;
    if a == [] {
      assert a + b == b;
    } else {
      assert (a + b)[0] == a[0] && (a + b)[1..] == a[1..] + b;
      assert TrimAll(a + b) == [TrimSpace(a[0])] + TrimAll(a[1..] + b);
      assert TrimAll(a) == [TrimSpace(a[0])] + TrimAll(a[1..]);
      hide TrimAll;
      TrimAllConcat(a[1..], b);
    }
  }

  lemma TrimAllTrimmed(models: seq<string>)
    ensures forall m | m in Filter(TrimAll(models), NonEmpty) :: m != "" && TrimmedSpace(m)
  {
    TrimAllContents(models);
    hide TrimSpace;
  }

  lemma NormalizeMembers(models: seq<string>)
    ensures forall m :: m in Normalize(models) <==> m in TrimAll(models) && m != ""
    ensures NoDuplicates(Normalize(models))
  {
  }

  lemma NormalizeIsNormalized(models: seq<string>)
    ensures Normalized(Normalize(models))
  {
    NormalizeMembers(models);
    TrimAllContents(models);
  }

  /** Normalising brings in no character that was not there. */
  lemma NormalizeKeepsFree(models: seq<string>, sep: char)
    requires forall m | m in models :: sep !in m
    ensures forall m | m in Normalize(models) :: sep !in m
  {
    TrimAllContents(models);
    NormalizeMembers(models);
    forall m | m in Normalize(models) ensures sep !in m {
      var i :| 0 <= i < |models| && TrimAll(models)[i] == m;
      assert models[i] in models;
      if sep in m {
        TrimIsPart(models[i], IsSpace, sep);
      }
    }
  }

  lemma NormalizeFixed(models: seq<string>)
    requires Normalized(models)
    ensures Normalize(models) == models
  {
    TrimAllContents(models);
    assert TrimAll(models) == models;
    FilterAll(models, NonEmpty);
    UniqOfDistinct(models);
  }

  lemma FilterNormalized(models: seq<string>, f: string -> bool)
    requires Normalized(models)
    ensures Normalized(Filter(models, f))
  {
    FilterNoDuplicates(models, f);
  }
}
