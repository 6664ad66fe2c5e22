/** Keeping a channel's model list in step with the models its upstream offers.

    Detection compares the local list with the upstream list and stores two pending lists beside it;
    applying a selection edits the local list, the ignore list and the pending lists together.
    The theorems say that the stored pending lists are always what a fresh detection would return. */
module ModelReconcile {
  import opened Lists
  import opened Names
  import opened Text

  // ----- name lists -----

  function Within(models: seq<string>, allowed: seq<string>): seq<string> {
    Filter(models, In(allowed))
  }

  function Merge(base: seq<string>, appended: seq<string>): seq<string> {
    Normalize(base) + Without(Normalize(appended), Normalize(base))
  }

  function Subtract(base: seq<string>, removed: seq<string>): seq<string> {
    Without(Normalize(base), Normalize(removed))
  }

  function Intersect(base: seq<string>, allowed: seq<string>): seq<string> {
    Within(Normalize(base), Normalize(allowed))
  }

  /** Adding wins over removing. */
  function ApplySelected(origin: seq<string>, add: seq<string>, remove: seq<string>): seq<string> {
    var normalizedAdd := Normalize(add);
    Subtract(Merge(origin, normalizedAdd), Subtract(Normalize(remove), normalizedAdd))
  }

  method NameSet(models: seq<string>) returns (names: set<string>)
    ensures forall m :: m in names <==> m in models
  {
    names := {};
    for i := 0 to |models|
      invariant forall m :: m in names <==> m in models[..i]
    {
      assert models[..i + 1] == models[..i] + [models[i]];
      names := names + {models[i]};
    }
    assert models[..|models|] == models;
  }

  method MergeModelNames(base: seq<string>, appended: seq<string>) returns (merged: seq<string>)
    ensures merged == Merge(base, appended)
  {
    NormalizeMembers(appended);
    merged := AppendUnseen(Normalize(base), Normalize(appended));
  }

  method AppendUnseen(first: seq<string>, names: seq<string>) returns (merged: seq<string>)
    requires NoDuplicates(names)
    ensures merged == first + Without(names, first)
  {
    merged := first;
    var seen := NameSet(first);
    for i := 0 to |names|
      invariant merged == first + Without(names[..i], first)
      invariant forall m :: m in seen <==> m in first || m in names[..i]
    {
      assert names[..i + 1] == names[..i] + [names[i]];
      FilterOfConcat(names[..i], [names[i]], NotIn(first));
      if names[i] !in seen {
        merged := merged + [names[i]];
      }
      seen := seen + {names[i]};
    }
    assert names[..|names|] == names;
  }

  method SubtractModelNames(base: seq<string>, removed: seq<string>) returns (left: seq<string>)
    ensures left == Subtract(base, removed)
  {
    var removeSet := NameSet(Normalize(removed));
    left := Filter(Normalize(base), m => m !in removeSet);
    FilterAgrees(Normalize(base), m => m !in removeSet, NotIn(Normalize(removed)));
  }

  method IntersectModelNames(base: seq<string>, allowed: seq<string>) returns (common: seq<string>)
    ensures common == Intersect(base, allowed)
  {
    var allowedSet := NameSet(Normalize(allowed));
    common := Filter(Normalize(base), m => m in allowedSet);
    FilterAgrees(Normalize(base), m => m in allowedSet, In(Normalize(allowed)));
  }

  method ApplySelectedModelChanges(origin: seq<string>, add: seq<string>, remove: seq<string>)
    returns (next: seq<string>)
    ensures next == ApplySelected(origin, add, remove)
  {
    var normalizedAdd := Normalize(add);
    var normalizedRemove := SubtractModelNames(Normalize(remove), normalizedAdd);
    var merged := MergeModelNames(origin, normalizedAdd);
    next := SubtractModelNames(merged, normalizedRemove);
  }

  // ----- detection -----

  /** Whether the pattern matches the name; a pattern that does not compile matches nothing. */
  type Matcher = (string, string) -> bool

  const REGEX := "regex:"

  predicate Ignores(entry: string, m: string, matches: Matcher) {
    if REGEX <= entry then matches(TrimSpace(entry[|REGEX|..]), m) else entry == m
  }

  predicate IsIgnored(ignored: seq<string>, m: string, matches: Matcher) {
    exists entry | entry in ignored :: Ignores(entry, m, matches)
  }

  /** What does not change while a channel is reconciled: the upstream list, the redirects (source to target)
      and the regular expression engine. */
  datatype Upstream = Upstream(models: seq<string>, mapping: map<string, string>, matches: Matcher)

  /** Offered upstream, but neither local nor the target of a redirect nor ignored. */
  function IsNew(local: seq<string>, ignored: seq<string>, up: Upstream): string -> bool {
    m => m !in local && m !in up.mapping.Values && !IsIgnored(ignored, m, up.matches)
  }

  /** No longer offered; the source of a redirect is an alias and stays. */
  function IsGone(up: Upstream): string -> bool {
    m => m !in up.mapping.Keys && m !in Normalize(up.models)
  }

  function PendingAdd(local: seq<string>, ignored: seq<string>, up: Upstream): seq<string> {
    Filter(Normalize(up.models), IsNew(Normalize(local), Normalize(ignored), up))
  }

  function PendingRemove(local: seq<string>, up: Upstream): seq<string> {
    Filter(Normalize(local), IsGone(up))
  }

  method CollectPending(local: seq<string>, ignored: seq<string>, up: Upstream)
    returns (pendingAdd: seq<string>, pendingRemove: seq<string>)
    ensures pendingAdd == PendingAdd(local, ignored, up)
    ensures pendingRemove == PendingRemove(local, up)
  {
    var localModels, upstreamModels := Normalize(local), Normalize(up.models);
    var localSet := NameSet(localModels);
    var upstreamSet := NameSet(upstreamModels);
    var normalizedIgnored := Normalize(ignored);
    var covered := localSet + up.mapping.Values;
    var isNew := m => m !in covered && !IsIgnored(normalizedIgnored, m, up.matches);
    var isGone := m => m !in up.mapping.Keys && m !in upstreamSet;
    FilterAgrees(upstreamModels, isNew, IsNew(localModels, normalizedIgnored, up));
    FilterAgrees(localModels, isGone, IsGone(up));
    PendingListsNormalized(local, ignored, up);
    NormalizeFixed(PendingAdd(local, ignored, up));
    NormalizeFixed(PendingRemove(local, up));
    pendingAdd := Normalize(Filter(upstreamModels, isNew));
    pendingRemove := Normalize(Filter(localModels, isGone));
  }

  // ----- lemmas about name lists -----

  lemma PendingListsNormalized(local: seq<string>, ignored: seq<string>, up: Upstream)
    ensures Normalized(PendingAdd(local, ignored, up))
    ensures Normalized(PendingRemove(local, up))
  {
    NormalizeIsNormalized(local);
    NormalizeIsNormalized(up.models);
    FilterNormalized(Normalize(up.models), IsNew(Normalize(local), Normalize(ignored), up));
    FilterNormalized(Normalize(local), IsGone(up));
  }

  lemma ConcatNormalized(a: seq<string>, b: seq<string>)
    requires Normalized(a) && Normalized(b) && forall m | m in a :: m !in b
    ensures Normalized(a + b)
  {
    forall i, j | 0 <= i < j < |a + b| ensures (a + b)[i] != (a + b)[j] {
      if i < |a| <= j {
        assert a[i] in a && b[j - |a|] in b;
      }
    }
  }

  /** Merging normalised lists that have nothing in common is concatenation. */
  lemma MergeDisjoint(a: seq<string>, b: seq<string>)
    requires Normalized(a) && Normalized(b) && forall m | m in b :: m !in a
    ensures Merge(a, b) == a + b && Normalized(a + b)
  {
    NormalizeFixed(a);
    NormalizeFixed(b);
    FilterAll(b, NotIn(a));
    ConcatNormalized(a, b);
  }

  // ----- the stored channel -----

  /** Pending additions are merged behind what is local, each of them. */
  lemma PendingIsMerged(row: Row, up: Upstream)
    ensures var add := PendingAdd(GetModels(row.models), row.settings.ignored, up);
            |Merge(Local(row), add)| == |Local(row)| + |add|
  {
    NormalizeIsNormalized(GetModels(row.models));
    PendingListsNormalized(GetModels(row.models), row.settings.ignored, up);
    MergeDisjoint(Local(row), PendingAdd(GetModels(row.models), row.settings.ignored, up));
  }

  /** The pending and ignored lists kept in the channel's settings. */
  datatype Settings = Settings(detected: seq<string>, removed: seq<string>, ignored: seq<string>, lastCheck: int,
                               autoSync: bool)

  /** The stored row: the model list is one comma-separated string. */
  datatype Row = Row(models: string, settings: Settings)

  function GetModels(models: string): (r: seq<string>)
    ensures forall m | m in r :: ',' !in m
  {
    if models == "" then [] else Split(TrimChar(models, ','), ',')
  }

  function Local(row: Row): seq<string> {
    Normalize(GetModels(row.models))
  }

  /** A list of names survives being stored exactly when no name contains the separator. */
  lemma StoredNamesReadBack(names: seq<string>)
    requires Normalized(names)
    ensures Normalize(GetModels(Join(names, ','))) == names <==> forall m | m in names :: ',' !in m
  {
    var stored := Join(names, ',');
    if forall m | m in names :: ',' !in m {
      if names != [] {
        assert names[0] in names && names[|names| - 1] in names;
        JoinEnds(names, ',');
        SplitOfJoin(names, ',');
      }
      assert GetModels(stored) == names;
      NormalizeFixed(names);
    } else {
      NormalizeKeepsFree(GetModels(stored), ',');
    }
  }

  /** A detection whose fetch succeeded. */
  function Detected(row: Row, up: Upstream, now: int, allowAutoApply: bool): Row {
    var add := PendingAdd(GetModels(row.models), row.settings.ignored, up);
    var remove := PendingRemove(GetModels(row.models), up);
    var auto := allowAutoApply && row.settings.autoSync && add != [];
    var merged := Merge(Local(row), add);
    Row(if auto && |merged| > |Local(row)| then Join(merged, ',') else row.models,
        row.settings.(detected := if auto then [] else add, removed := remove, lastCheck := now))
  }

  function Applied(row: Row, add: seq<string>, ignore: seq<string>, remove: seq<string>, now: int): Row {
    var pendingAdd, pendingRemove := Normalize(row.settings.detected), Normalize(row.settings.removed);
    var addModels, ignoreModels := Intersect(add, pendingAdd), Intersect(ignore, pendingAdd);
    var removeModels := Subtract(Intersect(remove, pendingRemove), addModels);
    var next := ApplySelected(Local(row), addModels, removeModels);
    Row(if next != Local(row) then Join(next, ',') else row.models,
        SettingsAfter(row.settings, addModels, ignoreModels, removeModels, now))
  }

  /** The pending and ignored lists once the selected names are dealt with. */
  function SettingsAfter(settings: Settings, add: seq<string>, ignore: seq<string>, remove: seq<string>,
                         now: int): Settings {
    var ignored := Merge(settings.ignored, ignore);
    settings.(
      ignored := if add == [] then ignored else Subtract(ignored, add),
      detected := Subtract(Normalize(settings.detected), add + ignore),
      removed := Subtract(Normalize(settings.removed), remove),
      lastCheck := now)
  }

  datatype CheckOutcome = Skipped | FetchFailed | SaveFailed | Checked(modelsChanged: bool, autoAdded: int)

  datatype ApplyOutcome =
    | ApplySaveFailed
    | Changed(added: seq<string>, removed: seq<string>, remaining: seq<string>, remainingRemove: seq<string>,
              modelsChanged: bool)

  /** The stored channel row. A step works on a copy and stores it at the end, if the database accepts it. */
  class Channel {
    var models: string
    var settings: Settings

    constructor (row: Row)
      ensures Stored() == row
    {
      models := row.models;
      settings := row.settings;
    }

    function Stored(): Row
      reads this
    {
      Row(models, settings)
    }

    /** `fetched` and `saved` say whether the upstream answered and whether the database accepted the update. */
    method CheckAndPersist(up: Upstream, now: int, force: bool, minInterval: int, allowAutoApply: bool, fetched: bool,
                           saved: bool)
      returns (outcome: CheckOutcome)
      modifies this
      ensures Stored() == Next(old(Stored()), Detect(now, force, minInterval, allowAutoApply, fetched, saved), up)
      ensures outcome
           == (if !force && old(settings).lastCheck > 0 && now - old(settings).lastCheck < minInterval then Skipped
               else if !saved then SaveFailed
               else if !fetched then FetchFailed
               else
                 var add := PendingAdd(GetModels(old(models)), old(settings).ignored, up);
                 var added := if allowAutoApply && old(settings).autoSync then |add| else 0;
                 Checked(added > 0, added))
    {
      PendingIsMerged(Stored(), up);
      hide Normalize, GetModels, PendingAdd, PendingRemove, Merge, Join, Applied;
      var working := settings;
      if !force {
        if working.lastCheck > 0 && now - working.lastCheck < minInterval {
          return Skipped;
        }
      }
      working := working.(lastCheck := now);
      if !fetched {
        if !saved {
          return SaveFailed;
        }
        settings := working;
        return FetchFailed;
      }
      var pendingAdd, pendingRemove := CollectPending(GetModels(models), working.ignored, up);
      var workingModels := models;
      var modelsChanged, autoAdded := false, 0;
      if allowAutoApply && working.autoSync && |pendingAdd| > 0 {
        var originModels := Normalize(GetModels(models));
        var merged := MergeModelNames(originModels, pendingAdd);
        assert merged == Merge(Local(Stored()), pendingAdd);
        if |merged| > |originModels| {
          workingModels := Join(merged, ',');
          autoAdded := |merged| - |originModels|;
          modelsChanged := true;
        }
        working := working.(detected := []);
      } else {
        working := working.(detected := pendingAdd);
      }
      working := working.(removed := pendingRemove);
      if !saved {
        return SaveFailed;
      }
      settings := working;
      if modelsChanged {
        models := workingModels;
      }
      return Checked(modelsChanged, autoAdded);
    }

    method ApplyUpdates(add: seq<string>, ignore: seq<string>, remove: seq<string>, now: int, saved: bool)
      returns (outcome: ApplyOutcome)
      modifies this
      ensures Stored() == if saved then Applied(old(Stored()), add, ignore, remove, now) else old(Stored())
      ensures outcome
           == (if !saved then ApplySaveFailed
               else
                 var added := Intersect(add, Normalize(old(settings).detected));
                 var removed := Subtract(Intersect(remove, Normalize(old(settings).removed)), added);
                 Changed(added, removed, settings.detected, settings.removed,
                         ApplySelected(Local(old(Stored())), added, removed) != Local(old(Stored()))))
    {
      hide Normalize, Intersect, Subtract, Merge, ApplySelected, GetModels, SettingsAfter, Join;
      var addModels, ignoreModels, removeModels :=
        SelectPending(Normalize(settings.detected), Normalize(settings.removed), add, ignore, remove);
      var originModels := Normalize(GetModels(models));
      var nextModels := ApplySelectedModelChanges(originModels, addModels, removeModels);
      var modelsChanged := originModels != nextModels;
      var working := UpdateSettings(settings, addModels, ignoreModels, removeModels, now);
      if !saved {
        return ApplySaveFailed;
      }
      settings := working;
      if modelsChanged {
        models := Join(nextModels, ',');
      }
      return Changed(addModels, removeModels, working.detected, working.removed, modelsChanged);
    }
  }

  method UpdateSettings(settings: Settings, add: seq<string>, ignore: seq<string>, remove: seq<string>, now: int)
    returns (working: Settings)
    ensures working == SettingsAfter(settings, add, ignore, remove, now)
  {
    var ignored := MergeModelNames(settings.ignored, ignore);
    if |add| > 0 {
      ignored := SubtractModelNames(ignored, add);
    }
    var remaining := SubtractModelNames(Normalize(settings.detected), add + ignore);
    var remainingRemove := SubtractModelNames(Normalize(settings.removed), remove);
    working := settings.(ignored := ignored, detected := remaining, removed := remainingRemove, lastCheck := now);
  }

  /** Only names that are pending can be selected, and a name to be added is not removed. */
  method SelectPending(pendingAdd: seq<string>, pendingRemove: seq<string>,
                       add: seq<string>, ignore: seq<string>, remove: seq<string>)
    returns (addModels: seq<string>, ignoreModels: seq<string>, removeModels: seq<string>)
    ensures addModels == Intersect(add, pendingAdd)
    ensures ignoreModels == Intersect(ignore, pendingAdd)
    ensures removeModels == Subtract(Intersect(remove, pendingRemove), addModels)
  {
    addModels := IntersectModelNames(add, pendingAdd);
    ignoreModels := IntersectModelNames(ignore, pendingAdd);
    removeModels := IntersectModelNames(remove, pendingRemove);
    removeModels := SubtractModelNames(removeModels, addModels);
  }

  lemma IntersectIsNormalized(base: seq<string>, allowed: seq<string>)
    ensures Normalized(Intersect(base, allowed)) && Normalize(Intersect(base, allowed)) == Intersect(base, allowed)
    ensures forall m | m in Intersect(base, allowed) :: m in Normalize(base) && m in Normalize(allowed)
  {
    NormalizeIsNormalized(base);
    FilterNormalized(Normalize(base), In(Normalize(allowed)));
    NormalizeFixed(Intersect(base, allowed));
  }

  // ----- runs -----

  datatype Step =
    | Detect(now: int, force: bool, minInterval: int, allowAutoApply: bool, fetched: bool, saved: bool)
    | Apply(add: seq<string>, ignore: seq<string>, remove: seq<string>, now: int, saved: bool)

  function Next(row: Row, step: Step, up: Upstream): Row {
    match step
    case Detect(now, force, minInterval, allowAutoApply, fetched, saved) =>
      if !force && row.settings.lastCheck > 0 && now - row.settings.lastCheck < minInterval then row
      else if !saved then row
      else if !fetched then row.(settings := row.settings.(lastCheck := now))
      else Detected(row, up, now, allowAutoApply)
    case Apply(add, ignore, remove, now, saved) =>
      if saved then Applied(row, add, ignore, remove, now) else row
  }

  function Run(row: Row, steps: seq<Step>, up: Upstream): Row
    decreases |steps|
  {
    if steps == [] then row else Run(Next(row, steps[0], up), steps[1..], up)
  }

  /** The stored pending lists are what a detection would find now. */
  ghost predicate Fresh(row: Row, up: Upstream) {
    && row.settings.detected == PendingAdd(GetModels(row.models), row.settings.ignored, up)
    && row.settings.removed == PendingRemove(GetModels(row.models), up)
  }

  /** The names that can become pending additions. */
  ghost predicate Candidate(m: string, up: Upstream) {
    m in Normalize(up.models) && m !in up.mapping.Values
  }

  /** The names of the upstream can be stored, and as ignore entries they mean just themselves. */
  ghost predicate Plain(up: Upstream) {
    && (forall m | Candidate(m, up) :: ',' !in m)
    && (forall entry, m | Candidate(entry, up) && Candidate(m, up) :: Ignores(entry, m, up.matches) <==> entry == m)
  }

  lemma LocalFacts(row: Row)
    ensures Normalized(Local(row)) && forall m | m in Local(row) :: ',' !in m
  {
    NormalizeIsNormalized(GetModels(row.models));
    NormalizeKeepsFree(GetModels(row.models), ',');
  }

  lemma PendingFacts(row: Row, up: Upstream)
    ensures Normalized(Local(row)) && forall m | m in Local(row) :: ',' !in m
    ensures var add := PendingAdd(GetModels(row.models), row.settings.ignored, up);
            Normalized(add) && forall m | m in add :: Candidate(m, up) && m !in Local(row)
    ensures var remove := PendingRemove(GetModels(row.models), up);
            Normalized(remove) && forall m | m in remove :: m in Local(row) && m !in Normalize(up.models)
  {
    LocalFacts(row);
    PendingListsNormalized(GetModels(row.models), row.settings.ignored, up);
  }

  /** A detection leaves fresh pending lists, also when it adds what it found at once. */
  lemma DetectionIsFresh(row: Row, up: Upstream, now: int, allowAutoApply: bool)
    requires Plain(up)
    ensures Fresh(Detected(row, up, now, allowAutoApply), up)
  {
    var local := Local(row);
    var add := PendingAdd(GetModels(row.models), row.settings.ignored, up);
    var next := Detected(row, up, now, allowAutoApply);
    PendingFacts(row, up);
    if allowAutoApply && row.settings.autoSync && add != [] {
      MergeDisjoint(local, add);
      StoredNamesReadBack(local + add);
      assert Local(next) == local + add;
      AutoSyncIsFresh(row, up, add);
    }
  }

  /** Once every pending addition is local, nothing is new and the same models are gone. */
  lemma AutoSyncIsFresh(row: Row, up: Upstream, add: seq<string>)
    requires add == PendingAdd(GetModels(row.models), row.settings.ignored, up)
    ensures Filter(Normalize(up.models), IsNew(Local(row) + add, Normalize(row.settings.ignored), up)) == []
    ensures Filter(Local(row) + add, IsGone(up)) == PendingRemove(GetModels(row.models), up)
  {
    PendingFacts(row, up);
    FilterNone(Normalize(up.models), IsNew(Local(row) + add, Normalize(row.settings.ignored), up));
    FilterOfConcat(Local(row), add, IsGone(up));
    FilterNone(add, IsGone(up));
  }

  /** What an application selects from fresh pending lists. */
  ghost predicate Selected(row: Row, up: Upstream, add: seq<string>, ignore: seq<string>, remove: seq<string>) {
    && Normalized(add) && Normalized(ignore) && Normalized(remove)
    && (forall m | m in add :: m in row.settings.detected)
    && (forall m | m in ignore :: m in row.settings.detected)
    && (forall m | m in remove :: m in row.settings.removed)
  }

  /** The same step on the already selected names, without the normalisations. */
  lemma AppliedUnfolds(row: Row, up: Upstream, add: seq<string>, ignore: seq<string>, remove: seq<string>, now: int)
    requires Fresh(row, up)
    ensures var detected := row.settings.detected;
            var a, g, r := Intersect(add, detected), Intersect(ignore, detected),
                Intersect(remove, row.settings.removed);
            var next := Applied(row, add, ignore, remove, now);
            && Selected(row, up, a, g, r)
            && ((forall m | m in a :: ',' !in m) ==> Local(next) == Without(Local(row) + a, r))
            && next.settings.detected == Without(row.settings.detected, a + g)
            && next.settings.removed == Without(row.settings.removed, r)
            && forall entry :: entry in Normalize(next.settings.ignored)
                 <==> (entry in Normalize(row.settings.ignored) || entry in g) && entry !in a
  {
    hide Normalize, GetModels, Filter, PendingAdd, PendingRemove, TrimSpace;
    var s := row.settings;
    var a, g, r := Intersect(add, s.detected), Intersect(ignore, s.detected), Intersect(remove, s.removed);
    PendingFacts(row, up);
    NormalizeFixed(s.detected);
    NormalizeFixed(s.removed);
    IntersectIsNormalized(add, s.detected);
    IntersectIsNormalized(ignore, s.detected);
    IntersectIsNormalized(remove, s.removed);
    FilterAll(r, NotIn(a));
    assert Subtract(r, a) == r;
    if forall m | m in a :: ',' !in m {
      LocalAfter(row, up, a, r);
    }
    IgnoredAfter(s.ignored, g, a);
    SubtractBoth(s.detected, a, g);
  }

  lemma SubtractBoth(pending: seq<string>, a: seq<string>, g: seq<string>)
    requires Normalized(pending) && Normalized(a) && Normalized(g)
    ensures Subtract(pending, a + g) == Without(pending, a + g)
  {
    NormalizeFixed(pending);
    TrimAllContents(a + g);
    assert TrimAll(a + g) == a + g;
    FilterAll(a + g, m => m != "");
    FilterAgrees(pending, NotIn(Normalize(a + g)), NotIn(a + g));
  }

  lemma LocalAfter(row: Row, up: Upstream, a: seq<string>, r: seq<string>)
    requires Fresh(row, up) && Selected(row, up, a, [], r) && forall m | m in a :: ',' !in m
    ensures var next := ApplySelected(Local(row), a, r);
            && next == Without(Local(row) + a, r)
            && Normalize(GetModels(if next != Local(row) then Join(next, ',') else row.models)) == next
  {
    var local := Local(row);
    PendingFacts(row, up);
    NormalizeFixed(a);
    NormalizeFixed(r);
    MergeDisjoint(local, a);
    FilterAll(r, NotIn(a));
    assert Subtract(r, a) == r;
    NormalizeFixed(local + a);
    FilterNormalized(local + a, NotIn(r));
    StoredNamesReadBack(Without(local + a, r));
  }

  lemma IgnoredAfter(ignored: seq<string>, g: seq<string>, a: seq<string>)
    requires Normalized(g) && Normalized(a)
    ensures var merged := Merge(ignored, g);
            forall entry :: entry in Normalize(if a == [] then merged else Subtract(merged, a))
              <==> (entry in Normalize(ignored) || entry in g) && entry !in a
  {
    NormalizeFixed(g);
    NormalizeFixed(a);
    NormalizeIsNormalized(ignored);
    FilterNormalized(g, NotIn(Normalize(ignored)));
    ConcatNormalized(Normalize(ignored), Without(g, Normalize(ignored)));
    var merged := Merge(ignored, g);
    NormalizeFixed(merged);
    FilterNormalized(merged, NotIn(a));
    NormalizeFixed(Without(merged, a));
  }

  /** Any choice of additions, ignored names and removals leaves fresh pending lists. */
  lemma ApplicationIsFresh(row: Row, up: Upstream, add: seq<string>, ignore: seq<string>, remove: seq<string>, now: int)
    requires Fresh(row, up) && Plain(up)
    ensures Fresh(Applied(row, add, ignore, remove, now), up)
  {
    var s := row.settings;
    var a, g, r := Intersect(add, s.detected), Intersect(ignore, s.detected), Intersect(remove, s.removed);
    var next := Applied(row, add, ignore, remove, now);
    PendingFacts(row, up);
    AppliedUnfolds(row, up, add, ignore, remove, now);
    StillNew(row, next, up, a, g, r);
    StillGone(Local(row), up, a, r);
  }

  lemma StillNew(row: Row, next: Row, up: Upstream, a: seq<string>, g: seq<string>, r: seq<string>)
    requires Fresh(row, up) && Plain(up) && Selected(row, up, a, g, r)
    requires Local(next) == Without(Local(row) + a, r)
    requires forall entry :: entry in Normalize(next.settings.ignored)
               <==> (entry in Normalize(row.settings.ignored) || entry in g) && entry !in a
    ensures PendingAdd(GetModels(next.models), next.settings.ignored, up) == Without(row.settings.detected, a + g)
  {
    hide Normalize, GetModels, Filter, IsIgnored, Ignores, NoDuplicates;
    var upstream := Normalize(up.models);
    var was := IsNew(Local(row), Normalize(row.settings.ignored), up);
    var is' := IsNew(Local(next), Normalize(next.settings.ignored), up);
    PendingFacts(row, up);
    forall m | m in upstream ensures is'(m) == (was(m) && NotIn(a + g)(m)) {
      assert m in Local(next) <==> m in Local(row) || m in a;
      if m !in up.mapping.Values && m !in Local(row) && m !in a {
        IgnoredMeansListed(m, row.settings.ignored, next.settings.ignored, g, a, up);
      }
    }
    FilterTwice(upstream, was, NotIn(a + g), is');
  }

  lemma StillGone(local: seq<string>, up: Upstream, a: seq<string>, r: seq<string>)
    requires forall m | m in a :: m in Normalize(up.models)
    ensures Filter(Without(local + a, r), IsGone(up)) == Without(Filter(local, IsGone(up)), r)
  {
    FilterOfConcat(local, a, IsGone(up));
    FilterNone(a, IsGone(up));
    assert Filter(local + a, IsGone(up)) == Filter(local, IsGone(up));
    FilterCommutes(local + a, NotIn(r), IsGone(up));
  }

  lemma IgnoredMeansListed(m: string, before: seq<string>, after: seq<string>, g: seq<string>, a: seq<string>,
                           up: Upstream)
    requires Plain(up) && Candidate(m, up) && m !in a
    requires forall entry | entry in g || entry in a :: Candidate(entry, up)
    requires forall entry :: entry in Normalize(after) <==> (entry in Normalize(before) || entry in g) && entry !in a
    ensures IsIgnored(Normalize(after), m, up.matches) <==> IsIgnored(Normalize(before), m, up.matches) || m in g
  {
    if m in g {
      assert Ignores(m, m, up.matches);
    }
  }

  ghost predicate NeedsFetch(step: Step) {
    step.Detect? && step.force && step.fetched && step.saved
  }

  /** Over every run, fresh pending lists stay fresh. */
  lemma {:induction false} RunStaysFresh(row: Row, steps: seq<Step>, up: Upstream)
    requires Fresh(row, up) && Plain(up)
    ensures Fresh(Run(row, steps, up), up)
    decreases |steps|
  {
    if steps != [] {
      var step := steps[0];
      if step.Detect? {
        DetectionIsFresh(row, up, step.now, step.allowAutoApply);
      } else {
        ApplicationIsFresh(row, up, step.add, step.ignore, step.remove, step.now);
      }
      RunStaysFresh(Next(row, step, up), steps[1..], up);
    }
  }

  /** From any stored row whatever, one forced detection makes the rest of the run fresh. */
  lemma RunAfterDetectionIsFresh(row: Row, steps: seq<Step>, up: Upstream)
    requires Plain(up) && steps != [] && NeedsFetch(steps[0])
    ensures Fresh(Run(row, steps, up), up)
  {
    DetectionIsFresh(row, up, steps[0].now, steps[0].allowAutoApply);
    RunStaysFresh(Next(row, steps[0], up), steps[1..], up);
  }

  /** Applying everything that is pending reaches a fixed point: nothing is pending and detecting again finds
      nothing. */
  lemma ApplyAllReachesFixedPoint(row: Row, up: Upstream, now: int, later: int, allowAutoApply: bool)
    requires Fresh(row, up) && Plain(up)
    ensures var next := Applied(row, row.settings.detected, [], row.settings.removed, now);
            && next.settings.detected == [] && next.settings.removed == []
            && Detected(next, up, later, allowAutoApply) == next.(settings := next.settings.(lastCheck := later))
            && Local(next) == Without(Local(row), row.settings.removed) + row.settings.detected
  {
    var s := row.settings;
    PendingFacts(row, up);
    NormalizeFixed(s.detected);
    NormalizeFixed(s.removed);
    FilterAll(s.detected, In(s.detected));
    FilterAll(s.removed, In(s.removed));
    AppliedUnfolds(row, up, s.detected, [], s.removed, now);
    ApplicationIsFresh(row, up, s.detected, [], s.removed, now);
    var a, g, r := Intersect(s.detected, s.detected), Intersect([], s.detected), Intersect(s.removed, s.removed);
    FilterNone(s.detected, NotIn(a + g));
    FilterNone(s.removed, NotIn(r));
    FilterOfConcat(Local(row), a, NotIn(r));
    FilterAll(a, NotIn(r));
  }

  // ----- the condition on the upstream names is exact -----

  ghost predicate AllRunsStayFresh(up: Upstream) {
    forall row, steps | Fresh(row, up) :: Fresh(Run(row, steps, up), up)
  }

  /** A channel without models, for which every candidate is pending. */
  lemma FreshRowExists(up: Upstream) returns (row: Row)
    ensures Fresh(row, up)
    ensures forall m :: m in row.settings.detected <==> Candidate(m, up)
  {
    row := Row("", Settings(PendingAdd([], [], up), [], [], 0, false));
  }

  lemma BreaksRuns(row: Row, step: Step, up: Upstream)
    requires Fresh(row, up) && !Fresh(Next(row, step, up), up)
    ensures !AllRunsStayFresh(up)
  {
    assert [step][1..] == [];
    assert !Fresh(Run(row, [step], up), up);
  }

  lemma PendingMembers(row: Row, up: Upstream, m: string)
    ensures m in PendingAdd(GetModels(row.models), row.settings.ignored, up)
       <==> && m in Normalize(up.models) && m !in up.mapping.Values && m !in Local(row)
            && !IsIgnored(Normalize(row.settings.ignored), m, up.matches)
  {
    hide Normalize, GetModels, Filter, IsIgnored;
  }

  /** A name on which the stored list and a new detection differ after an application. */
  lemma NameBreaksRuns(row: Row, up: Upstream, m: string, step: Step)
    requires Fresh(row, up) && step.Apply? && step.saved
    requires var next := Applied(row, step.add, step.ignore, step.remove, step.now);
             (m in next.settings.detected) != (m in PendingAdd(GetModels(next.models), next.settings.ignored, up))
    ensures !AllRunsStayFresh(up)
  {
    hide Applied, PendingAdd, PendingRemove, GetModels, Run, AllRunsStayFresh;
    BreaksRuns(row, step, up);
  }

  /** The selected name leaves the stored list, and it is not ignored. */
  lemma CommaLeavesList(row: Row, up: Upstream, m: string, step: Step)
    requires Fresh(row, up) && m in row.settings.detected
    requires step.Apply? && m in Normalize(step.add) && step.ignore == []
    ensures var next := Applied(row, step.add, step.ignore, step.remove, step.now);
            && m !in next.settings.detected
            && forall entry | entry in Normalize(next.settings.ignored) :: entry in Normalize(row.settings.ignored)
  {
    var g := Intersect(step.ignore, row.settings.detected);
    PendingFacts(row, up);
    AppliedUnfolds(row, up, step.add, step.ignore, step.remove, step.now);
    NormalizeFixed(row.settings.detected);
    assert g == [];
    hide Applied, Normalize, GetModels, Filter, Fresh, Selected, Candidate, PendingAdd, PendingRemove, Normalized,
         Local;
  }

  /** A pending name that contains the separator is added but stays pending in a fresh detection. */
  lemma CommaBreaksFreshness(row: Row, up: Upstream, m: string, step: Step)
    requires Fresh(row, up) && m in row.settings.detected && ',' in m
    requires step.Apply? && step.saved && m in Normalize(step.add) && step.ignore == []
    ensures !AllRunsStayFresh(up)
  {
    var next := Applied(row, step.add, step.ignore, step.remove, step.now);
    CommaLeavesList(row, up, m, step);
    PendingMembers(row, up, m);
    PendingMembers(next, up, m);
    LocalFacts(next);
    hide Applied, Normalize, GetModels, Local, PendingAdd, PendingRemove, Ignores, AllRunsStayFresh;
    NameBreaksRuns(row, up, m, step);
  }

  /** The one selected entry is ignored from now on, and leaves the stored list alone. */
  lemma EntryIsIgnored(row: Row, up: Upstream, entry: string, step: Step)
    requires Fresh(row, up) && entry in row.settings.detected && step.Apply? && step.add == []
    requires Normalize(step.ignore) == [entry] && step.remove == []
    ensures var next := Applied(row, step.add, step.ignore, step.remove, step.now);
            && (forall x ::
                  x in Normalize(next.settings.ignored) <==> x in Normalize(row.settings.ignored) || x == entry)
            && (forall x :: x in next.settings.detected <==> x in row.settings.detected && x != entry)
            && Local(next) == Local(row)
  {
    var a, g := Intersect(step.add, row.settings.detected), Intersect(step.ignore, row.settings.detected);
    var r := Intersect(step.remove, row.settings.removed);
    PendingFacts(row, up);
    AppliedUnfolds(row, up, step.add, step.ignore, step.remove, step.now);
    NormalizeFixed(row.settings.detected);
    assert a == [] && r == [];
    assert forall x :: x in g <==> x == entry;
    FilterAll(Local(row), NotIn(r));
    assert Local(row) + a == Local(row);
    hide Applied, Normalize, GetModels, Filter, Fresh, Selected, Candidate, PendingAdd, PendingRemove, Normalized,
         Local, Intersect;
  }

  lemma IgnoredByOneMore(before: seq<string>, after: seq<string>, entry: string, m: string, matches: Matcher)
    requires forall x :: x in after <==> x in before || x == entry
    ensures IsIgnored(after, m, matches) <==> IsIgnored(before, m, matches) || Ignores(entry, m, matches)
  {
    hide Ignores;
    assert entry in after;
  }

  /** An ignore entry that does not mean just itself makes the stored list differ from a fresh detection. */
  lemma PatternBreaksFreshness(row: Row, up: Upstream, entry: string, m: string, step: Step)
    requires Fresh(row, up) && entry in row.settings.detected && m in row.settings.detected
    requires Ignores(entry, m, up.matches) != (entry == m)
    requires step.Apply? && step.saved && step.add == [] && Normalize(step.ignore) == [entry] && step.remove == []
    ensures !AllRunsStayFresh(up)
  {
    var next := Applied(row, step.add, step.ignore, step.remove, step.now);
    EntryIsIgnored(row, up, entry, step);
    PendingMembers(row, up, m);
    PendingMembers(next, up, m);
    hide Applied, Normalize, GetModels, Local, PendingAdd, PendingRemove, Ignores, IsIgnored, AllRunsStayFresh;
    IgnoredByOneMore(Normalize(row.settings.ignored), Normalize(next.settings.ignored), entry, m, up.matches);
    NameBreaksRuns(row, up, m, step);
  }

  /** Reconciliation is sound for an upstream exactly when its candidate names contain no comma and,
      read as ignore entries, each means itself and no other candidate. */
  lemma PlainIsExact(up: Upstream)
    ensures AllRunsStayFresh(up) <==> Plain(up)
  {
    if Plain(up) {
      forall row, steps | Fresh(row, up) ensures Fresh(Run(row, steps, up), up) {
        RunStaysFresh(row, steps, up);
      }
    } else {
      NotPlainBreaksFreshness(up);
    }
  }

  lemma NotPlainBreaksFreshness(up: Upstream)
    requires !Plain(up)
    ensures !AllRunsStayFresh(up)
  {
    var row := FreshRowExists(up);
    if m :| Candidate(m, up) && ',' in m {
      var step := StepThatAdds(m, up);
      CommaBreaksFreshness(row, up, m, step);
    } else {
      var entry, m :| Candidate(entry, up) && Candidate(m, up) && Ignores(entry, m, up.matches) != (entry == m);
      var step := StepThatIgnores(entry, up);
      PatternBreaksFreshness(row, up, entry, m, step);
    }
  }

  lemma StepThatAdds(m: string, up: Upstream) returns (step: Step)
    requires Candidate(m, up)
    ensures step.Apply? && step.saved && m in Normalize(step.add) && step.ignore == []
  {
    NormalizeIsNormalized(up.models);
    NormalizeFixed([m]);
    step := Apply([m], [], [], 0, true);
  }

  lemma StepThatIgnores(entry: string, up: Upstream) returns (step: Step)
    requires Candidate(entry, up)
    ensures step.Apply? && step.saved && step.add == [] && Normalize(step.ignore) == [entry] && step.remove == []
  {
    NormalizeIsNormalized(up.models);
    NormalizeFixed([entry]);
    step := Apply([], [entry], [], 0, true);
  }
}
