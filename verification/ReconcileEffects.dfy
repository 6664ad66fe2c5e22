/** What detections and applications do to a channel, name by name. */
module ReconcileEffects {
  import opened Lists
  import opened ModelReconcile
  import opened Names
  import opened Text

  // ----- name lists -----

  /** The list has the name, perhaps with blanks around it. */
  ghost predicate Has(models: seq<string>, m: string) {
    m != "" && exists x :: x in models && TrimSpace(x) == m
  }

  lemma NormalizeHas(models: seq<string>, m: string)
    ensures m in Normalize(models) <==> Has(models, m)
  {
    NormalizeMembers(models);
    TrimAllContents(models);
    hide TrimSpace, Normalize;
    if m in TrimAll(models) {
      var i :| 0 <= i < |TrimAll(models)| && TrimAll(models)[i] == m;
      assert models[i] in models;
    }
    if x :| x in models && TrimSpace(x) == m {
      var i :| 0 <= i < |models| && models[i] == x;
      assert TrimAll(models)[i] == m;
    }
  }

  /** The base names come first, in their order; what is merged, taken away, kept and selected, name by name. */
  lemma NameListsAre(base: seq<string>, other: seq<string>, m: string)
    ensures m in Merge(base, other) <==> Has(base, m) || Has(other, m)
    ensures Normalize(base) <= Merge(base, other)
    ensures m in Subtract(base, other) <==> Has(base, m) && !Has(other, m)
    ensures m in Intersect(base, other) <==> Has(base, m) && Has(other, m)
  {
    NormalizeHas(base, m);
    NormalizeHas(other, m);
    hide Normalize, Has;
  }

  /** Adding wins over removing. */
  lemma SelectionIs(origin: seq<string>, add: seq<string>, remove: seq<string>, m: string)
    ensures m in ApplySelected(origin, add, remove)
       <==> Has(add, m) || (Has(origin, m) && !Has(remove, m))
  {
    var normalized := Normalize(add);
    var removed := Subtract(Normalize(remove), normalized);
    NormalizeIsNormalized(add);
    NormalizeIsNormalized(remove);
    NormalizeFixed(normalized);
    NormalizeFixed(Normalize(remove));
    FilterNormalized(Normalize(remove), NotIn(normalized));
    NormalizeFixed(removed);
    MergeIsNormalized(origin, normalized);
    NormalizeFixed(Merge(origin, normalized));
    NormalizeHas(add, m);
    NormalizeHas(origin, m);
    NormalizeHas(remove, m);
    hide Normalize, Has, Normalized;
  }

  lemma MergeIsNormalized(base: seq<string>, other: seq<string>)
    ensures Normalized(Merge(base, other))
  {
    NormalizeIsNormalized(base);
    NormalizeIsNormalized(other);
    FilterNormalized(Normalize(other), NotIn(Normalize(base)));
    ConcatNormalized(Normalize(base), Without(Normalize(other), Normalize(base)));
  }

  // ----- what is pending -----

  /** The ignore list has the name itself, or a regular expression that matches it. */
  lemma IgnoredMeans(ignored: seq<string>, m: string, matches: Matcher)
    ensures IsIgnored(ignored, m, matches)
       <==> (m in ignored && !("regex:" <= m)) || exists p :: "regex:" + p in ignored && matches(TrimSpace(p), m)
  {
    hide TrimSpace;
    if entry :| entry in ignored && Ignores(entry, m, matches) && "regex:" <= entry {
      assert entry == "regex:" + entry[6..];
    }
    if p :| "regex:" + p in ignored && matches(TrimSpace(p), m) {
      assert ("regex:" + p)[6..] == p;
      assert Ignores("regex:" + p, m, matches);
    }
    if m in ignored && !("regex:" <= m) {
      assert Ignores(m, m, matches);
    }
  }

  /** A name becomes a pending addition when the upstream offers it, and it is neither local nor the target of a
      redirect nor ignored. */
  ghost predicate ToAdd(local: seq<string>, ignored: seq<string>, up: Upstream, m: string) {
    && Has(up.models, m) && !Has(local, m)
    && !(exists source :: source in up.mapping && up.mapping[source] == m)
    && !(Has(ignored, m) && !("regex:" <= m))
    && !(exists p :: Has(ignored, "regex:" + p) && up.matches(TrimSpace(p), m))
  }

  /** A name becomes a pending removal when it is local, and the upstream does not offer it, unless it is the source of
      a redirect. */
  ghost predicate ToRemove(local: seq<string>, up: Upstream, m: string) {
    Has(local, m) && !Has(up.models, m) && m !in up.mapping
  }

  lemma PendingAre(local: seq<string>, ignored: seq<string>, up: Upstream, m: string)
    ensures m in PendingAdd(local, ignored, up) <==> ToAdd(local, ignored, up, m)
    ensures m in PendingRemove(local, up) <==> ToRemove(local, up, m)
  {
    NormalizeHas(local, m);
    NormalizeHas(up.models, m);
    IgnoredMeans(Normalize(ignored), m, up.matches);
    NormalizeHas(ignored, m);
    forall p ensures "regex:" + p in Normalize(ignored) <==> Has(ignored, "regex:" + p) {
      NormalizeHas(ignored, "regex:" + p);
    }
    assert m in up.mapping.Values <==> exists source :: source in up.mapping && up.mapping[source] == m;
    hide Normalize, Has, IsIgnored, TrimSpace;
  }

  // ----- one detection -----

  /** A detection runs if it is forced, the first one, or late enough. */
  ghost predicate Runs(row: Row, now: int, force: bool, minInterval: int) {
    force || row.settings.lastCheck <= 0 || now - row.settings.lastCheck >= minInterval
  }

  /** A detection that does not run or cannot be stored changes nothing; one whose fetch failed notes the time and
      nothing else. */
  lemma DetectionRuns(row: Row, now: int, force: bool, minInterval: int, allowAutoApply: bool, fetched: bool,
                      saved: bool, up: Upstream)
    ensures var next := Next(row, Detect(now, force, minInterval, allowAutoApply, fetched, saved), up);
            && (!Runs(row, now, force, minInterval) || !saved ==> next == row)
            && (Runs(row, now, force, minInterval) && saved ==> next.settings.lastCheck == now)
            && (Runs(row, now, force, minInterval) && saved && !fetched ==>
                  next == row.(settings := row.settings.(lastCheck := now)))
  {
    hide PendingAdd, PendingRemove, Merge, GetModels, Local, Join;
  }

  /** What a detection finds is stored as pending, unless the caller allows and the channel wants it to be added at
      once: then it is local, and nothing is left to add. */
  lemma DetectionStores(row: Row, now: int, force: bool, minInterval: int, allowAutoApply: bool, up: Upstream,
                        m: string)
    requires Runs(row, now, force, minInterval) && forall x | Has(up.models, x) :: ',' !in x
    ensures var next := Next(row, Detect(now, force, minInterval, allowAutoApply, true, true), up);
            var local, ignored := GetModels(row.models), row.settings.ignored;
            var atOnce := allowAutoApply && row.settings.autoSync;
            && (m in next.settings.removed <==> ToRemove(local, up, m))
            && (m in next.settings.detected <==> !atOnce && ToAdd(local, ignored, up, m))
            && (m in Local(next) <==> Has(local, m) || (atOnce && ToAdd(local, ignored, up, m)))
            && next.settings.ignored == ignored && next.settings.autoSync == row.settings.autoSync
  {
    var local := GetModels(row.models);
    var add := PendingAdd(local, row.settings.ignored, up);
    PendingAre(local, row.settings.ignored, up, m);
    NormalizeHas(local, m);
    forall x | x in add ensures ',' !in x {
      PendingAre(local, row.settings.ignored, up, x);
    }
    PendingFacts(row, up);
    LocalFacts(row);
    MergeDisjoint(Local(row), add);
    StoredNamesReadBack(Local(row) + add);
    hide PendingAdd, PendingRemove, Merge, GetModels, Join, Normalize, Has, ToAdd, ToRemove, Normalized;
  }

  // ----- one application -----

  /** From fresh lists: a pending name that is selected is added or ignored, and removed if it is pending removal; all
      other names stay as they are. */
  lemma ApplicationIs(row: Row, up: Upstream, add: seq<string>, ignore: seq<string>, remove: seq<string>, now: int,
                      m: string)
    requires Fresh(row, up) && forall x | Has(up.models, x) :: ',' !in x
    ensures var next, s := Applied(row, add, ignore, remove, now), row.settings;
            && (m in Local(next) <==>
                  || (m in s.detected && Has(add, m))
                  || (m in Local(row) && !(m in s.removed && Has(remove, m))))
            && (m in next.settings.detected <==> m in s.detected && !Has(add, m) && !Has(ignore, m))
            && (m in next.settings.removed <==> m in s.removed && !Has(remove, m))
            && (m in Normalize(next.settings.ignored) <==>
                  && (m in Normalize(s.ignored) || (m in s.detected && Has(ignore, m)))
                  && !(m in s.detected && Has(add, m)))
            && next.settings.lastCheck == now && next.settings.autoSync == s.autoSync
  {
    hide *;
    var s := row.settings;
    var a, g, r := Intersect(add, s.detected), Intersect(ignore, s.detected), Intersect(remove, s.removed);
    FreshFacts(row, up, m);
    forall x | x in a ensures ',' !in x {
      FreshFacts(row, up, x);
      ChosenAre(add, s.detected, x);
      NormalizeHas(up.models, x);
    }
    ChosenAre(add, s.detected, m);
    ChosenAre(ignore, s.detected, m);
    ChosenAre(remove, s.removed, m);
    AppliedUnfolds(row, up, add, ignore, remove, now);
    WithoutHas(Local(row) + a, r, m);
    WithoutHas(s.detected, a + g, m);
    WithoutHas(s.removed, r, m);
    ApplicationKeeps(row, add, ignore, remove, now);
  }

  lemma WithoutHas(models: seq<string>, removed: seq<string>, m: string)
    ensures m in Without(models, removed) <==> m in models && m !in removed
  {
  }

  lemma FreshFacts(row: Row, up: Upstream, m: string)
    requires Fresh(row, up)
    ensures Normalized(row.settings.detected) && Normalized(row.settings.removed)
    ensures m in row.settings.detected ==> m in Normalize(up.models) && m !in Local(row)
    ensures m in row.settings.removed ==> m in Local(row) && m !in Normalize(up.models)
  {
    PendingFacts(row, up);
  }

  lemma ChosenAre(chosen: seq<string>, pending: seq<string>, m: string)
    requires Normalized(pending)
    ensures m in Intersect(chosen, pending) <==> Has(chosen, m) && m in pending
  {
    NormalizeFixed(pending);
    NormalizeHas(chosen, m);
    hide Normalize, Has;
  }

  lemma ApplicationKeeps(row: Row, add: seq<string>, ignore: seq<string>, remove: seq<string>, now: int)
    ensures var next := Applied(row, add, ignore, remove, now);
            next.settings.lastCheck == now && next.settings.autoSync == row.settings.autoSync
  {
    hide Intersect, Subtract, Merge, Normalize, ApplySelected, Local, Join;
  }

  // ----- runs -----

  /** The upstream offers it, or it is the source of a redirect. */
  ghost predicate Wanted(up: Upstream, m: string) {
    Has(up.models, m) || m in up.mapping
  }

  lemma NextKeepsWanted(row: Row, step: Step, up: Upstream, m: string)
    requires Fresh(row, up) && Plain(up) && m in Local(row) && Wanted(up, m)
    ensures m in Local(Next(row, step, up))
  {
    PendingAre(GetModels(row.models), row.settings.ignored, up, m);
    PendingFacts(row, up);
    var s := row.settings;
    hide Has, GetModels, Normalize, Normalized, IsIgnored, Ignores, PendingAdd, PendingRemove;
    if step.Detect? {
      DetectionKeepsLocal(row, step.now, step.allowAutoApply, up, m);
    } else if step.saved {
      var a, g, r := Intersect(step.add, s.detected), Intersect(step.ignore, s.detected),
          Intersect(step.remove, s.removed);
      AppliedUnfolds(row, up, step.add, step.ignore, step.remove, step.now);
      hide Applied, Intersect;
    }
  }

  lemma DetectionKeepsLocal(row: Row, now: int, allowAutoApply: bool, up: Upstream, m: string)
    requires Plain(up) && m in Local(row)
    ensures m in Local(Detected(row, up, now, allowAutoApply))
  {
    var add := PendingAdd(GetModels(row.models), row.settings.ignored, up);
    PendingFacts(row, up);
    LocalFacts(row);
    MergeDisjoint(Local(row), add);
    StoredNamesReadBack(Local(row) + add);
    hide PendingAdd, PendingRemove, Merge, GetModels, Join, Normalize, Normalized, Ignores;
  }

  /** Over every run a local name that the upstream offers, or that is the source of a redirect, stays local,
      whatever is selected. */
  lemma {:induction false} WantedStaysLocal(row: Row, steps: seq<Step>, up: Upstream, m: string)
    requires Fresh(row, up) && Plain(up) && m in Local(row) && Wanted(up, m)
    ensures m in Local(Run(row, steps, up))
    decreases |steps|
  {
    if steps != [] {
      NextKeepsWanted(row, steps[0], up, m);
      RunStaysFresh(row, [steps[0]], up);
      assert [steps[0]][1..] == [] && Run(row, [steps[0]], up) == Next(row, steps[0], up);
      hide Fresh, Plain, Next, Wanted, Local;
      WantedStaysLocal(Next(row, steps[0], up), steps[1..], up, m);
    }
  }
}
