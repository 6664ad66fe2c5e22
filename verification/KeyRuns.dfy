/** Runs that mix every way in which a multi-key channel is edited, and the times and reasons they leave behind. */
module KeyRuns {
  import opened KeyAppend
  import opened KeyCleanup
  import opened KeyDeletion
  import opened KeyList
  import opened Lists
  import opened MultiKey
  import opened Names
  import opened Text

  const MANUALLY_DISABLED := 2

  datatype Step =
    | DeleteKey(index: int)
    | DeleteDisabled
    | Append(input: string)
    | Replace(key: string)
    | Disable(index: int)
    | Enable(index: int)
    | EnableAll
    | DisableAll
    | AutoDisable(index: int, time: int, reason: string)   // a request with the key failed
    | AutoEnable(index: int)                               // ... and one with it succeeded

  function Entered(s: State, info: Info, parse: Parser): State {
    Saved(s, State(s.key, info), parse)
  }

  function Next(s: State, step: Step, parse: Parser): State {
    var info := s.info;
    match step
    case DeleteKey(index) => DeleteKeySpec(s, index, parse).0
    case DeleteDisabled => DeleteDisabledSpec(s, parse).0
    case Append(input) => Appended(s, input, parse)
    case Replace(key) => Saved(s, State(key, info), parse)
    case Disable(i) =>
      if 0 <= i < info.size then Entered(s, info.(status := info.status[i := MANUALLY_DISABLED]), parse) else s
    case Enable(i) =>
      if 0 <= i < info.size
      then Entered(s, info.(status := info.status - {i}, time := info.time - {i}, reason := info.reason - {i}), parse)
      else s
    case EnableAll => Entered(s, info.(status := map[], time := map[], reason := map[]), parse)
    case DisableAll =>
      var newly := NewlyDisabled(info);
      if newly == map[] then s else Entered(s, info.(status := info.status + newly), parse)
    case AutoDisable(i, time, reason) =>
      if 0 <= i < |GetKeys(s.key, parse)|
      then s.(info := info.(status := info.status[i := AUTO_DISABLED], time := info.time[i := time],
                            reason := info.reason[i := reason]))
      else s
    case AutoEnable(i) =>
      if 0 <= i < |GetKeys(s.key, parse)| then s.(info := info.(status := info.status - {i})) else s
  }

  /** The keys that were enabled. */
  function NewlyDisabled(info: Info): map<nat, int> {
    map i: nat | i < (if info.size >= 0 then info.size else 0) && StatusOf(info, i) == ENABLED :: MANUALLY_DISABLED
  }

  function Run(s: State, steps: seq<Step>, parse: Parser): State
    decreases |steps|
  {
    if steps == [] then s else Run(Next(s, steps[0], parse), steps[1..], parse)
  }

  /** The size is the number of keys, and no map has an entry beyond it. */
  ghost predicate Tidy(s: State, parse: Parser) {
    Consistent(s, parse) && InRange(s.info)
  }

  ghost predicate EmptyArray(key: string, parse: Parser) {
    key != "" && LooksLikeArray(key) && parse(TrimSpace(key)) == Array([])
  }

  /** Every time and reason is that of one of the keys that an update counts in this string. */
  ghost predicate TimesFit(info: Info, key: string, parse: Parser) {
    !EmptyArray(key, parse) && forall i | i in info.time || i in info.reason :: i < |CountedKeys(key, parse)|
  }

  /** The times and reasons that a step leaves behind are those of keys that it leaves: of the kept keys none with a
      time or reason gets behind the counted ones, and a new key string has room for all of them. */
  ghost predicate Careful(s: State, step: Step, parse: Parser) {
    var keys := GetKeys(s.key, parse);
    match step
    case DeleteKey(index) =>
      var (t, outcome) := DeleteKeySpec(s, index, parse);
      var kept := Kept(|keys|, IsNot(index));
      outcome == Done ==>
        && !EmptyArray(t.key, parse)
        && forall j: nat | CountedLater(s, Pick(keys, kept), parse) <= j < |kept| ::
             kept[j] !in s.info.time && kept[j] !in s.info.reason
    case DeleteDisabled =>
      var (t, outcome) := DeleteDisabledSpec(s, parse);
      var kept := Kept(|keys|, NotAuto(s.info));
      outcome == Done ==>
        && !EmptyArray(t.key, parse)
        && forall j: nat | CountedLater(s, Pick(keys, kept), parse) <= j < |kept| ::
             StatusOf(s.info, kept[j]) == ENABLED || (kept[j] !in s.info.time && kept[j] !in s.info.reason)
    case Append(_) => TimesFit(s.info, Next(s, step, parse).key, parse)
    case Replace(_) => TimesFit(s.info, Next(s, step, parse).key, parse)
    case EnableAll => !EmptyArray(s.key, parse)
    case _ => true
  }

  ghost predicate CarefulRun(s: State, steps: seq<Step>, parse: Parser)
    decreases |steps|
  {
    steps != [] ==> Careful(s, steps[0], parse) && CarefulRun(Next(s, steps[0], parse), steps[1..], parse)
  }

  ghost predicate TidyThroughout(s: State, steps: seq<Step>, parse: Parser)
    decreases |steps|
  {
    Tidy(s, parse) && (steps != [] ==> TidyThroughout(Next(s, steps[0], parse), steps[1..], parse))
  }

  lemma SavedIsTidy(s: State, working: State, parse: Parser)
    ensures var t := Saved(s, working, parse);
            Tidy(t, parse) <==> TimesFit(working.info, t.key, parse)
  {
    SavedIsConsistent(s, working, parse);
    hide Consistent, LooksLikeArray, CountedKeys;
  }

  lemma DeletionIsTidy(s: State, index: int, parse: Parser)
    requires Tidy(s, parse)
    ensures Tidy(DeleteKeySpec(s, index, parse).0, parse) <==> Careful(s, DeleteKey(index), parse)
  {
    var keys := GetKeys(s.key, parse);
    var kept := Kept(|keys|, IsNot(index));
    if DeleteKeySpec(s, index, parse).1 == Done {
      DeleteKeyRange(s, index, parse);
      SavedIsConsistent(s, Deletion(keys, s.info, kept), parse);
      hide GetKeys, Kept, Saved, Deletion, InRange, CountedLater, Consistent, Pick, LooksLikeArray;
    }
  }

  lemma CleanupIsTidy(s: State, parse: Parser)
    requires Tidy(s, parse)
    ensures Tidy(DeleteDisabledSpec(s, parse).0, parse) <==> Careful(s, DeleteDisabled, parse)
  {
    var keys := GetKeys(s.key, parse);
    var kept := Kept(|keys|, NotAuto(s.info));
    if DeleteDisabledSpec(s, parse).1 == Done {
      DeleteDisabledRange(s, parse);
      SavedIsConsistent(s, Cleanup(keys, s.info, kept), parse);
      hide GetKeys, Kept, Saved, Cleanup, InRange, CountedLater, Consistent, Pick, LooksLikeArray;
    }
  }

  /** A tidy channel with a key has room for the times and reasons it has. */
  lemma TidyFits(s: State, parse: Parser)
    requires Tidy(s, parse)
    ensures s.info.size > 0 ==> TimesFit(s.info, s.key, parse) && |CountedKeys(s.key, parse)| == s.info.size
  {
  }

  lemma OtherIsTidy(s: State, step: Step, parse: Parser)
    requires Tidy(s, parse) && !step.DeleteKey? && !step.DeleteDisabled?
    ensures Tidy(Next(s, step, parse), parse) <==> Careful(s, step, parse)
  {
    var info := s.info;
    TidyFits(s, parse);
    hide Saved, GetKeys, Join, ExistingKeys, NewKeys, NewlyDisabled, CountedKeys, EmptyArray;
    match step {
      case Append(input) =>
        var existing := ExistingKeys(s.key, parse);
        var key := if s.key == "" then input else Join(existing + NewKeys(existing, input), '\n');
        SavedIsTidy(s, State(key, info), parse);
      case Replace(key) => SavedIsTidy(s, State(key, info), parse);
      case Disable(i) => DisableIsTidy(s, i, parse);
      case Enable(i) => EnableIsTidy(s, i, parse);
      case EnableAll => SavedIsTidy(s, State(s.key, info.(status := map[], time := map[], reason := map[])), parse);
      case DisableAll => DisableAllIsTidy(s, parse);
      case AutoDisable(i, time, reason) => AutomaticIsTidy(s, step, parse);
      case AutoEnable(i) => AutomaticIsTidy(s, step, parse);
    }
  }

  /** Steps that keep the keys. */
  lemma SameKeysAreTidy(s: State, info: Info, parse: Parser)
    requires Tidy(s, parse) && s.info.size > 0
    requires forall i | i in info.time || i in info.reason :: i < s.info.size
    ensures Tidy(Entered(s, info, parse), parse)
  {
    TidyFits(s, parse);
    hide Saved, GetKeys, CountedKeys, EmptyArray;
    SavedIsTidy(s, State(s.key, info), parse);
    assert Entered(s, info, parse).key == s.key by {
      EnteredKey(s, info, parse);
    }
  }

  lemma EnteredKey(s: State, info: Info, parse: Parser)
    ensures Entered(s, info, parse).key == s.key
  {
  }

  lemma DisableIsTidy(s: State, i: int, parse: Parser)
    requires Tidy(s, parse)
    ensures Tidy(Next(s, Disable(i), parse), parse)
  {
    if 0 <= i < s.info.size {
      SameKeysAreTidy(s, s.info.(status := s.info.status[i := MANUALLY_DISABLED]), parse);
    }
  }

  lemma EnableIsTidy(s: State, i: int, parse: Parser)
    requires Tidy(s, parse)
    ensures Tidy(Next(s, Enable(i), parse), parse)
  {
    var info := s.info;
    if 0 <= i < info.size {
      SameKeysAreTidy(s, info.(status := info.status - {i}, time := info.time - {i}, reason := info.reason - {i}),
                      parse);
    }
  }

  lemma NobodyToDisable(info: Info)
    requires info.size <= 0
    ensures NewlyDisabled(info) == map[]
  {
  }

  lemma DisableAllIsTidy(s: State, parse: Parser)
    requires Tidy(s, parse)
    ensures Tidy(Next(s, DisableAll, parse), parse)
  {
    hide NewlyDisabled, Entered, Tidy;
    if s.info.size <= 0 {
      NobodyToDisable(s.info);
    } else {
      TimesAreTidy(s, parse);
      SameKeysAreTidy(s, s.info.(status := s.info.status + NewlyDisabled(s.info)), parse);
    }
  }

  lemma TimesAreTidy(s: State, parse: Parser)
    requires Tidy(s, parse)
    ensures forall i | i in s.info.time || i in s.info.reason :: i < s.info.size
  {
  }

  lemma AutomaticIsTidy(s: State, step: Step, parse: Parser)
    requires Tidy(s, parse) && (step.AutoDisable? || step.AutoEnable?)
    ensures Tidy(Next(s, step, parse), parse)
  {
    hide GetKeys;
  }

  /** A tidy channel stays tidy in a step if and only if the step is careful ... */
  lemma NextIsTidy(s: State, step: Step, parse: Parser)
    requires Tidy(s, parse)
    ensures Tidy(Next(s, step, parse), parse) <==> Careful(s, step, parse)
  {
    match step {
      case DeleteKey(index) => DeletionIsTidy(s, index, parse);
      case DeleteDisabled => CleanupIsTidy(s, parse);
      case _ => OtherIsTidy(s, step, parse);
    }
  }

  /** ... and over a run no entry ever belongs to a key that is not there, if and only if every step is. */
  lemma {:induction false} RunIsTidy(s: State, steps: seq<Step>, parse: Parser)
    requires Tidy(s, parse)
    ensures TidyThroughout(s, steps, parse) <==> CarefulRun(s, steps, parse)
    decreases |steps|
  {
    if steps != [] {
      NextIsTidy(s, steps[0], parse);
      hide Tidy, Careful, Next;
      if Tidy(Next(s, steps[0], parse), parse) {
        RunIsTidy(Next(s, steps[0], parse), steps[1..], parse);
      }
    }
  }

  // ----- which steps are careful -----

  lemma StorableDeletionIsTidy(s: State, index: int, parse: Parser)
    requires Tidy(s, parse) && 0 <= index < s.info.size && s.info.size > 1
    requires Storable(TakeOut(GetKeys(s.key, parse), index), parse)
    ensures Tidy(DeleteKeySpec(s, index, parse).0, parse)
  {
    var keys := GetKeys(s.key, parse);
    var kept := Kept(|keys|, IsNot(index));
    KeptButOne(|keys|, index);
    PickButOne(keys, index);
    DeleteKeyTakesOneOut(s, index, parse);
    DeletionKeeps(s, IsNot(index), parse);
    StorableIsCounted(s, Pick(keys, kept), parse);
    hide GetKeys, Kept, Saved, Deletion, TakeOut, Keeps, Storable, InRange, CountedLater, Consistent, Rows;
    DeleteKeyRange(s, index, parse);
    KeepStored(s, kept, Deletion(keys, s.info, kept), parse);
  }

  lemma StorableCleanupIsTidy(s: State, parse: Parser)
    requires Tidy(s, parse)
    requires var left := KeysOf(Filter(Rows(s, parse), RowNotAuto)); left == [] || Storable(left, parse)
    ensures Tidy(DeleteDisabledSpec(s, parse).0, parse)
  {
    var keys := GetKeys(s.key, parse);
    var kept := Kept(|keys|, NotAuto(s.info));
    LeftMeansKept(s, parse);
    RemainingKeys(s, parse);
    if |kept| < |keys| {
      if kept == [] {
        AllDisabledComeBack(s, parse);
        hide GetKeys, Kept, Saved, Cleanup, Storable, InRange, CountedLater, Consistent, Rows, Filter;
        DeleteDisabledRange(s, parse);
      } else {
        DeletionKeeps(s, NotAuto(s.info), parse);
        StorableIsCounted(s, Pick(keys, kept), parse);
        hide GetKeys, Kept, Saved, Cleanup, Keeps, Storable, InRange, CountedLater, Consistent, Rows, Filter;
        DeleteDisabledRange(s, parse);
        KeepStored(s, kept, Cleanup(keys, s.info, kept), parse);
      }
    }
  }

  /** A deletion leaves a list that can be stored, and a new key string brings no fewer keys. */
  ghost predicate Gentle(s: State, step: Step, parse: Parser) {
    match step
    case DeleteKey(index) =>
      var keys := GetKeys(s.key, parse);
      0 <= index < |keys| && |keys| > 1 ==> Storable(TakeOut(keys, index), parse)
    case DeleteDisabled =>
      var left := KeysOf(Filter(Rows(s, parse), RowNotAuto)); left == [] || Storable(left, parse)
    case Append(input) =>
      if s.key == "" then BringsKeys(s, input, parse)
      else
        var all := Extended(s, input, parse);
        s.info.size <= |all| && if all == [] then !EmptyArray(s.key, parse) else Storable(all, parse)
    case Replace(key) => BringsKeys(s, if key == "" then s.key else key, parse)
    case EnableAll => !EmptyArray(s.key, parse)
    case _ => true
  }

  ghost predicate BringsKeys(s: State, key: string, parse: Parser) {
    !EmptyArray(key, parse) && s.info.size <= |CountedKeys(key, parse)|
  }

  ghost predicate GentleRun(s: State, steps: seq<Step>, parse: Parser)
    decreases |steps|
  {
    steps != [] ==> Gentle(s, steps[0], parse) && GentleRun(Next(s, steps[0], parse), steps[1..], parse)
  }

  lemma BringingKeysFits(s: State, key: string, parse: Parser)
    requires Tidy(s, parse) && BringsKeys(s, key, parse)
    ensures TimesFit(s.info, key, parse)
  {
    hide CountedKeys, EmptyArray, Consistent;
  }

  lemma ExtendedBringsKeys(s: State, all: seq<string>, parse: Parser)
    requires Tidy(s, parse) && s.key != "" && s.info.size <= |all|
    requires if all == [] then !EmptyArray(s.key, parse) else Storable(all, parse)
    ensures TimesFit(s.info, if Join(all, '\n') != "" then Join(all, '\n') else s.key, parse)
  {
    if all != [] {
      StoredKeysReadBack(all, parse);
      CountedIfAny(Join(all, '\n'), parse);
    }
  }

  lemma GentleAppend(s: State, input: string, parse: Parser)
    requires Tidy(s, parse) && Gentle(s, Append(input), parse)
    ensures Careful(s, Append(input), parse)
  {
    if s.key == "" {
      BringingKeysFits(s, input, parse);
    } else {
      ExtendedBringsKeys(s, Extended(s, input, parse), parse);
    }
    hide TimesFit, Storable, CountedKeys, NewKeys, ExistingKeys, Join, BringsKeys;
  }

  lemma GentleIsCareful(s: State, step: Step, parse: Parser)
    requires Tidy(s, parse) && Gentle(s, step, parse)
    ensures Careful(s, step, parse)
  {
    match step {
      case DeleteKey(index) => GentleDeletion(s, index, parse);
      case DeleteDisabled =>
        hide DeleteDisabledSpec, GetKeys, Storable, Filter, CountedKeys;
        StorableCleanupIsTidy(s, parse);
        CleanupIsTidy(s, parse);
      case Append(input) => GentleAppend(s, input, parse);
      case Replace(key) =>
        BringingKeysFits(s, if key == "" then s.key else key, parse);
        hide CountedKeys, EmptyArray, TimesFit;
      case _ =>
    }
  }

  lemma GentleDeletion(s: State, index: int, parse: Parser)
    requires Tidy(s, parse) && Gentle(s, DeleteKey(index), parse)
    ensures Careful(s, DeleteKey(index), parse)
  {
    if 0 <= index < s.info.size && s.info.size > 1 {
      hide DeleteKeySpec, GetKeys, Storable, CountedKeys;
      StorableDeletionIsTidy(s, index, parse);
      DeletionIsTidy(s, index, parse);
    } else if 0 <= index < s.info.size {
      DeleteKeyTakesOneOut(s, index, parse);
      hide GetKeys, CountedKeys, Kept;
    }
  }

  /** A run stays tidy when its deletions leave lists that can be stored and its new strings bring no fewer keys. */
  lemma {:induction false} GentleRunIsTidy(s: State, steps: seq<Step>, parse: Parser)
    requires Tidy(s, parse) && GentleRun(s, steps, parse)
    ensures TidyThroughout(s, steps, parse)
    decreases |steps|
  {
    if steps != [] {
      GentleIsCareful(s, steps[0], parse);
      NextIsTidy(s, steps[0], parse);
      hide Tidy, Careful, Gentle, Next;
      GentleRunIsTidy(Next(s, steps[0], parse), steps[1..], parse);
    }
  }

  /** A key that is appended to a tidy channel and then disabled by hand shows neither time nor reason. */
  lemma DisabledNewKeyIsClean(s: State, input: string, i: nat, parse: Parser)
    requires Tidy(s, parse)
    requires s.info.size <= i < |GetKeys(Next(s, Append(input), parse).key, parse)|
    ensures var t := Next(s, Append(input), parse);
            var u := Next(t, Disable(i), parse);
            u.key == t.key && Rows(u, parse)[i] == KeyRow(GetKeys(t.key, parse)[i], MANUALLY_DISABLED, 0, "")
  {
    var t := Next(s, Append(input), parse);
    CountedAtLeast(t.key, parse);
    AppendKeepsTimes(s, input, parse);
    hide Appended, GetKeys, CountedKeys;
  }

  lemma AppendKeepsTimes(s: State, input: string, parse: Parser)
    ensures var t := Appended(s, input, parse);
            t.info.time == s.info.time && t.info.reason == s.info.reason && t.info.size == |CountedKeys(t.key, parse)|
  {
    hide CountedKeys, ExistingKeys, NewKeys, Join;
  }

  // ----- a replacement that shrinks the list -----

  lemma OneKey(k: string, parse: Parser)
    requires k != "" && '\n' !in k && !LooksLikeArray(k)
    ensures GetKeys(k, parse) == CountedKeys(k, parse) == ExistingKeys(k, parse) == [k]
  {
    assert Join([k], '\n') == k;
    JoinableReadsBack([k]);
  }

  lemma TwoKeys(a: string, b: string, parse: Parser)
    requires PlainLines([a, b]) && a != "" && b != ""
    ensures var key := Join([a, b], '\n'); key != "" && GetKeys(key, parse) == CountedKeys(key, parse) == [a, b]
  {
    assert a in [a, b] && b in [a, b];
    PlainIsNoArray([a, b]);
    JoinableReadsBack([a, b]);
  }

  lemma NewKeyBehind(a: string, b: string)
    requires b != "" && TrimmedSpace(b) && '\n' !in b && TrimSpace(a) != b
    ensures NewKeys([a], b) == [b]
  {
    SplitNoSeparator(b, '\n');
    NormalizeFixed([b]);
    assert TrimAll([a]) == [TrimSpace(a)];
    FilterAll([b], NotIn(TrimAll([a])));
  }

  lemma RunThree(s: State, x: Step, y: Step, z: Step, parse: Parser)
    ensures Run(s, [x, y, z], parse) == Next(Next(Next(s, x, parse), y, parse), z, parse)
  {
    assert [x, y, z][1..] == [y, z] && [y, z][1..] == [z] && [z][1..] == [];
    hide Next;
    assert Run(s, [x, y, z], parse) == Run(Next(s, x, parse), [y, z], parse);
    assert Run(Next(Next(s, x, parse), y, parse), [z], parse) == Next(Next(Next(s, x, parse), y, parse), z, parse);
  }

  lemma AfterReplace(s: State, a: string, parse: Parser)
    requires a != "" && |CountedKeys(a, parse)| == 1 && forall i | i in s.info.status :: i >= 1
    ensures Next(s, Replace(a), parse) == State(a, s.info.(size := 1, status := map[]))
  {
    hide CountedKeys;
  }

  lemma AfterAppend(s: State, b: string, both: string, parse: Parser)
    requires s.key != "" && both != "" && |CountedKeys(both, parse)| == 2 && s.info.status == map[]
    requires both == Join(ExistingKeys(s.key, parse) + NewKeys(ExistingKeys(s.key, parse), b), '\n')
    ensures Next(s, Append(b), parse) == State(both, s.info.(size := 2))
  {
    hide CountedKeys, ExistingKeys, NewKeys, Join;
  }

  lemma AfterDisable(s: State, parse: Parser)
    requires s.key != "" && |CountedKeys(s.key, parse)| == 2 == s.info.size && s.info.status == map[]
    ensures Next(s, Disable(1), parse) == State(s.key, s.info.(status := map[1 := MANUALLY_DISABLED]))
  {
    hide CountedKeys;
  }

  lemma TwoRows(key: string, a: string, b: string, info: Info, parse: Parser)
    requires GetKeys(key, parse) == [a, b]
    ensures Rows(State(key, info), parse) == [RowAt(a, info, 0), RowAt(b, info, 1)]
  {
    hide GetKeys;
  }

  lemma ThreeEdits(s: State, a: string, b: string, parse: Parser)
    requires s.key != "" && CountedKeys(s.key, parse) == [a, b] && s.key == Join([a, b], '\n')
    requires a != "" && CountedKeys(a, parse) == [a] == ExistingKeys(a, parse) && NewKeys([a], b) == [b]
    requires forall i | i in s.info.status :: i >= 1
    ensures Run(s, [Replace(a), Append(b), Disable(1)], parse)
         == State(s.key, s.info.(size := 2, status := map[1 := MANUALLY_DISABLED]))
  {
    assert [a] + [b] == [a, b];
    hide Next, GetKeys, CountedKeys, ExistingKeys, NewKeys, Join, Run;
    RunThree(s, Replace(a), Append(b), Disable(1), parse);
    AfterReplace(s, a, parse);
    AfterAppend(State(a, s.info.(size := 1, status := map[])), b, s.key, parse);
    AfterDisable(State(s.key, s.info.(size := 2, status := map[])), parse);
  }

  lemma TwoKeysTidy(key: string, a: string, b: string, info: Info, parse: Parser)
    requires GetKeys(key, parse) == [a, b]
    requires info.size == 2 && info.status.Keys == {1} == info.time.Keys == info.reason.Keys
    ensures Tidy(State(key, info), parse)
  {
    hide GetKeys;
  }

  lemma SecondIsDisabled(a: string, b: string, info: Info)
    requires info.status == map[1 := MANUALLY_DISABLED] && info.time.Keys == {1} == info.reason.Keys
    ensures RowAt(a, info, 0) == KeyRow(a, ENABLED, 0, "")
    ensures RowAt(b, info, 1) == KeyRow(b, MANUALLY_DISABLED, info.time[1], info.reason[1])
  {
  }

  /** After a replacement by fewer keys such a key shows the time and the reason of the key that was at its index. */
  lemma ShrinkingLeavesReason(a: string, b: string, info: Info, parse: Parser)
    requires PlainLines([a, b]) && a != "" && TrimmedSpace(b) && b != "" && TrimSpace(a) != b
    requires info.size == 2 && info.status == map[1 := AUTO_DISABLED] && info.time.Keys == {1} == info.reason.Keys
    ensures var s := State(Join([a, b], '\n'), info);
            && Tidy(s, parse)
            && Rows(Run(s, [Replace(a), Append(b), Disable(1)], parse), parse)
            == [KeyRow(a, ENABLED, 0, ""), KeyRow(b, MANUALLY_DISABLED, info.time[1], info.reason[1])]
  {
    var s := State(Join([a, b], '\n'), info);
    var later := info.(size := 2, status := map[1 := MANUALLY_DISABLED]);
    assert a in [a, b] && b in [a, b];
    TwoKeys(a, b, parse);
    OneKey(a, parse);
    NewKeyBehind(a, b);
    hide *;
    TwoKeysTidy(s.key, a, b, info, parse);
    ThreeEdits(s, a, b, parse);
    TwoRows(s.key, a, b, later, parse);
    SecondIsDisabled(a, b, later);
  }

  // ----- what enabling and disabling show -----

  /** The row that an edit leaves for a key that had this one. */
  function EditedRow(row: KeyRow, i: nat, step: Step, info: Info): KeyRow {
    match step
    case Disable(k) =>
      if i == k then KeyRow(row.key, 2, if i in info.time then info.time[i] else 0,
                            if i in info.reason then info.reason[i] else "")
      else row
    case Enable(k) => if i == k then KeyRow(row.key, 1, 0, "") else row
    case EnableAll => KeyRow(row.key, 1, 0, "")
    case DisableAll =>
      if row.status == 1 then KeyRow(row.key, 2, if i in info.time then info.time[i] else 0,
                                     if i in info.reason then info.reason[i] else "")
      else row
    case AutoDisable(k, time, reason) => if i == k then KeyRow(row.key, 3, time, reason) else row
    case AutoEnable(k) => if i == k then KeyRow(row.key, 1, 0, "") else row
    case _ => row
  }

  predicate IsEdit(step: Step) {
    !step.DeleteKey? && !step.DeleteDisabled? && !step.Append? && !step.Replace?
  }

  /** With the keys that it has, the channel is stored as it is entered. */
  lemma EnteredIs(s: State, info: Info, parse: Parser)
    requires Tidy(s, parse) && s.info.size > 0 && forall i | i in info.status :: i < s.info.size
    ensures Entered(s, info, parse) == State(s.key, info.(size := s.info.size))
  {
    TidyFits(s, parse);
    hide CountedKeys, GetKeys, TimesFit;
  }

  lemma EditedInfo(s: State, step: Step, parse: Parser)
    requires Tidy(s, parse) && IsEdit(step) && s.info.size > 0
    ensures var t, u := Next(s, step, parse), s.info;
            && t.key == s.key && t.info.size == u.size
            && match step
               case Disable(k) => 0 <= k < u.size ==> t.info == u.(status := u.status[k := 2])
               case Enable(k) =>
                 0 <= k < u.size ==>
                   t.info == u.(status := u.status - {k}, time := u.time - {k}, reason := u.reason - {k})
               case EnableAll => t.info == u.(status := map[], time := map[], reason := map[])
               case DisableAll => t.info == u.(status := u.status + NewlyDisabled(u))
               case AutoDisable(k, time, reason) =>
                 0 <= k < u.size ==>
                   t.info == u.(status := u.status[k := 3], time := u.time[k := time], reason := u.reason[k := reason])
               case AutoEnable(k) => 0 <= k < u.size ==> t.info == u.(status := u.status - {k})
               case _ => true
    ensures match step
            case Disable(k) => !(0 <= k < s.info.size) ==> Next(s, step, parse) == s
            case Enable(k) => !(0 <= k < s.info.size) ==> Next(s, step, parse) == s
            case AutoDisable(k, _, _) => !(0 <= k < s.info.size) ==> Next(s, step, parse) == s
            case AutoEnable(k) => !(0 <= k < s.info.size) ==> Next(s, step, parse) == s
            case _ => true
  {
    var u := s.info;
    hide Entered, NewlyDisabled, GetKeys;
    match step
    case Disable(k) => if 0 <= k < u.size { EnteredIs(s, u.(status := u.status[k := 2]), parse); }
    case Enable(k) =>
      if 0 <= k < u.size {
        EnteredIs(s, u.(status := u.status - {k}, time := u.time - {k}, reason := u.reason - {k}), parse);
      }
    case EnableAll => EnteredIs(s, u.(status := map[], time := map[], reason := map[]), parse);
    case DisableAll =>
      NewlyInRange(u);
      EnteredIs(s, u.(status := u.status + NewlyDisabled(u)), parse);
    case AutoDisable(_, _, _) =>
    case AutoEnable(_) =>
  }

  lemma NewlyInRange(info: Info)
    ensures forall i | i in NewlyDisabled(info) :: i < info.size && NewlyDisabled(info)[i] == 2
    ensures forall i: nat | i < info.size :: i in NewlyDisabled(info) <==> StatusOf(info, i) == 1
  {
  }

  /** Enabling and disabling change the rows of their keys and of no others; the keys stay. */
  lemma EditsShow(s: State, step: Step, parse: Parser)
    requires Tidy(s, parse) && IsEdit(step)
    ensures var t := Next(s, step, parse);
            && t.key == s.key && |Rows(t, parse)| == |Rows(s, parse)|
            && forall i | 0 <= i < |Rows(s, parse)| ::
                 Rows(t, parse)[i] == EditedRow(Rows(s, parse)[i], i, step, s.info)
  {
    EditKeepsKey(s, step, parse);
    hide GetKeys, Next, NewlyDisabled, InRange;
    if s.info.size > 0 {
      EditedInfo(s, step, parse);
      NewlyInRange(s.info);
    }
  }

  lemma EditKeepsKey(s: State, step: Step, parse: Parser)
    requires IsEdit(step)
    ensures Next(s, step, parse).key == s.key
  {
    hide CountedKeys, GetKeys, NewlyDisabled;
  }

  ghost predicate Shows(s: State, k: nat, row: KeyRow, parse: Parser) {
    k < |Rows(s, parse)| && Rows(s, parse)[k] == row
  }

  /** A key that is enabled by hand and disabled by hand again shows neither time nor reason; one that was enabled
      automatically shows those from before. */
  lemma DisabledAgainShows(s: State, k: nat, step: Step, parse: Parser)
    requires Tidy(s, parse) && k < s.info.size
    requires step == Enable(k) || step == EnableAll || step == AutoEnable(k)
    ensures var t := Next(Next(s, step, parse), Disable(k), parse);
            var key := GetKeys(s.key, parse)[k];
            Shows(t, k, if step != AutoEnable(k) then KeyRow(key, 2, 0, "")
                        else KeyRow(key, 2, if k in s.info.time then s.info.time[k] else 0,
                                    if k in s.info.reason then s.info.reason[k] else ""), parse)
  {
    CountedAtLeast(s.key, parse);
    hide GetKeys, CountedKeys;
  }
}
