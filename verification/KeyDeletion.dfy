/** What deleting keys means for the overview of a channel's keys. */
module KeyDeletion {
  import opened KeyList
  import opened Lists
  import opened MultiKey
  import opened Text

  /** The maps of `t` hold, under their new indices, what the kept keys of `s` show. */
  ghost predicate Carries(t: Info, s: Info, kept: seq<nat>) {
    && t.status == Reindexed(NotEnabled(s.status), kept)
    && (|| (t.time == Reindexed(s.time, kept) && t.reason == Reindexed(s.reason, kept))
        || (&& t.time == Reindexed(OfDisabled(s.time, s.status), kept)
            && t.reason == Reindexed(OfDisabled(s.reason, s.status), kept)))
  }

  lemma CarriedRow(t: Info, s: Info, kept: seq<nat>, j: nat, key: string)
    requires Carries(t, s, kept) && j < |kept|
    ensures RowAt(key, t, j) == RowAt(key, s, kept[j])
  {
  }

  lemma CarriedRows(t: Info, s: Info, kept: seq<nat>, keys: seq<string>)
    requires Carries(t, s, kept) && forall i | i in kept :: i < |keys|
    ensures RowsOf(Pick(keys, kept), t) == Pick(RowsOf(keys, s), kept)
  {
    hide Carries, RowAt;
    var picked := Pick(keys, kept);
    forall j | 0 <= j < |kept| ensures RowAt(picked[j], t, j) == RowAt(picked[j], s, kept[j]) {
      CarriedRow(t, s, kept, j, picked[j]);
    }
  }

  function KeysOf(rows: seq<KeyRow>): (r: seq<string>)
    ensures |r| == |rows| && forall i | 0 <= i < |r| :: r[i] == rows[i].key
  {
    seq(|rows|, i requires 0 <= i < |rows| => rows[i].key)
  }

  lemma KeysOfRows(keys: seq<string>, info: Info)
    ensures KeysOf(RowsOf(keys, info)) == keys
  {
  }

  // ----- what keeping some of the keys does -----

  /** The deletion hands these keys and maps to the update. */
  ghost predicate Keeps(s: State, kept: seq<nat>, working: State, parse: Parser) {
    var keys := GetKeys(s.key, parse);
    && kept != [] && |kept| < |keys| && (forall i | i in kept :: i < |keys|)
    && working.key == Join(Pick(keys, kept), '\n') && Carries(working.info, s.info, kept)
  }

  lemma KeepStored(s: State, kept: seq<nat>, working: State, parse: Parser)
    requires Keeps(s, kept, working, parse) && Storable(Pick(GetKeys(s.key, parse), kept), parse)
    ensures var t := Saved(s, working, parse);
            Rows(t, parse) == Pick(Rows(s, parse), kept) && Consistent(t, parse)
  {
    var keys := GetKeys(s.key, parse);
    var picked := Pick(keys, kept);
    StoredKeysReadBack(picked, parse);
    CountedIfAny(working.key, parse);
    CarriedRows(working.info, s.info, kept, keys);
    hide GetKeys, CountedKeys, Join, Pick, Storable, NotEnabled, OfDisabled;
    SavedPicked(s, working, picked, parse);
  }

  /** Equal overviews show equal keys. */
  lemma KeepsKeys(s: State, kept: seq<nat>, working: State, parse: Parser)
    requires Keeps(s, kept, working, parse)
    requires Rows(Saved(s, working, parse), parse) == Pick(Rows(s, parse), kept)
    ensures GetKeys(Join(Pick(GetKeys(s.key, parse), kept), '\n'), parse) == Pick(GetKeys(s.key, parse), kept)
  {
    var keys, t := GetKeys(s.key, parse), Saved(s, working, parse);
    var picked := Pick(keys, kept);
    CarriedRows(working.info, s.info, kept, keys);
    KeysOfRows(picked, working.info);
    KeysOfRows(GetKeys(t.key, parse), t.info);
    assert GetKeys(t.key, parse) == picked;
    assert t.key == if working.key != "" then working.key else s.key;
    hide GetKeys, Join, Pick, Carries, Saved, Rows;
  }

  /** Keeping some keys shows exactly their lines if and only if the list that is left can be stored. */
  lemma KeepMeansPick(s: State, kept: seq<nat>, working: State, parse: Parser)
    requires Keeps(s, kept, working, parse)
    ensures Rows(Saved(s, working, parse), parse) == Pick(Rows(s, parse), kept)
       <==> Storable(Pick(GetKeys(s.key, parse), kept), parse)
  {
    hide GetKeys, Join, Storable, Carries, Saved;
    StoredKeysReadBack(Pick(GetKeys(s.key, parse), kept), parse);
    if Storable(Pick(GetKeys(s.key, parse), kept), parse) {
      KeepStored(s, kept, working, parse);
    } else if Rows(Saved(s, working, parse), parse) == Pick(Rows(s, parse), kept) {
      KeepsKeys(s, kept, working, parse);
    }
  }

  // ----- deleting one key -----

  function TakeOut<T>(s: seq<T>, i: nat): (r: seq<T>)
    requires i < |s|
    ensures |r| == |s| - 1
  {
    s[..i] + s[i + 1..]
  }

  lemma {:induction false} KeptButOne(n: nat, i: nat)
    requires i < n
    ensures |Kept(n, IsNot(i))| == n - 1
    ensures forall j | 0 <= j < n - 1 :: Kept(n, IsNot(i))[j] == if j < i then j else j + 1
  {
    KeptExtends(n - 1, IsNot(i));
    if i < n - 1 {
      KeptButOne(n - 1, i);
    } else {
      FilterAll(Upto(i), IsNot(i));
    }
  }

  lemma PickButOne<T>(s: seq<T>, i: nat)
    requires i < |s|
    ensures Pick(s, Kept(|s|, IsNot(i))) == TakeOut(s, i)
  {
    KeptButOne(|s|, i);
    hide Kept;
  }

  lemma DeletionKeeps(s: State, keep: nat -> bool, parse: Parser)
    requires var n := |GetKeys(s.key, parse)|; 0 < |Kept(n, keep)| < n
    ensures var keys := GetKeys(s.key, parse);
            var kept := Kept(|keys|, keep);
            Keeps(s, kept, Deletion(keys, s.info, kept), parse) && Keeps(s, kept, Cleanup(keys, s.info, kept), parse)
  {
    hide GetKeys, Join, Kept, Reindexed, NotEnabled, OfDisabled;
  }

  /** Deleting one key takes its line out of the overview, and leaves every other line as it was, if and only if
      the remaining list can be stored; the last key cannot be deleted. */
  lemma DeleteKeyTakesOneOut(s: State, index: int, parse: Parser)
    requires Consistent(s, parse) && 0 <= index < s.info.size
    ensures var (t, outcome) := DeleteKeySpec(s, index, parse);
            if s.info.size == 1 then t == s && outcome == LastKey
            else && outcome == Done
                 && (Rows(t, parse) == TakeOut(Rows(s, parse), index)
                     <==> Storable(TakeOut(GetKeys(s.key, parse), index), parse))
  {
    var keys := GetKeys(s.key, parse);
    var kept := Kept(|keys|, IsNot(index));
    KeptButOne(|keys|, index);
    if |keys| > 1 {
      DeletionKeeps(s, IsNot(index), parse);
      PickButOne(keys, index);
      PickButOne(Rows(s, parse), index);
      hide GetKeys, Kept, Saved, Deletion, TakeOut, Keeps, Storable;
      KeepMeansPick(s, kept, Deletion(keys, s.info, kept), parse);
    }
  }

  // ----- deleting the disabled keys -----

  predicate RowNotAuto(row: KeyRow) {
    row.status != AUTO_DISABLED
  }

  /** Filtering by index is filtering by line. */
  lemma {:induction false} PickKept<T(!new)>(s: seq<T>, n: nat, keep: nat -> bool, f: T -> bool)
    requires n <= |s| && forall i: nat | i < |s| :: keep(i) == f(s[i])
    ensures Pick(s, Kept(n, keep)) == Filter(s[..n], f)
  {
    if n > 0 {
      PickKept(s, n - 1, keep, f);
      KeptExtends(n - 1, keep);
      assert s[..n] == s[..n - 1] + [s[n - 1]];
      FilterOfConcat(s[..n - 1], [s[n - 1]], f);
    }
  }

  lemma KeptRows(s: State, parse: Parser)
    ensures var rows := Rows(s, parse); Pick(rows, Kept(|rows|, NotAuto(s.info))) == Filter(rows, RowNotAuto)
  {
    var rows := Rows(s, parse);
    PickKept(rows, |rows|, NotAuto(s.info), RowNotAuto);
    assert rows[..|rows|] == rows;
  }

  lemma RemainingKeys(s: State, parse: Parser)
    ensures KeysOf(Filter(Rows(s, parse), RowNotAuto))
         == Pick(GetKeys(s.key, parse), Kept(|GetKeys(s.key, parse)|, NotAuto(s.info)))
  {
    KeptRows(s, parse);
    hide GetKeys, Kept, Filter;
  }

  ghost predicate AnyLeft(rows: seq<KeyRow>) {
    exists row | row in rows :: RowNotAuto(row)
  }

  ghost predicate NoneDisabled(rows: seq<KeyRow>) {
    forall row | row in rows :: RowNotAuto(row)
  }

  lemma LeftMeansKept(s: State, parse: Parser)
    ensures AnyLeft(Rows(s, parse)) <==> Kept(|Rows(s, parse)|, NotAuto(s.info)) != []
    ensures |Kept(|Rows(s, parse)|, NotAuto(s.info))| <= |Rows(s, parse)|
    ensures NoneDisabled(Rows(s, parse)) <==> |Kept(|Rows(s, parse)|, NotAuto(s.info))| == |Rows(s, parse)|
  {
    var rows := Rows(s, parse);
    KeptRows(s, parse);
    FilterLength(rows, RowNotAuto);
    hide GetKeys, Kept;
    if row :| row in rows && RowNotAuto(row) {
      assert row in Filter(rows, RowNotAuto);
    }
    if Filter(rows, RowNotAuto) != [] {
      assert Filter(rows, RowNotAuto)[0] in Filter(rows, RowNotAuto);
    }
  }

  lemma {:induction false} FilterLength<T(!new)>(s: seq<T>, f: T -> bool)
    ensures |Filter(s, f)| <= |s|
    ensures |Filter(s, f)| == |s| <==> forall x | x in s :: f(x)
  {
    if s != [] {
      FilterLength(s[1..], f);
      assert s == [s[0]] + s[1..];
    }
  }

  /** Deleting the automatically disabled keys deletes exactly their lines if and only if there is none, or another
      key is left and the remaining list can be stored ... */
  lemma DeleteDisabledIsFilter(s: State, parse: Parser)
    requires Consistent(s, parse)
    ensures var t, rows := DeleteDisabledSpec(s, parse).0, Rows(s, parse);
            var remaining := Filter(rows, RowNotAuto);
            (Rows(t, parse) == remaining
             <==> NoneDisabled(rows) || (AnyLeft(rows) && Storable(KeysOf(remaining), parse)))
  {
    var keys, rows := GetKeys(s.key, parse), Rows(s, parse);
    var kept := Kept(|keys|, NotAuto(s.info));
    LeftMeansKept(s, parse);
    RemainingKeys(s, parse);
    KeptRows(s, parse);
    if |kept| == |keys| {
      FilterAll(rows, RowNotAuto);
    } else if kept == [] {
      AllDisabledComeBack(s, parse);
    } else {
      DeletionKeeps(s, NotAuto(s.info), parse);
      hide GetKeys, Kept, Filter, Saved, Cleanup, Keeps, Storable, NoneDisabled, AnyLeft;
      KeepMeansPick(s, kept, Cleanup(keys, s.info, kept), parse);
    }
  }

  /** ... and when every key is disabled that way, all of them stay and are enabled again. */
  lemma AllDisabledComeBack(s: State, parse: Parser)
    requires Consistent(s, parse) && s.info.size > 0 && !AnyLeft(Rows(s, parse))
    ensures var (t, outcome) := DeleteDisabledSpec(s, parse);
            && outcome == Done && Consistent(t, parse) && t.key == s.key && t.info.size == s.info.size
            && |Rows(t, parse)| == s.info.size
            && forall i | 0 <= i < s.info.size :: Rows(t, parse)[i] == KeyRow(Rows(s, parse)[i].key, ENABLED, 0, "")
  {
    LeftMeansKept(s, parse);
    CountedIfAny(s.key, parse);
  }

  // ----- refusals -----

  /** A deletion is refused outside the list, for the only key, and when no key is automatically disabled; then nothing
      changes. The answer to the last kind counts the keys that are. */
  lemma DeletionsAnswer(s: State, index: int, parse: Parser)
    requires Consistent(s, parse)
    ensures var (t, outcome) := DeleteKeySpec(s, index, parse);
            && outcome == (if !(0 <= index < |GetKeys(s.key, parse)|) then OutOfRange
                           else if |GetKeys(s.key, parse)| == 1 then LastKey else Done)
            && (outcome != Done ==> t == s)
    ensures var (t, outcome), rows := DeleteDisabledSpec(s, parse), Rows(s, parse);
            && outcome == (if NoneDisabled(rows) then NothingToDelete else Done)
            && (outcome != Done ==> t == s)
            && |rows| - |Kept(|rows|, NotAuto(s.info))| == |Filter(rows, RowAuto)|
  {
    var rows := Rows(s, parse);
    KeptRows(s, parse);
    LeftMeansKept(s, parse);
    FilterParts(rows);
    if 0 <= index < |rows| {
      KeptButOne(|rows|, index);
    }
    hide GetKeys, Kept, Saved, Filter;
  }

  predicate RowAuto(row: KeyRow) {
    row.status == 3
  }

  lemma {:induction false} FilterParts(rows: seq<KeyRow>)
    ensures |Filter(rows, RowAuto)| + |Filter(rows, RowNotAuto)| == |rows|
  {
    if rows != [] {
      FilterParts(rows[1..]);
    }
  }

  // ----- indices in range -----

  /** Every index in the maps is that of a key. */
  ghost predicate InRange(info: Info) {
    && (forall i | i in info.status :: i < info.size)
    && (forall i | i in info.time :: i < info.size)
    && (forall i | i in info.reason :: i < info.size)
  }

  /** How many keys an update counts when it is handed this list; an empty string leaves the stored one. */
  function CountedLater(s: State, keys: seq<string>, parse: Parser): nat {
    |CountedKeys(if Join(keys, '\n') != "" then Join(keys, '\n') else s.key, parse)|
  }

  /** A list that can be stored is counted as it is. */
  lemma StorableIsCounted(s: State, keys: seq<string>, parse: Parser)
    requires keys != [] && Storable(keys, parse)
    ensures CountedLater(s, keys, parse) == |keys|
  {
    StoredKeysReadBack(keys, parse);
    CountedIfAny(Join(keys, '\n'), parse);
  }

  lemma ReindexedRange<T>(m: map<nat, T>, kept: seq<nat>, n: nat)
    ensures (forall i | i in Reindexed(m, kept) :: i < n) <==> (forall j: nat | n <= j < |kept| :: kept[j] !in m)
  {
    if forall i | i in Reindexed(m, kept) :: i < n {
      forall j: nat | n <= j < |kept| ensures kept[j] !in m {
        assert j !in Reindexed(m, kept);
      }
    }
  }

  /** After a deletion every index is that of a key if and only if no kept key that ends up behind the counted keys
      has a time or a reason: those maps an update does not clean. */
  lemma DeleteKeyRange(s: State, index: int, parse: Parser)
    requires DeleteKeySpec(s, index, parse).1 == Done
    ensures var keys := GetKeys(s.key, parse);
            var kept := Kept(|keys|, IsNot(index));
            (InRange(DeleteKeySpec(s, index, parse).0.info)
             <==> forall j: nat | CountedLater(s, Pick(keys, kept), parse) <= j < |kept| ::
                    kept[j] !in s.info.time && kept[j] !in s.info.reason)
  {
    var keys := GetKeys(s.key, parse);
    var kept := Kept(|keys|, IsNot(index));
    var n := CountedLater(s, Pick(keys, kept), parse);
    ReindexedRange(s.info.time, kept, n);
    ReindexedRange(s.info.reason, kept, n);
    hide GetKeys, CountedKeys, Join, Kept, NotEnabled, Reindexed;
  }

  lemma DeleteDisabledRange(s: State, parse: Parser)
    requires DeleteDisabledSpec(s, parse).1 == Done
    ensures var keys := GetKeys(s.key, parse);
            var kept := Kept(|keys|, NotAuto(s.info));
            (InRange(DeleteDisabledSpec(s, parse).0.info)
             <==> forall j: nat | CountedLater(s, Pick(keys, kept), parse) <= j < |kept| ::
                    StatusOf(s.info, kept[j]) == ENABLED || (kept[j] !in s.info.time && kept[j] !in s.info.reason))
  {
    var keys := GetKeys(s.key, parse);
    var kept := Kept(|keys|, NotAuto(s.info));
    var n := CountedLater(s, Pick(keys, kept), parse);
    var time, reason := OfDisabled(s.info.time, s.info.status), OfDisabled(s.info.reason, s.info.status);
    ReindexedRange(time, kept, n);
    ReindexedRange(reason, kept, n);
    assert forall i :: i in time <==> i in s.info.time && StatusOf(s.info, i) != ENABLED;
    assert forall i :: i in reason <==> i in s.info.reason && StatusOf(s.info, i) != ENABLED;
    hide GetKeys, CountedKeys, Join, Kept, NotEnabled, Reindexed, OfDisabled;
  }
}
