/** Channels with several keys: a key list and, beside it, maps from key index to status, time and reason. */
module MultiKey {
  import opened KeyList
  import opened Lists
  import opened Names
  import opened Text

  const ENABLED := 1
  const AUTO_DISABLED := 3

  datatype Info = Info(size: int, status: map<nat, int>, time: map<nat, int>, reason: map<nat, string>)

  datatype State = State(key: string, info: Info)

  // ----- what an administrator sees -----

  /** One line of the key overview; an enabled key shows neither time nor reason. */
  datatype KeyRow = KeyRow(key: string, status: int, time: int, reason: string)

  function StatusOf(info: Info, i: nat): int {
    if i in info.status then info.status[i] else ENABLED
  }

  function RowAt(key: string, info: Info, i: nat): KeyRow {
    var status := StatusOf(info, i);
    KeyRow(key, status,
           if status != ENABLED && i in info.time then info.time[i] else 0,
           if status != ENABLED && i in info.reason then info.reason[i] else "")
  }

  function RowsOf(keys: seq<string>, info: Info): (r: seq<KeyRow>)
    ensures |r| == |keys| && forall i | 0 <= i < |r| :: r[i] == RowAt(keys[i], info, i)
  {
    seq(|keys|, i requires 0 <= i < |keys| => RowAt(keys[i], info, i))
  }

  function Rows(s: State, parse: Parser): seq<KeyRow> {
    RowsOf(GetKeys(s.key, parse), s.info)
  }

  /** The size is the number of keys and no status belongs to a key that is not there. */
  ghost predicate Consistent(s: State, parse: Parser) {
    var n := |GetKeys(s.key, parse)|;
    s.info.size == n && forall i | i in s.info.status :: i < n
  }

  // ----- saving -----

  /** An empty key is left out of the update; the size and the status map follow the keys that are stored. */
  function Saved(stored: State, working: State, parse: Parser): State {
    var key := if working.key != "" then working.key else stored.key;
    var n := |CountedKeys(key, parse)|;
    State(key, working.info.(size := n, status := map i | i in working.info.status && i < n :: working.info.status[i]))
  }

  /** Every update leaves a consistent channel, unless its key string is an empty array. */
  lemma SavedIsConsistent(stored: State, working: State, parse: Parser)
    ensures var t := Saved(stored, working, parse);
            Consistent(t, parse) <==> !(t.key != "" && LooksLikeArray(t.key) && parse(TrimSpace(t.key)) == Array([]))
  {
  }

  /** Saving a key string that reads back. */
  lemma SavedPicked(s: State, working: State, picked: seq<string>, parse: Parser)
    requires working.key != "" && GetKeys(working.key, parse) == picked == CountedKeys(working.key, parse)
    requires forall i | i in working.info.status :: i < |picked|
    ensures var t := Saved(s, working, parse);
            && t == State(working.key, working.info.(size := |picked|))
            && Consistent(t, parse) && Rows(t, parse) == RowsOf(picked, working.info)
  {
    hide GetKeys, CountedKeys;
    var t := Saved(s, working, parse);
    assert t.info.status == working.info.status;
    assert RowsOf(picked, t.info) == RowsOf(picked, working.info);
  }

  // ----- deleting keys -----

  function Upto(n: nat): (r: seq<nat>)
    ensures |r| == n && forall i | 0 <= i < n :: r[i] == i
    ensures forall i: nat {:trigger i in r} :: i in r <==> i < n
  {
    if n == 0 then [] else Upto(n - 1) + [n - 1]
  }

  /** The indices below `n` that are kept, in order. */
  function Kept(n: nat, keep: nat -> bool): (r: seq<nat>)
    ensures n == 0 ==> r == []
    ensures forall i: nat {:trigger i in r} :: i in r <==> i < n && keep(i)
  {
    Filter(Upto(n), keep)
  }

  /** The elements at the kept indices. */
  function Pick<T>(s: seq<T>, kept: seq<nat>): (r: seq<T>)
    requires forall i | i in kept :: i < |s|
    ensures |r| == |kept| && forall j | 0 <= j < |r| :: kept[j] in kept && r[j] == s[kept[j]]
  {
    seq(|kept|, j requires 0 <= j < |kept| => assert kept[j] in kept; s[kept[j]])
  }

  /** The entries of the kept indices, under their new indices. */
  function Reindexed<T>(m: map<nat, T>, kept: seq<nat>): map<nat, T> {
    map j: nat | 0 <= j < |kept| && kept[j] in m :: m[kept[j]]
  }

  function NotEnabled(status: map<nat, int>): map<nat, int> {
    map i | i in status && status[i] != ENABLED :: status[i]
  }

  /** The entries of the keys that are not enabled. */
  function OfDisabled<T>(m: map<nat, T>, status: map<nat, int>): map<nat, T> {
    map i | i in m && i in status && status[i] != ENABLED :: m[i]
  }

  function IsNot(index: int): nat -> bool {
    (i: nat) => i != index
  }

  function NotAuto(info: Info): nat -> bool {
    (i: nat) => StatusOf(info, i) != AUTO_DISABLED
  }

  datatype Outcome = Done | NothingToDelete | OutOfRange | LastKey

  /** What the deletion of one key hands to the update; it keeps every time and reason. */
  function Deletion(keys: seq<string>, info: Info, kept: seq<nat>): State
    requires forall i | i in kept :: i < |keys|
  {
    State(Join(Pick(keys, kept), '\n'),
          Info(|kept|, Reindexed(NotEnabled(info.status), kept), Reindexed(info.time, kept),
               Reindexed(info.reason, kept)))
  }

  /** What the deletion of the disabled keys hands to the update; it drops the times and reasons of enabled keys. */
  function Cleanup(keys: seq<string>, info: Info, kept: seq<nat>): State
    requires forall i | i in kept :: i < |keys|
  {
    State(Join(Pick(keys, kept), '\n'),
          Info(|kept|, Reindexed(NotEnabled(info.status), kept),
               Reindexed(OfDisabled(info.time, info.status), kept),
               Reindexed(OfDisabled(info.reason, info.status), kept)))
  }

  function DeleteKeySpec(s: State, index: int, parse: Parser): (State, Outcome) {
    var keys := GetKeys(s.key, parse);
    var kept := Kept(|keys|, IsNot(index));
    if !(0 <= index < s.info.size) then (s, OutOfRange)
    else if kept == [] then (s, LastKey)
    else (Saved(s, Deletion(keys, s.info, kept), parse), Done)
  }

  function DeleteDisabledSpec(s: State, parse: Parser): (State, Outcome) {
    var keys := GetKeys(s.key, parse);
    var kept := Kept(|keys|, NotAuto(s.info));
    if |kept| == |keys| then (s, NothingToDelete) else (Saved(s, Cleanup(keys, s.info, kept), parse), Done)
  }

  lemma ReindexedExtends<T>(m: map<nat, T>, kept: seq<nat>, i: nat)
    ensures Reindexed(m, kept + [i]) == if i in m then Reindexed(m, kept)[|kept| := m[i]] else Reindexed(m, kept)
  {
  }

  lemma PickExtends<T>(s: seq<T>, kept: seq<nat>, i: nat)
    requires i < |s| && forall k | k in kept :: k < |s|
    ensures Pick(s, kept + [i]) == Pick(s, kept) + [s[i]]
  {
  }

  lemma NothingKept(info: Info)
    ensures Reindexed(NotEnabled(info.status), []) == map[]
    ensures Reindexed(info.time, []) == map[] == Reindexed(OfDisabled(info.time, info.status), [])
    ensures Reindexed(info.reason, []) == map[] == Reindexed(OfDisabled(info.reason, info.status), [])
  {
  }

  /** What one more kept key adds to the lists of a deletion that keeps every time and reason ... */
  lemma KeepExtends(info: Info, kept: seq<nat>, i: nat)
    ensures Reindexed(NotEnabled(info.status), kept + [i])
         == var status := Reindexed(NotEnabled(info.status), kept);
            if StatusOf(info, i) != ENABLED then status[|kept| := info.status[i]] else status
    ensures Reindexed(info.time, kept + [i])
         == var time := Reindexed(info.time, kept); if i in info.time then time[|kept| := info.time[i]] else time
    ensures Reindexed(info.reason, kept + [i])
         == var reason := Reindexed(info.reason, kept);
            if i in info.reason then reason[|kept| := info.reason[i]] else reason
  {
    hide Reindexed;
    ReindexedExtends(NotEnabled(info.status), kept, i);
    ReindexedExtends(info.time, kept, i);
    ReindexedExtends(info.reason, kept, i);
  }

  /** ... and to those of one that keeps only what belongs to keys that are not enabled. */
  lemma KeepDisabledExtends<T>(m: map<nat, T>, info: Info, kept: seq<nat>, i: nat)
    ensures Reindexed(OfDisabled(m, info.status), kept + [i])
         == var r := Reindexed(OfDisabled(m, info.status), kept);
            if StatusOf(info, i) != ENABLED && i in m then r[|kept| := m[i]] else r
  {
    hide Reindexed;
    ReindexedExtends(OfDisabled(m, info.status), kept, i);
  }

  lemma KeptExtends(n: nat, keep: nat -> bool)
    ensures Kept(n + 1, keep) == Kept(n, keep) + if keep(n) then [n] else []
  {
    FilterOfConcat(Upto(n), [n], keep);
  }

  lemma {:induction false} FilterShorter<T(!new)>(s: seq<T>, keep: T -> bool)
    ensures |Filter(s, keep)| <= |s|
    ensures |Filter(s, keep)| == |s| ==> forall x | x in s :: keep(x)
  {
    if s != [] {
      FilterShorter(s[1..], keep);
    }
  }

  // ----- appending keys -----

  /** The keys an append starts from; a malformed array counts as none. */
  function ExistingKeys(key: string, parse: Parser): seq<string> {
    if LooksLikeArray(key) then
      (match parse(TrimSpace(key))
       case Array(keys) => keys
       case NotJson => [])
    else Lines(key)
  }

  /** The keys of the input that are not there yet, trimmed, each once and in order. */
  function NewKeys(existing: seq<string>, input: string): seq<string> {
    Without(Normalize(Split(input, '\n')), TrimAll(existing))
  }

  function Appended(s: State, input: string, parse: Parser): State {
    var existing := ExistingKeys(s.key, parse);
    Saved(s, State(if s.key == "" then input else Join(existing + NewKeys(existing, input), '\n'), s.info), parse)
  }

  /** The stored channel. */
  class Channel {
    var key: string
    var info: Info
    const parse: Parser

    constructor (s: State, parse: Parser)
      ensures Stored() == s && this.parse == parse
    {
      key := s.key;
      info := s.info;
      this.parse := parse;
    }

    function Stored(): State
      reads this
    {
      State(key, info)
    }

    method Update(working: State)
      modifies this
      ensures Stored() == Saved(old(Stored()), working, parse)
    {
      if working.key != "" {
        key := working.key;
      }
      var size := |CountedKeys(key, parse)|;
      info := working.info.(size := size,
                            status := map i | i in working.info.status && i < size :: working.info.status[i]);
    }

    method DeleteKey(index: int) returns (outcome: Outcome)
      modifies this
      ensures (Stored(), outcome) == DeleteKeySpec(old(Stored()), index, parse)
    {
      NothingKept(info);
      hide GetKeys, Join, Saved, Reindexed, NotEnabled, Kept, Pick;
      if index < 0 || index >= info.size {
        return OutOfRange;
      }
      var keys := GetKeys(key, parse);
      var remaining: seq<string> := [];
      var status: map<nat, int>, time: map<nat, int>, reason: map<nat, string> := map[], map[], map[];
      ghost var kept: seq<nat> := [];
      for i := 0 to |keys|
        invariant Stored() == old(Stored())
        invariant kept == Kept(i, IsNot(index))
        invariant remaining == Pick(keys, kept)
        invariant status == Reindexed(NotEnabled(info.status), kept)
        invariant time == Reindexed(info.time, kept) && reason == Reindexed(info.reason, kept)
      {
        KeptExtends(i, IsNot(index));
        if i == index {
          continue;
        }
        KeepExtends(info, kept, i);
        PickExtends(keys, kept, i);
        var newIndex := |remaining|;
        remaining := remaining + [keys[i]];
        if i in info.status && info.status[i] != ENABLED {
          status := status[newIndex := info.status[i]];
        }
        if i in info.time {
          time := time[newIndex := info.time[i]];
        }
        if i in info.reason {
          reason := reason[newIndex := info.reason[i]];
        }
        kept := kept + [i];
      }
      if |remaining| == 0 {
        return LastKey;
      }
      Update(State(Join(remaining, '\n'), Info(|remaining|, status, time, reason)));
      return Done;
    }

    method DeleteDisabledKeys() returns (outcome: Outcome, deleted: nat)
      modifies this
      ensures (Stored(), outcome) == DeleteDisabledSpec(old(Stored()), parse)
      ensures deleted == |GetKeys(old(key), parse)| - |Kept(|GetKeys(old(key), parse)|, NotAuto(old(info)))|
    {
      NothingKept(info);
      hide GetKeys, Join, Saved, Reindexed, NotEnabled, OfDisabled, Kept, Pick;
      var keys := GetKeys(key, parse);
      var remaining: seq<string> := [];
      var status: map<nat, int>, time: map<nat, int>, reason: map<nat, string> := map[], map[], map[];
      ghost var kept: seq<nat> := [];
      deleted := 0;
      for i := 0 to |keys|
        invariant Stored() == old(Stored())
        invariant kept == Kept(i, NotAuto(info))
        invariant deleted == i - |kept|
        invariant remaining == Pick(keys, kept)
        invariant status == Reindexed(NotEnabled(info.status), kept)
        invariant time == Reindexed(OfDisabled(info.time, info.status), kept)
        invariant reason == Reindexed(OfDisabled(info.reason, info.status), kept)
      {
        KeptExtends(i, NotAuto(info));
        var keyStatus := if i in info.status then info.status[i] else ENABLED;
        if keyStatus == AUTO_DISABLED {
          deleted := deleted + 1;
        } else {
          KeepExtends(info, kept, i);
          KeepDisabledExtends(info.time, info, kept, i);
          KeepDisabledExtends(info.reason, info, kept, i);
          PickExtends(keys, kept, i);
          var newIndex := |remaining|;
          remaining := remaining + [keys[i]];
          if keyStatus != ENABLED {
            status := status[newIndex := keyStatus];
            if i in info.time {
              time := time[newIndex := info.time[i]];
            }
            if i in info.reason {
              reason := reason[newIndex := info.reason[i]];
            }
          }
          kept := kept + [i];
        }
      }
      if deleted == 0 {
        return NothingToDelete, deleted;
      }
      Update(State(Join(remaining, '\n'), Info(|remaining|, status, time, reason)));
      return Done, deleted;
    }

    /** Editing the channel with new keys to append. */
    method Append(input: string)
      modifies this
      ensures Stored() == Appended(old(Stored()), input, parse)
    {
      hide TrimSpace, Split, TrimAll, Filter, Uniq, Without, Saved, Join, ExistingKeys;
      var next := input;
      if key != "" {
        var existingKeys := ExistingKeys(key, parse);
        var newKeys := ReadKeys(input);
        TrimAllTrimmed(Split(input, '\n'));
        var added := DropSeen(existingKeys, newKeys);
        next := Join(existingKeys + added, '\n');
      }
      Update(State(next, info));
    }
  }

  method ReadKeys(input: string) returns (newKeys: seq<string>)
    ensures newKeys == Filter(TrimAll(Split(input, '\n')), NonEmpty)
  {
    hide TrimSpace, Split, TrimAll, Filter;
    var inputKeys := Split(input, '\n');
    newKeys := [];
    assert inputKeys[..0] == [];
    NoKeys();
    for i := 0 to |inputKeys|
      invariant newKeys == Filter(TrimAll(inputKeys[..i]), NonEmpty)
    {
      var k := TrimSpace(inputKeys[i]);
      OneMoreKey(inputKeys, i);
      if k != "" {
        newKeys := newKeys + [k];
      }
    }
    assert inputKeys[..|inputKeys|] == inputKeys;
  }

  lemma NoKeys()
    ensures TrimAll([]) == [] && Filter(TrimAll([]), NonEmpty) == []
  {
  }

  lemma OneMoreKey(keys: seq<string>, i: nat)
    requires i < |keys|
    ensures TrimAll(keys[..i + 1]) == TrimAll(keys[..i]) + [TrimSpace(keys[i])]
    ensures Filter(TrimAll(keys[..i + 1]), NonEmpty)
         == Filter(TrimAll(keys[..i]), NonEmpty) + if TrimSpace(keys[i]) != "" then [TrimSpace(keys[i])] else []
  {
    hide TrimSpace;
    assert keys[..i + 1] == keys[..i] + [keys[i]];
    TrimAllConcat(keys[..i], [keys[i]]);
    assert TrimAll([keys[i]]) == [TrimSpace(keys[i])];
    FilterOfConcat(TrimAll(keys[..i]), [TrimSpace(keys[i])], NonEmpty);
  }

  method DropSeen(existingKeys: seq<string>, newKeys: seq<string>) returns (added: seq<string>)
    requires forall k | k in newKeys :: k != "" && TrimmedSpace(k)
    ensures added == Without(Uniq(newKeys), TrimAll(existingKeys))
  {
    hide TrimSpace, TrimAll, Without, Filter, Uniq;
    var seen: set<string> := {};
    assert existingKeys[..0] == [] && newKeys[..0] == [];
    NoKeys();
    NothingToAdd(TrimAll(existingKeys));
    for i := 0 to |existingKeys|
      invariant forall k :: k in seen <==> k in TrimAll(existingKeys[..i]) && k != ""
    {
      OneMoreKey(existingKeys, i);
      var normalized := TrimSpace(existingKeys[i]);
      if normalized != "" {
        seen := seen + {normalized};
      }
    }
    assert existingKeys[..|existingKeys|] == existingKeys;
    added := [];
    for i := 0 to |newKeys|
      invariant added == Without(Uniq(newKeys[..i]), TrimAll(existingKeys))
      invariant forall k | k != "" :: k in seen <==> k in TrimAll(existingKeys) || k in newKeys[..i]
    {
      var normalized := TrimSpace(newKeys[i]);
      assert newKeys[i] in newKeys && normalized == newKeys[i];
      UniqExtends(newKeys, i, TrimAll(existingKeys));
      if normalized !in seen {
        added := added + [normalized];
      }
      seen := seen + {normalized};
    }
    assert newKeys[..|newKeys|] == newKeys;
  }

  lemma NothingToAdd(taken: seq<string>)
    ensures Without(Uniq([]), taken) == []
  {
  }

  lemma UniqExtends(names: seq<string>, i: nat, taken: seq<string>)
    requires i < |names|
    ensures names[..i + 1] == names[..i] + [names[i]]
    ensures Without(Uniq(names[..i + 1]), taken)
         == Without(Uniq(names[..i]), taken) + if names[i] in names[..i] || names[i] in taken then [] else [names[i]]
  {
    var front := names[..i];
    assert names[..i + 1] == front + [names[i]];
    assert names[..i + 1][..i] == front;
    if names[i] !in front {
      FilterOfConcat(Uniq(front), [names[i]], NotIn(taken));
    }
  }
}
