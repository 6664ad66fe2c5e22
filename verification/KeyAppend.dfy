/** What appending keys means for the overview of a channel's keys. */
module KeyAppend {
  import opened KeyDeletion
  import opened KeyLines
  import opened KeyList
  import opened Lists
  import opened MultiKey
  import opened Names
  import opened Text

  /** Each key of the input ends up in the list: as an old key or once as a new one. */
  lemma NewKeysOnceEach(existing: seq<string>, input: string)
    ensures var added := NewKeys(existing, input);
            && Normalized(added)
            && (forall k | k in added :: '\n' !in k && k !in TrimAll(existing))
            && forall k | k in Normalize(Split(input, '\n')) :: k in TrimAll(existing) || k in added
  {
    hide Normalize, TrimAll, Split, TrimSpace, Filter;
    var lines := Split(input, '\n');
    NormalizeIsNormalized(lines);
    NormalizeKeepsFree(lines, '\n');
    FilterNormalized(Normalize(lines), NotIn(TrimAll(existing)));
  }

  function EnabledRows(keys: seq<string>): seq<KeyRow> {
    seq(|keys|, j requires 0 <= j < |keys| => KeyRow(keys[j], ENABLED, 0, ""))
  }

  lemma MoreRows(keys: seq<string>, added: seq<string>, info: Info)
    requires forall i | i in info.status :: i < |keys|
    ensures RowsOf(keys + added, info) == RowsOf(keys, info) + EnabledRows(added)
  {
  }

  // ----- when an append keeps the overview -----

  lemma EmptyJoin(keys: seq<string>)
    requires Join(keys, '\n') == ""
    ensures keys == [] || keys == [""]
  {
  }

  lemma EmptyExtension(keys: seq<string>, added: seq<string>)
    requires (forall k | k in added :: k != "") && Join(keys + added, '\n') == ""
    ensures added == [] && (keys == [] || keys == [""])
  {
    EmptyJoin(keys + added);
    assert keys == [] ==> keys + added == added;
    assert "" !in added && "" in [""];
  }

  /** The keys served now, and behind them the new ones. */
  function Extended(s: State, input: string, parse: Parser): seq<string> {
    ExistingKeys(s.key, parse) + NewKeys(ExistingKeys(s.key, parse), input)
  }

  lemma AppendedIs(s: State, input: string, parse: Parser)
    requires s.key != ""
    ensures Appended(s, input, parse) == Saved(s, State(Join(Extended(s, input, parse), '\n'), s.info), parse)
  {
    hide ExistingKeys, NewKeys, Join, Saved;
  }

  /** An update with the string that is stored, or with none. */
  lemma SavedUnchanged(s: State, key: string, parse: Parser)
    requires Consistent(s, parse) && (key == "" || key == s.key)
    ensures Rows(Saved(s, State(key, s.info), parse), parse) == Rows(s, parse)
  {
    hide LooksLikeArray, Lines;
  }

  lemma StoredExtension(s: State, all: seq<string>, parse: Parser)
    requires Consistent(s, parse) && GetKeys(s.key, parse) <= all && all != [] && Storable(all, parse)
    ensures Rows(Saved(s, State(Join(all, '\n'), s.info), parse), parse) == RowsOf(all, s.info)
  {
    StoredKeysReadBack(all, parse);
    CountedIfAny(Join(all, '\n'), parse);
    hide GetKeys, CountedKeys, Join, Storable;
    SavedPicked(s, State(Join(all, '\n'), s.info), all, parse);
  }

  lemma ExtensionIsStored(s: State, all: seq<string>, info: Info, parse: Parser)
    requires Rows(Saved(s, State(Join(all, '\n'), s.info), parse), parse) == RowsOf(all, info)
    ensures Join(all, '\n') != "" ==> Storable(all, parse)
  {
    var t := Saved(s, State(Join(all, '\n'), s.info), parse);
    KeysOfRows(all, info);
    KeysOfRows(GetKeys(t.key, parse), t.info);
    StoredKeysReadBack(all, parse);
    hide GetKeys, CountedKeys, Join, Storable;
  }

  /** Unless the stored string is a malformed array, an append leaves every line of the overview in place and adds an
      enabled one for each new key if and only if the extended list can be stored (or is one blank key). */
  lemma AppendKeepsRows(s: State, input: string, parse: Parser)
    requires Consistent(s, parse) && s.key != "" && ExistingKeys(s.key, parse) == GetKeys(s.key, parse)
    ensures var t, keys := Appended(s, input, parse), GetKeys(s.key, parse);
            var all := keys + NewKeys(keys, input);
            (Rows(t, parse) == Rows(s, parse) + EnabledRows(NewKeys(keys, input))
             <==> Storable(all, parse) || all == [""])
  {
    var keys := GetKeys(s.key, parse);
    var added := NewKeys(keys, input);
    var all := keys + added;
    AppendedIs(s, input, parse);
    MoreRows(keys, added, s.info);
    NewKeysOnceEach(keys, input);
    if Join(all, '\n') == "" {
      EmptyExtension(keys, added);
      hide GetKeys, NewKeys, LooksLikeArray;
      SavedUnchanged(s, "", parse);
    } else {
      hide GetKeys, NewKeys, Saved, Rows, Storable, Consistent, RowsOf, EnabledRows, Normalized;
      if Storable(all, parse) {
        StoredExtension(s, all, parse);
      } else if Rows(Appended(s, input, parse), parse) == RowsOf(all, s.info) {
        ExtensionIsStored(s, all, s.info, parse);
      }
    }
  }

  // ----- malformed arrays -----

  /** The keys that a malformed array leaves to begin with: none. */
  ghost predicate Malformed(key: string, parse: Parser) {
    LooksLikeArray(key) && parse(TrimSpace(key)).NotJson?
  }

  lemma MalformedServesLines(key: string, parse: Parser)
    requires Malformed(key, parse)
    ensures key != "" && GetKeys(key, parse) == Lines(key) && ExistingKeys(key, parse) == []
  {
  }

  lemma CountedAtLeast(key: string, parse: Parser)
    ensures |GetKeys(key, parse)| <= |CountedKeys(key, parse)|
  {
  }

  lemma CleanedRows(more: seq<string>, info: Info, cleaned: Info, n: nat)
    requires |more| <= n
    requires cleaned == info.(size := n, status := map i | i in info.status && i < n :: info.status[i])
    ensures RowsOf(more, cleaned) == RowsOf(more, info)
  {
  }

  lemma PrefixOfRows(keys: seq<string>, more: seq<string>, info: Info)
    ensures RowsOf(keys, info) <= RowsOf(more, info) <==> keys <= more
  {
    KeysOfRows(keys, info);
    KeysOfRows(more, info);
    if RowsOf(keys, info) <= RowsOf(more, info) {
      assert forall i | 0 <= i < |keys| :: KeysOf(RowsOf(keys, info))[i] == KeysOf(RowsOf(more, info))[i];
    }
  }

  /** A malformed array is served by its lines, but an append that brings a key overwrites them: no line of the
      overview moves if and only if there is no new key, or the list that the new keys form begins with the lines. */
  lemma AppendToMalformedArray(s: State, input: string, parse: Parser)
    requires Consistent(s, parse) && Malformed(s.key, parse)
    ensures var added := NewKeys([], input);
            (Rows(s, parse) <= Rows(Appended(s, input, parse), parse)
             <==> added == [] || Lines(s.key) <= GetKeys(Join(added, '\n'), parse))
  {
    var added := NewKeys([], input);
    var key := Join(added, '\n');
    MalformedServesLines(s.key, parse);
    AppendedIs(s, input, parse);
    assert [] + added == added;
    NewKeysOnceEach([], input);
    if key == "" {
      EmptyExtension([], added);
      hide GetKeys, NewKeys, LooksLikeArray;
      SavedUnchanged(s, key, parse);
    } else {
      assert added != [];
      var t := Saved(s, State(key, s.info), parse);
      CountedAtLeast(key, parse);
      hide GetKeys, NewKeys, CountedKeys, Join, Lines, Consistent, Normalized, RowsOf;
      CleanedRows(GetKeys(key, parse), s.info, t.info, |CountedKeys(key, parse)|);
      PrefixOfRows(GetKeys(s.key, parse), GetKeys(key, parse), s.info);
    }
  }

  lemma NewKeysServed(input: string, parse: Parser)
    requires NewKeys([], input) != [] && !LooksLikeArray(NewKeys([], input)[0])
    ensures GetKeys(Join(NewKeys([], input), '\n'), parse) == NewKeys([], input)
    ensures TrimSpace(NewKeys([], input)[0]) != ""
  {
    var added := NewKeys([], input);
    NewKeysOnceEach([], input);
    assert added[0] in added && added[|added| - 1] in added;
    assert TrimSpace(added[0]) == added[0];
    hide NewKeys;
    HeadDecides(added);
    StoredKeysReadBack(added, parse);
  }

  lemma ArrayIsNoPrefix(key: string, added: seq<string>)
    requires LooksLikeArray(key) && added != [] && TrimSpace(added[0]) != "" && !LooksLikeArray(added[0])
    ensures !(Lines(key) <= added)
  {
    if Lines(key) <= added {
      assert Lines(key)[0] == added[0];
      FirstLineDecides(key);
    }
  }

  /** When no new key looks like an array itself, an append to a malformed array keeps the overview if and only if it
      brings no key. */
  lemma PlainAppendToMalformedArray(s: State, input: string, parse: Parser)
    requires Consistent(s, parse) && Malformed(s.key, parse)
    requires NewKeys([], input) != [] ==> !LooksLikeArray(NewKeys([], input)[0])
    ensures Rows(s, parse) <= Rows(Appended(s, input, parse), parse) <==> NewKeys([], input) == []
  {
    AppendToMalformedArray(s, input, parse);
    if NewKeys([], input) != [] {
      NewKeysServed(input, parse);
      ArrayIsNoPrefix(s.key, NewKeys([], input));
      hide NewKeys, Rows, Appended, GetKeys, Lines, LooksLikeArray;
    }
  }

  lemma OneNewKey(k: string)
    requires k != "" && TrimmedSpace(k) && '\n' !in k
    ensures NewKeys([], k) == [k]
  {
    SplitNoSeparator(k, '\n');
    NormalizeFixed([k]);
    FilterAll([k], NotIn(TrimAll([])));
  }

  /** One plain key appended to a malformed array: the keys served before are gone. */
  lemma AppendLosesKeys(s: State, k: string, parse: Parser)
    requires Consistent(s, parse) && Malformed(s.key, parse)
    requires k != "" && TrimmedSpace(k) && '\n' !in k && !LooksLikeArray(k)
    ensures var t := Appended(s, k, parse);
            GetKeys(t.key, parse) == [k] && GetKeys(s.key, parse)[0] != k
  {
    var t := Appended(s, k, parse);
    OneNewKey(k);
    NewKeysServed(k, parse);
    MalformedServesLines(s.key, parse);
    AppendedIs(s, k, parse);
    ArrayIsNoPrefix(s.key, [k] + Lines(s.key)[1..]);
    assert [] + [k] == [k];
    hide NewKeys, Lines, LooksLikeArray, Consistent;
  }

  // ----- appending twice -----

  /** An append that finds nothing new stores what is there, without newlines at its ends. */
  lemma AppendNothing(t: State, input: string, parse: Parser)
    requires t.key != "" && !LooksLikeArray(t.key) && NewKeys(Lines(t.key), input) == []
    requires Consistent(t, parse)
    ensures Rows(Appended(t, input, parse), parse) == Rows(t, parse)
  {
    var trimmed := TrimChar(t.key, '\n');
    AppendedIs(t, input, parse);
    assert Lines(t.key) + [] == Lines(t.key);
    JoinOfSplit(trimmed, '\n');
    TrimSpaceOfTrimChar(t.key);
    if trimmed == "" {
      SavedUnchanged(t, "", parse);
    } else {
      assert Lines(trimmed) == Lines(t.key);
      assert GetKeys(trimmed, parse) == CountedKeys(trimmed, parse) == GetKeys(t.key, parse);
      hide LooksLikeArray, Lines, NewKeys, Join, GetKeys, CountedKeys;
      SavedPicked(t, State(trimmed, t.info), GetKeys(t.key, parse), parse);
    }
  }

  /** The keys of the input are all found in a string that is stored for them. */
  lemma InputIsFound(s: State, input: string, parse: Parser)
    requires Appended(s, input, parse).key != "" && (s.key != "" ==> Join(Extended(s, input, parse), '\n') != "")
    ensures NewKeys(Lines(Appended(s, input, parse).key), input) == []
  {
    var existing := ExistingKeys(s.key, parse);
    var key := if s.key == "" then input else Join(Extended(s, input, parse), '\n');
    var wanted := Normalize(Split(input, '\n'));
    assert Appended(s, input, parse).key == key;
    forall x | x in wanted ensures x in TrimAll(Lines(key)) {
      WantedIsFound(s, input, x, parse);
    }
    hide Lines, Normalize, TrimAll, Split;
    FilterNone(wanted, NotIn(TrimAll(Lines(key))));
  }

  lemma WantedIsFound(s: State, input: string, x: string, parse: Parser)
    requires x in Normalize(Split(input, '\n'))
    ensures x in TrimAll(Lines(if s.key == "" then input else Join(Extended(s, input, parse), '\n')))
  {
    var existing := ExistingKeys(s.key, parse);
    var lines := Split(input, '\n');
    NormalizeMembers(lines);
    NormalizeKeepsFree(lines, '\n');
    if s.key == "" {
      var l := TrimAllSource(lines, x);
      assert l != "";
      hide Split, Lines, TrimAll, TrimSpace, Normalize;
      VisibleLinesStay(input, l);
      TrimAllMember(Lines(input), l);
    } else {
      var added := NewKeys(existing, input);
      NewKeysOnceEach(existing, input);
      TrimAllConcat(existing, added);
      if x in added {
        TrimAllMember(added, x);
      }
      hide Split, Lines, TrimAll, TrimSpace, Normalize, NewKeys, ExistingKeys;
      KeyIsFound(existing + added, x);
    }
  }

  lemma EmptyStaysEmpty(s: State, input: string, parse: Parser)
    requires Appended(s, input, parse).key == ""
    ensures var t := Appended(s, input, parse); Rows(Appended(t, input, parse), parse) == Rows(t, parse)
  {
    assert input == "";
    hide NewKeys, Lines, LooksLikeArray;
  }

  /** Nothing and one blank key hold no key of any input; so the input had none. */
  lemma NothingWanted(s: State, input: string, parse: Parser)
    requires Join(Extended(s, input, parse), '\n') == ""
    ensures forall keys :: NewKeys(keys, input) == []
  {
    var existing := ExistingKeys(s.key, parse);
    var added, wanted := NewKeys(existing, input), Normalize(Split(input, '\n'));
    NewKeysOnceEach(existing, input);
    NormalizeIsNormalized(Split(input, '\n'));
    hide ExistingKeys, NewKeys, Normalize, Split;
    EmptyExtension(existing, added);
    assert TrimAll([""]) == [""] && TrimAll([]) == [];
    assert forall x | x in wanted :: x in TrimAll(existing);
    assert forall x | x in TrimAll(existing) :: x == "";
    FilterAll(wanted, NonEmpty);
    FilterNone(wanted, NonEmpty);
    NewKeysOfNothing(input);
  }

  lemma NewKeysOfNothing(input: string)
    requires Normalize(Split(input, '\n')) == []
    ensures forall keys :: NewKeys(keys, input) == []
  {
  }

  lemma PlainSavedIsConsistent(s: State, input: string, parse: Parser)
    requires !LooksLikeArray(Appended(s, input, parse).key)
    ensures Consistent(Appended(s, input, parse), parse)
  {
    var existing := ExistingKeys(s.key, parse);
    SavedIsConsistent(s, State(if s.key == "" then input else Join(Extended(s, input, parse), '\n'), s.info), parse);
    hide ExistingKeys, NewKeys, Join, Saved, Consistent, LooksLikeArray;
  }

  /** Saving another string under the same maps shows the same overview if and only if it holds the same keys. */
  lemma SavedShowsSame(t: State, key: string, parse: Parser)
    ensures Rows(Saved(t, State(key, t.info), parse), parse) == Rows(t, parse)
       <==> key == "" || GetKeys(key, parse) == GetKeys(t.key, parse)
  {
    var stored := if key != "" then key else t.key;
    var u := Saved(t, State(key, t.info), parse);
    CountedAtLeast(stored, parse);
    hide GetKeys, CountedKeys, RowsOf;
    CleanedRows(GetKeys(stored, parse), t.info, u.info, |CountedKeys(stored, parse)|);
    KeysOfRows(GetKeys(stored, parse), t.info);
    KeysOfRows(GetKeys(t.key, parse), t.info);
  }

  lemma PlainAppendTwice(s: State, input: string, parse: Parser)
    requires !LooksLikeArray(Appended(s, input, parse).key)
    ensures var t := Appended(s, input, parse); Rows(Appended(t, input, parse), parse) == Rows(t, parse)
  {
    var t := Appended(s, input, parse);
    PlainSavedIsConsistent(s, input, parse);
    if t.key == "" {
      EmptyStaysEmpty(s, input, parse);
    } else if s.key != "" && Join(Extended(s, input, parse), '\n') == "" {
      NothingWanted(s, input, parse);
      AppendNothing(t, input, parse);
    } else {
      InputIsFound(s, input, parse);
      AppendNothing(t, input, parse);
    }
  }

  predicate IsArray(key: string, parse: Parser) {
    LooksLikeArray(key) && parse(TrimSpace(key)).Array?
  }

  /** Whether appending this input to a string that looks like an array shows what was shown before. Either nothing is
      stored, or what is stored is an array of the same keys; or else it is a list of lines: those of an array without
      a new key that can be stored as lines, or those of a malformed one whose lines are just the keys of the input. */
  ghost predicate ShowsSameArray(key: string, input: string, parse: Parser) {
    match parse(TrimSpace(key))
    case Array(keys) =>
      var added := NewKeys(keys, input);
      var next := Join(keys + added, '\n');
      || next == ""
      || if IsArray(next, parse) then parse(TrimSpace(next)) == Array(keys) else added == [] && Joinable(keys)
    case NotJson =>
      var added := NewKeys([], input);
      var next := Join(added, '\n');
      || added == []
      || if IsArray(next, parse) then parse(TrimSpace(next)) == Array(Lines(key)) else added == Lines(key)
  }

  /** A new key is among the lines that are stored, and so they are not the keys from before. */
  lemma NewKeyIsSeen(keys: seq<string>, input: string, parse: Parser)
    requires var next := Join(keys + NewKeys(keys, input), '\n'); next != "" && !IsArray(next, parse)
    requires NewKeys(keys, input) != []
    ensures GetKeys(Join(keys + NewKeys(keys, input), '\n'), parse) != keys
  {
    var added := NewKeys(keys, input);
    var x := added[0];
    NewKeysOnceEach(keys, input);
    assert x in added && x !in TrimAll(keys) && x != "" && '\n' !in x && TrimSpace(x) == x;
    TrimAllConcat(keys, added);
    TrimAllMember(added, x);
    hide NewKeys, Join, Lines, TrimAll, TrimSpace, LooksLikeArray;
    KeyIsFound(keys + added, x);
  }

  lemma ArrayAppendShowsSame(key: string, input: string, parse: Parser)
    requires IsArray(key, parse)
    ensures var next := Join(ExistingKeys(key, parse) + NewKeys(ExistingKeys(key, parse), input), '\n');
            (next == "" || GetKeys(next, parse) == GetKeys(key, parse)) <==> ShowsSameArray(key, input, parse)
  {
    var keys := parse(TrimSpace(key)).keys;
    var added := NewKeys(keys, input);
    var next := Join(keys + added, '\n');
    assert ExistingKeys(key, parse) == keys == GetKeys(key, parse);
    if added == [] {
      assert keys + added == keys;
      StoredKeysReadBack(keys, parse);
    } else if next != "" && !IsArray(next, parse) {
      NewKeyIsSeen(keys, input, parse);
    }
    hide NewKeys, Join, Joinable, Lines, LooksLikeArray;
  }

  lemma NewKeysStored(input: string, parse: Parser)
    requires NewKeys([], input) != []
    ensures var next := Join(NewKeys([], input), '\n');
            next != ""
            && GetKeys(next, parse) == if IsArray(next, parse) then parse(TrimSpace(next)).keys else NewKeys([], input)
  {
    var added := NewKeys([], input);
    NewKeysOnceEach([], input);
    assert added[0] in added && added[|added| - 1] in added;
    JoinableReadsBack(added);
    if Join(added, '\n') == "" {
      EmptyExtension([], added);
    }
    hide NewKeys, Join, Lines, LooksLikeArray, Normalized;
  }

  lemma MalformedAppendShowsSame(key: string, input: string, parse: Parser)
    requires Malformed(key, parse)
    ensures var next := Join(ExistingKeys(key, parse) + NewKeys(ExistingKeys(key, parse), input), '\n');
            (next == "" || GetKeys(next, parse) == GetKeys(key, parse)) <==> ShowsSameArray(key, input, parse)
  {
    var added := NewKeys([], input);
    MalformedServesLines(key, parse);
    assert [] + added == added;
    assert Join([], '\n') == "";
    hide NewKeys, Join, Lines, LooksLikeArray, ExistingKeys, GetKeys;
    if added != [] {
      NewKeysStored(input, parse);
    }
  }

  /** Appending the same input again changes nothing that is shown, if and only if the string that is stored after the
      first time does not look like an array, or does and meets that condition. */
  lemma AppendTwice(s: State, input: string, parse: Parser)
    ensures var t := Appended(s, input, parse);
            (Rows(Appended(t, input, parse), parse) == Rows(t, parse)
             <==> !LooksLikeArray(t.key) || ShowsSameArray(t.key, input, parse))
  {
    var t := Appended(s, input, parse);
    if LooksLikeArray(t.key) {
      AppendedIs(t, input, parse);
      assert IsArray(t.key, parse) || Malformed(t.key, parse);
      hide Appended, Rows, ShowsSameArray, GetKeys, ExistingKeys, NewKeys, Join, Saved, IsArray, Malformed,
           LooksLikeArray;
      SavedShowsSame(t, Join(Extended(t, input, parse), '\n'), parse);
      if IsArray(t.key, parse) {
        ArrayAppendShowsSame(t.key, input, parse);
      } else {
        MalformedAppendShowsSame(t.key, input, parse);
      }
    } else {
      hide *;
      PlainAppendTwice(s, input, parse);
    }
  }

  /** So for an array that has all keys of the input already: the same is shown if and only if its keys can be stored
      as lines, or it holds no key but a blank one. */
  lemma AppendKnownToArray(key: string, input: string, parse: Parser)
    requires IsArray(key, parse) && NewKeys(parse(TrimSpace(key)).keys, input) == []
    ensures var keys := parse(TrimSpace(key)).keys;
            ShowsSameArray(key, input, parse) <==> keys == [] || keys == [""] || Storable(keys, parse)
  {
    var keys := parse(TrimSpace(key)).keys;
    assert keys + [] == keys;
    assert Join([], '\n') == "" && Join([""], '\n') == "";
    if Join(keys, '\n') == "" {
      EmptyJoin(keys);
    }
    hide NewKeys, Joinable, LooksLikeArray, Join;
  }

  /** The same key on two lines. */
  function Doubled(k: string): string {
    Join([k, k], '\n')
  }

  lemma DoubledLines(k: string)
    requires k != "" && TrimmedSpace(k) && '\n' !in k
    ensures Doubled(k) != "" && Lines(Doubled(k)) == Split(Doubled(k), '\n') == [k, k]
    ensures LooksLikeArray(Doubled(k)) <==> LooksLikeArray(k)
  {
    assert k in [k, k];
    JoinableReadsBack([k, k]);
    SplitOfJoin([k, k], '\n');
    HeadDecides([k, k]);
    hide Join, LooksLikeArray;
  }

  lemma UniqTwice(k: string)
    ensures Uniq([k, k]) == [k]
  {
    assert [k][..0] == [] && k in [k];
    assert Uniq([k]) == [] + [k];
    assert [k, k][..1] == [k];
  }

  lemma DoubledIsOneNew(k: string)
    requires k != "" && TrimmedSpace(k) && '\n' !in k
    ensures NewKeys([], Doubled(k)) == [k]
  {
    DoubledLines(k);
    assert TrimAll([k, k]) == [TrimSpace(k)] + TrimAll([k, k][1..]);
    assert [k, k][1..] == [k] && [k][1..] == [];
    assert TrimAll([k, k]) == [k, k];
    FilterAll([k, k], NonEmpty);
    UniqTwice(k);
    FilterAll([k], NotIn(TrimAll([])));
    hide Uniq, Filter, TrimSpace, Join, Split;
  }

  /** A key that looks like an array, twice in the first input: both copies are served until the second append. */
  lemma SecondAppendDropsCopy(s: State, k: string, parse: Parser)
    requires s.key == "" && TrimmedSpace(k) && '\n' !in k && LooksLikeArray(k) && parse(k).NotJson?
    requires parse(TrimSpace(Doubled(k))).NotJson?
    ensures var t := Appended(s, Doubled(k), parse);
            GetKeys(t.key, parse) == [k, k] && GetKeys(Appended(t, Doubled(k), parse).key, parse) == [k]
  {
    var t := Appended(s, Doubled(k), parse);
    DoubledLines(k);
    DoubledIsOneNew(k);
    assert t.key == Doubled(k);
    assert GetKeys(t.key, parse) == [k, k] && ExistingKeys(t.key, parse) == [];
    assert [] + [k] == [k] && Join([k], '\n') == k;
    AppendedIs(t, Doubled(k), parse);
    SplitNoSeparator(k, '\n');
    assert GetKeys(k, parse) == [k];
    hide GetKeys, NewKeys, ExistingKeys, Doubled, Join, LooksLikeArray, CountedKeys;
  }
}
