/** Deleting keys from a list of lines that may hold blank ones: what is stored then, and when deleting all
    automatically disabled keys at once is deleting them one by one. */
module KeyCleanup {
  import opened KeyDeletion
  import opened KeyList
  import opened Lists
  import opened MultiKey
  import opened Text

  // ----- what is stored of a list of lines -----

  /** The lines that remain when these are stored: the blank keys at both ends go, but each status, time and reason
      stays at its index, so that blank keys at the front shift them. */
  function StoredRows(rows: seq<KeyRow>): (r: seq<KeyRow>)
    ensures |r| == |TrimBlanks(KeysOf(rows))|
  {
    var keys := TrimBlanks(KeysOf(rows));
    seq(|keys|, j requires 0 <= j < |keys| => rows[j].(key := keys[j]))
  }

  predicate Visible(row: KeyRow) {
    row.key != ""
  }

  ghost predicate AnyVisible(rows: seq<KeyRow>) {
    exists row | row in rows :: Visible(row)
  }

  lemma VisibleRemains(rows: seq<KeyRow>)
    requires AnyVisible(rows)
    ensures TrimBlanks(KeysOf(rows)) != []
  {
    var row :| row in rows && Visible(row);
    var i :| 0 <= i < |rows| && rows[i] == row;
    assert KeysOf(rows)[i] == row.key;
    TrimBlanksKeeps(KeysOf(rows), row.key);
  }

  lemma CleanedRow(key: string, info: Info, n: nat, j: nat)
    requires j < n
    ensures RowAt(key, info.(size := n, status := map i | i in info.status && i < n :: info.status[i]), j)
         == RowAt(key, info, j)
  {
  }

  /** Keeping some lines of a list of lines stores them without the blank ends. */
  lemma KeepStoresRows(s: State, kept: seq<nat>, working: State, parse: Parser)
    requires Keeps(s, kept, working, parse) && PlainLines(GetKeys(s.key, parse))
    requires AnyVisible(Pick(Rows(s, parse), kept))
    ensures var t := Saved(s, working, parse);
            Consistent(t, parse) && PlainLines(GetKeys(t.key, parse))
            && Rows(t, parse) == StoredRows(Pick(Rows(s, parse), kept))
  {
    var keys, rows := GetKeys(s.key, parse), Pick(Rows(s, parse), kept);
    var picked := Pick(keys, kept);
    var stored := TrimBlanks(picked);
    assert KeysOf(rows) == picked;
    VisibleRemains(rows);
    assert PlainLines(picked) && PlainLines(stored);
    LinesOfJoin(picked);
    PlainIsNoArray(picked);
    assert GetKeys(working.key, parse) == stored == CountedKeys(working.key, parse);
    forall j | 0 <= j < |kept| ensures RowAt(picked[j], working.info, j) == rows[j] {
      CarriedRow(working.info, s.info, kept, j, picked[j]);
    }
    hide GetKeys, CountedKeys, Join, LooksLikeArray, TrimBlanks, Carries;
    StoredRowsAre(s, working, rows, picked, stored, parse);
  }

  lemma StoredRowsAre(s: State, working: State, rows: seq<KeyRow>, picked: seq<string>, stored: seq<string>,
                      parse: Parser)
    requires working.key != "" && GetKeys(working.key, parse) == stored == CountedKeys(working.key, parse)
    requires KeysOf(rows) == picked && stored == TrimBlanks(picked)
    requires forall j | 0 <= j < |rows| :: RowAt(picked[j], working.info, j) == rows[j]
    ensures var t := Saved(s, working, parse);
            Consistent(t, parse) && Rows(t, parse) == StoredRows(rows)
  {
    hide GetKeys, CountedKeys, TrimBlanks;
    var t := Saved(s, working, parse);
    forall j | 0 <= j < |stored| ensures RowAt(stored[j], t.info, j) == rows[j].(key := stored[j]) {
      CleanedRow(stored[j], working.info, |stored|, j);
    }
  }

  /** Deleting one key from a list of lines: what is shown afterwards, blank lines included. */
  lemma DeleteLine(s: State, index: nat, parse: Parser)
    requires Consistent(s, parse) && PlainLines(GetKeys(s.key, parse)) && index < s.info.size
    requires AnyVisible(TakeOut(Rows(s, parse), index))
    ensures var (t, outcome) := DeleteKeySpec(s, index, parse);
            && outcome == Done && Consistent(t, parse) && PlainLines(GetKeys(t.key, parse))
            && Rows(t, parse) == StoredRows(TakeOut(Rows(s, parse), index))
  {
    var keys := GetKeys(s.key, parse);
    var kept := Kept(|keys|, IsNot(index));
    KeptButOne(|keys|, index);
    PickButOne(Rows(s, parse), index);
    DeletionKeeps(s, IsNot(index), parse);
    hide GetKeys, Kept, Saved, Deletion, TakeOut, Keeps, StoredRows, PlainLines, AnyVisible;
    KeepStoresRows(s, kept, Deletion(keys, s.info, kept), parse);
  }

  /** Deleting the automatically disabled keys from a list of lines, when a key that is not blank is left. */
  lemma DeleteDisabledLines(s: State, parse: Parser)
    requires Consistent(s, parse) && PlainLines(GetKeys(s.key, parse)) && !NoneDisabled(Rows(s, parse))
    requires AnyVisible(Filter(Rows(s, parse), RowNotAuto))
    ensures var t := DeleteDisabledSpec(s, parse).0;
            Rows(t, parse) == StoredRows(Filter(Rows(s, parse), RowNotAuto))
  {
    var keys := GetKeys(s.key, parse);
    var kept := Kept(|keys|, NotAuto(s.info));
    LeftMeansKept(s, parse);
    KeptRows(s, parse);
    assert kept != [];
    DeletionKeeps(s, NotAuto(s.info), parse);
    hide GetKeys, Kept, Saved, Cleanup, Keeps, StoredRows, PlainLines, AnyVisible, Filter, NoneDisabled, AnyLeft;
    KeepStoresRows(s, kept, Cleanup(keys, s.info, kept), parse);
  }

  /** Two keys with a blank line between them, the last one automatically disabled. */
  function BlankMiddle(a: string, b: string, time: int): State {
    State(Join([a, "", b], '\n'), Info(3, map[2 := AUTO_DISABLED], map[2 := time], map[]))
  }

  lemma BlankMiddleKeys(a: string, b: string, parse: Parser)
    requires PlainLines([a, b]) && a != "" && b != ""
    ensures GetKeys(Join([a, "", b], '\n'), parse) == [a, "", b] && PlainLines([a, "", b])
  {
    assert a in [a, b] && b in [a, b];
    var keys := [a, "", b];
    PlainIsStorable(keys, parse);
    StoredKeysReadBack(keys, parse);
    hide Join, LooksLikeArray, GetKeys;
  }

  lemma BlankFirst(b: string, parse: Parser)
    requires PlainLines([b]) && b != ""
    ensures TrimBlanks(["", b]) == [b]
    ensures Join(["", b], '\n') != "" && CountedKeys(Join(["", b], '\n'), parse) == [b]
  {
    assert b in [b] && ["", b][1..] == [b];
    assert TrimBlanks(["", b]) == [b];
    LinesOfJoin(["", b]);
    PlainIsNoArray(["", b]);
  }

  lemma TailOfThree<T>(x: T, y: T, z: T)
    ensures TakeOut([x, y, z], 0) == [y, z] == Pick([x, y, z], Kept(3, IsNot(0)))
    ensures Kept(3, IsNot(0)) == [1, 2]
  {
    KeptButOne(3, 0);
    hide Kept;
    assert Kept(3, IsNot(0)) == [1, 2];
  }

  lemma BlankMiddleRows(a: string, b: string, time: int, parse: Parser)
    requires PlainLines([a, b]) && a != "" && b != ""
    ensures var s := BlankMiddle(a, b, time);
            && Consistent(s, parse) && PlainLines(GetKeys(s.key, parse))
            && Rows(s, parse)
            == [KeyRow(a, ENABLED, 0, ""), KeyRow("", ENABLED, 0, ""), KeyRow(b, AUTO_DISABLED, time, "")]
  {
    BlankMiddleKeys(a, b, parse);
    hide Join, PlainLines, GetKeys;
  }

  lemma DeleteFirstOfThree(s: State, x: KeyRow, y: KeyRow, z: KeyRow, parse: Parser)
    requires Consistent(s, parse) && PlainLines(GetKeys(s.key, parse)) && Rows(s, parse) == [x, y, z] && Visible(z)
    ensures var (t, outcome) := DeleteKeySpec(s, 0, parse);
            outcome == Done && Rows(t, parse) == StoredRows([y, z])
  {
    assert s.info.size == 3;
    TailOfThree(x, y, z);
    assert z in [y, z];
    hide GetKeys, PlainLines, Rows, TakeOut, DeleteKeySpec, Kept, Pick, StoredRows, Consistent;
    DeleteLine(s, 0, parse);
  }

  lemma StoredBlankFirst(y: KeyRow, z: KeyRow)
    requires y.key == "" && z.key != ""
    ensures StoredRows([y, z]) == [y.(key := z.key)]
  {
    assert KeysOf([y, z]) == ["", z.key] && ["", z.key][1..] == [z.key];
  }

  /** A blank line in the middle: deleting the first key makes the automatically disabled last one an enabled one ... */
  lemma BlankLineMovesStatus(a: string, b: string, time: int, parse: Parser)
    requires PlainLines([a, b]) && a != "" && b != ""
    ensures var s := BlankMiddle(a, b, time);
            var (t, outcome) := DeleteKeySpec(s, 0, parse);
            && Consistent(s, parse) && Rows(s, parse)[2] == KeyRow(b, AUTO_DISABLED, time, "")
            && outcome == Done && Rows(t, parse) == [KeyRow(b, ENABLED, 0, "")]
  {
    var none, last := KeyRow("", ENABLED, 0, ""), KeyRow(b, AUTO_DISABLED, time, "");
    BlankMiddleRows(a, b, time, parse);
    hide GetKeys, PlainLines, Rows, DeleteKeySpec, StoredRows, Consistent, BlankMiddle;
    DeleteFirstOfThree(BlankMiddle(a, b, time), KeyRow(a, ENABLED, 0, ""), none, last, parse);
    StoredBlankFirst(none, last);
  }

  lemma LastTimeIsLeft(s: State, parse: Parser)
    requires |GetKeys(s.key, parse)| == 3 && DeleteKeySpec(s, 0, parse).1 == Done && 2 in s.info.time
    requires CountedLater(s, TakeOut(GetKeys(s.key, parse), 0), parse) == 1
    ensures !InRange(DeleteKeySpec(s, 0, parse).0.info)
  {
    KeptButOne(3, 0);
    assert Kept(3, IsNot(0))[1] in s.info.time;
    PickButOne(GetKeys(s.key, parse), 0);
    hide *;
    DeleteKeyRange(s, 0, parse);
  }

  lemma OneIsCounted(s: State, b: string, parse: Parser)
    requires PlainLines([b]) && b != ""
    ensures CountedLater(s, ["", b], parse) == 1
  {
    BlankFirst(b, parse);
    hide Join, CountedKeys, PlainLines;
  }

  /** ... and leaves its time at an index that is no key's. */
  lemma BlankLineLeavesTime(a: string, b: string, time: int, parse: Parser)
    requires PlainLines([a, b]) && a != "" && b != ""
    ensures !InRange(DeleteKeySpec(BlankMiddle(a, b, time), 0, parse).0.info)
  {
    var s := BlankMiddle(a, b, time);
    assert b in [a, b];
    assert s.key == Join([a, "", b], '\n') && 2 in s.info.time;
    assert PlainLines([b]);
    hide *;
    BlankLineMovesStatus(a, b, time, parse);
    BlankMiddleKeys(a, b, parse);
    TailOfThree(a, "", b);
    OneIsCounted(s, b, parse);
    LastTimeIsLeft(s, parse);
  }
}
