/** Deleting the automatically disabled keys one by one, compared with deleting them all at once. */
module KeyEach {
  import opened KeyCleanup
  import opened KeyDeletion
  import opened KeyList
  import opened Lists
  import opened MultiKey
  import opened Text

  function IsAuto(info: Info): nat -> bool {
    (i: nat) => StatusOf(info, i) == AUTO_DISABLED
  }

  function AutoIndices(s: State, parse: Parser): seq<nat> {
    Kept(|GetKeys(s.key, parse)|, IsAuto(s.info))
  }

  /** Deletes the key at each of the indices, the last one first. */
  function DeleteEach(s: State, indices: seq<nat>, parse: Parser): State
    decreases |indices|
  {
    if indices == [] then s
    else DeleteEach(DeleteKeySpec(s, indices[|indices| - 1], parse).0, indices[..|indices| - 1], parse)
  }

  ghost predicate Ascending(indices: seq<nat>, n: int) {
    && (forall i, j | 0 <= i < j < |indices| :: indices[i] < indices[j])
    && (forall i | 0 <= i < |indices| :: indices[i] < n)
  }

  lemma {:induction false} KeptAscends(n: nat, keep: nat -> bool)
    ensures Ascending(Kept(n, keep), n)
  {
    if n > 0 {
      KeptAscends(n - 1, keep);
      KeptExtends(n - 1, keep);
    }
  }

  ghost function RowsWithout<T>(rows: seq<T>, indices: seq<nat>): seq<T>
    requires Ascending(indices, |rows|)
    decreases |indices|
  {
    if indices == [] then rows
    else RowsWithout(TakeOut(rows, indices[|indices| - 1]), indices[..|indices| - 1])
  }

  lemma FilterOneMore<T(!new)>(rows: seq<T>, n: nat, f: T -> bool)
    requires 0 < n <= |rows|
    ensures Filter(rows[..n], f) == Filter(rows[..n - 1], f) + if f(rows[n - 1]) then [rows[n - 1]] else []
  {
    assert rows[..n] == rows[..n - 1] + [rows[n - 1]];
    FilterOfConcat(rows[..n - 1], [rows[n - 1]], f);
  }

  lemma RowsWithoutLast<T>(rows: seq<T>, indices: seq<nat>, last: nat)
    requires Ascending(indices + [last], |rows|)
    ensures last < |rows| && Ascending(indices, |rows| - 1)
    ensures RowsWithout(rows, indices + [last]) == RowsWithout(TakeOut(rows, last), indices)
  {
    assert (indices + [last])[|indices|] == last && (indices + [last])[..|indices|] == indices;
    assert forall i | 0 <= i < |indices| :: indices[i] == (indices + [last])[i];
  }

  lemma TakeOutParts<T>(rows: seq<T>, k: nat)
    requires k < |rows|
    ensures TakeOut(rows, k)[..k] == rows[..k] && TakeOut(rows, k)[k..] == rows[k + 1..]
    ensures forall i: nat | i < k :: TakeOut(rows, k)[i] == rows[i]
  {
  }

  /** Taking out the lines that fail `f`, the last one first, leaves those that satisfy it. */
  lemma {:induction false} TakingOutIsFiltering<T(!new)>(rows: seq<T>, n: nat, drop: nat -> bool, f: T -> bool)
    requires n <= |rows| && forall i: nat | i < n :: drop(i) == !f(rows[i])
    ensures Ascending(Kept(n, drop), n)
    ensures RowsWithout(rows, Kept(n, drop)) == Filter(rows[..n], f) + rows[n..]
    decreases n
  {
    KeptAscends(n, drop);
    if n > 0 {
      KeptExtends(n - 1, drop);
      KeptAscends(n - 1, drop);
      FilterOneMore(rows, n, f);
      if drop(n - 1) {
        hide Filter, Kept, Ascending, RowsWithout, TakeOut;
        RowsWithoutLast(rows, Kept(n - 1, drop), n - 1);
        TakeOutParts(rows, n - 1);
        TakingOutIsFiltering(TakeOut(rows, n - 1), n - 1, drop, f);
        assert Filter(rows[..n], f) == Filter(rows[..n - 1], f);
      } else {
        hide Filter, Kept, Ascending, RowsWithout, TakeOut;
        TakingOutIsFiltering(rows, n - 1, drop, f);
        assert Kept(n, drop) == Kept(n - 1, drop);
        Regroup(Filter(rows[..n - 1], f), rows, n - 1);
      }
    }
  }

  lemma Regroup<T>(front: seq<T>, rows: seq<T>, k: nat)
    requires k < |rows|
    ensures front + rows[k..] == front + [rows[k]] + rows[k + 1..]
  {
  }

  lemma AutoRowsFiltered(s: State, parse: Parser)
    ensures var rows, auto := Rows(s, parse), AutoIndices(s, parse);
            Ascending(auto, |rows|) && RowsWithout(rows, auto) == Filter(rows, RowNotAuto)
  {
    var rows := Rows(s, parse);
    TakingOutIsFiltering(rows, |rows|, IsAuto(s.info), RowNotAuto);
    assert rows[..|rows|] == rows && rows[|rows|..] == [];
    hide Kept, GetKeys, Ascending, RowsWithout, Filter;
  }

  // ----- lists that can be stored at every step -----

  /** Every list on the way can be stored. */
  ghost predicate StepsStorable(keys: seq<string>, indices: seq<nat>, parse: Parser)
    requires Ascending(indices, |keys|)
    decreases |indices|
  {
    indices != [] ==>
      var fewer := TakeOut(keys, indices[|indices| - 1]);
      Storable(fewer, parse) && StepsStorable(fewer, indices[..|indices| - 1], parse)
  }

  lemma DeleteEachLast(s: State, indices: seq<nat>, last: nat, parse: Parser)
    ensures DeleteEach(s, indices + [last], parse) == DeleteEach(DeleteKeySpec(s, last, parse).0, indices, parse)
  {
    assert (indices + [last])[|indices|] == last && (indices + [last])[..|indices|] == indices;
    hide DeleteKeySpec;
  }

  /** What deleting at several indices does last-index first, in one step. */
  lemma LastStep<T>(s: State, rows: seq<T>, indices: seq<nat>, parse: Parser)
    requires indices != [] && Ascending(indices, |rows|)
    ensures var last, front := indices[|indices| - 1], indices[..|indices| - 1];
            && indices[0] <= last < |rows| && Ascending(front, |rows| - 1)
            && (front != [] ==> front[0] == indices[0])
            && DeleteEach(s, indices, parse) == DeleteEach(DeleteKeySpec(s, last, parse).0, front, parse)
            && RowsWithout(rows, indices) == RowsWithout(TakeOut(rows, last), front)
  {
    var last, front := indices[|indices| - 1], indices[..|indices| - 1];
    assert indices == front + [last];
    DeleteEachLast(s, front, last, parse);
    RowsWithoutLast(rows, front, last);
    hide DeleteKeySpec, DeleteEach, RowsWithout, TakeOut;
  }

  lemma KeysWithout(s: State, last: nat, t: State, parse: Parser)
    requires last < |Rows(s, parse)| && Rows(t, parse) == TakeOut(Rows(s, parse), last)
    ensures GetKeys(t.key, parse) == TakeOut(GetKeys(s.key, parse), last)
  {
    var keys := GetKeys(s.key, parse);
    KeysOfRows(keys, s.info);
    KeysOfRows(GetKeys(t.key, parse), t.info);
    hide GetKeys;
    assert KeysOf(TakeOut(Rows(s, parse), last)) == TakeOut(keys, last);
  }

  lemma DeletingStored(s: State, last: nat, parse: Parser)
    requires Consistent(s, parse) && last < |Rows(s, parse)| && |Rows(s, parse)| > 1
    requires Storable(TakeOut(GetKeys(s.key, parse), last), parse)
    ensures var next := DeleteKeySpec(s, last, parse).0;
            && Consistent(next, parse) && GetKeys(next.key, parse) == TakeOut(GetKeys(s.key, parse), last)
            && Rows(next, parse) == TakeOut(Rows(s, parse), last)
  {
    assert s.info.size == |Rows(s, parse)|;
    hide GetKeys, Rows, TakeOut, Storable, DeleteKeySpec, Consistent;
    DeleteKeyTakesOneOut(s, last, parse);
    DeletionConsistent(s, last, parse);
    KeysWithout(s, last, DeleteKeySpec(s, last, parse).0, parse);
  }

  /** A deletion that leaves a list of more than no keys leaves a consistent channel. */
  lemma DeletionConsistent(s: State, index: nat, parse: Parser)
    requires Consistent(s, parse) && index < s.info.size && s.info.size > 1
    requires Storable(TakeOut(GetKeys(s.key, parse), index), parse)
    ensures Consistent(DeleteKeySpec(s, index, parse).0, parse)
  {
    var keys := GetKeys(s.key, parse);
    var kept := Kept(|keys|, IsNot(index));
    KeptButOne(|keys|, index);
    PickButOne(keys, index);
    DeletionKeeps(s, IsNot(index), parse);
    hide GetKeys, Kept, Saved, Deletion, TakeOut, Keeps, Storable;
    KeepStored(s, kept, Deletion(keys, s.info, kept), parse);
  }

  lemma {:induction false} DeletingEachTakesOut(s: State, indices: seq<nat>, parse: Parser)
    requires Consistent(s, parse) && Ascending(indices, |Rows(s, parse)|) && |indices| < |Rows(s, parse)|
    requires StepsStorable(GetKeys(s.key, parse), indices, parse)
    ensures Rows(DeleteEach(s, indices, parse), parse) == RowsWithout(Rows(s, parse), indices)
    decreases |indices|
  {
    if indices != [] {
      var last, front := indices[|indices| - 1], indices[..|indices| - 1];
      LastStep(s, Rows(s, parse), indices, parse);
      assert StepsStorable(TakeOut(GetKeys(s.key, parse), last), front, parse);
      hide DeleteKeySpec, GetKeys, Consistent, DeleteEach, RowsWithout, Ascending, TakeOut, StepsStorable, Storable,
           Rows;
      DeletingStored(s, last, parse);
      DeletingEachTakesOut(DeleteKeySpec(s, last, parse).0, front, parse);
    }
  }

  lemma NotAllDropped(s: State, parse: Parser)
    requires AnyLeft(Rows(s, parse))
    ensures |AutoIndices(s, parse)| < |Rows(s, parse)|
  {
    var rows := Rows(s, parse);
    FilterLength(Upto(|rows|), IsAuto(s.info));
    var row :| row in rows && RowNotAuto(row);
    var i :| 0 <= i < |rows| && rows[i] == row;
    assert i in Upto(|rows|) && !IsAuto(s.info)(i);
  }

  /** Whatever the keys are: when a key is left and every list on the way can be stored, deleting one by one leaves
      exactly the other lines. */
  lemma EachStepStorable(s: State, parse: Parser)
    requires Consistent(s, parse) && AnyLeft(Rows(s, parse))
    requires Ascending(AutoIndices(s, parse), |GetKeys(s.key, parse)|)
    requires StepsStorable(GetKeys(s.key, parse), AutoIndices(s, parse), parse)
    ensures Rows(DeleteEach(s, AutoIndices(s, parse), parse), parse) == Filter(Rows(s, parse), RowNotAuto)
  {
    AutoRowsFiltered(s, parse);
    NotAllDropped(s, parse);
    hide AutoIndices, AnyLeft, Filter, Ascending, StepsStorable, Consistent;
    DeletingEachTakesOut(s, AutoIndices(s, parse), parse);
  }

  // ----- lists of lines, which may hold blank ones -----

  function DropTail(rows: seq<KeyRow>): (r: seq<KeyRow>)
    ensures |r| <= |rows| && r == rows[..|r|]
    ensures r != [] ==> Visible(r[|r| - 1])
    ensures rows != [] && Visible(rows[0]) ==> r != []
  {
    if rows != [] && !Visible(rows[|rows| - 1]) then DropTail(rows[..|rows| - 1]) else rows
  }

  lemma TakeOutFront<T>(rows: seq<T>, d: nat)
    requires d < |rows| - 1
    ensures TakeOut(rows, d) == TakeOut(rows[..|rows| - 1], d) + [rows[|rows| - 1]]
  {
  }

  lemma DropTailOfMore(rows: seq<KeyRow>, blank: KeyRow)
    requires !Visible(blank)
    ensures DropTail(rows + [blank]) == DropTail(rows)
  {
    assert (rows + [blank])[..|rows|] == rows;
  }

  /** Taking a line out before or after the blank tail goes ... */
  lemma {:induction false} TakeOutBeforeTail(rows: seq<KeyRow>, d: nat)
    requires d < |DropTail(rows)|
    ensures DropTail(TakeOut(rows, d)) == DropTail(TakeOut(DropTail(rows), d))
  {
    if !Visible(rows[|rows| - 1]) {
      var front := rows[..|rows| - 1];
      TakeOutBeforeTail(front, d);
      TakeOutFront(rows, d);
      DropTailOfMore(TakeOut(front, d), rows[|rows| - 1]);
    }
  }

  /** ... and taking one out of the blank tail. */
  lemma {:induction false} TakeOutOfTail(rows: seq<KeyRow>, d: nat)
    requires |DropTail(rows)| <= d < |rows|
    ensures DropTail(TakeOut(rows, d)) == DropTail(rows)
  {
    var front := rows[..|rows| - 1];
    if d < |rows| - 1 {
      TakeOutOfTail(front, d);
      TakeOutFront(rows, d);
      DropTailOfMore(TakeOut(front, d), rows[|rows| - 1]);
    } else {
      assert TakeOut(rows, d) == front;
    }
  }

  lemma {:induction false} StoredDropsTail(rows: seq<KeyRow>)
    ensures StoredRows(DropTail(rows)) == StoredRows(rows)
  {
    if rows != [] && !Visible(rows[|rows| - 1]) {
      var front := rows[..|rows| - 1];
      StoredDropsTail(front);
      TrimBlanksAtEnd(KeysOf(rows));
      assert KeysOf(rows)[..|rows| - 1] == KeysOf(front);
    }
  }

  lemma StoredBehindVisible(rows: seq<KeyRow>)
    requires rows != [] && Visible(rows[0])
    ensures StoredRows(rows) == DropTail(rows)
  {
    var short := DropTail(rows);
    StoredDropsTail(rows);
    assert KeysOf(short)[0] != "" && KeysOf(short)[|short| - 1] != "";
    assert TrimBlanks(KeysOf(short)) == KeysOf(short);
    assert forall j | 0 <= j < |short| :: short[j].(key := KeysOf(short)[j]) == short[j];
  }

  /** The channel shows these lines but for the blank ones at the end; the first one is visible. */
  ghost predicate ShowsFront(s: State, rows: seq<KeyRow>, parse: Parser) {
    && Consistent(s, parse) && PlainLines(GetKeys(s.key, parse))
    && rows != [] && Visible(rows[0]) && Rows(s, parse) == DropTail(rows)
  }

  lemma OutOfRangeKeeps(s: State, d: nat, parse: Parser)
    requires Consistent(s, parse) && d >= |Rows(s, parse)|
    ensures DeleteKeySpec(s, d, parse) == (s, OutOfRange)
  {
  }

  /** Deleting a line other than the first. */
  lemma DeleteBehindFirst(s: State, rows: seq<KeyRow>, d: nat, parse: Parser)
    requires ShowsFront(s, rows, parse) && 0 < d < |rows|
    ensures ShowsFront(DeleteKeySpec(s, d, parse).0, TakeOut(rows, d), parse)
  {
    var short := DropTail(rows);
    if d < |short| {
      var fewer := TakeOut(short, d);
      assert fewer[0] == rows[0] && fewer[0] in fewer;
      assert d < s.info.size;
      DeleteLine(s, d, parse);
      StoredBehindVisible(fewer);
      TakeOutBeforeTail(rows, d);
      hide DeleteKeySpec, StoredRows, GetKeys, Consistent, PlainLines;
    } else {
      OutOfRangeKeeps(s, d, parse);
      TakeOutOfTail(rows, d);
      hide DeleteKeySpec, StoredRows, GetKeys, Consistent, PlainLines;
    }
  }

  lemma NoStep<T>(s: State, rows: seq<T>, indices: seq<nat>, parse: Parser)
    requires indices == [] && Ascending(indices, |rows|)
    ensures DeleteEach(s, indices, parse) == s && RowsWithout(rows, indices) == rows
  {
  }

  lemma {:induction false} DeleteEachBehindFirst(s: State, rows: seq<KeyRow>, indices: seq<nat>, parse: Parser)
    requires ShowsFront(s, rows, parse) && Ascending(indices, |rows|) && (indices != [] ==> indices[0] > 0)
    ensures ShowsFront(DeleteEach(s, indices, parse), RowsWithout(rows, indices), parse)
    decreases |indices|
  {
    hide *;
    if indices == [] {
      NoStep(s, rows, indices, parse);
    } else {
      var last, front := indices[|indices| - 1], indices[..|indices| - 1];
      LastStep(s, rows, indices, parse);
      DeleteBehindFirst(s, rows, last, parse);
      DeleteEachBehindFirst(DeleteKeySpec(s, last, parse).0, TakeOut(rows, last), front, parse);
    }
  }

  /** The first index is deleted last. */
  lemma {:induction false} DeleteEachFirst(s: State, rest: seq<nat>, parse: Parser)
    ensures DeleteEach(s, [0] + rest, parse) == DeleteKeySpec(DeleteEach(s, rest, parse), 0, parse).0
    decreases |rest|
  {
    if rest == [] {
      assert [0] + rest == [] + [0];
      DeleteEachLast(s, [], 0, parse);
    } else {
      var last, front := rest[|rest| - 1], rest[..|rest| - 1];
      assert rest == front + [last] && [0] + rest == ([0] + front) + [last];
      DeleteEachLast(s, [0] + front, last, parse);
      DeleteEachLast(s, front, last, parse);
      hide DeleteKeySpec, DeleteEach;
      DeleteEachFirst(DeleteKeySpec(s, last, parse).0, front, parse);
    }
  }

  lemma FirstAndLast(front: seq<nat>, last: nat, n: int)
    requires Ascending([0] + (front + [last]), n)
    ensures [0] + (front + [last]) == ([0] + front) + [last]
    ensures Ascending(front + [last], n) && last < n
  {
    var all := [0] + (front + [last]);
    assert forall i | 0 <= i < |front + [last]| :: (front + [last])[i] == all[i + 1];
    assert all[|all| - 1] == last;
  }

  lemma {:induction false} RowsWithoutFirst<T>(rows: seq<T>, rest: seq<nat>)
    requires Ascending([0] + rest, |rows|)
    ensures Ascending(rest, |rows|) && RowsWithout(rows, rest) != []
    ensures RowsWithout(rows, [0] + rest) == TakeOut(RowsWithout(rows, rest), 0)
    decreases |rest|
  {
    if rest == [] {
      assert [0] + rest == [] + [0];
      RowsWithoutLast(rows, [], 0);
    } else {
      var last, front := rest[|rest| - 1], rest[..|rest| - 1];
      assert rest == front + [last];
      hide RowsWithout, Ascending, TakeOut;
      FirstAndLast(front, last, |rows|);
      RowsWithoutLast(rows, [0] + front, last);
      RowsWithoutLast(rows, front, last);
      RowsWithoutFirst(TakeOut(rows, last), front);
    }
  }

  // ----- at once and one by one -----

  /** A list of lines as it is stored: it begins and ends with a key that is not blank. */
  ghost predicate StoredLines(s: State, parse: Parser) {
    var keys := GetKeys(s.key, parse);
    && Consistent(s, parse) && PlainLines(keys)
    && (keys != [] ==> keys[0] != "" && keys[|keys| - 1] != "")
  }

  ghost predicate VisibleLeft(rows: seq<KeyRow>) {
    exists row | row in rows :: RowNotAuto(row) && Visible(row)
  }

  lemma VisibleLeftIsVisible(rows: seq<KeyRow>)
    ensures VisibleLeft(rows) <==> AnyVisible(Filter(rows, RowNotAuto))
  {
    if row :| row in rows && RowNotAuto(row) && Visible(row) {
      assert row in Filter(rows, RowNotAuto);
    }
    if row :| row in Filter(rows, RowNotAuto) && Visible(row) {
      assert row in rows && RowNotAuto(row);
    }
  }

  lemma StoredShowsFront(s: State, parse: Parser)
    requires StoredLines(s, parse) && Rows(s, parse) != []
    ensures ShowsFront(s, Rows(s, parse), parse)
  {
    var rows := Rows(s, parse);
    assert rows[|rows| - 1].key == GetKeys(s.key, parse)[|rows| - 1];
    hide GetKeys;
  }

  /** All deletions but that of the first index. */
  lemma EachBehindFirst(s: State, rest: seq<nat>, parse: Parser)
    requires StoredLines(s, parse) && Rows(s, parse) != []
    requires Ascending(rest, |Rows(s, parse)|) && (rest != [] ==> rest[0] > 0)
    ensures ShowsFront(DeleteEach(s, rest, parse), RowsWithout(Rows(s, parse), rest), parse)
    ensures RowsWithout(Rows(s, parse), rest)[0] == Rows(s, parse)[0]
  {
    StoredShowsFront(s, parse);
    FirstStays(Rows(s, parse), rest);
    hide *;
    DeleteEachBehindFirst(s, Rows(s, parse), rest, parse);
  }

  lemma {:induction false} FirstStays<T>(rows: seq<T>, indices: seq<nat>)
    requires rows != [] && Ascending(indices, |rows|) && (indices != [] ==> indices[0] > 0)
    ensures RowsWithout(rows, indices) != [] && RowsWithout(rows, indices)[0] == rows[0]
    decreases |indices|
  {
    if indices != [] {
      FirstStays(TakeOut(rows, indices[|indices| - 1]), indices[..|indices| - 1]);
    }
  }

  /** Deleting the first line of what is shown. */
  lemma DeleteFirstLine(s: State, rows: seq<KeyRow>, parse: Parser)
    requires ShowsFront(s, rows, parse)
    ensures var t := DeleteKeySpec(s, 0, parse).0;
            if AnyVisible(TakeOut(rows, 0)) then Rows(t, parse) == StoredRows(TakeOut(rows, 0))
            else Rows(t, parse) == [rows[0]]
  {
    var short := DropTail(rows);
    if AnyVisible(TakeOut(rows, 0)) {
      TailIsLong(rows);
      TakeOutBeforeTail(rows, 0);
      StoredDropsTail(TakeOut(short, 0));
      StoredDropsTail(TakeOut(rows, 0));
      var last := short[|short| - 1];
      assert TakeOut(short, 0)[|short| - 2] == last && last in TakeOut(short, 0);
      assert s.info.size > 1;
      DeleteLine(s, 0, parse);
      hide DeleteKeySpec, StoredRows, GetKeys, Consistent, PlainLines, DropTail;
    } else {
      TailIsShort(rows);
      DeleteKeyTakesOneOut(s, 0, parse);
      hide DeleteKeySpec, StoredRows, GetKeys, PlainLines;
    }
  }

  lemma TailIsLong(rows: seq<KeyRow>)
    requires rows != [] && AnyVisible(TakeOut(rows, 0))
    ensures |DropTail(rows)| > 1
    decreases |rows|
  {
    var row :| row in TakeOut(rows, 0) && Visible(row);
    var i :| 0 <= i < |TakeOut(rows, 0)| && TakeOut(rows, 0)[i] == row;
    assert rows[i + 1] == row;
    TailKeepsVisible(rows, i + 1);
  }

  lemma {:induction false} TailKeepsVisible(rows: seq<KeyRow>, i: nat)
    requires i < |rows| && Visible(rows[i])
    ensures i < |DropTail(rows)|
  {
    if !Visible(rows[|rows| - 1]) {
      TailKeepsVisible(rows[..|rows| - 1], i);
    }
  }

  lemma LongTailIsVisible(rows: seq<KeyRow>)
    requires |DropTail(rows)| > 1
    ensures AnyVisible(TakeOut(rows, 0))
  {
    var short := DropTail(rows);
    var last := short[|short| - 1];
    assert TakeOut(rows, 0)[|short| - 2] == last && last in TakeOut(rows, 0);
  }

  lemma TailIsShort(rows: seq<KeyRow>)
    requires rows != [] && Visible(rows[0]) && !AnyVisible(TakeOut(rows, 0))
    ensures DropTail(rows) == [rows[0]]
  {
    hide AnyVisible;
    if |DropTail(rows)| > 1 {
      LongTailIsVisible(rows);
    }
  }

  /** What deleting one by one leaves. */
  lemma EachLeaves(s: State, parse: Parser)
    requires StoredLines(s, parse) && !NoneDisabled(Rows(s, parse))
    ensures var rows := Rows(s, parse);
            var shown := Rows(DeleteEach(s, AutoIndices(s, parse), parse), parse);
            if VisibleLeft(rows) then shown == StoredRows(Filter(rows, RowNotAuto))
            else shown == [rows[0]] && !RowNotAuto(rows[0])
  {
    var rows, auto := Rows(s, parse), AutoIndices(s, parse);
    AutoRowsFiltered(s, parse);
    VisibleLeftIsVisible(rows);
    if auto != [] && auto[0] == 0 {
      assert 0 in auto;
      assert !RowNotAuto(rows[0]);
      var rest := auto[1..];
      assert auto == [0] + rest;
      DeleteEachFirst(s, rest, parse);
      RowsWithoutFirst(rows, rest);
      assert rest != [] ==> rest[0] == auto[1];
      hide AutoIndices, GetKeys, DeleteEach, RowsWithout, Filter, DeleteKeySpec, ShowsFront, StoredRows, TakeOut;
      EachBehindFirst(s, rest, parse);
      DeleteFirstLine(DeleteEach(s, rest, parse), RowsWithout(rows, rest), parse);
    } else {
      FirstIsLeft(s, parse);
      hide AutoIndices, GetKeys, DeleteEach, RowsWithout, Filter, StoredRows;
      EachBehindFirst(s, auto, parse);
      StoredBehindVisible(RowsWithout(rows, auto));
    }
  }

  lemma FirstIsLeft(s: State, parse: Parser)
    requires StoredLines(s, parse) && !NoneDisabled(Rows(s, parse))
    requires AutoIndices(s, parse) == [] || AutoIndices(s, parse)[0] != 0
    ensures Rows(s, parse) != [] && VisibleLeft(Rows(s, parse))
  {
    var rows, auto := Rows(s, parse), AutoIndices(s, parse);
    KeptAscends(|rows|, IsAuto(s.info));
    assert 0 !in auto;
    assert rows[0] in rows && Visible(rows[0]) && RowNotAuto(rows[0]);
  }

  /** No line is automatically disabled after the disabled ones were deleted at once. */
  lemma NoAutoAfterCleanup(s: State, parse: Parser)
    requires DeleteDisabledSpec(s, parse).1 == Done
    ensures NoneDisabled(Rows(DeleteDisabledSpec(s, parse).0, parse))
  {
    hide GetKeys, CountedKeys, Join;
    var t := DeleteDisabledSpec(s, parse).0;
    forall row | row in Rows(t, parse) ensures RowNotAuto(row) {
      var j :| 0 <= j < |Rows(t, parse)| && Rows(t, parse)[j] == row;
    }
  }

  /** For a stored list of lines, deleting the automatically disabled keys at once shows what deleting them one by one
      shows, if and only if there is none or a key that is not blank is left. */
  lemma DeleteDisabledIsDeletingEach(s: State, parse: Parser)
    requires StoredLines(s, parse)
    ensures Rows(DeleteDisabledSpec(s, parse).0, parse) == Rows(DeleteEach(s, AutoIndices(s, parse), parse), parse)
       <==> NoneDisabled(Rows(s, parse)) || VisibleLeft(Rows(s, parse))
  {
    var rows := Rows(s, parse);
    LeftMeansKept(s, parse);
    if NoneDisabled(rows) {
      NothingToDo(s, parse);
    } else {
      EachLeaves(s, parse);
      VisibleLeftIsVisible(rows);
      assert DeleteDisabledSpec(s, parse).1 == Done;
      if VisibleLeft(rows) {
        DeleteDisabledLines(s, parse);
      } else {
        NoAutoAfterCleanup(s, parse);
        hide DeleteDisabledSpec, DeleteEach, GetKeys, AutoIndices, Filter, StoredRows, StoredLines;
        assert rows[0] in [rows[0]];
      }
    }
  }

  lemma NothingToDo(s: State, parse: Parser)
    requires NoneDisabled(Rows(s, parse))
    ensures DeleteDisabledSpec(s, parse).0 == s && AutoIndices(s, parse) == []
  {
    var rows := Rows(s, parse);
    LeftMeansKept(s, parse);
    forall i | i in Upto(|rows|) ensures !IsAuto(s.info)(i) {
      assert rows[i] in rows;
    }
    FilterNone(Upto(|rows|), IsAuto(s.info));
  }
}
