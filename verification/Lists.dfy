/** Order-preserving list operations. */
module Lists {

  ghost predicate NoDuplicates<T(!new)>(s: seq<T>) {
    forall i, j | 0 <= i < j < |s| :: s[i] != s[j]
  }

  /** The elements that satisfy `f`, in order. */
  function Filter<T(!new)>(s: seq<T>, f: T -> bool): (r: seq<T>)
    ensures forall x {:trigger x in r} :: x in r <==> x in s && f(x)
  {
    if s == [] then []
    else
      assert s == [s[0]] + s[1..];
      if f(s[0]) then [s[0]] + Filter(s[1..], f) else Filter(s[1..], f)
  }

  lemma {:induction false} FilterOfConcat<T(!new)>(a: seq<T>, b: seq<T>, f: T -> bool)
    ensures Filter(a + b, f) == Filter(a, f) + Filter(b, f)
  {
    if a == [] {
      assert a + b == b;
    } else {
      FilterOfConcat(a[1..], b, f);
      assert (a + b)[1..] == a[1..] + b;
    }
  }

  lemma {:induction false} FilterAgrees<T(!new)>(s: seq<T>, f: T -> bool, g: T -> bool)
    requires forall x | x in s :: f(x) == g(x)
    ensures Filter(s, f) == Filter(s, g)
  {
    if s != [] {
      FilterAgrees(s[1..], f, g);
    }
  }

  /** Filtering twice, when `h` says what the two filters say together. */
  lemma {:induction false} FilterTwice<T(!new)>(s: seq<T>, f: T -> bool, g: T -> bool, h: T -> bool)
    requires forall x | x in s :: h(x) == (f(x) && g(x))
    ensures Filter(Filter(s, f), g) == Filter(s, h)
  {
    if s != [] {
      FilterTwice(s[1..], f, g, h);
      var rest := Filter(s[1..], f);
      assert ([s[0]] + rest)[1..] == rest;
    }
  }

  lemma FilterCommutes<T(!new)>(s: seq<T>, f: T -> bool, g: T -> bool)
    ensures Filter(Filter(s, f), g) == Filter(Filter(s, g), f)
  {
    FilterTwice(s, f, g, x => f(x) && g(x));
    FilterTwice(s, g, f, x => f(x) && g(x));
  }

  lemma {:induction false} FilterAll<T(!new)>(s: seq<T>, f: T -> bool)
    requires forall x | x in s :: f(x)
    ensures Filter(s, f) == s
  {
    if s != [] {
      FilterAll(s[1..], f);
    }
  }

  lemma {:induction false} FilterNone<T(!new)>(s: seq<T>, f: T -> bool)
    requires forall x | x in s :: !f(x)
    ensures Filter(s, f) == []
  {
    if s != [] {
      FilterNone(s[1..], f);
    }
  }

  lemma {:induction false} FilterNoDuplicates<T(!new)>(s: seq<T>, f: T -> bool)
    requires NoDuplicates(s)
    ensures NoDuplicates(Filter(s, f))
  {
    if s != [] {
      FilterNoDuplicates(s[1..], f);
      assert s[0] !in s[1..];
      assert s[0] !in Filter(s[1..], f);
    }
  }

  /** The first occurrences, in order. */
  function Uniq<T(==,!new)>(s: seq<T>): (r: seq<T>)
    ensures NoDuplicates(r)
    ensures forall x {:trigger x in r} :: x in r <==> x in s
  {
    if s == [] then []
    else
      var front, last := s[..|s| - 1], s[|s| - 1];
      assert s == front + [last];
      if last in front then Uniq(front)
      else
        assert last !in Uniq(front);
        Uniq(front) + [last]
  }

  lemma {:induction false} UniqOfDistinct<T(!new)>(s: seq<T>)
    requires NoDuplicates(s)
    ensures Uniq(s) == s
  {
    if s != [] {
      var front, last := s[..|s| - 1], s[|s| - 1];
      assert s == front + [last];
      assert last !in front;
      UniqOfDistinct(front);
    }
  }

  /** The elements come in the order in which they occur first. */
  lemma {:induction false} UniqInOrder<T(!new)>(s: seq<T>, i: nat, j: nat)
    requires i < j < |Uniq(s)|
    ensures exists p | 0 <= p < |s| :: s[p] == Uniq(s)[i] && Uniq(s)[j] !in s[..p + 1]
  {
    var front, last := s[..|s| - 1], s[|s| - 1];
    if last !in front && j == |Uniq(s)| - 1 {
      assert Uniq(s)[i] in Uniq(front) && Uniq(s)[i] in front;
      var p :| 0 <= p < |front| && front[p] == Uniq(s)[i];
      assert s[p] == Uniq(s)[i] && s[..p + 1] == front[..p + 1];
      assert Uniq(s)[j] == last;
    } else {
      UniqInOrder(front, i, j);
      var p :| 0 <= p < |front| && front[p] == Uniq(front)[i] && Uniq(front)[j] !in front[..p + 1];
      assert s[p] == Uniq(s)[i] && s[..p + 1] == front[..p + 1];
    }
  }

  // ----- sorting -----

  ghost predicate StrictlyAscending(s: seq<int>) {
    forall i, j | 0 <= i < j < |s| :: s[i] < s[j]
  }

  lemma FirstIsLeast(s: seq<int>)
    requires StrictlyAscending(s) && s != []
    ensures forall x | x in s :: x == s[0] || (s[0] < x && x in s[1..])
    ensures forall x | x in s[1..] :: s[0] < x && x in s
  {
    forall x | x in s ensures x == s[0] || (s[0] < x && x in s[1..]) {
      var i :| 0 <= i < |s| && s[i] == x;
      assert i > 0 ==> s[1..][i - 1] == x;
    }
    forall x | x in s[1..] ensures s[0] < x && x in s {
      var i :| 0 <= i < |s[1..]| && s[1..][i] == x;
      assert s[i + 1] == x;
    }
  }

  /** An ascending list is determined by its elements. */
  lemma {:induction false} AscendingIsUnique(a: seq<int>, b: seq<int>)
    requires StrictlyAscending(a) && StrictlyAscending(b) && forall x :: x in a <==> x in b
    ensures a == b
    decreases |a|
  {
    assert b != [] ==> b[0] in b;
    if a != [] {
      assert a[0] in a && a[0] in b;
      FirstIsLeast(a);
      FirstIsLeast(b);
      assert b[0] in b && b[0] in a;
      AscendingIsUnique(a[1..], b[1..]);
      assert a == [a[0]] + a[1..] && b == [b[0]] + b[1..];
    }
  }

  /** The elements of the set, each once and ascending. */
  ghost predicate SortedSet(sorted: seq<int>, elements: set<int>) {
    StrictlyAscending(sorted) && forall q :: q in sorted <==> q in elements
  }

  lemma SomeElement(s: set<int>)
    requires s != {}
    ensures exists x :: x in s
  {
    if forall x :: x !in s {
      assert false;
    }
  }

  method SortedInts(values: set<int>) returns (sorted: seq<int>)
    ensures SortedSet(sorted, values)
  {
    sorted := [];
    var left := values;
    assert SortedSet(sorted, values - left);
    hide SortedSet;
    while left != {}
      invariant left <= values && SortedSet(sorted, values - left)
      decreases |left|
    {
      SomeElement(left);
      var q :| q in left;
      var k := 0;
      while k < |sorted| && sorted[k] < q
        invariant 0 <= k <= |sorted|
        invariant forall j | 0 <= j < k :: sorted[j] < q
      {
        k := k + 1;
      }
      InsertSorted(sorted, k, q, values - left);
      assert values - (left - {q}) == values - left + {q};
      sorted := sorted[..k] + [q] + sorted[k..];
      left := left - {q};
    }
    assert values - left == values;
  }

  lemma InsertSorted(s: seq<int>, k: nat, q: int, elements: set<int>)
    requires k <= |s| && q !in elements && SortedSet(s, elements)
    requires (forall j | 0 <= j < k :: s[j] < q) && (k < |s| ==> q <= s[k])
    ensures SortedSet(s[..k] + [q] + s[k..], elements + {q})
  {
    assert s == s[..k] + s[k..];
    if k < |s| {
      assert s[k] in s;
    }
  }
}
