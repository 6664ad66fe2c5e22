/** The string operations the program stores its lists with: trimming, splitting and joining. */
module Text {

  /** The characters of Unicode's White_Space property, which `strings.TrimSpace` removes. */
  predicate IsSpace(c: char) {
    var n := c as int;
    || 0x9 <= n <= 0xD || n == 0x20 || n == 0x85 || n == 0xA0 || n == 0x1680
    || 0x2000 <= n <= 0x200A || n == 0x2028 || n == 0x2029 || n == 0x202F || n == 0x205F || n == 0x3000
  }

  /** Neither end is a character to cut. */
  ghost predicate Trimmed(s: string, cut: char -> bool) {
    s == "" || (!cut(s[0]) && !cut(s[|s| - 1]))
  }

  /** Cuts characters off the front and then off the back. */
  function Trim(s: string, cut: char -> bool): (r: string)
    ensures Trimmed(r, cut)
    ensures Trimmed(s, cut) ==> r == s
    decreases |s|
  {
    if s == "" then s
    else if cut(s[0]) then Trim(s[1..], cut)
    else if cut(s[|s| - 1]) then Trim(s[..|s| - 1], cut)
    else s
  }

  /** One by one. */
  lemma SpacesAre(c: char)
    ensures IsSpace(c) <==>
              c as int in {9, 10, 11, 12, 13, 32, 133, 160, 5760, 8192, 8193, 8194, 8195, 8196, 8197, 8198, 8199, 8200,
                           8201, 8202, 8232, 8233, 8239, 8287, 12288}
  {
  }

  /** `s` is `a`, what is left and `b`, where the ends consist of characters to cut. */
  ghost predicate CutTo(s: string, r: string, a: string, b: string, cut: char -> bool) {
    s == a + r + b && (forall c | c in a :: cut(c)) && forall c | c in b :: cut(c)
  }

  lemma CutMore(s: string, r: string, a: string, b: string, c: char, cut: char -> bool)
    requires CutTo(s, r, a, b, cut) && cut(c)
    ensures CutTo([c] + s, r, [c] + a, b, cut) && CutTo(s + [c], r, a, b + [c], cut)
  {
    assert [c] + s == ([c] + a) + r + b;
    assert s + [c] == a + r + (b + [c]);
  }

  /** What is cut off are characters to cut, at the two ends. */
  lemma {:induction false} TrimMeans(s: string, cut: char -> bool)
    ensures exists a, b :: CutTo(s, Trim(s, cut), a, b, cut)
    decreases |s|
  {
    var r := Trim(s, cut);
    if s != "" && cut(s[0]) {
      TrimMeans(s[1..], cut);
      var a, b :| CutTo(s[1..], r, a, b, cut);
      assert s == [s[0]] + s[1..];
      CutMore(s[1..], r, a, b, s[0], cut);
    } else if s != "" && cut(s[|s| - 1]) {
      TrimMeans(s[..|s| - 1], cut);
      var a, b :| CutTo(s[..|s| - 1], r, a, b, cut);
      assert s == s[..|s| - 1] + [s[|s| - 1]];
      CutMore(s[..|s| - 1], r, a, b, s[|s| - 1], cut);
    } else {
      assert CutTo(s, r, "", "", cut);
    }
  }

  lemma {:induction false} TrimIsPart(s: string, cut: char -> bool, c: char)
    requires c in Trim(s, cut)
    ensures c in s
    decreases |s|
  {
    if s != "" && cut(s[0]) {
      TrimIsPart(s[1..], cut, c);
    } else if s != "" && cut(s[|s| - 1]) {
      TrimIsPart(s[..|s| - 1], cut, c);
    }
  }

  lemma {:induction false} TrimKeepsHead(s: string, cut: char -> bool)
    requires s != "" && !cut(s[0])
    ensures Trim(s, cut) != "" && Trim(s, cut)[0] == s[0]
    decreases |s|
  {
    if |s| > 1 && cut(s[|s| - 1]) {
      TrimKeepsHead(s[..|s| - 1], cut);
    }
  }

  /** What remains of a text begins like what remains of a longer one. */
  lemma {:induction false} TrimHead(a: string, b: string, cut: char -> bool)
    requires Trim(a, cut) != ""
    ensures Trim(a + b, cut) != "" && Trim(a + b, cut)[0] == Trim(a, cut)[0]
    decreases |a|
  {
    assert (a + b)[0] == a[0] && (a + b)[1..] == a[1..] + b;
    if cut(a[0]) {
      TrimHead(a[1..], b, cut);
    } else {
      TrimKeepsHead(a, cut);
      TrimKeepsHead(a + b, cut);
    }
  }

  function TrimSpace(s: string): (r: string)
    ensures TrimmedSpace(r)
    ensures TrimmedSpace(s) ==> r == s
  {
    Trim(s, IsSpace)
  }

  ghost predicate TrimmedSpace(s: string) {
    Trimmed(s, IsSpace)
  }

  /** `strings.Trim` with a single character as its cut set. */
  function TrimChar(s: string, sep: char): (r: string)
    ensures s == "" || (s[0] != sep && s[|s| - 1] != sep) ==> r == s
  {
    Trim(s, c => c == sep)
  }

  function Split(s: string, sep: char): (r: seq<string>)
    ensures r != []
    ensures forall part | part in r :: sep !in part
  {
    if s == "" then [""]
    else
      var rest := Split(s[1..], sep);
      if s[0] == sep then [""] + rest else [[s[0]] + rest[0]] + rest[1..]
  }

  function Join(parts: seq<string>, sep: char): string {
    if parts == [] then ""
    else if |parts| == 1 then parts[0]
    else parts[0] + [sep] + Join(parts[1..], sep)
  }

  lemma {:induction false} SplitNoSeparator(s: string, sep: char)
    requires sep !in s
    ensures Split(s, sep) == [s]
  {
    if s != "" {
      SplitNoSeparator(s[1..], sep);
      assert [s[0]] + s[1..] == s;
    }
  }

  lemma {:induction false} SplitAtSeparator(s: string, rest: string, sep: char)
    requires sep !in s
    ensures Split(s + [sep] + rest, sep) == [s] + Split(rest, sep)
  {
    var whole := s + [sep] + rest;
    if s == "" {
      assert whole[1..] == rest;
    } else {
      SplitAtSeparator(s[1..], rest, sep);
      assert whole[1..] == s[1..] + [sep] + rest;
      assert [s[0]] + s[1..] == s;
    }
  }

  /** Splitting undoes joining when no part contains the separator. */
  lemma {:induction false} SplitOfJoin(parts: seq<string>, sep: char)
    requires parts != [] && forall part | part in parts :: sep !in part
    ensures Split(Join(parts, sep), sep) == parts
  {
    if |parts| == 1 {
      SplitNoSeparator(parts[0], sep);
    } else {
      SplitOfJoin(parts[1..], sep);
      SplitAtSeparator(parts[0], Join(parts[1..], sep), sep);
    }
  }

  /** Joining undoes splitting. */
  lemma {:induction false} JoinOfSplit(s: string, sep: char)
    ensures Join(Split(s, sep), sep) == s
  {
    if s != "" {
      var rest := Split(s[1..], sep);
      JoinOfSplit(s[1..], sep);
      if s[0] != sep && |rest| > 1 {
        assert ([[s[0]] + rest[0]] + rest[1..])[1..] == rest[1..];
      }
    }
  }

  /** A joined list of non-empty parts neither begins nor ends with the separator. */
  lemma {:induction false} JoinEnds(parts: seq<string>, sep: char)
    requires parts != [] && parts[0] != "" && parts[|parts| - 1] != ""
    requires sep !in parts[0] && sep !in parts[|parts| - 1]
    ensures var s := Join(parts, sep); s != "" && s[0] != sep && s[|s| - 1] != sep
  {
    var s := Join(parts, sep);
    if |parts| == 1 {
    } else {
      JoinLast(parts, sep);
    }
  }

  lemma {:induction false} JoinLast(parts: seq<string>, sep: char)
    requires parts != [] && parts[|parts| - 1] != ""
    ensures var s := Join(parts, sep);
            s != "" && s[|s| - 1] == parts[|parts| - 1][|parts[|parts| - 1]| - 1]
  {
    if |parts| > 1 {
      JoinLast(parts[1..], sep);
    }
  }
}
