/** Finding keys again among the lines of a stored key string. */
module KeyLines {
  import opened KeyList
  import opened Names
  import opened Text

  lemma {:induction false} TrimBlankSuffix(front: string, c: char)
    requires IsSpace(c)
    ensures TrimSpace(front + [c]) == TrimSpace(front)
  {
    var s := front + [c];
    if front == "" {
      assert s[1..] == "";
    } else if IsSpace(front[0]) {
      assert s[1..] == front[1..] + [c];
      TrimBlankSuffix(front[1..], c);
    } else {
      assert s[0] == front[0] && s[..|s| - 1] == front;
    }
  }

  /** Newlines at the ends are white space. */
  lemma {:induction false} TrimSpaceOfTrimChar(s: string)
    ensures TrimSpace(TrimChar(s, '\n')) == TrimSpace(s)
    decreases |s|
  {
    if s == "" {
    } else if s[0] == '\n' {
      TrimSpaceOfTrimChar(s[1..]);
    } else if s[|s| - 1] == '\n' {
      var front := s[..|s| - 1];
      assert s == front + ['\n'];
      TrimSpaceOfTrimChar(front);
      TrimBlankSuffix(front, '\n');
    }
  }

  /** A string whose first line is visible looks like an array exactly when that line does. */
  lemma FirstLineDecides(key: string)
    requires TrimSpace(Lines(key)[0]) != ""
    ensures LooksLikeArray(key) <==> LooksLikeArray(Lines(key)[0])
  {
    var trimmed := TrimChar(key, '\n');
    TrimSpaceOfTrimChar(key);
    JoinOfSplit(trimmed, '\n');
    HeadDecides(Lines(key));
  }

  lemma {:induction false} SplitAppend(a: string, b: string, sep: char)
    ensures Split(a + [sep] + b, sep) == Split(a, sep) + Split(b, sep)
  {
    var s := a + [sep] + b;
    if a == "" {
      assert s[1..] == b;
    } else {
      assert s[0] == a[0] && s[1..] == a[1..] + [sep] + b;
      SplitAppend(a[1..], b, sep);
    }
  }

  /** Every line of a joined text is there after splitting. */
  lemma {:induction false} LinesOfPart(keys: seq<string>, k: string)
    requires k in keys
    ensures forall l | l in Split(k, '\n') :: l in Split(Join(keys, '\n'), '\n')
  {
    if |keys| > 1 {
      SplitAppend(keys[0], Join(keys[1..], '\n'), '\n');
      hide Split;
      if k != keys[0] {
        assert keys == [keys[0]] + keys[1..];
        LinesOfPart(keys[1..], k);
      }
    }
  }

  /** Lines that are not blank survive trimming newlines off the ends. */
  lemma {:induction false} VisibleLinesStay(s: string, l: string)
    requires l in Split(s, '\n') && l != ""
    ensures l in Lines(s)
    decreases |s|
  {
    if s == "" {
    } else if s[0] == '\n' {
      assert Split(s, '\n') == [""] + Split(s[1..], '\n');
      hide Split;
      VisibleLinesStay(s[1..], l);
    } else if s[|s| - 1] == '\n' {
      var front := s[..|s| - 1];
      assert s == front + ['\n'] + "";
      SplitAppend(front, "", '\n');
      assert Split("", '\n') == [""];
      hide Split;
      VisibleLinesStay(front, l);
    }
  }

  /** Some line of the text is `x` when trimmed. */
  ghost predicate HasLine(text: string, x: string) {
    exists l | l in Split(text, '\n') :: TrimSpace(l) == x
  }

  /** A trimmed key of one line is one of the trimmed lines of the key. */
  lemma {:induction false} TrimmedLine(k: string)
    requires TrimSpace(k) != "" && '\n' !in TrimSpace(k)
    ensures HasLine(k, TrimSpace(k))
    decreases |k|
  {
    if IsSpace(k[0]) {
      assert TrimSpace(k) == TrimSpace(k[1..]);
      hide HasLine, TrimSpace;
      TrimmedLine(k[1..]);
      LineBehindSpace(k, TrimSpace(k));
    } else if IsSpace(k[|k| - 1]) {
      var front := k[..|k| - 1];
      assert TrimSpace(k) == TrimSpace(front);
      assert k == front + [k[|k| - 1]];
      hide HasLine, TrimSpace;
      TrimmedLine(front);
      LineBeforeSpace(front, k[|k| - 1], TrimSpace(k));
    } else {
      assert TrimSpace(k) == k;
      SplitNoSeparator(k, '\n');
      assert k in [k];
    }
  }

  lemma LineBehindSpace(k: string, x: string)
    requires k != "" && IsSpace(k[0]) && HasLine(k[1..], x)
    ensures HasLine(k, x)
  {
    var rest := Split(k[1..], '\n');
    var l :| l in rest && TrimSpace(l) == x;
    if k[0] == '\n' {
      assert l in [""] + rest;
    } else if l == rest[0] {
      var m := [k[0]] + l;
      assert m[1..] == l && TrimSpace(m) == TrimSpace(l);
      assert m in [m] + rest[1..];
    } else {
      assert rest == [rest[0]] + rest[1..];
      assert l in [[k[0]] + rest[0]] + rest[1..];
    }
  }

  /** The lines with one more character at the end. */
  function Grown(lines: seq<string>, c: char): seq<string>
    requires lines != []
  {
    lines[..|lines| - 1] + [lines[|lines| - 1] + [c]]
  }

  lemma GrownBehind(first: string, rest: seq<string>, c: char)
    requires rest != []
    ensures Grown([first] + rest, c) == [first] + Grown(rest, c)
  {
    assert ([first] + rest)[..|rest|] == [first] + rest[..|rest| - 1];
  }

  lemma GrownOnto(first: char, rest: seq<string>, c: char)
    requires rest != []
    ensures Grown([[first] + rest[0]] + rest[1..], c) == [[first] + Grown(rest, c)[0]] + Grown(rest, c)[1..]
  {
    if |rest| == 1 {
      assert [first] + rest[0] + [c] == [first] + (rest[0] + [c]);
      assert Grown(rest, c) == [rest[0] + [c]];
    } else {
      GrownBehind([first] + rest[0], rest[1..], c);
      GrownBehind(rest[0], rest[1..], c);
      assert rest == [rest[0]] + rest[1..];
    }
  }

  lemma {:induction false} SplitBack(front: string, c: char, sep: char)
    requires c != sep
    ensures Split(front + [c], sep) == Grown(Split(front, sep), c)
  {
    var s := front + [c];
    if front == "" {
      assert s == [c] && "" + [c] == [c];
      SplitNoSeparator(s, sep);
      assert Grown([""], c) == [[c]];
    } else {
      var rest := Split(front[1..], sep);
      assert s[0] == front[0] && s[1..] == front[1..] + [c];
      SplitBack(front[1..], c, sep);
      hide Grown;
      if front[0] == sep {
        GrownBehind("", rest, c);
      } else {
        GrownOnto(front[0], rest, c);
      }
    }
  }

  lemma LineInFront(lines: seq<string>, last: string, l: string)
    requires lines != [] && l in lines && l != lines[|lines| - 1]
    ensures l in lines[..|lines| - 1] + [last]
  {
    assert lines == lines[..|lines| - 1] + [lines[|lines| - 1]];
  }

  lemma LineBeforeSpace(front: string, c: char, x: string)
    requires IsSpace(c) && HasLine(front, x)
    ensures HasLine(front + [c], x)
  {
    var lines := Split(front, '\n');
    var l :| l in lines && TrimSpace(l) == x;
    hide Split, TrimSpace, IsSpace;
    if c == '\n' {
      SplitAppend(front, "", '\n');
      assert front + [c] == front + ['\n'] + "";
      assert l in lines + Split("", '\n');
    } else {
      SplitBack(front, c, '\n');
      if l == lines[|lines| - 1] {
        TrimBlankSuffix(l, c);
        assert l + [c] in lines[..|lines| - 1] + [l + [c]];
      } else {
        LineInFront(lines, lines[|lines| - 1] + [c], l);
      }
    }
  }

  lemma TrimAllMember(keys: seq<string>, k: string)
    requires k in keys
    ensures TrimSpace(k) in TrimAll(keys)
  {
    TrimAllContents(keys);
    var i :| 0 <= i < |keys| && keys[i] == k;
    assert TrimAll(keys)[i] == TrimSpace(k);
  }

  lemma TrimAllSource(keys: seq<string>, x: string) returns (k: string)
    requires x in TrimAll(keys)
    ensures k in keys && TrimSpace(k) == x
  {
    TrimAllContents(keys);
    var i :| 0 <= i < |keys| && TrimAll(keys)[i] == x;
    k := keys[i];
  }

  /** A one-line key of a stored list is found again among its lines. */
  lemma KeyIsFound(keys: seq<string>, x: string)
    requires x in TrimAll(keys) && x != "" && '\n' !in x
    ensures x in TrimAll(Lines(Join(keys, '\n')))
  {
    var k := TrimAllSource(keys, x);
    TrimmedLine(k);
    assert HasLine(k, x);
    var l :| l in Split(k, '\n') && TrimSpace(l) == x;
    LinesOfPart(keys, k);
    assert l != "";
    hide Join, Split, Lines, TrimAll, TrimSpace;
    VisibleLinesStay(Join(keys, '\n'), l);
    TrimAllMember(Lines(Join(keys, '\n')), l);
  }
}
