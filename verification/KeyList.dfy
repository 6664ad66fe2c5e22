/** The key string of a channel with several keys: lines, or a JSON array. */
module KeyList {
  import opened Lists
  import opened Text

  datatype Parsed = NotJson | Array(keys: seq<string>)

  /** How a string is read as a JSON array; left open. */
  type Parser = string -> Parsed

  predicate LooksLikeArray(key: string) {
    var trimmed := TrimSpace(key);
    trimmed != "" && trimmed[0] == '['
  }

  /** The first character that is not blank is an opening bracket. */
  lemma ArrayBegins(key: string)
    ensures LooksLikeArray(key) <==>
              exists a, rest :: key == a + "[" + rest && forall c | c in a :: IsSpace(c)
  {
    var r := Trim(key, IsSpace);
    TrimMeans(key, IsSpace);
    var a, b :| CutTo(key, r, a, b, IsSpace);
    if LooksLikeArray(key) {
      assert key == a + "[" + (r[1..] + b);
    }
    if h, rest :| key == h + "[" + rest && forall c | c in h :: IsSpace(c) {
      assert key == h + ("[" + rest);
      BlanksInFront(h, "[" + rest);
      TrimKeepsHead("[" + rest, IsSpace);
    }
  }

  lemma {:induction false} BlanksInFront(blanks: string, s: string)
    requires forall c | c in blanks :: IsSpace(c)
    ensures TrimSpace(blanks + s) == TrimSpace(s)
  {
    if blanks == "" {
      assert blanks + s == s;
    } else {
      assert blanks[0] in blanks && (blanks + s)[1..] == blanks[1..] + s;
      BlanksInFront(blanks[1..], s);
    }
  }

  function Lines(key: string): (r: seq<string>)
    ensures r != [] && forall k | k in r :: '\n' !in k
  {
    Split(TrimChar(key, '\n'), '\n')
  }

  /** The keys that requests are served with. */
  function GetKeys(key: string, parse: Parser): seq<string> {
    if key == "" then []
    else if LooksLikeArray(key) && parse(TrimSpace(key)).Array? then parse(TrimSpace(key)).keys
    else Lines(key)
  }

  /** The keys an update counts: an empty array counts as a line. */
  function CountedKeys(key: string, parse: Parser): seq<string> {
    if key == "" then []
    else
      var listed := if LooksLikeArray(key) && parse(TrimSpace(key)).Array? then parse(TrimSpace(key)).keys else [];
      if listed == [] then Lines(key) else listed
  }

  /** No key contains a newline, and the list neither begins nor ends with an empty key. */
  predicate Joinable(keys: seq<string>) {
    keys != [] ==> keys[0] != "" && keys[|keys| - 1] != "" && forall k | k in keys :: '\n' !in k
  }

  lemma JoinableReadsBack(keys: seq<string>)
    requires Joinable(keys) && keys != []
    ensures Join(keys, '\n') != "" && Lines(Join(keys, '\n')) == keys
  {
    assert keys[0] in keys && keys[|keys| - 1] in keys;
    JoinEnds(keys, '\n');
    SplitOfJoin(keys, '\n');
    hide Join, Split;
  }

  lemma ReadBackIsJoinable(keys: seq<string>)
    requires Join(keys, '\n') != "" && Lines(Join(keys, '\n')) == keys
    ensures Joinable(keys)
  {
    var stored := Join(keys, '\n');
    JoinOfSplit(TrimChar(stored, '\n'), '\n');
    assert TrimChar(stored, '\n') == stored;
    if keys[0] == "" || keys[|keys| - 1] == "" {
      EmptyEndIsSeparator(keys);
    }
  }

  lemma EmptyEndIsSeparator(keys: seq<string>)
    requires |keys| > 0 && (keys[0] == "" || keys[|keys| - 1] == "") && Join(keys, '\n') != ""
    ensures var s := Join(keys, '\n'); s[0] == '\n' || s[|s| - 1] == '\n'
    decreases |keys|
  {
    if keys[0] != "" {
      JoinEmptyLast(keys);
    }
  }

  lemma {:induction false} JoinEmptyLast(keys: seq<string>)
    requires |keys| > 1 && keys[|keys| - 1] == ""
    ensures var s := Join(keys, '\n'); s != "" && s[|s| - 1] == '\n'
  {
    if |keys| > 2 {
      JoinEmptyLast(keys[1..]);
    } else {
      assert keys[1..] == [""];
    }
  }

  // ----- which lists can be stored -----

  /** What becomes of a list that is stored as lines: it is read back as it was, unless the lines form an array of
      other keys, or do not form an array and some key has a newline or an end is blank. */
  ghost predicate Storable(keys: seq<string>, parse: Parser) {
    var key := Join(keys, '\n');
    if LooksLikeArray(key) && parse(TrimSpace(key)).Array? then parse(TrimSpace(key)).keys == keys else Joinable(keys)
  }

  /** A list survives being stored exactly when it is storable. */
  lemma StoredKeysReadBack(keys: seq<string>, parse: Parser)
    ensures GetKeys(Join(keys, '\n'), parse) == keys <==> Storable(keys, parse)
  {
    if keys != [] {
      hide Join, Lines, LooksLikeArray, Joinable;
      if Joinable(keys) {
        JoinableReadsBack(keys);
      } else if Join(keys, '\n') != "" && Lines(Join(keys, '\n')) == keys {
        ReadBackIsJoinable(keys);
      }
    }
  }

  /** What is served is what an update counts, unless it is an empty array. */
  lemma CountedIfAny(key: string, parse: Parser)
    requires GetKeys(key, parse) != []
    ensures CountedKeys(key, parse) == GetKeys(key, parse) && key != ""
  {
  }

  // ----- lists of lines, blank ones included -----

  /** No key contains a newline or looks like an array; blank keys are allowed. */
  ghost predicate PlainLines(keys: seq<string>) {
    forall k | k in keys :: '\n' !in k && !LooksLikeArray(k)
  }

  /** Without the blank keys at both ends. */
  function TrimBlanks(keys: seq<string>): (r: seq<string>)
    ensures |r| <= |keys|
    ensures forall k | k in r :: k in keys
    ensures r != [] ==> r[0] != "" && r[|r| - 1] != ""
    ensures keys != [] && keys[0] != "" && keys[|keys| - 1] != "" ==> r == keys
    decreases |keys|
  {
    if keys == [] then []
    else if keys[0] == "" then TrimBlanks(keys[1..])
    else if keys[|keys| - 1] == "" then TrimBlanks(keys[..|keys| - 1])
    else keys
  }

  lemma {:induction false} TrimBlanksAtEnd(keys: seq<string>)
    requires keys != [] && keys[|keys| - 1] == ""
    ensures TrimBlanks(keys) == TrimBlanks(keys[..|keys| - 1])
    decreases |keys|
  {
    if keys[0] == "" && |keys| > 1 {
      TrimBlanksAtEnd(keys[1..]);
      assert keys[1..][..|keys| - 2] == keys[..|keys| - 1][1..];
    }
  }

  lemma {:induction false} TrimBlanksKeeps(keys: seq<string>, k: string)
    requires k in keys && k != ""
    ensures k in TrimBlanks(keys)
    decreases |keys|
  {
    if keys[0] == "" {
      assert keys == [keys[0]] + keys[1..];
      TrimBlanksKeeps(keys[1..], k);
    } else if keys[|keys| - 1] == "" {
      assert keys == keys[..|keys| - 1] + [keys[|keys| - 1]];
      TrimBlanksKeeps(keys[..|keys| - 1], k);
    }
  }

  lemma {:induction false} JoinBlankLast(keys: seq<string>)
    requires |keys| > 1 && keys[|keys| - 1] == ""
    ensures Join(keys, '\n') == Join(keys[..|keys| - 1], '\n') + ['\n']
  {
    var front := keys[..|keys| - 1];
    if |keys| == 2 {
      assert keys[1..] == [""] && Join(keys[1..], '\n') == "";
      assert Join(front, '\n') == keys[0];
    } else {
      JoinBlankLast(keys[1..]);
      assert keys[1..][..|keys| - 2] == front[1..];
      assert Join(front, '\n') == keys[0] + ['\n'] + Join(front[1..], '\n');
    }
  }

  lemma TrimFront(s: string, rest: string)
    requires s == ['\n'] + rest
    ensures TrimChar(s, '\n') == TrimChar(rest, '\n')
  {
    assert s[1..] == rest;
  }

  lemma TrimBack(s: string, front: string)
    requires s == front + ['\n'] && front != "" && front[0] != '\n'
    ensures TrimChar(s, '\n') == TrimChar(front, '\n')
  {
    assert s[..|s| - 1] == front;
  }

  /** Trimming the joined text drops the blank keys at the ends. */
  lemma {:induction false} TrimOfJoin(keys: seq<string>)
    requires forall k | k in keys :: '\n' !in k
    ensures TrimChar(Join(keys, '\n'), '\n') == Join(TrimBlanks(keys), '\n')
    decreases |keys|
  {
    if |keys| > 1 && keys[0] == "" {
      TrimFront(Join(keys, '\n'), Join(keys[1..], '\n'));
      TrimOfJoin(keys[1..]);
    } else if |keys| > 1 && keys[|keys| - 1] == "" {
      var front := keys[..|keys| - 1];
      JoinBlankLast(keys);
      assert keys[0] in keys && Join(front, '\n')[0] == keys[0][0];
      TrimBack(Join(keys, '\n'), Join(front, '\n'));
      TrimOfJoin(front);
    } else if keys != [] && keys[0] != "" {
      assert keys[0] in keys && keys[|keys| - 1] in keys;
      JoinEnds(keys, '\n');
    }
  }

  /** A list of lines with a key that is not blank is read back without the blank keys at its ends. */
  lemma LinesOfJoin(keys: seq<string>)
    requires (forall k | k in keys :: '\n' !in k) && TrimBlanks(keys) != []
    ensures Join(keys, '\n') != "" && Lines(Join(keys, '\n')) == TrimBlanks(keys)
  {
    var kept := TrimBlanks(keys);
    TrimOfJoin(keys);
    assert kept[0] in kept && kept[|kept| - 1] in kept;
    JoinEnds(kept, '\n');
    SplitOfJoin(kept, '\n');
  }

  // ----- lists that look like arrays -----

  lemma {:induction false} TrimBlankPrefix(a: string, b: string)
    requires TrimSpace(a) == ""
    ensures TrimSpace(a + b) == TrimSpace(b)
  {
    if a == "" {
      assert a + b == b;
    } else {
      assert (a + b)[1..] == a[1..] + b;
      if IsSpace(a[0]) {
        TrimBlankPrefix(a[1..], b);
      } else {
        TrimKeepsHead(a, IsSpace);
      }
    }
  }

  /** A list that begins with a visible key looks like an array exactly when that key does. */
  lemma HeadDecides(keys: seq<string>)
    requires keys != [] && TrimSpace(keys[0]) != ""
    ensures LooksLikeArray(Join(keys, '\n')) <==> LooksLikeArray(keys[0])
  {
    var rest := Join(keys, '\n')[|keys[0]|..];
    assert Join(keys, '\n') == keys[0] + rest;
    TrimHead(keys[0], rest, IsSpace);
  }

  /** A list of keys none of which looks like an array does not look like one. */
  lemma {:induction false} PlainIsNoArray(keys: seq<string>)
    requires forall k | k in keys :: !LooksLikeArray(k)
    ensures !LooksLikeArray(Join(keys, '\n'))
  {
    if keys != [] {
      assert keys[0] in keys;
      if TrimSpace(keys[0]) != "" {
        HeadDecides(keys);
      } else if |keys| > 1 {
        var rest := Join(keys[1..], '\n');
        PlainIsNoArray(keys[1..]);
        TrimBlankPrefix(keys[0], "\n");
        TrimBlankPrefix(keys[0] + "\n", rest);
        assert Join(keys, '\n') == keys[0] + "\n" + rest;
      }
    }
  }

  /** For keys that do not look like arrays, only newlines and blank ends matter. */
  lemma PlainIsStorable(keys: seq<string>, parse: Parser)
    requires forall k | k in keys :: !LooksLikeArray(k)
    ensures Storable(keys, parse) <==> Joinable(keys)
  {
    PlainIsNoArray(keys);
  }
}
