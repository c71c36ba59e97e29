/** Python's `str.split(sep)`, `str.split()` and `str.strip()` on ASCII text. */
module TextSplit {
  import opened Chars

  /** `sep` occurs in `s` starting at index `i`. */
  predicate OccursAt(s: string, sep: string, i: int)
  {
    0 <= i && i + |sep| <= |s| && s[i..i + |sep|] == sep
  }

  /** `sep in s`. */
  predicate Occurs(s: string, sep: string)
  {
    exists i | 0 <= i <= |s| - |sep| :: OccursAt(s, sep, i)
  }

  /** `s.split(sep)` for a non-empty separator: the pieces between the occurrences of
      `sep`, found left to right without overlap. */
  function SplitOn(s: string, sep: string): (parts: seq<string>)
    requires |sep| > 0
    ensures |parts| >= 1
    decreases |s|
  {
    if |s| < |sep| then [s]
    else if s[..|sep|] == sep then [""] + SplitOn(s[|sep|..], sep)
    else
      var rest := SplitOn(s[1..], sep);
      [[s[0]] + rest[0]] + rest[1..]
  }

  /** `sep.join(parts)`. */
  function Join(parts: seq<string>, sep: string): string
  {
    if parts == [] then ""
    else if |parts| == 1 then parts[0]
    else parts[0] + sep + Join(parts[1..], sep)
  }

  /** Joining a non-empty list after a first piece puts the separator after that piece. */
  lemma JoinCons(p: string, parts: seq<string>, sep: string)
    requires parts != []
    ensures Join([p] + parts, sep) == p + sep + Join(parts, sep)
  {
    assert ([p] + parts)[1..] == parts;
  }

  /** Prefixing the first piece prefixes the joined string. */
  lemma JoinHead(x: string, parts: seq<string>, sep: string)
    requires parts != []
    ensures Join([x + parts[0]] + parts[1..], sep) == x + Join(parts, sep)
  {
    if |parts| > 1 {
      JoinCons(x + parts[0], parts[1..], sep);
      JoinCons(parts[0], parts[1..], sep);
      assert [parts[0]] + parts[1..] == parts;
    }
  }

  /** Joining the pieces with the separator gives back the string. */
  lemma {:induction false} JoinSplit(s: string, sep: string)
    requires |sep| > 0
    ensures Join(SplitOn(s, sep), sep) == s
    decreases |s|, 1
  {
    if |s| < |sep| {
    } else if s[..|sep|] == sep {
      JoinSplitAtSep(s, sep);
    } else {
      JoinSplitAtChar(s, sep);
    }
  }

  /** The step of `JoinSplit` where `s` starts with the separator. */
  lemma {:induction false} JoinSplitAtSep(s: string, sep: string)
    requires |sep| > 0 && |s| >= |sep| && s[..|sep|] == sep
    ensures Join(SplitOn(s, sep), sep) == s
    decreases |s|, 0
  {
    assert SplitOn(s, sep) == [""] + SplitOn(s[|sep|..], sep);
    JoinSplit(s[|sep|..], sep);
    JoinCons("", SplitOn(s[|sep|..], sep), sep);
    assert s == sep + s[|sep|..];
  }

  /** The step of `JoinSplit` where `s` does not start with the separator. */
  lemma {:induction false} JoinSplitAtChar(s: string, sep: string)
    requires |sep| > 0 && |s| >= |sep| && s[..|sep|] != sep
    ensures Join(SplitOn(s, sep), sep) == s
    decreases |s|, 0
  {
    var rest := SplitOn(s[1..], sep);
    assert SplitOn(s, sep) == [[s[0]] + rest[0]] + rest[1..];
    JoinSplit(s[1..], sep);
    JoinHead([s[0]], rest, sep);
    assert s == [s[0]] + s[1..];
  }

  /** A string without the separator splits into itself alone; with one, into at least two pieces. */
  lemma {:induction false} SplitCount(s: string, sep: string)
    requires |sep| > 0
    ensures |SplitOn(s, sep)| == 1 <==> !Occurs(s, sep)
    decreases |s|
  {
    if |s| < |sep| {
    } else if s[..|sep|] == sep {
      assert OccursAt(s, sep, 0);
    } else {
      SplitCount(s[1..], sep);
      if Occurs(s, sep) {
        var i :| 0 <= i <= |s| - |sep| && OccursAt(s, sep, i);
        assert s[0..|sep|] == s[..|sep|];
        ShiftOccurrence(s, sep, i - 1);
      }
      if Occurs(s[1..], sep) {
        var i :| 0 <= i <= |s[1..]| - |sep| && OccursAt(s[1..], sep, i);
        ShiftOccurrence(s, sep, i);
      }
    }
  }

  /** Without an occurrence of `sep`, `split` returns the whole string as its only piece. */
  lemma SplitAbsent(s: string, sep: string)
    requires |sep| > 0 && !Occurs(s, sep)
    ensures SplitOn(s, sep) == [s]
  {
    SplitCount(s, sep);
    JoinSplit(s, sep);
  }

  /** An occurrence in `s[1..]` at `j` is an occurrence in `s` at `j + 1`, and conversely. */
  lemma ShiftOccurrence(s: string, sep: string, j: int)
    requires s != [] && 0 <= j
    ensures OccursAt(s[1..], sep, j) <==> OccursAt(s, sep, j + 1)
  {
    if j + 1 + |sep| <= |s| {
      assert s[1..][j..j + |sep|] == s[j + 1..j + 1 + |sep|];
    }
  }

  /** Splitting at the first occurrence: the first piece is the text before it, and the
      remaining pieces are those of the text after it. */
  lemma {:induction false} SplitFirst(s: string, sep: string, i: nat)
    requires |sep| > 0 && OccursAt(s, sep, i)
    requires forall j :: 0 <= j < i ==> !OccursAt(s, sep, j)
    ensures SplitOn(s, sep) == [s[..i]] + SplitOn(s[i + |sep|..], sep)
    decreases i
  {
    if i == 0 {
      assert s[..|sep|] == s[0..|sep|] == sep;
    } else {
      var t := s[1..];
      FirstInTail(s, sep, i);
      SplitFirst(t, sep, i - 1);
      assert t[i - 1 + |sep|..] == s[i + |sep|..];
      SplitAtChar(s, sep);
      assert [s[0]] + t[..i - 1] == s[..i];
    }
  }

  /** A first occurrence at `i > 0` is a first occurrence at `i - 1` in `s[1..]`, and `s` does
      not start with the separator. */
  lemma FirstInTail(s: string, sep: string, i: nat)
    requires |sep| > 0 && i > 0 && OccursAt(s, sep, i)
    requires forall j :: 0 <= j < i ==> !OccursAt(s, sep, j)
    ensures s[..|sep|] != sep
    ensures OccursAt(s[1..], sep, i - 1)
    ensures forall j :: 0 <= j < i - 1 ==> !OccursAt(s[1..], sep, j)
  {
    assert !OccursAt(s, sep, 0);
    assert s[..|sep|] == s[0..|sep|];
    forall j | 0 <= j < i - 1 ensures !OccursAt(s[1..], sep, j) {
      ShiftOccurrence(s, sep, j);
    }
    ShiftOccurrence(s, sep, i - 1);
  }

  /** When `s` does not start with the separator, its first character joins the first piece of `s[1..]`. */
  lemma SplitAtChar(s: string, sep: string)
    requires |sep| > 0 && |s| >= |sep| && s[..|sep|] != sep
    ensures SplitOn(s, sep) == [[s[0]] + SplitOn(s[1..], sep)[0]] + SplitOn(s[1..], sep)[1..]
  {
  }

  /** A non-empty run of non-whitespace characters: one item of `split()`. */
  predicate IsWord(w: string)
  {
    |w| > 0 && forall k :: 0 <= k < |w| ==> !IsSpace(w[k])
  }

  /** The longest prefix of `s` without whitespace. */
  function WordAt(s: string): (w: string)
    ensures |w| <= |s| && w == s[..|w|]
    ensures forall k :: 0 <= k < |w| ==> !IsSpace(s[k])
    ensures |w| < |s| ==> IsSpace(s[|w|])
  {
    if s == [] || IsSpace(s[0]) then [] else [s[0]] + WordAt(s[1..])
  }

  /** `s.split()`: the maximal runs of non-whitespace characters, left to right. */
  function Words(s: string): (ws: seq<string>)
    ensures forall i :: 0 <= i < |ws| ==> |ws[i]| > 0
    ensures forall i, k :: 0 <= i < |ws| && 0 <= k < |ws[i]| ==> !IsSpace(ws[i][k])
    decreases |s|
  {
    if s == [] then []
    else if IsSpace(s[0]) then Words(s[1..])
    else
      var w := WordAt(s);
      [w] + Words(s[|w|..])
  }

  /** A word followed by whitespace (or nothing) is read as a whole by `WordAt`. */
  lemma {:induction false} WordAtWord(w: string, rest: string)
    requires forall k :: 0 <= k < |w| ==> !IsSpace(w[k])
    requires rest == [] || IsSpace(rest[0])
    ensures WordAt(w + rest) == w
    decreases |w|
  {
    if w != [] {
      assert (w + rest)[1..] == w[1..] + rest;
      WordAtWord(w[1..], rest);
    }
  }

  /** `split()` of a word followed by a whitespace-led (or empty) text. */
  lemma WordsCons(w: string, rest: string)
    requires |w| > 0 && forall k :: 0 <= k < |w| ==> !IsSpace(w[k])
    requires rest == [] || IsSpace(rest[0])
    ensures Words(w + rest) == [w] + Words(rest)
  {
    WordAtWord(w, rest);
    assert (w + rest)[|w|..] == rest;
  }

  /** Leading whitespace does not start a word. */
  lemma WordsSpace(c: char, rest: string)
    requires IsSpace(c)
    ensures Words([c] + rest) == Words(rest)
  {
    assert ([c] + rest)[1..] == rest;
  }

  /** A word, one blank, then the rest. */
  lemma WordThenBlank(w: string, rest: string)
    requires IsWord(w)
    ensures Words(w + " " + rest) == [w] + Words(rest)
  {
    assert w + " " + rest == w + (" " + rest);
    WordsCons(w, " " + rest);
    WordsSpace(' ', rest);
  }

  /** `split()` takes apart words joined by single blanks. */
  lemma {:induction false} WordsJoin(ws: seq<string>)
    requires forall i :: 0 <= i < |ws| ==> IsWord(ws[i])
    ensures Words(Join(ws, " ")) == ws
    decreases |ws|
  {
    if |ws| == 1 {
      WordsCons(ws[0], []);
      assert ws[0] + [] == ws[0];
    } else if |ws| > 1 {
      WordThenBlank(ws[0], Join(ws[1..], " "));
      WordsJoin(ws[1..]);
    }
  }

  /** `s.lstrip()`: `s` without its leading whitespace. */
  function LStrip(s: string): (r: string)
    ensures |r| <= |s| && r == s[|s| - |r|..]
    ensures forall k :: 0 <= k < |s| - |r| ==> IsSpace(s[k])
    ensures r == [] || !IsSpace(r[0])
  {
    if s != [] && IsSpace(s[0]) then LStrip(s[1..]) else s
  }

  /** `s.rstrip()`: `s` without its trailing whitespace. */
  function RStrip(s: string): (r: string)
    ensures |r| <= |s| && r == s[..|r|]
    ensures forall k :: |r| <= k < |s| ==> IsSpace(s[k])
    ensures r == [] || !IsSpace(r[|r| - 1])
  {
    if s != [] && IsSpace(s[|s| - 1]) then RStrip(s[..|s| - 1]) else s
  }

  /** `s.strip()`. */
  function Strip(s: string): string
  {
    RStrip(LStrip(s))
  }

  /** `strip()` removes one leading blank before a text that neither starts nor ends with whitespace. */
  lemma StripPadded(w: string)
    requires w != [] && !IsSpace(w[0]) && !IsSpace(w[|w| - 1])
    ensures Strip(" " + w) == w
  {
    assert (" " + w)[1..] == w;
  }
}
