/** The few string operations of Python's `str` that the tool relies on:
    `lower`, `endswith` (with a tuple of suffixes), `split` and `join`. */
module Text {

  /** `str.lower` on one character (ASCII letters only). */
  function LowerChar(c: char): char
  {
    if 'A' <= c <= 'Z' then (c as int + 32) as char else c
  }

  /** `s.lower()`: every character lowered, nothing added or removed. */
  function Lower(s: string): (r: string)
    ensures |r| == |s|
    ensures forall i :: 0 <= i < |s| ==> r[i] == LowerChar(s[i])
  {
    seq(|s|, i requires 0 <= i < |s| => LowerChar(s[i]))
  }

  /** Lowering twice is the same as lowering once. */
  lemma LowerIdempotent(s: string)
    ensures Lower(Lower(s)) == Lower(s)
  {
    var l := Lower(s);
    assert forall i :: 0 <= i < |l| ==> Lower(l)[i] == l[i];
  }

  /** Lowering works piece by piece. */
  lemma LowerAppend(a: string, b: string)
    ensures Lower(a + b) == Lower(a) + Lower(b)
  {
    var l, r := Lower(a + b), Lower(a) + Lower(b);
    assert forall i :: 0 <= i < |l| ==> l[i] == r[i];
  }

  /** Lowering never creates or removes a character that is not a letter. */
  lemma LowerKeepsChar(s: string, c: char)
    requires !('A' <= c <= 'Z') && !('a' <= c <= 'z')
    ensures c in Lower(s) <==> c in s
  {
    var l := Lower(s);
    if c in s {
      var i :| 0 <= i < |s| && s[i] == c;
      assert l[i] == c;
    }
    if c in l {
      var i :| 0 <= i < |l| && l[i] == c;
      assert s[i] == c;
    }
  }

  /** `s.endswith(suffix)`. */
  predicate EndsWith(s: string, suffix: string)
  {
    |suffix| <= |s| && s[|s| - |suffix|..] == suffix
  }

  /** `s.endswith(suffixes)` for a tuple of suffixes: true when any of them ends `s`. */
  function EndsWithAny(s: string, suffixes: seq<string>): (r: bool)
    ensures r <==> exists i :: 0 <= i < |suffixes| && EndsWith(s, suffixes[i])
  {
    if suffixes == [] then false
    else if EndsWith(s, suffixes[0]) then true
    else
      var rest := EndsWithAny(s, suffixes[1..]);
      assert forall i :: 1 <= i < |suffixes| ==> suffixes[i] == suffixes[1..][i - 1];
      rest
  }

  /** `sep.join(words)`; the empty list joins to the empty string. */
  function Join(words: seq<string>, sep: string): (r: string)
    ensures |words| == 1 ==> r == words[0]
  {
    if words == [] then ""
    else if |words| == 1 then words[0]
    else words[0] + sep + Join(words[1..], sep)
  }

  /** Joining a list of two or more words puts the separator before the last word. */
  lemma {:induction false} JoinLast(words: seq<string>, sep: string)
    requires |words| >= 2
    ensures Join(words, sep) == Join(words[..|words| - 1], sep) + sep + words[|words| - 1]
  {
    if |words| > 2 {
      JoinLast(words[1..], sep);
      assert words[1..][..|words| - 2] == words[..|words| - 1][1..];
    }
  }

  /** `s.split(sep)` for a one-character separator: the pieces between separators,
      always at least one of them, none containing `sep`, and joined back they give `s`. */
  function Split(s: string, sep: char): (r: seq<string>)
    ensures |r| >= 1
    ensures forall i :: 0 <= i < |r| ==> sep !in r[i]
    ensures Join(r, [sep]) == s
  {
    if s == [] then [""]
    else
      var t := Split(s[1..], sep);
      if s[0] == sep then
        assert Join([""] + t, [sep]) == [sep] + Join(t, [sep]) by {
          assert ([""] + t)[1..] == t;
        }
        [""] + t
      else
        var r := [[s[0]] + t[0]] + t[1..];
        assert r[1..] == t[1..];
        assert forall i :: 1 <= i < |r| ==> r[i] == t[i];
        r
  }

  /** The last piece of `s.split(sep)`, what `split(sep)[-1]` gives. */
  function LastPiece(s: string, sep: char): (r: string)
    ensures sep !in r
    ensures sep !in s ==> r == s
  {
    var parts := Split(s, sep);
    if sep in s then parts[|parts| - 1]
    else SplitWithoutSeparator(s, sep); parts[|parts| - 1]
  }

  /** A string with no separator in it splits into itself alone. */
  lemma {:induction false} SplitWithoutSeparator(s: string, sep: char)
    requires sep !in s
    ensures Split(s, sep) == [s]
  {
    if s != [] {
      SplitWithoutSeparator(s[1..], sep);
    }
  }

  /** Splitting `a + sep + b`, where `a` holds no separator, gives `a` and then the pieces of `b`. */
  lemma {:induction false} SplitAfterFirst(a: string, b: string, sep: char)
    requires sep !in a
    ensures Split(a + [sep] + b, sep) == [a] + Split(b, sep)
  {
    var s := a + [sep] + b;
    if a == [] {
      assert s[1..] == b;
    } else {
      assert s[1..] == a[1..] + [sep] + b;
      SplitAfterFirst(a[1..], b, sep);
      assert s[0] == a[0] && a[0] != sep;
      assert [a[0]] + a[1..] == a;
    }
  }

  /** Whatever precedes it, the text after the last separator is the last piece. */
  lemma {:induction false} SplitEndsWithTail(a: string, tail: string, sep: char)
    requires sep !in tail
    ensures |Split(a + [sep] + tail, sep)| >= 2
    ensures LastPiece(a + [sep] + tail, sep) == tail
  {
    var s := a + [sep] + tail;
    if a == [] {
      assert s[1..] == tail;
      SplitWithoutSeparator(tail, sep);
    } else {
      assert s[1..] == a[1..] + [sep] + tail;
      SplitEndsWithTail(a[1..], tail, sep);
    }
  }

  /** Round trip: splitting the join of words that hold no separator gives the words back. */
  lemma {:induction false} SplitJoin(words: seq<string>, sep: char)
    requires |words| >= 1
    requires forall i :: 0 <= i < |words| ==> sep !in words[i]
    ensures Split(Join(words, [sep]), sep) == words
  {
    if |words| == 1 {
      SplitWithoutSeparator(words[0], sep);
    } else {
      SplitJoin(words[1..], sep);
      SplitAfterFirst(words[0], Join(words[1..], [sep]), sep);
    }
  }
}
