/**
 * Python's `"\n".join(...)` and `str.split("\n")`, the indentation prefix of
 * emitted lines, and the first-occurrence scan that reads emitted text back.
 */
module Lines {

  predicate NoNewline(s: string) {
    forall k :: 0 <= k < |s| ==> s[k] != '\n'
  }

  predicate NoNewlines(ls: seq<string>) {
    forall j :: 0 <= j < |ls| ==> NoNewline(ls[j])
  }

  /** `"\n".join(ls)`. */
  function JoinLines(ls: seq<string>): string {
    if |ls| == 0 then ""
    else if |ls| == 1 then ls[0]
    else ls[0] + "\n" + JoinLines(ls[1..])
  }

  /** `s.split("\n")`: always at least one piece, none containing a newline. */
  function SplitLines(s: string): (r: seq<string>)
    ensures |r| >= 1 && NoNewlines(r)
  {
    if s == [] then [""]
    else
      var rest := SplitLines(s[1..]);
      if s[0] == '\n' then [""] + rest else [[s[0]] + rest[0]] + rest[1..]
  }

  lemma {:induction false} SplitLineThenRest(w: string, rest: string)
    requires NoNewline(w)
    ensures SplitLines(w + "\n" + rest) == [w] + SplitLines(rest)
    ensures SplitLines(w) == [w]
    decreases |w|
  {
    if w == [] {
      assert w + "\n" + rest == "\n" + rest;
      assert ("\n" + rest)[1..] == rest;
    } else {
      SplitLineThenRest(w[1..], rest);
      assert (w + "\n" + rest)[1..] == w[1..] + "\n" + rest;
      assert [w[0]] + w[1..] == w;
    }
  }

  /** Splitting a join of newline-free lines gives the lines back. */
  lemma {:induction false} SplitJoin(ls: seq<string>)
    requires |ls| >= 1 && NoNewlines(ls)
    ensures SplitLines(JoinLines(ls)) == ls
  {
    if |ls| == 1 {
      SplitLineThenRest(ls[0], "");
    } else {
      assert NoNewline(ls[0]);
      SplitLineThenRest(ls[0], JoinLines(ls[1..]));
      SplitJoin(ls[1..]);
      assert [ls[0]] + ls[1..] == ls;
    }
  }

  /** Joining the pieces of a split gives the text back. */
  lemma {:induction false} JoinSplit(s: string)
    ensures JoinLines(SplitLines(s)) == s
  {
    if s != [] {
      JoinSplit(s[1..]);
      var rest := SplitLines(s[1..]);
      if s[0] == '\n' {
        assert s == "\n" + s[1..];
      } else if |rest| == 1 {
        assert s == [s[0]] + s[1..];
      } else {
        assert rest == [rest[0]] + rest[1..];
        assert JoinLines(rest) == rest[0] + "\n" + JoinLines(rest[1..]);
        var r := [[s[0]] + rest[0]] + rest[1..];
        assert r[1..] == rest[1..];
        assert s == [s[0]] + s[1..];
      }
    }
  }

  /** `"    " * level`: four spaces per level, nothing for a level of zero or less. */
  function Indentation(level: int): (r: string)
    ensures |r| == if level <= 0 then 0 else 4 * level
    ensures forall k :: 0 <= k < |r| ==> r[k] == ' '
    decreases level
  {
    if level <= 0 then "" else "    " + Indentation(level - 1)
  }

  /** The index of the first `c` in `s`, or `|s|` if there is none (`str.find`, with the length for a miss). */
  function IndexOf(s: string, c: char): (k: nat)
    ensures k <= |s|
    ensures forall j :: 0 <= j < k ==> s[j] != c
    ensures k < |s| ==> s[k] == c
  {
    if s == [] || s[0] == c then 0 else 1 + IndexOf(s[1..], c)
  }

  /** In a word free of `c` followed by `c` or by nothing, the first `c` is right after the word. */
  lemma {:induction false} IndexOfAfter(w: string, rest: string, c: char)
    requires forall j :: 0 <= j < |w| ==> w[j] != c
    requires rest == [] || rest[0] == c
    ensures IndexOf(w + rest, c) == |w|
    decreases |w|
  {
    if w != [] {
      assert (w + rest)[1..] == w[1..] + rest;
      IndexOfAfter(w[1..], rest, c);
    } else {
      assert w + rest == rest;
    }
  }
}
