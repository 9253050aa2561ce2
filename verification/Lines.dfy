/** Text as lines: strings.Split(text, "\n") and the offsets at which lines start. */
module Lines {
  import opened Text

  predicate NoNewline(s: string) {
    forall i :: 0 <= i < |s| ==> s[i] != '\n'
  }

  predicate AllLines(ls: seq<string>) {
    ls != [] && forall i :: 0 <= i < |ls| ==> NoNewline(ls[i])
  }

  /** Offset of the first newline, or |text|. */
  function LineEnd(text: string): (n: nat)
    ensures n <= |text| && NoNewline(text[..n]) && (n < |text| ==> text[n] == '\n')
  {
    if text == "" || text[0] == '\n' then 0
    else
      var n := 1 + LineEnd(text[1..]);
      assert text[..n] == [text[0]] + text[1..][..n - 1];
      n
  }

  function Split(text: string): (ls: seq<string>)
    ensures AllLines(ls)
    decreases |text|
  {
    var n := LineEnd(text);
    if n == |text| then [text] else [text[..n]] + Split(text[n + 1..])
  }

  /** strings.Join(ls, "\n") */
  function Join(ls: seq<string>): string {
    if ls == [] then "" else if |ls| == 1 then ls[0] else ls[0] + "\n" + Join(ls[1..])
  }

  lemma {:induction false} JoinSplit(text: string)
    ensures Join(Split(text)) == text
    decreases |text|
  {
    var n := LineEnd(text);
    if n == |text| {
    } else {
      JoinSplit(text[n + 1..]);
      JoinCons(text[..n], Split(text[n + 1..]));
      hide Join;
      assert text == text[..n] + "\n" + text[n + 1..];
    }
  }

  lemma JoinCons(line: string, ls: seq<string>)
    requires ls != []
    ensures Join([line] + ls) == line + "\n" + Join(ls)
  {
    assert ([line] + ls)[1..] == ls;
  }

  lemma LineEndOf(a: string, b: string)
    requires NoNewline(a) && (b == "" || b[0] == '\n')
    ensures LineEnd(a + b) == |a|
  {
    var t := a + b;
    var n := LineEnd(t);
    assert forall k :: 0 <= k < |a| ==> t[k] != '\n';
    assert forall k :: 0 <= k < n ==> t[k] != '\n' by {
      assert forall k :: 0 <= k < n ==> t[..n][k] == t[k];
    }
    assert |a| < |t| ==> t[|a|] == '\n';
  }

  /** Lines without newlines survive joining and splitting. */
  lemma {:induction false} SplitJoin(ls: seq<string>)
    requires AllLines(ls)
    ensures Split(Join(ls)) == ls
  {
    if |ls| == 1 {
      LineEndOf(ls[0], "");
      assert ls[0] + "" == ls[0];
    } else {
      var rest := "\n" + Join(ls[1..]);
      LineEndOf(ls[0], rest);
      assert Join(ls) == ls[0] + rest;
      assert Join(ls)[|ls[0]| + 1..] == Join(ls[1..]);
      SplitJoin(ls[1..]);
    }
  }

  lemma {:induction false} JoinAppend(a: seq<string>, b: seq<string>)
    requires a != [] && b != []
    ensures Join(a + b) == Join(a) + "\n" + Join(b)
  {
    if |a| == 1 {
      assert (a + b)[1..] == b;
    } else {
      JoinAppend(a[1..], b);
      assert (a + b)[1..] == a[1..] + b;
    }
  }

  /** Rune offset at which line i starts (past the text's end for i == |ls|). */
  function LineStart(ls: seq<string>, i: nat): nat
    requires i <= |ls|
  {
    if i == 0 then 0 else LineStart(ls, i - 1) + |ls[i - 1]| + 1
  }

  lemma {:induction false} LineStartMonotone(ls: seq<string>, i: nat, j: nat)
    requires i <= j <= |ls|
    ensures LineStart(ls, i) + (j - i) <= LineStart(ls, j)
    decreases j - i
  {
    if i == j {
    } else {
      LineStartMonotone(ls, i, j - 1);
    }
  }

  /** Starts of a line list are the starts of its prefix, then those of its rest, shifted. */
  lemma {:induction false} LineStartAppend(a: seq<string>, b: seq<string>, i: nat)
    requires i <= |a| + |b|
    ensures i <= |a| ==> LineStart(a + b, i) == LineStart(a, i)
    ensures i >= |a| ==> LineStart(a + b, i) == LineStart(a, |a|) + LineStart(b, i - |a|)
  {
    if i == 0 {
    } else {
      LineStartAppend(a, b, i - 1);
    }
  }

  lemma {:induction false} JoinLength(ls: seq<string>)
    requires ls != []
    ensures |Join(ls)| + 1 == LineStart(ls, |ls|)
  {
    if |ls| == 1 {
    } else {
      JoinLength(ls[1..]);
      assert ls == [ls[0]] + ls[1..];
      LineStartAppend([ls[0]], ls[1..], |ls|);
    }
  }

  /** The text from the start of line i on is lines i.. */
  lemma SliceToEnd(text: string, i: nat)
    requires i < |Split(text)|
    ensures LineStart(Split(text), i) <= |text|
    ensures Split(text[LineStart(Split(text), i)..]) == Split(text)[i..]
  {
    DropLines(text, i);
    SplitJoin(Split(text)[i..]);
  }

  /** The text from the start of line i to the start of line j is lines i..j and an empty rest. */
  lemma SliceLines(text: string, i: nat, j: nat)
    requires i < j < |Split(text)|
    ensures LineStart(Split(text), i) < LineStart(Split(text), j) <= |text|
    ensures Split(text[LineStart(Split(text), i)..LineStart(Split(text), j)]) == Split(text)[i..j] + [""]
  {
    MidText(text, i, j);
    SplitJoin(Split(text)[i..j] + [""]);
  }

  lemma MidText(text: string, i: nat, j: nat)
    requires i < j < |Split(text)|
    ensures LineStart(Split(text), i) < LineStart(Split(text), j) <= |text|
    ensures text[LineStart(Split(text), i)..LineStart(Split(text), j)] == Join(Split(text)[i..j] + [""])
  {
    hide Split, Join, LineStart;
    var ls := Split(text);
    var p, q := LineStart(ls, i), LineStart(ls, j);
    var mid := ls[i..j];
    DropLines(text, i);
    DropLines(text, j);
    LineStartMonotone(ls, i, j);
    assert ls[i..] == mid + ls[j..];
    JoinAppend(mid, ls[j..]);
    JoinAppend(mid, [""]);
    JoinOne("");
    LineStartMid(ls, i, j);
    JoinLength(mid);
    var m := Join(mid);
    assert text[p..] == m + "\n" + text[q..];
    assert |m| + 1 == q - p;
    assert text[p..q] == text[p..][..q - p];
    assert text[p..][..q - p] == m + "\n";
  }

  lemma JoinOne(s: string)
    ensures Join([s]) == s
  {
  }

  lemma LineStartMid(ls: seq<string>, i: nat, j: nat)
    requires i <= j <= |ls|
    ensures LineStart(ls, j) == LineStart(ls, i) + LineStart(ls[i..j], j - i)
    ensures LineStart(ls, j) == LineStart(ls, i) + LineStart(ls[i..], j - i)
  {
    assert ls == ls[..i] + ls[i..] && ls[i..] == ls[i..j] + ls[j..];
    LineStartAppend(ls[..i], ls[i..], j);
    LineStartAppend(ls[..i], ls[i..], i);
    LineStartAppend(ls[i..j], ls[j..], j - i);
  }

  lemma DropLines(text: string, i: nat)
    requires i < |Split(text)|
    ensures LineStart(Split(text), i) <= |text|
    ensures text[LineStart(Split(text), i)..] == Join(Split(text)[i..])
  {
    var ls := Split(text);
    JoinSplit(text);
    if i > 0 {
      assert ls == ls[..i] + ls[i..];
      JoinAppend(ls[..i], ls[i..]);
      JoinLength(ls[..i]);
      LineStartAppend(ls[..i], ls[i..], i);
    }
  }

  /** How many lines start at or before offset off. */
  function LinesUpTo(ls: seq<string>, off: int): (n: nat)
    ensures n <= |ls|
  {
    LinesUpToFrom(ls, off, |ls|)
  }

  function LinesUpToFrom(ls: seq<string>, off: int, n: nat): (m: nat)
    requires n <= |ls|
    ensures m <= n
  {
    if n == 0 then 0 else if LineStart(ls, n - 1) <= off then n else LinesUpToFrom(ls, off, n - 1)
  }

  /** LinesUpTo is the unique n with line n - 1 starting by off and line n after it. */
  lemma LinesUpToIs(ls: seq<string>, off: int, n: nat)
    requires 0 < n <= |ls| && LineStart(ls, n - 1) <= off && (n == |ls| || off < LineStart(ls, n))
    ensures LinesUpTo(ls, off) == n
  {
    LinesUpToFromIs(ls, off, n, |ls|);
  }

  lemma {:induction false} LinesUpToFromIs(ls: seq<string>, off: int, n: nat, k: nat)
    requires 0 < n <= k <= |ls| && LineStart(ls, n - 1) <= off && (n == |ls| || off < LineStart(ls, n))
    ensures LinesUpToFrom(ls, off, k) == n
  {
    if k == n {
    } else {
      LineStartMonotone(ls, n, k - 1);
      LinesUpToFromIs(ls, off, n, k - 1);
    }
  }

  lemma {:induction false} LinesUpToSpec(ls: seq<string>, off: int)
    requires ls != [] && off >= 0
    ensures var n := LinesUpTo(ls, off);
            0 < n && LineStart(ls, n - 1) <= off && (n == |ls| || off < LineStart(ls, n))
  {
    var n := |ls|;
    while LineStart(ls, n - 1) > off
      invariant 0 < n <= |ls| && (n == |ls| || off < LineStart(ls, n))
    {
      n := n - 1;
    }
    LinesUpToIs(ls, off, n);
  }
}
