/** The stack of active headings, and what it means in terms of all headings seen. */
module Hierarchy {
  import opened Text
  import opened Lexicons
  import opened Lines

  datatype Heading = Heading(level: int, text: string)

  /** The whitespace class of the pattern syntax. */
  predicate IsPatternSpace(c: char) {
    c == '\t' || c == '\n' || c == '\U{0C}' || c == '\r' || c == ' '
  }

  function Hashes(line: string): (n: nat)
    ensures n <= |line|
  {
    if line != "" && line[0] == '#' then 1 + Hashes(line[1..]) else 0
  }

  /** The level of an ATX heading line, or 0: one to six hashes, a space, and something after it. */
  function HeadingLevel(line: string): (level: nat)
    ensures level <= 6
  {
    var n := Hashes(line);
    if 1 <= n <= 6 && n + 2 <= |line| && IsPatternSpace(line[n]) then n else 0
  }

  /** strings.HasPrefix(strings.TrimSpace(line), "```") */
  predicate IsFence(line: string) {
    "```" <= TrimLeft(line)
  }

  // ---- the stack ------------------------------------------------------------

  /** Texts of the active headings, index i for level i + 1; "" where none is active. */
  type Stack = s: seq<string> | |s| == 6 witness ["", "", "", "", "", ""]

  const EMPTY_STACK: Stack := ["", "", "", "", "", ""]

  /** Pushing a heading clears every deeper entry. */
  function Observed(stack: Stack, h: Heading): Stack
    requires 1 <= h.level <= 6
  {
    seq(6, i requires 0 <= i < 6 =>
      if i < h.level - 1 then stack[i] else if i == h.level - 1 then h.text else "")
  }

  predicate ValidHistory(history: seq<Heading>) {
    forall i :: 0 <= i < |history| ==> 1 <= history[i].level <= 6
  }

  function StackAfter(stack: Stack, history: seq<Heading>): Stack
    requires ValidHistory(history)
    decreases |history|
  {
    if history == [] then stack
    else Observed(StackAfter(stack, history[..|history| - 1]), history[|history| - 1])
  }

  /** No later heading is of the same or a shallower level. */
  predicate InForce(history: seq<Heading>, j: int) {
    0 <= j < |history| && forall k :: j < k < |history| ==> history[k].level > history[j].level
  }

  /**
   * The incremental stack says what scoping means: a level's entry is the text of the heading
   * of that level still in force, and empty when there is none.
   */
  lemma {:induction false} StackIsScope(history: seq<Heading>, level: int)
    requires ValidHistory(history) && 1 <= level <= 6
    ensures forall j :: InForce(history, j) && history[j].level == level ==>
              StackAfter(EMPTY_STACK, history)[level - 1] == history[j].text
    ensures (forall j :: InForce(history, j) ==> history[j].level != level) ==>
              StackAfter(EMPTY_STACK, history)[level - 1] == ""
    decreases |history|
  {
    if history == [] {
    } else {
      var n := |history| - 1;
      var before, h := history[..n], history[n];
      StackIsScope(before, level);
      ObservedAt(StackAfter(EMPTY_STACK, before), h, level - 1);
      forall j ensures InForce(history, j) <==> j == n || (InForce(before, j) && h.level > history[j].level) {
        InForceMore(history, j);
      }
      hide InForce, Observed;
    }
  }

  lemma InForceMore(history: seq<Heading>, j: int)
    requires history != []
    ensures var n := |history| - 1;
            InForce(history, j) <==> j == n || (InForce(history[..n], j) && history[n].level > history[j].level)
  {
  }

  lemma ObservedAt(stack: Stack, h: Heading, i: int)
    requires 1 <= h.level <= 6 && 0 <= i < 6
    ensures Observed(stack, h)[i] == if i < h.level - 1 then stack[i] else if i == h.level - 1 then h.text else ""
  {
  }

  lemma {:induction false} StackAfterAppend(stack: Stack, a: seq<Heading>, b: seq<Heading>)
    requires ValidHistory(a) && ValidHistory(b)
    ensures ValidHistory(a + b) && StackAfter(stack, a + b) == StackAfter(StackAfter(stack, a), b)
    decreases |b|
  {
    if b == [] {
      assert a + b == a;
    } else {
      var n := |b| - 1;
      StackAfterAppend(stack, a, b[..n]);
      assert (a + b)[..|a + b| - 1] == a + b[..n];
    }
  }

  // ---- breadcrumbs ----------------------------------------------------------

  function Repeat(c: char, n: nat): string {
    seq(n, _ => c)
  }

  /** A heading as it stands in a breadcrumb. */
  function CrumbLine(level: nat, text: string): string {
    Repeat('#', level) + " " + text
  }

  /** The non-empty entries below level n, one line each with its hashes. */
  function Crumb(stack: Stack, n: nat): string
    requires n <= 6
  {
    if n == 0 then ""
    else if stack[n - 1] == "" then Crumb(stack, n - 1)
    else
      var rest := Crumb(stack, n - 1);
      var line := CrumbLine(n, stack[n - 1]);
      if rest == "" then line else rest + "\n" + line
  }

  lemma {:induction false} CrumbBeyond(stack: Stack, d: nat, n: nat)
    requires d <= n <= 6 && forall i :: d <= i < n ==> stack[i] == ""
    ensures Crumb(stack, n) == Crumb(stack, d)
  {
    if d == n {
    } else {
      CrumbBeyond(stack, d, n - 1);
    }
  }

  /** The levels up to n at which a heading is active, outermost first. */
  ghost predicate ActiveLevels(stack: Stack, n: nat, levels: seq<nat>)
    requires n <= 6
  {
    && (forall i, j :: 0 <= i < j < |levels| ==> levels[i] < levels[j])
    && (forall i :: 0 <= i < |levels| ==> 1 <= levels[i] <= n && stack[levels[i] - 1] != "")
    && (forall l :: 1 <= l <= n && stack[l - 1] != "" ==> l in levels)
  }

  /** One line for each of the levels. */
  function CrumbLines(stack: Stack, levels: seq<nat>): seq<string>
    requires forall i :: 0 <= i < |levels| ==> 1 <= levels[i] <= 6
  {
    seq(|levels|, i requires 0 <= i < |levels| => CrumbLine(levels[i], stack[levels[i] - 1]))
  }

  /** crumb has exactly one line for each active heading, with as many hashes as its level, outermost first. */
  ghost predicate ListsActive(stack: Stack, crumb: string) {
    exists levels :: ActiveLevels(stack, 6, levels) && crumb == Join(CrumbLines(stack, levels))
  }

  lemma {:induction false} CrumbLists(stack: Stack, n: nat) returns (levels: seq<nat>)
    requires n <= 6
    ensures ActiveLevels(stack, n, levels) && Crumb(stack, n) == Join(CrumbLines(stack, levels))
    ensures Crumb(stack, n) == "" <==> levels == []
  {
    hide Join, CrumbLine;
    if n == 0 {
      levels := [];
      assert CrumbLines(stack, []) == [];
      JoinNone();
    } else {
      levels := CrumbLists(stack, n - 1);
      if stack[n - 1] != "" {
        OneMore(stack, n, levels);
        levels := levels + [n];
      }
    }
  }

  lemma OneMore(stack: Stack, n: nat, levels: seq<nat>)
    requires 1 <= n <= 6 && stack[n - 1] != "" && ActiveLevels(stack, n - 1, levels)
    ensures ActiveLevels(stack, n, levels + [n])
    ensures var lines, line := CrumbLines(stack, levels), CrumbLine(n, stack[n - 1]);
            line != "" && Join(CrumbLines(stack, levels + [n])) == if levels == [] then line else Join(lines) + "\n" + line
  {
    hide Join;
    assert forall l :: l in levels || l == n ==> l in levels + [n];
    var lines, line := CrumbLines(stack, levels), CrumbLine(n, stack[n - 1]);
    assert CrumbLines(stack, levels + [n]) == lines + [line];
    JoinOne(line);
    if levels != [] {
      JoinAppend(lines, [line]);
    } else {
      assert lines + [line] == [line];
    }
  }

  lemma JoinNone()
    ensures Join([]) == ""
  {
  }

  /** The stack of active headings, updated in place. */
  class HeadingHierarchy {
    var stack: Stack
    var depth: int

    /** Nothing is active beyond the depth. */
    predicate Valid()
      reads this
    {
      0 <= depth <= 6 && forall i :: depth <= i < 6 ==> stack[i] == ""
    }

    constructor ()
      ensures Valid() && stack == EMPTY_STACK
    {
      stack, depth := EMPTY_STACK, 0;
    }

    /** A value copy of another hierarchy. */
    constructor Copy(h: HeadingHierarchy)
      requires h.Valid()
      ensures Valid() && stack == h.stack
    {
      stack, depth := h.stack, h.depth;
    }

    /** Observe: pushes the line's heading, or changes nothing when the line is not a heading. */
    method Observe(lex: Lexicon, line: string) returns (level: int)
      requires Valid()
      modifies this
      ensures Valid() && level == HeadingLevel(line)
      ensures stack == if level == 0 then old(stack) else Observed(old(stack), Heading(level, lex.headingText(line)))
    {
      level := HeadingLevel(line);
      if level < 1 || level > 6 {
        return;
      }
      stack := stack[level - 1 := lex.headingText(line)];
      for i := level to 6
        invariant forall k :: level <= k < i ==> stack[k] == ""
        invariant stack[level - 1] == lex.headingText(line)
        invariant forall k :: 0 <= k < level - 1 ==> stack[k] == old(stack)[k]
      {
        stack := stack[i := ""];
      }
      assert stack == Observed(old(stack), Heading(level, lex.headingText(line)));
      if level > depth {
        depth := level;
      } else {
        depth := 0;
        for i := 0 to 6
          invariant stack == Observed(old(stack), Heading(level, lex.headingText(line)))
          invariant 0 <= depth <= i && forall k :: depth <= k < i ==> stack[k] == ""
        {
          if stack[i] != "" {
            depth := i + 1;
          }
        }
      }
    }

    /** BreadcrumbWithHashes: all active headings, however the depth was reached. */
    method BreadcrumbWithHashes() returns (crumb: string)
      requires Valid()
      ensures crumb == Crumb(stack, 6) && ListsActive(stack, crumb)
    {
      CrumbBeyond(stack, depth, 6);
      ghost var levels := CrumbLists(stack, 6);
      crumb := "";
      for i := 0 to depth
        invariant crumb == Crumb(stack, i)
      {
        if stack[i] == "" {
          continue;
        }
        assert crumb == "" ==> crumb + CrumbLine(i + 1, stack[i]) == CrumbLine(i + 1, stack[i]);
        if |crumb| > 0 {
          crumb := crumb + "\n";
        }
        assert crumb + Repeat('#', i + 1) + " " + stack[i] == crumb + CrumbLine(i + 1, stack[i]);
        crumb := crumb + Repeat('#', i + 1) + " " + stack[i];
      }
    }
  }
}
