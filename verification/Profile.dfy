/** The profiler's view of a document's headings: how many there are per level, and which level drives the sections. */
module Profiles {
  import opened Text
  import opened Lines
  import opened Hierarchy
  import opened HeadingScan

  /** The headings of the given level on the first n lines. */
  function HeadingCount(ls: seq<string>, level: nat, n: nat): nat
    requires n <= |ls|
  {
    if n == 0 then 0 else HeadingCount(ls, level, n - 1) + if LevelAt(ls, n - 1) == level then 1 else 0
  }

  function HeadingTotal(ls: seq<string>, n: nat): nat
    requires n <= |ls|
  {
    if n == 0 then 0 else HeadingTotal(ls, n - 1) + if LevelAt(ls, n - 1) > 0 then 1 else 0
  }

  /** Enough headings to carry the structure of the document. */
  predicate Carries(ls: seq<string>, level: nat) {
    HeadingCount(ls, level, |ls|) >= 3
  }

  predicate Occurs(ls: seq<string>, level: nat) {
    HeadingCount(ls, level, |ls|) > 0
  }

  /** The shallowest level from the given one on that carries the structure, or 0. */
  function Shallowest(ls: seq<string>, level: nat): nat
    decreases 7 - level
  {
    if level > 6 then 0 else if Carries(ls, level) then level else Shallowest(ls, level + 1)
  }

  /** The deepest level up to the given one that occurs, or 0. */
  function Deepest(ls: seq<string>, level: nat): nat {
    if level == 0 then 0 else if Occurs(ls, level) then level else Deepest(ls, level - 1)
  }

  function DominantLevel(ls: seq<string>): nat {
    var level := Shallowest(ls, 1);
    if level > 0 then level else Deepest(ls, 6)
  }

  // ---- ProfileDocument and DominantHeadingLevel --------------------------------

  /** counts holds the headings per level on the first n lines. */
  predicate Counted(ls: seq<string>, n: nat, counts: seq<nat>)
    requires n <= |ls|
  {
    |counts| == 7 && forall level :: 1 <= level <= 6 ==> counts[level] == HeadingCount(ls, level, n)
  }

  /** The heading half of ProfileDocument. */
  method ProfileHeadings(text: string) returns (counts: seq<nat>, total: nat)
    ensures Counted(Split(text), |Split(text)|, counts) && total == HeadingTotal(Split(text), |Split(text)|)
  {
    hide IsFence, HeadingLevel, Split;
    var ls := Split(text);
    counts, total := [0, 0, 0, 0, 0, 0, 0], 0;
    var inFence := false;
    for i := 0 to |ls|
      invariant inFence == Fenced(ls, i) && Counted(ls, i, counts) && total == HeadingTotal(ls, i)
    {
      if IsFence(ls[i]) {
        inFence := !inFence;
        continue;
      }
      if inFence {
        continue;
      }
      var level := HeadingLevel(ls[i]);
      if 1 <= level <= 6 {
        counts := counts[level := counts[level] + 1];
        total := total + 1;
      }
    }
  }

  method DominantHeadingLevel(counts: seq<nat>, total: nat, ghost ls: seq<string>) returns (level: nat)
    requires Counted(ls, |ls|, counts) && total == HeadingTotal(ls, |ls|)
    ensures level == DominantLevel(ls)
  {
    if total == 0 {
      NothingCounted(ls);
      return 0;
    }
    for l := 1 to 7
      invariant Shallowest(ls, 1) == Shallowest(ls, l)
    {
      if counts[l] >= 3 {
        return l;
      }
    }
    var deep := 6;
    while deep >= 1
      invariant 0 <= deep <= 6 && Deepest(ls, 6) == Deepest(ls, deep)
    {
      if counts[deep] > 0 {
        return deep;
      }
      deep := deep - 1;
    }
    level := 0;
  }

  lemma {:induction false} CountWithinTotal(ls: seq<string>, level: nat, n: nat)
    requires level > 0 && n <= |ls|
    ensures HeadingCount(ls, level, n) <= HeadingTotal(ls, n)
  {
    hide LevelAt;
    if n == 0 {
    } else {
      CountWithinTotal(ls, level, n - 1);
    }
  }

  /** The total counts the headings of all six levels. */
  lemma {:induction false} TotalIsSum(ls: seq<string>, n: nat)
    requires n <= |ls|
    ensures HeadingTotal(ls, n) == HeadingCount(ls, 1, n) + HeadingCount(ls, 2, n) + HeadingCount(ls, 3, n)
                                   + HeadingCount(ls, 4, n) + HeadingCount(ls, 5, n) + HeadingCount(ls, 6, n)
  {
    if n == 0 {
    } else {
      assert LevelAt(ls, n - 1) <= 6;
      hide LevelAt;
      TotalIsSum(ls, n - 1);
    }
  }

  lemma NothingCounted(ls: seq<string>)
    requires HeadingTotal(ls, |ls|) == 0
    ensures DominantLevel(ls) == 0
  {
    hide LevelAt;
    forall level: nat ensures level > 0 ==> !Occurs(ls, level) && !Carries(ls, level) {
      if level > 0 {
        CountWithinTotal(ls, level, |ls|);
      }
    }
    hide Occurs, Carries;
    ShallowestIs(ls, 1);
    DeepestIs(ls, 6);
  }

  // ---- what the dominant level is ----------------------------------------------

  lemma {:induction false} ShallowestIs(ls: seq<string>, level: nat)
    requires level >= 1
    ensures var s := Shallowest(ls, level);
            && (s == 0 <==> forall l :: level <= l <= 6 ==> !Carries(ls, l))
            && (s > 0 ==> level <= s <= 6 && Carries(ls, s) && forall l :: level <= l < s ==> !Carries(ls, l))
    decreases 7 - level
  {
    hide Carries;
    if level > 6 {
    } else {
      ShallowestIs(ls, level + 1);
    }
  }

  lemma {:induction false} DeepestIs(ls: seq<string>, level: nat)
    ensures var d := Deepest(ls, level);
            && d <= level && (d > 0 ==> Occurs(ls, d)) && forall l :: d < l <= level ==> !Occurs(ls, l)
  {
    hide Occurs;
    if level == 0 {
    } else {
      DeepestIs(ls, level - 1);
    }
  }

  /** The shallowest level with at least three headings; else the deepest that occurs; 0 when none does. */
  lemma DominantMeans(ls: seq<string>)
    ensures var d := DominantLevel(ls);
            && d <= 6
            && (d == 0 <==> forall l :: 1 <= l <= 6 ==> HeadingCount(ls, l, |ls|) == 0)
            && (if exists l :: 1 <= l <= 6 && HeadingCount(ls, l, |ls|) >= 3
                then 1 <= d && HeadingCount(ls, d, |ls|) >= 3 && forall l :: 1 <= l < d ==> HeadingCount(ls, l, |ls|) < 3
                else (d > 0 ==> HeadingCount(ls, d, |ls|) > 0) && forall l :: d < l <= 6 ==> HeadingCount(ls, l, |ls|) == 0)
  {
    hide HeadingCount, DominantLevel;
    DominantLevelIs(ls);
    forall l: nat ensures (Carries(ls, l) <==> HeadingCount(ls, l, |ls|) >= 3) && (Occurs(ls, l) <==> HeadingCount(ls, l, |ls|) > 0) {
    }
    hide Carries, Occurs;
    var d := DominantLevel(ls);
    if exists l :: 1 <= l <= 6 && HeadingCount(ls, l, |ls|) >= 3 {
      var l :| 1 <= l <= 6 && HeadingCount(ls, l, |ls|) >= 3;
      assert Carries(ls, l);
      assert HeadingCount(ls, d, |ls|) >= 3;
    } else {
      assert !exists l :: 1 <= l <= 6 && Carries(ls, l);
    }
  }

  lemma DominantLevelIs(ls: seq<string>)
    ensures var d := DominantLevel(ls);
            && d <= 6
            && (d == 0 <==> forall l :: 1 <= l <= 6 ==> !Occurs(ls, l))
            && (if exists l :: 1 <= l <= 6 && Carries(ls, l)
                then 1 <= d && Carries(ls, d) && forall l :: 1 <= l < d ==> !Carries(ls, l)
                else (d > 0 ==> Occurs(ls, d)) && forall l :: d < l <= 6 ==> !Occurs(ls, l))
  {
    ShallowestIs(ls, 1);
    DeepestIs(ls, 6);
    if Shallowest(ls, 1) > 0 {
      CarriesOccurs(ls, Shallowest(ls, 1));
    }
    hide Occurs, Carries;
  }

  lemma {:induction false} Counts(ls: seq<string>, i: nat, n: nat)
    requires i < n <= |ls|
    ensures HeadingCount(ls, LevelAt(ls, i), n) > 0
  {
    hide LevelAt;
    if i == n - 1 {
    } else {
      Counts(ls, i, n - 1);
    }
  }

  /** A heading is deeper than the dominant level exactly when some shallower level occurs at least three times. */
  lemma DeeperThanDominant(ls: seq<string>, i: nat)
    requires i < |ls| && LevelAt(ls, i) > 0
    ensures LevelAt(ls, i) > DominantLevel(ls) <==> exists l :: 1 <= l < LevelAt(ls, i) && Carries(ls, l)
  {
    assert LevelAt(ls, i) <= 6;
    hide LevelAt;
    Counts(ls, i, |ls|);
    DominantLevelIs(ls);
    assert Occurs(ls, LevelAt(ls, i));
    hide Occurs, DominantLevel;
    forall l | Carries(ls, l) ensures Occurs(ls, l) {
      CarriesOccurs(ls, l);
    }
  }

  lemma CarriesOccurs(ls: seq<string>, level: nat)
    requires Carries(ls, level)
    ensures Occurs(ls, level)
  {
  }

  /** SelectStrategy's test for a heading backbone; density is the share of lines that are headings. */
  predicate HeadingBackbone(ls: seq<string>) {
    && ls != [] && HeadingTotal(ls, |ls|) >= 3
    && HeadingTotal(ls, |ls|) as real / |ls| as real > 0.005
    && DominantLevel(ls) > 0
  }

  /** At least three headings, and more than one for every 200 lines; there is a dominant level then. */
  lemma BackboneMeans(ls: seq<string>)
    ensures HeadingBackbone(ls) <==> HeadingTotal(ls, |ls|) >= 3 && 200 * HeadingTotal(ls, |ls|) > |ls|
  {
    hide DominantLevel, HeadingCount, HeadingTotal;
    if ls == [] {
      NoLines();
    } else {
      Density(HeadingTotal(ls, |ls|), |ls|);
      TotalIsSum(ls, |ls|);
      DominantMeans(ls);
    }
  }

  lemma NoLines()
    ensures HeadingTotal([], 0) == 0
  {
  }

  lemma Density(n: int, lines: int)
    requires lines > 0
    ensures n as real / lines as real > 0.005 <==> 200 * n > lines
  {
    var d := n as real / lines as real;
    assert d * lines as real == n as real;
    if d > 0.005 {
      Scaled(0.005, d, lines as real);
    } else {
      Scaled(d, 0.005, lines as real);
    }
  }

  lemma Scaled(a: real, b: real, c: real)
    requires a <= b && c > 0.0
    ensures a * c <= b * c && (a < b ==> a * c < b * c)
  {
  }
}
