/** Whether a tier's output is good enough to ship. */
module Validation {
  import opened Chunks

  datatype Verdict = Accepted | NoChunks | SingleChunk | TooManyTiny | FarBelowTarget | OverTwiceTarget

  predicate SomeHasLen(cs: seq<Chunk>, n: nat) {
    exists i :: 0 <= i < |cs| && |cs[i].content| == n
  }

  function MaxLen(cs: seq<Chunk>): (n: nat)
    ensures forall i :: 0 <= i < |cs| ==> |cs[i].content| <= n
    ensures if cs == [] then n == 0 else SomeHasLen(cs, n)
  {
    if cs == [] then 0
    else
      var front := cs[..|cs| - 1];
      var rest, l := MaxLen(front), |cs[|cs| - 1].content|;
      assert front != [] ==> SomeHasLen(cs, rest) by {
        if front != [] {
          var i :| 0 <= i < |front| && |front[i].content| == rest;
          assert |cs[i].content| == rest;
        }
      }
      if l > rest then l else rest
  }

  /** How many chunks are under 50 runes. */
  function TinyCount(cs: seq<Chunk>): nat {
    if cs == [] then 0 else TinyCount(cs[..|cs| - 1]) + if |cs[|cs| - 1].content| < 50 then 1 else 0
  }

  /** The first objection to a chunk set for a document of total runes, if any. */
  function Judged(cs: seq<Chunk>, total: nat, chunkSize: int): Verdict {
    if cs == [] then NoChunks
    else if |cs| == 1 && total > 2 * chunkSize then SingleChunk
    else if TinyCount(cs[..|cs| - 1]) > |cs| / 4 && TinyCount(cs[..|cs| - 1]) > 2 then TooManyTiny
    else if chunkSize > 0 && MaxLen(cs) < chunkSize / 4 && total > chunkSize then FarBelowTarget
    else if chunkSize > 0 && MaxLen(cs) > 2 * chunkSize then OverTwiceTarget
    else Accepted
  }

  method ValidateChunks(cs: seq<Chunk>, total: nat, chunkSize: int) returns (v: Verdict)
    ensures v == Judged(cs, total, chunkSize)
  {
    if |cs| == 0 {
      return NoChunks;
    }
    if |cs| == 1 && total > 2 * chunkSize {
      return SingleChunk;
    }
    var maxLen := 0;
    for i := 0 to |cs|
      invariant maxLen == MaxLen(cs[..i])
    {
      assert cs[..i + 1][..i] == cs[..i];
      var l := |cs[i].content|;
      if l > maxLen {
        maxLen := l;
      }
    }
    assert cs[..|cs|] == cs;
    var tinyCount := 0;
    for i := 0 to |cs|
      invariant tinyCount == TinyCount(cs[..if i < |cs| then i else i - 1])
    {
      if i == |cs| - 1 {
        continue;
      }
      assert cs[..i + 1][..i] == cs[..i];
      if |cs[i].content| < 50 {
        tinyCount := tinyCount + 1;
      }
    }
    if tinyCount > |cs| / 4 && tinyCount > 2 {
      return TooManyTiny;
    }
    if chunkSize > 0 && maxLen < chunkSize / 4 && total > chunkSize {
      return FarBelowTarget;
    }
    if chunkSize > 0 && maxLen > 2 * chunkSize {
      return OverTwiceTarget;
    }
    v := Accepted;
  }

  /** The chunks under 50 runes, but for the last one, whose size does not matter. */
  function TinyOnes(cs: seq<Chunk>): set<nat> {
    set i: nat | i < |cs| - 1 && |cs[i].content| < 50
  }

  /**
   * Each objection: nothing came out; a large document was not split; more than two chunks, and more
   * than a quarter of them, are tiny; none is near the target; one is far above it.
   */
  predicate Objects(cs: seq<Chunk>, total: nat, chunkSize: int, v: Verdict) {
    match v
    case Accepted => false
    case NoChunks => cs == []
    case SingleChunk => |cs| == 1 && total > 2 * chunkSize
    case TooManyTiny => |TinyOnes(cs)| > 2 && |TinyOnes(cs)| > |cs| / 4
    case FarBelowTarget => total > chunkSize > 0 && forall i :: 0 <= i < |cs| ==> |cs[i].content| < chunkSize / 4
    case OverTwiceTarget => chunkSize > 0 && exists i :: 0 <= i < |cs| && |cs[i].content| > 2 * chunkSize
  }

  lemma {:induction false} TinyCountIs(cs: seq<Chunk>, n: nat)
    requires n <= |cs|
    ensures TinyCount(cs[..n]) == |set i: nat | i < n && |cs[i].content| < 50|
  {
    var tiny := set i: nat | i < n && |cs[i].content| < 50;
    if n == 0 {
      assert tiny == {};
    } else {
      TinyCountIs(cs, n - 1);
      var fewer := set i: nat | i < n - 1 && |cs[i].content| < 50;
      assert cs[..n][..n - 1] == cs[..n - 1];
      assert tiny == if |cs[n - 1].content| < 50 then fewer + {n - 1} else fewer;
    }
  }

  /** A chunk set is accepted when there is no objection to it; otherwise the verdict is the first one. */
  lemma JudgedExactly(cs: seq<Chunk>, total: nat, chunkSize: int)
    ensures var v := Judged(cs, total, chunkSize);
            && (v == Accepted <==> forall w :: !Objects(cs, total, chunkSize, w))
            && (v != Accepted ==> Objects(cs, total, chunkSize, v) && forall w :: Earlier(w, v) ==> !Objects(cs, total, chunkSize, w))
  {
    if cs == [] {
      assert Objects(cs, total, chunkSize, NoChunks);
    } else {
      TinyCountIs(cs, |cs| - 1);
      assert TinyOnes(cs) == set i: nat | i < |cs| - 1 && |cs[i].content| < 50;
      LongestDecides(cs, chunkSize);
      hide MaxLen, TinyCount, TinyOnes;
      var v := Judged(cs, total, chunkSize);
      forall w | Objects(cs, total, chunkSize, w) ensures v != Accepted && !Earlier(w, v) {
        match w
        case NoChunks =>
        case SingleChunk =>
        case TooManyTiny =>
        case FarBelowTarget =>
        case OverTwiceTarget =>
        case Accepted =>
      }
      assert v != Accepted ==> Objects(cs, total, chunkSize, v);
    }
  }

  lemma LongestDecides(cs: seq<Chunk>, chunkSize: int)
    requires cs != []
    ensures MaxLen(cs) < chunkSize / 4 <==> forall i :: 0 <= i < |cs| ==> |cs[i].content| < chunkSize / 4
    ensures MaxLen(cs) > 2 * chunkSize <==> exists i :: 0 <= i < |cs| && |cs[i].content| > 2 * chunkSize
  {
    var n := MaxLen(cs);
    var i :| 0 <= i < |cs| && |cs[i].content| == n;
  }

  /** The order in which the objections are looked at. */
  function Rank(v: Verdict): nat {
    match v
    case NoChunks => 0
    case SingleChunk => 1
    case TooManyTiny => 2
    case FarBelowTarget => 3
    case OverTwiceTarget => 4
    case Accepted => 5
  }

  predicate Earlier(v: Verdict, w: Verdict) {
    Rank(v) < Rank(w)
  }

  /** An accepted set has chunks, none above twice the target, and really splits a large document. */
  lemma AcceptedMeans(cs: seq<Chunk>, total: nat, chunkSize: int)
    requires Judged(cs, total, chunkSize) == Accepted && chunkSize > 0
    ensures cs != [] && (forall i :: 0 <= i < |cs| ==> |cs[i].content| <= 2 * chunkSize)
    ensures total > 2 * chunkSize ==> |cs| > 1
    ensures total > chunkSize ==> exists i :: 0 <= i < |cs| && |cs[i].content| >= chunkSize / 4
  {
    var n := MaxLen(cs);
    var i :| 0 <= i < |cs| && |cs[i].content| == n;
  }
}
