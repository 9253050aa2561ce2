/** The retry ladder: when a failing shard is cut into finer ones, and into which. */
module Ladder {
  import opened Numbers
  import opened Sharding

  /** The part of a shard row the ladder looks at; attempts counts the current one. */
  datatype Shard = Shard(pageStart: int, pageEnd: int, attempts: int) {
    function Span(): int { pageEnd - pageStart + 1 }
  }

  datatype Action = Resplit | TextOnly

  function LadderAction(shard: Shard, shardPages: int): Action {
    var span := shard.Span();
    if span < 2 then TextOnly
    else if shard.attempts == 2 && span >= 4 * Max(1, shardPages / 4) / 2 then Resplit
    else if shard.attempts == 3 && span >= 2 then Resplit
    else TextOnly
  }

  /** Pages per sub-shard: a quarter of the shard, then single pages. */
  function SubShardPages(shard: Shard): int {
    if shard.attempts < 3 then Max(1, shard.Span() / 4) else 1
  }

  lemma SubShardSize(shard: Shard)
    ensures SubShardPages(shard) >= 1
  {
  }

  /** The sub-shards' page ranges, in the document's pages. */
  method ResplitBounds(shard: Shard) returns (r: Result<seq<ShardBound>, SplitError>)
    ensures if shard.Span() < 1 then r == Err(BadPageCount(shard.Span()))
            else r.Ok? && Tiling(r.value, shard.pageStart, shard.pageEnd, SubShardPages(shard))
                 && |r.value| == (shard.Span() + SubShardPages(shard) - 1) / SubShardPages(shard)
                 && Full(r.value, shard.pageEnd, SubShardPages(shard), {})
  {
    hide Windows, Complete, Tiling, Full, SubShardPages;
    var span := shard.Span();
    SubShardSize(shard);
    var fb := FixedBounds(span, SubShardPages(shard), 0);
    if fb.Err? {
      return fb;
    }
    NoOverlapTiles(fb.value, span, SubShardPages(shard));
    WindowsFull(fb.value, span, SubShardPages(shard));
    var bounds: seq<ShardBound> := [];
    for i := 0 to |fb.value|
      invariant |bounds| == i
      invariant forall k :: 0 <= k < i ==>
                  bounds[k] == ShardBound(k, shard.pageStart + fb.value[k].pageStart - 1, shard.pageStart + fb.value[k].pageEnd - 1)
    {
      var b := fb.value[i];
      bounds := bounds + [ShardBound(i, shard.pageStart + b.pageStart - 1, shard.pageStart + b.pageEnd - 1)];
    }
    r := Ok(bounds);
    ShiftedTiling(fb.value, bounds, shard.pageStart - 1, span, SubShardPages(shard));
    ShiftedFull(fb.value, bounds, 0, shard.pageStart - 1, span, SubShardPages(shard));
  }

  /**
   * The rungs: the second attempt cuts a shard into four to seven parts, or into single pages when it
   * has fewer than four; the third cuts whatever still has two pages into single pages; no other
   * attempt cuts anything.
   */
  lemma Rungs(shard: Shard, shardPages: int, bs: seq<ShardBound>)
    requires shard.Span() >= 1 && Tiling(bs, shard.pageStart, shard.pageEnd, SubShardPages(shard))
    requires |bs| == (shard.Span() + SubShardPages(shard) - 1) / SubShardPages(shard)
    ensures LadderAction(shard, shardPages) == Resplit ==> shard.attempts in {2, 3} && shard.Span() >= 2
    ensures shard.attempts == 3 ==> (LadderAction(shard, shardPages) == Resplit <==> shard.Span() >= 2) && |bs| == shard.Span()
    ensures shard.attempts == 2 && shard.Span() >= 4 ==> 4 <= |bs| <= 7
    ensures shard.attempts == 2 && shard.Span() < 4 ==> |bs| == shard.Span()
    ensures shard.attempts == 2 && shard.Span() == shardPages >= 2 ==> LadderAction(shard, shardPages) == Resplit
  {
    if shard.attempts == 2 && shard.Span() >= 4 {
      Quarters(shard.Span());
    }
  }

  lemma Quarters(span: int)
    requires span >= 4
    ensures 4 <= (span + span / 4 - 1) / (span / 4) <= 7
  {
    var q, r := span / 4, span % 4;
    var n := if r == 0 then 4 else if r <= q then 5 else if r <= 2 * q then 6 else 7;
    RoundsUp(span, q, n);
  }

  /** The sub-shards of a shard: any range of any tiling the ladder may use. */
  ghost predicate SubShard(shard: Shard, sub: Shard, shardPages: int) {
    && LadderAction(shard, shardPages) == Resplit
    && exists bs: seq<ShardBound>, i: int {:trigger Tiling(bs, shard.pageStart, shard.pageEnd, SubShardPages(shard)), bs[i]} ::
         && Tiling(bs, shard.pageStart, shard.pageEnd, SubShardPages(shard)) && 0 <= i < |bs|
         && sub.pageStart == bs[i].pageStart && sub.pageEnd == bs[i].pageEnd
  }

  /** A resplit yields at least two sub-shards, each strictly shorter than its parent. */
  lemma ResplitShrinks(shard: Shard, shardPages: int, bs: seq<ShardBound>)
    requires LadderAction(shard, shardPages) == Resplit && Tiling(bs, shard.pageStart, shard.pageEnd, SubShardPages(shard))
    ensures |bs| >= 2
    ensures forall i :: 0 <= i < |bs| ==> 1 <= bs[i].pageEnd - bs[i].pageStart + 1 < shard.Span()
    ensures CoversPages(bs, shard.pageStart, shard.pageEnd)
  {
    GaplessCovers(bs, shard.pageStart, |bs|);
  }

  lemma SubShardShorter(shard: Shard, sub: Shard, shardPages: int)
    requires SubShard(shard, sub, shardPages)
    ensures 1 <= sub.Span() < shard.Span()
  {
    var bs: seq<ShardBound>, i: int :| Tiling(bs, shard.pageStart, shard.pageEnd, SubShardPages(shard)) && 0 <= i < |bs|
                 && sub.pageStart == bs[i].pageStart && sub.pageEnd == bs[i].pageEnd;
    ResplitShrinks(shard, shardPages, bs);
  }

  /** The ladder ends: resplitting sub-shards of sub-shards can go on for fewer rounds than there are pages. */
  lemma {:induction false} LadderEnds(chain: seq<Shard>, shardPages: int)
    requires chain != [] && chain[0].Span() >= 1
    requires forall i, j :: 0 <= i < |chain| && j == i + 1 && j < |chain| ==> SubShard(chain[i], chain[j], shardPages)
    ensures |chain| <= chain[0].Span()
    decreases |chain|
  {
    hide SubShard;
    if |chain| <= 1 {
    } else {
      SubShardShorter(chain[0], chain[1], shardPages);
      forall i, j | 0 <= i < |chain[1..]| && j == i + 1 && j < |chain[1..]| ensures SubShard(chain[1..][i], chain[1..][j], shardPages) {
        assert SubShard(chain[i + 1], chain[j + 1], shardPages);
      }
      LadderEnds(chain[1..], shardPages);
    }
  }
}
