/** A pass that fails between dropping a dead entry and writing its event strands the shard. */
module LetterGap {
  import opened Chunks
  import opened ShardTables
  import opened Protocol
  import opened Recovery
  import opened Scenes

  /** When the claim of time 0 has expired. */
  function Start(p: Params): int { p.lease + 1 }

  /** The moment of the i-th reclaim of the dead worker's entry, the first being that of the reaping. */
  function Moment(p: Params, i: nat): int { Start(p) + RECLAIM_IDLE * i }

  function Returned(): Tables { RowsWith(Row(1, 1, Pending, 1, None, None)) }

  function Tried(p: Params, i: nat): Entry {
    if i == 0 then FirstEntry() else Entry(K, true, Moment(p, i), i + 1, true, false)
  }

  function Idle(p: Params, now: int, reapedAt: int, i: nat): State {
    Plain(now, Some(reapedAt), Returned(), map[0 := Tried(p, i)], map[0 := Worker(K, Stopped, 0, 0)], 1, {ClaimRecord(0, K, p.lease)})
  }

  function Expiring(p: Params): State { Held(p, 0, Stopped).(now := Start(p)) }

  lemma LeasePasses(p: Params)
    requires p.Valid()
    ensures Steps(p, Held(p, 0, Stopped), Tick(p.lease + 1), Expiring(p))
  {
  }

  lemma RowReturns(p: Params)
    requires p.Valid()
    ensures Steps(p, Expiring(p), ReapLeases, Idle(p, Start(p), Start(p), 0))
  {
    assert Expired(ClaimedRow(p, 0), Start(p));
    assert Reap(RowsWith(ClaimedRow(p, 0)), Start(p)).shards == Returned().shards;
  }

  lemma TimePasses(p: Params, i: nat)
    ensures Steps(p, Idle(p, Moment(p, i), Moment(p, i), i), Tick(1200), Idle(p, Moment(p, i + 1), Moment(p, i), i))
  {
  }

  lemma NextPass(p: Params, i: nat)
    ensures Steps(p, Idle(p, Moment(p, i + 1), Moment(p, i), i), ReapLeases, Idle(p, Moment(p, i + 1), Moment(p, i + 1), i))
  {
    assert Reap(Returned(), Moment(p, i + 1)).shards == Returned().shards;
  }

  /** The pass claims the entry and then fails to add it again. */
  lemma ClaimedAgain(p: Params, i: nat)
    requires p.Valid()
    ensures Steps(p, Idle(p, Moment(p, i + 1), Moment(p, i + 1), i), AutoClaim(0), Idle(p, Moment(p, i + 1), Moment(p, i + 1), i + 1))
  {
    assert Tried(p, i).idleSince <= Moment(p, i);
  }

  lemma NotQueued(run: seq<Event>, ev: Event)
    requires FanOutOnly(run) && !ev.Enqueue?
    ensures FanOutOnly(run + [ev])
  {
  }

  lemma {:induction false} Tries(p: Params, run: seq<Event>, i: nat) returns (more: seq<Event>)
    requires p.Valid() && After(p, run) == Some(Idle(p, Start(p), Start(p), 0)) && FanOutOnly(run)
    ensures After(p, more) == Some(Idle(p, Moment(p, i), Moment(p, i), i)) && FanOutOnly(more)
  {
    hide Steps, Idle, FanOutOnly;
    if i == 0 {
      more := run;
    } else {
      more := Tries(p, run, i - 1);
      TimePasses(p, i - 1);
      Then(p, more, Idle(p, Moment(p, i - 1), Moment(p, i - 1), i - 1), Tick(1200), Idle(p, Moment(p, i), Moment(p, i - 1), i - 1));
      NotQueued(more, Tick(1200));
      more := more + [Tick(1200)];
      NextPass(p, i - 1);
      Then(p, more, Idle(p, Moment(p, i), Moment(p, i - 1), i - 1), ReapLeases, Idle(p, Moment(p, i), Moment(p, i), i - 1));
      NotQueued(more, ReapLeases);
      more := more + [ReapLeases];
      ClaimedAgain(p, i - 1);
      Then(p, more, Idle(p, Moment(p, i), Moment(p, i), i - 1), AutoClaim(0), Idle(p, Moment(p, i), Moment(p, i), i));
      NotQueued(more, AutoClaim(0));
      more := more + [AutoClaim(0)];
    }
  }

  /** The entry is gone, and the pass is to write its event. */
  function Unwritten(p: Params, i: nat): State {
    Idle(p, Moment(p, i), Moment(p, i), i).(jobs := map[], quarantined := {DeadLetter(0, K)}, descriptors := {0})
  }

  function Unheard(p: Params, i: nat): State {
    Unwritten(p, i).(reapedAt := None, descriptors := {}, lost := {0})
  }

  lemma Dropping(p: Params, i: nat)
    requires i >= 1 && i + 1 == p.DeliveryCap()
    ensures Steps(p, Idle(p, Moment(p, i), Moment(p, i), i), Quarantine(0), Unwritten(p, i))
  {
    assert map[0 := Tried(p, i)] - {0} == map[];
  }

  lemma Failing(p: Params, i: nat)
    requires p.eventsFail
    ensures Steps(p, Unwritten(p, i), AbortPass, Unheard(p, i))
  {
  }

  lemma UnheardIsOutOfReach(p: Params, i: nat)
    requires p.maxAttempts >= 2
    ensures OutOfReach(p, Unheard(p, i), K) && Unheard(p, i).t.shards[K].attempts == 1
  {
    assert !Live(Unheard(p, i), K) && !Recorded(Unheard(p, i), K);
  }

  /** Every configuration in which events may fail has a run that strands a shard. */
  lemma LostLetterStrands(p: Params) returns (run: seq<Event>)
    requires p.Valid() && p.maxAttempts >= 2 && p.eventsFail
    ensures After(p, run).Some? && OutOfReach(p, After(p, run).value, K) && Dropped(run, 0) && FanOutOnly(run)
    ensures After(p, run).value.t.shards[K].attempts == 1
  {
    hide After, Steps, ClaimAndDie, Held, Expiring, Idle, Unwritten, Unheard, OutOfReach, FanOutOnly;
    var n := p.DeliveryCap() - 1;
    ClaimedThenDead(p, 0);
    run := ClaimAndDie(0);
    QueuedOnce();
    LeasePasses(p);
    Then(p, run, Held(p, 0, Stopped), Tick(p.lease + 1), Expiring(p));
    NotQueued(run, Tick(p.lease + 1));
    run := run + [Tick(p.lease + 1)];
    NotQueued(run, ReapLeases);
    RowReturns(p);
    Then(p, run, Expiring(p), ReapLeases, Idle(p, Start(p), Start(p), 0));
    run := Tries(p, run + [ReapLeases], n);
    Dropping(p, n);
    Then(p, run, Idle(p, Moment(p, n), Moment(p, n), n), Quarantine(0), Unwritten(p, n));
    NotQueued(run, Quarantine(0));
    run := run + [Quarantine(0)];
    Failing(p, n);
    Then(p, run, Unwritten(p, n), AbortPass, Unheard(p, n));
    NotQueued(run, AbortPass);
    run := run + [AbortPass];
    UnheardIsOutOfReach(p, n);
    LostExactly(p, run, 0);
    InLost(p, n);
  }

  lemma QueuedOnce()
    ensures FanOutOnly(ClaimAndDie(0))
  {
  }

  lemma InLost(p: Params, i: nat)
    ensures 0 in Unheard(p, i).lost
  {
  }
}
