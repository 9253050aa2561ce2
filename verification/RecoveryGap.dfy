/** Why the timing condition is needed: without it, every configuration strands a shard. */
module RecoveryGap {
  import opened Chunks
  import opened ShardTables
  import opened Protocol
  import opened Recovery
  import opened Scenes

  function LeaseEnd(p: Params): int { p.claimDelay + p.lease }

  function Reclaimed(p: Params): int { LeaseEnd(p) + p.passSpan }

  function TheRow(p: Params): Row { ClaimedRow(p, p.claimDelay) }

  function TheClaim(p: Params): ClaimRecord { ClaimRecord(0, K, LeaseEnd(p)) }

  function Dead(p: Params): Worker { Worker(K, Stopped, 0, p.claimDelay) }

  // ---- a worker claims as late as it may and dies; a pass reaps in the instant the lease ends,
  // ---- too early, and then reclaims ----------------------------------------------------

  function Later(p: Params, now: int, reapedAt: Option<int>): State {
    Held(p, p.claimDelay, Stopped).(now := now, reapedAt := reapedAt)
  }

  function Stale(p: Params, readded: bool): Entry { Entry(K, true, Reclaimed(p), 2, true, readded) }

  function Swapped(p: Params, jobs: map<nat, Entry>, workers: map<nat, Worker>, nextId: nat): State {
    Plain(Reclaimed(p), Some(LeaseEnd(p)), RowsWith(TheRow(p)), jobs, workers, nextId, {TheClaim(p)})
  }

  lemma LeaseRunsOut(p: Params)
    requires p.Valid()
    ensures Steps(p, Held(p, p.claimDelay, Stopped), Tick(p.lease), Later(p, LeaseEnd(p), None))
  {
  }

  lemma ReapingTooEarly(p: Params)
    ensures Steps(p, Later(p, LeaseEnd(p), None), ReapLeases, Later(p, LeaseEnd(p), Some(LeaseEnd(p))))
  {
    assert Reap(RowsWith(TheRow(p)), LeaseEnd(p)).shards == map[K := TheRow(p)];
  }

  lemma PassGoesOn(p: Params)
    requires p.Valid()
    ensures Steps(p, Later(p, LeaseEnd(p), Some(LeaseEnd(p))), Tick(p.passSpan), Later(p, Reclaimed(p), Some(LeaseEnd(p))))
  {
  }

  lemma Reclaiming(p: Params)
    requires p.Valid() && !Timely(p)
    ensures Steps(p, Later(p, Reclaimed(p), Some(LeaseEnd(p))), AutoClaim(0), Swapped(p, map[0 := Stale(p, false)], map[0 := Dead(p)], 1))
  {
  }

  lemma Readding(p: Params)
    ensures Steps(p, Swapped(p, map[0 := Stale(p, false)], map[0 := Dead(p)], 1), Readd(0),
                  Swapped(p, map[0 := Stale(p, true), 1 := FreshEntry(K)], map[0 := Dead(p)], 2))
  {
  }

  lemma DroppingTheOld(p: Params)
    ensures Steps(p, Swapped(p, map[0 := Stale(p, true), 1 := FreshEntry(K)], map[0 := Dead(p)], 2), AckReadded(0),
                  Swapped(p, map[1 := FreshEntry(K)], map[0 := Dead(p)], 2))
  {
    assert map[0 := Stale(p, true), 1 := FreshEntry(K)] - {0} == map[1 := FreshEntry(K)];
  }

  function PassRun(p: Params, run: seq<Event>): seq<Event>
    requires p.Valid()
  {
    run + [Tick(p.lease)] + [ReapLeases] + [Tick(p.passSpan)]
  }

  lemma PassReaps(p: Params, run: seq<Event>)
    requires p.Valid() && After(p, run) == Some(Held(p, p.claimDelay, Stopped))
    ensures After(p, PassRun(p, run)) == Some(Later(p, Reclaimed(p), Some(LeaseEnd(p))))
  {
    hide Steps, Held, Later;
    LeaseRunsOut(p);
    Then(p, run, Held(p, p.claimDelay, Stopped), Tick(p.lease), Later(p, LeaseEnd(p), None));
    ReapingTooEarly(p);
    Then(p, run + [Tick(p.lease)], Later(p, LeaseEnd(p), None), ReapLeases, Later(p, LeaseEnd(p), Some(LeaseEnd(p))));
    PassGoesOn(p);
    Then(p, run + [Tick(p.lease)] + [ReapLeases], Later(p, LeaseEnd(p), Some(LeaseEnd(p))), Tick(p.passSpan),
         Later(p, Reclaimed(p), Some(LeaseEnd(p))));
  }

  function ReclaimRun(run: seq<Event>): seq<Event> { run + [AutoClaim(0)] + [Readd(0)] + [AckReadded(0)] }

  lemma PassReclaims(p: Params, run: seq<Event>)
    requires p.Valid() && !Timely(p) && After(p, run) == Some(Later(p, Reclaimed(p), Some(LeaseEnd(p))))
    ensures After(p, ReclaimRun(run)) == Some(Swapped(p, map[1 := FreshEntry(K)], map[0 := Dead(p)], 2))
  {
    hide Steps, Later, Swapped;
    var w := map[0 := Dead(p)];
    Reclaiming(p);
    Then(p, run, Later(p, Reclaimed(p), Some(LeaseEnd(p))), AutoClaim(0), Swapped(p, map[0 := Stale(p, false)], w, 1));
    Readding(p);
    Then(p, run + [AutoClaim(0)], Swapped(p, map[0 := Stale(p, false)], w, 1), Readd(0),
         Swapped(p, map[0 := Stale(p, true), 1 := FreshEntry(K)], w, 2));
    DroppingTheOld(p);
    Then(p, run + [AutoClaim(0)] + [Readd(0)], Swapped(p, map[0 := Stale(p, true), 1 := FreshEntry(K)], w, 2), AckReadded(0),
         Swapped(p, map[1 := FreshEntry(K)], w, 2));
  }

  // ---- the fresh copy meets a row that still looks taken, and is acknowledged away --

  function Second(p: Params): map<nat, Entry> { map[1 := Entry(K, true, Reclaimed(p), 1, false, false)] }

  function Both(p: Params, phase: Phase): map<nat, Worker> { map[0 := Dead(p), 1 := Worker(K, phase, Reclaimed(p), 0)] }

  function Stranded(p: Params): State {
    Plain(Reclaimed(p) + 1, Some(Reclaimed(p) + 1), RowsWith(Row(1, 1, Pending, 1, None, None)), map[], Both(p, Stopped), 2, {TheClaim(p)})
  }

  lemma ReadingAgain(p: Params)
    ensures Steps(p, Swapped(p, map[1 := FreshEntry(K)], map[0 := Dead(p)], 2), Deliver(1), Swapped(p, Second(p), Both(p, Reading), 2))
  {
  }

  lemma Refused(p: Params)
    requires p.Valid()
    ensures Steps(p, Swapped(p, Second(p), Both(p, Reading), 2), ClaimRow(1, Reclaimed(p)), Swapped(p, Second(p), Both(p, Closing), 2))
  {
  }

  lemma Acknowledging(p: Params)
    ensures Steps(p, Swapped(p, Second(p), Both(p, Closing), 2), Ack(1), Swapped(p, map[], Both(p, Stopped), 2))
  {
    assert Second(p) - {1} == map[];
  }

  lemma OneSecondLater(p: Params)
    ensures Steps(p, Swapped(p, map[], Both(p, Stopped), 2), Tick(1), Swapped(p, map[], Both(p, Stopped), 2).(now := Reclaimed(p) + 1))
  {
  }

  lemma ReapingTooLate(p: Params)
    requires p.Valid()
    ensures Steps(p, Swapped(p, map[], Both(p, Stopped), 2).(now := Reclaimed(p) + 1), ReapLeases, Stranded(p))
  {
    assert Expired(TheRow(p), Reclaimed(p) + 1);
    assert Reap(RowsWith(TheRow(p)), Reclaimed(p) + 1).shards == map[K := Row(1, 1, Pending, 1, None, None)];
  }

  function RefusedRun(p: Params, run: seq<Event>): seq<Event> { run + [Deliver(1)] + [ClaimRow(1, Reclaimed(p))] + [Ack(1)] }

  lemma AckedAway(p: Params, run: seq<Event>)
    requires p.Valid() && After(p, run) == Some(Swapped(p, map[1 := FreshEntry(K)], map[0 := Dead(p)], 2))
    ensures After(p, RefusedRun(p, run)) == Some(Swapped(p, map[], Both(p, Stopped), 2))
  {
    hide Steps, Swapped, Second, Both;
    ReadingAgain(p);
    Then(p, run, Swapped(p, map[1 := FreshEntry(K)], map[0 := Dead(p)], 2), Deliver(1), Swapped(p, Second(p), Both(p, Reading), 2));
    Refused(p);
    Then(p, run + [Deliver(1)], Swapped(p, Second(p), Both(p, Reading), 2), ClaimRow(1, Reclaimed(p)), Swapped(p, Second(p), Both(p, Closing), 2));
    Acknowledging(p);
    Then(p, run + [Deliver(1)] + [ClaimRow(1, Reclaimed(p))], Swapped(p, Second(p), Both(p, Closing), 2), Ack(1),
         Swapped(p, map[], Both(p, Stopped), 2));
  }

  lemma ReapedWithoutAJob(p: Params, run: seq<Event>)
    requires p.Valid() && After(p, run) == Some(Swapped(p, map[], Both(p, Stopped), 2))
    ensures After(p, run + [Tick(1)] + [ReapLeases]) == Some(Stranded(p))
  {
    hide Steps, Swapped, Stranded, Both;
    OneSecondLater(p);
    Then(p, run, Swapped(p, map[], Both(p, Stopped), 2), Tick(1), Swapped(p, map[], Both(p, Stopped), 2).(now := Reclaimed(p) + 1));
    ReapingTooLate(p);
    Then(p, run + [Tick(1)], Swapped(p, map[], Both(p, Stopped), 2).(now := Reclaimed(p) + 1), ReapLeases, Stranded(p));
  }

  /** A shard that is no longer worked on, with no job anywhere and nothing said about it. */
  lemma StrandedIsInvisible(p: Params)
    ensures OutOfReach(p, Swapped(p, map[], Both(p, Stopped), 2), K) && Swapped(p, map[], Both(p, Stopped), 2).t.shards[K].attempts == 1
    ensures p.maxAttempts >= 2 ==> OutOfReach(p, Stranded(p), K)
  {
    assert !Live(Swapped(p, map[], Both(p, Stopped), 2), K) && !Live(Stranded(p), K);
  }

  lemma NothingQueued(p: Params)
    requires p.Valid()
    ensures FanOutOnly(RefusedRun(p, ReclaimRun(PassRun(p, ClaimAndDie(p.claimDelay)))))
  {
  }

  /** Its row still says running; and reaping does not help, unless its only attempt is spent. */
  lemma UntimelyStrands(p: Params) returns (run: seq<Event>)
    requires p.Valid() && !Timely(p)
    ensures After(p, run).Some? && OutOfReach(p, After(p, run).value, K) && FanOutOnly(run)
    ensures After(p, run).value.t.shards[K].attempts == 1
    ensures var reaped := run + [Tick(1)] + [ReapLeases];
            p.maxAttempts >= 2 ==> After(p, reaped).Some? && OutOfReach(p, After(p, reaped).value, K)
  {
    hide After, ClaimAndDie, PassRun, ReclaimRun, RefusedRun, Stranded, Held, Later, Swapped, Both, Timely, OutOfReach, FanOutOnly;
    ClaimedThenDead(p, p.claimDelay);
    run := ClaimAndDie(p.claimDelay);
    PassReaps(p, run);
    run := PassRun(p, run);
    PassReclaims(p, run);
    run := ReclaimRun(run);
    AckedAway(p, run);
    run := RefusedRun(p, run);
    ReapedWithoutAJob(p, run);
    StrandedIsInvisible(p);
    NothingQueued(p);
  }
}
