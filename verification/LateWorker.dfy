/** Late handlers are real: one may still finish its shard while another one holds the claim. */
module LateWorker {
  import opened Chunks
  import opened ShardTables
  import opened Protocol
  import opened Leases
  import opened Scenes
  import opened Numbers

  /** When both the first claim and the first entry's idle time have run out. */
  function Late(p: Params): int { Max(RECLAIM_IDLE, p.lease + 1) }

  function Returned(): Tables { RowsWith(Row(1, 1, Pending, 1, None, None)) }

  function First(): Worker { Worker(K, Working, 0, 0) }

  function OldClaim(p: Params): ClaimRecord { ClaimRecord(0, K, p.lease) }

  function Meanwhile(p: Params, jobs: map<nat, Entry>, workers: map<nat, Worker>, nextId: nat): State {
    Plain(Late(p), Some(Late(p)), Returned(), jobs, workers, nextId, {OldClaim(p)})
  }

  function Old(p: Params, readded: bool): Entry { Entry(K, true, Late(p), 2, true, readded) }

  /** The first handler still works, without its entry; the second one has claimed. */
  function TwoAtWork(p: Params): State {
    Plain(Late(p), Some(Late(p)), RowsWith(Row(1, 1, Running, 2, Some(1), Some(Late(p) + p.lease))),
          map[1 := Entry(K, true, Late(p), 1, false, false)], map[0 := First(), 1 := Worker(K, Working, Late(p), Late(p))], 2,
          {OldClaim(p), ClaimRecord(1, K, Late(p) + p.lease)})
  }

  lemma TimePasses(p: Params)
    requires p.Valid()
    ensures Steps(p, Held(p, 0, Working), Tick(Late(p)), Held(p, 0, Working).(now := Late(p)))
  {
  }

  lemma RowReturns(p: Params)
    requires p.Valid()
    ensures Steps(p, Held(p, 0, Working).(now := Late(p)), ReapLeases, Meanwhile(p, map[0 := FirstEntry()], map[0 := First()], 1))
  {
    assert Expired(ClaimedRow(p, 0), Late(p));
    assert Reap(RowsWith(ClaimedRow(p, 0)), Late(p)).shards == Returned().shards;
  }

  lemma EntryReclaimed(p: Params)
    requires p.Valid()
    ensures Steps(p, Meanwhile(p, map[0 := FirstEntry()], map[0 := First()], 1), AutoClaim(0), Meanwhile(p, map[0 := Old(p, false)], map[0 := First()], 1))
  {
  }

  lemma EntryReadded(p: Params)
    ensures Steps(p, Meanwhile(p, map[0 := Old(p, false)], map[0 := First()], 1), Readd(0),
                  Meanwhile(p, map[0 := Old(p, true), 1 := FreshEntry(K)], map[0 := First()], 2))
  {
  }

  lemma EntryGone(p: Params)
    ensures Steps(p, Meanwhile(p, map[0 := Old(p, true), 1 := FreshEntry(K)], map[0 := First()], 2), AckReadded(0),
                  Meanwhile(p, map[1 := FreshEntry(K)], map[0 := First()], 2))
  {
    assert map[0 := Old(p, true), 1 := FreshEntry(K)] - {0} == map[1 := FreshEntry(K)];
  }

  function Read1(p: Params): State {
    Meanwhile(p, map[1 := Entry(K, true, Late(p), 1, false, false)], map[0 := First(), 1 := Worker(K, Reading, Late(p), 0)], 2)
  }

  lemma CopyDelivered(p: Params)
    ensures Steps(p, Meanwhile(p, map[1 := FreshEntry(K)], map[0 := First()], 2), Deliver(1), Read1(p))
  {
  }

  lemma CopyClaimed(p: Params)
    requires p.Valid()
    ensures Steps(p, Read1(p), ClaimRow(1, Late(p)), TwoAtWork(p))
  {
  }

  lemma LeaseRunsOut(p: Params) returns (run: seq<Event>)
    requires p.Valid()
    ensures After(p, run) == Some(Meanwhile(p, map[0 := FirstEntry()], map[0 := First()], 1))
  {
    hide After, Steps, Meanwhile, Held, Read, Setup;
    SetUp(p);
    run := Setup();
    Claiming(p, 0);
    Then(p, run, Read(0), ClaimRow(0, 0), Held(p, 0, Working));
    run := run + [ClaimRow(0, 0)];
    TimePasses(p);
    Then(p, run, Held(p, 0, Working), Tick(Late(p)), Held(p, 0, Working).(now := Late(p)));
    run := run + [Tick(Late(p))];
    RowReturns(p);
    Then(p, run, Held(p, 0, Working).(now := Late(p)), ReapLeases, Meanwhile(p, map[0 := FirstEntry()], map[0 := First()], 1));
    run := run + [ReapLeases];
  }

  lemma CopyReplacesEntry(p: Params, before: seq<Event>) returns (run: seq<Event>)
    requires p.Valid() && After(p, before) == Some(Meanwhile(p, map[0 := FirstEntry()], map[0 := First()], 1))
    ensures After(p, run) == Some(Meanwhile(p, map[1 := FreshEntry(K)], map[0 := First()], 2))
  {
    hide After, Steps, Meanwhile, First, FirstEntry, Old;
    EntryReclaimed(p);
    Then(p, before, Meanwhile(p, map[0 := FirstEntry()], map[0 := First()], 1), AutoClaim(0),
         Meanwhile(p, map[0 := Old(p, false)], map[0 := First()], 1));
    run := before + [AutoClaim(0)];
    EntryReadded(p);
    Then(p, run, Meanwhile(p, map[0 := Old(p, false)], map[0 := First()], 1), Readd(0),
         Meanwhile(p, map[0 := Old(p, true), 1 := FreshEntry(K)], map[0 := First()], 2));
    run := run + [Readd(0)];
    EntryGone(p);
    Then(p, run, Meanwhile(p, map[0 := Old(p, true), 1 := FreshEntry(K)], map[0 := First()], 2), AckReadded(0),
         Meanwhile(p, map[1 := FreshEntry(K)], map[0 := First()], 2));
    run := run + [AckReadded(0)];
  }

  /** The first handler may finish although its entry is gone and the shard is under another's unexpired claim. */
  lemma FinishesLate(p: Params) returns (run: seq<Event>)
    requires p.Valid()
    ensures After(p, run).Some?
    ensures var s := After(p, run).value;
            && 0 !in s.jobs && Enabled(p, s, FinishParse(0)) && s.workers[0].key == K
            && exists c :: c in s.claims && c.key == K && c.worker != 0 && Unexpired(c, s.now)
  {
    hide After, Steps, Meanwhile, Read1;
    run := LeaseRunsOut(p);
    run := CopyReplacesEntry(p, run);
    CopyDelivered(p);
    Then(p, run, Meanwhile(p, map[1 := FreshEntry(K)], map[0 := First()], 2), Deliver(1), Read1(p));
    run := run + [Deliver(1)];
    CopyClaimed(p);
    Then(p, run, Read1(p), ClaimRow(1, Late(p)), TwoAtWork(p));
    run := run + [ClaimRow(1, Late(p))];
    assert ClaimRecord(1, K, Late(p) + p.lease) in TwoAtWork(p).claims;
  }
}
