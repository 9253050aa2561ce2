/**
 * A shards retry strands a shard: the document failed because the source was gone when one shard
 * was parsed, and the retry brings back only the shard that had failed before.
 */
module ReopenGap {
  import opened Chunks
  import opened ShardTables
  import opened Protocol
  import opened Recovery
  import opened Scenes

  const K1: Key := Key("d", 1)

  function BookOf(state: DocState, failed: int): map<string, Doc> { map["d" := Doc(state, Some(2), 0, failed)] }

  function Pages(first: Row, second: Row): map<Key, Row> { map[K := first, K1 := second] }

  const UNTRIED: Row := Row(1, 1, Pending, 0, None, None)

  function Second(attempts: nat, state: RowState): Row { Row(2, 2, state, attempts, None, None) }

  /** A row claimed at the given time by handler e. */
  function Taken(p: Params, r: Row, e: nat, at: int): Row {
    r.(state := Running, attempts := r.attempts + 1, worker := Some(e), leaseUntil := Some(at + p.lease))
  }

  /** The second shard has been attempted n times, in vain, and failed if it has no attempt left. */
  function Tried(p: Params, n: nat): Tables {
    if n < p.maxAttempts then Tables(Pages(UNTRIED, Second(n, Pending)), BookOf(Parsing, 0))
    else Tables(Pages(UNTRIED, Second(n, Failed)), BookOf(Parsing, 1))
  }

  /** What varies from round to round: the time, the attempts, the first of two entries, the past handlers and claims. */
  datatype Spot = Spot(now: int, reapedAt: Option<int>, n: nat, a: nat, workers: map<nat, Worker>, claims: set<ClaimRecord>)

  function With(x: Spot, t: Tables, jobs: map<nat, Entry>, workers: map<nat, Worker>): State {
    Plain(x.now, x.reapedAt, t, jobs, workers, x.a + 2, x.claims)
  }

  /** The jobs of both shards are queued. */
  function Round(p: Params, x: Spot): State {
    With(x, Tried(p, x.n), map[x.a := FreshEntry(K), x.a + 1 := FreshEntry(K1)], x.workers)
  }

  // ---- both jobs are delivered; one handler dies before its claim, the other after it -----

  function Got(k: Key, now: int): Entry { Entry(k, true, now, 1, false, false) }

  function At1(x: Spot): map<nat, Worker> { x.workers[x.a := Worker(K, Reading, x.now, 0)] }

  function At2(x: Spot): map<nat, Worker> { At1(x)[x.a + 1 := Worker(K1, Reading, x.now, 0)] }

  function At3(x: Spot): map<nat, Worker> { At2(x)[x.a := Worker(K, Stopped, x.now, 0)] }

  function At4(x: Spot, phase: Phase): map<nat, Worker> { At3(x)[x.a + 1 := Worker(K1, phase, x.now, x.now)] }

  function BothGot(x: Spot): map<nat, Entry> { map[x.a := Got(K, x.now), x.a + 1 := Got(K1, x.now)] }

  function InWork(p: Params, x: Spot): Tables {
    Tables(Pages(UNTRIED, Taken(p, Second(x.n, Pending), x.a + 1, x.now)), BookOf(Parsing, 0))
  }

  function Claimed(p: Params, x: Spot): Spot { x.(claims := x.claims + {ClaimRecord(x.a + 1, K1, x.now + p.lease)}) }

  lemma DeliverFirst(p: Params, x: Spot)
    ensures Steps(p, Round(p, x), Deliver(x.a), With(x, Tried(p, x.n), map[x.a := Got(K, x.now), x.a + 1 := FreshEntry(K1)], At1(x)))
  {
    hide Tried;
  }

  lemma DeliverSecond(p: Params, x: Spot)
    ensures Steps(p, With(x, Tried(p, x.n), map[x.a := Got(K, x.now), x.a + 1 := FreshEntry(K1)], At1(x)), Deliver(x.a + 1),
                  With(x, Tried(p, x.n), BothGot(x), At2(x)))
  {
    hide Tried;
  }

  lemma StopFirst(p: Params, x: Spot)
    ensures Steps(p, With(x, Tried(p, x.n), BothGot(x), At2(x)), Stop(x.a), With(x, Tried(p, x.n), BothGot(x), At3(x)))
  {
    hide Tried;
  }

  lemma SecondClaim(p: Params, x: Spot)
    requires p.Valid() && x.n < p.maxAttempts
    ensures Claimable(Tried(p, x.n), K1) && Claim(Tried(p, x.n), K1, x.a + 1, x.now + p.lease) == InWork(p, x)
  {
  }

  lemma ClaimSecond(p: Params, x: Spot)
    requires p.Valid() && x.n < p.maxAttempts
    ensures Steps(p, With(x, Tried(p, x.n), BothGot(x), At3(x)), ClaimRow(x.a + 1, x.now),
                  With(Claimed(p, x), InWork(p, x), BothGot(x), At4(x, Working)))
  {
    hide Tried, InWork, Claimable, Claim;
    SecondClaim(p, x);
  }

  lemma StopSecond(p: Params, x: Spot)
    ensures Steps(p, With(Claimed(p, x), InWork(p, x), BothGot(x), At4(x, Working)), Stop(x.a + 1),
                  With(Claimed(p, x), InWork(p, x), BothGot(x), At4(x, Stopped)))
  {
  }

  function TryRun(x: Spot, run: seq<Event>): seq<Event> {
    run + [Deliver(x.a)] + [Deliver(x.a + 1)] + [Stop(x.a)] + [ClaimRow(x.a + 1, x.now)] + [Stop(x.a + 1)]
  }

  lemma Try(p: Params, x: Spot, run: seq<Event>)
    requires p.Valid() && x.n < p.maxAttempts && After(p, run) == Some(Round(p, x))
    ensures After(p, TryRun(x, run)) == Some(With(Claimed(p, x), InWork(p, x), BothGot(x), At4(x, Stopped)))
  {
    hide After, Steps, Round, With, Tried, InWork, Claimed, BothGot, At1, At2, At3, At4;
    var half := map[x.a := Got(K, x.now), x.a + 1 := FreshEntry(K1)];
    var r1, r2 := run + [Deliver(x.a)], run + [Deliver(x.a)] + [Deliver(x.a + 1)];
    DeliverFirst(p, x);
    Then(p, run, Round(p, x), Deliver(x.a), With(x, Tried(p, x.n), half, At1(x)));
    DeliverSecond(p, x);
    Then(p, r1, With(x, Tried(p, x.n), half, At1(x)), Deliver(x.a + 1), With(x, Tried(p, x.n), BothGot(x), At2(x)));
    StopFirst(p, x);
    Then(p, r2, With(x, Tried(p, x.n), BothGot(x), At2(x)), Stop(x.a), With(x, Tried(p, x.n), BothGot(x), At3(x)));
    ClaimSecond(p, x);
    var working := With(Claimed(p, x), InWork(p, x), BothGot(x), At4(x, Working));
    Then(p, r2 + [Stop(x.a)], With(x, Tried(p, x.n), BothGot(x), At3(x)), ClaimRow(x.a + 1, x.now), working);
    StopSecond(p, x);
    Then(p, r2 + [Stop(x.a)] + [ClaimRow(x.a + 1, x.now)], working, Stop(x.a + 1),
         With(Claimed(p, x), InWork(p, x), BothGot(x), At4(x, Stopped)));
  }

  // ---- the next pass reaps the row, escalates it if it is spent, and adds both entries again ----

  /** Long enough for the lease to pass and for the entries to be idle. */
  function Pause(p: Params): nat
    requires p.Valid()
  {
    if p.lease < RECLAIM_IDLE then RECLAIM_IDLE else p.lease + 1
  }

  function Later(p: Params, x: Spot): Spot
    requires p.Valid()
  {
    Claimed(p, x).(now := x.now + Pause(p), reapedAt := Some(x.now + Pause(p)))
  }

  function Returned(x: Spot): Tables { Tables(Pages(UNTRIED, Second(x.n + 1, Pending)), BookOf(Parsing, 0)) }

  lemma Waits(p: Params, x: Spot)
    requires p.Valid()
    ensures Steps(p, With(Claimed(p, x), InWork(p, x), BothGot(x), At4(x, Stopped)), Tick(Pause(p)),
                  With(Later(p, x).(reapedAt := x.reapedAt), InWork(p, x), BothGot(x), At4(x, Stopped)))
  {
    hide InWork, BothGot, At4;
  }

  function Reaped(r: Row, now: int): Row {
    if Expired(r, now) then r.(state := Pending, worker := None, leaseUntil := None) else r
  }

  lemma ReapPages(first: Row, second: Row, docs: map<string, Doc>, now: int)
    ensures Reap(Tables(Pages(first, second), docs), now) == Tables(Pages(Reaped(first, now), Reaped(second, now)), docs)
  {
  }

  lemma Reaps(p: Params, x: Spot)
    requires p.Valid()
    ensures Steps(p, With(Later(p, x).(reapedAt := x.reapedAt), InWork(p, x), BothGot(x), At4(x, Stopped)), ReapLeases,
                  With(Later(p, x), Returned(x), BothGot(x), At4(x, Stopped)))
  {
    hide Pages, Reap, BothGot, At4;
    ReapPages(UNTRIED, Taken(p, Second(x.n, Pending), x.a + 1, x.now), BookOf(Parsing, 0), Later(p, x).now);
  }

  lemma EscalateTables(p: Params, x: Spot)
    requires p.Valid() && x.n < p.maxAttempts
    ensures Escalate(Returned(x), p.maxAttempts) == Tried(p, x.n + 1)
  {
    var t := Returned(x);
    var hit := StuckKeys(t, p.maxAttempts);
    if x.n + 1 < p.maxAttempts {
      assert hit == {} && KeysOf(hit, D) == {};
    } else {
      assert hit == {K1} && KeysOf(hit, D) == {K1};
    }
    assert Escalate(t, p.maxAttempts).shards == Tried(p, x.n + 1).shards;
    assert Escalate(t, p.maxAttempts).docs == Tried(p, x.n + 1).docs;
  }

  lemma Escalates(p: Params, x: Spot)
    requires p.Valid() && x.n < p.maxAttempts
    ensures Steps(p, With(Later(p, x), Returned(x), BothGot(x), At4(x, Stopped)), EscalateRows,
                  With(Later(p, x), Tried(p, x.n + 1), BothGot(x), At4(x, Stopped)))
  {
    EscalateTables(p, x);
    hide Returned, Tried, BothGot, At4, Escalate;
  }

  function PassRun(p: Params, run: seq<Event>): seq<Event>
    requires p.Valid()
  {
    run + [Tick(Pause(p))] + [ReapLeases] + [EscalateRows]
  }

  lemma Pass(p: Params, x: Spot, run: seq<Event>)
    requires p.Valid() && x.n < p.maxAttempts
    requires After(p, run) == Some(With(Claimed(p, x), InWork(p, x), BothGot(x), At4(x, Stopped)))
    ensures After(p, PassRun(p, run)) == Some(With(Later(p, x), Tried(p, x.n + 1), BothGot(x), At4(x, Stopped)))
  {
    hide Steps, With, Tried, InWork, Claimed, BothGot, At4, Later, Returned;
    var w := At4(x, Stopped);
    var waited := With(Later(p, x).(reapedAt := x.reapedAt), InWork(p, x), BothGot(x), w);
    Waits(p, x);
    Then(p, run, With(Claimed(p, x), InWork(p, x), BothGot(x), w), Tick(Pause(p)), waited);
    Reaps(p, x);
    Then(p, run + [Tick(Pause(p))], waited, ReapLeases, With(Later(p, x), Returned(x), BothGot(x), w));
    Escalates(p, x);
    Then(p, run + [Tick(Pause(p))] + [ReapLeases], With(Later(p, x), Returned(x), BothGot(x), w), EscalateRows,
         With(Later(p, x), Tried(p, x.n + 1), BothGot(x), w));
  }

  function Stale(k: Key, now: int, readded: bool): Entry { Entry(k, true, now, 2, true, readded) }

  /** One entry is claimed from the stream, added again and dropped. */
  function ReclaimRun(e: nat, run: seq<Event>): seq<Event> { run + [AutoClaim(e)] + [Readd(e)] + [AckReadded(e)] }

  lemma Reclaims(p: Params, s: State, e: nat, run: seq<Event>)
    requires p.Valid() && After(p, run) == Some(s) && s.reapedAt == Some(s.now)
    requires e in s.jobs && e < s.nextId && s.jobs[e] == Got(s.jobs[e].key, s.jobs[e].idleSince) && s.now - s.jobs[e].idleSince >= RECLAIM_IDLE
    ensures After(p, ReclaimRun(e, run)) ==
              Some(s.(jobs := (s.jobs - {e})[s.nextId := FreshEntry(s.jobs[e].key)], nextId := s.nextId + 1))
  {
    hide Steps;
    var k := s.jobs[e].key;
    var s1 := s.(jobs := s.jobs[e := Stale(k, s.now, false)]);
    var s2 := s.(jobs := s.jobs[e := Stale(k, s.now, true)][s.nextId := FreshEntry(k)], nextId := s.nextId + 1);
    var s3 := s.(jobs := (s.jobs - {e})[s.nextId := FreshEntry(k)], nextId := s.nextId + 1);
    ReclaimSteps(p, s, e, s1, s2, s3);
    Then(p, run, s, AutoClaim(e), s1);
    Then(p, run + [AutoClaim(e)], s1, Readd(e), s2);
    Then(p, run + [AutoClaim(e)] + [Readd(e)], s2, AckReadded(e), s3);
  }

  lemma ReclaimSteps(p: Params, s: State, e: nat, s1: State, s2: State, s3: State)
    requires p.Valid() && s.reapedAt == Some(s.now) && e in s.jobs && e < s.nextId
    requires s.jobs[e] == Got(s.jobs[e].key, s.jobs[e].idleSince) && s.now - s.jobs[e].idleSince >= RECLAIM_IDLE
    requires s1 == s.(jobs := s.jobs[e := Stale(s.jobs[e].key, s.now, false)])
    requires s2 == s.(jobs := s.jobs[e := Stale(s.jobs[e].key, s.now, true)][s.nextId := FreshEntry(s.jobs[e].key)], nextId := s.nextId + 1)
    requires s3 == s.(jobs := (s.jobs - {e})[s.nextId := FreshEntry(s.jobs[e].key)], nextId := s.nextId + 1)
    ensures Steps(p, s, AutoClaim(e), s1) && Steps(p, s1, Readd(e), s2) && Steps(p, s2, AckReadded(e), s3)
  {
    assert s2.jobs - {e} == s3.jobs;
  }

  /** The round that follows. */
  function Next(p: Params, x: Spot): Spot
    requires p.Valid()
  {
    Later(p, x).(n := x.n + 1, a := x.a + 2, workers := At4(x, Stopped))
  }

  function CycleRun(p: Params, x: Spot, run: seq<Event>): seq<Event>
    requires p.Valid()
  {
    ReclaimRun(x.a + 1, ReclaimRun(x.a, PassRun(p, TryRun(x, run))))
  }

  lemma Cycle(p: Params, x: Spot, run: seq<Event>)
    requires p.Valid() && x.n < p.maxAttempts && After(p, run) == Some(Round(p, x))
    ensures After(p, CycleRun(p, x, run)) == Some(Round(p, Next(p, x)))
  {
    hide After, TryRun, PassRun, ReclaimRun, Tried, At4, Round, With, InWork, Claimed, Later, BothGot, Next;
    Try(p, x, run);
    var r := PassRun(p, TryRun(x, run));
    Pass(p, x, TryRun(x, run));
    var s := With(Later(p, x), Tried(p, x.n + 1), BothGot(x), At4(x, Stopped));
    EntriesSwap(p, x, s);
    Reclaims(p, s, x.a, r);
    Reclaims(p, s.(jobs := (s.jobs - {x.a})[x.a + 2 := FreshEntry(K)], nextId := x.a + 3), x.a + 1, ReclaimRun(x.a, r));
  }

  /** The two entries make way for two fresh ones. */
  lemma EntriesSwap(p: Params, x: Spot, s: State)
    requires p.Valid() && s == With(Later(p, x), Tried(p, x.n + 1), BothGot(x), At4(x, Stopped))
    ensures s.reapedAt == Some(s.now) && s.nextId == x.a + 2 && s.now >= x.now + RECLAIM_IDLE && s.jobs == BothGot(x)
    ensures x.a in s.jobs && s.jobs[x.a] == Got(K, x.now)
    ensures var jobs := (s.jobs - {x.a})[x.a + 2 := FreshEntry(K)];
            && x.a + 1 in jobs && jobs[x.a + 1] == Got(K1, x.now)
            && s.(jobs := (jobs - {x.a + 1})[x.a + 3 := FreshEntry(K1)], nextId := x.a + 4) == Round(p, Next(p, x))
  {
    hide Tried, At4;
    var jobs := (s.jobs - {x.a})[x.a + 2 := FreshEntry(K)];
    assert (jobs - {x.a + 1})[x.a + 3 := FreshEntry(K1)] == map[x.a + 2 := FreshEntry(K), x.a + 3 := FreshEntry(K1)];
  }

  lemma CycleQueuesNothing(p: Params, x: Spot, run: seq<Event>)
    requires p.Valid() && FanOutOnly(run)
    ensures FanOutOnly(CycleRun(p, x, run))
  {
  }

  lemma {:induction false} Cycles(p: Params, x: Spot, run: seq<Event>) returns (x': Spot, more: seq<Event>)
    requires p.Valid() && x.n <= p.maxAttempts && After(p, run) == Some(Round(p, x)) && FanOutOnly(run)
    ensures x'.n == p.maxAttempts && After(p, more) == Some(Round(p, x')) && FanOutOnly(more)
    decreases p.maxAttempts - x.n
  {
    hide After, Round, CycleRun, FanOutOnly;
    if x.n == p.maxAttempts {
      x', more := x, run;
    } else {
      Cycle(p, x, run);
      CycleQueuesNothing(p, x, run);
      x', more := Cycles(p, Next(p, x), CycleRun(p, x, run));
    }
  }

  // ---- the document is split in two, and both jobs are queued ---------------------------

  const FIRST: Spot := Spot(0, None, 0, 0, map[], {})

  const BOTH: seq<(int, int)> := [(1, 1), (2, 2)]

  function Unqueued(): State { Plain(0, None, Tables(Pages(UNTRIED, Second(0, Pending)), BookOf(Parsing, 0)), map[], map[], 0, {}) }

  lemma Splitting(p: Params)
    ensures Steps(p, Registered(), SplitDoc(D, BOTH), Unqueued())
  {
    var first: seq<(int, int)> := [(1, 1)];
    assert BOTH[..1] == first && first[..0] == [];
    assert Inserted(map[], D, first, 0) == map[][K := FreshRow((1, 1))];
    assert Inserted(map[], D, BOTH, 0) == Inserted(map[], D, first, 0)[K1 := FreshRow((2, 2))];
    assert Inserted(map[], D, BOTH, 0) == Pages(UNTRIED, Second(0, Pending));
  }

  lemma Queueing(p: Params)
    requires p.Valid()
    ensures var half := Unqueued().(jobs := map[0 := FreshEntry(K)], nextId := 1);
            Steps(p, Unqueued(), Enqueue(K), half) && Steps(p, half, Enqueue(K1), Round(p, FIRST))
  {
  }

  function FanOut(): seq<Event> { [RegisterDoc(D)] + [SplitDoc(D, BOTH)] + [Enqueue(K)] + [Enqueue(K1)] }

  lemma FannedOut(p: Params)
    requires p.Valid()
    ensures After(p, FanOut()) == Some(Round(p, FIRST)) && FanOutOnly(FanOut())
  {
    hide Steps, Round, Unqueued;
    var half := Unqueued().(jobs := map[0 := FreshEntry(K)], nextId := 1);
    assert After(p, []) == Some(INIT);
    Registering(p);
    Then(p, [], INIT, RegisterDoc(D), Registered());
    assert [] + [RegisterDoc(D)] == [RegisterDoc(D)];
    Splitting(p);
    Then(p, [RegisterDoc(D)], Registered(), SplitDoc(D, BOTH), Unqueued());
    Queueing(p);
    Then(p, [RegisterDoc(D)] + [SplitDoc(D, BOTH)], Unqueued(), Enqueue(K), half);
    Then(p, [RegisterDoc(D)] + [SplitDoc(D, BOTH)] + [Enqueue(K)], half, Enqueue(K1), Round(p, FIRST));
  }

  // ---- the second shard has failed; the first one's source is gone; the retry -------------

  function Given(p: Params, x: Spot, doc: DocState): Tables {
    Tables(Pages(Taken(p, UNTRIED, x.a, x.now), Second(x.n, Failed)), BookOf(doc, 1))
  }

  function Half(x: Spot): map<nat, Entry> { map[x.a := Got(K, x.now), x.a + 1 := FreshEntry(K1)] }

  function Left(x: Spot): map<nat, Entry> { map[x.a + 1 := FreshEntry(K1)] }

  function Hands(x: Spot, phase: Phase): map<nat, Worker> { x.workers[x.a := Worker(K, phase, x.now, x.now)] }

  function FirstClaimed(p: Params, x: Spot): Spot { x.(claims := x.claims + {ClaimRecord(x.a, K, x.now + p.lease)}) }

  function Gone(s: State): State { s.(forsaken := {K}) }

  lemma FirstClaim(p: Params, x: Spot)
    requires p.Valid() && x.n == p.maxAttempts
    ensures Claimable(Tried(p, x.n), K) && Claim(Tried(p, x.n), K, x.a, x.now + p.lease) == Given(p, x, Parsing)
  {
  }

  lemma ClaimFirst(p: Params, x: Spot)
    requires p.Valid() && x.n == p.maxAttempts
    ensures Steps(p, With(x, Tried(p, x.n), Half(x), At1(x)), ClaimRow(x.a, x.now),
                  With(FirstClaimed(p, x), Given(p, x, Parsing), Half(x), Hands(x, Working)))
  {
    hide Tried, Given, Claimable, Claim;
    FirstClaim(p, x);
  }

  lemma Vanishes(p: Params, x: Spot)
    requires p.sourcesVanish
    ensures Steps(p, With(FirstClaimed(p, x), Given(p, x, Parsing), Half(x), Hands(x, Working)), SourceVanished(x.a),
                  Gone(With(FirstClaimed(p, x), Given(p, x, DocFailed), Half(x), Hands(x, Closing))))
  {
    assert Apply(Given(p, x, Parsing), OpSetState(D, DocFailed)) == Given(p, x, DocFailed) && K in Given(p, x, Parsing).shards;
    hide Given, Half, Apply;
  }

  lemma Acks(p: Params, x: Spot)
    ensures Steps(p, Gone(With(FirstClaimed(p, x), Given(p, x, DocFailed), Half(x), Hands(x, Closing))), Ack(x.a),
                  Gone(With(FirstClaimed(p, x), Given(p, x, DocFailed), Left(x), Hands(x, Stopped))))
  {
    assert Half(x) - {x.a} == Left(x);
  }

  /** The document is at work again, with the given first shard. */
  function Again(p: Params, x: Spot, first: Row): Tables { Tables(Pages(first, Second(x.n, Pending)), BookOf(Parsing, 0)) }

  lemma RetryTables(p: Params, x: Spot)
    ensures Retry(Given(p, x, DocFailed), D) == Again(p, x, Taken(p, UNTRIED, x.a, x.now))
  {
    var t := Given(p, x, DocFailed);
    assert InState(t, D, Failed) == {K1};
    assert RequeueFailed(t, D).shards == Pages(Taken(p, UNTRIED, x.a, x.now), Second(x.n, Pending));
    assert Retry(t, D).docs == BookOf(Parsing, 0);
  }

  function End(p: Params, x: Spot): State {
    Gone(With(FirstClaimed(p, x), Again(p, x, Taken(p, UNTRIED, x.a, x.now)), Left(x), Hands(x, Stopped)))
  }

  lemma Retries(p: Params, x: Spot)
    requires p.reopens
    ensures Steps(p, Gone(With(FirstClaimed(p, x), Given(p, x, DocFailed), Left(x), Hands(x, Stopped))), RetryFailed(D), End(p, x))
  {
    RetryTables(p, x);
    hide Given, Again, Hands, Left, Retry;
  }

  function GiveUpRun(x: Spot, run: seq<Event>): seq<Event> {
    run + [Deliver(x.a)] + [ClaimRow(x.a, x.now)] + [SourceVanished(x.a)] + [Ack(x.a)] + [RetryFailed(D)]
  }

  lemma GivesUp(p: Params, x: Spot, run: seq<Event>)
    requires p.Valid() && p.sourcesVanish && p.reopens && x.n == p.maxAttempts && After(p, run) == Some(Round(p, x))
    ensures After(p, GiveUpRun(x, run)) == Some(End(p, x))
  {
    hide Steps, Round, With, Tried, Given, Half, Left, Hands, FirstClaimed, Gone, End, At1;
    var s1 := With(x, Tried(p, x.n), Half(x), At1(x));
    var s2 := With(FirstClaimed(p, x), Given(p, x, Parsing), Half(x), Hands(x, Working));
    var s3 := Gone(With(FirstClaimed(p, x), Given(p, x, DocFailed), Half(x), Hands(x, Closing)));
    var s4 := Gone(With(FirstClaimed(p, x), Given(p, x, DocFailed), Left(x), Hands(x, Stopped)));
    FirstHalf(p, x);
    Then(p, run, Round(p, x), Deliver(x.a), s1);
    ClaimFirst(p, x);
    Then(p, run + [Deliver(x.a)], s1, ClaimRow(x.a, x.now), s2);
    Vanishes(p, x);
    Then(p, run + [Deliver(x.a)] + [ClaimRow(x.a, x.now)], s2, SourceVanished(x.a), s3);
    Acks(p, x);
    Then(p, run + [Deliver(x.a)] + [ClaimRow(x.a, x.now)] + [SourceVanished(x.a)], s3, Ack(x.a), s4);
    Retries(p, x);
    Then(p, run + [Deliver(x.a)] + [ClaimRow(x.a, x.now)] + [SourceVanished(x.a)] + [Ack(x.a)], s4, RetryFailed(D), End(p, x));
  }

  lemma FirstHalf(p: Params, x: Spot)
    ensures Steps(p, Round(p, x), Deliver(x.a), With(x, Tried(p, x.n), Half(x), At1(x)))
  {
    DeliverFirst(p, x);
    hide Steps, Round, Tried, At1, With;
  }

  /** The state after the row's lease has passed and the janitor has reaped. */
  function Ended(p: Params, x: Spot): State {
    End(p, x).(now := x.now + p.lease + 1, reapedAt := Some(x.now + p.lease + 1), t := Again(p, x, UNTRIED.(attempts := 1)))
  }

  lemma Returns(p: Params, x: Spot)
    requires p.Valid()
    ensures Steps(p, End(p, x), Tick(p.lease + 1), End(p, x).(now := x.now + p.lease + 1))
    ensures Steps(p, End(p, x).(now := x.now + p.lease + 1), ReapLeases, Ended(p, x))
  {
    hide Pages, Reap, Left, Hands;
    ReapPages(Taken(p, UNTRIED, x.a, x.now), Second(x.n, Pending), BookOf(Parsing, 0), x.now + p.lease + 1);
  }

  /** Nothing carries the first shard's job, and nothing was said about it. */
  lemma EndIsOutOfReach(p: Params, x: Spot)
    ensures OutOfReach(p, End(p, x), K) && End(p, x).t.shards[K].attempts == 1
    ensures p.maxAttempts >= 2 ==> OutOfReach(p, Ended(p, x), K)
  {
    assert !Live(End(p, x), K) && !Recorded(End(p, x), K) && !Live(Ended(p, x), K) && !Recorded(Ended(p, x), K);
  }

  lemma GivingUpQueuesNothing(p: Params, x: Spot, run: seq<Event>)
    requires FanOutOnly(run)
    ensures FanOutOnly(GiveUpRun(x, run))
  {
  }

  /**
   * Every configuration in which sources vanish and documents are reopened has a run that ends
   * with a retry and strands a shard; and reaping does not help, unless its only attempt is spent.
   */
  lemma RetryStrands(p: Params) returns (run: seq<Event>)
    requires p.Valid() && p.sourcesVanish && p.reopens
    ensures After(p, run).Some? && OutOfReach(p, After(p, run).value, K) && FanOutOnly(run) && run[|run| - 1] == RetryFailed(D)
    ensures After(p, run).value.t.shards[K].attempts == 1
    ensures var reaped := run + [Tick(p.lease + 1)] + [ReapLeases];
            p.maxAttempts >= 2 ==> After(p, reaped).Some? && OutOfReach(p, After(p, reaped).value, K)
  {
    hide After, Round, FanOut, Steps, End, Ended, OutOfReach, FanOutOnly;
    FannedOut(p);
    var x: Spot;
    x, run := Cycles(p, FIRST, FanOut());
    GivingUpQueuesNothing(p, x, run);
    GivesUp(p, x, run);
    run := GiveUpRun(x, run);
    EndIsOutOfReach(p, x);
    Returns(p, x);
    Then(p, run, End(p, x), Tick(p.lease + 1), End(p, x).(now := x.now + p.lease + 1));
    Then(p, run + [Tick(p.lease + 1)], End(p, x).(now := x.now + p.lease + 1), ReapLeases, Ended(p, x));
  }
}
