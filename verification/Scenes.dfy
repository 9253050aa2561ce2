/** Concrete runs of the protocol, step by step; and the first steps of all of them. */
module Scenes {
  import opened Chunks
  import opened ShardTables
  import opened Protocol

  const D: string := "d"
  const K: Key := Key("d", 0)
  const DOCS: map<string, Doc> := map["d" := Doc(Parsing, Some(1), 0, 0)]

  function RowsWith(r: Row): Tables { Tables(map[K := r], DOCS) }

  /** A state with nothing dropped and no source gone. */
  function Plain(now: int, reapedAt: Option<int>, t: Tables, jobs: map<nat, Entry>, workers: map<nat, Worker>, nextId: nat,
                 claims: set<ClaimRecord>): State {
    State(now, reapedAt, t, jobs, workers, nextId, claims, {}, {}, {}, {}, {})
  }

  /** One step of a run, from one known state to the next. */
  ghost predicate Steps(p: Params, s: State, ev: Event, s': State) {
    Enabled(p, s, ev) && Do(p, s, ev) == s'
  }

  lemma Then(p: Params, run: seq<Event>, s: State, ev: Event, s': State)
    requires After(p, run) == Some(s) && Steps(p, s, ev, s')
    ensures After(p, run + [ev]) == Some(s')
  {
    assert (run + [ev])[..|run|] == run;
  }

  /** Jobs are queued only by the fan-out that follows a split; later ones are reclaimed copies. */
  predicate FanOutOnly(run: seq<Event>) {
    && |run| >= 2 && run[0].RegisterDoc? && run[1].SplitDoc?
    && forall i :: 0 <= i < |run| && run[i].Enqueue? ==> forall j :: 2 <= j <= i ==> run[j].Enqueue?
  }

  // ---- a shard is split off, queued and delivered ------------------------------

  function Registered(): State { Plain(0, None, Tables(map[], map[D := FRESH_DOC]), map[], map[], 0, {}) }

  function SplitUp(): State { Plain(0, None, RowsWith(FreshRow((1, 1))), map[], map[], 0, {}) }

  function Queued(): State { SplitUp().(jobs := map[0 := FreshEntry(K)], nextId := 1) }

  function FirstEntry(): Entry { Entry(K, true, 0, 1, false, false) }

  function Read(now: int): State {
    Plain(now, None, RowsWith(FreshRow((1, 1))), map[0 := FirstEntry()], map[0 := Worker(K, Reading, 0, 0)], 1, {})
  }

  lemma Registering(p: Params)
    ensures Steps(p, INIT, RegisterDoc(D), Registered())
  {
  }

  lemma Splitting(p: Params)
    ensures Steps(p, Registered(), SplitDoc(D, [(1, 1)]), SplitUp())
  {
    var bounds := [(1, 1)];
    assert bounds[..0] == [];
    assert Inserted(map[], D, bounds[..0], 0) == map[];
    assert Inserted(map[], D, bounds, 0) == map[][Key(D, 0) := FreshRow(bounds[0])];
  }

  lemma Queueing(p: Params)
    ensures Steps(p, SplitUp(), Enqueue(K), Queued())
  {
  }

  lemma Delivering(p: Params)
    ensures Steps(p, Queued(), Deliver(0), Read(0))
  {
  }

  function Setup(): seq<Event> { [RegisterDoc(D)] + [SplitDoc(D, [(1, 1)])] + [Enqueue(K)] + [Deliver(0)] }

  lemma SetUp(p: Params)
    ensures After(p, Setup()) == Some(Read(0))
  {
    hide Steps;
    assert After(p, []) == Some(INIT);
    Registering(p);
    Then(p, [], INIT, RegisterDoc(D), Registered());
    assert [] + [RegisterDoc(D)] == [RegisterDoc(D)];
    Splitting(p);
    Then(p, [RegisterDoc(D)], Registered(), SplitDoc(D, [(1, 1)]), SplitUp());
    Queueing(p);
    Then(p, [RegisterDoc(D)] + [SplitDoc(D, [(1, 1)])], SplitUp(), Enqueue(K), Queued());
    Delivering(p);
    Then(p, [RegisterDoc(D)] + [SplitDoc(D, [(1, 1)])] + [Enqueue(K)], Queued(), Deliver(0), Read(0));
  }

  // ---- its worker waits before it claims, and dies -----------------------------

  function ClaimedRow(p: Params, at: int): Row { Row(1, 1, Running, 1, Some(0), Some(at + p.lease)) }

  /** The worker claimed at the given time and has the given phase. */
  function Held(p: Params, at: int, phase: Phase): State {
    Plain(at, None, RowsWith(ClaimedRow(p, at)), map[0 := FirstEntry()], map[0 := Worker(K, phase, 0, at)], 1, {ClaimRecord(0, K, at + p.lease)})
  }

  lemma Waiting(p: Params, at: nat)
    ensures Steps(p, Read(0), Tick(at), Read(at))
  {
  }

  lemma Claiming(p: Params, at: nat)
    requires at <= p.claimDelay
    ensures Steps(p, Read(at), ClaimRow(0, at), Held(p, at, Working))
  {
  }

  lemma Dying(p: Params, at: nat)
    ensures Steps(p, Held(p, at, Working), Stop(0), Held(p, at, Stopped))
  {
  }

  function ClaimAndDie(at: nat): seq<Event> {
    Setup() + [Tick(at)] + [ClaimRow(0, at)] + [Stop(0)]
  }

  lemma ClaimedThenDead(p: Params, at: nat)
    requires at <= p.claimDelay
    ensures After(p, ClaimAndDie(at)) == Some(Held(p, at, Stopped))
  {
    hide Steps, Setup, Held, Read;
    SetUp(p);
    Waiting(p, at);
    Then(p, Setup(), Read(0), Tick(at), Read(at));
    Claiming(p, at);
    Then(p, Setup() + [Tick(at)], Read(at), ClaimRow(0, at), Held(p, at, Working));
    Dying(p, at);
    Then(p, Setup() + [Tick(at)] + [ClaimRow(0, at)], Held(p, at, Working), Stop(0), Held(p, at, Stopped));
  }
}
