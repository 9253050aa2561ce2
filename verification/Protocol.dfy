/**
 * The ingest protocol as a transition system: shard rows, the parse stream with its pending
 * entries, the parse handlers, and the janitor. One clock; each database transaction is one
 * step, and so is each stream command, so a crash may fall between any two of them.
 */
module Protocol {
  import opened Chunks
  import opened ShardTables

  /** Idle time, in seconds, after which the janitor claims a pending entry. */
  const RECLAIM_IDLE: int := 1200

  /**
   * The lease a claim takes, bounds on claiming after delivery and on reclaiming after reaping,
   * the attempts a shard has; and what may go wrong around the pipeline: a raw object may be
   * gone when a handler downloads it, a terminal document may be set to work again with its
   * rows kept, and a pass may fail between dropping a dead entry and writing its event.
   */
  datatype Params = Params(lease: int, claimDelay: int, passSpan: int, maxAttempts: nat, sourcesVanish: bool, reopens: bool, eventsFail: bool) {
    predicate Valid() {
      lease >= 0 && claimDelay >= 0 && passSpan >= 0 && maxAttempts >= 1
    }

    function DeliveryCap(): int {
      if maxAttempts + 1 < 5 then 5 else maxAttempts + 1
    }
  }

  /** A stream entry; once read it is pending, until it is acknowledged. */
  datatype Entry = Entry(key: Key, read: bool, idleSince: int, deliveries: nat, stale: bool, readded: bool)

  /**
   * Where the handler of a delivered entry stands: before its claim; holding one; returned
   * without an error, so it will acknowledge; or returned an error, died or acknowledged.
   */
  datatype Phase = Reading | Working | Closing | Stopped

  /** A handler, known by the entry it was delivered; it goes on whatever becomes of that entry. */
  datatype Worker = Worker(key: Key, phase: Phase, deliveredAt: int, claimedAt: int)

  /** A successful claim, for as long as its document is not reset. */
  datatype ClaimRecord = ClaimRecord(worker: nat, key: Key, leaseUntil: int)

  /** An entry dropped for having been delivered too often. */
  datatype DeadLetter = DeadLetter(id: nat, key: Key)

  datatype State = State(
    now: int,
    /** When the current janitor pass reaped. */
    reapedAt: Option<int>,
    t: Tables,
    jobs: map<nat, Entry>,
    workers: map<nat, Worker>,
    nextId: nat,
    claims: set<ClaimRecord>,
    /** Dead letters of shards that nobody has claimed since. */
    quarantined: set<DeadLetter>,
    /** Dropped entries whose event is in the pass's memory, is written, or went with a failed pass. */
    descriptors: set<nat>,
    events: set<nat>,
    lost: set<nat>,
    /** Shards whose handler found the source gone, and that nobody has claimed since. */
    forsaken: set<Key>)

  const INIT: State := State(0, None, EMPTY_TABLES, map[], map[], 0, {}, {}, {}, {}, {}, {})

  datatype Event =
    | Tick(dt: nat)
    | RegisterDoc(d: string)
    | SplitDoc(d: string, bounds: seq<(int, int)>)
    | RetryFailed(d: string)
    | RepairDoc(d: string, chunked: bool)
    | RetryFull(d: string)
    | DeleteDoc(d: string)
    /** Any other write of a document's state, by a splitter, an embedder or the API. */
    | MoveDoc(d: string, state: DocState)
    /**
     * Any XADD of a parse job: split and resplit fan-out, retry, rescue sweep. It has no guard, since a
     * sender acts on rows it read some time before; what is proved of all runs holds for any sender.
     */
    | Enqueue(k: Key)
    | Deliver(e: nat)
    | ClaimRow(e: nat, computedAt: int)
    | FinishParse(e: nat)
    | ResplitRow(e: nat, bounds: seq<(int, int)>, startIdx: int, newTotal: int)
    | SourceVanished(e: nat)
    | Stop(e: nat)
    | Ack(e: nat)
    | ReapLeases
    | EscalateRows
    | AutoClaim(e: nat)
    | Readd(e: nat)
    | AckReadded(e: nat)
    | Quarantine(e: nat)
    | WriteDlqEvents
    | AbortPass

  predicate At(s: State, e: nat, phase: Phase) {
    e in s.workers && s.workers[e].phase == phase
  }

  predicate IsTerminal(t: Tables, d: string) {
    d in t.docs && Terminal(t.docs[d].state)
  }

  predicate Enabled(p: Params, s: State, ev: Event) {
    match ev
    case SplitDoc(d, bounds) => bounds != []
    case RetryFailed(d) => IsTerminal(s.t, d) ==> p.reopens
    case MoveDoc(d, state) => IsTerminal(s.t, d) && !Terminal(state) ==> p.reopens
    case Deliver(e) => e in s.jobs && !s.jobs[e].read
    case ClaimRow(e, computedAt) =>
      At(s, e, Reading) && s.workers[e].deliveredAt <= computedAt <= s.now <= s.workers[e].deliveredAt + p.claimDelay
    case FinishParse(e) => At(s, e, Working)
    case ResplitRow(e, bounds, startIdx, newTotal) => At(s, e, Working) && IsNextIdx(s.t, s.workers[e].key.doc, startIdx)
    case SourceVanished(e) => At(s, e, Working) && p.sourcesVanish
    case Stop(e) => e in s.workers
    case Ack(e) => At(s, e, Closing)
    case ReapLeases => s.descriptors == {}
    case AutoClaim(e) =>
      && e in s.jobs && s.jobs[e].read && s.now - s.jobs[e].idleSince >= RECLAIM_IDLE
      && s.reapedAt.Some? && s.now <= s.reapedAt.value + p.passSpan
    case Readd(e) => e in s.jobs && s.jobs[e].stale
    case AckReadded(e) => e in s.jobs && s.jobs[e].readded
    case Quarantine(e) => e in s.jobs && s.jobs[e].stale && s.jobs[e].deliveries >= p.DeliveryCap()
    case AbortPass => s.descriptors == {} || p.eventsFail
    case _ => true
  }

  /** The transaction an event commits, if any. */
  function OpOf(p: Params, s: State, ev: Event): Option<Op>
    requires Enabled(p, s, ev)
  {
    match ev
    case RegisterDoc(d) => Some(OpRegister(d))
    case SplitDoc(d, bounds) => Some(OpSplit(d, bounds))
    case RetryFailed(d) => Some(OpRetry(d))
    case RepairDoc(d, chunked) => Some(OpRepair(d, chunked))
    case RetryFull(d) => Some(OpReset(d))
    case DeleteDoc(d) => Some(OpDelete(d))
    case MoveDoc(d, state) => Some(OpSetState(d, state))
    case ClaimRow(e, computedAt) => Some(OpClaim(s.workers[e].key, e, computedAt + p.lease))
    case FinishParse(e) => Some(OpDone(s.workers[e].key))
    case ResplitRow(e, bounds, startIdx, newTotal) => Some(OpResplit(s.workers[e].key, bounds, startIdx, newTotal))
    case SourceVanished(e) => Some(OpSetState(s.workers[e].key.doc, DocFailed))
    case ReapLeases => Some(OpReap(s.now))
    case EscalateRows => Some(OpEscalate(p.maxAttempts))
    case _ => None
  }

  function TablesAfter(p: Params, s: State, ev: Event): Tables
    requires Enabled(p, s, ev)
  {
    var op := OpOf(p, s, ev);
    if op.Some? then Apply(s.t, op.value) else s.t
  }

  function FreshEntry(k: Key): Entry {
    Entry(k, false, 0, 0, false, false)
  }

  /** What an event does to the stream. */
  function JobsAfter(p: Params, s: State, ev: Event): map<nat, Entry>
    requires Enabled(p, s, ev)
  {
    match ev
    case Enqueue(k) => s.jobs[s.nextId := FreshEntry(k)]
    case Deliver(e) => s.jobs[e := s.jobs[e].(read := true, idleSince := s.now, deliveries := 1)]
    case Ack(e) => s.jobs - {e}
    case AutoClaim(e) => s.jobs[e := s.jobs[e].(idleSince := s.now, deliveries := s.jobs[e].deliveries + 1, stale := true)]
    case Readd(e) => s.jobs[e := s.jobs[e].(readded := true)][s.nextId := FreshEntry(s.jobs[e].key)]
    case AckReadded(e) => s.jobs - {e}
    case Quarantine(e) => s.jobs - {e}
    case _ => s.jobs
  }

  function ToPhase(workers: map<nat, Worker>, e: nat, phase: Phase): map<nat, Worker>
    requires e in workers
  {
    workers[e := workers[e].(phase := phase)]
  }

  /** What an event does to the handlers: a resplit that fails is an error, a refused claim is not. */
  function WorkersAfter(p: Params, s: State, ev: Event): map<nat, Worker>
    requires Enabled(p, s, ev)
  {
    match ev
    case Deliver(e) => s.workers[e := Worker(s.jobs[e].key, Reading, s.now, 0)]
    case ClaimRow(e, computedAt) =>
      if Claimable(s.t, s.workers[e].key) then s.workers[e := s.workers[e].(phase := Working, claimedAt := s.now)] else ToPhase(s.workers, e, Closing)
    case FinishParse(e) => ToPhase(s.workers, e, Closing)
    case ResplitRow(e, bounds, startIdx, newTotal) =>
      var k := s.workers[e].key;
      ToPhase(s.workers, e, if k in s.t.shards && !InsertConflicts(s.t, k.doc, bounds, startIdx) then Closing else Stopped)
    case SourceVanished(e) => ToPhase(s.workers, e, Closing)
    case Stop(e) => ToPhase(s.workers, e, Stopped)
    case Ack(e) => ToPhase(s.workers, e, Stopped)
    case _ => s.workers
  }

  function ClaimsAfter(p: Params, s: State, ev: Event): set<ClaimRecord>
    requires Enabled(p, s, ev)
  {
    match ev
    case ClaimRow(e, computedAt) =>
      if Claimable(s.t, s.workers[e].key) then s.claims + {ClaimRecord(e, s.workers[e].key, computedAt + p.lease)} else s.claims
    case RetryFull(d) => set c | c in s.claims && c.key.doc != d
    case DeleteDoc(d) => set c | c in s.claims && c.key.doc != d
    case _ => s.claims
  }

  /** A claim answers what was dropped of its shard before; a removed document's shards are forgotten. */
  function QuarantinedAfter(p: Params, s: State, ev: Event): set<DeadLetter>
    requires Enabled(p, s, ev)
  {
    match ev
    case ClaimRow(e, computedAt) =>
      if Claimable(s.t, s.workers[e].key) then set q | q in s.quarantined && q.key != s.workers[e].key else s.quarantined
    case RetryFull(d) => set q | q in s.quarantined && q.key.doc != d
    case DeleteDoc(d) => set q | q in s.quarantined && q.key.doc != d
    case Quarantine(e) => s.quarantined + {DeadLetter(e, s.jobs[e].key)}
    case _ => s.quarantined
  }

  function ForsakenAfter(p: Params, s: State, ev: Event): set<Key>
    requires Enabled(p, s, ev)
  {
    match ev
    case ClaimRow(e, computedAt) => if Claimable(s.t, s.workers[e].key) then s.forsaken - {s.workers[e].key} else s.forsaken
    case RetryFull(d) => set k | k in s.forsaken && k.doc != d
    case DeleteDoc(d) => set k | k in s.forsaken && k.doc != d
    case SourceVanished(e) => if s.workers[e].key in s.t.shards then s.forsaken + {s.workers[e].key} else s.forsaken
    case _ => s.forsaken
  }

  /** One step. */
  function Do(p: Params, s: State, ev: Event): State
    requires Enabled(p, s, ev)
  {
    State(
      if ev.Tick? then s.now + ev.dt else s.now,
      if ev.ReapLeases? then Some(s.now) else if ev.AbortPass? then None else s.reapedAt,
      TablesAfter(p, s, ev), JobsAfter(p, s, ev), WorkersAfter(p, s, ev),
      if ev.Enqueue? || ev.Readd? then s.nextId + 1 else s.nextId,
      ClaimsAfter(p, s, ev), QuarantinedAfter(p, s, ev),
      if ev.Quarantine? then s.descriptors + {ev.e} else if ev.WriteDlqEvents? || ev.AbortPass? then {} else s.descriptors,
      if ev.WriteDlqEvents? then s.events + s.descriptors else s.events,
      if ev.AbortPass? then s.lost + s.descriptors else s.lost,
      ForsakenAfter(p, s, ev))
  }

  /** The state after a run, when every event of it was enabled. */
  function After(p: Params, run: seq<Event>): Option<State> {
    if run == [] then Some(INIT)
    else
      var n := |run| - 1;
      var before := After(p, run[..n]);
      if before.Some? && Enabled(p, before.value, run[n]) then Some(Do(p, before.value, run[n])) else None
  }

  /** The tables of every run are those of a sequence of transactions. */
  lemma {:induction false} TablesOfRun(p: Params, run: seq<Event>) returns (ops: seq<Op>)
    requires After(p, run).Some?
    ensures After(p, run).value.t == ApplyAll(EMPTY_TABLES, ops)
    decreases |run|
  {
    if run == [] {
      ops := [];
    } else {
      hide Apply, JobsAfter, WorkersAfter, ClaimsAfter, QuarantinedAfter, ForsakenAfter;
      var n := |run| - 1;
      var before := After(p, run[..n]).value;
      ops := TablesOfRun(p, run[..n]);
      var op := OpOf(p, before, run[n]);
      if op.Some? {
        assert (ops + [op.value])[..|ops|] == ops;
        ops := ops + [op.value];
      }
    }
  }

  // ---- which events of dropped entries are lost ----------------------------------

  /** The pass writes the events it has collected, or fails. */
  predicate EndsReclaim(ev: Event) {
    ev.WriteDlqEvents? || ev.AbortPass?
  }

  /** The entry is dropped at i, and nothing is written and no pass fails before j. */
  ghost predicate DroppedBefore(run: seq<Event>, e: nat, i: nat, j: nat) {
    i < j <= |run| && run[i] == Quarantine(e) && forall m :: i < m < j ==> !EndsReclaim(run[m])
  }

  /** The entry's event is in the memory of the pass. */
  ghost predicate Awaits(run: seq<Event>, e: nat) {
    exists i: nat :: DroppedBefore(run, e, i, |run|)
  }

  /** The pass failed between dropping the entry and writing its event. */
  ghost predicate Dropped(run: seq<Event>, e: nat) {
    exists i: nat, j: nat :: j < |run| && DroppedBefore(run, e, i, j) && run[j].AbortPass?
  }

  ghost predicate LettersAre(s: State, run: seq<Event>, e: nat) {
    && (e in s.descriptors <==> Awaits(run, e))
    && (e in s.lost <==> Dropped(run, e))
  }

  /** The event of a dropped entry is lost exactly when the pass fails before writing it. */
  lemma {:induction false} LostExactly(p: Params, run: seq<Event>, e: nat)
    requires After(p, run).Some?
    ensures LettersAre(After(p, run).value, run, e)
    decreases |run|
  {
    if run == [] {
    } else {
      hide TablesAfter, JobsAfter, WorkersAfter, ClaimsAfter, QuarantinedAfter, ForsakenAfter, Enabled, Awaits, Dropped;
      var front, ev := run[..|run| - 1], run[|run| - 1];
      LostExactly(p, front, e);
      assert run == front + [ev];
      AwaitsMore(front, ev, e);
      DroppedMore(front, ev, e);
    }
  }

  lemma SameBefore(run: seq<Event>, ev: Event, e: nat, i: nat, j: nat)
    requires i < j <= |run|
    ensures DroppedBefore(run + [ev], e, i, j) <==> DroppedBefore(run, e, i, j)
  {
    assert forall m :: 0 <= m < j ==> (run + [ev])[m] == run[m];
  }

  lemma AwaitsMore(run: seq<Event>, ev: Event, e: nat)
    ensures Awaits(run + [ev], e) <==> ev == Quarantine(e) || (Awaits(run, e) && !EndsReclaim(ev))
  {
    var all := run + [ev];
    if ev == Quarantine(e) {
      assert DroppedBefore(all, e, |run|, |all|);
    }
    if Awaits(run, e) && !EndsReclaim(ev) {
      var i: nat :| DroppedBefore(run, e, i, |run|);
      SameBefore(run, ev, e, i, |run|);
      assert DroppedBefore(all, e, i, |all|);
    }
    if Awaits(all, e) {
      var i: nat :| DroppedBefore(all, e, i, |all|);
      if i < |run| {
        SameBefore(run, ev, e, i, |run|);
        assert !EndsReclaim(all[|run|]) && DroppedBefore(all, e, i, |run|);
      }
    }
  }

  lemma DroppedMore(run: seq<Event>, ev: Event, e: nat)
    ensures Dropped(run + [ev], e) <==> Dropped(run, e) || (Awaits(run, e) && ev.AbortPass?)
  {
    var all := run + [ev];
    if Dropped(run, e) {
      var i: nat, j: nat :| j < |run| && DroppedBefore(run, e, i, j) && run[j].AbortPass?;
      SameBefore(run, ev, e, i, j);
      assert all[j] == run[j];
    }
    if Awaits(run, e) && ev.AbortPass? {
      var i: nat :| DroppedBefore(run, e, i, |run|);
      SameBefore(run, ev, e, i, |run|);
      assert all[|run|] == ev;
    }
    if Dropped(all, e) {
      var i: nat, j: nat :| j < |all| && DroppedBefore(all, e, i, j) && all[j].AbortPass?;
      SameBefore(run, ev, e, i, j);
      assert j < |run| ==> run[j] == all[j];
    }
  }
}
