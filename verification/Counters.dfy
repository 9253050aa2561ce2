/** The documents' shard counters against the shard rows, over all runs of transactions. */
module Counters {
  import opened Chunks
  import opened ShardTables

  function Count(t: Tables, d: string, state: RowState): nat {
    |InState(t, d, state)|
  }

  /** The counters never fall below the true counts. */
  ghost predicate DocSafe(t: Tables, d: string) {
    d in t.docs ==> t.docs[d].shardsDone >= Count(t, d, Done) && t.docs[d].shardsFailed >= Count(t, d, Failed)
  }

  ghost predicate Safe(t: Tables) {
    forall d :: d in t.docs ==> DocSafe(t, d)
  }

  ghost predicate Exact(t: Tables, d: string) {
    d in t.docs && t.docs[d].shardsDone == Count(t, d, Done) && t.docs[d].shardsFailed == Count(t, d, Failed)
  }

  function One(b: bool): nat { if b then 1 else 0 }

  /** Changing one row changes the counts of its old and its new state. */
  lemma CountAfter(t: Tables, t': Tables, k: Key, row: Row, d: string, state: RowState)
    requires k in t.shards && t'.shards == t.shards[k := row]
    ensures Count(t', d, state) == Count(t, d, state) - One(k.doc == d && t.shards[k].state == state) + One(k.doc == d && row.state == state)
  {
    DifferAt(InState(t, d, state), InState(t', d, state), k);
  }

  /** Two sets that agree on everything but k. */
  lemma DifferAt(a: set<Key>, b: set<Key>, k: Key)
    requires forall x :: x != k ==> (x in a <==> x in b)
    ensures |b| == |a| - One(k in a) + One(k in b)
  {
    assert a - {k} == b - {k};
    Without(a, k);
    Without(b, k);
  }

  lemma Without(s: set<Key>, k: Key)
    ensures |s| == |s - {k}| + One(k in s)
  {
    if k in s {
      assert s == s - {k} + {k};
    } else {
      assert s == s - {k};
    }
  }

  lemma SameRows(t: Tables, t': Tables, d: string, state: RowState)
    requires forall k: Key :: k.doc == d ==> (k in t.shards <==> k in t'.shards)
    requires forall k :: k in t.shards && k.doc == d ==> (t.shards[k].state == state <==> t'.shards[k].state == state)
    ensures Count(t', d, state) == Count(t, d, state)
  {
    assert InState(t', d, state) == InState(t, d, state);
  }

  lemma InsertedCount(t: Tables, t': Tables, d: string, bounds: seq<(int, int)>, startIdx: int, e: string, state: RowState)
    requires t'.shards == Inserted(t.shards, d, bounds, startIdx) && state != Pending
    requires forall k :: k in t.shards && k.doc == d ==> !(startIdx <= k.idx < startIdx + |bounds|)
    ensures Count(t', e, state) == Count(t, e, state)
  {
    forall k: Key ensures k in InState(t', e, state) <==> k in InState(t, e, state) {
      InsertedRows(t.shards, d, bounds, startIdx, k);
    }
    assert InState(t', e, state) == InState(t, e, state);
  }

  // ---- how far the counters lead, transaction by transaction --------------------

  function DoneLead(t: Tables, d: string): int
    requires d in t.docs
  {
    t.docs[d].shardsDone - Count(t, d, Done)
  }

  function FailedLead(t: Tables, d: string): int
    requires d in t.docs
  {
    t.docs[d].shardsFailed - Count(t, d, Failed)
  }

  predicate RowIs(t: Tables, k: Key, state: RowState) {
    k in t.shards && t.shards[k].state == state
  }

  /** Skipping the parent and inserting its sub-shards goes through. */
  predicate Resplits(t: Tables, op: Op) {
    op.OpResplit? && op.k in t.shards && !InsertConflicts(t, op.k.doc, op.bounds, op.startIdx)
  }

  /**
   * The done counter gains on the rows when a shard is finished that has no row or is done
   * already, when a done shard is failed, and when a done shard is replaced.
   */
  predicate DoneGains(t: Tables, op: Op, d: string) {
    match op
    case OpDone(k) => k.doc == d && (k !in t.shards || RowIs(t, k, Done))
    case OpFailed(k) => k.doc == d && RowIs(t, k, Done)
    case OpResplit(k, _, _, _) => k.doc == d && Resplits(t, op) && RowIs(t, k, Done)
    case _ => false
  }

  /**
   * The failed counter gains when a shard fails that has no row or has failed already, and when
   * a failed shard is claimed, finished or replaced.
   */
  predicate FailedGains(t: Tables, op: Op, d: string) {
    match op
    case OpFailed(k) => k.doc == d && (k !in t.shards || RowIs(t, k, Failed))
    case OpClaim(k, _, _) => k.doc == d && RowIs(t, k, Failed)
    case OpDone(k) => k.doc == d && RowIs(t, k, Failed)
    case OpResplit(k, _, _, _) => k.doc == d && Resplits(t, op) && RowIs(t, k, Failed)
    case _ => false
  }

  /** The counters are rewritten from the rows. */
  predicate Recounts(op: Op, d: string) {
    op == OpReset(d) || (op.OpRepair? && op.d == d)
  }

  /** The leads after a transaction: what LeadsAfter proves of every one. */
  ghost predicate LeadsMove(t: Tables, op: Op, d: string)
    requires d in t.docs
  {
    var t' := Apply(t, op);
    && d in t'.docs
    && DoneLead(t', d) == (if Recounts(op, d) then 0 else DoneLead(t, d) + One(DoneGains(t, op, d)))
    && FailedLead(t', d) == (if Recounts(op, d) then 0 else FailedLead(t, d) + One(FailedGains(t, op, d)))
  }

  lemma RowLeads(t: Tables, op: Op, d: string)
    requires d in t.docs && (op.OpClaim? || op.OpDone? || op.OpFailed?)
    ensures LeadsMove(t, op, d)
  {
    hide Count, InState;
    var t' := Apply(t, op);
    if op.k in t.shards {
      CountAfter(t, t', op.k, t'.shards[op.k], d, Done);
      CountAfter(t, t', op.k, t'.shards[op.k], d, Failed);
    } else {
      SameRows(t, t', d, Done);
      SameRows(t, t', d, Failed);
    }
  }

  lemma SplitLeads(t: Tables, op: Op, d: string)
    requires d in t.docs && op.OpSplit?
    ensures LeadsMove(t, op, d)
  {
    if !InsertConflicts(t, op.d, op.bounds, 0) {
      InsertedCount(t, Apply(t, op), op.d, op.bounds, 0, d, Done);
      InsertedCount(t, Apply(t, op), op.d, op.bounds, 0, d, Failed);
    }
  }

  lemma ResplitLeads(t: Tables, op: Op, d: string)
    requires d in t.docs && op.OpResplit?
    ensures LeadsMove(t, op, d)
  {
    if Resplits(t, op) {
      var row := t.shards[op.k].(state := RowState.Skipped);
      var mid := t.(shards := t.shards[op.k := row]);
      CountAfter(t, mid, op.k, row, d, Done);
      CountAfter(t, mid, op.k, row, d, Failed);
      InsertedCount(mid, Apply(t, op), op.k.doc, op.bounds, op.startIdx, d, Done);
      InsertedCount(mid, Apply(t, op), op.k.doc, op.bounds, op.startIdx, d, Failed);
    }
  }

  /** Escalation adds exactly the escalated rows to both the count and the counter. */
  lemma EscalateCounts(t: Tables, maxAttempts: int, d: string)
    ensures var t' := Escalate(t, maxAttempts);
            && Count(t', d, Done) == Count(t, d, Done)
            && Count(t', d, Failed) == Count(t, d, Failed) + |KeysOf(StuckKeys(t, maxAttempts), d)|
  {
    var t' := Escalate(t, maxAttempts);
    SameRows(t, t', d, Done);
    assert InState(t', d, Failed) == InState(t, d, Failed) + KeysOf(StuckKeys(t, maxAttempts), d);
    assert InState(t, d, Failed) !! KeysOf(StuckKeys(t, maxAttempts), d);
  }

  lemma RetryLeads(t: Tables, e: string, d: string)
    requires d in t.docs
    ensures LeadsMove(t, OpRetry(e), d)
  {
    var t' := Retry(t, e);
    SameRows(t, t', d, Done);
    if d == e {
      assert InState(t', d, Failed) == {};
    } else {
      SameRows(t, t', d, Failed);
    }
  }

  /** Reaping, repair and the changes of a document's state leave all counts alone. */
  lemma SameCounts(t: Tables, op: Op, d: string)
    requires d in t.docs && (op.OpReap? || op.OpRepair? || op.OpSetState? || op.OpRegister?)
    ensures LeadsMove(t, op, d)
  {
    SameRows(t, Apply(t, op), d, Done);
    SameRows(t, Apply(t, op), d, Failed);
  }

  lemma RemovalLeads(t: Tables, op: Op, d: string)
    requires d in t.docs && (op.OpReset? || op.OpDelete?) && op != OpDelete(d)
    ensures LeadsMove(t, op, d)
  {
    var t' := Apply(t, op);
    if d == op.d {
      assert InState(t', d, Done) == {} && InState(t', d, Failed) == {};
    } else {
      SameRows(t, t', d, Done);
      SameRows(t, t', d, Failed);
    }
  }

  /** Every transaction moves a document's leads by what DoneGains and FailedGains say, and only a recount lowers them. */
  lemma LeadsAfter(t: Tables, op: Op, d: string)
    requires d in t.docs && op != OpDelete(d)
    ensures LeadsMove(t, op, d)
  {
    hide LeadsMove;
    match op
    case OpSplit(_, _) => SplitLeads(t, op, d);
    case OpClaim(_, _, _) => RowLeads(t, op, d);
    case OpDone(_) => RowLeads(t, op, d);
    case OpFailed(_) => RowLeads(t, op, d);
    case OpResplit(_, _, _, _) => ResplitLeads(t, op, d);
    case OpEscalate(maxAttempts) => EscalateLeads(t, maxAttempts, d);
    case OpRetry(e) => RetryLeads(t, e, d);
    case OpReset(_) => RemovalLeads(t, op, d);
    case OpDelete(_) => RemovalLeads(t, op, d);
    case _ => SameCounts(t, op, d);
  }

  lemma EscalateLeads(t: Tables, maxAttempts: int, d: string)
    requires d in t.docs
    ensures LeadsMove(t, OpEscalate(maxAttempts), d)
  {
    EscalateCounts(t, maxAttempts, d);
  }

  /** Exact counters stay exact precisely when neither of them gains on the rows. */
  lemma StaysExact(t: Tables, op: Op, d: string)
    requires Exact(t, d) && op != OpDelete(d)
    ensures Exact(Apply(t, op), d) <==> !DoneGains(t, op, d) && !FailedGains(t, op, d)
  {
    hide DoneGains, FailedGains, Apply;
    LeadsAfter(t, op, d);
    GainsOrRecounts(t, op, d);
  }

  lemma GainsOrRecounts(t: Tables, op: Op, d: string)
    ensures Recounts(op, d) ==> !DoneGains(t, op, d) && !FailedGains(t, op, d)
  {
  }

  // ---- what the janitor's and the retry's updates do to the rows -------------------

  function ExpiredOf(t: Tables, d: string, now: int): set<Key> {
    set k | k in t.shards && k.doc == d && Expired(t.shards[k], now)
  }

  lemma ReapRow(t: Tables, now: int, k: Key)
    ensures var t' := Reap(t, now);
            && (k in t'.shards <==> k in t.shards)
            && (k in t.shards && !Expired(t.shards[k], now) ==> t'.shards[k] == t.shards[k])
            && (k in t.shards && Expired(t.shards[k], now) ==>
                  && t.shards[k].state == Running && t'.shards[k].state == Pending && t'.shards[k].attempts == t.shards[k].attempts)
            && (k in t.shards ==> !Expired(t'.shards[k], now))
  {
  }

  /** Rows that move from one state to another move between the counts. */
  lemma MovedCounts(t: Tables, t': Tables, d: string, hit: set<Key>, from: RowState, to: RowState)
    requires from != to && hit <= InState(t, d, from)
    requires InState(t', d, from) == InState(t, d, from) - hit && InState(t', d, to) == InState(t, d, to) + hit
    ensures Count(t', d, from) == Count(t, d, from) - |hit| && Count(t', d, to) == Count(t, d, to) + |hit|
  {
    assert hit !! InState(t, d, to);
    var left := InState(t, d, from) - hit;
    assert InState(t, d, from) == left + hit;
  }

  lemma ReapStates(t: Tables, now: int, d: string, state: RowState)
    ensures var was, hit := InState(t, d, state), ExpiredOf(t, d, now);
            && InState(Reap(t, now), d, state) == (if state == Running then was - hit else if state == Pending then was + hit else was)
            && (state == Running ==> hit <= was)
  {
    var was, has, hit := InState(t, d, state), InState(Reap(t, now), d, state), ExpiredOf(t, d, now);
    forall k: Key ensures k in has <==> if state == Running then k in was - hit else if state == Pending then k in was + hit else k in was {
      ReapRow(t, now, k);
    }
  }

  /**
   * Reaping: afterwards no lease is expired; exactly the rows with an expired one have moved from
   * running to pending, where anybody may claim them; the counts of the other states are as they were.
   */
  lemma ReapExactly(t: Tables, now: int, d: string)
    ensures var t', n := Reap(t, now), |ExpiredOf(t, d, now)|;
            && ExpiredOf(t', d, now) == {}
            && Count(t', d, Running) == Count(t, d, Running) - n && Count(t', d, Pending) == Count(t, d, Pending) + n
            && Count(t', d, Done) == Count(t, d, Done) && Count(t', d, Failed) == Count(t, d, Failed)
  {
    forall k: Key ensures k !in ExpiredOf(Reap(t, now), d, now) {
      ReapRow(t, now, k);
    }
    hide Reap, Expired, ExpiredOf, InState;
    ReapStates(t, now, d, Running);
    ReapStates(t, now, d, Pending);
    ReapStates(t, now, d, Done);
    ReapStates(t, now, d, Failed);
    MovedCounts(t, Reap(t, now), d, ExpiredOf(t, d, now), Running, Pending);
  }

  /**
   * Requeueing: the document has no failed row left, its counter drops by what it lost, and the
   * rows of every other state or document, and every other document's counters, are as they were.
   */
  lemma RequeueExactly(t: Tables, d: string)
    requires d in t.docs
    ensures var t' := RequeueFailed(t, d);
            && Count(t', d, Failed) == 0 && FailedLead(t', d) == FailedLead(t, d)
            && Count(t', d, Pending) == Count(t, d, Pending) + Count(t, d, Failed)
            && t'.shards.Keys == t.shards.Keys
            && (forall k :: k in t.shards ==> (t'.shards[k] != t.shards[k] <==> k in InState(t, d, Failed)))
            && (forall k :: k in InState(t, d, Failed) ==> Claimable(t', k) && t'.shards[k].attempts == t.shards[k].attempts)
            && forall e :: e in t.docs && e != d ==> t'.docs[e] == t.docs[e]
  {
    var t' := RequeueFailed(t, d);
    assert InState(t', d, Failed) == {};
    assert InState(t', d, Pending) == InState(t, d, Pending) + InState(t, d, Failed);
    assert InState(t, d, Pending) !! InState(t, d, Failed);
    assert t'.shards.Keys == t.shards.Keys;
  }

  /** No shard row without its document. */
  ghost predicate Anchored(t: Tables) {
    forall k :: k in t.shards ==> k.doc in t.docs
  }

  lemma AnchoredKept(t: Tables, op: Op)
    requires Anchored(t)
    ensures Anchored(Apply(t, op))
  {
    if op.OpSplit? {
      forall k | k in Apply(t, op).shards ensures k.doc in Apply(t, op).docs {
        InsertedRows(t.shards, op.d, op.bounds, 0, k);
      }
    } else if op.OpResplit? && op.k in t.shards {
      var skipped := t.shards[op.k := t.shards[op.k].(state := RowState.Skipped)];
      forall k | k in Apply(t, op).shards ensures k.doc in Apply(t, op).docs {
        InsertedRows(skipped, op.k.doc, op.bounds, op.startIdx, k);
      }
    }
  }

  /** No transaction lets a counter fall below the rows. */
  lemma ApplySafe(t: Tables, op: Op)
    requires Safe(t) && Anchored(t)
    ensures Safe(Apply(t, op))
  {
    hide LeadsMove, DoneGains, FailedGains;
    var t' := Apply(t, op);
    forall d | d in t'.docs ensures DocSafe(t', d) {
      if d in t.docs {
        hide Apply;
        assert DocSafe(t, d);
        if op == OpDelete(d) {
          NotDeleted(t, d);
        } else {
          LeadsAfter(t, op, d);
          LeadsSafe(t, op, d);
        }
      } else {
        NewDoc(t, op, d);
      }
    }
  }

  lemma NotDeleted(t: Tables, d: string)
    ensures d !in Apply(t, OpDelete(d)).docs
  {
  }

  lemma LeadsSafe(t: Tables, op: Op, d: string)
    requires d in t.docs && DocSafe(t, d) && LeadsMove(t, op, d)
    ensures DocSafe(Apply(t, op), d)
  {
    hide Apply, DoneGains, FailedGains;
  }

  /** A document registered just now has no rows. */
  lemma NewDoc(t: Tables, op: Op, d: string)
    requires Anchored(t) && d !in t.docs && d in Apply(t, op).docs
    ensures DocSafe(Apply(t, op), d)
  {
    assert op == OpRegister(d);
    assert InState(t, d, Done) == {} && InState(t, d, Failed) == {};
    SameRows(t, Apply(t, op), d, Done);
    SameRows(t, Apply(t, op), d, Failed);
  }

  /** Over all runs, the counters are safe; they may run ahead of the true counts. */
  lemma {:induction false} CountersSafe(ops: seq<Op>)
    ensures var t := ApplyAll(EMPTY_TABLES, ops);
            Safe(t) && Anchored(t) && forall d :: d in t.docs ==> t.docs[d].shardsFailed >= 0
    decreases |ops|
  {
    if ops == [] {
    } else {
      var before := ApplyAll(EMPTY_TABLES, ops[..|ops| - 1]);
      CountersSafe(ops[..|ops| - 1]);
      ApplySafe(before, ops[|ops| - 1]);
      AnchoredKept(before, ops[|ops| - 1]);
    }
    var t := ApplyAll(EMPTY_TABLES, ops);
    forall d | d in t.docs ensures t.docs[d].shardsFailed >= 0 {
      assert DocSafe(t, d);
    }
  }

  // ---- settlement --------------------------------------------------------------

  ghost predicate AllSettled(t: Tables, d: string) {
    forall k :: k in RowsOf(t, d) ==> t.shards[k].state in {Done, Failed}
  }

  lemma SettledCount(t: Tables, d: string)
    ensures Count(t, d, Done) + Count(t, d, Failed) <= |RowsOf(t, d)|
    ensures Count(t, d, Done) + Count(t, d, Failed) == |RowsOf(t, d)| <==> AllSettled(t, d)
  {
    var done, failed, rows := InState(t, d, Done), InState(t, d, Failed), RowsOf(t, d);
    assert done !! failed && done + failed <= rows;
    assert |done + failed| == |done| + |failed|;
    Subset(done + failed, rows);
    assert done + failed == rows <==> AllSettled(t, d) by {
      if AllSettled(t, d) {
        assert rows <= done + failed;
      } else {
        var k :| k in rows && t.shards[k].state !in {Done, Failed};
        assert k !in done + failed;
      }
    }
  }

  lemma {:induction false} Subset(a: set<Key>, b: set<Key>)
    requires a <= b
    ensures |a| <= |b| && (|a| == |b| <==> a == b)
  {
    assert b == a + (b - a);
    assert |b| == |a| + |b - a|;
  }

  /** After any run, a document whose rows are all done or failed is settled, when its total is set and within its rows. */
  lemma SettlesWhenAllSettled(ops: seq<Op>, d: string)
    requires var t := ApplyAll(EMPTY_TABLES, ops);
             d in t.docs && AllSettled(t, d) && t.docs[d].total.Some? && 0 < t.docs[d].total.value <= |RowsOf(t, d)|
    ensures BookSettled(ApplyAll(EMPTY_TABLES, ops).docs[d])
  {
    var t := ApplyAll(EMPTY_TABLES, ops);
    CountersSafe(ops);
    assert DocSafe(t, d);
    SettledCount(t, d);
  }

  /** With exact counters and a total equal to the rows, settled means exactly: every row done or failed. */
  lemma SettledExactly(t: Tables, d: string)
    requires Exact(t, d) && t.docs[d].total == Some(|RowsOf(t, d)|)
    ensures BookSettled(t.docs[d]) <==> RowsOf(t, d) != {} && AllSettled(t, d)
  {
    SettledCount(t, d);
    assert RowsOf(t, d) == {} <==> |RowsOf(t, d)| == 0;
  }

  /**
   * However far the counters have drifted, a repair makes them exact and touches no other
   * document; with a total equal to the rows, settled then means every row done or failed.
   */
  lemma RepairExact(t: Tables, e: string, chunked: bool)
    requires e in t.docs
    ensures var t' := Repair(t, e, chunked);
            && Exact(t', e) && t'.shards == t.shards && (forall d :: d in t.docs && d != e ==> t'.docs[d] == t.docs[d])
            && (t.docs[e].total == Some(|RowsOf(t, e)|) ==> (BookSettled(t'.docs[e]) <==> RowsOf(t, e) != {} && AllSettled(t, e)))
  {
    var t' := Repair(t, e, chunked);
    LeadsAfter(t, OpRepair(e, chunked), e);
    assert RowsOf(t', e) == RowsOf(t, e);
    if t.docs[e].total == Some(|RowsOf(t, e)|) {
      SettledExactly(t', e);
    }
  }

  /** So a skipped parent, which stays in both the rows and the total, keeps such a document unsettled. */
  ghost predicate Blocked(t: Tables, k: Key) {
    Exact(t, k.doc) && t.docs[k.doc].total == Some(|RowsOf(t, k.doc)|) && RowIs(t, k, RowState.Skipped)
  }

  lemma SkippedParentBlocks(t: Tables, k: Key)
    requires Blocked(t, k)
    ensures !BookSettled(t.docs[k.doc])
  {
    SettledExactly(t, k.doc);
    assert k in RowsOf(t, k.doc);
  }

  lemma {:induction false} InsertedRowCount(t: Tables, d: string, bounds: seq<(int, int)>, startIdx: int)
    requires forall k :: k in t.shards && k.doc == d ==> !(startIdx <= k.idx < startIdx + |bounds|)
    ensures |RowsOf(t.(shards := Inserted(t.shards, d, bounds, startIdx)), d)| == |RowsOf(t, d)| + |bounds|
    decreases |bounds|
  {
    var n := |bounds| - 1;
    if bounds == [] {
      assert t.(shards := t.shards) == t;
    } else {
      var before := t.(shards := Inserted(t.shards, d, bounds[..n], startIdx));
      InsertedRowCount(t, d, bounds[..n], startIdx);
      InsertedRows(t.shards, d, bounds[..n], startIdx, Key(d, startIdx + n));
      DifferAt(RowsOf(before, d), RowsOf(t.(shards := Inserted(t.shards, d, bounds, startIdx)), d), Key(d, startIdx + n));
    }
  }

  /** The i-th new shard: the i-th range of pages, nobody's and never tried. */
  predicate NewShard(t: Tables, d: string, i: int, bound: (int, int)) {
    Key(d, i) in t.shards && t.shards[Key(d, i)] == Row(bound.0, bound.1, Pending, 0, None, None)
  }

  /**
   * A committed split of a registered document without rows: its rows are exactly the bounds, its
   * total is their number, and exact counters stay exact; nothing else changes.
   */
  lemma CommitExactly(t: Tables, d: string, bounds: seq<(int, int)>)
    requires d in t.docs && RowsOf(t, d) == {}
    ensures var t' := CommitSplit(t, d, bounds);
            && t'.docs.Keys == t.docs.Keys && t'.docs[d] == t.docs[d].(state := Parsing, total := Some(|RowsOf(t', d)|))
            && |RowsOf(t', d)| == |bounds| && (forall i :: 0 <= i < |bounds| ==> NewShard(t', d, i, bounds[i]))
            && (Exact(t', d) <==> Exact(t, d))
            && (forall e :: e in t.docs && e != d ==> t'.docs[e] == t.docs[e])
            && forall k :: k in t.shards ==> k in t'.shards && t'.shards[k] == t.shards[k]
  {
    var t' := CommitSplit(t, d, bounds);
    assert forall k :: k in t.shards && k.doc == d ==> k in RowsOf(t, d);
    InsertedRowCount(t, d, bounds, 0);
    assert RowsOf(t', d) == RowsOf(t.(shards := Inserted(t.shards, d, bounds, 0)), d);
    forall i | 0 <= i < |bounds| ensures NewShard(t', d, i, bounds[i]) {
      InsertedRows(t.shards, d, bounds, 0, Key(d, i));
    }
    forall k | k in t.shards ensures k in t'.shards && t'.shards[k] == t.shards[k] {
      InsertedRows(t.shards, d, bounds, 0, k);
    }
    LeadsAfter(t, OpSplit(d, bounds), d);
  }

  /** A resplit that adds to the document's current total, as the handler does when it read it last. */
  predicate AddsToTotal(t: Tables, op: Op) {
    op.OpResplit? && Resplits(t, op) && op.k.doc in t.docs && t.docs[op.k.doc].total.Some?
    && op.newTotal == t.docs[op.k.doc].total.value + |op.bounds|
  }

  /** Such a resplit of a shard that is not done or failed blocks its document. */
  lemma ResplitBlocks(t: Tables, op: Op)
    requires AddsToTotal(t, op) && t.shards[op.k].state !in {Done, Failed}
    requires Exact(t, op.k.doc) && t.docs[op.k.doc].total == Some(|RowsOf(t, op.k.doc)|)
    ensures Blocked(Apply(t, op), op.k)
  {
    StaysExact(t, op, op.k.doc);
    TotalKept(t, op);
    InsertedRows(t.shards[op.k := t.shards[op.k].(state := RowState.Skipped)], op.k.doc, op.bounds, op.startIdx, op.k);
  }

  lemma TotalKept(t: Tables, op: Op)
    requires AddsToTotal(t, op) && t.docs[op.k.doc].total == Some(|RowsOf(t, op.k.doc)|)
    ensures Apply(t, op).docs[op.k.doc].total == Some(|RowsOf(Apply(t, op), op.k.doc)|)
  {
    var d := op.k.doc;
    var mid := t.(shards := t.shards[op.k := t.shards[op.k].(state := RowState.Skipped)]);
    assert RowsOf(mid, d) == RowsOf(t, d);
    InsertedRowCount(mid, d, op.bounds, op.startIdx);
    assert RowsOf(Apply(t, op), d) == RowsOf(mid.(shards := Inserted(mid.shards, d, op.bounds, op.startIdx)), d);
  }

  /** What happens to a document whose resplits all add to its current total, short of a full retry. */
  predicate Ordinary(t: Tables, op: Op, k: Key) {
    && !DoneGains(t, op, k.doc) && !FailedGains(t, op, k.doc)
    && op != OpDone(k) && op != OpFailed(k) && op != OpReset(k.doc) && op != OpDelete(k.doc)
    && (op.OpSplit? && op.d == k.doc ==> InsertConflicts(t, op.d, op.bounds, 0))
    && (op.OpResplit? && op.k.doc == k.doc && Resplits(t, op) ==> AddsToTotal(t, op))
  }

  /** Whatever becomes of the sub-shards, the document stays unsettled from then on. */
  lemma BlockedStays(t: Tables, op: Op, k: Key)
    requires Blocked(t, k) && Ordinary(t, op, k)
    ensures Blocked(Apply(t, op), k)
  {
    hide DoneGains, FailedGains, Count;
    StaysExact(t, op, k.doc);
    hide Exact;
    if op.OpResplit? && Resplits(t, op) {
      InsertedRows(t.shards[op.k := t.shards[op.k].(state := RowState.Skipped)], op.k.doc, op.bounds, op.startIdx, k);
      if op.k.doc == k.doc {
        TotalKept(t, op);
      } else {
        SameDocRows(t, op, k.doc);
      }
    } else if op.OpSplit? && !InsertConflicts(t, op.d, op.bounds, 0) {
      InsertedRows(t.shards, op.d, op.bounds, 0, k);
      SameDocRows(t, op, k.doc);
    } else {
      assert RowsOf(Apply(t, op), k.doc) == RowsOf(t, k.doc);
    }
  }

  /** Rows inserted for one document are not another's. */
  lemma SameDocRows(t: Tables, op: Op, d: string)
    requires (op.OpSplit? && op.d != d) || (op.OpResplit? && op.k.doc != d)
    ensures RowsOf(Apply(t, op), d) == RowsOf(t, d)
  {
    var t' := Apply(t, op);
    forall k: Key ensures k in RowsOf(t', d) <==> k in RowsOf(t, d) {
      if op.OpSplit? {
        InsertedRows(t.shards, op.d, op.bounds, 0, k);
      } else if op.k in t.shards {
        InsertedRows(t.shards[op.k := t.shards[op.k].(state := RowState.Skipped)], op.k.doc, op.bounds, op.startIdx, k);
      }
    }
  }

  // ---- a document that is never settled ------------------------------------------------

  const BOOK: string := "d"

  function BookOf(total: int, done: int): map<string, Doc> { map[BOOK := Doc(Parsing, Some(total), done, 0)] }

  function Part(first: int, last: int, state: RowState): Row {
    if state == Pending then FreshRow((first, last))
    else Row(first, last, state, 1, Some(0), if state == Done then None else Some(9))
  }

  /** The parent, re-split into two halves in the given states. */
  function Halves(left: RowState, right: RowState, done: int): Tables {
    Tables(map[Key(BOOK, 0) := Row(1, 4, RowState.Skipped, 1, Some(0), Some(9)), Key(BOOK, 1) := Part(1, 2, left), Key(BOOK, 2) := Part(3, 4, right)],
           BookOf(3, done))
  }

  lemma Extend(ops: seq<Op>, t: Tables, op: Op, t': Tables)
    requires ApplyAll(EMPTY_TABLES, ops) == t && Apply(t, op) == t'
    ensures ApplyAll(EMPTY_TABLES, ops + [op]) == t'
  {
    assert (ops + [op])[..|ops|] == ops;
  }

  lemma SplitInHalves()
    ensures Apply(Tables(map[Key(BOOK, 0) := Row(1, 4, Running, 1, Some(0), Some(9))], BookOf(1, 0)), OpResplit(Key(BOOK, 0), [(1, 2), (3, 4)], 1, 3))
            == Halves(Pending, Pending, 0)
  {
    var t := Tables(map[Key(BOOK, 0) := Row(1, 4, Running, 1, Some(0), Some(9))], BookOf(1, 0));
    var skipped := map[Key(BOOK, 0) := Row(1, 4, RowState.Skipped, 1, Some(0), Some(9))];
    var both, first: seq<(int, int)> := [(1, 2), (3, 4)], [(1, 2)];
    assert both[..1] == first && first[..0] == [];
    assert Inserted(skipped, BOOK, first, 1) == skipped[Key(BOOK, 1) := FreshRow((1, 2))];
    assert Inserted(skipped, BOOK, both, 1) == Inserted(skipped, BOOK, first, 1)[Key(BOOK, 2) := FreshRow((3, 4))];
    assert Inserted(skipped, BOOK, both, 1) == Halves(Pending, Pending, 0).shards;
    assert t.shards[Key(BOOK, 0) := t.shards[Key(BOOK, 0)].(state := RowState.Skipped)] == skipped;
    assert SetTotal(t.docs, BOOK, 3) == BookOf(3, 0);
  }

  lemma SplitWhole()
    ensures Apply(Tables(map[], map[BOOK := FRESH_DOC]), OpSplit(BOOK, [(1, 4)])) == Tables(map[Key(BOOK, 0) := FreshRow((1, 4))], BookOf(1, 0))
  {
    var bounds := [(1, 4)];
    assert bounds[..0] == [];
    assert Inserted(map[], BOOK, bounds, 0) == map[][Key(BOOK, 0) := FreshRow((1, 4))];
  }

  lemma ClaimAndFinish(state: RowState, done: int, idx: int)
    requires idx == 1 || idx == 2
    requires idx == 1 ==> state == Pending
    ensures var t := if idx == 1 then Halves(Pending, state, done) else Halves(state, Pending, done);
            Apply(Apply(t, OpClaim(Key(BOOK, idx), 0, 9)), OpDone(Key(BOOK, idx)))
            == if idx == 1 then Halves(Done, state, done + 1) else Halves(state, Done, done + 1)
  {
  }

  function WholeRun(): seq<Op> {
    [OpRegister(BOOK)] + [OpSplit(BOOK, [(1, 4)])] + [OpClaim(Key(BOOK, 0), 0, 9)] + [OpResplit(Key(BOOK, 0), [(1, 2), (3, 4)], 1, 3)]
  }

  lemma ClaimWhole()
    ensures Apply(Tables(map[Key(BOOK, 0) := FreshRow((1, 4))], BookOf(1, 0)), OpClaim(Key(BOOK, 0), 0, 9))
            == Tables(map[Key(BOOK, 0) := Row(1, 4, Running, 1, Some(0), Some(9))], BookOf(1, 0))
  {
  }

  lemma WholeRunIs()
    ensures ApplyAll(EMPTY_TABLES, WholeRun()) == Halves(Pending, Pending, 0)
  {
    hide Halves;
    var registered, whole := Tables(map[], map[BOOK := FRESH_DOC]), Tables(map[Key(BOOK, 0) := FreshRow((1, 4))], BookOf(1, 0));
    var claimed := Tables(map[Key(BOOK, 0) := Row(1, 4, Running, 1, Some(0), Some(9))], BookOf(1, 0));
    assert ApplyAll(EMPTY_TABLES, []) == EMPTY_TABLES;
    Extend([], EMPTY_TABLES, OpRegister(BOOK), registered);
    assert [] + [OpRegister(BOOK)] == [OpRegister(BOOK)];
    SplitWhole();
    ClaimWhole();
    SplitInHalves();
    hide Apply;
    Extend([OpRegister(BOOK)], registered, OpSplit(BOOK, [(1, 4)]), whole);
    Extend([OpRegister(BOOK)] + [OpSplit(BOOK, [(1, 4)])], whole, OpClaim(Key(BOOK, 0), 0, 9), claimed);
    Extend([OpRegister(BOOK)] + [OpSplit(BOOK, [(1, 4)])] + [OpClaim(Key(BOOK, 0), 0, 9)], claimed,
           OpResplit(Key(BOOK, 0), [(1, 2), (3, 4)], 1, 3), Halves(Pending, Pending, 0));
  }

  lemma HalvesBlocked()
    ensures Blocked(Halves(Done, Done, 2), Key(BOOK, 0))
  {
    var t := Halves(Done, Done, 2);
    assert RowsOf(t, BOOK) == {Key(BOOK, 0), Key(BOOK, 1), Key(BOOK, 2)};
    assert InState(t, BOOK, Done) == {Key(BOOK, 1), Key(BOOK, 2)} && InState(t, BOOK, Failed) == {};
  }

  lemma Finishing(ops: seq<Op>, t: Tables, t': Tables, idx: int) returns (more: seq<Op>)
    requires ApplyAll(EMPTY_TABLES, ops) == t
    requires Apply(Apply(t, OpClaim(Key(BOOK, idx), 0, 9)), OpDone(Key(BOOK, idx))) == t'
    ensures ApplyAll(EMPTY_TABLES, more) == t'
  {
    hide Apply;
    Extend(ops, t, OpClaim(Key(BOOK, idx), 0, 9), Apply(t, OpClaim(Key(BOOK, idx), 0, 9)));
    Extend(ops + [OpClaim(Key(BOOK, idx), 0, 9)], Apply(t, OpClaim(Key(BOOK, idx), 0, 9)), OpDone(Key(BOOK, idx)), t');
    more := ops + [OpClaim(Key(BOOK, idx), 0, 9)] + [OpDone(Key(BOOK, idx))];
  }

  /** A document is split into one shard, which is re-split; both halves are done; it is not settled and never will be. */
  lemma NeverSettles() returns (ops: seq<Op>)
    ensures var t := ApplyAll(EMPTY_TABLES, ops);
            && Blocked(t, Key(BOOK, 0)) && t.docs[BOOK].state == Parsing && !BookSettled(t.docs[BOOK])
            && (exists k :: k in RowsOf(t, BOOK) && t.shards[k].state == Done)
            && forall k :: k in RowsOf(t, BOOK) && k != Key(BOOK, 0) ==> t.shards[k].state == Done
  {
    WholeRunIs();
    ClaimAndFinish(Pending, 0, 1);
    ClaimAndFinish(Done, 1, 2);
    ops := Finishing(WholeRun(), Halves(Pending, Pending, 0), Halves(Done, Pending, 1), 1);
    ops := Finishing(ops, Halves(Done, Pending, 1), Halves(Done, Done, 2), 2);
    HalvesBlocked();
    SkippedParentBlocks(Halves(Done, Done, 2), Key(BOOK, 0));
    assert Key(BOOK, 1) in RowsOf(Halves(Done, Done, 2), BOOK);
  }
}
