/** Lease exclusion: between full retries, at most one unexpired claim per shard. */
module Leases {
  import opened Chunks
  import opened ShardTables
  import opened Protocol

  predicate Unexpired(c: ClaimRecord, now: int) {
    c.leaseUntil >= now
  }

  /** While a claim is unexpired its row runs under it, or has been finished or skipped, for good. */
  predicate Holds(t: Tables, c: ClaimRecord) {
    && c.key in t.shards
    && var r := t.shards[c.key];
       r.state == Done || r.state == RowState.Skipped
       || (r.state == Running && r.worker == Some(c.worker) && r.leaseUntil == Some(c.leaseUntil))
  }

  ghost predicate ClaimsHold(s: State) {
    forall c :: c in s.claims && Unexpired(c, s.now) ==> Holds(s.t, c)
  }

  ghost predicate Exclusive(s: State) {
    forall c, d :: c in s.claims && d in s.claims && c.key == d.key && Unexpired(c, s.now) && Unexpired(d, s.now) ==> c == d
  }

  /** A claim record belongs to a handler that has claimed, and an unread entry has no handler. */
  ghost predicate ClaimersKnown(s: State) {
    && (forall c :: c in s.claims ==> c.worker in s.workers && s.workers[c.worker].phase != Reading)
    && (forall e :: e in s.workers ==> e < s.nextId)
    && (forall e :: e in s.jobs ==> e < s.nextId && (!s.jobs[e].read ==> e !in s.workers))
  }

  ghost predicate LeaseInv(s: State) {
    ClaimsHold(s) && Exclusive(s) && ClaimersKnown(s)
  }

  /** The update that takes a row from whoever holds it; no code issues it. */
  predicate Takes(op: Op, k: Key) {
    op == OpFailed(k)
  }

  /**
   * With reaping only after the lease and resets aside, MarkShardFailed of this very row is the
   * one transaction that gives a held row away.
   */
  lemma HoldsApply(t: Tables, op: Op, c: ClaimRecord)
    requires Holds(t, c)
    requires op.OpReap? ==> op.now <= c.leaseUntil
    requires op.OpReset? || op.OpDelete? ==> c.key.doc != op.d
    ensures Holds(Apply(t, op), c) <==> !Takes(op, c.key)
  {
    if op.OpSplit? {
      InsertedRows(t.shards, op.d, op.bounds, 0, c.key);
    } else if op.OpResplit? && op.k in t.shards {
      InsertedRows(t.shards[op.k := t.shards[op.k].(state := RowState.Skipped)], op.k.doc, op.bounds, op.startIdx, c.key);
    }
  }

  lemma HoldsKept(p: Params, s: State, ev: Event, c: ClaimRecord)
    requires Enabled(p, s, ev) && Holds(s.t, c) && Unexpired(c, s.now)
    requires ev.RetryFull? || ev.DeleteDoc? ==> c.key.doc != ev.d
    ensures Holds(TablesAfter(p, s, ev), c)
  {
    hide Holds, Apply;
    var op := OpOf(p, s, ev);
    if op.Some? {
      HoldsApply(s.t, op.value, c);
    }
  }

  /** A claimable row is under no unexpired claim. */
  lemma ClaimableIsFree(s: State, k: Key)
    requires ClaimsHold(s) && Claimable(s.t, k)
    ensures forall c :: c in s.claims && c.key == k ==> !Unexpired(c, s.now)
  {
  }

  lemma ClaimsHoldKept(p: Params, s: State, ev: Event)
    requires Enabled(p, s, ev) && ClaimsHold(s)
    ensures ClaimsHold(Do(p, s, ev))
  {
    hide Holds, JobsAfter, TablesAfter, WorkersAfter, QuarantinedAfter, ForsakenAfter;
    var s' := Do(p, s, ev);
    forall c | c in s'.claims && Unexpired(c, s'.now) ensures Holds(s'.t, c) {
      if c in s.claims {
        HoldsKept(p, s, ev, c);
      } else {
        NewClaimHolds(p, s, ev);
      }
    }
  }

  lemma NewClaimHolds(p: Params, s: State, ev: Event)
    requires ev.ClaimRow? && Enabled(p, s, ev) && Claimable(s.t, s.workers[ev.e].key)
    ensures Holds(TablesAfter(p, s, ev), ClaimRecord(ev.e, s.workers[ev.e].key, ev.computedAt + p.lease))
  {
  }

  lemma ExclusiveKept(p: Params, s: State, ev: Event)
    requires Enabled(p, s, ev) && LeaseInv(s)
    ensures Exclusive(Do(p, s, ev))
  {
    hide Holds, JobsAfter, TablesAfter, WorkersAfter, QuarantinedAfter, ForsakenAfter;
    if ev.ClaimRow? && Claimable(s.t, s.workers[ev.e].key) {
      ClaimableIsFree(s, s.workers[ev.e].key);
    }
    hide Claimable;
  }

  lemma ClaimersKept(p: Params, s: State, ev: Event)
    requires Enabled(p, s, ev) && ClaimersKnown(s)
    ensures ClaimersKnown(Do(p, s, ev))
  {
    hide TablesAfter, Claimable, QuarantinedAfter, ForsakenAfter;
    var s' := Do(p, s, ev);
    assert s'.nextId >= s.nextId;
    forall c | c in s'.claims ensures c.worker in s'.workers && s'.workers[c.worker].phase != Reading {
      if c in s.claims {
        assert c.worker in s.workers && s.workers[c.worker].phase != Reading;
      }
    }
  }

  lemma {:induction false} LeaseInvHolds(p: Params, run: seq<Event>)
    requires After(p, run).Some?
    ensures LeaseInv(After(p, run).value)
    decreases |run|
  {
    hide ClaimsHold, Exclusive, ClaimersKnown, Do, Enabled;
    if run == [] {
      InitLeases();
    } else {
      var before := After(p, run[..|run| - 1]).value;
      var ev := run[|run| - 1];
      LeaseInvHolds(p, run[..|run| - 1]);
      ClaimsHoldKept(p, before, ev);
      ExclusiveKept(p, before, ev);
      ClaimersKept(p, before, ev);
    }
  }

  lemma InitLeases()
    ensures LeaseInv(INIT)
  {
  }

  /**
   * Over all runs, two unexpired claims on one shard since its document's last full retry are
   * the same claim, whatever stale workers finish or skip late; and a shard under an unexpired
   * claim runs under that claim or has been finished or skipped.
   */
  lemma LeaseExclusion(p: Params, run: seq<Event>, c: ClaimRecord, d: ClaimRecord)
    requires After(p, run).Some?
    requires var s := After(p, run).value;
             c in s.claims && d in s.claims && c.key == d.key && Unexpired(c, s.now) && Unexpired(d, s.now)
    ensures c == d && Holds(After(p, run).value.t, c)
  {
    LeaseInvHolds(p, run);
  }
}
