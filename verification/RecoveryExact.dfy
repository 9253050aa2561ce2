/** Exactly which configurations keep every shard within reach of recovery. */
module RecoveryExact {
  import opened Chunks
  import opened ShardTables
  import opened Protocol
  import opened Recovery
  import opened Reopening
  import opened Scenes
  import RecoveryGap
  import LetterGap
  import ReopenGap

  /** In every run, every shard of a document at work is within reach. */
  ghost predicate AlwaysInReach(p: Params) {
    forall run: seq<Event>, k: Key :: After(p, run).Some? ==> !OutOfReach(p, After(p, run).value, k)
  }

  /** The same of the runs in which nothing but the fan-out of a split queues a job, and the janitor adds reclaimed ones again. */
  ghost predicate InReachAfterFanOut(p: Params) {
    forall run: seq<Event>, k: Key :: After(p, run).Some? && FanOutOnly(run) ==> !OutOfReach(p, After(p, run).value, k)
  }

  /** Every other configuration has a run that strands a shard after its first attempt. */
  lemma Strands(p: Params) returns (run: seq<Event>)
    requires p.Valid() && (!Timely(p) || Exposed(p))
    ensures After(p, run).Some? && FanOutOnly(run)
    ensures OutOfReach(p, After(p, run).value, K) && After(p, run).value.t.shards[K].attempts == 1
  {
    hide OutOfReach, Timely, After, FanOutOnly;
    if !Timely(p) {
      run := RecoveryGap.UntimelyStrands(p);
    } else if p.eventsFail && p.maxAttempts >= 2 {
      run := LetterGap.LostLetterStrands(p);
    } else {
      run := ReopenGap.RetryStrands(p);
    }
  }

  /**
   * The configurations that never strand a shard of a document at work are exactly those in
   * which lease, claim delay and pass span together stay below the reclaim idle time, no
   * document that failed for a missing source is reopened with its rows kept, and no pass fails
   * with unwritten events or else shards have a single attempt. It makes no difference who
   * else may queue jobs.
   */
  lemma InReachExactly(p: Params)
    requires p.Valid()
    ensures AlwaysInReach(p) <==> Timely(p) && !Exposed(p)
    ensures InReachAfterFanOut(p) <==> Timely(p) && !Exposed(p)
  {
    hide OutOfReach, Timely, After, Exposed, FanOutOnly;
    if Timely(p) && !Exposed(p) {
      forall run: seq<Event>, k: Key | After(p, run).Some? ensures !OutOfReach(p, After(p, run).value, k) {
        WorkingDocsInReach(p, run, k);
      }
    } else {
      var run := Strands(p);
      assert OutOfReach(p, After(p, run).value, K);
    }
  }

  // ---- the last attempt ends by itself -------------------------------------------

  /** Under way for the last time: the next reap and escalation will fail it. */
  predicate LastAttempt(p: Params, r: Row) {
    r.state == Running && r.attempts >= p.maxAttempts
  }

  lemma LastAttemptFails(p: Params, t: Tables, k: Key, now: int)
    requires k in t.shards && LastAttempt(p, t.shards[k]) && Expired(t.shards[k], now)
    ensures var t' := Escalate(Reap(t, now), p.maxAttempts); k in t'.shards && t'.shards[k].state == Failed
  {
    assert k in StuckKeys(Reap(t, now), p.maxAttempts);
  }

  /** Out of reach, and not even in its last attempt. */
  ghost predicate Stranded(p: Params, s: State, k: Key) {
    OutOfReach(p, s, k) && !LastAttempt(p, s.t.shards[k])
  }

  ghost predicate NeverStranded(p: Params) {
    forall run: seq<Event>, k: Key :: After(p, run).Some? ==> !Stranded(p, After(p, run).value, k)
  }

  /** A running row has been attempted. */
  predicate Attempted(t: Tables, k: Key) {
    k in t.shards && t.shards[k].state == Running ==> t.shards[k].attempts >= 1
  }

  lemma AttemptedKept(t: Tables, op: Op, k: Key)
    requires Attempted(t, k)
    ensures Attempted(Apply(t, op), k)
  {
    if op.OpSplit? {
      InsertedRows(t.shards, op.d, op.bounds, 0, k);
    } else if op.OpResplit? && op.k in t.shards {
      InsertedRows(t.shards[op.k := t.shards[op.k].(state := RowState.Skipped)], op.k.doc, op.bounds, op.startIdx, k);
    }
  }

  lemma {:induction false} AlwaysAttempted(ops: seq<Op>, k: Key)
    ensures Attempted(ApplyAll(EMPTY_TABLES, ops), k)
  {
    hide Apply;
    if ops == [] {
    } else {
      AlwaysAttempted(ops[..|ops| - 1], k);
      AttemptedKept(ApplyAll(EMPTY_TABLES, ops[..|ops| - 1]), ops[|ops| - 1], k);
    }
  }

  /** With a single attempt a row is untried, settled, spent, or in its last attempt. */
  lemma OneAttempt(p: Params, run: seq<Event>, k: Key)
    requires p.maxAttempts == 1 && After(p, run).Some?
    ensures !Stranded(p, After(p, run).value, k)
  {
    hide After, Live, Recorded;
    var ops := TablesOfRun(p, run);
    AlwaysAttempted(ops, k);
  }

  /**
   * No shard is ever stranded for good exactly when it has a single attempt, or the times fit
   * and neither vanished sources meet reopened documents nor events get lost.
   */
  lemma NeverStrandedExactly(p: Params)
    requires p.Valid()
    ensures NeverStranded(p) <==> p.maxAttempts == 1 || (Timely(p) && !(p.sourcesVanish && p.reopens) && !p.eventsFail)
  {
    hide OutOfReach, Timely, After, FanOutOnly;
    if p.maxAttempts == 1 {
      forall run: seq<Event>, k: Key | After(p, run).Some? ensures !Stranded(p, After(p, run).value, k) {
        OneAttempt(p, run, k);
      }
    } else if Timely(p) && !Exposed(p) {
      InReachExactly(p);
    } else {
      var run := Strands(p);
      assert Stranded(p, After(p, run).value, K);
    }
  }
}
