/** No shard is ever invisible to recovery. */
module Recovery {
  import opened Chunks
  import opened ShardTables
  import opened Protocol

  /** What an operator can check in the configuration. */
  predicate Timely(p: Params) {
    p.lease + p.claimDelay + p.passSpan < 1200
  }

  /** The entry will bring the shard's job to a handler again, or its handler still works on it. */
  predicate Carries(s: State, e: nat, k: Key) {
    e in s.jobs && s.jobs[e].key == k && !s.jobs[e].readded && !At(s, e, Closing)
  }

  ghost predicate Live(s: State, k: Key) {
    exists e :: Carries(s, e, k)
  }

  /** Dropped since its last claim, and the event of that is written or about to be. */
  ghost predicate Recorded(s: State, k: Key) {
    exists q :: q in s.quarantined && q.key == k && (q.id in s.events || q.id in s.descriptors)
  }

  /** Dropped since its last claim, and the event of that is lost. */
  ghost predicate LetterLost(s: State, k: Key) {
    exists q :: q in s.quarantined && q.key == k && q.id in s.lost
  }

  /** Finished, failed or replaced; or never attempted, which the rescue sweep finds; or spent, which the escalation finds. */
  predicate InHand(p: Params, r: Row) {
    || r.state == Done || r.state == Failed || r.state == RowState.Skipped
    || (r.state == Pending && (r.attempts == 0 || r.attempts >= p.maxAttempts))
  }

  /** In hand; or with a job that is undelivered or pending; or quarantined with an event. */
  ghost predicate Recoverable(p: Params, s: State, k: Key)
    requires k in s.t.shards
  {
    InHand(p, s.t.shards[k]) || Live(s, k) || Recorded(s, k)
  }

  /** A shard of a document at work that nothing will bring to a handler again. */
  ghost predicate OutOfReach(p: Params, s: State, k: Key) {
    k in s.t.shards && !IsTerminal(s.t, k.doc) && !Recoverable(p, s, k)
  }

  // ---- the invariant ----------------------------------------------------------

  predicate JobOk(s: State, e: nat)
    requires e in s.jobs
  {
    var j := s.jobs[e];
    && e < s.nextId
    && (j.read <==> e in s.workers)
    && (if !j.read then !j.stale && !j.readded
        else
          && s.workers[e].key == j.key && s.workers[e].deliveredAt <= j.idleSince <= s.now
          && if j.stale then j.idleSince >= s.workers[e].deliveredAt + RECLAIM_IDLE else j.idleSince == s.workers[e].deliveredAt && !j.readded)
  }

  /** A handler that has not claimed yet loses its entry only to a reclaim. */
  predicate WorkerOk(s: State, e: nat)
    requires e in s.workers
  {
    e < s.nextId && (s.workers[e].phase == Reading && e !in s.jobs ==> s.now >= s.workers[e].deliveredAt + RECLAIM_IDLE)
  }

  /** A running row's claim, as its handler remembers it. */
  predicate OwnerOk(p: Params, s: State, k: Key, r: Row) {
    && r.worker.Some? && r.worker.value in s.jobs && r.worker.value in s.workers && r.leaseUntil.Some?
    && var j, w, lease := s.jobs[r.worker.value], s.workers[r.worker.value], r.leaseUntil.value;
       && j.key == k && (w.phase == Working || w.phase == Stopped) && !j.stale && !j.readded
       && lease <= w.deliveredAt + p.claimDelay + p.lease
       && w.claimedAt <= w.deliveredAt + p.claimDelay
       && (s.reapedAt.Some? ==> lease >= s.reapedAt.value || w.claimedAt >= s.reapedAt.value)
  }

  /** Dropped since its last claim, whatever became of the event. */
  ghost predicate Lettered(s: State, k: Key) {
    exists q :: q in s.quarantined && q.key == k
  }

  ghost predicate RowOk(p: Params, s: State, k: Key)
    requires k in s.t.shards
  {
    var r := s.t.shards[k];
    && (r.state == Running && k !in s.forsaken ==> OwnerOk(p, s, k, r))
    && (r.state == Failed ==> r.attempts >= p.maxAttempts)
    && (InHand(p, r) || Live(s, k) || Lettered(s, k) || k in s.forsaken)
  }

  ghost predicate JobsOk(s: State) {
    forall e :: e in s.jobs ==> JobOk(s, e)
  }

  ghost predicate WorkersOk(s: State) {
    forall e :: e in s.workers ==> WorkerOk(s, e)
  }

  ghost predicate LettersKnown(s: State) {
    forall q :: q in s.quarantined ==> q.id in s.descriptors || q.id in s.events || q.id in s.lost
  }

  ghost predicate Inv(p: Params, s: State) {
    && JobsOk(s) && WorkersOk(s) && LettersKnown(s) && (s.reapedAt.Some? ==> s.reapedAt.value <= s.now)
    && forall k :: k in s.t.shards ==> RowOk(p, s, k)
  }

  // ---- entries and handlers ---------------------------------------------------------

  lemma Fresh(s: State, e: nat)
    requires JobsOk(s) && WorkersOk(s) && e >= s.nextId
    ensures e !in s.jobs && e !in s.workers
  {
    assert e in s.jobs ==> JobOk(s, e);
    assert e in s.workers ==> WorkerOk(s, e);
  }

  lemma JobKept(p: Params, s: State, ev: Event, e: nat)
    requires Enabled(p, s, ev) && JobsOk(s) && WorkersOk(s) && e in Do(p, s, ev).jobs
    ensures JobOk(Do(p, s, ev), e)
  {
    hide TablesAfter, Claimable, ClaimsAfter, QuarantinedAfter, ForsakenAfter, JobsOk, WorkersOk;
    Fresh(s, s.nextId);
    if e in s.jobs {
      JobWas(s, e);
    }
  }

  lemma JobWas(s: State, e: nat)
    requires JobsOk(s) && e in s.jobs
    ensures JobOk(s, e)
  {
  }

  lemma WorkerKept(p: Params, s: State, ev: Event, e: nat)
    requires Enabled(p, s, ev) && JobsOk(s) && WorkersOk(s) && e in Do(p, s, ev).workers
    ensures WorkerOk(Do(p, s, ev), e)
  {
    hide TablesAfter, Claimable, ClaimsAfter, QuarantinedAfter, ForsakenAfter, JobsOk, WorkersOk;
    if e in s.workers {
      WorkerWas(s, e);
    }
    if e in s.jobs {
      JobWas(s, e);
    }
  }

  lemma WorkerWas(s: State, e: nat)
    requires WorkersOk(s) && e in s.workers
    ensures WorkerOk(s, e)
  {
  }

  lemma LettersKept(p: Params, s: State, ev: Event)
    requires Enabled(p, s, ev) && LettersKnown(s)
    ensures LettersKnown(Do(p, s, ev))
  {
    hide TablesAfter, Claimable, ClaimsAfter, JobsAfter, WorkersAfter, ForsakenAfter;
    var s' := Do(p, s, ev);
    forall q | q in s'.quarantined ensures q.id in s'.descriptors || q.id in s'.events || q.id in s'.lost {
      assert q in s.quarantined || q.id in s'.descriptors;
    }
  }

  // ---- rows, frame by frame -------------------------------------------------------

  /** Nothing the row depends on got worse. */
  ghost predicate NoWorse(s: State, s': State, k: Key) {
    && k in s.t.shards && k in s'.t.shards && s'.t.shards[k] == s.t.shards[k]
    && (Live(s, k) ==> Live(s', k) || Lettered(s', k))
    && (Lettered(s, k) ==> Lettered(s', k)) && (k in s.forsaken ==> k in s'.forsaken)
  }

  /** The claims of this row are still remembered. */
  ghost predicate OwnersKept(p: Params, s: State, s': State, k: Key) {
    forall r: Row :: OwnerOk(p, s, k, r) ==> OwnerOk(p, s', k, r)
  }

  lemma Framed(p: Params, s: State, s': State, k: Key)
    requires NoWorse(s, s', k) && OwnersKept(p, s, s', k) && RowOk(p, s, k)
    ensures RowOk(p, s', k)
  {
    hide OwnerOk, Live, Lettered;
  }

  /** A row appears unattempted, stays, is escalated, or is requeued after failing. */
  predicate RowDrifts(t: Tables, t': Tables, maxAttempts: int, k: Key)
    requires k in t'.shards
  {
    if k !in t.shards then t'.shards[k].state == Pending && t'.shards[k].attempts == 0
    else
      || t'.shards[k] == t.shards[k]
      || (Stuck(t.shards[k], maxAttempts) && t'.shards[k] == t.shards[k].(state := Failed))
      || (t.shards[k].state == Failed && t'.shards[k] == t.shards[k].(state := Pending))
  }

  /** The stream, the handlers and the reaping are as they were. */
  predicate SameStream(s: State, s': State) {
    s'.jobs == s.jobs && s'.workers == s.workers && s'.reapedAt == s.reapedAt
  }

  /** Transactions that leave the stream alone. */
  lemma TablesOnly(p: Params, s: State, s': State, k: Key)
    requires SameStream(s, s') && k in s'.t.shards
    requires (Lettered(s, k) ==> Lettered(s', k)) && (k in s.forsaken ==> k in s'.forsaken)
    requires k in s.t.shards ==> RowOk(p, s, k)
    requires RowDrifts(s.t, s'.t, p.maxAttempts, k)
    ensures RowOk(p, s', k)
  {
    hide Live, OwnerOk, Lettered;
    assert Live(s', k) <==> Live(s, k) by { SameLive(s, s', k); }
    assert forall r :: OwnerOk(p, s, k, r) ==> OwnerOk(p, s', k, r) by { SameOwners(p, s, s', k); }
  }

  lemma SameLive(s: State, s': State, k: Key)
    requires s'.jobs == s.jobs && s'.workers == s.workers
    ensures Live(s', k) <==> Live(s, k)
  {
    if Live(s, k) {
      var e :| Carries(s, e, k);
      assert Carries(s', e, k);
    }
    if Live(s', k) {
      var e :| Carries(s', e, k);
      assert Carries(s, e, k);
    }
  }

  lemma SameOwners(p: Params, s: State, s': State, k: Key)
    requires SameStream(s, s')
    ensures OwnersKept(p, s, s', k)
  {
  }

  lemma QuietTables(t: Tables, op: Op, maxAttempts: int, k: Key)
    requires op.OpRegister? || op.OpSplit? || op.OpRetry? || op.OpSetState? || op.OpRepair? || op.OpReset? || op.OpDelete?
             || op == OpEscalate(maxAttempts)
    requires k in Apply(t, op).shards
    ensures RowDrifts(t, Apply(t, op), maxAttempts, k)
  {
    if op.OpSplit? {
      InsertedRows(t.shards, op.d, op.bounds, 0, k);
    }
  }

  lemma ResetRows(t: Tables, op: Op, k: Key)
    requires (op.OpReset? || op.OpDelete?) && k in Apply(t, op).shards
    ensures k.doc != op.d
  {
  }

  // ---- rows, event by event ---------------------------------------------------------

  /** Registration, splitting, retries, repair, escalation, states, and the passing of time. */
  predicate Quiet(ev: Event) {
    || ev.Tick? || ev.RegisterDoc? || ev.SplitDoc? || ev.RetryFailed? || ev.RepairDoc? || ev.RetryFull? || ev.DeleteDoc?
    || ev.MoveDoc? || ev.EscalateRows? || ev.WriteDlqEvents?
  }

  lemma QuietKept(p: Params, s: State, ev: Event, k: Key)
    requires Quiet(ev) && Enabled(p, s, ev) && Inv(p, s) && k in Do(p, s, ev).t.shards
    ensures RowOk(p, Do(p, s, ev), k)
  {
    hide RowOk, JobsOk, WorkersOk, Apply, RowDrifts, LettersKnown;
    var s' := Do(p, s, ev);
    if k in s.t.shards {
      assert RowOk(p, s, k);
    }
    var op := OpOf(p, s, ev);
    if op.Some? {
      QuietTables(s.t, op.value, p.maxAttempts, k);
      if ev.RetryFull? || ev.DeleteDoc? {
        ResetRows(s.t, op.value, k);
      }
    } else {
      SameRow(s.t, p.maxAttempts, k);
    }
    if Lettered(s, k) {
      var q :| q in s.quarantined && q.key == k;
      assert q in s'.quarantined;
    }
    TablesOnly(p, s, s', k);
  }

  lemma SameRow(t: Tables, maxAttempts: int, k: Key)
    requires k in t.shards
    ensures RowDrifts(t, t, maxAttempts, k)
  {
  }

  /** A pass that fails leaves the rows, the stream and the handlers alone. */
  lemma AbortKept(p: Params, s: State, k: Key)
    requires Enabled(p, s, AbortPass) && Inv(p, s) && k in s.t.shards
    ensures RowOk(p, Do(p, s, AbortPass), k)
  {
    var s' := Do(p, s, AbortPass);
    assert RowOk(p, s, k);
    SameLive(s, s', k);
    assert Lettered(s, k) ==> Lettered(s', k);
  }

  /** Reaping: an expired row is pending again, and its entry still carries it. */
  lemma ReapKept(p: Params, s: State, k: Key)
    requires Enabled(p, s, ReapLeases) && Inv(p, s) && k in s.t.shards
    ensures RowOk(p, Do(p, s, ReapLeases), k)
  {
    hide JobsOk, WorkersOk, LettersKnown;
    var s' := Do(p, s, ReapLeases);
    assert RowOk(p, s, k);
    SameLive(s, s', k);
    assert Lettered(s, k) ==> Lettered(s', k);
    var r := s.t.shards[k];
    if r.state == Running && k !in s.forsaken {
      assert Carries(s, r.worker.value, k);
    }
  }

  /** An entry joins the stream, is delivered, or its handler stops. */
  lemma JobGains(p: Params, s: State, ev: Event, k: Key)
    requires ev.Enqueue? || ev.Deliver? || ev.Stop?
    requires Enabled(p, s, ev) && Inv(p, s) && k in s.t.shards
    ensures RowOk(p, Do(p, s, ev), k)
  {
    hide Apply, Claimable, LettersKnown;
    var s' := Do(p, s, ev);
    assert RowOk(p, s, k);
    Fresh(s, s.nextId);
    assert ev.Deliver? ==> JobOk(s, ev.e);
    if Live(s, k) {
      var e :| Carries(s, e, k);
      assert Carries(s', e, k);
    }
    assert Lettered(s, k) ==> Lettered(s', k);
    Framed(p, s, s', k);
  }

  /** A returned handler's entry, or one already added again, may go: neither carries anything. */
  lemma RemovalKept(p: Params, s: State, ev: Event, k: Key)
    requires ev.Ack? || ev.AckReadded?
    requires Enabled(p, s, ev) && Inv(p, s) && k in s.t.shards
    ensures RowOk(p, Do(p, s, ev), k)
  {
    hide Apply, Claimable, LettersKnown;
    var s' := Do(p, s, ev);
    assert RowOk(p, s, k);
    if Live(s, k) {
      var e :| Carries(s, e, k);
      assert Carries(s', e, k);
    }
    assert Lettered(s, k) ==> Lettered(s', k);
    Framed(p, s, s', k);
  }

  lemma QuarantineKept(p: Params, s: State, ev: Event, k: Key)
    requires ev.Quarantine? && Enabled(p, s, ev) && Inv(p, s) && k in s.t.shards
    ensures RowOk(p, Do(p, s, ev), k)
  {
    hide Apply, Claimable, LettersKnown;
    var s' := Do(p, s, ev);
    assert RowOk(p, s, k);
    assert DeadLetter(ev.e, s.jobs[ev.e].key) in s'.quarantined;
    if Live(s, k) {
      var e :| Carries(s, e, k);
      assert e != ev.e ==> Carries(s', e, k);
    }
    if Lettered(s, k) {
      var q :| q in s.quarantined && q.key == k;
      assert q in s'.quarantined;
    }
    Framed(p, s, s', k);
  }

  /** Adding a stale entry again: the fresh copy carries what the old one did. */
  lemma ReaddKept(p: Params, s: State, ev: Event, k: Key)
    requires ev.Readd? && Enabled(p, s, ev) && Inv(p, s) && k in s.t.shards
    ensures RowOk(p, Do(p, s, ev), k)
  {
    hide Apply, Claimable, LettersKnown;
    var s' := Do(p, s, ev);
    assert RowOk(p, s, k);
    Fresh(s, s.nextId);
    if Live(s, k) {
      var e :| Carries(s, e, k);
      assert Carries(s', if e == ev.e then s.nextId else e, k);
    }
    assert Lettered(s, k) ==> Lettered(s', k);
    Framed(p, s, s', k);
  }

  /** An entry idle for so long owns no running row: its lease expired before this pass reaped. */
  lemma StaleOwnsNothing(p: Params, s: State, e: nat, k: Key, r: Row)
    requires Timely(p) && p.Valid() && Enabled(p, s, AutoClaim(e)) && JobsOk(s) && OwnerOk(p, s, k, r)
    ensures r.worker != Some(e)
  {
    assert JobOk(s, e);
  }

  lemma AutoClaimKept(p: Params, s: State, ev: Event, k: Key)
    requires Timely(p) && p.Valid() && ev.AutoClaim? && Enabled(p, s, ev) && Inv(p, s) && k in s.t.shards
    ensures RowOk(p, Do(p, s, ev), k)
  {
    hide Apply, Claimable, LettersKnown;
    var s' := Do(p, s, ev);
    assert RowOk(p, s, k);
    if Live(s, k) {
      var e :| Carries(s, e, k);
      assert Carries(s', e, k);
    }
    assert Lettered(s, k) ==> Lettered(s', k);
    forall r | OwnerOk(p, s, k, r) ensures OwnerOk(p, s', k, r) {
      StaleOwnsNothing(p, s, ev.e, k, r);
    }
    Framed(p, s, s', k);
  }

  /** A handler's own phase or claim changes: the other rows do not notice. */
  lemma OthersFramed(p: Params, s: State, s': State, e: nat, k: Key)
    requires e in s.workers && (e in s.jobs ==> s.jobs[e].key != k) && k in s.t.shards && RowOk(p, s, k)
    requires s'.jobs == s.jobs && s'.reapedAt == s.reapedAt
    requires s'.workers.Keys == s.workers.Keys && forall f :: f in s.workers && f != e ==> s'.workers[f] == s.workers[f]
    requires k in s'.t.shards && s'.t.shards[k] == s.t.shards[k]
    requires (Lettered(s, k) ==> Lettered(s', k)) && (k in s.forsaken ==> k in s'.forsaken)
    ensures RowOk(p, s', k)
  {
    if Live(s, k) {
      var f :| Carries(s, f, k);
      assert Carries(s', f, k);
    }
    Framed(p, s, s', k);
  }

  /** The handler's shard is the one its entry was added for. */
  lemma KeyOfWorker(s: State, e: nat, k: Key)
    requires JobsOk(s) && e in s.workers && s.workers[e].key != k
    ensures e in s.jobs ==> s.jobs[e].key != k
  {
    assert e in s.jobs ==> JobOk(s, e);
  }

  /** A handler that may still claim has its entry, and the janitor has not touched it. */
  lemma ReaderKeepsEntry(p: Params, s: State, ev: Event)
    requires Timely(p) && p.Valid() && ev.ClaimRow? && Enabled(p, s, ev) && JobsOk(s) && WorkersOk(s)
    ensures ev.e in s.jobs && s.jobs[ev.e].key == s.workers[ev.e].key && !s.jobs[ev.e].stale && !s.jobs[ev.e].readded
  {
    assert WorkerOk(s, ev.e);
    assert JobOk(s, ev.e);
  }

  /** The claimed row runs under this handler. */
  lemma ClaimedKept(p: Params, s: State, ev: Event)
    requires Timely(p) && p.Valid() && ev.ClaimRow? && Enabled(p, s, ev) && Inv(p, s) && Claimable(s.t, s.workers[ev.e].key)
    ensures RowOk(p, Do(p, s, ev), s.workers[ev.e].key)
  {
    hide LettersKnown;
    ReaderKeepsEntry(p, s, ev);
    assert Carries(Do(p, s, ev), ev.e, s.workers[ev.e].key);
  }

  /** A refused claim: the row was in other hands already. */
  lemma RefusedKept(p: Params, s: State, ev: Event)
    requires ev.ClaimRow? && Enabled(p, s, ev) && Inv(p, s)
    requires !Claimable(s.t, s.workers[ev.e].key) && s.workers[ev.e].key in s.t.shards
    ensures RowOk(p, Do(p, s, ev), s.workers[ev.e].key)
  {
    hide LettersKnown, JobsOk, WorkersOk;
    var s', k := Do(p, s, ev), s.workers[ev.e].key;
    assert RowOk(p, s, k);
    if s.t.shards[k].state == Running && k !in s.forsaken {
      assert Carries(s', s.t.shards[k].worker.value, k);
    }
  }

  /** A claim: the claimed row runs under this handler; a refused one was in other hands already. */
  lemma ClaimKept(p: Params, s: State, ev: Event, k: Key)
    requires Timely(p) && p.Valid() && ev.ClaimRow? && Enabled(p, s, ev) && Inv(p, s) && k in s.t.shards
    ensures RowOk(p, Do(p, s, ev), k)
  {
    if k != s.workers[ev.e].key {
      hide RowOk, JobsOk, WorkersOk, LettersKnown;
      var s' := Do(p, s, ev);
      KeyOfWorker(s, ev.e, k);
      if Lettered(s, k) {
        var q :| q in s.quarantined && q.key == k;
        assert q in s'.quarantined;
      }
      OthersFramed(p, s, s', ev.e, k);
    } else if Claimable(s.t, k) {
      ClaimedKept(p, s, ev);
    } else {
      RefusedKept(p, s, ev);
    }
  }

  /** A handler finishes its shard or finds its source gone, however late. */
  lemma HandlerEnds(p: Params, s: State, ev: Event, k: Key)
    requires ev.FinishParse? || ev.SourceVanished?
    requires Enabled(p, s, ev) && Inv(p, s) && k in s.t.shards
    ensures RowOk(p, Do(p, s, ev), k)
  {
    hide LettersKnown, JobsOk, WorkersOk;
    var s' := Do(p, s, ev);
    assert RowOk(p, s, k);
    assert Lettered(s, k) ==> Lettered(s', k);
    if k != s.workers[ev.e].key {
      hide RowOk;
      KeyOfWorker(s, ev.e, k);
      OthersFramed(p, s, s', ev.e, k);
    }
  }

  /** A handler replaces its shard by finer ones, which have never been attempted. */
  lemma ResplitKept(p: Params, s: State, ev: Event, k: Key)
    requires ev.ResplitRow? && Enabled(p, s, ev) && Inv(p, s) && k in Do(p, s, ev).t.shards
    ensures RowOk(p, Do(p, s, ev), k)
  {
    hide JobsOk, WorkersOk, LettersKnown, OwnerOk;
    var s' := Do(p, s, ev);
    var own := s.workers[ev.e].key;
    var done := own in s.t.shards && !InsertConflicts(s.t, own.doc, ev.bounds, ev.startIdx);
    if done {
      InsertedRows(s.t.shards[own := s.t.shards[own].(state := RowState.Skipped)], own.doc, ev.bounds, ev.startIdx, k);
    }
    assert Lettered(s, k) ==> Lettered(s', k);
    if k in s.t.shards {
      assert RowOk(p, s, k);
      if k != own {
        hide RowOk;
        KeyOfWorker(s, ev.e, k);
        OthersFramed(p, s, s', ev.e, k);
      } else if !done {
        StoppedKept(p, s, s', ev.e, k);
      }
    }
  }

  /** A handler that stops leaves its entry pending. */
  lemma StoppedKept(p: Params, s: State, s': State, e: nat, k: Key)
    requires e in s.workers && k in s.t.shards && RowOk(p, s, k)
    requires s' == s.(workers := ToPhase(s.workers, e, Stopped))
    ensures RowOk(p, s', k)
  {
    if Live(s, k) {
      var f :| Carries(s, f, k);
      assert Carries(s', f, k);
    }
    assert Lettered(s, k) ==> Lettered(s', k);
    Framed(p, s, s', k);
  }

  // ---- all runs -------------------------------------------------------------------

  lemma RowsOfStep(p: Params, s: State, ev: Event, k: Key)
    requires Enabled(p, s, ev) && k in Do(p, s, ev).t.shards && !Quiet(ev) && !ev.ResplitRow?
    ensures k in s.t.shards
  {
  }

  lemma RowKept(p: Params, s: State, ev: Event, k: Key)
    requires Timely(p) && p.Valid() && Enabled(p, s, ev) && Inv(p, s) && k in Do(p, s, ev).t.shards
    ensures RowOk(p, Do(p, s, ev), k)
  {
    hide Do, Enabled, Inv, RowOk;
    if Quiet(ev) {
      QuietKept(p, s, ev, k);
    } else if ev.ResplitRow? {
      ResplitKept(p, s, ev, k);
    } else {
      RowsOfStep(p, s, ev, k);
      match ev
      case FinishParse(_) => HandlerEnds(p, s, ev, k);
      case SourceVanished(_) => HandlerEnds(p, s, ev, k);
      case ClaimRow(_, _) => ClaimKept(p, s, ev, k);
      case AutoClaim(_) => AutoClaimKept(p, s, ev, k);
      case Readd(_) => ReaddKept(p, s, ev, k);
      case Quarantine(_) => QuarantineKept(p, s, ev, k);
      case Ack(_) => RemovalKept(p, s, ev, k);
      case AckReadded(_) => RemovalKept(p, s, ev, k);
      case ReapLeases => ReapKept(p, s, k);
      case AbortPass => AbortKept(p, s, k);
      case _ => JobGains(p, s, ev, k);
    }
  }

  lemma ReapedKept(p: Params, s: State, ev: Event)
    requires Enabled(p, s, ev) && (s.reapedAt.Some? ==> s.reapedAt.value <= s.now)
    ensures var s' := Do(p, s, ev); s'.reapedAt.Some? ==> s'.reapedAt.value <= s'.now
  {
    hide TablesAfter, JobsAfter, WorkersAfter, ClaimsAfter, QuarantinedAfter, ForsakenAfter;
  }

  lemma InvKept(p: Params, s: State, ev: Event)
    requires Timely(p) && p.Valid() && Enabled(p, s, ev) && Inv(p, s)
    ensures Inv(p, Do(p, s, ev))
  {
    hide Do, Enabled, RowOk, JobOk, WorkerOk, LettersKnown, Timely;
    ReapedKept(p, s, ev);
    LettersKept(p, s, ev);
    forall e | e in Do(p, s, ev).jobs ensures JobOk(Do(p, s, ev), e) {
      JobKept(p, s, ev, e);
    }
    forall e | e in Do(p, s, ev).workers ensures WorkerOk(Do(p, s, ev), e) {
      WorkerKept(p, s, ev, e);
    }
    forall k | k in Do(p, s, ev).t.shards ensures RowOk(p, Do(p, s, ev), k) {
      RowKept(p, s, ev, k);
    }
  }

  lemma {:induction false} InvHolds(p: Params, run: seq<Event>)
    requires Timely(p) && p.Valid() && After(p, run).Some?
    ensures Inv(p, After(p, run).value)
    decreases |run|
  {
    hide Do, Enabled, Inv;
    if run == [] {
      InitOk(p);
    } else {
      InvHolds(p, run[..|run| - 1]);
      InvKept(p, After(p, run[..|run| - 1]).value, run[|run| - 1]);
    }
  }

  lemma InitOk(p: Params)
    ensures Inv(p, INIT)
  {
  }

  /**
   * In every reachable state of a timely configuration, every shard is within reach of recovery,
   * except that a handler of it may have found the source gone since it was last claimed, or the
   * event of its quarantine may be lost.
   */
  lemma NoShardInvisible(p: Params, run: seq<Event>, k: Key)
    requires Timely(p) && p.Valid() && After(p, run).Some? && k in After(p, run).value.t.shards
    ensures var s := After(p, run).value;
            Recoverable(p, s, k) || k in s.forsaken || LetterLost(s, k)
  {
    InvHolds(p, run);
    var s := After(p, run).value;
    assert RowOk(p, s, k);
    if Lettered(s, k) {
      var q :| q in s.quarantined && q.key == k;
      assert q.id in s.descriptors || q.id in s.events || q.id in s.lost;
    }
  }
}
