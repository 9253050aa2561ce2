/** A shard whose handler finds the source gone: who may leave it behind, and with which documents. */
module Reopening {
  import opened Chunks
  import opened ShardTables
  import opened Protocol
  import opened Recovery

  /** No shard row without its document, and none without the document's first shard. */
  predicate Rooted(t: Tables, k: Key)
    requires k in t.shards
  {
    k.doc in t.docs && Key(k.doc, 0) in t.shards
  }

  /** A forsaken shard still has its row; and its document stays failed, unless documents are reopened. */
  predicate ForsakenOk(p: Params, s: State, k: Key) {
    k in s.t.shards && p.sourcesVanish && (p.reopens || IsTerminal(s.t, k.doc))
  }

  ghost predicate DocInv(p: Params, s: State) {
    && (forall k :: k in s.t.shards ==> Rooted(s.t, k))
    && (forall k :: k in s.forsaken ==> ForsakenOk(p, s, k))
    && (s.lost == {} || p.eventsFail)
  }

  lemma RootedKept(t: Tables, op: Op, k: Key)
    requires (forall x :: x in t.shards ==> Rooted(t, x)) && k in Apply(t, op).shards
    requires op.OpSplit? ==> op.bounds != []
    ensures Rooted(Apply(t, op), k)
  {
    if op.OpSplit? {
      InsertedRows(t.shards, op.d, op.bounds, 0, k);
      InsertedRows(t.shards, op.d, op.bounds, 0, Key(k.doc, 0));
    } else if op.OpResplit? && op.k in t.shards {
      var skipped := t.shards[op.k := t.shards[op.k].(state := RowState.Skipped)];
      assert Rooted(t, op.k);
      InsertedRows(skipped, op.k.doc, op.bounds, op.startIdx, k);
      InsertedRows(skipped, op.k.doc, op.bounds, op.startIdx, Key(k.doc, 0));
    }
  }

  /** A row goes only with its whole document. */
  lemma RowsStay(t: Tables, op: Op, k: Key)
    requires k in t.shards && (op.OpReset? || op.OpDelete? ==> op.d != k.doc)
    ensures k in Apply(t, op).shards
  {
    if op.OpSplit? {
      InsertedRows(t.shards, op.d, op.bounds, 0, k);
    } else if op.OpResplit? && op.k in t.shards {
      InsertedRows(t.shards[op.k := t.shards[op.k].(state := RowState.Skipped)], op.k.doc, op.bounds, op.startIdx, k);
    }
  }

  /** The updates that may take a document with rows out of a terminal state. */
  predicate Revives(op: Op, d: string) {
    op == OpRetry(d) || op == OpReset(d) || (op.OpSetState? && op.d == d && !Terminal(op.state))
  }

  /** A terminal document with shard rows leaves its terminal state exactly by such an update. */
  lemma TerminalUnlessRevived(t: Tables, op: Op, k: Key)
    requires k in t.shards && Rooted(t, k) && IsTerminal(t, k.doc) && op != OpDelete(k.doc)
    requires op.OpSplit? ==> op.bounds != []
    ensures IsTerminal(Apply(t, op), k.doc) <==> !Revives(op, k.doc)
  {
    if op.OpSplit? && op.d == k.doc {
      assert InsertConflicts(t, op.d, op.bounds, 0) by {
        assert Key(k.doc, 0) in t.shards && Key(k.doc, 0).idx == 0;
      }
    }
  }

  lemma ForsakenKept(p: Params, s: State, ev: Event, k: Key)
    requires Enabled(p, s, ev) && DocInv(p, s) && k in Do(p, s, ev).forsaken
    ensures ForsakenOk(p, Do(p, s, ev), k)
  {
    hide Apply, JobsAfter, WorkersAfter, ClaimsAfter, QuarantinedAfter, Rooted, Terminal;
    var op := OpOf(p, s, ev);
    if k in s.forsaken {
      assert ForsakenOk(p, s, k) && Rooted(s.t, k);
      if op.Some? {
        RowsStay(s.t, op.value, k);
        if IsTerminal(s.t, k.doc) {
          TerminalUnlessRevived(s.t, op.value, k);
          VanishingFails();
        }
      }
    } else {
      assert Rooted(s.t, k);
      VanishedDoc(s.t, k);
    }
  }

  lemma VanishingFails()
    ensures Terminal(DocFailed)
  {
  }

  lemma VanishedDoc(t: Tables, k: Key)
    requires k in t.shards && Rooted(t, k)
    ensures k in Apply(t, OpSetState(k.doc, DocFailed)).shards && IsTerminal(Apply(t, OpSetState(k.doc, DocFailed)), k.doc)
  {
  }

  lemma DocInvKept(p: Params, s: State, ev: Event)
    requires Enabled(p, s, ev) && DocInv(p, s)
    ensures DocInv(p, Do(p, s, ev))
  {
    hide Apply, JobsAfter, WorkersAfter, ClaimsAfter, QuarantinedAfter, ForsakenAfter, Rooted, ForsakenOk;
    var s' := Do(p, s, ev);
    forall k | k in s'.forsaken ensures ForsakenOk(p, s', k) {
      ForsakenKept(p, s, ev, k);
    }
    var op := OpOf(p, s, ev);
    forall k | k in s'.t.shards ensures Rooted(s'.t, k) {
      if op.Some? {
        RootedKept(s.t, op.value, k);
      }
    }
  }

  lemma {:induction false} DocInvHolds(p: Params, run: seq<Event>)
    requires After(p, run).Some?
    ensures DocInv(p, After(p, run).value)
    decreases |run|
  {
    hide Do, Enabled, DocInv;
    if run == [] {
      NoDocs(p);
    } else {
      DocInvHolds(p, run[..|run| - 1]);
      DocInvKept(p, After(p, run[..|run| - 1]).value, run[|run| - 1]);
    }
  }

  lemma NoDocs(p: Params)
    ensures DocInv(p, INIT)
  {
  }

  /** What may put a shard of a working document out of reach, in a timely configuration. */
  predicate Exposed(p: Params) {
    (p.sourcesVanish && p.reopens) || (p.eventsFail && p.maxAttempts >= 2)
  }

  /** A shard with a single attempt is never out of reach for a lost event alone: once attempted it is spent. */
  lemma SingleAttempt(p: Params, run: seq<Event>, k: Key)
    requires Timely(p) && p.Valid() && p.maxAttempts == 1 && After(p, run).Some? && k in After(p, run).value.t.shards
    ensures Recoverable(p, After(p, run).value, k) || k in After(p, run).value.forsaken
  {
    hide After, Recorded;
    InvHolds(p, run);
    var s := After(p, run).value;
    assert RowOk(p, s, k);
    var r := s.t.shards[k];
    if r.state == Running && k !in s.forsaken {
      assert Carries(s, r.worker.value, k);
    }
  }

  /** Unless sources vanish and documents are reopened, or events get lost, every shard of a document at work is recoverable. */
  lemma WorkingDocsInReach(p: Params, run: seq<Event>, k: Key)
    requires Timely(p) && p.Valid() && !Exposed(p) && After(p, run).Some?
    ensures !OutOfReach(p, After(p, run).value, k)
  {
    hide Recoverable, After;
    DocInvHolds(p, run);
    if k in After(p, run).value.t.shards {
      NoShardInvisible(p, run, k);
      if p.maxAttempts == 1 {
        SingleAttempt(p, run, k);
      }
    }
    assert k in After(p, run).value.forsaken ==> ForsakenOk(p, After(p, run).value, k);
  }

  /**
   * A shards retry of a timely configuration strands exactly the shards of its document that were
   * unrecoverable before it; and those, by NoShardInvisible, are the forsaken ones and those
   * whose letter is lost. The rows that it requeues are spent, so that the escalation finds them.
   */
  lemma RetryStrandsExactly(p: Params, run: seq<Event>, k: Key)
    requires Timely(p) && p.Valid() && After(p, run).Some? && Enabled(p, After(p, run).value, RetryFailed(k.doc))
    requires k in After(p, run).value.t.shards
    ensures OutOfReach(p, Do(p, After(p, run).value, RetryFailed(k.doc)), k) <==> !Recoverable(p, After(p, run).value, k)
  {
    hide After;
    var s := After(p, run).value;
    InvHolds(p, run);
    DocInvHolds(p, run);
    assert RowOk(p, s, k) && Rooted(s.t, k);
    hide OwnerOk, Live, Recorded, Inv, DocInv;
    var s' := Do(p, s, RetryFailed(k.doc));
    assert Live(s', k) <==> Live(s, k) by { SameLive(s, s', k); }
    assert Recorded(s', k) <==> Recorded(s, k) by { SameLetters(s, s', k); }
  }

  lemma SameLetters(s: State, s': State, k: Key)
    requires s'.quarantined == s.quarantined && s'.events == s.events && s'.descriptors == s.descriptors
    ensures Recorded(s', k) <==> Recorded(s, k)
  {
  }
}
