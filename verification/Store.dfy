/** The store: both tables as fields the transactions update in place. */
module ShardStore {
  import opened Chunks
  import opened ShardTables
  import opened Counters

  datatype EscalatedShard = EscalatedShard(doc: string, idx: int, attempts: int)

  /** How many of the listed shards belong to a document. */
  function DeltaOf(rows: seq<EscalatedShard>, d: string): nat {
    if rows == [] then 0 else DeltaOf(rows[..|rows| - 1], d) + One(rows[|rows| - 1].doc == d)
  }

  /** Each key exactly once. */
  ghost predicate Lists(rows: seq<EscalatedShard>, keys: set<Key>) {
    && (forall i, j :: 0 <= i < j < |rows| ==> (rows[i].doc, rows[i].idx) != (rows[j].doc, rows[j].idx))
    && forall k: Key :: k in keys <==> Listed(rows, k)
  }

  ghost predicate Listed(rows: seq<EscalatedShard>, k: Key) {
    exists i :: 0 <= i < |rows| && rows[i].doc == k.doc && rows[i].idx == k.idx
  }

  /** Counting the list per document counts the rows per document. */
  lemma {:induction false} DeltaIsCount(rows: seq<EscalatedShard>, keys: set<Key>, d: string)
    requires Lists(rows, keys)
    ensures DeltaOf(rows, d) == |KeysOf(keys, d)|
    decreases |rows|
  {
    if rows == [] {
      assert forall k: Key :: !Listed(rows, k);
      assert KeysOf(keys, d) == {};
    } else {
      var n := |rows| - 1;
      var last := Key(rows[n].doc, rows[n].idx);
      ListsFront(rows, keys, last);
      DeltaIsCount(rows[..n], keys - {last}, d);
      assert Listed(rows, last);
      DifferAt(KeysOf(keys, d), KeysOf(keys - {last}, d), last);
    }
  }

  lemma ListsFront(rows: seq<EscalatedShard>, keys: set<Key>, last: Key)
    requires Lists(rows, keys) && rows != [] && last == Key(rows[|rows| - 1].doc, rows[|rows| - 1].idx)
    ensures Lists(rows[..|rows| - 1], keys - {last})
  {
    var n := |rows| - 1;
    forall k: Key ensures k in keys - {last} <==> Listed(rows[..n], k) {
      if Listed(rows[..n], k) {
        var i :| 0 <= i < n && rows[..n][i].doc == k.doc && rows[..n][i].idx == k.idx;
        assert rows[i].doc == k.doc;
        assert Listed(rows, k);
        assert (rows[i].doc, rows[i].idx) != (rows[n].doc, rows[n].idx);
      }
      if k in keys && k != last {
        assert Listed(rows, k);
        var i :| 0 <= i < |rows| && rows[i].doc == k.doc && rows[i].idx == k.idx;
        assert i != n;
        assert rows[..n][i].doc == k.doc;
      }
    }
  }

  /** The completeness written after embedding, in ten-thousandths: the share of shards not failed, clamped and rounded. */
  function Completeness(total: Option<int>, shardsFailed: int): (c: Option<int>)
    ensures c.Some? <==> total.Some? && total.value != 0
    ensures c.Some? ==> 0 <= c.value <= 10000
  {
    if total.None? || total.value == 0 then None
    else
      var share := (total.value - shardsFailed) as real / total.value as real;
      var clamped := if share < 0.0 then 0.0 else if share > 1.0 then 1.0 else share;
      Some((clamped * 10000.0 + 0.5).Floor)
  }

  /** Full when nothing failed, nothing when no fewer failed than there are, and in between the share of the others, rounded. */
  lemma CompletenessMeans(total: int, shardsFailed: int)
    requires total > 0
    ensures shardsFailed <= 0 ==> Completeness(Some(total), shardsFailed) == Some(10000)
    ensures shardsFailed >= total ==> Completeness(Some(total), shardsFailed) == Some(0)
    ensures 0 <= shardsFailed <= total ==>
              var share := (total - shardsFailed) as real / total as real;
              -0.5 <= Completeness(Some(total), shardsFailed).value as real - 10000.0 * share <= 0.5
  {
    var share := (total - shardsFailed) as real / total as real;
    if shardsFailed <= 0 {
      assert (total - shardsFailed) as real >= total as real;
      assert share >= 1.0;
    }
    if shardsFailed >= total {
      assert share <= 0.0;
    }
    if 0 <= shardsFailed <= total {
      ShareBounds(total, total - shardsFailed);
    }
  }

  lemma ShareBounds(total: int, part: int)
    requires 0 <= part <= total && total > 0
    ensures 0.0 <= part as real / total as real <= 1.0
  {
  }

  class Store {
    var shards: map<Key, Row>
    var docs: map<string, Doc>

    function Contents(): Tables
      reads this
    {
      Tables(shards, docs)
    }

    constructor ()
      ensures Contents() == EMPTY_TABLES
    {
      shards, docs := map[], map[];
    }

    /** The guarded UPDATE ... RETURNING: the claimed row, or nothing when it was not claimable. */
    method ClaimShard(k: Key, worker: nat, computedAt: int, leaseSeconds: int) returns (claimed: Option<Row>)
      modifies this
      ensures Contents() == Claim(old(Contents()), k, worker, computedAt + leaseSeconds)
      ensures claimed.Some? <==> Claimable(old(Contents()), k)
      ensures docs == old(docs)
      ensures claimed.None? ==> shards == old(shards)
      ensures claimed.Some? ==>
                && shards.Keys == old(shards).Keys && claimed.value == shards[k] && forall x :: x in shards && x != k ==> shards[x] == old(shards)[x]
      ensures claimed.Some? ==>
                var r := old(shards)[k];
                claimed.value == Row(r.pageStart, r.pageEnd, Running, r.attempts + 1, Some(worker), Some(computedAt + leaseSeconds))
    {
      var leaseUntil := computedAt + leaseSeconds;
      if k !in shards || (shards[k].state != Pending && shards[k].state != Failed) {
        return None;
      }
      var r := shards[k];
      shards := shards[k := r.(state := Running, attempts := r.attempts + 1, worker := Some(worker), leaseUntil := Some(leaseUntil))];
      claimed := Some(shards[k]);
    }

    /** Only this row changes, and the done counter gains on the rows exactly when there was nothing left to finish. */
    method MarkShardDone(k: Key)
      modifies this
      ensures Contents() == MarkDone(old(Contents()), k)
      ensures forall x :: x in old(shards) && x != k ==> x in shards && shards[x] == old(shards)[x]
      ensures k in old(shards) <==> RowIs(Contents(), k, Done)
      ensures k.doc in old(docs) ==>
                && k.doc in docs
                && (DoneLead(Contents(), k.doc) > old(DoneLead(Contents(), k.doc)) <==> k !in old(shards) || old(shards)[k].state == Done)
      ensures forall d :: d in old(docs) && d != k.doc ==> d in docs && docs[d] == old(docs)[d]
    {
      ghost var before := Contents();
      if k.doc in docs {
        LeadsAfter(before, OpDone(k), k.doc);
      }
      if k in shards {
        shards := shards[k := shards[k].(state := Done, leaseUntil := None)];
      }
      docs := Bump(docs, k.doc, 1, 0);
    }

    /** As MarkShardDone, for the failed counter; no code calls it. */
    method MarkShardFailed(k: Key)
      modifies this
      ensures Contents() == MarkFailed(old(Contents()), k)
      ensures forall x :: x in old(shards) && x != k ==> x in shards && shards[x] == old(shards)[x]
      ensures k in old(shards) <==> RowIs(Contents(), k, Failed)
      ensures k.doc in old(docs) ==>
                && k.doc in docs
                && (FailedLead(Contents(), k.doc) > old(FailedLead(Contents(), k.doc)) <==> k !in old(shards) || old(shards)[k].state == Failed)
      ensures forall d :: d in old(docs) && d != k.doc ==> d in docs && docs[d] == old(docs)[d]
    {
      ghost var before := Contents();
      if k.doc in docs {
        LeadsAfter(before, OpFailed(k), k.doc);
      }
      if k in shards {
        shards := shards[k := shards[k].(state := Failed, leaseUntil := None)];
      }
      docs := Bump(docs, k.doc, 0, 1);
    }

    method SkipShard(k: Key) returns (found: bool)
      modifies this
      ensures docs == old(docs) && found == (k in old(shards))
      ensures shards == if found then old(shards)[k := old(shards)[k].(state := RowState.Skipped)] else old(shards)
    {
      found := k in shards;
      if found {
        shards := shards[k := shards[k].(state := RowState.Skipped)];
      }
    }

    /** max(idx) + 1, or 0 for a document without shards. */
    method NextShardIdx(d: string) returns (next: int)
      ensures IsNextIdx(Contents(), d, next)
    {
      next := 0;
      var found := false;
      var rest := RowsOf(Contents(), d);
      ghost var all := rest;
      while rest != {}
        invariant rest <= all && found == (rest != all)
        invariant forall k :: k in all - rest ==> k.idx < next
        invariant if found then Key(d, next - 1) in all - rest else next == 0
        decreases |rest|
      {
        var k :| k in rest;
        if !found || k.idx >= next {
          next := k.idx + 1;
        }
        found := true;
        rest := rest - {k};
      }
      assert all - rest == all;
      forall k | k in shards && k.doc == d ensures k in all && k.idx < next {
      }
      if found {
        assert Key(d, next - 1) in shards;
      } else {
        assert all == {};
      }
    }

    /** Row by row; stops at the first conflict, which the transaction then rolls back. */
    method InsertShards(d: string, bounds: seq<(int, int)>, startIdx: int) returns (ok: bool)
      modifies this
      ensures docs == old(docs) && (ok <==> !InsertConflicts(old(Contents()), d, bounds, startIdx))
      ensures ok ==> shards == Inserted(old(shards), d, bounds, startIdx)
      ensures ok ==> forall i :: 0 <= i < |bounds| ==> NewShard(Contents(), d, startIdx + i, bounds[i])
    {
      ghost var was := shards;
      for i := 0 to |bounds|
        invariant docs == old(docs) && shards == Inserted(was, d, bounds[..i], startIdx)
        invariant !InsertConflicts(old(Contents()), d, bounds[..i], startIdx)
      {
        InsertedRows(was, d, bounds[..i], startIdx, Key(d, startIdx + i));
        if d !in docs || Key(d, startIdx + i) in shards {
          assert InsertConflicts(old(Contents()), d, bounds, startIdx);
          return false;
        }
        assert bounds[..i + 1][..i] == bounds[..i];
        shards := shards[Key(d, startIdx + i) := FreshRow(bounds[i])];
      }
      assert bounds[..|bounds|] == bounds;
      forall i | 0 <= i < |bounds| ensures NewShard(Contents(), d, startIdx + i, bounds[i]) {
        InsertedRows(was, d, bounds, startIdx, Key(d, startIdx + i));
      }
      ok := true;
    }

    method CommitSplitTx(d: string, bounds: seq<(int, int)>)
      modifies this
      ensures Contents() == CommitSplit(old(Contents()), d, bounds)
      ensures InsertConflicts(old(Contents()), d, bounds, 0) ==> shards == old(shards) && docs == old(docs)
      ensures !InsertConflicts(old(Contents()), d, bounds, 0) ==>
                && (forall i :: 0 <= i < |bounds| ==> NewShard(Contents(), d, i, bounds[i]))
                && (d in old(docs) ==> d in docs && docs[d] == old(docs)[d].(state := Parsing, total := Some(|bounds|)))
    {
      var before := shards;
      var ok := InsertShards(d, bounds, 0);
      if !ok {
        shards := before;
        return;
      }
      docs := SetTotal(docs, d, |bounds|);
      SetDocState(d, Parsing);
    }

    method SetDocState(d: string, state: DocState)
      modifies this`docs
      ensures docs == SetState(old(docs), d, state)
    {
      if d in docs {
        docs := docs[d := docs[d].(state := state)];
      }
    }

    /** The transaction of the scope=shards retry. */
    method RetryShardsTx(d: string)
      modifies this
      ensures Contents() == Retry(old(Contents()), d)
      ensures d in old(docs) ==> d in docs && docs[d].state == Parsing && FailedLead(Contents(), d) == old(FailedLead(Contents(), d))
      ensures InState(Contents(), d, Failed) == {} && shards.Keys == old(shards).Keys
      ensures forall k :: k in shards ==> (shards[k] != old(shards)[k] <==> k in InState(old(Contents()), d, Failed))
      ensures forall e :: e in old(docs) && e != d ==> e in docs && docs[e] == old(docs)[e]
    {
      var n := RequeueFailedShards(d);
      SetDocState(d, Parsing);
    }

    /** resplitShard's transaction; total is the document's total as read before the claim. */
    method ResplitTx(k: Key, bounds: seq<(int, int)>, total: int) returns (startIdx: int)
      modifies this
      ensures IsNextIdx(old(Contents()), k.doc, startIdx)
      ensures Contents() == Resplit(old(Contents()), k, bounds, startIdx, total + |bounds|)
      ensures k !in old(shards) || (bounds != [] && k.doc !in old(docs)) ==> shards == old(shards) && docs == old(docs)
      ensures k in old(shards) && k.doc in old(docs) ==>
                && RowIs(Contents(), k, RowState.Skipped) && (forall i :: 0 <= i < |bounds| ==> NewShard(Contents(), k.doc, startIdx + i, bounds[i]))
                && k.doc in docs && docs[k.doc] == old(docs)[k.doc].(total := Some(total + |bounds|))
    {
      var before := shards;
      startIdx := NextShardIdx(k.doc);
      var found := SkipShard(k);
      if !found {
        return;
      }
      var ok := InsertShards(k.doc, bounds, startIdx);
      if !ok {
        shards := before;
        return;
      }
      docs := SetTotal(docs, k.doc, total + |bounds|);
      InsertedRows(old(shards)[k := old(shards)[k].(state := RowState.Skipped)], k.doc, bounds, startIdx, k);
    }

    /** Afterwards no lease is expired; the rows that had none expired, and the documents, are as they were. */
    method RequeueExpiredLeases(now: int) returns (n: nat)
      modifies this`shards
      ensures Contents() == Reap(old(Contents()), now)
      ensures n == |set k | k in old(shards) && Expired(old(shards)[k], now)|
      ensures shards.Keys == old(shards).Keys && forall k :: k in shards ==> !Expired(shards[k], now)
      ensures forall k :: k in shards ==>
                var r := old(shards)[k];
                shards[k] == if r.state == Running && r.leaseUntil.Some? && r.leaseUntil.value < now
                             then Row(r.pageStart, r.pageEnd, Pending, r.attempts, None, None) else r
      ensures n > 0 <==> shards != old(shards)
    {
      var hit := set k | k in shards && Expired(shards[k], now);
      n := |hit|;
      shards := map k | k in shards ::
        if Expired(shards[k], now) then shards[k].(state := Pending, worker := None, leaseUntil := None) else shards[k];
      assert shards.Keys == old(shards).Keys;
      if n > 0 {
        ghost var k :| k in hit;
        assert shards[k] != old(shards)[k];
      } else {
        assert forall k :: k in shards ==> k !in hit;
        assert shards == old(shards);
      }
    }

    /** The returned rows, in some order. */
    method Returning(keys: set<Key>) returns (rows: seq<EscalatedShard>)
      requires keys <= shards.Keys
      ensures Lists(rows, keys)
    {
      rows := [];
      var rest := keys;
      while rest != {}
        invariant rest <= keys && Lists(rows, keys - rest)
        decreases |rest|
      {
        var k: Key :| k in rest;
        var row := EscalatedShard(k.doc, k.idx, shards[k].attempts);
        ListsMore(rows, keys - rest, row);
        rows := rows + [row];
        assert keys - rest + {k} == keys - (rest - {k});
        rest := rest - {k};
      }
      assert keys - rest == keys;
    }

    /** The rows move to failed; a loop tallies them per document and one statement adds the tallies. */
    method EscalateStuckShards(maxAttempts: int) returns (out: seq<EscalatedShard>)
      modifies this
      ensures Contents() == Escalate(old(Contents()), maxAttempts)
      ensures Lists(out, StuckKeys(old(Contents()), maxAttempts))
      ensures forall k :: k in old(shards) ==>
                (Listed(out, k) <==> old(shards)[k].state == Pending && old(shards)[k].attempts >= maxAttempts)
      ensures shards.Keys == old(shards).Keys && docs.Keys == old(docs).Keys
      ensures forall k :: k in shards ==>
                shards[k] == if Listed(out, k) then old(shards)[k].(state := Failed) else old(shards)[k]
      ensures forall d :: d in docs ==> docs[d] == old(docs)[d].(shardsFailed := old(docs)[d].shardsFailed + DeltaOf(out, d))
    {
      hide Lists, Tallied;
      NothingTallied();
      var hit := StuckKeys(Contents(), maxAttempts);
      out := Returning(hit);
      shards := map k | k in shards :: if k in hit then shards[k].(state := Failed) else shards[k];
      assert shards == Escalate(old(Contents()), maxAttempts).shards;
      var deltas: map<string, int> := map[];
      assert out[..0] == [];
      for i := 0 to |out|
        invariant Tallied(deltas, out[..i])
        invariant docs == old(docs) && shards == Escalate(old(Contents()), maxAttempts).shards
      {
        var e := out[i];
        TallyMore(deltas, out, i);
        deltas := deltas[e.doc := (if e.doc in deltas then deltas[e.doc] else 0) + 1];
      }
      assert out[..|out|] == out;
      BumpShardsFailed(deltas);
      TallyIsEscalate(old(Contents()), maxAttempts, out, deltas);
    }

    /** One UPDATE ... FROM (VALUES ...) for all documents in deltas. */
    method BumpShardsFailed(deltas: map<string, int>)
      modifies this`docs
      ensures docs == Bumped(old(docs), deltas)
    {
      if |deltas| == 0 {
        assert deltas == map[];
        assert docs == Bumped(docs, deltas);
        return;
      }
      docs := map d | d in docs :: if d in deltas then docs[d].(shardsFailed := docs[d].shardsFailed + deltas[d]) else docs[d];
    }

    /** No failed row of the document is left, the counter keeps its lead, and nothing else changes. */
    method RequeueFailedShards(d: string) returns (n: nat)
      modifies this
      ensures Contents() == RequeueFailed(old(Contents()), d) && n == |InState(old(Contents()), d, Failed)|
      ensures InState(Contents(), d, Failed) == {} && shards.Keys == old(shards).Keys
      ensures forall k :: k in shards ==> (shards[k] != old(shards)[k] <==> k in InState(old(Contents()), d, Failed))
      ensures d in docs ==> d in old(docs) && FailedLead(Contents(), d) == old(FailedLead(Contents(), d))
      ensures forall e :: e in old(docs) && e != d ==> e in docs && docs[e] == old(docs)[e]
    {
      ghost var before := Contents();
      if d in docs {
        RequeueExactly(before, d);
      }
      var hit := InState(Contents(), d, Failed);
      n := |hit|;
      shards := map k | k in shards :: if k in hit then shards[k].(state := Pending) else shards[k];
      if n > 0 {
        docs := Bump(docs, d, 0, -(n as int));
      } else {
        assert docs == Bump(docs, d, 0, -(n as int));
      }
    }

    /** Whatever the counters were, they are exact afterwards. */
    method RepairDocCounters(d: string, chunkCount: nat) returns (done: nat, failed: nat)
      modifies this`docs
      ensures Contents() == Repair(old(Contents()), d, chunkCount > 0)
      ensures done == |InState(old(Contents()), d, Done)| && failed == |InState(old(Contents()), d, Failed)|
      ensures d in old(docs) ==> d in docs && Exact(Contents(), d)
      ensures d in old(docs) ==>
                var state := if chunkCount == 0 then old(docs)[d].state else if failed > 0 then Partial else Ready;
                docs[d] == Doc(state, old(docs)[d].total, done, failed)
      ensures forall e :: e in old(docs) && e != d ==> e in docs && docs[e] == old(docs)[e]
    {
      ghost var before := Contents();
      done, failed := |InState(Contents(), d, Done)|, |InState(Contents(), d, Failed)|;
      if d in docs {
        RepairExact(before, d, chunkCount > 0);
        docs := docs[d := docs[d].(shardsDone := done, shardsFailed := failed)];
        if chunkCount > 0 {
          docs := docs[d := docs[d].(state := if docs[d].shardsFailed > 0 then Partial else Ready)];
        }
      }
    }

    method ResetDocForFullRetry(d: string)
      modifies this
      ensures Contents() == FullReset(old(Contents()), d)
      ensures RowsOf(Contents(), d) == {} && forall k :: k in old(shards) && k.doc != d ==> k in shards && shards[k] == old(shards)[k]
      ensures d in docs <==> d in old(docs)
      ensures d in docs ==> docs[d] == Doc(Uploaded, None, 0, 0)
    {
      shards := map k | k in shards && k.doc != d :: shards[k];
      if d in docs {
        docs := docs[d := FRESH_DOC];
      }
    }
  }

  /** deltas holds each document's tally, and nothing for the others. */
  ghost predicate Tallied(deltas: map<string, int>, rows: seq<EscalatedShard>) {
    forall d :: DeltaOf(rows, d) == if d in deltas then deltas[d] else 0
  }

  /** The failed counters raised by the tallies. */
  function Bumped(docs: map<string, Doc>, deltas: map<string, int>): map<string, Doc> {
    map d | d in docs :: if d in deltas then docs[d].(shardsFailed := docs[d].shardsFailed + deltas[d]) else docs[d]
  }

  lemma NothingTallied()
    ensures Tallied(map[], [])
  {
  }

  lemma TallyMore(deltas: map<string, int>, rows: seq<EscalatedShard>, i: nat)
    requires i < |rows| && Tallied(deltas, rows[..i])
    ensures var d := rows[i].doc;
            Tallied(deltas[d := (if d in deltas then deltas[d] else 0) + 1], rows[..i + 1])
  {
    assert rows[..i + 1][..i] == rows[..i];
  }

  /** Adding the tallies is the escalation's counter update. */
  lemma TallyIsEscalate(t: Tables, maxAttempts: int, rows: seq<EscalatedShard>, deltas: map<string, int>)
    requires Lists(rows, StuckKeys(t, maxAttempts)) && Tallied(deltas, rows)
    ensures Bumped(t.docs, deltas) == Escalate(t, maxAttempts).docs
    ensures forall d :: d in t.docs ==> Bumped(t.docs, deltas)[d].shardsFailed == t.docs[d].shardsFailed + DeltaOf(rows, d)
  {
    forall d ensures DeltaOf(rows, d) == |KeysOf(StuckKeys(t, maxAttempts), d)| {
      DeltaIsCount(rows, StuckKeys(t, maxAttempts), d);
    }
  }

  lemma ListsMore(rows: seq<EscalatedShard>, keys: set<Key>, row: EscalatedShard)
    requires Lists(rows, keys) && Key(row.doc, row.idx) !in keys
    ensures Lists(rows + [row], keys + {Key(row.doc, row.idx)})
  {
    var all, k0 := rows + [row], Key(row.doc, row.idx);
    assert all[|rows|] == row;
    forall k: Key ensures k in keys + {k0} <==> Listed(all, k) {
      if Listed(rows, k) {
        var i :| 0 <= i < |rows| && rows[i].doc == k.doc && rows[i].idx == k.idx;
        assert all[i] == rows[i];
      }
    }
    forall i | 0 <= i < |rows| ensures (rows[i].doc, rows[i].idx) != (row.doc, row.idx) {
      assert Listed(rows, Key(rows[i].doc, rows[i].idx));
    }
  }
}
