/** The shards and documents tables, and what each transaction does to them. */
module ShardTables {
  import opened Chunks

  datatype RowState = Pending | Running | Done | Failed | Skipped

  /** Primary key of a shard row. */
  datatype Key = Key(doc: string, idx: int)

  /** A shard row; worker ids are unique to one claim. */
  datatype Row = Row(pageStart: int, pageEnd: int, state: RowState, attempts: nat, worker: Option<nat>, leaseUntil: Option<int>)

  datatype DocState = Uploaded | Splitting | Parsing | Embedding | Indexing | Ready | DocFailed | Partial | Archived

  /** docTerminal: no sweep looks at such a document any more. */
  predicate Terminal(state: DocState) {
    state in {DocFailed, Ready, Partial, Archived}
  }

  /** A document's state and counters. */
  datatype Doc = Doc(state: DocState, total: Option<int>, shardsDone: int, shardsFailed: int)

  const FRESH_DOC: Doc := Doc(Uploaded, None, 0, 0)

  datatype Tables = Tables(shards: map<Key, Row>, docs: map<string, Doc>)

  function FreshRow(bound: (int, int)): Row {
    Row(bound.0, bound.1, Pending, 0, None, None)
  }

  // ---- one transaction each --------------------------------------------------

  predicate Claimable(t: Tables, k: Key) {
    k in t.shards && t.shards[k].state in {Pending, Failed}
  }

  /** ClaimShard: only a pending or failed row; nothing at all otherwise. */
  function Claim(t: Tables, k: Key, worker: nat, leaseUntil: int): Tables {
    if Claimable(t, k) then
      var r := t.shards[k];
      t.(shards := t.shards[k := r.(state := Running, attempts := r.attempts + 1, worker := Some(worker), leaseUntil := Some(leaseUntil))])
    else t
  }

  function Bump(docs: map<string, Doc>, d: string, done: int, failed: int): map<string, Doc> {
    if d in docs then docs[d := docs[d].(shardsDone := docs[d].shardsDone + done, shardsFailed := docs[d].shardsFailed + failed)] else docs
  }

  /** MarkShardDone: no state guard, and the counter moves even when there is no such row. */
  function MarkDone(t: Tables, k: Key): Tables {
    Tables(if k in t.shards then t.shards[k := t.shards[k].(state := Done, leaseUntil := None)] else t.shards, Bump(t.docs, k.doc, 1, 0))
  }

  function MarkFailed(t: Tables, k: Key): Tables {
    Tables(if k in t.shards then t.shards[k := t.shards[k].(state := Failed, leaseUntil := None)] else t.shards, Bump(t.docs, k.doc, 0, 1))
  }

  /** NextShardIdx: one past the largest index of the document. */
  predicate IsNextIdx(t: Tables, d: string, next: int) {
    && (forall k :: k in t.shards && k.doc == d ==> k.idx < next)
    && (if exists k :: k in t.shards && k.doc == d then Key(d, next - 1) in t.shards else next == 0)
  }

  function Inserted(shards: map<Key, Row>, d: string, bounds: seq<(int, int)>, startIdx: int): map<Key, Row> {
    if bounds == [] then shards
    else
      var n := |bounds| - 1;
      Inserted(shards, d, bounds[..n], startIdx)[Key(d, startIdx + n) := FreshRow(bounds[n])]
  }

  /** The insert would violate the primary key or the reference to the document. */
  predicate InsertConflicts(t: Tables, d: string, bounds: seq<(int, int)>, startIdx: int) {
    bounds != [] && (d !in t.docs || exists k :: k in t.shards && k.doc == d && startIdx <= k.idx < startIdx + |bounds|)
  }

  function SetTotal(docs: map<string, Doc>, d: string, total: int): map<string, Doc> {
    if d in docs then docs[d := docs[d].(total := Some(total))] else docs
  }

  function SetState(docs: map<string, Doc>, d: string, state: DocState): map<string, Doc> {
    if d in docs then docs[d := docs[d].(state := state)] else docs
  }

  /** commitSplit: the document is parsing, with its shard rows and its total; aborts as a whole on a conflict. */
  function CommitSplit(t: Tables, d: string, bounds: seq<(int, int)>): Tables {
    if InsertConflicts(t, d, bounds, 0) then t
    else Tables(Inserted(t.shards, d, bounds, 0), SetState(SetTotal(t.docs, d, |bounds|), d, Parsing))
  }

  /** resplitShard's transaction: the parent is skipped, its sub-shards inserted, the total set. */
  function Resplit(t: Tables, k: Key, bounds: seq<(int, int)>, startIdx: int, newTotal: int): Tables {
    if k !in t.shards || InsertConflicts(t, k.doc, bounds, startIdx) then t
    else
      var skipped := t.shards[k := t.shards[k].(state := RowState.Skipped)];
      Tables(Inserted(skipped, k.doc, bounds, startIdx), SetTotal(t.docs, k.doc, newTotal))
  }

  predicate Expired(r: Row, now: int) {
    r.state == Running && r.leaseUntil.Some? && r.leaseUntil.value < now
  }

  /** RequeueExpiredLeases */
  function Reap(t: Tables, now: int): Tables {
    t.(shards := map k | k in t.shards ::
         if Expired(t.shards[k], now) then t.shards[k].(state := Pending, worker := None, leaseUntil := None) else t.shards[k])
  }

  predicate Stuck(r: Row, maxAttempts: int) {
    r.state == Pending && r.attempts >= maxAttempts
  }

  function StuckKeys(t: Tables, maxAttempts: int): set<Key> {
    set k | k in t.shards && Stuck(t.shards[k], maxAttempts)
  }

  function KeysOf(keys: set<Key>, d: string): set<Key> {
    set k | k in keys && k.doc == d
  }

  /** EscalateStuckShards: each document's failed counter grows by its own escalated rows. */
  function Escalate(t: Tables, maxAttempts: int): Tables {
    var hit := StuckKeys(t, maxAttempts);
    Tables(map k | k in t.shards :: if k in hit then t.shards[k].(state := Failed) else t.shards[k],
           map d | d in t.docs :: t.docs[d].(shardsFailed := t.docs[d].shardsFailed + |KeysOf(hit, d)|))
  }

  function InState(t: Tables, d: string, state: RowState): set<Key> {
    set k | k in t.shards && k.doc == d && t.shards[k].state == state
  }

  function RowsOf(t: Tables, d: string): set<Key> {
    set k | k in t.shards && k.doc == d
  }

  /** RequeueFailedShards */
  function RequeueFailed(t: Tables, d: string): Tables {
    Tables(map k | k in t.shards :: if k in InState(t, d, Failed) then t.shards[k].(state := Pending) else t.shards[k],
           Bump(t.docs, d, 0, -|InState(t, d, Failed)|))
  }

  /** The scope=shards retry: the failed rows are requeued and the document is parsing again. */
  function Retry(t: Tables, d: string): Tables {
    var requeued := RequeueFailed(t, d);
    requeued.(docs := SetState(requeued.docs, d, Parsing))
  }

  /** RepairDocCounters: a recount; a document that has chunks is closed again by the result. */
  function Repair(t: Tables, d: string, chunked: bool): Tables {
    if d !in t.docs then t
    else
      var failed := |InState(t, d, Failed)|;
      var state := if !chunked then t.docs[d].state else if failed > 0 then Partial else Ready;
      t.(docs := t.docs[d := t.docs[d].(state := state, shardsDone := |InState(t, d, Done)|, shardsFailed := failed)])
  }

  /** ResetDocForFullRetry */
  function FullReset(t: Tables, d: string): Tables {
    Tables(map k | k in t.shards && k.doc != d :: t.shards[k],
           if d in t.docs then t.docs[d := FRESH_DOC] else t.docs)
  }

  function Register(t: Tables, d: string): Tables {
    if d in t.docs then t else t.(docs := t.docs[d := FRESH_DOC])
  }

  /** Deleting a document deletes its shard rows with it. */
  function Delete(t: Tables, d: string): Tables {
    Tables(map k | k in t.shards && k.doc != d :: t.shards[k], t.docs - {d})
  }

  /** BookSettled */
  predicate BookSettled(d: Doc) {
    var total := if d.total.Some? then d.total.value else 0;
    total > 0 && d.shardsDone + d.shardsFailed >= total
  }

  // ---- transactions as data --------------------------------------------------

  datatype Op =
    | OpRegister(d: string)
    | OpSplit(d: string, bounds: seq<(int, int)>)
    | OpClaim(k: Key, worker: nat, leaseUntil: int)
    | OpDone(k: Key)
    | OpFailed(k: Key)
    | OpResplit(k: Key, bounds: seq<(int, int)>, startIdx: int, newTotal: int)
    | OpReap(now: int)
    | OpEscalate(maxAttempts: int)
    | OpRetry(d: string)
    | OpSetState(d: string, state: DocState)
    | OpRepair(d: string, chunked: bool)
    | OpReset(d: string)
    | OpDelete(d: string)

  function Apply(t: Tables, op: Op): Tables {
    match op
    case OpRegister(d) => Register(t, d)
    case OpSplit(d, bounds) => CommitSplit(t, d, bounds)
    case OpClaim(k, worker, leaseUntil) => Claim(t, k, worker, leaseUntil)
    case OpDone(k) => MarkDone(t, k)
    case OpFailed(k) => MarkFailed(t, k)
    case OpResplit(k, bounds, startIdx, newTotal) => Resplit(t, k, bounds, startIdx, newTotal)
    case OpReap(now) => Reap(t, now)
    case OpEscalate(maxAttempts) => Escalate(t, maxAttempts)
    case OpRetry(d) => Retry(t, d)
    case OpSetState(d, state) => t.(docs := SetState(t.docs, d, state))
    case OpRepair(d, chunked) => Repair(t, d, chunked)
    case OpReset(d) => FullReset(t, d)
    case OpDelete(d) => Delete(t, d)
  }

  function ApplyAll(t: Tables, ops: seq<Op>): Tables {
    if ops == [] then t else Apply(ApplyAll(t, ops[..|ops| - 1]), ops[|ops| - 1])
  }

  const EMPTY_TABLES: Tables := Tables(map[], map[])

  // ---- facts about the transactions -------------------------------------------

  lemma {:induction false} InsertedRows(shards: map<Key, Row>, d: string, bounds: seq<(int, int)>, startIdx: int, k: Key)
    ensures var r := Inserted(shards, d, bounds, startIdx);
            var isNew := k.doc == d && startIdx <= k.idx < startIdx + |bounds|;
            && (k in r <==> k in shards || isNew)
            && (k in r ==> r[k] == if isNew then FreshRow(bounds[k.idx - startIdx]) else shards[k])
    decreases |bounds|
  {
    if bounds == [] {
    } else {
      var n := |bounds| - 1;
      InsertedRows(shards, d, bounds[..n], startIdx, k);
    }
  }
}
