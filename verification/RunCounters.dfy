/** The counters in every run of the ingest protocol. */
module RunCounters {
  import opened Chunks
  import opened ShardTables
  import opened Counters
  import opened Protocol

  /**
   * In every reachable state the counters are at least the true counts, so a document whose rows
   * are all done or failed is settled as soon as its total is set and within its rows.
   */
  lemma CountersSafeInRuns(p: Params, run: seq<Event>, d: string)
    requires After(p, run).Some? && d in After(p, run).value.t.docs
    ensures var t := After(p, run).value.t;
            && t.docs[d].shardsDone >= Count(t, d, Done) && t.docs[d].shardsFailed >= Count(t, d, Failed)
            && (AllSettled(t, d) && t.docs[d].total.Some? && 0 < t.docs[d].total.value <= |RowsOf(t, d)| ==> BookSettled(t.docs[d]))
  {
    var t := After(p, run).value.t;
    var ops := TablesOfRun(p, run);
    CountersSafe(ops);
    assert DocSafe(t, d);
    SettledCount(t, d);
  }
}
