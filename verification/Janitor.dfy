/** The janitor's rescue of shards whose parse job was lost before anyone claimed them. */
module Janitors {
  import opened Chunks
  import opened ShardTables
  import opened ParseStream
  import opened Sequences

  // ---- dedup keys --------------------------------------------------------------

  function Digit(n: nat): char
    requires n < 10
  {
    "0123456789"[n]
  }

  function Digits(n: nat): (s: string)
    ensures s != "" && forall i :: 0 <= i < |s| ==> '0' <= s[i] <= '9'
  {
    if n < 10 then [Digit(n)] else Digits(n / 10) + [Digit(n % 10)]
  }

  /** strconv.Itoa */
  function Itoa(n: int): (s: string)
    ensures s != "" && forall i :: 0 <= i < |s| ==> '0' <= s[i] <= '9' || s[i] == '-'
  {
    if n < 0 then "-" + Digits(-n) else Digits(n)
  }

  function ParseJobKeyOf(doc: string, idx: int): string {
    doc + "|" + Itoa(idx)
  }

  lemma {:induction false} DigitsDiffer(a: nat, b: nat)
    requires Digits(a) == Digits(b)
    ensures a == b
  {
    var s, t := Digits(a), Digits(b);
    assert a >= 10 ==> |Digits(a / 10)| >= 1 && s[..|s| - 1] == Digits(a / 10) && s[|s| - 1] == Digit(a % 10);
    assert b >= 10 ==> |Digits(b / 10)| >= 1 && t[..|t| - 1] == Digits(b / 10) && t[|t| - 1] == Digit(b % 10);
    if a < 10 || b < 10 {
    } else {
      DigitsDiffer(a / 10, b / 10);
    }
  }

  lemma ItoaDiffers(a: int, b: int)
    requires Itoa(a) == Itoa(b)
    ensures a == b
  {
    assert (a < 0 <==> Itoa(a)[0] == '-') && (b < 0 <==> Itoa(b)[0] == '-');
    if a < 0 {
      assert Itoa(a)[1..] == Digits(-a) && Itoa(b)[1..] == Digits(-b);
      DigitsDiffer(-a, -b);
    } else {
      DigitsDiffer(a, b);
    }
  }

  /** Whatever bars the document id holds, the key determines document and index. */
  lemma KeysDiffer(doc: string, idx: int, doc': string, idx': int)
    requires ParseJobKeyOf(doc, idx) == ParseJobKeyOf(doc', idx')
    ensures doc == doc' && idx == idx'
  {
    var s := ParseJobKeyOf(doc, idx);
    assert s[|doc|] == '|' && s[|doc'|] == '|';
    LastBar(doc, Itoa(idx), |doc'|);
    LastBar(doc', Itoa(idx'), |doc|);
    assert s[..|doc|] == doc && s[..|doc'|] == doc';
    assert s[|doc| + 1..] == Itoa(idx) && s[|doc'| + 1..] == Itoa(idx');
    ItoaDiffers(idx, idx');
  }

  lemma LastBar(doc: string, tail: string, i: nat)
    requires forall k :: 0 <= k < |tail| ==> tail[k] != '|'
    requires i < |doc + "|" + tail| && (doc + "|" + tail)[i] == '|'
    ensures i <= |doc|
  {
    var s := doc + "|" + tail;
    assert forall k :: |doc| < k < |s| ==> s[k] == tail[k - |doc| - 1];
  }

  // ---- missingParseJobs ----------------------------------------------------------

  datatype StaleShard = StaleShard(key: Key, pageStart: int, pageEnd: int, sourceUri: string)

  datatype ParseJob = ParseJob(key: Key, pageStart: int, pageEnd: int, sourceUri: string)

  function JobOf(s: StaleShard): ParseJob {
    ParseJob(s.key, s.pageStart, s.pageEnd, s.sourceUri)
  }

  function KeyString(k: Key): string {
    ParseJobKeyOf(k.doc, k.idx)
  }

  function KeyStrings(keys: set<Key>): set<string> {
    set k | k in keys :: KeyString(k)
  }

  lemma KeyStringsMember(keys: set<Key>, k: Key)
    ensures KeyString(k) in KeyStrings(keys) <==> k in keys
  {
    if KeyString(k) in KeyStrings(keys) {
      var j :| j in keys && KeyString(j) == KeyString(k);
      KeysDiffer(j.doc, j.idx, k.doc, k.idx);
    }
  }

  /** A job for each shard whose key is not queued, in order. */
  function Missing(shards: seq<StaleShard>, queued: set<string>): seq<ParseJob> {
    if shards == [] then []
    else
      var n := |shards| - 1;
      Missing(shards[..n], queued) + if KeyString(shards[n].key) in queued then [] else [JobOf(shards[n])]
  }

  method MissingParseJobs(shards: seq<StaleShard>, queued: set<string>) returns (jobs: seq<ParseJob>)
    ensures jobs == Missing(shards, queued)
  {
    hide ParseJobKeyOf;
    jobs := [];
    for i := 0 to |shards|
      invariant jobs == Missing(shards[..i], queued)
    {
      assert shards[..i + 1][..i] == shards[..i];
      var s := shards[i];
      if KeyString(s.key) in queued {
        continue;
      }
      jobs := jobs + [ParseJob(s.key, s.pageStart, s.pageEnd, s.sourceUri)];
    }
    assert shards[..|shards|] == shards;
  }

  /** Some shard without a queued job wants this job. */
  ghost predicate Wanted(shards: seq<StaleShard>, queued: set<Key>, j: ParseJob) {
    exists s :: s in shards && JobOf(s) == j && s.key !in queued
  }

  /** Exactly the shards without a queued job are rescued. */
  lemma {:induction false} MissingExactly(shards: seq<StaleShard>, queued: set<Key>, j: ParseJob)
    ensures j in Missing(shards, KeyStrings(queued)) <==> Wanted(shards, queued, j)
    decreases |shards|
  {
    hide Wanted, KeyString, KeyStrings;
    if shards == [] {
      NoneWanted(queued, j);
    } else {
      var n := |shards| - 1;
      MissingExactly(shards[..n], queued, j);
      KeyStringsMember(queued, shards[n].key);
      WantedMore(shards, queued, j);
    }
  }

  /** One job for each, in their order. */
  lemma {:induction false} MissingInOrder(shards: seq<StaleShard>, queued: set<Key>) returns (idx: seq<nat>)
    ensures Picks(idx, |shards|, (i: nat) => i < |shards| && shards[i].key !in queued)
    ensures |Missing(shards, KeyStrings(queued))| == |idx|
    ensures forall k :: 0 <= k < |idx| ==>
              && idx[k] < |shards|
              && var s := shards[idx[k]];
                 Missing(shards, KeyStrings(queued))[k] == ParseJob(s.key, s.pageStart, s.pageEnd, s.sourceUri)
    decreases |shards|
  {
    hide KeyString, KeyStrings, Picks;
    if shards == [] {
      idx := [];
      NothingPicked(0, (i: nat) => i < |shards| && shards[i].key !in queued);
    } else {
      var n := |shards| - 1;
      idx := MissingInOrder(shards[..n], queued);
      KeyStringsMember(queued, shards[n].key);
      var missing := (i: nat) => i < |shards| && shards[i].key !in queued;
      SamePicks(idx, n, (i: nat) => i < |shards[..n]| && shards[..n][i].key !in queued, missing);
      PicksNext(idx, n, missing);
      if missing(n) {
        idx := idx + [n];
      }
    }
  }

  lemma NoneWanted(queued: set<Key>, j: ParseJob)
    ensures !Wanted([], queued, j)
  {
  }

  lemma WantedMore(shards: seq<StaleShard>, queued: set<Key>, j: ParseJob)
    requires shards != []
    ensures var n := |shards| - 1;
            Wanted(shards, queued, j) <==> Wanted(shards[..n], queued, j) || (JobOf(shards[n]) == j && shards[n].key !in queued)
  {
    assert shards == shards[..|shards| - 1] + [shards[|shards| - 1]];
  }

  // ---- pendingShardSweep -----------------------------------------------------------

  /**
   * The sweep's stream half: when every XADD succeeds, each never-attempted shard has a queued
   * job afterwards, and only shards the scan found without one got a new one.
   */
  method Sweep(stream: Stream, shards: seq<StaleShard>) returns (jobs: seq<ParseJob>, ghost scanned: set<Key>)
    requires stream.Valid()
    modifies stream
    ensures stream.Valid() && |stream.log| == |old(stream.log)| + |jobs|
    ensures old(stream.Queued()) <= stream.Queued()
    ensures forall i :: 0 <= i < |shards| ==> shards[i].key in stream.Queued()
    ensures forall i :: 0 <= i < |jobs| ==> jobs[i].key !in scanned
    ensures jobs == Missing(shards, KeyStrings(scanned)) && Appended(old(stream.log), stream.log, jobs)
    ensures scanned <= old(stream.Queued()) && (|old(stream.pel)| <= 500 ==> scanned == old(stream.Queued()))
  {
    hide Missing, KeyStrings, KeysIn, IdsOf, AscendingLog, AscendingPel;
    jobs, scanned := [], {};
    var keys := stream.PendingJobKeys();
    if |shards| == 0 {
      scanned := keys;
      NothingMissing(KeyStrings(keys));
      return;
    }
    scanned := keys;
    jobs := MissingParseJobs(shards, KeyStrings(keys));
    RescueSpec(shards, keys, jobs);
    AddJobs(stream, jobs);
    forall i | 0 <= i < |shards| ensures shards[i].key in stream.Queued() {
      if shards[i].key !in keys {
        var j :| 0 <= j < |jobs| && jobs[j].key == shards[i].key;
      }
    }
  }

  /** One message per job, in order, behind what was there. */
  ghost predicate Appended(before: seq<Message>, log: seq<Message>, jobs: seq<ParseJob>) {
    && before <= log && |log| == |before| + |jobs|
    && forall i :: 0 <= i < |jobs| ==> log[|before| + i].payload == Some(jobs[i].key)
  }

  lemma NothingMissing(queued: set<string>)
    ensures Missing([], queued) == []
  {
  }

  method AddJobs(stream: Stream, jobs: seq<ParseJob>)
    requires stream.Valid()
    modifies stream`log, stream`lastId
    ensures stream.Valid() && Appended(old(stream.log), stream.log, jobs)
    ensures old(stream.Queued()) <= stream.Queued()
    ensures forall i :: 0 <= i < |jobs| ==> jobs[i].key in stream.Queued()
  {
    hide KeysIn, IdsOf, AscendingLog, AscendingPel;
    for i := 0 to |jobs|
      invariant stream.Valid() && Appended(old(stream.log), stream.log, jobs[..i])
      invariant old(stream.Queued()) <= stream.Queued() && forall j :: 0 <= j < i ==> jobs[j].key in stream.Queued()
    {
      var id := stream.XAdd(Some(jobs[i].key));
    }
  }

  lemma RescueSpec(shards: seq<StaleShard>, keys: set<Key>, jobs: seq<ParseJob>)
    requires jobs == Missing(shards, KeyStrings(keys))
    ensures forall i :: 0 <= i < |jobs| ==> jobs[i].key !in keys
    ensures forall i :: 0 <= i < |shards| && shards[i].key !in keys ==> exists j :: 0 <= j < |jobs| && jobs[j].key == shards[i].key
  {
    hide Missing, KeyStrings;
    forall i | 0 <= i < |jobs| ensures jobs[i].key !in keys {
      MissingExactly(shards, keys, jobs[i]);
      assert jobs[i] in jobs;
    }
    forall i | 0 <= i < |shards| && shards[i].key !in keys ensures exists j :: 0 <= j < |jobs| && jobs[j].key == shards[i].key {
      MissingExactly(shards, keys, JobOf(shards[i]));
      assert shards[i] in shards;
      assert JobOf(shards[i]) in jobs;
      var j :| 0 <= j < |jobs| && jobs[j] == JobOf(shards[i]);
    }
  }

  // ---- Pass, from the reclaim to its events ------------------------------------------

  /** What the fourth step of a pass drops, and whether it gets to write that down. */
  ghost predicate Drops(log: seq<Message>, pel: seq<PelEntry>, now: int, cap: nat, known: nat -> Option<nat>, addFails: nat -> bool, k: Key) {
    k in DeadKeys(StaleJobs(log, pel, now, 1200, 50), cap, known, addFails)
  }

  ghost predicate Writes(log: seq<Message>, pel: seq<PelEntry>, now: int, cap: nat, known: nat -> Option<nat>, addFails: nat -> bool,
                         writeFails: bool) {
    var entries := StaleJobs(log, pel, now, 1200, 50);
    !Breaks(entries, cap, known, addFails) && (writeFails ==> DeadKeys(entries, cap, known, addFails) == [])
  }

  class Janitor {
    /** The dead-letter events, oldest first. */
    var events: seq<Key>

    constructor ()
      ensures events == []
    {
      events := [];
    }

    /**
     * The fourth step of Pass: the entries are dropped while the reclaim goes on, and their events
     * are written afterwards, in one transaction; an error before that discards the list.
     */
    method ReclaimStep(stream: Stream, now: int, cap: nat, known: nat -> Option<nat>, addFails: nat -> bool, writeFails: bool) returns (ok: bool)
      requires stream.Valid()
      modifies this`events, stream`log, stream`lastId, stream`pel
      ensures stream.Valid() && old(events) <= events
      ensures ok == Writes(old(stream.log), old(stream.pel), now, cap, known, addFails, writeFails)
      ensures events[|old(events)|..] == if ok then DeadKeys(StaleJobs(old(stream.log), old(stream.pel), now, 1200, 50), cap, known, addFails) else []
      ensures forall k :: k in old(stream.Queued()) ==>
                k in stream.Queued() || Drops(old(stream.log), old(stream.pel), now, cap, known, addFails, k)
    {
      hide StaleJobs, DeadKeys, Breaks;
      var readded, quarantines, err;
      ghost var handled: nat;
      readded, quarantines, err, handled := stream.Reclaim(now, cap, known, addFails);
      if err {
        return false;
      }
      if |quarantines| > 0 {
        if writeFails {
          return false;
        }
        events := events + quarantines;
      }
      ok := true;
    }
  }

  /** A dropped shard's event goes unwritten exactly when a later entry cannot be added again, or the write fails. */
  lemma UnwrittenExactly(log: seq<Message>, pel: seq<PelEntry>, now: int, cap: nat, known: nat -> Option<nat>, addFails: nat -> bool,
                         writeFails: bool, k: Key, i: nat)
    requires DropsAt(StaleJobs(log, pel, now, 1200, 50), cap, known, addFails, k, i)
    ensures Drops(log, pel, now, cap, known, addFails, k)
    ensures var entries := StaleJobs(log, pel, now, 1200, 50);
            !Writes(log, pel, now, cap, known, addFails, writeFails)
            <==> writeFails || exists j :: i < j < |entries| && Breaking(entries[j], cap, known, addFails)
  {
    var entries := StaleJobs(log, pel, now, 1200, 50);
    hide StaleJobs;
    DeadKeysAre(entries, cap, known, addFails, k);
    BreaksIs(entries, cap, known, addFails);
  }
}
