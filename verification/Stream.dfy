/** The parse stream: its log, its pending list, the dedup scan, and the janitor's reclaim. */
module ParseStream {
  import opened Chunks
  import opened Numbers
  import opened ShardTables
  import opened Sequences

  /** A stream message; None when its payload yields no dedup key. */
  datatype Message = Message(id: nat, payload: Option<Key>)

  /** A delivered message that has not been acknowledged. */
  datatype PelEntry = PelEntry(id: nat, idleSince: int, deliveries: nat)

  /** How many pending entries the dedup scan looks at. */
  const SCAN_PAGE: nat := 500

  function IdsOf(pel: seq<PelEntry>): set<nat> {
    set i | 0 <= i < |pel| :: pel[i].id
  }

  /** The dedup keys of the messages that were never delivered or are among the given pending ids. */
  function KeysIn(log: seq<Message>, lastDelivered: int, ids: set<nat>): set<Key> {
    set i | 0 <= i < |log| && (log[i].id > lastDelivered || log[i].id in ids) && log[i].payload.Some? :: log[i].payload.value
  }

  predicate Has(log: seq<Message>, lastDelivered: int, ids: set<nat>, k: Key) {
    exists i :: 0 <= i < |log| && (log[i].id > lastDelivered || log[i].id in ids) && log[i].payload == Some(k)
  }

  lemma KeysAre(log: seq<Message>, lastDelivered: int, ids: set<nat>)
    ensures forall k: Key :: k in KeysIn(log, lastDelivered, ids) <==> Has(log, lastDelivered, ids, k)
  {
    forall k: Key ensures k in KeysIn(log, lastDelivered, ids) <==> Has(log, lastDelivered, ids, k) {
      if Has(log, lastDelivered, ids, k) {
        var i :| 0 <= i < |log| && (log[i].id > lastDelivered || log[i].id in ids) && log[i].payload == Some(k);
        assert log[i].payload.value in KeysIn(log, lastDelivered, ids);
      }
    }
  }

  predicate AscendingLog(log: seq<Message>) {
    forall i, j :: 0 <= i < j < |log| ==> log[i].id < log[j].id
  }

  predicate AscendingPel(pel: seq<PelEntry>) {
    forall i, j :: 0 <= i < j < |pel| ==> pel[i].id < pel[j].id
  }

  function DropMessage(log: seq<Message>, id: nat): (r: seq<Message>)
    ensures forall m :: m in r <==> m in log && m.id != id
  {
    if log == [] then []
    else
      var rest := DropMessage(log[1..], id);
      assert log == [log[0]] + log[1..];
      if log[0].id == id then rest else [log[0]] + rest
  }

  lemma {:induction false} DropMessageKeepsOrder(log: seq<Message>, id: nat)
    requires AscendingLog(log)
    ensures AscendingLog(DropMessage(log, id))
  {
    if log == [] {
    } else {
      var rest := DropMessage(log[1..], id);
      DropMessageKeepsOrder(log[1..], id);
      forall j | 0 <= j < |rest| ensures log[0].id < rest[j].id {
        assert rest[j] in log[1..];
      }
    }
  }

  function DropPending(pel: seq<PelEntry>, id: nat): (r: seq<PelEntry>)
    ensures forall x :: x in r <==> x in pel && x.id != id
  {
    if pel == [] then []
    else
      var rest := DropPending(pel[1..], id);
      assert pel == [pel[0]] + pel[1..];
      if pel[0].id == id then rest else [pel[0]] + rest
  }

  lemma {:induction false} DropPendingKeepsOrder(pel: seq<PelEntry>, id: nat)
    requires AscendingPel(pel)
    ensures AscendingPel(DropPending(pel, id))
  {
    if pel == [] {
    } else {
      var rest := DropPending(pel[1..], id);
      DropPendingKeepsOrder(pel[1..], id);
      forall j | 0 <= j < |rest| ensures pel[0].id < rest[j].id {
        assert rest[j] in pel[1..];
      }
    }
  }

  /** No pending entry has this id. */
  predicate Gone(pel: seq<PelEntry>, id: nat) {
    forall x :: x in pel ==> x.id != id
  }

  lemma GoneAfter(pel: seq<PelEntry>, id: nat)
    ensures Gone(DropPending(pel, id), id) && forall other: nat :: Gone(pel, other) ==> Gone(DropPending(pel, id), other)
  {
  }

  /** Dropping one message loses at most its own key. */
  lemma DropLosesOne(log: seq<Message>, lastDelivered: int, pel: seq<PelEntry>, id: nat, k: Key)
    requires Has(log, lastDelivered, IdsOf(pel), k)
    ensures || Has(DropMessage(log, id), lastDelivered, IdsOf(DropPending(pel, id)), k)
            || exists m :: m in log && m.id == id && m.payload == Some(k)
  {
    var i :| 0 <= i < |log| && (log[i].id > lastDelivered || log[i].id in IdsOf(pel)) && log[i].payload == Some(k);
    if log[i].id != id {
      var r, q := DropMessage(log, id), DropPending(pel, id);
      assert log[i] in r;
      var j :| 0 <= j < |r| && r[j] == log[i];
      if log[i].id in IdsOf(pel) {
        var x :| 0 <= x < |pel| && pel[x].id == log[i].id;
        assert pel[x] in q;
        var y :| 0 <= y < |q| && q[y] == pel[x];
      }
      assert r[j].payload == Some(k);
    } else {
      assert log[i] in log;
    }
  }

  datatype Decision = Kept | Readded | Quarantined

  class Stream {
    var log: seq<Message>
    var lastDelivered: nat
    var lastId: nat
    var pel: seq<PelEntry>

    predicate Valid()
      reads this
    {
      && AscendingLog(log) && AscendingPel(pel) && lastDelivered <= lastId
      && (forall i :: 0 <= i < |log| ==> log[i].id <= lastId)
      && (forall i :: 0 <= i < |pel| ==> pel[i].id <= lastDelivered)
    }

    /** Keys with a job that is undelivered or pending. */
    function Queued(): set<Key>
      reads this
    {
      KeysIn(log, lastDelivered, IdsOf(pel))
    }

    constructor ()
      ensures Valid() && Queued() == {}
    {
      log, lastDelivered, lastId, pel := [], 0, 0, [];
    }

    /** XAddJob */
    method XAdd(payload: Option<Key>) returns (id: nat)
      requires Valid()
      modifies this`log, this`lastId
      ensures Valid() && id == lastId == old(lastId) + 1 && log == old(log) + [Message(id, payload)]
      ensures Queued() == old(Queued()) + if payload.Some? then {payload.value} else {}
    {
      id := lastId + 1;
      lastId := id;
      log := log + [Message(id, payload)];
      KeysAre(old(log), lastDelivered, IdsOf(pel));
      KeysAre(log, lastDelivered, IdsOf(pel));
      assert forall i :: 0 <= i < |old(log)| ==> log[i] == old(log)[i];
      assert log[|old(log)|] == Message(id, payload);
      assert Queued() == old(Queued()) + if payload.Some? then {payload.value} else {};
    }

    /** XACK and XDEL of one entry. */
    method Ack(id: nat)
      requires Valid()
      modifies this`log, this`pel
      ensures Valid() && log == DropMessage(old(log), id) && pel == DropPending(old(pel), id)
      ensures forall k :: k in old(Queued()) ==> k in Queued() || exists m :: m in old(log) && m.id == id && m.payload == Some(k)
    {
      DropMessageKeepsOrder(log, id);
      DropPendingKeepsOrder(pel, id);
      log, pel := DropMessage(log, id), DropPending(pel, id);
      assert forall i :: 0 <= i < |log| ==> log[i] in old(log);
      assert forall i :: 0 <= i < |pel| ==> pel[i] in old(pel);
      KeysAre(old(log), lastDelivered, IdsOf(old(pel)));
      KeysAre(log, lastDelivered, IdsOf(pel));
      forall k | k in old(Queued()) ensures k in Queued() || exists m :: m in old(log) && m.id == id && m.payload == Some(k) {
        DropLosesOne(old(log), lastDelivered, old(pel), id, k);
      }
    }

    /** XREADGROUP of the next message: it moves from undelivered to pending, and no key is lost. */
    method ReadOne(now: int) returns (m: Option<Message>)
      requires Valid()
      modifies this`lastDelivered, this`pel
      ensures Valid() && Queued() == old(Queued())
      ensures m.Some? <==> exists i :: 0 <= i < |log| && log[i].id > old(lastDelivered)
      ensures m.Some? ==> m.value in log && lastDelivered == m.value.id > old(lastDelivered) && pel == old(pel) + [PelEntry(m.value.id, now, 1)]
      ensures m.Some? ==> forall i :: 0 <= i < |log| && log[i].id > old(lastDelivered) ==> m.value.id <= log[i].id
    {
      m := None;
      var i := 0;
      while i < |log| && log[i].id <= lastDelivered
        invariant 0 <= i <= |log| && forall k :: 0 <= k < i ==> log[k].id <= lastDelivered
      {
        i := i + 1;
      }
      if i < |log| {
        ghost var was, before := lastDelivered, IdsOf(pel);
        m := Some(log[i]);
        pel := pel + [PelEntry(log[i].id, now, 1)];
        lastDelivered := log[i].id;
        forall id: nat ensures id in IdsOf(pel) <==> id in before || id == log[i].id {
          if id in before {
            var x :| 0 <= x < |old(pel)| && old(pel)[x].id == id;
            assert pel[x].id == id;
          }
          assert pel[|old(pel)|].id == log[i].id;
        }
        forall k | 0 <= k < |log|
          ensures log[k].id > was || log[k].id in before <==> log[k].id > lastDelivered || log[k].id in IdsOf(pel)
        {
        }
        assert KeysIn(log, lastDelivered, IdsOf(pel)) == KeysIn(log, was, before);
      }
    }

    /** The scan of the undelivered tail, page by page. */
    method UndeliveredKeys() returns (keys: set<Key>)
      requires Valid()
      ensures keys == KeysIn(log, lastDelivered, {})
    {
      hide AscendingPel, KeysIn, PageKeys, SuffixAfter, IdsOf;
      keys := {};
      var page := SuffixAfter(log, lastDelivered);
      SuffixIs(log, lastDelivered);
      NothingBefore(log, lastDelivered, |log| - |page|);
      while |page| > 0
        invariant |page| <= |log| && page == log[|log| - |page|..] && forall i :: 0 <= i < |page| ==> page[i].id > lastDelivered
        invariant keys == KeysIn(log[..|log| - |page|], lastDelivered, {})
        decreases |page|
      {
        var found := CollectPage(page);
        PageCollected(log, lastDelivered, |log| - |page|);
        keys := keys + found;
        if |page| < SCAN_PAGE {
          page := [];
        } else {
          assert page[|page| - 1] == log[|log| - 1];
          NothingAfterLast(log);
          page := SuffixAfter(log, page[|page| - 1].id);
        }
        assert page == [];
        WholeLog(log);
      }
      WholeLog(log);
    }

    /** PendingJobKeys: everything undelivered, and the first page of the pending list. */
    method PendingJobKeys() returns (keys: set<Key>)
      requires Valid()
      ensures keys == KeysIn(log, lastDelivered, IdsOf(pel[..Min(|pel|, 500)]))
      ensures keys <= Queued() && (|pel| <= 500 ==> keys == Queued())
    {
      hide AscendingPel, AscendingLog, KeysIn, KeysOfId;
      keys := UndeliveredKeys();
      var n := if |pel| < SCAN_PAGE then |pel| else SCAN_PAGE;
      assert IdsOf(pel[..0]) == {};
      hide IdsOf;
      for i := 0 to n
        invariant keys == KeysIn(log, lastDelivered, IdsOf(pel[..i]))
      {
        keys := keys + KeysOfId(log, pel[i].id);
        PelMore(log, lastDelivered, pel, i);
      }
      PelPrefix(log, lastDelivered, pel, n);
    }

    /**
     * ClaimStale: up to count idle entries change hands; an entry without a job is acknowledged
     * instead. left lists the entries that stay pending.
     */
    method ClaimStale(now: int, minIdle: int, count: nat) returns (claimed: seq<Message>, ghost left: seq<nat>)
      requires Valid()
      modifies this`pel
      ensures Valid() && Queued() == old(Queued())
      ensures JobsFrom(log, claimed, 0) && claimed == StaleJobs(log, old(pel), now, minIdle, count)
      ensures StillPending(log, old(pel), now, minIdle, count, |old(pel)|, pel, left)
    {
      hide KeysIn, AscendingLog, AscendingPel, ClaimedSoFar, IdsOf, StaleJobs, NoJob, JobsFrom, StillPending;
      claimed, left := [], [];
      var taken, i := 0, 0;
      ghost var all := pel;
      NothingClaimed(log, pel);
      NothingPending(log, pel, now, minIdle, count);
      var next: seq<PelEntry> := [];
      assert pel[0..] == pel;
      while i < |pel|
        invariant 0 <= i <= |pel| && pel == all && ClaimedSoFar(log, pel, next, i) && taken == Min(count, IdleCount(pel, now, minIdle, i))
        invariant StillPending(log, pel, now, minIdle, count, i, next, left)
        invariant claimed + StaleJobs(log, pel[i..], now, minIdle, count - taken) == StaleJobs(log, pel, now, minIdle, count)
      {
        var x := pel[i];
        var m := Find(log, x.id);
        var idle := now - x.idleSince >= minIdle && taken < count;
        ClaimOne(log, pel, next, i, idle, now, m);
        StaleNext(log, pel, i, now, minIdle, count - taken);
        StillNext(log, pel, now, minIdle, count, i, next, left, m);
        if !idle {
          next, left := next + [x], left + [i];
        } else {
          taken := taken + 1;
          if m.Some? && m.value.payload.Some? {
            assert claimed + ([m.value] + StaleJobs(log, pel[i + 1..], now, minIdle, count - taken))
                   == (claimed + [m.value]) + StaleJobs(log, pel[i + 1..], now, minIdle, count - taken);
            claimed := claimed + [m.value];
            next, left := next + [x.(idleSince := now, deliveries := x.deliveries + 1)], left + [i];
          }
        }
        i := i + 1;
      }
      ClaimedAll(log, lastDelivered, pel, next);
      NoStale(log, now, minIdle, count - taken);
      assert pel[i..] == [] && claimed + [] == claimed;
      ClaimedJobs(log, pel, now, minIdle, count);
      pel := next;
    }

    /**
     * reclaimDecide: an entry known to be delivered too often is quarantined; any other is added
     * again before the old one goes. Failing to read the count never quarantines.
     */
    method ReclaimDecide(m: Message, deliveries: Option<nat>, cap: nat, addFails: bool) returns (decided: Decision, err: bool)
      requires Valid() && m in log && m.payload.Some?
      modifies this`log, this`lastId, this`pel
      ensures Valid() && (err <==> decided == Kept)
      ensures decided == Quarantined <==> deliveries.Some? && deliveries.value >= cap
      ensures decided == Kept <==> decided != Quarantined && addFails
      ensures old(Queued()) <= Queued() + if decided == Quarantined then {m.payload.value} else {}
      ensures decided == Readded ==> m.payload.value in Queued()
      ensures forall x :: x in old(log) && x != m ==> x in log
      ensures if decided == Kept then log == old(log) && pel == old(pel)
              else
                && log == DropMessage(if decided == Readded then old(log) + [Message(old(lastId) + 1, m.payload)] else old(log), m.id)
                && pel == DropPending(old(pel), m.id)
    {
      hide DropMessage, DropPending, KeysIn, IdsOf, AscendingLog, AscendingPel;
      OneId(log, m);
      if deliveries.Some? && deliveries.value >= cap {
        Ack(m.id);
        return Quarantined, false;
      }
      if addFails {
        return Kept, true;
      }
      var id := XAdd(m.payload);
      label added:
      Ack(m.id);
      FreshKept(log, old@added(log), m, id, lastDelivered, IdsOf(pel));
      decided, err := Readded, false;
    }

    /**
     * reclaim, for this stream: no job is lost; each one is still queued or among the quarantined,
     * which are the dead entries before the first one that cannot be added again.
     */
    method Reclaim(now: int, cap: nat, known: nat -> Option<nat>, addFails: nat -> bool)
      returns (readded: nat, quarantines: seq<Key>, err: bool, ghost handled: nat)
      requires Valid()
      modifies this`log, this`lastId, this`pel
      ensures Valid() && forall k :: k in old(Queued()) ==> k in Queued() || k in quarantines
      ensures var entries := StaleJobs(old(log), old(pel), now, 1200, 50);
              && quarantines == DeadKeys(entries, cap, known, addFails) && err == Breaks(entries, cap, known, addFails)
              && handled <= |entries| && readded + |quarantines| == handled
              && (if err then handled < |entries| && Breaking(entries[handled], cap, known, addFails) else handled == |entries|)
              && forall i :: 0 <= i < handled ==> Gone(pel, entries[i].id)
    {
      hide StaleJobs, DeadKeys, Breaks, KeysIn, IdsOf, AscendingLog, AscendingPel, DropMessage, DropPending, Gone, StillPending, Valid, Queued;
      readded, quarantines, err, handled := 0, [], false, 0;
      var entries;
      ghost var left: seq<nat>;
      entries, left := ClaimStale(now, 1200, 50);
      assert entries[0..] == entries;
      for i := 0 to |entries|
        invariant Valid() && forall k :: k in old(Queued()) ==> k in Queued() || k in quarantines
        invariant !err && forall j :: i <= j < |entries| ==> entries[j].payload.Some? && entries[j] in log
        invariant quarantines + DeadKeys(entries[i..], cap, known, addFails) == DeadKeys(entries, cap, known, addFails)
        invariant Breaks(entries[i..], cap, known, addFails) == Breaks(entries, cap, known, addFails)
        invariant handled == i == readded + |quarantines| && forall j :: 0 <= j < i ==> Gone(pel, entries[j].id)
      {
        DeadNext(entries, i, cap, known, addFails);
        var m := entries[i];
        var decided: Decision;
        GoneAfter(pel, m.id);
        decided, err := ReclaimDecide(m, known(m.id), cap, addFails(m.id));
        if err {
          return;
        }
        if decided == Quarantined {
          quarantines := quarantines + [m.payload.value];
        } else {
          readded := readded + 1;
        }
        handled := i + 1;
      }
      NoneDead(cap, known, addFails);
      assert entries[|entries|..] == [];
    }
  }

  // ---- the scan, step by step ---------------------------------------------------

  /** The messages after an id. */
  function SuffixAfter(log: seq<Message>, start: int): (page: seq<Message>)
    ensures |page| <= |log|
  {
    if log != [] && log[0].id <= start then SuffixAfter(log[1..], start) else log
  }

  lemma {:induction false} SuffixIs(log: seq<Message>, start: int)
    requires AscendingLog(log)
    ensures var page := SuffixAfter(log, start);
            && page == log[|log| - |page|..]
            && (forall i :: 0 <= i < |log| - |page| ==> log[i].id <= start)
            && (forall i :: 0 <= i < |page| ==> page[i].id > start)
  {
    if log != [] && log[0].id <= start {
      SuffixIs(log[1..], start);
      var page := SuffixAfter(log[1..], start);
      var n := |log| - |page|;
      assert log[1..][n - 1..] == log[n..];
      forall i | 0 <= i < n ensures log[i].id <= start {
        if i > 0 { assert log[i] == log[1..][i - 1]; }
      }
    } else {
      assert log[0..] == log;
    }
  }

  function PageKeys(page: seq<Message>): set<Key> {
    set i | 0 <= i < |page| && page[i].payload.Some? :: page[i].payload.value
  }

  method CollectPage(page: seq<Message>) returns (keys: set<Key>)
    ensures keys == PageKeys(page)
  {
    keys := {};
    for i := 0 to |page|
      invariant keys == PageKeys(page[..i])
    {
      if page[i].payload.Some? {
        keys := keys + {page[i].payload.value};
      }
      PageMore(page, i);
    }
    assert page[..|page|] == page;
  }

  lemma PageMore(page: seq<Message>, i: nat)
    requires i < |page|
    ensures PageKeys(page[..i + 1]) == PageKeys(page[..i]) + if page[i].payload.Some? then {page[i].payload.value} else {}
  {
    var a, b := page[..i], page[..i + 1];
    assert b[i] == page[i] && forall j :: 0 <= j < i ==> a[j] == b[j];
    forall k: Key ensures k in PageKeys(b) <==> k in PageKeys(a) || page[i].payload == Some(k) {
      if k in PageKeys(a) {
        var j :| 0 <= j < |a| && a[j].payload == Some(k);
        assert b[j].payload == Some(k);
      }
    }
  }

  lemma NothingBefore(log: seq<Message>, lastDelivered: int, n: nat)
    requires n <= |log| && forall i :: 0 <= i < n ==> log[i].id <= lastDelivered
    ensures KeysIn(log[..n], lastDelivered, {}) == {}
  {
  }

  lemma WholeLog(log: seq<Message>)
    ensures log[..|log|] == log && log[|log|..] == []
  {
  }

  lemma NothingAfterLast(log: seq<Message>)
    requires AscendingLog(log) && log != []
    ensures SuffixAfter(log, log[|log| - 1].id) == []
  {
    SuffixIs(log, log[|log| - 1].id);
  }

  lemma PageCollected(log: seq<Message>, lastDelivered: int, n: nat)
    requires n <= |log| && forall i :: n <= i < |log| ==> log[i].id > lastDelivered
    ensures KeysIn(log[..n], lastDelivered, {}) + PageKeys(log[n..]) == KeysIn(log, lastDelivered, {})
  {
    KeysAre(log[..n], lastDelivered, {});
    KeysAre(log, lastDelivered, {});
    forall k: Key ensures k in KeysIn(log, lastDelivered, {}) <==> k in KeysIn(log[..n], lastDelivered, {}) || k in PageKeys(log[n..]) {
      if Has(log, lastDelivered, {}, k) {
        var i :| 0 <= i < |log| && log[i].id > lastDelivered && log[i].payload == Some(k);
        if i < n {
          assert log[..n][i] == log[i];
        } else {
          assert log[n..][i - n] == log[i];
        }
      }
      if k in PageKeys(log[n..]) {
        var i :| 0 <= i < |log[n..]| && log[n..][i].payload == Some(k);
        assert log[n + i].payload == Some(k);
      }
      if Has(log[..n], lastDelivered, {}, k) {
        var i :| 0 <= i < n && log[..n][i].id > lastDelivered && log[..n][i].payload == Some(k);
        assert log[i].payload == Some(k);
      }
    }
  }

  function KeysOfId(log: seq<Message>, id: nat): set<Key> {
    set i | 0 <= i < |log| && log[i].id == id && log[i].payload.Some? :: log[i].payload.value
  }

  lemma PelMore(log: seq<Message>, lastDelivered: int, pel: seq<PelEntry>, i: nat)
    requires i < |pel|
    ensures KeysIn(log, lastDelivered, IdsOf(pel[..i + 1])) == KeysIn(log, lastDelivered, IdsOf(pel[..i])) + KeysOfId(log, pel[i].id)
  {
    IdsMore(pel, i);
    var a := IdsOf(pel[..i]);
    KeysAre(log, lastDelivered, a);
    KeysAre(log, lastDelivered, a + {pel[i].id});
    forall k: Key ensures Has(log, lastDelivered, a + {pel[i].id}, k) <==> Has(log, lastDelivered, a, k) || k in KeysOfId(log, pel[i].id) {
      if k in KeysOfId(log, pel[i].id) {
        var j :| 0 <= j < |log| && log[j].id == pel[i].id && log[j].payload == Some(k);
        assert log[j].id in a + {pel[i].id};
      }
      if Has(log, lastDelivered, a, k) {
        var j :| 0 <= j < |log| && (log[j].id > lastDelivered || log[j].id in a) && log[j].payload == Some(k);
        assert log[j].id > lastDelivered || log[j].id in a + {pel[i].id};
      }
    }
  }

  lemma IdsMore(pel: seq<PelEntry>, i: nat)
    requires i < |pel|
    ensures IdsOf(pel[..i + 1]) == IdsOf(pel[..i]) + {pel[i].id}
  {
    var a, b := pel[..i], pel[..i + 1];
    assert b[i] == pel[i] && forall j :: 0 <= j < i ==> a[j] == b[j];
    forall id: nat ensures id in IdsOf(b) <==> id in IdsOf(a) || id == pel[i].id {
      if id in IdsOf(a) {
        var j :| 0 <= j < |a| && a[j].id == id;
        assert b[j].id == id;
      }
    }
  }

  lemma PelPrefix(log: seq<Message>, lastDelivered: int, pel: seq<PelEntry>, n: nat)
    requires n <= |pel|
    ensures KeysIn(log, lastDelivered, IdsOf(pel[..n])) <= KeysIn(log, lastDelivered, IdsOf(pel))
    ensures n == |pel| ==> pel[..n] == pel
  {
    forall id | id in IdsOf(pel[..n]) ensures id in IdsOf(pel) {
      var i :| 0 <= i < n && pel[..n][i].id == id;
      assert pel[i].id == id;
    }
  }

  // ---- claiming stale entries -----------------------------------------------------

  function Find(log: seq<Message>, id: nat): (m: Option<Message>)
    ensures m.Some? ==> m.value in log && m.value.id == id
    ensures m.None? ==> forall x :: x in log ==> x.id != id
  {
    if log == [] then None
    else
      assert log == [log[0]] + log[1..];
      if log[0].id == id then Some(log[0]) else Find(log[1..], id)
  }

  /** The jobs of the first count entries that have been idle long enough, but for those without one. */
  function StaleJobs(log: seq<Message>, pel: seq<PelEntry>, now: int, minIdle: int, count: nat): seq<Message> {
    if pel == [] then []
    else if now - pel[0].idleSince >= minIdle && count > 0 then
      var m := Find(log, pel[0].id);
      (if m.Some? && m.value.payload.Some? then [m.value] else []) + StaleJobs(log, pel[1..], now, minIdle, count - 1)
    else StaleJobs(log, pel[1..], now, minIdle, count)
  }

  lemma StaleNext(log: seq<Message>, pel: seq<PelEntry>, i: nat, now: int, minIdle: int, count: nat)
    requires i < |pel|
    ensures var m := Find(log, pel[i].id);
            StaleJobs(log, pel[i..], now, minIdle, count)
            == if now - pel[i].idleSince >= minIdle && count > 0
               then (if m.Some? && m.value.payload.Some? then [m.value] else []) + StaleJobs(log, pel[i + 1..], now, minIdle, count - 1)
               else StaleJobs(log, pel[i + 1..], now, minIdle, count)
  {
    assert pel[i..][0] == pel[i] && pel[i..][1..] == pel[i + 1..];
  }

  /** How many of the first i entries have been idle long enough. */
  function IdleCount(pel: seq<PelEntry>, now: int, minIdle: int, i: nat): (n: nat)
    requires i <= |pel|
    ensures n <= i
  {
    if i == 0 then 0 else IdleCount(pel, now, minIdle, i - 1) + if now - pel[i - 1].idleSince >= minIdle then 1 else 0
  }

  /** Entry i is one of the first count that have been idle long enough. */
  predicate Taken(pel: seq<PelEntry>, now: int, minIdle: int, count: nat, i: nat) {
    i < |pel| && now - pel[i].idleSince >= minIdle && IdleCount(pel, now, minIdle, i) < count
  }

  /** Entry i is taken, and has a job. */
  ghost predicate TakenJob(log: seq<Message>, pel: seq<PelEntry>, now: int, minIdle: int, count: nat, i: nat) {
    Taken(pel, now, minIdle, count, i) && !NoJob(log, pel[i].id)
  }

  /**
   * next is what is pending of the first n entries: those not taken, as they were, and those
   * taken with a job, delivered once more and not idle any longer.
   */
  ghost predicate StillPending(log: seq<Message>, pel: seq<PelEntry>, now: int, minIdle: int, count: nat, n: nat, next: seq<PelEntry>, left: seq<nat>)
  {
    && n <= |pel| && |left| == |next|
    && Picks(left, n, (i: nat) => !Taken(pel, now, minIdle, count, i) || TakenJob(log, pel, now, minIdle, count, i))
    && forall k :: 0 <= k < |next| ==> left[k] < |pel| && PendingAs(pel, now, minIdle, count, left[k], next[k])
  }

  predicate PendingAs(pel: seq<PelEntry>, now: int, minIdle: int, count: nat, i: nat, x: PelEntry)
    requires i < |pel|
  {
    x == if Taken(pel, now, minIdle, count, i) then PelEntry(pel[i].id, now, pel[i].deliveries + 1) else pel[i]
  }

  lemma NothingPending(log: seq<Message>, pel: seq<PelEntry>, now: int, minIdle: int, count: nat)
    ensures StillPending(log, pel, now, minIdle, count, 0, [], [])
  {
  }

  lemma StillNext(log: seq<Message>, pel: seq<PelEntry>, now: int, minIdle: int, count: nat, i: nat, next: seq<PelEntry>, left: seq<nat>,
                  m: Option<Message>)
    requires AscendingLog(log) && i < |pel| && m == Find(log, pel[i].id) && StillPending(log, pel, now, minIdle, count, i, next, left)
    ensures var x := pel[i];
            if !Taken(pel, now, minIdle, count, i) then StillPending(log, pel, now, minIdle, count, i + 1, next + [x], left + [i])
            else if m.Some? && m.value.payload.Some? then
              StillPending(log, pel, now, minIdle, count, i + 1, next + [PelEntry(x.id, now, x.deliveries + 1)], left + [i])
            else StillPending(log, pel, now, minIdle, count, i + 1, next, left)
  {
    hide Picks;
    var stays := (k: nat) => !Taken(pel, now, minIdle, count, k) || TakenJob(log, pel, now, minIdle, count, k);
    JobOrNot(log, pel[i].id, m);
    hide NoJob, Taken;
    PicksNext(left, i, stays);
  }

  lemma JobOrNot(log: seq<Message>, id: nat, m: Option<Message>)
    requires AscendingLog(log) && m == Find(log, id)
    ensures NoJob(log, id) <==> m.None? || m.value.payload.None?
  {
    if m.Some? {
      OneId(log, m.value);
    }
  }

  /** The claimed jobs are those of the taken entries that have one, in order. */
  lemma {:induction false} StaleJobsPicked(log: seq<Message>, pel: seq<PelEntry>, now: int, minIdle: int, count: nat, i: nat) returns (idx: seq<nat>)
    requires AscendingLog(log) && i <= |pel|
    ensures PicksFrom(idx, i, |pel|, (k: nat) => TakenJob(log, pel, now, minIdle, count, k))
    ensures var jobs := StaleJobs(log, pel[i..], now, minIdle, count - Min(count, IdleCount(pel, now, minIdle, i)));
            |jobs| == |idx| && forall k :: 0 <= k < |idx| ==> idx[k] < |pel| && jobs[k] in log && jobs[k].payload.Some? && jobs[k].id == pel[idx[k]].id
    decreases |pel| - i
  {
    hide PicksFrom, NoJob, StaleJobs, AscendingLog, TakenJob;
    var taken := (k: nat) => TakenJob(log, pel, now, minIdle, count, k);
    if i == |pel| {
      idx := [];
      NoneFrom(i, taken);
      NoStale(log, now, minIdle, count - Min(count, IdleCount(pel, now, minIdle, i)));
      assert pel[i..] == [];
    } else {
      idx := StaleJobsPicked(log, pel, now, minIdle, count, i + 1);
      OneStale(log, pel, now, minIdle, count, i);
      PicksBefore(idx, i, |pel|, taken);
      if taken(i) {
        idx := [i] + idx;
      }
    }
  }

  lemma OneStale(log: seq<Message>, pel: seq<PelEntry>, now: int, minIdle: int, count: nat, i: nat)
    requires AscendingLog(log) && i < |pel|
    ensures var m := Find(log, pel[i].id);
            && (TakenJob(log, pel, now, minIdle, count, i) ==> m.Some? && m.value.payload.Some?)
            && StaleJobs(log, pel[i..], now, minIdle, count - Min(count, IdleCount(pel, now, minIdle, i)))
               == (if TakenJob(log, pel, now, minIdle, count, i) then [m.value] else [])
                  + StaleJobs(log, pel[i + 1..], now, minIdle, count - Min(count, IdleCount(pel, now, minIdle, i + 1)))
  {
    hide NoJob, StaleJobs, AscendingLog, Find;
    StaleNext(log, pel, i, now, minIdle, count - Min(count, IdleCount(pel, now, minIdle, i)));
    JobOrNot(log, pel[i].id, Find(log, pel[i].id));
  }

  /** So are those of the whole list. */
  lemma StaleJobsExactly(log: seq<Message>, pel: seq<PelEntry>, now: int, minIdle: int, count: nat) returns (idx: seq<nat>)
    requires AscendingLog(log)
    ensures Picks(idx, |pel|, (k: nat) => TakenJob(log, pel, now, minIdle, count, k))
    ensures var jobs := StaleJobs(log, pel, now, minIdle, count);
            |jobs| == |idx| && forall k :: 0 <= k < |idx| ==> idx[k] < |pel| && jobs[k] in log && jobs[k].payload.Some? && jobs[k].id == pel[idx[k]].id
  {
    hide StaleJobs, TakenJob;
    idx := StaleJobsPicked(log, pel, now, minIdle, count, 0);
    assert pel[0..] == pel;
    PicksFromStart(idx, |pel|, (k: nat) => TakenJob(log, pel, now, minIdle, count, k));
  }

  lemma NoneFrom(n: nat, keep: nat -> bool)
    ensures PicksFrom([], n, n, keep)
  {
  }

  /** Jobs of entries from the given one on, in the order of their ids. */
  ghost predicate JobsFrom(log: seq<Message>, jobs: seq<Message>, first: int) {
    && (forall i :: 0 <= i < |jobs| ==> jobs[i].payload.Some? && jobs[i] in log && first <= jobs[i].id)
    && forall i, j :: 0 <= i < j < |jobs| ==> jobs[i].id < jobs[j].id
  }

  lemma {:induction false} StaleJobsAre(log: seq<Message>, pel: seq<PelEntry>, now: int, minIdle: int, count: nat)
    requires AscendingPel(pel)
    ensures JobsFrom(log, StaleJobs(log, pel, now, minIdle, count), if pel == [] then 0 else pel[0].id)
  {
    if pel == [] {
    } else {
      var taken := now - pel[0].idleSince >= minIdle && count > 0;
      var m := Find(log, pel[0].id);
      var rest := StaleJobs(log, pel[1..], now, minIdle, if taken then count - 1 else count);
      StaleJobsAre(log, pel[1..], now, minIdle, if taken then count - 1 else count);
      var head := if taken && m.Some? && m.value.payload.Some? then [m.value] else [];
      assert StaleJobs(log, pel, now, minIdle, count) == head + rest;
      assert rest != [] ==> |pel| > 1;
      Ahead(log, head, rest, pel[0].id, if |pel| > 1 then pel[1].id else pel[0].id + 1);
    }
  }

  lemma ClaimedJobs(log: seq<Message>, pel: seq<PelEntry>, now: int, minIdle: int, count: nat)
    requires AscendingPel(pel)
    ensures JobsFrom(log, StaleJobs(log, pel, now, minIdle, count), 0)
  {
    StaleJobsAre(log, pel, now, minIdle, count);
  }

  lemma Ahead(log: seq<Message>, head: seq<Message>, rest: seq<Message>, first: int, second: int)
    requires |head| <= 1 && (head != [] ==> head[0] in log && head[0].payload.Some? && head[0].id == first)
    requires first < second && JobsFrom(log, rest, if rest == [] then 0 else second)
    ensures JobsFrom(log, head + rest, first)
  {
    forall i | 0 <= i < |head + rest|
      ensures (head + rest)[i].payload.Some? && (head + rest)[i] in log && first <= (head + rest)[i].id
    {
      if i >= |head| {
        assert (head + rest)[i] == rest[i - |head|];
      }
    }
    forall i, j | 0 <= i < j < |head + rest| ensures (head + rest)[i].id < (head + rest)[j].id {
      assert (head + rest)[j] == rest[j - |head|];
    }
  }

  lemma NoStale(log: seq<Message>, now: int, minIdle: int, count: nat)
    ensures StaleJobs(log, [], now, minIdle, count) == []
  {
  }

  /** Delivered too often, as far as that is known. */
  predicate Dead(m: Message, cap: nat, known: nat -> Option<nat>) {
    known(m.id).Some? && known(m.id).value >= cap
  }

  /** The job cannot be added again, which ends the reclaim with an error. */
  predicate Breaking(m: Message, cap: nat, known: nat -> Option<nat>, addFails: nat -> bool) {
    !Dead(m, cap, known) && addFails(m.id)
  }

  /** The keys of the dead entries up to the first breaking one. */
  function DeadKeys(entries: seq<Message>, cap: nat, known: nat -> Option<nat>, addFails: nat -> bool): seq<Key> {
    if entries == [] || Breaking(entries[0], cap, known, addFails) then []
    else
      (if Dead(entries[0], cap, known) && entries[0].payload.Some? then [entries[0].payload.value] else [])
      + DeadKeys(entries[1..], cap, known, addFails)
  }

  predicate Breaks(entries: seq<Message>, cap: nat, known: nat -> Option<nat>, addFails: nat -> bool) {
    entries != [] && (Breaking(entries[0], cap, known, addFails) || Breaks(entries[1..], cap, known, addFails))
  }

  lemma DeadNext(entries: seq<Message>, i: nat, cap: nat, known: nat -> Option<nat>, addFails: nat -> bool)
    requires i < |entries| && entries[i].payload.Some?
    ensures DeadKeys(entries[i..], cap, known, addFails)
            == if Breaking(entries[i], cap, known, addFails) then []
               else (if Dead(entries[i], cap, known) then [entries[i].payload.value] else []) + DeadKeys(entries[i + 1..], cap, known, addFails)
    ensures Breaks(entries[i..], cap, known, addFails)
            <==> Breaking(entries[i], cap, known, addFails) || Breaks(entries[i + 1..], cap, known, addFails)
  {
    assert entries[i..][0] == entries[i] && entries[i..][1..] == entries[i + 1..];
  }

  lemma NoneDead(cap: nat, known: nat -> Option<nat>, addFails: nat -> bool)
    ensures DeadKeys([], cap, known, addFails) == [] && !Breaks([], cap, known, addFails)
  {
  }

  /** An entry that is dropped: dead, of shard k, and before any breaking entry. */
  predicate DropsAt(entries: seq<Message>, cap: nat, known: nat -> Option<nat>, addFails: nat -> bool, k: Key, i: nat) {
    && i < |entries| && Dead(entries[i], cap, known) && entries[i].payload == Some(k)
    && forall j :: 0 <= j < i ==> !Breaking(entries[j], cap, known, addFails)
  }

  lemma {:induction false} DeadKeysAre(entries: seq<Message>, cap: nat, known: nat -> Option<nat>, addFails: nat -> bool, k: Key)
    ensures k in DeadKeys(entries, cap, known, addFails) <==> exists i: nat :: DropsAt(entries, cap, known, addFails, k, i)
  {
    if entries == [] {
    } else {
      var rest := entries[1..];
      DeadKeysAre(rest, cap, known, addFails, k);
      if Breaking(entries[0], cap, known, addFails) {
        assert forall i: nat :: DropsAt(entries, cap, known, addFails, k, i) ==> i == 0;
      } else {
        forall i: nat ensures i > 0 ==> (DropsAt(entries, cap, known, addFails, k, i) <==> DropsAt(rest, cap, known, addFails, k, i - 1)) {
          if i > 0 {
            assert forall j :: 0 < j < |entries| ==> entries[j] == rest[j - 1];
          }
        }
        if exists i: nat :: DropsAt(rest, cap, known, addFails, k, i) {
          var i: nat :| DropsAt(rest, cap, known, addFails, k, i);
          assert DropsAt(entries, cap, known, addFails, k, i + 1);
        }
        if DropsAt(entries, cap, known, addFails, k, 0) {
          assert k in DeadKeys(entries, cap, known, addFails);
        }
      }
    }
  }

  /** They are reported in the order of their entries. */
  lemma {:induction false} DeadKeysPicked(entries: seq<Message>, cap: nat, known: nat -> Option<nat>, addFails: nat -> bool, i: nat)
    returns (idx: seq<nat>)
    requires i <= |entries| && (forall j :: 0 <= j < |entries| ==> entries[j].payload.Some?)
    requires forall j :: 0 <= j < i ==> !Breaking(entries[j], cap, known, addFails)
    ensures PicksFrom(idx, i, |entries|, (k: nat) => Quarantines(entries, cap, known, addFails, k))
    ensures var keys := DeadKeys(entries[i..], cap, known, addFails);
            |keys| == |idx| && forall k :: 0 <= k < |idx| ==> idx[k] < |entries| && entries[idx[k]].payload == Some(keys[k])
    decreases |entries| - i
  {
    hide PicksFrom, DeadKeys, Breaks, Dead, Breaking;
    var q := (k: nat) => Quarantines(entries, cap, known, addFails, k);
    if i == |entries| {
      idx := [];
      NoneFrom(i, q);
      NoneDead(cap, known, addFails);
      assert entries[i..] == [];
    } else {
      DeadNext(entries, i, cap, known, addFails);
      if Breaking(entries[i], cap, known, addFails) {
        idx := [];
        NoneAfter(i, |entries|, q);
      } else {
        idx := DeadKeysPicked(entries, cap, known, addFails, i + 1);
        PicksBefore(idx, i, |entries|, q);
        if q(i) {
          idx := [i] + idx;
        }
      }
    }
  }

  lemma NoneAfter(from: nat, n: nat, keep: nat -> bool)
    requires forall k: nat :: from <= k < n ==> !keep(k)
    ensures PicksFrom([], from, n, keep)
  {
  }

  /** Entry i is quarantined: delivered too often, and no entry up to it ends the reclaim. */
  predicate Quarantines(entries: seq<Message>, cap: nat, known: nat -> Option<nat>, addFails: nat -> bool, i: nat) {
    i < |entries| && Dead(entries[i], cap, known) && forall j :: 0 <= j <= i ==> !Breaking(entries[j], cap, known, addFails)
  }

  lemma {:induction false} BreaksIs(entries: seq<Message>, cap: nat, known: nat -> Option<nat>, addFails: nat -> bool)
    ensures Breaks(entries, cap, known, addFails) <==> exists i :: 0 <= i < |entries| && Breaking(entries[i], cap, known, addFails)
  {
    if entries == [] {
    } else {
      BreaksIs(entries[1..], cap, known, addFails);
      assert forall i :: 0 < i < |entries| ==> entries[i] == entries[1..][i - 1];
      if Breaks(entries[1..], cap, known, addFails) {
        var i :| 0 <= i < |entries[1..]| && Breaking(entries[1..][i], cap, known, addFails);
        assert Breaking(entries[i + 1], cap, known, addFails);
      }
    }
  }

  /** next is what is left of the first i pending entries: same ids, but for those without a job. */
  ghost predicate ClaimedSoFar(log: seq<Message>, pel: seq<PelEntry>, next: seq<PelEntry>, i: nat) {
    && i <= |pel| && AscendingPel(next)
    && (forall j :: 0 <= j < |next| ==> Among(pel, i, next[j].id))
    && (forall x :: 0 <= x < i ==> pel[x].id in IdsOf(next) || NoJob(log, pel[x].id))
  }

  /** One of the first i entries has this id. */
  ghost predicate Among(pel: seq<PelEntry>, i: nat, id: nat) {
    exists x :: 0 <= x < i <= |pel| && pel[x].id == id
  }

  predicate NoJob(log: seq<Message>, id: nat) {
    forall m :: m in log && m.id == id ==> m.payload.None?
  }

  lemma NothingClaimed(log: seq<Message>, pel: seq<PelEntry>)
    ensures ClaimedSoFar(log, pel, [], 0)
  {
  }

  lemma ClaimOne(log: seq<Message>, pel: seq<PelEntry>, next: seq<PelEntry>, i: nat, idle: bool, now: int, m: Option<Message>)
    requires AscendingLog(log) && AscendingPel(pel) && i < |pel| && ClaimedSoFar(log, pel, next, i) && m == Find(log, pel[i].id)
    ensures ClaimedSoFar(log, pel, next + [pel[i]], i + 1)
    ensures ClaimedSoFar(log, pel, next + [pel[i].(idleSince := now, deliveries := pel[i].deliveries + 1)], i + 1)
    ensures (m.None? || m.value.payload.None?) ==> ClaimedSoFar(log, pel, next, i + 1)
  {
    Grown(log, pel, next, i, pel[i]);
    Grown(log, pel, next, i, pel[i].(idleSince := now, deliveries := pel[i].deliveries + 1));
    if m.None? || m.value.payload.None? {
      if m.Some? {
        OneId(log, m.value);
      }
      assert NoJob(log, pel[i].id);
    }
  }

  lemma Grown(log: seq<Message>, pel: seq<PelEntry>, next: seq<PelEntry>, i: nat, x: PelEntry)
    requires AscendingPel(pel) && i < |pel| && ClaimedSoFar(log, pel, next, i) && x.id == pel[i].id
    ensures ClaimedSoFar(log, pel, next + [x], i + 1)
  {
    hide NoJob;
    var more := next + [x];
    assert more[|next|] == x;
    assert more[..|next|] == next && more[..|next| + 1] == more;
    IdsMore(more, |next|);
    forall j | 0 <= j < |more| ensures Among(pel, i + 1, more[j].id) {
      if j < |next| {
        assert Among(pel, i, next[j].id) && more[j] == next[j];
      } else {
        assert pel[i].id == more[j].id;
      }
    }
    forall j | 0 <= j < |next| ensures next[j].id < x.id {
      assert Among(pel, i, next[j].id);
    }
  }

  lemma ClaimedAll(log: seq<Message>, lastDelivered: int, pel: seq<PelEntry>, next: seq<PelEntry>)
    requires ClaimedSoFar(log, pel, next, |pel|) && forall j :: 0 <= j < |pel| ==> pel[j].id <= lastDelivered
    ensures KeysIn(log, lastDelivered, IdsOf(next)) == KeysIn(log, lastDelivered, IdsOf(pel))
    ensures AscendingPel(next)
    ensures forall j :: 0 <= j < |next| ==> next[j].id <= lastDelivered
  {
    forall j | 0 <= j < |next| ensures next[j].id in IdsOf(pel) {
      assert Among(pel, |pel|, next[j].id);
    }
    KeysAre(log, lastDelivered, IdsOf(next));
    KeysAre(log, lastDelivered, IdsOf(pel));
    forall k: Key ensures Has(log, lastDelivered, IdsOf(next), k) <==> Has(log, lastDelivered, IdsOf(pel), k) {
      if Has(log, lastDelivered, IdsOf(pel), k) {
        var i :| 0 <= i < |log| && (log[i].id > lastDelivered || log[i].id in IdsOf(pel)) && log[i].payload == Some(k);
        assert log[i] in log;
        if log[i].id in IdsOf(pel) {
          var x :| 0 <= x < |pel| && pel[x].id == log[i].id;
          assert pel[x].id in IdsOf(next) || NoJob(log, pel[x].id);
        }
        assert log[i].id > lastDelivered || log[i].id in IdsOf(next);
      }
      if Has(log, lastDelivered, IdsOf(next), k) {
        var i :| 0 <= i < |log| && (log[i].id > lastDelivered || log[i].id in IdsOf(next)) && log[i].payload == Some(k);
        assert log[i].id in IdsOf(next) ==> log[i].id in IdsOf(pel) by {
          if log[i].id in IdsOf(next) {
            var j :| 0 <= j < |next| && next[j].id == log[i].id;
            assert Among(pel, |pel|, next[j].id);
          }
        }
      }
    }
  }

  lemma OneId(log: seq<Message>, m: Message)
    requires AscendingLog(log) && m in log
    ensures forall x :: x in log && x.id == m.id ==> x == m
  {
    var i :| 0 <= i < |log| && log[i] == m;
    forall x | x in log && x.id == m.id ensures x == m {
      var j :| 0 <= j < |log| && log[j] == x;
    }
  }

  /** The fresh copy survives the removal of the old entry. */
  lemma FreshKept(log: seq<Message>, before: seq<Message>, m: Message, id: nat, lastDelivered: int, ids: set<nat>)
    requires log == DropMessage(before, m.id) && Message(id, m.payload) in before && id != m.id && id > lastDelivered && m.payload.Some?
    ensures m.payload.value in KeysIn(log, lastDelivered, ids)
  {
    assert Message(id, m.payload) in log;
    var i :| 0 <= i < |log| && log[i] == Message(id, m.payload);
    KeysAre(log, lastDelivered, ids);
    assert Has(log, lastDelivered, ids, m.payload.value);
  }
}
