/**
 The bounded, expiring tombstone table of the relay registry, as a value.

 A tombstone table is a sequence in insertion order, as a JavaScript Map keeps
 it. The lemmas relate the table to the history of every tombstoning ever made.
 */
module Tombstones {

  type RelayId = nat

  datatype Tombstone = Tombstone(id: RelayId, expiresAt: int)

  /** Drops the entries whose expiry has been reached. */
  function Prune(ts: seq<Tombstone>, now: int): seq<Tombstone> {
    if ts == [] then []
    else if ts[0].expiresAt <= now then Prune(ts[1..], now)
    else [ts[0]] + Prune(ts[1..], now)
  }

  /** Drops the entry of one relay. */
  function Without(ts: seq<Tombstone>, id: RelayId): seq<Tombstone> {
    if ts == [] then []
    else if ts[0].id == id then Without(ts[1..], id)
    else [ts[0]] + Without(ts[1..], id)
  }

  /** The newest entries that fit the bound. */
  function Newest(ts: seq<Tombstone>, bound: nat): seq<Tombstone> {
    if |ts| <= bound then ts else ts[|ts| - bound..]
  }

  function Ids(ts: seq<Tombstone>): set<RelayId> {
    set e | e in ts :: e.id
  }

  /** Tombstoning one relay: pruned at `prunedAt`, stamped at `stampedAt`, then evicted down to the bound. */
  function Stamp(ts: seq<Tombstone>, id: RelayId, prunedAt: int, stampedAt: int, ttl: nat, bound: nat): seq<Tombstone> {
    Newest(Without(Prune(ts, prunedAt), id) + [Tombstone(id, stampedAt + ttl)], bound)
  }

  ghost predicate Sorted(ts: seq<Tombstone>) {
    forall i, j :: 0 <= i < j < |ts| ==> ts[i].expiresAt <= ts[j].expiresAt
  }

  ghost predicate DistinctIds(ts: seq<Tombstone>) {
    forall i, j :: 0 <= i < j < |ts| ==> ts[i].id != ts[j].id
  }

  /** Every tombstoning in `history`, keeping only the last one of each relay. */
  ghost function KeepLast(history: seq<Tombstone>): seq<Tombstone> {
    if history == [] then []
    else
      var last := history[|history| - 1];
      Without(KeepLast(history[..|history| - 1]), last.id) + [last]
  }

  ghost predicate SuffixOf(ts: seq<Tombstone>, kept: seq<Tombstone>) {
    |ts| <= |kept| && ts == kept[|kept| - |ts|..]
  }

  /** Every entry of `kept` outside the last `size` ones has expired or has `bound` entries after it. */
  ghost predicate Justified(size: nat, kept: seq<Tombstone>, now: int, bound: nat) {
    forall i :: 0 <= i < |kept| - size ==> kept[i].expiresAt <= now || |kept| - i - 1 >= bound
  }

  /**
   The table is the newest part of the history: what it lacks has expired, or
   `bound` other relays were tombstoned after it.
   */
  ghost predicate Faithful(ts: seq<Tombstone>, history: seq<Tombstone>, now: int, ttl: nat, bound: nat) {
    var kept := KeepLast(history);
    && Sorted(history)
    && (forall i :: 0 <= i < |history| ==> history[i].expiresAt <= now + ttl)
    && |ts| <= bound
    && SuffixOf(ts, kept)
    && Justified(|ts|, kept, now, bound)
  }

  /** Tombstoned relays after position `i` of the history. */
  ghost function LaterIds(history: seq<Tombstone>, i: nat): set<RelayId> {
    set j | i < j < |history| :: history[j].id
  }

  /** A tombstone of the relay has not expired. */
  ghost predicate Live(ts: seq<Tombstone>, id: RelayId, now: int) {
    exists e :: e in ts && e.id == id && e.expiresAt > now
  }

  // ----- filtering -----

  lemma {:induction false} PruneMembers(ts: seq<Tombstone>, now: int)
    ensures forall e :: e in Prune(ts, now) <==> e in ts && e.expiresAt > now
  {
    if ts != [] {
      PruneMembers(ts[1..], now);
      assert ts == [ts[0]] + ts[1..];
    }
  }

  lemma {:induction false} WithoutMembers(ts: seq<Tombstone>, id: RelayId)
    ensures forall e :: e in Without(ts, id) <==> e in ts && e.id != id
  {
    if ts != [] {
      WithoutMembers(ts[1..], id);
      assert ts == [ts[0]] + ts[1..];
    }
  }

  lemma {:induction false} KeepLastMembers(history: seq<Tombstone>)
    ensures forall e :: e in KeepLast(history) ==> e in history
  {
    if history != [] {
      var front := history[..|history| - 1];
      KeepLastMembers(front);
      WithoutMembers(KeepLast(front), history[|history| - 1].id);
      assert history == front + [history[|history| - 1]];
    }
  }

  lemma {:induction false} PruneAppend(a: seq<Tombstone>, b: seq<Tombstone>, now: int)
    ensures Prune(a + b, now) == Prune(a, now) + Prune(b, now)
  {
    if a == [] {
      assert a + b == b;
    } else {
      assert (a + b)[1..] == a[1..] + b;
      PruneAppend(a[1..], b, now);
    }
  }

  lemma {:induction false} WithoutAbsent(ts: seq<Tombstone>, id: RelayId)
    requires forall i :: 0 <= i < |ts| ==> ts[i].id != id
    ensures Without(ts, id) == ts
  {
    if ts != [] {
      WithoutAbsent(ts[1..], id);
    }
  }

  /** Removing the one entry of a relay closes the gap it leaves. */
  lemma {:induction false} WithoutAt(ts: seq<Tombstone>, j: nat)
    requires j < |ts| && DistinctIds(ts)
    ensures Without(ts, ts[j].id) == ts[..j] + ts[j + 1..]
  {
    var rest := ts[1..];
    if j == 0 {
      WithoutAbsent(rest, ts[j].id);
    } else {
      assert ts[j] == rest[j - 1];
      WithoutAt(rest, j - 1);
      assert Without(ts, ts[j].id) == [ts[0]] + (rest[..j - 1] + rest[j..]);
    }
  }

  lemma WithoutKeepsOrder(ts: seq<Tombstone>, id: RelayId)
    requires Sorted(ts) && DistinctIds(ts)
    ensures Sorted(Without(ts, id)) && DistinctIds(Without(ts, id))
  {
    if j :| 0 <= j < |ts| && ts[j].id == id {
      WithoutAt(ts, j);
    } else {
      WithoutAbsent(ts, id);
    }
  }

  /** In a sorted table the expired entries are a prefix. */
  lemma {:induction false} PruneSorted(ts: seq<Tombstone>, now: int)
    requires Sorted(ts)
    ensures |Prune(ts, now)| <= |ts| && Prune(ts, now) == ts[|ts| - |Prune(ts, now)|..]
    ensures forall i :: 0 <= i < |ts| - |Prune(ts, now)| ==> ts[i].expiresAt <= now
    ensures forall i :: |ts| - |Prune(ts, now)| <= i < |ts| ==> ts[i].expiresAt > now
  {
    if ts != [] {
      PruneSorted(ts[1..], now);
      if ts[0].expiresAt > now {
        assert Prune(ts[1..], now) == ts[1..];
      } else {
        var k := |ts| - |Prune(ts, now)|;
        assert ts[1..][k - 1..] == ts[k..];
        assert forall i :: 1 <= i < |ts| ==> ts[i] == ts[1..][i - 1];
      }
    }
  }

  /** One more entry of a pruned prefix. */
  lemma PruneStep(ts: seq<Tombstone>, k: nat, now: int)
    requires k < |ts|
    ensures Prune(ts[..k + 1], now) == Prune(ts[..k], now) + if ts[k].expiresAt <= now then [] else [ts[k]]
  {
    assert ts[..k + 1] == ts[..k] + [ts[k]];
    PruneAppend(ts[..k], [ts[k]], now);
  }

  /** Looking at one more entry of a table of which the first part is pruned already. */
  lemma PruneRow(was: seq<Tombstone>, seen: nat, ts: seq<Tombstone>, i: nat, now: int)
    requires seen <= |was| && i == |Prune(was[..seen], now)| < |ts|
    requires ts == Prune(was[..seen], now) + was[seen..]
    ensures seen < |was| && ts[i] == was[seen]
    ensures var more := Prune(was[..seen + 1], now);
            if ts[i].expiresAt <= now then i == |more| && ts[..i] + ts[i + 1..] == more + was[seen + 1..]
            else i + 1 == |more| && ts == more + was[seen + 1..]
  {
    hide Prune;
    var kept := Prune(was[..seen], now);
    PruneStep(was, seen, now);
    assert was[seen..] == [was[seen]] + was[seen + 1..];
    assert ts[..i] == kept && ts[i + 1..] == was[seen + 1..];
  }

  // ----- the history -----

  lemma {:induction false} KeepLastOrder(history: seq<Tombstone>)
    requires Sorted(history)
    ensures Sorted(KeepLast(history)) && DistinctIds(KeepLast(history))
  {
    if history != [] {
      var front := history[..|history| - 1];
      var last := history[|history| - 1];
      var others := Without(KeepLast(front), last.id);
      KeepLastOrder(front);
      WithoutKeepsOrder(KeepLast(front), last.id);
      KeepLastMembers(front);
      WithoutMembers(KeepLast(front), last.id);
      forall i | 0 <= i < |others| ensures others[i].id != last.id && others[i].expiresAt <= last.expiresAt {
        assert others[i] in others;
      }
      assert KeepLast(history) == others + [last];
    }
  }

  lemma KeepLastStep(history: seq<Tombstone>, e: Tombstone)
    ensures KeepLast(history + [e]) == Without(KeepLast(history), e.id) + [e]
  {
    assert (history + [e])[..|history|] == history;
  }

  /** Time passing and pruning keep the table faithful. */
  lemma PruneFaithful(ts: seq<Tombstone>, history: seq<Tombstone>, now: int, later: int, ttl: nat, bound: nat)
    requires Faithful(ts, history, now, ttl, bound) && now <= later
    ensures Faithful(Prune(ts, later), history, later, ttl, bound)
  {
    KeepLastOrder(history);
    PruneSuffix(ts, KeepLast(history), now, later, bound);
  }

  /** The step of `PruneFaithful` on the deduplicated history alone. */
  lemma PruneSuffix(ts: seq<Tombstone>, kept: seq<Tombstone>, now: int, later: int, bound: nat)
    requires Sorted(kept) && now <= later
    requires SuffixOf(ts, kept) && Justified(|ts|, kept, now, bound)
    ensures |Prune(ts, later)| <= |ts|
    ensures SuffixOf(Prune(ts, later), kept) && Justified(|Prune(ts, later)|, kept, later, bound)
  {
    var k := |kept| - |ts|;
    PruneSorted(ts, later);
    forall i | k <= i < |kept| - |Prune(ts, later)| ensures kept[i].expiresAt <= later {
      assert kept[i] == ts[i - k];
    }
  }

  /** Time passing alone keeps the table faithful. */
  lemma LaterFaithful(ts: seq<Tombstone>, history: seq<Tombstone>, now: int, later: int, ttl: nat, bound: nat)
    requires Faithful(ts, history, now, ttl, bound) && now <= later
    ensures Faithful(ts, history, later, ttl, bound)
  {
    JustifiedLater(|ts|, KeepLast(history), now, later, bound);
  }

  /** A tombstoning keeps the table faithful to the longer history. */
  lemma StampFaithful(ts: seq<Tombstone>, history: seq<Tombstone>, now: int, id: RelayId, prunedAt: int, stampedAt: int,
                      ttl: nat, bound: nat)
    requires Faithful(ts, history, now, ttl, bound) && now <= prunedAt <= stampedAt && bound > 0
    ensures Faithful(Stamp(ts, id, prunedAt, stampedAt, ttl, bound), history + [Tombstone(id, stampedAt + ttl)],
                     stampedAt, ttl, bound)
  {
    var added := Tombstone(id, stampedAt + ttl);
    PruneFaithful(ts, history, now, prunedAt, ttl, bound);
    HistoryGrows(history, added, prunedAt, stampedAt, ttl);
    StampKept(Prune(ts, prunedAt), history, prunedAt, added, bound);
    JustifiedLater(|Stamp(ts, id, prunedAt, stampedAt, ttl, bound)|, KeepLast(history + [added]), prunedAt, stampedAt,
                   bound);
  }

  lemma HistoryGrows(history: seq<Tombstone>, added: Tombstone, now: int, stampedAt: int, ttl: nat)
    requires Sorted(history) && now <= stampedAt && added.expiresAt == stampedAt + ttl
    requires forall i :: 0 <= i < |history| ==> history[i].expiresAt <= now + ttl
    ensures Sorted(history + [added])
    ensures forall i :: 0 <= i < |history + [added]| ==> (history + [added])[i].expiresAt <= stampedAt + ttl
  {
  }

  lemma StampKept(ts: seq<Tombstone>, history: seq<Tombstone>, now: int, added: Tombstone, bound: nat)
    requires Sorted(history) && bound > 0 && |ts| <= bound
    requires SuffixOf(ts, KeepLast(history)) && Justified(|ts|, KeepLast(history), now, bound)
    ensures var ts' := Newest(Without(ts, added.id) + [added], bound);
            var kept' := KeepLast(history + [added]);
            |ts'| <= bound && SuffixOf(ts', kept') && Justified(|ts'|, kept', now, bound)
  {
    KeepLastOrder(history);
    KeepLastStep(history, added);
    StampSuffix(ts, KeepLast(history), now, added, bound);
  }

  lemma JustifiedLater(size: nat, kept: seq<Tombstone>, now: int, later: int, bound: nat)
    requires Justified(size, kept, now, bound) && now <= later
    ensures Justified(size, kept, later, bound)
  {
  }

  /** The step of `StampFaithful` on the deduplicated history alone. */
  lemma StampSuffix(ts: seq<Tombstone>, kept: seq<Tombstone>, now: int, added: Tombstone, bound: nat)
    requires DistinctIds(kept) && bound > 0 && |ts| <= bound
    requires SuffixOf(ts, kept) && Justified(|ts|, kept, now, bound)
    ensures var ts' := Newest(Without(ts, added.id) + [added], bound);
            var kept' := Without(kept, added.id) + [added];
            |ts'| <= bound && SuffixOf(ts', kept') && Justified(|ts'|, kept', now, bound)
  {
    if j :| 0 <= j < |kept| && kept[j].id == added.id {
      WithoutAt(kept, j);
      WithoutInSuffix(ts, kept, j);
      SuffixAppend(kept[..j] + kept[j + 1..], Without(ts, added.id), added, bound);
      JustifiedMoved(ts, kept, now, added, j, |Newest(Without(ts, added.id) + [added], bound)|, bound);
    } else {
      WithoutAbsent(kept, added.id);
      WithoutAbsent(ts, added.id);
      SuffixAppend(kept, ts, added, bound);
      assert (kept + [added])[..|kept|] == kept;
    }
  }

  /** Removing the entry at `j` from a table and from a suffix of it leaves a suffix. */
  lemma WithoutInSuffix(ts: seq<Tombstone>, kept: seq<Tombstone>, j: nat)
    requires DistinctIds(kept) && j < |kept| && SuffixOf(ts, kept)
    ensures SuffixOf(Without(ts, kept[j].id), kept[..j] + kept[j + 1..])
    ensures |Without(ts, kept[j].id)| == if j < |kept| - |ts| then |ts| else |ts| - 1
  {
    var k := |kept| - |ts|;
    if j < k {
      WithoutAbsent(ts, kept[j].id);
    } else {
      assert ts[j - k] == kept[j];
      WithoutAt(ts, j - k);
    }
  }

  /** The dropped entries stay justified when the entry at `j` moves to the end. */
  lemma JustifiedMoved(ts: seq<Tombstone>, kept: seq<Tombstone>, now: int, added: Tombstone, j: nat, size: nat,
                       bound: nat)
    requires j < |kept| && |ts| <= |kept| && Justified(|ts|, kept, now, bound)
    requires size == bound || size > |ts| || (size == |ts| && |kept| - |ts| <= j)
    ensures Justified(size, kept[..j] + kept[j + 1..] + [added], now, bound)
  {
    var all := kept[..j] + kept[j + 1..] + [added];
    forall i | 0 <= i < |all| - size ensures all[i].expiresAt <= now || |all| - i - 1 >= bound {
      if size != bound {
        assert all[i] == if i < j then kept[i] else kept[i + 1];
      }
    }
  }

  /** Appending one entry to a suffix and trimming it leaves a suffix. */
  lemma SuffixAppend(kept: seq<Tombstone>, ts: seq<Tombstone>, added: Tombstone, bound: nat)
    requires bound > 0 && |ts| <= bound && SuffixOf(ts, kept)
    ensures var ts' := Newest(ts + [added], bound);
            |ts'| <= bound && SuffixOf(ts', kept + [added])
  {
    assert kept + [added] == kept[..|kept| - |ts|] + (ts + [added]);
  }

  /** Where the last tombstoning of a relay stands in the deduplicated history. */
  lemma {:induction false} LocateLast(history: seq<Tombstone>, i: nat) returns (q: nat)
    requires i < |history| && history[i].id !in LaterIds(history, i)
    requires Sorted(history)
    ensures q < |KeepLast(history)| && KeepLast(history)[q] == history[i]
    ensures forall r :: q < r < |KeepLast(history)| ==> KeepLast(history)[r].id in LaterIds(history, i)
  {
    var n := |history| - 1;
    var last := history[n];
    var front := history[..n];
    if i == n {
      q := |KeepLast(history)| - 1;
    } else {
      assert last.id in LaterIds(history, i);
      assert LaterIds(front, i) <= LaterIds(history, i);
      KeepLastOrder(front);
      var p := LocateLast(front, i);
      q := LocateStep(KeepLast(front), last, p, LaterIds(history, i));
    }
  }

  /** Moving `last` to the end keeps an earlier entry in front of relays in `later` only. */
  lemma LocateStep(kept: seq<Tombstone>, last: Tombstone, p: nat, later: set<RelayId>) returns (q: nat)
    requires DistinctIds(kept) && p < |kept| && kept[p].id != last.id && last.id in later
    requires forall r :: p < r < |kept| ==> kept[r].id in later
    ensures var kept' := Without(kept, last.id) + [last];
            && q < |kept'| && kept'[q] == kept[p]
            && forall r :: q < r < |kept'| ==> kept'[r].id in later
  {
    if j :| 0 <= j < |kept| && kept[j].id == last.id {
      WithoutAt(kept, j);
      q := if j < p then p - 1 else p;
    } else {
      WithoutAbsent(kept, last.id);
      q := p;
    }
  }

  lemma {:induction false} DistinctCardinality(ts: seq<Tombstone>)
    requires DistinctIds(ts)
    ensures |Ids(ts)| == |ts|
  {
    if ts != [] {
      DistinctCardinality(ts[1..]);
      assert Ids(ts) == {ts[0].id} + Ids(ts[1..]);
    }
  }

  /**
   A tombstone that has not expired is missing from the table only after at
   least `bound` other relays were tombstoned after it.
   */
  lemma {:induction false} LiveTombstoneDroppedOnlyByOverflow(ts: seq<Tombstone>, history: seq<Tombstone>, now: int,
                                                              ttl: nat, bound: nat, i: nat)
    requires Faithful(ts, history, now, ttl, bound)
    requires i < |history| && history[i].expiresAt > now
    requires history[i].id !in LaterIds(history, i)
    requires history[i].id !in Ids(ts)
    ensures |LaterIds(history, i)| >= bound
  {
    var kept := KeepLast(history);
    var q := LocateLast(history, i);
    var k := |kept| - |ts|;
    forall r | k <= r < |kept| ensures kept[r].id in Ids(ts) {
      MemberIds(ts, r - k);
    }
    assert q < k;
    KeepLastOrder(history);
    var tail := kept[q + 1..];
    DistinctCardinality(tail);
    assert Ids(tail) <= LaterIds(history, i);
    SubsetCardinality(Ids(tail), LaterIds(history, i));
  }

  lemma MemberIds(ts: seq<Tombstone>, i: nat)
    requires i < |ts|
    ensures ts[i].id in Ids(ts)
  {
    assert ts[i] in ts;
  }

  lemma {:induction false} SubsetCardinality(a: set<RelayId>, b: set<RelayId>)
    requires a <= b
    ensures |a| <= |b|
  {
    if a != {} {
      var x :| x in a;
      SubsetCardinality(a - {x}, b - {x});
    }
  }

  /** The table of a faithful history is sorted by expiry, without a repeated relay, and bounded. */
  lemma FaithfulTable(ts: seq<Tombstone>, history: seq<Tombstone>, now: int, ttl: nat, bound: nat)
    requires Faithful(ts, history, now, ttl, bound)
    ensures Sorted(ts) && DistinctIds(ts) && |ts| <= bound
  {
    KeepLastOrder(history);
  }
}
