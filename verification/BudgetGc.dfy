/**
 Incremental garbage collection of the sample budgets: a bounded sweep of the map that deletes from the map it is
 walking and resumes after a key that is still there.

 The map is held in iteration order. A key's successor is asked for by key; asking with a key that is not in the
 map, or with none, starts over at the first key, as BPF_MAP_GET_NEXT_KEY does.
 */
module BudgetGc {
  import opened Base

  const MAX_ENTRIES: nat := 2048

  /** A key of the map: its second byte, if it has one, holds the protocol; `rest` stands for all other bytes. */
  datatype Key = Key(protocol: Option<Byte>, rest: nat)

  datatype Entry = Entry(key: Key, lastSeenNs: nat)

  datatype Clock = Clock(nowNs: nat, tcpSeconds: nat, udpSeconds: nat)

  predicate Stale(e: Entry, c: Clock) {
    var seconds := if e.key.protocol == Some(TCP) then c.tcpSeconds else c.udpSeconds;
    (if c.nowNs > e.lastSeenNs then c.nowNs - e.lastSeenNs else 0) > Min(seconds * SECOND, U64_MAX)
  }

  /** The entries that are not stale, in order. */
  function Live(entries: seq<Entry>, c: Clock): seq<Entry> {
    if |entries| == 0 then []
    else
      var last := entries[|entries| - 1];
      Live(entries[..|entries| - 1], c) + (if Stale(last, c) then [] else [last])
  }

  /** Where a key is; the number of entries if it is nowhere. */
  function IndexOf(entries: seq<Entry>, key: Key): (i: nat)
    ensures i <= |entries|
    ensures i < |entries| ==> entries[i].key == key
    ensures forall j | 0 <= j < i :: entries[j].key != key
  {
    if |entries| == 0 then 0
    else
      var i := IndexOf(entries[..|entries| - 1], key);
      if i < |entries| - 1 || entries[|entries| - 1].key == key then i else |entries|
  }

  predicate Distinct(entries: seq<Entry>) {
    forall i, j | 0 <= i < j < |entries| :: entries[i].key != entries[j].key
  }

  /** The map's answer to BPF_MAP_GET_NEXT_KEY. */
  function NextKey(entries: seq<Entry>, previous: Option<Key>): Option<Key> {
    var i := After(entries, previous);
    if i < |entries| then Some(entries[i].key) else None
  }

  /** The position behind a key, or the first one if the key is not there. */
  function After(entries: seq<Entry>, cursor: Option<Key>): (i: nat)
    ensures i <= |entries|
  {
    if cursor.Some? && IndexOf(entries, cursor.value) < |entries| then IndexOf(entries, cursor.value) + 1 else 0
  }

  lemma {:induction false} LiveOfConcat(a: seq<Entry>, b: seq<Entry>, c: Clock)
    ensures Live(a + b, c) == Live(a, c) + Live(b, c)
  {
    if |b| == 0 {
      assert a + b == a;
    } else {
      assert (a + b)[..|a + b| - 1] == a + b[..|b| - 1];
      LiveOfConcat(a, b[..|b| - 1], c);
    }
  }

  lemma {:induction false} LiveIsSublist(entries: seq<Entry>, c: Clock)
    ensures |Live(entries, c)| <= |entries|
    ensures forall e :: e in Live(entries, c) <==> e in entries && !Stale(e, c)
  {
    if |entries| != 0 {
      LiveIsSublist(entries[..|entries| - 1], c);
      assert entries == entries[..|entries| - 1] + [entries[|entries| - 1]];
    }
  }

  lemma {:induction false} FoundAt(entries: seq<Entry>, i: nat)
    requires Distinct(entries) && i < |entries|
    ensures IndexOf(entries, entries[i].key) == i
  {
  }

  /** The map and the sweep's position in it. */
  class Collector {
    var entries: seq<Entry>
    var cursor: Option<Key>
    var cycleEntries: nat
    var lastEntries: nat

    constructor (entries: seq<Entry>)
      requires Distinct(entries)
      ensures this.entries == entries && Valid() && Position() == 0 && lastEntries == 0
    {
      this.entries, cursor, cycleEntries, lastEntries := entries, None, 0, 0;
    }

    /** How many entries of the map this cycle has passed and kept. */
    function Position(): nat
      reads this
    {
      After(entries, cursor)
    }

    /** The cycle has counted exactly the entries behind its cursor. */
    predicate Valid()
      reads this
    {
      Distinct(entries) && (Position() > 0 ==> cycleEntries == Position())
    }

    method Delete(key: Key)
      requires IndexOf(entries, key) < |entries|
      modifies this`entries
      ensures var i := IndexOf(old(entries), key); entries == old(entries)[..i] + old(entries)[i + 1..]
    {
      var i := IndexOf(entries, key);
      entries := entries[..i] + entries[i + 1..];
    }

    /**
     One bounded run: the entries at the next `k` positions are looked at once each, the stale ones are deleted and
     nothing else is, and the sweep stands right before the first entry it has not looked at, or ends its cycle.
     */
    method Run(c: Clock) returns (reported: nat, ghost inspected: seq<Entry>)
      requires Valid()
      modifies this
      ensures Valid()
      ensures var done, rest := old(entries[..Position()]), old(entries[Position()..]);
              var k := Min(MAX_ENTRIES, |rest|);
              var kept := done + Live(rest[..k], c);
              && inspected == rest[..k]
              && entries == kept + rest[k..]
              && (if k == |rest|
                  then Position() == 0 && lastEntries == |kept|
                  else Position() == |kept| && lastEntries == old(lastEntries))
      ensures reported == lastEntries
    {
      ghost var done, rest := entries[..Position()], entries[Position()..];
      CutThere(entries, Position(), c);
      if cursor.Some? && IndexOf(entries, cursor.value) == |entries| {
        cursor := None;
      }
      if cursor.None? {
        cycleEntries := 0;
      }
      var first := NextKey(entries, cursor);
      if first.None? {
        cursor, lastEntries, cycleEntries := None, cycleEntries, 0;
        reported, inspected := lastEntries, [];
      } else {
        inspected := Sweep(done, rest, c, first.value);
        reported := lastEntries;
        if cursor.Some? {
          BehindIsAfter(entries, cursor, cycleEntries);
        }
      }
    }

    /** The loop of a run over the entries `rest` that follow the cursor. */
    method Sweep(ghost done: seq<Entry>, ghost rest: seq<Entry>, c: Clock, first: Key) returns (ghost inspected: seq<Entry>)
      requires entries == done + rest && Distinct(entries) && Behind(entries, cursor, |done|) && cycleEntries == |done|
      requires |rest| > 0 && first == rest[0].key
      modifies this
      ensures var k := Min(MAX_ENTRIES, |rest|);
              var kept := done + Live(rest[..k], c);
              && inspected == rest[..k] && entries == kept + rest[k..] && Distinct(entries)
              && (if k == |rest|
                  then cursor.None? && lastEntries == |kept|
                  else Behind(entries, cursor, |kept|) && cycleEntries == |kept| && lastEntries == old(lastEntries))
    {
      var current := first;
      var scanned := 0;
      var lastLive := cursor;
      ghost var kept := done;
      assert Live(rest[..0], c) == [];
      while true
        invariant scanned < MAX_ENTRIES && scanned < |rest|
        invariant kept == done + Live(rest[..scanned], c)
        invariant entries == kept + rest[scanned..] && Distinct(entries)
        invariant current == rest[scanned].key && Behind(entries, lastLive, |kept|)
        invariant cycleEntries == |kept| && lastEntries == old(lastEntries)
        decreases |rest| - scanned
      {
        var successor := NextKey(entries, Some(current));
        lastLive := Inspect(kept, rest[scanned..], c, current, lastLive);
        OneMoreInspected(rest, scanned, c);
        kept := kept + Live([rest[scanned]], c);
        scanned := scanned + 1;
        if successor.Some? && scanned < MAX_ENTRIES {
          current := successor.value;
        } else {
          if successor.Some? {
            cursor := lastLive;
          } else {
            cursor, lastEntries, cycleEntries := None, cycleEntries, 0;
          }
          break;
        }
      }
      inspected := rest[..scanned];
    }

    /** Deletes the current entry if it is stale, otherwise counts it as the place to resume after. */
    method Inspect(ghost kept: seq<Entry>, ghost rest: seq<Entry>, c: Clock, current: Key, lastLive: Option<Key>)
      returns (lastLive': Option<Key>)
      requires entries == kept + rest && Distinct(entries) && Behind(entries, lastLive, |kept|)
      requires |rest| > 0 && current == rest[0].key
      modifies this`entries, this`cycleEntries
      ensures var kept' := kept + Live([rest[0]], c);
              && entries == kept' + rest[1..] && Distinct(entries) && Behind(entries, lastLive', |kept'|)
              && cycleEntries - old(cycleEntries) == |kept'| - |kept|
      ensures NextKey(old(entries), Some(current)) == if |rest| > 1 then Some(rest[1].key) else None
    {
      FoundAt(entries, |kept|);
      LiveOfOne(rest[0], c);
      var at := IndexOf(entries, current);
      lastLive' := lastLive;
      if Stale(entries[at], c) {
        StillDistinct(kept, rest);
        WithoutOne(kept, rest, lastLive);
        Delete(current);
      } else {
        PastOne(kept, rest);
        cycleEntries := cycleEntries + 1;
        lastLive' := Some(current);
      }
    }

    /**
     The first `n` runs of a cycle over an undisturbed map: they look at the first 2048 * n entries once each and
     in order, keep exactly the live ones among them and touch nothing else. The cycle ends, and reports, with the
     last run it needs and not before.
     */
    method Runs(c: Clock, n: nat) returns (ghost inspected: seq<Entry>)
      requires Valid() && Position() == 0 && n <= RunsNeeded(|entries|)
      modifies this
      ensures Valid()
      ensures var all, m := old(entries), Min(|old(entries)|, 2048 * n);
              && inspected == all[..m]
              && entries == Live(all[..m], c) + all[m..]
              && (if n == RunsNeeded(|all|)
                  then Position() == 0 && lastEntries == |entries|
                  else Position() == |Live(all[..m], c)| && lastEntries == old(lastEntries))
    {
      ghost var all := entries;
      if n == 0 {
        NothingVisited(all, c);
        inspected := [];
      } else {
        LastRunCoversTheRest(|all|, n - 1);
        ghost var m := 2048 * (n - 1);
        inspected := Runs(c, n - 1);
        var slice := NextRun(all, m, c);
        TakenTogether(all, m, m + |slice|);
        inspected := inspected + slice;
      }
    }

    /** One run of a cycle that began with the entries `all` and has visited the first `m` of them. */
    method NextRun(ghost all: seq<Entry>, ghost m: nat, c: Clock) returns (ghost slice: seq<Entry>)
      requires Valid() && m <= |all|
      requires entries == Live(all[..m], c) + all[m..] && Position() == |Live(all[..m], c)|
      modifies this
      ensures Valid()
      ensures var m' := m + Min(MAX_ENTRIES, |all| - m);
              && slice == all[m..m']
              && entries == Live(all[..m'], c) + all[m'..]
              && (if m' == |all| then Position() == 0 && lastEntries == |entries|
                  else Position() == |Live(all[..m'], c)| && lastEntries == old(lastEntries))
    {
      ghost var k := Min(MAX_ENTRIES, |all| - m);
      PassedAndAhead(all, m, c, entries, Position());
      NextSlice(all, m, k, c);
      var reported, inspected := Run(c);
      slice := inspected;
      assert entries == Live(all[..m + k], c) + all[m + k..];
    }

    /** A whole cycle: every entry is looked at once, exactly the live ones are left, and they are what it counts. */
    method Cycle(c: Clock) returns (runs: nat, ghost inspected: seq<Entry>)
      requires Valid() && Position() == 0
      modifies this
      ensures Valid() && Position() == 0
      ensures runs == RunsNeeded(|old(entries)|) && inspected == old(entries)
      ensures entries == Live(old(entries), c) && lastEntries == |entries|
      ensures forall e :: e in entries <==> e in old(entries) && !Stale(e, c)
    {
      ghost var all := entries;
      NothingVisited(all, c);
      runs, inspected := RunToTheEnd(all, |entries|, c);
      LiveIsSublist(all, c);
      assert all[0..] == all;
    }

    /** Run after run, until the last `left` of the entries `all` are visited. */
    method RunToTheEnd(ghost all: seq<Entry>, left: nat, c: Clock) returns (runs: nat, ghost inspected: seq<Entry>)
      requires Valid() && left <= |all|
      requires var m := |all| - left; entries == Live(all[..m], c) + all[m..] && Position() == |Live(all[..m], c)|
      modifies this
      ensures Valid() && Position() == 0
      ensures runs == RunsNeeded(left) && inspected == all[|all| - left..]
      ensures entries == Live(all, c) && lastEntries == |entries|
      decreases left
    {
      OneRunLess(left);
      inspected := NextRun(all, |all| - left, c);
      if left <= MAX_ENTRIES {
        AllVisited(all, |all| - left, c);
        runs := 1;
      } else {
        SliceAndRest(all, |all| - left, |all| - left + MAX_ENTRIES);
        ghost var rest;
        runs, rest := RunToTheEnd(all, left - MAX_ENTRIES, c);
        runs := runs + 1;
        inspected := inspected + rest;
      }
    }
  }

  /** The cursor is the key of the last of the first `n` entries, and no key if there are none. */
  predicate Behind(entries: seq<Entry>, cursor: Option<Key>, n: nat) {
    n <= |entries| && cursor == if n == 0 then None else Some(entries[n - 1].key)
  }

  lemma StillDistinct(kept: seq<Entry>, rest: seq<Entry>)
    requires |rest| > 0 && Distinct(kept + rest)
    ensures Distinct(kept + rest[1..])
  {
    var all, less := kept + rest, kept + rest[1..];
    forall i, j | 0 <= i < j < |less|
      ensures less[i].key != less[j].key
    {
      assert less[i] == all[if i < |kept| then i else i + 1];
      assert less[j] == all[if j < |kept| then j else j + 1];
    }
  }

  lemma {:induction false} CutThere(entries: seq<Entry>, p: nat, c: Clock)
    requires p <= |entries|
    ensures entries == entries[..p] + entries[p..]
    ensures p == |entries| ==> entries[p..] == [] && entries[..p] + Live(entries[p..][..0], c) + entries[p..][0..] == entries
  {
  }

  /** The map without the first of the entries still ahead. */
  lemma WithoutOne(kept: seq<Entry>, rest: seq<Entry>, cursor: Option<Key>)
    requires |rest| > 0 && Behind(kept + rest, cursor, |kept|)
    ensures (kept + rest)[..|kept|] + (kept + rest)[|kept| + 1..] == kept + rest[1..]
    ensures Behind(kept + rest[1..], cursor, |kept|)
  {
  }

  /** The first of the entries still ahead, passed. */
  lemma PastOne(kept: seq<Entry>, rest: seq<Entry>)
    requires |rest| > 0
    ensures kept + rest == kept + [rest[0]] + rest[1..]
    ensures Behind(kept + rest, Some(rest[0].key), |kept + [rest[0]]|)
  {
  }

  lemma BehindIsAfter(entries: seq<Entry>, cursor: Option<Key>, n: nat)
    requires Distinct(entries) && Behind(entries, cursor, n)
    ensures After(entries, cursor) == n
  {
    if n > 0 {
      FoundAt(entries, n - 1);
    }
  }

  lemma {:induction false} LiveOfOne(e: Entry, c: Clock)
    ensures Live([e], c) == if Stale(e, c) then [] else [e]
  {
    assert Live([e][..0], c) == [];
  }

  lemma {:induction false} OneMoreInspected(rest: seq<Entry>, scanned: nat, c: Clock)
    requires scanned < |rest|
    ensures Live(rest[..scanned + 1], c) == Live(rest[..scanned], c) + Live([rest[scanned]], c)
    ensures rest[scanned..][1..] == rest[scanned + 1..]
  {
    assert rest[..scanned + 1] == rest[..scanned] + [rest[scanned]];
    LiveOfConcat(rest[..scanned], [rest[scanned]], c);
  }

  // A whole cycle

  /** How many runs a cycle over `n` entries takes: the smallest number that covers them, and one for an empty map. */
  function RunsNeeded(n: nat): nat {
    Max(1, (n + MAX_ENTRIES - 1) / MAX_ENTRIES)
  }

  lemma LastRunCoversTheRest(n: nat, i: nat)
    requires i < RunsNeeded(n)
    ensures i + 1 == RunsNeeded(n) <==> n <= 2048 * (i + 1)
    ensures 2048 * i <= n && (i > 0 ==> 2048 * i < n)
  {
  }

  lemma OneRunLess(n: nat)
    ensures RunsNeeded(n) == if n <= MAX_ENTRIES then 1 else RunsNeeded(n - MAX_ENTRIES) + 1
  {
  }

  lemma SliceAndRest(all: seq<Entry>, m: nat, m': nat)
    requires m <= m' <= |all|
    ensures all[m..m'] + all[m'..] == all[m..]
  {
  }

  lemma {:induction false} AllVisited(all: seq<Entry>, m: nat, c: Clock)
    requires m <= |all|
    ensures all[..|all|] == all && Live(all[..|all|], c) + all[|all|..] == Live(all, c) && all[m..|all|] == all[m..]
  {
    assert all[..|all|] == all && all[|all|..] == [];
  }

  /** A cycle that has visited the first `m` of the entries `all` stands behind the live ones among them. */
  lemma {:induction false} PassedAndAhead(all: seq<Entry>, m: nat, c: Clock, entries: seq<Entry>, position: nat)
    requires m <= |all| && entries == Live(all[..m], c) + all[m..] && position == |Live(all[..m], c)|
    ensures position <= |entries| && entries[..position] == Live(all[..m], c) && entries[position..] == all[m..]
  {
  }

  lemma {:induction false} NothingVisited(all: seq<Entry>, c: Clock)
    ensures all[..0] == [] && Live(all[..0], c) == [] && Live(all[..0], c) + all[0..] == all
  {
  }

  lemma TakenTogether(all: seq<Entry>, m: nat, m': nat)
    requires m <= m' <= |all|
    ensures all[..m] + all[m..m'] == all[..m']
  {
  }

  /** What the next run keeps and leaves, in terms of the entries the cycle began with. */
  lemma {:induction false} NextSlice(all: seq<Entry>, m: nat, k: nat, c: Clock)
    requires m + k <= |all|
    ensures all[m..][..k] == all[m..m + k] && all[m..][k..] == all[m + k..]
    ensures Live(all[..m], c) + Live(all[m..][..k], c) == Live(all[..m + k], c)
    ensures m + k == |all| ==> |Live(all[..m + k], c) + all[m + k..]| == |Live(all[..m + k], c)|
  {
    assert all[m..][..k] == all[m..m + k];
    assert all[..m] + all[m..m + k] == all[..m + k];
    LiveOfConcat(all[..m], all[m..m + k], c);
  }
}
