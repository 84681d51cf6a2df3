/** The case listing of a run while shards keep arriving: the stores a client's page requests see are those the
    paging client relies on. */
module Listings {
  import opened ShardStore
  import opened ShardInvariant
  import opened ShardTheorems
  import Paging

  function ListingKey(row: CaseRow): Paging.Key { Paging.Key(row.item.caseId, row.item.iteration) }

  /** Whether each stored case succeeded, by its key. */
  function StoreOf(rows: seq<CaseRow>): Paging.Store {
    if rows == [] then map[]
    else
      var last := rows[|rows| - 1];
      StoreOf(rows[..|rows| - 1])[ListingKey(last) := last.item.success]
  }

  lemma {:induction false} StoreMembers(rows: seq<CaseRow>, k: Paging.Key)
    ensures k in StoreOf(rows) <==> exists i :: 0 <= i < |rows| && ListingKey(rows[i]) == k
  {
    if rows != [] {
      var n := |rows| - 1;
      StoreMembers(rows[..n], k);
      assert forall i | 0 <= i < n :: rows[..n][i] == rows[i];
      if k in StoreOf(rows[..n]) {
        var i :| 0 <= i < n && ListingKey(rows[..n][i]) == k;
        assert ListingKey(rows[i]) == k;
      }
      if i :| 0 <= i < |rows| && ListingKey(rows[i]) == k {
        if i < n { assert ListingKey(rows[..n][i]) == k; }
      }
    }
  }

  lemma OneMoreRow(rows: seq<CaseRow>, row: CaseRow)
    requires DistinctRows(rows + [row])
    ensures StoreOf(rows + [row]) == StoreOf(rows)[ListingKey(row) := row.item.success]
    ensures ListingKey(row) !in StoreOf(rows)
  {
    assert (rows + [row])[..|rows|] == rows;
    StoreMembers(rows, ListingKey(row));
    forall i | 0 <= i < |rows| ensures ListingKey(rows[i]) != ListingKey(row) {
      assert RowKey((rows + [row])[i]) != RowKey((rows + [row])[|rows|]);
    }
  }

  predicate Extends(a: Paging.Store, b: Paging.Store) {
    forall k | k in a :: k in b && b[k] == a[k]
  }

  /** More rows leave what is listed as it was. */
  lemma {:induction false} StoreGrows(rows: seq<CaseRow>, more: seq<CaseRow>)
    requires rows <= more && DistinctRows(more)
    ensures Extends(StoreOf(rows), StoreOf(more))
    decreases |more|
  {
    if |rows| < |more| {
      var shorter, last := more[..|more| - 1], more[|more| - 1];
      assert more == shorter + [last];
      StoreGrows(rows, shorter);
      OneMoreRow(shorter, last);
    } else {
      assert rows == more;
    }
  }

  lemma {:induction false} AfterSplit(s: Store, first: seq<Event>, second: seq<Event>)
    ensures After(s, first + second) == After(After(s, first), second)
    decreases |first|
  {
    if first == [] {
      assert first + second == second;
    } else {
      assert (first + second)[1..] == first[1..] + second;
      AfterSplit(Step(s, first[0]).0, first[1..], second);
    }
  }

  /** What is listed of the run after the first `n` steps. */
  function ListedAt(events: seq<Event>, id: RunId, n: nat): Paging.Store
    requires n <= |events|
  {
    var s := After(EMPTY, events[..n]);
    if id in s.runs then StoreOf(s.runs[id].rows) else map[]
  }

  lemma RowsAre(events: seq<Event>, id: RunId)
    requires id in After(EMPTY, events).runs
    ensures var rows := After(EMPTY, events).runs[id].rows;
            DistinctRows(rows) && forall i | 0 <= i < |rows| :: |rows[i].item.caseId| > 0
  {
    ReachableValid(events);
    var s := After(EMPTY, events);
    RowsNamed(s.runs[id], s.now, s.issued);
  }

  lemma RowsNamed(run: Run, now: int, issued: Token)
    requires RunValid(run, now, issued)
    ensures DistinctRows(run.rows) && forall i | 0 <= i < |run.rows| :: |run.rows[i].item.caseId| > 0
  {
    forall i | 0 <= i < |run.rows| ensures |run.rows[i].item.caseId| > 0 {
      var row := run.rows[i];
      assert RowJustified(run.registration.pricing, run.receipts, row);
      assert Sound(run.receipts[row.shard].payload);
    }
  }

  /** What is listed at one time is listed unchanged at every later time, under a name. */
  lemma ListedGrows(events: seq<Event>, id: RunId, m: nat, n: nat)
    requires m <= n <= |events|
    ensures Extends(ListedAt(events, id, m), ListedAt(events, id, n))
    ensures forall k | k in ListedAt(events, id, n) :: Paging.Named(k)
  {
    var before, after := After(EMPTY, events[..m]), After(EMPTY, events[..n]);
    assert events[..n] == events[..m] + events[m..n];
    AfterSplit(EMPTY, events[..m], events[m..n]);
    if id in before.runs {
      ReachableValid(events[..m]);
      RowsOnlyGrow(before, events[m..n], id);
      RowsAre(events[..n], id);
      StoreGrows(before.runs[id].rows, after.runs[id].rows);
    }
    forall k | k in ListedAt(events, id, n) ensures Paging.Named(k) {
      RowsAre(events[..n], id);
      StoreMembers(after.runs[id].rows, k);
    }
  }

  /** Requests at any times of any run of steps, in order, see stores that only grow: what the client's listing is
      proved against. */
  lemma RequestsSeeGrowingStores(events: seq<Event>, id: RunId, times: nat -> nat, stores: nat -> Paging.Store)
    requires forall m: nat, n: nat | m <= n :: times(m) <= times(n) <= |events|
    requires forall n: nat :: times(n) <= |events| && stores(n) == ListedAt(events, id, times(n))
    ensures Paging.Growing(stores, ListedAt(events, id, |events|).Keys)
  {
    forall n: nat
      ensures forall k | k in stores(n) :: k in ListedAt(events, id, |events|).Keys && Paging.Named(k)
      ensures forall k | k in stores(n) :: k in stores(n + 1) && stores(n + 1)[k] == stores(n)[k]
    {
      ListedGrows(events, id, times(n), times(n + 1));
      ListedGrows(events, id, times(n), |events|);
      ListedGrows(events, id, times(n), times(n));
    }
  }
}
