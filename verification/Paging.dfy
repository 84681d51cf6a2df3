/** Case pages by keyset cursor, and the client that follows the cursors while cases keep arriving. */
module Paging {
  import opened Collections

  datatype Key = Key(caseId: string, iteration: int)

  /** Any strict total order on case ids; the database's collation is one. */
  ghost predicate Collation(before: (string, string) -> bool) {
    && (forall a :: !before(a, a))
    && (forall a, b, c :: before(a, b) && before(b, c) ==> before(a, c))
    && (forall a, b :: a == b || before(a, b) || before(b, a))
  }

  /** Row comparison of (case_id, iteration). */
  predicate Less(before: (string, string) -> bool, a: Key, b: Key) {
    before(a.caseId, b.caseId) || (a.caseId == b.caseId && a.iteration < b.iteration)
  }

  lemma LessTransitive(before: (string, string) -> bool, a: Key, b: Key, c: Key)
    requires Collation(before) && Less(before, a, b) && Less(before, b, c)
    ensures Less(before, a, c)
  {
  }

  lemma LessTotal(before: (string, string) -> bool, a: Key, b: Key)
    requires Collation(before)
    ensures !(Less(before, a, b) && Less(before, b, a)) && !Less(before, a, a)
    ensures a == b || Less(before, a, b) || Less(before, b, a)
  {
    assert before(a.caseId, b.caseId) && before(b.caseId, a.caseId) ==> before(a.caseId, a.caseId);
  }

  predicate First(before: (string, string) -> bool, s: set<Key>, m: Key) {
    m in s && forall k | k in s :: k == m || Less(before, m, k)
  }

  lemma {:induction false} FirstExists(before: (string, string) -> bool, s: set<Key>) returns (m: Key)
    requires Collation(before) && s != {}
    ensures First(before, s, m)
    decreases |s|
  {
    var x := Pick(s);
    var rest := s - {x};
    if rest == {} {
      m := x;
      assert forall k | k in s :: k !in rest;
    } else {
      var y := FirstExists(before, rest);
      LessTotal(before, x, y);
      m := if Less(before, x, y) then x else y;
      forall k | k in s ensures k == m || Less(before, m, k) {
        if k in rest && m == x && k != y { LessTransitive(before, x, y, k); }
      }
    }
  }

  lemma FirstUnique(before: (string, string) -> bool, s: set<Key>, a: Key, b: Key)
    requires Collation(before) && First(before, s, a) && First(before, s, b)
    ensures a == b
  {
    LessTotal(before, a, b);
  }

  ghost function Earliest(before: (string, string) -> bool, s: set<Key>): (m: Key)
    requires Collation(before) && s != {}
    ensures First(before, s, m)
  {
    assert exists m :: First(before, s, m) by { var m := FirstExists(before, s); }
    var m :| First(before, s, m);
    m
  }

  /** The first `n` keys of a set, in order. */
  ghost function FirstRows(before: (string, string) -> bool, s: set<Key>, n: nat): seq<Key>
    requires Collation(before)
  {
    if n == 0 || s == {} then []
    else
      var m := Earliest(before, s);
      [m] + FirstRows(before, s - {m}, n - 1)
  }

  predicate Ascending(before: (string, string) -> bool, rows: seq<Key>) {
    forall i, j | 0 <= i < j < |rows| :: Less(before, rows[i], rows[j])
  }

  lemma {:induction false} FirstRowsOrdered(before: (string, string) -> bool, s: set<Key>, n: nat)
    requires Collation(before)
    ensures
      var rows := FirstRows(before, s, n);
      && Ascending(before, rows)
      && (forall k | k in rows :: k in s)
      && |rows| == if n <= |s| then n else |s|
  {
    if n > 0 && s != {} {
      var m := Earliest(before, s);
      FirstRowsOrdered(before, s - {m}, n - 1);
    }
  }

  /** What the limit cuts off comes after everything it kept. */
  lemma {:induction false} FirstRowsComplete(before: (string, string) -> bool, s: set<Key>, n: nat, k: Key)
    requires Collation(before) && k in s
    ensures
      var rows := FirstRows(before, s, n);
      k in rows || (|rows| == n && forall r | r in rows :: Less(before, r, k))
  {
    if n > 0 {
      var m := Earliest(before, s);
      if k != m {
        FirstRowsComplete(before, s - {m}, n - 1, k);
      }
    }
  }

  // ---- One page ----

  /** The stored cases of a run: whether each succeeded, by key. */
  type Store = map<Key, bool>

  function Matching(store: Store, failedOnly: bool): set<Key> {
    set k | k in store && (failedOnly ==> !store[k])
  }

  function AfterCursor(before: (string, string) -> bool, s: set<Key>, cursor: Option<Key>): set<Key> {
    set k | k in s && (cursor.Some? ==> Less(before, cursor.value, k))
  }

  datatype Page = Page(cases: seq<Key>, next: Option<Key>) | InvalidCursor

  predicate Named(k: Key) { k.caseId != "" }

  /** The query selects one row more than the page holds; that row decides whether there is a next page. */
  ghost function PageOf(
    before: (string, string) -> bool, store: Store, cursor: Option<Key>, limit: nat, failedOnly: bool): Page
    requires Collation(before) && limit >= 1
  {
    if cursor.Some? && !Named(cursor.value) then InvalidCursor
    else
      var rows := FirstRows(before, AfterCursor(before, Matching(store, failedOnly), cursor), limit + 1);
      if |rows| > limit then Page(rows[..limit], Some(rows[limit - 1])) else Page(rows, None)
  }

  lemma TakeFirst(before: (string, string) -> bool, rows: seq<Key>, rest: set<Key>, n: nat, k: Key)
    requires Collation(before) && n > 0 && First(before, rest, k)
    ensures rows + FirstRows(before, rest, n) == rows + [k] + FirstRows(before, rest - {k}, n - 1)
  {
    FirstUnique(before, rest, k, Earliest(before, rest));
  }

  /** The ordered, limited selection. */
  method SelectRows(before: (string, string) -> bool, s: set<Key>, n: nat) returns (rows: seq<Key>)
    requires Collation(before)
    ensures rows == FirstRows(before, s, n)
  {
    rows := [];
    var rest := s;
    while |rows| < n && rest != {}
      invariant |rows| <= n
      invariant FirstRows(before, s, n) == rows + FirstRows(before, rest, n - |rows|)
      decreases |rest|
    {
      assert First(before, rest, Earliest(before, rest));
      var k :| First(before, rest, k);
      TakeFirst(before, rows, rest, n - |rows|, k);
      rows, rest := rows + [k], rest - {k};
    }
  }

  method ListCases(before: (string, string) -> bool, store: Store, cursor: Option<Key>, limit: nat, failedOnly: bool)
    returns (page: Page)
    requires Collation(before) && limit >= 1
    ensures page == PageOf(before, store, cursor, limit, failedOnly)
  {
    if cursor.Some? && !Named(cursor.value) { return InvalidCursor; }
    var rows := SelectRows(before, AfterCursor(before, Matching(store, failedOnly), cursor), limit + 1);
    if |rows| > limit {
      return Page(rows[..limit], Some(rows[limit - 1]));
    }
    return Page(rows, None);
  }

  /** A stored case that the filter lets through and that lies after the cursor. */
  predicate Wanted(
    before: (string, string) -> bool, store: Store, cursor: Option<Key>, failedOnly: bool, k: Key)
  {
    && k in store && (failedOnly ==> !store[k])
    && (cursor.Some? ==>
          || before(cursor.value.caseId, k.caseId)
          || (k.caseId == cursor.value.caseId && k.iteration > cursor.value.iteration))
  }

  /** A page over the rows the query ranges over: ascending, and nothing skipped up to the next cursor. */
  lemma PageOfLeft(
    before: (string, string) -> bool, store: Store, cursor: Option<Key>, limit: nat, failedOnly: bool, left: set<Key>)
    requires Collation(before) && limit >= 1 && (cursor.Some? ==> Named(cursor.value))
    requires left == AfterCursor(before, Matching(store, failedOnly), cursor)
    ensures
      var page := PageOf(before, store, cursor, limit, failedOnly);
      && page.Page?
      && Ascending(before, page.cases) && |page.cases| <= limit
      && (forall k | k in page.cases :: k in left)
      && (page.next.Some? <==> |left| > limit)
      && (page.next.Some? ==> |page.cases| == limit && page.next.value == page.cases[limit - 1])
      && (forall k | k in left ::
            k in page.cases || (page.next.Some? && Less(before, page.next.value, k)))
  {
    var rows := FirstRows(before, left, limit + 1);
    FirstRowsOrdered(before, left, limit + 1);
    var page := PageOf(before, store, cursor, limit, failedOnly);
    forall k | k in left ensures k in page.cases || (page.next.Some? && Less(before, page.next.value, k)) {
      FirstRowsComplete(before, left, limit + 1, k);
      assert k in rows && |rows| > limit ==> k in rows[..limit] || k == rows[limit];
    }
  }

  predicate ByCaseAndIteration(before: (string, string) -> bool, cases: seq<Key>) {
    forall i, j | 0 <= i < j < |cases| ::
      || before(cases[i].caseId, cases[j].caseId)
      || (cases[i].caseId == cases[j].caseId && cases[i].iteration < cases[j].iteration)
  }

  /** A page in the terms a client relies on: wanted cases by case and then iteration, and nothing skipped up to the
      next cursor, which is the page's own last case; there is one exactly when more cases are wanted than fit. */
  lemma PageMeaning(before: (string, string) -> bool, store: Store, cursor: Option<Key>, limit: nat, failedOnly: bool)
    requires Collation(before) && limit >= 1 && (cursor.Some? ==> Named(cursor.value))
    ensures
      var page := PageOf(before, store, cursor, limit, failedOnly);
      && page.Page? && |page.cases| <= limit && ByCaseAndIteration(before, page.cases)
      && (forall k | k in page.cases :: Wanted(before, store, cursor, failedOnly, k))
      && (page.next.Some? <==> |set k | k in store && Wanted(before, store, cursor, failedOnly, k)| > limit)
      && (page.next.Some? ==> |page.cases| == limit && page.next.value == page.cases[limit - 1])
      && (forall k | Wanted(before, store, cursor, failedOnly, k) ::
            k in page.cases || (page.next.Some? && Less(before, page.next.value, k)))
  {
    var left := set k | k in store && Wanted(before, store, cursor, failedOnly, k);
    assert left == AfterCursor(before, Matching(store, failedOnly), cursor);
    PageOfLeft(before, store, cursor, limit, failedOnly, left);
  }

  /** A cursor is refused exactly when it names no case. */
  lemma InvalidExactlyWhen(
    before: (string, string) -> bool, store: Store, cursor: Option<Key>, limit: nat, failedOnly: bool)
    requires Collation(before) && limit >= 1
    ensures PageOf(before, store, cursor, limit, failedOnly) == InvalidCursor <==>
            cursor.Some? && cursor.value.caseId == ""
  {
  }

  // ---- Following the cursors ----

  /** The store at the n-th request: cases are only added, never changed, and all lie within some finite set. */
  ghost predicate Growing(stores: nat -> Store, bound: set<Key>) {
    forall n: nat ::
      && (forall k | k in stores(n) :: k in bound && Named(k))
      && (forall k | k in stores(n) :: k in stores(n + 1) && stores(n + 1)[k] == stores(n)[k])
  }

  lemma {:induction false} StillMatching(stores: nat -> Store, bound: set<Key>, n: nat, failedOnly: bool)
    requires Growing(stores, bound)
    ensures Matching(stores(0), failedOnly) <= Matching(stores(n), failedOnly)
  {
    if n > 0 {
      StillMatching(stores, bound, n - 1, failedOnly);
      MatchingGrows(stores, bound, n - 1, failedOnly);
    }
  }

  lemma MatchingGrows(stores: nat -> Store, bound: set<Key>, n: nat, failedOnly: bool)
    requires Growing(stores, bound)
    ensures Matching(stores(n), failedOnly) <= Matching(stores(n + 1), failedOnly)
    ensures Matching(stores(n), failedOnly) <= bound
    ensures forall k | k in Matching(stores(n), failedOnly) :: Named(k)
  {
  }

  datatype Listing = Listed(cases: seq<Key>) | RepeatedCursor | Refused

  /** What the client holds before request n: ascending cases ending at the cursor, all of them stored, none of
      the initial ones missed up to the cursor, and only earlier cursors seen. */
  predicate Collected(
    before: (string, string) -> bool, initial: set<Key>, stored: set<Key>, cases: seq<Key>, cursor: Option<Key>)
  {
    && Ascending(before, cases)
    && (forall i | 0 <= i < |cases| :: cases[i] in stored)
    && (if cursor.None? then cases == [] else cases != [] && cursor.value == cases[|cases| - 1])
    && (cursor.Some? ==> forall k | k in initial :: k in cases || Less(before, cursor.value, k))
  }

  predicate Earlier(before: (string, string) -> bool, seen: set<Key>, cursor: Option<Key>) {
    forall c | c in seen :: cursor.Some? && (c == cursor.value || Less(before, c, cursor.value))
  }

  lemma AscendingAppend(before: (string, string) -> bool, a: seq<Key>, b: seq<Key>)
    requires Collation(before) && Ascending(before, a) && Ascending(before, b)
    requires a != [] ==> forall i | 0 <= i < |b| :: Less(before, a[|a| - 1], b[i])
    ensures Ascending(before, a + b)
  {
    forall i, j | 0 <= i < j < |a + b| ensures Less(before, (a + b)[i], (a + b)[j]) {
      if i < |a| - 1 && j >= |a| { LessTransitive(before, a[i], a[|a| - 1], b[j - |a|]); }
    }
  }

  /** One page extends what is collected, and without a next cursor nothing is left out. */
  lemma PageExtends(
    before: (string, string) -> bool, initial: set<Key>, store: Store, cases: seq<Key>, cursor: Option<Key>,
    limit: nat, failedOnly: bool)
    requires Collation(before) && limit >= 1 && (cursor.Some? ==> Named(cursor.value))
    requires initial <= Matching(store, failedOnly)
    requires Collected(before, initial, Matching(store, failedOnly), cases, cursor)
    ensures
      var page := PageOf(before, store, cursor, limit, failedOnly);
      var grown := cases + page.cases;
      && page.Page?
      && Ascending(before, grown)
      && (forall i | 0 <= i < |grown| :: grown[i] in Matching(store, failedOnly))
      && (page.next.Some? ==> Collected(before, initial, Matching(store, failedOnly), grown, page.next))
      && (page.next.Some? && cursor.Some? ==> Less(before, cursor.value, page.next.value))
      && (page.next.None? ==> forall k | k in initial :: k in grown)
  {
    var left := AfterCursor(before, Matching(store, failedOnly), cursor);
    PageOfLeft(before, store, cursor, limit, failedOnly, left);
    var page := PageOf(before, store, cursor, limit, failedOnly);
    assert forall i | 0 <= i < |page.cases| :: page.cases[i] in page.cases;
    AscendingAppend(before, cases, page.cases);
    forall k | k in initial
      ensures k in cases + page.cases || (page.next.Some? && Less(before, page.next.value, k))
    {
      assert k in cases || k in left;
    }
  }

  predicate ListsAll(store: Store, failedOnly: bool, cases: seq<Key>) {
    forall k | k in store && (failedOnly ==> !store[k]) :: k in cases
  }

  predicate ListsOnly(store: Store, failedOnly: bool, cases: seq<Key>) {
    forall k | k in cases :: k in store && (failedOnly ==> !store[k])
  }

  lemma ListingMeans(
    before: (string, string) -> bool, first: Store, last: Store, failedOnly: bool, cases: seq<Key>)
    requires Ascending(before, cases) && forall k | k in Matching(first, failedOnly) :: k in cases
    requires forall i | 0 <= i < |cases| :: cases[i] in Matching(last, failedOnly)
    ensures ByCaseAndIteration(before, cases)
    ensures ListsAll(first, failedOnly, cases) && ListsOnly(last, failedOnly, cases)
  {
    forall k | k in first && (failedOnly ==> !first[k]) ensures k in cases {
      assert k in Matching(first, failedOnly);
    }
  }

  /** `list_all_cases` against a server whose store grows between the requests. */
  method ListAllCases(
    before: (string, string) -> bool, stores: nat -> Store, ghost bound: set<Key>, limit: nat, failedOnly: bool)
    returns (r: Listing, requests: nat)
    requires Collation(before) && limit >= 1 && Growing(stores, bound)
    ensures r.Listed? && requests >= 1
    ensures ByCaseAndIteration(before, r.cases)
    ensures ListsAll(stores(0), failedOnly, r.cases) && ListsOnly(stores(requests - 1), failedOnly, r.cases)
    ensures stores(requests - 1) == stores(0) ==>
      r.cases == FirstRows(before, Matching(stores(0), failedOnly), |stores(0)| + 1)
  {
    var cases, cursor, seen := [], None, {};
    requests := 0;
    ghost var initial := Matching(stores(0), failedOnly);
    while true
      invariant Collected(before, initial, Matching(stores(requests), failedOnly), cases, cursor)
      invariant cursor.Some? ==> Named(cursor.value)
      invariant Earlier(before, seen, cursor)
      decreases |AfterCursor(before, bound, cursor)|
    {
      ghost var stored := Matching(stores(requests), failedOnly);
      StillMatching(stores, bound, requests, failedOnly);
      MatchingGrows(stores, bound, requests, failedOnly);
      PageExtends(before, initial, stores(requests), cases, cursor, limit, failedOnly);
      var page := ListCases(before, stores(requests), cursor, limit, failedOnly);
      if page.InvalidCursor? { return Refused, requests; }
      requests := requests + 1;
      cases := cases + page.cases;
      if page.next.None? {
        ListingMeans(before, stores(0), stores(requests - 1), failedOnly, cases);
        if stores(requests - 1) == stores(0) { ListingIsSortedFilter(before, stores(0), failedOnly, cases); }
        return Listed(cases), requests;
      }
      CursorAdvances(before, bound, seen, cursor, page.next.value);
      if page.next.value in seen { return RepeatedCursor, requests; }
      seen := seen + {page.next.value};
      cursor := page.next;
    }
  }

  /** A later cursor has not been seen, and leaves fewer keys to visit. */
  lemma CursorAdvances(
    before: (string, string) -> bool, bound: set<Key>, seen: set<Key>, cursor: Option<Key>, next: Key)
    requires Collation(before) && next in bound && Earlier(before, seen, cursor)
    requires cursor.Some? ==> Less(before, cursor.value, next)
    ensures next !in seen && Earlier(before, seen + {next}, Some(next))
    ensures |AfterCursor(before, bound, Some(next))| < |AfterCursor(before, bound, cursor)|
  {
    var later, earlier := AfterCursor(before, bound, Some(next)), AfterCursor(before, bound, cursor);
    forall c | c in seen ensures c != next && Less(before, c, next) {
      LessTotal(before, c, next);
      LessTotal(before, cursor.value, next);
      if c != cursor.value { LessTransitive(before, c, cursor.value, next); }
    }
    LessTotal(before, next, next);
    forall k | k in later ensures k in earlier {
      if cursor.Some? { LessTransitive(before, cursor.value, next, k); }
    }
    assert next in earlier && next !in later;
    SmallerSet(later, earlier, next);
  }

  lemma SmallerSet<T>(a: set<T>, b: set<T>, x: T)
    requires a <= b && x in b && x !in a
    ensures |a| < |b|
  {
    SubsetSize(a, b - {x});
  }

  // ---- Against a store that stays the same ----

  lemma SameFirst(before: (string, string) -> bool, a: seq<Key>, b: seq<Key>)
    requires Collation(before) && Ascending(before, a) && Ascending(before, b) && a != [] && b != []
    requires a[0] in b && b[0] in a
    ensures a[0] == b[0]
  {
    var i :| 0 <= i < |b| && b[i] == a[0];
    var j :| 0 <= j < |a| && a[j] == b[0];
    LessTotal(before, a[0], b[0]);
  }

  lemma TailMember(before: (string, string) -> bool, a: seq<Key>, k: Key)
    requires Collation(before) && Ascending(before, a) && a != []
    ensures k in a[1..] <==> k in a && k != a[0]
  {
    assert a == [a[0]] + a[1..];
    LessTotal(before, a[0], a[0]);
    if k in a[1..] {
      var i :| 0 <= i < |a[1..]| && a[1..][i] == k;
      assert Less(before, a[0], a[i + 1]);
    }
  }

  lemma SomeMember(a: seq<Key>)
    requires a != []
    ensures exists k :: k in a
  {
    assert a[0] in a;
  }

  lemma {:induction false} AscendingUnique(before: (string, string) -> bool, a: seq<Key>, b: seq<Key>)
    requires Collation(before) && Ascending(before, a) && Ascending(before, b)
    requires forall k :: k in a <==> k in b
    ensures a == b
  {
    if a != [] { SomeMember(a); }
    if b != [] { SomeMember(b); }
    if a != [] {
      assert a[0] in b;
      assert b[0] in a;
      SameFirst(before, a, b);
      forall k ensures k in a[1..] <==> k in b[1..] {
        TailMember(before, a, k);
        TailMember(before, b, k);
      }
      AscendingUnique(before, a[1..], b[1..]);
      assert a == [a[0]] + a[1..] && b == [b[0]] + b[1..];
    }
  }

  /** An ascending listing of exactly the matching cases is the sorted, filtered list. */
  lemma ListingIsSortedFilter(before: (string, string) -> bool, store: Store, failedOnly: bool, cases: seq<Key>)
    requires Collation(before) && Ascending(before, cases)
    requires forall k | k in Matching(store, failedOnly) :: k in cases
    requires forall i | 0 <= i < |cases| :: cases[i] in Matching(store, failedOnly)
    ensures cases == FirstRows(before, Matching(store, failedOnly), |store| + 1)
  {
    var all, n := Matching(store, failedOnly), |store| + 1;
    SubsetSize(all, store.Keys);
    FirstRowsOrdered(before, all, n);
    forall k | k in all ensures k in FirstRows(before, all, n) {
      FirstRowsComplete(before, all, n, k);
    }
    AscendingUnique(before, cases, FirstRows(before, all, n));
  }
}
