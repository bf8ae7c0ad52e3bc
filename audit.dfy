/**
 * The audit trail of the backend (backend/app/services/audit.py): an
 * append-only list of entries, modelled as the class AuditLog, with a
 * query that filters, orders newest first and truncates. Timestamps are
 * the ISO-8601 strings the entries store, compared the way Python
 * compares strings; the clock is a parameter.
 */
module Audit {
  import opened Wrappers

  datatype LogEntry = LogEntry(
    id: string, timestamp: string, actionType: string, userId: string,
    resourceId: Option<string>, details: map<string, string>)

  /** The id of the n-th entry ever logged, counting from 1. */
  function LogId(n: nat): (id: string)
    ensures |id| > 4 && id[..4] == "log_"
    ensures id[4..] == NatToString(n)
  {
    "log_" + NatToString(n)
  }

  /** Different positions get different ids. */
  lemma LogIdInjective(m: nat, n: nat)
    ensures LogId(m) == LogId(n) ==> m == n
  {
    if LogId(m) == LogId(n) {
      assert NatToString(m) == LogId(m)[4..] == LogId(n)[4..] == NatToString(n);
      NatToStringInjective(m, n);
    }
  }

  // ---------------------------------------------------------------------
  // Python string order
  // ---------------------------------------------------------------------

  /** `a <= b` on Python strings: lexicographic by code point, a proper
      prefix coming first. */
  predicate LexLe(a: string, b: string) {
    a == [] || (b != [] && (a[0] < b[0] || (a[0] == b[0] && LexLe(a[1..], b[1..]))))
  }

  lemma {:induction false} LexLeTotal(a: string, b: string)
    ensures LexLe(a, b) || LexLe(b, a)
  {
    if a != [] && b != [] && a[0] == b[0] {
      LexLeTotal(a[1..], b[1..]);
    }
  }

  lemma {:induction false} LexLeAntisymmetric(a: string, b: string)
    requires LexLe(a, b) && LexLe(b, a)
    ensures a == b
  {
    if a != [] && b != [] {
      LexLeAntisymmetric(a[1..], b[1..]);
      assert a == [a[0]] + a[1..] && b == [b[0]] + b[1..];
    }
  }

  lemma {:induction false} LexLeTransitive(a: string, b: string, c: string)
    requires LexLe(a, b) && LexLe(b, c)
    ensures LexLe(a, c)
  {
    if a != [] && b != [] && c != [] && a[0] == b[0] && b[0] == c[0] {
      LexLeTransitive(a[1..], b[1..], c[1..]);
    }
  }

  // ---------------------------------------------------------------------
  // Queries
  // ---------------------------------------------------------------------

  /** The parameters of `get_logs` other than the limit. */
  datatype LogQuery = LogQuery(
    userId: Option<string>, actionType: Option<string>, resourceId: Option<string>,
    startTime: Option<string>, endTime: Option<string>)

  /** A string parameter filters only when it is given and non-empty
      (Python truthiness); a given time always filters. */
  predicate Given(p: Option<string>) {
    p.Some? && p.value != ""
  }

  predicate LogMatches(e: LogEntry, q: LogQuery) {
    && (Given(q.userId) ==> e.userId == q.userId.value)
    && (Given(q.actionType) ==> e.actionType == q.actionType.value)
    && (Given(q.resourceId) ==> e.resourceId == Some(q.resourceId.value))
    && (q.startTime.Some? ==> LexLe(q.startTime.value, e.timestamp))
    && (q.endTime.Some? ==> LexLe(e.timestamp, q.endTime.value))
  }

  /** The successive comprehensions: the matching entries, in log order. */
  function FilterLogs(logs: seq<LogEntry>, q: LogQuery): (r: seq<LogEntry>)
    ensures |r| <= |logs|
    ensures forall i :: 0 <= i < |r| ==> LogMatches(r[i], q)
  {
    if logs == [] then []
    else (if LogMatches(logs[0], q) then [logs[0]] else []) + FilterLogs(logs[1..], q)
  }

  lemma {:induction false} FilterLogsSelects(logs: seq<LogEntry>, q: LogQuery, x: LogEntry)
    ensures multiset(FilterLogs(logs, q))[x] == if LogMatches(x, q) then multiset(logs)[x] else 0
  {
    if logs != [] {
      var head := if LogMatches(logs[0], q) then [logs[0]] else [];
      assert multiset(logs) == multiset([logs[0]]) + multiset(logs[1..]) by {
        assert logs == [logs[0]] + logs[1..];
      }
      assert multiset(FilterLogs(logs, q)) == multiset(head) + multiset(FilterLogs(logs[1..], q));
      FilterLogsSelects(logs[1..], q, x);
    }
  }

  /** The filter keeps log order: filtering a concatenation filters each
      part, and one entry is kept exactly when it matches. */
  lemma {:induction false} FilterLogsConcat(a: seq<LogEntry>, b: seq<LogEntry>, q: LogQuery)
    ensures FilterLogs(a + b, q) == FilterLogs(a, q) + FilterLogs(b, q)
    ensures forall x :: FilterLogs([x], q) == if LogMatches(x, q) then [x] else []
  {
    forall x ensures FilterLogs([x], q) == if LogMatches(x, q) then [x] else [] {
      assert [x][1..] == [];
    }
    if a == [] {
      assert a + b == b;
    } else {
      var head := if LogMatches(a[0], q) then [a[0]] else [];
      assert (a + b)[0] == a[0];
      assert (a + b)[1..] == a[1..] + b;
      FilterLogsConcat(a[1..], b, q);
      ConcatAssoc(head, FilterLogs(a[1..], q), FilterLogs(b, q));
    }
  }

  /** Newest first: timestamps never increase along the list. */
  predicate NewestFirst(s: seq<LogEntry>) {
    forall i, j :: 0 <= i < j < |s| ==> LexLe(s[j].timestamp, s[i].timestamp)
  }

  /** The entries of `s` with timestamp `t`, in their order in `s`. */
  function WithTimestamp(s: seq<LogEntry>, t: string): (r: seq<LogEntry>)
    ensures |r| <= |s|
  {
    if s == [] then []
    else (if s[0].timestamp == t then [s[0]] else []) + WithTimestamp(s[1..], t)
  }

  lemma {:induction false} WithTimestampAppend(s: seq<LogEntry>, x: LogEntry, t: string)
    ensures WithTimestamp(s + [x], t) == WithTimestamp(s, t) + (if x.timestamp == t then [x] else [])
  {
    if s == [] {
      assert s + [x] == [x];
    } else {
      var hs: seq<LogEntry> := if s[0].timestamp == t then [s[0]] else [];
      var xs: seq<LogEntry> := if x.timestamp == t then [x] else [];
      assert (s + [x])[0] == s[0];
      assert (s + [x])[1..] == s[1..] + [x];
      WithTimestampAppend(s[1..], x, t);
      assert WithTimestamp(s + [x], t) == hs + (WithTimestamp(s[1..], t) + xs);
      ConcatAssoc(hs, WithTimestamp(s[1..], t), xs);
    }
  }

  lemma {:induction false} WithTimestampConcat(a: seq<LogEntry>, b: seq<LogEntry>, t: string)
    ensures WithTimestamp(a + b, t) == WithTimestamp(a, t) + WithTimestamp(b, t)
  {
    if a == [] {
      assert a + b == b;
    } else {
      var head: seq<LogEntry> := if a[0].timestamp == t then [a[0]] else [];
      assert (a + b)[0] == a[0];
      assert (a + b)[1..] == a[1..] + b;
      WithTimestampConcat(a[1..], b, t);
      ConcatAssoc(head, WithTimestamp(a[1..], t), WithTimestamp(b, t));
    }
  }

  /** Picking the entries of one timestamp and filtering can be done in
      either order. */
  lemma {:induction false} WithTimestampFilterLogs(s: seq<LogEntry>, q: LogQuery, t: string)
    ensures WithTimestamp(FilterLogs(s, q), t) == FilterLogs(WithTimestamp(s, t), q)
  {
    if s != [] {
      var rest := s[1..];
      WithTimestampFilterLogs(rest, q, t);
      assert s == [s[0]] + rest;
      FilterLogsConcat([s[0]], rest, q);
      WithTimestampConcat([s[0]], rest, t);
      WithTimestampConcat(FilterLogs([s[0]], q), FilterLogs(rest, q), t);
      FilterLogsConcat(WithTimestamp([s[0]], t), WithTimestamp(rest, t), q);
      assert [s[0]][1..] == [];
      assert WithTimestamp(FilterLogs([s[0]], q), t) == FilterLogs(WithTimestamp([s[0]], t), q);
    }
  }

  lemma WithTimestampCons(a: LogEntry, s: seq<LogEntry>, t: string)
    ensures WithTimestamp([a] + s, t) == (if a.timestamp == t then [a] else []) + WithTimestamp(s, t)
  {
    assert ([a] + s)[1..] == s;
  }

  lemma {:induction false} WithTimestampNone(s: seq<LogEntry>, t: string)
    requires forall i :: 0 <= i < |s| ==> s[i].timestamp != t
    ensures WithTimestamp(s, t) == []
  {
    if s != [] {
      WithTimestampNone(s[1..], t);
    }
  }

  /** Places `x`, which comes after every entry of `sorted` in the input,
      behind every entry at least as new as it. */
  function Insert(x: LogEntry, sorted: seq<LogEntry>): (r: seq<LogEntry>)
    ensures |r| == |sorted| + 1
    ensures multiset(r) == multiset(sorted) + multiset{x}
  {
    if sorted == [] then [x]
    else if LexLe(x.timestamp, sorted[0].timestamp) then
      assert sorted == [sorted[0]] + sorted[1..];
      [sorted[0]] + Insert(x, sorted[1..])
    else [x] + sorted
  }

  lemma {:induction false} LexLeReflexive(a: string)
    ensures LexLe(a, a)
  {
    if a != [] {
      LexLeReflexive(a[1..]);
    }
  }

  /** No entry of `s` is newer than `t`. */
  predicate NotNewerThan(s: seq<LogEntry>, t: string) {
    forall i :: 0 <= i < |s| ==> LexLe(s[i].timestamp, t)
  }

  lemma {:induction false} InsertNotNewer(x: LogEntry, sorted: seq<LogEntry>, t: string)
    requires LexLe(x.timestamp, t) && NotNewerThan(sorted, t)
    ensures NotNewerThan(Insert(x, sorted), t)
  {
    if sorted != [] && LexLe(x.timestamp, sorted[0].timestamp) {
      InsertNotNewer(x, sorted[1..], t);
      var rest := Insert(x, sorted[1..]);
      assert forall i :: 1 <= i < |rest| + 1 ==> Insert(x, sorted)[i] == rest[i - 1];
    }
  }

  /** A list is newest first exactly when its head is not older than the
      rest and the rest is newest first. */
  lemma NewestFirstCons(a: LogEntry, s: seq<LogEntry>)
    ensures NewestFirst([a] + s) <==> NotNewerThan(s, a.timestamp) && NewestFirst(s)
  {
    var r := [a] + s;
    assert forall i :: 0 <= i < |s| ==> r[i + 1] == s[i];
    if NewestFirst(r) {
      forall i | 0 <= i < |s| ensures LexLe(s[i].timestamp, a.timestamp) {
        assert r[0] == a && r[i + 1] == s[i];
      }
      forall i, j | 0 <= i < j < |s| ensures LexLe(s[j].timestamp, s[i].timestamp) {
        assert r[i + 1] == s[i] && r[j + 1] == s[j];
      }
    }
    if NotNewerThan(s, a.timestamp) && NewestFirst(s) {
      forall i, j | 0 <= i < j < |r| ensures LexLe(r[j].timestamp, r[i].timestamp) {
        if i > 0 {
          assert r[i] == s[i - 1];
        }
      }
    }
  }

  lemma {:induction false} InsertSorted(x: LogEntry, sorted: seq<LogEntry>)
    requires NewestFirst(sorted)
    ensures NewestFirst(Insert(x, sorted))
  {
    if sorted == [] {
      NewestFirstCons(x, []);
    } else {
      var head := sorted[0];
      var tail := sorted[1..];
      assert sorted == [head] + tail;
      NewestFirstCons(head, tail);
      if LexLe(x.timestamp, head.timestamp) {
        InsertSorted(x, tail);
        InsertNotNewer(x, tail, head.timestamp);
        NewestFirstCons(head, Insert(x, tail));
      } else {
        LexLeTotal(x.timestamp, head.timestamp);
        forall i | 0 <= i < |sorted| ensures LexLe(sorted[i].timestamp, x.timestamp) {
          if i > 0 {
            LexLeTransitive(sorted[i].timestamp, head.timestamp, x.timestamp);
          }
        }
        NewestFirstCons(x, sorted);
      }
    }
  }

  /** When `x` goes first, every entry behind it is strictly older. */
  lemma OlderThanInserted(x: LogEntry, sorted: seq<LogEntry>)
    requires NewestFirst(sorted) && sorted != [] && !LexLe(x.timestamp, sorted[0].timestamp)
    ensures forall i :: 0 <= i < |sorted| ==> sorted[i].timestamp != x.timestamp
  {
    LexLeReflexive(x.timestamp);
    forall i | 0 <= i < |sorted| ensures sorted[i].timestamp != x.timestamp {
      assert i > 0 ==> LexLe(sorted[i].timestamp, sorted[0].timestamp);
    }
  }

  /** Inserting keeps, for every timestamp, the entries carrying it in
      their previous order, with `x` last among them. */
  lemma {:induction false} InsertStable(x: LogEntry, sorted: seq<LogEntry>, t: string)
    requires NewestFirst(sorted)
    ensures WithTimestamp(Insert(x, sorted), t)
      == WithTimestamp(sorted, t) + (if x.timestamp == t then [x] else [])
  {
    var xs: seq<LogEntry> := if x.timestamp == t then [x] else [];
    if sorted == [] {
      assert Insert(x, sorted) == [] + [x];
      WithTimestampAppend([], x, t);
    } else if LexLe(x.timestamp, sorted[0].timestamp) {
      var head := sorted[0];
      var tail := sorted[1..];
      assert sorted == [head] + tail;
      var hs: seq<LogEntry> := if head.timestamp == t then [head] else [];
      assert NewestFirst(tail) by { NewestFirstCons(head, tail); }
      InsertStable(x, tail, t);
      assert Insert(x, sorted) == [head] + Insert(x, tail);
      WithTimestampCons(head, Insert(x, tail), t);
      WithTimestampCons(head, tail, t);
      assert WithTimestamp(Insert(x, sorted), t) == hs + (WithTimestamp(tail, t) + xs);
      assert WithTimestamp(sorted, t) == hs + WithTimestamp(tail, t);
      ConcatAssoc(hs, WithTimestamp(tail, t), xs);
    } else {
      assert Insert(x, sorted) == [x] + sorted;
      WithTimestampCons(x, sorted, t);
      if x.timestamp == t {
        OlderThanInserted(x, sorted);
        WithTimestampNone(sorted, t);
        assert WithTimestamp(Insert(x, sorted), t) == [x] + [];
      } else {
        assert WithTimestamp(Insert(x, sorted), t) == [] + WithTimestamp(sorted, t);
      }
    }
  }

  /** Python's `sorted(..., key=timestamp, reverse=True)`: a stable sort,
      newest first, entries with equal timestamps kept in input order. */
  function SortNewestFirst(s: seq<LogEntry>): (r: seq<LogEntry>)
    ensures |r| == |s| && multiset(r) == multiset(s)
  {
    if s == [] then []
    else
      assert s == s[..|s| - 1] + [s[|s| - 1]];
      Insert(s[|s| - 1], SortNewestFirst(s[..|s| - 1]))
  }

  /** The sort orders newest first; it is a permutation by its own
      contract. */
  lemma {:induction false} SortNewestFirstSorted(s: seq<LogEntry>)
    ensures NewestFirst(SortNewestFirst(s))
  {
    if s != [] {
      var init := s[..|s| - 1];
      SortNewestFirstSorted(init);
      InsertSorted(s[|s| - 1], SortNewestFirst(init));
    }
  }

  /** The sort is stable: the entries sharing a timestamp keep their input
      order. */
  lemma {:induction false} SortNewestFirstStable(s: seq<LogEntry>, t: string)
    ensures WithTimestamp(SortNewestFirst(s), t) == WithTimestamp(s, t)
  {
    if s != [] {
      var init := s[..|s| - 1];
      var last := s[|s| - 1];
      assert s == init + [last];
      var ls: seq<LogEntry> := if last.timestamp == t then [last] else [];
      SortNewestFirstStable(init, t);
      SortNewestFirstSorted(init);
      InsertStable(last, SortNewestFirst(init), t);
      assert SortNewestFirst(s) == Insert(last, SortNewestFirst(init));
      assert WithTimestamp(SortNewestFirst(s), t) == WithTimestamp(init, t) + ls;
      WithTimestampAppend(init, last, t);
      assert WithTimestamp(init + [last], t) == WithTimestamp(init, t) + ls;
    }
  }

  /** `s[:limit]` in Python: a negative limit counts from the end. */
  function PySliceTo(s: seq<LogEntry>, limit: int): (r: seq<LogEntry>)
    ensures limit >= 0 ==> |r| == if limit < |s| then limit else |s|
    ensures limit < 0 ==> |r| == if |s| + limit > 0 then |s| + limit else 0
    ensures r == s[..|r|]
  {
    if limit >= 0 then (if limit < |s| then s[..limit] else s)
    else if |s| + limit > 0 then s[..|s| + limit]
    else []
  }

  /** Cutting a newest-first list short drops no entry newer than one it
      keeps. */
  lemma SliceKeepsNewest(sorted: seq<LogEntry>, n: nat)
    requires NewestFirst(sorted) && n <= |sorted|
    ensures forall x :: x in sorted && x !in sorted[..n] ==>
      forall i :: 0 <= i < n ==> LexLe(x.timestamp, sorted[i].timestamp)
  {
    forall x | x in sorted && x !in sorted[..n] ensures forall i :: 0 <= i < n ==> LexLe(x.timestamp, sorted[i].timestamp) {
      var k :| 0 <= k < |sorted| && sorted[k] == x;
      assert forall j :: 0 <= j < n ==> sorted[..n][j] == sorted[j];
      assert k >= n;
    }
  }

  /** Entries sharing a timestamp come back in log order: for every
      timestamp, those returned are the first of the matching entries
      with that timestamp, in the order they were logged. */
  lemma QueryLogsStable(logs: seq<LogEntry>, q: LogQuery, limit: int)
    ensures forall t :: WithTimestamp(QueryLogs(logs, q, limit), t) <= FilterLogs(WithTimestamp(logs, t), q)
  {
    var matching := FilterLogs(logs, q);
    var sorted := SortNewestFirst(matching);
    var r := PySliceTo(sorted, limit);
    assert sorted == r + sorted[|r|..];
    forall t ensures WithTimestamp(r, t) <= FilterLogs(WithTimestamp(logs, t), q) {
      WithTimestampConcat(r, sorted[|r|..], t);
      SortNewestFirstStable(matching, t);
      WithTimestampFilterLogs(logs, q, t);
    }
  }

  /** `get_logs` over a list of entries: filter, sort newest first, cut
      at `limit`. */
  function QueryLogs(logs: seq<LogEntry>, q: LogQuery, limit: int): (r: seq<LogEntry>)
    ensures limit >= 0 ==> |r| <= limit
  {
    PySliceTo(SortNewestFirst(FilterLogs(logs, q)), limit)
  }

  /** The query returns only matching entries from the log, newest first;
      with a limit no smaller than the number of matching entries it
      returns every one of them, and in any case it leaves out no matching
      entry that is newer than one it returns; entries sharing a timestamp
      keep their log order. */
  lemma QueryLogsCorrect(logs: seq<LogEntry>, q: LogQuery, limit: int)
    ensures var r := QueryLogs(logs, q, limit);
      && (forall i :: 0 <= i < |r| ==> LogMatches(r[i], q) && r[i] in logs)
      && NewestFirst(r)
      && (limit >= |FilterLogs(logs, q)| ==> multiset(r) == multiset(FilterLogs(logs, q)))
      && (forall x :: x in FilterLogs(logs, q) && x !in r ==>
            forall i :: 0 <= i < |r| ==> LexLe(x.timestamp, r[i].timestamp))
      && (forall t :: WithTimestamp(r, t) <= FilterLogs(WithTimestamp(logs, t), q))
  {
    var matching := FilterLogs(logs, q);
    var sorted := SortNewestFirst(matching);
    SortNewestFirstSorted(matching);
    var r := PySliceTo(sorted, limit);
    assert r == sorted[..|r|];
    assert forall i :: 0 <= i < |r| ==> r[i] == sorted[i];
    forall i | 0 <= i < |r| ensures LogMatches(r[i], q) && r[i] in logs {
      assert r[i] in multiset(matching);
      FilterLogsSelects(logs, q, r[i]);
    }
    assert forall x :: x in matching <==> x in sorted by {
      assert forall x :: x in matching <==> x in multiset(sorted);
    }
    SliceKeepsNewest(sorted, |r|);
    assert limit >= |matching| ==> r == sorted;
    QueryLogsStable(logs, q, limit);
  }

  // ---------------------------------------------------------------------
  // The log
  // ---------------------------------------------------------------------

  /** The `limit` of `get_logs` when the caller gives none. */
  const DefaultLogLimit: int := 100

  class AuditLog {
    var logs: seq<LogEntry>

    /** The entries are numbered in the order they were logged. */
    ghost predicate Valid()
      reads this
    {
      forall i :: 0 <= i < |logs| ==> logs[i].id == LogId(i + 1)
    }

    constructor ()
      ensures Valid() && logs == []
    {
      logs := [];
    }

    /** `log_action`: appends one entry numbered after the existing ones,
        with empty details when none are given, and returns it. */
    method LogAction(actionType: string, userId: string, resourceId: Option<string>,
                     details: Option<map<string, string>>, now: string) returns (entry: LogEntry)
      requires Valid()
      modifies this
      ensures Valid()
      ensures logs == old(logs) + [entry]
      ensures entry == LogEntry(LogId(|old(logs)| + 1), now, actionType, userId, resourceId, details.GetOr(map[]))
    {
      entry := LogEntry(LogId(|logs| + 1), now, actionType, userId, resourceId, details.GetOr(map[]));
      logs := logs + [entry];
    }

    /** `get_logs` over the current entries; the log is only read. A
        caller that gives no limit passes DefaultLogLimit. */
    function GetLogs(q: LogQuery, limit: int): (r: seq<LogEntry>)
      reads this
      ensures forall i :: 0 <= i < |r| ==> LogMatches(r[i], q) && r[i] in logs
      ensures NewestFirst(r)
      ensures limit >= 0 ==> |r| <= limit
      ensures limit >= |FilterLogs(logs, q)| ==> multiset(r) == multiset(FilterLogs(logs, q))
      ensures forall x :: x in FilterLogs(logs, q) && x !in r ==>
                forall i :: 0 <= i < |r| ==> LexLe(x.timestamp, r[i].timestamp)
      ensures forall t :: WithTimestamp(r, t) <= FilterLogs(WithTimestamp(logs, t), q)
    {
      QueryLogsCorrect(logs, q, limit);
      QueryLogs(logs, q, limit)
    }
  }

  /** In a well-numbered log no two entries share an id. */
  lemma LogIdsDistinct(logs: seq<LogEntry>)
    requires forall i :: 0 <= i < |logs| ==> logs[i].id == LogId(i + 1)
    ensures forall i, j :: 0 <= i < j < |logs| ==> logs[i].id != logs[j].id
  {
    forall i, j | 0 <= i < j < |logs| ensures logs[i].id != logs[j].id {
      LogIdInjective(i + 1, j + 1);
    }
  }
}
