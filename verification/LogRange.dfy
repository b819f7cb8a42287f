/** Reading a block range of logs by adaptive bisection. */
module LogRange {
  // The provider of `get_logs` (`robinhood.py`) may truncate any answer of a thousand rows or more.

  import opened Wrappers

  /** A log of the queried address and topics when `matches`, at its place in the chain. */
  datatype Log = Log(tx: nat, logIndex: nat, block: int, txIndex: nat, matches: bool)

  datatype Key = Key(tx: nat, logIndex: nat)

  function KeyOf(log: Log): Key {
    Key(log.tx, log.logIndex)
  }

  const ROW_LIMIT := 1000

  /** Chain order: block, transaction, log. */
  predicate Before(a: Log, b: Log) {
    a.block < b.block || (a.block == b.block
                          && (a.txIndex < b.txIndex || (a.txIndex == b.txIndex && a.logIndex < b.logIndex)))
  }

  /** The logs that exist: one place and one key each. */
  ghost predicate IsArchive(archive: set<Log>) {
    && (forall x :: x in archive ==> x.matches)
    && forall x, y :: x in archive && y in archive && x != y ==> KeyOf(x) != KeyOf(y) && (Before(x, y) || Before(y, x))
  }

  predicate InRange(x: Log, start: int, end: int) {
    start <= x.block <= end
  }

  /** Answers by chunk size and block range; nothing when the answer is not a list. */
  type Provider = (nat, int, int) -> Option<seq<Log>>

  ghost predicate Exact(archive: set<Log>, rows: seq<Log>, start: int, end: int) {
    forall x :: x in rows <==> x in archive && InRange(x, start, end)
  }

  predicate Acceptable(row: Log, start: int, end: int) {
    row.matches && InRange(row, start, end)
  }

  /** No log of the range is missing, and rows that look right are real; other rows may be mixed in. */
  ghost predicate Faithful(archive: set<Log>, rows: seq<Log>, start: int, end: int) {
    && (forall x :: x in archive && InRange(x, start, end) ==> x in rows)
    && forall x :: x in rows && Acceptable(x, start, end) ==> x in archive
  }

  /** An answer below the row limit is complete; a longer one may hold anything. */
  ghost predicate Honest(provider: Provider, archive: set<Log>) {
    forall c: nat, l: int, r: int ::
      provider(c, l, r).Some? && |provider(c, l, r).value| < ROW_LIMIT ==>
          Faithful(archive, provider(c, l, r).value, l, r)
  }

  ghost predicate AllAcceptable(rows: seq<Log>, n: nat, start: int, end: int)
    requires n <= |rows|
  {
    forall i :: 0 <= i < n ==> Acceptable(rows[i], start, end)
  }

  /** A provider that always answers, with proper rows only, and never truncates a single block. */
  ghost predicate Cooperative(provider: Provider) {
    && (forall c: nat, l: int, r: int ::
        provider(c, l, r).Some?
        && AllAcceptable(provider(c, l, r).value, |provider(c, l, r).value|, l, r))
    && forall c: nat, l: int :: provider(c, l, l).Some? ==> |provider(c, l, l).value| < ROW_LIMIT
  }

  ghost predicate Ordered(rows: seq<Log>) {
    forall i, j :: 0 <= i < j < |rows| ==> Before(rows[i], rows[j])
  }

  /** Exactly the matching logs of the range, once each and in chain order. */
  ghost predicate IsAnswer(archive: set<Log>, rows: seq<Log>, start: int, end: int) {
    Exact(archive, rows, start, end) && Ordered(rows)
  }

  // ---- collecting by key ----

  /** The logs collected so far: those of the archive in the blocks read. */
  ghost predicate Holds(archive: set<Log>, output: map<Key, Log>, start: int, end: int) {
    && (forall k :: k in output ==> output[k] in archive && InRange(output[k], start, end) && KeyOf(output[k]) == k)
    && forall x :: x in archive && InRange(x, start, end) ==> KeyOf(x) in output && output[KeyOf(x)] == x
  }

  lemma HoldsNothing(archive: set<Log>, start: int)
    ensures Holds(archive, map[], start, start - 1)
  {}

  /** Rows of a further block range, all added. */
  ghost predicate Added(archive: set<Log>, before: map<Key, Log>, rows: seq<Log>, n: nat, output: map<Key, Log>)
    requires n <= |rows|
  {
    && (forall k :: k in before ==> k in output && output[k] == before[k])
    && (forall i :: 0 <= i < n ==> KeyOf(rows[i]) in output && output[KeyOf(rows[i])] == rows[i])
    && forall k :: k in output ==> k in before || exists i :: 0 <= i < n && output[k] == rows[i] && KeyOf(rows[i]) == k
  }

  lemma AddOne(archive: set<Log>, start: int, left: int, right: int, before: map<Key, Log>, rows: seq<Log>, n: nat,
               output: map<Key, Log>)
    requires IsArchive(archive) && start <= left <= right && Holds(archive, before, start, left - 1)
    requires Faithful(archive, rows, left, right)
    requires n < |rows| && Added(archive, before, rows, n, output) && AllAcceptable(rows, n + 1, left, right)
    ensures Added(archive, before, rows, n + 1, output[KeyOf(rows[n]) := rows[n]])
  {
    var row := rows[n];
    assert row in rows && row in archive && InRange(row, left, right);
    forall k | k in before ensures before[k] != row && k != KeyOf(row) {
      assert before[k] in archive && InRange(before[k], start, left - 1);
    }
    forall i | 0 <= i < n && KeyOf(rows[i]) == KeyOf(row) ensures rows[i] == row {
      assert rows[i] in rows && Acceptable(rows[i], left, right);
    }
  }

  lemma AllAdded(archive: set<Log>, start: int, left: int, right: int, before: map<Key, Log>, rows: seq<Log>,
                 output: map<Key, Log>)
    requires start <= left <= right && Holds(archive, before, start, left - 1) && Faithful(archive, rows, left, right)
    requires Added(archive, before, rows, |rows|, output) && AllAcceptable(rows, |rows|, left, right)
    ensures Holds(archive, output, start, right)
  {
    forall k | k in output ensures output[k] in archive && InRange(output[k], start, right) && KeyOf(output[k]) == k {
      if k !in before {
        var i :| 0 <= i < |rows| && output[k] == rows[i] && KeyOf(rows[i]) == k;
        assert rows[i] in rows && Acceptable(rows[i], left, right);
      }
    }
    forall x | x in archive && InRange(x, start, right) ensures KeyOf(x) in output && output[KeyOf(x)] == x {
      if InRange(x, left, right) {
        assert x in rows;
        var i :| 0 <= i < |rows| && rows[i] == x;
      } else {
        assert InRange(x, start, left - 1);
        assert KeyOf(x) in before;
      }
    }
  }

  // ---- sorting the collected values ----

  method Insert(rows: seq<Log>, x: Log) returns (longer: seq<Log>)
    requires Ordered(rows) && forall y :: y in rows ==> Before(x, y) || Before(y, x)
    ensures Ordered(longer) && forall y :: y in longer <==> y in rows || y == x
  {
    hide Ordered;
    var k := |rows|;
    while k > 0 && Before(x, rows[k - 1])
      invariant 0 <= k <= |rows| && forall j :: k <= j < |rows| ==> Before(x, rows[j])
    {
      k := k - 1;
    }
    longer := rows[..k] + [x] + rows[k..];
    if k > 0 {
      assert rows[k - 1] in rows;
    }
    InsertKeepsOrder(rows, x, k);
    InsertKeepsRows(rows, x, k);
  }

  lemma InsertKeepsRows(rows: seq<Log>, x: Log, k: nat)
    requires k <= |rows|
    ensures forall y :: y in rows[..k] + [x] + rows[k..] <==> y in rows || y == x
  {
    assert rows == rows[..k] + rows[k..];
  }

  lemma InsertKeepsOrder(rows: seq<Log>, x: Log, k: nat)
    requires k <= |rows| && Ordered(rows)
    requires k > 0 ==> Before(rows[k - 1], x)
    requires forall j :: k <= j < |rows| ==> Before(x, rows[j])
    ensures Ordered(rows[..k] + [x] + rows[k..])
  {
    var longer := rows[..k] + [x] + rows[k..];
    forall i | 0 <= i < k ensures Before(rows[i], x) {
      if i < k - 1 {
        BeforeTransitive(rows[i], rows[k - 1], x);
      }
    }
    hide Before;
    forall i, j | 0 <= i < j < |longer| ensures Before(longer[i], longer[j]) {
      assert longer[i] == if i < k then rows[i] else if i == k then x else rows[i - 1];
      assert longer[j] == if j < k then rows[j] else if j == k then x else rows[j - 1];
    }
  }

  lemma BeforeTransitive(a: Log, b: Log, c: Log)
    requires Before(a, b) && Before(b, c)
    ensures Before(a, c)
  {}

  method SortValues(ghost archive: set<Log>, output: map<Key, Log>, ghost start: int, ghost end: int)
    returns (rows: seq<Log>)
    requires IsArchive(archive) && Holds(archive, output, start, end)
    ensures IsAnswer(archive, rows, start, end)
  {
    rows := [];
    var todo := output.Keys;
    while todo != {}
      invariant todo <= output.Keys && Ordered(rows)
      invariant forall y :: y in rows <==> exists k :: k in output && k !in todo && output[k] == y
      decreases todo
    {
      var k :| k in todo;
      hide IsAnswer, Exact;
      forall y | y in rows ensures Before(output[k], y) || Before(y, output[k]) {
        var j :| j in output && j !in todo && output[j] == y;
        assert KeyOf(y) == j && KeyOf(output[k]) == k;
      }
      hide Ordered, Before, IsArchive;
      rows := Insert(rows, output[k]);
      todo := todo - {k};
    }
    forall x ensures x in rows <==> x in archive && InRange(x, start, end) {
      if x in archive && InRange(x, start, end) {
        assert KeyOf(x) in output && output[KeyOf(x)] == x;
      }
    }
  }

  // ---- get_logs ----

  lemma HonestAnswer(provider: Provider, archive: set<Log>, c: nat, l: int, r: int)
    requires Honest(provider, archive) && provider(c, l, r).Some? && |provider(c, l, r).value| < ROW_LIMIT
    ensures Faithful(archive, provider(c, l, r).value, l, r)
  {}

  method AddRows(ghost archive: set<Log>, ghost start: int, left: int, right: int, before: map<Key, Log>,
                 rows: seq<Log>)
    returns (ok: bool, output: map<Key, Log>)
    requires IsArchive(archive) && start <= left <= right && Holds(archive, before, start, left - 1)
    requires Faithful(archive, rows, left, right)
    ensures ok ==> Holds(archive, output, start, right)
    ensures ok <==> AllAcceptable(rows, |rows|, left, right)
  {
    hide IsArchive, Holds, Faithful, Added;
    output := before;
    NothingAdded(archive, before, rows);
    for n := 0 to |rows|
      invariant Added(archive, before, rows, n, output) && AllAcceptable(rows, n, left, right)
    {
      if !Acceptable(rows[n], left, right) {
        return false, output;
      }
      AddOne(archive, start, left, right, before, rows, n, output);
      output := output[KeyOf(rows[n]) := rows[n]];
    }
    AllAdded(archive, start, left, right, before, rows, output);
    return true, output;
  }

  lemma NothingAdded(archive: set<Log>, before: map<Key, Log>, rows: seq<Log>)
    ensures Added(archive, before, rows, 0, before)
  {}

  /** Rows read in smaller chunks are exact. */
  lemma ExactRows(archive: set<Log>, rows: seq<Log>, left: int, right: int)
    requires IsArchive(archive) && Exact(archive, rows, left, right)
    ensures Faithful(archive, rows, left, right) && AllAcceptable(rows, |rows|, left, right)
  {
    forall i | 0 <= i < |rows| ensures Acceptable(rows[i], left, right) {
      assert rows[i] in rows;
    }
  }

  /** The last block of a chunk. */
  function ChunkEnd(left: int, end: int, chunkSize: nat): int {
    if end < left + chunkSize - 1 then end else left + chunkSize - 1
  }

  function Half(chunkSize: nat): nat {
    if chunkSize / 2 < 1 then 1 else chunkSize / 2
  }

  /** Each chunk has an answer below the row limit with proper rows only, or it is split and its halves are served. */
  ghost predicate Served(provider: Provider, left: int, end: int, chunkSize: nat)
    requires chunkSize >= 1
    decreases chunkSize, end - left
  {
    left <= end ==>
      var right := ChunkEnd(left, end, chunkSize);
      var answer := provider(chunkSize, left, right);
      && answer.Some?
      && (if |answer.value| >= ROW_LIMIT then left < right && Served(provider, left, right, Half(chunkSize))
          else AllAcceptable(answer.value, |answer.value|, left, right))
      && Served(provider, right + 1, end, chunkSize)
  }

  /** A provider that cooperates serves every range. */
  lemma {:induction false} CooperationServes(provider: Provider, left: int, end: int, chunkSize: nat)
    requires Cooperative(provider) && chunkSize >= 1
    ensures Served(provider, left, end, chunkSize)
    decreases chunkSize, end - left
  {
    if left <= end {
      var right := ChunkEnd(left, end, chunkSize);
      Cooperates(provider, chunkSize, left, right);
      hide AllAcceptable;
      if left < right {
        CooperationServes(provider, left, right, Half(chunkSize));
      }
      CooperationServes(provider, right + 1, end, chunkSize);
    }
  }

  /**
   The whole range or an error: a chunk that may be truncated is read again in smaller chunks,
   down to one block. It fails exactly when one of the chunks it asks for is not served.
   */
  method GetLogs(provider: Provider, ghost archive: set<Log>, start: int, end: int, chunkSize: nat)
    returns (r: Option<seq<Log>>)
    requires IsArchive(archive) && Honest(provider, archive) && chunkSize >= 1
    ensures r.Some? ==> IsAnswer(archive, r.value, start, if start <= end then end else start - 1)
    ensures r.Some? <==> Served(provider, start, end, chunkSize)
    decreases chunkSize
  {
    hide IsArchive, Honest, Holds, Exact, Faithful, AllAcceptable;
    var output: map<Key, Log> := map[];
    HoldsNothing(archive, start);
    var left := start;
    while left <= end
      invariant start <= left
      invariant Holds(archive, output, start, if left <= end then left - 1 else if start <= end then end else start - 1)
      invariant Served(provider, start, end, chunkSize) <==> Served(provider, left, end, chunkSize)
      decreases end - left
    {
      var right := ChunkEnd(left, end, chunkSize);
      var answer := provider(chunkSize, left, right);
      if answer.None? {
        return None;
      }
      var rows := answer.value;
      if |rows| >= ROW_LIMIT {
        if left == right {
          return None;
        }
        var inner := GetLogs(provider, archive, left, right, Half(chunkSize));
        if inner.None? {
          return None;
        }
        rows := inner.value;
        ExactRows(archive, rows, left, right);
      } else {
        HonestAnswer(provider, archive, chunkSize, left, right);
      }
      var ok;
      ok, output := AddRows(archive, start, left, right, output, rows);
      if !ok {
        return None;
      }
      left := left + chunkSize;
    }
    var sorted := SortValues(archive, output, start, if start <= end then end else start - 1);
    return Some(sorted);
  }

  lemma Cooperates(provider: Provider, c: nat, l: int, r: int)
    ensures Cooperative(provider) ==>
              provider(c, l, r).Some? && AllAcceptable(provider(c, l, r).value, |provider(c, l, r).value|, l, r)
    ensures Cooperative(provider) && l == r ==> |provider(c, l, r).value| < ROW_LIMIT
  {}
}
