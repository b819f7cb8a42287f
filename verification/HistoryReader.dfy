/** A bounded, resumable read of a window, newest first. */
module HistoryReader {
  // The archive does not change. A provider lists the window in descending time and may cut it
  // anywhere; a cursor is a place in that provider's own listing of that window and means nothing
  // anywhere else.

  import opened Wrappers
  import opened Ranges
  import opened HistoryTasks

  datatype Tx = Tx(id: string, time: int)

  /** What a provider would list for a window, in full. */
  type Listing = (Provider, int, int) -> seq<Tx>

  datatype Request = Request(cursor: Option<nat>, provider: Option<Provider>, excluded: set<Provider>,
                             archiveTask: bool, lo: int, hi: int)

  /** `Failed` is a call that raises, `Malformed` a page that fails validation. */
  datatype Response =
    | Failed
    | Malformed(provider: Provider)
    | Page(rows: seq<Tx>, next: Option<nat>, provider: Provider)

  /** The answer to the k-th call of a run may depend on everything that went before. */
  type Fetch = (nat, Request) -> Response

  type NextProvider = (set<Provider>, bool) -> Option<Provider>

  // ---- what is assumed of the archive and of the providers ----

  predicate Descending(rows: seq<Tx>) {
    forall i, j :: 0 <= i < j < |rows| ==> rows[i].time >= rows[j].time
  }

  /** Every provider lists exactly the archive's transactions of the window, newest first. */
  ghost predicate ListsArchive(archive: set<Tx>, listing: Listing) {
    forall p, lo, hi :: ListsWindow(archive, listing(p, lo, hi), lo, hi)
  }

  ghost predicate ListsWindow(archive: set<Tx>, rows: seq<Tx>, lo: int, hi: int) {
    Descending(rows) && forall tx :: tx in rows <==> tx in archive && lo <= tx.time <= hi
  }

  /** A named provider answers itself; an unnamed one is not excluded. Pages follow the listing. */
  ghost predicate Honest(listing: Listing, req: Request, resp: Response) {
    && (resp.Malformed? || resp.Page? ==>
          if req.provider.Some? then resp.provider == req.provider.value else resp.provider !in req.excluded)
    && (resp.Page? ==>
          var all := listing(resp.provider, req.lo, req.hi);
          var at := if req.cursor.Some? then req.cursor.value else 0;
          at <= |all| ==>
            && at + |resp.rows| <= |all| && resp.rows == all[at..at + |resp.rows|]
            && (resp.next.None? ==> at + |resp.rows| == |all|)
            && (resp.next.Some? ==> resp.next.value <= at + |resp.rows|))
  }

  ghost predicate HonestFetch(listing: Listing, fetch: Fetch) {
    forall k, req :: Honest(listing, req, fetch(k, req))
  }

  ghost predicate Respects(next: NextProvider, all: set<Provider>) {
    forall excluded, kind :: next(excluded, kind).Some? ==> next(excluded, kind).value in all - excluded
  }

  // ---- what a task promises ----

  ghost predicate ReadIn(archive: set<Tx>, lo: int, hi: int, known: set<Tx>) {
    forall tx :: tx in archive && lo <= tx.time <= hi ==> tx in known
  }

  /** A stored cursor belongs to its provider, and everything listed before it has been read. */
  ghost predicate CursorOk(listing: Listing, task: Task, known: set<Tx>) {
    task.cursor.Some? ==>
      && task.provider.Some?
      && var all := listing(task.provider.value, task.lo, task.to);
         task.cursor.value <= |all| && forall tx :: tx in all[..task.cursor.value] ==> tx in known
  }

  ghost predicate TaskOk(listing: Listing, task: Task, known: set<Tx>) {
    task.remainingTo <= task.to && CursorOk(listing, task, known)
  }

  lemma TaskOkGrows(listing: Listing, task: Task, known: set<Tx>, more: set<Tx>)
    requires TaskOk(listing, task, known) && known <= more
    ensures TaskOk(listing, task, more)
  {}

  ghost predicate AllRead(archive: set<Tx>, covered: seq<Range>, known: set<Tx>) {
    forall i :: 0 <= i < |covered| ==> ReadIn(archive, covered[i].lo, covered[i].hi, known)
  }

  /** Some page that a provider answered with shows the transaction. */
  ghost predicate Shown(fetch: Fetch, tx: Tx) {
    exists k, req :: fetch(k, req).Page? && tx in fetch(k, req).rows
  }

  ghost predicate AllShown(fetch: Fetch, transactions: seq<Tx>) {
    forall tx :: tx in transactions ==> Shown(fetch, tx)
  }

  lemma ShownOnTop(fetch: Fetch, transactions: seq<Tx>, k: nat, req: Request)
    requires AllShown(fetch, transactions) && fetch(k, req).Page?
    ensures AllShown(fetch, transactions + fetch(k, req).rows)
  {}

  lemma AllReadSeconds(archive: set<Tx>, covered: seq<Range>, known: set<Tx>)
    ensures AllRead(archive, covered, known)
            <==> forall tx :: tx in archive && Covered(covered, tx.time) ==> tx in known
  {
    if AllRead(archive, covered, known) {
      forall tx | tx in archive && Covered(covered, tx.time) ensures tx in known {
        var i :| 0 <= i < |covered| && covered[i].lo <= tx.time <= covered[i].hi;
        assert ReadIn(archive, covered[i].lo, covered[i].hi, known);
      }
    }
  }

  // ---- one page ----

  function Oldest(rows: seq<Tx>): int
    requires rows != []
  {
    rows[|rows| - 1].time
  }

  function TxSet(rows: seq<Tx>): (r: set<Tx>)
    ensures forall tx :: tx in r <==> tx in rows
  {
    set tx | tx in rows
  }

  /** The minimum of a page's times, as a scan over the page finds it. */
  method OldestTime(rows: seq<Tx>) returns (oldest: int)
    requires rows != []
    ensures forall tx :: tx in rows ==> oldest <= tx.time
    ensures Descending(rows) ==> oldest == Oldest(rows)
  {
    oldest := rows[0].time;
    for i := 1 to |rows|
      invariant forall k :: 0 <= k < i ==> oldest <= rows[k].time
      invariant exists k :: 0 <= k < i && oldest == rows[k].time
    {
      if rows[i].time < oldest { oldest := rows[i].time; }
    }
  }

  /**
   After a page, everything newer than its oldest row has been read: the rest of the listing
   is not newer, and only the oldest second itself may continue on the next page.
   */
  lemma PageReads(archive: set<Tx>, listing: Listing, req: Request, resp: Response, known: set<Tx>)
    requires ListsArchive(archive, listing) && Honest(listing, req, resp) && resp.Page?
    requires CursorOk(listing, Task(req.lo, req.hi, req.hi, req.cursor, Some(resp.provider)), known)
    ensures var more := known + TxSet(resp.rows);
            && (resp.next.None? ==> ReadIn(archive, req.lo, req.hi, more))
            && (resp.rows != [] ==> ReadIn(archive, Max(req.lo, Oldest(resp.rows) + 1), req.hi, more))
            && CursorOk(listing, Task(req.lo, req.hi, req.hi, resp.next, Some(resp.provider)), more)
            && (forall tx :: tx in resp.rows ==> req.lo <= tx.time <= req.hi && tx in archive)
            && Descending(resp.rows)
  {
    var all := listing(resp.provider, req.lo, req.hi);
    var at := if req.cursor.Some? then req.cursor.value else 0;
    assert ListsWindow(archive, all, req.lo, req.hi);
    PrefixRead(all, at, resp.rows, known);
    hide Descending, ListsArchive, Honest, TxSet, ListsWindow, ReadIn;
    PageRows(archive, all, at, resp.rows, req.lo, req.hi);
    PageCovers(archive, all, at, resp.rows, req.lo, req.hi, known + TxSet(resp.rows));
  }

  /** Once a prefix of the listing is known, so is its window above the prefix's last row. */
  lemma PageCovers(archive: set<Tx>, all: seq<Tx>, at: nat, rows: seq<Tx>, lo: int, hi: int, more: set<Tx>)
    requires ListsWindow(archive, all, lo, hi) && at + |rows| <= |all| && rows == all[at..at + |rows|]
    requires forall k :: 0 <= k < at + |rows| ==> all[k] in more
    ensures at + |rows| == |all| ==> ReadIn(archive, lo, hi, more)
    ensures rows != [] ==> ReadIn(archive, Max(lo, Oldest(rows) + 1), hi, more)
    ensures forall next :: 0 <= next <= at + |rows| ==> forall tx :: tx in all[..next] ==> tx in more
  {
    var end := at + |rows|;
    assert rows != [] ==> Oldest(rows) == all[end - 1].time;
    hide ListsWindow, Oldest;
    forall tx | tx in archive && lo <= tx.time <= hi
                && (end == |all| || (rows != [] && tx.time > all[end - 1].time))
      ensures tx in more
    {
      var k := InPrefix(archive, all, end, tx, lo, hi);
    }
  }

  lemma PrefixRead(all: seq<Tx>, at: nat, rows: seq<Tx>, known: set<Tx>)
    requires at + |rows| <= |all| && rows == all[at..at + |rows|] && forall tx :: tx in all[..at] ==> tx in known
    ensures forall k :: 0 <= k < at + |rows| ==> all[k] in known + TxSet(rows)
  {
    forall k | 0 <= k < at + |rows| ensures all[k] in known + TxSet(rows) {
      if k < at { assert all[k] in all[..at]; } else { assert all[k] == rows[k - at]; }
    }
  }

  lemma PageRows(archive: set<Tx>, all: seq<Tx>, at: nat, rows: seq<Tx>, lo: int, hi: int)
    requires ListsWindow(archive, all, lo, hi) && at + |rows| <= |all| && rows == all[at..at + |rows|]
    ensures Descending(rows) && forall tx :: tx in rows ==> lo <= tx.time <= hi && tx in archive
    ensures rows != [] ==> Oldest(rows) == all[at + |rows| - 1].time
  {
    forall tx | tx in rows ensures lo <= tx.time <= hi && tx in archive {
      var k :| 0 <= k < |rows| && rows[k] == tx;
      assert all[at + k] == tx && tx in all;
    }
  }

  /** A transaction newer than the last row of a prefix, or any at all if the prefix is everything, is in it. */
  lemma InPrefix(archive: set<Tx>, all: seq<Tx>, end: nat, tx: Tx, lo: int, hi: int) returns (k: nat)
    requires ListsWindow(archive, all, lo, hi) && end <= |all| && tx in archive && lo <= tx.time <= hi
    requires end == |all| || (end > 0 && tx.time > all[end - 1].time)
    ensures k < end && all[k] == tx
  {
    assert tx in all;
    k :| 0 <= k < |all| && all[k] == tx;
  }

  // ---- the read loop ----

  datatype Outcome = Outcome(pages: nat, complete: bool, failed: bool, stalled: bool, calls: nat)

  /** What one read hands back, against the range asked for and what was read before. */
  ghost predicate ReadResult(archive: set<Tx>, listing: Listing, task: Task, known: set<Tx>, transactions: seq<Tx>,
                             covered: seq<Range>, pending: Option<Task>)
  {
    var more := known + TxSet(transactions);
    && AllRead(archive, covered, more)
    && (forall i :: 0 <= i < |covered| ==> task.lo <= covered[i].lo && covered[i].hi <= task.to)
    && (pending.None? ==> forall t :: task.lo <= t <= task.remainingTo ==> Covered(covered, t))
    && (pending.Some? ==>
          && TaskOk(listing, pending.value, more)
          && pending.value.lo == task.lo && pending.value.remainingTo <= task.remainingTo
          && (task.lo <= task.remainingTo ==> task.lo <= pending.value.remainingTo)
          && forall t :: pending.value.remainingTo < t <= task.remainingTo ==> Covered(covered, t))
    && (forall tx :: tx in transactions ==> tx in archive)
  }

  /** The loop state as a result that could be returned at any point. */
  ghost predicate Reading(archive: set<Tx>, listing: Listing, task: Task, known: set<Tx>, transactions: seq<Tx>,
                          covered: seq<Range>, current: Task)
  {
    && ReadResult(archive, listing, task, known, transactions, covered, Some(current))
    && current.to <= task.to
  }

  lemma AllReadGrows(archive: set<Tx>, covered: seq<Range>, known: set<Tx>, more: set<Tx>)
    requires AllRead(archive, covered, known) && known <= more
    ensures AllRead(archive, covered, more)
  {
    forall i | 0 <= i < |covered| ensures ReadIn(archive, covered[i].lo, covered[i].hi, more) {
      assert ReadIn(archive, covered[i].lo, covered[i].hi, known);
    }
  }

  /** A fresh start at the unread part, at any provider. */
  lemma Restarted(archive: set<Tx>, listing: Listing, task: Task, known: set<Tx>, transactions: seq<Tx>,
                  covered: seq<Range>, current: Task, provider: Option<Provider>)
    requires Reading(archive, listing, task, known, transactions, covered, current)
    ensures Reading(archive, listing, task, known, transactions, covered,
                    Task(current.lo, current.remainingTo, current.remainingTo, None, provider))
  {}

  /** The covered ranges after a page that is not the last. */
  function CoverPage(covered: seq<Range>, rows: seq<Tx>, remainingTo: int): seq<Range> {
    if rows != [] && Oldest(rows) < remainingTo then covered + [Range(Oldest(rows) + 1, remainingTo)] else covered
  }

  function RemainingAfter(rows: seq<Tx>, remainingTo: int): int {
    if rows != [] && Oldest(rows) < remainingTo then Oldest(rows) else remainingTo
  }

  lemma ReadOnTop(archive: set<Tx>, covered: seq<Range>, r: Range, known: set<Tx>)
    requires AllRead(archive, covered, known) && ReadIn(archive, r.lo, r.hi, known)
    ensures AllRead(archive, covered + [r], known)
  {}

  lemma KnownGrows(known: set<Tx>, transactions: seq<Tx>, rows: seq<Tx>)
    ensures known + TxSet(transactions + rows) == known + TxSet(transactions) + TxSet(rows)
  {}

  /** The last page of the window: everything in it has been read. */
  lemma LastPageTaken(archive: set<Tx>, listing: Listing, task: Task, known: set<Tx>, transactions: seq<Tx>,
                      covered: seq<Range>, current: Task, req: Request, resp: Response)
    requires Reading(archive, listing, task, known, transactions, covered, current)
    requires ListsArchive(archive, listing) && Honest(listing, req, resp) && resp.Page? && resp.next.None?
    requires req.lo == current.lo && req.hi == current.to && req.cursor == current.cursor
    requires req.provider == current.provider
    ensures ReadResult(archive, listing, task, known, transactions + resp.rows,
                       covered + [Range(current.lo, current.to)], None)
  {
    var before, after := known + TxSet(transactions), known + TxSet(transactions + resp.rows);
    KnownGrows(known, transactions, resp.rows);
    PageReads(archive, listing, req, resp, before);
    AllReadGrows(archive, covered, before, after);
    ReadOnTop(archive, covered, Range(current.lo, current.to), after);
    hide ListsArchive, Honest, TxSet, CursorOk, AllRead, ReadIn;
    var all := covered + [Range(current.lo, current.to)];
    forall t | task.lo <= t <= task.remainingTo ensures Covered(all, t) {
      Appended(covered, Range(current.lo, current.to), t);
    }
  }

  /** Any other page: all but its oldest second has been read. */
  lemma PageTaken(archive: set<Tx>, listing: Listing, task: Task, known: set<Tx>, transactions: seq<Tx>,
                  covered: seq<Range>, current: Task, req: Request, resp: Response)
    requires Reading(archive, listing, task, known, transactions, covered, current)
    requires ListsArchive(archive, listing) && Honest(listing, req, resp) && resp.Page? && resp.next.Some?
    requires req.lo == current.lo && req.hi == current.to && req.cursor == current.cursor
    requires req.provider == current.provider
    ensures Reading(archive, listing, task, known, transactions + resp.rows,
                    CoverPage(covered, resp.rows, current.remainingTo),
                    Task(current.lo, current.to, RemainingAfter(resp.rows, current.remainingTo), resp.next,
                         Some(resp.provider)))
  {
    var before, after := known + TxSet(transactions), known + TxSet(transactions + resp.rows);
    KnownGrows(known, transactions, resp.rows);
    PageReads(archive, listing, req, resp, before);
    AllReadGrows(archive, covered, before, after);
    var remaining := RemainingAfter(resp.rows, current.remainingTo);
    var all := CoverPage(covered, resp.rows, current.remainingTo);
    assert resp.rows == [] || resp.rows[|resp.rows| - 1] in resp.rows;
    assert resp.rows != [] ==> current.lo <= Oldest(resp.rows);
    assert AllRead(archive, all, after) by {
      if all != covered {
        assert ReadIn(archive, Oldest(resp.rows) + 1, current.remainingTo, after);
        ReadOnTop(archive, covered, Range(Oldest(resp.rows) + 1, current.remainingTo), after);
      }
    }
    hide ListsArchive, Honest, TxSet, AllRead, ReadIn;
    forall t | remaining < t <= task.remainingTo ensures Covered(all, t) {
      Appended(covered, Range(remaining + 1, current.remainingTo), t);
    }
    assert CursorOk(listing, Task(req.lo, req.hi, req.hi, resp.next, Some(resp.provider)), after);
  }

  predicate RowsValid(rows: seq<Tx>, lo: int, hi: int) {
    forall i :: 0 <= i < |rows| ==> lo <= rows[i].time <= hi && rows[i].time > 0
  }

  ghost function Untried(all: set<Provider>, excluded: set<Provider>, provider: Option<Provider>): nat {
    |all - excluded| + (if provider.Some? && provider.value in all then 0 else 1)
  }

  /** A failure takes one provider out of the running, or replaces none by one of the known. */
  lemma FailoverProgresses(all: set<Provider>, excluded: set<Provider>, provider: Option<Provider>,
                           replacement: Provider)
    requires provider.Some? ==> provider.value !in excluded
    requires var next := if provider.Some? then excluded + {provider.value} else excluded; replacement in all - next
    ensures var next := if provider.Some? then excluded + {provider.value} else excluded;
            Untried(all, next, Some(replacement)) < Untried(all, excluded, provider)
  {
    if provider.Some? {
      var next := excluded + {provider.value};
      if provider.value in all {
        assert all - excluded == (all - next) + {provider.value};
      } else {
        assert all - next == all - excluded;
      }
    }
  }

  // ---- the calls of one read ----

  /** A page that passes validation for the request. */
  predicate Valid(req: Request, resp: Response) {
    resp.Page? && RowsValid(resp.rows, req.lo, req.hi)
  }

  /** The provider that a request went to, as far as it is known. */
  function Asked(req: Request, resp: Response): Option<Provider> {
    if resp.Failed? then req.provider else Some(resp.provider)
  }

  /** The providers that are out of the running once the request has gone wrong. */
  function Tried(req: Request, resp: Response): set<Provider> {
    if Asked(req, resp).Some? then req.excluded + {Asked(req, resp).value} else req.excluded
  }

  /** The next provider on offer, if there is one to ask at all. */
  function Offer(next: Option<NextProvider>, tried: set<Provider>, archiveTask: bool): Option<Provider> {
    if next.Some? then next.value(tried, archiveTask) else None
  }

  /** An archive task is handed to the preferred provider; without its cursor if that is another one. */
  function HandedTo(next: Option<NextProvider>, task: Task, archiveTask: bool): Task {
    if archiveTask && task.provider.Some? && Offer(next, {}, archiveTask).Some?
       && Offer(next, {}, archiveTask) != task.provider
    then Task(task.lo, task.remainingTo, task.remainingTo, None, Offer(next, {}, archiveTask))
    else task
  }

  function RequestFor(task: Task, excluded: set<Provider>, archiveTask: bool): Request {
    Request(task.cursor, task.provider, excluded, archiveTask, task.lo, task.to)
  }

  /**
   One call after another: a valid page is followed on at its provider, and anything else restarts
   the unread part at a provider on offer that has not been tried.
   */
  predicate Follows(next: Option<NextProvider>, archiveTask: bool, unread: int, req: Request, resp: Response,
                    after: Request) {
    if Valid(req, resp) then after == req.(cursor := resp.next, provider := Some(resp.provider))
    else
      var replacement := Offer(next, Tried(req, resp), archiveTask);
      replacement.Some? && after == Request(None, replacement, Tried(req, resp), archiveTask, req.lo, unread)
  }

  /** What is unread after the calls so far: the window up to the oldest second of any valid page. */
  function UnreadTo(fetch: Fetch, first: nat, task: Task, log: seq<Request>): int {
    if log == [] then task.remainingTo
    else
      var k := |log| - 1;
      var before, resp := UnreadTo(fetch, first, task, log[..k]), fetch(first + k, log[k]);
      if Valid(log[k], resp) then RemainingAfter(resp.rows, before) else before
  }

  /** The rows of the valid pages, in the order of the calls. */
  function RowsOf(fetch: Fetch, first: nat, log: seq<Request>): seq<Tx> {
    if log == [] then []
    else
      var k := |log| - 1;
      var resp := fetch(first + k, log[k]);
      RowsOf(fetch, first, log[..k]) + if Valid(log[k], resp) then resp.rows else []
  }

  function PagesOf(fetch: Fetch, first: nat, log: seq<Request>): nat {
    if log == [] then 0
    else
      var k := |log| - 1;
      PagesOf(fetch, first, log[..k]) + if Valid(log[k], fetch(first + k, log[k])) then 1 else 0
  }

  /** The request `req` comes next after the calls of `log`. */
  predicate ComesNext(fetch: Fetch, first: nat, next: Option<NextProvider>, archiveTask: bool, task: Task,
                      log: seq<Request>, req: Request) {
    if log == [] then req == RequestFor(HandedTo(next, task, archiveTask), {}, archiveTask)
    else
      var k := |log| - 1;
      Follows(next, archiveTask, UnreadTo(fetch, first, task, log), log[k], fetch(first + k, log[k]), req)
  }

  /** Each call follows from the one before and its answer. */
  predicate Trace(fetch: Fetch, first: nat, next: Option<NextProvider>, archiveTask: bool, task: Task,
                  log: seq<Request>) {
    log != [] ==>
      var k := |log| - 1;
      Trace(fetch, first, next, archiveTask, task, log[..k])
      && ComesNext(fetch, first, next, archiveTask, task, log[..k], log[k])
  }

  lemma LogOn(fetch: Fetch, first: nat, next: Option<NextProvider>, archiveTask: bool, task: Task, log: seq<Request>,
              req: Request)
    requires Trace(fetch, first, next, archiveTask, task, log)
    requires ComesNext(fetch, first, next, archiveTask, task, log, req)
    ensures var all, resp := log + [req], fetch(first + |log|, req);
            && Trace(fetch, first, next, archiveTask, task, all)
            && UnreadTo(fetch, first, task, all)
               == (if Valid(req, resp) then RemainingAfter(resp.rows, UnreadTo(fetch, first, task, log))
                   else UnreadTo(fetch, first, task, log))
            && RowsOf(fetch, first, all) == RowsOf(fetch, first, log) + (if Valid(req, resp) then resp.rows else [])
            && PagesOf(fetch, first, all) == PagesOf(fetch, first, log) + (if Valid(req, resp) then 1 else 0)
            && forall after :: ComesNext(fetch, first, next, archiveTask, task, all, after)
                 <==> Follows(next, archiveTask, UnreadTo(fetch, first, task, all), req, resp, after)
  {
    hide ComesNext, Follows, Valid, RemainingAfter;
    var all := log + [req];
    assert all[..|log|] == log && all[|log|] == req;
    NextAfter(fetch, first, next, archiveTask, task, all);
  }

  lemma NextAfter(fetch: Fetch, first: nat, next: Option<NextProvider>, archiveTask: bool, task: Task,
                  log: seq<Request>)
    requires log != []
    ensures var last := log[|log| - 1];
            var answer := fetch(first + |log| - 1, last);
            forall after :: ComesNext(fetch, first, next, archiveTask, task, log, after)
              <==> Follows(next, archiveTask, UnreadTo(fetch, first, task, log), last, answer, after)
  {
    hide Follows, UnreadTo;
  }

  /** How a read ends, by its last call: at the end of the window, stalled, failed, or out of pages. */
  ghost predicate Ended(fetch: Fetch, first: nat, next: Option<NextProvider>, archiveTask: bool, task: Task,
                        pages: nat, log: seq<Request>, pending: Option<Task>, outcome: Outcome)
  {
    && Trace(fetch, first, next, archiveTask, task, log) && PagesOf(fetch, first, log) == outcome.pages <= pages
    && outcome.calls == first + |log|
    && (pending.Some? ==> pending.value.lo == task.lo
                          && pending.value.remainingTo == UnreadTo(fetch, first, task, log))
    && (if outcome.complete || outcome.stalled || outcome.failed then
          log != [] && EndedBy(next, archiveTask, log[|log| - 1], fetch(first + |log| - 1, log[|log| - 1]), pending,
                               outcome)
        else
          pending.Some? && outcome.pages == pages
          && exists excluded ::
               ComesNext(fetch, first, next, archiveTask, task, log, RequestFor(pending.value, excluded, archiveTask)))
  }

  /** The last call of a read that does not end for want of pages. */
  ghost predicate EndedBy(next: Option<NextProvider>, archiveTask: bool, req: Request, resp: Response,
                          pending: Option<Task>, outcome: Outcome)
  {
    if outcome.failed then
      && !outcome.complete && !outcome.stalled && !Valid(req, resp)
      && Offer(next, Tried(req, resp), archiveTask).None?
      && pending.Some? && pending.value.cursor == req.cursor && pending.value.to == req.hi
      && pending.value.provider == Asked(req, resp)
    else if outcome.complete then !outcome.stalled && Valid(req, resp) && resp.next.None?
    else
      && Valid(req, resp) && resp.next.Some? && (resp.rows == [] || resp.next == req.cursor)
      && pending.Some? && pending.value.cursor.None? && pending.value.provider == Some(resp.provider)
  }

  method Advance(covered: seq<Range>, rows: seq<Tx>, remainingTo: int) returns (next: seq<Range>, remaining: int)
    requires Descending(rows)
    ensures next == CoverPage(covered, rows, remainingTo) && remaining == RemainingAfter(rows, remainingTo)
  {
    next, remaining := covered, remainingTo;
    if rows != [] {
      var oldest := OldestTime(rows);
      if oldest < remaining {
        next := next + [Range(oldest + 1, remaining)];
        remaining := oldest;
      }
    }
  }

  /** Pages are read until the window ends, the page budget is spent or no provider is left. */
  method ReadRange(ghost archive: set<Tx>, ghost listing: Listing, ghost all: set<Provider>, ghost known: set<Tx>,
                   fetch: Fetch, next: Option<NextProvider>, task: Task, pages: nat, archiveTask: bool, firstCall: nat)
    returns (transactions: seq<Tx>, covered: seq<Range>, pending: Option<Task>, outcome: Outcome,
             ghost log: seq<Request>)
    requires ListsArchive(archive, listing) && HonestFetch(listing, fetch)
    requires next.Some? ==> Respects(next.value, all)
    requires TaskOk(listing, task, known)
    ensures ReadResult(archive, listing, task, known, transactions, covered, pending)
    ensures AllShown(fetch, transactions)
    ensures outcome.complete <==> pending.None?
    ensures outcome.pages == 0 ==> transactions == [] && covered == []
    ensures Ended(fetch, firstCall, next, archiveTask, task, pages, log, pending, outcome)
    ensures transactions == RowsOf(fetch, firstCall, log)
  {
    hide Reading, ListsArchive, HonestFetch, Respects, ReadResult, TaskOk, Honest, Untried, CoverPage, RemainingAfter,
         Descending, RowsValid, TxSet, AllShown, Covered, Trace, ComesNext, UnreadTo, RowsOf, PagesOf, Offer;
    NothingRead(archive, listing, fetch, task, known);
    var current := Preferred(archive, listing, known, next, task, archiveTask);
    var excluded: set<Provider> := {};
    var read, calls := 0, firstCall;
    transactions, covered, log := [], [], [];
    NothingLogged(fetch, firstCall, next, archiveTask, task);
    while read < pages
      invariant Reading(archive, listing, task, known, transactions, covered, current)
      invariant current.provider.Some? ==> current.provider.value !in excluded
      invariant read <= pages && (read == 0 ==> transactions == [] && covered == [])
      invariant AllShown(fetch, transactions)
      invariant calls == firstCall + |log| && read == PagesOf(fetch, firstCall, log)
      invariant Trace(fetch, firstCall, next, archiveTask, task, log)
      invariant ComesNext(fetch, firstCall, next, archiveTask, task, log, RequestFor(current, excluded, archiveTask))
      invariant transactions == RowsOf(fetch, firstCall, log)
      invariant current.lo == task.lo && current.remainingTo == UnreadTo(fetch, firstCall, task, log)
      decreases pages - read, Untried(all, excluded, current.provider)
    {
      var req := RequestFor(current, excluded, archiveTask);
      var resp := fetch(calls, req);
      LogOn(fetch, firstCall, next, archiveTask, task, log, req);
      log, calls := log + [req], calls + 1;
      HonestAt(listing, fetch, calls - 1, req);
      var provider := if resp.Failed? then current.provider else Some(resp.provider);
      if !resp.Page? || !RowsValid(resp.rows, current.lo, current.to) {
        var replaced;
        replaced, pending := FailOver(archive, listing, all, known, next, task, archiveTask, transactions, covered,
                                      current, excluded, req, resp);
        excluded := if provider.Some? then excluded + {provider.value} else excluded;
        if !replaced {
          return transactions, covered, pending, Outcome(read, false, true, false, calls), log;
        }
        current := pending.value;
        continue;
      }
      read := read + 1;
      ShownOnTop(fetch, transactions, calls - 1, req);
      var stalled;
      stalled, transactions, covered,
          pending := TakePage(archive, listing, known, task, transactions, covered, current, req, resp);
      if pending.None? {
        return transactions, covered, pending, Outcome(read, true, false, false, calls), log;
      }
      current := pending.value;
      if stalled {
        Returnable(archive, listing, task, known, transactions, covered, current);
        return transactions, covered, pending, Outcome(read, false, false, true, calls), log;
      }
    }
    Returnable(archive, listing, task, known, transactions, covered, current);
    return transactions, covered, Some(current), Outcome(read, false, false, false, calls), log;
  }

  lemma NothingRead(archive: set<Tx>, listing: Listing, fetch: Fetch, task: Task, known: set<Tx>)
    requires TaskOk(listing, task, known)
    ensures Reading(archive, listing, task, known, [], [], task) && AllShown(fetch, [])
  {
    hide CursorOk;
    assert known + TxSet([]) == known;
  }

  lemma NothingLogged(fetch: Fetch, first: nat, next: Option<NextProvider>, archiveTask: bool, task: Task)
    ensures Trace(fetch, first, next, archiveTask, task, []) && RowsOf(fetch, first, []) == []
    ensures PagesOf(fetch, first, []) == 0 && UnreadTo(fetch, first, task, []) == task.remainingTo
    ensures ComesNext(fetch, first, next, archiveTask, task, [],
                      RequestFor(HandedTo(next, task, archiveTask), {}, archiveTask))
  {}

  /** An archive task of another provider than the preferred one restarts its unread part there. */
  method Preferred(ghost archive: set<Tx>, ghost listing: Listing, ghost known: set<Tx>, next: Option<NextProvider>,
                   task: Task, archiveTask: bool)
    returns (current: Task)
    requires Reading(archive, listing, task, known, [], [], task)
    ensures Reading(archive, listing, task, known, [], [], current)
    ensures current == HandedTo(next, task, archiveTask)
  {
    hide Reading;
    current := task;
    if archiveTask && task.provider.Some? && next.Some? {
      var preferred := next.value({}, archiveTask);
      if preferred.Some? && preferred != task.provider {
        Restarted(archive, listing, task, known, [], [], task, preferred);
        current := Task(task.lo, task.remainingTo, task.remainingTo, None, preferred);
      }
    }
  }

  /** A valid page ends the window, or hands its cursor on; one without progress restarts the unread part. */
  method TakePage(ghost archive: set<Tx>, ghost listing: Listing, ghost known: set<Tx>, ghost task: Task,
                  transactions: seq<Tx>, covered: seq<Range>, current: Task, req: Request, resp: Response)
    returns (stalled: bool, transactions': seq<Tx>, covered': seq<Range>, pending: Option<Task>)
    requires Reading(archive, listing, task, known, transactions, covered, current)
    requires ListsArchive(archive, listing) && Honest(listing, req, resp) && resp.Page?
    requires req.lo == current.lo && req.hi == current.to && req.cursor == current.cursor
    requires req.provider == current.provider
    ensures transactions' == transactions + resp.rows && (pending.None? <==> resp.next.None?)
    ensures pending.None? ==> ReadResult(archive, listing, task, known, transactions', covered', None)
    ensures pending.Some? ==> Reading(archive, listing, task, known, transactions', covered', pending.value)
    ensures stalled <==> resp.next.Some? && (resp.rows == [] || resp.next == current.cursor)
    ensures pending.Some? ==>
              var unread := RemainingAfter(resp.rows, current.remainingTo);
              pending.value == if stalled then Task(current.lo, unread, unread, None, Some(resp.provider))
                               else Task(current.lo, current.to, unread, resp.next, Some(resp.provider))
  {
    hide Reading, ReadResult, ListsArchive, Honest, CoverPage, RemainingAfter, Descending, TxSet;
    transactions' := transactions + resp.rows;
    if resp.next.None? {
      LastPageTaken(archive, listing, task, known, transactions, covered, current, req, resp);
      return false, transactions', covered + [Range(current.lo, current.to)], None;
    }
    PageTaken(archive, listing, task, known, transactions, covered, current, req, resp);
    PageDescends(archive, listing, req, resp, known + TxSet(transactions), task, transactions, covered, current, known);
    var remaining;
    covered', remaining := Advance(covered, resp.rows, current.remainingTo);
    stalled := resp.rows == [] || resp.next == current.cursor;
    var following := Task(current.lo, current.to, remaining, resp.next, Some(resp.provider));
    if stalled {
      Restarted(archive, listing, task, known, transactions', covered', following, Some(resp.provider));
      following := Task(current.lo, remaining, remaining, None, Some(resp.provider));
    }
    pending := Some(following);
  }

  /** After a failure: the unread part restarts at a provider not yet tried, or stays pending. */
  method FailOver(ghost archive: set<Tx>, ghost listing: Listing, ghost all: set<Provider>, ghost known: set<Tx>,
                  next: Option<NextProvider>, task: Task, archiveTask: bool, ghost transactions: seq<Tx>,
                  ghost covered: seq<Range>, current: Task, excluded: set<Provider>, req: Request, resp: Response)
    returns (replaced: bool, pending: Option<Task>)
    requires next.Some? ==> Respects(next.value, all)
    requires Reading(archive, listing, task, known, transactions, covered, current)
    requires req == RequestFor(current, excluded, archiveTask)
    requires current.provider.Some? ==> Asked(req, resp) == current.provider
    requires Asked(req, resp).Some? ==> Asked(req, resp).value !in excluded
    ensures pending.Some? && (replaced <==> Offer(next, Tried(req, resp), archiveTask).Some?)
    ensures !replaced ==>
              && ReadResult(archive, listing, task, known, transactions, covered, pending)
              && pending.value == current.(provider := Asked(req, resp))
    ensures var tried := Tried(req, resp);
            replaced ==>
              && Reading(archive, listing, task, known, transactions, covered, pending.value)
              && pending.value == Task(current.lo, current.remainingTo, current.remainingTo, None,
                                       Offer(next, tried, archiveTask))
              && pending.value.provider.value !in tried
              && Untried(all, tried, pending.value.provider) < Untried(all, excluded, current.provider)
  {
    hide Reading, Respects, ReadResult, Untried;
    var provider := Asked(req, resp);
    var tried := if provider.Some? then excluded + {provider.value} else excluded;
    var replacement := if next.Some? then next.value(tried, archiveTask) else None;
    if replacement.None? {
      ProviderOnly(archive, listing, task, known, transactions, covered, current, provider);
      pending := Some(current.(provider := provider));
      Returnable(archive, listing, task, known, transactions, covered, pending.value);
      return false, pending;
    }
    RespectsAt(next.value, all, tried, archiveTask);
    FailoverShrinks(all, excluded, current.provider, provider, replacement.value);
    Restarted(archive, listing, task, known, transactions, covered, current, replacement);
    return true, Some(Task(current.lo, current.remainingTo, current.remainingTo, None, replacement));
  }

  lemma HonestAt(listing: Listing, fetch: Fetch, k: nat, req: Request)
    requires HonestFetch(listing, fetch)
    ensures var resp := fetch(k, req);
            && Honest(listing, req, resp)
            && (!resp.Failed? ==> if req.provider.Some? then req.provider == Some(resp.provider)
                else resp.provider !in req.excluded)
  {}

  lemma RespectsAt(next: NextProvider, all: set<Provider>, excluded: set<Provider>, kind: bool)
    requires Respects(next, all) && next(excluded, kind).Some?
    ensures next(excluded, kind).value in all - excluded
  {}

  lemma Returnable(archive: set<Tx>, listing: Listing, task: Task, known: set<Tx>, transactions: seq<Tx>,
                   covered: seq<Range>, current: Task)
    requires Reading(archive, listing, task, known, transactions, covered, current)
    ensures ReadResult(archive, listing, task, known, transactions, covered, Some(current))
  {}

  /** A provider that served without a cursor may be remembered with its range. */
  lemma ProviderOnly(archive: set<Tx>, listing: Listing, task: Task, known: set<Tx>, transactions: seq<Tx>,
                     covered: seq<Range>, current: Task, provider: Option<Provider>)
    requires Reading(archive, listing, task, known, transactions, covered, current)
    requires current.provider.Some? ==> provider == current.provider
    ensures Reading(archive, listing, task, known, transactions, covered, current.(provider := provider))
  {}

  lemma FailoverShrinks(all: set<Provider>, excluded: set<Provider>, was: Option<Provider>, provider: Option<Provider>,
                        replacement: Provider)
    requires was.Some? ==> provider == was && was.value !in excluded
    requires provider.Some? ==> provider.value !in excluded
    requires var next := if provider.Some? then excluded + {provider.value} else excluded; replacement in all - next
    ensures var next := if provider.Some? then excluded + {provider.value} else excluded;
            Untried(all, next, Some(replacement)) < Untried(all, excluded, was)
  {
    FailoverProgresses(all, excluded, provider, replacement);
  }

  lemma PageDescends(archive: set<Tx>, listing: Listing, req: Request, resp: Response, before: set<Tx>, task: Task,
                     transactions: seq<Tx>, covered: seq<Range>, current: Task, known: set<Tx>)
    requires ListsArchive(archive, listing) && Honest(listing, req, resp) && resp.Page?
    requires Reading(archive, listing, task, known, transactions, covered, current)
    requires before == known + TxSet(transactions)
    requires req.lo == current.lo && req.hi == current.to && req.cursor == current.cursor
    requires req.provider == current.provider
    ensures Descending(resp.rows)
  {
    PageReads(archive, listing, req, resp, before);
  }

  // ---- what the calls say about a failure ----

  /** The provider was asked and did not answer with a valid page. */
  ghost predicate Refused(fetch: Fetch, first: nat, log: seq<Request>, p: Provider) {
    exists k: nat :: k < |log| && RefusedAt(fetch, first, log, p, k)
  }

  ghost predicate RefusedAt(fetch: Fetch, first: nat, log: seq<Request>, p: Provider, k: nat)
    requires k < |log|
  {
    var resp := fetch(first + k, log[k]);
    !Valid(log[k], resp) && Asked(log[k], resp) == Some(p)
  }

  ghost predicate AllRefused(fetch: Fetch, first: nat, log: seq<Request>, tried: set<Provider>) {
    forall p :: p in tried ==> Refused(fetch, first, log, p)
  }

  lemma RefusedStill(fetch: Fetch, first: nat, log: seq<Request>, n: nat, p: Provider)
    requires n <= |log| && Refused(fetch, first, log[..n], p)
    ensures Refused(fetch, first, log, p)
  {
    var k: nat :| k < |log[..n]| && RefusedAt(fetch, first, log[..n], p, k);
    assert RefusedAt(fetch, first, log, p, k);
  }

  /** Whoever a call excludes has refused before. */
  lemma {:induction false} ExcludedRefused(fetch: Fetch, first: nat, next: Option<NextProvider>, archiveTask: bool,
                                           task: Task, log: seq<Request>)
    requires Trace(fetch, first, next, archiveTask, task, log) && log != []
    ensures forall p :: p in log[|log| - 1].excluded ==> Refused(fetch, first, log, p)
    ensures var req := log[|log| - 1];
            var resp := fetch(first + |log| - 1, req);
            !Valid(req, resp) ==> forall p :: p in Tried(req, resp) ==> Refused(fetch, first, log, p)
    decreases |log|
  {
    hide UnreadTo, Offer, RowsValid;
    var k := |log| - 1;
    var req := log[k];
    var resp := fetch(first + k, req);
    if k > 0 {
      var rest := log[..k];
      ExcludedRefused(fetch, first, next, archiveTask, task, rest);
      assert log[k - 1] == rest[k - 1];
      forall p | p in req.excluded ensures Refused(fetch, first, log, p) {
        assert Refused(fetch, first, rest, p);
        RefusedStill(fetch, first, log, k, p);
      }
    }
    if !Valid(req, resp) && Asked(req, resp).Some? {
      assert RefusedAt(fetch, first, log, Asked(req, resp).value, k);
    }
  }

  /** A read fails only when nobody is left to ask: all that are out of the running have refused. */
  lemma FailureExhausts(fetch: Fetch, first: nat, next: Option<NextProvider>, archiveTask: bool, task: Task,
                        pages: nat, log: seq<Request>, pending: Option<Task>, outcome: Outcome)
    requires Ended(fetch, first, next, archiveTask, task, pages, log, pending, outcome) && outcome.failed
    ensures next.None? || exists tried :: next.value(tried, archiveTask).None? && AllRefused(fetch, first, log, tried)
  {
    ExcludedRefused(fetch, first, next, archiveTask, task, log);
    hide Trace, Refused, Valid, PagesOf, UnreadTo;
    if next.Some? {
      var tried := Tried(log[|log| - 1], fetch(first + |log| - 1, log[|log| - 1]));
      assert next.value(tried, archiveTask).None? && AllRefused(fetch, first, log, tried);
    }
  }

  /** Whenever the provider is asked, it answers with a valid page. */
  ghost predicate Answers(fetch: Fetch, p: Provider) {
    forall k, req :: Asked(req, fetch(k, req)) == Some(p) ==> Valid(req, fetch(k, req))
  }

  /** As long as one of the providers is untried, one is offered. */
  ghost predicate OffersAll(next: NextProvider, all: set<Provider>) {
    forall tried, kind, p :: p in all && p !in tried ==> next(tried, kind).Some?
  }

  lemma NotRefused(fetch: Fetch, first: nat, log: seq<Request>, p: Provider)
    requires Answers(fetch, p)
    ensures !Refused(fetch, first, log, p)
  {
    hide Valid, Asked;
  }

  /** One provider that answers is enough for a read not to fail. */
  lemma OneProviderSuffices(fetch: Fetch, first: nat, next: Option<NextProvider>, archiveTask: bool, task: Task,
                            pages: nat, log: seq<Request>, pending: Option<Task>, outcome: Outcome,
                            all: set<Provider>, p: Provider)
    requires Ended(fetch, first, next, archiveTask, task, pages, log, pending, outcome)
    requires next.Some? && OffersAll(next.value, all) && p in all && Answers(fetch, p)
    ensures !outcome.failed
  {
    if outcome.failed {
      FailureExhausts(fetch, first, next, archiveTask, task, pages, log, pending, outcome);
      var tried :| next.value(tried, archiveTask).None? && AllRefused(fetch, first, log, tried);
      NotRefused(fetch, first, log, p);
    }
  }

  // ---- what the calls say about progress ----

  /** What stays unread ends at the oldest second of some valid page, or where it did at first. */
  lemma {:induction false} UnreadIsOldest(fetch: Fetch, first: nat, task: Task, log: seq<Request>)
    ensures UnreadTo(fetch, first, task, log) <= task.remainingTo
    ensures forall k: nat :: k < |log| && Valid(log[k], fetch(first + k, log[k])) && fetch(first + k, log[k]).rows != []
              ==> UnreadTo(fetch, first, task, log) <= Oldest(fetch(first + k, log[k]).rows)
    decreases |log|
  {
    hide RowsValid;
    if log != [] {
      var n := |log| - 1;
      UnreadIsOldest(fetch, first, task, log[..n]);
      forall k: nat
        | k < |log| && Valid(log[k], fetch(first + k, log[k])) && fetch(first + k, log[k]).rows != []
        ensures UnreadTo(fetch, first, task, log) <= Oldest(fetch(first + k, log[k]).rows)
      {
        if k < n { assert log[..n][k] == log[k]; }
      }
    }
  }
}
