/** The coverage record of one pool, pass by pass. */
module PoolHistory {
  // Live head, prioritized repair, reconciliation and compaction (`collect_history`).

  import opened Wrappers
  import opened Ranges
  import opened HistoryTasks
  import opened HistoryReader

  /** The world a record is kept against. */
  datatype Setting = Setting(archive: set<Tx>, listing: Listing, providers: set<Provider>)

  ghost predicate SettingOk(w: Setting, fetch: Fetch, next: Option<NextProvider>) {
    ListsArchive(w.archive, w.listing) && HonestFetch(w.listing, fetch)
        && (next.Some? ==> Respects(next.value, w.providers))
  }

  ghost predicate TasksOk(w: Setting, tasks: seq<Task>, read: set<Tx>) {
    forall i :: 0 <= i < |tasks| ==> TaskOk(w.listing, tasks[i], read)
  }

  /** What is recorded as covered was read, and every stored cursor continues a real read. */
  ghost predicate RecordOk(w: Setting, covered: seq<Range>, tasks: seq<Task>, read: set<Tx>) {
    AllRead(w.archive, covered, read) && TasksOk(w, tasks, read)
  }

  lemma RecordParts(w: Setting, covered: seq<Range>, tasks: seq<Task>, read: set<Tx>)
    requires RecordOk(w, covered, tasks, read)
    ensures AllRead(w.archive, covered, read) && TasksOk(w, tasks, read)
  {}

  lemma RecordGrows(w: Setting, covered: seq<Range>, tasks: seq<Task>, read: set<Tx>, more: set<Tx>)
    requires RecordOk(w, covered, tasks, read) && read <= more
    ensures RecordOk(w, covered, tasks, more)
  {
    AllReadGrows(w.archive, covered, read, more);
    forall i | 0 <= i < |tasks| ensures TaskOk(w.listing, tasks[i], more) {
      TaskOkGrows(w.listing, tasks[i], read, more);
    }
  }

  /** Covered seconds may be regrouped or forgotten, never invented. */
  lemma CoverageKept(w: Setting, covered: seq<Range>, other: seq<Range>, read: set<Tx>)
    requires AllRead(w.archive, covered, read) && forall t :: Covered(other, t) ==> Covered(covered, t)
    ensures AllRead(w.archive, other, read)
  {
    AllReadSeconds(w.archive, covered, read);
    AllReadSeconds(w.archive, other, read);
  }

  lemma CoverageJoined(w: Setting, a: seq<Range>, b: seq<Range>, read: set<Tx>)
    requires AllRead(w.archive, a, read) && AllRead(w.archive, b, read)
    ensures AllRead(w.archive, a + b, read)
  {}

  lemma ReconciledOk(w: Setting, tasks: seq<Task>, result: seq<Task>, read: set<Tx>)
    requires TasksOk(w, tasks, read) && KeptOrUnread(result, tasks)
    ensures TasksOk(w, result, read)
  {
    forall i | 0 <= i < |result| ensures TaskOk(w.listing, result[i], read) {
      if result[i] in tasks {
        var k :| 0 <= k < |tasks| && tasks[k] == result[i];
        assert TaskOk(w.listing, tasks[k], read);
      }
    }
  }

  /** Tasks are exactly the missing seconds. */
  ghost predicate Exact(covered: seq<Range>, tasks: seq<Task>, start: int, end: int) {
    Disjoint(tasks) && Within(tasks, start, end) && forall t ::
        Covered(Spans(tasks), t)
        <==> Missing(covered, start, end, t)
  }

  // ---- one reading pass ----

  /** What was asked for, the calls that were made, and what came of them. */
  datatype Pass = Pass(task: Task, archiveTask: bool, pages: nat, first: nat, log: seq<Request>, covered: seq<Range>,
                       pending: Option<Task>, outcome: Outcome)

  ghost predicate PassOk(w: Setting, fetch: Fetch, next: Option<NextProvider>, p: Pass, read: set<Tx>, rows: seq<Tx>) {
    && ReadResult(w.archive, w.listing, p.task, read, rows, p.covered, p.pending)
    && Ended(fetch, p.first, next, p.archiveTask, p.task, p.pages, p.log, p.pending, p.outcome)
    && rows == RowsOf(fetch, p.first, p.log) && AllShown(fetch, rows)
  }

  function CoveredBy(p: Option<Pass>): seq<Range> {
    if p.Some? then p.value.covered else []
  }

  function PendingOf(p: Option<Pass>): seq<Task> {
    if p.Some? && p.value.pending.Some? then [p.value.pending.value] else []
  }

  /** Tasks that were not read meanwhile keep their cursors unless they run into one another. */
  ghost predicate Carried(before: seq<Task>, after: seq<Task>, covered: seq<Range>, start: int, end: int) {
    forall x :: x in before && StillMissing(x, covered, start, end) ==> StandsIn(after, before, x)
  }

  lemma CarriedSame(tasks: seq<Task>, covered: seq<Range>, start: int, end: int)
    ensures Carried(tasks, tasks, covered, start, end)
  {
    hide Missing;
    forall x | x in tasks && StillMissing(x, covered, start, end) ensures StandsIn(tasks, tasks, x) {
      assert x.lo <= x.lo <= x.remainingTo;
    }
  }

  ghost predicate SameSeconds(a: seq<Range>, b: seq<Range>) {
    forall t :: Covered(a, t) <==> Covered(b, t)
  }

  lemma MissingAlike(a: seq<Range>, b: seq<Range>, before: seq<Task>, after: seq<Task>, start: int, end: int)
    requires SameSeconds(a, b)
    ensures Exact(a, after, start, end) ==> Exact(b, after, start, end)
    ensures Carried(before, after, a, start, end) ==> Carried(before, after, b, start, end)
  {
    hide Covered, Disjoint, Within, StandsIn;
    forall x | StillMissing(x, b, start, end) ensures StillMissing(x, a, start, end) {
      forall t | x.lo <= t <= x.remainingTo ensures Missing(a, start, end, t) {
        assert Missing(b, start, end, t);
      }
    }
  }

  /** One reading pass folded into the record. */
  method Fold(ghost w: Setting, covered: seq<Range>, tasks: seq<Task>, prefix: seq<Range>, pending: Option<Task>,
              task: Task, ghost read: set<Tx>, ghost transactions: seq<Tx>, start: int, end: int)
    returns (covered': seq<Range>, tasks': seq<Task>, ghost read': set<Tx>)
    requires RecordOk(w, covered, tasks, read)
    requires ReadResult(w.archive, w.listing, task, read, transactions, prefix, pending)
    ensures read' == read + TxSet(transactions)
    ensures RecordOk(w, covered', tasks', read') && Normal(covered') && Exact(covered', tasks', start, end)
    ensures SameSeconds(covered', covered + prefix)
    ensures Carried(tasks + (if pending.Some? then [pending.value] else []), tasks', covered', start, end)
  {
    hide StandsIn, StillMissing;
    read' := read + TxSet(transactions);
    RecordGrows(w, covered, tasks, read, read');
    CoverageJoined(w, covered, prefix, read');
    covered' := MergeRanges(covered + prefix);
    CoverageKept(w, covered + prefix, covered', read');
    var queue := if pending.Some? then tasks + [pending.value] else tasks;
    assert TasksOk(w, queue, read');
    tasks' := ReconcileTasks(queue, covered', start, end);
    ReconciledOk(w, queue, tasks', read');
    assert tasks + [] == tasks;
  }

  // ---- the choice of a repair ----

  predicate Reaches(task: Task, window: Range) {
    task.lo <= window.hi && task.remainingTo >= window.lo
  }

  ghost predicate NoneReaches(tasks: seq<Task>, window: Range) {
    forall i :: 0 <= i < |tasks| ==> !Reaches(tasks[i], window)
  }

  predicate IsFirst(tasks: seq<Task>, window: Range, selected: nat) {
    selected < |tasks| && Reaches(tasks[selected], window)
    && forall i :: 0 <= i < selected ==> !Reaches(tasks[i], window)
  }

  /** The first task that reaches into a window. */
  method FirstReaching(tasks: seq<Task>, window: Range) returns (selected: Option<nat>)
    ensures selected.Some? ==> IsFirst(tasks, window, selected.value)
    ensures selected.None? ==> NoneReaches(tasks, window)
  {
    for i := 0 to |tasks|
      invariant forall k :: 0 <= k < i ==> !Reaches(tasks[k], window)
    {
      if Reaches(tasks[i], window) { return Some(i); }
    }
    return None;
  }

  function Clipped(task: Task, window: Range): Task {
    var lower := if task.lo < window.lo then window.lo else task.lo;
    var upper := if task.remainingTo < window.hi then task.remainingTo else window.hi;
    if lower != task.lo || upper != task.remainingTo then Unread(lower, upper) else task
  }

  /** The part of a task inside a window: the task itself if it lies in it, and a fresh one otherwise. */
  ghost predicate PartOf(part: Task, task: Task, window: Range) {
    && part.lo == Max(task.lo, window.lo) && part.remainingTo == Min(task.remainingTo, window.hi)
    && (part == task || part == Unread(part.lo, part.remainingTo))
    && (window.lo <= task.lo && task.remainingTo <= window.hi ==> part == task)
  }

  predicate UsableWindow(priority: Option<Range>) {
    priority.Some? && priority.value.lo != 0 && priority.value.hi >= priority.value.lo
  }

  /** The first task of the signal window, else of the fresh window, each cut to it; else the oldest. */
  ghost predicate Chosen(tasks: seq<Task>, priority: Option<Range>, live: Range, selected: nat, task: Task) {
    && selected < |tasks|
    && if UsableWindow(priority) && !NoneReaches(tasks, priority.value) then
         IsFirst(tasks, priority.value, selected) && PartOf(task, tasks[selected], priority.value)
       else if !NoneReaches(tasks, live) then
         IsFirst(tasks, live, selected) && PartOf(task, tasks[selected], live)
       else selected == 0 && task == tasks[0]
  }

  /** Which task to repair, and how much of it: signal window first, then fresh window, then the oldest gap. */
  method ChooseRepair(tasks: seq<Task>, priority: Option<Range>, liveFrom: int, now: int)
    returns (selected: nat, task: Task)
    requires tasks != [] && forall i :: 0 <= i < |tasks| ==> tasks[i].remainingTo <= now
    ensures Chosen(tasks, priority, Range(liveFrom, now), selected, task)
  {
    if UsableWindow(priority) {
      var reaching := FirstReaching(tasks, priority.value);
      if reaching.Some? {
        selected := reaching.value;
        task := Clipped(tasks[selected], priority.value);
        return;
      }
    }
    var recent := FirstReaching(tasks, Range(liveFrom, now));
    if recent.Some? {
      selected := recent.value;
      task := Clipped(tasks[selected], Range(liveFrom, now));
    } else {
      selected := 0;
      task := tasks[0];
    }
  }

  /** The repair is a part of one task, and not empty. */
  lemma ChosenIsPart(tasks: seq<Task>, priority: Option<Range>, live: Range, selected: nat, task: Task)
    requires Chosen(tasks, priority, live, selected, task)
    requires tasks[selected].lo <= tasks[selected].remainingTo <= live.hi
    ensures task == tasks[selected] || task == Unread(task.lo, task.remainingTo)
    ensures tasks[selected].lo <= task.lo <= task.remainingTo <= tasks[selected].remainingTo
  {}

  // ---- bounded storage ----

  const LIMIT := 128

  /** The oldest covered range and the most recent ones. */
  function Compacted(covered: seq<Range>): seq<Range> {
    if |covered| > LIMIT then [covered[0]] + covered[|covered| - (LIMIT - 1)..] else covered
  }

  /** Beyond the limit the first range and the latest ones stay whole, and the rest is forgotten. */
  lemma CompactedKeeps(covered: seq<Range>)
    requires Normal(covered) && |covered| > LIMIT
    ensures Normal(Compacted(covered)) && |Compacted(covered)| == LIMIT && Compacted(covered)[0] == covered[0]
    ensures forall t, i :: 0 < i < |covered| && covered[i].lo <= t <= covered[i].hi ==>
              (Covered(Compacted(covered), t) <==> |covered| - i < LIMIT)
  {
    var kept, skip := Compacted(covered), |covered| - LIMIT;
    assert forall k :: 0 < k < LIMIT ==> kept[k] == covered[k + skip];
    forall t, i | 0 < i < |covered| && covered[i].lo <= t <= covered[i].hi
      ensures Covered(kept, t) <==> |covered| - i < LIMIT
    {
      if |covered| - i < LIMIT {
        assert kept[i - skip] == covered[i];
      }
      forall k | 0 <= k < LIMIT && kept[k].lo <= t <= kept[k].hi ensures |covered| - i < LIMIT {
        var j := if k == 0 then 0 else k + skip;
        assert kept[k] == covered[j];
        assert j == i;
      }
    }
  }

  /** The oldest and the most recent covered ranges; what is forgotten becomes unread again. */
  method CompactCoverage(ghost w: Setting, covered: seq<Range>, tasks: seq<Task>, ghost read: set<Tx>, start: int,
                         end: int)
    returns (covered': seq<Range>, tasks': seq<Task>)
    requires RecordOk(w, covered, tasks, read) && Normal(covered) && Exact(covered, tasks, start, end)
    ensures RecordOk(w, covered', tasks', read) && Normal(covered') && |covered'| <= LIMIT
    ensures Exact(covered', tasks', start, end)
    ensures covered' == Compacted(covered) && (|covered| <= LIMIT ==> tasks' == tasks)
    ensures forall t :: Covered(covered', t) ==> Covered(covered, t)
    ensures Carried(tasks, tasks', covered', start, end)
  {
    covered', tasks' := covered, tasks;
    CarriedSame(tasks, covered, start, end);
    hide StandsIn, StillMissing;
    if |covered| > LIMIT {
      covered' := [covered[0]] + covered[|covered| - (LIMIT - 1)..];
      CoveredMembers(covered', covered);
      CoverageKept(w, covered, covered', read);
      tasks' := ReconcileTasks(tasks, covered', start, end);
      ReconciledOk(w, tasks, tasks', read);
    }
  }

  /** Every uncovered second of the window has a task. */
  ghost predicate NothingLost(covered: seq<Range>, tasks: seq<Task>, start: int, end: int) {
    forall t :: Missing(covered, start, end, t) ==> Covered(Spans(tasks), t)
  }

  /** Beyond the limit one fresh task spans the oldest ones; the latest keep their cursors. */
  ghost predicate TasksCompacted(tasks: seq<Task>, kept: seq<Task>) {
    if |tasks| <= LIMIT then kept == tasks
    else
      && |kept| == LIMIT && (forall k :: 0 < k < LIMIT ==> kept[k] == tasks[k + |tasks| - LIMIT])
      && kept[0] == Unread(tasks[0].lo, tasks[|tasks| - LIMIT].remainingTo)
  }

  /** What a finished collection keeps of the tasks: forgotten coverage reopens some, then the oldest are joined. */
  ghost predicate Reopened(recorded: seq<Range>, remaining: seq<Task>, covered: seq<Range>, tasks: seq<Task>,
                           start: int, end: int)
  {
    exists reopened: seq<Task> ::
      && Exact(covered, reopened, start, end) && Carried(remaining, reopened, covered, start, end)
      && (|recorded| <= LIMIT ==> reopened == remaining) && TasksCompacted(reopened, tasks)
  }

  /** The oldest tasks become one fresh task across them; no missing second loses its task. */
  method CompactTasks(ghost w: Setting, ghost covered: seq<Range>, tasks: seq<Task>, ghost read: set<Tx>,
                      ghost start: int, ghost end: int)
    returns (tasks': seq<Task>)
    requires TasksOk(w, tasks, read) && Exact(covered, tasks, start, end)
    ensures TasksOk(w, tasks', read) && Disjoint(tasks') && Within(tasks', start, end) && |tasks'| <= LIMIT
    ensures NothingLost(covered, tasks', start, end) && (tasks' == [] <==> tasks == [])
    ensures TasksCompacted(tasks, tasks')
  {
    tasks' := tasks;
    if |tasks| > LIMIT {
      var k := |tasks| - LIMIT;
      var joined := Unread(tasks[0].lo, tasks[k].remainingTo);
      tasks' := [joined] + tasks[k + 1..];
      JoinedCovers(tasks, k, joined);
    }
  }

  lemma JoinedCovers(tasks: seq<Task>, k: nat, joined: Task)
    requires Disjoint(tasks) && k < |tasks| && joined == Unread(tasks[0].lo, tasks[k].remainingTo)
    ensures Disjoint([joined] + tasks[k + 1..])
    ensures forall t :: Covered(Spans(tasks), t) ==> Covered(Spans([joined] + tasks[k + 1..]), t)
  {
    var rest := [joined] + tasks[k + 1..];
    forall t | Covered(Spans(tasks), t) ensures Covered(Spans(rest), t) {
      var i :| 0 <= i < |Spans(tasks)| && Spans(tasks)[i].lo <= t <= Spans(tasks)[i].hi;
      if i <= k {
        assert tasks[0].lo <= tasks[i].lo && tasks[i].remainingTo <= tasks[k].remainingTo;
        assert Spans(rest)[0].lo <= t <= Spans(rest)[0].hi;
      } else {
        assert rest[i - k] == tasks[i];
        assert Spans(rest)[i - k].lo <= t <= Spans(rest)[i - k].hi;
      }
    }
  }

  /** The end of the covered range around `start`: the largest fully covered prefix from there. */
  method Watermark(covered: seq<Range>, start: int) returns (to: Option<int>)
    requires Normal(covered)
    ensures to.None? <==> !Covered(covered, start)
    ensures to.Some? ==> start <= to.value && !Covered(covered, to.value + 1)
                         && forall t :: start <= t <= to.value ==> Covered(covered, t)
  {
    for i := 0 to |covered|
      invariant forall k :: 0 <= k < i ==> !(covered[k].lo <= start <= covered[k].hi)
    {
      if covered[i].lo <= start <= covered[i].hi {
        AfterRange(covered, i);
        return Some(covered[i].hi);
      }
    }
    return None;
  }

  lemma AfterRange(covered: seq<Range>, i: nat)
    requires Normal(covered) && i < |covered|
    ensures !Covered(covered, covered[i].hi + 1)
  {
    forall k | 0 <= k < |covered| ensures !(covered[k].lo <= covered[i].hi + 1 <= covered[k].hi) {
      RangesApart(covered, i, k);
    }
  }

  // ---- one collection ----

  /** The last covered second, if there is one. */
  function Top(covered: seq<Range>): (top: Option<int>)
    ensures top.None? ==> forall t :: !Covered(covered, t)
    ensures top.Some? ==> Covered(covered, top.value) && forall t :: Covered(covered, t) ==> t <= top.value
  {
    if covered == [] then None
    else
      var r, rest := covered[0], Top(covered[1..]);
      assert covered == [r] + covered[1..];
      assert forall t :: Covered(covered, t) <==> Covered(covered[1..], t) || r.lo <= t <= r.hi by {
        forall t ensures Covered(covered, t) <==> Covered(covered[1..], t) || r.lo <= t <= r.hi {
          Prepended(r, covered[1..], t);
        }
      }
      if r.lo <= r.hi && (rest.None? || rest.value < r.hi) then Some(r.hi) else rest
  }

  function LastCovered(covered: seq<Range>): int {
    if Top(covered).Some? then Top(covered).value else 0
  }

  lemma NoTasksIffCovered(covered: seq<Range>, tasks: seq<Task>, start: int, end: int)
    requires Exact(covered, tasks, start, end)
    ensures tasks == [] <==> forall t :: start <= t <= end ==> Covered(covered, t)
  {
    if tasks != [] {
      var r := Spans(tasks)[0];
      assert r.lo <= r.lo <= r.hi;
      assert Covered(Spans(tasks), r.lo);
    }
    forall t | start <= t <= end && !Covered(covered, t) ensures tasks != [] {
      assert Covered(Spans(tasks), t);
    }
  }

  lemma SomeMissing(covered: seq<Range>, missing: seq<Range>, start: int, end: int)
    requires Normal(missing) && forall t :: Covered(missing, t) <==> Missing(covered, start, end, t)
    ensures missing != [] <==> exists t :: Missing(covered, start, end, t)
  {
    if missing != [] {
      assert missing[0].lo <= missing[0].lo <= missing[0].hi;
      assert Covered(missing, missing[0].lo);
    }
  }

  // ---- the two passes of a collection ----

  /** What a collection does: the head, the tasks then queued, and the repair of one of them. */
  datatype Passes = Passes(head: Option<Pass>, queued: seq<Task>, selected: nat, repair: Option<Pass>,
                           recorded: seq<Range>, remaining: seq<Task>)

  /** The live head is read unless this call reuses it. */
  ghost predicate HeadRead(w: Setting, fetch: Fetch, next: Option<NextProvider>, call: Call, from: int, now: int,
                           read: set<Tx>, head: Option<Pass>, rows: seq<Tx>) {
    if call.reuseHead then head.None? && rows == []
    else
      && head.Some? && PassOk(w, fetch, next, head.value, read, rows)
      && head.value.task == Unread(from, now) && !head.value.archiveTask
      && head.value.pages == call.headPages && head.value.first == 0
  }

  /** Nobody was left to ask before the first page. */
  predicate HeadFailed(head: Option<Pass>) {
    head.Some? && head.value.outcome.failed && head.value.outcome.pages == 0
  }

  /** One of the queued tasks, or a part of it, is read from the archive. */
  ghost predicate RepairRead(w: Setting, fetch: Fetch, next: Option<NextProvider>, call: Call, from: int, now: int,
                             read: set<Tx>, queued: seq<Task>, selected: nat, repair: Pass, rows: seq<Tx>) {
    && PassOk(w, fetch, next, repair, read, rows)
    && Chosen(queued, call.priority, Range(from, now), selected, repair.task) && repair.archiveTask
    && repair.pages == call.repairPages && repair.first == 1000
  }

  /** The live head is read from where the last one ended, unless this call reuses it. */
  method ReadHead(ghost w: Setting, fetch: Fetch, next: Option<NextProvider>, covered: seq<Range>, tasks: seq<Task>,
                  ghost read: set<Tx>, call: Call, from: int, now: int)
    returns (failed: bool, covered': seq<Range>, tasks': seq<Task>, ghost read': set<Tx>, transactions: seq<Tx>,
             ghost head: Option<Pass>)
    requires SettingOk(w, fetch, next) && RecordOk(w, covered, tasks, read) && Normal(covered)
    ensures RecordOk(w, covered', tasks', read') && AllShown(fetch, transactions)
    ensures read' == read + TxSet(transactions) && (failed ==> transactions == [])
    ensures HeadRead(w, fetch, next, call, from, now, read, head, transactions) && (failed <==> HeadFailed(head))
    ensures !failed ==>
              && Normal(covered') && Exact(covered', tasks', call.start, now)
              && SameSeconds(covered', covered + CoveredBy(head))
              && Carried(tasks + PendingOf(head), tasks', covered', call.start, now)
  {
    failed, head := false, None;
    if call.reuseHead {
      covered', read', transactions := covered, read, [];
      tasks' := ReconcileTasks(tasks, covered, call.start, now);
      ReconciledOk(w, tasks, tasks', read);
      assert covered + [] == covered && tasks + [] == tasks;
    } else {
      hide RecordOk, SettingOk, Exact, Normal, Covered, TxSet, Ended, RowsOf, Carried, SameSeconds, ReadResult,
           AllShown, TaskOk;
      var task := Unread(from, now);
      UnreadIsOk(w, from, now, read);
      SettingIs(w, fetch, next);
      var prefix, pending, outcome;
      ghost var log;
      transactions, prefix, pending, outcome, log :=
        ReadRange(w.archive, w.listing, w.providers, read, fetch, next, task, call.headPages, false, 0);
      head := Some(Pass(task, false, call.headPages, 0, log, prefix, pending, outcome));
      failed := outcome.failed && outcome.pages == 0;
      covered', tasks', read' := covered, tasks, read;
      NoRows(read);
      if !failed {
        covered', tasks', read' := Fold(w, covered, tasks, prefix, pending, task, read, transactions, call.start, now);
      }
    }
  }

  lemma UnreadIsOk(w: Setting, lo: int, hi: int, read: set<Tx>)
    ensures TaskOk(w.listing, Unread(lo, hi), read)
  {}

  lemma SettingIs(w: Setting, fetch: Fetch, next: Option<NextProvider>)
    requires SettingOk(w, fetch, next)
    ensures ListsArchive(w.archive, w.listing) && HonestFetch(w.listing, fetch)
    ensures next.Some? ==> Respects(next.value, w.providers)
  {}

  lemma NoRows(read: set<Tx>)
    ensures read + TxSet([]) == read
  {}

  lemma TasksEnd(covered: seq<Range>, tasks: seq<Task>, start: int, end: int)
    requires Exact(covered, tasks, start, end)
    ensures forall i :: 0 <= i < |tasks| ==> tasks[i].lo <= tasks[i].remainingTo <= end
  {}

  lemma TakenOut(w: Setting, covered: seq<Range>, tasks: seq<Task>, read: set<Tx>, k: nat)
    requires RecordOk(w, covered, tasks, read) && k < |tasks|
    ensures TaskOk(w.listing, tasks[k], read) && RecordOk(w, covered, tasks[..k] + tasks[k + 1..], read)
  {
    hide TaskOk;
  }

  lemma ChosenIsOne(tasks: seq<Task>, priority: Option<Range>, live: Range, selected: nat, task: Task)
    requires Chosen(tasks, priority, live, selected, task)
    ensures selected < |tasks|
  {}

  /** The chosen task is read from the archive; what is left of it is found again by reconciling. */
  method Repair(ghost w: Setting, fetch: Fetch, next: Option<NextProvider>, covered: seq<Range>, tasks: seq<Task>,
                ghost read: set<Tx>, call: Call, liveFrom: int, now: int)
    returns (covered': seq<Range>, tasks': seq<Task>, ghost read': set<Tx>, transactions: seq<Tx>,
             ghost selected': nat, ghost repair: Pass)
    requires SettingOk(w, fetch, next) && RecordOk(w, covered, tasks, read) && Exact(covered, tasks, call.start, now)
    requires tasks != []
    ensures RecordOk(w, covered', tasks', read') && Normal(covered') && Exact(covered', tasks', call.start, now)
    ensures read' == read + TxSet(transactions) && AllShown(fetch, transactions)
    ensures RepairRead(w, fetch, next, call, liveFrom, now, read, tasks, selected', repair, transactions)
    ensures SameSeconds(covered', covered + repair.covered)
    ensures Carried(tasks[..selected'] + tasks[selected' + 1..] + PendingOf(Some(repair)), tasks', covered', call.start,
                    now)
  {
    hide RecordOk, SettingOk, Exact, Normal, Covered, TxSet, Ended, RowsOf, Carried, SameSeconds, ReadResult, AllShown,
         TaskOk, Chosen;
    TasksEnd(covered, tasks, call.start, now);
    var selected, task := ChooseRepair(tasks, call.priority, liveFrom, now);
    assert selected < |tasks| by { ChosenIsOne(tasks, call.priority, Range(liveFrom, now), selected, task); }
    ChosenIsPart(tasks, call.priority, Range(liveFrom, now), selected, task);
    TakenOut(w, covered, tasks, read, selected);
    var rest := tasks[..selected] + tasks[selected + 1..];
    UnreadIsOk(w, task.lo, task.remainingTo, read);
    SettingIs(w, fetch, next);
    var prefix, pending, outcome;
    ghost var log;
    transactions, prefix, pending, outcome, log :=
      ReadRange(w.archive, w.listing, w.providers, read, fetch, next, task, call.repairPages, true, 1000);
    selected', repair := selected, Pass(task, true, call.repairPages, 1000, log, prefix, pending, outcome);
    covered', tasks', read' := Fold(w, covered, rest, prefix, pending, task, read, transactions, call.start, now);
  }

  /** Both passes, from the record to what is left before compaction. */
  ghost predicate BothRead(w: Setting, fetch: Fetch, next: Option<NextProvider>, call: Call, from: int, now: int,
                           covered: seq<Range>, tasks: seq<Task>, read: set<Tx>, p: Passes, rows: seq<Tx>) {
    var headed := covered + CoveredBy(p.head);
    exists head, repaired ::
      && rows == head + repaired && HeadRead(w, fetch, next, call, from, now, read, p.head, head)
      && if HeadFailed(p.head) then repaired == [] && head == []
         else
           && Exact(headed, p.queued, call.start, now)
           && Carried(tasks + PendingOf(p.head), p.queued, headed, call.start, now)
           && (p.repair.Some? <==> p.queued != [] && !call.headOnly)
           && Normal(p.recorded) && SameSeconds(p.recorded, headed + CoveredBy(p.repair))
           && if p.repair.None? then repaired == [] && p.remaining == p.queued
              else
                && RepairRead(w, fetch, next, call, from, now, read + TxSet(head), p.queued, p.selected,
                              p.repair.value, repaired)
                && Carried(p.queued[..p.selected] + p.queued[p.selected + 1..] + PendingOf(p.repair), p.remaining,
                           p.recorded, call.start, now)
  }

  /** The head and then, when work is left and wanted, one repair. */
  method ReadBoth(ghost w: Setting, fetch: Fetch, next: Option<NextProvider>, covered: seq<Range>, tasks: seq<Task>,
                  ghost read: set<Tx>, call: Call, from: int, now: int)
    returns (failed: bool, covered': seq<Range>, tasks': seq<Task>, ghost read': set<Tx>, transactions: seq<Tx>,
             ghost p: Passes)
    requires SettingOk(w, fetch, next) && RecordOk(w, covered, tasks, read) && Normal(covered)
    ensures RecordOk(w, covered', tasks', read') && AllShown(fetch, transactions)
    ensures read' == read + TxSet(transactions) && (failed ==> transactions == [])
    ensures failed <==> HeadFailed(p.head)
    ensures BothRead(w, fetch, next, call, from, now, covered, tasks, read, p, transactions)
    ensures !failed ==>
              && Normal(covered') && Exact(covered', tasks', call.start, now)
              && p.recorded == covered' && p.remaining == tasks'
  {
    hide RecordOk, SettingOk, Exact, Normal, Covered, TxSet, AllShown, HeadRead, RepairRead, Carried, SameSeconds;
    ghost var head;
    failed, covered', tasks', read', transactions, head :=
      ReadHead(w, fetch, next, covered, tasks, read, call, from, now);
    ghost var headed, rows := covered', transactions;
    p := Passes(head, tasks', 0, None, covered', tasks');
    assert rows + [] == rows && covered + CoveredBy(head) + [] == covered + CoveredBy(head);
    if failed { return; }
    MissingAlike(covered', covered + CoveredBy(head), tasks + PendingOf(head), tasks', call.start, now);
    if tasks' != [] && !call.headOnly {
      var repaired;
      ghost var selected, repair;
      covered', tasks', read', repaired, selected, repair :=
        Repair(w, fetch, next, covered', tasks', read', call, from, now);
      ShownTogether(fetch, read, transactions, repaired);
      transactions := transactions + repaired;
      p := p.(selected := selected, repair := Some(repair), recorded := covered', remaining := tasks');
      SameOnTop(headed, covered + CoveredBy(head), repair.covered, covered');
    }
  }

  /** The passes depend on the covered seconds only. */
  lemma BothReadAlike(w: Setting, fetch: Fetch, next: Option<NextProvider>, call: Call, from: int, now: int,
                      a: seq<Range>, b: seq<Range>, tasks: seq<Task>, read: set<Tx>, p: Passes, rows: seq<Tx>)
    requires SameSeconds(b, a) && BothRead(w, fetch, next, call, from, now, a, tasks, read, p, rows)
    ensures BothRead(w, fetch, next, call, from, now, b, tasks, read, p, rows)
  {
    hide HeadRead, RepairRead, Carried, SameSeconds, Normal, Exact, TxSet;
    JoinedAlike(a, b, CoveredBy(p.head));
    JoinedAlike(a + CoveredBy(p.head), b + CoveredBy(p.head), CoveredBy(p.repair));
    AlikeThen(p.recorded, a + CoveredBy(p.head) + CoveredBy(p.repair), b + CoveredBy(p.head) + CoveredBy(p.repair));
    MissingAlike(a + CoveredBy(p.head), b + CoveredBy(p.head), tasks + PendingOf(p.head), p.queued, call.start, now);
  }

  lemma JoinedAlike(a: seq<Range>, b: seq<Range>, more: seq<Range>)
    requires SameSeconds(a, b) || SameSeconds(b, a)
    ensures SameSeconds(a + more, b + more)
  {
    forall t ensures Covered(a + more, t) <==> Covered(b + more, t) {
      CoveredConcat(a, more, t);
      CoveredConcat(b, more, t);
    }
  }

  lemma AlikeThen(a: seq<Range>, b: seq<Range>, c: seq<Range>)
    requires SameSeconds(b, c)
    ensures SameSeconds(a, b) ==> SameSeconds(a, c)
  {}

  lemma SameOnTop(a: seq<Range>, b: seq<Range>, more: seq<Range>, all: seq<Range>)
    requires SameSeconds(a, b) && SameSeconds(all, a + more)
    ensures SameSeconds(all, b + more)
  {
    forall t ensures Covered(all, t) <==> Covered(b + more, t) {
      CoveredConcat(a, more, t);
      CoveredConcat(b, more, t);
    }
  }

  datatype Stats = Stats(fullHistoryComplete: bool, liveGap: nat, initialPending: bool)

  datatype Call = Call(now: int, start: int, headPages: nat, repairPages: nat, overlap: int, headOnly: bool,
                       reuseHead: bool, priority: Option<Range>)

  /** What a finished collection stores and reports about the window `start..end`. */
  ghost predicate Concluded(covered: seq<Range>, tasks: seq<Task>, completeTo: Option<int>, stats: Stats, start: int,
                            end: int, from: int, initial: int)
  {
    && Normal(covered) && |covered| <= LIMIT && |tasks| <= LIMIT
    && Disjoint(tasks) && Within(tasks, start, end) && NothingLost(covered, tasks, start, end)
    && (stats.fullHistoryComplete <==> forall t :: start <= t <= end ==> Covered(covered, t))
    && stats.liveGap == |Seconds(covered, from, end)|
    && (stats.initialPending <==> exists t :: Missing(covered, start, initial, t))
    && (completeTo.Some? ==> start <= completeTo.value && !Covered(covered, completeTo.value + 1)
                             && forall t :: start <= t <= completeTo.value ==> Covered(covered, t))
    && (completeTo.None? && start > 0 ==> !Covered(covered, start))
  }

  method Conclude(ghost w: Setting, recorded: seq<Range>, queue: seq<Task>, ghost read: set<Tx>, start: int, end: int,
                  from: int, initial: int)
    returns (covered: seq<Range>, tasks: seq<Task>, completeTo: Option<int>, stats: Stats)
    requires RecordOk(w, recorded, queue, read) && Normal(recorded) && Exact(recorded, queue, start, end)
    ensures AllRead(w.archive, covered, read) && TasksOk(w, tasks, read)
    ensures Concluded(covered, tasks, completeTo, stats, start, end, from, initial)
    ensures covered == Compacted(recorded) && Reopened(recorded, queue, covered, tasks, start, end)
  {
    hide Carried, TasksCompacted;
    covered, tasks := CompactCoverage(w, recorded, queue, read, start, end);
    RecordParts(w, covered, tasks, read);
    NoTasksIffCovered(covered, tasks, start, end);
    hide RecordOk, AllRead, TasksOk;
    tasks := CompactTasks(w, covered, tasks, read, start, end);
    var gap := MissingSeconds(covered, from, end);
    var unread := MissingRanges(covered, start, initial);
    SomeMissing(covered, unread, start, initial);
    var mark := Watermark(covered, start);
    completeTo := if mark == Some(0) then None else mark;
    stats := Stats(tasks == [], gap, unread != []);
  }

  lemma NoTasks(w: Setting, read: set<Tx>)
    ensures TasksOk(w, [], read)
  {}

  /** The stored ranges in normal form, with the same seconds. */
  method Normalized(ghost w: Setting, covered: seq<Range>, ghost tasks: seq<Task>, ghost read: set<Tx>)
    returns (recorded: seq<Range>)
    requires AllRead(w.archive, covered, read) && TasksOk(w, tasks, read)
    ensures Normal(recorded) && RecordOk(w, recorded, tasks, read) && SameSeconds(covered, recorded)
  {
    recorded := MergeRanges(covered);
    CoverageKept(w, covered, recorded, read);
  }

  lemma ShownTogether(fetch: Fetch, read: set<Tx>, head: seq<Tx>, repaired: seq<Tx>)
    requires AllShown(fetch, head) && AllShown(fetch, repaired)
    ensures AllShown(fetch, head + repaired)
    ensures read + TxSet(head + repaired) == read + TxSet(head) + TxSet(repaired)
  {}

  class Record {
    var versioned: bool
    var covered: seq<Range>
    var tasks: seq<Task>
    // Zero stands for a field that is not set.
    var observed: int
    var liveFrom: int
    var initialTo: int
    var completeTo: Option<int>
    // Every transaction that a page ever returned.
    ghost var read: set<Tx>

    ghost predicate Valid(w: Setting)
      reads this
    {
      AllRead(w.archive, covered, read) && (versioned ==> TasksOk(w, tasks, read))
    }

    constructor ()
      ensures covered == [] && tasks == [] && !versioned && observed == 0 && read == {}
      ensures forall w :: Valid(w)
    {
      versioned, covered, tasks, observed, liveFrom, initialTo, completeTo, read := false, [], [], 0, 0, 0, None, {};
    }

    function Observed(): int
      reads this
    {
      if observed != 0 then observed else if versioned then 0 else LastCovered(covered)
    }

    /** The end of the window a call works on. */
    function Horizon(call: Call): int
      reads this
    {
      if call.reuseHead && Observed() != 0 && Observed() < call.now then Observed() else call.now
    }

    function LiveFrom(call: Call): int
      reads this
    {
      if call.reuseHead then (if liveFrom != 0 then liveFrom else call.start)
      else if Observed() != 0 then Max(call.start, Observed() - Max(0, call.overlap))
      else call.start
    }

    /**
     A failed head read changes nothing. What was read is what was read before and the returned
     transactions, all of them from pages. Unless the head read failed, covered implies read, no missing second of
     the window is without a task, and completeness is reported exactly when nothing is missing.
     */
    method Collect(ghost w: Setting, fetch: Fetch, next: Option<NextProvider>, call: Call)
      returns (stats: Option<Stats>, transactions: seq<Tx>, ghost p: Passes)
      requires Valid(w) && SettingOk(w, fetch, next)
      modifies this
      ensures Valid(w) && read == old(read) + TxSet(transactions) && AllShown(fetch, transactions)
      ensures stats.None? ==>
                && transactions == []
                && versioned == old(versioned) && covered == old(covered) && tasks == old(tasks)
                && observed == old(observed) && liveFrom == old(liveFrom) && initialTo == old(initialTo)
                   && completeTo == old(completeTo)
      ensures BothRead(w, fetch, next, call, old(LiveFrom(call)), old(Horizon(call)), old(covered),
                       if old(versioned) then old(tasks) else [], old(read), p, transactions)
      ensures stats.None? <==> HeadFailed(p.head)
      ensures stats.Some? ==>
                && covered == Compacted(p.recorded)
                && Reopened(p.recorded, p.remaining, covered, tasks, call.start, old(Horizon(call)))
                && observed == (if call.reuseHead then old(Observed()) else old(Horizon(call)))
                && initialTo == if old(initialTo) != 0 then old(initialTo) else old(Horizon(call))
      ensures stats.Some? ==>
                && versioned && liveFrom == old(LiveFrom(call))
                && Concluded(covered, tasks, completeTo, stats.value, call.start, old(Horizon(call)), liveFrom,
                             initialTo)
    {
      hide RecordOk, SettingOk, Exact, Normal, Covered, TasksOk, AllRead, Concluded, LastCovered, TxSet, AllShown,
           SameSeconds, BothRead, Compacted, Reopened;
      ghost var known := read;
      var queue := if versioned then tasks else [];
      NoTasks(w, known);
      var recorded := Normalized(w, covered, queue, known);
      var seen, now, from := Observed(), Horizon(call), LiveFrom(call);
      hide Observed, Horizon, LiveFrom;
      var initial := if initialTo != 0 then initialTo else now;
      var failed;
      ghost var stored, was, kept := covered, recorded, queue;
      failed, recorded, queue, known, transactions, p :=
        ReadBoth(w, fetch, next, recorded, queue, known, call, from, now);
      BothReadAlike(w, fetch, next, call, from, now, was, stored, kept, read, p, transactions);
      if failed { return None, transactions, p; }
      if !call.reuseHead { seen := now; }
      var mark, report;
      recorded, queue, mark, report := Conclude(w, recorded, queue, known, call.start, now, from, initial);
      versioned, covered, tasks, read := true, recorded, queue, known;
      observed, liveFrom, initialTo, completeTo := seen, from, initial, mark;
      stats := Some(report);
    }
  }

  /** The transactions that the first collections returned. */
  function Union(returned: seq<seq<Tx>>): set<Tx> {
    if returned == [] then {} else Union(returned[..|returned| - 1]) + TxSet(returned[|returned| - 1])
  }

  lemma UnionMore(returned: seq<seq<Tx>>, transactions: seq<Tx>)
    ensures Union(returned + [transactions]) == Union(returned) + TxSet(transactions)
  {
    assert (returned + [transactions])[..|returned|] == returned;
  }

  /**
   Any number of collections, whatever the providers answer and whichever fail: every archived
   transaction of a covered second is among those returned by then, all of which pages showed.
   */
  method Run(ghost w: Setting, record: Record, fetches: seq<Fetch>, next: Option<NextProvider>, calls: seq<Call>)
    returns (returned: seq<seq<Tx>>)
    requires record.Valid(w) && |fetches| == |calls| && forall i :: 0 <= i < |calls| ==> SettingOk(w, fetches[i], next)
    modifies record
    ensures record.Valid(w) && |returned| == |calls| && record.read == old(record.read) + Union(returned)
    ensures forall i :: 0 <= i < |calls| ==> AllShown(fetches[i], returned[i])
    ensures forall tx :: tx in w.archive && Covered(record.covered, tx.time) ==>
              tx in old(record.read) || tx in Union(returned)
  {
    hide SettingOk, AllShown, TxSet, Concluded, LastCovered, AllRead, TasksOk, Covered, BothRead, Compacted;
    returned := [];
    for i := 0 to |calls|
      invariant record.Valid(w) && |returned| == i && record.read == old(record.read) + Union(returned)
      invariant forall k :: 0 <= k < i ==> AllShown(fetches[k], returned[k])
    {
      var stats, transactions;
      ghost var p;
      stats, transactions, p := record.Collect(w, fetches[i], next, calls[i]);
      UnionMore(returned, transactions);
      returned := returned + [transactions];
    }
    AllReadSeconds(w.archive, record.covered, record.read);
  }
}
