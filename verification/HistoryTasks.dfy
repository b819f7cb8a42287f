/** Unread work as resumable tasks that tile the missing seconds. */
module HistoryTasks {
  import opened Wrappers
  import opened Ranges

  type Provider = string

  /**
   Unread are the seconds `lo..remainingTo`. A cursor continues a descending read of the frozen
   window `lo..to` at the provider that issued it.
   */
  datatype Task = Task(lo: int, to: int, remainingTo: int, cursor: Option<nat>, provider: Option<Provider>)

  function Unread(lo: int, hi: int): Task {
    Task(lo, hi, hi, None, None)
  }

  function SpanOf(task: Task): Range {
    Range(task.lo, task.remainingTo)
  }

  function Spans(tasks: seq<Task>): (r: seq<Range>)
    ensures |r| == |tasks| && forall i :: 0 <= i < |r| ==> r[i] == SpanOf(tasks[i])
  {
    seq(|tasks|, i requires 0 <= i < |tasks| => SpanOf(tasks[i]))
  }

  /** Ascending, nonempty and disjoint. */
  predicate Disjoint(tasks: seq<Task>) {
    && (forall i :: 0 <= i < |tasks| ==> tasks[i].lo <= tasks[i].remainingTo)
    && (forall i, j :: 0 <= i < j < |tasks| ==> tasks[i].remainingTo < tasks[j].lo)
  }

  predicate Within(tasks: seq<Task>, lo: int, hi: int) {
    forall i :: 0 <= i < |tasks| ==> lo <= tasks[i].lo && tasks[i].remainingTo <= hi
  }

  predicate KeptOrUnread(result: seq<Task>, tasks: seq<Task>) {
    forall i :: 0 <= i < |result| ==> result[i] in tasks || result[i] == Unread(result[i].lo, result[i].remainingTo)
  }

  // ---- order by lower bound ----

  predicate ByLower(tasks: seq<Task>) {
    forall i, j :: 0 <= i < j < |tasks| ==> tasks[i].lo <= tasks[j].lo
  }

  function InsertTask(tasks: seq<Task>, task: Task): seq<Task> {
    if tasks == [] || task.lo < tasks[0].lo then [task] + tasks else [tasks[0]] + InsertTask(tasks[1..], task)
  }

  lemma {:induction false} InsertTaskKeeps(tasks: seq<Task>, task: Task)
    requires ByLower(tasks)
    ensures ByLower(InsertTask(tasks, task))
    ensures forall t :: t in InsertTask(tasks, task) <==> t in tasks || t == task
    decreases |tasks|
  {
    if tasks != [] && task.lo >= tasks[0].lo {
      InsertTaskKeeps(tasks[1..], task);
      assert tasks == [tasks[0]] + tasks[1..];
      var r := InsertTask(tasks[1..], task);
      forall j | 0 <= j < |r| ensures tasks[0].lo <= r[j].lo {
        assert r[j] in r;
      }
    }
  }

  method SortTasks(tasks: seq<Task>) returns (sorted: seq<Task>)
    ensures ByLower(sorted) && forall t :: t in sorted <==> t in tasks
  {
    sorted := [];
    for i := 0 to |tasks|
      invariant ByLower(sorted) && forall t :: t in sorted <==> t in tasks[..i]
    {
      assert tasks[..i + 1] == tasks[..i] + [tasks[i]];
      InsertTaskKeeps(sorted, tasks[i]);
      hide ByLower, InsertTask;
      sorted := InsertTask(sorted, tasks[i]);
    }
    assert tasks[..|tasks|] == tasks;
  }

  // ---- one missing range ----

  ghost predicate Tiles(tasks: seq<Task>, lo: int, hi: int) {
    && Disjoint(tasks) && Within(tasks, lo, hi)
    && forall t :: Covered(Spans(tasks), t) <==> lo <= t <= hi
  }

  lemma TilesOnTop(tasks: seq<Task>, lo: int, hi: int, task: Task)
    requires lo <= hi + 1 && Tiles(tasks, lo, hi) && task.lo == hi + 1 <= task.remainingTo
    ensures Tiles(tasks + [task], lo, task.remainingTo)
  {
    assert Spans(tasks + [task]) == Spans(tasks) + [SpanOf(task)];
    forall t ensures Covered(Spans(tasks + [task]), t) <==> lo <= t <= task.remainingTo {
      Appended(Spans(tasks), SpanOf(task), t);
    }
  }

  predicate Fits(task: Task, lo: int, hi: int) {
    lo <= task.lo <= task.remainingTo <= hi
  }

  /** The task is kept, or gives way to a kept one that begins no later and runs into it. */
  ghost predicate StandsIn(part: seq<Task>, tasks: seq<Task>, x: Task) {
    exists y :: y in part && y in tasks && y.lo <= x.lo <= y.remainingTo
  }

  ghost predicate FittingKept(part: seq<Task>, sorted: seq<Task>, lo: int, hi: int) {
    forall x :: x in sorted && Fits(x, lo, hi) ==> StandsIn(part, sorted, x)
  }

  /** Where filling stands: at the start, or right behind a kept task. */
  predicate StandsAt(part: seq<Task>, done: seq<Task>, lo: int, lower: int) {
    lower == lo || exists x :: x in done && x in part && x.remainingTo + 1 == lower
  }

  lemma SkippedDoesNotFit(sorted: seq<Task>, part: seq<Task>, k: nat, lo: int, lower: int, hi: int)
    requires k < |sorted| && ByLower(sorted) && StandsAt(part, sorted[..k], lo, lower)
    requires sorted[k].lo < lower || sorted[k].remainingTo > hi || sorted[k].remainingTo < sorted[k].lo
    ensures Fits(sorted[k], lo, hi) ==> StandsIn(part, sorted[..k], sorted[k])
  {
    if Fits(sorted[k], lo, hi) {
      var x :| x in sorted[..k] && x in part && x.remainingTo + 1 == lower;
      var j :| 0 <= j < k && sorted[j] == x;
    }
  }

  lemma FittingKeptOnTop(part: seq<Task>, next: seq<Task>, done: seq<Task>, task: Task, lo: int, hi: int)
    requires FittingKept(part, done, lo, hi) && forall x :: x in part ==> x in next
    requires Fits(task, lo, hi) ==> task in next || StandsIn(part, done, task)
    ensures FittingKept(next, done + [task], lo, hi)
  {
    forall x | x in done + [task] && Fits(x, lo, hi) ensures StandsIn(next, done + [task], x) {
      if x == task && task in next {
        assert x in next && x in done + [task];
      } else {
        assert StandsIn(part, done, x);
        var y :| y in part && y in done && y.lo <= x.lo <= y.remainingTo;
        assert y in next && y in done + [task];
      }
    }
  }

  /** Fitting tasks are kept where they are; the seconds between them become fresh tasks. */
  method FillRange(sorted: seq<Task>, lo: int, hi: int) returns (part: seq<Task>)
    requires lo <= hi && ByLower(sorted)
    ensures Tiles(part, lo, hi) && KeptOrUnread(part, sorted) && FittingKept(part, sorted, lo, hi)
  {
    var lower := lo;
    part := [];
    FillStarts(sorted, lo, hi);
    hide Tiles, KeptOrUnread, ByLower, FittingKept, StandsIn, StandsAt;
    for k := 0 to |sorted|
      invariant lo <= lower <= hi + 1
      invariant Tiles(part, lo, lower - 1) && KeptOrUnread(part, sorted)
      invariant StandsAt(part, sorted[..k], lo, lower) && FittingKept(part, sorted[..k], lo, hi)
    {
      var task := sorted[k];
      assert sorted[..k + 1] == sorted[..k] + [task];
      ghost var was, at := part, lower;
      if task.lo < lower || task.remainingTo > hi || task.remainingTo < task.lo {
        SkippedDoesNotFit(sorted, part, k, lo, lower, hi);
      } else {
        part, lower := Place(sorted, part, lo, lower, task);
      }
      StandsOnTop(was, part, sorted[..k], task, lo, at, lower);
      FittingKeptOnTop(was, part, sorted[..k], task, lo, hi);
    }
    assert sorted[..|sorted|] == sorted;
    if lower <= hi {
      ghost var was := part;
      part, lower := Place(sorted, part, lo, lower, Unread(lower, hi));
      FittingKeptGrows(was, part, sorted, lo, hi);
    }
  }

  lemma FillStarts(sorted: seq<Task>, lo: int, hi: int)
    ensures Tiles([], lo, lo - 1) && KeptOrUnread([], sorted) && StandsAt([], sorted[..0], lo, lo)
    ensures FittingKept([], sorted[..0], lo, hi)
  {}

  lemma FittingKeptGrows(part: seq<Task>, next: seq<Task>, sorted: seq<Task>, lo: int, hi: int)
    requires FittingKept(part, sorted, lo, hi) && forall x :: x in part ==> x in next
    ensures FittingKept(next, sorted, lo, hi)
  {
    forall x | x in sorted && Fits(x, lo, hi) ensures StandsIn(next, sorted, x) {
      var y :| y in part && y in sorted && y.lo <= x.lo <= y.remainingTo;
      assert y in next;
    }
  }

  lemma StandsOnTop(part: seq<Task>, next: seq<Task>, done: seq<Task>, task: Task, lo: int, lower: int, after: int)
    requires StandsAt(part, done, lo, lower) && forall x :: x in part ==> x in next
    requires after == lower || (after == task.remainingTo + 1 && task in next)
    ensures StandsAt(next, done + [task], lo, after)
  {
    if after == lower && lower != lo {
      var x :| x in done && x in part && x.remainingTo + 1 == lower;
      assert x in done + [task];
    } else if after != lower {
      assert task in done + [task];
    }
  }

  /** A task goes on top, behind a fresh one for the seconds below it. */
  method Place(sorted: seq<Task>, part: seq<Task>, lo: int, lower: int, task: Task) returns (r: seq<Task>, next: int)
    requires lo <= lower <= task.lo <= task.remainingTo && Tiles(part, lo, lower - 1) && KeptOrUnread(part, sorted)
    requires task in sorted || task == Unread(task.lo, task.remainingTo)
    ensures next == task.remainingTo + 1 && Tiles(r, lo, next - 1) && KeptOrUnread(r, sorted)
    ensures task in r && forall x :: x in part ==> x in r
  {
    r := part;
    if lower < task.lo {
      TilesOnTop(r, lo, lower - 1, Unread(lower, task.lo - 1));
      r := r + [Unread(lower, task.lo - 1)];
    }
    TilesOnTop(r, lo, task.lo - 1, task);
    r := r + [task];
    next := task.remainingTo + 1;
  }

  // ---- all missing ranges ----

  /** Nothing of this range has been read meanwhile. */
  ghost predicate StillMissing(x: Task, covered: seq<Range>, start: int, end: int) {
    x.lo <= x.remainingTo && forall t :: x.lo <= t <= x.remainingTo ==> Missing(covered, start, end, t)
  }

  /**
   The result tiles the missing seconds with disjoint ordered tasks, and a task whose unread seconds
   are all still missing keeps its cursor unless it runs into a kept one.
   */
  method ReconcileTasks(tasks: seq<Task>, covered: seq<Range>, start: int, end: int) returns (result: seq<Task>)
    ensures Disjoint(result) && KeptOrUnread(result, tasks) && Within(result, start, end)
    ensures forall t :: Covered(Spans(result), t) <==> Missing(covered, start, end, t)
    ensures forall x :: x in tasks && StillMissing(x, covered, start, end) ==> StandsIn(result, tasks, x)
  {
    hide Covered, StandsIn, FittingKept, Disjoint, KeptOrUnread, Within, Tiles, ByLower, Normal;
    var missing := MissingRanges(covered, start, end);
    var sorted := SortTasks(tasks);
    result := [];
    NothingTiled(sorted, tasks, missing);
    for i := 0 to |missing|
      invariant TiledSoFar(result, sorted, tasks, missing, i)
    {
      ProperRange(missing, i);
      var part := FillRange(sorted, missing[i].lo, missing[i].hi);
      TiledStep(result, part, sorted, tasks, missing, i);
      result := result + part;
    }
    TiledAll(result, sorted, tasks, missing, covered, start, end);
  }

  /** Tasks apart from each other: none overlaps another. */
  predicate Apart(tasks: seq<Task>) {
    forall x, y :: x in tasks && y in tasks && x != y ==> x.remainingTo < y.lo || y.remainingTo < x.lo
  }

  /** Tasks that do not overlap only ever stand in for themselves. */
  lemma ApartAreKept(part: seq<Task>, tasks: seq<Task>, x: Task)
    requires Apart(tasks) && x in tasks && x.lo <= x.remainingTo && StandsIn(part, tasks, x)
    ensures x in part
  {
    var y :| y in part && y in tasks && y.lo <= x.lo <= y.remainingTo;
    assert y == x;
  }

  /** The first `n` missing ranges are tiled, and their fitting tasks kept. */
  ghost predicate TiledSoFar(result: seq<Task>, sorted: seq<Task>, tasks: seq<Task>, missing: seq<Range>, n: nat)
    requires n <= |missing|
  {
    && Disjoint(result) && KeptOrUnread(result, tasks)
    && (n > 0 ==> Within(result, missing[0].lo, missing[n - 1].hi)) && (n == 0 ==> result == [])
    && (forall t :: Covered(Spans(result), t) <==> Covered(missing[..n], t))
    && forall k :: 0 <= k < n ==> FittingKept(result, sorted, missing[k].lo, missing[k].hi)
  }

  lemma NothingTiled(sorted: seq<Task>, tasks: seq<Task>, missing: seq<Range>)
    ensures TiledSoFar([], sorted, tasks, missing, 0)
  {}

  lemma ProperRange(missing: seq<Range>, i: nat)
    requires Normal(missing) && i < |missing|
    ensures missing[i].lo <= missing[i].hi
  {}

  lemma TiledStep(result: seq<Task>, part: seq<Task>, sorted: seq<Task>, tasks: seq<Task>, missing: seq<Range>, i: nat)
    requires i < |missing| && Normal(missing) && TiledSoFar(result, sorted, tasks, missing, i)
    requires (forall t :: t in sorted <==> t in tasks) && Tiles(part, missing[i].lo, missing[i].hi)
    requires KeptOrUnread(part, sorted) && FittingKept(part, sorted, missing[i].lo, missing[i].hi)
    ensures TiledSoFar(result + part, sorted, tasks, missing, i + 1)
  {
    TiledShape(result, part, sorted, tasks, missing, i);
    TiledCovers(result, part, missing, i);
    hide Covered, Disjoint, Within, KeptOrUnread, FittingKept;
    forall k | 0 <= k < i + 1 ensures FittingKept(result + part, sorted, missing[k].lo, missing[k].hi) {
      FittingKeptGrows(if k < i then result else part, result + part, sorted, missing[k].lo, missing[k].hi);
    }
  }

  lemma TiledShape(result: seq<Task>, part: seq<Task>, sorted: seq<Task>, tasks: seq<Task>, missing: seq<Range>, i: nat)
    requires i < |missing| && Normal(missing) && TiledSoFar(result, sorted, tasks, missing, i)
    requires (forall t :: t in sorted <==> t in tasks) && Tiles(part, missing[i].lo, missing[i].hi)
    requires KeptOrUnread(part, sorted)
    ensures Disjoint(result + part) && KeptOrUnread(result + part, tasks)
    ensures Within(result + part, missing[0].lo, missing[i].hi)
  {
    hide Covered, FittingKept;
  }

  lemma TiledCovers(result: seq<Task>, part: seq<Task>, missing: seq<Range>, i: nat)
    requires i < |missing| && Tiles(part, missing[i].lo, missing[i].hi)
    requires forall t :: Covered(Spans(result), t) <==> Covered(missing[..i], t)
    ensures forall t :: Covered(Spans(result + part), t) <==> Covered(missing[..i + 1], t)
  {
    assert missing[..i + 1] == missing[..i] + [missing[i]];
    assert Spans(result + part) == Spans(result) + Spans(part);
    forall t ensures Covered(Spans(result + part), t) <==> Covered(missing[..i + 1], t) {
      CoveredConcat(Spans(result), Spans(part), t);
      Appended(missing[..i], missing[i], t);
    }
  }

  lemma TiledAll(result: seq<Task>, sorted: seq<Task>, tasks: seq<Task>, missing: seq<Range>, covered: seq<Range>,
                 start: int, end: int)
    requires TiledSoFar(result, sorted, tasks, missing, |missing|) && Normal(missing)
    requires (forall t :: t in sorted <==> t in tasks)
    requires forall t :: Covered(missing, t) <==> Missing(covered, start, end, t)
    ensures Disjoint(result) && KeptOrUnread(result, tasks) && Within(result, start, end)
    ensures forall t :: Covered(Spans(result), t) <==> Missing(covered, start, end, t)
    ensures forall x :: x in tasks && StillMissing(x, covered, start, end) ==> StandsIn(result, tasks, x)
  {
    assert missing[..|missing|] == missing;
    assert forall t :: Covered(missing, t) ==> start <= t <= end;
    hide Covered, KeptOrUnread, Normal;
    TasksWithin(result, missing, start, end);
    hide Disjoint, Within;
    forall x | x in tasks && StillMissing(x, covered, start, end) ensures StandsIn(result, tasks, x) {
      var k := InOneRange(missing, x.lo, x.remainingTo);
      assert FittingKept(result, sorted, missing[k].lo, missing[k].hi) && Fits(x, missing[k].lo, missing[k].hi);
      var y :| y in result && y in sorted && y.lo <= x.lo <= y.remainingTo;
    }
  }

  lemma TasksWithin(result: seq<Task>, missing: seq<Range>, start: int, end: int)
    requires Disjoint(result) && forall t :: Covered(Spans(result), t) <==> Covered(missing, t)
    requires forall t :: Covered(missing, t) ==> start <= t <= end
    ensures Within(result, start, end)
  {
    forall i | 0 <= i < |result| ensures start <= result[i].lo && result[i].remainingTo <= end {
      var r := Spans(result)[i];
      assert r.lo <= r.lo <= r.hi && r.lo <= r.hi <= r.hi;
      assert Covered(Spans(result), r.lo) && Covered(Spans(result), r.hi);
    }
  }

  lemma RangesApart(rs: seq<Range>, j: nat, k: nat)
    requires Normal(rs) && j < |rs| && k < |rs|
    ensures j < k ==> rs[j].hi + 1 < rs[k].lo
    ensures k < j ==> rs[k].hi + 1 < rs[j].lo
  {}

  /** Consecutive covered seconds lie in one range of a normal form. */
  lemma {:induction false} InOneRange(rs: seq<Range>, lo: int, hi: int) returns (k: nat)
    requires Normal(rs) && lo <= hi && forall t :: lo <= t <= hi ==> Covered(rs, t)
    ensures k < |rs| && rs[k].lo <= lo && hi <= rs[k].hi
    decreases hi - lo
  {
    if lo == hi {
      assert Covered(rs, lo);
      k :| 0 <= k < |rs| && rs[k].lo <= lo <= rs[k].hi;
    } else {
      k := InOneRange(rs, lo, hi - 1);
      assert Covered(rs, hi);
      var j :| 0 <= j < |rs| && rs[j].lo <= hi <= rs[j].hi;
      RangesApart(rs, j, k);
    }
  }
}
