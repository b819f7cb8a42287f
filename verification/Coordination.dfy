/** Synchronous purchases and their maximal groups. */
module Coordination {
  // A sliding window over time-ordered rows, three distinct transactions per window, and the filter
  // that keeps only maximal groups (`coordinated_activity.py`).

  import opened Matching

  /** A purchase; the times are seconds. */
  datatype Row = Row(owner: Owner, transaction: Transaction, bought: real, funded: real)

  datatype Field = Bought | Funded

  function At(row: Row, field: Field): real {
    if field.Bought? then row.bought else row.funded
  }

  function Owners(rows: seq<Row>): set<Owner> {
    set r | r in rows :: r.owner
  }

  // ---- what the detector is for ----

  ghost predicate Near(x: Row, y: Row, field: Field, seconds: real) {
    At(x, field) - At(y, field) <= seconds && At(y, field) - At(x, field) <= seconds
  }

  /** Three rows that lie within `seconds` of each other. */
  ghost predicate Within(x: Row, y: Row, z: Row, field: Field, seconds: real) {
    Near(x, y, field, seconds) && Near(x, z, field, seconds) && Near(y, z, field, seconds)
  }

  ghost predicate ThreeOwners(x: Row, y: Row, z: Row) {
    x.owner != y.owner && x.owner != z.owner && y.owner != z.owner
  }

  ghost predicate ThreeTransactions(x: Row, y: Row, z: Row) {
    x.transaction != y.transaction && x.transaction != z.transaction && y.transaction != z.transaction
  }

  /** Three purchases by three owners in three transactions. */
  ghost predicate Independent(x: Row, y: Row, z: Row) {
    ThreeOwners(x, y, z) && ThreeTransactions(x, y, z)
  }

  ghost predicate HasIndependent(rows: seq<Row>) {
    exists x, y, z :: x in rows && y in rows && z in rows && Independent(x, y, z)
  }

  // ---- distinct transactions of a window ----

  function ChoicesOf(rows: seq<Row>): Choices {
    map o | o in Owners(rows) :: Chosen(rows, o)
  }

  function Chosen(rows: seq<Row>, owner: Owner): set<Transaction> {
    set r | r in rows && r.owner == owner :: r.transaction
  }

  method Gather(rows: seq<Row>) returns (choices: Choices)
    ensures choices == ChoicesOf(rows)
  {
    choices := map[];
    for i := 0 to |rows|
      invariant choices == ChoicesOf(rows[..i])
    {
      var row := rows[i];
      GatherStep(rows, i);
      choices := choices[row.owner := (if row.owner in choices then choices[row.owner] else {}) + {row.transaction}];
    }
    assert rows[..|rows|] == rows;
  }

  lemma GatherStep(rows: seq<Row>, i: nat)
    requires i < |rows|
    ensures var before, row := ChoicesOf(rows[..i]), rows[i];
            ChoicesOf(rows[..i + 1])
              == before[row.owner := (if row.owner in before then before[row.owner] else {}) + {row.transaction}]
  {
    var row, less, more := rows[i], rows[..i], rows[..i + 1];
    assert more == less + [row];
    OwnersAppend(less, row);
    forall o ensures Chosen(more, o) == Chosen(less, o) + if o == row.owner then {row.transaction} else {} {
      ChosenAppend(less, row, o);
    }
    if row.owner !in Owners(less) {
      assert Chosen(less, row.owner) == {};
    }
    SameChoices(less, more, row);
  }

  lemma SameChoices(less: seq<Row>, more: seq<Row>, row: Row)
    requires Owners(more) == Owners(less) + {row.owner}
    requires forall o :: Chosen(more, o) == Chosen(less, o) + if o == row.owner then {row.transaction} else {}
    requires row.owner !in Owners(less) ==> Chosen(less, row.owner) == {}
    ensures var before := ChoicesOf(less);
            ChoicesOf(more)
              == before[row.owner := (if row.owner in before then before[row.owner] else {}) + {row.transaction}]
  {
    hide Owners, Chosen;
    var before := ChoicesOf(less);
    var after := before[row.owner := (if row.owner in before then before[row.owner] else {}) + {row.transaction}];
    assert after.Keys == ChoicesOf(more).Keys;
    forall o | o in after ensures after[o] == ChoicesOf(more)[o] {
      assert Chosen(more, o) == Chosen(less, o) + if o == row.owner then {row.transaction} else {};
    }
  }

  lemma OwnersAppend(rows: seq<Row>, row: Row)
    ensures Owners(rows + [row]) == Owners(rows) + {row.owner}
  {
    forall r ensures r in rows + [row] <==> r in rows || r == row {}
    assert row in rows + [row];
  }

  lemma ChosenAppend(rows: seq<Row>, row: Row, o: Owner)
    ensures Chosen(rows + [row], o) == Chosen(rows, o) + if o == row.owner then {row.transaction} else {}
  {
    forall r ensures r in rows + [row] <==> r in rows || r == row {}
    assert row in rows + [row];
  }

  /** A matching of size three is three independent purchases, and the other way round. */
  lemma ThreeMatchedIffIndependent(rows: seq<Row>)
    ensures HasMatching(ChoicesOf(rows), 3) <==> HasIndependent(rows)
  {
    if HasMatching(ChoicesOf(rows), 3) {
      MatchedAreIndependent(rows);
    }
    if HasIndependent(rows) {
      IndependentAreMatched(rows);
    }
  }

  lemma IndependentAreMatched(rows: seq<Row>)
    requires HasIndependent(rows)
    ensures HasMatching(ChoicesOf(rows), 3)
  {
    var x, y, z :| x in rows && y in rows && z in rows && Independent(x, y, z);
    var m: Assignment := map[x.transaction := x.owner, y.transaction := y.owner, z.transaction := z.owner];
    assert m.Keys == {x.transaction, y.transaction, z.transaction};
    assert x.owner in Owners(rows) && y.owner in Owners(rows) && z.owner in Owners(rows);
    assert Uses(ChoicesOf(rows), m) by {
      assert x.transaction in Chosen(rows, x.owner);
      assert y.transaction in Chosen(rows, y.owner);
      assert z.transaction in Chosen(rows, z.owner);
    }
    assert Injective(m);
    SizeWitness(ChoicesOf(rows), m);
  }

  lemma MatchedAreIndependent(rows: seq<Row>)
    requires HasMatching(ChoicesOf(rows), 3)
    ensures HasIndependent(rows)
  {
    var m :| IsMatching(ChoicesOf(rows), m) && |m| == 3;
    var s :| s in m.Keys;
    assert |m.Keys - {s}| == 2;
    var t :| t in m.Keys - {s};
    assert |m.Keys - {s} - {t}| == 1;
    var u :| u in m.Keys - {s} - {t};
    var x := RowOf(rows, m, s);
    var y := RowOf(rows, m, t);
    var z := RowOf(rows, m, u);
    assert Independent(x, y, z);
  }

  lemma RowOf(rows: seq<Row>, m: Assignment, t: Transaction) returns (row: Row)
    requires IsMatching(ChoicesOf(rows), m) && t in m
    ensures row in rows && row.owner == m[t] && row.transaction == t
  {
    assert t in Chosen(rows, m[t]);
    row :| row in rows && row.owner == m[t] && row.transaction == t;
  }

  /** `_distinct_transactions` tells exactly whether a window holds three independent purchases. */
  method DistinctTransactions(rows: seq<Row>) returns (count: nat)
    ensures count <= 3 && HasMatching(ChoicesOf(rows), count)
    ensures count < 3 ==> IsMaximum(ChoicesOf(rows), count)
    ensures count == 3 <==> HasIndependent(rows)
  {
    var choices := Gather(rows);
    count := CountDistinct(choices);
    ThreeMatchedIffIndependent(rows);
  }

  // ---- the sliding window ----

  ghost predicate Ordered(rows: seq<Row>, field: Field) {
    forall i, j :: 0 <= i <= j < |rows| ==> At(rows[i], field) <= At(rows[j], field)
  }

  method InsertRow(rows: seq<Row>, row: Row, field: Field) returns (longer: seq<Row>)
    requires Ordered(rows, field)
    ensures Ordered(longer, field) && multiset(longer) == multiset(rows) + multiset{row}
  {
    hide Ordered, At;
    var k := |rows|;
    while k > 0 && At(rows[k - 1], field) > At(row, field)
      invariant 0 <= k <= |rows| && forall j :: k <= j < |rows| ==> At(rows[j], field) > At(row, field)
    {
      k := k - 1;
    }
    longer := rows[..k] + [row] + rows[k..];
    InsertKeepsOrder(rows, row, field, k);
    hide *;
    assert rows == rows[..k] + rows[k..];
  }

  lemma InsertKeepsOrder(rows: seq<Row>, row: Row, field: Field, k: nat)
    requires Ordered(rows, field) && k <= |rows|
    requires k > 0 ==> At(rows[k - 1], field) <= At(row, field)
    requires forall j :: k <= j < |rows| ==> At(rows[j], field) > At(row, field)
    ensures Ordered(rows[..k] + [row] + rows[k..], field)
  {
    hide At;
    var longer := rows[..k] + [row] + rows[k..];
    forall i, j | 0 <= i <= j < |longer| ensures At(longer[i], field) <= At(longer[j], field) {
      assert longer[i] == if i < k then rows[i] else if i == k then row else rows[i - 1];
      assert longer[j] == if j < k then rows[j] else if j == k then row else rows[j - 1];
      if i < k {
        assert At(rows[i], field) <= At(rows[k - 1], field);
      }
    }
  }

  method SortRows(rows: seq<Row>, field: Field) returns (ordered: seq<Row>)
    ensures Ordered(ordered, field) && multiset(ordered) == multiset(rows)
  {
    ordered := [];
    for i := 0 to |rows|
      invariant Ordered(ordered, field) && multiset(ordered) == multiset(rows[..i])
    {
      ordered := InsertRow(ordered, rows[i], field);
      assert rows[..i + 1] == rows[..i] + [rows[i]];
    }
    assert rows[..|rows|] == rows;
  }

  lemma SameRows(xs: seq<Row>, ys: seq<Row>)
    requires multiset(xs) == multiset(ys)
    ensures forall r :: r in xs <==> r in ys
  {
    forall r ensures r in xs <==> r in ys {
      assert r in multiset(xs) <==> r in xs;
      assert r in multiset(ys) <==> r in ys;
    }
  }

  /** A window: rows of the input spanning at most `seconds`, by three owners or more. */
  ghost predicate IsWindow(rows: seq<Row>, field: Field, seconds: real, window: seq<Row>) {
    && (forall r :: r in window ==> r in rows)
    && (forall x, y :: x in window && y in window ==> Near(x, y, field, seconds))
    && |Owners(window)| >= 3
  }

  predicate Includes(window: seq<Row>, group: seq<Row>) {
    forall r :: r in group ==> r in window
  }

  /** All the rows of a group lie together in one of the windows. */
  ghost predicate InOne(windows: seq<seq<Row>>, group: seq<Row>) {
    exists w :: w in windows && Includes(w, group)
  }

  /** Every rows by three owners or more that fit, however many they are, lie together in one of the windows. */
  ghost predicate Complete(rows: seq<Row>, field: Field, seconds: real, windows: seq<seq<Row>>) {
    forall group :: IsWindow(rows, field, seconds, group) ==> InOne(windows, group)
  }

  /** The rows of `ordered` up to `right` no more than `seconds` before it. */
  ghost predicate LeftEdge(ordered: seq<Row>, field: Field, seconds: real, left: nat, right: nat)
    requires right < |ordered|
  {
    && left <= right && At(ordered[right], field) - At(ordered[left], field) <= seconds
    && forall i :: 0 <= i < left ==> At(ordered[right], field) - At(ordered[i], field) > seconds
  }

  /** Groups whose latest row lies before `right` are already together in a window. */
  ghost predicate CompleteBelow(ordered: seq<Row>, field: Field, seconds: real, right: nat, windows: seq<seq<Row>>) {
    right <= |ordered| && forall group :: IsWindow(ordered[..right], field, seconds, group) ==> InOne(windows, group)
  }

  lemma WindowHolds(ordered: seq<Row>, field: Field, seconds: real, left: nat, right: nat, i: nat)
    requires right < |ordered| && Ordered(ordered, field) && LeftEdge(ordered, field, seconds, left, right)
    requires i <= right && Near(ordered[i], ordered[right], field, seconds)
    ensures ordered[i] in ordered[left..right + 1]
  {
    assert left <= i;
    assert ordered[left..right + 1][i - left] == ordered[i];
  }

  lemma WindowSpans(ordered: seq<Row>, field: Field, seconds: real, left: nat, right: nat)
    requires right < |ordered| && Ordered(ordered, field) && LeftEdge(ordered, field, seconds, left, right)
    ensures forall x, y :: x in ordered[left..right + 1] && y in ordered[left..right + 1] ==> Near(x, y, field, seconds)
    ensures forall x :: x in ordered[left..right + 1] ==> x in ordered
  {
    var window := ordered[left..right + 1];
    forall x, y | x in window && y in window ensures Near(x, y, field, seconds) {
      var i :| 0 <= i < |window| && window[i] == x;
      var j :| 0 <= j < |window| && window[j] == y;
      assert x == ordered[left + i] && y == ordered[left + j];
    }
  }

  lemma CompleteStep(ordered: seq<Row>, field: Field, seconds: real, left: nat, right: nat, before: seq<seq<Row>>,
                     after: seq<seq<Row>>)
    requires right < |ordered| && Ordered(ordered, field) && LeftEdge(ordered, field, seconds, left, right)
    requires CompleteBelow(ordered, field, seconds, right, before)
    requires after == before + (if |Owners(ordered[left..right + 1])| >= 3 then [ordered[left..right + 1]] else [])
    ensures CompleteBelow(ordered, field, seconds, right + 1, after)
  {
    var window := ordered[left..right + 1];
    assert ordered[..right + 1] == ordered[..right] + [ordered[right]];
    forall group | IsWindow(ordered[..right + 1], field, seconds, group) ensures InOne(after, group) {
      if ordered[right] !in group {
        assert IsWindow(ordered[..right], field, seconds, group);
        var w :| w in before && Includes(w, group);
        assert w in after;
      } else {
        GroupInWindow(ordered, field, seconds, left, right, group);
        IncludesOwners(window, group);
        assert window in after;
      }
    }
  }

  lemma GroupInWindow(ordered: seq<Row>, field: Field, seconds: real, left: nat, right: nat, group: seq<Row>)
    requires right < |ordered| && Ordered(ordered, field) && LeftEdge(ordered, field, seconds, left, right)
    requires IsWindow(ordered[..right + 1], field, seconds, group) && ordered[right] in group
    ensures Includes(ordered[left..right + 1], group)
  {
    hide Near, Owners;
    forall r | r in group ensures r in ordered[left..right + 1] {
      var i :| 0 <= i < right + 1 && ordered[..right + 1][i] == r;
      WindowHolds(ordered, field, seconds, left, right, i);
    }
  }

  lemma IncludesOwners(window: seq<Row>, group: seq<Row>)
    requires Includes(window, group) && |Owners(group)| >= 3
    ensures |Owners(window)| >= 3
  {
    assert Owners(group) <= Owners(window);
    SubsetSize(Owners(group), Owners(window));
  }

  /** `_windows`: one pass with two indices; nothing that fits is missed. */
  method Windows(rows: seq<Row>, field: Field, seconds: real) returns (windows: seq<seq<Row>>)
    requires seconds >= 0.0
    ensures forall w :: w in windows ==> IsWindow(rows, field, seconds, w)
    ensures Complete(rows, field, seconds, windows)
  {
    hide *;
    var ordered := SortRows(rows, field);
    SameRows(ordered, rows);
    windows := [];
    var left := 0;
    CompleteAtStart(ordered, field, seconds);
    for right := 0 to |ordered|
      invariant 0 <= left <= right
      invariant forall i :: 0 <= i < left && right < |ordered| ==>
                  At(ordered[right], field) - At(ordered[i], field) > seconds
      invariant forall w :: w in windows ==> IsWindow(rows, field, seconds, w)
      invariant CompleteBelow(ordered, field, seconds, right, windows)
    {
      while At(ordered[right], field) - At(ordered[left], field) > seconds
        invariant 0 <= left <= right
        invariant forall i :: 0 <= i < left ==> At(ordered[right], field) - At(ordered[i], field) > seconds
        decreases right - left
      {
        left := left + 1;
      }
      var window := ordered[left..right + 1];
      EdgeFound(ordered, field, seconds, left, right);
      WindowSpans(ordered, field, seconds, left, right);
      ghost var before := windows;
      if |Owners(window)| >= 3 {
        WindowFound(rows, ordered, field, seconds, window);
        windows := windows + [window];
      }
      CompleteStep(ordered, field, seconds, left, right, before, windows);
      EdgeKept(ordered, field, seconds, left, right);
    }
    CompleteOverall(rows, ordered, field, seconds, windows);
  }

  lemma CompleteAtStart(ordered: seq<Row>, field: Field, seconds: real)
    ensures CompleteBelow(ordered, field, seconds, 0, [])
  {}

  lemma EdgeFound(ordered: seq<Row>, field: Field, seconds: real, left: nat, right: nat)
    requires left <= right < |ordered| && !(At(ordered[right], field) - At(ordered[left], field) > seconds)
    requires forall i :: 0 <= i < left ==> At(ordered[right], field) - At(ordered[i], field) > seconds
    ensures LeftEdge(ordered, field, seconds, left, right)
  {}

  lemma EdgeKept(ordered: seq<Row>, field: Field, seconds: real, left: nat, right: nat)
    requires right < |ordered| && Ordered(ordered, field) && LeftEdge(ordered, field, seconds, left, right)
    ensures forall i :: 0 <= i < left && right + 1 < |ordered| ==>
              At(ordered[right + 1], field) - At(ordered[i], field) > seconds
  {}

  lemma WindowFound(rows: seq<Row>, ordered: seq<Row>, field: Field, seconds: real, window: seq<Row>)
    requires (forall r :: r in window ==> r in ordered) && (forall r :: r in ordered <==> r in rows)
    requires forall x, y :: x in window && y in window ==> Near(x, y, field, seconds)
    requires |Owners(window)| >= 3
    ensures IsWindow(rows, field, seconds, window)
  {}

  lemma CompleteOverall(rows: seq<Row>, ordered: seq<Row>, field: Field, seconds: real, windows: seq<seq<Row>>)
    requires forall r :: r in ordered <==> r in rows
    requires CompleteBelow(ordered, field, seconds, |ordered|, windows)
    ensures Complete(rows, field, seconds, windows)
  {
    hide Near, Owners, InOne;
    assert ordered[..|ordered|] == ordered;
    forall group | IsWindow(rows, field, seconds, group) ensures InOne(windows, group) {
      assert IsWindow(ordered, field, seconds, group);
    }
  }

  // ---- candidates ----

  datatype Code = SynchronousBuys | SynchronizedPreparation | OtherPattern(name: string)

  /** A candidate group: the key under which the table of candidates keeps it. */
  datatype Signal = Signal(code: Code, source: string, members: set<Owner>)

  /** Three independent purchases within `seconds` of each other. */
  ghost predicate Coincide(rows: seq<Row>, seconds: real, x: Row, y: Row, z: Row) {
    x in rows && y in rows && z in rows && Independent(x, y, z) && Within(x, y, z, Bought, seconds)
  }

  /** All members of a group appear together in one of its code and source. */
  ghost predicate LiesIn(found: set<Signal>, s: Signal) {
    exists big :: big in found && big.code == s.code && big.source == s.source && s.members <= big.members
  }

  ghost predicate Coinciding(rows: seq<Row>, seconds: real, group: seq<Row>) {
    IsWindow(rows, Bought, seconds, group) && HasIndependent(group)
  }

  /** The owners of some purchases that fit in the window and include three independent ones. */
  ghost predicate FromCoincidence(rows: seq<Row>, seconds: real, members: set<Owner>) {
    exists group :: Coinciding(rows, seconds, group) && members == Owners(group)
  }

  function Synchronous(members: set<Owner>): Signal {
    Signal(SynchronousBuys, "", members)
  }

  ghost predicate CoincidencesFound(rows: seq<Row>, seconds: real, windows: seq<seq<Row>>, found: set<Signal>) {
    && (forall w :: w in windows && HasIndependent(w) ==> Synchronous(Owners(w)) in found)
    && forall s :: s in found ==> s == Synchronous(s.members) && FromCoincidence(rows, seconds, s.members)
  }

  /**
   However many purchases fit, if three of them are independent, all their owners are reported
   together; and nothing else is reported.
   */
  method SynchronousSignals(rows: seq<Row>, seconds: real) returns (found: set<Signal>)
    requires seconds >= 0.0
    ensures forall group :: Coinciding(rows, seconds, group) ==> LiesIn(found, Synchronous(Owners(group)))
    ensures forall s :: s in found ==> s == Synchronous(s.members) && FromCoincidence(rows, seconds, s.members)
  {
    hide *;
    var windows := Windows(rows, Bought, seconds);
    found := {};
    NothingFound(rows, seconds);
    for i := 0 to |windows|
      invariant CoincidencesFound(rows, seconds, windows[..i], found)
    {
      var window := windows[i];
      assert window in windows;
      var count := DistinctTransactions(window);
      ghost var before := found;
      if count >= 3 {
        found := found + {Synchronous(Owners(window))};
      }
      assert windows[..i + 1] == windows[..i] + [window];
      CoincidenceAdded(rows, seconds, windows[..i], before, window);
    }
    assert windows[..|windows|] == windows;
    forall group | Coinciding(rows, seconds, group) ensures LiesIn(found, Synchronous(Owners(group))) {
      CoincidenceHeld(rows, seconds, windows, found, group);
    }
    OnlyCoincidences(rows, seconds, windows, found);
  }

  lemma NothingFound(rows: seq<Row>, seconds: real)
    ensures CoincidencesFound(rows, seconds, [], {})
  {}

  lemma OnlyCoincidences(rows: seq<Row>, seconds: real, windows: seq<seq<Row>>, found: set<Signal>)
    requires CoincidencesFound(rows, seconds, windows, found)
    ensures forall s :: s in found ==> s == Synchronous(s.members) && FromCoincidence(rows, seconds, s.members)
  {
    hide FromCoincidence;
  }

  lemma CoincidenceAdded(rows: seq<Row>, seconds: real, windows: seq<seq<Row>>, found: set<Signal>, window: seq<Row>)
    requires CoincidencesFound(rows, seconds, windows, found) && IsWindow(rows, Bought, seconds, window)
    ensures var more := if HasIndependent(window) then found + {Synchronous(Owners(window))} else found;
            CoincidencesFound(rows, seconds, windows + [window], more)
  {
    hide HasIndependent, IsWindow, Owners;
    assert HasIndependent(window) ==> Coinciding(rows, seconds, window);
    assert HasIndependent(window) ==> FromCoincidence(rows, seconds, Owners(window));
    hide FromCoincidence;
  }

  lemma CoincidenceHeld(rows: seq<Row>, seconds: real, windows: seq<seq<Row>>, found: set<Signal>, group: seq<Row>)
    requires Complete(rows, Bought, seconds, windows) && CoincidencesFound(rows, seconds, windows, found)
    requires Coinciding(rows, seconds, group)
    ensures LiesIn(found, Synchronous(Owners(group)))
  {
    hide IsWindow, FromCoincidence, Independent;
    assert InOne(windows, group);
    var w :| w in windows && Includes(w, group);
    assert HasIndependent(w);
    assert Synchronous(Owners(w)) in found && Owners(group) <= Owners(w);
  }

  // ---- preparation: a window of purchases inside a window of fundings ----

  /** Rows whose fundings and whose purchases each fit. */
  ghost predicate Prepared(rows: seq<Row>, seconds: real, group: seq<Row>) {
    IsWindow(rows, Funded, seconds, group) && IsWindow(rows, Bought, seconds, group)
  }

  function Preparation(source: string, members: set<Owner>): Signal {
    Signal(SynchronizedPreparation, source, members)
  }

  ghost predicate FromPreparation(rows: seq<Row>, seconds: real, members: set<Owner>) {
    exists group :: Prepared(rows, seconds, group) && members == Owners(group)
  }

  ghost predicate PreparationsFound(rows: seq<Row>, source: string, seconds: real, found: set<Signal>) {
    forall s :: s in found ==> s == Preparation(source, s.members) && FromPreparation(rows, seconds, s.members)
  }

  /**
   However many rows prepare together, all their owners are reported together, although each time
   is windowed alone; and nothing else is reported.
   */
  method PreparationSignals(rows: seq<Row>, source: string, seconds: real) returns (found: set<Signal>)
    requires seconds >= 0.0
    ensures forall group :: Prepared(rows, seconds, group) ==> LiesIn(found, Preparation(source, Owners(group)))
    ensures PreparationsFound(rows, source, seconds, found)
  {
    hide *;
    var outer := Windows(rows, Funded, seconds);
    found := {};
    assert PreparationsFound(rows, source, seconds, {}) by { NoPreparations(rows, source, seconds); }
    for i := 0 to |outer|
      invariant PreparationsFound(rows, source, seconds, found)
      invariant forall w :: w in outer[..i] ==> InnerHeld(w, source, seconds, found)
    {
      var funding := outer[i];
      var inner := Windows(funding, Bought, seconds);
      assert funding in outer;
      ghost var before := found;
      for j := 0 to |inner|
        invariant PreparationsFound(rows, source, seconds, found) && before <= found
        invariant forall w :: w in inner[..j] ==> Preparation(source, Owners(w)) in found
      {
        assert inner[j] in inner;
        PreparationAdded(rows, source, seconds, funding, inner[j], found);
        found := found + {Preparation(source, Owners(inner[j]))};
      }
      assert inner[..|inner|] == inner;
      InnerFound(funding, source, seconds, inner, found);
      forall w | w in outer[..i] ensures InnerHeld(w, source, seconds, found) {
        InnerStays(w, source, seconds, before, found);
      }
    }
    assert outer[..|outer|] == outer;
    forall group | Prepared(rows, seconds, group) ensures LiesIn(found, Preparation(source, Owners(group))) {
      PreparationHeld(rows, source, seconds, outer, found, group);
    }
  }

  /** What one window of fundings contributes. */
  ghost predicate InnerHeld(window: seq<Row>, source: string, seconds: real, found: set<Signal>) {
    forall group :: IsWindow(window, Bought, seconds, group) ==> LiesIn(found, Preparation(source, Owners(group)))
  }

  lemma NoPreparations(rows: seq<Row>, source: string, seconds: real)
    ensures PreparationsFound(rows, source, seconds, {})
  {}

  lemma PreparationAdded(rows: seq<Row>, source: string, seconds: real, funding: seq<Row>, w: seq<Row>,
                         found: set<Signal>)
    requires IsWindow(rows, Funded, seconds, funding) && IsWindow(funding, Bought, seconds, w)
    requires PreparationsFound(rows, source, seconds, found)
    ensures PreparationsFound(rows, source, seconds, found + {Preparation(source, Owners(w))})
  {
    assert Prepared(rows, seconds, w);
  }

  lemma InnerFound(window: seq<Row>, source: string, seconds: real, inner: seq<seq<Row>>, found: set<Signal>)
    requires Complete(window, Bought, seconds, inner)
    requires forall w :: w in inner ==> Preparation(source, Owners(w)) in found
    ensures InnerHeld(window, source, seconds, found)
  {
    hide IsWindow;
    forall group | IsWindow(window, Bought, seconds, group)
      ensures LiesIn(found, Preparation(source, Owners(group)))
    {
      assert InOne(inner, group);
      var w :| w in inner && Includes(w, group);
      assert Preparation(source, Owners(w)) in found && Owners(group) <= Owners(w);
    }
  }

  lemma InnerStays(window: seq<Row>, source: string, seconds: real, before: set<Signal>, found: set<Signal>)
    requires InnerHeld(window, source, seconds, before) && before <= found
    ensures InnerHeld(window, source, seconds, found)
  {
    hide IsWindow;
    forall s | LiesIn(before, s) ensures LiesIn(found, s) {}
  }

  lemma PreparationHeld(rows: seq<Row>, source: string, seconds: real, outer: seq<seq<Row>>, found: set<Signal>,
                        group: seq<Row>)
    requires Complete(rows, Funded, seconds, outer) && Prepared(rows, seconds, group)
    requires forall w :: w in outer ==> InnerHeld(w, source, seconds, found)
    ensures LiesIn(found, Preparation(source, Owners(group)))
  {
    hide LiesIn, Owners;
    assert InOne(outer, group);
    var w :| w in outer && Includes(w, group);
    assert IsWindow(w, Bought, seconds, group);
    assert InnerHeld(w, source, seconds, found);
  }

  // ---- the maximal-group filter ----

  predicate Swallows(big: Signal, small: Signal) {
    big.code == small.code && big.source == small.source && small.members < big.members
  }

  function Maximal(signals: set<Signal>): set<Signal> {
    set s | s in signals && forall other :: other in signals ==> !Swallows(other, s)
  }

  ghost function Above(signals: set<Signal>, s: Signal): set<Signal> {
    set t | t in signals && (t == s || Swallows(t, s))
  }

  /** Dropping a group loses no member: a kept group of its code and source contains it. */
  lemma {:induction false} NothingIsLost(signals: set<Signal>, s: Signal) returns (kept: Signal)
    requires s in signals
    ensures kept in Maximal(signals) && kept.code == s.code && kept.source == s.source && s.members <= kept.members
    decreases Above(signals, s)
  {
    if s in Maximal(signals) {
      kept := s;
    } else {
      var big :| big in signals && Swallows(big, s);
      assert s in Above(signals, s) && s !in Above(signals, big);
      kept := NothingIsLost(signals, big);
    }
  }

  /** No kept group is contained in another of its code and source. */
  lemma KeptAreApart(signals: set<Signal>, s: Signal, t: Signal)
    requires s in Maximal(signals) && t in Maximal(signals) && s.code == t.code && s.source == t.source
    ensures s.members <= t.members ==> s == t
  {
    assert !Swallows(t, s);
  }

  ghost predicate Reports(kept: set<Signal>, code: Code) {
    exists s :: s in kept && s.code == code
  }

  /**
   What is published, whatever other patterns were found: the groups of other patterns and of
   coincidences, of which only those inside another group of the same code and source are dropped.
   */
  ghost predicate Published(rows: seq<Row>, seconds: real, others: set<Signal>, kept: set<Signal>) {
    && (forall s :: s in kept ==>
          s in others || (s == Synchronous(s.members) && FromCoincidence(rows, seconds, s.members)))
    && (forall s :: s in others ==> LiesIn(kept, s))
    && (forall group :: Coinciding(rows, seconds, group) ==> LiesIn(kept, Synchronous(Owners(group))))
    && (forall s, t :: s in kept && t in kept ==> !Swallows(s, t))
  }

  lemma KeptHold(signals: set<Signal>, s: Signal)
    requires LiesIn(signals, s)
    ensures LiesIn(Maximal(signals), s)
  {
    var big :| big in signals && big.code == s.code && big.source == s.source && s.members <= big.members;
    var kept := NothingIsLost(signals, big);
  }

  lemma MaximalIsPublished(rows: seq<Row>, seconds: real, found: set<Signal>, others: set<Signal>)
    requires forall group :: Coinciding(rows, seconds, group) ==> LiesIn(found, Synchronous(Owners(group)))
    requires forall s :: s in found ==> s == Synchronous(s.members) && FromCoincidence(rows, seconds, s.members)
    ensures Published(rows, seconds, others, Maximal(found + others))
  {
    hide Coinciding, FromCoincidence, Owners;
    var all := found + others;
    forall s | s in others ensures LiesIn(Maximal(all), s) {
      assert LiesIn(all, s);
      KeptHold(all, s);
    }
    forall group | Coinciding(rows, seconds, group) ensures LiesIn(Maximal(all), Synchronous(Owners(group))) {
      var s := Synchronous(Owners(group));
      var big :| big in found && big.code == s.code && big.source == s.source && s.members <= big.members;
      assert big in all;
      assert LiesIn(all, s);
      KeptHold(all, s);
    }
  }

  /** A synchronous purchase is reported exactly when three independent purchases fit in the window. */
  lemma ReportedIff(rows: seq<Row>, seconds: real, others: set<Signal>, kept: set<Signal>)
    requires Published(rows, seconds, others, kept) && forall s :: s in others ==> s.code != SynchronousBuys
    ensures Reports(kept, SynchronousBuys) <==> exists x, y, z :: Coincide(rows, seconds, x, y, z)
  {
    hide Swallows, Owners, HasIndependent;
    if Reports(kept, SynchronousBuys) {
      var s :| s in kept && s.code == SynchronousBuys;
      CoincidenceExists(rows, seconds, s.members);
    }
    if x, y, z :| Coincide(rows, seconds, x, y, z) {
      TripleCoincides(rows, seconds, x, y, z);
      assert LiesIn(kept, Synchronous(Owners([x, y, z])));
    }
  }

  lemma TripleCoincides(rows: seq<Row>, seconds: real, x: Row, y: Row, z: Row)
    requires Coincide(rows, seconds, x, y, z)
    ensures Coinciding(rows, seconds, [x, y, z])
  {
    var group := [x, y, z];
    assert x in group && y in group && z in group;
    assert Near(x, x, Bought, seconds) && Near(y, y, Bought, seconds) && Near(z, z, Bought, seconds);
    assert Owners(group) == {x.owner, y.owner, z.owner};
  }

  lemma CoincidenceExists(rows: seq<Row>, seconds: real, members: set<Owner>)
    requires FromCoincidence(rows, seconds, members)
    ensures exists x, y, z :: Coincide(rows, seconds, x, y, z)
  {
    var group :| Coinciding(rows, seconds, group) && members == Owners(group);
    var x, y, z :| x in group && y in group && z in group && Independent(x, y, z);
    assert Coincide(rows, seconds, x, y, z);
  }

  method PublishSynchronous(rows: seq<Row>, seconds: real, others: set<Signal>) returns (kept: set<Signal>)
    requires seconds >= 0.0
    ensures Published(rows, seconds, others, kept)
  {
    hide *;
    var found := SynchronousSignals(rows, seconds);
    kept := Maximal(found + others);
    MaximalIsPublished(rows, seconds, found, others);
  }
}
