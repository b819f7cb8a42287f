/** Merging repeated captures of a signal: the result depends only on which rows were exported. */
module SignalDedup {
  // Their order and repetition (`_deduplicate` in `signal_evaluation.py`) do not matter.

  import opened Wrappers

  // ---- checkpoints ----

  /** The values a checkpoint reports, apart from its time. */
  datatype Values = Values(target: Option<int>, price: Option<int>, mcap: Option<int>, change: Option<int>,
                           quality: string, stale: bool)

  const BLANK := Values(None, None, None, None, "complete", false)

  /** The evidence fields of a checkpoint; without a readable time it cannot be placed. */
  datatype Evidence = Evidence(at: Option<int>, values: Values, conflicting: bool)

  function Conflict(at: Option<int>): Evidence {
    Evidence(at, BLANK, true)
  }

  /** Two exports of one horizon. */
  function Merge(earlier: Evidence, later: Evidence): Evidence {
    if earlier.at == later.at then
      if earlier == later then earlier else Conflict(earlier.at)
    else if earlier.at.None? || later.at.None? then Conflict(None)
    else if later.at.value < earlier.at.value then later
    else earlier
  }

  lemma MergeCommutes(a: Evidence, b: Evidence)
    ensures Merge(a, b) == Merge(b, a) && Merge(a, a) == a
  {}

  lemma MergeAssociates(a: Evidence, b: Evidence, c: Evidence)
    ensures Merge(Merge(a, b), c) == Merge(a, Merge(b, c))
  {}

  ghost predicate Unplaced(s: set<Evidence>) {
    exists e :: e in s && e.at.None?
  }

  ghost predicate Disputed(s: set<Evidence>, at: Option<int>) {
    exists d, e :: d in s && e in s && d != e && d.at == at && e.at == at
  }

  ghost predicate Earliest(s: set<Evidence>, at: int) {
    (exists e :: e in s && e.at == Some(at)) && forall e :: e in s ==> e.at.Some? && at <= e.at.value
  }

  /**
   The evidence that stands for a set of exports: the only one; a conflict without a time when
   several include one that cannot be placed; otherwise the earliest, or a conflict there.
   */
  ghost predicate IsJoin(s: set<Evidence>, c: Evidence) {
    if s == {c} then true
    else if Unplaced(s) then s != {} && (forall e :: e in s ==> s != {e}) && c == Conflict(None)
    else c.at.Some? && Earliest(s, c.at.value) && if Disputed(s, c.at) then c == Conflict(c.at) else c in s
  }

  lemma JoinUnique(s: set<Evidence>, c: Evidence, d: Evidence)
    requires IsJoin(s, c) && IsJoin(s, d)
    ensures c == d
  {
    if s == {c} || s == {d} {
      assert c in s || d in s;
    }
  }

  lemma JoinOne(e: Evidence)
    ensures IsJoin({e}, e)
  {}

  lemma JoinMore(s: set<Evidence>, c: Evidence, e: Evidence)
    requires s != {} && IsJoin(s, c)
    ensures IsJoin(s + {e}, Merge(c, e))
  {
    if e in s {
      assert s + {e} == s;
      JoinAbsorbs(s, c, e);
    } else if s == {c} {
      JoinTwo(c, e);
      assert s + {e} == {c, e};
    } else if Unplaced(s) {
      assert Merge(c, e) == Conflict(None);
      assert Unplaced(s + {e});
      NotSingle(s, c, e);
    } else {
      JoinPlaced(s, c, e);
    }
  }

  lemma NotSingle(s: set<Evidence>, c: Evidence, e: Evidence)
    requires s != {} && (forall d :: d in s ==> s != {d}) && e !in s
    ensures forall d :: d in s + {e} ==> s + {e} != {d}
  {
    var x :| x in s;
    assert x in s + {e} && e in s + {e};
  }

  lemma JoinAbsorbs(s: set<Evidence>, c: Evidence, e: Evidence)
    requires e in s && IsJoin(s, c)
    ensures Merge(c, e) == c
  {
    if s == {c} {
      assert e == c;
    }
  }

  lemma JoinTwo(c: Evidence, e: Evidence)
    requires c != e
    ensures IsJoin({c, e}, Merge(c, e))
  {
    var s := {c, e};
    assert c in s && e in s;
    assert forall d :: d in s ==> s != {d};
    if c.at.None? || e.at.None? {
      assert Unplaced(s);
      assert Merge(c, e) == Conflict(None);
    } else {
      assert !Unplaced(s);
      assert Earliest(s, Merge(c, e).at.value);
      if c.at == e.at {
        assert Disputed(s, c.at);
      }
    }
  }

  lemma JoinPlaced(s: set<Evidence>, c: Evidence, e: Evidence)
    requires s != {} && e !in s && s != {c} && !Unplaced(s) && IsJoin(s, c)
    ensures IsJoin(s + {e}, Merge(c, e))
  {
    var t, m := s + {e}, Merge(c, e);
    var x :| x in s && x.at == c.at;
    assert x in t && e in t && x != e;
    assert t != {m};
    if e.at.None? {
      assert Unplaced(t);
      forall d | d in t ensures t != {d} {}
    } else {
      assert !Unplaced(t);
      assert Earliest(t, m.at.value);
      if e.at == c.at {
        assert Disputed(t, m.at);
      } else if e.at.value < c.at.value {
        assert !Disputed(t, m.at);
      } else {
        assert Disputed(s, c.at) <==> Disputed(t, m.at);
      }
    }
  }

  // ---- rows ----

  datatype Key = Key(token: string, caught: int)

  /** The fields of a capture that must agree wherever it is exported. */
  datatype Capture = Capture(cohort: string, stratum: string, features: seq<Option<int>>)

  datatype Row = Row(key: Key, episode: string, capture: Capture, horizons: map<string, Evidence>)

  datatype Exclusion = Kept | ConflictingCapture | ReusedEpisode | RepeatedToken

  datatype Merged = Merged(capture: Capture, conflicting: bool, horizons: map<string, Evidence>)

  function Group(rows: set<Row>, key: Key): set<Row> {
    set r | r in rows && r.key == key
  }

  function Column(group: set<Row>, horizon: string): set<Evidence> {
    set r | r in group && horizon in r.horizons :: r.horizons[horizon]
  }

  /** What the captures of one key merge into. */
  ghost predicate IsMerged(group: set<Row>, m: Merged) {
    && (exists r :: r in group && r.capture == m.capture)
    && (m.conflicting <==> exists r :: r in group && r.capture != m.capture)
    && (forall h :: h in m.horizons <==> Column(group, h) != {})
    && forall h :: h in m.horizons ==> IsJoin(Column(group, h), m.horizons[h])
  }

  ghost predicate IsTable(rows: set<Row>, table: map<Key, Merged>) {
    && (forall k :: k in table <==> Group(rows, k) != {})
    && forall k :: k in table ==> IsMerged(Group(rows, k), table[k])
  }

  function MergeHorizons(earlier: map<string, Evidence>, later: map<string, Evidence>): map<string, Evidence> {
    map h | h in earlier.Keys + later.Keys ::
      if h !in later then earlier[h] else if h !in earlier then later[h] else Merge(earlier[h], later[h])
  }

  function MergeRow(m: Merged, row: Row): Merged {
    Merged(m.capture, m.conflicting || m.capture != row.capture, MergeHorizons(m.horizons, row.horizons))
  }

  lemma FirstRow(row: Row)
    ensures IsMerged({row}, Merged(row.capture, false, row.horizons))
  {
    var m := Merged(row.capture, false, row.horizons);
    assert row in {row};
    forall h ensures Column({row}, h) == if h in row.horizons then {row.horizons[h]} else {} {}
    hide Column;
    forall h | h in m.horizons ensures IsJoin(Column({row}, h), m.horizons[h]) {
      JoinOne(row.horizons[h]);
    }
  }

  /** A row agrees with the captures of its key, or the key is in conflict. */
  ghost predicate SameCapture(group: set<Row>, m: Merged) {
    && (exists r :: r in group && r.capture == m.capture)
    && (m.conflicting <==> exists r :: r in group && r.capture != m.capture)
  }

  /** Each horizon holds the join of what the rows report for it. */
  ghost predicate Joined(group: set<Row>, horizons: map<string, Evidence>) {
    && (forall h :: h in horizons <==> Column(group, h) != {})
    && forall h :: h in horizons ==> IsJoin(Column(group, h), horizons[h])
  }

  lemma NextCapture(group: set<Row>, m: Merged, row: Row)
    requires SameCapture(group, m)
    ensures SameCapture(group + {row}, MergeRow(m, row))
  {
    hide MergeHorizons;
    assert row in group + {row};
    assert forall r :: r in group + {row} <==> r in group || r == row;
  }

  lemma NextHorizon(group: set<Row>, horizons: map<string, Evidence>, row: Row, h: string)
    requires Joined(group, horizons)
    ensures h in MergeHorizons(horizons, row.horizons) <==> Column(group + {row}, h) != {}
    ensures h in MergeHorizons(horizons, row.horizons) ==>
              IsJoin(Column(group + {row}, h), MergeHorizons(horizons, row.horizons)[h])
  {
    ColumnMore(group, row, h);
    hide Column, IsJoin, Merge;
    if h in row.horizons && h in horizons {
      JoinMore(Column(group, h), horizons[h], row.horizons[h]);
    } else if h in row.horizons {
      JoinOne(row.horizons[h]);
      assert {} + {row.horizons[h]} == {row.horizons[h]};
    } else {
      assert Column(group, h) + {} == Column(group, h);
    }
  }

  lemma NextRow(group: set<Row>, m: Merged, row: Row)
    requires group != {} && IsMerged(group, m)
    ensures IsMerged(group + {row}, MergeRow(m, row))
  {
    hide Column, IsJoin, MergeHorizons;
    assert SameCapture(group, m) && Joined(group, m.horizons);
    NextCapture(group, m, row);
    forall h ensures h in MergeHorizons(m.horizons, row.horizons) <==> Column(group + {row}, h) != {}
      ensures h in MergeHorizons(m.horizons, row.horizons) ==>
                IsJoin(Column(group + {row}, h), MergeHorizons(m.horizons, row.horizons)[h])
    {
      hide Joined;
      NextHorizon(group, m.horizons, row, h);
    }
  }

  lemma ColumnMore(group: set<Row>, row: Row, h: string)
    ensures Column(group + {row}, h) == Column(group, h) + if h in row.horizons then {row.horizons[h]} else {}
  {
    assert row in group + {row};
  }

  // ---- the loop ----

  method MergeInto(earlier: map<string, Evidence>, later: map<string, Evidence>) returns (merged: map<string, Evidence>)
    ensures merged == MergeHorizons(earlier, later)
  {
    hide Merge;
    merged := earlier;
    var todo := later.Keys;
    while todo != {}
      invariant todo <= later.Keys && merged.Keys == earlier.Keys + (later.Keys - todo)
      invariant forall h :: h in merged && (h !in later || h in todo) ==> h in earlier && merged[h] == earlier[h]
      invariant forall h :: h in later && h !in todo ==>
                  merged[h] == if h in earlier then Merge(earlier[h], later[h]) else later[h]
      decreases todo
    {
      var h :| h in todo;
      todo := todo - {h};
      merged := merged[h := if h in merged then Merge(merged[h], later[h]) else later[h]];
    }
  }

  function Rows(rows: seq<Row>): set<Row> {
    set r | r in rows
  }

  function Entered(table: map<Key, Merged>, row: Row): Merged {
    if row.key in table then MergeRow(table[row.key], row) else Merged(row.capture, false, row.horizons)
  }

  lemma GroupMore(rows: set<Row>, row: Row, k: Key)
    ensures Group(rows + {row}, k) == if k == row.key then Group(rows, k) + {row} else Group(rows, k)
  {}

  lemma EnteredIsMerged(rows: set<Row>, table: map<Key, Merged>, row: Row)
    requires IsTable(rows, table)
    ensures IsMerged(Group(rows + {row}, row.key), Entered(table, row)) && Group(rows + {row}, row.key) != {}
  {
    GroupMore(rows, row, row.key);
    var group := Group(rows, row.key);
    hide Group, MergeRow;
    if row.key in table {
      hide IsMerged;
      NextRow(group, table[row.key], row);
    } else {
      assert group == {};
      hide IsMerged;
      FirstRow(row);
      assert group + {row} == {row};
    }
  }

  lemma TableStep(rows: set<Row>, table: map<Key, Merged>, row: Row)
    requires IsTable(rows, table)
    ensures IsTable(rows + {row}, table[row.key := Entered(table, row)])
  {
    EnteredIsMerged(rows, table, row);
    hide IsMerged, Group, Entered;
    var next := table[row.key := Entered(table, row)];
    forall k ensures k in next <==> Group(rows + {row}, k) != {}
      ensures k in next ==> IsMerged(Group(rows + {row}, k), next[k])
    {
      GroupMore(rows, row, k);
    }
  }

  /** `_deduplicate`, up to the exclusions: one table entry per token and catch time. */
  method MergeCaptures(rows: seq<Row>) returns (table: map<Key, Merged>)
    ensures IsTable(Rows(rows), table)
  {
    hide IsTable, MergeHorizons;
    table := map[];
    assert IsTable(Rows(rows[..0]), table) by { EmptyTable(); assert Rows(rows[..0]) == {}; }
    for i := 0 to |rows|
      invariant IsTable(Rows(rows[..i]), table)
    {
      var row := rows[i];
      RowsStep(rows, i);
      TableStep(Rows(rows[..i]), table, row);
      if row.key !in table {
        table := table[row.key := Merged(row.capture, false, row.horizons)];
      } else {
        var existing := table[row.key];
        var horizons := MergeInto(existing.horizons, row.horizons);
        table := table[row.key := Merged(existing.capture, existing.conflicting || existing.capture != row.capture,
                                         horizons)];
      }
    }
    assert rows[..|rows|] == rows;
  }

  lemma EmptyTable()
    ensures IsTable({}, map[])
  {}

  lemma RowsStep(rows: seq<Row>, i: nat)
    requires i < |rows|
    ensures Rows(rows[..i + 1]) == Rows(rows[..i]) + {rows[i]}
  {
    assert rows[..i + 1] == rows[..i] + [rows[i]];
  }

  /**
   The same rows, in any order and however often repeated, give the same episodes: the same keys,
   conflicts and surviving checkpoints, and the same capture wherever it is not in conflict.
   */
  lemma TablesAgree(rows: set<Row>, s: map<Key, Merged>, t: map<Key, Merged>)
    requires IsTable(rows, s) && IsTable(rows, t)
    ensures s.Keys == t.Keys
    ensures forall k :: k in s ==> s[k].conflicting == t[k].conflicting && s[k].horizons == t[k].horizons
    ensures forall k :: k in s && !s[k].conflicting ==> s[k] == t[k]
  {
    forall k | k in s ensures k in t && s[k].conflicting == t[k].conflicting && s[k].horizons == t[k].horizons
        && (!s[k].conflicting ==> s[k] == t[k]) {
      MergedAgree(Group(rows, k), s[k], t[k]);
    }
    assert forall k :: k in t ==> k in s;
  }

  lemma MergedAgree(group: set<Row>, m: Merged, n: Merged)
    requires IsMerged(group, m) && IsMerged(group, n)
    ensures m.conflicting == n.conflicting && m.horizons == n.horizons && (!m.conflicting ==> m == n)
  {
    hide Column;
    forall h | h in m.horizons ensures h in n.horizons && m.horizons[h] == n.horizons[h] {
      JoinUnique(Column(group, h), m.horizons[h], n.horizons[h]);
    }
    hide IsJoin;
    assert forall h :: h in n.horizons ==> h in m.horizons;
    var r :| r in group && r.capture == m.capture;
    var q :| q in group && q.capture == n.capture;
  }

  // ---- exclusions ----

  /** One episode id used for two captures, one of them this one. */
  ghost predicate Reused(rows: set<Row>, key: Key) {
    exists q, r :: q in rows && r in rows && q.episode == r.episode && q.key == key && r.key != key
  }

  /** The token was caught earlier. */
  ghost predicate Repeated(table: map<Key, Merged>, key: Key) {
    exists k :: k in table && k.token == key.token && k.caught < key.caught
  }

  ghost function ExclusionOf(rows: set<Row>, table: map<Key, Merged>, key: Key): Exclusion
    requires key in table
  {
    if Reused(rows, key) then ReusedEpisode
    else if table[key].conflicting then ConflictingCapture
    else if Repeated(table, key) then RepeatedToken
    else Kept
  }

  ghost predicate Excludes(rows: set<Row>, table: map<Key, Merged>, excluded: map<Key, Exclusion>) {
    excluded.Keys == table.Keys && forall k :: k in table ==> excluded[k] == ExclusionOf(rows, table, k)
  }

  /** The keys seen under each episode id. */
  ghost predicate IdsOf(rows: set<Row>, ids: map<string, set<Key>>) {
    && (forall r :: r in rows ==> r.episode in ids && r.key in ids[r.episode])
    && forall e, k :: e in ids && k in ids[e] ==> exists r :: r in rows && r.episode == e && r.key == k
  }

  method CollectIds(rows: seq<Row>) returns (ids: map<string, set<Key>>)
    ensures IdsOf(Rows(rows), ids)
  {
    ids := map[];
    for i := 0 to |rows|
      invariant IdsOf(Rows(rows[..i]), ids)
    {
      var row := rows[i];
      RowsStep(rows, i);
      ids := ids[row.episode := (if row.episode in ids then ids[row.episode] else {}) + {row.key}];
    }
    assert rows[..|rows|] == rows;
  }

  lemma ReusedById(rows: set<Row>, ids: map<string, set<Key>>, key: Key)
    requires IdsOf(rows, ids)
    ensures Reused(rows, key) <==> exists e :: e in ids && key in ids[e] && exists k :: k in ids[e] && k != key
  {
    if Reused(rows, key) {
      var q, r :| q in rows && r in rows && q.episode == r.episode && q.key == key && r.key != key;
      assert key in ids[q.episode] && r.key in ids[q.episode];
    }
    if e :| e in ids && key in ids[e] && exists k :: k in ids[e] && k != key {
      var k :| k in ids[e] && k != key;
      var q :| q in rows && q.episode == e && q.key == key;
      var r :| r in rows && r.episode == e && r.key == k;
    }
  }

  /** Captures after the evaluation time are not considered. */
  function Considered(inputs: seq<Row>, asOf: int): set<Row> {
    set r | r in inputs && r.key.caught <= asOf
  }

  /** The merged captures and which of them are left out of the evaluation. */
  method Deduplicate(inputs: seq<Row>, asOf: int) returns (table: map<Key, Merged>, excluded: map<Key, Exclusion>)
    ensures IsTable(Considered(inputs, asOf), table) && Excludes(Considered(inputs, asOf), table, excluded)
  {
    hide IsTable, IdsOf, Reused, Repeated;
    var rows := Past(inputs, asOf);
    table := MergeCaptures(rows);
    var ids := CollectIds(rows);
    excluded := map[];
    var todo := table.Keys;
    while todo != {}
      invariant todo <= table.Keys && excluded.Keys == table.Keys - todo
      invariant forall k :: k in excluded ==> excluded[k] == ExclusionOf(Rows(rows), table, k)
      decreases todo
    {
      var key :| key in todo;
      todo := todo - {key};
      ReusedById(Rows(rows), ids, key);
      var reused := exists e :: e in ids && key in ids[e] && exists k :: k in ids[e] && k != key;
      var repeated := exists k :: k in table && k.token == key.token && k.caught < key.caught;
      assert repeated == Repeated(table, key) by { RepeatedIs(table, key); }
      excluded := excluded[key := if reused then ReusedEpisode
                                  else if table[key].conflicting then ConflictingCapture
                                  else if repeated then RepeatedToken else Kept];
    }
  }

  lemma RepeatedIs(table: map<Key, Merged>, key: Key)
    ensures Repeated(table, key) <==> exists k :: k in table && k.token == key.token && k.caught < key.caught
  {}

  method Past(inputs: seq<Row>, asOf: int) returns (rows: seq<Row>)
    ensures Rows(rows) == Considered(inputs, asOf)
  {
    rows := [];
    for i := 0 to |inputs|
      invariant forall r :: r in rows <==> r in inputs[..i] && r.key.caught <= asOf
    {
      assert inputs[..i + 1] == inputs[..i] + [inputs[i]];
      if inputs[i].key.caught <= asOf {
        rows := rows + [inputs[i]];
      }
    }
    assert inputs[..|inputs|] == inputs;
  }

  /** A token keeps at most one episode, and only its earliest capture. */
  lemma EarliestOnly(rows: set<Row>, table: map<Key, Merged>, excluded: map<Key, Exclusion>, k: Key, l: Key)
    requires Excludes(rows, table, excluded) && k in table && l in table && k.token == l.token
    ensures excluded[k].Kept? ==> k.caught <= l.caught
    ensures excluded[k].Kept? && excluded[l].Kept? ==> k == l
  {}

  /** Exports that contain the same rows are evaluated alike. */
  lemma ExportOrderIsIrrelevant(a: seq<Row>, b: seq<Row>, asOf: int, s: map<Key, Merged>, x: map<Key, Exclusion>,
                                t: map<Key, Merged>, y: map<Key, Exclusion>)
    requires forall r :: r in a <==> r in b
    requires IsTable(Considered(a, asOf), s) && Excludes(Considered(a, asOf), s, x)
    requires IsTable(Considered(b, asOf), t) && Excludes(Considered(b, asOf), t, y)
    ensures x == y && s.Keys == t.Keys && forall k :: k in s ==> s[k].horizons == t[k].horizons
    ensures forall k :: k in s && x[k].Kept? ==> s[k] == t[k]
  {
    SameRows(a, b, asOf);
    var rows := Considered(a, asOf);
    hide *;
    TablesAgree(rows, s, t);
    SameExclusions(rows, s, x, t, y);
    KeptAgree(rows, s, x);
  }

  lemma SameRows(a: seq<Row>, b: seq<Row>, asOf: int)
    requires forall r :: r in a <==> r in b
    ensures Considered(a, asOf) == Considered(b, asOf)
  {}

  lemma KeptAgree(rows: set<Row>, s: map<Key, Merged>, x: map<Key, Exclusion>)
    requires Excludes(rows, s, x)
    ensures x.Keys == s.Keys && forall k :: k in s && x[k].Kept? ==> !s[k].conflicting
  {
    hide Reused, Repeated;
  }

  lemma SameExclusions(rows: set<Row>, s: map<Key, Merged>, x: map<Key, Exclusion>, t: map<Key, Merged>,
                       y: map<Key, Exclusion>)
    requires Excludes(rows, s, x) && Excludes(rows, t, y) && s.Keys == t.Keys
    requires forall k :: k in s ==> s[k].conflicting == t[k].conflicting
    ensures x == y
  {
    hide ExclusionOf;
    forall k | k in s ensures x[k] == y[k] {
      SameExclusion(rows, s, t, k);
    }
  }

  lemma SameExclusion(rows: set<Row>, s: map<Key, Merged>, t: map<Key, Merged>, k: Key)
    requires s.Keys == t.Keys && k in s && s[k].conflicting == t[k].conflicting
    ensures ExclusionOf(rows, s, k) == ExclusionOf(rows, t, k)
  {
    hide Reused;
    assert forall l :: l in s <==> l in t;
  }
}
