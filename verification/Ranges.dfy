/** Sets of seconds as inclusive ranges in a unique normal form. */
module Ranges {

  datatype Range = Range(lo: int, hi: int)

  predicate Covered(rs: seq<Range>, t: int) {
    exists i :: 0 <= i < |rs| && rs[i].lo <= t <= rs[i].hi
  }

  /** Nonempty ranges in ascending order, never touching. */
  predicate Normal(rs: seq<Range>) {
    && (forall i :: 0 <= i < |rs| ==> rs[i].lo <= rs[i].hi)
    && (forall i, j :: 0 <= i < j < |rs| ==> rs[i].hi + 1 < rs[j].lo)
  }

  lemma CoveredConcat(a: seq<Range>, b: seq<Range>, t: int)
    ensures Covered(a + b, t) <==> Covered(a, t) || Covered(b, t)
  {
    if Covered(a, t) {
      var i :| 0 <= i < |a| && a[i].lo <= t <= a[i].hi;
      assert (a + b)[i] == a[i];
    }
    if Covered(b, t) {
      var i :| 0 <= i < |b| && b[i].lo <= t <= b[i].hi;
      assert (a + b)[|a| + i] == b[i];
    }
  }

  lemma CoveredMembers(a: seq<Range>, b: seq<Range>)
    requires forall r :: r in a ==> r in b
    ensures forall t :: Covered(a, t) ==> Covered(b, t)
  {
    forall t | Covered(a, t) ensures Covered(b, t) {
      var i :| 0 <= i < |a| && a[i].lo <= t <= a[i].hi;
      assert a[i] in b;
    }
  }

  // ---- the normal form is unique ----

  lemma HeadSpan(a: seq<Range>, b: seq<Range>)
    requires Normal(a) && Normal(b) && |a| > 0 && |b| > 0
    requires forall t :: Covered(a, t) ==> Covered(b, t)
    ensures b[0].lo <= a[0].lo
    ensures a[0].lo == b[0].lo ==> a[0].hi <= b[0].hi
  {
    assert Covered(a, a[0].lo) by { assert a[0].lo <= a[0].lo <= a[0].hi; }
    AfterHead(b);
    var t := b[0].hi + 1;
    assert a[0].lo <= t <= a[0].hi ==> Covered(a, t);
  }

  lemma AfterHead(b: seq<Range>)
    requires Normal(b) && |b| > 0
    ensures !Covered(b, b[0].hi + 1)
  {}

  lemma TailCovers(a: seq<Range>, t: int)
    requires Normal(a) && |a| > 0
    ensures Normal(a[1..])
    ensures Covered(a[1..], t) <==> Covered(a, t) && t > a[0].hi
  {
    assert a == [a[0]] + a[1..];
    if Covered(a, t) && t > a[0].hi {
      var i :| 0 <= i < |a| && a[i].lo <= t <= a[i].hi;
      assert a[1..][i - 1] == a[i];
    }
    if Covered(a[1..], t) {
      var i :| 0 <= i < |a[1..]| && a[1..][i].lo <= t <= a[1..][i].hi;
      assert a[i + 1] == a[1..][i];
    }
  }

  lemma {:induction false} NormalUnique(a: seq<Range>, b: seq<Range>)
    requires Normal(a) && Normal(b) && forall t :: Covered(a, t) <==> Covered(b, t)
    ensures a == b
    decreases |a|
  {
    if |a| > 0 {
      assert Covered(a, a[0].lo) by { assert a[0].lo <= a[0].lo <= a[0].hi; }
      HeadSpan(a, b);
      HeadSpan(b, a);
      forall t ensures Covered(a[1..], t) <==> Covered(b[1..], t) {
        TailCovers(a, t);
        TailCovers(b, t);
      }
      TailCovers(a, 0);
      TailCovers(b, 0);
      NormalUnique(a[1..], b[1..]);
      assert a == [a[0]] + a[1..] && b == [b[0]] + b[1..];
    } else if |b| > 0 {
      assert Covered(b, b[0].lo) by { assert b[0].lo <= b[0].lo <= b[0].hi; }
    }
  }

  // ---- union ----

  predicate Ascending(rs: seq<Range>) {
    forall i, j :: 0 <= i < j < |rs| ==> rs[i].lo <= rs[j].lo
  }

  function Insert(rs: seq<Range>, r: Range): seq<Range> {
    if rs == [] || r.lo < rs[0].lo || (r.lo == rs[0].lo && r.hi <= rs[0].hi) then [r] + rs
       else [rs[0]] + Insert(rs[1..], r)
  }

  predicate Full(rs: seq<Range>) {
    forall i :: 0 <= i < |rs| ==> rs[i].lo <= rs[i].hi
  }

  lemma {:induction false} InsertAbove(rs: seq<Range>, r: Range, least: int)
    requires r.lo >= least && forall i :: 0 <= i < |rs| ==> rs[i].lo >= least
    ensures forall i :: 0 <= i < |Insert(rs, r)| ==> Insert(rs, r)[i].lo >= least
    decreases |rs|
  {
    if !(rs == [] || r.lo < rs[0].lo || (r.lo == rs[0].lo && r.hi <= rs[0].hi)) {
      InsertAbove(rs[1..], r, least);
    }
  }

  lemma {:induction false} InsertKeeps(rs: seq<Range>, r: Range)
    requires Ascending(rs) && Full(rs) && r.lo <= r.hi
    ensures Ascending(Insert(rs, r)) && Full(Insert(rs, r))
    ensures forall t :: Covered(Insert(rs, r), t) <==> Covered(rs, t) || r.lo <= t <= r.hi
    decreases |rs|
  {
    if rs == [] || r.lo < rs[0].lo || (r.lo == rs[0].lo && r.hi <= rs[0].hi) {
      forall t ensures Covered([r] + rs, t) <==> Covered(rs, t) || r.lo <= t <= r.hi {
        Prepended(r, rs, t);
      }
    } else {
      InsertKeeps(rs[1..], r);
      InsertAbove(rs[1..], r, rs[0].lo);
      forall t ensures Covered(Insert(rs, r), t) <==> Covered(rs, t) || r.lo <= t <= r.hi {
        Prepended(rs[0], Insert(rs[1..], r), t);
        Prepended(rs[0], rs[1..], t);
        assert rs == [rs[0]] + rs[1..];
      }
    }
  }

  lemma Prepended(r: Range, rs: seq<Range>, t: int)
    ensures Covered([r] + rs, t) <==> Covered(rs, t) || r.lo <= t <= r.hi
  {
    CoveredConcat([r], rs, t);
    if r.lo <= t <= r.hi { assert [r][0].lo <= t <= [r][0].hi; }
  }

  lemma Appended(rs: seq<Range>, r: Range, t: int)
    ensures Covered(rs + [r], t) <==> Covered(rs, t) || r.lo <= t <= r.hi
  {
    CoveredConcat(rs, [r], t);
    if r.lo <= t <= r.hi { assert [r][0].lo <= t <= [r][0].hi; }
  }

  /** Ranges that are not empty, by lower bound. */
  method Sorted(ranges: seq<Range>) returns (s: seq<Range>)
    ensures Ascending(s) && Full(s) && forall t :: Covered(s, t) <==> Covered(ranges, t)
  {
    s := [];
    for i := 0 to |ranges|
      invariant Ascending(s) && Full(s) && forall t :: Covered(s, t) <==> Covered(ranges[..i], t)
    {
      var r := ranges[i];
      assert ranges[..i + 1] == ranges[..i] + [r];
      forall t ensures Covered(ranges[..i + 1], t) <==> Covered(ranges[..i], t) || r.lo <= t <= r.hi {
        Appended(ranges[..i], r, t);
      }
      hide Covered, Insert;
      if r.lo <= r.hi {
        InsertKeeps(s, r);
        s := Insert(s, r);
      }
    }
    assert ranges[..|ranges|] == ranges;
  }

  /** The last range grows over one that touches it. */
  function GrowLast(merged: seq<Range>, r: Range): seq<Range>
    requires |merged| > 0
  {
    var k := |merged| - 1;
    merged[k := Range(merged[k].lo, if merged[k].hi < r.hi then r.hi else merged[k].hi)]
  }

  lemma GrowLastKeeps(merged: seq<Range>, r: Range)
    requires Normal(merged) && |merged| > 0
    requires merged[|merged| - 1].lo <= r.lo <= merged[|merged| - 1].hi + 1 && r.lo <= r.hi
    ensures Normal(GrowLast(merged, r))
    ensures forall t :: Covered(GrowLast(merged, r), t) <==> Covered(merged, t) || r.lo <= t <= r.hi
  {
    var k := |merged| - 1;
    var grown := GrowLast(merged, r);
    forall t ensures Covered(grown, t) <==> Covered(merged, t) || r.lo <= t <= r.hi {
      assert merged == merged[..k] + [merged[k]] && grown == merged[..k] + [grown[k]];
      Appended(merged[..k], merged[k], t);
      Appended(merged[..k], grown[k], t);
    }
  }

  method MergeRanges(ranges: seq<Range>) returns (merged: seq<Range>)
    ensures Normal(merged) && forall t :: Covered(merged, t) <==> Covered(ranges, t)
  {
    var s := Sorted(ranges);
    merged := [];
    for i := 0 to |s|
      invariant Normal(merged) && forall t :: Covered(merged, t) <==> Covered(s[..i], t)
      invariant |merged| > 0 ==> i > 0 && merged[|merged| - 1].lo <= s[i - 1].lo
    {
      var r := s[i];
      ghost var was := merged;
      if |merged| > 0 && r.lo <= merged[|merged| - 1].hi + 1 {
        GrowLastKeeps(merged, r);
        merged := GrowLast(merged, r);
      } else {
        merged := merged + [r];
      }
      assert s[..i + 1] == s[..i] + [r];
      forall t ensures Covered(merged, t) <==> Covered(s[..i + 1], t) {
        Appended(s[..i], r, t);
        Appended(was, r, t);
      }
      hide Covered;
    }
    assert s[..|s|] == s;
  }

  // ---- difference ----

  predicate Missing(ranges: seq<Range>, start: int, end: int, t: int) {
    start <= t <= end && !Covered(ranges, t)
  }

  method MissingRanges(ranges: seq<Range>, from: int, end: int) returns (missing: seq<Range>)
    ensures Normal(missing) && forall t :: Covered(missing, t) <==> Missing(ranges, from, end, t)
  {
    var merged := MergeRanges(ranges);
    var start := from;
    missing := [];
    var i := 0;
    while i < |merged|
      invariant 0 <= i <= |merged|
      invariant start >= from && (start == from || (i > 0 && start == merged[i - 1].hi + 1))
      invariant forall k :: 0 <= k < i ==> merged[k].hi < start
      invariant Normal(missing) && forall k :: 0 <= k < |missing| ==> missing[k].hi + 1 < start && missing[k].hi <= end
      invariant forall t :: Covered(missing, t) <==> t < start && Missing(merged, from, end, t)
    {
      var r := merged[i];
      if r.hi < start {
        i := i + 1;
        continue;
      }
      if r.lo > end { break; }
      ghost var was, at := missing, start;
      if r.lo > start {
        missing := missing + [Range(start, if end < r.lo - 1 then end else r.lo - 1)];
      }
      start := if start < r.hi + 1 then r.hi + 1 else start;
      i := i + 1;
      forall t ensures Covered(missing, t) <==> t < start && Missing(merged, from, end, t) {
        if r.lo > at { Appended(was, Range(at, if end < r.lo - 1 then end else r.lo - 1), t); }
        if at <= t < start { Between(merged, i - 1, t, at); }
      }
    }
    ghost var was := missing;
    if start <= end {
      missing := missing + [Range(start, end)];
    }
    forall t ensures Covered(missing, t) <==> Missing(ranges, from, end, t) {
      Appended(was, Range(start, end), t);
      if start <= t <= end { BetweenRanges(merged, i, start, end, t); }
    }
  }

  /** From `at`, below which ranges before `k` end, up to the end of range `k` only that range covers. */
  lemma Between(merged: seq<Range>, k: nat, t: int, at: int)
    requires Normal(merged) && k < |merged| && (forall j :: 0 <= j < k ==> merged[j].hi < at)
    requires at <= t <= merged[k].hi
    ensures Covered(merged, t) <==> merged[k].lo <= t
  {
    if Covered(merged, t) {
      var j :| 0 <= j < |merged| && merged[j].lo <= t <= merged[j].hi;
      assert j >= k;
    }
  }

  lemma BetweenRanges(merged: seq<Range>, i: nat, start: int, end: int, t: int)
    requires Normal(merged) && i <= |merged| && (forall k :: 0 <= k < i ==> merged[k].hi < start)
    requires (i < |merged| ==> merged[i].lo > end) && start <= t <= end
    ensures !Covered(merged, t)
  {
    forall k | 0 <= k < |merged| ensures !(merged[k].lo <= t <= merged[k].hi) {
      assert k > i ==> merged[i].hi + 1 < merged[k].lo;
    }
  }

  // ---- counting ----

  function Seconds(ranges: seq<Range>, start: int, end: int): set<int> {
    set t | start <= t <= end && !Covered(ranges, t)
  }

  function Span(lo: int, hi: int): (s: set<int>)
    ensures forall t :: t in s <==> lo <= t <= hi
    ensures |s| == if lo <= hi then hi - lo + 1 else 0
    decreases hi - lo
  {
    if lo > hi then {} else Span(lo, hi - 1) + {hi}
  }

  /** The number of uncovered seconds. */
  method MissingSeconds(ranges: seq<Range>, start: int, end: int) returns (n: nat)
    ensures n == |Seconds(ranges, start, end)|
  {
    var missing := MissingRanges(ranges, start, end);
    n := 0;
    ghost var counted: set<int> := {};
    for i := 0 to |missing|
      invariant forall t :: t in counted <==> Covered(missing[..i], t)
      invariant n == |counted|
    {
      var r := missing[i];
      assert missing[..i + 1] == missing[..i] + [r];
      forall t ensures Covered(missing[..i + 1], t) <==> t in counted + Span(r.lo, r.hi) {
        Appended(missing[..i], r, t);
      }
      assert counted !! Span(r.lo, r.hi);
      counted := counted + Span(r.lo, r.hi);
      n := n + (r.hi - r.lo + 1);
    }
    assert missing[..|missing|] == missing;
    assert counted == Seconds(ranges, start, end);
  }
}
