/** How the canonical text of a state is cut into named records. */
module CheckpointLayout {
  // The records (`_fragments`) join to exactly that text, and no two of them share a name.

  import opened Wrappers
  import opened CanonicalJson
  import opened GzipMembers

  const GROUP_MIN_BYTES := 64 * 1024

  datatype Fragment = Fragment(path: seq<string>, role: Role, text: string)

  function Joined(fs: seq<Fragment>): string {
    if fs == [] then "" else fs[0].text + Joined(fs[1..])
  }

  lemma {:induction false} JoinedConcat(a: seq<Fragment>, b: seq<Fragment>)
    ensures Joined(a + b) == Joined(a) + Joined(b)
    decreases |a|
  {
    if a == [] {
      assert a + b == b;
    } else {
      assert (a + b)[1..] == a[1..] + b;
      JoinedConcat(a[1..], b);
    }
  }

  // ---- the text of consecutive entries ----

  function EntryText(entries: seq<Entry>, i: nat): string
    requires i < |entries|
  {
    Comma(i) + PrintEntry(entries[i])
  }

  function Range(entries: seq<Entry>, i: nat, j: nat): string
    requires i <= j <= |entries|
    decreases j
  {
    if i == j then "" else Range(entries, i, j - 1) + EntryText(entries, j - 1)
  }

  lemma {:induction false} RangeSplit(entries: seq<Entry>, i: nat, j: nat, k: nat)
    requires i <= j <= k <= |entries|
    ensures Range(entries, i, k) == Range(entries, i, j) + Range(entries, j, k)
    decreases k
  {
    hide EntryText;
    if j < k {
      RangeSplit(entries, i, j, k - 1);
    }
  }

  lemma {:induction false} RangeIsPrint(entries: seq<Entry>, i: nat)
    requires i <= |entries|
    ensures Range(entries, i, |entries|) == PrintEntries(entries, i)
    decreases |entries| - i
  {
    if i == |entries| {
      RangeEmpty(entries, i);
      assert PrintEntries(entries, i) == "";
    } else {
      hide Range, PrintEntries, EntryText;
      RangeSplit(entries, i, i + 1, |entries|);
      RangeIsPrint(entries, i + 1);
      RangeOfOne(entries, i);
      PrintStep(entries, i);
    }
  }

  lemma RangeOfOne(entries: seq<Entry>, i: nat)
    requires i < |entries|
    ensures Range(entries, i, i + 1) == EntryText(entries, i)
  {
    RangeEmpty(entries, i);
    RangeGrows(entries, i, i);
    hide Range, EntryText;
  }

  lemma PrintStep(entries: seq<Entry>, i: nat)
    requires i < |entries|
    ensures PrintEntries(entries, i) == EntryText(entries, i) + PrintEntries(entries, i + 1)
  {
    hide PrintEntry;
  }

  lemma RangeNotEmpty(entries: seq<Entry>, i: nat, j: nat)
    requires i < j <= |entries|
    ensures Range(entries, i, j) != ""
  {}

  // ---- grouping ----

  /** The lexical bucket of a key: its first character, if it has one. */
  function Bucket(e: Entry): string {
    if e.key == "" then "" else e.key[..1]
  }

  /** A group ends where the bucket changes and the group is large enough. */
  function NextCut(entries: seq<Entry>, start: nat, k: nat): (cut: nat)
    requires start < k <= |entries|
    ensures k <= cut <= |entries|
    decreases |entries| - k
  {
    if k == |entries| || (Bucket(entries[k]) != Bucket(entries[k - 1])
                          && |Range(entries, start, k)| >= GROUP_MIN_BYTES) then k
    else NextCut(entries, start, k + 1)
  }

  function Groups(key: string, entries: seq<Entry>, start: nat): seq<Fragment>
    requires start <= |entries|
    decreases |entries| - start
  {
    if start == |entries| then []
    else
      var cut := NextCut(entries, start, start + 1);
      [Fragment([key, Bucket(entries[start])], Group, Range(entries, start, cut))] + Groups(key, entries, cut)
  }

  /** A place where a group may end: a new bucket begins, and the group so far is large enough. */
  ghost predicate Boundary(entries: seq<Entry>, start: nat, j: nat)
    requires start < j < |entries|
  {
    Bucket(entries[j]) != Bucket(entries[j - 1]) && |Range(entries, start, j)| >= GROUP_MIN_BYTES
  }

  /** A group ends at the first such place: entries of one bucket are never separated, and no group could be shorter. */
  lemma {:induction false} CutIsFirstBoundary(entries: seq<Entry>, start: nat, k: nat)
    requires start < k <= |entries|
    ensures var cut := NextCut(entries, start, k);
            && (cut < |entries| ==> Boundary(entries, start, cut))
            && forall j :: k <= j < cut ==> !Boundary(entries, start, j)
    decreases |entries| - k
  {
    hide Bucket, Range;
    if NextCut(entries, start, k) != k {
      CutIsFirstBoundary(entries, start, k + 1);
    }
  }

  /** So the groups are few: all but the last have the minimum size, however sparse the buckets are. */
  lemma {:induction false} GroupsAreFew(key: string, entries: seq<Entry>, start: nat)
    requires start < |entries|
    ensures GROUP_MIN_BYTES * (|Groups(key, entries, start)| - 1) < |Range(entries, start, |entries|)|
    decreases |entries| - start
  {
    hide *;
    var cut := NextCut(entries, start, start + 1);
    GroupEnds(key, entries, start);
    if cut < |entries| {
      LargeEnough(entries, start);
      GroupsAreFew(key, entries, cut);
      RangeSplit(entries, start, cut, |entries|);
    } else {
      NoGroups(key, entries);
      RangeNotEmpty(entries, start, |entries|);
    }
  }

  lemma LargeEnough(entries: seq<Entry>, start: nat)
    requires start < |entries|
    ensures var cut := NextCut(entries, start, start + 1);
            cut < |entries| ==> |Range(entries, start, cut)| >= GROUP_MIN_BYTES
  {
    CutIsFirstBoundary(entries, start, start + 1);
    hide Range, NextCut;
  }

  lemma NoGroups(key: string, entries: seq<Entry>)
    ensures Groups(key, entries, |entries|) == []
  {}

  function Prefix(durable: seq<Entry>, position: nat): string
    requires position < |durable|
  {
    Comma(position) + PrintString(durable[position].key) + ":"
  }

  predicate Divided(e: Entry) {
    e.value.Mapping? && e.key != "_runtime"
  }

  function ValueFragments(durable: seq<Entry>, position: nat): seq<Fragment>
    requires position < |durable|
  {
    var e := durable[position];
    if !Divided(e) then [Fragment([e.key], Whole, Prefix(durable, position) + Print(e.value))]
    else
      [Fragment([e.key], Open, Prefix(durable, position) + "{")]
      + Groups(e.key, e.value.entries, 0) + [Fragment([e.key], Close, "}")]
  }

  function AllValues(durable: seq<Entry>, position: nat): seq<Fragment>
    requires position <= |durable|
  {
    if position == 0 then [] else AllValues(durable, position - 1) + ValueFragments(durable, position - 1)
  }

  function FragmentsOf(durable: seq<Entry>): seq<Fragment> {
    [Fragment([], Open, "{")] + AllValues(durable, |durable|) + [Fragment([], Close, "}")]
  }

  // ---- the generator ----

  /** The inner loop: a pending group grows until its bucket ends and it is large enough. */
  method MakeGroups(key: string, entries: seq<Entry>) returns (fs: seq<Fragment>)
    ensures fs == Groups(key, entries, 0)
  {
    hide Bucket, Range, EntryText;
    fs := [];
    var group: Option<string>, bucket: string, text: string, size := None, "", "", 0;
    ghost var start := 0;
    assert Range(entries, 0, 0) == "" by { RangeEmpty(entries, 0); }
    for index := 0 to |entries|
      invariant start <= index && (index > 0 ==> start < index)
      invariant index == 0 ==> group == None
      invariant text == Range(entries, start, index) && size == |text|
      invariant index > 0 ==> bucket == Bucket(entries[index - 1]) && group == Some(Bucket(entries[start]))
      invariant index > 0 ==> NextCut(entries, start, start + 1) == NextCut(entries, start, index)
      invariant fs + Groups(key, entries, start) == Groups(key, entries, 0)
    {
      if index > 0 && Bucket(entries[index]) != bucket && size >= GROUP_MIN_BYTES {
        assert NextCut(entries, start, index) == index;
        GroupEnds(key, entries, start);
        fs := fs + [Fragment([key, group.value], Group, text)];
        text, size, group, start := "", 0, None, index;
        RangeEmpty(entries, index);
      }
      bucket := Bucket(entries[index]);
      group := if group.None? then Some(bucket) else group;
      text := text + EntryText(entries, index);
      size := |text|;
      RangeGrows(entries, start, index);
    }
    if text != "" {
      GroupEnds(key, entries, start);
      fs := fs + [Fragment([key, group.value], Group, text)];
    } else {
      NoText(entries, start);
    }
  }

  lemma RangeEmpty(entries: seq<Entry>, i: nat)
    requires i <= |entries|
    ensures Range(entries, i, i) == ""
  {}

  lemma RangeGrows(entries: seq<Entry>, i: nat, j: nat)
    requires i <= j < |entries|
    ensures Range(entries, i, j + 1) == Range(entries, i, j) + EntryText(entries, j)
  {}

  lemma NoText(entries: seq<Entry>, i: nat)
    requires i <= |entries|
    ensures Range(entries, i, |entries|) == "" <==> i == |entries|
  {
    if i < |entries| {
      RangeNotEmpty(entries, i, |entries|);
    }
  }

  lemma GroupEnds(key: string, entries: seq<Entry>, start: nat)
    requires start < |entries|
    ensures var cut := NextCut(entries, start, start + 1);
            Groups(key, entries, start)
              == [Fragment([key, Bucket(entries[start])], Group, Range(entries, start, cut))] + Groups(key, entries,
                  cut)
  {}

  method MakeFragments(durable: seq<Entry>) returns (fs: seq<Fragment>)
    ensures fs == FragmentsOf(durable)
  {
    hide ValueFragments;
    fs := [Fragment([], Open, "{")];
    for position := 0 to |durable|
      invariant fs == [Fragment([], Open, "{")] + AllValues(durable, position)
    {
      var value := MakeValue(durable, position);
      fs := fs + value;
    }
    fs := fs + [Fragment([], Close, "}")];
  }

  /** The records of one top-level value. */
  method MakeValue(durable: seq<Entry>, position: nat) returns (fs: seq<Fragment>)
    requires position < |durable|
    ensures fs == ValueFragments(durable, position)
  {
    hide PrintString, Print, Groups;
    var e := durable[position];
    var prefix := Comma(position) + PrintString(e.key) + ":";
    if !e.value.Mapping? || e.key == "_runtime" {
      return [Fragment([e.key], Whole, prefix + Print(e.value))];
    }
    var groups := MakeGroups(e.key, e.value.entries);
    return [Fragment([e.key], Open, prefix + "{")] + groups + [Fragment([e.key], Close, "}")];
  }

  // ---- the records join to the canonical text ----

  lemma {:induction false} GroupsJoin(key: string, entries: seq<Entry>, start: nat)
    requires start <= |entries|
    ensures Joined(Groups(key, entries, start)) == Range(entries, start, |entries|)
    decreases |entries| - start
  {
    hide Bucket, NextCut;
    if start < |entries| {
      var cut := NextCut(entries, start, start + 1);
      GroupEnds(key, entries, start);
      GroupsJoin(key, entries, cut);
      RangeSplit(entries, start, cut, |entries|);
      hide Range, Groups;
      var head := Fragment([key, Bucket(entries[start])], Group, Range(entries, start, cut));
      assert ([head] + Groups(key, entries, cut))[1..] == Groups(key, entries, cut);
    }
  }

  lemma ValueJoins(durable: seq<Entry>, position: nat)
    requires position < |durable|
    ensures Joined(ValueFragments(durable, position)) == EntryText(durable, position)
  {
    var e := durable[position];
    if !Divided(e) {
      JoinedOne(ValueFragments(durable, position)[0]);
      hide PrintString, Print, Joined;
      assert PrintEntry(e) == PrintString(e.key) + ":" + Print(e.value);
    } else {
      hide ValueFragments;
      DividedJoins(durable, position);
    }
  }

  lemma DividedJoins(durable: seq<Entry>, position: nat)
    requires position < |durable| && Divided(durable[position])
    ensures Joined(ValueFragments(durable, position)) == EntryText(durable, position)
  {
    var e := durable[position];
    var entries := e.value.entries;
    var open, groups, close := Fragment([e.key], Open, Prefix(durable, position) + "{"), Groups(e.key, entries, 0),
        Fragment([e.key], Close, "}");
    GroupsJoin(e.key, entries, 0);
    RangeIsPrint(entries, 0);
    hide Groups, Range, Prefix, EntryText;
    JoinedConcat([open] + groups, [close]);
    JoinedConcat([open], groups);
    JoinedOne(open);
    JoinedOne(close);
    hide Joined, PrintEntries;
    DividedText(durable, position);
  }

  lemma DividedText(durable: seq<Entry>, position: nat)
    requires position < |durable| && Divided(durable[position])
    ensures Prefix(durable, position) + "{" + PrintEntries(durable[position].value.entries, 0) + "}"
            == EntryText(durable, position)
  {
    var e := durable[position];
    hide PrintString, PrintEntries;
    assert Print(e.value) == "{" + PrintEntries(e.value.entries, 0) + "}";
    assert PrintEntry(e) == PrintString(e.key) + ":" + Print(e.value);
    Regroup(Comma(position), PrintString(e.key), PrintEntries(e.value.entries, 0));
  }

  lemma Regroup(comma: string, key: string, inner: string)
    ensures comma + key + ":" + "{" + inner + "}" == comma + (key + ":" + ("{" + inner + "}"))
  {}

  lemma JoinedOne(f: Fragment)
    ensures Joined([f]) == f.text
  {}

  lemma {:induction false} ValuesJoin(durable: seq<Entry>, position: nat)
    requires position <= |durable|
    ensures Joined(AllValues(durable, position)) == Range(durable, 0, position)
  {
    hide ValueFragments, EntryText;
    if position > 0 {
      ValuesJoin(durable, position - 1);
      ValueJoins(durable, position - 1);
      JoinedConcat(AllValues(durable, position - 1), ValueFragments(durable, position - 1));
    }
  }

  /** Cutting a state into records and joining them gives its canonical text. */
  lemma FragmentsJoin(durable: seq<Entry>)
    ensures Joined(FragmentsOf(durable)) == Print(Mapping(durable))
  {
    var open, close := Fragment([], Open, "{"), Fragment([], Close, "}");
    var values := AllValues(durable, |durable|);
    ValuesJoin(durable, |durable|);
    RangeIsPrint(durable, 0);
    hide AllValues, Range, PrintEntries;
    JoinedConcat([open] + values, [close]);
    JoinedConcat([open], values);
    JoinedOne(open);
    JoinedOne(close);
  }

  // ---- every record has its own name and some text ----

  predicate SameName(f: Fragment, g: Fragment) {
    f.path == g.path && f.role == g.role
  }

  predicate Distinct(fs: seq<Fragment>) {
    forall i, j :: 0 <= i < j < |fs| ==> !SameName(fs[i], fs[j])
  }

  predicate Apart(a: seq<Fragment>, b: seq<Fragment>) {
    forall i, j :: 0 <= i < |a| && 0 <= j < |b| ==> !SameName(a[i], b[j])
  }

  lemma DistinctConcat(a: seq<Fragment>, b: seq<Fragment>)
    requires Distinct(a) && Distinct(b) && Apart(a, b)
    ensures Distinct(a + b)
  {
    hide SameName;
    forall i, j | 0 <= i < j < |a + b| ensures !SameName((a + b)[i], (a + b)[j]) {
      if i < |a| {
        assert (a + b)[i] == a[i];
      }
      if j >= |a| {
        assert (a + b)[j] == b[j - |a|];
      }
    }
  }

  function Rank(e: Entry): int {
    if e.key == "" then -1 else e.key[0] as int
  }

  lemma RankOrder(entries: seq<Entry>, i: nat, j: nat)
    requires KeysInOrder(entries) && i <= j < |entries|
    ensures Rank(entries[i]) <= Rank(entries[j])
  {
    if i < j {
      assert Before(entries[i].key, entries[j].key);
    }
  }

  lemma BucketIsRank(a: Entry, b: Entry)
    ensures Bucket(a) == Bucket(b) <==> Rank(a) == Rank(b)
  {
    if a.key != "" && b.key != "" {
      assert Bucket(a)[0] == a.key[0] && Bucket(b)[0] == b.key[0];
      if Rank(a) == Rank(b) {
        assert Bucket(a) == [a.key[0]] && Bucket(b) == [b.key[0]];
      }
    }
  }

  /** The label of every group from `start` on is the bucket of an entry no earlier than `start`. */
  ghost predicate Labelled(key: string, entries: seq<Entry>, start: nat, f: Fragment) {
    f.role == Group && f.text != "" && exists i :: start <= i < |entries| && f.path == [key, Bucket(entries[i])]
  }

  lemma {:induction false} GroupsAreDistinct(key: string, entries: seq<Entry>, start: nat)
    requires KeysInOrder(entries) && start <= |entries|
    ensures Distinct(Groups(key, entries, start))
    ensures forall i :: 0 <= i < |Groups(key, entries, start)| ==>
              Labelled(key, entries, start, Groups(key, entries, start)[i])
    decreases |entries| - start
  {
    hide Bucket, NextCut, Range, KeysInOrder, Before;
    if start < |entries| {
      var cut := NextCut(entries, start, start + 1);
      GroupEnds(key, entries, start);
      GroupsAreDistinct(key, entries, cut);
      CutIsFirstBoundary(entries, start, start + 1);
      RangeNotEmpty(entries, start, cut);
      hide Groups;
      var head, tail := Fragment([key, Bucket(entries[start])], Group, Range(entries, start, cut)),
          Groups(key, entries, cut);
      assert Labelled(key, entries, start, head);
      forall j | 0 <= j < |tail| ensures !SameName(head, tail[j]) && Labelled(key, entries, start, tail[j]) {
        LaterLabel(key, entries, start, cut, tail[j]);
      }
      DistinctConcat([head], tail);
    }
  }

  lemma LaterLabel(key: string, entries: seq<Entry>, start: nat, cut: nat, f: Fragment)
    requires KeysInOrder(entries) && start < cut <= |entries|
    requires cut < |entries| ==> Bucket(entries[cut]) != Bucket(entries[cut - 1])
    requires Labelled(key, entries, cut, f)
    ensures f.path != [key, Bucket(entries[start])] && Labelled(key, entries, start, f)
  {
    hide KeysInOrder, Bucket;
    var i :| cut <= i < |entries| && f.path == [key, Bucket(entries[i])];
    assert f.path[1] == Bucket(entries[i]);
    RankOrder(entries, start, cut - 1);
    RankOrder(entries, cut - 1, cut);
    RankOrder(entries, cut, i);
    BucketIsRank(entries[cut - 1], entries[cut]);
    BucketIsRank(entries[start], entries[i]);
  }

  /** The records of one top-level value: named after its key, distinct, and never empty. */
  ghost predicate Owned(fs: seq<Fragment>, key: string) {
    forall i :: 0 <= i < |fs| ==> |fs[i].path| >= 1 && fs[i].path[0] == key && fs[i].text != ""
  }

  lemma ValueIsDistinct(durable: seq<Entry>, position: nat)
    requires position < |durable| && Canonical(durable[position].value)
    ensures Distinct(ValueFragments(durable, position))
    ensures Owned(ValueFragments(durable, position), durable[position].key)
  {
    hide PrintString, Print, Groups, KeysInOrder;
    var e := durable[position];
    if Divided(e) {
      var entries := e.value.entries;
      GroupsAreDistinct(e.key, entries, 0);
      var open, groups, close := Fragment([e.key], Open, Prefix(durable, position) + "{"), Groups(e.key, entries, 0),
          Fragment([e.key], Close, "}");
      forall i | 0 <= i < |groups| ensures groups[i].role == Group && groups[i].path[0] == e.key {
        assert Labelled(e.key, entries, 0, groups[i]);
      }
      DistinctConcat([open], groups);
      DistinctConcat([open] + groups, [close]);
    }
  }

  lemma KeysDiffer(entries: seq<Entry>, i: nat, j: nat)
    requires KeysInOrder(entries) && i < j < |entries|
    ensures entries[i].key != entries[j].key
  {
    BeforeIsStrict(entries[i].key);
  }

  lemma {:induction false} BeforeIsStrict(a: string)
    ensures !Before(a, a)
    decreases |a|
  {
    if a != "" {
      BeforeIsStrict(a[1..]);
    }
  }

  /** The records of the first `position` values. */
  lemma {:induction false} ValuesAreDistinct(durable: seq<Entry>, position: nat)
    requires Canonical(Mapping(durable)) && position <= |durable|
    ensures var fs := AllValues(durable, position);
            Distinct(fs) && forall i :: 0 <= i < |fs| ==> NamedAfter(durable, position, fs[i])
  {
    hide ValueFragments, Distinct;
    if position == 0 {
      assert Distinct(AllValues(durable, 0)) by { NothingDistinct(); }
    } else {
      var before, value := AllValues(durable, position - 1), ValueFragments(durable, position - 1);
      ValuesAreDistinct(durable, position - 1);
      ValueIsDistinct(durable, position - 1);
      forall i | 0 <= i < |value| ensures NamedAfter(durable, position, value[i]) {}
      forall i, j | 0 <= i < |before| && 0 <= j < |value| ensures !SameName(before[i], value[j]) {
        var k :| 0 <= k < position - 1 && before[i].path[0] == durable[k].key;
        KeysDiffer(durable, k, position - 1);
      }
      DistinctConcat(before, value);
    }
  }

  lemma NothingDistinct()
    ensures Distinct([])
  {}

  ghost predicate NamedAfter(durable: seq<Entry>, position: nat, f: Fragment)
    requires position <= |durable|
  {
    f.text != "" && |f.path| >= 1 && exists k :: 0 <= k < position && f.path[0] == durable[k].key
  }

  /** No two records of a state share path and role, and none is empty. */
  lemma FragmentsAreDistinct(durable: seq<Entry>)
    requires Canonical(Mapping(durable))
    ensures Distinct(FragmentsOf(durable))
    ensures forall i :: 0 <= i < |FragmentsOf(durable)| ==> FragmentsOf(durable)[i].text != ""
  {
    var open, close := Fragment([], Open, "{"), Fragment([], Close, "}");
    var values := AllValues(durable, |durable|);
    ValuesAreDistinct(durable, |durable|);
    hide AllValues, Canonical;
    forall i | 0 <= i < |values| ensures values[i].path != [] && values[i].text != "" {
      assert NamedAfter(durable, |durable|, values[i]);
    }
    DistinctConcat([open], values);
    DistinctConcat([open] + values, [close]);
  }

}
