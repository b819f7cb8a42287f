/** What a build stages, and why its manifest always passes the validator: only sizes can refuse it. */
module CheckpointStaging {
  import opened CanonicalJson
  import opened GzipMembers
  import opened CheckpointLayout
  import opened CheckpointPieces
  import opened CheckpointManifest

  // ---- shape of the record names ----

  predicate Shaped(f: Fragment) {
    |f.path| <= 2 && (IsMeta(f.path) ==> f.role == Whole)
  }

  lemma ValueIsShaped(durable: seq<Entry>, position: nat)
    requires position < |durable| && Canonical(durable[position].value)
    ensures forall i :: 0 <= i < |ValueFragments(durable, position)| ==> Shaped(ValueFragments(durable, position)[i])
  {
    hide PrintString, Print, Groups, KeysInOrder;
    var e := durable[position];
    if Divided(e) {
      GroupsAreDistinct(e.key, e.value.entries, 0);
      var groups := Groups(e.key, e.value.entries, 0);
      forall i | 0 <= i < |groups| ensures Shaped(groups[i]) {
        assert Labelled(e.key, e.value.entries, 0, groups[i]);
      }
    }
  }

  lemma {:induction false} ValuesAreShaped(durable: seq<Entry>, position: nat)
    requires Canonical(Mapping(durable)) && position <= |durable|
    ensures forall i :: 0 <= i < |AllValues(durable, position)| ==> Shaped(AllValues(durable, position)[i])
  {
    hide ValueFragments, Shaped;
    if position > 0 {
      ValuesAreShaped(durable, position - 1);
      ValueIsShaped(durable, position - 1);
    }
  }

  /** The runtime metadata is at most one record. */
  lemma FragmentsAreShaped(durable: seq<Entry>)
    requires Canonical(Mapping(durable))
    ensures var fs := FragmentsOf(durable);
            && (forall i :: 0 <= i < |fs| ==> Shaped(fs[i]))
            && forall i, j :: 0 <= i < j < |fs| ==> !(IsMeta(fs[i].path) && IsMeta(fs[j].path))
  {
    var fs := FragmentsOf(durable);
    ValuesAreShaped(durable, |durable|);
    FragmentsAreDistinct(durable);
    hide AllValues, Canonical;
    forall i | 0 <= i < |fs| ensures Shaped(fs[i]) {
      if 0 < i < |fs| - 1 {
        assert fs[i] == AllValues(durable, |durable|)[i - 1];
      }
    }
    forall i, j | 0 <= i < j < |fs| ensures !(IsMeta(fs[i].path) && IsMeta(fs[j].path)) {
      assert !SameName(fs[i], fs[j]);
    }
  }

  // ---- references of pieces ----

  lemma {:induction false} RefsConcat(codec: Codec, a: seq<Piece>, b: seq<Piece>)
    ensures Refs(codec, a + b) == Refs(codec, a) + Refs(codec, b)
    decreases |b|
  {
    if b == [] {
      assert a + b == a;
    } else {
      assert (a + b)[..|a + b| - 1] == a + b[..|b| - 1];
      RefsConcat(codec, a, b[..|b| - 1]);
    }
  }

  lemma {:induction false} RefsOfRecord(codec: Codec, ps: seq<Piece>)
    requires forall i :: 0 <= i < |ps| ==> !IsMeta(ps[i].id.path)
    ensures |Refs(codec, ps)| == |ps| && forall i :: 0 <= i < |ps| ==> Refs(codec, ps)[i] == RefOf(codec, ps[i])
    decreases |ps|
  {
    if ps != [] {
      RefsOfRecord(codec, ps[..|ps| - 1]);
    }
  }

  /** The reference of a proper piece of one of the first `n` records. */
  ghost predicate From(codec: Codec, fs: seq<Fragment>, n: nat, texts: set<string>, r: Ref)
    requires n <= |fs|
  {
    exists j, p :: 0 <= j < n && Proper(codec, fs[j], r.name.index, p) && r == RefOf(codec, p) && p.encoded in texts
      && !IsMeta(fs[j].path)
  }

  ghost predicate NamesUnique(refs: seq<Ref>) {
    forall i, j :: 0 <= i < j < |refs| ==> refs[i].name != refs[j].name
  }

  ghost predicate AllFrom(codec: Codec, fs: seq<Fragment>, n: nat, texts: set<string>, refs: seq<Ref>)
    requires n <= |fs|
  {
    forall i :: 0 <= i < |refs| ==> From(codec, fs, n, texts, refs[i])
  }

  /** The numbered references of one record. */
  ghost predicate IsRun(refs: seq<Ref>, f: Fragment) {
    forall i :: 0 <= i < |refs| ==> refs[i].name == Identity(f.path, f.role, i)
  }

  lemma AppendRun(a: seq<Ref>, b: seq<Ref>, f: Fragment)
    requires InOrder(a) && NamesUnique(a) && IsRun(b, f)
    requires forall i :: 0 <= i < |a| ==> !(a[i].name.path == f.path && a[i].name.role == f.role)
    ensures InOrder(a + b) && NamesUnique(a + b)
  {
    var c := a + b;
    forall i | 0 <= i < |c| ensures InOrderAt(c, i) {
      if i < |a| {
        assert InOrderAt(a, i);
        SamePrefix(a, c, i);
      } else {
        assert c[i] == b[i - |a|];
        if i == |a| {
          assert forall j :: 0 <= j < i ==> c[j] == a[j];
        } else {
          assert c[i - 1] == b[i - 1 - |a|];
        }
      }
    }
    hide InOrder, InOrderAt;
    forall i, j | 0 <= i < j < |c| ensures c[i].name != c[j].name {
      assert j >= |a| ==> c[j] == b[j - |a|];
      assert i >= |a| ==> c[i] == b[i - |a|];
    }
  }

  ghost predicate Limits(fs: seq<Fragment>) {
    forall i :: 0 <= i < |fs| ==> PathFits(fs[i].path) && |fs[i].text| <= MAX_DECODED_BYTES
  }

  lemma CutRefs(codec: Codec, fs: seq<Fragment>, n: nat, texts: set<string>)
    requires n < |fs| && Limits(fs) && Encodings(Cut(codec, fs[n], 0, 0)) <= texts
    ensures var refs := Refs(codec, Cut(codec, fs[n], 0, 0));
            IsRun(refs, fs[n]) && AllFrom(codec, fs, n + 1, texts, refs) && (IsMeta(fs[n].path) ==> refs == [])
  {
    var ps := Cut(codec, fs[n], 0, 0);
    CutIsProper(codec, fs[n], 0, 0);
    hide Cut, Genuine, PathFits;
    if IsMeta(fs[n].path) {
      NoRefs(codec, ps);
    } else {
      RefsOfRecord(codec, ps);
      var refs := Refs(codec, ps);
      forall i | 0 <= i < |refs| ensures refs[i].name == Identity(fs[n].path, fs[n].role, i)
          && From(codec, fs, n + 1, texts, refs[i]) {
        assert Proper(codec, fs[n], 0 + i, ps[i]) && ps[i].encoded in Encodings(ps);
      }
    }
  }

  lemma {:induction false} NoRefs(codec: Codec, ps: seq<Piece>)
    requires forall i :: 0 <= i < |ps| ==> IsMeta(ps[i].id.path)
    ensures Refs(codec, ps) == []
    decreases |ps|
  {
    if ps != [] {
      NoRefs(codec, ps[..|ps| - 1]);
    }
  }

  lemma {:induction false} StagedRefs(codec: Codec, fs: seq<Fragment>, n: nat, texts: set<string>)
    requires n <= |fs| && Limits(fs) && Distinct(fs) && Encodings(PiecesOf(codec, fs, n)) <= texts
    ensures var refs := Refs(codec, PiecesOf(codec, fs, n));
            InOrder(refs) && NamesUnique(refs) && AllFrom(codec, fs, n, texts, refs)
  {
    hide Cut, Limits;
    if n > 0 {
      var a, b := Refs(codec, PiecesOf(codec, fs, n - 1)), Refs(codec, Cut(codec, fs[n - 1], 0, 0));
      EncodingsConcat(PiecesOf(codec, fs, n - 1), Cut(codec, fs[n - 1], 0, 0));
      StagedRefs(codec, fs, n - 1, texts);
      CutRefs(codec, fs, n - 1, texts);
      RefsConcat(codec, PiecesOf(codec, fs, n - 1), Cut(codec, fs[n - 1], 0, 0));
      assert Refs(codec, PiecesOf(codec, fs, n)) == a + b;
      hide Refs, PiecesOf, InOrder, NamesUnique, Proper;
      forall i | 0 <= i < |a| ensures !(a[i].name.path == fs[n - 1].path && a[i].name.role == fs[n - 1].role) {
        OtherRecord(codec, fs, n - 1, texts, a[i]);
      }
      AppendRun(a, b, fs[n - 1]);
      FromConcat(codec, fs, n - 1, texts, a, b);
    }
  }

  lemma EncodingsConcat(a: seq<Piece>, b: seq<Piece>)
    ensures Encodings(a + b) == Encodings(a) + Encodings(b)
  {}

  lemma FromConcat(codec: Codec, fs: seq<Fragment>, n: nat, texts: set<string>, a: seq<Ref>, b: seq<Ref>)
    requires n < |fs| && AllFrom(codec, fs, n, texts, a) && AllFrom(codec, fs, n + 1, texts, b)
    ensures AllFrom(codec, fs, n + 1, texts, a + b)
  {
    hide Proper;
    var c := a + b;
    forall i | 0 <= i < |c| ensures From(codec, fs, n + 1, texts, c[i]) {
      if i < |a| {
        assert c[i] == a[i] && From(codec, fs, n, texts, c[i]);
        var j, p :| 0 <= j < n && Proper(codec, fs[j], c[i].name.index, p) && c[i] == RefOf(codec, p)
                    && p.encoded in texts && !IsMeta(fs[j].path);
      } else {
        assert c[i] == b[i - |a|];
      }
    }
  }

  lemma OtherRecord(codec: Codec, fs: seq<Fragment>, n: nat, texts: set<string>, r: Ref)
    requires n < |fs| && Distinct(fs) && From(codec, fs, n, texts, r)
    ensures !(r.name.path == fs[n].path && r.name.role == fs[n].role)
  {
    var j, p :| 0 <= j < n && Proper(codec, fs[j], r.name.index, p) && r == RefOf(codec, p) && p.encoded in texts
      && !IsMeta(fs[j].path);
    assert !SameName(fs[j], fs[n]);
  }

  // ---- names decide digests ----

  lemma IdsDiffer(codec: Codec, texts: set<string>, p: Piece, q: Piece)
    requires Separates(codec, texts) && p.encoded in texts && q.encoded in texts
    requires Genuine(codec, p) && Genuine(codec, q) && p.id != q.id
    ensures codec.digest(p.encoded) != codec.digest(q.encoded)
  {
    hide Member, Nameable;
    if codec.digest(p.encoded) == codec.digest(q.encoded) {
      MembersDiffer(codec, p.chunk, p.id, q.chunk, q.id);
    }
  }

  lemma StagedIdsUnique(codec: Codec, fs: seq<Fragment>, texts: set<string>, refs: seq<Ref>)
    requires Separates(codec, texts) && AllFrom(codec, fs, |fs|, texts, refs) && NamesUnique(refs)
    ensures UniqueIds(refs)
  {
    hide Separates, Genuine;
    forall i, j | 0 <= i < j < |refs| ensures refs[i].id != refs[j].id {
      assert From(codec, fs, |fs|, texts, refs[i]) && From(codec, fs, |fs|, texts, refs[j]);
      var k, p :| 0 <= k < |fs| && Proper(codec, fs[k], refs[i].name.index, p) && refs[i] == RefOf(codec, p)
          && p.encoded in texts
        && !IsMeta(fs[k].path);
      var l, q :| 0 <= l < |fs| && Proper(codec, fs[l], refs[j].name.index, q) && refs[j] == RefOf(codec, q)
          && q.encoded in texts
        && !IsMeta(fs[l].path);
      IdsDiffer(codec, texts, p, q);
    }
  }

  lemma {:induction false} IndexBelow(refs: seq<Ref>, i: nat)
    requires InOrder(refs) && i < |refs|
    ensures refs[i].name.index <= i
    decreases i
  {
    assert InOrderAt(refs, i);
    if i > 0 {
      IndexBelow(refs, i - 1);
    }
  }

  lemma GenuineSizes(codec: Codec, p: Piece)
    requires Lawful(codec) && Genuine(codec, p)
    ensures var r := RefOf(codec, p);
            IsDigest(r.id) && IsDigest(r.rawDigest) && r.bytes >= 1 && r.bytes % 4 == 0 && r.decoded >= 1
  {
    hide IsDigest, Nameable, Member;
    DigestIsHex(codec, p.encoded);
    DigestIsHex(codec, p.chunk);
    MemberIsAligned(codec, p.chunk, p.id);
  }

  lemma StagedPartRef(codec: Codec, fs: seq<Fragment>, texts: set<string>, r: Ref)
    requires Lawful(codec) && Limits(fs) && (forall i :: 0 <= i < |fs| ==> Shaped(fs[i]))
    requires From(codec, fs, |fs|, texts, r) && r.name.index <= MAX_PARTS && r.bytes <= PART_BYTES
    ensures PartRefOk(r)
  {
    hide Lawful, Genuine, IsDigest, PathFits;
    var j, p :| 0 <= j < |fs| && Proper(codec, fs[j], r.name.index, p) && r == RefOf(codec, p) && p.encoded in texts
      && !IsMeta(fs[j].path);
    GenuineSizes(codec, p);
    assert Shaped(fs[j]);
  }

  /** Within the sizes, the staged references pass the identity and ordering checks. */
  lemma StagedRefsOk(codec: Codec, fs: seq<Fragment>)
    requires Lawful(codec) && Limits(fs) && Distinct(fs) && (forall i :: 0 <= i < |fs| ==> Shaped(fs[i]))
    requires Separates(codec, Encodings(PiecesOf(codec, fs, |fs|)))
    requires var refs := Refs(codec, PiecesOf(codec, fs, |fs|));
             |refs| <= MAX_PARTS && forall i :: 0 <= i < |refs| ==> refs[i].bytes <= PART_BYTES
    ensures RefsOk(Refs(codec, PiecesOf(codec, fs, |fs|)))
  {
    var refs, texts := Refs(codec, PiecesOf(codec, fs, |fs|)), Encodings(PiecesOf(codec, fs, |fs|));
    StagedRefs(codec, fs, |fs|, texts);
    hide Lawful, Separates, Encodings, Limits, Refs, PiecesOf, From, PartRefOk, InOrder, NamesUnique, Distinct, Shaped;
    StagedIdsUnique(codec, fs, texts, refs);
    forall i | 0 <= i < |refs| ensures PartRefOk(refs[i]) {
      IndexBelow(refs, i);
      StagedPartRef(codec, fs, texts, refs[i]);
    }
  }

  // ---- the inline member ----

  lemma MetaCut(codec: Codec, f: Fragment)
    requires IsMeta(f.path) && f.text != ""
    ensures Cut(codec, f, 0, 0) == [PieceAt(codec, f, 0, 0)] && PieceAt(codec, f, 0, 0).chunk == f.text
  {
    hide Encoded;
    assert SliceSize(codec, f, 0, 0) == |f.text|;
    assert Cut(codec, f, |f.text|, 1) == [];
  }

  /** An inline member of the metadata record. */
  ghost predicate InlineFrom(codec: Codec, fs: seq<Fragment>, n: nat, texts: set<string>, refs: seq<Ref>, x: Inline)
    requires n <= |fs|
  {
    exists j, p :: 0 <= j < n && Proper(codec, fs[j], 0, p) && IsMeta(fs[j].path) && p.chunk == fs[j].text
      && x.ref == RefOf(codec, p) && x.data == p.encoded && p.encoded in texts && x.before <= |refs|
  }

  ghost predicate HasMeta(fs: seq<Fragment>, n: nat)
    requires n <= |fs|
  {
    exists j :: 0 <= j < n && IsMeta(fs[j].path)
  }

  lemma {:induction false} InlinesPlain(codec: Codec, a: seq<Piece>, b: seq<Piece>)
    requires forall i :: 0 <= i < |b| ==> !IsMeta(b[i].id.path)
    ensures Inlines(codec, a + b) == Inlines(codec, a)
    decreases |b|
  {
    if b == [] {
      assert a + b == a;
    } else {
      assert (a + b)[..|a + b| - 1] == a + b[..|b| - 1];
      InlinesPlain(codec, a, b[..|b| - 1]);
    }
  }

  lemma InlinesMeta(codec: Codec, a: seq<Piece>, p: Piece)
    requires IsMeta(p.id.path)
    ensures Inlines(codec, a + [p]) == Inlines(codec, a) + [Inline(RefOf(codec, p), |Refs(codec, a)|, p.encoded)]
  {
    assert (a + [p])[..|a + [p]| - 1] == a;
  }

  ghost predicate InlinesStaged(codec: Codec, fs: seq<Fragment>, n: nat, texts: set<string>, refs: seq<Ref>,
                                inline: seq<Inline>)
    requires n <= |fs|
  {
    |inline| == (if HasMeta(fs, n) then 1 else 0) && forall i ::
        0 <= i < |inline|
        ==> InlineFrom(codec, fs, n, texts, refs, inline[i])
  }

  lemma {:induction false} StagedInlines(codec: Codec, fs: seq<Fragment>, n: nat, texts: set<string>)
    requires n <= |fs| && Limits(fs) && Encodings(PiecesOf(codec, fs, n)) <= texts
    requires forall i :: 0 <= i < |fs| ==> fs[i].text != ""
    requires forall i, j :: 0 <= i < j < |fs| ==> !(IsMeta(fs[i].path) && IsMeta(fs[j].path))
    ensures var ps := PiecesOf(codec, fs, n);
            InlinesStaged(codec, fs, n, texts, Refs(codec, ps), Inlines(codec, ps))
  {
    hide Cut, Limits, Proper;
    if n > 0 {
      var before, f := PiecesOf(codec, fs, n - 1), fs[n - 1];
      EncodingsConcat(before, Cut(codec, f, 0, 0));
      StagedInlines(codec, fs, n - 1, texts);
      RefsConcat(codec, before, Cut(codec, f, 0, 0));
      hide PiecesOf, Refs, Inlines;
      if IsMeta(f.path) {
        MetaAppended(codec, fs, n, texts, before);
      } else {
        PlainAppended(codec, fs, n, texts, before);
      }
    }
  }

  lemma PlainAppended(codec: Codec, fs: seq<Fragment>, n: nat, texts: set<string>, before: seq<Piece>)
    requires 0 < n <= |fs| && Limits(fs) && !IsMeta(fs[n - 1].path)
    requires InlinesStaged(codec, fs, n - 1, texts, Refs(codec, before), Inlines(codec, before))
    requires var ps := before + Cut(codec, fs[n - 1], 0, 0);
             Refs(codec, ps) == Refs(codec, before) + Refs(codec, Cut(codec, fs[n - 1], 0, 0))
    ensures var ps := before + Cut(codec, fs[n - 1], 0, 0);
            InlinesStaged(codec, fs, n, texts, Refs(codec, ps), Inlines(codec, ps))
  {
    hide Cut, Refs, Inlines, PathFits, Genuine, RefOf;
    var b := Cut(codec, fs[n - 1], 0, 0);
    CutIsProper(codec, fs[n - 1], 0, 0);
    forall i | 0 <= i < |b| ensures !IsMeta(b[i].id.path) {
      assert Proper(codec, fs[n - 1], 0 + i, b[i]);
    }
    InlinesPlain(codec, before, b);
    hide Proper;
    var inline := Inlines(codec, before);
    forall i | 0 <= i < |inline| ensures InlineFrom(codec, fs, n, texts, Refs(codec, before + b), inline[i]) {
      assert InlineFrom(codec, fs, n - 1, texts, Refs(codec, before), inline[i]);
    }
    assert HasMeta(fs, n) == HasMeta(fs, n - 1);
  }

  lemma MetaAppended(codec: Codec, fs: seq<Fragment>, n: nat, texts: set<string>, before: seq<Piece>)
    requires 0 < n <= |fs| && Limits(fs) && Encodings(Cut(codec, fs[n - 1], 0, 0)) <= texts && IsMeta(fs[n - 1].path)
    requires fs[n - 1].text != ""
    requires forall i :: 0 <= i < n - 1 ==> !IsMeta(fs[i].path)
    requires InlinesStaged(codec, fs, n - 1, texts, Refs(codec, before), Inlines(codec, before))
    requires var ps := before + Cut(codec, fs[n - 1], 0, 0);
             Refs(codec, ps) == Refs(codec, before) + Refs(codec, Cut(codec, fs[n - 1], 0, 0))
    ensures var ps := before + Cut(codec, fs[n - 1], 0, 0);
            InlinesStaged(codec, fs, n, texts, Refs(codec, ps), Inlines(codec, ps))
  {
    var f, p := fs[n - 1], PieceAt(codec, fs[n - 1], 0, 0);
    MetaCut(codec, f);
    CutIsProper(codec, f, 0, 0);
    assert Cut(codec, f, 0, 0)[0] == p && p.encoded in Encodings(Cut(codec, f, 0, 0)) && Proper(codec, f, 0 + 0, p);
    hide Cut, PieceAt, Refs, Inlines, PathFits, Genuine;
    InlinesMeta(codec, before, p);
    hide RefOf;
    var x := Inline(RefOf(codec, p), |Refs(codec, before)|, p.encoded);
    assert InlineFrom(codec, fs, n, texts, Refs(codec, before + [p]), x);
    assert IsMeta(f.path) && HasMeta(fs, n);
    assert Inlines(codec, before) == [];
  }

  lemma StagedInlineOk(codec: Codec, fs: seq<Fragment>, texts: set<string>, refs: seq<Ref>, x: Inline)
    requires Lawful(codec) && Separates(codec, texts) && Limits(fs) && (forall i :: 0 <= i < |fs| ==> Shaped(fs[i]))
    requires AllFrom(codec, fs, |fs|, texts, refs) && InlineFrom(codec, fs, |fs|, texts, refs, x)
    requires x.ref.bytes <= PART_BYTES && x.ref.decoded <= INLINE_BYTES
    ensures InlineOk(refs, x)
  {
    hide Lawful, Separates, Genuine, IsDigest, PathFits;
    var j, p :| 0 <= j < |fs| && Proper(codec, fs[j], 0, p) && IsMeta(fs[j].path) && p.chunk == fs[j].text
      && x.ref == RefOf(codec, p) && x.data == p.encoded && p.encoded in texts && x.before <= |refs|;
    GenuineSizes(codec, p);
    assert Shaped(fs[j]);
    forall i | 0 <= i < |refs| ensures refs[i].id != x.ref.id {
      assert From(codec, fs, |fs|, texts, refs[i]);
      var k, q :| 0 <= k < |fs| && Proper(codec, fs[k], refs[i].name.index, q) && refs[i] == RefOf(codec, q)
          && q.encoded in texts
        && !IsMeta(fs[k].path);
      IdsDiffer(codec, texts, p, q);
    }
  }

  // ---- totals ----

  lemma {:induction false} TotalsSplit(codec: Codec, ps: seq<Piece>)
    ensures TotalBytes(Refs(codec, ps)) + TotalBytes(InlineRefs(Inlines(codec, ps))) == |Data(ps)|
    ensures TotalDecoded(Refs(codec, ps)) + TotalDecoded(InlineRefs(Inlines(codec, ps))) == |Chunks(ps)|
    ensures |Parts(codec, ps)| == |Refs(codec, ps)|
    decreases |ps|
  {
    if ps != [] {
      var rest, r := ps[..|ps| - 1], RefOf(codec, ps[|ps| - 1]);
      TotalsSplit(codec, rest);
      LastInlineRef(codec, ps);
      LastRef(codec, ps);
      var refs, inline := Refs(codec, rest), InlineRefs(Inlines(codec, rest));
      TotalOne(refs, r);
      TotalOne(inline, r);
      hide *;
    }
  }

  lemma LastRef(codec: Codec, ps: seq<Piece>)
    requires ps != []
    ensures var rest, p := ps[..|ps| - 1], ps[|ps| - 1];
            && Refs(codec, ps) == Refs(codec, rest) + (if IsMeta(p.id.path) then [] else [RefOf(codec, p)])
            && |Data(ps)| == |Data(rest)| + RefOf(codec, p).bytes
            && |Chunks(ps)| == |Chunks(rest)| + RefOf(codec, p).decoded
            && |Parts(codec, ps)| == |Parts(codec, rest)| + if IsMeta(p.id.path) then 0 else 1
  {}

  lemma LastInlineRef(codec: Codec, ps: seq<Piece>)
    requires ps != []
    ensures var rest, p := ps[..|ps| - 1], ps[|ps| - 1];
            InlineRefs(Inlines(codec, ps)) == InlineRefs(Inlines(codec, rest)) + if IsMeta(p.id.path)
                then [RefOf(codec, p)] else []
  {}

  lemma TotalOne(refs: seq<Ref>, r: Ref)
    ensures refs + [] == refs
    ensures TotalBytes(refs + [r]) == TotalBytes(refs) + r.bytes
    ensures TotalDecoded(refs + [r]) == TotalDecoded(refs) + r.decoded
  {
    assert (refs + [r])[..|refs|] == refs;
  }
}
