/** The round trip: a built, stored, hydrated and decoded checkpoint is the durable state again. */
module Checkpoint {
  // Any other answer from the part store is refused.

  import opened Wrappers
  import opened CanonicalJson
  import opened GzipMembers
  import opened CheckpointLayout
  import opened CheckpointPieces
  import opened CheckpointManifest
  import opened CheckpointStaging

  // ---- the durable part of a state ----

  predicate Rebuildable(key: string) {
    key in {"wallet_cache", "social_cache", "gmgn_cache", "enrichment_cache"}
  }

  function Durable(state: seq<Entry>): seq<Entry> {
    if state == [] then []
    else Durable(state[..|state| - 1]) + if Rebuildable(state[|state| - 1].key) then [] else [state[|state| - 1]]
  }

  lemma {:induction false} DurableIsCanonical(state: seq<Entry>)
    requires Canonical(Mapping(state))
    ensures Canonical(Mapping(Durable(state)))
    ensures forall e :: e in Durable(state) <==> e in state && !Rebuildable(e.key)
    decreases |state|
  {
    hide Before, Rebuildable;
    if state != [] {
      var rest, last := state[..|state| - 1], state[|state| - 1];
      DurableIsCanonical(rest);
      var kept := Durable(rest);
      forall i | 0 <= i < |kept| ensures Before(kept[i].key, last.key) {
        assert kept[i] in rest;
        var k :| 0 <= k < |rest| && rest[k] == kept[i];
        assert state[k] == kept[i];
      }
    }
  }

  function Lookup(entries: seq<Entry>, key: string): Option<Json> {
    if entries == [] then None
    else if entries[0].key == key then Some(entries[0].value)
    else Lookup(entries[1..], key)
  }

  function RuntimeOf(durable: seq<Entry>): Json {
    match Lookup(durable, "_runtime")
    case Some(v) => v
    case None => Mapping([])
  }

  // ---- what a build stages ----

  datatype Payload = Payload(
    sha: string,
    decodedBytes: nat,
    data: string,
    runtime: Json,
    parts: seq<Part>,
    refs: seq<Ref>,
    inline: seq<Inline>)

  function Pieces(codec: Codec, durable: seq<Entry>): seq<Piece> {
    PiecesOf(codec, FragmentsOf(durable), |FragmentsOf(durable)|)
  }

  function PayloadOf(codec: Codec, durable: seq<Entry>): Payload {
    var ps, raw := Pieces(codec, durable), Print(Mapping(durable));
    Payload(codec.digest(raw), |raw|, Data(ps), RuntimeOf(durable), Parts(codec, ps), Refs(codec, ps),
            Inlines(codec, ps))
  }

  function ManifestOf(codec: Codec, payload: Payload): Manifest {
    var m := Manifest(payload.sha, payload.decodedBytes, payload.runtime, TotalBytes(payload.refs), payload.refs,
                      payload.inline, "");
    m.(manifestSha := codec.digest(ManifestText(m, false)))
  }

  /** The laws assumed of compression and hashing, the latter only for the members of this state. */
  ghost predicate Trusted(codec: Codec, durable: seq<Entry>) {
    Lawful(codec) && Separates(codec, Encodings(Pieces(codec, durable)))
  }

  predicate RecordsFit(fs: seq<Fragment>) {
    forall i :: 0 <= i < |fs| ==> PathFits(fs[i].path) && (IsMeta(fs[i].path) ==> |fs[i].text| <= INLINE_BYTES)
  }

  /** A member too large for a part, or too much encoded text. */
  predicate Overflows(ps: seq<Piece>) {
    |Data(ps)| > MAX_ENCODED_BYTES || exists i :: 0 <= i < |ps| && |ps[i].encoded| > PART_BYTES
  }

  /** Every limit a state must respect to be stored; nothing else can refuse it. */
  predicate Fits(codec: Codec, durable: seq<Entry>) {
    && |Print(Mapping(durable))| <= MAX_DECODED_BYTES && RuntimeOf(durable).Mapping?
    && RecordsFit(FragmentsOf(durable)) && !Overflows(Pieces(codec, durable))
    && |PayloadOf(codec, durable).parts| <= MAX_PARTS
    && |ManifestText(ManifestOf(codec, PayloadOf(codec, durable)), true)| <= MAX_MANIFEST_BYTES
  }

  // ---- the staged manifest is valid ----

  lemma {:induction false} JoinedBounds(fs: seq<Fragment>, i: nat)
    requires i < |fs|
    ensures |fs[i].text| <= |Joined(fs)|
    decreases |fs|
  {
    if i > 0 {
      JoinedBounds(fs[1..], i - 1);
    }
  }

  lemma LayoutFacts(durable: seq<Entry>)
    requires Canonical(Mapping(durable)) && |Print(Mapping(durable))| <= MAX_DECODED_BYTES
    requires RecordsFit(FragmentsOf(durable))
    ensures var fs := FragmentsOf(durable);
            && Limits(fs) && Distinct(fs) && (forall i :: 0 <= i < |fs| ==> Shaped(fs[i]))
            && (forall i :: 0 <= i < |fs| ==> fs[i].text != "")
            && forall i, j :: 0 <= i < j < |fs| ==> !(IsMeta(fs[i].path) && IsMeta(fs[j].path))
  {
    var fs := FragmentsOf(durable);
    FragmentsJoin(durable);
    FragmentsAreDistinct(durable);
    FragmentsAreShaped(durable);
    hide FragmentsOf, Print, Canonical, Distinct, Shaped, PathFits;
    forall i | 0 <= i < |fs| ensures PathFits(fs[i].path) && |fs[i].text| <= MAX_DECODED_BYTES {
      JoinedBounds(fs, i);
    }
  }

  lemma RefsBounded(codec: Codec, ps: seq<Piece>)
    requires !Overflows(ps)
    ensures forall i :: 0 <= i < |Refs(codec, ps)| ==> Refs(codec, ps)[i].bytes <= PART_BYTES
    ensures forall i :: 0 <= i < |Inlines(codec, ps)| ==> Inlines(codec, ps)[i].ref.bytes <= PART_BYTES
  {
    hide Data;
    RefsFitParts(codec, ps);
  }

  lemma {:induction false} RefsFitParts(codec: Codec, ps: seq<Piece>)
    requires forall i :: 0 <= i < |ps| ==> |ps[i].encoded| <= PART_BYTES
    ensures forall i :: 0 <= i < |Refs(codec, ps)| ==> Refs(codec, ps)[i].bytes <= PART_BYTES
    ensures forall i :: 0 <= i < |Inlines(codec, ps)| ==> Inlines(codec, ps)[i].ref.bytes <= PART_BYTES
    decreases |ps|
  {
    if ps != [] {
      RefsFitParts(codec, ps[..|ps| - 1]);
    }
  }

  lemma InlineFits(codec: Codec, fs: seq<Fragment>, texts: set<string>, refs: seq<Ref>, x: Inline)
    requires RecordsFit(fs) && InlineFrom(codec, fs, |fs|, texts, refs, x)
    ensures x.ref.decoded <= INLINE_BYTES
  {
    hide PathFits, Proper;
  }

  lemma FirstRef(codec: Codec, durable: seq<Entry>)
    requires Canonical(Mapping(durable)) && |Print(Mapping(durable))| <= MAX_DECODED_BYTES
    requires RecordsFit(FragmentsOf(durable))
    ensures |Refs(codec, Pieces(codec, durable))| >= 1
  {
    var fs := FragmentsOf(durable);
    assert fs[0] == Fragment([], Open, "{");
    LayoutFacts(durable);
    CutIsProper(codec, fs[0], 0, 0);
    hide FragmentsOf, Canonical, Limits, Distinct, Shaped, RecordsFit;
    var ps := Cut(codec, fs[0], 0, 0);
    assert |ps| >= 1;
    assert forall i :: 0 <= i < |ps| ==> Proper(codec, fs[0], 0 + i, ps[i]);
    hide Cut, Genuine;
    RefsOfRecord(codec, ps);
    assert PiecesOf(codec, fs, 1) == PiecesOf(codec, fs, 0) + ps == ps;
    MoreRefs(codec, fs, 1, |fs|);
  }

  lemma {:induction false} MoreRefs(codec: Codec, fs: seq<Fragment>, m: nat, n: nat)
    requires m <= n <= |fs|
    ensures |Refs(codec, PiecesOf(codec, fs, m))| <= |Refs(codec, PiecesOf(codec, fs, n))|
    decreases n
  {
    hide Refs, Cut;
    if m < n {
      MoreRefs(codec, fs, m, n - 1);
      RefsConcat(codec, PiecesOf(codec, fs, n - 1), Cut(codec, fs[n - 1], 0, 0));
    }
  }

  lemma TotalAtLeast(refs: seq<Ref>)
    requires |refs| >= 1 && RefsOk(refs)
    ensures TotalBytes(refs) >= 1
  {
    hide InOrder, UniqueIds;
    assert PartRefOk(refs[|refs| - 1]);
  }

  lemma SignedAlike(m: Manifest, sha: string)
    ensures ManifestText(m.(manifestSha := sha), false) == ManifestText(m, false)
  {
    hide Print;
    assert ManifestEntries(m.(manifestSha := sha), false) == ManifestEntries(m, false);
  }

  lemma HeaderHolds(codec: Codec, payload: Payload)
    requires Lawful(codec) && IsDigest(payload.sha) && 1 <= payload.decodedBytes <= MAX_DECODED_BYTES
    requires 1 <= TotalBytes(payload.refs) <= MAX_ENCODED_BYTES && payload.runtime.Mapping?
    requires 1 <= |payload.refs| <= MAX_PARTS && |payload.inline| <= 1
    requires |ManifestText(ManifestOf(codec, payload), true)| <= MAX_MANIFEST_BYTES
    ensures HeaderOk(codec, ManifestOf(codec, payload))
  {
    hide Lawful, ManifestText, TotalBytes, IsDigest;
    var m := ManifestOf(codec, payload);
    SignedAlike(m, "");
    assert m.(manifestSha := "").(manifestSha := m.manifestSha) == m;
    DigestIsHex(codec, ManifestText(m, false));
  }

  /** The parts of validity that need the layout, for the pieces of a state. */
  lemma RefsValid(codec: Codec, durable: seq<Entry>)
    requires Trusted(codec, durable) && Canonical(Mapping(durable)) && Fits(codec, durable)
    ensures RefsOk(Refs(codec, Pieces(codec, durable)))
  {
    var fs, ps := FragmentsOf(durable), Pieces(codec, durable);
    LayoutFacts(durable);
    RefsBounded(codec, ps);
    TotalsSplit(codec, ps);
    hide Lawful, Separates, Encodings, Canonical, Print, ManifestText, FragmentsOf, PiecesOf, Refs, Inlines, RefsOk,
         Limits, Distinct, Shaped;
    StagedRefsOk(codec, fs);
  }

  lemma InlinesValid(codec: Codec, durable: seq<Entry>)
    requires Trusted(codec, durable) && Canonical(Mapping(durable)) && Fits(codec, durable)
    ensures var refs, inline := Refs(codec, Pieces(codec, durable)), Inlines(codec, Pieces(codec, durable));
            |inline| <= 1 && forall i :: 0 <= i < |inline| ==> InlineOk(refs, inline[i])
  {
    var fs, ps := FragmentsOf(durable), Pieces(codec, durable);
    var refs, inline := Refs(codec, ps), Inlines(codec, ps);
    LayoutFacts(durable);
    RefsBounded(codec, ps);
    hide Lawful, Separates, Encodings, Canonical, Print, ManifestText, FragmentsOf, PiecesOf, Refs, Inlines, Limits,
         Distinct, Shaped, RecordsFit;
    hide AllFrom, InOrder, NamesUnique, InlineFrom, HasMeta, InlineOk;
    var texts := Encodings(ps);
    StagedRefs(codec, fs, |fs|, texts);
    StagedInlines(codec, fs, |fs|, texts);
    forall i | 0 <= i < |inline| ensures InlineOk(refs, inline[i]) {
      InlineFits(codec, fs, texts, refs, inline[i]);
      StagedInlineOk(codec, fs, texts, refs, inline[i]);
    }
  }

  lemma TextIsKept(codec: Codec, durable: seq<Entry>)
    ensures Chunks(Pieces(codec, durable)) == Print(Mapping(durable))
  {
    var fs := FragmentsOf(durable);
    FragmentsJoin(durable);
    hide FragmentsOf, Print;
    PiecesJoin(codec, fs, |fs|);
    assert fs[..|fs|] == fs;
  }

  lemma HeaderValid(codec: Codec, durable: seq<Entry>)
    requires Trusted(codec, durable) && Canonical(Mapping(durable)) && Fits(codec, durable)
    requires var ps := Pieces(codec, durable);
             RefsOk(Refs(codec, ps)) && |Inlines(codec, ps)| <= 1
    ensures HeaderOk(codec, ManifestOf(codec, PayloadOf(codec, durable)))
  {
    var ps, payload := Pieces(codec, durable), PayloadOf(codec, durable);
    TotalsSplit(codec, ps);
    FirstRef(codec, durable);
    assert |Print(Mapping(durable))| >= 2;
    DigestIsHex(codec, Print(Mapping(durable)));
    hide Lawful, Separates, Encodings, Canonical, Print, ManifestText, FragmentsOf, Pieces, Refs, Parts, Inlines, Data,
         Chunks, RefsOk;
    hide TotalBytes, TotalDecoded, IsDigest, RecordsFit, InlineRefs, ManifestOf, HeaderOk;
    TotalAtLeast(payload.refs);
    HeaderHolds(codec, payload);
  }

  /** Within the limits, the manifest a build stages always passes its own validator. */
  lemma StagedIsValid(codec: Codec, durable: seq<Entry>)
    requires Trusted(codec, durable) && Canonical(Mapping(durable)) && Fits(codec, durable)
    ensures ValidManifest(codec, ManifestOf(codec, PayloadOf(codec, durable)))
  {
    hide Lawful, Separates, Encodings, Canonical, Print, ManifestText, FragmentsOf, Pieces, Refs, Parts, Inlines, Data,
         Chunks, RefsOk, InlineOk;
    hide TotalBytes, TotalDecoded, IsDigest, RecordsFit, InlineRefs, HeaderOk;
    var ps := Pieces(codec, durable);
    RefsValid(codec, durable);
    InlinesValid(codec, durable);
    TextIsKept(codec, durable);
    TotalsSplit(codec, ps);
    HeaderValid(codec, durable);
  }
}
