/** The manifest of a staged checkpoint and its validator. */
module CheckpointManifest {
  // The validator (`_validate_aligned_manifest`) wants member references that are distinct, sized and
  // listed as unbroken numbered runs.

  import opened Wrappers
  import opened CanonicalJson
  import opened GzipMembers
  import opened CheckpointPieces

  datatype Manifest = Manifest(
    sha: string,
    decodedBytes: nat,
    runtime: Json,
    encodedBytes: nat,
    refs: seq<Ref>,
    inline: seq<Inline>,
    manifestSha: string)

  // ---- the manifest as JSON ----

  function RefEntries(r: Ref): seq<Entry> {
    [Entry("bytes", Number(Decimal(r.bytes))), Entry("decoded_bytes", Number(Decimal(r.decoded))),
     Entry("id", Text(r.id)), Entry("index", Number(Decimal(r.name.index))), Entry("path", PathJson(r.name.path)),
     Entry("raw_sha256", Text(r.rawDigest)), Entry("role", Text(RoleName(r.name.role)))]
  }

  function InlineEntries(x: Inline): seq<Entry> {
    var own := RefEntries(x.ref);
    [Entry("before", Number(Decimal(x.before))), own[0], Entry("data", Text(x.data))] + own[1..]
  }

  function ManifestEntries(m: Manifest, signed: bool): seq<Entry> {
    [Entry("decoded_bytes", Number(Decimal(m.decodedBytes))), Entry("encoded_bytes", Number(Decimal(m.encodedBytes))),
     Entry("encoding", Text("gzip+base64+parts")),
     Entry("inline_members",
           Array(seq(|m.inline|, i requires 0 <= i < |m.inline| => Mapping(InlineEntries(m.inline[i])))))]
    + (if signed then [Entry("manifest_sha256", Text(m.manifestSha))] else [])
    + [Entry("part_layout", Text("aligned-gzip-members-v1")),
       Entry("parts", Array(seq(|m.refs|, i requires 0 <= i < |m.refs| => Mapping(RefEntries(m.refs[i]))))),
       Entry("runtime", m.runtime), Entry("schema_version", Number("2")), Entry("sha256", Text(m.sha))]
  }

  function ManifestText(m: Manifest, signed: bool): string {
    Print(Mapping(ManifestEntries(m, signed)))
  }

  // ---- what the validator asks for ----

  function TotalBytes(refs: seq<Ref>): nat {
    if refs == [] then 0 else TotalBytes(refs[..|refs| - 1]) + refs[|refs| - 1].bytes
  }

  function TotalDecoded(refs: seq<Ref>): nat {
    if refs == [] then 0 else TotalDecoded(refs[..|refs| - 1]) + refs[|refs| - 1].decoded
  }

  function InlineRefs(inline: seq<Inline>): seq<Ref> {
    seq(|inline|, i requires 0 <= i < |inline| => inline[i].ref)
  }

  predicate SameRun(a: Identity, b: Identity) {
    a.path == b.path && a.role == b.role
  }

  /** A reference continues the run before it, or starts a run that has not been seen. */
  ghost predicate InOrderAt(refs: seq<Ref>, i: nat)
    requires i < |refs|
  {
    if i > 0 && SameRun(refs[i - 1].name, refs[i].name) then refs[i].name.index == refs[i - 1].name.index + 1
    else refs[i].name.index == 0 && forall j :: 0 <= j < i ==> !SameRun(refs[j].name, refs[i].name)
  }

  ghost predicate InOrder(refs: seq<Ref>) {
    forall i :: 0 <= i < |refs| ==> InOrderAt(refs, i)
  }

  predicate RefOk(r: Ref, limit: nat) {
    && |r.name.path| <= 2 && PathFits(r.name.path) && r.name.index <= MAX_PARTS
    && IsDigest(r.id) && IsDigest(r.rawDigest)
    && 1 <= r.bytes <= PART_BYTES && r.bytes % 4 == 0 && 1 <= r.decoded <= limit
  }

  predicate HeaderOk(codec: Codec, m: Manifest) {
    && IsDigest(m.sha) && IsDigest(m.manifestSha)
    && 1 <= m.decodedBytes <= MAX_DECODED_BYTES && 1 <= m.encodedBytes <= MAX_ENCODED_BYTES && m.runtime.Mapping?
    && |ManifestText(m, true)| <= MAX_MANIFEST_BYTES && codec.digest(ManifestText(m, false)) == m.manifestSha
    && 1 <= |m.refs| <= MAX_PARTS && |m.inline| <= 1
  }

  predicate PartRefOk(r: Ref) {
    RefOk(r, RECORD_BYTES) && !IsMeta(r.name.path)
  }

  ghost predicate UniqueIds(refs: seq<Ref>) {
    forall i, j :: 0 <= i < j < |refs| ==> refs[i].id != refs[j].id
  }

  ghost predicate RefsOk(refs: seq<Ref>) {
    (forall i :: 0 <= i < |refs| ==> PartRefOk(refs[i])) && UniqueIds(refs) && InOrder(refs)
  }

  ghost predicate InlineOk(refs: seq<Ref>, x: Inline) {
    && RefOk(x.ref, INLINE_BYTES) && x.ref.name == Identity(["_runtime"], Whole, 0) && x.before <= |refs|
    && forall i :: 0 <= i < |refs| ==> refs[i].id != x.ref.id
  }

  ghost predicate TotalsOk(m: Manifest) {
    && TotalBytes(m.refs) == m.encodedBytes
    && TotalDecoded(m.refs) + TotalDecoded(InlineRefs(m.inline)) == m.decodedBytes
    && TotalBytes(m.refs) + TotalBytes(InlineRefs(m.inline)) <= MAX_ENCODED_BYTES
  }

  ghost predicate ValidManifest(codec: Codec, m: Manifest) {
    && HeaderOk(codec, m) && RefsOk(m.refs) && (forall i :: 0 <= i < |m.inline| ==> InlineOk(m.refs, m.inline[i]))
    && TotalsOk(m)
  }

  // ---- the validator ----

  /** What the scan knows after `k` references. */
  ghost predicate Scanned(refs: seq<Ref>, k: nat, seen: set<string>, identities: set<(seq<string>, Role)>,
                          previous: Option<(seq<string>, Role)>, nextIndex: nat)
    requires k <= |refs|
  {
    && RefsOk(refs[..k])
    && (forall s :: s in seen <==> exists i :: 0 <= i < k && refs[i].id == s)
    && (forall n :: n in identities <==> exists i :: 0 <= i < k && (refs[i].name.path, refs[i].name.role) == n)
    && (if k == 0 then previous == None
        else
            previous == Some((refs[k - 1].name.path, refs[k - 1].name.role))
            && nextIndex == refs[k - 1].name.index + 1)
  }

  lemma ScanStart(refs: seq<Ref>)
    ensures Scanned(refs, 0, {}, {}, None, 0)
  {}

  /** One more reference is acceptable exactly when the scan's checks pass. */
  lemma ScanStep(refs: seq<Ref>, k: nat, seen: set<string>, identities: set<(seq<string>, Role)>,
                 previous: Option<(seq<string>, Role)>, nextIndex: nat)
    requires k < |refs| && Scanned(refs, k, seen, identities, previous, nextIndex)
    ensures var r := refs[k];
            var name := (r.name.path, r.name.role);
            RefsOk(refs[..k + 1]) ==
              (PartRefOk(r) && r.id !in seen && (Some(name) != previous ==> name !in identities)
               && r.name.index == if Some(name) != previous then 0 else nextIndex)
  {
    hide PartRefOk;
    RefsOkStep(refs, k);
    AtPrefix(refs, k);
  }

  lemma AtPrefix(refs: seq<Ref>, k: nat)
    requires k < |refs|
    ensures InOrderAt(refs[..k + 1], k) <==> InOrderAt(refs, k)
  {
    assert forall j :: 0 <= j <= k ==> refs[..k + 1][j] == refs[j];
  }

  lemma RefsOkStep(refs: seq<Ref>, k: nat)
    requires k < |refs|
    ensures RefsOk(refs[..k + 1]) ==
              (RefsOk(refs[..k]) && PartRefOk(refs[k]) && (forall i :: 0 <= i < k ==> refs[i].id != refs[k].id)
                    && InOrderAt(refs[..k + 1], k))
  {
    hide PartRefOk;
    var a, b := refs[..k], refs[..k + 1];
    assert b == a + [refs[k]];
    assert forall i :: 0 <= i < k ==> a[i] == b[i] == refs[i];
    forall i | 0 <= i < k ensures InOrderAt(a, i) <==> InOrderAt(b, i) {
      SamePrefix(a, b, i);
    }
    hide InOrderAt;
    assert b[k] == refs[k];
  }

  lemma SamePrefix(a: seq<Ref>, b: seq<Ref>, i: nat)
    requires i < |a| <= |b| && a == b[..|a|]
    ensures InOrderAt(a, i) <==> InOrderAt(b, i)
  {
    assert forall j :: 0 <= j <= i ==> a[j] == b[j];
  }

  lemma ScanGrows(refs: seq<Ref>, k: nat, seen: set<string>, identities: set<(seq<string>, Role)>,
                  previous: Option<(seq<string>, Role)>, nextIndex: nat)
    requires k < |refs| && Scanned(refs, k, seen, identities, previous, nextIndex) && RefsOk(refs[..k + 1])
    ensures var name := (refs[k].name.path, refs[k].name.role);
            Scanned(refs, k + 1, seen + {refs[k].id}, identities + {name}, Some(name), refs[k].name.index + 1)
  {
    hide RefsOk;
  }

  lemma RefsOkPrefix(refs: seq<Ref>, k: nat)
    requires k <= |refs| && RefsOk(refs)
    ensures RefsOk(refs[..k])
    decreases |refs| - k
  {
    if k < |refs| {
      RefsOkPrefix(refs, k + 1);
      RefsOkStep(refs, k);
    } else {
      assert refs[..k] == refs;
    }
  }

  method ScanRefs(refs: seq<Ref>) returns (ok: bool, seen: set<string>)
    ensures ok <==> RefsOk(refs)
    ensures ok ==> forall s :: s in seen <==> exists i :: 0 <= i < |refs| && refs[i].id == s
  {
    hide RefsOk, PartRefOk;
    var identities: set<(seq<string>, Role)>, previous: Option<(seq<string>, Role)>, nextIndex := {}, None, 0;
    seen := {};
    ScanStart(refs);
    for k := 0 to |refs|
      invariant Scanned(refs, k, seen, identities, previous, nextIndex)
    {
      var ref := refs[k];
      var name := (ref.name.path, ref.name.role);
      ScanStep(refs, k, seen, identities, previous, nextIndex);
      ghost var were := (seen, identities, previous, nextIndex);
      var fine := PartRefOk(ref) && ref.id !in seen;
      if fine {
        seen := seen + {ref.id};
        if Some(name) != previous {
          fine := name !in identities;
          identities, previous, nextIndex := identities + {name}, Some(name), 0;
        }
        fine := fine && ref.name.index == nextIndex;
        nextIndex := nextIndex + 1;
      }
      if !fine {
        NotOk(refs, k);
        return false, seen;
      }
      ScanGrows(refs, k, were.0, were.1, were.2, were.3);
      KnownName(refs, k, were.0, were.1, were.2, were.3);
    }
    assert refs[..|refs|] == refs;
    return true, seen;
  }

  lemma NotOk(refs: seq<Ref>, k: nat)
    requires k < |refs| && !RefsOk(refs[..k + 1])
    ensures !RefsOk(refs)
  {
    if RefsOk(refs) {
      RefsOkPrefix(refs, k + 1);
    }
  }

  lemma KnownName(refs: seq<Ref>, k: nat, seen: set<string>, identities: set<(seq<string>, Role)>,
                  previous: Option<(seq<string>, Role)>, nextIndex: nat)
    requires k < |refs| && Scanned(refs, k, seen, identities, previous, nextIndex)
    ensures previous.Some? ==> identities + {previous.value} == identities
  {
    hide RefsOk;
  }

  method Validate(codec: Codec, m: Manifest) returns (ok: bool)
    ensures ok <==> ValidManifest(codec, m)
  {
    hide RefsOk, HeaderOk, RefOk, TotalBytes, TotalDecoded;
    if !HeaderOk(codec, m) {
      return false;
    }
    var listed, seen := ScanRefs(m.refs);
    if !listed {
      return false;
    }
    for i := 0 to |m.inline|
      invariant forall k :: 0 <= k < i ==> InlineOk(m.refs, m.inline[k])
    {
      var x := m.inline[i];
      var fine := RefOk(x.ref, INLINE_BYTES) && x.ref.id !in seen && IsMeta(x.ref.name.path) && x.ref.name.role == Whole
        && x.ref.name.index == 0 && x.before <= |m.refs|;
      if !fine {
        assert !InlineOk(m.refs, x);
        return false;
      }
    }
    var total, decoded := Totals(m.refs);
    var extra, extraDecoded := Totals(InlineRefs(m.inline));
    return total == m.encodedBytes && decoded + extraDecoded == m.decodedBytes && total + extra <= MAX_ENCODED_BYTES;
  }

  method Totals(refs: seq<Ref>) returns (bytes: nat, decoded: nat)
    ensures bytes == TotalBytes(refs) && decoded == TotalDecoded(refs)
  {
    bytes, decoded := 0, 0;
    for i := 0 to |refs|
      invariant bytes == TotalBytes(refs[..i]) && decoded == TotalDecoded(refs[..i])
    {
      bytes, decoded := bytes + refs[i].bytes, decoded + refs[i].decoded;
      assert refs[..i + 1][..i] == refs[..i];
    }
    assert refs[..|refs|] == refs;
  }
}
