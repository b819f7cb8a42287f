/** Slicing, halving and staging a checkpoint in place. */
module CheckpointBuild {
  // `build_checkpoint` and `checkpoint_documents` fail exactly when a size limit is exceeded, and
  // otherwise stage what `PayloadOf` says.

  import opened Wrappers
  import opened CanonicalJson
  import opened GzipMembers
  import opened CheckpointLayout
  import opened CheckpointPieces
  import opened CheckpointManifest
  import opened CheckpointStaging
  import opened Checkpoint
  import opened CheckpointRestore

  // ---- overflow only grows ----

  lemma PrefixData(ps: seq<Piece>, qs: seq<Piece>)
    ensures |Data(ps)| <= |Data(ps + qs)|
  {
    ChunksConcat(ps, qs);
  }

  lemma OverflowGrows(ps: seq<Piece>, qs: seq<Piece>)
    requires Overflows(ps)
    ensures Overflows(ps + qs)
  {
    PrefixData(ps, qs);
    hide Data;
    if |Data(ps)| <= MAX_ENCODED_BYTES {
      var i :| 0 <= i < |ps| && |ps[i].encoded| > PART_BYTES;
      assert (ps + qs)[i] == ps[i];
    }
  }

  lemma OverflowStep(ps: seq<Piece>, p: Piece)
    requires !Overflows(ps)
    ensures Data(ps + [p]) == Data(ps) + p.encoded
    ensures Overflows(ps + [p]) <==> |p.encoded| > PART_BYTES || |Data(ps)| + |p.encoded| > MAX_ENCODED_BYTES
  {
    ChunksConcat(ps, [p]);
    One(p);
    hide Data;
    assert (ps + [p])[|ps|] == p;
  }

  lemma CutStep(codec: Codec, f: Fragment, start: nat, index: nat)
    requires start < |f.text|
    ensures Cut(codec, f, start, index)
         == [PieceAt(codec, f, start, index)] + Cut(codec, f, start + SliceSize(codec, f, start, index), index + 1)
  {
    hide PieceAt, SliceSize, Encoded;
  }

  lemma LastInlines(codec: Codec, ps: seq<Piece>, p: Piece)
    ensures Refs(codec, ps + [p]) == Refs(codec, ps) + if IsMeta(p.id.path) then [] else [RefOf(codec, p)]
    ensures Parts(codec, ps + [p]) == Parts(codec, ps) + if IsMeta(p.id.path) then [] else [PartOf(codec, p)]
    ensures Inlines(codec, ps + [p])
         == Inlines(codec, ps) + if IsMeta(p.id.path) then [Inline(RefOf(codec, p), |Refs(codec, ps)|, p.encoded)]
             else []
  {
    assert (ps + [p])[..|ps + [p]| - 1] == ps;
  }

  /** The lists a build fills, with the pieces they describe. */
  class Staging {
    const codec: Codec
    var data: string
    var refs: seq<Ref>
    var parts: seq<Part>
    var inline: seq<Inline>
    var encodedBytes: nat
    ghost var pieces: seq<Piece>

    ghost predicate Valid()
      reads this
    {
      && data == Data(pieces) && encodedBytes == |data| && refs == Refs(codec, pieces)
      && parts == Parts(codec, pieces) && inline == Inlines(codec, pieces) && !Overflows(pieces)
    }

    constructor (codec: Codec)
      ensures Valid() && pieces == [] && this.codec == codec
    {
      this.codec := codec;
      data, refs, parts, inline, encodedBytes := "", [], [], [], 0;
      pieces := [];
    }

    /** One slice: halved until its member fits. */
    method Slice(f: Fragment, start: nat, index: nat) returns (piece: Piece)
      requires start < |f.text|
      ensures piece == PieceAt(codec, f, start, index)
      ensures |piece.chunk| == SliceSize(codec, f, start, index)
    {
      hide Encoded;
      var left := |f.text| - start;
      var size := if IsMeta(f.path) || left < RECORD_BYTES then left else RECORD_BYTES;
      var id := Identity(f.path, f.role, index);
      var encoded := Encoded(codec, f.text[start..start + size], id);
      while !IsMeta(f.path) && |encoded| > PART_BYTES && size > MIN_RECORD_BYTES
        invariant 0 < size && start + size <= |f.text|
        invariant encoded == Encoded(codec, f.text[start..start + size], id)
        invariant Shrunk(codec, f, start, index, size) == SliceSize(codec, f, start, index)
        decreases size
      {
        size := if size / 2 < MIN_RECORD_BYTES then MIN_RECORD_BYTES else size / 2;
        encoded := Encoded(codec, f.text[start..start + size], id);
      }
      piece := Piece(id, f.text[start..start + size], encoded);
    }

    /** Appends one member, unless it breaks a capacity limit. */
    method Add(piece: Piece) returns (ok: bool)
      requires Valid()
      modifies this
      ensures ok <==> !Overflows(old(pieces) + [piece])
      ensures ok ==> Valid() && pieces == old(pieces) + [piece]
    {
      hide Data, Refs, Parts, Inlines, Overflows, Encoded;
      OverflowStep(pieces, piece);
      LastInlines(codec, pieces, piece);
      encodedBytes := encodedBytes + |piece.encoded|;
      if |piece.encoded| > PART_BYTES || encodedBytes > MAX_ENCODED_BYTES {
        return false;
      }
      data := data + piece.encoded;
      if IsMeta(piece.id.path) {
        inline := inline + [Inline(RefOf(codec, piece), |parts|, piece.encoded)];
      } else {
        refs := refs + [RefOf(codec, piece)];
        parts := parts + [PartOf(codec, piece)];
      }
      PartsLikeRefs(codec, pieces);
      pieces := pieces + [piece];
      return true;
    }

    /** All slices of one record. */
    method AddRecord(f: Fragment) returns (ok: bool)
      requires Valid()
      modifies this
      ensures ok <==> !Overflows(old(pieces) + Cut(codec, f, 0, 0))
      ensures ok ==> Valid() && pieces == old(pieces) + Cut(codec, f, 0, 0)
    {
      hide Cut, PieceAt, SliceSize, Overflows, Valid;
      var start, index := 0, 0;
      ghost var before := pieces;
      while start < |f.text|
        invariant start <= |f.text| && Valid()
        invariant before + Cut(codec, f, 0, 0) == pieces + Cut(codec, f, start, index)
        decreases |f.text| - start
      {
        var piece := Slice(f, start, index);
        CutStep(codec, f, start, index);
        ghost var was, rest := pieces, Cut(codec, f, start + |piece.chunk|, index + 1);
        assert was + ([piece] + rest) == (was + [piece]) + rest;
        ok := Add(piece);
        if !ok {
          OverflowGrows(was + [piece], rest);
          return;
        }
        start, index := start + |piece.chunk|, index + 1;
      }
      CutDone(codec, f, index);
      assert pieces + [] == pieces;
      FitsNow();
      return true;
    }

    lemma FitsNow()
      requires Valid()
      ensures !Overflows(pieces)
    {}
  }

  lemma CutDone(codec: Codec, f: Fragment, index: nat)
    ensures Cut(codec, f, |f.text|, index) == []
  {}

  lemma PartsLikeRefs(codec: Codec, ps: seq<Piece>)
    ensures |Parts(codec, ps)| == |Refs(codec, ps)|
  {
    TotalsSplit(codec, ps);
  }

  lemma {:induction false} PiecesPrefix(codec: Codec, fs: seq<Fragment>, m: nat, n: nat) returns (rest: seq<Piece>)
    requires m <= n <= |fs|
    ensures PiecesOf(codec, fs, n) == PiecesOf(codec, fs, m) + rest
    decreases n
  {
    hide Cut;
    if m == n {
      rest := [];
    } else {
      rest := PiecesPrefix(codec, fs, m, n - 1);
      rest := rest + Cut(codec, fs[n - 1], 0, 0);
    }
  }

  // ---- staging the documents ----

  method CheckParts(codec: Codec, payload: Payload) returns (ok: bool)
    requires |payload.parts| == |payload.refs|
    ensures ok <==> forall i :: 0 <= i < |payload.parts| ==> PartData(codec, payload.parts[i], payload.refs[i]).Some?
  {
    hide PartData;
    for i := 0 to |payload.parts|
      invariant forall k :: 0 <= k < i ==> PartData(codec, payload.parts[k], payload.refs[k]).Some?
    {
      if PartData(codec, payload.parts[i], payload.refs[i]).None? {
        return false;
      }
    }
    return true;
  }

  ghost predicate Stageable(codec: Codec, payload: Payload) {
    && ValidManifest(codec, ManifestOf(codec, payload)) && |payload.parts| == |payload.refs|
    && forall i :: 0 <= i < |payload.parts| ==> PartData(codec, payload.parts[i], payload.refs[i]).Some?
  }

  /** `checkpoint_documents`: the manifest and its parts, all checked before anything is stored. */
  method Documents(codec: Codec, payload: Payload) returns (r: Option<(Manifest, seq<Part>)>)
    ensures r == if Stageable(codec, payload) then Some((ManifestOf(codec, payload), payload.parts)) else None
  {
    hide ValidManifest, PartData, ManifestOf;
    var manifest := ManifestOf(codec, payload);
    var valid := Validate(codec, manifest);
    if !valid || |payload.parts| != |payload.refs| {
      return None;
    }
    var checked := CheckParts(codec, payload);
    return if checked then Some((manifest, payload.parts)) else None;
  }

  lemma {:induction false} PartsMatch(codec: Codec, ps: seq<Piece>)
    requires Lawful(codec) && AllGenuine(codec, ps) && forall i :: 0 <= i < |ps| ==> |ps[i].encoded| <= PART_BYTES
    ensures |Parts(codec, ps)| == |Refs(codec, ps)|
    ensures forall i :: 0 <= i < |Parts(codec, ps)| ==> PartData(codec, Parts(codec, ps)[i], Refs(codec, ps)[i]).Some?
    decreases |ps|
  {
    hide Lawful, Genuine;
    if ps != [] {
      PartsMatch(codec, ps[..|ps| - 1]);
      GenuineSizes(codec, ps[|ps| - 1]);
      PartMatches(codec, ps[|ps| - 1]);
      hide PartData, AllGenuine, RefOf, PartOf;
    }
  }

  lemma PartMatches(codec: Codec, p: Piece)
    requires 1 <= |p.encoded| <= PART_BYTES
    ensures PartData(codec, PartOf(codec, p), RefOf(codec, p)).Some?
  {}

  lemma StagedParts(codec: Codec, durable: seq<Entry>)
    requires Trusted(codec, durable) && Canonical(Mapping(durable)) && Fits(codec, durable)
    ensures Stageable(codec, PayloadOf(codec, durable))
  {
    var ps := Pieces(codec, durable);
    assert forall i :: 0 <= i < |ps| ==> |ps[i].encoded| <= PART_BYTES;
    hide Lawful, Separates, Encodings, Canonical, Fits, Pieces, Print, ValidManifest, ManifestOf, Refs, Inlines, Parts,
         AllGenuine, PartData, Data;
    GenuinePieces(codec, durable);
    PartsMatch(codec, ps);
    StagedIsValid(codec, durable);
  }

  /** A manifest over its limit is refused. */
  lemma ManifestTooLarge(codec: Codec, payload: Payload)
    requires |ManifestText(ManifestOf(codec, payload), true)| > MAX_MANIFEST_BYTES
    ensures !Stageable(codec, payload)
  {
    hide ManifestText, ManifestOf, RefsOk, PartData;
  }

  // ---- the build ----

  /** The limits checked before any slicing. */
  predicate Admissible(durable: seq<Entry>) {
    |Print(Mapping(durable))| <= MAX_DECODED_BYTES && RuntimeOf(durable).Mapping?
  }

  method StageRecords(codec: Codec, fs: seq<Fragment>) returns (ok: bool, staging: Staging)
    ensures ok <==> RecordsFit(fs) && !Overflows(PiecesOf(codec, fs, |fs|))
    ensures fresh(staging) && staging.codec == codec
    ensures ok ==> staging.Valid() && staging.pieces == PiecesOf(codec, fs, |fs|)
  {
    hide Overflows, PathFits, Cut;
    staging := new Staging(codec);
    for i := 0 to |fs|
      invariant RecordsFit(fs[..i])
      invariant staging.Valid() && staging.codec == codec && fresh(staging)
      invariant staging.pieces == PiecesOf(codec, fs, i)
    {
      hide Staging.Valid;
      var f := fs[i];
      if !PathFits(f.path) || (IsMeta(f.path) && |f.text| > INLINE_BYTES) {
        return false, staging;
      }
      ok := staging.AddRecord(f);
      ghost var rest := PiecesPrefix(codec, fs, i + 1, |fs|);
      if !ok {
        OverflowGrows(PiecesOf(codec, fs, i + 1), rest);
        return;
      }
    }
    staging.FitsNow();
    assert fs[..|fs|] == fs;
    return true, staging;
  }

  /** A build succeeds exactly within the limits, and stages the pieces of the durable state. */
  method Build(codec: Codec, state: seq<Entry>) returns (r: Option<Payload>)
    requires Trusted(codec, Durable(state)) && Canonical(Mapping(state))
    ensures r.Some? <==> Fits(codec, Durable(state))
    ensures r.Some? ==> r.value == PayloadOf(codec, Durable(state))
  {
    hide *;
    var durable := Durable(state);
    DurableIsCanonical(state);
    var raw := Print(Mapping(durable));
    ParsePrint(Mapping(durable));
    if !Admissible(durable) {
      FitsParts(codec, durable);
      return None;
    }
    var fs := MakeFragments(durable);
    var ok, staging := StageRecords(codec, fs);
    FitsParts(codec, durable);
    if !ok {
      return None;
    }
    StagedState(codec, durable, staging);
    var payload := Payload(codec.digest(raw), |raw|, staging.data, RuntimeOf(durable), staging.parts, staging.refs,
                           staging.inline);
    IsPayload(codec, durable, payload);
    if |payload.parts| > MAX_PARTS {
      return None;
    }
    var documents := Documents(codec, payload);
    if documents.None? {
      if Fits(codec, durable) {
        StagedParts(codec, durable);
      }
      return None;
    }
    if |ManifestText(ManifestOf(codec, payload), true)| > MAX_MANIFEST_BYTES {
      ManifestTooLarge(codec, payload);
    }
    return Some(payload);
  }

  lemma FitsParts(codec: Codec, durable: seq<Entry>)
    ensures Fits(codec, durable) ==
              (Admissible(durable) && RecordsFit(FragmentsOf(durable))
               && !Overflows(PiecesOf(codec, FragmentsOf(durable), |FragmentsOf(durable)|))
               && |PayloadOf(codec, durable).parts| <= MAX_PARTS
               && |ManifestText(ManifestOf(codec, PayloadOf(codec, durable)), true)| <= MAX_MANIFEST_BYTES)
  {
    hide FragmentsOf, Print, ManifestText, ManifestOf, PayloadOf, Overflows, RecordsFit, PiecesOf;
  }

  lemma StagedState(codec: Codec, durable: seq<Entry>, staging: Staging)
    requires staging.codec == codec && staging.Valid()
    requires staging.pieces == PiecesOf(codec, FragmentsOf(durable), |FragmentsOf(durable)|)
    ensures var ps := Pieces(codec, durable);
            staging.data == Data(ps) && staging.parts == Parts(codec, ps) && staging.refs == Refs(codec, ps)
            && staging.inline == Inlines(codec, ps)
  {
    hide FragmentsOf, PiecesOf, Data, Refs, Parts, Inlines, Overflows;
  }

  lemma IsPayload(codec: Codec, durable: seq<Entry>, payload: Payload)
    requires var ps, raw := Pieces(codec, durable), Print(Mapping(durable));
             payload == Payload(codec.digest(raw), |raw|, Data(ps), RuntimeOf(durable), Parts(codec, ps),
                                Refs(codec, ps), Inlines(codec, ps))
    ensures payload == PayloadOf(codec, durable)
  {
    hide Pieces, Print, Data, Refs, Parts, Inlines;
  }

  // ---- the whole journey ----

  /** Build, store, hydrate from the store and decode: the durable state comes back. */
  method SaveAndLoad(codec: Codec, state: seq<Entry>) returns (saved: bool, restored: seq<Entry>)
    requires Trusted(codec, Durable(state)) && Canonical(Mapping(state))
    ensures saved <==> Fits(codec, Durable(state))
    ensures saved ==> restored == Durable(state)
  {
    hide *;
    restored := [];
    var built := Build(codec, state);
    if built.None? {
      return false, restored;
    }
    var payload, durable := built.value, Durable(state);
    DurableIsCanonical(state);
    StagedParts(codec, durable);
    var documents := Documents(codec, payload);
    var store := StoreParts(payload.parts);
    StoreServes(codec, durable);
    HydrationSucceeds(codec, durable, id => Find(payload.parts, id));
    var data := Hydrate(codec, documents.value.0, store);
    DecodingRestores(codec, durable);
    var decoded := Decoded(codec, data.value, payload.decodedBytes, payload.sha);
    return true, decoded.value;
  }

  /** The part stored under an id: parts are immutable, so any of that id will do. */
  function Find(parts: seq<Part>, id: string): Option<Part> {
    if parts == [] then None
    else if parts[0].digest == id then Some(parts[0])
    else Find(parts[1..], id)
  }

  method StoreParts(parts: seq<Part>) returns (store: Store)
    ensures store == (id => Find(parts, id))
  {
    store := id => Find(parts, id);
  }

  lemma StoreServes(codec: Codec, durable: seq<Entry>)
    requires Trusted(codec, durable) && Canonical(Mapping(durable)) && Fits(codec, durable)
    ensures Serves(codec, id => Find(PayloadOf(codec, durable).parts, id), Pieces(codec, durable))
  {
    var ps, parts := Pieces(codec, durable), PayloadOf(codec, durable).parts;
    hide Lawful, Separates, Encodings, Canonical, Fits, Pieces, Print, Refs, Inlines, Parts, Data;
    forall i | 0 <= i < |ps| && !IsMeta(ps[i].id.path)
        ensures Find(parts, codec.digest(ps[i].encoded)) == Some(PartOf(codec, ps[i])) {
      PartListed(codec, ps, i);
      AllAreParts(codec, ps);
      assert ps[i].encoded in Encodings(ps);
      FindPart(codec, Encodings(ps), parts, codec.digest(ps[i].encoded), ps[i].encoded);
    }
  }

  lemma {:induction false} PartListed(codec: Codec, ps: seq<Piece>, i: nat)
    requires i < |ps| && !IsMeta(ps[i].id.path)
    ensures PartOf(codec, ps[i]) in Parts(codec, ps)
    decreases |ps|
  {
    if i < |ps| - 1 {
      PartListed(codec, ps[..|ps| - 1], i);
    }
  }

  ghost predicate IsPart(codec: Codec, part: Part) {
    part == Part(codec.digest(part.data), |part.data|, part.data)
  }

  lemma {:induction false} AllAreParts(codec: Codec, ps: seq<Piece>)
    ensures forall part :: part in Parts(codec, ps) ==> IsPart(codec, part) && part.data in Encodings(ps)
    decreases |ps|
  {
    if ps != [] {
      AllAreParts(codec, ps[..|ps| - 1]);
    }
  }

  lemma {:induction false} FindPart(codec: Codec, texts: set<string>, parts: seq<Part>, id: string, data: string)
    requires Separates(codec, texts) && data in texts
    requires forall part :: part in parts ==> IsPart(codec, part) && part.data in texts
    requires id == codec.digest(data) && Part(id, |data|, data) in parts
    ensures Find(parts, id) == Some(Part(id, |data|, data))
    decreases |parts|
  {
    if parts[0].digest == id {
      assert IsPart(codec, parts[0]);
    } else {
      hide Separates;
      FindPart(codec, texts, parts[1..], id, data);
    }
  }
}
