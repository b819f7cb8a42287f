/** Hydrating a manifest from any part store: it gives back exactly the durable state, or nothing. */
module CheckpointRestore {
  import opened Wrappers
  import opened CanonicalJson
  import opened Base64
  import opened GzipMembers
  import opened CheckpointLayout
  import opened CheckpointPieces
  import opened CheckpointManifest
  import opened CheckpointStaging
  import opened Checkpoint

  /** A store of parts by id; it may answer anything. */
  type Store = string -> Option<Part>

  // ---- reading one member ----

  /** `_part_data`: a part that matches its reference. */
  function PartData(codec: Codec, part: Part, ref: Ref): Option<string> {
    if 0 < |part.data| <= PART_BYTES && |part.data| == ref.bytes && part.bytes == |part.data|
       && codec.digest(part.data) == ref.id && part.digest == ref.id
    then Some(part.data) else None
  }

  /** The bytes carry the name of the reference in their extra field. */
  predicate NamesRef(bytes: Bytes, name: Identity) {
    |bytes| >= 20 && |bytes| % 3 == 0 && bytes[..4] == [0x1F, 0x8B, 8, 4]
    && var size, text := Short(bytes[10], bytes[11]), Ascii(IdentityText(name));
       |text| <= size <= |text| + 2 && 12 + size <= |bytes| && bytes[12..12 + size] == text + Zeros(size - |text|)
  }

  /** `_read_member`: every integrity check, then the decompressed slice. */
  function ReadPart(codec: Codec, encoded: string, ref: Ref): Option<string> {
    if '=' in encoded || |encoded| != ref.bytes || codec.digest(encoded) != ref.id then None
    else
      match Base64.Decode(encoded)
      case None => None
      case Some(bytes) =>
        if !NamesRef(bytes, ref.name) then None
        else
          match Gunzip(codec, bytes)
          case None => None
          case Some(raw) => if |raw| == ref.decoded && codec.digest(raw) == ref.rawDigest then Some(raw) else None
  }

  lemma GunzipOne(codec: Codec, raw: string, id: Identity)
    requires Lawful(codec) && Nameable(codec, raw, id)
    ensures Gunzip(codec, Aligned(codec, raw, id)) == Some(raw)
  {
    hide Lawful, Aligned, ReadMember, Nameable;
    GunzipMember(codec, raw, id, []);
    assert Aligned(codec, raw, id) + [] == Aligned(codec, raw, id);
    assert Gunzip(codec, []) == Some("");
    assert raw + "" == raw;
  }

  lemma AlignedNames(codec: Codec, raw: string, id: Identity)
    requires Nameable(codec, raw, id)
    ensures NamesRef(Aligned(codec, raw, id), id)
  {
    var extra := Extra(id, |Compressed(codec, raw)|);
    AlignedShape(codec, raw, id);
    MemberIsAligned(codec, raw, id);
    hide Aligned, IdentityText, Member, Compressed, LittleEndian, HeaderOf;
    assert Aligned(codec, raw, id) == HeaderOf(codec) + LittleEndian(|extra|) + extra + codec.deflate(raw);
    assert extra == Ascii(IdentityText(id)) + Zeros(|extra| - |IdentityText(id)|);
    hide Extra;
    ExtraSize(id, |Compressed(codec, raw)|);
    NameSize(id);
    ShapedNames(codec, Aligned(codec, raw, id), id, extra, codec.deflate(raw));
  }

  lemma ShapedNames(codec: Codec, bytes: Bytes, id: Identity, extra: Bytes, body: Bytes)
    requires |extra| < 0x10000 && bytes == HeaderOf(codec) + LittleEndian(|extra|) + extra + body && |bytes| % 3 == 0
    requires 8 <= |IdentityText(id)| <= |extra| <= |IdentityText(id)| + 2
    requires extra == Ascii(IdentityText(id)) + Zeros(|extra| - |IdentityText(id)|)
    ensures NamesRef(bytes, id)
  {
    ReadShaped(codec, extra, body);
    assert bytes[12..12 + |extra|] == extra;
    hide IdentityText, LittleEndian, HeaderOf;
  }

  lemma NameSize(id: Identity)
    ensures |IdentityText(id)| >= 8
  {
    NameIsPrint(id);
    var e := IdentityJson(id).entries;
    EntryLength(e[0]);
    PrintThree(e[0], e[1], e[2]);
    assert e == [e[0], e[1], e[2]];
    hide Print, IdentityText;
  }

  /** A genuine member passes every check and gives its slice. */
  lemma GenuineReads(codec: Codec, p: Piece)
    requires Lawful(codec) && Genuine(codec, p)
    ensures ReadPart(codec, p.encoded, RefOf(codec, p)) == Some(p.chunk)
  {
    hide Lawful, Nameable, Aligned, NamesRef, Gunzip, Encode, Decode;
    MemberIsAligned(codec, p.chunk, p.id);
    DecodeEncode(Aligned(codec, p.chunk, p.id));
    AlignedNames(codec, p.chunk, p.id);
    GunzipOne(codec, p.chunk, p.id);
  }

  // ---- the members in their order ----

  /** A place in the stream: a reference and the text found for it. */
  datatype Slot = Slot(ref: Ref, encoded: Option<string>)

  function Fetched(codec: Codec, store: Store, ref: Ref): Option<string> {
    match store(ref.id)
    case None => None
    case Some(part) => PartData(codec, part, ref)
  }

  /** The inline members to be inserted before part `index`. */
  function InlineSlots(inline: seq<Inline>, index: nat): seq<Slot> {
    if inline == [] then []
    else
      var x := inline[|inline| - 1];
      InlineSlots(inline[..|inline| - 1], index) + if x.before == index then [Slot(x.ref, Some(x.data))] else []
  }

  function Slots(codec: Codec, refs: seq<Ref>, inline: seq<Inline>, store: Store, n: nat): seq<Slot>
    requires n <= |refs| + 1
  {
    if n == 0 then []
    else
      Slots(codec, refs, inline, store, n - 1) + InlineSlots(inline, n - 1)
      + if n - 1 < |refs| then [Slot(refs[n - 1], Fetched(codec, store, refs[n - 1]))] else []
  }

  datatype Texts = Texts(raw: string, data: string)

  /** All slots read and checked: the joined texts and the joined members. */
  function ReadAll(codec: Codec, slots: seq<Slot>): Option<Texts> {
    if slots == [] then Some(Texts("", ""))
    else
      var slot := slots[|slots| - 1];
      match ReadAll(codec, slots[..|slots| - 1])
      case None => None
      case Some(before) =>
        match slot.encoded
        case None => None
        case Some(encoded) =>
          match ReadPart(codec, encoded, slot.ref)
          case None => None
          case Some(raw) => Some(Texts(before.raw + raw, before.data + encoded))
  }

  predicate CombinedOk(codec: Codec, m: Manifest, raw: string) {
    && |raw| == m.decodedBytes && codec.digest(raw) == m.sha
    && match Parse(raw)
       case Some(Mapping(entries)) => Print(Mapping(entries)) == raw && RuntimeOf(entries) == m.runtime
       case _ => false
  }

  /** `hydrate_checkpoint`: the joined encoded members, or nothing when any check fails. */
  ghost function Hydrated(codec: Codec, m: Manifest, store: Store): Option<string> {
    if !ValidManifest(codec, m) then None
    else
      match ReadAll(codec, Slots(codec, m.refs, m.inline, store, |m.refs| + 1))
      case None => None
      case Some(texts) => if CombinedOk(codec, m, texts.raw) then Some(texts.data) else None
  }

  // ---- the loop ----

  method ReadSlot(codec: Codec, ghost slots: seq<Slot>, slot: Slot, raw: string, data: string)
    returns (ok: bool, raw': string, data': string)
    requires ReadAll(codec, slots) == Some(Texts(raw, data))
    ensures ReadAll(codec, slots + [slot]) == if ok then Some(Texts(raw', data')) else None
  {
    hide ReadPart;
    assert (slots + [slot])[..|slots + [slot]| - 1] == slots;
    raw', data' := raw, data;
    if slot.encoded.None? {
      return false, raw', data';
    }
    var read := ReadPart(codec, slot.encoded.value, slot.ref);
    if read.None? {
      return false, raw', data';
    }
    return true, raw + read.value, data + slot.encoded.value;
  }

  method ReadInline(codec: Codec, ghost slots: seq<Slot>, inline: seq<Inline>, index: nat, raw: string, data: string)
    returns (ok: bool, raw': string, data': string)
    requires ReadAll(codec, slots) == Some(Texts(raw, data))
    ensures ok ==> ReadAll(codec, slots + InlineSlots(inline, index)) == Some(Texts(raw', data'))
    ensures !ok ==> ReadAll(codec, slots + InlineSlots(inline, index)) == None
  {
    hide ReadAll;
    ok, raw', data' := true, raw, data;
    assert slots + [] == slots;
    for k := 0 to |inline|
      invariant ReadAll(codec, slots + InlineSlots(inline[..k], index)) == Some(Texts(raw', data'))
    {
      var x := inline[k];
      assert inline[..k + 1][..k] == inline[..k];
      ghost var before := slots + InlineSlots(inline[..k], index);
      if x.before == index {
        ok, raw', data' := ReadSlot(codec, before, Slot(x.ref, Some(x.data)), raw', data');
        assert before + [Slot(x.ref, Some(x.data))] == slots + InlineSlots(inline[..k + 1], index);
        if !ok {
          InlinePrefix(inline, index, k + 1);
          FailsFrom(codec, slots + InlineSlots(inline[..k + 1], index), slots + InlineSlots(inline, index));
          return;
        }
      } else {
        assert InlineSlots(inline[..k + 1], index) == InlineSlots(inline[..k], index);
      }
    }
    assert inline[..|inline|] == inline;
  }

  lemma {:induction false} InlinePrefix(inline: seq<Inline>, index: nat, k: nat)
    requires k <= |inline|
    ensures InlineSlots(inline[..k], index) <= InlineSlots(inline, index)
    decreases |inline|
  {
    if k < |inline| {
      InlinePrefix(inline[..|inline| - 1], index, k);
      assert inline[..|inline| - 1][..k] == inline[..k];
    } else {
      assert inline[..k] == inline;
    }
  }

  /** Once a slot fails, the whole stream fails. */
  lemma {:induction false} FailsFrom(codec: Codec, slots: seq<Slot>, more: seq<Slot>)
    requires slots <= more && ReadAll(codec, slots) == None
    ensures ReadAll(codec, more) == None
    decreases |more|
  {
    if |slots| < |more| {
      FailsFrom(codec, slots, more[..|more| - 1]);
    } else {
      assert slots == more;
    }
  }

  lemma {:induction false} SlotsPrefix(codec: Codec, refs: seq<Ref>, inline: seq<Inline>, store: Store, m: nat, n: nat)
    requires m <= n <= |refs| + 1
    ensures Slots(codec, refs, inline, store, m) <= Slots(codec, refs, inline, store, n)
    decreases n
  {
    hide InlineSlots;
    if m < n {
      SlotsPrefix(codec, refs, inline, store, m, n - 1);
    }
  }

  method Hydrate(codec: Codec, m: Manifest, store: Store) returns (r: Option<string>)
    ensures r == Hydrated(codec, m, store)
  {
    hide ValidManifest, ReadAll, InlineSlots, CombinedOk;
    var valid := Validate(codec, m);
    if !valid {
      return None;
    }
    var raw, data := "", "";
    assert ReadAll(codec, []) == Some(Texts("", "")) by { ReadNothing(codec); }
    ghost var all := Slots(codec, m.refs, m.inline, store, |m.refs| + 1);
    for index := 0 to |m.refs| + 1
      invariant ReadAll(codec, Slots(codec, m.refs, m.inline, store, index)) == Some(Texts(raw, data))
    {
      ghost var slots, next := Slots(codec, m.refs, m.inline, store, index),
          Slots(codec, m.refs, m.inline, store, index + 1);
      var ok: bool;
      SlotsPrefix(codec, m.refs, m.inline, store, index + 1, |m.refs| + 1);
      ok, raw, data := ReadInline(codec, slots, m.inline, index, raw, data);
      if !ok {
        FailsFrom(codec, slots + InlineSlots(m.inline, index), all);
        return None;
      }
      if index < |m.refs| {
        var ref := m.refs[index];
        var slot := Slot(ref, Fetched(codec, store, ref));
        ok, raw, data := ReadSlot(codec, slots + InlineSlots(m.inline, index), slot, raw, data);
        assert next == slots + InlineSlots(m.inline, index) + [slot];
        if !ok {
          FailsFrom(codec, next, all);
          return None;
        }
      } else {
        assert next == slots + InlineSlots(m.inline, index) by { SlotsUnfold(codec, m.refs, m.inline, store, index); }
      }
    }
    r := if CombinedOk(codec, m, raw) then Some(data) else None;
  }

  lemma ReadNothing(codec: Codec)
    ensures ReadAll(codec, []) == Some(Texts("", ""))
  {}

  /** `decode_checkpoint`: one base64 text, one gzip stream, one JSON mapping. */
  function Decoded(codec: Codec, data: string, decodedBytes: nat, sha: string): Option<seq<Entry>> {
    if |data| > MAX_ENCODED_BYTES then None
    else
      match Base64.Decode(data)
      case None => None
      case Some(bytes) =>
        match Gunzip(codec, bytes)
        case None => None
        case Some(raw) =>
          if |raw| > MAX_DECODED_BYTES || |raw| != decodedBytes || codec.digest(raw) != sha then None
          else
            match Parse(raw)
            case Some(Mapping(entries)) => Some(entries)
            case _ => None
  }

  // ---- the slots of a staged manifest are its pieces ----

  function SlotOf(codec: Codec, store: Store, p: Piece): Slot {
    Slot(RefOf(codec, p), if IsMeta(p.id.path) then Some(p.encoded) else Fetched(codec, store, RefOf(codec, p)))
  }

  function PieceSlots(codec: Codec, store: Store, ps: seq<Piece>): seq<Slot> {
    seq(|ps|, i requires 0 <= i < |ps| => SlotOf(codec, store, ps[i]))
  }

  lemma {:induction false} InlinesBefore(codec: Codec, ps: seq<Piece>)
    ensures forall i :: 0 <= i < |Inlines(codec, ps)| ==> Inlines(codec, ps)[i].before <= |Refs(codec, ps)|
    decreases |ps|
  {
    if ps != [] {
      InlinesBefore(codec, ps[..|ps| - 1]);
    }
  }

  lemma {:induction false} NoneBefore(inline: seq<Inline>, index: nat)
    requires forall i :: 0 <= i < |inline| ==> inline[i].before < index
    ensures InlineSlots(inline, index) == []
    decreases |inline|
  {
    if inline != [] {
      NoneBefore(inline[..|inline| - 1], index);
    }
  }

  /** Slots up to `n` only look at the references below `n`. */
  lemma {:induction false} SlotsLocal(codec: Codec, refs: seq<Ref>, r: Ref, inline: seq<Inline>, store: Store, n: nat)
    requires n <= |refs|
    ensures Slots(codec, refs + [r], inline, store, n) == Slots(codec, refs, inline, store, n)
  {
    hide InlineSlots, Fetched;
    if n > 0 {
      SlotsLocal(codec, refs, r, inline, store, n - 1);
    }
  }

  lemma {:induction false} SlotsInline(codec: Codec, refs: seq<Ref>, inline: seq<Inline>, x: Inline, store: Store,
                                       n: nat)
    requires n <= x.before && n <= |refs| + 1
    ensures Slots(codec, refs, inline + [x], store, n) == Slots(codec, refs, inline, store, n)
  {
    hide Fetched;
    if n > 0 {
      SlotsInline(codec, refs, inline, x, store, n - 1);
      assert (inline + [x])[..|inline|] == inline;
      hide Slots;
    }
  }

  lemma InlineLast(inline: seq<Inline>, x: Inline, index: nat)
    ensures InlineSlots(inline + [x], index) == InlineSlots(inline, index) + if x.before == index
            then [Slot(x.ref, Some(x.data))] else []
  {
    assert (inline + [x])[..|inline|] == inline;
  }

  lemma SlotsUnfold(codec: Codec, refs: seq<Ref>, inline: seq<Inline>, store: Store, n: nat)
    requires n <= |refs|
    ensures Slots(codec, refs, inline, store, n + 1)
         == Slots(codec, refs, inline, store, n) + InlineSlots(inline, n)
            + if n < |refs| then [Slot(refs[n], Fetched(codec, store, refs[n]))] else []
  {}

  /** Inserting the inline member where the manifest says restores the order of the pieces. */
  lemma {:induction false} SlotsAreOrdered(codec: Codec, store: Store, ps: seq<Piece>)
    ensures Slots(codec, Refs(codec, ps), Inlines(codec, ps), store, |Refs(codec, ps)| + 1)
            == PieceSlots(codec, store, ps)
    decreases |ps|
  {
    if ps == [] {
      SlotsUnfold(codec, [], [], store, 0);
    } else {
      var rest, p := ps[..|ps| - 1], ps[|ps| - 1];
      SlotsAreOrdered(codec, store, rest);
      InlinesBefore(codec, rest);
      LastPiece(codec, ps);
      assert PieceSlots(codec, store, ps) == PieceSlots(codec, store, rest) + [SlotOf(codec, store, p)];
      hide Refs, Inlines, PieceSlots;
      if IsMeta(p.id.path) {
        MetaSlot(codec, Refs(codec, rest), Inlines(codec, rest), store, p);
      } else {
        PartSlot(codec, Refs(codec, rest), Inlines(codec, rest), store, p);
      }
    }
  }

  lemma LastPiece(codec: Codec, ps: seq<Piece>)
    requires ps != []
    ensures var rest, p := ps[..|ps| - 1], ps[|ps| - 1];
            && Refs(codec, ps) == Refs(codec, rest) + (if IsMeta(p.id.path) then [] else [RefOf(codec, p)])
            && Inlines(codec, ps) == Inlines(codec, rest)
                 + if IsMeta(p.id.path) then [Inline(RefOf(codec, p), |Refs(codec, rest)|, p.encoded)] else []
  {}

  lemma MetaSlot(codec: Codec, refs: seq<Ref>, inline: seq<Inline>, store: Store, p: Piece)
    requires IsMeta(p.id.path)
    ensures var x := Inline(RefOf(codec, p), |refs|, p.encoded);
            Slots(codec, refs + [], inline + [x], store, |refs + []| + 1)
              == Slots(codec, refs, inline, store, |refs| + 1) + [SlotOf(codec, store, p)]
  {
    var x, n := Inline(RefOf(codec, p), |refs|, p.encoded), |refs|;
    assert refs + [] == refs;
    SlotsInline(codec, refs, inline, x, store, n);
    InlineLast(inline, x, n);
    SlotsUnfold(codec, refs, inline + [x], store, n);
    SlotsUnfold(codec, refs, inline, store, n);
    hide Slots, InlineSlots, RefOf;
  }

  lemma {:induction false} PartSlot(codec: Codec, refs: seq<Ref>, inline: seq<Inline>, store: Store, p: Piece)
    requires !IsMeta(p.id.path) && forall i :: 0 <= i < |inline| ==> inline[i].before <= |refs|
    ensures var r := RefOf(codec, p);
            Slots(codec, refs + [r], inline + [], store, |refs + [r]| + 1)
              == Slots(codec, refs, inline, store, |refs| + 1) + [SlotOf(codec, store, p)]
  {
    var r, n := RefOf(codec, p), |refs|;
    assert inline + [] == inline;
    SlotsLocal(codec, refs, r, inline, store, n);
    SlotsUnfold(codec, refs + [r], inline, store, n);
    SlotsUnfold(codec, refs, inline, store, n);
    SlotsUnfold(codec, refs + [r], inline, store, n + 1);
    NoneBefore(inline, n + 1);
    hide Slots, InlineSlots, RefOf, Fetched;
  }

  // ---- what the store may answer ----

  /** A slot that reads at all reads the staged piece. */
  lemma SlotIsPiece(codec: Codec, store: Store, p: Piece, texts: set<string>)
    requires Lawful(codec) && Separates(codec, texts) && Genuine(codec, p) && p.encoded in texts
    requires store(codec.digest(p.encoded)).Some? ==> store(codec.digest(p.encoded)).value.data in texts
    ensures var slot := SlotOf(codec, store, p);
            slot.encoded.Some? && ReadPart(codec, slot.encoded.value, slot.ref).Some? ==>
              slot.encoded.value == p.encoded && ReadPart(codec, slot.encoded.value, slot.ref) == Some(p.chunk)
  {
    GenuineReads(codec, p);
    var slot := SlotOf(codec, store, p);
    if slot.encoded.Some? && codec.digest(slot.encoded.value) == slot.ref.id {
      hide Lawful, Genuine;
      assert slot.encoded.value in texts;
    }
  }

  ghost predicate AllGenuine(codec: Codec, ps: seq<Piece>) {
    forall i :: 0 <= i < |ps| ==> Genuine(codec, ps[i])
  }

  /** Every text the store offers for a staged part. */
  function Offered(codec: Codec, store: Store, ps: seq<Piece>): set<string> {
    set p | p in ps && store(codec.digest(p.encoded)).Some? :: store(codec.digest(p.encoded)).value.data
  }

  /** The store answers each part with what was staged for it. */
  ghost predicate Serves(codec: Codec, store: Store, ps: seq<Piece>) {
    forall i :: 0 <= i < |ps| && !IsMeta(ps[i].id.path)
        ==> store(codec.digest(ps[i].encoded)) == Some(PartOf(codec, ps[i]))
  }

  lemma {:induction false} ReadPieces(codec: Codec, store: Store, ps: seq<Piece>, texts: set<string>)
    requires Lawful(codec) && AllGenuine(codec, ps) && Separates(codec, texts)
    requires Encodings(ps) + Offered(codec, store, ps) <= texts
    ensures ReadAll(codec, PieceSlots(codec, store, ps)) in {None, Some(Texts(Chunks(ps), Data(ps)))}
    decreases |ps|
  {
    if ps != [] {
      var rest, p, slots := ps[..|ps| - 1], ps[|ps| - 1], PieceSlots(codec, store, ps);
      assert p in ps && Encodings(rest) <= Encodings(ps) && Offered(codec, store, rest) <= Offered(codec, store, ps);
      assert p.encoded in Encodings(ps);
      assert store(codec.digest(p.encoded)).Some?
             ==> store(codec.digest(p.encoded)).value.data in Offered(codec, store, ps);
      hide Lawful, Separates, Genuine, ReadPart, SlotOf;
      ReadPieces(codec, store, rest, texts);
      assert slots[..|slots| - 1] == PieceSlots(codec, store, rest);
      SlotIsPiece(codec, store, p, texts);
      hide PieceSlots, Encodings, Offered;
    }
  }

  lemma {:induction false} ReadServed(codec: Codec, store: Store, ps: seq<Piece>)
    requires Lawful(codec) && AllGenuine(codec, ps) && Serves(codec, store, ps)
    requires forall i :: 0 <= i < |ps| ==> |ps[i].encoded| <= PART_BYTES
    ensures ReadAll(codec, PieceSlots(codec, store, ps)) == Some(Texts(Chunks(ps), Data(ps)))
    decreases |ps|
  {
    hide Lawful, Genuine, ReadPart, SlotOf, PartOf, RefOf;
    if ps != [] {
      var rest, p, slots := ps[..|ps| - 1], ps[|ps| - 1], PieceSlots(codec, store, ps);
      assert slots[..|slots| - 1] == PieceSlots(codec, store, rest);
      assert slots[|slots| - 1] == SlotOf(codec, store, p);
      ServedSlot(codec, store, p);
      GenuineReads(codec, p);
      ReadServed(codec, store, rest);
      hide AllGenuine, Serves, PieceSlots;
    }
  }

  lemma ServedSlot(codec: Codec, store: Store, p: Piece)
    requires Lawful(codec) && Genuine(codec, p) && |p.encoded| <= PART_BYTES
    requires !IsMeta(p.id.path) ==> store(codec.digest(p.encoded)) == Some(PartOf(codec, p))
    ensures SlotOf(codec, store, p) == Slot(RefOf(codec, p), Some(p.encoded))
  {
    hide Lawful;
    GenuineSizes(codec, p);
  }

  // ---- decoding the joined members ----

  function AllAligned(codec: Codec, ps: seq<Piece>): Bytes
    requires AllGenuine(codec, ps)
  {
    if ps == [] then [] else Aligned(codec, ps[0].chunk, ps[0].id) + AllAligned(codec, ps[1..])
  }

  lemma {:induction false} JoinedDecodes(codec: Codec, ps: seq<Piece>)
    requires Lawful(codec) && AllGenuine(codec, ps)
    ensures Encode(AllAligned(codec, ps)) == Data(ps) && Gunzip(codec, AllAligned(codec, ps)) == Some(Chunks(ps))
    decreases |ps|
  {
    if ps != [] {
      var p, rest := ps[0], ps[1..];
      assert AllGenuine(codec, rest) && Genuine(codec, p);
      JoinedDecodes(codec, rest);
      MemberIsAligned(codec, p.chunk, p.id);
      var first := Aligned(codec, p.chunk, p.id);
      EncodeConcat(first, AllAligned(codec, rest));
      GunzipMember(codec, p.chunk, p.id, AllAligned(codec, rest));
      assert ps == [p] + rest;
      ChunksConcat([p], rest);
      One(p);
      hide Lawful, Aligned, Nameable, Encode, Gunzip, Data, Chunks;
    }
  }

  lemma PiecesAreGenuine(codec: Codec, fs: seq<Fragment>, n: nat)
    requires n <= |fs| && Limits(fs)
    ensures AllGenuine(codec, PiecesOf(codec, fs, n))
  {
    hide Genuine, Cut, PathFits;
    if n > 0 {
      PiecesAreGenuine(codec, fs, n - 1);
      CutIsProper(codec, fs[n - 1], 0, 0);
      var cut := Cut(codec, fs[n - 1], 0, 0);
      forall i | 0 <= i < |cut| ensures Genuine(codec, cut[i]) {
        assert Proper(codec, fs[n - 1], 0 + i, cut[i]);
      }
      hide PiecesOf;
      assert PiecesOf(codec, fs, n) == PiecesOf(codec, fs, n - 1) + cut by { UnfoldPieces(codec, fs, n); }
    }
  }

  lemma UnfoldPieces(codec: Codec, fs: seq<Fragment>, n: nat)
    requires 0 < n <= |fs|
    ensures PiecesOf(codec, fs, n) == PiecesOf(codec, fs, n - 1) + Cut(codec, fs[n - 1], 0, 0)
  {}

  // ---- the round trip ----

  lemma GenuinePieces(codec: Codec, durable: seq<Entry>)
    requires Canonical(Mapping(durable)) && Fits(codec, durable)
    ensures AllGenuine(codec, Pieces(codec, durable))
  {
    var fs := FragmentsOf(durable);
    LayoutFacts(durable);
    hide FragmentsOf, Limits, Canonical, AllGenuine, Distinct, Shaped;
    PiecesAreGenuine(codec, fs, |fs|);
  }

  lemma CombinedIsOk(codec: Codec, durable: seq<Entry>, m: Manifest)
    requires Canonical(Mapping(durable))
    requires var raw := Print(Mapping(durable));
             m.decodedBytes == |raw| && m.sha == codec.digest(raw) && m.runtime == RuntimeOf(durable)
    ensures CombinedOk(codec, m, Print(Mapping(durable)))
  {
    hide Print, Canonical, Parse;
    ParsePrint(Mapping(durable));
  }

  /** Whatever the store answers, hydrating a staged manifest gives the staged members or nothing. */
  lemma HydrationNeverDiffers(codec: Codec, durable: seq<Entry>, store: Store)
    requires Separates(codec, Encodings(Pieces(codec, durable)) + Offered(codec, store, Pieces(codec, durable)))
    requires Lawful(codec) && Canonical(Mapping(durable)) && Fits(codec, durable)
    ensures var payload := PayloadOf(codec, durable);
            Hydrated(codec, ManifestOf(codec, payload), store) in {None, Some(payload.data)}
  {
    var ps := Pieces(codec, durable);
    hide Lawful, Separates, Encodings, Offered, Canonical, Fits, Pieces, Print, ValidManifest, CombinedOk, Slots,
         ReadAll, Data, Chunks, Refs, Inlines, Parts, AllGenuine, PieceSlots;
    GenuinePieces(codec, durable);
    SlotsAreOrdered(codec, store, ps);
    ReadPieces(codec, store, ps, Encodings(ps) + Offered(codec, store, ps));
  }

  lemma PiecesFit(codec: Codec, durable: seq<Entry>)
    requires Fits(codec, durable)
    ensures var ps := Pieces(codec, durable); forall i :: 0 <= i < |ps| ==> |ps[i].encoded| <= PART_BYTES
  {}

  lemma ManifestShape(codec: Codec, durable: seq<Entry>)
    ensures var ps, raw, payload := Pieces(codec, durable), Print(Mapping(durable)), PayloadOf(codec, durable);
            var m := ManifestOf(codec, payload);
            && m.refs == Refs(codec, ps) && m.inline == Inlines(codec, ps) && payload.data == Data(ps)
            && m.decodedBytes == |raw| && m.sha == codec.digest(raw) && m.runtime == RuntimeOf(durable)
  {
    hide Pieces, Print, Refs, Inlines, Data, RuntimeOf, Parts, ManifestText, TotalBytes;
  }

  /** With the staged parts in the store, hydration succeeds. */
  lemma HydrationSucceeds(codec: Codec, durable: seq<Entry>, store: Store)
    requires Trusted(codec, durable) && Canonical(Mapping(durable)) && Fits(codec, durable)
    requires Serves(codec, store, Pieces(codec, durable))
    ensures var payload := PayloadOf(codec, durable);
            Hydrated(codec, ManifestOf(codec, payload), store) == Some(payload.data)
  {
    var ps := Pieces(codec, durable);
    PiecesFit(codec, durable);
    ManifestShape(codec, durable);
    assert Lawful(codec);
    hide Trusted, Lawful, Canonical, Fits, Pieces, Print, ValidManifest, CombinedOk, Slots, ReadAll, Data, Chunks, Refs,
         Inlines, AllGenuine, PieceSlots, Serves, RuntimeOf, PayloadOf, ManifestOf;
    GenuinePieces(codec, durable);
    SlotsAreOrdered(codec, store, ps);
    ReadServed(codec, store, ps);
    TextIsKept(codec, durable);
    StagedIsValid(codec, durable);
    CombinedIsOk(codec, durable, ManifestOf(codec, PayloadOf(codec, durable)));
  }

  /** Decoding a staged payload gives back exactly the durable state. */
  lemma DecodingRestores(codec: Codec, durable: seq<Entry>)
    requires Trusted(codec, durable) && Canonical(Mapping(durable)) && Fits(codec, durable)
    ensures var payload := PayloadOf(codec, durable);
            Decoded(codec, payload.data, payload.decodedBytes, payload.sha) == Some(durable)
  {
    var ps := Pieces(codec, durable);
    GenuinePieces(codec, durable);
    assert |Data(ps)| <= MAX_ENCODED_BYTES;
    hide Lawful, Canonical, FragmentsOf, PiecesOf, Print, Data, Chunks, Refs, Inlines, Parts, AllGenuine, Parse,
         Encode, Base64.Decode, Gunzip, AllAligned;
    JoinedDecodes(codec, ps);
    DecodeEncode(AllAligned(codec, ps));
    TextIsKept(codec, durable);
    ParsePrint(Mapping(durable));
  }
}
