/** Slicing records into members of bounded size, and the references that describe them. */
module CheckpointPieces {
  // Both loops are those of `build_checkpoint`.

  import opened CanonicalJson
  import opened GzipMembers
  import opened CheckpointLayout

  const MAX_ENCODED_BYTES := 192 * 1024 * 1024
  const MAX_DECODED_BYTES := 128 * 1024 * 1024
  const INLINE_BYTES := 256 * 1024
  const PART_BYTES := 256 * 1024
  const MAX_PARTS := MAX_ENCODED_BYTES / PART_BYTES
  const RECORD_BYTES := 1024 * 1024
  const MIN_RECORD_BYTES := 16 * 1024
  const MAX_MANIFEST_BYTES := 1024 * 1024
  const MAX_PATH_BYTES := 4096

  /** A slice of a record with its encoded member. */
  datatype Piece = Piece(id: Identity, chunk: string, encoded: string)

  predicate IsMeta(path: seq<string>) {
    path == ["_runtime"]
  }

  /** The member of a slice; names within the path limit always fit the extra field. */
  function Encoded(codec: Codec, chunk: string, id: Identity): string {
    if Nameable(codec, chunk, id) then Member(codec, chunk, id) else ""
  }

  // ---- slicing one record ----

  /** The slice size: halved, down to a floor, until the member fits a part. */
  function Shrunk(codec: Codec, f: Fragment, start: nat, index: nat, size: nat): (r: nat)
    requires 0 < size && start + size <= |f.text|
    ensures 0 < r <= size && (r == size || r >= MIN_RECORD_BYTES)
    decreases size
  {
    if size > MIN_RECORD_BYTES && !IsMeta(f.path)
       && |Encoded(codec, f.text[start..start + size], Identity(f.path, f.role, index))| > PART_BYTES
    then Shrunk(codec, f, start, index, if size / 2 < MIN_RECORD_BYTES then MIN_RECORD_BYTES else size / 2)
    else size
  }

  function SliceSize(codec: Codec, f: Fragment, start: nat, index: nat): (r: nat)
    requires start < |f.text|
    ensures 0 < r <= |f.text| - start
  {
    var left := |f.text| - start;
    Shrunk(codec, f, start, index, if IsMeta(f.path) || left < RECORD_BYTES then left else RECORD_BYTES)
  }

  /** The sizes that are tried for a slice: each is half the one before, down to a floor. */
  function Tried(f: Fragment, start: nat, k: nat): (r: nat)
    requires start < |f.text|
    ensures 0 < r <= |f.text| - start
  {
    if k == 0 then
      var left := |f.text| - start;
      if IsMeta(f.path) || left < RECORD_BYTES then left else RECORD_BYTES
    else
      var size := Tried(f, start, k - 1);
      if size <= MIN_RECORD_BYTES then size else if size / 2 < MIN_RECORD_BYTES then MIN_RECORD_BYTES else size / 2
  }

  ghost predicate TooLarge(codec: Codec, f: Fragment, start: nat, index: nat, size: nat)
    requires start + size <= |f.text|
  {
    |Encoded(codec, f.text[start..start + size], Identity(f.path, f.role, index))| > PART_BYTES
  }

  /** A slice is the largest that fits a part; one that does not fit is metadata or no larger than the floor. */
  lemma SliceIsLargest(codec: Codec, f: Fragment, start: nat, index: nat) returns (k: nat)
    requires start < |f.text|
    ensures SliceSize(codec, f, start, index) == Tried(f, start, k)
    ensures forall j :: 0 <= j < k ==> TooLarge(codec, f, start, index, Tried(f, start, j))
    ensures TooLarge(codec, f, start, index, Tried(f, start, k)) ==>
              IsMeta(f.path) || Tried(f, start, k) <= MIN_RECORD_BYTES
  {
    hide Encoded;
    k := 0;
    while !IsMeta(f.path) && TooLarge(codec, f, start, index, Tried(f, start, k))
          && Tried(f, start, k) > MIN_RECORD_BYTES
      invariant SliceSize(codec, f, start, index) == Shrunk(codec, f, start, index, Tried(f, start, k))
      invariant forall j :: 0 <= j < k ==> TooLarge(codec, f, start, index, Tried(f, start, j))
      decreases Tried(f, start, k)
    {
      k := k + 1;
    }
  }

  function PieceAt(codec: Codec, f: Fragment, start: nat, index: nat): Piece
    requires start < |f.text|
  {
    var id, chunk := Identity(f.path, f.role, index), f.text[start..start + SliceSize(codec, f, start, index)];
    Piece(id, chunk, Encoded(codec, chunk, id))
  }

  function Cut(codec: Codec, f: Fragment, start: nat, index: nat): seq<Piece>
    requires start <= |f.text|
    decreases |f.text| - start
  {
    if start == |f.text| then []
    else [PieceAt(codec, f, start, index)] + Cut(codec, f, start + SliceSize(codec, f, start, index), index + 1)
  }

  function PiecesOf(codec: Codec, fs: seq<Fragment>, n: nat): seq<Piece>
    requires n <= |fs|
  {
    if n == 0 then [] else PiecesOf(codec, fs, n - 1) + Cut(codec, fs[n - 1], 0, 0)
  }

  // ---- what is written about the slices ----

  function Data(ps: seq<Piece>): string {
    if ps == [] then "" else Data(ps[..|ps| - 1]) + ps[|ps| - 1].encoded
  }

  function Chunks(ps: seq<Piece>): string {
    if ps == [] then "" else Chunks(ps[..|ps| - 1]) + ps[|ps| - 1].chunk
  }

  function Encodings(ps: seq<Piece>): set<string> {
    set p | p in ps :: p.encoded
  }

  datatype Ref = Ref(id: string, bytes: nat, name: Identity, decoded: nat, rawDigest: string)

  datatype Inline = Inline(ref: Ref, before: nat, data: string)

  datatype Part = Part(digest: string, bytes: nat, data: string)

  function RefOf(codec: Codec, p: Piece): Ref {
    Ref(codec.digest(p.encoded), |p.encoded|, p.id, |p.chunk|, codec.digest(p.chunk))
  }

  function PartOf(codec: Codec, p: Piece): Part {
    Part(codec.digest(p.encoded), |p.encoded|, p.encoded)
  }

  function Refs(codec: Codec, ps: seq<Piece>): seq<Ref> {
    if ps == [] then []
    else
      var p := ps[|ps| - 1];
      Refs(codec, ps[..|ps| - 1]) + if IsMeta(p.id.path) then [] else [RefOf(codec, p)]
  }

  function Parts(codec: Codec, ps: seq<Piece>): seq<Part> {
    if ps == [] then []
    else
      var p := ps[|ps| - 1];
      Parts(codec, ps[..|ps| - 1]) + if IsMeta(p.id.path) then [] else [PartOf(codec, p)]
  }

  function Inlines(codec: Codec, ps: seq<Piece>): seq<Inline> {
    if ps == [] then []
    else
      var rest, p := ps[..|ps| - 1], ps[|ps| - 1];
      Inlines(codec, rest) + if IsMeta(p.id.path) then [Inline(RefOf(codec, p), |Refs(codec, rest)|, p.encoded)] else []
  }

  // ---- slices keep the text ----

  lemma {:induction false} ChunksConcat(a: seq<Piece>, b: seq<Piece>)
    ensures Chunks(a + b) == Chunks(a) + Chunks(b) && Data(a + b) == Data(a) + Data(b)
    decreases |b|
  {
    if b == [] {
      assert a + b == a;
    } else {
      assert (a + b)[..|a + b| - 1] == a + b[..|b| - 1];
      ChunksConcat(a, b[..|b| - 1]);
    }
  }

  lemma One(p: Piece)
    ensures Chunks([p]) == p.chunk && Data([p]) == p.encoded
  {}

  lemma {:induction false} CutJoins(codec: Codec, f: Fragment, start: nat, index: nat)
    requires start <= |f.text|
    ensures Chunks(Cut(codec, f, start, index)) == f.text[start..]
    decreases |f.text| - start
  {
    hide Encoded, SliceSize;
    if start < |f.text| {
      var p, size := PieceAt(codec, f, start, index), SliceSize(codec, f, start, index);
      CutJoins(codec, f, start + size, index + 1);
      hide Cut;
      ChunksConcat([p], Cut(codec, f, start + size, index + 1));
      One(p);
      assert f.text[start..] == f.text[start..start + size] + f.text[start + size..];
    }
  }

  lemma {:induction false} PiecesJoin(codec: Codec, fs: seq<Fragment>, n: nat)
    requires n <= |fs|
    ensures Chunks(PiecesOf(codec, fs, n)) == Joined(fs[..n])
  {
    hide Cut;
    if n > 0 {
      PiecesJoin(codec, fs, n - 1);
      CutJoins(codec, fs[n - 1], 0, 0);
      ChunksConcat(PiecesOf(codec, fs, n - 1), Cut(codec, fs[n - 1], 0, 0));
      assert fs[..n] == fs[..n - 1] + [fs[n - 1]];
      JoinedConcat(fs[..n - 1], [fs[n - 1]]);
      JoinedOne(fs[n - 1]);
    }
  }

  // ---- every slice is a genuine member ----

  /** The piece is the member of its slice. */
  ghost predicate Genuine(codec: Codec, p: Piece) {
    Nameable(codec, p.chunk, p.id) && p.encoded == Member(codec, p.chunk, p.id) && p.chunk != ""
  }

  predicate PathFits(path: seq<string>) {
    |Print(PathJson(path))| <= MAX_PATH_BYTES
  }

  lemma {:induction false} DecimalLength(n: nat)
    ensures |Decimal(n)| <= n + 1
    decreases n
  {
    if n >= 10 {
      DecimalLength(n / 10);
    }
  }

  lemma EntryLength(e: Entry)
    requires forall i :: 0 <= i < |e.key| ==> 'a' <= e.key[i] <= 'z'
    ensures |PrintEntry(e)| == |e.key| + 3 + |Print(e.value)|
  {
    Plain(e.key);
  }

  lemma PrintThree(a: Entry, b: Entry, c: Entry)
    ensures |Print(Mapping([a, b, c]))| == |PrintEntry(a)| + |PrintEntry(b)| + |PrintEntry(c)| + 4
  {
    var entries := [a, b, c];
    PrintStep(entries, 0);
    PrintStep(entries, 1);
    PrintStep(entries, 2);
    assert PrintEntries(entries, 3) == "";
    hide PrintEntries, PrintEntry;
  }

  lemma RoleLength(role: Role)
    ensures |Print(Text(RoleName(role)))| <= 7
  {
    Plain(RoleName(role));
  }

  lemma IdentityLength(id: Identity)
    ensures |IdentityText(id)| <= |Print(PathJson(id.path))| + |Decimal(id.index)| + 40
  {
    NameIsPrint(id);
    var index, path, role := Entry("index", Number(Decimal(id.index))), Entry("path", PathJson(id.path)),
        Entry("role", Text(RoleName(id.role)));
    IndexLength(id.index);
    hide Decimal, PathJson, IdentityText, Print, PrintEntry, RoleName;
    EntryLength(index);
    EntryLength(path);
    EntryLength(role);
    PrintThree(index, path, role);
    RoleLength(id.role);
  }

  lemma IndexLength(index: nat)
    ensures |Print(Number(Decimal(index)))| == |Decimal(index)|
  {
    hide Decimal;
  }

  lemma {:induction false} Plain(s: string)
    requires forall i :: 0 <= i < |s| ==> 'a' <= s[i] <= 'z'
    ensures Escaped(s) == s
    decreases |s|
  {
    if s != "" {
      Plain(s[1..]);
      assert s == [s[0]] + s[1..];
    }
  }

  lemma NameFits(codec: Codec, chunk: string, id: Identity)
    requires PathFits(id.path) && id.index <= 50000
    ensures Nameable(codec, chunk, id)
  {
    hide Compressed, Extra, IdentityText, Decimal;
    IdentityLength(id);
    DecimalLength(id.index);
    ExtraSize(id, |Compressed(codec, chunk)|);
  }

  lemma HeadIsGenuine(codec: Codec, f: Fragment, start: nat, index: nat)
    requires PathFits(f.path) && start < |f.text| && index <= 50000
    ensures Genuine(codec, PieceAt(codec, f, start, index))
    ensures !IsMeta(f.path) ==> |PieceAt(codec, f, start, index).chunk| <= RECORD_BYTES
  {
    var p := PieceAt(codec, f, start, index);
    NameFits(codec, p.chunk, p.id);
    hide PathFits, Nameable, Member;
  }

  lemma SliceFloor(codec: Codec, f: Fragment, start: nat, index: nat)
    requires start < |f.text|
    ensures start + SliceSize(codec, f, start, index) == |f.text|
            || SliceSize(codec, f, start, index) >= MIN_RECORD_BYTES
  {
    hide Encoded;
  }

  /** A piece of a record: its name, numbered, and its genuine member. */
  ghost predicate Proper(codec: Codec, f: Fragment, index: nat, p: Piece) {
    Genuine(codec, p) && p.id == Identity(f.path, f.role, index) && (!IsMeta(f.path) ==> |p.chunk| <= RECORD_BYTES)
  }

  /** Slices below the last are at least the floor, so their numbers stay small. */
  lemma {:induction false} CutIsProper(codec: Codec, f: Fragment, start: nat, index: nat)
    requires PathFits(f.path) && start <= |f.text| <= MAX_DECODED_BYTES
    requires start < |f.text| ==> index * MIN_RECORD_BYTES <= start
    ensures forall i :: 0 <= i < |Cut(codec, f, start, index)| ==>
              Proper(codec, f, index + i, Cut(codec, f, start, index)[i])
    decreases |f.text| - start
  {
    hide PathFits, Genuine, Encoded, SliceSize;
    if start < |f.text| {
      var p, size := PieceAt(codec, f, start, index), SliceSize(codec, f, start, index);
      HeadIsGenuine(codec, f, start, index);
      assert Proper(codec, f, index, p);
      SliceFloor(codec, f, start, index);
      CutIsProper(codec, f, start + size, index + 1);
      hide Proper, PieceAt;
      var tail := Cut(codec, f, start + size, index + 1);
      assert Cut(codec, f, start, index) == [p] + tail;
      hide Cut;
      forall i | 0 <= i < |[p] + tail| ensures Proper(codec, f, index + i, ([p] + tail)[i]) {
        if i > 0 {
          assert Proper(codec, f, index + 1 + (i - 1), tail[i - 1]);
        }
      }
    }
  }
}
