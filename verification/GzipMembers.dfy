/** One checkpoint record as an aligned gzip member. */
module GzipMembers {
  // A member (sections 2.2 and 2.3.1.1 of RFC 1952) is padded in its extra field to a whole number of
  // base64 groups. Members name their record, so two records never share a member, and joined
  // members decompress to the joined records.

  import opened Wrappers
  import opened CanonicalJson
  import opened Base64

  /** Compression and hashing, by their laws only. `inflate` reads one body and leaves the rest. */
  datatype Codec = Codec(
    deflate: string -> Bytes,
    inflate: Bytes -> Option<(string, Bytes)>,
    digest: string -> string,
    speed: Byte,
    system: Byte)

  ghost predicate Inflates(codec: Codec) {
    forall raw: string, rest: Bytes :: codec.inflate(codec.deflate(raw) + rest) == Some((raw, rest))
  }

  /** The digest tells these texts apart. Only texts that are really compared are asked for. */
  ghost predicate Separates(codec: Codec, texts: set<string>) {
    forall a, b :: a in texts && b in texts && codec.digest(a) == codec.digest(b) ==> a == b
  }

  predicate IsDigest(s: string) {
    |s| == 64 && forall i :: 0 <= i < |s| ==> '0' <= s[i] <= '9' || 'a' <= s[i] <= 'f'
  }

  ghost predicate Hexadecimal(codec: Codec) {
    forall a: string :: IsDigest(codec.digest(a))
  }

  ghost predicate Lawful(codec: Codec) {
    Inflates(codec) && Hexadecimal(codec)
  }

  lemma InflateLaw(codec: Codec, raw: string, rest: Bytes)
    requires Lawful(codec)
    ensures codec.inflate(codec.deflate(raw) + rest) == Some((raw, rest))
  {}

  lemma DigestIsHex(codec: Codec, a: string)
    requires Lawful(codec)
    ensures IsDigest(codec.digest(a))
  {}

  // ---- the name of a record ----

  datatype Role = Open | Close | Whole | Single | Group

  function RoleName(role: Role): string {
    match role
    case Open => "open"
    case Close => "close"
    case Whole => "value"
    case Single => "entry"
    case Group => "group"
  }

  /** Which record, and which of its slices. */
  datatype Identity = Identity(path: seq<string>, role: Role, index: nat)

  function Decimal(n: nat): string {
    if n < 10 then [HexDigit(n)] else Decimal(n / 10) + [HexDigit(n % 10)]
  }

  function PathJson(path: seq<string>): Json {
    Array(seq(|path|, i requires 0 <= i < |path| => Text(path[i])))
  }

  function IdentityJson(id: Identity): Json {
    Mapping([Entry("index", Number(Decimal(id.index))), Entry("path", PathJson(id.path)),
             Entry("role", Text(RoleName(id.role)))])
  }

  lemma {:induction false} DecimalIsNumber(n: nat)
    ensures IsNumber(Decimal(n))
    decreases n
  {
    if n >= 10 {
      DecimalIsNumber(n / 10);
    }
  }

  lemma {:induction false} DecimalInjective(m: nat, n: nat)
    requires Decimal(m) == Decimal(n)
    ensures m == n
    decreases m
  {
    var s, t := Decimal(m), Decimal(n);
    assert s[|s| - 1] == HexDigit(m % 10) && t[|t| - 1] == HexDigit(n % 10);
    UnhexDigit(m % 10);
    UnhexDigit(n % 10);
    DecimalNotEmpty(m / 10);
    DecimalNotEmpty(n / 10);
    if m >= 10 && n >= 10 {
      assert s[..|s| - 1] == Decimal(m / 10) && t[..|t| - 1] == Decimal(n / 10);
      DecimalInjective(m / 10, n / 10);
    }
  }

  lemma DecimalNotEmpty(n: nat)
    ensures |Decimal(n)| >= 1
  {}

  lemma IdentityCanonical(id: Identity)
    ensures Canonical(IdentityJson(id))
  {
    DecimalIsNumber(id.index);
    assert Before("index", "path") && Before("path", "role") && Before("index", "role");
  }

  lemma IdentityInjective(a: Identity, b: Identity)
    requires Print(IdentityJson(a)) == Print(IdentityJson(b))
    ensures a == b
  {
    IdentityCanonical(a);
    IdentityCanonical(b);
    hide Print, Canonical;
    PrintInjective(IdentityJson(a), IdentityJson(b));
    var x, y := IdentityJson(a).entries, IdentityJson(b).entries;
    assert x[0] == y[0] && x[1] == y[1] && x[2] == y[2];
    DecimalInjective(a.index, b.index);
    assert |a.path| == |PathJson(a.path).items| == |PathJson(b.path).items| == |b.path|;
    forall i | 0 <= i < |a.path| ensures a.path[i] == b.path[i] {
      assert PathJson(a.path).items[i] == PathJson(b.path).items[i];
    }
  }

  // ---- building a member ----

  function Ascii(t: string): Bytes
    requires IsAscii(t)
  {
    seq(|t|, i requires 0 <= i < |t| => t[i] as int)
  }

  function Zeros(n: nat): Bytes {
    seq(n, _ => 0)
  }

  /** `gzip.compress(raw, mtime=0)`: ten header bytes, then the compressed body with its trailer. */
  function Compressed(codec: Codec, raw: string): Bytes {
    [0x1F, 0x8B, 8, 0, 0, 0, 0, 0, codec.speed, codec.system] + codec.deflate(raw)
  }

  function IdentityText(id: Identity): (t: string)
    ensures IsAscii(t)
  {
    IdentityCanonical(id);
    PrintIsAscii(IdentityJson(id));
    Print(IdentityJson(id))
  }

  /** The extra field: the record's name and up to two zero bytes. */
  function Extra(id: Identity, compressedSize: nat): Bytes {
    var name := Ascii(IdentityText(id));
    name + Zeros((-(compressedSize + 2 + |name|)) % 3)
  }

  function LittleEndian(n: nat): Bytes
    requires n < 0x10000
  {
    [n % 256, n / 256]
  }

  /** A two-byte length, low byte first. */
  function Short(low: Byte, high: Byte): nat {
    low as int + 256 * (high as int)
  }

  predicate Nameable(codec: Codec, raw: string, id: Identity) {
    |Extra(id, |Compressed(codec, raw)|)| < 0x10000
  }

  /** The same compressed data with the extra field announced and inserted after the header. */
  function Aligned(codec: Codec, raw: string, id: Identity): Bytes
    requires Nameable(codec, raw, id)
  {
    var compressed := Compressed(codec, raw);
    var extra := Extra(id, |compressed|);
    compressed[..3] + [compressed[3] + 4] + compressed[4..9] + [255]
      + LittleEndian(|extra|) + extra + compressed[10..]
  }

  function Member(codec: Codec, raw: string, id: Identity): string
    requires Nameable(codec, raw, id)
  {
    Encode(Aligned(codec, raw, id))
  }

  function HeaderOf(codec: Codec): Bytes {
    [0x1F, 0x8B, 8, 4, 0, 0, 0, 0, codec.speed, 255]
  }

  lemma AlignedShape(codec: Codec, raw: string, id: Identity)
    requires Nameable(codec, raw, id)
    ensures var extra := Extra(id, |Compressed(codec, raw)|);
            Aligned(codec, raw, id) == HeaderOf(codec) + (LittleEndian(|extra|) + (extra + codec.deflate(raw)))
  {
    hide Extra;
    var compressed, extra := Compressed(codec, raw), Extra(id, |Compressed(codec, raw)|);
    var body := codec.deflate(raw);
    assert compressed[10..] == body;
    assert compressed[..3] + [compressed[3] + 4] + compressed[4..9] + [255] == HeaderOf(codec);
    hide LittleEndian, HeaderOf, Compressed;
    assert forall a: Bytes, b: Bytes, c: Bytes, d: Bytes :: a + b + c + d == a + (b + (c + d));
  }

  /** Padding makes every member a whole number of base64 groups. */
  lemma MemberIsAligned(codec: Codec, raw: string, id: Identity)
    requires Nameable(codec, raw, id)
    ensures |Aligned(codec, raw, id)| % 3 == 0
    ensures '=' !in Member(codec, raw, id) && |Member(codec, raw, id)| % 4 == 0
    ensures |Member(codec, raw, id)| > 0
  {
    AlignedSize(codec, raw, id);
    var bytes := Aligned(codec, raw, id);
    hide Aligned;
    PlainIffAligned(bytes);
    EncodedLength(bytes);
    hide Encode;
  }

  lemma AlignedSize(codec: Codec, raw: string, id: Identity)
    requires Nameable(codec, raw, id)
    ensures |Aligned(codec, raw, id)| % 3 == 0 && |Aligned(codec, raw, id)| > 0
  {
    var size := |Compressed(codec, raw)|;
    AlignedShape(codec, raw, id);
    ExtraSize(id, size);
    assert size == 10 + |codec.deflate(raw)|;
    hide Aligned, Extra, Compressed;
    assert |Aligned(codec, raw, id)| == size + 2 + |Extra(id, size)|;
  }

  lemma ExtraSize(id: Identity, size: nat)
    ensures (size + 2 + |Extra(id, size)|) % 3 == 0
    ensures |IdentityText(id)| <= |Extra(id, size)| <= |IdentityText(id)| + 2
  {
    hide IdentityText;
    var name := |IdentityText(id)|;
    assert |Extra(id, size)| == name + (-(size + 2 + name)) % 3;
  }

  // ---- reading members ----

  /** One member at the front of a stream: its text and the bytes after it. */
  function ReadMember(codec: Codec, s: Bytes): (r: Option<(string, Bytes)>)
    ensures r.Some? ==> |r.value.1| < |s|
  {
    if |s| < 10 || s[..3] != [0x1F, 0x8B, 8] || (s[3] != 0 && s[3] != 4) then None
    else if s[3] == 4 && (|s| < 12 || |s| < 12 + Short(s[10], s[11])) then None
    else
      match codec.inflate(if s[3] == 4 then s[12 + Short(s[10], s[11])..] else s[10..])
      case Some((raw, rest)) => if |rest| < |s| then Some((raw, rest)) else None
      case None => None
  }

  /** A gzip stream is a series of members (section 2.2). */
  function Gunzip(codec: Codec, s: Bytes): Option<string>
    decreases |s|
  {
    if s == [] then Some("")
    else
      match ReadMember(codec, s)
      case None => None
      case Some((raw, rest)) =>
        match Gunzip(codec, rest)
        case None => None
        case Some(more) => Some(raw + more)
  }

  lemma ReadOneMember(codec: Codec, raw: string, id: Identity, rest: Bytes)
    requires Lawful(codec) && Nameable(codec, raw, id)
    ensures ReadMember(codec, Aligned(codec, raw, id) + rest) == Some((raw, rest))
  {
    AlignedShape(codec, raw, id);
    var extra := Extra(id, |Compressed(codec, raw)|);
    ReadShaped(codec, extra, codec.deflate(raw) + rest);
    InflateLaw(codec, raw, rest);
    hide Lawful, Aligned, Extra, ReadMember, LittleEndian, HeaderOf, Compressed, Nameable;
    Regroup(HeaderOf(codec), LittleEndian(|extra|), extra, codec.deflate(raw), rest);
    ReadMemberOf(codec, Aligned(codec, raw, id) + rest, extra, codec.deflate(raw) + rest, raw, rest);
  }

  lemma Regroup(a: Bytes, b: Bytes, c: Bytes, d: Bytes, e: Bytes)
    ensures a + (b + (c + d)) + e == a + b + c + (d + e)
  {}

  lemma ReadShaped(codec: Codec, extra: Bytes, body: Bytes)
    requires |extra| < 0x10000
    ensures var s := HeaderOf(codec) + LittleEndian(|extra|) + extra + body;
            |s| == 12 + |extra| + |body| && s[..4] == [0x1F, 0x8B, 8, 4] && Short(s[10], s[11]) == |extra|
                && s[12 + |extra|..] == body
  {}

  lemma ReadMemberOf(codec: Codec, s: Bytes, extra: Bytes, body: Bytes, raw: string, rest: Bytes)
    requires |s| == 12 + |extra| + |body| && s[..4] == [0x1F, 0x8B, 8, 4] && Short(s[10], s[11]) == |extra|
    requires s[12 + |extra|..] == body
    requires codec.inflate(body) == Some((raw, rest)) && |rest| <= |body|
    ensures ReadMember(codec, s) == Some((raw, rest))
  {
    assert s[..3] == s[..4][..3] && s[3] == s[..4][3];
  }

  lemma GunzipMember(codec: Codec, raw: string, id: Identity, rest: Bytes)
    requires Lawful(codec) && Nameable(codec, raw, id)
    ensures Gunzip(codec, Aligned(codec, raw, id) + rest)
         == match Gunzip(codec, rest) case None => None case Some(more) => Some(raw + more)
  {
    ReadOneMember(codec, raw, id, rest);
    hide Lawful, Aligned, ReadMember;
  }

  // ---- two records never share a member ----

  lemma MembersDiffer(codec: Codec, raw: string, id: Identity, raw': string, id': Identity)
    requires Nameable(codec, raw, id) && Nameable(codec, raw', id')
    requires Member(codec, raw, id) == Member(codec, raw', id')
    ensures id == id'
  {
    var a, b := Aligned(codec, raw, id), Aligned(codec, raw', id');
    var x, y := Extra(id, |Compressed(codec, raw)|), Extra(id', |Compressed(codec, raw')|);
    assert a == b by {
      hide Aligned;
      DecodeEncode(a);
      DecodeEncode(b);
    }
    AlignedShape(codec, raw, id);
    AlignedShape(codec, raw', id');
    SameExtra(codec, x, codec.deflate(raw), y, codec.deflate(raw'), a);
    hide Aligned, Extra;
    ExtraNames(id, |Compressed(codec, raw)|, id', |Compressed(codec, raw')|);
  }

  lemma SameExtra(codec: Codec, x: Bytes, body: Bytes, y: Bytes, body': Bytes, s: Bytes)
    requires |x| < 0x10000 && |y| < 0x10000
    requires s == HeaderOf(codec) + (LittleEndian(|x|) + (x + body))
             == HeaderOf(codec) + (LittleEndian(|y|) + (y + body'))
    ensures x == y
  {
    assert s == HeaderOf(codec) + LittleEndian(|x|) + x + body;
    assert s == HeaderOf(codec) + LittleEndian(|y|) + y + body';
    ReadShaped(codec, x, body);
    ReadShaped(codec, y, body');
    assert s[12..12 + |x|] == x && s[12..12 + |y|] == y;
  }

  lemma ExtraNames(id: Identity, size: nat, id': Identity, size': nat)
    requires Extra(id, size) == Extra(id', size')
    ensures id == id'
  {
    ExtraStarts(id, size);
    ExtraStarts(id', size');
    var name, name' := IdentityText(id), IdentityText(id');
    var x := Extra(id, size);
    hide Extra, IdentityText;
    // Names hold no zero byte, so both end where the zeros start.
    NoLonger(name, name', x);
    NoLonger(name', name, x);
    assert name == name' by {
      forall i | 0 <= i < |name| ensures name[i] == name'[i] {
        assert name[i] as int == x[i] == name'[i] as int;
      }
    }
    assert IdentityText(id) == Print(IdentityJson(id)) && IdentityText(id') == Print(IdentityJson(id')) by {
      NameIsPrint(id);
      NameIsPrint(id');
    }
    IdentityInjective(id, id');
  }

  lemma NoLonger(name: string, longer: string, x: Bytes)
    requires |name| <= |x| && forall i :: |name| <= i < |x| ==> x[i] == 0
    requires |longer| <= |x| && forall i :: 0 <= i < |longer| ==> x[i] != 0
    ensures |longer| <= |name|
  {
    if |name| < |x| {
      assert x[|name|] == 0;
    }
  }

  lemma NameIsPrint(id: Identity)
    ensures IdentityText(id) == Print(IdentityJson(id))
  {}

  lemma ExtraStarts(id: Identity, size: nat)
    ensures var name, x := IdentityText(id), Extra(id, size);
            |name| <= |x| && (forall i :: 0 <= i < |name| ==> x[i] == name[i] as int && x[i] != 0)
            && forall i :: |name| <= i < |x| ==> x[i] == 0
  {
    hide IdentityText;
  }
}
