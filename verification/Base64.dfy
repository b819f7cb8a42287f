/** Base64 (section 4 of RFC 4648), aligned so that texts join. */
module Base64 {
  // Text encoded from a multiple of three bytes carries no `=` sign, so such texts can be joined
  // and decoded as one.

  import opened Wrappers
  import opened CanonicalJson

  type Byte = b: int | 0 <= b < 256
  type Bytes = seq<Byte>

  // ---- the alphabet ----

  function Symbol(n: nat): char
    requires n < 64
  {
    if n < 26 then ('A' as int + n) as char
    else if n < 52 then ('a' as int + n - 26) as char
    else if n < 62 then ('0' as int + n - 52) as char
    else if n == 62 then '+' else '/'
  }

  function Value(c: char): (r: Option<nat>)
    ensures r.Some? ==> r.value < 64
  {
    if 'A' <= c <= 'Z' then Some(c as int - 'A' as int)
    else if 'a' <= c <= 'z' then Some(c as int - 'a' as int + 26)
    else if '0' <= c <= '9' then Some(c as int - '0' as int + 52)
    else if c == '+' then Some(62)
    else if c == '/' then Some(63)
    else None
  }

  lemma SymbolRoundTrip(n: nat)
    requires n < 64
    ensures Value(Symbol(n)) == Some(n) && Symbol(n) != '='
  {}

  // ---- groups of three bytes ----

  function Quad(a: Byte, b: Byte, c: Byte): (q: string)
    ensures |q| == 4
  {
    [Symbol(a / 4), Symbol(a % 4 * 16 + b / 16), Symbol(b % 16 * 4 + c / 64), Symbol(c % 64)]
  }

  function Encode(bs: Bytes): string {
    if |bs| == 0 then ""
    else if |bs| == 1 then Quad(bs[0], 0, 0)[..2] + "=="
    else if |bs| == 2 then Quad(bs[0], bs[1], 0)[..3] + "="
    else Quad(bs[0], bs[1], bs[2]) + Encode(bs[3..])
  }

  function DecodeQuad(t: string): Option<Bytes>
    requires |t| == 4
  {
    match (Value(t[0]), Value(t[1]), Value(t[2]), Value(t[3]))
    case (Some(p), Some(q), Some(r), Some(s)) => Some([p * 4 + q / 16, q % 16 * 16 + r / 4, r % 4 * 64 + s])
    case _ => None
  }

  /** The last four characters, which alone may end in `=`. */
  function DecodeLast(t: string): Option<Bytes>
    requires |t| == 4
  {
    if t[3] != '=' then DecodeQuad(t)
    else
      match DecodeQuad(t[..if t[2] == '=' then 2 else 3] + if t[2] == '=' then "AA" else "A")
      case Some(bs) => Some(if t[2] == '=' then bs[..1] else bs[..2])
      case None => None
  }

  /** Strict decoding: anything outside the alphabet is refused. */
  function Decode(t: string): Option<Bytes> {
    if t == "" then Some([])
    else if |t| < 4 then None
    else if |t| == 4 then DecodeLast(t)
    else
      match (DecodeQuad(t[..4]), Decode(t[4..]))
      case (Some(bs), Some(more)) => Some(bs + more)
      case _ => None
  }

  // ---- decoding undoes encoding ----

  /** Four values of six bits hold three bytes. */
  lemma SixBits(a: Byte, b: Byte, c: Byte)
    ensures var p, q, r, s := a / 4, a % 4 * 16 + b / 16, b % 16 * 4 + c / 64, c % 64;
            && p < 64 && q < 64 && r < 64
            && p * 4 + q / 16 == a && q % 16 * 16 + r / 4 == b && r % 4 * 64 + s == c
  {
    var q, r := a % 4 * 16 + b / 16, b % 16 * 4 + c / 64;
    assert b / 16 < 16 && c / 64 < 4;
    assert q / 16 == a % 4 && q % 16 == b / 16;
    assert r / 4 == b % 16 && r % 4 == c / 64;
  }

  lemma FourValues(t: string, p: nat, q: nat, r: nat, s: nat, a: Byte, b: Byte, c: Byte)
    requires p < 64 && q < 64 && r < 64 && s < 64 && t == [Symbol(p), Symbol(q), Symbol(r), Symbol(s)]
    requires p * 4 + q / 16 == a && q % 16 * 16 + r / 4 == b && r % 4 * 64 + s == c
    ensures DecodeQuad(t) == Some([a, b, c]) && '=' !in t
  {
    SymbolRoundTrip(p);
    SymbolRoundTrip(q);
    SymbolRoundTrip(r);
    SymbolRoundTrip(s);
    hide Symbol, Value;
  }

  lemma QuadRoundTrip(a: Byte, b: Byte, c: Byte)
    ensures DecodeQuad(Quad(a, b, c)) == Some([a, b, c]) && '=' !in Quad(a, b, c)
  {
    SixBits(a, b, c);
    FourValues(Quad(a, b, c), a / 4, a % 4 * 16 + b / 16, b % 16 * 4 + c / 64, c % 64, a, b, c);
  }

  lemma QuadIsPlain(a: Byte, b: Byte, c: Byte)
    ensures '=' !in Quad(a, b, c)
  {
    QuadRoundTrip(a, b, c);
    hide Quad;
  }

  lemma LastRoundTrip(bs: Bytes)
    requires 0 < |bs| <= 3
    ensures |Encode(bs)| == 4 && DecodeLast(Encode(bs)) == Some(bs)
  {
    hide Quad, DecodeQuad;
    if |bs| == 1 {
      ZeroSymbols(bs[0], 0);
      QuadRoundTrip(bs[0], 0, 0);
      assert Encode(bs)[..2] + "AA" == Quad(bs[0], 0, 0);
      assert [bs[0], 0, 0][..1] == bs;
    } else if |bs| == 2 {
      ZeroSymbols(bs[0], bs[1]);
      QuadRoundTrip(bs[0], bs[1], 0);
      var t := Encode(bs);
      assert t[..3] + "A" == Quad(bs[0], bs[1], 0) && t[2] in Quad(bs[0], bs[1], 0) && t[2] != '=';
      assert [bs[0], bs[1], 0][..2] == bs;
    } else {
      var q := Quad(bs[0], bs[1], bs[2]);
      QuadRoundTrip(bs[0], bs[1], bs[2]);
      assert bs[3..] == [] && Encode(bs) == q + "" == q && q[3] in q;
      assert bs == [bs[0], bs[1], bs[2]];
    }
  }

  /** Missing bytes read as zero, whose symbol is `A`. */
  lemma ZeroSymbols(a: Byte, b: Byte)
    ensures Quad(a, 0, 0) == Quad(a, 0, 0)[..2] + "AA" && Quad(a, b, 0) == Quad(a, b, 0)[..3] + "A"
  {
    assert Symbol(0) == 'A';
  }

  lemma {:induction false} DecodeEncode(bs: Bytes)
    ensures Decode(Encode(bs)) == Some(bs)
    decreases |bs|
  {
    if bs == [] {
    } else if |bs| <= 3 {
      LastRoundTrip(bs);
    } else {
      var q := Quad(bs[0], bs[1], bs[2]);
      QuadRoundTrip(bs[0], bs[1], bs[2]);
      DecodeEncode(bs[3..]);
      EncodedLength(bs[3..]);
      hide Quad, DecodeQuad;
      assert Encode(bs)[..4] == q && Encode(bs)[4..] == Encode(bs[3..]);
      assert [bs[0], bs[1], bs[2]] + bs[3..] == bs;
    }
  }

  lemma {:induction false} EncodedLength(bs: Bytes)
    ensures |Encode(bs)| == (|bs| + 2) / 3 * 4
    decreases |bs|
  {
    if |bs| >= 3 {
      EncodeStep(bs);
      EncodedLength(bs[3..]);
      hide Encode, Quad;
    }
  }

  // ---- alignment ----

  lemma EncodeStep(bs: Bytes)
    requires |bs| >= 3
    ensures Encode(bs) == Quad(bs[0], bs[1], bs[2]) + Encode(bs[3..])
  {
    hide Quad;
  }

  /** Joining texts of whole groups is encoding the joined bytes. */
  lemma {:induction false} EncodeConcat(a: Bytes, b: Bytes)
    requires |a| % 3 == 0
    ensures Encode(a + b) == Encode(a) + Encode(b)
    decreases |a|
  {
    if a == [] {
      assert a + b == b;
    } else {
      EncodeConcat(a[3..], b);
      EncodeStep(a);
      EncodeStep(a + b);
      SplitHead(a, b);
      hide Quad, Encode;
      Associates(Quad(a[0], a[1], a[2]), Encode(a[3..]), Encode(b));
    }
  }

  lemma SplitHead(a: Bytes, b: Bytes)
    requires |a| >= 3
    ensures (a + b)[3..] == a[3..] + b && (a + b)[0] == a[0] && (a + b)[1] == a[1] && (a + b)[2] == a[2]
  {}

  lemma Associates(a: string, b: string, c: string)
    ensures a + (b + c) == (a + b) + c
  {}

  /** No padding sign exactly when the bytes come in whole groups. */
  lemma {:induction false} PlainIffAligned(bs: Bytes)
    ensures '=' !in Encode(bs) <==> |bs| % 3 == 0
    decreases |bs|
  {
    if |bs| == 1 || |bs| == 2 {
      EndsPadded(bs);
      hide Encode;
    } else if |bs| >= 3 {
      QuadIsPlain(bs[0], bs[1], bs[2]);
      PlainIffAligned(bs[3..]);
      EncodeStep(bs);
      hide Quad, Encode;
      InJoined('=', Quad(bs[0], bs[1], bs[2]), Encode(bs[3..]));
    }
  }

  lemma EndsPadded(bs: Bytes)
    requires |bs| == 1 || |bs| == 2
    ensures |Encode(bs)| == 4 && Encode(bs)[3] == '='
  {}

  lemma InJoined(c: char, a: string, b: string)
    ensures c in a + b <==> c in a || c in b
  {}
}
