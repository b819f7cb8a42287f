/** The canonical JSON text of a value, and the reader that is its inverse. */
module CanonicalJson {
  // The text (`_json_bytes`) has sorted keys, no spaces and only ASCII; it identifies the value.

  import opened Wrappers

  /** Numbers carry the text Python prints for them; a mapping lists its keys in order. */
  datatype Json =
    | Null
    | Flag(flag: bool)
    | Number(digits: string)
    | Text(text: string)
    | Array(items: seq<Json>)
    | Mapping(entries: seq<Entry>)

  datatype Entry = Entry(key: string, value: Json)

  // ---- what is a canonical value ----

  predicate IsNumberChar(c: char) {
    '0' <= c <= '9' || c == '-' || c == '+' || c == '.' || c == 'e' || c == 'E'
  }

  predicate IsNumber(digits: string) {
    digits != "" && forall i :: 0 <= i < |digits| ==> IsNumberChar(digits[i])
  }

  /** Order of strings by code point. */
  predicate Before(a: string, b: string) {
    b != "" && (a == "" || a[0] < b[0] || (a[0] == b[0] && Before(a[1..], b[1..])))
  }

  predicate KeysInOrder(entries: seq<Entry>) {
    forall i, j :: 0 <= i < j < |entries| ==> Before(entries[i].key, entries[j].key)
  }

  predicate Canonical(v: Json)
    decreases v
  {
    match v
    case Number(digits) => IsNumber(digits)
    case Array(items) => forall i :: 0 <= i < |items| ==> Canonical(items[i])
    case Mapping(entries) => KeysInOrder(entries) && forall i :: 0 <= i < |entries| ==> Canonical(entries[i].value)
    case _ => true
  }

  // ---- printing ----

  function HexDigit(n: nat): char
    requires n < 16
  {
    if n < 10 then ('0' as int + n) as char else ('a' as int + n - 10) as char
  }

  function Hex4(n: nat): string
    requires n < 0x10000
  {
    [HexDigit(n / 0x1000), HexDigit(n / 0x100 % 16), HexDigit(n / 16 % 16), HexDigit(n % 16)]
  }

  /** The two halves of a surrogate pair. */
  function High(n: nat): nat
    requires 0x10000 <= n < 0x110000
  {
    0xD800 + (n - 0x10000) / 0x400
  }

  function Low(n: nat): nat
    requires 0x10000 <= n < 0x110000
  {
    0xDC00 + (n - 0x10000) % 0x400
  }

  /** One character, escaped as `ensure_ascii` asks: outside the basic plane as a surrogate pair. */
  function EscapedChar(c: char): string {
    var n := c as int;
    if c == '"' then "\\\""
    else if c == '\\' then "\\\\"
    else if c == '\n' then "\\n"
    else if c == '\r' then "\\r"
    else if c == '\t' then "\\t"
    else if n == 8 then "\\b"
    else if n == 12 then "\\f"
    else if ' ' <= c <= '~' then [c]
    else if n < 0x10000 then "\\u" + Hex4(n)
    else "\\u" + Hex4(High(n)) + "\\u" + Hex4(Low(n))
  }

  function Escaped(s: string): string {
    if s == "" then "" else EscapedChar(s[0]) + Escaped(s[1..])
  }

  function PrintString(s: string): string {
    "\"" + Escaped(s) + "\""
  }

  function Print(v: Json): string
    decreases v
  {
    match v
    case Null => "null"
    case Flag(flag) => if flag then "true" else "false"
    case Number(digits) => digits
    case Text(text) => PrintString(text)
    case Array(items) => "[" + PrintItems(items, 0) + "]"
    case Mapping(entries) => "{" + PrintEntries(entries, 0) + "}"
  }

  function Comma(i: nat): string {
    if i == 0 then "" else ","
  }

  function PrintItems(items: seq<Json>, i: nat): string
    requires i <= |items|
    decreases items, |items| - i
  {
    if i == |items| then "" else Comma(i) + Print(items[i]) + PrintItems(items, i + 1)
  }

  function PrintEntries(entries: seq<Entry>, i: nat): string
    requires i <= |entries|
    decreases entries, |entries| - i
  {
    if i == |entries| then "" else Comma(i) + PrintEntry(entries[i]) + PrintEntries(entries, i + 1)
  }

  function PrintEntry(e: Entry): string
    decreases e
  {
    PrintString(e.key) + ":" + Print(e.value)
  }

  // ---- reading ----

  function Unhex(c: char): Option<nat> {
    if '0' <= c <= '9' then Some(c as int - '0' as int)
    else if 'a' <= c <= 'f' then Some(c as int - 'a' as int + 10)
    else if 'A' <= c <= 'F' then Some(c as int - 'A' as int + 10)
    else None
  }

  function ReadHex4(t: string): (r: Option<nat>)
    ensures r.Some? ==> |t| >= 4
  {
    if |t| < 4 then None
    else
      match (Unhex(t[0]), Unhex(t[1]), Unhex(t[2]), Unhex(t[3]))
      case (Some(a), Some(b), Some(c), Some(d)) => Some(a * 0x1000 + b * 0x100 + c * 16 + d)
      case _ => None
  }

  /** A character after its escape prefix, with the text that follows it. */
  function ReadUnicode(t: string): (r: Option<(char, string)>)
    ensures r.Some? ==> |r.value.1| < |t|
  {
    match ReadHex4(t)
    case None => None
    case Some(high) =>
      if 0xD800 <= high < 0xDC00 then
        if |t| < 6 || t[4..6] != "\\u" then None
        else
          match ReadHex4(t[6..])
          case Some(low) =>
            if 0xDC00 <= low < 0xE000 then
              Some(((0x10000 + (high - 0xD800) * 0x400 + (low - 0xDC00)) as char, t[10..]))
            else None
          case None => None
      else if 0xDC00 <= high < 0xE000 || high >= 0x10000 then None
      else Some((high as char, t[4..]))
  }

  function ReadEscape(t: string): (r: Option<(char, string)>)
    ensures r.Some? ==> |r.value.1| < |t|
  {
    if t == "" then None
    else if t[0] == '"' || t[0] == '\\' || t[0] == '/' then Some((t[0], t[1..]))
    else if t[0] == 'n' then Some(('\n', t[1..]))
    else if t[0] == 'r' then Some(('\r', t[1..]))
    else if t[0] == 't' then Some(('\t', t[1..]))
    else if t[0] == 'b' then Some((8 as char, t[1..]))
    else if t[0] == 'f' then Some((12 as char, t[1..]))
    else if t[0] == 'u' then ReadUnicode(t[1..])
    else None
  }

  function ReadChar(t: string): (r: Option<(char, string)>)
    ensures r.Some? ==> |r.value.1| < |t|
  {
    if t == "" || t[0] < ' ' || t[0] == '"' then None
    else if t[0] == '\\' then ReadEscape(t[1..])
    else Some((t[0], t[1..]))
  }

  /** A string up to and past its closing quote. */
  function ReadChars(t: string): (r: Option<(string, string)>)
    ensures r.Some? ==> |r.value.1| < |t|
    decreases |t|
  {
    if t != "" && t[0] == '"' then Some(("", t[1..]))
    else
      match ReadChar(t)
      case None => None
      case Some((c, rest)) =>
        match ReadChars(rest)
        case None => None
        case Some((s, after)) => Some(([c] + s, after))
  }

  function NumberLength(t: string): (n: nat)
    ensures n <= |t|
  {
    if t == "" || !IsNumberChar(t[0]) then 0 else 1 + NumberLength(t[1..])
  }

  function Read(t: string): (r: Option<(Json, string)>)
    ensures r.Some? ==> |r.value.1| < |t|
    decreases |t|, 1
  {
    if t == "" then None
    else if t[0] == '"' then
      match ReadChars(t[1..])
      case Some((s, rest)) => Some((Text(s), rest))
      case None => None
    else if t[0] == '[' then
      match ReadItems(t[1..], true)
      case Some((items, rest)) => Some((Array(items), rest))
      case None => None
    else if t[0] == '{' then
      match ReadEntries(t[1..], true)
      case Some((entries, rest)) => Some((Mapping(entries), rest))
      case None => None
    else if IsNumberChar(t[0]) then Some((Number(t[..NumberLength(t)]), t[NumberLength(t)..]))
    else if "null" <= t then Some((Null, t[4..]))
    else if "true" <= t then Some((Flag(true), t[4..]))
    else if "false" <= t then Some((Flag(false), t[5..]))
    else None
  }

  /** Items up to the closing bracket; all but the first follow a comma. */
  function ReadItems(t: string, first: bool): (r: Option<(seq<Json>, string)>)
    ensures r.Some? ==> |r.value.1| < |t|
    decreases |t|, 2
  {
    if t == "" then None
    else if t[0] == ']' then Some(([], t[1..]))
    else if !first && t[0] != ',' then None
    else
      match Read(if first then t else t[1..])
      case None => None
      case Some((v, rest)) =>
        match ReadItems(rest, false)
        case None => None
        case Some((vs, after)) => Some(([v] + vs, after))
  }

  function ReadEntries(t: string, first: bool): (r: Option<(seq<Entry>, string)>)
    ensures r.Some? ==> |r.value.1| < |t|
    decreases |t|, 2
  {
    if t == "" then None
    else if t[0] == '}' then Some(([], t[1..]))
    else if !first && t[0] != ',' then None
    else
      match ReadEntry(if first then t else t[1..])
      case None => None
      case Some((e, rest)) =>
        match ReadEntries(rest, false)
        case None => None
        case Some((es, after)) => Some(([e] + es, after))
  }

  function ReadEntry(t: string): (r: Option<(Entry, string)>)
    ensures r.Some? ==> |r.value.1| < |t|
    decreases |t|, 0
  {
    if t == "" || t[0] != '"' then None
    else
      match ReadChars(t[1..])
      case None => None
      case Some((key, colon)) =>
        if colon == "" || colon[0] != ':' then None
        else
          match Read(colon[1..])
          case None => None
          case Some((v, rest)) => Some((Entry(key, v), rest))
  }

  /** `json.loads` of a whole text. */
  function Parse(t: string): Option<Json> {
    match Read(t)
    case Some((v, rest)) => if rest == "" then Some(v) else None
    case None => None
  }

  // ---- the reader undoes the printer ----

  lemma HexRoundTrip(n: nat, rest: string)
    requires n < 0x10000
    ensures |Hex4(n)| == 4 && ReadHex4(Hex4(n) + rest) == Some(n)
  {
    var a, b, c, d := n / 0x1000, n / 0x100 % 16, n / 16 % 16, n % 16;
    Nibbles(n);
    UnhexDigit(a);
    UnhexDigit(b);
    UnhexDigit(c);
    UnhexDigit(d);
    hide HexDigit, Unhex;
    var t := Hex4(n) + rest;
    assert t[0] == HexDigit(a) && t[1] == HexDigit(b) && t[2] == HexDigit(c) && t[3] == HexDigit(d);
  }

  lemma Nibbles(n: nat)
    requires n < 0x10000
    ensures n / 0x1000 < 16
    ensures n / 0x1000 * 0x1000 + n / 0x100 % 16 * 0x100 + n / 16 % 16 * 16 + n % 16 == n
  {
    assert n / 0x100 == n / 16 / 16 && n / 0x1000 == n / 16 / 16 / 16;
  }

  lemma UnhexDigit(n: nat)
    requires n < 16
    ensures Unhex(HexDigit(n)) == Some(n)
  {}

  lemma PlainUnicode(n: nat, rest: string)
    requires n < 0xD800 || 0xE000 <= n < 0x10000
    ensures ReadUnicode(Hex4(n) + rest) == Some((n as char, rest))
  {
    HexRoundTrip(n, rest);
    hide Hex4, ReadHex4;
    assert (Hex4(n) + rest)[4..] == rest;
  }

  lemma Halves(n: nat)
    requires 0x10000 <= n < 0x110000
    ensures 0xD800 <= High(n) < 0xDC00 && 0xDC00 <= Low(n) < 0xE000
    ensures 0x10000 + (High(n) - 0xD800) * 0x400 + (Low(n) - 0xDC00) == n
  {}

  lemma PairUnicode(n: nat, rest: string)
    requires 0x10000 <= n < 0x110000
    ensures High(n) < 0x10000 && Low(n) < 0x10000
    ensures ReadUnicode(Hex4(High(n)) + ("\\u" + Hex4(Low(n)) + rest)) == Some((n as char, rest))
  {
    Halves(n);
    hide High, Low;
    var tail := "\\u" + Hex4(Low(n)) + rest;
    var t := Hex4(High(n)) + tail;
    HexRoundTrip(High(n), tail);
    HexRoundTrip(Low(n), rest);
    hide Hex4, ReadHex4, ReadUnicode;
    assert t[4..6] == "\\u" && t[6..] == Hex4(Low(n)) + rest && t[10..] == rest;
    ReadPair(t, High(n), Low(n), rest);
  }

  lemma ReadPair(t: string, high: nat, low: nat, rest: string)
    requires |t| >= 10 && ReadHex4(t) == Some(high) && t[4..6] == "\\u" && ReadHex4(t[6..]) == Some(low)
    requires t[10..] == rest
    requires 0xD800 <= high < 0xDC00 && 0xDC00 <= low < 0xE000
    ensures ReadUnicode(t) == Some(((0x10000 + (high - 0xD800) * 0x400 + (low - 0xDC00)) as char, rest))
  {
    hide ReadHex4;
  }

  lemma ShortEscape(c: char, letter: char, rest: string)
    requires EscapedChar(c) == ['\\', letter]
    requires ReadEscape([letter] + rest) == Some((c, rest))
    ensures ReadChar(EscapedChar(c) + rest) == Some((c, rest))
  {
    hide EscapedChar, ReadEscape;
    assert (EscapedChar(c) + rest)[1..] == [letter] + rest;
  }

  lemma LetterEscape(c: char, letter: char, rest: string)
    requires (c, letter) in {('"', '"'), ('\\', '\\'), ('\n', 'n'), ('\r', 'r'), ('\t', 't'), (8 as char, 'b'),
                             (12 as char, 'f')}
    ensures ReadEscape([letter] + rest) == Some((c, rest))
  {
    assert ([letter] + rest)[1..] == rest;
  }

  lemma LongEscape(c: char, code: string, rest: string)
    requires EscapedChar(c) == "\\u" + code && ReadUnicode(code + rest) == Some((c, rest))
    ensures ReadChar(EscapedChar(c) + rest) == Some((c, rest))
  {
    hide EscapedChar, ReadUnicode;
    var t := EscapedChar(c) + rest;
    assert t[0] == '\\';
    assert t[1..] == "u" + (code + rest);
    assert t[1..][1..] == code + rest;
  }

  lemma CharRoundTrip(c: char, rest: string)
    ensures ReadChar(EscapedChar(c) + rest) == Some((c, rest))
  {
    hide ReadEscape, ReadUnicode, Hex4;
    var n := c as int;
    if c == '"' || c == '\\' || c == '\n' || c == '\r' || c == '\t' || n == 8 || n == 12 {
      LetterEscape(c, EscapedChar(c)[1], rest);
      ShortEscape(c, EscapedChar(c)[1], rest);
    } else if ' ' <= c <= '~' {
      assert ([c] + rest)[1..] == rest;
    } else if n < 0x10000 {
      PlainUnicode(n, rest);
      LongEscape(c, Hex4(n), rest);
    } else {
      PairUnicode(n, rest);
      var code := Hex4(High(n)) + "\\u" + Hex4(Low(n));
      assert code + rest == Hex4(High(n)) + ("\\u" + Hex4(Low(n)) + rest);
      assert EscapedChar(c) == "\\u" + code;
      LongEscape(c, code, rest);
    }
  }

  lemma EscapeStarts(c: char)
    ensures EscapedChar(c) != "" && EscapedChar(c)[0] != '"'
  {}

  lemma {:induction false} CharsRoundTrip(s: string, rest: string)
    ensures ReadChars(Escaped(s) + "\"" + rest) == Some((s, rest))
    decreases |s|
  {
    hide EscapedChar, ReadChar;
    var t := Escaped(s) + "\"" + rest;
    if s == "" {
      assert t == "\"" + rest;
    } else {
      var after := Escaped(s[1..]) + "\"" + rest;
      assert t == EscapedChar(s[0]) + after;
      CharRoundTrip(s[0], after);
      CharsRoundTrip(s[1..], rest);
      assert t[0] != '"' by { EscapeStarts(s[0]); }
      assert s == [s[0]] + s[1..];
    }
  }

  lemma StringRoundTrip(s: string, rest: string)
    ensures ReadChars((PrintString(s) + rest)[1..]) == Some((s, rest)) && (PrintString(s) + rest)[0] == '"'
  {
    assert (PrintString(s) + rest)[1..] == Escaped(s) + "\"" + rest;
    CharsRoundTrip(s, rest);
  }

  /** Text after a value must not continue a number. */
  predicate Stops(rest: string) {
    rest == "" || !IsNumberChar(rest[0])
  }

  lemma {:induction false} NumberStops(digits: string, rest: string)
    requires (forall i :: 0 <= i < |digits| ==> IsNumberChar(digits[i])) && Stops(rest)
    ensures NumberLength(digits + rest) == |digits|
    decreases |digits|
  {
    if digits == "" {
      assert digits + rest == rest;
    } else {
      assert (digits + rest)[1..] == digits[1..] + rest;
      NumberStops(digits[1..], rest);
    }
  }

  lemma {:induction false} ReadPrinted(v: Json, rest: string)
    requires Canonical(v) && Stops(rest)
    ensures Read(Print(v) + rest) == Some((v, rest))
    decreases v
  {
    hide Read, KeysInOrder, Stops;
    match v
    case Array(items) =>
      hide ReadItems, PrintItems;
      ReadPrintedItems(items, 0, rest);
      assert Print(v) == "[" + (PrintItems(items, 0) + "]");
      ReadBrackets(items, PrintItems(items, 0) + "]", rest);
    case Mapping(entries) =>
      hide ReadEntries, PrintEntries;
      ReadPrintedEntries(entries, 0, rest);
      assert Print(v) == "{" + (PrintEntries(entries, 0) + "}");
      ReadBraces(entries, PrintEntries(entries, 0) + "}", rest);
    case _ => ReadPlain(v, rest);
  }

  lemma ReadPlain(v: Json, rest: string)
    requires Canonical(v) && Stops(rest) && !v.Array? && !v.Mapping?
    ensures Read(Print(v) + rest) == Some((v, rest))
  {
    hide ReadChars, ReadItems, ReadEntries, Stops;
    var t := Print(v) + rest;
    match v
    case Null => assert t[4..] == rest;
    case Flag(flag) => assert if flag then t[4..] == rest else t[5..] == rest;
    case Number(digits) =>
      NumberStops(digits, rest);
      assert t[..|digits|] == digits && t[|digits|..] == rest;
    case Text(text) => StringRoundTrip(text, rest);
  }

  lemma ReadBrackets(items: seq<Json>, inner: string, rest: string)
    requires ReadItems(inner + rest, true) == Some((items, rest))
    ensures Read("[" + inner + rest) == Some((Array(items), rest)) && "[" + inner + rest == "[" + (inner + rest)
  {
    hide ReadItems;
    assert ("[" + inner + rest)[1..] == inner + rest;
  }

  lemma ReadBraces(entries: seq<Entry>, inner: string, rest: string)
    requires ReadEntries(inner + rest, true) == Some((entries, rest))
    ensures Read("{" + inner + rest) == Some((Mapping(entries), rest)) && "{" + inner + rest == "{" + (inner + rest)
  {
    hide ReadEntries;
    assert ("{" + inner + rest)[1..] == inner + rest;
  }

  lemma {:induction false} ReadPrintedItems(items: seq<Json>, i: nat, rest: string)
    requires i <= |items| && forall k :: 0 <= k < |items| ==> Canonical(items[k])
    ensures ReadItems(PrintItems(items, i) + "]" + rest, i == 0) == Some((items[i..], rest))
    decreases items, |items| - i
  {
    hide Print, Read, Canonical;
    var t := PrintItems(items, i) + "]" + rest;
    if i == |items| {
      assert t == "]" + rest && items[i..] == [];
    } else {
      hide ReadItems;
      var after := PrintItems(items, i + 1) + "]" + rest;
      assert t == Comma(i) + (Print(items[i]) + after);
      hide PrintItems;
      FirstOfItems(items, i + 1, rest);
      ReadPrinted(items[i], after);
      ReadPrintedItems(items, i + 1, rest);
      PrintedStart(items[i], after);
      OneItem(Print(items[i]) + after, i == 0, items[i], after, items[i + 1..], rest);
      assert items[i..] == [items[i]] + items[i + 1..];
    }
  }

  /** One item at the front of a text, after a comma unless it is the first. */
  lemma OneItem(t: string, first: bool, v: Json, after: string, vs: seq<Json>, rest: string)
    requires Read(t) == Some((v, after)) && ReadItems(after, false) == Some((vs, rest))
    requires t != "" && t[0] !in {']', '}', ','}
    ensures ReadItems((if first then "" else ",") + t, first) == Some(([v] + vs, rest))
  {
    hide Read;
    assert "" + t == t && ("," + t)[1..] == t;
  }

  lemma FirstOfItems(items: seq<Json>, i: nat, rest: string)
    requires 0 < i <= |items|
    ensures Stops(PrintItems(items, i) + "]" + rest)
  {}

  lemma PrintedStart(v: Json, rest: string)
    requires Canonical(v)
    ensures Print(v) != "" && (Print(v) + rest)[0] !in {']', '}', ','}
  {
    hide PrintItems, PrintEntries, KeysInOrder;
  }

  lemma {:induction false} ReadPrintedEntries(entries: seq<Entry>, i: nat, rest: string)
    requires i <= |entries| && forall k :: 0 <= k < |entries| ==> Canonical(entries[k].value)
    ensures ReadEntries(PrintEntries(entries, i) + "}" + rest, i == 0) == Some((entries[i..], rest))
    decreases entries, |entries| - i
  {
    hide PrintEntry, ReadEntry, Canonical;
    var t := PrintEntries(entries, i) + "}" + rest;
    if i == |entries| {
      assert t == "}" + rest && entries[i..] == [];
    } else {
      hide ReadEntries;
      var after := PrintEntries(entries, i + 1) + "}" + rest;
      assert t == Comma(i) + (PrintEntry(entries[i]) + after);
      hide PrintEntries;
      FirstOfEntries(entries, i + 1, rest);
      ReadPrintedEntry(entries[i], after);
      ReadPrintedEntries(entries, i + 1, rest);
      OneEntry(PrintEntry(entries[i]) + after, i == 0, entries[i], after, entries[i + 1..], rest);
      assert entries[i..] == [entries[i]] + entries[i + 1..];
    }
  }

  /** One entry at the front of a text, after a comma unless it is the first. */
  lemma OneEntry(t: string, first: bool, e: Entry, after: string, es: seq<Entry>, rest: string)
    requires ReadEntry(t) == Some((e, after)) && ReadEntries(after, false) == Some((es, rest))
    requires t != "" && t[0] == '"'
    ensures ReadEntries((if first then "" else ",") + t, first) == Some(([e] + es, rest))
  {
    hide ReadEntry;
    assert "" + t == t && ("," + t)[1..] == t;
  }

  lemma FirstOfEntries(entries: seq<Entry>, i: nat, rest: string)
    requires 0 < i <= |entries|
    ensures Stops(PrintEntries(entries, i) + "}" + rest)
  {}

  lemma {:induction false} ReadPrintedEntry(e: Entry, rest: string)
    requires Canonical(e.value) && Stops(rest)
    ensures ReadEntry(PrintEntry(e) + rest) == Some((e, rest)) && (PrintEntry(e) + rest)[0] == '"'
    decreases e
  {
    hide Print, Read, ReadChars, PrintString, Stops;
    var after := ":" + Print(e.value) + rest;
    assert PrintEntry(e) + rest == PrintString(e.key) + after;
    StringRoundTrip(e.key, after);
    assert after[1..] == Print(e.value) + rest;
    ReadPrinted(e.value, rest);
  }

  /** Reading the canonical text gives the value back. */
  lemma ParsePrint(v: Json)
    requires Canonical(v)
    ensures Parse(Print(v)) == Some(v)
  {
    assert Print(v) + "" == Print(v);
    hide Print, Read;
    ReadPrinted(v, "");
  }

  /** So the canonical text identifies the value. */
  lemma PrintInjective(v: Json, w: Json)
    requires Canonical(v) && Canonical(w) && Print(v) == Print(w)
    ensures v == w
  {
    hide Print, Parse;
    ParsePrint(v);
    ParsePrint(w);
  }

  // ---- the text is plain ASCII ----

  predicate IsAscii(t: string) {
    forall i :: 0 <= i < |t| ==> ' ' <= t[i] <= '~'
  }

  lemma AsciiConcat(a: string, b: string)
    requires IsAscii(a) && IsAscii(b)
    ensures IsAscii(a + b)
  {}

  lemma {:induction false} EscapedIsAscii(s: string)
    ensures IsAscii(Escaped(s))
    decreases |s|
  {
    if s != "" {
      CharIsAscii(s[0]);
      EscapedIsAscii(s[1..]);
    }
  }

  lemma CharIsAscii(c: char)
    ensures IsAscii(EscapedChar(c))
  {
    var n := c as int;
    if n >= 0x10000 {
      HexIsAscii(High(n));
      HexIsAscii(Low(n));
    } else {
      HexIsAscii(n);
    }
  }

  lemma HexIsAscii(n: nat)
    requires n < 0x10000
    ensures IsAscii(Hex4(n))
  {}

  lemma {:induction false} PrintIsAscii(v: Json)
    requires Canonical(v)
    ensures IsAscii(Print(v))
    decreases v
  {
    hide PrintItems, PrintEntries, KeysInOrder;
    match v
    case Text(text) => EscapedIsAscii(text);
    case Array(items) => ItemsAreAscii(items, 0);
    case Mapping(entries) => EntriesAreAscii(entries, 0);
    case _ =>
  }

  lemma CommaIsAscii(i: nat)
    ensures IsAscii(Comma(i))
  {}

  lemma {:induction false} ItemsAreAscii(items: seq<Json>, i: nat)
    requires i <= |items| && forall k :: 0 <= k < |items| ==> Canonical(items[k])
    ensures IsAscii(PrintItems(items, i))
    decreases items, |items| - i
  {
    hide Canonical, Print, IsAscii;
    if i == |items| {
      CommaIsAscii(0);
    } else {
      PrintIsAscii(items[i]);
      ItemsAreAscii(items, i + 1);
      CommaIsAscii(i);
      AsciiConcat(Comma(i), Print(items[i]));
      AsciiConcat(Comma(i) + Print(items[i]), PrintItems(items, i + 1));
    }
  }

  lemma StringIsAscii(s: string)
    ensures IsAscii(PrintString(s))
  {
    EscapedIsAscii(s);
    hide Escaped;
  }

  lemma {:induction false} EntryIsAscii(e: Entry)
    requires Canonical(e.value)
    ensures IsAscii(PrintEntry(e))
    decreases e
  {
    StringIsAscii(e.key);
    PrintIsAscii(e.value);
    assert IsAscii(":");
    hide Canonical, Print, PrintString, IsAscii;
    AsciiConcat(PrintString(e.key), ":");
    AsciiConcat(PrintString(e.key) + ":", Print(e.value));
  }

  lemma {:induction false} EntriesAreAscii(entries: seq<Entry>, i: nat)
    requires i <= |entries| && forall k :: 0 <= k < |entries| ==> Canonical(entries[k].value)
    ensures IsAscii(PrintEntries(entries, i))
    decreases entries, |entries| - i
  {
    hide Canonical, PrintEntry, IsAscii;
    if i == |entries| {
      CommaIsAscii(0);
    } else {
      EntryIsAscii(entries[i]);
      EntriesAreAscii(entries, i + 1);
      CommaIsAscii(i);
      AsciiConcat(Comma(i), PrintEntry(entries[i]));
      AsciiConcat(Comma(i) + PrintEntry(entries[i]), PrintEntries(entries, i + 1));
    }
  }
}
