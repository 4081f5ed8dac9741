/** The stored form of a response (the end of dispatch in internal/server/requests.go): truncation, the choice of
    encoding, base64 and the size of the JSON string. */
module Results {
  import opened Prelude
  import opened Strings
  import opened Requests
  import opened Tables

  const LIMIT := 1024 * 1024

  predicate Bytes(b: string) {
    forall i | 0 <= i < |b| :: b[i] as int < 256
  }

  // ---------- base64.StdEncoding, section 4 of RFC 4648 ----------

  function Digit(n: int): (c: char)
    requires 0 <= n < 64
    ensures c != '=' && Value(c) == Some(n)
  {
    if n < 26 then ('A' as int + n) as char
    else if n < 52 then ('a' as int + n - 26) as char
    else if n < 62 then ('0' as int + n - 52) as char
    else if n == 62 then '+' else '/'
  }

  function Value(c: char): Option<int> {
    if 'A' <= c <= 'Z' then Some(c as int - 'A' as int)
    else if 'a' <= c <= 'z' then Some(c as int - 'a' as int + 26)
    else if '0' <= c <= '9' then Some(c as int - '0' as int + 52)
    else if c == '+' then Some(62)
    else if c == '/' then Some(63)
    else None
  }

  /** The alphabet of that section. */
  lemma Alphabet(n: int)
    requires 0 <= n < 64
    ensures n < 26 ==> Digit(n) == "ABCDEFGHIJKLMNOPQRSTUVWXYZ"[n]
    ensures 26 <= n < 52 ==> Digit(n) == "abcdefghijklmnopqrstuvwxyz"[n - 26]
    ensures 52 <= n < 62 ==> Digit(n) == "0123456789"[n - 52]
    ensures n >= 62 ==> Digit(n) == "+/"[n - 62]
  {
  }

  /** One to three bytes as four characters. */
  function EncodeGroup(g: string): (s: string)
    requires 1 <= |g| <= 3 && Bytes(g)
    ensures |s| == 4
  {
    var x := g[0] as int;
    var y := if |g| > 1 then g[1] as int else 0;
    var z := if |g| > 2 then g[2] as int else 0;
    [Digit(x / 4), Digit(x % 4 * 16 + y / 16),
     if |g| > 1 then Digit(y % 16 * 4 + z / 64) else '=',
     if |g| > 2 then Digit(z % 64) else '=']
  }

  function HeadSize(b: string): nat {
    if |b| < 3 then |b| else 3
  }

  function Encode(b: string): string
    requires Bytes(b)
    decreases |b|
  {
    if b == "" then "" else EncodeGroup(b[..HeadSize(b)]) + Encode(b[HeadSize(b)..])
  }

  /** One group of four characters: one to three bytes. */
  function Group(a: char, b: char, c: char, d: char): Option<string> {
    match (Value(a), Value(b), Value(c), Value(d))
    case (Some(p), Some(q), Some(r), Some(s)) =>
      Some([(p * 4 + q / 16) as char, (q % 16 * 16 + r / 4) as char, (r % 4 * 64 + s) as char])
    case (Some(p), Some(q), Some(r), None) =>
      if d == '=' then Some([(p * 4 + q / 16) as char, (q % 16 * 16 + r / 4) as char]) else None
    case (Some(p), Some(q), None, None) =>
      if c == '=' && d == '=' then Some([(p * 4 + q / 16) as char]) else None
    case _ => None
  }

  function Prepend(head: Option<string>, tail: Option<string>): Option<string> {
    match (head, tail)
    case (Some(a), Some(b)) => Some(a + b)
    case _ => None
  }

  /** A reader of base64; like most it accepts more than Encode writes. */
  function Decode(s: string): Option<string> {
    if s == "" then Some("")
    else if |s| < 4 then None
    else Prepend(Group(s[0], s[1], s[2], s[3]), Decode(s[4..]))
  }

  /** Splitting three bytes into four sextets loses nothing. */
  lemma Sextets(x: int, y: int, z: int)
    requires 0 <= x < 256 && 0 <= y < 256 && 0 <= z < 256
    ensures x / 4 * 4 + (x % 4 * 16 + y / 16) / 16 == x
    ensures (x % 4 * 16 + y / 16) % 16 * 16 + (y % 16 * 4 + z / 64) / 4 == y
    ensures (y % 16 * 4 + z / 64) % 4 * 64 + z % 64 == z
  {
    assert (x % 4 * 16 + y / 16) / 16 == x % 4 && (x % 4 * 16 + y / 16) % 16 == y / 16;
    assert (y % 16 * 4 + z / 64) / 4 == y % 16 && (y % 16 * 4 + z / 64) % 4 == z / 64;
  }

  /** Four characters are the digits, in base 64, of the number whose digits in base 256 are the bytes, missing ones
      counted as zero and written as padding. */
  lemma GroupExact(g: string)
    requires 1 <= |g| <= 3 && Bytes(g)
    ensures var s := EncodeGroup(g);
            var y, z := if |g| > 1 then g[1] as int else 0, if |g| > 2 then g[2] as int else 0;
            var n := g[0] as int * 65536 + y * 256 + z;
            s[0] == Digit(n / 262144) && s[1] == Digit(n / 4096 % 64)
            && s[2] == (if |g| > 1 then Digit(n / 64 % 64) else '=') && s[3] == if |g| > 2 then Digit(n % 64) else '='
  {
    hide Digit;
    var x, y, z := g[0] as int, if |g| > 1 then g[1] as int else 0, if |g| > 2 then g[2] as int else 0;
    Base64Digits(x, y, z);
  }

  lemma Base64Digits(x: int, y: int, z: int)
    requires 0 <= x < 256 && 0 <= y < 256 && 0 <= z < 256
    ensures var n := x * 65536 + y * 256 + z;
            0 <= n / 262144 < 64 && n / 262144 == x / 4 && n / 4096 % 64 == x % 4 * 16 + y / 16
            && n / 64 % 64 == y % 16 * 4 + z / 64 && n % 64 == z % 64
  {
    var n := x * 65536 + y * 256 + z;
    assert n / 64 == x * 1024 + y * 4 + z / 64;
    assert n / 4096 == x * 16 + y / 16;
    assert n / 262144 == x / 4;
  }

  /** The sextets of three bytes, and the three bytes back from their sextets. */
  lemma GroupDecodes(g: string)
    requires 1 <= |g| <= 3 && Bytes(g)
    ensures var s := EncodeGroup(g); Group(s[0], s[1], s[2], s[3]) == Some(g)
  {
    hide Digit, Value;
    assert Value('=') == None by { PadHasNoValue(); }
    var x := g[0] as int;
    var y := if |g| > 1 then g[1] as int else 0;
    var z := if |g| > 2 then g[2] as int else 0;
    Sextets(x, y, z);
    if |g| == 1 {
      assert g == [x as char];
    } else if |g| == 2 {
      assert g == [x as char, y as char];
    } else {
      assert g == [x as char, y as char, z as char];
    }
  }

  lemma PadHasNoValue()
    ensures Value('=') == None
  {
  }

  lemma DecodeFour(s: string, rest: string)
    requires |s| == 4
    ensures Decode(s + rest) == Prepend(Group(s[0], s[1], s[2], s[3]), Decode(rest))
  {
    hide Group;
    var text := s + rest;
    assert text[4..] == rest;
    assert text[0] == s[0] && text[1] == s[1] && text[2] == s[2] && text[3] == s[3];
  }

  lemma {:induction false} DecodeEncode(b: string)
    requires Bytes(b)
    ensures Decode(Encode(b)) == Some(b)
    decreases |b|
  {
    hide EncodeGroup, Group, Decode;
    if b == "" {
      assert Decode("") == Some("") by { DecodeEmpty(); }
    } else {
      var head, tail := b[..HeadSize(b)], b[HeadSize(b)..];
      GroupDecodes(head);
      DecodeEncode(tail);
      DecodeFour(EncodeGroup(head), Encode(tail));
      assert head + tail == b;
    }
  }

  lemma DecodeEmpty()
    ensures Decode("") == Some("")
  {
  }

  // ---------- json.Marshal of a string, section 7 of RFC 8259 with Go's HTML escapes ----------

  predicate ShortEscape(c: char) {
    c == '"' || c == '\\' || c as int in {8, 9, 10, 12, 13}
  }

  predicate LongEscape(c: char) {
    c as int < 32 || c == '<' || c == '>' || c == '&'
  }

  function ShortLetter(c: char): char {
    match c as int
    case 8 => 'b'
    case 9 => 't'
    case 10 => 'n'
    case 12 => 'f'
    case 13 => 'r'
    case _ => c
  }

  function Hex(n: int): char
    requires 0 <= n < 16
  {
    if n < 10 then ('0' as int + n) as char else ('a' as int + n - 10) as char
  }

  /** U+2028 and U+2029, which end a line in JavaScript. */
  predicate LineSeparator(s: string) {
    RuneLength(s) == 3 && s[0] as int == 0xE2 && s[1] as int == 0x80 && s[2] as int in {0xA8, 0xA9}
  }

  function Advance(s: string): (n: nat)
    requires s != ""
    ensures 1 <= n <= |s|
  {
    if RuneLength(s) == 0 then 1 else RuneLength(s)
  }

  /** The JSON form of the first rune: an escape, or the rune itself. A byte outside UTF-8 becomes U+FFFD. */
  function Piece(s: string): string
    requires s != ""
  {
    if RuneLength(s) == 0 then "\\ufffd"
    else if RuneLength(s) == 1 && ShortEscape(s[0]) then ['\\', ShortLetter(s[0])]
    else if RuneLength(s) == 1 && LongEscape(s[0]) then "\\u00" + [Hex(s[0] as int / 16), Hex(s[0] as int % 16)]
    else if LineSeparator(s) then "\\u202" + [Hex(s[2] as int - 0xA0)]
    else s[..RuneLength(s)]
  }

  function Content(s: string): string
    decreases |s|
  {
    if s == "" then "" else Piece(s) + Content(s[Advance(s)..])
  }

  /** json.Marshal of a string. */
  function Quote(s: string): string {
    "\"" + Content(s) + "\""
  }

  /** Which ASCII bytes are written as themselves, in two bytes, and in six. */
  lemma AsciiContent(c: char)
    requires c as int < 128
    ensures |Content([c])| == if c in "\"\\" || c as int in {8, 9, 10, 12, 13} then 2
                              else if c as int < 32 || c in "<>&" then 6 else 1
  {
    assert [c][1..] == [] && Content([]) == "";
    assert |Piece([c])| == |Content([c])|;
  }

  // ---------- reading a JSON string ----------

  function ShortValue(c: char): Option<char> {
    match c
    case 'b' => Some(8 as char)
    case 't' => Some(9 as char)
    case 'n' => Some(10 as char)
    case 'f' => Some(12 as char)
    case 'r' => Some(13 as char)
    case '"' => Some('"')
    case '\\' => Some('\\')
    case '/' => Some('/')
    case _ => None
  }

  /** The UTF-8 form of a code unit; Quote never writes half of a surrogate pair. */
  function Utf8(code: int): string
    requires 0 <= code < 0x10000
  {
    if code < 0x80 then [code as char]
    else if code < 0x800 then [(0xC0 + code / 64) as char, (0x80 + code % 64) as char]
    else [(0xE0 + code / 4096) as char, (0x80 + code / 64 % 64) as char, (0x80 + code % 64) as char]
  }

  function Unit(a: char, b: char, c: char, d: char): Option<string> {
    match (HexValue(a), HexValue(b), HexValue(c), HexValue(d))
    case (Some(p), Some(q), Some(r), Some(s)) => Some(Utf8(p * 4096 + q * 256 + r * 16 + s))
    case _ => None
  }

  predicate Raw(c: char) {
    c as int >= 32 && c != '"' && c != '\\'
  }

  /** What the text between the quotes of a JSON string stands for. */
  function Read(t: string): Option<string>
    decreases |t|
  {
    if t == "" then Some("")
    else if Raw(t[0]) then Prepend(Some([t[0]]), Read(t[1..]))
    else if t[0] != '\\' || |t| < 2 then None
    else if t[1] != 'u' then
      Prepend(match ShortValue(t[1]) case Some(c) => Some([c]) case None => None, Read(t[2..]))
    else if |t| < 6 then None
    else Prepend(Unit(t[2], t[3], t[4], t[5]), Read(t[6..]))
  }

  function Unquote(t: string): Option<string> {
    if |t| >= 2 && t[0] == '"' && t[|t| - 1] == '"' then Read(t[1..|t| - 1]) else None
  }

  lemma PrependTwice(a: string, b: string, tail: Option<string>)
    ensures Prepend(Some(a), Prepend(Some(b), tail)) == Prepend(Some(a + b), tail)
  {
    if tail.Some? { Associative(a, b, tail.value); }
  }

  lemma PrependNothing(tail: Option<string>)
    ensures Prepend(Some(""), tail) == tail
  {
    if tail.Some? { assert "" + tail.value == tail.value; }
  }

  lemma ReadOne(u: string)
    requires u != "" && Raw(u[0])
    ensures Read(u) == Prepend(Some([u[0]]), Read(u[1..]))
  {
  }

  lemma {:induction false} ReadRaw(a: string, t: string)
    requires forall c | c in a :: Raw(c)
    ensures Read(a + t) == Prepend(Some(a), Read(t))
  {
    hide Read, Prepend, Raw;
    if a == "" {
      assert a + t == t;
      PrependNothing(Read(t));
    } else {
      assert Raw(a[0]);
      ReadOne(a + t);
      assert (a + t)[0] == a[0] && (a + t)[1..] == a[1..] + t;
      ReadRaw(a[1..], t);
      PrependTwice([a[0]], a[1..], Read(t));
      assert [a[0]] + a[1..] == a;
    }
  }

  lemma ReadShort(c: char, t: string)
    requires ShortEscape(c)
    ensures Read(['\\', ShortLetter(c)] + t) == Prepend(Some([c]), Read(t))
  {
    var text := ['\\', ShortLetter(c)] + t;
    assert text[2..] == t;
  }

  lemma HexReads(n: int)
    requires 0 <= n < 16
    ensures HexValue(Hex(n)) == Some(n)
  {
  }

  lemma ReadUnit(a: char, b: char, c: char, d: char, t: string)
    ensures Read(['\\', 'u', a, b, c, d] + t) == Prepend(Unit(a, b, c, d), Read(t))
  {
    hide Unit, ShortValue;
    var text := ['\\', 'u', a, b, c, d] + t;
    assert text[6..] == t;
  }

  lemma ReadLong(c: char, t: string)
    requires c as int < 128
    ensures Read("\\u00" + [Hex(c as int / 16), Hex(c as int % 16)] + t) == Prepend(Some([c]), Read(t))
  {
    hide Read, Hex, Prepend;
    var n := c as int;
    HexReads(n / 16);
    HexReads(n % 16);
    HexReads(0);
    assert HexValue('0') == Some(0);
    assert "\\u00" + [Hex(n / 16), Hex(n % 16)] == ['\\', 'u', '0', '0', Hex(n / 16), Hex(n % 16)];
    assert n / 16 * 16 + n % 16 == n;
    ReadUnit('0', '0', Hex(n / 16), Hex(n % 16), t);
  }

  lemma ReadSeparator(s: string, t: string)
    requires |s| >= 3 && LineSeparator(s)
    ensures Read("\\u202" + [Hex(s[2] as int - 0xA0)] + t) == Prepend(Some(s[..3]), Read(t))
  {
    hide Read, Hex, Prepend, RuneLength;
    var n := s[2] as int - 0xA0;
    HexReads(n);
    assert HexValue('0') == Some(0) && HexValue('2') == Some(2);
    assert "\\u202" + [Hex(n)] == ['\\', 'u', '2', '0', '2', Hex(n)];
    ReadUnit('2', '0', '2', Hex(n), t);
    assert Utf8(0x2020 + n) == s[..3];
  }

  lemma RuneIsRaw(s: string)
    requires s != "" && RuneLength(s) > 0
    requires RuneLength(s) == 1 ==> !ShortEscape(s[0]) && !LongEscape(s[0])
    ensures forall c | c in s[..RuneLength(s)] :: Raw(c)
  {
    assert forall k | 0 <= k < RuneLength(s) :: Raw(s[k]);
  }

  /** The piece written for the first rune is read back as that rune. */
  lemma ReadPiece(s: string, t: string)
    requires s != "" && RuneLength(s) > 0
    ensures Read(Piece(s) + t) == Prepend(Some(s[..Advance(s)]), Read(t))
  {
    hide Read, Hex, Prepend, RuneLength, ShortEscape, LongEscape, ShortLetter, Raw;
    if RuneLength(s) == 1 && ShortEscape(s[0]) {
      ReadShort(s[0], t);
      assert s[..1] == [s[0]];
    } else if RuneLength(s) == 1 && LongEscape(s[0]) {
      assert s[0] as int < 128 by { AsciiRune(s); }
      ReadLong(s[0], t);
      assert s[..1] == [s[0]];
    } else if LineSeparator(s) {
      ReadSeparator(s, t);
    } else {
      RuneIsRaw(s);
      ReadRaw(s[..RuneLength(s)], t);
    }
  }

  lemma AsciiRune(s: string)
    requires RuneLength(s) == 1
    ensures s[0] as int < 128
  {
  }

  lemma {:induction false} ReadContent(s: string)
    requires ValidUtf8(s)
    ensures Read(Content(s)) == Some(s)
    decreases |s|
  {
    hide Read, Piece;
    if s == "" {
      ReadRaw("", "");
      assert Read("") == Some("") by { ReadEmpty(); }
    } else {
      var tail := s[Advance(s)..];
      ReadContent(tail);
      ReadPiece(s, Content(tail));
      assert s[..Advance(s)] + tail == s;
    }
  }

  lemma ReadEmpty()
    ensures Read("") == Some("")
  {
  }

  /** Every valid UTF-8 string is read back from its JSON form. */
  lemma UnquoteQuote(s: string)
    requires ValidUtf8(s)
    ensures Unquote(Quote(s)) == Some(s)
  {
    hide Read, Content, ValidUtf8;
    ReadContent(s);
    assert Quote(s)[1..|Quote(s)| - 1] == Content(s);
  }

  predicate Plain(c: char) {
    c as int < 128 && !ShortEscape(c) && !LongEscape(c)
  }

  /** Plain text is its own JSON form. */
  lemma {:induction false} PlainContent(s: string)
    requires forall c | c in s :: Plain(c)
    ensures Content(s) == s && ValidUtf8(s)
  {
    if s != "" {
      assert Plain(s[0]);
      PlainContent(s[1..]);
      assert s[..1] + s[1..] == s;
    }
  }

  lemma DigitIsPlain(n: int)
    requires 0 <= n < 64
    ensures Plain(Digit(n))
  {
  }

  lemma GroupIsPlain(g: string)
    requires 1 <= |g| <= 3 && Bytes(g)
    ensures forall c | c in EncodeGroup(g) :: Plain(c)
  {
    hide Digit, Plain;
    forall n | 0 <= n < 64 ensures Plain(Digit(n)) { DigitIsPlain(n); }
    assert Plain('=') by { PadIsPlain(); }
  }

  lemma PadIsPlain()
    ensures Plain('=')
  {
  }

  lemma {:induction false} EncodeIsPlain(b: string)
    requires Bytes(b)
    ensures forall c | c in Encode(b) :: Plain(c)
    ensures |Encode(b)| == (|b| + 2) / 3 * 4
    decreases |b|
  {
    hide EncodeGroup, Plain;
    if b != "" {
      GroupIsPlain(b[..HeadSize(b)]);
      EncodeIsPlain(b[HeadSize(b)..]);
    }
  }

  // ---------- the stored response ----------

  function Kept(read: string): string {
    if |read| > LIMIT then read[..LIMIT] else read
  }

  predicate FitsAsText(b: string) {
    ValidUtf8(b) && |Quote(b)| <= |b| * 4 / 3 + 16
  }

  /** The result stored for a response of which `read` could be read; `failed` if reading ended in an error. */
  function Record(httpStatus: int, headers: map<string, seq<string>>, read: string, failed: bool): Response
    requires Bytes(read)
  {
    var b := Kept(read);
    var text := FitsAsText(b);
    Response(httpStatus, headers, if text then b else Encode(b), if text then "utf-8" else "base64",
             |read| > LIMIT, failed)
  }

  function DecodeBody(r: Response): Option<string> {
    if r.encoding == "utf-8" then Some(r.body) else if r.encoding == "base64" then Decode(r.body) else None
  }

  /** What io.LimitReader(body, LIMIT + 1) lets through of a response body. */
  function ReadLimited(body: string): string {
    if |body| > LIMIT + 1 then body[..LIMIT + 1] else body
  }

  /** The stored body decodes, by its label, to exactly the first 2^20 bytes of the response; it is stored as text
      exactly when they are UTF-8 and their JSON form is at most a third longer and 16 bytes; truncation is reported
      exactly when there were more; and its JSON form reads back as it and takes at most 4k/3 + 16 bytes for k kept
      bytes. Status and headers are stored as they are. */
  lemma RecordLossless(httpStatus: int, headers: map<string, seq<string>>, body: string, failed: bool)
    requires Bytes(body)
    ensures Bytes(ReadLimited(body))
    ensures var r := Record(httpStatus, headers, ReadLimited(body), failed);
            var k := if |body| <= 1048576 then |body| else 1048576;
            r.httpStatus == httpStatus && r.headers == headers
            && DecodeBody(r) == Some(body[..k]) && (r.truncated <==> |body| > 1048576) && (r.incomplete <==> failed)
            && Unquote(Quote(r.body)) == Some(r.body) && |Quote(r.body)| <= k * 4 / 3 + 16 < 2 * 1024 * 1024
            && (r.encoding == "utf-8" <==> ValidUtf8(body[..k]) && |Quote(body[..k])| <= k * 4 / 3 + 16)
            && (r.encoding == "utf-8" ==> r.body == body[..k])
            && (r.encoding != "utf-8" ==> r.encoding == "base64" && Decode(r.body) == Some(body[..k]))
  {
    hide Content, Unquote, ValidUtf8;
    var b := Kept(ReadLimited(body));
    var k := if |body| <= 1048576 then |body| else 1048576;
    assert b == body[..k];
    if !FitsAsText(b) {
      DecodeEncode(b);
      EncodeIsPlain(b);
      PlainContent(Encode(b));
    }
    UnquoteQuote(if FitsAsText(b) then b else Encode(b));
  }
}
